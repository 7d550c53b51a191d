/** Redacting a JSON-like payload before it is persisted or published
    (foundation/redaction.py). */
module PayloadRedaction {
  import opened CredentialRules
  import opened MarkerScan
  import opened Redaction

  datatype Json =
    | Null
    | Boolean(b: bool)
    | Number(n: real)
    | Text(text: string)
    | List(items: seq<Json>)
    | Tuple(items: seq<Json>)
    | Object(fields: seq<Field>)

  /** A dictionary keeps its insertion order. */
  datatype Field = Field(key: string, value: Json)

  const MIN_SECRET_LEN := 6

  /** Placeholders and empty settings are too short to be scrubbed everywhere. */
  function KnownSecrets(candidates: seq<string>): (secrets: seq<string>)
    ensures forall s :: s in secrets <==> s in candidates && |s| >= 6
  {
    if candidates == [] then []
    else (if |candidates[0]| >= MIN_SECRET_LEN then [candidates[0]] else []) + KnownSecrets(candidates[1..])
  }

  function Rules(secrets: seq<string>): (rules: seq<Rule>)
    ensures forall q :: q in rules <==> q in SHAPES || (q.Secret? && q.text in secrets)
  {
    SecretRules(secrets) + SHAPES
  }

  function SecretRules(secrets: seq<string>): (rules: seq<Rule>)
    ensures forall q :: q in rules <==> q.Secret? && q.text in secrets
  {
    if secrets == [] then [] else [Secret(secrets[0])] + SecretRules(secrets[1..])
  }

  const SENSITIVE_KEY_PARTS := [
    "password", "passwd", "secret", "token", "api_key", "apikey", "access_key", "secret_key",
    "authorization", "credential", "private_key", "client_secret", "auth_token"
  ]

  predicate ContainsAny(v: string, parts: seq<string>) {
    parts != [] && (Contains(v, parts[0]) || ContainsAny(v, parts[1..]))
  }

  /** The secrets to scrub, the lower-casing that sensitive key names are read in, and how a number is
      written out in JSON. */
  datatype Policy = Policy(secrets: seq<string>, lower: string -> string, render: real -> string) {
    predicate Sensitive(key: string) {
      ContainsAny(lower(key), SENSITIVE_KEY_PARTS)
    }

    /** Secrets that can share no character with a marker: they neither start nor end inside it nor
        reach over it. */
    ghost predicate Scrubbable() {
      forall s | s in secrets :: s != "" && Avoids(s)
    }
  }

  // ---- Strings ----

  function RedactedString(value: string, secrets: seq<string>): string {
    SubAll(value, Rules(secrets))
  }

  /** First the known secrets, then the credential shapes. */
  method RedactStr(value: string, secrets: seq<string>) returns (r: string)
    requires forall s | s in secrets :: s != ""
    ensures r == RedactedString(value, secrets)
  {
    r := value;
    for i := 0 to |secrets|
      invariant SubAll(r, Rules(secrets[i..])) == RedactedString(value, secrets)
    {
      NextRule(r, secrets[i..]);
      assert secrets[i..][1..] == secrets[i + 1..];
      if Contains(r, secrets[i]) {
        r := Sub(r, Secret(secrets[i]));
      } else {
        AbsentIsFree(r, secrets[i]);
        SubIsIdle(r, Secret(secrets[i]));
      }
    }
    assert Rules(secrets[|secrets|..]) == SHAPES;
    r := SubEach(r, SHAPES);
  }

  method SubEach(value: string, patterns: seq<Rule>) returns (r: string)
    ensures r == SubAll(value, patterns)
  {
    r := value;
    for i := 0 to |patterns|
      invariant SubAll(r, patterns[i..]) == SubAll(value, patterns)
    {
      assert patterns[i..][1..] == patterns[i + 1..];
      r := Sub(r, patterns[i]);
    }
  }

  lemma NextRule(v: string, secrets: seq<string>)
    requires secrets != []
    ensures SubAll(v, Rules(secrets)) == SubAll(Sub(v, Secret(secrets[0])), Rules(secrets[1..]))
  {
    assert Rules(secrets)[1..] == Rules(secrets[1..]);
  }

  lemma AbsentIsFree(v: string, s: string)
    requires !Contains(v, s)
    ensures Free(v, Secret(s))
  {
    forall t, i | At(v, t, i) ensures !Hit(Secret(s), t) {
      assert !At(v, s, i);
    }
  }

  lemma RulesAreSound(policy: Policy)
    requires policy.Scrubbable()
    ensures Sound(Rules(policy.secrets))
  {
    ShapesAreSound();
    forall q | q in Rules(policy.secrets) ensures WellFormed(q) && Clear(q) {
      assert q in SHAPES || (q.Secret? && q.text in policy.secrets);
    }
  }

  // ---- Payloads ----

  /** A redacted copy of a JSON-like value. */
  function RedactValue(policy: Policy, v: Json): Json
    decreases v
  {
    match v
    case Text(s) => Text(RedactedString(s, policy.secrets))
    case Object(fields) => Object(seq(|fields|, i requires 0 <= i < |fields| =>
      Field(fields[i].key, if policy.Sensitive(fields[i].key) then Text(MARKER) else RedactValue(policy, fields[i].value))))
    case List(items) => List(seq(|items|, i requires 0 <= i < |items| => RedactValue(policy, items[i])))
    case Tuple(items) => List(seq(|items|, i requires 0 <= i < |items| => RedactValue(policy, items[i])))
    case _ => v
  }

  function RedactPayload(policy: Policy, fields: seq<Field>): seq<Field> {
    RedactValue(policy, Object(fields)).fields
  }

  /** No string value at any depth has a hit of a rule. */
  ghost predicate Clean(rules: seq<Rule>, v: Json)
    decreases v
  {
    match v
    case Text(s) => AllFree(s, rules)
    case Object(fields) => forall i | 0 <= i < |fields| :: Clean(rules, fields[i].value)
    case List(items) => forall i | 0 <= i < |items| :: Clean(rules, items[i])
    case Tuple(items) => forall i | 0 <= i < |items| :: Clean(rules, items[i])
    case _ => true
  }

  /** The copy has the same keys in the same order, lists of the same length, the same scalars,
      and the marker under every sensitive key. */
  ghost predicate SameShape(policy: Policy, v: Json, r: Json)
    decreases v
  {
    match v
    case Text(_) => r.Text?
    case Object(fields) =>
      r.Object? && |r.fields| == |fields|
      && (forall i | 0 <= i < |fields| :: r.fields[i].key == fields[i].key)
      && (forall i | 0 <= i < |fields| ::
            if policy.Sensitive(fields[i].key) then r.fields[i].value == Text(MARKER) else SameShape(policy, fields[i].value, r.fields[i].value))
    case List(items) => r.List? && |r.items| == |items| && forall i | 0 <= i < |items| :: SameShape(policy, items[i], r.items[i])
    case Tuple(items) => r.List? && |r.items| == |items| && forall i | 0 <= i < |items| :: SameShape(policy, items[i], r.items[i])
    case _ => r == v
  }

  lemma {:induction false} ShapeIsKept(policy: Policy, v: Json)
    ensures SameShape(policy, v, RedactValue(policy, v))
    decreases v
  {
    match v
    case Object(fields) => forall i | 0 <= i < |fields| { ShapeIsKept(policy, fields[i].value); }
    case List(items) => forall i | 0 <= i < |items| { ShapeIsKept(policy, items[i]); }
    case Tuple(items) => forall i | 0 <= i < |items| { ShapeIsKept(policy, items[i]); }
    case _ =>
  }

  // ---- Sensitive keys ----

  lemma ContainsMeaning(v: string, part: string)
    ensures Contains(v, part) <==> exists i :: 0 <= i <= |v| - |part| && v[i..][..|part|] == part
  {
    if Contains(v, part) {
      var i :| 0 <= i <= |v| && At(v, part, i);
      assert v[i..][..|part|] == v[i..i + |part|];
    }
    if i :| 0 <= i <= |v| - |part| && v[i..][..|part|] == part {
      assert v[i..][..|part|] == v[i..i + |part|];
      assert At(v, part, i);
    }
  }

  lemma {:induction false} ContainsAnyMeaning(v: string, parts: seq<string>)
    ensures ContainsAny(v, parts) <==> exists part :: part in parts && Contains(v, part)
  {
    if parts != [] {
      ContainsAnyMeaning(v, parts[1..]);
      assert parts == [parts[0]] + parts[1..] && parts[0] in parts;
    }
  }

  /** A key is sensitive if and only if one of these names stands somewhere in it, lower-cased. */
  lemma SensitiveIff(policy: Policy, key: string)
    ensures var text := policy.lower(key);
      policy.Sensitive(key) <==>
        exists part, i :: part in ["password", "passwd", "secret", "token", "api_key", "apikey", "access_key", "secret_key",
                                   "authorization", "credential", "private_key", "client_secret", "auth_token"]
          && 0 <= i <= |text| - |part| && text[i..][..|part|] == part
  {
    var text := policy.lower(key);
    ContainsAnyMeaning(text, SENSITIVE_KEY_PARTS);
    forall part ensures Contains(text, part) <==> exists i :: 0 <= i <= |text| - |part| && text[i..][..|part|] == part {
      ContainsMeaning(text, part);
    }
  }

  /** In a redacted object, every field keeps its key; its value is the marker if one of the names stands in
      the lower-cased key, and the redaction of the old value otherwise. */
  lemma FieldsAreMarkedOrRedacted(policy: Policy, fields: seq<Field>, k: nat)
    requires k < |fields|
    ensures var text, r := policy.lower(fields[k].key), RedactValue(policy, Object(fields));
      && r.Object? && |r.fields| == |fields| && r.fields[k].key == fields[k].key
      && r.fields[k].value ==
           if exists part, i :: part in ["password", "passwd", "secret", "token", "api_key", "apikey", "access_key", "secret_key",
                                         "authorization", "credential", "private_key", "client_secret", "auth_token"]
                && 0 <= i <= |text| - |part| && text[i..][..|part|] == part
           then Text("[REDACTED]")
           else RedactValue(policy, fields[k].value)
  {
    SensitiveIff(policy, fields[k].key);
  }

  /** The part of a value at the end of a path of positions. */
  function PartAt(v: Json, path: seq<nat>): Option<Json> {
    if path == [] then Some(v)
    else match v
      case Object(fields) => if path[0] < |fields| then PartAt(fields[path[0]].value, path[1..]) else None
      case List(items) => if path[0] < |items| then PartAt(items[path[0]], path[1..]) else None
      case Tuple(items) => if path[0] < |items| then PartAt(items[path[0]], path[1..]) else None
      case _ => None
  }

  /** No sensitive key is on the path. */
  predicate Visible(policy: Policy, v: Json, path: seq<nat>) {
    path == [] || match v
      case Object(fields) => path[0] < |fields| && !policy.Sensitive(fields[path[0]].key) && Visible(policy, fields[path[0]].value, path[1..])
      case List(items) => path[0] < |items| && Visible(policy, items[path[0]], path[1..])
      case Tuple(items) => path[0] < |items| && Visible(policy, items[path[0]], path[1..])
      case _ => false
  }

  /** Paths step by step: into a field of an object, or an element of a list or tuple; a sensitive key hides what is below. */
  lemma PathMeaning(policy: Policy, v: Json, k: nat, rest: seq<nat>)
    ensures PartAt(v, []) == Some(v) && Visible(policy, v, [])
    ensures v.Object? && k < |v.fields| ==>
      && PartAt(v, [k] + rest) == PartAt(v.fields[k].value, rest)
      && (Visible(policy, v, [k] + rest) <==> !policy.Sensitive(v.fields[k].key) && Visible(policy, v.fields[k].value, rest))
    ensures (v.List? || v.Tuple?) && k < |v.items| ==>
      PartAt(v, [k] + rest) == PartAt(v.items[k], rest) && (Visible(policy, v, [k] + rest) <==> Visible(policy, v.items[k], rest))
  {
    assert ([k] + rest)[1..] == rest;
  }

  /** At every depth: a visible part of the payload comes out as its own redaction. */
  lemma {:induction false} PartsAreRedacted(policy: Policy, v: Json, path: seq<nat>)
    requires Visible(policy, v, path)
    ensures PartAt(v, path).Some? && PartAt(RedactValue(policy, v), path) == Some(RedactValue(policy, PartAt(v, path).value))
    decreases |path|
  {
    if path != [] {
      match v
      case Object(fields) => PartsAreRedacted(policy, fields[path[0]].value, path[1..]);
      case List(items) => PartsAreRedacted(policy, items[path[0]], path[1..]);
      case Tuple(items) => PartsAreRedacted(policy, items[path[0]], path[1..]);
    }
  }

  /** The value of a password, whatever it is. */
  lemma PasswordIsMarked(policy: Policy, v: Json)
    requires policy.lower("password") == "password"
    ensures RedactValue(policy, Object([Field("password", v)])) == Object([Field("password", Text("[REDACTED]"))])
  {
    var fields := [Field("password", v)];
    assert At("password", "password", 0);
    assert Contains("password", SENSITIVE_KEY_PARTS[0]);
    assert RedactValue(policy, Object(fields)).fields == [Field("password", Text("[REDACTED]"))];
  }

  lemma MarkerHasNoHit(q: Rule)
    requires WellFormed(q) && Clear(q)
    ensures Free(MARKER, q)
  {
    EmptyIsNoHit(q);
    forall t, i | At(MARKER, t, i) ensures !Hit(q, t) {
      assert t != "" ==> Overlaps(t, i);
    }
  }

  lemma MarkerIsFree(policy: Policy)
    requires policy.Scrubbable()
    ensures AllFree(MARKER, Rules(policy.secrets))
  {
    RulesAreSound(policy);
    forall q | q in Rules(policy.secrets) ensures Free(MARKER, q) {
      MarkerHasNoHit(q);
    }
  }

  /** Completeness: no known secret and no credential shape is left in any string value. */
  lemma {:induction false} RedactionIsComplete(policy: Policy, v: Json)
    requires policy.Scrubbable()
    ensures Clean(Rules(policy.secrets), RedactValue(policy, v))
    decreases v
  {
    match v
    case Text(s) =>
      RulesAreSound(policy);
      SubAllIsComplete(s, Rules(policy.secrets));
    case Object(fields) =>
      MarkerIsFree(policy);
      forall i | 0 <= i < |fields| { RedactionIsComplete(policy, fields[i].value); }
    case List(items) => forall i | 0 <= i < |items| { RedactionIsComplete(policy, items[i]); }
    case Tuple(items) => forall i | 0 <= i < |items| { RedactionIsComplete(policy, items[i]); }
    case _ =>
  }

  /** Values that redaction leaves alone: clean, without tuples, already marked under sensitive keys. */
  ghost predicate Settled(policy: Policy, v: Json)
    decreases v
  {
    match v
    case Text(s) => AllFree(s, Rules(policy.secrets))
    case Object(fields) => forall i | 0 <= i < |fields| ::
        if policy.Sensitive(fields[i].key) then fields[i].value == Text(MARKER) else Settled(policy, fields[i].value)
    case List(items) => forall i | 0 <= i < |items| :: Settled(policy, items[i])
    case Tuple(_) => false
    case _ => true
  }

  /** Redaction is the identity on exactly the settled values. */
  lemma {:induction false} UnchangedIffSettled(policy: Policy, v: Json)
    requires policy.Scrubbable()
    ensures RedactValue(policy, v) == v <==> Settled(policy, v)
    decreases v
  {
    match v
    case Text(s) =>
      RulesAreSound(policy);
      SubAllIsComplete(s, Rules(policy.secrets));
      if AllFree(s, Rules(policy.secrets)) { SubAllIsIdle(s, Rules(policy.secrets)); }
    case Object(fields) =>
      forall i | 0 <= i < |fields| { UnchangedIffSettled(policy, fields[i].value); }
      var r := RedactValue(policy, v).fields;
      assert r == fields <==> forall i | 0 <= i < |fields| :: r[i].value == fields[i].value;
    case List(items) =>
      forall i | 0 <= i < |items| { UnchangedIffSettled(policy, items[i]); }
      var r := RedactValue(policy, v).items;
      assert r == items <==> forall i | 0 <= i < |items| :: r[i] == items[i];
    case _ =>
  }

  lemma {:induction false} RedactedIsSettled(policy: Policy, v: Json)
    requires policy.Scrubbable()
    ensures Settled(policy, RedactValue(policy, v))
    decreases v
  {
    match v
    case Text(s) => RedactionIsComplete(policy, v);
    case Object(fields) => forall i | 0 <= i < |fields| { RedactedIsSettled(policy, fields[i].value); }
    case List(items) => forall i | 0 <= i < |items| { RedactedIsSettled(policy, items[i]); }
    case Tuple(items) => forall i | 0 <= i < |items| { RedactedIsSettled(policy, items[i]); }
    case _ =>
  }

  /** Redacting twice is redacting once. */
  lemma RedactionIsIdempotent(policy: Policy, v: Json)
    requires policy.Scrubbable()
    ensures RedactValue(policy, RedactValue(policy, v)) == RedactValue(policy, v)
  {
    RedactedIsSettled(policy, v);
    UnchangedIffSettled(policy, RedactValue(policy, v));
  }

  // ---- Where completeness ends ----

  lemma {:induction false} ScanMarks(v: string, m: Matcher)
    ensures Scan(v, m) == v || Contains(Scan(v, m), MARKER)
    decreases |v|
  {
    if v != "" {
      if Matches(m, v) {
        assert At(Scan(v, m), MARKER, 0);
      } else {
        ScanMarks(v[1..], m);
        if Contains(Scan(v[1..], m), MARKER) {
          var i :| 0 <= i <= |Scan(v[1..], m)| && At(Scan(v[1..], m), MARKER, i);
          SliceBehind([v[0]], Scan(v[1..], m), i + 1, i + 1 + |MARKER|);
          assert At(Scan(v, m), MARKER, i + 1);
        }
      }
    }
  }

  lemma {:induction false} MarkerStays(v: string, rules: seq<Rule>)
    requires Contains(v, MARKER)
    ensures Contains(SubAll(v, rules), MARKER)
    decreases |rules|
  {
    if rules != [] {
      ScanMarks(v, MatcherOf(rules[0]));
      MarkerStays(Sub(v, rules[0]), rules[1..]);
    }
  }

  lemma {:induction false} SecretBecomesMarker(s: string, rules: seq<Rule>)
    requires s != "" && Secret(s) in rules
    ensures Contains(SubAll(s, rules), MARKER)
    decreases |rules|
  {
    ScanMarks(s, MatcherOf(rules[0]));
    if rules[0] == Secret(s) {
      assert Matches(MatcherOf(rules[0]), s);
      assert At(Sub(s, rules[0]), MARKER, 0);
    }
    if Contains(Sub(s, rules[0]), MARKER) {
      MarkerStays(Sub(s, rules[0]), rules[1..]);
    } else {
      SecretBecomesMarker(s, rules[1..]);
    }
  }

  lemma ContainsIsTransitive(a: string, b: string, c: string)
    requires Contains(a, b) && Contains(b, c)
    ensures Contains(a, c)
  {
    var i :| 0 <= i <= |a| && At(a, b, i);
    var j :| 0 <= j <= |b| && At(b, c, j);
    assert |a[i + j..i + j + |c|]| == |c|;
    forall k | 0 <= k < |c| ensures a[i + j..i + j + |c|][k] == c[k] {
      assert a[i..i + |b|][j + k] == a[i + j + k];
      assert b[j..j + |c|][k] == b[j + k];
    }
    assert At(a, c, i + j);
  }

  /** Among secrets without brackets, the known secrets vanish from every string exactly when none
      of them is a piece of the marker. */
  lemma SecretsVanishIff(policy: Policy)
    requires forall s | s in policy.secrets :: s != "" && Bracketless(s)
    ensures (forall v, s | s in policy.secrets :: Free(RedactedString(v, policy.secrets), Secret(s)))
      <==> (forall s | s in policy.secrets :: !Contains(MARKER, s))
  {
    if s :| s in policy.secrets && Contains(MARKER, s) {
      SecretBecomesMarker(s, Rules(policy.secrets));
      ContainsIsTransitive(RedactedString(s, policy.secrets), MARKER, s);
      var i :| 0 <= i <= |RedactedString(s, policy.secrets)| && At(RedactedString(s, policy.secrets), s, i);
      assert !Free(RedactedString(s, policy.secrets), Secret(s));
    } else {
      forall s | s in policy.secrets ensures Avoids(s) {
        BracketlessAvoids(s);
      }
      RulesAreSound(policy);
      forall v, s | s in policy.secrets ensures Free(RedactedString(v, policy.secrets), Secret(s)) {
        SubAllIsComplete(v, Rules(policy.secrets));
        assert Secret(s) in Rules(policy.secrets);
      }
    }
  }

  /** No key at any depth has a hit. */
  ghost predicate KeysClean(rules: seq<Rule>, v: Json)
    decreases v
  {
    match v
    case Object(fields) => forall i | 0 <= i < |fields| :: AllFree(fields[i].key, rules) && KeysClean(rules, fields[i].value)
    case List(items) => forall i | 0 <= i < |items| :: KeysClean(rules, items[i])
    case Tuple(items) => forall i | 0 <= i < |items| :: KeysClean(rules, items[i])
    case _ => true
  }

  /** No key outside the values of sensitive keys has a hit. */
  ghost predicate VisibleKeysClean(policy: Policy, v: Json)
    decreases v
  {
    match v
    case Object(fields) => forall i | 0 <= i < |fields| ::
        AllFree(fields[i].key, Rules(policy.secrets)) && (policy.Sensitive(fields[i].key) || VisibleKeysClean(policy, fields[i].value))
    case List(items) => forall i | 0 <= i < |items| :: VisibleKeysClean(policy, items[i])
    case Tuple(items) => forall i | 0 <= i < |items| :: VisibleKeysClean(policy, items[i])
    case _ => true
  }

  lemma {:induction false} KeysPassThrough(policy: Policy, v: Json)
    ensures KeysClean(Rules(policy.secrets), RedactValue(policy, v)) <==> VisibleKeysClean(policy, v)
    decreases v
  {
    match v
    case Object(fields) =>
      forall i | 0 <= i < |fields| { KeysPassThrough(policy, fields[i].value); }
      var r := RedactValue(policy, v).fields;
      assert forall i | 0 <= i < |fields| :: r[i].key == fields[i].key;
      assert forall i | 0 <= i < |fields| :: r[i].value == if policy.Sensitive(fields[i].key) then Text(MARKER) else RedactValue(policy, fields[i].value);
    case List(items) =>
      forall i | 0 <= i < |items| { KeysPassThrough(policy, items[i]); }
      assert forall i | 0 <= i < |items| :: RedactValue(policy, v).items[i] == RedactValue(policy, items[i]);
    case Tuple(items) =>
      forall i | 0 <= i < |items| { KeysPassThrough(policy, items[i]); }
      assert forall i | 0 <= i < |items| :: RedactValue(policy, v).items[i] == RedactValue(policy, items[i]);
    case _ =>
  }

  predicate IsScalar(v: Json) { v.Null? || v.Boolean? || v.Number? }

  /** A scalar as JSON writes it. */
  function Written(policy: Policy, v: Json): string
    requires IsScalar(v)
  {
    match v
    case Null => "null"
    case Boolean(b) => if b then "true" else "false"
    case Number(n) => policy.render(n)
  }

  /** JSON's words for the scalars that are not numbers. */
  lemma WordsForScalars(policy: Policy)
    ensures Written(policy, Null) == "null" && Written(policy, Boolean(true)) == "true" && Written(policy, Boolean(false)) == "false"
    ensures forall n :: Written(policy, Number(n)) == policy.render(n)
  {
  }

  /** No number, truth value or null at any depth has a hit as it is written. */
  ghost predicate ScalarsClean(policy: Policy, v: Json)
    decreases v
  {
    match v
    case Text(_) => true
    case Object(fields) => forall i | 0 <= i < |fields| :: ScalarsClean(policy, fields[i].value)
    case List(items) => forall i | 0 <= i < |items| :: ScalarsClean(policy, items[i])
    case Tuple(items) => forall i | 0 <= i < |items| :: ScalarsClean(policy, items[i])
    case _ => AllFree(Written(policy, v), Rules(policy.secrets))
  }

  /** No such scalar outside the values of sensitive keys has a hit. */
  ghost predicate VisibleScalarsClean(policy: Policy, v: Json)
    decreases v
  {
    match v
    case Text(_) => true
    case Object(fields) => forall i | 0 <= i < |fields| :: policy.Sensitive(fields[i].key) || VisibleScalarsClean(policy, fields[i].value)
    case List(items) => forall i | 0 <= i < |items| :: VisibleScalarsClean(policy, items[i])
    case Tuple(items) => forall i | 0 <= i < |items| :: VisibleScalarsClean(policy, items[i])
    case _ => AllFree(Written(policy, v), Rules(policy.secrets))
  }

  lemma {:induction false} ScalarsPassThrough(policy: Policy, v: Json)
    ensures ScalarsClean(policy, RedactValue(policy, v)) <==> VisibleScalarsClean(policy, v)
    decreases v
  {
    match v
    case Object(fields) =>
      forall i | 0 <= i < |fields| { ScalarsPassThrough(policy, fields[i].value); }
      var r := RedactValue(policy, v).fields;
      assert forall i | 0 <= i < |fields| :: r[i].value == if policy.Sensitive(fields[i].key) then Text(MARKER) else RedactValue(policy, fields[i].value);
    case List(items) =>
      forall i | 0 <= i < |items| { ScalarsPassThrough(policy, items[i]); }
      assert forall i | 0 <= i < |items| :: RedactValue(policy, v).items[i] == RedactValue(policy, items[i]);
    case Tuple(items) =>
      forall i | 0 <= i < |items| { ScalarsPassThrough(policy, items[i]); }
      assert forall i | 0 <= i < |items| :: RedactValue(policy, v).items[i] == RedactValue(policy, items[i]);
    case _ =>
  }

  /** No key, no string and no written scalar at any depth has a hit. */
  ghost predicate NothingShows(policy: Policy, v: Json) {
    Clean(Rules(policy.secrets), v) && KeysClean(Rules(policy.secrets), v) && ScalarsClean(policy, v)
  }

  /** Dictionary keys and scalars pass through as they are. So nothing slips through, in a key, a string or a
      written scalar, exactly when no visible key and no visible scalar holds a secret. */
  lemma NothingSlipsThroughIff(policy: Policy, v: Json)
    requires policy.Scrubbable()
    ensures NothingShows(policy, RedactValue(policy, v)) <==> VisibleKeysClean(policy, v) && VisibleScalarsClean(policy, v)
  {
    RedactionIsComplete(policy, v);
    KeysPassThrough(policy, v);
    ScalarsPassThrough(policy, v);
  }

  /** A known secret used as a key is still there. */
  lemma KeySlipsThrough(policy: Policy)
    requires policy.secrets == ["hunter2!"]
    ensures var r := RedactValue(policy, Object([Field("hunter2!", Null)]));
      r.fields[0].key == "hunter2!" && !NothingShows(policy, r)
  {
    var r := RedactValue(policy, Object([Field("hunter2!", Null)]));
    ShowsItself(policy, r.fields[0].key);
    assert !KeysClean(Rules(policy.secrets), r);
  }

  /** A known secret made of digits is still there as a number, though no key holds it. */
  lemma NumberSlipsThrough(policy: Policy)
    requires policy.secrets == ["123456"] && policy.render(123456.0) == "123456"
    ensures var v := List([Number(123456.0)]);
      policy.Scrubbable() && RedactValue(policy, v) == v && VisibleKeysClean(policy, v) && !NothingShows(policy, v)
  {
    var v := List([Number(123456.0)]);
    assert v.items[0] == Number(123456.0);
    forall i | 0 <= i <= |MARKER| ensures !At(MARKER, "123456", i) {
      assert i <= 4 ==> MARKER[i..i + 6][0] == MARKER[i] != "123456"[0];
    }
    BracketlessAvoids("123456");
    ShowsItself(policy, "123456");
    assert !ScalarsClean(policy, v.items[0]);
  }

  lemma ShowsItself(policy: Policy, s: string)
    requires s in policy.secrets
    ensures !AllFree(s, Rules(policy.secrets))
  {
    assert At(s, s, 0) && Hit(Secret(s), s);
    assert Secret(s) in Rules(policy.secrets);
  }
}
