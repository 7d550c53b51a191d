/** Redacting a string with a list of rules (foundation/redaction.py). */
module Redaction {
  import opened CredentialRules
  import opened MarkerScan

  // ---- One rule ----

  function MatcherOf(rule: Rule): Matcher {
    v => MatchLength(rule, v)
  }

  function Sub(v: string, rule: Rule): string {
    Scan(v, MatcherOf(rule))
  }

  /** No part of the string is a hit. */
  ghost predicate Free(v: string, rule: Rule) {
    forall t, i | At(v, t, i) :: !Hit(rule, t)
  }

  /** No hit of the rule can lie across or inside a marker. */
  ghost predicate Clear(rule: Rule) {
    forall t | Hit(rule, t) :: Avoids(t)
  }

  lemma EmptyIsNoHit(rule: Rule)
    requires WellFormed(rule)
    ensures !Hit(rule, "")
  {
    MatchLengthMeaning(rule, "");
    assert ""[..0] == "";
  }

  /** Where a hit stands, the matcher matches. */
  lemma HitIsMatched(v: string, rule: Rule, t: string, p: nat)
    requires WellFormed(rule) && Hit(rule, t) && At(v, t, p)
    ensures Matches(MatcherOf(rule), v[p..])
  {
    assert v[p..][..|t|] == v[p..p + |t|];
    MatchLengthMeaning(rule, v[p..]);
  }

  /** Where the matcher matches, a hit stands. */
  lemma MatchedIsHit(v: string, rule: Rule, p: nat) returns (t: string)
    requires WellFormed(rule) && p <= |v| && Matches(MatcherOf(rule), v[p..])
    ensures Hit(rule, t) && At(v, t, p)
  {
    MatchLengthMeaning(rule, v[p..]);
    var n := MatchLength(rule, v[p..]);
    t := v[p..][..n];
    assert v[p..p + n] == t;
  }

  /** After the scan the rule has no hit left. */
  lemma SubRemovesHits(v: string, rule: Rule)
    requires WellFormed(rule) && Clear(rule)
    ensures Free(Sub(v, rule), rule)
  {
    EmptyIsNoHit(rule);
    forall t, i | At(Sub(v, rule), t, i) ensures !Hit(rule, t) {
      if Hit(rule, t) {
        var p := UntouchedInput(v, MatcherOf(rule), t, i);
        HitIsMatched(v, rule, t, p);
      }
    }
  }

  /** Scanning for one rule brings back no hit of another. */
  lemma SubAddsNoHits(v: string, rule: Rule, q: Rule)
    requires WellFormed(q) && Clear(q) && Free(v, q)
    ensures Free(Sub(v, rule), q)
  {
    EmptyIsNoHit(q);
    forall t, i | At(Sub(v, rule), t, i) ensures !Hit(q, t) {
      if Hit(q, t) {
        var p := UntouchedInput(v, MatcherOf(rule), t, i);
      }
    }
  }

  /** Where there is no hit the scan changes nothing. */
  lemma SubIsIdle(v: string, rule: Rule)
    requires WellFormed(rule) && Free(v, rule)
    ensures Sub(v, rule) == v
  {
    forall p | 0 <= p <= |v| ensures !Matches(MatcherOf(rule), v[p..]) {
      if Matches(MatcherOf(rule), v[p..]) {
        var t := MatchedIsHit(v, rule, p);
      }
    }
    ScanWithoutMatch(v, MatcherOf(rule));
  }

  // ---- All the rules in turn ----

  function SubAll(v: string, rules: seq<Rule>): string
    decreases |rules|
  {
    if rules == [] then v else SubAll(Sub(v, rules[0]), rules[1..])
  }

  ghost predicate Sound(rules: seq<Rule>) {
    forall q | q in rules :: WellFormed(q) && Clear(q)
  }

  ghost predicate AllFree(v: string, rules: seq<Rule>) {
    forall q | q in rules :: Free(v, q)
  }

  lemma {:induction false} SubAllKeepsFree(v: string, rules: seq<Rule>, q: Rule)
    requires WellFormed(q) && Clear(q) && Free(v, q)
    ensures Free(SubAll(v, rules), q)
    decreases |rules|
  {
    if rules != [] {
      SubAddsNoHits(v, rules[0], q);
      SubAllKeepsFree(Sub(v, rules[0]), rules[1..], q);
    }
  }

  /** Completeness: no rule has a hit in the result, whatever the order of the rules. */
  lemma {:induction false} SubAllIsComplete(v: string, rules: seq<Rule>)
    requires Sound(rules)
    ensures AllFree(SubAll(v, rules), rules)
    decreases |rules|
  {
    if rules != [] {
      SubRemovesHits(v, rules[0]);
      SubAllKeepsFree(Sub(v, rules[0]), rules[1..], rules[0]);
      SubAllIsComplete(Sub(v, rules[0]), rules[1..]);
    }
  }

  lemma {:induction false} SubAllIsIdle(v: string, rules: seq<Rule>)
    requires Sound(rules) && AllFree(v, rules)
    ensures SubAll(v, rules) == v
  {
    if rules != [] {
      SubIsIdle(v, rules[0]);
      SubAllIsIdle(v, rules[1..]);
    }
  }

  // ---- Which rules are clear of the marker ----

  predicate Bracketless(t: string) {
    '[' !in t && ']' !in t
  }

  lemma OverlapMeaning(t: string, d: int)
    requires Overlaps(t, d)
    ensures !Bracketless(t) || Contains(MARKER, t)
  {
    if d <= 0 {
      assert t[-d] == MARKER[0] == '[';
    } else if d + |t| > 9 {
      assert t[9 - d] == MARKER[9] == ']';
    } else {
      assert At(MARKER, t, d);
    }
  }

  lemma BracketlessAvoids(t: string)
    requires Bracketless(t) && !Contains(MARKER, t)
    ensures Avoids(t)
  {
    forall d ensures !Overlaps(t, d) {
      if Overlaps(t, d) {
        OverlapMeaning(t, d);
      }
    }
  }

  lemma InMarker(t: string)
    requires t != "" && Contains(MARKER, t)
    ensures |t| <= |MARKER| && t[0] in MARKER
  {
    var i :| 0 <= i <= |MARKER| && At(MARKER, t, i);
    assert MARKER[i..i + |t|][0] == MARKER[i];
  }

  predicate ItemsBracketless(items: seq<Item>) {
    items == [] || (!Has(items[0].cls, '[') && !Has(items[0].cls, ']') && ItemsBracketless(items[1..]))
  }

  lemma {:induction false} AcceptedShape(items: seq<Item>, t: string)
    requires Accepts(items, t)
    ensures |t| >= MinLength(items)
    ensures ItemsBracketless(items) ==> Bracketless(t)
    ensures items != [] && items[0].least > 0 ==> t != "" && Has(items[0].cls, t[0])
  {
    if items != [] {
      var k :| TakesFirst(items, t, k) && Accepts(items[1..], t[k..]);
      AcceptedShape(items[1..], t[k..]);
      assert t == t[..k] + t[k..];
      assert ItemsBracketless(items) ==> Bracketless(t[..k]);
      assert k > 0 ==> t[..k][0] == t[0];
    }
  }

  predicate KeepsOffMarker(items: seq<Item>) {
    && Deterministic(items) && MinLength(items) > 0 && ItemsBracketless(items)
    && (MinLength(items) > |MARKER| || (items[0].least > 0 && forall c | c in MARKER :: !Has(items[0].cls, c)))
  }

  lemma PatternIsClear(items: seq<Item>)
    requires KeepsOffMarker(items)
    ensures WellFormed(Pattern(items)) && Clear(Pattern(items))
  {
    forall t | Accepts(items, t) ensures Avoids(t) {
      AcceptedShape(items, t);
      if Contains(MARKER, t) {
        InMarker(t);
      }
      BracketlessAvoids(t);
    }
  }

  lemma GroqKeyIsClear()
    ensures KeepsOffMarker(GROQ_KEY)
  {
    assert MinLength(GROQ_KEY) == 24;
  }

  lemma OpenAiKeyIsClear()
    ensures KeepsOffMarker(OPENAI_KEY)
  {
    assert MinLength(OPENAI_KEY) == 23;
  }

  lemma AwsKeyIsClear()
    ensures KeepsOffMarker(AWS_KEY)
  {
    assert MinLength(AWS_KEY) == 20;
  }

  lemma WebTokenIsClear()
    ensures KeepsOffMarker(WEB_TOKEN)
  {
    assert MinLength(WEB_TOKEN) == 8 && !Has(WEB_TOKEN[0].cls, 'D');
  }

  lemma BearerIsClear()
    ensures KeepsOffMarker(BEARER)
  {
    assert MinLength(BEARER) == 15;
    BearerIsDeterministic();
    BearerIsBracketless();
  }

  lemma BearerIsDeterministic()
    ensures Deterministic(BEARER)
  {
  }

  lemma BearerIsBracketless()
    ensures ItemsBracketless(BEARER)
  {
  }

  lemma ShapesKeepOff(q: Rule)
    requires q in SHAPES
    ensures q.Pattern? && KeepsOffMarker(q.items)
  {
    assert q in [SHAPES[0], SHAPES[1], SHAPES[2], SHAPES[3], SHAPES[4]];
    if q == SHAPES[0] {
      GroqKeyIsClear();
    } else if q == SHAPES[1] {
      OpenAiKeyIsClear();
    } else if q == SHAPES[2] {
      AwsKeyIsClear();
    } else if q == SHAPES[3] {
      WebTokenIsClear();
    } else {
      BearerIsClear();
    }
  }

  lemma ShapesAreSound()
    ensures Sound(SHAPES)
  {
    forall q | q in SHAPES ensures WellFormed(q) && Clear(q) {
      ShapesKeepOff(q);
      PatternIsClear(q.items);
    }
  }
}
