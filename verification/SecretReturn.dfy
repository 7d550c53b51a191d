/** When a known secret can come back: the marker that replaces something else completes a copy of it
    with the text around (foundation/redaction.py). */
module SecretReturn {
  import opened CredentialRules
  import opened MarkerScan
  import opened Redaction
  import opened PayloadRedaction

  // ---- The condition ----

  /** The text ends in the start of a Groq key that any two more letters or digits complete. */
  ghost predicate EndsInKey(u: string) {
    exists n :: KeyTail(u, n) && n >= 18
  }

  /** The text ends in "gsk_" and n letters or digits. */
  ghost predicate KeyTail(u: string, n: nat) {
    && n + 4 <= |u| && u[|u| - n - 4..|u| - n] == "gsk_"
    && AllIn(AlphaNumeric, u[|u| - n..])
  }

  /** Read from the left, the first n characters of s followed by s show an earlier s. */
  ghost predicate Blocked(s: string, n: nat)
    requires n <= |s|
  {
    exists j | 0 <= j < n :: At(s[..n] + s, s, j)
  }

  /** An overlap of s with the marker that some input brings about: s starts inside the marker or reaches
      over its end; or its part before the marker can stand there, in front of a key or of s itself. */
  ghost predicate Returns(s: string, d: int)
    requires Overlaps(s, d)
  {
    d >= 0 || d + |s| >= |MARKER| || !EndsInKey(s[..-d]) || !Blocked(s, -d)
  }

  ghost predicate CanReturn(s: string) {
    AllFree(s, SHAPES) && exists d :: Overlaps(s, d) && Returns(s, d)
  }

  // ---- What passes through a scan ----

  /** The front of a scan's output, up to n: copied input in which nothing matches, and then, if that
      ends before n, a marker for a match. */
  lemma {:induction false} FrontCopied(v: string, m: Matcher, n: nat) returns (d: nat)
    requires n <= |Scan(v, m)|
    ensures d <= n && d <= |v| && Scan(v, m)[..d] == v[..d]
    ensures forall q | 0 <= q < d :: !Matches(m, v[q..])
    ensures d < n ==> Matches(m, v[d..]) && At(Scan(v, m), MARKER, d)
    decreases |v|
  {
    if v == "" || n == 0 {
      d := 0;
    } else if Matches(m, v) {
      d := 0;
      assert v[0..] == v && Scan(v, m)[0..|MARKER|] == MARKER;
    } else {
      var tail := Scan(v[1..], m);
      var e := FrontCopied(v[1..], m, n - 1);
      d := e + 1;
      SamePrefix(v, tail, e);
      forall q | 0 <= q < d ensures !Matches(m, v[q..]) {
        if q == 0 { assert v[0..] == v; } else { assert v[1..][q - 1..] == v[q..]; }
      }
      if d < n {
        assert v[1..][e..] == v[d..];
        SliceBehind([v[0]], tail, d, d + |MARKER|);
      }
    }
  }

  /** Every overlap of t with the marker runs into it from the left and ends inside it. */
  ghost predicate OnlyRunsInto(t: string) {
    forall d | Overlaps(t, d) :: d < 0 && d + |t| < |MARKER|
  }

  /** Nothing matches at any of the n places from p on. */
  ghost predicate Passed(v: string, m: Matcher, p: nat, n: nat)
    requires p + n <= |v|
  {
    n == 0 || (Passed(v, m, p, n - 1) && !Matches(m, v[p + n - 1..]))
  }

  lemma {:induction false} PassedAt(v: string, m: Matcher, p: nat, n: nat, q: nat)
    requires p <= q < p + n <= |v| && Passed(v, m, p, n)
    ensures !Matches(m, v[q..])
  {
    if q < p + n - 1 {
      PassedAt(v, m, p, n - 1, q);
    }
  }

  lemma {:induction false} PassedLater(v: string, m: Matcher, k: nat, p: nat, n: nat)
    requires k + p + n <= |v| && Passed(v[k..], m, p, n)
    ensures Passed(v, m, k + p, n)
  {
    if n > 0 {
      PassedLater(v, m, k, p, n - 1);
      assert v[k..][p + n - 1..] == v[k + p + n - 1..];
    }
  }

  lemma {:induction false} AllPassed(v: string, m: Matcher, n: nat)
    requires n <= |v| && forall q | 0 <= q < n :: !Matches(m, v[q..])
    ensures Passed(v, m, 0, n)
  {
    if n > 0 {
      AllPassed(v, m, n - 1);
    }
  }

  /** Where t in the output comes from: n characters of input in which nothing matches, which are all of
      t, or are followed by a match whose marker completes it. */
  ghost predicate Origin(v: string, m: Matcher, t: string, p: nat, n: nat) {
    && p + n <= |v| && 0 < n <= |t| && v[p..p + n] == t[..n] && Passed(v, m, p, n)
    && (n < |t| ==> Overlaps(t, 0 - n) && Matches(m, v[p + n..]))
  }

  lemma OriginAtFront(v: string, m: Matcher, t: string) returns (n: nat)
    requires t != "" && At(Scan(v, m), t, 0) && !Matches(m, v)
    ensures Origin(v, m, t, 0, n)
  {
    var out := Scan(v, m);
    n := FrontCopied(v, m, |t|);
    AllPassed(v, m, n);
    assert out[..|t|] == t && v[0..] == v;
    assert v[0..n] == out[..n] == t[..n];
    if n < |t| {
      MarkerInside(out, t, 0, n);
    }
  }

  lemma NotInMarker(v: string, m: Matcher, t: string, i: nat)
    requires t != "" && OnlyRunsInto(t) && At(Scan(v, m), t, i) && Matches(m, v)
    ensures i >= |MARKER| && At(Scan(v[m(v)..], m), t, i - |MARKER|)
  {
    var out := Scan(v, m);
    assert At(out, MARKER, 0);
    if i < |MARKER| {
      MarkerInside(out, t, i, 0);
    }
    AtBehind(MARKER, Scan(v[m(v)..], m), t, i);
  }

  lemma {:induction false} OriginOf(v: string, m: Matcher, t: string, i: nat) returns (p: nat, n: nat)
    requires t != "" && OnlyRunsInto(t) && At(Scan(v, m), t, i)
    ensures Origin(v, m, t, p, n)
    decreases |v|
  {
    if Matches(m, v) {
      NotInMarker(v, m, t, i);
      p, n := OriginOf(v[m(v)..], m, t, i - |MARKER|);
      OriginLater(v, m, t, m(v), p, n);
      p := m(v) + p;
    } else if i > 0 {
      AtBehind([v[0]], Scan(v[1..], m), t, i);
      p, n := OriginOf(v[1..], m, t, i - 1);
      OriginLater(v, m, t, 1, p, n);
      p := 1 + p;
    } else {
      n := OriginAtFront(v, m, t);
      p := 0;
    }
  }

  lemma OriginLater(v: string, m: Matcher, t: string, k: nat, p: nat, n: nat)
    requires k <= |v| && Origin(v[k..], m, t, p, n)
    ensures Origin(v, m, t, k + p, n)
  {
    SliceOfDrop(v, k, p, p + n);
    PassedLater(v, m, k, p, n);
    assert v[k..][p + n..] == v[k + p + n..];
  }

  // ---- Secrets that never come back ----

  lemma FirstTwo(items: seq<Item>, t: string)
    requires |items| > 1 && items[0].least == 1 && !items[0].more && items[1].least > 0 && Accepts(items, t)
    ensures |t| > 1 && Has(items[0].cls, t[0]) && Has(items[1].cls, t[1])
  {
    var k :| TakesFirst(items, t, k) && Accepts(items[1..], t[k..]);
    assert t[..1][0] == t[0];
    AcceptedShape(items[1..], t[1..]);
    assert items[1..][0] == items[1] && t[1..][0] == t[1];
  }

  /** Every shape starts with two letters or digits. */
  lemma ShapeItems(q: Rule)
    requires q in SHAPES
    ensures q.Pattern? && |q.items| > 1 && q.items[0].least == 1 && !q.items[0].more && q.items[1].least > 0
    ensures forall c | Has(q.items[0].cls, c) || Has(q.items[1].cls, c) :: IsAlphaNumeric(c)
  {
    assert q in [SHAPES[0], SHAPES[1], SHAPES[2], SHAPES[3], SHAPES[4]];
  }

  /** Every shape starts with two letters or digits. */
  lemma ShapeStart(q: Rule, w: string)
    requires q in SHAPES && Matches(MatcherOf(q), w)
    ensures |w| >= 2 && IsAlphaNumeric(w[0]) && IsAlphaNumeric(w[1])
  {
    ShapesAreSound();
    ShapeItems(q);
    assert w[0..] == w;
    var t := MatchedIsHit(w, q, 0);
    FirstTwo(q.items, t);
    assert w[0] == t[0] && w[1] == t[1];
  }

  lemma AcceptsOne(c: char, items: seq<Item>, t: string)
    requires t != "" && t[0] == c && Accepts(items, t[1..])
    ensures Accepts([One(c)] + items, t)
  {
    assert ([One(c)] + items)[1..] == items && t[..1] == [c];
    AcceptsFrom([One(c)] + items, t, 1);
  }

  lemma GroqAccepts(t: string)
    requires |t| >= 24 && t[..4] == "gsk_" && forall k | 4 <= k < |t| :: IsAlphaNumeric(t[k])
    ensures Accepts(GROQ_KEY, t)
  {
    var last := [Item(AlphaNumeric, 20, true)];
    var run := t[4..];
    assert run[|run|..] == "" && last[1..] == [] && run[..|run|] == run;
    AcceptsFrom(last, run, |run|);
    assert t[..4][0] == t[0] && t[..4][1] == t[1] && t[..4][2] == t[2] && t[..4][3] == t[3];
    assert t[3..][1..] == run && t[2..][1..] == t[3..] && t[1..][1..] == t[2..];
    AcceptsOne('_', last, t[3..]);
    AcceptsOne('k', [One('_')] + last, t[2..]);
    AcceptsOne('s', [One('k')] + ([One('_')] + last), t[1..]);
    AcceptsOne('g', [One('s')] + ([One('k')] + ([One('_')] + last)), t);
    assert GROQ_KEY == [One('g')] + ([One('s')] + ([One('k')] + ([One('_')] + last)));
  }

  /** What a key tail and two more letters or digits make. */
  lemma TailCompleted(v: string, p: nat, u: string, n: nat) returns (start: nat)
    requires p + |u| + 2 <= |v| && v[p..p + |u|] == u && KeyTail(u, n) && n >= 18
    requires IsAlphaNumeric(v[p + |u|]) && IsAlphaNumeric(v[p + |u| + 1])
    ensures p <= start < p + |u| && !Free(v, Pattern(GROQ_KEY))
    ensures Matches(MatcherOf(Pattern(GROQ_KEY)), v[start..])
  {
    start := p + |u| - n - 4;
    var t := v[start..p + |u| + 2];
    forall k | start <= k < p + |u| ensures v[k] == u[k - p] {
      assert v[p..p + |u|][k - p] == v[k];
    }
    var key := u[|u| - n - 4..|u| - n];
    forall k | 0 <= k < 4 ensures t[k] == key[k] {
      assert key[k] == u[|u| - n - 4 + k];
    }
    assert t[..4] == key;
    forall k | 4 <= k < |t| ensures IsAlphaNumeric(t[k]) {
      if k < n + 4 {
        assert u[|u| - n..][k - 4] == u[|u| - n - 4 + k];
      }
    }
    GroqAccepts(t);
    assert At(v, t, start) && Hit(Pattern(GROQ_KEY), t);
    ShapesAreSound();
    assert SHAPES[0] == Pattern(GROQ_KEY) && SHAPES[0] in SHAPES;
    HitIsMatched(v, Pattern(GROQ_KEY), t, start);
  }

  /** Every way for s to run into a marker is closed. */
  ghost predicate Closed(s: string) {
    forall d | Overlaps(s, d) :: d < 0 && d + |s| < |MARKER| && EndsInKey(s[..-d]) && Blocked(s, -d)
  }

  /** An earlier copy of s stands where the scan found nothing. */
  lemma BlockedMatches(v: string, s: string, p: nat, n: nat) returns (q: nat)
    requires 0 < n < |s| && p + n <= |v| && v[p..p + n] == s[..n] && Blocked(s, n)
    requires Matches(MatcherOf(Secret(s)), v[p + n..])
    ensures p <= q < p + n && Matches(MatcherOf(Secret(s)), v[q..])
  {
    var j :| 0 <= j < n && At(s[..n] + s, s, j);
    SameText(v, p, s[..n], s);
    AtWithin(v, p, s[..n] + s, s, j);
    q := p + j;
    HitIsMatched(v, Secret(s), s, q);
  }

  lemma ReplacedNowhere(v: string, s: string, i: nat)
    requires s != "" && Closed(s)
    ensures !At(Sub(v, Secret(s)), s, i)
  {
    if At(Sub(v, Secret(s)), s, i) {
      var p, n := OriginOf(v, MatcherOf(Secret(s)), s, i);
      if n == |s| {
        HitIsMatched(v, Secret(s), s, p);
        PassedAt(v, MatcherOf(Secret(s)), p, n, p);
      } else {
        RunsIntoTail(s, n);
        var q := BlockedMatches(v, s, p, n);
        PassedAt(v, MatcherOf(Secret(s)), p, n, q);
      }
    }
  }

  lemma ReplacingRemoves(v: string, s: string)
    requires s != "" && Closed(s)
    ensures Free(Sub(v, Secret(s)), Secret(s))
  {
    forall t, i | At(Sub(v, Secret(s)), t, i) ensures !Hit(Secret(s), t) {
      if t == s {
        ReplacedNowhere(v, s, i);
      }
    }
  }

  lemma SliceOfSlice(v: string, a: nat, b: nat, c: nat, d: nat)
    requires a <= b <= |v| && c <= d <= b - a
    ensures v[a..b][c..d] == v[a + c..a + d]
  {
    forall k | 0 <= k < d - c ensures v[a..b][c..d][k] == v[a + c..a + d][k] {
      assert v[a..b][c + k] == v[a + c + k];
    }
  }

  lemma AtWithin(v: string, p: nat, text: string, s: string, j: nat)
    requires p + |text| <= |v| && v[p..p + |text|] == text && At(text, s, j)
    ensures At(v, s, p + j)
  {
    SliceOfSlice(v, p, p + |text|, j, j + |s|);
  }

  lemma SameText(v: string, p: nat, a: string, b: string)
    requires p + |a| <= |v| && v[p..p + |a|] == a && b <= v[p + |a|..]
    ensures p + |a| + |b| <= |v| && v[p..p + |a| + |b|] == a + b
  {
    assert v[p + |a|..][..|b|] == v[p + |a|..p + |a| + |b|];
    assert v[p..p + |a| + |b|] == v[p..p + |a|] + v[p + |a|..p + |a| + |b|];
  }

  /** A key tail of s in front of a shape is a Groq key that the scan has passed by. */
  lemma TailIsPassedBy(v: string, q: Rule, s: string, p: nat, n: nat) returns (start: nat)
    requires q in SHAPES && n <= |s| && p + n <= |v| && v[p..p + n] == s[..n] && EndsInKey(s[..n])
    requires Matches(MatcherOf(q), v[p + n..])
    ensures p <= start < p + n && !Free(v, Pattern(GROQ_KEY))
    ensures Matches(MatcherOf(Pattern(GROQ_KEY)), v[start..])
  {
    ShapeStart(q, v[p + n..]);
    assert v[p + n..][0] == v[p + n] && v[p + n..][1] == v[p + n + 1];
    var k :| KeyTail(s[..n], k) && k >= 18;
    start := TailCompleted(v, p, s[..n], k);
  }

  lemma RunsIntoTail(s: string, n: nat)
    requires Closed(s) && 0 < n < |s| && Overlaps(s, 0 - n)
    ensures EndsInKey(s[..n]) && Blocked(s, n)
  {
  }

  lemma WholeIsThere(v: string, s: string, p: nat)
    requires p + |s| <= |v| && v[p..p + |s|] == s
    ensures !Free(v, Secret(s))
  {
    assert At(v, s, p) && Hit(Secret(s), s);
  }

  lemma CompletedNowhere(v: string, q: Rule, s: string, i: nat)
    requires s != "" && Closed(s) && Free(v, Secret(s)) && q in SHAPES
    requires q == Pattern(GROQ_KEY) || Free(v, Pattern(GROQ_KEY))
    ensures !At(Sub(v, q), s, i)
  {
    if At(Sub(v, q), s, i) {
      var p, n := OriginOf(v, MatcherOf(q), s, i);
      if n < |s| {
        RunsIntoTail(s, n);
        var start := TailIsPassedBy(v, q, s, p, n);
        if q == Pattern(GROQ_KEY) {
          PassedAt(v, MatcherOf(q), p, n, start);
        }
      } else {
        WholeIsThere(v, s, p);
      }
    }
  }

  /** A shape's scan brings no closed secret back where Groq keys are gone or are being removed. */
  lemma ShapeBringsNothingBack(v: string, q: Rule, s: string)
    requires s != "" && Closed(s) && Free(v, Secret(s)) && q in SHAPES
    requires q == Pattern(GROQ_KEY) || Free(v, Pattern(GROQ_KEY))
    ensures Free(Sub(v, q), Secret(s))
  {
    forall t, i | At(Sub(v, q), t, i) ensures !Hit(Secret(s), t) {
      if t == s {
        CompletedNowhere(v, q, s, i);
      }
    }
  }

  lemma {:induction false} ShapesBringNothingBack(v: string, rules: seq<Rule>, s: string)
    requires s != "" && Closed(s) && Free(v, Secret(s)) && Free(v, Pattern(GROQ_KEY))
    requires forall q | q in rules :: q in SHAPES
    ensures Free(SubAll(v, rules), Secret(s))
    decreases |rules|
  {
    if rules != [] {
      ShapesAreSound();
      assert SHAPES[0] == Pattern(GROQ_KEY) && SHAPES[0] in SHAPES;
      ShapeBringsNothingBack(v, rules[0], s);
      SubAddsNoHits(v, rules[0], Pattern(GROQ_KEY));
      ShapesBringNothingBack(Sub(v, rules[0]), rules[1..], s);
    }
  }

  lemma InTurn(v: string, s: string)
    ensures RedactedString(v, [s]) == SubAll(Sub(v, Secret(s)), SHAPES)
    ensures forall w :: SubAll(w, SHAPES) == SubAll(Sub(w, SHAPES[0]), SHAPES[1..])
  {
    assert [s][1..] == [] && SecretRules([]) == [];
    assert SecretRules([s]) == [Secret(s)];
    assert Rules([s])[0] == Secret(s) && Rules([s])[1..] == SHAPES;
  }

  lemma ClosedNeverReturns(v: string, s: string)
    requires s != "" && Closed(s)
    ensures Free(RedactedString(v, [s]), Secret(s))
  {
    InTurn(v, s);
    ShapesAreSound();
    var w := Sub(v, Secret(s));
    ReplacingRemoves(v, s);
    assert SHAPES[0] == Pattern(GROQ_KEY) && SHAPES[0] in SHAPES;
    ShapeBringsNothingBack(w, SHAPES[0], s);
    SubRemovesHits(w, SHAPES[0]);
    forall q | q in SHAPES[1..] ensures q in SHAPES {}
    ShapesBringNothingBack(Sub(w, SHAPES[0]), SHAPES[1..], s);
  }

  /** A secret in which a credential shape stands never comes back: no shape is left in the output. */
  lemma ShapedNeverReturns(v: string, s: string)
    requires !AllFree(s, SHAPES)
    ensures Free(RedactedString(v, [s]), Secret(s))
  {
    InTurn(v, s);
    ShapesAreSound();
    var out := RedactedString(v, [s]);
    SubAllIsComplete(Sub(v, Secret(s)), SHAPES);
    var q :| q in SHAPES && !Free(s, q);
    HoldsNoShape(out, s, q);
  }

  lemma AtThrough(v: string, s: string, i: int, x: string, j: int)
    requires At(v, s, i) && At(s, x, j)
    ensures At(v, x, i + j)
  {
    SliceOfSlice(v, i, i + |s|, j, j + |x|);
  }

  lemma HoldsNoShape(out: string, s: string, q: Rule)
    requires Free(out, q) && !Free(s, q)
    ensures Free(out, Secret(s))
  {
    var x, j :| At(s, x, j) && Hit(q, x);
    forall t, i | At(out, t, i) ensures !Hit(Secret(s), t) {
      if t == s {
        AtThrough(out, s, i, x, j);
      }
    }
  }

  // ---- Secrets that some input brings back ----

  /** A scan that meets its first match behind a. */
  lemma {:induction false} ScanUpTo(a: string, w: string, m: Matcher)
    requires Matches(m, w) && forall q | 0 <= q < |a| :: !Matches(m, (a + w)[q..])
    ensures Scan(a + w, m) == a + MARKER + Scan(w[m(w)..], m)
    decreases |a|
  {
    if a == "" {
      assert a + w == w;
    } else {
      assert (a + w)[0..] == a + w && (a + w)[1..] == a[1..] + w && (a + w)[0] == a[0];
      forall q | 0 <= q < |a[1..]| ensures !Matches(m, (a[1..] + w)[q..]) {
        assert (a[1..] + w)[q..] == (a + w)[q + 1..];
      }
      ScanUpTo(a[1..], w, m);
      assert [a[0]] + (a[1..] + MARKER + Scan(w[m(w)..], m)) == a + MARKER + Scan(w[m(w)..], m);
    }
  }

  lemma ShorterIsFree(b: string, s: string)
    requires |b| < |s|
    ensures Free(b, Secret(s)) && Sub(b, Secret(s)) == b
  {
    SubIsIdle(b, Secret(s));
  }

  /** Replacing s in a + s + b when no s starts earlier and b is shorter than s. */
  lemma ReplacedOnce(a: string, s: string, b: string)
    requires |b| < |s| && forall j | 0 <= j < |a| :: !At(a + s + b, s, j)
    ensures Sub(a + s + b, Secret(s)) == a + MARKER + b
  {
    var m := MatcherOf(Secret(s));
    var w := s + b;
    assert a + s + b == a + w && w[|s|..] == b && m(w) == |s|;
    forall q | 0 <= q < |a| ensures !Matches(m, (a + w)[q..]) {
      if Matches(m, (a + w)[q..]) {
        var t := MatchedIsHit(a + w, Secret(s), q);
      }
    }
    ScanUpTo(a, w, m);
    ShorterIsFree(b, s);
  }

  lemma AroundMarker(a: string, b: string, q: Rule)
    requires WellFormed(q) && Clear(q) && Free(a, q) && Free(b, q)
    ensures Free(a + MARKER + b, q)
  {
    EmptyIsNoHit(q);
    var out := a + MARKER + b;
    assert At(out, MARKER, |a|);
    forall t, i | At(out, t, i) ensures !Hit(q, t) {
      if i + |t| <= |a| {
        assert At(a, t, i);
      } else if i >= |a| + |MARKER| {
        AtBehind(a + MARKER, b, t, i);
      } else {
        MarkerInside(out, t, i, |a|);
      }
    }
  }

  lemma ShapesIdleAround(a: string, b: string)
    requires AllFree(a, SHAPES) && AllFree(b, SHAPES)
    ensures SubAll(a + MARKER + b, SHAPES) == a + MARKER + b
    ensures AllFree(a + MARKER + b, SHAPES)
  {
    ShapesAreSound();
    forall q | q in SHAPES ensures Free(a + MARKER + b, q) {
      AroundMarker(a, b, q);
    }
    SubAllIsIdle(a + MARKER + b, SHAPES);
  }

  lemma PartIsFree(s: string, i: nat, j: nat)
    requires i <= j <= |s| && AllFree(s, SHAPES)
    ensures AllFree(s[i..j], SHAPES)
  {
    forall q | q in SHAPES ensures Free(s[i..j], q) {
      forall t, k | At(s[i..j], t, k) ensures !Hit(q, t) {
        AtThrough(s, s[i..j], i, t, k);
      }
    }
  }

  lemma EmptyIsFree()
    ensures AllFree("", SHAPES)
  {
    ShapesAreSound();
    forall q | q in SHAPES ensures Free("", q) {
      EmptyIsNoHit(q);
    }
  }

  /** Where one copy of s is replaced and the text around it holds no shape, the shapes' turn changes nothing. */
  lemma LeftAround(a: string, s: string, b: string)
    requires |b| < |s| && AllFree(a, SHAPES) && AllFree(b, SHAPES)
    requires forall j | 0 <= j < |a| :: !At(a + s + b, s, j)
    ensures RedactedString(a + s + b, [s]) == a + MARKER + b
  {
    ReplacedOnce(a, s, b);
    ShapesIdleAround(a, b);
    InTurn(a + s + b, s);
  }

  /** From the start or the inside of the marker: the marker of one copy, and the rest behind it. */
  lemma RevivedFromInside(s: string, d: int) returns (v: string)
    requires s != "" && Overlaps(s, d) && d >= 0 && AllFree(s, SHAPES)
    ensures v == s + s[if |s| < |MARKER| - d then |s| else |MARKER| - d..]
    ensures !Free(RedactedString(v, [s]), Secret(s))
  {
    var n := if |s| < |MARKER| - d then |s| else |MARKER| - d;
    var u := s[n..];
    v := s + u;
    assert v == "" + s + u;
    PartIsFree(s, n, |s|);
    assert s[n..|s|] == u;
    EmptyIsFree();
    LeftAround("", s, u);
    CompletedInside(s, d, n);
  }

  lemma CompletedInside(s: string, d: nat, n: nat)
    requires Overlaps(s, d) && n <= |s| && n == if |s| < |MARKER| - d then |s| else |MARKER| - d
    ensures At("" + MARKER + s[n..], s, d)
  {
    var out := "" + MARKER + s[n..];
    forall k | 0 <= k < |s| ensures out[d..d + |s|][k] == s[k] {
      assert out[d..d + |s|][k] == out[d + k];
    }
  }

  lemma LeastMarker(s: string, i: nat) returns (least: nat)
    requires At(s, MARKER, i)
    ensures At(s, MARKER, least) && forall j | 0 <= j < least :: !At(s, MARKER, j)
  {
    least := 0;
    while !At(s, MARKER, least)
      invariant least <= i && forall j | 0 <= j < least :: !At(s, MARKER, j)
      decreases i - least
    {
      least := least + 1;
    }
  }

  lemma EarlierMarker(s: string, a: string, b: string, j: nat)
    requires At(s, MARKER, |a|) && j < |a| && At(a + s + b, s, j)
    ensures At(s, MARKER, j)
  {
    assert a + s + b == a + (s + b);
    AtThrough(a + (s + b), s, j, MARKER, |a|);
    AtBehind(a, s + b, MARKER, j + |a|);
    assert (s + b)[j..j + |MARKER|] == s[j..j + |MARKER|];
  }

  /** A secret that holds a whole marker: its first one is what replaces a copy. */
  lemma RevivedAround(s: string, d: int) returns (v: string)
    requires Overlaps(s, d) && d < 0 && d + |s| >= |MARKER| && AllFree(s, SHAPES)
    ensures !Free(RedactedString(v, [s]), Secret(s))
  {
    assert s[-d..-d + |MARKER|] == MARKER;
    var m := LeastMarker(s, -d);
    var a, b := s[..m], s[m + |MARKER|..];
    assert s == a + MARKER + b;
    v := a + s + b;
    forall j | 0 <= j < |a| ensures !At(v, s, j) {
      if At(v, s, j) {
        EarlierMarker(s, a, b, j);
      }
    }
    ReplacedOnce(a, s, b);
    ItselfAgain(v, s);
  }

  /** When the known secrets' turn leaves s itself, the shapes' turn does too. */
  lemma ItselfAgain(v: string, s: string)
    requires Sub(v, Secret(s)) == s && AllFree(s, SHAPES)
    ensures !Free(RedactedString(v, [s]), Secret(s))
  {
    InTurn(v, s);
    ShapesAreSound();
    SubAllIsIdle(s, SHAPES);
    assert At(s, s, 0);
  }

  lemma CompletedBy(u: string, s: string)
    requires |u| < |s| < |u| + |MARKER| && Overlaps(s, -|u|) && s[..|u|] == u
    ensures At(u + MARKER + "", s, 0)
  {
    var out := u + MARKER + "";
    forall k | 0 <= k < |s| ensures out[0..|s|][k] == s[k] {
      if k < |u| { assert u[k] == s[k]; }
    }
  }

  /** Part of s, and then s itself. */
  lemma RevivedBySelf(s: string, n: nat) returns (v: string)
    requires 0 < n < |s| < n + |MARKER| && Overlaps(s, 0 - n) && AllFree(s, SHAPES) && !Blocked(s, n)
    ensures v == s[..n] + s && !Free(RedactedString(v, [s]), Secret(s))
  {
    var u := s[..n];
    v := u + s;
    assert v == u + s + "";
    PartIsFree(s, 0, n);
    assert s[0..n] == u;
    EmptyIsFree();
    LeftAround(u, s, "");
    CompletedBy(u, s);
  }

  // ---- Revived by a key ----

  const LETTERS := "aaaaaaaaaaaaaaaaaaaa"
  const A_GROQ_KEY := "gsk_" + LETTERS
  const AN_OPENAI_KEY := "sk-" + LETTERS

  lemma LettersAccepted(v: string)
    requires |v| >= 20 && forall k | 0 <= k < |v| :: IsAlphaNumeric(v[k])
    ensures Accepts([Item(AlphaNumeric, 20, true)], v)
  {
    assert v[|v|..] == "" && [Item(AlphaNumeric, 20, true)][1..] == [] && v[..|v|] == v;
    AcceptsFrom([Item(AlphaNumeric, 20, true)], v, |v|);
  }

  lemma OpenAiAccepts(t: string)
    requires |t| >= 23 && t[..3] == "sk-" && forall k | 3 <= k < |t| :: IsAlphaNumeric(t[k])
    ensures Accepts(OPENAI_KEY, t)
  {
    var last := [Item(AlphaNumeric, 20, true)];
    LettersAccepted(t[3..]);
    assert t[..3][0] == t[0] && t[..3][1] == t[1] && t[..3][2] == t[2];
    assert t[2..][1..] == t[3..] && t[1..][1..] == t[2..];
    AcceptsOne('-', last, t[2..]);
    AcceptsOne('k', [One('-')] + last, t[1..]);
    AcceptsOne('s', [One('k')] + ([One('-')] + last), t);
    assert OPENAI_KEY == [One('s')] + ([One('k')] + ([One('-')] + last));
  }

  /** A shortest match is taken whole. */
  lemma ShortestMatch(items: seq<Item>, k: string)
    requires Deterministic(items) && MinLength(items) == |k| > 0 && Accepts(items, k)
    ensures MatchLength(Pattern(items), k) == |k|
  {
    assert k[..|k|] == k;
    MatchIsComplete(items, k, |k|);
    MatchIsAccepted(items, k);
  }

  lemma KeysMatch()
    ensures MatchLength(Pattern(GROQ_KEY), A_GROQ_KEY) == |A_GROQ_KEY|
    ensures MatchLength(Pattern(OPENAI_KEY), AN_OPENAI_KEY) == |AN_OPENAI_KEY|
  {
    GroqKeyIsClear();
    OpenAiKeyIsClear();
    GroqAccepts(A_GROQ_KEY);
    OpenAiAccepts(AN_OPENAI_KEY);
    assert MinLength(GROQ_KEY) == 24 && MinLength(OPENAI_KEY) == 23;
    ShortestMatch(GROQ_KEY, A_GROQ_KEY);
    ShortestMatch(OPENAI_KEY, AN_OPENAI_KEY);
  }

  /** What a hit of the two keys looks like. */
  lemma AcceptedOne(c: char, items: seq<Item>, t: string)
    requires Accepts([One(c)] + items, t)
    ensures t != "" && t[0] == c && Accepts(items, t[1..])
  {
    var all := [One(c)] + items;
    var k :| TakesFirst(all, t, k) && Accepts(all[1..], t[k..]);
    assert all[1..] == items && t[..1][0] == t[0];
  }

  lemma AcceptedLetters(v: string)
    requires Accepts([Item(AlphaNumeric, 20, true)], v)
    ensures |v| >= 20 && forall k | 0 <= k < |v| :: IsAlphaNumeric(v[k])
  {
    var last := [Item(AlphaNumeric, 20, true)];
    var n :| TakesFirst(last, v, n) && Accepts(last[1..], v[n..]);
    assert last[1..] == [] && v[n..] == "" && v[..n] == v;
  }

  lemma GroqHit(t: string)
    requires Hit(Pattern(GROQ_KEY), t)
    ensures |t| >= 24 && t[3] == '_' && forall k | 4 <= k < |t| :: IsAlphaNumeric(t[k])
    ensures t[0] == 'g' && t[1] == 's' && t[2] == 'k'
  {
    var last := [Item(AlphaNumeric, 20, true)];
    assert GROQ_KEY == [One('g')] + ([One('s')] + ([One('k')] + ([One('_')] + last)));
    AcceptedOne('g', [One('s')] + ([One('k')] + ([One('_')] + last)), t);
    AcceptedOne('s', [One('k')] + ([One('_')] + last), t[1..]);
    AcceptedOne('k', [One('_')] + last, t[1..][1..]);
    AcceptedOne('_', last, t[1..][1..][1..]);
    assert t[1..][1..] == t[2..] && t[2..][1..] == t[3..] && t[3..][1..] == t[4..];
    AcceptedLetters(t[4..]);
    forall k | 4 <= k < |t| ensures IsAlphaNumeric(t[k]) { assert t[4..][k - 4] == t[k]; }
  }

  lemma OpenAiHit(t: string)
    requires Hit(Pattern(OPENAI_KEY), t)
    ensures |t| >= 23 && t[2] == '-' && forall k | 3 <= k < |t| :: IsAlphaNumeric(t[k])
  {
    var last := [Item(AlphaNumeric, 20, true)];
    assert OPENAI_KEY == [One('s')] + ([One('k')] + ([One('-')] + last));
    AcceptedOne('s', [One('k')] + ([One('-')] + last), t);
    AcceptedOne('k', [One('-')] + last, t[1..]);
    AcceptedOne('-', last, t[1..][1..]);
    assert t[1..][1..] == t[2..] && t[2..][1..] == t[3..];
    AcceptedLetters(t[3..]);
    forall k | 3 <= k < |t| ensures IsAlphaNumeric(t[k]) { assert t[3..][k - 3] == t[k]; }
  }

  lemma Chars(u: string, k: string, t: string, q: nat, j: nat)
    requires At(u + k, t, q) && j < |t|
    ensures (u + k)[q + j] == t[j]
    ensures q + j < |u| ==> u[q + j] == t[j]
    ensures q + j >= |u| ==> k[q + j - |u|] == t[j]
  {
    assert (u + k)[q..q + |t|][j] == (u + k)[q + j];
  }

  /** A Groq key that starts in u and runs over its end, into a text whose first character other than a
      letter or digit is at c, makes u end in a key tail. */
  lemma GroqHitLeavesTail(u: string, k: string, t: string, q: nat, c: nat) returns (n: nat)
    requires At(u + k, t, q) && Hit(Pattern(GROQ_KEY), t) && q < |u| < q + |t|
    requires 2 <= c < |k| && !IsAlphaNumeric(k[c]) && |k| > 3 && forall j | 0 <= j < 3 :: k[j] != '_'
    ensures KeyTail(u, n) && n + c >= 20
  {
    GroqHit(t);
    Chars(u, k, t, q, 0);
    Chars(u, k, t, q, 3);
    assert q + 3 < |u|;
    Chars(u, k, t, q, 1);
    Chars(u, k, t, q, 2);
    if q + |t| > |u| + c {
      Chars(u, k, t, q, |u| + c - q);
    }
    n := |u| - q - 4;
    assert u[q..q + 4] == "gsk_";
    forall j | q + 4 <= j < |u| ensures IsAlphaNumeric(u[j]) {
      Chars(u, k, t, q, j - q);
    }
  }

  /** An OpenAI key cannot start in a text that ends in a Groq key's tail of 17 and run over its end. */
  lemma OpenAiHitStops(u: string, t: string, q: nat)
    requires KeyTail(u, 17) && At(u + AN_OPENAI_KEY, t, q) && q < |u| < q + |t|
    ensures !Hit(Pattern(OPENAI_KEY), t)
  {
    if Hit(Pattern(OPENAI_KEY), t) {
      OpenAiHit(t);
      Chars(u, AN_OPENAI_KEY, t, q, 2);
      if q + |t| > |u| + 2 {
        Chars(u, AN_OPENAI_KEY, t, q, |u| + 2 - q);
      }
      var tail := u[|u| - 21..|u| - 17];
      assert tail[3] == u[|u| - 18];
      if q + 3 <= |u| - 18 {
        Chars(u, AN_OPENAI_KEY, t, q, |u| - 18 - q);
      }
    }
  }

  lemma NoSecretYet(u: string, k: string, s: string)
    requires |u| < |s| && Overlaps(s, 0 - |u|) && '[' !in k
    ensures Free(u + k, Secret(s))
  {
    forall t, j | At(u + k, t, j) ensures !Hit(Secret(s), t) {
      if t == s {
        assert s[|u|] == MARKER[0];
        Chars(u, k, s, j, |u|);
      }
    }
  }

  /** A shape's scan whose first match is the key behind u. */
  lemma KeyReplaced(u: string, k: string, q: Rule)
    requires WellFormed(q) && Free(u, q) && k != "" && MatchLength(q, k) == |k|
    requires forall t, i | At(u + k, t, i) && 0 <= i < |u| < i + |t| :: !Hit(q, t)
    ensures Sub(u + k, q) == u + MARKER
  {
    forall p | 0 <= p < |u| ensures !Matches(MatcherOf(q), (u + k)[p..]) {
      if Matches(MatcherOf(q), (u + k)[p..]) {
        var t := MatchedIsHit(u + k, q, p);
        if p + |t| <= |u| {
          assert (u + k)[p..p + |t|] == u[p..p + |t|];
          assert At(u, t, p);
        }
      }
    }
    ScanUpTo(u, k, MatcherOf(q));
    assert k[|k|..] == "";
  }

  lemma RevivedByGroqKey(u: string)
    requires AllFree(u, SHAPES) && forall n | KeyTail(u, n) :: n < 17
    ensures SubAll(u + A_GROQ_KEY, SHAPES) == u + MARKER + ""
  {
    ShapesAreSound();
    KeysMatch();
    var k, q := A_GROQ_KEY, SHAPES[0];
    assert q == Pattern(GROQ_KEY) && q in SHAPES && k[3] == '_';
    forall t, i | At(u + k, t, i) && 0 <= i < |u| < i + |t| ensures !Hit(q, t) {
      if Hit(q, t) {
        var n := GroqHitLeavesTail(u, k, t, i, 3);
      }
    }
    KeyReplaced(u, k, q);
    RestIsIdle(u, u + k);
  }

  /** With the key gone, the other shapes have nothing to do. */
  lemma RestIsIdle(u: string, v: string)
    requires AllFree(u, SHAPES) && Sub(v, SHAPES[0]) == u + MARKER
    ensures SubAll(v, SHAPES) == u + MARKER + ""
  {
    EmptyIsFree();
    ShapesIdleAround(u, "");
    ShapesAreSound();
    assert u + MARKER == u + MARKER + "";
    forall r | r in SHAPES[1..] ensures r in SHAPES {}
    SubAllIsIdle(u + MARKER, SHAPES[1..]);
  }

  lemma NoGroqKeyYet(u: string)
    requires AllFree(u, SHAPES) && !EndsInKey(u)
    ensures Free(u + AN_OPENAI_KEY, Pattern(GROQ_KEY))
  {
    var k := AN_OPENAI_KEY;
    assert SHAPES[0] == Pattern(GROQ_KEY) && SHAPES[0] in SHAPES && k[2] == '-';
    forall t, i | At(u + k, t, i) ensures !Hit(Pattern(GROQ_KEY), t) {
      if Hit(Pattern(GROQ_KEY), t) {
        if i + |t| <= |u| {
          assert (u + k)[i..i + |t|] == u[i..i + |t|];
          assert At(u, t, i);
        } else if i < |u| {
          var n := GroqHitLeavesTail(u, k, t, i, 2);
        } else {
          GroqHit(t);
        }
      }
    }
  }

  lemma RevivedByOpenAiKey(u: string)
    requires AllFree(u, SHAPES) && !EndsInKey(u) && KeyTail(u, 17)
    ensures SubAll(u + AN_OPENAI_KEY, SHAPES) == u + MARKER + ""
  {
    ShapesAreSound();
    KeysMatch();
    var k, q := AN_OPENAI_KEY, SHAPES[1];
    assert q == Pattern(OPENAI_KEY) && q in SHAPES && SHAPES[0] == Pattern(GROQ_KEY) && SHAPES[0] in SHAPES;
    NoGroqKeyYet(u);
    SubIsIdle(u + k, SHAPES[0]);
    forall t, i | At(u + k, t, i) && 0 <= i < |u| < i + |t| ensures !Hit(q, t) {
      OpenAiHitStops(u, t, i);
    }
    KeyReplaced(u, k, q);
    EmptyIsFree();
    ShapesIdleAround(u, "");
    assert u + MARKER == u + MARKER + "" && SHAPES[1..][0] == q;
    forall r | r in SHAPES[1..][1..] ensures r in SHAPES {}
    SubAllIsIdle(u + MARKER, SHAPES[1..][1..]);
  }

  /** Part of s, and then a key that becomes a marker. */
  lemma RevivedByKey(s: string, n: nat) returns (v: string)
    requires 0 < n < |s| < n + |MARKER| && Overlaps(s, 0 - n) && AllFree(s, SHAPES) && !EndsInKey(s[..n])
    ensures !Free(RedactedString(v, [s]), Secret(s))
  {
    var u := s[..n];
    PartIsFree(s, 0, n);
    assert s[0..n] == u;
    var k := if KeyTail(u, 17) then AN_OPENAI_KEY else A_GROQ_KEY;
    v := u + k;
    NoSecretYet(u, k, s);
    SubIsIdle(v, Secret(s));
    if KeyTail(u, 17) {
      RevivedByOpenAiKey(u);
    } else {
      forall n | KeyTail(u, n) ensures n < 17 {
        assert n >= 18 ==> EndsInKey(u);
      }
      RevivedByGroqKey(u);
    }
    InTurn(v, s);
    CompletedBy(u, s);
  }

  // ---- Exactly when ----

  lemma Revived(s: string) returns (v: string)
    requires s != "" && CanReturn(s)
    ensures !Free(RedactedString(v, [s]), Secret(s))
  {
    var d :| Overlaps(s, d) && Returns(s, d);
    if d >= 0 {
      v := RevivedFromInside(s, d);
    } else if d + |s| >= |MARKER| {
      v := RevivedAround(s, d);
    } else {
      var n: nat := -d;
      assert Overlaps(s, 0 - n) && 0 < n < |s| < n + |MARKER|;
      if !Blocked(s, n) {
        v := RevivedBySelf(s, n);
      } else {
        v := RevivedByKey(s, n);
      }
    }
  }

  lemma NeverReturns(s: string, v: string)
    requires s != "" && !CanReturn(s)
    ensures Free(RedactedString(v, [s]), Secret(s))
  {
    if AllFree(s, SHAPES) {
      ClosedNeverReturns(v, s);
    } else {
      ShapedNeverReturns(v, s);
    }
  }

  /** One known secret vanishes from every string exactly when it cannot return: a credential shape in it
      is removed whatever happens, it shares no character with the marker, or every way it could run into
      one is closed. */
  lemma SecretVanishesIff(s: string)
    requires s != ""
    ensures (forall v :: Free(RedactedString(v, [s]), Secret(s))) <==> !CanReturn(s)
  {
    if CanReturn(s) {
      var v := Revived(s);
    } else {
      forall v ensures Free(RedactedString(v, [s]), Secret(s)) {
        NeverReturns(s, v);
      }
    }
  }

  /** A secret of plain text and an opening bracket comes back, from its text before a copy of it, unless
      a credential shape stands in it. */
  lemma BracketedSecretComesBack(x: string)
    requires x != "" && Bracketless(x) && AllFree(x + "[", SHAPES)
    ensures !Free(RedactedString(x + x + "[", [x + "["]), Secret(x + "["))
  {
    var s := x + "[";
    forall j | 0 <= j < |x| ensures !At(x + s, s, j) {
      assert (x + s)[j + |x|] == x[j] != s[|x|];
      assert (x + s)[j..j + |s|][|x|] == (x + s)[j + |x|];
    }
    assert s[..|x|] == x && x + x + "[" == x + s;
    assert Overlaps(s, 0 - |x|);
    var v := RevivedBySelf(s, |x|);
  }

  /** A secret that starts with the marker's closing bracket comes back, from a copy of it and its text behind
      that, unless a credential shape stands in it. */
  lemma ClosingBracketComesBack(y: string)
    requires AllFree("]" + y, SHAPES)
    ensures !Free(RedactedString("]" + y + y, ["]" + y]), Secret("]" + y))
  {
    var s := "]" + y;
    assert Overlaps(s, 9) && s[1..] == y;
    var v := RevivedFromInside(s, 9);
  }
}
