/** Replacing every match in a string by the redaction marker, as str.replace and Pattern.sub do
    (foundation/redaction.py). */
module MarkerScan {

  const MARKER := "[REDACTED]"

  // ---- Substrings ----

  predicate At(v: string, t: string, i: int) {
    0 <= i <= |v| - |t| && v[i..i + |t|] == t
  }

  predicate Contains(v: string, t: string) {
    exists i | 0 <= i <= |v| :: At(v, t, i)
  }

  lemma SliceBehind(a: string, b: string, i: nat, j: nat)
    requires |a| <= i <= j <= |a + b|
    ensures (a + b)[i..j] == b[i - |a|..j - |a|]
  {
  }

  lemma SliceOfDrop(v: string, n: nat, p: nat, q: nat)
    requires n <= |v| && p <= q <= |v| - n
    ensures v[n..][p..q] == v[n + p..n + q]
    ensures v[n..][p..] == v[n + p..]
  {
    assert |v[n..][p..q]| == |v[n + p..n + q]|;
    forall k | 0 <= k < q - p ensures v[n..][p..q][k] == v[n + p..n + q][k] {
      assert v[n..][p..q][k] == v[n..][p + k];
    }
  }

  // ---- The scan ----

  /** The length of a match at the front of a string, 0 for none. */
  type Matcher = string -> nat

  /** Left to right, each match becomes the marker and the scan goes on behind it. */
  function Scan(v: string, m: Matcher): string
    decreases |v|
  {
    if v == "" then ""
    else if 0 < m(v) <= |v| then MARKER + Scan(v[m(v)..], m)
    else [v[0]] + Scan(v[1..], m)
  }

  predicate Matches(m: Matcher, v: string) {
    0 < m(v) <= |v|
  }

  /** `t`, laid beside the marker at offset `d`, shares a character position with it and agrees
      with it wherever both have one. */
  ghost predicate Overlaps(t: string, d: int) {
    && -|t| < d < |MARKER|
    && forall k | 0 <= k < |t| && 0 <= k + d < |MARKER| :: t[k] == MARKER[k + d]
  }

  ghost predicate Avoids(t: string) {
    forall d :: !Overlaps(t, d)
  }

  /** The output of a scan up to `n` is input, or a marker starts before `n`. */
  lemma {:induction false} FirstMarker(v: string, m: Matcher, n: nat) returns (d: nat)
    requires n <= |Scan(v, m)|
    ensures d <= n
    ensures d < n ==> At(Scan(v, m), MARKER, d)
    ensures d == n ==> n <= |v| && Scan(v, m)[..n] == v[..n]
    decreases |v|
  {
    if v == "" || n == 0 || Matches(m, v) {
      d := 0;
      assert Matches(m, v) ==> Scan(v, m)[0..|MARKER|] == MARKER;
    } else {
      var tail := Scan(v[1..], m);
      d := FirstMarker(v[1..], m, n - 1);
      if d < n - 1 {
        SliceBehind([v[0]], tail, d + 1, d + 1 + |MARKER|);
        assert At([v[0]] + tail, MARKER, d + 1);
      } else {
        SamePrefix(v, tail, n - 1);
      }
      d := d + 1;
    }
  }

  lemma SamePrefix(v: string, tail: string, n: nat)
    requires v != "" && n <= |tail| && n <= |v| - 1 && tail[..n] == v[1..][..n]
    ensures ([v[0]] + tail)[..n + 1] == v[..n + 1]
  {
    assert ([v[0]] + tail)[..n + 1] == [v[0]] + tail[..n];
  }

  lemma MarkerInside(out: string, t: string, i: nat, d: nat)
    requires At(out, t, i) && At(out, MARKER, d)
    requires i < d + |MARKER| && d < i + |t|
    ensures Overlaps(t, i - d)
  {
    forall k | 0 <= k < |t| && 0 <= k + i - d < |MARKER| ensures t[k] == MARKER[k + i - d] {
      assert out[i..i + |t|][k] == out[i + k];
      assert out[d..d + |MARKER|][k + i - d] == out[i + k];
    }
  }

  lemma AtBehind(a: string, b: string, t: string, i: nat)
    requires |a| <= i && At(a + b, t, i)
    ensures At(b, t, i - |a|)
  {
    SliceBehind(a, b, i, i + |t|);
  }

  lemma AtDrop(v: string, n: nat, t: string, p: nat)
    requires n <= |v| && At(v[n..], t, p)
    ensures At(v, t, n + p) && v[n..][p..] == v[n + p..]
  {
    SliceOfDrop(v, n, p, p + |t|);
  }

  lemma NotAtFrontMarker(v: string, m: Matcher, t: string, i: nat)
    requires t != "" && Avoids(t) && At(Scan(v, m), t, i)
    requires Matches(m, v)
    ensures i >= |MARKER|
  {
    assert At(Scan(v, m), MARKER, 0);
    if i < |MARKER| {
      MarkerInside(Scan(v, m), t, i, 0);
    }
  }

  lemma UntouchedFront(v: string, m: Matcher, t: string)
    requires t != "" && Avoids(t) && At(Scan(v, m), t, 0)
    ensures At(v, t, 0)
  {
    var d := FirstMarker(v, m, |t|);
    if d < |t| {
      MarkerInside(Scan(v, m), t, 0, d);
    }
    assert v[0..|t|] == v[..|t|];
  }

  /** One step of the scan in front of the output looked at. */
  lemma ScanStep(v: string, m: Matcher, t: string, i: nat) returns (i': nat, n: nat)
    requires t != "" && Avoids(t) && At(Scan(v, m), t, i)
    requires Matches(m, v) || i > 0
    ensures 0 < n <= |v| && At(Scan(v[n..], m), t, i')
  {
    if Matches(m, v) {
      NotAtFrontMarker(v, m, t, i);
      n := m(v);
      AtBehind(MARKER, Scan(v[n..], m), t, i);
      i' := i - |MARKER|;
    } else {
      n := 1;
      AtBehind([v[0]], Scan(v[n..], m), t, i);
      i' := i - 1;
    }
  }

  /** Output that no marker can touch is a piece of the input at whose start nothing matched. */
  lemma {:induction false} UntouchedInput(v: string, m: Matcher, t: string, i: nat) returns (p: nat)
    requires t != "" && Avoids(t) && At(Scan(v, m), t, i)
    ensures At(v, t, p) && !Matches(m, v[p..])
    decreases |v|
  {
    if !Matches(m, v) && i == 0 {
      UntouchedFront(v, m, t);
      p := 0;
      assert v[0..] == v;
    } else {
      var i', n := ScanStep(v, m, t, i);
      var rest := UntouchedInput(v[n..], m, t, i');
      AtDrop(v, n, t, rest);
      p := n + rest;
    }
  }

  lemma {:induction false} ScanWithoutMatch(v: string, m: Matcher)
    requires forall p | 0 <= p <= |v| :: !Matches(m, v[p..])
    ensures Scan(v, m) == v
    decreases |v|
  {
    if v != "" {
      assert v[0..] == v;
      forall p | 0 <= p <= |v[1..]| ensures !Matches(m, v[1..][p..]) {
        assert v[1..][p..] == v[p + 1..];
      }
      ScanWithoutMatch(v[1..], m);
    }
  }
}
