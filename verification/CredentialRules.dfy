/** What counts as a secret in a string, and the scanner that replaces it
    (foundation/redaction.py). */
module CredentialRules {

  datatype Option<T> = None | Some(value: T)

  // ---- Character classes of the credential patterns ----

  datatype Class = Exactly(c: char) | Letter(lower: char, upper: char) | AlphaNumeric | UpperOrDigit | UrlSafe | Token | Space

  predicate InRange(c: char, lo: char, hi: char) { lo <= c <= hi }

  predicate IsAlphaNumeric(c: char) { InRange(c, 'A', 'Z') || InRange(c, 'a', 'z') || InRange(c, '0', '9') }

  /** `Token` and `Letter` belong to the case-insensitive pattern: ignoring case, [A-Za-z] also
      matches four letters outside ASCII. `Space` is the Unicode white space of \s. */
  predicate Has(cls: Class, c: char) {
    match cls
    case Exactly(d) => c == d
    case Letter(lower, upper) => c == lower || c == upper
    case AlphaNumeric => IsAlphaNumeric(c)
    case UpperOrDigit => InRange(c, '0', '9') || InRange(c, 'A', 'Z')
    case UrlSafe => IsAlphaNumeric(c) || c == '_' || c == '-'
    case Token => IsAlphaNumeric(c) || c in ['_', '-', '.'] || (c as int) in {0x130, 0x131, 0x17F, 0x212A}
    case Space =>
      var n := c as int;
      9 <= n <= 13 || 28 <= n <= 32 || 0x2000 <= n <= 0x200A
      || n in {0x85, 0xA0, 0x1680, 0x2028, 0x2029, 0x202F, 0x205F, 0x3000}
  }

  /** At least `least` characters of the class, or exactly that many when `more` is false. */
  datatype Item = Item(cls: Class, least: nat, more: bool)

  function One(c: char): Item { Item(Exactly(c), 1, false) }

  function Fold(lower: char, upper: char): Item { Item(Letter(lower, upper), 1, false) }

  const GROQ_KEY := [One('g'), One('s'), One('k'), One('_'), Item(AlphaNumeric, 20, true)]
  const OPENAI_KEY := [One('s'), One('k'), One('-'), Item(AlphaNumeric, 20, true)]
  const AWS_KEY := [One('A'), One('K'), One('I'), One('A'), Item(UpperOrDigit, 16, false)]
  const WEB_TOKEN := [One('e'), One('y'), One('J'), Item(UrlSafe, 1, true), One('.'), Item(UrlSafe, 1, true), One('.'), Item(UrlSafe, 1, true)]
  const BEARER := [Fold('b', 'B'), Fold('e', 'E'), Fold('a', 'A'), Fold('r', 'R'), Fold('e', 'E'), Fold('r', 'R'), Item(Space, 1, true), Item(Token, 8, true)]

  /** A known secret value, or a credential shape. */
  datatype Rule = Secret(text: string) | Pattern(items: seq<Item>)

  const SHAPES: seq<Rule> := [Pattern(GROQ_KEY), Pattern(OPENAI_KEY), Pattern(AWS_KEY), Pattern(WEB_TOKEN), Pattern(BEARER)]

  // ---- The language of a rule ----

  ghost predicate AllIn(cls: Class, t: string) {
    forall k | 0 <= k < |t| :: Has(cls, t[k])
  }

  /** The whole of `t` is one match of the pattern. */
  ghost predicate Accepts(items: seq<Item>, t: string) {
    if items == [] then t == ""
    else exists k :: TakesFirst(items, t, k) && Accepts(items[1..], t[k..])
  }

  ghost predicate TakesFirst(items: seq<Item>, t: string, k: int) {
    && items != []
    && items[0].least <= k <= |t|
    && (!items[0].more ==> k == items[0].least)
    && AllIn(items[0].cls, t[..k])
  }

  ghost predicate Hit(rule: Rule, t: string) {
    match rule
    case Secret(text) => t == text
    case Pattern(items) => Accepts(items, t)
  }

  // ---- The matcher ----

  function RunLength(cls: Class, v: string): (n: nat)
    ensures n <= |v| && AllIn(cls, v[..n])
    ensures n < |v| ==> !Has(cls, v[n])
  {
    if v == "" || !Has(cls, v[0]) then 0
    else
      var n := RunLength(cls, v[1..]);
      assert v[..n + 1] == [v[0]] + v[1..][..n];
      n + 1
  }

  lemma SliceOfPrefix(v: string, n: nat, k: nat)
    requires k <= n <= |v|
    ensures v[..n][..k] == v[..k]
    ensures v[..n][k..] == v[k..][..n - k]
  {
  }

  /** How much of `v` the item takes, when it takes enough. */
  function Taken(item: Item, v: string): (k: nat)
    requires RunLength(item.cls, v) >= item.least
    ensures item.least <= k <= |v| && (!item.more ==> k == item.least)
    ensures AllIn(item.cls, v[..k])
  {
    var run := RunLength(item.cls, v);
    if item.more then run
    else
      SliceOfPrefix(v, run, item.least);
      item.least
  }

  /** The length of the match at the front of `v`, taking as much as possible at every item. */
  function MatchItems(items: seq<Item>, v: string): (r: Option<nat>)
    ensures r.Some? ==> r.value <= |v|
  {
    if items == [] then Some(0)
    else if RunLength(items[0].cls, v) < items[0].least then None
    else
      var k := Taken(items[0], v);
      match MatchItems(items[1..], v[k..])
      case None => None
      case Some(rest) => Some(k + rest)
  }

  function MatchLength(rule: Rule, v: string): (n: nat)
    ensures n <= |v|
  {
    match rule
    case Secret(text) => if text <= v then |text| else 0
    case Pattern(items) => match MatchItems(items, v) case None => 0 case Some(n) => n
  }

  predicate Disjoint(a: Class, b: Class) {
    match (a, b)
    case (AlphaNumeric, Exactly(d)) => !Has(a, d)
    case (UrlSafe, Exactly(d)) => !Has(a, d)
    case (Space, Token) => true
    case _ => false
  }

  /** Taking as much as possible is never a mistake: what follows a repetition cannot be part of it. */
  predicate Deterministic(items: seq<Item>) {
    |items| < 2
    || ((items[0].more ==> items[1].least > 0 && Disjoint(items[0].cls, items[1].cls)) && Deterministic(items[1..]))
  }

  function MinLength(items: seq<Item>): nat {
    if items == [] then 0 else items[0].least + MinLength(items[1..])
  }

  predicate WellFormed(rule: Rule) {
    match rule
    case Secret(text) => text != ""
    case Pattern(items) => Deterministic(items) && MinLength(items) > 0
  }

  lemma DisjointApart(a: Class, b: Class, c: char)
    requires Disjoint(a, b)
    ensures !(Has(a, c) && Has(b, c))
  {
  }

  lemma AcceptsFrom(items: seq<Item>, t: string, k: nat)
    requires TakesFirst(items, t, k) && Accepts(items[1..], t[k..])
    ensures Accepts(items, t)
  {
  }

  lemma AcceptsPrefix(items: seq<Item>, v: string, n: nat, k: nat)
    requires items != [] && k <= n <= |v| && TakesFirst(items, v, k)
    requires Accepts(items[1..], v[k..][..n - k])
    ensures Accepts(items, v[..n])
  {
    SliceOfPrefix(v, n, k);
    AcceptsFrom(items, v[..n], k);
  }

  lemma {:induction false} MatchIsAccepted(items: seq<Item>, v: string)
    requires MatchItems(items, v).Some?
    ensures Accepts(items, v[..MatchItems(items, v).value])
    ensures MatchItems(items, v).value >= MinLength(items)
  {
    if items != [] {
      var k := Taken(items[0], v);
      MatchIsAccepted(items[1..], v[k..]);
      AcceptsPrefix(items, v, MatchItems(items, v).value, k);
    }
  }

  /** A run that ends before a character outside the class is the longest one. */
  lemma RunEnds(cls: Class, v: string, k: nat)
    requires k <= |v| && AllIn(cls, v[..k])
    ensures RunLength(cls, v) >= k
    ensures k < |v| && !Has(cls, v[k]) ==> RunLength(cls, v) == k
  {
    var run := RunLength(cls, v);
    assert forall i | 0 <= i < k :: v[i] == v[..k][i];
    assert forall i | 0 <= i < run :: v[i] == v[..run][i];
  }

  /** What follows a repetition starts with a character that the repetition cannot take. */
  lemma RepetitionEnds(items: seq<Item>, v: string, k: nat, j: nat)
    requires |items| > 1 && items[0].more && Deterministic(items)
    requires k <= j <= |v| && Accepts(items[1..], v[k..j])
    ensures k < |v| && !Has(items[0].cls, v[k])
  {
    var m :| TakesFirst(items[1..], v[k..j], m) && Accepts(items[1..][1..], v[k..j][m..]);
    assert m > 0 && Has(items[1].cls, v[k..j][..m][0]);
    assert v[k..j][..m][0] == v[k];
    DisjointApart(items[0].cls, items[1].cls, v[k]);
  }

  /** The matcher finds a match at the front whenever some prefix is one, and none is longer than the one it finds. */
  lemma {:induction false} MatchIsComplete(items: seq<Item>, v: string, j: nat)
    requires j <= |v| && Accepts(items, v[..j]) && Deterministic(items)
    ensures MatchItems(items, v).Some? && MatchItems(items, v).value >= j
  {
    if items != [] {
      var k :| TakesFirst(items, v[..j], k) && Accepts(items[1..], v[..j][k..]);
      SliceOfPrefix(v, j, k);
      RunEnds(items[0].cls, v, k);
      if items[0].more && |items| == 1 {
        assert items[1..] == [] && k == j;
      } else {
        if items[0].more {
          assert v[..j][k..] == v[k..j];
          RepetitionEnds(items, v, k, j);
        }
        MatchIsComplete(items[1..], v[k..], j - k);
      }
    }
  }

  lemma {:induction false} AcceptedIsLongEnough(items: seq<Item>, t: string)
    requires Accepts(items, t)
    ensures |t| >= MinLength(items)
  {
    if items != [] {
      var k :| TakesFirst(items, t, k) && Accepts(items[1..], t[k..]);
      AcceptedIsLongEnough(items[1..], t[k..]);
    }
  }

  /** The match found at the front is one, and the longest. */
  lemma MatchLengthMeaning(rule: Rule, v: string)
    requires WellFormed(rule)
    ensures MatchLength(rule, v) > 0 ==> Hit(rule, v[..MatchLength(rule, v)])
    ensures forall j | 0 <= j <= |v| && Hit(rule, v[..j]) :: 0 < j <= MatchLength(rule, v)
  {
    match rule
    case Secret(text) =>
    case Pattern(items) =>
      if MatchItems(items, v).Some? {
        MatchIsAccepted(items, v);
      }
      forall j | 0 <= j <= |v| && Hit(rule, v[..j]) ensures 0 < j <= MatchLength(rule, v) {
        MatchIsComplete(items, v, j);
        AcceptedIsLongEnough(items, v[..j]);
      }
  }
}
