/** The five credential patterns, character by character (foundation/redaction.py). */
module CredentialShapes {
  import opened CredentialRules

  // ---- Items one by one ----

  lemma OneCharacter(c: char, items: seq<Item>, t: string)
    ensures Accepts([One(c)] + items, t) <==> t != "" && t[0] == c && Accepts(items, t[1..])
  {
    var all := [One(c)] + items;
    assert all[1..] == items;
    if k :| TakesFirst(all, t, k) && Accepts(all[1..], t[k..]) {
      assert k == 1 && t[..1][0] == t[0];
    }
    if t != "" && t[0] == c && Accepts(items, t[1..]) {
      assert TakesFirst(all, t, 1);
    }
  }

  lemma OneLetter(lower: char, upper: char, items: seq<Item>, t: string)
    ensures Accepts([Fold(lower, upper)] + items, t) <==> t != "" && (t[0] == lower || t[0] == upper) && Accepts(items, t[1..])
  {
    var all := [Fold(lower, upper)] + items;
    assert all[1..] == items;
    if k :| TakesFirst(all, t, k) && Accepts(all[1..], t[k..]) {
      assert k == 1 && t[..1][0] == t[0];
    }
    if t != "" && (t[0] == lower || t[0] == upper) && Accepts(items, t[1..]) {
      assert TakesFirst(all, t, 1);
    }
  }

  lemma LastItem(item: Item, t: string)
    ensures Accepts([item], t) <==> item.least <= |t| && (!item.more ==> |t| == item.least) && AllIn(item.cls, t)
  {
    assert [item][1..] == [];
    if k :| TakesFirst([item], t, k) && Accepts([item][1..], t[k..]) {
      assert k == |t| && t[..k] == t;
    }
    if item.least <= |t| && (!item.more ==> |t| == item.least) && AllIn(item.cls, t) {
      assert t[..|t|] == t && t[|t|..] == "" && TakesFirst([item], t, |t|);
    }
  }

  lemma Repetition(cls: Class, least: nat, items: seq<Item>, t: string)
    ensures Accepts([Item(cls, least, true)] + items, t) <==>
      exists k :: least <= k <= |t| && AllIn(cls, t[..k]) && Accepts(items, t[k..])
  {
    var all := [Item(cls, least, true)] + items;
    assert all[1..] == items;
    if k :| least <= k <= |t| && AllIn(cls, t[..k]) && Accepts(items, t[k..]) {
      assert TakesFirst(all, t, k);
    }
  }

  /** From position n on, every character is of the class. */
  ghost predicate Tail(cls: Class, t: string, n: nat) {
    forall k | n <= k < |t| :: Has(cls, t[k])
  }

  lemma TailIsAllIn(cls: Class, t: string, n: nat)
    requires n <= |t|
    ensures AllIn(cls, t[n..]) <==> Tail(cls, t, n)
  {
    if AllIn(cls, t[n..]) {
      forall k | n <= k < |t| ensures Has(cls, t[k]) {
        assert t[n..][k - n] == t[k];
      }
    }
  }

  // ---- The patterns ----

  lemma ThreeCharacters(a: char, b: char, c: char, items: seq<Item>, t: string)
    ensures Accepts([One(a)] + ([One(b)] + ([One(c)] + items)), t) <==>
      |t| >= 3 && t[0] == a && t[1] == b && t[2] == c && Accepts(items, t[3..])
  {
    OneCharacter(a, [One(b)] + ([One(c)] + items), t);
    if t != "" {
      OneCharacter(b, [One(c)] + items, t[1..]);
      if |t| > 1 {
        assert t[1..][1..] == t[2..];
        OneCharacter(c, items, t[2..]);
        if |t| > 2 {
          assert t[2..][1..] == t[3..];
        }
      }
    }
  }

  lemma FourCharacters(a: char, b: char, c: char, d: char, items: seq<Item>, t: string)
    ensures Accepts([One(a)] + ([One(b)] + ([One(c)] + ([One(d)] + items))), t) <==>
      |t| >= 4 && t[0] == a && t[1] == b && t[2] == c && t[3] == d && Accepts(items, t[4..])
  {
    ThreeCharacters(a, b, c, [One(d)] + items, t);
    if |t| >= 3 {
      OneCharacter(d, items, t[3..]);
      if |t| > 3 {
        assert t[3..][1..] == t[4..];
      }
    }
  }

  /** gsk_ and at least twenty ASCII letters or digits. */
  lemma GroqKeyIff(t: string)
    ensures Hit(SHAPES[0], t) <==>
      |t| >= 24 && t[0] == 'g' && t[1] == 's' && t[2] == 'k' && t[3] == '_'
      && forall k | 4 <= k < |t| :: 'A' <= t[k] <= 'Z' || 'a' <= t[k] <= 'z' || '0' <= t[k] <= '9'
  {
    var last := [Item(AlphaNumeric, 20, true)];
    assert GROQ_KEY == [One('g')] + ([One('s')] + ([One('k')] + ([One('_')] + last)));
    FourCharacters('g', 's', 'k', '_', last, t);
    if |t| >= 4 {
      LastItem(last[0], t[4..]);
      TailIsAllIn(AlphaNumeric, t, 4);
    }
  }

  /** sk- and at least twenty ASCII letters or digits. */
  lemma OpenAiKeyIff(t: string)
    ensures Hit(SHAPES[1], t) <==>
      |t| >= 23 && t[0] == 's' && t[1] == 'k' && t[2] == '-'
      && forall k | 3 <= k < |t| :: 'A' <= t[k] <= 'Z' || 'a' <= t[k] <= 'z' || '0' <= t[k] <= '9'
  {
    var last := [Item(AlphaNumeric, 20, true)];
    assert OPENAI_KEY == [One('s')] + ([One('k')] + ([One('-')] + last));
    ThreeCharacters('s', 'k', '-', last, t);
    if |t| >= 3 {
      LastItem(last[0], t[3..]);
      TailIsAllIn(AlphaNumeric, t, 3);
    }
  }

  /** AKIA and exactly sixteen digits or capital letters. */
  lemma AwsKeyIff(t: string)
    ensures Hit(SHAPES[2], t) <==>
      |t| == 20 && t[0] == 'A' && t[1] == 'K' && t[2] == 'I' && t[3] == 'A'
      && forall k | 4 <= k < 20 :: '0' <= t[k] <= '9' || 'A' <= t[k] <= 'Z'
  {
    var last := [Item(UpperOrDigit, 16, false)];
    assert AWS_KEY == [One('A')] + ([One('K')] + ([One('I')] + ([One('A')] + last)));
    FourCharacters('A', 'K', 'I', 'A', last, t);
    if |t| >= 4 {
      LastItem(last[0], t[4..]);
      TailIsAllIn(UpperOrDigit, t, 4);
    }
  }

  // ---- Web tokens ----

  ghost predicate IsUrlSafe(c: char) {
    'A' <= c <= 'Z' || 'a' <= c <= 'z' || '0' <= c <= '9' || c == '_' || c == '-'
  }

  /** A dot at position i, something on both sides, and nothing else but URL-safe characters. */
  ghost predicate OneDot(u: string, i: int) {
    0 < i < |u| - 1 && u[i] == '.' && forall k | 0 <= k < |u| && k != i :: IsUrlSafe(u[k])
  }

  ghost predicate TwoDots(u: string, i: int, j: int) {
    0 < i && i + 1 < j < |u| - 1 && u[i] == '.' && u[j] == '.' && forall k | 0 <= k < |u| && k != i && k != j :: IsUrlSafe(u[k])
  }

  lemma FrontIsAllIn(cls: Class, t: string, n: nat)
    requires n <= |t|
    ensures AllIn(cls, t[..n]) <==> forall k | 0 <= k < n :: Has(cls, t[k])
  {
    if AllIn(cls, t[..n]) {
      forall k | 0 <= k < n ensures Has(cls, t[k]) {
        assert t[..n][k] == t[k];
      }
    }
  }

  const SAFE := Item(UrlSafe, 1, true)

  lemma BehindDot(u: string)
    ensures Accepts([One('.')] + [SAFE], u) <==> |u| > 1 && u[0] == '.' && forall k | 1 <= k < |u| :: IsUrlSafe(u[k])
  {
    OneCharacter('.', [SAFE], u);
    if u != "" {
      LastItem(SAFE, u[1..]);
      TailIsAllIn(UrlSafe, u, 1);
    }
  }

  lemma SplitAtDot(u: string, k: nat)
    requires k <= |u|
    ensures 1 <= k && AllIn(UrlSafe, u[..k]) && Accepts([One('.')] + [SAFE], u[k..]) <==> OneDot(u, k)
  {
    FrontIsAllIn(UrlSafe, u, k);
    BehindDot(u[k..]);
    assert forall m | k <= m < |u| :: u[k..][m - k] == u[m];
    if OneDot(u, k) {
      forall m | 1 <= m < |u[k..]| ensures IsUrlSafe(u[k..][m]) {
        assert u[k..][m] == u[k + m];
      }
    }
  }

  lemma OneDotIff(u: string)
    ensures Accepts([SAFE] + ([One('.')] + [SAFE]), u) <==> exists i :: OneDot(u, i)
  {
    Repetition(UrlSafe, 1, [One('.')] + [SAFE], u);
    forall k: nat | k <= |u|
      ensures 1 <= k && AllIn(UrlSafe, u[..k]) && Accepts([One('.')] + [SAFE], u[k..]) <==> OneDot(u, k)
    {
      SplitAtDot(u, k);
    }
    if i :| OneDot(u, i) {
      assert 1 <= i && AllIn(UrlSafe, u[..i]) && Accepts([One('.')] + [SAFE], u[i..]);
    }
  }

  const DOTTED := [One('.')] + ([SAFE] + ([One('.')] + [SAFE]))

  lemma DottedIff(w: string)
    ensures Accepts(DOTTED, w) <==> w != "" && w[0] == '.' && exists i :: OneDot(w[1..], i)
  {
    OneCharacter('.', [SAFE] + ([One('.')] + [SAFE]), w);
    if w != "" { OneDotIff(w[1..]); }
  }

  lemma ShiftDot(u: string, k: nat, j: nat)
    requires 0 < k <= j && j < |u| && u[k] == '.'
    ensures (forall m | 0 <= m < k :: IsUrlSafe(u[m])) && OneDot(u[k..][1..], j - k - 1) <==> TwoDots(u, k, j)
  {
    var w := u[k..][1..];
    assert |w| == |u| - k - 1;
    assert forall m | 0 <= m < |w| :: w[m] == u[k + 1 + m];
    if TwoDots(u, k, j) {
      assert w[j - k - 1] == u[j];
    }
    if (forall m | 0 <= m < k :: IsUrlSafe(u[m])) && OneDot(w, j - k - 1) {
      forall m | 0 <= m < |u| && m != k && m != j ensures IsUrlSafe(u[m]) {
        assert m > k ==> u[m] == w[m - k - 1];
      }
    }
  }

  lemma TwoDotsIff(u: string)
    ensures Accepts([SAFE] + DOTTED, u) <==> exists i, j :: TwoDots(u, i, j)
  {
    Repetition(UrlSafe, 1, DOTTED, u);
    if k :| 1 <= k <= |u| && AllIn(UrlSafe, u[..k]) && Accepts(DOTTED, u[k..]) {
      FrontIsAllIn(UrlSafe, u, k);
      DottedIff(u[k..]);
      var i :| OneDot(u[k..][1..], i);
      ShiftDot(u, k, k + 1 + i);
    }
    if i, j :| TwoDots(u, i, j) {
      FrontIsAllIn(UrlSafe, u, i);
      ShiftDot(u, i, j);
      DottedIff(u[i..]);
      assert 1 <= i <= |u| && AllIn(UrlSafe, u[..i]) && Accepts(DOTTED, u[i..]);
    }
  }

  /** eyJ and three non-empty pieces of URL-safe characters with a dot between each two. */
  lemma WebTokenIff(t: string)
    ensures Hit(SHAPES[3], t) <==>
      |t| >= 3 && t[0] == 'e' && t[1] == 'y' && t[2] == 'J' && exists i, j :: TwoDots(t[3..], i, j)
  {
    assert WEB_TOKEN == [One('e')] + ([One('y')] + ([One('J')] + ([SAFE] + DOTTED)));
    ThreeCharacters('e', 'y', 'J', [SAFE] + DOTTED, t);
    if |t| >= 3 { TwoDotsIff(t[3..]); }
  }

  // ---- Bearer tokens ----

  ghost predicate IsLetter(t: string, i: nat, lower: char, upper: char) {
    i < |t| && (t[i] == lower || t[i] == upper)
  }

  /** What a bearer token may consist of, and the four letters outside ASCII that ignoring case adds to [A-Za-z]. */
  ghost predicate IsTokenCharacter(c: char) {
    'A' <= c <= 'Z' || 'a' <= c <= 'z' || '0' <= c <= '9' || c == '.' || c == '_' || c == '-'
    || c as int in {0x130, 0x131, 0x17F, 0x212A}
  }

  lemma TwoLetters(a: char, b: char, c: char, d: char, items: seq<Item>, t: string, n: nat)
    requires n <= |t|
    ensures Accepts([Fold(a, b)] + ([Fold(c, d)] + items), t[n..]) <==>
      IsLetter(t, n, a, b) && IsLetter(t, n + 1, c, d) && Accepts(items, t[n + 2..])
  {
    OneLetter(a, b, [Fold(c, d)] + items, t[n..]);
    if n < |t| {
      assert t[n..][1..] == t[n + 1..] && t[n..][0] == t[n];
      OneLetter(c, d, items, t[n + 1..]);
      if n + 1 < |t| {
        assert t[n + 1..][1..] == t[n + 2..] && t[n + 1..][0] == t[n + 1];
      }
    }
  }

  /** Spaces, one at least, and then at least eight token characters. */
  ghost predicate SpacedToken(t: string, from: nat, k: int) {
    && from < k && k + 8 <= |t|
    && (forall i | from <= i < k :: Has(Space, t[i]))
    && (forall i | k <= i < |t| :: IsTokenCharacter(t[i]))
  }

  const BLANKS := Item(Space, 1, true)
  const TOKEN := Item(Token, 8, true)

  lemma SpacedTokenIff(t: string, n: nat)
    requires n <= |t|
    ensures Accepts([BLANKS] + [TOKEN], t[n..]) <==> exists k :: SpacedToken(t, n, k)
  {
    var u := t[n..];
    Repetition(Space, 1, [TOKEN], u);
    forall k: nat | k <= |u| ensures 1 <= k && AllIn(Space, u[..k]) && Accepts([TOKEN], u[k..]) <==> SpacedToken(t, n, n + k) {
      OneSplit(t, n, k);
    }
    if k: nat :| 1 <= k <= |u| && AllIn(Space, u[..k]) && Accepts([TOKEN], u[k..]) {
      assert SpacedToken(t, n, n + k);
    }
    if k :| SpacedToken(t, n, k) {
      OneSplit(t, n, k - n);
      assert 1 <= k - n <= |u| && AllIn(Space, u[..k - n]) && Accepts([TOKEN], u[k - n..]);
    }
  }

  lemma OneSplit(t: string, n: nat, k: nat)
    requires n + k <= |t|
    ensures 1 <= k && AllIn(Space, t[n..][..k]) && Accepts([TOKEN], t[n..][k..]) <==> SpacedToken(t, n, n + k)
  {
    assert t[n..][k..] == t[n + k..];
    LastItem(TOKEN, t[n + k..]);
    TailIsAllIn(Token, t, n + k);
    FrontIsAllIn(Space, t[n..], k);
    assert forall i | n <= i < n + k :: t[n..][i - n] == t[i];
    if SpacedToken(t, n, n + k) {
      forall i | 0 <= i < k ensures Has(Space, t[n..][i]) {
        assert t[n..][i] == t[n + i];
      }
    }
  }

  ghost predicate SaysBearer(t: string) {
    && IsLetter(t, 0, 'b', 'B') && IsLetter(t, 1, 'e', 'E') && IsLetter(t, 2, 'a', 'A')
    && IsLetter(t, 3, 'r', 'R') && IsLetter(t, 4, 'e', 'E') && IsLetter(t, 5, 'r', 'R')
  }

  lemma BearerLetters(t: string)
    ensures Hit(SHAPES[4], t) <==> SaysBearer(t) && Accepts([BLANKS] + [TOKEN], t[6..])
  {
    var rest := [BLANKS] + [TOKEN];
    var last := [Fold('e', 'E')] + ([Fold('r', 'R')] + rest);
    var middle := [Fold('a', 'A')] + ([Fold('r', 'R')] + last);
    assert BEARER == [Fold('b', 'B')] + ([Fold('e', 'E')] + middle);
    assert t[0..] == t;
    TwoLetters('b', 'B', 'e', 'E', middle, t, 0);
    if |t| >= 2 { TwoLetters('a', 'A', 'r', 'R', last, t, 2); }
    if |t| >= 4 { TwoLetters('e', 'E', 'r', 'R', rest, t, 4); }
  }

  /** The word bearer in any case, white space, and at least eight token characters. */
  lemma BearerIff(t: string)
    ensures Hit(SHAPES[4], t) <==> SaysBearer(t) && exists k :: SpacedToken(t, 6, k)
  {
    BearerLetters(t);
    if |t| >= 6 { SpacedTokenIff(t, 6); }
  }

  /** White space in the pattern is that of Unicode, as the engine reads it. */
  lemma WhiteSpaceIff(c: char)
    ensures var n := c as int;
      Has(Space, c) <==>
        9 <= n <= 13 || 28 <= n <= 32 || 0x2000 <= n <= 0x200A || n in {0x85, 0xA0, 0x1680, 0x2028, 0x2029, 0x202F, 0x205F, 0x3000}
  {
  }
}
