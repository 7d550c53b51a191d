/** Working memory: a bounded, decaying store with two indexes (brain/memory/working.py). */
module WorkingMemory {

  datatype Expiry = Never | At(t: real)

  datatype Item = Item(id: string, content: string, kind: string, salience: real, createdAt: real, expiresAt: Expiry)

  datatype Ttl = Default | Given(seconds: real)

  type Store = map<string, Item>

  type Scores = map<string, real>

  predicate Expired(item: Item, now: real) {
    item.expiresAt.At? && now >= item.expiresAt.t
  }

  function Clamp01(x: real): (r: real)
    ensures 0.0 <= r <= 1.0
    ensures 0.0 <= x <= 1.0 ==> r == x
  {
    if x < 0.0 then 0.0 else if x > 1.0 then 1.0 else x
  }

  // ---- The order of a sorted set: by score, then by member ----

  predicate Lex(a: string, b: string) {
    b != "" && (a == "" || a[0] < b[0] || (a[0] == b[0] && Lex(a[1..], b[1..])))
  }

  lemma {:induction false} LexIsTotal(a: string, b: string)
    ensures a == b || Lex(a, b) || Lex(b, a)
    ensures !(Lex(a, b) && Lex(b, a))
    decreases |a|
  {
    if a != "" && b != "" {
      LexIsTotal(a[1..], b[1..]);
      if a[1..] == b[1..] && a[0] == b[0] {
        assert a == [a[0]] + a[1..] && b == [b[0]] + b[1..];
      }
    }
  }

  /** The shorter of two strings with the same beginning comes first, or the one with the smaller character where they
      first differ. */
  lemma {:induction false} LexMeaning(a: string, b: string, k: nat)
    requires k <= |a| && k < |b| && (forall i | 0 <= i < k :: a[i] == b[i]) && (k == |a| || a[k] < b[k])
    ensures Lex(a, b)
    decreases k
  {
    if k > 0 {
      LexMeaning(a[1..], b[1..], k - 1);
    }
  }

  lemma {:induction false} LexIsTransitive(a: string, b: string, c: string)
    requires Lex(a, b) && Lex(b, c)
    ensures Lex(a, c)
    decreases |a|
  {
    if a != "" && a[0] == b[0] == c[0] {
      LexIsTransitive(a[1..], b[1..], c[1..]);
    }
  }

  predicate Below(s: Scores, a: string, b: string)
    requires a in s && b in s
  {
    s[a] < s[b] || (s[a] == s[b] && Lex(a, b))
  }

  lemma BelowIsTotal(s: Scores, a: string, b: string)
    requires a in s && b in s
    ensures a == b || Below(s, a, b) || Below(s, b, a)
    ensures !(Below(s, a, b) && Below(s, b, a))
  {
    LexIsTotal(a, b);
  }

  lemma BelowIsTransitive(s: Scores, a: string, b: string, c: string)
    requires a in s && b in s && c in s
    requires Below(s, a, b) && Below(s, b, c)
    ensures Below(s, a, c)
  {
    if s[a] == s[b] == s[c] {
      LexIsTransitive(a, b, c);
    }
  }

  ghost predicate IsLeast(s: Scores, x: string, among: set<string>) {
    x in among && among <= s.Keys && forall y | y in among && y != x :: Below(s, x, y)
  }

  lemma {:induction false} LeastExists(s: Scores, among: set<string>) returns (x: string)
    requires among != {} && among <= s.Keys
    ensures IsLeast(s, x, among)
    decreases |among|
  {
    var y :| y in among;
    if among == {y} {
      x := y;
    } else {
      var z := LeastExists(s, among - {y});
      BelowIsTotal(s, y, z);
      if Below(s, y, z) {
        x := y;
        forall w | w in among && w != y ensures Below(s, y, w) {
          if w != z { BelowIsTransitive(s, y, z, w); }
        }
      } else {
        x := z;
      }
    }
  }

  lemma LeastOf(s: Scores, among: set<string>)
    requires among != {} && among <= s.Keys
    ensures exists x :: IsLeast(s, x, among)
  {
    var x := LeastExists(s, among);
  }

  // ---- The best k of a scored set ----

  function Min(a: nat, b: nat): nat { if a < b then a else b }

  /** t holds the k members with the highest scores, or all of them. */
  ghost predicate IsTop(s: Scores, t: set<string>, among: set<string>, k: nat)
    requires among <= s.Keys
  {
    && t <= among && |t| == Min(k, |among|)
    && forall a, b | a in t && b in among - t :: Below(s, b, a)
  }

  lemma {:induction false} TopExists(s: Scores, among: set<string>, k: nat) returns (t: set<string>)
    requires among <= s.Keys
    ensures IsTop(s, t, among, k)
    decreases |among|
  {
    if |among| <= k {
      t := among;
    } else {
      var x := LeastExists(s, among);
      t := TopExists(s, among - {x}, k);
    }
  }

  lemma TopIsUnique(s: Scores, t: set<string>, u: set<string>, among: set<string>, k: nat)
    requires among <= s.Keys
    requires IsTop(s, t, among, k) && IsTop(s, u, among, k)
    ensures t == u
  {
    if t != u {
      if t <= u {
        SubsetSize(t, u);
      } else if u <= t {
        SubsetSize(u, t);
      } else {
        var a :| a in t && a !in u;
        var b :| b in u && b !in t;
        BelowIsTotal(s, a, b);
      }
    }
  }

  lemma {:induction false} SubsetSize(t: set<string>, u: set<string>)
    requires t <= u
    ensures |t| <= |u| && (|t| == |u| ==> t == u)
  {
    assert u == t + (u - t);
  }

  lemma SomeTop(s: Scores, among: set<string>, k: nat)
    requires among <= s.Keys
    ensures exists t :: IsTop(s, t, among, k)
  {
    var t := TopExists(s, among, k);
  }

  ghost function Top(s: Scores, k: nat): (t: set<string>)
    ensures IsTop(s, t, s.Keys, k)
  {
    SomeTop(s, s.Keys, k);
    var t :| IsTop(s, t, s.Keys, k);
    t
  }

  // ---- What the operations do to a store ----

  function ScoresOf(m: Store): (s: Scores)
    ensures s.Keys == m.Keys && forall id | id in m :: s[id] == m[id].salience
  {
    map id | id in m :: m[id].salience
  }

  function Live(m: Store, now: real): Store {
    map id | id in m && !Expired(m[id], now) :: m[id]
  }

  ghost function Restricted(m: Store, ids: set<string>): (r: Store)
    requires ids <= m.Keys
    ensures r.Keys == ids && forall id | id in ids :: r[id] == m[id]
  {
    map id | id in ids :: m[id]
  }

  ghost function Trimmed(m: Store, k: nat): Store {
    Restricted(m, Top(ScoresOf(m), k))
  }

  function Stored(item: Item, now: real, ttl: real): Item {
    item.(salience := Clamp01(item.salience), createdAt := now, expiresAt := if ttl > 0.0 then At(now + ttl) else Never)
  }

  function Room(capacity: int): nat { if capacity < 0 then 0 else capacity }

  ghost function AfterPut(m: Store, capacity: int, item: Item, now: real, ttl: real): Store {
    Trimmed(Live(m, now)[item.id := Stored(item, now, ttl)], Room(capacity))
  }

  predicate Survives(item: Item, now: real, factor: real, floor: real) {
    !Expired(item, now) && Faded(item, factor).salience >= floor
  }

  function Faded(item: Item, factor: real): Item {
    item.(salience := item.salience * factor)
  }

  function AfterSweep(m: Store, now: real, factor: real, floor: real): (r: Store)
    ensures r.Keys <= m.Keys
  {
    map id | id in m && Survives(m[id], now, factor, floor) :: Faded(m[id], factor)
  }

  function AfterImport(m: Store, items: seq<Item>): Store {
    if items == [] then m else AfterImport(m, items[..|items| - 1])[items[|items| - 1].id := items[|items| - 1]]
  }

  /** Every item is filed under its own id. */
  ghost predicate Filed(m: Store) {
    forall id | id in m :: m[id].id == id
  }

  /** The list holds each item of m once. */
  ghost predicate Lists(s: seq<Item>, m: Store) {
    if s == [] then m == map[]
    else
      var last := s[|s| - 1];
      last.id in m && m[last.id] == last && Lists(s[..|s| - 1], m - {last.id})
  }

  lemma {:induction false} ListsMeaning(s: seq<Item>, m: Store)
    requires Lists(s, m)
    ensures |s| == |m|
    ensures forall item :: item in s <==> item.id in m && m[item.id] == item
    ensures Filed(m)
  {
    if s != [] {
      var last := s[|s| - 1];
      ListsMeaning(s[..|s| - 1], m - {last.id});
      assert s == s[..|s| - 1] + [last];
      assert m.Keys == (m - {last.id}).Keys + {last.id};
    }
  }

  lemma ListsMore(s: seq<Item>, m: Store, item: Item)
    requires Lists(s, m) && item.id !in m
    ensures Lists(s + [item], m[item.id := item])
  {
    assert (s + [item])[..|s|] == s;
    assert m[item.id := item] - {item.id} == m;
  }

  /** What has been lost between two states of a store. */
  function Gone(before: Store, after: Store): Store {
    before - after.Keys
  }

  lemma GoneMore(before: Store, after: Store, s: seq<Item>, id: string)
    requires Filed(before) && id in after && id in before && Lists(s, Gone(before, after))
    ensures Lists(s + [before[id]], Gone(before, after - {id}))
  {
    ListsMore(s, Gone(before, after), before[id]);
    assert Gone(before, after - {id}) == Gone(before, after)[id := before[id]];
  }

  lemma SameGone(before: Store, after: Store, s: seq<Item>, id: string, item: Item)
    requires id in after && Lists(s, Gone(before, after))
    ensures Lists(s, Gone(before, after[id := item]))
  {
    assert Gone(before, after[id := item]) == Gone(before, after);
  }

  /** A store part way through a prune or a sweep that still has the ids in todo to visit. */
  function PartlyPruned(m: Store, todo: set<string>, now: real): Store {
    map id | id in m && (id in todo || !Expired(m[id], now)) :: m[id]
  }

  function PartlySwept(m: Store, todo: set<string>, now: real, factor: real, floor: real): Store {
    map id | id in m && (id in todo || Survives(m[id], now, factor, floor)) :: if id in todo then m[id] else Faded(m[id], factor)
  }

  lemma PruneStep(m: Store, todo: set<string>, now: real, id: string)
    requires id in m && id in todo
    ensures var store := PartlyPruned(m, todo, now);
      id in store && PartlyPruned(m, todo - {id}, now) == if Expired(m[id], now) then store - {id} else store
  {
  }

  lemma SweepStep(m: Store, todo: set<string>, now: real, factor: real, floor: real, id: string)
    requires id in m && id in todo
    ensures var store := PartlySwept(m, todo, now, factor, floor);
      id in store
      && PartlySwept(m, todo - {id}, now, factor, floor)
         == if Survives(m[id], now, factor, floor) then store[id := Faded(m[id], factor)] else store - {id}
  {
  }

  /** The state of a sweep: what the store is, and what has been thrown out since `before`. */
  ghost predicate Sweeping(before: Store, m: Store, todo: set<string>, now: real, factor: real, floor: real, store: Store, evicted: seq<Item>) {
    && Filed(before) && todo <= m.Keys && m.Keys <= before.Keys
    && (forall id | id in m :: m[id] == before[id])
    && store == PartlySwept(m, todo, now, factor, floor)
    && Lists(evicted, Gone(before, store))
  }

  lemma StillSweeping(before: Store, m: Store, todo: set<string>, now: real, factor: real, floor: real, store: Store, evicted: seq<Item>, id: string)
    requires Sweeping(before, m, todo, now, factor, floor, store, evicted) && id in todo
    requires !Expired(m[id], now)
    ensures if Faded(m[id], factor).salience < floor
      then Sweeping(before, m, todo - {id}, now, factor, floor, store - {id}, evicted + [m[id]])
      else Sweeping(before, m, todo - {id}, now, factor, floor, store[id := Faded(m[id], factor)], evicted)
  {
    SweepStep(m, todo, now, factor, floor, id);
    if Faded(m[id], factor).salience < floor {
      GoneMore(before, store, evicted, id);
    } else {
      SameGone(before, store, evicted, id, Faded(m[id], factor));
    }
  }

  lemma PruneEnds(m: Store, now: real)
    ensures PartlyPruned(m, m.Keys, now) == m && PartlyPruned(m, {}, now) == Live(m, now)
    ensures Gone(m, m) == map[]
  {
  }

  lemma SweepEnds(m: Store, now: real, factor: real, floor: real)
    ensures var live := Live(m, now);
      && PartlySwept(live, live.Keys, now, factor, floor) == live
      && PartlySwept(live, {}, now, factor, floor) == AfterSweep(m, now, factor, floor)
  {
  }

  function Without(m: Store, ids: set<string>): Store { m - ids }

  lemma WithoutMore(m: Store, s: seq<string>, i: nat)
    requires i < |s|
    ensures Without(m, Ids(s[..i])) - {s[i]} == Without(m, Ids(s[..i + 1]))
  {
    assert s[..i + 1] == s[..i] + [s[i]];
    assert Ids(s[..i + 1]) == Ids(s[..i]) + {s[i]};
  }

  lemma WithoutAll(m: Store, s: seq<string>)
    requires Ids(s) <= m.Keys
    ensures Without(m, Ids(s[..0])) == m
    ensures Without(m, Ids(s[..|s|])) == Restricted(m, m.Keys - Ids(s))
  {
    assert s[..|s|] == s;
  }

  /** Evicting the lowest members leaves the top ones. */
  lemma LeavesTop(m: Store, gone: set<string>, k: nat)
    requires gone <= m.Keys && IsTop(ScoresOf(m), m.Keys - gone, m.Keys, k)
    ensures Restricted(m, m.Keys - gone) == Trimmed(m, k)
  {
    TopIsUnique(ScoresOf(m), m.Keys - gone, Top(ScoresOf(m), k), m.Keys, k);
  }

  function Ids(s: seq<string>): set<string> {
    set x | x in s
  }

  // ---- The store ----

  class WorkingMemory {
    const capacity: int
    const factor: real
    const floor: real
    const defaultTtl: real
    var items: Store       // {ns}:items
    var salience: Scores   // {ns}:salience

    /** Both indexes hold the same ids, with the same scores. */
    ghost predicate Valid()
      reads this
    {
      Filed(items) && salience == ScoresOf(items)
    }

    constructor (capacity: int, factor: real, floor: real, defaultTtl: real)
      ensures Valid() && items == map[]
      ensures this.capacity == capacity && this.factor == factor && this.floor == floor && this.defaultTtl == defaultTtl
    {
      this.capacity, this.factor, this.floor, this.defaultTtl := capacity, factor, floor, defaultTtl;
      items, salience := map[], map[];
    }

    method Persist(item: Item)
      requires Valid()
      modifies this
      ensures Valid() && items == old(items)[item.id := item]
    {
      items := items[item.id := item];
      salience := salience[item.id := item.salience];
    }

    method Evict(id: string)
      requires Valid()
      modifies this
      ensures Valid() && items == old(items) - {id}
    {
      items := items - {id};
      salience := salience - {id};
    }

    method PruneExpired(now: real) returns (expired: seq<Item>)
      requires Valid()
      modifies this
      ensures Valid() && items == Live(old(items), now)
      ensures Lists(expired, Gone(old(items), items))
    {
      expired := [];
      var all := items;
      var todo := all.Keys;
      PruneEnds(all, now);
      while todo != {}
        invariant Valid() && todo <= all.Keys
        invariant items == PartlyPruned(all, todo, now)
        invariant Lists(expired, Gone(all, items))
        decreases todo
      {
        var id :| id in todo;
        PruneStep(all, todo, now, id);
        todo := todo - {id};
        if Expired(all[id], now) {
          GoneMore(all, items, expired, id);
          Evict(id);
          expired := expired + [all[id]];
        }
      }
    }

    /** The n members with the lowest scores, lowest first. */
    method Range(n: nat) returns (r: seq<string>)
      requires Valid() && n <= |salience|
      ensures |r| == n && Ids(r) <= salience.Keys
      ensures IsTop(salience, salience.Keys - Ids(r), salience.Keys, |salience| - n)
    {
      r := [];
      var rest := salience.Keys;
      while |r| < n
        invariant |r| <= n && |rest| + |r| == |salience|
        invariant Ids(r) <= salience.Keys && rest == salience.Keys - Ids(r)
        invariant IsTop(salience, rest, salience.Keys, |rest|)
      {
        LeastOf(salience, rest);
        var x :| x in rest && forall y | y in rest && y != x :: Below(salience, x, y);
        r := r + [x];
        rest := rest - {x};
      }
    }

    method EvictAll(ids: seq<string>)
      requires Valid() && Ids(ids) <= items.Keys
      modifies this
      ensures Valid() && items == Restricted(old(items), old(items.Keys) - Ids(ids))
    {
      WithoutAll(items, ids);
      for i := 0 to |ids|
        invariant Valid() && items == Without(old(items), Ids(ids[..i]))
      {
        WithoutMore(old(items), ids, i);
        Evict(ids[i]);
      }
    }

    method TrimToCapacity()
      requires Valid()
      modifies this
      ensures Valid() && items == Trimmed(old(items), Room(capacity))
      ensures |items| == if |old(items)| <= capacity then |old(items)| else if capacity < 0 then 0 else capacity
      ensures |old(items)| <= capacity ==> items == old(items)
    {
      TrimmedMeaning(items, Room(capacity));
      var overflow := |salience| - capacity;
      if overflow <= 0 {
        LeavesTop(items, {}, Room(capacity));
        return;
      }
      var lowest := Range(if overflow < |salience| then overflow else |salience|);
      LeavesTop(items, Ids(lowest), Room(capacity));
      EvictAll(lowest);
    }

    function EffectiveTtl(ttl: Ttl): real {
      if ttl.Default? then defaultTtl else ttl.seconds
    }

    method Put(item: Item, now: real, ttl: Ttl) returns (stored: Item)
      requires Valid()
      modifies this
      ensures Valid() && items == AfterPut(old(items), capacity, item, now, EffectiveTtl(ttl))
      ensures stored == Stored(item, now, EffectiveTtl(ttl))
      ensures stored == Stored(item, now, if ttl.Default? then defaultTtl else ttl.seconds)
    {
      stored := Stored(item, now, EffectiveTtl(ttl));
      var expired := PruneExpired(now);
      Persist(stored);
      TrimToCapacity();
    }

    /** What a sweep does to one live item. */
    method Age(item: Item) returns (dropped: bool)
      requires Valid()
      modifies this
      ensures Valid() && dropped == (Faded(item, factor).salience < floor)
      ensures items == if dropped then old(items) - {item.id} else old(items)[item.id := Faded(item, factor)]
    {
      var faded := Faded(item, factor);
      dropped := faded.salience < floor;
      if dropped {
        Evict(item.id);
      } else {
        Persist(faded);
      }
    }

    /** One sweep: the survivors fade, and the rest is returned as it was. */
    method Decay(now: real) returns (evicted: seq<Item>)
      requires Valid()
      modifies this
      ensures Valid() && items == AfterSweep(old(items), now, factor, floor)
      ensures Lists(evicted, Gone(old(items), items))
    {
      ghost var before := items;
      evicted := PruneExpired(now);
      var all := items;
      var todo := all.Keys;
      SweepEnds(before, now, factor, floor);
      while todo != {}
        invariant Valid() && Sweeping(before, all, todo, now, factor, floor, items, evicted)
        decreases todo
      {
        var id :| id in todo;
        StillSweeping(before, all, todo, now, factor, floor, items, evicted, id);
        todo := todo - {id};
        var dropped := Age(all[id]);
        if dropped {
          evicted := evicted + [all[id]];
        }
      }
    }

    /** Restoring writes the items as they are, without trimming. */
    method ImportItems(restored: seq<Item>)
      requires Valid()
      modifies this
      ensures Valid() && items == AfterImport(old(items), restored)
    {
      for i := 0 to |restored|
        invariant Valid() && items == AfterImport(old(items), restored[..i])
      {
        assert restored[..i + 1][..i] == restored[..i];
        Persist(restored[i]);
      }
      assert restored[..|restored|] == restored;
    }
  }

  // ---- Evicting online agrees with choosing offline ----

  /** Adding one member to the best k and choosing again is choosing among everything. */
  lemma TopOnline(s: Scores, t: set<string>, among: set<string>, id: string, u: set<string>, k: nat)
    requires among <= s.Keys && id in s && id !in among
    requires IsTop(s, t, among, k) && IsTop(s, u, t + {id}, k)
    ensures IsTop(s, u, among + {id}, k)
  {
    if t == among {
      return;
    }
    SubsetSize(t, among);
    assert |t| == k && |t + {id}| == k + 1 && |u| == k;
    forall a, b | a in u && b in among + {id} - u ensures Below(s, b, a) {
      if b !in t + {id} && a == id {
        var c := LeftOut(t, u, id);
        BelowIsTransitive(s, b, c, a);
      }
    }
  }

  lemma LeftOut(t: set<string>, u: set<string>, id: string) returns (c: string)
    requires u <= t + {id} && |u| <= |t| && id !in t && id in u
    ensures c in t && c !in u
  {
    if t <= u {
      SubsetSize(t + {id}, u);
    }
    c :| c in t && c !in u;
  }

  lemma BelowAgrees(s: Scores, r: Scores, u: set<string>, among: set<string>, k: nat)
    requires among <= s.Keys && among <= r.Keys
    requires forall id | id in among :: s[id] == r[id]
    requires IsTop(s, u, among, k)
    ensures IsTop(r, u, among, k)
  {
    forall a, b | a in u && b in among - u ensures Below(r, b, a) {
      assert Below(s, b, a);
    }
  }

  lemma SameTop(all: Store, item: Item, k: nat)
    requires item.id !in all
    ensures var more, held := all[item.id := item], Trimmed(all, k)[item.id := item];
      Top(ScoresOf(held), k) == Top(ScoresOf(more), k)
  {
    var id := item.id;
    var more, held := all[id := item], Trimmed(all, k)[id := item];
    var t, u := Top(ScoresOf(all), k), Top(ScoresOf(held), k);
    assert held.Keys == t + {id} && more.Keys == all.Keys + {id};
    BelowAgrees(ScoresOf(all), ScoresOf(more), t, all.Keys, k);
    BelowAgrees(ScoresOf(held), ScoresOf(more), u, t + {id}, k);
    TopOnline(ScoresOf(more), t, all.Keys, id, u, k);
    TopIsUnique(ScoresOf(more), u, Top(ScoresOf(more), k), more.Keys, k);
  }

  lemma OnlineStep(all: Store, item: Item, k: nat)
    requires item.id !in all
    ensures Trimmed(Trimmed(all, k)[item.id := item], k) == Trimmed(all[item.id := item], k)
  {
    SameTop(all, item, k);
    var more, held := all[item.id := item], Trimmed(all, k)[item.id := item];
    assert forall id | id in held :: id in more && held[id] == more[id];
  }

  datatype PutCall = PutCall(item: Item, now: real, ttl: real)

  function Value(p: PutCall): Item { Stored(p.item, p.now, p.ttl) }

  ghost function StoreAfter(puts: seq<PutCall>, capacity: int): Store {
    if puts == [] then map[]
    else
      var p := puts[|puts| - 1];
      AfterPut(StoreAfter(puts[..|puts| - 1], capacity), capacity, p.item, p.now, p.ttl)
  }

  ghost function EverPut(puts: seq<PutCall>): (m: Store)
    ensures forall id | id in m :: exists i :: 0 <= i < |puts| && puts[i].item.id == id && m[id] == Value(puts[i])
  {
    if puts == [] then map[]
    else
      var before := EverPut(puts[..|puts| - 1]);
      before[puts[|puts| - 1].item.id := Value(puts[|puts| - 1])]
  }

  /** No id is put twice, and no item expires while the puts go on. */
  ghost predicate DistinctAndLasting(puts: seq<PutCall>) {
    forall i, j | 0 <= i < j < |puts| :: puts[i].item.id != puts[j].item.id && !Expired(Value(puts[i]), puts[j].now)
  }

  lemma LastIsNew(puts: seq<PutCall>)
    requires puts != [] && DistinctAndLasting(puts)
    ensures var before, p := puts[..|puts| - 1], puts[|puts| - 1];
      && DistinctAndLasting(before) && p.item.id !in EverPut(before)
      && forall id | id in EverPut(before) :: !Expired(EverPut(before)[id], p.now)
  {
  }

  lemma LiveIsIdle(m: Store, k: nat, now: real)
    requires forall id | id in m :: !Expired(m[id], now)
    ensures Live(Trimmed(m, k), now) == Trimmed(m, k)
  {
  }

  /** From an empty store, evicting the least salient item at every put leaves exactly the best
      `capacity` items ever put. */
  lemma {:induction false} OnlineIsOffline(puts: seq<PutCall>, capacity: int)
    requires DistinctAndLasting(puts)
    ensures StoreAfter(puts, capacity) == Trimmed(EverPut(puts), Room(capacity))
  {
    if puts == [] {
      assert Trimmed(EverPut(puts), Room(capacity)) == map[];
    } else {
      var before, p := puts[..|puts| - 1], puts[|puts| - 1];
      LastIsNew(puts);
      OnlineIsOffline(before, capacity);
      LiveIsIdle(EverPut(before), Room(capacity), p.now);
      OnlineStep(EverPut(before), Value(p), Room(capacity));
    }
  }

  /** What is left has the size of the best k, every item as it was, and nothing lost beats
      anything kept. */
  lemma TrimmedMeaning(m: Store, k: nat)
    ensures var r := Trimmed(m, k);
      && |r| == Min(k, |m|) && r.Keys <= m.Keys
      && (forall id | id in r :: r[id] == m[id])
      && (forall id, lost | id in r && lost in m && lost !in r :: Below(ScoresOf(m), lost, id))
      && (forall id, lost | id in r && lost in m && lost !in r ::
            m[lost].salience < m[id].salience || (m[lost].salience == m[id].salience && Lex(lost, id)))
      && (|m| <= k ==> r == m)
  {
    var r := Trimmed(m, k);
    assert |r| == |r.Keys|;
    if |m| <= k { SubsetSize(r.Keys, m.Keys); }
  }

  /** What a put stores: the item with its salience moved into [0, 1], stamped with the time, and due a time to live later
      if that is positive, never otherwise. */
  lemma StoredMeaning(item: Item, at: real, ttl: real)
    ensures var s := Stored(item, at, ttl);
      && s.id == item.id && s.content == item.content && s.kind == item.kind && s.createdAt == at
      && (item.salience < 0.0 ==> s.salience == 0.0) && (item.salience > 1.0 ==> s.salience == 1.0)
      && (0.0 <= item.salience <= 1.0 ==> s.salience == item.salience)
      && s.expiresAt == if ttl > 0.0 then At(at + ttl) else Never
  {
  }

  /** Pruning keeps the items that have no time to live or whose time is not over, as they are. */
  lemma LiveMeaning(m: Store, now: real, id: string)
    ensures id in Live(m, now) <==> id in m && (m[id].expiresAt.Never? || now < m[id].expiresAt.t)
    ensures id in Live(m, now) ==> Live(m, now)[id] == m[id]
  {
  }

  /** What is in the store after a put is the item put, stored, or was live before it, unchanged; with room left it is all of that. */
  lemma PutMeaning(m: Store, capacity: int, item: Item, now: real, ttl: real, id: string)
    ensures var r := AfterPut(m, capacity, item, now, ttl);
      && (id in r ==> if id == item.id then r[id] == Stored(item, now, ttl) else id in Live(m, now) && r[id] == m[id])
      && |r| == Min(Room(capacity), |Live(m, now)[item.id := Stored(item, now, ttl)]|)
      && (|m| < capacity ==> item.id in r && (id in Live(m, now) ==> id in r))
  {
    var before := Live(m, now);
    TrimmedMeaning(before[item.id := Stored(item, now, ttl)], Room(capacity));
    if |m| < capacity {
      assert before.Keys <= m.Keys && before[item.id := Stored(item, now, ttl)].Keys == before.Keys + {item.id};
      SubsetSize(before.Keys, m.Keys);
      assert |before.Keys| == |before| && |m.Keys| == |m|;
      SizeWithOne(before, item.id, Stored(item, now, ttl));
    }
  }

  lemma SizeWithOne(m: Store, id: string, item: Item)
    ensures |m[id := item]| <= |m| + 1
  {
    assert m[id := item].Keys == m.Keys + {id};
    assert |m[id := item].Keys| == |m[id := item]| && |m.Keys| == |m|;
  }

  /** A sweep keeps the live items whose salience times the factor does not fall below the floor, with that salience. */
  lemma SweepMeaning(m: Store, now: real, factor: real, floor: real, id: string)
    ensures id in AfterSweep(m, now, factor, floor) <==>
      id in m && (m[id].expiresAt.Never? || now < m[id].expiresAt.t) && m[id].salience * factor >= floor
    ensures id in AfterSweep(m, now, factor, floor) ==>
      AfterSweep(m, now, factor, floor)[id] == m[id].(salience := m[id].salience * factor)
  {
  }

  /** A stored item is in range, and is due for pruning exactly when it has a positive time to live and
      that time is over. */
  lemma ExpiresIff(item: Item, at: real, ttl: real, now: real)
    ensures Expired(Stored(item, at, ttl), now) <==> ttl > 0.0 && now - at >= ttl
    ensures 0.0 <= Stored(item, at, ttl).salience <= 1.0
    ensures Stored(item, at, ttl).id == item.id && Stored(item, at, ttl).content == item.content
  {
  }

  // ---- Restoring ----

  lemma {:induction false} ImportedIds(m: Store, items: seq<Item>)
    ensures AfterImport(m, items).Keys == m.Keys + set item | item in items :: item.id
  {
    if items != [] {
      var last := items[|items| - 1];
      ImportedIds(m, items[..|items| - 1]);
      assert items == items[..|items| - 1] + [last];
    }
  }

  /** A restore can leave more than `capacity` items, exactly when the ids together are too many; the
      next put brings the store back within bounds. */
  lemma ImportIsNotTrimmed(m: Store, items: seq<Item>, capacity: int, item: Item, now: real, ttl: real)
    ensures var r := AfterImport(m, items);
      && (|r| > Room(capacity) <==> |m.Keys + set x | x in items :: x.id| > Room(capacity))
      && |AfterPut(r, capacity, item, now, ttl)| <= Room(capacity)
  {
    var r := AfterImport(m, items);
    ImportedIds(m, items);
    assert |r| == |r.Keys|;
    TrimmedMeaning(Live(r, now)[item.id := Stored(item, now, ttl)], Room(capacity));
  }

  /** Two items restored into an empty store of capacity one. */
  lemma RestoredBeyondCapacity(a: Item, b: Item)
    requires a.id == "a" && b.id == "b"
    ensures |AfterImport(map[], [a, b])| == 2 > Room(1)
  {
    assert [a, b][..1] == [a] && [a][..0] == [];
    assert a.id[0] != b.id[0];
    assert AfterImport(map[], [a]) == map["a" := a];
    assert AfterImport(map[], [a, b]) == map["a" := a]["b" := b];
  }

  // ---- Sweeps ----

  /** A sweep keeps the order of what it keeps. */
  lemma SweepKeepsOrder(m: Store, now: real, factor: real, floor: real, a: string, b: string)
    requires factor > 0.0
    requires var r := AfterSweep(m, now, factor, floor); a in r && b in r
    ensures var r := AfterSweep(m, now, factor, floor);
      (r[a].salience < r[b].salience <==> m[a].salience < m[b].salience)
  {
    TimesPositive(m[a].salience, m[b].salience, factor);
  }

  lemma TimesPositive(x: real, y: real, f: real)
    requires f > 0.0
    ensures x * f < y * f <==> x < y
  {
    var d := y - x;
    assert d * f > 0.0 <==> d > 0.0;
  }

  function Power(x: real, n: nat): real {
    if n == 0 then 1.0 else Power(x, n - 1) * x
  }

  function Sweeps(m: Store, nows: seq<real>, factor: real, floor: real): (r: Store)
    ensures r.Keys <= m.Keys
  {
    if nows == [] then m
    else AfterSweep(Sweeps(m, nows[..|nows| - 1], factor, floor), nows[|nows| - 1], factor, floor)
  }

  ghost predicate NeverExpired(item: Item, nows: seq<real>) {
    forall i | 0 <= i < |nows| :: !Expired(item, nows[i])
  }

  lemma Regroup(s: real, p: real, f: real)
    ensures (s * p) * f == s * (p * f)
  {
  }

  lemma Shrinks(s: real, x: real)
    requires s >= 0.0 && 0.0 <= x <= 1.0
    ensures 0.0 <= s * x <= s
  {
    assert s * (1.0 - x) >= 0.0;
  }

  /** An item after n fadings. */
  function FadedBy(item: Item, factor: real, n: nat): (r: Item)
    ensures r.expiresAt == item.expiresAt
  {
    if n == 0 then item else Faded(FadedBy(item, factor, n - 1), factor)
  }

  lemma {:induction false} FadedByPower(item: Item, factor: real, n: nat)
    ensures FadedBy(item, factor, n) == item.(salience := item.salience * Power(factor, n))
  {
    if n > 0 {
      FadedByPower(item, factor, n - 1);
      Regroup(item.salience, Power(factor, n - 1), factor);
    }
  }

  lemma {:induction false} FadingShrinks(item: Item, factor: real, n: nat)
    requires item.salience >= 0.0 && 0.0 <= factor <= 1.0
    ensures 0.0 <= FadedBy(item, factor, n).salience
    ensures n > 0 ==> FadedBy(item, factor, n).salience <= FadedBy(item, factor, n - 1).salience
  {
    if n > 0 {
      FadingShrinks(item, factor, n - 1);
      Shrinks(FadedBy(item, factor, n - 1).salience, factor);
    }
  }

  lemma SweptLast(before: Store, now: real, factor: real, floor: real, id: string, faded: Item)
    requires id in before ==> before[id] == faded
    ensures var r := AfterSweep(before, now, factor, floor);
      && (id in r <==> id in before && !Expired(faded, now) && Faded(faded, factor).salience >= floor)
      && (id in r ==> r[id] == Faded(faded, factor))
  {
  }

  ghost predicate Outlives(item: Item, nows: seq<real>, factor: real, floor: real) {
    NeverExpired(item, nows) && (nows == [] || FadedBy(item, factor, |nows|).salience >= floor)
  }

  lemma OutlivesMore(item: Item, nows: seq<real>, factor: real, floor: real)
    requires nows != [] && item.salience >= 0.0 && 0.0 <= factor <= 1.0
    ensures var n := |nows| - 1;
      Outlives(item, nows, factor, floor) <==>
        (Outlives(item, nows[..n], factor, floor) && !Expired(item, nows[n]) && FadedBy(item, factor, n + 1).salience >= floor)
  {
    var n := |nows| - 1;
    FadingShrinks(item, factor, n + 1);
    assert NeverExpired(item, nows) <==> NeverExpired(item, nows[..n]) && !Expired(item, nows[n]);
  }

  lemma {:induction false} SweptBy(m: Store, nows: seq<real>, factor: real, floor: real, id: string)
    requires id in m && m[id].salience >= 0.0 && 0.0 <= factor <= 1.0
    ensures var r := Sweeps(m, nows, factor, floor);
      && (id in r <==> Outlives(m[id], nows, factor, floor))
      && (id in r ==> r[id] == FadedBy(m[id], factor, |nows|))
  {
    if nows != [] {
      var n := |nows| - 1;
      SweptBy(m, nows[..n], factor, floor, id);
      OutlivesMore(m[id], nows, factor, floor);
      SweptLast(Sweeps(m, nows[..n], factor, floor), nows[n], factor, floor, id, FadedBy(m[id], factor, n));
    }
  }

  /** An item survives n sweeps exactly when it has not expired at any of them and its salience
      times factor^n has not fallen below the floor. */
  lemma SurvivesIff(m: Store, nows: seq<real>, factor: real, floor: real, id: string)
    requires id in m && m[id].salience >= 0.0 && 0.0 <= factor <= 1.0
    ensures var r := Sweeps(m, nows, factor, floor);
      && (id in r <==> NeverExpired(m[id], nows) && (nows == [] || m[id].salience * Power(factor, |nows|) >= floor))
      && (id in r ==> r[id] == m[id].(salience := m[id].salience * Power(factor, |nows|)))
  {
    SweptBy(m, nows, factor, floor, id);
    FadedByPower(m[id], factor, |nows|);
  }

  lemma {:induction false} PowerIsNotNegative(x: real, n: nat)
    requires 0.0 <= x
    ensures 0.0 <= Power(x, n)
  {
    if n > 0 {
      PowerIsNotNegative(x, n - 1);
    }
  }

  lemma BelowOne(s: real, p: real, floor: real)
    requires 0.0 <= s <= 1.0 && 0.0 <= p < floor
    ensures s * p < floor
  {
    Shrinks(p, s);
  }

  /** With nothing put in between, the store is empty after any n sweeps with factor^n below the
      floor. */
  lemma EmptyAfterEnough(m: Store, nows: seq<real>, factor: real, floor: real)
    requires nows != [] && 0.0 <= factor <= 1.0 && Power(factor, |nows|) < floor
    requires forall id | id in m :: 0.0 <= m[id].salience <= 1.0
    ensures Sweeps(m, nows, factor, floor) == map[]
  {
    var r := Sweeps(m, nows, factor, floor);
    PowerIsNotNegative(factor, |nows|);
    forall id | id in m ensures id !in r {
      SurvivesIff(m, nows, factor, floor, id);
      BelowOne(m[id].salience, Power(factor, |nows|), floor);
    }
    assert r.Keys == {};
  }
}
