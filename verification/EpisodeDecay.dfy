/** The episodic half of the forgetting pass (brain/memory/decay.py). */
module EpisodeDecay {

  function Clamp01(x: real): real {
    if x < 0.0 then 0.0 else if x > 1.0 then 1.0 else x
  }

  /** `half(x)` is one half to the power x. */
  datatype Params = Params(half: real -> real, halflife: real, floor: real, boost: real)

  function At(half: real -> real, x: real): real { half(x) }

  ghost predicate IsHalving(half: real -> real) {
    && At(half, 0.0) == 1.0
    && (forall x | x >= 0.0 :: 0.0 < At(half, x) <= 1.0)
  }

  /** Some time leaves exactly this share. */
  ghost predicate IsReached(half: real -> real, share: real) {
    exists x :: x >= 0.0 && At(half, x) == share
  }

  ghost predicate ReachesEveryShare(half: real -> real) {
    forall share | 0.0 < share <= 1.0 :: IsReached(half, share)
  }

  /** Any time at all costs something. */
  ghost predicate FallsAtOnce(half: real -> real) {
    forall x | x > 0.0 :: At(half, x) < 1.0
  }

  function Retained(p: Params, age: real): real {
    if p.halflife > 0.0 then At(p.half, (if age > 0.0 then age else 0.0) / p.halflife) else 1.0
  }

  /** The salience left of `salience` when the share `retained` of its distance to the floor is
      kept, pulled toward 1 when the episode is charged. */
  function Faded(salience: real, floor: real, retained: real, charged: bool, boost: real): real {
    Clamp01(Pulled(floor + (salience - floor) * retained, charged, boost))
  }

  function Pulled(value: real, charged: bool, boost: real): real {
    if charged then value + boost * (1.0 - value) else value
  }

  function AdjustedSalience(p: Params, salience: real, age: real, charged: bool): real {
    Faded(salience, p.floor, Retained(p, age), charged, p.boost)
  }

  /** The share kept after an age: half of it for each half-life, everything when the age or the half-life is not positive. */
  lemma RetainedMeaning(p: Params, age: real)
    ensures Retained(p, age) == if p.halflife > 0.0 then p.half((if age > 0.0 then age else 0.0) / p.halflife) else 1.0
  {
  }

  /** The new salience: the floor and the share kept of the distance to it, pulled toward 1 by the boost when charged,
      and then moved into [0, 1]. */
  lemma AdjustedMeaning(p: Params, salience: real, age: real, charged: bool, value: real, pulled: real)
    requires value == p.floor + (salience - p.floor) * Retained(p, age)
    requires pulled == if charged then value + p.boost * (1.0 - value) else value
    ensures AdjustedSalience(p, salience, age, charged) == if pulled < 0.0 then 0.0 else if pulled > 1.0 then 1.0 else pulled
  {
    assert pulled == Pulled(value, charged, p.boost);
  }

  ghost predicate InUnit(x: real) { 0.0 <= x <= 1.0 }

  /** An uncharged episode moves toward the floor and never past it, from either side: below the
      floor its salience rises. */
  lemma UnchargedMovesTowardFloor(p: Params, salience: real, age: real)
    requires IsHalving(p.half) && InUnit(salience) && InUnit(p.floor)
    ensures var s := AdjustedSalience(p, salience, age, false);
      if salience >= p.floor then p.floor <= s <= salience else salience <= s <= p.floor
  {
    RetainedShare(p, age);
    FadesBetween(salience, p.floor, Retained(p, age), p.boost);
  }

  lemma FadesBetween(salience: real, floor: real, r: real, boost: real)
    requires 0.0 <= r <= 1.0 && InUnit(salience) && InUnit(floor)
    ensures InUnit(floor + (salience - floor) * r)
    ensures var s := Faded(salience, floor, r, false, boost);
      if salience >= floor then floor <= s <= salience else salience <= s <= floor
  {
    StepWithin(floor, salience - floor, r, salience, floor + (salience - floor) * r);
  }

  lemma StepWithin(y: real, d: real, r: real, target: real, value: real)
    requires 0.0 <= r <= 1.0 && value == y + d * r && target == y + d
    ensures if target >= y then y <= value <= target else target <= value <= y
  {
    WeightedMean(y, d, r);
  }

  lemma RetainedShare(p: Params, age: real)
    requires IsHalving(p.half)
    ensures 0.0 < Retained(p, age) <= 1.0
  {
    if p.halflife > 0.0 && age > 0.0 {
      assert age / p.halflife >= 0.0;
    }
  }

  /** A share of a non-negative amount. */
  lemma Share(r: real, x: real)
    requires 0.0 <= r <= 1.0 && x >= 0.0
    ensures 0.0 <= r * x <= x
  {
  }

  lemma NegativeShare(r: real, x: real)
    requires 0.0 <= r <= 1.0 && x <= 0.0
    ensures x <= r * x <= 0.0
  {
    Share(r, -x);
    assert r * -x == -(r * x);
  }

  /** A weighted step of size d from y stays between y and y + d. */
  lemma WeightedMean(y: real, d: real, r: real)
    requires 0.0 <= r <= 1.0
    ensures d >= 0.0 ==> y <= y + d * r <= y + d
    ensures d < 0.0 ==> y + d <= y + d * r <= y
  {
    if d >= 0.0 {
      Share(r, d);
    } else {
      NegativeShare(r, d);
    }
    assert d * r == r * d;
  }

  /** The level at which the boost alone holds a charged episode. */
  function Hold(floor: real, boost: real): real {
    floor + boost * (1.0 - floor)
  }

  lemma HeldShare(salience: real, floor: real, boost: real, r: real)
    requires InUnit(salience) && InUnit(floor) && InUnit(boost) && 0.0 < r <= 1.0
    requires salience <= Hold(floor, boost)
    ensures Faded(salience, floor, r, true, boost) >= salience
  {
    ChargedValue(salience, floor, r, boost);
    Share(boost, 1.0 - salience);
    Share(1.0 - r, Hold(floor, boost) - salience);
    Share(r, boost * (1.0 - salience));
  }

  lemma FadingShare(salience: real, floor: real, boost: real) returns (r: real)
    requires InUnit(salience) && InUnit(floor) && InUnit(boost)
    requires salience > Hold(floor, boost)
    ensures 0.0 < r <= 1.0 && Faded(salience, floor, r, true, boost) < salience
  {
    var gap, lift := salience - Hold(floor, boost), boost * (1.0 - salience);
    Share(boost, 1.0 - salience);
    r := gap / (2.0 * (gap + lift));
    HalfwayRatio(gap, lift, r);
    ChargedValue(salience, floor, r, boost);
    assert Hold(floor, boost) - salience == -gap;
  }

  lemma AgeOfShare(p: Params, r: real) returns (age: real)
    requires IsHalving(p.half) && ReachesEveryShare(p.half) && p.halflife > 0.0 && 0.0 < r <= 1.0
    ensures Retained(p, age) == r
  {
    assert IsReached(p.half, r);
    var x :| x >= 0.0 && At(p.half, x) == r;
    age := x * p.halflife;
    assert age >= 0.0 && age / p.halflife == x;
  }

  lemma WholeShare(salience: real, floor: real, boost: real)
    requires InUnit(salience) && InUnit(boost)
    ensures Faded(salience, floor, 1.0, true, boost) >= salience
  {
    Share(boost, 1.0 - salience);
  }

  /** Whether a charged episode keeps at least its salience at every age. The documentation says
      it always does; it does exactly when nothing fades at all or its salience is at most the level
      at which the boost alone would hold it. */
  lemma ChargedNeverFadesIff(p: Params, salience: real)
    requires IsHalving(p.half) && ReachesEveryShare(p.half)
    requires InUnit(salience) && InUnit(p.floor) && InUnit(p.boost)
    ensures (forall age :: AdjustedSalience(p, salience, age, true) >= salience)
      <==> p.halflife <= 0.0 || salience <= p.floor + p.boost * (1.0 - p.floor)
  {
    if p.halflife <= 0.0 {
      WholeShare(salience, p.floor, p.boost);
    } else if salience <= Hold(p.floor, p.boost) {
      forall age ensures AdjustedSalience(p, salience, age, true) >= salience {
        RetainedShare(p, age);
        HeldShare(salience, p.floor, p.boost, Retained(p, age));
      }
    } else {
      var r := FadingShare(salience, p.floor, p.boost);
      var age := AgeOfShare(p, r);
      assert AdjustedSalience(p, salience, age, true) < salience;
    }
  }

  /** With the settings as shipped, a charged episode of full salience has faded after one half-life. */
  lemma ChargedEpisodeCanFade(half: real -> real)
    requires At(half, 1.0) == 0.5
    ensures AdjustedSalience(Params(half, 604800.0, 0.05, 0.25), 1.0, 604800.0, true) == 0.64375
  {
    var p := Params(half, 604800.0, 0.05, 0.25);
    assert Retained(p, 604800.0) == 0.5;
  }

  lemma HalfwayRatio(gap: real, lift: real, r: real)
    requires gap > 0.0 && lift >= 0.0 && r == gap / (2.0 * (gap + lift))
    ensures 0.0 < r <= 1.0
    ensures (1.0 - r) * -gap + r * lift < 0.0
  {
    var whole := 2.0 * (gap + lift);
    assert r * whole == gap;
    assert r * whole == 2.0 * (r * gap + r * lift);
    assert (1.0 - r) * -gap + r * lift == r * gap + r * lift - gap;
  }

  /** The charged value in terms of what the boost would hold and what it would lift. */
  lemma ChargedValue(salience: real, floor: real, r: real, boost: real)
    requires InUnit(salience) && InUnit(floor) && InUnit(boost) && 0.0 < r <= 1.0
    ensures Faded(salience, floor, r, true, boost)
      == salience + (1.0 - r) * (floor + boost * (1.0 - floor) - salience) + r * (boost * (1.0 - salience))
  {
    var value := floor + (salience - floor) * r;
    var miss := 1.0 - value;
    FadesBetween(salience, floor, r, boost);
    Share(boost, miss);
    assert InUnit(value + boost * miss);
    assert Faded(salience, floor, r, true, boost) == value + boost * miss;
    Spread(salience, floor, r, boost);
  }

  lemma Spread(s: real, f: real, r: real, b: real)
    ensures (f + (s - f) * r) + b * (1.0 - (f + (s - f) * r))
      == s + (1.0 - r) * (f + b * (1.0 - f) - s) + r * (b * (1.0 - s))
  {
  }

  // ---- Pass after pass ----

  /** The salience of an uncharged episode after passes at the given ages. */
  function AfterPasses(p: Params, salience: real, ages: seq<real>): real {
    if ages == [] then salience
    else AdjustedSalience(p, AfterPasses(p, salience, ages[..|ages| - 1]), ages[|ages| - 1], false)
  }

  function SharesOf(p: Params, ages: seq<real>): (shares: seq<real>)
    ensures |shares| == |ages| && forall i | 0 <= i < |ages| :: shares[i] == Retained(p, ages[i])
  {
    if ages == [] then [] else SharesOf(p, ages[..|ages| - 1]) + [Retained(p, ages[|ages| - 1])]
  }

  /** What is left when the given share of the distance to the floor is kept. */
  function Left(floor: real, salience: real, share: real): real {
    floor + (salience - floor) * share
  }

  function LeftByAll(floor: real, salience: real, shares: seq<real>): real {
    if shares == [] then salience
    else Left(floor, LeftByAll(floor, salience, shares[..|shares| - 1]), shares[|shares| - 1])
  }

  function Times(q: real, r: real): real { q * r }

  function Product(shares: seq<real>): real {
    if shares == [] then 1.0 else Times(Product(shares[..|shares| - 1]), shares[|shares| - 1])
  }

  lemma LeftTwice(floor: real, salience: real, q: real, r: real)
    ensures Left(floor, Left(floor, salience, q), r) == Left(floor, salience, Times(q, r))
  {
    var d := salience - floor;
    assert (d * q) * r == d * (q * r);
  }

  lemma {:induction false} SharesMultiply(floor: real, salience: real, shares: seq<real>)
    ensures LeftByAll(floor, salience, shares) == Left(floor, salience, Product(shares))
  {
    if shares != [] {
      var n := |shares| - 1;
      SharesMultiply(floor, salience, shares[..n]);
      LeftTwice(floor, salience, Product(shares[..n]), shares[n]);
    }
  }

  ghost predicate AreShares(shares: seq<real>) {
    forall i | 0 <= i < |shares| :: 0.0 < shares[i] <= 1.0
  }

  lemma TimesRange(q: real, r: real)
    requires 0.0 < q <= 1.0 && 0.0 < r <= 1.0
    ensures 0.0 < Times(q, r) <= q
    ensures Times(q, r) == 1.0 <==> q == 1.0 && r == 1.0
  {
    Share(r, q);
    if r < 1.0 {
      assert q * (1.0 - r) > 0.0;
    }
  }

  lemma {:induction false} ProductRange(shares: seq<real>)
    requires AreShares(shares)
    ensures 0.0 < Product(shares) <= 1.0
    ensures Product(shares) == 1.0 <==> forall i | 0 <= i < |shares| :: shares[i] == 1.0
  {
    if shares != [] {
      var n := |shares| - 1;
      ProductRange(shares[..n]);
      TimesRange(Product(shares[..n]), shares[n]);
      assert forall i | 0 <= i < n :: shares[..n][i] == shares[i];
    }
  }

  lemma UnclampedPass(p: Params, salience: real, age: real)
    requires IsHalving(p.half) && InUnit(salience) && InUnit(p.floor)
    ensures AdjustedSalience(p, salience, age, false) == Left(p.floor, salience, Retained(p, age))
    ensures InUnit(AdjustedSalience(p, salience, age, false))
  {
    RetainedShare(p, age);
    FadesBetween(salience, p.floor, Retained(p, age), p.boost);
  }

  lemma {:induction false} PassesTakeShares(p: Params, salience: real, ages: seq<real>)
    requires IsHalving(p.half) && InUnit(salience) && InUnit(p.floor)
    ensures AfterPasses(p, salience, ages) == LeftByAll(p.floor, salience, SharesOf(p, ages))
    ensures InUnit(AfterPasses(p, salience, ages))
  {
    if ages != [] {
      var n := |ages| - 1;
      PassesTakeShares(p, salience, ages[..n]);
      UnclampedPass(p, AfterPasses(p, salience, ages[..n]), ages[n]);
      assert SharesOf(p, ages)[..n] == SharesOf(p, ages[..n]);
    }
  }

  /** Every pass fades what the passes before it left, by the episode's full age: what is left of the
      distance to the floor is the product of all their shares. */
  lemma PassesMultiply(p: Params, salience: real, ages: seq<real>)
    requires IsHalving(p.half) && InUnit(salience) && InUnit(p.floor)
    ensures AfterPasses(p, salience, ages) == Left(p.floor, salience, Product(SharesOf(p, ages)))
  {
    PassesTakeShares(p, salience, ages);
    SharesMultiply(p.floor, salience, SharesOf(p, ages));
  }

  lemma WholeIff(p: Params, age: real)
    requires IsHalving(p.half) && FallsAtOnce(p.half)
    ensures Retained(p, age) == 1.0 <==> p.halflife <= 0.0 || age <= 0.0
  {
    if p.halflife > 0.0 && age > 0.0 {
      assert age / p.halflife > 0.0;
    }
  }

  lemma NothingTakenIff(p: Params, ages: seq<real>)
    requires IsHalving(p.half) && FallsAtOnce(p.half)
    ensures 0.0 < Product(SharesOf(p, ages))
    ensures Product(SharesOf(p, ages)) == 1.0 <==> p.halflife <= 0.0 || forall i | 0 <= i < |ages| :: ages[i] <= 0.0
  {
    var shares := SharesOf(p, ages);
    forall i | 0 <= i < |ages| ensures 0.0 < shares[i] <= 1.0 && (shares[i] == 1.0 <==> p.halflife <= 0.0 || ages[i] <= 0.0) {
      RetainedShare(p, ages[i]);
      WholeIff(p, ages[i]);
    }
    ProductRange(shares);
  }

  lemma SameLeftIff(floor: real, salience: real, q: real, r: real)
    requires r > 0.0
    ensures Left(floor, salience, Times(q, r)) == Left(floor, salience, r) <==> salience == floor || q == 1.0
  {
    var d := salience - floor;
    LessOne(d, q, r);
    ZeroProduct(d, q - 1.0);
    ZeroProduct(d * (q - 1.0), r);
  }

  lemma LessOne(d: real, q: real, r: real)
    ensures d * (q * r) - d * r == (d * (q - 1.0)) * r
  {
  }

  lemma ZeroProduct(x: real, y: real)
    ensures x * y == 0.0 <==> x == 0.0 || y == 0.0
  {
  }

  /** The salience depends on how many passes there were: it is that of the last pass alone exactly when
      there is nothing to fade, nothing fades, or all earlier passes came when the episode was new. */
  lemma LastPassAloneIff(p: Params, salience: real, ages: seq<real>, age: real)
    requires IsHalving(p.half) && FallsAtOnce(p.half) && InUnit(salience) && InUnit(p.floor)
    ensures AfterPasses(p, salience, ages + [age]) == AdjustedSalience(p, salience, age, false) <==>
      (salience == p.floor || p.halflife <= 0.0 || forall i | 0 <= i < |ages| :: ages[i] <= 0.0)
  {
    var all := ages + [age];
    assert all[..|ages|] == ages;
    PassesTakeShares(p, salience, all);
    SharesMultiply(p.floor, salience, SharesOf(p, all));
    assert SharesOf(p, all)[..|ages|] == SharesOf(p, ages);
    UnclampedPass(p, salience, age);
    RetainedShare(p, age);
    SameLeftIff(p.floor, salience, Product(SharesOf(p, ages)), Retained(p, age));
    NothingTakenIff(p, ages);
  }

  /** Two passes a half-life after the episode leave a quarter of its distance to the floor, one leaves half. */
  lemma FadedTwice(half: real -> real)
    requires At(half, 1.0) == 0.5
    ensures var p := Params(half, 604800.0, 0.05, 0.25);
      AfterPasses(p, 1.0, [604800.0, 604800.0]) == 0.2875 && AdjustedSalience(p, 1.0, 604800.0, false) == 0.525
  {
    var p, age := Params(half, 604800.0, 0.05, 0.25), 604800.0;
    assert Retained(p, age) == 0.5;
    assert [age, age][..1] == [age] && [age][..0] == [];
    assert AfterPasses(p, 1.0, [age]) == 0.525;
  }

  // ---- The sweep over the table ----

  datatype Episode = Episode(id: int, ts: real, salience: real, emotional: bool)

  /** A new score is stored only when it differs by more than this. */
  const TOLERANCE := 0.000000001

  function Rescored(p: Params, now: real, charged: set<int>, e: Episode): Episode {
    var next := AdjustedSalience(p, e.salience, now - e.ts, e.emotional || e.id in charged);
    if next < e.salience - TOLERANCE || next > e.salience + TOLERANCE then e.(salience := next) else e
  }

  /** A row is charged if it is emotional or was distilled into a fact; its age runs from its own time; and it is left as
      it is when the change is at most a billionth. */
  lemma RescoredMeaning(p: Params, now: real, charged: set<int>, e: Episode)
    ensures var r := Rescored(p, now, charged, e);
      var next := AdjustedSalience(p, e.salience, now - e.ts, e.emotional || e.id in charged);
      && r.id == e.id && r.ts == e.ts && r.emotional == e.emotional
      && r.salience == if -0.000000001 <= next - e.salience <= 0.000000001 then e.salience else next
  {
  }

  /** A row after passes at the given times. */
  function RescoredAt(p: Params, nows: seq<real>, charged: set<int>, e: Episode): (r: Episode)
    ensures r == e.(salience := r.salience)
  {
    if nows == [] then e else Rescored(p, nows[|nows| - 1], charged, RescoredAt(p, nows[..|nows| - 1], charged, e))
  }

  function AgesOf(nows: seq<real>, ts: real): (ages: seq<real>)
    ensures |ages| == |nows|
  {
    if nows == [] then [] else AgesOf(nows[..|nows| - 1], ts) + [nows[|nows| - 1] - ts]
  }

  ghost predicate Close(x: real, y: real, gap: real) { x - gap <= y <= x + gap }

  lemma LeftApart(floor: real, x: real, y: real, r: real)
    ensures Left(floor, y, r) == Left(floor, x, r) + r * (y - x)
  {
  }

  lemma AtMostApart(floor: real, x: real, y: real, r: real, gap: real)
    requires 0.0 <= r <= 1.0 && gap >= 0.0 && y - x <= gap
    ensures Left(floor, y, r) <= Left(floor, x, r) + gap
  {
    LeftApart(floor, x, y, r);
    if y >= x {
      Share(r, y - x);
    } else {
      NegativeShare(r, y - x);
    }
  }

  lemma StaysClose(floor: real, x: real, y: real, r: real, gap: real)
    requires 0.0 <= r <= 1.0 && gap >= 0.0 && Close(x, y, gap)
    ensures Close(Left(floor, x, r), Left(floor, y, r), gap)
  {
    AtMostApart(floor, x, y, r, gap);
    AtMostApart(floor, y, x, r, gap);
  }

  lemma {:induction false} RowFollowsPasses(p: Params, nows: seq<real>, charged: set<int>, e: Episode)
    requires IsHalving(p.half) && InUnit(e.salience) && InUnit(p.floor)
    requires !e.emotional && e.id !in charged
    ensures var r := RescoredAt(p, nows, charged, e).salience;
      InUnit(r) && Close(AfterPasses(p, e.salience, AgesOf(nows, e.ts)), r, |nows| as real * TOLERANCE)
  {
    if nows != [] {
      var n := |nows| - 1;
      var before, ages, age := RescoredAt(p, nows[..n], charged, e).salience, AgesOf(nows[..n], e.ts), nows[n] - e.ts;
      RowFollowsPasses(p, nows[..n], charged, e);
      PassesTakeShares(p, e.salience, ages);
      UnclampedPass(p, before, age);
      UnclampedPass(p, AfterPasses(p, e.salience, ages), age);
      RetainedShare(p, age);
      StaysClose(p.floor, AfterPasses(p, e.salience, ages), before, Retained(p, age), n as real * TOLERANCE);
      assert AgesOf(nows, e.ts)[..n] == ages;
    }
  }

  /** What passes over the table leave of an uncharged row: the product of all the passes' shares of its
      distance to the floor, up to one tolerance per pass. */
  lemma SweepsMultiply(p: Params, nows: seq<real>, charged: set<int>, e: Episode)
    requires IsHalving(p.half) && InUnit(e.salience) && InUnit(p.floor)
    requires !e.emotional && e.id !in charged
    ensures Close(Left(p.floor, e.salience, Product(SharesOf(p, AgesOf(nows, e.ts)))),
                  RescoredAt(p, nows, charged, e).salience, |nows| as real * TOLERANCE)
  {
    RowFollowsPasses(p, nows, charged, e);
    PassesMultiply(p, e.salience, AgesOf(nows, e.ts));
  }

  class EpisodeTable {
    var rows: seq<Episode>  // oldest first

    constructor (rows: seq<Episode>)
      ensures this.rows == rows
    {
      this.rows := rows;
    }

    /** Re-scores the oldest `limit` episodes. No row is added, removed or reordered. */
    method DecayEpisodes(p: Params, now: real, limit: nat, charged: set<int>) returns (decayed: nat, strengthened: nat)
      modifies this
      ensures rows == Swept(p, now, limit, charged, old(rows))
      ensures decayed == Falls(old(rows), rows, |rows|) && strengthened == Falls(rows, old(rows), |rows|)
    {
      decayed, strengthened := 0, 0;
      ghost var before, after := rows, Swept(p, now, limit, charged, rows);
      var end := if limit < |rows| then limit else |rows|;
      for i := 0 to end
        invariant |rows| == |before| && forall j | 0 <= j < |rows| :: rows[j] == if j < i then after[j] else before[j]
        invariant decayed == Falls(before, after, i) && strengthened == Falls(after, before, i)
      {
        var fell, rose := RescoreRow(p, now, charged, i, after[i]);
        decayed, strengthened := decayed + fell, strengthened + rose;
      }
      FallsRest(before, after, end, |rows|);
      FallsRest(after, before, end, |rows|);
    }

    method RescoreRow(p: Params, now: real, charged: set<int>, i: nat, ghost next: Episode) returns (fell: nat, rose: nat)
      requires i < |rows| && next == Rescored(p, now, charged, rows[i])
      modifies this
      ensures rows == old(rows)[i := next]
      ensures fell == Less(next, old(rows)[i]) && rose == Less(old(rows)[i], next)
    {
      var row, change := Rescore(p, now, charged, rows[i]);
      rows := rows[i := row];
      fell, rose := if change < 0 then 1 else 0, if change > 0 then 1 else 0;
    }
  }

  function Less(a: Episode, b: Episode): nat { if a.salience < b.salience then 1 else 0 }

  /** The table with its oldest `limit` rows re-scored. */
  ghost function Swept(p: Params, now: real, limit: nat, charged: set<int>, rows: seq<Episode>): (r: seq<Episode>)
    ensures |r| == |rows|
    ensures forall i | 0 <= i < |r| :: r[i] == if i < limit then Rescored(p, now, charged, rows[i]) else rows[i]
  {
    seq(|rows|, i requires 0 <= i < |rows| => if i < limit then Rescored(p, now, charged, rows[i]) else rows[i])
  }

  method Rescore(p: Params, now: real, charged: set<int>, e: Episode) returns (r: Episode, change: int)
    ensures r == Rescored(p, now, charged, e)
    ensures (change < 0 <==> r.salience < e.salience) && (change > 0 <==> r.salience > e.salience)
  {
    var next := AdjustedSalience(p, e.salience, now - e.ts, e.emotional || e.id in charged);
    if next < e.salience - TOLERANCE {
      r, change := e.(salience := next), -1;
    } else if next > e.salience + TOLERANCE {
      r, change := e.(salience := next), 1;
    } else {
      r, change := e, 0;
    }
  }

  /** How many of the first n rows have a lower salience in the second table. */
  ghost function Falls(a: seq<Episode>, b: seq<Episode>, n: nat): nat
    requires n <= |a| == |b|
  {
    if n == 0 then 0 else Falls(a, b, n - 1) + Less(b[n - 1], a[n - 1])
  }

  lemma {:induction false} FallsRest(a: seq<Episode>, b: seq<Episode>, k: nat, n: nat)
    requires k <= n <= |a| == |b| && forall i | k <= i < n :: a[i] == b[i]
    ensures Falls(a, b, n) == Falls(a, b, k)
  {
    if k < n {
      FallsRest(a, b, k, n - 1);
    }
  }
}
