/** Homeostatic drives: pressure that relaxes toward an equilibrium (brain/drives/parameters.py,
    brain/drives/engine.py). */
module Drives {

  /** x |-> exp(-x), known only by its laws. */
  type Exponential = real -> real

  function Fall(exp: Exponential, x: real): real { exp(x) }

  predicate TurnsSumIntoProduct(exp: Exponential, x: real, y: real) {
    Fall(exp, x + y) == Fall(exp, x) * Fall(exp, y)
  }

  ghost predicate IsExponential(exp: Exponential) {
    && Fall(exp, 0.0) == 1.0
    && (forall x | x >= 0.0 :: 0.0 < Fall(exp, x) <= 1.0)
    && (forall x, y | x >= 0.0 && y >= 0.0 :: TurnsSumIntoProduct(exp, x, y))
  }

  datatype Params = Params(setpoint: real, accrualRate: real, decayRate: real, threshold: real)

  function Clamp01(x: real): real {
    if x < 0.0 then 0.0 else if x > 1.0 then 1.0 else x
  }

  function Kappa(p: Params): real { p.accrualRate + p.decayRate }

  function Equilibrium(p: Params): (r: real)
    ensures 0.0 <= r <= 1.0
  {
    if Kappa(p) <= 0.0 then Clamp01(p.setpoint)
    else Clamp01((p.accrualRate + p.decayRate * p.setpoint) / Kappa(p))
  }

  /** The pressure when a fraction f of its distance to the equilibrium is left. */
  function Toward(eq: real, value: real, f: real): real {
    eq + (value - eq) * f
  }

  function Relaxed(left: Exponential, eq: real, value: real, dt: real): (r: real)
    ensures 0.0 <= r <= 1.0
  {
    if dt <= 0.0 then Clamp01(value) else Clamp01(Toward(eq, value, Fall(left, dt)))
  }

  function Scaled(kappa: real, x: real): real { kappa * x }

  /** x |-> exp(-kappa * x). */
  function Rate(exp: Exponential, kappa: real): Exponential {
    x => Fall(exp, Scaled(kappa, x))
  }

  function Advance(exp: Exponential, p: Params, value: real, dt: real): (r: real)
    ensures 0.0 <= r <= 1.0
  {
    if dt <= 0.0 || Kappa(p) <= 0.0 then Clamp01(value)
    else Relaxed(Rate(exp, Kappa(p)), Equilibrium(p), value, dt)
  }

  // ---- The curve ----

  lemma PositiveProduct(x: real, y: real)
    requires x > 0.0 && y >= 0.0
    ensures x * y >= 0.0 && (y > 0.0 ==> x * y > 0.0)
  {
  }

  lemma RateIsExponential(exp: Exponential, kappa: real)
    requires IsExponential(exp) && kappa > 0.0
    ensures IsExponential(Rate(exp, kappa))
  {
    var rate := Rate(exp, kappa);
    assert Fall(rate, 0.0) == Fall(exp, kappa * 0.0);
    forall x | x >= 0.0 ensures 0.0 < Fall(rate, x) <= 1.0 {
      PositiveProduct(kappa, x);
    }
    forall x, y | x >= 0.0 && y >= 0.0 ensures TurnsSumIntoProduct(rate, x, y) {
      RateOfSum(exp, kappa, x, y);
    }
  }

  lemma RateAt(exp: Exponential, kappa: real, x: real)
    ensures Fall(Rate(exp, kappa), x) == Fall(exp, Scaled(kappa, x))
  {
  }

  lemma RateOfSum(exp: Exponential, kappa: real, x: real, y: real)
    requires IsExponential(exp) && kappa > 0.0 && x >= 0.0 && y >= 0.0
    ensures TurnsSumIntoProduct(Rate(exp, kappa), x, y)
  {
    var a, b, c := Scaled(kappa, x), Scaled(kappa, y), Scaled(kappa, x + y);
    PositiveProduct(kappa, x);
    PositiveProduct(kappa, y);
    assert c == a + b;
    assert TurnsSumIntoProduct(exp, a, b);
    RateAt(exp, kappa, x);
    RateAt(exp, kappa, y);
    RateAt(exp, kappa, x + y);
  }

  lemma NotNegative(x: real, y: real)
    requires x >= 0.0 && y >= 0.0
    ensures x * y >= 0.0
  {
  }

  lemma UpShare(d: real, f: real) returns (x: real)
    requires d >= 0.0 && 0.0 <= f <= 1.0
    ensures x == d * f && 0.0 <= x <= d
  {
    x := d * f;
    NotNegative(d, f);
    NotNegative(d, 1.0 - f);
    assert d * (1.0 - f) == d - x;
  }

  lemma DownShare(d: real, f: real) returns (x: real)
    requires d <= 0.0 && 0.0 <= f <= 1.0
    ensures x == d * f && d <= x <= 0.0
  {
    var y := UpShare(-d, f);
    assert (-d) * f == -(d * f);
    x := -y;
  }

  lemma Between(v: real, eq: real, f: real)
    requires 0.0 < f <= 1.0
    ensures v <= eq ==> v <= Toward(eq, v, f) <= eq
    ensures v >= eq ==> eq <= Toward(eq, v, f) <= v
  {
    if v >= eq {
      var x := UpShare(v - eq, f);
      assert Toward(eq, v, f) == eq + x;
    } else {
      var x := DownShare(v - eq, f);
      assert Toward(eq, v, f) == eq + x;
    }
  }

  lemma RelaxedNeverCrosses(left: Exponential, eq: real, value: real, dt: real)
    requires IsExponential(left) && 0.0 <= value <= 1.0 && 0.0 <= eq <= 1.0
    ensures var r := Relaxed(left, eq, value, dt);
      && (value <= eq ==> value <= r <= eq)
      && (value >= eq ==> eq <= r <= value)
  {
    if dt > 0.0 {
      Between(value, eq, Fall(left, dt));
    }
  }

  /** Relaxing never crosses the equilibrium and never moves away from it. */
  lemma NeverCrosses(exp: Exponential, p: Params, value: real, dt: real)
    requires IsExponential(exp) && 0.0 <= value <= 1.0
    ensures var r, eq := Advance(exp, p, value, dt), Equilibrium(p);
      && (value <= eq ==> value <= r <= eq)
      && (value >= eq ==> eq <= r <= value)
  {
    if Kappa(p) > 0.0 {
      RateIsExponential(exp, Kappa(p));
      RelaxedNeverCrosses(Rate(exp, Kappa(p)), Equilibrium(p), value, dt);
    }
  }

  lemma RelaxedKeepsOrder(left: Exponential, eq: real, v: real, w: real, dt: real)
    requires IsExponential(left) && v <= w
    ensures Relaxed(left, eq, v, dt) <= Relaxed(left, eq, w, dt)
  {
    if dt > 0.0 {
      TowardKeepsOrder(eq, v, w, Fall(left, dt));
    }
  }

  lemma TowardKeepsOrder(eq: real, v: real, w: real, f: real)
    requires f > 0.0 && v <= w
    ensures Toward(eq, v, f) <= Toward(eq, w, f)
  {
    assert (w - v) * f >= 0.0;
  }

  /** Of two pressures, the higher stays the higher. */
  lemma KeepsOrder(exp: Exponential, p: Params, v: real, w: real, dt: real)
    requires IsExponential(exp) && v <= w
    ensures Advance(exp, p, v, dt) <= Advance(exp, p, w, dt)
  {
    if Kappa(p) > 0.0 {
      RateIsExponential(exp, Kappa(p));
      RelaxedKeepsOrder(Rate(exp, Kappa(p)), Equilibrium(p), v, w, dt);
    }
  }

  lemma TowardAdds(eq: real, v: real, f: real, g: real)
    ensures Toward(eq, Toward(eq, v, f), g) == Toward(eq, v, f * g)
  {
    var d := v - eq;
    assert (d * f) * g == d * (f * g);
  }

  /** The clamp never bites. */
  lemma RelaxedIsToward(left: Exponential, eq: real, value: real, dt: real)
    requires IsExponential(left) && 0.0 <= value <= 1.0 && 0.0 <= eq <= 1.0 && dt >= 0.0
    ensures Relaxed(left, eq, value, dt) == Toward(eq, value, Fall(left, dt))
  {
    Between(value, eq, Fall(left, dt));
  }

  lemma RelaxedAdds(left: Exponential, eq: real, value: real, s: real, t: real)
    requires IsExponential(left) && 0.0 <= value <= 1.0 && 0.0 <= eq <= 1.0 && s >= 0.0 && t >= 0.0
    ensures Relaxed(left, eq, Relaxed(left, eq, value, s), t) == Relaxed(left, eq, value, s + t)
  {
    var f, g := Fall(left, s), Fall(left, t);
    RelaxedIsToward(left, eq, value, s);
    RelaxedIsToward(left, eq, Relaxed(left, eq, value, s), t);
    RelaxedIsToward(left, eq, value, s + t);
    assert TurnsSumIntoProduct(left, s, t);
    TowardAdds(eq, value, f, g);
  }

  /** Relaxing for s and then for t is relaxing for s + t. */
  lemma AdvanceAdds(exp: Exponential, p: Params, value: real, s: real, t: real)
    requires IsExponential(exp) && 0.0 <= value <= 1.0 && s >= 0.0 && t >= 0.0
    ensures Advance(exp, p, Advance(exp, p, value, s), t) == Advance(exp, p, value, s + t)
  {
    if Kappa(p) > 0.0 {
      RateIsExponential(exp, Kappa(p));
      RelaxedAdds(Rate(exp, Kappa(p)), Equilibrium(p), value, s, t);
    }
  }

  /** At equilibrium what accrues toward 1 balances what decays toward the setpoint. */
  lemma EquilibriumBalances(p: Params)
    requires p.accrualRate >= 0.0 && p.decayRate >= 0.0 && p.accrualRate + p.decayRate > 0.0 && 0.0 <= p.setpoint <= 1.0
    ensures p.accrualRate * (1.0 - Equilibrium(p)) == p.decayRate * (Equilibrium(p) - p.setpoint)
    ensures p.setpoint <= Equilibrium(p) <= 1.0
  {
    var a, d, s := p.accrualRate, p.decayRate, p.setpoint;
    BetweenSetpointAndOne(a, d, s);
    var x := a + d * s;
    var q := Quotient(x, Kappa(p), s);
    assert Equilibrium(p) == Clamp01(x / Kappa(p)) == q;
    Balance(a, d, s, q);
  }

  lemma BetweenSetpointAndOne(a: real, d: real, s: real)
    requires a >= 0.0 && d >= 0.0 && 0.0 <= s <= 1.0
    ensures s * (a + d) <= a + d * s <= a + d
  {
    NotNegative(d, 1.0 - s);
    NotNegative(a, 1.0 - s);
    assert d * (1.0 - s) == d - d * s && a * (1.0 - s) == a - a * s;
    assert s * (a + d) == a * s + d * s;
  }

  lemma Balance(a: real, d: real, s: real, eq: real)
    requires eq * (a + d) == a + d * s
    ensures a * (1.0 - eq) == d * (eq - s)
  {
    assert eq * (a + d) == a * eq + d * eq;
    assert a * (1.0 - eq) == a - a * eq && d * (eq - s) == d * eq - d * s;
  }

  lemma Quotient(x: real, k: real, s: real) returns (q: real)
    requires k > 0.0 && s * k <= x <= k
    ensures q == x / k && s <= q <= 1.0 && q * k == x
  {
    q := x / k;
    assert q * k == x;
    assert q > 1.0 ==> (q - 1.0) * k > 0.0;
    assert q < s ==> (s - q) * k > 0.0;
  }

  /** Below or above it, what is left of the distance after dt is exp(-(accrual + decay) * dt) of it. */
  lemma AdvanceFollowsTheCurve(exp: Exponential, p: Params, value: real, dt: real)
    requires IsExponential(exp) && 0.0 <= value <= 1.0 && dt > 0.0 && p.accrualRate + p.decayRate > 0.0
    ensures Advance(exp, p, value, dt)
      == Equilibrium(p) + (value - Equilibrium(p)) * exp((p.accrualRate + p.decayRate) * dt)
  {
    RateIsExponential(exp, Kappa(p));
    RelaxedIsToward(Rate(exp, Kappa(p)), Equilibrium(p), value, dt);
    RateAt(exp, Kappa(p), dt);
    assert Scaled(Kappa(p), dt) == (p.accrualRate + p.decayRate) * dt;
    assert Fall(exp, Scaled(Kappa(p), dt)) == exp((p.accrualRate + p.decayRate) * dt);
  }

  /** Without time, or without rates, nothing moves. */
  lemma NothingMoves(exp: Exponential, p: Params, value: real, dt: real)
    requires 0.0 <= value <= 1.0 && (dt <= 0.0 || p.accrualRate + p.decayRate <= 0.0)
    ensures Advance(exp, p, value, dt) == value
    ensures p.accrualRate + p.decayRate <= 0.0 && 0.0 <= p.setpoint <= 1.0 ==> Equilibrium(p) == p.setpoint
  {
  }

  // ---- One row of drive_state ----

  datatype Row = Row(value: real, params: Params, updatedAt: real)

  function Elapsed(row: Row, now: real): real {
    if now - row.updatedAt > 0.0 then now - row.updatedAt else 0.0
  }

  function Stepped(exp: Exponential, p: Params, row: Row, delta: real, now: real): (r: Row)
    ensures 0.0 <= r.value <= 1.0 && r.updatedAt == now && r.params == p
  {
    Row(Clamp01(Advance(exp, p, row.value, Elapsed(row, now)) + delta), p, now)
  }

  /** Without events a step relaxes the pressure for the time since the row was updated, or none if the clock went back. */
  lemma StepWithoutEvents(exp: Exponential, p: Params, row: Row, now: real)
    ensures Stepped(exp, p, row, 0.0, now).value
      == Advance(exp, p, row.value, if now > row.updatedAt then now - row.updatedAt else 0.0)
  {
  }

  /** Events move the pressure by their delta, or as far in its direction as the range allows. */
  lemma EventsShift(exp: Exponential, p: Params, row: Row, delta: real, now: real)
    ensures var idle, r := Stepped(exp, p, row, 0.0, now).value, Stepped(exp, p, row, delta, now).value;
      && (delta >= 0.0 ==> idle <= r <= idle + delta && (r < idle + delta ==> r == 1.0))
      && (delta <= 0.0 ==> idle + delta <= r <= idle && (idle + delta < r ==> r == 0.0))
  {
  }

  /** Event-free steps at the given times. */
  function Idle(exp: Exponential, p: Params, row: Row, times: seq<real>): Row {
    if times == [] then row
    else Stepped(exp, p, Idle(exp, p, row, times[..|times| - 1]), 0.0, times[|times| - 1])
  }

  ghost predicate Forward(from: real, times: seq<real>) {
    times == [] || (Forward(from, times[..|times| - 1]) && LastOf(from, times[..|times| - 1]) <= times[|times| - 1])
  }

  function LastOf(from: real, times: seq<real>): real {
    if times == [] then from else times[|times| - 1]
  }

  lemma {:induction false} IdleIsAdvance(exp: Exponential, p: Params, row: Row, times: seq<real>)
    requires IsExponential(exp) && 0.0 <= row.value <= 1.0 && Forward(row.updatedAt, times)
    ensures var last, idle := LastOf(row.updatedAt, times), Idle(exp, p, row, times);
      && row.updatedAt <= last == idle.updatedAt
      && idle.value == Advance(exp, p, row.value, last - row.updatedAt)
  {
    if times != [] {
      var n := |times| - 1;
      var last := LastOf(row.updatedAt, times[..n]);
      IdleIsAdvance(exp, p, row, times[..n]);
      AdvanceAdds(exp, p, row.value, last - row.updatedAt, times[n] - last);
    }
  }

  /** Pressure does not depend on the heartbeat rate: while the clock does not run backwards, any
      number of event-free steps before a step leaves what that step computes unchanged. */
  lemma HeartbeatDoesNotMatter(exp: Exponential, p: Params, row: Row, times: seq<real>, delta: real, now: real)
    requires IsExponential(exp) && 0.0 <= row.value <= 1.0
    requires Forward(row.updatedAt, times) && LastOf(row.updatedAt, times) <= now
    ensures Stepped(exp, p, Idle(exp, p, row, times), delta, now) == Stepped(exp, p, row, delta, now)
  {
    IdleIsAdvance(exp, p, row, times);
    var last := LastOf(row.updatedAt, times);
    AdvanceAdds(exp, p, row.value, last - row.updatedAt, now - last);
  }

  // ---- A clock that runs backwards ----

  ghost predicate Decreasing(exp: Exponential) {
    forall x | x > 0.0 :: Fall(exp, x) < 1.0
  }

  lemma RateIsDecreasing(exp: Exponential, kappa: real)
    requires Decreasing(exp) && kappa > 0.0
    ensures Decreasing(Rate(exp, kappa))
  {
    forall x | x > 0.0 ensures Fall(Rate(exp, kappa), x) < 1.0 {
      PositiveProduct(kappa, x);
    }
  }

  lemma LongerIsLess(left: Exponential, s: real, t: real)
    requires IsExponential(left) && Decreasing(left) && 0.0 <= s < t
    ensures Fall(left, t) < Fall(left, s)
  {
    var d := t - s;
    assert t == s + d;
    assert TurnsSumIntoProduct(left, s, d);
    var f, g := Fall(left, s), Fall(left, d);
    assert g < 1.0;
    Less(f, g);
  }

  lemma Less(f: real, g: real)
    requires f > 0.0 && g < 1.0
    ensures f * g < f
  {
    assert f * (1.0 - g) > 0.0;
  }

  lemma TowardTells(eq: real, v: real, f: real, g: real)
    requires f != g
    ensures Toward(eq, v, f) == Toward(eq, v, g) <==> v == eq
  {
    var d, e := v - eq, f - g;
    assert d * f - d * g == d * e;
  }

  lemma RelaxedTellsTime(left: Exponential, eq: real, value: real, s: real, t: real)
    requires IsExponential(left) && Decreasing(left) && 0.0 <= value <= 1.0 && 0.0 <= eq <= 1.0 && s >= 0.0 && t >= 0.0
    ensures Relaxed(left, eq, value, s) == Relaxed(left, eq, value, t) <==> s == t || value == eq
  {
    if s != t {
      RelaxedIsToward(left, eq, value, s);
      RelaxedIsToward(left, eq, value, t);
      if s < t { LongerIsLess(left, s, t); } else { LongerIsLess(left, t, s); }
      TowardTells(eq, value, Fall(left, s), Fall(left, t));
    }
  }

  /** Away from the equilibrium, the pressure tells how long it has been relaxing. */
  lemma AdvanceTellsTime(exp: Exponential, p: Params, value: real, s: real, t: real)
    requires IsExponential(exp) && Decreasing(exp) && 0.0 <= value <= 1.0 && s >= 0.0 && t >= 0.0
    ensures Advance(exp, p, value, s) == Advance(exp, p, value, t) <==> s == t || Kappa(p) <= 0.0 || value == Equilibrium(p)
  {
    if Kappa(p) > 0.0 {
      RateIsExponential(exp, Kappa(p));
      RateIsDecreasing(exp, Kappa(p));
      RelaxedTellsTime(Rate(exp, Kappa(p)), Equilibrium(p), value, s, t);
    }
  }

  /** The middle reading lies between the other two, or time stands still both times. */
  predicate InOrder(first: real, middle: real, last: real) {
    first <= middle <= last || last <= middle <= first
  }

  /** One event-free step more changes nothing exactly when its time lies between the row's time and
      the next step's, or the drive does not move: a clock that runs backwards counts time twice. */
  lemma ExtraHeartbeatIff(exp: Exponential, p: Params, row: Row, middle: real, now: real)
    requires IsExponential(exp) && Decreasing(exp) && 0.0 <= row.value <= 1.0
    ensures Stepped(exp, p, Stepped(exp, p, row, 0.0, middle), 0.0, now) == Stepped(exp, p, row, 0.0, now)
      <==> InOrder(row.updatedAt, middle, now) || Kappa(p) <= 0.0 || row.value == Equilibrium(p)
  {
    var s, t := Elapsed(row, middle), if now - middle > 0.0 then now - middle else 0.0;
    AdvanceAdds(exp, p, row.value, s, t);
    AdvanceTellsTime(exp, p, row.value, s + t, Elapsed(row, now));
  }

  lemma SetBack(exp: Exponential, p: Params, row: Row, ahead: real)
    requires IsExponential(exp) && Decreasing(exp) && Kappa(p) > 0.0 && row.value == 0.0 && row.params == p
    requires Equilibrium(p) > 0.0 && ahead > row.updatedAt
    ensures Stepped(exp, p, row, 0.0, row.updatedAt) == row
    ensures Stepped(exp, p, Stepped(exp, p, row, 0.0, ahead), 0.0, row.updatedAt).value > 0.0
  {
    ExtraHeartbeatIff(exp, p, row, ahead, row.updatedAt);
    OnlyTheValue(row, Stepped(exp, p, Stepped(exp, p, row, 0.0, ahead), 0.0, row.updatedAt));
  }

  /** A heartbeat a second ahead of a clock that is then set back: the pressure has moved where it should not. */
  lemma ClockSetBack(exp: Exponential, p: Params, row: Row)
    requires IsExponential(exp) && Decreasing(exp)
    requires p == Params(1.0, 0.0, 1.0, 0.5) && row == Row(0.0, p, 0.0)
    ensures Stepped(exp, p, row, 0.0, 0.0) == row
    ensures Stepped(exp, p, Stepped(exp, p, row, 0.0, 1.0), 0.0, 0.0).value > 0.0
  {
    assert Equilibrium(p) == 1.0;
    SetBack(exp, p, row, 1.0);
  }

  lemma OnlyTheValue(row: Row, r: Row)
    requires row.value == 0.0 && 0.0 <= r.value && r.updatedAt == row.updatedAt && r.params == row.params && r != row
    ensures r.value > 0.0
  {
  }
}
