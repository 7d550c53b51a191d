/** The budget governor: the day's spend read from the call log (core/governors.py). */
module Governors {

  type Instant = int  // microseconds of UTC

  const DAY: int := 86400000000

  datatype Charge = Charge(ts: Instant, cost: real)

  function DayStart(now: Instant): Instant { now - now % DAY }

  function DayOf(t: Instant): int { t / DAY }

  function SpentSince(rows: seq<Charge>, since: Instant): real {
    if rows == [] then 0.0
    else SpentSince(rows[..|rows| - 1], since) + if rows[|rows| - 1].ts >= since then rows[|rows| - 1].cost else 0.0
  }

  function SpentOn(rows: seq<Charge>, day: int): real {
    if rows == [] then 0.0
    else SpentOn(rows[..|rows| - 1], day) + if DayOf(rows[|rows| - 1].ts) == day then rows[|rows| - 1].cost else 0.0
  }

  function SpentToday(rows: seq<Charge>, now: Instant): real {
    SpentSince(rows, DayStart(now))
  }

  predicate IsExhausted(rows: seq<Charge>, budget: real, now: Instant) {
    SpentToday(rows, now) >= budget
  }

  datatype BudgetStatus = BudgetStatus(spent: real, budget: real, remaining: real, exhausted: bool)

  function Status(rows: seq<Charge>, budget: real, now: Instant): BudgetStatus {
    var spent := SpentToday(rows, now);
    BudgetStatus(spent, budget, if budget - spent > 0.0 then budget - spent else 0.0, spent >= budget)
  }

  /** Nothing is left exactly when the governor says exhausted. */
  lemma NothingLeftIffExhausted(rows: seq<Charge>, budget: real, now: Instant)
    ensures Status(rows, budget, now).exhausted <==> Status(rows, budget, now).remaining == 0.0
    ensures Status(rows, budget, now).exhausted <==> IsExhausted(rows, budget, now)
  {
  }

  lemma DayBoundary(t: Instant, now: Instant)
    requires t <= now
    ensures t >= DayStart(now) <==> DayOf(t) == DayOf(now)
  {
    var d := now / DAY;
    assert now == d * DAY + now % DAY;
    assert t == t / DAY * DAY + t % DAY;
  }

  /** While no row lies in the future, what the governor sums up is the spend of the current UTC day. */
  lemma {:induction false} TodayIsTheDay(rows: seq<Charge>, now: Instant)
    requires forall i | 0 <= i < |rows| :: rows[i].ts <= now
    ensures SpentToday(rows, now) == SpentOn(rows, DayOf(now))
  {
    if rows != [] {
      TodayIsTheDay(rows[..|rows| - 1], now);
      DayBoundary(rows[|rows| - 1].ts, now);
    }
  }

  lemma {:induction false} NothingSpentYet(rows: seq<Charge>, day: int)
    requires forall i | 0 <= i < |rows| :: DayOf(rows[i].ts) != day
    ensures SpentOn(rows, day) == 0.0
  {
    if rows != [] {
      NothingSpentYet(rows[..|rows| - 1], day);
    }
  }

  lemma {:induction false} SpendIsNotNegative(rows: seq<Charge>, day: int)
    requires forall i | 0 <= i < |rows| :: rows[i].cost >= 0.0
    ensures SpentOn(rows, day) >= 0.0
  {
    if rows != [] {
      SpendIsNotNegative(rows[..|rows| - 1], day);
    }
  }
}
