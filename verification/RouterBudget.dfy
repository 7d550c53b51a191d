/** What the budget gate guarantees about a run of the router (brain/llm/router.py,
    core/governors.py, brain/llm/pricing.py). */
module RouterBudget {
  import opened CircuitBreaker
  import opened Pricing
  import opened Governors
  import opened RouterSpec

  /** Every price is dear enough for the gate to see it. */
  ghost predicate Gated(table: PriceTable) {
    NonNegative(table) && forall k | k in table :: table[k].input + table[k].output >= 0.5
  }

  /** The prices as shipped are. */
  lemma ShippedPricesAreGated()
    ensures Gated(PRICING) && forall k | k in PRICING :: IsPaid(PRICING, k.0, k.1)
  {
    forall k: (string, string) | k in PRICING ensures IsPaid(PRICING, k.0, k.1) {
      PaidIff(PRICING, k.0, k.1);
    }
  }

  /** A gate with a budget, clocks that agree, prices high enough to be gated, and a bound on what
      one call can cost. */
  ghost predicate Governed(env: Env, most: real) {
    && env.budget.Some? && env.budget.value >= 0.0 && most > 0.0
    && Gated(env.table)
    && (forall i: nat, j: nat | i < j :: env.RowTime(i) <= env.RowTime(j) && env.RowTime(i) <= env.GateTime(j))
    && (forall i: nat, j: nat | j <= i :: env.GateTime(j) <= env.RowTime(i))
    && (forall request, n :: CostsAtMost(env, request, env.AnswerTo(request, n), most))
  }

  ghost predicate CostsAtMost(env: Env, request: Request, answer: Answer, most: real) {
    answer.Answered? ==>
      EstimateCost(env.table, request.step.provider, request.step.model, answer.completion.promptTokens, answer.completion.completionTokens) <= most
  }

  /** The rows carry the clock's times, and no row costs less than nothing. */
  ghost predicate Dated(env: Env, rows: seq<Row>) {
    forall i | 0 <= i < |rows| :: rows[i].ts == env.RowTime(i) && rows[i].cost >= 0.0
  }

  function Spent(rows: seq<Row>, day: int): real {
    SpentOn(ChargesOf(rows), day)
  }

  lemma SpentMore(rows: seq<Row>, row: Row, day: int)
    ensures Spent(rows + [row], day) == Spent(rows, day) + if DayOf(row.ts) == day then row.cost else 0.0
  {
    assert ChargesOf(rows + [row])[..|rows|] == ChargesOf(rows);
  }

  /** What one logged row adds to the spend of a day. */
  lemma LoggedSpend(env: Env, net: Net, role: string, step: ModelStep, completion: Option<Completion>, status: Status, most: real, day: int)
    requires Governed(env, most) && Dated(env, net.rows)
    requires completion.Some? ==>
      EstimateCost(env.table, step.provider, step.model, completion.value.promptTokens, completion.value.completionTokens) <= most
    ensures var after := Logged(env, net, role, step, completion, status);
      && Dated(env, after.rows) && |after.rows| == |net.rows| + 1
      && Spent(net.rows, day) <= Spent(after.rows, day) <= Spent(net.rows, day) + most
      && (DayOf(env.RowTime(|net.rows|)) != day || completion.None? || !IsPaid(env.table, step.provider, step.model) ==>
            Spent(after.rows, day) == Spent(net.rows, day))
  {
    var after := Logged(env, net, role, step, completion, status);
    var row := after.rows[|net.rows|];
    assert after.rows == net.rows + [row];
    SpentMore(net.rows, row, day);
    CostIsNotNegative(env.table, step.provider, step.model, row.promptTokens, row.completionTokens);
    PaidIff(env.table, step.provider, step.model);
  }

  lemma AttemptSpend(env: Env, net: Net, job: Job, step: ModelStep, messages: seq<Message>, most: real, day: int)
    requires Governed(env, most) && Dated(env, net.rows)
    ensures var after := Attempt(env, net, job, step, messages).0;
      && Dated(env, after.rows) && |after.rows| == |net.rows| + 1
      && Spent(net.rows, day) <= Spent(after.rows, day) <= Spent(net.rows, day) + most
      && (DayOf(env.RowTime(|net.rows|)) != day || !IsPaid(env.table, step.provider, step.model) ==>
            Spent(after.rows, day) == Spent(net.rows, day))
  {
    var answer := env.AnswerTo(Request(step, messages), net.calls);
    assert CostsAtMost(env, Request(step, messages), answer, most);
    var called := Called(net, job, step, messages);
    match Judge(job, answer)
    case Down(status) => LoggedSpend(env, called, job.role, step, None, status, most, day);
    case BadSchema(c) => LoggedSpend(env, called, job.role, step, Some(c), SchemaError, most, day);
    case Good(c) => LoggedSpend(env, called, job.role, step, Some(c), Ok, most, day);
  }

  function Times(n: nat, x: real): real {
    if n == 0 then 0.0 else Times(n - 1, x) + x
  }

  lemma {:induction false} TimesIsProduct(n: nat, x: real)
    ensures Times(n, x) == n as real * x
  {
    if n > 0 {
      TimesIsProduct(n - 1, x);
      assert n as real * x == (n - 1) as real * x + x;
    }
  }

  /** A provider is called at most left + 1 times, so it adds at most that many calls' cost to any
      day, and nothing to a day that is over. */
  lemma {:induction false} InvokeSpend(env: Env, net: Net, job: Job, step: ModelStep, messages: seq<Message>, left: nat, most: real, day: int)
    requires Governed(env, most) && Dated(env, net.rows)
    ensures var after := Invoke(env, net, job, step, messages, left).0;
      && Dated(env, after.rows)
      && Spent(net.rows, day) <= Spent(after.rows, day) <= Spent(net.rows, day) + Times(left + 1, most)
      && (DayOf(env.RowTime(|net.rows|)) > day || !IsPaid(env.table, step.provider, step.model) ==>
            Spent(after.rows, day) == Spent(net.rows, day))
    decreases left
  {
    var (after, v) := Attempt(env, net, job, step, messages);
    AttemptSpend(env, net, job, step, messages, most, day);
    TimesIsNotNegative(left, most);
    if v.BadSchema? && left > 0 {
      InvokeSpend(env, after, job, step, messages + Feedback(job, v.completion.content), left - 1, most, day);
      LaterDay(env, most, |net.rows|);
    }
  }

  lemma {:induction false} TimesIsNotNegative(n: nat, x: real)
    requires x >= 0.0
    ensures Times(n, x) >= 0.0
  {
    if n > 0 { TimesIsNotNegative(n - 1, x); }
  }

  lemma LaterDay(env: Env, most: real, n: nat)
    requires Governed(env, most)
    ensures DayOf(env.RowTime(n)) <= DayOf(env.RowTime(n + 1))
    ensures DayOf(env.GateTime(n)) <= DayOf(env.RowTime(n))
  {
    assert env.RowTime(n) <= env.RowTime(n + 1) && env.GateTime(n) <= env.RowTime(n);
  }

  /** On no day does the recorded spend reach the budget plus the cost of one step's calls. */
  ghost predicate Within(env: Env, rows: seq<Row>, most: real)
    requires env.budget.Some?
  {
    Dated(env, rows) && forall day :: Spent(rows, day) < env.budget.value + Times(env.retries + 1, most)
  }

  /** What the gate saw when it let a paid step through. */
  lemma GateSaw(env: Env, net: Net, step: ModelStep, most: real)
    requires Governed(env, most) && Dated(env, net.rows)
    requires IsPaid(env.table, step.provider, step.model) && !Blocked(env, net, step)
    ensures var today := DayOf(env.GateTime(|net.rows|));
      && Spent(net.rows, today) < env.budget.value
      && (forall day | day > today :: Spent(net.rows, day) == 0.0)
      && env.budget.value > 0.0
  {
    var now := env.GateTime(|net.rows|);
    var charges := ChargesOf(net.rows);
    assert forall i | 0 <= i < |charges| :: charges[i].ts <= now;
    TodayIsTheDay(charges, now);
    SpendIsNotNegative(charges, DayOf(now));
    forall day | day > DayOf(now) ensures Spent(net.rows, day) == 0.0 {
      NothingSpentYet(charges, day);
    }
  }

  /** After a step that the gate let through, on a day before, at or after the one the gate saw. */
  lemma StaysBelow(env: Env, net: Net, step: ModelStep, after: seq<Row>, most: real, day: int)
    requires Governed(env, most) && !Blocked(env, net, step)
    requires Within(env, net.rows, most)
    requires Spent(after, day) <= Spent(net.rows, day) + Times(env.retries + 1, most)
    requires DayOf(env.RowTime(|net.rows|)) > day || !IsPaid(env.table, step.provider, step.model) ==>
      Spent(after, day) == Spent(net.rows, day)
    ensures Spent(after, day) < env.budget.value + Times(env.retries + 1, most)
  {
    if IsPaid(env.table, step.provider, step.model) {
      GateSaw(env, net, step, most);
      LaterDay(env, most, |net.rows|);
    }
  }

  lemma CallSpend(env: Env, net: Net, job: Job, step: ModelStep, messages: seq<Message>, most: real, day: int)
    requires Governed(env, most) && !Blocked(env, net, step)
    requires Within(env, net.rows, most)
    ensures var after := Invoke(env, net, job, step, messages, env.retries).0.rows;
      Dated(env, after) && Spent(after, day) < env.budget.value + Times(env.retries + 1, most)
  {
    InvokeSpend(env, net, job, step, messages, env.retries, most, day);
    StaysBelow(env, net, step, Invoke(env, net, job, step, messages, env.retries).0.rows, most, day);
  }

  lemma StepSpend(env: Env, s: State, job: Job, step: ModelStep, messages: seq<Message>, most: real, day: int)
    requires Governed(env, most) && step.provider in s.breakers
    requires Within(env, s.net.rows, most)
    ensures var after := TryStep(env, s, job, step, messages).0.net.rows;
      Dated(env, after) && Spent(after, day) < env.budget.value + Times(env.retries + 1, most)
  {
    if !CircuitOpen(env, s, step) {
      if Blocked(env, s.net, step) {
        LoggedSpend(env, s.net, job.role, step, None, BudgetSkip, most, day);
      } else {
        CallSpend(env, s.net, job, step, messages, most, day);
      }
    }
  }

  lemma StepStaysWithin(env: Env, s: State, job: Job, step: ModelStep, messages: seq<Message>, most: real)
    requires Governed(env, most) && step.provider in s.breakers
    requires Within(env, s.net.rows, most)
    ensures Within(env, TryStep(env, s, job, step, messages).0.net.rows, most)
  {
    StepSpend(env, s, job, step, messages, most, 0);
    forall day: int ensures Spent(TryStep(env, s, job, step, messages).0.net.rows, day) < env.budget.value + Times(env.retries + 1, most) {
      StepSpend(env, s, job, step, messages, most, day);
    }
  }

  lemma {:induction false} CompleteStaysWithin(env: Env, s: State, job: Job, chain: seq<ModelStep>, messages: seq<Message>, last: Cause, most: real)
    requires Governed(env, most) && Routed(chain, s.breakers.Keys)
    requires Within(env, s.net.rows, most)
    ensures Within(env, Complete(env, s, job, chain, messages, last).0.net.rows, most)
    decreases |chain|
  {
    if chain != [] {
      StepStaysWithin(env, s, job, chain[0], messages, most);
      var (after, o) := TryStep(env, s, job, chain[0], messages);
      if !o.Done? {
        CompleteStaysWithin(env, after, job, chain[1..], messages, CauseAfter(o, chain[0], last), most);
      }
    }
  }

  // ---- Whole runs ----

  datatype Call = Call(job: Job, chain: seq<ModelStep>, messages: seq<Message>)

  /** One call after another. */
  ghost predicate Runs(env: Env, states: seq<State>, calls: seq<Call>) {
    && |states| == |calls| + 1
    && forall i | 0 <= i < |calls| ::
         Routed(calls[i].chain, states[i].breakers.Keys)
         && states[i + 1] == Complete(env, states[i], calls[i].job, calls[i].chain, calls[i].messages, NoCause).0
  }

  /** In any sequential run from an empty log, on every day, the recorded spend stays below the
      budget plus what the calls of one step can cost. */
  lemma {:induction false} SpendIsBounded(env: Env, states: seq<State>, calls: seq<Call>, most: real, i: nat, day: int)
    requires Governed(env, most) && Runs(env, states, calls) && i <= |calls|
    requires states[0].net.rows == []
    ensures Spent(states[i].net.rows, day) < env.budget.value + (env.retries + 1) as real * most
    ensures Within(env, states[i].net.rows, most)
  {
    TimesIsProduct(env.retries + 1, most);
    if i == 0 {
      TimesIsNotNegative(env.retries, most);
    } else {
      SpendIsBounded(env, states, calls, most, i - 1, day);
      var call := calls[i - 1];
      CompleteStaysWithin(env, states[i - 1], call.job, call.chain, call.messages, NoCause, most);
    }
  }

  /** No paid provider is called once the day's spend has reached the budget. */
  lemma NoPaidCallOverBudget(env: Env, s: State, job: Job, step: ModelStep, messages: seq<Message>)
    requires step.provider in s.breakers && env.budget.Some?
    requires IsPaid(env.table, step.provider, step.model)
    requires SpentToday(ChargesOf(s.net.rows), env.GateTime(|s.net.rows|)) >= env.budget.value
    ensures TryStep(env, s, job, step, messages).0.net.calls == s.net.calls
    ensures !TryStep(env, s, job, step, messages).1.Done?
  {
  }
}
