/** What the call log tells about the calls, and what the recorded spend is the sum of
    (brain/llm/router.py, brain/llm/pricing.py). */
module RouterLog {
  import opened Pricing
  import opened Governors
  import opened RouterSpec
  import RouterBudget

  /** Row i of the log. A budget skip has no tokens and costs nothing. Any other row is that of the call with its
      number: role, provider and model are those of the call; an answer's tokens are counted, priced by the table and
      judged by the schema; without an answer nothing is counted. */
  ghost predicate RowTells(env: Env, rows: seq<Row>, sent: seq<Sent>, i: nat)
    requires i < |rows|
  {
    var row, n := rows[i], i - Skips(rows[..i]);
    && row.ts == env.RowTime(i)
    && if row.status.BudgetSkip? then row.promptTokens == 0 && row.completionTokens == 0 && row.cost == 0.0
       else
         && 0 <= n < |sent| && row.role == sent[n].job.role && row.step == sent[n].request.step
         && match env.AnswerTo(sent[n].request, n)
            case TimedOut => row.status == Timeout && row.promptTokens == 0 && row.completionTokens == 0 && row.cost == 0.0
            case Errored => row.status == Error && row.promptTokens == 0 && row.completionTokens == 0 && row.cost == 0.0
            case Answered(c) =>
              && row.promptTokens == c.promptTokens && row.completionTokens == c.completionTokens
              && row.cost == EstimateCost(env.table, sent[n].request.step.provider, sent[n].request.step.model, c.promptTokens, c.completionTokens)
              && row.status == if sent[n].job.schema.Some? && !sent[n].job.schema.value.valid(c.content) then SchemaError else Ok
  }

  ghost predicate LogTells(env: Env, net: Net) {
    && |net.sent| == net.calls && CallsAreLogged(net)
    && forall i | 0 <= i < |net.rows| :: RowTells(env, net.rows, net.sent, i)
  }

  lemma NoTokensNoCost(table: PriceTable, provider: string, model: string)
    ensures EstimateCost(table, provider, model, 0, 0) == 0.0
  {
    if (provider, model) in table {
      var price := table[(provider, model)];
      assert Exact(price, 0, 0) == 0.0;
      assert (0.0 * MILLION + 0.5).Floor == 0;
    }
  }

  lemma {:induction false} SkipsAtMost(rows: seq<Row>)
    ensures Skips(rows) <= |rows|
  {
    if rows != [] { SkipsAtMost(rows[..|rows| - 1]); }
  }

  lemma RowStays(env: Env, rows: seq<Row>, sent: seq<Sent>, row: Row, more: seq<Sent>, i: nat)
    requires i < |rows| && RowTells(env, rows, sent, i)
    ensures RowTells(env, rows + [row], sent + more, i)
  {
    assert (rows + [row])[..i] == rows[..i];
  }

  lemma OneMoreRow(env: Env, net: Net, after: Net, row: Row, more: seq<Sent>)
    requires LogTells(env, net)
    requires after.rows == net.rows + [row] && after.sent == net.sent + more && after.calls == net.calls + |more|
    requires |more| == if row.status.BudgetSkip? then 0 else 1
    requires RowTells(env, after.rows, after.sent, |net.rows|)
    ensures LogTells(env, after)
  {
    assert after.rows[..|net.rows|] == net.rows;
    forall i | 0 <= i < |after.rows| ensures RowTells(env, after.rows, after.sent, i) {
      if i < |net.rows| {
        RowStays(env, net.rows, net.sent, row, more, i);
      }
    }
  }

  lemma AttemptTells(env: Env, net: Net, job: Job, step: ModelStep, messages: seq<Message>)
    requires LogTells(env, net)
    ensures LogTells(env, Attempt(env, net, job, step, messages).0)
  {
    var after := Attempt(env, net, job, step, messages).0;
    var row := after.rows[|net.rows|];
    assert after.rows == net.rows + [row] && after.rows[..|net.rows|] == net.rows;
    NoTokensNoCost(env.table, step.provider, step.model);
    OneMoreRow(env, net, after, row, [Sent(job, Request(step, messages))]);
  }

  lemma {:induction false} InvokeTells(env: Env, net: Net, job: Job, step: ModelStep, messages: seq<Message>, left: nat)
    requires LogTells(env, net)
    ensures LogTells(env, Invoke(env, net, job, step, messages, left).0)
    decreases left
  {
    var (after, v) := Attempt(env, net, job, step, messages);
    AttemptTells(env, net, job, step, messages);
    if v.BadSchema? && left > 0 {
      InvokeTells(env, after, job, step, messages + Feedback(job, v.completion.content), left - 1);
    }
  }

  lemma StepTells(env: Env, s: State, job: Job, step: ModelStep, messages: seq<Message>)
    requires step.provider in s.breakers && LogTells(env, s.net)
    ensures LogTells(env, TryStep(env, s, job, step, messages).0.net)
  {
    var skipped := Logged(env, s.net, job.role, step, None, BudgetSkip);
    var row := skipped.rows[|s.net.rows|];
    assert skipped.rows == s.net.rows + [row];
    NoTokensNoCost(env.table, step.provider, step.model);
    OneMoreRow(env, s.net, skipped, row, []);
    InvokeTells(env, s.net, job, step, messages, env.retries);
  }

  lemma {:induction false} CompleteTells(env: Env, s: State, job: Job, chain: seq<ModelStep>, messages: seq<Message>, last: Cause)
    requires Routed(chain, s.breakers.Keys) && LogTells(env, s.net)
    ensures LogTells(env, Complete(env, s, job, chain, messages, last).0.net)
    decreases |chain|
  {
    if chain != [] {
      StepTells(env, s, job, chain[0], messages);
      var (after, o) := TryStep(env, s, job, chain[0], messages);
      if !o.Done? {
        CompleteTells(env, after, job, chain[1..], messages, CauseAfter(o, chain[0], last));
      }
    }
  }

  /** In every run, every row tells of its own call, and there are no other calls. */
  lemma {:induction false} LogTellsTheCalls(env: Env, states: seq<State>, calls: seq<RouterBudget.Call>, k: nat)
    requires RouterBudget.Runs(env, states, calls) && k <= |calls| && states[0].net == Net([], 0, [])
    ensures var net := states[k].net;
      && |net.sent| == net.calls && |net.rows| == net.calls + Skips(net.rows)
      && forall i | 0 <= i < |net.rows| :: RowTells(env, net.rows, net.sent, i)
  {
    if k > 0 {
      LogTellsTheCalls(env, states, calls, k - 1);
      var call := calls[k - 1];
      CompleteTells(env, states[k - 1], call.job, call.chain, call.messages, NoCause);
    } else {
      assert states[0].net.rows == [];
    }
  }

  /** The price of call number n: that of its answer's tokens, nothing without an answer. */
  function PriceOf(env: Env, sent: Sent, n: nat): real {
    match env.AnswerTo(sent.request, n)
    case Answered(c) => EstimateCost(env.table, sent.request.step.provider, sent.request.step.model, c.promptTokens, c.completionTokens)
    case _ => 0.0
  }

  /** The prices of the calls whose rows fall on the day. */
  function Bill(env: Env, rows: seq<Row>, sent: seq<Sent>, day: int): real {
    if rows == [] then 0.0
    else
      var m := |rows| - 1;
      var n := m - Skips(rows[..m]);
      Bill(env, rows[..m], sent, day)
      + if rows[m].status.BudgetSkip? || rows[m].ts / 86400000000 != day || !(0 <= n < |sent|) then 0.0 else PriceOf(env, sent[n], n)
  }

  lemma {:induction false} SpentIsBill(env: Env, rows: seq<Row>, sent: seq<Sent>, day: int)
    requires forall i | 0 <= i < |rows| :: RowTells(env, rows, sent, i)
    ensures RouterBudget.Spent(rows, day) == Bill(env, rows, sent, day)
  {
    if rows != [] {
      var m := |rows| - 1;
      FrontTells(env, rows, sent, m);
      SpentIsBill(env, rows[..m], sent, day);
      assert rows == rows[..m] + [rows[m]];
      RouterBudget.SpentMore(rows[..m], rows[m], day);
      LastIsPriced(env, rows, sent, m);
    }
  }

  lemma FrontTells(env: Env, rows: seq<Row>, sent: seq<Sent>, m: nat)
    requires m < |rows| && forall i | 0 <= i < |rows| :: RowTells(env, rows, sent, i)
    ensures forall i | 0 <= i < m :: RowTells(env, rows[..m], sent, i)
  {
    forall i | 0 <= i < m ensures RowTells(env, rows[..m], sent, i) {
      assert RowTells(env, rows, sent, i) && rows[..m][..i] == rows[..i];
    }
  }

  lemma LastIsPriced(env: Env, rows: seq<Row>, sent: seq<Sent>, m: nat)
    requires m < |rows| && RowTells(env, rows, sent, m)
    ensures var n := m - Skips(rows[..m]);
      rows[m].cost == if rows[m].status.BudgetSkip? || !(0 <= n < |sent|) then 0.0 else PriceOf(env, sent[n], n)
  {
  }

  /** In every run from an empty log, on every day, the prices of that day's calls add up to what is recorded, and stay below
      the budget plus what the calls of one step can cost. */
  lemma BillIsBounded(env: Env, states: seq<State>, calls: seq<RouterBudget.Call>, most: real, k: nat, day: int)
    requires RouterBudget.Governed(env, most) && RouterBudget.Runs(env, states, calls) && k <= |calls|
    requires states[0].net == Net([], 0, [])
    ensures var net := states[k].net;
      && RouterBudget.Spent(net.rows, day) == Bill(env, net.rows, net.sent, day)
      && Bill(env, net.rows, net.sent, day) < env.budget.value + (env.retries + 1) as real * most
  {
    LogTellsTheCalls(env, states, calls, k);
    SpentIsBill(env, states[k].net.rows, states[k].net.sent, day);
    RouterBudget.SpendIsBounded(env, states, calls, most, k, day);
  }

  /** A first call of a million prompt tokens to the shipped model under a budget of half a dollar: its row costs 0.59, and
      the step is blocked for the rest of the day. */
  lemma MillionTokensExhaust(env: Env, job: Job, messages: seq<Message>, content: string)
    requires env.table == PRICING && env.budget == Some(0.5)
    requires env.AnswerTo(Request(ModelStep("groq", "llama-3.3-70b-versatile"), messages), 0) == Answered(Completion(content, 1000000, 0))
    requires env.RowTime(0) <= env.GateTime(1) && env.RowTime(0) / 86400000000 == env.GateTime(1) / 86400000000
    ensures var step := ModelStep("groq", "llama-3.3-70b-versatile");
      var after := Attempt(env, Net([], 0, []), job, step, messages).0;
      |after.rows| == 1 && after.rows[0].cost == 0.59 && Blocked(env, after, step)
  {
    var step := ModelStep("groq", "llama-3.3-70b-versatile");
    var after := Attempt(env, Net([], 0, []), job, step, messages).0;
    assert (step.provider, step.model) in PRICING;
    assert EstimateCost(PRICING, step.provider, step.model, 1000000, 0) == 0.59;
    PaidIff(PRICING, step.provider, step.model);
    var charges := ChargesOf(after.rows);
    assert charges[..0] == [];
    TodayIsTheDay(charges, env.GateTime(1));
  }
}
