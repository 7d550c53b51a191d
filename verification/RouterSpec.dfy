/** What the router does with one provider and with a chain of them (brain/llm/router.py). */
module RouterSpec {
  import opened CircuitBreaker
  import opened Pricing
  import opened Governors

  datatype Option<T> = None | Some(value: T)

  datatype Message = Message(role: string, content: string)

  datatype ModelStep = ModelStep(provider: string, model: string)

  datatype Request = Request(step: ModelStep, messages: seq<Message>)

  datatype Completion = Completion(content: string, promptTokens: nat, completionTokens: nat)

  datatype Answer = TimedOut | Errored | Answered(completion: Completion)

  /** What a response must satisfy, and the text quoted back when it does not. */
  datatype Schema = Schema(valid: string -> bool, complaint: string -> string)

  datatype Job = Job(role: string, schema: Option<Schema>)

  datatype Status = Ok | Timeout | Error | SchemaError | BudgetSkip

  /** A row of llm_call_log. */
  datatype Row = Row(role: string, step: ModelStep, promptTokens: nat, completionTokens: nat, status: Status, cost: real, ts: Instant)

  /** Everything outside the router: what the n-th provider call answers, what the breakers' clock
      shows at its n-th reading, and the wall clock at the n-th row and at a budget check made when
      the log has n rows. */
  datatype Env = Env(
    answer: (Request, nat) -> Answer,
    clock: nat -> real,
    gateTime: nat -> Instant,
    rowTime: nat -> Instant,
    table: PriceTable,
    breaker: Config,
    budget: Option<real>,
    retries: nat)
  {
    function AnswerTo(request: Request, n: nat): Answer { answer(request, n) }
    function Reading(n: nat): real { clock(n) }
    function RowTime(n: nat): Instant { rowTime(n) }
    function GateTime(n: nat): Instant { gateTime(n) }
  }

  /** What a provider is called with, and for which job. */
  datatype Sent = Sent(job: Job, request: Request)

  /** The call log, the number of provider calls made, and what they were called with. */
  datatype Net = Net(rows: seq<Row>, calls: nat, sent: seq<Sent>)

  function Logged(env: Env, net: Net, role: string, step: ModelStep, completion: Option<Completion>, status: Status): Net {
    var p := if completion.Some? then completion.value.promptTokens else 0;
    var c := if completion.Some? then completion.value.completionTokens else 0;
    net.(rows := net.rows + [Row(role, step, p, c, status, EstimateCost(env.table, step.provider, step.model, p, c), env.RowTime(|net.rows|))])
  }

  // ---- One attempt ----

  datatype Verdict = Good(completion: Completion) | Down(status: Status) | BadSchema(completion: Completion)

  predicate Fits(job: Job, content: string) {
    job.schema.None? || job.schema.value.valid(content)
  }

  function Judge(job: Job, answer: Answer): Verdict {
    match answer
    case TimedOut => Down(Timeout)
    case Errored => Down(Error)
    case Answered(c) => if Fits(job, c.content) then Good(c) else BadSchema(c)
  }

  function RowFor(env: Env, net: Net, job: Job, step: ModelStep, v: Verdict): Net {
    match v
    case Down(status) => Logged(env, net, job.role, step, None, status)
    case BadSchema(c) => Logged(env, net, job.role, step, Some(c), SchemaError)
    case Good(c) => Logged(env, net, job.role, step, Some(c), Ok)
  }

  function Called(net: Net, job: Job, step: ModelStep, messages: seq<Message>): Net {
    net.(calls := net.calls + 1, sent := net.sent + [Sent(job, Request(step, messages))])
  }

  function Attempt(env: Env, net: Net, job: Job, step: ModelStep, messages: seq<Message>): (Net, Verdict) {
    var v := Judge(job, env.AnswerTo(Request(step, messages), net.calls));
    (RowFor(env, Called(net, job, step, messages), job, step, v), v)
  }

  // ---- One provider, with feedback ----

  function Feedback(job: Job, content: string): (m: seq<Message>)
    ensures |m| == 2
  {
    [Message("assistant", content),
     Message("user", if job.schema.Some? then job.schema.value.complaint(content) else "")]
  }

  function Invoke(env: Env, net: Net, job: Job, step: ModelStep, messages: seq<Message>, left: nat): (Net, Verdict)
    decreases left
  {
    var (after, v) := Attempt(env, net, job, step, messages);
    if v.BadSchema? && left > 0
    then Invoke(env, after, job, step, messages + Feedback(job, v.completion.content), left - 1)
    else (after, v)
  }

  /** The messages sent at attempt number k when all attempts before it failed the schema. */
  function Transcript(env: Env, calls: nat, job: Job, step: ModelStep, messages: seq<Message>, k: nat): seq<Message> {
    if k == 0 then messages
    else
      var before := Transcript(env, calls, job, step, messages, k - 1);
      match Judge(job, env.AnswerTo(Request(step, before), calls + k - 1))
      case BadSchema(c) => before + Feedback(job, c.content)
      case _ => before
  }

  function VerdictAt(env: Env, calls: nat, job: Job, step: ModelStep, messages: seq<Message>, k: nat): Verdict {
    Judge(job, env.AnswerTo(Request(step, Transcript(env, calls, job, step, messages, k)), calls + k))
  }

  /** Every retry sends the transcript of the attempt before and exactly two messages more. */
  lemma TranscriptGrowsByTwo(env: Env, calls: nat, job: Job, step: ModelStep, messages: seq<Message>, k: nat)
    requires VerdictAt(env, calls, job, step, messages, k).BadSchema?
    ensures var before := Transcript(env, calls, job, step, messages, k);
      var after := Transcript(env, calls, job, step, messages, k + 1);
      before <= after && |after| == |before| + 2 && after[|before|].content == VerdictAt(env, calls, job, step, messages, k).completion.content
  {
  }

  lemma {:induction false} TranscriptShift(env: Env, calls: nat, job: Job, step: ModelStep, messages: seq<Message>, k: nat)
    ensures Transcript(env, calls, job, step, messages, k + 1)
      == Transcript(env, calls + 1, job, step, Transcript(env, calls, job, step, messages, 1), k)
  {
    if k > 0 {
      TranscriptShift(env, calls, job, step, messages, k - 1);
      assert calls + 1 + (k - 1) == calls + k;
    }
  }

  lemma VerdictShift(env: Env, calls: nat, job: Job, step: ModelStep, messages: seq<Message>, k: nat)
    ensures VerdictAt(env, calls, job, step, messages, k + 1)
      == VerdictAt(env, calls + 1, job, step, Transcript(env, calls, job, step, messages, 1), k)
  {
    TranscriptShift(env, calls, job, step, messages, k);
    assert calls + (k + 1) == calls + 1 + k;
  }

  /** The first k attempts all failed the schema. */
  ghost predicate AllBad(env: Env, calls: nat, job: Job, step: ModelStep, messages: seq<Message>, k: nat) {
    forall j | 0 <= j < k :: VerdictAt(env, calls, job, step, messages, j).BadSchema?
  }

  lemma AllBadShift(env: Env, calls: nat, job: Job, step: ModelStep, messages: seq<Message>, k: nat)
    requires VerdictAt(env, calls, job, step, messages, 0).BadSchema?
    requires AllBad(env, calls + 1, job, step, Transcript(env, calls, job, step, messages, 1), k)
    ensures AllBad(env, calls, job, step, messages, k + 1)
  {
    forall j | 0 < j < k + 1 ensures VerdictAt(env, calls, job, step, messages, j).BadSchema? {
      VerdictShift(env, calls, job, step, messages, j - 1);
    }
  }

  lemma FirstVerdict(env: Env, net: Net, job: Job, step: ModelStep, messages: seq<Message>)
    ensures var (after, v) := Attempt(env, net, job, step, messages);
      && VerdictAt(env, net.calls, job, step, messages, 0) == v && after.calls == net.calls + 1
      && (v.BadSchema? ==> Transcript(env, net.calls, job, step, messages, 1) == messages + Feedback(job, v.completion.content))
  {
  }

  /** The call that decides: all attempts before number k failed the schema, and k is the first that
      did not or the last that was left. */
  ghost predicate Decided(env: Env, calls: nat, job: Job, step: ModelStep, messages: seq<Message>, left: nat, k: nat, result: (Net, Verdict)) {
    && k <= left && AllBad(env, calls, job, step, messages, k)
    && VerdictAt(env, calls, job, step, messages, k) == result.1
    && (k < left ==> !result.1.BadSchema?)
    && result.0.calls == calls + k + 1
  }

  lemma {:induction false} TwoAnAttempt(env: Env, calls: nat, job: Job, step: ModelStep, messages: seq<Message>, k: nat)
    requires AllBad(env, calls, job, step, messages, k)
    ensures |Transcript(env, calls, job, step, messages, k)| == |messages| + 2 * k
  {
    if k > 0 {
      TwoAnAttempt(env, calls, job, step, messages, k - 1);
      TranscriptGrowsByTwo(env, calls, job, step, messages, k - 1);
    }
  }

  lemma StaysFront(a: seq<Message>, b: seq<Message>, c: seq<Message>)
    requires a <= b <= c
    ensures a <= c
  {
  }

  lemma {:induction false} EarlierIsFront(env: Env, calls: nat, job: Job, step: ModelStep, messages: seq<Message>, j: nat, k: nat)
    requires j <= k && AllBad(env, calls, job, step, messages, k)
    ensures Transcript(env, calls, job, step, messages, j) <= Transcript(env, calls, job, step, messages, k)
    decreases k
  {
    if j < k {
      var before := Transcript(env, calls, job, step, messages, k - 1);
      EarlierIsFront(env, calls, job, step, messages, j, k - 1);
      TranscriptGrowsByTwo(env, calls, job, step, messages, k - 1);
      StaysFront(Transcript(env, calls, job, step, messages, j), before, Transcript(env, calls, job, step, messages, k));
    }
  }

  /** A whole sequence of retries: the k-th sends the original messages and two more for each attempt before it, every
      transcript starts with all the earlier ones, and each failed output is quoted where it failed. */
  lemma TranscriptsGrow(env: Env, calls: nat, job: Job, step: ModelStep, messages: seq<Message>, j: nat, k: nat)
    requires j <= k && AllBad(env, calls, job, step, messages, k)
    ensures var before, all := Transcript(env, calls, job, step, messages, j), Transcript(env, calls, job, step, messages, k);
      && messages <= before <= all && |before| == |messages| + 2 * j && |all| == |messages| + 2 * k
      && (j < k ==> all[|before|].content == VerdictAt(env, calls, job, step, messages, j).completion.content)
  {
    TwoAnAttempt(env, calls, job, step, messages, j);
    TwoAnAttempt(env, calls, job, step, messages, k);
    EarlierIsFront(env, calls, job, step, messages, 0, j);
    EarlierIsFront(env, calls, job, step, messages, j, k);
    if j < k {
      QuotedAt(env, calls, job, step, messages, j, k);
    }
  }

  lemma QuotedAt(env: Env, calls: nat, job: Job, step: ModelStep, messages: seq<Message>, j: nat, k: nat)
    requires j < k && AllBad(env, calls, job, step, messages, k)
    ensures var n := |messages| + 2 * j;
      && n < |Transcript(env, calls, job, step, messages, k)|
      && Transcript(env, calls, job, step, messages, k)[n].content == VerdictAt(env, calls, job, step, messages, j).completion.content
  {
    var next := Transcript(env, calls, job, step, messages, j + 1);
    TwoAnAttempt(env, calls, job, step, messages, j);
    TranscriptGrowsByTwo(env, calls, job, step, messages, j);
    EarlierIsFront(env, calls, job, step, messages, j + 1, k);
    assert next[|messages| + 2 * j] == Transcript(env, calls, job, step, messages, k)[|messages| + 2 * j];
  }

  lemma DecidedLater(env: Env, calls: nat, job: Job, step: ModelStep, messages: seq<Message>, left: nat, k: nat, result: (Net, Verdict))
    requires left > 0 && VerdictAt(env, calls, job, step, messages, 0).BadSchema?
    requires Decided(env, calls + 1, job, step, Transcript(env, calls, job, step, messages, 1), left - 1, k, result)
    ensures Decided(env, calls, job, step, messages, left, k + 1, result)
  {
    VerdictShift(env, calls, job, step, messages, k);
    AllBadShift(env, calls, job, step, messages, k);
  }

  lemma {:induction false} InvokeMeaning(env: Env, net: Net, job: Job, step: ModelStep, messages: seq<Message>, left: nat) returns (k: nat)
    ensures Decided(env, net.calls, job, step, messages, left, k, Invoke(env, net, job, step, messages, left))
    decreases left
  {
    var (after, v) := Attempt(env, net, job, step, messages);
    FirstVerdict(env, net, job, step, messages);
    if v.BadSchema? && left > 0 {
      var rest := InvokeMeaning(env, after, job, step, messages + Feedback(job, v.completion.content), left - 1);
      k := rest + 1;
      DecidedLater(env, net.calls, job, step, messages, left, rest, Invoke(env, net, job, step, messages, left));
    } else {
      k := 0;
    }
  }

  // ---- One step of a chain ----

  /** The log, the breakers and how often their clock has been read. */
  datatype State = State(net: Net, breakers: map<string, Fields>, readings: nat)

  function ChargesOf(rows: seq<Row>): (c: seq<Charge>)
    ensures |c| == |rows|
    ensures forall i | 0 <= i < |rows| :: c[i] == Charge(rows[i].ts, rows[i].cost)
  {
    seq(|rows|, i requires 0 <= i < |rows| => Charge(rows[i].ts, rows[i].cost))
  }

  /** A paid step is blocked once the day's spend has reached the budget. */
  predicate Blocked(env: Env, net: Net, step: ModelStep) {
    env.budget.Some? && IsPaid(env.table, step.provider, step.model)
    && IsExhausted(ChargesOf(net.rows), env.budget.value, env.GateTime(|net.rows|))
  }

  datatype Outcome = Skipped | OverBudget | ProviderDown | UnusableOutput | Done(completion: Completion)

  function SetBreaker(s: State, provider: string, f: Fields): State {
    s.(breakers := s.breakers[provider := f])
  }

  /** Asking the breaker. */
  function Asked(env: Env, s: State, step: ModelStep): State
    requires step.provider in s.breakers
  {
    SetBreaker(s, step.provider, Observed(env.breaker, s.breakers[step.provider], env.Reading(s.readings))).(readings := s.readings + 1)
  }

  predicate CircuitOpen(env: Env, s: State, step: ModelStep)
    requires step.provider in s.breakers
  {
    !Allows(env.breaker, s.breakers[step.provider], env.Reading(s.readings))
  }

  /** Telling the breaker how the call went. */
  function Settled(env: Env, s: State, step: ModelStep, net: Net, v: Verdict): State
    requires step.provider in s.breakers
  {
    if v.Down? then
      SetBreaker(s, step.provider, AfterFailure(env.breaker, s.breakers[step.provider], env.Reading(s.readings))).(readings := s.readings + 1, net := net)
    else
      SetBreaker(s, step.provider, FRESH).(net := net)
  }

  function OutcomeOf(v: Verdict): Outcome {
    match v
    case Down(_) => ProviderDown
    case BadSchema(_) => UnusableOutput
    case Good(c) => Done(c)
  }

  function TryStep(env: Env, s: State, job: Job, step: ModelStep, messages: seq<Message>): (State, Outcome)
    requires step.provider in s.breakers
  {
    var asked := Asked(env, s, step);
    if CircuitOpen(env, s, step) then (asked, Skipped)
    else if Blocked(env, s.net, step) then
      (asked.(net := Logged(env, s.net, job.role, step, None, BudgetSkip)), OverBudget)
    else
      var (net, v) := Invoke(env, s.net, job, step, messages, env.retries);
      (Settled(env, asked, step, net, v), OutcomeOf(v))
  }

  // ---- The chain ----

  datatype Cause = NoCause | BudgetSpent(provider: string) | ProviderFailed(provider: string) | SchemaFailed(provider: string)

  datatype Result = Completed(completion: Completion) | Unavailable(cause: Cause)

  function CauseAfter(o: Outcome, step: ModelStep, last: Cause): Cause {
    match o
    case OverBudget => BudgetSpent(step.provider)
    case ProviderDown => ProviderFailed(step.provider)
    case UnusableOutput => SchemaFailed(step.provider)
    case _ => last
  }

  ghost predicate Routed(chain: seq<ModelStep>, breakers: set<string>) {
    forall step | step in chain :: step.provider in breakers
  }

  function Complete(env: Env, s: State, job: Job, chain: seq<ModelStep>, messages: seq<Message>, last: Cause): (State, Result)
    requires Routed(chain, s.breakers.Keys)
    decreases |chain|
  {
    if chain == [] then (s, Unavailable(last))
    else
      var (after, o) := TryStep(env, s, job, chain[0], messages);
      if o.Done? then (after, Completed(o.completion))
      else Complete(env, after, job, chain[1..], messages, CauseAfter(o, chain[0], last))
  }

  /** The state after the first i steps have been tried, whatever came of them. */
  function StateAt(env: Env, s: State, job: Job, chain: seq<ModelStep>, messages: seq<Message>, i: nat): (r: State)
    requires i <= |chain| && Routed(chain, s.breakers.Keys)
    ensures r.breakers.Keys == s.breakers.Keys
  {
    if i == 0 then s
    else TryStep(env, StateAt(env, s, job, chain, messages, i - 1), job, chain[i - 1], messages).0
  }

  /** Step i gets a usable answer: its circuit lets it through, the budget does not stop it, and one
      of its attempts, with only schema failures before it, is answered as asked. */
  ghost predicate Usable(env: Env, s: State, job: Job, step: ModelStep, messages: seq<Message>)
    requires step.provider in s.breakers
  {
    && !CircuitOpen(env, s, step)
    && !Blocked(env, s.net, step)
    && exists k :: 0 <= k <= env.retries && DecidesAt(env, s.net.calls, job, step, messages, k)
  }

  ghost predicate DecidesAt(env: Env, calls: nat, job: Job, step: ModelStep, messages: seq<Message>, k: nat) {
    && VerdictAt(env, calls, job, step, messages, k).Good?
    && AllBad(env, calls, job, step, messages, k)
  }

  lemma OneDecides(env: Env, calls: nat, job: Job, step: ModelStep, messages: seq<Message>, k: nat, m: nat)
    requires VerdictAt(env, calls, job, step, messages, k).Good? || VerdictAt(env, calls, job, step, messages, k).Down? || m <= k
    requires DecidesAt(env, calls, job, step, messages, m)
    requires forall j | 0 <= j < k :: VerdictAt(env, calls, job, step, messages, j).BadSchema?
    ensures k == m
  {
  }

  lemma DoneIffUsable(env: Env, s: State, job: Job, step: ModelStep, messages: seq<Message>)
    requires step.provider in s.breakers
    ensures TryStep(env, s, job, step, messages).1.Done? <==> Usable(env, s, job, step, messages)
    ensures forall k | 0 <= k <= env.retries && DecidesAt(env, s.net.calls, job, step, messages, k) && Usable(env, s, job, step, messages) ::
      TryStep(env, s, job, step, messages).1 == Done(VerdictAt(env, s.net.calls, job, step, messages, k).completion)
  {
    var k := InvokeMeaning(env, s.net, job, step, messages, env.retries);
    if VerdictAt(env, s.net.calls, job, step, messages, k).Good? {
      assert DecidesAt(env, s.net.calls, job, step, messages, k);
    }
    forall m | 0 <= m <= env.retries && DecidesAt(env, s.net.calls, job, step, messages, m) ensures m == k {
      OneDecides(env, s.net.calls, job, step, messages, k, m);
    }
  }

  /** What trying step i comes to, after the steps before it. */
  function OutcomeAt(env: Env, s: State, job: Job, chain: seq<ModelStep>, messages: seq<Message>, i: nat): Outcome
    requires i < |chain| && Routed(chain, s.breakers.Keys)
  {
    TryStep(env, StateAt(env, s, job, chain, messages, i), job, chain[i], messages).1
  }

  function CauseAt(env: Env, s: State, job: Job, chain: seq<ModelStep>, messages: seq<Message>, last: Cause, i: nat): Cause
    requires i <= |chain| && Routed(chain, s.breakers.Keys)
  {
    if i == 0 then last
    else CauseAfter(OutcomeAt(env, s, job, chain, messages, i - 1), chain[i - 1], CauseAt(env, s, job, chain, messages, last, i - 1))
  }

  /** The rest of the search once the first i steps gave no answer. */
  function CompleteFrom(env: Env, s: State, job: Job, chain: seq<ModelStep>, messages: seq<Message>, last: Cause, i: nat): (State, Result)
    requires i <= |chain| && Routed(chain, s.breakers.Keys)
  {
    Complete(env, StateAt(env, s, job, chain, messages, i), job, chain[i..], messages, CauseAt(env, s, job, chain, messages, last, i))
  }

  lemma CompleteStep(env: Env, s: State, job: Job, chain: seq<ModelStep>, messages: seq<Message>, last: Cause, i: nat)
    requires i < |chain| && Routed(chain, s.breakers.Keys)
    ensures CompleteFrom(env, s, job, chain, messages, last, i)
      == var o := OutcomeAt(env, s, job, chain, messages, i);
         if o.Done? then (StateAt(env, s, job, chain, messages, i + 1), Completed(o.completion))
         else CompleteFrom(env, s, job, chain, messages, last, i + 1)
  {
    assert chain[i..][0] == chain[i] && chain[i..][1..] == chain[i + 1..];
  }

  lemma CompleteEnds(env: Env, s: State, job: Job, chain: seq<ModelStep>, messages: seq<Message>, last: Cause)
    requires Routed(chain, s.breakers.Keys)
    ensures CompleteFrom(env, s, job, chain, messages, last, 0) == Complete(env, s, job, chain, messages, last)
    ensures CompleteFrom(env, s, job, chain, messages, last, |chain|)
      == (StateAt(env, s, job, chain, messages, |chain|), Unavailable(CauseAt(env, s, job, chain, messages, last, |chain|)))
  {
    assert chain[0..] == chain;
  }

  /** A search that stops at the first answer, seen as the sequences of its outcomes, states and
      remaining results. */
  lemma {:induction false} FirstAnswer(outcomes: seq<Outcome>, states: seq<State>, results: seq<(State, Result)>, i: nat) returns (r: nat)
    requires |states| == |results| == |outcomes| + 1 && i <= |outcomes|
    requires forall j | 0 <= j < |outcomes| ::
      results[j] == if outcomes[j].Done? then (states[j + 1], Completed(outcomes[j].completion)) else results[j + 1]
    ensures i <= r <= |outcomes| && forall j | i <= j < r :: !outcomes[j].Done?
    ensures r < |outcomes| ==> outcomes[r].Done? && results[i] == (states[r + 1], Completed(outcomes[r].completion))
    ensures r == |outcomes| ==> results[i] == results[r]
    decreases |outcomes| - i
  {
    r := i;
    if i < |outcomes| && !outcomes[i].Done? {
      r := FirstAnswer(outcomes, states, results, i + 1);
    }
  }

  /** Outcomes, states and remaining results along a chain, step by step. */
  function Outcomes(env: Env, s: State, job: Job, chain: seq<ModelStep>, messages: seq<Message>): (o: seq<Outcome>)
    requires Routed(chain, s.breakers.Keys)
    ensures |o| == |chain| && forall j | 0 <= j < |o| :: o[j] == OutcomeAt(env, s, job, chain, messages, j)
  {
    seq(|chain|, j requires 0 <= j < |chain| => OutcomeAt(env, s, job, chain, messages, j))
  }

  function States(env: Env, s: State, job: Job, chain: seq<ModelStep>, messages: seq<Message>): (t: seq<State>)
    requires Routed(chain, s.breakers.Keys)
    ensures |t| == |chain| + 1 && forall j | 0 <= j < |t| :: t[j] == StateAt(env, s, job, chain, messages, j)
  {
    seq(|chain| + 1, j requires 0 <= j < |chain| + 1 => StateAt(env, s, job, chain, messages, j))
  }

  function Results(env: Env, s: State, job: Job, chain: seq<ModelStep>, messages: seq<Message>, last: Cause): (r: seq<(State, Result)>)
    requires Routed(chain, s.breakers.Keys)
    ensures |r| == |chain| + 1 && forall j | 0 <= j < |r| :: r[j] == CompleteFrom(env, s, job, chain, messages, last, j)
  {
    seq(|chain| + 1, j requires 0 <= j < |chain| + 1 => CompleteFrom(env, s, job, chain, messages, last, j))
  }

  lemma ResultStep(env: Env, s: State, job: Job, chain: seq<ModelStep>, messages: seq<Message>, last: Cause, j: nat)
    requires Routed(chain, s.breakers.Keys) && j < |chain|
    ensures var o := Outcomes(env, s, job, chain, messages)[j];
      Results(env, s, job, chain, messages, last)[j]
        == if o.Done? then (States(env, s, job, chain, messages)[j + 1], Completed(o.completion))
           else Results(env, s, job, chain, messages, last)[j + 1]
  {
    CompleteStep(env, s, job, chain, messages, last, j);
  }

  lemma FirstDone(env: Env, s: State, job: Job, chain: seq<ModelStep>, messages: seq<Message>, last: Cause) returns (r: nat)
    requires Routed(chain, s.breakers.Keys)
    ensures r <= |chain|
    ensures forall j | 0 <= j < r :: !Outcomes(env, s, job, chain, messages)[j].Done?
    ensures var result := Complete(env, s, job, chain, messages, last);
      if r < |chain|
      then Outcomes(env, s, job, chain, messages)[r].Done?
        && result == (States(env, s, job, chain, messages)[r + 1], Completed(Outcomes(env, s, job, chain, messages)[r].completion))
      else result.0 == States(env, s, job, chain, messages)[r] && result.1.Unavailable?
  {
    var outcomes := Outcomes(env, s, job, chain, messages);
    var states := States(env, s, job, chain, messages);
    var results := Results(env, s, job, chain, messages, last);
    forall j | 0 <= j < |outcomes|
      ensures results[j] == if outcomes[j].Done? then (states[j + 1], Completed(outcomes[j].completion)) else results[j + 1]
    {
      ResultStep(env, s, job, chain, messages, last, j);
    }
    r := FirstAnswer(outcomes, states, results, 0);
    CompleteEnds(env, s, job, chain, messages, last);
  }

  /** Step i can answer in the state the steps before it left behind. */
  ghost predicate UsableAt(env: Env, s: State, job: Job, chain: seq<ModelStep>, messages: seq<Message>, i: nat)
    requires i < |chain| && Routed(chain, s.breakers.Keys)
  {
    Usable(env, StateAt(env, s, job, chain, messages, i), job, chain[i], messages)
  }

  /** complete answers with the first step in order that is usable in the state the steps before it
      left behind, with the answer of its deciding attempt, and fails exactly when there is none. */
  lemma FirstUsableStepAnswers(env: Env, s: State, job: Job, chain: seq<ModelStep>, messages: seq<Message>, last: Cause) returns (i: nat)
    requires Routed(chain, s.breakers.Keys)
    ensures i <= |chain|
    ensures forall j | 0 <= j < i :: !UsableAt(env, s, job, chain, messages, j)
    ensures i < |chain| ==> UsableAt(env, s, job, chain, messages, i)
    ensures Complete(env, s, job, chain, messages, last).1.Completed? <==> i < |chain|
    ensures Complete(env, s, job, chain, messages, last).0 == StateAt(env, s, job, chain, messages, if i < |chain| then i + 1 else i)
    ensures forall k | i < |chain| && 0 <= k <= env.retries && DecidesAt(env, StateAt(env, s, job, chain, messages, i).net.calls, job, chain[i], messages, k) ::
      Complete(env, s, job, chain, messages, last).1
        == Completed(VerdictAt(env, StateAt(env, s, job, chain, messages, i).net.calls, job, chain[i], messages, k).completion)
  {
    i := FirstDone(env, s, job, chain, messages, last);
    forall j | 0 <= j < |chain|
      ensures Outcomes(env, s, job, chain, messages)[j].Done? <==> UsableAt(env, s, job, chain, messages, j)
    {
      DoneIffUsable(env, StateAt(env, s, job, chain, messages, j), job, chain[j], messages);
    }
    if i < |chain| {
      DoneIffUsable(env, StateAt(env, s, job, chain, messages, i), job, chain[i], messages);
    }
  }

  // ---- The log ----

  function Skips(rows: seq<Row>): nat {
    if rows == [] then 0
    else Skips(rows[..|rows| - 1]) + if rows[|rows| - 1].status.BudgetSkip? then 1 else 0
  }

  /** Every provider call has its own row, and the only other rows are the budget skips. */
  ghost predicate CallsAreLogged(net: Net) {
    |net.rows| == net.calls + Skips(net.rows)
  }

  lemma LoggedSkips(env: Env, net: Net, role: string, step: ModelStep, completion: Option<Completion>, status: Status)
    ensures var after := Logged(env, net, role, step, completion, status);
      |after.rows| == |net.rows| + 1 && after.calls == net.calls
      && Skips(after.rows) == Skips(net.rows) + if status.BudgetSkip? then 1 else 0
  {
    var after := Logged(env, net, role, step, completion, status);
    assert after.rows[..|net.rows|] == net.rows;
  }

  lemma {:induction false} InvokeLogsEveryCall(env: Env, net: Net, job: Job, step: ModelStep, messages: seq<Message>, left: nat)
    requires CallsAreLogged(net)
    ensures CallsAreLogged(Invoke(env, net, job, step, messages, left).0)
    decreases left
  {
    var (after, v) := Attempt(env, net, job, step, messages);
    var called := Called(net, job, step, messages);
    match v {
      case Down(status) => LoggedSkips(env, called, job.role, step, None, status);
      case BadSchema(c) => LoggedSkips(env, called, job.role, step, Some(c), SchemaError);
      case Good(c) => LoggedSkips(env, called, job.role, step, Some(c), Ok);
    }
    if v.BadSchema? && left > 0 {
      InvokeLogsEveryCall(env, after, job, step, messages + Feedback(job, v.completion.content), left - 1);
    }
  }

  /** Each step of a chain logs a row per call, one row when it is over budget, none when its
      circuit is open. */
  lemma StepLogsEveryCall(env: Env, s: State, job: Job, step: ModelStep, messages: seq<Message>)
    requires step.provider in s.breakers && CallsAreLogged(s.net)
    ensures var (after, o) := TryStep(env, s, job, step, messages);
      && CallsAreLogged(after.net)
      && (o.Skipped? ==> after.net == s.net)
      && (o.OverBudget? ==> after.net.calls == s.net.calls && |after.net.rows| == |s.net.rows| + 1)
  {
    LoggedSkips(env, s.net, job.role, step, None, BudgetSkip);
    InvokeLogsEveryCall(env, s.net, job, step, messages, env.retries);
  }

  lemma {:induction false} CompleteLogsEveryCall(env: Env, s: State, job: Job, chain: seq<ModelStep>, messages: seq<Message>, last: Cause)
    requires Routed(chain, s.breakers.Keys) && CallsAreLogged(s.net)
    ensures CallsAreLogged(Complete(env, s, job, chain, messages, last).0.net)
    decreases |chain|
  {
    if chain != [] {
      StepLogsEveryCall(env, s, job, chain[0], messages);
      var (after, o) := TryStep(env, s, job, chain[0], messages);
      if !o.Done? {
        CompleteLogsEveryCall(env, after, job, chain[1..], messages, CauseAfter(o, chain[0], last));
      }
    }
  }
}
