/** What the router's answers, failures and circuits mean outside the router (brain/llm/router.py). */
module RouterAnswers {
  import CB = CircuitBreaker
  import opened Pricing
  import opened Governors
  import opened RouterSpec

  // ---- Answers ----

  /** Call number n, to a step of the chain, was answered with c, and c is what the caller's schema asks for. */
  ghost predicate IsAnswer(env: Env, job: Job, chain: seq<ModelStep>, request: Request, n: nat, c: Completion) {
    && request.step in chain && env.AnswerTo(request, n) == Answered(c)
    && (job.schema.Some? ==> job.schema.value.valid(c.content))
  }

  lemma {:induction false} InvokeAnswer(env: Env, net: Net, job: Job, step: ModelStep, messages: seq<Message>, left: nat) returns (request: Request, n: nat)
    ensures var (after, v) := Invoke(env, net, job, step, messages, left);
      && net.calls < after.calls
      && (v.Good? ==> net.calls <= n < after.calls && IsAnswer(env, job, [step], request, n, v.completion))
    decreases left
  {
    var (after, v) := Attempt(env, net, job, step, messages);
    request, n := Request(step, messages), net.calls;
    if v.BadSchema? && left > 0 {
      request, n := InvokeAnswer(env, after, job, step, messages + Feedback(job, v.completion.content), left - 1);
    }
  }

  lemma StepAnswer(env: Env, s: State, job: Job, step: ModelStep, messages: seq<Message>) returns (request: Request, n: nat)
    requires step.provider in s.breakers
    ensures var (after, o) := TryStep(env, s, job, step, messages);
      && s.net.calls <= after.net.calls
      && (o.Done? ==> s.net.calls <= n < after.net.calls && IsAnswer(env, job, [step], request, n, o.completion))
  {
    request, n := InvokeAnswer(env, s.net, job, step, messages, env.retries);
  }

  lemma {:induction false} AnswerOf(env: Env, s: State, job: Job, chain: seq<ModelStep>, messages: seq<Message>, last: Cause) returns (request: Request, n: nat)
    requires Routed(chain, s.breakers.Keys)
    ensures var (after, r) := Complete(env, s, job, chain, messages, last);
      && s.net.calls <= after.net.calls
      && (r.Completed? ==> s.net.calls <= n < after.net.calls && IsAnswer(env, job, chain, request, n, r.completion))
    decreases |chain|
  {
    request, n := Request(ModelStep("", ""), []), 0;
    if chain != [] {
      var (after, o) := TryStep(env, s, job, chain[0], messages);
      request, n := StepAnswer(env, s, job, chain[0], messages);
      if !o.Done? {
        request, n := AnswerOf(env, after, job, chain[1..], messages, CauseAfter(o, chain[0], last));
        assert forall step | step in chain[1..] :: step in chain;
      }
    }
  }

  /** Whatever is returned is what a provider of the chain answered during this search, and meets the caller's
      schema if there is one. */
  lemma CompletedIsValid(env: Env, s: State, job: Job, chain: seq<ModelStep>, messages: seq<Message>, last: Cause) returns (request: Request, n: nat)
    requires Routed(chain, s.breakers.Keys)
    requires Complete(env, s, job, chain, messages, last).1.Completed?
    ensures var (after, r) := Complete(env, s, job, chain, messages, last);
      && s.net.calls <= n < after.net.calls && request.step in chain
      && env.AnswerTo(request, n) == Answered(r.completion)
      && (forall schema | job.schema == Some(schema) :: schema.valid(r.completion.content))
  {
    request, n := AnswerOf(env, s, job, chain, messages, last);
  }

  lemma FirstAttemptDoes(env: Env, s: State, job: Job, step: ModelStep, messages: seq<Message>, c: Completion)
    requires step.provider in s.breakers && !CircuitOpen(env, s, step) && !Blocked(env, s.net, step)
    requires env.AnswerTo(Request(step, messages), s.net.calls) == Answered(c)
    requires job.schema.None? || job.schema.value.valid(c.content)
    ensures TryStep(env, s, job, step, messages).1 == Done(c)
  {
  }

  lemma SameIndex(outcomes: seq<Outcome>, r: nat, i: nat)
    requires r <= |outcomes| && i < |outcomes| && outcomes[i].Done?
    requires forall j | 0 <= j < r :: !outcomes[j].Done?
    requires forall j | 0 <= j < i :: !outcomes[j].Done?
    requires r < |outcomes| ==> outcomes[r].Done?
    ensures r == i
  {
  }

  /** Conversely: when the steps before step i give no answer, its circuit and the budget let it through, and its
      first attempt is answered as the schema asks, or at all without one, then that answer is returned. */
  lemma FirstAttemptIsReturned(env: Env, s: State, job: Job, chain: seq<ModelStep>, messages: seq<Message>, last: Cause, i: nat, c: Completion)
    requires i < |chain| && Routed(chain, s.breakers.Keys)
    requires forall j | 0 <= j < i :: !OutcomeAt(env, s, job, chain, messages, j).Done?
    requires var at := StateAt(env, s, job, chain, messages, i);
      && !CircuitOpen(env, at, chain[i]) && !Blocked(env, at.net, chain[i])
      && env.AnswerTo(Request(chain[i], messages), at.net.calls) == Answered(c)
    requires job.schema.None? || job.schema.value.valid(c.content)
    ensures Complete(env, s, job, chain, messages, last).1 == Completed(c)
  {
    var r := FirstDone(env, s, job, chain, messages, last);
    FirstAttemptDoes(env, StateAt(env, s, job, chain, messages, i), job, chain[i], messages, c);
    SameIndex(Outcomes(env, s, job, chain, messages), r, i);
  }

  // ---- Gates ----

  /** The budget stops a step if and only if there is a budget, the model is priced at half a dollar per million
      or more for the two directions together, and the rows since midnight have reached the budget. */
  lemma BlockedIff(env: Env, net: Net, step: ModelStep)
    requires NonNegative(env.table)
    requires forall i | 0 <= i < |net.rows| :: net.rows[i].ts <= env.GateTime(|net.rows|)
    ensures Blocked(env, net, step) <==>
      && env.budget.Some?
      && (step.provider, step.model) in env.table
      && env.table[(step.provider, step.model)].input + env.table[(step.provider, step.model)].output >= 0.5
      && SpentOn(ChargesOf(net.rows), env.GateTime(|net.rows|) / 86400000000) >= env.budget.value
  {
    PaidIff(env.table, step.provider, step.model);
    TodayIsTheDay(ChargesOf(net.rows), env.GateTime(|net.rows|));
  }

  /** Why a search failed, told by its last step that was not passed over for an open circuit. */
  lemma CauseMeaning(env: Env, s: State, job: Job, chain: seq<ModelStep>, messages: seq<Message>, last: Cause, i: nat)
    requires i <= |chain| && Routed(chain, s.breakers.Keys)
    requires forall j | 0 <= j < |chain| :: !OutcomeAt(env, s, job, chain, messages, j).Done?
    requires forall j | i <= j < |chain| :: OutcomeAt(env, s, job, chain, messages, j).Skipped?
    requires i > 0 ==> !OutcomeAt(env, s, job, chain, messages, i - 1).Skipped?
    ensures Complete(env, s, job, chain, messages, last).1.Unavailable?
    ensures var cause := Complete(env, s, job, chain, messages, last).1.cause;
      if i == 0 then cause == last
      else match OutcomeAt(env, s, job, chain, messages, i - 1)
        case OverBudget => cause == BudgetSpent(chain[i - 1].provider)
        case ProviderDown => cause == ProviderFailed(chain[i - 1].provider)
        case UnusableOutput => cause == SchemaFailed(chain[i - 1].provider)
        case _ => true
  {
    var n := |chain|;
    var outcomes, results := Outcomes(env, s, job, chain, messages), Results(env, s, job, chain, messages, last);
    forall j | 0 <= j < n ensures results[j] == results[j + 1] {
      ResultStep(env, s, job, chain, messages, last, j);
    }
    AllEqual(results, 0, n);
    CompleteEnds(env, s, job, chain, messages, last);
    var causes := Causes(env, s, job, chain, messages, last);
    forall j | i <= j < n ensures causes[j] == causes[j + 1] {
      OneMoreCause(env, s, job, chain, messages, last, j);
    }
    AllEqual(causes, i, n);
    if i > 0 {
      OneMoreCause(env, s, job, chain, messages, last, i - 1);
    }
  }

  lemma {:induction false} AllEqual<T>(xs: seq<T>, i: nat, k: nat)
    requires i <= k < |xs| && forall j | i <= j < k :: xs[j] == xs[j + 1]
    ensures xs[i] == xs[k]
    decreases k - i
  {
    if i < k { AllEqual(xs, i + 1, k); }
  }

  function Causes(env: Env, s: State, job: Job, chain: seq<ModelStep>, messages: seq<Message>, last: Cause): (r: seq<Cause>)
    requires Routed(chain, s.breakers.Keys)
    ensures |r| == |chain| + 1 && forall j | 0 <= j < |r| :: r[j] == CauseAt(env, s, job, chain, messages, last, j)
  {
    seq(|chain| + 1, j requires 0 <= j < |chain| + 1 => CauseAt(env, s, job, chain, messages, last, j))
  }

  lemma OneMoreCause(env: Env, s: State, job: Job, chain: seq<ModelStep>, messages: seq<Message>, last: Cause, j: nat)
    requires j < |chain| && Routed(chain, s.breakers.Keys)
    ensures CauseAt(env, s, job, chain, messages, last, j + 1)
      == match OutcomeAt(env, s, job, chain, messages, j)
         case OverBudget => BudgetSpent(chain[j].provider)
         case ProviderDown => ProviderFailed(chain[j].provider)
         case UnusableOutput => SchemaFailed(chain[j].provider)
         case _ => CauseAt(env, s, job, chain, messages, last, j)
  {
  }

  // ---- Circuits ----

  /** What a turn of a step is to the breaker of its provider: one question, and the result of the call if there
      was one. */
  function Lived(env: Env, s: State, o: Outcome): seq<CB.Event> {
    [CB.Polled(env.Reading(s.readings))]
    + match o
      case ProviderDown => [CB.Failed(env.Reading(s.readings + 1))]
      case Done(_) => [CB.Succeeded]
      case UnusableOutput => [CB.Succeeded]
      case _ => []
  }

  lemma ReplayMore(c: CB.Config, h: seq<CB.Event>, e: CB.Event)
    ensures CB.Replay(c, h + [e]) == CB.Step(c, CB.Replay(c, h), e)
  {
    assert (h + [e])[..|h|] == h;
  }

  lemma ReplayLived(env: Env, s: State, o: Outcome, h: seq<CB.Event>)
    ensures CB.Replay(env.breaker, h + Lived(env, s, o)) == AfterTurn(env, s, o, CB.Replay(env.breaker, h))
  {
    var poll := CB.Polled(env.Reading(s.readings));
    ReplayMore(env.breaker, h, poll);
    match o {
      case ProviderDown =>
        ReplayMore(env.breaker, h + [poll], CB.Failed(env.Reading(s.readings + 1)));
        assert h + Lived(env, s, o) == h + [poll] + [CB.Failed(env.Reading(s.readings + 1))];
      case Done(_) =>
        ReplayMore(env.breaker, h + [poll], CB.Succeeded);
        assert h + Lived(env, s, o) == h + [poll] + [CB.Succeeded];
      case UnusableOutput =>
        ReplayMore(env.breaker, h + [poll], CB.Succeeded);
        assert h + Lived(env, s, o) == h + [poll] + [CB.Succeeded];
      case _ =>
        assert h + Lived(env, s, o) == h + [poll];
    }
  }

  /** A turn on the breaker's own fields. */
  function AfterTurn(env: Env, s: State, o: Outcome, f: CB.Fields): CB.Fields {
    var observed := CB.Step(env.breaker, f, CB.Polled(env.Reading(s.readings)));
    match o
    case ProviderDown => CB.Step(env.breaker, observed, CB.Failed(env.Reading(s.readings + 1)))
    case Done(_) => CB.Step(env.breaker, observed, CB.Succeeded)
    case UnusableOutput => CB.Step(env.breaker, observed, CB.Succeeded)
    case _ => observed
  }

  lemma TurnOnBreakers(env: Env, s: State, job: Job, step: ModelStep, messages: seq<Message>)
    requires step.provider in s.breakers
    ensures var (after, o) := TryStep(env, s, job, step, messages);
      && after.breakers == s.breakers[step.provider := AfterTurn(env, s, o, s.breakers[step.provider])]
      && after.readings == s.readings + (if o.ProviderDown? then 2 else 1)
  {
  }

  /** A turn changes no other provider's breaker, and takes its own through the question and the call's result: an
      answer, usable or not, is a success, and only a provider that is down a failure. */
  lemma BreakerFollowsCalls(env: Env, s: State, job: Job, step: ModelStep, messages: seq<Message>, h: seq<CB.Event>)
    requires step.provider in s.breakers && s.breakers[step.provider] == CB.Replay(env.breaker, h)
    ensures var (after, o) := TryStep(env, s, job, step, messages);
      && after.breakers == s.breakers[step.provider := CB.Replay(env.breaker, h + Lived(env, s, o))]
      && after.readings == s.readings + (if o.ProviderDown? then 2 else 1)
  {
    TurnOnBreakers(env, s, job, step, messages);
    ReplayLived(env, s, TryStep(env, s, job, step, messages).1, h);
  }

  /** Everything a provider's breaker has lived through after a turn, and after a search. */
  function Longer(env: Env, s: State, step: ModelStep, o: Outcome, p: string, h: seq<CB.Event>): seq<CB.Event> {
    if step.provider == p then h + Lived(env, s, o) else h
  }

  function History(env: Env, s: State, job: Job, chain: seq<ModelStep>, messages: seq<Message>, p: string, h: seq<CB.Event>): seq<CB.Event>
    requires Routed(chain, s.breakers.Keys)
    decreases |chain|
  {
    if chain == [] then h
    else
      var (after, o) := TryStep(env, s, job, chain[0], messages);
      var more := Longer(env, s, chain[0], o, p, h);
      if o.Done? then more else History(env, after, job, chain[1..], messages, p, more)
  }

  lemma TurnFollowsHistory(env: Env, s: State, job: Job, step: ModelStep, messages: seq<Message>, p: string, h: seq<CB.Event>)
    requires step.provider in s.breakers && p in s.breakers && s.breakers[p] == CB.Replay(env.breaker, h)
    ensures var (after, o) := TryStep(env, s, job, step, messages);
      p in after.breakers && after.breakers[p] == CB.Replay(env.breaker, Longer(env, s, step, o, p, h))
  {
    if step.provider == p {
      BreakerFollowsCalls(env, s, job, step, messages, h);
    }
  }

  /** After any search every breaker is what its own provider's questions and results make of it. */
  lemma {:induction false} SearchFollowsHistory(env: Env, s: State, job: Job, chain: seq<ModelStep>, messages: seq<Message>, last: Cause, p: string, h: seq<CB.Event>)
    requires Routed(chain, s.breakers.Keys) && p in s.breakers && s.breakers[p] == CB.Replay(env.breaker, h)
    ensures var after := Complete(env, s, job, chain, messages, last).0;
      p in after.breakers && after.breakers[p] == CB.Replay(env.breaker, History(env, s, job, chain, messages, p, h))
    decreases |chain|
  {
    if chain != [] {
      var (after, o) := TryStep(env, s, job, chain[0], messages);
      TurnFollowsHistory(env, s, job, chain[0], messages, p, h);
      if !o.Done? {
        SearchFollowsHistory(env, after, job, chain[1..], messages, CauseAfter(o, chain[0], last), p, Longer(env, s, chain[0], o, p, h));
      }
    }
  }

  /** So a step is passed over if and only if the failures of its provider since its last answer have reached the
      threshold and the last of them is less than the timeout ago. */
  lemma PassedOverIff(env: Env, s: State, step: ModelStep, h: seq<CB.Event>)
    requires step.provider in s.breakers && s.breakers[step.provider] == CB.Replay(env.breaker, h)
    requires CB.Ticking(h, env.Reading(s.readings))
    ensures CircuitOpen(env, s, step) <==>
      CB.FailuresSinceSuccess(h) >= CB.Limit(env.breaker) && env.Reading(s.readings) - CB.LastFailure(h) < env.breaker.resetTimeout
  {
    CB.AllowsIffHistoryAllows(env.breaker, h, env.Reading(s.readings));
  }
}
