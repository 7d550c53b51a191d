/** The router itself: shared breakers, a growing log, and a search down a chain
    (brain/llm/router.py). */
module Router {
  import opened CircuitBreaker
  import opened Pricing
  import opened Governors
  import Spec = RouterSpec
  import opened RouterSpec
  import RouterAnswers
  import RouterLog

  class LLMRouter {
    const env: Env
    const roles: map<string, seq<ModelStep>>
    const breakers: map<string, CircuitBreaker>
    var rows: seq<Row>
    var calls: nat
    var readings: nat
    ghost var sent: seq<Sent>

    /** Each provider has a breaker of its own. */
    ghost predicate Valid() {
      && (forall p | p in breakers :: breakers[p].config == env.breaker)
      && (forall p, q | p in breakers && q in breakers && p != q :: breakers[p] != breakers[q])
    }

    constructor (env: Env, roles: map<string, seq<ModelStep>>, breakers: map<string, CircuitBreaker>)
      ensures this.env == env && this.roles == roles && this.breakers == breakers
      ensures rows == [] && calls == 0 && readings == 0 && sent == []
    {
      this.env, this.roles, this.breakers := env, roles, breakers;
      rows, calls, readings, sent := [], 0, 0, [];
    }

    ghost function Log(): Net
      reads this
    {
      Net(rows, calls, sent)
    }

    function Circuits(): (m: map<string, Fields>)
      reads breakers.Values
      ensures m.Keys == breakers.Keys
    {
      map p | p in breakers :: breakers[p].Now()
    }

    ghost function Snapshot(): State
      reads this, breakers.Values
    {
      State(Log(), Circuits(), readings)
    }

    method Record(role: string, step: ModelStep, completion: Option<Completion>, status: Status)
      modifies this`rows
      ensures Log() == Logged(env, old(Log()), role, step, completion, status)
    {
      var promptTokens := if completion.Some? then completion.value.promptTokens else 0;
      var completionTokens := if completion.Some? then completion.value.completionTokens else 0;
      var cost := EstimateCost(env.table, step.provider, step.model, promptTokens, completionTokens);
      rows := rows + [Row(role, step, promptTokens, completionTokens, status, cost, env.RowTime(|rows|))];
    }

    /** One provider call, validated and logged exactly once. */
    method Attempt(job: Job, step: ModelStep, messages: seq<Message>) returns (v: Verdict)
      modifies this`rows, this`calls, this`sent
      ensures (Log(), v) == Spec.Attempt(env, old(Log()), job, step, messages)
      ensures var answer := env.AnswerTo(Request(step, messages), old(calls));
        && (v.Down? <==> !answer.Answered?) && (!v.Down? ==> v.completion == answer.completion)
        && (v.Good? <==> answer.Answered? && (job.schema.Some? ==> job.schema.value.valid(answer.completion.content)))
        && |rows| == |old(rows)| + 1 && calls == old(calls) + 1 && sent == old(sent) + [Sent(job, Request(step, messages))]
        && rows[|old(rows)|].cost
             == if answer.Answered?
                then EstimateCost(env.table, step.provider, step.model, answer.completion.promptTokens, answer.completion.completionTokens)
                else 0.0
    {
      RouterLog.NoTokensNoCost(env.table, step.provider, step.model);
      var answer := env.AnswerTo(Request(step, messages), calls);
      calls := calls + 1;
      sent := sent + [Sent(job, Request(step, messages))];
      match answer {
        case TimedOut =>
          Record(job.role, step, None, Timeout);
          v := Down(Timeout);
        case Errored =>
          Record(job.role, step, None, Error);
          v := Down(Error);
        case Answered(completion) =>
          if job.schema.Some? && !job.schema.value.valid(completion.content) {
            Record(job.role, step, Some(completion), SchemaError);
            v := BadSchema(completion);
          } else {
            Record(job.role, step, Some(completion), Ok);
            v := Good(completion);
          }
      }
    }

    method InvokeWithFeedback(job: Job, step: ModelStep, messages: seq<Message>) returns (v: Verdict)
      modifies this`rows, this`calls, this`sent
      ensures (Log(), v) == Invoke(env, old(Log()), job, step, messages, env.retries)
    {
      var attemptMessages := messages;
      var attempt := 0;
      v := Attempt(job, step, attemptMessages);
      while v.BadSchema? && attempt < env.retries
        invariant attempt <= env.retries
        invariant Invoke(env, old(Log()), job, step, messages, env.retries)
          == if v.BadSchema? && attempt < env.retries
             then Invoke(env, Log(), job, step, attemptMessages + Feedback(job, v.completion.content), env.retries - attempt - 1)
             else (Log(), v)
      {
        attemptMessages := attemptMessages + Feedback(job, v.completion.content);
        attempt := attempt + 1;
        v := Attempt(job, step, attemptMessages);
      }
    }

    method BudgetBlocks(step: ModelStep) returns (blocked: bool)
      ensures blocked == Blocked(env, Log(), step)
    {
      if env.budget.None? {
        return false;
      }
      if EstimateCost(env.table, step.provider, step.model, 1, 1) <= 0.0 {
        return false;
      }
      blocked := IsExhausted(ChargesOf(rows), env.budget.value, env.GateTime(|rows|));
    }

    /** The breaker of the step's provider is asked; nobody else's changes. */
    method AskBreaker(step: ModelStep) returns (open: bool)
      requires Valid() && step.provider in breakers
      modifies this`readings, breakers[step.provider]
      ensures Snapshot() == Asked(env, old(Snapshot()), step)
      ensures open == CircuitOpen(env, old(Snapshot()), step)
    {
      var breaker := breakers[step.provider];
      var ok := breaker.Allow(env.Reading(readings));
      readings := readings + 1;
      open := !ok;
    }

    /** The result is reported to the breaker of the step's provider. */
    method TellBreaker(step: ModelStep, v: Verdict)
      requires Valid() && step.provider in breakers
      modifies this`readings, breakers[step.provider]
      ensures Snapshot() == Settled(env, old(Snapshot()), step, old(Log()), v)
    {
      var breaker := breakers[step.provider];
      if v.Down? {
        breaker.RecordFailure(env.Reading(readings));
        readings := readings + 1;
      } else {
        breaker.RecordSuccess();
      }
    }

    method Call(job: Job, step: ModelStep, messages: seq<Message>) returns (v: Verdict)
      requires Valid() && step.provider in breakers
      modifies this`rows, this`calls, this`sent, this`readings, breakers[step.provider]
      ensures var (net, verdict) := Invoke(env, old(Log()), job, step, messages, env.retries);
        v == verdict && Snapshot() == Settled(env, old(Snapshot()), step, net, verdict)
    {
      v := InvokeWithFeedback(job, step, messages);
      TellBreaker(step, v);
    }

    method TryStep(job: Job, step: ModelStep, messages: seq<Message>) returns (o: Outcome)
      requires Valid() && step.provider in breakers
      modifies this`rows, this`calls, this`sent, this`readings, breakers[step.provider]
      ensures (Snapshot(), o) == Spec.TryStep(env, old(Snapshot()), job, step, messages)
    {
      var open := AskBreaker(step);
      if open {
        return Skipped;
      }
      var blocked := BudgetBlocks(step);
      if blocked {
        Record(job.role, step, None, BudgetSkip);
        return OverBudget;
      }
      var v := Call(job, step, messages);
      o := OutcomeOf(v);
    }

    /** complete: the search of the specification, on shared breakers updated in place. */
    method Complete(job: Job, messages: seq<Message>) returns (r: Option<Result>)
      requires Valid()
      requires forall role | role in roles :: Routed(roles[role], breakers.Keys)
      modifies this, breakers.Values
      ensures r.None? <==> job.role !in roles && "default" !in roles
      ensures r.None? ==> Snapshot() == old(Snapshot())
      ensures r.Some? ==>
        (Snapshot(), r.value)
          == Spec.Complete(env, old(Snapshot()), job, roles[if job.role in roles then job.role else "default"], messages, NoCause)
      ensures r.Some? && r.value.Completed? ==>
        && (job.schema.Some? ==> job.schema.value.valid(r.value.completion.content))
        && exists request, n :: old(calls) <= n < calls && env.AnswerTo(request, n) == Answered(r.value.completion)
    {
      var route := if job.role in roles then job.role else "default";
      if route !in roles {
        return None;
      }
      ghost var before := Snapshot();
      var result := Search(job, roles[route], messages);
      if result.Completed? {
        ghost var request, n := RouterAnswers.CompletedIsValid(env, before, job, roles[route], messages, NoCause);
      }
      r := Some(result);
    }

    method Search(job: Job, chain: seq<ModelStep>, messages: seq<Message>) returns (r: Result)
      requires Valid() && Routed(chain, breakers.Keys)
      modifies this, breakers.Values
      ensures (Snapshot(), r) == Spec.Complete(env, old(Snapshot()), job, chain, messages, NoCause)
    {
      var last := NoCause;
      for i := 0 to |chain|
        invariant Spec.Complete(env, Snapshot(), job, chain[i..], messages, last)
          == Spec.Complete(env, old(Snapshot()), job, chain, messages, NoCause)
      {
        assert chain[i..][0] == chain[i] && chain[i..][1..] == chain[i + 1..];
        var o := TryStep(job, chain[i], messages);
        if o.Done? {
          return Completed(o.completion);
        }
        last := CauseAfter(o, chain[i], last);
      }
      r := Unavailable(last);
    }
  }

  /** A breaker of its own for every provider, all closed. */
  method NewBreakers(config: Config, providers: set<string>) returns (breakers: map<string, CircuitBreaker>)
    ensures breakers.Keys == providers && fresh(breakers.Values)
    ensures forall p | p in providers :: breakers[p].config == config && breakers[p].Now() == FRESH
    ensures forall p, q | p in providers && q in providers && p != q :: breakers[p] != breakers[q]
  {
    breakers := map[];
    var todo := providers;
    while todo != {}
      invariant todo <= providers && breakers.Keys == providers - todo
      invariant forall p | p in breakers :: fresh(breakers[p]) && breakers[p].config == config && breakers[p].Now() == FRESH
      invariant forall p, q | p in breakers && q in breakers && p != q :: breakers[p] != breakers[q]
      decreases todo
    {
      var provider :| provider in todo;
      todo := todo - {provider};
      var breaker := new CircuitBreaker(config);
      breakers := breakers[provider := breaker];
    }
  }

  predicate KnownProviders(chain: seq<ModelStep>, providers: set<string>) {
    chain == [] || (chain[|chain| - 1].provider in providers && KnownProviders(chain[..|chain| - 1], providers))
  }

  lemma {:induction false} KnownIsRouted(chain: seq<ModelStep>, providers: set<string>)
    ensures KnownProviders(chain, providers) <==> Routed(chain, providers)
  {
    if chain != [] {
      var n := |chain| - 1;
      KnownIsRouted(chain[..n], providers);
      assert chain == chain[..n] + [chain[n]];
    }
  }

  /** Building a router: one breaker a provider, and no router at all when a role routes to a provider
      there is none of. */
  method Build(env: Env, providers: set<string>, roles: map<string, seq<ModelStep>>) returns (router: LLMRouter?)
    ensures router == null <==> exists role :: role in roles && !Routed(roles[role], providers)
    ensures router != null ==>
      && fresh(router) && router.Valid() && router.env == env && router.roles == roles && router.breakers.Keys == providers
      && router.Snapshot() == State(Net([], 0, []), map p | p in providers :: FRESH, 0)
  {
    var breakers := NewBreakers(env.breaker, providers);
    forall role | role in roles ensures KnownProviders(roles[role], providers) <==> Routed(roles[role], providers) {
      KnownIsRouted(roles[role], providers);
    }
    if forall role | role in roles :: KnownProviders(roles[role], providers) {
      router := new LLMRouter(env, roles, breakers);
    } else {
      router := null;
    }
  }
}
