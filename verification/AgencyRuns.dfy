/** What whole runs of the cycle come to: nights and their verdicts, failing stages, and the feedback from
    ACT to the next APPRAISE (brain/cycle.py, brain/sleep.py). */
module AgencyRuns {
  import opened Dispatch
  import Sleep
  import opened Agency

  // ---- Nights ----

  /** The verdict of a wake check that reaches the cycle: the one at startup, or that of a night whose row
      was opened and closed. */
  function VerdictOf(c: Config, s: Fields, e: Event): Option<bool> {
    match e
    case TickOf(_) => None
    case WakeCheck(ok) => Some(ok)
    case EveningOf(evening) =>
      if CheckMade(c, s, evening) && evening.night.closes then Some(CheckPasses(evening.night)) else None
  }

  /** A sleep gets as far as its wake check. */
  predicate CheckMade(c: Config, s: Fields, e: Evening) {
    TriggerOf(c, s, e).Some? && e.announced && e.night.opens
  }

  predicate CheckPasses(n: Sleep.Night) {
    Sleep.SelfCheck !in n.failing && n.check.ok
  }

  /** A verdict, or what was there before when there is none. */
  function Taking(verdict: Option<bool>, before: bool): bool {
    if verdict.Some? then verdict.value else before
  }

  /** Agency follows exactly the verdicts that reach the cycle. */
  lemma AgencyFollowsVerdicts(c: Config, s: Fields, e: Event)
    ensures Step(c, s, e).fullAgency == Taking(VerdictOf(c, s, e), s.fullAgency)
  {
  }

  /** A check that is made and fails during a night suspends agency exactly if the night's row can be closed
      or agency was off already. */
  lemma FailedCheckSuspendsIff(c: Config, s: Fields, e: Evening)
    requires CheckMade(c, s, e) && !CheckPasses(e.night)
    ensures !Step(c, s, EveningOf(e)).fullAgency <==> e.night.closes || !s.fullAgency
  {
    AgencyFollowsVerdicts(c, s, EveningOf(e));
  }

  /** Agency before event j, and the verdict that event j brings. */
  function AgencyAt(c: Config, events: seq<Event>, j: nat): bool
    requires j <= |events|
  {
    Reached(c, events[..j]).fullAgency
  }

  function VerdictAt(c: Config, events: seq<Event>, j: nat): Option<bool>
    requires j < |events|
  {
    VerdictOf(c, Reached(c, events[..j]), events[j])
  }

  function Agencies(c: Config, events: seq<Event>): (a: seq<bool>)
    ensures |a| == |events| + 1 && forall j | 0 <= j < |a| :: a[j] == AgencyAt(c, events, j)
  {
    seq(|events| + 1, j requires 0 <= j < |events| + 1 => AgencyAt(c, events, j))
  }

  function Verdicts(c: Config, events: seq<Event>): (v: seq<Option<bool>>)
    ensures |v| == |events| && forall j | 0 <= j < |v| :: v[j] == VerdictAt(c, events, j)
  {
    seq(|events|, j requires 0 <= j < |events| => VerdictAt(c, events, j))
  }

  lemma AgencyStep(c: Config, events: seq<Event>, j: nat)
    requires j < |events|
    ensures AgencyAt(c, events, j + 1) == Taking(VerdictAt(c, events, j), AgencyAt(c, events, j))
  {
    assert events[..j + 1][..j] == events[..j];
    AgencyFollowsVerdicts(c, Reached(c, events[..j]), events[j]);
  }

  lemma {:induction false} OffUntilPassed(agency: seq<bool>, verdicts: seq<Option<bool>>, i: nat, k: nat)
    requires |agency| == |verdicts| + 1 && i < k <= |verdicts| && verdicts[i] == Some(false)
    requires forall j | 0 <= j < |verdicts| :: agency[j + 1] == Taking(verdicts[j], agency[j])
    requires forall j | i < j < k :: verdicts[j] != Some(true)
    ensures !agency[k]
    decreases k
  {
    if i < k - 1 {
      OffUntilPassed(agency, verdicts, i, k - 1);
    }
  }

  /** From a failed wake check that reached the cycle up to the next passing one that does, no tick does
      anything: no action, internal or through a tool, and not even a proposal is vetted. */
  lemma StillWhileSuspended(c: Config, events: seq<Event>, i: nat, k: nat)
    requires i < k < |events| && VerdictAt(c, events, i) == Some(false)
    requires forall j | i < j < k :: VerdictAt(c, events, j) != Some(true)
    requires events[k].TickOf?
    ensures TickDeeds(c, AgencyAt(c, events, k), events[k].input) == []
  {
    var agency, verdicts := Agencies(c, events), Verdicts(c, events);
    forall j | 0 <= j < |verdicts|
      ensures agency[j + 1] == Taking(verdicts[j], agency[j])
    {
      AgencyStep(c, events, j);
    }
    OffUntilPassed(agency, verdicts, i, k);
    OneTick(c, false, events[k].input);
  }

  /** A night whose check fails and whose row cannot be closed: the verdict is lost, and the next tick acts. */
  lemma LostVerdict(c: Config, e: DriveEvent)
    ensures var night := EveningOf(Evening(true, true, Sleep.Night(true, {}, Sleep.CheckResult(false, []), false)));
      var events := [night, TickOf(Reflecting(e))];
      && CheckMade(c, BORN, night.evening) && !CheckPasses(night.evening.night)
      && Reached(c, events).log == [Entry(1, ActedInside("reflect"))]
  {
    var night := EveningOf(Evening(true, true, Sleep.Night(true, {}, Sleep.CheckResult(false, []), false)));
    var events := [night, TickOf(Reflecting(e))];
    assert events[..1] == [night] && events[..1][..0] == [] && events[..2] == events;
    assert Reached(c, events[..1]).fullAgency && Reached(c, events[..1]).log == [];
  }

  // ---- Failing stages ----

  predicate IsEarly(stage: Stage) {
    stage.Perceive? || stage.Attend? || stage.Recall? || stage.Narrate?
  }

  lemma PlainlyErrors(ctx: Context, plain: Stage, input: Input, stage: Stage)
    ensures stage in Plainly(ctx, plain, input).errors <==> stage in ctx.errors || (stage == plain && stage in input.failing)
    ensures Plainly(ctx, plain, input) == ctx.(errors := Plainly(ctx, plain, input).errors)
  {
  }

  lemma EarlyErrors(input: Input, stage: Stage)
    ensures stage in Early(input).errors <==>
      (stage.Appraise? && !input.appraisal.Appraised?) || (IsEarly(stage) && stage in input.failing)
    ensures Early(input) == BLANK.(errors := Early(input).errors)
  {
    var c0 := Plainly(BLANK, Perceive, input);
    var c1 := Appraising(c0, input);
    var c2 := Plainly(c1, Attend, input);
    var c3 := Plainly(c2, Recall, input);
    PlainlyErrors(BLANK, Perceive, input, stage);
    assert stage in c1.errors <==> stage in c0.errors || (stage.Appraise? && !input.appraisal.Appraised?);
    PlainlyErrors(c1, Attend, input, stage);
    PlainlyErrors(c2, Recall, input, stage);
    PlainlyErrors(c3, Narrate, input, stage);
  }

  lemma MiddleErrors(c: Config, ctx: Context, agency: bool, input: Input, stage: Stage)
    requires ctx.action.None? && ctx.vetted.None? && Deliberate !in ctx.errors && Check !in ctx.errors
    ensures var after := Checked(c, Deliberated(ctx, agency, input), agency, input);
      stage in after.errors <==>
        || stage in ctx.errors
        || (stage.Deliberate? && agency && (input.plan.None? || (input.plan.value.goal.Some? && !input.announced)))
        || (stage.Check? && agency && c.belt.Some? && after.action.Some? && after.action.value.tool.Some? && after.vetted.None?)
  {
  }

  lemma LateErrors(c: Config, ctx: Context, agency: bool, input: Input, stage: Stage)
    ensures stage in Finished(c, ctx, agency, input).errors <==>
      || stage in ctx.errors
      || (stage.Act? && ActFails(c, ctx, agency, input))
      || ((stage.Learn? || stage.State?) && stage in input.failing)
  {
    var acted := if ActFails(c, ctx, agency, input) then Failed(ctx, Act) else ctx;
    assert stage in acted.errors <==> stage in ctx.errors || (stage.Act? && ActFails(c, ctx, agency, input));
  }

  /** Whether a stage of the tick failed, stage by stage as the stages themselves are written: a plain one
      when it raised, APPRAISE when its drive step or anything after it raised, DELIBERATE when it raised or could
      not announce its goal, CHECK when the proposal was not vetted, ACT when its action failed. */
  predicate Fails(c: Config, agency: bool, input: Input, stage: Stage) {
    var ctx := Prepared(c, agency, input);
    match stage
    case Appraise => !input.appraisal.Appraised?
    case Deliberate => agency && (input.plan.None? || (input.plan.value.goal.Some? && !input.announced))
    case Check => agency && c.belt.Some? && ctx.action.Some? && ctx.action.value.tool.Some? && ctx.vetted.None?
    case Act => ActFails(c, ctx, agency, input)
    case _ => stage in input.failing
  }

  /** A tick reports exactly the stages that failed. */
  lemma ErrorsAreTheFailures(c: Config, agency: bool, input: Input, stage: Stage)
    ensures stage in Finished(c, Prepared(c, agency, input), agency, input).errors <==> Fails(c, agency, input, stage)
  {
    EarlyErrors(input, stage);
    EarlyErrors(input, Deliberate);
    EarlyErrors(input, Check);
    MiddleErrors(c, Early(input), agency, input, stage);
    LateErrors(c, Prepared(c, agency, input), agency, input, stage);
  }

  /** ACT fails exactly if, with agency, it gets to an action and that raises: an internal one when deliberation or the
      announcement does, a vetted tool action when its body, the audit, the broadcast or the settling does. */
  lemma ActFailsIff(c: Config, agency: bool, input: Input)
    ensures ActFails(c, Prepared(c, agency, input), agency, input) <==>
      && agency && input.plan.Some? && input.plan.value.goal.Some? && input.plan.value.action.Some?
      && var action := input.plan.value.action.value;
         if action.tool.None? then input.internal.None? || !input.internalAnnounced
         else
           && c.belt.Some?
           && var v := Vet(c.belt.value, Proposal(action), input.judge);
           && v.Vetted?
           && ((v.vetted.verdict.allowed && input.weather.run.None?) || !input.weather.auditWorks || !input.weather.broadcastWorks || !input.settles)
  {
    Choice(c, agency, input);
  }

  /** A tick counts as degraded exactly if it reports some stage. */
  lemma DegradedIff(c: Config, s: Fields, input: Input)
    ensures var errors := Finished(c, Prepared(c, s.fullAgency, input), s.fullAgency, input).errors;
      AfterTick(c, s, input).degradedTicks == s.degradedTicks + if exists stage :: stage in errors then 1 else 0
  {
    var errors := Finished(c, Prepared(c, s.fullAgency, input), s.fullAgency, input).errors;
    assert errors != [] ==> errors[0] in errors;
  }

  /** A night that ends in a report forgets the degraded ticks and takes over the report's verdict; one that is not
      entered changes nothing, and one without a report only the sleep cycle. */
  lemma NightMeaning(c: Config, s: Fields, e: Evening)
    ensures var trigger := Sleep.TriggerFor(s.sleep, e.energyUrge, s.tick, c.everyTicks);
      var after := AfterEvening(c, s, e);
      && (trigger.None? || !e.announced ==> after == s)
      && (trigger.Some? && e.announced ==>
            var (asleep, r) := Sleep.AfterSleep(s.sleep, trigger.value, e.night);
            && after.sleep == asleep && after.pending == s.pending
            && (r.Woke? ==> after.degradedTicks == 0 && after.fullAgency == r.report.selfCheckOk)
            && (!r.Woke? ==> after == s.(sleep := asleep)))
  {
  }

  function Rank(stage: Stage): nat {
    match stage
    case Perceive => 0 case Appraise => 1 case Attend => 2 case Recall => 3 case Narrate => 4
    case Deliberate => 5 case Check => 6 case Act => 7 case Learn => 8 case State => 9
  }

  /** The stages come one after the other, all before rank n. */
  ghost predicate Rising(errors: seq<Stage>, n: nat) {
    && (forall i | 0 <= i < |errors| :: Rank(errors[i]) < n)
    && forall i, j | 0 <= i < j < |errors| :: Rank(errors[i]) < Rank(errors[j])
  }

  lemma OneMoreRising(ctx: Context, stage: Stage, n: nat)
    requires Rising(ctx.errors, n) && n <= Rank(stage)
    ensures Rising(ctx.errors, Rank(stage) + 1) && Rising(Failed(ctx, stage).errors, Rank(stage) + 1)
  {
  }

  lemma PlainlyRising(ctx: Context, stage: Stage, input: Input)
    requires Rising(ctx.errors, Rank(stage))
    ensures Rising(Plainly(ctx, stage, input).errors, Rank(stage) + 1)
  {
    OneMoreRising(ctx, stage, Rank(stage));
  }

  lemma EarlyRising(input: Input)
    ensures Rising(Early(input).errors, 5)
  {
    var c0 := Plainly(BLANK, Perceive, input);
    var c1 := Appraising(c0, input);
    var c2 := Plainly(c1, Attend, input);
    PlainlyRising(BLANK, Perceive, input);
    OneMoreRising(c0, Appraise, 1);
    PlainlyRising(c1, Attend, input);
    LastEarlyRising(c2, input);
  }

  lemma LastEarlyRising(ctx: Context, input: Input)
    requires Rising(ctx.errors, 3)
    ensures Rising(Plainly(Plainly(ctx, Recall, input), Narrate, input).errors, 5)
  {
    PlainlyRising(ctx, Recall, input);
    PlainlyRising(Plainly(ctx, Recall, input), Narrate, input);
  }

  lemma MiddleRising(c: Config, ctx: Context, agency: bool, input: Input)
    requires Rising(ctx.errors, 5)
    ensures Rising(Checked(c, Deliberated(ctx, agency, input), agency, input).errors, 7)
  {
    var planned := Deliberated(ctx, agency, input);
    OneMoreRising(ctx, Deliberate, 5);
    assert planned.errors == ctx.errors || planned.errors == Failed(ctx, Deliberate).errors;
    OneMoreRising(planned, Check, 6);
  }

  lemma LateRising(c: Config, ctx: Context, agency: bool, input: Input)
    requires Rising(ctx.errors, 7)
    ensures Rising(Finished(c, ctx, agency, input).errors, 10)
  {
    var acted := if ActFails(c, ctx, agency, input) then Failed(ctx, Act) else ctx;
    OneMoreRising(ctx, Act, 7);
    PlainlyRising(acted, Learn, input);
    PlainlyRising(Plainly(acted, Learn, input), State, input);
  }

  /** No failure is reported twice, and failures are reported in the order of the pipeline. */
  lemma ErrorsComeInOrder(c: Config, agency: bool, input: Input)
    ensures Rising(Finished(c, Prepared(c, agency, input), agency, input).errors, 10)
  {
    EarlyRising(input);
    MiddleRising(c, Early(input), agency, input);
    LateRising(c, Prepared(c, agency, input), agency, input);
  }

  predicate SameChoice(a: Context, b: Context) {
    a.goal == b.goal && a.action == b.action && a.vetted == b.vetted
  }

  lemma ChoiceIgnoresErrors(c: Config, a: Context, b: Context, agency: bool, input: Input, calm: Input)
    requires SameChoice(a, b) && calm == input.(failing := {}, appraisal := Appraised)
    ensures SameChoice(Checked(c, Deliberated(a, agency, input), agency, input), Checked(c, Deliberated(b, agency, calm), agency, calm))
  {
  }

  lemma DeedsIgnoreErrors(c: Config, a: Context, b: Context, agency: bool, input: Input, calm: Input)
    requires SameChoice(a, b) && calm == input.(failing := {}, appraisal := Appraised)
    ensures DeedsOf(c, a, agency, input) == DeedsOf(c, b, agency, calm)
    ensures Eased(c, a, agency, input) == Eased(c, b, agency, calm)
  {
  }

  /** Plain stages that fail neither start, stop nor change an action or what it eases. */
  lemma PlainFailuresAreIsolated(c: Config, agency: bool, input: Input)
    ensures var calm := input.(failing := {}, appraisal := Appraised);
      && TickDeeds(c, agency, input) == TickDeeds(c, agency, calm)
      && Eased(c, Prepared(c, agency, input), agency, input) == Eased(c, Prepared(c, agency, calm), agency, calm)
  {
    var calm := input.(failing := {}, appraisal := Appraised);
    EarlyErrors(input, Act);
    EarlyErrors(calm, Act);
    ChoiceIgnoresErrors(c, Early(input), Early(calm), agency, input, calm);
    DeedsIgnoreErrors(c, Prepared(c, agency, input), Prepared(c, agency, calm), agency, input, calm);
  }

  // ---- Feedback ----

  /** What a tick plans is what its stages hand on: the goal, the action, and the vetting of a tool action. */
  lemma Choice(c: Config, agency: bool, input: Input)
    ensures var ctx := Prepared(c, agency, input);
      if agency && input.plan.Some? then
        && ctx.goal == input.plan.value.goal && ctx.action == input.plan.value.action
        && ctx.vetted == if c.belt.None? || ctx.action.None? || ctx.action.value.tool.None? then None
           else
             var v := Vet(c.belt.value, Proposal(ctx.action.value), input.judge);
             if v.Vetted? then Some(v.vetted) else None
      else ctx.goal.None? && ctx.action.None? && ctx.vetted.None?
  {
    EarlyErrors(input, Act);
  }

  /** An internal action that gets through to the end and eases something. */
  predicate InsideEases(input: Input) {
    input.internal.Some? && input.internal.value != [] && input.internalAnnounced
  }

  /** A tool action that is allowed, succeeds, is recorded, announced and settled, and is remembered if it is a
      page read, for a goal whose source has something to ease. */
  predicate ToolEases(c: Config, goal: Goal, action: Action, input: Input)
    requires action.tool.Some?
  {
    && c.belt.Some?
    && var v := Vet(c.belt.value, Proposal(action), input.judge);
    && v.Vetted? && v.vetted.verdict.allowed
    && input.weather.run.Some? && input.weather.run.value.success && input.weather.auditWorks && input.weather.broadcastWorks
    && input.settles && (action.tool.value in c.webReadTools ==> input.remembered)
    && c.satisfaction(goal.source) != []
  }

  /** A tick eases something exactly if, with agency, it planned an action for a goal and that action got
      through to the very end: acting alone does not ease. */
  lemma EasesIff(c: Config, agency: bool, input: Input)
    ensures Eased(c, Prepared(c, agency, input), agency, input) != [] <==>
      && agency && input.plan.Some? && input.plan.value.goal.Some? && input.plan.value.action.Some?
      && var goal, action := input.plan.value.goal.value, input.plan.value.action.value;
         if action.tool.None? then InsideEases(input) else ToolEases(c, goal, action, input)
    ensures Eased(c, Prepared(c, agency, input), agency, input) != [] ==>
      Eased(c, Prepared(c, agency, input), agency, input)
        == if input.plan.value.action.value.tool.None? then input.internal.value else c.satisfaction(input.plan.value.goal.value.source)
  {
    Choice(c, agency, input);
  }

  /** A vetoed or failed tool action eases nothing, nor does a page that was read and not remembered. */
  lemma OnlySuccessEases(c: Config, agency: bool, input: Input)
    ensures var ctx := Prepared(c, agency, input);
      Eased(c, ctx, agency, input) != [] ==>
        && agency && ctx.action.Some?
        && (ctx.action.value.tool.Some? ==>
             && ctx.vetted.Some? && ctx.vetted.value.verdict.allowed
             && input.weather.run.Some? && input.weather.run.value.success
             && (ctx.action.value.tool.value in c.webReadTools ==> input.remembered))
  {
    VettedIsForThisAction(c, agency, input);
  }

  /** What one event of a run eases. */
  function EasedBy(c: Config, s: Fields, e: Event): seq<DriveEvent> {
    match e
    case TickOf(input) => Eased(c, Prepared(c, s.fullAgency, input), s.fullAgency, input)
    case _ => []
  }

  /** Everything the ticks of a run eased, in order. */
  function EasedIn(c: Config, events: seq<Event>): seq<DriveEvent> {
    if events == [] then []
    else EasedIn(c, events[..|events| - 1]) + EasedBy(c, Reached(c, events[..|events| - 1]), events[|events| - 1])
  }

  /** What one event does with the outcomes. */
  lemma FeedbackStep(c: Config, s: Fields, e: Event)
    ensures var t := Step(c, s, e);
      if e.TickOf? then
        && t.pending == EasedBy(c, s, e)
        && t.appraised == s.appraised + (if e.input.appraisal.StepRaises? then [] else s.pending)
        && t.lost == s.lost + (if e.input.appraisal.StepRaises? then s.pending else [])
      else t.pending == s.pending && t.appraised == s.appraised && t.lost == s.lost
  {
  }

  /** What waits before event m, and what event i eases. */
  function PendingAt(c: Config, events: seq<Event>, m: nat): seq<DriveEvent>
    requires m <= |events|
  {
    Reached(c, events[..m]).pending
  }

  function EasedAt(c: Config, events: seq<Event>, i: nat): seq<DriveEvent>
    requires i < |events|
  {
    EasedBy(c, Reached(c, events[..i]), events[i])
  }

  lemma PendingStep(c: Config, events: seq<Event>, m: nat)
    requires m < |events|
    ensures PendingAt(c, events, m + 1) == if events[m].TickOf? then EasedAt(c, events, m) else PendingAt(c, events, m)
  {
    assert events[..m + 1][..m] == events[..m];
    FeedbackStep(c, Reached(c, events[..m]), events[m]);
  }

  lemma {:induction false} WaitsFor<T>(waiting: seq<T>, i: nat, m: nat)
    requires i < m < |waiting| && forall k | i < k < m :: waiting[k + 1] == waiting[k]
    ensures waiting[m] == waiting[i + 1]
  {
    if i < m - 1 {
      WaitsFor(waiting, i, m - 1);
      assert waiting[(m - 1) + 1] == waiting[m - 1];
    }
  }

  /** Outcomes wait for the next tick. */
  lemma OutcomesWait(c: Config, events: seq<Event>, i: nat, m: nat)
    requires i < m <= |events| && events[i].TickOf? && forall k | i < k < m :: !events[k].TickOf?
    ensures PendingAt(c, events, m) == EasedAt(c, events, i)
  {
    var waiting := seq(|events| + 1, k requires 0 <= k < |events| + 1 => PendingAt(c, events, k));
    forall k | i < k < m ensures waiting[k + 1] == waiting[k] {
      PendingStep(c, events, k);
    }
    PendingStep(c, events, i);
    WaitsFor(waiting, i, m);
  }

  /** What a tick eased is collected by the next tick's APPRAISE, all of it and in order, and reaches the
      drives exactly if that one's drive step returns; otherwise it is lost. */
  lemma OutcomeIsAppraisedIff(c: Config, events: seq<Event>, i: nat, j: nat)
    requires i < j < |events| && events[i].TickOf? && events[j].TickOf? && forall k | i < k < j :: !events[k].TickOf?
    ensures var eased, before, after := EasedAt(c, events, i), Reached(c, events[..j]), Reached(c, events[..j + 1]);
      if events[j].input.appraisal.StepRaises? then after.appraised == before.appraised && after.lost == before.lost + eased
      else after.appraised == before.appraised + eased && after.lost == before.lost
  {
    OutcomesWait(c, events, i, j);
    CollectStep(c, events, j);
  }

  lemma CollectStep(c: Config, events: seq<Event>, j: nat)
    requires j < |events| && events[j].TickOf?
    ensures var before, after := Reached(c, events[..j]), Reached(c, events[..j + 1]);
      if events[j].input.appraisal.StepRaises?
      then after.appraised == before.appraised && after.lost == before.lost + PendingAt(c, events, j)
      else after.appraised == before.appraised + PendingAt(c, events, j) && after.lost == before.lost
  {
    assert events[..j + 1][..j] == events[..j];
    FeedbackStep(c, Reached(c, events[..j]), events[j]);
  }

  /** Nothing is appraised twice and nothing else is: every outcome is pending, appraised or lost, once. */
  lemma {:induction false} OutcomesAreConserved(c: Config, events: seq<Event>)
    ensures var s := Reached(c, events);
      multiset(s.appraised) + multiset(s.lost) + multiset(s.pending) == multiset(EasedIn(c, events))
  {
    if events != [] {
      var before, e := Reached(c, events[..|events| - 1]), events[|events| - 1];
      OutcomesAreConserved(c, events[..|events| - 1]);
      FeedbackStep(c, before, e);
    }
  }

  /** When every drive step returns, everything eased before the last tick has been appraised, in order. */
  lemma {:induction false} AllAppraisedWhenNothingRaises(c: Config, events: seq<Event>)
    requires forall k | 0 <= k < |events| && events[k].TickOf? :: !events[k].input.appraisal.StepRaises?
    ensures var s := Reached(c, events); s.appraised + s.pending == EasedIn(c, events) && s.lost == []
  {
    if events != [] {
      AllAppraisedWhenNothingRaises(c, events[..|events| - 1]);
      FeedbackStep(c, Reached(c, events[..|events| - 1]), events[|events| - 1]);
    }
  }

  /** A tick on which nothing is planned and nothing fails. */
  function Quiet(): Input {
    Input({}, Appraised, Some(Plan(None, None)), true, action => None, Weather(None, true, true), true, true, None, true)
  }

  /** A tick that reflects and eases something by it. */
  function Reflecting(e: DriveEvent): Input {
    Quiet().(plan := Some(Plan(Some(Goal(None, "curiosity")), Some(Action("reflect", None, None, map[])))), internal := Some([e]))
  }

  /** An outcome is lost when the drive step of the next tick raises. */
  lemma OutcomeLost(c: Config, e: DriveEvent)
    ensures var events := [TickOf(Reflecting(e)), TickOf(Quiet().(appraisal := StepRaises))];
      var s := Reached(c, events);
      s.appraised == [] && s.pending == [] && s.lost == [e]
  {
    var events := [TickOf(Reflecting(e)), TickOf(Quiet().(appraisal := StepRaises))];
    assert events[..1] == [events[0]] && events[..1][..0] == [] && events[..2] == events;
    assert Reached(c, events[..1]).pending == [e];
  }
}
