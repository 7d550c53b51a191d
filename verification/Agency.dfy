/** The cognitive cycle's agency: plan, check, act, and the gate that a wake check opens and shuts
    (brain/cycle.py). */
module Agency {
  import opened Dispatch
  import CredentialRules
  import Sleep

  /** An action planned for a goal; one that names a tool goes through the dispatch. */
  datatype Action = Action(kind: string, goalId: Option<nat>, tool: Option<string>, args: Args)

  datatype Goal = Goal(id: Option<nat>, source: string)

  datatype DriveEvent = DriveEvent(kind: string)

  datatype Stage = Perceive | Appraise | Attend | Recall | Narrate | Deliberate | Check | Act | Learn | State

  /** How APPRAISE goes: it empties the queue of outcomes first; then the drive step may raise, or
      something after it. */
  datatype Appraisal = Appraised | StepRaises | FailsLater

  /** How the parts of one tick behave: which of the plain stages raise, how APPRAISE goes, what
      deliberation plans (or that it raises) and whether announcing the goal works, how the Conscience judges, how a commit
      and the settling after it go, whether a page that was read could be remembered, and what an
      internal action returns (or that it raises) and whether it could be announced. */
  datatype Input = Input(
    failing: set<Stage>, appraisal: Appraisal,
    plan: Option<Plan>, announced: bool,
    judge: ProposedAction -> Judgement,
    weather: Weather, remembered: bool, settles: bool,
    internal: Option<seq<DriveEvent>>, internalAnnounced: bool)

  datatype Plan = Plan(goal: Option<Goal>, action: Option<Action>)

  /** The dispatch's belt (none when no dispatch is wired), the tools that read the web, what settling a
      goal satisfies, and the number of ticks after which a sleep is scheduled. */
  datatype Config = Config(belt: Option<Registry>, webReadTools: set<string>, satisfaction: string -> seq<DriveEvent>, everyTicks: int)

  /** What happens in the world, as seen from outside. */
  datatype Deed =
    | Judged(vetted: VettedAction)
    | Did(effect: Effect)
    | ActedInside(kind: string)
    | WakeChecked(ok: bool)

  datatype Entry = Entry(tick: nat, deed: Deed)

  /** A tick's context after DELIBERATE, CHECK and ACT. */
  datatype Context = Context(goal: Option<Goal>, action: Option<Action>, vetted: Option<VettedAction>, errors: seq<Stage>)

  const BLANK := Context(None, None, None, [])

  function Failed(ctx: Context, stage: Stage): Context {
    ctx.(errors := ctx.errors + [stage])
  }

  function Plainly(ctx: Context, stage: Stage, input: Input): Context {
    if stage in input.failing then Failed(ctx, stage) else ctx
  }

  function Appraising(ctx: Context, input: Input): Context {
    if input.appraisal.Appraised? then ctx else Failed(ctx, Appraise)
  }

  function Deliberated(ctx: Context, agency: bool, input: Input): Context {
    if !agency then ctx
    else match input.plan
      case None => Failed(ctx, Deliberate)
      case Some(plan) =>
        var planned := ctx.(goal := plan.goal, action := plan.action);
        if plan.goal.Some? && !input.announced then Failed(planned, Deliberate) else planned
  }

  function Proposal(action: Action): ProposedAction
    requires action.tool.Some?
  {
    ProposedAction(action.tool.value, action.args, action.goalId, "safe")
  }

  function Checked(c: Config, ctx: Context, agency: bool, input: Input): Context {
    if !agency || c.belt.None? || ctx.action.None? || ctx.action.value.tool.None? then ctx
    else
      var v := Vet(c.belt.value, Proposal(ctx.action.value), input.judge);
      if v.Vetted? then ctx.(vetted := Some(v.vetted)) else Failed(ctx, Check)
  }

  function Deeds(effects: seq<Effect>): (d: seq<Deed>)
    ensures |d| == |effects| && forall i | 0 <= i < |d| :: d[i] == Did(effects[i])
  {
    seq(|effects|, i requires 0 <= i < |effects| => Did(effects[i]))
  }

  /** The action of ACT: whether a tool runs, something internal runs, or nothing. */
  datatype Kind = Still | ThroughDispatch(vetted: VettedAction, goal: Goal) | Inside(action: Action)

  function KindOf(c: Config, ctx: Context, agency: bool): Kind {
    if !agency || ctx.action.None? || ctx.goal.None? then Still
    else if ctx.action.value.tool.None? then Inside(ctx.action.value)
    else if c.belt.None? || ctx.vetted.None? then Still
    else ThroughDispatch(ctx.vetted.value, ctx.goal.value)
  }

  /** Whether a committed action eased the drive behind it. */
  predicate Succeeded(c: Config, v: VettedAction, tool: string, input: Input) {
    var outcome := Committed(v, input.weather);
    && outcome.Some? && outcome.value.ran && outcome.value.result.Some? && outcome.value.result.value.success
    && (tool in c.webReadTools ==> input.remembered)
  }

  function ActDeeds(c: Config, ctx: Context, agency: bool, input: Input): seq<Deed> {
    match KindOf(c, ctx, agency)
    case Still => []
    case ThroughDispatch(v, _) => Deeds(Effects(v, input.weather))
    case Inside(action) => [ActedInside(action.kind)]
  }

  function Eased(c: Config, ctx: Context, agency: bool, input: Input): seq<DriveEvent> {
    match KindOf(c, ctx, agency)
    case Still => []
    case ThroughDispatch(v, goal) =>
      if Committed(v, input.weather).Some? && input.settles && Succeeded(c, v, v.action.tool, input) then c.satisfaction(goal.source) else []
    case Inside(_) => if input.internal.Some? && input.internalAnnounced then input.internal.value else []
  }

  predicate ActFails(c: Config, ctx: Context, agency: bool, input: Input) {
    match KindOf(c, ctx, agency)
    case Still => false
    case ThroughDispatch(v, _) => Committed(v, input.weather).None? || !input.settles
    case Inside(_) => input.internal.None? || !input.internalAnnounced
  }

  function Early(input: Input): Context {
    Plainly(Plainly(Plainly(Appraising(Plainly(BLANK, Perceive, input), input), Attend, input), Recall, input), Narrate, input)
  }

  /** Everything up to ACT. */
  function Prepared(c: Config, agency: bool, input: Input): Context {
    Checked(c, Deliberated(Early(input), agency, input), agency, input)
  }

  /** Everything from ACT on. */
  function Finished(c: Config, ctx: Context, agency: bool, input: Input): Context {
    var acted := if ActFails(c, ctx, agency, input) then Failed(ctx, Act) else ctx;
    Plainly(Plainly(acted, Learn, input), State, input)
  }

  function JudgedDeeds(ctx: Context): seq<Deed> {
    if ctx.vetted.Some? then [Judged(ctx.vetted.value)] else []
  }

  function Tagged(tick: nat, deeds: seq<Deed>): (e: seq<Entry>)
    ensures |e| == |deeds| && forall i | 0 <= i < |e| :: e[i] == Entry(tick, deeds[i])
  {
    seq(|deeds|, i requires 0 <= i < |deeds| => Entry(tick, deeds[i]))
  }

  /** The cycle's fields; the outcomes that have reached the drives and those that never will; the log
      of what happened; and the sleep cycle. */
  datatype Fields = Fields(
    tick: nat, fullAgency: bool, degradedTicks: nat, pending: seq<DriveEvent>,
    appraised: seq<DriveEvent>, lost: seq<DriveEvent>, log: seq<Entry>, sleep: Sleep.State)

  const BORN := Fields(0, true, 0, [], [], [], [], Sleep.State(false, [], []))

  function DeedsOf(c: Config, ctx: Context, agency: bool, input: Input): seq<Deed> {
    JudgedDeeds(ctx) + ActDeeds(c, ctx, agency, input)
  }

  function TickDeeds(c: Config, agency: bool, input: Input): seq<Deed> {
    DeedsOf(c, Prepared(c, agency, input), agency, input)
  }

  /** What becomes of the queue: it is emptied before the drive step, and lost with it. */
  function Begun(s: Fields, input: Input): Fields {
    if input.appraisal.StepRaises? then s.(tick := s.tick + 1, pending := [], lost := s.lost + s.pending)
    else s.(tick := s.tick + 1, pending := [], appraised := s.appraised + s.pending)
  }

  function Concluded(c: Config, s: Fields, ctx: Context, input: Input): Fields {
    s.(pending := s.pending + Eased(c, ctx, s.fullAgency, input),
       log := s.log + Tagged(s.tick, DeedsOf(c, ctx, s.fullAgency, input)),
       degradedTicks := s.degradedTicks + if Finished(c, ctx, s.fullAgency, input).errors == [] then 0 else 1)
  }

  function AfterTick(c: Config, s: Fields, input: Input): Fields {
    Concluded(c, Begun(s, input), Prepared(c, s.fullAgency, input), input)
  }

  function AfterWakeCheck(s: Fields, ok: bool): Fields {
    s.(fullAgency := ok, log := s.log + [Entry(s.tick, WakeChecked(ok))])
  }

  /** Waking from a sleep takes over the check's verdict; a sleep that was busy or raised changes
      nothing. */
  function AfterSleeping(s: Fields, r: Sleep.Result): Fields {
    if r.Woke? then AfterWakeCheck(s.(degradedTicks := 0), r.report.selfCheckOk) else s
  }

  /** Between two ticks: whether the last urges ask for sleep, whether falling asleep can be announced,
      and how the collaborators behave if it comes to that. */
  datatype Evening = Evening(energyUrge: bool, announced: bool, night: Sleep.Night)

  function TriggerOf(c: Config, s: Fields, e: Evening): CredentialRules.Option<Sleep.Trigger> {
    Sleep.TriggerFor(s.sleep, e.energyUrge, s.tick, c.everyTicks)
  }

  function AfterEvening(c: Config, s: Fields, e: Evening): Fields {
    var trigger := TriggerOf(c, s, e);
    if trigger.None? || !e.announced then s
    else
      var (z, r) := Sleep.AfterSleep(s.sleep, trigger.value, e.night);
      AfterSleeping(s.(sleep := z), r)
  }

  // ---- The cycle ----

  class CognitiveCycle {
    const config: Config
    const dispatch: EffectorDispatch
    const sleeper: Sleep.SleepCycle
    var tick: nat
    var fullAgency: bool
    var degradedTicks: nat
    var pending: seq<DriveEvent>
    ghost var appraised: seq<DriveEvent>
    ghost var lost: seq<DriveEvent>
    ghost var log: seq<Entry>

    /** The belt is the dispatch's own. */
    ghost predicate Valid() {
      config.belt.Some? ==> config.belt.value == dispatch.registry
    }

    constructor (config: Config, dispatch: EffectorDispatch, sleeper: Sleep.SleepCycle)
      requires config.belt.Some? ==> config.belt.value == dispatch.registry
      ensures Valid() && Now() == BORN.(sleep := sleeper.Now())
      ensures this.config == config && this.dispatch == dispatch && this.sleeper == sleeper
    {
      this.config, this.dispatch, this.sleeper := config, dispatch, sleeper;
      tick, fullAgency, degradedTicks, pending, appraised, lost, log := 0, true, 0, [], [], [], [];
    }

    ghost function Now(): Fields
      reads this, sleeper
    {
      Fields(tick, fullAgency, degradedTicks, pending, appraised, lost, log, sleeper.Now())
    }

    method PlainStage(ctx: Context, stage: Stage, input: Input) returns (after: Context)
      ensures after == Plainly(ctx, stage, input)
    {
      after := if stage in input.failing then Failed(ctx, stage) else ctx;
    }

    method DeliberateStage(ctx: Context, input: Input) returns (after: Context)
      ensures after == Deliberated(ctx, fullAgency, input)
    {
      after := ctx;
      if !fullAgency {
        return;
      }
      if input.plan.None? {
        return Failed(ctx, Deliberate);
      }
      after := ctx.(goal := input.plan.value.goal, action := input.plan.value.action);
      if after.goal.Some? && !input.announced {
        after := Failed(after, Deliberate);
      }
    }

    method CheckStage(ctx: Context, input: Input) returns (after: Context)
      requires Valid()
      ensures after == Checked(config, ctx, fullAgency, input)
    {
      after := ctx;
      if !fullAgency || config.belt.None? || ctx.action.None? || ctx.action.value.tool.None? {
        return;
      }
      var v := dispatch.VetAction(Proposal(ctx.action.value), input.judge);
      if v.Vetted? {
        after := ctx.(vetted := Some(v.vetted));
      } else {
        after := Failed(ctx, Check);
      }
    }

    method ActStage(ctx: Context, input: Input) returns (after: Context)
      requires Valid() && (ctx.vetted.Some? ==> ctx.action.Some? && ctx.action.value.tool == Some(ctx.vetted.value.action.tool))
      modifies this`pending, this`log, dispatch
      ensures after == if ActFails(config, ctx, fullAgency, input) then Failed(ctx, Act) else ctx
      ensures pending == old(pending) + Eased(config, ctx, fullAgency, input)
      ensures log == old(log) + Tagged(tick, ActDeeds(config, ctx, fullAgency, input))
    {
      after := ctx;
      if !fullAgency || ctx.action.None? || ctx.goal.None? {
        return;
      }
      var failed := false;
      if ctx.action.value.tool.Some? {
        failed := DispatchToolAction(ctx, input);
      } else {
        failed := ActInside(ctx, input);
      }
      if failed {
        after := Failed(ctx, Act);
      }
    }

    method ActInside(ctx: Context, input: Input) returns (failed: bool)
      requires KindOf(config, ctx, fullAgency).Inside?
      modifies this`pending, this`log
      ensures failed == ActFails(config, ctx, fullAgency, input)
      ensures pending == old(pending) + Eased(config, ctx, fullAgency, input)
      ensures log == old(log) + Tagged(tick, ActDeeds(config, ctx, fullAgency, input))
    {
      log := log + Tagged(tick, [ActedInside(ctx.action.value.kind)]);
      failed := true;
      if input.internal.Some? && input.internalAnnounced {
        pending := pending + input.internal.value;
        failed := false;
      }
    }

    method DispatchToolAction(ctx: Context, input: Input) returns (failed: bool)
      requires Valid() && fullAgency && ctx.goal.Some? && ctx.action.Some? && ctx.action.value.tool.Some?
      requires ctx.vetted.Some? ==> ctx.action.value.tool == Some(ctx.vetted.value.action.tool)
      modifies this`pending, this`log, dispatch
      ensures failed == ActFails(config, ctx, fullAgency, input)
      ensures pending == old(pending) + Eased(config, ctx, fullAgency, input)
      ensures log == old(log) + Tagged(tick, ActDeeds(config, ctx, fullAgency, input))
    {
      if config.belt.None? || ctx.vetted.None? {
        return false;
      }
      var outcome := dispatch.Commit(ctx.vetted.value, input.weather);
      log := log + Tagged(tick, Deeds(Effects(ctx.vetted.value, input.weather)));
      if outcome.None? {
        return true;
      }
      var success := outcome.value.ran && outcome.value.result.Some? && outcome.value.result.value.success;
      if success && ctx.action.value.tool.value in config.webReadTools {
        success := input.remembered;
      }
      failed := !input.settles;
      if !failed && success {
        pending := pending + config.satisfaction(ctx.goal.value.source);
      }
    }

    /** The stages up to CHECK. */
    method Prepare(input: Input) returns (ctx: Context)
      requires Valid()
      ensures ctx == Prepared(config, fullAgency, input)
    {
      ctx := PlainStage(BLANK, Perceive, input);
      if !input.appraisal.Appraised? {
        ctx := Failed(ctx, Appraise);
      }
      ctx := PlainStage(ctx, Attend, input);
      ctx := PlainStage(ctx, Recall, input);
      ctx := PlainStage(ctx, Narrate, input);
      ctx := DeliberateStage(ctx, input);
      ctx := CheckStage(ctx, input);
    }

    /** The stages from ACT on. */
    method Finish(ctx: Context, input: Input) returns (errors: seq<Stage>)
      requires Valid() && (ctx.vetted.Some? ==> ctx.action.Some? && ctx.action.value.tool == Some(ctx.vetted.value.action.tool))
      modifies this, dispatch
      ensures errors == Finished(config, ctx, fullAgency, input).errors
      ensures Now() == Concluded(config, old(Now()), ctx, input)
    {
      TagsAdd(log, tick, JudgedDeeds(ctx), ActDeeds(config, ctx, fullAgency, input));
      log := log + Tagged(tick, JudgedDeeds(ctx));
      var done := ActStage(ctx, input);
      done := PlainStage(done, Learn, input);
      done := PlainStage(done, State, input);
      if done.errors != [] {
        degradedTicks := degradedTicks + 1;
      }
      errors := done.errors;
    }

    /** The count goes up, and APPRAISE takes the queue before it steps the drives. */
    method Begin(input: Input)
      modifies this
      ensures Now() == Begun(old(Now()), input)
    {
      tick := tick + 1;
      var events := pending;
      pending := [];
      if input.appraisal.StepRaises? {
        lost := lost + events;
      } else {
        appraised := appraised + events;
      }
    }

    method Tick(input: Input) returns (errors: seq<Stage>)
      requires Valid()
      modifies this, dispatch
      ensures Now() == AfterTick(config, old(Now()), input)
      ensures errors == Finished(config, Prepared(config, fullAgency, input), fullAgency, input).errors
    {
      Begin(input);
      var ctx := Prepare(input);
      VettedIsForThisAction(config, fullAgency, input);
      errors := Finish(ctx, input);
    }

    method ApplyWakeCheck(ok: bool)
      modifies this
      ensures Now() == AfterWakeCheck(old(Now()), ok)
    {
      fullAgency := ok;
      log := log + [Entry(tick, WakeChecked(ok))];
    }

    /** Between ticks: sleep if something triggers it, and let the report decide about agency. */
    method MaybeSleep(e: Evening)
      modifies this, sleeper
      ensures Now() == AfterEvening(config, old(Now()), e)
    {
      var trigger := Sleep.TriggerFor(sleeper.Now(), e.energyUrge, tick, config.everyTicks);
      if trigger.None? || !e.announced {
        return;
      }
      var r := sleeper.Sleep(trigger.value, e.night);
      if r.Woke? {
        degradedTicks := 0;
        ApplyWakeCheck(r.report.selfCheckOk);
      }
    }
  }

  lemma TagsAdd(log: seq<Entry>, tick: nat, xs: seq<Deed>, ys: seq<Deed>)
    ensures log + Tagged(tick, xs) + Tagged(tick, ys) == log + Tagged(tick, xs + ys)
  {
  }

  /** A vetted action is the planned one: same tool, same arguments, judged by the Conscience. */
  lemma VettedIsForThisAction(c: Config, agency: bool, input: Input)
    ensures var ctx := Prepared(c, agency, input);
      ctx.vetted.Some? ==>
        && agency && c.belt.Some? && ctx.action.Some? && ctx.action.value.tool == Some(ctx.vetted.value.action.tool)
        && ctx.action.value.args == ctx.vetted.value.action.args && ctx.action.value.goalId == ctx.vetted.value.action.goalId
        && input.judge(ctx.vetted.value.action) == Some(ctx.vetted.value.verdict)
  {
  }

  // ---- Runs ----

  datatype Event = TickOf(input: Input) | EveningOf(evening: Evening) | WakeCheck(ok: bool)

  function Step(c: Config, s: Fields, e: Event): Fields {
    match e
    case TickOf(input) => AfterTick(c, s, input)
    case EveningOf(evening) => AfterEvening(c, s, evening)
    case WakeCheck(ok) => AfterWakeCheck(s, ok)
  }

  function Reached(c: Config, events: seq<Event>): Fields {
    if events == [] then BORN else Step(c, Reached(c, events[..|events| - 1]), events[|events| - 1])
  }

  /** Full agency as the log tells it: the verdict of the last wake check, and true before the first. */
  function AgencyIn(log: seq<Entry>): bool {
    if log == [] then true
    else match log[|log| - 1].deed
      case WakeChecked(ok) => ok
      case _ => AgencyIn(log[..|log| - 1])
  }

  predicate IsAction(d: Deed) {
    d.ActedInside? || (d.Did? && d.effect.Ran?)
  }

  /** Entry i, if it executes a tool body, follows an allowing verdict on that very action in the same
      tick. */
  ghost predicate Licensed(log: seq<Entry>, i: nat)
    requires i < |log|
  {
    log[i].deed.Did? && log[i].deed.effect.Ran? ==>
      exists j :: 0 <= j < i && Licenses(log[j], log[i].tick, log[i].deed.effect)
  }

  predicate Licenses(e: Entry, tick: nat, effect: Effect)
    requires effect.Ran?
  {
    && e.tick == tick && e.deed.Judged? && e.deed.vetted.verdict.allowed
    && e.deed.vetted.action.tool == effect.tool && e.deed.vetted.action.args == effect.args
  }

  /** Nothing without agency; a tool body only after its verdict; one action at most. */
  ghost predicate WellBehaved(deeds: seq<Deed>, agency: bool) {
    && (!agency ==> deeds == [])
    && (forall i | 0 <= i < |deeds| :: !deeds[i].WakeChecked?)
    && (forall i, tick | 0 <= i < |deeds| && deeds[i].Did? && deeds[i].effect.Ran? ::
         i > 0 && Licenses(Entry(tick, deeds[0]), tick, deeds[i].effect))
    && (forall i, j | 0 <= i < j < |deeds| :: !(IsAction(deeds[i]) && IsAction(deeds[j])))
  }

  lemma EffectsShape(v: VettedAction, w: Weather, i: nat)
    requires i < |Effects(v, w)| && Effects(v, w)[i].Ran?
    ensures i == 0 && v.verdict.allowed && Effects(v, w)[0] == Ran(v.action.tool, v.action.args)
  {
  }

  lemma ThroughDispatchBehaves(v: VettedAction, w: Weather)
    ensures WellBehaved([Judged(v)] + Deeds(Effects(v, w)), true)
  {
    var effects := Effects(v, w);
    var deeds := [Judged(v)] + Deeds(effects);
    forall i | 0 < i < |deeds| && deeds[i].effect.Ran?
      ensures i == 1 && forall tick :: Licenses(Entry(tick, deeds[0]), tick, deeds[i].effect)
    {
      EffectsShape(v, w, i - 1);
    }
  }

  lemma OneContext(c: Config, ctx: Context, agency: bool, input: Input)
    requires ctx.vetted.Some? ==> agency && ctx.action.Some? && ctx.action.value.tool.Some?
    ensures WellBehaved(DeedsOf(c, ctx, agency, input), agency)
  {
    match KindOf(c, ctx, agency)
    case Still =>
    case ThroughDispatch(v, _) => ThroughDispatchBehaves(v, input.weather);
    case Inside(action) => assert DeedsOf(c, ctx, agency, input) == [ActedInside(action.kind)];
  }

  lemma OneTick(c: Config, agency: bool, input: Input)
    ensures WellBehaved(TickDeeds(c, agency, input), agency)
  {
    VettedIsForThisAction(c, agency, input);
    OneContext(c, Prepared(c, agency, input), agency, input);
  }

  lemma {:induction false} AgencyAfter(log: seq<Entry>, tick: nat, deeds: seq<Deed>)
    requires forall i | 0 <= i < |deeds| :: !deeds[i].WakeChecked?
    ensures AgencyIn(log + Tagged(tick, deeds)) == AgencyIn(log)
  {
    if deeds == [] {
      assert log + Tagged(tick, deeds) == log;
    } else {
      var init := deeds[..|deeds| - 1];
      AgencyAfter(log, tick, init);
      var all := log + Tagged(tick, deeds);
      assert all[..|all| - 1] == log + Tagged(tick, init);
    }
  }

  ghost predicate AllLicensed(log: seq<Entry>) {
    forall i | 0 <= i < |log| :: Licensed(log, i)
  }

  ghost predicate OnlyWithAgency(log: seq<Entry>) {
    forall i | 0 <= i < |log| && IsAction(log[i].deed) :: AgencyIn(log[..i])
  }

  ghost predicate OneActionPerTick(log: seq<Entry>) {
    forall i, j | 0 <= i < j < |log| && IsAction(log[i].deed) && IsAction(log[j].deed) :: log[i].tick != log[j].tick
  }

  ghost predicate UpTo(log: seq<Entry>, tick: nat) {
    forall i | 0 <= i < |log| :: log[i].tick <= tick
  }

  lemma StaysLicensed(log: seq<Entry>, tick: nat, deeds: seq<Deed>, agency: bool)
    requires AllLicensed(log) && WellBehaved(deeds, agency)
    ensures AllLicensed(log + Tagged(tick, deeds))
  {
    var all := log + Tagged(tick, deeds);
    forall i | 0 <= i < |all| ensures Licensed(all, i) {
      if i < |log| {
        assert Licensed(log, i);
        if all[i].deed.Did? && all[i].deed.effect.Ran? {
          var j :| 0 <= j < i && Licenses(log[j], log[i].tick, log[i].deed.effect);
          assert Licenses(all[j], all[i].tick, all[i].deed.effect);
        }
      } else if all[i].deed.Did? && all[i].deed.effect.Ran? {
        assert Licenses(Entry(tick, deeds[0]), tick, deeds[i - |log|].effect);
        assert Licenses(all[|log|], all[i].tick, all[i].deed.effect);
      }
    }
  }

  lemma StaysWithAgency(log: seq<Entry>, tick: nat, deeds: seq<Deed>)
    requires OnlyWithAgency(log) && WellBehaved(deeds, AgencyIn(log))
    ensures OnlyWithAgency(log + Tagged(tick, deeds))
  {
    var all := log + Tagged(tick, deeds);
    forall i | 0 <= i < |all| && IsAction(all[i].deed) ensures AgencyIn(all[..i]) {
      if i < |log| {
        assert all[..i] == log[..i];
      } else {
        assert all[..i] == log + Tagged(tick, deeds[..i - |log|]);
        AgencyAfter(log, tick, deeds[..i - |log|]);
      }
    }
  }

  lemma StaysSingle(log: seq<Entry>, before: nat, deeds: seq<Deed>, agency: bool)
    requires OneActionPerTick(log) && UpTo(log, before) && WellBehaved(deeds, agency)
    ensures OneActionPerTick(log + Tagged(before + 1, deeds)) && UpTo(log + Tagged(before + 1, deeds), before + 1)
  {
    var all := log + Tagged(before + 1, deeds);
    forall i, j | 0 <= i < j < |all| ensures !(IsAction(all[i].deed) && IsAction(all[j].deed)) || all[i].tick != all[j].tick {
      if i >= |log| {
        assert !(IsAction(deeds[i - |log|]) && IsAction(deeds[j - |log|]));
      }
    }
  }

  /** What every run keeps. */
  ghost predicate Sound(s: Fields) {
    s.fullAgency == AgencyIn(s.log) && AllLicensed(s.log) && OnlyWithAgency(s.log) && OneActionPerTick(s.log) && UpTo(s.log, s.tick)
  }

  lemma DeedsKeepSound(s: Fields, t: Fields, deeds: seq<Deed>)
    requires Sound(s) && WellBehaved(deeds, s.fullAgency)
    requires t.fullAgency == s.fullAgency && t.tick == s.tick + 1 && t.log == s.log + Tagged(s.tick + 1, deeds)
    ensures Sound(t)
  {
    AgencyAfter(s.log, s.tick + 1, deeds);
    StaysLicensed(s.log, s.tick + 1, deeds, s.fullAgency);
    StaysWithAgency(s.log, s.tick + 1, deeds);
    StaysSingle(s.log, s.tick, deeds, s.fullAgency);
  }

  lemma TickIsSound(c: Config, s: Fields, input: Input)
    requires Sound(s)
    ensures Sound(AfterTick(c, s, input))
  {
    OneTick(c, s.fullAgency, input);
    DeedsKeepSound(s, AfterTick(c, s, input), TickDeeds(c, s.fullAgency, input));
  }

  lemma WakeCheckIsSound(s: Fields, ok: bool)
    requires Sound(s)
    ensures Sound(AfterWakeCheck(s, ok))
  {
    var e := Entry(s.tick, WakeChecked(ok));
    var all := s.log + [e];
    assert all[..|s.log|] == s.log;
    forall i | 0 <= i < |all| ensures Licensed(all, i) {
      if i < |s.log| && all[i].deed.Did? && all[i].deed.effect.Ran? {
        assert Licensed(s.log, i);
        var j :| 0 <= j < i && Licenses(s.log[j], s.log[i].tick, s.log[i].deed.effect);
        assert Licenses(all[j], all[i].tick, all[i].deed.effect);
      }
    }
    forall i | 0 <= i < |all| && IsAction(all[i].deed) ensures AgencyIn(all[..i]) {
      assert all[..i] == s.log[..i];
    }
  }

  lemma EveningIsSound(c: Config, s: Fields, e: Evening)
    requires Sound(s)
    ensures Sound(AfterEvening(c, s, e))
  {
    var trigger := TriggerOf(c, s, e);
    if trigger.Some? && e.announced {
      var (z, r) := Sleep.AfterSleep(s.sleep, trigger.value, e.night);
      if r.Woke? {
        WakeCheckIsSound(s.(sleep := z, degradedTicks := 0), r.report.selfCheckOk);
      }
    }
  }

  lemma {:induction false} RunIsSound(c: Config, events: seq<Event>)
    ensures Sound(Reached(c, events))
  {
    if events != [] {
      var s, e := Reached(c, events[..|events| - 1]), events[|events| - 1];
      RunIsSound(c, events[..|events| - 1]);
      match e
      case TickOf(input) => TickIsSound(c, s, input);
      case EveningOf(evening) => EveningIsSound(c, s, evening);
      case WakeCheck(ok) => WakeCheckIsSound(s, ok);
    }
  }

  /** In every run, whatever fails: a tool body executes only after the Conscience allowed that very
      tool with those very arguments in the same tick, at most one action happens in a tick, and none,
      internal or through a tool, without full agency as the wake checks that reached the cycle gave it. */
  lemma NoUnvettedAction(c: Config, events: seq<Event>)
    ensures var log := Reached(c, events).log;
      AllLicensed(log) && OneActionPerTick(log) && OnlyWithAgency(log)
  {
    RunIsSound(c, events);
  }
}
