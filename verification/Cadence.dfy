/** Deliberation inside the cycle: what a tick plans for the active goal, and whether carrying it out
    moves the cadence clock (brain/agents/deliberation.py, brain/cycle.py). */
module Cadence {
  import Agency
  import AgencyRuns
  import Dispatch
  import Goals

  type Instant = Goals.Instant

  datatype Config = Config(cycle: Agency.Config, goals: Goals.Config)

  datatype World = World(cycle: Agency.Fields, mind: Goals.Mind)

  /** One tick: what arbitration meets, the action drafted if one is due (or that drafting raises), how
      the rest of the tick goes whatever is planned, and the clock when ACT starts and when it closes
      the goal. */
  datatype Turn = Turn(
    outside: Goals.Input, draft: Dispatch.Option<Agency.Action>, rest: Agency.Input, acted: Instant, resolvedAt: Instant)

  datatype Event = TurnOf(turn: Turn) | EveningOf(evening: Agency.Evening) | WakeCheck(ok: bool)

  // ---- One tick ----

  function Pursued(c: Config, m: Goals.Mind, t: Turn): (Goals.Table, Goals.Pursuit) {
    Goals.Arbitrated(c.goals, m.goals, t.outside)
  }

  /** What deliberation hands to the cycle: the goal pursued, and an action when the cadence allows. */
  function PlanOf(c: Config, m: Goals.Mind, t: Turn): Dispatch.Option<Agency.Plan> {
    var (goals, pursuit) := Pursued(c, m, t);
    match pursuit
    case Raised => Dispatch.None
    case Idle => Dispatch.Some(Agency.Plan(Dispatch.None, Dispatch.None))
    case Pursuing(id) =>
      var goal := Dispatch.Some(Agency.Goal(Dispatch.Some(id), goals[id].source));
      if !Goals.IsDue(c.goals, m.lastActed, t.outside.now) then Dispatch.Some(Agency.Plan(goal, Dispatch.None))
      else if t.draft.None? then Dispatch.None
      else Dispatch.Some(Agency.Plan(goal, t.draft))
  }

  function InputOf(c: Config, w: World, t: Turn): Agency.Input {
    t.rest.(plan := PlanOf(c, w.mind, t))
  }

  /** An action is drafted: with agency, for a goal, when the cadence allows. */
  predicate Plans(c: Config, w: World, t: Turn) {
    w.cycle.fullAgency && Pursued(c, w.mind, t).1.Pursuing? && Goals.IsDue(c.goals, w.mind.lastActed, t.outside.now)
  }

  function KindIn(c: Config, w: World, t: Turn): Agency.Kind {
    Agency.KindOf(c.cycle, Agency.Prepared(c.cycle, w.cycle.fullAgency, InputOf(c, w, t)), w.cycle.fullAgency)
  }

  /** What ACT tells deliberation: an internal action sets the clock first of all, a tool action only
      when its commit has returned. */
  function Settling(kind: Agency.Kind, t: Turn): Goals.Option<Goals.Action> {
    match kind
    case Still => Goals.None
    case Inside(_) => Goals.Some(Goals.Action(t.acted, t.rest.internal.Some?, t.resolvedAt))
    case ThroughDispatch(v, _) =>
      if Dispatch.Returns(v, t.rest.weather) then Goals.Some(Goals.Action(t.acted, t.rest.settles, t.resolvedAt)) else Goals.None
  }

  function AfterTurn(c: Config, w: World, t: Turn): World {
    World(
      Agency.AfterTick(c.cycle, w.cycle, InputOf(c, w, t)),
      if w.cycle.fullAgency then Goals.AfterTick(c.goals, w.mind, Goals.Tick(t.outside, Settling(KindIn(c, w, t), t))) else w.mind)
  }

  function Step(c: Config, w: World, e: Event): World {
    match e
    case TurnOf(t) => AfterTurn(c, w, t)
    case EveningOf(evening) => w.(cycle := Agency.AfterEvening(c.cycle, w.cycle, evening))
    case WakeCheck(ok) => w.(cycle := Agency.AfterWakeCheck(w.cycle, ok))
  }

  function Reached(c: Config, w: World, events: seq<Event>): World {
    if events == [] then w else Step(c, Reached(c, w, events[..|events| - 1]), events[|events| - 1])
  }

  // ---- The objects ----

  class Heartbeat {
    const cycle: Agency.CognitiveCycle
    const deliberation: Goals.Deliberation

    constructor (cycle: Agency.CognitiveCycle, deliberation: Goals.Deliberation)
      ensures this.cycle == cycle && this.deliberation == deliberation
    {
      this.cycle, this.deliberation := cycle, deliberation;
    }

    ghost function Now(): World
      reads cycle, cycle.sleeper, deliberation, deliberation.store
    {
      World(cycle.Now(), deliberation.Now())
    }

    function Settings(): Config { Config(cycle.config, deliberation.config) }

    method Plan(t: Turn) returns (plan: Dispatch.Option<Agency.Plan>, pursuit: Goals.Pursuit)
      modifies deliberation.store
      ensures plan == PlanOf(Settings(), old(deliberation.Now()), t)
      ensures (deliberation.store.goals, pursuit) == Pursued(Settings(), old(deliberation.Now()), t)
    {
      var planned;
      pursuit, planned := deliberation.Deliberate(t.outside);
      match pursuit
      case Raised => plan := Dispatch.None;
      case Idle => plan := Dispatch.Some(Agency.Plan(Dispatch.None, Dispatch.None));
      case Pursuing(id) =>
        var goal := Dispatch.Some(Agency.Goal(Dispatch.Some(id), deliberation.store.goals[id].source));
        if !planned {
          plan := Dispatch.Some(Agency.Plan(goal, Dispatch.None));
        } else if t.draft.None? {
          plan := Dispatch.None;
        } else {
          plan := Dispatch.Some(Agency.Plan(goal, t.draft));
        }
    }

    /** Begin, prepare, plan and act, and settle with deliberation what ACT did. */
    method Beat(t: Turn) returns (errors: seq<Agency.Stage>)
      requires cycle.Valid()
      modifies cycle, cycle.dispatch, deliberation, deliberation.store
      ensures Now() == AfterTurn(Settings(), old(Now()), t)
      ensures var agency, input := cycle.fullAgency, InputOf(Settings(), old(Now()), t);
        errors == Agency.Finished(cycle.config, Agency.Prepared(cycle.config, agency, input), agency, input).errors
    {
      ghost var before := Now();
      var plan, pursuit := PlanOf(Settings(), deliberation.Now(), t), Goals.Idle;
      if cycle.fullAgency {
        plan, pursuit := Plan(t);
      }
      var input := t.rest.(plan := plan);
      cycle.Begin(input);
      var ctx := cycle.Prepare(input);
      var settling := Settling(Agency.KindOf(cycle.config, ctx, cycle.fullAgency), t);
      Agency.VettedIsForThisAction(cycle.config, cycle.fullAgency, input);
      errors := cycle.Finish(ctx, input);
      SettlesOnlyPlans(Settings(), before, t);
      if settling.Some? {
        deliberation.Settle(pursuit.id, settling.value);
      }
    }
  }

  // ---- When the clock moves ----

  predicate Settles(c: Config, w: World, t: Turn) {
    Settling(KindIn(c, w, t), t).Some?
  }

  /** The vetting of the drafted tool action. */
  function VettingOf(c: Config, t: Turn): Dispatch.Vetting
    requires c.cycle.belt.Some? && t.draft.Some? && t.draft.value.tool.Some?
  {
    Dispatch.Vet(c.cycle.belt.value, Agency.Proposal(t.draft.value), t.rest.judge)
  }

  /** What ACT does, in terms of the draft. */
  lemma KindMeaning(c: Config, w: World, t: Turn)
    ensures var k := KindIn(c, w, t);
      && (k.Inside? <==> Plans(c, w, t) && t.draft.Some? && t.draft.value.tool.None?)
      && (k.ThroughDispatch? <==>
            Plans(c, w, t) && t.draft.Some? && t.draft.value.tool.Some? && c.cycle.belt.Some? && VettingOf(c, t).Vetted?)
      && (k.ThroughDispatch? ==> k.vetted == VettingOf(c, t).vetted)
      && (k.Inside? ==> k.action == t.draft.value)
  {
    AgencyRuns.Choice(c.cycle, w.cycle.fullAgency, InputOf(c, w, t));
  }

  lemma SettlesOnlyPlans(c: Config, w: World, t: Turn)
    ensures Settles(c, w, t) ==> Plans(c, w, t)
  {
    KindMeaning(c, w, t);
  }

  /** Every collaborator of the commit does its part. */
  predicate Fair(w: Dispatch.Weather) { w.run.Some? && w.auditWorks && w.broadcastWorks }

  /** The tick executes an action, inside or as a tool body. */
  ghost predicate Executes(c: Config, w: World, t: Turn) {
    var deeds := Agency.TickDeeds(c.cycle, w.cycle.fullAgency, InputOf(c, w, t));
    exists i :: 0 <= i < |deeds| && Agency.IsAction(deeds[i])
  }

  lemma ExecutesIff(c: Config, w: World, t: Turn)
    ensures var k := KindIn(c, w, t); Executes(c, w, t) <==> k.Inside? || (k.ThroughDispatch? && k.vetted.verdict.allowed)
  {
    var input := InputOf(c, w, t);
    var ctx := Agency.Prepared(c.cycle, w.cycle.fullAgency, input);
    var judged, acts := Agency.JudgedDeeds(ctx), Agency.ActDeeds(c.cycle, ctx, w.cycle.fullAgency, input);
    var deeds := Agency.TickDeeds(c.cycle, w.cycle.fullAgency, input);
    assert deeds == judged + acts;
    match KindIn(c, w, t)
    case Still =>
    case Inside(action) => assert Agency.IsAction(deeds[|judged|]);
    case ThroughDispatch(v, _) =>
      var effects := Dispatch.Effects(v, input.weather);
      if v.verdict.allowed {
        assert effects[0].Ran? && deeds[|judged|] == Agency.Did(effects[0]);
      } else {
        forall i | 0 <= i < |effects| ensures !effects[i].Ran? {
          if effects[i].Ran? { Agency.EffectsShape(v, input.weather, i); }
        }
      }
  }

  /** An executed action moves the cadence clock exactly if it is internal or its commit returns: the body
      returned, and the audit write and the broadcast went through. Otherwise the tick leaves the clock
      and the goal as arbitration left them. */
  lemma ClockMovesIff(c: Config, w: World, t: Turn)
    requires Executes(c, w, t)
    ensures t.draft.Some?
    ensures Settles(c, w, t) <==> t.draft.value.tool.None? || Fair(t.rest.weather)
    ensures var after := AfterTurn(c, w, t).mind;
      if t.draft.value.tool.None? || Fair(t.rest.weather) then after.lastActed == Goals.Some(t.acted)
      else after == Goals.Mind(Pursued(c, w.mind, t).0, w.mind.lastActed)
  {
    ExecutesIff(c, w, t);
    KindMeaning(c, w, t);
  }

  // ---- Spacing ----

  /** No reading of these ticks is from before `at`, and each tick reads forward. */
  ghost predicate Forward(at: Instant, events: seq<Event>) {
    forall i | 0 <= i < |events| && events[i].TurnOf? :: at <= events[i].turn.outside.now <= events[i].turn.acted
  }

  /** Every action executed is at least the cadence after `at`. */
  ghost predicate ExecutedApart(c: Config, w: World, at: Instant, events: seq<Event>) {
    forall i | 0 <= i < |events| && events[i].TurnOf? && Executes(c, Reached(c, w, events[..i]), events[i].turn) ::
      events[i].turn.acted - at >= c.goals.minInterval
  }

  /** Every draft is made at least the cadence after `at`. */
  ghost predicate PlannedApart(c: Config, w: World, at: Instant, events: seq<Event>) {
    forall i | 0 <= i < |events| && events[i].TurnOf? && Plans(c, Reached(c, w, events[..i]), events[i].turn) ::
      events[i].turn.outside.now - at >= c.goals.minInterval
  }

  ghost predicate ClockSince(w: World, at: Instant) {
    w.mind.lastActed.Some? && w.mind.lastActed.value >= at
  }

  lemma {:induction false} ClockStays(c: Config, w: World, at: Instant, events: seq<Event>)
    requires Forward(at, events) && ClockSince(w, at)
    ensures ClockSince(Reached(c, w, events), at)
  {
    if events != [] {
      ClockStays(c, w, at, events[..|events| - 1]);
    }
  }

  lemma PlansLate(c: Config, w: World, at: Instant, u: Turn)
    requires at <= u.outside.now <= u.acted && (ClockSince(w, at) || c.goals.minInterval <= 0)
    ensures Plans(c, w, u) ==> u.outside.now - at >= c.goals.minInterval
    ensures Executes(c, w, u) ==> u.acted - at >= c.goals.minInterval
  {
    ExecutesIff(c, w, u);
    KindMeaning(c, w, u);
  }

  lemma ApartOnceSettled(c: Config, w: World, at: Instant, events: seq<Event>)
    requires Forward(at, events) && (ClockSince(w, at) || c.goals.minInterval <= 0)
    ensures PlannedApart(c, w, at, events) && ExecutedApart(c, w, at, events)
  {
    forall i | 0 <= i < |events| && events[i].TurnOf?
      ensures Plans(c, Reached(c, w, events[..i]), events[i].turn) ==> events[i].turn.outside.now - at >= c.goals.minInterval
      ensures Executes(c, Reached(c, w, events[..i]), events[i].turn) ==> events[i].turn.acted - at >= c.goals.minInterval
    {
      if ClockSince(w, at) {
        ClockStays(c, w, at, events[..i]);
      }
      PlansLate(c, Reached(c, w, events[..i]), at, events[i].turn);
    }
  }

  /** The same tick over again, at the very moment its action was started. */
  function Again(t: Turn): Turn {
    t.(outside := Goals.Input([], Goals.None, t.acted, t.acted, t.acted, Goals.NoFault))
  }

  /** After a tick that planned and did not settle, the next one pursues the goal and plans again. */
  lemma PlansAgain(c: Config, w: World, t: Turn)
    requires Plans(c, w, t) && !Settles(c, w, t) && t.outside.now <= t.acted
    ensures Plans(c, AfterTurn(c, w, t), Again(t))
    ensures Executes(c, w, t) ==> Executes(c, AfterTurn(c, w, t), Again(t))
  {
    var after := AfterTurn(c, w, t);
    var active := Goals.Incumbent(after.mind.goals);
    assert after.mind == Goals.Mind(Pursued(c, w.mind, t).0, w.mind.lastActed);
    assert active.Some?;
    assert Goals.Select(c.goals, [], Goals.None, Goals.Some(after.mind.goals[active.value]), t.acted).None?;
    ExecutesIff(c, w, t);
    KindMeaning(c, w, t);
    ExecutesIff(c, after, Again(t));
    KindMeaning(c, after, Again(t));
  }

  /** All later actions are at least the cadence after an executed one, however the run goes on, exactly if
      that one is internal or its commit returns (or there is no cadence to keep). */
  lemma SpacedForGoodIff(c: Config, w: World, t: Turn)
    requires Executes(c, w, t) && t.outside.now <= t.acted
    ensures t.draft.Some?
    ensures (forall later | Forward(t.acted, later) :: ExecutedApart(c, AfterTurn(c, w, t), t.acted, later))
      <==> c.goals.minInterval <= 0 || t.draft.value.tool.None? || Fair(t.rest.weather)
  {
    var after := AfterTurn(c, w, t);
    ClockMovesIff(c, w, t);
    if c.goals.minInterval <= 0 || Settles(c, w, t) {
      forall later | Forward(t.acted, later) ensures ExecutedApart(c, after, t.acted, later) {
        ApartOnceSettled(c, after, t.acted, later);
      }
    } else {
      ExecutesIff(c, w, t);
      KindMeaning(c, w, t);
      PlansAgain(c, w, t);
      var later := [TurnOf(Again(t))];
      assert Reached(c, after, later[..0]) == after;
      assert Forward(t.acted, later) && !ExecutedApart(c, after, t.acted, later);
    }
  }

  /** The draft was made, and names no tool, or one that is vetted and whose commit returns. */
  predicate CarriedOut(c: Config, t: Turn) {
    && t.draft.Some?
    && (t.draft.value.tool.None?
        || (c.cycle.belt.Some? && VettingOf(c, t).Vetted? && Dispatch.Returns(VettingOf(c, t).vetted, t.rest.weather)))
  }

  /** The same for drafting, with its call to the model: no later draft comes within the cadence exactly if
      what was planned is carried out. */
  lemma PlannedForGoodIff(c: Config, w: World, t: Turn)
    requires Plans(c, w, t) && t.outside.now <= t.acted
    ensures (forall later | Forward(t.acted, later) :: PlannedApart(c, AfterTurn(c, w, t), t.acted, later))
      <==> c.goals.minInterval <= 0 || CarriedOut(c, t)
  {
    var after := AfterTurn(c, w, t);
    KindMeaning(c, w, t);
    if c.goals.minInterval <= 0 || CarriedOut(c, t) {
      forall later | Forward(t.acted, later) ensures PlannedApart(c, after, t.acted, later) {
        ApartOnceSettled(c, after, t.acted, later);
      }
    } else {
      PlansAgain(c, w, t);
      var later := [TurnOf(Again(t))];
      assert Reached(c, after, later[..0]) == after;
      assert Forward(t.acted, later) && !PlannedApart(c, after, t.acted, later);
    }
  }

  // ---- Runs ----

  /** The run's clock never goes back. */
  ghost predicate ForwardRun(events: seq<Event>) {
    && (forall i | 0 <= i < |events| && events[i].TurnOf? :: events[i].turn.outside.now <= events[i].turn.acted)
    && forall i, j | 0 <= i < j < |events| && events[i].TurnOf? && events[j].TurnOf? :: events[i].turn.acted <= events[j].turn.outside.now
  }

  ghost predicate ExecutesAt(c: Config, w: World, events: seq<Event>, i: nat)
    requires i < |events|
  {
    events[i].TurnOf? && Executes(c, Reached(c, w, events[..i]), events[i].turn)
  }

  lemma {:induction false} ReachedVia(c: Config, w: World, first: seq<Event>, second: seq<Event>)
    ensures Reached(c, w, first + second) == Reached(c, Reached(c, w, first), second)
  {
    if second == [] {
      assert first + second == first;
    } else {
      assert (first + second)[..|first + second| - 1] == first + second[..|second| - 1];
      ReachedVia(c, w, first, second[..|second| - 1]);
    }
  }

  lemma LaterAction(c: Config, w: World, t: Turn, later: seq<Event>, u: Turn)
    requires Executes(c, w, t) && Forward(t.acted, later) && t.acted <= u.outside.now <= u.acted
    requires t.draft.Some? ==> t.draft.value.tool.None? || Fair(t.rest.weather)
    requires Executes(c, Reached(c, AfterTurn(c, w, t), later), u)
    ensures u.acted - t.acted >= c.goals.minInterval
  {
    ClockMovesIff(c, w, t);
    ClockStays(c, AfterTurn(c, w, t), t.acted, later);
    PlansLate(c, Reached(c, AfterTurn(c, w, t), later), t.acted, u);
  }

  lemma ReachedSplit(c: Config, w: World, events: seq<Event>, i: nat, k: nat)
    requires i < k <= |events|
    ensures Reached(c, w, events[..k]) == Reached(c, Step(c, Reached(c, w, events[..i]), events[i]), events[i + 1..k])
  {
    assert events[..i + 1][..i] == events[..i];
    assert events[..k] == events[..i + 1] + events[i + 1..k];
    ReachedVia(c, w, events[..i + 1], events[i + 1..k]);
  }

  lemma LaterForward(events: seq<Event>, i: nat, k: nat)
    requires ForwardRun(events) && i < k < |events| && events[i].TurnOf?
    ensures Forward(events[i].turn.acted, events[i + 1..k])
    ensures events[k].TurnOf? ==> events[i].turn.acted <= events[k].turn.outside.now <= events[k].turn.acted
  {
    var later := events[i + 1..k];
    forall j | 0 <= j < |later| ensures later[j].TurnOf? ==> events[i].turn.acted <= later[j].turn.outside.now <= later[j].turn.acted {
      assert later[j] == events[i + 1 + j];
    }
  }

  /** In every run under a forward clock, an action executed at any time after one that was internal or
      whose commit returned is at least the cadence later. */
  lemma ExecutedActionsAreSpaced(c: Config, w: World, events: seq<Event>, i: nat, k: nat)
    requires ForwardRun(events) && i < k < |events|
    requires ExecutesAt(c, w, events, i) && ExecutesAt(c, w, events, k)
    requires events[i].turn.draft.Some? ==> events[i].turn.draft.value.tool.None? || Fair(events[i].turn.rest.weather)
    ensures events[k].turn.acted - events[i].turn.acted >= c.goals.minInterval
  {
    var t, u, before := events[i].turn, events[k].turn, Reached(c, w, events[..i]);
    ReachedSplit(c, w, events, i, k);
    LaterForward(events, i, k);
    assert Step(c, before, events[i]) == AfterTurn(c, before, t);
    LaterAction(c, before, t, events[i + 1..k], u);
  }

  // ---- The parts keep their theorems ----

  /** What deliberation sees of an event: a tick with agency. */
  function TickIn(c: Config, w: World, e: Event): seq<Goals.Tick> {
    if e.TurnOf? && w.cycle.fullAgency then [Goals.Tick(e.turn.outside, Settling(KindIn(c, w, e.turn), e.turn))] else []
  }

  function TicksOf(c: Config, w: World, events: seq<Event>): seq<Goals.Tick> {
    if events == [] then []
    else TicksOf(c, w, events[..|events| - 1]) + TickIn(c, Reached(c, w, events[..|events| - 1]), events[|events| - 1])
  }

  function EventOf(c: Config, w: World, e: Event): Agency.Event {
    match e
    case TurnOf(t) => Agency.TickOf(InputOf(c, w, t))
    case EveningOf(evening) => Agency.EveningOf(evening)
    case WakeCheck(ok) => Agency.WakeCheck(ok)
  }

  function EventsOf(c: Config, w: World, events: seq<Event>): (r: seq<Agency.Event>)
    ensures |r| == |events|
  {
    if events == [] then []
    else
      var before := events[..|events| - 1];
      EventsOf(c, w, before) + [EventOf(c, Reached(c, w, before), events[|events| - 1])]
  }

  lemma MoreTicks(c: Config, m: Goals.Mind, ticks: seq<Goals.Tick>, w: World, e: Event)
    requires w.mind == Goals.Reached(c.goals, m, ticks)
    ensures Step(c, w, e).mind == Goals.Reached(c.goals, m, ticks + TickIn(c, w, e))
  {
    var more := TickIn(c, w, e);
    if more == [] {
      assert ticks + more == ticks;
    } else {
      assert (ticks + more)[..|ticks|] == ticks;
    }
  }

  lemma OneMoreEvent(c: Agency.Config, events: seq<Agency.Event>, e: Agency.Event)
    ensures Agency.Reached(c, events + [e]) == Agency.Step(c, Agency.Reached(c, events), e)
  {
    assert (events + [e])[..|events|] == events;
  }

  /** Every run of the two together is a run of deliberation. So whatever holds of all of those holds here. */
  lemma {:induction false} RunOfDeliberation(c: Config, w: World, events: seq<Event>)
    ensures Reached(c, w, events).mind == Goals.Reached(c.goals, w.mind, TicksOf(c, w, events))
  {
    if events != [] {
      var before, e := events[..|events| - 1], events[|events| - 1];
      RunOfDeliberation(c, w, before);
      MoreTicks(c, w.mind, TicksOf(c, w, before), Reached(c, w, before), e);
    }
  }

  /** And it is a run of the cycle. */
  lemma {:induction false} RunOfCycle(c: Config, w: World, events: seq<Event>)
    requires w.cycle == Agency.BORN
    ensures Reached(c, w, events).cycle == Agency.Reached(c.cycle, EventsOf(c, w, events))
  {
    if events != [] {
      var before := events[..|events| - 1];
      RunOfCycle(c, w, before);
      OneMoreEvent(c.cycle, EventsOf(c, w, before), EventOf(c, Reached(c, w, before), events[|events| - 1]));
      StepOfCycle(c, Reached(c, w, before), events[|events| - 1]);
    }
  }

  lemma StepOfCycle(c: Config, w: World, e: Event)
    ensures Step(c, w, e).cycle == Agency.Step(c.cycle, w.cycle, EventOf(c, w, e))
  {
  }

  // ---- Runs that fail ----

  /** A tick that plans one call of the tool "t" for the urge's goal, allowed by the Conscience. */
  function ToolTurn(now: Instant, weather: Dispatch.Weather): Turn {
    Turn(
      Goals.Input([Goals.Urge("curiosity", 1.0)], Goals.None, now, now, now, Goals.NoFault),
      Dispatch.Some(Agency.Action("t", Dispatch.Some(0), Dispatch.Some("t"), map[])),
      AgencyRuns.Quiet().(judge := action => Dispatch.Some(Dispatch.Verdict(true, "")), weather := weather),
      now, now)
  }

  function OneTool(minInterval: int, satisfaction: string -> seq<Agency.DriveEvent>): Config {
    Config(
      Agency.Config(Dispatch.Some(map["t" := Dispatch.Tool("safe", args => true)]), {}, satisfaction, 1000),
      Goals.Config(0, 0.0, 0.0, minInterval))
  }

  const NEWBORN := World(Agency.BORN, Goals.Mind([], Goals.None))

  /** A planned and allowed tool action whose body raises: it is executed, and deliberation learns nothing. */
  lemma RaisingBody(c: Config, w: World, t: Turn)
    requires Plans(c, w, t) && t.draft.Some? && t.draft.value.tool.Some? && c.cycle.belt.Some?
    requires VettingOf(c, t).Vetted? && VettingOf(c, t).vetted.verdict.allowed && t.rest.weather.run.None?
    ensures var after, v := AfterTurn(c, w, t), VettingOf(c, t).vetted;
      && after.mind == Goals.Mind(Pursued(c, w.mind, t).0, w.mind.lastActed)
      && after.cycle.log == w.cycle.log + [Agency.Entry(w.cycle.tick + 1, Agency.Judged(v)),
                                           Agency.Entry(w.cycle.tick + 1, Agency.Did(Dispatch.Ran(v.action.tool, v.action.args)))]
      && after.cycle.tick == w.cycle.tick + 1 && after.cycle.fullAgency
  {
    KindMeaning(c, w, t);
    AgencyRuns.Choice(c.cycle, w.cycle.fullAgency, InputOf(c, w, t));
    var v := VettingOf(c, t).vetted;
    assert Dispatch.Effects(v, t.rest.weather) == [Dispatch.Ran(v.action.tool, v.action.args)];
    assert Agency.TickDeeds(c.cycle, true, InputOf(c, w, t)) == [Agency.Judged(v), Agency.Did(Dispatch.Ran(v.action.tool, v.action.args))];
  }

  /** The proposal of such a tick as CHECK leaves it. */
  const ALLOWED := Dispatch.VettedAction(Dispatch.ProposedAction("t", map[], Dispatch.Some(0), "safe"), Dispatch.Verdict(true, ""))

  function Bodies(tick: nat): seq<Agency.Entry> {
    [Agency.Entry(tick, Agency.Judged(ALLOWED)), Agency.Entry(tick, Agency.Did(Dispatch.Ran("t", map[])))]
  }

  lemma RaisingToolTurn(c: Config, w: World, t: Turn, now: Instant, satisfaction: string -> seq<Agency.DriveEvent>)
    requires c == OneTool(60000000, satisfaction) && t == ToolTurn(now, Dispatch.Weather(Dispatch.None, true, true))
    requires w.cycle.fullAgency && w.mind.lastActed.None? && Pursued(c, w.mind, t).1.Pursuing?
    ensures var after := AfterTurn(c, w, t);
      && after.mind == Goals.Mind(Pursued(c, w.mind, t).0, Goals.None)
      && after.cycle.log == w.cycle.log + Bodies(w.cycle.tick + 1)
      && after.cycle.tick == w.cycle.tick + 1 && after.cycle.fullAgency
  {
    assert VettingOf(c, t) == Dispatch.Vetted(ALLOWED);
    RaisingBody(c, w, t);
  }

  ghost predicate RaisingTools(c: Config, t: Turn, u: Turn, satisfaction: string -> seq<Agency.DriveEvent>) {
    && c == OneTool(60000000, satisfaction)
    && t == ToolTurn(0, Dispatch.Weather(Dispatch.None, true, true)) && u == ToolTurn(1, Dispatch.Weather(Dispatch.None, true, true))
  }

  lemma FirstBody(c: Config, t: Turn, u: Turn, satisfaction: string -> seq<Agency.DriveEvent>)
    requires RaisingTools(c, t, u, satisfaction)
    ensures var w := AfterTurn(c, NEWBORN, t);
      && w.mind.lastActed.None? && w.cycle.log == Bodies(1) && w.cycle.tick == 1 && w.cycle.fullAgency
      && Pursued(c, w.mind, u).1.Pursuing?
  {
    FirstUrge(c, t);
    RaisingToolTurn(c, NEWBORN, t, 0, satisfaction);
    SameUrge(c, AfterTurn(c, NEWBORN, t).mind, u);
  }

  /** A tool whose body raises runs in two consecutive ticks, a microsecond apart under a cadence of a minute:
      the clock never moves. */
  lemma TwoBodies(c: Config, t: Turn, u: Turn, satisfaction: string -> seq<Agency.DriveEvent>)
    requires RaisingTools(c, t, u, satisfaction)
    ensures ForwardRun([TurnOf(t), TurnOf(u)])
    ensures var end := Reached(c, NEWBORN, [TurnOf(t), TurnOf(u)]);
      end.mind.lastActed.None? && end.cycle.log == Bodies(1) + Bodies(2)
  {
    var w := AfterTurn(c, NEWBORN, t);
    FirstBody(c, t, u, satisfaction);
    RaisingToolTurn(c, w, u, 1, satisfaction);
    assert AfterTurn(c, w, u).cycle.log == Bodies(1) + Bodies(2);
    TwoTurns(c, NEWBORN, t, u);
  }

  lemma TwoTurns(c: Config, w: World, t: Turn, u: Turn)
    ensures Reached(c, w, [TurnOf(t), TurnOf(u)]) == AfterTurn(c, AfterTurn(c, w, t), u)
    ensures t.outside.now <= t.acted <= u.outside.now <= u.acted ==> ForwardRun([TurnOf(t), TurnOf(u)])
  {
    var events := [TurnOf(t), TurnOf(u)];
    assert events[..1] == [TurnOf(t)] && [TurnOf(t)][..0] == [];
    assert Reached(c, w, [TurnOf(t)]) == Step(c, Reached(c, w, []), TurnOf(t));
  }

  lemma LoneUrge(c: Goals.Config, urges: seq<Goals.Urge>, mood: Goals.Mood)
    requires urges == [Goals.Urge("curiosity", 1.0)]
    ensures Goals.Best(c, urges, mood) == Goals.Some(urges[0])
  {
    assert urges[0].drive[0] == 'c' && Goals.ENERGY[0] == 'e';
    assert urges[..0] == [] && Goals.Best(c, [], mood).None?;
  }

  /** The first urge of all is promoted. */
  lemma FirstUrge(c: Config, t: Turn)
    requires t.outside.urges == [Goals.Urge("curiosity", 1.0)] && t.outside.fault.NoFault?
    ensures var (goals, pursuit) := Pursued(c, NEWBORN.mind, t);
      && pursuit == Goals.Pursuing(0) && |goals| == 1
      && goals[0].source == "curiosity" && goals[0].status.Active? && goals[0].createdAt == t.outside.created
  {
    LoneUrge(c.goals, t.outside.urges, t.outside.mood);
    assert Goals.Incumbent([]).None?;
  }

  /** An urge whose goal is pursued already changes nothing. */
  lemma SameUrge(c: Config, m: Goals.Mind, t: Turn)
    requires t.outside.urges == [Goals.Urge("curiosity", 1.0)] && t.outside.fault.NoFault?
    requires |m.goals| == 1 && m.goals[0].source == "curiosity" && m.goals[0].status.Active?
    ensures Pursued(c, m, t) == (m.goals, Goals.Pursuing(0))
  {
    LoneUrge(c.goals, t.outside.urges, t.outside.mood);
    assert m.goals[..0] == [] && Goals.Incumbent([]).None?;
    assert Goals.Incumbent(m.goals) == Goals.Some(0);
  }

  /** An internal action whose announcement fails: the goal is resolved and the clock has moved, and what the
      action eased is dropped. */
  lemma AnnouncementLost(c: Config, t: Turn, now: Instant)
    requires t == ToolTurn(now, t.rest.weather).(
      draft := Dispatch.Some(Agency.Action("reflect", Dispatch.Some(0), Dispatch.None, map[])),
      rest := AgencyRuns.Quiet().(internal := Dispatch.Some([Agency.DriveEvent("reflection")]), internalAnnounced := false))
    ensures var after := AfterTurn(c, NEWBORN, t);
      && |after.mind.goals| == 1 && after.mind.goals[0].status.Resolved? && after.mind.lastActed == Goals.Some(now)
      && after.cycle.log == [Agency.Entry(1, Agency.ActedInside("reflect"))] && after.cycle.pending == []
  {
    FirstUrge(c, t);
    KindMeaning(c, NEWBORN, t);
    AgencyRuns.Choice(c.cycle, true, InputOf(c, NEWBORN, t));
    assert Agency.TickDeeds(c.cycle, true, InputOf(c, NEWBORN, t)) == [Agency.ActedInside("reflect")];
  }
}
