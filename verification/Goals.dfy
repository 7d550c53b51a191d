/** Goals: promoted by the strongest urge, held against churn, closed once
    (brain/goals/arbiter.py, brain/goals/store.py, brain/agents/deliberation.py). */
module Goals {

  datatype Option<T> = None | Some(value: T)

  type Instant = int  // microseconds

  const ENERGY := "energy"

  datatype Urge = Urge(drive: string, urgency: real)
  {
    predicate IsSleepSignal() { drive == ENERGY }
  }

  datatype GoalStatus = Active | Resolved | Abandoned

  /** A row of the goal table; its id is its place in the table. */
  datatype Goal = Goal(source: string, priority: real, status: GoalStatus, createdAt: Instant, resolvedAt: Option<Instant>)

  type Table = seq<Goal>

  datatype Config = Config(minDwell: int, margin: real, arousalWeight: real, minInterval: int)

  /** The running mood's arousal, if there is a mood. */
  type Mood = Option<real>

  // ---- Choosing ----

  function Priority(c: Config, u: Urge, mood: Mood): real {
    u.urgency * (1.0 + c.arousalWeight * if mood.Some? then mood.value else 0.0)
  }

  /** Arousal amplifies urges without reordering them: with a weight and an arousal of at least 0, the
      more urgent urge has the higher priority, and no priority falls below the urgency. */
  lemma PriorityFollowsUrgency(c: Config, u: Urge, v: Urge, mood: Mood)
    requires c.arousalWeight >= 0.0 && (mood.Some? ==> mood.value >= 0.0)
    requires 0.0 <= u.urgency <= v.urgency
    ensures u.urgency <= Priority(c, u, mood) <= Priority(c, v, mood)
    ensures mood.None? ==> Priority(c, u, mood) == u.urgency
    ensures u.urgency < v.urgency ==> Priority(c, u, mood) < Priority(c, v, mood)
  {
    var lift := c.arousalWeight * if mood.Some? then mood.value else 0.0;
    Product(c.arousalWeight, if mood.Some? then mood.value else 0.0);
    Product(u.urgency, lift);
    Product(v.urgency - u.urgency, lift);
    assert Priority(c, u, mood) == u.urgency + u.urgency * lift;
    assert Priority(c, v, mood) == v.urgency + u.urgency * lift + (v.urgency - u.urgency) * lift;
  }

  lemma Product(x: real, y: real)
    requires x >= 0.0 && y >= 0.0
    ensures x * y >= 0.0
  {
  }

  /** The first urge of highest priority that is not the sleep signal. */
  function Best(c: Config, urges: seq<Urge>, mood: Mood): (best: Option<Urge>)
  {
    if urges == [] then None
    else
      var before, u := Best(c, urges[..|urges| - 1], mood), urges[|urges| - 1];
      if u.IsSleepSignal() then before
      else if before.None? || Priority(c, u, mood) > Priority(c, before.value, mood) then Some(u)
      else before
  }

  ghost predicate IsFirstBest(c: Config, urges: seq<Urge>, mood: Mood, i: nat) {
    && i < |urges| && !urges[i].IsSleepSignal()
    && (forall j | 0 <= j < |urges| :: urges[j].IsSleepSignal() || Priority(c, urges[j], mood) <= Priority(c, urges[i], mood))
    && (forall j | 0 <= j < i :: urges[j].IsSleepSignal() || Priority(c, urges[j], mood) < Priority(c, urges[i], mood))
  }

  lemma {:induction false} NoBest(c: Config, urges: seq<Urge>, mood: Mood)
    ensures Best(c, urges, mood).None? <==> forall i | 0 <= i < |urges| :: urges[i].IsSleepSignal()
  {
    if urges != [] {
      NoBest(c, urges[..|urges| - 1], mood);
    }
  }

  lemma {:induction false} BestIsFirstBest(c: Config, urges: seq<Urge>, mood: Mood) returns (i: nat)
    requires Best(c, urges, mood).Some?
    ensures IsFirstBest(c, urges, mood, i) && urges[i] == Best(c, urges, mood).value
  {
    var n := |urges| - 1;
    var before := Best(c, urges[..n], mood);
    NoBest(c, urges[..n], mood);
    if before.Some? {
      i := BestIsFirstBest(c, urges[..n], mood);
      forall j | 0 <= j < n ensures urges[j] == urges[..n][j] {}
      if !urges[n].IsSleepSignal() && Priority(c, urges[n], mood) > Priority(c, before.value, mood) {
        i := n;
      }
    } else {
      i := n;
    }
  }

  /** The priority of the incumbent's drive now, 0 when it is no longer among the urges. */
  function IncumbentPriority(c: Config, source: string, urges: seq<Urge>, mood: Mood): real {
    if urges == [] then 0.0
    else if urges[0].drive == source then Priority(c, urges[0], mood)
    else IncumbentPriority(c, source, urges[1..], mood)
  }

  /** The urge to promote, or none to keep things as they are. */
  function Select(c: Config, urges: seq<Urge>, mood: Mood, incumbent: Option<Goal>, now: Instant): Option<Urge> {
    var best := Best(c, urges, mood);
    if best.None? || incumbent.None? then best
    else if now - incumbent.value.createdAt < c.minDwell then None
    else if best.value.drive == incumbent.value.source then None
    else if Priority(c, best.value, mood) > IncumbentPriority(c, incumbent.value.source, urges, mood) + c.margin then best
    else None
  }

  /** The priority is the urgency, and the arousal's share of it, by the weight, on top. */
  lemma PriorityMeaning(c: Config, u: Urge, mood: Mood)
    ensures Priority(c, u, mood) == u.urgency * (1.0 + c.arousalWeight * match mood { case Some(arousal) => arousal case None => 0.0 })
  {
  }

  /** The sleep signal is the urge of the drive named energy. */
  lemma SleepSignalIff(u: Urge)
    ensures u.IsSleepSignal() <==> u.drive == "energy"
  {
  }

  /** A drive that is no longer among the urges counts for nothing. */
  lemma {:induction false} AbsentDriveIsWorthNothing(c: Config, source: string, urges: seq<Urge>, mood: Mood)
    requires forall i | 0 <= i < |urges| :: urges[i].drive != source
    ensures IncumbentPriority(c, source, urges, mood) == 0.0
  {
    if urges != [] {
      AbsentDriveIsWorthNothing(c, source, urges[1..], mood);
    }
  }

  ghost predicate OneUrgePerDrive(urges: seq<Urge>) {
    forall i, j | 0 <= i < j < |urges| :: urges[i].drive != urges[j].drive
  }

  lemma {:induction false} IncumbentPriorityOf(c: Config, urges: seq<Urge>, mood: Mood, i: nat)
    requires i < |urges| && OneUrgePerDrive(urges)
    ensures IncumbentPriority(c, urges[i].drive, urges, mood) == Priority(c, urges[i], mood)
  {
    if i > 0 {
      IncumbentPriorityOf(c, urges[1..], mood, i - 1);
    }
  }

  /** Johnny switches exactly when the goal has been held long enough and some urge beats its drive's
      current priority by more than the margin. */
  lemma SwitchesIff(c: Config, urges: seq<Urge>, mood: Mood, incumbent: Goal, now: Instant)
    requires OneUrgePerDrive(urges) && c.margin >= 0.0
    ensures Select(c, urges, mood, Some(incumbent), now).Some? <==>
      (now - incumbent.createdAt >= c.minDwell
       && exists i :: 0 <= i < |urges| && !urges[i].IsSleepSignal()
            && Priority(c, urges[i], mood) > IncumbentPriority(c, incumbent.source, urges, mood) + c.margin)
  {
    NoBest(c, urges, mood);
    if Best(c, urges, mood).Some? {
      var i := BestIsFirstBest(c, urges, mood);
      if urges[i].drive == incumbent.source {
        IncumbentPriorityOf(c, urges, mood, i);
      }
    }
  }

  // ---- The table ----

  /** The most recently created active goal, the first of them on a tie. */
  function Incumbent(t: Table): (i: Option<nat>)
    ensures i.Some? ==> i.value < |t| && t[i.value].status.Active?
    ensures i.None? ==> forall j | 0 <= j < |t| :: !t[j].status.Active?
  {
    if t == [] then None
    else
      var before, last := Incumbent(t[..|t| - 1]), t[|t| - 1];
      if !last.status.Active? then before
      else if before.None? || last.createdAt > t[before.value].createdAt then Some(|t| - 1)
      else before
  }

  /** The goal pursued is the most recently created of the active ones, the first in the table on a tie. */
  lemma {:induction false} IncumbentMeaning(t: Table)
    ensures Incumbent(t).Some? ==>
      var i := Incumbent(t).value;
      && (forall j | 0 <= j < |t| && t[j].status.Active? :: t[j].createdAt <= t[i].createdAt)
      && (forall j | 0 <= j < i && t[j].status.Active? :: t[j].createdAt < t[i].createdAt)
  {
    if t != [] {
      IncumbentMeaning(t[..|t| - 1]);
    }
  }

  function Actives(t: Table): nat {
    if t == [] then 0 else Actives(t[..|t| - 1]) + if t[|t| - 1].status.Active? then 1 else 0
  }

  function Closed(t: Table, id: nat, status: GoalStatus, at: Instant): Table
    requires id < |t|
  {
    t[id := t[id].(status := status, resolvedAt := Some(at))]
  }

  lemma {:induction false} ClosingCounts(t: Table, id: nat, status: GoalStatus, at: Instant)
    requires id < |t| && !status.Active?
    ensures Actives(Closed(t, id, status, at)) == Actives(t) - if t[id].status.Active? then 1 else 0
  {
    var n := |t| - 1;
    var after := Closed(t, id, status, at);
    if id < n {
      ClosingCounts(t[..n], id, status, at);
      assert after[..n] == Closed(t[..n], id, status, at);
    } else {
      assert after[..n] == t[..n];
    }
  }

  // ---- One pass of deliberation ----

  /** Where a pass may fail: reading the active goals, abandoning, promoting. */
  datatype Fault = NoFault | ReadFails | AbandonFails | PromoteFails

  /** What the outside contributes to a pass: the urges, the mood, and the clock's readings in the
      order they are taken. */
  datatype Input = Input(urges: seq<Urge>, mood: Mood, now: Instant, created: Instant, closed: Instant, fault: Fault)

  /** A goal to pursue, none, or an exception. */
  datatype Pursuit = Raised | Idle | Pursuing(id: nat)

  function Promoted(c: Config, t: Table, u: Urge, input: Input): Table {
    t + [Goal(u.drive, Priority(c, u, input.mood), Active, input.created, None)]
  }

  function Arbitrated(c: Config, t: Table, input: Input): (r: (Table, Pursuit))
    ensures r.1.Pursuing? ==> r.1.id < |r.0| && r.0[r.1.id].status.Active?
  {
    if input.fault.ReadFails? then (t, Raised)
    else
      var active := Incumbent(t);
      var choice := Select(c, input.urges, input.mood, if active.Some? then Some(t[active.value]) else None, input.now);
      if choice.None? then (t, if active.Some? then Pursuing(active.value) else Idle)
      else if active.Some? && input.fault.AbandonFails? then (t, Raised)
      else
        var cleared := if active.Some? then Closed(t, active.value, Abandoned, input.closed) else t;
        if input.fault.PromoteFails? then (cleared, Raised)
        else (Promoted(c, cleared, choice.value, input), Pursuing(|t|))
  }

  /** In the new table the goal pursued so far is abandoned, and the other rows are as they were. */
  ghost predicate GivesUp(t: Table, active: Option<nat>, at: Instant, after: Table) {
    && |t| <= |after|
    && forall j | 0 <= j < |t| ::
         after[j] == if active == Some(j) then t[j].(status := Abandoned, resolvedAt := Some(at)) else t[j]
  }

  /** What arbitration does to the table: nothing when the goals cannot be read or nothing is chosen; else the goal pursued is
      abandoned, unless that fails, and then one for the urge chosen appended, unless that fails. */
  lemma ArbitratedMeaning(c: Config, t: Table, input: Input)
    ensures var (after, pursuit) := Arbitrated(c, t, input);
      var active := Incumbent(t);
      var choice := Select(c, input.urges, input.mood, if active.Some? then Some(t[active.value]) else None, input.now);
      && (input.fault.ReadFails? ==> after == t && pursuit.Raised?)
      && (!input.fault.ReadFails? && choice.None? ==>
            after == t && pursuit == if active.Some? then Pursuing(active.value) else Idle)
      && (!input.fault.ReadFails? && choice.Some? && active.Some? && input.fault.AbandonFails? ==> after == t && pursuit.Raised?)
      && (!input.fault.ReadFails? && choice.Some? && (active.None? || !input.fault.AbandonFails?) ==>
            && GivesUp(t, active, input.closed, after)
            && (input.fault.PromoteFails? ==> |after| == |t| && pursuit.Raised?)
            && (!input.fault.PromoteFails? ==>
                  && |after| == |t| + 1
                  && pursuit == Pursuing(|t|)
                  && after[|t|] == Goal(choice.value.drive, Priority(c, choice.value, input.mood), Active, input.created, None)))
  {
  }

  /** The goal table and the time of the last action. */
  datatype Mind = Mind(goals: Table, lastActed: Option<Instant>)

  predicate IsDue(c: Config, lastActed: Option<Instant>, now: Instant) {
    lastActed.None? || now - lastActed.value >= c.minInterval
  }

  /** How the action went: when it was started and whether the goal could be resolved after it. */
  datatype Action = Action(acted: Instant, resolves: bool, resolvedAt: Instant)

  function Settled(m: Mind, id: nat, a: Action): Mind
    requires id < |m.goals|
  {
    Mind(if a.resolves then Closed(m.goals, id, Resolved, a.resolvedAt) else m.goals, Some(a.acted))
  }

  /** One tick: arbitrate, and settle an action for the goal when the cadence allows. `action` is none when
      ACT did nothing, and also when it raised before deliberation heard of it. */
  datatype Tick = Tick(input: Input, action: Option<Action>)

  predicate SettlesIn(c: Config, m: Mind, tick: Tick) {
    Arbitrated(c, m.goals, tick.input).1.Pursuing? && IsDue(c, m.lastActed, tick.input.now) && tick.action.Some?
  }

  function AfterTick(c: Config, m: Mind, tick: Tick): Mind {
    var (goals, pursuit) := Arbitrated(c, m.goals, tick.input);
    if SettlesIn(c, m, tick) then Settled(Mind(goals, m.lastActed), pursuit.id, tick.action.value)
    else Mind(goals, m.lastActed)
  }

  // ---- The store and the agent ----

  class GoalStore {
    var goals: Table

    constructor (goals: Table)
      ensures this.goals == goals
    {
      this.goals := goals;
    }

    /** The incumbent first. */
    method ActiveGoal() returns (i: Option<nat>)
      ensures i == Incumbent(goals)
    {
      i := None;
      for n := 0 to |goals|
        invariant i == Incumbent(goals[..n])
      {
        assert goals[..n + 1][..n] == goals[..n];
        if goals[n].status.Active? && (i.None? || goals[n].createdAt > goals[i.value].createdAt) {
          i := Some(n);
        }
      }
      assert goals[..|goals|] == goals;
    }

    method Promote(source: string, priority: real, createdAt: Instant) returns (id: nat)
      modifies this
      ensures id == |old(goals)| && goals == old(goals) + [Goal(source, priority, Active, createdAt, None)]
    {
      id := |goals|;
      goals := goals + [Goal(source, priority, Active, createdAt, None)];
    }

    /** Closing does not look at the status the goal has. */
    method Close(id: nat, status: GoalStatus, at: Instant)
      modifies this
      ensures goals == if id < |old(goals)| then Closed(old(goals), id, status, at) else old(goals)
    {
      if id >= |goals| {
        return;
      }
      var goal := goals[id];
      goals := goals[id := goal.(status := status, resolvedAt := Some(at))];
    }
  }

  class Deliberation {
    const config: Config
    const store: GoalStore
    var lastActed: Option<Instant>

    constructor (config: Config, store: GoalStore)
      ensures this.config == config && this.store == store && lastActed == None
    {
      this.config, this.store, lastActed := config, store, None;
    }

    function Now(): Mind
      reads this, store
    {
      Mind(store.goals, lastActed)
    }

    method BestUrge(urges: seq<Urge>, mood: Mood) returns (best: Option<Urge>)
      ensures best == Best(config, urges, mood)
    {
      best := None;
      for i := 0 to |urges|
        invariant best == Best(config, urges[..i], mood)
      {
        assert urges[..i + 1][..i] == urges[..i];
        if !urges[i].IsSleepSignal() && (best.None? || Priority(config, urges[i], mood) > Priority(config, best.value, mood)) {
          best := Some(urges[i]);
        }
      }
      assert urges[..|urges|] == urges;
    }

    method Choose(urges: seq<Urge>, mood: Mood, incumbent: Option<Goal>, now: Instant) returns (choice: Option<Urge>)
      ensures choice == Select(config, urges, mood, incumbent, now)
    {
      var best := BestUrge(urges, mood);
      if best.None? || incumbent.None? {
        return best;
      }
      var held := now - incumbent.value.createdAt;
      if held < config.minDwell || best.value.drive == incumbent.value.source {
        return None;
      }
      var incumbentPriority := IncumbentPriority(config, incumbent.value.source, urges, mood);
      choice := if Priority(config, best.value, mood) > incumbentPriority + config.margin then best else None;
    }

    method Arbitrate(input: Input) returns (pursuit: Pursuit)
      modifies store
      ensures (store.goals, pursuit) == Arbitrated(config, old(store.goals), input)
    {
      if input.fault.ReadFails? {
        return Raised;
      }
      var active := store.ActiveGoal();
      var choice := Choose(input.urges, input.mood, if active.Some? then Some(store.goals[active.value]) else None, input.now);
      if choice.None? {
        return if active.Some? then Pursuing(active.value) else Idle;
      }
      if active.Some? {
        if input.fault.AbandonFails? {
          return Raised;
        }
        store.Close(active.value, Abandoned, input.closed);
      }
      if input.fault.PromoteFails? {
        return Raised;
      }
      var id := store.Promote(choice.value.drive, Priority(config, choice.value, input.mood), input.created);
      pursuit := Pursuing(id);
    }

    /** The goal pursued, and whether an action is planned for it. */
    method Deliberate(input: Input) returns (pursuit: Pursuit, planned: bool)
      modifies store
      ensures (store.goals, pursuit) == Arbitrated(config, old(store.goals), input)
      ensures planned == (pursuit.Pursuing? && IsDue(config, lastActed, input.now))
      ensures planned <==> pursuit.Pursuing? && (lastActed == None || input.now - lastActed.value >= config.minInterval)
    {
      pursuit := Arbitrate(input);
      planned := pursuit.Pursuing? && (lastActed.None? || input.now - lastActed.value >= config.minInterval);
    }

    /** What act and settle_tool_action do to the goal: the cadence clock first, then the goal. */
    method Settle(id: nat, a: Action)
      requires id < |store.goals|
      modifies this, store
      ensures Now() == Settled(old(Now()), id, a)
      ensures lastActed == Some(a.acted)
      ensures store.goals == if a.resolves then old(store.goals)[id := old(store.goals)[id].(status := Resolved, resolvedAt := Some(a.resolvedAt))] else old(store.goals)
    {
      lastActed := Some(a.acted);
      if a.resolves {
        store.Close(id, Resolved, a.resolvedAt);
      }
    }

    method RunTick(tick: Tick)
      modifies this, store
      ensures Now() == AfterTick(config, old(Now()), tick)
      ensures store.goals == AfterTick(config, old(Now()), tick).goals && lastActed == AfterTick(config, old(Now()), tick).lastActed
    {
      var pursuit, planned := Deliberate(tick.input);
      if planned && tick.action.Some? {
        Settle(pursuit.id, tick.action.value);
      }
    }
  }

  // ---- Runs ----

  /** The readings of one tick, in order. */
  ghost predicate Ordered(tick: Tick) {
    && tick.input.now <= tick.input.created && tick.input.now <= tick.input.closed
    && (tick.action.Some? ==> tick.input.now <= tick.action.value.acted <= tick.action.value.resolvedAt)
  }

  function Reached(c: Config, m: Mind, ticks: seq<Tick>): Mind {
    if ticks == [] then m else AfterTick(c, Reached(c, m, ticks[..|ticks| - 1]), ticks[|ticks| - 1])
  }

  /** When the settled actions were started, in order. */
  function SettledTimes(c: Config, m: Mind, ticks: seq<Tick>): seq<Instant> {
    if ticks == [] then []
    else
      var before, tick := ticks[..|ticks| - 1], ticks[|ticks| - 1];
      SettledTimes(c, m, before) + if SettlesIn(c, Reached(c, m, before), tick) then [tick.action.value.acted] else []
  }

  function AtLeastOne(n: nat): nat { if n > 1 then n else 1 }

  lemma ArbitratedCounts(c: Config, t: Table, input: Input)
    ensures Actives(Arbitrated(c, t, input).0) <= AtLeastOne(Actives(t))
  {
    var active := Incumbent(t);
    if active.Some? {
      ClosingCounts(t, active.value, Abandoned, input.closed);
    } else {
      NoneActive(t);
    }
    assert forall u :: Promoted(c, t, u, input)[..|t|] == t;
    var choice := Select(c, input.urges, input.mood, if active.Some? then Some(t[active.value]) else None, input.now);
    if active.Some? && choice.Some? {
      var cleared := Closed(t, active.value, Abandoned, input.closed);
      assert Promoted(c, cleared, choice.value, input)[..|t|] == cleared;
    }
  }

  lemma {:induction false} NoneActive(t: Table)
    ensures Actives(t) == 0 <==> forall j | 0 <= j < |t| :: !t[j].status.Active?
  {
    if t != [] { NoneActive(t[..|t| - 1]); }
  }

  /** There is never more than one active goal, or more than at the start. */
  lemma {:induction false} OneActiveGoal(c: Config, m: Mind, ticks: seq<Tick>)
    ensures Actives(Reached(c, m, ticks).goals) <= AtLeastOne(Actives(m.goals))
  {
    if ticks != [] {
      var before, tick := Reached(c, m, ticks[..|ticks| - 1]), ticks[|ticks| - 1];
      OneActiveGoal(c, m, ticks[..|ticks| - 1]);
      ArbitratedCounts(c, before.goals, tick.input);
      if SettlesIn(c, before, tick) {
        var (goals, pursuit) := Arbitrated(c, before.goals, tick.input);
        ClosingCounts(goals, pursuit.id, Resolved, tick.action.value.resolvedAt);
      }
    }
  }

  /** A goal that is closed stays as it was closed: no goal closes twice, and none is reopened. */
  lemma {:induction false} ClosedForGood(c: Config, m: Mind, ticks: seq<Tick>, id: nat)
    requires id < |m.goals| && !m.goals[id].status.Active?
    ensures id < |Reached(c, m, ticks).goals| && Reached(c, m, ticks).goals[id] == m.goals[id]
  {
    if ticks != [] {
      ClosedForGood(c, m, ticks[..|ticks| - 1], id);
    }
  }

  /** A tick abandons a goal only when it was held for the minimum dwell and another drive's urge beats
      the current priority of its own drive by more than the margin. */
  lemma AbandonedOnlyWhenBeaten(c: Config, m: Mind, tick: Tick, id: nat)
    requires id < |m.goals| && m.goals[id].status.Active?
    requires AfterTick(c, m, tick).goals[id].status.Abandoned?
    ensures tick.input.now - m.goals[id].createdAt >= c.minDwell
    ensures var best := Best(c, tick.input.urges, tick.input.mood);
      && best.Some? && best.value.drive != m.goals[id].source
      && Priority(c, best.value, tick.input.mood)
         > IncumbentPriority(c, m.goals[id].source, tick.input.urges, tick.input.mood) + c.margin
  {
  }

  /** Every goal abandoned in a run was held for at least the minimum dwell. */
  ghost predicate DweltLongEnough(c: Config, t: Table) {
    forall id | 0 <= id < |t| && t[id].status.Abandoned? :: t[id].resolvedAt.Some? && t[id].resolvedAt.value - t[id].createdAt >= c.minDwell
  }

  lemma {:induction false} NoGoalIsDroppedEarly(c: Config, m: Mind, ticks: seq<Tick>)
    requires DweltLongEnough(c, m.goals) && forall i | 0 <= i < |ticks| :: Ordered(ticks[i])
    ensures DweltLongEnough(c, Reached(c, m, ticks).goals)
  {
    if ticks != [] {
      NoGoalIsDroppedEarly(c, m, ticks[..|ticks| - 1]);
    }
  }

  /** Consecutive settled actions are at least the cadence interval apart, and the last one is remembered. */
  lemma {:induction false} SettledActionsAreSpaced(c: Config, m: Mind, ticks: seq<Tick>)
    requires m.lastActed.None? && forall i | 0 <= i < |ticks| :: Ordered(ticks[i])
    ensures var times := SettledTimes(c, m, ticks);
      && (forall i | 0 < i < |times| :: times[i] - times[i - 1] >= c.minInterval)
      && Reached(c, m, ticks).lastActed == if times == [] then None else Some(times[|times| - 1])
  {
    if ticks != [] {
      SettledActionsAreSpaced(c, m, ticks[..|ticks| - 1]);
    }
  }
}
