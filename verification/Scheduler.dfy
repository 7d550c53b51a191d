/** Scheduled wakeups: claimed once, then queued for the next tick (brain/effectors/scheduler.py,
    brain/agents/sensorium.py). */
module Scheduler {

  datatype Status = Pending | Fired

  /** A row of scheduled_wakeup; its id is its place in the table. */
  datatype Wakeup = Wakeup(fireAt: int, reason: string, status: Status)

  /** A queued input; a wakeup's carries the id of its row. */
  datatype Item = FromUser(raw: string) | FromWakeup(id: nat, raw: string)

  /** A claimed wakeup that has not been pushed yet, with the time of the claim. */
  datatype Claimed = Claimed(id: nat, reason: string, now: int)

  /** The table and the queue outlive the process, what is in flight does not; `drained` is what
      ticks have taken from the queue so far. */
  datatype World = World(rows: seq<Wakeup>, inFlight: seq<Claimed>, queue: seq<Item>, drained: seq<Item>)

  predicate Due(rows: seq<Wakeup>, now: int, id: nat) {
    id < |rows| && rows[id].status.Pending? && rows[id].fireAt <= now
  }

  /** An answer to the due query: every due row once, the oldest due first. */
  ghost predicate DueOrder(rows: seq<Wakeup>, now: int, order: seq<nat>) {
    && (forall i | 0 <= i < |order| :: Due(rows, now, order[i]))
    && (forall id | 0 <= id < |rows| && Due(rows, now, id) :: id in order)
    && (forall i, j | 0 <= i < j < |order| :: order[i] != order[j] && rows[order[i]].fireAt <= rows[order[j]].fireAt)
  }

  function Marked(rows: seq<Wakeup>, ids: seq<nat>): (r: seq<Wakeup>)
    ensures |r| == |rows|
    ensures forall id | 0 <= id < |r| :: r[id] == if id in ids then rows[id].(status := Fired) else rows[id]
  {
    seq(|rows|, id requires 0 <= id < |rows| => if id in ids then rows[id].(status := Fired) else rows[id])
  }

  function Taken(rows: seq<Wakeup>, ids: seq<nat>, now: int): (r: seq<Claimed>)
    requires forall i | 0 <= i < |ids| :: ids[i] < |rows|
    ensures |r| == |ids| && forall i | 0 <= i < |r| :: r[i] == Claimed(ids[i], rows[ids[i]].reason, now)
  {
    seq(|ids|, i requires 0 <= i < |ids| => Claimed(ids[i], rows[ids[i]].reason, now))
  }

  /** A crash is also what a failing push amounts to: the rest of what is in flight is lost. */
  datatype Event =
    | Schedule(fireAt: int, reason: string)
    | Claim(now: int, order: seq<nat>)
    | Push
    | Crash
    | UserPush(raw: string)
    | Drain(maxItems: nat)

  ghost predicate Enabled(w: World, e: Event) {
    match e
    case Claim(now, order) => DueOrder(w.rows, now, order)
    case Push => w.inFlight != []
    case _ => true
  }

  function Min(x: nat, y: nat): nat { if x < y then x else y }

  ghost function Step(w: World, e: Event): World
    requires Enabled(w, e)
  {
    match e
    case Schedule(fireAt, reason) => w.(rows := w.rows + [Wakeup(fireAt, reason, Pending)])
    case Claim(now, order) => w.(rows := Marked(w.rows, order), inFlight := w.inFlight + Taken(w.rows, order, now))
    case Push => w.(inFlight := w.inFlight[1..], queue := w.queue + [FromWakeup(w.inFlight[0].id, w.inFlight[0].reason)])
    case Crash => w.(inFlight := [])
    case UserPush(raw) => w.(queue := w.queue + [FromUser(raw)])
    case Drain(maxItems) =>
      var n := Min(maxItems, |w.queue|);
      w.(queue := w.queue[n..], drained := w.drained + w.queue[..n])
  }

  /** The first n claimed wakeups have been put behind what was in the queue, each with its id and reason. */
  ghost predicate IsQueued(before: seq<Item>, after: seq<Item>, fired: seq<Claimed>, n: nat)
    requires n <= |fired|
  {
    && |after| == |before| + n && before <= after
    && forall k | 0 <= k < n :: after[|before| + k] == FromWakeup(fired[k].id, fired[k].reason)
  }

  /** Everything ever pushed. */
  function Pushed(w: World): seq<Item> { w.drained + w.queue }

  // ---- The objects ----

  class InputQueue {
    var items: seq<Item>
    ghost var drained: seq<Item>

    constructor ()
      ensures items == [] && drained == []
    {
      items, drained := [], [];
    }

    method Push(item: Item)
      modifies this
      ensures items == old(items) + [item] && drained == old(drained)
    {
      items := items + [item];
    }

    /** A bounded batch from the head, in order of arrival. */
    method Drain(maxItems: nat) returns (batch: seq<Item>)
      modifies this
      ensures |batch| == Min(maxItems, |old(items)|) && batch + items == old(items)
      ensures drained == old(drained) + batch
    {
      var n := if maxItems < |items| then maxItems else |items|;
      batch := items[..n];
      items := items[n..];
      drained := drained + batch;
    }
  }

  class Scheduler {
    var rows: seq<Wakeup>
    const queue: InputQueue

    constructor (queue: InputQueue)
      ensures this.queue == queue && rows == []
    {
      this.queue := queue;
      rows := [];
    }

    ghost function Now(): World
      reads this, queue
    {
      World(rows, [], queue.items, queue.drained)
    }

    method AddWakeup(now: int, delay: int, reason: string) returns (id: nat)
      modifies this
      ensures id == |old(rows)| && Now() == Step(old(Now()), Schedule(now + delay, reason))
    {
      id := |rows|;
      rows := rows + [Wakeup(now + delay, reason, Pending)];
    }

    /** The claim commits first; then the pushes, of which `through` succeed before one fails or the
        process stops. `due` is what the query answers. */
    method FireDue(now: int, due: seq<nat>, through: nat)
      requires DueOrder(rows, now, due)
      modifies this, queue
      ensures Now() == AfterFiring(old(Now()), now, due, through)
      ensures rows == Marked(old(rows), due) && queue.drained == old(queue.drained)
      ensures IsQueued(old(queue.items), queue.items, Taken(old(rows), due, now), Min(through, |due|))
    {
      var fired := Taken(rows, due, now);
      ghost var claimed := Step(Now(), Claim(now, due));
      rows := Marked(rows, due);
      assert [] + fired == fired;
      PushFired(fired, through, claimed);
    }

    method PushFired(fired: seq<Claimed>, through: nat, ghost claimed: World)
      requires claimed == World(rows, fired, queue.items, queue.drained)
      modifies queue
      ensures Now() == Step(Pushes(claimed, Min(through, |fired|)), Crash)
      ensures IsQueued(old(queue.items), queue.items, fired, Min(through, |fired|)) && queue.drained == old(queue.drained)
    {
      var i := 0;
      while i < |fired| && i < through
        invariant i <= |fired| && i <= through
        invariant World(rows, fired[i..], queue.items, queue.drained) == Pushes(claimed, i)
        invariant IsQueued(old(queue.items), queue.items, fired, i) && queue.drained == old(queue.drained)
      {
        var wakeup := fired[i];
        assert fired[i..][0] == wakeup && fired[i..][1..] == fired[i + 1..];
        queue.Push(FromWakeup(wakeup.id, wakeup.reason));
        i := i + 1;
      }
    }
  }

  /** The first n pushes of what is in flight. */
  ghost function Pushes(w: World, n: nat): (r: World)
    requires n <= |w.inFlight|
    ensures |r.inFlight| == |w.inFlight| - n
  {
    if n == 0 then w else Step(Pushes(w, n - 1), Push)
  }

  /** What a firing leaves behind when `through` pushes succeed. */
  ghost function AfterFiring(w: World, now: int, due: seq<nat>, through: nat): World
    requires w.inFlight == [] && DueOrder(w.rows, now, due)
  {
    Step(Pushes(Step(w, Claim(now, due)), Min(through, |due|)), Crash)
  }

  // ---- Runs ----

  ghost function Reached(events: seq<Event>): (w: World)
    requires Possible(events)
    decreases |events|, 1
  {
    if events == [] then World([], [], [], []) else Step(Reached(events[..|events| - 1]), events[|events| - 1])
  }

  ghost predicate Possible(events: seq<Event>)
    decreases |events|, 0
  {
    events == [] || (Possible(events[..|events| - 1]) && Enabled(Reached(events[..|events| - 1]), events[|events| - 1]))
  }

  /** How often a wakeup is among the inputs. */
  function Times(items: seq<Item>, id: nat): nat {
    if items == [] then 0
    else Times(items[..|items| - 1], id) + if items[|items| - 1].FromWakeup? && items[|items| - 1].id == id then 1 else 0
  }

  function TimesInFlight(claimed: seq<Claimed>, id: nat): nat {
    if claimed == [] then 0 else TimesInFlight(claimed[1..], id) + if claimed[0].id == id then 1 else 0
  }

  lemma {:induction false} TimesOfSum(xs: seq<Item>, ys: seq<Item>, id: nat)
    ensures Times(xs + ys, id) == Times(xs, id) + Times(ys, id)
  {
    if ys == [] {
      assert xs + ys == xs;
    } else {
      TimesOfSum(xs, ys[..|ys| - 1], id);
      assert (xs + ys)[..|xs + ys| - 1] == xs + ys[..|ys| - 1];
    }
  }

  lemma {:induction false} TimesInFlightOfSum(xs: seq<Claimed>, ys: seq<Claimed>, id: nat)
    ensures TimesInFlight(xs + ys, id) == TimesInFlight(xs, id) + TimesInFlight(ys, id)
  {
    if xs == [] {
      assert xs + ys == ys;
    } else {
      TimesInFlightOfSum(xs[1..], ys, id);
      assert (xs + ys)[1..] == xs[1..] + ys;
    }
  }

  lemma {:induction false} TakenOnce(claimed: seq<Claimed>, id: nat)
    requires forall i, j | 0 <= i < j < |claimed| :: claimed[i].id != claimed[j].id
    ensures TimesInFlight(claimed, id) == if exists i :: 0 <= i < |claimed| && claimed[i].id == id then 1 else 0
  {
    if claimed != [] {
      TakenOnce(claimed[1..], id);
      if claimed[0].id == id {
        assert forall i | 0 <= i < |claimed| - 1 :: claimed[1..][i] == claimed[i + 1];
      } else if i :| 0 <= i < |claimed| && claimed[i].id == id {
        assert claimed[1..][i - 1].id == id;
      }
    }
  }

  /** Times a wakeup was pushed or still will be unless the process stops. */
  ghost function Deliveries(w: World, id: nat): nat {
    Times(Pushed(w), id) + TimesInFlight(w.inFlight, id)
  }

  /** How a step changes the deliveries of a wakeup: a claim adds the due ones, a crash loses what is
      in flight, nothing else counts. */
  lemma DeliveriesStep(w: World, e: Event, id: nat)
    requires Enabled(w, e)
    ensures var t := Step(w, e);
      && (!e.Claim? && !e.Crash? ==> Deliveries(t, id) == Deliveries(w, id))
      && (e.Claim? ==> Deliveries(t, id) == Deliveries(w, id) + if Due(w.rows, e.now, id) then 1 else 0)
      && (e.Crash? ==> Deliveries(t, id) == Times(Pushed(w), id))
  {
    match e
    case Claim(now, order) =>
      var taken := Taken(w.rows, order, now);
      TimesInFlightOfSum(w.inFlight, taken, id);
      TakenOnce(taken, id);
      if Due(w.rows, now, id) {
        var i :| 0 <= i < |order| && order[i] == id;
        assert taken[i].id == id;
      }
    case Push =>
      var item := FromWakeup(w.inFlight[0].id, w.inFlight[0].reason);
      TimesOfSum(Pushed(w), [item], id);
      assert Pushed(Step(w, e)) == Pushed(w) + [item] && [item][..0] == [];
    case UserPush(raw) =>
      TimesOfSum(Pushed(w), [FromUser(raw)], id);
      assert Pushed(Step(w, e)) == Pushed(w) + [FromUser(raw)] && [FromUser(raw)][..0] == [];
    case Drain(maxItems) =>
      assert Pushed(Step(w, e)) == Pushed(w);
    case Schedule(_, _) =>
    case Crash =>
  }

  /** A wakeup that is still pending has not been delivered, one that has fired at most once. */
  lemma {:induction false} AtMostOnce(events: seq<Event>, id: nat)
    requires Possible(events)
    ensures var w := Reached(events);
      && Deliveries(w, id) <= 1
      && (id >= |w.rows| || w.rows[id].status.Pending? ==> Deliveries(w, id) == 0)
  {
    if events != [] {
      var before, e := events[..|events| - 1], events[|events| - 1];
      AtMostOnce(before, id);
      DeliveriesStep(Reached(before), e, id);
    }
  }

  /** A crash, or a failing push, fell between the wakeup's claim and its push. */
  ghost predicate Lost(events: seq<Event>, id: nat)
    requires Possible(events)
  {
    events != []
    && (Lost(events[..|events| - 1], id)
        || (events[|events| - 1].Crash? && TimesInFlight(Reached(events[..|events| - 1]).inFlight, id) > 0))
  }

  ghost predicate HasFired(w: World, id: nat) {
    id < |w.rows| && w.rows[id].status.Fired?
  }

  /** A fired wakeup is queued, or about to be, exactly once if no crash or failing push fell between its
      claim and its push, and never otherwise. */
  lemma {:induction false} ExactlyOnceUnlessLost(events: seq<Event>, id: nat)
    requires Possible(events)
    ensures Deliveries(Reached(events), id) == if HasFired(Reached(events), id) && !Lost(events, id) then 1 else 0
    ensures Lost(events, id) ==> HasFired(Reached(events), id)
  {
    if events != [] {
      var before, e := events[..|events| - 1], events[|events| - 1];
      ExactlyOnceUnlessLost(before, id);
      DeliveriesStep(Reached(before), e, id);
    }
  }

  /** A claim fires every wakeup that is due, and no other. */
  lemma ClaimFiresTheDue(w: World, now: int, order: seq<nat>, id: nat)
    requires Enabled(w, Claim(now, order)) && id < |w.rows|
    ensures var t := Step(w, Claim(now, order));
      t.rows[id].status.Fired? <==> w.rows[id].status.Fired? || w.rows[id].fireAt <= now
  {
  }

  /** No wakeup is delivered before its time: some claim at or after it came first. */
  lemma {:induction false} NeverEarly(events: seq<Event>, id: nat) returns (k: nat)
    requires Possible(events) && Deliveries(Reached(events), id) > 0
    ensures k < |events| && events[k].Claim?
    ensures id < |Reached(events).rows| && Reached(events).rows[id].fireAt <= events[k].now
  {
    var before, e := events[..|events| - 1], events[|events| - 1];
    DeliveriesStep(Reached(before), e, id);
    if Deliveries(Reached(before), id) > 0 {
      k := NeverEarly(before, id);
    } else {
      k := |events| - 1;
    }
  }

  // ---- One failing push ----

  lemma {:induction false} PushesDeliver(w: World, n: nat, id: nat)
    requires n <= |w.inFlight|
    ensures var r := Pushes(w, n); r.rows == w.rows && r.inFlight == w.inFlight[n..] && Deliveries(r, id) == Deliveries(w, id)
  {
    if n > 0 {
      PushesDeliver(w, n - 1, id);
      DeliveriesStep(Pushes(w, n - 1), Push, id);
    }
  }

  /** A claimed wakeup that was not pushed: it has fired and is delivered by nobody. */
  ghost predicate Missed(w: World, id: nat) {
    HasFired(w, id) && Deliveries(w, id) == 0
  }

  lemma FiringDelivers(w: World, now: int, due: seq<nat>, through: nat, id: nat)
    requires w.inFlight == [] && DueOrder(w.rows, now, due) && id in due
    ensures var after := AfterFiring(w, now, due, through);
      && HasFired(after, id)
      && Deliveries(after, id) == Deliveries(w, id) + 1 - TimesInFlight(Taken(w.rows, due, now)[Min(through, |due|)..], id)
  {
    var n, claimed := Min(through, |due|), Step(w, Claim(now, due));
    assert claimed.inFlight == Taken(w.rows, due, now);
    DeliveriesStep(w, Claim(now, due), id);
    PushesDeliver(claimed, n, id);
    DeliveriesStep(Pushes(claimed, n), Crash, id);
  }

  /** Of the claimed wakeups exactly those from the first failing push on are missed. */
  lemma MissedFrom(w: World, now: int, due: seq<nat>, through: nat, k: nat)
    requires w.inFlight == [] && DueOrder(w.rows, now, due) && k < |due|
    requires Deliveries(w, due[k]) == 0
    ensures Missed(AfterFiring(w, now, due, through), due[k]) <==> k >= through
  {
    FiringDelivers(w, now, due, through, due[k]);
    RestOnce(due, Min(through, |due|), k, Taken(w.rows, due, now)[Min(through, |due|)..]);
  }

  lemma RestOnce(due: seq<nat>, n: nat, k: nat, rest: seq<Claimed>)
    requires n <= |due| && k < |due| && |rest| == |due| - n
    requires forall i | 0 <= i < |rest| :: rest[i].id == due[n + i]
    requires forall i, j | 0 <= i < j < |due| :: due[i] != due[j]
    ensures TimesInFlight(rest, due[k]) == if k >= n then 1 else 0
  {
    TakenOnce(rest, due[k]);
    if k >= n {
      assert rest[k - n].id == due[k];
    }
  }

  ghost function MissedIn(w: World, ids: seq<nat>): set<nat> {
    set id | id in ids && Missed(w, id)
  }

  lemma {:induction false} SizeOfDistinct(ids: seq<nat>, s: set<nat>)
    requires forall i, j | 0 <= i < j < |ids| :: ids[i] != ids[j]
    requires forall id :: id in s <==> id in ids
    ensures |s| == |ids|
  {
    if ids != [] {
      var init, last := ids[..|ids| - 1], ids[|ids| - 1];
      assert ids == init + [last];
      SizeOfDistinct(init, s - {last});
    }
  }

  lemma MissedExactly(events: seq<Event>, now: int, due: seq<nat>, through: nat)
    requires Possible(events) && Reached(events).inFlight == [] && DueOrder(Reached(events).rows, now, due)
    ensures var missed := MissedIn(AfterFiring(Reached(events), now, due, through), due);
      forall k | 0 <= k < |due| :: due[k] in missed <==> k >= through
  {
    var w := Reached(events);
    forall k | 0 <= k < |due|
      ensures due[k] in MissedIn(AfterFiring(w, now, due, through), due) <==> k >= through
    {
      AtMostOnce(events, due[k]);
      MissedFrom(w, now, due, through, k);
    }
  }

  lemma SizeOfRest(due: seq<nat>, n: nat, s: set<nat>)
    requires n <= |due| && forall i, j | 0 <= i < j < |due| :: due[i] != due[j]
    requires forall id | id in s :: id in due
    requires forall k | 0 <= k < |due| :: due[k] in s <==> k >= n
    ensures |s| == |due| - n
  {
    var rest := due[n..];
    forall id ensures id in s <==> id in rest {
      if k :| 0 <= k < |due| && due[k] == id {
        assert k >= n ==> rest[k - n] == id;
      }
    }
    SizeOfDistinct(rest, s);
  }

  /** In every run, a failing push loses the rest of the batch: |due| - through wakeups, which is at most one
      exactly if at most the last push failed. */
  lemma AtMostOneMissedIff(events: seq<Event>, now: int, due: seq<nat>, through: nat)
    requires Possible(events) && Reached(events).inFlight == [] && DueOrder(Reached(events).rows, now, due)
    ensures var missed := MissedIn(AfterFiring(Reached(events), now, due, through), due);
      && (forall k | 0 <= k < |due| :: due[k] in missed <==> k >= through)
      && |missed| == |due| - Min(through, |due|)
      && (|missed| <= 1 <==> |due| <= through + 1)
  {
    MissedExactly(events, now, due, through);
    SizeOfRest(due, Min(through, |due|), MissedIn(AfterFiring(Reached(events), now, due, through), due));
  }

  lemma TwoScheduled(events: seq<Event>)
    requires events == [Schedule(0, "a"), Schedule(0, "b")]
    ensures Possible(events) && Reached(events) == World([Wakeup(0, "a", Pending), Wakeup(0, "b", Pending)], [], [], [])
  {
    var e1 := [Schedule(0, "a")];
    OneMore([], Schedule(0, "a"));
    OneMore(e1, Schedule(0, "b"));
    assert [] + [Schedule(0, "a")] == e1 && e1 + [Schedule(0, "b")] == events;
  }

  lemma ClaimAndCrash(before: seq<Event>, claimed: seq<Event>, events: seq<Event>)
    requires before == [Schedule(0, "a"), Schedule(0, "b")]
    requires claimed == before + [Claim(1, [0, 1])] && events == claimed + [Crash]
    ensures Possible(events)
    ensures Reached(events) == World([Wakeup(0, "a", Fired), Wakeup(0, "b", Fired)], [], [], [])
  {
    TwoScheduled(before);
    OneMore(before, Claim(1, [0, 1]));
    OneMore(claimed, Crash);
  }

  /** Two wakeups due at once and a first push that fails: both are missed for good. */
  lemma BatchMissed(events: seq<Event>)
    requires events == [Schedule(0, "a"), Schedule(0, "b"), Claim(1, [0, 1]), Crash]
    ensures Possible(events) && Missed(Reached(events), 0) && Missed(Reached(events), 1)
  {
    ClaimAndCrash(events[..2], events[..3], events);
  }

  lemma OneMore(events: seq<Event>, e: Event)
    requires Possible(events) && Enabled(Reached(events), e)
    ensures Possible(events + [e]) && Reached(events + [e]) == Step(Reached(events), e)
  {
    assert (events + [e])[..|events|] == events;
  }

  // ---- Order ----

  /** Inputs leave the queue in the order they came, in batches of bounded size, and none is lost. */
  lemma FirstInFirstOut(w: World, e: Event)
    requires Enabled(w, e)
    ensures var t := Step(w, e);
      && Pushed(w) <= Pushed(t) && w.drained <= t.drained
      && (e.Push? || e.UserPush? ==> |Pushed(t)| == |Pushed(w)| + 1)
      && (!e.Push? && !e.UserPush? ==> Pushed(t) == Pushed(w))
      && |t.drained| - |w.drained| == if e.Drain? then Min(e.maxItems, |w.queue|) else 0
  {
    if e.Drain? {
      assert Pushed(Step(w, e)) == Pushed(w);
    }
  }

  /** What an event puts into the queue. */
  function Input(w: World, e: Event): seq<Item> {
    match e
    case Push => if w.inFlight == [] then [] else [FromWakeup(w.inFlight[0].id, w.inFlight[0].reason)]
    case UserPush(raw) => [FromUser(raw)]
    case _ => []
  }

  /** Everything put into the queue in a run, in the order it came. */
  ghost function Inputs(events: seq<Event>): seq<Item>
    requires Possible(events)
  {
    if events == [] then [] else Inputs(events[..|events| - 1]) + Input(Reached(events[..|events| - 1]), events[|events| - 1])
  }

  /** In every run: what has left the queue, and then what waits in it, are the inputs in the order they came. */
  lemma {:induction false} InputsLeaveInOrder(events: seq<Event>)
    requires Possible(events)
    ensures Reached(events).drained + Reached(events).queue == Inputs(events)
  {
    if events != [] {
      var before, e := events[..|events| - 1], events[|events| - 1];
      InputsLeaveInOrder(before);
      InputStep(Reached(before), e);
    }
  }

  lemma InputStep(w: World, e: Event)
    requires Enabled(w, e)
    ensures Pushed(Step(w, e)) == Pushed(w) + Input(w, e)
  {
    if e.Drain? {
      FirstInFirstOut(w, e);
    }
  }

  /** The number of items all drains of a run took, each at most its bound. */
  ghost function Allowed(events: seq<Event>): nat {
    if events == [] then 0
    else Allowed(events[..|events| - 1]) + if events[|events| - 1].Drain? then events[|events| - 1].maxItems else 0
  }

  /** No run takes more than its batches allow, and earlier items never come after later ones: what had left at
      any earlier point is the front of what has left now. */
  lemma {:induction false} BatchesAreBounded(events: seq<Event>, i: nat)
    requires Possible(events) && i <= |events|
    ensures Possible(events[..i])
    ensures |Reached(events).drained| - |Reached(events[..i]).drained| <= Allowed(events) - Allowed(events[..i])
    ensures Reached(events[..i]).drained <= Reached(events).drained && Inputs(events[..i]) <= Inputs(events)
    decreases |events|
  {
    if i == |events| {
      assert events[..i] == events;
    } else {
      var before, e := events[..|events| - 1], events[|events| - 1];
      BatchesAreBounded(before, i);
      assert before[..i] == events[..i];
      FirstInFirstOut(Reached(before), e);
    }
  }
}
