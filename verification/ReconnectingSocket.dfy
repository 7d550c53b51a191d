/** The reconnecting socket of the live streams (frontend/src/services/reconnectingSocket.ts). */
module ReconnectingSocket {

  datatype Option<T> = None | Some(value: T)

  datatype Status = Connecting | Open | Reconnecting | Closed

  const POLICY_VIOLATION := 1008

  datatype Options = Options(initialBackoffMs: real, maxBackoffMs: real)

  /** The fields of the object, and the browser's side of it: how many sockets were ever created,
      which of them have not had their close event, the pending timers with their delays, the last
      status shown and how often the token was rejected. */
  datatype State = State(
    socket: Option<nat>, stopped: bool, backoffMs: real, reconnectTimer: Option<nat>,
    created: nat, live: set<nat>, timers: map<nat, real>, nextTimer: nat, status: Status, rejected: nat)

  function Initial(o: Options): State {
    State(None, false, o.initialBackoffMs, None, 0, {}, map[], 0, Closed, 0)
  }

  /** What the environment holds ready for an attempt to connect. */
  datatype Attempt = NoToken | ConstructorThrows | Constructs

  datatype Event = Start(attempt: Attempt) | Stop | Opened(id: nat) | Closes(id: nat, code: int) | Fired(timer: nat, attempt: Attempt)

  function Min(x: real, y: real): real { if x < y then x else y }

  function AfterSchedule(o: Options, s: State): (r: State)
    ensures r.timers.Keys == s.timers.Keys + {s.nextTimer} && s.nextTimer in r.timers
  {
    s.(status := Reconnecting, reconnectTimer := Some(s.nextTimer), timers := s.timers[s.nextTimer := s.backoffMs],
       nextTimer := s.nextTimer + 1, backoffMs := Min(s.backoffMs * 2.0, o.maxBackoffMs))
  }

  function AfterConnect(o: Options, s: State, a: Attempt): State {
    match a
    case NoToken => s.(status := Closed)
    case ConstructorThrows => AfterSchedule(o, s)
    case Constructs =>
      s.(socket := Some(s.created), created := s.created + 1, live := s.live + {s.created},
         status := if s.backoffMs == o.initialBackoffMs then Connecting else Reconnecting)
  }

  function AfterStart(o: Options, s: State, a: Attempt): State {
    if s.socket.Some? then s.(stopped := false) else AfterConnect(o, s.(stopped := false), a)
  }

  function AfterStop(s: State): State {
    s.(stopped := true, socket := None, status := Closed, reconnectTimer := None,
       timers := if s.reconnectTimer.Some? then s.timers - {s.reconnectTimer.value} else s.timers)
  }

  function AfterClose(o: Options, s: State, id: nat, code: int): State {
    var t := s.(socket := None, live := s.live - {id});
    if s.stopped then t
    else if code == POLICY_VIOLATION then t.(stopped := true, rejected := s.rejected + 1, status := Closed)
    else AfterSchedule(o, t)
  }

  function AfterFired(o: Options, s: State, timer: nat, a: Attempt): State {
    var t := s.(reconnectTimer := None, timers := s.timers - {timer});
    if s.stopped then t else AfterConnect(o, t, a)
  }

  function Step(o: Options, s: State, e: Event): State {
    match e
    case Start(a) => AfterStart(o, s, a)
    case Stop => AfterStop(s)
    case Opened(id) => s.(backoffMs := o.initialBackoffMs, status := Open)
    case Closes(id, code) => AfterClose(o, s, id, code)
    case Fired(timer, a) => AfterFired(o, s, timer, a)
  }

  /** Only a socket that has not closed can open or close, and only a pending timer can fire. */
  predicate Enabled(s: State, e: Event) {
    match e
    case Opened(id) => id in s.live
    case Closes(id, code) => id in s.live
    case Fired(timer, a) => timer in s.timers
    case _ => true
  }

  // ---- The object ----

  class ReconnectingSocket {
    const options: Options
    var socket: Option<nat>
    var stopped: bool
    var backoffMs: real
    var reconnectTimer: Option<nat>
    var created: nat
    var live: set<nat>
    var timers: map<nat, real>
    var nextTimer: nat
    var status: Status
    var rejected: nat

    function Now(): State
      reads this
    {
      State(socket, stopped, backoffMs, reconnectTimer, created, live, timers, nextTimer, status, rejected)
    }

    constructor (options: Options)
      ensures this.options == options && Now() == Initial(options)
      ensures !stopped && socket == None && reconnectTimer == None && live == {} && timers == map[] && created == 0
      ensures backoffMs == options.initialBackoffMs && status == Closed && rejected == 0
    {
      this.options := options;
      socket, stopped, backoffMs, reconnectTimer := None, false, options.initialBackoffMs, None;
      created, live, timers, nextTimer, status, rejected := 0, {}, map[], 0, Closed, 0;
    }

    method StartUp(a: Attempt)
      modifies this
      ensures Now() == Step(options, old(Now()), Start(a))
      ensures !stopped && rejected == old(rejected) && reconnectTimer == (if old(socket).None? && a.ConstructorThrows? then Some(old(nextTimer)) else old(reconnectTimer))
      ensures old(socket).Some? ==> socket == old(socket) && live == old(live) && timers == old(timers) && status == old(status)
      ensures old(socket).None? && a.NoToken? ==> status == Closed && socket == None && live == old(live) && timers == old(timers)
      ensures old(socket).None? && a.ConstructorThrows? ==>
        status == Reconnecting && socket == None && live == old(live) && timers == old(timers)[old(nextTimer) := old(backoffMs)]
      ensures old(socket).None? && a.Constructs? ==>
        && socket == Some(old(created)) && live == old(live) + {old(created)} && timers == old(timers)
        && status == if old(backoffMs) == options.initialBackoffMs then Connecting else Reconnecting
    {
      stopped := false;
      if socket.Some? {
        return;
      }
      Connect(a);
    }

    method ShutDown()
      modifies this
      ensures Now() == Step(options, old(Now()), Stop)
      ensures stopped && socket == None && reconnectTimer == None && status == Closed
      ensures timers == if old(reconnectTimer).Some? then old(timers) - {old(reconnectTimer).value} else old(timers)
      ensures live == old(live) && created == old(created) && backoffMs == old(backoffMs) && rejected == old(rejected)
    {
      stopped := true;
      if reconnectTimer.Some? {
        timers := timers - {reconnectTimer.value};
        reconnectTimer := None;
      }
      socket := None;
      status := Closed;
    }

    method Connect(a: Attempt)
      modifies this
      ensures Now() == AfterConnect(options, old(Now()), a)
    {
      if a.NoToken? {
        status := Closed;
        return;
      }
      status := if backoffMs == options.initialBackoffMs then Connecting else Reconnecting;
      if a.ConstructorThrows? {
        ScheduleReconnect();
        return;
      }
      socket, live, created := Some(created), live + {created}, created + 1;
    }

    method OnOpen(id: nat)
      modifies this
      ensures Now() == Step(options, old(Now()), Opened(id))
      ensures backoffMs == options.initialBackoffMs && status == Open
      ensures socket == old(socket) && stopped == old(stopped) && live == old(live) && timers == old(timers)
    {
      backoffMs := options.initialBackoffMs;
      status := Open;
    }

    method OnClose(id: nat, code: int)
      modifies this
      ensures Now() == Step(options, old(Now()), Closes(id, code))
      ensures socket == None && live == old(live) - {id} && created == old(created)
      ensures old(stopped) ==> stopped && status == old(status) && timers == old(timers) && rejected == old(rejected)
      ensures !old(stopped) && code == 1008 ==> stopped && status == Closed && timers == old(timers) && rejected == old(rejected) + 1
      ensures !old(stopped) && code != 1008 ==>
        && !stopped && status == Reconnecting && rejected == old(rejected) && timers == old(timers)[old(nextTimer) := old(backoffMs)]
        && backoffMs == if old(backoffMs) * 2.0 < options.maxBackoffMs then old(backoffMs) * 2.0 else options.maxBackoffMs
    {
      socket, live := None, live - {id};
      if stopped {
        return;
      }
      if code == POLICY_VIOLATION {
        stopped := true;
        rejected := rejected + 1;
        status := Closed;
        return;
      }
      ScheduleReconnect();
    }

    method ScheduleReconnect()
      modifies this
      ensures Now() == AfterSchedule(options, old(Now()))
    {
      status := Reconnecting;
      reconnectTimer, timers, nextTimer := Some(nextTimer), timers[nextTimer := backoffMs], nextTimer + 1;
      backoffMs := Min(backoffMs * 2.0, options.maxBackoffMs);
    }

    method OnTimer(timer: nat, a: Attempt)
      modifies this
      ensures Now() == Step(options, old(Now()), Fired(timer, a))
      ensures stopped == old(stopped) && rejected == old(rejected)
      ensures old(stopped) ==> socket == old(socket) && live == old(live) && timers == old(timers) - {timer} && status == old(status)
      ensures !old(stopped) && a.Constructs? ==> socket == Some(old(created)) && live == old(live) + {old(created)} && timers == old(timers) - {timer}
      ensures !old(stopped) && a.NoToken? ==> socket == old(socket) && live == old(live) && timers == old(timers) - {timer} && status == Closed
      ensures !old(stopped) && a.ConstructorThrows? ==>
        socket == old(socket) && live == old(live) && timers == (old(timers) - {timer})[old(nextTimer) := old(backoffMs)] && status == Reconnecting
    {
      timers := timers - {timer};
      reconnectTimer := None;
      if !stopped {
        Connect(a);
      }
    }
  }

  // ---- Runs ----

  function Reached(o: Options, events: seq<Event>): State {
    if events == [] then Initial(o) else Step(o, Reached(o, events[..|events| - 1]), events[|events| - 1])
  }

  ghost predicate Possible(o: Options, events: seq<Event>) {
    events == [] || (Possible(o, events[..|events| - 1]) && Enabled(Reached(o, events[..|events| - 1]), events[|events| - 1]))
  }

  /** One start, and it comes first. */
  ghost predicate OneStart(events: seq<Event>) {
    forall i | 0 <= i < |events| :: events[i].Start? <==> i == 0
  }

  /** Failed attempts since the last open. */
  function Failures(o: Options, events: seq<Event>): nat {
    if events == [] then 0
    else
      var before, e := events[..|events| - 1], events[|events| - 1];
      if e.Opened? then 0
      else if Reached(o, events).nextTimer > Reached(o, before).nextTimer then Failures(o, before) + 1
      else Failures(o, before)
  }

  function Doubled(x: real, k: nat): real {
    if k == 0 then x else Doubled(x, k - 1) * 2.0
  }

  function Backoff(o: Options, k: nat): real {
    if k == 0 then o.initialBackoffMs else Min(Doubled(o.initialBackoffMs, k), o.maxBackoffMs)
  }

  /** Never a live socket and a pending timer together, nor two of either. */
  ghost predicate Single(s: State) {
    |s.live| + |s.timers| <= 1
  }

  ghost predicate Sound(s: State) {
    && (s.socket.Some? ==> s.live == {s.socket.value} && s.timers.Keys == {} && !s.stopped)
    && (s.reconnectTimer.Some? <==> s.timers.Keys != {})
    && (s.reconnectTimer.Some? ==> s.timers.Keys == {s.reconnectTimer.value} && s.live == {} && !s.stopped)
    && (forall id | id in s.live :: id < s.created && s.live == {id})
    && (forall timer | timer in s.timers :: timer < s.nextTimer)
  }

  /** A start has nothing to do, or nothing else is under way. */
  predicate Harmless(s: State, a: Attempt) {
    s.socket.Some? || a.NoToken? || (s.live == {} && s.timers.Keys == {})
  }

  lemma SoundIsSingle(s: State)
    requires Sound(s)
    ensures Single(s)
  {
    assert |s.timers| == |s.timers.Keys|;
    if id :| id in s.live {
      assert s.live == {id};
    } else {
      assert s.live == {};
    }
  }

  lemma StepIsSound(o: Options, s: State, e: Event)
    requires Sound(s) && Enabled(s, e) && (e.Start? ==> Harmless(s, e.attempt))
    ensures Sound(Step(o, s, e))
    ensures s.stopped && !e.Start? ==> Step(o, s, e).stopped && Step(o, s, e).created == s.created
    ensures e.Stop? ==> Step(o, s, e).stopped && Step(o, s, e).created == s.created
    ensures e.Closes? && e.code == POLICY_VIOLATION ==> Step(o, s, e).stopped && Step(o, s, e).created == s.created
  {
    match e
    case Fired(timer, a) =>
      assert (s.timers - {timer}).Keys == {};
    case _ =>
  }

  /** Every start of the run was harmless in the state it met. */
  ghost predicate HarmlessStarts(o: Options, events: seq<Event>) {
    events == []
    || (HarmlessStarts(o, events[..|events| - 1])
        && (events[|events| - 1].Start? ==> Harmless(Reached(o, events[..|events| - 1]), events[|events| - 1].attempt)))
  }

  lemma {:induction false} RunIsSound(o: Options, events: seq<Event>)
    requires Possible(o, events) && HarmlessStarts(o, events)
    ensures Sound(Reached(o, events))
  {
    if events != [] {
      RunIsSound(o, events[..|events| - 1]);
      StepIsSound(o, Reached(o, events[..|events| - 1]), events[|events| - 1]);
    }
  }

  /** A start that is not harmless breaks the stream in two. */
  lemma HarmlessIff(o: Options, s: State, a: Attempt)
    requires Sound(s)
    ensures Single(AfterStart(o, s, a)) <==> Harmless(s, a)
  {
    SoundIsSingle(s);
    var t := AfterStart(o, s, a);
    assert |s.timers| == |s.timers.Keys| && |t.timers| == |t.timers.Keys|;
    if s.socket.None? && a.ConstructorThrows? {
      assert t.timers.Keys == s.timers.Keys + {s.nextTimer};
    }
  }

  /** All along the run there was one stream at most. */
  ghost predicate AlwaysSingle(o: Options, events: seq<Event>) {
    Single(Reached(o, events)) && (events == [] || AlwaysSingle(o, events[..|events| - 1]))
  }

  /** In any run, with any number of starts: there is never a live socket and a pending timer together, nor
      two of either, exactly if every start was harmless. */
  lemma {:induction false} OneStreamIff(o: Options, events: seq<Event>)
    requires Possible(o, events)
    ensures AlwaysSingle(o, events) <==> HarmlessStarts(o, events)
  {
    if events != [] {
      var before, e := events[..|events| - 1], events[|events| - 1];
      OneStreamIff(o, before);
      if HarmlessStarts(o, before) {
        RunIsSound(o, before);
        if HarmlessStarts(o, events) {
          RunIsSound(o, events);
          SoundIsSingle(Reached(o, events));
        } else {
          HarmlessIff(o, Reached(o, before), e.attempt);
        }
      }
    }
  }

  lemma {:induction false} OneStartIsHarmless(o: Options, events: seq<Event>)
    requires Possible(o, events) && OneStart(events)
    ensures HarmlessStarts(o, events)
  {
    if events != [] {
      OneStartIsHarmless(o, events[..|events| - 1]);
      assert events[|events| - 1].Start? ==> events[..|events| - 1] == [];
    }
  }

  /** With one start, over every interleaving of opens, closes, throwing constructors, timers and stops: a
      live socket or a pending timer, never both and never two. */
  lemma OneStreamAtATime(o: Options, events: seq<Event>)
    requires Possible(o, events) && OneStart(events)
    ensures Single(Reached(o, events))
  {
    OneStartIsHarmless(o, events);
    RunIsSound(o, events);
    SoundIsSingle(Reached(o, events));
  }

  // ---- The status shown ----

  /** Nothing is left that could reconnect. */
  predicate Ended(s: State) {
    s.socket.None? && s.timers.Keys == {}
  }

  /** Since the last stop, a socket has opened while stopped. */
  ghost predicate OpenedLate(o: Options, events: seq<Event>) {
    if events == [] then false
    else
      var before, e := events[..|events| - 1], events[|events| - 1];
      !e.Stop? && (OpenedLate(o, before) || (e.Opened? && Reached(o, before).stopped))
  }

  /** What one start adds: a socket that is no longer held is being closed. */
  ghost predicate Closing(s: State) {
    s.live != {} && s.socket.None? ==> s.stopped
  }

  lemma {:induction false} RunIsClosing(o: Options, events: seq<Event>)
    requires Possible(o, events) && OneStart(events)
    ensures Closing(Reached(o, events))
    ensures Reached(o, events).stopped ==> Ended(Reached(o, events))
    ensures OpenedLate(o, events) ==> Reached(o, events).stopped
    ensures Reached(o, events).status.Closed? <==> Ended(Reached(o, events)) && !OpenedLate(o, events)
  {
    if events != [] {
      var before, e := events[..|events| - 1], events[|events| - 1];
      RunIsClosing(o, before);
      OneStartIsHarmless(o, before);
      RunIsSound(o, before);
      StatusStep(o, Reached(o, before), e, OpenedLate(o, before), before == []);
    }
  }

  lemma StatusStep(o: Options, s: State, e: Event, late: bool, first: bool)
    requires Sound(s) && Closing(s) && Enabled(s, e) && (s.stopped ==> Ended(s)) && (late ==> s.stopped)
    requires s.status.Closed? <==> Ended(s) && !late
    requires e.Start? <==> first
    requires first ==> s == Initial(o) && !late
    ensures var t := Step(o, s, e);
      var nowLate := !e.Stop? && (late || (e.Opened? && s.stopped));
      && Closing(t) && (t.stopped ==> Ended(t)) && (nowLate ==> t.stopped)
      && (t.status.Closed? <==> Ended(t) && !nowLate)
  {
    match e
    case Fired(timer, a) =>
      assert (s.timers - {timer}).Keys == {};
    case _ =>
  }

  /** With one start, closed is shown exactly when nothing is left that could reconnect, unless a socket
      opened late: onopen does not ask whether the stream has been stopped. */
  lemma ClosedIsShownIff(o: Options, events: seq<Event>)
    requires Possible(o, events) && OneStart(events)
    ensures (Reached(o, events).status.Closed? <==> Ended(Reached(o, events))) <==> !OpenedLate(o, events)
  {
    RunIsClosing(o, events);
  }

  /** Start, stop, and then the open of the socket that is closing: open is shown, and stays. */
  lemma OpenShownAfterStop(o: Options)
    ensures var events := [Start(Constructs), Stop, Opened(0)];
      Possible(o, events) && Reached(o, events).status.Open? && Ended(Reached(o, events))
    ensures var events := [Start(Constructs), Stop, Opened(0), Closes(0, 1000)];
      Possible(o, events) && Reached(o, events).status.Open? && Reached(o, events).live == {}
  {
    var e0, e1, e2 := [Start(Constructs)], [Start(Constructs), Stop], [Start(Constructs), Stop, Opened(0)];
    OneMore(o, [], Start(Constructs));
    OneMore(o, e0, Stop);
    OneMore(o, e1, Opened(0));
    OneMore(o, e2, Closes(0, 1000));
    assert [] + [Start(Constructs)] == e0 && e0 + [Stop] == e1 && e1 + [Opened(0)] == e2;
    assert e2 + [Closes(0, 1000)] == [Start(Constructs), Stop, Opened(0), Closes(0, 1000)];
  }

  /** After a stop, or a close that rejects the token, no socket is ever created again. */
  lemma {:induction false} NoSocketAfterTheEnd(o: Options, events: seq<Event>, i: nat)
    requires Possible(o, events) && OneStart(events) && i < |events|
    requires events[i].Stop? || (events[i].Closes? && events[i].code == POLICY_VIOLATION)
    ensures Reached(o, events).stopped && Reached(o, events).created == Reached(o, events[..i]).created
    decreases |events|
  {
    var n := |events| - 1;
    var before := events[..n];
    OneStartIsHarmless(o, before);
    RunIsSound(o, before);
    OneStartIsHarmless(o, events);
    StepIsSound(o, Reached(o, before), events[n]);
    if i < n {
      NoSocketAfterTheEnd(o, before, i);
      assert before[..i] == events[..i];
    }
  }

  lemma BackoffDoubles(o: Options, k: nat)
    requires 0.0 <= o.initialBackoffMs && 0.0 <= o.maxBackoffMs
    ensures Min(Backoff(o, k) * 2.0, o.maxBackoffMs) == Backoff(o, k + 1)
  {
  }

  /** The backoff is the initial one doubled at every failure since the last open, up to the maximum,
      and a pending timer waits for the backoff before its failure. */
  lemma {:induction false} BackoffIsCappedDoubling(o: Options, events: seq<Event>)
    requires Possible(o, events) && OneStart(events)
    requires 0.0 <= o.initialBackoffMs && 0.0 <= o.maxBackoffMs
    ensures var s, k := Reached(o, events), Failures(o, events);
      && s.backoffMs == Backoff(o, k)
      && forall timer | timer in s.timers :: k > 0 && s.timers[timer] == Backoff(o, k - 1)
  {
    if events != [] {
      var before := events[..|events| - 1];
      assert OneStart(before);
      BackoffIsCappedDoubling(o, before);
      BackoffDoubles(o, Failures(o, before));
      OneStartIsHarmless(o, before);
      RunIsSound(o, before);
    }
  }

  /** The first backoff too respects the maximum exactly when the initial one does. */
  lemma BackoffIsMinimumIff(o: Options, k: nat)
    ensures Backoff(o, k) == Min(Doubled(o.initialBackoffMs, k), o.maxBackoffMs) <==> k > 0 || o.initialBackoffMs <= o.maxBackoffMs
  {
  }

  lemma OneMore(o: Options, events: seq<Event>, e: Event)
    ensures Reached(o, events + [e]) == Step(o, Reached(o, events), e)
    ensures Possible(o, events + [e]) <==> Possible(o, events) && Enabled(Reached(o, events), e)
  {
    assert (events + [e])[..|events|] == events;
  }

  /** A second start while a reconnect is pending leads to two live sockets. */
  lemma TwoSockets(o: Options)
    ensures var events := [Start(Constructs), Closes(0, 1006), Start(Constructs), Fired(0, Constructs)];
      Possible(o, events) && Reached(o, events).live == {1, 2}
  {
    var e0, e1, e2 := [Start(Constructs)], [Start(Constructs), Closes(0, 1006)], [Start(Constructs), Closes(0, 1006), Start(Constructs)];
    OneMore(o, [], Start(Constructs));
    OneMore(o, e0, Closes(0, 1006));
    OneMore(o, e1, Start(Constructs));
    OneMore(o, e2, Fired(0, Constructs));
    assert [] + [Start(Constructs)] == e0 && e0 + [Closes(0, 1006)] == e1 && e1 + [Start(Constructs)] == e2;
    assert e2 + [Fired(0, Constructs)] == [Start(Constructs), Closes(0, 1006), Start(Constructs), Fired(0, Constructs)];
  }
}
