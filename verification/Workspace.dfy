/** The global workspace: a persisted, redacting bus whose handlers may emit further events
    (brain/workspace.py). */
module Workspace {
  import opened CredentialRules
  import opened PayloadRedaction

  datatype Event = Event(id: Option<nat>, kind: string, payload: seq<Field>, hops: int)

  /** What the log keeps of an event; its id is its position. */
  datatype Row = Row(kind: string, payload: seq<Field>)

  /** What arrives on the channel: an event, or bytes that do not parse as one. */
  datatype Message = Wire(event: Event) | Malformed

  datatype Reply = Raised | Emitted(events: seq<Event>)

  /** Where a broadcast fails, if it does: before the row is stored, or after that but before the
      event is published. */
  datatype Fault = NoFault | PersistFails | PublishFails

  type Handler = nat

  /** A handler called with an event. */
  datatype Asked = Asked(handler: Handler, event: Event)

  // ---- What one event sets off ----

  /** What a handler answers; `n` counts the calls made before. A handler may answer differently
      from call to call, so it can have state. */
  function Ask(reply: (Handler, Event, nat) -> Reply, handler: Handler, e: Event, n: nat): Reply {
    reply(handler, e, n)
  }

  function WithHops(es: seq<Event>, hops: int): seq<Event> {
    if es == [] then [] else WithHops(es[..|es| - 1], hops) + [es[|es| - 1].(hops := hops)]
  }

  /** A failing handler emits nothing, and nothing is passed on once the cap is reached. */
  function PassedOn(r: Reply, maxHops: int, e: Event): seq<Event> {
    if r.Raised? || e.hops >= maxHops then [] else WithHops(r.events, e.hops + 1)
  }

  /** The events the first i handlers emit for `e`, in order. */
  function Emissions(reply: (Handler, Event, nat) -> Reply, maxHops: int, handlers: seq<Handler>, i: nat, e: Event, n: nat): seq<Event>
    requires i <= |handlers|
  {
    if i == 0 then []
    else Emissions(reply, maxHops, handlers, i - 1, e, n) + PassedOn(Ask(reply, handlers[i - 1], e, n + i - 1), maxHops, e)
  }

  lemma EmissionsMore(reply: (Handler, Event, nat) -> Reply, maxHops: int, handlers: seq<Handler>, i: nat, e: Event, n: nat, calls: nat)
    requires i < |handlers| && calls == n + i
    ensures Emissions(reply, maxHops, handlers, i + 1, e, n)
            == Emissions(reply, maxHops, handlers, i, e, n) + PassedOn(Ask(reply, handlers[i], e, calls), maxHops, e)
  {
    assert n + (i + 1) - 1 == calls;
  }

  lemma StaysPrefix(before: seq<Event>, es: seq<Event>, more: seq<Event>)
    requires before <= es
    ensures before <= es + more
  {
  }

  lemma {:induction false} EmissionsGrow(reply: (Handler, Event, nat) -> Reply, maxHops: int, handlers: seq<Handler>, i: nat, j: nat, e: Event, n: nat)
    requires i <= j <= |handlers|
    ensures Emissions(reply, maxHops, handlers, i, e, n) <= Emissions(reply, maxHops, handlers, j, e, n)
    decreases j
  {
    if i < j {
      EmissionsGrow(reply, maxHops, handlers, i, j - 1, e, n);
      EmissionsMore(reply, maxHops, handlers, j - 1, e, n, n + (j - 1));
      StaysPrefix(Emissions(reply, maxHops, handlers, i, e, n), Emissions(reply, maxHops, handlers, j - 1, e, n),
                  PassedOn(Ask(reply, handlers[j - 1], e, n + (j - 1)), maxHops, e));
    }
  }

  lemma NextEmissions(reply: (Handler, Event, nat) -> Reply, maxHops: int, handlers: seq<Handler>, i: nat, e: Event, n: nat, calls: nat)
    requires i < |handlers| && calls == n + i
    ensures var done, more := Emissions(reply, maxHops, handlers, i, e, n), Emissions(reply, maxHops, handlers, i + 1, e, n);
      && more == done + PassedOn(Ask(reply, handlers[i], e, calls), maxHops, e)
      && more <= Emissions(reply, maxHops, handlers, |handlers|, e, n)
  {
    EmissionsMore(reply, maxHops, handlers, i, e, n, calls);
    EmissionsGrow(reply, maxHops, handlers, i + 1, |handlers|, e, n);
  }

  predicate OneHopOn(out: seq<Event>, maxHops: int, e: Event) {
    forall i | 0 <= i < |out| :: out[i].hops == e.hops + 1 && e.hops < maxHops
  }

  lemma {:induction false} WithHopsMeaning(es: seq<Event>, hops: int)
    ensures |WithHops(es, hops)| == |es|
    ensures forall i | 0 <= i < |es| :: WithHops(es, hops)[i] == es[i].(hops := hops)
  {
    if es != [] {
      WithHopsMeaning(es[..|es| - 1], hops);
    }
  }

  lemma PassedOnIsOneHopOn(r: Reply, maxHops: int, e: Event)
    ensures OneHopOn(PassedOn(r, maxHops, e), maxHops, e)
  {
    if r.Emitted? {
      WithHopsMeaning(r.events, e.hops + 1);
    }
  }

  /** What is passed on of a reply: nothing if the handler raised or the cap is reached; otherwise every event
      emitted, in order, as it was but one hop beyond the event handled. */
  lemma PassedOnMeaning(r: Reply, maxHops: int, e: Event)
    ensures var out := PassedOn(r, maxHops, e);
      if r.Raised? || e.hops >= maxHops then out == []
      else |out| == |r.events| && forall i | 0 <= i < |out| :: out[i] == r.events[i].(hops := e.hops + 1)
  {
    if r.Emitted? {
      WithHopsMeaning(r.events, e.hops + 1);
    }
  }

  lemma OneHopOnTogether(xs: seq<Event>, ys: seq<Event>, maxHops: int, e: Event)
    requires OneHopOn(xs, maxHops, e) && OneHopOn(ys, maxHops, e)
    ensures OneHopOn(xs + ys, maxHops, e)
  {
  }

  lemma {:induction false} EmissionsAreOneHopOn(reply: (Handler, Event, nat) -> Reply, maxHops: int, handlers: seq<Handler>, i: nat, e: Event, n: nat)
    requires i <= |handlers|
    ensures OneHopOn(Emissions(reply, maxHops, handlers, i, e, n), maxHops, e)
  {
    if i > 0 {
      EmissionsAreOneHopOn(reply, maxHops, handlers, i - 1, e, n);
      var r := Ask(reply, handlers[i - 1], e, n + i - 1);
      PassedOnIsOneHopOn(r, maxHops, e);
      OneHopOnTogether(Emissions(reply, maxHops, handlers, i - 1, e, n), PassedOn(r, maxHops, e), maxHops, e);
    }
  }

  // ---- The bus after a broadcast ----

  datatype Trail = Trail(log: seq<Row>, published: seq<Event>, bus: seq<Message>)

  function Stamped(policy: Policy, e: Event, id: nat): Event {
    e.(id := Some(id), payload := RedactPayload(policy, e.payload))
  }

  /** Redacted, stored under the next id, published. */
  function Send(policy: Policy, t: Trail, e: Event): Trail {
    var sent := Stamped(policy, e, |t.log|);
    Trail(t.log + [Row(sent.kind, sent.payload)], t.published + [sent], t.bus + [Wire(sent)])
  }

  /** What is sent of an event: its kind and hops under a new id, and its payload with every key, list and scalar
      in place and only strings and sensitive values replaced; the payload itself when nothing is to be redacted. */
  ghost predicate IsCopy(policy: Policy, e: Event, sent: Event, id: nat) {
    && sent.id == Some(id) && sent.kind == e.kind && sent.hops == e.hops
    && Object(sent.payload) == RedactValue(policy, Object(e.payload))
    && SameShape(policy, Object(e.payload), Object(sent.payload))
    && (policy.Scrubbable() && Settled(policy, Object(e.payload)) ==> sent.payload == e.payload)
  }

  /** One event sent: one row and one event on the channel more, both copies of that very event. */
  lemma SentIsCopy(policy: Policy, t: Trail, e: Event)
    ensures var u := Send(policy, t, e);
      && |u.log| == |t.log| + 1 && u.log[..|t.log|] == t.log
      && |u.published| == |t.published| + 1 && u.published[..|t.published|] == t.published
      && IsCopy(policy, e, u.published[|t.published|], |t.log|)
      && u.log[|t.log|] == Row(e.kind, u.published[|t.published|].payload)
      && u.bus == t.bus + [Wire(u.published[|t.published|])]
  {
    ShapeIsKept(policy, Object(e.payload));
    if policy.Scrubbable() {
      UnchangedIffSettled(policy, Object(e.payload));
    }
  }

  function After(policy: Policy, t: Trail, es: seq<Event>): Trail {
    if es == [] then t else Send(policy, After(policy, t, es[..|es| - 1]), es[|es| - 1])
  }

  lemma {:induction false} AfterMore(policy: Policy, t: Trail, es: seq<Event>, more: seq<Event>)
    ensures After(policy, t, es + more) == After(policy, After(policy, t, es), more)
  {
    if more == [] {
      assert es + more == es;
    } else {
      var n := |more| - 1;
      assert (es + more)[..|es| + n] == es + more[..n];
      AfterMore(policy, t, es, more[..n]);
    }
  }

  /** Several events sent: a row and an event on the channel for each, in order, the i-th a copy of the i-th. */
  lemma {:induction false} SentInOrder(policy: Policy, t: Trail, es: seq<Event>, i: nat)
    requires i < |es|
    ensures var u := After(policy, t, es);
      && |u.log| == |t.log| + |es| && |u.published| == |t.published| + |es|
      && IsCopy(policy, es[i], u.published[|t.published| + i], |t.log| + i)
      && u.log[|t.log| + i] == Row(es[i].kind, u.published[|t.published| + i].payload)
  {
    var n := |es| - 1;
    var before := After(policy, t, es[..n]);
    AfterGrows(policy, t, es[..n]);
    PublishedGrows(policy, t, es[..n]);
    SentIsCopy(policy, before, es[n]);
    if i < n {
      SentInOrder(policy, t, es[..n], i);
    }
  }

  lemma {:induction false} PublishedGrows(policy: Policy, t: Trail, es: seq<Event>)
    ensures |After(policy, t, es).published| == |t.published| + |es|
  {
    if es != [] {
      PublishedGrows(policy, t, es[..|es| - 1]);
    }
  }

  /** How far a broadcast of several events got: nothing is taken back, and nothing is published or
      stored beyond what was asked for. */
  ghost predicate Between(a: Trail, b: Trail, c: Trail) {
    a.published <= b.published <= c.published && |b.log| <= |c.log|
  }

  lemma BetweenVia(a: Trail, b: Trail, now: Trail, c: Trail, d: Trail)
    requires Between(a, b, d) && Between(b, now, c) && Between(a, c, d)
    ensures Between(a, now, d)
  {
  }

  lemma {:induction false} AfterGrows(policy: Policy, t: Trail, es: seq<Event>)
    ensures Between(t, t, After(policy, t, es)) && |After(policy, t, es).log| == |t.log| + |es|
  {
    if es != [] {
      AfterGrows(policy, t, es[..|es| - 1]);
    }
  }

  lemma PrefixIsSentFirst(policy: Policy, t: Trail, es: seq<Event>, n: nat)
    requires n <= |es|
    ensures Between(t, After(policy, t, es[..n]), After(policy, t, es))
    ensures |After(policy, t, es[..n]).log| == |t.log| + n && |After(policy, t, es).log| == |t.log| + |es|
  {
    assert es == es[..n] + es[n..];
    AfterMore(policy, t, es[..n], es[n..]);
    AfterGrows(policy, t, es[..n]);
    AfterGrows(policy, After(policy, t, es[..n]), es[n..]);
  }

  /** The events added are at the hops of the events asked for. */
  lemma {:induction false} AddedHops(policy: Policy, t: Trail, out: seq<Event>, maxHops: int, e: Event)
    requires OneHopOn(out, maxHops, e)
    ensures forall i | |t.published| <= i < |After(policy, t, out).published| :: After(policy, t, out).published[i].hops <= maxHops
  {
    if out != [] {
      AddedHops(policy, t, out[..|out| - 1], maxHops, e);
    }
  }

  // ---- The bound on a cascade ----

  /** The size of a full tree of arity k and the given depth. */
  function TreeSize(k: nat, depth: nat): (n: nat)
    ensures n >= 1
  {
    if depth == 0 then 1 else 1 + k * TreeSize(k, depth - 1)
  }

  function Power(k: nat, i: nat): nat {
    if i == 0 then 1 else k * Power(k, i - 1)
  }

  function PowerSum(k: nat, n: nat): nat {
    if n == 0 then Power(k, 0) else PowerSum(k, n - 1) + Power(k, n)
  }

  /** The tree has k to the power i nodes at depth i. */
  lemma {:induction false} TreeSizeIsPowerSum(k: nat, n: nat)
    ensures TreeSize(k, n) == PowerSum(k, n)
  {
    if n > 0 {
      TreeSizeIsPowerSum(k, n - 1);
      PowerSumShift(k, n);
    }
  }

  lemma {:induction false} PowerSumShift(k: nat, n: nat)
    requires n > 0
    ensures PowerSum(k, n) == 1 + k * PowerSum(k, n - 1)
  {
    if n > 1 {
      PowerSumShift(k, n - 1);
      Distribute(k, PowerSum(k, n - 2), Power(k, n - 1));
    }
  }

  lemma Distribute(k: nat, a: nat, b: nat)
    ensures k * (a + b) == k * a + k * b
  {
  }

  function HopsLeft(maxHops: int, e: Event): nat {
    if e.hops >= maxHops then 0 else maxHops - e.hops
  }

  /** How many events a message on the bus can still account for, itself included. */
  function Cost(k: nat, maxHops: int, m: Message): nat {
    match m
    case Wire(e) => TreeSize(k, HopsLeft(maxHops, e))
    case Malformed => 1
  }

  function BusCost(k: nat, maxHops: int, bus: seq<Message>): (n: nat)
    ensures n >= |bus|
  {
    if bus == [] then 0 else BusCost(k, maxHops, bus[..|bus| - 1]) + Cost(k, maxHops, bus[|bus| - 1])
  }

  /** A single event published at hop 0 accounts for the sum of k to the i for i up to the cap, itself
      included. */
  lemma CascadeOfOne(k: nat, maxHops: nat, e: Event)
    requires e.hops == 0
    ensures BusCost(k, maxHops, [Wire(e)]) == PowerSum(k, maxHops)
  {
    assert [Wire(e)][..0] == [];
    TreeSizeIsPowerSum(k, maxHops);
  }

  lemma {:induction false} BusCostOfRest(k: nat, maxHops: int, bus: seq<Message>)
    requires bus != []
    ensures BusCost(k, maxHops, bus) == Cost(k, maxHops, bus[0]) + BusCost(k, maxHops, bus[1..])
  {
    if |bus| > 1 {
      var n := |bus| - 1;
      assert bus[..n][1..] == bus[1..][..n - 1];
      BusCostOfRest(k, maxHops, bus[..n]);
    }
  }

  lemma {:induction false} BusCostAfter(policy: Policy, k: nat, maxHops: int, t: Trail, out: seq<Event>, c: nat)
    requires forall i | 0 <= i < |out| :: Cost(k, maxHops, Wire(out[i])) == c
    ensures BusCost(k, maxHops, After(policy, t, out).bus) == BusCost(k, maxHops, t.bus) + |out| * c
  {
    if out != [] {
      var n := |out| - 1;
      BusCostAfter(policy, k, maxHops, t, out[..n], c);
      OneMoreMessage(k, maxHops, After(policy, t, out[..n]).bus, Wire(Stamped(policy, out[n], |After(policy, t, out[..n]).log|)));
      OneMoreTimes(n, c);
    }
  }

  lemma OneMoreMessage(k: nat, maxHops: int, bus: seq<Message>, m: Message)
    ensures BusCost(k, maxHops, bus + [m]) == BusCost(k, maxHops, bus) + Cost(k, maxHops, m)
  {
    assert (bus + [m])[..|bus|] == bus;
  }

  lemma OneMoreTimes(n: nat, c: nat)
    ensures (n + 1) * c == n * c + c
  {
  }

  lemma AtMost(a: nat, b: nat, c: nat)
    requires a <= b
    ensures a * c <= b * c
  {
  }

  /** An event is worth at least what it sets off, plus one; exactly that when it sets off as much
      as it may. */
  lemma CascadePaysItsWay(policy: Policy, k: nat, maxHops: int, t: Trail, e: Event, out: seq<Event>)
    requires |out| <= k && OneHopOn(out, maxHops, e)
    ensures BusCost(k, maxHops, After(policy, t, out).bus) + 1 <= BusCost(k, maxHops, t.bus) + Cost(k, maxHops, Wire(e))
    ensures |out| == k || e.hops >= maxHops ==>
      BusCost(k, maxHops, After(policy, t, out).bus) + 1 == BusCost(k, maxHops, t.bus) + Cost(k, maxHops, Wire(e))
    ensures |out| + 1 <= Cost(k, maxHops, Wire(e))
  {
    if e.hops < maxHops {
      var c := TreeSize(k, HopsLeft(maxHops, e) - 1);
      CascadeCosts(policy, k, maxHops, t, e, out, c);
      WorthIt(|out|, k, c);
    }
  }

  lemma CascadeCosts(policy: Policy, k: nat, maxHops: int, t: Trail, e: Event, out: seq<Event>, c: nat)
    requires OneHopOn(out, maxHops, e) && e.hops < maxHops && c == TreeSize(k, HopsLeft(maxHops, e) - 1)
    ensures BusCost(k, maxHops, After(policy, t, out).bus) == BusCost(k, maxHops, t.bus) + |out| * c
    ensures Cost(k, maxHops, Wire(e)) == 1 + k * c && c >= 1
  {
    BusCostAfter(policy, k, maxHops, t, out, c);
  }

  lemma WorthIt(n: nat, k: nat, c: nat)
    requires n <= k && c >= 1
    ensures n <= n * c <= k * c
  {
    AtMost(n, k, c);
    AtMost(1, c, n);
  }

  // ---- What the log says about the channel ----

  ghost predicate IsRecorded(log: seq<Row>, e: Event) {
    e.id.Some? && e.id.value < |log| && log[e.id.value] == Row(e.kind, e.payload)
  }

  ghost predicate Recorded(log: seq<Row>, published: seq<Event>) {
    published == [] || (Recorded(log, published[..|published| - 1]) && IsRecorded(log, published[|published| - 1]))
  }

  lemma {:induction false} RecordedMeaning(log: seq<Row>, published: seq<Event>)
    ensures Recorded(log, published) <==> forall i | 0 <= i < |published| :: IsRecorded(log, published[i])
  {
    if published != [] {
      RecordedMeaning(log, published[..|published| - 1]);
    }
  }

  lemma {:induction false} StillRecorded(log: seq<Row>, row: Row, published: seq<Event>)
    requires Recorded(log, published)
    ensures Recorded(log + [row], published)
  {
    if published != [] {
      StillRecorded(log, row, published[..|published| - 1]);
    }
  }

  ghost predicate AllClean(policy: Policy, log: seq<Row>) {
    log == [] || (AllClean(policy, log[..|log| - 1]) && Clean(Rules(policy.secrets), Object(log[|log| - 1].payload)))
  }

  lemma {:induction false} AllCleanMeaning(policy: Policy, log: seq<Row>)
    ensures AllClean(policy, log) <==> forall i | 0 <= i < |log| :: Clean(Rules(policy.secrets), Object(log[i].payload))
  {
    if log != [] {
      AllCleanMeaning(policy, log[..|log| - 1]);
    }
  }

  ghost predicate Faithful(policy: Policy, t: Trail) {
    Recorded(t.log, t.published) && (policy.Scrubbable() ==> AllClean(policy, t.log))
  }

  /** Storing a redacted event, and then publishing it, keeps the log faithful. */
  lemma SendIsSound(policy: Policy, t: Trail, e: Event)
    requires Faithful(policy, t)
    ensures Faithful(policy, Send(policy, t, e)) && Faithful(policy, t.(log := Send(policy, t, e).log))
  {
    var u := Send(policy, t, e);
    var row := u.log[|t.log|];
    assert u.log[..|t.log|] == t.log && u.published[..|t.published|] == t.published;
    StillRecorded(t.log, row, t.published);
    if policy.Scrubbable() {
      RedactionIsComplete(policy, Object(e.payload));
    }
  }

  /** Between `before` and `after`, the first so many of the handlers were called with the event, in order. */
  ghost predicate AskedInTurn(before: seq<Asked>, after: seq<Asked>, handlers: seq<Handler>, event: Event) {
    && before <= after && |after| <= |before| + |handlers|
    && forall i | |before| <= i < |after| :: after[i] == Asked(handlers[i - |before|], event)
  }

  lemma OneMoreAsked(before: seq<Asked>, after: seq<Asked>, handlers: seq<Handler>, event: Event, i: nat)
    requires AskedInTurn(before, after, handlers, event) && |after| == |before| + i && i < |handlers|
    ensures AskedInTurn(before, after + [Asked(handlers[i], event)], handlers, event)
  {
  }

  // ---- The bus ----

  const ANY_TYPE := "*"

  class Workspace {
    const policy: Policy
    const maxHops: int
    const reply: (Handler, Event, nat) -> Reply
    const fault: nat -> Fault  // of the n-th broadcast
    var subscribers: map<string, seq<Handler>>
    var log: seq<Row>          // workspace_event
    var published: seq<Event>  // everything ever put on the channel
    var bus: seq<Message>      // what the listener has not read yet
    var calls: nat             // handler calls made
    var broadcasts: nat        // broadcasts attempted
    ghost var asked: seq<Asked> // handler calls made, in order

    constructor (policy: Policy, maxHops: int, reply: (Handler, Event, nat) -> Reply, fault: nat -> Fault)
      ensures this.policy == policy && this.maxHops == maxHops && this.reply == reply && this.fault == fault
      ensures subscribers == map[] && Now() == Trail([], [], []) && calls == 0 && broadcasts == 0 && asked == []
      ensures Valid()
    {
      this.policy, this.maxHops, this.reply, this.fault := policy, maxHops, reply, fault;
      subscribers, log, published, bus, calls, broadcasts, asked := map[], [], [], [], 0, 0, [];
    }

    function Now(): Trail
      reads this`log, this`published, this`bus
    {
      Trail(log, published, bus)
    }

    /** Every published event was persisted first, under its id and with the same content, and
        neither the log nor the channel ever saw anything but a redacted payload. */
    ghost predicate Valid()
      reads this`log, this`published, this`bus
    {
      Faithful(policy, Now())
    }

    method Subscribe(kind: string, handler: Handler)
      modifies this`subscribers
      ensures subscribers == old(subscribers)[kind := (if kind in old(subscribers) then old(subscribers)[kind] else []) + [handler]]
    {
      subscribers := subscribers[kind := (if kind in subscribers then subscribers[kind] else []) + [handler]];
    }

    /** Drops the first registration of the handler, if there is one. */
    method Unsubscribe(kind: string, handler: Handler)
      modifies this`subscribers
      ensures kind !in old(subscribers) || handler !in old(subscribers)[kind] ==> subscribers == old(subscribers)
      ensures kind in old(subscribers) && handler in old(subscribers)[kind] ==>
        exists i :: 0 <= i < |old(subscribers)[kind]| && old(subscribers)[kind][i] == handler
          && handler !in old(subscribers)[kind][..i]
          && subscribers == old(subscribers)[kind := old(subscribers)[kind][..i] + old(subscribers)[kind][i + 1..]]
    {
      if kind in subscribers {
        var handlers := subscribers[kind];
        var i := 0;
        while i < |handlers| && handlers[i] != handler
          invariant 0 <= i <= |handlers| && handler !in handlers[..i]
        {
          i := i + 1;
        }
        if i < |handlers| {
          subscribers := subscribers[kind := handlers[..i] + handlers[i + 1..]];
        }
      }
    }

    function HandlersFor(kind: string): seq<Handler>
      reads this`subscribers
    {
      (if kind in subscribers then subscribers[kind] else []) + (if ANY_TYPE in subscribers then subscribers[ANY_TYPE] else [])
    }

    /** Everything the handlers of an event emit for it. */
    function AllEmissions(e: Event, n: nat): seq<Event>
      reads this`subscribers
    {
      Emissions(reply, maxHops, HandlersFor(e.kind), |HandlersFor(e.kind)|, e, n)
    }

    /** Redact, persist, publish. A failure leaves the earlier steps in place. */
    method Broadcast(event: Event) returns (ok: bool)
      requires Valid()
      modifies this`log, this`published, this`bus, this`broadcasts
      ensures Valid()
      ensures broadcasts == old(broadcasts) + 1
      ensures ok <==> fault(old(broadcasts)).NoFault?
      ensures ok ==> Now() == Send(policy, old(Now()), event)
      ensures ok ==>
        && |log| == |old(log)| + 1 && |published| == |old(published)| + 1 && bus == old(bus) + [Wire(published[|old(published)|])]
        && IsCopy(policy, event, published[|old(published)|], |old(log)|)
        && log[|old(log)|] == Row(event.kind, published[|old(published)|].payload)
      ensures fault(old(broadcasts)).PersistFails? ==> Now() == old(Now())
      ensures fault(old(broadcasts)).PublishFails? ==> Now() == old(Now()).(log := Send(policy, old(Now()), event).log)
    {
      var outcome := fault(broadcasts);
      broadcasts := broadcasts + 1;
      SendIsSound(policy, Now(), event);
      SentIsCopy(policy, Now(), event);
      if outcome.PersistFails? {
        return false;
      }
      var safe := event.(payload := RedactPayload(policy, event.payload));
      var persisted := safe.(id := Some(|log|));
      log := log + [Row(persisted.kind, persisted.payload)];
      if outcome.PublishFails? {
        return false;
      }
      published := published + [persisted];
      bus := bus + [Wire(persisted)];
      ok := true;
    }

    /** Some broadcast among the `n` that start with number `start` fails. */
    ghost predicate FaultWithin(start: nat, n: nat) {
      exists b :: start <= b < start + n && !fault(b).NoFault?
    }

    /** Broadcasts the events in order, up to the first failure. */
    method BroadcastAll(es: seq<Event>) returns (ok: bool)
      requires Valid()
      modifies this`log, this`published, this`bus, this`broadcasts
      ensures Valid()
      ensures ok ==> Now() == After(policy, old(Now()), es) && broadcasts == old(broadcasts) + |es|
      ensures !ok ==> FaultWithin(old(broadcasts), |es|)
      ensures Between(old(Now()), Now(), After(policy, old(Now()), es))
    {
      var n := 0;
      while n < |es|
        invariant Valid()
        invariant n <= |es|
        invariant Now() == After(policy, old(Now()), es[..n]) && broadcasts == old(broadcasts) + n
      {
        assert es[..n + 1][..n] == es[..n];
        PrefixIsSentFirst(policy, old(Now()), es, n);
        ok := Broadcast(es[n]);
        if !ok {
          return false;
        }
        n := n + 1;
      }
      assert es[..n] == es;
      AfterGrows(policy, old(Now()), es);
      ok := true;
    }

    /** Calls one handler and re-broadcasts what it emits, one hop further on. */
    method CallHandler(handler: Handler, event: Event) returns (ok: bool)
      requires Valid()
      modifies this`log, this`published, this`bus, this`broadcasts, this`calls, this`asked
      ensures Valid() && calls == old(calls) + 1 && asked == old(asked) + [Asked(handler, event)]
      ensures var out := PassedOn(Ask(reply, handler, event, old(calls)), maxHops, event);
        && (ok ==> Now() == After(policy, old(Now()), out) && broadcasts == old(broadcasts) + |out|)
        && (!ok ==> FaultWithin(old(broadcasts), |out|))
        && Between(old(Now()), Now(), After(policy, old(Now()), out))
    {
      var r := Ask(reply, handler, event, calls);
      calls := calls + 1;
      asked := asked + [Asked(handler, event)];
      if r.Raised? || r.events == [] || event.hops >= maxHops {
        return true;
      }
      ok := BroadcastAll(WithHops(r.events, event.hops + 1));
    }

    /** Calls every handler of the event. A failing handler is skipped; a failing broadcast ends
        the dispatch. */
    method Dispatch(event: Event) returns (ok: bool)
      requires Valid()
      modifies this`log, this`published, this`bus, this`broadcasts, this`calls, this`asked
      ensures Valid()
      ensures var es := AllEmissions(event, old(calls));
        && (ok ==> Now() == After(policy, old(Now()), es) && broadcasts == old(broadcasts) + |es|)
        && (!ok ==> FaultWithin(old(broadcasts), |es|))
        && Between(old(Now()), Now(), After(policy, old(Now()), es))
      ensures ok ==> calls == old(calls) + |HandlersFor(event.kind)|
      ensures var own := if event.kind in subscribers then subscribers[event.kind] else [];
        var any := if "*" in subscribers then subscribers["*"] else [];
        && AskedInTurn(old(asked), asked, own + any, event) && (ok ==> |asked| == |old(asked)| + |own| + |any|)
        && (ok ==> Now() == After(policy, old(Now()), Emissions(reply, maxHops, own + any, |own| + |any|, event, old(calls))))
    {
      var handlers := HandlersFor(event.kind);
      ok := Serve(handlers, event);
      AfterGrows(policy, old(Now()), AllEmissions(event, old(calls)));
    }

    /** All of `es` has been broadcast. */
    ghost predicate Done(start: nat, t: Trail, es: seq<Event>)
      reads this`log, this`published, this`bus, this`broadcasts
    {
      Now() == After(policy, t, es) && broadcasts == start + |es|
    }

    /** The broadcasting broke off on the way from `t` to all of `es`. */
    ghost predicate Broke(start: nat, t: Trail, es: seq<Event>)
      reads this`log, this`published, this`bus
    {
      FaultWithin(start, |es|) && Between(t, Now(), After(policy, t, es))
    }

    method Serve(handlers: seq<Handler>, event: Event) returns (ok: bool)
      requires Valid()
      modifies this`log, this`published, this`bus, this`broadcasts, this`calls, this`asked
      ensures Valid()
      ensures var es := Emissions(reply, maxHops, handlers, |handlers|, event, old(calls));
        if ok then Done(old(broadcasts), old(Now()), es) else Broke(old(broadcasts), old(Now()), es)
      ensures ok ==> calls == old(calls) + |handlers|
      ensures AskedInTurn(old(asked), asked, handlers, event) && (ok ==> |asked| == |old(asked)| + |handlers|)
    {
      for i := 0 to |handlers|
        invariant Serving(handlers, i, event, old(broadcasts), old(Now()), old(calls), old(asked))
      {
        ok := ServeNext(handlers, i, event, old(broadcasts), old(Now()), old(calls), old(asked));
        if !ok {
          return false;
        }
      }
      ok := true;
    }

    /** The first i handlers have been served. */
    ghost predicate Serving(handlers: seq<Handler>, i: nat, event: Event, start: nat, t: Trail, calls0: nat, asked0: seq<Asked>)
      requires i <= |handlers|
      reads this`log, this`published, this`bus, this`broadcasts, this`calls, this`asked
    {
      && Valid() && calls == calls0 + i
      && Done(start, t, Emissions(reply, maxHops, handlers, i, event, calls0))
      && AskedInTurn(asked0, asked, handlers, event) && |asked| == |asked0| + i
    }

    method ServeNext(handlers: seq<Handler>, i: nat, event: Event, ghost start: nat, ghost t: Trail, ghost calls0: nat, ghost asked0: seq<Asked>)
      returns (ok: bool)
      requires i < |handlers| && Serving(handlers, i, event, start, t, calls0, asked0)
      modifies this`log, this`published, this`bus, this`broadcasts, this`calls, this`asked
      ensures Valid()
      ensures if ok then Serving(handlers, i + 1, event, start, t, calls0, asked0)
              else Broke(start, t, Emissions(reply, maxHops, handlers, |handlers|, event, calls0)) && AskedInTurn(asked0, asked, handlers, event)
    {
      ghost var done, more := Emissions(reply, maxHops, handlers, i, event, calls0), Emissions(reply, maxHops, handlers, i + 1, event, calls0);
      NextEmissions(reply, maxHops, handlers, i, event, calls0, calls);
      OneMoreAsked(asked0, asked, handlers, event, i);
      ok := ServeOne(handlers[i], event, start, t, done, more, Emissions(reply, maxHops, handlers, |handlers|, event, calls0));
    }

    /** The events in `done` were broadcast for earlier handlers; `all` starts with them and what
        this handler emits. */
    method ServeOne(handler: Handler, event: Event, ghost start: nat, ghost t: Trail, ghost done: seq<Event>, ghost more: seq<Event>, ghost all: seq<Event>)
      returns (ok: bool)
      requires Valid() && Done(start, t, done)
      requires more == done + PassedOn(Ask(reply, handler, event, calls), maxHops, event) && more <= all
      modifies this`log, this`published, this`bus, this`broadcasts, this`calls, this`asked
      ensures Valid() && calls == old(calls) + 1 && asked == old(asked) + [Asked(handler, event)]
      ensures if ok then Done(start, t, more) else Broke(start, t, all)
    {
      ghost var before := Now();
      AfterMore(policy, t, done, PassedOn(Ask(reply, handler, event, calls), maxHops, event));
      assert all[..|done|] == done && all[..|more|] == more;
      PrefixIsSentFirst(policy, t, all, |done|);
      PrefixIsSentFirst(policy, t, all, |more|);
      ok := CallHandler(handler, event);
      if !ok {
        BetweenVia(t, before, Now(), After(policy, t, more), After(policy, t, all));
      }
    }

    /** No event sets off more than k others, whatever its handlers have been asked before. */
    ghost predicate EmitsAtMost(k: nat)
      reads this`subscribers
    {
      forall e: Event, n: nat :: |AllEmissions(e, n)| <= k
    }

    /** Every event below the hop cap sets off exactly k others. */
    ghost predicate EmitsExactly(k: nat)
      reads this`subscribers
    {
      forall e: Event, n: nat :: |AllEmissions(e, n)| == if e.hops < maxHops then k else 0
    }

    /** Reads the channel until it is empty or a broadcast fails. It always ends, and what was on
        the channel sets off at most a full tree of events each. */
    method Run(ghost k: nat) returns (ok: bool)
      requires Valid() && EmitsAtMost(k)
      modifies this`log, this`published, this`bus, this`broadcasts, this`calls, this`asked
      ensures Valid()
      ensures ok ==> bus == []
      ensures (forall b :: fault(b).NoFault?) ==> ok
      ensures |log| <= |old(log)| + BusCost(k, maxHops, old(bus)) - |old(bus)|
      ensures ok && EmitsExactly(k) ==> |log| == |old(log)| + BusCost(k, maxHops, old(bus)) - |old(bus)|
      ensures old(published) <= published
      ensures forall i | |old(published)| <= i < |published| :: published[i].hops <= maxHops
    {
      ghost var total := |log| + BusCost(k, maxHops, bus) - |bus|;
      while bus != []
        invariant Valid() && EmitsAtMost(k)
        invariant |log| + BusCost(k, maxHops, bus) - |bus| <= total
        invariant EmitsExactly(k) ==> |log| + BusCost(k, maxHops, bus) - |bus| == total
        invariant old(published) <= published
        invariant forall i | |old(published)| <= i < |published| :: published[i].hops <= maxHops
        decreases BusCost(k, maxHops, bus)
      {
        BusCostOfRest(k, maxHops, bus);
        var message := bus[0];
        bus := bus[1..];
        if message.Wire? {
          ok := HandleMessage(message.event, k);
          if !ok {
            return false;
          }
        }
      }
      ok := true;
    }

    method HandleMessage(event: Event, ghost k: nat) returns (ok: bool)
      requires Valid() && EmitsAtMost(k)
      modifies this`log, this`published, this`bus, this`broadcasts, this`calls, this`asked
      ensures Valid()
      ensures (forall b :: fault(b).NoFault?) ==> ok
      ensures ok ==> |log| + BusCost(k, maxHops, bus) - |bus| <= |old(log)| + BusCost(k, maxHops, old(bus)) - |old(bus)| + Cost(k, maxHops, Wire(event)) - 1
      ensures ok ==> BusCost(k, maxHops, bus) < BusCost(k, maxHops, old(bus)) + Cost(k, maxHops, Wire(event))
      ensures ok && EmitsExactly(k) ==>
        |log| + BusCost(k, maxHops, bus) - |bus| == |old(log)| + BusCost(k, maxHops, old(bus)) - |old(bus)| + Cost(k, maxHops, Wire(event)) - 1
      ensures |log| <= |old(log)| + Cost(k, maxHops, Wire(event)) - 1
      ensures old(published) <= published
      ensures forall i | |old(published)| <= i < |published| :: published[i].hops <= maxHops
    {
      ghost var es := AllEmissions(event, calls);
      EmissionsAreOneHopOn(reply, maxHops, HandlersFor(event.kind), |HandlersFor(event.kind)|, event, calls);
      CascadePaysItsWay(policy, k, maxHops, Now(), event, es);
      AddedHops(policy, Now(), es, maxHops, event);
      AfterSizes(policy, Now(), es);
      ok := Dispatch(event);
    }
  }

  lemma {:induction false} AfterSizes(policy: Policy, t: Trail, es: seq<Event>)
    ensures |After(policy, t, es).log| == |t.log| + |es|
    ensures |After(policy, t, es).bus| == |t.bus| + |es|
  {
    if es != [] {
      AfterSizes(policy, t, es[..|es| - 1]);
    }
  }
}
