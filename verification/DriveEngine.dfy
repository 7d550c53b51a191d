/** The drive engine: every drive stepped by elapsed time and events (brain/drives/engine.py). */
module DriveEngine {
  import opened Drives

  datatype Option<T> = None | Some(value: T)

  datatype Event = Event(kind: string, intensity: real)

  type Rows = map<string, Row>

  /** The configured drives, their satisfaction map and the exponential. */
  datatype Setup = Setup(names: seq<string>, drives: map<string, Params>, satisfaction: map<string, map<string, real>>, exp: Exponential)
  {
    /** Loading the configuration checks that every drive has its parameters. */
    ghost predicate Valid() {
      && (forall i | 0 <= i < |names| :: names[i] in drives)
      && (forall i, j | 0 <= i < j < |names| :: names[i] != names[j])
    }

    function DeltasFor(kind: string): map<string, real> {
      if kind in satisfaction then satisfaction[kind] else map[]
    }
  }

  function Get(totals: map<string, real>, drive: string): real {
    if drive in totals then totals[drive] else 0.0
  }

  /** What the events together do to one drive. */
  function Delta(s: Setup, events: seq<Event>, drive: string): real {
    if events == [] then 0.0
    else
      var e := events[|events| - 1];
      Delta(s, events[..|events| - 1], drive) + Get(s.DeltasFor(e.kind), drive) * e.intensity
  }

  /** A drive no event speaks of is left alone; a single event adds its weight for the drive times its intensity. */
  lemma {:induction false} DeltaOfNothing(s: Setup, events: seq<Event>, drive: string)
    requires forall i | 0 <= i < |events| :: events[i].kind in s.satisfaction ==> drive !in s.satisfaction[events[i].kind]
    ensures Delta(s, events, drive) == 0.0
  {
    if events != [] {
      DeltaOfNothing(s, events[..|events| - 1], drive);
    }
  }

  lemma DeltaOfOne(s: Setup, e: Event, drive: string)
    requires e.kind in s.satisfaction && drive in s.satisfaction[e.kind]
    ensures Delta(s, [e], drive) == s.satisfaction[e.kind][drive] * e.intensity
  {
    assert [e][..0] == [];
  }

  /** A missing row is created at the setpoint with the time of the step; an existing one is stepped from its own. */
  lemma StepRowMeaning(s: Setup, row: Option<Row>, drive: string, delta: real, now: real)
    requires drive in s.drives
    ensures var r := StepRow(s, row, drive, delta, now);
      && r.updatedAt == now && r.params == s.drives[drive]
      && (row.Some? ==> r == Stepped(s.exp, s.drives[drive], row.value, delta, now))
      && (row.None? && 0.0 <= s.drives[drive].setpoint + delta <= 1.0 && 0.0 <= s.drives[drive].setpoint <= 1.0 ==>
            r.value == s.drives[drive].setpoint + delta)
  {
  }

  function StepRow(s: Setup, row: Option<Row>, drive: string, delta: real, now: real): Row
    requires drive in s.drives
  {
    var p := s.drives[drive];
    Stepped(s.exp, p, if row.Some? then row.value else Row(p.setpoint, p, now), delta, now)
  }

  function Lookup(rows: Rows, drive: string): Option<Row> {
    if drive in rows then Some(rows[drive]) else None
  }

  /** The rows after the first i drives have been stepped. */
  function SteppedFirst(s: Setup, rows: Rows, events: seq<Event>, now: real, i: nat): Rows
    requires s.Valid() && i <= |s.names|
  {
    if i == 0 then rows
    else
      var before, d := SteppedFirst(s, rows, events, now, i - 1), s.names[i - 1];
      before[d := StepRow(s, Lookup(before, d), d, Delta(s, events, d), now)]
  }

  function AfterStep(s: Setup, rows: Rows, events: seq<Event>, now: real): Rows
    requires s.Valid()
  {
    SteppedFirst(s, rows, events, now, |s.names|)
  }

  lemma {:induction false} SteppedFirstAt(s: Setup, rows: Rows, events: seq<Event>, now: real, i: nat, d: string)
    requires s.Valid() && i <= |s.names|
    ensures Lookup(SteppedFirst(s, rows, events, now, i), d)
      == if d in s.names[..i] then Some(StepRow(s, Lookup(rows, d), d, Delta(s, events, d), now)) else Lookup(rows, d)
  {
    if i > 0 {
      SteppedFirstAt(s, rows, events, now, i - 1, d);
      assert s.names[..i] == s.names[..i - 1] + [s.names[i - 1]];
    }
  }

  /** Every drive steps on its own: its new row depends on its old row and the events, and rows of
      other drives stay. */
  lemma StepMeaning(s: Setup, rows: Rows, events: seq<Event>, now: real, d: string)
    requires s.Valid()
    ensures Lookup(AfterStep(s, rows, events, now), d)
      == if d in s.names then Some(StepRow(s, Lookup(rows, d), d, Delta(s, events, d), now)) else Lookup(rows, d)
  {
    SteppedFirstAt(s, rows, events, now, |s.names|, d);
    assert s.names[..|s.names|] == s.names;
  }

  function Synced(p: Params, row: Option<Row>, now: real): Row {
    if row.Some? then row.value.(params := p) else Row(p.setpoint, p, now)
  }

  function SyncedFirst(s: Setup, rows: Rows, now: real, i: nat): Rows
    requires s.Valid() && i <= |s.names|
  {
    if i == 0 then rows
    else
      var before, d := SyncedFirst(s, rows, now, i - 1), s.names[i - 1];
      before[d := Synced(s.drives[d], Lookup(before, d), now)]
  }

  /** Starting up keeps every pressure and every time it was last updated, and syncs the parameters. */
  lemma {:induction false} BootstrapMeaning(s: Setup, rows: Rows, now: real, i: nat, d: string)
    requires s.Valid() && i <= |s.names|
    ensures Lookup(SyncedFirst(s, rows, now, i), d)
      == if d in s.names[..i] then Some(Synced(s.drives[d], Lookup(rows, d), now)) else Lookup(rows, d)
  {
    if i > 0 {
      BootstrapMeaning(s, rows, now, i - 1, d);
      assert s.names[..i] == s.names[..i - 1] + [s.names[i - 1]];
    }
  }

  /** After starting up: a configured drive that had a row has its pressure and time and the configured parameters, one
      that had none is at its setpoint from now on, and other rows are as they were. */
  lemma StartedMeaning(s: Setup, rows: Rows, now: real, d: string)
    requires s.Valid()
    ensures var r := Lookup(SyncedFirst(s, rows, now, |s.names|), d);
      && (d !in s.names ==> r == Lookup(rows, d))
      && (d in s.names && d in rows ==> r == Some(Row(rows[d].value, s.drives[d], rows[d].updatedAt)))
      && (d in s.names && d !in rows ==> r == Some(Row(s.drives[d].setpoint, s.drives[d], now)))
  {
    BootstrapMeaning(s, rows, now, |s.names|, d);
    assert s.names[..|s.names|] == s.names;
  }

  class DriveEngine {
    const setup: Setup
    var rows: Rows  // drive_state

    constructor (setup: Setup, rows: Rows)
      ensures this.setup == setup && this.rows == rows
    {
      this.setup, this.rows := setup, rows;
    }

    /** One delta per drive, summed over the events. */
    method AggregateDeltas(events: seq<Event>) returns (totals: map<string, real>)
      ensures forall d :: Get(totals, d) == Delta(setup, events, d)
    {
      totals := map[];
      for i := 0 to |events|
        invariant forall d :: Get(totals, d) == Delta(setup, events[..i], d)
      {
        var deltas := setup.DeltasFor(events[i].kind);
        totals := AddDeltas(totals, deltas, events[i].intensity);
        assert events[..i + 1][..i] == events[..i];
      }
      assert events[..|events|] == events;
    }

    method AddDeltas(before: map<string, real>, deltas: map<string, real>, intensity: real) returns (totals: map<string, real>)
      ensures forall d :: Get(totals, d) == Get(before, d) + Get(deltas, d) * intensity
    {
      totals := before;
      var todo := deltas.Keys;
      while todo != {}
        invariant todo <= deltas.Keys
        invariant forall d :: Get(totals, d) == Get(before, d) + if d in todo then 0.0 else Get(deltas, d) * intensity
        decreases todo
      {
        var drive :| drive in todo;
        todo := todo - {drive};
        totals := totals[drive := Get(totals, drive) + deltas[drive] * intensity];
      }
    }

    method Step(events: seq<Event>, now: real) returns (readings: seq<Row>)
      requires setup.Valid()
      modifies this
      ensures rows == AfterStep(setup, old(rows), events, now)
      ensures |readings| == |setup.names| && forall i | 0 <= i < |readings| :: Lookup(rows, setup.names[i]) == Some(readings[i])
    {
      var deltas := AggregateDeltas(events);
      readings := [];
      for i := 0 to |setup.names|
        invariant rows == SteppedFirst(setup, old(rows), events, now, i)
        invariant |readings| == i && forall j | 0 <= j < i :: Lookup(rows, setup.names[j]) == Some(readings[j])
      {
        var row := StepOne(setup.names[i], Get(deltas, setup.names[i]), now);
        readings := readings + [row];
      }
    }

    method StepOne(drive: string, delta: real, now: real) returns (row: Row)
      requires drive in setup.drives
      modifies this
      ensures row == StepRow(setup, old(Lookup(rows, drive)), drive, delta, now)
      ensures rows == old(rows)[drive := row]
    {
      var p := setup.drives[drive];
      row := if drive in rows then rows[drive] else Row(p.setpoint, p, now);
      row := Stepped(setup.exp, p, row, delta, now);
      rows := rows[drive := row];
    }

    /** Parameters follow the configuration; pressures and times stay as they were. */
    method Bootstrap(now: real)
      requires setup.Valid()
      modifies this
      ensures rows == SyncedFirst(setup, old(rows), now, |setup.names|)
    {
      for i := 0 to |setup.names|
        invariant rows == SyncedFirst(setup, old(rows), now, i)
      {
        var drive := setup.names[i];
        var p := setup.drives[drive];
        var row := if drive in rows then rows[drive] else Row(p.setpoint, p, now);
        rows := rows[drive := row.(params := p)];
      }
    }
  }

  // ---- Whole runs of event-free heartbeats ----

  function AfterIdling(s: Setup, rows: Rows, times: seq<real>): Rows
    requires s.Valid()
  {
    if times == [] then rows
    else AfterStep(s, AfterIdling(s, rows, times[..|times| - 1]), [], times[|times| - 1])
  }

  lemma {:induction false} IdlingAt(s: Setup, rows: Rows, times: seq<real>, d: string)
    requires s.Valid() && (d in s.names ==> d in rows)
    ensures Lookup(AfterIdling(s, rows, times), d)
      == if d in s.names then Some(Idle(s.exp, s.drives[d], rows[d], times)) else Lookup(rows, d)
  {
    if times != [] {
      var init := times[..|times| - 1];
      IdlingAt(s, rows, init, d);
      StepMeaning(s, AfterIdling(s, rows, init), [], times[|times| - 1], d);
    }
  }

  /** Every drive has a row with a pressure in range, last updated no later than the clock. */
  ghost predicate Ready(s: Setup, rows: Rows, times: seq<real>, now: real) {
    forall d | d in s.names ::
      && d in rows && 0.0 <= rows[d].value <= 1.0
      && Forward(rows[d].updatedAt, times) && LastOf(rows[d].updatedAt, times) <= now
  }

  lemma SameAt(s: Setup, rows: Rows, times: seq<real>, events: seq<Event>, now: real, d: string)
    requires s.Valid() && IsExponential(s.exp) && Ready(s, rows, times, now)
    ensures Lookup(AfterStep(s, AfterIdling(s, rows, times), events, now), d) == Lookup(AfterStep(s, rows, events, now), d)
  {
    StepMeaning(s, rows, events, now, d);
    StepMeaning(s, AfterIdling(s, rows, times), events, now, d);
    IdlingAt(s, rows, times, d);
    if d in s.names {
      HeartbeatDoesNotMatter(s.exp, s.drives[d], rows[d], times, Delta(s, events, d), now);
    }
  }

  lemma SameRows(r: Rows, q: Rows)
    requires forall d :: Lookup(r, d) == Lookup(q, d)
    ensures r == q
  {
    forall d: string ensures d in r <==> d in q { assert Lookup(r, d) == Lookup(q, d); }
    forall d | d in r ensures r[d] == q[d] { assert Lookup(r, d) == Lookup(q, d); }
  }

  /** For the whole engine: heartbeats without events before a step do not change what the step
      leaves behind. */
  lemma HeartbeatsDoNotMatter(s: Setup, rows: Rows, times: seq<real>, events: seq<Event>, now: real)
    requires s.Valid() && IsExponential(s.exp) && Ready(s, rows, times, now)
    ensures AfterStep(s, AfterIdling(s, rows, times), events, now) == AfterStep(s, rows, events, now)
  {
    forall d {
      SameAt(s, rows, times, events, now, d);
    }
    SameRows(AfterStep(s, AfterIdling(s, rows, times), events, now), AfterStep(s, rows, events, now));
  }
}
