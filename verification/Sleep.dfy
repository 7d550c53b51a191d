/** The offline sleep pipeline and the check on waking (brain/sleep.py). */
module Sleep {
  import opened CredentialRules

  // ---- The wake self-check ----

  datatype Probe = SelfModelPresent | AnchorConsistency | DriveRanges

  datatype Finding = Finding(check: Probe, ok: bool)

  datatype CheckResult = CheckResult(ok: bool, findings: seq<Finding>)

  /** The white space str.strip removes is that of \s. */
  predicate IsSpace(c: char) {
    Has(Space, c)
  }

  function Stripped(s: string): string {
    if s != "" && IsSpace(s[0]) then Stripped(s[1..])
    else if s != "" && IsSpace(s[|s| - 1]) then Stripped(s[..|s| - 1])
    else s
  }

  predicate InRange(value: real) { 0.0 <= value <= 1.0 }

  function OutOfRange(readings: seq<real>): seq<real> {
    if readings == [] then []
    else (if InRange(readings[0]) then [] else [readings[0]]) + OutOfRange(readings[1..])
  }

  /** What a check reads: the self-model, the anchored name and the drive values. */
  datatype Self = Self(doc: string, name: string, anchor: string, drives: seq<real>)

  function AllOk(findings: seq<Finding>): bool {
    findings == [] || (findings[0].ok && AllOk(findings[1..]))
  }

  function Failures(findings: seq<Finding>): seq<Probe> {
    if findings == [] then []
    else (if findings[0].ok then [] else [findings[0].check]) + Failures(findings[1..])
  }

  function Verify(self: Self): CheckResult {
    var findings := [
      Finding(SelfModelPresent, Stripped(self.doc) != ""),
      Finding(AnchorConsistency, self.name == self.anchor),
      Finding(DriveRanges, OutOfRange(self.drives) == [])
    ];
    CheckResult(AllOk(findings), findings)
  }

  lemma {:induction false} StrippedIsEmptyIff(s: string)
    ensures Stripped(s) == "" <==> forall i | 0 <= i < |s| :: IsSpace(s[i])
    decreases |s|
  {
    if s != "" && IsSpace(s[0]) {
      StrippedIsEmptyIff(s[1..]);
    } else if s != "" && IsSpace(s[|s| - 1]) {
      StrippedIsEmptyIff(s[..|s| - 1]);
      assert s[..|s| - 1][0] == s[0];
    }
  }

  lemma {:induction false} NoneOutOfRangeIff(readings: seq<real>)
    ensures OutOfRange(readings) == [] <==> forall i | 0 <= i < |readings| :: InRange(readings[i])
  {
    if readings != [] {
      NoneOutOfRangeIff(readings[1..]);
    }
  }

  ghost predicate SaysSomething(s: string) {
    exists i :: 0 <= i < |s| && !IsSpace(s[i])
  }

  /** Waking is clean exactly when the self-model says something, the name is the anchored one and
      every pressure is in range; and then nothing is reported as failed. */
  lemma VerifyMeaning(self: Self)
    ensures var result := Verify(self);
      && (result.ok <==> SaysSomething(self.doc) && self.name == self.anchor && forall i | 0 <= i < |self.drives| :: 0.0 <= self.drives[i] <= 1.0)
      && (result.ok <==> Failures(result.findings) == [])
  {
    StrippedIsEmptyIff(self.doc);
    NoneOutOfRangeIff(self.drives);
    FindingsOf(Verify(self).findings[0], Verify(self).findings[1], Verify(self).findings[2]);
  }

  /** A self-model says something if some character of it is not white space: one of these code points. */
  lemma SaysSomethingIff(s: string)
    ensures SaysSomething(s) <==> exists i :: 0 <= i < |s| && var n := s[i] as int;
      !(9 <= n <= 13) && !(28 <= n <= 32) && !(0x2000 <= n <= 0x200A)
      && n !in {0x85, 0xA0, 0x1680, 0x2028, 0x2029, 0x202F, 0x205F, 0x3000}
  {
    if i :| 0 <= i < |s| && !IsSpace(s[i]) {
      assert !Has(Space, s[i]);
    }
    if i :| 0 <= i < |s| && !Has(Space, s[i]) {
      assert !IsSpace(s[i]);
    }
  }

  lemma OneFinding(f: Finding)
    ensures AllOk([f]) == f.ok && (Failures([f]) == [] <==> f.ok)
  {
    assert [f][1..] == [];
  }

  lemma MoreFindings(f: Finding, rest: seq<Finding>)
    ensures AllOk([f] + rest) == (f.ok && AllOk(rest))
    ensures Failures([f] + rest) == [] <==> f.ok && Failures(rest) == []
  {
    assert ([f] + rest)[1..] == rest;
  }

  lemma FindingsOf(f: Finding, g: Finding, h: Finding)
    ensures AllOk([f, g, h]) == (f.ok && g.ok && h.ok)
    ensures Failures([f, g, h]) == [] <==> f.ok && g.ok && h.ok
  {
    OneFinding(h);
    MoreFindings(g, [h]);
    MoreFindings(f, [g] + [h]);
    assert [f, g, h] == [f] + ([g] + [h]);
  }

  // ---- The pipeline ----

  datatype Stage = Consolidate | Decay | RefreshSelfModel | Metacognition | Backup | RestoreEnergy | SelfCheck

  const PIPELINE: seq<Stage> := [Consolidate, Decay, RefreshSelfModel, Metacognition, Backup, RestoreEnergy, SelfCheck]

  /** How the collaborators behave during one sleep: which stages raise, what the check says, and
      whether the sleep row can be opened and closed. */
  datatype Night = Night(opens: bool, failing: set<Stage>, check: CheckResult, closes: bool)

  datatype Trigger = Energy | Scheduled | Manual

  /** `eased` is whether restoring energy was told of a confirmed backup. */
  datatype Report = Report(trigger: Trigger, degraded: seq<Stage>, backedUp: bool, eased: bool, selfCheckOk: bool)

  datatype Row = Row(trigger: Trigger, report: Option<Report>)

  datatype Result = Busy | Raised | Woke(report: Report)

  function Degraded(stages: seq<Stage>, failing: set<Stage>): seq<Stage> {
    if stages == [] then []
    else Degraded(stages[..|stages| - 1], failing) + if stages[|stages| - 1] in failing then [stages[|stages| - 1]] else []
  }

  function ReportOf(trigger: Trigger, n: Night): Report {
    Report(trigger, Degraded(PIPELINE, n.failing), Backup !in n.failing, Backup !in n.failing, SelfCheck !in n.failing && n.check.ok)
  }

  /** Whether the cycle is asleep, its rows, and every stage it has attempted. */
  datatype State = State(asleep: bool, rows: seq<Row>, attempted: seq<Stage>)

  function AfterSleep(s: State, trigger: Trigger, n: Night): (State, Result) {
    if s.asleep then (s, Busy)
    else if !n.opens then (s, Raised)
    else
      var report := ReportOf(trigger, n);
      var worked := s.(attempted := s.attempted + PIPELINE);
      if n.closes then (worked.(rows := s.rows + [Row(trigger, Some(report))]), Woke(report))
      else (worked.(rows := s.rows + [Row(trigger, None)], asleep := true), Raised)
  }

  function TriggerFor(s: State, energyUrge: bool, tick: nat, everyTicks: int): Option<Trigger> {
    if s.asleep then None
    else if energyUrge then Some(Energy)
    else if everyTicks > 0 && tick > 0 && tick % everyTicks == 0 then Some(Scheduled)
    else None
  }

  /** Who is awake falls asleep when Energy asks for it, and otherwise at every so many ticks, never at the first; who is
      asleep does not. */
  lemma TriggerIff(s: State, energyUrge: bool, tick: nat, everyTicks: int)
    ensures var t := TriggerFor(s, energyUrge, tick, everyTicks);
      && (t == Some(Energy) <==> !s.asleep && energyUrge)
      && (t == Some(Scheduled) <==> !s.asleep && !energyUrge && everyTicks > 0 && tick > 0 && tick % everyTicks == 0)
      && t != Some(Manual)
  {
  }

  class SleepCycle {
    var asleep: bool
    var rows: seq<Row>
    var attempted: seq<Stage>

    constructor ()
      ensures Now() == State(false, [], [])
    {
      asleep, rows, attempted := false, [], [];
    }

    function Now(): State
      reads this
    {
      State(asleep, rows, attempted)
    }

    /** A failing stage degrades only itself. */
    method RunStage(stage: Stage, failing: set<Stage>, degraded: seq<Stage>) returns (ok: bool, after: seq<Stage>)
      modifies this`attempted
      ensures attempted == old(attempted) + [stage]
      ensures ok == (stage !in failing) && after == degraded + if ok then [] else [stage]
    {
      attempted := attempted + [stage];
      ok := stage !in failing;
      after := if ok then degraded else degraded + [stage];
    }

    method RunPipeline(trigger: Trigger, n: Night) returns (report: Report)
      modifies this`attempted
      ensures attempted == old(attempted) + PIPELINE
      ensures report == ReportOf(trigger, n)
    {
      var degraded: seq<Stage> := [];
      var ok, backedUp, checked;
      ok, degraded := RunStage(Consolidate, n.failing, degraded);
      ok, degraded := RunStage(Decay, n.failing, degraded);
      ok, degraded := RunStage(RefreshSelfModel, n.failing, degraded);
      ok, degraded := RunStage(Metacognition, n.failing, degraded);
      backedUp, degraded := RunStage(Backup, n.failing, degraded);
      var eased := backedUp;
      ok, degraded := RunStage(RestoreEnergy, n.failing, degraded);
      checked, degraded := RunStage(SelfCheck, n.failing, degraded);
      DegradedPipeline(n.failing);
      report := Report(trigger, degraded, backedUp, eased, checked && n.check.ok);
    }

    method Sleep(trigger: Trigger, n: Night) returns (r: Result)
      modifies this
      ensures (Now(), r) == AfterSleep(old(Now()), trigger, n)
    {
      if asleep {
        return Busy;
      }
      asleep := true;
      if !n.opens {
        asleep := false;
        return Raised;
      }
      ghost var before := rows;
      rows := rows + [Row(trigger, None)];
      var report := RunPipeline(trigger, n);
      if !n.closes {
        return Raised;
      }
      rows := rows[|rows| - 1 := Row(trigger, Some(report))];
      assert rows == before + [Row(trigger, Some(report))];
      asleep := false;
      r := Woke(report);
    }
  }

  function Marked(stage: Stage, failing: set<Stage>): seq<Stage> {
    if stage in failing then [stage] else []
  }

  lemma DegradedMore(stages: seq<Stage>, stage: Stage, failing: set<Stage>)
    ensures Degraded(stages + [stage], failing) == Degraded(stages, failing) + Marked(stage, failing)
  {
    assert (stages + [stage])[..|stages|] == stages;
  }

  lemma DegradedPipeline(failing: set<Stage>)
    ensures Degraded(PIPELINE, failing)
      == [] + Marked(Consolidate, failing) + Marked(Decay, failing) + Marked(RefreshSelfModel, failing) + Marked(Metacognition, failing)
         + Marked(Backup, failing) + Marked(RestoreEnergy, failing) + Marked(SelfCheck, failing)
  {
    var p := PIPELINE;
    assert p[..6] + [SelfCheck] == p && p[..5] + [RestoreEnergy] == p[..6] && p[..4] + [Backup] == p[..5];
    assert p[..3] + [Metacognition] == p[..4] && p[..2] + [RefreshSelfModel] == p[..3] && p[..1] + [Decay] == p[..2] && [] + [Consolidate] == p[..1];
    DegradedMore([], Consolidate, failing);
    DegradedMore(p[..1], Decay, failing);
    DegradedMore(p[..2], RefreshSelfModel, failing);
    DegradedMore(p[..3], Metacognition, failing);
    DegradedMore(p[..4], Backup, failing);
    DegradedMore(p[..5], RestoreEnergy, failing);
    DegradedMore(p[..6], SelfCheck, failing);
  }

  // ---- What a sleep comes to ----

  lemma {:induction false} DegradedAre(stages: seq<Stage>, failing: set<Stage>)
    ensures forall stage :: stage in Degraded(stages, failing) <==> stage in stages && stage in failing
  {
    if stages != [] {
      var n := |stages| - 1;
      DegradedAre(stages[..n], failing);
      assert stages == stages[..n] + [stages[n]];
    }
  }

  /** Once the sleep row is open and if its close succeeds, whatever stages fail: it ends awake, every
      stage was attempted in order, exactly the failing ones are reported, and the check's verdict is
      positive only if the check itself ran and passed. */
  lemma SleepEndsAwake(s: State, trigger: Trigger, n: Night)
    requires !s.asleep && n.opens && n.closes
    ensures var (after, r) := AfterSleep(s, trigger, n);
      && !after.asleep && r.Woke? && r.report.trigger == trigger
      && after.attempted == s.attempted + [Consolidate, Decay, RefreshSelfModel, Metacognition, Backup, RestoreEnergy, SelfCheck]
      && (forall stage :: stage in r.report.degraded <==> stage in n.failing)
      && (r.report.selfCheckOk <==> SelfCheck !in n.failing && n.check.ok)
      && (r.report.eased <==> Backup !in n.failing) && (r.report.backedUp <==> Backup !in n.failing)
      && after.rows == s.rows + [Row(trigger, Some(r.report))]
  {
    DegradedAre(PIPELINE, n.failing);
    forall stage: Stage ensures stage in PIPELINE {
      match stage
      case Consolidate => assert PIPELINE[0] == stage;
      case Decay => assert PIPELINE[1] == stage;
      case RefreshSelfModel => assert PIPELINE[2] == stage;
      case Metacognition => assert PIPELINE[3] == stage;
      case Backup => assert PIPELINE[4] == stage;
      case RestoreEnergy => assert PIPELINE[5] == stage;
      case SelfCheck => assert PIPELINE[6] == stage;
    }
  }

  /** The order of the report is the order of the pipeline. */
  lemma {:induction false} DegradedInOrder(stages: seq<Stage>, failing: set<Stage>, i: nat, j: nat) returns (p: nat, q: nat)
    requires i < j < |Degraded(stages, failing)|
    ensures p < q < |stages| && stages[p] == Degraded(stages, failing)[i] && stages[q] == Degraded(stages, failing)[j]
  {
    var n := |stages| - 1;
    var before := Degraded(stages[..n], failing);
    if j < |before| {
      p, q := DegradedInOrder(stages[..n], failing, i, j);
    } else {
      q := n;
      DegradedAre(stages[..n], failing);
      assert before[i] in before;
      p :| 0 <= p < n && stages[..n][p] == before[i];
    }
  }

  /** A sleep leaves the cycle stuck asleep exactly when its row was opened and could not be closed. */
  lemma StuckIff(s: State, trigger: Trigger, n: Night)
    requires !s.asleep
    ensures AfterSleep(s, trigger, n).0.asleep <==> n.opens && !n.closes
  {
  }

  function Nights(s: State, nights: seq<(Trigger, Night)>): State {
    if nights == [] then s
    else AfterSleep(Nights(s, nights[..|nights| - 1]), nights[|nights| - 1].0, nights[|nights| - 1].1).0
  }

  /** Stuck asleep is for good: nothing triggers a sleep again and no call does anything. */
  lemma {:induction false} StuckForGood(s: State, nights: seq<(Trigger, Night)>, energyUrge: bool, tick: nat, everyTicks: int)
    requires s.asleep
    ensures Nights(s, nights) == s && TriggerFor(Nights(s, nights), energyUrge, tick, everyTicks).None?
  {
    if nights != [] {
      StuckForGood(s, nights[..|nights| - 1], energyUrge, tick, everyTicks);
    }
  }
}
