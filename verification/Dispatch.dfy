/** The one vetted and audited dispatch point for tools (brain/effectors/dispatch.py). */
module Dispatch {

  datatype Option<T> = None | Some(value: T)

  type Args = map<string, string>

  datatype ProposedAction = ProposedAction(tool: string, args: Args, goalId: Option<nat>, danger: string)

  datatype Verdict = Verdict(allowed: bool, reason: string)
  {
    function Name(): string { if allowed then "allow" else "veto" }
  }

  datatype ToolResult = ToolResult(success: bool, output: string, summary: string)

  /** A tool on the belt: its hazard class and which arguments its schema accepts. */
  datatype Tool = Tool(danger: string, accepts: Args -> bool)

  type Registry = map<string, Tool>

  /** A proposal that has been resolved, validated and vetted. */
  datatype VettedAction = VettedAction(action: ProposedAction, verdict: Verdict)

  datatype AuditRow = AuditRow(
    tool: string, args: Args, result: Option<ToolResult>, verdict: string, vetoReason: Option<string>, goalId: Option<nat>, success: bool)

  /** What leaves the dispatch: a tool body that is executed, an audit row, an event on the bus. */
  datatype Effect =
    | Ran(tool: string, args: Args)
    | Audited(row: AuditRow)
    | Emitted(kind: string, tool: string, success: bool)

  datatype Outcome = Outcome(ran: bool, verdict: Verdict, result: Option<ToolResult>)

  // ---- Vetting ----

  /** What the Conscience answers, or an exception. */
  type Judgement = Option<Verdict>

  datatype Vetting = UnknownTool | BadArgs | ConscienceRaised | Vetted(vetted: VettedAction)

  function Vet(registry: Registry, action: ProposedAction, judge: ProposedAction -> Judgement): Vetting {
    if action.tool !in registry then UnknownTool
    else
      var stamped := action.(danger := registry[action.tool].danger);
      if !registry[action.tool].accepts(action.args) then BadArgs
      else match judge(stamped)
        case None => ConscienceRaised
        case Some(verdict) => Vetted(VettedAction(stamped, verdict))
  }

  /** Whatever is vetted is on the belt, has arguments its tool accepts, and carries the Conscience's
      own verdict on the tool's real hazard class. */
  lemma VettedMeaning(registry: Registry, action: ProposedAction, judge: ProposedAction -> Judgement)
    ensures var v := Vet(registry, action, judge);
      v.Vetted? <==>
        (action.tool in registry && registry[action.tool].accepts(action.args)
         && judge(action.(danger := registry[action.tool].danger)).Some?)
    ensures var v := Vet(registry, action, judge);
      v.Vetted? ==>
        && v.vetted.action.tool == action.tool && v.vetted.action.args == action.args && v.vetted.action.goalId == action.goalId
        && v.vetted.action.danger == registry[action.tool].danger
        && judge(v.vetted.action) == Some(v.vetted.verdict)
  {
  }

  // ---- Committing ----

  /** How the collaborators behave: what the tool's body returns or raises, and whether the audit write
      and the broadcast go through. */
  datatype Weather = Weather(run: Option<ToolResult>, auditWorks: bool, broadcastWorks: bool)

  function RowOf(v: VettedAction, result: Option<ToolResult>): AuditRow {
    AuditRow(
      v.action.tool, v.action.args, result, v.verdict.Name(),
      if v.verdict.allowed || v.verdict.reason == "" then None else Some(v.verdict.reason),
      v.action.goalId, result.Some? && result.value.success)
  }

  function EventOf(v: VettedAction, result: Option<ToolResult>): Effect {
    Emitted(if v.verdict.allowed then "action.dispatched" else "action.vetoed", v.action.tool, result.Some? && result.value.success)
  }

  /** The effects of a commit, in order. */
  function Effects(v: VettedAction, w: Weather): seq<Effect> {
    var result := if v.verdict.allowed then w.run else None;
    (if v.verdict.allowed then [Ran(v.action.tool, v.action.args)] else [])
    + (if (v.verdict.allowed && w.run.None?) || !w.auditWorks then []
       else [Audited(RowOf(v, result))] + if w.broadcastWorks then [EventOf(v, result)] else [])
  }

  predicate Returns(v: VettedAction, w: Weather) {
    (v.verdict.allowed ==> w.run.Some?) && w.auditWorks && w.broadcastWorks
  }

  /** The result of a commit; none when it raises. */
  function Committed(v: VettedAction, w: Weather): Option<Outcome> {
    if Returns(v, w) then Some(Outcome(v.verdict.allowed, v.verdict, if v.verdict.allowed then w.run else None)) else None
  }

  class EffectorDispatch {
    const registry: Registry
    var effects: seq<Effect>

    constructor (registry: Registry)
      ensures this.registry == registry && effects == []
    {
      this.registry, effects := registry, [];
    }

    method VetAction(action: ProposedAction, judge: ProposedAction -> Judgement) returns (v: Vetting)
      ensures v == Vet(registry, action, judge)
    {
      if action.tool !in registry {
        return UnknownTool;
      }
      var tool := registry[action.tool];
      var stamped := action.(danger := tool.danger);
      if !tool.accepts(stamped.args) {
        return BadArgs;
      }
      var verdict := judge(stamped);
      if verdict.None? {
        return ConscienceRaised;
      }
      v := Vetted(VettedAction(stamped, verdict.value));
    }

    method Record(row: AuditRow, works: bool) returns (ok: bool)
      modifies this
      ensures ok == works && effects == old(effects) + if works then [Audited(row)] else []
    {
      ok := works;
      if works {
        effects := effects + [Audited(row)];
      }
    }

    method Emit(event: Effect, works: bool) returns (ok: bool)
      modifies this
      ensures ok == works && effects == old(effects) + if works then [event] else []
    {
      ok := works;
      if works {
        effects := effects + [event];
      }
    }

    /** Runs the tool only if the verdict allows it, then audits, then emits. */
    method Commit(v: VettedAction, w: Weather) returns (outcome: Option<Outcome>)
      modifies this
      ensures effects == old(effects) + Effects(v, w)
      ensures outcome == Committed(v, w)
    {
      var result := None;
      if v.verdict.allowed {
        effects := effects + [Ran(v.action.tool, v.action.args)];
        if w.run.None? {
          return None;
        }
        result := w.run;
      }
      var recorded := Record(RowOf(v, result), w.auditWorks);
      if !recorded {
        return None;
      }
      var emitted := Emit(EventOf(v, result), w.broadcastWorks);
      if !emitted {
        return None;
      }
      outcome := Some(Outcome(v.verdict.allowed, v.verdict, result));
    }

    method Propose(action: ProposedAction, judge: ProposedAction -> Judgement, w: Weather) returns (outcome: Option<Outcome>)
      modifies this
      ensures var v := Vet(registry, action, judge);
        if v.Vetted? then effects == old(effects) + Effects(v.vetted, w) && outcome == Committed(v.vetted, w)
        else effects == old(effects) && outcome.None?
    {
      var v := VetAction(action, judge);
      if !v.Vetted? {
        return None;
      }
      outcome := Commit(v.vetted, w);
    }
  }

  // ---- What a commit leaves behind ----

  function Rows(effects: seq<Effect>): seq<AuditRow> {
    if effects == [] then []
    else Rows(effects[..|effects| - 1]) + match effects[|effects| - 1] { case Audited(row) => [row] case _ => [] }
  }

  function Runs(effects: seq<Effect>): nat {
    if effects == [] then 0 else Runs(effects[..|effects| - 1]) + if effects[|effects| - 1].Ran? then 1 else 0
  }

  /** A tool body is executed at most once, and exactly when the verdict allows it. A row is written
      exactly when the body returned (or nothing was to be run) and the audit write went through; so a
      body that raises leaves no row, and a commit that returns leaves exactly one. */
  lemma CommitMeaning(v: VettedAction, w: Weather)
    ensures var effects := Effects(v, w);
      && Runs(effects) == (if v.verdict.allowed then 1 else 0)
      && |Rows(effects)| == (if (v.verdict.allowed ==> w.run.Some?) && w.auditWorks then 1 else 0)
      && (Returns(v, w) ==> |Rows(effects)| == 1 && effects[|effects| - 1].Emitted?)
      && (|Rows(effects)| == 1 && !v.verdict.allowed ==>
            Rows(effects)[0].result.None? && !Rows(effects)[0].success && Rows(effects)[0].verdict == "veto")
      && (|Rows(effects)| == 1 && v.verdict.allowed ==>
            Rows(effects)[0].result == w.run && Rows(effects)[0].success == w.run.value.success && Rows(effects)[0].vetoReason.None?)
  {
    var result := if v.verdict.allowed then w.run else None;
    var ran: seq<Effect> := if v.verdict.allowed then [Ran(v.action.tool, v.action.args)] else [];
    var rest: seq<Effect> :=
      if (v.verdict.allowed && w.run.None?) || !w.auditWorks then []
      else [Audited(RowOf(v, result))] + if w.broadcastWorks then [EventOf(v, result)] else [];
    CountsOf(ran, rest);
    assert Effects(v, w) == ran + rest;
    assert Runs(ran) == |ran| && Rows(ran) == [];
    if rest != [] {
      var audited := [Audited(RowOf(v, result))];
      assert Rows(audited) == [RowOf(v, result)] && Runs(audited) == 0;
      if w.broadcastWorks {
        CountsOf(audited, [EventOf(v, result)]);
        assert Rows([EventOf(v, result)]) == [];
      }
    }
  }

  /** A commit returns if and only if the body, if it was to run, the audit write and the broadcast all went through; what it
      returns says whether the body ran, and what the body returned. */
  lemma OutcomeTells(v: VettedAction, w: Weather)
    ensures Committed(v, w).Some? <==> (!v.verdict.allowed || w.run.Some?) && w.auditWorks && w.broadcastWorks
    ensures Committed(v, w).Some? ==>
      var o := Committed(v, w).value;
      o.ran == v.verdict.allowed && o.verdict == v.verdict && o.result == (if v.verdict.allowed then w.run else None)
  {
  }

  /** What is run, written and emitted: the tool body gets the vetted arguments; the row names tool, arguments, goal and
      verdict, and the reason of a veto if one was given; the event says whether it was dispatched or vetoed. */
  lemma CommitTells(v: VettedAction, w: Weather, i: nat)
    requires i < |Effects(v, w)|
    ensures match Effects(v, w)[i]
      case Ran(tool, args) => i == 0 && v.verdict.allowed && tool == v.action.tool && args == v.action.args
      case Audited(row) =>
        && row.tool == v.action.tool && row.args == v.action.args && row.goalId == v.action.goalId
        && row.verdict == (if v.verdict.allowed then "allow" else "veto")
        && row.vetoReason == (if v.verdict.allowed || v.verdict.reason == "" then None else Some(v.verdict.reason))
        && row.result == (if v.verdict.allowed then w.run else None)
      case Emitted(kind, tool, success) =>
        && i == |Effects(v, w)| - 1 && tool == v.action.tool
        && kind == (if v.verdict.allowed then "action.dispatched" else "action.vetoed")
        && success == (v.verdict.allowed && w.run.Some? && w.run.value.success)
  {
  }

  lemma {:induction false} CountsOf(xs: seq<Effect>, ys: seq<Effect>)
    ensures Rows(xs + ys) == Rows(xs) + Rows(ys)
    ensures Runs(xs + ys) == Runs(xs) + Runs(ys)
  {
    if ys == [] {
      assert xs + ys == xs;
    } else {
      CountsOf(xs, ys[..|ys| - 1]);
      assert (xs + ys)[..|xs + ys| - 1] == xs + ys[..|ys| - 1];
    }
  }
}
