/** The fail-closed gate between a collector's maturity and external delivery. */
module Qualification {
  import opened Common

  const PROVENANCES := {"SCHEDULED", "MANUAL", "DEPLOY", "RECOVERY", "UNKNOWN"}

  /** What one process is configured with. The maturity epoch is a digest of the experimental set; here the set. */
  datatype Config = Config(experimental: set<string>, revision: string)
  type Epoch = set<string>

  datatype Material = Material(revision: string, collector: string, version: string, epoch: Epoch)
  datatype Run = Run(id: nat, collector: string, version: string, status: string)
  datatype Gate = Eligible | Blocked | Unknown | Reset
  datatype ResetReason = CodeOrCollectorChange | MaturityGateChanged

  datatype Evidence = Evidence(collector: string, epoch: Epoch, provenance: string, material: Option<Material>,
                               resetReason: Option<ResetReason>, eligibility: Gate, qualification: Gate,
                               execution: Option<nat>)

  /* ---- The queries ---- */

  /** The newest row of a collector. */
  function Newest(rows: seq<Evidence>, collector: string): Option<Evidence> {
    if |rows| == 0 then None
    else if rows[|rows| - 1].collector == collector then Some(rows[|rows| - 1])
    else Newest(rows[..|rows| - 1], collector)
  }

  /** The newest row of a collector that carries a material identity. */
  function NewestMaterial(rows: seq<Evidence>, collector: string): Option<Material> {
    if |rows| == 0 then None
    else
      var last := rows[|rows| - 1];
      if last.collector == collector && last.material.Some? then last.material
      else NewestMaterial(rows[..|rows| - 1], collector)
  }

  predicate HasTerminal(rows: seq<Evidence>, execution: nat) {
    exists i :: 0 <= i < |rows| && rows[i].execution == Some(execution) && rows[i].resetReason.None?
  }

  predicate HasCodeReset(rows: seq<Evidence>, execution: nat) {
    exists i :: 0 <= i < |rows| && rows[i].execution == Some(execution)
                && rows[i].resetReason == Some(CodeOrCollectorChange)
  }

  function MaterialOf(cfg: Config, run: Run): Material {
    Material(cfg.revision, run.collector, run.version, cfg.experimental)
  }

  /* ---- What each call appends ---- */

  datatype Call =
    | RecordExecution(cfg: Config, run: Run, provenance: string)
    | PrepareEpoch(cfg: Config, run: Run, provenance: string)
    | AskDelivery(cfg: Config, collector: string)
    | Promote(cfg: Config, collector: string)

  function Added(rows: seq<Evidence>, call: Call): Option<Evidence> {
    match call
    case RecordExecution(cfg, run, provenance) =>
      if provenance !in PROVENANCES || HasTerminal(rows, run.id) then None
      else
        var gate := if provenance == "SCHEDULED" then Eligible else Unknown;
        Some(Evidence(run.collector, cfg.experimental, provenance, Some(MaterialOf(cfg, run)), None, gate, gate,
                      Some(run.id)))
    case PrepareEpoch(cfg, run, provenance) =>
      var prior := NewestMaterial(rows, run.collector);
      if provenance !in PROVENANCES || HasCodeReset(rows, run.id) || prior.None?
         || prior.value == MaterialOf(cfg, run) then None
      else Some(Evidence(run.collector, cfg.experimental, provenance, Some(MaterialOf(cfg, run)),
                         Some(CodeOrCollectorChange), Unknown, Reset, Some(run.id)))
    case AskDelivery(cfg, collector) =>
      var latest := Newest(rows, collector);
      if collector == "" || latest.None? || latest.value.epoch == cfg.experimental then None
      else Some(Evidence(collector, cfg.experimental, "CONFIG", None, Some(MaturityGateChanged),
                         Configured(cfg, collector), Reset, None))
    case Promote(cfg, collector) =>
      if collector in cfg.experimental then None
      else Some(Evidence(collector, cfg.experimental, "MANUAL", None, None, Eligible, Eligible, None))
  }

  function Configured(cfg: Config, collector: string): Gate {
    if collector in cfg.experimental then Blocked else Eligible
  }

  function AfterCall(rows: seq<Evidence>, call: Call): seq<Evidence> {
    match Added(rows, call)
    case None => rows
    case Some(row) => rows + [row]
  }

  predicate Allowed(rows: seq<Evidence>, cfg: Config, collector: string) {
    var latest, configured := Newest(rows, collector), Configured(cfg, collector);
    && collector != "" && latest.Some? && latest.value.epoch == cfg.experimental
    && latest.value.eligibility == configured && latest.value.qualification == configured == Eligible
  }

  class QualificationService {
    var evidence: seq<Evidence>

    constructor ()
      ensures evidence == []
    {
      evidence := [];
    }

    /** One terminal record for an execution; a repeated call finds it. */
    method RecordExecution(cfg: Config, run: Run, provenance: string) returns (ok: bool)
      modifies this
      ensures ok <==> provenance in PROVENANCES
      ensures evidence == AfterCall(old(evidence), Call.RecordExecution(cfg, run, provenance))
    {
      if provenance !in PROVENANCES {
        return false;
      }
      ok := true;
      if HasTerminal(evidence, run.id) {
        return;
      }
      var gate := if provenance == "SCHEDULED" then Eligible else Unknown;
      evidence := evidence + [Evidence(run.collector, cfg.experimental, provenance, Some(MaterialOf(cfg, run)), None,
                                       gate, gate, Some(run.id))];
    }

    /** A reset where the code or the collector changed since the newest record that knows its material. */
    method PrepareEpochForRun(cfg: Config, run: Run, provenance: string) returns (ok: bool)
      modifies this
      ensures ok <==> provenance in PROVENANCES
      ensures evidence == AfterCall(old(evidence), PrepareEpoch(cfg, run, provenance))
    {
      if provenance !in PROVENANCES {
        return false;
      }
      ok := true;
      if HasCodeReset(evidence, run.id) {
        return;
      }
      var material, prior := MaterialOf(cfg, run), NewestMaterial(evidence, run.collector);
      if prior.None? || prior.value == material {
        return;
      }
      evidence := evidence + [Evidence(run.collector, cfg.experimental, provenance, Some(material),
                                       Some(CodeOrCollectorChange), Unknown, Reset, Some(run.id))];
    }

    /** Records the comparison where it fails because the maturity set changed, and answers fail-closed. */
    method DeliveryAllowed(cfg: Config, collector: string) returns (allowed: bool)
      modifies this
      ensures evidence == AfterCall(old(evidence), AskDelivery(cfg, collector))
      ensures allowed == Allowed(old(evidence), cfg, collector)
      ensures allowed ==> evidence == old(evidence)
    {
      if collector == "" {
        return false;
      }
      var configured := if collector in cfg.experimental then Blocked else Eligible;
      var latest := Newest(evidence, collector);
      if latest.None? || latest.value.epoch != cfg.experimental {
        if latest.Some? {
          evidence := evidence + [Evidence(collector, cfg.experimental, "CONFIG", None, Some(MaturityGateChanged),
                                           configured, Reset, None)];
        }
        return false;
      }
      allowed := latest.value.eligibility == configured
                 && latest.value.qualification == configured && configured == Eligible;
    }

    method RecordOperatorPromotion(cfg: Config, collector: string) returns (ok: bool)
      modifies this
      ensures ok <==> collector !in cfg.experimental
      ensures evidence == AfterCall(old(evidence), Promote(cfg, collector))
    {
      if collector in cfg.experimental {
        return false;
      }
      evidence := evidence + [Evidence(collector, cfg.experimental, "MANUAL", None, None, Eligible, Eligible, None)];
      ok := true;
    }
  }

  /* ---- Over every history ---- */

  function AfterCalls(calls: seq<Call>): seq<Evidence> {
    if |calls| == 0 then [] else AfterCall(AfterCalls(calls[..|calls| - 1]), calls[|calls| - 1])
  }

  function About(call: Call): string {
    match call
    case RecordExecution(_, run, _) => run.collector
    case PrepareEpoch(_, run, _) => run.collector
    case AskDelivery(_, collector) => collector
    case Promote(_, collector) => collector
  }

  /* Told from the calls alone: what each of them leaves on record. */

  /** A terminal record of this execution has been asked for with an authority that is known. */
  ghost predicate Executed(calls: seq<Call>, execution: nat) {
    exists i :: 0 <= i < |calls| && calls[i].RecordExecution? && calls[i].provenance in PROVENANCES
                && calls[i].run.id == execution
  }

  /** Since the call that left it, the source revision, the collector's version or the maturity set is another. */
  predicate Changed(since: Call, cfg: Config, run: Run)
    requires since.RecordExecution? || since.PrepareEpoch?
  {
    since.cfg.revision != cfg.revision || since.run.version != run.version
    || since.cfg.experimental != cfg.experimental
  }

  /** The next call leaves a record: the first known execution, the first reset of a run whose collector has changed
      since its latest execution or reset, the first question under another maturity set, or a promotion of a
      collector that is not experimental. */
  ghost predicate Writes(calls: seq<Call>, next: Call)
    decreases |calls|, 1
  {
    match next
    case RecordExecution(_, run, provenance) => provenance in PROVENANCES && !Executed(calls, run.id)
    case PrepareEpoch(cfg, run, provenance) =>
      var since := LastMaterial(calls, run.collector);
      provenance in PROVENANCES && !HasBeenReset(calls, run.id) && since.Some? && Changed(since.value, cfg, run)
    case AskDelivery(cfg, collector) =>
      var writer := LastWriter(calls, collector);
      collector != "" && writer.Some? && writer.value.cfg.experimental != cfg.experimental
    case Promote(cfg, collector) => collector !in cfg.experimental
  }

  /** The newest call that left a record of this collector. */
  ghost function LastWriter(calls: seq<Call>, collector: string): Option<Call>
    decreases |calls|, 0
  {
    if |calls| == 0 then None
    else
      var front, last := calls[..|calls| - 1], calls[|calls| - 1];
      if About(last) == collector && Writes(front, last) then Some(last) else LastWriter(front, collector)
  }

  /** The newest execution or code reset on record for this collector. */
  ghost function LastMaterial(calls: seq<Call>, collector: string): (since: Option<Call>)
    ensures since.Some? ==> since.value.RecordExecution? || since.value.PrepareEpoch?
    decreases |calls|, 0
  {
    if |calls| == 0 then None
    else
      var front, last := calls[..|calls| - 1], calls[|calls| - 1];
      if (last.RecordExecution? || last.PrepareEpoch?) && About(last) == collector && Writes(front, last)
      then Some(last)
      else LastMaterial(front, collector)
  }

  /** This run has left a code reset. */
  ghost predicate HasBeenReset(calls: seq<Call>, execution: nat)
    decreases |calls|, 0
  {
    |calls| > 0 &&
    var front, last := calls[..|calls| - 1], calls[|calls| - 1];
    HasBeenReset(front, execution) || (last.PrepareEpoch? && last.run.id == execution && Writes(front, last))
  }

  /** Only a scheduled execution or an operator's promotion has the authority to qualify. */
  predicate Qualifies(call: Call) {
    (call.RecordExecution? && call.provenance == "SCHEDULED") || call.Promote?
  }

  /** What a record says of the call that left it. */
  ghost predicate Says(row: Evidence, call: Call) {
    && row.collector == About(call) && row.epoch == call.cfg.experimental
    && row.qualification == (if Qualifies(call) then Eligible else if call.RecordExecution? then Unknown else Reset)
    && row.eligibility == (if Qualifies(call) then Eligible
                           else if !call.AskDelivery? then Unknown
                           else if call.collector in call.cfg.experimental then Blocked else Eligible)
    && (row.resetReason == None <==> call.RecordExecution? || call.Promote?)
    && (row.resetReason == Some(CodeOrCollectorChange) <==> call.PrepareEpoch?)
    && (row.execution.Some? <==> call.RecordExecution? || call.PrepareEpoch?)
    && (row.execution.Some? ==> row.execution == Some(call.run.id) && row.provenance == call.provenance)
    && row.material == (if row.execution.Some?
                        then Some(Material(call.cfg.revision, call.run.collector, call.run.version,
                                           call.cfg.experimental))
                        else None)
    && (call.AskDelivery? ==> row.provenance == "CONFIG") && (call.Promote? ==> row.provenance == "MANUAL")
  }

  ghost predicate NewestSays(rows: seq<Evidence>, collector: string, writer: Option<Call>) {
    match Newest(rows, collector)
    case None => writer.None?
    case Some(row) => writer.Some? && Says(row, writer.value)
  }

  ghost predicate MaterialSays(rows: seq<Evidence>, collector: string, since: Option<Call>)
    requires since.Some? ==> since.value.RecordExecution? || since.value.PrepareEpoch?
  {
    match NewestMaterial(rows, collector)
    case None => since.None?
    case Some(m) =>
      && since.Some? && since.value.run.collector == collector
      && m == Material(since.value.cfg.revision, collector, since.value.run.version, since.value.cfg.experimental)
  }

  /** Of one collector and one execution the rows tell exactly what the calls tell. */
  ghost predicate RecountsOf(rows: seq<Evidence>, calls: seq<Call>, collector: string, execution: nat) {
    && NewestSays(rows, collector, LastWriter(calls, collector))
    && MaterialSays(rows, collector, LastMaterial(calls, collector))
    && (HasTerminal(rows, execution) <==> Executed(calls, execution))
    && (HasCodeReset(rows, execution) <==> HasBeenReset(calls, execution))
  }

  ghost predicate Recounts(rows: seq<Evidence>, calls: seq<Call>) {
    forall collector, execution: nat :: RecountsOf(rows, calls, collector, execution)
  }

  lemma AddedExactly(rows: seq<Evidence>, calls: seq<Call>, next: Call)
    requires Recounts(rows, calls)
    ensures Added(rows, next).Some? <==> Writes(calls, next)
    ensures Added(rows, next).Some? ==> Says(Added(rows, next).value, next)
  {
    assert RecountsOf(rows, calls, About(next), if next.RecordExecution? || next.PrepareEpoch? then next.run.id else 0);
  }

  lemma QueriesSnoc(rows: seq<Evidence>, row: Evidence, collector: string, execution: nat)
    ensures Newest(rows + [row], collector) == if row.collector == collector then Some(row) else Newest(rows, collector)
    ensures NewestMaterial(rows + [row], collector)
         == if row.collector == collector && row.material.Some? then row.material else NewestMaterial(rows, collector)
    ensures HasTerminal(rows + [row], execution)
       <==> HasTerminal(rows, execution) || (row.execution == Some(execution) && row.resetReason.None?)
    ensures HasCodeReset(rows + [row], execution)
       <==> HasCodeReset(rows, execution)
            || (row.execution == Some(execution) && row.resetReason == Some(CodeOrCollectorChange))
  {
    var more := rows + [row];
    assert more[..|rows|] == rows && more[|rows|] == row;
    assert forall i :: 0 <= i < |rows| ==> more[i] == rows[i];
  }

  lemma HistorySnoc(calls: seq<Call>, next: Call, collector: string, execution: nat)
    ensures LastWriter(calls + [next], collector)
         == if About(next) == collector && Writes(calls, next) then Some(next) else LastWriter(calls, collector)
    ensures LastMaterial(calls + [next], collector)
         == if (next.RecordExecution? || next.PrepareEpoch?) && About(next) == collector && Writes(calls, next)
            then Some(next) else LastMaterial(calls, collector)
    ensures HasBeenReset(calls + [next], execution)
       <==> HasBeenReset(calls, execution) || (next.PrepareEpoch? && next.run.id == execution && Writes(calls, next))
    ensures Executed(calls + [next], execution)
       <==> Executed(calls, execution) || (next.RecordExecution? && next.run.id == execution && Writes(calls, next))
  {
    hide Writes;
    var more := calls + [next];
    assert more[..|calls|] == calls && more[|calls|] == next;
    assert forall i :: 0 <= i < |calls| ==> more[i] == calls[i];
    ExecutedSnoc(calls, next, execution);
  }

  lemma ExecutedSnoc(calls: seq<Call>, next: Call, execution: nat)
    ensures Executed(calls + [next], execution)
       <==> Executed(calls, execution) || (next.RecordExecution? && next.run.id == execution && Writes(calls, next))
  {
    var more := calls + [next];
    assert more[|calls|] == next;
    assert forall i :: 0 <= i < |calls| ==> more[i] == calls[i];
  }

  lemma RecountsOn(rows: seq<Evidence>, calls: seq<Call>, next: Call)
    requires Recounts(rows, calls)
    ensures Recounts(AfterCall(rows, next), calls + [next])
  {
    AddedExactly(rows, calls, next);
    forall c, id: nat ensures RecountsOf(AfterCall(rows, next), calls + [next], c, id) {
      hide Writes, LastWriter, LastMaterial, HasBeenReset, Executed, Newest, NewestMaterial, HasTerminal, HasCodeReset;
      assert RecountsOf(rows, calls, c, id);
      HistorySnoc(calls, next, c, id);
      if Added(rows, next).Some? {
        QueriesSnoc(rows, Added(rows, next).value, c, id);
      }
    }
  }

  lemma {:induction false} CallsRecount(calls: seq<Call>)
    ensures Recounts(AfterCalls(calls), calls)
  {
    if |calls| == 0 {
    } else {
      var front, last := calls[..|calls| - 1], calls[|calls| - 1];
      CallsRecount(front);
      RecountsOn(AfterCalls(front), front, last);
      assert front + [last] == calls;
    }
  }

  /** When a call leaves a record, and what it says, over every history: one row is appended if and only if the calls
      alone say so, and otherwise the rows stay. */
  lemma WritesExactly(calls: seq<Call>, next: Call)
    ensures var before, after := AfterCalls(calls), AfterCalls(calls + [next]);
            if Writes(calls, next) then exists row :: after == before + [row] && Says(row, next) else after == before
  {
    CallsRecount(calls);
    AddedExactly(AfterCalls(calls), calls, next);
    assert (calls + [next])[..|calls|] == calls;
  }

  /** The answer to a question asked after these calls. */
  ghost predicate AllowedAfter(calls: seq<Call>, cfg: Config, collector: string) {
    Allowed(AfterCalls(calls), cfg, collector)
  }

  /** The newest of the calls that left a record of the collector is a scheduled execution or a promotion, made under
      the present maturity set. */
  ghost predicate LastWriterQualifies(calls: seq<Call>, cfg: Config, collector: string) {
    var writer := LastWriter(calls, collector);
    writer.Some? && writer.value.cfg.experimental == cfg.experimental && Qualifies(writer.value)
  }

  /** Fail-closed, over every history of calls under any configurations: delivery is allowed if and only if the
      collector is not experimental now and its newest record was written under the present maturity set by a
      scheduled execution or a promotion. */
  lemma AllowedExactly(calls: seq<Call>, cfg: Config, collector: string)
    ensures AllowedAfter(calls, cfg, collector)
       <==> collector != "" && collector !in cfg.experimental && LastWriterQualifies(calls, cfg, collector)
  {
    hide LastWriter;
    CallsRecount(calls);
    assert RecountsOf(AfterCalls(calls), calls, collector, 0);
  }

  /** A refusal stands, whatever resets, manual runs and questions follow, until the collector has a scheduled
      execution or a promotion. */
  lemma {:induction false} RefusalStands(calls: seq<Call>, more: seq<Call>, cfg: Config, collector: string)
    requires !AllowedAfter(calls, cfg, collector)
    requires forall i :: 0 <= i < |more| ==> !(About(more[i]) == collector && Qualifies(more[i]))
    ensures !AllowedAfter(calls + more, cfg, collector)
  {
    if |more| == 0 {
      assert calls + more == calls;
    } else {
      var front, last := more[..|more| - 1], more[|more| - 1];
      assert (calls + more)[..|calls + more| - 1] == calls + front;
      RefusalStands(calls, front, cfg, collector);
      AllowedExactly(calls + front, cfg, collector);
      AllowedExactly(calls + more, cfg, collector);
    }
  }

  /** A run is reset if and only if its authority is known, it has not been reset before, and its collector's latest
      execution or reset was under another revision, version or maturity set. A reset, of this kind or for a changed
      maturity set, refuses delivery at once under every configuration. */
  lemma ResetExactly(calls: seq<Call>, cfg: Config, run: Run, provenance: string, now: Config)
    ensures var since, reset := LastMaterial(calls, run.collector), calls + [PrepareEpoch(cfg, run, provenance)];
            if provenance in {"SCHEDULED", "MANUAL", "DEPLOY", "RECOVERY", "UNKNOWN"}
               && !HasBeenReset(calls, run.id) && since.Some? && Changed(since.value, cfg, run)
            then |AfterCalls(reset)| == |AfterCalls(calls)| + 1 && !AllowedAfter(reset, now, run.collector)
            else AfterCalls(reset) == AfterCalls(calls)
  {
    var next := PrepareEpoch(cfg, run, provenance);
    WritesExactly(calls, next);
    if Writes(calls, next) {
      ResetBlocks(calls, next, now);
    }
  }

  lemma ResetBlocks(calls: seq<Call>, reset: Call, cfg: Config)
    requires Writes(calls, reset) && (reset.PrepareEpoch? || reset.AskDelivery?)
    ensures !AllowedAfter(calls + [reset], cfg, About(reset))
  {
    HistorySnoc(calls, reset, About(reset), 0);
    AllowedExactly(calls + [reset], cfg, About(reset));
  }

  /** A scheduled execution under "rev-a", then a run of the same collector under "rev-b": reset and refused. */
  lemma NewRevisionResets(cfg: Config, run: Run, next: Run)
    requires next.collector == run.collector
    ensures var first := [Call.RecordExecution(cfg.(revision := "rev-a"), run, "SCHEDULED")];
            var later := cfg.(revision := "rev-b");
            && (run.collector != "" && run.collector !in cfg.experimental ==> AllowedAfter(first, later, run.collector))
            && !AllowedAfter(first + [PrepareEpoch(later, next, "SCHEDULED")], later, run.collector)
  {
    var executed := Call.RecordExecution(cfg.(revision := "rev-a"), run, "SCHEDULED");
    var later := cfg.(revision := "rev-b");
    HistorySnoc([], executed, run.collector, next.id);
    assert [] + [executed] == [executed];
    assert Writes([], executed);
    AllowedExactly([executed], later, run.collector);
    ResetExactly([executed], later, next, "SCHEDULED", later);
  }

  /** A changed maturity set is recorded once: asking again under the same configuration writes nothing. */
  lemma AskingTwice(rows: seq<Evidence>, cfg: Config, collector: string)
    ensures AfterCall(AfterCall(rows, AskDelivery(cfg, collector)), AskDelivery(cfg, collector))
         == AfterCall(rows, AskDelivery(cfg, collector))
    ensures !Allowed(rows, cfg, collector) ==> !Allowed(AfterCall(rows, AskDelivery(cfg, collector)), cfg, collector)
  {
    var once := AfterCall(rows, AskDelivery(cfg, collector));
    assert once != rows ==> once[..|rows|] == rows;
  }

  ghost predicate OneOfEach(rows: seq<Evidence>) {
    forall i, j :: 0 <= i < j < |rows| && rows[i].execution.Some? && rows[i].execution == rows[j].execution ==>
      && !(rows[i].resetReason.None? && rows[j].resetReason.None?)
      && !(rows[i].resetReason == Some(CodeOrCollectorChange) == rows[j].resetReason)
  }

  /** Each execution has at most one terminal record and at most one code-change reset, over every history. */
  lemma {:induction false} OneRecordPerExecution(calls: seq<Call>)
    ensures OneOfEach(AfterCalls(calls))
  {
    if |calls| == 0 {
    } else {
      OneRecordPerExecution(calls[..|calls| - 1]);
    }
  }
}
