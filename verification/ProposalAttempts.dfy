/** The store's methods, whose effect is `Outcome`, as runs of the step-by-step protocol. */
module ProposalAttempts {
  import opened Common
  import opened Proposals
  import opened ProposalHistory
  import opened ProposalStore
  import opened ProposalProtocol

  /** What is left when a plan has run from step `i` on. */
  function Ended(disk: Disk, plan: seq<Step>, name: Name, i: nat, fault: Fault): Disk
    requires i <= |plan|
  {
    var reached := Reach(disk, plan, i, fault);
    if reached.count >= |plan| then reached.disk else Aftermath(reached.disk, plan, name, reached.count, fault)
  }

  /** The states of the writer's remaining steps, to the swap or to the failure. */
  ghost predicate Finishes(s: System, states: seq<System>, actions: seq<Action>, op: Op, fault: Fault)
    requires s.writer.Working? && s.writer.done < |s.writer.plan|
  {
    var w, last := s.writer, |actions|;
    && Run(states, actions) && states[0] == s
    && states[last].writer.Idle?
    && states[last].disk == Ended(s.disk, w.plan, w.name, w.done, fault)
    && states[last].committed
       == (if Reach(s.disk, w.plan, w.done, fault).count == |w.plan| then s.committed + [w.op] else s.committed)
  }

  lemma FailureStep(s: System, fault: Fault) returns (a: Action)
    requires s.writer.Working? && s.writer.done < |s.writer.plan|
    requires Stops(s.disk, s.writer.plan[s.writer.done], s.writer.done, fault)
    ensures Enabled(s, a) && Next(s, a).writer.Idle? && Next(s, a).committed == s.committed
    ensures Next(s, a).disk == Ended(s.disk, s.writer.plan, s.writer.name, s.writer.done, fault)
  {
    if fault.Fails? && fault.at == s.writer.done {
      a := Fail(fault.killed, fault.torn);
    } else {
      a := Fail(false, 0);
    }
  }

  lemma Prepended(s: System, a: Action, states: seq<System>, actions: seq<Action>)
    requires Enabled(s, a) && Run(states, actions) && states[0] == Next(s, a)
    ensures Run([s] + states, [a] + actions)
  {
  }

  lemma {:induction false} WriterFinishes(s: System, fault: Fault) returns (states: seq<System>, actions: seq<Action>)
    requires s.writer.Working? && s.writer.done < |s.writer.plan|
    ensures Finishes(s, states, actions, s.writer.op, fault)
    decreases |s.writer.plan| - s.writer.done
  {
    var w := s.writer;
    if Stops(s.disk, w.plan[w.done], w.done, fault) {
      var a := FailureStep(s, fault);
      states, actions := [s, Next(s, a)], [a];
    } else {
      var next := Advanced(s);
      assert Enabled(s, Advance) && Next(s, Advance) == next;
      if w.done + 1 < |w.plan| {
        var later, steps := WriterFinishes(next, fault);
        Prepended(s, Advance, later, steps);
        states, actions := [s] + later, [Advance] + steps;
        assert states[|actions|] == later[|steps|];
      } else {
        assert Reach(next.disk, w.plan, w.done + 1, fault) == Reached(next.disk, |w.plan|);
        states, actions := [s, next], [Advance];
      }
    }
  }

  /** Whatever goes wrong, one call of the store is a run of the protocol that ends with the writer idle and the disk
      as the method leaves it; its operation is committed exactly when the call published. */
  lemma AttemptIsRun(s: System, name: Name, op: Op, fault: Fault) returns (states: seq<System>, actions: seq<Action>)
    requires s.writer.Idle?
    ensures Run(states, actions) && states[0] == s && states[|actions|].writer.Idle?
    ensures states[|actions|].disk == Outcome(s.disk, name, op, fault)
    ensures states[|actions|].committed
         == (if Published(s.disk, name, op, fault) then s.committed + [op] else s.committed)
  {
    if Accepted(CurrentDb(s.disk), op) {
      var working := Next(s, Begin(op, name));
      states, actions := WriterFinishes(working, fault);
      Prepended(s, Begin(op, name), states, actions);
      assert ([s] + states)[|actions| + 1] == states[|actions|];
      states, actions := [s] + states, [Begin(op, name)] + actions;
    } else {
      states, actions := [s], [];
    }
  }

  /** All or nothing: after a call the inbox is the one before it or, exactly when it published, the one the abstract
      operation makes of it. */
  lemma AttemptIsAtomic(s: System, name: Name, op: Op, fault: Fault)
    requires Inv(s) && s.writer.Idle?
    ensures var before, after := Abstract(CurrentDb(s.disk)), Abstract(CurrentDb(Outcome(s.disk, name, op, fault)));
            after == if Published(s.disk, name, op, fault) then InboxStep(before, op) else before
  {
    var states, actions := AttemptIsRun(s, name, op, fault);
    RunKeepsInvFrom(states, actions, |actions|);
    var t := states[|actions|];
    CurrentIsCommitted(s.disk, s.committed, s.published);
    CurrentIsCommitted(t.disk, t.committed, t.published);
    OpsRefine(s.committed);
    OpsRefine(t.committed);
    if Published(s.disk, name, op, fault) {
      assert t.committed[..|t.committed| - 1] == s.committed;
    }
  }

  /* ---- When a call publishes ---- */

  /** Steps that cannot be the first. */
  ghost predicate Later(step: Step) {
    !step.MakeDirectory? && !step.TornBlob?
  }

  lemma RefusalStays(disk: Disk, step: Step, later: Step)
    requires !step.TornBlob? && Later(later) && !Refused(disk, step)
    ensures Refused(Apply(disk, step), later) <==> Refused(disk, later)
  {
  }

  ghost predicate NoneStops(disk: Disk, plan: seq<Step>, i: nat, fault: Fault) {
    forall j: nat :: i <= j < |plan| ==> !Stops(disk, plan[j], j, fault)
  }

  ghost predicate NoneRefused(disk: Disk, plan: seq<Step>) {
    forall j: nat :: j < |plan| ==> !Refused(disk, plan[j])
  }

  lemma NoneStopsExactly(disk: Disk, plan: seq<Step>, fault: Fault)
    ensures NoneStops(disk, plan, 0, fault) <==> NoneRefused(disk, plan) && (fault.Fails? ==> fault.at >= |plan|)
  {
    if NoneStops(disk, plan, 0, fault) {
      assert fault.Fails? && fault.at < |plan| ==> !Stops(disk, plan[fault.at], fault.at, fault);
      forall j: nat | j < |plan| ensures !Refused(disk, plan[j]) {
        assert !Stops(disk, plan[j], j, fault);
      }
    }
  }

  lemma {:induction false} ReachesEnd(disk: Disk, plan: seq<Step>, i: nat, fault: Fault)
    requires i <= |plan| && (i < |plan| ==> !plan[i].TornBlob?)
    requires forall j: nat :: i < j < |plan| ==> Later(plan[j])
    ensures Reach(disk, plan, i, fault).count <= |plan|
    ensures Reach(disk, plan, i, fault).count == |plan|
       <==> NoneStops(disk, plan, i, fault)
    decreases |plan| - i
  {
    if i == |plan| || Stops(disk, plan[i], i, fault) {
    } else {
      var next := Apply(disk, plan[i]);
      ReachesEnd(next, plan, i + 1, fault);
      forall j: nat | i < j < |plan| ensures Stops(next, plan[j], j, fault) <==> Stops(disk, plan[j], j, fault) {
        RefusalStays(disk, plan[i], plan[j]);
      }
    }
  }

  /** None of the blobs collides with other bytes under its name. */
  ghost predicate BlobsFit(disk: Disk, op: Op) {
    forall j: nat :: j < |Blobs(op)| ==> !Refused(disk, Blobs(op)[j])
  }

  lemma StepsStopExactly(disk: Disk, plan: seq<Step>, name: Name, op: Op, fault: Fault)
    requires plan == Plan(CurrentDb(disk), name, op)
    ensures NoneRefused(disk, plan) <==> name !in disk.versions && BlobsFit(disk, op)
  {
    PlanShape(CurrentDb(disk), name, op);
    if NoneRefused(disk, plan) {
      assert !Refused(disk, plan[0]);
      forall j: nat | j < |Blobs(op)| ensures !Refused(disk, Blobs(op)[j]) {
        assert plan[2 + j] == plan[2..|plan| - 3][j];
      }
    }
    if name !in disk.versions && BlobsFit(disk, op) {
      forall j: nat | j < |plan| ensures !Refused(disk, plan[j]) {
        if 2 <= j < |plan| - 3 {
          assert plan[j] == plan[2..|plan| - 3][j - 2] == Blobs(op)[j - 2];
        }
      }
    }
  }

  ghost predicate LaterAfterFirst(plan: seq<Step>) {
    && (|plan| > 0 ==> !plan[0].TornBlob?)
    && forall j: nat :: 0 < j < |plan| ==> Later(plan[j])
  }

  lemma ReachesPlanEnd(disk: Disk, plan: seq<Step>, fault: Fault)
    requires LaterAfterFirst(plan)
    ensures Reach(disk, plan, 0, fault).count == |plan|
       <==> NoneRefused(disk, plan) && (fault.Fails? ==> fault.at >= |plan|)
  {
    NoneStopsExactly(disk, plan, fault);
    ReachesEnd(disk, plan, 0, fault);
  }

  lemma PlanIsLater(before: Db, name: Name, op: Op)
    ensures LaterAfterFirst(Plan(before, name, op)) && |Plan(before, name, op)| == 5 + |Blobs(op)|
  {
    PlanShape(before, name, op);
  }

  /** An accepted operation publishes if and only if the new directory is new, every blob it owns is absent from the
      evidence or there with the same bytes, and nothing fails at any of its steps. */
  lemma PublishesExactly(disk: Disk, name: Name, op: Op, fault: Fault)
    requires Accepted(CurrentDb(disk), op)
    ensures Published(disk, name, op, fault)
       <==> name !in disk.versions && BlobsFit(disk, op) && (fault.Fails? ==> fault.at >= 5 + |Blobs(op)|)
  {
    var plan := Plan(CurrentDb(disk), name, op);
    PlanIsLater(CurrentDb(disk), name, op);
    StepsStopExactly(disk, plan, name, op, fault);
    ReachesPlanEnd(disk, plan, fault);
  }

  lemma TornBlobRefused(disk: Disk, name: Name, items: seq<Item>, clock: string -> int, n: nat, data: Bytes,
                        fault: Fault)
    requires n < |items| && (items[n].text == Some(data) || items[n].capture == Some(data))
    requires Refused(disk, WriteBlob(data))
    ensures !Published(disk, name, Import(items, clock), fault)
  {
    var rest := BlobsAt(items, n);
    var at := |BlobsOf(items[..n])| + (if items[n].text == Some(data) then 0 else |BlobOf(items[n].text)|);
    assert BlobsOf(items)[at] == WriteBlob(data);
    assert !BlobsFit(disk, Import(items, clock)) by {
      assert Refused(disk, Blobs(Import(items, clock))[at]);
    }
    PublishesExactly(disk, name, Import(items, clock), fault);
  }

  /** A write that fails or is killed part way leaves a blob that is never repaired: at every later state of every run,
      whatever else is imported, fails or is killed, no import that owns the same bytes as text or capture publishes. */
  lemma TornBlobBlocks(s: System, killed: bool, torn: nat, states: seq<System>, actions: seq<Action>, i: nat,
                       name: Name, items: seq<Item>, clock: string -> int, n: nat, fault: Fault)
    requires Inv(s) && Enabled(s, Fail(killed, torn)) && s.writer.plan[s.writer.done].WriteBlob?
    requires Digest(s.writer.plan[s.writer.done].data) !in s.disk.evidence
    requires torn < |s.writer.plan[s.writer.done].data|
    requires Run(states, actions) && states[0] == Next(s, Fail(killed, torn)) && i < |states|
    requires n < |items|
    requires var data := s.writer.plan[s.writer.done].data;
             items[n].text == Some(data) || items[n].capture == Some(data)
    ensures !Published(states[i].disk, name, Import(items, clock), fault)
  {
    var data := s.writer.plan[s.writer.done].data;
    StepKeepsInv(s, Fail(killed, torn));
    BlobsAreWriteOnce(states, actions, 0, i);
    TornNow(s, killed, torn);
    TornBlobRefused(states[i].disk, name, items, clock, n, data, fault);
  }

  lemma TornNow(s: System, killed: bool, torn: nat)
    requires Enabled(s, Fail(killed, torn)) && s.writer.plan[s.writer.done].WriteBlob?
    requires Digest(s.writer.plan[s.writer.done].data) !in s.disk.evidence
    requires torn < |s.writer.plan[s.writer.done].data|
    ensures Refused(Next(s, Fail(killed, torn)).disk, s.writer.plan[s.writer.done])
  {
  }
}
