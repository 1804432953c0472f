/** One writer and any number of readers over the generation store, step by step: an operation may fail or be killed
    before any of its steps, and a reader looks at the pointer and at the database in two separate steps. */
module ProposalProtocol {
  import opened Common
  import opened Proposals
  import opened ProposalHistory
  import opened ProposalStore

  datatype Writer = Idle | Working(op: Op, name: Name, plan: seq<Step>, done: nat)
  datatype Reader = Holding(pointer: Option<Name>, since: nat) | Answered(rows: map<string, Row>, since: nat)

  /** `committed` and `published` log each pointer swap: the operation, and the generation it made current. */
  datatype System = System(disk: Disk, writer: Writer, committed: seq<Op>, published: seq<Name>,
                           readers: map<nat, Reader>)

  const INITIAL := System(EMPTY_DISK, Idle, [], [], map[])

  datatype Action =
    | Begin(op: Op, name: Name)
    | Advance
    | Fail(killed: bool, torn: nat)
    | ReadPointer(reader: nat)
    | ReadDatabase(reader: nat)

  ghost predicate Enabled(s: System, a: Action) {
    match a
    case Begin(op, _) => s.writer.Idle? && Accepted(CurrentDb(s.disk), op)
    case Advance =>
      s.writer.Working? && s.writer.done < |s.writer.plan| && !Refused(s.disk, s.writer.plan[s.writer.done])
    case Fail(_, _) => s.writer.Working? && s.writer.done < |s.writer.plan|
    case ReadPointer(_) => true
    case ReadDatabase(reader) => reader in s.readers && s.readers[reader].Holding?
  }

  function Advanced(s: System): System
    requires s.writer.Working? && s.writer.done < |s.writer.plan|
  {
    var w := s.writer;
    var disk := Apply(s.disk, w.plan[w.done]);
    if w.done + 1 < |w.plan| then s.(disk := disk, writer := w.(done := w.done + 1))
    else System(disk, Idle, s.committed + [w.op], s.published + [w.name], s.readers)
  }

  function Failed(s: System, killed: bool, torn: nat): System
    requires s.writer.Working? && s.writer.done < |s.writer.plan|
  {
    var w := s.writer;
    s.(disk := Aftermath(s.disk, w.plan, w.name, w.done, Fails(w.done, killed, torn)), writer := Idle)
  }

  ghost function Next(s: System, a: Action): System
    requires Enabled(s, a)
  {
    match a
    case Begin(op, name) => s.(writer := Working(op, name, Plan(CurrentDb(s.disk), name, op), 0))
    case Advance => Advanced(s)
    case Fail(killed, torn) => Failed(s, killed, torn)
    case ReadPointer(reader) => s.(readers := s.readers[reader := Holding(s.disk.current, |s.committed|)])
    case ReadDatabase(reader) =>
      var r := s.readers[reader];
      s.(readers := s.readers[reader := Answered(Read(DbOf(s.disk, r.pointer)), r.since)])
  }

  /* ---- The invariant ---- */

  /** The pointer after `k` swaps. */
  function PointerAfter(published: seq<Name>, k: nat): Option<Name>
    requires k <= |published|
  {
    if k == 0 then None else Some(published[k - 1])
  }

  /** A complete generation: its database, and the export that matches it. */
  function Complete(db: Db): Generation {
    Generation(Some(db), Some(Read(db)))
  }

  ghost predicate Whole(evidence: map<Digest, Bytes>, blob: Option<Digest>) {
    blob.Some? ==> blob.value in evidence && evidence[blob.value] == blob.value.of
  }

  /** Every blob name in every observation, old ones included, resolves to an owned blob with that digest. */
  ghost predicate EvidenceWhole(evidence: map<Digest, Bytes>, db: Db) {
    forall i {:trigger db.observations[i]} :: 0 <= i < |db.observations| ==>
      && Whole(evidence, db.observations[i].content.text)
      && Whole(evidence, db.observations[i].content.capture)
  }

  /** The `k`th published generation is still on disk, complete, with whole evidence. */
  ghost predicate Intact(disk: Disk, committed: seq<Op>, published: seq<Name>, k: nat)
    requires k < |committed| == |published|
  {
    && published[k] in disk.versions
    && disk.versions[published[k]] == Complete(AfterOps(committed[..k + 1]))
    && EvidenceWhole(disk.evidence, AfterOps(committed[..k + 1]))
  }

  ghost predicate StoreInv(disk: Disk, committed: seq<Op>, published: seq<Name>) {
    && |published| == |committed|
    && disk.current == PointerAfter(published, |published|)
    && forall k: nat :: k < |published| ==> Intact(disk, committed, published, k)
  }

  ghost predicate BlobsDone(evidence: map<Digest, Bytes>, plan: seq<Step>, done: nat)
    requires done <= |plan|
  {
    forall j: nat :: j < done && plan[j].WriteBlob? ==> Whole(evidence, Some(Digest(plan[j].data)))
  }

  ghost predicate WriterInv(disk: Disk, committed: seq<Op>, published: seq<Name>, w: Writer) {
    w.Working? ==>
      var before, last := AfterOps(committed), |w.plan| - 3;
      && Accepted(before, w.op)
      && w.plan == Plan(before, w.name, w.op) && w.done < |w.plan|
      && BlobsDone(disk.evidence, w.plan, w.done)
      && (w.done > 0 ==> w.name in disk.versions && w.name !in published)
      && (w.done == 1 ==> disk.versions[w.name] == Generation(None, None))
      && (2 <= w.done <= last ==> disk.versions[w.name] == Generation(Some(before), None))
      && (w.done == last + 1 ==> disk.versions[w.name].db == Some(Applied(before, w.op)))
      && (w.done == last + 2 ==> disk.versions[w.name] == Complete(Applied(before, w.op)))
  }

  ghost predicate ReaderInv(committed: seq<Op>, published: seq<Name>, r: Reader)
    requires |published| == |committed|
  {
    r.since <= |committed|
    && match r {
      case Holding(pointer, since) => pointer == PointerAfter(published, since)
      case Answered(rows, since) => rows == Read(AfterOps(committed[..since]))
    }
  }

  ghost predicate Inv(s: System) {
    && StoreInv(s.disk, s.committed, s.published)
    && WriterInv(s.disk, s.committed, s.published, s.writer)
    && forall r :: r in s.readers ==> ReaderInv(s.committed, s.published, s.readers[r])
  }

  /* ---- Every step keeps it ---- */

  /** The pointer taken after `k` swaps leads to the state after those `k` operations, however late it is followed. */
  lemma PointerLeads(disk: Disk, committed: seq<Op>, published: seq<Name>, k: nat)
    requires StoreInv(disk, committed, published) && k <= |committed|
    ensures DbOf(disk, PointerAfter(published, k)) == AfterOps(committed[..k])
  {
    if k > 0 {
      assert Intact(disk, committed, published, k - 1);
    }
  }

  lemma CurrentIsCommitted(disk: Disk, committed: seq<Op>, published: seq<Name>)
    requires StoreInv(disk, committed, published)
    ensures CurrentDb(disk) == AfterOps(committed)
  {
    PointerLeads(disk, committed, published, |committed|);
    assert committed[..|committed|] == committed;
  }

  ghost predicate EvidenceGrows(before: map<Digest, Bytes>, after: map<Digest, Bytes>) {
    forall d :: d in before ==> d in after && after[d] == before[d]
  }

  /** Changing an unpublished directory and adding evidence leaves every published generation as it was. */
  lemma StoreKept(before: Disk, after: Disk, committed: seq<Op>, published: seq<Name>)
    requires StoreInv(before, committed, published) && after.current == before.current
    requires EvidenceGrows(before.evidence, after.evidence)
    requires forall n :: n in published && n in before.versions ==>
               n in after.versions && after.versions[n] == before.versions[n]
    ensures StoreInv(after, committed, published)
  {
    forall k: nat | k < |published| ensures Intact(after, committed, published, k) {
      assert Intact(before, committed, published, k);
      assert published[k] in published;
    }
  }

  /** A step other than the swap touches at most the new directory, and evidence only where there was none. */
  lemma StepIsLocal(disk: Disk, step: Step, name: Name)
    requires step.MakeDirectory? || step.Backup? || step.Commit? || step.WriteExport? || step.RemoveDirectory? ==>
               step.name == name
    requires !step.Swap?
    ensures Apply(disk, step).current == disk.current && EvidenceGrows(disk.evidence, Apply(disk, step).evidence)
    ensures forall n :: n != name && n in disk.versions ==>
              n in Apply(disk, step).versions && Apply(disk, step).versions[n] == disk.versions[n]
  {
  }

  lemma {:induction false} OnlyBlobs(items: seq<Item>, j: nat)
    requires j < |BlobsOf(items)|
    ensures BlobsOf(items)[j].WriteBlob?
  {
    if j < |BlobsOf(items[..|items| - 1])| {
      OnlyBlobs(items[..|items| - 1], j);
    }
  }

  /** Which step a plan has where. */
  lemma PlanShape(before: Db, name: Name, op: Op)
    ensures var plan := Plan(before, name, op);
            var last := |plan| - 3;
            && last >= 2 && plan[0] == MakeDirectory(name) && plan[1] == Backup(name)
            && plan[2..last] == Blobs(op)
            && (forall j: nat :: 2 <= j < last ==> plan[j].WriteBlob?)
            && plan[last] == Commit(name, Applied(before, op))
            && plan[last + 1] == WriteExport(name) && plan[last + 2] == Swap(name)
  {
    var plan := Plan(before, name, op);
    forall j: nat | 2 <= j < |plan| - 3 ensures plan[j].WriteBlob? {
      assert plan[j] == Blobs(op)[j - 2];
      OnlyBlobs(op.items, j - 2);
    }
  }

  lemma PublishedExist(s: System, name: Name)
    requires Inv(s) && name in s.published
    ensures name in s.disk.versions
  {
    var k: nat :| k < |s.published| && s.published[k] == name;
    assert Intact(s.disk, s.committed, s.published, k);
  }

  /** The new directory is not a published one. */
  lemma NewDirectory(s: System)
    requires Inv(s) && s.writer.Working? && (s.writer.done > 0 || s.writer.name !in s.disk.versions)
    ensures s.writer.name !in s.published
  {
    if s.writer.done == 0 && s.writer.name in s.published {
      PublishedExist(s, s.writer.name);
    }
  }

  lemma AdvanceKeepsStore(s: System)
    requires Inv(s) && Enabled(s, Advance) && s.writer.done + 1 < |s.writer.plan|
    ensures StoreInv(Advanced(s).disk, s.committed, s.published)
    ensures EvidenceGrows(s.disk.evidence, Advanced(s).disk.evidence)
  {
    var w := s.writer;
    PlanShape(AfterOps(s.committed), w.name, w.op);
    NewDirectory(s);
    StepIsLocal(s.disk, w.plan[w.done], w.name);
    StoreKept(s.disk, Advanced(s).disk, s.committed, s.published);
  }

  lemma AdvanceKeepsWriter(s: System)
    requires Inv(s) && Enabled(s, Advance) && s.writer.done + 1 < |s.writer.plan|
    ensures WriterInv(Advanced(s).disk, s.committed, s.published, Advanced(s).writer)
  {
    hide Read, AfterOps, Applied, Blobs, Accepted;
    var w := s.writer;
    PlanShape(AfterOps(s.committed), w.name, w.op);
    NewDirectory(s);
    CurrentIsCommitted(s.disk, s.committed, s.published);
    var disk := Apply(s.disk, w.plan[w.done]);
    StepIsLocal(s.disk, w.plan[w.done], w.name);
    forall j: nat | j < w.done + 1 && w.plan[j].WriteBlob?
      ensures Whole(disk.evidence, Some(Digest(w.plan[j].data)))
    {
      if j < w.done {
        assert Whole(s.disk.evidence, Some(Digest(w.plan[j].data)));
      }
    }
  }

  lemma BlobsOfItems(items: seq<Item>, evidence: map<Digest, Bytes>, n: nat)
    requires n < |items|
    requires forall j: nat :: j < |BlobsOf(items)| && BlobsOf(items)[j].WriteBlob? ==>
               Whole(evidence, Some(Digest(BlobsOf(items)[j].data)))
    ensures Whole(evidence, ContentOf(items[n]).text) && Whole(evidence, ContentOf(items[n]).capture)
  {
    var rest := BlobsAt(items, n);
    var part, item := BlobsOf(items[..n]), items[n];
    if item.text.Some? {
      assert BlobsOf(items)[|part|] == WriteBlob(item.text.value);
    }
    if item.capture.Some? {
      assert BlobsOf(items)[|part| + |BlobOf(item.text)|] == WriteBlob(item.capture.value);
    }
  }

  lemma {:induction false} ImportEvidence(db: Db, items: seq<Item>, clock: string -> int, evidence: map<Digest, Bytes>)
    requires EvidenceWhole(evidence, db)
    requires forall n :: 0 <= n < |items| ==>
               Whole(evidence, ContentOf(items[n]).text) && Whole(evidence, ContentOf(items[n]).capture)
    ensures EvidenceWhole(evidence, ImportAll(db, items, clock))
  {
    if |items| == 0 {
    } else {
      ImportEvidence(db, items[..|items| - 1], clock, evidence);
    }
  }

  /** When all blobs of an operation are written, the database it commits refers to whole evidence only. */
  lemma AppliedEvidence(db: Db, name: Name, op: Op, evidence: map<Digest, Bytes>)
    requires EvidenceWhole(evidence, db) && Accepted(db, op)
    requires BlobsDone(evidence, Plan(db, name, op), |Plan(db, name, op)| - 1)
    ensures EvidenceWhole(evidence, Applied(db, op))
  {
    var plan := Plan(db, name, op);
    PlanShape(db, name, op);
    if op.Import? {
      forall j: nat | j < |BlobsOf(op.items)| && BlobsOf(op.items)[j].WriteBlob?
        ensures Whole(evidence, Some(Digest(BlobsOf(op.items)[j].data)))
      {
        assert plan[2 + j] == BlobsOf(op.items)[j];
      }
      forall n: nat | n < |op.items|
        ensures Whole(evidence, ContentOf(op.items[n]).text) && Whole(evidence, ContentOf(op.items[n]).capture)
      {
        BlobsOfItems(op.items, evidence, n);
      }
      ImportEvidence(db, op.items, op.clock, evidence);
    }
  }

  lemma EvidenceSoFar(s: System)
    requires Inv(s)
    ensures EvidenceWhole(s.disk.evidence, AfterOps(s.committed))
  {
    if |s.committed| > 0 {
      assert Intact(s.disk, s.committed, s.published, |s.committed| - 1);
      assert s.committed[..|s.committed|] == s.committed;
    }
  }

  /** The swap: the new generation is complete, its evidence whole, and all earlier ones stay. */
  lemma SwapKeepsStore(s: System)
    requires Inv(s) && Enabled(s, Advance) && s.writer.done + 1 == |s.writer.plan|
    ensures StoreInv(Advanced(s).disk, Advanced(s).committed, Advanced(s).published)
  {
    hide Read, Applied, Blobs, EvidenceWhole;
    var w, after := s.writer, Advanced(s);
    PlanShape(AfterOps(s.committed), w.name, w.op);
    EvidenceSoFar(s);
    AppliedEvidence(AfterOps(s.committed), w.name, w.op, s.disk.evidence);
    forall k: nat | k < |after.published| ensures Intact(after.disk, after.committed, after.published, k) {
      if k < |s.published| {
        assert Intact(s.disk, s.committed, s.published, k);
        assert after.committed[..k + 1] == s.committed[..k + 1];
      } else {
        assert after.committed[..k + 1] == after.committed;
        assert after.committed[..|s.committed|] == s.committed;
      }
    }
  }

  lemma ReadersKept(committed: seq<Op>, published: seq<Name>, op: Op, name: Name, r: Reader)
    requires |published| == |committed| && ReaderInv(committed, published, r)
    ensures ReaderInv(committed + [op], published + [name], r)
  {
    assert (committed + [op])[..r.since] == committed[..r.since];
  }

  lemma FailKeepsStore(s: System, killed: bool, torn: nat)
    requires Inv(s) && Enabled(s, Fail(killed, torn))
    ensures StoreInv(Failed(s, killed, torn).disk, s.committed, s.published)
    ensures EvidenceGrows(s.disk.evidence, Failed(s, killed, torn).disk.evidence)
  {
    var w := s.writer;
    var fault := Fails(w.done, killed, torn);
    var left := Torn(s.disk, w.plan[w.done], w.done, fault);
    if w.plan[w.done].WriteBlob? {
      StepIsLocal(s.disk, TornBlob(w.plan[w.done].data, torn), w.name);
    }
    if CleansUp(w.done, fault) {
      NewDirectory(s);
      StepIsLocal(left, RemoveDirectory(w.name), w.name);
    }
    StoreKept(s.disk, Failed(s, killed, torn).disk, s.committed, s.published);
  }

  lemma StepKeepsInv(s: System, a: Action)
    requires Inv(s) && Enabled(s, a)
    ensures Inv(Next(s, a))
  {
    CurrentIsCommitted(s.disk, s.committed, s.published);
    match a {
      case Begin(op, name) => PlanShape(AfterOps(s.committed), name, op);
      case Advance =>
        if s.writer.done + 1 < |s.writer.plan| {
          AdvanceKeepsStore(s);
          AdvanceKeepsWriter(s);
        } else {
          SwapKeepsStore(s);
          forall r | r in s.readers ensures ReaderInv(Next(s, a).committed, Next(s, a).published, s.readers[r]) {
            ReadersKept(s.committed, s.published, s.writer.op, s.writer.name, s.readers[r]);
          }
        }
      case Fail(killed, torn) => FailKeepsStore(s, killed, torn);
      case ReadPointer(_) =>
      case ReadDatabase(reader) =>
        PointerLeads(s.disk, s.committed, s.published, s.readers[reader].since);
    }
  }

  /* ---- Over whole runs ---- */

  ghost predicate Run(states: seq<System>, actions: seq<Action>) {
    && |states| == |actions| + 1
    && forall i :: 0 <= i < |actions| ==> Enabled(states[i], actions[i]) && states[i + 1] == Next(states[i], actions[i])
  }

  lemma {:induction false} RunKeepsInvFrom(states: seq<System>, actions: seq<Action>, i: nat)
    requires Run(states, actions) && Inv(states[0]) && i < |states|
    ensures Inv(states[i])
  {
    if i == 0 {
    } else {
      RunKeepsInvFrom(states, actions, i - 1);
      StepKeepsInv(states[i - 1], actions[i - 1]);
    }
  }

  lemma RunKeepsInv(states: seq<System>, actions: seq<Action>, i: nat)
    requires Run(states, actions) && states[0] == INITIAL && i < |states|
    ensures Inv(states[i])
  {
    assert AfterOps([]) == EMPTY_DB;
    RunKeepsInvFrom(states, actions, i);
  }

  /** Whatever failed, was killed or is still under way: CURRENT names a complete generation, its database is the
      one that the committed operations make, and its export is what a reader of that database gets. Before the
      first commit there is no CURRENT. */
  lemma CurrentIsComplete(states: seq<System>, actions: seq<Action>, i: nat)
    requires Run(states, actions) && states[0] == INITIAL && i < |states|
    ensures var s := states[i];
            if s.committed == [] then s.disk.current == None
            else s.disk.current.Some? && s.disk.current.value in s.disk.versions
                 && s.disk.versions[s.disk.current.value] == Complete(AfterOps(s.committed))
    ensures Abstract(CurrentDb(states[i].disk)) == InboxAfter(states[i].committed)
  {
    RunKeepsInv(states, actions, i);
    var s := states[i];
    CurrentIsCommitted(s.disk, s.committed, s.published);
    OpsRefine(s.committed);
    if s.committed != [] {
      assert Intact(s.disk, s.committed, s.published, |s.committed| - 1);
      assert s.committed[..|s.committed|] == s.committed;
    }
  }

  lemma CommittedOnlyGrows(states: seq<System>, actions: seq<Action>, i: nat, j: nat)
    requires Run(states, actions) && i <= j < |states|
    ensures states[i].committed <= states[j].committed
    decreases j
  {
    if i < j {
      CommittedOnlyGrows(states, actions, i, j - 1);
    }
  }

  /** Every finished read is the state after some prefix of the committed operations: exactly those committed when
      the reader looked at the pointer. */
  lemma ReadersSeeCommittedStates(states: seq<System>, actions: seq<Action>, i: nat, reader: nat)
    requires Run(states, actions) && states[0] == INITIAL && i < |states|
    requires reader in states[i].readers && states[i].readers[reader].Answered?
    ensures var r := states[i].readers[reader];
            r.since <= |states[i].committed| && r.rows == Read(AfterOps(states[i].committed[..r.since]))
  {
    RunKeepsInv(states, actions, i);
  }

  lemma {:induction false} ReaderKeepsMoment(states: seq<System>, actions: seq<Action>, i: nat, j: nat, reader: nat)
    requires Run(states, actions) && i < j < |states| && actions[i] == ReadPointer(reader)
    requires forall k :: i < k < j ==> actions[k] != ReadPointer(reader)
    ensures reader in states[j].readers && states[j].readers[reader].since == |states[i].committed|
    decreases j
  {
    if j == i + 1 {
    } else {
      ReaderKeepsMoment(states, actions, i, j - 1, reader);
    }
  }

  /** A read is the state of the moment at which its pointer was read: whatever the writer commits, fails or is killed
      at between that step and the answer does not show. */
  lemma ReadIsOfItsMoment(states: seq<System>, actions: seq<Action>, i: nat, j: nat, reader: nat)
    requires Run(states, actions) && states[0] == INITIAL && i < j < |states| && actions[i] == ReadPointer(reader)
    requires forall k :: i < k < j ==> actions[k] != ReadPointer(reader)
    requires reader in states[j].readers && states[j].readers[reader].Answered?
    ensures states[j].readers[reader].rows == Read(AfterOps(states[i].committed))
  {
    ReadersSeeCommittedStates(states, actions, j, reader);
    ReaderKeepsMoment(states, actions, i, j, reader);
    CommittedOnlyGrows(states, actions, i, j);
    assert states[j].committed[..|states[i].committed|] == states[i].committed;
  }

  /** An operation works on its own copy: until its commit the new directory is empty or holds the committed database,
      and no pointer names it. */
  lemma WorkIsOnACopy(states: seq<System>, actions: seq<Action>, i: nat)
    requires Run(states, actions) && states[0] == INITIAL && i < |states| && states[i].writer.Working?
    requires 1 <= states[i].writer.done <= |states[i].writer.plan| - 3
    ensures var s := states[i];
            && s.writer.name in s.disk.versions && s.disk.current != Some(s.writer.name)
            && s.disk.versions[s.writer.name]
               == Generation(if s.writer.done == 1 then None else Some(AfterOps(s.committed)), None)
  {
    RunKeepsInv(states, actions, i);
    hide AfterOps, Plan;
  }

  /** What a failure leaves: the pointer and every other directory as they were; the operation's own directory is gone
      exactly if the process lived and the directory had been made with its copy. */
  lemma FailureCleansUp(states: seq<System>, actions: seq<Action>, i: nat, killed: bool, torn: nat)
    requires Run(states, actions) && states[0] == INITIAL && i < |actions| && actions[i] == Fail(killed, torn)
    ensures var w, before, after := states[i].writer, states[i].disk, states[i + 1].disk;
            && w.Working? && states[i + 1].writer.Idle? && states[i + 1].committed == states[i].committed
            && after.current == before.current
            && after.versions == if !killed && w.done >= 2 then before.versions - {w.name} else before.versions
  {
    RunKeepsInv(states, actions, i);
  }

  /** Nobody is ever stuck: an idle writer can begin whatever is accepted, a working one can fail or be killed at every
      step and otherwise go on unless the disk refuses, and readers can always look and always answer. */
  lemma NobodyIsStuck(states: seq<System>, actions: seq<Action>, i: nat)
    requires Run(states, actions) && states[0] == INITIAL && i < |states|
    ensures var s := states[i];
            && (s.writer.Idle? ==>
                  forall op, name :: Accepted(CurrentDb(s.disk), op) ==> Enabled(s, Begin(op, name)))
            && (s.writer.Working? ==>
                  && s.writer.done < |s.writer.plan| && (forall killed, torn: nat :: Enabled(s, Fail(killed, torn)))
                  && (Enabled(s, Advance) || Refused(s.disk, s.writer.plan[s.writer.done])))
            && (forall r: nat :: Enabled(s, ReadPointer(r)))
            && (forall r: nat :: r in s.readers && s.readers[r].Holding? ==> Enabled(s, ReadDatabase(r)))
  {
    RunKeepsInv(states, actions, i);
    hide AfterOps, Plan, Accepted, Refused;
  }

  /** Looking at the database answers the reader at once, with what the pointer it holds leads to. */
  lemma LookingAnswers(states: seq<System>, actions: seq<Action>, i: nat, reader: nat)
    requires Run(states, actions) && states[0] == INITIAL && i < |actions| && actions[i] == ReadDatabase(reader)
    ensures var s, t := states[i], states[i + 1];
            && reader in s.readers && s.readers[reader].since <= |s.committed|
            && reader in t.readers && t.readers[reader].Answered?
            && t.readers[reader].rows == Read(AfterOps(s.committed[..s.readers[reader].since]))
            && t.disk == s.disk && t.committed == s.committed
  {
    RunKeepsInv(states, actions, i);
    ReadersSeeCommittedStates(states, actions, i + 1, reader);
    hide AfterOps, Plan;
  }

  /** In every generation ever published, every blob name of every observation resolves to the whole blob of that
      digest, at every later moment. */
  lemma EvidenceNeverDangles(states: seq<System>, actions: seq<Action>, i: nat, k: nat)
    requires Run(states, actions) && states[0] == INITIAL && i < |states| && k < |states[i].published|
    ensures |states[i].published| == |states[i].committed|
    ensures Intact(states[i].disk, states[i].committed, states[i].published, k)
  {
    RunKeepsInv(states, actions, i);
  }

  lemma StepWritesOnce(s: System, a: Action)
    requires Inv(s) && Enabled(s, a)
    ensures EvidenceGrows(s.disk.evidence, Next(s, a).disk.evidence)
  {
    match a {
      case Advance =>
        if s.writer.done + 1 < |s.writer.plan| {
          AdvanceKeepsStore(s);
        } else {
          PlanShape(AfterOps(s.committed), s.writer.name, s.writer.op);
        }
      case Fail(killed, torn) => FailKeepsStore(s, killed, torn);
      case _ =>
    }
  }

  /** Blobs are write-once: no step ever changes or removes one. */
  lemma {:induction false} BlobsAreWriteOnce(states: seq<System>, actions: seq<Action>, i: nat, j: nat)
    requires Run(states, actions) && Inv(states[0]) && i <= j < |states|
    ensures EvidenceGrows(states[i].disk.evidence, states[j].disk.evidence)
    decreases j
  {
    hide Inv, Enabled, Next;
    if i == j {
    } else {
      BlobsAreWriteOnce(states, actions, i, j - 1);
      RunKeepsInvFrom(states, actions, j - 1);
      StepWritesOnce(states[j - 1], actions[j - 1]);
    }
  }
}
