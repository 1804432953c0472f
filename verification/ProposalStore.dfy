/** The generation store on disk: copy the current generation, apply one whole operation, write its export, swap one
    pointer. Any step may be the one at which the operation fails or the process is killed. */
module ProposalStore {
  import opened Common
  import opened Proposals
  import opened ProposalHistory
  import opened ProposalIntake

  type Name = string

  /** One directory under `versions`: its committed database and its consumer export, once they are there. */
  datatype Generation = Generation(db: Option<Db>, feed: Option<map<string, Row>>)

  datatype Disk = Disk(current: Option<Name>, versions: map<Name, Generation>, evidence: map<Digest, Bytes>)

  const EMPTY_DISK := Disk(None, map[], map[])

  /** The database of a generation; nothing where there is none yet. */
  function DbOf(disk: Disk, pointer: Option<Name>): Db {
    if pointer.Some? && pointer.value in disk.versions && disk.versions[pointer.value].db.Some?
    then disk.versions[pointer.value].db.value else EMPTY_DB
  }

  function CurrentDb(disk: Disk): Db {
    DbOf(disk, disk.current)
  }

  /** What touches the disk. The last two are what a failure leaves. */
  datatype Step =
    | MakeDirectory(name: Name)
    | Backup(name: Name)
    | WriteBlob(data: Bytes)
    | Commit(name: Name, db: Db)
    | WriteExport(name: Name)
    | Swap(name: Name)
    | TornBlob(data: Bytes, length: nat)
    | RemoveDirectory(name: Name)

  function Apply(disk: Disk, step: Step): Disk {
    match step
    case MakeDirectory(name) => disk.(versions := disk.versions[name := Generation(None, None)])
    case Backup(name) => disk.(versions := disk.versions[name := Generation(Some(CurrentDb(disk)), None)])
    case WriteBlob(data) =>
      if Digest(data) in disk.evidence then disk else disk.(evidence := disk.evidence[Digest(data) := data])
    case Commit(name, db) => disk.(versions := disk.versions[name := Generation(Some(db), None)])
    case WriteExport(name) =>
      var db := DbOf(disk, Some(name));
      disk.(versions := disk.versions[name := Generation(Some(db), Some(Read(db)))])
    case Swap(name) => disk.(current := Some(name))
    case TornBlob(data, length) =>
      if Digest(data) in disk.evidence then disk
      else disk.(evidence := disk.evidence[Digest(data) := data[..Min(length, |data|)]])
    case RemoveDirectory(name) => disk.(versions := disk.versions - {name})
  }

  /** A directory that exists, or an owned blob with other bytes, stops the operation. */
  predicate Refused(disk: Disk, step: Step) {
    match step
    case MakeDirectory(name) => name in disk.versions
    case WriteBlob(data) => Digest(data) in disk.evidence && disk.evidence[Digest(data)] != data
    case _ => false
  }

  function BlobOf(data: Option<Bytes>): seq<Step> {
    if data.Some? then [WriteBlob(data.value)] else []
  }

  function ItemBlobs(item: Item): seq<Step> {
    BlobOf(item.text) + BlobOf(item.capture)
  }

  function BlobsOf(items: seq<Item>): seq<Step> {
    if |items| == 0 then [] else BlobsOf(items[..|items| - 1]) + ItemBlobs(items[|items| - 1])
  }

  function Blobs(op: Op): seq<Step> {
    match op
    case Import(items, _) => BlobsOf(items)
    case Review(_, _, _) => []
  }

  /** An accepted operation, step by step, when nothing goes wrong. */
  function Plan(before: Db, name: Name, op: Op): seq<Step> {
    [MakeDirectory(name), Backup(name)] + Blobs(op)
    + [Commit(name, Applied(before, op)), WriteExport(name), Swap(name)]
  }

  /** The step at which something raises or the process is killed; a blob write may then be partial. */
  datatype Fault = NoFault | Fails(at: nat, killed: bool, torn: nat)

  predicate Stops(disk: Disk, step: Step, i: nat, fault: Fault) {
    (fault.Fails? && fault.at == i) || Refused(disk, step)
  }

  datatype Reached = Reached(disk: Disk, count: nat)

  /** How far a plan gets. */
  function Reach(disk: Disk, plan: seq<Step>, i: nat, fault: Fault): Reached
    requires i <= |plan|
    decreases |plan| - i
  {
    if i == |plan| || Stops(disk, plan[i], i, fault) then Reached(disk, i)
    else Reach(Apply(disk, plan[i]), plan, i + 1, fault)
  }

  /** What the stopped step itself leaves behind. */
  function Torn(disk: Disk, step: Step, i: nat, fault: Fault): Disk {
    if step.WriteBlob? && fault.Fails? && fault.at == i then Apply(disk, TornBlob(step.data, fault.torn)) else disk
  }

  /** The handler removes the new directory, unless it was still being made or the process is gone. */
  predicate CleansUp(i: nat, fault: Fault) {
    i >= 2 && !(fault.Fails? && fault.at == i && fault.killed)
  }

  function Aftermath(disk: Disk, plan: seq<Step>, name: Name, i: nat, fault: Fault): Disk
    requires i < |plan|
  {
    var left := Torn(disk, plan[i], i, fault);
    if CleansUp(i, fault) then Apply(left, RemoveDirectory(name)) else left
  }

  predicate Published(disk: Disk, name: Name, op: Op, fault: Fault) {
    var plan := Plan(CurrentDb(disk), name, op);
    Accepted(CurrentDb(disk), op) && Reach(disk, plan, 0, fault).count == |plan|
  }

  /** What one attempted operation makes of the disk. */
  function Outcome(disk: Disk, name: Name, op: Op, fault: Fault): Disk {
    var plan := Plan(CurrentDb(disk), name, op);
    if !Accepted(CurrentDb(disk), op) then disk
    else
      var reached := Reach(disk, plan, 0, fault);
      if reached.count >= |plan| then reached.disk
      else Aftermath(reached.disk, plan, name, reached.count, fault)
  }

  /** What a method does as step `i` of a plan. */
  ghost predicate Did(before: Disk, after: Disk, plan: seq<Step>, i: nat, fault: Fault, ok: bool)
    requires i < |plan|
  {
    && ok == !Stops(before, plan[i], i, fault)
    && after == if ok then Apply(before, plan[i]) else Torn(before, plan[i], i, fault)
  }

  /** The plan does these steps, in this order, from step `i` on. */
  ghost predicate PlacedAt(plan: seq<Step>, i: nat, block: seq<Step>) {
    i + |block| <= |plan| && forall k {:trigger block[k]} :: 0 <= k < |block| ==> plan[i + k] == block[k]
  }

  /** The blobs of item `n` stand between those of the items before and after it. */
  lemma {:induction false} BlobsAt(items: seq<Item>, n: nat) returns (rest: seq<Step>)
    requires n < |items|
    ensures BlobsOf(items) == BlobsOf(items[..n]) + ItemBlobs(items[n]) + rest
  {
    hide ItemBlobs;
    var front, last := items[..|items| - 1], items[|items| - 1];
    if n == |front| {
      assert items[..n] == front;
      rest := [];
    } else {
      var r := BlobsAt(front, n);
      assert front[..n] == items[..n];
      rest := r + ItemBlobs(last);
    }
  }

  datatype Receipt = Receipt(parsed: nat, accepted: nat, excluded: multiset<string>, tally: Tally)

  class Store {
    const enabled: bool
    var current: Option<Name>
    var versions: map<Name, Generation>
    var evidence: map<Digest, Bytes>

    constructor (enabled: bool)
      ensures View() == EMPTY_DISK && this.enabled == enabled
    {
      this.enabled := enabled;
      current, versions, evidence := None, map[], map[];
    }

    function View(): Disk
      reads this
    {
      Disk(current, versions, evidence)
    }

    method ReadInbox() returns (rows: map<string, Row>)
      ensures rows == Read(CurrentDb(View()))
    {
      rows := Read(CurrentDb(View()));
    }

    /** A new directory holding a copy of the current database. Not covered by the caller's handler. */
    method NewGeneration(name: Name, ghost plan: seq<Step>, fault: Fault) returns (ok: bool)
      requires |plan| > 2 && plan[0] == MakeDirectory(name) && plan[1] == Backup(name)
      modifies this`versions
      ensures ok ==> Reach(View(), plan, 2, fault) == Reach(old(View()), plan, 0, fault)
      ensures !ok ==> var reached := Reach(old(View()), plan, 0, fault);
                      reached.count < 2 && View() == Aftermath(reached.disk, plan, name, reached.count, fault)
    {
      if (fault.Fails? && fault.at == 0) || name in versions {
        return false;
      }
      versions := versions[name := Generation(None, None)];
      assert View() == Apply(old(View()), plan[0]);
      if fault.Fails? && fault.at == 1 {
        return false;
      }
      versions := versions[name := Generation(Some(CurrentDb(View())), None)];
      ok := true;
    }

    /** Blobs are written once under their digest; other bytes under the same name raise. */
    method CopyBlob(data: Bytes, ghost plan: seq<Step>, i: nat, fault: Fault) returns (ok: bool)
      requires i < |plan| && plan[i] == WriteBlob(data)
      modifies this`evidence
      ensures Did(old(View()), View(), plan, i, fault, ok)
    {
      var failing := fault.Fails? && fault.at == i;
      if Digest(data) in evidence {
        ok := !failing && evidence[Digest(data)] == data;
      } else if failing {
        evidence := evidence[Digest(data) := data[..Min(fault.torn, |data|)]];
        ok := false;
      } else {
        evidence := evidence[Digest(data) := data];
        ok := true;
      }
    }

    method CopyOptional(data: Option<Bytes>, ghost plan: seq<Step>, i: nat, fault: Fault) returns (ok: bool, j: nat)
      requires i + |BlobOf(data)| < |plan| && PlacedAt(plan, i, BlobOf(data))
      modifies this`evidence
      ensures i <= j < |plan|
      ensures ok ==> j == i + |BlobOf(data)| && Reach(View(), plan, j, fault) == Reach(old(View()), plan, i, fault)
      ensures !ok ==> Halted(Reach(old(View()), plan, i, fault), View(), plan, j, fault)
    {
      if data.None? {
        return true, i;
      }
      assert BlobOf(data)[0] == plan[i];
      ok := CopyBlob(data.value, plan, i, fault);
      j := if ok then i + 1 else i;
    }

    /** The text, then the capture. */
    method CopyItem(item: Item, ghost plan: seq<Step>, i: nat, fault: Fault) returns (ok: bool, j: nat)
      requires i + |ItemBlobs(item)| < |plan| && PlacedAt(plan, i, ItemBlobs(item))
      modifies this`evidence
      ensures i <= j < |plan|
      ensures ok ==> j == i + |ItemBlobs(item)| && Reach(View(), plan, j, fault) == Reach(old(View()), plan, i, fault)
      ensures !ok ==> Halted(Reach(old(View()), plan, i, fault), View(), plan, j, fault)
    {
      PlacedParts(plan, i, BlobOf(item.text), BlobOf(item.capture));
      ok, j := CopyOptional(item.text, plan, i, fault);
      if ok {
        ok, j := CopyOptional(item.capture, plan, j, fault);
      }
    }

    /** The transaction's commit, then the export, then the pointer. */
    method Publish(name: Name, work: Db, ghost plan: seq<Step>, i: nat, fault: Fault) returns (ok: bool, j: nat)
      requires i + 3 == |plan| && plan[i] == Commit(name, work)
      requires plan[i + 1] == WriteExport(name) && plan[i + 2] == Swap(name)
      modifies this`versions, this`current
      ensures j >= i
      ensures ok ==> Reached(View(), |plan|) == Reach(old(View()), plan, i, fault)
      ensures !ok ==> j < |plan| && Halted(Reach(old(View()), plan, i, fault), View(), plan, j, fault)
    {
      j := i;
      if fault.Fails? && fault.at == j {
        return false, j;
      }
      versions := versions[name := Generation(Some(work), None)];
      assert View() == Apply(old(View()), plan[i]);
      assert Reach(View(), plan, i + 1, fault) == Reach(old(View()), plan, i, fault);
      j := j + 1;
      if fault.Fails? && fault.at == j {
        return false, j;
      }
      ghost var committed := View();
      versions := versions[name := Generation(Some(work), Some(Read(work)))];
      assert View() == Apply(committed, plan[i + 1]);
      assert Reach(View(), plan, i + 2, fault) == Reach(old(View()), plan, i, fault);
      j := j + 1;
      if fault.Fails? && fault.at == j {
        return false, j;
      }
      ghost var written := View();
      current := Some(name);
      assert View() == Apply(written, plan[i + 2]);
      assert Reach(View(), plan, i + 3, fault) == Reached(View(), i + 3);
      ok := true;
    }

    /** The handler around every operation. */
    method Abandon(name: Name, i: nat, fault: Fault)
      requires i >= 2
      modifies this`versions
      ensures View() == if CleansUp(i, fault) then Apply(old(View()), RemoveDirectory(name)) else old(View())
    {
      if !(fault.Fails? && fault.at == i && fault.killed) {
        versions := versions - {name};
      }
    }

    /** Validate everything first, then copy, apply, export and swap. */
    method ImportExport(lines: seq<Line>, clock: string -> int, name: Name, fault: Fault)
      returns (r: Result<Receipt>)
      modifies this
      ensures enabled && |lines| <= RECORD_LIMIT && PrepareAll(lines).Ok? ==>
                var p, op := PrepareAll(lines).value, Import(PrepareAll(lines).value.items, clock);
                && View() == Outcome(old(View()), name, op, fault)
                && (r.Ok? <==> Published(old(View()), name, op, fault))
                && (r.Ok? ==> r.value == Receipt(|p.leads|, |p.items|, p.excluded,
                                                 Tallied(CurrentDb(old(View())), p.items, clock)))
      ensures !(enabled && |lines| <= RECORD_LIMIT && PrepareAll(lines).Ok?) ==> r.Err? && View() == old(View())
    {
      if !enabled {
        return Err("Discovery is disabled");
      }
      var prepared := Prepare(lines);
      if prepared.Err? {
        return Err(prepared.error);
      }
      var p := prepared.value;
      var ok, tally := ApplyImport(p.items, clock, name, fault);
      r := if ok then Ok(Receipt(|p.leads|, |p.items|, p.excluded, tally)) else Err("raised");
    }

    /** The loop of the transaction: blobs go to disk at once, rows into the uncommitted `work`. */
    method CopyAndApply(items: seq<Item>, clock: string -> int, start: Db, ghost plan: seq<Step>, fault: Fault)
      returns (ok: bool, i: nat, work: Db, tally: Tally)
      requires BlobsPlaced(plan, items)
      modifies this`evidence
      ensures i >= 2
      ensures ok ==> i == 2 + |BlobsOf(items)| && work == ImportAll(start, items, clock)
                     && tally == Tallied(start, items, clock)
                     && Reach(View(), plan, i, fault) == Reach(old(View()), plan, 2, fault)
      ensures !ok ==> i < |plan| && Halted(Reach(old(View()), plan, 2, fault), View(), plan, i, fault)
    {
      hide BlobsOf, ItemBlobs, ImportAll, ImportOne, Tallied, EffectOf, Reach, PlacedAt, Halted;
      i, work, tally := 2, start, Tally(0, 0, 0);
      NoItems(start, items, clock);
      for n := 0 to |items|
        invariant i == 2 + |BlobsOf(items[..n])| && i <= |plan|
        invariant work == ImportAll(start, items[..n], clock) && tally == Tallied(start, items[..n], clock)
        invariant Reach(View(), plan, i, fault) == Reach(old(View()), plan, 2, fault)
      {
        OneMoreItem(start, items, clock, n);
        assert BlobsPlacedAt(plan, items, n);
        ok, i := CopyItem(items[n], plan, i, fault);
        if !ok {
          return;
        }
        tally := Count(tally, EffectOf(work, items[n]));
        work := ImportOne(work, items[n], clock);
      }
      assert items[..|items|] == items;
      ok := true;
    }

    method ApplyImport(items: seq<Item>, clock: string -> int, name: Name, fault: Fault)
      returns (ok: bool, tally: Tally)
      modifies this
      ensures View() == Outcome(old(View()), name, Import(items, clock), fault)
      ensures ok <==> Published(old(View()), name, Import(items, clock), fault)
      ensures ok ==> tally == Tallied(CurrentDb(old(View())), items, clock)
    {
      var start := CurrentDb(View());
      ghost var plan := Plan(start, name, Import(items, clock));
      BlobsInPlan(start, name, items, clock);
      tally := Tally(0, 0, 0);
      ok := NewGeneration(name, plan, fault);
      if !ok {
        return;
      }
      var i: nat, work: Db;
      ok, i, work, tally := CopyAndApply(items, clock, start, plan, fault);
      if ok {
        ok, i := Publish(name, work, plan, i, fault);
      }
      if !ok {
        Abandon(name, i, fault);
      }
    }

    /** An explicit label from the fixed list, for a lead that is in the inbox. */
    method SetReview(lead: string, verdict: string, at: int, name: Name, fault: Fault) returns (ok: bool)
      modifies this
      ensures enabled ==> View() == Outcome(old(View()), name, Review(lead, verdict, at), fault)
      ensures !enabled ==> View() == old(View())
      ensures ok <==> enabled && Published(old(View()), name, Review(lead, verdict, at), fault)
    {
      if !enabled || verdict !in LABELS {
        return false;
      }
      var rows := ReadInbox();
      if lead !in rows {
        return false;
      }
      var work := CurrentDb(View());
      ghost var before := View();
      ghost var plan := Plan(work, name, Review(lead, verdict, at));
      ok := NewGeneration(name, plan, fault);
      if !ok {
        return;
      }
      work := ReviewDb(work, lead, verdict, at);
      var i: nat;
      ok, i := Publish(name, work, plan, 2, fault);
      if !ok {
        Abandon(name, i, fault);
      }
    }
  }

  /** The plan stopped at step `j`, with this left on disk. */
  ghost predicate Halted(reached: Reached, left: Disk, plan: seq<Step>, j: nat, fault: Fault)
    requires j < |plan|
  {
    reached.count == j && left == Torn(reached.disk, plan[j], j, fault)
  }

  lemma PlacedParts(plan: seq<Step>, i: nat, a: seq<Step>, b: seq<Step>)
    requires PlacedAt(plan, i, a + b)
    ensures PlacedAt(plan, i, a) && PlacedAt(plan, i + |a|, b)
  {
    forall k | 0 <= k < |a| ensures plan[i + k] == a[k] {
      assert (a + b)[k] == a[k];
    }
    forall k | 0 <= k < |b| ensures plan[i + |a| + k] == b[k] {
      assert (a + b)[|a| + k] == b[k];
    }
  }

  lemma Within(front: seq<Step>, part: seq<Step>, block: seq<Step>, rest: seq<Step>, back: seq<Step>)
    ensures PlacedAt(front + (part + block + rest) + back, |front| + |part|, block)
  {
  }

  ghost predicate BlobsPlacedAt(plan: seq<Step>, items: seq<Item>, n: nat)
    requires n < |items|
  {
    var i := 2 + |BlobsOf(items[..n])|;
    i + |ItemBlobs(items[n])| < |plan| && PlacedAt(plan, i, ItemBlobs(items[n]))
  }

  /** The plan copies the blobs of each item in turn, from its third step on. */
  ghost predicate BlobsPlaced(plan: seq<Step>, items: seq<Item>) {
    2 + |BlobsOf(items)| < |plan| && forall n: nat | n < |items| :: BlobsPlacedAt(plan, items, n)
  }

  lemma BlobsBetween(front: seq<Step>, items: seq<Item>, back: seq<Step>)
    requires |front| == 2 && |back| > 0
    ensures BlobsPlaced(front + BlobsOf(items) + back, items)
  {
    hide BlobsOf, ItemBlobs, PlacedAt;
    forall n: nat | n < |items| ensures BlobsPlacedAt(front + BlobsOf(items) + back, items, n) {
      var rest := BlobsAt(items, n);
      Within(front, BlobsOf(items[..n]), ItemBlobs(items[n]), rest, back);
    }
  }

  lemma BlobsInPlan(before: Db, name: Name, items: seq<Item>, clock: string -> int)
    ensures BlobsPlaced(Plan(before, name, Import(items, clock)), items)
  {
    hide BlobsPlaced, BlobsOf;
    BlobsBetween([MakeDirectory(name), Backup(name)], items,
                 [Commit(name, Applied(before, Import(items, clock))), WriteExport(name), Swap(name)]);
  }

  lemma NoItems(start: Db, items: seq<Item>, clock: string -> int)
    ensures ImportAll(start, items[..0], clock) == start && Tallied(start, items[..0], clock) == Tally(0, 0, 0)
    ensures BlobsOf(items[..0]) == []
  {
  }

  lemma OneMoreItem(start: Db, items: seq<Item>, clock: string -> int, n: nat)
    requires n < |items|
    ensures ImportAll(start, items[..n + 1], clock) == ImportOne(ImportAll(start, items[..n], clock), items[n], clock)
    ensures Tallied(start, items[..n + 1], clock)
         == Count(Tallied(start, items[..n], clock), EffectOf(ImportAll(start, items[..n], clock), items[n]))
    ensures BlobsOf(items[..n + 1]) == BlobsOf(items[..n]) + ItemBlobs(items[n])
  {
    assert items[..n + 1][..n] == items[..n];
  }
}
