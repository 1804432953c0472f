/** Several processes sweeping one database at once, each step of each process atomic on its own. */
module SentinelProtocol {
  import opened Common

  type Key = string
  type Pid = nat

  datatype Admission = Silent | Live

  /** A stored identity row. Rows are only ever appended, and the unique key refuses a second one. */
  datatype Row = Row(key: Key, via: Admission, owner: Pid)

  /** Where a process stands. `known` is its snapshot; it goes stale as others insert. */
  datatype Pc =
    | Idle
    | Sweeping(known: set<Key>)
    | Examining(known: set<Key>, armed: bool, key: Key)  // before looking the key up
    | Missed(known: set<Key>, armed: bool, key: Key)     // the look-up found no row
    | Won(known: set<Key>, key: Key)                     // the insert succeeded live; a sighting is owed
    | Noted(known: set<Key>, key: Key, id: nat)          // sighting recorded; its alert is owed

  datatype System = System(
    rows: seq<Row>,
    sightings: seq<Key>,
    armedSources: set<string>,
    accepted: seq<nat>,   // sightings whose alert the provider accepted, in order
    pcs: map<Pid, Pc>)

  datatype Step =
    | Begin(p: Pid)
    | Examine(p: Pid, source: string, readArmed: bool, key: Key)
    | SuppressKnown(p: Pid)
    | FindRow(p: Pid)
    | FindNothing(p: Pid)
    | InsertWins(p: Pid)
    | InsertLoses(p: Pid)
    | Record(p: Pid)
    | Alert(p: Pid, providerAccepts: bool)
    | Arm(source: string)
    | Finish(p: Pid)

  ghost predicate HasRow(s: System, key: Key) {
    exists i :: 0 <= i < |s.rows| && s.rows[i].key == key
  }

  function KeysOf(s: System): set<Key> {
    set i | 0 <= i < |s.rows| :: s.rows[i].key
  }

  function Goto(s: System, p: Pid, pc: Pc): System {
    s.(pcs := s.pcs[p := pc])
  }

  /** A step may be taken in this state. A source may be read as unarmed long after it was armed, but never the
      other way round: arming is never undone. */
  ghost predicate Enabled(s: System, step: Step) {
    match step
    case Arm(_) => true
    case Begin(p) => p in s.pcs && s.pcs[p].Idle?
    case Examine(p, source, readArmed, _) =>
      p in s.pcs && s.pcs[p].Sweeping? && (readArmed ==> source in s.armedSources)
    case SuppressKnown(p) => p in s.pcs && s.pcs[p].Examining? && s.pcs[p].armed && s.pcs[p].key in s.pcs[p].known
    case FindRow(p) =>
      p in s.pcs && s.pcs[p].Examining? && !(s.pcs[p].armed && s.pcs[p].key in s.pcs[p].known)
      && HasRow(s, s.pcs[p].key)
    case FindNothing(p) =>
      p in s.pcs && s.pcs[p].Examining? && !(s.pcs[p].armed && s.pcs[p].key in s.pcs[p].known)
      && !HasRow(s, s.pcs[p].key)
    case InsertWins(p) => p in s.pcs && s.pcs[p].Missed? && !HasRow(s, s.pcs[p].key)
    case InsertLoses(p) => p in s.pcs && s.pcs[p].Missed? && HasRow(s, s.pcs[p].key)
    case Record(p) => p in s.pcs && s.pcs[p].Won?
    case Alert(p, _) => p in s.pcs && s.pcs[p].Noted?
    case Finish(p) => p in s.pcs && s.pcs[p].Sweeping?
  }

  function Next(s: System, step: Step): System
    requires Enabled(s, step)
  {
    match step
    case Begin(p) => Goto(s, p, Sweeping(KeysOf(s)))
    case Examine(p, _, readArmed, key) => Goto(s, p, Examining(s.pcs[p].known, readArmed, key))
    case SuppressKnown(p) => Goto(s, p, Sweeping(s.pcs[p].known))
    case FindRow(p) => Goto(s, p, Sweeping(s.pcs[p].known))
    case FindNothing(p) => Goto(s, p, Missed(s.pcs[p].known, s.pcs[p].armed, s.pcs[p].key))
    case InsertWins(p) =>
      var pc := s.pcs[p];
      var row := Row(pc.key, if pc.armed then Live else Silent, p);
      Goto(s.(rows := s.rows + [row]), p, if pc.armed then Won(pc.known, pc.key) else Sweeping(pc.known))
    case InsertLoses(p) => Goto(s, p, Sweeping(s.pcs[p].known))
    case Record(p) =>
      var pc := s.pcs[p];
      Goto(s.(sightings := s.sightings + [pc.key]), p, Noted(pc.known + {pc.key}, pc.key, |s.sightings|))
    case Alert(p, providerAccepts) =>
      var pc := s.pcs[p];
      Goto(if providerAccepts then s.(accepted := s.accepted + [pc.id]) else s, p, Sweeping(pc.known))
    case Arm(source) => s.(armedSources := s.armedSources + {source})
    case Finish(p) => Goto(s, p, Idle)
  }

  /* ---- The invariant ---- */

  /** No key has two rows. */
  ghost predicate UniqueRows(s: System) {
    forall i, j :: 0 <= i < j < |s.rows| ==> s.rows[i].key != s.rows[j].key
  }

  ghost predicate LiveRow(s: System, key: Key, p: Pid) {
    exists i :: 0 <= i < |s.rows| && s.rows[i] == Row(key, Live, p)
  }

  ghost predicate Owes(s: System, p: Pid, key: Key) {
    p in s.pcs && s.pcs[p].Won? && s.pcs[p].key == key
  }

  /** A debt belongs to the process whose insert won, and is not paid yet. */
  ghost predicate DebtsSound(s: System) {
    forall p, key :: Owes(s, p, key) ==> LiveRow(s, key, p) && key !in s.sightings
  }

  /** Every live row has been sighted or is owed by its owner. */
  ghost predicate DebtsComplete(s: System) {
    forall i :: 0 <= i < |s.rows| && s.rows[i].via == Live ==>
      s.rows[i].key in s.sightings || Owes(s, s.rows[i].owner, s.rows[i].key)
  }

  ghost predicate SightingsSound(s: System) {
    && Distinct(s.sightings)
    && (forall k :: k in s.sightings ==> exists p :: LiveRow(s, k, p))
  }

  /** The alert of sighting `id` is owed. */
  ghost predicate AlertOwed(s: System, p: Pid, id: nat) {
    p in s.pcs && s.pcs[p].Noted? && s.pcs[p].id == id
  }

  ghost predicate AlertsSound(s: System) {
    && Distinct(s.accepted)
    && (forall a :: 0 <= a < |s.accepted| ==> s.accepted[a] < |s.sightings|)
    && (forall p, id: nat :: AlertOwed(s, p, id) ==> id < |s.sightings| && id !in s.accepted)
    && (forall p, q, id: nat :: AlertOwed(s, p, id) && AlertOwed(s, q, id) ==> p == q)
  }

  ghost predicate Inv(s: System) {
    UniqueRows(s) && DebtsSound(s) && DebtsComplete(s) && SightingsSound(s) && AlertsSound(s)
  }

  /** Any store that earlier sweeps may have left behind, with every process idle. */
  ghost predicate Init(s: System) {
    Inv(s) && forall p :: p in s.pcs ==> s.pcs[p].Idle?
  }

  ghost predicate Execution(trace: seq<System>, steps: seq<Step>) {
    && |trace| == |steps| + 1
    && Init(trace[0])
    && (forall i :: 0 <= i < |steps| ==> Enabled(trace[i], steps[i]) && trace[i + 1] == Next(trace[i], steps[i]))
  }

  lemma LiveRowsStay(s: System, t: System)
    requires s.rows <= t.rows
    ensures forall k, p :: LiveRow(s, k, p) ==> LiveRow(t, k, p)
  {
    forall k, p | LiveRow(s, k, p) ensures LiveRow(t, k, p) {
      var i :| 0 <= i < |s.rows| && s.rows[i] == Row(k, Live, p);
      assert t.rows[i] == s.rows[i];
    }
  }

  lemma SightedHasRow(s: System, key: Key)
    requires SightingsSound(s) && key in s.sightings
    ensures HasRow(s, key)
  {
    var p :| LiveRow(s, key, p);
    var i :| 0 <= i < |s.rows| && s.rows[i] == Row(key, Live, p);
  }

  lemma SightedRowIsLive(s: System, r: nat)
    requires UniqueRows(s) && SightingsSound(s) && r < |s.rows| && s.rows[r].key in s.sightings
    ensures s.rows[r].via == Live
  {
    var p :| LiveRow(s, s.rows[r].key, p);
    var q :| 0 <= q < |s.rows| && s.rows[q] == Row(s.rows[r].key, Live, p);
    assert q == r;
  }

  lemma OneOwner(s: System, k: Key, p: Pid, q: Pid)
    requires UniqueRows(s) && LiveRow(s, k, p) && LiveRow(s, k, q)
    ensures p == q
  {
    var i :| 0 <= i < |s.rows| && s.rows[i] == Row(k, Live, p);
    var j :| 0 <= j < |s.rows| && s.rows[j] == Row(k, Live, q);
    assert i == j;
  }

  /** Steps that neither insert, record nor alert leave all debts as they were. */
  lemma QuietStep(s: System, step: Step)
    requires Inv(s) && Enabled(s, step) && !step.InsertWins? && !step.Record? && !step.Alert?
    ensures Inv(Next(s, step))
  {
    var t := Next(s, step);
    assert forall p, key :: Owes(t, p, key) <==> Owes(s, p, key);
    assert forall p, id: nat :: AlertOwed(t, p, id) <==> AlertOwed(s, p, id);
    assert forall k, p :: LiveRow(t, k, p) <==> LiveRow(s, k, p);
  }

  lemma InsertStep(s: System, p: Pid)
    requires Inv(s) && Enabled(s, InsertWins(p))
    ensures Inv(Next(s, InsertWins(p)))
  {
    var t, key := Next(s, InsertWins(p)), s.pcs[p].key;
    LiveRowsStay(s, t);
    assert t.rows[|s.rows|].key == key;
    assert forall i :: 0 <= i < |s.rows| ==> t.rows[i] == s.rows[i];
    if key in s.sightings {
      SightedHasRow(s, key);
    }
    forall q, k | Owes(t, q, k) ensures LiveRow(t, k, q) && k !in t.sightings {
      if q == p {
        assert t.rows[|s.rows|] == Row(k, Live, q);
      } else {
        assert Owes(s, q, k);
      }
    }
    forall i | 0 <= i < |t.rows| && t.rows[i].via == Live
      ensures t.rows[i].key in t.sightings || Owes(t, t.rows[i].owner, t.rows[i].key)
    {
      if i < |s.rows| && t.rows[i].key !in s.sightings {
        assert Owes(s, s.rows[i].owner, s.rows[i].key);
        assert s.rows[i].owner != p;
      }
    }
    assert forall q, id: nat :: AlertOwed(t, q, id) <==> AlertOwed(s, q, id);
  }

  lemma RecordStep(s: System, p: Pid)
    requires Inv(s) && Enabled(s, Record(p))
    ensures Inv(Next(s, Record(p)))
  {
    var t, key := Next(s, Record(p)), s.pcs[p].key;
    LiveRowsStay(s, t);
    assert Owes(s, p, key);
    assert t.sightings[|s.sightings|] == key;
    forall q, k | Owes(t, q, k) ensures LiveRow(t, k, q) && k !in t.sightings {
      assert Owes(s, q, k) && q != p;
      if k == key {
        OneOwner(s, k, p, q);
      }
    }
    forall i | 0 <= i < |t.rows| && t.rows[i].via == Live
      ensures t.rows[i].key in t.sightings || Owes(t, t.rows[i].owner, t.rows[i].key)
    {
      if s.rows[i].key !in s.sightings && s.rows[i].key != key {
        assert Owes(s, s.rows[i].owner, s.rows[i].key);
      }
    }
    forall q, id: nat | AlertOwed(t, q, id) ensures id < |t.sightings| && id !in t.accepted {
      if q != p {
        assert AlertOwed(s, q, id);
      }
    }
    forall q, r, id: nat | AlertOwed(t, q, id) && AlertOwed(t, r, id) ensures q == r {
      if q != p {
        assert AlertOwed(s, q, id);
      }
      if r != p {
        assert AlertOwed(s, r, id);
      }
    }
  }

  lemma AlertStep(s: System, p: Pid, providerAccepts: bool)
    requires Inv(s) && Enabled(s, Alert(p, providerAccepts))
    ensures Inv(Next(s, Alert(p, providerAccepts)))
  {
    var t := Next(s, Alert(p, providerAccepts));
    assert AlertOwed(s, p, s.pcs[p].id);
    assert forall q, key :: Owes(t, q, key) <==> Owes(s, q, key);
    assert forall k, q :: LiveRow(t, k, q) <==> LiveRow(s, k, q);
    assert forall q, id: nat :: AlertOwed(t, q, id) <==> q != p && AlertOwed(s, q, id);
  }

  lemma StepKeepsInv(s: System, step: Step)
    requires Inv(s) && Enabled(s, step)
    ensures Inv(Next(s, step))
  {
    match step {
      case InsertWins(p) => InsertStep(s, p);
      case Record(p) => RecordStep(s, p);
      case Alert(p, providerAccepts) => AlertStep(s, p, providerAccepts);
      case Begin(_) | Examine(_, _, _, _) | SuppressKnown(_) | FindRow(_) | FindNothing(_) | InsertLoses(_)
         | Arm(_) | Finish(_) => QuietStep(s, step);
    }
  }

  lemma {:induction false} Reachable(trace: seq<System>, steps: seq<Step>, i: nat)
    requires Execution(trace, steps) && i < |trace|
    ensures Inv(trace[i])
  {
    if i == 0 {
    } else {
      Reachable(trace, steps, i - 1);
      StepKeepsInv(trace[i - 1], steps[i - 1]);
    }
  }

  /* ---- What every interleaving keeps ---- */

  /** No two inserts win one key: a key is created at most once, by one process. */
  lemma CreatedOnce(trace: seq<System>, steps: seq<Step>, i: nat, j: nat)
    requires Execution(trace, steps) && i < |steps| && j < |steps|
    requires steps[i].InsertWins? && steps[j].InsertWins?
    requires trace[i].pcs[steps[i].p].key == trace[j].pcs[steps[j].p].key
    ensures i == j
  {
    if i < j {
      CreatedKeyStaysTaken(trace, steps, i, j);
    } else if j < i {
      CreatedKeyStaysTaken(trace, steps, j, i);
    }
  }

  lemma CreatedKeyStaysTaken(trace: seq<System>, steps: seq<Step>, i: nat, j: nat)
    requires Execution(trace, steps) && i < j < |trace| && steps[i].InsertWins?
    ensures HasRow(trace[j], trace[i].pcs[steps[i].p].key)
  {
    RowsGrow(trace, steps, i + 1, j);
    var n := |trace[i].rows|;
    assert trace[i + 1].rows[n].key == trace[i].pcs[steps[i].p].key;
    assert trace[j].rows[n] == trace[i + 1].rows[n];
  }

  /** Step `i` of the execution creates the row of this key. */
  ghost predicate Creates(trace: seq<System>, steps: seq<Step>, i: int, key: Key) {
    && 0 <= i < |steps| <= |trace| && steps[i].InsertWins? && steps[i].p in trace[i].pcs
    && trace[i].pcs[steps[i].p].Missed? && trace[i].pcs[steps[i].p].key == key
  }

  /** A key has a row exactly if it had one at the start or an insert has won it since; by CreatedOnce there is then
      one such insert in the whole execution. */
  lemma {:induction false} RowsAreCreated(trace: seq<System>, steps: seq<Step>, j: nat, key: Key)
    requires Execution(trace, steps) && j < |trace|
    ensures HasRow(trace[j], key) <==> HasRow(trace[0], key) || exists i :: i < j && Creates(trace, steps, i, key)
  {
    if j == 0 {
    } else {
      RowsAreCreated(trace, steps, j - 1, key);
      StepCreates(trace[j - 1], steps[j - 1], key);
      hide Next;
      assert Creates(trace, steps, j - 1, key)
        <==> steps[j - 1].InsertWins? && trace[j - 1].pcs[steps[j - 1].p].key == key;
    }
  }

  lemma StepCreates(s: System, step: Step, key: Key)
    requires Enabled(s, step)
    ensures HasRow(Next(s, step), key) <==> HasRow(s, key) || (step.InsertWins? && s.pcs[step.p].key == key)
  {
    var t := Next(s, step);
    if step.InsertWins? {
      assert t.rows[|s.rows|].key == s.pcs[step.p].key;
    }
    assert forall r :: 0 <= r < |s.rows| ==> t.rows[r] == s.rows[r];
    if HasRow(s, key) {
      var r :| 0 <= r < |s.rows| && s.rows[r].key == key;
      assert t.rows[r].key == key;
    }
  }

  lemma {:induction false} RowsGrow(trace: seq<System>, steps: seq<Step>, i: nat, j: nat)
    requires Execution(trace, steps) && i <= j < |trace|
    ensures trace[i].rows <= trace[j].rows && trace[i].sightings <= trace[j].sightings
    decreases j
  {
    if i == j {
    } else {
      RowsGrow(trace, steps, i, j - 1);
    }
  }

  /** In every reachable state: one row a key; at most one sighting a key, and only for a row created live; a
      silently admitted key is never sighted; at most one accepted alert a key. */
  lemma NoDoubleAlert(trace: seq<System>, steps: seq<Step>, i: nat)
    requires Execution(trace, steps) && i < |trace|
    ensures var s := trace[i];
            && UniqueRows(s)
            && Distinct(s.sightings)
            && (forall r: nat :: r < |s.rows| && s.rows[r].via == Silent ==> s.rows[r].key !in s.sightings)
            && (forall a :: 0 <= a < |s.accepted| ==> s.accepted[a] < |s.sightings|)
            && (forall a, b :: 0 <= a < b < |s.accepted| ==> s.sightings[s.accepted[a]] != s.sightings[s.accepted[b]])
  {
    Reachable(trace, steps, i);
    var s := trace[i];
    forall r: nat | r < |s.rows| && s.rows[r].via == Silent ensures s.rows[r].key !in s.sightings {
      if s.rows[r].key in s.sightings {
        SightedRowIsLive(s, r);
      }
    }
  }

  /** No process is ever stuck, whatever the others have done in the meantime: one that sweeps can examine any key, for
      a source that is armed or read as unarmed, or finish; one that examines finds the key known, stored or missing;
      one that missed it wins or loses the insert, and only one of these is possible; and what is owed can be paid. */
  lemma NobodyIsStuck(s: System, p: Pid)
    requires p in s.pcs
    ensures match s.pcs[p]
            case Idle => Enabled(s, Begin(p))
            case Sweeping(_) =>
              && Enabled(s, Finish(p))
              && (forall source, armed, key :: (armed ==> source in s.armedSources) ==>
                    Enabled(s, Examine(p, source, armed, key)))
            case Examining(known, armed, key) =>
              && (Enabled(s, SuppressKnown(p)) <==> armed && key in known)
              && (Enabled(s, FindRow(p)) <==> !(armed && key in known) && HasRow(s, key))
              && (Enabled(s, FindNothing(p)) <==> !(armed && key in known) && !HasRow(s, key))
            case Missed(_, _, key) =>
              (Enabled(s, InsertWins(p)) <==> !HasRow(s, key)) && (Enabled(s, InsertLoses(p)) <==> HasRow(s, key))
            case Won(_, _) => Enabled(s, Record(p))
            case Noted(_, _, _) => forall accepts :: Enabled(s, Alert(p, accepts))
    ensures forall source :: Enabled(s, Arm(source))
  {
  }

  /** Losing the race: two processes look the same key up and both miss it; the second insert is refused and that
      process sights nothing. */
  lemma LostRaceIsSilent(s: System, p: Pid, q: Pid)
    requires p != q && p in s.pcs && q in s.pcs && s.pcs[p].Missed? && s.pcs[q].Missed?
    requires s.pcs[p].key == s.pcs[q].key && !HasRow(s, s.pcs[p].key)
    ensures var won := Next(s, InsertWins(p));
            && Enabled(s, InsertWins(p)) && !Enabled(won, InsertWins(q)) && Enabled(won, InsertLoses(q))
            && Next(won, InsertLoses(q)).rows == won.rows && Next(won, InsertLoses(q)).sightings == s.sightings
            && Next(won, InsertLoses(q)).pcs[q] == Sweeping(s.pcs[q].known)
  {
    var won := Next(s, InsertWins(p));
    assert won.rows[|s.rows|].key == s.pcs[p].key;
  }

  /** Nothing is lost either: when every process is idle again, the sighted keys are exactly the keys of the rows
      that were created live. */
  lemma QuiescentSightingsExact(trace: seq<System>, steps: seq<Step>, i: nat)
    requires Execution(trace, steps) && i < |trace|
    requires forall p :: p in trace[i].pcs ==> trace[i].pcs[p].Idle?
    ensures forall k :: k in trace[i].sightings
              <==> exists r :: 0 <= r < |trace[i].rows| && trace[i].rows[r].key == k && trace[i].rows[r].via == Live
  {
    Reachable(trace, steps, i);
    var s := trace[i];
    forall k | k in s.sightings
      ensures exists r :: 0 <= r < |s.rows| && s.rows[r].key == k && s.rows[r].via == Live
    {
      var p :| LiveRow(s, k, p);
      var r :| 0 <= r < |s.rows| && s.rows[r] == Row(k, Live, p);
    }
  }
}
