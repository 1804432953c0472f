/** Whole sequences of imports and reviews, and the accounting of one import. */
module ProposalHistory {
  import opened Common
  import opened Proposals

  datatype Op = Import(items: seq<Item>, clock: string -> int) | Review(lead: string, verdict: string, at: int)

  /** A review of an unknown lead, or under a label outside the fixed list, is refused. */
  predicate Accepted(db: Db, op: Op) {
    match op
    case Import(_, _) => true
    case Review(lead, verdict, _) => verdict in LABELS && lead in Read(db)
  }

  function Applied(db: Db, op: Op): Db {
    if !Accepted(db, op) then db
    else match op {
      case Import(items, clock) => ImportAll(db, items, clock)
      case Review(lead, verdict, at) => ReviewDb(db, lead, verdict, at)
    }
  }

  function AfterOps(ops: seq<Op>): Db {
    if |ops| == 0 then EMPTY_DB else Applied(AfterOps(ops[..|ops| - 1]), ops[|ops| - 1])
  }

  /** The same operations on the abstract inbox. */
  function InboxStep(inbox: Inbox, op: Op): Inbox {
    match op
    case Import(items, clock) => ReceiveAll(inbox, items, clock)
    case Review(lead, verdict, at) =>
      if verdict in LABELS && lead in inbox then Relabel(inbox, lead, verdict, at) else inbox
  }

  function InboxAfter(ops: seq<Op>): Inbox {
    if |ops| == 0 then map[] else InboxStep(InboxAfter(ops[..|ops| - 1]), ops[|ops| - 1])
  }

  /** Every proposal is readable: its current observation always joins. */
  lemma ReadableExactly(db: Db, lead: string)
    requires Sound(db)
    ensures lead in Read(db) <==> lead in db.proposals
  {
    if lead in db.proposals {
      SoundEntry(db, lead);
    }
  }

  lemma OpRefines(db: Db, op: Op)
    requires Sound(db)
    ensures Sound(Applied(db, op)) && Abstract(Applied(db, op)) == InboxStep(Abstract(db), op)
  {
    match op {
      case Import(items, clock) =>
        ImportAllSound(db, items, clock);
        ImportRefines(db, items, clock);
      case Review(lead, verdict, at) =>
        ReadableExactly(db, lead);
        if Accepted(db, op) {
          ReviewSound(db, lead, verdict, at);
          ReviewRefines(db, lead, verdict, at);
        }
    }
  }

  /** After any operations the database is sound (current observation last, neighbours different, review the last
      label) and stands for exactly the inbox that the same operations make of nothing. */
  lemma {:induction false} OpsRefine(ops: seq<Op>)
    ensures Sound(AfterOps(ops)) && Abstract(AfterOps(ops)) == InboxAfter(ops)
  {
    if |ops| == 0 {
    } else {
      OpsRefine(ops[..|ops| - 1]);
      OpRefines(AfterOps(ops[..|ops| - 1]), ops[|ops| - 1]);
    }
  }

  /* ---- Append-only histories ---- */

  /** No row was lost or altered, under any lead. */
  ghost predicate Grows(before: Db, after: Db) {
    && before.proposals.Keys <= after.proposals.Keys
    && before.observations <= after.observations
    && (forall lead {:trigger HistoryOf(after, lead)} :: HistoryOf(before, lead) <= HistoryOf(after, lead))
    && (forall lead {:trigger LabelsOf(after, lead)} :: LabelsOf(before, lead) <= LabelsOf(after, lead))
  }

  lemma GrowsTransitive(a: Db, b: Db, c: Db)
    requires Grows(a, b) && Grows(b, c)
    ensures Grows(a, c)
  {
    forall lead ensures HistoryOf(a, lead) <= HistoryOf(c, lead) && LabelsOf(a, lead) <= LabelsOf(c, lead) {
      assert HistoryOf(a, lead) <= HistoryOf(b, lead) && LabelsOf(a, lead) <= LabelsOf(b, lead);
    }
  }

  /** What imports leave alone: every review and every label given. */
  ghost predicate SameReviews(before: Db, after: Db) {
    && after.reviews == before.reviews
    && forall lead :: lead in before.proposals ==>
         lead in after.proposals && after.proposals[lead].review == before.proposals[lead].review
  }

  lemma ImportOneGrows(db: Db, item: Item, clock: string -> int)
    ensures Grows(db, ImportOne(db, item, clock)) && SameReviews(db, ImportOne(db, item, clock))
  {
    if !IsUnchanged(db, item) {
      forall lead
        ensures HistoryOf(db, lead) <= HistoryOf(ImportOne(db, item, clock), lead)
        ensures LabelsOf(db, lead) == LabelsOf(ImportOne(db, item, clock), lead)
      {
        AppendHistories(db, RowFor(db, item, clock), lead);
      }
    }
  }

  /** An import appends observations and changes no review. */
  lemma {:induction false} ImportGrows(db: Db, items: seq<Item>, clock: string -> int)
    ensures Grows(db, ImportAll(db, items, clock)) && SameReviews(db, ImportAll(db, items, clock))
  {
    if |items| == 0 {
    } else {
      var middle := ImportAll(db, items[..|items| - 1], clock);
      ImportGrows(db, items[..|items| - 1], clock);
      ImportOneGrows(middle, items[|items| - 1], clock);
      GrowsTransitive(db, middle, ImportAll(db, items, clock));
    }
  }

  lemma OpGrows(db: Db, op: Op)
    ensures Grows(db, Applied(db, op))
  {
    match op {
      case Import(items, clock) => ImportGrows(db, items, clock);
      case Review(lead, verdict, at) =>
        if Accepted(db, op) {
          forall other
            ensures HistoryOf(db, other) <= HistoryOf(Applied(db, op), other)
            ensures LabelsOf(db, other) <= LabelsOf(Applied(db, op), other)
          {
            ReviewHistories(db, lead, verdict, at, other);
          }
        }
    }
  }

  /** Whatever comes later only appends: every earlier history is a prefix of the later one. */
  lemma {:induction false} HistoriesAppendOnly(ops: seq<Op>, more: seq<Op>)
    ensures Grows(AfterOps(ops), AfterOps(ops + more))
  {
    if |more| == 0 {
      assert ops + more == ops;
    } else {
      var front := more[..|more| - 1];
      assert (ops + more)[..|ops + more| - 1] == ops + front;
      HistoriesAppendOnly(ops, front);
      OpGrows(AfterOps(ops + front), more[|more| - 1]);
      GrowsTransitive(AfterOps(ops), AfterOps(ops + front), AfterOps(ops + more));
    }
  }

  /* ---- Import accounting ---- */

  datatype Effect = Inserted | Changed | Unchanged
  datatype Tally = Tally(inserted: nat, changed: nat, same: nat)

  function EffectOf(db: Db, item: Item): Effect {
    if IsUnchanged(db, item) then Unchanged
    else if CurrentOf(db, item.lead).Some? then Changed
    else Inserted
  }

  function Count(tally: Tally, e: Effect): Tally {
    match e
    case Inserted => tally.(inserted := tally.inserted + 1)
    case Changed => tally.(changed := tally.changed + 1)
    case Unchanged => tally.(same := tally.same + 1)
  }

  /** The counters of the import loop. */
  function Tallied(db: Db, items: seq<Item>, clock: string -> int): Tally {
    if |items| == 0 then Tally(0, 0, 0)
    else
      var front := items[..|items| - 1];
      Count(Tallied(db, front, clock), EffectOf(ImportAll(db, front, clock), items[|items| - 1]))
  }

  /** What the counters mean: they add up to what was accepted, inserted counts the new proposals, and inserted and
      changed together the new observations. */
  lemma {:induction false} TallyMeaning(db: Db, items: seq<Item>, clock: string -> int)
    requires Sound(db)
    ensures var t := Tallied(db, items, clock);
            && t.inserted + t.changed + t.same == |items|
            && |ImportAll(db, items, clock).proposals| == |db.proposals| + t.inserted
            && |ImportAll(db, items, clock).observations| == |db.observations| + t.inserted + t.changed
  {
    if |items| == 0 {
    } else {
      var front, item := items[..|items| - 1], items[|items| - 1];
      TallyMeaning(db, front, clock);
      ImportAllSound(db, front, clock);
      OneTallied(ImportAll(db, front, clock), item, clock);
    }
  }

  lemma OneTallied(db: Db, item: Item, clock: string -> int)
    requires Sound(db)
    ensures var after, e := ImportOne(db, item, clock), EffectOf(db, item);
            && |after.proposals| == |db.proposals| + (if e.Inserted? then 1 else 0)
            && |after.observations| == |db.observations| + (if e.Unchanged? then 0 else 1)
  {
    var after := ImportOne(db, item, clock);
    if item.lead in db.proposals {
      SoundEntry(db, item.lead);
    }
    assert after.proposals.Keys == db.proposals.Keys + {item.lead} || after == db;
    assert |after.proposals| == |after.proposals.Keys| && |db.proposals| == |db.proposals.Keys|;
  }

  ghost predicate DistinctLeads(items: seq<Item>) {
    forall i, j :: 0 <= i < j < |items| ==> items[i].lead != items[j].lead
  }

  lemma OtherLead(db: Db, item: Item, clock: string -> int, lead: string)
    requires Sound(db) && item.lead != lead
    ensures CurrentOf(ImportOne(db, item, clock), lead) == CurrentOf(db, lead)
    ensures lead in ImportOne(db, item, clock).proposals <==> lead in db.proposals
  {
    if lead in db.proposals {
      SoundEntry(db, lead);
    }
  }

  /** An import touches nothing under other leads. */
  lemma {:induction false} OtherLeads(db: Db, items: seq<Item>, clock: string -> int, lead: string)
    requires Sound(db) && forall i :: 0 <= i < |items| ==> items[i].lead != lead
    ensures CurrentOf(ImportAll(db, items, clock), lead) == CurrentOf(db, lead)
    ensures lead in ImportAll(db, items, clock).proposals <==> lead in db.proposals
  {
    hide Sound, CurrentOf, ImportOne;
    if |items| == 0 {
    } else {
      var front, item := items[..|items| - 1], items[|items| - 1];
      OtherLeads(db, front, clock, lead);
      ImportAllSound(db, front, clock);
      OtherLead(ImportAll(db, front, clock), item, clock, lead);
    }
  }

  /** With distinct leads every line is judged against the database as it was before the import. */
  lemma JudgedAtStart(db: Db, front: seq<Item>, clock: string -> int, item: Item)
    requires Sound(db) && DistinctLeads(front + [item])
    ensures EffectOf(ImportAll(db, front, clock), item) == EffectOf(db, item)
  {
    forall i | 0 <= i < |front| ensures front[i].lead != item.lead {
      assert (front + [item])[i].lead != (front + [item])[|front|].lead;
    }
    OtherLeads(db, front, clock, item.lead);
  }

  lemma {:induction false} TallyByEffect(db: Db, items: seq<Item>, clock: string -> int)
    requires Sound(db) && DistinctLeads(items)
    ensures var t := Tallied(db, items, clock);
            && t.inserted == |Filter((x: Item) => EffectOf(db, x) == Inserted, items)|
            && t.changed == |Filter((x: Item) => EffectOf(db, x) == Changed, items)|
            && t.same == |Filter((x: Item) => EffectOf(db, x) == Unchanged, items)|
  {
    if |items| == 0 {
    } else {
      var front, item := items[..|items| - 1], items[|items| - 1];
      assert items == front + [item];
      TallyByEffect(db, front, clock);
      JudgedAtStart(db, front, clock, item);
    }
  }

  /** After an import each of its proposals is current. */
  lemma {:induction false} ImportSettles(db: Db, items: seq<Item>, clock: string -> int, i: nat)
    requires Sound(db) && DistinctLeads(items) && i < |items|
    ensures IsUnchanged(ImportAll(db, items, clock), items[i])
  {
    var front, item := items[..|items| - 1], items[|items| - 1];
    ImportAllSound(db, front, clock);
    if i == |front| {
    } else {
      ImportSettles(db, front, clock, i);
      assert front[i] == items[i] && items[i].lead != item.lead;
      OtherLeads(ImportAll(db, front, clock), [item], clock, items[i].lead);
      assert ImportAll(ImportAll(db, front, clock), [item], clock) == ImportAll(db, items, clock) by {
        assert [item][..0] == [];
      }
    }
  }

  lemma {:induction false} NothingToDo(db: Db, items: seq<Item>, clock: string -> int)
    requires forall i :: 0 <= i < |items| ==> IsUnchanged(db, items[i])
    ensures ImportAll(db, items, clock) == db && Tallied(db, items, clock) == Tally(0, 0, |items|)
  {
    if |items| == 0 {
    } else {
      NothingToDo(db, items[..|items| - 1], clock);
    }
  }

  /** The same export again, at any later time: all unchanged, and not one row is written. */
  lemma ReimportIsSilent(db: Db, items: seq<Item>, clock: string -> int, later: string -> int)
    requires Sound(db) && DistinctLeads(items)
    ensures ImportAll(ImportAll(db, items, clock), items, later) == ImportAll(db, items, clock)
    ensures Tallied(ImportAll(db, items, clock), items, later) == Tally(0, 0, |items|)
  {
    forall i: nat | i < |items| ensures IsUnchanged(ImportAll(db, items, clock), items[i]) {
      ImportSettles(db, items, clock, i);
    }
    NothingToDo(ImportAll(db, items, clock), items, later);
  }

  /* ---- The order of the lines does not matter ---- */

  /** With distinct leads the entry under a lead depends on its own line alone. */
  lemma {:induction false} EntryByLine(inbox: Inbox, items: seq<Item>, clock: string -> int, lead: string)
    requires DistinctLeads(items)
    ensures (forall i :: 0 <= i < |items| ==> items[i].lead != lead) ==>
              EntryOf(ReceiveAll(inbox, items, clock), lead) == EntryOf(inbox, lead)
    ensures forall i :: 0 <= i < |items| && items[i].lead == lead ==>
              EntryOf(ReceiveAll(inbox, items, clock), lead) == EntryOf(ReceiveOne(inbox, items[i], clock), lead)
  {
    if |items| == 0 {
    } else {
      var front := items[..|items| - 1];
      EntryByLine(inbox, front, clock, lead);
      forall i | 0 <= i < |front| ensures front[i] == items[i] && items[i].lead != items[|items| - 1].lead {}
    }
  }

  lemma SameLines(s: seq<Item>, t: seq<Item>, x: Item)
    requires multiset(s) == multiset(t)
    ensures x in s <==> x in t
  {
    assert x in s <==> x in multiset(s);
  }

  lemma EntryPermuted(inbox: Inbox, s: seq<Item>, t: seq<Item>, clock: string -> int, lead: string)
    requires DistinctLeads(s) && DistinctLeads(t) && multiset(s) == multiset(t)
    ensures EntryOf(ReceiveAll(inbox, s, clock), lead) == EntryOf(ReceiveAll(inbox, t, clock), lead)
  {
    EntryByLine(inbox, s, clock, lead);
    EntryByLine(inbox, t, clock, lead);
    if i :| 0 <= i < |s| && s[i].lead == lead {
      SameLines(s, t, s[i]);
      var j :| 0 <= j < |t| && t[j] == s[i];
    } else {
      forall j | 0 <= j < |t| ensures t[j].lead != lead {
        SameLines(s, t, t[j]);
      }
    }
  }

  /** Permuting the accepted proposals of an export gives the same counts and, observation ids aside, the same
      inbox. */
  lemma ImportPermuted(db: Db, s: seq<Item>, t: seq<Item>, clock: string -> int)
    requires Sound(db) && DistinctLeads(s) && DistinctLeads(t) && multiset(s) == multiset(t)
    ensures Tallied(db, s, clock) == Tallied(db, t, clock)
    ensures Abstract(ImportAll(db, s, clock)) == Abstract(ImportAll(db, t, clock))
  {
    TallyByEffect(db, s, clock);
    TallyByEffect(db, t, clock);
    FilterPermuted((x: Item) => EffectOf(db, x) == Inserted, s, t);
    FilterPermuted((x: Item) => EffectOf(db, x) == Changed, s, t);
    FilterPermuted((x: Item) => EffectOf(db, x) == Unchanged, s, t);
    ImportRefines(db, s, clock);
    ImportRefines(db, t, clock);
    var one, two := ReceiveAll(Abstract(db), s, clock), ReceiveAll(Abstract(db), t, clock);
    forall lead ensures EntryOf(one, lead) == EntryOf(two, lead) {
      EntryPermuted(Abstract(db), s, t, clock, lead);
    }
    SameEntries(one, two);
  }

  lemma SameEntries(one: Inbox, two: Inbox)
    requires forall lead :: EntryOf(one, lead) == EntryOf(two, lead)
    ensures one == two
  {
    forall lead ensures lead in one <==> lead in two {
      assert EntryOf(one, lead) == EntryOf(two, lead);
    }
    forall lead | lead in one ensures one[lead] == two[lead] {
      assert EntryOf(one, lead) == EntryOf(two, lead);
    }
  }
}
