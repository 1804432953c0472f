/** What a reader of the proposal store gets, told against the abstract inbox and the items imported. */
module ProposalReading {
  import opened Common
  import opened Proposals
  import opened ProposalHistory
  import opened ProposalIntake
  import opened ProposalStore
  import opened ProposalProtocol

  /** The row of a lead shows its whole entry, and what is current is the last of the history. */
  ghost predicate Shows(lead: string, row: Row, entry: Entry) {
    && row.review == entry.review && row.reviewHistory == entry.labels
    && SeenOf(row.history) == entry.history
    && |row.history| > 0 && row.current == row.history[|row.history| - 1]
    && (forall i :: 0 <= i < |row.history| ==> row.history[i].lead == lead)
    && (forall i :: 0 <= i < |row.history| ==> (row.history[i].verified <==> AllOwned(row.history[i].content)))
  }

  /** A reading and an inbox have the same leads, and every row shows its entry. */
  ghost predicate Mirrors(rows: map<string, Row>, inbox: Inbox) {
    rows.Keys == inbox.Keys && forall lead :: lead in inbox ==> Shows(lead, rows[lead], inbox[lead])
  }

  lemma {:induction false} UnderLead(rows: seq<Observation>, lead: string, i: nat)
    requires i < |ObservationsUnder(rows, lead)|
    ensures ObservationsUnder(rows, lead)[i].lead == lead && ObservationsUnder(rows, lead)[i] in rows
  {
    if i == |ObservationsUnder(rows[..|rows| - 1], lead)| {
    } else {
      UnderLead(rows[..|rows| - 1], lead, i);
    }
  }

  lemma RowShows(db: Db, lead: string)
    requires Sound(db) && lead in db.proposals
    ensures lead in Read(db) && Shows(lead, Read(db)[lead], Abstract(db)[lead])
  {
    SoundEntry(db, lead);
    var row := Read(db)[lead];
    forall i | 0 <= i < |row.history|
      ensures row.history[i].lead == lead && (row.history[i].verified <==> AllOwned(row.history[i].content))
    {
      UnderLead(db.observations, lead, i);
      var k :| 0 <= k < |db.observations| && db.observations[k] == row.history[i];
    }
  }

  /** What is read after any operations is the inbox that the same operations make: every lead of it and no other,
      with its review, its whole history, its labels, and the last of the history as current. */
  lemma ReadMirrorsInbox(ops: seq<Op>)
    ensures Mirrors(Read(AfterOps(ops)), InboxAfter(ops))
  {
    var db := AfterOps(ops);
    OpsRefine(ops);
    forall lead ensures lead in Read(db) <==> lead in Abstract(db) {
      ReadableExactly(db, lead);
    }
    forall lead | lead in Abstract(db) ensures Shows(lead, Read(db)[lead], Abstract(db)[lead]) {
      RowShows(db, lead);
    }
  }

  /** An answered reader holds the inbox of the operations that were committed when it looked at the pointer. */
  lemma ReadersSeeTheInbox(states: seq<System>, actions: seq<Action>, i: nat, j: nat, reader: nat)
    requires Run(states, actions) && states[0] == INITIAL && i < j < |states| && actions[i] == ReadPointer(reader)
    requires forall k :: i < k < j ==> actions[k] != ReadPointer(reader)
    requires reader in states[j].readers && states[j].readers[reader].Answered?
    ensures Mirrors(states[j].readers[reader].rows, InboxAfter(states[i].committed))
  {
    ReadIsOfItsMoment(states, actions, i, j, reader);
    ReadMirrorsInbox(states[i].committed);
  }

  /** At every moment the export of the generation that CURRENT names is the inbox of the committed operations. */
  lemma ExportMirrorsInbox(states: seq<System>, actions: seq<Action>, i: nat)
    requires Run(states, actions) && states[0] == INITIAL && i < |states| && states[i].committed != []
    ensures var disk := states[i].disk;
            && disk.current.Some? && disk.current.value in disk.versions
            && disk.versions[disk.current.value].feed.Some?
            && Mirrors(disk.versions[disk.current.value].feed.value, InboxAfter(states[i].committed))
  {
    CurrentIsComplete(states, actions, i);
    ReadMirrorsInbox(states[i].committed);
  }

  /* ---- What an import shows ---- */

  /** The content is this item's: its payload, and each piece of evidence under the digest of its own bytes. */
  predicate Records(content: Content, item: Item) {
    && content.payload == item.payload
    && content.text == (if item.text.Some? then Some(Digest(item.text.value)) else None)
    && content.capture == (if item.capture.Some? then Some(Digest(item.capture.value)) else None)
  }

  /** After an import every item of it is readable, with its own payload and evidence as the current content, marked
      verified exactly if both files were there; the review is as it was, or "unreviewed" for a new lead. */
  lemma ImportShows(ops: seq<Op>, items: seq<Item>, clock: string -> int, i: nat)
    requires DistinctLeads(items) && i < |items|
    ensures var before, after := Read(AfterOps(ops)), Read(AfterOps(ops + [Import(items, clock)]));
            var lead := items[i].lead;
            && lead in after && Records(after[lead].current.content, items[i])
            && (after[lead].current.verified <==> items[i].text.Some? && items[i].capture.Some?)
            && after[lead].review == if lead in before then before[lead].review else "unreviewed"
  {
    var db := AfterOps(ops);
    var after, lead := ImportAll(db, items, clock), items[i].lead;
    OpsRefine(ops);
    OpSnoc(ops, Import(items, clock));
    hide AfterOps;
    ImportAllSound(db, items, clock);
    ImportSettles(db, items, clock, i);
    RowShows(after, lead);
    SoundEntry(after, lead);
    ReadableExactly(db, lead);
    if lead in db.proposals {
      ImportGrows(db, items, clock);
    } else {
      NewIsUnreviewed(db, items, clock, lead);
    }
  }

  /** A piece of evidence by its name: the digest that the line claimed, where the file was there. */
  predicate NamesFile(name: Option<Digest>, reading: Reading) {
    if reading.Loaded? then name == Some(reading.claimed) else name.None?
  }

  /** From the line of an export to the reader: each admitted line of an accepted export is read under its lead with
      its payload, and with each file that was there under the digest that the line claimed for it. */
  lemma LineReachesReader(ops: seq<Op>, lines: seq<Line>, clock: string -> int, i: nat)
    requires PrepareAll(lines).Ok? && i < |Filter(Admits, lines)|
    ensures var line := Filter(Admits, lines)[i];
            var rows := Read(AfterOps(ops + [Import(PrepareAll(lines).value.items, clock)]));
            && line.Record? && line.lead in rows
            && rows[line.lead].current.content.payload == line.payload
            && NamesFile(rows[line.lead].current.content.text, line.text)
            && NamesFile(rows[line.lead].current.content.capture, line.capture)
  {
    var items := PrepareAll(lines).value.items;
    ItemsAreLines(lines);
    PrepareExactly(lines);
    assert Becomes(Filter(Admits, lines)[i], items[i]);
    ImportShows(ops, items, clock, i);
    hide Read, AfterOps, PrepareAll, Filter;
  }

  lemma {:induction false} NewIsUnreviewed(db: Db, items: seq<Item>, clock: string -> int, lead: string)
    requires lead !in db.proposals && lead in ImportAll(db, items, clock).proposals
    ensures ImportAll(db, items, clock).proposals[lead].review == "unreviewed"
  {
    if |items| == 0 {
    } else {
      var mid := ImportAll(db, items[..|items| - 1], clock);
      if lead in mid.proposals {
        NewIsUnreviewed(db, items[..|items| - 1], clock, lead);
      }
    }
  }

  lemma OtherReads(db: Db, item: Item, clock: string -> int, lead: string)
    requires Sound(db) && item.lead != lead && lead in Read(db)
    ensures lead in Read(ImportOne(db, item, clock)) && Read(ImportOne(db, item, clock))[lead] == Read(db)[lead]
  {
    OtherLead(db, item, clock, lead);
    AppendHistories(db, RowFor(db, item, clock), lead);
  }

  /** A lead that an import does not name reads exactly as before. */
  lemma {:induction false} OthersReadAsBefore(db: Db, items: seq<Item>, clock: string -> int, lead: string)
    requires Sound(db) && lead in Read(db) && forall i :: 0 <= i < |items| ==> items[i].lead != lead
    ensures lead in Read(ImportAll(db, items, clock)) && Read(ImportAll(db, items, clock))[lead] == Read(db)[lead]
  {
    hide Sound, Read, ImportOne;
    if |items| == 0 {
    } else {
      var front := items[..|items| - 1];
      OthersReadAsBefore(db, front, clock, lead);
      ImportAllSound(db, front, clock);
      OtherReads(ImportAll(db, front, clock), items[|items| - 1], clock, lead);
    }
  }

  /** An accepted review shows at once, as the review and as the newest label, and changes nothing else of the lead. */
  lemma ReviewShows(ops: seq<Op>, lead: string, verdict: string, at: int)
    requires lead in Read(AfterOps(ops))
    ensures var before, after := Read(AfterOps(ops)), Read(AfterOps(ops + [Review(lead, verdict, at)]));
            lead in after
            && after[lead] == if verdict in {"unreviewed", "editorial_keep", "editorial_dismiss", "editorial_research"}
                              then before[lead].(review := verdict, reviewHistory :=
                                     before[lead].reviewHistory + [ReviewEntry(lead, verdict, at)])
                              else before[lead]
  {
    hide Read, ReviewDb, AfterOps;
    OpSnoc(ops, Review(lead, verdict, at));
    ReviewRead(AfterOps(ops), lead, verdict, at);
  }

  lemma OpSnoc(ops: seq<Op>, op: Op)
    ensures AfterOps(ops + [op]) == Applied(AfterOps(ops), op)
  {
    assert (ops + [op])[..|ops|] == ops;
  }

  lemma ReviewRead(db: Db, lead: string, verdict: string, at: int)
    requires lead in Read(db)
    ensures lead in Read(ReviewDb(db, lead, verdict, at))
    ensures Read(ReviewDb(db, lead, verdict, at))[lead]
         == Read(db)[lead].(review := verdict,
                            reviewHistory := Read(db)[lead].reviewHistory + [ReviewEntry(lead, verdict, at)])
  {
    ReviewHistories(db, lead, verdict, at, lead);
    hide HistoryOf, LabelsOf;
    assert CurrentOf(ReviewDb(db, lead, verdict, at), lead) == CurrentOf(db, lead);
  }
}
