/** The proposal database as a value: what one import or one review makes of it, and the simple append-only inbox
    that it refines. */
module Proposals {
  import opened Common

  type Bytes = string

  /** A SHA-256 digest, idealised: it determines what was digested. */
  datatype Digest = Digest(of: Bytes)

  /** A validated proposal with the evidence that could be read; None where the reference is missing. */
  datatype Item = Item(lead: string, payload: string, text: Option<Bytes>, capture: Option<Bytes>)

  /** What an observation says: the payload, the owned blobs by name, and thereby what was unavailable. */
  datatype Content = Content(payload: string, text: Option<Digest>, capture: Option<Digest>)

  /** The digest of the content, idealised in the same way. */
  datatype Fingerprint = Fingerprint(of: Content)

  datatype Observation = Observation(id: nat, lead: string, fingerprint: Fingerprint, content: Content,
                                     verified: bool, importedAt: int)
  datatype Proposal = Proposal(review: string, current: nat)
  datatype ReviewEntry = ReviewEntry(lead: string, verdict: string, reviewedAt: int)
  datatype Db = Db(proposals: map<string, Proposal>, observations: seq<Observation>, reviews: seq<ReviewEntry>)

  const EMPTY_DB := Db(map[], [], [])
  const UNREVIEWED := "unreviewed"
  const LABELS := {"unreviewed", "editorial_keep", "editorial_dismiss", "editorial_research"}

  function DigestOf(data: Option<Bytes>): Option<Digest> {
    if data.Some? then Some(Digest(data.value)) else None
  }

  function ContentOf(item: Item): Content {
    Content(item.payload, DigestOf(item.text), DigestOf(item.capture))
  }

  /** The row that the proposal's current observation id joins to. */
  function CurrentOf(db: Db, lead: string): Option<Observation> {
    if lead in db.proposals && 1 <= db.proposals[lead].current <= |db.observations|
    then Some(db.observations[db.proposals[lead].current - 1]) else None
  }

  function ReviewOf(db: Db, lead: string): string {
    if lead in db.proposals then db.proposals[lead].review else UNREVIEWED
  }

  predicate IsUnchanged(db: Db, item: Item) {
    var previous := CurrentOf(db, item.lead);
    previous.Some? && previous.value.fingerprint == Fingerprint(ContentOf(item))
  }

  function RowFor(db: Db, item: Item, clock: string -> int): Observation {
    Observation(|db.observations| + 1, item.lead, Fingerprint(ContentOf(item)), ContentOf(item),
                item.text.Some? && item.capture.Some?, clock(item.lead))
  }

  /** The row appended and made current, under the review the proposal already had. */
  function WithObservation(db: Db, row: Observation): Db {
    Db(db.proposals[row.lead := Proposal(ReviewOf(db, row.lead), row.id)], db.observations + [row], db.reviews)
  }

  /** One proposal of an import: skipped when its fingerprint is the current one, otherwise a new observation. */
  function ImportOne(db: Db, item: Item, clock: string -> int): Db {
    if IsUnchanged(db, item) then db else WithObservation(db, RowFor(db, item, clock))
  }

  function ImportAll(db: Db, items: seq<Item>, clock: string -> int): Db {
    if |items| == 0 then db
    else ImportOne(ImportAll(db, items[..|items| - 1], clock), items[|items| - 1], clock)
  }

  function ReviewDb(db: Db, lead: string, verdict: string, at: int): Db
    requires lead in db.proposals
  {
    db.(proposals := db.proposals[lead := db.proposals[lead].(review := verdict)],
        reviews := db.reviews + [ReviewEntry(lead, verdict, at)])
  }

  /* ---- What a reader gets ---- */

  datatype Row = Row(review: string, current: Observation, history: seq<Observation>, reviewHistory: seq<ReviewEntry>)

  function ObservationsUnder(rows: seq<Observation>, lead: string): seq<Observation> {
    if |rows| == 0 then []
    else
      var last := rows[|rows| - 1];
      ObservationsUnder(rows[..|rows| - 1], lead) + (if last.lead == lead then [last] else [])
  }

  function ReviewsUnder(rows: seq<ReviewEntry>, lead: string): seq<ReviewEntry> {
    if |rows| == 0 then []
    else
      var last := rows[|rows| - 1];
      ReviewsUnder(rows[..|rows| - 1], lead) + (if last.lead == lead then [last] else [])
  }

  function HistoryOf(db: Db, lead: string): seq<Observation> {
    ObservationsUnder(db.observations, lead)
  }

  function LabelsOf(db: Db, lead: string): seq<ReviewEntry> {
    ReviewsUnder(db.reviews, lead)
  }

  /** Every proposal that joins to an observation, with both its histories. */
  function Read(db: Db): map<string, Row> {
    map lead | lead in db.proposals && CurrentOf(db, lead).Some? ::
      Row(db.proposals[lead].review, CurrentOf(db, lead).value, HistoryOf(db, lead), LabelsOf(db, lead))
  }

  /* ---- The inbox it stands for ---- */

  datatype Seen = Seen(content: Content, importedAt: int)
  datatype Entry = Entry(review: string, history: seq<Seen>, labels: seq<ReviewEntry>)
  type Inbox = map<string, Entry>

  function EntryOf(inbox: Inbox, lead: string): Option<Entry> {
    if lead in inbox then Some(inbox[lead]) else None
  }

  function LastSeen(entry: Entry): Option<Content> {
    if |entry.history| > 0 then Some(entry.history[|entry.history| - 1].content) else None
  }

  function Extended(entry: Option<Entry>, seen: Seen): Entry {
    match entry
    case None => Entry(UNREVIEWED, [seen], [])
    case Some(e) => e.(history := e.history + [seen])
  }

  /** No ids and no fingerprints: what differs from the last content seen is appended. */
  function ReceiveOne(inbox: Inbox, item: Item, clock: string -> int): Inbox {
    if item.lead in inbox && LastSeen(inbox[item.lead]) == Some(ContentOf(item)) then inbox
    else inbox[item.lead := Extended(EntryOf(inbox, item.lead), Seen(ContentOf(item), clock(item.lead)))]
  }

  function ReceiveAll(inbox: Inbox, items: seq<Item>, clock: string -> int): Inbox {
    if |items| == 0 then inbox
    else ReceiveOne(ReceiveAll(inbox, items[..|items| - 1], clock), items[|items| - 1], clock)
  }

  function Relabel(inbox: Inbox, lead: string, verdict: string, at: int): Inbox
    requires lead in inbox
  {
    inbox[lead := Entry(verdict, inbox[lead].history, inbox[lead].labels + [ReviewEntry(lead, verdict, at)])]
  }

  function SeenOf(history: seq<Observation>): (r: seq<Seen>)
    ensures |r| == |history|
  {
    seq(|history|, i requires 0 <= i < |history| => Seen(history[i].content, history[i].importedAt))
  }

  /** The inbox of a database. */
  function Abstract(db: Db): Inbox {
    map lead | lead in db.proposals :: Entry(db.proposals[lead].review, SeenOf(HistoryOf(db, lead)), LabelsOf(db, lead))
  }

  /* ---- What every import and review keeps ---- */

  ghost predicate AdjacentDiffer(history: seq<Observation>) {
    forall k :: 0 < k < |history| ==> history[k - 1].fingerprint != history[k].fingerprint
  }

  function LastLabel(labels: seq<ReviewEntry>): string {
    if |labels| == 0 then UNREVIEWED else labels[|labels| - 1].verdict
  }

  /** Nothing of the evidence was unavailable. */
  predicate AllOwned(content: Content) {
    content.text.Some? && content.capture.Some?
  }

  ghost predicate RowsSound(db: Db) {
    && (forall i {:trigger db.observations[i]} :: 0 <= i < |db.observations| ==>
          && db.observations[i].id == i + 1
          && db.observations[i].lead in db.proposals
          && db.observations[i].fingerprint == Fingerprint(db.observations[i].content)
          && (db.observations[i].verified <==> AllOwned(db.observations[i].content)))
    && (forall i :: 0 <= i < |db.reviews| ==> db.reviews[i].lead in db.proposals)
  }

  /** The current observation is the last of a history without repetition, and the review the last label given. */
  ghost predicate Coherent(current: Observation, review: string, history: seq<Observation>, labels: seq<ReviewEntry>) {
    && |history| > 0 && current == history[|history| - 1]
    && AdjacentDiffer(history)
    && review == LastLabel(labels)
  }

  ghost predicate LeadSound(db: Db, lead: string)
    requires lead in db.proposals
  {
    && CurrentOf(db, lead).Some?
    && Coherent(CurrentOf(db, lead).value, db.proposals[lead].review, HistoryOf(db, lead), LabelsOf(db, lead))
  }

  ghost predicate Sound(db: Db) {
    RowsSound(db) && forall lead {:trigger LeadSound(db, lead)} :: lead in db.proposals ==> LeadSound(db, lead)
  }

  lemma {:induction false} NoObservations(rows: seq<Observation>, lead: string)
    requires forall i :: 0 <= i < |rows| ==> rows[i].lead != lead
    ensures ObservationsUnder(rows, lead) == []
  {
    if |rows| == 0 {
    } else {
      NoObservations(rows[..|rows| - 1], lead);
    }
  }

  lemma {:induction false} NoReviews(rows: seq<ReviewEntry>, lead: string)
    requires forall i :: 0 <= i < |rows| ==> rows[i].lead != lead
    ensures ReviewsUnder(rows, lead) == []
  {
    if |rows| == 0 {
    } else {
      NoReviews(rows[..|rows| - 1], lead);
    }
  }

  /** Nothing under a fresh lead. */
  lemma FreshLead(db: Db, lead: string)
    requires RowsSound(db) && lead !in db.proposals
    ensures HistoryOf(db, lead) == [] && LabelsOf(db, lead) == []
  {
    NoObservations(db.observations, lead);
    NoReviews(db.reviews, lead);
  }

  lemma CoherentStarts(o: Observation)
    ensures Coherent(o, UNREVIEWED, [] + [o], [])
  {
  }

  lemma CoherentGrows(current: Observation, review: string, history: seq<Observation>, labels: seq<ReviewEntry>,
                      o: Observation)
    requires Coherent(current, review, history, labels) && o.fingerprint != current.fingerprint
    ensures Coherent(o, review, history + [o], labels)
  {
  }

  lemma SoundEntry(db: Db, lead: string)
    requires Sound(db) && lead in db.proposals
    ensures LeadSound(db, lead)
    ensures CurrentOf(db, lead).value.fingerprint == Fingerprint(CurrentOf(db, lead).value.content)
  {
  }

  /** A row that an import may append. */
  ghost predicate Appends(db: Db, row: Observation) {
    && row.id == |db.observations| + 1
    && row.fingerprint == Fingerprint(row.content) && (row.verified <==> AllOwned(row.content))
    && (CurrentOf(db, row.lead).Some? ==> CurrentOf(db, row.lead).value.fingerprint != row.fingerprint)
  }

  /** An observation appended under one lead shows in that lead's history only. */
  lemma AppendHistories(db: Db, row: Observation, lead: string)
    ensures HistoryOf(WithObservation(db, row), lead)
         == HistoryOf(db, lead) + (if lead == row.lead then [row] else [])
    ensures LabelsOf(WithObservation(db, row), lead) == LabelsOf(db, lead)
  {
    assert (db.observations + [row])[..|db.observations|] == db.observations;
  }

  lemma AppendCurrent(db: Db, row: Observation, lead: string)
    requires Appends(db, row)
    ensures lead == row.lead ==> CurrentOf(WithObservation(db, row), lead) == Some(row)
    ensures lead != row.lead && CurrentOf(db, lead).Some? ==>
              CurrentOf(WithObservation(db, row), lead) == CurrentOf(db, lead)
  {
  }

  lemma AppendLeadSound(db: Db, row: Observation, lead: string)
    requires Sound(db) && Appends(db, row) && (lead in db.proposals || lead == row.lead)
    ensures lead in WithObservation(db, row).proposals && LeadSound(WithObservation(db, row), lead)
  {
    hide HistoryOf, LabelsOf, RowsSound, Coherent;
    AppendHistories(db, row, lead);
    AppendCurrent(db, row, lead);
    if lead in db.proposals {
      SoundEntry(db, lead);
      if lead == row.lead {
        CoherentGrows(CurrentOf(db, lead).value, db.proposals[lead].review, HistoryOf(db, lead), LabelsOf(db, lead),
                      row);
      } else {
        assert HistoryOf(db, lead) + [] == HistoryOf(db, lead);
      }
    } else {
      FreshLead(db, lead);
      CoherentStarts(row);
    }
  }

  lemma AppendRowsSound(db: Db, row: Observation)
    requires RowsSound(db) && Appends(db, row)
    ensures RowsSound(WithObservation(db, row))
  {
  }

  lemma ImportOneSound(db: Db, item: Item, clock: string -> int)
    requires Sound(db)
    ensures Sound(ImportOne(db, item, clock))
  {
    if !IsUnchanged(db, item) {
      var row := RowFor(db, item, clock);
      AppendRowsSound(db, row);
      forall lead | lead in WithObservation(db, row).proposals ensures LeadSound(WithObservation(db, row), lead) {
        AppendLeadSound(db, row, lead);
      }
    }
  }

  lemma {:induction false} ImportAllSound(db: Db, items: seq<Item>, clock: string -> int)
    requires Sound(db)
    ensures Sound(ImportAll(db, items, clock))
  {
    if |items| == 0 {
    } else {
      ImportAllSound(db, items[..|items| - 1], clock);
      ImportOneSound(ImportAll(db, items[..|items| - 1], clock), items[|items| - 1], clock);
    }
  }

  lemma ReviewHistories(db: Db, lead: string, verdict: string, at: int, other: string)
    requires lead in db.proposals
    ensures HistoryOf(ReviewDb(db, lead, verdict, at), other) == HistoryOf(db, other)
    ensures LabelsOf(ReviewDb(db, lead, verdict, at), other)
         == LabelsOf(db, other) + (if other == lead then [ReviewEntry(lead, verdict, at)] else [])
  {
    assert (db.reviews + [ReviewEntry(lead, verdict, at)])[..|db.reviews|] == db.reviews;
  }

  lemma ReviewLeadSound(db: Db, lead: string, verdict: string, at: int, other: string)
    requires Sound(db) && lead in db.proposals && other in db.proposals
    ensures LeadSound(ReviewDb(db, lead, verdict, at), other)
  {
    ReviewHistories(db, lead, verdict, at, other);
    SoundEntry(db, other);
    assert CurrentOf(ReviewDb(db, lead, verdict, at), other) == CurrentOf(db, other);
  }

  lemma ReviewRowsSound(db: Db, lead: string, verdict: string, at: int)
    requires RowsSound(db) && lead in db.proposals
    ensures RowsSound(ReviewDb(db, lead, verdict, at))
  {
  }

  lemma ReviewSound(db: Db, lead: string, verdict: string, at: int)
    requires Sound(db) && lead in db.proposals
    ensures Sound(ReviewDb(db, lead, verdict, at))
  {
    ReviewRowsSound(db, lead, verdict, at);
    forall other | other in db.proposals ensures LeadSound(ReviewDb(db, lead, verdict, at), other) {
      ReviewLeadSound(db, lead, verdict, at, other);
    }
  }

  /* ---- Refinement ---- */

  lemma SeenSnoc(history: seq<Observation>, o: Observation)
    ensures SeenOf(history + [o]) == SeenOf(history) + [Seen(o.content, o.importedAt)]
  {
  }

  /** On a sound database the fingerprint test and the comparison with the last content seen agree. */
  lemma UnchangedExactly(db: Db, item: Item)
    requires Sound(db)
    ensures IsUnchanged(db, item)
       <==> item.lead in db.proposals && LastSeen(Abstract(db)[item.lead]) == Some(ContentOf(item))
  {
    if item.lead in db.proposals {
      SoundEntry(db, item.lead);
    }
  }

  lemma AppendEntry(db: Db, row: Observation, lead: string)
    requires Sound(db) && (lead in db.proposals || lead == row.lead)
    ensures Abstract(WithObservation(db, row))[lead]
         == if lead == row.lead then Extended(EntryOf(Abstract(db), lead), Seen(row.content, row.importedAt))
            else Abstract(db)[lead]
  {
    AppendHistories(db, row, lead);
    if lead == row.lead {
      SeenSnoc(HistoryOf(db, lead), row);
    }
    if lead !in db.proposals {
      FreshLead(db, lead);
      assert SeenOf([]) == [];
    }
  }

  lemma AppendRefines(db: Db, row: Observation)
    requires Sound(db)
    ensures Abstract(WithObservation(db, row))
         == Abstract(db)[row.lead := Extended(EntryOf(Abstract(db), row.lead), Seen(row.content, row.importedAt))]
  {
    hide HistoryOf, LabelsOf, SeenOf, Extended;
    forall lead | lead in WithObservation(db, row).proposals
      ensures Abstract(WithObservation(db, row))[lead]
           == if lead == row.lead then Extended(EntryOf(Abstract(db), lead), Seen(row.content, row.importedAt))
              else Abstract(db)[lead]
    {
      AppendEntry(db, row, lead);
    }
  }

  lemma ImportOneRefines(db: Db, item: Item, clock: string -> int)
    requires Sound(db)
    ensures Abstract(ImportOne(db, item, clock)) == ReceiveOne(Abstract(db), item, clock)
  {
    UnchangedExactly(db, item);
    if !IsUnchanged(db, item) {
      AppendRefines(db, RowFor(db, item, clock));
    }
  }

  /** An import of any list of proposals does to the database what the abstract inbox says. */
  lemma {:induction false} ImportRefines(db: Db, items: seq<Item>, clock: string -> int)
    requires Sound(db)
    ensures Abstract(ImportAll(db, items, clock)) == ReceiveAll(Abstract(db), items, clock)
  {
    if |items| == 0 {
    } else {
      var front := items[..|items| - 1];
      ImportRefines(db, front, clock);
      ImportAllSound(db, front, clock);
      ImportOneRefines(ImportAll(db, front, clock), items[|items| - 1], clock);
    }
  }

  lemma ReviewRefines(db: Db, lead: string, verdict: string, at: int)
    requires Sound(db) && lead in db.proposals
    ensures Abstract(ReviewDb(db, lead, verdict, at)) == Relabel(Abstract(db), lead, verdict, at)
  {
    hide HistoryOf, LabelsOf, SeenOf;
    forall other | other in db.proposals
      ensures Abstract(ReviewDb(db, lead, verdict, at))[other] == Relabel(Abstract(db), lead, verdict, at)[other]
    {
      ReviewHistories(db, lead, verdict, at, other);
    }
  }
}
