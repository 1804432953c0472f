/** A new source never replays its catalogue: what arms it, and what becomes of the keys it showed before. */
module SentinelBaseline {
  import opened Common
  import opened Database
  import opened SentinelStore
  import opened SentinelRunner
  import opened SentinelTheorems
  import opened SentinelRuns
  import opened SentinelCadence
  import A = Adapters
  import I = Identity

  /* ---- What an adapter answers ---- */

  /** SUCCESS comes with candidates, and no other status does. */
  predicate StatusTells(poll: Poll) {
    poll.Polled? ==> (poll.status == PollSuccess <==> poll.candidates != [])
  }

  /** A product as the sweep sees it; `page` is its address. */
  function OfProduct(found: A.Found, page: string -> I.Url): Candidate {
    Candidate(found.reference, page(found.handle), found.title)
  }

  /** A sitemap item as the sweep sees it; it carries no title. */
  function OfItem(item: A.Item, split: string -> I.Url): Candidate {
    Candidate(item.reference, split(item.url), "")
  }

  ghost predicate Converted<T>(candidates: seq<Candidate>, found: seq<T>, of: T -> Candidate) {
    |candidates| == |found| && forall i :: 0 <= i < |found| ==> candidates[i] == of(found[i])
  }

  /** A storefront's answer to the sweep. */
  method PollStorefront(feed: A.Feed, typeFilter: string, maxCandidates: int, page: string -> I.Url)
    returns (poll: Poll)
    ensures poll.Polled? && StatusTells(poll)
    ensures poll.status == PollBlocked <==> feed == A.Unreachable(true)
    ensures poll.status == PollFailed <==> feed == A.Unreachable(false) || feed == A.Unparseable
    ensures Converted(poll.candidates,
                      if feed.Products? then A.UpTo(A.Qualified(feed.products, typeFilter), maxCandidates) else [],
                      (found: A.Found) => OfProduct(found, page))
  {
    var status, found := A.PollShopify(feed, typeFilter, maxCandidates);
    poll := Polled(status, seq(|found|, i requires 0 <= i < |found| => OfProduct(found[i], page)));
  }

  /** The document a sitemap poll reads in the end, if it gets that far. */
  function ReadDocument(fetch: string -> A.Document, url: string, matches: string -> bool): Option<A.Document> {
    match fetch(url)
    case Missing(_) => None
    case UrlSet(_) => Some(fetch(url))
    case Index(children, _) =>
      match A.PickChild(children, matches)
      case None => None
      case Some(child) => if fetch(child).Missing? then None else Some(fetch(child))
  }

  /** A sitemap's answer to the sweep. */
  method PollListing(fetch: string -> A.Document, url: string, matches: string -> bool,
                     referenceIn: string -> Option<string>, maxCandidates: int, split: string -> I.Url)
    returns (poll: Poll)
    ensures poll.Polled? && StatusTells(poll)
    ensures poll.status in {PollBlocked, PollFailed} <==> ReadDocument(fetch, url, matches).None?
    ensures match ReadDocument(fetch, url, matches)
            case None => poll.candidates == []
            case Some(document) =>
              Converted(poll.candidates, A.UpTo(A.FirstOccurrences(document.blocks, referenceIn), maxCandidates),
                        (item: A.Item) => OfItem(item, split))
  {
    var status, items, _ := A.PollSitemap(fetch, url, matches, referenceIn, maxCandidates);
    poll := Polled(status, seq(|items|, i requires 0 <= i < |items| => OfItem(items[i], split)));
  }

  ghost predicate StatusesTell(firings: seq<Firing>) {
    forall i, name :: 0 <= i < |firings| ==> StatusTells(firings[i].input.poll(name))
  }

  /* ---- What a sweep meets for one source ---- */

  /** The keys of the candidates that a sweep processes for the source: none unless it is chosen, due, and polled
      without refusal. */
  ghost function KeysMet(cfg: Config, input: SweepInput, db: Db, name: string): set<string> {
    if Refuses(cfg, input) then {}
    else
      var ready := WithStates(db, Chosen(cfg, input));
      set s, k | s in Chosen(cfg, input) && s.name == name
                 && k in KeysOf(SourceVisits(cfg, input, Due(cfg, input, ready), ready, s)) :: k
  }

  /** The keys met for the source by sweep `k` of a run. */
  ghost function MetAt(firings: seq<Firing>, db: Db, k: nat, name: string): set<string>
    requires k < |firings|
  {
    KeysMet(firings[k].cfg, firings[k].input, AfterRun(firings[..k], db), name)
  }

  lemma {:induction false} AllVisitsHold(cfg: Config, input: SweepInput, due: set<string>, db: Db,
                                         sources: seq<Source>, s: Source)
    requires AllHaveState(db, sources) && s in sources
    ensures KeysOf(SourceVisits(cfg, input, due, db, s)) <= KeysOf(AllVisits(cfg, input, due, db, sources))
  {
    hide SourceVisits;
    var front, last := sources[..|sources| - 1], sources[|sources| - 1];
    assert sources == front + [last];
    KeysOfConcat(AllVisits(cfg, input, due, db, front), SourceVisits(cfg, input, due, db, last));
    if s == last {
    } else {
      AllVisitsHold(cfg, input, due, db, front, s);
    }
  }

  /** Every key met is known once the sweep is over. */
  lemma MetIsKnown(cfg: Config, input: SweepInput, db: Db, name: string)
    requires DistinctNames(cfg.registry)
    ensures KeysMet(cfg, input, db, name) <= AfterSweep(cfg, input, db).identities.Keys
  {
    SweepTracks(cfg, input, db);
    if !Refuses(cfg, input) {
      var sources := Chosen(cfg, input);
      var ready := WithStates(db, sources);
      hide AfterSweep, SourceVisits, AllVisits;
      forall s | s in sources
        ensures KeysOf(SourceVisits(cfg, input, Due(cfg, input, ready), ready, s))
             <= AfterSweep(cfg, input, db).identities.Keys
      {
        AllVisitsHold(cfg, input, Due(cfg, input, ready), ready, sources, s);
      }
    }
  }

  lemma AddedWasUnknown(cfg: Config, input: SweepInput, db: Db, i: nat)
    requires DistinctNames(cfg.registry) && |db.sightings| <= i < |AfterSweep(cfg, input, db).sightings|
    ensures AfterSweep(cfg, input, db).sightings[i].key !in db.identities
  {
    hide AfterSweep, SweepVisits, KeysTrack;
    SweepTracks(cfg, input, db);
    RowWasUnknown(db, SweepVisits(cfg, input, db), AfterSweep(cfg, input, db), i);
  }

  lemma RowWasUnknown(db: Db, visits: seq<Visit>, after: Db, i: nat)
    requires RowsTrack(db, visits, after) && |db.sightings| <= i < |after.sightings|
    ensures after.sightings[i].key !in db.identities
  {
    FreshKeysAreVisited(visits, db.identities.Keys);
    hide FreshKeys;
    var added := SightingKeys(after.sightings[|db.sightings|..]);
    assert added[i - |db.sightings|] == after.sightings[i].key;
    assert added[i - |db.sightings|] in added;
  }

  /** A key once known is in no row that is added later. */
  lemma {:induction false} KnownIsNotSighted(firings: seq<Firing>, db: Db, k: nat, key: string)
    requires NamesDistinct(firings) && k <= |firings| && key in AfterRun(firings[..k], db).identities
    ensures key in AfterRun(firings, db).identities
    ensures forall i :: |AfterRun(firings[..k], db).sightings| <= i < |AfterRun(firings, db).sightings| ==>
              AfterRun(firings, db).sightings[i].key != key
    decreases |firings|
  {
    if k == |firings| {
      assert firings[..k] == firings;
    } else {
      var front, last := firings[..|firings| - 1], firings[|firings| - 1];
      assert front[..k] == firings[..k];
      KnownIsNotSighted(front, db, k, key);
      var mid := AfterRun(front, db);
      SweepTracks(last.cfg, last.input, mid);
      hide AfterSweep;
      var after := AfterSweep(last.cfg, last.input, mid);
      assert AfterRun(firings, db) == after;
      forall i | |AfterRun(firings[..k], db).sightings| <= i < |after.sightings| ensures after.sightings[i].key != key {
        if i < |mid.sightings| {
          assert after.sightings[i] == mid.sightings[i];
        } else {
          AddedWasUnknown(last.cfg, last.input, mid, i);
        }
      }
    }
  }

  /* ---- What arms a source ---- */

  /** The entry says what the poll brought. */
  predicate EntryTells(e: Entry, poll: Poll, due: bool) {
    if !due then e == NotDue
    else match poll
      case PollRaised(error) => e == PollFailure(error)
      case Polled(status, cs) =>
        if status == PollFailed || status == PollBlocked then e == Refused(status, |cs|)
        else e.Processed? && e.status == status && e.candidates == |cs|
  }

  lemma {:induction false} EntriesTell(cfg: Config, input: SweepInput, due: set<string>, o: Outcome,
                                       sources: seq<Source>)
    requires AllHaveState(o.progress.db, sources)
    requires forall n :: n in o.report.perSource ==> EntryTells(o.report.perSource[n], input.poll(n), n in due)
    ensures var r := Sources(cfg, input, due, o, sources).report;
            forall n :: n in r.perSource ==> EntryTells(r.perSource[n], input.poll(n), n in due)
  {
    if |sources| == 0 {
    } else {
      EntriesTell(cfg, input, due, o, sources[..|sources| - 1]);
      OneMoreEntry(cfg, input, due, Sources(cfg, input, due, o, sources[..|sources| - 1]), sources[|sources| - 1]);
    }
  }

  lemma OneMoreEntry(cfg: Config, input: SweepInput, due: set<string>, o: Outcome, source: Source)
    requires source.name in o.progress.db.states
    ensures var r := SourceStep(cfg, input, due, o, source).report;
            && source.name in r.perSource
            && EntryTells(r.perSource[source.name], input.poll(source.name), source.name in due)
            && r.perSource == o.report.perSource[source.name := r.perSource[source.name]]
  {
  }

  lemma SweepEntryTells(cfg: Config, input: SweepInput, db: Db, name: string)
    requires name in EntriesOf(cfg, input, db)
    ensures EntryTells(EntriesOf(cfg, input, db)[name], input.poll(name),
                       name in Due(cfg, input, WithStates(db, Chosen(cfg, input))))
  {
    var ready := WithStates(db, Chosen(cfg, input));
    EntriesTell(cfg, input, Due(cfg, input, ready), Begun(ready), Chosen(cfg, input));
  }

  /** A SUCCESS poll is one that met candidates, and conversely. */
  lemma SuccessMeetsKeys(cfg: Config, input: SweepInput, db: Db, name: string)
    requires DistinctNames(cfg.registry) && StatusTells(input.poll(name))
    ensures IsSuccess(EntriesOf(cfg, input, db), name) <==> KeysMet(cfg, input, db, name) != {}
  {
    SweepFollows(cfg, input, db, name);
    if name in EntriesOf(cfg, input, db) {
      SweepEntryTells(cfg, input, db, name);
      var ready := WithStates(db, Chosen(cfg, input));
      var due := Due(cfg, input, ready);
      hide EntriesOf, Due;
      forall s | s in Chosen(cfg, input) && s.name == name
        ensures KeysOf(SourceVisits(cfg, input, due, ready, s)) != {} <==> IsSuccess(EntriesOf(cfg, input, db), name)
      {
        VisitsOfPoll(cfg, input, due, ready, s);
      }
    }
  }

  lemma VisitsOfPoll(cfg: Config, input: SweepInput, due: set<string>, db: Db, s: Source)
    requires s.name in db.states && StatusTells(input.poll(s.name))
    ensures KeysOf(SourceVisits(cfg, input, due, db, s)) != {}
       <==> s.name in due && input.poll(s.name).Polled? && input.poll(s.name).status == PollSuccess
  {
    var visits := SourceVisits(cfg, input, due, db, s);
    if visits != [] {
      assert visits[0].key in KeysOf(visits);
    }
  }

  lemma {:induction false} SuccessesMeetKeys(firings: seq<Firing>, db: Db, name: string)
    requires NamesDistinct(firings) && StatusesTell(firings)
    ensures SuccessTimes(firings, db, name) != []
       <==> exists k :: 0 <= k < |firings| && MetAt(firings, db, k, name) != {}
  {
    hide EntriesOf, KeysMet, AfterSweep;
    if |firings| == 0 {
    } else {
      var front, last := firings[..|firings| - 1], firings[|firings| - 1];
      SuccessesMeetKeys(front, db, name);
      SuccessMeetsKeys(last.cfg, last.input, AfterRun(front, db), name);
      forall k: nat | k < |front| ensures MetAt(front, db, k, name) == MetAt(firings, db, k, name) {
        assert front[..k] == firings[..k];
      }
      assert MetAt(firings, db, |front|, name) == KeysMet(last.cfg, last.input, AfterRun(front, db), name);
    }
  }

  /** With statuses that tell, a new source is armed exactly when some sweep has processed a candidate of it: no
      empty, failed or blocked poll ever arms. */
  lemma ArmedExactly(firings: seq<Firing>, db: Db, name: string)
    requires NamesDistinct(firings) && StatusesTell(firings) && StateOf(db, name) == NEVER_POLLED
    ensures StateOf(AfterRun(firings, db), name).armedAt.Some?
       <==> exists k :: 0 <= k < |firings| && MetAt(firings, db, k, name) != {}
  {
    StateTellsHistory(firings, db, name);
    SuccessesMeetKeys(firings, db, name);
  }

  /* ---- The first catalogue ---- */

  lemma {:induction false} SuccessTimesGrow(firings: seq<Firing>, db: Db, name: string, j: nat)
    requires j <= |firings|
    ensures SuccessTimes(firings[..j], db, name) <= SuccessTimes(firings, db, name)
    decreases |firings|
  {
    if j == |firings| {
      assert firings[..j] == firings;
    } else {
      var front := firings[..|firings| - 1];
      assert front[..j] == firings[..j];
      SuccessTimesGrow(front, db, name, j);
    }
  }

  /** Every row added for the source came after a SUCCESS poll; so none was added up to the sweep that follows `k`
      sweeps without one. */
  lemma NoRowBeforeSuccess(firings: seq<Firing>, db: Db, k: nat, name: string, i: nat)
    requires NamesDistinct(firings) && k < |firings| && StateOf(db, name) == NEVER_POLLED
    requires SuccessTimes(firings[..k], db, name) == []
    requires |db.sightings| <= i < |AfterRun(firings, db).sightings|
    requires AfterRun(firings, db).sightings[i].source == name
    ensures |AfterRun(firings[..k + 1], db).sightings| <= i
  {
    if i < |AfterRun(firings[..k + 1], db).sightings| {
      RowsStay(firings, db, k + 1, i);
      var j := SightedAfterSuccess(firings[..k + 1], db, i);
      assert firings[..k + 1][..j] == firings[..k][..j];
      SuccessTimesGrow(firings[..k], db, name, j);
    }
  }

  /** Whatever a new source shows before or at its first SUCCESS poll is never sighted for it: not by that sweep and
      not by any later one. */
  lemma KeysMetUnarmedStaySilent(firings: seq<Firing>, db: Db, k: nat, name: string)
    requires NamesDistinct(firings) && k < |firings| && StateOf(db, name) == NEVER_POLLED
    requires SuccessTimes(firings[..k], db, name) == []
    ensures var rows := AfterRun(firings, db).sightings;
            forall i :: |db.sightings| <= i < |rows| && rows[i].source == name ==>
              rows[i].key !in MetAt(firings, db, k, name)
  {
    hide KeysMet;
    var rows := AfterRun(firings, db).sightings;
    forall i | |db.sightings| <= i < |rows| && rows[i].source == name
      ensures rows[i].key !in MetAt(firings, db, k, name)
    {
      NoRowBeforeSuccess(firings, db, k, name, i);
      if rows[i].key in MetAt(firings, db, k, name) {
        MetIsKnown(firings[k].cfg, firings[k].input, AfterRun(firings[..k], db), name);
        assert firings[..k + 1][..k] == firings[..k];
        KnownIsNotSighted(firings, db, k + 1, rows[i].key);
      }
    }
  }

  /** A new source does not replay its catalogue: nothing that its first candidates-bearing poll shows is ever
      sighted for it, however often it is polled and whatever the others do. */
  lemma FirstCatalogueIsSilent(firings: seq<Firing>, db: Db, k: nat, name: string)
    requires NamesDistinct(firings) && StatusesTell(firings) && StateOf(db, name) == NEVER_POLLED
    requires k < |firings| && forall j :: 0 <= j < k ==> MetAt(firings, db, j, name) == {}
    ensures var rows := AfterRun(firings, db).sightings;
            forall i :: |db.sightings| <= i < |rows| && rows[i].source == name ==>
              rows[i].key !in MetAt(firings, db, k, name)
  {
    var front := firings[..k];
    forall j: nat | j < k ensures MetAt(front, db, j, name) == MetAt(firings, db, j, name) {
      assert front[..j] == firings[..j];
    }
    SuccessesMeetKeys(front, db, name);
    KeysMetUnarmedStaySilent(firings, db, k, name);
  }

  /* ---- Why the status must tell ---- */

  const EMPTY_TABLES := Db(map[], [], map[], map[])

  /** An ordinary firing of the scheduler. */
  predicate Ordinary(input: SweepInput) {
    input.lockGranted && !input.forceBaseline && input.onlySource.None?
  }

  lemma VisitsOfOne(cfg: Config, input: SweepInput, due: set<string>, db: Db, source: Source)
    requires source.name in db.states
    ensures AllVisits(cfg, input, due, db, [source]) == SourceVisits(cfg, input, due, db, source)
  {
    assert [source][..0] == [];
    assert [] + SourceVisits(cfg, input, due, db, source) == SourceVisits(cfg, input, due, db, source);
  }

  lemma OnlyChosen(cfg: Config, input: SweepInput, source: Source)
    requires cfg.registry == [source] && source.enabled && Ordinary(input)
    ensures Chosen(cfg, input) == [source] && DistinctNames(cfg.registry) && !Refuses(cfg, input)
  {
    FilterSnoc((s: Source) => s.enabled, [], source);
    assert [] + [source] == cfg.registry;
  }

  /** The one enabled source, never successful or past its cadence, is due. */
  ghost predicate OnlyDue(cfg: Config, input: SweepInput, db: Db, source: Source) {
    && cfg.registry == [source] && source.enabled && Ordinary(input)
    && IsDue(WithStates(db, [source]).states, source.name, source.cadenceMinutes, input.now)
  }

  lemma OnlySourceIsDue(cfg: Config, input: SweepInput, db: Db, source: Source)
    requires OnlyDue(cfg, input, db, source)
    ensures source.name in Due(cfg, input, WithStates(db, Chosen(cfg, input)))
  {
    OnlyChosen(cfg, input, source);
    assert source in Chosen(cfg, input);
  }

  lemma OneSourceVisits(cfg: Config, input: SweepInput, db: Db, source: Source, cs: seq<Candidate>)
    requires OnlyDue(cfg, input, db, source) && input.poll(source.name) == Polled(PollSuccess, cs)
    ensures SweepVisits(cfg, input, db) == VisitsOf(cfg, source, StateOf(db, source.name).armedAt.Some?, cs, input.now)
    ensures KeysMet(cfg, input, db, source.name) == KeysOf(SweepVisits(cfg, input, db))
  {
    OnlyChosen(cfg, input, source);
    OnlySourceIsDue(cfg, input, db, source);
    ReadyState(db, [source], source.name);
    var ready := WithStates(db, [source]);
    VisitsOfOne(cfg, input, Due(cfg, input, ready), ready, source);
    hide Chosen, Due, VisitsOf;
  }

  lemma OneSourceArms(cfg: Config, input: SweepInput, db: Db, source: Source, cs: seq<Candidate>)
    requires OnlyDue(cfg, input, db, source) && input.poll(source.name) == Polled(PollSuccess, cs)
    ensures StateOf(AfterSweep(cfg, input, db), source.name)
         == Marked(StateOf(db, source.name), true, PollSuccess, input.now)
  {
    OnlyChosen(cfg, input, source);
    OnlySourceIsDue(cfg, input, db, source);
    assert source in Chosen(cfg, input);
    hide AfterSweep, EntriesOf, Chosen, Due, StateOf;
    SweepFollows(cfg, input, db, source.name);
    SweepEntryTells(cfg, input, db, source.name);
  }

  lemma TwoFirings(a: Firing, b: Firing, db: Db, name: string)
    ensures var mid := AfterSweep(a.cfg, a.input, db);
            && AfterRun([a, b], db) == AfterSweep(b.cfg, b.input, mid)
            && MetAt([a, b], db, 0, name) == KeysMet(a.cfg, a.input, db, name)
            && MetAt([a, b], db, 1, name) == KeysMet(b.cfg, b.input, mid, name)
  {
    hide AfterSweep, KeysMet;
    assert [a, b][..0] == [] && [a, b][..1] == [a] && [a][..0] == [];
    assert AfterRun([a], db) == AfterSweep(a.cfg, a.input, db);
  }

  /** Were an empty poll reported as SUCCESS, it would arm the source, and the catalogue would then be sighted. */
  lemma EmptySuccessReplays(cfg: Config, first: SweepInput, second: SweepInput, source: Source, c: Candidate)
    requires cfg.registry == [source] && source.enabled && Ordinary(first) && Ordinary(second)
    requires first.poll(source.name) == Polled(PollSuccess, [])
    requires second.poll(source.name) == Polled(PollSuccess, [c])
    requires second.now - first.now >= 60 * source.cadenceMinutes
    ensures var firings := [Firing(cfg, first), Firing(cfg, second)];
            && MetAt(firings, EMPTY_TABLES, 0, source.name) == {}
            && MetAt(firings, EMPTY_TABLES, 1, source.name) == {Resolve(cfg, source, c).key}
            && SightingKeys(AfterRun(firings, EMPTY_TABLES).sightings) == [Resolve(cfg, source, c).key]
  {
    var armed := ArmedByNothing(cfg, first, source);
    TwoFirings(Firing(cfg, first), Firing(cfg, second), EMPTY_TABLES, source.name);
    ReadyState(armed, [source], source.name);
    OneSourceVisits(cfg, second, armed, source, [c]);
    SweepTracks(cfg, second, armed);
    hide AfterSweep, SweepVisits, KeysMet, Tracks, IsDue;
    var v := VisitOf(cfg, source, true, c, second.now);
    assert SweepVisits(cfg, second, armed) == [v];
    OnlyFresh(EMPTY_TABLES, armed, v, AfterSweep(cfg, second, armed));
  }

  /** The tables after a first sweep whose only poll was an empty SUCCESS. */
  lemma ArmedByNothing(cfg: Config, first: SweepInput, source: Source) returns (armed: Db)
    requires cfg.registry == [source] && source.enabled && Ordinary(first)
    requires first.poll(source.name) == Polled(PollSuccess, [])
    ensures armed == AfterSweep(cfg, first, EMPTY_TABLES) && DistinctNames(cfg.registry)
    ensures StateOf(armed, source.name) == Marked(NEVER_POLLED, true, PollSuccess, first.now)
    ensures KeysMet(cfg, first, EMPTY_TABLES, source.name) == {} && Tracks(EMPTY_TABLES, [], armed)
  {
    armed := AfterSweep(cfg, first, EMPTY_TABLES);
    ReadyState(EMPTY_TABLES, [source], source.name);
    OneSourceVisits(cfg, first, EMPTY_TABLES, source, []);
    OneSourceArms(cfg, first, EMPTY_TABLES, source, []);
    OnlyChosen(cfg, first, source);
    SweepTracks(cfg, first, EMPTY_TABLES);
    hide AfterSweep, KeysMet, Tracks, IsDue;
    assert SweepVisits(cfg, first, EMPTY_TABLES) == [];
  }

  /** From empty tables, nothing visited and then one armed visit: one sighting. */
  lemma OnlyFresh(db: Db, mid: Db, v: Visit, after: Db)
    requires db == EMPTY_TABLES && Tracks(db, [], mid) && Tracks(mid, [v], after) && v.armed
    ensures SightingKeys(after.sightings) == [v.key] && KeysOf([v]) == {v.key} && KeysOf([]) == {}
  {
  }
}
