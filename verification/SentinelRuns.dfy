/** Whole runs of sweeps: one sighting per key, replay silence, truthful alert states. */
module SentinelRuns {
  import opened Common
  import opened Database
  import opened Alerting
  import opened Guarded
  import opened Receipts
  import opened SentinelStore
  import opened SentinelRunner
  import opened SentinelTheorems
  import Text
  import I = Identity

  lemma {:induction false} FilterKeepsDistinctNames(p: Source -> bool, sources: seq<Source>)
    requires DistinctNames(sources)
    ensures DistinctNames(Filter(p, sources))
  {
    if |sources| == 0 {
    } else {
      var front, last := sources[..|sources| - 1], sources[|sources| - 1];
      FilterKeepsDistinctNames(p, front);
      forall s | s in Filter(p, front) ensures s.name != last.name {
        FilterMember(p, front, s);
      }
    }
  }

  lemma ChosenDistinct(cfg: Config, input: SweepInput)
    requires DistinctNames(cfg.registry)
    ensures DistinctNames(Chosen(cfg, input))
  {
    FilterKeepsDistinctNames((s: Source) => s.enabled, cfg.registry);
    if input.onlySource.Some? {
      var name := input.onlySource.value;
      FilterKeepsDistinctNames((s: Source) => s.name == name, cfg.registry);
    }
  }

  ghost function AfterSweep(cfg: Config, input: SweepInput, db: Db): Db {
    if Refuses(cfg, input) then db else Swept(cfg, input, db).progress.db
  }

  ghost function SweepVisits(cfg: Config, input: SweepInput, db: Db): seq<Visit> {
    if Refuses(cfg, input) then []
    else
      var ready := WithStates(db, Chosen(cfg, input));
      AllVisits(cfg, input, Due(cfg, input, ready), ready, Chosen(cfg, input))
  }

  /** One sweep sights exactly the fresh keys of what it processes, whatever its cached snapshot held. */
  lemma SweepTracks(cfg: Config, input: SweepInput, db: Db)
    requires DistinctNames(cfg.registry)
    ensures Tracks(db, SweepVisits(cfg, input, db), AfterSweep(cfg, input, db))
  {
    if Refuses(cfg, input) {
      TracksNothing(db, db);
    } else {
      ChosenDistinct(cfg, input);
      var ready := WithStates(db, Chosen(cfg, input));
      var o := Begun(ready);
      SourcesTrack(cfg, input, Due(cfg, input, ready), o, Chosen(cfg, input));
      TracksNothing(db, ready);
      TracksCompose(db, [], ready, SweepVisits(cfg, input, db), AfterSweep(cfg, input, db));
      assert [] + SweepVisits(cfg, input, db) == SweepVisits(cfg, input, db);
    }
  }

  /** One firing of the scheduler: the configuration of its process, and what the outside world answers. */
  datatype Firing = Firing(cfg: Config, input: SweepInput)

  /** Every configuration names each source once. */
  ghost predicate NamesDistinct(firings: seq<Firing>) {
    forall i :: 0 <= i < |firings| ==> DistinctNames(firings[i].cfg.registry)
  }

  ghost function AfterRun(firings: seq<Firing>, db: Db): Db {
    if |firings| == 0 then db
    else
      var last := firings[|firings| - 1];
      AfterSweep(last.cfg, last.input, AfterRun(firings[..|firings| - 1], db))
  }

  ghost function RunVisits(firings: seq<Firing>, db: Db): seq<Visit> {
    if |firings| == 0 then []
    else
      var front, last := firings[..|firings| - 1], firings[|firings| - 1];
      RunVisits(front, db) + SweepVisits(last.cfg, last.input, AfterRun(front, db))
  }

  lemma {:induction false} RunTracks(firings: seq<Firing>, db: Db)
    requires NamesDistinct(firings)
    ensures Tracks(db, RunVisits(firings, db), AfterRun(firings, db))
  {
    if |firings| == 0 {
      TracksNothing(db, db);
    } else {
      var front, last := firings[..|firings| - 1], firings[|firings| - 1];
      var mid := AfterRun(front, db);
      RunTracks(front, db);
      SweepTracks(last.cfg, last.input, mid);
      TracksCompose(db, RunVisits(front, db), mid, SweepVisits(last.cfg, last.input, mid),
                    AfterSweep(last.cfg, last.input, mid));
    }
  }

  /* ---- One sighting per key ---- */

  /** Every key is sighted at most once, and the sighted keys are exactly those admitted as sightings. */
  ghost predicate Ledger(db: Db) {
    && Distinct(SightingKeys(db.sightings))
    && (forall k :: k in SightingKeys(db.sightings)
          <==> k in db.identities && db.identities[k].via == Via.Sighting)
  }

  lemma SightingKeysSplit(db: Db, after: Db)
    requires db.sightings <= after.sightings
    ensures SightingKeys(after.sightings)
         == SightingKeys(db.sightings) + SightingKeys(after.sightings[|db.sightings|..])
  {
    assert after.sightings == db.sightings + after.sightings[|db.sightings|..];
  }

  lemma TracksKeepLedger(db: Db, visits: seq<Visit>, after: Db)
    requires Ledger(db) && Tracks(db, visits, after)
    ensures Ledger(after)
  {
    var have := db.identities.Keys;
    var before, added := SightingKeys(db.sightings), FreshKeys(visits, have);
    FreshKeysAreVisited(visits, have);
    SightingKeysSplit(db, after);
    assert SightingKeys(after.sightings) == before + added;
    forall i | 0 <= i < |before| ensures before[i] !in added {
      assert before[i] in before;
    }
    forall k ensures k in before + added <==> k in after.identities && after.identities[k].via == Via.Sighting {
      if k in added {
        assert k !in have && k in KeysOf(visits);
      }
    }
  }

  /** No run ever sights a key twice; a key first admitted silently is never sighted; admissions are final. */
  lemma OneSightingPerKey(firings: seq<Firing>, db: Db)
    requires NamesDistinct(firings) && Ledger(db)
    ensures var after := AfterRun(firings, db);
            && Ledger(after)
            && (forall k :: k in db.identities ==>
                  k in after.identities && after.identities[k].via == db.identities[k].via)
            && (forall k :: k in db.identities && db.identities[k].via == Via.Baseline ==>
                  k !in SightingKeys(after.sightings))
  {
    RunTracks(firings, db);
    TracksKeepLedger(db, RunVisits(firings, db), AfterRun(firings, db));
  }

  /* ---- Replay silence ---- */

  lemma {:induction false} NothingFresh(visits: seq<Visit>, have: set<string>)
    requires forall i :: 0 <= i < |visits| ==> visits[i].armed ==> visits[i].key in have
    ensures FreshKeys(visits, have) == []
  {
    if |visits| == 0 {
    } else {
      NothingFresh(visits[..|visits| - 1], have);
    }
  }

  /** After any run, further sweeps that only meet keys already processed, by whatever source and region,
      create no sighting: the sighting table stays exactly as it was. */
  lemma ReplaySilence(firings: seq<Firing>, later: seq<Firing>, db: Db)
    requires NamesDistinct(firings) && NamesDistinct(later)
    requires KeysOf(RunVisits(later, AfterRun(firings, db)))
          <= KeysOf(RunVisits(firings, db)) + db.identities.Keys
    ensures AfterRun(later, AfterRun(firings, db)).sightings == AfterRun(firings, db).sightings
  {
    var mid := AfterRun(firings, db);
    var visits, after := RunVisits(later, mid), AfterRun(later, mid);
    RunTracks(firings, db);
    RunTracks(later, mid);
    forall i | 0 <= i < |visits| ensures visits[i].key in mid.identities {
      assert visits[i].key in KeysOf(visits);
    }
    NothingFresh(visits, mid.identities.Keys);
    assert |SightingKeys(after.sightings[|mid.sightings|..])| == 0;
    assert after.sightings == mid.sightings + after.sightings[|mid.sightings|..];
  }

  /* ---- Only armed sources sight ---- */

  /** Rows were only added, all of them by this source, and none if it was not armed. */
  ghost predicate SightedBy(before: Db, after: Db, name: string, armed: bool) {
    && before.sightings <= after.sightings
    && (!armed ==> after.sightings == before.sightings)
    && forall i :: |before.sightings| <= i < |after.sightings| ==> after.sightings[i].source == name
  }

  lemma CandidateSights(cfg: Config, input: SweepInput, source: Source, armed: bool, p: Progress, c: Candidate)
    ensures SightedBy(p.db, CandidateStep(cfg, input, source, armed, p, c).db, source.name, armed)
  {
    if armed && Resolve(cfg, source, c).key !in p.db.identities {
      var sighted := JustSighted(cfg, input, source, p, c);
      AlertedIsLocal(cfg, input, sighted);
      var n := |p.db.sightings|;
      assert Alerted(cfg, input, sighted).db.sightings[..n] == sighted.db.sightings[..n] == p.db.sightings;
    }
  }

  lemma SightedByOn(a: Db, b: Db, c: Db, name: string, armed: bool)
    requires SightedBy(a, b, name, armed) && SightedBy(b, c, name, armed)
    ensures SightedBy(a, c, name, armed)
  {
    forall i | |a.sightings| <= i < |c.sightings| ensures c.sightings[i].source == name {
      assert i < |b.sightings| ==> b.sightings[i] == c.sightings[i];
    }
  }

  lemma {:induction false} CandidatesSight(cfg: Config, input: SweepInput, source: Source, armed: bool, p: Progress,
                                           cs: seq<Candidate>)
    ensures SightedBy(p.db, Candidates(cfg, input, source, armed, p, cs).db, source.name, armed)
  {
    hide CandidateStep;
    if |cs| == 0 {
    } else {
      var front := cs[..|cs| - 1];
      var mid := Candidates(cfg, input, source, armed, p, front);
      CandidatesSight(cfg, input, source, armed, p, front);
      CandidateSights(cfg, input, source, armed, mid, cs[|cs| - 1]);
      SightedByOn(p.db, mid.db, CandidateStep(cfg, input, source, armed, mid, cs[|cs| - 1]).db, source.name, armed);
    }
  }

  lemma SourceSights(cfg: Config, input: SweepInput, due: set<string>, o: Outcome, source: Source)
    requires source.name in o.progress.db.states
    ensures SightedBy(o.progress.db, SourceStep(cfg, input, due, o, source).progress.db, source.name,
                      Armed(o.progress.db, input, source))
  {
    hide Candidates;
    var p := o.progress;
    if source.name in due && input.poll(source.name).Polled? {
      var start, cs := p.(unseen := 0, suppressed := 0), input.poll(source.name).candidates;
      CandidatesKeepStates(cfg, input, source, Armed(p.db, input, source), start, cs);
      CandidatesSight(cfg, input, source, Armed(p.db, input, source), start, cs);
    }
  }

  /** The row's source was armed in `db`, and the sweep is no forced baseline. */
  predicate FromArmed(db: Db, input: SweepInput, row: SightingRow) {
    !input.forceBaseline && row.source in db.states && db.states[row.source].armedAt.Some?
  }

  ghost predicate AddedFromArmed(db: Db, input: SweepInput, before: Db, after: Db) {
    && before.sightings <= after.sightings
    && forall i :: |before.sightings| <= i < |after.sightings| ==> FromArmed(db, input, after.sightings[i])
  }

  lemma AddedOn(db: Db, input: SweepInput, a: Db, b: Db, c: Db)
    requires AddedFromArmed(db, input, a, b) && AddedFromArmed(db, input, b, c)
    ensures AddedFromArmed(db, input, a, c)
  {
  }

  lemma {:induction false} SourcesSight(cfg: Config, input: SweepInput, due: set<string>, o: Outcome,
                                        sources: seq<Source>)
    requires AllHaveState(o.progress.db, sources) && DistinctNames(sources)
    requires o.progress.known <= o.progress.db.identities.Keys
    ensures AddedFromArmed(o.progress.db, input, o.progress.db, Sources(cfg, input, due, o, sources).progress.db)
  {
    hide SourceStep;
    if |sources| == 0 {
    } else {
      var front, last := sources[..|sources| - 1], sources[|sources| - 1];
      var before := Sources(cfg, input, due, o, front);
      SourcesSight(cfg, input, due, o, front);
      SourcesTrack(cfg, input, due, o, front);
      assert last in sources;
      SourceSights(cfg, input, due, before, last);
      assert before.progress.db.states[last.name] == o.progress.db.states[last.name];
      AddedOn(o.progress.db, input, o.progress.db, before.progress.db,
              SourceStep(cfg, input, due, before, last).progress.db);
    }
  }

  lemma ForcedAddsNothing(db: Db, input: SweepInput, before: Db, after: Db)
    requires AddedFromArmed(db, input, before, after) && input.forceBaseline
    ensures after.sightings == before.sightings
  {
    var n := |before.sightings|;
    assert n < |after.sightings| ==> FromArmed(db, input, after.sightings[n]);
  }

  /** Whatever a sweep meets, it sights only for sources that were armed before it, and a forced baseline sights
      nothing: a new source stays silent in that sweep beside any number of armed ones. */
  lemma BaselineIsSilent(cfg: Config, input: SweepInput, db: Db)
    requires DistinctNames(cfg.registry)
    ensures AddedFromArmed(db, input, db, AfterSweep(cfg, input, db))
    ensures input.forceBaseline ==> AfterSweep(cfg, input, db).sightings == db.sightings
  {
    if !Refuses(cfg, input) {
      ChosenDistinct(cfg, input);
      var ready := WithStates(db, Chosen(cfg, input));
      NewStatesAreUnarmed(db, Chosen(cfg, input));
      SourcesSight(cfg, input, Due(cfg, input, ready), Begun(ready), Chosen(cfg, input));
      var after := AfterSweep(cfg, input, db);
      forall i | |db.sightings| <= i < |after.sightings| ensures FromArmed(db, input, after.sightings[i]) {
        assert FromArmed(ready, input, after.sightings[i]);
      }
      if input.forceBaseline {
        ForcedAddsNothing(db, input, db, after);
      }
    }
  }

  /** Over any run, under any configurations: every sighting added belongs to one sweep, before which its source was
      armed. */
  lemma {:induction false} SightingsFromArmed(firings: seq<Firing>, db: Db, i: nat) returns (k: nat)
    requires NamesDistinct(firings) && |db.sightings| <= i < |AfterRun(firings, db).sightings|
    ensures k < |firings|
    ensures |AfterRun(firings[..k], db).sightings| <= i < |AfterRun(firings[..k + 1], db).sightings|
    ensures FromArmed(AfterRun(firings[..k], db), firings[k].input, AfterRun(firings[..k + 1], db).sightings[i])
  {
    hide AfterSweep;
    var front, last := firings[..|firings| - 1], firings[|firings| - 1];
    if i < |AfterRun(front, db).sightings| {
      k := SightingsFromArmed(front, db, i);
      assert front[..k] == firings[..k] && front[..k + 1] == firings[..k + 1];
    } else {
      k := |front|;
      BaselineIsSilent(last.cfg, last.input, AfterRun(front, db));
      assert firings[..k + 1] == firings;
    }
  }

  lemma {:induction false} NewStatesAreUnarmed(db: Db, sources: seq<Source>)
    ensures forall n :: n in WithStates(db, sources).states && n !in db.states ==>
              WithStates(db, sources).states[n] == NEVER_POLLED
  {
    if |sources| == 0 {
    } else {
      NewStatesAreUnarmed(db, sources[..|sources| - 1]);
    }
  }

  /** A stock number met in one region keeps a second region silent when only the regional suffix differs. */
  lemma RegionalCopyIsSilent(cfg: Config, us: Source, uk: Source, r: string,
                                                c1: Candidate, c2: Candidate, input: SweepInput, p: Progress)
    requires us.manufacturer == uk.manufacturer
    requires |r| >= 2 && I.IsUnhyphenatedSku(r) && Text.IsDigit(r[|r| - 1])
    requires c1.reference == r && c2.reference == r + "UK"
    requires p.known <= p.db.identities.Keys && Resolve(cfg, us, c1).key in p.db.identities
    ensures CandidateStep(cfg, input, uk, true, p, c2).db.sightings == p.db.sightings
  {
    I.RegionalSuffixMerges(cfg.sha, us.manufacturer, r, c2.url, c1.url);
    I.IdentityAlwaysExists(cfg.sha, us.manufacturer, c1.reference, c1.url);
    I.IdentityAlwaysExists(cfg.sha, us.manufacturer, c2.reference, c2.url);
    assert Resolve(cfg, uk, c2).key == Resolve(cfg, us, c1).key;
  }

  /** A listing of the stock number `r`, plain or with the regional suffix. */
  predicate EitherForm(manufacturer: string, r: string, source: Source, c: Candidate) {
    source.manufacturer == manufacturer && (c.reference == r || c.reference == r + "UK")
  }

  /** Whatever the configuration, source and address, both forms resolve to one key. */
  lemma FormsShareKey(manufacturer: string, r: string, cfg: Config, source: Source, c: Candidate, sha: I.Url -> string,
                      u: I.Url)
    requires |r| >= 2 && I.IsUnhyphenatedSku(r) && Text.IsDigit(r[|r| - 1])
    requires EitherForm(manufacturer, r, source, c)
    ensures Resolve(cfg, source, c).key == I.Key(sha, manufacturer, r, u)
  {
    I.IdentityAlwaysExists(cfg.sha, manufacturer, c.reference, c.url);
    I.RegionalSuffixMerges(cfg.sha, manufacturer, r, c.url, c.url);
    I.SkuIsNotBlank(r);
    I.KeyIgnoresAddress(cfg.sha, sha, manufacturer, r, c.url, u);
  }

  /** The first visit to this key in the whole run. */
  ghost predicate FirstVisit(visits: seq<Visit>, n: int, key: string) {
    0 <= n < |visits| && visits[n].key == key && forall j :: 0 <= j < n ==> visits[j].key != key
  }

  /** The key is visited, and first for an armed source. */
  ghost predicate MetArmedFirst(visits: seq<Visit>, key: string) {
    exists n :: FirstVisit(visits, n, key) && visits[n].armed
  }

  /** Some row after the first `from` has the key. */
  ghost predicate SightedSince(rows: seq<SightingRow>, from: nat, key: string) {
    exists i :: from <= i < |rows| && rows[i].key == key
  }

  lemma {:induction false} FreshExactly(visits: seq<Visit>, have: set<string>, key: string)
    ensures key in FreshKeys(visits, have)
       <==> key !in have && MetArmedFirst(visits, key)
  {
    if |visits| == 0 {
    } else {
      var front, last := visits[..|visits| - 1], visits[|visits| - 1];
      FreshExactly(front, have, key);
      assert forall n :: 0 <= n < |front| ==> (FirstVisit(front, n, key) <==> FirstVisit(visits, n, key));
      assert FirstVisit(visits, |front|, key) <==> last.key == key && key !in KeysOf(front);
    }
  }

  /** A stock number and its regional form are one product over any run, whatever the sources, configurations and
      order: they have at most one sighting between them, and the run adds it exactly if neither was known before
      and the first listing it processes, of either form, comes from an armed source. */
  lemma EitherFormSightedOnce(firings: seq<Firing>, db: Db, manufacturer: string, r: string) returns (key: string)
    requires NamesDistinct(firings) && Ledger(db)
    requires |r| >= 2 && I.IsUnhyphenatedSku(r) && Text.IsDigit(r[|r| - 1])
    ensures forall cfg, source, c :: EitherForm(manufacturer, r, source, c) ==> Resolve(cfg, source, c).key == key
    ensures var rows, visits := AfterRun(firings, db).sightings, RunVisits(firings, db);
            && (forall i, j :: 0 <= i < |rows| && 0 <= j < |rows| && rows[i].key == rows[j].key == key ==> i == j)
            && (SightedSince(rows, |db.sightings|, key)
                <==> key !in db.identities && MetArmedFirst(visits, key))
  {
    var address := I.Url("", "", "", "", "");
    key := I.Key(u => "", manufacturer, r, address);
    forall cfg, source, c | EitherForm(manufacturer, r, source, c) ensures Resolve(cfg, source, c).key == key {
      FormsShareKey(manufacturer, r, cfg, source, c, u => "", address);
    }
    KeySightedOnce(firings, db, key);
  }

  lemma KeySightedOnce(firings: seq<Firing>, db: Db, key: string)
    requires NamesDistinct(firings) && Ledger(db)
    ensures var rows, visits := AfterRun(firings, db).sightings, RunVisits(firings, db);
            && (forall i, j :: 0 <= i < |rows| && 0 <= j < |rows| && rows[i].key == rows[j].key == key ==> i == j)
            && (SightedSince(rows, |db.sightings|, key)
                <==> key !in db.identities && MetArmedFirst(visits, key))
  {
    hide AfterRun, RunVisits, KeysTrack, MetArmedFirst, SightedSince;
    OneSightingPerKey(firings, db);
    RunTracks(firings, db);
    NewRowsFirstVisited(AfterRun(firings, db).sightings, |db.sightings|, RunVisits(firings, db), db.identities.Keys,
                        key);
  }

  lemma NewRowsFirstVisited(rows: seq<SightingRow>, from: nat, visits: seq<Visit>, have: set<string>, key: string)
    requires from <= |rows| && Distinct(SightingKeys(rows)) && SightingKeys(rows[from..]) == FreshKeys(visits, have)
    ensures forall i, j :: 0 <= i < |rows| && 0 <= j < |rows| && rows[i].key == rows[j].key == key ==> i == j
    ensures SightedSince(rows, from, key)
       <==> key !in have && MetArmedFirst(visits, key)
  {
    hide MetArmedFirst, SightedSince, FreshKeys, SightingKeys;
    FreshExactly(visits, have, key);
    AddedKeys(rows, from, key);
  }

  lemma AddedKeys(rows: seq<SightingRow>, from: nat, key: string)
    requires from <= |rows| && Distinct(SightingKeys(rows))
    ensures forall i, j :: 0 <= i < |rows| && 0 <= j < |rows| && rows[i].key == rows[j].key == key ==> i == j
    ensures key in SightingKeys(rows[from..]) <==> SightedSince(rows, from, key)
  {
    var keys, added := SightingKeys(rows), SightingKeys(rows[from..]);
    assert forall i :: 0 <= i < |rows| ==> keys[i] == rows[i].key;
    if key in added {
      var n :| 0 <= n < |added| && added[n] == key;
      assert rows[from + n].key == key;
    }
    forall i | from <= i < |rows| && rows[i].key == key ensures key in added {
      assert added[i - from] in added;
    }
  }

  /* ---- Alert states tell the truth ---- */

  predicate SaysSent(rows: seq<SightingRow>, id: nat) {
    1 <= id <= |rows| && rows[id - 1].alertState == AlertSent
  }

  /** A sighting is marked sent exactly when its receipt shows acceptance; no receipt runs ahead of its sighting. */
  ghost predicate AlertsTruthful(db: Db) {
    forall id: nat {:trigger SightingReceiptKey(id)} :: id >= 1 ==>
      (AlreadyDelivered(db.receipts, SightingReceiptKey(id)) <==> SaysSent(db.sightings, id))
  }

  /** As above, while the sighting `pending` still awaits its alert. */
  ghost predicate TruthfulBut(db: Db, pending: nat) {
    forall id: nat {:trigger SightingReceiptKey(id)} :: id >= 1 ==>
      (AlreadyDelivered(db.receipts, SightingReceiptKey(id)) <==> id != pending && SaysSent(db.sightings, id))
  }

  lemma SendSettles(db: Db, channel: Channel, now: int)
    requires |db.sightings| > 0 && TruthfulBut(db, |db.sightings|)
    ensures AlertsTruthful(AfterSend(db, |db.sightings|, channel, now))
  {
    var newest := |db.sightings|;
    var after := AfterSend(db, newest, channel, now);
    SendIsLocal(db, newest, channel, now);
    forall id: nat | id >= 1
      ensures AlreadyDelivered(after.receipts, SightingReceiptKey(id)) <==> SaysSent(after.sightings, id)
    {
      if id != newest {
        SendFrames(db, newest, channel, now, id);
        assert IsDelivered(after, id) == IsDelivered(db, id);
        if id < newest {
          assert after.sightings[id - 1] == after.sightings[..newest - 1][id - 1]
              == db.sightings[..newest - 1][id - 1];
        }
      } else {
        assert !IsDelivered(db, newest);
        SentMeansDelivered(db, newest, channel, now);
      }
    }
  }

  lemma SentMeansDelivered(db: Db, id: nat, channel: Channel, now: int)
    requires 1 <= id <= |db.sightings| && !IsDelivered(db, id)
    ensures var after := AfterSend(db, id, channel, now);
            IsDelivered(after, id) <==> after.sightings[id - 1].alertState == AlertSent
  {
  }

  lemma CapSettles(db: Db)
    requires |db.sightings| > 0 && TruthfulBut(db, |db.sightings|)
    ensures AlertsTruthful(SetAlert(db, |db.sightings|, AlertCapped, "sweep alert cap"))
  {
  }

  lemma CandidateKeepsTruth(cfg: Config, input: SweepInput, source: Source, armed: bool, p: Progress, c: Candidate)
    requires p.known <= p.db.identities.Keys && AlertsTruthful(p.db)
    ensures AlertsTruthful(CandidateStep(cfg, input, source, armed, p, c).db)
  {
    if armed && Resolve(cfg, source, c).key !in p.db.identities {
      var sighted := JustSighted(cfg, input, source, p, c);
      var db := sighted.db;
      assert forall i :: 0 <= i < |p.db.sightings| ==> db.sightings[i] == p.db.sightings[i];
      assert TruthfulBut(db, |db.sightings|);
      SendSettles(db, input.channel(|db.sightings|), input.now);
      CapSettles(db);
    }
  }

  lemma {:induction false} CandidatesKeepTruth(cfg: Config, input: SweepInput, source: Source, armed: bool, p: Progress,
                                               cs: seq<Candidate>)
    requires p.known <= p.db.identities.Keys && AlertsTruthful(p.db)
    ensures AlertsTruthful(Candidates(cfg, input, source, armed, p, cs).db)
  {
    if |cs| == 0 {
    } else {
      CandidatesKeepTruth(cfg, input, source, armed, p, cs[..|cs| - 1]);
      CandidatesTrack(cfg, input, source, armed, p, cs[..|cs| - 1]);
      CandidateKeepsTruth(cfg, input, source, armed, Candidates(cfg, input, source, armed, p, cs[..|cs| - 1]),
                          cs[|cs| - 1]);
    }
  }

  lemma SourceKeepsTruth(cfg: Config, input: SweepInput, due: set<string>, o: Outcome, source: Source)
    requires source.name in o.progress.db.states && o.progress.known <= o.progress.db.identities.Keys
    requires AlertsTruthful(o.progress.db)
    ensures AlertsTruthful(SourceStep(cfg, input, due, o, source).progress.db)
  {
    var p := o.progress;
    if source.name in due && input.poll(source.name).Polled? {
      CandidatesKeepTruth(cfg, input, source, Armed(p.db, input, source), p.(unseen := 0, suppressed := 0),
                          input.poll(source.name).candidates);
    }
  }

  lemma {:induction false} SourcesKeepTruth(cfg: Config, input: SweepInput, due: set<string>, o: Outcome,
                                            sources: seq<Source>)
    requires AllHaveState(o.progress.db, sources) && DistinctNames(sources)
    requires o.progress.known <= o.progress.db.identities.Keys && AlertsTruthful(o.progress.db)
    ensures AlertsTruthful(Sources(cfg, input, due, o, sources).progress.db)
  {
    if |sources| == 0 {
    } else {
      var front, last := sources[..|sources| - 1], sources[|sources| - 1];
      SourcesKeepTruth(cfg, input, due, o, front);
      SourcesTrack(cfg, input, due, o, front);
      assert last in sources;
      SourceKeepsTruth(cfg, input, due, Sources(cfg, input, due, o, front), last);
    }
  }

  /** Over any run, "sent" on a sighting means an accepted receipt for that sighting, and conversely. */
  lemma {:induction false} AlertsStayTruthful(firings: seq<Firing>, db: Db)
    requires NamesDistinct(firings) && AlertsTruthful(db)
    ensures AlertsTruthful(AfterRun(firings, db))
  {
    if |firings| == 0 {
    } else {
      var front, last := firings[..|firings| - 1], firings[|firings| - 1];
      AlertsStayTruthful(front, db);
      var mid := AfterRun(front, db);
      if !Refuses(last.cfg, last.input) {
        ChosenDistinct(last.cfg, last.input);
        var ready := WithStates(mid, Chosen(last.cfg, last.input));
        assert AlertsTruthful(ready);
        SourcesKeepTruth(last.cfg, last.input, Due(last.cfg, last.input, ready), Begun(ready),
                         Chosen(last.cfg, last.input));
      }
    }
  }
}
