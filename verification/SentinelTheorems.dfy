/** What sweeps and whole runs of sweeps keep: who is sighted, replay silence, truthful alert states. */
module SentinelTheorems {
  import opened Common
  import opened Database
  import opened Delivery
  import opened Receipts
  import opened Alerting
  import opened SentinelStore
  import opened SentinelRunner

  /* ---- Who is sighted ---- */

  /** One processed candidate: its key, whether its source alerts rather than silently records, and what was seen. */
  datatype Visit = Visit(key: string, armed: bool, source: string, title: string, reference: string, at: int)

  function KeysOf(visits: seq<Visit>): set<string> {
    set i | 0 <= i < |visits| :: visits[i].key
  }

  /** The reference definition of novelty: a visit is sighted when its source is armed and its key is neither
      known at the start nor the key of an earlier visit, from whatever source. */
  function FreshKeys(visits: seq<Visit>, have: set<string>): seq<string> {
    if |visits| == 0 then []
    else
      var front, last := visits[..|visits| - 1], visits[|visits| - 1];
      FreshKeys(front, have)
      + (if last.armed && last.key !in have && last.key !in KeysOf(front) then [last.key] else [])
  }

  function SightingKeys(rows: seq<SightingRow>): seq<string> {
    seq(|rows|, i requires 0 <= i < |rows| => rows[i].key)
  }

  /** The sightings added are exactly the fresh keys, in order, and earlier rows are untouched. */
  ghost predicate RowsTrack(db: Db, visits: seq<Visit>, after: Db) {
    && db.sightings <= after.sightings
    && SightingKeys(after.sightings[|db.sightings|..]) == FreshKeys(visits, db.identities.Keys)
  }

  /** Every visited key is known afterwards; how a key was admitted never changes, and a new one counts as
      sighted exactly when it was fresh. */
  ghost predicate KeysTrack(db: Db, visits: seq<Visit>, after: Db) {
    && after.identities.Keys == db.identities.Keys + KeysOf(visits)
    && (forall k :: k in db.identities ==> after.identities[k].via == db.identities[k].via)
    && (forall k :: k in after.identities && k !in db.identities ==>
          (after.identities[k].via == Via.Sighting <==> k in FreshKeys(visits, db.identities.Keys)))
  }

  /** The fresh visits themselves, in order. */
  function FreshVisits(visits: seq<Visit>, have: set<string>): seq<Visit> {
    if |visits| == 0 then []
    else
      var front, last := visits[..|visits| - 1], visits[|visits| - 1];
      FreshVisits(front, have)
      + (if last.armed && last.key !in have && last.key !in KeysOf(front) then [last] else [])
  }

  /** What a sighting row says was seen; its alert fields are settled elsewhere. */
  function SeenBy(row: SightingRow): Visit {
    Visit(row.key, true, row.source, row.title, row.reference, row.detectedAt)
  }

  function Sights(rows: seq<SightingRow>): seq<Visit> {
    seq(|rows|, i requires 0 <= i < |rows| => SeenBy(rows[i]))
  }

  /** The first visit to a key. */
  function FirstOf(visits: seq<Visit>, key: string): Option<Visit> {
    if |visits| == 0 then None
    else
      var front, last := visits[..|visits| - 1], visits[|visits| - 1];
      if FirstOf(front, key).Some? then FirstOf(front, key) else if last.key == key then Some(last) else None
  }

  /** The origin of a row: what was resolved, by which source, and when. */
  predicate SameOrigin(a: IdentityRow, b: IdentityRow) {
    a.canonical == b.canonical && a.firstSource == b.firstSource && a.firstSeenAt == b.firstSeenAt
  }

  predicate OriginIs(row: IdentityRow, v: Visit) {
    row.canonical == v.reference && row.firstSource == v.source && row.firstSeenAt == v.at
  }

  /** The rows say what was seen: each added sighting is its fresh visit with source, title, reference and time, and
      each new identity has the origin of the first visit to its key. */
  ghost predicate ContentTracks(db: Db, visits: seq<Visit>, after: Db) {
    && |after.sightings| >= |db.sightings|
    && Sights(after.sightings[|db.sightings|..]) == FreshVisits(visits, db.identities.Keys)
    && (forall k {:trigger k in after.identities} :: k in after.identities ==> OriginTracked(db, visits, after, k))
  }

  ghost predicate OriginTracked(db: Db, visits: seq<Visit>, after: Db, key: string)
    requires key in after.identities
  {
    if key in db.identities then SameOrigin(after.identities[key], db.identities[key])
    else FirstOf(visits, key).Some? && OriginIs(after.identities[key], FirstOf(visits, key).value)
  }

  /** `after` is what the visits must have made of `db`. */
  ghost predicate Tracks(db: Db, visits: seq<Visit>, after: Db) {
    RowsTrack(db, visits, after) && KeysTrack(db, visits, after) && ContentTracks(db, visits, after)
  }

  lemma KeysOfConcat(v: seq<Visit>, w: seq<Visit>)
    ensures KeysOf(v + w) == KeysOf(v) + KeysOf(w)
  {
    forall k | k in KeysOf(v) + KeysOf(w) ensures k in KeysOf(v + w) {
      if k in KeysOf(v) {
        var i :| 0 <= i < |v| && v[i].key == k;
        assert (v + w)[i].key == k;
      } else {
        var i :| 0 <= i < |w| && w[i].key == k;
        assert (v + w)[|v| + i].key == k;
      }
    }
  }

  lemma {:induction false} FreshKeysConcat(v: seq<Visit>, w: seq<Visit>, have: set<string>)
    ensures FreshKeys(v + w, have) == FreshKeys(v, have) + FreshKeys(w, have + KeysOf(v))
  {
    if |w| == 0 {
      assert v + w == v;
    } else {
      var front, last := w[..|w| - 1], w[|w| - 1];
      assert (v + w)[..|v + w| - 1] == v + front;
      FreshKeysConcat(v, front, have);
      KeysOfConcat(v, front);
    }
  }

  lemma {:induction false} FreshKeysAreVisited(v: seq<Visit>, have: set<string>)
    ensures forall k :: k in FreshKeys(v, have) ==> k in KeysOf(v) && k !in have
    ensures Distinct(FreshKeys(v, have))
  {
    if |v| == 0 {
    } else {
      var front, last := v[..|v| - 1], v[|v| - 1];
      FreshKeysAreVisited(front, have);
      assert v == front + [last];
      KeysOfConcat(front, [last]);
      assert [last][0].key in KeysOf([last]);
    }
  }

  lemma KeysCompose(a: Db, v: seq<Visit>, b: Db, w: seq<Visit>, c: Db)
    requires KeysTrack(a, v, b) && KeysTrack(b, w, c)
    ensures KeysTrack(a, v + w, c)
  {
    KeysOfConcat(v, w);
    FreshKeysConcat(v, w, a.identities.Keys);
    FreshKeysAreVisited(v, a.identities.Keys);
    FreshKeysAreVisited(w, b.identities.Keys);
    forall k | k in c.identities && k !in a.identities
      ensures c.identities[k].via == Via.Sighting <==> k in FreshKeys(v + w, a.identities.Keys)
    {
      if k in b.identities {
        assert k !in FreshKeys(w, b.identities.Keys);
      } else {
        assert k !in FreshKeys(v, a.identities.Keys);
      }
    }
  }

  lemma RowsCompose(a: Db, v: seq<Visit>, b: Db, w: seq<Visit>, c: Db)
    requires RowsTrack(a, v, b) && RowsTrack(b, w, c) && b.identities.Keys == a.identities.Keys + KeysOf(v)
    ensures RowsTrack(a, v + w, c)
  {
    FreshKeysConcat(v, w, a.identities.Keys);
    var n, m := |a.sightings|, |b.sightings|;
    assert c.sightings[n..] == b.sightings[n..] + c.sightings[m..];
    assert SightingKeys(c.sightings[n..]) == SightingKeys(b.sightings[n..]) + SightingKeys(c.sightings[m..]);
  }

  lemma {:induction false} FreshVisitsConcat(v: seq<Visit>, w: seq<Visit>, have: set<string>)
    ensures FreshVisits(v + w, have) == FreshVisits(v, have) + FreshVisits(w, have + KeysOf(v))
  {
    if |w| == 0 {
      assert v + w == v;
    } else {
      var front, last := w[..|w| - 1], w[|w| - 1];
      assert (v + w)[..|v + w| - 1] == v + front;
      FreshVisitsConcat(v, front, have);
      KeysOfConcat(v, front);
    }
  }

  lemma {:induction false} FirstOfConcat(v: seq<Visit>, w: seq<Visit>, key: string)
    ensures FirstOf(v + w, key) == if FirstOf(v, key).Some? then FirstOf(v, key) else FirstOf(w, key)
  {
    if |w| == 0 {
      assert v + w == v;
    } else {
      assert (v + w)[..|v + w| - 1] == v + w[..|w| - 1];
      FirstOfConcat(v, w[..|w| - 1], key);
    }
  }

  lemma {:induction false} FirstOfExactly(v: seq<Visit>, key: string)
    ensures FirstOf(v, key).Some? <==> key in KeysOf(v)
    ensures FirstOf(v, key).Some? ==>
              exists n :: 0 <= n < |v| && FirstOf(v, key).value == v[n] && v[n].key == key
                          && forall j :: 0 <= j < n ==> v[j].key != key
  {
    if |v| == 0 {
    } else {
      var front, last := v[..|v| - 1], v[|v| - 1];
      FirstOfExactly(front, key);
      assert v == front + [last];
      KeysOfConcat(front, [last]);
      assert KeysOf([last]) == {last.key} by {
        assert [last][0] == last;
      }
      if FirstOf(front, key).Some? {
        var n :| 0 <= n < |front| && FirstOf(front, key).value == front[n] && front[n].key == key
                 && forall j :: 0 <= j < n ==> front[j].key != key;
        assert v[n] == front[n];
      } else {
        forall j | 0 <= j < |front| ensures v[j].key != key {
          assert front[j].key in KeysOf(front);
        }
      }
    }
  }

  lemma ContentCompose(a: Db, v: seq<Visit>, b: Db, w: seq<Visit>, c: Db)
    requires ContentTracks(a, v, b) && ContentTracks(b, w, c) && b.sightings <= c.sightings
    requires b.identities.Keys == a.identities.Keys + KeysOf(v)
    ensures ContentTracks(a, v + w, c)
  {
    FreshVisitsConcat(v, w, a.identities.Keys);
    var n, m := |a.sightings|, |b.sightings|;
    assert c.sightings[n..] == b.sightings[n..] + c.sightings[m..];
    assert Sights(c.sightings[n..]) == Sights(b.sightings[n..]) + Sights(c.sightings[m..]);
    forall k | k in c.identities ensures OriginTracked(a, v + w, c, k) {
      FirstOfConcat(v, w, k);
      assert OriginTracked(b, w, c, k);
      if k in b.identities {
        assert OriginTracked(a, v, b, k);
      } else {
        FirstOfExactly(v, k);
      }
    }
  }

  lemma TracksCompose(a: Db, v: seq<Visit>, b: Db, w: seq<Visit>, c: Db)
    requires Tracks(a, v, b) && Tracks(b, w, c)
    ensures Tracks(a, v + w, c)
  {
    KeysCompose(a, v, b, w, c);
    RowsCompose(a, v, b, w, c);
    ContentCompose(a, v, b, w, c);
  }

  lemma TracksNothing(a: Db, b: Db)
    requires a.identities == b.identities && a.sightings == b.sightings
    ensures Tracks(a, [], b)
  {
  }

  function VisitOf(cfg: Config, source: Source, armed: bool, c: Candidate, now: int): Visit {
    Visit(Resolve(cfg, source, c).key, armed, source.name, c.title, Resolve(cfg, source, c).canonical, now)
  }

  function VisitsOf(cfg: Config, source: Source, armed: bool, cs: seq<Candidate>, now: int): seq<Visit> {
    seq(|cs|, i requires 0 <= i < |cs| => VisitOf(cfg, source, armed, cs[i], now))
  }

  lemma FreshCandidateTracks(cfg: Config, input: SweepInput, source: Source, p: Progress, c: Candidate)
    requires p.known <= p.db.identities.Keys && Resolve(cfg, source, c).key !in p.db.identities
    ensures var q := CandidateStep(cfg, input, source, true, p, c);
            q.known <= q.db.identities.Keys && Tracks(p.db, [VisitOf(cfg, source, true, c, input.now)], q.db)
  {
    var v := VisitOf(cfg, source, true, c, input.now);
    var sighted := JustSighted(cfg, input, source, p, c);
    var q := Alerted(cfg, input, sighted);
    assert CandidateStep(cfg, input, source, true, p, c) == q;
    AlertedIsLocal(cfg, input, sighted);
    SingleVisit(v, p.db.identities.Keys);
    var n := |p.db.sightings|;
    assert sighted.db.sightings[..n] == p.db.sightings && q.db.sightings[..n] == sighted.db.sightings[..n];
    assert SightingKeys(q.db.sightings[n..]) == [v.key] && Sights(q.db.sightings[n..]) == [v];
  }

  lemma SingleVisit(v: Visit, have: set<string>)
    ensures KeysOf([v]) == {v.key}
    ensures FreshKeys([v], have) == if v.armed && v.key !in have then [v.key] else []
    ensures FreshVisits([v], have) == if v.armed && v.key !in have then [v] else []
    ensures FirstOf([v], v.key) == Some(v)
  {
    assert [v][0].key == v.key && [v][..0] == [];
  }

  /** A visit that sights nothing: the key was known, or it is recorded silently. */
  lemma QuietTracks(db: Db, v: Visit, after: Db)
    requires after.sightings == db.sightings && after.identities.Keys == db.identities.Keys + {v.key}
    requires forall k :: k in db.identities ==>
               after.identities[k].via == db.identities[k].via && SameOrigin(after.identities[k], db.identities[k])
    requires v.key !in db.identities ==>
               !v.armed && OriginIs(after.identities[v.key], v) && after.identities[v.key].via == Via.Baseline
    ensures Tracks(db, [v], after)
  {
    SingleVisit(v, db.identities.Keys);
    assert after.sightings[|db.sightings|..] == [];
    hide FreshKeys, FreshVisits, FirstOf, KeysOf;
    assert |Sights([])| == 0 && |SightingKeys([])| == 0;
  }

  lemma CandidateTracks(cfg: Config, input: SweepInput, source: Source, armed: bool, p: Progress, c: Candidate)
    requires p.known <= p.db.identities.Keys
    ensures var q := CandidateStep(cfg, input, source, armed, p, c);
            q.known <= q.db.identities.Keys && Tracks(p.db, [VisitOf(cfg, source, armed, c, input.now)], q.db)
  {
    hide Alerted, JustSighted, Tracks, Resolve;
    if armed && Resolve(cfg, source, c).key !in p.db.identities {
      FreshCandidateTracks(cfg, input, source, p, c);
    } else {
      QuietTracks(p.db, VisitOf(cfg, source, armed, c, input.now),
                  CandidateStep(cfg, input, source, armed, p, c).db);
    }
  }

  lemma VisitsSnoc(cfg: Config, source: Source, armed: bool, cs: seq<Candidate>, now: int)
    requires |cs| > 0
    ensures VisitsOf(cfg, source, armed, cs, now)
         == VisitsOf(cfg, source, armed, cs[..|cs| - 1], now) + [VisitOf(cfg, source, armed, cs[|cs| - 1], now)]
  {
  }

  /** One more candidate extends what has been tracked so far. */
  lemma TrackOneMore(cfg: Config, input: SweepInput, source: Source, armed: bool, db: Db, visits: seq<Visit>,
                     mid: Progress, c: Candidate)
    requires mid.known <= mid.db.identities.Keys && Tracks(db, visits, mid.db)
    ensures var q := CandidateStep(cfg, input, source, armed, mid, c);
            q.known <= q.db.identities.Keys && Tracks(db, visits + [VisitOf(cfg, source, armed, c, input.now)], q.db)
  {
    CandidateTracks(cfg, input, source, armed, mid, c);
    TracksCompose(db, visits, mid.db, [VisitOf(cfg, source, armed, c, input.now)],
                  CandidateStep(cfg, input, source, armed, mid, c).db);
  }

  lemma {:induction false} CandidatesTrack(cfg: Config, input: SweepInput, source: Source, armed: bool, p: Progress,
                                           cs: seq<Candidate>)
    requires p.known <= p.db.identities.Keys
    ensures var q := Candidates(cfg, input, source, armed, p, cs);
            q.known <= q.db.identities.Keys && Tracks(p.db, VisitsOf(cfg, source, armed, cs, input.now), q.db)
  {
    if |cs| == 0 {
      TracksNothing(p.db, p.db);
    } else {
      var front, last := cs[..|cs| - 1], cs[|cs| - 1];
      CandidatesTrack(cfg, input, source, armed, p, front);
      TrackOneMore(cfg, input, source, armed, p.db, VisitsOf(cfg, source, armed, front, input.now),
                   Candidates(cfg, input, source, armed, p, front), last);
      VisitsSnoc(cfg, source, armed, cs, input.now);
    }
  }

  /** The candidates that a sweep processes for one source: none unless it is due and polled without refusal. */
  function SourceVisits(cfg: Config, input: SweepInput, due: set<string>, db: Db, source: Source): seq<Visit>
    requires source.name in db.states
  {
    if source.name !in due then []
    else match input.poll(source.name) {
      case PollRaised(_) => []
      case Polled(status, cs) =>
        if status == PollFailed || status == PollBlocked then []
        else VisitsOf(cfg, source, Armed(db, input, source), cs, input.now)
    }
  }

  function AllVisits(cfg: Config, input: SweepInput, due: set<string>, db: Db, sources: seq<Source>): seq<Visit>
    requires forall s :: s in sources ==> s.name in db.states
  {
    if |sources| == 0 then []
    else AllVisits(cfg, input, due, db, sources[..|sources| - 1])
         + SourceVisits(cfg, input, due, db, sources[|sources| - 1])
  }

  /** What processing one source makes of the progress before it. */
  ghost predicate SourceTracked(cfg: Config, input: SweepInput, due: set<string>, p: Progress, source: Source,
                                after: Progress)
    requires source.name in p.db.states
  {
    && after.known <= after.db.identities.Keys
    && Tracks(p.db, SourceVisits(cfg, input, due, p.db, source), after.db)
    && (forall n :: n in p.db.states && n != source.name ==>
          n in after.db.states && after.db.states[n] == p.db.states[n])
  }

  lemma SourceTracks(cfg: Config, input: SweepInput, due: set<string>, o: Outcome, source: Source)
    requires source.name in o.progress.db.states && o.progress.known <= o.progress.db.identities.Keys
    ensures SourceTracked(cfg, input, due, o.progress, source, SourceStep(cfg, input, due, o, source).progress)
  {
    hide Candidates, VisitsOf, Armed;
    var p := o.progress;
    var after := SourceStep(cfg, input, due, o, source).progress;
    if source.name in due && input.poll(source.name).Polled?
       && input.poll(source.name).status !in {PollFailed, PollBlocked} {
      var cs, armed := input.poll(source.name).candidates, Armed(p.db, input, source);
      var p0 := p.(unseen := 0, suppressed := 0);
      var done := Candidates(cfg, input, source, armed, p0, cs);
      CandidatesTrack(cfg, input, source, armed, p0, cs);
      CandidatesKeepStates(cfg, input, source, armed, p0, cs);
      TracksNothing(done.db, after.db);
      TracksCompose(p.db, VisitsOf(cfg, source, armed, cs, input.now), done.db, [], after.db);
      assert VisitsOf(cfg, source, armed, cs, input.now) + [] == VisitsOf(cfg, source, armed, cs, input.now);
    } else {
      TracksNothing(p.db, after.db);
    }
  }

  ghost predicate DistinctNames(sources: seq<Source>) {
    forall i, j :: 0 <= i < j < |sources| ==> sources[i].name != sources[j].name
  }

  /** What the sources processed so far made of the start, with the state rows of all others untouched. */
  ghost predicate SourcesTracked(cfg: Config, input: SweepInput, due: set<string>, db: Db, sources: seq<Source>,
                                 after: Progress)
    requires AllHaveState(db, sources)
  {
    && after.known <= after.db.identities.Keys
    && Tracks(db, AllVisits(cfg, input, due, db, sources), after.db)
    && (forall n :: n in db.states && (forall s :: s in sources ==> s.name != n) ==>
          n in after.db.states && after.db.states[n] == db.states[n])
  }

  lemma TrackOneMoreSource(cfg: Config, input: SweepInput, due: set<string>, db: Db, sources: seq<Source>,
                           p: Progress, after: Progress)
    requires |sources| > 0 && AllHaveState(db, sources) && DistinctNames(sources)
    requires SourcesTracked(cfg, input, due, db, sources[..|sources| - 1], p)
    requires sources[|sources| - 1].name in p.db.states
    requires SourceTracked(cfg, input, due, p, sources[|sources| - 1], after)
    ensures SourcesTracked(cfg, input, due, db, sources, after)
  {
    hide Tracks, VisitsOf;
    var front, last := sources[..|sources| - 1], sources[|sources| - 1];
    assert sources == front + [last] && last in sources;
    assert p.db.states[last.name] == db.states[last.name];
    TracksCompose(db, AllVisits(cfg, input, due, db, front), p.db, SourceVisits(cfg, input, due, db, last), after.db);
  }

  lemma {:induction false} SourcesTrack(cfg: Config, input: SweepInput, due: set<string>, o: Outcome,
                                        sources: seq<Source>)
    requires AllHaveState(o.progress.db, sources) && DistinctNames(sources)
    requires o.progress.known <= o.progress.db.identities.Keys
    ensures SourcesTracked(cfg, input, due, o.progress.db, sources, Sources(cfg, input, due, o, sources).progress)
  {
    if |sources| == 0 {
      TracksNothing(o.progress.db, o.progress.db);
    } else {
      var front := sources[..|sources| - 1];
      SourcesTrack(cfg, input, due, o, front);
      assert sources[|sources| - 1] in sources;
      var before := Sources(cfg, input, due, o, front);
      SourceTracks(cfg, input, due, before, sources[|sources| - 1]);
      TrackOneMoreSource(cfg, input, due, o.progress.db, sources, before.progress,
                         Sources(cfg, input, due, o, sources).progress);
    }
  }
}
