/** What becomes of a stored identity row over whole runs: its titles, its origin and its last-seen times. */
module SentinelSeen {
  import opened Common
  import opened Database
  import opened SentinelStore
  import opened SentinelRunner
  import opened SentinelTheorems
  import opened SentinelRuns

  /** The first title among the visits to a key that is not empty. */
  function FirstTitle(visits: seq<Visit>, key: string): string {
    if |visits| == 0 then ""
    else
      var before, last := FirstTitle(visits[..|visits| - 1], key), visits[|visits| - 1];
      if before != "" then before else if last.key == key then last.title else ""
  }

  /** The last visit to a key. */
  function LastOf(visits: seq<Visit>, key: string): Option<Visit> {
    if |visits| == 0 then None
    else if visits[|visits| - 1].key == key then Some(visits[|visits| - 1])
    else LastOf(visits[..|visits| - 1], key)
  }

  /** Which visit is noted where several come at one time: the first, unless the threshold lets every one write. */
  function NotedOf(visits: seq<Visit>, key: string, refreshAfter: int): Option<Visit> {
    if refreshAfter > 0 then FirstOf(visits, key) else LastOf(visits, key)
  }

  /** What the visits of one sweep make of a stored row: it adopts a title exactly if it had none, the first one
      offered; it is noted as seen, at the time of the sweep, exactly if it was visited and the threshold has passed;
      and nothing else changes. */
  ghost predicate RowGoes(a: IdentityRow, b: IdentityRow, visits: seq<Visit>, key: string, now: int, refreshAfter: int)
  {
    && b == a.(title := b.title, lastSeenAt := b.lastSeenAt, lastSeenSource := b.lastSeenSource)
    && b.title == (if a.title != "" then a.title else FirstTitle(visits, key))
    && if key in KeysOf(visits) && now - a.lastSeenAt >= refreshAfter
       then b.lastSeenAt == now && NotedOf(visits, key, refreshAfter).Some?
            && b.lastSeenSource == NotedOf(visits, key, refreshAfter).value.source
       else b.lastSeenAt == a.lastSeenAt && b.lastSeenSource == a.lastSeenSource
  }

  ghost predicate RowsGo(have: set<string>, before: Db, after: Db, visits: seq<Visit>, now: int, refreshAfter: int) {
    forall key {:trigger key in have} :: key in have ==>
      && key in before.identities && key in after.identities
      && RowGoes(before.identities[key], after.identities[key], visits, key, now, refreshAfter)
  }

  lemma {:induction false} LastOfConcat(v: seq<Visit>, w: seq<Visit>, key: string)
    ensures LastOf(v + w, key) == if LastOf(w, key).Some? then LastOf(w, key) else LastOf(v, key)
    ensures FirstTitle(v + w, key) == if FirstTitle(v, key) != "" then FirstTitle(v, key) else FirstTitle(w, key)
    ensures LastOf(w, key).Some? <==> key in KeysOf(w)
  {
    if |w| == 0 {
      assert v + w == v;
    } else {
      var front, last := w[..|w| - 1], w[|w| - 1];
      assert (v + w)[..|v + w| - 1] == v + front && w == front + [last];
      LastOfConcat(v, front, key);
      KeysOfConcat(front, [last]);
      SingleVisit(last, {});
    }
  }

  lemma RowGoesOn(a: IdentityRow, v: seq<Visit>, b: IdentityRow, w: seq<Visit>, c: IdentityRow, key: string, now: int,
                  refreshAfter: int)
    requires RowGoes(a, b, v, key, now, refreshAfter) && RowGoes(b, c, w, key, now, refreshAfter)
    ensures RowGoes(a, c, v + w, key, now, refreshAfter)
  {
    LastOfConcat(v, w, key);
    FirstOfConcat(v, w, key);
    FirstOfExactly(v, key);
    FirstOfExactly(w, key);
    KeysOfConcat(v, w);
    LastOfConcat([], v, key);
    hide FirstOf, LastOf, FirstTitle, KeysOf;
  }

  lemma RowsGoOn(have: set<string>, a: Db, v: seq<Visit>, b: Db, w: seq<Visit>, c: Db, now: int, refreshAfter: int)
    requires RowsGo(have, a, b, v, now, refreshAfter) && RowsGo(have, b, c, w, now, refreshAfter)
    ensures RowsGo(have, a, c, v + w, now, refreshAfter)
  {
    forall key | key in have
      ensures key in a.identities && key in c.identities
      ensures RowGoes(a.identities[key], c.identities[key], v + w, key, now, refreshAfter)
    {
      RowGoesOn(a.identities[key], v, b.identities[key], w, c.identities[key], key, now, refreshAfter);
    }
  }

  lemma RowsRest(have: set<string>, before: Db, after: Db, now: int, refreshAfter: int)
    requires after.identities == before.identities && have <= before.identities.Keys
    ensures RowsGo(have, before, after, [], now, refreshAfter)
  {
  }

  lemma VisitGoes(a: IdentityRow, v: Visit, key: string, source: string, title: string, now: int, refreshAfter: int)
    requires v.source == source && v.title == title
    ensures RowGoes(a, if v.key == key then Refreshed(a, source, title, now, refreshAfter) else a, [v], key, now,
                    refreshAfter)
  {
    SingleVisit(v, {});
    assert [v][..0] == [] && FirstTitle([], key) == "";
  }

  lemma CandidateRows(cfg: Config, input: SweepInput, source: Source, armed: bool, p: Progress, c: Candidate,
                      have: set<string>)
    requires have <= p.known && have <= p.db.identities.Keys
    ensures var q := CandidateStep(cfg, input, source, armed, p, c);
            && have <= q.known && have <= q.db.identities.Keys
            && RowsGo(have, p.db, q.db, [VisitOf(cfg, source, armed, c, input.now)], input.now, cfg.refreshAfter)
  {
    var q, v := CandidateStep(cfg, input, source, armed, p, c), VisitOf(cfg, source, armed, c, input.now);
    if armed && v.key !in p.db.identities {
      AlertedIsLocal(cfg, input, JustSighted(cfg, input, source, p, c));
    }
    forall key | key in have
      ensures key in q.db.identities
      ensures RowGoes(p.db.identities[key], q.db.identities[key], [v], key, input.now, cfg.refreshAfter)
    {
      VisitGoes(p.db.identities[key], v, key, source.name, c.title, input.now, cfg.refreshAfter);
      hide Alerted, RowGoes;
    }
  }

  lemma {:induction false} CandidatesRows(cfg: Config, input: SweepInput, source: Source, armed: bool, p: Progress,
                                          cs: seq<Candidate>, have: set<string>)
    requires have <= p.known && have <= p.db.identities.Keys
    ensures var q := Candidates(cfg, input, source, armed, p, cs);
            && have <= q.known && have <= q.db.identities.Keys
            && RowsGo(have, p.db, q.db, VisitsOf(cfg, source, armed, cs, input.now), input.now, cfg.refreshAfter)
  {
    hide CandidateStep, RowsGo;
    if |cs| == 0 {
      RowsRest(have, p.db, p.db, input.now, cfg.refreshAfter);
      assert VisitsOf(cfg, source, armed, cs, input.now) == [];
    } else {
      var front, last := cs[..|cs| - 1], cs[|cs| - 1];
      var mid := Candidates(cfg, input, source, armed, p, front);
      CandidatesRows(cfg, input, source, armed, p, front, have);
      CandidateRows(cfg, input, source, armed, mid, last, have);
      RowsGoOn(have, p.db, VisitsOf(cfg, source, armed, front, input.now), mid.db,
               [VisitOf(cfg, source, armed, last, input.now)],
               CandidateStep(cfg, input, source, armed, mid, last).db, input.now, cfg.refreshAfter);
      VisitsSnoc(cfg, source, armed, cs, input.now);
    }
  }

  lemma SourceRows(cfg: Config, input: SweepInput, due: set<string>, o: Outcome, source: Source, have: set<string>)
    requires source.name in o.progress.db.states
    requires have <= o.progress.known && have <= o.progress.db.identities.Keys
    ensures var q := SourceStep(cfg, input, due, o, source).progress;
            && have <= q.known && have <= q.db.identities.Keys
            && RowsGo(have, o.progress.db, q.db, SourceVisits(cfg, input, due, o.progress.db, source), input.now,
                      cfg.refreshAfter)
  {
    hide Candidates, RowsGo, VisitsOf;
    var p, after := o.progress, SourceStep(cfg, input, due, o, source).progress;
    if source.name in due && input.poll(source.name).Polled?
       && input.poll(source.name).status !in {PollFailed, PollBlocked} {
      var start, cs := p.(unseen := 0, suppressed := 0), input.poll(source.name).candidates;
      var armed := Armed(p.db, input, source);
      var visits, done := VisitsOf(cfg, source, armed, cs, input.now), Candidates(cfg, input, source, armed, start, cs);
      CandidatesKeepStates(cfg, input, source, armed, start, cs);
      CandidatesRows(cfg, input, source, armed, start, cs, have);
      RowsRest(have, done.db, after.db, input.now, cfg.refreshAfter);
      RowsGoOn(have, p.db, visits, done.db, [], after.db, input.now, cfg.refreshAfter);
      assert visits + [] == visits;
    } else {
      RowsRest(have, p.db, after.db, input.now, cfg.refreshAfter);
    }
  }

  lemma {:induction false} SourcesRows(cfg: Config, input: SweepInput, due: set<string>, o: Outcome,
                                       sources: seq<Source>, have: set<string>) returns (visits: seq<Visit>)
    requires AllHaveState(o.progress.db, sources)
    requires have <= o.progress.known <= o.progress.db.identities.Keys
    ensures var q := Sources(cfg, input, due, o, sources).progress;
            && have <= q.known && have <= q.db.identities.Keys
            && RowsGo(have, o.progress.db, q.db, visits, input.now, cfg.refreshAfter)
    ensures DistinctNames(sources) ==> visits == AllVisits(cfg, input, due, o.progress.db, sources)
  {
    hide SourceStep, RowsGo, SourceVisits, Tracks;
    if |sources| == 0 {
      RowsRest(have, o.progress.db, o.progress.db, input.now, cfg.refreshAfter);
      visits := [];
    } else {
      var front, last := sources[..|sources| - 1], sources[|sources| - 1];
      var before := Sources(cfg, input, due, o, front);
      var earlier := SourcesRows(cfg, input, due, o, front, have);
      assert last in sources;
      SourceRows(cfg, input, due, before, last, have);
      var own := SourceVisits(cfg, input, due, before.progress.db, last);
      RowsGoOn(have, o.progress.db, earlier, before.progress.db, own,
               SourceStep(cfg, input, due, before, last).progress.db, input.now, cfg.refreshAfter);
      visits := earlier + own;
      if DistinctNames(sources) {
        SourcesTrack(cfg, input, due, o, front);
        SameVisits(cfg, input, due, before.progress.db, o.progress.db, last);
      }
    }
  }

  lemma SameVisits(cfg: Config, input: SweepInput, due: set<string>, a: Db, b: Db, source: Source)
    requires source.name in a.states && source.name in b.states && a.states[source.name] == b.states[source.name]
    ensures SourceVisits(cfg, input, due, a, source) == SourceVisits(cfg, input, due, b, source)
  {
  }

  /** One sweep, however many candidates and sources carry the key: every row stored before goes as its visits say. */
  lemma SweepRows(cfg: Config, input: SweepInput, db: Db) returns (visits: seq<Visit>)
    ensures RowsGo(db.identities.Keys, db, AfterSweep(cfg, input, db), visits, input.now, cfg.refreshAfter)
    ensures DistinctNames(cfg.registry) ==> visits == SweepVisits(cfg, input, db)
  {
    hide RowsGo;
    if Refuses(cfg, input) {
      RowsRest(db.identities.Keys, db, db, input.now, cfg.refreshAfter);
      visits := [];
    } else {
      var ready := WithStates(db, Chosen(cfg, input));
      RowsRest(db.identities.Keys, db, ready, input.now, cfg.refreshAfter);
      visits := SourcesRows(cfg, input, Due(cfg, input, ready), Begun(ready), Chosen(cfg, input), db.identities.Keys);
      RowsGoOn(db.identities.Keys, db, [], ready, visits, AfterSweep(cfg, input, db), input.now, cfg.refreshAfter);
      assert [] + visits == visits;
      if DistinctNames(cfg.registry) {
        ChosenDistinct(cfg, input);
      }
    }
  }

  /* ---- Over whole runs ---- */

  /** Over any run a stored title is never replaced, and how, when and by which source a key was first seen stays. */
  lemma {:induction false} TitlesStay(firings: seq<Firing>, db: Db, key: string)
    requires key in db.identities
    ensures key in AfterRun(firings, db).identities
    ensures var a, b := db.identities[key], AfterRun(firings, db).identities[key];
            && (a.title != "" ==> b.title == a.title)
            && b == a.(title := b.title, lastSeenAt := b.lastSeenAt, lastSeenSource := b.lastSeenSource)
  {
    hide AfterSweep;
    if |firings| == 0 {
    } else {
      var front, last := firings[..|firings| - 1], firings[|firings| - 1];
      TitlesStay(front, db, key);
      var _ := SweepRows(last.cfg, last.input, AfterRun(front, db));
      assert key in AfterRun(front, db).identities.Keys;
    }
  }

  function SeenAt(db: Db, key: string): int {
    if key in db.identities then db.identities[key].lastSeenAt else 0
  }

  /** The last-seen times that were stored for a key, oldest first: the one at the start, and every change. */
  ghost function SeenTimes(firings: seq<Firing>, db: Db, key: string): (times: seq<int>)
    ensures |times| > 0
  {
    if |firings| == 0 then [SeenAt(db, key)]
    else
      var before, now := SeenTimes(firings[..|firings| - 1], db, key), SeenAt(AfterRun(firings, db), key);
      if now == before[|before| - 1] then before else before + [now]
  }

  /** Every configuration asks for at least this pause between two writes. */
  ghost predicate RefreshAtLeast(firings: seq<Firing>, pause: int) {
    forall i :: 0 <= i < |firings| ==> firings[i].cfg.refreshAfter >= pause
  }

  ghost predicate Apart(times: seq<int>, pause: int) {
    forall i :: 0 < i < |times| ==> times[i] - times[i - 1] >= pause
  }

  /** Frequent polls do not become frequent writes: over any run, two writes of a key's last-seen time are at least
      the refresh threshold apart. */
  lemma {:induction false} WritesKeepApart(firings: seq<Firing>, db: Db, key: string, pause: int)
    requires key in db.identities && RefreshAtLeast(firings, pause)
    ensures Apart(SeenTimes(firings, db, key), pause)
    ensures key in AfterRun(firings, db).identities
    ensures SeenTimes(firings, db, key)[|SeenTimes(firings, db, key)| - 1] == SeenAt(AfterRun(firings, db), key)
  {
    hide AfterSweep;
    if |firings| == 0 {
    } else {
      var front, last := firings[..|firings| - 1], firings[|firings| - 1];
      WritesKeepApart(front, db, key, pause);
      var _ := SweepRows(last.cfg, last.input, AfterRun(front, db));
      assert key in AfterRun(front, db).identities.Keys;
      assert last.cfg.refreshAfter >= pause;
      assert key in AfterSweep(last.cfg, last.input, AfterRun(front, db)).identities;
    }
  }
}
