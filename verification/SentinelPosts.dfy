/** Every post of every sweep, counted: what the provider accepted over whole runs. */
module SentinelPosts {
  import opened Common
  import opened Database
  import opened Delivery
  import opened Alerting
  import opened Guarded
  import opened SentinelStore
  import opened SentinelRunner
  import opened SentinelTheorems
  import opened SentinelRuns

  /** How many posts for sighting `id` the provider accepted. */
  function AcceptedFor(posts: seq<Posted>, id: nat): nat {
    if |posts| == 0 then 0
    else
      var last := posts[|posts| - 1];
      AcceptedFor(posts[..|posts| - 1], id) + (if last.id == id && last.outcome.Accepted() then 1 else 0)
  }

  lemma {:induction false} AcceptedForConcat(a: seq<Posted>, b: seq<Posted>, id: nat)
    ensures AcceptedFor(a + b, id) == AcceptedFor(a, id) + AcceptedFor(b, id)
  {
    if |b| == 0 {
      assert a + b == a;
    } else {
      assert (a + b)[..|a + b| - 1] == a + b[..|b| - 1];
      AcceptedForConcat(a, b[..|b| - 1], id);
    }
  }

  lemma {:induction false} AcceptedForTagged(id: nat, log: seq<PostOutcome>, other: nat)
    ensures AcceptedFor(Tagged(id, log), other) == if other == id then AcceptedCount(log) else 0
  {
    if |log| == 0 {
    } else {
      AcceptedForTagged(id, log[..|log| - 1], other);
      assert Tagged(id, log)[..|log| - 1] == Tagged(id, log[..|log| - 1]);
    }
  }

  /** Of the sightings after the first `from`, those marked sent had exactly one accepted post and the others none; no
      earlier sighting had any. */
  ghost predicate Settled(rows: seq<SightingRow>, from: nat, posts: seq<Posted>) {
    forall id: nat {:trigger AcceptedFor(posts, id)} ::
      AcceptedFor(posts, id) == if from < id && SaysSent(rows, id) then 1 else 0
  }

  lemma SettledAt(rows: seq<SightingRow>, from: nat, posts: seq<Posted>, id: nat)
    requires Settled(rows, from, posts)
    ensures AcceptedFor(posts, id) == if from < id && SaysSent(rows, id) then 1 else 0
  {
  }

  /** The posts of the newest sighting's alert. */
  function AlertPosts(cfg: Config, input: SweepInput, p: Progress): seq<Posted>
    requires |p.db.sightings| > 0
  {
    var id := |p.db.sightings|;
    if p.sent + p.failed >= cfg.maxAlerts then [] else Tagged(id, PostsOfSend(p.db, id, input.channel(id)))
  }

  lemma AlertedPosts(cfg: Config, input: SweepInput, p: Progress)
    requires |p.db.sightings| > 0
    ensures Alerted(cfg, input, p).posts == p.posts + AlertPosts(cfg, input, p)
  {
    assert p.posts + [] == p.posts;
  }

  /** What the alert of the newest sighting says: capped without a post once sent and failed ones have reached the
      ceiling, and otherwise what its posts brought. */
  lemma AlertedSays(cfg: Config, input: SweepInput, p: Progress)
    requires |p.db.sightings| > 0
    ensures var n := |p.db.sightings|;
            var before, after := p.db.sightings[n - 1], Alerted(cfg, input, p).db.sightings[n - 1];
            if p.sent + p.failed >= cfg.maxAlerts
            then AlertPosts(cfg, input, p) == []
                 && after == before.(alertState := AlertCapped, alertError := "sweep alert cap")
            else SaysOutcome(before, after, IsDelivered(p.db, n), input.channel(n),
                             PostsOfSend(p.db, n, input.channel(n)))
  {
    if p.sent + p.failed < cfg.maxAlerts {
      SendSays(p.db, |p.db.sightings|, input.channel(|p.db.sightings|), input.now);
    }
  }

  /** One alert: an accepted post exactly when the sighting ends as sent, and none for any other sighting. */
  lemma AlertAccepted(cfg: Config, input: SweepInput, p: Progress, id: nat)
    requires |p.db.sightings| > 0 && !IsDelivered(p.db, |p.db.sightings|)
    ensures var n := |p.db.sightings|;
            AcceptedFor(AlertPosts(cfg, input, p), id)
            == if id == n && Alerted(cfg, input, p).db.sightings[n - 1].alertState == AlertSent then 1 else 0
  {
    var n := |p.db.sightings|;
    if p.sent + p.failed < cfg.maxAlerts {
      AcceptedForTagged(n, PostsOfSend(p.db, n, input.channel(n)), id);
      SendDelivers(p.db, n, input.channel(n), input.now);
      SentMeansDelivered(p.db, n, input.channel(n), input.now);
    }
  }

  lemma FreshSettled(cfg: Config, input: SweepInput, source: Source, p: Progress, c: Candidate, from: nat)
    requires AlertsTruthful(p.db) && from <= |p.db.sightings| && Settled(p.db.sightings, from, p.posts)
    requires Resolve(cfg, source, c).key !in p.db.identities
    ensures var q := Alerted(cfg, input, JustSighted(cfg, input, source, p, c));
            Settled(q.db.sightings, from, q.posts)
  {
    var sighted := JustSighted(cfg, input, source, p, c);
    var q, n := Alerted(cfg, input, sighted), |p.db.sightings|;
    AlertedIsLocal(cfg, input, sighted);
    AlertedPosts(cfg, input, sighted);
    NotYetDelivered(p.db, sighted.db);
    hide Alerted, JustSighted, AlertsTruthful;
    forall id: nat
      ensures AcceptedFor(q.posts, id) == if from < id && SaysSent(q.db.sightings, id) then 1 else 0
    {
      AcceptedForConcat(p.posts, AlertPosts(cfg, input, sighted), id);
      SettledAt(p.db.sightings, from, p.posts, id);
      AlertAccepted(cfg, input, sighted, id);
      SameSent(p.db, sighted.db, q.db, id);
    }
  }

  lemma NotYetDelivered(db: Db, sighted: Db)
    requires AlertsTruthful(db) && sighted.receipts == db.receipts && |sighted.sightings| == |db.sightings| + 1
    ensures !IsDelivered(sighted, |sighted.sightings|)
  {
    var id := |sighted.sightings|;
    assert AlertsTruthful(db) && !SaysSent(db.sightings, id);
  }

  lemma SameSent(db: Db, sighted: Db, after: Db, id: nat)
    requires |sighted.sightings| == |db.sightings| + 1 && sighted.sightings[..|db.sightings|] == db.sightings
    requires OnlyAlert(sighted, after, |sighted.sightings|)
    ensures id <= |db.sightings| ==> (SaysSent(after.sightings, id) <==> SaysSent(db.sightings, id))
  {
    if 1 <= id <= |db.sightings| {
      assert after.sightings[id - 1] == after.sightings[..|db.sightings|][id - 1];
      assert sighted.sightings[..|db.sightings|][id - 1] == db.sightings[id - 1];
    }
  }

  lemma CandidateSettled(cfg: Config, input: SweepInput, source: Source, armed: bool, p: Progress, c: Candidate,
                         from: nat)
    requires p.known <= p.db.identities.Keys && AlertsTruthful(p.db) && from <= |p.db.sightings|
    requires Settled(p.db.sightings, from, p.posts)
    ensures var q := CandidateStep(cfg, input, source, armed, p, c);
            Settled(q.db.sightings, from, q.posts)
  {
    hide Settled, AlertsTruthful, Alerted, JustSighted;
    if armed && Resolve(cfg, source, c).key !in p.db.identities {
      FreshSettled(cfg, input, source, p, c, from);
    }
  }

  /** What the counting needs to know of the progress so far. */
  ghost predicate Booked(p: Progress, from: nat) {
    && p.known <= p.db.identities.Keys && AlertsTruthful(p.db) && from <= |p.db.sightings|
    && Settled(p.db.sightings, from, p.posts)
  }

  lemma CandidateBooked(cfg: Config, input: SweepInput, source: Source, armed: bool, p: Progress, c: Candidate,
                        from: nat)
    requires Booked(p, from)
    ensures Booked(CandidateStep(cfg, input, source, armed, p, c), from)
  {
    hide Settled, AlertsTruthful, CandidateStep;
    CandidateSettled(cfg, input, source, armed, p, c, from);
    CandidateKeepsTruth(cfg, input, source, armed, p, c);
    CandidateTracks(cfg, input, source, armed, p, c);
  }

  lemma {:induction false} CandidatesBooked(cfg: Config, input: SweepInput, source: Source, armed: bool, p: Progress,
                                            cs: seq<Candidate>, from: nat)
    requires Booked(p, from)
    ensures Booked(Candidates(cfg, input, source, armed, p, cs), from)
  {
    hide Booked, CandidateStep;
    if |cs| == 0 {
    } else {
      var front := cs[..|cs| - 1];
      CandidatesBooked(cfg, input, source, armed, p, front, from);
      CandidateBooked(cfg, input, source, armed, Candidates(cfg, input, source, armed, p, front), cs[|cs| - 1], from);
    }
  }

  lemma SourceBooked(cfg: Config, input: SweepInput, due: set<string>, o: Outcome, source: Source, from: nat)
    requires source.name in o.progress.db.states && Booked(o.progress, from)
    ensures Booked(SourceStep(cfg, input, due, o, source).progress, from)
  {
    hide Candidates;
    var p := o.progress;
    if source.name in due && input.poll(source.name).Polled? {
      var start, cs := p.(unseen := 0, suppressed := 0), input.poll(source.name).candidates;
      CandidatesKeepStates(cfg, input, source, Armed(p.db, input, source), start, cs);
      CandidatesBooked(cfg, input, source, Armed(p.db, input, source), start, cs, from);
    }
  }

  lemma {:induction false} SourcesBooked(cfg: Config, input: SweepInput, due: set<string>, o: Outcome,
                                         sources: seq<Source>, from: nat)
    requires AllHaveState(o.progress.db, sources) && Booked(o.progress, from)
    ensures Booked(Sources(cfg, input, due, o, sources).progress, from)
  {
    hide Booked, SourceStep;
    if |sources| == 0 {
    } else {
      var front := sources[..|sources| - 1];
      SourcesBooked(cfg, input, due, o, front, from);
      SourceBooked(cfg, input, due, Sources(cfg, input, due, o, front), sources[|sources| - 1], from);
    }
  }

  ghost function SweepPosts(cfg: Config, input: SweepInput, db: Db): seq<Posted> {
    if Refuses(cfg, input) then [] else Swept(cfg, input, db).progress.posts
  }

  lemma SweepSettled(cfg: Config, input: SweepInput, db: Db)
    requires AlertsTruthful(db)
    ensures AlertsTruthful(AfterSweep(cfg, input, db))
    ensures Settled(AfterSweep(cfg, input, db).sightings, |db.sightings|, SweepPosts(cfg, input, db))
  {
    if !Refuses(cfg, input) {
      var ready := WithStates(db, Chosen(cfg, input));
      SourcesBooked(cfg, input, Due(cfg, input, ready), Begun(ready), Chosen(cfg, input), |db.sightings|);
    }
  }

  /** Every post of a run, in order. */
  ghost function RunPosts(firings: seq<Firing>, db: Db): seq<Posted> {
    if |firings| == 0 then []
    else
      var front, last := firings[..|firings| - 1], firings[|firings| - 1];
      RunPosts(front, db) + SweepPosts(last.cfg, last.input, AfterRun(front, db))
  }

  lemma SettledOn(from: nat, mid: seq<SightingRow>, a: seq<Posted>, after: seq<SightingRow>, b: seq<Posted>)
    requires from <= |mid| && mid <= after && Settled(mid, from, a) && Settled(after, |mid|, b)
    ensures Settled(after, from, a + b)
  {
    forall id: nat ensures AcceptedFor(a + b, id) == if from < id && SaysSent(after, id) then 1 else 0 {
      AcceptedForConcat(a, b, id);
      SettledAt(mid, from, a, id);
      SettledAt(after, |mid|, b, id);
    }
  }

  /** Over any run, under any configurations and provider outcomes: exactly one accepted post for each new sighting
      that says sent, and none for any other, old or new. */
  lemma {:induction false} RunSettled(firings: seq<Firing>, db: Db)
    requires NamesDistinct(firings) && AlertsTruthful(db)
    ensures AlertsTruthful(AfterRun(firings, db)) && db.sightings <= AfterRun(firings, db).sightings
    ensures Settled(AfterRun(firings, db).sightings, |db.sightings|, RunPosts(firings, db))
  {
    hide AfterSweep, AlertsTruthful, SweepPosts;
    if |firings| == 0 {
      NothingPosted(db.sightings);
    } else {
      var front, last := firings[..|firings| - 1], firings[|firings| - 1];
      var mid := AfterRun(front, db);
      RunSettled(front, db);
      SweepSettled(last.cfg, last.input, mid);
      SweepTracks(last.cfg, last.input, mid);
      SettledOn(|db.sightings|, mid.sightings, RunPosts(front, db), AfterSweep(last.cfg, last.input, mid).sightings,
                SweepPosts(last.cfg, last.input, mid));
    }
  }

  lemma NothingPosted(rows: seq<SightingRow>)
    ensures Settled(rows, |rows|, [])
  {
  }

  /* ---- By identity key ---- */

  /** How many posts for sightings of this key the provider accepted. */
  function AcceptedForKey(rows: seq<SightingRow>, posts: seq<Posted>, key: string): nat {
    if |posts| == 0 then 0
    else
      var last := posts[|posts| - 1];
      AcceptedForKey(rows, posts[..|posts| - 1], key)
      + (if last.outcome.Accepted() && 1 <= last.id <= |rows| && rows[last.id - 1].key == key then 1 else 0)
  }

  lemma {:induction false} KeyOfOneSighting(rows: seq<SightingRow>, posts: seq<Posted>, i: nat)
    requires i < |rows| && Distinct(SightingKeys(rows))
    ensures AcceptedForKey(rows, posts, rows[i].key) == AcceptedFor(posts, i + 1)
  {
    if |posts| == 0 {
    } else {
      KeyOfOneSighting(rows, posts[..|posts| - 1], i);
      var last := posts[|posts| - 1];
      if 1 <= last.id <= |rows| && rows[last.id - 1].key == rows[i].key {
        assert SightingKeys(rows)[last.id - 1] == SightingKeys(rows)[i];
      }
    }
  }

  lemma {:induction false} KeyOfNoSighting(rows: seq<SightingRow>, posts: seq<Posted>, key: string)
    requires key !in SightingKeys(rows)
    ensures AcceptedForKey(rows, posts, key) == 0
  {
    if |posts| == 0 {
    } else {
      KeyOfNoSighting(rows, posts[..|posts| - 1], key);
      var last := posts[|posts| - 1];
      if 1 <= last.id <= |rows| {
        assert SightingKeys(rows)[last.id - 1] in SightingKeys(rows);
      }
    }
  }

  /** At most one accepted alert an identity key over a whole run: one exactly if the run sighted the key and its
      sighting says sent, and none for a key that was known at the start. */
  lemma OneAcceptedPostPerKey(firings: seq<Firing>, db: Db, key: string)
    requires NamesDistinct(firings) && Ledger(db) && AlertsTruthful(db)
    ensures var rows := AfterRun(firings, db).sightings;
            && AcceptedForKey(rows, RunPosts(firings, db), key) <= 1
            && (AcceptedForKey(rows, RunPosts(firings, db), key) == 1
                <==> exists i :: |db.sightings| <= i < |rows| && rows[i].key == key && rows[i].alertState == AlertSent)
            && (key in db.identities ==> AcceptedForKey(rows, RunPosts(firings, db), key) == 0)
  {
    var after := AfterRun(firings, db);
    var rows, posts, keys := after.sightings, RunPosts(firings, db), SightingKeys(after.sightings);
    RunSettled(firings, db);
    OneSightingPerKey(firings, db);
    RunTracks(firings, db);
    KnownIsNotFresh(firings, db, key);
    hide AfterRun, RunPosts, Ledger, Tracks;
    if key in keys {
      var i :| 0 <= i < |keys| && keys[i] == key;
      KeyOfOneSighting(rows, posts, i);
      SettledAt(rows, |db.sightings|, posts, i + 1);
      forall j | |db.sightings| <= j < |rows| && rows[j].key == key ensures j == i {
        assert keys[j] == keys[i];
      }
    } else {
      KeyOfNoSighting(rows, posts, key);
      forall j | |db.sightings| <= j < |rows| ensures rows[j].key != key {
        assert keys[j] in keys;
      }
    }
  }

  lemma KnownIsNotFresh(firings: seq<Firing>, db: Db, key: string)
    requires NamesDistinct(firings) && Ledger(db)
    ensures Ledger(AfterRun(firings, db))
    ensures key in db.identities ==>
              forall i :: |db.sightings| <= i < |AfterRun(firings, db).sightings| ==>
                AfterRun(firings, db).sightings[i].key != key
  {
    var after, visits := AfterRun(firings, db), RunVisits(firings, db);
    RunTracks(firings, db);
    OneSightingPerKey(firings, db);
    FreshKeysAreVisited(visits, db.identities.Keys);
    hide AfterRun, RunVisits;
    var added := SightingKeys(after.sightings[|db.sightings|..]);
    forall i | |db.sightings| <= i < |after.sightings| ensures after.sightings[i].key !in db.identities {
      assert added[i - |db.sightings|] == after.sightings[i].key;
      assert added[i - |db.sightings|] in added;
    }
  }
}
