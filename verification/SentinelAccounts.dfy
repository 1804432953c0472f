/** The books of one sweep balance: entries, totals, the alert cap and the run status. */
module SentinelAccounts {
  import opened Common
  import opened Database
  import opened Alerting
  import opened SentinelStore
  import opened SentinelRunner
  import opened SentinelTheorems
  import opened SentinelRuns

  function CountAlerts(rows: seq<SightingRow>, state: AlertState): nat {
    if |rows| == 0 then 0
    else CountAlerts(rows[..|rows| - 1], state) + (if rows[|rows| - 1].alertState == state then 1 else 0)
  }

  lemma {:induction false} AlertsPartition(rows: seq<SightingRow>)
    ensures CountAlerts(rows, AlertSent) + CountAlerts(rows, AlertFailed) + CountAlerts(rows, AlertCapped)
          + CountAlerts(rows, AlertDisabled) == |rows|
  {
    if |rows| == 0 {
    } else {
      AlertsPartition(rows[..|rows| - 1]);
    }
  }

  /** The counters agree with the rows added since the table had `base` rows, and respect the cap. */
  ghost predicate Balanced(cfg: Config, base: nat, p: Progress) {
    && base <= |p.db.sightings|
    && p.sent == CountAlerts(p.db.sightings[base..], AlertSent)
    && p.failed == CountAlerts(p.db.sightings[base..], AlertFailed)
    && p.capped == CountAlerts(p.db.sightings[base..], AlertCapped)
    && p.sent + p.failed <= Max(cfg.maxAlerts, 0)
  }

  lemma AlertedBalances(cfg: Config, input: SweepInput, base: nat, p: Progress, sighted: Progress)
    requires Balanced(cfg, base, p)
    requires |sighted.db.sightings| == |p.db.sightings| + 1
    requires sighted.db.sightings[..|p.db.sightings|] == p.db.sightings
    requires sighted.sent == p.sent && sighted.failed == p.failed && sighted.capped == p.capped
    ensures Balanced(cfg, base, Alerted(cfg, input, sighted))
  {
    var q, n := Alerted(cfg, input, sighted), |p.db.sightings|;
    AlertedIsLocal(cfg, input, sighted);
    assert q.db.sightings[..n] == p.db.sightings;
    var rows := q.db.sightings[base..];
    assert rows[..|rows| - 1] == p.db.sightings[base..];
    assert rows[|rows| - 1] == q.db.sightings[n];
    AlertedCounts(cfg, input, sighted);
  }

  lemma AlertedCounts(cfg: Config, input: SweepInput, p: Progress)
    requires |p.db.sightings| > 0
    ensures var q := Alerted(cfg, input, p);
            && |q.db.sightings| == |p.db.sightings|
            && q == Counted(p.(db := q.db, posts := q.posts), q.db.sightings[|p.db.sightings| - 1].alertState)
            && (p.sent + p.failed >= cfg.maxAlerts ==> q.sent == p.sent && q.failed == p.failed)
  {
    AlertedIsLocal(cfg, input, p);
  }

  /** What one source's candidates add up to. */
  ghost predicate SourceBalance(armed: bool, n: nat, p: Progress, q: Progress) {
    && |q.db.sightings| >= |p.db.sightings|
    && q.unseen - p.unseen == |q.db.sightings| - |p.db.sightings|
    && (q.unseen - p.unseen) + (q.suppressed - p.suppressed) == (if armed then n else 0)
    && (!armed ==> q.unseen == p.unseen && q.suppressed == p.suppressed)
  }

  lemma CandidateBalances(cfg: Config, input: SweepInput, source: Source, armed: bool, base: nat, p: Progress,
                          c: Candidate)
    requires p.known <= p.db.identities.Keys && Balanced(cfg, base, p)
    ensures Balanced(cfg, base, CandidateStep(cfg, input, source, armed, p, c))
    ensures SourceBalance(armed, 1, p, CandidateStep(cfg, input, source, armed, p, c))
  {
    if armed && Resolve(cfg, source, c).key !in p.db.identities {
      var sighted := JustSighted(cfg, input, source, p, c);
      assert sighted.db.sightings[..|p.db.sightings|] == p.db.sightings;
      AlertedBalances(cfg, input, base, p, sighted);
      AlertedCounts(cfg, input, sighted);
    }
  }

  lemma {:induction false} CandidatesBalance(cfg: Config, input: SweepInput, source: Source, armed: bool, base: nat,
                                             p: Progress, cs: seq<Candidate>)
    requires p.known <= p.db.identities.Keys && Balanced(cfg, base, p)
    ensures Balanced(cfg, base, Candidates(cfg, input, source, armed, p, cs))
    ensures SourceBalance(armed, |cs|, p, Candidates(cfg, input, source, armed, p, cs))
  {
    if |cs| == 0 {
    } else {
      var front := cs[..|cs| - 1];
      CandidatesBalance(cfg, input, source, armed, base, p, front);
      CandidatesTrack(cfg, input, source, armed, p, front);
      CandidateBalances(cfg, input, source, armed, base, Candidates(cfg, input, source, armed, p, front),
                        cs[|cs| - 1]);
    }
  }

  predicate EntryBalances(e: Entry) {
    e.Processed? ==>
      if e.baselineMode then e.unseen == 0 && e.suppressed == 0 else e.unseen + e.suppressed == e.candidates
  }

  predicate IsOk(e: Entry) { e.Processed? }

  predicate IsFailed(e: Entry) { e.PollFailure? || (e.Refused? && e.status == PollFailed) }

  predicate IsBlocked(e: Entry) { e.Refused? && e.status == PollBlocked }

  /** The entries of the given sources, one each, in order. */
  function Entries(perSource: map<string, Entry>, sources: seq<Source>): seq<Entry>
    requires forall s :: s in sources ==> s.name in perSource
  {
    seq(|sources|, i requires 0 <= i < |sources| => assert sources[i] in sources; perSource[sources[i].name])
  }

  function CountEntries(p: Entry -> bool, entries: seq<Entry>): nat {
    |Filter(p, entries)|
  }

  function SumOf(f: Entry -> int, entries: seq<Entry>): int {
    if |entries| == 0 then 0 else SumOf(f, entries[..|entries| - 1]) + f(entries[|entries| - 1])
  }

  function UnseenOf(e: Entry): int { if e.Processed? then e.unseen else 0 }

  function SuppressedOf(e: Entry): int { if e.Processed? then e.suppressed else 0 }

  function CandidatesOf(e: Entry): int { if e.Processed? || e.Refused? then e.candidates else 0 }

  /** The report holds exactly one balanced entry a source, and its totals are the sums over the entries. */
  ghost predicate Reported(r: Report, sources: seq<Source>) {
    && r.perSource.Keys == (set s | s in sources :: s.name)
    && Totalled(r, Entries(r.perSource, sources))
  }

  /** The entry a source step writes. */
  function EntryOf(cfg: Config, input: SweepInput, due: set<string>, o: Outcome, source: Source): Entry
    requires source.name in o.progress.db.states
  {
    SourceStep(cfg, input, due, o, source).report.perSource[source.name]
  }

  lemma SourceBooks(cfg: Config, input: SweepInput, due: set<string>, base: nat, o: Outcome, source: Source)
    requires source.name in o.progress.db.states && o.progress.known <= o.progress.db.identities.Keys
    requires Balanced(cfg, base, o.progress)
    ensures var after, e := SourceStep(cfg, input, due, o, source), EntryOf(cfg, input, due, o, source);
            && Balanced(cfg, base, after.progress)
            && |after.progress.db.sightings| - |o.progress.db.sightings| == UnseenOf(e)
            && EntryBalances(e)
            && Extends(o.report, source.name, e, after.report)
  {
    if source.name in due && input.poll(source.name).Polled?
       && input.poll(source.name).status !in {PollFailed, PollBlocked} {
      ProcessedBooks(cfg, input, due, base, o, source);
    }
  }

  lemma ProcessedBooks(cfg: Config, input: SweepInput, due: set<string>, base: nat, o: Outcome, source: Source)
    requires source.name in o.progress.db.states && o.progress.known <= o.progress.db.identities.Keys
    requires Balanced(cfg, base, o.progress)
    requires source.name in due && input.poll(source.name).Polled?
    requires input.poll(source.name).status !in {PollFailed, PollBlocked}
    ensures var after, e := SourceStep(cfg, input, due, o, source), EntryOf(cfg, input, due, o, source);
            && Balanced(cfg, base, after.progress)
            && |after.progress.db.sightings| - |o.progress.db.sightings| == UnseenOf(e)
            && EntryBalances(e)
            && Extends(o.report, source.name, e, after.report)
  {
    hide Candidates;
    var p, cs := o.progress, input.poll(source.name).candidates;
    var start := p.(unseen := 0, suppressed := 0);
    CandidatesBalance(cfg, input, source, Armed(p.db, input, source), base, start, cs);
  }

  lemma EntriesSnoc(before: map<string, Entry>, sources: seq<Source>, e: Entry)
    requires |sources| > 0 && DistinctNames(sources)
    requires forall s :: s in sources[..|sources| - 1] ==> s.name in before
    ensures var after := before[sources[|sources| - 1].name := e];
            && (forall s :: s in sources ==> s.name in after)
            && Entries(after, sources) == Entries(before, sources[..|sources| - 1]) + [e]
  {
    assert sources == sources[..|sources| - 1] + [sources[|sources| - 1]];
  }

  /** The report's totals are the sums over these entries. */
  ghost predicate Totalled(r: Report, es: seq<Entry>) {
    && (forall e :: e in es ==> EntryBalances(e))
    && r.ok == CountEntries(IsOk, es) && r.failed == CountEntries(IsFailed, es)
    && r.blocked == CountEntries(IsBlocked, es)
    && r.unseen == SumOf(UnseenOf, es) && r.suppressed == SumOf(SuppressedOf, es)
    && r.candidates == SumOf(CandidatesOf, es)
  }

  predicate Extends(r: Report, name: string, e: Entry, after: Report) {
    after == Report(r.perSource[name := e],
                    r.ok + (if IsOk(e) then 1 else 0), r.failed + (if IsFailed(e) then 1 else 0),
                    r.blocked + (if IsBlocked(e) then 1 else 0), r.candidates + Max(CandidatesOf(e), 0),
                    r.unseen + Max(UnseenOf(e), 0), r.suppressed + Max(SuppressedOf(e), 0))
  }

  lemma TotalledSnoc(r: Report, es: seq<Entry>, name: string, e: Entry, after: Report)
    requires Totalled(r, es) && EntryBalances(e) && Extends(r, name, e, after)
    ensures Totalled(after, es + [e])
  {
    FilterSnoc(IsOk, es, e);
    FilterSnoc(IsFailed, es, e);
    FilterSnoc(IsBlocked, es, e);
    assert (es + [e])[..|es|] == es;
  }

  lemma ReportedSnoc(r: Report, sources: seq<Source>, e: Entry, after: Report)
    requires |sources| > 0 && DistinctNames(sources)
    requires Reported(r, sources[..|sources| - 1]) && EntryBalances(e)
    requires Extends(r, sources[|sources| - 1].name, e, after)
    ensures Reported(after, sources)
  {
    hide SumOf, CountEntries, EntryBalances;
    var front := sources[..|sources| - 1];
    EntriesSnoc(r.perSource, sources, e);
    TotalledSnoc(r, Entries(r.perSource, front), sources[|sources| - 1].name, e, after);
    assert sources == front + [sources[|sources| - 1]];
  }

  /** The books after some sources: `rows` is the size of the sighting table at the start. */
  ghost predicate Booked(cfg: Config, rows: nat, o: Outcome, sources: seq<Source>) {
    && Balanced(cfg, rows, o.progress) && Reported(o.report, sources)
    && |o.progress.db.sightings| - rows == o.report.unseen
  }

  lemma BookOneMore(cfg: Config, input: SweepInput, due: set<string>, rows: nat, o: Outcome, sources: seq<Source>)
    requires |sources| > 0 && DistinctNames(sources)
    requires sources[|sources| - 1].name in o.progress.db.states && o.progress.known <= o.progress.db.identities.Keys
    requires Booked(cfg, rows, o, sources[..|sources| - 1])
    ensures Booked(cfg, rows, SourceStep(cfg, input, due, o, sources[|sources| - 1]), sources)
  {
    var last := sources[|sources| - 1];
    SourceBooks(cfg, input, due, rows, o, last);
    ReportedSnoc(o.report, sources, EntryOf(cfg, input, due, o, last), SourceStep(cfg, input, due, o, last).report);
  }

  lemma {:induction false} SourcesBooks(cfg: Config, input: SweepInput, due: set<string>, o: Outcome,
                                        sources: seq<Source>)
    requires AllHaveState(o.progress.db, sources) && DistinctNames(sources)
    requires o.progress.known <= o.progress.db.identities.Keys
    requires Booked(cfg, |o.progress.db.sightings|, o, [])
    ensures Booked(cfg, |o.progress.db.sightings|, Sources(cfg, input, due, o, sources), sources)
  {
    if |sources| == 0 {
      assert sources == [];
    } else {
      var front := sources[..|sources| - 1];
      SourcesBooks(cfg, input, due, o, front);
      SourcesTrack(cfg, input, due, o, front);
      assert sources[|sources| - 1] in sources;
      BookOneMore(cfg, input, due, |o.progress.db.sightings|, Sources(cfg, input, due, o, front), sources);
    }
  }

  /** Conservation for every sweep that runs: one balanced entry a source; every unseen candidate is exactly one
      new sighting, and each is sent, failed, capped or disabled; sent plus failed never passes the cap. */
  lemma SweepConserves(cfg: Config, input: SweepInput, db: Db)
    requires DistinctNames(cfg.registry) && !Refuses(cfg, input)
    ensures var o := Swept(cfg, input, db);
            var p, r := o.progress, o.report;
            && |db.sightings| <= |p.db.sightings|
            && var added := p.db.sightings[|db.sightings|..];
            && Reported(r, Chosen(cfg, input))
            && r.unseen == |added|
            && r.unseen == p.sent + p.failed + p.capped + CountAlerts(added, AlertDisabled)
            && p.sent == CountAlerts(added, AlertSent) && p.failed == CountAlerts(added, AlertFailed)
            && p.capped == CountAlerts(added, AlertCapped)
            && p.sent + p.failed <= Max(cfg.maxAlerts, 0)
  {
    ChosenDistinct(cfg, input);
    var ready := WithStates(db, Chosen(cfg, input));
    var start := Begun(ready);
    SourcesBooks(cfg, input, Due(cfg, input, ready), start, Chosen(cfg, input));
    AlertsPartition(Swept(cfg, input, db).progress.db.sightings[|db.sightings|..]);
  }

  lemma CountPositive(p: Entry -> bool, entries: seq<Entry>)
    ensures CountEntries(p, entries) > 0 <==> exists e :: e in entries && p(e)
  {
    if CountEntries(p, entries) > 0 {
      var e := Filter(p, entries)[0];
      FilterMember(p, entries, e);
    }
    forall e | e in entries && p(e) ensures CountEntries(p, entries) > 0 {
      FilterMember(p, entries, e);
    }
  }

  /** The run status in terms of what happened to the sources. */
  lemma StatusMeaning(r: Report, sources: seq<Source>)
    requires Reported(r, sources)
    ensures var es := Entries(r.perSource, sources);
            var someOk := exists e :: e in es && IsOk(e);
            var someFailed := exists e :: e in es && IsFailed(e);
            var someBlocked := exists e :: e in es && IsBlocked(e);
            && (Status(r) == RunSuccess <==> !someFailed && !someBlocked)
            && (Status(r) == RunPartial <==> someOk && (someFailed || someBlocked))
            && (Status(r) == RunBlocked <==> !someOk && !someFailed && someBlocked)
            && (Status(r) == RunFailed <==> !someOk && someFailed)
  {
    var es := Entries(r.perSource, sources);
    CountPositive(IsOk, es);
    CountPositive(IsFailed, es);
    CountPositive(IsBlocked, es);
  }
}
