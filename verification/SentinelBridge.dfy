/** A sweep that no other process disturbs, as the runner performs it, is a run of the interleaving protocol. */
module SentinelBridge {
  import opened Common
  import opened Database
  import opened Alerting
  import opened SentinelStore
  import opened SentinelRunner
  import opened SentinelRuns
  import opened SentinelTheorems
  import I = Identity
  import SP = SentinelProtocol

  /* ---- Runs of the protocol by their steps ---- */

  ghost predicate Leads(s: SP.System, steps: seq<SP.Step>, t: SP.System)
    decreases |steps|
  {
    if |steps| == 0 then s == t
    else SP.Enabled(s, steps[0]) && Leads(SP.Next(s, steps[0]), steps[1..], t)
  }

  lemma {:induction false} LeadsOn(s: SP.System, a: seq<SP.Step>, t: SP.System, b: seq<SP.Step>, u: SP.System)
    requires Leads(s, a, t) && Leads(t, b, u)
    ensures Leads(s, a + b, u)
    decreases |a|
  {
    if |a| == 0 {
      assert a + b == b;
    } else {
      LeadsOn(SP.Next(s, a[0]), a[1..], t, b, u);
      assert (a + b)[1..] == a[1..] + b;
    }
  }

  lemma LeadsOneMore(s: SP.System, steps: seq<SP.Step>, t: SP.System, step: SP.Step)
    requires Leads(s, steps, t) && SP.Enabled(t, step)
    ensures Leads(s, steps + [step], SP.Next(t, step))
  {
    assert [step][1..] == [];
    assert Leads(t, [step], SP.Next(t, step));
    LeadsOn(s, steps, t, [step], SP.Next(t, step));
  }

  ghost predicate Adjacent(trace: seq<SP.System>, steps: seq<SP.Step>) {
    && |trace| == |steps| + 1
    && forall i :: 0 <= i < |steps| ==> SP.Enabled(trace[i], steps[i]) && trace[i + 1] == SP.Next(trace[i], steps[i])
  }

  /** The states that the steps pass through. */
  lemma {:induction false} TraceOf(s: SP.System, steps: seq<SP.Step>, t: SP.System) returns (trace: seq<SP.System>)
    requires Leads(s, steps, t)
    ensures Adjacent(trace, steps) && trace[0] == s && trace[|steps|] == t
    decreases |steps|
  {
    if |steps| == 0 {
      trace := [s];
    } else {
      var rest := TraceOf(SP.Next(s, steps[0]), steps[1..], t);
      trace := [s] + rest;
      forall i | 0 <= i < |steps|
        ensures SP.Enabled(trace[i], steps[i]) && trace[i + 1] == SP.Next(trace[i], steps[i])
      {
        if i > 0 {
          assert rest[i - 1] == trace[i] && steps[1..][i - 1] == steps[i] && rest[i] == trace[i + 1];
        }
      }
    }
  }

  /* ---- The tables and the protocol's state ---- */

  ghost predicate SameKeys(db: Db, s: SP.System) {
    && (forall r :: 0 <= r < |s.rows| ==>
          && s.rows[r].key in db.identities
          && (s.rows[r].via == SP.Live <==> db.identities[s.rows[r].key].via == Via.Sighting))
    && (forall key :: key in db.identities ==> SP.HasRow(s, key))
  }

  ghost predicate SameSightings(db: Db, s: SP.System) {
    && |s.sightings| == |db.sightings|
    && (forall i :: 0 <= i < |s.sightings| ==> s.sightings[i] == db.sightings[i].key)
    && (forall i: nat :: i < |db.sightings| ==> (i in s.accepted <==> db.sightings[i].alertState == AlertSent))
    && (forall i: nat :: i in s.accepted ==> i < |db.sightings|)
  }

  ghost predicate SameArming(db: Db, s: SP.System) {
    forall name :: name in s.armedSources <==> name in db.states && db.states[name].armedAt.Some?
  }

  ghost predicate Same(db: Db, s: SP.System) {
    SameKeys(db, s) && SameSightings(db, s) && SameArming(db, s)
  }

  /** Process `pid` sweeps with this snapshot, and the tables agree. */
  ghost predicate Sim(p: Progress, s: SP.System, pid: SP.Pid) {
    Same(p.db, s) && pid in s.pcs && s.pcs[pid] == SP.Sweeping(p.known)
  }

  ghost predicate OthersStay(s: SP.System, t: SP.System, pid: SP.Pid) {
    forall q :: q != pid ==> (q in s.pcs <==> q in t.pcs) && (q in s.pcs ==> s.pcs[q] == t.pcs[q])
  }

  /** What one process may have done alone. */
  ghost predicate Alone(s: SP.System, steps: seq<SP.Step>, t: SP.System, pid: SP.Pid) {
    Leads(s, steps, t) && OthersStay(s, t, pid) && s.armedSources <= t.armedSources
  }

  lemma AloneOn(s: SP.System, a: seq<SP.Step>, t: SP.System, b: seq<SP.Step>, u: SP.System, pid: SP.Pid)
    requires Alone(s, a, t, pid) && Alone(t, b, u, pid)
    ensures Alone(s, a + b, u, pid)
  {
    LeadsOn(s, a, t, b, u);
  }

  lemma AloneOneMore(s: SP.System, steps: seq<SP.Step>, t: SP.System, step: SP.Step, pid: SP.Pid)
    requires Alone(s, steps, t, pid) && SP.Enabled(t, step)
    requires OthersStay(t, SP.Next(t, step), pid)
    ensures Alone(s, steps + [step], SP.Next(t, step), pid)
  {
    LeadsOneMore(s, steps, t, step);
  }

  /* ---- One candidate ---- */

  lemma TouchedSame(db: Db, key: string, source: string, title: string, now: int, refreshAfter: int, s: SP.System)
    requires Same(db, s)
    ensures Same(Touched(db, key, source, title, now, refreshAfter), s)
  {
  }

  lemma InsertedSame(db: Db, after: Db, s: SP.System, key: string, live: bool, pid: SP.Pid, t: SP.System)
    requires Same(db, s) && key !in db.identities
    requires after.identities.Keys == db.identities.Keys + {key}
    requires forall k :: k in db.identities ==> after.identities[k].via == db.identities[k].via
    requires after.identities[key].via == Via.Sighting <==> live
    requires after.sightings == db.sightings && after.states == db.states
    requires t.rows == s.rows + [SP.Row(key, if live then SP.Live else SP.Silent, pid)]
    requires t.sightings == s.sightings && t.accepted == s.accepted && t.armedSources == s.armedSources
    ensures Same(after, t)
  {
    forall k | k in after.identities ensures SP.HasRow(t, k) {
      if k == key {
        assert t.rows[|s.rows|].key == key;
      } else {
        assert SP.HasRow(s, k);
        var r :| 0 <= r < |s.rows| && s.rows[r].key == k;
        assert t.rows[r].key == k;
      }
    }
  }

  /** The newest sighting, settled as sent or not, and the protocol's own record of it. */
  lemma SightedSame(db: Db, row: SightingRow, sighted: Db, after: Db, s: SP.System, t: SP.System)
    requires Same(db, s)
    requires sighted == db.(sightings := db.sightings + [row]) && OnlyAlert(sighted, after, |sighted.sightings|)
    requires t.rows == s.rows && t.armedSources == s.armedSources && t.sightings == s.sightings + [row.key]
    requires t.accepted == if after.sightings[|db.sightings|].alertState == AlertSent
                           then s.accepted + [|db.sightings|] else s.accepted
    ensures Same(after, t)
  {
    var n := |db.sightings|;
    forall i | 0 <= i < n ensures after.sightings[i] == db.sightings[i] {
      assert after.sightings[..n][i] == sighted.sightings[..n][i];
    }
    assert n !in s.accepted;
  }

  /** The five steps that a process takes with a key that nobody has. */
  lemma FreshRun(s: SP.System, pid: SP.Pid, source: string, key: SP.Key, accepts: bool)
    returns (steps: seq<SP.Step>, t: SP.System)
    requires pid in s.pcs && s.pcs[pid].Sweeping? && source in s.armedSources
    requires key !in s.pcs[pid].known && !SP.HasRow(s, key)
    ensures Alone(s, steps, t, pid)
    ensures t.rows == s.rows + [SP.Row(key, SP.Live, pid)] && t.sightings == s.sightings + [key]
    ensures t.accepted == if accepts then s.accepted + [|s.sightings|] else s.accepted
    ensures t.armedSources == s.armedSources
    ensures pid in t.pcs && t.pcs[pid] == SP.Sweeping(s.pcs[pid].known + {key})
  {
    var s1 := SP.Next(s, SP.Examine(pid, source, true, key));
    assert !SP.HasRow(s1, key);
    var s2 := SP.Next(s1, SP.FindNothing(pid));
    assert !SP.HasRow(s2, key);
    var s3 := SP.Next(s2, SP.InsertWins(pid));
    var s4 := SP.Next(s3, SP.Record(pid));
    t := SP.Next(s4, SP.Alert(pid, accepts));
    steps := [SP.Examine(pid, source, true, key), SP.FindNothing(pid), SP.InsertWins(pid), SP.Record(pid),
              SP.Alert(pid, accepts)];
    FiveSteps(s, steps, s1, s2, s3, s4, t);
  }

  lemma FiveSteps(s: SP.System, steps: seq<SP.Step>, s1: SP.System, s2: SP.System, s3: SP.System, s4: SP.System,
                  t: SP.System)
    requires |steps| == 5
    requires SP.Enabled(s, steps[0]) && s1 == SP.Next(s, steps[0])
    requires SP.Enabled(s1, steps[1]) && s2 == SP.Next(s1, steps[1])
    requires SP.Enabled(s2, steps[2]) && s3 == SP.Next(s2, steps[2])
    requires SP.Enabled(s3, steps[3]) && s4 == SP.Next(s3, steps[3])
    requires SP.Enabled(s4, steps[4]) && t == SP.Next(s4, steps[4])
    ensures Leads(s, steps, t)
  {
    hide SP.Enabled, SP.Next;
    LeadsOneMore(s, [], s, steps[0]);
    LeadsOneMore(s, [] + [steps[0]], s1, steps[1]);
    LeadsOneMore(s, [] + [steps[0]] + [steps[1]], s2, steps[2]);
    LeadsOneMore(s, [] + [steps[0]] + [steps[1]] + [steps[2]], s3, steps[3]);
    LeadsOneMore(s, [] + [steps[0]] + [steps[1]] + [steps[2]] + [steps[3]], s4, steps[4]);
    assert [] + [steps[0]] + [steps[1]] + [steps[2]] + [steps[3]] + [steps[4]] == steps;
  }

  lemma FreshSteps(cfg: Config, input: SweepInput, source: Source, p: Progress, c: Candidate, s: SP.System,
                   pid: SP.Pid) returns (steps: seq<SP.Step>, t: SP.System)
    requires Sim(p, s, pid) && source.name in s.armedSources
    requires Resolve(cfg, source, c).key !in p.known && Resolve(cfg, source, c).key !in p.db.identities
    ensures Alone(s, steps, t, pid) && Sim(CandidateStep(cfg, input, source, true, p, c), t, pid)
  {
    var identity := Resolve(cfg, source, c);
    var sighted := JustSighted(cfg, input, source, p, c);
    var after := Alerted(cfg, input, sighted);
    AlertedIsLocal(cfg, input, sighted);
    steps, t := FreshRun(s, pid, source.name, identity.key,
                         after.db.sightings[|p.db.sightings|].alertState == AlertSent);
    FreshSame(p.db, identity, source, c.title, input.now, sighted.db, after.db, s, t, pid);
    assert CandidateStep(cfg, input, source, true, p, c) == after;
  }

  lemma FreshSame(db: Db, identity: I.Identity, source: Source, title: string, now: int, sighted: Db, after: Db,
                  s: SP.System, t: SP.System, pid: SP.Pid)
    requires Same(db, s) && identity.key !in db.identities
    requires sighted == WithSighting(Admitted(db, identity, source.name, title, Via.Sighting, now), identity,
                                     source.name, title, now)
    requires OnlyAlert(sighted, after, |sighted.sightings|)
    requires t.rows == s.rows + [SP.Row(identity.key, SP.Live, pid)] && t.sightings == s.sightings + [identity.key]
    requires t.accepted == if after.sightings[|db.sightings|].alertState == AlertSent
                           then s.accepted + [|s.sightings|] else s.accepted
    requires t.armedSources == s.armedSources
    ensures Same(after, t)
  {
    var admitted := Admitted(db, identity, source.name, title, Via.Sighting, now);
    var middle := s.(rows := t.rows);
    InsertedSame(db, admitted, s, identity.key, true, pid, middle);
    SightedSame(admitted, NewSighting(identity, source.name, title, now), sighted, after, middle, t);
  }

  /** The two steps that a process takes with a key that it, or somebody, has. */
  lemma QuietRun(s: SP.System, pid: SP.Pid, source: string, armed: bool, key: SP.Key)
    returns (steps: seq<SP.Step>, t: SP.System)
    requires pid in s.pcs && s.pcs[pid].Sweeping? && (armed ==> source in s.armedSources)
    requires (armed && key in s.pcs[pid].known) || SP.HasRow(s, key)
    ensures Alone(s, steps, t, pid)
    ensures t == s.(pcs := t.pcs) && pid in t.pcs && t.pcs[pid] == s.pcs[pid]
  {
    var examine := SP.Examine(pid, source, armed, key);
    var s1 := SP.Next(s, examine);
    var second := if armed && key in s.pcs[pid].known then SP.SuppressKnown(pid) else SP.FindRow(pid);
    if SP.HasRow(s, key) {
      var r :| 0 <= r < |s.rows| && s.rows[r].key == key;
      assert s1.rows[r].key == key;
    }
    steps, t := [examine, second], SP.Next(s1, second);
    TwoSteps(s, examine, s1, second, t);
  }

  /** Every other branch with a known key: at most the visit is noted, which the protocol does not see. */
  lemma QuietSteps(cfg: Config, input: SweepInput, source: Source, armed: bool, p: Progress, c: Candidate,
                   s: SP.System, pid: SP.Pid) returns (steps: seq<SP.Step>, t: SP.System)
    requires Sim(p, s, pid) && (armed ==> source.name in s.armedSources)
    requires var key := Resolve(cfg, source, c).key;
             (armed && key in p.known) || key in p.db.identities
    ensures Alone(s, steps, t, pid) && Sim(CandidateStep(cfg, input, source, armed, p, c), t, pid)
  {
    hide Alone;
    var key := Resolve(cfg, source, c).key;
    steps, t := QuietRun(s, pid, source.name, armed, key);
    QuietSame(p.db, key, source.name, c.title, input.now, cfg.refreshAfter, s, t);
  }

  lemma QuietSame(db: Db, key: string, source: string, title: string, now: int, refreshAfter: int, s: SP.System,
                  t: SP.System)
    requires Same(db, s) && t == s.(pcs := t.pcs)
    ensures Same(db, t) && Same(Touched(db, key, source, title, now, refreshAfter), t)
  {
    SameTables(db, s, t);
    TouchedSame(db, key, source, title, now, refreshAfter, t);
  }

  lemma SameTables(db: Db, s: SP.System, t: SP.System)
    requires Same(db, s) && t == s.(pcs := t.pcs)
    ensures Same(db, t)
  {
    forall k | k in db.identities ensures SP.HasRow(t, k) {
      assert SP.HasRow(s, k);
    }
  }

  lemma TwoSteps(s: SP.System, a: SP.Step, s1: SP.System, b: SP.Step, t: SP.System)
    requires SP.Enabled(s, a) && s1 == SP.Next(s, a) && SP.Enabled(s1, b) && t == SP.Next(s1, b)
    ensures Leads(s, [a, b], t)
  {
    hide SP.Enabled, SP.Next;
    LeadsOneMore(s, [], s, a);
    LeadsOneMore(s, [] + [a], s1, b);
    assert [] + [a] + [b] == [a, b];
  }

  lemma NobodyHas(db: Db, s: SP.System, key: string)
    requires Same(db, s) && key !in db.identities
    ensures !SP.HasRow(s, key)
  {
  }

  lemma SilentRun(s: SP.System, pid: SP.Pid, source: string, key: SP.Key)
    returns (steps: seq<SP.Step>, t: SP.System)
    requires pid in s.pcs && s.pcs[pid].Sweeping? && !SP.HasRow(s, key)
    ensures Alone(s, steps, t, pid)
    ensures t == s.(rows := s.rows + [SP.Row(key, SP.Silent, pid)], pcs := t.pcs)
    ensures pid in t.pcs && t.pcs[pid] == s.pcs[pid]
  {
    var s1 := SP.Next(s, SP.Examine(pid, source, false, key));
    assert !SP.HasRow(s1, key);
    var s2 := SP.Next(s1, SP.FindNothing(pid));
    assert !SP.HasRow(s2, key);
    t := SP.Next(s2, SP.InsertWins(pid));
    TwoSteps(s, SP.Examine(pid, source, false, key), s1, SP.FindNothing(pid), s2);
    LeadsOneMore(s, [SP.Examine(pid, source, false, key), SP.FindNothing(pid)], s2, SP.InsertWins(pid));
    steps := [SP.Examine(pid, source, false, key), SP.FindNothing(pid)] + [SP.InsertWins(pid)];
  }

  lemma SilentSteps(cfg: Config, input: SweepInput, source: Source, p: Progress, c: Candidate, s: SP.System,
                    pid: SP.Pid) returns (steps: seq<SP.Step>, t: SP.System)
    requires Sim(p, s, pid) && Resolve(cfg, source, c).key !in p.db.identities
    ensures Alone(s, steps, t, pid) && Sim(CandidateStep(cfg, input, source, false, p, c), t, pid)
  {
    hide Alone, Same;
    var identity := Resolve(cfg, source, c);
    var key := identity.key;
    NobodyHas(p.db, s, key);
    steps, t := SilentRun(s, pid, source.name, key);
    InsertedSame(p.db, Admitted(p.db, identity, source.name, c.title, Via.Baseline, input.now), s, key, false, pid, t);
  }

  /** Every branch of the candidate loop is a run of the protocol with the same effect on the tables. */
  lemma CandidateIsRun(cfg: Config, input: SweepInput, source: Source, armed: bool, p: Progress, c: Candidate,
                       s: SP.System, pid: SP.Pid) returns (steps: seq<SP.Step>, t: SP.System)
    requires Sim(p, s, pid) && (armed ==> source.name in s.armedSources)
    ensures Alone(s, steps, t, pid) && Sim(CandidateStep(cfg, input, source, armed, p, c), t, pid)
  {
    hide CandidateStep;
    var key := Resolve(cfg, source, c).key;
    if (armed && key in p.known) || key in p.db.identities {
      steps, t := QuietSteps(cfg, input, source, armed, p, c, s, pid);
    } else if armed {
      steps, t := FreshSteps(cfg, input, source, p, c, s, pid);
    } else {
      steps, t := SilentSteps(cfg, input, source, p, c, s, pid);
    }
  }

  lemma {:induction false} CandidatesAreRun(cfg: Config, input: SweepInput, source: Source, armed: bool, p: Progress,
                                            cs: seq<Candidate>, s: SP.System, pid: SP.Pid)
    returns (steps: seq<SP.Step>, t: SP.System)
    requires Sim(p, s, pid) && (armed ==> source.name in s.armedSources)
    ensures Alone(s, steps, t, pid) && Sim(Candidates(cfg, input, source, armed, p, cs), t, pid)
    decreases |cs|
  {
    hide Sim, CandidateStep, Leads, OthersStay;
    if |cs| == 0 {
      NoSteps(s, pid);
      steps, t := [], s;
    } else {
      var front := cs[..|cs| - 1];
      var a, m := CandidatesAreRun(cfg, input, source, armed, p, front, s, pid);
      var b, u := CandidateIsRun(cfg, input, source, armed, Candidates(cfg, input, source, armed, p, front),
                                 cs[|cs| - 1], m, pid);
      AloneOn(s, a, m, b, u, pid);
      steps, t := a + b, u;
    }
  }

  lemma NoSteps(s: SP.System, pid: SP.Pid)
    ensures Alone(s, [], s, pid)
  {
  }

  /* ---- One source, and the whole sweep ---- */

  lemma MarkedSame(db: Db, name: string, ok: bool, status: PollStatus, now: int, s: SP.System, t: SP.System)
    requires Same(db, s) && name in db.states
    requires t == if ok then SP.Next(s, SP.Arm(name)) else s
    ensures Same(MarkPolled(db, name, ok, status, now), t)
  {
    forall k | k in db.identities ensures SP.HasRow(t, k) {
      assert SP.HasRow(s, k);
    }
  }

  /** The counters of the source start again at zero; the tables do not care. */
  lemma Recounted(p: Progress, unseen: nat, suppressed: nat, s: SP.System, pid: SP.Pid)
    requires Sim(p, s, pid)
    ensures Sim(p.(unseen := unseen, suppressed := suppressed), s, pid)
  {
  }

  lemma MarkIsRun(p: Progress, name: string, ok: bool, status: PollStatus, now: int, s: SP.System, pid: SP.Pid)
    returns (steps: seq<SP.Step>, t: SP.System)
    requires Sim(p, s, pid) && name in p.db.states
    ensures Alone(s, steps, t, pid) && Sim(p.(db := MarkPolled(p.db, name, ok, status, now)), t, pid)
  {
    t := if ok then SP.Next(s, SP.Arm(name)) else s;
    steps := [];
    NoSteps(s, pid);
    if ok {
      AloneOneMore(s, [], s, SP.Arm(name), pid);
      steps := [] + [SP.Arm(name)];
    }
    MarkedSame(p.db, name, ok, status, now, s, t);
  }

  lemma SourceIsRun(cfg: Config, input: SweepInput, due: set<string>, o: Outcome, source: Source, s: SP.System,
                    pid: SP.Pid) returns (steps: seq<SP.Step>, t: SP.System)
    requires source.name in o.progress.db.states && Sim(o.progress, s, pid)
    ensures Alone(s, steps, t, pid) && Sim(SourceStep(cfg, input, due, o, source).progress, t, pid)
  {
    var p := o.progress;
    if source.name !in due {
      NoSteps(s, pid);
      steps, t := [], s;
    } else {
      match input.poll(source.name) {
        case PollRaised(_) => steps, t := MarkIsRun(p, source.name, false, PollFailed, input.now, s, pid);
        case Polled(status, cs) =>
          if status == PollFailed || status == PollBlocked {
            steps, t := MarkIsRun(p, source.name, false, status, input.now, s, pid);
          } else {
            steps, t := ProcessIsRun(cfg, input, p, source, status, cs, s, pid);
          }
      }
    }
  }

  lemma ProcessIsRun(cfg: Config, input: SweepInput, p: Progress, source: Source, status: PollStatus,
                     cs: seq<Candidate>, s: SP.System, pid: SP.Pid) returns (steps: seq<SP.Step>, t: SP.System)
    requires source.name in p.db.states && Sim(p, s, pid)
    ensures var start := p.(unseen := 0, suppressed := 0);
            var done := Candidates(cfg, input, source, Armed(p.db, input, source), start, cs);
            && source.name in done.db.states && Alone(s, steps, t, pid)
            && Sim(done.(db := MarkPolled(done.db, source.name, status == PollSuccess, status, input.now)), t, pid)
  {
    hide Alone, Candidates;
    var armed, start := Armed(p.db, input, source), p.(unseen := 0, suppressed := 0);
    Recounted(p, 0, 0, s, pid);
    CandidatesKeepStates(cfg, input, source, armed, start, cs);
    var a, m := CandidatesAreRun(cfg, input, source, armed, start, cs, s, pid);
    var b, u := MarkIsRun(Candidates(cfg, input, source, armed, start, cs), source.name, status == PollSuccess, status,
                          input.now, m, pid);
    AloneOn(s, a, m, b, u, pid);
    steps, t := a + b, u;
  }

  lemma {:induction false} SourcesAreRun(cfg: Config, input: SweepInput, due: set<string>, o: Outcome,
                                         sources: seq<Source>, s: SP.System, pid: SP.Pid)
    returns (steps: seq<SP.Step>, t: SP.System)
    requires AllHaveState(o.progress.db, sources) && Sim(o.progress, s, pid)
    ensures Alone(s, steps, t, pid) && Sim(Sources(cfg, input, due, o, sources).progress, t, pid)
    decreases |sources|
  {
    hide Sim, SourceStep, Leads, OthersStay;
    if |sources| == 0 {
      NoSteps(s, pid);
      steps, t := [], s;
    } else {
      var front, last := sources[..|sources| - 1], sources[|sources| - 1];
      var a, m := SourcesAreRun(cfg, input, due, o, front, s, pid);
      var b, u := SourceIsRun(cfg, input, due, Sources(cfg, input, due, o, front), last, m, pid);
      AloneOn(s, a, m, b, u, pid);
      steps, t := a + b, u;
    }
  }

  lemma BeginsSame(db: Db, s: SP.System, pid: SP.Pid)
    requires Same(db, s) && pid in s.pcs && s.pcs[pid].Idle?
    ensures SP.KeysOf(s) == db.identities.Keys
    ensures Alone(s, [SP.Begin(pid)], SP.Next(s, SP.Begin(pid)), pid)
    ensures Same(db, SP.Next(s, SP.Begin(pid)))
  {
    forall k | k in db.identities ensures k in SP.KeysOf(s) {
      assert SP.HasRow(s, k);
    }
    NoSteps(s, pid);
    AloneOneMore(s, [], s, SP.Begin(pid), pid);
    assert [] + [SP.Begin(pid)] == [SP.Begin(pid)];
    SameTables(db, s, SP.Next(s, SP.Begin(pid)));
  }

  lemma {:induction false} StatesSame(db: Db, sources: seq<Source>, s: SP.System)
    requires Same(db, s)
    ensures Same(WithStates(db, sources), s)
  {
    if |sources| == 0 {
    } else {
      StatesSame(db, sources[..|sources| - 1], s);
    }
  }

  /** Refinement: a sweep that runs undisturbed, from tables that agree with the protocol's state, is a run of the
      protocol by one process, from idle to idle, that ends with the sweep's tables. */
  lemma SweepIsRun(cfg: Config, input: SweepInput, db: Db, s: SP.System, pid: SP.Pid)
    returns (steps: seq<SP.Step>, t: SP.System)
    requires Same(db, s) && pid in s.pcs && s.pcs[pid].Idle?
    ensures Leads(s, steps, t) && Same(AfterSweep(cfg, input, db), t)
    ensures pid in t.pcs && t.pcs[pid].Idle? && OthersStay(s, t, pid)
  {
    hide Sim, SP.Enabled, Sources, WithStates;
    if Refuses(cfg, input) {
      steps, t := [], s;
    } else {
      var sources := Chosen(cfg, input);
      var ready := WithStates(db, sources);
      StatesSame(db, sources, s);
      BeginsSame(ready, s, pid);
      var begun := SP.Next(s, SP.Begin(pid));
      var start := Begun(ready);
      BegunSims(start.progress, s, pid);
      var a, m := SourcesAreRun(cfg, input, Due(cfg, input, ready), start, sources, begun, pid);
      AloneOn(s, [SP.Begin(pid)], begun, a, m, pid);
      FinishSame(Swept(cfg, input, db).progress, m, pid);
      AloneOneMore(s, [SP.Begin(pid)] + a, m, SP.Finish(pid), pid);
      steps, t := [SP.Begin(pid)] + a + [SP.Finish(pid)], SP.Next(m, SP.Finish(pid));
    }
  }

  lemma BegunSims(p: Progress, s: SP.System, pid: SP.Pid)
    requires pid in s.pcs && s.pcs[pid].Idle? && Same(p.db, SP.Next(s, SP.Begin(pid))) && p.known == SP.KeysOf(s)
    ensures Sim(p, SP.Next(s, SP.Begin(pid)), pid)
  {
  }

  lemma FinishSame(p: Progress, m: SP.System, pid: SP.Pid)
    requires Sim(p, m, pid)
    ensures SP.Enabled(m, SP.Finish(pid)) && OthersStay(m, SP.Next(m, SP.Finish(pid)), pid)
    ensures var t := SP.Next(m, SP.Finish(pid));
            Same(p.db, t) && pid in t.pcs && t.pcs[pid].Idle?
  {
    SameTables(p.db, m, SP.Next(m, SP.Finish(pid)));
  }

  /* ---- Whole runs of sweeps ---- */

  /** Any sequence of sweeps, each by the process that the schedule names, one after the other. */
  lemma {:induction false} RunLeads(firings: seq<Firing>, schedule: nat -> SP.Pid, db: Db, s: SP.System)
    returns (steps: seq<SP.Step>, t: SP.System)
    requires Same(db, s) && AllIdle(s) && forall i: nat :: i < |firings| ==> schedule(i) in s.pcs
    ensures Leads(s, steps, t) && Same(AfterRun(firings, db), t) && AllIdle(t) && t.pcs.Keys == s.pcs.Keys
  {
    hide AfterSweep;
    if |firings| == 0 {
      steps, t := [], s;
    } else {
      var front, last, pid := firings[..|firings| - 1], firings[|firings| - 1], schedule(|firings| - 1);
      var a, m := RunLeads(front, schedule, db, s);
      assert pid in s.pcs.Keys && pid in m.pcs;
      var b, u := SweepIsRun(last.cfg, last.input, AfterRun(front, db), m, pid);
      LeadsOn(s, a, m, b, u);
      StillIdle(m, u, pid);
      steps, t := a + b, u;
    }
  }

  ghost predicate AllIdle(s: SP.System) {
    forall p :: p in s.pcs ==> s.pcs[p].Idle?
  }

  lemma StillIdle(m: SP.System, u: SP.System, pid: SP.Pid)
    requires AllIdle(m) && OthersStay(m, u, pid) && pid in m.pcs && pid in u.pcs && u.pcs[pid].Idle?
    ensures AllIdle(u) && u.pcs.Keys == m.pcs.Keys
  {
    forall q ensures q in u.pcs <==> q in m.pcs {
      assert q != pid ==> (q in m.pcs <==> q in u.pcs);
    }
  }

  const NO_TABLES := Db(map[], [], map[], map[])

  /** Nothing stored yet, and these processes idle. */
  function Fresh(pids: set<SP.Pid>): SP.System {
    SP.System([], [], {}, [], map p | p in pids :: SP.Idle)
  }

  /** Every run of the runner, from empty tables, is an execution of the interleaving protocol that ends, with all
      processes idle, in a state that agrees with the run's tables. */
  lemma RunIsExecution(firings: seq<Firing>, schedule: nat -> SP.Pid)
    returns (trace: seq<SP.System>, steps: seq<SP.Step>)
    ensures SP.Execution(trace, steps)
    ensures Same(AfterRun(firings, NO_TABLES), trace[|steps|]) && AllIdle(trace[|steps|])
  {
    var pids := set i | 0 <= i < |firings| :: schedule(i);
    var s := Fresh(pids);
    assert Same(NO_TABLES, s);
    var path, t := RunLeads(firings, schedule, NO_TABLES, s);
    steps := path;
    trace := TraceOf(s, steps, t);
    assert SP.Init(s);
  }

  /** What every interleaving keeps, drawn for the runner's own tables: after any run each key has at most one sighting,
      and the sighted keys are exactly those admitted as sightings. */
  lemma RunnerAlertsOnce(firings: seq<Firing>, schedule: nat -> SP.Pid)
    ensures var db := AfterRun(firings, NO_TABLES);
            && (forall i, j :: 0 <= i < j < |db.sightings| ==> db.sightings[i].key != db.sightings[j].key)
            && (forall i :: 0 <= i < |db.sightings| ==>
                  db.sightings[i].key in db.identities
                  && db.identities[db.sightings[i].key].via == Via.Sighting)
            && (forall key :: key in db.identities && db.identities[key].via == Via.Sighting ==>
                  exists i :: 0 <= i < |db.sightings| && db.sightings[i].key == key)
  {
    var trace, steps := RunIsExecution(firings, schedule);
    var db, s := AfterRun(firings, NO_TABLES), trace[|steps|];
    SP.NoDoubleAlert(trace, steps, |steps|);
    SP.QuiescentSightingsExact(trace, steps, |steps|);
    hide AfterRun, SP.Execution;
    forall i, j | 0 <= i < j < |db.sightings| ensures db.sightings[i].key != db.sightings[j].key {
      assert s.sightings[i] != s.sightings[j];
    }
    forall i | 0 <= i < |db.sightings|
      ensures db.sightings[i].key in db.identities && db.identities[db.sightings[i].key].via == Via.Sighting
    {
      assert s.sightings[i] in s.sightings;
      var r :| 0 <= r < |s.rows| && s.rows[r].key == s.sightings[i] && s.rows[r].via == SP.Live;
    }
    forall key | key in db.identities && db.identities[key].via == Via.Sighting
      ensures exists i :: 0 <= i < |db.sightings| && db.sightings[i].key == key
    {
      assert SP.HasRow(s, key);
      var r :| 0 <= r < |s.rows| && s.rows[r].key == key;
      assert s.rows[r].via == SP.Live;
      assert key in s.sightings;
      var i :| 0 <= i < |s.sightings| && s.sightings[i] == key;
    }
  }
}
