/** Known identities, sightings and per-source bookkeeping. */
module SentinelStore {
  import opened Common
  import opened Database
  import I = Identity

  datatype Source = Source(name: string, manufacturer: string, cadenceMinutes: int, enabled: bool)

  const NEVER_POLLED := SourceState(None, None, None, None)

  function NewRow(identity: I.Identity, source: string, title: string, via: Via, now: int): IdentityRow {
    IdentityRow(identity.canonical, title, via, source, now, now, source)
  }

  /** Insert if unseen; the unique key keeps the row that came first. */
  function Admitted(db: Db, identity: I.Identity, source: string, title: string, via: Via, now: int): Db {
    if identity.key in db.identities then db
    else db.(identities := db.identities[identity.key := NewRow(identity, source, title, via, now)])
  }

  /** A title is adopted only where none was stored; the visit is noted only past the threshold. */
  function Refreshed(row: IdentityRow, source: string, title: string, now: int, refreshAfter: int): IdentityRow {
    var titled := if title != "" && row.title == "" then row.(title := title) else row;
    if now - row.lastSeenAt >= refreshAfter then titled.(lastSeenAt := now, lastSeenSource := source) else titled
  }

  function Touched(db: Db, key: string, source: string, title: string, now: int, refreshAfter: int): Db {
    if key !in db.identities then db
    else db.(identities := db.identities[key := Refreshed(db.identities[key], source, title, now, refreshAfter)])
  }

  function NewSighting(identity: I.Identity, source: string, title: string, now: int): SightingRow {
    SightingRow(identity.key, source, title, identity.canonical, now, AlertSent, "")
  }

  function WithSighting(db: Db, identity: I.Identity, source: string, title: string, now: int): Db {
    db.(sightings := db.sightings + [NewSighting(identity, source, title, now)])
  }

  function WithState(db: Db, source: string): Db {
    if source in db.states then db else db.(states := db.states[source := NEVER_POLLED])
  }

  /** Only a poll reported as ok moves the success time, and only the first such poll arms. */
  function Marked(state: SourceState, ok: bool, status: PollStatus, now: int): SourceState {
    var polled := state.(lastPollAt := Some(now), lastStatus := Some(status));
    if !ok then polled
    else if state.armedAt.None? then polled.(lastSuccessAt := Some(now), armedAt := Some(now))
    else polled.(lastSuccessAt := Some(now))
  }

  function MarkPolled(db: Db, source: string, ok: bool, status: PollStatus, now: int): Db
    requires source in db.states
  {
    db.(states := db.states[source := Marked(db.states[source], ok, status, now)])
  }

  /** Times are in seconds. A source is due when it never succeeded or its cadence has elapsed since. */
  predicate IsDue(states: map<string, SourceState>, name: string, cadenceMinutes: int, now: int) {
    || name !in states
    || states[name].lastSuccessAt.None?
    || now - states[name].lastSuccessAt.value >= 60 * cadenceMinutes
  }

  class SentinelStore {
    const session: Session

    constructor (session: Session)
      ensures this.session == session
    {
      this.session := session;
    }

    method KnownIdentityKeys() returns (keys: set<string>)
      ensures keys == session.identities.Keys
    {
      keys := session.identities.Keys;
    }

    method Admit(identity: I.Identity, source: string, title: string, via: Via, now: int) returns (created: bool)
      modifies session`identities
      ensures session.View() == Admitted(old(session.View()), identity, source, title, via, now)
      ensures created <==> identity.key !in old(session.identities)
      ensures identity.key in session.identities
    {
      if identity.key in session.identities {
        return false;
      }
      session.identities := session.identities[identity.key := NewRow(identity, source, title, via, now)];
      created := true;
    }

    method RefreshLastSeen(key: string, source: string, title: string, now: int, refreshAfter: int)
      requires key in session.identities
      modifies session`identities
      ensures session.View() == Touched(old(session.View()), key, source, title, now, refreshAfter)
    {
      var row := session.identities[key];
      var stale := now - row.lastSeenAt >= refreshAfter;
      if title != "" && row.title == "" {
        row := row.(title := title);
      }
      if stale {
        row := row.(lastSeenAt := now, lastSeenSource := source);
      }
      session.identities := session.identities[key := row];
    }

    method RecordSighting(identity: I.Identity, source: string, title: string, now: int) returns (id: nat)
      modifies session`sightings
      ensures session.View() == WithSighting(old(session.View()), identity, source, title, now)
      ensures id == |session.sightings| == |old(session.sightings)| + 1
    {
      session.sightings := session.sightings + [NewSighting(identity, source, title, now)];
      id := |session.sightings|;
    }

    method EnsureSourceState(source: string)
      modifies session`states
      ensures session.View() == WithState(old(session.View()), source)
    {
      if source !in session.states {
        session.states := session.states[source := NEVER_POLLED];
      }
    }

    method MarkPoll(source: string, ok: bool, status: PollStatus, now: int)
      requires source in session.states
      modifies session`states
      ensures session.View() == MarkPolled(old(session.View()), source, ok, status, now)
    {
      var state := session.states[source].(lastPollAt := Some(now), lastStatus := Some(status));
      if ok {
        state := state.(lastSuccessAt := Some(now));
        if state.armedAt.None? {
          state := state.(armedAt := Some(now));
        }
      }
      session.states := session.states[source := state];
    }

    /** Exactly the sources whose cadence has elapsed, or that never succeeded. */
    method SourcesDue(sources: seq<Source>, now: int) returns (due: set<string>)
      ensures forall name :: name in due
                 <==> exists s :: s in sources && s.name == name && IsDue(session.states, name, s.cadenceMinutes, now)
    {
      due := {};
      for i := 0 to |sources|
        invariant forall name :: name in due
                     <==> exists s :: s in sources[..i] && s.name == name
                                   && IsDue(session.states, name, s.cadenceMinutes, now)
      {
        var source := sources[i];
        assert sources[..i + 1] == sources[..i] + [source];
        if source.name !in session.states || session.states[source.name].lastSuccessAt.None? {
          due := due + {source.name};
          continue;
        }
        if now - session.states[source.name].lastSuccessAt.value >= 60 * source.cadenceMinutes {
          due := due + {source.name};
        }
      }
      assert sources[..|sources|] == sources;
    }
  }
}
