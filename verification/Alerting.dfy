/** Delivering one sighting, and what any sequence of deliveries can do. */
module Alerting {
  import opened Common
  import opened Database
  import opened Delivery
  import opened Receipts
  import opened Guarded

  function SetAlert(db: Db, id: nat, state: AlertState, error: string): Db
    requires 1 <= id <= |db.sightings|
  {
    db.(sightings := db.sightings[id - 1 := db.sightings[id - 1].(alertState := state, alertError := error)])
  }

  predicate IsDelivered(db: Db, id: nat) {
    AlreadyDelivered(db.receipts, SightingReceiptKey(id))
  }

  /** What a send leaves in the alert fields of its sighting. */
  function StateAfter(channel: Channel): AlertState {
    match channel
    case Disabled => AlertDisabled
    case Broken(_) => AlertFailed
    case Online(post, alias) => if Delivered(post, alias).accepted then AlertSent else AlertFailed
  }

  function ErrorAfter(channel: Channel): string {
    match channel
    case Disabled => "editorial delivery disabled/unconfigured"
    case Broken(error) => error
    case Online(post, alias) => if Delivered(post, alias).accepted then "" else Delivered(post, alias).errorSummary
  }

  /** The database after sending sighting `id`: a guarded delivery, and the sighting marked with its outcome. */
  function AfterSend(db: Db, id: nat, channel: Channel, now: int): Db
    requires 1 <= id <= |db.sightings|
  {
    if IsDelivered(db, id) then db
    else SetAlert(db.(receipts := AfterDelivery(db.receipts, SightingReceiptKey(id), channel, now)), id,
                  StateAfter(channel), ErrorAfter(channel))
  }

  function PostsOfSend(db: Db, id: nat, channel: Channel): seq<PostOutcome> {
    PostsOf(db.receipts, SightingReceiptKey(id), channel)
  }

  /** What a send says on its sighting, from what was posted: a delivered one keeps its words; otherwise disabled, or
      failed with the notifier's own error, or sent exactly if the last post was accepted. */
  ghost predicate SaysOutcome(before: SightingRow, after: SightingRow, delivered: bool, channel: Channel,
                              log: seq<PostOutcome>)
  {
    if delivered then after == before && log == []
    else match channel {
      case Disabled =>
        && log == [] && after.alertState == AlertDisabled
        && after.alertError == "editorial delivery disabled/unconfigured"
      case Broken(error) => log == [] && after.alertState == AlertFailed && after.alertError == error
      case Online(_, _) =>
        && |log| > 0
        && var last := log[|log| - 1];
           if last.Response? && last.status < 300 then after.alertState == AlertSent && after.alertError == ""
           else after.alertState == AlertFailed
                && after.alertError == (if last.Response? then last.body else last.error)
    }
  }

  lemma SendSays(db: Db, id: nat, channel: Channel, now: int)
    requires 1 <= id <= |db.sightings|
    ensures SaysOutcome(db.sightings[id - 1], AfterSend(db, id, channel, now).sightings[id - 1], IsDelivered(db, id),
                        channel, PostsOfSend(db, id, channel))
  {
    var log := PostsOfSend(db, id, channel);
    if !IsDelivered(db, id) && channel.Online? {
      assert log[|log| - 1] == channel.post(PostsFrom(channel.post, 1));
    }
  }

  /** A send touches the alert fields of its own sighting and nothing else in the tables. */
  ghost predicate OnlyAlert(before: Db, after: Db, id: nat)
    requires 1 <= id <= |before.sightings|
  {
    && after.identities == before.identities && after.states == before.states
    && |after.sightings| == |before.sightings|
    && after.sightings[..id - 1] == before.sightings[..id - 1]
    && after.sightings[id..] == before.sightings[id..]
    && after.sightings[id - 1]
       == before.sightings[id - 1].(alertState := after.sightings[id - 1].alertState,
                                    alertError := after.sightings[id - 1].alertError)
  }

  lemma SetAlertIsLocal(db: Db, id: nat, state: AlertState, error: string)
    requires 1 <= id <= |db.sightings|
    ensures OnlyAlert(db, SetAlert(db, id, state, error), id)
  {
  }

  lemma SendIsLocal(db: Db, id: nat, channel: Channel, now: int)
    requires 1 <= id <= |db.sightings|
    ensures OnlyAlert(db, AfterSend(db, id, channel, now), id)
  {
    if !IsDelivered(db, id) {
      var noted := db.(receipts := AfterDelivery(db.receipts, SightingReceiptKey(id), channel, now));
      SetAlertIsLocal(noted, id, StateAfter(channel), ErrorAfter(channel));
    }
  }

  class SentinelAlerter {
    const session: Session
    const receipts: DeliveryReceiptService

    constructor (session: Session)
      ensures this.session == session && receipts.session == session
    {
      this.session := session;
      receipts := new DeliveryReceiptService(session);
    }

    ghost predicate Valid() {
      receipts.session == session
    }

    method Send(id: nat, channel: Channel, now: int) returns (state: AlertState, log: seq<PostOutcome>)
      requires Valid() && 1 <= id <= |session.sightings|
      modifies session
      ensures session.View() == AfterSend(old(session.View()), id, channel, now)
      ensures state == session.sightings[id - 1].alertState
      ensures SaysOutcome(old(session.sightings[id - 1]), session.sightings[id - 1],
                          IsDelivered(old(session.View()), id), channel, log)
      ensures log == PostsOfSend(old(session.View()), id, channel)
      ensures |log| <= MAX_DELIVERY_ATTEMPTS
      ensures forall k :: 0 <= k < |log| - 1 ==> !log[k].Accepted()
    {
      log := [];
      SendSays(session.View(), id, channel, now);
      var delivered := receipts.HasDelivered(ENTITY_SENTINEL_SIGHTING, Text.Decimal(id), PURPOSE_SENTINEL_SIGHTING);
      if delivered {
        return session.sightings[id - 1].alertState, log;
      }
      match channel {
        case Disabled =>
          var _ := receipts.Record(ENTITY_SENTINEL_SIGHTING, Text.Decimal(id), PURPOSE_SENTINEL_SIGHTING,
                                   DISABLED_ATTEMPT, now);
          Set(id, AlertDisabled, "editorial delivery disabled/unconfigured");
          state := AlertDisabled;
        case Broken(error) =>
          Set(id, AlertFailed, error);
          state := AlertFailed;
        case Online(post, alias) =>
          var attempt, outcomes, _ := PostDetailed(post, alias);
          log := outcomes;
          var _ := receipts.Record(ENTITY_SENTINEL_SIGHTING, Text.Decimal(id), PURPOSE_SENTINEL_SIGHTING, attempt, now);
          if attempt.accepted {
            Set(id, AlertSent, "");
            state := AlertSent;
          } else {
            Set(id, AlertFailed, attempt.errorSummary);
            state := AlertFailed;
          }
      }
    }

    method Set(id: nat, state: AlertState, error: string)
      requires 1 <= id <= |session.sightings|
      modifies session`sightings
      ensures session.View() == SetAlert(old(session.View()), id, state, error)
    {
      session.sightings :=
        session.sightings[id - 1 := session.sightings[id - 1].(alertState := state, alertError := error)];
    }
  }

  /* ---- Any sequence of sends ---- */

  datatype SendEvent = SendEvent(id: nat, channel: Channel, now: int)

  ghost predicate AllExist(db: Db, events: seq<SendEvent>) {
    forall e :: e in events ==> 1 <= e.id <= |db.sightings|
  }

  function AfterSends(db: Db, events: seq<SendEvent>): (after: Db)
    requires AllExist(db, events)
    ensures |after.sightings| == |db.sightings|
  {
    if |events| == 0 then db
    else
      var last := events[|events| - 1];
      AfterSend(AfterSends(db, events[..|events| - 1]), last.id, last.channel, last.now)
  }

  /** How many posts for sighting `id` the provider accepted over the whole sequence. */
  function AcceptedPosts(db: Db, events: seq<SendEvent>, id: nat): nat
    requires AllExist(db, events)
  {
    if |events| == 0 then 0
    else
      var front, last := events[..|events| - 1], events[|events| - 1];
      AcceptedPosts(db, front, id)
      + (if last.id == id then AcceptedCount(PostsOfSend(AfterSends(db, front), id, last.channel)) else 0)
  }

  /** One send turns "not delivered" into "delivered" exactly when its posts contain one acceptance. */
  lemma SendDelivers(db: Db, id: nat, channel: Channel, now: int)
    requires 1 <= id <= |db.sightings|
    ensures AcceptedCount(PostsOfSend(db, id, channel)) + (if IsDelivered(db, id) then 1 else 0)
         == (if IsDelivered(AfterSend(db, id, channel, now), id) then 1 else 0)
  {
    DeliverySettles(db.receipts, SightingReceiptKey(id), channel, now);
  }

  lemma SendFrames(db: Db, id: nat, channel: Channel, now: int, other: nat)
    requires 1 <= id <= |db.sightings| && other != id
    ensures IsDelivered(AfterSend(db, id, channel, now), other) == IsDelivered(db, other)
  {
    SightingKeysDiffer(id, other);
    DeliveryFrames(db.receipts, SightingReceiptKey(id), channel, now, SightingReceiptKey(other));
  }

  /** Conservation of acceptances: over any sequence of sends and provider outcomes, the number of accepted
      posts for a sighting is exactly the change of its delivered mark. So it is at most one, it is zero once
      delivered, and a delivered sighting stays delivered. */
  lemma {:induction false} AcceptedExactlyOnce(db: Db, events: seq<SendEvent>, id: nat)
    requires AllExist(db, events)
    ensures AcceptedPosts(db, events, id) + (if IsDelivered(db, id) then 1 else 0)
         == (if IsDelivered(AfterSends(db, events), id) then 1 else 0)
  {
    if |events| == 0 {
    } else {
      var front, last := events[..|events| - 1], events[|events| - 1];
      AcceptedExactlyOnce(db, front, id);
      var before := AfterSends(db, front);
      if last.id == id {
        SendDelivers(before, id, last.channel, last.now);
      } else {
        SendFrames(before, last.id, last.channel, last.now, id);
      }
    }
  }

  predicate SameDelivery(db: Db, after: Db, id: nat)
    requires 1 <= id <= |db.sightings| == |after.sightings|
  {
    var key := SightingReceiptKey(id);
    && IsDelivered(db, id) && IsDelivered(after, id)
    && after.receipts[key] == db.receipts[key]
    && after.sightings[id - 1] == db.sightings[id - 1]
  }

  lemma SendKeepsDelivered(db: Db, sent: nat, channel: Channel, now: int, id: nat)
    requires 1 <= sent <= |db.sightings| && 1 <= id <= |db.sightings| && IsDelivered(db, id)
    ensures SameDelivery(db, AfterSend(db, sent, channel, now), id)
  {
    if sent != id {
      SightingKeysDiffer(sent, id);
    }
  }

  /** Once accepted, neither the receipt nor the sighting ever changes again. */
  lemma {:induction false} DeliveredIsFinal(db: Db, events: seq<SendEvent>, id: nat)
    requires AllExist(db, events) && 1 <= id <= |db.sightings| && IsDelivered(db, id)
    ensures SameDelivery(db, AfterSends(db, events), id)
  {
    if |events| == 0 {
    } else {
      var front, last := events[..|events| - 1], events[|events| - 1];
      DeliveredIsFinal(db, front, id);
      SendKeepsDelivered(AfterSends(db, front), last.id, last.channel, last.now, id);
    }
  }
}
