/** The guarded delivery that events, specialist leads and sightings share, over one receipt table. */
module Guarded {
  import opened Common
  import opened Database
  import opened Delivery
  import opened Receipts

  /** The notifier at the moment of one send: switched off, itself failing, or posting to the provider. */
  datatype Channel =
    | Disabled
    | Broken(error: string)
    | Online(post: nat -> PostOutcome, alias: string)

  const DISABLED_ATTEMPT := Attempt(false, None, "", "", "", 0, "editorial_delivery_disabled")

  /** A switched-off notifier leaves a receipt that says so, one attempt more, and everything proved before. */
  lemma DisabledSays(receipts: map<string, Receipt>, key: string, now: int)
    ensures Recorded(receipts, key, DISABLED_ATTEMPT, now)
         == if key in receipts
            then receipts[key].(lifecycle := Lifecycle.Failed, providerStatus := None, lastAttemptAt := now,
                                attemptCount := receipts[key].attemptCount + 1,
                                errorSummary := "editorial_delivery_disabled")
            else Receipt(Lifecycle.Failed, None, "", "", "", 1, now, now, "editorial_delivery_disabled")
  {
  }

  /** The receipt table after one guarded delivery; a notifier that raises leaves no receipt. */
  function AfterDelivery(receipts: map<string, Receipt>, key: string, channel: Channel, now: int)
    : map<string, Receipt>
  {
    if AlreadyDelivered(receipts, key) then receipts
    else match channel {
      case Disabled => receipts[key := Recorded(receipts, key, DISABLED_ATTEMPT, now)]
      case Broken(_) => receipts
      case Online(post, alias) => receipts[key := Recorded(receipts, key, Delivered(post, alias), now)]
    }
  }

  /** Every post that one guarded delivery makes, in order; nothing is posted for a delivered one. */
  function PostsOf(receipts: map<string, Receipt>, key: string, channel: Channel): seq<PostOutcome> {
    if AlreadyDelivered(receipts, key) || !channel.Online? then []
    else seq(PostsFrom(channel.post, 1), k requires 0 <= k => channel.post(k + 1))
  }

  function AcceptedCount(log: seq<PostOutcome>): nat {
    if |log| == 0 then 0
    else AcceptedCount(log[..|log| - 1]) + (if log[|log| - 1].Accepted() then 1 else 0)
  }

  lemma {:induction false} RefusedLog(log: seq<PostOutcome>)
    requires forall k :: 0 <= k < |log| ==> !log[k].Accepted()
    ensures AcceptedCount(log) == 0
  {
    if |log| == 0 {
    } else {
      RefusedLog(log[..|log| - 1]);
    }
  }

  /** One delivery turns "not delivered" into "delivered" exactly when its posts contain one acceptance. */
  lemma DeliverySettles(receipts: map<string, Receipt>, key: string, channel: Channel, now: int)
    ensures AcceptedCount(PostsOf(receipts, key, channel)) + (if AlreadyDelivered(receipts, key) then 1 else 0)
         == (if AlreadyDelivered(AfterDelivery(receipts, key, channel, now), key) then 1 else 0)
  {
    var log := PostsOf(receipts, key, channel);
    if |log| > 0 {
      RefusedLog(log[..|log| - 1]);
    }
  }

  lemma DeliveryFrames(receipts: map<string, Receipt>, key: string, channel: Channel, now: int, other: string)
    requires other != key
    ensures AlreadyDelivered(AfterDelivery(receipts, key, channel, now), other) == AlreadyDelivered(receipts, other)
  {
  }

  /* ---- Any mix of deliveries ---- */

  /** One alert to deliver: for which entity and purpose, with what the notifier will answer. */
  datatype Request = Request(entityType: string, entityId: string, purpose: string, channel: Channel, now: int)
  {
    function Key(): string {
      IdempotencyKey(entityType, entityId, purpose)
    }

    /** A kind of delivery that some caller makes. */
    predicate Known() {
      entityType in ENTITIES && purpose in PURPOSES
    }

    /** For the same entity and purpose. */
    predicate Same(other: Request) {
      entityType == other.entityType && entityId == other.entityId && purpose == other.purpose
    }
  }

  /** The delivery of a lead or an event: asked first, then sent and recorded. An exception goes to the caller. */
  method Deliver(service: DeliveryReceiptService, r: Request) returns (sent: Result<bool>, log: seq<PostOutcome>)
    modifies service.session`receipts
    ensures service.session.receipts == AfterDelivery(old(service.session.receipts), r.Key(), r.channel, r.now)
    ensures log == PostsOf(old(service.session.receipts), r.Key(), r.channel)
    ensures sent.Err? <==> r.channel.Broken? && !AlreadyDelivered(old(service.session.receipts), r.Key())
    ensures r.channel.Disabled? && !AlreadyDelivered(old(service.session.receipts), r.Key()) ==>
              service.session.receipts[r.Key()].errorSummary == "editorial_delivery_disabled"
    ensures sent.Ok? ==> (sent.value <==> AlreadyDelivered(service.session.receipts, r.Key()))
  {
    log := [];
    var delivered := service.HasDelivered(r.entityType, r.entityId, r.purpose);
    if delivered {
      return Ok(true), log;
    }
    var attempt := DISABLED_ATTEMPT;
    match r.channel {
      case Disabled =>
      case Broken(error) =>
        return Err(error), log;
      case Online(post, alias) =>
        var made, outcomes, _ := PostDetailed(post, alias);
        attempt, log := made, outcomes;
    }
    var _ := service.Record(r.entityType, r.entityId, r.purpose, attempt, r.now);
    sent := Ok(attempt.accepted);
  }

  ghost predicate KnownKinds(requests: seq<Request>) {
    forall r :: r in requests ==> r.Known()
  }

  function AfterDeliveries(receipts: map<string, Receipt>, requests: seq<Request>): map<string, Receipt> {
    if |requests| == 0 then receipts
    else
      var last := requests[|requests| - 1];
      AfterDelivery(AfterDeliveries(receipts, requests[..|requests| - 1]), last.Key(), last.channel, last.now)
  }

  /** How many posts for this entity and purpose the provider accepted over the whole mix. */
  function AcceptedPostsFor(receipts: map<string, Receipt>, requests: seq<Request>, r: Request): nat {
    if |requests| == 0 then 0
    else
      var front, last := requests[..|requests| - 1], requests[|requests| - 1];
      AcceptedPostsFor(receipts, front, r)
      + (if last.Same(r) then AcceptedCount(PostsOf(AfterDeliveries(receipts, front), last.Key(), last.channel)) else 0)
  }

  /** Among the known kinds, a key names one entity and one purpose. */
  lemma KnownKeysDiffer(r: Request, s: Request)
    requires r.Known() && s.Known()
    ensures r.Key() == s.Key() <==> r.Same(s)
  {
    if r.Key() == s.Key() {
      assert Collide(r.entityType, r.purpose, s.entityType, s.purpose);
      KnownKindsNeverCollide(r.entityType, r.purpose, s.entityType, s.purpose);
      KeysTellIdsApart(r.entityType, r.purpose, r.entityId, s.entityId);
    }
  }

  /** Over any mix of events, leads and sightings, in any order and with any provider outcomes, the accepted posts for
      one entity and purpose number exactly the change of its own delivered mark: at most one, and none once
      delivered. No alert silences or repeats another. */
  lemma {:induction false} AcceptedOnceInAnyMix(receipts: map<string, Receipt>, requests: seq<Request>, r: Request)
    requires KnownKinds(requests) && r.Known()
    ensures AcceptedPostsFor(receipts, requests, r) + (if AlreadyDelivered(receipts, r.Key()) then 1 else 0)
         == (if AlreadyDelivered(AfterDeliveries(receipts, requests), r.Key()) then 1 else 0)
  {
    hide AlreadyDelivered, AfterDelivery, PostsOf;
    if |requests| == 0 {
    } else {
      var front, last := requests[..|requests| - 1], requests[|requests| - 1];
      var before := AfterDeliveries(receipts, front);
      assert last in requests;
      AcceptedOnceInAnyMix(receipts, front, r);
      KnownKeysDiffer(last, r);
      if last.Same(r) {
        DeliverySettles(before, last.Key(), last.channel, last.now);
      } else {
        DeliveryFrames(before, last.Key(), last.channel, last.now, r.Key());
      }
    }
  }
}
