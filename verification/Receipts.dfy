/** Durable delivery evidence, and the guard that keeps an accepted alert from being posted again. */
module Receipts {
  import opened Common
  import opened Text
  import opened Database
  import opened Delivery

  const ENTITY_SENTINEL_SIGHTING := "SENTINEL_SIGHTING"
  const PURPOSE_SENTINEL_SIGHTING := "sentinel_sighting"

  /** Every entity type and purpose that a caller passes. */
  const ENTITIES := {"EVENT", "SPECIALIST_LEAD", "SENTINEL_SIGHTING"}
  const PURPOSES := {"editorial_alert", "lead_early_warning", "lead_correlation", "sentinel_sighting"}

  function IdempotencyKey(entityType: string, entityId: string, purpose: string): string {
    entityType + ":" + entityId + ":" + purpose
  }

  /** The receipt key of one sighting. */
  function SightingReceiptKey(id: nat): string {
    IdempotencyKey(ENTITY_SENTINEL_SIGHTING, Decimal(id), PURPOSE_SENTINEL_SIGHTING)
  }

  /** Keys tell deliveries apart whenever entity types and purposes contain no colon, whatever the ids are. */
  lemma KeysTellDeliveriesApart(e1: string, i1: string, p1: string, e2: string, i2: string, p2: string)
    requires ':' !in e1 && ':' !in e2 && ':' !in p1 && ':' !in p2
    ensures IdempotencyKey(e1, i1, p1) == IdempotencyKey(e2, i2, p2) <==> e1 == e2 && i1 == i2 && p1 == p2
  {
    assert IdempotencyKey(e1, i1, p1) == e1 + ":" + (i1 + ":" + p1);
    assert IdempotencyKey(e2, i2, p2) == e2 + ":" + (i2 + ":" + p2);
    SplitAtFirstColon(e1, i1 + ":" + p1, e2, i2 + ":" + p2);
    SplitAtLastColon(i1, p1, i2, p2);
  }

  /** One kind of delivery, whatever its texts: the key tells the ids apart. */
  lemma KeysTellIdsApart(e: string, p: string, i1: string, i2: string)
    ensures IdempotencyKey(e, i1, p) == IdempotencyKey(e, i2, p) <==> i1 == i2
  {
    if IdempotencyKey(e, i1, p) == IdempotencyKey(e, i2, p) {
      var k1, k2 := IdempotencyKey(e, i1, p), IdempotencyKey(e, i2, p);
      assert |i1| == |i2|;
      assert i1 == k1[|e| + 1..|e| + 1 + |i1|] == k2[|e| + 1..|e| + 1 + |i2|] == i2;
    }
  }

  predicate EndsWith(s: string, tail: string) {
    |tail| <= |s| && s[|s| - |tail|..] == tail
  }

  /** Some ids of the two kinds of delivery share a key. */
  ghost predicate Collide(e1: string, p1: string, e2: string, p2: string) {
    exists i1, i2 {:trigger IdempotencyKey(e1, i1, p1), IdempotencyKey(e2, i2, p2)} ::
      IdempotencyKey(e1, i1, p1) == IdempotencyKey(e2, i2, p2)
  }

  /** One type with its colon begins the other, and one purpose with its colon ends the other. */
  predicate Overlap(e1: string, p1: string, e2: string, p2: string) {
    && (e1 + ":" <= e2 + ":" || e2 + ":" <= e1 + ":")
    && (EndsWith(":" + p1, ":" + p2) || EndsWith(":" + p2, ":" + p1))
  }

  /** Exactly which kinds of delivery can be mistaken for one another under some ids. */
  lemma KeysCollideExactly(e1: string, p1: string, e2: string, p2: string)
    ensures Collide(e1, p1, e2, p2) <==> Overlap(e1, p1, e2, p2)
  {
    if Collide(e1, p1, e2, p2) {
      var i1, i2 :| IdempotencyKey(e1, i1, p1) == IdempotencyKey(e2, i2, p2);
      CollidingOverlap(e1, i1, p1, e2, i2, p2);
    }
    if Overlap(e1, p1, e2, p2) {
      if e1 + ":" <= e2 + ":" {
        OverlappingCollide(e1, p1, e2, p2);
      } else {
        OverlappingCollide(e2, p2, e1, p1);
      }
    }
  }

  lemma CollidingOverlap(e1: string, i1: string, p1: string, e2: string, i2: string, p2: string)
    requires IdempotencyKey(e1, i1, p1) == IdempotencyKey(e2, i2, p2)
    ensures Overlap(e1, p1, e2, p2)
  {
    assert (e1 + ":") + (i1 + ":" + p1) == IdempotencyKey(e1, i1, p1);
    assert (e2 + ":") + (i2 + ":" + p2) == IdempotencyKey(e2, i2, p2);
    OneBeginsOther(e1 + ":", i1 + ":" + p1, e2 + ":", i2 + ":" + p2);
    assert (e1 + ":" + i1) + (":" + p1) == IdempotencyKey(e1, i1, p1);
    assert (e2 + ":" + i2) + (":" + p2) == IdempotencyKey(e2, i2, p2);
    OneEndsOther(e1 + ":" + i1, ":" + p1, e2 + ":" + i2, ":" + p2);
  }

  lemma OneBeginsOther(a: string, x: string, b: string, y: string)
    requires a + x == b + y
    ensures a <= b || b <= a
  {
    assert forall k :: 0 <= k < |a| ==> (a + x)[k] == a[k];
    assert forall k :: 0 <= k < |b| ==> (b + y)[k] == b[k];
  }

  lemma OneEndsOther(x: string, a: string, y: string, b: string)
    requires x + a == y + b
    ensures EndsWith(a, b) || EndsWith(b, a)
  {
    var whole := x + a;
    assert whole[|x|..] == a && whole == y + b && whole[|y|..] == b;
    if |x| <= |y| {
      assert a[|y| - |x|..] == whole[|y|..];
    } else {
      assert b[|x| - |y|..] == whole[|x|..];
    }
  }

  lemma OverlappingCollide(e1: string, p1: string, e2: string, p2: string)
    requires Overlap(e1, p1, e2, p2) && e1 + ":" <= e2 + ":"
    ensures Collide(e1, p1, e2, p2) && Collide(e2, p2, e1, p1)
  {
    var x := (e2 + ":")[|e1| + 1..];
    assert e2 + ":" == e1 + ":" + x;
    if EndsWith(":" + p2, ":" + p1) {
      var y := Beginning(":" + p2, ":" + p1);
      hide IdempotencyKey, Overlap, EndsWith;
      WitnessIds(e1, e2, x, p1, p2, y);
    } else {
      var y := Beginning(":" + p1, ":" + p2);
      hide IdempotencyKey, Overlap, EndsWith;
      WitnessIdsCrossed(e1, e2, x, p1, p2, y);
    }
  }

  lemma Beginning(s: string, tail: string) returns (y: string)
    requires EndsWith(s, tail)
    ensures s == y + tail
  {
    y := s[..|s| - |tail|];
  }

  lemma WitnessIds(e1: string, e2: string, x: string, p1: string, p2: string, y: string)
    requires e2 + ":" == e1 + ":" + x && ":" + p2 == y + (":" + p1)
    ensures IdempotencyKey(e1, x + y, p1) == IdempotencyKey(e2, "", p2)
  {
    assert IdempotencyKey(e1, x + y, p1) == (e1 + ":" + x) + (y + (":" + p1));
    assert IdempotencyKey(e2, "", p2) == (e2 + ":") + (":" + p2);
  }

  lemma WitnessIdsCrossed(e1: string, e2: string, x: string, p1: string, p2: string, y: string)
    requires e2 + ":" == e1 + ":" + x && ":" + p1 == y + (":" + p2)
    ensures IdempotencyKey(e1, x, p1) == IdempotencyKey(e2, y, p2)
  {
    assert IdempotencyKey(e1, x, p1) == (e1 + ":" + x) + (":" + p1);
    assert IdempotencyKey(e2, y, p2) == (e2 + ":") + (y + (":" + p2));
  }

  lemma NoColons(e: string, p: string)
    requires e in ENTITIES && p in PURPOSES
    ensures ':' !in e && ':' !in p
  {
  }

  /** The kinds of delivery that exist in the program never collide with one another. */
  lemma KnownKindsNeverCollide(e1: string, p1: string, e2: string, p2: string)
    requires e1 in ENTITIES && e2 in ENTITIES && p1 in PURPOSES && p2 in PURPOSES
    ensures Collide(e1, p1, e2, p2) <==> e1 == e2 && p1 == p2
  {
    NoColons(e1, p1);
    NoColons(e2, p2);
    hide IdempotencyKey;
    if Collide(e1, p1, e2, p2) {
      var i1, i2 :| IdempotencyKey(e1, i1, p1) == IdempotencyKey(e2, i2, p2);
      KeysTellDeliveriesApart(e1, i1, p1, e2, i2, p2);
    }
    if e1 == e2 && p1 == p2 {
      assert IdempotencyKey(e1, "", p1) == IdempotencyKey(e2, "", p2);
    }
  }

  /** With a colon in a type, two different deliveries can share a key. */
  lemma ColonsConfuseKeys()
    ensures IdempotencyKey("EVENT:1", "2", "p") == IdempotencyKey("EVENT", "1:2", "p")
  {
  }

  lemma SightingKeyIs(id: nat)
    ensures SightingReceiptKey(id) == "SENTINEL_SIGHTING:" + Decimal(id) + ":sentinel_sighting"
  {
    assert "SENTINEL_SIGHTING" + ":" == "SENTINEL_SIGHTING:" && ":" + "sentinel_sighting" == ":sentinel_sighting";
  }

  lemma SightingKeysDiffer(m: nat, n: nat)
    ensures SightingReceiptKey(m) == SightingReceiptKey(n) <==> m == n
  {
    KeysTellDeliveriesApart(ENTITY_SENTINEL_SIGHTING, Decimal(m), PURPOSE_SENTINEL_SIGHTING,
                            ENTITY_SENTINEL_SIGHTING, Decimal(n), PURPOSE_SENTINEL_SIGHTING);
    DecimalInjective(m, n);
  }

  predicate IsAccepted(lifecycle: Lifecycle) {
    lifecycle in {ProviderAccepted, ProviderIdentified, VerifiedVisible}
  }

  predicate AlreadyDelivered(receipts: map<string, Receipt>, key: string) {
    key in receipts && IsAccepted(receipts[key].lifecycle)
  }

  /** The row after recording one more attempt for a delivery. */
  function Recorded(receipts: map<string, Receipt>, key: string, attempt: Attempt, now: int): Receipt {
    var before := if key in receipts then receipts[key]
                  else Receipt(Lifecycle.Failed, None, "", "", "", 0, now, now, "");
    Receipt(
      attempt.LifecycleState(),
      attempt.providerStatus,
      if attempt.messageId != "" then attempt.messageId else before.messageId,
      if attempt.channelId != "" then attempt.channelId else before.channelId,
      if attempt.destinationAlias != "" then attempt.destinationAlias else before.destinationAlias,
      before.attemptCount + Max(attempt.attemptCount, 1),
      before.firstAttemptAt,
      now,
      attempt.errorSummary)
  }

  class DeliveryReceiptService {
    const session: Session

    constructor (session: Session)
      ensures this.session == session
    {
      this.session := session;
    }

    method Find(entityType: string, entityId: string, purpose: string) returns (receipt: Option<Receipt>)
      ensures receipt.Some? <==> IdempotencyKey(entityType, entityId, purpose) in session.receipts
      ensures receipt.Some? ==> receipt.value == session.receipts[IdempotencyKey(entityType, entityId, purpose)]
    {
      var key := IdempotencyKey(entityType, entityId, purpose);
      receipt := if key in session.receipts then Some(session.receipts[key]) else None;
    }

    method HasDelivered(entityType: string, entityId: string, purpose: string) returns (delivered: bool)
      ensures delivered == AlreadyDelivered(session.receipts, IdempotencyKey(entityType, entityId, purpose))
    {
      var receipt := Find(entityType, entityId, purpose);
      delivered := receipt.Some? && IsAccepted(receipt.value.lifecycle);
    }

    method Record(entityType: string, entityId: string, purpose: string, attempt: Attempt, now: int)
      returns (receipt: Receipt)
      modifies session`receipts
      ensures receipt == Recorded(old(session.receipts), IdempotencyKey(entityType, entityId, purpose), attempt, now)
      ensures session.receipts == old(session.receipts)[IdempotencyKey(entityType, entityId, purpose) := receipt]
    {
      var key := IdempotencyKey(entityType, entityId, purpose);
      var found := Find(entityType, entityId, purpose);
      match found {
        case None => receipt := Receipt(Lifecycle.Failed, None, "", "", "", 0, now, now, "");
        case Some(r) => receipt := r;
      }
      receipt := receipt.(lifecycle := attempt.LifecycleState(), providerStatus := attempt.providerStatus);
      if attempt.destinationAlias != "" {
        receipt := receipt.(destinationAlias := attempt.destinationAlias);
      }
      receipt := receipt.(attemptCount := receipt.attemptCount + Max(attempt.attemptCount, 1), lastAttemptAt := now);
      if attempt.messageId != "" {
        receipt := receipt.(messageId := attempt.messageId);
      }
      if attempt.channelId != "" {
        receipt := receipt.(channelId := attempt.channelId);
      }
      receipt := receipt.(errorSummary := attempt.errorSummary);
      session.receipts := session.receipts[key := receipt];
    }
  }

  /** One attempt, and when it was recorded. */
  datatype Timed = Timed(attempt: Attempt, at: int)

  /** Any number of attempts recorded for one delivery, oldest first. */
  function RecordedAll(receipts: map<string, Receipt>, key: string, history: seq<Timed>): map<string, Receipt> {
    if |history| == 0 then receipts
    else
      var before, last := RecordedAll(receipts, key, history[..|history| - 1]), history[|history| - 1];
      before[key := Recorded(before, key, last.attempt, last.at)]
  }

  /** What a history of attempts adds to the count: every record at least one. */
  function Counted(history: seq<Timed>): (n: nat)
    ensures n >= |history|
  {
    if |history| == 0 then 0
    else Counted(history[..|history| - 1]) + Max(history[|history| - 1].attempt.attemptCount, 1)
  }

  datatype Field = MessageId | ChannelId | Alias

  function TextOf(attempt: Attempt, field: Field): string {
    match field
    case MessageId => attempt.messageId
    case ChannelId => attempt.channelId
    case Alias => attempt.destinationAlias
  }

  /** The latest text that is not empty, or the one at the start. */
  ghost predicate IsLatestText(start: string, history: seq<Timed>, field: Field, kept: string) {
    if forall i :: 0 <= i < |history| ==> TextOf(history[i].attempt, field) == "" then kept == start
    else exists i :: 0 <= i < |history| && TextOf(history[i].attempt, field) == kept != ""
                     && forall j :: i < j < |history| ==> TextOf(history[j].attempt, field) == ""
  }

  lemma LatestTextSnoc(start: string, history: seq<Timed>, field: Field, kept: string, next: Timed)
    requires IsLatestText(start, history, field, kept)
    ensures IsLatestText(start, history + [next], field,
                         if TextOf(next.attempt, field) != "" then TextOf(next.attempt, field) else kept)
  {
    var more := history + [next];
    assert more[|history|] == next && forall i :: 0 <= i < |history| ==> more[i] == history[i];
    if TextOf(next.attempt, field) == "" && exists i :: 0 <= i < |history| && TextOf(history[i].attempt, field) != "" {
      var i :| 0 <= i < |history| && TextOf(history[i].attempt, field) == kept != ""
               && forall j :: i < j < |history| ==> TextOf(history[j].attempt, field) == "";
      assert TextOf(more[i].attempt, field) == kept;
    }
  }

  const NO_RECEIPT := Receipt(Lifecycle.Failed, None, "", "", "", 0, 0, 0, "")

  /** Texts once proved stay until a later attempt brings another. */
  ghost predicate KeepsTexts(start: Receipt, history: seq<Timed>, r: Receipt) {
    && IsLatestText(start.messageId, history, MessageId, r.messageId)
    && IsLatestText(start.channelId, history, ChannelId, r.channelId)
    && IsLatestText(start.destinationAlias, history, Alias, r.destinationAlias)
  }

  /** What the latest attempt alone decides. */
  ghost predicate ShowsLast(last: Timed, r: Receipt) {
    && (IsAccepted(r.lifecycle) <==> last.attempt.accepted)
    && (r.lifecycle == ProviderIdentified <==> last.attempt.accepted && last.attempt.messageId != "")
    && r.providerStatus == last.attempt.providerStatus && r.errorSummary == last.attempt.errorSummary
    && r.lastAttemptAt == last.at
  }

  function ReceiptAt(receipts: map<string, Receipt>, key: string): Receipt {
    if key in receipts then receipts[key] else NO_RECEIPT
  }

  /** What a history of attempts leaves in the receipt of one delivery. */
  ghost predicate TellsHistory(before: map<string, Receipt>, key: string, history: seq<Timed>,
                               after: map<string, Receipt>)
    requires |history| > 0
  {
    && key in after
    && ShowsLast(history[|history| - 1], after[key])
    && KeepsTexts(ReceiptAt(before, key), history, after[key])
    && after[key].attemptCount == ReceiptAt(before, key).attemptCount + Counted(history)
    && after[key].firstAttemptAt == (if key in before then before[key].firstAttemptAt else history[0].at)
  }

  lemma TextsKept(receipts: map<string, Receipt>, key: string, start: Receipt, history: seq<Timed>, next: Timed)
    requires KeepsTexts(start, history, ReceiptAt(receipts, key))
    ensures KeepsTexts(start, history + [next], Recorded(receipts, key, next.attempt, next.at))
  {
    var r := ReceiptAt(receipts, key);
    hide IsLatestText;
    LatestTextSnoc(start.messageId, history, MessageId, r.messageId, next);
    LatestTextSnoc(start.channelId, history, ChannelId, r.channelId, next);
    LatestTextSnoc(start.destinationAlias, history, Alias, r.destinationAlias, next);
  }

  lemma LastShown(receipts: map<string, Receipt>, key: string, next: Timed)
    ensures ShowsLast(next, Recorded(receipts, key, next.attempt, next.at))
  {
  }

  lemma OneMoreRecord(before: map<string, Receipt>, key: string, history: seq<Timed>, mid: map<string, Receipt>,
                      next: Timed)
    requires if |history| == 0 then mid == before else TellsHistory(before, key, history, mid)
    ensures TellsHistory(before, key, history + [next], mid[key := Recorded(mid, key, next.attempt, next.at)])
  {
    hide KeepsTexts, ShowsLast;
    if |history| == 0 {
      NothingLatest(ReceiptAt(before, key), history);
    }
    TextsKept(mid, key, ReceiptAt(before, key), history, next);
    LastShown(mid, key, next);
    assert (history + [next])[..|history|] == history;
  }

  lemma NothingLatest(start: Receipt, none: seq<Timed>)
    requires none == []
    ensures KeepsTexts(start, none, start)
  {
  }

  /** Over any sequence of attempts: the outcome, status and error shown are those of the latest attempt alone, so that
      recording overwrites an acceptance; a proved message id, a channel id and an alias are never erased; the count
      is the old one with every record counted at least once; the first time stays and the last one moves. */
  lemma {:induction false} RecordingHistory(receipts: map<string, Receipt>, key: string, history: seq<Timed>)
    requires |history| > 0
    ensures TellsHistory(receipts, key, history, RecordedAll(receipts, key, history))
  {
    hide TellsHistory, Recorded;
    var front, last := history[..|history| - 1], history[|history| - 1];
    if |front| == 0 {
    } else {
      RecordingHistory(receipts, key, front);
    }
    OneMoreRecord(receipts, key, front, RecordedAll(receipts, key, front), last);
    assert front + [last] == history;
  }
}
