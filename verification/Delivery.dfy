/** Posting an alert with bounded retries. */
module Delivery {
  import opened Common
  import opened Database

  const MAX_DELIVERY_ATTEMPTS: nat := 3
  const MAX_RETRY_SLEEP_SECONDS: real := 5.0

  /** What one post brings back: a response, or an exception from the transport. */
  datatype PostOutcome =
    | Response(status: int, messageId: string, channelId: string, retryAfter: Option<real>, body: string)
    | Raised(error: string)
  {
    predicate Accepted() {
      Response? && status < 300
    }

    /** The loop tries again after this outcome while attempts remain. */
    predicate Retryable() {
      Raised? || status in {429, 500, 502, 503, 504}
    }
  }

  datatype Attempt = Attempt(
    accepted: bool,
    providerStatus: Option<int>,
    messageId: string,
    channelId: string,
    destinationAlias: string,
    attemptCount: nat,
    errorSummary: string)
  {
    function LifecycleState(): (l: Lifecycle)
      ensures l != VerifiedVisible
    {
      if !accepted then Lifecycle.Failed
      else if messageId != "" then ProviderIdentified
      else ProviderAccepted
    }
  }

  /** The number of posts made from attempt `n` on: up to the first outcome that is not retried. */
  function PostsFrom(post: nat -> PostOutcome, n: nat): (last: nat)
    requires 1 <= n <= MAX_DELIVERY_ATTEMPTS
    ensures n <= last <= MAX_DELIVERY_ATTEMPTS
    ensures forall k :: n <= k < last ==> !post(k).Accepted() && post(k).Retryable()
    ensures last < MAX_DELIVERY_ATTEMPTS ==> post(last).Accepted() || !post(last).Retryable()
    decreases MAX_DELIVERY_ATTEMPTS - n
  {
    if n == MAX_DELIVERY_ATTEMPTS || post(n).Accepted() || !post(n).Retryable() then n
    else PostsFrom(post, n + 1)
  }

  /** The status of the latest response among posts `1..n`. */
  function LastStatus(post: nat -> PostOutcome, n: nat): Option<int> {
    if n == 0 then None
    else match post(n) {
      case Response(status, _, _, _, _) => Some(status)
      case Raised(_) => LastStatus(post, n - 1)
    }
  }

  function FailureText(outcome: PostOutcome): string {
    match outcome
    case Response(_, _, _, _, body) => body
    case Raised(error) => error
  }

  /** The evidence of one logical delivery; a failed one always reports three attempts. */
  function Delivered(post: nat -> PostOutcome, alias: string): Attempt {
    var made := PostsFrom(post, 1);
    match post(made)
    case Response(status, messageId, channelId, _, _) =>
      if status < 300 then Attempt(true, Some(status), messageId, channelId, alias, made, "")
      else Attempt(false, LastStatus(post, made), "", "", alias, MAX_DELIVERY_ATTEMPTS, FailureText(post(made)))
    case Raised(_) =>
      Attempt(false, LastStatus(post, made), "", "", alias, MAX_DELIVERY_ATTEMPTS, FailureText(post(made)))
  }

  /** The pause the provider asks for, one second by default, never above the ceiling. */
  function RetryAfterSeconds(retryAfter: Option<real>): real {
    match retryAfter
    case Some(s) => if s < MAX_RETRY_SLEEP_SECONDS then s else MAX_RETRY_SLEEP_SECONDS
    case None => 1.0
  }

  /** A negative pause makes the sleep itself raise, and the exception branch then sleeps for the attempt number. */
  function PauseAfter(outcome: PostOutcome, attempt: nat): real {
    var fallback := if attempt as real < MAX_RETRY_SLEEP_SECONDS then attempt as real else MAX_RETRY_SLEEP_SECONDS;
    match outcome
    case Response(_, _, _, retryAfter, _) =>
      if RetryAfterSeconds(retryAfter) < 0.0 then fallback else RetryAfterSeconds(retryAfter)
    case Raised(_) => fallback
  }

  /** What an attempt says of the posts made: accepted exactly if the last one was, with the ids of that very response
      and the number of posts; otherwise no ids, the status of the latest response, the text of the last failure and
      three attempts, however many posts there were. */
  ghost predicate Evidences(attempt: Attempt, log: seq<PostOutcome>, alias: string) {
    && |log| > 0 && attempt.destinationAlias == alias
    && var last := log[|log| - 1];
       if last.Response? && last.status < 300
       then attempt == Attempt(true, Some(last.status), last.messageId, last.channelId, alias, |log|, "")
       else && !attempt.accepted && attempt.messageId == "" && attempt.channelId == "" && attempt.attemptCount == 3
            && attempt.errorSummary == (if last.Response? then last.body else last.error)
            && LatestStatus(log, attempt.providerStatus)
  }

  /** The status of the latest response, and none if every post raised. */
  ghost predicate LatestStatus(log: seq<PostOutcome>, status: Option<int>) {
    if forall k :: 0 <= k < |log| ==> log[k].Raised? then status.None?
    else exists k :: 0 <= k < |log| && log[k].Response? && status == Some(log[k].status)
                     && forall j :: k < j < |log| ==> log[j].Raised?
  }

  lemma LatestStatusSnoc(log: seq<PostOutcome>, status: Option<int>, next: PostOutcome)
    requires LatestStatus(log, status)
    ensures LatestStatus(log + [next], if next.Response? then Some(next.status) else status)
  {
    var more := log + [next];
    assert more[|log|] == next && forall k :: 0 <= k < |log| ==> more[k] == log[k];
    if next.Raised? && status.Some? {
      var k :| 0 <= k < |log| && log[k].Response? && status == Some(log[k].status)
               && forall j :: k < j < |log| ==> log[j].Raised?;
      assert more[k].Response?;
    }
  }

  lemma {:induction false} LastStatusIsLatest(post: nat -> PostOutcome, log: seq<PostOutcome>)
    requires forall k :: 0 <= k < |log| ==> log[k] == post(k + 1)
    ensures LatestStatus(log, LastStatus(post, |log|))
  {
    if |log| == 0 {
    } else {
      var front, last := log[..|log| - 1], log[|log| - 1];
      LastStatusIsLatest(post, front);
      LatestStatusSnoc(front, LastStatus(post, |front|), last);
      assert front + [last] == log;
      hide LatestStatus;
    }
  }

  /** The evidence of a delivery, from the posts that were made. */
  lemma DeliveredTells(post: nat -> PostOutcome, alias: string, log: seq<PostOutcome>)
    requires |log| == PostsFrom(post, 1) && forall k :: 0 <= k < |log| ==> log[k] == post(k + 1)
    ensures Evidences(Delivered(post, alias), log, alias)
  {
    LastStatusIsLatest(post, log);
  }

  /** The pause after one of the first posts: what the provider asks for, at most five seconds and one second where it
      asks for nothing; after an exception, and where it asks for less than nothing, the number of posts so far. */
  lemma PauseMeaning(outcome: PostOutcome, attempt: nat)
    requires 1 <= attempt <= 3
    ensures PauseAfter(outcome, attempt)
         == match outcome {
              case Raised(_) => attempt as real
              case Response(_, _, _, None, _) => 1.0
              case Response(_, _, _, Some(asked), _) =>
                if asked < 0.0 then attempt as real else if asked > 5.0 then 5.0 else asked
            }
    ensures 0.0 <= PauseAfter(outcome, attempt) <= 5.0
  {
  }

  /** Posts until an acceptance, a final refusal or the third attempt. `log` holds every outcome seen, in order. */
  method PostDetailed(post: nat -> PostOutcome, alias: string)
    returns (attempt: Attempt, log: seq<PostOutcome>, pauses: seq<real>)
    ensures attempt == Delivered(post, alias)
    ensures |log| == PostsFrom(post, 1)
    ensures forall k :: 0 <= k < |log| ==> log[k] == post(k + 1)
    ensures forall k :: 0 <= k < |log| - 1 ==> !log[k].Accepted()
    ensures Evidences(attempt, log, alias)
    ensures |pauses| == |log| - 1 && forall k :: 0 <= k < |pauses| ==> pauses[k] == PauseAfter(log[k], k + 1)
  {
    hide Evidences, PauseAfter;
    log, pauses := [], [];
    var lastStatus: Option<int>, lastError := None, "";
    var n := 1;
    while n <= MAX_DELIVERY_ATTEMPTS
      invariant 1 <= n <= MAX_DELIVERY_ATTEMPTS
      invariant PostsFrom(post, 1) == PostsFrom(post, n)
      invariant lastStatus == LastStatus(post, n - 1)
      invariant |log| == |pauses| == n - 1
      invariant forall k :: 0 <= k < |log| ==> log[k] == post(k + 1) && !log[k].Accepted()
      invariant forall k :: 0 <= k < |pauses| ==> pauses[k] == PauseAfter(log[k], k + 1)
      decreases MAX_DELIVERY_ATTEMPTS - n
    {
      var outcome := post(n);
      log := log + [outcome];
      match outcome {
        case Response(status, messageId, channelId, _, body) =>
          lastStatus := Some(status);
          if status < 300 {
            attempt := Attempt(true, Some(status), messageId, channelId, alias, n, "");
            DeliveredTells(post, alias, log);
            return;
          }
          lastError := body;
        case Raised(error) =>
          lastError := error;
      }
      if !outcome.Retryable() || n == MAX_DELIVERY_ATTEMPTS {
        break;
      }
      pauses := pauses + [PauseAfter(outcome, n)];
      n := n + 1;
    }
    attempt := Attempt(false, lastStatus, "", "", alias, MAX_DELIVERY_ATTEMPTS, lastError);
    DeliveredTells(post, alias, log);
  }

  /** The provider refuses for good on post `k`, before the last attempt. */
  predicate RefusedForGood(post: nat -> PostOutcome, k: nat) {
    && 1 <= k < MAX_DELIVERY_ATTEMPTS && !post(k).Accepted() && !post(k).Retryable()
    && forall j :: 1 <= j < k ==> post(j).Retryable()
  }

  /** The reported attempt count is the number of posts made, except exactly where a post before the third is refused
      for good after retryable ones: then three are reported. */
  lemma AttemptCountIsPostsExactly(post: nat -> PostOutcome, alias: string)
    ensures Delivered(post, alias).attemptCount != PostsFrom(post, 1) <==> exists k: nat :: RefusedForGood(post, k)
    ensures forall k: nat :: RefusedForGood(post, k) ==>
              PostsFrom(post, 1) == k && Delivered(post, alias).attemptCount == MAX_DELIVERY_ATTEMPTS
  {
    var made := PostsFrom(post, 1);
    if Delivered(post, alias).attemptCount != made {
      assert RefusedForGood(post, made);
    }
    forall k: nat | RefusedForGood(post, k)
      ensures made == k && Delivered(post, alias).attemptCount == MAX_DELIVERY_ATTEMPTS
    {
      assert forall j :: 1 <= j < made ==> post(j).Retryable();
    }
  }

  /** A first post answered 404: one post made, three attempts reported. */
  lemma NotFoundReportsThree(alias: string)
    ensures var post := (n: nat) => Response(404, "", "", None, "");
            PostsFrom(post, 1) == 1 && Delivered(post, alias).attemptCount == 3
  {
  }

  /** A delivery is accepted exactly when some post is accepted and every earlier one was worth retrying. */
  lemma AcceptedExactly(post: nat -> PostOutcome, alias: string)
    ensures Delivered(post, alias).accepted
       <==> exists k :: 1 <= k <= MAX_DELIVERY_ATTEMPTS && post(k).Accepted()
                     && forall j :: 1 <= j < k ==> post(j).Retryable()
  {
    var made := PostsFrom(post, 1);
    if Delivered(post, alias).accepted {
      assert post(made).Accepted();
    }
    forall k | 1 <= k <= MAX_DELIVERY_ATTEMPTS && post(k).Accepted() && forall j :: 1 <= j < k ==> post(j).Retryable()
      ensures made == k || post(made).Accepted()
    {
    }
  }
}
