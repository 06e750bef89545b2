/** Lockout: repeated wrong tokens on one record, and what they leave behind. */
module Lockout {
  import opened Wrappers
  import opened SubscriptionModel
  import opened Exceptions
  import opened Notifications
  import opened Repository
  import opened Subscriber
  import opened SubscriptionExceptionAdvice
  import opened SubscriptionController

  /** One update or delete with a foreign token on a record below the
      ceiling: refused as a false token, with one more error and no mail. */
  lemma MismatchStep(store: Store, maxErrors: Int32, request: Request, channel: Channel, k: nat)
    requires Refusable(store, maxErrors, request, k) && k > 0
    ensures Handle(store, maxErrors, request, channel)
         == Response(Failure(FalseToken), Bump(store, request.details.email), [])
  {
    var r := Handle(store, maxErrors, request, channel);
    assert r.store.Keys == Bump(store, request.details.email).Keys;
  }

  /** The first of `k` foreign tokens leaves the record bumped once. */
  lemma RepeatStep(store: Store, maxErrors: Int32, request: Request, channel: Channel, k: nat)
    requires Refusable(store, maxErrors, request, k) && k > 0
    ensures Repeat(store, maxErrors, request, channel, k)
         == Repeat(Bump(store, request.details.email), maxErrors, request, channel, k - 1)
  {
    MismatchStep(store, maxErrors, request, channel, k);
  }

  /** The first of `k` foreign tokens is refused as a false token. */
  lemma RepliesStep(store: Store, maxErrors: Int32, request: Request, channel: Channel, k: nat)
    requires Refusable(store, maxErrors, request, k) && k > 0
    ensures Replies(store, maxErrors, request, channel, k)
         == [Failure(FalseToken)] + Replies(Bump(store, request.details.email), maxErrors, request, channel, k - 1)
  {
    MismatchStep(store, maxErrors, request, channel, k);
  }

  /** `k` foreign tokens in a row bump the record's counter `k` times. */
  lemma {:induction false} RepeatMismatch(store: Store, maxErrors: Int32, request: Request, channel: Channel, k: nat)
    requires Refusable(store, maxErrors, request, k)
    ensures Repeat(store, maxErrors, request, channel, k) == BumpTimes(store, request.details.email, k)
    decreases k
  {
    if k > 0 {
      var b := Bump(store, request.details.email);
      BumpKeepsRefusable(store, maxErrors, request, k);
      RepeatMismatch(b, maxErrors, request, channel, k - 1);
      RepeatStep(store, maxErrors, request, channel, k);
    }
  }

  /** `k` updates or deletes with a foreign token leave the counter exactly
      `k` higher and every other field and record as it was. */
  lemma MismatchesCount(store: Store, maxErrors: Int32, request: Request, channel: Channel, k: nat)
    requires Refusable(store, maxErrors, request, k)
    ensures Repeat(store, maxErrors, request, channel, k) == AddErrors(store, request.details.email, k)
  {
    RepeatMismatch(store, maxErrors, request, channel, k);
    BumpTimesAdds(store, request.details.email, k, Repeat(store, maxErrors, request, channel, k));
  }

  /** Each of `k` updates or deletes with a foreign token is refused as a
      false token. */
  lemma {:induction false} RepliesMismatch(store: Store, maxErrors: Int32, request: Request, channel: Channel, k: nat)
    requires Refusable(store, maxErrors, request, k)
    ensures Replies(store, maxErrors, request, channel, k) == Refusals(k)
    decreases k
  {
    if k > 0 {
      assert Refusals(k) == [Failure(FalseToken)] + Refusals(k - 1);
      var b := Bump(store, request.details.email);
      BumpKeepsRefusable(store, maxErrors, request, k);
      RepliesMismatch(b, maxErrors, request, channel, k - 1);
      RepliesStep(store, maxErrors, request, channel, k);
    }
  }

  /** `k` refusals as false tokens. */
  function Refusals(k: nat): (r: seq<Result<HttpStatus, Error>>)
    ensures |r| == k
    ensures forall i :: 0 <= i < k ==> r[i] == Failure(FalseToken)
  {
    if k == 0 then [] else [Failure(FalseToken)] + Refusals(k - 1)
  }

  /** After one refusal, `k - 1` more still fit under the ceiling. */
  lemma BumpKeepsRefusable(store: Store, maxErrors: Int32, request: Request, k: nat)
    requires Refusable(store, maxErrors, request, k) && k > 0
    ensures Refusable(Bump(store, request.details.email), maxErrors, request, k - 1)
  {
  }

  /** Bumping `k` times adds exactly `k` to the counter and changes nothing
      else. The claim is `BumpTimes(store, e, k) == AddErrors(store, e, k)`;
      the bumped store is passed in as `r` so that the inductive step compares
      one fixed map against the closed form instead of unfolding `BumpTimes`
      on both sides, which keeps the proof cheap. */
  lemma {:induction false} BumpTimesAdds(store: Store, e: Email, k: nat, r: Store)
    requires e in store && 0 <= store[e].numTokenErrors && store[e].numTokenErrors + k <= Int32Max
    requires r == BumpTimes(store, e, k)
    ensures r == AddErrors(store, e, k)
    decreases k
  {
    if k > 0 {
      BumpTimesAdds(Bump(store, e), e, k - 1, r);
    }
  }

  /** Lockout: once as many foreign tokens as the ceiling allows have been
      refused for a new record, even its correct tokens get
      `UserUnknownOrLocked`, for update and delete alike, and the record
      stays as it is. */
  lemma LockedAfterMaxErrors(store: Store, maxErrors: Int32, request: Request, retry: Token, channel: Channel)
    requires Keyed(store)
    requires !request.Post?
    requires HasText(request.details.token) && HasText(Some(retry))
    requires request.details.email in store
    requires IsForeignToken(store[request.details.email], request.details.token.value)
    requires store[request.details.email].numTokenErrors == 0
    requires maxErrors >= 0
    ensures var e := request.details.email;
      var locked := Repeat(store, maxErrors, request, channel, maxErrors);
      && Handle(locked, maxErrors, Put(SubscriptionDetails(e, Some(retry))), channel)
         == Response(Failure(UserUnknownOrLocked), locked, [])
      && Handle(locked, maxErrors, Delete(SubscriptionDetails(e, Some(retry))), channel)
         == Response(Failure(UserUnknownOrLocked), locked, [])
  {
    MismatchesCount(store, maxErrors, request, channel, maxErrors);
  }
}
