/** The subscription service (service/Subscriber.java): token transitions
    on one record, and the sequential body of the bulk distribution with its
    single-permit lock. */
module Subscriber {
  import opened Wrappers
  import opened SubscriptionModel
  import opened Exceptions
  import opened Notifications
  import opened Repository

  /** What a call leaves behind: its result or exception, the store after
      it, and the mails sent during it. */
  datatype Response<+T> = Response(result: Result<T, Error>, store: Store, mails: seq<Mail>)

  /** Asks the new subscriber to confirm with the user confirmation token. */
  function InitiateToken(s: Subscription, channel: Channel): (d: Delivery)
    ensures d.failure.None? <==> channel(PleaseConfirm(s.email, s.userConfirmationToken)).None?
    ensures d.failure.None? ==> d.delivered == [PleaseConfirm(s.email, s.userConfirmationToken)]
    ensures d.failure.Some? ==> d.delivered == []
  {
    SendDelivers([PleaseConfirm(s.email, s.userConfirmationToken)], channel);
    Send([PleaseConfirm(s.email, s.userConfirmationToken)], channel)
  }

  /** The common tail of both accepted tokens: the mails go out first, and
      only if all of them are sent is the record saved with its counter
      reset; a failed send is thrown before the save. */
  function SendThenSave(store: Store, s: Subscription, mails: seq<Mail>, channel: Channel): (r: Response<Subscription>)
    requires Keyed(store)
    ensures r.result.Success? <==> forall i :: 0 <= i < |mails| ==> channel(mails[i]).None?
    ensures r.result.Success? ==> r.result.value == s.(numTokenErrors := 0) && r.mails == mails
    ensures r.result.Success? ==> r.store == Save(store, r.result.value)
    ensures r.result.Failure? ==> r.result.error.SendFailed? && r.store == store
    // a failure is the first refused mail's, after the mails before it went out
    ensures r.result.Failure? ==>
      && |r.mails| < |mails| && r.mails == mails[..|r.mails|]
      && channel(mails[|r.mails|]) == Some(r.result.error.cause)
    ensures forall i :: 0 <= i < |r.mails| ==> channel(r.mails[i]).None?
  {
    SendDelivers(mails, channel);
    var d := Send(mails, channel);
    if d.failure.Some? then Response(Failure(SendFailed(d.failure.value)), store, d.delivered)
    else
      var saved := ResetNumTokenErrors(s);
      Response(Success(saved), Save(store, saved), d.delivered)
  }

  /** True when `token` is the owner's approval of `s`. */
  predicate IsOwnerApproval(s: Subscription, token: Token) {
    s.confirmedByUser && token == s.ownerConfirmationToken
  }

  /** True when `token` matches no transition `applyUpdateToken` offers. */
  predicate IsUpdateMismatch(s: Subscription, token: Token) {
    !IsOwnerApproval(s, token) && token != s.userConfirmationToken
  }

  function ApplyUpdateToken(store: Store, s: Subscription, token: Token, channel: Channel): (r: Response<Subscription>)
    requires Keyed(store)
    // owner approval: needs the user's confirmation, and comes first
    ensures IsOwnerApproval(s, token) ==>
      var cv := Cv(s.email, s.userUnsubscribeToken, true);
      && (r.result.Success? <==> channel(cv).None?)
      && (r.result.Success? ==>
            && r.result.value == s.(confirmedByOwner := true, numTokenErrors := 0)
            && r.mails == [cv])
      && (r.result.Failure? ==> r.result == Failure(SendFailed(channel(cv).value)) && r.mails == [])
    // user confirmation: the wait notice goes out before the owner's request
    ensures !IsOwnerApproval(s, token) && token == s.userConfirmationToken ==>
      var wait := PleaseWait(s.email);
      var approve := PleaseApprove(s.email, s.ownerConfirmationToken);
      && (r.result.Success? <==> channel(wait).None? && channel(approve).None?)
      && (r.result.Success? ==>
            && r.result.value == s.(confirmedByUser := true, numTokenErrors := 0)
            && r.mails == [wait, approve])
      && (channel(wait).Some? ==> r.result == Failure(SendFailed(channel(wait).value)) && r.mails == [])
      && (channel(wait).None? && channel(approve).Some? ==>
            r.result == Failure(SendFailed(channel(approve).value)) && r.mails == [wait])
    // the owner flag is only ever set by the owner's token on a user-confirmed record
    ensures r.result.Success? && r.result.value.confirmedByOwner && !s.confirmedByOwner ==>
      s.confirmedByUser && token == s.ownerConfirmationToken
    // a success is saved
    ensures r.result.Success? ==> r.result.value.email == s.email && r.store == Save(store, r.result.value)
    // a mismatch is counted and saved, and sends nothing
    ensures r.result == Failure(FalseToken) <==> IsUpdateMismatch(s, token)
    ensures IsUpdateMismatch(s, token) ==> r.mails == [] && r.store == Save(store, IncNumTokenErrors(s))
    // an accepted token fails only by a refused mail, which is thrown before the save
    ensures !IsUpdateMismatch(s, token) && r.result.Failure? ==> r.result.error.SendFailed? && r.store == store
  {
    if IsOwnerApproval(s, token) then
      SendThenSave(store, s.(confirmedByOwner := true), [Cv(s.email, s.userUnsubscribeToken, true)], channel)
    else if token == s.userConfirmationToken then
      var mails := [PleaseWait(s.email), PleaseApprove(s.email, s.ownerConfirmationToken)];
      assert (forall i :: 0 <= i < |mails| ==> channel(mails[i]).None?)
         <==> channel(mails[0]).None? && channel(mails[1]).None?;
      SendThenSave(store, s.(confirmedByUser := true), mails, channel)
    else
      Response(Failure(FalseToken), Save(store, IncNumTokenErrors(s)), [])
  }

  function ApplyDeleteToken(store: Store, s: Subscription, token: Token): (r: Response<Subscription>)
    requires Keyed(store)
    ensures r.mails == []
    ensures r.result.Success? <==> token == s.userUnsubscribeToken
    ensures r.result.Failure? ==> r.result.error == FalseToken
    // a match removes the record and nothing else
    ensures token == s.userUnsubscribeToken ==>
      && s.email !in r.store
      && r.store.Keys == store.Keys - {s.email}
      && (forall e :: e in r.store ==> r.store[e] == store[e])
    // a mismatch keeps the record, counted once more
    ensures token != s.userUnsubscribeToken ==> r.store == Save(store, IncNumTokenErrors(s))
  {
    if token == s.userUnsubscribeToken then Response(Success(s), Delete(store, s), [])
    else Response(Failure(FalseToken), Save(store, IncNumTokenErrors(s)), [])
  }

  // ---------------------------------------------------------------------
  // Distribution

  /** The broadcast each recipient in `subs` receives, in order. */
  function Broadcasts(subs: seq<Subscription>): seq<Mail> {
    seq(|subs|, i requires 0 <= i < |subs| => Cv(subs[i].email, subs[i].userUnsubscribeToken, false))
  }

  lemma BroadcastsAppend(a: seq<Subscription>, b: seq<Subscription>)
    ensures Broadcasts(a + b) == Broadcasts(a) + Broadcasts(b)
  {
  }

  lemma BroadcastsSlice(subs: seq<Subscription>, lo: nat, hi: nat)
    requires lo <= hi <= |subs|
    ensures Broadcasts(subs[lo..hi]) == Broadcasts(subs)[lo..hi]
  {
  }

  /** Sending the broadcasts of the records up to `hi` is sending those up
      to `lo` and then those of the page from `lo` to `hi`. */
  lemma PageSend(approved: seq<Subscription>, lo: nat, hi: nat, content: seq<Subscription>, channel: Channel)
    requires lo <= hi <= |approved| && content == approved[lo..hi]
    ensures Send(Broadcasts(approved)[..hi], channel)
         == if Send(Broadcasts(approved)[..lo], channel).failure.Some? then Send(Broadcasts(approved)[..lo], channel)
            else Delivery(Send(Broadcasts(approved)[..lo], channel).delivered + Send(Broadcasts(content), channel).delivered,
                          Send(Broadcasts(content), channel).failure)
  {
    BroadcastsSlice(approved, lo, hi);
    SendSlices(Broadcasts(approved), lo, hi, channel);
  }

  /** Each record the store holds receives exactly one broadcast if the
      owner confirmed it and none otherwise. */
  lemma {:induction false} ApprovedBroadcastCount(store: Store, order: seq<Email>, e: Email)
    requires Keyed(store)
    requires forall i, j :: 0 <= i < j < |order| ==> order[i] != order[j]
    ensures CvCount(Broadcasts(Approved(store, order)), e)
         == if e in order && e in store && store[e].confirmedByOwner then 1 else 0
  {
    if |order| > 0 {
      var rest := Approved(store, order[1..]);
      ApprovedBroadcastCount(store, order[1..], e);
      assert e in order <==> e == order[0] || e in order[1..];
      if e == order[0] {
        assert e !in order[1..];
      }
      if order[0] in store && store[order[0]].confirmedByOwner {
        var head := store[order[0]];
        BroadcastsAppend([head], rest);
        CvCountAppend(Broadcasts([head]), Broadcasts(rest), e);
        assert Broadcasts([head]) == [Cv(order[0], head.userUnsubscribeToken, false)];
        assert CvCount(Broadcasts([head]), e) == if e == order[0] then 1 else 0;
      }
    }
  }

  /** Over a full enumeration of the store: one broadcast per approved
      record, none to any other. */
  lemma OneBroadcastPerApproved(store: Store, order: seq<Email>, e: Email)
    requires Keyed(store) && IsEnumeration(store, order)
    ensures CvCount(Broadcasts(Approved(store, order)), e)
         == if e in store && store[e].confirmedByOwner then 1 else 0
  {
    ApprovedBroadcastCount(store, order, e);
  }

  /** The loop of `distribute` after it holds the lock: fetch page after page
      while the current page has a next, and send each recipient of a page
      its broadcast. A failed send is not caught, so it ends the run. */
  method DistributePages(store: Store, order: seq<Email>, pageSize: nat, channel: Channel)
    returns (sent: seq<Mail>, failure: Option<SendFailure>)
    requires pageSize > 0
    ensures Delivery(sent, failure) == Send(Broadcasts(Approved(store, order)), channel)
  {
    ghost var approved := Approved(store, order);
    ghost var all := Broadcasts(approved);
    var pageIndex: nat := 0;
    ghost var offset: nat := 0;
    ghost var done: nat := 0;
    var more := true;
    sent := [];
    while more
      invariant offset == pageIndex * pageSize
      invariant done == Min(offset, |approved|)
      invariant more ==> offset < |approved| || pageIndex == 0
      invariant !more ==> |approved| <= offset
      invariant Send(all[..done], channel) == Delivery(sent, None)
      decreases (if more then 1 else 0) + |approved| - done
    {
      var page := FindAllByConfirmedByOwnerIsTrue(store, order, pageIndex, pageSize);
      assert (pageIndex + 1) * pageSize == offset + pageSize;
      ghost var hi := Min(offset + pageSize, |approved|);
      PageSend(approved, done, hi, page.content, channel);
      var d := Send(Broadcasts(page.content), channel);
      sent := sent + d.delivered;
      if d.failure.Some? {
        SendSlices(all, hi, |all|, channel);
        assert all[..|all|] == all;
        failure := d.failure;
        return;
      }
      pageIndex := pageIndex + 1;
      offset := offset + pageSize;
      done := hi;
      more := page.hasNext;
    }
    assert all[..|all|] == all;
    failure := None;
  }

  // ---------------------------------------------------------------------
  // The distribution lock: a semaphore created with one permit.

  /** `isDistributing`: no permit is left. */
  predicate IsDistributing(permits: nat) {
    permits == 0
  }

  /** `Semaphore.acquire`: throws if the thread is interrupted, otherwise
      takes a permit. With no permit left and no interrupt it would block
      until another thread releases, which a sequential model cannot show. */
  function Acquire(permits: nat, interrupted: bool): (r: Option<nat>)
    requires permits > 0 || interrupted
    ensures r.None? <==> interrupted
    ensures r.Some? ==> r.value + 1 == permits
  {
    if interrupted then None else Some(permits - 1)
  }

  /** The permits `distribute` leaves as the source writes it: the `finally`
      block releases a permit even when `acquire` threw and none was taken. */
  function PermitsAfterAsWritten(permits: nat, interrupted: bool): (r: nat)
    requires permits > 0 || interrupted
    ensures interrupted ==> r == permits + 1
    ensures !interrupted ==> r == permits
  {
    match Acquire(permits, interrupted)
    case None => permits + 1
    case Some(held) => held + 1
  }

  /** An interrupted `distribute` on an idle service leaves two permits, so a
      later run holds the lock while `isDistributing` reports false, and a
      second run can start beside it. */
  lemma InterruptedRunAddsPermit()
    ensures PermitsAfterAsWritten(1, true) == 2
    ensures Acquire(2, false) == Some(1) && !IsDistributing(1)
    ensures Acquire(1, false).Some?
  {
  }

  /** The permits `distribute` leaves when it releases only a permit it took. */
  function PermitsAfter(permits: nat, interrupted: bool): (r: nat)
    requires permits > 0 || interrupted
    ensures r == permits
  {
    match Acquire(permits, interrupted)
    case None => permits
    case Some(held) => held + 1
  }

  /** With release only after a successful acquire, a service that starts
      idle never has more than one permit: `isDistributing` holds exactly
      while a run holds the lock, and is false again once it returns. */
  lemma LockRestored(interrupted: bool)
    ensures PermitsAfter(1, interrupted) == 1 && !IsDistributing(PermitsAfter(1, interrupted))
    ensures !interrupted ==> Acquire(1, interrupted) == Some(0) && IsDistributing(0)
    ensures Acquire(0, true).None?
  {
  }

  /** A run of `distribute`: the broadcasts sent, the exception that ended it
      if a send failed, and the permits left afterwards. */
  datatype Run = Run(sent: seq<Mail>, failure: Option<SendFailure>, permits: nat)

  /** `distribute` as written: the `finally` block releases a permit on
      every exit, including after an interrupted `acquire`. A run that ends
      without a failed send broadcasts once to each owner-confirmed record of
      a fully enumerated store and to no one else. */
  method Distribute(permits: nat, interrupted: bool, store: Store, order: seq<Email>, pageSize: nat, channel: Channel)
    returns (run: Run)
    requires pageSize > 0
    requires permits > 0 || interrupted
    ensures run.permits == if interrupted then permits + 1 else permits
    ensures permits == 1 ==> !IsDistributing(run.permits)
    ensures interrupted ==> run.sent == [] && run.failure.None?
    ensures !interrupted ==> Delivery(run.sent, run.failure) == Send(Broadcasts(Approved(store, order)), channel)
    ensures !interrupted && run.failure.None? && Keyed(store) && IsEnumeration(store, order) ==>
      forall e :: CvCount(run.sent, e) == if e in store && store[e].confirmedByOwner then 1 else 0
  {
    var held := Acquire(permits, interrupted);
    if held.None? {
      // InterruptedException is caught and logged; the finally block still releases
      run := Run([], None, PermitsAfterAsWritten(permits, interrupted));
      return;
    }
    var sent, failure := DistributePages(store, order, pageSize, channel);
    run := Run(sent, failure, PermitsAfterAsWritten(permits, interrupted));
    if failure.None? && Keyed(store) && IsEnumeration(store, order) {
      SendDelivers(Broadcasts(Approved(store, order)), channel);
      forall e ensures CvCount(run.sent, e) == if e in store && store[e].confirmedByOwner then 1 else 0 {
        OneBroadcastPerApproved(store, order, e);
      }
    }
  }

  /** `distribute` with the release moved behind a successful `acquire`: the
      same mails, and the permit count restored on every path, so an idle
      service is idle again afterwards. */
  method DistributeCorrected(permits: nat, interrupted: bool, store: Store, order: seq<Email>, pageSize: nat, channel: Channel)
    returns (run: Run)
    requires pageSize > 0
    requires permits > 0 || interrupted
    ensures run.permits == permits
    ensures permits == 1 ==> !IsDistributing(run.permits)
    ensures interrupted ==> run.sent == [] && run.failure.None?
    ensures !interrupted ==> Delivery(run.sent, run.failure) == Send(Broadcasts(Approved(store, order)), channel)
  {
    var asWritten := Distribute(permits, interrupted, store, order, pageSize, channel);
    run := asWritten.(permits := PermitsAfter(permits, interrupted));
  }
}
