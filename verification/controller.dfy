/** The request handlers (controller/SubscriptionController.java) as
    transformers of the store: each returns its status or exception, the
    store after it, and the mails it sent. */
module SubscriptionController {
  import opened Wrappers
  import opened SubscriptionModel
  import opened Exceptions
  import opened Notifications
  import opened Repository
  import opened Subscriber
  import opened SubscriptionExceptionAdvice

  /** The request body; the token may be missing. */
  datatype SubscriptionDetails = SubscriptionDetails(email: Email, token: Option<Token>)

  /** Java's `Character.isWhitespace`: the Unicode space, line and paragraph
      separators other than the non-breaking spaces, and the control
      characters tab, line feed, vertical tab, form feed, carriage return and
      the four information separators. */
  predicate IsWhitespace(c: char) {
    var n := c as int;
    || (0x09 <= n <= 0x0d) || (0x1c <= n <= 0x1f) || n == 0x20
    || n == 0x1680 || (0x2000 <= n <= 0x2006) || (0x2008 <= n <= 0x200a)
    || n == 0x2028 || n == 0x2029 || n == 0x205f || n == 0x3000
  }

  function AnyNonWhitespace(s: string): (r: bool)
    ensures r <==> exists i :: 0 <= i < |s| && !IsWhitespace(s[i])
  {
    if |s| == 0 then false
    else if !IsWhitespace(s[0]) then true
    else
      var rest := AnyNonWhitespace(s[1..]);
      assert forall i :: 1 <= i < |s| ==> s[i] == s[1..][i - 1];
      rest
  }

  /** `StringUtils.hasText`: present, and not blank. */
  function HasText(token: Option<Token>): (r: bool)
    ensures r <==> token.Some? && exists i :: 0 <= i < |token.value| && !IsWhitespace(token.value[i])
  {
    token.Some? && AnyNonWhitespace(token.value)
  }

  /** The lookup the update and delete handlers use finds the record: it
      exists and is not locked. */
  predicate Active(store: Store, email: Email, maxErrors: Int32) {
    email in store && store[email].numTokenErrors < maxErrors
  }

  function CreateSubscription(store: Store, details: SubscriptionDetails, tokens: Tokens, channel: Channel)
    : (r: Response<HttpStatus>)
    requires Keyed(store)
    ensures Keyed(r.store)
    // a taken email is a conflict, with nothing saved and nothing sent
    ensures details.email in store ==> r == Response(Failure(UserAlreadyExists), store, [])
    // a new email is saved as a fresh record whether or not the mail goes out
    ensures details.email !in store ==>
      && r.store.Keys == store.Keys + {details.email}
      && r.store[details.email] == NewSubscription(details.email, tokens)
      && (forall e :: e in store ==> r.store[e] == store[e])
    ensures details.email !in store ==>
      var mail := PleaseConfirm(details.email, tokens.userConfirmation);
      && (r.result.Success? <==> channel(mail).None?)
      && (r.result.Success? ==> r.result.value == Created && r.mails == [mail])
      && (r.result.Failure? ==> r.result.error == SendFailed(channel(mail).value) && r.mails == [])
  {
    if ExistsByEmail(store, details.email) then
      Response(Failure(UserAlreadyExists), store, [])
    else
      var s := NewSubscription(details.email, tokens);
      match SaveNew(store, s)
      case Failure(e) => Response(Failure(e), store, [])
      case Success(saved) =>
        var d := InitiateToken(s, channel);
        if d.failure.Some? then Response(Failure(SendFailed(d.failure.value)), saved, d.delivered)
        else Response(Success(Created), saved, d.delivered)
  }

  function UpdateSubscription(store: Store, maxErrors: Int32, details: SubscriptionDetails, channel: Channel)
    : (r: Response<HttpStatus>)
    requires Keyed(store)
    ensures Keyed(r.store) && r.store.Keys == store.Keys
    ensures forall e :: e in store && e != details.email ==> r.store[e] == store[e]
    ensures r.result.Success? ==> r.result.value == NoContent
    // a blank token is refused before the store is read
    ensures !HasText(details.token) ==> r == Response(Failure(FalseToken), store, [])
    // an unknown email and a locked record get the same answer
    ensures HasText(details.token) && !Active(store, details.email, maxErrors) ==>
      r == Response(Failure(UserUnknownOrLocked), store, [])
    ensures HasText(details.token) && Active(store, details.email, maxErrors) ==>
      var s := store[details.email];
      var token := details.token.value;
      && r.result != Failure(UserUnknownOrLocked)
      // success resets the counter
      && (r.result.Success? ==> r.store[details.email].numTokenErrors == 0)
      // the owner flag is only set on a record the user confirmed
      && (r.store[details.email].confirmedByOwner && !s.confirmedByOwner ==> s.confirmedByUser)
      // a mismatch adds one to the counter, touches no flag, and sends nothing
      && (r.result == Failure(FalseToken) <==> IsUpdateMismatch(s, token))
      && (IsUpdateMismatch(s, token) ==>
            r.mails == [] && r.store[details.email] == s.(numTokenErrors := s.numTokenErrors + 1))
      // any other failure is a refused mail, and leaves the store as it was (a 500)
      && (r.result.Failure? ==> r.result.error == FalseToken || (r.result.error.SendFailed? && r.store == store))
    // the owner's token on a user-confirmed record approves it and sends the first broadcast
    ensures HasText(details.token) && Active(store, details.email, maxErrors)
            && IsOwnerApproval(store[details.email], details.token.value) ==>
      var s := store[details.email];
      var cv := Cv(s.email, s.userUnsubscribeToken, true);
      && (r.result.Success? <==> channel(cv).None?)
      && (r.result.Success? ==> r.store[details.email] == s.(confirmedByOwner := true, numTokenErrors := 0) && r.mails == [cv])
      && (r.result.Failure? ==> r.result.error == SendFailed(channel(cv).value) && r.mails == [])
    // otherwise the user's token confirms it and sends wait, then the owner's request
    ensures HasText(details.token) && Active(store, details.email, maxErrors)
            && !IsOwnerApproval(store[details.email], details.token.value)
            && details.token.value == store[details.email].userConfirmationToken ==>
      var s := store[details.email];
      var wait := PleaseWait(s.email);
      var approve := PleaseApprove(s.email, s.ownerConfirmationToken);
      && (r.result.Success? <==> channel(wait).None? && channel(approve).None?)
      && (r.result.Success? ==> r.store[details.email] == s.(confirmedByUser := true, numTokenErrors := 0) && r.mails == [wait, approve])
      && (channel(wait).Some? ==> r.result == Failure(SendFailed(channel(wait).value)) && r.mails == [])
      && (channel(wait).None? && channel(approve).Some? ==>
            r.result == Failure(SendFailed(channel(approve).value)) && r.mails == [wait])
  {
    if !HasText(details.token) then
      Response(Failure(FalseToken), store, [])
    else
      match FindByEmailAndNumTokenErrorsLessThan(store, details.email, maxErrors)
      case None => Response(Failure(UserUnknownOrLocked), store, [])
      case Some(s) =>
        var applied := ApplyUpdateToken(store, s, details.token.value, channel);
        var result := if applied.result.Success? then Success(NoContent) else Failure(applied.result.error);
        Response(result, applied.store, applied.mails)
  }

  function DeleteSubscription(store: Store, maxErrors: Int32, details: SubscriptionDetails): (r: Response<HttpStatus>)
    requires Keyed(store)
    ensures Keyed(r.store) && r.store.Keys <= store.Keys
    ensures forall e :: e in r.store && e != details.email ==> r.store[e] == store[e]
    ensures r.mails == []
    ensures r.result.Success? ==> r.result.value == NoContent
    ensures !HasText(details.token) ==> r == Response(Failure(FalseToken), store, [])
    // deleting an unknown email succeeds and changes nothing
    ensures HasText(details.token) && details.email !in store ==> r == Response(Success(NoContent), store, [])
    ensures HasText(details.token) && details.email in store && !Active(store, details.email, maxErrors) ==>
      r == Response(Failure(UserUnknownOrLocked), store, [])
    ensures HasText(details.token) && Active(store, details.email, maxErrors) ==>
      var s := store[details.email];
      && (r.result.Success? <==> details.token.value == s.userUnsubscribeToken)
      && (r.result.Success? ==> r.store.Keys == store.Keys - {details.email})
      && (r.result.Failure? ==>
            && r.result.error == FalseToken
            && r.store.Keys == store.Keys
            && r.store[details.email] == s.(numTokenErrors := s.numTokenErrors + 1))
  {
    if !HasText(details.token) then
      Response(Failure(FalseToken), store, [])
    else if ExistsByEmail(store, details.email) then
      match FindByEmailAndNumTokenErrorsLessThan(store, details.email, maxErrors)
      case None => Response(Failure(UserUnknownOrLocked), store, [])
      case Some(s) =>
        var applied := ApplyDeleteToken(store, s, details.token.value);
        var result := if applied.result.Success? then Success(NoContent) else Failure(applied.result.error);
        Response(result, applied.store, applied.mails)
    else
      Response(Success(NoContent), store, [])
  }

  /** Creating a subscription keeps every record valid: the new one starts
      with no errors and no confirmation. */
  lemma CreateKeepsValid(store: Store, maxErrors: Int32, details: SubscriptionDetails, tokens: Tokens, channel: Channel)
    requires ValidStore(store, maxErrors)
    ensures ValidStore(CreateSubscription(store, details, tokens, channel).store, maxErrors)
  {
    var r := CreateSubscription(store, details, tokens, channel);
    if details.email !in store {
      forall e | e in r.store ensures Valid(r.store[e], maxErrors) {
        if e == details.email {
          assert Valid(NewSubscription(details.email, tokens), maxErrors);
        }
      }
    }
  }

  /** An update keeps every record valid: a mismatch stays below the
      ceiling, and the owner flag is only set on a confirmed record. */
  lemma UpdateKeepsValid(store: Store, maxErrors: Int32, details: SubscriptionDetails, channel: Channel)
    requires ValidStore(store, maxErrors)
    ensures ValidStore(UpdateSubscription(store, maxErrors, details, channel).store, maxErrors)
  {
    if HasText(details.token) && Active(store, details.email, maxErrors) {
      var s := store[details.email];
      if IsUpdateMismatch(s, details.token.value) {
        IncBelowCeilingKeepsValid(s, maxErrors);
      }
    }
  }

  /** A delete keeps every record valid. */
  lemma DeleteKeepsValid(store: Store, maxErrors: Int32, details: SubscriptionDetails)
    requires ValidStore(store, maxErrors)
    ensures ValidStore(DeleteSubscription(store, maxErrors, details).store, maxErrors)
  {
    if HasText(details.token) && Active(store, details.email, maxErrors) {
      var s := store[details.email];
      if details.token.value != s.userUnsubscribeToken {
        IncBelowCeilingKeepsValid(s, maxErrors);
      }
    }
  }

  // ---------------------------------------------------------------------
  // Request sequences

  /** The three handlers as one request type. */
  datatype Request =
    | Post(details: SubscriptionDetails, tokens: Tokens)
    | Put(details: SubscriptionDetails)
    | Delete(details: SubscriptionDetails)

  function Handle(store: Store, maxErrors: Int32, request: Request, channel: Channel): (r: Response<HttpStatus>)
    requires Keyed(store)
    ensures Keyed(r.store)
  {
    match request
    case Post(details, tokens) => CreateSubscription(store, details, tokens, channel)
    case Put(details) => UpdateSubscription(store, maxErrors, details, channel)
    case Delete(details) => DeleteSubscription(store, maxErrors, details)
  }

  /** Every request keeps every record valid. */
  lemma HandleKeepsValid(store: Store, maxErrors: Int32, request: Request, channel: Channel)
    requires ValidStore(store, maxErrors)
    ensures ValidStore(Handle(store, maxErrors, request, channel).store, maxErrors)
  {
    match request
    case Post(details, tokens) => CreateKeepsValid(store, maxErrors, details, tokens, channel);
    case Put(details) => UpdateKeepsValid(store, maxErrors, details, channel);
    case Delete(details) => DeleteKeepsValid(store, maxErrors, details);
  }

  /** The store after sending the same request `k` times in a row. */
  function Repeat(store: Store, maxErrors: Int32, request: Request, channel: Channel, k: nat): (r: Store)
    requires Keyed(store)
    ensures Keyed(r)
    decreases k
  {
    if k == 0 then store
    else Repeat(Handle(store, maxErrors, request, channel).store, maxErrors, request, channel, k - 1)
  }

  /** The answers to sending the same request `k` times in a row, in order. */
  function Replies(store: Store, maxErrors: Int32, request: Request, channel: Channel, k: nat)
    : (r: seq<Result<HttpStatus, Error>>)
    requires Keyed(store)
    ensures |r| == k
    decreases k
  {
    if k == 0 then []
    else
      var first := Handle(store, maxErrors, request, channel);
      [first.result] + Replies(first.store, maxErrors, request, channel, k - 1)
  }

  /** A token matching none of the record's three tokens. */
  predicate IsForeignToken(s: Subscription, token: Token) {
    token != s.userConfirmationToken && token != s.ownerConfirmationToken && token != s.userUnsubscribeToken
  }

  /** `k` more updates or deletes with this request's foreign token stay
      within the ceiling. */
  predicate Refusable(store: Store, maxErrors: Int32, request: Request, k: nat) {
    && Keyed(store)
    && !request.Post?
    && HasText(request.details.token)
    && request.details.email in store
    && IsForeignToken(store[request.details.email], request.details.token.value)
    && 0 <= store[request.details.email].numTokenErrors
    && store[request.details.email].numTokenErrors + k <= maxErrors
  }

  /** The store with one more token error on the record for `e`. */
  function Bump(store: Store, e: Email): (r: Store)
    requires e in store && 0 <= store[e].numTokenErrors < Int32Max
  {
    store[e := IncNumTokenErrors(store[e])]
  }

  /** The store with `k` more token errors on the record for `e`. */
  function BumpTimes(store: Store, e: Email, k: nat): (r: Store)
    requires e in store && 0 <= store[e].numTokenErrors && store[e].numTokenErrors + k <= Int32Max
    decreases k
  {
    if k == 0 then store else BumpTimes(Bump(store, e), e, k - 1)
  }

  /** The store with the counter of the record for `e` raised by `k` and
      nothing else changed. */
  function AddErrors(store: Store, e: Email, k: nat): (r: Store)
    requires e in store && 0 <= store[e].numTokenErrors && store[e].numTokenErrors + k <= Int32Max
  {
    store[e := store[e].(numTokenErrors := store[e].numTokenErrors + k)]
  }

  /** Subscribing a new email stores its fresh record and asks for the
      user's confirmation. */
  lemma SubscribeStep(store: Store, email: Email, tokens: Tokens, channel: Channel)
    requires Keyed(store) && email !in store
    requires channel(PleaseConfirm(email, tokens.userConfirmation)).None?
    ensures CreateSubscription(store, SubscriptionDetails(email, None), tokens, channel)
         == Response(Success(Created), store[email := NewSubscription(email, tokens)],
                     [PleaseConfirm(email, tokens.userConfirmation)])
  {
    var r := CreateSubscription(store, SubscriptionDetails(email, None), tokens, channel);
    assert r.store.Keys == store[email := NewSubscription(email, tokens)].Keys;
  }

  /** The user's confirmation token, with both mails sent: the record is
      confirmed by the user and its counter reset. */
  lemma ConfirmStep(store: Store, maxErrors: Int32, email: Email, token: Token, channel: Channel)
    requires Keyed(store) && Active(store, email, maxErrors)
    requires var s := store[email];
      && token == s.userConfirmationToken && HasText(Some(token))
      && !IsOwnerApproval(s, token)
      && channel(PleaseWait(email)).None? && channel(PleaseApprove(email, s.ownerConfirmationToken)).None?
    ensures UpdateSubscription(store, maxErrors, SubscriptionDetails(email, Some(token)), channel)
         == Response(Success(NoContent), store[email := store[email].(confirmedByUser := true, numTokenErrors := 0)],
                     [PleaseWait(email), PleaseApprove(email, store[email].ownerConfirmationToken)])
  {
    var r := UpdateSubscription(store, maxErrors, SubscriptionDetails(email, Some(token)), channel);
    assert r.store.Keys == store.Keys;
  }

  /** The owner's token on a user-confirmed record, with the first broadcast
      sent: the record is approved and its counter reset. */
  lemma ApproveStep(store: Store, maxErrors: Int32, email: Email, token: Token, channel: Channel)
    requires Keyed(store) && Active(store, email, maxErrors)
    requires var s := store[email];
      && token == s.ownerConfirmationToken && HasText(Some(token))
      && s.confirmedByUser
      && channel(Cv(email, s.userUnsubscribeToken, true)).None?
    ensures UpdateSubscription(store, maxErrors, SubscriptionDetails(email, Some(token)), channel)
         == Response(Success(NoContent), store[email := store[email].(confirmedByOwner := true, numTokenErrors := 0)],
                     [Cv(email, store[email].userUnsubscribeToken, true)])
  {
    var r := UpdateSubscription(store, maxErrors, SubscriptionDetails(email, Some(token)), channel);
    assert r.store.Keys == store.Keys;
  }

  /** The unsubscribe token removes the record. */
  lemma UnsubscribeStep(store: Store, maxErrors: Int32, email: Email, token: Token)
    requires Keyed(store) && Active(store, email, maxErrors)
    requires token == store[email].userUnsubscribeToken && HasText(Some(token))
    ensures DeleteSubscription(store, maxErrors, SubscriptionDetails(email, Some(token)))
         == Response(Success(NoContent), store - {email}, [])
  {
    var r := DeleteSubscription(store, maxErrors, SubscriptionDetails(email, Some(token)));
    assert r.store.Keys == (store - {email}).Keys;
  }

  lemma RemoveAfterInsert(store: Store, email: Email, s: Subscription)
    requires email !in store
    ensures store[email := s] - {email} == store
  {
    var m := store[email := s] - {email};
    assert m.Keys == store.Keys;
  }

  /** The user's confirmation of a fresh record. */
  lemma ConfirmFresh(store: Store, maxErrors: Int32, email: Email, tokens: Tokens, channel: Channel)
    requires Keyed(store)
    requires email !in store
    requires maxErrors > 0
    requires HasText(Some(tokens.userConfirmation))
    requires channel(PleaseWait(email)).None? && channel(PleaseApprove(email, tokens.ownerConfirmation)).None?
    ensures var s0 := NewSubscription(email, tokens);
      UpdateSubscription(store[email := s0], maxErrors, SubscriptionDetails(email, Some(tokens.userConfirmation)), channel)
      == Response(Success(NoContent), store[email := s0.(confirmedByUser := true)],
                  [PleaseWait(email), PleaseApprove(email, tokens.ownerConfirmation)])
  {
    var s0 := NewSubscription(email, tokens);
    ConfirmStep(store[email := s0], maxErrors, email, tokens.userConfirmation, channel);
    assert store[email := s0][email := s0.(confirmedByUser := true)] == store[email := s0.(confirmedByUser := true)];
  }

  /** The owner's approval of a record the user just confirmed. */
  lemma ApproveConfirmed(store: Store, maxErrors: Int32, email: Email, tokens: Tokens, channel: Channel)
    requires Keyed(store)
    requires email !in store
    requires maxErrors > 0
    requires HasText(Some(tokens.ownerConfirmation))
    requires channel(Cv(email, tokens.userUnsubscribe, true)).None?
    ensures var s1 := NewSubscription(email, tokens).(confirmedByUser := true);
      UpdateSubscription(store[email := s1], maxErrors, SubscriptionDetails(email, Some(tokens.ownerConfirmation)), channel)
      == Response(Success(NoContent), store[email := s1.(confirmedByOwner := true)], [Cv(email, tokens.userUnsubscribe, true)])
  {
    var s1 := NewSubscription(email, tokens).(confirmedByUser := true);
    ApproveStep(store[email := s1], maxErrors, email, tokens.ownerConfirmation, channel);
    assert store[email := s1][email := s1.(confirmedByOwner := true)] == store[email := s1.(confirmedByOwner := true)];
  }

  /** The two confirmations on a fresh record. */
  lemma ConfirmThenApprove(store: Store, maxErrors: Int32, email: Email, tokens: Tokens, channel: Channel)
    requires Keyed(store)
    requires email !in store
    requires maxErrors > 0
    requires HasText(Some(tokens.userConfirmation)) && HasText(Some(tokens.ownerConfirmation))
    requires channel(PleaseWait(email)).None? && channel(PleaseApprove(email, tokens.ownerConfirmation)).None?
    requires channel(Cv(email, tokens.userUnsubscribe, true)).None?
    ensures var s0 := NewSubscription(email, tokens);
      var s1 := s0.(confirmedByUser := true);
      var s2 := s1.(confirmedByOwner := true);
      && UpdateSubscription(store[email := s0], maxErrors, SubscriptionDetails(email, Some(tokens.userConfirmation)), channel)
         == Response(Success(NoContent), store[email := s1], [PleaseWait(email), PleaseApprove(email, tokens.ownerConfirmation)])
      && UpdateSubscription(store[email := s1], maxErrors, SubscriptionDetails(email, Some(tokens.ownerConfirmation)), channel)
         == Response(Success(NoContent), store[email := s2], [Cv(email, tokens.userUnsubscribe, true)])
  {
    ConfirmFresh(store, maxErrors, email, tokens, channel);
    ApproveConfirmed(store, maxErrors, email, tokens, channel);
  }

  /** The full life cycle: subscribe, confirm with the user token, approve
      with the owner token, unsubscribe with the unsubscribe token. Each step
      succeeds with its mails, and the store ends as it began. */
  lemma CrudFlow(store: Store, maxErrors: Int32, email: Email, tokens: Tokens, channel: Channel)
    requires Keyed(store)
    requires email !in store
    requires maxErrors > 0
    requires HasText(Some(tokens.userConfirmation)) && HasText(Some(tokens.ownerConfirmation))
    requires HasText(Some(tokens.userUnsubscribe))
    requires channel(PleaseConfirm(email, tokens.userConfirmation)).None?
    requires channel(PleaseWait(email)).None? && channel(PleaseApprove(email, tokens.ownerConfirmation)).None?
    requires channel(Cv(email, tokens.userUnsubscribe, true)).None?
    ensures var s0 := NewSubscription(email, tokens);
      var s1 := s0.(confirmedByUser := true);
      var s2 := s1.(confirmedByOwner := true);
      && CreateSubscription(store, SubscriptionDetails(email, None), tokens, channel)
         == Response(Success(Created), store[email := s0], [PleaseConfirm(email, tokens.userConfirmation)])
      && UpdateSubscription(store[email := s0], maxErrors, SubscriptionDetails(email, Some(tokens.userConfirmation)), channel)
         == Response(Success(NoContent), store[email := s1], [PleaseWait(email), PleaseApprove(email, tokens.ownerConfirmation)])
      && UpdateSubscription(store[email := s1], maxErrors, SubscriptionDetails(email, Some(tokens.ownerConfirmation)), channel)
         == Response(Success(NoContent), store[email := s2], [Cv(email, tokens.userUnsubscribe, true)])
      && DeleteSubscription(store[email := s2], maxErrors, SubscriptionDetails(email, Some(tokens.userUnsubscribe)))
         == Response(Success(NoContent), store, [])
  {
    var s0 := NewSubscription(email, tokens);
    var s1 := s0.(confirmedByUser := true);
    var s2 := s1.(confirmedByOwner := true);
    SubscribeStep(store, email, tokens, channel);
    ConfirmThenApprove(store, maxErrors, email, tokens, channel);
    UnsubscribeStep(store[email := s2], maxErrors, email, tokens.userUnsubscribe);
    RemoveAfterInsert(store, email, s2);
  }

}
