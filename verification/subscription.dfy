/** The persisted subscription record (model/Subscription.java): three
    tokens, an error counter kept in a Java `int`, and the two confirmation
    flags of the double opt-in. */
module SubscriptionModel {

  const Int32Min: int := -0x8000_0000
  const Int32Max: int := 0x7fff_ffff

  /** Java's 32-bit `int`. */
  type Int32 = x: int | Int32Min <= x <= Int32Max

  type Email = string
  type Token = string

  /** The three random identifiers a new record receives; in the source they
      are random UUID strings, here they are inputs. */
  datatype Tokens = Tokens(userConfirmation: Token, ownerConfirmation: Token, userUnsubscribe: Token)

  datatype Subscription = Subscription(
    email: Email,
    userConfirmationToken: Token,
    ownerConfirmationToken: Token,
    userUnsubscribeToken: Token,
    numTokenErrors: Int32,
    confirmedByUser: bool,
    confirmedByOwner: bool)

  function Max(a: int, b: int): int {
    if a < b then b else a
  }

  /** What holds of every record the service can produce when the lookup
      ceiling is `maxErrors`: the counter is never negative and never passes
      the ceiling, and the owner never approves a record the user has not
      confirmed. */
  predicate Valid(s: Subscription, maxErrors: Int32) {
    && 0 <= s.numTokenErrors <= Max(maxErrors, 0)
    && (s.confirmedByOwner ==> s.confirmedByUser)
  }

  /** A freshly constructed record with the given email and tokens. */
  function NewSubscription(email: Email, tokens: Tokens): (r: Subscription)
    ensures r.email == email
    ensures r.userConfirmationToken == tokens.userConfirmation
    ensures r.ownerConfirmationToken == tokens.ownerConfirmation
    ensures r.userUnsubscribeToken == tokens.userUnsubscribe
    ensures r.numTokenErrors == 0 && !r.confirmedByUser && !r.confirmedByOwner
    ensures forall maxErrors: Int32 :: Valid(r, maxErrors)
  {
    Subscription(email, tokens.userConfirmation, tokens.ownerConfirmation, tokens.userUnsubscribe, 0, false, false)
  }

  /** `numTokenErrors++` on a Java `int`: one more, wrapping at the top of
      the 32-bit range. */
  function IncNumTokenErrors(s: Subscription): (r: Subscription)
    ensures s.numTokenErrors < Int32Max ==> r.numTokenErrors == s.numTokenErrors + 1
    ensures s.numTokenErrors == Int32Max ==> r.numTokenErrors == Int32Min
    ensures r == s.(numTokenErrors := r.numTokenErrors)
  {
    s.(numTokenErrors := if s.numTokenErrors == Int32Max then Int32Min else s.numTokenErrors + 1)
  }

  function ResetNumTokenErrors(s: Subscription): (r: Subscription)
    ensures r.numTokenErrors == 0
    ensures r == s.(numTokenErrors := r.numTokenErrors)
  {
    s.(numTokenErrors := 0)
  }

  /** An increment below the ceiling keeps a record valid; in particular it
      never reaches the wrap-around, since the ceiling is itself an `int`. */
  lemma IncBelowCeilingKeepsValid(s: Subscription, maxErrors: Int32)
    requires Valid(s, maxErrors)
    requires s.numTokenErrors < maxErrors
    ensures IncNumTokenErrors(s).numTokenErrors == s.numTokenErrors + 1
    ensures Valid(IncNumTokenErrors(s), maxErrors)
  {
    assert s.numTokenErrors < Int32Max;
  }

  /** A reset keeps a record valid, and erases any earlier increments. */
  lemma ResetKeepsValid(s: Subscription, maxErrors: Int32)
    requires Valid(s, maxErrors)
    ensures Valid(ResetNumTokenErrors(s), maxErrors)
    ensures ResetNumTokenErrors(IncNumTokenErrors(s)) == ResetNumTokenErrors(s)
  {
  }
}
