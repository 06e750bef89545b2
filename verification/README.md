# Subscription service: lifecycle and distribution model

A Dafny model of the core of a double opt-in mailing-list service. A subscriber
registers with an email address. They confirm with a mailed token. The list owner
approves with a second token. The subscriber can leave with a third token. Too
many wrong tokens lock the record. Owner-approved subscribers receive a bulk
"CV" broadcast, which is sent page by page under a single-permit lock.

Modules, one per source component:

- `SubscriptionModel` (subscription.dfy): the `Subscription` record, its
  constructor defaults and the counter operations. `numTokenErrors` is a Java
  `int`, and its wrap-around is written out.
- `Repository` (repository.dfy): the store as `map<Email, Subscription>`.
  Keying by email makes the unique index structural. The file also holds the
  three derived queries and the Spring Data page semantics.
- `Notifications` (notifications.dfy): the mails as an event log. The mail
  channel is an oracle `Mail -> Option<SendFailure>`, and sending stops at the
  first failure.
- `Exceptions` (exceptions.dfy): the exception classes as error kinds.
- `Subscriber` (subscriber.dfy): `initiateToken`, `applyUpdateToken`,
  `applyDeleteToken`, the page loop of `distribute`, and the semaphore.
- `SubscriptionController` (controller.dfy): the three handlers as pure
  transformers of the store. Each returns a status or exception, the store
  after the call, and the mails sent.
- `SubscriptionExceptionAdvice` (advice.dfy): the mapping from exception to
  HTTP status.
- `Lockout` (lockout.dfy): what repeated wrong tokens on one record do
  across a sequence of requests.

Parameters stand in for what the code reads from outside:

- the three UUID tokens of a new record (`Tokens`);
- the lockout ceiling `maxErrors` (the tests use 3);
- the page size (the rate limiter's `limitForPeriod`);
- the store's natural order (`order`: each key listed once);
- the mail channel;
- whether the distributing thread is interrupted.

At this revision `MailConfiguration.java` has no `getMaxErrors`, which
`controller/SubscriptionController.java:58` calls, and `TemplateName.java` has
no `UPDATED_CV`, which `service/Mailer.java:52` uses. The model follows the
callers: the ceiling is a parameter, and a broadcast carries an `isFirst` flag.

## Model

| member | source | states |
|---|---|---|
| SubscriptionModel.NewSubscription | src/main/java/com/webatspeed/subscription/model/Subscription.java:19-29 | a new record carries the three given tokens, no errors and neither confirmation, and is valid for every ceiling |
| SubscriptionModel.IncNumTokenErrors | src/main/java/com/webatspeed/subscription/model/Subscription.java:37-39 | below the top of the `int` range the counter rises by exactly one (at the top it wraps to the minimum); no other field changes |
| SubscriptionModel.ResetNumTokenErrors | src/main/java/com/webatspeed/subscription/model/Subscription.java:41-43 | the counter becomes 0 and no other field changes |
| SubscriptionModel.IncBelowCeilingKeepsValid | src/main/java/com/webatspeed/subscription/model/Subscription.java:25-39 | an increment made below the lookup ceiling never wraps and keeps the counter in 0..maxErrors |
| SubscriptionModel.ResetKeepsValid | src/main/java/com/webatspeed/subscription/model/Subscription.java:41-43 | a reset keeps a record valid and erases any earlier increment |
| Repository.AtMostOnePerEmail | src/main/java/com/webatspeed/subscription/model/Subscription.java:16-17 | two stored records with the same email are the same record |
| Repository.SaveNew | src/main/java/com/webatspeed/subscription/model/Subscription.java:16-17 | inserting a record fails with a duplicate-key error exactly when a stored record has its email; otherwise the store grows by that one record and nothing else changes |
| Repository.SaveNewAddsOne | src/main/java/com/webatspeed/subscription/model/Subscription.java:16-17 | a successful insert adds exactly one record to the store |
| Repository.Save | src/main/java/com/webatspeed/subscription/SubscriptionRepository.java:9 | saving a stored record replaces the record with its email and no other |
| Repository.Delete | src/main/java/com/webatspeed/subscription/SubscriptionRepository.java:9 | deleting removes the record with its email and keeps every other record |
| Repository.ExistsByEmail | src/main/java/com/webatspeed/subscription/SubscriptionRepository.java:11 | true exactly when some stored record has the email |
| Repository.FindByEmailAndNumTokenErrorsLessThan | src/main/java/com/webatspeed/subscription/SubscriptionRepository.java:13 | finds a record exactly when one with the email exists and its counter is below the bound, and then returns that stored record |
| Repository.Approved | src/main/java/com/webatspeed/subscription/SubscriptionRepository.java:15 | the owner-confirmed query returns only stored records with `confirmedByOwner` set |
| Repository.ApprovedComplete | src/main/java/com/webatspeed/subscription/SubscriptionRepository.java:15 | every stored owner-confirmed record is returned by the query |
| Repository.HasNextBound | src/main/java/com/webatspeed/subscription/SubscriptionRepository.java:15 | Spring's "page number + 1 < total pages" holds exactly when (i+1)·k < N |
| Repository.FindAllByConfirmedByOwnerIsTrue | src/main/java/com/webatspeed/subscription/SubscriptionRepository.java:15 | page i of size k is the slice [i·k, min((i+1)·k, N)) of the approved records, holds at most k owner-confirmed stored records, and has a next page iff (i+1)·k < N |
| Repository.PagesFromCover | src/main/java/com/webatspeed/subscription/service/Subscriber.java:75-83 | the pages read from page i while `hasNext` holds are the approved records from i·k on |
| Repository.PagesCoverApproved | src/main/java/com/webatspeed/subscription/service/Subscriber.java:75-83 | all pages concatenated are exactly the approved records |
| Notifications.Send | src/main/java/com/webatspeed/subscription/service/Mailer.java:104-108 | mails sent one after the other, the first exception propagating and ending the sequence (its properties are stated by `SendDelivers` and `SendAppend`) |
| Notifications.SendDelivers | src/main/java/com/webatspeed/subscription/service/Mailer.java:104-108 | sending mails one by one delivers a prefix of them, each accepted by the channel; it stops exactly at the first mail the channel refuses and reports that failure; all are delivered iff none is refused |
| Notifications.SendAppend | src/main/java/com/webatspeed/subscription/service/Subscriber.java:75-83 | sending `a` and then `b` is sending `a + b`: the second run happens only when the first delivered everything |
| Notifications.CvCountAppend | src/main/java/com/webatspeed/subscription/service/Subscriber.java:79-81 | broadcasts to one address add up over concatenated logs |
| Subscriber.InitiateToken | src/main/java/com/webatspeed/subscription/service/Subscriber.java:28-30 | sends exactly one confirm request, with the user confirmation token, unless the channel refuses it |
| Subscriber.ApplyUpdateToken | src/main/java/com/webatspeed/subscription/service/Subscriber.java:32-53 | owner approval of a user-confirmed record comes first: it sets `confirmedByOwner`, resets the counter, saves and sends one first broadcast. Otherwise the user token sets `confirmedByUser`, resets, saves, and sends wait then approve. Otherwise the counter rises by one and is saved, with FalseToken and no mail. The owner flag is never set without prior user confirmation. For an accepted token, a refused mail is thrown as a send error before the save, so the store is unchanged: a refused broadcast sends nothing, a refused wait notice sends nothing, and a refused owner request leaves only the wait notice sent |
| Subscriber.ApplyDeleteToken | src/main/java/com/webatspeed/subscription/service/Subscriber.java:55-65 | the unsubscribe token removes exactly that record; any other token raises the counter by one, keeps the record and throws FalseToken; no mail either way |
| Subscriber.ApprovedBroadcastCount | src/main/java/com/webatspeed/subscription/service/Subscriber.java:79-81 | over a repeat-free order, an address gets one broadcast if it is listed, stored and owner-confirmed, and none otherwise |
| Subscriber.OneBroadcastPerApproved | src/main/java/com/webatspeed/subscription/service/Subscriber.java:75-83 | over a full enumeration of the store, the approved records' broadcasts reach each owner-confirmed record exactly once and no other record (`Distribute` carries this over to what a run sends) |
| Subscriber.DistributePages | src/main/java/com/webatspeed/subscription/service/Subscriber.java:75-83 | the page loop ends, and its mails and its failure are exactly those of one sequential send of every approved record's broadcast in store order (`SendDelivers` says what that is) |
| Subscriber.Acquire | src/main/java/com/webatspeed/subscription/service/Subscriber.java:74 | acquire throws exactly when the thread is interrupted, and otherwise takes one permit |
| Subscriber.PermitsAfterAsWritten | src/main/java/com/webatspeed/subscription/service/Subscriber.java:73-88 | as written, an interrupted run ends with one permit more than it began with |
| Subscriber.InterruptedRunAddsPermit | src/main/java/com/webatspeed/subscription/service/Subscriber.java:84-93 | from an idle lock, an interrupted run leaves two permits, so a later run holds the lock while `isDistributing` is false |
| Subscriber.PermitsAfter | src/main/java/com/webatspeed/subscription/service/Subscriber.java:73-88 | (corrected) releasing only a permit that was taken restores the permit count on every path |
| Subscriber.LockRestored | src/main/java/com/webatspeed/subscription/service/Subscriber.java:84-93 | (corrected) starting idle, `isDistributing` is true while a run holds the lock and false once it returns, interrupted or not |
| Subscriber.Distribute | src/main/java/com/webatspeed/subscription/service/Subscriber.java:67-89 | as written: an interrupted run sends nothing and ends with one permit more, any other run ends with the permits it began with, so an idle lock is free after every run. Otherwise its mails and failure are those of one sequential send of all approved broadcasts, and a run without a failed send broadcasts once to each owner-confirmed record and to no other |
| Subscriber.DistributeCorrected | src/main/java/com/webatspeed/subscription/service/Subscriber.java:67-89 | (corrected) the same mails and failure as `Distribute`, and the permit count restored on every path, the interrupted one included |
| Subscriber.IsDistributing | src/main/java/com/webatspeed/subscription/service/Subscriber.java:91-93 | a run is in progress exactly when no permit is left |
| Subscriber.Broadcasts | src/main/java/com/webatspeed/subscription/service/Subscriber.java:79-81 | defined as one non-first broadcast per recipient, in order, with that recipient's email and unsubscribe token; the per-address counts are stated by `ApprovedBroadcastCount` and `OneBroadcastPerApproved` |
| Subscriber.SendThenSave | src/main/java/com/webatspeed/subscription/service/Subscriber.java:36-52 | the record is saved with its counter reset exactly when every mail is accepted; otherwise the first refused mail's failure is thrown, the mails before it went out, and the store is unchanged |
| SubscriptionController.IsWhitespace | src/main/java/com/webatspeed/subscription/controller/SubscriptionController.java:53-55 | Java's `Character.isWhitespace`: the separators other than non-breaking spaces, and the nine whitespace control characters |
| SubscriptionController.HasText | src/main/java/com/webatspeed/subscription/controller/SubscriptionController.java:53-55 | a token passes exactly when it is present and has a character that is not Java whitespace |
| SubscriptionController.CreateSubscription | src/main/java/com/webatspeed/subscription/controller/SubscriptionController.java:36-48 | a taken email gives AlreadyExists with no save and no mail. A new email stores exactly one fresh record and changes nothing else, even when the mail fails. The result is 201 plus one confirm request iff the channel takes it, else a send error |
| SubscriptionController.UpdateSubscription | src/main/java/com/webatspeed/subscription/controller/SubscriptionController.java:50-63 | a blank token gives FalseToken before any lookup. An unknown or locked email gives the same UserUnknownOrLocked with nothing changed. Otherwise the owner's token on a user-confirmed record sets `confirmedByOwner` and sends the first broadcast, and the user's token sets `confirmedByUser` and sends wait then approve, each with the counter reset and each succeeding iff the channel takes its mails. A mismatch adds one and sends nothing. Every other failure is a refused mail (a 500) with the store unchanged: a refused broadcast or wait notice reports its own failure with nothing sent, and a refused owner request reports its failure after the wait notice went out |
| SubscriptionController.DeleteSubscription | src/main/java/com/webatspeed/subscription/controller/SubscriptionController.java:65-80 | a blank token gives FalseToken. An unknown email succeeds and changes nothing. A locked record gives UserUnknownOrLocked. The unsubscribe token removes only that record, and another token adds one to the counter. No mail is sent |
| SubscriptionController.CreateKeepsValid | src/main/java/com/webatspeed/subscription/controller/SubscriptionController.java:43-44 | creating keeps every stored record valid |
| SubscriptionController.UpdateKeepsValid | src/main/java/com/webatspeed/subscription/controller/SubscriptionController.java:50-63 | an update keeps every stored record valid |
| SubscriptionController.DeleteKeepsValid | src/main/java/com/webatspeed/subscription/controller/SubscriptionController.java:65-80 | a delete keeps every stored record valid |
| SubscriptionController.HandleKeepsValid | src/main/java/com/webatspeed/subscription/controller/SubscriptionController.java:36-80 | every request keeps the counters in 0..maxErrors and owner approval behind user confirmation |
| SubscriptionController.SubscribeStep | src/main/java/com/webatspeed/subscription/controller/SubscriptionController.java:39-47 | subscribing a new email answers 201, stores the fresh record and sends one confirm request |
| SubscriptionController.ConfirmStep | src/main/java/com/webatspeed/subscription/controller/SubscriptionController.java:57-62 | the user token answers 204, sets `confirmedByUser`, resets the counter, and sends wait then approve |
| SubscriptionController.ApproveStep | src/main/java/com/webatspeed/subscription/controller/SubscriptionController.java:57-62 | the owner token on a user-confirmed record answers 204, sets `confirmedByOwner`, resets the counter, and sends the first broadcast |
| SubscriptionController.UnsubscribeStep | src/main/java/com/webatspeed/subscription/controller/SubscriptionController.java:72-79 | the unsubscribe token answers 204 and removes the record |
| SubscriptionController.RemoveAfterInsert | src/main/java/com/webatspeed/subscription/controller/SubscriptionController.java:72-79 | removing a just-added email gives back the earlier store |
| SubscriptionController.ConfirmFresh | src/main/java/com/webatspeed/subscription/controller/SubscriptionController.java:57-62 | the user token on a fresh record answers 204, marks it confirmed by the user, and sends wait then approve |
| SubscriptionController.ApproveConfirmed | src/main/java/com/webatspeed/subscription/controller/SubscriptionController.java:57-62 | the owner token on a just-confirmed record answers 204, marks it approved, and sends the first broadcast |
| SubscriptionController.ConfirmThenApprove | src/main/java/com/webatspeed/subscription/controller/SubscriptionController.java:57-62 | confirming and then approving a fresh record succeed in turn with their mails |
| SubscriptionController.CrudFlow | src/main/java/com/webatspeed/subscription/controller/SubscriptionController.java:36-80 | create, then user token, then owner token, then unsubscribe token: each succeeds with its mails, and the store ends as it began |
| Lockout.MismatchStep | src/main/java/com/webatspeed/subscription/controller/SubscriptionController.java:57-77 | a foreign token on an active record gives FalseToken, one more error and no mail, for update and delete |
| Lockout.RepeatMismatch | src/main/java/com/webatspeed/subscription/controller/SubscriptionController.java:57-77 | k foreign tokens in a row, within the ceiling, bump the record's counter k times |
| Lockout.BumpTimesAdds | src/main/java/com/webatspeed/subscription/model/Subscription.java:37-39 | k single increments below the top of the `int` range add exactly k to the counter and change nothing else |
| Lockout.MismatchesCount | src/main/java/com/webatspeed/subscription/controller/SubscriptionController.java:57-77 | k foreign tokens in a row, within the ceiling, leave the counter exactly k higher and every other field and record as it was |
| Lockout.RepliesMismatch | src/main/java/com/webatspeed/subscription/controller/SubscriptionController.java:57-77 | each of those k requests is answered FalseToken |
| Lockout.LockedAfterMaxErrors | src/main/java/com/webatspeed/subscription/controller/SubscriptionController.java:57-77 | after maxErrors refused tokens on a new record, every token, the correct one included, gets UserUnknownOrLocked for update and delete, with nothing changed |
| SubscriptionExceptionAdvice.StatusOf | src/main/java/com/webatspeed/subscription/controller/SubscriptionExceptionAdvice.java:17-48 | FalseToken gives 400, UserUnknownOrLocked 404, UserAlreadyExists 409, and the email-send and AWS service errors 500, each iff |
| SubscriptionExceptionAdvice.ErrorStatusClasses | src/main/java/com/webatspeed/subscription/controller/SubscriptionExceptionAdvice.java:17-48 | no error gets a success status; exactly the caller's mistakes get a 4xx |

## Left out

- Concurrency and async dispatch: `@Async` and blocking `Semaphore.acquire` while another run holds the permit are not modelled. `Distribute` requires a free permit or an interrupt. The `/distribute` endpoint (202 or 423, exercised by `SubscriptionControllerDistributionTests`) is not in `controller/SubscriptionController.java` at this revision and is not modelled.
- Rate-limiter pacing: the wall-clock wait between pages is timing, not logic.
- Mailer and mapper internals: SES and S3 calls, template rendering, MIME assembly and JSON. They are reduced to `Mail` events and the channel oracle. Which calls can raise which failure is left to the oracle.
- Token randomness: UUID generation is replaced by the `Tokens` parameter.
- Audit and version metadata (`createdAt`, `modifiedAt`, `version`) and the store-assigned `id` are not modelled. Optimistic-version conflicts cannot arise in a sequential model.
- Request validation: the bean-validation checks on the email (`@NotBlank @Email`) and their 400 answer are library behaviour.
- Configuration classes (SES, credentials, mail and CORS) are left out.
- The older root-package controller, advice and tests are left out.
- Repository.Save: Mongo's `save` inserts or updates by id. The model splits it into `SaveNew`, for a record without an id, and `Save`, for a record read from the store.
- Repository.FindAllByConfirmedByOwnerIsTrue: the store's natural order is a parameter, because Mongo does not fix it.
- Subscriber.Distribute: `PageRequest.of` rejects a size below one, and the model requires `pageSize > 0` instead of modelling that exception.
- SubscriptionExceptionAdvice.StatusOf: the advice has no handler for a duplicate-key error. The model gives it the framework default of 500. The controller checks for existence first, so a sequential run never raises it.

## Findings

| source | as written | input that shows it | evidently intended | confidence | as-written member | corrected member |
|---|---|---|---|---|---|---|
| src/main/java/com/webatspeed/subscription/service/Subscriber.java:73-88 | `release()` sits in `finally`, so it also runs when `acquire()` threw `InterruptedException` and took no permit | `distribute()` on an idle service (1 permit) from an interrupted thread: the permits become 2, a later run takes one, and `isDistributing()` reports false while it runs; a second run can start beside it | release only a permit that was acquired, so the lock stays single-holder and `isDistributing()` is true exactly while a run holds it | medium, not executed | Subscriber.PermitsAfterAsWritten | Subscriber.DistributeCorrected |
