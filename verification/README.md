# PIGAR work orders: a Dafny model of the concurrent core

PIGAR runs home-service work orders. A request gets media, an order, a technician, a visit, a fixed charge, a payment
through an external provider, a conformity by the client, and afterwards a rating and incidents; a worker turns the
events of this life into notifications. Many processes write the same rows at once, mostly by id and without locks,
and rely on a few unique keys, compare-and-set updates, lease tokens and one in-memory queue. This project models that
core and proves what it keeps.

`dafny verify dfyconfig.toml` checks everything.

## How the model is built

- **Orders and billing.** `WorkOrder` gives each transaction as a function of what it read and of what is there when
  it commits. `Ledger` lets any number of calls interleave: a schedule is a list of commits, each naming the earlier
  states it read, so every interleaving of read and commit steps is a schedule. The unique keys are the only guards of
  a commit. `WorkOrderInvariant` and `WorkOrderSteps` prove the invariant, `OrderAnswers` what each transaction
  answers and writes, `LedgerTheorems`, `Records`, `OrderHistory`, `Confirmations`, `PaymentAttempts`, `PaymentTable`
  and `Approvals` what follows in every run, `OrderReplies` which answers `assign` and `resolve` give, and
  `BillingCalls` and `Reconciliation` what holds when whole calls do not overlap. `OrderStore` is the same code as
  methods that change tables statement by statement and undo them on failure, each proved equal to its transaction;
  `Witnesses` holds runs that show what is not kept.
- **Notifications.** `OutboxWorker` has a clock that does not go back and workers that may act on any claim they ever
  made at any later time, or never again; `OutboxSteps`, `OutboxTheorems`, `OutboxPolls` and `OutboxLimits` hold the
  results, `WorkerStore` the statements, and `Delivery` runs workers and order writers together.
- **Media.** `Mp4` is the box walker against a specification of ISO/IEC 14496-12 (section 4.2 for boxes, 8.2.1 for
  `moov`, 8.2.2 for `mvhd`), `Mp4RoundTrip` an encoder and the round trip, `MediaStream` the streaming loop,
  `MediaVerdicts` what it accepts, `UploadMutex` the promise-chain queue.
- **Aftercare and inbox.** `Aftercare` has the idempotent transactions with the same kind of schedules,
  `AftercareCalls` whole calls with their look-ups and replays, `AftercareAnswers` what they answer, `AftercareStore`
  the statements; `RateWindow` is the fixed-window limiter, `RateMinute` what it lets through in a minute,
  `Pagination` the keyset pages.

Rows carry a few columns of the model's own: history rows name the method that wrote them, attempts list every state
written to them, outbox rows list their claims, aftercare rows name their key. No transaction decides anything by
them. Every lemma carries `{:induction false}`: all inductions are written out.

## Where the code and its promises differ

- Late events are promised not to degrade a payment attempt that has ended (scripts/billing.test.mjs:422). That holds
  for `applyProviderPayment`, but `startCheckout` (apps/api/src/billing/billing.service.ts:249-259) and the UNKNOWN
  branch of `reconcilePending` (341-351) write the state without looking at it.
  `Witnesses.ApprovedAttemptIsOverwritten` is a run in which an APPROVED attempt becomes UNKNOWN;
  `PaymentAttempts.TerminalStateIsLeft` says exactly when a call makes an attempt leave an ended state, and
  `PaymentAttempts.AttemptsEndOnce` in which runs none does.
- The published payment table is not what attempts follow: the stored state UNKNOWN is in no row, PENDING may be
  written again, and the writes around the preference do not look at the state. `PaymentTable.AttemptsFollowTable`
  says in which runs they do follow it and `Witnesses.PaymentOutsideTheTable` is a run in which one does not.
- Only a REJECTED or CANCELLED attempt is promised to permit a new one
  (specs/features/feat-007/requirements.md:58-68), so that one attempt of an order is approved at most.
  `Witnesses.TwoApprovedAttempts` is a run that ends with two, after the late reply of a checkout revived the
  cancelled one; `Approvals.OneApprovalUnlessOverwritten` shows that only such an overwriting write leads there, and
  `Approvals.ApprovedOnce` says which commit then approves a second one.
- Only an approved payment is promised to move an order past its payment
  (packages/contracts/src/order-state-machine.ts:187, and without manual approval in
  specs/features/feat-007/requirements.md:96-100), and only a conformity to close it. `OrdersService.transition`
  accepts both confirmations from an operator. `Witnesses.UnpaidOrderIsClosed` is a run that closes an order without a
  single payment attempt; `Confirmations.PaidUnlessByHand` and `Confirmations.ConformUnlessByHand` say that the
  promises hold for exactly the orders nobody confirmed that way, and `Confirmations.TransitionPastPayment` which
  calls do it.
- `resolve` answers IDEMPOTENCY_PAYLOAD_MISMATCH also to a caller whose key was never used, when another resolution
  commits first, and `assign` answers ORDER_ALREADY_EXISTS for a request without an order when its key was taken for
  another one. `Witnesses.MismatchOfUnusedKey` and `OrderReplies.AlreadyExistsWithoutOrder` are runs of both,
  `OrderReplies.ResolveReplies` and `OrderReplies.AssignReplies` say exactly when.
- A claim of an expired lease raises `attempts` without a limit: retries are bounded
  (`OutboxTheorems.BoundedRetries`), claims are not (`OutboxLimits.ClaimsAreUnbounded`). The sixth and later claims
  are exactly the takeovers of events already claimed five times (`OutboxLimits.ClaimedTooOften`).
- A FAILED event can have its notification (`OutboxLimits.FailedWithNotification`): exactly if a worker wrote it after
  losing its lease (`OutboxLimits.NotifiedUnprocessed`).
- The maximum of the limiter is promised per minute (specs/features/feat-010/requirements.md:225-228), but it holds
  per window. Up to twice the maximum less one pass in a minute (`RateMinute.MinuteBound`,
  `RateMinute.BoundIsAttained`); a minute is sure to keep to the maximum exactly if no window is open when it starts,
  or a full one (`RateMinute.MaximumIsKept`).

## Model

| member | source | states |
|---|---|---|
| OrderStateMachine.RowsAreTargets | packages/contracts/src/order-state-machine.ts:53-150 | every row of the published table is a permitted move, and asks for a reason exactly for cancellations and reassignments |
| OrderStateMachine.TargetsAreRows | packages/contracts/src/order-state-machine.ts:53-150 | every permitted move has its row in the table |
| OrderStateMachine.LookupIsExact | packages/contracts/src/order-state-machine.ts:162-173 | a lookup by source, target and optional action finds a permitted transition, and finds none only when none is permitted |
| OrderStateMachine.AllowedFrom | apps/api/src/orders/orders.service.ts:177-179 | the search by state and action finds the one row of the table for them, or none when the action is not allowed there |
| OrderStateMachine.PermittedProgress | packages/contracts/src/order-state-machine.ts:53-150 | every permitted move raises the rank of the state, except the reassignment, which stays; a cancellation starts before attention; closed and cancelled are never left |
| WorkOrderInvariant.StaleReadFindsVersionTaken | apps/api/prisma/migrations/20260814090000_operational_orders/migration.sql:31 | if anything was committed since the read, the version the writer computed is already in the history: the unique key (order, version) stops it |
| WorkOrderSteps.WriteOrderAdvances | apps/api/src/orders/orders.service.ts:196-217 | an update by id with a version computed from the read commits if and only if the read is still current, and then appends exactly one row that continues the history |
| WorkOrderSteps.AssignIsGood | apps/api/src/orders/orders.service.ts:80-123 | an assignment commits exactly for an operator, a ready request, an assignable technician and no order yet; the invariant is kept and nothing recorded is taken back |
| WorkOrderSteps.TransitionOutcome | apps/api/src/orders/orders.service.ts:172-237 | a transition commits if and only if the request obeys the endpoint's rules on the order read and nothing was committed since; it then appends its own row and its event |
| WorkOrderSteps.ResolveIsGood | apps/api/src/billing/billing.service.ts:82-132 | a resolution commits if and only if the order read is in TRABAJO_FINALIZADO at the expected version, in ARS, and nothing was committed since; it leaves its resolution and keeps the invariant |
| WorkOrderSteps.ConformityIsGood | apps/api/src/billing/billing.service.ts:398-453 | a conformity changes an order if and only if the request's own client asks for it on an order read in PENDIENTE_CONFORMIDAD at the expected version and nothing was committed since; otherwise it repeats an earlier one or is refused; the invariant is kept |
| WorkOrderSteps.OpenAttemptIsGood | apps/api/src/billing/billing.service.ts:219-239 | a checkout's insert keeps the invariant for every stale read: sequences stay 1..k, references unique, at most one attempt active |
| WorkOrderSteps.SettleCheckoutIsGood | apps/api/src/billing/billing.service.ts:240-261 | the unconditional write after the provider's answer keeps the invariant, whatever committed meanwhile |
| WorkOrderSteps.ReopenIsGood | apps/api/src/billing/billing.service.ts:340-351 | so does the unconditional write of a reconciliation that found the preference |
| WorkOrderSteps.ApplyIsGood | apps/api/src/billing/billing.service.ts:264-328 | applying a provider payment keeps the invariant for every combination of attempt read, order read and commit state |
| WorkOrderSteps.StaleReadFindsSequenceTaken | apps/api/prisma/migrations/20260827090000_feat_007_resolution_payment/migration.sql:42 | if an attempt was added since the read, the next sequence number is taken |
| OrderAnswers.AssignAnswers | apps/api/src/orders/orders.service.ts:80-123 | each refusal of an assignment, in its order, and the one row, event and technician it writes otherwise |
| OrderAnswers.TransitionAnswers | apps/api/src/orders/orders.service.ts:163-240 | each of the seven refusals of the transition endpoint on an order read with any history; a request past them fails exactly if anything was committed since the read, as a version conflict, and otherwise appends the row with its technician, reason and event |
| OrderAnswers.ResolveAnswers | apps/api/src/billing/billing.service.ts:82-132 | the refusals of a resolution by role, state, version, currency and stale read, and otherwise its row, resolution and charge of the request's amount |
| OrderAnswers.ConformityAnswers | apps/api/src/billing/billing.service.ts:398-460 | only the request's client is served; an earlier conformity is repeated; another state or version, or a stale read, is refused; otherwise the order is closed with the client's row, event and text |
| OrderAnswers.CheckoutOpens | apps/api/src/billing/billing.service.ts:210-239 | only the client gets a checkout, for an order read awaiting its payment at the expected version; an uncertain attempt refuses it, another active one is reused, and an insert fails exactly if an attempt was added or is active by then or the reference is taken |
| OrderAnswers.PreferenceWrites | apps/api/src/billing/billing.service.ts:249-259 | the write after the provider's answer, and the reopening of a reconciliation, go by the attempt as it was read and overwrite whatever it has become; only another active attempt can refuse one that leaves it active |
| OrderAnswers.MismatchExactly | apps/api/src/billing/billing.service.ts:264-275 | PAYMENT_MISMATCH is answered if and only if no attempt that was read carries the reference, or the currency is not ARS, or the amount is not the request's |
| OrderAnswers.PaymentAnswers | apps/api/src/billing/billing.service.ts:276-325 | a payment for the request's amount leaves an ended or changed attempt alone and otherwise writes the reported state; a rejection is an event, and an approval advances an order read awaiting its payment, or is undone if the order has moved since |
| OrderHistory.ActionsAreNotRepeated | packages/contracts/src/order-state-machine.ts:53-150 | in any history along the table only a reassignment can happen twice |
| OrderHistory.PaymentStage | packages/contracts/src/order-state-machine.ts:53-150 | an order is between PENDIENTE_PAGO and CERRADA if and only if its history contains the creation of the payment |
| Ledger.RunIsGood | apps/api/src/orders/orders.service.ts:80-237 | in every interleaving of the reads and commits of all writers, every state satisfies the whole invariant and extends every earlier state |
| Ledger.CommitIsLocal | apps/api/src/billing/billing.service.ts:278-325 | a commit changes no order but its own, and that one only by its transaction |
| LedgerTheorems.NoLostUpdate | apps/api/src/orders/orders.service.ts:172-240 | in every reachable state versions are 1..n, each row starts where the previous ended along the table, and the order row carries the last state, version and technician, although writers update by id alone |
| LedgerTheorems.ReasonsAreRecorded | apps/api/src/orders/orders.service.ts:186-195 | every cancellation and reassignment on record gives its reason, a reassignment names its technician, and only provider rows have no actor |
| LedgerTheorems.HistoryIsAppendOnly | apps/api/prisma/migrations/20260827090000_feat_007_resolution_payment/migration.sql:53-65 | histories and events only grow; charge, resolution and conformity never change once written |
| LedgerTheorems.OutboxConservation | apps/api/src/orders/orders.service.ts:113-121 | in every reachable state an order's events other than payment.rejected are exactly the events its history owes, in order, none missing and none doubled |
| LedgerTheorems.RejectionConservation | apps/api/src/billing/billing.service.ts:284-293 | there are as many payment.rejected events as writes of the state REJECTED to the order's attempts |
| LedgerTheorems.BillingFollowsTheOrder | apps/api/src/billing/billing.service.ts:87-132 | a charge and a resolution exist if and only if the order is in PENDIENTE_PAGO, PENDIENTE_CONFORMIDAD or CERRADA, and exactly if a resolution wrote a row; the amount is the request's frozen one; a conformity implies CERRADA |
| LedgerTheorems.NoLateCancellation | packages/contracts/src/order-state-machine.ts:53-150 | once attention has started an order is never CANCELADA, and a closed or cancelled order never changes again |
| LedgerTheorems.ApprovedMeansSettled | apps/api/src/billing/billing.service.ts:278-325 | an attempt that is or ever was APPROVED belongs to an order in PENDIENTE_CONFORMIDAD or CERRADA |
| LedgerTheorems.ProviderConfirmsOnce | apps/api/src/billing/billing.service.ts:264-325 | at most one row of an order has no actor; it confirms an approved payment in ARS of exactly the request's amount, the attempt that payment names was written APPROVED, and there is exactly one payment.approved event for it |
| LedgerTheorems.StaleWritersAbort | apps/api/src/orders/orders.service.ts:238-240 | an order advances only on a read that is still current and then by one row; a transition, resolution or conformity on a stale read changes nothing |
| LedgerTheorems.AssignmentKeysWorkOnce | apps/api/src/orders/orders.service.ts:64-79 | a key that has assigned an order changes nothing when used again, with whatever payload |
| LedgerTheorems.ResolutionKeysWorkOnce | apps/api/src/billing/billing.service.ts:70-81 | the same for resolution keys |
| LedgerTheorems.KeysHaveTheirResult | apps/api/src/orders/orders.service.ts:87-112 | a committed key always names its result, and the result is there: the order with its technician, or the resolution with its charge; two keys never share a result |
| Records.ConformityIsTheClients | apps/api/src/billing/billing.service.ts:411-444 | in every run, every conformity on record was given by the client of the request |
| Records.EventsCountRows | apps/api/src/orders/orders.service.ts:218-235 | in every run, an order has one assignment_changed event for each row of an assignment or reassignment, one en_route, one cancelled and one closed event for each departure, cancellation and conformity |
| OrderReplies.LaterKeysAreForOpenOrders | apps/api/src/orders/orders.service.ts:87-112 | a key that is not in the table yet is only ever recorded for an order that is not assigned, or not resolved, yet |
| OrderReplies.AssignReplies | apps/api/src/orders/orders.service.ts:62-150 | the answer of an assignment for all states it sees, as a function of its role, its key when looked up and at the commit, readiness, technician and history: ORDER_ALREADY_EXISTS if and only if the order existed at the commit, or the key had meanwhile been taken for something else, and never ASSIGNMENT_IN_PROGRESS; an accepted assignment's key holds its request and technician |
| OrderReplies.AlreadyExistsWithoutOrder | apps/api/src/orders/orders.service.ts:147 | a run in which ORDER_ALREADY_EXISTS is answered for a request that has no order |
| OrderReplies.ResolveReplies | apps/api/src/billing/billing.service.ts:65-146 | the answer of a resolution for all states it sees: IDEMPOTENCY_PAYLOAD_MISMATCH if and only if the key held something else or, with the key unused, the order was resolved between read and commit, never RESOLUTION_IN_PROGRESS, and every other refusal by the order as it was read; an accepted resolution's key holds its order and payload |
| OrderReplies.SecondResolverIsRefused | apps/api/src/billing/billing.service.ts:91-146 | of two resolutions of one order under different unused keys, both read before either commits, the first goes through and the second is answered IDEMPOTENCY_PAYLOAD_MISMATCH, its key never recorded |
| Witnesses.MismatchOfUnusedKey | apps/api/src/billing/billing.service.ts:135-145 | a run in which that happens |
| Witnesses.UnpaidOrderIsClosed | apps/api/src/orders/orders.service.ts:177-217 | a run of six operator calls in which an order without any payment attempt reaches PENDIENTE_CONFORMIDAD and then CERRADA, without conformity and without either event |
| Confirmations.PaidUnlessByHand | packages/contracts/src/order-state-machine.ts:187-190 | in every reachable state, an order past its payment has a provider row, with its approved attempt for the charge and its one payment.approved event, if and only if nobody confirmed the payment through the generic transition; an order not past it has neither row |
| Confirmations.ConformUnlessByHand | apps/api/src/billing/billing.service.ts:413-458 | in every reachable state, a closed order has its client's conformity if and only if nobody closed it through the generic transition |
| Confirmations.HandsAreCalls | apps/api/src/orders/orders.service.ts:198-217 | an order bears the mark of a confirmation by hand if and only if some transition of the run with that action took effect on it |
| Confirmations.TransitionPastPayment | apps/api/src/orders/orders.service.ts:173-195 | a transition moves an order past its payment if and only if it asks for that confirmation and the order read awaits its payment, at the expected version, unchanged since |
| PaymentTable.WritesExactly | apps/api/src/billing/billing.service.ts:249-325 | exactly which state writes a transaction makes: under the guards of its own branch, on what it read and on what it finds, it adds its one state to the attempt's log, and otherwise it leaves log and state alone |
| PaymentTable.WriteIsPublished | packages/contracts/src/order-state-machine.ts:152-160 | a state write follows the published payment table if and only if it is a payment on an attempt that is not UNKNOWN, other than pending on PENDING, or a preference that was not created on a CREATED or PENDING attempt |
| PaymentTable.AttemptsFollowTable | packages/contracts/src/order-state-machine.ts:152-160 | in every run, all moves of an order's attempts are rows of the table if and only if no commit so far made one of the other writes |
| Witnesses.PaymentOutsideTheTable | apps/api/src/billing/billing.service.ts:259 | a concrete run with two moves outside the table, CREATED to UNKNOWN and UNKNOWN to APPROVED |
| PaymentAttempts.AppliedPaymentsKeepTerminal | apps/api/src/billing/billing.service.ts:276-283 | no provider payment ever changes an attempt that has ended, however stale its read |
| PaymentAttempts.TerminalStateIsLeft | apps/api/src/billing/billing.service.ts:249-259 | an attempt leaves an ended state if and only if the call is one of the two unguarded writes to it, what it had read and the unique index on active attempts let it through, and it writes another state |
| Witnesses.ApprovedAttemptIsOverwritten | apps/api/src/billing/billing.service.ts:259 | a concrete run in which an APPROVED attempt is overwritten with UNKNOWN after its order has advanced |
| PaymentAttempts.AttemptsEndOnce | apps/api/src/billing/billing.service.ts:276-283 | in every run, all attempts of an order have ended at most once and stayed ended if and only if no commit so far was an unguarded write to an ended attempt of that order |
| PaymentAttempts.OneRejectionPerRejectedAttempt | apps/api/src/billing/billing.service.ts:284-293 | as long as no ended attempt of an order was overwritten, it has exactly one payment.rejected event per REJECTED attempt |
| Approvals.ApprovedOnce | apps/api/src/billing/billing.service.ts:276-283 | in every run, at most one attempt of an order was ever APPROVED if and only if no commit so far applied an approved payment to one attempt while another had been approved |
| Approvals.OneApprovalUnlessOverwritten | apps/api/src/billing/billing.service.ts:221-239 | in every run in which no late write overwrote an ended attempt, all attempts but the last are REJECTED or CANCELLED, only the last was ever approved and it still is, and no commit approved a second one |
| Witnesses.TwoApprovedAttempts | apps/api/src/billing/billing.service.ts:259 | a concrete run that leaves an order with two APPROVED attempts and a single payment.approved event |
| BillingCalls.CallsAreSound | apps/api/src/billing/billing.service.ts:210-367 | every sequence of whole calls keeps the invariant, with only the last attempt possibly active or approved |
| BillingCalls.AttemptsAfterCalls | apps/api/src/billing/billing.service.ts:221-239 | after any whole calls attempts have sequences 1..k and distinct references, and all but the last are REJECTED or CANCELLED |
| BillingCalls.ApplyToKnownAttempt | apps/api/src/billing/billing.service.ts:276-283 | a payment for a known attempt and its charge is never refused: it leaves an ended attempt alone and otherwise writes the reported status |
| BillingCalls.ListEndsInFirstTerminal | apps/api/src/billing/billing.service.ts:353-357 | applying a provider's list leaves the attempt in the first terminal status of the list, or else the last reported, applies all payments and touches no other attempt |
| BillingCalls.CheckoutAnswers | apps/api/src/billing/billing.service.ts:240-261 | a checkout that does not fail leaves an active attempt with a page; an uncertain one leaves it UNKNOWN without a page, a refused one CANCELLED |
| BillingCalls.CheckoutFailsExactly | apps/api/src/billing/billing.service.ts:210-262 | the failure an uninterrupted checkout reports, by role, state, version, the attempts found and the provider's answer |
| Reconciliation.ListStopsAtMismatch | apps/api/src/billing/billing.service.ts:353-357 | a provider's list is applied up to the first payment that is not for an attempt of the order, in ARS, of the request's amount; that one ends the pass |
| Reconciliation.PassEnds | apps/api/src/billing/billing.service.ts:340-366 | an uninterrupted pass over an active attempt: the reopening of an uncertain one, the first terminal status of its payments, the number applied, and when it fails |
| Reconciliation.OrdersListedOnce | apps/api/src/billing/billing.service.ts:332-337 | a list of active attempts read from one state names each order once |
| Reconciliation.PassesAreIndependent | apps/api/src/billing/billing.service.ts:338-367 | the passes over such a list do not disturb one another, whichever fail: each order ends as after its own pass alone, all applied payments and all failures are counted, and no other order changes |
| OrderStore.Store.AssignOrder | apps/api/src/orders/orders.service.ts:80-123 | the statements of the assignment transaction, with the reservation first and its result last, undone on a taken key, have exactly its effect |
| OrderStore.Store.ResolveOrder | apps/api/src/billing/billing.service.ts:82-132 | the same for the resolution transaction |
| OrderStore.Store.Assign | apps/api/src/orders/orders.service.ts:55-151 | an uninterrupted assignment, with its look-up, its transaction and its second look-up after a unique violation, has the effect and the answer of the specification |
| OrderStore.Store.Transition | apps/api/src/orders/orders.service.ts:163-244 | the transition statements, with rollback, have exactly the effect of the transition transaction |
| OrderStore.Store.Resolve | apps/api/src/billing/billing.service.ts:57-149 | an uninterrupted resolution, with its look-up, its transaction and its second look-up after a unique violation, has the effect and the answer of the specification |
| OrderStore.Store.Conformity | apps/api/src/billing/billing.service.ts:398-460 | the conformity statements, with rollback, have exactly the effect of the conformity transaction |
| OrderStore.Store.OpenAttempt | apps/api/src/billing/billing.service.ts:219-239 | a checkout's reuse or insert of an attempt has exactly the effect of its transaction |
| OrderStore.Store.SettleCheckout | apps/api/src/billing/billing.service.ts:240-261 | the write after the provider's answer, unguarded as in the source, has exactly the effect of its transaction |
| OrderStore.Store.StartCheckout | apps/api/src/billing/billing.service.ts:210-262 | an uninterrupted checkout has the effect of the composed specification on its order, none on any other, and its answer |
| OrderStore.Store.ApplyProviderPayment | apps/api/src/billing/billing.service.ts:264-328 | compare-and-set, order advance and event commit together or not at all, exactly as the payment transaction |
| OrderStore.Store.ApplyPayments | apps/api/src/billing/billing.service.ts:354-357 | the inner loop applies a list until the first refusal and counts what it applied |
| OrderStore.Store.ReconcilePending | apps/api/src/billing/billing.service.ts:330-367 | the outer loop reaches the state, the reconciled count and the failure count of the recursive specification; a failing attempt does not stop the others |
| OutboxWorker.PlayIsGood | apps/worker/src/index.ts:38-116 | in every run of any number of workers, with crashes and late actions, every state satisfies the worker invariant |
| OutboxWorker.PlayExtends | apps/worker/src/index.ts:38-116 | every later state extends every earlier one: claims and notifications only grow and ended events stay as they are |
| OutboxWorker.Delays | apps/worker/src/index.ts:107 | the delays that can occur are 5, 10, 20 and 40 seconds; the cap of 300 is never reached |
| OutboxSteps.ClaimsExactly | apps/worker/src/index.ts:45 | in every reachable state a claim takes an event of a known kind whose time has come if it waits or its latest token lies in the past, under a token 30 seconds ahead and with one attempt more, and otherwise changes nothing |
| OutboxSteps.LiveLeaseIsSafe | apps/worker/src/index.ts:45 | in every reachable state, an event whose lease has not expired cannot be claimed by anyone |
| OutboxSteps.ClaimsAreSpaced | apps/worker/src/index.ts:45-107 | in every run, a takeover's token is more than 30 seconds after the one before it, and after a retry of the i-th claim the next comes at least 5, 10, 20 or 40 seconds later |
| OutboxSteps.SettlesExactly | apps/worker/src/index.ts:59-111 | in every reachable state, settling under the latest claim of an event being processed ends it as PROCESSED with its notification written, or as FAILED, or makes it wait for 5, 10, 20 or 40 seconds, FAILED at the fifth claim |
| OutboxSteps.NothingElseSettles | apps/worker/src/index.ts:59-111 | a usable event with a client is never failed but by its retries, an unusable one never notified, and a claim that was not made settles nothing |
| OutboxSteps.PollEnds | apps/worker/src/index.ts:38-92 | one uninterrupted poll of a free event in any reachable state ends as FAILED for an unusable event or one without a client, waits after a database error, FAILED at the fifth try, and otherwise ends as PROCESSED with its notification |
| OutboxSteps.CanBeDelivered | apps/worker/src/index.ts:38-79 | from every reachable state every usable event that has not ended can still be delivered by one claim and one notification, whatever crashed before, and no other event changes |
| OutboxTheorems.TokensRise | apps/worker/src/index.ts:45 | the lease tokens of successive claims of an event strictly increase, over expiries and retries |
| OutboxTheorems.Fencing | apps/worker/src/index.ts:70-73 | completing, failing or retrying under any claim but the latest, by any worker but the latest claimer, or on an event not being processed, leaves the outbox unchanged |
| OutboxTheorems.EndedForGood | apps/worker/src/index.ts:70-101 | PROCESSED and FAILED are never left and the row never changes again |
| OutboxTheorems.OneNotificationPerEvent | apps/worker/src/index.ts:59-69 | an event has at most one notification, of its own kind and to its request's client; a PROCESSED event has exactly one |
| OutboxTheorems.BoundedRetries | apps/worker/src/index.ts:105-111 | an event is retried at most four times, with the listed delays, and claimed at most five times more than its lease expired |
| OutboxPolls.PollsMakeProgress | apps/worker/src/index.ts:38-116 | a poll without a crash ends its event or leaves it waiting with one try fewer |
| OutboxPolls.PollsAreRuns | apps/worker/src/index.ts:38-116 | polling an event without crashes is a run of the system: its row is the row after the polls |
| OutboxPolls.FivePollsEndIt | apps/worker/src/index.ts:105-106 | polled without crashes, an event is claimed at most five times and has then ended |
| OutboxLimits.ClaimsAreUnbounded | apps/worker/src/index.ts:45 | for every n a run claims an event n + 1 times, n of them over expired leases |
| OutboxLimits.FailedWithNotification | apps/worker/src/index.ts:66-75 | a run that ends with an event FAILED and its notification written |
| OutboxLimits.NotifiedUnprocessed | apps/worker/src/index.ts:66-75 | in every run an event that is not PROCESSED has its notification if and only if a worker wrote it under a claim that did not hold the lease |
| OutboxTheorems.ClaimsAreCounted | apps/worker/src/index.ts:45 | in every run the claims of an event are its retries, plus the claims that took it over, plus one unless it waits; a waiting event has been claimed fewer than five times, whatever became of its leases |
| OutboxLimits.ClaimPastLimit | apps/worker/src/index.ts:45 | in every reachable state, a step claims an event beyond the fifth time if and only if it claims an event in PROCESSING that was claimed five times or more and whose latest token lies in the past |
| OutboxLimits.ClaimedTooOften | apps/worker/src/index.ts:105-106 | in every run an event has been claimed more than five times if and only if some step so far was such a takeover |
| OutboxTheorems.FiveClaimsEndIt | apps/worker/src/index.ts:105-106 | in every run, an event that never lost a lease is claimed at most five times, fewer while it waits, and after the fifth it has ended or is still being worked on |
| WorkerStore.Outbox.Claim | apps/worker/src/index.ts:44-54 | the claim statement takes an event if and only if it is eligible, and returns the new attempt number and the token |
| WorkerStore.Outbox.Retry | apps/worker/src/index.ts:105-116 | a retry fails the event at the fifth attempt, and otherwise reschedules it under its token |
| WorkerStore.Outbox.Materialize | apps/worker/src/index.ts:65-75 | the insert unless present and the guarded completion, which reports whether the token still held; the insert stays even when it did not |
| WorkerStore.Outbox.PollOnce | apps/worker/src/index.ts:38-91 | a whole poll equals a claim followed by exactly one settling step, or does nothing |
| Delivery.HappenIsGood | apps/api/src/orders/orders.service.ts:113-121 | with order writers and workers interleaved at will, the outbox table holds exactly the events of the orders, row by row |
| Delivery.WorkersAreARun | apps/worker/src/index.ts:38-116 | in every interleaving with order writers the workers' state is a state of the worker system on its own |
| Delivery.MoveByMove | apps/api/src/orders/orders.service.ts:113-121 | a commit under a new id adds one waiting row for the event it records and nothing otherwise; a worker step moves the workers alone |
| Delivery.CanBeDrained | apps/worker/src/index.ts:38-79 | from every reachable world in which none of an order's events was given up, the workers can still drain the order, while no order changes |
| Delivery.ExactlyOneNotificationPerEntry | apps/worker/src/index.ts:59-74 | once an order's events are drained without a failure, every notifiable entry of its history has its own event of the right kind and exactly one notification, to the client |
| Delivery.EntriesHaveTheirOwnRow | apps/api/src/orders/orders.service.ts:218-235 | two notifiable entries of a history never share an event |
| Delivery.EveryNotificationHasItsEntry | apps/worker/src/index.ts:66-69 | every notification goes to the client of its order and belongs to one event of that order of its kind: a rejection, or the event of exactly one history entry |
| Delivery.NotificationsCountRows | apps/api/src/orders/orders.service.ts:218-235 | once an order's events are drained without a failure, its client has exactly one notification for the assignment and each reassignment, the departure, a cancellation and its own conformity |
| Delivery.NotificationsPerKind | apps/worker/src/index.ts:59-74 | once an order's events are drained without a failure, its client has as many notifications of each kind as the order has events, one for the provider's payment if there was one, and one per REJECTED attempt as long as no ended attempt was overwritten |
| Mp4.FindBoxIsExact | apps/api/src/requests/request-media.service.ts:220-285 | the search returns a box if and only if it is readable, of the wanted kind, and reached from the start through readable boxes of other kinds only: the first of its kind |
| Mp4.GetMp4Duration | apps/api/src/requests/request-media.service.ts:214-290 | on arbitrary bytes the walk terminates, reads nothing outside a buffer, and computes the specification: first top-level moov, then its first mvhd |
| Mp4.FetchHeader | apps/api/src/requests/request-media.service.ts:221-238 | the two positioned reads yield the header at an offset, or none when it is cut off or smaller than itself |
| Mp4.SubHeader | apps/api/src/requests/request-media.service.ts:248-258 | the same for a sub-box header in memory, where a 64-bit size that does not fit is refused |
| Mp4.WalkMoov | apps/api/src/requests/request-media.service.ts:246-281 | the inner walk finds the first mvhd of a moov and its duration |
| Mp4.DoubleIsNearest | apps/api/src/requests/request-media.service.ts:232 | a 64-bit number becomes a number that a double can hold, and none it can hold is nearer |
| Mp4.RoundingDistance | apps/api/src/requests/request-media.service.ts:232 | above 2^53 the rounding goes to the nearer multiple of the spacing, from halfway to the even one |
| Mp4RoundTrip.HeaderOfEncoded | apps/api/src/requests/request-media.service.ts:221-238 | an encoded box, with 32-bit, 64-bit or open size, is read back as its own header wherever it stands |
| Mp4RoundTrip.HeaderIsExact | apps/api/src/requests/request-media.service.ts:221-238 | on arbitrary bytes, a box header is read if and only if the bytes announce it: kind without high bits, and a size of at least 8 in 32 bits, at least 16 in 64 bits behind a size of 1, or by the end of the bytes for a size of 0 |
| Mp4RoundTrip.MvhdIsExact | apps/api/src/requests/request-media.service.ts:261-277 | on arbitrary bytes, a duration is read from a movie header if and only if they encode one of version 0 or 1 with a timescale and a duration that are not zero, and then it is their quotient |
| Mp4RoundTrip.DurationRoundTrip | apps/api/src/requests/request-media.service.ts:214-290 | any well-formed boxes, then a moov with any sub-boxes before its mvhd, each size form and both versions, under the letters of these kinds: the duration written is the duration read, none for a zero timescale or duration, and none if the moov holds more than 10 MiB |
| Mp4RoundTrip.CutFileIsRead | apps/api/src/requests/request-media.service.ts:240-244 | a file cut off anywhere behind its mvhd still has its duration |
| Mp4RoundTrip.MissingIsZero | apps/api/src/requests/request-media.service.ts:243-244 | a file cut off anywhere behind the header of its moov is read as if zeros stood for what is missing |
| MediaStream.DetectionIsStable | apps/api/src/requests/request-media.service.ts:189-202 | a detected type does not change when more bytes arrive |
| MediaStream.TooLargeStays | apps/api/src/requests/request-media.service.ts:72-83 | a refusal for size is final |
| MediaStream.Consume | apps/api/src/requests/request-media.service.ts:66-86 | the streaming loop over any chunks has the outcome of one check on their concatenation: type, inspected prefix, total, or TOO_LARGE |
| MediaStream.IndexOfMvhd | apps/api/src/requests/request-media.service.ts:205 | the fallback looks at the first occurrence of the letters mvhd |
| MediaStream.Upload | apps/api/src/requests/request-media.service.ts:72-102 | the verdict on an upload depends only on its bytes |
| MediaStream.AcceptedIsWithinLimits | apps/api/src/requests/request-media.service.ts:74-101 | what is accepted is at most 10 MiB for an image and 50 MiB for a video, whose duration lies in (0, 30] |
| MediaVerdicts.TypesExactly | apps/api/src/requests/request-media.service.ts:189-202 | bytes are PNG, JPEG or video if and only if they start with the PNG signature, start with ff d8 ff, or are at least twelve, have ftyp at 4 and are not JPEG |
| MediaVerdicts.VerdictExactly | apps/api/src/requests/request-media.service.ts:66-102 | the verdict on any bytes, with the limits of 50 MiB, 10 MiB, 512 inspected bytes and 30 seconds |
| MediaVerdicts.FallbackExactly | apps/api/src/requests/request-media.service.ts:204-212 | the fallback states a duration if and only if behind the first letters mvhd and twelve further bytes there are a timescale that is not zero and a duration, and then their quotient |
| UploadMutex.MutualExclusion | apps/api/src/requests/request-media.service.ts:35-48 | in every interleaving at most one upload of a request is past the wait and not ended |
| UploadMutex.FirstComeFirstServed | apps/api/src/requests/request-media.service.ts:36-41 | whoever is past the wait, all that arrived before have ended |
| UploadMutex.WaitersAreEnabled | apps/api/src/requests/request-media.service.ts:41 | a waiting upload may resume if and only if all earlier ones of the request have ended |
| UploadMutex.LockedWhileUploading | apps/api/src/requests/request-media.service.ts:46 | the map has an entry for a request if and only if one of its uploads has not ended |
| UploadMutex.QueueDrains | apps/api/src/requests/request-media.service.ts:42-47 | from every reachable state the queue of a request can be served to its end: no deadlock, and no entry left |
| UploadMutex.MediaWithinLimits | apps/api/src/requests/request-media.service.ts:117-126 | at most five images and one video are stored per request, although looking and storing are separate steps |
| UploadMutex.StoresExactly | apps/api/src/requests/request-media.service.ts:117-151 | in every interleaving an upload at its check stores its media and makes the request ready if and only if the request has at that moment fewer than five images, or no video; otherwise nothing changes |
| UploadMutex.ReadyExactlyWithMedia | apps/api/src/requests/request-media.service.ts:148-151 | a request is READY_FOR_OPERATION if and only if it has stored media |
| UploadMutex.MediaOnlyGrow | apps/api/src/requests/request-media.service.ts:130-140 | stored media are never lost |
| UploadMutex.Uploads.Arrived | apps/api/src/requests/request-media.service.ts:36-40 | an arrival takes the last queue promise as predecessor and leaves its own in the map |
| UploadMutex.Uploads.Resumed | apps/api/src/requests/request-media.service.ts:41 | the wait ends if and only if the predecessor's queue promise is resolved |
| UploadMutex.Uploads.Looks | apps/api/src/requests/request-media.service.ts:117 | the stored media are read before the check |
| UploadMutex.Uploads.Keep | apps/api/src/requests/request-media.service.ts:117-151 | counting the media seen and storing one more, exactly when the limit of its kind allows |
| UploadMutex.Uploads.Left | apps/api/src/requests/request-media.service.ts:44-47 | release, and delete the map entry only if it is still one's own |
| RateMinute.MinuteRoom | apps/api/src/aftercare/aftercare.service.ts:448-459 | whatever is called before a minute and inside it, the minute lets at most its room for a key through: the maximum if no window of the key is open at its start, else the maximum and what the open window has left |
| RateMinute.MinuteRoomIsUsed | apps/api/src/aftercare/aftercare.service.ts:448-459 | that room is exact: after every past, some calls inside the minute use it up |
| RateMinute.MaximumIsKept | apps/api/src/aftercare/aftercare.service.ts:448-459 | after any calls, every continuation keeps to the promised maximum in the minute that follows if and only if no window of the key is open at its start or the open one is full |
| RateMinute.MinuteBound | apps/api/src/aftercare/aftercare.service.ts:448-459 | with a clock that does not go back, fewer than twice the maximum calls with a key pass in any half-open minute, whatever other keys do |
| RateMinute.BoundIsAttained | apps/api/src/aftercare/aftercare.service.ts:453-458 | the bound is exact for every key: after one call, some calls let twice its maximum less one through in a minute |
| RateMinute.FirstCallsPass | apps/api/src/aftercare/aftercare.service.ts:448-470 | in the minute after one without calls of a key exactly its first 120 reads, 10 writes or 60 transitions, 30 calls from an address or 60 of an inbox pass |
| RateWindow.RefusedMeansFull | apps/api/src/aftercare/aftercare.service.ts:457 | a call is refused only if the maximum was let through during the last minute |
| RateWindow.KeysAreIndependent | apps/api/src/aftercare/aftercare.service.ts:450-458 | windows and verdicts of a key depend on the calls with that key alone |
| RateWindow.WaitingPays | apps/api/src/aftercare/aftercare.service.ts:539-546 | the announced wait is 1 to 60 seconds; a caller that waits so long is let through if nobody used its key meanwhile, and a second earlier it would not be |
| RateWindow.TextsDiffer | apps/api/src/aftercare/aftercare.service.ts:450 | map keys of different kinds or profiles differ, whatever characters a profile has |
| RateWindow.Limiter.Limit | apps/api/src/aftercare/aftercare.service.ts:448-459 | the statements on the window map keep it equal to the windows of the calls so far, and answer by the window before the call |
| RateWindow.Limiter.LimitIp | apps/api/src/aftercare/aftercare.service.ts:460-470 | the same by address, with a maximum of 30 |
| RateWindow.Limiter.LimitInbox | apps/api/src/notifications/notifications.service.ts:112-122 | the same for the inbox, with a maximum of 60 |
| Pagination.EveryRowOnce | apps/api/src/notifications/notifications.service.ts:35-60 | a reader that follows the cursor to the end while the table grows sees every row present at the start, only stored rows, newest first and for the same time the greater id first, hence each once |
| Pagination.SortedAfterAllPages | apps/api/src/notifications/notifications.service.ts:35-60 | if only newer rows arrive meanwhile, k pages show the first k * limit rows of the table at the start, and the reading ends exactly after max(1, ceil(n / limit)) pages with the sorted table |
| Pagination.FixedTable | apps/api/src/notifications/notifications.service.ts:48-60 | on a fixed table the pages are its sorted listing cut into pieces, ending exactly after that many pages |
| Pagination.RestOfListing | apps/api/src/notifications/notifications.service.ts:39-46 | the rows after the cursor of the k-th row are the listing without its first k rows |
| Pagination.PageIsTheStart | apps/api/src/notifications/notifications.service.ts:49-60 | a page is the start of what follows its cursor, and has a next cursor, its last row, if and only if more remains |
| Pagination.Limit | apps/api/src/notifications/notifications.service.ts:32-34 | the page size is 20 by default and otherwise accepted exactly from 1 to 50 |
| Aftercare.RunIsGood | apps/api/src/aftercare/aftercare.service.ts:86-103 | in every interleaving of ratings, openings and transitions every state satisfies the aftercare invariant and extends every earlier one |
| Aftercare.MoveMeans | apps/api/src/aftercare/aftercare.service.ts:383-413 | a transition that commits found the incident exactly as it was read, at the expected version, and appends the next row |
| Aftercare.SequenceIsFree | apps/api/src/aftercare/aftercare.service.ts:404 | the sequence number a transition computes is never taken: that constraint does not fire |
| AftercareCalls.AnswersAreTrue | apps/api/src/aftercare/aftercare.service.ts:60-117 | every answer of a call is true: a created effect is new, a replayed one is the key's effect for the same payload, a mismatch is real, RATING_ALREADY_EXISTS and INCIDENT_ALREADY_ACTIVE hold at the commit, version and status errors are real, and neither AFTERCARE_IN_PROGRESS nor an unhandled error occurs |
| AftercareAnswers.AnswersExactly | apps/api/src/aftercare/aftercare.service.ts:60-117 | the answer of a call in every run, for all states it reads: a key in use at the commit answers for itself, rows that permit the call create its result, and rows that do not refuse it with the reason of its kind, unless the key is in use by the last of twenty looks |
| AftercareAnswers.EffectsExactly | apps/api/src/aftercare/aftercare.service.ts:371-419 | a commit on any earlier read has its effect if and only if its key, by profile, scope and text, is unused and the rows permit it: no rating yet, no open incident, or START_TRIAGE on ABIERTA or CLOSE on EN_TRIAGE at the expected version; the rows and the key it then writes, field by field |
| AftercareCalls.NeverInProgress | apps/api/src/aftercare/aftercare.service.ts:83 | AFTERCARE_IN_PROGRESS is unreachable: a reserved key always has a readable result |
| AftercareCalls.OneEffectPerKey | apps/api/src/aftercare/aftercare.service.ts:87-102 | once a commit has left a key behind, every later commit with it changes nothing, with the same payload or another |
| AftercareCalls.KeysAndEffectsCorrespond | apps/api/src/aftercare/aftercare.service.ts:186-213 | keys and effects correspond one to one: every key has its effect and every rating and transition the one key that wrote it |
| AftercareCalls.KeysHoldOneThing | apps/api/src/aftercare/aftercare.service.ts:60-71 | a key holds the same payload and result in every state of a run that has it |
| AftercareCalls.IncidentsFollowThePath | apps/api/src/aftercare/aftercare.service.ts:389-412 | an incident's version is its number of transitions, at most three, numbered from 1 along ABIERTA, EN_TRIAGE, CERRADA |
| AftercareCalls.OneRatingOneActiveIncident | apps/api/prisma/migrations/20260901090000_feat_010_aftercare/migration.sql:11-27 | an order has at most one rating, and of its incidents only the latest can be open |
| AftercareCalls.AftercareIsAppendOnly | apps/api/prisma/migrations/20260901090000_feat_010_aftercare/migration.sql:48-50 | ratings and transitions are only ever added, and versions never fall |
| AftercareStore.Store.CreateRating | apps/api/src/aftercare/aftercare.service.ts:86-103 | the statements of the rating transaction, undone on a taken order, have exactly its effect |
| AftercareStore.Store.CreateIncident | apps/api/src/aftercare/aftercare.service.ts:185-215 | the same for opening an incident |
| AftercareStore.Store.MoveIncident | apps/api/src/aftercare/aftercare.service.ts:374-419 | the same for a transition, with its four ways to be refused |
| AftercareStore.ReplayLoop | apps/api/src/aftercare/aftercare.service.ts:547-577 | the loop of up to twenty attempts returns what the first conclusive attempt finds |

## Left out

- PostgreSQL and Prisma: a transaction reads earlier committed states and commits at once, guarded by the unique keys
  of the migrations; locks, waiting, CHECK constraints and connection failures are not modelled. A poll whose claim
  fails to commit and is retried nevertheless is not modelled.
- WorkerStore.Outbox.Claim: the source takes the oldest eligible event that is not locked, the model any eligible one,
  so every result covers the source's choice.
- OrderStore.Store.ReconcilePending: the list of pending attempts is given; the source takes at most `limit` of them
  by the time of their last check, which is not modelled, and stamps that time afterwards.
- The clock: times are whole milliseconds, as the stored columns are, and never go back.
- Several API processes: the upload queue and the rate windows are those of one process; the row lock that also
  protects stored media is left out, and the limit is proved without it.
- Request failures inside an upload: temporary files, renames, removals and checksums; an upload may end by an error
  at any point.
- Number formats: file offsets are unbounded integers, where a script number is exact only below 2^53; durations are
  exact fractions, not rounded quotients.
- Cursor texts, payload hashes and external references: encodings and hashes are taken to be injective, and UUID order
  is the order of integers. Creation times are exact in a cursor because the column holds milliseconds.
- Paging of incidents: it rests on the cursor semantics of Prisma, which is not part of this model.
- Address preparation in `limitIp`: trimming and the shared name of missing addresses; the address is given.
- Ownership and closedness checks before aftercare calls: an order that is CERRADA stays so
  (`LedgerTheorems.NoLateCancellation`), and the calls are modelled from there on.
- The provider: its answers are arbitrary; HTTP, signatures and parsing are left out.
- Webhook jobs and the reconciliation runner, audit rows, logs, views, templates, catalog, profiles, authentication,
  text validation and the web applications: easy or without state of this kind.
- Pagination.SortedAfterAllPages: stated for insertions that are newer than all rows at the start; for other
  insertions `Pagination.EveryRowOnce` holds, and the number of pages is not bounded.
