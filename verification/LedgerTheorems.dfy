/** What holds in every state of every interleaving of the five order writers and the checkout calls. */
module LedgerTheorems {
  import opened Wrappers
  import opened OrderStateMachine
  import opened WorkOrder
  import opened WorkOrderInvariant
  import opened WorkOrderSteps
  import opened OrderHistory
  import opened Ledger

  /** The state of one order after the first `i` commits of a schedule. */
  function OrderIn(reqs: Requests, schedule: seq<Commit>, i: nat, request: string): Aggregate
    requires i <= |schedule|
  {
    At(Run(reqs, schedule)[i], request)
  }

  lemma {:induction false} OrderIsGood(reqs: Requests, schedule: seq<Commit>, i: nat, request: string)
    requires i <= |schedule|
    ensures Good(reqs(request), OrderIn(reqs, schedule, i, request))
  {
    hide Good;
    RunIsGood(reqs, schedule);
    assert DbGood(reqs, Run(reqs, schedule)[i]);
  }

  lemma {:induction false} OrderExtends(reqs: Requests, schedule: seq<Commit>, i: nat, j: nat, request: string)
    requires i <= j <= |schedule|
    ensures Extends(OrderIn(reqs, schedule, i, request), OrderIn(reqs, schedule, j, request))
  {
    hide Extends;
    RunIsGood(reqs, schedule);
    assert DbExtends(Run(reqs, schedule)[i], Run(reqs, schedule)[j]);
  }

  /** No lost update. Versions are 1..n, every row continues the previous one along the published table,
      and the order row carries the last state, the last version and the last technician named,
      although every writer overwrites it by id alone. */
  lemma {:induction false} NoLostUpdate(reqs: Requests, schedule: seq<Commit>, i: nat, request: string)
    requires i <= |schedule|
    ensures var a := OrderIn(reqs, schedule, i, request);
            var h := a.history;
            (forall k :: 0 <= k < |h| ==> h[k].version == k + 1 && Permitted(h[k].from, h[k].action, h[k].to))
            && (forall k :: 0 < k < |h| ==> h[k].from == h[k - 1].to)
            && (h != [] ==> h[0].from == Requested)
            && (a.order.Some? <==> h != [])
            && (h != [] ==> a.order.value == OrderRow(h[|h| - 1].to, |h|, LastTechnician(h)))
  {
    OrderIsGood(reqs, schedule, i, request);
    var h := OrderIn(reqs, schedule, i, request).history;
    forall k | 0 <= k < |h| ensures h[k].version == k + 1 && Permitted(h[k].from, h[k].action, h[k].to)
                                    && (k > 0 ==> h[k].from == h[k - 1].to) {
      assert RowOk(h, k);
    }
    if h != [] { assert RowOk(h, 0); }
  }

  /** Every cancellation and every reassignment on record gives its reason, a reassignment names its technician, and
      every row but the provider's names its actor. */
  lemma {:induction false} ReasonsAreRecorded(reqs: Requests, schedule: seq<Commit>, i: nat, request: string, k: nat)
    requires i <= |schedule| && k < |OrderIn(reqs, schedule, i, request).history|
    ensures var row := OrderIn(reqs, schedule, i, request).history[k];
            (NeedsReason(row.action) ==> row.reason.Some?)
            && (row.action == ReassignTechnician ==> row.technician.Some?)
            && (row.actor.None? <==> row.writer.ByProvider?)
  {
    hide Run;
    OrderIsGood(reqs, schedule, i, request);
    assert WriterOk(OrderIn(reqs, schedule, i, request).history[k]);
  }

  /** Histories are append-only: what was once recorded is a prefix of everything later. */
  lemma {:induction false} HistoryIsAppendOnly(reqs: Requests, schedule: seq<Commit>, i: nat, j: nat, request: string)
    requires i <= j <= |schedule|
    ensures var early, late := OrderIn(reqs, schedule, i, request), OrderIn(reqs, schedule, j, request);
            early.history <= late.history && early.outbox <= late.outbox
            && Kept(early.charge, late.charge) && Kept(early.resolution, late.resolution)
            && Kept(early.conformity, late.conformity)
  {
    OrderExtends(reqs, schedule, i, j, request);
  }

  /** Outbox conservation. Apart from rejections, an order's events are exactly those its history owes, in order. */
  lemma {:induction false} OutboxConservation(reqs: Requests, schedule: seq<Commit>, i: nat, request: string)
    requires i <= |schedule|
    ensures var a := OrderIn(reqs, schedule, i, request);
            WithoutRejections(a.outbox) == EventsOf(a.history)
  {
    OrderIsGood(reqs, schedule, i, request);
  }

  /** One rejection event for each time an attempt was written REJECTED. */
  lemma {:induction false} RejectionConservation(reqs: Requests, schedule: seq<Commit>, i: nat, request: string)
    requires i <= |schedule|
    ensures var a := OrderIn(reqs, schedule, i, request);
            Count(a.outbox, PaymentRejected) == RejectionsIn(a.attempts)
  {
    OrderIsGood(reqs, schedule, i, request);
  }

  /** Charge and resolution exist exactly from the payment stage on; the amount is the request's frozen one;
      a conformity means the order is closed. */
  lemma {:induction false} BillingFollowsTheOrder(reqs: Requests, schedule: seq<Commit>, i: nat, request: string)
    requires i <= |schedule|
    ensures var a := OrderIn(reqs, schedule, i, request);
            (a.charge.Some? <==> InState(a, {PaymentPending, ConformityPending, Closed}))
            && (a.resolution.Some? <==> a.charge.Some?)
            && (a.charge.Some? <==> exists k :: 0 <= k < |a.history| && a.history[k].writer == ByResolve)
            && (a.charge.Some? ==> a.charge.value.amount == reqs(request).amount && a.charge.value.currency == "ARS")
            && (a.conformity.Some? ==> InState(a, {Closed}))
  {
    OrderIsGood(reqs, schedule, i, request);
    ChargeMeansResolved(reqs(request), OrderIn(reqs, schedule, i, request));
  }

  lemma {:induction false} ChargeMeansResolved(req: Request, a: Aggregate)
    requires HistoryOk(a.history) && OrderMatches(a) && WritersOk(a.history) && BillingOk(req, a)
    ensures a.charge.Some? <==> exists k :: 0 <= k < |a.history| && a.history[k].writer == ByResolve
  {
    hide HistoryOk, LastTechnician, Permitted;
    if a.history != [] {
      PaymentStage(a.history);
      PaymentStates(a);
      if k: nat :| k < |a.history| && a.history[k].action == CreateFixedPayment { assert WriterOk(a.history[k]); }
      if k: nat :| k < |a.history| && a.history[k].writer == ByResolve { assert WriterOk(a.history[k]); }
    }
  }

  lemma {:induction false} PaymentStates(a: Aggregate)
    requires OrderMatches(a) && a.history != []
    ensures Paying(a) <==> Rank(PaymentPending) <= Rank(StateAfter(a.history)) <= Rank(Closed)
  {
    hide LastTechnician;
  }

  /** Once attention has started an order is never cancelled; a closed or cancelled order never moves again. */
  lemma {:induction false} NoLateCancellation(reqs: Requests, schedule: seq<Commit>, i: nat, j: nat, request: string)
    requires i <= j <= |schedule|
    ensures var early, late := OrderIn(reqs, schedule, i, request), OrderIn(reqs, schedule, j, request);
            (early.order.Some? && Rank(InService) <= Rank(early.order.value.state) <= Rank(Closed) ==>
              !InState(late, {Cancelled}))
            && (InState(early, {Closed, Cancelled}) ==> late.history == early.history && late.order == early.order)
  {
    OrderIsGood(reqs, schedule, i, request);
    OrderIsGood(reqs, schedule, j, request);
    OrderExtends(reqs, schedule, i, j, request);
    LateHistory(OrderIn(reqs, schedule, i, request), OrderIn(reqs, schedule, j, request));
  }

  lemma {:induction false} LateHistory(early: Aggregate, late: Aggregate)
    requires HistoryOk(late.history) && OrderMatches(early) && OrderMatches(late) && early.history <= late.history
    ensures early.order.Some? && Rank(InService) <= Rank(early.order.value.state) <= Rank(Closed) ==>
              !InState(late, {Cancelled})
    ensures InState(early, {Closed, Cancelled}) ==> late.history == early.history && late.order == early.order
  {
    hide HistoryOk, LastTechnician, Permitted;
    if early.history != [] && early.history != late.history {
      NoCancellationAfterService(late.history, |early.history| - 1, |late.history| - 1);
    }
  }

  /** An attempt was ever approved only if the order has gone past the payment stage. */
  lemma {:induction false} ApprovedMeansSettled(reqs: Requests, schedule: seq<Commit>, i: nat, request: string, k: nat)
    requires i <= |schedule| && k < |OrderIn(reqs, schedule, i, request).attempts|
    ensures var a := OrderIn(reqs, schedule, i, request);
            a.attempts[k].state == Approved || Approved in a.attempts[k].log ==> InState(a, {ConformityPending, Closed})
  {
    OrderIsGood(reqs, schedule, i, request);
    var a := OrderIn(reqs, schedule, i, request);
    assert AttemptOk(a.attempts, k);
  }

  /** At most one row of an order was written by the provider, without an actor. It came with exactly one
      `payment.approved` event, from an approved payment in the charge's currency for the charge's amount, whose
      attempt was written APPROVED; since before it the order was not past its payment, by the same commit. */
  lemma {:induction false} ProviderConfirmsOnce(reqs: Requests, schedule: seq<Commit>, i: nat, request: string)
    requires i <= |schedule|
    ensures var a := OrderIn(reqs, schedule, i, request);
            ProviderRows(a.history) <= 1 && Count(a.outbox, PaymentApproved) == ProviderRows(a.history)
    ensures var a := OrderIn(reqs, schedule, i, request);
            forall k :: 0 <= k < |a.history| && a.history[k].actor.None? ==>
              a.history[k].action == ConfirmProviderPayment && a.history[k].writer.ByProvider?
              && a.history[k].writer.payment.status == StatusApproved
              && a.charge.Some?
              && a.history[k].writer.payment.currency == a.charge.value.currency == "ARS"
              && a.history[k].writer.payment.amount == a.charge.value.amount == reqs(request).amount
              && Credited(a.attempts, a.history[k].writer.payment)
  {
    hide Run, HistoryOk, OrderMatches, EventsOf, WithoutRejections, Count, RejectionsIn, Credited;
    OrderIsGood(reqs, schedule, i, request);
    var a := OrderIn(reqs, schedule, i, request);
    AtMostOneProviderRow(a.history);
    ApprovedEventsAreProviderRows(a.history);
    RejectionsDoNotMatter(a.outbox, PaymentApproved);
    forall k | 0 <= k < |a.history| && a.history[k].actor.None?
      ensures a.history[k].writer.ByProvider? && a.history[k].writer.payment.status == StatusApproved
              && a.history[k].action == ConfirmProviderPayment
    {
      assert WriterOk(a.history[k]);
    }
  }

  // ---------------------------------------------------------------- single commits

  predicate OneMoreRow(before: Aggregate, after: Aggregate) {
    |after.history| == |before.history| + 1 && before.history <= after.history
  }

  /** The order is as it was, or it advanced by one row from a read that was current. */
  predicate FreshOnly(read: Aggregate, before: Aggregate, after: Aggregate) {
    after.history == before.history || (OneMoreRow(before, after) && read.history == before.history)
  }

  lemma {:induction false} ApplyIsFresh(req: Request, attemptRead: Aggregate, orderRead: Aggregate, now: Aggregate,
                                        p: ProviderPayment)
    requires Good(req, attemptRead) && Good(req, orderRead) && Good(req, now)
    requires Extends(attemptRead, orderRead) && Extends(orderRead, now)
    requires ApplyTx(attemptRead, orderRead, now, p).Ok?
    ensures FreshOnly(orderRead, now, ApplyTx(attemptRead, orderRead, now, p).value)
  {
    hide ApplyTx;
    var next := ApplyTx(attemptRead, orderRead, now, p).value;
    if next != now {
      ApplyHasAttempt(attemptRead, orderRead, now, p);
      OrderOfAnAttempt(req, attemptRead, orderRead, now);
      var k := ApplyCases(attemptRead, orderRead, now, p);
      if orderRead.history != now.history {
        StaleReadFindsVersionTaken(orderRead.history, now.history);
      }
    }
  }

  lemma {:induction false} ApplyHasAttempt(attemptRead: Aggregate, orderRead: Aggregate, now: Aggregate,
                                           p: ProviderPayment)
    requires ApplyTx(attemptRead, orderRead, now, p).Ok?
    ensures attemptRead.attempts != []
  {
  }

  /** One transaction of any operation, as it affects its own order's history. */
  lemma {:induction false} TxIsFresh(req: Request, op: Op, first: Aggregate, second: Aggregate, now: Aggregate)
    requires Good(req, first) && Good(req, second) && Good(req, now)
    requires Extends(first, second) && Extends(second, now) && Extends(first, now)
    requires Tx(req, op, first, second, now).Ok? && !op.Assign?
    ensures var next := Tx(req, op, first, second, now).value;
            FreshOnly(if op.ApplyPayment? then second else first, now, next)
            && ((op.Transit? || op.Resolve? || op.Conform?) && first.history != now.history ==> next == now)
  {
    hide Good, Extends, ApplyTx, TransitionTx, ResolveTx, ConformityTx, OpenAttemptTx, SettleCheckoutTx, ReopenTx;
    GoodParts(req, first);
    ExtendsParts(first, now);
    match op
    case Transit(actor, input) => GoodParts(req, now); TransitionOutcome(first, now, actor, input);
    case Resolve(actor, _, payload) =>
      ResolveIsGood(req, first, now, actor, payload.resolution, payload.expectedVersion);
      ResolveAppends(req, first, now, actor, payload);
    case OpenAttempt(actor, reference, version) => OpenAttemptKeepsHistory(req, first, now, actor, reference, version);
    case SettleCheckout(k, outcome) => SettleKeepsHistory(first, now, k, outcome);
    case Reopen(k, url) => ReopenKeepsHistory(first, now, k, url);
    case ApplyPayment(p) => ApplyIsFresh(req, first, second, now, p);
    case Conform(actor, text, version) =>
      ConformityIsGood(req, first, now, actor, text, version);
      ConformityAppends(req, first, now, actor, text, version);
  }

  lemma {:induction false} ResolveAppends(req: Request, read: Aggregate, now: Aggregate, actor: Actor, payload: Payload)
    requires ResolveTx(req, read, now, actor, payload.resolution, payload.expectedVersion).Ok?
    ensures OneMoreRow(now, ResolveTx(req, read, now, actor, payload.resolution, payload.expectedVersion).value)
  {
  }

  lemma {:induction false} ConformityAppends(req: Request, read: Aggregate, now: Aggregate, actor: Actor, text: string,
                                             version: int)
    requires ConformityTx(req, read, now, actor, text, version).Ok?
    ensures var next := ConformityTx(req, read, now, actor, text, version).value; next == now || OneMoreRow(now, next)
  {
  }

  lemma {:induction false} OpenAttemptKeepsHistory(req: Request, read: Aggregate, now: Aggregate, actor: Actor,
                                                   reference: string, version: int)
    requires OpenAttemptTx(req, read, now, actor, reference, version).Ok?
    ensures OpenAttemptTx(req, read, now, actor, reference, version).value.history == now.history
  {
  }

  lemma {:induction false} SettleKeepsHistory(read: Aggregate, now: Aggregate, k: nat, outcome: CheckoutOutcome)
    requires SettleCheckoutTx(read, now, k, outcome).Ok?
    ensures SettleCheckoutTx(read, now, k, outcome).value.history == now.history
  {
  }

  lemma {:induction false} ReopenKeepsHistory(read: Aggregate, now: Aggregate, k: nat, url: string)
    requires ReopenTx(read, now, k, url).Ok?
    ensures ReopenTx(read, now, k, url).value.history == now.history
  {
  }

  lemma {:induction false} GoodParts(req: Request, a: Aggregate)
    requires Good(req, a)
    ensures HistoryOk(a.history) && OrderMatches(a)
  {
  }

  lemma {:induction false} ExtendsParts(a: Aggregate, b: Aggregate)
    requires Extends(a, b)
    ensures a.history <= b.history
  {
  }

  /** The reads a commit's order write depends on. */
  function OrderRead(c: Commit): nat { if c.op.ApplyPayment? then c.secondRead else c.firstRead }

  /** An order advances only on a read that is still current, and then by one row. A transition, a resolution
      or a conformity whose read is not current changes nothing at all. */
  lemma {:induction false} StaleWritersAbort(reqs: Requests, schedule: seq<Commit>, c: Commit)
    requires c.firstRead <= c.secondRead <= |schedule| && !c.op.Assign?
    ensures var n := |schedule|;
            var read := OrderIn(reqs, schedule, OrderRead(c), c.request);
            var before := OrderIn(reqs, schedule, n, c.request);
            var after := OrderIn(reqs, schedule + [c], n + 1, c.request);
            FreshOnly(read, before, after)
            && ((c.op.Transit? || c.op.Resolve? || c.op.Conform?) && read.history != before.history ==> after == before)
  {
    hide Good, Extends, Run, FreshOnly, Tx, NextState;
    var n := |schedule|;
    RunAppends(reqs, schedule, c);
    CommitIsLocal(reqs, Run(reqs, schedule), c, c.request);
    var now := OrderIn(reqs, schedule, n, c.request);
    if OrderIn(reqs, schedule + [c], n + 1, c.request) == now {
      UnchangedIsFresh(OrderIn(reqs, schedule, OrderRead(c), c.request), now);
    } else {
      OrderIsGood(reqs, schedule, c.firstRead, c.request);
      OrderIsGood(reqs, schedule, c.secondRead, c.request);
      OrderIsGood(reqs, schedule, n, c.request);
      OrderExtends(reqs, schedule, c.firstRead, c.secondRead, c.request);
      OrderExtends(reqs, schedule, c.secondRead, n, c.request);
      OrderExtends(reqs, schedule, c.firstRead, n, c.request);
      TxIsFresh(reqs(c.request), c.op, OrderIn(reqs, schedule, c.firstRead, c.request),
                OrderIn(reqs, schedule, c.secondRead, c.request), now);
    }
  }

  lemma {:induction false} UnchangedIsFresh(read: Aggregate, now: Aggregate)
    ensures FreshOnly(read, now, now)
  {
  }

  lemma {:induction false} RunAppends(reqs: Requests, schedule: seq<Commit>, c: Commit)
    ensures Run(reqs, schedule + [c]) == Run(reqs, schedule) + [NextState(reqs, Run(reqs, schedule), c)]
  {
    assert (schedule + [c])[..|schedule|] == schedule;
  }

  lemma {:induction false} RunStarts(reqs: Requests, schedule: seq<Commit>)
    ensures Run(reqs, schedule)[0] == EMPTY_DB
  {
    if schedule != [] { RunStarts(reqs, schedule[..|schedule| - 1]); }
  }

  /** The states of a run, one commit at a time. */
  lemma {:induction false} RunStep(reqs: Requests, schedule: seq<Commit>, j: nat)
    requires j < |schedule|
    ensures Run(reqs, schedule)[..j + 1] == Run(reqs, schedule[..j])
    ensures Run(reqs, schedule)[j + 1] == NextState(reqs, Run(reqs, schedule)[..j + 1], schedule[j])
    decreases |schedule|
  {
    hide NextState;
    var n := |schedule| - 1;
    if j < n {
      RunStep(reqs, schedule[..n], j);
      assert schedule[..n][..j] == schedule[..j];
    }
  }

  // ---------------------------------------------------------------- idempotency

  lemma {:induction false} ExtendsKeepsKeys(a: Db, b: Db)
    requires DbExtends(a, b)
    ensures a.assignments.Keys <= b.assignments.Keys && a.commands.Keys <= b.commands.Keys
  {
    hide Extends;
  }

  lemma {:induction false} UsedKeyChangesNothing(reqs: Requests, request: string, op: Op, first: Db, second: Db,
                                                 now: Db)
    requires KeyUsed(op, now)
    ensures Execute(reqs, request, op, first, second, now) == now
  {
  }

  lemma {:induction false} UsedKeyCommit(reqs: Requests, states: seq<Db>, c: Commit)
    requires states != [] && KeyUsed(c.op, states[|states| - 1])
    ensures NextState(reqs, states, c) == states[|states| - 1]
  {
    hide Execute;
    if c.firstRead <= c.secondRead < |states| {
      UsedKeyChangesNothing(reqs, c.request, c.op, states[c.firstRead], states[c.secondRead], states[|states| - 1]);
    }
  }

  /** A key that has assigned an order changes nothing when it is used again, with whatever payload. */
  lemma {:induction false} AssignmentKeysWorkOnce(reqs: Requests, schedule: seq<Commit>, i: nat, c: Commit)
    requires i <= |schedule| && c.op.Assign?
    requires (c.op.actor.profileId, c.op.key) in Run(reqs, schedule)[i].assignments
    ensures var n := |schedule|;
            Run(reqs, schedule + [c])[n + 1] == Run(reqs, schedule)[n]
  {
    hide Run, DbExtends, DbGood, NextState;
    RunIsGood(reqs, schedule);
    RunAppends(reqs, schedule, c);
    var states := Run(reqs, schedule);
    ExtendsKeepsKeys(states[i], states[|schedule|]);
    UsedKeyCommit(reqs, states, c);
  }

  /** The same for resolutions. */
  lemma {:induction false} ResolutionKeysWorkOnce(reqs: Requests, schedule: seq<Commit>, i: nat, c: Commit)
    requires i <= |schedule| && c.op.Resolve?
    requires (c.op.actor.profileId, c.op.key) in Run(reqs, schedule)[i].commands
    ensures var n := |schedule|;
            Run(reqs, schedule + [c])[n + 1] == Run(reqs, schedule)[n]
  {
    hide Run, DbExtends, DbGood, NextState;
    RunIsGood(reqs, schedule);
    RunAppends(reqs, schedule, c);
    var states := Run(reqs, schedule);
    ExtendsKeepsKeys(states[i], states[|schedule|]);
    UsedKeyCommit(reqs, states, c);
  }

  /** A committed key always names its result, which is there: the order it assigned, with its technician first, or the
      resolution it wrote, with its charge. No two keys share a result. */
  lemma {:induction false} KeysHaveTheirResult(reqs: Requests, schedule: seq<Commit>, i: nat, k: Key)
    requires i <= |schedule|
    ensures var db := Run(reqs, schedule)[i];
            (k in db.assignments ==>
              var a := At(db, db.assignments[k].request);
              db.assignments[k].workOrder == Some(db.assignments[k].request) && a.order.Some?
              && a.history != [] && a.history[0].technician == Some(db.assignments[k].technician)
              && a.history[0].actor == Some(k.0))
            && (k in db.commands ==>
              var a := At(db, db.commands[k].request);
              db.commands[k].resolution == Some(db.commands[k].request)
              && a.resolution == Some(db.commands[k].payload.resolution) && a.charge.Some?)
            && (forall other :: other in db.assignments && k in db.assignments && other != k ==>
                  db.assignments[other].request != db.assignments[k].request)
            && (forall other :: other in db.commands && k in db.commands && other != k ==>
                  db.commands[other].request != db.commands[k].request)
  {
    hide Run;
    var db := Run(reqs, schedule)[i];
    RunIsGood(reqs, schedule);
    assert DbGood(reqs, db);
    if k in db.assignments { assert OrderMatches(At(db, db.assignments[k].request)); }
    if k in db.commands { assert BillingOk(reqs(db.commands[k].request), At(db, db.commands[k].request)); }
  }
}
