/** What every transaction keeps of one work order, whatever it read and whatever committed meanwhile. */
module WorkOrderInvariant {
  import opened Wrappers
  import opened OrderStateMachine
  import opened WorkOrder

  // ---------------------------------------------------------------- history

  function StateAfter(history: seq<HistoryRow>): OrderState {
    if history == [] then Requested else history[|history| - 1].to
  }

  /** Row `i` carries version i + 1, starts where the previous row ended, and is a row of the contract. */
  predicate RowOk(history: seq<HistoryRow>, i: nat)
    requires i < |history|
  {
    var row := history[i];
    row.version == i + 1
    && row.from == (if i == 0 then Requested else history[i - 1].to)
    && Permitted(row.from, row.action, row.to)
  }

  predicate HistoryOk(history: seq<HistoryRow>) {
    forall i :: 0 <= i < |history| ==> RowOk(history, i)
  }

  /** The technician named last in the history. */
  function LastTechnician(history: seq<HistoryRow>): Option<string> {
    if history == [] then None
    else if history[|history| - 1].technician.Some? then history[|history| - 1].technician
    else LastTechnician(history[..|history| - 1])
  }

  /** No update is lost: the order row says exactly what its history says. */
  predicate OrderMatches(a: Aggregate) {
    if a.history == [] then a.order.None?
    else a.order == Some(OrderRow(StateAfter(a.history), |a.history|, LastTechnician(a.history)))
  }

  /** Which method may write which row; only the provider writes without an actor. */
  predicate WriterOk(row: HistoryRow) {
    match row.writer
    case ByAssign => row.action == AssignTechnician && row.actor.Some? && row.technician.Some?
    case ByTransition => row.action != AssignTechnician && row.action != CreateFixedPayment && row.actor.Some?
                         && (NeedsReason(row.action) ==> row.reason.Some?)
                         && (row.action == ReassignTechnician ==> row.technician.Some?)
    case ByResolve => row.action == CreateFixedPayment && row.actor.Some? && row.technician.None?
    case ByProvider(p) => row.action == ConfirmProviderPayment && row.actor.None? && row.technician.None?
                          && p.status == StatusApproved
    case ByConformity => row.action == ConfirmClientConformity && row.actor.Some? && row.technician.None?
  }

  predicate WritersOk(history: seq<HistoryRow>) {
    forall i :: 0 <= i < |history| ==> WriterOk(history[i])
  }

  // ---------------------------------------------------------------- outbox

  /** The events a history row owes. A payment or a conformity confirmed through the generic
      transition endpoint owes none. */
  function EventsFor(row: HistoryRow): (events: seq<EventType>)
    ensures |events| <= 1
    ensures PaymentRejected !in events && (PaymentApproved in events <==> row.writer.ByProvider?)
  {
    match row.writer
    case ByAssign => [AssignmentChanged]
    case ByTransition =>
      (match row.action
       case ReassignTechnician => [AssignmentChanged]
       case MarkEnRoute => [WentEnRoute]
       case Cancel => [OrderCancelled]
       case _ => [])
    case ByResolve => []
    case ByProvider(_) => [PaymentApproved]
    case ByConformity => [OrderClosed]
  }

  function EventsOf(history: seq<HistoryRow>): seq<EventType> {
    if history == [] then [] else EventsOf(history[..|history| - 1]) + EventsFor(history[|history| - 1])
  }

  function WithoutRejections(events: seq<EventType>): seq<EventType> {
    if events == [] then []
    else
      var rest := WithoutRejections(events[..|events| - 1]);
      if events[|events| - 1] == PaymentRejected then rest else rest + [events[|events| - 1]]
  }

  function Count<T(==)>(s: seq<T>, x: T): nat {
    if s == [] then 0 else Count(s[..|s| - 1], x) + (if s[|s| - 1] == x then 1 else 0)
  }

  predicate OutboxOk(a: Aggregate) { WithoutRejections(a.outbox) == EventsOf(a.history) }

  lemma {:induction false} AppendedRow(history: seq<HistoryRow>, row: HistoryRow)
    ensures (history + [row])[..|history|] == history
    ensures EventsOf(history + [row]) == EventsOf(history) + EventsFor(row)
    ensures LastTechnician(history + [row]) == if row.technician.Some? then row.technician else LastTechnician(history)
  {
    assert (history + [row])[..|history|] == history;
  }

  lemma {:induction false} AppendedEvent(events: seq<EventType>, e: EventType)
    ensures WithoutRejections(events + [e])
            == if e == PaymentRejected then WithoutRejections(events) else WithoutRejections(events) + [e]
    ensures Count(events + [e], PaymentRejected)
         == Count(events, PaymentRejected) + (if e == PaymentRejected then 1 else 0)
  {
    assert (events + [e])[..|events|] == events;
  }

  // ---------------------------------------------------------------- billing

  predicate InState(a: Aggregate, states: set<OrderState>) { a.order.Some? && a.order.value.state in states }

  /** The order has reached the payment stage. */
  predicate Paying(a: Aggregate) { InState(a, {PaymentPending, ConformityPending, Closed}) }

  /** The order has gone past the payment stage. */
  predicate Settled(a: Aggregate) { InState(a, {ConformityPending, Closed}) }

  predicate BillingOk(req: Request, a: Aggregate) {
    (a.charge.Some? <==> Paying(a))
    && (a.resolution.Some? <==> Paying(a))
    && (a.charge.Some? ==> a.charge == Some(Charge(req.categoryName, req.rateVersion, "ARS", req.amount)))
    && (a.charge.Some? ==> req.currency == "ARS")
    && (a.conformity.Some? ==> InState(a, {Closed}))
    && (a.attempts != [] ==> a.charge.Some?)
  }

  /** Every payment that advanced an order matched its charge. */
  predicate PaymentsOk(a: Aggregate) {
    forall i :: 0 <= i < |a.history| && a.history[i].writer.ByProvider? ==>
      a.charge.Some? && Matches(a.charge.value, a.history[i].writer.payment)
  }

  // ---------------------------------------------------------------- attempts

  predicate AttemptOk(attempts: seq<Attempt>, k: nat)
    requires k < |attempts|
  {
    var t := attempts[k];
    t.sequence == k + 1 && t.log != [] && t.log[|t.log| - 1] == t.state
  }

  predicate AttemptsOk(attempts: seq<Attempt>) {
    (forall k :: 0 <= k < |attempts| ==> AttemptOk(attempts, k))
    && (forall j, k :: 0 <= j < k < |attempts| ==> attempts[j].reference != attempts[k].reference)
    && OneActive(attempts)
  }

  predicate OneActive(attempts: seq<Attempt>) {
    forall j, k :: 0 <= j < k < |attempts| ==> !(Active(attempts[j].state) && Active(attempts[k].state))
  }

  /** An attempt was ever approved only if the order has gone past the payment stage. */
  predicate ApprovalsOk(a: Aggregate) {
    forall k :: 0 <= k < |a.attempts| && Approved in a.attempts[k].log ==> Settled(a)
  }

  function RejectionsIn(attempts: seq<Attempt>): nat {
    if attempts == [] then 0
    else RejectionsIn(attempts[..|attempts| - 1]) + Count(attempts[|attempts| - 1].log, Rejected)
  }

  /** One `payment.rejected` event per write of the state REJECTED. */
  predicate RejectionsOk(a: Aggregate) { Count(a.outbox, PaymentRejected) == RejectionsIn(a.attempts) }

  lemma {:induction false} RejectionsAfterUpdate(attempts: seq<Attempt>, k: nat, t: Attempt)
    requires k < |attempts|
    ensures RejectionsIn(attempts[k := t]) + Count(attempts[k].log, Rejected)
         == RejectionsIn(attempts) + Count(t.log, Rejected)
  {
    var n := |attempts| - 1;
    if k == n {
      assert attempts[k := t][..n] == attempts[..n];
    } else {
      assert attempts[k := t][..n] == attempts[..n][k := t];
      RejectionsAfterUpdate(attempts[..n], k, t);
    }
  }

  lemma {:induction false} AppendedLog(log: seq<PaymentState>, s: PaymentState)
    ensures Count(log + [s], Rejected) == Count(log, Rejected) + (if s == Rejected then 1 else 0)
  {
    assert (log + [s])[..|log|] == log;
  }

  // ---------------------------------------------------------------- evidence

  /** The history holds a row written by the client's conformity, not by the generic transition endpoint. */
  predicate ConformityRow(history: seq<HistoryRow>) {
    exists i :: 0 <= i < |history| && history[i].writer == ByConformity
  }

  /** The attempt that a payment names was written APPROVED. */
  predicate Credited(attempts: seq<Attempt>, p: ProviderPayment) {
    exists k :: 0 <= k < |attempts| && attempts[k].reference == p.externalReference && Approved in attempts[k].log
  }

  predicate CreditsOk(history: seq<HistoryRow>, attempts: seq<Attempt>) {
    forall i :: 0 <= i < |history| && history[i].writer.ByProvider? ==> Credited(attempts, history[i].writer.payment)
  }

  /** A conformity and its history row come together, and a provider's row comes with its approved attempt. */
  predicate EvidenceOk(a: Aggregate) {
    (a.conformity.Some? <==> ConformityRow(a.history)) && CreditsOk(a.history, a.attempts)
  }

  lemma {:induction false} CreditsStay(history: seq<HistoryRow>, attempts: seq<Attempt>, more: seq<Attempt>)
    requires CreditsOk(history, attempts) && AttemptsExtend(attempts, more)
    ensures CreditsOk(history, more)
  {
    forall i | 0 <= i < |history| && history[i].writer.ByProvider? ensures Credited(more, history[i].writer.payment) {
      var p := history[i].writer.payment;
      assert Credited(attempts, p);
      var k :| 0 <= k < |attempts| && attempts[k].reference == p.externalReference && Approved in attempts[k].log;
      assert more[k].reference == p.externalReference && Approved in more[k].log;
    }
  }

  /** A new row keeps the evidence if it is the conformity's exactly when the conformity is recorded, and the
      provider's only with its approved attempt. */
  lemma {:induction false} RowKeepsEvidence(now: Aggregate, next: Aggregate, row: HistoryRow)
    requires EvidenceOk(now) && AttemptsExtend(now.attempts, next.attempts) && next.history == now.history + [row]
    requires next.conformity.Some? <==> now.conformity.Some? || row.writer == ByConformity
    requires row.writer.ByProvider? ==> Credited(next.attempts, row.writer.payment)
    ensures EvidenceOk(next)
  {
    CreditsStay(now.history, now.attempts, next.attempts);
    var n := |now.history|;
    assert next.history[n] == row;
    assert forall i :: 0 <= i < n ==> next.history[i] == now.history[i];
    forall i | 0 <= i <= n && next.history[i].writer.ByProvider?
      ensures Credited(next.attempts, next.history[i].writer.payment)
    {
      if i < n { assert now.history[i].writer.ByProvider?; }
    }
    if ConformityRow(now.history) {
      var i :| 0 <= i < n && now.history[i].writer == ByConformity;
      assert next.history[i].writer == ByConformity;
    }
  }

  // ---------------------------------------------------------------- the invariant and its growth order

  predicate Good(req: Request, a: Aggregate) {
    HistoryOk(a.history) && OrderMatches(a) && WritersOk(a.history) && OutboxOk(a)
    && BillingOk(req, a) && PaymentsOk(a) && AttemptsOk(a.attempts) && ApprovalsOk(a) && RejectionsOk(a)
    && EvidenceOk(a)
  }

  predicate Kept<T(==)>(before: Option<T>, after: Option<T>) { before.Some? ==> after == before }

  predicate AttemptsExtend(x: seq<Attempt>, y: seq<Attempt>) {
    |x| <= |y|
    && forall k :: 0 <= k < |x| ==>
         y[k].sequence == x[k].sequence && y[k].reference == x[k].reference && x[k].log <= y[k].log
  }

  /** Nothing recorded is ever taken back: histories, events, charges, resolutions and conformities only grow. */
  predicate Extends(a: Aggregate, b: Aggregate) {
    a.history <= b.history && a.outbox <= b.outbox
    && Kept(a.charge, b.charge) && Kept(a.resolution, b.resolution) && Kept(a.conformity, b.conformity)
    && (Settled(a) ==> Settled(b))
    && AttemptsExtend(a.attempts, b.attempts)
  }

  lemma {:induction false} EmptyIsGood(req: Request)
    ensures Good(req, EMPTY)
  {
  }

  lemma {:induction false} ExtendsIsTransitive(a: Aggregate, b: Aggregate, c: Aggregate)
    requires Extends(a, b) && Extends(b, c)
    ensures Extends(a, c)
  {
    assert a.history <= b.history <= c.history;
    assert a.outbox <= b.outbox <= c.outbox;
    forall k | 0 <= k < |a.attempts| ensures a.attempts[k].log <= c.attempts[k].log {
      assert a.attempts[k].log <= b.attempts[k].log <= c.attempts[k].log;
    }
  }

  // ---------------------------------------------------------------- advancing the order

  /** The one way an order moves: `row` continues the history and nothing else is added to it. */
  predicate Advances(now: Aggregate, next: Aggregate, row: HistoryRow) {
    row.version == |now.history| + 1
    && row.from == StateAfter(now.history)
    && Permitted(row.from, row.action, row.to)
    && WriterOk(row)
    && next.history == now.history + [row]
    && next.order == Some(OrderRow(row.to, row.version, LastTechnician(next.history)))
    && next.outbox == now.outbox + EventsFor(row)
  }

  /** The unique key (order, version) is the lock: once anything was added since the read, the next version is taken. */
  lemma {:induction false} StaleReadFindsVersionTaken(read: seq<HistoryRow>, now: seq<HistoryRow>)
    requires read <= now && read != now && HistoryOk(now)
    ensures VersionTaken(now, |read| + 1)
  {
    assert RowOk(now, |read|);
  }

  lemma {:induction false} FreshReadFindsVersionFree(history: seq<HistoryRow>)
    requires HistoryOk(history)
    ensures !VersionTaken(history, |history| + 1)
  {
    forall i | 0 <= i < |history| ensures history[i].version != |history| + 1 {
      assert RowOk(history, i);
    }
  }

  lemma {:induction false} AdvanceKeepsHistory(now: Aggregate, next: Aggregate, row: HistoryRow)
    requires HistoryOk(now.history) && OrderMatches(now) && WritersOk(now.history)
    requires Advances(now, next, row)
    ensures HistoryOk(next.history) && OrderMatches(next) && WritersOk(next.history)
  {
    forall i | 0 <= i < |next.history| ensures RowOk(next.history, i) {
      if i < |now.history| { assert RowOk(now.history, i); }
    }
  }

  lemma {:induction false} AdvanceKeepsOutbox(now: Aggregate, next: Aggregate, row: HistoryRow)
    requires OutboxOk(now)
    requires Advances(now, next, row)
    ensures OutboxOk(next)
    ensures Count(next.outbox, PaymentRejected) == Count(now.outbox, PaymentRejected)
  {
    AppendedRow(now.history, row);
    var events := EventsFor(row);
    if events == [] {
      assert next.outbox == now.outbox;
    } else {
      assert events == [events[0]];
      AppendedEvent(now.outbox, events[0]);
    }
  }
}
