/** Every write of an attempt's state, by its guards, and which of them follow the published payment table. */
module PaymentTable {
  import opened Wrappers
  import opened OrderStateMachine
  import opened WorkOrder
  import opened WorkOrderInvariant
  import opened Ledger
  import opened LedgerTheorems
  import opened PaymentAttempts

  // ---------------------------------------------------------------- the writes

  /** A payment reaches attempt `k`: it was read with this reference and not ended, the payment matches the charge, the
      compare-and-set finds the state that was read, and the order's advance, if one is due, finds its version free. */
  predicate Applies(first: Aggregate, second: Aggregate, now: Aggregate, p: ProviderPayment, k: nat) {
    k < |now.attempts| && IndexOf(first.attempts, p.externalReference) == Some(k)
    && first.charge.Some? && Matches(first.charge.value, p)
    && !Terminal(first.attempts[k].state) && now.attempts[k].state == first.attempts[k].state
    && !(p.status == StatusApproved && InState(second, {PaymentPending}) && now.order.Some?
         && VersionTaken(now.history, second.order.value.version + 1))
  }

  /** The operation writes a state to attempt `k`. */
  predicate Writes(op: Op, first: Aggregate, second: Aggregate, now: Aggregate, k: nat) {
    Overwrites(op, first, now, k) || (op.ApplyPayment? && Applies(first, second, now, op.payment, k))
  }

  /** The state it writes. */
  function Written(op: Op): PaymentState {
    match op
    case ApplyPayment(p) => StateFor(p.status)
    case SettleCheckout(_, outcome) => if outcome.PreferenceNotCreated? then CancelledPayment else Unknown
    case _ => Created
  }

  /** What a transaction does to attempt `k`, exactly: under these guards it adds one state to its log, and otherwise
      none. */
  lemma {:induction false} WritesExactly(req: Request, op: Op, first: Aggregate, second: Aggregate, now: Aggregate,
                                         k: nat)
    requires k < |now.attempts|
    ensures var next := Outcome(Tx(req, op, first, second, now), now);
            k < |next.attempts|
            && if Writes(op, first, second, now, k) then
                 next.attempts[k].log == now.attempts[k].log + [Written(op)] && next.attempts[k].state == Written(op)
               else
                 next.attempts[k].log == now.attempts[k].log && next.attempts[k].state == now.attempts[k].state
  {
    match op
    case ApplyPayment(p) =>
      hide VersionTaken;
    case SettleCheckout(_, _) =>
    case Reopen(_, _) =>
    case _ =>
      if Tx(req, op, first, second, now).Ok? { OtherCallsKeepAttempts(req, op, first, second, now, k); }
      hide Tx;
  }

  /** An attempt that a transaction adds has the default state of the insert. */
  lemma {:induction false} InsertedIsCreated(req: Request, op: Op, first: Aggregate, second: Aggregate, now: Aggregate,
                                             k: nat)
    requires var next := Outcome(Tx(req, op, first, second, now), now); |now.attempts| <= k < |next.attempts|
    ensures Outcome(Tx(req, op, first, second, now), now).attempts[k].log == [Created]
  {
    hide AllowedFrom, VersionTaken, IndexOf, ActiveIndex, SequenceTaken, NoOtherActive;
  }

  // ---------------------------------------------------------------- the table

  /** The moves that are rows of the table: a payment on an attempt that is not UNKNOWN, other than pending on
      pending, and a preference that was not created, on an attempt that has not ended and is not UNKNOWN. */
  predicate PublishedMove(op: Op, from: PaymentState) {
    match op
    case ApplyPayment(p) => from != Unknown && !(from == Pending && p.status == StatusPending)
    case SettleCheckout(_, outcome) => outcome.PreferenceNotCreated? && (from == Created || from == Pending)
    case _ => false
  }

  /** The table, row by row. */
  lemma {:induction false} TableRows(from: PaymentState, to: PaymentState)
    ensures CanTransitionPayment(from, to)
       <==> (from == Created && to in {Pending, Approved, Rejected, CancelledPayment})
            || (from == Pending && to in {Approved, Rejected, CancelledPayment})
  {
    if CanTransitionPayment(from, to) {
      var i :| 0 <= i < |PAYMENT_TRANSITIONS| && PAYMENT_TRANSITIONS[i] == (from, to);
      assert i < 4 ==> from == Created;
    }
    if from == Pending && to in {Approved, Rejected, CancelledPayment} {
      assert PAYMENT_TRANSITIONS[if to == Approved then 4 else if to == Rejected then 5 else 6] == (from, to);
    }
    if from == Created && to in {Pending, Approved, Rejected, CancelledPayment} {
      var i := if to == Pending then 0 else if to == Approved then 1 else if to == Rejected then 2 else 3;
      assert PAYMENT_TRANSITIONS[i] == (from, to);
    }
  }

  /** Applying a payment moves an attempt along the published table except in the cases the table does not know:
      an attempt in the unpublished state UNKNOWN, and a pending attempt reported pending again. */
  lemma {:induction false} AppliedMoveIsPublished(from: PaymentState, status: PaymentStatus)
    requires Active(from)
    ensures CanTransitionPayment(from, StateFor(status))
       <==> from != Unknown && !(from == Pending && status == StatusPending)
  {
    hide CanTransitionPayment;
    TableRows(from, StateFor(status));
  }

  /** Every state write of every operation follows the table exactly if it is one of these moves. */
  lemma {:induction false} WriteIsPublished(op: Op, first: Aggregate, second: Aggregate, now: Aggregate, k: nat)
    requires Writes(op, first, second, now, k)
    ensures CanTransitionPayment(now.attempts[k].state, Written(op)) <==> PublishedMove(op, now.attempts[k].state)
  {
    hide CanTransitionPayment;
    if op.ApplyPayment? {
      AppliedMoveIsPublished(now.attempts[k].state, op.payment.status);
    } else {
      TableRows(now.attempts[k].state, Written(op));
    }
  }

  // ---------------------------------------------------------------- in every run

  /** Every move of an attempt was a row of the table. */
  predicate OnTable(log: seq<PaymentState>) {
    forall j :: 0 < j < |log| ==> CanTransitionPayment(log[j - 1], log[j])
  }

  predicate AllOnTable(attempts: seq<Attempt>) {
    forall k :: 0 <= k < |attempts| ==> OnTable(attempts[k].log)
  }

  /** The commit writes a state outside the table. */
  predicate WritesOffTable(op: Op, first: Aggregate, second: Aggregate, now: Aggregate) {
    exists k ::
      0 <= k < |now.attempts| && Writes(op, first, second, now, k) && !PublishedMove(op, now.attempts[k].state)
  }

  lemma {:induction false} OnTableSnoc(log: seq<PaymentState>, s: PaymentState)
    requires log != []
    ensures OnTable(log + [s]) <==> OnTable(log) && CanTransitionPayment(log[|log| - 1], s)
  {
    hide CanTransitionPayment;
    var all := log + [s];
    assert all[|log|] == s && all[|log| - 1] == log[|log| - 1];
    if OnTable(all) {
      assert CanTransitionPayment(all[|log| - 1], all[|log|]);
      forall j | 0 < j < |log| ensures CanTransitionPayment(log[j - 1], log[j]) {
        assert CanTransitionPayment(all[j - 1], all[j]);
      }
    }
    if OnTable(log) && CanTransitionPayment(log[|log| - 1], s) {
      forall j | 0 < j < |all| ensures CanTransitionPayment(all[j - 1], all[j]) {
        if j < |log| { assert CanTransitionPayment(log[j - 1], log[j]); }
      }
    }
  }

  /** One attempt through one transaction. */
  lemma {:induction false} AttemptStaysOnTable(req: Request, op: Op, first: Aggregate, second: Aggregate,
                                               now: Aggregate, k: nat)
    requires k < |now.attempts| && AttemptOk(now.attempts, k)
    ensures var next := Outcome(Tx(req, op, first, second, now), now);
            k < |next.attempts|
            && (OnTable(next.attempts[k].log) <==>
                  OnTable(now.attempts[k].log)
                  && !(Writes(op, first, second, now, k) && !PublishedMove(op, now.attempts[k].state)))
  {
    hide Tx, OnTable, Writes, PublishedMove, CanTransitionPayment;
    WritesExactly(req, op, first, second, now, k);
    if Writes(op, first, second, now, k) {
      WriteIsPublished(op, first, second, now, k);
      OnTableSnoc(now.attempts[k].log, Written(op));
    }
  }

  lemma {:induction false} CommitStaysOnTable(req: Request, op: Op, first: Aggregate, second: Aggregate, now: Aggregate)
    requires AttemptsOk(now.attempts)
    ensures AllOnTable(Outcome(Tx(req, op, first, second, now), now).attempts)
       <==> AllOnTable(now.attempts) && !WritesOffTable(op, first, second, now)
  {
    hide Tx, OnTable, Writes, PublishedMove, OneActive;
    var next := Outcome(Tx(req, op, first, second, now), now);
    forall k | 0 <= k < |now.attempts|
      ensures k < |next.attempts|
              && (OnTable(next.attempts[k].log) <==>
                    OnTable(now.attempts[k].log)
                    && !(Writes(op, first, second, now, k) && !PublishedMove(op, now.attempts[k].state)))
    {
      assert AttemptOk(now.attempts, k);
      AttemptStaysOnTable(req, op, first, second, now, k);
    }
    forall k | |now.attempts| <= k < |next.attempts| ensures OnTable(next.attempts[k].log) {
      InsertedIsCreated(req, op, first, second, now, k);
      OneStateIsOnTable(next.attempts[k].log);
    }
  }

  lemma {:induction false} OneStateIsOnTable(log: seq<PaymentState>)
    requires |log| == 1
    ensures OnTable(log)
  {
  }

  /** The i-th commit of the schedule writes a state outside the table to an attempt of the order. */
  predicate LeavesTable(reqs: Requests, schedule: seq<Commit>, request: string, i: nat)
    requires i < |schedule|
  {
    var c := schedule[i];
    c.request == request && c.firstRead <= c.secondRead <= i
    && WritesOffTable(c.op, OrderIn(reqs, schedule, c.firstRead, request),
                      OrderIn(reqs, schedule, c.secondRead, request),
                      OrderIn(reqs, schedule, i, request))
  }

  lemma {:induction false} OnlyPaymentsWrite(op: Op, first: Aggregate, second: Aggregate, now: Aggregate)
    ensures WritesOffTable(op, first, second, now) ==> !op.Assign? && !op.Resolve?
  {
  }

  lemma {:induction false} OnlyPaymentsLog(req: Request, op: Op, first: Aggregate, second: Aggregate, now: Aggregate)
    requires op.Assign? || op.Resolve?
    ensures Outcome(Tx(req, op, first, second, now), now).attempts == now.attempts
  {
    hide VersionTaken;
  }

  lemma {:induction false} ScheduleStepOnTable(reqs: Requests, schedule: seq<Commit>, i: nat, request: string)
    requires i < |schedule|
    ensures AllOnTable(OrderIn(reqs, schedule, i + 1, request).attempts)
       <==> AllOnTable(OrderIn(reqs, schedule, i, request).attempts) && !LeavesTable(reqs, schedule, request, i)
  {
    hide OrderIn, Good, Tx, AllOnTable, Writes, PublishedMove;
    var c := schedule[i];
    var now, next := OrderIn(reqs, schedule, i, request), OrderIn(reqs, schedule, i + 1, request);
    OrderStep(reqs, schedule, i, request);
    if c.request == request && c.firstRead <= c.secondRead <= i {
      var first := OrderIn(reqs, schedule, c.firstRead, request);
      var second := OrderIn(reqs, schedule, c.secondRead, request);
      OnlyPaymentsWrite(c.op, first, second, now);
      if c.op.Assign? || c.op.Resolve? {
        OnlyPaymentsLog(reqs(request), c.op, first, second, now);
      } else {
        OrderIsGood(reqs, schedule, i, request);
        GoodAttempts(reqs(request), now);
        CommitStaysOnTable(reqs(request), c.op, first, second, now);
      }
    }
  }

  lemma {:induction false} GoodAttempts(req: Request, a: Aggregate)
    requires Good(req, a)
    ensures AttemptsOk(a.attempts)
  {
  }

  /** In every run, exactly: all moves of an order's attempts were rows of the published table if and only if no
      commit so far wrote a state outside it: a payment on an UNKNOWN attempt or pending on pending, an uncertain or
      reopened preference, or a preference that was not created for an UNKNOWN or ended attempt. */
  lemma {:induction false} AttemptsFollowTable(reqs: Requests, schedule: seq<Commit>, n: nat, request: string)
    requires n <= |schedule|
    ensures AllOnTable(OrderIn(reqs, schedule, n, request).attempts)
       <==> forall i :: 0 <= i < n ==> !LeavesTable(reqs, schedule, request, i)
  {
    hide OrderIn, LeavesTable, AllOnTable;
    if n == 0 {
      NoAttemptsOffTable(reqs, schedule, request);
    } else {
      AttemptsFollowTable(reqs, schedule, n - 1, request);
      ScheduleStepOnTable(reqs, schedule, n - 1, request);
    }
  }

  lemma {:induction false} NoAttemptsOffTable(reqs: Requests, schedule: seq<Commit>, request: string)
    ensures AllOnTable(OrderIn(reqs, schedule, 0, request).attempts)
  {
    hide Run;
    RunStarts(reqs, schedule);
  }
}
