/** The order and billing services as they run: methods that read, check and then write the tables one by one,
    undoing everything when a unique key refuses a write. Each is proved equal to its transaction. */
module OrderStore {
  import opened Wrappers
  import opened OrderStateMachine
  import opened WorkOrder
  import opened Ledger
  import opened BillingCalls
  import opened Reconciliation
  import opened OrderReplies

  /** The effect of a transaction's outcome on one order. */
  predicate Settles(before: Db, after: Db, request: string, outcome: Result<Aggregate>, failure: Option<Failure>) {
    match outcome
    case Ok(a) => failure.None? && after == Put(before, request, a)
    case Err(e) => failure == Some(e) && after == before
  }

  /** The effect of a transaction that also inserts an idempotency row. */
  predicate Commits(before: Db, after: Db, request: string, op: Op, outcome: Result<Aggregate>,
                    failure: Option<Failure>) {
    if outcome.Ok? && !KeyUsed(op, before) then
      failure.None? && after == RecordKey(Put(before, request, outcome.value), request, op)
    else after == before && failure == Some(if outcome.Ok? then UniqueViolation else outcome.error)
  }

  lemma {:induction false} RefusedToOthers(now: Aggregate, op: Op)
    requires op.Assign? && !op.actor.Operator()
    ensures AssignTx(now, op.actor, op.technician, op.requestReady, op.assignable).Err?
  {
  }

  lemma {:induction false} NoResolutionByOthers(req: Request, now: Aggregate, op: Op)
    requires op.Resolve? && !op.actor.Operator()
    ensures ResolveTx(req, now, now, op.actor, op.payload.resolution, op.payload.expectedVersion).Err?
  {
  }

  /** The shared write fails only by its unique key. */
  lemma {:induction false} WritesFailUniquely(now: Aggregate, row: HistoryRow, technician: Option<string>,
                                              events: seq<EventType>)
    ensures var r := WriteOrder(now, row, technician, events); r.Ok? || r.error == UniqueViolation
  {
  }

  /** A look-up answers exactly if the key is there. */
  lemma {:induction false} KnownIsUsed(db: Db, request: string, op: Op)
    ensures op.Assign? ==> (AssignLook(db, request, op).Some? <==> KeyUsed(op, db))
    ensures op.Resolve? ==> (ResolveLook(db, request, op).Some? <==> KeyUsed(op, db))
  {
  }

  class Store {
    var orders: map<string, Aggregate>
    var assignments: map<Key, Assignment>
    var commands: map<Key, Command>

    ghost function Contents(): Db reads this { Db(orders, assignments, commands) }

    constructor ()
      ensures Contents() == EMPTY_DB
    {
      orders, assignments, commands := map[], map[], map[];
    }

    method Find(request: string) returns (a: Aggregate)
      ensures a == At(Contents(), request)
    {
      if request in orders { a := orders[request]; } else { a := EMPTY; }
    }

    /** UPDATE work_order by id, INSERT work_order_transition, INSERT outbox_event. The unique key (order, version)
        refuses the second; the caller then rolls back. */
    method WriteRows(request: string, row: HistoryRow, technician: Option<string>, events: seq<EventType>)
      returns (ok: bool)
      requires request in orders
      modifies this`orders
      ensures match WriteOrder(old(orders)[request], row, technician, events)
              case Ok(a) => ok && orders == old(orders)[request := a]
              case Err(e) => !ok && e == UniqueViolation
    {
      orders := orders[request := orders[request].(order := Some(OrderRow(row.to, row.version, technician)))];
      if VersionTaken(orders[request].history, row.version) { return false; }
      orders := orders[request := orders[request].(history := orders[request].history + [row])];
      orders := orders[request := orders[request].(outbox := orders[request].outbox + events)];
      return true;
    }

    method LookUpAssignment(request: string, op: Op) returns (reply: Option<Reply>)
      requires op.Assign?
      ensures reply == AssignLook(Contents(), request, op)
    {
      var k := (op.actor.profileId, op.key);
      if k !in assignments { return None; }
      var existing := assignments[k];
      if existing.request != request || existing.technician != op.technician { return Some(Refused(PayloadMismatch)); }
      if existing.workOrder.None? { return Some(Refused(AssignmentInProgress)); }
      return Some(Accepted);
    }

    method LookAgainAtAssignment(request: string, op: Op) returns (reply: Reply)
      requires op.Assign?
      ensures reply == AssignLookAgain(Contents(), request, op)
    {
      var k := (op.actor.profileId, op.key);
      if k in assignments {
        var retry := assignments[k];
        if retry.workOrder.Some? && retry.request == request && retry.technician == op.technician { return Accepted; }
      }
      return Refused(OrderAlreadyExists);
    }

    /** The transaction: the reservation, the order with its history row and event, and the reservation's result. */
    method AssignOrder(request: string, op: Op) returns (failure: Option<Failure>)
      requires op.Assign?
      modifies this
      ensures Commits(old(Contents()), Contents(), request, op,
                      AssignTx(At(old(Contents()), request), op.actor, op.technician, op.requestReady, op.assignable),
                      failure)
    {
      hide WriteOrder, VersionTaken;
      if !op.actor.Operator() { return Some(NotFound); }
      if !op.requestReady { return Some(RequestNotReady); }
      if !op.assignable { return Some(TechnicianNotAssignable); }
      var k := (op.actor.profileId, op.key);
      var row := HistoryRow(ByAssign, Some(op.actor.profileId), Some(op.technician), AssignTechnician,
                            Requested, TechnicianAssigned, None, 1);
      WritesFailUniquely(At(Contents(), request), row, Some(op.technician), [AssignmentChanged]);
      if k in assignments { return Some(UniqueViolation); }
      var saved, savedKeys := orders, assignments;
      assignments := assignments[k := Assignment(request, op.technician, None)];
      var current := Find(request);
      if current.order.Some? {
        assignments := savedKeys;
        return Some(UniqueViolation);
      }
      orders := orders[request := current];
      var ok := WriteRows(request, row, Some(op.technician), [AssignmentChanged]);
      if !ok {
        orders, assignments := saved, savedKeys;
        return Some(UniqueViolation);
      }
      assignments := assignments[k := assignments[k].(workOrder := Some(request))];
      assert assignments == savedKeys[k := Assignment(request, op.technician, Some(request))];
      return None;
    }

    /** A whole assignment without interruption: look up, commit, and after a unique violation look again. */
    method Assign(request: string, op: Op) returns (reply: Reply)
      requires op.Assign?
      modifies this
      ensures var before := old(Contents());
              var r := AssignTx(At(before, request), op.actor, op.technician, op.requestReady, op.assignable);
              Contents()
              == if r.Ok? && !KeyUsed(op, before) then RecordKey(Put(before, request, r.value), request, op) else before
      ensures reply == AssignReply(old(Contents()), old(Contents()), Contents(), request, op)
    {
      hide AssignTx, AssignLook, AssignLookAgain;
      if !op.actor.Operator() {
        RefusedToOthers(At(Contents(), request), op);
        return Refused(NotFound);
      }
      var known := LookUpAssignment(request, op);
      KnownIsUsed(Contents(), request, op);
      if known.Some? { return known.value; }
      var failure := AssignOrder(request, op);
      if failure.None? { return Accepted; }
      if failure.value != UniqueViolation { return Refused(failure.value); }
      reply := LookAgainAtAssignment(request, op);
    }

    method Transition(request: string, read: Aggregate, actor: Actor, input: TransitionInput)
      returns (failure: Option<Failure>)
      modifies this`orders
      ensures Settles(old(Contents()), Contents(), request,
                      TransitionTx(read, At(old(Contents()), request), actor, input), failure)
    {
      hide Target, AllowedFrom, NeedsReason, WriteOrder, VersionTaken, TransitionEvents;
      if !actor.Operator() || read.order.None? { return Some(NotFound); }
      var order := read.order.value;
      if order.version != input.expectedVersion { return Some(VersionConflict); }
      var allowed := AllowedFrom(order.state, input.action);
      if allowed.None? || allowed.value.action == AssignTechnician || allowed.value.action == CreateFixedPayment {
        return Some(TransitionInvalid);
      }
      if allowed.value.requiresReason && input.reason.None? { return Some(ReasonRequired); }
      var technician := order.technician;
      if input.action == ReassignTechnician {
        if input.technician.None? { return Some(TechnicianRequired); }
        if !input.assignable { return Some(TechnicianNotAssignable); }
        technician := input.technician;
      } else if input.technician.Some? {
        return Some(TechnicianNotAllowed);
      }
      var saved := orders;
      var current := Find(request);
      orders := orders[request := current];
      var row := HistoryRow(ByTransition, Some(actor.profileId), technician, input.action,
                            order.state, allowed.value.to, input.reason, order.version + 1);
      var ok := WriteRows(request, row, technician, TransitionEvents(input.action));
      if !ok {
        orders := saved;
        return Some(VersionConflict);
      }
      return None;
    }

    /** The compare-and-set on the attempt and, when it approves, the order's advance, committed together. */
    method ApplyProviderPayment(request: string, attemptRead: Aggregate, orderRead: Aggregate, p: ProviderPayment)
      returns (failure: Option<Failure>)
      modifies this`orders
      ensures Settles(old(Contents()), Contents(), request,
                      ApplyTx(attemptRead, orderRead, At(old(Contents()), request), p), failure)
    {
      hide WriteOrder, VersionTaken, IndexOf, StateFor;
      var found := IndexOf(attemptRead.attempts, p.externalReference);
      if found.None? || attemptRead.charge.None? || !Matches(attemptRead.charge.value, p) {
        return Some(PaymentMismatch);
      }
      var k := found.value;
      var seen := attemptRead.attempts[k].state;
      var saved := orders;
      var current := Find(request);
      orders := orders[request := current];
      if Terminal(seen) { return None; }
      if k >= |current.attempts| || current.attempts[k].state != seen { return None; }
      var written := current.attempts[k].Write(StateFor(p.status));
      orders := orders[request := current.(attempts := current.attempts[k := written])];
      if p.status == StatusRejected {
        orders := orders[request := orders[request].(outbox := orders[request].outbox + [PaymentRejected])];
        return None;
      }
      if p.status != StatusApproved { return None; }
      if orderRead.order.None? || orderRead.order.value.state != PaymentPending || current.order.None? { return None; }
      var row := HistoryRow(ByProvider(p), None, None, ConfirmProviderPayment,
                            PaymentPending, ConformityPending, None, orderRead.order.value.version + 1);
      var ok := WriteRows(request, row, current.order.value.technician, [PaymentApproved]);
      if !ok {
        orders := saved;
        return Some(UniqueViolation);
      }
      return None;
    }

    method ReopenAttempt(request: string, read: Aggregate, k: nat, url: string) returns (failure: Option<Failure>)
      modifies this`orders
      ensures Settles(old(Contents()), Contents(), request, ReopenTx(read, At(old(Contents()), request), k, url),
                      failure)
    {
      var current := Find(request);
      if k >= |read.attempts| || read.attempts[k].state != Unknown || k >= |current.attempts| { return Some(NotFound); }
      if !NoOtherActive(current.attempts, k) { return Some(UniqueViolation); }
      var written := current.attempts[k].Write(Created).(checkoutUrl := Some(url));
      orders := orders[request := current.(attempts := current.attempts[k := written])];
      return None;
    }

    method InsertResolution(request: string, resolution: Resolution, charge: Charge)
      requires request in orders
      modifies this`orders
      ensures var resolved := old(orders)[request].(resolution := Some(resolution), charge := Some(charge));
              orders == old(orders)[request := resolved]
    {
      orders := orders[request := orders[request].(resolution := Some(resolution))];
      orders := orders[request := orders[request].(charge := Some(charge))];
    }

    method LookUpResolution(request: string, op: Op) returns (reply: Option<Reply>)
      requires op.Resolve?
      ensures reply == ResolveLook(Contents(), request, op)
    {
      var k := (op.actor.profileId, op.key);
      if k !in commands { return None; }
      var prior := commands[k];
      if prior.request != request || prior.payload != op.payload { return Some(Refused(PayloadMismatch)); }
      if prior.resolution.None? { return Some(Refused(ResolutionInProgress)); }
      return Some(Accepted);
    }

    method LookAgainAtResolution(request: string, op: Op) returns (reply: Reply)
      requires op.Resolve?
      ensures reply == ResolveLookAgain(Contents(), request, op)
    {
      var k := (op.actor.profileId, op.key);
      if k in commands {
        var retry := commands[k];
        if retry.resolution.Some? && retry.request == request && retry.payload == op.payload { return Accepted; }
      }
      return Refused(PayloadMismatch);
    }

    /** The resolution, its charge and the order's advance; the idempotency row and its result commit with them. */
    method ResolveOrder(req: Request, request: string, read: Aggregate, op: Op) returns (failure: Option<Failure>)
      requires op.Resolve?
      modifies this
      ensures Commits(old(Contents()), Contents(), request, op,
                      ResolveTx(req, read, At(old(Contents()), request), op.actor, op.payload.resolution,
                                op.payload.expectedVersion),
                      failure)
    {
      hide WriteOrder, VersionTaken;
      if !op.actor.Operator() || read.order.None? { return Some(NotFound); }
      var order := read.order.value;
      if order.state != WorkFinished || order.version != op.payload.expectedVersion { return Some(VersionConflict); }
      if read.charge.Some? || req.currency != "ARS" { return Some(ChargeInvalid); }
      var k := (op.actor.profileId, op.key);
      var row := HistoryRow(ByResolve, Some(op.actor.profileId), None, CreateFixedPayment,
                            WorkFinished, PaymentPending, None, order.version + 1);
      var current := Find(request);
      if current.order.Some? { WritesFailUniquely(current, row, current.order.value.technician, []); }
      if k in commands { return Some(UniqueViolation); }
      var saved, savedKeys := orders, commands;
      commands := commands[k := Command(request, op.payload, None)];
      if current.resolution.Some? || current.charge.Some? || current.order.None? {
        commands := savedKeys;
        return Some(UniqueViolation);
      }
      orders := orders[request := current];
      var ok := WriteRows(request, row, current.order.value.technician, []);
      if !ok {
        orders, commands := saved, savedKeys;
        return Some(UniqueViolation);
      }
      InsertResolution(request, op.payload.resolution, Charge(req.categoryName, req.rateVersion, "ARS", req.amount));
      commands := commands[k := commands[k].(resolution := Some(request))];
      assert commands == savedKeys[k := Command(request, op.payload, Some(request))];
      return None;
    }

    /** A whole resolution without interruption: look up, commit, and after a unique violation look again. */
    method Resolve(req: Request, request: string, op: Op) returns (reply: Reply)
      requires op.Resolve?
      modifies this
      ensures var before := old(Contents());
              var r := ResolveTx(req, At(before, request), At(before, request), op.actor, op.payload.resolution,
                                 op.payload.expectedVersion);
              Contents()
              == if r.Ok? && !KeyUsed(op, before) then RecordKey(Put(before, request, r.value), request, op) else before
      ensures reply == ResolveReply(req, old(Contents()), old(Contents()), old(Contents()), Contents(), request, op)
    {
      hide ResolveTx, ResolveLook, ResolveLookAgain;
      if !op.actor.Operator() {
        NoResolutionByOthers(req, At(Contents(), request), op);
        return Refused(NotFound);
      }
      var known := LookUpResolution(request, op);
      KnownIsUsed(Contents(), request, op);
      if known.Some? { return known.value; }
      var read := Find(request);
      var failure := ResolveOrder(req, request, read, op);
      if failure.None? { return Accepted; }
      if failure.value != UniqueViolation { return Refused(failure.value); }
      reply := LookAgainAtResolution(request, op);
    }

    method Conformity(req: Request, request: string, read: Aggregate, actor: Actor, textVersion: string,
                      expectedVersion: int)
      returns (failure: Option<Failure>)
      modifies this`orders
      ensures Settles(old(Contents()), Contents(), request,
                      ConformityTx(req, read, At(old(Contents()), request), actor, textVersion, expectedVersion),
                      failure)
    {
      hide WriteOrder, VersionTaken;
      if actor.role != Client || read.order.None? || req.client != actor.profileId { return Some(NotFound); }
      var saved := orders;
      var current := Find(request);
      if read.charge.Some? && read.conformity.Some? {
        orders := orders[request := current];
        return None;
      }
      var order := read.order.value;
      if order.state != ConformityPending || order.version != expectedVersion || read.charge.None? {
        return Some(ConformityNotAvailable);
      }
      if current.conformity.Some? || current.order.None? { return Some(UniqueViolation); }
      orders := orders[request := current];
      var row := HistoryRow(ByConformity, Some(actor.profileId), None, ConfirmClientConformity,
                            ConformityPending, Closed, None, order.version + 1);
      var ok := WriteRows(request, row, current.order.value.technician, [OrderClosed]);
      if !ok {
        orders := saved;
        return Some(UniqueViolation);
      }
      orders := orders[request := orders[request].(conformity := Some(textVersion))];
      return None;
    }

    /** A checkout's insert of a new attempt, when it found none it could reuse. */
    method OpenAttempt(req: Request, request: string, read: Aggregate, actor: Actor, reference: string, version: int)
      returns (failure: Option<Failure>)
      modifies this`orders
      ensures Settles(old(Contents()), Contents(), request,
                      OpenAttemptTx(req, read, At(old(Contents()), request), actor, reference, version), failure)
    {
      if actor.role != Client || read.order.None? || req.client != actor.profileId { return Some(NotFound); }
      if read.order.value.state != PaymentPending || read.order.value.version != version || read.charge.None? {
        return Some(PaymentNotAvailable);
      }
      var current := Find(request);
      var active := ActiveIndex(read.attempts);
      if active.Some? {
        var found := read.attempts[active.value];
        if found.checkoutUrl.None? && found.state == Unknown { return Some(PreferenceUncertain); }
        orders := orders[request := current];
        return None;
      }
      var sequence := |read.attempts| + 1;
      if SequenceTaken(current.attempts, sequence) || IndexOf(current.attempts, reference).Some?
         || !NoOtherActive(current.attempts, -1) {
        return Some(UniqueViolation);
      }
      var inserted := Attempt(sequence, reference, Created, None, [Created]);
      orders := orders[request := current.(attempts := current.attempts + [inserted])];
      return None;
    }

    /** A checkout's last write, made without looking at the attempt's present state. */
    method SettleCheckout(request: string, read: Aggregate, k: nat, outcome: CheckoutOutcome)
      returns (failure: Option<Failure>)
      modifies this`orders
      ensures Settles(old(Contents()), Contents(), request,
                      SettleCheckoutTx(read, At(old(Contents()), request), k, outcome), failure)
    {
      var current := Find(request);
      if !AwaitsPreference(read, k) || k >= |current.attempts| { return Some(NotFound); }
      var attempt := current.attempts[k];
      match outcome {
        case PreferenceCreated(url) => attempt := attempt.(checkoutUrl := Some(url));
        case PreferenceNotCreated => attempt := attempt.Write(CancelledPayment);
        case PreferenceUnknown =>
          if !NoOtherActive(current.attempts, k) { return Some(UniqueViolation); }
          attempt := attempt.Write(Unknown);
      }
      orders := orders[request := current.(attempts := current.attempts[k := attempt])];
      return None;
    }

    /** The steps of a checkout without interruption: find or open, ask the provider, record its answer. */
    method StartCheckout(req: Request, request: string, actor: Actor, reference: string, version: int,
                         outcome: CheckoutOutcome)
      returns (failure: Option<Failure>)
      modifies this`orders
      ensures assignments == old(assignments) && commands == old(commands)
      ensures forall r: string :: At(Contents(), r) ==
                if r == request then
                  BillingCalls.StartCheckout(req, At(old(Contents()), r), actor, reference, version, outcome)
                else At(old(Contents()), r)
      ensures failure == CheckoutFailure(req, At(old(Contents()), request), actor, reference, version, outcome)
    {
      hide OpenAttemptTx, SettleCheckoutTx;
      var a := Find(request);
      failure := OpenAttempt(req, request, a, actor, reference, version);
      if failure.Some? { return; }
      var b := Find(request);
      var active := ActiveIndex(b.attempts);
      if active.Some? && b.attempts[active.value].checkoutUrl.None? {
        failure := SettleCheckout(request, b, active.value, outcome);
        if failure.Some? { return; }
        if outcome.PreferenceNotCreated? { return Some(PreferenceRefused); }
        if outcome.PreferenceUnknown? { return Some(PreferenceUncertain); }
      }
    }

    /** Applies a provider's list in order and stops at the first refusal. */
    method ApplyPayments(request: string, payments: seq<ProviderPayment>) returns (applied: nat, refused: bool)
      modifies this`orders
      ensures var r := ApplyAll(At(old(Contents()), request), payments);
              Contents() == Put(old(Contents()), request, r.0) && applied == r.1 && refused == r.2
    {
      hide ApplyTx;
      ghost var before := orders;
      var a := Find(request);
      ghost var start := a;
      orders := orders[request := a];
      applied, refused := 0, false;
      while applied < |payments|
        invariant applied <= |payments| && !refused
        invariant orders == before[request := a] && assignments == old(assignments) && commands == old(commands)
        invariant var all, rest := ApplyAll(start, payments), ApplyAll(a, payments[applied..]);
                  all == (rest.0, applied + rest.1, rest.2)
      {
        var failure := ApplyProviderPayment(request, a, a, payments[applied]);
        assert payments[applied..][1..] == payments[applied + 1..];
        if failure.Some? {
          refused := true;
          return;
        }
        a := Find(request);
        applied := applied + 1;
      }
    }

    /** One pass per listed attempt; a failing pass is counted and does not stop the others. */
    method ReconcilePending(pending: seq<Listed>, answers: seq<Answer>) returns (reconciled: nat, failures: nat)
      requires |answers| == |pending|
      modifies this`orders
      ensures (Contents(), reconciled, failures) == ReconcileList(old(Contents()), pending, answers)
    {
      hide ReconcileAttempt;
      ghost var before := Contents();
      reconciled, failures := 0, 0;
      for i := 0 to |pending|
        invariant assignments == old(assignments) && commands == old(commands)
        invariant var all := ReconcileList(before, pending, answers);
                  var rest := ReconcileList(Contents(), pending[i..], answers[i..]);
                  all == (rest.0, reconciled + rest.1, failures + rest.2)
      {
        assert pending[i..][1..] == pending[i + 1..] && answers[i..][1..] == answers[i + 1..];
        var applied, failed := ReconcileOne(pending[i], answers[i]);
        reconciled := reconciled + applied;
        if failed { failures := failures + 1; }
      }
    }

    method ReconcileOne(p: Listed, answer: Answer) returns (applied: nat, failed: bool)
      modifies this`orders
      ensures var r := ReconcileAttempt(p.read, At(old(Contents()), p.request), p.k, answer);
              Contents() == Put(old(Contents()), p.request, r.0) && applied == r.1 && failed == r.2
    {
      hide ApplyAll, ReopenTx;
      var a := Find(p.request);
      orders := orders[p.request := a];
      if p.k < |p.read.attempts| && p.read.attempts[p.k].state == Unknown {
        if answer.LookupFailed? { return 0, true; }
        if answer.preference.Some? {
          var failure := ReopenAttempt(p.request, p.read, p.k, answer.preference.value);
          if failure.Some? { return 0, true; }
        }
      }
      if !answer.Answered? { return 0, true; }
      applied, failed := ApplyPayments(p.request, answer.payments);
    }
  }
}
