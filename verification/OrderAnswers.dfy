/** What each call of the order and billing services answers and writes, for every earlier read and every state it can
    find when it commits: in terms of the histories and of the request, with every condition written out. */
module OrderAnswers {
  import opened Wrappers
  import opened OrderStateMachine
  import opened WorkOrder
  import opened WorkOrderInvariant

  /** The order after one more row, which recorded `events`. */
  function Appended(a: Aggregate, row: HistoryRow, technician: Option<string>, events: seq<EventType>): Aggregate {
    a.(order := Some(OrderRow(row.to, row.version, technician)), history := a.history + [row],
       outbox := a.outbox + events)
  }

  /** The order row of a good order says what its history says. */
  lemma {:induction false} OrderOfHistory(req: Request, a: Aggregate)
    requires Good(req, a)
    ensures if a.history == [] then a.order.None?
            else a.order == Some(OrderRow(StateAfter(a.history), |a.history|, LastTechnician(a.history)))
    ensures !VersionTaken(a.history, |a.history| + 1)
    ensures a.charge.Some? ==>
              req.currency == "ARS" && a.charge == Some(Charge(req.categoryName, req.rateVersion, "ARS", req.amount))
    ensures a.charge.Some? <==> a.history != [] && StateAfter(a.history) in {PaymentPending, ConformityPending, Closed}
    ensures a.conformity.Some? ==> a.history != [] && StateAfter(a.history) == Closed
    ensures a.resolution.Some? <==> a.charge.Some?
    ensures a.attempts != [] ==> a.charge.Some?
  {
    hide LastTechnician;
    FreshReadFindsVersionFree(a.history);
  }

  // ---------------------------------------------------------------- orders service

  lemma {:induction false} AssignAnswers(req: Request, now: Aggregate, actor: Actor, technician: string, ready: bool,
                                         assignable: bool)
    requires Good(req, now)
    ensures var r := AssignTx(now, actor, technician, ready, assignable);
            if actor.role == Client then r == Err(NotFound)
            else if !ready then r == Err(RequestNotReady)
            else if !assignable then r == Err(TechnicianNotAssignable)
            else if now.history != [] then r == Err(UniqueViolation)
            else
              var row := HistoryRow(ByAssign, Some(actor.profileId), Some(technician), AssignTechnician,
                                    Requested, TechnicianAssigned, None, 1);
              r == Ok(Appended(now, row, Some(technician), [AssignmentChanged]))
  {
    hide LastTechnician, VersionTaken, Good;
    OrderOfHistory(req, now);
  }

  /** The transition endpoint. A stale read, and nothing else, makes a request that obeys the rules fail, and with the
      answer of a wrong version. */
  lemma {:induction false} TransitionAnswers(req: Request, read: Aggregate, now: Aggregate, actor: Actor,
                                             input: TransitionInput)
    requires Good(req, read) && Good(req, now) && Extends(read, now)
    ensures var r := TransitionTx(read, now, actor, input);
            var state, action := StateAfter(read.history), input.action;
            var reassigned := action == ReassignTechnician;
            if actor.role == Client || read.history == [] then r == Err(NotFound)
            else if input.expectedVersion != |read.history| then r == Err(VersionConflict)
            else if action in {AssignTechnician, CreateFixedPayment} || Target(state, action).None? then
              r == Err(TransitionInvalid)
            else if action in {Cancel, ReassignTechnician} && input.reason.None? then r == Err(ReasonRequired)
            else if reassigned && input.technician.None? then r == Err(TechnicianRequired)
            else if reassigned && !input.assignable then r == Err(TechnicianNotAssignable)
            else if !reassigned && input.technician.Some? then r == Err(TechnicianNotAllowed)
            else if now.history != read.history then r == Err(VersionConflict)
            else
              var technician := if reassigned then input.technician else LastTechnician(read.history);
              var row := HistoryRow(ByTransition, Some(actor.profileId), technician, action, state,
                                    Target(state, action).value, input.reason, |read.history| + 1);
              var events := if reassigned then [AssignmentChanged]
                            else if action == MarkEnRoute then [WentEnRoute]
                            else if action == Cancel then [OrderCancelled]
                            else [];
              r == Ok(Appended(now, row, technician, events))
  {
    hide LastTechnician, VersionTaken, Target, Good, AllowedFrom, StateAfter;
    OrderOfHistory(req, read);
    OrderOfHistory(req, now);
    if read.history != now.history { StaleHistory(req, read, now); }
  }

  lemma {:induction false} StaleHistory(req: Request, read: Aggregate, now: Aggregate)
    requires Good(req, now) && Extends(read, now) && read.history != now.history
    ensures VersionTaken(now.history, |read.history| + 1)
  {
    StaleReadFindsVersionTaken(read.history, now.history);
  }

  // ---------------------------------------------------------------- billing service

  lemma {:induction false} ResolveAnswers(req: Request, read: Aggregate, now: Aggregate, actor: Actor,
                                          resolution: Resolution, expectedVersion: int)
    requires Good(req, read) && Good(req, now) && Extends(read, now)
    ensures var r := ResolveTx(req, read, now, actor, resolution, expectedVersion);
            if actor.role == Client || read.history == [] then r == Err(NotFound)
            else if StateAfter(read.history) != WorkFinished || expectedVersion != |read.history| then
              r == Err(VersionConflict)
            else if req.currency != "ARS" then r == Err(ChargeInvalid)
            else if now.history != read.history then r == Err(UniqueViolation)
            else
              var row := HistoryRow(ByResolve, Some(actor.profileId), None, CreateFixedPayment,
                                    WorkFinished, PaymentPending, None, |read.history| + 1);
              r == Ok(Appended(now, row, LastTechnician(read.history), []).(
                        resolution := Some(resolution),
                        charge := Some(Charge(req.categoryName, req.rateVersion, "ARS", req.amount))))
  {
    hide LastTechnician, VersionTaken, Good;
    OrderOfHistory(req, read);
    OrderOfHistory(req, now);
    if read.history != now.history { StaleHistory(req, read, now); }
  }

  lemma {:induction false} ConformityAnswers(req: Request, read: Aggregate, now: Aggregate, actor: Actor, text: string,
                                             expectedVersion: int)
    requires Good(req, read) && Good(req, now) && Extends(read, now)
    ensures var r := ConformityTx(req, read, now, actor, text, expectedVersion);
            if actor.role != Client || actor.profileId != req.client || read.history == [] then r == Err(NotFound)
            else if read.conformity.Some? then r == Ok(now)
            else if StateAfter(read.history) != ConformityPending || expectedVersion != |read.history| then
              r == Err(ConformityNotAvailable)
            else if now.history != read.history then r == Err(UniqueViolation)
            else
              var row := HistoryRow(ByConformity, Some(req.client), None, ConfirmClientConformity,
                                    ConformityPending, Closed, None, |read.history| + 1);
              r == Ok(Appended(now, row, LastTechnician(read.history), [OrderClosed]).(conformity := Some(text)))
  {
    hide LastTechnician, VersionTaken, Good;
    OrderOfHistory(req, read);
    OrderOfHistory(req, now);
    if read.history != now.history { StaleHistory(req, read, now); }
  }

  /** Some attempt may still be paid. */
  predicate SomeActive(attempts: seq<Attempt>) {
    exists k :: 0 <= k < |attempts| && attempts[k].state in {Created, Unknown, Pending}
  }

  /** The active attempt of a checkout is one whose preference request is known to have failed or not been answered. */
  predicate SomeUncertain(attempts: seq<Attempt>) {
    exists k :: 0 <= k < |attempts| && attempts[k].state == Unknown && attempts[k].checkoutUrl.None?
  }

  /** A checkout's search for an attempt. It inserts one only if it had read none that may still be paid, and then
      fails exactly if another was inserted or revived meanwhile, or its reference is taken. */
  lemma {:induction false} CheckoutOpens(req: Request, read: Aggregate, now: Aggregate, actor: Actor,
                                         reference: string, expectedVersion: int)
    requires Good(req, read) && Good(req, now) && Extends(read, now)
    ensures var r := OpenAttemptTx(req, read, now, actor, reference, expectedVersion);
            if actor.role != Client || actor.profileId != req.client || read.history == [] then r == Err(NotFound)
            else if StateAfter(read.history) != PaymentPending || expectedVersion != |read.history| then
              r == Err(PaymentNotAvailable)
            else if SomeUncertain(read.attempts) then r == Err(PreferenceUncertain)
            else if SomeActive(read.attempts) then r == Ok(now)
            else if |now.attempts| > |read.attempts| || SomeActive(now.attempts)
                    || exists k :: 0 <= k < |now.attempts| && now.attempts[k].reference == reference then
              r == Err(UniqueViolation)
            else
              var inserted := Attempt(|now.attempts| + 1, reference, Created, None, [Created]);
              r == Ok(now.(attempts := now.attempts + [inserted]))
  {
    hide LastTechnician, VersionTaken, Good, StateAfter, SequenceTaken, NoOtherActive, IndexOf;
    OrderOfHistory(req, read);
    OrderOfHistory(req, now);
    GoodSequences(req, read);
    InsertIsRefused(req, now, |read.attempts|, reference);
  }

  lemma {:induction false} InsertIsRefused(req: Request, now: Aggregate, n: nat, reference: string)
    requires Good(req, now) && n <= |now.attempts|
    ensures SequenceTaken(now.attempts, n + 1) <==> n < |now.attempts|
    ensures IndexOf(now.attempts, reference).Some?
       <==> exists k :: 0 <= k < |now.attempts| && now.attempts[k].reference == reference
    ensures NoOtherActive(now.attempts, -1) <==> !SomeActive(now.attempts)
  {
    hide Good, IndexOf;
    GoodSequences(req, now);
    if n < |now.attempts| { assert now.attempts[n].sequence == n + 1; }
  }

  lemma {:induction false} GoodSequences(req: Request, a: Aggregate)
    requires Good(req, a)
    ensures forall k :: 0 <= k < |a.attempts| ==> a.attempts[k].sequence == k + 1
    ensures OneActive(a.attempts)
  {
    forall k | 0 <= k < |a.attempts| ensures a.attempts[k].sequence == k + 1 { assert AttemptOk(a.attempts, k); }
  }

  /** The two writes around a preference, which look at nothing but what was read, and the unique index on active
      attempts. */
  lemma {:induction false} PreferenceWrites(read: Aggregate, now: Aggregate, k: nat, outcome: CheckoutOutcome,
                                            url: string)
    ensures var awaiting := k < |read.attempts| && read.attempts[k].state in {Created, Pending}
                            && read.attempts[k].checkoutUrl.None?;
            var others := exists j ::
              0 <= j < |now.attempts| && j != k && now.attempts[j].state in {Created, Unknown, Pending};
            SettleCheckoutTx(read, now, k, outcome)
            == if !awaiting || k >= |now.attempts| then Err(NotFound)
               else if outcome.PreferenceUnknown? && others then Err(UniqueViolation)
               else
                 var t := now.attempts[k];
                 Ok(now.(attempts := now.attempts[k :=
                           match outcome
                           case PreferenceCreated(page) => t.(checkoutUrl := Some(page))
                           case PreferenceNotCreated =>
                             t.(state := CancelledPayment, log := t.log + [CancelledPayment])
                           case PreferenceUnknown => t.(state := Unknown, log := t.log + [Unknown])]))
    ensures var uncertain := k < |read.attempts| && read.attempts[k].state == Unknown;
            var others := exists j ::
              0 <= j < |now.attempts| && j != k && now.attempts[j].state in {Created, Unknown, Pending};
            ReopenTx(read, now, k, url)
            == if !uncertain || k >= |now.attempts| then Err(NotFound)
               else if others then Err(UniqueViolation)
               else
                 var t := now.attempts[k];
                 Ok(now.(attempts := now.attempts[k := t.(state := Created, log := t.log + [Created],
                                                          checkoutUrl := Some(url))]))
  {
  }

  // ---------------------------------------------------------------- provider payments

  /** A payment is refused exactly if no attempt that was read carries its reference, or its currency or its amount
      differs from the request's. */
  lemma {:induction false} MismatchExactly(req: Request, attemptRead: Aggregate, orderRead: Aggregate, now: Aggregate,
                                           p: ProviderPayment)
    requires Good(req, attemptRead)
    ensures ApplyTx(attemptRead, orderRead, now, p) == Err(PaymentMismatch)
       <==> (forall k :: 0 <= k < |attemptRead.attempts| ==> attemptRead.attempts[k].reference != p.externalReference)
            || p.currency != "ARS" || p.amount != req.amount
  {
    hide LastTechnician, VersionTaken, Good, StateAfter;
    OrderOfHistory(req, attemptRead);
  }

  /** A payment for the k-th attempt, for the request's amount. It leaves an ended attempt, and one whose state has
      changed since it was read, alone, and otherwise writes the reported state; a rejection is an event; an approval
      advances the order, if it was read awaiting its payment, unless the order has moved since, which undoes it all. */
  lemma {:induction false} PaymentAnswers(req: Request, attemptRead: Aggregate, orderRead: Aggregate, now: Aggregate,
                                          p: ProviderPayment, k: nat)
    requires Good(req, attemptRead) && Good(req, orderRead) && Good(req, now)
    requires Extends(attemptRead, orderRead) && Extends(orderRead, now) && Extends(attemptRead, now)
    requires k < |attemptRead.attempts| && attemptRead.attempts[k].reference == p.externalReference
    requires p.currency == "ARS" && p.amount == req.amount
    ensures var r := ApplyTx(attemptRead, orderRead, now, p);
            var seen, t := attemptRead.attempts[k].state, now.attempts[k];
            if seen in {Approved, Rejected, CancelledPayment} || t.state != seen then r == Ok(now)
            else
              var state := match p.status
                           case StatusApproved => Approved
                           case StatusPending => Pending
                           case StatusRejected => Rejected
                           case StatusCancelled => CancelledPayment;
              var written := now.(attempts := now.attempts[k := t.(state := state, log := t.log + [state])]);
              match p.status
              case StatusRejected => r == Ok(written.(outbox := now.outbox + [PaymentRejected]))
              case StatusApproved =>
                if StateAfter(orderRead.history) != PaymentPending then r == Ok(written)
                else if now.history != orderRead.history then r == Err(UniqueViolation)
                else
                  var row := HistoryRow(ByProvider(p), None, None, ConfirmProviderPayment,
                                        PaymentPending, ConformityPending, None, |orderRead.history| + 1);
                  r == Ok(Appended(written, row, LastTechnician(now.history), [PaymentApproved]))
              case _ => r == Ok(written)
  {
    hide LastTechnician, VersionTaken, Good, StateAfter, IndexOf;
    OrderOfHistory(req, attemptRead);
    OrderOfHistory(req, orderRead);
    OrderOfHistory(req, now);
    NamesTheAttempt(req, attemptRead, k);
    if orderRead.history != now.history { StaleHistory(req, orderRead, now); }
  }

  lemma {:induction false} NamesTheAttempt(req: Request, a: Aggregate, k: nat)
    requires Good(req, a) && k < |a.attempts|
    ensures IndexOf(a.attempts, a.attempts[k].reference) == Some(k)
  {
  }
}
