/** Each transaction keeps the invariant and only adds, for every earlier read and every current state. */
module WorkOrderSteps {
  import opened Wrappers
  import opened OrderStateMachine
  import opened WorkOrder
  import opened WorkOrderInvariant

  // ---------------------------------------------------------------- advancing

  /** A write by id goes through exactly when its read is still current, and then it advances the order. */
  lemma {:induction false} WriteOrderAdvances(read: Aggregate, now: Aggregate, row: HistoryRow,
                                              technician: Option<string>, events: seq<EventType>)
    requires HistoryOk(now.history) && read.history <= now.history
    requires row.version == |read.history| + 1 && row.from == StateAfter(read.history)
    requires Permitted(row.from, row.action, row.to) && WriterOk(row) && events == EventsFor(row)
    requires technician == if row.technician.Some? then row.technician else LastTechnician(now.history)
    ensures var r := WriteOrder(now, row, technician, events);
            (r.Ok? <==> read.history == now.history) && (r.Ok? ==> Advances(now, r.value, row))
  {
    if read.history == now.history {
      FreshReadFindsVersionFree(now.history);
      AppendedRow(now.history, row);
    } else {
      StaleReadFindsVersionTaken(read.history, now.history);
    }
  }

  /** What an advance other than the creation of the payment keeps of the billing rows. */
  lemma {:induction false} AdvanceKeepsBilling(req: Request, now: Aggregate, next: Aggregate, row: HistoryRow)
    requires OrderMatches(now) && BillingOk(req, now) && PaymentsOk(now)
    requires Advances(now, next, row) && row.action != CreateFixedPayment
    requires next.charge == now.charge && next.resolution == now.resolution
    requires row.writer.ByProvider? ==> now.charge.Some? && Matches(now.charge.value, row.writer.payment)
    requires next.conformity.Some? ==> row.to == Closed
    requires next.attempts != [] ==> now.charge.Some?
    ensures BillingOk(req, next) && PaymentsOk(next)
    ensures Settled(now) ==> Settled(next)
    ensures row.action == ConfirmProviderPayment ==> Settled(next)
  {
    forall i | 0 <= i < |next.history| && next.history[i].writer.ByProvider?
      ensures next.charge.Some? && Matches(next.charge.value, next.history[i].writer.payment)
    {
      if i < |now.history| { assert next.history[i] == now.history[i]; }
    }
  }

  lemma {:induction false} AttemptsExtendSelf(attempts: seq<Attempt>)
    ensures AttemptsExtend(attempts, attempts)
  {
  }

  /** An advance that leaves the attempts alone keeps the whole invariant. */
  lemma {:induction false} AdvanceIsGood(req: Request, now: Aggregate, next: Aggregate, row: HistoryRow)
    requires Good(req, now) && Advances(now, next, row) && row.action != CreateFixedPayment
    requires next.charge == now.charge && next.resolution == now.resolution && next.attempts == now.attempts
    requires !row.writer.ByProvider?
    requires if row.writer == ByConformity then next.conformity.Some? else next.conformity == now.conformity
    ensures Good(req, next) && Extends(now, next)
  {
    hide EvidenceOk, AttemptsOk, RejectionsIn, Count, EventsOf, WithoutRejections, LastTechnician;
    AdvanceKeepsHistory(now, next, row);
    AdvanceKeepsOutbox(now, next, row);
    if now.conformity.Some? { assert false; }
    AdvanceKeepsBilling(req, now, next, row);
    AttemptsExtendSelf(now.attempts);
    RowKeepsEvidence(now, next, row);
  }

  // ---------------------------------------------------------------- orders service

  lemma {:induction false} AssignIsGood(req: Request, now: Aggregate, actor: Actor, technician: string, ready: bool,
                                        assignable: bool)
    requires Good(req, now)
    ensures var r := AssignTx(now, actor, technician, ready, assignable);
            r.Ok? ==> Good(req, r.value) && Extends(now, r.value)
    ensures AssignTx(now, actor, technician, ready, assignable).Ok?
       <==> actor.Operator() && ready && assignable && now.history == []
  {
    if actor.Operator() && ready && assignable && now.order.None? {
      var row := HistoryRow(ByAssign, Some(actor.profileId), Some(technician), AssignTechnician,
                            Requested, TechnicianAssigned, None, 1);
      WriteOrderAdvances(now, now, row, Some(technician), [AssignmentChanged]);
      var next := AssignTx(now, actor, technician, ready, assignable).value;
      AdvanceIsGood(req, now, next, row);
    }
  }

  /** The rules of the transition endpoint, as a condition on the order that was read. */
  predicate TransitionRequestOk(read: Aggregate, actor: Actor, input: TransitionInput) {
    actor.Operator() && read.order.Some?
    && read.order.value.version == input.expectedVersion
    && Target(read.order.value.state, input.action).Some?
    && input.action != AssignTechnician && input.action != CreateFixedPayment
    && (NeedsReason(input.action) ==> input.reason.Some?)
    && (input.action == ReassignTechnician ==> input.technician.Some? && input.assignable)
    && (input.action != ReassignTechnician ==> input.technician.None?)
  }

  function TransitionRow(read: Aggregate, actor: Actor, input: TransitionInput): HistoryRow
    requires TransitionRequestOk(read, actor, input)
  {
    var order := read.order.value;
    HistoryRow(ByTransition, Some(actor.profileId),
               if input.action == ReassignTechnician then input.technician else order.technician,
               input.action, order.state, Target(order.state, input.action).value, input.reason, order.version + 1)
  }

  /** The checks of the endpoint are exactly these rules; what passes them is one write by id. */
  lemma {:induction false} TransitionRules(read: Aggregate, now: Aggregate, actor: Actor, input: TransitionInput)
    ensures var r := TransitionTx(read, now, actor, input);
            if TransitionRequestOk(read, actor, input) then
              var row := TransitionRow(read, actor, input);
              var w := WriteOrder(now, row, row.technician, TransitionEvents(input.action));
              if w.Ok? then r == w else r == Err(VersionConflict)
            else r.Err?
  {
    hide WriteOrder, TransitionEvents, AllowedFrom, Target;
  }

  lemma {:induction false} TransitionRowFits(read: Aggregate, actor: Actor, input: TransitionInput)
    requires OrderMatches(read) && TransitionRequestOk(read, actor, input)
    ensures var row := TransitionRow(read, actor, input);
            row.version == |read.history| + 1 && row.from == StateAfter(read.history)
            && Permitted(row.from, row.action, row.to) && WriterOk(row)
            && TransitionEvents(input.action) == EventsFor(row)
            && row.technician == (if row.technician.Some? then row.technician else LastTechnician(read.history))
  {
    hide LastTechnician;
  }

  /** A transition commits exactly when the request obeys the rules and nothing was committed since the read;
      it then appends its own row. */
  lemma {:induction false} TransitionOutcome(read: Aggregate, now: Aggregate, actor: Actor, input: TransitionInput)
    requires HistoryOk(now.history) && OrderMatches(read) && read.history <= now.history
    ensures var r := TransitionTx(read, now, actor, input);
            (r.Ok? <==> TransitionRequestOk(read, actor, input) && read.history == now.history)
            && (r.Ok? ==> Advances(now, r.value, TransitionRow(read, actor, input))
                          && r.value == now.(order := r.value.order, history := r.value.history,
                                             outbox := r.value.outbox))
  {
    hide TransitionTx, HistoryOk, OrderMatches, LastTechnician, EventsFor, WriterOk, TransitionRequestOk;
    hide TransitionRow, TransitionEvents;
    TransitionRules(read, now, actor, input);
    if TransitionRequestOk(read, actor, input) {
      var row := TransitionRow(read, actor, input);
      TransitionRowFits(read, actor, input);
      if read.history == now.history {
        WriteOrderAdvances(read, now, row, row.technician, TransitionEvents(input.action));
      } else {
        StaleReadFindsVersionTaken(read.history, now.history);
      }
    }
  }

  lemma {:induction false} TransitionIsGood(req: Request, read: Aggregate, now: Aggregate, actor: Actor,
                                            input: TransitionInput)
    requires Good(req, read) && Good(req, now) && Extends(read, now)
    ensures var r := TransitionTx(read, now, actor, input); r.Ok? ==> Good(req, r.value) && Extends(now, r.value)
  {
    hide TransitionTx;
    TransitionOutcome(read, now, actor, input);
    var r := TransitionTx(read, now, actor, input);
    if r.Ok? { AdvanceIsGood(req, now, r.value, TransitionRow(read, actor, input)); }
  }

  // ---------------------------------------------------------------- billing service

  predicate ResolveRequestOk(req: Request, read: Aggregate, actor: Actor, expectedVersion: int) {
    actor.Operator() && InState(read, {WorkFinished}) && read.order.value.version == expectedVersion
    && req.currency == "ARS"
  }

  /** The advance that creates the resolution and its charge. */
  lemma {:induction false} CreationIsGood(req: Request, now: Aggregate, next: Aggregate, row: HistoryRow)
    requires Good(req, now) && Advances(now, next, row) && row.writer == ByResolve && row.to == PaymentPending
    requires now.charge.None? && now.resolution.None? && next.resolution.Some? && req.currency == "ARS"
    requires next.charge == Some(Charge(req.categoryName, req.rateVersion, "ARS", req.amount))
    requires next.attempts == now.attempts && next.conformity == now.conformity
    ensures Good(req, next) && Extends(now, next)
  {
    hide EvidenceOk, AttemptsOk, RejectionsIn, Count, EventsOf, WithoutRejections, LastTechnician;
    AdvanceKeepsHistory(now, next, row);
    AdvanceKeepsOutbox(now, next, row);
    NoProviderRowBeforeCharge(req, now);
    AttemptsExtendSelf(now.attempts);
    RowKeepsEvidence(now, next, row);
  }

  /** An order that awaits its payment's creation has no charge and no resolution. */
  lemma {:induction false} UnpaidHasNoCharge(req: Request, a: Aggregate)
    requires Good(req, a) && InState(a, {WorkFinished})
    ensures a.charge.None? && a.resolution.None?
  {
  }

  lemma {:induction false} ResolveIsGood(req: Request, read: Aggregate, now: Aggregate, actor: Actor,
                                         resolution: Resolution, expectedVersion: int)
    requires Good(req, read) && Good(req, now) && Extends(read, now)
    ensures var r := ResolveTx(req, read, now, actor, resolution, expectedVersion);
            (r.Ok? <==> ResolveRequestOk(req, read, actor, expectedVersion) && read.history == now.history)
            && (r.Ok? ==> Good(req, r.value) && Extends(now, r.value) && r.value.resolution == Some(resolution)
                          && now.resolution.None?)
  {
    hide OutboxOk, BillingOk, PaymentsOk, AttemptsOk, ApprovalsOk, RejectionsOk, EvidenceOk, WritersOk, AttemptsExtend;
    hide LastTechnician;
    if ResolveRequestOk(req, read, actor, expectedVersion) {
      UnpaidHasNoCharge(req, read);
      if now.order.Some? {
        var row := HistoryRow(ByResolve, Some(actor.profileId), None, CreateFixedPayment,
                              WorkFinished, PaymentPending, None, read.order.value.version + 1);
        WriteOrderAdvances(read, now, row, now.order.value.technician, []);
        if read.history == now.history {
          UnpaidHasNoCharge(req, now);
          CreationIsGood(req, now, ResolveTx(req, read, now, actor, resolution, expectedVersion).value, row);
        }
      }
    }
  }

  lemma {:induction false} NoProviderRowBeforeCharge(req: Request, a: Aggregate)
    requires PaymentsOk(a) && a.charge.None?
    ensures forall i :: 0 <= i < |a.history| ==> !a.history[i].writer.ByProvider?
  {
  }

  /** The rules of a conformity, as a condition on the order that was read. */
  predicate ConformityRequestOk(req: Request, read: Aggregate, actor: Actor, expectedVersion: int) {
    actor.role == Client && actor.profileId == req.client
    && InState(read, {ConformityPending}) && read.order.value.version == expectedVersion
  }

  /** A conformity changes an order exactly if the request obeys the rules and nothing was committed since the read. */
  lemma {:induction false} ConformityIsGood(req: Request, read: Aggregate, now: Aggregate, actor: Actor, text: string,
                                            expectedVersion: int)
    requires Good(req, read) && Good(req, now) && Extends(read, now)
    ensures var r := ConformityTx(req, read, now, actor, text, expectedVersion);
            (r.Ok? && r.value != now <==>
               ConformityRequestOk(req, read, actor, expectedVersion) && read.history == now.history)
            && (r.Ok? ==> Good(req, r.value) && Extends(now, r.value)
                          && (r.value == now || (InState(r.value, {Closed}) && r.value.conformity == Some(text))))
  {
    hide OutboxOk, PaymentsOk, AttemptsOk, ApprovalsOk, RejectionsOk, EvidenceOk, WritersOk, AttemptsExtend;
    hide LastTechnician;
    var r := ConformityTx(req, read, now, actor, text, expectedVersion);
    if ConformityRequestOk(req, read, actor, expectedVersion) && now.order.Some? {
      var row := HistoryRow(ByConformity, Some(actor.profileId), None, ConfirmClientConformity,
                            ConformityPending, Closed, None, read.order.value.version + 1);
      WriteOrderAdvances(read, now, row, now.order.value.technician, [OrderClosed]);
      if r.Ok? && r.value != now { AdvanceIsGood(req, now, r.value, row); }
    }
    ExtendsSelf(now);
  }

  lemma {:induction false} ExtendsSelf(a: Aggregate)
    ensures Extends(a, a)
  {
  }

  // ---------------------------------------------------------------- payment attempts

  /** A state write to attempt `k` that leaves at most one attempt active keeps the attempt rows in order. */
  lemma {:induction false} WriteKeepsAttempts(attempts: seq<Attempt>, k: nat, t: Attempt, s: PaymentState)
    requires AttemptsOk(attempts) && k < |attempts|
    requires t.sequence == attempts[k].sequence && t.reference == attempts[k].reference
    requires t.state == s && t.log == attempts[k].log + [s]
    requires Active(s) ==> Active(attempts[k].state) || NoOtherActive(attempts, k)
    ensures AttemptsOk(attempts[k := t]) && AttemptsExtend(attempts, attempts[k := t])
    ensures RejectionsIn(attempts[k := t]) == RejectionsIn(attempts) + (if s == Rejected then 1 else 0)
  {
    var after := attempts[k := t];
    forall j | 0 <= j < |after| ensures AttemptOk(after, j) { assert AttemptOk(attempts, j); }
    RejectionsAfterUpdate(attempts, k, t);
    AppendedLog(attempts[k].log, s);
  }

  /** A write confined to the attempts needs only the attempt rows, the approvals and the rejections re-established. */
  lemma {:induction false} AttemptsOnlyIsGood(req: Request, now: Aggregate, attempts: seq<Attempt>, rejection: bool)
    requires Good(req, now) && now.charge.Some?
    requires AttemptsOk(attempts) && AttemptsExtend(now.attempts, attempts)
    requires !Settled(now) ==> forall k :: 0 <= k < |attempts| ==> Approved !in attempts[k].log
    requires RejectionsIn(attempts) == RejectionsIn(now.attempts) + (if rejection then 1 else 0)
    ensures var outbox := if rejection then now.outbox + [PaymentRejected] else now.outbox;
            var next := now.(attempts := attempts, outbox := outbox);
            Good(req, next) && Extends(now, next)
  {
    hide HistoryOk, WritersOk, PaymentsOk, BillingOk, AttemptsOk, EventsOf, WithoutRejections, Count, RejectionsIn;
    hide CreditsOk, AttemptsExtend;
    CreditsStay(now.history, now.attempts, attempts);
    if rejection { AppendedEvent(now.outbox, PaymentRejected); }
    var next := now.(attempts := attempts, outbox := if rejection then now.outbox + [PaymentRejected] else now.outbox);
    BillingWithAttempts(req, now, next);
  }

  lemma {:induction false} BillingWithAttempts(req: Request, now: Aggregate, next: Aggregate)
    requires now.charge.Some? && BillingOk(req, now) && PaymentsOk(now)
    requires next == now.(attempts := next.attempts, outbox := next.outbox)
    ensures BillingOk(req, next) && PaymentsOk(next)
  {
  }

  lemma {:induction false} UnsettledHasNoApproval(now: Aggregate)
    requires ApprovalsOk(now) && !Settled(now)
    ensures forall k :: 0 <= k < |now.attempts| ==> Approved !in now.attempts[k].log
  {
  }

  /** A write to one attempt that records no approval and, if it records a rejection, comes with its event. */
  lemma {:induction false} AttemptWriteIsGood(req: Request, now: Aggregate, k: nat, t: Attempt, s: PaymentState,
                                              next: Aggregate)
    requires Good(req, now) && k < |now.attempts|
    requires t.sequence == now.attempts[k].sequence && t.reference == now.attempts[k].reference
    requires t.state == s && t.log == now.attempts[k].log + [s]
    requires Active(s) ==> Active(now.attempts[k].state) || NoOtherActive(now.attempts, k)
    requires s == Approved ==> Settled(now)
    requires next == now.(attempts := now.attempts[k := t],
                          outbox := if s == Rejected then now.outbox + [PaymentRejected] else now.outbox)
    ensures Good(req, next) && Extends(now, next)
  {
    hide HistoryOk, WritersOk, PaymentsOk, OutboxOk, OrderMatches, BillingOk, RejectionsIn, Count, AttemptsOk;
    hide AttemptsExtend, EvidenceOk;
    ChargedAttempt(req, now, k);
    WriteKeepsAttempts(now.attempts, k, t, s);
    if !Settled(now) { UnsettledHasNoApproval(now); }
    AttemptsOnlyIsGood(req, now, now.attempts[k := t], s == Rejected);
  }

  lemma {:induction false} OpenAttemptIsGood(req: Request, read: Aggregate, now: Aggregate, actor: Actor,
                                             reference: string, expectedVersion: int)
    requires Good(req, read) && Good(req, now) && Extends(read, now)
    requires OpenAttemptTx(req, read, now, actor, reference, expectedVersion).Ok?
    ensures var next := OpenAttemptTx(req, read, now, actor, reference, expectedVersion).value;
            Good(req, next) && Extends(now, next)
  {
    hide HistoryOk, WritersOk, PaymentsOk, OutboxOk, RejectionsOk;
    var next := OpenAttemptTx(req, read, now, actor, reference, expectedVersion).value;
    if ActiveIndex(read.attempts).None? {
      if |read.attempts| < |now.attempts| { StaleReadFindsSequenceTaken(read.attempts, now.attempts); }
      NewAttemptIsGood(req, now, reference, next);
    } else {
      ExtendsSelf(now);
    }
  }

  /** The unique key (charge, sequence) is the attempts' lock. */
  lemma {:induction false} StaleReadFindsSequenceTaken(read: seq<Attempt>, now: seq<Attempt>)
    requires AttemptsOk(now) && |read| < |now|
    ensures SequenceTaken(now, |read| + 1)
  {
    assert AttemptOk(now, |read|);
  }

  lemma {:induction false} NewAttemptRow(attempts: seq<Attempt>, t: Attempt)
    requires AttemptsOk(attempts) && NoOtherActive(attempts, -1)
    requires forall k :: 0 <= k < |attempts| ==> attempts[k].reference != t.reference
    requires t.sequence == |attempts| + 1 && t.state == Created && t.log == [Created]
    ensures AttemptsOk(attempts + [t]) && AttemptsExtend(attempts, attempts + [t])
  {
    var after := attempts + [t];
    forall j | 0 <= j < |after| ensures AttemptOk(after, j) {
      if j < |attempts| { assert AttemptOk(attempts, j); }
    }
  }

  lemma {:induction false} NewAttemptRejections(attempts: seq<Attempt>, t: Attempt)
    requires t.log == [Created]
    ensures RejectionsIn(attempts + [t]) == RejectionsIn(attempts)
  {
    assert (attempts + [t])[..|attempts|] == attempts;
    assert t.log == [] + [Created];
    AppendedLog([], Created);
  }

  lemma {:induction false} NewAttemptIsGood(req: Request, now: Aggregate, reference: string, next: Aggregate)
    requires Good(req, now) && now.charge.Some?
    requires NoOtherActive(now.attempts, -1) && IndexOf(now.attempts, reference).None?
    requires next == now.(attempts := now.attempts + [Attempt(|now.attempts| + 1, reference, Created, None, [Created])])
    ensures Good(req, next) && Extends(now, next)
  {
    hide HistoryOk, WritersOk, PaymentsOk, OutboxOk, OrderMatches, BillingOk, RejectionsIn, Count, AttemptsOk;
    hide AttemptsExtend;
    var t := Attempt(|now.attempts| + 1, reference, Created, None, [Created]);
    NewAttemptRow(now.attempts, t);
    NewAttemptRejections(now.attempts, t);
    if !Settled(now) { UnsettledHasNoApproval(now); }
    AttemptsOnlyIsGood(req, now, next.attempts, false);
  }

  lemma {:induction false} SettleCheckoutIsGood(req: Request, read: Aggregate, now: Aggregate, k: nat,
                                                outcome: CheckoutOutcome)
    requires Good(req, now)
    requires SettleCheckoutTx(read, now, k, outcome).Ok?
    ensures var next := SettleCheckoutTx(read, now, k, outcome).value; Good(req, next) && Extends(now, next)
  {
    var next := SettleCheckoutTx(read, now, k, outcome).value;
    match outcome
    case PreferenceCreated(url) => PageWriteIsGood(req, now, k, url, next);
    case PreferenceNotCreated => AttemptWriteIsGood(req, now, k, next.attempts[k], CancelledPayment, next);
    case PreferenceUnknown => AttemptWriteIsGood(req, now, k, next.attempts[k], Unknown, next);
  }

  /** A page address changes nothing of an attempt that the invariant looks at. */
  lemma {:induction false} PageKeepsAttempts(attempts: seq<Attempt>, k: nat, url: string)
    requires AttemptsOk(attempts) && k < |attempts|
    ensures var after := attempts[k := attempts[k].(checkoutUrl := Some(url))];
            AttemptsOk(after) && AttemptsExtend(attempts, after) && RejectionsIn(after) == RejectionsIn(attempts)
            && forall j :: 0 <= j < |attempts| ==> after[j].log == attempts[j].log
  {
    hide RejectionsIn, Count;
    var after := attempts[k := attempts[k].(checkoutUrl := Some(url))];
    forall j | 0 <= j < |after| ensures AttemptOk(after, j) { assert AttemptOk(attempts, j); }
    RejectionsAfterUpdate(attempts, k, after[k]);
  }

  lemma {:induction false} PageWriteIsGood(req: Request, now: Aggregate, k: nat, url: string, next: Aggregate)
    requires Good(req, now) && k < |now.attempts|
    requires next == now.(attempts := now.attempts[k := now.attempts[k].(checkoutUrl := Some(url))])
    ensures Good(req, next) && Extends(now, next)
  {
    hide HistoryOk, WritersOk, PaymentsOk, OutboxOk, OrderMatches, BillingOk, RejectionsIn, Count, AttemptsOk;
    hide AttemptsExtend, EvidenceOk;
    ChargedAttempt(req, now, k);
    PageKeepsAttempts(now.attempts, k, url);
    if !Settled(now) { UnsettledHasNoApproval(now); }
    AttemptsOnlyIsGood(req, now, next.attempts, false);
  }

  lemma {:induction false} ChargedAttempt(req: Request, a: Aggregate, k: nat)
    requires Good(req, a) && k < |a.attempts|
    ensures a.charge.Some?
  {
  }

  lemma {:induction false} ReopenIsGood(req: Request, read: Aggregate, now: Aggregate, k: nat, url: string)
    requires Good(req, now)
    requires ReopenTx(read, now, k, url).Ok?
    ensures var next := ReopenTx(read, now, k, url).value; Good(req, next) && Extends(now, next)
  {
    var next := ReopenTx(read, now, k, url).value;
    AttemptWriteIsGood(req, now, k, next.attempts[k], Created, next);
  }

  // ---------------------------------------------------------------- provider payments

  /** An attempt exists only once the order is in the payment stage, and that is never left. */
  lemma {:induction false} OrderOfAnAttempt(req: Request, attemptRead: Aggregate, orderRead: Aggregate, now: Aggregate)
    requires Good(req, attemptRead) && Good(req, orderRead) && Good(req, now)
    requires Extends(attemptRead, orderRead) && Extends(orderRead, now)
    requires attemptRead.attempts != []
    ensures Paying(orderRead) && Paying(now)
    ensures !InState(orderRead, {PaymentPending}) ==> Settled(now)
  {
  }

  /** What a successful application did: nothing, a bare state write, or a state write with the order advance. */
  lemma {:induction false} ApplyCases(attemptRead: Aggregate, orderRead: Aggregate, now: Aggregate,
                                      p: ProviderPayment) returns (k: nat)
    requires ApplyTx(attemptRead, orderRead, now, p).Ok? && now.order.Some?
    requires ApplyTx(attemptRead, orderRead, now, p).value != now
    ensures attemptRead.attempts != [] && attemptRead.charge.Some? && Matches(attemptRead.charge.value, p)
    ensures k < |now.attempts| && Active(now.attempts[k].state)
    ensures k < |attemptRead.attempts| && attemptRead.attempts[k].reference == p.externalReference
    ensures var next := ApplyTx(attemptRead, orderRead, now, p).value;
            if p.status == StatusApproved && InState(orderRead, {PaymentPending}) then
              ApprovalWrite(orderRead, now, k, p) == Ok(next)
            else
              next == now.(attempts := now.attempts[k := now.attempts[k].Write(StateFor(p.status))],
                           outbox := if StateFor(p.status) == Rejected then now.outbox + [PaymentRejected]
                                     else now.outbox)
  {
    k := IndexOf(attemptRead.attempts, p.externalReference).value;
  }

  function ApprovalRow(orderRead: Aggregate, p: ProviderPayment): HistoryRow
    requires orderRead.order.Some?
  {
    HistoryRow(ByProvider(p), None, None, ConfirmProviderPayment,
               PaymentPending, ConformityPending, None, orderRead.order.value.version + 1)
  }

  function ApprovalWrite(orderRead: Aggregate, now: Aggregate, k: nat, p: ProviderPayment): Result<Aggregate>
    requires k < |now.attempts| && now.order.Some? && orderRead.order.Some?
  {
    WriteOrder(now.(attempts := now.attempts[k := now.attempts[k].Write(Approved)]),
               ApprovalRow(orderRead, p), now.order.value.technician, [PaymentApproved])
  }

  lemma {:induction false} ApplyIsGood(req: Request, attemptRead: Aggregate, orderRead: Aggregate, now: Aggregate,
                                       p: ProviderPayment)
    requires Good(req, attemptRead) && Good(req, orderRead) && Good(req, now)
    requires Extends(attemptRead, orderRead) && Extends(orderRead, now)
    requires ApplyTx(attemptRead, orderRead, now, p).Ok?
    ensures var next := ApplyTx(attemptRead, orderRead, now, p).value; Good(req, next) && Extends(now, next)
  {
    var next := ApplyTx(attemptRead, orderRead, now, p).value;
    if next == now {
      ExtendsSelf(now);
    } else {
      OrderOfAnAttempt(req, attemptRead, orderRead, now);
      var k := ApplyCases(attemptRead, orderRead, now, p);
      if p.status == StatusApproved && InState(orderRead, {PaymentPending}) {
        assert now.attempts[k].reference == orderRead.attempts[k].reference == p.externalReference;
        ApprovalAdvances(req, orderRead, now, k, p, next);
      } else {
        AttemptWriteIsGood(req, now, k, now.attempts[k].Write(StateFor(p.status)), StateFor(p.status), next);
      }
    }
  }

  lemma {:induction false} PaymentIsPermitted()
    ensures Permitted(PaymentPending, ConfirmProviderPayment, ConformityPending)
  {
  }

  /** The approval that advances the order: both writes commit together. */
  lemma {:induction false} ApprovalAdvances(req: Request, orderRead: Aggregate, now: Aggregate, k: nat,
                                            p: ProviderPayment, next: Aggregate)
    requires Good(req, orderRead) && Good(req, now) && Extends(orderRead, now)
    requires InState(orderRead, {PaymentPending}) && now.order.Some? && k < |now.attempts|
    requires now.charge.Some? && Matches(now.charge.value, p) && p.status == StatusApproved
    requires now.attempts[k].reference == p.externalReference
    requires ApprovalWrite(orderRead, now, k, p) == Ok(next)
    ensures Good(req, next) && Extends(now, next)
    ensures Settled(next) && !Settled(now)
  {
    hide EventsOf, WithoutRejections, Count, RejectionsIn, LastTechnician, PaymentsOk, WritersOk, OneActive, Permitted;
    hide EvidenceOk;
    var claimed := now.(attempts := now.attempts[k := now.attempts[k].Write(Approved)]);
    var row := ApprovalRow(orderRead, p);
    assert Permitted(row.from, row.action, row.to) by { PaymentIsPermitted(); }
    WriteOrderAdvances(orderRead, claimed, row, now.order.value.technician, [PaymentApproved]);
    WriteKeepsAttempts(now.attempts, k, now.attempts[k].Write(Approved), Approved);
    AdvanceKeepsHistory(claimed, next, row);
    AdvanceKeepsOutbox(claimed, next, row);
    if now.conformity.Some? { assert false; }
    assert Credited(next.attempts, p) by { assert next.attempts[k] == now.attempts[k].Write(Approved); }
    RowKeepsEvidence(now, next, row);
    BillingWithAttempts(req, now, claimed);
    AdvanceKeepsBilling(req, claimed, next, row);
  }
}
