/** One service request's work order with its billing rows, and the transactions that write them.

    Every transaction is a function of the rows it read and of the rows present when it commits,
    which may differ: other transactions commit in between. It either commits all its writes or,
    when a unique key is taken, none. Orders are updated by id alone, with values computed from what was read. */
module WorkOrder {
  import opened Wrappers
  import opened OrderStateMachine

  datatype Role = Client | Dispatcher | Admin
  datatype Actor = Actor(profileId: string, role: Role) {
    predicate Operator() { role == Admin || role == Dispatcher }
  }

  datatype PaymentStatus = StatusApproved | StatusPending | StatusRejected | StatusCancelled
  datatype ProviderPayment = ProviderPayment(id: string, status: PaymentStatus, externalReference: string,
                                             currency: string, amount: int)

  /** What the order and billing services read of a service request; frozen when the request is created.
      Amounts are in hundredths. */
  datatype Request = Request(id: string, client: string, categoryName: string, rateVersion: int,
                             currency: string, amount: int)

  /** The method that wrote a history row. The provider's row remembers the payment that caused it. */
  datatype Writer = ByAssign | ByTransition | ByResolve | ByProvider(payment: ProviderPayment) | ByConformity

  datatype HistoryRow = HistoryRow(writer: Writer, actor: Option<string>, technician: Option<string>,
                                   action: Action, from: OrderState, to: OrderState,
                                   reason: Option<string>, version: int)
  datatype OrderRow = OrderRow(state: OrderState, version: int, technician: Option<string>)
  datatype Charge = Charge(categoryName: string, offerVersion: int, currency: string, amount: int)

  /** `log` lists every value ever written to `state`, the default of the insert first. */
  datatype Attempt = Attempt(sequence: int, reference: string, state: PaymentState,
                             checkoutUrl: Option<string>, log: seq<PaymentState>) {
    function Write(s: PaymentState): Attempt { this.(state := s, log := log + [s]) }
  }

  datatype ResolutionOutcome = ResolvedOnVisit | NeedsQuote
  datatype Resolution = Resolution(outcome: ResolutionOutcome, summary: string)

  datatype EventType =
    | AssignmentChanged | WentEnRoute | OrderCancelled | PaymentApproved | PaymentRejected | OrderClosed

  datatype Aggregate = Aggregate(order: Option<OrderRow>, history: seq<HistoryRow>,
                                 resolution: Option<Resolution>, charge: Option<Charge>,
                                 attempts: seq<Attempt>, conformity: Option<string>,
                                 outbox: seq<EventType>)

  const EMPTY := Aggregate(None, [], None, None, [], None, [])

  datatype Failure =
    | NotFound | VersionConflict | TransitionInvalid | ReasonRequired | TechnicianRequired
    | TechnicianNotAssignable | TechnicianNotAllowed | RequestNotReady | OrderAlreadyExists
    | ChargeInvalid | PayloadMismatch | PaymentNotAvailable | PreferenceUncertain | PaymentMismatch
    | ConformityNotAvailable | UniqueViolation | AssignmentInProgress | ResolutionInProgress | PreferenceRefused

  datatype Result<+T> = Ok(value: T) | Err(error: Failure)

  // ---------------------------------------------------------------- shared write

  predicate VersionTaken(history: seq<HistoryRow>, version: int) {
    exists i :: 0 <= i < |history| && history[i].version == version
  }

  /** Overwrites the order by id and inserts one history row; the unique key (order, version) is the only guard. */
  function WriteOrder(now: Aggregate, row: HistoryRow, technician: Option<string>,
                      events: seq<EventType>): Result<Aggregate> {
    if VersionTaken(now.history, row.version) then Err(UniqueViolation)
    else Ok(now.(order := Some(OrderRow(row.to, row.version, technician)),
                 history := now.history + [row],
                 outbox := now.outbox + events))
  }

  // ---------------------------------------------------------------- orders service

  function AssignTx(now: Aggregate, actor: Actor, technician: string, requestReady: bool,
                    assignable: bool): Result<Aggregate> {
    if !actor.Operator() then Err(NotFound)
    else if !requestReady then Err(RequestNotReady)
    else if !assignable then Err(TechnicianNotAssignable)
    else if now.order.Some? then Err(UniqueViolation)
    else WriteOrder(now,
                    HistoryRow(ByAssign, Some(actor.profileId), Some(technician), AssignTechnician,
                               Requested, TechnicianAssigned, None, 1),
                    Some(technician), [AssignmentChanged])
  }

  function TransitionEvents(action: Action): seq<EventType> {
    if action == ReassignTechnician then [AssignmentChanged]
    else if action == MarkEnRoute then [WentEnRoute]
    else if action == Cancel then [OrderCancelled]
    else []
  }

  datatype TransitionInput = TransitionInput(action: Action, expectedVersion: int, reason: Option<string>,
                                             technician: Option<string>, assignable: bool)

  /** The technician column after a transition, or why the request is refused. */
  function NextTechnician(current: Option<string>, input: TransitionInput): Result<Option<string>> {
    if input.action == ReassignTechnician then
      if input.technician.None? then Err(TechnicianRequired)
      else if !input.assignable then Err(TechnicianNotAssignable)
      else Ok(input.technician)
    else if input.technician.Some? then Err(TechnicianNotAllowed)
    else Ok(current)
  }

  function TransitionTx(read: Aggregate, now: Aggregate, actor: Actor, input: TransitionInput): Result<Aggregate> {
    if !actor.Operator() then Err(NotFound)
    else if read.order.None? then Err(NotFound)
    else
      var order := read.order.value;
      if order.version != input.expectedVersion then Err(VersionConflict)
      else
        var allowed := AllowedFrom(order.state, input.action);
        if allowed.None? || allowed.value.action == AssignTechnician || allowed.value.action == CreateFixedPayment then
          Err(TransitionInvalid)
        else if allowed.value.requiresReason && input.reason.None? then Err(ReasonRequired)
        else
          match NextTechnician(order.technician, input)
          case Err(e) => Err(e)
          case Ok(technician) =>
            var row := HistoryRow(ByTransition, Some(actor.profileId), technician, input.action,
                                  order.state, allowed.value.to, input.reason, order.version + 1);
            match WriteOrder(now, row, technician, TransitionEvents(input.action))
            case Err(_) => Err(VersionConflict)
            case Ok(a) => Ok(a)
  }

  // ---------------------------------------------------------------- billing service: resolve and conformity

  function ResolveTx(req: Request, read: Aggregate, now: Aggregate, actor: Actor, resolution: Resolution,
                     expectedVersion: int): Result<Aggregate> {
    if !actor.Operator() || read.order.None? then Err(NotFound)
    else
      var order := read.order.value;
      if order.state != WorkFinished || order.version != expectedVersion then Err(VersionConflict)
      else if read.charge.Some? || req.currency != "ARS" then Err(ChargeInvalid)
      else if now.resolution.Some? || now.charge.Some? || now.order.None? then Err(UniqueViolation)
      else
        var row := HistoryRow(ByResolve, Some(actor.profileId), None, CreateFixedPayment,
                              WorkFinished, PaymentPending, None, order.version + 1);
        match WriteOrder(now, row, now.order.value.technician, [])
        case Err(e) => Err(e)
        case Ok(a) => Ok(a.(resolution := Some(resolution),
                            charge := Some(Charge(req.categoryName, req.rateVersion, "ARS", req.amount))))
  }

  function ConformityTx(req: Request, read: Aggregate, now: Aggregate, actor: Actor, textVersion: string,
                        expectedVersion: int): Result<Aggregate> {
    if actor.role != Client then Err(NotFound)
    else if read.order.None? || req.client != actor.profileId then Err(NotFound)
    else if read.charge.Some? && read.conformity.Some? then Ok(now)
    else
      var order := read.order.value;
      if order.state != ConformityPending || order.version != expectedVersion || read.charge.None? then
        Err(ConformityNotAvailable)
      else if now.conformity.Some? || now.order.None? then Err(UniqueViolation)
      else
        var row := HistoryRow(ByConformity, Some(actor.profileId), None, ConfirmClientConformity,
                              ConformityPending, Closed, None, order.version + 1);
        match WriteOrder(now, row, now.order.value.technician, [OrderClosed])
        case Err(e) => Err(e)
        case Ok(a) => Ok(a.(conformity := Some(textVersion)))
  }

  // ---------------------------------------------------------------- billing service: payment attempts

  /** The attempt carrying a reference, which is unique. */
  function IndexOf(attempts: seq<Attempt>, reference: string): (r: Option<nat>)
    ensures r.Some? ==> r.value < |attempts| && attempts[r.value].reference == reference
    ensures r.None? ==> forall k :: 0 <= k < |attempts| ==> attempts[k].reference != reference
  {
    if attempts == [] then None
    else if attempts[|attempts| - 1].reference == reference then Some(|attempts| - 1)
    else IndexOf(attempts[..|attempts| - 1], reference)
  }

  /** The attempt a checkout reuses: one that is still active. */
  function ActiveIndex(attempts: seq<Attempt>): (r: Option<nat>)
    ensures r.Some? ==> r.value < |attempts| && Active(attempts[r.value].state)
    ensures r.None? ==> forall k :: 0 <= k < |attempts| ==> !Active(attempts[k].state)
  {
    if attempts == [] then None
    else if Active(attempts[|attempts| - 1].state) then Some(|attempts| - 1)
    else ActiveIndex(attempts[..|attempts| - 1])
  }

  predicate SequenceTaken(attempts: seq<Attempt>, sequence: int) {
    exists k :: 0 <= k < |attempts| && attempts[k].sequence == sequence
  }

  /** The partial unique index: no attempt other than `except` is active. */
  predicate NoOtherActive(attempts: seq<Attempt>, except: int) {
    forall k :: 0 <= k < |attempts| && k != except ==> !Active(attempts[k].state)
  }

  /** The insert of a checkout that found no active attempt. */
  function OpenAttemptTx(req: Request, read: Aggregate, now: Aggregate, actor: Actor, reference: string,
                         expectedVersion: int): Result<Aggregate> {
    if actor.role != Client || read.order.None? || req.client != actor.profileId then Err(NotFound)
    else if read.order.value.state != PaymentPending || read.order.value.version != expectedVersion
            || read.charge.None? then
      Err(PaymentNotAvailable)
    else if ActiveIndex(read.attempts).Some? then
      var active := read.attempts[ActiveIndex(read.attempts).value];
      if active.checkoutUrl.None? && active.state == Unknown then Err(PreferenceUncertain) else Ok(now)
    else
      var sequence := |read.attempts| + 1;
      if SequenceTaken(now.attempts, sequence) || IndexOf(now.attempts, reference).Some?
         || !NoOtherActive(now.attempts, -1) then
        Err(UniqueViolation)
      else Ok(now.(attempts := now.attempts + [Attempt(sequence, reference, Created, None, [Created])]))
  }

  /** What the provider answered to the preference request of a checkout. */
  datatype CheckoutOutcome = PreferenceCreated(url: string) | PreferenceNotCreated | PreferenceUnknown

  /** The attempts a checkout may still be waiting for: active, not uncertain, without a checkout page. */
  predicate AwaitsPreference(read: Aggregate, k: nat) {
    k < |read.attempts| && Active(read.attempts[k].state) && read.attempts[k].state != Unknown
    && read.attempts[k].checkoutUrl.None?
  }

  /** The write that follows the provider's answer. It does not look at the state it overwrites;
      the partial unique index alone can refuse it. */
  function SettleCheckoutTx(read: Aggregate, now: Aggregate, k: nat, outcome: CheckoutOutcome): Result<Aggregate> {
    if !AwaitsPreference(read, k) || k >= |now.attempts| then Err(NotFound)
    else
      match outcome
      case PreferenceCreated(url) => Ok(now.(attempts := now.attempts[k := now.attempts[k].(checkoutUrl := Some(url))]))
      case PreferenceNotCreated => Ok(now.(attempts := now.attempts[k := now.attempts[k].Write(CancelledPayment)]))
      case PreferenceUnknown =>
        if !NoOtherActive(now.attempts, k) then Err(UniqueViolation)
        else Ok(now.(attempts := now.attempts[k := now.attempts[k].Write(Unknown)]))
  }

  /** Reconciliation found the preference of an attempt it had read as uncertain; again an unconditional write. */
  function ReopenTx(read: Aggregate, now: Aggregate, k: nat, url: string): Result<Aggregate> {
    if k >= |read.attempts| || read.attempts[k].state != Unknown || k >= |now.attempts| then Err(NotFound)
    else if !NoOtherActive(now.attempts, k) then Err(UniqueViolation)
    else Ok(now.(attempts := now.attempts[k := now.attempts[k].Write(Created).(checkoutUrl := Some(url))]))
  }

  function StateFor(status: PaymentStatus): PaymentState {
    match status
    case StatusApproved => Approved
    case StatusPending => Pending
    case StatusRejected => Rejected
    case StatusCancelled => CancelledPayment
  }

  predicate Matches(charge: Charge, p: ProviderPayment) {
    charge.currency == p.currency && charge.amount == p.amount
  }

  /** Applies an authoritative provider payment: compare-and-set on the attempt and, when approved,
      the order advance and its event, in one transaction. The attempt is read before it, the order inside it. */
  function ApplyTx(attemptRead: Aggregate, orderRead: Aggregate, now: Aggregate,
                   p: ProviderPayment): Result<Aggregate> {
    var found := IndexOf(attemptRead.attempts, p.externalReference);
    if found.None? || attemptRead.charge.None? || !Matches(attemptRead.charge.value, p) then Err(PaymentMismatch)
    else
      var k := found.value;
      var seen := attemptRead.attempts[k].state;
      if Terminal(seen) then Ok(now)
      else if k >= |now.attempts| || now.attempts[k].state != seen then Ok(now)
      else
        var claimed := now.(attempts := now.attempts[k := now.attempts[k].Write(StateFor(p.status))]);
        if p.status == StatusRejected then Ok(claimed.(outbox := claimed.outbox + [PaymentRejected]))
        else if p.status != StatusApproved then Ok(claimed)
        else if orderRead.order.None? || orderRead.order.value.state != PaymentPending || now.order.None? then
          Ok(claimed)
        else
          var row := HistoryRow(ByProvider(p), None, None, ConfirmProviderPayment,
                                PaymentPending, ConformityPending, None, orderRead.order.value.version + 1);
          WriteOrder(claimed, row, now.order.value.technician, [PaymentApproved])
  }
}
