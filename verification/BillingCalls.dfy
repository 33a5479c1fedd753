/** Whole billing service calls, one after another: a checkout, a reconciliation pass over one attempt,
    a provider payment, or an order transaction that reads and commits without interruption. */
module BillingCalls {
  import opened Wrappers
  import opened OrderStateMachine
  import opened WorkOrder
  import opened WorkOrderInvariant
  import opened WorkOrderSteps
  import opened OrderAnswers
  import opened Ledger
  import opened PaymentAttempts

  function OrElse(r: Result<Aggregate>, a: Aggregate): Aggregate {
    match r case Ok(b) => b case Err(_) => a
  }

  /** A checkout: find or open the active attempt, ask for a preference unless a page is known, record the answer. */
  function StartCheckout(req: Request, a: Aggregate, actor: Actor, reference: string, version: int,
                         outcome: CheckoutOutcome): Aggregate {
    match OpenAttemptTx(req, a, a, actor, reference, version)
    case Err(_) => a
    case Ok(b) =>
      var active := ActiveIndex(b.attempts);
      if active.None? || b.attempts[active.value].checkoutUrl.Some? then b
      else OrElse(SettleCheckoutTx(b, b, active.value, outcome), b)
  }

  /** What the caller of a checkout is told, if it does not get a page. */
  function CheckoutFailure(req: Request, a: Aggregate, actor: Actor, reference: string, version: int,
                           outcome: CheckoutOutcome): Option<Failure> {
    match OpenAttemptTx(req, a, a, actor, reference, version)
    case Err(e) => Some(e)
    case Ok(b) =>
      var active := ActiveIndex(b.attempts);
      if active.None? || b.attempts[active.value].checkoutUrl.Some? then None
      else if SettleCheckoutTx(b, b, active.value, outcome).Err? then
        Some(SettleCheckoutTx(b, b, active.value, outcome).error)
      else
        match outcome
        case PreferenceCreated(_) => None
        case PreferenceNotCreated => Some(PreferenceRefused)
        case PreferenceUnknown => Some(PreferenceUncertain)
  }

  /** Payments applied in order until one is refused: the state reached, how many were applied, and whether one was
      refused. */
  function ApplyAll(a: Aggregate, payments: seq<ProviderPayment>): (r: (Aggregate, nat, bool))
    ensures r.1 <= |payments| && (r.2 <==> r.1 < |payments|)
    decreases |payments|
  {
    if payments == [] then (a, 0, false)
    else
      match ApplyTx(a, a, a, payments[0])
      case Err(_) => (a, 0, true)
      case Ok(b) => var rest := ApplyAll(b, payments[1..]); (rest.0, rest.1 + 1, rest.2)
  }

  /** What the provider answered during a reconciliation pass. */
  datatype Answer =
    | LookupFailed
    | SearchFailed(preference: Option<string>)
    | Answered(preference: Option<string>, payments: seq<ProviderPayment>)

  /** Before its payments are searched, an attempt read as uncertain is reopened if its preference was found. */
  function ReopenIfFound(read: Aggregate, a: Aggregate, k: nat, answer: Answer): Result<Aggregate> {
    if k >= |read.attempts| || read.attempts[k].state != Unknown then Ok(a)
    else if answer.LookupFailed? then Err(PreferenceUncertain)
    else if answer.preference.None? then Ok(a)
    else ReopenTx(read, a, k, answer.preference.value)
  }

  /** A reconciliation pass over attempt `k` of the list that was read: the state reached, the payments applied,
      and whether the pass failed. A failure ends this pass only. */
  function ReconcileAttempt(read: Aggregate, a: Aggregate, k: nat, answer: Answer): (Aggregate, nat, bool) {
    match ReopenIfFound(read, a, k, answer)
    case Err(_) => (a, 0, true)
    case Ok(b) => if answer.Answered? then ApplyAll(b, answer.payments) else (b, 0, true)
  }

  datatype Call =
    | OrderCall(op: Op)
    | Checkout(actor: Actor, reference: string, version: int, outcome: CheckoutOutcome)
    | Payment(payment: ProviderPayment)
    | Reconciliation(k: nat, answer: Answer)

  function Perform(req: Request, a: Aggregate, call: Call): Aggregate {
    match call
    case OrderCall(op) =>
      if op.Assign? || op.Transit? || op.Resolve? || op.Conform? then OrElse(Tx(req, op, a, a, a), a) else a
    case Checkout(actor, reference, version, outcome) => StartCheckout(req, a, actor, reference, version, outcome)
    case Payment(p) => OrElse(ApplyTx(a, a, a, p), a)
    case Reconciliation(k, answer) => ReconcileAttempt(a, a, k, answer).0
  }

  // ---------------------------------------------------------------- only the last attempt lives

  /** Every attempt before the last was rejected or cancelled. */
  predicate OnlyLastLives(attempts: seq<Attempt>) {
    forall k :: 0 <= k < |attempts| - 1 ==> attempts[k].state == Rejected || attempts[k].state == CancelledPayment
  }

  predicate Sound(req: Request, a: Aggregate) { Good(req, a) && OnlyLastLives(a.attempts) }

  lemma {:induction false} ActiveIsLast(attempts: seq<Attempt>, k: nat)
    requires OnlyLastLives(attempts) && k < |attempts| && Active(attempts[k].state)
    ensures k == |attempts| - 1
  {
  }

  /** A payment writes at most one attempt, an active one. */
  lemma {:induction false} ApplyIsSound(req: Request, a: Aggregate, p: ProviderPayment)
    requires Sound(req, a) && ApplyTx(a, a, a, p).Ok?
    ensures Sound(req, ApplyTx(a, a, a, p).value)
  {
    hide ApplyTx, Good, Extends;
    ExtendsSelf(a);
    ApplyIsGood(req, a, a, a, p);
    var c := ApplyChange(a, a, a, p);
    if c.State? { ActiveIsLast(a.attempts, c.k); }
  }

  lemma {:induction false} ApplyAllIsSound(req: Request, a: Aggregate, payments: seq<ProviderPayment>)
    requires Sound(req, a)
    ensures Sound(req, ApplyAll(a, payments).0)
    decreases |payments|
  {
    hide ApplyTx, Sound;
    if payments != [] && ApplyTx(a, a, a, payments[0]).Ok? {
      ApplyIsSound(req, a, payments[0]);
      ApplyAllIsSound(req, ApplyTx(a, a, a, payments[0]).value, payments[1..]);
    }
  }

  lemma {:induction false} SettleIsSound(req: Request, a: Aggregate, k: nat, outcome: CheckoutOutcome)
    requires Sound(req, a) && SettleCheckoutTx(a, a, k, outcome).Ok?
    ensures Sound(req, SettleCheckoutTx(a, a, k, outcome).value)
  {
    hide Good;
    SettleCheckoutIsGood(req, a, a, k, outcome);
    ActiveIsLast(a.attempts, k);
  }

  /** A new attempt is opened only when every earlier one was rejected or cancelled: an approved one would have
      moved the order on. */
  lemma {:induction false} OpenIsSound(req: Request, a: Aggregate, actor: Actor, reference: string, version: int)
    requires Sound(req, a) && OpenAttemptTx(req, a, a, actor, reference, version).Ok?
    ensures Sound(req, OpenAttemptTx(req, a, a, actor, reference, version).value)
    ensures ActiveIndex(OpenAttemptTx(req, a, a, actor, reference, version).value.attempts).Some?
  {
    hide Extends, HistoryOk, WritersOk, OutboxOk, BillingOk, PaymentsOk, RejectionsOk, OrderMatches;
    ExtendsSelf(a);
    OpenAttemptIsGood(req, a, a, actor, reference, version);
    if ActiveIndex(a.attempts).None? {
      forall k | 0 <= k < |a.attempts|
        ensures a.attempts[k].state == Rejected || a.attempts[k].state == CancelledPayment
      {
        assert AttemptOk(a.attempts, k);
      }
    }
  }

  lemma {:induction false} CheckoutIsSound(req: Request, a: Aggregate, actor: Actor, reference: string, version: int,
                                           outcome: CheckoutOutcome)
    requires Sound(req, a)
    ensures Sound(req, StartCheckout(req, a, actor, reference, version, outcome))
  {
    hide Sound, OpenAttemptTx, SettleCheckoutTx;
    var found := OpenAttemptTx(req, a, a, actor, reference, version);
    if found.Ok? {
      OpenIsSound(req, a, actor, reference, version);
      var b := found.value;
      var k := ActiveIndex(b.attempts).value;
      if b.attempts[k].checkoutUrl.None? && SettleCheckoutTx(b, b, k, outcome).Ok? {
        SettleIsSound(req, b, k, outcome);
      }
    }
  }

  /** A checkout that does not fail leaves an active attempt with a page to pay on; an uncertain one leaves it UNKNOWN
      without a page, and a refused one is CANCELLED, so that the next checkout opens another. */
  lemma {:induction false} CheckoutAnswers(req: Request, a: Aggregate, actor: Actor, reference: string, version: int,
                                           outcome: CheckoutOutcome)
    requires Sound(req, a) && OpenAttemptTx(req, a, a, actor, reference, version).Ok?
    ensures var after, failure := StartCheckout(req, a, actor, reference, version, outcome).attempts,
                                  CheckoutFailure(req, a, actor, reference, version, outcome);
            after != [] && failure in {None, Some(PreferenceUncertain), Some(PreferenceRefused)}
            && var last := after[|after| - 1];
               (failure.None? ==> Active(last.state) && last.checkoutUrl.Some?)
               && (failure == Some(PreferenceUncertain) ==> last.state == Unknown && last.checkoutUrl.None?)
               && (failure == Some(PreferenceRefused) ==> last.state == CancelledPayment)
  {
    hide OpenAttemptTx, Good;
    OpenIsSound(req, a, actor, reference, version);
    var b := OpenAttemptTx(req, a, a, actor, reference, version).value;
    var k := ActiveIndex(b.attempts).value;
    ActiveIsLast(b.attempts, k);
    OpenedIsCertain(req, a, actor, reference, version);
    OnlyOneIsActive(req, b);
  }

  /** The attempt that a checkout could reuse has a page already. */
  predicate HasPage(attempts: seq<Attempt>) {
    exists k :: 0 <= k < |attempts| && attempts[k].state in {Created, Unknown, Pending} && attempts[k].checkoutUrl.Some?
  }

  /** What an uninterrupted checkout answers, exactly. An uncertain attempt without a page, and nothing the provider
      could say, keeps it from asking again; a page that is known is given without asking. */
  lemma {:induction false} CheckoutFailsExactly(req: Request, a: Aggregate, actor: Actor, reference: string,
                                                version: int, outcome: CheckoutOutcome)
    requires Good(req, a)
    ensures CheckoutFailure(req, a, actor, reference, version, outcome)
         == if actor.role != Client || actor.profileId != req.client || a.history == [] then Some(NotFound)
            else if StateAfter(a.history) != PaymentPending || version != |a.history| then Some(PaymentNotAvailable)
            else if SomeUncertain(a.attempts) then Some(PreferenceUncertain)
            else if HasPage(a.attempts) then None
            else if !SomeActive(a.attempts)
                    && exists k :: 0 <= k < |a.attempts| && a.attempts[k].reference == reference then
              Some(UniqueViolation)
            else
              match outcome
              case PreferenceCreated(_) => None
              case PreferenceNotCreated => Some(PreferenceRefused)
              case PreferenceUnknown => Some(PreferenceUncertain)
  {
    hide Good, OpenAttemptTx, StateAfter, SettleCheckoutTx, ActiveIndex;
    ExtendsSelf(a);
    CheckoutOpens(req, a, a, actor, reference, version);
    var found := OpenAttemptTx(req, a, a, actor, reference, version);
    if found.Ok? {
      var b := found.value;
      OpenAttemptIsGood(req, a, a, actor, reference, version);
      OnlyOneIsActive(req, b);
      OneToSettle(b, outcome);
      if b != a { assert b.attempts[|a.attempts|].checkoutUrl.None? && b.attempts[|a.attempts|].state == Created; }
    }
  }

  /** The provider's answer is recorded without an obstacle when nothing intervened. */
  lemma {:induction false} OneToSettle(b: Aggregate, outcome: CheckoutOutcome)
    requires OneActive(b.attempts)
    ensures var active := ActiveIndex(b.attempts);
            active.Some? && b.attempts[active.value].checkoutUrl.None? && b.attempts[active.value].state != Unknown ==>
              SettleCheckoutTx(b, b, active.value, outcome).Ok?
  {
    hide ActiveIndex;
  }

  lemma {:induction false} OpenedIsCertain(req: Request, a: Aggregate, actor: Actor, reference: string, version: int)
    requires OpenAttemptTx(req, a, a, actor, reference, version).Ok?
    ensures var b := OpenAttemptTx(req, a, a, actor, reference, version).value;
            var k := ActiveIndex(b.attempts);
            k.Some? ==> b.attempts[k.value].checkoutUrl.Some? || b.attempts[k.value].state != Unknown
  {
  }

  lemma {:induction false} OnlyOneIsActive(req: Request, a: Aggregate)
    requires Good(req, a)
    ensures forall j, k ::
              0 <= j < |a.attempts| && 0 <= k < |a.attempts|
              && Active(a.attempts[j].state) && Active(a.attempts[k].state)
              ==> j == k
  {
  }

  lemma {:induction false} ReopenIsSound(req: Request, a: Aggregate, k: nat, answer: Answer)
    requires Sound(req, a) && ReopenIfFound(a, a, k, answer).Ok?
    ensures Sound(req, ReopenIfFound(a, a, k, answer).value)
  {
    hide Good;
    if ReopenIfFound(a, a, k, answer) != Ok(a) {
      ReopenIsGood(req, a, a, k, answer.preference.value);
      ActiveIsLast(a.attempts, k);
    }
  }

  lemma {:induction false} ReconciliationIsSound(req: Request, a: Aggregate, k: nat, answer: Answer)
    requires Sound(req, a)
    ensures Sound(req, ReconcileAttempt(a, a, k, answer).0)
  {
    hide Sound, ApplyAll, ReopenIfFound;
    if ReopenIfFound(a, a, k, answer).Ok? {
      ReopenIsSound(req, a, k, answer);
      if answer.Answered? { ApplyAllIsSound(req, ReopenIfFound(a, a, k, answer).value, answer.payments); }
    }
  }

  lemma {:induction false} OrderCallsKeepAttempts(req: Request, a: Aggregate, op: Op)
    requires op.Assign? || op.Transit? || op.Resolve? || op.Conform?
    requires Tx(req, op, a, a, a).Ok?
    ensures Tx(req, op, a, a, a).value.attempts == a.attempts
  {
    hide AllowedFrom, VersionTaken;
  }

  lemma {:induction false} PerformIsSound(req: Request, a: Aggregate, call: Call)
    requires Sound(req, a)
    ensures Sound(req, Perform(req, a, call))
  {
    hide Good, Extends, Tx, ApplyTx, StartCheckout, ReconcileAttempt;
    match call
    case OrderCall(op) =>
      if (op.Assign? || op.Transit? || op.Resolve? || op.Conform?) && Tx(req, op, a, a, a).Ok? {
        ExtendsSelf(a);
        TxIsGood(req, op, a, a, a);
        OrderCallsKeepAttempts(req, a, op);
      }
    case Checkout(actor, reference, version, outcome) => CheckoutIsSound(req, a, actor, reference, version, outcome);
    case Payment(p) => if ApplyTx(a, a, a, p).Ok? { ApplyIsSound(req, a, p); }
    case Reconciliation(k, answer) => ReconciliationIsSound(req, a, k, answer);
  }

  function PerformAll(req: Request, calls: seq<Call>): Aggregate {
    if calls == [] then EMPTY else Perform(req, PerformAll(req, calls[..|calls| - 1]), calls[|calls| - 1])
  }

  lemma {:induction false} CallsAreSound(req: Request, calls: seq<Call>)
    ensures Sound(req, PerformAll(req, calls))
    decreases |calls|
  {
    hide Sound, Perform;
    if calls == [] {
      EmptyIsSound(req);
    } else {
      CallsAreSound(req, calls[..|calls| - 1]);
      PerformIsSound(req, PerformAll(req, calls[..|calls| - 1]), calls[|calls| - 1]);
    }
  }

  lemma {:induction false} EmptyIsSound(req: Request)
    ensures Sound(req, EMPTY)
  {
    EmptyIsGood(req);
  }

  /** After any sequence of whole calls: sequences 1..k, at most one attempt active, only the last may be active or
      approved, and every earlier one rejected or cancelled. */
  lemma {:induction false} AttemptsAfterCalls(req: Request, calls: seq<Call>)
    ensures var attempts := PerformAll(req, calls).attempts;
            (forall k :: 0 <= k < |attempts| ==> attempts[k].sequence == k + 1)
            && (forall k :: 0 <= k < |attempts| - 1 ==>
                 attempts[k].state == Rejected || attempts[k].state == CancelledPayment)
            && (forall j, k :: 0 <= j < k < |attempts| ==> attempts[j].reference != attempts[k].reference)
  {
    hide PerformAll;
    CallsAreSound(req, calls);
    var attempts := PerformAll(req, calls).attempts;
    forall k | 0 <= k < |attempts| ensures attempts[k].sequence == k + 1 { assert AttemptOk(attempts, k); }
  }

  // ---------------------------------------------------------------- the list of a reconciliation

  /** The first state among the payments' that ends an attempt; without one, the last reported. */
  function FirstTerminal(state: PaymentState, payments: seq<ProviderPayment>): PaymentState
    decreases |payments|
  {
    if payments == [] || Terminal(state) then state
    else FirstTerminal(StateFor(payments[0].status), payments[1..])
  }

  /** Payments of one attempt, for its charge. */
  predicate PaymentsOf(a: Aggregate, k: nat, payments: seq<ProviderPayment>)
    requires k < |a.attempts|
  {
    a.charge.Some?
    && forall i :: 0 <= i < |payments| ==>
         payments[i].externalReference == a.attempts[k].reference
         && payments[i].currency == a.charge.value.currency && payments[i].amount == a.charge.value.amount
  }

  lemma {:induction false} IndexOfIsUnique(attempts: seq<Attempt>, k: nat)
    requires AttemptsOk(attempts) && k < |attempts|
    ensures IndexOf(attempts, attempts[k].reference) == Some(k)
  {
  }

  /** One payment for a known attempt is never refused: it leaves an ended attempt alone and otherwise writes its
      status. */
  lemma {:induction false} ApplyToKnownAttempt(req: Request, a: Aggregate, k: nat, p: ProviderPayment)
    requires Good(req, a) && k < |a.attempts| && PaymentsOf(a, k, [p])
    ensures var r := ApplyTx(a, a, a, p);
            r.Ok? && (Terminal(a.attempts[k].state) ==> r.value == a)
            && (!Terminal(a.attempts[k].state) ==>
                 r.value.attempts == a.attempts[k := a.attempts[k].Write(StateFor(p.status))])
            && r.value.charge == a.charge
  {
    hide HistoryOk, WritersOk, OutboxOk, PaymentsOk, RejectionsOk, BillingOk, ApprovalsOk, IndexOf, VersionTaken;
    assert [p][0] == p;
    IndexOfIsUnique(a.attempts, k);
    if a.history != [] { FreshReadFindsVersionFree(a.history); }
  }

  /** Folding a provider's list over an attempt ends in the list's first terminal status; later entries change
      nothing. */
  lemma {:induction false} ListEndsInFirstTerminal(req: Request, a: Aggregate, k: nat, payments: seq<ProviderPayment>)
    requires Good(req, a) && k < |a.attempts| && PaymentsOf(a, k, payments)
    ensures var r := ApplyAll(a, payments);
            r.1 == |payments| && !r.2 && |r.0.attempts| == |a.attempts|
            && r.0.attempts[k].state == FirstTerminal(a.attempts[k].state, payments)
            && (forall j :: 0 <= j < |a.attempts| && j != k ==> r.0.attempts[j] == a.attempts[j])
    decreases |payments|
  {
    hide Good, Extends, ApplyTx;
    if payments != [] {
      assert PaymentsOf(a, k, [payments[0]]);
      ApplyToKnownAttempt(req, a, k, payments[0]);
      ExtendsSelf(a);
      ApplyIsGood(req, a, a, a, payments[0]);
      var b := ApplyTx(a, a, a, payments[0]).value;
      ListEndsInFirstTerminal(req, b, k, payments[1..]);
      if Terminal(a.attempts[k].state) { EndedStaysEnded(a.attempts[k].state, payments[1..]); }
    }
  }

  lemma {:induction false} EndedStaysEnded(state: PaymentState, payments: seq<ProviderPayment>)
    requires Terminal(state)
    ensures FirstTerminal(state, payments) == state
  {
  }
}
