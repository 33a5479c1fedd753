/** The published transition contract for work orders and payment attempts. */
module OrderStateMachine {
  import opened Wrappers

  datatype OrderState =
    | Requested | TechnicianAssigned | EnRoute | InService | WorkFinished
    | PaymentPending | ConformityPending | Closed | Cancelled

  datatype Action =
    | AssignTechnician | ReassignTechnician | Cancel | MarkEnRoute | StartService
    | FinishWork | CreateFixedPayment | ConfirmProviderPayment | ConfirmClientConformity

  datatype Transition = Transition(action: Action, from: OrderState, to: OrderState, requiresReason: bool)

  const ORDER_TRANSITIONS: seq<Transition> := [
    Transition(AssignTechnician, Requested, TechnicianAssigned, false),
    Transition(Cancel, Requested, Cancelled, true),
    Transition(ReassignTechnician, TechnicianAssigned, TechnicianAssigned, true),
    Transition(MarkEnRoute, TechnicianAssigned, EnRoute, false),
    Transition(StartService, TechnicianAssigned, InService, false),
    Transition(Cancel, TechnicianAssigned, Cancelled, true),
    Transition(StartService, EnRoute, InService, false),
    Transition(Cancel, EnRoute, Cancelled, true),
    Transition(FinishWork, InService, WorkFinished, false),
    Transition(CreateFixedPayment, WorkFinished, PaymentPending, false),
    Transition(ConfirmProviderPayment, PaymentPending, ConformityPending, false),
    Transition(ConfirmClientConformity, ConformityPending, Closed, false)
  ]

  /** The table read as a function of state and action; the lookups below are proved equal to it. */
  function Target(from: OrderState, action: Action): Option<OrderState> {
    match action
    case AssignTechnician => if from == Requested then Some(TechnicianAssigned) else None
    case ReassignTechnician => if from == TechnicianAssigned then Some(TechnicianAssigned) else None
    case Cancel => if from == Requested || from == TechnicianAssigned || from == EnRoute then Some(Cancelled) else None
    case MarkEnRoute => if from == TechnicianAssigned then Some(EnRoute) else None
    case StartService => if from == TechnicianAssigned || from == EnRoute then Some(InService) else None
    case FinishWork => if from == InService then Some(WorkFinished) else None
    case CreateFixedPayment => if from == WorkFinished then Some(PaymentPending) else None
    case ConfirmProviderPayment => if from == PaymentPending then Some(ConformityPending) else None
    case ConfirmClientConformity => if from == ConformityPending then Some(Closed) else None
  }

  predicate NeedsReason(action: Action) { action == Cancel || action == ReassignTechnician }

  predicate Permitted(from: OrderState, action: Action, to: OrderState) {
    Target(from, action) == Some(to)
  }

  /** The array search used by every lookup: the first row satisfying `wanted`. */
  function Find<T>(rows: seq<T>, wanted: T -> bool): (r: Option<T>)
    ensures r.Some? ==> r.value in rows && wanted(r.value)
    ensures r.None? ==> forall row :: row in rows ==> !wanted(row)
  {
    if rows == [] then None
    else if wanted(rows[0]) then Some(rows[0])
    else Find(rows[1..], wanted)
  }

  lemma {:induction false} RowsAreTargets(row: Transition)
    requires row in ORDER_TRANSITIONS
    ensures Permitted(row.from, row.action, row.to) && row.requiresReason == NeedsReason(row.action)
  {
    var i :| 0 <= i < |ORDER_TRANSITIONS| && ORDER_TRANSITIONS[i] == row;
    if i < 6 {
      assert row == [ORDER_TRANSITIONS[0], ORDER_TRANSITIONS[1], ORDER_TRANSITIONS[2],
                     ORDER_TRANSITIONS[3], ORDER_TRANSITIONS[4], ORDER_TRANSITIONS[5]][i];
    }
  }

  /** Where the table holds the row for a state and an action that has one. */
  function RowIndex(from: OrderState, action: Action): (i: nat)
    ensures i < 12
  {
    match action
    case AssignTechnician => 0
    case ReassignTechnician => 2
    case Cancel => if from == Requested then 1 else if from == TechnicianAssigned then 5 else 7
    case MarkEnRoute => 3
    case StartService => if from == TechnicianAssigned then 4 else 6
    case FinishWork => 8
    case CreateFixedPayment => 9
    case ConfirmProviderPayment => 10
    case ConfirmClientConformity => 11
  }

  lemma {:induction false} TargetsAreRows(from: OrderState, action: Action)
    requires Target(from, action).Some?
    ensures Transition(action, from, Target(from, action).value, NeedsReason(action)) in ORDER_TRANSITIONS
  {
    assert ORDER_TRANSITIONS[RowIndex(from, action)]
        == Transition(action, from, Target(from, action).value, NeedsReason(action));
  }

  /** The contract's lookup by source, target and, when given, action. */
  function FindOrderTransition(from: OrderState, to: OrderState, action: Option<Action>): (r: Option<Transition>)
    ensures r.Some? ==> r.value in ORDER_TRANSITIONS && Wanted(r.value, from, to, action)
    ensures r.None? ==> forall row :: row in ORDER_TRANSITIONS ==> !Wanted(row, from, to, action)
  {
    Find(ORDER_TRANSITIONS, (row: Transition) => Wanted(row, from, to, action))
  }

  predicate Wanted(row: Transition, from: OrderState, to: OrderState, action: Option<Action>) {
    row.from == from && row.to == to && (action.None? || row.action == action.value)
  }

  /** A lookup finds the one permitted transition asked for, and finds none only when none is permitted. */
  lemma {:induction false} LookupIsExact(from: OrderState, to: OrderState, action: Option<Action>)
    ensures var r := FindOrderTransition(from, to, action);
            if r.Some? then Permitted(from, r.value.action, to) && r.value.requiresReason == NeedsReason(r.value.action)
            else forall a :: action.None? || a == action.value ==> !Permitted(from, a, to)
  {
    hide *;
    var r := FindOrderTransition(from, to, action);
    if r.Some? {
      RowsAreTargets(r.value);
      FoundRow(r.value, from, to, action);
    } else {
      forall a | action.None? || a == action.value ensures !Permitted(from, a, to) {
        if Permitted(from, a, to) { PermittedIsFound(from, to, action, a); }
      }
    }
  }

  lemma {:induction false} FoundRow(row: Transition, from: OrderState, to: OrderState, action: Option<Action>)
    requires Wanted(row, from, to, action)
    ensures row.from == from && row.to == to
  {
  }

  lemma {:induction false} PermittedIsFound(from: OrderState, to: OrderState, action: Option<Action>, a: Action)
    requires Permitted(from, a, to) && (action.None? || a == action.value)
    ensures FindOrderTransition(from, to, action).Some?
  {
    hide Find;
    TargetsAreRows(from, a);
    assert Wanted(Transition(a, from, to, NeedsReason(a)), from, to, action);
  }

  /** The transition endpoint's lookup: by current state and requested action. */
  function AllowedFrom(from: OrderState, action: Action): (r: Option<Transition>)
    ensures r == if Target(from, action).None? then None
                 else Some(Transition(action, from, Target(from, action).value, NeedsReason(action)))
  {
    var r := Find(ORDER_TRANSITIONS, (row: Transition) => row.from == from && row.action == action);
    assert r.Some? ==> Target(from, action) == Some(r.value.to) && r.value.requiresReason == NeedsReason(action) by {
      if r.Some? { RowsAreTargets(r.value); }
    }
    assert r.None? ==> Target(from, action).None? by {
      if r.None? && Target(from, action).Some? { TargetsAreRows(from, action); }
    }
    r
  }

  /** How far an order has progressed; only a reassignment stays where it is. */
  function Rank(s: OrderState): nat {
    match s
    case Requested => 0
    case TechnicianAssigned => 1
    case EnRoute => 2
    case InService => 3
    case WorkFinished => 4
    case PaymentPending => 5
    case ConformityPending => 6
    case Closed => 7
    case Cancelled => 8
  }

  lemma {:induction false} PermittedProgress(from: OrderState, action: Action, to: OrderState)
    requires Permitted(from, action, to)
    ensures action != ReassignTechnician ==> Rank(from) < Rank(to)
    ensures action == ReassignTechnician ==> from == to == TechnicianAssigned
    ensures to == Cancelled ==> Rank(from) < Rank(InService)
    ensures from != Closed && from != Cancelled && to != Requested
  {
  }

  datatype PaymentState = Created | Unknown | Pending | Approved | Rejected | CancelledPayment

  /** The published payment table. The stored enumeration has one state more, `Unknown`, that no row mentions. */
  const PAYMENT_TRANSITIONS: seq<(PaymentState, PaymentState)> := [
    (Created, Pending), (Created, Approved), (Created, Rejected), (Created, CancelledPayment),
    (Pending, Approved), (Pending, Rejected), (Pending, CancelledPayment)
  ]

  predicate CanTransitionPayment(from: PaymentState, to: PaymentState) {
    exists i :: 0 <= i < |PAYMENT_TRANSITIONS| && PAYMENT_TRANSITIONS[i] == (from, to)
  }

  predicate Terminal(s: PaymentState) { s == Approved || s == Rejected || s == CancelledPayment }
  predicate Active(s: PaymentState) { s == Created || s == Unknown || s == Pending }
}
