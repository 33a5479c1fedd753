/** Runs of one order that show where a promise fails: an approved attempt that is overwritten by a late reply, moves
    of an attempt outside the payment table, two approved attempts of one order, an order that is closed without
    payment or conformity, and a resolution refused for a mismatch of a key that was never used. */
module Witnesses {
  import opened Wrappers
  import opened OrderStateMachine
  import opened WorkOrder
  import opened WorkOrderInvariant
  import opened WorkOrderSteps
  import opened Ledger
  import opened LedgerTheorems
  import opened OrderReplies
  import opened Confirmations
  import opened PaymentTable

  const OPERATOR := Actor("dispatcher", Dispatcher)
  const CLIENT := Actor("client", Client)
  const DEMO := Request("request", "client", "visit", 1, "ARS", 5000)
  const PAID := ProviderPayment("payment", StatusApproved, "reference", "ARS", 5000)
  const DONE := Resolution(ResolvedOnVisit, "done")

  function Step(action: Action, version: int): Op {
    Transit(OPERATOR, TransitionInput(action, version, None, None, false))
  }

  const R1 := HistoryRow(ByAssign, Some("dispatcher"), Some("t"), AssignTechnician, Requested, TechnicianAssigned,
                         None, 1)
  const R2 := HistoryRow(ByTransition, Some("dispatcher"), Some("t"), StartService, TechnicianAssigned, InService,
                         None, 2)
  const R3 := HistoryRow(ByTransition, Some("dispatcher"), Some("t"), FinishWork, InService, WorkFinished, None, 3)
  const R4 := HistoryRow(ByResolve, Some("dispatcher"), None, CreateFixedPayment, WorkFinished, PaymentPending, None, 4)

  /** The order before its payment is created, after `row`. */
  function Before(rows: seq<HistoryRow>, row: HistoryRow): Aggregate {
    Aggregate(Some(OrderRow(row.to, row.version, Some("t"))), rows + [row], None, None, [], None, [AssignmentChanged])
  }

  /** The order with its payment created and the given attempts. */
  function Charged(attempts: seq<Attempt>): (a: Aggregate)
    ensures a.attempts == attempts
  {
    Aggregate(Some(OrderRow(PaymentPending, 4, Some("t"))), [R1, R2, R3, R4], Some(DONE),
              Some(Charge("visit", 1, "ARS", 5000)), attempts, None, [AssignmentChanged])
  }

  lemma {:induction false} Assigned()
    ensures Tx(DEMO, Assign(OPERATOR, "key", "t", true, true), EMPTY, EMPTY, EMPTY) == Ok(Before([], R1))
  {
    assert EMPTY.outbox + [AssignmentChanged] == [AssignmentChanged];
  }

  lemma {:induction false} Moved(rows: seq<HistoryRow>, row: HistoryRow, next: HistoryRow)
    requires forall i :: 0 <= i < |rows + [row]| ==> (rows + [row])[i].version != next.version
    requires next == HistoryRow(ByTransition, Some("dispatcher"), Some("t"), next.action, row.to, next.to, None,
                                row.version + 1)
    requires Target(row.to, next.action) == Some(next.to) && TransitionEvents(next.action) == []
    requires !NeedsReason(next.action) && next.action != AssignTechnician && next.action != CreateFixedPayment
    ensures Tx(DEMO, Step(next.action, row.version), Before(rows, row), Before(rows, row), Before(rows, row))
         == Ok(Before(rows + [row], next))
  {
    hide TransitionTx, Target, TransitionEvents;
    var x := Before(rows, row);
    TransitionRules(x, x, OPERATOR, Step(next.action, row.version).input);
    assert x.outbox + [] == x.outbox;
  }

  lemma {:induction false} Resolved()
    ensures var finished := Before([R1] + [R2], R3);
            Tx(DEMO, Resolve(OPERATOR, "key", Payload(DONE, 3)), finished, finished, finished) == Ok(Charged([]))
  {
    var x := Before([R1] + [R2], R3);
    assert x.history == [R1, R2, R3] && x.history + [R4] == [R1, R2, R3, R4];
    assert x.outbox + [] == x.outbox;
  }

  const OPENED := Attempt(1, "reference", Created, None, [Created])

  lemma {:induction false} Opened()
    ensures Tx(DEMO, OpenAttempt(CLIENT, "reference", 4), Charged([]), Charged([]), Charged([]))
         == Ok(Charged([OPENED]))
  {
    assert [] + [OPENED] == [OPENED];
  }

  /** The order after the approval by `p`: it has advanced. */
  function Advanced(attempts: seq<Attempt>, p: ProviderPayment): (a: Aggregate)
    ensures a.attempts == attempts && InState(a, {ConformityPending})
  {
    Charged(attempts).(
      order := Some(OrderRow(ConformityPending, 5, Some("t"))),
      history := [R1, R2, R3, R4]
                 + [HistoryRow(ByProvider(p), None, None, ConfirmProviderPayment,
                               PaymentPending, ConformityPending, None, 5)],
      outbox := [AssignmentChanged] + [PaymentApproved])
  }

  /** An approved payment for an active attempt of the charged order. */
  lemma {:induction false} Approves(attempts: seq<Attempt>, k: nat, p: ProviderPayment)
    requires IndexOf(attempts, p.externalReference) == Some(k) && Active(attempts[k].state)
    requires p.status == StatusApproved && p.currency == "ARS" && p.amount == 5000
    ensures Tx(DEMO, ApplyPayment(p), Charged(attempts), Charged(attempts), Charged(attempts))
         == Ok(Advanced(attempts[k := attempts[k].Write(Approved)], p))
  {
  }

  function Paid(): Aggregate { Advanced([OPENED.Write(Approved)], PAID) }

  lemma {:induction false} ApprovedStep()
    ensures Tx(DEMO, ApplyPayment(PAID), Charged([OPENED]), Charged([OPENED]), Charged([OPENED])) == Ok(Paid())
  {
    hide Tx, Charged, Advanced;
    assert IndexOf([OPENED], "reference") == Some(0);
    Approves([OPENED], 0, PAID);
    assert [OPENED][0 := OPENED.Write(Approved)] == [OPENED.Write(Approved)];
  }

  lemma {:induction false} LateReply()
    ensures Tx(DEMO, SettleCheckout(0, PreferenceUnknown), Charged([OPENED]), Charged([OPENED]), Paid())
         == Ok(Advanced([OPENED.Write(Approved).Write(Unknown)], PAID))
  {
    var a := OPENED.Write(Approved);
    assert [a][0 := a.Write(Unknown)] == [a.Write(Unknown)];
  }

  /** One commit appended to a run, when the order's transaction succeeds. */
  lemma {:induction false} Extend(reqs: Requests, schedule: seq<Commit>, c: Commit, a: Aggregate)
    requires c.request == "request" && c.firstRead == c.secondRead <= |schedule|
    requires !KeyUsed(c.op, Run(reqs, schedule)[c.firstRead]) && !KeyUsed(c.op, Run(reqs, schedule)[|schedule|])
    requires var read := At(Run(reqs, schedule)[c.firstRead], "request");
             Tx(reqs("request"), c.op, read, read, At(Run(reqs, schedule)[|schedule|], "request")) == Ok(a)
    ensures At(Run(reqs, schedule + [c])[|schedule| + 1], "request") == a
    ensures Run(reqs, schedule + [c])[..|schedule| + 1] == Run(reqs, schedule)
    ensures !c.op.Assign? ==>
              Run(reqs, schedule + [c])[|schedule| + 1].assignments == Run(reqs, schedule)[|schedule|].assignments
    ensures !c.op.Resolve? ==>
              Run(reqs, schedule + [c])[|schedule| + 1].commands == Run(reqs, schedule)[|schedule|].commands
  {
    hide Tx;
    RunAppends(reqs, schedule, c);
  }

  function Fresh(op: Op, at: nat): Commit { Commit("request", op, at, at) }

  const ASSIGN := Fresh(Assign(OPERATOR, "key", "t", true, true), 0)
  const START := Fresh(Step(StartService, 1), 1)
  const FINISH := Fresh(Step(FinishWork, 2), 2)
  const RESOLVE := Fresh(Resolve(OPERATOR, "key", Payload(DONE, 3)), 3)
  const OPEN := Fresh(OpenAttempt(CLIENT, "reference", 4), 4)
  const PAY := Fresh(ApplyPayment(PAID), 5)
  /** The checkout read the attempt right after opening it; its reply commits after the approval. */
  const REPLY := Fresh(SettleCheckout(0, PreferenceUnknown), 5)

  /** The work is finished after three commits, and no resolution key is in use. */
  lemma {:induction false} ReachFinished(reqs: Requests) returns (schedule: seq<Commit>)
    requires reqs("request") == DEMO
    ensures |schedule| == 3 && At(Run(reqs, schedule)[3], "request") == Before([R1] + [R2], R3)
    ensures Run(reqs, schedule)[3].commands == map[]
  {
    hide Tx, Before, Run, NextState;
    RunOfNothing(reqs);
    Assigned();
    Extend(reqs, [], ASSIGN, Before([], R1));
    Moved([], R1, R2);
    Extend(reqs, [] + [ASSIGN], START, Before([] + [R1], R2));
    Moved([] + [R1], R2, R3);
    Extend(reqs, [] + [ASSIGN] + [START], FINISH, Before([] + [R1] + [R2], R3));
    assert [] + [R1] + [R2] == [R1] + [R2];
    schedule := [] + [ASSIGN] + [START] + [FINISH];
  }

  lemma {:induction false} ReachPayment(reqs: Requests) returns (schedule: seq<Commit>)
    requires reqs("request") == DEMO
    ensures |schedule| == 4 && At(Run(reqs, schedule)[4], "request") == Charged([])
  {
    hide Tx, Before, Charged, Run, NextState;
    var first := ReachFinished(reqs);
    Resolved();
    Extend(reqs, first, RESOLVE, Charged([]));
    schedule := first + [RESOLVE];
  }

  lemma {:induction false} RunOfNothing(reqs: Requests)
    ensures Run(reqs, []) == [EMPTY_DB]
  {
  }

  /** An approved attempt can leave its ended state: some run approves attempt 0, advances the order,
      and then overwrites the attempt with UNKNOWN. */
  lemma {:induction false} ApprovedAttemptIsOverwritten(reqs: Requests) returns (schedule: seq<Commit>)
    requires reqs("request") == DEMO
    ensures |schedule| == 7
    ensures var approved, late := OrderIn(reqs, schedule, 6, "request"), OrderIn(reqs, schedule, 7, "request");
            |approved.attempts| == |late.attempts| == 1
            && approved.attempts[0].state == Approved && late.attempts[0].state == Unknown
            && InState(late, {ConformityPending})
  {
    hide Tx, Charged, Advanced, Run, NextState;
    var first := ReachPayment(reqs);
    Opened();
    Extend(reqs, first, OPEN, Charged([OPENED]));
    ApprovedStep();
    Extend(reqs, first + [OPEN], PAY, Paid());
    LateReply();
    Extend(reqs, first + [OPEN] + [PAY], REPLY, Advanced([OPENED.Write(Approved).Write(Unknown)], PAID));
    schedule := first + [OPEN] + [PAY] + [REPLY];
    assert Run(reqs, schedule)[6] == Run(reqs, schedule)[..7][6];
  }

  // ---------------------------------------------------------------- outside the payment table

  const UNSURE := OPENED.Write(Unknown)

  lemma {:induction false} UncertainStep()
    ensures Tx(DEMO, REPLY.op, Charged([OPENED]), Charged([OPENED]), Charged([OPENED])) == Ok(Charged([UNSURE]))
  {
    assert [OPENED][0 := UNSURE] == [UNSURE];
  }

  lemma {:induction false} UncertainApproved()
    ensures Tx(DEMO, ApplyPayment(PAID), Charged([UNSURE]), Charged([UNSURE]), Charged([UNSURE]))
         == Ok(Advanced([UNSURE.Write(Approved)], PAID))
  {
    hide Tx, Charged, Advanced;
    assert IndexOf([UNSURE], "reference") == Some(0);
    Approves([UNSURE], 0, PAID);
    assert [UNSURE][0 := UNSURE.Write(Approved)] == [UNSURE.Write(Approved)];
  }

  lemma {:induction false} UncertainIsOffTable()
    ensures !CanTransitionPayment(Created, Unknown) && !CanTransitionPayment(Unknown, Approved)
  {
    TableRows(Created, Unknown);
    TableRows(Unknown, Approved);
  }

  /** Attempts leave the published table: some run writes CREATED to UNKNOWN when the answer of the provider is
      uncertain, and UNKNOWN to APPROVED when the payment is reported, and neither move is a row. */
  lemma {:induction false} PaymentOutsideTheTable(reqs: Requests) returns (schedule: seq<Commit>)
    requires reqs("request") == DEMO
    ensures |schedule| == 7
    ensures var opening, unsure, paid := OrderIn(reqs, schedule, 5, "request").attempts,
                                         OrderIn(reqs, schedule, 6, "request").attempts,
                                         OrderIn(reqs, schedule, 7, "request").attempts;
            |opening| == |unsure| == |paid| == 1
            && opening[0].state == Created && unsure[0].state == Unknown && paid[0].state == Approved
            && !CanTransitionPayment(Created, Unknown) && !CanTransitionPayment(Unknown, Approved)
  {
    hide Tx, Charged, Advanced, Run, NextState, CanTransitionPayment;
    var first := ReachPayment(reqs);
    Opened();
    Extend(reqs, first, OPEN, Charged([OPENED]));
    UncertainStep();
    Extend(reqs, first + [OPEN], REPLY, Charged([UNSURE]));
    UncertainApproved();
    var pay := Fresh(ApplyPayment(PAID), 6);
    Extend(reqs, first + [OPEN] + [REPLY], pay, Advanced([UNSURE.Write(Approved)], PAID));
    schedule := first + [OPEN] + [REPLY] + [pay];
    assert Run(reqs, schedule)[6] == Run(reqs, schedule)[..7][6];
    assert Run(reqs, schedule)[5] == Run(reqs, schedule)[..7][5] == Run(reqs, first + [OPEN] + [REPLY])[..6][5];
    UncertainIsOffTable();
  }

  // ---------------------------------------------------------------- two approved attempts

  const DROPPED := OPENED.Write(CancelledPayment)
  const SECOND := Attempt(2, "second", Created, None, [Created])
  const CANCELLED := PAID.(status := StatusCancelled)
  const PAID_SECOND := PAID.(externalReference := "second")

  lemma {:induction false} References(t: Attempt, u: Attempt)
    requires t.reference == "reference" && u.reference == "second"
    ensures IndexOf([t, u], "reference") == Some(0) && IndexOf([t, u], "second") == Some(1)
            && IndexOf([t], "reference") == Some(0) && IndexOf([t], "second") == None
  {
    assert [t][0] == t && [t, u][0] == t && [t, u][1] == u && "reference"[0] != "second"[0];
  }

  lemma {:induction false} DroppedStep()
    ensures Tx(DEMO, ApplyPayment(CANCELLED), Charged([OPENED]), Charged([OPENED]), Charged([OPENED]))
         == Ok(Charged([DROPPED]))
  {
    References(OPENED, SECOND);
    assert [OPENED][0 := DROPPED] == [DROPPED];
  }

  lemma {:induction false} SecondOpened()
    ensures Tx(DEMO, OpenAttempt(CLIENT, "second", 4), Charged([DROPPED]), Charged([DROPPED]), Charged([DROPPED]))
         == Ok(Charged([DROPPED, SECOND]))
  {
    References(DROPPED, SECOND);
    assert [DROPPED] + [SECOND] == [DROPPED, SECOND];
  }

  lemma {:induction false} SecondApproved()
    ensures var a := Charged([DROPPED, SECOND]);
            Tx(DEMO, ApplyPayment(PAID_SECOND), a, a, a)
            == Ok(Advanced([DROPPED, SECOND.Write(Approved)], PAID_SECOND))
  {
    hide Tx, Charged, Advanced;
    References(DROPPED, SECOND);
    Approves([DROPPED, SECOND], 1, PAID_SECOND);
    assert [DROPPED, SECOND][1 := SECOND.Write(Approved)] == [DROPPED, SECOND.Write(Approved)];
  }

  lemma {:induction false} DroppedRevived()
    ensures Tx(DEMO, REPLY.op, Charged([OPENED]), Charged([OPENED]),
               Advanced([DROPPED, SECOND.Write(Approved)], PAID_SECOND))
         == Ok(Advanced([DROPPED.Write(Unknown), SECOND.Write(Approved)], PAID_SECOND))
  {
    var u := SECOND.Write(Approved);
    assert [DROPPED, u][0 := DROPPED.Write(Unknown)] == [DROPPED.Write(Unknown), u];
  }

  lemma {:induction false} FirstApproved()
    ensures var a := Advanced([DROPPED.Write(Unknown), SECOND.Write(Approved)], PAID_SECOND);
            Tx(DEMO, ApplyPayment(PAID), a, a, a)
            == Ok(Advanced([DROPPED.Write(Unknown).Write(Approved), SECOND.Write(Approved)], PAID_SECOND))
  {
    var t, u := DROPPED.Write(Unknown), SECOND.Write(Approved);
    References(t, u);
    assert [t, u][0 := t.Write(Approved)] == [t.Write(Approved), u];
  }

  lemma {:induction false} OneApprovalEvent(attempts: seq<Attempt>, p: ProviderPayment)
    ensures Count(Advanced(attempts, p).outbox, PaymentApproved) == 1
  {
    var events := [AssignmentChanged] + [PaymentApproved];
    assert events[..1] == [AssignmentChanged] && [AssignmentChanged][..0] == [];
  }

  /** Two attempts of one order can be approved, with one event: some run cancels the first attempt, approves the
      second, revives the first by the late reply of its checkout, and then applies an approved payment to it. */
  lemma {:induction false} TwoApprovedAttempts(reqs: Requests) returns (schedule: seq<Commit>)
    requires reqs("request") == DEMO
    ensures |schedule| == 10
    ensures var late := OrderIn(reqs, schedule, 10, "request");
            |late.attempts| == 2 && late.attempts[0].state == late.attempts[1].state == Approved
            && Count(late.outbox, PaymentApproved) == 1
  {
    hide Tx, Charged, Advanced, Run, NextState, Count;
    var six := ReachDropped(reqs);
    var open, pay, again := Fresh(OpenAttempt(CLIENT, "second", 4), 6), Fresh(ApplyPayment(PAID_SECOND), 7),
                            Fresh(ApplyPayment(PAID), 9);
    SecondOpened();
    Extend(reqs, six, open, Charged([DROPPED, SECOND]));
    SecondApproved();
    Extend(reqs, six + [open], pay, Advanced([DROPPED, SECOND.Write(Approved)], PAID_SECOND));
    var eight := six + [open] + [pay];
    assert Run(reqs, eight)[5] == Run(reqs, eight)[..8][5] == Run(reqs, six + [open])[..7][5];
    DroppedRevived();
    Extend(reqs, eight, REPLY, Advanced([DROPPED.Write(Unknown), SECOND.Write(Approved)], PAID_SECOND));
    FirstApproved();
    var both := [DROPPED.Write(Unknown).Write(Approved), SECOND.Write(Approved)];
    Extend(reqs, eight + [REPLY], again, Advanced(both, PAID_SECOND));
    OneApprovalEvent(both, PAID_SECOND);
    schedule := eight + [REPLY] + [again];
  }

  /** The first attempt has been reported cancelled while its checkout, which read it in state 5, is still waiting. */
  lemma {:induction false} ReachDropped(reqs: Requests) returns (schedule: seq<Commit>)
    requires reqs("request") == DEMO
    ensures |schedule| == 6 && At(Run(reqs, schedule)[5], "request") == Charged([OPENED])
    ensures At(Run(reqs, schedule)[6], "request") == Charged([DROPPED])
  {
    hide Tx, Charged, Run, NextState;
    var first := ReachPayment(reqs);
    Opened();
    Extend(reqs, first, OPEN, Charged([OPENED]));
    var cancel := Fresh(ApplyPayment(CANCELLED), 5);
    DroppedStep();
    Extend(reqs, first + [OPEN], cancel, Charged([DROPPED]));
    schedule := first + [OPEN] + [cancel];
    assert Run(reqs, schedule)[5] == Run(reqs, schedule)[..6][5];
  }

  // ---------------------------------------------------------------- confirmations by hand

  const R5 := HistoryRow(ByTransition, Some("dispatcher"), Some("t"), ConfirmProviderPayment, PaymentPending,
                         ConformityPending, None, 5)
  const R6 := HistoryRow(ByTransition, Some("dispatcher"), Some("t"), ConfirmClientConformity, ConformityPending,
                         Closed, None, 6)

  /** The charged order without any attempt, after confirmations by hand. */
  function Waved(rows: seq<HistoryRow>, row: HistoryRow): Aggregate {
    Charged([]).(order := Some(OrderRow(row.to, row.version, Some("t"))), history := [R1, R2, R3, R4] + rows + [row])
  }

  lemma {:induction false} WavedPast()
    ensures Tx(DEMO, Step(ConfirmProviderPayment, 4), Charged([]), Charged([]), Charged([])) == Ok(Waved([], R5))
  {
    hide TransitionTx;
    var x := Charged([]);
    TransitionRules(x, x, OPERATOR, Step(ConfirmProviderPayment, 4).input);
    assert x.outbox + [] == x.outbox && [R1, R2, R3, R4] + [] == [R1, R2, R3, R4];
  }

  lemma {:induction false} WavedClosed()
    ensures Tx(DEMO, Step(ConfirmClientConformity, 5), Waved([], R5), Waved([], R5), Waved([], R5))
         == Ok(Waved([] + [R5], R6))
  {
    hide TransitionTx;
    var x := Waved([], R5);
    TransitionRules(x, x, OPERATOR, Step(ConfirmClientConformity, 5).input);
    assert x.outbox + [] == x.outbox;
    assert [R1, R2, R3, R4] + [] + [R5] == [R1, R2, R3, R4] + ([] + [R5]);
  }

  const WAVE := Fresh(Step(ConfirmProviderPayment, 4), 4)
  const CLOSE := Fresh(Step(ConfirmClientConformity, 5), 5)

  lemma {:induction false} WavedRows()
    ensures var a, b := Waved([], R5), Waved([] + [R5], R6);
            InState(a, {ConformityPending}) && InState(b, {Closed}) && !ProviderRow(a.history)
            && !ProviderRow(b.history)
            && a.attempts == b.attempts == [] && b.conformity.None?
            && PaymentApproved !in b.outbox && OrderClosed !in b.outbox
  {
  }

  /** An order can go past its payment and be closed with no payment attempt at all, no conformity, and neither event:
      some run of six calls of the operator does so by the generic transition endpoint. */
  lemma {:induction false} UnpaidOrderIsClosed(reqs: Requests) returns (schedule: seq<Commit>)
    requires reqs("request") == DEMO
    ensures |schedule| == 6
    ensures var waved, late := OrderIn(reqs, schedule, 5, "request"), OrderIn(reqs, schedule, 6, "request");
            InState(waved, {ConformityPending}) && waved.attempts == [] && !ProviderRow(waved.history)
            && InState(late, {Closed}) && late.attempts == [] && late.conformity.None? && !ProviderRow(late.history)
            && PaymentApproved !in late.outbox && OrderClosed !in late.outbox
  {
    hide Tx, Charged, Run, NextState, Waved;
    var first := ReachPayment(reqs);
    WavedPast();
    Extend(reqs, first, WAVE, Waved([], R5));
    WavedClosed();
    Extend(reqs, first + [WAVE], CLOSE, Waved([] + [R5], R6));
    WavedRows();
    schedule := first + [WAVE] + [CLOSE];
    assert Run(reqs, schedule)[5] == Run(reqs, schedule)[..6][5];
  }

  // ---------------------------------------------------------------- racing resolutions

  const RIVAL := Fresh(Resolve(Actor("admin", Admin), "other", Payload(DONE, 3)), 3)

  /** A caller can be told IDEMPOTENCY_PAYLOAD_MISMATCH although nobody ever used its key: some run has two
      resolutions of one order that were both read before either committed. */
  lemma {:induction false} MismatchOfUnusedKey(reqs: Requests) returns (schedule: seq<Commit>)
    requires reqs("request") == DEMO
    ensures |schedule| == 5 && schedule[3] == RESOLVE && schedule[4] == RIVAL
    ensures var states := Run(reqs, schedule);
            ResolveReply(DEMO, states[3], states[3], states[4], states[5], "request", RIVAL.op)
            == Refused(PayloadMismatch)
            && !KeyUsed(RIVAL.op, states[5])
  {
    hide Run, ResolveReply, NextState;
    var first := ReachFinished(reqs);
    SecondResolverIsRefused(reqs, first, RESOLVE, RIVAL);
    schedule := first + [RESOLVE] + [RIVAL];
  }
}
