/** Only an approved payment is promised to move an order past its payment, and only the client's conformity to close
    it. The generic transition endpoint accepts both confirmations too: a run in which it does so for an unpaid order,
    and exactly when the promise holds. */
module Confirmations {
  import opened Wrappers
  import opened OrderStateMachine
  import opened WorkOrder
  import opened WorkOrderInvariant
  import opened WorkOrderSteps
  import opened OrderHistory
  import opened Ledger
  import opened LedgerTheorems

  /** An action recorded by the generic transition endpoint. */
  predicate ByHand(history: seq<HistoryRow>, action: Action) {
    exists i :: 0 <= i < |history| && history[i].writer == ByTransition && history[i].action == action
  }

  predicate ProviderRow(history: seq<HistoryRow>) {
    exists i :: 0 <= i < |history| && history[i].writer.ByProvider?
  }

  // ---------------------------------------------------------------- what the history says

  lemma {:induction false} SettledStates(a: Aggregate)
    requires OrderMatches(a) && a.history != []
    ensures Settled(a) <==> Rank(ConformityPending) <= Rank(StateAfter(a.history)) <= Rank(Closed)
    ensures InState(a, {Closed}) <==> Rank(Closed) <= Rank(StateAfter(a.history)) <= Rank(Closed)
  {
    hide LastTechnician;
  }

  /** Who may have written a confirmation. */
  lemma {:induction false} ConfirmationWriters(row: HistoryRow)
    requires WriterOk(row)
    ensures row.action == ConfirmProviderPayment
       <==> row.writer.ByProvider? || (row.writer == ByTransition && row.action == ConfirmProviderPayment)
    ensures row.action == ConfirmClientConformity
       <==> row.writer == ByConformity || (row.writer == ByTransition && row.action == ConfirmClientConformity)
  {
  }

  /** Past its payment an order has a provider's row or a row written by hand, never both. */
  lemma {:induction false} PaidOrByHand(history: seq<HistoryRow>)
    requires HistoryOk(history) && WritersOk(history) && HasAction(history, ConfirmProviderPayment)
    ensures ProviderRow(history) <==> !ByHand(history, ConfirmProviderPayment)
  {
    hide HistoryOk, WriterOk;
    var i :| 0 <= i < |history| && history[i].action == ConfirmProviderPayment;
    ConfirmationWriters(history[i]);
    if ProviderRow(history) && ByHand(history, ConfirmProviderPayment) {
      var j :| 0 <= j < |history| && history[j].writer.ByProvider?;
      var k :| 0 <= k < |history| && history[k].writer == ByTransition && history[k].action == ConfirmProviderPayment;
      ConfirmationWriters(history[j]);
      Once(history, j, k);
    }
  }

  lemma {:induction false} ConformOrByHand(history: seq<HistoryRow>)
    requires HistoryOk(history) && WritersOk(history) && HasAction(history, ConfirmClientConformity)
    ensures ConformityRow(history) <==> !ByHand(history, ConfirmClientConformity)
  {
    hide HistoryOk, WriterOk;
    var i :| 0 <= i < |history| && history[i].action == ConfirmClientConformity;
    ConfirmationWriters(history[i]);
    if ConformityRow(history) && ByHand(history, ConfirmClientConformity) {
      var j :| 0 <= j < |history| && history[j].writer == ByConformity;
      var k :| 0 <= k < |history| && history[k].writer == ByTransition && history[k].action == ConfirmClientConformity;
      ConfirmationWriters(history[j]);
      Once(history, j, k);
    }
  }

  lemma {:induction false} Once(history: seq<HistoryRow>, j: nat, k: nat)
    requires HistoryOk(history) && j < |history| && k < |history|
             && history[j].action == history[k].action != ReassignTechnician
    ensures j == k
  {
    if j < k { ActionsAreNotRepeated(history, j, k); }
    if k < j { ActionsAreNotRepeated(history, k, j); }
  }

  /** Without the confirming action nobody wrote it. */
  lemma {:induction false} NoConfirmation(history: seq<HistoryRow>)
    requires WritersOk(history)
    ensures ProviderRow(history) || ByHand(history, ConfirmProviderPayment) ==>
              HasAction(history, ConfirmProviderPayment)
  {
    hide WriterOk;
    if ProviderRow(history) {
      var j :| 0 <= j < |history| && history[j].writer.ByProvider?;
      ConfirmationWriters(history[j]);
    }
  }

  // ---------------------------------------------------------------- in every run

  /** The payment promise, exactly. In every reachable state of every interleaving an order that is past its payment
      was paid, with a provider's row, one `payment.approved` event and an attempt of its own that was written
      APPROVED for a payment matching the charge, if and only if nobody confirmed the payment by hand. An order not
      past its payment has neither row. */
  lemma {:induction false} PaidUnlessByHand(reqs: Requests, schedule: seq<Commit>, i: nat, request: string)
    requires i <= |schedule|
    ensures var a := OrderIn(reqs, schedule, i, request);
            (Settled(a) ==> (ProviderRow(a.history) <==> !ByHand(a.history, ConfirmProviderPayment)))
            && (!Settled(a) ==> !ProviderRow(a.history) && !ByHand(a.history, ConfirmProviderPayment))
            && (ProviderRow(a.history) <==> Count(a.outbox, PaymentApproved) == 1)
            && (forall j :: 0 <= j < |a.history| && a.history[j].writer.ByProvider? ==>
                  Credited(a.attempts, a.history[j].writer.payment)
                  && a.history[j].writer.payment.currency == "ARS"
                  && a.history[j].writer.payment.amount == reqs(request).amount)
  {
    hide Run, HistoryOk, WritersOk, Count, ProviderRows, LastTechnician, EventsOf, WithoutRejections, RejectionsIn;
    hide Credited;
    OrderIsGood(reqs, schedule, i, request);
    var a := OrderIn(reqs, schedule, i, request);
    ProviderConfirmsOnce(reqs, schedule, i, request);
    ProviderRowsCount(a.history);
    NoConfirmation(a.history);
    if a.history != [] {
      SettledStates(a);
      StageReached(a.history, ConfirmProviderPayment);
      if HasAction(a.history, ConfirmProviderPayment) { PaidOrByHand(a.history); }
    }
  }

  lemma {:induction false} ProviderRowsCount(history: seq<HistoryRow>)
    ensures ProviderRow(history) <==> ProviderRows(history) >= 1
  {
    if history != [] {
      var n := |history| - 1;
      ProviderRowsCount(history[..n]);
      if ProviderRow(history[..n]) {
        var j :| 0 <= j < n && history[..n][j].writer.ByProvider?;
        assert history[j].writer.ByProvider?;
      }
      if ProviderRow(history) {
        var j :| 0 <= j <= n && history[j].writer.ByProvider?;
        assert j < n ==> history[..n][j].writer.ByProvider?;
      }
    }
  }

  /** The conformity promise, exactly: a closed order has its client's conformity if and only if nobody closed it by
      hand. */
  lemma {:induction false} ConformUnlessByHand(reqs: Requests, schedule: seq<Commit>, i: nat, request: string)
    requires i <= |schedule|
    ensures var a := OrderIn(reqs, schedule, i, request);
            InState(a, {Closed}) ==> (a.conformity.Some? <==> !ByHand(a.history, ConfirmClientConformity))
  {
    hide Run, HistoryOk, WritersOk, Count, LastTechnician, EventsOf, WithoutRejections, RejectionsIn, CreditsOk;
    OrderIsGood(reqs, schedule, i, request);
    var a := OrderIn(reqs, schedule, i, request);
    if InState(a, {Closed}) {
      SettledStates(a);
      StageReached(a.history, ConfirmClientConformity);
      ConformOrByHand(a.history);
    }
  }

  // ---------------------------------------------------------------- which calls break it

  /** The row a transaction adds, if any: a transition's is its own action. */
  lemma {:induction false} NewRow(req: Request, op: Op, first: Aggregate, second: Aggregate, now: Aggregate)
    returns (row: HistoryRow)
    requires Tx(req, op, first, second, now).Ok?
    ensures var next := Tx(req, op, first, second, now).value;
            next.history == now.history
            || (next.history == now.history + [row] && (row.writer == ByTransition <==> op.Transit?)
                && (op.Transit? ==> row.action == op.input.action))
  {
    hide AllowedFrom, VersionTaken, IndexOf, ActiveIndex, SequenceTaken, NoOtherActive;
    var next := Tx(req, op, first, second, now).value;
    row := if next.history != [] then next.history[|next.history| - 1]
           else HistoryRow(ByConformity, None, None, Cancel, Requested, Requested, None, 0);
  }

  /** A transition of the schedule that took effect on the order with the given action. */
  predicate TookEffect(reqs: Requests, schedule: seq<Commit>, request: string, action: Action, i: nat)
    requires i < |schedule|
  {
    schedule[i].request == request && schedule[i].op.Transit? && schedule[i].op.input.action == action
    && OrderIn(reqs, schedule, i + 1, request).history != OrderIn(reqs, schedule, i, request).history
  }

  lemma {:induction false} ByHandSnoc(history: seq<HistoryRow>, row: HistoryRow, action: Action)
    ensures ByHand(history + [row], action)
       <==> ByHand(history, action) || (row.writer == ByTransition && row.action == action)
  {
    var all := history + [row];
    assert all[|history|] == row;
    if ByHand(history, action) {
      var i :| 0 <= i < |history| && history[i].writer == ByTransition && history[i].action == action;
      assert all[i] == history[i];
    }
    if ByHand(all, action) {
      var i :| 0 <= i < |all| && all[i].writer == ByTransition && all[i].action == action;
      assert i < |history| ==> all[i] == history[i];
    }
  }

  /** One commit adds a row by hand exactly if it is a transition with that action that takes effect. */
  lemma {:induction false} HandStep(reqs: Requests, schedule: seq<Commit>, n: nat, request: string, action: Action)
    requires n < |schedule|
    ensures ByHand(OrderIn(reqs, schedule, n + 1, request).history, action)
       <==> ByHand(OrderIn(reqs, schedule, n, request).history, action)
            || TookEffect(reqs, schedule, request, action, n)
  {
    hide Run, Tx, ByHand, NextState;
    var states, c := Run(reqs, schedule), schedule[n];
    RunStep(reqs, schedule, n);
    CommitIsLocal(reqs, states[..n + 1], c, request);
    var now, next := OrderIn(reqs, schedule, n, request), OrderIn(reqs, schedule, n + 1, request);
    assert states[..n + 1][n] == states[n];
    if next.history != now.history {
      var first, second := At(states[..n + 1][c.firstRead], request), At(states[..n + 1][c.secondRead], request);
      var row := NewRow(reqs(request), c.op, first, second, now);
      ByHandSnoc(now.history, row, action);
    }
  }

  /** An order bears the mark of a confirmation by hand exactly if some transition of the schedule confirmed it with
      effect. */
  lemma {:induction false} HandsAreCalls(reqs: Requests, schedule: seq<Commit>, n: nat, request: string, action: Action)
    requires n <= |schedule|
    ensures ByHand(OrderIn(reqs, schedule, n, request).history, action)
       <==> exists i :: 0 <= i < n && TookEffect(reqs, schedule, request, action, i)
  {
    hide ByHand, TookEffect;
    if n > 0 {
      HandsAreCalls(reqs, schedule, n - 1, request, action);
      HandStep(reqs, schedule, n - 1, request, action);
    } else {
      NothingByHand(reqs, schedule, request, action);
    }
  }

  lemma {:induction false} NothingByHand(reqs: Requests, schedule: seq<Commit>, request: string, action: Action)
    ensures !ByHand(OrderIn(reqs, schedule, 0, request).history, action)
  {
    hide Run;
    RunStarts(reqs, schedule);
  }

  /** One call, before it is made: a transition moves an order past its payment if and only if it asks for that
      confirmation, the order that was read awaits its payment at the expected version, and nothing was committed
      since. */
  lemma {:induction false} TransitionPastPayment(req: Request, read: Aggregate, now: Aggregate, actor: Actor,
                                                 input: TransitionInput)
    requires Good(req, read) && Good(req, now) && Extends(read, now) && !Settled(now)
    ensures var r := TransitionTx(read, now, actor, input);
            r.Ok? && Settled(r.value)
            <==> input.action == ConfirmProviderPayment && actor.Operator() && InState(read, {PaymentPending})
                 && read.order.value.version == input.expectedVersion && input.technician.None?
                    && read.history == now.history
  {
    hide TransitionTx, LastTechnician, EventsOf, WithoutRejections, Count, RejectionsIn, EvidenceOk, AttemptsOk;
    hide BillingOk, PaymentsOk;
    TransitionOutcome(read, now, actor, input);
  }
}
