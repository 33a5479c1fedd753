/** How many attempts of an order are approved when transactions interleave: one, as long as no late write overwrites
    an ended attempt. */
module Approvals {
  import opened OrderStateMachine
  import opened WorkOrder
  import opened WorkOrderInvariant
  import opened WorkOrderSteps
  import opened Ledger
  import opened LedgerTheorems
  import opened PaymentAttempts
  import opened PaymentTable
  import opened BillingCalls

  // ---------------------------------------------------------------- only the last attempt lives

  /** While a logged ending is final, a log that had ended has not grown. */
  lemma {:induction false} EndedLogIsFinal(before: seq<PaymentState>, log: seq<PaymentState>)
    requires before != [] && before <= log && Terminal(before[|before| - 1]) && EndsOnce(log)
    ensures log == before
  {
    assert before[|before| - 1] == log[|before| - 1];
  }

  /** An insert that commits had read the very attempts it finds, none of them active or approved. */
  lemma {:induction false} InsertFindsEndedAttempts(req: Request, actor: Actor, reference: string, version: int,
                                                    first: Aggregate, now: Aggregate, k: nat)
    requires Good(req, first) && Good(req, now) && Extends(first, now) && AllEndOnce(now.attempts)
    requires k < |now.attempts|
    requires OpenAttemptTx(req, first, now, actor, reference, version).Ok? && ActiveIndex(first.attempts).None?
    ensures now.attempts[k].state == Rejected || now.attempts[k].state == CancelledPayment
  {
    hide HistoryOk, WritersOk, OutboxOk, BillingOk, PaymentsOk, RejectionsOk, OrderMatches, EvidenceOk, OneActive;
    hide VersionTaken, ActiveIndex, SequenceTaken, IndexOf, NoOtherActive;
    if |first.attempts| < |now.attempts| {
      StaleReadFindsSequenceTaken(first.attempts, now.attempts);
    } else {
      var t := first.attempts[k];
      assert AttemptOk(first.attempts, k) && AttemptOk(now.attempts, k) && EndsOnce(now.attempts[k].log);
      assert !Active(t.state);
      EndedLogIsFinal(t.log, now.attempts[k].log);
    }
  }

  /** A write to the last attempt, or an insert behind ended ones, keeps only the last one alive. */
  lemma {:induction false} ChangeKeepsLast(attempts: seq<Attempt>, c: Change)
    requires OnlyLastLives(attempts)
    requires (c.Page? || c.State?) ==> c.k < |attempts|
    requires c.State? ==> c.k == |attempts| - 1
    requires c.Insert? ==>
               forall k :: 0 <= k < |attempts| ==>
                 attempts[k].state == Rejected || attempts[k].state == CancelledPayment
    ensures OnlyLastLives(Apply(attempts, c))
  {
  }

  lemma {:induction false} CommitKeepsLast(req: Request, op: Op, first: Aggregate, second: Aggregate, now: Aggregate)
    requires Good(req, first) && Good(req, now) && Extends(first, now)
    requires AllEndOnce(now.attempts) && OnlyLastLives(now.attempts) && !WritesToEnded(op, first, now)
    ensures OnlyLastLives(Outcome(Tx(req, op, first, second, now), now).attempts)
  {
    hide Tx, Good, AllEndOnce, OnlyLastLives, Overwrites, Apply;
    if Tx(req, op, first, second, now).Ok? {
      GoodAttempts(req, now);
      var c := ChangeOf(req, op, first, second, now);
      if c.State? { ActiveIsLast(now.attempts, c.k); }
      if c.Insert? {
        forall k | 0 <= k < |now.attempts|
          ensures now.attempts[k].state == Rejected || now.attempts[k].state == CancelledPayment
        {
          InsertIsAnOpening(req, op, first, second, now, c);
          InsertFindsEndedAttempts(req, op.actor, op.reference, op.expectedVersion, first, now, k);
        }
      }
      ChangeKeepsLast(now.attempts, c);
    }
  }

  lemma {:induction false} InsertIsAnOpening(req: Request, op: Op, first: Aggregate, second: Aggregate, now: Aggregate,
                                             c: Change)
    requires Tx(req, op, first, second, now).Ok? && c.Insert?
    requires Tx(req, op, first, second, now).value.attempts == Apply(now.attempts, c)
    ensures op.OpenAttempt? && OpenAttemptTx(req, first, now, op.actor, op.reference, op.expectedVersion).Ok?
            && ActiveIndex(first.attempts).None?
  {
    hide AllowedFrom, VersionTaken, IndexOf, ActiveIndex, SequenceTaken, NoOtherActive;
  }

  lemma {:induction false} ScheduleStepKeepsLast(reqs: Requests, schedule: seq<Commit>, i: nat, request: string)
    requires i < |schedule| && !OverwritesEnded(reqs, schedule, request, i)
    requires AllEndOnce(OrderIn(reqs, schedule, i, request).attempts)
    requires OnlyLastLives(OrderIn(reqs, schedule, i, request).attempts)
    ensures OnlyLastLives(OrderIn(reqs, schedule, i + 1, request).attempts)
  {
    hide OrderIn, Good, Extends, Tx, AllEndOnce, WritesToEnded, OnlyLastLives;
    var c := schedule[i];
    OrderStep(reqs, schedule, i, request);
    if c.request == request && c.firstRead <= c.secondRead <= i {
      OrderIsGood(reqs, schedule, c.firstRead, request);
      OrderIsGood(reqs, schedule, i, request);
      OrderExtends(reqs, schedule, c.firstRead, i, request);
      CommitKeepsLast(reqs(request), c.op, OrderIn(reqs, schedule, c.firstRead, request),
                      OrderIn(reqs, schedule, c.secondRead, request), OrderIn(reqs, schedule, i, request));
    }
  }

  /** While no ended attempt is overwritten, every attempt before the last was rejected or cancelled. */
  lemma {:induction false} OnlyLastLivesInRuns(reqs: Requests, schedule: seq<Commit>, n: nat, request: string)
    requires n <= |schedule| && forall i :: 0 <= i < n ==> !OverwritesEnded(reqs, schedule, request, i)
    ensures OnlyLastLives(OrderIn(reqs, schedule, n, request).attempts)
  {
    hide OrderIn, OverwritesEnded, AllEndOnce;
    if n == 0 {
      NoAttemptsAtFirst(reqs, schedule, request);
    } else {
      hide OnlyLastLives;
      OnlyLastLivesInRuns(reqs, schedule, n - 1, request);
      AttemptsEndOnce(reqs, schedule, n - 1, request);
      ScheduleStepKeepsLast(reqs, schedule, n - 1, request);
    }
  }

  lemma {:induction false} NoAttemptsAtFirst(reqs: Requests, schedule: seq<Commit>, request: string)
    ensures OrderIn(reqs, schedule, 0, request).attempts == []
  {
    hide Run;
    RunStarts(reqs, schedule);
  }

  // ---------------------------------------------------------------- at most one approved

  /** The attempt was approved at some time. */
  predicate EverApproved(t: Attempt) { Approved in t.log }

  predicate OneApproved(attempts: seq<Attempt>) {
    forall j, k :: 0 <= j < k < |attempts| ==> !(EverApproved(attempts[j]) && EverApproved(attempts[k]))
  }

  /** The commit applies an approved payment to one attempt while another was approved before. */
  predicate ApprovesAnother(op: Op, first: Aggregate, second: Aggregate, now: Aggregate) {
    op.ApplyPayment? && op.payment.status == StatusApproved
    && exists j, k ::
         0 <= j < |now.attempts| && 0 <= k < |now.attempts| && j != k
         && EverApproved(now.attempts[j]) && Applies(first, second, now, op.payment, k)
  }

  /** An attempt becomes approved exactly by an approved payment that reaches it. */
  lemma {:induction false} BecomesApproved(req: Request, op: Op, first: Aggregate, second: Aggregate, now: Aggregate,
                                           k: nat)
    requires k < |now.attempts|
    ensures var next := Outcome(Tx(req, op, first, second, now), now);
            k < |next.attempts|
            && (EverApproved(next.attempts[k]) <==>
                  EverApproved(now.attempts[k])
                  || (op.ApplyPayment? && op.payment.status == StatusApproved
                      && Applies(first, second, now, op.payment, k)))
  {
    hide Tx, Applies;
    WritesExactly(req, op, first, second, now, k);
  }

  lemma {:induction false} CommitApprovesOne(req: Request, op: Op, first: Aggregate, second: Aggregate, now: Aggregate)
    ensures OneApproved(Outcome(Tx(req, op, first, second, now), now).attempts)
       <==> OneApproved(now.attempts) && !ApprovesAnother(op, first, second, now)
  {
    hide Tx, EverApproved;
    var next := Outcome(Tx(req, op, first, second, now), now);
    forall k | 0 <= k < |now.attempts|
      ensures k < |next.attempts|
              && (EverApproved(next.attempts[k]) <==>
                    EverApproved(now.attempts[k])
                    || (op.ApplyPayment? && op.payment.status == StatusApproved
                        && Applies(first, second, now, op.payment, k)))
    {
      BecomesApproved(req, op, first, second, now, k);
    }
    forall k | |now.attempts| <= k < |next.attempts| ensures !EverApproved(next.attempts[k]) {
      InsertedIsCreated(req, op, first, second, now, k);
      NewIsNotApproved(next.attempts[k]);
    }
    OneIsReached(op, first, second, now);
  }

  lemma {:induction false} NewIsNotApproved(t: Attempt)
    requires t.log == [Created]
    ensures !EverApproved(t)
  {
  }

  /** A payment names one attempt. */
  lemma {:induction false} OneIsReached(op: Op, first: Aggregate, second: Aggregate, now: Aggregate)
    ensures op.ApplyPayment? ==>
              forall j, k ::
                Applies(first, second, now, op.payment, j) && Applies(first, second, now, op.payment, k) ==> j == k
  {
  }

  /** The i-th commit of the schedule approves a second attempt of the order. */
  predicate ApprovesSecond(reqs: Requests, schedule: seq<Commit>, request: string, i: nat)
    requires i < |schedule|
  {
    var c := schedule[i];
    c.request == request && c.firstRead <= c.secondRead <= i
    && ApprovesAnother(c.op, OrderIn(reqs, schedule, c.firstRead, request),
                       OrderIn(reqs, schedule, c.secondRead, request),
                       OrderIn(reqs, schedule, i, request))
  }

  lemma {:induction false} ScheduleStepApproves(reqs: Requests, schedule: seq<Commit>, i: nat, request: string)
    requires i < |schedule|
    ensures OneApproved(OrderIn(reqs, schedule, i + 1, request).attempts)
       <==> OneApproved(OrderIn(reqs, schedule, i, request).attempts) && !ApprovesSecond(reqs, schedule, request, i)
  {
    hide OrderIn, Tx, OneApproved, Applies, EverApproved;
    var c := schedule[i];
    OrderStep(reqs, schedule, i, request);
    if c.request == request && c.firstRead <= c.secondRead <= i {
      var first := OrderIn(reqs, schedule, c.firstRead, request);
      var second := OrderIn(reqs, schedule, c.secondRead, request);
      var now := OrderIn(reqs, schedule, i, request);
      if c.op.Assign? || c.op.Resolve? {
        OnlyPaymentsLog(reqs(request), c.op, first, second, now);
      } else {
        CommitApprovesOne(reqs(request), c.op, first, second, now);
      }
    }
  }

  /** In every run, exactly: at most one attempt of an order was ever approved if and only if no commit so far applied
      an approved payment to one attempt while another was approved before. */
  lemma {:induction false} ApprovedOnce(reqs: Requests, schedule: seq<Commit>, n: nat, request: string)
    requires n <= |schedule|
    ensures OneApproved(OrderIn(reqs, schedule, n, request).attempts)
       <==> forall i :: 0 <= i < n ==> !ApprovesSecond(reqs, schedule, request, i)
  {
    hide OrderIn, ApprovesSecond;
    if n == 0 {
      NoAttemptsAtFirst(reqs, schedule, request);
    } else {
      hide OneApproved;
      ApprovedOnce(reqs, schedule, n - 1, request);
      ScheduleStepApproves(reqs, schedule, n - 1, request);
    }
  }

  /** In every run in which no late write overwrites an ended attempt: only the last attempt of an order may be active
      or approved, only it can ever have been approved, and then it still is. No commit approved a second one. */
  lemma {:induction false} OneApprovalUnlessOverwritten(reqs: Requests, schedule: seq<Commit>, n: nat, request: string)
    requires n <= |schedule| && forall i :: 0 <= i < n ==> !OverwritesEnded(reqs, schedule, request, i)
    ensures var attempts := OrderIn(reqs, schedule, n, request).attempts;
            (forall k :: 0 <= k < |attempts| - 1 ==>
              attempts[k].state == Rejected || attempts[k].state == CancelledPayment)
            && (forall k :: 0 <= k < |attempts| && Approved in attempts[k].log ==>
                 k == |attempts| - 1 && attempts[k].state == Approved)
    ensures forall i :: 0 <= i < n ==> !ApprovesSecond(reqs, schedule, request, i)
  {
    hide OrderIn, OverwritesEnded, ApprovesSecond, Good;
    OnlyLastLivesInRuns(reqs, schedule, n, request);
    AttemptsEndOnce(reqs, schedule, n, request);
    OrderIsGood(reqs, schedule, n, request);
    var a := OrderIn(reqs, schedule, n, request);
    AttemptRows(reqs(request), a);
    forall k | 0 <= k < |a.attempts| && Approved in a.attempts[k].log
      ensures k == |a.attempts| - 1 && a.attempts[k].state == Approved
    {
      ApprovedIsFinal(a.attempts[k].log);
    }
    ApprovedOnce(reqs, schedule, n, request);
  }

  lemma {:induction false} ApprovedIsFinal(log: seq<PaymentState>)
    requires EndsOnce(log) && Approved in log
    ensures log[|log| - 1] == Approved
  {
    var j :| 0 <= j < |log| && log[j] == Approved;
    assert Terminal(log[j]);
  }
}
