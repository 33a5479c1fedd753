/** The life of payment attempts: what the compare-and-set guarantees, where two unguarded writes break it,
    and what holds when whole service calls do not overlap. */
module PaymentAttempts {
  import opened Wrappers
  import opened OrderStateMachine
  import opened WorkOrder
  import opened WorkOrderInvariant
  import opened WorkOrderSteps
  import opened Ledger
  import opened LedgerTheorems

  // ---------------------------------------------------------------- terminal states

  /** The two writes that do not look at the state they overwrite, with the guards under which they reach attempt `k`:
      what the caller had read, and for a write of an active state the unique index on active attempts. */
  predicate Overwrites(op: Op, first: Aggregate, now: Aggregate, k: nat) {
    k < |now.attempts|
    && match op
       case SettleCheckout(j, outcome) =>
         j == k && AwaitsPreference(first, k)
         && (outcome.PreferenceNotCreated? || (outcome.PreferenceUnknown? && NoOtherActive(now.attempts, k)))
       case Reopen(j, _) =>
         j == k && k < |first.attempts| && first.attempts[k].state == Unknown && NoOtherActive(now.attempts, k)
       case _ => false
  }

  /** The order after a transaction, committed or not. */
  function Outcome(r: Result<Aggregate>, now: Aggregate): Aggregate { if r.Ok? then r.value else now }

  /** A payment never touches an attempt that has ended. */
  lemma {:induction false} AppliedPaymentsKeepTerminal(attemptRead: Aggregate, orderRead: Aggregate, now: Aggregate,
                                                       p: ProviderPayment, k: nat)
    requires k < |now.attempts| && Terminal(now.attempts[k].state)
    requires ApplyTx(attemptRead, orderRead, now, p).Ok?
    ensures var next := ApplyTx(attemptRead, orderRead, now, p).value;
            |next.attempts| == |now.attempts| && next.attempts[k] == now.attempts[k]
  {
    hide VersionTaken;
  }

  /** An attempt leaves an ended state exactly through one of the two unguarded writes, when its guard holds and it
      writes another state. */
  lemma {:induction false} TerminalStateIsLeft(req: Request, op: Op, first: Aggregate, second: Aggregate,
                                               now: Aggregate, k: nat)
    requires k < |now.attempts| && Terminal(now.attempts[k].state)
    ensures var next := Outcome(Tx(req, op, first, second, now), now);
            k < |next.attempts|
            && (next.attempts[k].state != now.attempts[k].state <==>
                  Overwrites(op, first, now, k)
                  && !(op.SettleCheckout? && op.outcome.PreferenceNotCreated?
                       && now.attempts[k].state == CancelledPayment))
  {
    match op
    case ApplyPayment(p) =>
      if ApplyTx(first, second, now, p).Ok? { AppliedPaymentsKeepTerminal(first, second, now, p, k); }
      hide ApplyTx;
    case SettleCheckout(_, _) =>
    case Reopen(_, _) =>
    case _ =>
      if Tx(req, op, first, second, now).Ok? { OtherCallsKeepAttempts(req, op, first, second, now, k); }
      hide Tx;
  }

  lemma {:induction false} OtherCallsKeepAttempts(req: Request, op: Op, first: Aggregate, second: Aggregate,
                                                  now: Aggregate, k: nat)
    requires k < |now.attempts| && Tx(req, op, first, second, now).Ok?
    requires !op.ApplyPayment? && !op.SettleCheckout? && !op.Reopen?
    ensures var next := Tx(req, op, first, second, now).value;
            k < |next.attempts| && next.attempts[k] == now.attempts[k]
  {
    hide AllowedFrom, VersionTaken, IndexOf, ActiveIndex, SequenceTaken, NoOtherActive;
  }

  // ---------------------------------------------------------------- runs

  /** Only the last state ever written may be terminal. */
  predicate EndsOnce(log: seq<PaymentState>) {
    forall j :: 0 <= j < |log| - 1 ==> !Terminal(log[j])
  }

  predicate AllEndOnce(attempts: seq<Attempt>) {
    forall k :: 0 <= k < |attempts| ==> EndsOnce(attempts[k].log)
  }

  /** What a transaction does to the attempts: nothing, a page address, one state write, or one insert. */
  datatype Change =
    | Same
    | Page(k: nat, url: string)
    | State(k: nat, s: PaymentState, page: Option<string>)
    | Insert(reference: string)

  function Apply(attempts: seq<Attempt>, c: Change): seq<Attempt>
    requires (c.Page? || c.State?) ==> c.k < |attempts|
  {
    match c
    case Same => attempts
    case Page(k, url) => attempts[k := attempts[k].(checkoutUrl := Some(url))]
    case State(k, s, page) =>
      attempts[k := attempts[k].Write(s).(checkoutUrl := if page.Some? then page else attempts[k].checkoutUrl)]
    case Insert(reference) => attempts + [Attempt(|attempts| + 1, reference, Created, None, [Created])]
  }

  lemma {:induction false} ApplyChange(first: Aggregate, second: Aggregate, now: Aggregate, p: ProviderPayment)
    returns (c: Change)
    requires ApplyTx(first, second, now, p).Ok?
    ensures c.Same?
            || (c.State? && c.k < |now.attempts| && Active(now.attempts[c.k].state) && c.s == StateFor(p.status)
                && c.page.None? && c.k < |first.attempts| && first.attempts[c.k].reference == p.externalReference)
    ensures ApplyTx(first, second, now, p).value.attempts == Apply(now.attempts, c)
  {
    hide VersionTaken;
    var found := IndexOf(first.attempts, p.externalReference);
    var k := found.value;
    if Terminal(first.attempts[k].state) || k >= |now.attempts| || now.attempts[k].state != first.attempts[k].state {
      c := Same;
    } else {
      c := State(k, StateFor(p.status), None);
    }
  }

  lemma {:induction false} ChangeOf(req: Request, op: Op, first: Aggregate, second: Aggregate, now: Aggregate)
    returns (c: Change)
    requires AttemptsOk(now.attempts) && |first.attempts| <= |now.attempts|
    requires Tx(req, op, first, second, now).Ok?
    ensures (c.Page? || c.State?) ==> c.k < |now.attempts|
    ensures c.State? ==> Overwrites(op, first, now, c.k) || (op.ApplyPayment? && Active(now.attempts[c.k].state))
    ensures Tx(req, op, first, second, now).value.attempts == Apply(now.attempts, c)
  {
    hide AllowedFrom, VersionTaken, IndexOf, ActiveIndex;
    match op
    case Assign(_, _, _, _, _) => c := Same;
    case Transit(_, _) => c := Same;
    case Resolve(_, _, _) => c := Same;
    case Conform(_, _, _) => c := Same;
    case OpenAttempt(_, reference, _) =>
      if |first.attempts| < |now.attempts| { StaleReadFindsSequenceTaken(first.attempts, now.attempts); }
      c := if ActiveIndex(first.attempts).Some? then Same else Insert(reference);
    case SettleCheckout(k, outcome) =>
      c := match outcome
           case PreferenceCreated(url) => Page(k, url)
           case PreferenceNotCreated => State(k, CancelledPayment, None)
           case PreferenceUnknown => State(k, Unknown, None);
    case Reopen(k, url) => c := State(k, Created, Some(url));
    case ApplyPayment(p) => c := ApplyChange(first, second, now, p);
  }

  lemma {:induction false} ChangeKeepsEnds(attempts: seq<Attempt>, c: Change)
    requires AttemptsOk(attempts) && AllEndOnce(attempts)
    requires (c.Page? || c.State?) ==> c.k < |attempts|
    requires c.State? ==> !Terminal(attempts[c.k].state)
    ensures AllEndOnce(Apply(attempts, c))
  {
    var after := Apply(attempts, c);
    forall k | 0 <= k < |after| ensures EndsOnce(after[k].log) {
      if k < |attempts| { assert AttemptOk(attempts, k) && EndsOnce(attempts[k].log); }
    }
  }

  /** An unguarded write always goes through, and adds to the attempt's log. */
  lemma {:induction false} OverwritingAddsToTheLog(req: Request, op: Op, first: Aggregate, second: Aggregate,
                                                   now: Aggregate, k: nat)
    requires Overwrites(op, first, now, k)
    ensures Tx(req, op, first, second, now).Ok?
    ensures var next := Tx(req, op, first, second, now).value;
            k < |next.attempts| && |next.attempts[k].log| == |now.attempts[k].log| + 1
            && now.attempts[k].log <= next.attempts[k].log
  {
  }

  /** The commit writes to an attempt that has ended meanwhile. */
  predicate WritesToEnded(op: Op, first: Aggregate, now: Aggregate) {
    exists k :: 0 <= k < |now.attempts| && Overwrites(op, first, now, k) && Terminal(now.attempts[k].state)
  }

  /** One transaction keeps every attempt ended at most once exactly if it does not write to an ended one. */
  lemma {:induction false} CommitKeepsEnds(req: Request, op: Op, first: Aggregate, second: Aggregate, now: Aggregate)
    requires Good(req, now) && Extends(first, now)
    requires var next := Outcome(Tx(req, op, first, second, now), now); Extends(now, next)
    ensures AllEndOnce(Outcome(Tx(req, op, first, second, now), now).attempts)
       <==> AllEndOnce(now.attempts) && !WritesToEnded(op, first, now)
  {
    hide Tx, AllEndOnce, Overwrites, EndsOnce, Apply;
    hide HistoryOk, OrderMatches, WritersOk, OutboxOk, BillingOk, PaymentsOk, ApprovalsOk, RejectionsOk, EvidenceOk;
    hide OneActive;
    var next := Outcome(Tx(req, op, first, second, now), now);
    if AllEndOnce(next.attempts) { EndsStay(now.attempts, next.attempts); }
    if WritesToEnded(op, first, now) {
      var k :| 0 <= k < |now.attempts| && Overwrites(op, first, now, k) && Terminal(now.attempts[k].state);
      OverwritingAddsToTheLog(req, op, first, second, now, k);
      assert AttemptOk(now.attempts, k);
      EndedInside(next.attempts, k, now.attempts[k].log);
    } else if AllEndOnce(now.attempts) && Tx(req, op, first, second, now).Ok? {
      var c := ChangeOf(req, op, first, second, now);
      ChangeKeepsEnds(now.attempts, c);
    }
  }

  lemma {:induction false} EndsStay(attempts: seq<Attempt>, more: seq<Attempt>)
    requires AttemptsExtend(attempts, more) && AllEndOnce(more)
    ensures AllEndOnce(attempts)
  {
    forall k | 0 <= k < |attempts| ensures EndsOnce(attempts[k].log) {
      assert EndsOnce(more[k].log) && attempts[k].log <= more[k].log;
    }
  }

  lemma {:induction false} EndedInside(attempts: seq<Attempt>, k: nat, log: seq<PaymentState>)
    requires k < |attempts| && log != [] && Terminal(log[|log| - 1]) && log <= attempts[k].log
             && |log| < |attempts[k].log|
    ensures !AllEndOnce(attempts)
  {
    assert attempts[k].log[|log| - 1] == log[|log| - 1];
  }

  /** The i-th commit of the schedule is an unguarded write to an attempt of the order that has ended. */
  predicate OverwritesEnded(reqs: Requests, schedule: seq<Commit>, request: string, i: nat)
    requires i < |schedule|
  {
    var c := schedule[i];
    c.request == request && c.firstRead <= c.secondRead <= i
    && WritesToEnded(c.op, OrderIn(reqs, schedule, c.firstRead, request), OrderIn(reqs, schedule, i, request))
  }

  /** One commit of a schedule as a transaction on an order. */
  lemma {:induction false} OrderStep(reqs: Requests, schedule: seq<Commit>, i: nat, request: string)
    requires i < |schedule|
    ensures var c := schedule[i];
            var now, next := OrderIn(reqs, schedule, i, request), OrderIn(reqs, schedule, i + 1, request);
            if c.request == request && c.firstRead <= c.secondRead <= i && !c.op.Assign? && !c.op.Resolve? then
              next == Outcome(Tx(reqs(request), c.op, OrderIn(reqs, schedule, c.firstRead, request),
                                 OrderIn(reqs, schedule, c.secondRead, request), now), now)
            else
              next == now
              || (c.request == request && c.firstRead <= c.secondRead <= i
                  && Tx(reqs(request), c.op, OrderIn(reqs, schedule, c.firstRead, request),
                        OrderIn(reqs, schedule, c.secondRead, request), now) == Ok(next))
  {
    hide Run, Tx;
    var states := Run(reqs, schedule);
    RunStep(reqs, schedule, i);
    CommitIsLocal(reqs, states[..i + 1], schedule[i], request);
    assert states[..i + 1][i] == states[i];
  }

  lemma {:induction false} ScheduleStepKeepsEnds(reqs: Requests, schedule: seq<Commit>, i: nat, request: string)
    requires i < |schedule|
    ensures AllEndOnce(OrderIn(reqs, schedule, i + 1, request).attempts)
       <==> AllEndOnce(OrderIn(reqs, schedule, i, request).attempts) && !OverwritesEnded(reqs, schedule, request, i)
  {
    hide OrderIn, Good, Extends, Tx, AllEndOnce, Overwrites;
    var c := schedule[i];
    var now, next := OrderIn(reqs, schedule, i, request), OrderIn(reqs, schedule, i + 1, request);
    OrderStep(reqs, schedule, i, request);
    if c.request == request && c.firstRead <= c.secondRead <= i {
      var first := OrderIn(reqs, schedule, c.firstRead, request);
      var second := OrderIn(reqs, schedule, c.secondRead, request);
      OnlyTheTwo(c.op, first, now);
      if next != now || c.op.SettleCheckout? || c.op.Reopen? {
        OrderIsGood(reqs, schedule, i, request);
        OrderExtends(reqs, schedule, c.firstRead, i, request);
        OrderExtends(reqs, schedule, i, i + 1, request);
        CommitKeepsEnds(reqs(request), c.op, first, second, now);
      }
    }
  }

  lemma {:induction false} OnlyTheTwo(op: Op, first: Aggregate, now: Aggregate)
    ensures WritesToEnded(op, first, now) ==> op.SettleCheckout? || op.Reopen?
  {
  }

  /** In every run, exactly: all attempts of an order have ended at most once and stayed ended, if and only if no
      commit so far was an unguarded write to an attempt of that order that had ended. */
  lemma {:induction false} AttemptsEndOnce(reqs: Requests, schedule: seq<Commit>, n: nat, request: string)
    requires n <= |schedule|
    ensures AllEndOnce(OrderIn(reqs, schedule, n, request).attempts)
       <==> forall i :: 0 <= i < n ==> !OverwritesEnded(reqs, schedule, request, i)
  {
    hide OrderIn, OverwritesEnded, AllEndOnce;
    if n == 0 {
      NoAttemptsYet(reqs, schedule, request);
    } else {
      AttemptsEndOnce(reqs, schedule, n - 1, request);
      ScheduleStepKeepsEnds(reqs, schedule, n - 1, request);
    }
  }

  lemma {:induction false} NoAttemptsYet(reqs: Requests, schedule: seq<Commit>, request: string)
    ensures AllEndOnce(OrderIn(reqs, schedule, 0, request).attempts)
  {
    hide Run;
    RunStarts(reqs, schedule);
  }

  function RejectedNow(attempts: seq<Attempt>): nat {
    if attempts == [] then 0
    else RejectedNow(attempts[..|attempts| - 1]) + (if attempts[|attempts| - 1].state == Rejected then 1 else 0)
  }

  lemma {:induction false} NoRejectionBeforeTheEnd(log: seq<PaymentState>)
    requires forall j :: 0 <= j < |log| ==> !Terminal(log[j])
    ensures Count(log, Rejected) == 0
  {
    if log != [] { NoRejectionBeforeTheEnd(log[..|log| - 1]); }
  }

  lemma {:induction false} EndedOnceRejectedOnce(attempts: seq<Attempt>)
    requires AllEndOnce(attempts)
    requires forall k :: 0 <= k < |attempts| ==>
               attempts[k].log != [] && attempts[k].log[|attempts[k].log| - 1] == attempts[k].state
    ensures RejectionsIn(attempts) == RejectedNow(attempts)
  {
    if attempts != [] {
      var n := |attempts| - 1;
      EndedOnceRejectedOnce(attempts[..n]);
      assert EndsOnce(attempts[n].log);
      NoRejectionBeforeTheEnd(attempts[n].log[..|attempts[n].log| - 1]);
    }
  }

  /** While no ended attempt of an order is overwritten, exactly one `payment.rejected` event exists per rejected
      attempt. */
  lemma {:induction false} OneRejectionPerRejectedAttempt(reqs: Requests, schedule: seq<Commit>, n: nat,
                                                          request: string)
    requires n <= |schedule| && forall i :: 0 <= i < n ==> !OverwritesEnded(reqs, schedule, request, i)
    ensures var a := OrderIn(reqs, schedule, n, request);
            Count(a.outbox, PaymentRejected) == RejectedNow(a.attempts)
  {
    hide Run, OverwritesEnded, Count, RejectionsIn, OrderIn, Good, AllEndOnce;
    AttemptsEndOnce(reqs, schedule, n, request);
    OrderIsGood(reqs, schedule, n, request);
    var a := OrderIn(reqs, schedule, n, request);
    AttemptRows(reqs(request), a);
    EndedOnceRejectedOnce(a.attempts);
  }

  lemma {:induction false} AttemptRows(req: Request, a: Aggregate)
    requires Good(req, a)
    ensures forall k :: 0 <= k < |a.attempts| ==>
              a.attempts[k].log != [] && a.attempts[k].log[|a.attempts[k].log| - 1] == a.attempts[k].state
    ensures Count(a.outbox, PaymentRejected) == RejectionsIn(a.attempts)
  {
    forall k | 0 <= k < |a.attempts|
      ensures a.attempts[k].log != [] && a.attempts[k].log[|a.attempts[k].log| - 1] == a.attempts[k].state
    {
      assert AttemptOk(a.attempts, k);
    }
  }
}
