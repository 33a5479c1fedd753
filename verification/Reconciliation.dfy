/** Reconciliation passes: what one pass does to its attempt, and that the passes over a list do not disturb one
    another. */
module Reconciliation {
  import opened Wrappers
  import opened OrderStateMachine
  import opened WorkOrder
  import opened WorkOrderInvariant
  import opened WorkOrderSteps
  import opened Ledger
  import opened BillingCalls

  // ---------------------------------------------------------------- one list of payments

  /** The payment is for an attempt of the order and for what the request costs. */
  predicate Fits(req: Request, a: Aggregate, p: ProviderPayment) {
    p.currency == "ARS" && p.amount == req.amount
    && exists k :: 0 <= k < |a.attempts| && a.attempts[k].reference == p.externalReference
  }

  /** A payment by an uninterrupted call is applied exactly if it fits. */
  lemma {:induction false} AppliedIfFits(req: Request, a: Aggregate, p: ProviderPayment)
    requires Good(req, a)
    ensures ApplyTx(a, a, a, p).Ok? <==> Fits(req, a, p)
    ensures ApplyTx(a, a, a, p).Ok? ==> Good(req, ApplyTx(a, a, a, p).value)
    ensures ApplyTx(a, a, a, p).Ok? ==> SameReferences(a.attempts, ApplyTx(a, a, a, p).value.attempts)
  {
    hide ApplyTx, Good, PaymentsOf;
    ExtendsSelf(a);
    MismatchHere(req, a, p);
    if Fits(req, a, p) {
      var k :| 0 <= k < |a.attempts| && a.attempts[k].reference == p.externalReference;
      ChargeOfAttempts(req, a, k, p);
      ApplyToKnownAttempt(req, a, k, p);
      ApplyIsGood(req, a, a, a, p);
    }
  }

  lemma {:induction false} MismatchHere(req: Request, a: Aggregate, p: ProviderPayment)
    requires Good(req, a)
    ensures ApplyTx(a, a, a, p).Ok? ==> Fits(req, a, p)
  {
    hide HistoryOk, WritersOk, OutboxOk, PaymentsOk, RejectionsOk, EvidenceOk, ApprovalsOk, OrderMatches, VersionTaken;
  }

  lemma {:induction false} ChargeOfAttempts(req: Request, a: Aggregate, k: nat, p: ProviderPayment)
    requires Good(req, a) && k < |a.attempts| && a.attempts[k].reference == p.externalReference
    requires p.currency == "ARS" && p.amount == req.amount
    ensures PaymentsOf(a, k, [p])
  {
  }

  predicate SameReferences(x: seq<Attempt>, y: seq<Attempt>) {
    |x| == |y| && forall k :: 0 <= k < |x| ==> x[k].reference == y[k].reference
  }

  lemma {:induction false} FitsStays(req: Request, a: Aggregate, b: Aggregate, p: ProviderPayment)
    requires SameReferences(a.attempts, b.attempts)
    ensures Fits(req, a, p) <==> Fits(req, b, p)
  {
    if Fits(req, a, p) {
      var k :| 0 <= k < |a.attempts| && a.attempts[k].reference == p.externalReference;
      assert b.attempts[k].reference == p.externalReference;
    }
    if Fits(req, b, p) {
      var k :| 0 <= k < |b.attempts| && b.attempts[k].reference == p.externalReference;
      assert a.attempts[k].reference == p.externalReference;
    }
  }

  /** A provider's list is applied up to its first payment that does not fit, and that one ends the pass. */
  lemma {:induction false} ListStopsAtMismatch(req: Request, a: Aggregate, payments: seq<ProviderPayment>)
    requires Good(req, a)
    ensures var (after, applied, refused) := ApplyAll(a, payments);
            applied <= |payments| && (refused <==> applied < |payments|)
            && (forall i :: 0 <= i < applied ==> Fits(req, a, payments[i]))
            && (refused ==> !Fits(req, a, payments[applied]))
            && Good(req, after)
    decreases |payments|
  {
    hide Good, ApplyTx, Fits, SameReferences;
    if payments != [] {
      AppliedIfFits(req, a, payments[0]);
      if Fits(req, a, payments[0]) {
        var b := ApplyTx(a, a, a, payments[0]).value;
        ListStopsAtMismatch(req, b, payments[1..]);
        var applied := ApplyAll(a, payments).1;
        forall i | 0 <= i < |payments| ensures Fits(req, a, payments[i]) <==> Fits(req, b, payments[i]) {
          FitsStays(req, a, b, payments[i]);
        }
        assert forall i :: 1 <= i < |payments| ==> payments[i] == payments[1..][i - 1];
      }
    }
  }

  // ---------------------------------------------------------------- one pass

  /** A pass over an attempt, without interruption. If its uncertain preference cannot be looked up nothing happens and
      the pass fails; a preference that is found reopens it; then, if the payments can be searched and fit, it ends in
      the first terminal status of the list, or else in the last, and all of them count as applied. */
  lemma {:induction false} PassEnds(req: Request, a: Aggregate, k: nat, answer: Answer)
    requires Good(req, a) && k < |a.attempts|
    requires a.attempts[k].state in {Created, Unknown, Pending}
    requires answer.Answered? ==> PaymentsOf(a, k, answer.payments)
    ensures var (after, applied, failed) := ReconcileAttempt(a, a, k, answer);
            var uncertain := a.attempts[k].state == Unknown;
            |after.attempts| == |a.attempts|
            && (forall j :: 0 <= j < |a.attempts| && j != k ==> after.attempts[j] == a.attempts[j])
            && if uncertain && answer.LookupFailed? then after == a && applied == 0 && failed
               else
                 var found := uncertain && answer.preference.Some?;
                 var state := if found then Created else a.attempts[k].state;
                 (found ==> after.attempts[k].checkoutUrl == answer.preference)
                 && (answer.Answered? ==>
                      applied == |answer.payments| && !failed
                      && after.attempts[k].state == FirstTerminal(state, answer.payments))
                 && (!answer.Answered? ==> applied == 0 && failed && after.attempts[k].state == state)
  {
    hide Good, ApplyTx, PaymentsOf, FirstTerminal, NoOtherActive;
    if a.attempts[k].state == Unknown && !answer.LookupFailed? && answer.preference.Some? {
      ReopensHere(req, a, k, answer.preference.value);
      var b := ReopenTx(a, a, k, answer.preference.value).value;
      if answer.Answered? {
        SamePayments(a, b, k, answer.payments);
        ListEndsInFirstTerminal(req, b, k, answer.payments);
        ListKeepsPage(req, b, k, answer.payments);
      }
    } else if answer.Answered? {
      ListEndsInFirstTerminal(req, a, k, answer.payments);
    }
  }

  /** An uncertain attempt is the only active one, so that its reopening is not refused. */
  lemma {:induction false} ReopensHere(req: Request, a: Aggregate, k: nat, url: string)
    requires Good(req, a) && k < |a.attempts| && a.attempts[k].state == Unknown
    ensures var r := ReopenTx(a, a, k, url);
            r.Ok? && Good(req, r.value) && r.value.charge == a.charge && |r.value.attempts| == |a.attempts|
            && r.value.attempts[k].state == Created && r.value.attempts[k].checkoutUrl == Some(url)
            && r.value.attempts[k].reference == a.attempts[k].reference
            && forall j :: 0 <= j < |a.attempts| && j != k ==> r.value.attempts[j] == a.attempts[j]
  {
    hide Good;
    OnlyOneIsActive(req, a);
    ReopenIsGood(req, a, a, k, url);
  }

  lemma {:induction false} SamePayments(a: Aggregate, b: Aggregate, k: nat, payments: seq<ProviderPayment>)
    requires k < |a.attempts| && k < |b.attempts| && PaymentsOf(a, k, payments)
    requires b.charge == a.charge && b.attempts[k].reference == a.attempts[k].reference
    ensures PaymentsOf(b, k, payments)
  {
  }

  /** Payments do not touch the page of an attempt. */
  lemma {:induction false} ListKeepsPage(req: Request, a: Aggregate, k: nat, payments: seq<ProviderPayment>)
    requires Good(req, a) && k < |a.attempts| && PaymentsOf(a, k, payments)
    ensures var after := ApplyAll(a, payments).0;
            k < |after.attempts| && after.attempts[k].checkoutUrl == a.attempts[k].checkoutUrl
    decreases |payments|
  {
    hide Good, Extends, ApplyTx;
    if payments != [] {
      var p := payments[0];
      assert PaymentsOf(a, k, [p]);
      ApplyToKnownAttempt(req, a, k, p);
      ExtendsSelf(a);
      ApplyIsGood(req, a, a, a, p);
      ListKeepsPage(req, ApplyTx(a, a, a, p).value, k, payments[1..]);
    }
  }

  // ---------------------------------------------------------------- a list of passes

  /** One attempt of a reconciliation list, with its order as the list was read. */
  datatype Listed = Listed(request: string, read: Aggregate, k: nat)

  /** The passes over a list: the database they leave, the payments applied, and the passes that failed. */
  function ReconcileList(db: Db, pending: seq<Listed>, answers: seq<Answer>): (Db, nat, nat)
    requires |answers| == |pending|
    decreases |pending|
  {
    if pending == [] then (db, 0, 0)
    else
      var p := pending[0];
      var pass := ReconcileAttempt(p.read, At(db, p.request), p.k, answers[0]);
      var rest := ReconcileList(Put(db, p.request, pass.0), pending[1..], answers[1..]);
      (rest.0, pass.1 + rest.1, (if pass.2 then 1 else 0) + rest.2)
  }

  /** The list is of active attempts as one state of the database has them. */
  predicate ListedIn(db: Db, pending: seq<Listed>) {
    (forall i :: 0 <= i < |pending| ==>
      pending[i].read == At(db, pending[i].request) && pending[i].k < |pending[i].read.attempts|
      && pending[i].read.attempts[pending[i].k].state in {Created, Unknown, Pending})
    && forall i, j :: 0 <= i < j < |pending| ==>
         pending[i].request != pending[j].request || pending[i].k != pending[j].k
  }

  /** Such a list names each order once: an order never has two active attempts. */
  lemma {:induction false} OrdersListedOnce(reqs: Requests, db: Db, pending: seq<Listed>, i: nat, j: nat)
    requires DbGood(reqs, db) && ListedIn(db, pending) && i < j < |pending|
    ensures pending[i].request != pending[j].request
  {
    hide Good;
    if pending[i].request == pending[j].request {
      OnlyOneIsActive(reqs(pending[i].request), At(db, pending[i].request));
    }
  }

  /** The pass over the i-th attempt of a list, as if it were the only one. */
  function PassAlone(db: Db, pending: seq<Listed>, answers: seq<Answer>, i: nat): (Aggregate, nat, bool)
    requires i < |pending| == |answers|
  {
    ReconcileAttempt(pending[i].read, At(db, pending[i].request), pending[i].k, answers[i])
  }

  /** The payments that each pass applies, and 1 for each that fails. */
  function AppliedAlone(db: Db, pending: seq<Listed>, answers: seq<Answer>): seq<nat>
    requires |answers| == |pending|
  {
    seq(|pending|, i requires 0 <= i < |pending| => PassAlone(db, pending, answers, i).1)
  }

  function FailedAlone(db: Db, pending: seq<Listed>, answers: seq<Answer>): seq<nat>
    requires |answers| == |pending|
  {
    seq(|pending|, i requires 0 <= i < |pending| => if PassAlone(db, pending, answers, i).2 then 1 else 0)
  }

  function Sum(s: seq<nat>): nat { if s == [] then 0 else s[0] + Sum(s[1..]) }

  /** The passes of a list of different orders do not disturb one another, whichever fail: each order ends as after its
      pass alone, other orders stay as they are, all payments applied are counted, and so is every failure. */
  lemma {:induction false} PassesAreIndependent(db: Db, pending: seq<Listed>, answers: seq<Answer>)
    requires |answers| == |pending|
    requires forall i, j :: 0 <= i < j < |pending| ==> pending[i].request != pending[j].request
    ensures var (after, reconciled, failures) := ReconcileList(db, pending, answers);
            (forall i :: 0 <= i < |pending| ==>
              At(after, pending[i].request) == PassAlone(db, pending, answers, i).0)
            && (forall r: string :: (forall i :: 0 <= i < |pending| ==> pending[i].request != r) ==>
                  At(after, r) == At(db, r))
            && reconciled == Sum(AppliedAlone(db, pending, answers))
            && failures == Sum(FailedAlone(db, pending, answers))
    decreases |pending|
  {
    hide ReconcileAttempt, AppliedAlone, FailedAlone, PassAlone;
    if pending == [] {
      NothingListed(db, pending, answers);
    } else {
      var first := PassAlone(db, pending, answers, 0).0;
      var next := Put(db, pending[0].request, first);
      var rest, others := pending[1..], answers[1..];
      PassesAreIndependent(next, rest, others);
      PassesOfRest(db, first, pending, answers);
      var after := ReconcileList(db, pending, answers).0;
      forall i | 0 <= i < |pending| ensures At(after, pending[i].request) == PassAlone(db, pending, answers, i).0 {
        if i > 0 { assert rest[i - 1].request == pending[i].request; }
      }
    }
  }

  lemma {:induction false} NothingListed(db: Db, pending: seq<Listed>, answers: seq<Answer>)
    requires |answers| == |pending| == 0
    ensures Sum(AppliedAlone(db, pending, answers)) == Sum(FailedAlone(db, pending, answers)) == 0
  {
  }

  /** A first pass changes its own order only, and so none of the later passes. */
  lemma {:induction false} PassesOfRest(db: Db, first: Aggregate, pending: seq<Listed>, answers: seq<Answer>)
    requires |answers| == |pending| > 0
    requires forall i :: 1 <= i < |pending| ==> pending[0].request != pending[i].request
    ensures var next, pass := Put(db, pending[0].request, first), PassAlone(db, pending, answers, 0);
            pass == ReconcileAttempt(pending[0].read, At(db, pending[0].request), pending[0].k, answers[0])
            && (forall i :: 1 <= i < |pending| ==>
                 PassAlone(db, pending, answers, i) == PassAlone(next, pending[1..], answers[1..], i - 1))
            && Sum(AppliedAlone(db, pending, answers)) == pass.1 + Sum(AppliedAlone(next, pending[1..], answers[1..]))
            && Sum(FailedAlone(db, pending, answers))
               == (if pass.2 then 1 else 0) + Sum(FailedAlone(next, pending[1..], answers[1..]))
  {
    hide ReconcileAttempt;
    var next, rest, others := Put(db, pending[0].request, first), pending[1..], answers[1..];
    forall i | 1 <= i < |pending| ensures PassAlone(db, pending, answers, i) == PassAlone(next, rest, others, i - 1) {
      assert rest[i - 1] == pending[i] && others[i - 1] == answers[i];
    }
    assert AppliedAlone(db, pending, answers)[1..] == AppliedAlone(next, rest, others);
    assert FailedAlone(db, pending, answers)[1..] == FailedAlone(next, rest, others);
  }
}
