/** Consequences of a well-formed history, however long: the shape of every order's life. */
module OrderHistory {
  import opened OrderStateMachine
  import opened WorkOrder
  import opened WorkOrderInvariant

  lemma {:induction false} RanksGrow(history: seq<HistoryRow>, i: nat, j: nat)
    requires HistoryOk(history) && i < j < |history|
    ensures Rank(history[i].to) <= Rank(history[j].from)
    decreases j
  {
    assert RowOk(history, j);
    if i + 1 < j {
      RanksGrow(history, i, j - 1);
      assert RowOk(history, j - 1);
      PermittedProgress(history[j - 1].from, history[j - 1].action, history[j - 1].to);
    }
  }

  /** Only a reassignment can happen twice. */
  lemma {:induction false} ActionsAreNotRepeated(history: seq<HistoryRow>, i: nat, j: nat)
    requires HistoryOk(history) && i < j < |history| && history[i].action == history[j].action
    ensures history[i].action == ReassignTechnician
  {
    RanksGrow(history, i, j);
    assert RowOk(history, i) && RowOk(history, j);
    PermittedProgress(history[i].from, history[i].action, history[i].to);
  }

  /** An order that has reached attention is never cancelled, and a finished order is never moved again. */
  lemma {:induction false} NoCancellationAfterService(history: seq<HistoryRow>, i: nat, j: nat)
    requires HistoryOk(history) && i < j < |history|
    ensures Rank(history[i].to) >= Rank(InService) ==> history[j].to != Cancelled
    ensures history[i].to != Cancelled && history[i].to != Closed
  {
    RanksGrow(history, i, j);
    assert RowOk(history, j) && RowOk(history, i + 1);
    PermittedProgress(history[j].from, history[j].action, history[j].to);
    PermittedProgress(history[i + 1].from, history[i + 1].action, history[i + 1].to);
  }

  /** Where the three actions of the payment stage lead. */
  function Stage(action: Action): OrderState {
    if action == CreateFixedPayment then PaymentPending
    else if action == ConfirmProviderPayment then ConformityPending
    else Closed
  }

  predicate HasAction(history: seq<HistoryRow>, action: Action) {
    exists i :: 0 <= i < |history| && history[i].action == action
  }

  lemma {:induction false} StageStep(from: OrderState, action: Action, to: OrderState, mark: Action)
    requires Permitted(from, action, to)
             && mark in {CreateFixedPayment, ConfirmProviderPayment, ConfirmClientConformity}
    ensures Rank(Stage(mark)) <= Rank(to) <= Rank(Closed)
       <==> action == mark || Rank(Stage(mark)) <= Rank(from) <= Rank(Closed)
  {
  }

  /** The order is in or past the state an action of the payment stage leads to exactly when that action is in its
      history. */
  lemma {:induction false} StageReached(history: seq<HistoryRow>, mark: Action)
    requires HistoryOk(history) && history != []
    requires mark in {CreateFixedPayment, ConfirmProviderPayment, ConfirmClientConformity}
    ensures Rank(Stage(mark)) <= Rank(StateAfter(history)) <= Rank(Closed) <==> HasAction(history, mark)
  {
    hide Permitted, Rank, Stage;
    var n := |history| - 1;
    assert RowOk(history, n);
    StageStep(history[n].from, history[n].action, history[n].to, mark);
    if n > 0 {
      forall i | 0 <= i < n ensures RowOk(history[..n], i) { assert RowOk(history, i); }
      StageReached(history[..n], mark);
      if HasAction(history[..n], mark) {
        var i :| 0 <= i < n && history[..n][i].action == mark;
        assert history[i].action == mark;
      }
      if HasAction(history, mark) {
        var i :| 0 <= i <= n && history[i].action == mark;
        assert i < n ==> history[..n][i].action == mark;
      }
    } else {
      RequestedIsEarly(mark);
      assert HasAction(history, mark) <==> history[0].action == mark;
    }
  }

  lemma {:induction false} RequestedIsEarly(mark: Action)
    ensures Rank(Stage(mark)) > Rank(Requested)
  {
  }

  /** The order passed the payment stage exactly when its payment was created, and that happened once. */
  lemma {:induction false} PaymentStage(history: seq<HistoryRow>)
    requires HistoryOk(history) && history != []
    ensures Rank(PaymentPending) <= Rank(StateAfter(history)) <= Rank(Closed)
       <==> exists i :: 0 <= i < |history| && history[i].action == CreateFixedPayment
  {
    hide HistoryOk;
    StageReached(history, CreateFixedPayment);
  }

  function ProviderRows(history: seq<HistoryRow>): nat {
    if history == [] then 0
    else ProviderRows(history[..|history| - 1]) + (if history[|history| - 1].writer.ByProvider? then 1 else 0)
  }

  lemma {:induction false} CountConcat(s: seq<EventType>, t: seq<EventType>, e: EventType)
    requires |t| <= 1
    ensures Count(s + t, e) == Count(s, e) + (if e in t then 1 else 0)
  {
    if t == [] {
      assert s + t == s;
    } else {
      assert t == [t[0]];
      assert (s + t)[..|s|] == s;
    }
  }

  lemma {:induction false} ApprovedEventsAreProviderRows(history: seq<HistoryRow>)
    ensures Count(EventsOf(history), PaymentApproved) == ProviderRows(history)
    decreases |history|
  {
    if history != [] {
      var front, row := history[..|history| - 1], history[|history| - 1];
      ApprovedEventsAreProviderRows(front);
      CountConcat(EventsOf(front), EventsFor(row), PaymentApproved);
      assert EventsOf(history) == EventsOf(front) + EventsFor(row);
    }
  }

  lemma {:induction false} RejectionsDoNotMatter(events: seq<EventType>, e: EventType)
    requires e != PaymentRejected
    ensures Count(WithoutRejections(events), e) == Count(events, e)
    decreases |events|
  {
    if events != [] {
      var front, last := events[..|events| - 1], events[|events| - 1];
      RejectionsDoNotMatter(front, e);
      CountConcat(WithoutRejections(front), [last], e);
      CountConcat(front, [last], e);
      assert events == front + [last];
    }
  }

  /** At most one row of an order was written by the provider. */
  lemma {:induction false} AtMostOneProviderRow(history: seq<HistoryRow>)
    requires HistoryOk(history) && WritersOk(history)
    ensures ProviderRows(history) <= 1
  {
    if history != [] {
      var n := |history| - 1;
      forall i | 0 <= i < n ensures RowOk(history[..n], i) { assert RowOk(history, i); }
      AtMostOneProviderRow(history[..n]);
      if history[n].writer.ByProvider? {
        forall i | 0 <= i < n ensures !history[..n][i].writer.ByProvider? {
          assert WriterOk(history[i]) && WriterOk(history[n]);
          if history[i].writer.ByProvider? { ActionsAreNotRepeated(history, i, n); }
        }
        NoProviderRows(history[..n]);
      }
    }
  }

  lemma {:induction false} NoProviderRows(history: seq<HistoryRow>)
    requires forall i :: 0 <= i < |history| ==> !history[i].writer.ByProvider?
    ensures ProviderRows(history) == 0
  {
    if history != [] { NoProviderRows(history[..|history| - 1]); }
  }
}
