/** What the recorded rows of an order say about the calls that wrote them, in every run. */
module Records {
  import opened OrderStateMachine
  import opened WorkOrder
  import opened WorkOrderInvariant
  import opened Ledger
  import opened LedgerTheorems
  import opened OrderHistory
  import opened PaymentAttempts
  import opened Wrappers

  // ---------------------------------------------------------------- who gave the conformity

  /** Every conformity on record was given by this client. */
  predicate GivenBy(history: seq<HistoryRow>, client: string) {
    forall k :: 0 <= k < |history| && history[k].writer == ByConformity ==> history[k].actor == Some(client)
  }

  lemma {:induction false} TxKeepsGiver(req: Request, op: Op, first: Aggregate, second: Aggregate, now: Aggregate)
    requires GivenBy(now.history, req.client) && Tx(req, op, first, second, now).Ok?
    ensures GivenBy(Tx(req, op, first, second, now).value.history, req.client)
  {
    hide AllowedFrom, VersionTaken, IndexOf, ActiveIndex, SequenceTaken, NoOtherActive, GivenBy;
    var next := Tx(req, op, first, second, now).value;
    if next.history != now.history {
      var row := next.history[|now.history|];
      assert next.history == now.history + [row];
      OneMoreGiver(now.history, row, req.client);
    }
  }

  lemma {:induction false} OneMoreGiver(history: seq<HistoryRow>, row: HistoryRow, client: string)
    requires GivenBy(history, client) && (row.writer == ByConformity ==> row.actor == Some(client))
    ensures GivenBy(history + [row], client)
  {
  }

  /** In every run, only the client of a request ever closes its order by a conformity. */
  lemma {:induction false} ConformityIsTheClients(reqs: Requests, schedule: seq<Commit>, n: nat, request: string)
    requires n <= |schedule|
    ensures var h := OrderIn(reqs, schedule, n, request).history;
            forall k :: 0 <= k < |h| && h[k].writer == ByConformity ==> h[k].actor == Some(reqs(request).client)
  {
    hide OrderIn, Tx;
    if n == 0 {
      NoHistoryAtFirst(reqs, schedule, request);
    } else {
      ConformityIsTheClients(reqs, schedule, n - 1, request);
      var c, now := schedule[n - 1], OrderIn(reqs, schedule, n - 1, request);
      OrderStep(reqs, schedule, n - 1, request);
      if c.request == request && c.firstRead <= c.secondRead <= n - 1 {
        var first := OrderIn(reqs, schedule, c.firstRead, request);
        var second := OrderIn(reqs, schedule, c.secondRead, request);
        if Tx(reqs(request), c.op, first, second, now).Ok? { TxKeepsGiver(reqs(request), c.op, first, second, now); }
      }
    }
  }

  lemma {:induction false} NoHistoryAtFirst(reqs: Requests, schedule: seq<Commit>, request: string)
    ensures OrderIn(reqs, schedule, 0, request).history == []
  {
    hide Run;
    RunStarts(reqs, schedule);
  }

  // ---------------------------------------------------------------- one event for each row

  /** How many rows record one of the actions. */
  function Rows(history: seq<HistoryRow>, actions: set<Action>): nat {
    if history == [] then 0
    else Rows(history[..|history| - 1], actions) + (if history[|history| - 1].action in actions then 1 else 0)
  }

  function ConformityRows(history: seq<HistoryRow>): nat {
    if history == [] then 0
    else ConformityRows(history[..|history| - 1]) + (if history[|history| - 1].writer == ByConformity then 1 else 0)
  }

  lemma {:induction false} EventsOfRows(history: seq<HistoryRow>)
    requires WritersOk(history)
    ensures Count(EventsOf(history), AssignmentChanged) == Rows(history, {AssignTechnician, ReassignTechnician})
    ensures Count(EventsOf(history), WentEnRoute) == Rows(history, {MarkEnRoute})
    ensures Count(EventsOf(history), OrderCancelled) == Rows(history, {Cancel})
    ensures Count(EventsOf(history), OrderClosed) == ConformityRows(history)
    decreases |history|
  {
    hide EventsFor, Count, WriterOk;
    if history != [] {
      var front, row := history[..|history| - 1], history[|history| - 1];
      EventsOfRows(front);
      EventOfRow(row);
      forall e: EventType
        ensures Count(EventsOf(history), e) == Count(EventsOf(front), e) + if e in EventsFor(row) then 1 else 0
      {
        CountConcat(EventsOf(front), EventsFor(row), e);
      }
    } else {
      NothingCounted();
    }
  }

  lemma {:induction false} NothingCounted()
    ensures forall e: EventType :: Count([], e) == 0
  {
  }

  lemma {:induction false} EventOfRow(row: HistoryRow)
    requires WriterOk(row)
    ensures AssignmentChanged in EventsFor(row) <==> row.action in {AssignTechnician, ReassignTechnician}
    ensures WentEnRoute in EventsFor(row) <==> row.action == MarkEnRoute
    ensures OrderCancelled in EventsFor(row) <==> row.action == Cancel
    ensures OrderClosed in EventsFor(row) <==> row.writer == ByConformity
  {
  }

  /** In every run, the events of an order count its rows: one `assignment_changed` for the assignment and for each
      reassignment, one `en_route` for each departure, one `cancelled` for a cancellation, and one `closed` for the
      client's conformity. */
  lemma {:induction false} EventsCountRows(reqs: Requests, schedule: seq<Commit>, n: nat, request: string)
    requires n <= |schedule|
    ensures var a := OrderIn(reqs, schedule, n, request);
            Count(a.outbox, AssignmentChanged) == Rows(a.history, {AssignTechnician, ReassignTechnician})
            && Count(a.outbox, WentEnRoute) == Rows(a.history, {MarkEnRoute})
            && Count(a.outbox, OrderCancelled) == Rows(a.history, {Cancel})
            && Count(a.outbox, OrderClosed) == ConformityRows(a.history)
  {
    hide OrderIn, HistoryOk, OrderMatches, BillingOk, PaymentsOk, AttemptsOk, ApprovalsOk, RejectionsOk, EvidenceOk;
    hide Count, EventsOf, WithoutRejections, Rows, ConformityRows;
    OrderIsGood(reqs, schedule, n, request);
    var a := OrderIn(reqs, schedule, n, request);
    EventsOfRows(a.history);
    RejectionsDoNotMatter(a.outbox, AssignmentChanged);
    RejectionsDoNotMatter(a.outbox, WentEnRoute);
    RejectionsDoNotMatter(a.outbox, OrderCancelled);
    RejectionsDoNotMatter(a.outbox, OrderClosed);
  }
}
