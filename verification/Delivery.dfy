/** Orders and workers together: every event an order records becomes an outbox row in the same commit,
    and the workers run beside all other writers. */
module Delivery {
  import opened Wrappers
  import opened OrderStateMachine
  import opened WorkOrder
  import opened WorkOrderInvariant
  import opened Ledger
  import opened LedgerTheorems
  import opened OrderHistory
  import opened PaymentAttempts
  import opened Records
  import OutboxWorker
  import OutboxTheorems
  import OutboxSteps

  type System = OutboxWorker.System
  type Step = OutboxWorker.Step

  /** `ids` lists the outbox rows of each request's order, in the order they were inserted. */
  datatype World = World(schedule: seq<Commit>, worker: System, ids: map<string, seq<nat>>)

  datatype Move = CommitOrder(c: Commit, id: nat) | Work(step: Step)

  function ClientOf(reqs: Requests): string -> string { (r: string) => reqs(r).client }

  function IdsOf(w: World, request: string): seq<nat> {
    if request in w.ids then w.ids[request] else []
  }

  function Order(reqs: Requests, w: World, request: string): Aggregate {
    OrderIn(reqs, w.schedule, |w.schedule|, request)
  }

  /** A commit inserts the event it adds, if any, under a new id; workers step on their own. */
  function Advance(reqs: Requests, w: World, move: Move): World {
    match move
    case Work(step) => if step.Create? then w else w.(worker := OutboxWorker.Next(ClientOf(reqs), w.worker, step))
    case CommitOrder(c, id) =>
      var before := Order(reqs, w, c.request).outbox;
      var next := w.(schedule := w.schedule + [c]);
      var after := Order(reqs, next, c.request).outbox;
      if |after| <= |before| then next
      else if id in w.worker.rows then w
      else
        var create := OutboxWorker.Create(id, Some(after[|before|]), 1, Some(c.request));
        next.(worker := OutboxWorker.Next(ClientOf(reqs), w.worker, create),
              ids := w.ids[c.request := IdsOf(w, c.request) + [id]])
  }

  function Happen(reqs: Requests, start: int, moves: seq<Move>): World {
    if moves == [] then World([], OutboxWorker.System(start, map[], []), map[])
    else Advance(reqs, Happen(reqs, start, moves[..|moves| - 1]), moves[|moves| - 1])
  }

  // ---------------------------------------------------------------- the link between orders and rows

  /** Row by row, the outbox table holds exactly the order's events. */
  predicate Linked(outbox: seq<EventType>, ids: seq<nat>, worker: System, request: string) {
    |ids| == |outbox|
    && (forall i :: 0 <= i < |ids| ==>
          ids[i] in worker.rows && worker.rows[ids[i]].kind == Some(outbox[i])
          && worker.rows[ids[i]].version == 1 && worker.rows[ids[i]].request == Some(request))
    && (forall i, j :: 0 <= i < j < |ids| ==> ids[i] != ids[j])
  }

  ghost predicate WorldOk(reqs: Requests, w: World) {
    OutboxWorker.SystemOk(ClientOf(reqs), w.worker)
    && (forall r: string :: Linked(Order(reqs, w, r).outbox, IdsOf(w, r), w.worker, r))
    && RowsListed(w)
  }

  /** A transaction records at most one event. */
  lemma {:induction false} AtMostOneEvent(req: Request, op: Op, first: Aggregate, second: Aggregate, now: Aggregate)
    requires Tx(req, op, first, second, now).Ok?
    ensures |Tx(req, op, first, second, now).value.outbox| <= |now.outbox| + 1
  {
    hide AllowedFrom, VersionTaken, IndexOf, ActiveIndex, SequenceTaken, NoOtherActive;
  }

  /** What one commit does to the events of every order. */
  lemma {:induction false} EventsGrow(reqs: Requests, schedule: seq<Commit>, c: Commit, request: string)
    ensures var n := |schedule|;
            var before := OrderIn(reqs, schedule, n, request).outbox;
            var after := OrderIn(reqs, schedule + [c], n + 1, request).outbox;
            (request != c.request ==> after == before)
            && (|after| <= |before| ==> after == before)
            && (|after| > |before| ==> after == before + [after[|before|]])
  {
    hide Run, Tx, NextState;
    var n := |schedule|;
    RunAppends(reqs, schedule, c);
    CommitIsLocal(reqs, Run(reqs, schedule), c, request);
    var now, next := OrderIn(reqs, schedule, n, request), OrderIn(reqs, schedule + [c], n + 1, request);
    if next != now {
      AtMostOneEvent(reqs(request), c.op, At(Run(reqs, schedule)[c.firstRead], request),
                     At(Run(reqs, schedule)[c.secondRead], request), now);
      HistoryIsAppendOnly(reqs, schedule + [c], n, n + 1, request);
      assert Run(reqs, schedule + [c])[n] == Run(reqs, schedule)[n];
    }
  }

  lemma {:induction false} LinkedStays(outbox: seq<EventType>, ids: seq<nat>, worker: System, next: System,
                                       request: string)
    requires Linked(outbox, ids, worker, request) && OutboxWorker.SystemExtends(worker, next)
    ensures Linked(outbox, ids, next, request)
  {
    forall i | 0 <= i < |ids|
      ensures ids[i] in next.rows && next.rows[ids[i]].kind == Some(outbox[i])
              && next.rows[ids[i]].version == 1 && next.rows[ids[i]].request == Some(request)
    {
      assert OutboxWorker.RowExtends(worker.rows[ids[i]], next.rows[ids[i]]);
    }
  }

  lemma {:induction false} StepAddsNoRow(clientOf: string -> string, s: System, step: Step)
    requires !step.Create? && OutboxWorker.SystemOk(clientOf, s)
    ensures var next := OutboxWorker.Next(clientOf, s, step);
            next.rows.Keys == s.rows.Keys && forall id :: id in s.rows ==> next.rows[id].request == s.rows[id].request
  {
    hide OutboxWorker.SystemOk, OutboxWorker.Next, OutboxWorker.SystemExtends;
    var next := OutboxWorker.Next(clientOf, s, step);
    OutboxWorker.StepIsGood(clientOf, s, step);
    StepKeepsKeys(clientOf, s, step);
    forall id | id in s.rows ensures next.rows[id].request == s.rows[id].request { RowKeepsRequest(s, next, id); }
  }

  lemma {:induction false} StepKeepsKeys(clientOf: string -> string, s: System, step: Step)
    requires !step.Create?
    ensures OutboxWorker.Next(clientOf, s, step).rows.Keys == s.rows.Keys
  {
    hide OutboxWorker.Eligible, OutboxWorker.ClaimRow, OutboxWorker.Insert;
    hide OutboxWorker.FailRow, OutboxWorker.RetryRow, OutboxWorker.CompleteRow;
  }

  lemma {:induction false} WorkIsGood(reqs: Requests, w: World, step: Step)
    requires WorldOk(reqs, w) && !step.Create?
    ensures WorldOk(reqs, Advance(reqs, w, Work(step)))
  {
    hide OutboxWorker.Next, OutboxWorker.SystemOk, OutboxWorker.SystemExtends, Linked;
    var next := Advance(reqs, w, Work(step));
    OutboxWorker.StepIsGood(ClientOf(reqs), w.worker, step);
    StepAddsNoRow(ClientOf(reqs), w.worker, step);
    forall r: string ensures Linked(Order(reqs, next, r).outbox, IdsOf(next, r), next.worker, r) {
      assert Order(reqs, next, r) == Order(reqs, w, r) && IdsOf(next, r) == IdsOf(w, r);
      LinkedStays(Order(reqs, w, r).outbox, IdsOf(w, r), w.worker, next.worker, r);
    }
    forall id | id in next.worker.rows
      ensures next.worker.rows[id].request.Some? && id in IdsOf(next, next.worker.rows[id].request.value)
    {
      assert id in w.worker.rows;
    }
  }

  lemma {:induction false} NewRowIsLinked(outbox: seq<EventType>, ids: seq<nat>, worker: System, next: System,
                                          request: string, e: EventType, id: nat)
    requires Linked(outbox, ids, worker, request) && id !in worker.rows
    requires Linked(outbox, ids, next, request)
    requires id in next.rows && next.rows[id].kind == Some(e) && next.rows[id].version == 1
             && next.rows[id].request == Some(request)
    ensures Linked(outbox + [e], ids + [id], next, request)
  {
  }

  lemma {:induction false} InsertIsGood(reqs: Requests, w: World, c: Commit, id: nat, next: World)
    requires WorldOk(reqs, w) && next == Advance(reqs, w, CommitOrder(c, id))
    requires id !in w.worker.rows
             && |Order(reqs, w, c.request).outbox| < |Order(reqs, w.(schedule := w.schedule + [c]), c.request).outbox|
    ensures WorldOk(reqs, next)
  {
    hide OutboxWorker.SystemOk, OutboxWorker.SystemExtends, OrderIn, RowsListed;
    var before := Order(reqs, w, c.request).outbox;
    var e := Order(reqs, next, c.request).outbox[|before|];
    var create := OutboxWorker.Create(id, Some(e), 1, Some(c.request));
    OutboxWorker.StepIsGood(ClientOf(reqs), w.worker, create);
    assert next.worker == OutboxWorker.Next(ClientOf(reqs), w.worker, create);
    assert next.worker.rows.Keys == w.worker.rows.Keys + {id};
    hide OutboxWorker.Next, Linked;
    forall r: string ensures Linked(Order(reqs, next, r).outbox, IdsOf(next, r), next.worker, r) {
      EventsGrow(reqs, w.schedule, c, r);
      LinkedStays(Order(reqs, w, r).outbox, IdsOf(w, r), w.worker, next.worker, r);
      if r == c.request { NewRowIsLinked(before, IdsOf(w, r), w.worker, next.worker, r, e, id); }
    }
    RowsStayListed(w, next, c.request, id);
  }

  predicate RowsListed(w: World) {
    forall id :: id in w.worker.rows ==>
      w.worker.rows[id].request.Some? && id in IdsOf(w, w.worker.rows[id].request.value)
  }

  lemma {:induction false} RowsStayListed(w: World, next: World, request: string, id: nat)
    requires RowsListed(w) && OutboxWorker.SystemExtends(w.worker, next.worker)
    requires next.worker.rows.Keys == w.worker.rows.Keys + {id} && next.worker.rows[id].request == Some(request)
    requires next.ids == w.ids[request := IdsOf(w, request) + [id]]
    ensures RowsListed(next)
  {
    forall k | k in next.worker.rows
      ensures next.worker.rows[k].request.Some? && k in IdsOf(next, next.worker.rows[k].request.value)
    {
      if k == id {
        var list := IdsOf(next, request);
        assert list[|list| - 1] == id;
      } else {
        RowKeepsRequest(w.worker, next.worker, k);
      }
    }
  }

  lemma {:induction false} RowKeepsRequest(a: System, b: System, id: nat)
    requires OutboxWorker.SystemExtends(a, b) && id in a.rows
    ensures id in b.rows && b.rows[id].request == a.rows[id].request
  {
    assert OutboxWorker.RowExtends(a.rows[id], b.rows[id]);
  }

  lemma {:induction false} AdvanceIsGood(reqs: Requests, w: World, move: Move)
    requires WorldOk(reqs, w)
    ensures WorldOk(reqs, Advance(reqs, w, move))
  {
    hide OutboxWorker.Next, OutboxWorker.SystemOk, Linked, OrderIn;
    var next := Advance(reqs, w, move);
    match move
    case Work(step) => if !step.Create? { WorkIsGood(reqs, w, step); }
    case CommitOrder(c, id) =>
      if |Order(reqs, w.(schedule := w.schedule + [c]), c.request).outbox| <= |Order(reqs, w, c.request).outbox| {
        forall r: string ensures Linked(Order(reqs, next, r).outbox, IdsOf(next, r), next.worker, r) {
          EventsGrow(reqs, w.schedule, c, r);
          assert Linked(Order(reqs, w, r).outbox, IdsOf(w, r), w.worker, r) && IdsOf(next, r) == IdsOf(w, r);
        }
      } else if id !in w.worker.rows {
        InsertIsGood(reqs, w, c, id, next);
      }
  }

  lemma {:induction false} HappenIsGood(reqs: Requests, start: int, moves: seq<Move>)
    ensures WorldOk(reqs, Happen(reqs, start, moves))
    decreases |moves|
  {
    hide WorldOk, Advance;
    if moves == [] {
      StartIsGood(reqs, start);
    } else {
      HappenIsGood(reqs, start, moves[..|moves| - 1]);
      AdvanceIsGood(reqs, Happen(reqs, start, moves[..|moves| - 1]), moves[|moves| - 1]);
    }
  }

  lemma {:induction false} StartIsGood(reqs: Requests, start: int)
    ensures WorldOk(reqs, World([], OutboxWorker.System(start, map[], []), map[]))
  {
    OutboxWorker.StartIsGood(ClientOf(reqs), start);
  }

  // ---------------------------------------------------------------- the two systems in one

  /** One more move: a worker's step is its step alone, and a commit under a new id is the order's next commit, which
      leaves the workers a new waiting row of its event if it records one, and nothing otherwise. */
  lemma {:induction false} MoveByMove(reqs: Requests, start: int, moves: seq<Move>, move: Move)
    ensures var w, next := Happen(reqs, start, moves), Happen(reqs, start, moves + [move]);
            match move
            case Work(step) =>
              next.schedule == w.schedule && next.ids == w.ids
              && next.worker == if step.Create? then w.worker else OutboxWorker.Next(ClientOf(reqs), w.worker, step)
            case CommitOrder(c, id) =>
              id !in w.worker.rows ==>
                var before, after := Order(reqs, w, c.request).outbox, Order(reqs, next, c.request).outbox;
                next.schedule == w.schedule + [c]
                && if |after| == |before| then after == before && next.worker == w.worker && next.ids == w.ids
                   else
                     |after| == |before| + 1 && after[..|before|] == before
                     && next.worker.rows == w.worker.rows[id := NewRow(after[|before|], c.request, w.worker.now)]
                     && next.worker.now == w.worker.now && next.worker.notifications == w.worker.notifications
  {
    hide OrderIn;
    assert (moves + [move])[..|moves|] == moves;
    if move.CommitOrder? { EventsGrow(reqs, Happen(reqs, start, moves).schedule, move.c, move.c.request); }
  }

  function NewRow(e: EventType, request: string, now: int): OutboxWorker.EventRow {
    OutboxWorker.EventRow(Some(e), 1, Some(request), OutboxWorker.Waiting, 0, now, None, [], [])
  }

  /** The workers of every world are a run of the worker system on its own, and start from nothing. */
  lemma {:induction false} WorkersAreARun(reqs: Requests, start: int, moves: seq<Move>) returns (steps: seq<Step>)
    ensures Happen(reqs, start, moves).worker == OutboxWorker.Play(ClientOf(reqs), start, steps)
    decreases |moves|
  {
    hide OutboxWorker.Next, OrderIn;
    if moves == [] {
      steps := [];
    } else {
      var n := |moves| - 1;
      var before := WorkersAreARun(reqs, start, moves[..n]);
      var w := Happen(reqs, start, moves[..n]);
      var step := StepOf(reqs, w, moves[n]);
      if step.None? {
        steps := before;
      } else {
        OutboxTheorems.PlaySnoc(ClientOf(reqs), start, before, step.value);
        steps := before + [step.value];
      }
    }
  }

  /** What a move does to the workers' system. */
  function StepOf(reqs: Requests, w: World, move: Move): (step: Option<Step>)
    ensures Advance(reqs, w, move).worker
         == if step.None? then w.worker else OutboxWorker.Next(ClientOf(reqs), w.worker, step.value)
  {
    match move
    case Work(step) => if step.Create? then None else Some(step)
    case CommitOrder(c, id) =>
      var before := Order(reqs, w, c.request).outbox;
      var after := Order(reqs, w.(schedule := w.schedule + [c]), c.request).outbox;
      if |after| <= |before| || id in w.worker.rows then None
      else Some(OutboxWorker.Create(id, Some(after[|before|]), 1, Some(c.request)))
  }

  // ---------------------------------------------------------------- from a history entry to its notification

  /** Where the `m`-th event that is not a rejection stands in an outbox. */
  function PlaceOf(outbox: seq<EventType>, m: nat): (i: nat)
    requires m < |WithoutRejections(outbox)|
    ensures i < |outbox|
  {
    var n := |outbox| - 1;
    if outbox[n] != PaymentRejected && m == |WithoutRejections(outbox[..n])| then n
    else PlaceOf(outbox[..n], m)
  }

  lemma {:induction false} PlaceIsRight(outbox: seq<EventType>, m: nat)
    requires m < |WithoutRejections(outbox)|
    ensures outbox[PlaceOf(outbox, m)] == WithoutRejections(outbox)[m]
  {
    var n := |outbox| - 1;
    if !(outbox[n] != PaymentRejected && m == |WithoutRejections(outbox[..n])|) { PlaceIsRight(outbox[..n], m); }
  }

  lemma {:induction false} PlacesDiffer(outbox: seq<EventType>, l: nat, m: nat)
    requires l < m < |WithoutRejections(outbox)|
    ensures PlaceOf(outbox, l) < PlaceOf(outbox, m)
  {
    var n := |outbox| - 1;
    if m < |WithoutRejections(outbox[..n])| { PlacesDiffer(outbox[..n], l, m); }
  }

  lemma {:induction false} EventOfEntry(history: seq<HistoryRow>, k: nat)
    requires k < |history| && EventsFor(history[k]) != []
    ensures var m := |EventsOf(history[..k])|;
            m < |EventsOf(history)| && EventsOf(history)[m] == EventsFor(history[k])[0]
    decreases |history|
  {
    hide EventsOf, EventsFor;
    var n := |history| - 1;
    EventsUpTo(history, n + 1);
    assert history[..n + 1] == history;
    if k < n {
      assert history[..n][..k] == history[..k];
      EventOfEntry(history[..n], k);
    }
  }

  lemma {:induction false} EventsUpTo(history: seq<HistoryRow>, k: nat)
    requires 0 < k <= |history|
    ensures EventsOf(history[..k]) == EventsOf(history[..k - 1]) + EventsFor(history[k - 1])
  {
    hide EventsFor;
    assert history[..k][..k - 1] == history[..k - 1];
  }

  lemma {:induction false} EntriesRise(history: seq<HistoryRow>, j: nat, k: nat)
    requires j < k <= |history| && EventsFor(history[j]) != []
    ensures |EventsOf(history[..j])| < |EventsOf(history[..k])|
    decreases k
  {
    hide EventsOf, EventsFor;
    EventsUpTo(history, k);
    if j < k - 1 { EntriesRise(history, j, k - 1); }
  }

  /** The outbox row of a notifiable history entry. */
  function RowOf(a: Aggregate, ids: seq<nat>, k: nat): nat
    requires OutboxOk(a) && |ids| == |a.outbox|
    requires k < |a.history| && EventsFor(a.history[k]) != []
  {
    EventOfEntry(a.history, k);
    ids[PlaceOf(a.outbox, |EventsOf(a.history[..k])|)]
  }

  /** All rows of the order's events have been drained without a failure. */
  predicate Drained(w: World, request: string) {
    forall i :: 0 <= i < |IdsOf(w, request)| ==>
      IdsOf(w, request)[i] in w.worker.rows && w.worker.rows[IdsOf(w, request)[i]].state == OutboxWorker.Processed
  }

  /** Worker steps as moves. */
  function Works(steps: seq<Step>): seq<Move> { seq(|steps|, i requires 0 <= i < |steps| => Work(steps[i])) }

  /** Worker steps other than inserts move the workers alone. */
  lemma {:induction false} WorksArePlays(reqs: Requests, start: int, moves: seq<Move>, played: seq<Step>,
                                         steps: seq<Step>)
    requires forall i :: 0 <= i < |steps| ==> !steps[i].Create?
    requires Happen(reqs, start, moves).worker == OutboxWorker.Play(ClientOf(reqs), start, played)
    ensures var w, next := Happen(reqs, start, moves), Happen(reqs, start, moves + Works(steps));
            next == w.(worker := OutboxWorker.Play(ClientOf(reqs), start, played + steps))
    decreases |steps|
  {
    hide Happen, OutboxWorker.Play, OutboxWorker.Next;
    if steps == [] {
      assert moves + Works(steps) == moves && played + steps == played;
    } else {
      var n := |steps| - 1;
      WorksArePlays(reqs, start, moves, played, steps[..n]);
      HappenSnoc(reqs, start, moves + Works(steps[..n]), Work(steps[n]));
      OutboxTheorems.PlaySnoc(ClientOf(reqs), start, played + steps[..n], steps[n]);
      assert moves + Works(steps) == moves + Works(steps[..n]) + [Work(steps[n])];
      assert played + steps == played + steps[..n] + [steps[n]];
    }
  }

  lemma {:induction false} HappenSnoc(reqs: Requests, start: int, moves: seq<Move>, move: Move)
    ensures Happen(reqs, start, moves + [move]) == Advance(reqs, Happen(reqs, start, moves), move)
  {
    assert (moves + [move])[..|moves|] == moves;
  }

  /** The first `n` rows of an order are processed. */
  predicate DrainedUpTo(w: World, request: string, n: nat) {
    n <= |IdsOf(w, request)|
    && forall i :: 0 <= i < n ==>
         IdsOf(w, request)[i] in w.worker.rows && w.worker.rows[IdsOf(w, request)[i]].state == OutboxWorker.Processed
  }

  /** No event of the order was given up. */
  predicate NoneFailed(w: World, request: string) {
    forall i :: 0 <= i < |IdsOf(w, request)| && IdsOf(w, request)[i] in w.worker.rows ==>
      w.worker.rows[IdsOf(w, request)[i]].state != OutboxWorker.Failed
  }

  /** One more row of an order is processed. */
  lemma {:induction false} DrainOne(reqs: Requests, start: int, moves: seq<Move>, request: string, n: nat)
    returns (more: seq<Move>)
    requires var w := Happen(reqs, start, moves);
             n < |IdsOf(w, request)| && DrainedUpTo(w, request, n) && NoneFailed(w, request)
    ensures var w, late := Happen(reqs, start, moves), Happen(reqs, start, moves + more);
            late.schedule == w.schedule && late.ids == w.ids
            && DrainedUpTo(late, request, n + 1) && NoneFailed(late, request)
  {
    hide Happen, OutboxWorker.Play, OutboxWorker.Next, OutboxWorker.SystemOk, Works, OrderIn, OutboxSteps.Notified;
    HappenIsGood(reqs, start, moves);
    var w := Happen(reqs, start, moves);
    var ids := IdsOf(w, request);
    assert Linked(Order(reqs, w, request).outbox, ids, w.worker, request);
    if w.worker.rows[ids[n]].state == OutboxWorker.Processed {
      more := [];
      assert moves + more == moves;
    } else {
      var played := WorkersAreARun(reqs, start, moves);
      var steps := OutboxSteps.CanBeDelivered(ClientOf(reqs), start, played, "worker", ids[n]);
      WorksArePlays(reqs, start, moves, played, steps);
      more := Works(steps);
    }
  }

  lemma {:induction false} DrainRest(reqs: Requests, start: int, moves: seq<Move>, request: string, n: nat)
    returns (more: seq<Move>)
    requires var w := Happen(reqs, start, moves); DrainedUpTo(w, request, n) && NoneFailed(w, request)
    ensures var w, late := Happen(reqs, start, moves), Happen(reqs, start, moves + more);
            late.schedule == w.schedule && late.ids == w.ids && DrainedUpTo(late, request, |IdsOf(late, request)|)
    decreases |IdsOf(Happen(reqs, start, moves), request)| - n
  {
    hide Happen, DrainedUpTo, NoneFailed;
    if n == |IdsOf(Happen(reqs, start, moves), request)| {
      more := [];
      assert moves + more == moves;
    } else {
      assert n < |IdsOf(Happen(reqs, start, moves), request)| by { UpToIsWithin(reqs, start, moves, request, n); }
      var first := DrainOne(reqs, start, moves, request, n);
      var rest := DrainRest(reqs, start, moves + first, request, n + 1);
      more := first + rest;
      assert moves + more == moves + first + rest;
    }
  }

  lemma {:induction false} UpToIsWithin(reqs: Requests, start: int, moves: seq<Move>, request: string, n: nat)
    requires DrainedUpTo(Happen(reqs, start, moves), request, n)
    ensures n <= |IdsOf(Happen(reqs, start, moves), request)|
  {
  }

  /** Delivery never gets stuck. From every reachable world in which no event of an order was given up, the workers can
      still drain the order, whatever crashed before, while the orders stay as they are. */
  lemma {:induction false} CanBeDrained(reqs: Requests, start: int, moves: seq<Move>, request: string)
    returns (more: seq<Move>)
    requires NoneFailed(Happen(reqs, start, moves), request)
    ensures var w, late := Happen(reqs, start, moves), Happen(reqs, start, moves + more);
            late.schedule == w.schedule && late.ids == w.ids && Drained(late, request)
  {
    hide Happen, NoneFailed;
    more := DrainRest(reqs, start, moves, request, 0);
  }

  /** Delivery. In every interleaving of order writers and workers, once an order's events are drained without a
      failure each notifiable entry of its history has its own event of the right kind and exactly one notification,
      to the client. */
  lemma {:induction false} ExactlyOneNotificationPerEntry(reqs: Requests, start: int, moves: seq<Move>,
                                                          request: string, k: nat)
    requires var w := Happen(reqs, start, moves);
             Drained(w, request) && k < |Order(reqs, w, request).history|
             && EventsFor(Order(reqs, w, request).history[k]) != []
    ensures var w := Happen(reqs, start, moves);
            var a := Order(reqs, w, request);
            OutboxOk(a) && |IdsOf(w, request)| == |a.outbox|
            && var id := RowOf(a, IdsOf(w, request), k);
               id in w.worker.rows && w.worker.rows[id].kind == Some(EventsFor(a.history[k])[0])
               && OutboxTheorems.NotificationsOf(w.worker.notifications, id) == 1
               && (forall i :: 0 <= i < |w.worker.notifications| && w.worker.notifications[i].event == id ==>
                     w.worker.notifications[i].recipient == reqs(request).client
                     && w.worker.notifications[i].kind == EventsFor(a.history[k])[0])
  {
    hide Happen;
    HappenIsGood(reqs, start, moves);
    EntryIsNotified(reqs, Happen(reqs, start, moves), request, k);
  }

  lemma {:induction false} OutboxIsConserved(reqs: Requests, w: World, request: string)
    ensures OutboxOk(Order(reqs, w, request))
  {
    OutboxConservation(reqs, w.schedule, |w.schedule|, request);
  }

  lemma {:induction false} EntryIsNotified(reqs: Requests, w: World, request: string, k: nat)
    requires WorldOk(reqs, w) && Drained(w, request)
    requires k < |Order(reqs, w, request).history| && EventsFor(Order(reqs, w, request).history[k]) != []
    ensures var a := Order(reqs, w, request);
            OutboxOk(a) && |IdsOf(w, request)| == |a.outbox|
            && var id := RowOf(a, IdsOf(w, request), k);
               id in w.worker.rows && w.worker.rows[id].kind == Some(EventsFor(a.history[k])[0])
               && OutboxTheorems.NotificationsOf(w.worker.notifications, id) == 1
               && (forall i :: 0 <= i < |w.worker.notifications| && w.worker.notifications[i].event == id ==>
                     w.worker.notifications[i].recipient == reqs(request).client
                     && w.worker.notifications[i].kind == EventsFor(a.history[k])[0])
  {
    OutboxIsConserved(reqs, w, request);
    hide Order, OutboxWorker.SystemOk, EventsOf, WithoutRejections, OutboxTheorems.NotificationsOf;
    var a, ids := Order(reqs, w, request), IdsOf(w, request);
    assert Linked(a.outbox, ids, w.worker, request);
    EventOfEntry(a.history, k);
    var m := |EventsOf(a.history[..k])|;
    PlaceIsRight(a.outbox, m);
    var id := ids[PlaceOf(a.outbox, m)];
    OutboxTheorems.OneNotification(ClientOf(reqs), w.worker, id);
  }

  /** Two notifiable entries never share an event. */
  lemma {:induction false} EntriesHaveTheirOwnRow(reqs: Requests, w: World, request: string, j: nat, k: nat)
    requires WorldOk(reqs, w)
    requires var h := Order(reqs, w, request).history;
             j < k < |h| && EventsFor(h[j]) != [] && EventsFor(h[k]) != []
    ensures var a := Order(reqs, w, request);
            OutboxOk(a) && |IdsOf(w, request)| == |a.outbox|
            && RowOf(a, IdsOf(w, request), j) != RowOf(a, IdsOf(w, request), k)
  {
    OutboxIsConserved(reqs, w, request);
    hide Order, OutboxWorker.SystemOk, EventsOf, WithoutRejections;
    var a, ids := Order(reqs, w, request), IdsOf(w, request);
    assert Linked(a.outbox, ids, w.worker, request);
    EventOfEntry(a.history, j);
    EventOfEntry(a.history, k);
    EntriesRise(a.history, j, k);
    PlacesDiffer(a.outbox, |EventsOf(a.history[..j])|, |EventsOf(a.history[..k])|);
  }

  // ---------------------------------------------------------------- from a notification to its entry

  /** Every place of an event that is not a rejection is reached. */
  lemma {:induction false} PlacesAreAll(outbox: seq<EventType>, p: nat)
    requires p < |outbox| && outbox[p] != PaymentRejected
    ensures var m := |WithoutRejections(outbox[..p])|; m < |WithoutRejections(outbox)| && PlaceOf(outbox, m) == p
    decreases |outbox|
  {
    var n := |outbox| - 1;
    if p < n {
      assert outbox[..n][..p] == outbox[..p];
      PlacesAreAll(outbox[..n], p);
    }
  }

  /** Every event that a history owes is owed by one of its entries. */
  lemma {:induction false} EntryOfEvent(history: seq<HistoryRow>, m: nat) returns (k: nat)
    requires m < |EventsOf(history)|
    ensures k < |history| && EventsFor(history[k]) != [] && |EventsOf(history[..k])| == m
    decreases |history|
  {
    var n := |history| - 1;
    if m < |EventsOf(history[..n])| {
      k := EntryOfEvent(history[..n], m);
      assert history[..n][..k] == history[..k];
    } else {
      k := n;
    }
  }

  /** The `p`-th event of an order, unless it is a rejection, is the event of an entry of its history. */
  lemma {:induction false} EventHasEntry(a: Aggregate, ids: seq<nat>, p: nat) returns (k: nat)
    requires OutboxOk(a) && |ids| == |a.outbox| && p < |ids| && a.outbox[p] != PaymentRejected
    ensures k < |a.history| && EventsFor(a.history[k]) == [a.outbox[p]] && RowOf(a, ids, k) == ids[p]
  {
    PlacesAreAll(a.outbox, p);
    var m := |WithoutRejections(a.outbox[..p])|;
    k := EntryOfEvent(a.history, m);
    EventOfEntry(a.history, k);
    PlaceIsRight(a.outbox, m);
    assert |EventsFor(a.history[k])| == 1;
  }

  /** The entry of an order that a notification stands for. */
  predicate StandsFor(a: Aggregate, ids: seq<nat>, n: OutboxWorker.Notification, k: nat)
    requires OutboxOk(a) && |ids| == |a.outbox|
  {
    k < |a.history| && EventsFor(a.history[k]) == [n.kind] && RowOf(a, ids, k) == n.event
  }

  lemma {:induction false} NotificationHasRow(reqs: Requests, w: World, i: nat) returns (p: nat)
    requires WorldOk(reqs, w) && i < |w.worker.notifications|
    ensures var n := w.worker.notifications[i];
            var a, ids := Order(reqs, w, n.request), IdsOf(w, n.request);
            p < |ids| == |a.outbox| && ids[p] == n.event && a.outbox[p] == n.kind
            && n.recipient == reqs(n.request).client
  {
    hide OrderIn;
    var n := w.worker.notifications[i];
    assert OutboxWorker.NotificationOk(ClientOf(reqs), w.worker, i);
    var ids := IdsOf(w, n.request);
    assert Linked(Order(reqs, w, n.request).outbox, ids, w.worker, n.request);
    p :| 0 <= p < |ids| && ids[p] == n.event;
  }

  /** Nothing is notified that did not happen. In every interleaving every notification goes to the client of its
      order and belongs to one event of that order of its own kind: a rejection, or the event of exactly one entry of
      the order's history. */
  lemma {:induction false} EveryNotificationHasItsEntry(reqs: Requests, start: int, moves: seq<Move>, i: nat)
    requires i < |Happen(reqs, start, moves).worker.notifications|
    ensures var w := Happen(reqs, start, moves);
            var n := w.worker.notifications[i];
            var a, ids := Order(reqs, w, n.request), IdsOf(w, n.request);
            n.recipient == reqs(n.request).client && OutboxOk(a) && |ids| == |a.outbox|
            && (exists p :: 0 <= p < |ids| && ids[p] == n.event && a.outbox[p] == n.kind)
            && (n.kind != PaymentRejected ==> exists k :: StandsFor(a, ids, n, k))
            && forall j, k :: StandsFor(a, ids, n, j) && StandsFor(a, ids, n, k) ==> j == k
  {
    hide Happen, WorldOk, Linked, EventsOf, WithoutRejections, Order, RowOf;
    HappenIsGood(reqs, start, moves);
    var w := Happen(reqs, start, moves);
    var n := w.worker.notifications[i];
    var a, ids := Order(reqs, w, n.request), IdsOf(w, n.request);
    OutboxIsConserved(reqs, w, n.request);
    var p := NotificationHasRow(reqs, w, i);
    if n.kind != PaymentRejected {
      var k := EventHasEntry(a, ids, p);
      assert StandsFor(a, ids, n, k);
    }
    forall j, k | StandsFor(a, ids, n, j) && StandsFor(a, ids, n, k) ensures j == k {
      if j < k { EntriesHaveTheirOwnRow(reqs, w, n.request, j, k); }
      if k < j { EntriesHaveTheirOwnRow(reqs, w, n.request, k, j); }
    }
  }

  // ---------------------------------------------------------------- how many notifications of a kind

  /** The notifications of a kind that an order's client got. */
  function NotesFor(ns: seq<OutboxWorker.Notification>, request: string, kind: EventType): nat {
    if ns == [] then 0
    else
      NotesFor(ns[..|ns| - 1], request, kind)
      + if ns[|ns| - 1].request == request && ns[|ns| - 1].kind == kind then 1 else 0
  }

  /** The notifications of the events of a kind, event by event. */
  function NotesByEvent(ns: seq<OutboxWorker.Notification>, ids: seq<nat>, outbox: seq<EventType>, kind: EventType): nat
    requires |ids| == |outbox|
  {
    if ids == [] then 0
    else
      var n := |ids| - 1;
      NotesByEvent(ns, ids[..n], outbox[..n], kind)
      + if outbox[n] == kind then OutboxTheorems.NotificationsOf(ns, ids[n]) else 0
  }

  lemma {:induction false} NoNotes(ids: seq<nat>, outbox: seq<EventType>, kind: EventType)
    requires |ids| == |outbox|
    ensures NotesByEvent([], ids, outbox, kind) == 0
  {
    if ids != [] { NoNotes(ids[..|ids| - 1], outbox[..|ids| - 1], kind); }
  }

  /** One more notification, of an event that is listed once, or not at all. */
  lemma {:induction false} OneMoreNote(ns: seq<OutboxWorker.Notification>, n: OutboxWorker.Notification, ids: seq<nat>,
                                       outbox: seq<EventType>, kind: EventType)
    requires |ids| == |outbox| && forall i, j :: 0 <= i < j < |ids| ==> ids[i] != ids[j]
    ensures NotesByEvent(ns + [n], ids, outbox, kind)
         == NotesByEvent(ns, ids, outbox, kind)
            + if exists p :: 0 <= p < |ids| && ids[p] == n.event && outbox[p] == kind then 1 else 0
    decreases |ids|
  {
    assert (ns + [n])[..|ns|] == ns;
    if ids != [] {
      var l := |ids| - 1;
      OneMoreNote(ns, n, ids[..l], outbox[..l], kind);
      if p: nat :| p < |ids| && ids[p] == n.event && outbox[p] == kind {
        if p < l { assert ids[..l][p] == n.event && outbox[..l][p] == kind; }
      }
    }
  }

  /** Counting by event and counting by kind agree when every notification is of a listed event of its own kind
      exactly if it is the order's. */
  lemma {:induction false} CountsAgree(ns: seq<OutboxWorker.Notification>, ids: seq<nat>, outbox: seq<EventType>,
                                       request: string, kind: EventType)
    requires |ids| == |outbox| && forall i, j :: 0 <= i < j < |ids| ==> ids[i] != ids[j]
    requires forall i :: 0 <= i < |ns| ==>
               ((exists p :: 0 <= p < |ids| && ids[p] == ns[i].event && outbox[p] == kind)
                <==> ns[i].request == request && ns[i].kind == kind)
    ensures NotesFor(ns, request, kind) == NotesByEvent(ns, ids, outbox, kind)
    decreases |ns|
  {
    if ns == [] {
      NoNotes(ids, outbox, kind);
    } else {
      var n := |ns| - 1;
      CountsAgree(ns[..n], ids, outbox, request, kind);
      OneMoreNote(ns[..n], ns[n], ids, outbox, kind);
      assert ns[..n] + [ns[n]] == ns;
    }
  }

  lemma {:induction false} EachOnce(ns: seq<OutboxWorker.Notification>, ids: seq<nat>, outbox: seq<EventType>,
                                    kind: EventType)
    requires |ids| == |outbox| && forall p :: 0 <= p < |ids| ==> OutboxTheorems.NotificationsOf(ns, ids[p]) == 1
    ensures NotesByEvent(ns, ids, outbox, kind) == Count(outbox, kind)
    decreases |ids|
  {
    if ids != [] { EachOnce(ns, ids[..|ids| - 1], outbox[..|ids| - 1], kind); }
  }

  /** A notification is of a listed event and kind exactly if it is the order's and of that kind. */
  lemma {:induction false} ListedExactly(reqs: Requests, w: World, request: string, kind: EventType, i: nat)
    requires WorldOk(reqs, w) && i < |w.worker.notifications|
    ensures var n, ids, outbox := w.worker.notifications[i], IdsOf(w, request), Order(reqs, w, request).outbox;
            |ids| == |outbox|
            && ((exists p :: 0 <= p < |ids| && ids[p] == n.event && outbox[p] == kind)
                <==> n.request == request && n.kind == kind)
  {
    hide OrderIn;
    var n, ids, outbox := w.worker.notifications[i], IdsOf(w, request), Order(reqs, w, request).outbox;
    assert Linked(outbox, ids, w.worker, request);
    assert OutboxWorker.NotificationOk(ClientOf(reqs), w.worker, i);
    if n.request == request && n.kind == kind {
      var p := NotificationHasRow(reqs, w, i);
      assert ids[p] == n.event && outbox[p] == kind;
    }
  }

  /** Once an order's events are drained without a failure, its client has one notification for the assignment and each
      reassignment, for the departure, for a cancellation and for its own conformity, and none of these besides. */
  lemma {:induction false} NotificationsCountRows(reqs: Requests, start: int, moves: seq<Move>, request: string)
    requires Drained(Happen(reqs, start, moves), request)
    ensures var w := Happen(reqs, start, moves);
            var ns, h := w.worker.notifications, Order(reqs, w, request).history;
            NotesFor(ns, request, AssignmentChanged) == Rows(h, {AssignTechnician, ReassignTechnician})
            && NotesFor(ns, request, WentEnRoute) == Rows(h, {MarkEnRoute})
            && NotesFor(ns, request, OrderCancelled) == Rows(h, {Cancel})
            && NotesFor(ns, request, OrderClosed) == ConformityRows(h)
  {
    hide Happen, WorldOk, NotesFor, Count, Rows, ConformityRows, Drained, OrderIn;
    HappenIsGood(reqs, start, moves);
    var w := Happen(reqs, start, moves);
    EventsCountRows(reqs, w.schedule, |w.schedule|, request);
    CountedPerKind(reqs, w, request, AssignmentChanged);
    CountedPerKind(reqs, w, request, WentEnRoute);
    CountedPerKind(reqs, w, request, OrderCancelled);
    CountedPerKind(reqs, w, request, OrderClosed);
  }

  /** Once an order's events are drained without a failure, its client has exactly as many notifications of each kind
      as the order has events of that kind: one per rejected attempt among them, as long as no ended attempt was
      overwritten, and one for the payment, or none if it was confirmed by hand. */
  lemma {:induction false} NotificationsPerKind(reqs: Requests, start: int, moves: seq<Move>, request: string,
                                                kind: EventType)
    requires Drained(Happen(reqs, start, moves), request)
    ensures var w := Happen(reqs, start, moves);
            var a := Order(reqs, w, request);
            NotesFor(w.worker.notifications, request, kind) == Count(a.outbox, kind)
            && ((forall i :: 0 <= i < |w.schedule| ==> !OverwritesEnded(reqs, w.schedule, request, i)) ==>
                 NotesFor(w.worker.notifications, request, PaymentRejected) == RejectedNow(a.attempts))
            && NotesFor(w.worker.notifications, request, PaymentApproved) == ProviderRows(a.history)
  {
    hide Happen, WorldOk, NotesFor, Count, RejectedNow, ProviderRows, OverwritesEnded, Drained, OrderIn;
    HappenIsGood(reqs, start, moves);
    var w := Happen(reqs, start, moves);
    CountedPerKind(reqs, w, request, kind);
    CountedPerKind(reqs, w, request, PaymentRejected);
    CountedPerKind(reqs, w, request, PaymentApproved);
    ProviderConfirmsOnce(reqs, w.schedule, |w.schedule|, request);
    if forall i :: 0 <= i < |w.schedule| ==> !OverwritesEnded(reqs, w.schedule, request, i) {
      OneRejectionPerRejectedAttempt(reqs, w.schedule, |w.schedule|, request);
    }
  }

  lemma {:induction false} CountedPerKind(reqs: Requests, w: World, request: string, kind: EventType)
    requires WorldOk(reqs, w) && Drained(w, request)
    ensures NotesFor(w.worker.notifications, request, kind) == Count(Order(reqs, w, request).outbox, kind)
  {
    hide OrderIn, OutboxWorker.SystemOk, NotesFor, Count, NotesByEvent, OutboxTheorems.NotificationsOf;
    var ns, ids, outbox := w.worker.notifications, IdsOf(w, request), Order(reqs, w, request).outbox;
    assert Linked(outbox, ids, w.worker, request);
    forall i | 0 <= i < |ns|
      ensures (exists p :: 0 <= p < |ids| && ids[p] == ns[i].event && outbox[p] == kind)
         <==> ns[i].request == request && ns[i].kind == kind
    {
      ListedExactly(reqs, w, request, kind, i);
    }
    CountsAgree(ns, ids, outbox, request, kind);
    forall p | 0 <= p < |ids| ensures OutboxTheorems.NotificationsOf(ns, ids[p]) == 1 {
      OutboxTheorems.OneNotification(ClientOf(reqs), w.worker, ids[p]);
    }
    EachOnce(ns, ids, outbox, kind);
  }
}
