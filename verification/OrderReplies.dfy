/** What `assign` and `resolve` answer, in particular after a unique key has refused their transaction and they look
    their idempotency key up again. */
module OrderReplies {
  import opened Wrappers
  import opened OrderStateMachine
  import opened WorkOrder
  import opened WorkOrderInvariant
  import opened WorkOrderSteps
  import opened OrderAnswers
  import opened OrderHistory
  import opened Ledger
  import opened LedgerTheorems

  datatype Reply = Accepted | Refused(why: Failure)

  // ---------------------------------------------------------------- the look-ups

  /** The look-up before an assignment: an answer if the key is there. */
  function AssignLook(db: Db, request: string, op: Op): Option<Reply>
    requires op.Assign?
  {
    var k := (op.actor.profileId, op.key);
    if k !in db.assignments then None
    else
      var row := db.assignments[k];
      if row.request != request || row.technician != op.technician then Some(Refused(PayloadMismatch))
      else if row.workOrder.None? then Some(Refused(AssignmentInProgress))
      else Some(Accepted)
  }

  /** The look-up after a unique violation. */
  function AssignLookAgain(db: Db, request: string, op: Op): Reply
    requires op.Assign?
  {
    var k := (op.actor.profileId, op.key);
    if k in db.assignments && db.assignments[k].workOrder.Some? && db.assignments[k].request == request
       && db.assignments[k].technician == op.technician then Accepted
    else Refused(OrderAlreadyExists)
  }

  /** An assignment looks its key up in `looked`, commits in `now`, and after a unique violation looks again in
      `again`. */
  function AssignReply(looked: Db, now: Db, again: Db, request: string, op: Op): Reply
    requires op.Assign?
  {
    if !op.actor.Operator() then Refused(NotFound)
    else
      match AssignLook(looked, request, op)
      case Some(reply) => reply
      case None =>
        var r := AssignTx(At(now, request), op.actor, op.technician, op.requestReady, op.assignable);
        if r.Err? && r.error != UniqueViolation then Refused(r.error)
        else if KeyUsed(op, now) || r.Err? then AssignLookAgain(again, request, op)
        else Accepted
  }

  function ResolveLook(db: Db, request: string, op: Op): Option<Reply>
    requires op.Resolve?
  {
    var k := (op.actor.profileId, op.key);
    if k !in db.commands then None
    else
      var row := db.commands[k];
      if row.request != request || row.payload != op.payload then Some(Refused(PayloadMismatch))
      else if row.resolution.None? then Some(Refused(ResolutionInProgress))
      else Some(Accepted)
  }

  function ResolveLookAgain(db: Db, request: string, op: Op): Reply
    requires op.Resolve?
  {
    var k := (op.actor.profileId, op.key);
    if k in db.commands && db.commands[k].resolution.Some? && db.commands[k].request == request
       && db.commands[k].payload == op.payload
    then Accepted
    else Refused(PayloadMismatch)
  }

  /** A resolution looks its key up in `looked`, reads the order in `first`, commits in `now`, and after a unique
      violation looks again in `again`. */
  function ResolveReply(req: Request, looked: Db, first: Db, now: Db, again: Db, request: string, op: Op): Reply
    requires op.Resolve?
  {
    if !op.actor.Operator() then Refused(NotFound)
    else
      match ResolveLook(looked, request, op)
      case Some(reply) => reply
      case None =>
        var r := ResolveTx(req, At(first, request), At(now, request), op.actor, op.payload.resolution,
                           op.payload.expectedVersion);
        if r.Err? && r.error != UniqueViolation then Refused(r.error)
        else if KeyUsed(op, now) || r.Err? then ResolveLookAgain(again, request, op)
        else Accepted
  }

  // ---------------------------------------------------------------- keys appear with their results

  /** A transaction that records a key is the first to assign, or to resolve, its order. */
  lemma {:induction false} RecordingIsFirst(reqs: Requests, request: string, op: Op, first: Db, second: Db, now: Db,
                                            k: Key)
    requires DbGood(reqs, first) && DbGood(reqs, now) && DbExtends(first, now)
    ensures var next := Execute(reqs, request, op, first, second, now);
            (k !in now.assignments && k in next.assignments ==> At(now, next.assignments[k].request).history == [])
            && (k !in now.commands && k in next.commands ==> At(now, next.commands[k].request).resolution.None?)
  {
    hide Good, Extends, Tx, AssignmentsOk, CommandsOk;
    var x, y, current := At(first, request), At(second, request), At(now, request);
    assert Good(reqs(request), x) && Good(reqs(request), current) && Extends(x, current);
    if Tx(reqs(request), op, x, y, current).Ok? { TxResult(reqs(request), op, x, y, current); }
  }

  /** A key that is not there yet will only ever be recorded for an order that is not assigned, or not resolved, yet. */
  lemma {:induction false} LaterKeysAreForOpenOrders(reqs: Requests, schedule: seq<Commit>, n: nat, j: nat, k: Key)
    requires n <= j <= |schedule|
    ensures var a, b := Run(reqs, schedule)[n], Run(reqs, schedule)[j];
            (k !in a.assignments && k in b.assignments ==> At(a, b.assignments[k].request).history == [])
            && (k !in a.commands && k in b.commands ==> At(a, b.commands[k].request).resolution.None?)
    decreases j
  {
    hide DbGood, DbExtends, Run, Execute, Extends;
    if n < j {
      var states := Run(reqs, schedule);
      var a, b, now, c := states[n], states[j], states[j - 1], schedule[j - 1];
      LaterKeysAreForOpenOrders(reqs, schedule, n, j - 1, k);
      RunIsGood(reqs, schedule);
      RunStep(reqs, schedule, j - 1);
      KeysStay(a, now, k);
      KeysStay(now, b, k);
      if c.firstRead <= c.secondRead < j {
        RecordingIsFirst(reqs, c.request, c.op, states[c.firstRead], states[c.secondRead], now, k);
        if k in b.assignments { HistoriesGrow(a, now, b.assignments[k].request); }
        if k in b.commands { HistoriesGrow(a, now, b.commands[k].request); }
      }
    }
  }

  lemma {:induction false} KeysStay(a: Db, b: Db, k: Key)
    requires DbExtends(a, b)
    ensures k in a.assignments ==> k in b.assignments && b.assignments[k] == a.assignments[k]
    ensures k in a.commands ==> k in b.commands && b.commands[k] == a.commands[k]
  {
    hide Extends;
  }

  lemma {:induction false} KeysNameResults(reqs: Requests, db: Db, k: Key)
    requires DbGood(reqs, db)
    ensures k in db.assignments ==> db.assignments[k].workOrder == Some(db.assignments[k].request)
    ensures k in db.commands ==> db.commands[k].resolution == Some(db.commands[k].request)
  {
    hide OrdersGood;
  }

  lemma {:induction false} HistoriesGrow(a: Db, b: Db, request: string)
    requires DbExtends(a, b)
    ensures At(b, request).history == [] ==> At(a, request).history == []
    ensures At(b, request).resolution.None? ==> At(a, request).resolution.None?
  {
    assert Extends(At(a, request), At(b, request));
  }

  // ---------------------------------------------------------------- assignments

  /** The states an assignment sees: it looks at state `i`, its commit `c` follows `schedule`, and it looks again at
      state `j` of the schedule as it has grown by then. */
  ghost predicate SeenBy(schedule: seq<Commit>, c: Commit, longer: seq<Commit>, i: nat, j: nat) {
    i <= |schedule| < j <= |longer| && schedule + [c] <= longer
  }

  lemma {:induction false} UnassignedHasNoHistory(reqs: Requests, db: Db, request: string)
    requires DbGood(reqs, db)
    ensures At(db, request).order.None? <==> At(db, request).history == []
  {
    assert Good(reqs(request), At(db, request));
  }

  /** When the transaction of an assignment is refused, and by what. */
  lemma {:induction false} AssignOutcome(req: Request, now: Aggregate, actor: Actor, technician: string, ready: bool,
                                         assignable: bool)
    requires Good(req, now)
    ensures var r := AssignTx(now, actor, technician, ready, assignable);
            (r == Err(UniqueViolation) <==> actor.Operator() && ready && assignable && now.order.Some?)
            && (r.Ok? <==> actor.Operator() && ready && assignable && now.order.None?)
            && r != Err(PayloadMismatch) && r != Err(AssignmentInProgress) && r != Err(OrderAlreadyExists)
  {
    hide WriteOrder, LastTechnician;
    AssignIsGood(req, now, actor, technician, ready, assignable);
  }

  /** An assignment that goes through records its key. */
  lemma {:induction false} AssignRecords(reqs: Requests, request: string, op: Op, first: Db, second: Db, now: Db)
    requires op.Assign? && DbGood(reqs, now) && !KeyUsed(op, first) && !KeyUsed(op, now)
    requires op.actor.Operator() && op.requestReady && op.assignable && At(now, request).order.None?
    ensures var next := Execute(reqs, request, op, first, second, now);
            (op.actor.profileId, op.key) in next.assignments
            && next.assignments[(op.actor.profileId, op.key)] == Assignment(request, op.technician, Some(request))
  {
    hide Good, WriteOrder;
    UnassignedHasNoHistory(reqs, now, request);
    assert Good(reqs(request), At(now, request));
    AssignIsGood(reqs(request), At(now, request), op.actor, op.technician, op.requestReady, op.assignable);
  }

  /** The answers of an assignment, in every run. No caller is told that its key is in progress. It is accepted only
      if in the end its key holds its request and technician. ORDER_ALREADY_EXISTS is answered exactly if the order
      existed at the commit, or the key had meanwhile been taken for something else. */
  lemma {:induction false} AssignReplies(reqs: Requests, schedule: seq<Commit>, c: Commit, longer: seq<Commit>, i: nat,
                                         j: nat)
    requires c.op.Assign? && c.firstRead <= c.secondRead <= |schedule| && i <= c.firstRead
             && SeenBy(schedule, c, longer, i, j)
    ensures var states, op := Run(reqs, longer), c.op;
            var now, last := states[|schedule|], states[j];
            var k, mine := (op.actor.profileId, op.key), Assignment(c.request, op.technician, Some(c.request));
            var reply := AssignReply(states[i], now, last, c.request, op);
            reply != Refused(AssignmentInProgress)
            && (reply.Accepted? ==> k in last.assignments && last.assignments[k] == mine)
            && (reply == Refused(PayloadMismatch) ==> k in last.assignments && last.assignments[k] != mine)
            && (reply == Refused(OrderAlreadyExists) <==>
                  op.actor.Operator() && op.requestReady && op.assignable && k !in states[i].assignments
                  && if k in now.assignments then now.assignments[k] != mine else At(now, c.request).order.Some?)
    ensures var states, op := Run(reqs, longer), c.op;
            var looked, now := states[i].assignments, states[|schedule|];
            var k, mine := (op.actor.profileId, op.key), Assignment(c.request, op.technician, Some(c.request));
            AssignReply(states[i], now, states[j], c.request, op)
            == if op.actor.role == Client then Refused(NotFound)
               else if k in looked then (if looked[k] == mine then Accepted else Refused(PayloadMismatch))
               else if !op.requestReady then Refused(RequestNotReady)
               else if !op.assignable then Refused(TechnicianNotAssignable)
               else if k in now.assignments then
                 (if now.assignments[k] == mine then Accepted else Refused(OrderAlreadyExists))
               else if At(now, c.request).history != [] then Refused(OrderAlreadyExists)
               else Accepted
  {
    hide DbGood, DbExtends, Run, Execute, Tx, AssignTx, Good;
    AssignAnswersIn(reqs, longer, |schedule|, c);
    var states, op, n := Run(reqs, longer), c.op, |schedule|;
    var k := (op.actor.profileId, op.key);
    var now, last := states[n], states[j];
    RunIsGood(reqs, longer);
    KeysNameResults(reqs, states[i], k);
    KeysNameResults(reqs, last, k);
    KeysStay(states[i], last, k);
    KeysStay(states[i], now, k);
    KeysStay(now, last, k);
    KeysStay(states[n + 1], last, k);
    LaterKeysAreForOpenOrders(reqs, longer, n, j, k);
    UnassignedHasNoHistory(reqs, now, c.request);
    GoodOrder(reqs, now, c.request);
    AssignOutcome(reqs(c.request), At(now, c.request), op.actor, op.technician, op.requestReady, op.assignable);
    RunStep(reqs, longer, n);
    assert longer[n] == c;
    KeysStay(states[c.firstRead], now, k);
    if op.actor.Operator() && op.requestReady && op.assignable
       && k !in now.assignments && At(now, c.request).order.None? {
      AssignRecords(reqs, c.request, op, states[c.firstRead], states[c.secondRead], now);
    }
  }

  /** ORDER_ALREADY_EXISTS can be answered for a request that has no order: one key, used at the same time for two
      requests. */
  lemma {:induction false} AlreadyExistsWithoutOrder(reqs: Requests, op: Op, first: string, second: string)
    requires op.Assign? && op.actor.Operator() && op.requestReady && op.assignable && first != second
    ensures var schedule := [Commit(first, op, 0, 0), Commit(second, op, 0, 0)];
            var states := Run(reqs, schedule);
            AssignReply(states[0], states[1], states[2], second, op) == Refused(OrderAlreadyExists)
            && At(states[2], second).order.None?
  {
    hide Run, Execute, NextState, Tx;
    var c, d := Commit(first, op, 0, 0), Commit(second, op, 0, 0);
    var schedule := [c, d];
    var states := Run(reqs, schedule);
    EmptyRun(reqs);
    RunStep(reqs, schedule, 0);
    RunStep(reqs, schedule, 1);
    assert schedule[..0] == [] && states[..1] == [EMPTY_DB] && states[0] == states[..1][0];
    assert states[..2][0] == EMPTY_DB && states[..2][1] == states[1];
    EmptyDbIsGood(reqs);
    OneAssignment(reqs, first, op);
    assert states[1] == Execute(reqs, first, op, EMPTY_DB, EMPTY_DB, EMPTY_DB) by {
      NextIsExecute(reqs, [EMPTY_DB], c);
    }
    NextIsExecute(reqs, states[..2], d);
    UsedKeyChangesNothing(reqs, second, op, EMPTY_DB, EMPTY_DB, states[1]);
  }

  lemma {:induction false} EmptyRun(reqs: Requests)
    ensures Run(reqs, []) == [EMPTY_DB]
  {
  }

  lemma {:induction false} NextIsExecute(reqs: Requests, states: seq<Db>, c: Commit)
    requires states != [] && c.firstRead == c.secondRead == 0
    ensures NextState(reqs, states, c) == Execute(reqs, c.request, c.op, states[0], states[0], states[|states| - 1])
  {
  }

  lemma {:induction false} OneAssignment(reqs: Requests, request: string, op: Op)
    requires op.Assign? && op.actor.Operator() && op.requestReady && op.assignable
    ensures var next := Execute(reqs, request, op, EMPTY_DB, EMPTY_DB, EMPTY_DB);
            (op.actor.profileId, op.key) in next.assignments
            && next.assignments[(op.actor.profileId, op.key)] == Assignment(request, op.technician, Some(request))
            && forall other :: other != request ==> At(next, other) == EMPTY
  {
    hide Execute, Tx;
    EmptyDbIsGood(reqs);
    AssignRecords(reqs, request, op, EMPTY_DB, EMPTY_DB, EMPTY_DB);
    forall other | other != request
      ensures At(Execute(reqs, request, op, EMPTY_DB, EMPTY_DB, EMPTY_DB), other) == EMPTY
    {
      CommitIsLocal(reqs, [EMPTY_DB], Commit(request, op, 0, 0), other);
      NextIsExecute(reqs, [EMPTY_DB], Commit(request, op, 0, 0));
    }
  }

  // ---------------------------------------------------------------- resolutions

  /** An order that was finished when read and has moved since has been resolved. */
  lemma {:induction false} MovedOnMeansResolved(req: Request, read: Aggregate, now: Aggregate)
    requires Good(req, read) && Good(req, now) && Extends(read, now)
    requires InState(read, {WorkFinished}) && read.history != now.history
    ensures now.resolution.Some?
  {
    hide LastTechnician, EventsOf, WithoutRejections, Count, RejectionsIn, AttemptsOk, ApprovalsOk, PaymentsOk;
    hide WritersOk;
    var i := |read.history|;
    assert now.history[..i] == read.history && RowOk(now.history, i);
    assert now.history[i].from == WorkFinished;
    OnlyPaymentFollows(now.history[i].action, now.history[i].to);
    PaymentStage(now.history);
    PaymentStates(now);
  }

  lemma {:induction false} OnlyPaymentFollows(action: Action, to: OrderState)
    requires Permitted(WorkFinished, action, to)
    ensures action == CreateFixedPayment
  {
  }

  /** When the transaction of a resolution is refused by a unique key. */
  lemma {:induction false} ResolveOutcome(req: Request, read: Aggregate, now: Aggregate, actor: Actor,
                                          resolution: Resolution, version: int)
    requires Good(req, read) && Good(req, now) && Extends(read, now)
    ensures var r := ResolveTx(req, read, now, actor, resolution, version);
            (r == Err(UniqueViolation) <==> ResolveRequestOk(req, read, actor, version) && read.history != now.history)
            && (r == Err(UniqueViolation) ==> now.resolution.Some?)
            && r != Err(PayloadMismatch) && r != Err(ResolutionInProgress)
  {
    hide Good, Extends;
    ResolveIsGood(req, read, now, actor, resolution, version);
    if ResolveRequestOk(req, read, actor, version) && read.history != now.history {
      MovedOnMeansResolved(req, read, now);
      assert read.charge.None? by { UnpaidHasNoCharge(req, read); }
    }
    hide WriteOrder;
  }

  /** A resolution that goes through records its key. */
  lemma {:induction false} ResolveRecords(reqs: Requests, request: string, op: Op, first: Db, second: Db, now: Db)
    requires op.Resolve? && !KeyUsed(op, first) && !KeyUsed(op, now)
    requires ResolveTx(reqs(request), At(first, request), At(now, request), op.actor, op.payload.resolution,
                       op.payload.expectedVersion).Ok?
    ensures var next := Execute(reqs, request, op, first, second, now);
            (op.actor.profileId, op.key) in next.commands
            && next.commands[(op.actor.profileId, op.key)] == Command(request, op.payload, Some(request))
  {
    hide ResolveTx;
  }

  /** The answers of a resolution, in every run. No caller is told that its key is in progress. It is accepted only if
      in the end its key holds its order and payload. IDEMPOTENCY_PAYLOAD_MISMATCH is answered exactly if the key held
      something else when it was looked up or at the commit, or, although the key was not in use, if the order was
      resolved between read and commit. */
  lemma {:induction false} ResolveReplies(reqs: Requests, schedule: seq<Commit>, c: Commit, longer: seq<Commit>,
                                          i: nat, j: nat)
    requires c.op.Resolve? && c.firstRead <= c.secondRead <= |schedule| && i <= c.firstRead
             && SeenBy(schedule, c, longer, i, j)
    ensures var states, op := Run(reqs, longer), c.op;
            var first, now, last := states[c.firstRead], states[|schedule|], states[j];
            var k, mine := (op.actor.profileId, op.key), Command(c.request, op.payload, Some(c.request));
            var reply := ResolveReply(reqs(c.request), states[i], first, now, last, c.request, op);
            reply != Refused(ResolutionInProgress)
            && (reply.Accepted? ==> k in last.commands && last.commands[k] == mine)
            && (reply == Refused(PayloadMismatch) <==>
                  op.actor.Operator()
                  && if k in states[i].commands then states[i].commands[k] != mine
                     else ResolveRequestOk(reqs(c.request), At(first, c.request), op.actor, op.payload.expectedVersion)
                          && if k in now.commands then now.commands[k] != mine
                             else At(first, c.request).history != At(now, c.request).history)
    ensures var states, op := Run(reqs, longer), c.op;
            var looked, now := states[i].commands, states[|schedule|];
            var before := At(states[c.firstRead], c.request).history;
            var k, mine := (op.actor.profileId, op.key), Command(c.request, op.payload, Some(c.request));
            ResolveReply(reqs(c.request), states[i], states[c.firstRead], now, states[j], c.request, op)
            == if op.actor.role == Client then Refused(NotFound)
               else if k in looked then (if looked[k] == mine then Accepted else Refused(PayloadMismatch))
               else if before == [] then Refused(NotFound)
               else if StateAfter(before) != WorkFinished || op.payload.expectedVersion != |before| then
                 Refused(VersionConflict)
               else if reqs(c.request).currency != "ARS" then Refused(ChargeInvalid)
               else if k in now.commands then
                 (if now.commands[k] == mine then Accepted else Refused(PayloadMismatch))
               else if At(now, c.request).history != before then Refused(PayloadMismatch)
               else Accepted
  {
    hide DbGood, DbExtends, Run, Execute, Tx, ResolveTx, Good, Extends, ResolveRequestOk, StateAfter;
    ResolveAnswersIn(reqs, longer, c.firstRead, |schedule|, c);
    var states, op, n := Run(reqs, longer), c.op, |schedule|;
    var k := (op.actor.profileId, op.key);
    var first, now, last := states[c.firstRead], states[n], states[j];
    RunIsGood(reqs, longer);
    KeysNameResults(reqs, states[i], k);
    KeysNameResults(reqs, last, k);
    KeysStay(states[i], last, k);
    KeysStay(states[i], first, k);
    KeysStay(first, now, k);
    KeysStay(now, last, k);
    KeysStay(states[n + 1], last, k);
    LaterKeysAreForOpenOrders(reqs, longer, n, j, k);
    RunStep(reqs, longer, n);
    assert longer[n] == c;
    GoodOrders(reqs, first, now, c.request);
    ResolveOutcome(reqs(c.request), At(first, c.request), At(now, c.request), op.actor, op.payload.resolution,
                   op.payload.expectedVersion);
    ResolveIsGood(reqs(c.request), At(first, c.request), At(now, c.request), op.actor, op.payload.resolution,
                  op.payload.expectedVersion);
    if k !in now.commands
       && ResolveTx(reqs(c.request), At(first, c.request), At(now, c.request), op.actor, op.payload.resolution,
                    op.payload.expectedVersion).Ok? {
      ResolveRecords(reqs, c.request, op, first, states[c.secondRead], now);
    }
  }

  /** Two resolutions of one order, under different unused keys, that both read it before either commits: the first
      goes through, and the second is told IDEMPOTENCY_PAYLOAD_MISMATCH although its key is never recorded. */
  lemma {:induction false} SecondResolverIsRefused(reqs: Requests, schedule: seq<Commit>, c: Commit, d: Commit)
    requires c.op.Resolve? && d.op.Resolve? && c.request == d.request
    requires c.firstRead == c.secondRead == d.firstRead == d.secondRead == |schedule|
    requires var db := Run(reqs, schedule)[|schedule|];
             !KeyUsed(c.op, db) && !KeyUsed(d.op, db)
             && ResolveRequestOk(reqs(c.request), At(db, c.request), c.op.actor, c.op.payload.expectedVersion)
             && ResolveRequestOk(reqs(c.request), At(db, c.request), d.op.actor, d.op.payload.expectedVersion)
    requires (c.op.actor.profileId, c.op.key) != (d.op.actor.profileId, d.op.key)
    ensures var states, n := Run(reqs, schedule + [c] + [d]), |schedule|;
            ResolveReply(reqs(c.request), states[n], states[n], states[n], states[n + 1], c.request, c.op) == Accepted
            && ResolveReply(reqs(c.request), states[n], states[n], states[n + 1], states[n + 2], c.request, d.op)
               == Refused(PayloadMismatch)
            && !KeyUsed(d.op, states[n + 2]) && states[n + 2] == states[n + 1]
  {
    hide Run, Execute, DbGood, DbExtends, Good, Extends, ResolveTx, ResolveRequestOk, NextState, ResolveReply;
    var n, longer := |schedule|, schedule + [c] + [d];
    RunAppends(reqs, schedule, c);
    RunAppends(reqs, schedule + [c], d);
    var early, middle, states := Run(reqs, schedule), Run(reqs, schedule + [c]), Run(reqs, longer);
    RunIsGood(reqs, longer);
    var db, next := states[n], states[n + 1];
    assert middle[n] == early[n] == db && middle[n + 1] == next && middle == early + [next];
    ReadsAre(reqs, early, c);
    ReadsAre(reqs, middle, d);
    FirstResolves(reqs, c.request, c.op, db, next);
    SecondIsRefused(reqs, c.request, c.op, d.op, db, next);
    ResolveReplies(reqs, schedule + [c], d, longer, n, n + 2);
  }

  lemma {:induction false} ReadsAre(reqs: Requests, states: seq<Db>, c: Commit)
    requires c.firstRead == c.secondRead < |states|
    ensures NextState(reqs, states, c)
         == Execute(reqs, c.request, c.op, states[c.firstRead], states[c.firstRead], states[|states| - 1])
  {
  }

  /** A resolution on a current read goes through, advances the order and records its own key only. */
  lemma {:induction false} FirstResolves(reqs: Requests, request: string, op: Op, db: Db, again: Db)
    requires op.Resolve? && DbGood(reqs, db) && !KeyUsed(op, db)
    requires ResolveRequestOk(reqs(request), At(db, request), op.actor, op.payload.expectedVersion)
    ensures var next := Execute(reqs, request, op, db, db, db);
            At(next, request).history != At(db, request).history
            && next.commands == db.commands[(op.actor.profileId, op.key) := Command(request, op.payload, Some(request))]
    ensures ResolveReply(reqs(request), db, db, db, again, request, op) == Accepted
  {
    hide Good, Extends, ResolveTx;
    var a := At(db, request);
    GoodOrder(reqs, db, request);
    ExtendsSelf(a);
    ResolveIsGood(reqs(request), a, a, op.actor, op.payload.resolution, op.payload.expectedVersion);
    ResolveAppends(reqs(request), a, a, op.actor, op.payload);
    assert op.actor.Operator();
  }

  /** A resolution whose order was resolved since it was read changes nothing. */
  lemma {:induction false} SecondIsRefused(reqs: Requests, request: string, first: Op, second: Op, db: Db, next: Db)
    requires first.Resolve? && second.Resolve? && DbGood(reqs, db) && DbGood(reqs, next) && DbExtends(db, next)
             && !KeyUsed(second, db)
    requires (first.actor.profileId, first.key) != (second.actor.profileId, second.key)
    requires ResolveRequestOk(reqs(request), At(db, request), second.actor, second.payload.expectedVersion)
    requires At(next, request).history != At(db, request).history
    requires var row := Command(request, first.payload, Some(request));
             next.commands == db.commands[(first.actor.profileId, first.key) := row]
    ensures !KeyUsed(second, next) && Execute(reqs, request, second, db, db, next) == next
    ensures second.actor.Operator()
  {
    hide Good, Extends, ResolveTx;
    GoodOrders(reqs, db, next, request);
    ResolveIsGood(reqs(request), At(db, request), At(next, request), second.actor, second.payload.resolution,
                  second.payload.expectedVersion);
  }

  lemma {:induction false} AssignAnswersIn(reqs: Requests, schedule: seq<Commit>, n: nat, c: Commit)
    requires n <= |schedule| && c.op.Assign?
    ensures var now, op := At(Run(reqs, schedule)[n], c.request), c.op;
            var r := AssignTx(now, op.actor, op.technician, op.requestReady, op.assignable);
            (op.actor.role == Client <==> !op.actor.Operator())
            && if op.actor.role == Client then r == Err(NotFound)
               else if !op.requestReady then r == Err(RequestNotReady)
               else if !op.assignable then r == Err(TechnicianNotAssignable)
               else if now.history != [] then r == Err(UniqueViolation)
               else r.Ok?
  {
    hide Run, AssignTx, Good;
    OrderIsGood(reqs, schedule, n, c.request);
    AssignAnswers(reqs(c.request), At(Run(reqs, schedule)[n], c.request), c.op.actor, c.op.technician,
                  c.op.requestReady, c.op.assignable);
  }

  lemma {:induction false} ResolveAnswersIn(reqs: Requests, schedule: seq<Commit>, i: nat, n: nat, c: Commit)
    requires i <= n <= |schedule| && c.op.Resolve?
    ensures var read, now := At(Run(reqs, schedule)[i], c.request), At(Run(reqs, schedule)[n], c.request);
            var req, p, before := reqs(c.request), c.op.payload, read.history;
            var r := ResolveTx(req, read, now, c.op.actor, p.resolution, p.expectedVersion);
            (c.op.actor.role == Client <==> !c.op.actor.Operator())
            && if c.op.actor.role == Client || before == [] then r == Err(NotFound)
               else if StateAfter(before) != WorkFinished || p.expectedVersion != |before| then
                 r == Err(VersionConflict)
               else if req.currency != "ARS" then r == Err(ChargeInvalid)
               else if now.history != before then r == Err(UniqueViolation)
               else r.Ok?
  {
    hide Run, ResolveTx, Good, Extends, StateAfter;
    OrderIsGood(reqs, schedule, i, c.request);
    OrderIsGood(reqs, schedule, n, c.request);
    OrderExtends(reqs, schedule, i, n, c.request);
    ResolveAnswers(reqs(c.request), At(Run(reqs, schedule)[i], c.request), At(Run(reqs, schedule)[n], c.request),
                   c.op.actor, c.op.payload.resolution, c.op.payload.expectedVersion);
  }

  lemma {:induction false} GoodOrder(reqs: Requests, db: Db, request: string)
    requires DbGood(reqs, db)
    ensures Good(reqs(request), At(db, request))
  {
    hide Good;
  }

  lemma {:induction false} GoodOrders(reqs: Requests, a: Db, b: Db, request: string)
    requires DbGood(reqs, a) && DbGood(reqs, b) && DbExtends(a, b)
    ensures Good(reqs(request), At(a, request)) && Good(reqs(request), At(b, request))
            && Extends(At(a, request), At(b, request))
  {
    hide Good, Extends;
  }
}
