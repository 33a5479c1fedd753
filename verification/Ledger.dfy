/** All work orders together, under any interleaving of the service calls that write them. */
module Ledger {
  import opened Wrappers
  import opened OrderStateMachine
  import opened WorkOrder
  import opened WorkOrderInvariant
  import opened WorkOrderSteps

  /** An idempotency key belongs to the profile that used it. */
  type Key = (string, string)

  /** The idempotency rows. Their last column names the result, by its request; a call whose row has none would be in
      progress. */
  datatype Assignment = Assignment(request: string, technician: string, workOrder: Option<string>)
  datatype Payload = Payload(resolution: Resolution, expectedVersion: int)
  datatype Command = Command(request: string, payload: Payload, resolution: Option<string>)

  datatype Db = Db(orders: map<string, Aggregate>, assignments: map<Key, Assignment>, commands: map<Key, Command>)

  const EMPTY_DB := Db(map[], map[], map[])

  function At(db: Db, request: string): Aggregate {
    if request in db.orders then db.orders[request] else EMPTY
  }

  function Put(db: Db, request: string, a: Aggregate): Db { db.(orders := db.orders[request := a]) }

  /** One transaction of a service call. */
  datatype Op =
    | Assign(actor: Actor, key: string, technician: string, requestReady: bool, assignable: bool)
    | Transit(actor: Actor, input: TransitionInput)
    | Resolve(actor: Actor, key: string, payload: Payload)
    | OpenAttempt(actor: Actor, reference: string, expectedVersion: int)
    | SettleCheckout(k: nat, outcome: CheckoutOutcome)
    | Reopen(k: nat, url: string)
    | ApplyPayment(payment: ProviderPayment)
    | Conform(actor: Actor, textVersion: string, expectedVersion: int)

  type Requests = string -> Request

  /** The transaction of an operation on one order that read `first` and then `second` and commits in `now`.
      Only a provider payment reads twice; the other calls use the first read. */
  function Tx(req: Request, op: Op, first: Aggregate, second: Aggregate, now: Aggregate): Result<Aggregate> {
    match op
    case Assign(actor, _, technician, ready, assignable) => AssignTx(now, actor, technician, ready, assignable)
    case Transit(actor, input) => TransitionTx(first, now, actor, input)
    case Resolve(actor, _, payload) => ResolveTx(req, first, now, actor, payload.resolution, payload.expectedVersion)
    case OpenAttempt(actor, reference, version) => OpenAttemptTx(req, first, now, actor, reference, version)
    case SettleCheckout(k, outcome) => SettleCheckoutTx(first, now, k, outcome)
    case Reopen(k, url) => ReopenTx(first, now, k, url)
    case ApplyPayment(p) => ApplyTx(first, second, now, p)
    case Conform(actor, text, version) => ConformityTx(req, first, now, actor, text, version)
  }

  /** The idempotency row of an assignment or a resolution exists already. */
  predicate KeyUsed(op: Op, db: Db) {
    (op.Assign? && (op.actor.profileId, op.key) in db.assignments)
    || (op.Resolve? && (op.actor.profileId, op.key) in db.commands)
  }

  function RecordKey(db: Db, request: string, op: Op): Db {
    if op.Assign? then
      var row := Assignment(request, op.technician, Some(request));
      db.(assignments := db.assignments[(op.actor.profileId, op.key) := row])
    else if op.Resolve? then
      db.(commands := db.commands[(op.actor.profileId, op.key) := Command(request, op.payload, Some(request))])
    else db
  }

  /** The database after a commit: the order's writes and the idempotency row together, or nothing. */
  function Execute(reqs: Requests, request: string, op: Op, first: Db, second: Db, now: Db): Db {
    if KeyUsed(op, first) || KeyUsed(op, now) then now
    else
      match Tx(reqs(request), op, At(first, request), At(second, request), At(now, request))
      case Err(_) => now
      case Ok(a) => RecordKey(Put(now, request, a), request, op)
  }

  // ---------------------------------------------------------------- schedules

  /** A commit, naming the earlier states its transaction read. */
  datatype Commit = Commit(request: string, op: Op, firstRead: nat, secondRead: nat)

  /** The states a schedule passes through. A commit may read any earlier state, the last included. */
  function Run(reqs: Requests, schedule: seq<Commit>): (states: seq<Db>)
    ensures |states| == |schedule| + 1
  {
    if schedule == [] then [EMPTY_DB]
    else
      var before := Run(reqs, schedule[..|schedule| - 1]);
      var c := schedule[|schedule| - 1];
      before + [NextState(reqs, before, c)]
  }

  function NextState(reqs: Requests, states: seq<Db>, c: Commit): Db
    requires states != []
  {
    var now := states[|states| - 1];
    if c.firstRead <= c.secondRead < |states| then
      Execute(reqs, c.request, c.op, states[c.firstRead], states[c.secondRead], now)
    else now
  }

  /** A commit changes no order but its own, and that one only as its transaction says. */
  lemma {:induction false} CommitIsLocal(reqs: Requests, states: seq<Db>, c: Commit, request: string)
    requires states != []
    ensures var now, next := At(states[|states| - 1], request), At(NextState(reqs, states, c), request);
            next == now
            || (c.request == request && c.firstRead <= c.secondRead < |states|
                && Tx(reqs(request), c.op, At(states[c.firstRead], request), At(states[c.secondRead], request), now)
                   == Ok(next))
  {
    hide Tx;
  }

  // ---------------------------------------------------------------- invariant

  /** Each assignment key created one order, with its technician, and names it; no two keys created the same. */
  predicate AssignmentsOk(db: Db) {
    (forall k :: k in db.assignments ==>
      var h := At(db, db.assignments[k].request).history;
      db.assignments[k].workOrder == Some(db.assignments[k].request) && h != [] && h[0].actor == Some(k.0)
      && h[0].technician == Some(db.assignments[k].technician))
    && forall j, k ::
         j in db.assignments && k in db.assignments && db.assignments[j].request == db.assignments[k].request ==> j == k
  }

  /** Each resolution key wrote one resolution, its own payload's, and names it; no two keys wrote the same. */
  predicate CommandsOk(db: Db) {
    (forall k :: k in db.commands ==>
      db.commands[k].resolution == Some(db.commands[k].request)
      && At(db, db.commands[k].request).resolution == Some(db.commands[k].payload.resolution))
    && forall j, k ::
         j in db.commands && k in db.commands && db.commands[j].request == db.commands[k].request ==> j == k
  }

  ghost predicate OrdersGood(reqs: Requests, db: Db) {
    forall r: string :: Good(reqs(r), At(db, r))
  }

  ghost predicate DbGood(reqs: Requests, db: Db) {
    OrdersGood(reqs, db) && AssignmentsOk(db) && CommandsOk(db)
  }

  ghost predicate DbExtends(a: Db, b: Db) {
    (forall r: string :: Extends(At(a, r), At(b, r)))
    && (forall k :: k in a.assignments ==> k in b.assignments && b.assignments[k] == a.assignments[k])
    && (forall k :: k in a.commands ==> k in b.commands && b.commands[k] == a.commands[k])
  }

  /** Replacing one order by a good one that extends it keeps the database good. */
  lemma {:induction false} PutIsGood(reqs: Requests, db: Db, request: string, a: Aggregate)
    requires DbGood(reqs, db)
    requires Good(reqs(request), a) && Extends(At(db, request), a)
    ensures DbGood(reqs, Put(db, request, a)) && DbExtends(db, Put(db, request, a))
  {
    hide Good;
    var next := Put(db, request, a);
    forall r: string ensures Good(reqs(r), At(next, r)) && Extends(At(db, r), At(next, r)) {
      if r != request { ExtendsSelf(At(db, r)); }
    }
  }

  lemma {:induction false} DbExtendsSelf(db: Db)
    ensures DbExtends(db, db)
  {
    forall r: string ensures Extends(At(db, r), At(db, r)) { ExtendsSelf(At(db, r)); }
  }

  lemma {:induction false} DbExtendsIsTransitive(a: Db, b: Db, c: Db)
    requires DbExtends(a, b) && DbExtends(b, c)
    ensures DbExtends(a, c)
  {
    forall r: string ensures Extends(At(a, r), At(c, r)) { ExtendsIsTransitive(At(a, r), At(b, r), At(c, r)); }
  }

  /** Tables beside the orders do not matter to the orders. */
  lemma {:induction false} OrdersAreEnough(reqs: Requests, a: Db, b: Db)
    requires a.orders == b.orders
    ensures OrdersGood(reqs, a) ==> OrdersGood(reqs, b)
    ensures forall r: string :: At(a, r) == At(b, r)
  {
    forall r: string ensures At(a, r) == At(b, r) { }
    if OrdersGood(reqs, a) {
      forall r: string ensures Good(reqs(r), At(b, r)) { assert At(b, r) == At(a, r); }
    }
  }

  lemma {:induction false} AssignmentRecorded(now: Db, next: Db, request: string, k: Key, technician: string)
    requires AssignmentsOk(now) && k !in now.assignments && At(now, request).history == []
    requires next.assignments == now.assignments[k := Assignment(request, technician, Some(request))]
    requires forall r: string :: r != request ==> At(next, r) == At(now, r)
    requires var h := At(next, request).history;
             h != [] && h[0].actor == Some(k.0) && h[0].technician == Some(technician)
    ensures AssignmentsOk(next)
  {
  }

  lemma {:induction false} CommandRecorded(now: Db, next: Db, request: string, k: Key, payload: Payload)
    requires CommandsOk(now) && k !in now.commands && At(now, request).resolution.None?
    requires next.commands == now.commands[k := Command(request, payload, Some(request))]
    requires forall r: string :: r != request ==> At(next, r) == At(now, r)
    requires At(next, request).resolution == Some(payload.resolution)
    ensures CommandsOk(next)
  {
  }

  lemma {:induction false} TablesOfOrders(a: Db, b: Db)
    requires a.orders == b.orders
    ensures a.commands == b.commands && CommandsOk(a) ==> CommandsOk(b)
    ensures a.assignments == b.assignments && AssignmentsOk(a) ==> AssignmentsOk(b)
  {
  }

  /** Every transaction on one order keeps its invariant and only adds to it, whatever it read. */
  lemma {:induction false} TxIsGood(req: Request, op: Op, first: Aggregate, second: Aggregate, now: Aggregate)
    requires Good(req, first) && Good(req, second) && Good(req, now)
    requires Extends(first, second) && Extends(second, now) && Extends(first, now)
    requires Tx(req, op, first, second, now).Ok?
    ensures var next := Tx(req, op, first, second, now).value; Good(req, next) && Extends(now, next)
  {
    hide Good, Extends, AssignTx, TransitionTx, ResolveTx, OpenAttemptTx, SettleCheckoutTx, ReopenTx, ApplyTx;
    hide ConformityTx;
    match op
    case Assign(actor, _, technician, ready, assignable) =>
      AssignIsGood(req, now, actor, technician, ready, assignable);
    case Transit(actor, input) => TransitionIsGood(req, first, now, actor, input);
    case Resolve(actor, _, payload) =>
      ResolveIsGood(req, first, now, actor, payload.resolution, payload.expectedVersion);
    case OpenAttempt(actor, reference, version) => OpenAttemptIsGood(req, first, now, actor, reference, version);
    case SettleCheckout(k, outcome) => SettleCheckoutIsGood(req, first, now, k, outcome);
    case Reopen(k, url) => ReopenIsGood(req, first, now, k, url);
    case ApplyPayment(p) => ApplyIsGood(req, first, second, now, p);
    case Conform(actor, text, version) => ConformityIsGood(req, first, now, actor, text, version);
  }

  /** What the first commit with a key leaves behind for it. */
  lemma {:induction false} TxResult(req: Request, op: Op, first: Aggregate, second: Aggregate, now: Aggregate)
    requires Good(req, first) && Good(req, now) && Extends(first, now)
    requires Tx(req, op, first, second, now).Ok?
    ensures var next := Tx(req, op, first, second, now).value;
            (op.Assign? ==> now.history == [] && next.history != []
                            && next.history[0].actor == Some(op.actor.profileId)
                            && next.history[0].technician == Some(op.technician))
            && (op.Resolve? ==> now.resolution.None? && next.resolution == Some(op.payload.resolution))
  {
    if op.Assign? { AssignIsGood(req, now, op.actor, op.technician, op.requestReady, op.assignable); }
    if op.Resolve? { ResolveIsGood(req, first, now, op.actor, op.payload.resolution, op.payload.expectedVersion); }
  }

  lemma {:induction false} KeyIsRecorded(reqs: Requests, request: string, op: Op, now: Db, put: Db)
    requires DbGood(reqs, now) && DbGood(reqs, put) && !KeyUsed(op, now)
    requires put == Put(now, request, At(put, request))
    requires op.Assign? ==> var h := At(put, request).history;
             At(now, request).history == [] && h != [] && h[0].actor == Some(op.actor.profileId)
             && h[0].technician == Some(op.technician)
    requires op.Resolve? ==>
               At(now, request).resolution.None? && At(put, request).resolution == Some(op.payload.resolution)
    ensures DbGood(reqs, RecordKey(put, request, op))
  {
    hide Good, AssignmentsOk, CommandsOk;
    var next := RecordKey(put, request, op);
    OrdersAreEnough(reqs, put, next);
    TablesOfOrders(put, next);
    if op.Assign? { AssignmentRecorded(now, next, request, (op.actor.profileId, op.key), op.technician); }
    if op.Resolve? { CommandRecorded(now, next, request, (op.actor.profileId, op.key), op.payload); }
  }

  /** Every commit leads from a good database to a good one that extends it. */
  lemma {:induction false} ExecuteIsGood(reqs: Requests, request: string, op: Op, first: Db, second: Db, now: Db)
    requires DbGood(reqs, first) && DbGood(reqs, second) && DbGood(reqs, now)
    requires DbExtends(first, second) && DbExtends(second, now) && DbExtends(first, now)
    ensures var next := Execute(reqs, request, op, first, second, now); DbGood(reqs, next) && DbExtends(now, next)
  {
    hide Good, Extends, Tx, AssignmentsOk, CommandsOk, KeyUsed;
    var req, x, y, current := reqs(request), At(first, request), At(second, request), At(now, request);
    if KeyUsed(op, first) || KeyUsed(op, now) || Tx(req, op, x, y, current).Err? {
      DbExtendsSelf(now);
    } else {
      var a := Tx(req, op, x, y, current).value;
      TxIsGood(req, op, x, y, current);
      TxResult(req, op, x, y, current);
      var put := Put(now, request, a);
      PutIsGood(reqs, now, request, a);
      KeyIsRecorded(reqs, request, op, now, put);
      KeyExtends(request, op, now, put);
    }
  }

  lemma {:induction false} KeyExtends(request: string, op: Op, now: Db, put: Db)
    requires DbExtends(now, put) && !KeyUsed(op, now) && put.assignments == now.assignments
             && put.commands == now.commands
    ensures DbExtends(now, RecordKey(put, request, op))
  {
    hide Extends;
    forall r: string ensures At(RecordKey(put, request, op), r) == At(put, r) { }
  }

  lemma {:induction false} EmptyDbIsGood(reqs: Requests)
    ensures DbGood(reqs, EMPTY_DB)
  {
    forall r: string ensures Good(reqs(r), At(EMPTY_DB, r)) { EmptyIsGood(reqs(r)); }
  }

  ghost predicate RunOk(reqs: Requests, states: seq<Db>) {
    (forall i :: 0 <= i < |states| ==> DbGood(reqs, states[i]))
    && (forall i, j :: 0 <= i <= j < |states| ==> DbExtends(states[i], states[j]))
  }

  lemma {:induction false} RunOkExtends(reqs: Requests, states: seq<Db>, next: Db)
    requires RunOk(reqs, states) && states != []
    requires DbGood(reqs, next) && DbExtends(states[|states| - 1], next)
    ensures RunOk(reqs, states + [next])
  {
    hide DbGood, DbExtends;
    var all := states + [next];
    forall i, j | 0 <= i <= j < |all| ensures DbExtends(all[i], all[j]) {
      if j < |states| {
        assert all[i] == states[i] && all[j] == states[j];
      } else if i < j {
        DbExtendsIsTransitive(states[i], states[|states| - 1], next);
      } else {
        DbExtendsSelf(next);
      }
    }
  }

  /** In every interleaving every state is good, and each state extends all earlier ones. */
  lemma {:induction false} RunIsGood(reqs: Requests, schedule: seq<Commit>)
    ensures RunOk(reqs, Run(reqs, schedule))
  {
    if schedule == [] {
      EmptyDbIsGood(reqs);
      DbExtendsSelf(EMPTY_DB);
    } else {
      var front, c := schedule[..|schedule| - 1], schedule[|schedule| - 1];
      RunIsGood(reqs, front);
      NextCommit(reqs, Run(reqs, front), c);
    }
  }

  lemma {:induction false} NextCommit(reqs: Requests, before: seq<Db>, c: Commit)
    requires RunOk(reqs, before) && before != []
    ensures RunOk(reqs, before + [NextState(reqs, before, c)])
  {
    hide DbGood, DbExtends;
    var now := before[|before| - 1];
    if c.firstRead <= c.secondRead < |before| {
      ExecuteIsGood(reqs, c.request, c.op, before[c.firstRead], before[c.secondRead], now);
    } else {
      DbExtendsSelf(now);
    }
    RunOkExtends(reqs, before, NextState(reqs, before, c));
  }
}
