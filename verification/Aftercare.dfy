/** Ratings and incidents after an order is closed: each client call reserves an idempotency key in the transaction
    that has its effect. */
module Aftercare {
  import opened Wrappers

  datatype Scope = RatingScope | OpenScope | MoveScope
  datatype Key = Key(actor: string, scope: Scope, text: string)

  datatype Status = Abierta | EnTriage | Cerrada
  datatype Action = OpenAction | StartTriage | Close

  /** What the payload hash stands for: the hash is taken to be injective. */
  datatype Payload =
    | Rate(order: string, stars: int, reason: string, message: Option<string>)
    | Open(order: string, kind: string)
    | Move(incident: nat, action: Action, expectedVersion: int)

  datatype Reservation = Reservation(payload: Payload, result: Option<nat>)

  /** `writer` records which key wrote a row. */
  datatype Rating = Rating(input: Payload, writer: Key)
  datatype TransitionRow = TransitionRow(sequence: int, action: Action, from: Option<Status>, to: Status, writer: Key)
  datatype Incident = Incident(order: string, kind: string, status: Status, version: int,
                               transitions: seq<TransitionRow>)

  /** Row ids are positions. */
  datatype Db = Db(ratings: seq<Rating>, incidents: seq<Incident>, keys: map<Key, Reservation>)

  const EMPTY_DB := Db([], [], map[])

  datatype Call = Call(actor: string, text: string, payload: Payload)

  function ScopeOf(p: Payload): Scope {
    match p
    case Rate(_, _, _, _) => RatingScope
    case Open(_, _) => OpenScope
    case Move(_, _, _) => MoveScope
  }

  function KeyOf(c: Call): Key { Key(c.actor, ScopeOf(c.payload), c.text) }

  function NextStatus(action: Action, status: Status): Option<Status> {
    if action == StartTriage && status == Abierta then Some(EnTriage)
    else if action == Close && status == EnTriage then Some(Cerrada)
    else None
  }

  /** Why a transaction rolls back: a unique constraint, the version check, the status check, or an update that
      matched no row. */
  datatype Abort = Duplicate | VersionConflict | TransitionInvalid | NoMatch
  datatype Outcome = Committed(db: Db) | Aborted(why: Abort)

  predicate Rated(ratings: seq<Rating>, order: string) {
    exists i :: 0 <= i < |ratings| && ratings[i].input.Rate? && ratings[i].input.order == order
  }

  predicate HasActive(incidents: seq<Incident>, order: string) {
    exists i :: 0 <= i < |incidents| && incidents[i].order == order && incidents[i].status != Cerrada
  }

  predicate SequenceTaken(transitions: seq<TransitionRow>, sequence: int) {
    exists i :: 0 <= i < |transitions| && transitions[i].sequence == sequence
  }

  function Reserve(db: Db, c: Call, id: nat): Db { db.(keys := db.keys[KeyOf(c) := Reservation(c.payload, Some(id))]) }

  function RateTx(now: Db, c: Call): Outcome
    requires c.payload.Rate?
  {
    if KeyOf(c) in now.keys || Rated(now.ratings, c.payload.order) then Aborted(Duplicate)
    else Committed(Reserve(now.(ratings := now.ratings + [Rating(c.payload, KeyOf(c))]), c, |now.ratings|))
  }

  function Opened(c: Call): Incident
    requires c.payload.Open?
  {
    Incident(c.payload.order, c.payload.kind, Abierta, 1, [TransitionRow(1, OpenAction, None, Abierta, KeyOf(c))])
  }

  function OpenTx(now: Db, c: Call): Outcome
    requires c.payload.Open?
  {
    if KeyOf(c) in now.keys || HasActive(now.incidents, c.payload.order) then Aborted(Duplicate)
    else Committed(Reserve(now.(incidents := now.incidents + [Opened(c)]), c, |now.incidents|))
  }

  predicate AtVersion(db: Db, id: nat, version: int) { id < |db.incidents| && db.incidents[id].version == version }

  /** The incident is read in `seen`; the update then applies to `now`, if the version is still the expected one. */
  function MoveTx(seen: Db, now: Db, c: Call): Outcome
    requires c.payload.Move?
  {
    var Move(id, action, expected) := c.payload;
    if KeyOf(c) in now.keys then Aborted(Duplicate)
    else if !AtVersion(seen, id, expected) then Aborted(VersionConflict)
    else
      var was := seen.incidents[id];
      var next := NextStatus(action, was.status);
      if next.None? then Aborted(TransitionInvalid)
      else if !AtVersion(now, id, expected) then Aborted(NoMatch)
      else if SequenceTaken(now.incidents[id].transitions, |was.transitions| + 1) then Aborted(Duplicate)
      else
        var moved := Moved(was, now.incidents[id], c, next.value);
        Committed(Reserve(now.(incidents := now.incidents[id := moved]), c, id))
  }

  function Moved(seen: Incident, now: Incident, c: Call, next: Status): Incident
    requires c.payload.Move?
  {
    var row := TransitionRow(|seen.transitions| + 1, c.payload.action, Some(seen.status), next, KeyOf(c));
    now.(status := next, version := now.version + 1, transitions := now.transitions + [row])
  }

  function Tx(seen: Db, now: Db, c: Call): Outcome {
    match c.payload
    case Rate(_, _, _, _) => RateTx(now, c)
    case Open(_, _) => OpenTx(now, c)
    case Move(_, _, _) => MoveTx(seen, now, c)
  }

  function Execute(seen: Db, now: Db, c: Call): Db {
    match Tx(seen, now, c)
    case Committed(next) => next
    case Aborted(_) => now
  }

  // ---------------------------------------------------------------- schedules

  /** The end of a transaction that read its incident in an earlier state. */
  datatype Commit = Commit(call: Call, seen: nat)

  function NextState(states: seq<Db>, c: Commit): Db
    requires states != []
  {
    if c.seen < |states| then Execute(states[c.seen], states[|states| - 1], c.call) else states[|states| - 1]
  }

  function Run(schedule: seq<Commit>): (states: seq<Db>)
    ensures |states| == |schedule| + 1
  {
    if schedule == [] then [EMPTY_DB]
    else
      var before := Run(schedule[..|schedule| - 1]);
      before + [NextState(before, schedule[|schedule| - 1])]
  }

  // ---------------------------------------------------------------- invariant

  const PATH: seq<Status> := [Abierta, EnTriage, Cerrada]
  const ACTIONS: seq<Action> := [OpenAction, StartTriage, Close]

  /** The n-th transition of an incident. */
  predicate OnPath(row: TransitionRow, n: nat) {
    n < 3 && row.sequence == n + 1 && row.action == ACTIONS[n] && row.to == PATH[n]
    && row.from == if n == 0 then None else Some(PATH[n - 1])
  }

  predicate IncidentOk(i: Incident) {
    1 <= |i.transitions| <= 3 && i.version == |i.transitions| && i.status == PATH[|i.transitions| - 1]
    && forall n :: 0 <= n < |i.transitions| ==> OnPath(i.transitions[n], n)
  }

  predicate IncidentsOk(db: Db) { forall i :: 0 <= i < |db.incidents| ==> IncidentOk(db.incidents[i]) }

  /** Every key in the table had its effect, as its payload says, and knows it. */
  predicate Effected(db: Db, k: Key) {
    k in db.keys && k.scope == ScopeOf(db.keys[k].payload) && db.keys[k].result.Some?
    && var id := db.keys[k].result.value;
       match db.keys[k].payload
       case Rate(_, _, _, _) => id < |db.ratings| && db.ratings[id] == Rating(db.keys[k].payload, k)
       case Open(order, kind) =>
         id < |db.incidents| && db.incidents[id].order == order && db.incidents[id].kind == kind
         && |db.incidents[id].transitions| >= 1 && db.incidents[id].transitions[0].writer == k
       case Move(incident, action, v) =>
         id == incident < |db.incidents| && 1 <= v < |db.incidents[id].transitions|
         && db.incidents[id].transitions[v].action == action && db.incidents[id].transitions[v].writer == k
  }

  predicate KeysOk(db: Db) { forall k :: k in db.keys ==> Effected(db, k) }

  predicate RatingOwned(db: Db, i: nat)
    requires i < |db.ratings|
  {
    var row := db.ratings[i];
    row.input.Rate? && row.writer in db.keys && db.keys[row.writer] == Reservation(row.input, Some(i))
  }

  predicate TransitionOwned(db: Db, i: nat, n: nat)
    requires i < |db.incidents| && n < |db.incidents[i].transitions|
  {
    var row := db.incidents[i].transitions[n];
    var payload := if n == 0 then Open(db.incidents[i].order, db.incidents[i].kind) else Move(i, row.action, n);
    row.writer in db.keys && db.keys[row.writer] == Reservation(payload, Some(i))
  }

  /** Every rating and every transition was written under a key that names it. */
  predicate Owned(db: Db) {
    (forall i :: 0 <= i < |db.ratings| ==> RatingOwned(db, i))
    && forall i, n :: 0 <= i < |db.incidents| && 0 <= n < |db.incidents[i].transitions| ==> TransitionOwned(db, i, n)
  }

  predicate RatedOnce(ratings: seq<Rating>) {
    forall i, j :: 0 <= i < j < |ratings| && ratings[i].input.Rate? && ratings[j].input.Rate? ==>
      ratings[i].input.order != ratings[j].input.order
  }

  /** Only the latest incident of an order can be open. */
  predicate OneActive(incidents: seq<Incident>) {
    forall i, j :: 0 <= i < j < |incidents| && incidents[i].order == incidents[j].order ==>
      incidents[i].status == Cerrada
  }

  predicate Good(db: Db) {
    IncidentsOk(db) && KeysOk(db) && Owned(db) && RatedOnce(db.ratings) && OneActive(db.incidents)
  }

  predicate Longer(a: Incident, b: Incident) {
    a.order == b.order && a.kind == b.kind && a.transitions <= b.transitions
  }

  /** Rows are never changed but for an incident's status, which only moves on. */
  predicate Extends(a: Db, b: Db) {
    a.ratings <= b.ratings && |a.incidents| <= |b.incidents|
    && (forall i :: 0 <= i < |a.incidents| ==> Longer(a.incidents[i], b.incidents[i]))
    && forall k :: k in a.keys ==> k in b.keys && b.keys[k] == a.keys[k]
  }

  lemma {:induction false} ExtendsSelf(a: Db)
    ensures Extends(a, a)
  {
  }

  lemma {:induction false} ExtendsIsTransitive(a: Db, b: Db, c: Db)
    requires Extends(a, b) && Extends(b, c)
    ensures Extends(a, c)
  {
    forall i | 0 <= i < |a.incidents| ensures Longer(a.incidents[i], c.incidents[i]) {
      assert Longer(a.incidents[i], b.incidents[i]) && Longer(b.incidents[i], c.incidents[i]);
    }
  }

  /** An effect stays where it is when the database grows. */
  lemma {:induction false} EffectsStay(a: Db, b: Db, k: Key)
    requires Extends(a, b) && Effected(a, k)
    ensures Effected(b, k)
  {
    var id := a.keys[k].result.value;
    if !a.keys[k].payload.Rate? { assert Longer(a.incidents[id], b.incidents[id]); }
  }

  lemma {:induction false} RatingsStayOwned(a: Db, b: Db)
    requires Extends(a, b) && forall i :: 0 <= i < |a.ratings| ==> RatingOwned(a, i)
    ensures forall i :: 0 <= i < |a.ratings| ==> RatingOwned(b, i)
  {
    forall i | 0 <= i < |a.ratings| ensures RatingOwned(b, i) { assert RatingOwned(a, i); }
  }

  lemma {:induction false} TransitionStaysOwned(a: Db, b: Db, i: nat, n: nat)
    requires Extends(a, b) && i < |a.incidents| && n < |a.incidents[i].transitions| && TransitionOwned(a, i, n)
    ensures n < |b.incidents[i].transitions| && TransitionOwned(b, i, n)
  {
    assert Longer(a.incidents[i], b.incidents[i]);
  }

  /** Adding one key with its effect to a good database. */
  lemma {:induction false} KeyAdded(now: Db, next: Db, k: Key)
    requires KeysOk(now) && Extends(now, next) && next.keys.Keys == now.keys.Keys + {k} && Effected(next, k)
    ensures KeysOk(next)
  {
    hide Effected, Extends;
    forall j | j in next.keys ensures Effected(next, j) {
      if j != k { EffectsStay(now, next, j); }
    }
  }

  lemma {:induction false} RateIsGood(now: Db, c: Call)
    requires Good(now) && c.payload.Rate? && RateTx(now, c).Committed?
    ensures Good(RateTx(now, c).db) && Extends(now, RateTx(now, c).db)
  {
    hide Effected, KeysOk, IncidentOk;
    var next := RateTx(now, c).db;
    assert Effected(next, KeyOf(c)) by { RateHasEffect(now, c); }
    assert Extends(now, next);
    KeyAdded(now, next, KeyOf(c));
    RatingsStayOwned(now, next);
    forall i, n | 0 <= i < |next.incidents| && 0 <= n < |next.incidents[i].transitions|
      ensures TransitionOwned(next, i, n)
    {
      TransitionStaysOwned(now, next, i, n);
    }
    assert RatingOwned(next, |now.ratings|);
  }

  lemma {:induction false} RateHasEffect(now: Db, c: Call)
    requires c.payload.Rate? && RateTx(now, c).Committed?
    ensures Effected(RateTx(now, c).db, KeyOf(c))
  {
  }

  lemma {:induction false} OpenHasEffect(now: Db, c: Call)
    requires c.payload.Open? && OpenTx(now, c).Committed?
    ensures var next := OpenTx(now, c).db;
            Effected(next, KeyOf(c)) && Extends(now, next) && IncidentOk(Opened(c))
            && TransitionOwned(next, |now.incidents|, 0)
  {
  }

  lemma {:induction false} OpenKeepsOneActive(now: Db, c: Call)
    requires OneActive(now.incidents) && c.payload.Open? && OpenTx(now, c).Committed?
    ensures OneActive(OpenTx(now, c).db.incidents)
  {
  }

  lemma {:induction false} OpenIsGood(now: Db, c: Call)
    requires Good(now) && c.payload.Open? && OpenTx(now, c).Committed?
    ensures Good(OpenTx(now, c).db) && Extends(now, OpenTx(now, c).db)
  {
    hide Effected, KeysOk, IncidentOk, OneActive, Extends, TransitionOwned, RatingOwned, HasActive;
    var next := OpenTx(now, c).db;
    OpenHasEffect(now, c);
    OpenKeepsOneActive(now, c);
    KeyAdded(now, next, KeyOf(c));
    RatingsStayOwned(now, next);
    forall i, n | 0 <= i < |next.incidents| && 0 <= n < |next.incidents[i].transitions|
      ensures TransitionOwned(next, i, n)
    {
      if i < |now.incidents| { TransitionStaysOwned(now, next, i, n); }
    }
  }

  /** An incident that was read and still has the version it had is the same incident. */
  lemma {:induction false} SameVersionSameIncident(seen: Incident, now: Incident)
    requires IncidentOk(seen) && IncidentOk(now) && Longer(seen, now) && seen.version == now.version
    ensures seen == now
  {
  }

  /** The update finds the sequence number free: the constraint on it never fires. */
  lemma {:induction false} SequenceIsFree(i: Incident)
    requires IncidentOk(i)
    ensures !SequenceTaken(i.transitions, |i.transitions| + 1)
  {
  }

  lemma {:induction false} MovedIsOk(i: Incident, c: Call, next: Status)
    requires IncidentOk(i) && c.payload.Move? && NextStatus(c.payload.action, i.status) == Some(next)
    ensures IncidentOk(Moved(i, i, c, next)) && Longer(i, Moved(i, i, c, next)) && i.status != Cerrada
  {
    var m := Moved(i, i, c, next);
    forall n | 0 <= n < |m.transitions| ensures OnPath(m.transitions[n], n) {
      if n < |i.transitions| { assert m.transitions[n] == i.transitions[n]; }
    }
  }

  /** What a committed transition did. */
  lemma {:induction false} MoveMeans(seen: Db, now: Db, c: Call)
    requires IncidentsOk(seen) && IncidentsOk(now) && Extends(seen, now) && c.payload.Move?
             && MoveTx(seen, now, c).Committed?
    ensures var next, id := MoveTx(seen, now, c).db, c.payload.incident;
            id < |now.incidents| && c.payload.expectedVersion == |now.incidents[id].transitions|
            && NextStatus(c.payload.action, now.incidents[id].status).Some?
            && var status := NextStatus(c.payload.action, now.incidents[id].status).value;
               var moved := Moved(now.incidents[id], now.incidents[id], c, status);
               next == Reserve(now.(incidents := now.incidents[id := moved]), c, id)
    ensures KeyOf(c) !in now.keys
  {
    hide IncidentOk, SequenceTaken, Moved;
    var id := c.payload.incident;
    assert IncidentOk(seen.incidents[id]) && IncidentOk(now.incidents[id])
           && Longer(seen.incidents[id], now.incidents[id]);
    SameVersionSameIncident(seen.incidents[id], now.incidents[id]);
    VersionIsCount(now.incidents[id]);
  }

  lemma {:induction false} VersionIsCount(i: Incident)
    requires IncidentOk(i)
    ensures i.version == |i.transitions|
  {
  }

  lemma {:induction false} MoveKeepsOneActive(incidents: seq<Incident>, id: nat, moved: Incident)
    requires OneActive(incidents) && id < |incidents| && moved.order == incidents[id].order
             && incidents[id].status != Cerrada
    ensures OneActive(incidents[id := moved])
  {
  }

  lemma {:induction false} MoveExtends(now: Db, id: nat, moved: Incident, c: Call)
    requires id < |now.incidents| && Longer(now.incidents[id], moved) && KeyOf(c) !in now.keys
    ensures Extends(now, Reserve(now.(incidents := now.incidents[id := moved]), c, id))
  {
  }

  lemma {:induction false} MoveHasEffect(now: Db, c: Call, next: Status)
    requires c.payload.Move? && c.payload.incident < |now.incidents| && IncidentOk(now.incidents[c.payload.incident])
    requires c.payload.expectedVersion == |now.incidents[c.payload.incident].transitions|
    ensures var id := c.payload.incident;
            var moved := Moved(now.incidents[id], now.incidents[id], c, next);
            var after := Reserve(now.(incidents := now.incidents[id := moved]), c, id);
            Effected(after, KeyOf(c)) && TransitionOwned(after, id, |now.incidents[id].transitions|)
  {
  }

  lemma {:induction false} MoveIsGood(seen: Db, now: Db, c: Call)
    requires Good(seen) && Good(now) && Extends(seen, now) && c.payload.Move? && MoveTx(seen, now, c).Committed?
    ensures Good(MoveTx(seen, now, c).db) && Extends(now, MoveTx(seen, now, c).db)
  {
    hide Effected, KeysOk, IncidentOk, OneActive, Extends, TransitionOwned, RatingOwned, MoveTx, NextStatus;
    var next, id := MoveTx(seen, now, c).db, c.payload.incident;
    MoveMeans(seen, now, c);
    var before := now.incidents[id];
    var status := NextStatus(c.payload.action, before.status).value;
    MovedIsOk(before, c, status);
    MoveKeepsOneActive(now.incidents, id, Moved(before, before, c, status));
    MoveExtends(now, id, Moved(before, before, c, status), c);
    MoveHasEffect(now, c, status);
    KeyAdded(now, next, KeyOf(c));
    RatingsStayOwned(now, next);
    forall i, n | 0 <= i < |next.incidents| && 0 <= n < |next.incidents[i].transitions|
      ensures TransitionOwned(next, i, n)
    {
      if i != id || n < |before.transitions| { TransitionStaysOwned(now, next, i, n); }
    }
  }

  lemma {:induction false} ExecuteIsGood(seen: Db, now: Db, c: Call)
    requires Good(seen) && Good(now) && Extends(seen, now)
    ensures Good(Execute(seen, now, c)) && Extends(now, Execute(seen, now, c))
  {
    hide Good, Extends, RateTx, OpenTx, MoveTx;
    ExtendsSelf(now);
    if Tx(seen, now, c).Committed? {
      match c.payload
      case Rate(_, _, _, _) => RateIsGood(now, c);
      case Open(_, _) => OpenIsGood(now, c);
      case Move(_, _, _) => MoveIsGood(seen, now, c);
    }
  }

  predicate RunOk(states: seq<Db>) {
    (forall i :: 0 <= i < |states| ==> Good(states[i]))
    && forall i, j :: 0 <= i <= j < |states| ==> Extends(states[i], states[j])
  }

  lemma {:induction false} RunOkSnoc(states: seq<Db>, next: Db)
    requires RunOk(states) && states != [] && Good(next) && Extends(states[|states| - 1], next)
    ensures RunOk(states + [next])
  {
    hide Good, Extends;
    var all := states + [next];
    forall i, j | 0 <= i <= j < |all| ensures Extends(all[i], all[j]) {
      if j < |states| {
        assert all[i] == states[i] && all[j] == states[j];
      } else if i < j {
        ExtendsIsTransitive(states[i], states[|states| - 1], next);
      } else {
        ExtendsSelf(next);
      }
    }
  }

  lemma {:induction false} EmptyIsGood()
    ensures Good(EMPTY_DB) && Extends(EMPTY_DB, EMPTY_DB)
  {
  }

  /** Every state of every schedule satisfies the invariant, and extends all earlier ones. */
  lemma {:induction false} RunIsGood(schedule: seq<Commit>)
    ensures RunOk(Run(schedule))
  {
    hide Good, Extends, Execute;
    if schedule == [] {
      EmptyIsGood();
    } else {
      var before, c := Run(schedule[..|schedule| - 1]), schedule[|schedule| - 1];
      RunIsGood(schedule[..|schedule| - 1]);
      var now := before[|before| - 1];
      if c.seen < |before| { ExecuteIsGood(before[c.seen], now, c.call); } else { ExtendsSelf(now); }
      RunOkSnoc(before, NextState(before, c));
    }
  }
}
