/** Whole client calls of the aftercare service: look the key up, try the transaction, and after a refusal look again
    for the result that a concurrent call with the same key may have left. */
module AftercareCalls {
  import opened Wrappers
  import opened Aftercare

  const ATTEMPTS := 20

  datatype Error = PayloadMismatch | InProgress | RatingAlreadyExists | IncidentAlreadyActive | IncidentVersionConflict
                 | IncidentTransitionInvalid | Unhandled

  datatype Answer = Created(id: nat) | Replayed(id: nat) | Refused(error: Error)

  /** The row that a result names can be read. */
  predicate Readable(db: Db, p: Payload, id: nat) { if p.Rate? then id < |db.ratings| else id < |db.incidents| }

  /** The look-up before the transaction reads the key's row in one state and the result in a later one. */
  function Lookup(row: Db, item: Db, c: Call): Option<Answer> {
    if KeyOf(c) !in row.keys then None
    else
      var r := row.keys[KeyOf(c)];
      if r.payload != c.payload then Some(Refused(PayloadMismatch))
      else if r.result.Some? && Readable(item, c.payload, r.result.value) then Some(Replayed(r.result.value))
      else Some(Refused(InProgress))
  }

  datatype Found = Nothing | Mismatch | Result(id: nat)

  /** One attempt of the replay. */
  function Observe(row: Db, item: Db, c: Call): Found {
    if KeyOf(c) !in row.keys then Nothing
    else
      var r := row.keys[KeyOf(c)];
      if r.payload != c.payload then Mismatch
      else if r.result.Some? && Readable(item, c.payload, r.result.value) then Result(r.result.value)
      else Nothing
  }

  /** The first attempt that finds something decides; attempt n reads the row in the state 2n and the result in the
      state 2n + 1. */
  function Replay(observed: seq<Db>, c: Call): Found
    requires |observed| % 2 == 0
  {
    if observed == [] then Nothing
    else
      var found := Observe(observed[0], observed[1], c);
      if found != Nothing then found else Replay(observed[2..], c)
  }

  function ErrorOf(p: Payload, why: Abort): Error {
    match why
    case Duplicate => if p.Rate? then RatingAlreadyExists else if p.Open? then IncidentAlreadyActive else Unhandled
    case VersionConflict => IncidentVersionConflict
    case NoMatch => IncidentVersionConflict
    case TransitionInvalid => IncidentTransitionInvalid
  }

  /** The states a call reads, in the order of its reads; it commits in `now`. */
  datatype Reads = Reads(row: Db, item: Db, seen: Db, now: Db, observed: seq<Db>)

  /** The id of the row that the call creates, or of the incident it moves. */
  function NewId(now: Db, p: Payload): nat {
    match p
    case Rate(_, _, _, _) => |now.ratings|
    case Open(_, _) => |now.incidents|
    case Move(incident, _, _) => incident
  }

  function Answered(c: Call, r: Reads): Answer
    requires |r.observed| % 2 == 0
  {
    match Lookup(r.row, r.item, c)
    case Some(answer) => answer
    case None =>
      match Tx(r.seen, r.now, c)
      case Committed(_) => Created(NewId(r.now, c.payload))
      case Aborted(why) =>
        match Replay(r.observed, c)
        case Result(id) => Replayed(id)
        case Mismatch => Refused(PayloadMismatch)
        case Nothing => Refused(ErrorOf(c.payload, why))
  }

  // ---------------------------------------------------------------- reads of a run

  /** The reads of a call during a run: positions in the run that never go back. */
  datatype Times = Times(row: nat, item: nat, seen: nat, now: nat, observed: seq<nat>)

  ghost predicate InRun(states: seq<Db>, t: Times, r: Reads) {
    t.row <= t.item <= t.seen <= t.now < |states|
    && r.row == states[t.row] && r.item == states[t.item] && r.seen == states[t.seen] && r.now == states[t.now]
    && |r.observed| == |t.observed| == 2 * ATTEMPTS
    && (forall i :: 0 <= i < |t.observed| ==>
         t.now <= t.observed[i] < |states| && r.observed[i] == states[t.observed[i]])
    && forall i, j :: 0 <= i <= j < |t.observed| ==> t.observed[i] <= t.observed[j]
  }

  /** A reserved key can always be answered: its result is there as soon as the key is. */
  lemma {:induction false} ResultIsReadable(row: Db, item: Db, k: Key)
    requires Good(row) && Extends(row, item) && k in row.keys
    ensures row.keys[k].result.Some? && Readable(item, row.keys[k].payload, row.keys[k].result.value)
    ensures item.keys[k] == row.keys[k]
  {
    assert Effected(row, k);
  }

  /** No call is ever told that its key is still in progress. */
  lemma {:induction false} NeverInProgress(schedule: seq<Commit>, i: nat, j: nat, c: Call)
    requires i <= j < |Run(schedule)|
    ensures Lookup(Run(schedule)[i], Run(schedule)[j], c) != Some(Refused(InProgress))
  {
    hide Good, Extends, Readable;
    var states := Run(schedule);
    RunIsGood(schedule);
    assert Good(states[i]) && Extends(states[i], states[j]);
    if KeyOf(c) in states[i].keys { ResultIsReadable(states[i], states[j], KeyOf(c)); }
  }

  /** What a later look at a reserved key finds. */
  lemma {:induction false} ObserveReserved(row: Db, item: Db, c: Call)
    requires Good(row) && Extends(row, item) && KeyOf(c) in row.keys
    ensures row.keys[KeyOf(c)].result.Some?
    ensures Observe(row, item, c)
            == if row.keys[KeyOf(c)].payload == c.payload then Result(row.keys[KeyOf(c)].result.value) else Mismatch
  {
    hide Good, Extends, Readable;
    ResultIsReadable(row, item, KeyOf(c));
  }

  /** The transaction of a call is refused as a duplicate only because of its key, or because the order is already
      served. */
  lemma {:induction false} DuplicateMeans(seen: Db, now: Db, c: Call)
    requires Good(seen) && Good(now) && Extends(seen, now) && Tx(seen, now, c) == Aborted(Duplicate)
    ensures KeyOf(c) in now.keys
            || (c.payload.Rate? && Rated(now.ratings, c.payload.order))
            || (c.payload.Open? && HasActive(now.incidents, c.payload.order))
  {
    hide IncidentOk, SequenceTaken, Rated, HasActive;
    if c.payload.Move? && KeyOf(c) !in now.keys {
      var id := c.payload.incident;
      assert IncidentOk(seen.incidents[id]) && IncidentOk(now.incidents[id])
             && Longer(seen.incidents[id], now.incidents[id]);
      SameVersionSameIncident(seen.incidents[id], now.incidents[id]);
      SequenceIsFree(now.incidents[id]);
    }
  }

  /** The replay after a refusal knows the key if it was there at the commit, or appeared later. */
  lemma {:induction false} ReplayFinds(states: seq<Db>, times: seq<nat>, observed: seq<Db>, c: Call)
    requires RunOk(states) && |observed| == |times| && |times| % 2 == 0
    requires forall i :: 0 <= i < |times| ==> times[i] < |states| && observed[i] == states[times[i]]
    requires forall i, j :: 0 <= i <= j < |times| ==> times[i] <= times[j]
    ensures match Replay(observed, c)
            case Result(id) => exists i ::
              0 <= i < |states| && KeyOf(c) in states[i].keys
              && states[i].keys[KeyOf(c)] == Reservation(c.payload, Some(id))
            case Mismatch => exists i ::
              0 <= i < |states| && KeyOf(c) in states[i].keys && states[i].keys[KeyOf(c)].payload != c.payload
            case Nothing => forall i :: 0 <= i < |observed| && i % 2 == 0 ==> KeyOf(c) !in observed[i].keys
  {
    hide Good, Extends, Observe, Readable;
    if observed != [] {
      var row, item := observed[0], observed[1];
      assert times[0] <= times[1];
      assert Good(row) && Extends(row, item);
      if KeyOf(c) in row.keys {
        ObserveReserved(row, item, c);
        ResultIsReadable(row, item, KeyOf(c));
        assert row == states[times[0]];
      } else {
        assert Observe(row, item, c) == Nothing by { ObserveUnknown(row, item, c); }
        ReplayFinds(states, times[2..], observed[2..], c);
        var rest := observed[2..];
        assert forall i :: 2 <= i < |observed| ==> observed[i] == rest[i - 2];
      }
    }
  }

  lemma {:induction false} ObserveUnknown(row: Db, item: Db, c: Call)
    requires KeyOf(c) !in row.keys
    ensures Observe(row, item, c) == Nothing
  {
  }

  /** `k` holds the payload and result somewhere in the run. */
  ghost predicate Held(states: seq<Db>, k: Key, r: Reservation) {
    exists i :: 0 <= i < |states| && k in states[i].keys && states[i].keys[k] == r
  }

  ghost predicate HeldOtherwise(states: seq<Db>, k: Key, p: Payload) {
    exists i :: 0 <= i < |states| && k in states[i].keys && states[i].keys[k].payload != p
  }

  /** A key that holds something in one state of a run holds nothing else in any other. */
  lemma {:induction false} KeysHoldOneThing(schedule: seq<Commit>, i: nat, j: nat, k: Key)
    requires i < |Run(schedule)| && j < |Run(schedule)| && k in Run(schedule)[i].keys && k in Run(schedule)[j].keys
    ensures Run(schedule)[i].keys[k] == Run(schedule)[j].keys[k]
  {
    hide Good;
    var states := Run(schedule);
    RunIsGood(schedule);
    assert if i <= j then Extends(states[i], states[j]) else Extends(states[j], states[i]);
  }

  /** A created result: the key was free before, and holds this payload and result afterwards. */
  lemma {:induction false} CreatedReserves(seen: Db, now: Db, c: Call)
    requires Good(seen) && Good(now) && Extends(seen, now) && Tx(seen, now, c).Committed?
    ensures var next := Tx(seen, now, c).db;
            KeyOf(c) !in now.keys && KeyOf(c) in next.keys
            && next.keys[KeyOf(c)] == Reservation(c.payload, Some(NewId(now, c.payload)))
  {
    hide IncidentOk;
    if c.payload.Move? { MoveMeans(seen, now, c); }
  }

  /** What the answers of a call mean, in every run. A created effect is new; a replayed one is the effect this key
      has, of the same payload; a mismatch is real; a rating is refused only if the order has one; an incident only if
      one is active; a transition never fails for an unexpected reason; and no call is told to wait. */
  lemma {:induction false} AnswersAreTrue(schedule: seq<Commit>, c: Call, t: Times, r: Reads)
    requires InRun(Run(schedule), t, r)
    ensures match Answered(c, r)
            case Created(id) => KeyOf(c) !in r.now.keys && Tx(r.seen, r.now, c).Committed?
                                && KeyOf(c) in Tx(r.seen, r.now, c).db.keys
                                && Tx(r.seen, r.now, c).db.keys[KeyOf(c)] == Reservation(c.payload, Some(id))
            case Replayed(id) => Held(Run(schedule), KeyOf(c), Reservation(c.payload, Some(id)))
            case Refused(e) =>
              (e == PayloadMismatch ==> HeldOtherwise(Run(schedule), KeyOf(c), c.payload))
              && (e == RatingAlreadyExists ==> c.payload.Rate? && Rated(r.now.ratings, c.payload.order))
              && (e == IncidentAlreadyActive ==> c.payload.Open? && HasActive(r.now.incidents, c.payload.order))
              && (e == IncidentVersionConflict ==>
                   c.payload.Move? && !(AtVersion(r.seen, c.payload.incident, c.payload.expectedVersion)
                                        && AtVersion(r.now, c.payload.incident, c.payload.expectedVersion)))
              && (e == IncidentTransitionInvalid ==>
                   c.payload.Move? && AtVersion(r.seen, c.payload.incident, c.payload.expectedVersion)
                   && NextStatus(c.payload.action, r.seen.incidents[c.payload.incident].status).None?)
              && e != Unhandled && e != InProgress
  {
    hide Good, Extends, Tx, Replay, Readable, Rated, HasActive, Run, Lookup, AtVersion, NextStatus;
    var states, k := Run(schedule), KeyOf(c);
    RunIsGood(schedule);
    assert Good(r.row) && Good(r.seen) && Good(r.now) && Extends(r.row, r.item) && Extends(r.seen, r.now);
    LookupMeans(r.row, r.item, c);
    if k in r.row.keys {
      assert states[t.row] == r.row;
    } else if Tx(r.seen, r.now, c).Committed? {
      CreatedReserves(r.seen, r.now, c);
    } else {
      ReplayFinds(states, t.observed, r.observed, c);
      AbortMeans(r.seen, r.now, c);
      if Tx(r.seen, r.now, c).why == Duplicate {
        DuplicateMeans(r.seen, r.now, c);
        assert Extends(r.now, r.observed[0]) by { assert t.now <= t.observed[0] < |states|; }
        if k in r.now.keys { KeyStays(r.now, r.observed[0], k); }
      }
    }
  }

  /** The reasons for which a transition of an incident is refused. */
  lemma {:induction false} AbortMeans(seen: Db, now: Db, c: Call)
    requires Tx(seen, now, c).Aborted?
    ensures var why := Tx(seen, now, c).why;
            (why == VersionConflict ==>
              c.payload.Move? && !AtVersion(seen, c.payload.incident, c.payload.expectedVersion))
            && (why == NoMatch ==> c.payload.Move? && !AtVersion(now, c.payload.incident, c.payload.expectedVersion))
            && (why == TransitionInvalid ==>
                 c.payload.Move? && AtVersion(seen, c.payload.incident, c.payload.expectedVersion)
                 && NextStatus(c.payload.action, seen.incidents[c.payload.incident].status).None?)
  {
  }

  lemma {:induction false} KeyStays(a: Db, b: Db, k: Key)
    requires Extends(a, b) && k in a.keys
    ensures k in b.keys
  {
  }

  lemma {:induction false} LookupMeans(row: Db, item: Db, c: Call)
    requires Good(row) && Extends(row, item)
    ensures KeyOf(c) !in row.keys ==> Lookup(row, item, c).None?
    ensures KeyOf(c) in row.keys ==>
              row.keys[KeyOf(c)].result.Some?
              && Lookup(row, item, c) == Some(if row.keys[KeyOf(c)].payload != c.payload then Refused(PayloadMismatch)
                                              else Replayed(row.keys[KeyOf(c)].result.value))
  {
    hide Good, Extends, Readable;
    if KeyOf(c) in row.keys { ResultIsReadable(row, item, KeyOf(c)); }
  }

  /** Each key has at most one committed effect: once a commit has left the key behind, every later commit with it
      changes nothing, with the same payload or another. */
  lemma {:induction false} OneEffectPerKey(schedule: seq<Commit>, i: nat, j: nat)
    requires i < j < |schedule| && KeyOf(schedule[i].call) == KeyOf(schedule[j].call)
    requires KeyOf(schedule[i].call) in Run(schedule)[i + 1].keys
    ensures Run(schedule)[j + 1] == Run(schedule)[j]
  {
    hide Good, Extends, Run;
    var states, k := Run(schedule), KeyOf(schedule[i].call);
    RunIsGood(schedule);
    RunStep(schedule, j);
    assert Extends(states[i + 1], states[j]);
    KeyStays(states[i + 1], states[j], k);
    var seen := if schedule[j].seen <= j then states[schedule[j].seen] else EMPTY_DB;
    UsedKeyChangesNothing(seen, states[j], schedule[j].call);
  }

  /** A call whose key is in the table changes nothing, with whatever payload. */
  lemma {:induction false} UsedKeyChangesNothing(seen: Db, now: Db, c: Call)
    requires KeyOf(c) in now.keys
    ensures Execute(seen, now, c) == now
  {
  }

  /** The states of a run, one commit at a time. */
  lemma {:induction false} RunStep(schedule: seq<Commit>, j: nat)
    requires j < |schedule|
    ensures Run(schedule)[j + 1]
         == if schedule[j].seen <= j then Execute(Run(schedule)[schedule[j].seen], Run(schedule)[j], schedule[j].call)
            else Run(schedule)[j]
  {
    hide Execute;
    var n := |schedule| - 1;
    var before := Run(schedule[..n]);
    assert Run(schedule) == before + [NextState(before, schedule[n])];
    if j < n {
      RunStep(schedule[..n], j);
      assert Run(schedule)[j + 1] == before[j + 1] && Run(schedule)[j] == before[j];
      assert schedule[..n][j] == schedule[j];
    }
  }

  // ---------------------------------------------------------------- over all runs

  /** An incident's version is its number of transitions, at most three, numbered from 1 along ABIERTA, EN_TRIAGE,
      CERRADA. */
  lemma {:induction false} IncidentsFollowThePath(schedule: seq<Commit>, s: nat, i: nat)
    requires s < |Run(schedule)| && i < |Run(schedule)[s].incidents|
    ensures var incident := Run(schedule)[s].incidents[i];
            incident.version == |incident.transitions| && 1 <= incident.version <= 3
            && incident.status == PATH[incident.version - 1]
            && forall n :: 0 <= n < incident.version ==>
                 incident.transitions[n].sequence == n + 1 && incident.transitions[n].to == PATH[n]
                 && incident.transitions[n].from == (if n == 0 then None else Some(PATH[n - 1]))
  {
    RunIsGood(schedule);
    assert Good(Run(schedule)[s]);
    assert IncidentOk(Run(schedule)[s].incidents[i]);
  }

  /** Keys and effects correspond one to one: every key has its effect, every rating and transition has the key that
      wrote it, and that key's reservation names it. */
  lemma {:induction false} KeysAndEffectsCorrespond(schedule: seq<Commit>, s: nat)
    requires s < |Run(schedule)|
    ensures KeysOk(Run(schedule)[s]) && Owned(Run(schedule)[s])
    ensures var db := Run(schedule)[s];
            (forall i, j :: 0 <= i < j < |db.ratings| ==> db.ratings[i].writer != db.ratings[j].writer)
            && forall i, m, j, n :: 0 <= i < |db.incidents| && 0 <= m < |db.incidents[i].transitions|
                                    && 0 <= j < |db.incidents| && 0 <= n < |db.incidents[j].transitions|
                                    && db.incidents[i].transitions[m].writer == db.incidents[j].transitions[n].writer
                 ==> i == j && m == n
  {
    hide KeysOk, RatedOnce, OneActive, IncidentsOk;
    RunIsGood(schedule);
    var db := Run(schedule)[s];
    assert Good(db);
    forall i, j | 0 <= i < j < |db.ratings| ensures db.ratings[i].writer != db.ratings[j].writer {
      assert RatingOwned(db, i) && RatingOwned(db, j);
    }
    forall i, m, j, n | 0 <= i < |db.incidents| && 0 <= m < |db.incidents[i].transitions|
                        && 0 <= j < |db.incidents| && 0 <= n < |db.incidents[j].transitions|
                        && db.incidents[i].transitions[m].writer == db.incidents[j].transitions[n].writer
      ensures i == j && m == n
    {
      assert TransitionOwned(db, i, m) && TransitionOwned(db, j, n);
    }
  }

  /** An order has at most one rating, and at most one incident that is not closed: its latest. */
  lemma {:induction false} OneRatingOneActiveIncident(schedule: seq<Commit>, s: nat)
    requires s < |Run(schedule)|
    ensures var db := Run(schedule)[s];
            (forall i, j :: 0 <= i < j < |db.ratings| ==> db.ratings[i].input.Rate? && db.ratings[j].input.Rate?
                                                          && db.ratings[i].input.order != db.ratings[j].input.order)
            && forall i, j :: 0 <= i < j < |db.incidents| && db.incidents[i].order == db.incidents[j].order ==>
                 db.incidents[i].status == Cerrada
  {
    hide KeysOk, IncidentsOk;
    RunIsGood(schedule);
    var db := Run(schedule)[s];
    assert Good(db);
    forall i | 0 <= i < |db.ratings| ensures db.ratings[i].input.Rate? { assert RatingOwned(db, i); }
  }

  /** Ratings and transitions are append-only: what one state has, every later state has. */
  lemma {:induction false} AftercareIsAppendOnly(schedule: seq<Commit>, s: nat, later: nat, i: nat)
    requires s <= later < |Run(schedule)| && i < |Run(schedule)[s].incidents|
    ensures Run(schedule)[s].ratings <= Run(schedule)[later].ratings
    ensures i < |Run(schedule)[later].incidents|
            && Run(schedule)[s].incidents[i].transitions <= Run(schedule)[later].incidents[i].transitions
            && Run(schedule)[s].incidents[i].version <= Run(schedule)[later].incidents[i].version
  {
    hide KeysOk, Owned, RatedOnce, OneActive, IncidentOk;
    RunIsGood(schedule);
    var a, b := Run(schedule)[s], Run(schedule)[later];
    assert Extends(a, b) && Good(a) && Good(b);
    assert Longer(a.incidents[i], b.incidents[i]);
    VersionIsCount(a.incidents[i]);
    VersionIsCount(b.incidents[i]);
  }
}
