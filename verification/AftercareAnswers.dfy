/** What each aftercare call does and answers, in every run, with every condition written out. */
module AftercareAnswers {
  import opened Wrappers
  import opened Aftercare
  import opened AftercareCalls

  /** The key of a call: its profile, what it asks for, and its text. */
  function KeyFor(c: Call): Key {
    Key(c.actor, if c.payload.Rate? then RatingScope else if c.payload.Open? then OpenScope else MoveScope, c.text)
  }

  // ---------------------------------------------------------------- effects

  /** The rows of the database permit the call: an order is rated once, has one incident that is not closed, and an
      incident moves from ABIERTA by START_TRIAGE and from EN_TRIAGE by CLOSE, at the expected version. */
  predicate Permits(seen: Db, now: Db, p: Payload) {
    match p
    case Rate(order, _, _, _) =>
      forall i :: 0 <= i < |now.ratings| && now.ratings[i].input.Rate? ==> now.ratings[i].input.order != order
    case Open(order, _) =>
      forall i :: 0 <= i < |now.incidents| && now.incidents[i].order == order ==> now.incidents[i].status == Cerrada
    case Move(id, action, version) =>
      id < |seen.incidents| && seen.incidents[id].version == version
      && ((action == StartTriage && seen.incidents[id].status == Abierta)
          || (action == Close && seen.incidents[id].status == EnTriage))
      && id < |now.incidents| && now.incidents[id].version == version
  }

  /** The database after the effect, with the key and its result. */
  function Effect(now: Db, c: Call): Db
    requires c.payload.Move? ==> c.payload.incident < |now.incidents|
  {
    var k := KeyFor(c);
    match c.payload
    case Rate(_, _, _, _) =>
      now.(ratings := now.ratings + [Rating(c.payload, k)],
           keys := now.keys[k := Reservation(c.payload, Some(|now.ratings|))])
    case Open(order, kind) =>
      var added := Incident(order, kind, Abierta, 1, [TransitionRow(1, OpenAction, None, Abierta, k)]);
      now.(incidents := now.incidents + [added],
           keys := now.keys[k := Reservation(c.payload, Some(|now.incidents|))])
    case Move(id, action, version) =>
      var i := now.incidents[id];
      var next := if action == StartTriage then EnTriage else Cerrada;
      var moved := Incident(i.order, i.kind, next, version + 1,
                            i.transitions + [TransitionRow(version + 1, action, Some(i.status), next, k)]);
      now.(incidents := now.incidents[id := moved], keys := now.keys[k := Reservation(c.payload, Some(id))])
  }

  /** A commit in any reachable state, exactly: with an unused key and rows that permit it the call has its effect, and
      otherwise it changes nothing. */
  lemma {:induction false} EffectsExactly(seen: Db, now: Db, c: Call)
    requires Good(seen) && Good(now) && Extends(seen, now)
    ensures Execute(seen, now, c)
         == if KeyFor(c) !in now.keys && Permits(seen, now, c.payload) then Effect(now, c) else now
  {
    hide IncidentOk, Effected, RatingOwned, TransitionOwned, SequenceTaken;
    if c.payload.Move? && KeyFor(c) !in now.keys && Permits(seen, now, c.payload) {
      SameIncident(seen, now, c.payload.incident);
    }
  }

  /** An incident found at the version it was read with is the one that was read, and its next number is free. */
  lemma {:induction false} SameIncident(seen: Db, now: Db, id: nat)
    requires Good(seen) && Good(now) && Extends(seen, now) && id < |seen.incidents|
    requires seen.incidents[id].version == now.incidents[id].version
    ensures seen.incidents[id] == now.incidents[id]
    ensures |now.incidents[id].transitions| == now.incidents[id].version
    ensures !SequenceTaken(now.incidents[id].transitions, now.incidents[id].version + 1)
  {
    assert IncidentOk(seen.incidents[id]) && IncidentOk(now.incidents[id])
           && Longer(seen.incidents[id], now.incidents[id]);
    SameVersionSameIncident(seen.incidents[id], now.incidents[id]);
    SequenceIsFree(now.incidents[id]);
  }

  // ---------------------------------------------------------------- answers

  /** Why rows that do not permit the call refuse it. */
  function Refusal(seen: Db, p: Payload): Error {
    match p
    case Rate(_, _, _, _) => RatingAlreadyExists
    case Open(_, _) => IncidentAlreadyActive
    case Move(id, action, version) =>
      if id < |seen.incidents| && seen.incidents[id].version == version
         && !(action == StartTriage && seen.incidents[id].status == Abierta)
         && !(action == Close && seen.incidents[id].status == EnTriage) then IncidentTransitionInvalid
      else IncidentVersionConflict
  }

  /** What a call is told of a key that is in use. */
  function OfUsedKey(r: Reservation, c: Call): Answer {
    if r.payload != c.payload then Refused(PayloadMismatch)
    else if r.result.Some? then Replayed(r.result.value)
    else Refused(InProgress)
  }

  /** The answer of a call in every run, exactly. A key in use at the commit answers for itself. Otherwise rows that
      permit the call create its result, and rows that do not refuse it, unless its key has come into use by the last
      of the twenty looks that follow. */
  lemma {:induction false} AnswersExactly(schedule: seq<Commit>, c: Call, t: Times, r: Reads)
    requires InRun(Run(schedule), t, r)
    ensures var k := KeyFor(c);
            Answered(c, r)
            == if k in r.now.keys then OfUsedKey(r.now.keys[k], c)
               else if Permits(r.seen, r.now, c.payload) then
                 Created(match c.payload
                         case Rate(_, _, _, _) => |r.now.ratings|
                         case Open(_, _) => |r.now.incidents|
                         case Move(id, _, _) => id)
               else if k in r.observed[38].keys then OfUsedKey(r.observed[38].keys[k], c)
               else Refused(Refusal(r.seen, c.payload))
  {
    hide Good, Extends, Tx, Replay, Run, Lookup, Permits, RunOk;
    var states, k := Run(schedule), KeyFor(c);
    RunIsGood(schedule);
    PartsOfRun(states, t, r);
    LookupMeans(r.row, r.item, c);
    if k in r.row.keys {
      KeyIsKept(r.row, r.now, k);
    } else {
      TxExactly(r.seen, r.now, c);
      if Tx(r.seen, r.now, c).Aborted? {
        ReplayExactly(r.observed, c);
        if k in r.now.keys { KeyIsKept(r.now, r.observed[38], k); }
        if k in r.observed[38].keys { KeyIsKept(r.observed[38], r.observed[38], k); }
      }
    }
  }

  lemma {:induction false} PartsOfRun(states: seq<Db>, t: Times, r: Reads)
    requires RunOk(states) && InRun(states, t, r)
    ensures Good(r.row) && Good(r.seen) && Good(r.now)
    ensures Extends(r.row, r.item) && Extends(r.row, r.now) && Extends(r.seen, r.now)
    ensures |r.observed| == 40 && Extends(r.now, r.observed[38]) && Later(r.observed)
  {
    hide Good, Extends;
    assert t.now <= t.observed[38] < |states|;
    forall i, j | 0 <= i <= j < |r.observed| ensures Extends(r.observed[i], r.observed[j]) {
      assert t.observed[i] <= t.observed[j];
    }
  }

  /** States observed one after the other. */
  predicate Later(observed: seq<Db>) {
    (forall i :: 0 <= i < |observed| ==> Good(observed[i]))
    && forall i, j :: 0 <= i <= j < |observed| ==> Extends(observed[i], observed[j])
  }

  lemma {:induction false} KeyIsKept(a: Db, b: Db, k: Key)
    requires Good(a) && Extends(a, b) && k in a.keys
    ensures k in b.keys && b.keys[k] == a.keys[k] && a.keys[k].result.Some?
  {
    assert Effected(a, k);
  }

  /** How a transaction ends. */
  lemma {:induction false} TxExactly(seen: Db, now: Db, c: Call)
    requires Good(seen) && Good(now) && Extends(seen, now)
    ensures Tx(seen, now, c).Committed? <==> KeyFor(c) !in now.keys && Permits(seen, now, c.payload)
    ensures Tx(seen, now, c).Aborted? && KeyFor(c) !in now.keys ==>
              ErrorOf(c.payload, Tx(seen, now, c).why) == Refusal(seen, c.payload)
  {
    hide IncidentOk, Effected, RatingOwned, TransitionOwned, SequenceTaken;
    if c.payload.Move? {
      var id := c.payload.incident;
      if id < |seen.incidents| && seen.incidents[id].version == now.incidents[id].version {
        SameIncident(seen, now, id);
      }
    }
  }

  /** The looks after a refusal find what the last of them can see. */
  lemma {:induction false} ReplayExactly(observed: seq<Db>, c: Call)
    requires |observed| % 2 == 0 && observed != [] && Later(observed)
    ensures var last, k := observed[|observed| - 2], KeyFor(c);
            Replay(observed, c)
            == if k !in last.keys then Nothing
               else if last.keys[k].payload != c.payload then Mismatch
               else if last.keys[k].result.Some? then Result(last.keys[k].result.value)
               else Nothing
    decreases |observed|
  {
    hide Good, Extends, Observe;
    var last, k := observed[|observed| - 2], KeyFor(c);
    assert Extends(observed[0], observed[1]) && Extends(observed[0], last);
    if k in observed[0].keys {
      ObserveReserved(observed[0], observed[1], c);
      KeyIsKept(observed[0], last, k);
    } else {
      ObserveUnknown(observed[0], observed[1], c);
      var rest := observed[2..];
      if rest == [] {
        assert Replay(rest, c) == Nothing;
      } else {
        assert Later(rest) by {
          forall i, j | 0 <= i <= j < |rest| ensures Extends(rest[i], rest[j]) {
            assert Extends(observed[i + 2], observed[j + 2]);
          }
        }
        ReplayExactly(rest, c);
      }
    }
  }
}
