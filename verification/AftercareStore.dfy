/** The tables of the aftercare service, changed statement by statement; a transaction that fails puts the tables
    back. */
module AftercareStore {
  import opened Wrappers
  import opened Aftercare
  import opened AftercareCalls

  class Store {
    var ratings: seq<Rating>
    var incidents: seq<Incident>
    var keys: map<Key, Reservation>

    ghost function Contents(): Db reads this { Db(ratings, incidents, keys) }

    constructor ()
      ensures Contents() == EMPTY_DB
    {
      ratings, incidents, keys := [], [], map[];
    }

    /** Insert the reservation without a result; the unique key refuses a second one. */
    method Reserve(c: Call) returns (ok: bool)
      modifies this`keys
      ensures ok <==> KeyOf(c) !in old(keys)
      ensures keys == if ok then old(keys)[KeyOf(c) := Reservation(c.payload, None)] else old(keys)
    {
      if KeyOf(c) in keys { return false; }
      keys := keys[KeyOf(c) := Reservation(c.payload, None)];
      return true;
    }

    method SetResult(c: Call, id: nat)
      requires KeyOf(c) in keys
      modifies this`keys
      ensures keys == old(keys)[KeyOf(c) := old(keys)[KeyOf(c)].(result := Some(id))]
    {
      keys := keys[KeyOf(c) := keys[KeyOf(c)].(result := Some(id))];
    }

    /** The unique index on the rated order. */
    method FindRating(order: string) returns (found: bool)
      ensures found <==> Rated(ratings, order)
    {
      for i := 0 to |ratings|
        invariant !Rated(ratings[..i], order)
      {
        if ratings[i].input.Rate? && ratings[i].input.order == order { return true; }
      }
      assert ratings[..|ratings|] == ratings;
      return false;
    }

    /** The unique index on the orders of incidents that are not closed. */
    method FindActive(order: string) returns (found: bool)
      ensures found <==> HasActive(incidents, order)
    {
      for i := 0 to |incidents|
        invariant !HasActive(incidents[..i], order)
      {
        if incidents[i].order == order && incidents[i].status != Cerrada { return true; }
      }
      assert incidents[..|incidents|] == incidents;
      return false;
    }

    method CreateRating(c: Call) returns (id: Option<nat>)
      requires c.payload.Rate?
      modifies this
      ensures match RateTx(old(Contents()), c)
              case Committed(next) => Contents() == next && id == Some(|old(ratings)|)
              case Aborted(_) => Contents() == old(Contents()) && id == None
    {
      var before := keys;
      var reserved := Reserve(c);
      if !reserved { return None; }
      var taken := FindRating(c.payload.order);
      if taken {
        keys := before;
        return None;
      }
      ratings := ratings + [Rating(c.payload, KeyOf(c))];
      SetResult(c, |ratings| - 1);
      assert keys == before[KeyOf(c) := Reservation(c.payload, Some(|ratings| - 1))];
      return Some(|ratings| - 1);
    }

    method CreateIncident(c: Call) returns (id: Option<nat>)
      requires c.payload.Open?
      modifies this
      ensures match OpenTx(old(Contents()), c)
              case Committed(next) => Contents() == next && id == Some(|old(incidents)|)
              case Aborted(_) => Contents() == old(Contents()) && id == None
    {
      var before := keys;
      var reserved := Reserve(c);
      if !reserved { return None; }
      var taken := FindActive(c.payload.order);
      if taken {
        keys := before;
        return None;
      }
      incidents := incidents + [Opened(c)];
      SetResult(c, |incidents| - 1);
      assert keys == before[KeyOf(c) := Reservation(c.payload, Some(|incidents| - 1))];
      return Some(|incidents| - 1);
    }

    /** Move an incident that was read as part of `seen`. */
    method MoveIncident(c: Call, seen: Db) returns (why: Option<Abort>)
      requires c.payload.Move?
      modifies this
      ensures match MoveTx(seen, old(Contents()), c)
              case Committed(next) => Contents() == next && why == None
              case Aborted(w) => Contents() == old(Contents()) && why == Some(w)
    {
      hide SequenceTaken;
      var before := keys;
      var id := c.payload.incident;
      var reserved := Reserve(c);
      if !reserved { return Some(Duplicate); }
      if id >= |seen.incidents| || seen.incidents[id].version != c.payload.expectedVersion {
        keys := before;
        return Some(VersionConflict);
      }
      var incident := seen.incidents[id];
      var next := NextStatus(c.payload.action, incident.status);
      if next.None? {
        keys := before;
        return Some(TransitionInvalid);
      }
      if id >= |incidents| || incidents[id].version != c.payload.expectedVersion {
        keys := before;
        return Some(NoMatch);
      }
      if SequenceTaken(incidents[id].transitions, |incident.transitions| + 1) {
        keys := before;
        return Some(Duplicate);
      }
      var row := TransitionRow(|incident.transitions| + 1, c.payload.action, Some(incident.status), next.value,
                               KeyOf(c));
      var moved := incidents[id];
      moved := moved.(status := next.value);
      moved := moved.(version := moved.version + 1);
      moved := moved.(transitions := moved.transitions + [row]);
      incidents := incidents[id := moved];
      SetResult(c, id);
      assert keys == before[KeyOf(c) := Reservation(c.payload, Some(id))];
      return None;
    }
  }

  /** The replay loop: up to twenty attempts, each reading the key's row in one state and its result in the next. */
  method ReplayLoop(observed: seq<Db>, c: Call) returns (found: Found)
    requires |observed| == 2 * ATTEMPTS
    ensures found == Replay(observed, c)
  {
    hide Readable;
    for attempt := 0 to ATTEMPTS
      invariant Replay(observed, c) == Replay(observed[2 * attempt..], c)
    {
      var rest := observed[2 * attempt..];
      var row, item := rest[0], rest[1];
      assert rest[2..] == observed[2 * (attempt + 1)..];
      if KeyOf(c) in row.keys {
        var reservation := row.keys[KeyOf(c)];
        if reservation.payload != c.payload { return Mismatch; }
        if reservation.result.Some? && Readable(item, c.payload, reservation.result.value) {
          return Result(reservation.result.value);
        }
      }
    }
    return Nothing;
  }
}
