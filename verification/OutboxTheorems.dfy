/** What holds in every state of every run of the notification workers. */
module OutboxTheorems {
  import opened Wrappers
  import opened OutboxWorker

  /** Lease tokens of successive claims of an event strictly increase, over expiries and retries alike. */
  lemma {:induction false} TokensRise(clientOf: string -> string, start: int, steps: seq<Step>, id: nat, i: nat, j: nat)
    requires id in Play(clientOf, start, steps).rows
    requires i < j < |Play(clientOf, start, steps).rows[id].claims|
    ensures var claims := Play(clientOf, start, steps).rows[id].claims; claims[i].token < claims[j].token
  {
    hide Play;
    PlayIsGood(clientOf, start, steps);
    assert RowOk(Play(clientOf, start, steps).rows[id], Play(clientOf, start, steps).now);
  }

  /** The claim a settling step presents, if it is one. */
  function Presented(step: Step): Option<(nat, nat)> {
    match step
    case Materialize(id, claim) => Some((id, claim))
    case FailClaim(id, claim, _) => Some((id, claim))
    case RetryClaim(id, claim) => Some((id, claim))
    case _ => None
  }

  /** Fencing: completing, failing or retrying an event under any claim but its latest, so in particular by any worker
      other than its latest claimer, leaves the outbox as it is. So does settling an event not being processed. */
  lemma {:induction false} Fencing(clientOf: string -> string, start: int, steps: seq<Step>, step: Step)
    requires Presented(step).Some?
    ensures var s := Play(clientOf, start, steps);
            var (id, claim) := Presented(step).value;
            Claimed(s, id, claim)
            && (claim != |s.rows[id].claims| - 1 || s.rows[id].claims[claim].worker != Last(s.rows[id]).worker
               || s.rows[id].state != Processing)
            ==> Next(clientOf, s, step).rows == s.rows
  {
    hide Play;
    var s := Play(clientOf, start, steps);
    var (id, claim) := Presented(step).value;
    PlayIsGood(clientOf, start, steps);
    if Claimed(s, id, claim) {
      assert RowOk(s.rows[id], s.now);
      if Holds(s.rows[id], s.rows[id].claims[claim].token) {
        OnlyTheLastClaimHolds(s.rows[id], s.now, claim);
      } else {
        assert s.rows[id := s.rows[id]] == s.rows;
      }
    }
  }

  /** An ended event never changes again, whatever its workers still do. */
  lemma {:induction false} EndedForGood(clientOf: string -> string, start: int, steps: seq<Step>, i: nat, id: nat)
    requires i <= |steps|
    requires var early := Play(clientOf, start, steps[..i]); id in early.rows && Ended(early.rows[id].state)
    ensures var late := Play(clientOf, start, steps);
            id in late.rows && late.rows[id] == Play(clientOf, start, steps[..i]).rows[id]
  {
    hide Play;
    PlayExtends(clientOf, start, steps, i);
  }

  function NotificationsOf(ns: seq<Notification>, event: nat): nat {
    if ns == [] then 0
    else NotificationsOf(ns[..|ns| - 1], event) + (if ns[|ns| - 1].event == event then 1 else 0)
  }

  lemma {:induction false} NoneOf(ns: seq<Notification>, event: nat)
    requires forall i :: 0 <= i < |ns| ==> ns[i].event != event
    ensures NotificationsOf(ns, event) == 0
  {
    if ns != [] { NoneOf(ns[..|ns| - 1], event); }
  }

  lemma {:induction false} AtMostOneOf(ns: seq<Notification>, event: nat)
    requires forall i, j :: 0 <= i < j < |ns| ==> !(ns[i].event == event && ns[j].event == event)
    ensures NotificationsOf(ns, event) <= 1
  {
    if ns != [] {
      var n := |ns| - 1;
      if ns[n].event == event { NoneOf(ns[..n], event); } else { AtMostOneOf(ns[..n], event); }
    }
  }

  lemma {:induction false} AtLeastOneOf(ns: seq<Notification>, event: nat, i: nat)
    requires i < |ns| && ns[i].event == event
    ensures NotificationsOf(ns, event) >= 1
  {
    var n := |ns| - 1;
    if i < n { AtLeastOneOf(ns[..n], event, i); }
  }

  /** With any number of workers, crashes and reclaims an event has at most one notification, addressed to the
      owner of its request, and a processed event has exactly one. */
  lemma {:induction false} OneNotificationPerEvent(clientOf: string -> string, start: int, steps: seq<Step>, id: nat)
    ensures var s := Play(clientOf, start, steps);
            NotificationsOf(s.notifications, id) <= 1
            && (forall i :: 0 <= i < |s.notifications| && s.notifications[i].event == id ==>
                  id in s.rows && s.rows[id].request.Some?
                  && s.notifications[i].recipient == clientOf(s.rows[id].request.value)
                  && Some(s.notifications[i].kind) == s.rows[id].kind)
            && (id in s.rows && s.rows[id].state == Processed ==> NotificationsOf(s.notifications, id) == 1)
  {
    hide Play;
    PlayIsGood(clientOf, start, steps);
    OneNotification(clientOf, Play(clientOf, start, steps), id);
  }

  lemma {:induction false} OneNotification(clientOf: string -> string, s: System, id: nat)
    requires SystemOk(clientOf, s)
    ensures NotificationsOf(s.notifications, id) <= 1
    ensures forall i :: 0 <= i < |s.notifications| && s.notifications[i].event == id ==>
              id in s.rows && s.rows[id].request.Some?
              && s.notifications[i].recipient == clientOf(s.rows[id].request.value)
              && Some(s.notifications[i].kind) == s.rows[id].kind
    ensures id in s.rows && s.rows[id].state == Processed ==> NotificationsOf(s.notifications, id) == 1
  {
    hide RowOk;
    var ns := s.notifications;
    forall i, j | 0 <= i < j < |ns| ensures !(ns[i].event == id && ns[j].event == id) {
      assert NotificationOk(clientOf, s, i) && NotificationOk(clientOf, s, j);
    }
    AtMostOneOf(ns, id);
    forall i | 0 <= i < |ns| && ns[i].event == id
      ensures id in s.rows && s.rows[id].request.Some? && ns[i].recipient == clientOf(s.rows[id].request.value)
              && Some(ns[i].kind) == s.rows[id].kind
    {
      assert NotificationOk(clientOf, s, i);
    }
    if id in s.rows && s.rows[id].state == Processed {
      assert Delivered(clientOf, s, id);
      var i :| 0 <= i < |ns| && ns[i].event == id && ns[i].recipient == clientOf(s.rows[id].request.value);
      AtLeastOneOf(ns, id, i);
    }
  }

  // ---------------------------------------------------------------- how often an event is tried

  function Reclaims(claims: seq<Claim>): int { |claims| - Fresh(claims) }

  lemma {:induction false} RisingIsAbove(ns: seq<nat>, i: nat)
    requires RisingNumbers(ns) && i < |ns| && (forall k :: 0 <= k < |ns| ==> ns[k] >= 1)
    ensures ns[i] >= i + 1
  {
    if i > 0 { RisingIsAbove(ns, i - 1); }
  }

  /** An event is retried at most four times, with delays among 5, 10, 20 and 40 seconds in rising order, and claimed
      at most five times more than its lease expired. */
  lemma {:induction false} BoundedRetries(clientOf: string -> string, start: int, steps: seq<Step>, id: nat)
    requires id in Play(clientOf, start, steps).rows
    ensures var row := Play(clientOf, start, steps).rows[id];
            |row.retried| <= 4
            && (forall i :: 0 <= i < |row.retried| ==> DelaySeconds(row.retried[i]) in [5, 10, 20, 40])
            && (forall i, j :: 0 <= i < j < |row.retried| ==> row.retried[i] < row.retried[j])
            && row.attempts == |row.claims| <= MAX_ATTEMPTS + Reclaims(row.claims)
  {
    hide Play;
    PlayIsGood(clientOf, start, steps);
    var row := Play(clientOf, start, steps).rows[id];
    assert RowOk(row, Play(clientOf, start, steps).now);
    if row.retried != [] { RisingIsAbove(row.retried, |row.retried| - 1); }
    forall i | 0 <= i < |row.retried| ensures DelaySeconds(row.retried[i]) in [5, 10, 20, 40] {
      Delays(row.retried[i]);
    }
  }

  /** The claims of an event, counted: each was retried, or taken over after its lease expired, but for the last of an
      event that is not waiting. A waiting event has had fewer than five, whatever became of its leases. */
  lemma {:induction false} ClaimsAreCounted(clientOf: string -> string, start: int, steps: seq<Step>, id: nat)
    requires id in Play(clientOf, start, steps).rows
    ensures var row := Play(clientOf, start, steps).rows[id];
            |row.claims| == |row.retried| + Reclaims(row.claims) + (if row.state == Waiting then 0 else 1)
            && (row.state == Waiting ==> row.attempts < MAX_ATTEMPTS)
  {
    hide Play, Fresh;
    PlayIsGood(clientOf, start, steps);
    assert RowOk(Play(clientOf, start, steps).rows[id], Play(clientOf, start, steps).now);
  }

  /** However it is polled, an event that never loses a lease is claimed at most five times, and after the fifth it has
      ended unless that claim is still being worked on. */
  lemma {:induction false} FiveClaimsEndIt(clientOf: string -> string, start: int, steps: seq<Step>, id: nat)
    requires id in Play(clientOf, start, steps).rows && Reclaims(Play(clientOf, start, steps).rows[id].claims) == 0
    ensures var row := Play(clientOf, start, steps).rows[id];
            row.attempts == |row.claims| <= MAX_ATTEMPTS
            && (row.state == Waiting ==> row.attempts < MAX_ATTEMPTS)
            && (row.attempts == MAX_ATTEMPTS ==> Ended(row.state) || row.state == Processing)
  {
    hide Play, Fresh;
    PlayIsGood(clientOf, start, steps);
    var row := Play(clientOf, start, steps).rows[id];
    assert RowOk(row, Play(clientOf, start, steps).now);
    if row.retried != [] { RisingIsAbove(row.retried, |row.retried| - 1); }
  }

  // ---------------------------------------------------------------- single steps

  lemma {:induction false} PlaySnoc(clientOf: string -> string, start: int, steps: seq<Step>, step: Step)
    ensures Play(clientOf, start, steps + [step]) == Next(clientOf, Play(clientOf, start, steps), step)
  {
    assert (steps + [step])[..|steps|] == steps;
  }

  lemma {:induction false} CreatedRow(clientOf: string -> string, start: int, id: nat, create: Step)
    requires create.Create? && create.id == id
    ensures var s := Next(clientOf, Play(clientOf, start, []), create);
            s.now == start && id in s.rows
            && s.rows[id] == EventRow(create.kind, create.version, create.request, Waiting, 0, start, None, [], [])
  {
  }

  lemma {:induction false} TickMoves(clientOf: string -> string, s: System, now: int)
    requires s.now <= now
    ensures Next(clientOf, s, Tick(now)) == s.(now := now)
  {
  }
}
