/** What every step of a worker does to any state a run can reach, in the numbers of the claim, complete, fail and
    retry statements. */
module OutboxSteps {
  import opened Wrappers
  import opened OutboxWorker
  import opened OutboxTheorems
  import opened WorkerStore

  /** The rows of reachable states, as far as their claims decide about them. */
  lemma {:induction false} ReachedRow(clientOf: string -> string, start: int, steps: seq<Step>, id: nat)
    requires id in Play(clientOf, start, steps).rows
    ensures var row := Play(clientOf, start, steps).rows[id];
            row.attempts == |row.claims|
            && (row.state == Waiting || row.claims != [])
            && row.lease == (if row.state == Processing then Some(Last(row).token) else None)
            && (row.state == Processing ==> row.kind.Some? && row.availableAt <= Play(clientOf, start, steps).now)
  {
    hide Play;
    PlayIsGood(clientOf, start, steps);
    assert RowOk(Play(clientOf, start, steps).rows[id], Play(clientOf, start, steps).now);
  }

  // ---------------------------------------------------------------- claims

  /** The event can be claimed: it waits, is of a known kind and its time has come, or it is being processed and its
      latest claim's token lies in the past. */
  predicate Free(row: EventRow, now: int) {
    (row.state == Waiting && row.kind.Some? && row.availableAt <= now)
    || (row.state == Processing && row.claims != [] && row.claims[|row.claims| - 1].token < now)
  }

  /** A claim in any reachable state, exactly: a free event is taken under the token 30 seconds ahead, with one attempt
      more and nothing else changed; any other event, and every other row, stays as it is. */
  lemma {:induction false} ClaimsExactly(clientOf: string -> string, start: int, steps: seq<Step>, worker: string,
                                         id: nat)
    ensures var s := Play(clientOf, start, steps);
            var next := Next(clientOf, s, ClaimEvent(worker, id));
            next.now == s.now && next.notifications == s.notifications
            && if id in s.rows && Free(s.rows[id], s.now) then
                 var row, token := s.rows[id], s.now + 30_000;
                 next.rows
                 == s.rows[id := EventRow(row.kind, row.version, row.request, Processing, |row.claims| + 1,
                                          row.availableAt, Some(token),
                                          row.claims + [Claim(worker, token, row.state == Processing)], row.retried)]
               else next.rows == s.rows
  {
    hide Play;
    var s := Play(clientOf, start, steps);
    if id in s.rows { ReachedRow(clientOf, start, steps, id); }
  }

  /** A lease that has not expired is safe: whoever claims the event until then leaves the system as it is. */
  lemma {:induction false} LiveLeaseIsSafe(clientOf: string -> string, start: int, steps: seq<Step>, worker: string,
                                           id: nat)
    requires var s := Play(clientOf, start, steps);
             id in s.rows && s.rows[id].state == Processing && s.rows[id].lease.Some? && s.now <= s.rows[id].lease.value
    ensures Next(clientOf, Play(clientOf, start, steps), ClaimEvent(worker, id)) == Play(clientOf, start, steps)
  {
    hide Play;
    ReachedRow(clientOf, start, steps, id);
    ClaimsExactly(clientOf, start, steps, worker, id);
  }

  /** Successive claims of an event are apart, in every run: a takeover comes after the previous token, so that its own
      is more than 30 seconds later, and after the i-th claim was retried the next one keeps the delay of 5, 10, 20 or
      40 seconds. */
  lemma {:induction false} ClaimsAreSpaced(clientOf: string -> string, start: int, steps: seq<Step>, id: nat, i: nat)
    requires id in Play(clientOf, start, steps).rows
    requires 0 < i < |Play(clientOf, start, steps).rows[id].claims|
    ensures var claims := Play(clientOf, start, steps).rows[id].claims;
            if claims[i].reclaim then claims[i].token > claims[i - 1].token + 30_000
            else i <= 4 && claims[i].token >= claims[i - 1].token + [5_000, 10_000, 20_000, 40_000][i - 1]
  {
    hide Play;
    PlayIsGood(clientOf, start, steps);
    var row := Play(clientOf, start, steps).rows[id];
    assert RowOk(row, Play(clientOf, start, steps).now);
    assert SpacedAt(row.claims, i);
    if !row.claims[i].reclaim { Delays(i); }
  }

  // ---------------------------------------------------------------- settling

  /** What settling an event under its latest claim makes of its row. */
  function SettledRow(row: EventRow, now: int, step: Step): EventRow {
    match step
    case Materialize(_, _) => row.(state := Processed, lease := None)
    case FailClaim(_, _, _) => row.(state := Failed, lease := None)
    case RetryClaim(_, claim) =>
      if claim >= 4 then row.(state := Failed, lease := None)
      else row.(state := Waiting, lease := None, retried := row.retried + [claim + 1],
                availableAt := now + [5_000, 10_000, 20_000, 40_000][claim])
    case _ => row
  }

  /** The step may be taken: a notification needs a version 1 event of a known kind with a request, and an event is
      refused for lacking one of these or for its recipient. */
  predicate Possible(row: EventRow, step: Step) {
    match step
    case Materialize(_, _) => row.version == 1 && row.kind.Some? && row.request.Some?
    case FailClaim(_, _, recipientFound) =>
      row.version != 1 || row.kind.None? || row.request.None? || !recipientFound
    case RetryClaim(_, _) => true
    case _ => false
  }

  /** The notification's row, once written. */
  predicate Notified(clientOf: string -> string, ns: seq<Notification>, id: nat, row: EventRow) {
    row.request.Some? && row.kind.Some?
    && Notification(id, clientOf(row.request.value), row.request.value, row.kind.value) in ns
  }

  /** Settling under the latest claim of an event being processed, in any reachable state, exactly: a notification ends
      it as PROCESSED, a refusal as FAILED, and a retry makes it wait for 5, 10, 20 or 40 seconds, or ends it as FAILED
      at the fifth claim. No other row changes. */
  lemma {:induction false} SettlesExactly(clientOf: string -> string, start: int, steps: seq<Step>, step: Step)
    requires Presented(step).Some?
    requires var s := Play(clientOf, start, steps);
             var (id, claim) := Presented(step).value;
             id in s.rows && s.rows[id].state == Processing && claim == |s.rows[id].claims| - 1
             && Possible(s.rows[id], step)
    ensures var s := Play(clientOf, start, steps);
            var id := Presented(step).value.0;
            var next := Next(clientOf, s, step);
            next.now == s.now && next.rows == s.rows[id := SettledRow(s.rows[id], s.now, step)]
            && (step.Materialize? ==> Notified(clientOf, next.notifications, id, s.rows[id]))
            && (!step.Materialize? ==> next.notifications == s.notifications)
  {
    hide Play, DelaySeconds;
    var s := Play(clientOf, start, steps);
    var (id, claim) := Presented(step).value;
    ReachedRow(clientOf, start, steps, id);
    if step.Materialize? { NotificationIsThere(clientOf, start, steps, id); }
    if step.RetryClaim? && claim < 4 { Delays(claim + 1); }
  }

  /** A settling step that is not possible, or names a claim that was never made, does nothing. */
  lemma {:induction false} NothingElseSettles(clientOf: string -> string, s: System, step: Step)
    requires Presented(step).Some?
    requires var (id, claim) := Presented(step).value;
             !(id in s.rows && claim < |s.rows[id].claims| && Possible(s.rows[id], step))
    ensures Next(clientOf, s, step) == s
  {
    hide CompleteRow, FailRow, RetryRow, Insert;
  }

  lemma {:induction false} NotificationIsThere(clientOf: string -> string, start: int, steps: seq<Step>, id: nat)
    requires id in Play(clientOf, start, steps).rows && ValidEvent(Play(clientOf, start, steps).rows[id])
    ensures var s := Play(clientOf, start, steps);
            Notified(clientOf, Insert(s.notifications, NotificationFor(clientOf, id, s.rows[id])), id, s.rows[id])
  {
    hide Play, RowOk;
    var s := Play(clientOf, start, steps);
    var n := NotificationFor(clientOf, id, s.rows[id]);
    PlayIsGood(clientOf, start, steps);
    if Recorded(s.notifications, n.event, n.recipient) {
      var ns := s.notifications;
      var i :| 0 <= i < |ns| && ns[i].event == id && ns[i].recipient == n.recipient;
      assert NotificationOk(clientOf, s, i);
      assert ns[i] == n;
    } else {
      assert Insert(s.notifications, n)[|s.notifications|] == n;
    }
  }

  // ---------------------------------------------------------------- whole polls

  /** One uninterrupted poll of a free event in any reachable state, by what it meets: an unusable event or one without
      a client is FAILED at once, a database error leaves it waiting, or FAILED at the fifth try, and otherwise it is
      PROCESSED with its notification written. */
  lemma {:induction false} PollEnds(clientOf: string -> string, start: int, steps: seq<Step>, worker: string, id: nat,
                                    isClient: bool, breakage: Breakage)
    requires var s := Play(clientOf, start, steps);
             id in s.rows && Free(s.rows[id], s.now)
    ensures var s := Play(clientOf, start, steps);
            var polled := PollSteps(s, worker, id, isClient, breakage);
            var late, row := Next(clientOf, Next(clientOf, s, polled[0]), polled[1]), s.rows[id];
            var usable := row.version == 1 && row.request.Some?;
            id in late.rows && late.rows[id].attempts == row.attempts + 1 && late.rows[id].lease.None?
            && late.rows[id].state
               == (if !usable || (breakage != AtRecipient && !isClient) then Failed
                   else if breakage != NoError then (if row.attempts >= 4 then Failed else Waiting)
                   else Processed)
            && (late.rows[id].state == Processed ==> Notified(clientOf, late.notifications, id, row))
            && (late.rows[id].state != Processed ==> late.notifications == s.notifications)
  {
    hide Play, Next, SettledRow, Notified;
    var s := Play(clientOf, start, steps);
    var polled := PollSteps(s, worker, id, isClient, breakage);
    ReachedRow(clientOf, start, steps, id);
    ClaimsExactly(clientOf, start, steps, worker, id);
    PlaySnoc(clientOf, start, steps, polled[0]);
    var claimed := Next(clientOf, s, polled[0]);
    assert claimed.rows[id].claims[..|s.rows[id].claims|] == s.rows[id].claims;
    SettlesExactly(clientOf, start, steps + [polled[0]], polled[1]);
    SettledFields(claimed.rows[id], s.now, polled[1]);
    SameEvent(clientOf, claimed.rows[id], s.rows[id]);
  }

  lemma {:induction false} SettledFields(row: EventRow, now: int, step: Step)
    requires Presented(step).Some?
    ensures var next := SettledRow(row, now, step);
            next.attempts == row.attempts && next.lease.None?
            && next.state == if step.Materialize? then Processed
                             else if step.RetryClaim? && step.claim < 4 then Waiting
                             else Failed
  {
  }

  lemma {:induction false} SameEvent(clientOf: string -> string, a: EventRow, b: EventRow)
    requires a.kind == b.kind && a.request == b.request
    ensures forall ns: seq<Notification>, id: nat :: Notified(clientOf, ns, id, a) == Notified(clientOf, ns, id, b)
  {
  }

  // ---------------------------------------------------------------- nothing is stuck

  /** When an event that has not ended can be claimed next. */
  function NextChance(row: EventRow, now: int): int {
    var after := if row.lease.Some? then row.lease.value + 1 else row.availableAt;
    if after <= now then now else after
  }

  /** From every reachable state every usable event that has not ended can still be delivered, whatever crashed before:
      in time, a claim and a notification do it, without touching another event. */
  lemma {:induction false} CanBeDelivered(clientOf: string -> string, start: int, steps: seq<Step>, worker: string,
                                          id: nat)
    returns (more: seq<Step>)
    requires var s := Play(clientOf, start, steps);
             id in s.rows && (s.rows[id].state == Waiting || s.rows[id].state == Processing)
             && s.rows[id].version == 1 && s.rows[id].kind.Some? && s.rows[id].request.Some?
    ensures |more| == 3 && forall i :: 0 <= i < 3 ==> !more[i].Create?
    ensures var s, late := Play(clientOf, start, steps), Play(clientOf, start, steps + more);
            id in late.rows && late.rows == s.rows[id := late.rows[id]] && late.rows[id].state == Processed
            && Notified(clientOf, late.notifications, id, s.rows[id])
  {
    hide Play, Next, Notified, SettledRow;
    var s := Play(clientOf, start, steps);
    var row := s.rows[id];
    var tick := Tick(NextChance(row, s.now));
    var claim, settle := ClaimEvent(worker, id), Materialize(id, |row.claims|);
    ReachedRow(clientOf, start, steps, id);
    PlaySnoc(clientOf, start, steps, tick);
    TickMoves(clientOf, s, NextChance(row, s.now));
    ClaimsExactly(clientOf, start, steps + [tick], worker, id);
    PlaySnoc(clientOf, start, steps + [tick], claim);
    var claimed := Play(clientOf, start, steps + [tick] + [claim]);
    SettlesExactly(clientOf, start, steps + [tick] + [claim], settle);
    PlaySnoc(clientOf, start, steps + [tick] + [claim], settle);
    SettledFields(claimed.rows[id], claimed.now, settle);
    SameEvent(clientOf, claimed.rows[id], row);
    more := [tick, claim, settle];
    assert steps + more == steps + [tick] + [claim] + [settle];
  }
}
