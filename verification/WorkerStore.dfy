/** The worker as it runs: one poll claims an event, then completes, refuses or retries it by statements guarded
    with the claim's token. Each method is proved equal to its steps. */
module WorkerStore {
  import opened Wrappers
  import opened WorkOrder
  import opened OutboxWorker

  /** What the claim statement returns. */
  datatype ClaimedEvent = ClaimedEvent(id: nat, version: int, kind: Option<EventType>, request: Option<string>,
                                       attempts: nat, token: int)

  /** Where a database error interrupts a poll after its claim, if anywhere. */
  datatype Breakage = NoError | AtRecipient | AtInsert

  /** The steps of one uninterrupted poll of `id`. */
  function PollSteps(s: System, worker: string, id: nat, isClient: bool, breakage: Breakage): seq<Step>
    requires id in s.rows
  {
    var row, claim := s.rows[id], |s.rows[id].claims|;
    [ClaimEvent(worker, id),
     if !ValidEvent(row) then FailClaim(id, claim, true)
     else if breakage == AtRecipient then RetryClaim(id, claim)
     else if !isClient then FailClaim(id, claim, false)
     else if breakage == AtInsert then RetryClaim(id, claim)
     else Materialize(id, claim)]
  }

  class Outbox {
    var now: int
    var rows: map<nat, EventRow>
    var notifications: seq<Notification>

    ghost function Contents(): System reads this { System(now, rows, notifications) }

    /** The attempts column counts the claims. */
    ghost predicate Valid() reads this { forall id :: id in rows ==> rows[id].attempts == |rows[id].claims| }

    constructor (start: int)
      ensures Valid() && Contents() == System(start, map[], [])
    {
      now, rows, notifications := start, map[], [];
    }

    /** UPDATE ... SET state = PROCESSING, attempts = attempts + 1, leaseExpiresAt = now + 30 s of one eligible row. */
    method Claim(worker: string, id: nat) returns (event: Option<ClaimedEvent>)
      modifies this`rows
      ensures event.Some? <==> id in old(rows) && Eligible(old(rows)[id], now)
      ensures rows == if event.Some? then old(rows)[id := ClaimRow(old(rows)[id], now, worker)] else old(rows)
      ensures event.Some? ==> var row := old(rows)[id];
                event == Some(ClaimedEvent(id, row.version, row.kind, row.request, row.attempts + 1, now + LEASE))
    {
      if id !in rows || !Eligible(rows[id], now) { return None; }
      var row := rows[id];
      var claim := OutboxWorker.Claim(worker, now + LEASE, row.state == Processing);
      row := row.(state := Processing);
      row := row.(attempts := row.attempts + 1);
      row := row.(lease := Some(now + LEASE));
      rows := rows[id := row.(claims := row.claims + [claim])];
      return Some(ClaimedEvent(id, row.version, row.kind, row.request, row.attempts, now + LEASE));
    }

    method Fail(event: ClaimedEvent)
      requires event.id in rows
      modifies this`rows
      ensures rows == old(rows)[event.id := FailRow(old(rows)[event.id], event.token)]
    {
      var row := rows[event.id];
      if Holds(row, event.token) {
        row := row.(state := Failed);
        row := row.(lease := None);
      }
      rows := rows[event.id := row];
    }

    method Retry(event: ClaimedEvent)
      requires event.id in rows
      modifies this`rows
      ensures rows == old(rows)[event.id := RetryRow(old(rows)[event.id], event.token, event.attempts, now)]
    {
      if event.attempts >= MAX_ATTEMPTS {
        Fail(event);
        return;
      }
      var row := rows[event.id];
      if Holds(row, event.token) {
        row := row.(state := Waiting);
        row := row.(availableAt := now + DelaySeconds(event.attempts) * 1000);
        row := row.(lease := None);
        row := row.(retried := row.retried + [event.attempts]);
      }
      rows := rows[event.id := row];
    }

    /** One transaction: insert the notification unless it exists, then complete the event under the token.
        Returns whether the update matched the row. */
    method Materialize(event: ClaimedEvent, recipient: string) returns (completed: bool)
      requires event.id in rows && event.kind.Some? && event.request.Some?
      modifies this`rows, this`notifications
      ensures notifications == Insert(old(notifications),
                                      Notification(event.id, recipient, event.request.value, event.kind.value))
      ensures rows == old(rows)[event.id := CompleteRow(old(rows)[event.id], event.token)]
      ensures completed <==> Holds(old(rows)[event.id], event.token)
    {
      if !Recorded(notifications, event.id, recipient) {
        notifications := notifications + [Notification(event.id, recipient, event.request.value, event.kind.value)];
      }
      var row := rows[event.id];
      completed := Holds(row, event.token);
      if completed {
        row := row.(state := Processed);
        row := row.(lease := None);
      }
      rows := rows[event.id := row];
    }

    /** One poll: without an eligible candidate it is idle. A database error after the claim leads to a retry. */
    method PollOnce(clientOf: string -> string, worker: string, candidate: nat, isClient: bool, breakage: Breakage)
      requires Valid()
      modifies this`rows, this`notifications
      ensures Valid()
      ensures !(candidate in old(rows) && Eligible(old(rows)[candidate], now)) ==> Contents() == old(Contents())
      ensures candidate in old(rows) && Eligible(old(rows)[candidate], now) ==>
                var steps := PollSteps(old(Contents()), worker, candidate, isClient, breakage);
                Contents() == Next(clientOf, Next(clientOf, old(Contents()), steps[0]), steps[1])
    {
      hide Eligible, DelaySeconds, Insert, FailRow, RetryRow, CompleteRow;
      var claimed := Claim(worker, candidate);
      if claimed.None? { return; }
      var event := claimed.value;
      if event.version != 1 || event.kind.None? || event.request.None? {
        Fail(event);
        return;
      }
      if breakage == AtRecipient {
        Retry(event);
        return;
      }
      if !isClient {
        Fail(event);
        return;
      }
      if breakage == AtInsert {
        Retry(event);
        return;
      }
      var completed := Materialize(event, clientOf(event.request.value));
    }
  }
}
