/** The notification worker: many workers claim outbox events under a 30 second lease, and the lease's expiry
    time is the token that every later write of the claim must present. Times are in milliseconds.

    A worker may act on any claim it ever made, at any later time and as often as it likes; a worker that
    crashes is one that never acts again. */
module OutboxWorker {
  import opened Wrappers
  import opened WorkOrder

  const LEASE := 30_000
  const MAX_ATTEMPTS := 5

  datatype RowState = Waiting | Processing | Processed | Failed

  /** One successful claim: who made it, its token, and whether it took over an expired lease. */
  datatype Claim = Claim(worker: string, token: int, reclaim: bool)

  /** An outbox row. `kind` is None for event types without a template. `claims` lists all claims ever made and
      `retried` the numbers, from 1, of the claims whose retry took effect; both are history, the worker never reads
      them. */
  datatype EventRow = EventRow(kind: Option<EventType>, version: int, request: Option<string>,
                               state: RowState, attempts: nat, availableAt: int, lease: Option<int>,
                               claims: seq<Claim>, retried: seq<nat>)

  datatype Notification = Notification(event: nat, recipient: string, request: string, kind: EventType)

  datatype System = System(now: int, rows: map<nat, EventRow>, notifications: seq<Notification>)

  predicate Ended(s: RowState) { s == Processed || s == Failed }

  // ---------------------------------------------------------------- the statements on one row

  predicate Eligible(row: EventRow, now: int) {
    row.kind.Some?
    && (row.state == Waiting || (row.state == Processing && row.lease.Some? && row.lease.value < now))
    && row.availableAt <= now
  }

  function ClaimRow(row: EventRow, now: int, worker: string): EventRow {
    row.(state := Processing, attempts := row.attempts + 1, lease := Some(now + LEASE),
         claims := row.claims + [Claim(worker, now + LEASE, row.state == Processing)])
  }

  /** The guard of every statement after the claim: still processing, and under this token. */
  predicate Holds(row: EventRow, token: int) {
    row.state == Processing && row.lease == Some(token)
  }

  function FailRow(row: EventRow, token: int): (r: EventRow)
    ensures r.claims == row.claims && r.attempts == row.attempts
    ensures !Holds(row, token) ==> r == row
  {
    if Holds(row, token) then row.(state := Failed, lease := None) else row
  }

  function CompleteRow(row: EventRow, token: int): (r: EventRow)
    ensures r.claims == row.claims && r.attempts == row.attempts
    ensures !Holds(row, token) ==> r == row
  {
    if Holds(row, token) then row.(state := Processed, lease := None) else row
  }

  function Pow2(n: nat): nat { if n == 0 then 1 else 2 * Pow2(n - 1) }

  /** Seconds until the next try of a claim that was the event's `attempts`-th. */
  function DelaySeconds(attempts: nat): nat {
    var backoff := 5 * Pow2(if attempts >= 1 then attempts - 1 else 0);
    if backoff < 300 then backoff else 300
  }

  function RetryRow(row: EventRow, token: int, attempts: nat, now: int): (r: EventRow)
    ensures r.claims == row.claims && r.attempts == row.attempts
    ensures !Holds(row, token) ==> r == row
  {
    if attempts >= MAX_ATTEMPTS then FailRow(row, token)
    else if Holds(row, token) then
      row.(state := Waiting, availableAt := now + DelaySeconds(attempts) * 1000, lease := None,
           retried := row.retried + [attempts])
    else row
  }

  /** The event can be turned into a notification. */
  predicate ValidEvent(row: EventRow) { row.version == 1 && row.kind.Some? && row.request.Some? }

  // ---------------------------------------------------------------- steps

  datatype Step =
    | Tick(now: int)
    | Create(id: nat, kind: Option<EventType>, version: int, request: Option<string>)
    | ClaimEvent(worker: string, id: nat)
    | Materialize(id: nat, claim: nat)
    | FailClaim(id: nat, claim: nat, recipientFound: bool)
    | RetryClaim(id: nat, claim: nat)

  function WithRow(s: System, id: nat, row: EventRow): System { s.(rows := s.rows[id := row]) }

  predicate Claimed(s: System, id: nat, claim: nat) { id in s.rows && claim < |s.rows[id].claims| }

  /** INSERT ... ON CONFLICT (event, recipient) DO NOTHING. */
  function Insert(ns: seq<Notification>, n: Notification): seq<Notification> {
    if Recorded(ns, n.event, n.recipient) then ns else ns + [n]
  }

  predicate Recorded(ns: seq<Notification>, event: nat, recipient: string) {
    exists i :: 0 <= i < |ns| && ns[i].event == event && ns[i].recipient == recipient
  }

  /** One step; a step whose guard fails changes nothing. `clientOf` is the owner of a request. The insert of a
      notification commits even when the completing update matches no row. */
  function Next(clientOf: string -> string, s: System, step: Step): System {
    match step
    case Tick(now) => if now < s.now then s else s.(now := now)
    case Create(id, kind, version, request) =>
      if id in s.rows then s
      else WithRow(s, id, EventRow(kind, version, request, Waiting, 0, s.now, None, [], []))
    case ClaimEvent(worker, id) =>
      if id in s.rows && Eligible(s.rows[id], s.now) then WithRow(s, id, ClaimRow(s.rows[id], s.now, worker)) else s
    case Materialize(id, claim) =>
      if Claimed(s, id, claim) && ValidEvent(s.rows[id]) then
        var row := s.rows[id];
        WithRow(s, id, CompleteRow(row, row.claims[claim].token)).(
          notifications := Insert(s.notifications, NotificationFor(clientOf, id, row)))
      else s
    case FailClaim(id, claim, recipientFound) =>
      if Claimed(s, id, claim) && !(ValidEvent(s.rows[id]) && recipientFound) then
        WithRow(s, id, FailRow(s.rows[id], s.rows[id].claims[claim].token))
      else s
    case RetryClaim(id, claim) =>
      if Claimed(s, id, claim) then
        WithRow(s, id, RetryRow(s.rows[id], s.rows[id].claims[claim].token, claim + 1, s.now))
      else s
  }

  // ---------------------------------------------------------------- invariant of one row

  predicate Rising(claims: seq<Claim>) {
    forall i, j :: 0 <= i < j < |claims| ==> claims[i].token < claims[j].token
  }

  predicate RisingNumbers(ns: seq<nat>) {
    forall i, j :: 0 <= i < j < |ns| ==> ns[i] < ns[j]
  }

  function Fresh(claims: seq<Claim>): nat {
    if claims == [] then 0 else Fresh(claims[..|claims| - 1]) + (if claims[|claims| - 1].reclaim then 0 else 1)
  }

  function Last(row: EventRow): Claim requires row.claims != [] { row.claims[|row.claims| - 1] }

  /** Tokens rise; the lease is the last claim's token while processing and absent otherwise; the next claim of a
      waiting event will carry a later token. */
  predicate TokensOk(row: EventRow, now: int) {
    Rising(row.claims)
    && row.attempts == |row.claims|
    && (row.state != Waiting ==> row.claims != [])
    && (row.claims != [] ==> Last(row).token <= now + LEASE)
    && row.lease == (if row.state == Processing && row.claims != [] then Some(Last(row).token) else None)
    && (row.state == Waiting && row.claims != [] ==> Last(row).token < row.availableAt + LEASE)
  }

  /** Effective retries are of distinct claims, all below the attempt limit; a claimed event waits after a retry of its
      last claim. */
  predicate RetriesOk(row: EventRow) {
    RisingNumbers(row.retried)
    && (forall i :: 0 <= i < |row.retried| ==> 1 <= row.retried[i] < MAX_ATTEMPTS && row.retried[i] <= |row.claims|)
    && (row.state == Processing ==> forall i :: 0 <= i < |row.retried| ==> row.retried[i] < |row.claims|)
    && Fresh(row.claims) == |row.retried| + (if row.state == Waiting then 0 else 1)
    && (row.state == Waiting && row.claims != [] ==>
         row.retried != [] && row.retried[|row.retried| - 1] == |row.claims|)
  }

  /** The least distance between the tokens of two successive claims: more than an expired lease, or the delay of a
      retry, which only the first four claims get. */
  predicate SpacedAt(claims: seq<Claim>, i: nat)
    requires 0 < i < |claims|
  {
    if claims[i].reclaim then claims[i - 1].token + LEASE < claims[i].token
    else i < MAX_ATTEMPTS && claims[i - 1].token + DelaySeconds(i) * 1000 <= claims[i].token
  }

  predicate SpacingOk(row: EventRow) {
    (forall i :: 0 < i < |row.claims| ==> SpacedAt(row.claims, i))
    && (row.state == Waiting && row.claims != [] ==>
         Last(row).token + DelaySeconds(|row.claims|) * 1000 <= row.availableAt + LEASE)
  }

  /** What is being processed was of a known kind, and its time had come. */
  predicate ClaimedOk(row: EventRow, now: int) { row.state == Processing ==> row.kind.Some? && row.availableAt <= now }

  predicate RowOk(row: EventRow, now: int) {
    TokensOk(row, now) && RetriesOk(row) && SpacingOk(row) && ClaimedOk(row, now)
  }

  lemma {:induction false} DelayIsPositive(attempts: nat)
    ensures 5 <= DelaySeconds(attempts) <= 300
  {
    Pow2Positive(if attempts >= 1 then attempts - 1 else 0);
  }

  lemma {:induction false} Pow2Positive(n: nat)
    ensures Pow2(n) >= 1
  {
    if n > 0 { Pow2Positive(n - 1); }
  }

  /** The delays that can occur are 5, 10, 20 and 40 seconds; the cap of 300 is never reached. */
  lemma {:induction false} Delays(attempts: nat)
    requires 1 <= attempts < MAX_ATTEMPTS
    ensures DelaySeconds(attempts) == [5, 10, 20, 40][attempts - 1]
  {
    DelayTable(attempts);
  }

  /** The delay of any number of attempts: it doubles from 5 seconds up to the cap of 300. */
  lemma {:induction false} DelayTable(attempts: nat)
    ensures DelaySeconds(attempts) == if attempts <= 6 then [5, 5, 10, 20, 40, 80, 160][attempts] else 300
  {
    assert Pow2(0) == 1 && Pow2(1) == 2 && Pow2(2) == 4;
    assert Pow2(3) == 8 && Pow2(4) == 16 && Pow2(5) == 32;
    if attempts > 6 { Pow2Large(attempts - 1); }
  }

  lemma {:induction false} Pow2Large(n: nat)
    requires n >= 6
    ensures Pow2(n) >= 64
  {
    if n > 6 {
      Pow2Large(n - 1);
    } else {
      assert Pow2(3) == 8 && Pow2(6) == 8 * Pow2(3);
    }
  }

  lemma {:induction false} AppendedClaim(claims: seq<Claim>, c: Claim)
    ensures Fresh(claims + [c]) == Fresh(claims) + (if c.reclaim then 0 else 1)
  {
    assert (claims + [c])[..|claims|] == claims;
  }

  lemma {:induction false} ClaimKeepsRow(row: EventRow, now: int, worker: string)
    requires RowOk(row, now) && Eligible(row, now)
    ensures var next := ClaimRow(row, now, worker);
            RowOk(next, now) && (row.claims != [] ==> Last(row).token < Last(next).token)
  {
    AppendedClaim(row.claims, Claim(worker, now + LEASE, row.state == Processing));
    ClaimIsSpaced(row, now, worker);
  }

  lemma {:induction false} ClaimIsSpaced(row: EventRow, now: int, worker: string)
    requires RowOk(row, now) && Eligible(row, now)
    ensures SpacingOk(ClaimRow(row, now, worker))
  {
    hide DelaySeconds, Fresh;
    var next := ClaimRow(row, now, worker);
    forall i | 0 < i < |next.claims| ensures SpacedAt(next.claims, i) {
      if i < |row.claims| { assert SpacedAt(row.claims, i); }
    }
  }

  /** A token is the lease only if it is the last claim's. */
  lemma {:induction false} OnlyTheLastClaimHolds(row: EventRow, now: int, claim: nat)
    requires TokensOk(row, now) && claim < |row.claims| && Holds(row, row.claims[claim].token)
    ensures claim == |row.claims| - 1
  {
  }

  lemma {:induction false} RetryKeepsRow(row: EventRow, now: int, claim: nat)
    requires RowOk(row, now) && claim < |row.claims|
    ensures RowOk(RetryRow(row, row.claims[claim].token, claim + 1, now), now)
  {
    if Holds(row, row.claims[claim].token) {
      OnlyTheLastClaimHolds(row, now, claim);
      DelayIsPositive(claim + 1);
    }
  }

  lemma {:induction false} ClockKeepsRow(row: EventRow, now: int, later: int)
    requires RowOk(row, now) && now <= later
    ensures RowOk(row, later)
  {
  }

  // ---------------------------------------------------------------- invariant of the system

  predicate NotificationOk(clientOf: string -> string, s: System, i: nat)
    requires i < |s.notifications|
  {
    var n := s.notifications[i];
    n.event in s.rows && ValidEvent(s.rows[n.event])
    && n.recipient == clientOf(s.rows[n.event].request.value) && n.request == s.rows[n.event].request.value
    && n.kind == s.rows[n.event].kind.value
  }

  predicate Distinct(ns: seq<Notification>) {
    forall i, j :: 0 <= i < j < |ns| ==> ns[i].event != ns[j].event || ns[i].recipient != ns[j].recipient
  }

  predicate Delivered(clientOf: string -> string, s: System, id: nat)
    requires id in s.rows
  {
    s.rows[id].state == Processed ==>
      ValidEvent(s.rows[id]) && Recorded(s.notifications, id, clientOf(s.rows[id].request.value))
  }

  predicate SystemOk(clientOf: string -> string, s: System) {
    (forall id :: id in s.rows ==> RowOk(s.rows[id], s.now) && Delivered(clientOf, s, id))
    && (forall i :: 0 <= i < |s.notifications| ==> NotificationOk(clientOf, s, i))
    && Distinct(s.notifications)
  }

  /** A row keeps its identity; an ended row stays exactly as it is; claims and retries are only added. */
  predicate RowExtends(a: EventRow, b: EventRow) {
    b.kind == a.kind && b.version == a.version && b.request == a.request
    && a.claims <= b.claims && a.retried <= b.retried
    && (Ended(a.state) ==> b == a)
  }

  predicate SystemExtends(a: System, b: System) {
    a.now <= b.now
    && (forall id :: id in a.rows ==> id in b.rows && RowExtends(a.rows[id], b.rows[id]))
    && a.notifications <= b.notifications
  }

  /** Replacing one row by a good successor, with nothing else changed, keeps the system good. */
  lemma {:induction false} RowStep(clientOf: string -> string, s: System, id: nat, row: EventRow)
    requires SystemOk(clientOf, s) && id in s.rows
    requires RowOk(row, s.now) && RowExtends(s.rows[id], row)
    requires row.state == Processed ==> Delivered(clientOf, WithRow(s, id, row), id)
    ensures SystemOk(clientOf, WithRow(s, id, row)) && SystemExtends(s, WithRow(s, id, row))
  {
    hide RowOk;
    var next := WithRow(s, id, row);
    forall i | 0 <= i < |next.notifications| ensures NotificationOk(clientOf, next, i) {
      assert NotificationOk(clientOf, s, i);
    }
    forall e | e in next.rows ensures Delivered(clientOf, next, e) {
      if e != id { assert Delivered(clientOf, s, e); }
    }
  }

  lemma {:induction false} InsertKeeps(clientOf: string -> string, s: System, n: Notification)
    requires SystemOk(clientOf, s)
    requires n.event in s.rows && ValidEvent(s.rows[n.event]) && n.request == s.rows[n.event].request.value
             && n.recipient == clientOf(n.request) && n.kind == s.rows[n.event].kind.value
    ensures var next := s.(notifications := Insert(s.notifications, n));
            SystemOk(clientOf, next) && SystemExtends(s, next) && Recorded(next.notifications, n.event, n.recipient)
  {
    hide RowOk;
    var next := s.(notifications := Insert(s.notifications, n));
    forall i | 0 <= i < |next.notifications| ensures NotificationOk(clientOf, next, i) {
      if i < |s.notifications| { assert NotificationOk(clientOf, s, i); }
    }
    forall e | e in next.rows ensures Delivered(clientOf, next, e) {
      assert Delivered(clientOf, s, e);
      RecordedStays(s.notifications, next.notifications);
    }
    if !Recorded(s.notifications, n.event, n.recipient) {
      assert next.notifications[|s.notifications|] == n;
    }
  }

  lemma {:induction false} RecordedStays(a: seq<Notification>, b: seq<Notification>)
    requires a <= b
    ensures forall e: nat, r: string :: Recorded(a, e, r) ==> Recorded(b, e, r)
  {
    forall e: nat, r: string | Recorded(a, e, r) ensures Recorded(b, e, r) {
      var i :| 0 <= i < |a| && a[i].event == e && a[i].recipient == r;
      assert b[i] == a[i];
    }
  }

  lemma {:induction false} ExtendsIsTransitive(a: System, b: System, c: System)
    requires SystemExtends(a, b) && SystemExtends(b, c)
    ensures SystemExtends(a, c)
  {
    forall id | id in a.rows ensures RowExtends(a.rows[id], c.rows[id]) {
      assert RowExtends(a.rows[id], b.rows[id]) && RowExtends(b.rows[id], c.rows[id]);
    }
  }

  /** The notification a valid event turns into. */
  function NotificationFor(clientOf: string -> string, id: nat, row: EventRow): Notification
    requires ValidEvent(row)
  {
    Notification(id, clientOf(row.request.value), row.request.value, row.kind.value)
  }

  lemma {:induction false} CompletionIsGood(clientOf: string -> string, s: System, id: nat, claim: nat)
    requires SystemOk(clientOf, s) && Claimed(s, id, claim) && ValidEvent(s.rows[id])
    requires Recorded(s.notifications, id, clientOf(s.rows[id].request.value))
    ensures var next := WithRow(s, id, CompleteRow(s.rows[id], s.rows[id].claims[claim].token));
            SystemOk(clientOf, next) && SystemExtends(s, next)
  {
    var row := s.rows[id];
    assert RowOk(row, s.now);
    hide SystemExtends, SystemOk, RowOk, RowExtends, Recorded;
    CompleteKeepsRow(row, s.now, claim);
    RowStep(clientOf, s, id, CompleteRow(row, row.claims[claim].token));
  }

  lemma {:induction false} MaterializeIsGood(clientOf: string -> string, s: System, id: nat, claim: nat)
    requires SystemOk(clientOf, s) && Claimed(s, id, claim) && ValidEvent(s.rows[id])
    ensures var next := Next(clientOf, s, Materialize(id, claim)); SystemOk(clientOf, next) && SystemExtends(s, next)
  {
    hide SystemExtends, SystemOk, Insert, Recorded, CompleteRow;
    var row := s.rows[id];
    var n := NotificationFor(clientOf, id, row);
    InsertKeeps(clientOf, s, n);
    var noted := s.(notifications := Insert(s.notifications, n));
    CompletionIsGood(clientOf, noted, id, claim);
    ExtendsIsTransitive(s, noted, WithRow(noted, id, CompleteRow(row, row.claims[claim].token)));
  }

  lemma {:induction false} CompleteKeepsRow(row: EventRow, now: int, claim: nat)
    requires RowOk(row, now) && claim < |row.claims|
    ensures RowOk(CompleteRow(row, row.claims[claim].token), now)
            && RowExtends(row, CompleteRow(row, row.claims[claim].token))
    ensures RowOk(FailRow(row, row.claims[claim].token), now) && RowExtends(row, FailRow(row, row.claims[claim].token))
  {
  }

  lemma {:induction false} StepIsGood(clientOf: string -> string, s: System, step: Step)
    requires SystemOk(clientOf, s)
    ensures var next := Next(clientOf, s, step); SystemOk(clientOf, next) && SystemExtends(s, next)
  {
    hide RowOk, ClaimRow, RetryRow, FailRow, CompleteRow, Eligible;
    var next := Next(clientOf, s, step);
    if next == s { return; }
    match step
    case Tick(now) => TickIsGood(clientOf, s, now);
    case Create(id, kind, version, request) => CreateIsGood(clientOf, s, id, kind, version, request);
    case ClaimEvent(worker, id) =>
      ClaimKeepsRow(s.rows[id], s.now, worker);
      ClaimExtends(s.rows[id], s.now, worker);
      RowStep(clientOf, s, id, ClaimRow(s.rows[id], s.now, worker));
    case Materialize(id, claim) => MaterializeIsGood(clientOf, s, id, claim);
    case FailClaim(id, claim, _) =>
      CompleteKeepsRow(s.rows[id], s.now, claim);
      FailNeverProcesses(s.rows[id], s.rows[id].claims[claim].token, claim + 1, s.now);
      RowStep(clientOf, s, id, FailRow(s.rows[id], s.rows[id].claims[claim].token));
    case RetryClaim(id, claim) =>
      RetryKeepsRow(s.rows[id], s.now, claim);
      FailNeverProcesses(s.rows[id], s.rows[id].claims[claim].token, claim + 1, s.now);
      RowStep(clientOf, s, id, RetryRow(s.rows[id], s.rows[id].claims[claim].token, claim + 1, s.now));
  }

  lemma {:induction false} ClaimExtends(row: EventRow, now: int, worker: string)
    requires Eligible(row, now)
    ensures RowExtends(row, ClaimRow(row, now, worker)) && ClaimRow(row, now, worker).state == Processing
  {
  }

  lemma {:induction false} FailNeverProcesses(row: EventRow, token: int, attempts: nat, now: int)
    ensures FailRow(row, token) == row || FailRow(row, token).state == Failed
    ensures var next := RetryRow(row, token, attempts, now);
            RowExtends(row, next) && (next == row || next.state == Waiting || next.state == Failed)
  {
  }

  lemma {:induction false} TickIsGood(clientOf: string -> string, s: System, now: int)
    requires SystemOk(clientOf, s) && s.now <= now
    ensures SystemOk(clientOf, s.(now := now)) && SystemExtends(s, s.(now := now))
  {
    hide RowOk;
    var next := s.(now := now);
    forall id | id in next.rows ensures RowOk(next.rows[id], now) && Delivered(clientOf, next, id) {
      ClockKeepsRow(s.rows[id], s.now, now);
      assert Delivered(clientOf, s, id);
    }
    forall i | 0 <= i < |next.notifications| ensures NotificationOk(clientOf, next, i) {
      assert NotificationOk(clientOf, s, i);
    }
  }

  lemma {:induction false} CreateIsGood(clientOf: string -> string, s: System, id: nat, kind: Option<EventType>,
                                        version: int, request: Option<string>)
    requires SystemOk(clientOf, s) && id !in s.rows
    ensures var next := Next(clientOf, s, Create(id, kind, version, request));
            SystemOk(clientOf, next) && SystemExtends(s, next)
  {
    hide RowOk;
    var row := EventRow(kind, version, request, Waiting, 0, s.now, None, [], []);
    NewRowOk(row, s.now);
    var next := WithRow(s, id, row);
    forall e | e in next.rows ensures RowOk(next.rows[e], next.now) && Delivered(clientOf, next, e) {
      if e != id { assert Delivered(clientOf, s, e); }
    }
    forall i | 0 <= i < |next.notifications| ensures NotificationOk(clientOf, next, i) {
      assert NotificationOk(clientOf, s, i);
    }
  }

  lemma {:induction false} NewRowOk(row: EventRow, now: int)
    requires row.state == Waiting && row.attempts == 0 && row.lease.None? && row.claims == [] && row.retried == []
    ensures RowOk(row, now)
  {
  }

  // ---------------------------------------------------------------- all runs

  function Play(clientOf: string -> string, start: int, steps: seq<Step>): System {
    if steps == [] then System(start, map[], [])
    else Next(clientOf, Play(clientOf, start, steps[..|steps| - 1]), steps[|steps| - 1])
  }

  lemma {:induction false} PlayIsGood(clientOf: string -> string, start: int, steps: seq<Step>)
    ensures SystemOk(clientOf, Play(clientOf, start, steps))
    decreases |steps|
  {
    hide SystemOk, Next;
    if steps == [] {
      StartIsGood(clientOf, start);
    } else {
      PlayIsGood(clientOf, start, steps[..|steps| - 1]);
      StepIsGood(clientOf, Play(clientOf, start, steps[..|steps| - 1]), steps[|steps| - 1]);
    }
  }

  lemma {:induction false} StartIsGood(clientOf: string -> string, start: int)
    ensures SystemOk(clientOf, System(start, map[], []))
  {
  }

  /** Everything recorded stays recorded: a later state extends an earlier one. */
  lemma {:induction false} PlayExtends(clientOf: string -> string, start: int, steps: seq<Step>, i: nat)
    requires i <= |steps|
    ensures SystemExtends(Play(clientOf, start, steps[..i]), Play(clientOf, start, steps))
    decreases |steps|
  {
    hide SystemExtends, SystemOk, Next;
    var n := |steps|;
    if i == n {
      assert steps[..i] == steps;
      ExtendsItself(Play(clientOf, start, steps));
    } else {
      var front := steps[..n - 1];
      assert front[..i] == steps[..i];
      PlayExtends(clientOf, start, front, i);
      PlayIsGood(clientOf, start, front);
      StepIsGood(clientOf, Play(clientOf, start, front), steps[n - 1]);
      ExtendsIsTransitive(Play(clientOf, start, steps[..i]), Play(clientOf, start, front),
                          Play(clientOf, start, steps));
    }
  }

  lemma {:induction false} ExtendsItself(s: System)
    ensures SystemExtends(s, s)
  {
  }
}
