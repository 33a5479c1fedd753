/** Two promises the worker does not keep: its claims are not bounded, and an event can have its notification without
    being processed. Runs that show it, and exactly when each happens. */
module OutboxLimits {
  import opened Wrappers
  import opened WorkOrder
  import opened OutboxWorker
  import opened OutboxTheorems
  import opened OutboxSteps

  /** Just after the n-th lease has expired. */
  function Expiry(start: int, n: nat): int { if n == 0 then start else Expiry(start, n - 1) + LEASE + 1 }

  /** Steps in which workers claim an event `n` times more, each after the last lease expired, and never settle it. */
  function Abandoned(start: int, id: nat, create: Step, n: nat): seq<Step> {
    if n == 0 then [create] + [ClaimEvent("worker", id)]
    else Abandoned(start, id, create, n - 1) + [Tick(Expiry(start, n))] + [ClaimEvent("worker", id)]
  }

  /** An event under its latest claim, after `n` expired leases. */
  predicate Held(s: System, id: nat, n: nat) {
    id in s.rows
    && var row := s.rows[id];
       row.kind.Some? && row.availableAt <= s.now && row.state == Processing && row.lease == Some(s.now + LEASE)
       && row.attempts == |row.claims| == n + 1 && Reclaims(row.claims) == n
  }

  /** A claim of an eligible event. */
  lemma {:induction false} Reclaimed(clientOf: string -> string, s: System, id: nat, n: nat)
    requires Held(s, id, n)
    ensures var later := s.now + LEASE + 1;
            var next := Next(clientOf, s.(now := later), ClaimEvent("worker", id));
            next.now == later && Held(next, id, n + 1)
  {
    hide Fresh;
    AppendedClaim(s.rows[id].claims, Claim("worker", s.now + LEASE + 1 + LEASE, true));
  }

  lemma {:induction false} FirstClaimed(clientOf: string -> string, s: System, id: nat)
    requires id in s.rows && s.rows[id].kind.Some?
    requires var row := s.rows[id];
             row == EventRow(row.kind, row.version, row.request, Waiting, 0, s.now, None, [], [])
    ensures var next := Next(clientOf, s, ClaimEvent("worker", id)); next.now == s.now && Held(next, id, 0)
  {
    AppendedClaim([], Claim("worker", s.now + LEASE, false));
  }

  /** Claims are not bounded: for every n some run claims an event n + 1 times, n of them over expired leases. */
  lemma {:induction false} ClaimsAreUnbounded(clientOf: string -> string, start: int, id: nat, create: Step, n: nat)
    requires create.Create? && create.id == id && create.kind.Some?
    ensures var s := Play(clientOf, start, Abandoned(start, id, create, n)); s.now == Expiry(start, n) && Held(s, id, n)
  {
    hide Next, Play, Held, Reclaims;
    var claim := ClaimEvent("worker", id);
    if n == 0 {
      PlaySnoc(clientOf, start, [], create);
      PlaySnoc(clientOf, start, [create], claim);
      assert [] + [create] == [create];
      CreatedRow(clientOf, start, id, create);
      FirstClaimed(clientOf, Play(clientOf, start, [create]), id);
    } else {
      var before, tick := Abandoned(start, id, create, n - 1), Tick(Expiry(start, n));
      ClaimsAreUnbounded(clientOf, start, id, create, n - 1);
      PlaySnoc(clientOf, start, before, tick);
      PlaySnoc(clientOf, start, before + [tick], claim);
      TickMoves(clientOf, Play(clientOf, start, before), Expiry(start, n));
      Reclaimed(clientOf, Play(clientOf, start, before), id, n - 1);
    }
  }

  // ---------------------------------------------------------------- when an event is claimed a sixth time

  /** The step claims an event that was claimed five times and lost the lease of its last claim. */
  predicate TakesOverLate(s: System, step: Step, id: nat) {
    step.ClaimEvent? && step.id == id && id in s.rows
    && s.rows[id].state == Processing && s.rows[id].attempts >= 5
    && s.rows[id].claims != [] && Last(s.rows[id]).token < s.now
  }

  function Attempts(s: System, id: nat): nat { if id in s.rows then s.rows[id].attempts else 0 }

  lemma {:induction false} OnlyClaimsCount(clientOf: string -> string, s: System, step: Step, id: nat)
    ensures var next := Next(clientOf, s, step);
            Attempts(next, id) == Attempts(s, id)
              + if step.ClaimEvent? && step.id == id && id in s.rows && Eligible(s.rows[id], s.now) then 1 else 0
  {
    hide Eligible, FailRow, RetryRow, CompleteRow, Insert;
  }

  /** One claim, before it is made: it goes beyond five if and only if the event is being processed, its lease has
      expired, and it was claimed at least five times. */
  lemma {:induction false} ClaimPastLimit(clientOf: string -> string, start: int, steps: seq<Step>, step: Step, id: nat)
    ensures var s := Play(clientOf, start, steps);
            var next := Next(clientOf, s, step);
            Attempts(next, id) > Attempts(s, id) && Attempts(next, id) > 5 <==> TakesOverLate(s, step, id)
  {
    hide Play, Next, Reclaims, Eligible;
    var s := Play(clientOf, start, steps);
    OnlyClaimsCount(clientOf, s, step, id);
    if id in s.rows {
      ClaimsAreCounted(clientOf, start, steps, id);
      FreeIsEligible(clientOf, start, steps, id);
    }
  }

  lemma {:induction false} FreeIsEligible(clientOf: string -> string, start: int, steps: seq<Step>, id: nat)
    requires id in Play(clientOf, start, steps).rows
    ensures var s := Play(clientOf, start, steps); Eligible(s.rows[id], s.now) <==> Free(s.rows[id], s.now)
  {
    hide Play;
    ReachedRow(clientOf, start, steps, id);
  }

  /** In every run, exactly: an event has been claimed more than five times if and only if some worker took it over
      after its fifth claim, or a later one, had lost its lease. */
  lemma {:induction false} ClaimedTooOften(clientOf: string -> string, start: int, steps: seq<Step>, n: nat, id: nat)
    requires n <= |steps|
    ensures Attempts(Play(clientOf, start, steps[..n]), id) > 5
       <==> exists i :: 0 <= i < n && TakesOverLate(Play(clientOf, start, steps[..i]), steps[i], id)
  {
    hide Next, Play, TakesOverLate, Attempts;
    if n > 0 {
      ClaimedTooOften(clientOf, start, steps, n - 1, id);
      var before, step := steps[..n - 1], steps[n - 1];
      assert steps[..n] == before + [step];
      PlaySnoc(clientOf, start, before, step);
      OnlyClaimsCount(clientOf, Play(clientOf, start, before), step, id);
      ClaimPastLimit(clientOf, start, before, step, id);
    } else {
      NothingClaimed(clientOf, start, steps, id);
    }
  }

  lemma {:induction false} NothingClaimed(clientOf: string -> string, start: int, steps: seq<Step>, id: nat)
    ensures Attempts(Play(clientOf, start, steps[..0]), id) == 0
  {
    assert steps[..0] == [];
  }

  // ---------------------------------------------------------------- a notification without processing

  /** A failed event can have its notification: a worker that lost its lease writes it after another has given the
      event up. */
  lemma {:induction false} FailedWithNotification(clientOf: string -> string, start: int, kind: EventType,
                                                  request: string)
    ensures var steps := [Create(0, Some(kind), 1, Some(request)), ClaimEvent("A", 0),
                          Tick(start + LEASE + 1), ClaimEvent("B", 0),
                          FailClaim(0, 1, false), Materialize(0, 0)];
            var s := Play(clientOf, start, steps);
            0 in s.rows && s.rows[0].state == Failed && NotificationsOf(s.notifications, 0) == 1
  {
    hide Next, Play, ClaimRow, Insert, Eligible;
    var row := EventRow(Some(kind), 1, Some(request), Waiting, 0, start, None, [], []);
    var late := start + LEASE + 1;
    var once := ClaimRow(row, start, "A");
    var twice := ClaimRow(once, late, "B");
    var failed := FailRow(twice, late + LEASE);
    TwoClaims(row, start, late);
    Claiming(clientOf, start, row, "A");
    Claiming(clientOf, late, once, "B");
    Giving(clientOf, late, twice);
    LateNote(clientOf, late, failed);
    Creating(clientOf, start, row);
    TickMoves(clientOf, System(start, map[0 := once], []), late);
    Six(clientOf, start, [Create(0, Some(kind), 1, Some(request)), ClaimEvent("A", 0), Tick(late), ClaimEvent("B", 0),
                          FailClaim(0, 1, false), Materialize(0, 0)]);
  }

  /** The row of an event that two workers have claimed in turn. */
  lemma {:induction false} TwoClaims(row: EventRow, start: int, late: int)
    requires row.state == Waiting && row.kind.Some? && row.availableAt == start && row.claims == [] && row.attempts == 0
    requires late == start + LEASE + 1 && ValidEvent(row)
    ensures var once := ClaimRow(row, start, "A");
            var twice := ClaimRow(once, late, "B");
            Eligible(row, start) && Eligible(once, late) && |twice.claims| == 2 && twice.claims[1].token == late + LEASE
            && ValidEvent(twice) && Holds(twice, late + LEASE) && twice.request == row.request && twice.kind == row.kind
  {
  }

  lemma {:induction false} Creating(clientOf: string -> string, start: int, row: EventRow)
    requires row == EventRow(row.kind, 1, row.request, Waiting, 0, start, None, [], [])
    ensures Next(clientOf, System(start, map[], []), Create(0, row.kind, 1, row.request))
         == System(start, map[0 := row], [])
  {
  }

  lemma {:induction false} Claiming(clientOf: string -> string, now: int, row: EventRow, worker: string)
    requires Eligible(row, now)
    ensures Next(clientOf, System(now, map[0 := row], []), ClaimEvent(worker, 0))
         == System(now, map[0 := ClaimRow(row, now, worker)], [])
  {
    hide ClaimRow;
    assert map[0 := row][0 := ClaimRow(row, now, worker)] == map[0 := ClaimRow(row, now, worker)];
  }

  lemma {:induction false} Giving(clientOf: string -> string, now: int, row: EventRow)
    requires |row.claims| == 2 && row.claims[1].token == now + LEASE
    ensures Next(clientOf, System(now, map[0 := row], []), FailClaim(0, 1, false))
         == System(now, map[0 := FailRow(row, now + LEASE)], [])
  {
    assert map[0 := row][0 := FailRow(row, now + LEASE)] == map[0 := FailRow(row, now + LEASE)];
  }

  lemma {:induction false} LateNote(clientOf: string -> string, now: int, row: EventRow)
    requires row.state == Failed && |row.claims| == 2 && ValidEvent(row)
    ensures var s := Next(clientOf, System(now, map[0 := row], []), Materialize(0, 0));
            0 in s.rows && s.rows[0] == row && NotificationsOf(s.notifications, 0) == 1
  {
    var note := NotificationFor(clientOf, 0, row);
    assert ([] + [note])[..0] == [];
  }

  lemma {:induction false} Six(clientOf: string -> string, start: int, steps: seq<Step>)
    requires |steps| == 6
    ensures Play(clientOf, start, steps)
         == Next(clientOf, Next(clientOf, Next(clientOf, Next(clientOf, Next(clientOf, Next(clientOf,
              System(start, map[], []), steps[0]), steps[1]), steps[2]), steps[3]), steps[4]), steps[5])
  {
    hide Next;
    assert steps == [] + [steps[0]] + [steps[1]] + [steps[2]] + [steps[3]] + [steps[4]] + [steps[5]];
    PlaySnoc(clientOf, start, [], steps[0]);
    PlaySnoc(clientOf, start, [] + [steps[0]], steps[1]);
    PlaySnoc(clientOf, start, [] + [steps[0]] + [steps[1]], steps[2]);
    PlaySnoc(clientOf, start, [] + [steps[0]] + [steps[1]] + [steps[2]], steps[3]);
    PlaySnoc(clientOf, start, [] + [steps[0]] + [steps[1]] + [steps[2]] + [steps[3]], steps[4]);
    PlaySnoc(clientOf, start, [] + [steps[0]] + [steps[1]] + [steps[2]] + [steps[3]] + [steps[4]], steps[5]);
  }

  /** The step writes the notification of an event, unless it is there. */
  predicate Writes(s: System, step: Step, id: nat) {
    step.Materialize? && step.id == id && Claimed(s, id, step.claim) && ValidEvent(s.rows[id])
  }

  /** It does so under a claim that does not hold the lease. */
  predicate WritesLate(s: System, step: Step, id: nat) {
    Writes(s, step, id) && !Holds(s.rows[id], s.rows[id].claims[step.claim].token)
  }

  predicate Noted(ns: seq<Notification>, id: nat) { exists i :: 0 <= i < |ns| && ns[i].event == id }

  lemma {:induction false} NoteStep(clientOf: string -> string, s: System, step: Step, id: nat)
    ensures Noted(Next(clientOf, s, step).notifications, id) <==> Noted(s.notifications, id) || Writes(s, step, id)
  {
    hide CompleteRow, ClaimRow, FailRow, RetryRow, Eligible;
    var ns, next := s.notifications, Next(clientOf, s, step).notifications;
    if next != ns {
      assert next[..|ns|] == ns && next[|ns|].event == step.id;
      if Noted(ns, id) {
        var i :| 0 <= i < |ns| && ns[i].event == id;
        assert next[i].event == id;
      }
    }
  }

  /** A notification of an event is there exactly if some step has written it. */
  lemma {:induction false} NotedExactly(clientOf: string -> string, start: int, steps: seq<Step>, n: nat, id: nat)
    requires n <= |steps|
    ensures Noted(Play(clientOf, start, steps[..n]).notifications, id)
       <==> exists i :: 0 <= i < n && Writes(Play(clientOf, start, steps[..i]), steps[i], id)
  {
    hide Next, Play, Writes, Noted;
    if n > 0 {
      NotedExactly(clientOf, start, steps, n - 1, id);
      assert steps[..n] == steps[..n - 1] + [steps[n - 1]];
      PlaySnoc(clientOf, start, steps[..n - 1], steps[n - 1]);
      NoteStep(clientOf, Play(clientOf, start, steps[..n - 1]), steps[n - 1], id);
    } else {
      NothingNoted(clientOf, start, steps, id);
    }
  }

  lemma {:induction false} NothingNoted(clientOf: string -> string, start: int, steps: seq<Step>, id: nat)
    ensures !Noted(Play(clientOf, start, steps[..0]).notifications, id)
  {
    assert steps[..0] == [];
  }

  /** Written under the lease, the notification ends the event as PROCESSED. */
  lemma {:induction false} WritingInTimeProcesses(clientOf: string -> string, start: int, steps: seq<Step>, i: nat,
                                                  id: nat)
    requires i < |steps|
    requires Writes(Play(clientOf, start, steps[..i]), steps[i], id)
             && !WritesLate(Play(clientOf, start, steps[..i]), steps[i], id)
    ensures var s := Play(clientOf, start, steps); id in s.rows && s.rows[id].state == Processed
  {
    hide Play, Insert;
    assert steps[..i + 1] == steps[..i] + [steps[i]];
    PlaySnoc(clientOf, start, steps[..i], steps[i]);
    EndedForGood(clientOf, start, steps, i + 1, id);
  }

  /** In every run, exactly: an event that is not PROCESSED, failed or not, has its notification if and only if some
      worker wrote it under a claim that did not hold the lease. */
  lemma {:induction false} NotifiedUnprocessed(clientOf: string -> string, start: int, steps: seq<Step>, id: nat)
    requires var s := Play(clientOf, start, steps); id in s.rows && s.rows[id].state != Processed
    ensures NotificationsOf(Play(clientOf, start, steps).notifications, id) == 1
       <==> exists i :: 0 <= i < |steps| && WritesLate(Play(clientOf, start, steps[..i]), steps[i], id)
  {
    hide Play, Writes, WritesLate, NotificationsOf;
    var s := Play(clientOf, start, steps);
    assert steps[..|steps|] == steps;
    NotedExactly(clientOf, start, steps, |steps|, id);
    OneNotificationPerEvent(clientOf, start, steps, id);
    NotedCounts(s.notifications, id);
    forall i | 0 <= i < |steps| && Writes(Play(clientOf, start, steps[..i]), steps[i], id)
      ensures WritesLate(Play(clientOf, start, steps[..i]), steps[i], id)
    {
      if !WritesLate(Play(clientOf, start, steps[..i]), steps[i], id) {
        WritingInTimeProcesses(clientOf, start, steps, i, id);
      }
    }
    forall i | 0 <= i < |steps| && WritesLate(Play(clientOf, start, steps[..i]), steps[i], id)
      ensures Writes(Play(clientOf, start, steps[..i]), steps[i], id)
    {
      LateIsWriting(Play(clientOf, start, steps[..i]), steps[i], id);
    }
  }

  lemma {:induction false} LateIsWriting(s: System, step: Step, id: nat)
    requires WritesLate(s, step, id)
    ensures Writes(s, step, id)
  {
  }

  lemma {:induction false} NotedCounts(ns: seq<Notification>, id: nat)
    ensures Noted(ns, id) <==> NotificationsOf(ns, id) >= 1
  {
    if Noted(ns, id) {
      var i :| 0 <= i < |ns| && ns[i].event == id;
      AtLeastOneOf(ns, id, i);
    } else {
      NoneOf(ns, id);
    }
  }
}
