/** Crash-free polling of one event, and that it is what runs of the system do. */
module OutboxPolls {
  import opened Wrappers
  import opened WorkOrder
  import opened OutboxWorker
  import opened OutboxTheorems

  /** How a crash-free poll ends: the notification is written, the event is refused, or the poll fails and retries. */
  datatype Ending = Completes | Refuses | Errs

  function PollRow(row: EventRow, now: int, worker: string, ending: Ending): EventRow {
    var claimed := ClaimRow(row, now, worker);
    var token := now + LEASE;
    match ending
    case Completes => CompleteRow(claimed, token)
    case Refuses => FailRow(claimed, token)
    case Errs => RetryRow(claimed, token, claimed.attempts, now)
  }

  /** A crash-free poll ends the event or leaves it waiting with one try fewer to go. */
  lemma {:induction false} PollsMakeProgress(row: EventRow, now: int, worker: string, ending: Ending)
    requires Eligible(row, now)
    ensures var next := PollRow(row, now, worker, ending);
            if Ended(next.state) then true
            else next.state == Waiting && next.attempts == row.attempts + 1 && next.attempts < MAX_ATTEMPTS
                 && MAX_ATTEMPTS - next.attempts < MAX_ATTEMPTS - row.attempts
  {
  }

  datatype Poll = Poll(now: int, worker: string, ending: Ending)

  /** The event after crash-free polls; polls that find it not eligible pass it by. */
  function AfterPolls(row: EventRow, polls: seq<Poll>): EventRow {
    if polls == [] then row
    else
      var before := AfterPolls(row, polls[..|polls| - 1]);
      var p := polls[|polls| - 1];
      if Eligible(before, p.now) then PollRow(before, p.now, p.worker, p.ending) else before
  }

  /** The settling step of a poll that claimed as the event's `claim`-th. */
  function Settle(id: nat, claim: nat, ending: Ending): Step {
    match ending
    case Completes => Materialize(id, claim)
    case Refuses => FailClaim(id, claim, false)
    case Errs => RetryClaim(id, claim)
  }

  /** A crash-free poll is its claim followed by its settling step. */
  lemma {:induction false} PollIsTwoSteps(clientOf: string -> string, s: System, id: nat, worker: string,
                                          ending: Ending)
    requires id in s.rows && Eligible(s.rows[id], s.now) && s.rows[id].attempts == |s.rows[id].claims|
    requires ending == Completes ==> ValidEvent(s.rows[id])
    ensures var row := s.rows[id];
            var claimed := Next(clientOf, s, ClaimEvent(worker, id));
            var settled := Next(clientOf, claimed, Settle(id, |row.claims|, ending));
            settled.now == s.now && id in settled.rows && settled.rows[id] == PollRow(row, s.now, worker, ending)
  {
    hide Eligible, DelaySeconds, Insert, Recorded;
    var row := s.rows[id];
    var claimed := ClaimRow(row, s.now, worker);
    assert claimed.claims[|row.claims|].token == s.now + LEASE;
  }

  /** The steps of a poll of one event: the clock moves on, and if the event is eligible it is claimed and settled. */
  function PollSteps(s: System, id: nat, p: Poll): seq<Step> {
    [Tick(p.now)]
    + if id in s.rows && Eligible(s.rows[id], p.now) then
        [ClaimEvent(p.worker, id), Settle(id, |s.rows[id].claims|, p.ending)]
      else []
  }

  /** A run of the whole system in which one event is created and polled without crashes. */
  function PollRun(clientOf: string -> string, start: int, id: nat, create: Step, polls: seq<Poll>): seq<Step> {
    if polls == [] then [create]
    else
      var before := PollRun(clientOf, start, id, create, polls[..|polls| - 1]);
      before + PollSteps(Play(clientOf, start, before), id, polls[|polls| - 1])
  }

  predicate Later(start: int, polls: seq<Poll>) {
    (forall i :: 0 <= i < |polls| ==> start <= polls[i].now)
    && forall i, j :: 0 <= i <= j < |polls| ==> polls[i].now <= polls[j].now
  }

  /** One more poll of a run. */
  lemma {:induction false} OnePoll(clientOf: string -> string, start: int, before: seq<Step>, id: nat, p: Poll)
    requires var s := Play(clientOf, start, before);
             s.now <= p.now && id in s.rows && s.rows[id].attempts == |s.rows[id].claims|
             && (p.ending == Completes ==> ValidEvent(s.rows[id]))
    ensures var row := Play(clientOf, start, before).rows[id];
            var after := Play(clientOf, start, before + PollSteps(Play(clientOf, start, before), id, p));
            after.now == p.now && id in after.rows
            && after.rows[id] == if Eligible(row, p.now) then PollRow(row, p.now, p.worker, p.ending) else row
  {
    hide Play, Next, PollRow, Eligible, ValidEvent, Settle;
    var s := Play(clientOf, start, before);
    var row, tick := s.rows[id], Tick(p.now);
    PlaySnoc(clientOf, start, before, tick);
    TickMoves(clientOf, s, p.now);
    if Eligible(row, p.now) {
      var claim, settle := ClaimEvent(p.worker, id), Settle(id, |row.claims|, p.ending);
      PlaySnoc(clientOf, start, before + [tick], claim);
      PlaySnoc(clientOf, start, before + [tick] + [claim], settle);
      assert before + ([tick] + [claim, settle]) == before + [tick] + [claim] + [settle];
      PollIsTwoSteps(clientOf, s.(now := p.now), id, p.worker, p.ending);
    } else {
      assert before + ([tick] + []) == before + [tick];
    }
  }

  /** The row of such a run is the row after its polls. */
  lemma {:induction false} PollsAreRuns(clientOf: string -> string, start: int, id: nat, create: Step, polls: seq<Poll>)
    requires create.Create? && create.id == id && Later(start, polls)
    requires create.version != 1 || create.kind.None? || create.request.None?
             ==> forall i :: 0 <= i < |polls| ==> polls[i].ending != Completes
    ensures var s := Play(clientOf, start, PollRun(clientOf, start, id, create, polls));
            id in s.rows && s.rows[id] == AfterPolls(FirstRow(create, start), polls)
            && s.now == if polls == [] then start else polls[|polls| - 1].now
    decreases |polls|
  {
    hide Play, Next, PollRow, Eligible, PollSteps;
    if polls == [] {
      PlaySnoc(clientOf, start, [], create);
      assert [] + [create] == [create];
      CreatedRow(clientOf, start, id, create);
    } else {
      var n := |polls| - 1;
      PollsAreRuns(clientOf, start, id, create, polls[..n]);
      var before := PollRun(clientOf, start, id, create, polls[..n]);
      PlayIsGood(clientOf, start, before);
      AttemptsAreClaims(clientOf, Play(clientOf, start, before), id);
      RowsKeepIdentity(FirstRow(create, start), polls[..n]);
      OnePoll(clientOf, start, before, id, polls[n]);
    }
  }

  function FirstRow(create: Step, start: int): EventRow
    requires create.Create?
  {
    EventRow(create.kind, create.version, create.request, Waiting, 0, start, None, [], [])
  }

  lemma {:induction false} AttemptsAreClaims(clientOf: string -> string, s: System, id: nat)
    requires SystemOk(clientOf, s) && id in s.rows
    ensures s.rows[id].attempts == |s.rows[id].claims|
  {
    assert RowOk(s.rows[id], s.now);
  }

  lemma {:induction false} RowsKeepIdentity(row: EventRow, polls: seq<Poll>)
    ensures var r := AfterPolls(row, polls); r.kind == row.kind && r.version == row.version && r.request == row.request
  {
    hide Eligible, DelaySeconds;
    if polls != [] { RowsKeepIdentity(row, polls[..|polls| - 1]); }
  }

  /** In a crash-free run an event is claimed at most five times, and once claimed five times it has ended. */
  lemma {:induction false} FivePollsEndIt(kind: Option<EventType>, version: int, request: Option<string>, at: int,
                                          polls: seq<Poll>)
    ensures var row := AfterPolls(EventRow(kind, version, request, Waiting, 0, at, None, [], []), polls);
            row.attempts <= MAX_ATTEMPTS && (Ended(row.state) || (row.state == Waiting && row.attempts < MAX_ATTEMPTS))
    decreases |polls|
  {
    hide PollRow, Eligible;
    var first := EventRow(kind, version, request, Waiting, 0, at, None, [], []);
    if polls != [] {
      var front, p := polls[..|polls| - 1], polls[|polls| - 1];
      FivePollsEndIt(kind, version, request, at, front);
      var before := AfterPolls(first, front);
      if Eligible(before, p.now) {
        EndedIsNotEligible(before, p.now);
        PollsMakeProgress(before, p.now, p.worker, p.ending);
        PollCounts(before, p.now, p.worker, p.ending);
      }
    }
  }

  lemma {:induction false} EndedIsNotEligible(row: EventRow, now: int)
    requires Eligible(row, now)
    ensures !Ended(row.state)
  {
  }

  lemma {:induction false} PollCounts(row: EventRow, now: int, worker: string, ending: Ending)
    ensures PollRow(row, now, worker, ending).attempts == row.attempts + 1
  {
  }
}
