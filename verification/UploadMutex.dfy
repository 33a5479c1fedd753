/** The chain of promises that lets one upload at a time work on a request, and what it protects. */
module UploadMutex {
  import opened Wrappers

  datatype Kind = Image | Video

  const MAX_IMAGES := 5
  const MAX_VIDEOS := 1

  /** An upload waits for its predecessor's queue promise, receives its bytes, looks at the stored media, stores its
      own, and ends. It may end at any point by an error. */
  datatype Phase = Waiting | Running | Looked(kind: Kind, seen: seq<Kind>) | Stored | Done

  /** `behind` is the upload whose queue promise was in the map on arrival. */
  datatype Upload = Upload(request: string, behind: Option<nat>, phase: Phase)

  /** `locks` maps a request to the upload whose queue promise it holds. */
  datatype State = State(uploads: seq<Upload>, locks: map<string, nat>, media: map<string, seq<Kind>>,
                         ready: set<string>)

  const START := State([], map[], map[], {})

  datatype Step = Arrive(request: string) | Resume(u: nat) | Look(u: nat, kind: Kind) | Store(u: nat) | Leave(u: nat)

  function MediaOf(s: State, request: string): seq<Kind> {
    if request in s.media then s.media[request] else []
  }

  function Count(media: seq<Kind>, kind: Kind): nat {
    if media == [] then 0 else Count(media[..|media| - 1], kind) + if media[|media| - 1] == kind then 1 else 0
  }

  predicate WithinLimit(kind: Kind, existing: seq<Kind>) {
    match kind
    case Image => Count(existing, Image) < MAX_IMAGES
    case Video => Video !in existing
  }

  /** The queue promise of `u` is resolved: its predecessor's queue is, and `u` has released. */
  predicate Settled(uploads: seq<Upload>, u: nat)
    requires u < |uploads|
  {
    uploads[u].phase.Done?
    && match uploads[u].behind
       case None => true
       case Some(p) => p < u && Settled(uploads, p)
  }

  predicate Active(p: Phase) { !p.Waiting? && !p.Done? }

  predicate CanResume(s: State, u: nat) {
    u < |s.uploads| && s.uploads[u].phase.Waiting?
    && match s.uploads[u].behind
       case None => true
       case Some(p) => p < |s.uploads| && Settled(s.uploads, p)
  }

  function Enter(s: State, u: nat, phase: Phase): State
    requires u < |s.uploads|
  {
    s.(uploads := s.uploads[u := s.uploads[u].(phase := phase)])
  }

  /** A step that is not possible changes nothing. */
  function Next(s: State, step: Step): State {
    match step
    case Arrive(r) =>
      s.(uploads := s.uploads + [Upload(r, if r in s.locks then Some(s.locks[r]) else None, Waiting)],
         locks := s.locks[r := |s.uploads|])
    case Resume(u) => if CanResume(s, u) then Enter(s, u, Running) else s
    case Look(u, kind) =>
      if u < |s.uploads| && s.uploads[u].phase.Running? then
        Enter(s, u, Looked(kind, MediaOf(s, s.uploads[u].request)))
      else s
    case Store(u) =>
      if u < |s.uploads| && s.uploads[u].phase.Looked?
         && WithinLimit(s.uploads[u].phase.kind, s.uploads[u].phase.seen) then
        var r, kind := s.uploads[u].request, s.uploads[u].phase.kind;
        Enter(s, u, Stored).(media := s.media[r := MediaOf(s, r) + [kind]], ready := s.ready + {r})
      else s
    case Leave(u) =>
      if u < |s.uploads| && Active(s.uploads[u].phase) then
        var r := s.uploads[u].request;
        Enter(s, u, Done).(locks := if r in s.locks && s.locks[r] == u then s.locks - {r} else s.locks)
      else s
  }

  /** Any interleaving of the uploads is a sequence of steps. */
  function After(s: State, steps: seq<Step>): State {
    if steps == [] then s else Next(After(s, steps[..|steps| - 1]), steps[|steps| - 1])
  }

  function Run(steps: seq<Step>): State { After(START, steps) }

  // ---------------------------------------------------------------- invariant

  /** Nobody starts before all earlier uploads of the same request have ended. */
  predicate Ordered(uploads: seq<Upload>) {
    forall u, v :: 0 <= u < v < |uploads| && uploads[u].request == uploads[v].request && !uploads[v].phase.Waiting? ==>
      uploads[u].phase.Done?
  }

  /** An upload is behind the latest earlier one of its request, or all those have ended. */
  predicate Linked(uploads: seq<Upload>) {
    forall v :: 0 <= v < |uploads| ==>
      match uploads[v].behind
      case None => forall u :: 0 <= u < v && uploads[u].request == uploads[v].request ==> uploads[u].phase.Done?
      case Some(p) => p < v && uploads[p].request == uploads[v].request
                      && forall u :: p < u < v ==> uploads[u].request != uploads[v].request
  }

  /** The map holds the last upload of every request that has one under way, and nothing else. */
  predicate Tails(s: State) {
    (forall r :: r in s.locks ==>
      s.locks[r] < |s.uploads| && s.uploads[s.locks[r]].request == r && !s.uploads[s.locks[r]].phase.Done?
      && forall v :: s.locks[r] < v < |s.uploads| ==> s.uploads[v].request != r)
    && forall u :: 0 <= u < |s.uploads| && !s.uploads[u].phase.Done? ==> s.uploads[u].request in s.locks
  }

  /** What an upload saw before storing is still all there is. */
  predicate Current(s: State) {
    forall u :: 0 <= u < |s.uploads| && s.uploads[u].phase.Looked? ==>
      s.uploads[u].phase.seen == MediaOf(s, s.uploads[u].request)
  }

  predicate Limited(s: State) {
    (forall r :: r in s.media ==>
      Count(s.media[r], Image) <= MAX_IMAGES && Count(s.media[r], Video) <= MAX_VIDEOS && s.media[r] != [])
    && s.ready == s.media.Keys
  }

  predicate Inv(s: State) { Ordered(s.uploads) && Linked(s.uploads) && Tails(s) && Current(s) && Limited(s) }

  /** A queue promise is resolved exactly when its upload and all earlier ones of the request have ended. */
  lemma {:induction false} SettledExactly(uploads: seq<Upload>, u: nat)
    requires Linked(uploads) && u < |uploads|
    ensures Settled(uploads, u)
       <==> forall v :: 0 <= v <= u && uploads[v].request == uploads[u].request ==> uploads[v].phase.Done?
  {
    if uploads[u].behind.Some? {
      var p := uploads[u].behind.value;
      SettledExactly(uploads, p);
      assert forall v :: 0 <= v <= u && uploads[v].request == uploads[u].request ==> v <= p || v == u;
    }
  }

  /** A waiting upload can resume exactly when all earlier uploads of its request have ended. */
  lemma {:induction false} ResumesExactly(s: State, u: nat)
    requires Linked(s.uploads) && u < |s.uploads| && s.uploads[u].phase.Waiting?
    ensures CanResume(s, u) <==>
            forall v :: 0 <= v < u && s.uploads[v].request == s.uploads[u].request ==> s.uploads[v].phase.Done?
  {
    hide Settled;
    var me := s.uploads[u];
    if me.behind.Some? {
      var p := me.behind.value;
      SettledExactly(s.uploads, p);
      assert forall v :: 0 <= v < u && s.uploads[v].request == me.request ==> v <= p;
    }
  }

  lemma {:induction false} ArriveKeepsOrder(s: State, r: string)
    requires Ordered(s.uploads) && Linked(s.uploads) && Tails(s)
    ensures Ordered(Next(s, Arrive(r)).uploads) && Linked(Next(s, Arrive(r)).uploads)
  {
    var next := Next(s, Arrive(r)).uploads;
    var n := |s.uploads|;
    if r in s.locks { assert forall u :: s.locks[r] < u < n ==> s.uploads[u].request != r; }
    assert Ordered(next) by {
      hide Linked;
      assert forall u :: 0 <= u < n ==> next[u] == s.uploads[u];
    }
    assert Linked(next) by {
      hide Ordered;
      assert forall u :: 0 <= u < n ==> next[u] == s.uploads[u];
    }
  }

  lemma {:induction false} ArriveKeepsTails(s: State, r: string)
    requires Tails(s)
    ensures Tails(Next(s, Arrive(r)))
  {
    var next := Next(s, Arrive(r));
    forall u | 0 <= u < |next.uploads| && !next.uploads[u].phase.Done? ensures next.uploads[u].request in next.locks {
      if u < |s.uploads| { assert next.uploads[u] == s.uploads[u]; }
    }
  }

  lemma {:induction false} ArriveKeeps(s: State, r: string)
    requires Inv(s)
    ensures Inv(Next(s, Arrive(r)))
  {
    hide Ordered, Linked, Tails, Limited;
    var next := Next(s, Arrive(r));
    ArriveKeepsOrder(s, r);
    ArriveKeepsTails(s, r);
    assert forall u :: 0 <= u < |s.uploads| ==> next.uploads[u] == s.uploads[u];
    assert Limited(next) by { SameLimits(s, next); }
  }

  lemma {:induction false} SameLimits(s: State, t: State)
    requires Limited(s) && s.media == t.media && s.ready == t.ready
    ensures Limited(t)
  {
  }

  /** Moving one upload on, neither back to waiting nor out of the end, keeps the order of service. */
  lemma {:induction false} EnterKeepsOrder(s: State, u: nat, phase: Phase)
    requires Ordered(s.uploads) && Linked(s.uploads) && u < |s.uploads| && !s.uploads[u].phase.Done? && !phase.Waiting?
    requires forall v :: 0 <= v < u && s.uploads[v].request == s.uploads[u].request ==> s.uploads[v].phase.Done?
    ensures Ordered(Enter(s, u, phase).uploads) && Linked(Enter(s, u, phase).uploads)
  {
    var next := Enter(s, u, phase).uploads;
    forall i, j | 0 <= i < j < |next| && next[i].request == next[j].request && !next[j].phase.Waiting?
      ensures next[i].phase.Done?
    {
      assert s.uploads[i].request == s.uploads[j].request;
    }
    assert Linked(next);
  }

  lemma {:induction false} EnterKeepsTails(s: State, u: nat, phase: Phase)
    requires Tails(s) && u < |s.uploads| && !s.uploads[u].phase.Done? && !phase.Done?
    ensures Tails(Enter(s, u, phase))
  {
  }

  lemma {:induction false} ActiveIsFirst(s: State, u: nat)
    requires Ordered(s.uploads) && u < |s.uploads| && !s.uploads[u].phase.Waiting?
    ensures forall v :: 0 <= v < u && s.uploads[v].request == s.uploads[u].request ==> s.uploads[v].phase.Done?
  {
  }

  lemma {:induction false} MoveKeeps(s: State, u: nat, phase: Phase)
    requires Inv(s) && u < |s.uploads| && !s.uploads[u].phase.Done? && Active(phase)
    requires s.uploads[u].phase.Waiting? ==> CanResume(s, u)
    requires phase.Looked? ==> phase.seen == MediaOf(s, s.uploads[u].request)
    ensures Inv(Enter(s, u, phase))
  {
    hide Ordered, Linked, Tails, CanResume, Count;
    if s.uploads[u].phase.Waiting? { ResumesExactly(s, u); } else { ActiveIsFirst(s, u); }
    EnterKeepsOrder(s, u, phase);
    EnterKeepsTails(s, u, phase);
  }

  lemma {:induction false} CountSnoc(media: seq<Kind>, last: Kind, kind: Kind)
    ensures Count(media + [last], kind) == Count(media, kind) + if last == kind then 1 else 0
  {
    assert (media + [last])[..|media|] == media;
  }

  lemma {:induction false} CountAbsent(media: seq<Kind>, kind: Kind)
    requires kind !in media
    ensures Count(media, kind) == 0
  {
    if media != [] { CountAbsent(media[..|media| - 1], kind); }
  }

  /** No other upload of the request is under way. */
  lemma {:induction false} OnlyOneActive(s: State, u: nat, v: nat)
    requires Ordered(s.uploads) && u < |s.uploads| && v < |s.uploads| && s.uploads[u].request == s.uploads[v].request
    requires Active(s.uploads[u].phase) && Active(s.uploads[v].phase)
    ensures u == v
  {
  }

  lemma {:induction false} StoreKeepsCurrent(s: State, u: nat, media: map<string, seq<Kind>>)
    requires Ordered(s.uploads) && Current(s) && u < |s.uploads| && Active(s.uploads[u].phase)
    requires forall r :: r != s.uploads[u].request ==>
               (r in media <==> r in s.media) && (r in media ==> media[r] == s.media[r])
    ensures Current(Enter(s, u, Stored).(media := media))
  {
    hide Ordered;
    var next := Enter(s, u, Stored).(media := media);
    forall v | 0 <= v < |next.uploads| && next.uploads[v].phase.Looked?
      ensures next.uploads[v].phase.seen == MediaOf(next, next.uploads[v].request)
    {
      if s.uploads[v].request == s.uploads[u].request { OnlyOneActive(s, u, v); }
    }
  }

  lemma {:induction false} StoreKeepsLimits(s: State, u: nat)
    requires Limited(s) && Current(s)
    ensures Limited(Next(s, Store(u)))
  {
    hide Count, Current;
    var next := Next(s, Store(u));
    if next != s {
      var me := s.uploads[u];
      var stored := MediaOf(s, me.request);
      ActiveSeesAll(s, u);
      CountSnoc(stored, me.phase.kind, Image);
      CountSnoc(stored, me.phase.kind, Video);
      NothingCounted();
      if me.phase.kind == Video { CountAbsent(stored, Video); }
      assert next.media[me.request] == stored + [me.phase.kind];
    }
  }

  lemma {:induction false} StoreKeeps(s: State, u: nat)
    requires Inv(s)
    ensures Inv(Next(s, Store(u)))
  {
    hide Ordered, Linked, Tails, Current, Limited, WithinLimit;
    var next := Next(s, Store(u));
    StoreKeepsLimits(s, u);
    if next != s {
      MoveKeeps(s, u, Stored);
      StoreKeepsCurrent(s, u, next.media);
      SameCurrent(Enter(s, u, Stored).(media := next.media), next);
      SameTails(Enter(s, u, Stored), next);
    }
  }

  lemma {:induction false} SameCurrent(s: State, t: State)
    requires Current(s) && s.uploads == t.uploads && s.media == t.media
    ensures Current(t)
  {
  }

  lemma {:induction false} NothingCounted()
    ensures Count([], Image) == 0 && Count([], Video) == 0
  {
  }

  lemma {:induction false} SameTails(s: State, t: State)
    requires Tails(s) && s.uploads == t.uploads && s.locks == t.locks
    ensures Tails(t)
  {
  }

  lemma {:induction false} ActiveSeesAll(s: State, u: nat)
    requires Current(s) && u < |s.uploads| && s.uploads[u].phase.Looked?
    ensures s.uploads[u].phase.seen == MediaOf(s, s.uploads[u].request)
  {
  }

  lemma {:induction false} LeaveKeepsTails(s: State, u: nat)
    requires Ordered(s.uploads) && Tails(s) && u < |s.uploads| && Active(s.uploads[u].phase)
    ensures Tails(Next(s, Leave(u)))
  {
    var next := Next(s, Leave(u));
    var r := s.uploads[u].request;
    forall v | 0 <= v < |next.uploads| && !next.uploads[v].phase.Done? ensures next.uploads[v].request in next.locks {
      assert v != u;
      if next.uploads[v].request == r {
        assert u < v;
        assert s.locks[r] != u;
      }
    }
  }

  lemma {:induction false} LeaveKeeps(s: State, u: nat)
    requires Inv(s)
    ensures Inv(Next(s, Leave(u)))
  {
    hide Ordered, Linked, Tails, Count;
    var next := Next(s, Leave(u));
    if next != s {
      ActiveIsFirst(s, u);
      EnterKeepsOrder(s, u, Done);
      LeaveKeepsTails(s, u);
    }
  }

  lemma {:induction false} NextKeeps(s: State, step: Step)
    requires Inv(s)
    ensures Inv(Next(s, step))
  {
    hide Inv, CanResume;
    match step
    case Arrive(r) => ArriveKeeps(s, r);
    case Resume(u) => if CanResume(s, u) { CanResumeMeans(s, u); MoveKeeps(s, u, Running); }
    case Look(u, kind) =>
      if u < |s.uploads| && s.uploads[u].phase.Running? {
        MoveKeeps(s, u, Looked(kind, MediaOf(s, s.uploads[u].request)));
      }
    case Store(u) => StoreKeeps(s, u);
    case Leave(u) => LeaveKeeps(s, u);
  }

  lemma {:induction false} CanResumeMeans(s: State, u: nat)
    requires CanResume(s, u)
    ensures u < |s.uploads| && s.uploads[u].phase.Waiting?
  {
  }

  lemma {:induction false} AfterKeeps(s: State, steps: seq<Step>)
    requires Inv(s)
    ensures Inv(After(s, steps))
  {
    hide Inv;
    if steps != [] {
      AfterKeeps(s, steps[..|steps| - 1]);
      NextKeeps(After(s, steps[..|steps| - 1]), steps[|steps| - 1]);
    }
  }

  lemma {:induction false} RunKeeps(steps: seq<Step>)
    ensures Inv(Run(steps))
  {
    AfterKeeps(START, steps);
  }

  // ---------------------------------------------------------------- theorems

  /** At most one upload of a request is past the wait and not yet ended, in every interleaving. */
  lemma {:induction false} MutualExclusion(steps: seq<Step>, u: nat, v: nat)
    requires u < |Run(steps).uploads| && v < |Run(steps).uploads|
    requires Run(steps).uploads[u].request == Run(steps).uploads[v].request
    requires Active(Run(steps).uploads[u].phase) && Active(Run(steps).uploads[v].phase)
    ensures u == v
  {
    RunKeeps(steps);
    OnlyOneActive(Run(steps), u, v);
  }

  /** Service is first come, first served: whoever is past the wait, everyone who arrived before has ended. */
  lemma {:induction false} FirstComeFirstServed(steps: seq<Step>, u: nat, v: nat)
    requires u < v < |Run(steps).uploads| && Run(steps).uploads[u].request == Run(steps).uploads[v].request
    requires !Run(steps).uploads[v].phase.Waiting?
    ensures Run(steps).uploads[u].phase.Done?
  {
    RunKeeps(steps);
    ActiveIsFirst(Run(steps), v);
  }

  /** A waiting upload may resume exactly when all that arrived before it have ended, whatever was deleted from the
      map. */
  lemma {:induction false} WaitersAreEnabled(steps: seq<Step>, u: nat)
    requires u < |Run(steps).uploads| && Run(steps).uploads[u].phase.Waiting?
    ensures CanResume(Run(steps), u) <==>
            forall v :: 0 <= v < u && Run(steps).uploads[v].request == Run(steps).uploads[u].request ==>
              Run(steps).uploads[v].phase.Done?
  {
    RunKeeps(steps);
    ResumesExactly(Run(steps), u);
  }

  /** The map has an entry exactly while an upload of the request has not ended: deletion is neither early nor
      forgotten. */
  lemma {:induction false} LockedWhileUploading(steps: seq<Step>, request: string)
    ensures request in Run(steps).locks <==>
            exists u ::
              0 <= u < |Run(steps).uploads| && Run(steps).uploads[u].request == request
              && !Run(steps).uploads[u].phase.Done?
  {
    RunKeeps(steps);
    var s := Run(steps);
    if request in s.locks { assert s.uploads[s.locks[request]].request == request; }
  }

  /** The first upload of a request that has not ended. */
  function Head(uploads: seq<Upload>, request: string, from: nat): (u: nat)
    requires from <= |uploads|
    ensures u <= |uploads|
    ensures forall v :: from <= v < u && uploads[v].request == request ==> uploads[v].phase.Done?
    ensures u < |uploads| ==> uploads[u].request == request && !uploads[u].phase.Done?
    decreases |uploads| - from
  {
    if from == |uploads| || (uploads[from].request == request && !uploads[from].phase.Done?) then from
    else Head(uploads, request, from + 1)
  }

  function Pending(uploads: seq<Upload>, request: string): nat {
    if uploads == [] then 0
    else Pending(uploads[..|uploads| - 1], request)
         + if uploads[|uploads| - 1].request == request && !uploads[|uploads| - 1].phase.Done? then 1 else 0
  }

  lemma {:induction false} PendingDrops(uploads: seq<Upload>, u: nat)
    requires u < |uploads| && !uploads[u].phase.Done?
    ensures Pending(uploads[u := uploads[u].(phase := Done)], uploads[u].request)
         == Pending(uploads, uploads[u].request) - 1
  {
    var next := uploads[u := uploads[u].(phase := Done)];
    var n := |uploads| - 1;
    if u < n {
      PendingDrops(uploads[..n], u);
      assert next[..n] == uploads[..n][u := uploads[u].(phase := Done)];
    } else {
      assert next[..n] == uploads[..n];
    }
  }

  /** The steps that let the first upload of a request come to its end. */
  function Serve(s: State, u: nat): seq<Step>
    requires u < |s.uploads|
  {
    if s.uploads[u].phase.Waiting? then [Resume(u), Leave(u)] else [Leave(u)]
  }

  lemma {:induction false} ServeEnds(s: State, u: nat)
    requires Inv(s) && u < |s.uploads| && !s.uploads[u].phase.Done?
    requires forall v :: 0 <= v < u && s.uploads[v].request == s.uploads[u].request ==> s.uploads[v].phase.Done?
    ensures After(s, Serve(s, u)).uploads == s.uploads[u := s.uploads[u].(phase := Done)]
  {
    hide Inv, CanResume;
    assert Linked(s.uploads) by { InvIsLinked(s); }
    if s.uploads[u].phase.Waiting? {
      ResumesExactly(s, u);
      assert Serve(s, u)[..1] == [Resume(u)] && [Resume(u)][..0] == [];
      assert After(s, [Resume(u)]) == Next(After(s, []), Resume(u));
      assert After(s, [Resume(u)]) == Enter(s, u, Running);
      assert After(s, Serve(s, u)) == Next(After(s, Serve(s, u)[..1]), Leave(u));
    } else {
      assert Serve(s, u)[..0] == [];
      assert After(s, Serve(s, u)) == Next(After(s, []), Leave(u));
    }
  }

  lemma {:induction false} InvIsLinked(s: State)
    requires Inv(s)
    ensures Linked(s.uploads)
  {
  }

  lemma {:induction false} AfterBoth(s: State, first: seq<Step>, second: seq<Step>)
    ensures After(s, first + second) == After(After(s, first), second)
  {
    if second == [] {
      assert first + second == first;
    } else {
      AfterBoth(s, first, second[..|second| - 1]);
      assert (first + second)[..|first + second| - 1] == first + second[..|second| - 1];
    }
  }

  /** From every reachable state the queue of a request can be served to its end, one upload after the other: no
      deadlock, and the map entry is gone then. */
  lemma {:induction false} QueueDrains(s: State, request: string) returns (more: seq<Step>)
    requires Inv(s)
    ensures Inv(After(s, more)) && request !in After(s, more).locks
    decreases Pending(s.uploads, request)
  {
    hide Pending, After, Settled, Count;
    var u := Head(s.uploads, request, 0);
    if u == |s.uploads| {
      more := [];
      AfterNothing(s);
    } else {
      var first := Serve(s, u);
      ServeEnds(s, u);
      PendingDrops(s.uploads, u);
      AfterKeeps(s, first);
      var rest := QueueDrains(After(s, first), request);
      AfterBoth(s, first, rest);
      more := first + rest;
    }
  }

  lemma {:induction false} AfterNothing(s: State)
    ensures After(s, []) == s
  {
  }

  /** At most five images and one video are ever stored for a request, although each upload checks and stores in
      separate steps. */
  lemma {:induction false} MediaWithinLimits(steps: seq<Step>, request: string)
    ensures Count(MediaOf(Run(steps), request), Image) <= 5
    ensures Count(MediaOf(Run(steps), request), Video) <= 1
  {
    RunKeeps(steps);
    NothingCounted();
  }

  /** In every interleaving an upload that has come to its check stores its media exactly if the request has fewer than
      five images, or no video, at that very moment, and then makes the request ready; otherwise nothing changes. */
  lemma {:induction false} StoresExactly(steps: seq<Step>, u: nat)
    requires u < |Run(steps).uploads| && Run(steps).uploads[u].phase.Looked?
    ensures var s := Run(steps);
            var next, request, kind := Next(s, Store(u)), s.uploads[u].request, s.uploads[u].phase.kind;
            if Count(MediaOf(s, request), kind) < (if kind == Image then 5 else 1) then
              MediaOf(next, request) == MediaOf(s, request) + [kind] && request in next.ready
              && (forall r :: r != request ==> MediaOf(next, r) == MediaOf(s, r) && (r in next.ready <==> r in s.ready))
            else next == s
  {
    RunKeeps(steps);
    var s := Run(steps);
    ActiveSeesAll(s, u);
    var stored := MediaOf(s, s.uploads[u].request);
    if Video in stored { CountPresent(stored, Video); } else { CountAbsent(stored, Video); }
  }

  lemma {:induction false} CountPresent(media: seq<Kind>, kind: Kind)
    requires kind in media
    ensures Count(media, kind) >= 1
  {
    if media[|media| - 1] != kind {
      var i :| 0 <= i < |media| && media[i] == kind;
      assert media[..|media| - 1][i] == kind;
      CountPresent(media[..|media| - 1], kind);
    }
  }

  /** A request is ready for operation exactly when it has stored media. */
  lemma {:induction false} ReadyExactlyWithMedia(steps: seq<Step>, request: string)
    ensures request in Run(steps).ready <==> MediaOf(Run(steps), request) != []
  {
    RunKeeps(steps);
  }

  /** Stored media stay: a later state only has more. */
  lemma {:induction false} MediaOnlyGrow(s: State, steps: seq<Step>, request: string)
    ensures MediaOf(s, request) <= MediaOf(After(s, steps), request)
  {
    hide CanResume;
    if steps != [] { MediaOnlyGrow(s, steps[..|steps| - 1], request); }
  }

  // ---------------------------------------------------------------- the service object

  /** The uploads of one process, as the statements of `upload` change them. */
  class Uploads {
    var uploads: seq<Upload>
    var locks: map<string, nat>
    var media: map<string, seq<Kind>>
    var ready: set<string>

    ghost function Contents(): State reads this { State(uploads, locks, media, ready) }

    constructor ()
      ensures Contents() == START
    {
      uploads, locks, media, ready := [], map[], map[], {};
    }

    /** Take the queue promise of the last arrival as `previous`, and put one's own in its place. */
    method Arrived(request: string) returns (u: nat)
      modifies this`uploads, this`locks
      ensures u == |old(uploads)| && Contents() == Next(old(Contents()), Arrive(request))
    {
      var previous: Option<nat> := None;
      if request in locks { previous := Some(locks[request]); }
      u := |uploads|;
      uploads := uploads + [Upload(request, previous, Waiting)];
      locks := locks[request := u];
    }

    /** The `await` on the predecessor's promise: it ends only once that promise is resolved. */
    method Resumed(u: nat) returns (ok: bool)
      requires u < |uploads|
      modifies this`uploads
      ensures Contents() == Next(old(Contents()), Resume(u))
      ensures ok <==> CanResume(old(Contents()), u)
    {
      hide Settled;
      var me := uploads[u];
      ok := me.phase.Waiting?
            && (me.behind.None? || (me.behind.value < |uploads| && Settled(uploads, me.behind.value)));
      if ok { uploads := uploads[u := me.(phase := Running)]; }
    }

    /** The bytes are received and judged of a kind, and the stored media are read. */
    method Looks(u: nat, kind: Kind)
      requires u < |uploads| && uploads[u].phase.Running?
      modifies this`uploads
      ensures Contents() == Next(old(Contents()), Look(u, kind))
      ensures uploads[u].phase.Looked?
    {
      var me := uploads[u];
      var existing := if me.request in media then media[me.request] else [];
      uploads := uploads[u := me.(phase := Looked(kind, existing))];
    }

    /** Count the stored media of the kind, and store one more unless that is too many. */
    method Keep(u: nat) returns (kept: bool)
      requires u < |uploads| && uploads[u].phase.Looked?
      modifies this`uploads, this`media, this`ready
      ensures Contents() == Next(old(Contents()), Store(u))
      ensures kept <==> WithinLimit(old(uploads)[u].phase.kind, old(uploads)[u].phase.seen)
    {
      var me := uploads[u];
      var images, video := 0, false;
      for i := 0 to |me.phase.seen|
        invariant unchanged(this)
        invariant images == Count(me.phase.seen[..i], Image) && (video <==> Video in me.phase.seen[..i])
      {
        assert me.phase.seen[..i + 1] == me.phase.seen[..i] + [me.phase.seen[i]];
        CountSnoc(me.phase.seen[..i], me.phase.seen[i], Image);
        if me.phase.seen[i] == Image { images := images + 1; } else { video := true; }
      }
      assert me.phase.seen[..|me.phase.seen|] == me.phase.seen;
      if me.phase.kind == Image && images >= MAX_IMAGES { return false; }
      if me.phase.kind == Video && video { return false; }
      var stored := if me.request in media then media[me.request] else [];
      media := media[me.request := stored + [me.phase.kind]];
      ready := ready + {me.request};
      uploads := uploads[u := me.(phase := Stored)];
      return true;
    }

    /** Release, and delete the map entry only if it is still one's own. */
    method Left(u: nat)
      requires u < |uploads| && Active(uploads[u].phase)
      modifies this`uploads, this`locks
      ensures Contents() == Next(old(Contents()), Leave(u))
    {
      var me := uploads[u];
      uploads := uploads[u := me.(phase := Done)];
      if me.request in locks && locks[me.request] == u { locks := locks - {me.request}; }
    }
  }
}
