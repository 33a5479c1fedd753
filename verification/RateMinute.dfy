/** How many calls of a key a minute lets through: exactly how many can be, for every window open when the minute
    starts, and when it never is more than the maximum. */
module RateMinute {
  import opened Wrappers
  import opened RateWindow

  /** What the minute from `from` can still let through, the window being `w` when it starts. A window that is open
      has the calls it has left, and once it expires, still within the minute, the next one has all of its own. */
  function Room(w: Option<Window>, from: int, maximum: nat): int {
    if Expired(w, from) then maximum else 2 * maximum - w.value.count
  }

  // ---------------------------------------------------------------- never more than that

  /** What is left during the minute; a window opened within it lasts to its end. */
  function Left(w: Option<Window>, from: int, maximum: nat): int {
    if w.Some? && w.value.startedAt >= from then maximum - w.value.count else Room(w, from, maximum)
  }

  predicate Counted(w: Option<Window>, maximum: nat) { w.Some? ==> 1 <= w.value.count <= maximum }

  /** A call within the minute uses up one of what is left, if it is let through. */
  lemma {:induction false} CallUsesOne(w: Option<Window>, t: int, from: int, maximum: nat)
    requires maximum >= 1 && Counted(w, maximum) && from <= t < from + WINDOW
    ensures Counted(Touch(w, t, maximum), maximum)
    ensures Left(Touch(w, t, maximum), from, maximum) + (if Admitted(w, t, maximum) then 1 else 0)
            <= Left(w, from, maximum)
  {
  }

  lemma {:induction false} AlwaysCounted(times: seq<int>, maximum: nat)
    requires maximum >= 1
    ensures Counted(After(times, maximum), maximum)
  {
    if times != [] { AlwaysCounted(times[..|times| - 1], maximum); }
  }

  /** The open window was opened by a call. */
  lemma {:induction false} StartsEarlier(times: seq<int>, from: int, maximum: nat)
    requires forall i :: 0 <= i < |times| ==> times[i] < from
    ensures After(times, maximum).Some? ==> After(times, maximum).value.startedAt < from
  {
    if times != [] { StartsEarlier(times[..|times| - 1], from, maximum); }
  }

  lemma {:induction false} UsedWithinMinute(past: seq<int>, later: seq<int>, from: int, maximum: nat)
    requires maximum >= 1 && forall i :: 0 <= i < |past| ==> past[i] < from
    requires forall i :: 0 <= i < |later| ==> from <= later[i] < from + WINDOW
    ensures Within(Accepted(past + later, maximum), from, from + WINDOW)
            + Left(After(past + later, maximum), from, maximum)
            <= Room(After(past, maximum), from, maximum)
  {
    hide After, Accepted, Touch, Admitted, Room, Left, Within;
    if later == [] {
      assert past + later == past;
      AcceptedAreCalls(past, maximum, from - 1);
      NoneWithin(Accepted(past, maximum), from, from + WINDOW);
      StartsEarlier(past, from, maximum);
      EarlierLeavesRoom(After(past, maximum), from, maximum);
    } else {
      var n := |later| - 1;
      var before := past + later[..n];
      assert past + later == before + [later[n]];
      UsedWithinMinute(past, later[..n], from, maximum);
      Appended(before, later[n], maximum);
      AlwaysCounted(before, maximum);
      CallUsesOne(After(before, maximum), later[n], from, maximum);
      WithinSnoc(Accepted(before, maximum), later[n], from, from + WINDOW);
      assert Accepted(before, maximum) + [] == Accepted(before, maximum);
    }
  }

  lemma {:induction false} EarlierLeavesRoom(w: Option<Window>, from: int, maximum: nat)
    requires w.Some? ==> w.value.startedAt < from
    ensures Left(w, from, maximum) == Room(w, from, maximum)
  {
  }

  lemma {:induction false} SomethingLeft(w: Option<Window>, from: int, maximum: nat)
    requires Counted(w, maximum)
    ensures Left(w, from, maximum) >= 0
    ensures maximum >= 1 ==> Room(w, from, maximum) < 2 * maximum
    ensures Room(w, from, maximum) <= maximum <==> Expired(w, from) || w.value.count == maximum
  {
  }

  /** Calls that split at the start of the minute. */
  ghost predicate Splits(past: seq<int>, later: seq<int>, from: int) {
    Rising(past + later) && (forall i :: 0 <= i < |past| ==> past[i] < from) && forall i :: 0 <= i < |later| ==>
      from <= later[i]
  }

  lemma {:induction false} SplitsBefore(past: seq<int>, later: seq<int>, from: int)
    requires Splits(past, later, from) && later != []
    ensures Splits(past, later[..|later| - 1], from)
    ensures forall i :: 0 <= i < |later| ==> from <= later[i] <= later[|later| - 1]
  {
    var n := |later| - 1;
    assert past + later == past + later[..n] + [later[n]];
    RisingSnoc(past + later[..n], later[n]);
    forall i | 0 <= i < |later| ensures later[i] <= later[n] {
      assert (past + later)[|past| + i] <= (past + later)[|past| + n];
    }
  }

  /** A call after the minute does not matter to it. */
  lemma {:induction false} CallAfterMinute(before: seq<int>, t: int, from: int, maximum: nat)
    requires t >= from + WINDOW
    ensures Within(Accepted(before + [t], maximum), from, from + WINDOW) == Within(Accepted(before, maximum), from,
                                                                                   from + WINDOW)
  {
    hide After, Accepted, Admitted, Within;
    Appended(before, t, maximum);
    WithinSnoc(Accepted(before, maximum), t, from, from + WINDOW);
    assert Accepted(before, maximum) + [] == Accepted(before, maximum);
  }

  /** Whatever is called from the start of the minute on, the minute lets through no more than its room. */
  lemma {:induction false} MinuteHasRoom(past: seq<int>, later: seq<int>, from: int, maximum: nat)
    requires maximum >= 1 && Splits(past, later, from)
    ensures Within(Accepted(past + later, maximum), from, from + WINDOW) <= Room(After(past, maximum), from, maximum)
    decreases |later|
  {
    hide After, Accepted, Room, Left, Within, Rising;
    var n := |later| - 1;
    if later != [] { SplitsBefore(past, later, from); }
    if later == [] || later[n] < from + WINDOW {
      UsedWithinMinute(past, later, from, maximum);
      AlwaysCounted(past + later, maximum);
      SomethingLeft(After(past + later, maximum), from, maximum);
    } else {
      MinuteHasRoom(past, later[..n], from, maximum);
      CallAfterMinute(past + later[..n], later[n], from, maximum);
      assert past + later == past + later[..n] + [later[n]];
    }
  }

  // ---------------------------------------------------------------- and that much can be

  function Repeat(t: int, n: nat): seq<int> { seq(n, _ => t) }

  lemma {:induction false} WithinRepeat(times: seq<int>, t: int, n: nat, from: int, to: int)
    requires from <= t < to
    ensures Within(times + Repeat(t, n), from, to) == Within(times, from, to) + n
  {
    if n == 0 {
      assert times + Repeat(t, 0) == times;
    } else {
      WithinRepeat(times, t, n - 1, from, to);
      assert times + Repeat(t, n) == times + Repeat(t, n - 1) + [t];
      WithinSnoc(times + Repeat(t, n - 1), t, from, to);
    }
  }

  /** A burst that fits into the current window passes. */
  lemma {:induction false} BurstPasses(times: seq<int>, t: int, n: nat, maximum: nat)
    requires !Expired(After(times, maximum), t) && After(times, maximum).value.count + n <= maximum
    ensures Accepted(times + Repeat(t, n), maximum) == Accepted(times, maximum) + Repeat(t, n)
    ensures After(times + Repeat(t, n), maximum)
         == Some(Window(After(times, maximum).value.startedAt, After(times, maximum).value.count + n))
  {
    hide After, Accepted;
    if n == 0 {
      assert times + Repeat(t, 0) == times && Accepted(times, maximum) + Repeat(t, 0) == Accepted(times, maximum);
    } else {
      BurstPasses(times, t, n - 1, maximum);
      assert times + Repeat(t, n) == times + Repeat(t, n - 1) + [t];
      Appended(times + Repeat(t, n - 1), t, maximum);
      assert Repeat(t, n) == Repeat(t, n - 1) + [t];
      assert Accepted(times, maximum) + Repeat(t, n - 1) + [t] == Accepted(times, maximum) + Repeat(t, n);
    }
  }

  /** Calls that use up the room: what the open window has left at once, and all of the next at its first instant. */
  function Filling(w: Option<Window>, from: int, maximum: nat): seq<int>
    requires Counted(w, maximum)
  {
    if Expired(w, from) then Repeat(from, maximum)
    else Repeat(from, maximum - w.value.count) + Repeat(w.value.startedAt + WINDOW, maximum)
  }

  /** A burst that opens a new window fills it. */
  lemma {:induction false} BurstOpens(times: seq<int>, t: int, maximum: nat)
    requires maximum >= 1 && Expired(After(times, maximum), t)
    ensures Accepted(times + Repeat(t, maximum), maximum) == Accepted(times, maximum) + Repeat(t, maximum)
  {
    hide After, Accepted;
    Appended(times, t, maximum);
    BurstPasses(times + [t], t, maximum - 1, maximum);
    assert times + Repeat(t, maximum) == times + [t] + Repeat(t, maximum - 1);
    assert Accepted(times, maximum) + Repeat(t, maximum) == Accepted(times, maximum) + [t] + Repeat(t, maximum - 1);
  }

  lemma {:induction false} FillingSplits(past: seq<int>, from: int, maximum: nat)
    requires maximum >= 1 && Rising(past) && forall i :: 0 <= i < |past| ==> past[i] < from
    requires Counted(After(past, maximum), maximum)
    ensures var later := Filling(After(past, maximum), from, maximum);
            Splits(past, later, from) && forall i :: 0 <= i < |later| ==> later[i] < from + WINDOW
  {
    hide After;
    StartsEarlier(past, from, maximum);
  }

  /** After every past some calls within the minute use up its room. */
  lemma {:induction false} RoomIsUsed(past: seq<int>, from: int, maximum: nat)
    requires maximum >= 1 && Rising(past) && forall i :: 0 <= i < |past| ==> past[i] < from
    requires Counted(After(past, maximum), maximum)
    ensures var w := After(past, maximum);
            Within(Accepted(past + Filling(w, from, maximum), maximum), from, from + WINDOW) == Room(w, from, maximum)
  {
    hide After, Accepted, Within, Repeat;
    var w := After(past, maximum);
    StartsEarlier(past, from, maximum);
    AcceptedAreCalls(past, maximum, from - 1);
    NoneWithin(Accepted(past, maximum), from, from + WINDOW);
    if Expired(w, from) {
      BurstOpens(past, from, maximum);
      WithinRepeat(Accepted(past, maximum), from, maximum, from, from + WINDOW);
    } else {
      var n, t := maximum - w.value.count, w.value.startedAt + WINDOW;
      BurstPasses(past, from, n, maximum);
      BurstOpens(past + Repeat(from, n), t, maximum);
      WithinRepeat(Accepted(past, maximum), from, n, from, from + WINDOW);
      WithinRepeat(Accepted(past, maximum) + Repeat(from, n), t, maximum, from, from + WINDOW);
      assert past + (Repeat(from, n) + Repeat(t, maximum)) == past + Repeat(from, n) + Repeat(t, maximum);
    }
  }

  // ---------------------------------------------------------------- all keys

  /** Calls with any keys that split at the start of the minute. */
  ghost predicate CallsSplit(past: seq<Call>, later: seq<Call>, from: int) {
    ClockRises(past + later)
    && (forall i :: 0 <= i < |past| ==> past[i].at < from) && forall i :: 0 <= i < |later| ==> from <= later[i].at
  }

  lemma {:induction false} TimesJoin(past: seq<Call>, later: seq<Call>, key: Key)
    ensures TimesOf(past + later, key) == TimesOf(past, key) + TimesOf(later, key)
  {
    if later == [] {
      assert past + later == past;
    } else {
      var n := |later| - 1;
      TimesJoin(past, later[..n], key);
      assert (past + later)[..|past + later| - 1] == past + later[..n];
    }
  }

  lemma {:induction false} TimesBelow(calls: seq<Call>, key: Key, from: int)
    requires forall i :: 0 <= i < |calls| ==> calls[i].at < from
    ensures forall i :: 0 <= i < |TimesOf(calls, key)| ==> TimesOf(calls, key)[i] < from
  {
    if calls != [] { TimesBelow(calls[..|calls| - 1], key, from); }
  }

  lemma {:induction false} TimesAbove(calls: seq<Call>, key: Key, from: int)
    requires forall i :: 0 <= i < |calls| ==> from <= calls[i].at
    ensures forall i :: 0 <= i < |TimesOf(calls, key)| ==> from <= TimesOf(calls, key)[i]
  {
    if calls != [] { TimesAbove(calls[..|calls| - 1], key, from); }
  }

  lemma {:induction false} TimesSplit(past: seq<Call>, later: seq<Call>, key: Key, from: int)
    requires CallsSplit(past, later, from)
    ensures Splits(TimesOf(past, key), TimesOf(later, key), from)
    ensures TimesOf(past + later, key) == TimesOf(past, key) + TimesOf(later, key)
  {
    var calls := past + later;
    TimesJoin(past, later, key);
    TimesBelow(past, key, from);
    TimesAbove(later, key, from);
    if calls != [] { TimesRise(calls, key, calls[|calls| - 1].at); }
  }

  /** In every run of calls with any keys: from the moment `from` on, the next minute lets through at most the room
      that the key's window leaves. */
  lemma {:induction false} MinuteRoom(past: seq<Call>, later: seq<Call>, key: Key, from: int)
    requires CallsSplit(past, later, from)
    ensures Within(Passed(past + later, key), from, from + WINDOW) <= Room(Get(Windows(past), key), from, Maximum(key))
  {
    hide Within, Passed, Accepted, Windows, Maximum, TimesOf, Room, CallsSplit, Splits, After;
    TimesSplit(past, later, key, from);
    KeysAreIndependent(past + later, key);
    KeysAreIndependent(past, key);
    MinuteHasRoom(TimesOf(past, key), TimesOf(later, key), from, Maximum(key));
  }

  function CallsAt(key: Key, times: seq<int>): seq<Call> {
    seq(|times|, i requires 0 <= i < |times| => Call(key, times[i]))
  }

  lemma {:induction false} TimesOfCalls(key: Key, times: seq<int>)
    ensures TimesOf(CallsAt(key, times), key) == times
  {
    if times != [] {
      var n := |times| - 1;
      TimesOfCalls(key, times[..n]);
      assert CallsAt(key, times)[..n] == CallsAt(key, times[..n]);
    }
  }

  /** After every past some calls use the room up. */
  lemma {:induction false} MinuteRoomIsUsed(past: seq<Call>, key: Key, from: int) returns (later: seq<Call>)
    requires ClockRises(past) && forall i :: 0 <= i < |past| ==> past[i].at < from
    ensures CallsSplit(past, later, from)
    ensures Within(Passed(past + later, key), from, from + WINDOW) == Room(Get(Windows(past), key), from, Maximum(key))
  {
    hide Within, Passed, Accepted, Windows, Maximum, Room, After, Filling;
    var times := TimesOf(past, key);
    var w := After(times, Maximum(key));
    KeysAreIndependent(past, key);
    TimesRise(past, key, from);
    TimesBelow(past, key, from);
    AlwaysCounted(times, Maximum(key));
    FillingSplits(times, from, Maximum(key));
    RoomIsUsed(times, from, Maximum(key));
    later := CallsAt(key, Filling(w, from, Maximum(key)));
    CallsAtSplit(past, key, times, Filling(w, from, Maximum(key)), from);
    TimesOfCalls(key, Filling(w, from, Maximum(key)));
    TimesJoin(past, later, key);
    KeysAreIndependent(past + later, key);
  }

  lemma {:induction false} CallsAtSplit(past: seq<Call>, key: Key, times: seq<int>, more: seq<int>, from: int)
    requires ClockRises(past) && (forall i :: 0 <= i < |past| ==> past[i].at < from) && Splits(times, more, from)
    ensures CallsSplit(past, CallsAt(key, more), from)
  {
    var all := past + CallsAt(key, more);
    forall i, j | 0 <= i <= j < |all| ensures all[i].at <= all[j].at {
      if |past| <= i { assert (times + more)[|times| + i - |past|] <= (times + more)[|times| + j - |past|]; }
    }
  }

  /** Every continuation of the past keeps to the maximum in the minute from `from`. */
  ghost predicate KeepsMaximum(past: seq<Call>, key: Key, from: int) {
    forall later: seq<Call> :: CallsSplit(past, later, from) ==>
      Within(Passed(past + later, key), from, from + WINDOW) <= Maximum(key)
  }

  /** When the promised maximum holds, exactly: whatever is called then, the minute from `from` lets at most the
      maximum of a key through, if and only if no window of the key is open at its start, or the open one is full. */
  lemma {:induction false} MaximumIsKept(past: seq<Call>, key: Key, from: int)
    requires ClockRises(past) && forall i :: 0 <= i < |past| ==> past[i].at < from
    ensures var w := Get(Windows(past), key);
            KeepsMaximum(past, key, from) <==> Expired(w, from) || w.value.count == Maximum(key)
  {
    hide Within, Passed, Windows, Maximum, Room, CallsSplit, After;
    var w := Get(Windows(past), key);
    KeysAreIndependent(past, key);
    AlwaysCounted(TimesOf(past, key), Maximum(key));
    SomethingLeft(w, from, Maximum(key));
    if Room(w, from, Maximum(key)) <= Maximum(key) {
      forall later: seq<Call> | CallsSplit(past, later, from)
        ensures Within(Passed(past + later, key), from, from + WINDOW) <= Maximum(key)
      {
        MinuteRoom(past, later, key, from);
      }
    } else {
      var later := MinuteRoomIsUsed(past, key, from);
    }
  }

  lemma {:induction false} SplitAt(calls: seq<Call>, from: int, n: nat) returns (k: nat)
    requires ClockRises(calls) && n <= |calls| && forall i :: n <= i < |calls| ==> from <= calls[i].at
    ensures k <= |calls| && CallsSplit(calls[..k], calls[k..], from)
  {
    if n == 0 || calls[n - 1].at < from {
      k := n;
      assert calls[..k] + calls[k..] == calls;
    } else {
      k := SplitAt(calls, from, n - 1);
    }
  }

  /** In any half-open minute fewer than twice the maximum calls with a key are let through, whatever the other keys
      do. */
  lemma {:induction false} MinuteBound(calls: seq<Call>, key: Key, from: int)
    requires ClockRises(calls)
    ensures Within(Passed(calls, key), from, from + WINDOW) < 2 * Maximum(key)
  {
    hide Within, Passed, Windows, Maximum, Room, After, CallsSplit;
    var k := SplitAt(calls, from, |calls|);
    MinuteRoom(calls[..k], calls[k..], key, from);
    assert calls[..k] + calls[k..] == calls;
    KeysAreIndependent(calls[..k], key);
    AlwaysCounted(TimesOf(calls[..k], key), Maximum(key));
    SomethingLeft(Get(Windows(calls[..k]), key), from, Maximum(key));
  }

  /** The bound is exact for every key: after one call, some calls let one less than twice the maximum through in a
      minute. */
  lemma {:induction false} BoundIsAttained(key: Key) returns (later: seq<Call>)
    ensures var calls := [Call(key, 0)] + later;
            ClockRises(calls) && Within(Passed(calls, key), 1, 1 + WINDOW) == 2 * Maximum(key) - 1
  {
    hide Within, Passed, Windows, Maximum;
    later := MinuteRoomIsUsed([Call(key, 0)], key, 1);
    OneCall(key);
  }

  lemma {:induction false} OneCall(key: Key)
    ensures Get(Windows([Call(key, 0)]), key) == Some(Window(0, 1))
  {
    assert [Call(key, 0)][..0] == [];
  }

  // ---------------------------------------------------------------- after a quiet minute

  /** Calls within a minute of the first, whose window is a new one. */
  lemma {:induction false} NewWindowFills(before: seq<int>, times: seq<int>, maximum: nat)
    requires times != [] && maximum >= 1 && Expired(After(before, maximum), times[0])
    requires forall i :: 0 <= i < |times| ==> times[0] <= times[i] < times[0] + WINDOW
    ensures var n := if |times| <= maximum then |times| else maximum;
            After(before + times, maximum) == Some(Window(times[0], n))
            && Accepted(before + times, maximum) == Accepted(before, maximum) + times[..n]
  {
    hide After, Accepted;
    var k := |times| - 1;
    Appended(before + times[..k], times[k], maximum);
    assert before + times[..k] + [times[k]] == before + times;
    if k == 0 {
      assert before + [] == before;
    } else {
      NewWindowFills(before, times[..k], maximum);
      assert k < maximum ==> times[..k] + [times[k]] == times;
    }
  }

  /** Exactly the first calls of a key pass in the minute after one without it: 120 reads, 10 writes or 60 transitions
      of a profile, 30 calls from an address, 60 of an inbox, whatever the other keys do. */
  lemma {:induction false} FirstCallsPass(past: seq<Call>, later: seq<Call>, key: Key)
    requires var before, times := TimesOf(past, key), TimesOf(later, key);
             times != [] && (forall i :: 0 <= i < |before| ==> before[i] + 60_000 <= times[0])
             && forall i :: 0 <= i < |times| ==> times[0] <= times[i] < times[0] + 60_000
    ensures var times := TimesOf(later, key);
            var maximum := match key
                           case OfProfile(Read, _) => 120
                           case OfProfile(Write, _) => 10
                           case OfProfile(Transition, _) => 60
                           case OfAddress(_) => 30
                           case OfInbox(_) => 60;
            Passed(past + later, key) == Passed(past, key) + if |times| <= maximum then times else times[..maximum]
  {
    hide After, Accepted, Passed, Windows, TimesOf;
    var before, times := TimesOf(past, key), TimesOf(later, key);
    TimesJoin(past, later, key);
    KeysAreIndependent(past, key);
    KeysAreIndependent(past + later, key);
    StartsEarlier(before, times[0] - WINDOW + 1, Maximum(key));
    NewWindowFills(before, times, Maximum(key));
    assert times[..|times|] == times;
  }
}
