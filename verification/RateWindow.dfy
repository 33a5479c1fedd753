/** Fixed windows of one minute that limit the calls of a profile or of an address. */
module RateWindow {
  import opened Wrappers

  const WINDOW := 60000

  datatype Window = Window(startedAt: int, count: nat)

  datatype Kind = Read | Write | Transition

  /** Each service keeps its own windows: by kind and profile, by address, and by recipient. */
  datatype Key = OfProfile(kind: Kind, profile: string) | OfAddress(address: string) | OfInbox(profile: string)

  function Maximum(key: Key): (m: nat)
    ensures m >= 1
  {
    match key
    case OfProfile(Read, _) => 120
    case OfProfile(Write, _) => 10
    case OfProfile(Transition, _) => 60
    case OfAddress(_) => 30
    case OfInbox(_) => 60
  }

  predicate Expired(w: Option<Window>, now: int) { w.None? || now - w.value.startedAt >= WINDOW }

  predicate Admitted(w: Option<Window>, now: int, maximum: nat) { Expired(w, now) || w.value.count < maximum }

  function Touch(w: Option<Window>, now: int, maximum: nat): Option<Window> {
    if Expired(w, now) then Some(Window(now, 1))
    else if w.value.count < maximum then Some(w.value.(count := w.value.count + 1))
    else w
  }

  /** The seconds a refused caller is told to wait; the clock is read again for them. */
  function RetryAfter(w: Window, later: int): int {
    var seconds := -((later - w.startedAt - WINDOW) / 1000);
    if seconds < 1 then 1 else seconds
  }

  // ---------------------------------------------------------------- one key

  predicate Rising(times: seq<int>) { forall i, j :: 0 <= i <= j < |times| ==> times[i] <= times[j] }

  /** The window after calls at `times`. */
  function After(times: seq<int>, maximum: nat): Option<Window> {
    if times == [] then None
    else Touch(After(times[..|times| - 1], maximum), times[|times| - 1], maximum)
  }

  /** The times of the calls that were let through. */
  function Accepted(times: seq<int>, maximum: nat): seq<int> {
    if times == [] then []
    else
      var before, now := times[..|times| - 1], times[|times| - 1];
      Accepted(before, maximum) + if Admitted(After(before, maximum), now, maximum) then [now] else []
  }

  /** How many of `times` lie in the half-open interval from `from` to `to`. */
  function Within(times: seq<int>, from: int, to: int): nat {
    if times == [] then 0
    else Within(times[..|times| - 1], from, to) + if from <= times[|times| - 1] < to then 1 else 0
  }

  lemma {:induction false} WithinSnoc(times: seq<int>, last: int, from: int, to: int)
    ensures Within(times + [last], from, to) == Within(times, from, to) + if from <= last < to then 1 else 0
  {
    assert (times + [last])[..|times|] == times;
  }

  lemma {:induction false} WithinGrows(times: seq<int>, from: int, to: int, wideFrom: int, wideTo: int)
    requires wideFrom <= from && to <= wideTo
    ensures Within(times, from, to) <= Within(times, wideFrom, wideTo)
  {
    if times != [] { WithinGrows(times[..|times| - 1], from, to, wideFrom, wideTo); }
  }

  lemma {:induction false} NoneWithin(times: seq<int>, from: int, to: int)
    requires forall i :: 0 <= i < |times| ==> !(from <= times[i] < to)
    ensures Within(times, from, to) == 0
  {
    if times != [] { NoneWithin(times[..|times| - 1], from, to); }
  }

  lemma {:induction false} AcceptedAreCalls(times: seq<int>, maximum: nat, bound: int)
    requires forall i :: 0 <= i < |times| ==> times[i] <= bound
    ensures forall i :: 0 <= i < |Accepted(times, maximum)| ==> Accepted(times, maximum)[i] <= bound
  {
    if times != [] { AcceptedAreCalls(times[..|times| - 1], maximum, bound); }
  }

  /** The window counts the accepted calls since its start. */
  ghost predicate WindowCounts(times: seq<int>, maximum: nat)
    requires times != []
  {
    var accepted, w, end := Accepted(times, maximum), After(times, maximum), times[|times| - 1] + 1;
    w.Some? && w.value.startedAt < end && 1 <= w.value.count <= maximum
    && Within(accepted, w.value.startedAt, end) == w.value.count
  }

  lemma {:induction false} RisingSnoc(before: seq<int>, now: int)
    requires Rising(before + [now])
    ensures Rising(before) && forall i :: 0 <= i < |before| ==> before[i] <= now
    ensures before != [] ==>
              before[|before| - 1] <= now && forall i :: 0 <= i < |before| ==> before[i] <= before[|before| - 1]
  {
    var times := before + [now];
    forall i | 0 <= i < |before| ensures before[i] <= now {
      assert times[i] <= times[|before|];
    }
    forall i, j | 0 <= i <= j < |before| ensures before[i] <= before[j] {
      assert times[i] <= times[j];
    }
  }

  lemma {:induction false} NewWindowCounts(accepted: seq<int>, now: int)
    requires forall i :: 0 <= i < |accepted| ==> accepted[i] < now
    ensures Within(accepted + [now], now, now + 1) == 1
  {
    NoneWithin(accepted, now, now + 1);
    WithinSnoc(accepted, now, now, now + 1);
  }

  /** Calls later than all accepted so far fall into no interval that ended by then. */
  lemma {:induction false} WithinEarlier(accepted: seq<int>, bound: int, from: int, to: int)
    requires forall i :: 0 <= i < |accepted| ==> accepted[i] < bound
    requires bound <= to
    ensures Within(accepted, from, to) == Within(accepted, from, bound)
  {
    if accepted != [] { WithinEarlier(accepted[..|accepted| - 1], bound, from, to); }
  }

  lemma {:induction false} FirstCall(now: int, maximum: nat)
    requires maximum >= 1
    ensures WindowCounts([now], maximum)
  {
    assert [now][..0] == [];
    assert Accepted([now], maximum) == [now] && After([now], maximum) == Some(Window(now, 1));
    NewWindowCounts([], now);
    assert [] + [now] == [now];
  }

  /** What one more call does. */
  lemma {:induction false} Appended(before: seq<int>, now: int, maximum: nat)
    ensures After(before + [now], maximum) == Touch(After(before, maximum), now, maximum)
    ensures Accepted(before + [now], maximum)
         == Accepted(before, maximum) + if Admitted(After(before, maximum), now, maximum) then [now] else []
  {
    assert (before + [now])[..|before|] == before;
  }

  lemma {:induction false} WindowExpires(before: seq<int>, now: int, maximum: nat)
    requires before != [] && Rising(before + [now]) && WindowCounts(before, maximum) && maximum >= 1
    requires Expired(After(before, maximum), now)
    ensures WindowCounts(before + [now], maximum)
  {
    hide After, Accepted, Within;
    var accepted, end := Accepted(before, maximum), before[|before| - 1] + 1;
    RisingSnoc(before, now);
    Appended(before, now, maximum);
    AcceptedAreCalls(before, maximum, end - 1);
    if end > now { SameInstant(before, now, maximum); }
    NewWindowCounts(accepted, now);
  }

  /** A window is not expired at the instant of the last call. */
  lemma {:induction false} SameInstant(before: seq<int>, now: int, maximum: nat)
    requires before != [] && now == before[|before| - 1]
    ensures !Expired(After(before, maximum), now)
  {
    var earlier := before[..|before| - 1];
    assert After(before, maximum) == Touch(After(earlier, maximum), now, maximum);
  }

  lemma {:induction false} WindowGoesOn(before: seq<int>, now: int, maximum: nat)
    requires before != [] && Rising(before + [now]) && WindowCounts(before, maximum)
    requires !Expired(After(before, maximum), now)
    ensures WindowCounts(before + [now], maximum)
  {
    hide After, Accepted, Within;
    var accepted, w, end := Accepted(before, maximum), After(before, maximum).value, before[|before| - 1] + 1;
    RisingSnoc(before, now);
    Appended(before, now, maximum);
    AcceptedAreCalls(before, maximum, end - 1);
    WithinEarlier(accepted, end, w.startedAt, now + 1);
    WithinSnoc(accepted, now, w.startedAt, now + 1);
    assert accepted + [] == accepted;
  }

  lemma {:induction false} WindowAlwaysCounts(times: seq<int>, maximum: nat)
    requires times != [] && Rising(times) && maximum >= 1
    ensures WindowCounts(times, maximum)
  {
    hide WindowCounts, Expired;
    var before, now := times[..|times| - 1], times[|times| - 1];
    assert times == before + [now];
    if before == [] {
      FirstCall(now, maximum);
    } else {
      RisingSnoc(before, now);
      WindowAlwaysCounts(before, maximum);
      if Expired(After(before, maximum), now) {
        WindowExpires(before, now, maximum);
      } else {
        WindowGoesOn(before, now, maximum);
      }
    }
  }

  lemma {:induction false} WindowIsOpen(times: seq<int>, maximum: nat)
    requires times != [] && WindowCounts(times, maximum)
    ensures After(times, maximum).Some? && After(times, maximum).value.startedAt <= times[|times| - 1]
  {
  }

  /** A call is refused only if the maximum was let through during the last minute. */
  lemma {:induction false} RefusedMeansFull(times: seq<int>, now: int, maximum: nat)
    requires Rising(times + [now]) && maximum >= 1
    requires !Admitted(After(times, maximum), now, maximum)
    ensures Within(Accepted(times, maximum), now - WINDOW + 1, now + 1) >= maximum
  {
    hide After, Accepted, Within;
    NoWindowYet(maximum);
    RisingSnoc(times, now);
    WindowAlwaysCounts(times, maximum);
    var accepted, w, end := Accepted(times, maximum), After(times, maximum).value, times[|times| - 1] + 1;
    WithinGrows(accepted, w.startedAt, end, now - WINDOW + 1, now + 1);
  }

  lemma {:induction false} NoWindowYet(maximum: nat)
    ensures After([], maximum).None? && Accepted([], maximum) == []
  {
  }

  // ---------------------------------------------------------------- waiting

  /** The announced wait is 1 to 60 seconds, ends with the window, and is not a second too long. */
  lemma {:induction false} WaitIsExact(w: Window, now: int, later: int, maximum: nat)
    requires !Admitted(Some(w), now, maximum) && w.startedAt <= now <= later
    ensures 1 <= RetryAfter(w, later) <= 60
    ensures forall t :: t >= later + 1000 * RetryAfter(w, later) ==> Admitted(Some(w), t, maximum)
    ensures RetryAfter(w, later) > 1 ==> !Admitted(Some(w), later + 1000 * (RetryAfter(w, later) - 1), maximum)
  {
  }

  // ---------------------------------------------------------------- all keys

  datatype Call = Call(key: Key, at: int)

  function Get(windows: map<Key, Window>, key: Key): Option<Window> {
    if key in windows then Some(windows[key]) else None
  }

  /** The windows after a sequence of calls. */
  function Windows(calls: seq<Call>): map<Key, Window> {
    if calls == [] then map[]
    else
      var windows, c := Windows(calls[..|calls| - 1]), calls[|calls| - 1];
      windows[c.key := Touch(Get(windows, c.key), c.at, Maximum(c.key)).value]
  }

  /** The times of the calls with one key. */
  function TimesOf(calls: seq<Call>, key: Key): seq<int> {
    if calls == [] then []
    else TimesOf(calls[..|calls| - 1], key) + if calls[|calls| - 1].key == key then [calls[|calls| - 1].at] else []
  }

  /** The times of the calls with one key that were let through. */
  function Passed(calls: seq<Call>, key: Key): seq<int> {
    if calls == [] then []
    else
      var before, c := calls[..|calls| - 1], calls[|calls| - 1];
      Passed(before, key)
      + if c.key == key && Admitted(Get(Windows(before), key), c.at, Maximum(key)) then [c.at] else []
  }

  predicate ClockRises(calls: seq<Call>) { forall i, j :: 0 <= i <= j < |calls| ==> calls[i].at <= calls[j].at }

  /** Keys do not interfere: what happens to the calls with one key depends on those calls alone. */
  lemma {:induction false} KeysAreIndependent(calls: seq<Call>, key: Key)
    ensures Get(Windows(calls), key) == After(TimesOf(calls, key), Maximum(key))
    ensures Passed(calls, key) == Accepted(TimesOf(calls, key), Maximum(key))
  {
    hide After, Accepted, Admitted, Maximum;
    if calls == [] {
      NoWindowYet(Maximum(key));
    } else {
      var before, c := calls[..|calls| - 1], calls[|calls| - 1];
      KeysAreIndependent(before, key);
      Appended(TimesOf(before, key), c.at, Maximum(key));
      assert TimesOf(before, key) + [] == TimesOf(before, key);
    }
  }

  lemma {:induction false} TimesRise(calls: seq<Call>, key: Key, bound: int)
    requires ClockRises(calls) && forall i :: 0 <= i < |calls| ==> calls[i].at <= bound
    ensures Rising(TimesOf(calls, key))
            && forall i :: 0 <= i < |TimesOf(calls, key)| ==> TimesOf(calls, key)[i] <= bound
  {
    if calls != [] { TimesRise(calls[..|calls| - 1], key, calls[|calls| - 1].at); }
  }

  /** A refused caller that waits as told is let through, if nobody used its key meanwhile, and a second earlier it
      would not be. */
  lemma {:induction false} WaitingPays(calls: seq<Call>, key: Key, now: int, later: int, others: seq<Call>, t: int)
    requires ClockRises(calls + [Call(key, now)]) && now <= later
    requires !Admitted(Get(Windows(calls), key), now, Maximum(key))
    requires forall i :: 0 <= i < |others| ==> others[i].key != key
    ensures var wait := RetryAfter(Get(Windows(calls), key).value, later);
            1 <= wait <= 60
            && (t >= later + 1000 * wait ==>
                 Admitted(Get(Windows(calls + [Call(key, now)] + others), key), t, Maximum(key)))
            && (t == later + 1000 * (wait - 1) && wait > 1
                ==> !Admitted(Get(Windows(calls + [Call(key, now)] + others), key), t, Maximum(key)))
  {
    hide Windows, Maximum, RetryAfter, ClockRises;
    var w := Get(Windows(calls), key);
    WindowHasBegun(calls, key, now);
    OneMoreCall(calls, Call(key, now));
    OthersLeaveTheKey(calls + [Call(key, now)], others, key);
    WaitIsExact(w.value, now, later, Maximum(key));
  }

  lemma {:induction false} OneMoreCall(calls: seq<Call>, c: Call)
    ensures Get(Windows(calls + [c]), c.key) == Touch(Get(Windows(calls), c.key), c.at, Maximum(c.key))
    ensures forall k :: k != c.key ==> Get(Windows(calls + [c]), k) == Get(Windows(calls), k)
  {
    assert (calls + [c])[..|calls|] == calls;
  }

  lemma {:induction false} OthersLeaveTheKey(calls: seq<Call>, others: seq<Call>, key: Key)
    requires forall i :: 0 <= i < |others| ==> others[i].key != key
    ensures Get(Windows(calls + others), key) == Get(Windows(calls), key)
  {
    hide Windows, Maximum;
    if others == [] {
      assert calls + others == calls;
    } else {
      var n := |others| - 1;
      OthersLeaveTheKey(calls, others[..n], key);
      OneMoreCall(calls + others[..n], others[n]);
      assert calls + others == calls + others[..n] + [others[n]];
    }
  }

  lemma {:induction false} WindowHasBegun(calls: seq<Call>, key: Key, now: int)
    requires ClockRises(calls + [Call(key, now)]) && Get(Windows(calls), key).Some?
    ensures Get(Windows(calls), key).value.startedAt <= now
  {
    hide Windows, Accepted, After, WindowCounts, Maximum;
    var all := calls + [Call(key, now)];
    forall i | 0 <= i < |calls| ensures calls[i].at <= now {
      assert all[i].at <= all[|calls|].at;
    }
    forall i, j | 0 <= i <= j < |calls| ensures calls[i].at <= calls[j].at {
      assert all[i].at <= all[j].at;
    }
    TimesRise(calls, key, now);
    KeysAreIndependent(calls, key);
    var times := TimesOf(calls, key);
    if times == [] {
      NoWindowYet(Maximum(key));
    } else {
      WindowAlwaysCounts(times, Maximum(key));
      WindowIsOpen(times, Maximum(key));
    }
  }

  // ---------------------------------------------------------------- the service objects

  function KindText(kind: Kind): string {
    match kind
    case Read => "read"
    case Write => "write"
    case Transition => "transition"
  }

  function Text(kind: Kind, profile: string): string { KindText(kind) + ":" + profile }

  /** Different kinds or profiles never share a map key, whatever characters a profile has. */
  lemma {:induction false} TextsDiffer(kind: Kind, profile: string, otherKind: Kind, otherProfile: string)
    requires Text(kind, profile) == Text(otherKind, otherProfile)
    ensures kind == otherKind && profile == otherProfile
  {
    var t, o := Text(kind, profile), Text(otherKind, otherProfile);
    assert t[0] == KindText(kind)[0] && o[0] == KindText(otherKind)[0];
    assert profile == t[|KindText(kind)| + 1..] && otherProfile == o[|KindText(otherKind)| + 1..];
  }

  /** The window maps of the aftercare service and of the inbox. */
  class Limiter {
    var rateWindows: map<string, Window>
    var ipRateWindows: map<string, Window>
    var requestWindows: map<string, Window>

    function At(key: Key): Option<Window> reads this {
      match key
      case OfProfile(kind, profile) =>
        if Text(kind, profile) in rateWindows then Some(rateWindows[Text(kind, profile)]) else None
      case OfAddress(address) => if address in ipRateWindows then Some(ipRateWindows[address]) else None
      case OfInbox(profile) => if profile in requestWindows then Some(requestWindows[profile]) else None
    }

    ghost predicate Holds(calls: seq<Call>) reads this { forall key: Key :: At(key) == Get(Windows(calls), key) }

    constructor ()
      ensures Holds([])
    {
      rateWindows, ipRateWindows, requestWindows := map[], map[], map[];
    }

    /** The shared statements of the three limiters: the new window to store, if any, and whether the call passes. */
    static method Decide(window: Option<Window>, now: int, maximum: nat) returns (admitted: bool, next: Window)
      requires maximum >= 1
      ensures admitted == Admitted(window, now, maximum) && Some(next) == Touch(window, now, maximum)
    {
      if window.None? || now - window.value.startedAt >= WINDOW { return true, Window(now, 1); }
      if window.value.count >= maximum { return false, window.value; }
      return true, window.value.(count := window.value.count + 1);
    }

    /** Limit a profile; `later` is the second reading of the clock. */
    method Limit(profile: string, kind: Kind, now: int, later: int, ghost calls: seq<Call>)
      returns (retryAfter: Option<int>)
      requires Holds(calls)
      modifies this`rateWindows
      ensures Holds(calls + [Call(OfProfile(kind, profile), now)])
      ensures retryAfter
              == if Admitted(old(At(OfProfile(kind, profile))), now, Maximum(OfProfile(kind, profile))) then None
                            else Some(RetryAfter(old(At(OfProfile(kind, profile))).value, later))
    {
      var maximum := if kind == Read then 120 else if kind == Write then 10 else 60;
      var text := Text(kind, profile);
      var key := OfProfile(kind, profile);
      var window := if text in rateWindows then Some(rateWindows[text]) else None;
      var admitted, next := Decide(window, now, maximum);
      rateWindows := rateWindows[text := next];
      OneMoreCall(calls, Call(key, now));
      forall k: Key ensures At(k) == Get(Windows(calls + [Call(key, now)]), k) {
        if k.OfProfile? && Text(k.kind, k.profile) == text { TextsDiffer(k.kind, k.profile, kind, profile); }
      }
      retryAfter := if admitted then None else Some(RetryAfter(window.value, later));
    }

    method LimitIp(address: string, now: int, later: int, ghost calls: seq<Call>) returns (retryAfter: Option<int>)
      requires Holds(calls)
      modifies this`ipRateWindows
      ensures Holds(calls + [Call(OfAddress(address), now)])
      ensures retryAfter == if Admitted(old(At(OfAddress(address))), now, 30) then None
                            else Some(RetryAfter(old(At(OfAddress(address))).value, later))
    {
      var window := if address in ipRateWindows then Some(ipRateWindows[address]) else None;
      var admitted, next := Decide(window, now, 30);
      ipRateWindows := ipRateWindows[address := next];
      OneMoreCall(calls, Call(OfAddress(address), now));
      retryAfter := if admitted then None else Some(RetryAfter(window.value, later));
    }

    method LimitInbox(profile: string, now: int, ghost calls: seq<Call>) returns (admitted: bool)
      requires Holds(calls)
      modifies this`requestWindows
      ensures Holds(calls + [Call(OfInbox(profile), now)])
      ensures admitted == Admitted(old(At(OfInbox(profile))), now, 60)
    {
      var window := if profile in requestWindows then Some(requestWindows[profile]) else None;
      var next: Window;
      admitted, next := Decide(window, now, 60);
      requestWindows := requestWindows[profile := next];
      OneMoreCall(calls, Call(OfInbox(profile), now));
    }
  }
}
