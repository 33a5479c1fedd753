/** The streaming part of an upload: sizes, the inspected prefix and the detected type, chunk by chunk. */
module MediaStream {
  import opened Wrappers
  import opened Mp4

  const MAX_IMAGE_BYTES := 10 * 1024 * 1024
  const MAX_VIDEO_BYTES := 50 * 1024 * 1024
  const INSPECTED := 512

  datatype Mime = Jpeg | Png | Video

  const PNG_SIGNATURE: seq<byte> := [0x89, 0x50, 0x4e, 0x47, 0x0d, 0x0a, 0x1a, 0x0a]
  const FTYP: seq<byte> := [0x66, 0x74, 0x79, 0x70]

  function DetectMime(b: seq<byte>): Option<Mime> {
    if |b| >= 8 && b[..8] == PNG_SIGNATURE then Some(Png)
    else if |b| >= 3 && b[0] == 0xff && b[1] == 0xd8 && b[2] == 0xff then Some(Jpeg)
    else if |b| >= 12 && b[4..8] == FTYP then Some(Video)
    else None
  }

  predicate IsImage(m: Option<Mime>) { m == Some(Png) || m == Some(Jpeg) }

  /** Once detected, a type does not change when more bytes arrive. */
  lemma {:induction false} DetectionIsStable(b: seq<byte>, more: seq<byte>)
    requires DetectMime(b).Some?
    ensures DetectMime(b + more) == DetectMime(b)
  {
    var all := b + more;
    assert |b| >= 8 ==> all[..8] == b[..8];
    assert |b| >= 12 ==> all[4..8] == b[4..8];
    if DetectMime(b) == Some(Jpeg) && |all| >= 8 {
      assert all[..8][0] == 0xff;
    }
    if DetectMime(b) == Some(Video) {
      assert all[..8] == b[..8];
    }
  }

  /** What a stream amounts to. */
  datatype Outcome = TooLarge | Accepted(mime: Option<Mime>, inspected: seq<byte>, total: nat)

  function Concat(chunks: seq<seq<byte>>): seq<byte> {
    if chunks == [] then [] else Concat(chunks[..|chunks| - 1]) + chunks[|chunks| - 1]
  }

  function Prefix(b: seq<byte>): seq<byte> { b[..Min(INSPECTED, |b|)] }

  /** The check made on a whole byte string at once. */
  function OneShot(all: seq<byte>): Outcome {
    if |all| > MAX_VIDEO_BYTES then TooLarge
    else if IsImage(DetectMime(Prefix(all))) && |all| > MAX_IMAGE_BYTES then TooLarge
    else Accepted(DetectMime(Prefix(all)), Prefix(all), |all|)
  }

  lemma {:induction false} PrefixGrows(b: seq<byte>, more: seq<byte>)
    ensures Prefix(b + more) == Prefix(b) + more[..Min(INSPECTED - |Prefix(b)|, |more|)]
  {
  }

  /** A refusal is final: more bytes never make a stream acceptable. */
  lemma {:induction false} TooLargeStays(b: seq<byte>, more: seq<byte>)
    requires OneShot(b) == TooLarge
    ensures OneShot(b + more) == TooLarge
  {
    hide DetectMime;
    if IsImage(DetectMime(Prefix(b))) {
      PrefixGrows(b, more);
      DetectionIsStable(Prefix(b), more[..Min(INSPECTED - |Prefix(b)|, |more|)]);
    }
  }

  lemma {:induction false} ConcatSplit(chunks: seq<seq<byte>>, i: nat)
    requires i < |chunks|
    ensures Concat(chunks[..i + 1]) == Concat(chunks[..i]) + chunks[i]
  {
    assert chunks[..i + 1][..i] == chunks[..i];
  }

  lemma {:induction false} TooLargeBefore(chunks: seq<seq<byte>>, i: nat)
    requires i <= |chunks| && OneShot(Concat(chunks[..i])) == TooLarge
    ensures OneShot(Concat(chunks)) == TooLarge
    decreases |chunks| - i
  {
    hide OneShot, Concat;
    if i < |chunks| {
      ConcatSplit(chunks, i);
      TooLargeStays(Concat(chunks[..i]), chunks[i]);
      TooLargeBefore(chunks, i + 1);
    } else {
      assert chunks[..i] == chunks;
    }
  }

  /** The loop over the chunks. Its outcome depends on their concatenation only: it is the one-shot check. */
  method Consume(chunks: seq<seq<byte>>) returns (r: Outcome)
    ensures r == OneShot(Concat(chunks))
  {
    hide DetectMime, Concat;
    var inspected := new byte[INSPECTED](_ => 0);
    var inspectedBytes, total := 0, 0;
    var mime: Option<Mime> := None;
    ghost var seen: seq<byte> := [];
    NothingSeen(chunks);
    for i := 0 to |chunks|
      invariant seen == Concat(chunks[..i]) && total == |seen|
      invariant inspectedBytes <= INSPECTED && inspected[..inspectedBytes] == Prefix(seen)
      invariant mime == DetectMime(Prefix(seen))
      invariant OneShot(seen) != TooLarge
    {
      var chunk := chunks[i];
      ConcatSplit(chunks, i);
      PrefixGrows(seen, chunk);
      ghost var before := seen;
      seen := seen + chunk;
      total := total + |chunk|;
      if total > MAX_VIDEO_BYTES {
        TooLargeBefore(chunks, i + 1);
        return TooLarge;
      }
      var amount := Min(inspected.Length - inspectedBytes, |chunk|);
      if amount > 0 {
        Copy(inspected, inspectedBytes, chunk[..amount]);
        inspectedBytes := inspectedBytes + amount;
      }
      assert inspected[..inspectedBytes] == Prefix(seen);
      if mime.None? {
        mime := DetectMime(inspected[..inspectedBytes]);
      } else {
        DetectionIsStable(Prefix(before), chunk[..amount]);
      }
      if IsImage(mime) && total > MAX_IMAGE_BYTES {
        TooLargeBefore(chunks, i + 1);
        return TooLarge;
      }
    }
    assert chunks[..|chunks|] == chunks;
    return Accepted(mime, inspected[..inspectedBytes], total);
  }

  lemma {:induction false} NothingSeen(chunks: seq<seq<byte>>)
    ensures Concat(chunks[..0]) == [] && DetectMime([]).None?
  {
  }

  method Copy(target: array<byte>, at: nat, source: seq<byte>)
    requires at + |source| <= target.Length
    modifies target
    ensures target[..at + |source|] == old(target[..at]) + source
    ensures target[at + |source|..] == old(target[at + |source|..])
  {
    for i := 0 to |source|
      invariant target[..at + i] == old(target[..at]) + source[..i]
      invariant target[at + i..] == old(target[at + i..])
    {
      target[at + i] := source[i];
    }
  }

  // ---------------------------------------------------------------- the duration of a video

  predicate MvhdAt(b: seq<byte>, i: nat) { i + 4 <= |b| && b[i..i + 4] == MVHD }

  /** The first occurrence of the letters `mvhd`. */
  function IndexOfMvhd(b: seq<byte>, from: nat): (r: Option<nat>)
    ensures r.Some? ==> from <= r.value && MvhdAt(b, r.value) && forall j :: from <= j < r.value ==> !MvhdAt(b, j)
    ensures r.None? ==> forall j :: from <= j ==> !MvhdAt(b, j)
    decreases |b| - from
  {
    if from + 4 > |b| then None
    else if MvhdAt(b, from) then Some(from)
    else IndexOfMvhd(b, from + 1)
  }

  /** The fallback: a version 0 header assumed at the first `mvhd` among the inspected bytes. A zero duration is
      returned, not refused. */
  function Fallback(b: seq<byte>): Option<real> {
    match IndexOfMvhd(b, 0)
    case None => None
    case Some(i) =>
      if |b| < i + 24 || U32(b, i + 16) == 0 then None
      else Some(U32(b, i + 20) as real / U32(b, i + 16) as real)
  }

  datatype Verdict = Fine(seconds: Option<real>) | InvalidMedia | VideoTooLong | TooBig

  /** The verdict on a finished upload: its type, and for a video a duration in (0, 30] from the walk or, if that fails,
      from the fallback. */
  function Judge(all: seq<byte>): Verdict {
    match OneShot(all)
    case TooLarge => TooBig
    case Accepted(mime, inspected, _) =>
      if mime.None? then InvalidMedia
      else if mime != Some(Video) then Fine(None)
      else
        var seconds := match FileDuration(all) case Duration(s) => Some(s) case Invalid => Fallback(inspected);
        if seconds.None? then InvalidMedia
        else if seconds.value <= 0.0 || seconds.value > 30.0 then VideoTooLong
        else Fine(seconds)
  }

  method Upload(chunks: seq<seq<byte>>) returns (r: Verdict)
    ensures r == Judge(Concat(chunks))
  {
    hide DetectMime, FileDuration, Fallback;
    var outcome := Consume(chunks);
    if outcome == TooLarge { return TooBig; }
    if outcome.mime.None? { return InvalidMedia; }
    if outcome.mime != Some(Video) { return Fine(None); }
    var parsed := GetMp4Duration(Concat(chunks));
    var seconds := match parsed case Duration(s) => Some(s) case Invalid => Fallback(outcome.inspected);
    if seconds.None? { return InvalidMedia; }
    if seconds.value <= 0.0 || seconds.value > 30.0 { return VideoTooLong; }
    return Fine(seconds);
  }

  /** What is accepted was small enough for its type, and a video's duration lies in (0, 30]. */
  lemma {:induction false} AcceptedIsWithinLimits(all: seq<byte>)
    requires Judge(all).Fine?
    ensures |all| <= MAX_VIDEO_BYTES
    ensures Judge(all).seconds.None? ==> |all| <= MAX_IMAGE_BYTES
    ensures Judge(all).seconds.Some? ==> 0.0 < Judge(all).seconds.value <= 30.0
  {
    hide DetectMime, FileDuration, Fallback;
    var mime := OneShot(all).mime;
    assert mime.value.Jpeg? || mime.value.Png? || mime.value.Video?;
  }
}
