/** The verdict on an upload in terms of its bytes: signatures, sizes and durations, written out. */
module MediaVerdicts {
  import opened Wrappers
  import opened Mp4
  import opened Mp4RoundTrip
  import opened MediaStream

  // ---------------------------------------------------------------- types

  predicate PngBytes(b: seq<byte>) { [0x89, 0x50, 0x4e, 0x47, 0x0d, 0x0a, 0x1a, 0x0a] <= b }

  predicate JpegBytes(b: seq<byte>) { [0xff, 0xd8, 0xff] <= b }

  /** The letters `ftyp` where the kind of a first box stands, in at least twelve bytes. */
  predicate VideoBytes(b: seq<byte>) { |b| >= 12 && b[4..8] == [0x66, 0x74, 0x79, 0x70] && !JpegBytes(b) }

  /** What type bytes are: the three signatures exclude one another. */
  lemma {:induction false} TypesExactly(b: seq<byte>)
    ensures DetectMime(b) == Some(Png) <==> PngBytes(b)
    ensures DetectMime(b) == Some(Jpeg) <==> JpegBytes(b)
    ensures DetectMime(b) == Some(Video) <==> VideoBytes(b)
  {
    if |b| >= 8 {
      assert b[..8][0] == b[0] && b[..8][4] == b[4] == b[..8][4..][0];
      assert |b| >= 12 ==> b[4..8][0] == b[4];
    }
  }

  /** The inspected bytes tell the type of the whole. */
  lemma {:induction false} PrefixTells(all: seq<byte>)
    ensures PngBytes(Prefix(all)) <==> PngBytes(all)
    ensures JpegBytes(Prefix(all)) <==> JpegBytes(all)
    ensures VideoBytes(Prefix(all)) <==> VideoBytes(all)
  {
    var p := Prefix(all);
    assert |all| >= 12 ==> p[4..8] == all[4..8];
    assert |all| >= 8 ==> p[..8] == all[..8];
    assert |all| >= 3 ==> p[..3] == all[..3];
  }

  // ---------------------------------------------------------------- the verdict

  /** The verdict on any bytes: nothing above fifty mebibytes and no image above ten, only the three types, and a video
      only if its walk, or failing that its first 512 bytes, state a duration above zero and up to thirty seconds. */
  lemma {:induction false} VerdictExactly(all: seq<byte>)
    ensures Judge(all)
         == if |all| > 52_428_800 then TooBig
            else if PngBytes(all) || JpegBytes(all) then (if |all| > 10_485_760 then TooBig else Fine(None))
            else if VideoBytes(all) then
              match FileDuration(all)
              case Duration(s) => if 0.0 < s <= 30.0 then Fine(Some(s)) else VideoTooLong
              case Invalid =>
                match Fallback(if |all| <= 512 then all else all[..512])
                case None => InvalidMedia
                case Some(s) => if 0.0 < s <= 30.0 then Fine(Some(s)) else VideoTooLong
            else InvalidMedia
  {
    hide DetectMime, FileDuration, Fallback, PngBytes, JpegBytes, VideoBytes;
    PrefixTells(all);
    TypesExactly(Prefix(all));
    var mime := DetectMime(Prefix(all));
    assert mime.None? || mime.value.Png? || mime.value.Jpeg? || mime.value.Video?;
    assert Prefix(all) == if |all| <= 512 then all else all[..512];
  }

  // ---------------------------------------------------------------- the fallback

  predicate LettersAt(b: seq<byte>, i: nat) { i + 4 <= |b| && b[i..i + 4] == [0x6d, 0x76, 0x68, 0x64] }

  /** The letters `mvhd` stand at `i` for the first time. */
  predicate FirstLetters(b: seq<byte>, i: nat) {
    LettersAt(b, i) && forall j :: 0 <= j < i ==> !LettersAt(b, j)
  }

  lemma {:induction false} FirstLettersFound(b: seq<byte>, i: nat)
    ensures FirstLetters(b, i) <==> IndexOfMvhd(b, 0) == Some(i)
  {
    hide IndexOfMvhd;
    forall j: nat ensures LettersAt(b, j) <==> MvhdAt(b, j) { }
    var found := IndexOfMvhd(b, 0);
    if FirstLetters(b, i) {
      assert MvhdAt(b, i) && found.Some?;
      assert MvhdAt(b, found.value);
    }
  }

  /** The fallback, exactly: behind the first letters `mvhd` it skips twelve bytes, whatever they are, and reads a
      timescale and a duration of 32 bits each; a zero duration is a duration, a zero timescale is none. */
  lemma {:induction false} FallbackExactly(b: seq<byte>, seconds: real)
    ensures Fallback(b) == Some(seconds)
       <==> exists i: nat, timescale: nat, duration: nat :: States(b, i, timescale, duration, seconds)
  {
    hide U32, U32Bytes, IndexOfMvhd;
    if Fallback(b) == Some(seconds) {
      var i := IndexOfMvhd(b, 0).value;
      FirstLettersFound(b, i);
      U32Bytewise(b, i + 16);
      U32Bytewise(b, i + 20);
      assert States(b, i, U32(b, i + 16), U32(b, i + 20), seconds);
    }
    if i: nat, timescale: nat, duration: nat :| States(b, i, timescale, duration, seconds) {
      FirstLettersFound(b, i);
      U32At(b, i + 16, timescale);
      U32At(b, i + 20, duration);
    }
  }

  predicate States(b: seq<byte>, i: nat, timescale: nat, duration: nat, seconds: real) {
    FirstLetters(b, i) && i + 24 <= |b|
    && 0 < timescale < 0x1_0000_0000 && duration < 0x1_0000_0000
    && b[i + 16..i + 20] == U32Bytes(timescale) && b[i + 20..i + 24] == U32Bytes(duration)
    && seconds == duration as real / timescale as real
  }
}
