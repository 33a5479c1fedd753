/** Writing a well-formed file and reading its duration back. */
module Mp4RoundTrip {
  import opened Wrappers
  import opened Mp4

  /** How a box states its size: in 32 bits, in 64 bits after the kind, or as zero, reaching to the end. */
  datatype SizeForm = Short | Long | ToEnd

  datatype Box = Box(kind: seq<byte>, payload: seq<byte>, form: SizeForm)

  function U32Bytes(x: nat): (r: seq<byte>)
    requires x < TWO_32
    ensures |r| == 4
  {
    [x / 0x100_0000, x / 0x1_0000 % 0x100, x / 0x100 % 0x100, x % 0x100]
  }

  function U64Bytes(x: nat): (r: seq<byte>)
    requires x < TWO_32 * TWO_32
    ensures |r| == 8
  {
    U32Bytes(x / TWO_32) + U32Bytes(x % TWO_32)
  }

  /** A box that can be written: a four-byte ASCII kind and a size its form can state, below 2^53. */
  predicate WellFormed(box: Box) {
    |box.kind| == 4 && (forall i :: 0 <= i < 4 ==> box.kind[i] < 128)
    && (box.form == Short ==> |box.payload| + 8 < 0x1_0000_0000)
    && (box.form == Long ==> |box.payload| + 16 < 0x20_0000_0000_0000)
  }

  function HeaderSize(box: Box): nat { if box.form == Long then 16 else 8 }

  function Encode(box: Box): (r: seq<byte>)
    requires WellFormed(box)
    ensures |r| == HeaderSize(box) + |box.payload|
  {
    match box.form
    case Short => U32Bytes(|box.payload| + 8) + box.kind + box.payload
    case Long => U32Bytes(1) + box.kind + U64Bytes(|box.payload| + 16) + box.payload
    case ToEnd => U32Bytes(0) + box.kind + box.payload
  }

  predicate Listable(boxes: seq<Box>) {
    forall i :: 0 <= i < |boxes| ==> WellFormed(boxes[i]) && boxes[i].form != ToEnd
  }

  function EncodeAll(boxes: seq<Box>): seq<byte>
    requires Listable(boxes)
  {
    if boxes == [] then [] else Encode(boxes[0]) + EncodeAll(boxes[1..])
  }

  lemma {:induction false} U32RoundTrip(x: nat)
    requires x < TWO_32
    ensures U32(U32Bytes(x), 0) == x
  {
    var a := x / 0x100;
    var b := a / 0x100;
    assert x / 0x1_0000 == b && x / 0x100_0000 == b / 0x100;
    assert x == a * 0x100 + x % 0x100 && a == b * 0x100 + a % 0x100 && b == (b / 0x100) * 0x100 + b % 0x100;
  }

  lemma {:induction false} U64RoundTrip(x: nat)
    requires x < TWO_32 * TWO_32
    ensures U64(U64Bytes(x), 0) == x
  {
    var b := U64Bytes(x);
    U32RoundTrip(x / TWO_32);
    U32RoundTrip(x % TWO_32);
    assert b[0..4] == U32Bytes(x / TWO_32)[0..4] && b[4..8] == U32Bytes(x % TWO_32)[0..4];
    SameU32(b, 0, U32Bytes(x / TWO_32), 0);
    SameU32(b, 4, U32Bytes(x % TWO_32), 0);
  }

  /** A number written at a position is read back from there. */
  lemma {:induction false} U32At(b: seq<byte>, i: nat, x: nat)
    requires x < TWO_32 && i + 4 <= |b| && b[i..i + 4] == U32Bytes(x)
    ensures U32(b, i) == x
  {
    U32RoundTrip(x);
    assert U32Bytes(x)[0..4] == U32Bytes(x);
    SameU32(b, i, U32Bytes(x), 0);
  }

  lemma {:induction false} U64At(b: seq<byte>, i: nat, x: nat)
    requires x < TWO_32 * TWO_32 && i + 8 <= |b| && b[i..i + 8] == U64Bytes(x)
    ensures U64(b, i) == x
  {
    U64RoundTrip(x);
    assert U64Bytes(x)[0..8] == U64Bytes(x);
    SameU64(b, i, U64Bytes(x), 0);
  }

  /** The parts of an encoded box, wherever it stands. */
  lemma {:induction false} Parts(pre: seq<byte>, box: Box, post: seq<byte>)
    requires WellFormed(box)
    ensures var b, off := pre + Encode(box) + post, |pre|;
            off + HeaderSize(box) + |box.payload| <= |b|
            && b[off..off + 4]
               == U32Bytes(if box.form == Short then |box.payload| + 8 else if box.form == Long then 1 else 0)
            && b[off + 4..off + 8] == box.kind
            && (box.form == Long ==> b[off + 8..off + 16] == U64Bytes(|box.payload| + 16))
            && b[off + HeaderSize(box)..off + HeaderSize(box) + |box.payload|] == box.payload
  {
    hide U32Bytes, U64Bytes;
  }

  lemma {:induction false} AsciiOfPlain(kind: seq<byte>)
    requires forall i :: 0 <= i < |kind| ==> kind[i] < 128
    ensures Ascii(kind) == kind
  {
  }

  /** An encoded box is read back as its header, if it states its size or nothing follows it. */
  lemma {:induction false} HeaderOfEncoded(pre: seq<byte>, box: Box, post: seq<byte>)
    requires WellFormed(box) && (box.form == ToEnd ==> post == [])
    ensures ReadHeader(pre + Encode(box) + post, |pre|) == Some(Header(box.kind, |Encode(box)|, HeaderSize(box)))
  {
    hide U32, U64, U32Bytes, U64Bytes, Encode, Ascii, Double;
    var b, off := pre + Encode(box) + post, |pre|;
    Parts(pre, box, post);
    AsciiOfPlain(box.kind);
    match box.form
    case Short => U32At(b, off, |box.payload| + 8);
    case Long =>
      U32At(b, off, 1);
      U64At(b, off + 8, |box.payload| + 16);
    case ToEnd => U32At(b, off, 0);
  }

  /** Boxes of other kinds are passed over. */
  lemma {:induction false} SkipBoxes(pre: seq<byte>, boxes: seq<Box>, post: seq<byte>, kind: seq<byte>)
    requires Listable(boxes) && forall i :: 0 <= i < |boxes| ==> boxes[i].kind != kind
    ensures FindBox(pre + EncodeAll(boxes) + post, |pre|, kind)
         == FindBox(pre + EncodeAll(boxes) + post, |pre + EncodeAll(boxes)|, kind)
    decreases |boxes|
  {
    hide ReadHeader, Encode;
    if boxes != [] {
      var rest := EncodeAll(boxes[1..]) + post;
      HeaderOfEncoded(pre, boxes[0], rest);
      assert pre + EncodeAll(boxes) + post == pre + Encode(boxes[0]) + rest;
      SkipBoxes(pre + Encode(boxes[0]), boxes[1..], post, kind);
      assert pre + EncodeAll(boxes) + post == (pre + Encode(boxes[0])) + EncodeAll(boxes[1..]) + post;
      assert pre + EncodeAll(boxes) == (pre + Encode(boxes[0])) + EncodeAll(boxes[1..]);
    }
  }

  /** The first box of a kind is found after any list of other boxes. */
  lemma {:induction false} FindsFirst(boxes: seq<Box>, box: Box, post: seq<byte>)
    requires Listable(boxes) && WellFormed(box) && (box.form == ToEnd ==> post == [])
    requires forall i :: 0 <= i < |boxes| ==> boxes[i].kind != box.kind
    ensures FindBox(EncodeAll(boxes) + Encode(box) + post, 0, box.kind)
         == Some(Found(|EncodeAll(boxes)|, Header(box.kind, |Encode(box)|, HeaderSize(box))))
  {
    hide ReadHeader, Encode;
    var pre := EncodeAll(boxes);
    var b := pre + Encode(box) + post;
    assert [] + pre + (Encode(box) + post) == b && [] + pre == pre;
    SkipBoxes([], boxes, Encode(box) + post, box.kind);
    HeaderOfEncoded(pre, box, post);
  }

  // ---------------------------------------------------------------- reading back what was not written here

  lemma {:induction false} U32Bytewise(b: seq<byte>, i: nat)
    requires i + 4 <= |b|
    ensures U32Bytes(U32(b, i)) == b[i..i + 4]
  {
    var x := U32(b, i);
    var w, y, z := b[i] as int, b[i + 1] as int, b[i + 2] as int;
    assert x / 0x100 == w * 0x1_0000 + y * 0x100 + z && x % 0x100 == b[i + 3] as int;
    assert x / 0x1_0000 == w * 0x100 + y && x / 0x100 % 0x100 == z;
    assert x / 0x100_0000 == w && x / 0x1_0000 % 0x100 == y;
  }

  lemma {:induction false} U64Bytewise(b: seq<byte>, i: nat)
    requires i + 8 <= |b|
    ensures U64(b, i) < 0x1_0000_0000 * 0x1_0000_0000 && U64Bytes(U64(b, i)) == b[i..i + 8]
  {
    hide U32, U32Bytes;
    var high, low := U32(b, i), U32(b, i + 4);
    U32Bytewise(b, i);
    U32Bytewise(b, i + 4);
    Halves(high, low);
    assert b[i..i + 8] == b[i..i + 4] + b[i + 4..i + 8];
  }

  lemma {:induction false} Halves(high: nat, low: nat)
    requires high < 0x1_0000_0000 && low < 0x1_0000_0000
    ensures var x := high * 0x1_0000_0000 + low;
            x < 0x1_0000_0000 * 0x1_0000_0000 && x / 0x1_0000_0000 == high && x % 0x1_0000_0000 == low
  {
  }

  /** A kind with the high bits of its bytes cleared. */
  function Plain(kind: seq<byte>): seq<byte> {
    seq(|kind|, i requires 0 <= i < |kind| => if kind[i] >= 128 then (kind[i] - 128) as byte else kind[i])
  }

  /** The bytes at an offset announce a box: its kind, and its size in 32 bits, in 64 bits after a size of 1, or, for a
      size of 0, by the end of the bytes. */
  predicate Announces(b: seq<byte>, off: nat, h: Header, large: nat) {
    off + 8 <= |b| && h.kind == Plain(b[off + 4..off + 8])
    && ((h.header == 8 <= h.size < 0x1_0000_0000 && b[off..off + 4] == U32Bytes(h.size))
        || (h.header == 16 && off + 16 <= |b| && b[off..off + 4] == [0, 0, 0, 1]
            && large < 0x1_0000_0000 * 0x1_0000_0000 && b[off + 8..off + 16] == U64Bytes(large)
            && h.size == Double(large) >= 16)
        || (h.header == 8 && h.size == |b| - off && b[off..off + 4] == [0, 0, 0, 0]))
  }

  /** On arbitrary bytes, exactly: a box header is read at an offset if and only if the bytes there announce it. */
  lemma {:induction false} HeaderIsExact(b: seq<byte>, off: nat, h: Header)
    ensures ReadHeader(b, off) == Some(h) <==> exists large: nat :: Announces(b, off, h, large)
  {
    hide U32, U64, U32Bytes, U64Bytes, Double;
    if off + 8 <= |b| {
      var short := U32(b, off);
      U32Bytewise(b, off);
      SmallNumbers();
      KindIsPlain(b[off + 4..off + 8]);
      if off + 16 <= |b| { U64Bytewise(b, off + 8); }
      if ReadHeader(b, off) == Some(h) {
        assert Announces(b, off, h, if off + 16 <= |b| then U64(b, off + 8) else 0);
      }
      if large: nat :| Announces(b, off, h, large) {
        if h.size < 0x1_0000_0000 && b[off..off + 4] == U32Bytes(h.size) { U32At(b, off, h.size); }
        if h.header == 16 { U64At(b, off + 8, large); }
      }
    }
  }

  lemma {:induction false} SmallNumbers()
    ensures U32Bytes(0) == [0, 0, 0, 0] && U32Bytes(1) == [0, 0, 0, 1]
    ensures forall b: seq<byte>, i: nat :: i + 4 <= |b| && b[i..i + 4] == [0, 0, 0, 0] ==> U32(b, i) == 0
    ensures forall b: seq<byte>, i: nat :: i + 4 <= |b| && b[i..i + 4] == [0, 0, 0, 1] ==> U32(b, i) == 1
  {
    forall b: seq<byte>, i: nat | i + 4 <= |b| && b[i..i + 4] == [0, 0, 0, 0] ensures U32(b, i) == 0 {
      U32At(b, i, 0);
    }
    forall b: seq<byte>, i: nat | i + 4 <= |b| && b[i..i + 4] == [0, 0, 0, 1] ensures U32(b, i) == 1 {
      U32At(b, i, 1);
    }
  }

  lemma {:induction false} KindIsPlain(kind: seq<byte>)
    ensures Ascii(kind) == Plain(kind)
  {
  }

  // ---------------------------------------------------------------- mvhd

  /** The two layouts of the movie header; `tail` is whatever follows the duration. */
  datatype Mvhd =
    | Version0(flags: seq<byte>, times: seq<byte>, timescale: nat, duration: nat, tail: seq<byte>)
    | Version1(flags: seq<byte>, times: seq<byte>, timescale: nat, duration: nat, tail: seq<byte>)

  predicate WellFormedMvhd(m: Mvhd) {
    |m.flags| == 3 && m.timescale < 0x1_0000_0000
    && (m.Version0? ==> |m.times| == 8 && m.duration < 0x1_0000_0000 && |m.tail| >= 4)
    && (m.Version1? ==> |m.times| == 16 && m.duration < 0x1_0000_0000 * 0x1_0000_0000)
  }

  /** The duration in seconds that a header states: none if one of its numbers is zero. A 64-bit duration is taken as
      the nearest double. */
  function Seconds(m: Mvhd): Parsed {
    if m.timescale == 0 || m.duration == 0 then Invalid
    else Duration((if m.Version0? then m.duration else Double(m.duration)) as real / m.timescale as real)
  }

  function EncodeMvhd(m: Mvhd): seq<byte>
    requires WellFormedMvhd(m)
  {
    match m
    case Version0(flags, times, timescale, duration, tail) =>
      [0] + flags + times + U32Bytes(timescale) + U32Bytes(duration) + tail
    case Version1(flags, times, timescale, duration, tail) =>
      [1] + flags + times + U32Bytes(timescale) + U64Bytes(duration) + tail
  }

  lemma {:induction false} MvhdRoundTrip(m: Mvhd)
    requires WellFormedMvhd(m)
    ensures MvhdDuration(EncodeMvhd(m)) == Seconds(m)
  {
    hide U32, U64, U32Bytes, U64Bytes, Double;
    DoubleOfNothing(m.duration);
    var data := EncodeMvhd(m);
    match m
    case Version0(flags, times, timescale, duration, tail) =>
      assert data[12..16] == U32Bytes(timescale) && data[16..20] == U32Bytes(duration);
      U32At(data, 12, timescale);
      U32At(data, 16, duration);
    case Version1(flags, times, timescale, duration, tail) =>
      assert data[20..24] == U32Bytes(timescale) && data[24..32] == U64Bytes(duration);
      U32At(data, 20, timescale);
      U64At(data, 24, duration);
  }

  lemma {:induction false} DoubleOfNothing(x: nat)
    ensures Double(x) == 0 <==> x == 0
  {
  }

  predicate Encodes(m: Mvhd, data: seq<byte>) { WellFormedMvhd(m) && EncodeMvhd(m) == data }

  /** The header that some bytes hold, if they state a duration. */
  lemma {:induction false} HeaderOf(data: seq<byte>) returns (m: Mvhd)
    requires MvhdDuration(data).Duration?
    ensures Encodes(m, data)
  {
    hide U32, U64, U32Bytes, U64Bytes, Double;
    if data[0] == 0 {
      U32Bytewise(data, 12);
      U32Bytewise(data, 16);
      m := Version0(data[1..4], data[4..12], U32(data, 12), U32(data, 16), data[20..]);
    } else {
      U32Bytewise(data, 20);
      U64Bytewise(data, 24);
      m := Version1(data[1..4], data[4..20], U32(data, 20), U64(data, 24), data[32..]);
    }
    assert EncodeMvhd(m) == data;
  }

  /** On arbitrary bytes, exactly: a duration is read if and only if they are a movie header of version 0 or 1 that
      states it. */
  lemma {:induction false} MvhdIsExact(data: seq<byte>, seconds: real)
    ensures MvhdDuration(data) == Duration(seconds)
       <==> exists m :: Encodes(m, data) && Seconds(m) == Duration(seconds)
  {
    hide EncodeMvhd, MvhdDuration, Seconds;
    if MvhdDuration(data) == Duration(seconds) {
      var m := HeaderOf(data);
      MvhdRoundTrip(m);
    }
    if m :| Encodes(m, data) && Seconds(m) == Duration(seconds) { MvhdRoundTrip(m); }
  }

  lemma {:induction false} PayloadOfFound(pre: seq<byte>, box: Box, post: seq<byte>)
    requires WellFormed(box)
    ensures var b := pre + Encode(box) + post;
            Min(|pre| + |Encode(box)|, |b|) == |pre| + |Encode(box)|
            && b[|pre| + HeaderSize(box)..|pre| + |Encode(box)|] == box.payload
  {
    hide Encode;
    Parts(pre, box, post);
  }

  /** The payload of a `moov` with a movie header after any other sub-boxes. */
  lemma {:induction false} MoovRoundTrip(subs: seq<Box>, m: Mvhd, form: SizeForm, rest: seq<byte>)
    requires Listable(subs) && WellFormedMvhd(m) && (form == ToEnd ==> rest == [])
    requires WellFormed(Box(MVHD, EncodeMvhd(m), form))
    requires forall i :: 0 <= i < |subs| ==> subs[i].kind != MVHD
    ensures MoovDuration(EncodeAll(subs) + Encode(Box(MVHD, EncodeMvhd(m), form)) + rest) == Seconds(m)
  {
    hide ReadHeader, Encode, EncodeMvhd, FindBox, EncodeAll, WellFormed, Listable, MvhdDuration, Min, Seconds;
    var mvhd := Box(MVHD, EncodeMvhd(m), form);
    FindsFirst(subs, mvhd, rest);
    PayloadOfFound(EncodeAll(subs), mvhd, rest);
    MvhdRoundTrip(m);
  }

  /** Round trip: the duration written is the duration read, for any boxes before the `moov`, any sub-boxes before the
      `mvhd`, each size form, both header versions, and anything at all behind boxes that state their size. A `moov` of
      more than ten mebibytes is not read. The kinds are the letters of `moov` and `mvhd`. */
  lemma {:induction false} DurationRoundTrip(boxes: seq<Box>, moovForm: SizeForm, after: seq<byte>,
                                             subs: seq<Box>, m: Mvhd, mvhdForm: SizeForm, rest: seq<byte>)
    requires Listable(boxes) && forall i :: 0 <= i < |boxes| ==> boxes[i].kind != [0x6d, 0x6f, 0x6f, 0x76]
    requires Listable(subs) && forall i :: 0 <= i < |subs| ==> subs[i].kind != [0x6d, 0x76, 0x68, 0x64]
    requires WellFormedMvhd(m) && WellFormed(Box([0x6d, 0x76, 0x68, 0x64], EncodeMvhd(m), mvhdForm))
    requires (moovForm == ToEnd ==> after == []) && (mvhdForm == ToEnd ==> rest == [])
    requires var mvhd := Box([0x6d, 0x76, 0x68, 0x64], EncodeMvhd(m), mvhdForm);
             WellFormed(Box([0x6d, 0x6f, 0x6f, 0x76], EncodeAll(subs) + Encode(mvhd) + rest, moovForm))
    ensures var mvhd := Box([0x6d, 0x76, 0x68, 0x64], EncodeMvhd(m), mvhdForm);
            var payload := EncodeAll(subs) + Encode(mvhd) + rest;
            var moov := Box([0x6d, 0x6f, 0x6f, 0x76], payload, moovForm);
            FileDuration(EncodeAll(boxes) + Encode(moov) + after)
            == if |payload| <= 10_485_760 then Seconds(m) else Invalid
  {
    hide ReadHeader, Encode, EncodeMvhd, FindBox, MoovDuration, Seconds;
    assert MOOV == [0x6d, 0x6f, 0x6f, 0x76] && MVHD == [0x6d, 0x76, 0x68, 0x64];
    var payload := EncodeAll(subs) + Encode(Box(MVHD, EncodeMvhd(m), mvhdForm)) + rest;
    var moov := Box(MOOV, payload, moovForm);
    var pre := EncodeAll(boxes);
    var file := pre + Encode(moov) + after;
    FindsFirst(boxes, moov, after);
    Parts(pre, moov, after);
    PaddedIsSlice(file, |pre| + HeaderSize(moov), |payload|);
    MoovRoundTrip(subs, m, mvhdForm, rest);
  }

  lemma {:induction false} PaddedIsSlice(file: seq<byte>, pos: nat, len: nat)
    requires pos + len <= |file|
    ensures Padded(file, pos, len) == file[pos..pos + len]
  {
  }

  /** A box that states its size is announced by its first bytes, wherever the file ends behind them. */
  lemma {:induction false} HeaderOfCut(pre: seq<byte>, box: Box, n: nat)
    requires WellFormed(box) && box.form != ToEnd && |pre| + HeaderSize(box) <= n <= |pre| + |Encode(box)|
    ensures ReadHeader((pre + Encode(box))[..n], |pre|) == Some(Header(box.kind, |Encode(box)|, HeaderSize(box)))
  {
    hide U32, U64, U32Bytes, U64Bytes, Encode, Ascii, Double;
    var b, off := (pre + Encode(box))[..n], |pre|;
    Parts(pre, box, []);
    var whole := pre + Encode(box) + [];
    assert forall i, j :: 0 <= i <= j <= n ==> b[i..j] == whole[i..j];
    AsciiOfPlain(box.kind);
    if box.form == Short {
      U32At(b, off, |box.payload| + 8);
    } else {
      U32At(b, off, 1);
      U64At(b, off + 8, |box.payload| + 16);
    }
  }

  lemma {:induction false} PaddedCut(file: seq<byte>, pos: nat, len: nat, start: seq<byte>)
    requires |start| <= len && pos + |start| <= |file| && file[pos..pos + |start|] == start
    ensures |Padded(file, pos, len)[|start|..]| == len - |start|
            && Padded(file, pos, len) == start + Padded(file, pos, len)[|start|..]
  {
    forall i | 0 <= i < |start| ensures Padded(file, pos, len)[i] == start[i] {
      assert file[pos..pos + |start|][i] == start[i];
    }
  }

  /** A file that is cut off somewhere behind its `mvhd` still has its duration: what a `moov` announces beyond the end
      is read as zeros. */
  lemma {:induction false} CutFileIsRead(boxes: seq<Box>, moovForm: SizeForm, subs: seq<Box>, m: Mvhd,
                                         mvhdForm: SizeForm, rest: seq<byte>, lost: nat)
    requires Listable(boxes) && forall i :: 0 <= i < |boxes| ==> boxes[i].kind != MOOV
    requires Listable(subs) && forall i :: 0 <= i < |subs| ==> subs[i].kind != MVHD
    requires WellFormedMvhd(m) && WellFormed(Box(MVHD, EncodeMvhd(m), mvhdForm))
    requires moovForm != ToEnd && mvhdForm != ToEnd && lost <= |rest|
    requires var payload := EncodeAll(subs) + Encode(Box(MVHD, EncodeMvhd(m), mvhdForm)) + rest;
             WellFormed(Box(MOOV, payload, moovForm)) && |payload| <= MAX_MOOV
    ensures var payload := EncodeAll(subs) + Encode(Box(MVHD, EncodeMvhd(m), mvhdForm)) + rest;
            var file := EncodeAll(boxes) + Encode(Box(MOOV, payload, moovForm));
            FileDuration(file[..|file| - lost]) == Seconds(m)
  {
    hide ReadHeader, Encode, EncodeMvhd, FindBox, MoovDuration, FileDuration, Seconds, Padded, EncodeAll, WellFormed;
    var start := EncodeAll(subs) + Encode(Box(MVHD, EncodeMvhd(m), mvhdForm));
    var moov := Box(MOOV, start + rest, moovForm);
    var pre := EncodeAll(boxes);
    var file := pre + Encode(moov);
    var cut, pos := file[..|file| - lost], |pre| + HeaderSize(moov);
    FoundInCut(boxes, moov, |cut|);
    TooLargeOrPadded(cut, |pre|, moov);
    StartOfCut(pre, moov, |cut|, start);
    PaddedCut(cut, pos, |moov.payload|, start);
    MoovRoundTrip(subs, m, mvhdForm, Padded(cut, pos, |moov.payload|)[|start|..]);
  }

  lemma {:induction false} FoundInCut(boxes: seq<Box>, box: Box, n: nat)
    requires Listable(boxes) && WellFormed(box) && box.form != ToEnd
    requires forall i :: 0 <= i < |boxes| ==> boxes[i].kind != box.kind
    requires |EncodeAll(boxes)| + HeaderSize(box) <= n <= |EncodeAll(boxes)| + |Encode(box)|
    ensures FindBox((EncodeAll(boxes) + Encode(box))[..n], 0, box.kind)
         == Some(Found(|EncodeAll(boxes)|, Header(box.kind, |Encode(box)|, HeaderSize(box))))
  {
    hide ReadHeader, Encode, WellFormed;
    var pre := EncodeAll(boxes);
    var cut := (pre + Encode(box))[..n];
    var behind := cut[|pre|..];
    assert cut == pre + behind && [] + pre + behind == cut && [] + pre == pre;
    SkipBoxes([], boxes, behind, box.kind);
    HeaderOfCut(pre, box, n);
  }

  lemma {:induction false} StartOfCut(pre: seq<byte>, box: Box, n: nat, start: seq<byte>)
    requires WellFormed(box) && start <= box.payload
    requires |pre| + HeaderSize(box) + |start| <= n <= |pre| + |Encode(box)|
    ensures var pos := |pre| + HeaderSize(box);
            (pre + Encode(box))[..n][pos..pos + |start|] == start
  {
    hide Encode;
    var pos := |pre| + HeaderSize(box);
    Parts(pre, box, []);
    var whole := pre + Encode(box) + [];
    assert whole == pre + Encode(box);
    assert whole[pos..pos + |box.payload|][..|start|] == start;
  }

  function Zeros(n: nat): (z: seq<byte>)
    ensures |z| == n
  {
    seq(n, _ => 0)
  }

  /** A file that is cut off anywhere behind the header of its `moov` is read as if zeros stood for what is missing. */
  lemma {:induction false} MissingIsZero(boxes: seq<Box>, payload: seq<byte>, form: SizeForm, n: nat)
    requires Listable(boxes) && forall i :: 0 <= i < |boxes| ==> boxes[i].kind != MOOV
    requires form != ToEnd && WellFormed(Box(MOOV, payload, form))
    requires var moov := Box(MOOV, payload, form);
             |EncodeAll(boxes)| + HeaderSize(moov) <= n <= |EncodeAll(boxes)| + |Encode(moov)|
    ensures var file := EncodeAll(boxes) + Encode(Box(MOOV, payload, form));
            FileDuration(file[..n]) == FileDuration(file[..n] + Zeros(|file| - n))
  {
    hide Encode, FindBox, MoovDuration, EncodeAll, Padded, FileDuration, Listable, Zeros;
    var moov, pre := Box(MOOV, payload, form), EncodeAll(boxes);
    var file, pos := pre + Encode(moov), |pre| + HeaderSize(moov);
    var padded := payload[..n - pos] + Zeros(|file| - n);
    var full := Box(MOOV, padded, form);
    CutAndZeros(pre, moov, n);
    FoundInCut(boxes, moov, n);
    FoundInCut(boxes, full, |file|);
    assert (pre + Encode(full))[..|file|] == pre + Encode(full);
    TooLargeOrPadded(file[..n], |pre|, moov);
    TooLargeOrPadded(pre + Encode(full), |pre|, full);
    PayloadOfCut(pre, moov, n);
    PayloadOfCut(pre, full, |file|);
    assert padded[..|padded|] + Zeros(0) == padded;
  }

  /** What is read of a payload that is cut off. */
  lemma {:induction false} PayloadOfCut(pre: seq<byte>, box: Box, n: nat)
    requires WellFormed(box) && |pre| + HeaderSize(box) <= n <= |pre| + |Encode(box)|
    ensures var pos := |pre| + HeaderSize(box);
            Padded((pre + Encode(box))[..n], pos, |box.payload|)
            == box.payload[..n - pos] + Zeros(pos + |box.payload| - n)
  {
    hide Encode, Padded;
    var pos := |pre| + HeaderSize(box);
    var cut := (pre + Encode(box))[..n];
    PaddedEnd(cut, pos, |box.payload|);
    StartOfCut(pre, box, n, box.payload[..n - pos]);
    assert cut[pos..] == cut[pos..n];
  }

  lemma {:induction false} CutAndZeros(pre: seq<byte>, moov: Box, n: nat)
    requires WellFormed(moov) && moov.form != ToEnd
    requires |pre| + HeaderSize(moov) <= n <= |pre| + |Encode(moov)|
    ensures var file, pos := pre + Encode(moov), |pre| + HeaderSize(moov);
            var full := moov.(payload := moov.payload[..n - pos] + Zeros(|file| - n));
            |full.payload| == |moov.payload| && file[..n] + Zeros(|file| - n) == pre + Encode(full)
  {
    hide U32Bytes, U64Bytes;
  }

  lemma {:induction false} TooLargeOrPadded(file: seq<byte>, off: nat, moov: Box)
    requires WellFormed(moov)
    requires FindBox(file, 0, MOOV) == Some(Found(off, Header(MOOV, |Encode(moov)|, HeaderSize(moov))))
    ensures FileDuration(file)
         == if |moov.payload| > MAX_MOOV then Invalid
            else MoovDuration(Padded(file, off + HeaderSize(moov), |moov.payload|))
  {
    hide FindBox, MoovDuration, Encode, Padded;
  }

  lemma {:induction false} PaddedEnd(file: seq<byte>, pos: nat, len: nat)
    requires pos <= |file| <= pos + len
    ensures Padded(file, pos, len) == file[pos..] + Zeros(pos + len - |file|)
  {
  }
}
