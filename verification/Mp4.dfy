/** The duration of an MP4 file: a walk over its top-level boxes to the first `moov`, then over that box's
    sub-boxes to the first `mvhd` (ISO/IEC 14496-12, sections 4.2, 8.2.1 and 8.2.2). */
module Mp4 {
  import opened Wrappers

  type byte = x: int | 0 <= x < 256

  const MOOV: seq<byte> := [0x6d, 0x6f, 0x6f, 0x76]
  const MVHD: seq<byte> := [0x6d, 0x76, 0x68, 0x64]
  const MAX_MOOV := 10 * 1024 * 1024
  const TWO_32 := 0x1_0000_0000
  const TWO_53 := 0x20_0000_0000_0000

  datatype Parsed = Duration(seconds: real) | Invalid

  function U32(b: seq<byte>, i: nat): (x: nat)
    requires i + 4 <= |b|
    ensures x < TWO_32
  {
    (b[i] as int) * 0x100_0000 + (b[i + 1] as int) * 0x1_0000 + (b[i + 2] as int) * 0x100 + b[i + 3] as int
  }

  function U64(b: seq<byte>, i: nat): nat
    requires i + 8 <= |b|
  {
    U32(b, i) * TWO_32 + U32(b, i + 4)
  }

  /** The spacing of doubles around `x`, at least `u`. */
  function Spacing(x: nat, u: nat): (r: nat)
    requires u > 0 && (u == 1 || TWO_53 * u <= 2 * x)
    ensures r > 0 && x < TWO_53 * r && (r == 1 || TWO_53 * r <= 2 * x)
    decreases x - u
  {
    if x < TWO_53 * u then u else Spacing(x, 2 * u)
  }

  /** An integer converted to a double: exact below 2^53, otherwise rounded to the nearest multiple of the spacing,
      ties to even. */
  function Double(x: nat): (d: nat)
    ensures x < TWO_53 ==> d == x
    ensures x >= TWO_53 ==> d >= TWO_53
  {
    if x < TWO_53 then x
    else
      var u := Spacing(x, 1);
      var q, r := x / u, x % u;
      DoubleIsLarge(x, u, q);
      if 2 * r < u || (2 * r == u && q % 2 == 0) then q * u else (q + 1) * u
  }

  lemma {:induction false} DoubleIsLarge(x: nat, u: nat, q: nat)
    requires u > 0 && x >= TWO_53 && (u == 1 || TWO_53 * u <= 2 * x) && q == x / u
    ensures q * u >= TWO_53 && (q + 1) * u >= TWO_53
  {
    if u == 1 {
      assert q * u == x;
    } else {
      QuotientAtLeast(x, u, TWO_53 / 2);
      assert q * u >= (TWO_53 / 2) * u >= TWO_53;
    }
  }

  lemma {:induction false} QuotientAtLeast(x: nat, u: nat, k: nat)
    requires u > 0 && k * u <= x
    ensures x / u >= k
  {
    if x / u < k {
      ProductGrows(x / u + 1, k, u);
      assert false;
    }
  }

  lemma {:induction false} ProductGrows(a: nat, b: nat, u: nat)
    requires a <= b
    ensures a * u <= b * u
  {
  }

  // ---------------------------------------------------------------- rounding

  predicate PowerOfTwo(u: nat) { u == 1 || (u >= 2 && u % 2 == 0 && PowerOfTwo(u / 2)) }

  /** The whole numbers a double can hold: 53 bits times a power of two. */
  ghost predicate Representable(d: nat) { exists q: nat, u: nat :: Scaled(d, q, u) }

  predicate Scaled(d: nat, q: nat, u: nat) { PowerOfTwo(u) && q <= TWO_53 && d == q * u }

  lemma {:induction false} SpacingIsPower(x: nat, u: nat)
    requires u > 0 && (u == 1 || TWO_53 * u <= 2 * x) && PowerOfTwo(u)
    ensures PowerOfTwo(Spacing(x, u))
    decreases x - u
  {
    if x >= TWO_53 * u {
      assert 2 * u / 2 == u;
      SpacingIsPower(x, 2 * u);
    }
  }

  /** Of two powers of two the smaller divides the larger. */
  lemma {:induction false} PowersDivide(u: nat, v: nat) returns (k: nat)
    requires PowerOfTwo(u) && PowerOfTwo(v) && u <= v
    ensures v == k * u && k >= 1
  {
    if u == 1 {
      k := v;
    } else {
      k := PowersDivide(u / 2, v / 2);
      assert v == 2 * (v / 2) == 2 * (k * (u / 2)) == k * (2 * (u / 2)) == k * u;
    }
  }

  lemma {:induction false} HalfPower(v: nat, u: nat)
    requires PowerOfTwo(u) && PowerOfTwo(v) && v < u
    ensures 2 * v <= u
  {
    var k := PowersDivide(v, u);
    assert k != 1;
    ProductGrows(2, k, v);
  }

  function Distance(a: nat, b: nat): nat { if a <= b then b - a else a - b }

  /** No multiple of the spacing is nearer than the one the remainder chooses. */
  lemma {:induction false} NoMultipleNearer(a: nat, r: nat, u: nat, m: nat)
    requires r < u
    ensures Distance(m * u, a * u + r) >= if 2 * r <= u then r else u - r
  {
    assert (a + 1) * u == a * u + u;
    if m <= a { ProductGrows(m, a, u); } else { ProductGrows(a + 1, m, u); }
  }

  /** How far the rounding moves a large number, and that it goes to the even neighbour from halfway. */
  lemma {:induction false} RoundingDistance(x: nat)
    requires x >= TWO_53
    ensures var u := Spacing(x, 1);
            var a, r := x / u, x % u;
            x == a * u + r && Distance(Double(x), x) == (if 2 * r <= u then r else u - r)
            && (Double(x) == a * u || Double(x) == (a + 1) * u)
            && (2 * r == u ==> Double(x) == (if a % 2 == 0 then a else a + 1) * u)
  {
    hide Spacing;
    var u := Spacing(x, 1);
    var a, r := x / u, x % u;
    assert x == a * u + r && (a + 1) * u == a * u + u;
  }

  /** No number that a double can hold is nearer to a large integer than its rounding. */
  lemma {:induction false} NoneIsNearer(x: nat, q: nat, v: nat)
    requires x >= TWO_53 && q <= TWO_53 && PowerOfTwo(v)
    ensures Distance(Double(x), x) <= Distance(q * v, x)
  {
    hide Double, Spacing;
    var u := Spacing(x, 1);
    var a, r := x / u, x % u;
    SpacingIsPower(x, 1);
    RoundingDistance(x);
    if u <= v {
      var k := PowersDivide(u, v);
      Regroup(q, k, u);
      NoMultipleNearer(a, r, u, q * k);
    } else {
      SmallScaleIsFar(x, u, q, v);
    }
  }

  lemma {:induction false} Regroup(q: nat, k: nat, u: nat)
    ensures q * (k * u) == (q * k) * u
  {
  }

  /** A double can hold the number it is given, and no number it can hold is nearer to the integer. */
  lemma {:induction false} DoubleIsNearest(x: nat, y: nat)
    requires Representable(y)
    ensures Representable(Double(x)) && Distance(Double(x), x) <= Distance(y, x)
  {
    if x < TWO_53 {
      assert Scaled(x, x, 1);
    } else {
      hide Double, Spacing;
      var u := Spacing(x, 1);
      SpacingIsPower(x, 1);
      RoundingDistance(x);
      QuotientBelow(x, u);
      assert Scaled(Double(x), if Double(x) == (x / u) * u then x / u else x / u + 1, u);
      var q: nat, v: nat :| Scaled(y, q, v);
      NoneIsNearer(x, q, v);
    }
  }

  lemma {:induction false} QuotientBelow(x: nat, u: nat)
    requires u > 0 && x < TWO_53 * u
    ensures x / u < TWO_53
  {
    assert x == (x / u) * u + x % u;
    FactorBelow(x / u, TWO_53, u);
  }

  lemma {:induction false} FactorBelow(a: nat, b: nat, u: nat)
    requires a * u < b * u
    ensures a < b
  {
    if b <= a { ProductGrows(b, a, u); }
  }

  /** A number of a finer scale lies below the last multiple of the spacing. */
  lemma {:induction false} SmallScaleIsFar(x: nat, u: nat, q: nat, v: nat)
    requires u > 1 && TWO_53 * u <= 2 * x && q <= TWO_53 && PowerOfTwo(u) && PowerOfTwo(v) && v < u
    ensures q * v <= x && x - q * v >= x % u
  {
    HalfPower(v, u);
    ProductGrows(q, TWO_53, v);
    QuotientAtLeast(x, u, TWO_53 / 2);
    ProductGrows(TWO_53 / 2, x / u, u);
    assert x == (x / u) * u + x % u;
  }

  /** Decoding a byte as ASCII drops its high bit. */
  function Ascii(b: seq<byte>): seq<byte> { seq(|b|, i requires 0 <= i < |b| => b[i] % 128) }

  // ---------------------------------------------------------------- specification

  datatype Header = Header(kind: seq<byte>, size: nat, header: nat)

  /** The box header at an offset: none when it is cut off or its size is smaller than itself.
      Size 1 announces a 64-bit size, size 0 a box that reaches to the end. */
  function ReadHeader(b: seq<byte>, off: nat): (r: Option<Header>)
    ensures r.Some? ==> off + r.value.header <= |b| && 8 <= r.value.header <= r.value.size
  {
    if off + 8 > |b| then None
    else
      var kind := Ascii(b[off + 4..off + 8]);
      var short := U32(b, off);
      if short == 1 then
        if off + 16 > |b| then None
        else if Double(U64(b, off + 8)) < 16 then None
        else Some(Header(kind, Double(U64(b, off + 8)), 16))
      else if short == 0 then Some(Header(kind, |b| - off, 8))
      else if short < 8 then None
      else Some(Header(kind, short, 8))
  }

  datatype Found = Found(start: nat, header: Header)

  /** The first box of a kind at or after an offset. */
  function FindBox(b: seq<byte>, off: nat, kind: seq<byte>): (r: Option<Found>)
    ensures r.Some? ==> ReadHeader(b, r.value.start) == Some(r.value.header) && r.value.header.kind == kind
    decreases |b| - off
  {
    match ReadHeader(b, off)
    case None => None
    case Some(h) => if h.kind == kind then Some(Found(off, h)) else FindBox(b, off + h.size, kind)
  }

  /** A way through the boxes from the start: each one passed over is readable, of another kind, and ends where the
      next begins. */
  predicate Passes(b: seq<byte>, path: seq<nat>, kind: seq<byte>) {
    path != [] && path[0] == 0
    && forall i :: 0 <= i < |path| - 1 ==>
         ReadHeader(b, path[i]).Some? && ReadHeader(b, path[i]).value.kind != kind
         && path[i + 1] == path[i] + ReadHeader(b, path[i]).value.size
  }

  /** Any way through other boxes leads to the box that is found, or to the same failure. */
  lemma {:induction false} PassingChangesNothing(b: seq<byte>, path: seq<nat>, kind: seq<byte>)
    requires Passes(b, path, kind)
    ensures FindBox(b, 0, kind) == FindBox(b, path[|path| - 1], kind)
    decreases |path|
  {
    hide FindBox, ReadHeader;
    var n := |path| - 1;
    if n > 0 {
      assert Passes(b, path[..n], kind);
      PassingChangesNothing(b, path[..n], kind);
      assert path[n - 1 + 1] == path[n - 1] + ReadHeader(b, path[n - 1]).value.size;
      PassOne(b, path[n - 1], kind);
    }
  }

  lemma {:induction false} PassOne(b: seq<byte>, off: nat, kind: seq<byte>)
    requires ReadHeader(b, off).Some? && ReadHeader(b, off).value.kind != kind
    ensures FindBox(b, off, kind) == FindBox(b, off + ReadHeader(b, off).value.size, kind)
  {
    hide ReadHeader;
  }

  /** A way through the boxes goes on over one more box of another kind. */
  lemma {:induction false} PassesOn(b: seq<byte>, path: seq<nat>, kind: seq<byte>)
    requires Passes(b, path, kind)
    requires var h := ReadHeader(b, path[|path| - 1]); h.Some? && h.value.kind != kind
    ensures var off := path[|path| - 1]; Passes(b, path + [off + ReadHeader(b, off).value.size], kind)
  {
    hide ReadHeader;
    var off := path[|path| - 1];
    var longer := path + [off + ReadHeader(b, off).value.size];
    forall i | 0 <= i < |longer| - 1
      ensures ReadHeader(b, longer[i]).Some? && ReadHeader(b, longer[i]).value.kind != kind
              && longer[i + 1] == longer[i] + ReadHeader(b, longer[i]).value.size
    {
      if i < |path| - 1 { assert longer[i] == path[i] && longer[i + 1] == path[i + 1]; }
    }
  }

  /** What is found is reached by passing over other boxes only: it is the first of its kind. */
  lemma {:induction false} FoundIsFirst(b: seq<byte>, kind: seq<byte>, before: seq<nat>) returns (path: seq<nat>)
    requires before != [] && Passes(b, before, kind) && FindBox(b, before[|before| - 1], kind).Some?
    ensures Passes(b, path, kind) && FindBox(b, 0, kind).Some? && path[|path| - 1] == FindBox(b, 0, kind).value.start
    decreases |b| - before[|before| - 1]
  {
    hide FindBox, ReadHeader, Passes;
    PassingChangesNothing(b, before, kind);
    var off := before[|before| - 1];
    FindOne(b, off, kind);
    var h := ReadHeader(b, off).value;
    if h.kind == kind {
      path := before;
    } else {
      PassesOn(b, before, kind);
      path := FoundIsFirst(b, kind, before + [off + h.size]);
    }
  }

  /** One step of the search. */
  lemma {:induction false} FindOne(b: seq<byte>, off: nat, kind: seq<byte>)
    requires FindBox(b, off, kind).Some?
    ensures var h := ReadHeader(b, off);
            h.Some? && FindBox(b, off, kind)
            == if h.value.kind == kind then Some(Found(off, h.value)) else FindBox(b, off + h.value.size, kind)
  {
    hide ReadHeader;
  }

  predicate LeadsTo(b: seq<byte>, path: seq<nat>, kind: seq<byte>, f: Found) {
    Passes(b, path, kind) && path[|path| - 1] == f.start
  }

  /** The search finds exactly the first box of its kind. */
  lemma {:induction false} FindBoxIsExact(b: seq<byte>, kind: seq<byte>, f: Found)
    ensures FindBox(b, 0, kind) == Some(f)
       <==> ReadHeader(b, f.start) == Some(f.header) && f.header.kind == kind
            && exists path :: LeadsTo(b, path, kind, f)
  {
    if path :| LeadsTo(b, path, kind, f) { PassingChangesNothing(b, path, kind); }
    if FindBox(b, 0, kind) == Some(f) {
      assert Passes(b, [0], kind);
      var path := FoundIsFirst(b, kind, [0]);
      assert LeadsTo(b, path, kind, f);
    }
  }

  function Min(x: int, y: int): int { if x < y then x else y }

  /** What a read of `len` bytes at a position leaves in a zeroed buffer. */
  function Padded(file: seq<byte>, pos: nat, len: nat): (r: seq<byte>)
    ensures |r| == len
  {
    seq(len, i requires 0 <= i < len => if pos + i < |file| then file[pos + i] else 0)
  }

  function MvhdDuration(data: seq<byte>): Parsed {
    if |data| < 24 then Invalid
    else if data[0] == 0 then Ratio(U32(data, 16), U32(data, 12))
    else if data[0] == 1 then (if |data| < 32 then Invalid else Ratio(Double(U64(data, 24)), U32(data, 20)))
    else Invalid
  }

  function Ratio(duration: nat, timescale: nat): Parsed {
    if timescale == 0 || duration == 0 then Invalid else Duration(duration as real / timescale as real)
  }

  function MoovDuration(moov: seq<byte>): Parsed {
    match FindBox(moov, 0, MVHD)
    case None => Invalid
    case Some(f) => MvhdDuration(moov[f.start + f.header.header..Min(f.start + f.header.size, |moov|)])
  }

  /** First top-level `moov`, then its first `mvhd`. */
  function FileDuration(file: seq<byte>): Parsed {
    match FindBox(file, 0, MOOV)
    case None => Invalid
    case Some(f) =>
      var len := f.header.size - f.header.header;
      if len > MAX_MOOV then Invalid else MoovDuration(Padded(file, f.start + f.header.header, len))
  }

  // ---------------------------------------------------------------- the two loops

  /** A positioned read into a buffer: as many bytes as the file still has. */
  method ReadAt(file: seq<byte>, buf: array<byte>, pos: nat) returns (bytesRead: nat)
    modifies buf
    ensures bytesRead == if pos >= |file| then 0 else Min(buf.Length, |file| - pos)
    ensures forall i :: 0 <= i < bytesRead ==> buf[i] == file[pos + i]
    ensures forall i :: bytesRead <= i < buf.Length ==> buf[i] == old(buf[i])
  {
    bytesRead := if pos >= |file| then 0 else Min(buf.Length, |file| - pos);
    for i := 0 to bytesRead
      invariant forall k :: 0 <= k < i ==> buf[k] == file[pos + k]
      invariant forall k :: i <= k < buf.Length ==> buf[k] == old(buf[k])
    {
      buf[i] := file[pos + i];
    }
  }

  lemma {:induction false} SameU32(a: seq<byte>, i: nat, b: seq<byte>, j: nat)
    requires i + 4 <= |a| && j + 4 <= |b| && a[i..i + 4] == b[j..j + 4]
    ensures U32(a, i) == U32(b, j)
  {
    assert a[i] == a[i..i + 4][0] && a[i + 1] == a[i..i + 4][1] && a[i + 2] == a[i..i + 4][2]
           && a[i + 3] == a[i..i + 4][3];
    assert b[j] == b[j..j + 4][0] && b[j + 1] == b[j..j + 4][1] && b[j + 2] == b[j..j + 4][2]
           && b[j + 3] == b[j..j + 4][3];
  }

  lemma {:induction false} SameU64(a: seq<byte>, i: nat, b: seq<byte>, j: nat)
    requires i + 8 <= |a| && j + 8 <= |b| && a[i..i + 8] == b[j..j + 8]
    ensures U64(a, i) == U64(b, j)
  {
    assert a[i..i + 4] == a[i..i + 8][..4] && b[j..j + 4] == b[j..j + 8][..4];
    assert a[i + 4..i + 8] == a[i..i + 8][4..] && b[j + 4..j + 8] == b[j..j + 8][4..];
    SameU32(a, i, b, j);
    SameU32(a, i + 4, b, j + 4);
  }

  /** The header at an offset, read with two positioned reads into fresh buffers. */
  method FetchHeader(file: seq<byte>, offset: nat) returns (r: Option<Header>)
    ensures r == ReadHeader(file, offset)
  {
    var headerBuf := new byte[8](_ => 0);
    var bytesRead := ReadAt(file, headerBuf, offset);
    if bytesRead < 8 { return None; }
    assert headerBuf[..] == file[offset..offset + 8];
    SameHeader(headerBuf[..], file, offset);
    var boxSize := U32(headerBuf[..], 0);
    var boxType := Ascii(headerBuf[4..8]);
    var headerSize := 8;
    if boxSize == 1 {
      var extHeader := new byte[8](_ => 0);
      var extRead := ReadAt(file, extHeader, offset + 8);
      if extRead < 8 { return None; }
      assert extHeader[..] == file[offset + 8..offset + 16];
      SameU64(extHeader[..], 0, file, offset + 8);
      boxSize := Double(U64(extHeader[..], 0));
      headerSize := 16;
    } else if boxSize == 0 {
      boxSize := |file| - offset;
    }
    if boxSize < headerSize { return None; }
    return Some(Header(boxType, boxSize, headerSize));
  }

  lemma {:induction false} SameHeader(head: seq<byte>, file: seq<byte>, offset: nat)
    requires offset + 8 <= |file| && head == file[offset..offset + 8]
    ensures U32(head, 0) == U32(file, offset) && head[4..8] == file[offset + 4..offset + 8]
  {
    assert head[0..4] == file[offset..offset + 4];
    SameU32(head, 0, file, offset);
  }

  /** The sub-box header of a `moov` already in memory. */
  method SubHeader(moov: seq<byte>, subOffset: nat) returns (r: Option<Header>)
    requires subOffset < |moov|
    ensures r == ReadHeader(moov, subOffset)
  {
    if subOffset + 8 > |moov| { return None; }
    var subSize := U32(moov, subOffset);
    var subType := Ascii(moov[subOffset + 4..subOffset + 8]);
    var subHeaderSize := 8;
    if subSize == 1 && subOffset + 16 <= |moov| {
      subSize := Double(U64(moov, subOffset + 8));
      subHeaderSize := 16;
    } else if subSize == 0 {
      subSize := |moov| - subOffset;
    }
    if subSize < subHeaderSize { return None; }
    return Some(Header(subType, subSize, subHeaderSize));
  }

  method WalkMoov(moov: seq<byte>) returns (r: Parsed)
    ensures r == MoovDuration(moov)
  {
    hide ReadHeader, MvhdDuration;
    var subOffset := 0;
    while subOffset < |moov|
      invariant FindBox(moov, 0, MVHD) == FindBox(moov, subOffset, MVHD)
      decreases |moov| - subOffset
    {
      var h := SubHeader(moov, subOffset);
      if h.None? { return Invalid; }
      if h.value.kind == MVHD {
        return MvhdDuration(moov[subOffset + h.value.header..Min(subOffset + h.value.size, |moov|)]);
      }
      subOffset := subOffset + h.value.size;
    }
    NothingAtTheEnd(moov, subOffset);
    return Invalid;
  }

  lemma {:induction false} NothingAtTheEnd(b: seq<byte>, off: nat)
    requires off >= |b|
    ensures ReadHeader(b, off).None?
  {
  }

  /** The whole walk terminates on arbitrary bytes, reads no byte outside a buffer, and computes the specification. */
  method GetMp4Duration(file: seq<byte>) returns (r: Parsed)
    ensures r == FileDuration(file)
  {
    hide ReadHeader, MoovDuration;
    var offset := 0;
    while offset < |file|
      invariant FindBox(file, 0, MOOV) == FindBox(file, offset, MOOV)
      decreases |file| - offset
    {
      var h := FetchHeader(file, offset);
      if h.None? { return Invalid; }
      if h.value.kind == MOOV {
        var moovDataSize := h.value.size - h.value.header;
        if moovDataSize > MAX_MOOV { return Invalid; }
        var moovBuf := new byte[moovDataSize](_ => 0);
        var bytesRead := ReadAt(file, moovBuf, offset + h.value.header);
        assert moovBuf[..] == Padded(file, offset + h.value.header, moovDataSize);
        r := WalkMoov(moovBuf[..]);
        return;
      }
      offset := offset + h.value.size;
    }
    NothingAtTheEnd(file, offset);
    return Invalid;
  }
}
