/** Bytes on the wire: the fixed-width little-endian integers of the packed frame structs,
    the 8-byte frame header, and a write cursor over a preallocated buffer. */
module Wire {

  /** The result of a parse or a lookup that can fail. */
  datatype Option<T> = None | Some(value: T)

  /** One octet. */
  type byte = x: int | 0 <= x < 256

  /** The octet a C store into an 8-bit field leaves: the value modulo 2^8 (two's complement). */
  function Byte(x: int): byte { x % 256 }

  /** Reading an `int8_t` (or a signed `char`). */
  function AsInt8(b: byte): int { if b < 128 then b else b - 256 }

  /** An `int16_t` as the x86 layout stores it: two bytes, low byte first, modulo 2^16. */
  function LE16(x: int): (r: seq<byte>)
    ensures |r| == 2
  {
    var u := x % 0x1_0000;
    [u % 256, u / 256]
  }

  /** Reading an `int16_t` from its two bytes. */
  function AsInt16(s: seq<byte>): int
    requires |s| >= 2
  {
    var u: int := s[0] as int + 256 * (s[1] as int);
    if u < 0x8000 then u else u - 0x1_0000
  }

  /** An `int32_t`: four bytes, low byte first, modulo 2^32. */
  function LE32(x: int): seq<byte>
  {
    var u := x % 0x1_0000_0000;
    [u % 256, (u / 256) % 256, (u / 0x1_0000) % 256, u / 0x100_0000]
  }

  /** Reading an `int32_t` from its four bytes. */
  function AsInt32(s: seq<byte>): int
    requires |s| >= 4
  {
    var u: int := s[0] as int + 256 * (s[1] as int) + 0x1_0000 * (s[2] as int) + 0x100_0000 * (s[3] as int);
    if u < 0x8000_0000 then u else u - 0x1_0000_0000
  }

  predicate IsInt8(x: int) { -0x80 <= x < 0x80 }
  predicate IsInt16(x: int) { -0x8000 <= x < 0x8000 }
  predicate IsInt32(x: int) { -0x8000_0000 <= x < 0x8000_0000 }

  lemma {:induction false} Int8RoundTrip(x: int)
    requires IsInt8(x)
    ensures AsInt8(Byte(x)) == x
  {
  }

  lemma {:induction false} Int16RoundTrip(x: int)
    requires IsInt16(x)
    ensures |LE16(x)| == 2 && AsInt16(LE16(x)) == x
  {
    var u := x % 0x1_0000;
    assert u == u % 256 + 256 * (u / 256);
  }

  lemma {:induction false} Int32RoundTrip(x: int)
    requires IsInt32(x)
    ensures |LE32(x)| == 4 && AsInt32(LE32(x)) == x
  {
    var u := x % 0x1_0000_0000;
    Shift256(u);
    Shift256(u / 256);
    Shift256(u / 0x1_0000);
    ShiftTwice(u);
    ShiftThrice(u);
  }

  /** A value is its low byte plus 256 times the rest. */
  lemma {:induction false} Shift256(v: nat)
    ensures v == v % 256 + 256 * (v / 256) && v % 256 < 256
  {
  }

  lemma {:induction false} ShiftTwice(v: nat)
    ensures v / 0x1_0000 == (v / 256) / 256
  {
  }

  lemma {:induction false} ShiftThrice(v: nat)
    ensures v / 0x100_0000 == (v / 0x1_0000) / 256
  {
  }

  /** A packed run of `int16_t` values, as `memcpy` of an `int16_t` array puts it on the wire. */
  function LE16s(xs: seq<int>): (r: seq<byte>)
    ensures |r| == 2 * |xs|
  {
    if xs == [] then [] else LE16(xs[0]) + LE16s(xs[1..])
  }

  /** Reading `k` consecutive `int16_t` values. */
  function AsInt16s(s: seq<byte>, k: nat): (r: seq<int>)
    requires |s| >= 2 * k
    ensures |r| == k
  {
    if k == 0 then [] else [AsInt16(s[..2])] + AsInt16s(s[2..], k - 1)
  }

  predicate AllInt16(xs: seq<int>) { forall i :: 0 <= i < |xs| ==> IsInt16(xs[i]) }

  /** Decoding a packed `int16_t` array gives back the values, whatever follows it. */
  lemma {:induction false} Int16sRoundTrip(xs: seq<int>, rest: seq<byte>)
    requires AllInt16(xs)
    ensures AsInt16s(LE16s(xs) + rest, |xs|) == xs
  {
    if xs != [] {
      var s := LE16s(xs) + rest;
      Int16RoundTrip(xs[0]);
      assert s[..2] == LE16(xs[0]);
      assert s[2..] == LE16s(xs[1..]) + rest;
      Int16sRoundTrip(xs[1..], rest);
    }
  }

  /** Element `k` of a packed `int16_t` array sits at byte offset 2k. */
  lemma {:induction false} Int16sAt(xs: seq<int>, k: nat)
    requires k < |xs|
    ensures LE16s(xs)[2 * k..2 * k + 2] == LE16(xs[k])
  {
    if k > 0 {
      Int16sAt(xs[1..], k - 1);
      assert LE16s(xs)[2..] == LE16s(xs[1..]);
    }
  }

  // ---------------------------------------------------------------------------------------
  // The frame header: `int8_t type; int8_t _reserved[3]; int32_t data_length;`

  const HeaderSize: nat := 8

  datatype HeaderFields = HeaderFields(tag: int, length: int)

  /** The header bytes for a frame; the reserved bytes are zero because the source zero-initialises it. */
  function Header(tag: int, length: int): seq<byte>
  {
    [Byte(tag), 0, 0, 0] + LE32(length)
  }

  /** Reading a header from the first eight received bytes. */
  function ParseHeader(s: seq<byte>): HeaderFields
    requires |s| >= HeaderSize
  {
    HeaderFields(AsInt8(s[0]), AsInt32(s[4..8]))
  }

  lemma {:induction false} HeaderRoundTrip(tag: int, length: int, rest: seq<byte>)
    requires IsInt8(tag) && IsInt32(length)
    ensures |Header(tag, length)| == HeaderSize
    ensures ParseHeader(Header(tag, length) + rest) == HeaderFields(tag, length)
  {
    Int32RoundTrip(length);
    var s := Header(tag, length) + rest;
    assert s[4..8] == LE32(length);
  }

  /** Packing two runs one after the other. */
  lemma {:induction false} LE16sAppend(xs: seq<int>, ys: seq<int>)
    ensures LE16s(xs + ys) == LE16s(xs) + LE16s(ys)
  {
    if xs != [] {
      assert (xs + ys)[1..] == xs[1..] + ys;
      LE16sAppend(xs[1..], ys);
    } else {
      assert xs + ys == ys;
    }
  }

  // ---------------------------------------------------------------------------------------
  // A write pointer advancing through a region of a buffer that was allocated with its final size.

  class Writer {
    /** The bytes between the start of the region and the write pointer. */
    var written: seq<byte>
    /** The size of the region. */
    const capacity: nat

    constructor (capacity: nat)
      ensures written == [] && this.capacity == capacity
    {
      written := [];
      this.capacity := capacity;
    }

    /** Copy `bs` at the write pointer and advance it past them (`memcpy(p, bs, n); p += n;`). */
    method Put(bs: seq<byte>)
      requires |written| + |bs| <= capacity
      modifies this`written
      ensures written == old(written) + bs
    {
      written := written + bs;
    }
  }

  /** The four parts of a concatenation, read back as slices. */
  lemma {:induction false} Parts(a: seq<byte>, b: seq<byte>, c: seq<byte>, d: seq<byte>)
    ensures var s := a + b + c + d;
      s[..|a|] == a && s[|a|..|a| + |b|] == b && s[|a| + |b|..|a| + |b| + |c|] == c
      && s[|a| + |b| + |c|..] == d
  {
    var s := a + b + c + d;
    assert s == a + (b + (c + d));
    assert s[|a|..] == b + (c + d);
    assert s[|a| + |b|..] == c + d;
  }

  lemma {:induction false} Parts3(a: seq<byte>, b: seq<byte>, c: seq<byte>)
    ensures var s := a + b + c;
      s[..|a|] == a && s[|a|..|a| + |b|] == b && s[|a| + |b|..] == c
  {
    var s := a + b + c;
    assert s == a + (b + c);
    assert s[|a|..] == b + c;
  }

  lemma {:induction false} Parts5(a: seq<byte>, b: seq<byte>, c: seq<byte>, d: seq<byte>, e: seq<byte>)
    ensures var s := a + b + c + d + e;
      var (i, j, k) := (|a| + |b|, |a| + |b| + |c|, |a| + |b| + |c| + |d|);
      s[..|a|] == a && s[|a|..i] == b && s[i..j] == c && s[j..k] == d && s[k..] == e
  {
    var s := a + b + c + d + e;
    assert s == a + b + c + (d + e);
    Parts(a, b, c, d + e);
    var j := |a| + |b| + |c|;
    assert s[j..j + |d|] == s[j..][..|d|];
    assert s[j + |d|..] == s[j..][|d|..];
  }

  /** A slice of a slice is a slice. */
  lemma {:induction false} SliceOfSlice(p: seq<byte>, o: nat, m: nat, i: nat, j: nat)
    requires o + m <= |p| && i <= j <= m
    ensures p[o..o + m][i..j] == p[o + i..o + j]
  {
    var q := p[o..o + m][i..j];
    assert forall k :: 0 <= k < |q| ==> q[k] == p[o + i..o + j][k];
  }

  lemma {:induction false} Assoc4(a: seq<byte>, b: seq<byte>, c: seq<byte>, d: seq<byte>)
    ensures a + b + c + d == a + (b + (c + d))
  {
  }

  lemma {:induction false} SuffixSlice(p: seq<byte>, o: nat, s: seq<byte>)
    requires o <= |p| && p[o..] == s
    ensures o + |s| == |p| && p[o..o + |s|] == s
  {
  }

  /** A sequence is the concatenation of its pieces between three cut points. */
  lemma {:induction false} Cut4(s: seq<byte>, i: nat, j: nat, k: nat)
    requires i <= j <= k <= |s|
    ensures s == s[..i] + s[i..j] + s[j..k] + s[k..]
  {
  }
}
