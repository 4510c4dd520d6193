/** The primitive byte encodings of the .lgb format: unsigned LEB128 integers,
    zigzag-signed integers, fixed-width little-endian integers and big-endian
    magnitudes.

    A writer `PutX(v, k)` is the encoding of `v` followed by the bytes `k`; a
    reader `GetX(s)` returns the value and the bytes it left unread.  With this
    shape a round trip is the equation `GetX(PutX(v, k)) == Got(v, k)`. */
module Wire {
  type Byte = b: int | 0 <= b < 256
  type Bytes = seq<Byte>

  /** A Go string: a sequence of bytes. */
  type Str = seq<Byte>

  /** The namespace "core". */
  const CORE: Str := [0x63, 0x6F, 0x72, 0x65]

  ghost predicate Distinct<T>(xs: seq<T>) {
    forall i, j :: 0 <= i < j < |xs| ==> xs[i] != xs[j]
  }

  const TWO31: int := 0x8000_0000
  const TWO32: int := 0x1_0000_0000
  const TWO63: int := 0x8000_0000_0000_0000
  const TWO64: int := 0x1_0000_0000_0000_0000

  type U64 = x: int | 0 <= x < TWO64
  type I64 = x: int | -TWO63 <= x < TWO63
  type I32 = x: int | -TWO31 <= x < TWO31

  datatype Option<+T> = None | Some(value: T)

  /** Why a decode stops.  `Panic` stands for a Go run-time panic: a `make` whose
      length does not fit an int, or an index out of range. */
  datatype DecodeError =
    | Eof | Overlong | Panic | NegativeCount
    | BadTag | BadTagVersion | BadStringRef | BadChunkRef | BadText
    | DeferredOutside
    | BadMagic | BadVersion | BadFlags | BadCapabilities | OpcodeMismatch
    | BadCodec | BodyTooLarge | BadInflate | BodySize
    | BadRanges | RangePastConsts | NoChunks | BadNSTable | MainDeferred
    | BadDigest | BadDebugCount

  datatype Parse<+T> = Fail(error: DecodeError) | Got(val: T, rest: Bytes) {
    predicate IsFailure() { Fail? }

    function PropagateFailure<U>(): Parse<U>
      requires Fail?
    {
      Fail(error)
    }

    function Extract(): (T, Bytes)
      requires Got?
    {
      (val, rest)
    }
  }

  // ---------------------------------------------------------------- integers

  /** uint64(x) */
  function ToU64(x: I64): (u: U64)
    ensures ToI64(u) == x
  {
    if x < 0 then x + TWO64 else x
  }

  /** int64(u) */
  function ToI64(u: U64): I64 {
    if u < TWO63 then u else u - TWO64
  }

  // ------------------------------------------------------------------ LEB128

  /** Unsigned LEB128 (section 7.6 of DWARF Version 5). */
  function PutVarint(v: U64, k: Bytes): (r: Bytes)
    ensures |r| > |k|
    decreases v
  {
    if v < 128 then [v] + k else [v % 128 + 128] + PutVarint(v / 128, k)
  }

  /** The number the next at most `n` seven-bit groups spell, unreduced. */
  function GetGroups(s: Bytes, n: nat): (p: Parse<nat>)
    ensures p.Got? ==> |p.rest| < |s|
    decreases |s|
  {
    if n == 0 then Fail(Overlong)
    else if s == [] then Fail(Eof)
    else if s[0] < 128 then Got(s[0], s[1..])
    else
      var (hi, rest) :- GetGroups(s[1..], n - 1);
      Got(s[0] - 128 + 128 * hi, rest)
  }

  const MAX_VARINT_BYTES: nat := 10

  /** At most ten groups; bits past the 64th fall off the accumulator. */
  function GetVarint(s: Bytes): (p: Parse<U64>)
    ensures p.Got? ==> |p.rest| < |s|
  {
    var (v, rest) :- GetGroups(s, MAX_VARINT_BYTES);
    Got(v % TWO64, rest)
  }

  function Pow128(n: nat): (p: nat)
    ensures p >= 1
  {
    if n == 0 then 1 else 128 * Pow128(n - 1)
  }

  lemma {:induction false} GroupsRoundTrip(v: U64, k: Bytes, n: nat)
    requires n >= 1 && v < Pow128(n)
    ensures GetGroups(PutVarint(v, k), n) == Got(v, k)
    decreases n
  {
    if v >= 128 {
      assert v / 128 < Pow128(n - 1);
      GroupsRoundTrip(v / 128, k, n - 1);
      assert PutVarint(v, k)[1..] == PutVarint(v / 128, k);
      assert GetGroups(PutVarint(v, k), n) == Got(v % 128 + 128 * (v / 128), k);
    }
  }

  lemma Pow128Ten()
    ensures Pow128(9) == TWO63
    ensures Pow128(10) == 128 * TWO63
  {
    assert Pow128(3) == 0x20_0000;
    assert Pow128(6) == 0x400_0000_0000;
    assert Pow128(9) == TWO63;
  }

  /** Every 64-bit value is read back, and the reader stops exactly after it
      whatever follows. */
  lemma VarintRoundTrip(v: U64, k: Bytes)
    ensures GetVarint(PutVarint(v, k)) == Got(v, k)
  {
    assert v < Pow128(MAX_VARINT_BYTES) by { Pow128Ten(); }
    GroupsRoundTrip(v, k, MAX_VARINT_BYTES);
    assert v % TWO64 == v;
  }

  lemma {:induction false} VarintLength(v: U64, n: nat)
    requires v < Pow128(n) && n >= 1
    ensures 1 <= |PutVarint(v, [])| <= n
    decreases n
  {
    if v >= 128 {
      assert v / 128 < Pow128(n - 1);
      VarintLength(v / 128, n - 1);
    }
  }

  /** No 64-bit value takes more than the ten bytes the reader allows. */
  lemma VarintAtMostTen(v: U64)
    ensures 1 <= |PutVarint(v, [])| <= 10
  {
    Pow128Ten();
    VarintLength(v, 10);
  }

  // ------------------------------------------------------------------ zigzag

  /** x ^ m where m is the sign word of an int64: all zeros or all ones. */
  function XorSign(x: U64, negative: bool): U64 {
    if negative then TWO64 - 1 - x else x
  }

  /** uint64(v << 1) ^ uint64(v >> 63) */
  function Zigzag(v: I64): U64 {
    XorSign((ToU64(v) * 2) % TWO64, v < 0)
  }

  /** int64(u >> 1) ^ -int64(u & 1) */
  function Unzigzag(u: U64): I64 {
    ToI64(XorSign(u / 2, u % 2 == 1))
  }

  /** Zigzag maps the int64 range one-to-one onto uint64, small magnitudes first. */
  lemma ZigzagBijection(v: I64, u: U64)
    ensures Unzigzag(Zigzag(v)) == v
    ensures Zigzag(Unzigzag(u)) == u
    ensures Zigzag(v) == if v < 0 then -2 * v - 1 else 2 * v
  {
  }

  function PutSvarint(v: I64, k: Bytes): Bytes {
    PutVarint(Zigzag(v), k)
  }

  function GetSvarint(s: Bytes): (p: Parse<I64>)
    ensures p.Got? ==> |p.rest| < |s|
  {
    var (u, rest) :- GetVarint(s);
    Got(Unzigzag(u), rest)
  }

  lemma SvarintRoundTrip(v: I64, k: Bytes)
    ensures GetSvarint(PutSvarint(v, k)) == Got(v, k)
  {
    VarintRoundTrip(Zigzag(v), k);
    ZigzagBijection(v, 0);
  }

  // ------------------------------------------ Go ints, written as uint64(x)

  function PutInt(x: I64, k: Bytes): Bytes {
    PutVarint(ToU64(x), k)
  }

  function GetInt(s: Bytes): (p: Parse<I64>)
    ensures p.Got? ==> |p.rest| < |s|
  {
    var (u, rest) :- GetVarint(s);
    Got(ToI64(u), rest)
  }

  lemma IntRoundTrip(x: I64, k: Bytes)
    ensures GetInt(PutInt(x, k)) == Got(x, k)
  {
    VarintRoundTrip(ToU64(x), k);
  }

  // ----------------------------------------------- fixed-width little endian

  function Pow256(n: nat): (p: nat)
    ensures p >= 1
  {
    if n == 0 then 1 else 256 * Pow256(n - 1)
  }

  lemma Pow256Widths()
    ensures Pow256(2) == 0x1_0000 && Pow256(4) == TWO32 && Pow256(8) == TWO64
  {
    assert Pow256(2) == 0x1_0000;
    assert Pow256(4) == TWO32;
    assert Pow256(6) == 0x1_0000_0000_0000;
  }

  function PutLE(v: nat, n: nat, k: Bytes): (r: Bytes)
    ensures |r| == n + |k|
    decreases n
  {
    if n == 0 then k else [v % 256] + PutLE(v / 256, n - 1, k)
  }

  function GetLE(s: Bytes, n: nat): (p: Parse<nat>)
    ensures if n <= |s| then p.Got? && p.rest == s[n..] && p.val < Pow256(n) else p == Fail(Eof)
    decreases |s|
  {
    if n == 0 then Got(0, s)
    else if s == [] then Fail(Eof)
    else
      var (hi, rest) :- GetLE(s[1..], n - 1);
      Got(s[0] + 256 * hi, rest)
  }

  lemma {:induction false} LERoundTrip(v: nat, n: nat, k: Bytes)
    requires v < Pow256(n)
    ensures GetLE(PutLE(v, n, k), n) == Got(v, k)
    decreases n
  {
    if n == 0 {
    } else {
      assert v / 256 < Pow256(n - 1);
      LERoundTrip(v / 256, n - 1, k);
      assert PutLE(v, n, k)[1..] == PutLE(v / 256, n - 1, k);
    }
  }

  function PutI32(x: I32, k: Bytes): Bytes {
    PutLE(if x < 0 then x + TWO32 else x, 4, k)
  }

  function GetI32(s: Bytes): (p: Parse<I32>)
    ensures p.Got? <==> 4 <= |s|
    ensures p.Got? ==> p.rest == s[4..]
  {
    Pow256Widths();
    var (u, rest) :- GetLE(s, 4);
    Got(if u < TWO31 then u else u - TWO32, rest)
  }

  lemma I32RoundTrip(x: I32, k: Bytes)
    ensures GetI32(PutI32(x, k)) == Got(x, k)
  {
    Pow256Widths();
    LERoundTrip(if x < 0 then x + TWO32 else x, 4, k);
  }

  function GetU64(s: Bytes): (p: Parse<U64>)
    ensures p.Got? <==> 8 <= |s|
    ensures p.Got? ==> p.rest == s[8..]
  {
    Pow256Widths();
    var (u, rest) :- GetLE(s, 8);
    Got(u, rest)
  }

  lemma U64RoundTrip(v: U64, k: Bytes)
    ensures GetU64(PutLE(v, 8, k)) == Got(v, k)
  {
    Pow256Widths();
    LERoundTrip(v, 8, k);
  }

  // ------------------------------------------------------ raw bytes, strings

  /** ReadBytes(int(n)): `make` panics on a negative length. */
  function GetBytes(s: Bytes, n: U64): (p: Parse<Bytes>)
    ensures p.Got? ==> n <= |s| && p.val == s[..n] && p.rest == s[n..]
  {
    if n >= TWO63 then Fail(Panic)
    else if n > |s| then Fail(Eof)
    else Got(s[..n], s[n..])
  }

  /** Discard(n): skips n bytes without looking at them. */
  function GetSkip(s: Bytes, n: I64): (p: Parse<()>)
    ensures p.Got? ==> 0 <= n <= |s| && p.rest == s[n..]
  {
    if n < 0 then Fail(NegativeCount)
    else if n > |s| then Fail(Eof)
    else Got((), s[n..])
  }

  function GetByte(s: Bytes): (p: Parse<Byte>)
    ensures p.Got? ==> |p.rest| < |s|
  {
    if s == [] then Fail(Eof) else Got(s[0], s[1..])
  }

  // ---------------------------------------------------- big-endian magnitude

  /** big.Int.Bytes: big endian, no leading zero byte. */
  function Magnitude(n: nat): (r: Bytes)
    ensures n == 0 <==> r == []
    ensures n > 0 ==> r[0] != 0
    decreases n
  {
    if n == 0 then [] else Magnitude(n / 256) + [n % 256]
  }

  /** big.Int.SetBytes */
  function FromMagnitude(b: Bytes): nat
    decreases |b|
  {
    if b == [] then 0 else 256 * FromMagnitude(b[..|b| - 1]) + b[|b| - 1]
  }

  lemma {:induction false} MagnitudeRoundTrip(n: nat)
    ensures FromMagnitude(Magnitude(n)) == n
    decreases n
  {
    if n == 0 {
    } else {
      MagnitudeRoundTrip(n / 256);
      var m := Magnitude(n);
      assert m[..|m| - 1] == Magnitude(n / 256);
    }
  }
}
