/** The byte reader and writer objects, proved against the encodings of Wire. */
module Stream {
  import opened Wire

  datatype Outcome<+T> = Ok(value: T) | Err(error: DecodeError) {
    predicate IsFailure() { Err? }

    function PropagateFailure<U>(): Outcome<U>
      requires Err?
    {
      Err(error)
    }

    function Extract(): T
      requires Ok?
    {
      value
    }
  }

  /** The outcome of a read, and the input left after it, are what p says. */
  ghost predicate Reads<T>(o: Outcome<T>, p: Parse<T>, rest: Bytes) {
    match p
    case Got(v, r) => o == Ok(v) && rest == r
    case Fail(e) => o == Err(e)
  }

  /** acc | g << 7i, on 64 bits: the shifted group does not overlap acc. */
  function OrGroup(acc: U64, g: nat, i: nat): U64 {
    (acc + g * Pow128(i)) % TWO64
  }

  class Reader {
    const data: Bytes
    var pos: nat

    ghost predicate Valid()
      reads this
    {
      pos <= |data|
    }

    ghost function Rest(): Bytes
      requires Valid()
      reads this
    {
      data[pos..]
    }

    constructor (data: Bytes)
      ensures Valid() && this.data == data && pos == 0 && Rest() == data
    {
      this.data := data;
      pos := 0;
    }

    method ReadByte() returns (o: Outcome<Byte>)
      requires Valid()
      modifies this
      ensures Valid() && old(pos) <= pos
      ensures Reads(o, GetByte(old(Rest())), Rest())
    {
      if pos == |data| {
        return Err(Eof);
      }
      o := Ok(data[pos]);
      pos := pos + 1;
    }

    method ReadVarint() returns (o: Outcome<U64>)
      requires Valid()
      modifies this
      ensures Valid() && old(pos) <= pos
      ensures Reads(o, GetVarint(old(Rest())), Rest())
    {
      var result: U64 := 0;
      var i := 0;
      ghost var g0 := GetGroups(Rest(), MAX_VARINT_BYTES);
      while i < MAX_VARINT_BYTES
        invariant 0 <= i <= MAX_VARINT_BYTES && Valid() && old(pos) <= pos
        invariant i < MAX_VARINT_BYTES ==> result < Pow128(i)
        invariant Continues(g0, Rest(), MAX_VARINT_BYTES - i, Pow128(i), result)
      {
        if pos == |data| {
          return Err(Eof);
        }
        var b := data[pos];
        ghost var before := Rest();
        pos := pos + 1;
        assert before[1..] == Rest();
        GroupStep(g0, before, MAX_VARINT_BYTES - i, Pow128(i), result);
        if i < 9 {
          GroupsFit(i, result + b % 128 * Pow128(i));
        }
        result := OrGroup(result, b % 128, i);
        if b < 128 {
          return Ok(result);
        }
        i := i + 1;
      }
      return Err(Overlong);
    }

    method ReadSvarint() returns (o: Outcome<I64>)
      requires Valid()
      modifies this
      ensures Valid() && old(pos) <= pos
      ensures Reads(o, GetSvarint(old(Rest())), Rest())
    {
      var u :- ReadVarint();
      o := Ok(Unzigzag(u));
    }

    method ReadInt() returns (o: Outcome<I64>)
      requires Valid()
      modifies this
      ensures Valid() && old(pos) <= pos
      ensures Reads(o, GetInt(old(Rest())), Rest())
    {
      var u :- ReadVarint();
      o := Ok(ToI64(u));
    }

    /** The n bytes of a little-endian integer, least significant first. */
    method ReadFixed(n: nat) returns (o: Outcome<nat>)
      requires Valid()
      modifies this
      ensures Valid() && old(pos) <= pos
      ensures Reads(o, GetLE(old(Rest()), n), Rest())
    {
      if n > |data| - pos {
        return Err(Eof);
      }
      hide GetLE;
      var v: nat := 0;
      var i := n;
      ghost var s := Rest();
      LEStart(s, n);
      while i > 0
        invariant 0 <= i <= n && pos == old(pos)
        invariant GetLE(s[i..], n - i) == Got(v, s[n..])
      {
        i := i - 1;
        LEStep(s, i, n, v);
        v := data[pos + i] + 256 * v;
      }
      pos := pos + n;
      assert s[0..] == s;
      o := Ok(v);
    }

    method ReadI32() returns (o: Outcome<I32>)
      requires Valid()
      modifies this
      ensures Valid() && old(pos) <= pos
      ensures Reads(o, GetI32(old(Rest())), Rest())
    {
      Pow256Widths();
      var u :- ReadFixed(4);
      o := Ok(if u < TWO31 then u else u - TWO32);
    }

    method ReadU64() returns (o: Outcome<U64>)
      requires Valid()
      modifies this
      ensures Valid() && old(pos) <= pos
      ensures Reads(o, GetU64(old(Rest())), Rest())
    {
      Pow256Widths();
      var u :- ReadFixed(8);
      o := Ok(u);
    }

    /** ReadBytes(int(n)) */
    method ReadBytes(n: U64) returns (o: Outcome<Bytes>)
      requires Valid()
      modifies this
      ensures Valid() && old(pos) <= pos
      ensures Reads(o, GetBytes(old(Rest()), n), Rest())
    {
      if n >= TWO63 {
        return Err(Panic);
      }
      if n > |data| - pos {
        return Err(Eof);
      }
      o := Ok(data[pos..pos + n]);
      pos := pos + n;
      assert o.value == old(Rest())[..n];
    }

    method Skip(n: I64) returns (o: Outcome<()>)
      requires Valid()
      modifies this
      ensures Valid() && old(pos) <= pos
      ensures Reads(o, GetSkip(old(Rest()), n), Rest())
    {
      if n < 0 {
        return Err(NegativeCount);
      }
      if n > |data| - pos {
        return Err(Eof);
      }
      pos := pos + n;
      o := Ok(());
    }
  }

  /** g0 is what the groups already read spell (acc, the next one weighing p)
      followed by the at most n groups at the front of s. */
  ghost predicate Continues(g0: Parse<nat>, s: Bytes, n: nat, p: nat, acc: nat) {
    match GetGroups(s, n)
    case Got(hi, rest) => g0 == Got(acc + p * hi, rest)
    case Fail(e) => g0 == Fail(e)
  }

  lemma LEStart(s: Bytes, n: nat)
    requires n <= |s|
    ensures GetLE(s[n..], 0) == Got(0, s[n..])
  {
  }

  lemma LEStep(s: Bytes, i: nat, n: nat, v: nat)
    requires i < n <= |s| && GetLE(s[i + 1..], n - (i + 1)) == Got(v, s[n..])
    ensures GetLE(s[i..], n - i) == Got(s[i] + 256 * v, s[n..])
  {
    assert s[i..][0] == s[i] && s[i..][1..] == s[i + 1..];
  }

  lemma MulSplit(p: nat, g: nat, hi: nat)
    ensures p * (g + 128 * hi) == g * p + (128 * p) * hi
  {
  }

  lemma GroupBound(p: nat, g: nat, acc: nat)
    requires g < 128 && acc < p
    ensures acc + g * p < 128 * p
  {
    assert g * p <= 127 * p;
  }

  /** One more group: either it ends the integer, or the rest of them follow. */
  lemma GroupStep(g0: Parse<nat>, s: Bytes, n: nat, p: nat, acc: nat)
    requires n > 0 && s != [] && acc < p
    requires Continues(g0, s, n, p, acc)
    ensures acc + s[0] % 128 * p < 128 * p
    ensures s[0] < 128 ==> g0 == Got(acc + s[0] * p, s[1..])
    ensures s[0] >= 128 ==> Continues(g0, s[1..], n - 1, 128 * p, acc + s[0] % 128 * p)
  {
    var g := s[0] % 128;
    GroupBound(p, g, acc);
    var next := GetGroups(s[1..], n - 1);
    if s[0] >= 128 && next.Got? {
      MulSplit(p, g, next.val);
    }
  }

  /** Nine groups fit 64 bits without loss. */
  lemma GroupsFit(i: nat, v: nat)
    requires i < 9 && v < Pow128(i + 1)
    ensures v % TWO64 == v
  {
    PowMonotone(i + 1, 9);
    Pow128Ten();
  }

  lemma PowMonotone(m: nat, n: nat)
    requires m <= n
    ensures Pow128(m) <= Pow128(n)
  {
  }

  /** The bytes written, then k, are the bytes `put`, which end in k.  A caller that
      goes on writing names what it will write as k. */
  ghost predicate Wrote(before: Bytes, after: Bytes, k: Bytes, put: Bytes) {
    after + k == before + put
  }

  class Writer {
    var out: Bytes

    constructor ()
      ensures out == []
    {
      out := [];
    }

    method WriteByte(b: Byte, ghost k: Bytes)
      modifies this
      ensures Wrote(old(out), out, k, [b] + k)
    {
      out := out + [b];
    }

    method WriteBytes(b: Bytes, ghost k: Bytes)
      modifies this
      ensures Wrote(old(out), out, k, b + k)
    {
      out := out + b;
    }

    method WriteVarint(v: U64, ghost k: Bytes)
      modifies this
      ensures Wrote(old(out), out, k, PutVarint(v, k))
    {
      var w := v;
      while w >= 128
        invariant Wrote(old(out), out, PutVarint(w, k), PutVarint(v, k))
        decreases w
      {
        ghost var tail := PutVarint(w / 128, k);
        assert out + ([w % 128 + 128] + tail) == (out + [w % 128 + 128]) + tail;
        out := out + [w % 128 + 128];
        w := w / 128;
      }
      assert out + ([w] + k) == (out + [w]) + k;
      out := out + [w];
    }

    method WriteFixed(v: nat, n: nat, ghost k: Bytes)
      modifies this
      ensures Wrote(old(out), out, k, PutLE(v, n, k))
    {
      var w := v;
      var i := 0;
      while i < n
        invariant 0 <= i <= n
        invariant Wrote(old(out), out, PutLE(w, n - i, k), PutLE(v, n, k))
      {
        ghost var tail := PutLE(w / 256, n - i - 1, k);
        assert out + ([w % 256] + tail) == (out + [w % 256]) + tail;
        out := out + [w % 256];
        w := w / 256;
        i := i + 1;
      }
    }
  }
}
