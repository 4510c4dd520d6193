/** Standalone binaries: the payload and trailer appended to an executable, read back at
    startup and stripped before bundling again. */
module Trailer {
  import opened Wire
  import opened Stream

  const LEGACY_MAGIC: Bytes := [0x4C, 0x47, 0x42, 0x58]
  const V2_MAGIC: Bytes := [0x4C, 0x47, 0x42, 0x32]
  const V3_MAGIC: Bytes := [0x4C, 0x47, 0x42, 0x33]

  datatype Kind = Legacy | V2 | V3

  function TrailerLen(k: Kind): nat {
    match k
    case Legacy => 12
    case V2 => 20
    case V3 => 28
  }

  /** The size of a Go file, in an int64. */
  predicate FileSized(data: Bytes) {
    |data| < TWO63
  }

  // ----------------------------------------------------------------- writing

  function KindFor(res: Bytes, id: Str): Kind {
    if id != [] then V3 else if res != [] then V2 else Legacy
  }

  function TrailerBytes(k: Kind, lgb: nat, res: nat, id: nat): (t: Bytes)
    ensures |t| == TrailerLen(k)
  {
    match k
    case Legacy => PutLE(lgb, 8, LEGACY_MAGIC)
    case V2 => PutLE(lgb, 8, PutLE(res, 8, V2_MAGIC))
    case V3 => PutLE(lgb, 8, PutLE(res, 8, PutLE(id, 8, V3_MAGIC)))
  }

  /** What is appended: payload, resource archive, store id, trailer. */
  function Appended(lgb: Bytes, res: Bytes, id: Str): Bytes {
    lgb + res + id + TrailerBytes(KindFor(res, id), |lgb|, |res|, |id|)
  }

  method WriteTrailer(out: Writer, k: Kind, lgb: nat, res: nat, id: nat)
    modifies out
    ensures out.out == old(out.out) + TrailerBytes(k, lgb, res, id)
  {
    hide PutLE;
    if k.Legacy? {
      out.WriteFixed(lgb, 8, LEGACY_MAGIC);
      out.WriteBytes(LEGACY_MAGIC, []);
    } else if k.V2? {
      out.WriteFixed(lgb, 8, PutLE(res, 8, V2_MAGIC));
      out.WriteFixed(res, 8, V2_MAGIC);
      out.WriteBytes(V2_MAGIC, []);
    } else {
      out.WriteFixed(lgb, 8, PutLE(res, 8, PutLE(id, 8, V3_MAGIC)));
      out.WriteFixed(res, 8, PutLE(id, 8, V3_MAGIC));
      out.WriteFixed(id, 8, V3_MAGIC);
      out.WriteBytes(V3_MAGIC, []);
    }
    assert out.out + [] == out.out;
  }

  method Append(out: Writer, b: Bytes)
    modifies out
    ensures out.out == old(out.out) + b
  {
    out.WriteBytes(b, []);
    assert out.out + [] == out.out && b + [] == b;
  }

  method AppendTrailer(out: Writer, lgb: Bytes, res: Bytes, id: Str)
    modifies out
    ensures out.out == old(out.out) + Appended(lgb, res, id)
  {
    hide TrailerBytes;
    Append(out, lgb);
    if |res| > 0 {
      Append(out, res);
    }
    if id != [] {
      Append(out, id);
    }
    WriteTrailer(out, KindFor(res, id), |lgb|, |res|, |id|);
  }

  // ----------------------------------------------------------------- reading

  datatype Found = NoBundle | Corrupt | Payload(kind: Kind, lgb: U64, res: U64, id: U64)

  /** The 64-bit integer n bytes before the end. */
  function SizeAt(data: Bytes, n: nat): U64
    requires 8 <= n <= |data|
  {
    GetU64(data[|data| - n..]).val
  }

  function Checked(k: Kind, lgb: U64, res: U64, id: U64, total: nat): Found {
    if lgb + res + id + TrailerLen(k) <= total then Payload(k, lgb, res, id) else Corrupt
  }

  /** What the end of a file says. */
  function Parsed(data: Bytes): Found {
    if |data| < 12 then NoBundle
    else
      var magic := data[|data| - 4..];
      if magic == V3_MAGIC then
        if |data| < 28 then NoBundle
        else Checked(V3, SizeAt(data, 28), SizeAt(data, 20), SizeAt(data, 12), |data|)
      else if magic == V2_MAGIC then
        if |data| < 20 then NoBundle else Checked(V2, SizeAt(data, 20), SizeAt(data, 12), 0, |data|)
      else if magic == LEGACY_MAGIC then Checked(Legacy, SizeAt(data, 12), 0, 0, |data|)
      else NoBundle
  }

  /** payloadFitsFile: what is left of the file is compared step by step, in uint64; the
      outcome is that of comparing the unbounded sum, whatever the sizes. */
  method PayloadFitsFile(lgb: U64, res: U64, id: U64, trailerLen: I64, total: I64) returns (ok: bool)
    ensures ok <==> total >= 0 && trailerLen >= 0 && lgb + res + id + trailerLen <= total
  {
    if total < 0 || trailerLen < 0 {
      return false;
    }
    var avail: U64 := total;
    if lgb > avail {
      return false;
    }
    avail := avail - lgb;
    if res > avail {
      return false;
    }
    avail := avail - res;
    if id > avail {
      return false;
    }
    avail := avail - id;
    ok := trailerLen <= avail;
  }

  /** An open file: its bytes and the read offset. */
  class File {
    const data: Bytes
    var pos: nat

    ghost predicate Valid()
      reads this
    {
      pos <= |data| && FileSized(data)
    }

    constructor (data: Bytes)
      requires FileSized(data)
      ensures Valid() && this.data == data
    {
      this.data, pos := data, 0;
    }

    /** Seek(-n, io.SeekEnd): an offset before the start is refused. */
    method SeekEnd(n: nat) returns (ok: bool)
      requires Valid()
      modifies this
      ensures Valid()
      ensures ok <==> n <= |data|
      ensures ok ==> pos == |data| - n
    {
      if n > |data| {
        return false;
      }
      pos := |data| - n;
      ok := true;
    }

    /** io.ReadFull of n bytes. */
    method ReadFull(n: nat) returns (b: Option<Bytes>)
      requires Valid()
      modifies this
      ensures Valid()
      ensures b == if n <= |data| - old(pos) then Some(data[old(pos)..old(pos) + n]) else None
      ensures b.Some? ==> pos == old(pos) + n
    {
      if n > |data| - pos {
        return None;
      }
      b := Some(data[pos..pos + n]);
      pos := pos + n;
    }

    /** The sizes a trailer of the kind holds. */
    method ReadSizes(k: Kind) returns (lgb: U64, res: U64, id: U64)
      requires Valid() && TrailerLen(k) <= |data|
      modifies this
      ensures Valid()
      ensures lgb == SizeAt(data, TrailerLen(k))
      ensures res == if k.Legacy? then 0 else SizeAt(data, TrailerLen(k) - 8)
      ensures id == if k.V3? then SizeAt(data, 12) else 0
    {
      hide GetU64, SizeAt;
      var len := TrailerLen(k);
      var ok := SeekEnd(len);
      var tr := ReadFull(len);
      assert data[|data| - len..|data|] == data[|data| - len..];
      TrailerSize(data, len, 0);
      lgb, res, id := SizeIn(tr.value, 0), 0, 0;
      if !k.Legacy? {
        TrailerSize(data, len, 8);
        res := SizeIn(tr.value, 8);
      }
      if k.V3? {
        TrailerSize(data, len, 16);
        id := SizeIn(tr.value, 16);
      }
    }

    /** parseBundleTrailer */
    method ParseTrailer() returns (f: Found)
      requires Valid()
      modifies this
      ensures Valid()
      ensures f == Parsed(data)
    {
      hide GetU64, SizeAt;
      var total := |data|;
      if total < 12 {
        return NoBundle;
      }
      var ok := SeekEnd(4);
      var magic := ReadFull(4);
      assert data[total - 4..total] == data[total - 4..];
      if magic.value != V3_MAGIC && magic.value != V2_MAGIC && magic.value != LEGACY_MAGIC {
        return NoBundle;
      }
      var kind := if magic.value == V3_MAGIC then V3 else if magic.value == V2_MAGIC then V2 else Legacy;
      if total < TrailerLen(kind) {
        return NoBundle;
      }
      var lgb, res, id := ReadSizes(kind);
      var fits := PayloadFitsFile(lgb, res, id, TrailerLen(kind), total);
      f := if fits then Payload(kind, lgb, res, id) else Corrupt;
    }
  }

  /** binary.LittleEndian.Uint64(tr[off:]) */
  function SizeIn(tr: Bytes, off: nat): U64
    requires off + 8 <= |tr|
  {
    GetU64(tr[off..]).val
  }

  lemma TrailerSize(data: Bytes, len: nat, off: nat)
    requires off + 8 <= len <= |data|
    ensures SizeIn(data[|data| - len..], off) == SizeAt(data, len - off)
  {
    assert data[|data| - len..][off..] == data[|data| - (len - off)..];
  }

  // --------------------------------------------------------- reading a bundle

  datatype Bundle = Bundle(lgb: Bytes, res: Option<Bytes>, id: Str)

  /** The parts of a payload, by the sizes of its trailer. */
  function Parts(data: Bytes, t: Found): Bundle
    requires t.Payload? && t.lgb + t.res + t.id + TrailerLen(t.kind) <= |data|
  {
    var start := |data| - TrailerLen(t.kind) - t.id - t.res - t.lgb;
    Bundle(data[start..start + t.lgb],
           if t.res > 0 then Some(data[start + t.lgb..start + t.lgb + t.res]) else None,
           data[start + t.lgb + t.res..start + t.lgb + t.res + t.id])
  }

  function BundleIn(data: Bytes): Option<Bundle> {
    var t := Parsed(data);
    if t.Payload? then Some(Parts(data, t)) else None
  }

  /** ReadBundled; None for a plain or a corrupt binary. */
  method ReadBundled(data: Bytes) returns (b: Option<Bundle>)
    requires FileSized(data)
    ensures b == BundleIn(data)
  {
    hide GetU64, SizeAt;
    var f := new File(data);
    var t := f.ParseTrailer();
    if !t.Payload? {
      return None;
    }
    var ok := f.SeekEnd(TrailerLen(t.kind) + t.id + t.res + t.lgb);
    var lgb := f.ReadFull(t.lgb);
    if lgb.None? {
      return None;
    }
    var res: Option<Bytes> := None;
    if t.res > 0 {
      res := f.ReadFull(t.res);
      if res.None? {
        return None;
      }
    }
    var id: Str := [];
    if t.id > 0 {
      var read := f.ReadFull(t.id);
      if read.None? {
        return None;
      }
      id := read.value;
    }
    ghost var p := Parts(data, t);
    assert lgb.value == p.lgb && res == p.res;
    assert id == p.id;
    b := Some(Bundle(lgb.value, res, id));
  }

  function BaseSize(data: Bytes): Option<nat> {
    match Parsed(data)
    case NoBundle => Some(|data|)
    case Corrupt => None
    case Payload(k, lgb, res, id) =>
      if lgb + res + id + TrailerLen(k) <= |data| then Some(|data| - lgb - res - id - TrailerLen(k)) else None
  }

  /** BaseBinarySize; None for a corrupt trailer. */
  method BaseBinarySize(f: File) returns (size: Option<nat>)
    requires f.Valid()
    modifies f
    ensures f.Valid() && size == BaseSize(f.data)
  {
    hide GetU64, SizeAt;
    var t := f.ParseTrailer();
    match t
    case NoBundle => size := Some(|f.data|);
    case Corrupt => size := None;
    case Payload(k, lgb, res, id) => size := Some(|f.data| - lgb - res - id - TrailerLen(k));
  }

  // -------------------------------------------------------------- round trips

  lemma TailSizes(k: Kind, lgb: U64, res: U64, id: U64, front: Bytes)
    ensures var data := front + TrailerBytes(k, lgb, res, id);
      && data[|data| - 4..] == (match k case Legacy => LEGACY_MAGIC case V2 => V2_MAGIC case V3 => V3_MAGIC)
      && SizeAt(data, TrailerLen(k)) == lgb
      && (!k.Legacy? ==> SizeAt(data, TrailerLen(k) - 8) == res)
      && (k.V3? ==> SizeAt(data, 12) == id)
  {
    hide PutLE, GetLE, GetU64;
    var data := front + TrailerBytes(k, lgb, res, id);
    var t3 := match k case Legacy => LEGACY_MAGIC case V2 => V2_MAGIC case V3 => V3_MAGIC;
    var t2 := if k.V3? then PutLE(id, 8, t3) else t3;
    var t1 := if !k.Legacy? then PutLE(res, 8, t2) else t2;
    U64RoundTrip(lgb, t1);
    U64RoundTrip(res, t2);
    U64RoundTrip(id, t3);
    assert data[|data| - TrailerLen(k)..] == PutLE(lgb, 8, t1);
    PutLETail(lgb, t1);
    PutLETail(res, t2);
    PutLETail(id, t3);
    assert data[|data| - |t1|..] == t1;
    assert data[|data| - |t2|..] == t2;
    assert data[|data| - |t3|..] == t3;
  }

  lemma PutLETail(v: nat, k: Bytes)
    ensures |PutLE(v, 8, k)| == 8 + |k| && PutLE(v, 8, k)[8..] == k
  {
    PutLEEnds(v, 8, k);
  }

  lemma {:induction false} PutLEEnds(v: nat, n: nat, k: Bytes)
    ensures |PutLE(v, n, k)| == n + |k| && PutLE(v, n, k)[n..] == k
    decreases n
  {
    if n == 0 {
    } else {
      PutLEEnds(v / 256, n - 1, k);
    }
  }

  /** The trailer appended to any base binary is found, with the sizes of the parts. */
  lemma AppendedParses(base: Bytes, lgb: Bytes, res: Bytes, id: Str)
    requires FileSized(base + Appended(lgb, res, id))
    ensures Parsed(base + Appended(lgb, res, id)) == Payload(KindFor(res, id), |lgb|, |res|, |id|)
  {
    hide SizeAt, TrailerBytes;
    var k := KindFor(res, id);
    var front := base + (lgb + res + id);
    var t := TrailerBytes(k, |lgb|, |res|, |id|);
    assert base + Appended(lgb, res, id) == front + t;
    TailSizes(k, |lgb|, |res|, |id|, front);
  }

  /** Reading the file back gives the payload, the resources and the store id. */
  lemma AppendedReads(base: Bytes, lgb: Bytes, res: Bytes, id: Str)
    requires FileSized(base + Appended(lgb, res, id))
    ensures BundleIn(base + Appended(lgb, res, id))
         == Some(Bundle(lgb, if res == [] then None else Some(res), id))
  {
    hide Parsed, TrailerBytes;
    AppendedParses(base, lgb, res, id);
    var data := base + Appended(lgb, res, id);
    var t := TrailerBytes(KindFor(res, id), |lgb|, |res|, |id|);
    var n := |base|;
    assert data == base + lgb + res + id + t;
    assert data[n..n + |lgb|] == lgb;
    assert data[n + |lgb|..n + |lgb| + |res|] == res;
    assert data[n + |lgb| + |res|..n + |lgb| + |res| + |id|] == id;
  }

  /** Stripping before bundling again gives the base binary back, byte for byte. */
  lemma RebundlingRestoresBase(base: Bytes, lgb: Bytes, res: Bytes, id: Str)
    requires FileSized(base + Appended(lgb, res, id))
    ensures BaseSize(base + Appended(lgb, res, id)) == Some(|base|)
    ensures (base + Appended(lgb, res, id))[..|base|] == base
  {
    hide Parsed, TrailerBytes;
    AppendedParses(base, lgb, res, id);
  }

  /** The trailer appended is the least that will do: no shorter bytes behind the payload,
      the resources and the store id make the file read back as these three with the same
      base binary.  It has 28 bytes with a store id, 20 with resources only, else 12. */
  lemma LeastTrailer(base: Bytes, lgb: Bytes, res: Bytes, id: Str, t: Bytes)
    requires var data := base + lgb + res + id + t;
      && FileSized(data) && BaseSize(data) == Some(|base|)
      && BundleIn(data) == Some(Bundle(lgb, if res == [] then None else Some(res), id))
    ensures |Appended(lgb, res, id)| <= |lgb| + |res| + |id| + |t|
    ensures |Appended(lgb, res, id)| == |lgb| + |res| + |id| + if id != [] then 28 else if res != [] then 20 else 12
  {
    hide SizeAt, TrailerBytes;
    var data := base + lgb + res + id + t;
    var p := Parsed(data);
    var parts := Parts(data, p);
    assert |parts.lgb| == p.lgb && |parts.id| == p.id;
    assert p.res > 0 ==> parts.res.Some? && |parts.res.value| == p.res;
    assert TrailerLen(p.kind) == |t|;
    KindNeeded(data);
  }

  /** A trailer without a place for resources or a store id says there are none. */
  lemma KindNeeded(data: Bytes)
    ensures var p := Parsed(data);
      p.Payload? ==> (p.res > 0 ==> TrailerLen(p.kind) >= 20) && (p.id > 0 ==> TrailerLen(p.kind) >= 28)
  {
    hide SizeAt;
  }

  /** A file that ends with no trailer's magic carries no bundle: bundling starts behind all
      of it. */
  lemma PlainFile(data: Bytes)
    requires |data| < 12 || data[|data| - 4..] !in {LEGACY_MAGIC, V2_MAGIC, V3_MAGIC}
    ensures BundleIn(data) == None && BaseSize(data) == Some(|data|)
  {
    hide SizeAt;
  }

  /** A trailer that claims more than is before it is corrupt: nothing is read, and no size
      is given for the base binary. */
  lemma CorruptFile(front: Bytes, k: Kind, lgb: U64, res: U64, id: U64)
    requires (k.Legacy? ==> res == 0) && (!k.V3? ==> id == 0) && lgb + res + id > |front|
    ensures var data := front + TrailerBytes(k, lgb, res, id); BundleIn(data) == None && BaseSize(data) == None
  {
    hide SizeAt, TrailerBytes;
    TailSizes(k, lgb, res, id, front);
  }
}
