/** The chunk-record and section readers and writers as they run, proved to do what
    the encodings of Chunks and Sections say. */
module ChunkCodec {
  import opened Wire
  import opened Stream
  import opened Values
  import opened ValueCodec
  import opened Chunks
  import opened Sections

  // ------------------------------------------------------------- live chunks

  method ReadCode(r: Reader, n: nat) returns (o: Outcome<seq<I32>>)
    requires r.Valid()
    modifies r
    ensures r.Valid() && old(r.pos) <= r.pos
    ensures Reads(o, GetCode(old(r.Rest()), n), r.Rest())
  {
    hide GetI32;
    var code: seq<I32> := [];
    var i := 0;
    ghost var p := GetCode(r.Rest(), n);
    assert p.Got? ==> code + p.val == p.val;
    while i < n
      invariant 0 <= i <= n && r.Valid() && old(r.pos) <= r.pos
      invariant Resumes(p, code, GetCode(r.Rest(), n - i))
    {
      ghost var q := GetCode(r.Rest(), n - i);
      var op :- r.ReadI32();
      assert q.Got? ==> code + q.val == (code + [op]) + q.val[1..];
      code := code + [op];
      i := i + 1;
    }
    assert code + [] == code;
    o := Ok(code);
  }

  method ReadRaw(r: Reader) returns (o: Outcome<RawEntry>)
    requires r.Valid()
    modifies r
    ensures r.Valid() && old(r.pos) <= r.pos
    ensures Reads(o, GetRaw(old(r.Rest())), r.Rest())
  {
    hide GetVarint;
    var ip :- r.ReadVarint();
    var file :- r.ReadVarint();
    var line :- r.ReadVarint();
    var col :- r.ReadVarint();
    var eline :- r.ReadVarint();
    var ecol :- r.ReadVarint();
    o := Ok(RawEntry(ip, file, line, col, eline, ecol));
  }

  method ReadRaws(r: Reader, n: nat) returns (o: Outcome<seq<RawEntry>>)
    requires r.Valid()
    modifies r
    ensures r.Valid() && old(r.pos) <= r.pos
    ensures Reads(o, GetRaws(old(r.Rest()), n), r.Rest())
  {
    hide GetRaw;
    var xs: seq<RawEntry> := [];
    var i := 0;
    ghost var p := GetRaws(r.Rest(), n);
    assert p.Got? ==> xs + p.val == p.val;
    while i < n
      invariant 0 <= i <= n && r.Valid() && old(r.pos) <= r.pos
      invariant Resumes(p, xs, GetRaws(r.Rest(), n - i))
    {
      ghost var q := GetRaws(r.Rest(), n - i);
      var x :- ReadRaw(r);
      assert q.Got? ==> xs + q.val == (xs + [x]) + q.val[1..];
      xs := xs + [x];
      i := i + 1;
    }
    assert xs + [] == xs;
    o := Ok(xs);
  }

  /** readChunkRecord over a resident buffer. */
  method ReadLive(r: Reader) returns (o: Outcome<LiveChunk>)
    requires r.Valid()
    modifies r
    ensures r.Valid() && old(r.pos) <= r.pos
    ensures Reads(o, GetLive(old(r.Rest()), true), r.Rest())
  {
    hide GetVarint, GetCode, GetRaws;
    var ms :- r.ReadInt();
    var n :- r.ReadVarint();
    if n >= TWO63 {
      return Err(Panic);
    }
    var code :- ReadCode(r, n);
    var m :- r.ReadVarint();
    var sm :- ReadRaws(r, if m >= TWO63 then 0 else m);
    o := Ok(LiveChunk(ms, code, sm, []));
  }

  method SkipChunk(r: Reader) returns (o: Outcome<()>)
    requires r.Valid()
    modifies r
    ensures r.Valid() && old(r.pos) <= r.pos
    ensures Skips(o, ScanChunk(old(r.Rest())), r.Rest())
  {
    hide GetVarint, ScanVarints;
    var _ :- r.ReadVarint();
    var n :- r.ReadVarint();
    var _ :- r.Skip(ToI64(n * 4 % TWO64));
    var m :- r.ReadVarint();
    o := SkipVarints(r, LoopCount(m, 6));
  }

  // ---------------------------------------------------------- local variables

  method ReadLocalList(r: Reader, n: nat, strings: seq<Str>) returns (o: Outcome<seq<LocalVar>>)
    requires r.Valid()
    modifies r
    ensures r.Valid() && old(r.pos) <= r.pos
    ensures Reads(o, GetLocalList(old(r.Rest()), n, strings), r.Rest())
  {
    hide GetVarint, GetStr;
    var xs: seq<LocalVar> := [];
    var i := 0;
    ghost var p := GetLocalList(r.Rest(), n, strings);
    assert p.Got? ==> xs + p.val == p.val;
    while i < n
      invariant 0 <= i <= n && r.Valid() && old(r.pos) <= r.pos
      invariant Resumes(p, xs, GetLocalList(r.Rest(), n - i, strings))
    {
      ghost var q := GetLocalList(r.Rest(), n - i, strings);
      var slot :- r.ReadInt();
      var name :- ReadStr(r, strings);
      assert q.Got? ==> xs + q.val == (xs + [LocalVar(slot, name)]) + q.val[1..];
      xs := xs + [LocalVar(slot, name)];
      i := i + 1;
    }
    assert xs + [] == xs;
    o := Ok(xs);
  }

  /** readLocalVarTableInto: a count of 2^63 or more is a negative int, and reads
      nothing. */
  method ReadLocals(r: Reader, strings: seq<Str>) returns (o: Outcome<seq<LocalVar>>)
    requires r.Valid()
    modifies r
    ensures r.Valid() && old(r.pos) <= r.pos
    ensures Reads(o, GetLocals(old(r.Rest()), strings, true), r.Rest())
  {
    hide GetVarint, GetLocalList;
    var n :- r.ReadVarint();
    o := ReadLocalList(r, if n >= TWO63 then 0 else n, strings);
  }

  method SkipLocals(r: Reader) returns (o: Outcome<()>)
    requires r.Valid()
    modifies r
    ensures r.Valid() && old(r.pos) <= r.pos
    ensures Skips(o, ScanLocals(old(r.Rest())), r.Rest())
  {
    hide GetVarint, ScanVarints;
    var n :- r.ReadVarint();
    o := SkipVarints(r, LoopCount(n, 2));
  }

  // ------------------------------------------------------------ other sections

  method ReadStrings(r: Reader) returns (o: Outcome<seq<Str>>)
    requires r.Valid()
    modifies r
    ensures r.Valid() && old(r.pos) <= r.pos
    ensures Reads(o, GetStrings(old(r.Rest())), r.Rest())
  {
    hide GetVarint, GetBytes;
    var n :- r.ReadVarint();
    if n >= TWO63 {
      return Err(Panic);
    }
    var xs: seq<Str> := [];
    var i := 0;
    ghost var p := GetStringList(r.Rest(), n);
    assert p.Got? ==> xs + p.val == p.val;
    while i < n
      invariant 0 <= i <= n && r.Valid() && old(r.pos) <= r.pos
      invariant Resumes(p, xs, GetStringList(r.Rest(), n - i))
    {
      ghost var q := GetStringList(r.Rest(), n - i);
      var len :- r.ReadVarint();
      var x :- r.ReadBytes(len);
      assert q.Got? ==> xs + q.val == (xs + [x]) + q.val[1..];
      xs := xs + [x];
      i := i + 1;
    }
    assert xs + [] == xs;
    o := Ok(xs);
  }

  method ReadRuns(r: Reader, n: nat) returns (o: Outcome<seq<ConstRange>>)
    requires r.Valid()
    modifies r
    ensures r.Valid() && old(r.pos) <= r.pos
    ensures Reads(o, GetRuns(old(r.Rest()), n), r.Rest())
  {
    hide GetInt;
    var xs: seq<ConstRange> := [];
    var i := 0;
    ghost var p := GetRuns(r.Rest(), n);
    assert p.Got? ==> xs + p.val == p.val;
    while i < n
      invariant 0 <= i <= n && r.Valid() && old(r.pos) <= r.pos
      invariant Resumes(p, xs, GetRuns(r.Rest(), n - i))
    {
      ghost var q := GetRuns(r.Rest(), n - i);
      var lo :- r.ReadInt();
      var hi :- r.ReadInt();
      assert q.Got? ==> xs + q.val == (xs + [ConstRange(lo, hi)]) + q.val[1..];
      xs := xs + [ConstRange(lo, hi)];
      i := i + 1;
    }
    assert xs + [] == xs;
    o := Ok(xs);
  }

  method ReadRange(r: Reader, strings: seq<Str>) returns (o: Outcome<NSRange>)
    requires r.Valid()
    modifies r
    ensures r.Valid() && old(r.pos) <= r.pos
    ensures Reads(o, GetRange(old(r.Rest()), strings), r.Rest())
  {
    hide GetInt, GetStr, GetRuns;
    var name :- ReadStr(r, strings);
    var main :- r.ReadInt();
    var lo :- r.ReadInt();
    var hi :- r.ReadInt();
    var n :- r.ReadInt();
    if n < 0 {
      return Err(Panic);
    }
    var runs :- ReadRuns(r, n);
    o := Ok(NSRange(name, main, lo, hi, runs));
  }

  method ReadRanges(r: Reader, flag: bool, strings: seq<Str>) returns (o: Outcome<seq<NSRange>>)
    requires r.Valid()
    modifies r
    ensures r.Valid() && old(r.pos) <= r.pos
    ensures Reads(o, GetRanges(flag, old(r.Rest()), strings), r.Rest())
  {
    hide GetVarint, GetRange;
    if !flag {
      return Ok([]);
    }
    var n :- r.ReadVarint();
    if n >= TWO63 {
      return Err(Panic);
    }
    var xs: seq<NSRange> := [];
    var i := 0;
    ghost var p := GetRangeList(r.Rest(), n, strings);
    assert p.Got? ==> xs + p.val == p.val;
    while i < n
      invariant 0 <= i <= n && r.Valid() && old(r.pos) <= r.pos
      invariant Resumes(p, xs, GetRangeList(r.Rest(), n - i, strings))
    {
      ghost var q := GetRangeList(r.Rest(), n - i, strings);
      var x :- ReadRange(r, strings);
      assert q.Got? ==> xs + q.val == (xs + [x]) + q.val[1..];
      xs := xs + [x];
      i := i + 1;
    }
    assert xs + [] == xs;
    o := Ok(xs);
  }

  method ReadConstHead(r: Reader, flag: bool) returns (o: Outcome<ConstHead>)
    requires r.Valid()
    modifies r
    ensures r.Valid() && old(r.pos) <= r.pos
    ensures Reads(o, GetConstHead(flag, old(r.Rest())), r.Rest())
  {
    hide GetVarint;
    var n :- r.ReadVarint();
    var base := 0;
    if flag {
      base :- r.ReadInt();
    }
    o := Ok(ConstHead(n, base));
  }

  method ReadNSTable(r: Reader, strings: seq<Str>) returns (o: Outcome<map<Str, I64>>)
    requires r.Valid()
    modifies r
    ensures r.Valid() && old(r.pos) <= r.pos
    ensures Reads(o, GetNSTable(old(r.Rest()), strings), r.Rest())
  {
    hide GetVarint, GetStr;
    ghost var s0 := r.Rest();
    var start := r.pos;
    var c := r.ReadVarint();
    if c.Err? {
      r.pos := if |r.data| - start < MAX_VARINT_BYTES then |r.data| else start + MAX_VARINT_BYTES;
      return Ok(map[]);
    }
    var n := if c.value >= TWO63 then 0 else c.value;
    var table: map<Str, I64> := map[];
    var i := 0;
    ghost var p := GetNSEntries(r.Rest(), n, strings, map[]);
    while i < n
      invariant 0 <= i <= n && r.Valid() && old(r.pos) <= r.pos
      invariant p == GetNSEntries(r.Rest(), n - i, strings, table)
    {
      var name :- ReadStr(r, strings);
      var idx :- r.ReadInt();
      table := table[name := idx];
      i := i + 1;
    }
    o := Ok(table);
  }
}
