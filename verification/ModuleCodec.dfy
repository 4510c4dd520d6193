/** The encoder's section writers and the header reader as they run, proved to produce
    and to accept the encodings of Sections and Modules. */
module ModuleCodec {
  import opened Wire
  import opened Stream
  import opened Values
  import opened ValueCodec
  import opened Chunks
  import opened ChunkCodec
  import opened Sections
  import opened Sorting
  import opened Modules

  // -------------------------------------------------------------- the sections

  /** writeStringTable */
  method WriteStrings(out: Writer, ss: seq<Str>, ghost k: Bytes)
    requires StringsFit(ss)
    modifies out
    ensures Wrote(old(out.out), out.out, k, PutStrings(ss, k))
  {
    hide PutVarint;
    out.WriteVarint(|ss|, PutStringList(ss, k));
    var i := 0;
    assert ss[0..] == ss;
    while i < |ss|
      invariant 0 <= i <= |ss|
      invariant Wrote(old(out.out), out.out, PutStringList(ss[i..], k), PutStrings(ss, k))
    {
      assert ss[i..][1..] == ss[i + 1..];
      ghost var tail := PutStringList(ss[i + 1..], k);
      out.WriteVarint(|ss[i]|, ss[i] + tail);
      out.WriteBytes(ss[i], tail);
      i := i + 1;
    }
  }

  method WriteRuns(out: Writer, runs: seq<ConstRange>, ghost k: Bytes)
    modifies out
    ensures Wrote(old(out.out), out.out, k, PutRuns(runs, k))
  {
    hide PutVarint;
    var i := 0;
    assert runs[0..] == runs;
    while i < |runs|
      invariant 0 <= i <= |runs|
      invariant Wrote(old(out.out), out.out, PutRuns(runs[i..], k), PutRuns(runs, k))
    {
      assert runs[i..][1..] == runs[i + 1..];
      ghost var tail := PutRuns(runs[i + 1..], k);
      out.WriteVarint(ToU64(runs[i].lo), PutInt(runs[i].hi, tail));
      out.WriteVarint(ToU64(runs[i].hi), tail);
      i := i + 1;
    }
  }

  /** Slice lengths fit a Go int. */
  predicate RunsCountable(rs: seq<NSRange>) {
    |rs| < TWO63 && forall i :: 0 <= i < |rs| ==> |rs[i].runs| < TWO63
  }

  method WriteRange(out: Writer, r: NSRange, w: WriteIndex, ghost k: Bytes) returns (ok: bool)
    requires |r.runs| < TWO63
    modifies out
    ensures ok <==> r.name in w.strs
    ensures ok ==> Wrote(old(out.out), out.out, k, PutRange(r, w, k))
  {
    hide PutVarint, PutStr, PutRuns;
    ghost var s4 := PutInt(|r.runs|, PutRuns(r.runs, k));
    ghost var s3 := PutInt(r.chunkHi, s4);
    ghost var s2 := PutInt(r.chunkLo, s3);
    ok := WriteStr(out, r.name, w, PutInt(r.mainChunk, s2));
    if !ok {
      return;
    }
    out.WriteVarint(ToU64(r.mainChunk), s2);
    out.WriteVarint(ToU64(r.chunkLo), s3);
    out.WriteVarint(ToU64(r.chunkHi), s4);
    out.WriteVarint(|r.runs|, PutRuns(r.runs, k));
    WriteRuns(out, r.runs, k);
  }

  /** writeNSRanges */
  method WriteRanges(out: Writer, rs: seq<NSRange>, w: WriteIndex, ghost k: Bytes) returns (ok: bool)
    requires RunsCountable(rs)
    modifies out
    ensures ok <==> RangesFit(rs, w)
    ensures ok ==> Wrote(old(out.out), out.out, k, PutRanges(true, rs, w, k))
  {
    hide PutVarint, PutRange;
    ghost var all := RangesFit(rs, w);
    out.WriteVarint(|rs|, if all then PutRangeList(rs, w, k) else []);
    var i := 0;
    assert rs[0..] == rs;
    while i < |rs|
      invariant 0 <= i <= |rs| && forall j :: 0 <= j < i ==> RangeFits(rs[j], w)
      invariant all ==> Wrote(old(out.out), out.out, PutRangeList(rs[i..], w, k), PutRanges(true, rs, w, k))
    {
      assert rs[i..][1..] == rs[i + 1..];
      ok := WriteRange(out, rs[i], w, if all then PutRangeList(rs[i + 1..], w, k) else []);
      if !ok {
        return;
      }
      i := i + 1;
    }
    ok := true;
  }

  method WriteCode(out: Writer, code: seq<I32>, ghost k: Bytes)
    modifies out
    ensures Wrote(old(out.out), out.out, k, PutCode(code, k))
  {
    hide PutLE;
    var i := 0;
    assert code[0..] == code;
    while i < |code|
      invariant 0 <= i <= |code|
      invariant Wrote(old(out.out), out.out, PutCode(code[i..], k), PutCode(code, k))
    {
      assert code[i..][1..] == code[i + 1..];
      out.WriteFixed(if code[i] < 0 then code[i] + TWO32 else code[i], 4, PutCode(code[i + 1..], k));
      i := i + 1;
    }
  }

  method WriteEntry(out: Writer, e: SourceEntry, w: WriteIndex, ghost k: Bytes) returns (ok: bool)
    modifies out
    ensures ok <==> e.file in w.strs
    ensures ok ==> Wrote(old(out.out), out.out, k, PutEntry(e, w, k))
  {
    hide PutVarint, PutStr;
    ghost var s5 := PutInt(e.endColumn, k);
    ghost var s4 := PutInt(e.endLine, s5);
    ghost var s3 := PutInt(e.column, s4);
    ghost var s2 := PutInt(e.line, s3);
    out.WriteVarint(ToU64(e.startIP), if e.file in w.strs then PutStr(e.file, w, s2) else []);
    ok := WriteStr(out, e.file, w, s2);
    if !ok {
      return;
    }
    out.WriteVarint(ToU64(e.line), s3);
    out.WriteVarint(ToU64(e.column), s4);
    out.WriteVarint(ToU64(e.endLine), s5);
    out.WriteVarint(ToU64(e.endColumn), k);
  }

  method WriteEntries(out: Writer, sm: seq<SourceEntry>, w: WriteIndex, ghost k: Bytes) returns (ok: bool)
    requires |sm| < TWO63
    modifies out
    ensures ok <==> EntriesFit(sm, w)
    ensures ok ==> Wrote(old(out.out), out.out, k, PutEntries(sm, w, k))
  {
    hide PutEntry;
    ghost var all := EntriesFit(sm, w);
    var i := 0;
    assert sm[0..] == sm;
    while i < |sm|
      invariant 0 <= i <= |sm| && forall j :: 0 <= j < i ==> sm[j].file in w.strs
      invariant all ==> Wrote(old(out.out), out.out, PutEntries(sm[i..], w, k), PutEntries(sm, w, k))
    {
      assert sm[i..][1..] == sm[i + 1..];
      ok := WriteEntry(out, sm[i], w, if all then PutEntries(sm[i + 1..], w, k) else []);
      if !ok {
        return;
      }
      i := i + 1;
    }
    ok := true;
  }

  predicate ChunkCountable(c: ChunkData) {
    |c.code| < TWO63 && |c.sourceMap| < TWO63 && |c.localVars| < TWO63
  }

  predicate ChunksCountable(cs: seq<ChunkData>) {
    |cs| < TWO63 && forall i :: 0 <= i < |cs| ==> ChunkCountable(cs[i])
  }

  method WriteChunk(out: Writer, c: ChunkData, w: WriteIndex, ghost k: Bytes) returns (ok: bool)
    requires ChunkCountable(c)
    modifies out
    ensures ok <==> RecordFits(c, w)
    ensures ok ==> Wrote(old(out.out), out.out, k, PutChunk(c, w, k))
  {
    hide PutVarint, PutCode, PutEntries;
    ghost var s3 := PutVarint(|c.sourceMap|, if RecordFits(c, w) then PutEntries(c.sourceMap, w, k) else []);
    ghost var s2 := PutCode(c.code, s3);
    out.WriteVarint(ToU64(c.maxStack), PutVarint(|c.code|, s2));
    out.WriteVarint(|c.code|, s2);
    WriteCode(out, c.code, s3);
    out.WriteVarint(|c.sourceMap|, if RecordFits(c, w) then PutEntries(c.sourceMap, w, k) else []);
    ok := WriteEntries(out, c.sourceMap, w, k);
  }

  /** writeChunks */
  method WriteChunks(out: Writer, cs: seq<ChunkData>, w: WriteIndex, ghost k: Bytes) returns (ok: bool)
    requires ChunksCountable(cs)
    modifies out
    ensures ok <==> RecordsFit(cs, w)
    ensures ok ==> Wrote(old(out.out), out.out, k, PutChunks(cs, w, k))
  {
    hide PutVarint, PutChunk, RecordFits;
    ghost var all := RecordsFit(cs, w);
    out.WriteVarint(|cs|, if all then PutChunkList(cs, w, k) else []);
    var i := 0;
    assert cs[0..] == cs;
    while i < |cs|
      invariant 0 <= i <= |cs| && forall j :: 0 <= j < i ==> RecordFits(cs[j], w)
      invariant all ==> Wrote(old(out.out), out.out, PutChunkList(cs[i..], w, k), PutChunks(cs, w, k))
    {
      assert cs[i..][1..] == cs[i + 1..];
      ok := WriteChunk(out, cs[i], w, if all then PutChunkList(cs[i + 1..], w, k) else []);
      if !ok {
        return;
      }
      i := i + 1;
    }
    ok := true;
  }

  /** writeConsts */
  method WriteConsts(out: Writer, flag: bool, base: I64, vs: seq<Value>, w: WriteIndex, ghost k: Bytes)
    returns (ok: bool)
    requires |vs| < TWO63 && ShapedAll(vs)
    modifies out
    ensures ok <==> ConstsFit(vs, w)
    ensures ok ==> Wrote(old(out.out), out.out, k, PutConsts(flag, base, vs, w, k))
  {
    hide PutVarint, PutValues, WritableAll;
    assert ConstsFit(vs, w) <==> WritableAll(vs, w);
    ghost var body := if ConstsFit(vs, w) then PutValues(vs, w, k) else [];
    out.WriteVarint(|vs|, if flag then PutInt(base, body) else body);
    if flag {
      out.WriteVarint(ToU64(base), body);
    }
    ok := WriteValues(out, vs, w, k);
  }

  lemma ListsKeys(names: seq<Str>, keys: set<Str>)
    requires Enumerates(names, keys)
    ensures (forall i :: 0 <= i < |names| ==> names[i] in keys) && forall x :: x in keys ==> x in names
  {
  }

  predicate AllIn(names: seq<Str>, keys: set<Str>) {
    forall i :: 0 <= i < |names| ==> names[i] in keys
  }

  method WriteNSEntries(out: Writer, names: seq<Str>, table: map<Str, I64>, w: WriteIndex, ghost k: Bytes)
    returns (ok: bool)
    requires AllIn(names, table.Keys)
    modifies out
    ensures ok <==> AllIn(names, w.strs.Keys)
    ensures ok ==> Wrote(old(out.out), out.out, k, PutNSEntries(names, table, w, k))
  {
    hide PutVarint, PutStr;
    ghost var all := AllIn(names, w.strs.Keys);
    var i := 0;
    assert names[0..] == names;
    while i < |names|
      invariant 0 <= i <= |names| && forall j :: 0 <= j < i ==> names[j] in w.strs
      invariant all ==>
        Wrote(old(out.out), out.out, PutNSEntries(names[i..], table, w, k), PutNSEntries(names, table, w, k))
    {
      assert names[i..][1..] == names[i + 1..];
      ghost var tail := if all then PutNSEntries(names[i + 1..], table, w, k) else [];
      ok := WriteStr(out, names[i], w, PutInt(table[names[i]], tail));
      if !ok {
        return;
      }
      out.WriteVarint(ToU64(table[names[i]]), tail);
      i := i + 1;
    }
    ok := true;
  }

  /** writeNSTable: the names in string order. */
  method WriteNSTable(out: Writer, table: map<Str, I64>, w: WriteIndex, ghost names: seq<Str>, ghost k: Bytes)
    returns (ok: bool)
    requires Enumerates(names, table.Keys) && |names| < TWO63
    modifies out
    ensures ok <==> table.Keys <= w.strs.Keys
    ensures ok ==> Wrote(old(out.out), out.out, k, PutNSTable(names, table, w, k))
  {
    hide PutVarint, PutNSEntries, Enumerates;
    var sorted := SortNames(table.Keys);
    EnumerationUnique(sorted, names, table.Keys);
    ListsKeys(sorted, table.Keys);
    assert table.Keys <= w.strs.Keys <==> AllIn(sorted, w.strs.Keys);
    out.WriteVarint(|sorted|, if table.Keys <= w.strs.Keys then PutNSEntries(names, table, w, k) else []);
    ok := WriteNSEntries(out, sorted, table, w, k);
  }

  method WriteLocals(out: Writer, lvs: seq<LocalVar>, w: WriteIndex, ghost k: Bytes) returns (ok: bool)
    requires |lvs| < TWO63
    modifies out
    ensures ok <==> LocalsFit(lvs, w)
    ensures ok ==> Wrote(old(out.out), out.out, k, PutLocals(lvs, w, k))
  {
    hide PutVarint, PutStr;
    ghost var all := LocalsFit(lvs, w);
    out.WriteVarint(|lvs|, if all then PutLocalList(lvs, w, k) else []);
    var i := 0;
    assert lvs[0..] == lvs;
    while i < |lvs|
      invariant 0 <= i <= |lvs| && forall j :: 0 <= j < i ==> lvs[j].name in w.strs
      invariant all ==> Wrote(old(out.out), out.out, PutLocalList(lvs[i..], w, k), PutLocals(lvs, w, k))
    {
      assert lvs[i..][1..] == lvs[i + 1..];
      ghost var tail := if all then PutLocalList(lvs[i + 1..], w, k) else [];
      out.WriteVarint(ToU64(lvs[i].slot), if all then PutStr(lvs[i].name, w, tail) else []);
      ok := WriteStr(out, lvs[i].name, w, tail);
      if !ok {
        return;
      }
      i := i + 1;
    }
    ok := true;
  }

  /** writeLocalVarTables */
  method WriteLocalTables(out: Writer, cs: seq<ChunkData>, w: WriteIndex, ghost k: Bytes) returns (ok: bool)
    requires ChunksCountable(cs)
    modifies out
    ensures ok <==> TablesFit(cs, w)
    ensures ok ==> Wrote(old(out.out), out.out, k, PutLocalTables(cs, w, k))
  {
    hide PutLocals, LocalsFit;
    ghost var all := TablesFit(cs, w);
    var i := 0;
    assert cs[0..] == cs;
    while i < |cs|
      invariant 0 <= i <= |cs| && forall j :: 0 <= j < i ==> LocalsFit(cs[j].localVars, w)
      invariant all ==> Wrote(old(out.out), out.out, PutLocalTables(cs[i..], w, k), PutLocalTables(cs, w, k))
    {
      assert cs[i..][1..] == cs[i + 1..];
      ok := WriteLocals(out, cs[i].localVars, w, if all then PutLocalTables(cs[i + 1..], w, k) else []);
      if !ok {
        return;
      }
      i := i + 1;
    }
    ok := true;
  }

  // ------------------------------------------------------------------ the body

  /** What Go guarantees of a module's slices and values. */
  predicate Countable(m: Module) {
    && StringsFit(m.strings) && RunsCountable(m.ranges) && ChunksCountable(m.chunks)
    && |m.consts| < TWO63 && ShapedAll(m.consts) && |m.nsTable.Keys| < TWO63
  }

  /** writeBody */
  method WriteBody(out: Writer, m: Module, w: WriteIndex, ghost names: seq<Str>, ghost k: Bytes) returns (ok: bool)
    requires Countable(m) && Lists(names, m)
    modifies out
    ensures ok <==> Fits(m, w)
    ensures ok ==> Wrote(old(out.out), out.out, k, PutBody(m, w, names, k))
  {
    hide PutStrings, PutRanges, PutChunks, PutConsts, PutNSTable, PutLocalTables, StringsFit, RunsCountable,
         ChunksCountable, RecordsFit, RangesFit, ConstsFit, TablesFit, Enumerates, ShapedAll;
    ghost var all := Fits(m, w);
    ghost var s5 := if all && m.flags.localVars then PutLocalTables(m.chunks, w, k) else k;
    ghost var s4 := if all then PutTablePart(m, w, names, s5) else [];
    ghost var s3 := if all then PutConsts(m.flags.constsBase, m.base, m.consts, w, s4) else [];
    ghost var s2 := if all then PutChunks(m.chunks, w, s3) else [];
    WriteStrings(out, m.strings, if all then PutRanges(m.flags.nsRanges, m.ranges, w, s2) else []);
    if m.flags.nsRanges {
      ok := WriteRanges(out, m.ranges, w, s2);
      if !ok {
        return;
      }
    } else {
      assert all ==> PutRanges(false, m.ranges, w, s2) == s2 by { NoRanges(m.ranges, w, s2); }
    }
    ok := WriteChunks(out, m.chunks, w, s3);
    if !ok {
      return;
    }
    ok := WriteConsts(out, m.flags.constsBase, m.base, m.consts, w, s4);
    if !ok {
      return;
    }
    ok := WriteNSTable(out, m.nsTable, w, names, s5);
    if !ok {
      return;
    }
    if m.flags.localVars {
      ok := WriteLocalTables(out, m.chunks, w, k);
    }
  }

  lemma NoRanges(rs: seq<NSRange>, w: WriteIndex, k: Bytes)
    ensures PutRanges(false, rs, w, k) == k
  {
  }

  ghost function PutTablePart(m: Module, w: WriteIndex, names: seq<Str>, k: Bytes): Bytes
    requires Fits(m, w) && Lists(names, m)
  {
    PutNSTable(names, m.nsTable, w, k)
  }

  // -------------------------------------------------------------------- header

  /** writeHeader */
  method WriteHeader(out: Writer, f: Flags, caps: nat, rt: Runtime, ghost k: Bytes)
    modifies out
    ensures Wrote(old(out.out), out.out, k, PutHeader(f, caps, rt, k))
  {
    hide PutVarint, PutLE, FlagBits;
    ghost var sig := PutVarint(rt.running.count, PutLE(rt.running.hash, 8, k));
    ghost var s3 := PutCaps(f, caps, rt, k);
    ghost var s2 := PutLE(FlagBits(f), 2, s3);
    out.WriteBytes(MAGIC, PutLE(FormatVersion(f), 2, s2));
    out.WriteFixed(FormatVersion(f), 2, s2);
    out.WriteFixed(FlagBits(f), 2, s3);
    if f.capabilities {
      out.WriteFixed(caps, 4, if HasOpcodeSet(caps) then sig else k);
      if HasOpcodeSet(caps) {
        out.WriteVarint(rt.running.count, PutLE(rt.running.hash, 8, k));
        out.WriteFixed(rt.running.hash, 8, k);
      }
    }
  }

  /** encode: a compressed body is serialized first, so that its size can be declared. */
  method Encode(m: Module, w: WriteIndex, rt: Runtime, c: Codec, ghost names: seq<Str>) returns (data: Option<Bytes>)
    requires Countable(m) && Lists(names, m)
    ensures data.None? <==> !Fits(m, w) || EncodeModule(m, w, names, rt, c).None?
    ensures data.Some? ==> data == EncodeModule(m, w, names, rt, c)
  {
    hide PutHeader, PutBody, PutVarint, Countable, Lists, Fits;
    var out := new Writer();
    var ok;
    if !m.flags.compressed {
      ghost var body := if Fits(m, w) then PutBody(m, w, names, []) else [];
      WriteHeader(out, m.flags, m.caps, rt, body);
      ok := WriteBody(out, m, w, names, []);
      if !ok {
        return None;
      }
      WroteAll(out.out, PutHeader(m.flags, m.caps, rt, body));
      return Some(out.out);
    }
    var raw := new Writer();
    ok := WriteBody(raw, m, w, names, []);
    if !ok {
      return None;
    }
    var body := raw.out;
    WroteAll(body, PutBody(m, w, names, []));
    if |body| > MAX_BODY {
      return None;
    }
    ghost var s := [FLATE] + c.deflate(body);
    WriteHeader(out, m.flags, m.caps, rt, PutVarint(|body|, s));
    out.WriteVarint(|body|, s);
    out.WriteByte(FLATE, c.deflate(body));
    out.WriteBytes(c.deflate(body), []);
    WroteAll(out.out, PutHeader(m.flags, m.caps, rt, PutVarint(|body|, s)));
    data := Some(out.out);
  }

  lemma WroteAll(bytes: Bytes, put: Bytes)
    requires Wrote([], bytes, [], put)
    ensures bytes == put
  {
    assert bytes + [] == bytes && [] + put == put;
  }

  method ReadSig(r: Reader) returns (o: Outcome<Sig>)
    requires r.Valid()
    modifies r
    ensures r.Valid() && old(r.pos) <= r.pos
    ensures Reads(o, GetSig(old(r.Rest())), r.Rest())
  {
    hide GetVarint, GetU64;
    var n :- r.ReadVarint();
    var h :- r.ReadU64();
    o := Ok(Sig(n, h));
  }

  /** readCapabilities */
  method ReadCaps(r: Reader, version: nat, f: Flags, rt: Runtime) returns (o: Outcome<Header>)
    requires r.Valid()
    modifies r
    ensures r.Valid() && old(r.pos) <= r.pos
    ensures Reads(o, GetCaps(version, f, old(r.Rest()), rt), r.Rest())
  {
    hide GetLE, GetSig;
    if !f.capabilities {
      var migrate := ResolveOpcodes(rt.former, rt);
      if migrate.None? {
        return Err(OpcodeMismatch);
      }
      return Ok(Header(version, f, 0, migrate.value));
    }
    var caps :- r.ReadFixed(4);
    if !CapsSupported(caps) {
      return Err(BadCapabilities);
    }
    if !HasOpcodeSet(caps) {
      return Ok(Header(version, f, caps, false));
    }
    var sig :- ReadSig(r);
    var migrate := ResolveOpcodes(sig, rt);
    if migrate.None? {
      return Err(OpcodeMismatch);
    }
    o := Ok(Header(version, f, caps, migrate.value));
  }

  /** readHeader, then readCapabilities. */
  method ReadHeader(r: Reader, rt: Runtime) returns (o: Outcome<Header>)
    requires r.Valid()
    modifies r
    ensures r.Valid() && old(r.pos) <= r.pos
    ensures Reads(o, GetHeader(old(r.Rest()), rt), r.Rest())
  {
    hide GetLE, GetCaps, FlagsOf;
    var magic := r.ReadBytes(4);
    if magic.Err? {
      return Err(Eof);
    }
    if magic.value != MAGIC {
      return Err(BadMagic);
    }
    var version :- r.ReadFixed(2);
    var bits :- r.ReadFixed(2);
    if version != 2 && version != 3 {
      return Err(BadVersion);
    }
    if !FlagsAdmitted(version, bits) {
      return Err(BadFlags);
    }
    o := ReadCaps(r, version, FlagsOf(bits), rt);
  }

  /** beginCompressedBody: the inflated body, which the caller reads from here on. */
  method ReadInflated(r: Reader, c: Codec) returns (o: Outcome<Bytes>)
    requires r.Valid()
    modifies r
    ensures match GetInflated(old(r.Rest()), c) case Got(body, _) => o == Ok(body) case Fail(e) => o == Err(e)
  {
    hide GetVarint;
    var size :- r.ReadVarint();
    if size > MAX_BODY {
      return Err(BodyTooLarge);
    }
    var codec :- r.ReadByte();
    if codec != FLATE {
      return Err(BadCodec);
    }
    var body := c.inflate(r.data[r.pos..]);
    if body.None? {
      return Err(BadInflate);
    }
    if |body.value| != size {
      return Err(BodySize);
    }
    o := Ok(body.value);
  }

  // ------------------------------------------------------- reading a module

  method ReadEntry(r: Reader, strings: seq<Str>) returns (o: Outcome<SourceEntry>)
    requires r.Valid()
    modifies r
    ensures r.Valid() && old(r.pos) <= r.pos
    ensures Reads(o, GetEntry(old(r.Rest()), strings), r.Rest())
  {
    hide GetInt, GetStr;
    var ip :- r.ReadInt();
    var file :- ReadStr(r, strings);
    var line :- r.ReadInt();
    var col :- r.ReadInt();
    var eline :- r.ReadInt();
    var ecol :- r.ReadInt();
    o := Ok(SourceEntry(ip, file, line, col, eline, ecol));
  }

  method ReadEntries(r: Reader, n: nat, strings: seq<Str>) returns (o: Outcome<seq<SourceEntry>>)
    requires r.Valid()
    modifies r
    ensures r.Valid() && old(r.pos) <= r.pos
    ensures Reads(o, GetEntries(old(r.Rest()), n, strings), r.Rest())
  {
    hide GetEntry;
    var xs: seq<SourceEntry> := [];
    var i := 0;
    ghost var p := GetEntries(r.Rest(), n, strings);
    assert p.Got? ==> xs + p.val == p.val;
    while i < n
      invariant 0 <= i <= n && r.Valid() && old(r.pos) <= r.pos
      invariant Resumes(p, xs, GetEntries(r.Rest(), n - i, strings))
    {
      ghost var q := GetEntries(r.Rest(), n - i, strings);
      var x :- ReadEntry(r, strings);
      assert q.Got? ==> xs + q.val == (xs + [x]) + q.val[1..];
      xs := xs + [x];
      i := i + 1;
    }
    assert xs + [] == xs;
    o := Ok(xs);
  }

  method ReadChunkData(r: Reader, strings: seq<Str>) returns (o: Outcome<ChunkData>)
    requires r.Valid()
    modifies r
    ensures r.Valid() && old(r.pos) <= r.pos
    ensures Reads(o, GetChunkData(old(r.Rest()), strings), r.Rest())
  {
    hide GetVarint, GetCode, GetEntries;
    var ms :- r.ReadInt();
    var n :- r.ReadVarint();
    if n >= TWO63 {
      return Err(Panic);
    }
    var code :- ReadCode(r, n);
    var m :- r.ReadVarint();
    if m >= TWO63 {
      return Err(Panic);
    }
    var sm :- ReadEntries(r, m, strings);
    o := Ok(ChunkData(ms, code, sm, []));
  }

  /** readChunks */
  method ReadChunks(r: Reader, strings: seq<Str>) returns (o: Outcome<seq<ChunkData>>)
    requires r.Valid()
    modifies r
    ensures r.Valid() && old(r.pos) <= r.pos
    ensures Reads(o, GetChunks(old(r.Rest()), strings), r.Rest())
  {
    hide GetVarint, GetChunkData;
    var n :- r.ReadVarint();
    if n >= TWO63 {
      return Err(Panic);
    }
    var xs: seq<ChunkData> := [];
    var i := 0;
    ghost var p := GetChunkList(r.Rest(), n, strings);
    assert p.Got? ==> xs + p.val == p.val;
    while i < n
      invariant 0 <= i <= n && r.Valid() && old(r.pos) <= r.pos
      invariant Resumes(p, xs, GetChunkList(r.Rest(), n - i, strings))
    {
      ghost var q := GetChunkList(r.Rest(), n - i, strings);
      var x :- ReadChunkData(r, strings);
      assert q.Got? ==> xs + q.val == (xs + [x]) + q.val[1..];
      xs := xs + [x];
      i := i + 1;
    }
    assert xs + [] == xs;
    o := Ok(xs);
  }

  /** readConstsV2 */
  method ReadModuleConsts(r: Reader, flag: bool, e: Env) returns (o: Outcome<Consts>)
    requires r.Valid()
    modifies r
    ensures r.Valid() && old(r.pos) <= r.pos
    ensures Reads(o, GetModuleConsts(flag, old(r.Rest()), e), r.Rest())
  {
    hide GetConstHead, GetValues;
    var head :- ReadConstHead(r, flag);
    if head.count >= TWO63 {
      return Err(Panic);
    }
    var vals :- ReadValues(r, head.count, e);
    o := Ok(Consts(head.base, vals));
  }

  /** readLocalVarTables: a table's length is allocated before it is read. */
  method ReadLocalTables(r: Reader, n: nat, strings: seq<Str>) returns (o: Outcome<seq<seq<LocalVar>>>)
    requires r.Valid()
    modifies r
    ensures r.Valid() && old(r.pos) <= r.pos
    ensures Reads(o, GetLocalTables(old(r.Rest()), n, strings, false), r.Rest())
  {
    hide GetLocals;
    var xs: seq<seq<LocalVar>> := [];
    var i := 0;
    ghost var p := GetLocalTables(r.Rest(), n, strings, false);
    assert p.Got? ==> xs + p.val == p.val;
    while i < n
      invariant 0 <= i <= n && r.Valid() && old(r.pos) <= r.pos
      invariant Resumes(p, xs, GetLocalTables(r.Rest(), n - i, strings, false))
    {
      ghost var q := GetLocalTables(r.Rest(), n - i, strings, false);
      var x :- ReadCountedLocals(r, strings);
      assert q.Got? ==> xs + q.val == (xs + [x]) + q.val[1..];
      xs := xs + [x];
      i := i + 1;
    }
    assert xs + [] == xs;
    o := Ok(xs);
  }

  method ReadCountedLocals(r: Reader, strings: seq<Str>) returns (o: Outcome<seq<LocalVar>>)
    requires r.Valid()
    modifies r
    ensures r.Valid() && old(r.pos) <= r.pos
    ensures Reads(o, GetLocals(old(r.Rest()), strings, false), r.Rest())
  {
    hide GetVarint, GetLocalList;
    var n :- r.ReadVarint();
    if n >= TWO63 {
      return Err(Panic);
    }
    o := ReadLocalList(r, n, strings);
  }

  /** The body sections of readModuleV2. */
  method ReadBody(r: Reader, h: Header, valid: TextParsers) returns (o: Outcome<Module>)
    requires r.Valid()
    modifies r
    ensures r.Valid() && old(r.pos) <= r.pos
    ensures Reads(o, GetBody(h, old(r.Rest()), valid), r.Rest())
  {
    hide GetStrings, GetRanges, GetChunks, GetModuleConsts, GetNSTable, GetLocalTables, AllLiveEnv, AttachLocals;
    var strings :- ReadStrings(r);
    var ranges :- ReadRanges(r, h.flags.nsRanges, strings);
    var chunks :- ReadChunks(r, strings);
    var consts :- ReadModuleConsts(r, h.flags.constsBase, AllLiveEnv(strings, |chunks|, valid, true));
    var table :- ReadNSTable(r, strings);
    if h.flags.localVars {
      var locals :- ReadLocalTables(r, |chunks|, strings);
      chunks := AttachLocals(chunks, locals);
    }
    o := Ok(Module(h.version, h.flags, h.caps, strings, chunks, consts.vals, consts.base, table, ranges));
  }

  /** Decode */
  method Decode(data: Bytes, rt: Runtime, valid: TextParsers, c: Codec) returns (o: Outcome<Module>)
    ensures match DecodeModule(data, rt, valid, c) case Got(m, _) => o == Ok(m) case Fail(e) => o == Err(e)
  {
    hide GetHeader, GetInflated, GetBody;
    var r := new Reader(data);
    var h :- ReadHeader(r, rt);
    if h.flags.compressed {
      var body :- ReadInflated(r, c);
      r := new Reader(body);
      o := ReadBody(r, h, valid);
      if o.Ok? && r.pos != |r.data| {
        o := Err(BodySize);
      }
    } else {
      o := ReadBody(r, h, valid);
    }
  }
}
