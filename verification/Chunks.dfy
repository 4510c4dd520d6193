/** Chunk records and local-variable tables: writing, the two readers (into module
    data, and into live chunks whose source map stays undecoded), and skipping. */
module Chunks {
  import opened Wire
  import opened Values
  import opened ValueProofs

  datatype SourceEntry = SourceEntry(startIP: I64, file: Str, line: I64, column: I64, endLine: I64, endColumn: I64)
  datatype LocalVar = LocalVar(slot: I64, name: Str)
  datatype ChunkData = ChunkData(maxStack: I64, code: seq<I32>, sourceMap: seq<SourceEntry>, localVars: seq<LocalVar>)

  /** A source-map entry as a live chunk keeps it: six integers, the file still an
      index into the string table. */
  datatype RawEntry = RawEntry(startIP: U64, file: U64, line: U64, column: U64, endLine: U64, endColumn: U64)

  /** A decoded, executable chunk. */
  datatype LiveChunk = LiveChunk(maxStack: I64, code: seq<I32>, sourceMap: seq<RawEntry>, localVars: seq<LocalVar>)

  /** decodeRawSourceMap: an index outside the string table gives no file name. */
  function Resolve(raw: RawEntry, strings: seq<Str>): SourceEntry {
    SourceEntry(ToI64(raw.startIP), if raw.file < |strings| then strings[raw.file] else [],
                ToI64(raw.line), ToI64(raw.column), ToI64(raw.endLine), ToI64(raw.endColumn))
  }

  function ResolveAll(raws: seq<RawEntry>, strings: seq<Str>): (r: seq<SourceEntry>)
    ensures |r| == |raws|
    ensures forall i :: 0 <= i < |r| ==> r[i] == Resolve(raws[i], strings)
  {
    seq(|raws|, i requires 0 <= i < |raws| => Resolve(raws[i], strings))
  }

  // ----------------------------------------------------------------- writing

  function PutCode(code: seq<I32>, k: Bytes): Bytes {
    if code == [] then k else PutI32(code[0], PutCode(code[1..], k))
  }

  predicate EntriesFit(sm: seq<SourceEntry>, w: WriteIndex) {
    |sm| < TWO63 && forall i :: 0 <= i < |sm| ==> sm[i].file in w.strs
  }

  predicate LocalsFit(lvs: seq<LocalVar>, w: WriteIndex) {
    |lvs| < TWO63 && forall i :: 0 <= i < |lvs| ==> lvs[i].name in w.strs
  }

  /** The chunk's own record can be written; its local variables are written elsewhere. */
  predicate RecordFits(c: ChunkData, w: WriteIndex) {
    |c.code| < TWO63 && EntriesFit(c.sourceMap, w)
  }

  function PutEntry(e: SourceEntry, w: WriteIndex, k: Bytes): Bytes
    requires e.file in w.strs
  {
    PutInt(e.startIP, PutStr(e.file, w, PutInt(e.line, PutInt(e.column, PutInt(e.endLine, PutInt(e.endColumn, k))))))
  }

  function PutEntries(sm: seq<SourceEntry>, w: WriteIndex, k: Bytes): Bytes
    requires EntriesFit(sm, w)
  {
    if sm == [] then k else PutEntry(sm[0], w, PutEntries(sm[1..], w, k))
  }

  /** One chunk record: stack bound, code, source map. */
  function PutChunk(c: ChunkData, w: WriteIndex, k: Bytes): Bytes
    requires RecordFits(c, w)
  {
    PutInt(c.maxStack, PutVarint(|c.code|, PutCode(c.code, PutVarint(|c.sourceMap|, PutEntries(c.sourceMap, w, k)))))
  }

  function PutLocalList(lvs: seq<LocalVar>, w: WriteIndex, k: Bytes): Bytes
    requires LocalsFit(lvs, w)
  {
    if lvs == [] then k else PutInt(lvs[0].slot, PutStr(lvs[0].name, w, PutLocalList(lvs[1..], w, k)))
  }

  function PutLocals(lvs: seq<LocalVar>, w: WriteIndex, k: Bytes): Bytes
    requires LocalsFit(lvs, w)
  {
    PutVarint(|lvs|, PutLocalList(lvs, w, k))
  }

  // ----------------------------------------------------------------- reading

  function GetCode(s: Bytes, n: nat): (p: Parse<seq<I32>>)
    ensures p.Got? ==> |p.val| == n && 4 * n <= |s| && p.rest == s[4 * n..]
    decreases n
  {
    if n == 0 then Got([], s)
    else
      var (op, s1) :- GetI32(s);
      var (ops, s2) :- GetCode(s1, n - 1);
      Got([op] + ops, s2)
  }

  function GetEntry(s: Bytes, strings: seq<Str>): (p: Parse<SourceEntry>)
    ensures p.Got? ==> |p.rest| < |s|
  {
    var (ip, s1) :- GetInt(s);
    var (file, s2) :- GetStr(s1, strings);
    var (line, s3) :- GetInt(s2);
    var (col, s4) :- GetInt(s3);
    var (eline, s5) :- GetInt(s4);
    var (ecol, s6) :- GetInt(s5);
    Got(SourceEntry(ip, file, line, col, eline, ecol), s6)
  }

  function GetEntries(s: Bytes, n: nat, strings: seq<Str>): (p: Parse<seq<SourceEntry>>)
    ensures p.Got? ==> |p.rest| <= |s| && |p.val| == n
    decreases n
  {
    if n == 0 then Got([], s)
    else
      var (x, s1) :- GetEntry(s, strings);
      var (xs, s2) :- GetEntries(s1, n - 1, strings);
      Got([x] + xs, s2)
  }

  /** One record of readChunks. */
  function GetChunkData(s: Bytes, strings: seq<Str>): (p: Parse<ChunkData>)
    ensures p.Got? ==> |p.rest| < |s|
  {
    var (ms, s1) :- GetInt(s);
    var (n, s2) :- GetVarint(s1);
    if n >= TWO63 then Fail(Panic)
    else
      var (code, s3) :- GetCode(s2, n);
      var (m, s4) :- GetVarint(s3);
      if m >= TWO63 then Fail(Panic)
      else
        var (sm, s5) :- GetEntries(s4, m, strings);
        Got(ChunkData(ms, code, sm, []), s5)
  }

  function GetRaw(s: Bytes): (p: Parse<RawEntry>)
    ensures p.Got? ==> |p.rest| + 6 <= |s|
  {
    var (ip, s1) :- GetVarint(s);
    var (file, s2) :- GetVarint(s1);
    var (line, s3) :- GetVarint(s2);
    var (col, s4) :- GetVarint(s3);
    var (eline, s5) :- GetVarint(s4);
    var (ecol, s6) :- GetVarint(s5);
    Got(RawEntry(ip, file, line, col, eline, ecol), s6)
  }

  function GetRaws(s: Bytes, n: nat): (p: Parse<seq<RawEntry>>)
    ensures p.Got? ==> |p.rest| + 6 * n <= |s| && |p.val| == n
    decreases n
  {
    if n == 0 then Got([], s)
    else
      var (x, s1) :- GetRaw(s);
      var (xs, s2) :- GetRaws(s1, n - 1);
      Got([x] + xs, s2)
  }

  /** The iterations of `for j := 0; j < int(count)*width; j++`. */
  function LoopCount(count: U64, width: nat): nat {
    var n := ToI64(count * width % TWO64);
    if n < 0 then 0 else n
  }

  /** readChunkRecord over a resident buffer.  A source-map count of 2^63 or more is
      a negative int and reads no entry; with `wide` false it is refused unless
      skipping takes no entry either. */
  function GetLive(s: Bytes, wide: bool): (p: Parse<LiveChunk>)
    ensures p.Got? ==> |p.rest| < |s|
  {
    var (ms, s1) :- GetInt(s);
    var (n, s2) :- GetVarint(s1);
    if n >= TWO63 then Fail(Panic)
    else
      var (code, s3) :- GetCode(s2, n);
      var (m, s4) :- GetVarint(s3);
      if m >= TWO63 && !wide && LoopCount(m, 6) != 0 then Fail(Panic)
      else
        var (sm, s5) :- GetRaws(s4, if m >= TWO63 then 0 else m);
        Got(LiveChunk(ms, code, sm, []), s5)
  }

  function GetLocalList(s: Bytes, n: nat, strings: seq<Str>): (p: Parse<seq<LocalVar>>)
    ensures p.Got? ==> |p.rest| + 2 * n <= |s| && |p.val| == n
    decreases n
  {
    if n == 0 then Got([], s)
    else
      var (slot, s1) :- GetInt(s);
      var (name, s2) :- GetStr(s1, strings);
      var (xs, s3) :- GetLocalList(s2, n - 1, strings);
      Got([LocalVar(slot, name)] + xs, s3)
  }

  /** One chunk's local-variable table, with the same treatment of a wide count. */
  function GetLocals(s: Bytes, strings: seq<Str>, wide: bool): (p: Parse<seq<LocalVar>>)
    ensures p.Got? ==> |p.rest| < |s|
  {
    var (n, s1) :- GetVarint(s);
    if n >= TWO63 && !wide then Fail(Panic)
    else GetLocalList(s1, if n >= TWO63 then 0 else n, strings)
  }

  // ---------------------------------------------------------------- skipping

  /** skipChunkRecord */
  function ScanChunk(s: Bytes): Parse<()> {
    var (_, s1) :- GetVarint(s);
    var (n, s2) :- GetVarint(s1);
    var (_, s3) :- GetSkip(s2, ToI64(n * 4 % TWO64));
    var (m, s4) :- GetVarint(s3);
    ScanVarints(s4, LoopCount(m, 6))
  }

  /** skipLocalVarTable */
  function ScanLocals(s: Bytes): Parse<()> {
    var (n, s1) :- GetVarint(s);
    ScanVarints(s1, LoopCount(n, 2))
  }

  lemma {:induction false} ScanVarintsSplit(s: Bytes, m: nat, n: nat)
    requires ScanVarints(s, m).Got?
    ensures ScanVarints(s, m + n) == ScanVarints(ScanVarints(s, m).rest, n)
    decreases m
  {
    hide GetVarint, PutVarint;
    if m == 0 {
    } else {
      ScanVarintsSplit(GetVarint(s).rest, m - 1, n);
    }
  }

  lemma RawScan(s: Bytes)
    requires GetRaw(s).Got?
    ensures ScanVarints(s, 6) == Got((), GetRaw(s).rest)
  {
    hide GetVarint, PutVarint;
    var s1 := GetVarint(s).rest;
    var s2 := GetVarint(s1).rest;
    var s3 := GetVarint(s2).rest;
    var s4 := GetVarint(s3).rest;
    var s5 := GetVarint(s4).rest;
    assert ScanVarints(s5, 1) == ScanVarints(GetRaw(s).rest, 0);
    assert ScanVarints(s3, 3) == ScanVarints(s4, 2) == ScanVarints(s5, 1);
    assert ScanVarints(s, 6) == ScanVarints(s1, 5) == ScanVarints(s2, 4) == ScanVarints(s3, 3);
  }

  lemma {:induction false} RawsScan(s: Bytes, n: nat)
    requires GetRaws(s, n).Got?
    ensures ScanVarints(s, 6 * n) == Got((), GetRaws(s, n).rest)
    decreases n
  {
    hide GetVarint, PutVarint, GetRaw;
    if n == 0 {
    } else {
      RawScan(s);
      RawsScan(GetRaw(s).rest, n - 1);
      ScanVarintsSplit(s, 6, 6 * (n - 1));
    }
  }

  /** Skipping a chunk record mirrors reading it, on every buffer, unless the source-map
      count is one that the strict reader refuses. */
  lemma ChunkSkipMirrorsRead(s: Bytes)
    requires |s| < TWO63 && GetLive(s, false).Got?
    ensures GetLive(s, true) == GetLive(s, false)
    ensures ScanChunk(s) == Got((), GetLive(s, false).rest)
  {
    hide GetVarint, PutVarint, GetRaws, ScanVarints, GetCode;
    var s2 := GetVarint(GetInt(s).rest);
    var s4 := GetVarint(GetCode(s2.rest, s2.val).rest);
    if s4.val < TWO63 {
      RawsScan(s4.rest, s4.val);
    } else {
      assert GetRaws(s4.rest, 0) == Got([], s4.rest) && ScanVarints(s4.rest, 0) == Got((), s4.rest) by {
        NothingRead(s4.rest);
      }
    }
  }

  lemma NothingRead(s: Bytes)
    ensures GetRaws(s, 0) == Got([], s) && ScanVarints(s, 0) == Got((), s)
  {
  }

  /** The source-map count of a chunk record. */
  function SourceCount(s: Bytes): U64
    requires GetLive(s, true).Got?
  {
    var n := GetVarint(GetInt(s).rest);
    GetVarint(GetCode(n.rest, n.val).rest).val
  }

  /** And exactly then: on every buffer, where a chunk record reads, skipping it stops at
      the same byte if and only if its source-map count is below 2^63 or six times the
      count, as an int, is not positive. */
  lemma ChunkSkipExact(s: Bytes)
    requires |s| < TWO63 && GetLive(s, true).Got?
    ensures ScanChunk(s) == Got((), GetLive(s, true).rest)
       <==> SourceCount(s) < TWO63 || LoopCount(SourceCount(s), 6) == 0
  {
    hide GetVarint, PutVarint, GetRaws, ScanVarints, GetCode, LoopCount;
    var m := SourceCount(s);
    if m < TWO63 || LoopCount(m, 6) == 0 {
      ChunkSkipMirrorsRead(s);
    } else {
      var n := GetVarint(GetInt(s).rest);
      var rest := GetVarint(GetCode(n.rest, n.val).rest).rest;
      NothingRead(rest);
      assert GetLive(s, true).rest == rest;
      assert ScanChunk(s) == ScanVarints(rest, LoopCount(m, 6));
    }
  }

  /** An input where they part: of a chunk without code that claims 2^63 + 1 source-map
      entries none is read, and six integers behind it are skipped. */
  lemma WideSourceMapInput()
    ensures var k := [0, 0, 0, 0, 0, 0];
      var s := PutInt(0, PutVarint(0, PutVarint(TWO63 + 1, k)));
      GetLive(s, true) == Got(LiveChunk(0, [], [], []), k) && ScanChunk(s) == Got((), [])
  {
    hide GetVarint, PutVarint, ScanVarints;
    var k: Bytes := [0, 0, 0, 0, 0, 0];
    var s2 := PutVarint(TWO63 + 1, k);
    var s1 := PutVarint(0, s2);
    IntRoundTrip(0, s1);
    VarintRoundTrip(0, s1);
    VarintRoundTrip(0, s2);
    VarintRoundTrip(TWO63 + 1, k);
    assert GetCode(s2, 0) == Got([], s2) && GetSkip(s2, 0) == Got((), s2);
    NothingRead(k);
    ZerosSkipped(k);
    assert ScanChunk(PutInt(0, s1)) == ScanVarints(k, 6);
  }

  lemma {:induction false} ZerosSkipped(s: Bytes)
    requires forall i :: 0 <= i < |s| ==> s[i] == 0
    ensures ScanVarints(s, |s|) == Got((), [])
  {
    hide GetVarint;
    if s == [] {
    } else {
      assert GetVarint(s) == Got(0, s[1..]) by {
        ZeroRead(s);
      }
      ZerosSkipped(s[1..]);
    }
  }

  lemma ZeroRead(s: Bytes)
    requires s != [] && s[0] == 0
    ensures GetVarint(s) == Got(0, s[1..])
  {
  }

  lemma {:induction false} LocalListScan(s: Bytes, n: nat, strings: seq<Str>)
    requires GetLocalList(s, n, strings).Got?
    ensures ScanVarints(s, 2 * n) == Got((), GetLocalList(s, n, strings).rest)
    decreases n
  {
    hide GetVarint, PutVarint;
    if n == 0 {
    } else {
      var s1 := GetInt(s).rest;
      var s2 := GetStr(s1, strings).rest;
      LocalListScan(s2, n - 1, strings);
      assert ScanVarints(s, 2 * n) == ScanVarints(s1, 2 * n - 1) == ScanVarints(s2, 2 * n - 2);
    }
  }

  /** Skipping a local-variable table mirrors reading it while its count is below 2^63. */
  lemma LocalsSkipMirrorsRead(s: Bytes, strings: seq<Str>)
    requires |s| < TWO63 && GetLocals(s, strings, false).Got?
    ensures GetLocals(s, strings, true) == GetLocals(s, strings, false)
    ensures ScanLocals(s) == Got((), GetLocals(s, strings, false).rest)
  {
    hide GetVarint, PutVarint, GetLocalList, ScanVarints;
    var n := GetVarint(s);
    LocalListScan(n.rest, n.val, strings);
  }

  /** And exactly then: on every buffer, where a table reads, skipping it stops at the
      same byte if and only if its count is below 2^63 or twice the count, as an int, is
      not positive. */
  lemma LocalsSkipExact(s: Bytes, strings: seq<Str>)
    requires |s| < TWO63 && GetLocals(s, strings, true).Got?
    ensures ScanLocals(s) == Got((), GetLocals(s, strings, true).rest)
       <==> GetVarint(s).val < TWO63 || LoopCount(GetVarint(s).val, 2) == 0
  {
    hide GetVarint, PutVarint, GetLocalList, ScanVarints, LoopCount;
    var n := GetVarint(s);
    if n.val < TWO63 {
      LocalsSkipMirrorsRead(s, strings);
    } else {
      NothingRead(n.rest);
      assert GetLocalList(n.rest, 0, strings) == Got([], n.rest) by {
        NoLocalRead(n.rest, strings);
      }
    }
  }

  /** An input where they part: a table of 2^63 + 1 entries is read as empty, and two
      integers behind its count are skipped. */
  lemma WideLocalsInput(strings: seq<Str>)
    ensures var s := PutVarint(TWO63 + 1, [0, 0]);
      GetLocals(s, strings, true) == Got([], [0, 0]) && ScanLocals(s) == Got((), [])
  {
    hide GetVarint, PutVarint, ScanVarints;
    VarintRoundTrip(TWO63 + 1, [0, 0]);
    NoLocalRead([0, 0], strings);
    ZerosSkipped([0, 0]);
  }

  lemma NoLocalRead(s: Bytes, strings: seq<Str>)
    ensures GetLocalList(s, 0, strings) == Got([], s)
  {
  }

  // ------------------------------------------------------------- round trips

  lemma {:induction false} CodeRoundTrip(code: seq<I32>, k: Bytes)
    ensures GetCode(PutCode(code, k), |code|) == Got(code, k)
  {
    hide GetI32, PutI32, GetLE, PutLE;
    if code == [] {
    } else {
      I32RoundTrip(code[0], PutCode(code[1..], k));
      CodeRoundTrip(code[1..], k);
      assert [code[0]] + code[1..] == code;
    }
  }

  lemma EntryRoundTrip(e: SourceEntry, w: WriteIndex, strings: seq<Str>, k: Bytes)
    requires e.file in w.strs && TableMatches(w, strings)
    ensures GetEntry(PutEntry(e, w, k), strings) == Got(e, k)
  {
    hide GetVarint, PutVarint, PutInt, PutStr, GetInt, GetStr;
    var s6 := PutInt(e.endColumn, k);
    var s5 := PutInt(e.endLine, s6);
    var s4 := PutInt(e.column, s5);
    var s3 := PutInt(e.line, s4);
    var s2 := PutStr(e.file, w, s3);
    IntRoundTrip(e.startIP, s2);
    StrRoundTrip(e.file, w, strings, s3);
    IntRoundTrip(e.line, s4);
    IntRoundTrip(e.column, s5);
    IntRoundTrip(e.endLine, s6);
    IntRoundTrip(e.endColumn, k);
  }

  lemma {:induction false} EntriesRoundTrip(sm: seq<SourceEntry>, w: WriteIndex, strings: seq<Str>, k: Bytes)
    requires EntriesFit(sm, w) && TableMatches(w, strings)
    ensures GetEntries(PutEntries(sm, w, k), |sm|, strings) == Got(sm, k)
  {
    hide GetVarint, PutVarint, PutEntry, GetEntry;
    if sm == [] {
    } else {
      EntryRoundTrip(sm[0], w, strings, PutEntries(sm[1..], w, k));
      EntriesRoundTrip(sm[1..], w, strings, k);
      assert [sm[0]] + sm[1..] == sm;
    }
  }

  /** A chunk record brings back everything but the local variables, which have
      their own section. */
  lemma ChunkRoundTrip(c: ChunkData, w: WriteIndex, strings: seq<Str>, k: Bytes)
    requires RecordFits(c, w) && TableMatches(w, strings)
    ensures GetChunkData(PutChunk(c, w, k), strings) == Got(c.(localVars := []), k)
  {
    hide GetVarint, PutVarint, PutInt, GetInt, GetCode, PutCode, GetEntries, PutEntries;
    var s5 := PutEntries(c.sourceMap, w, k);
    var s4 := PutVarint(|c.sourceMap|, s5);
    var s3 := PutCode(c.code, s4);
    var s2 := PutVarint(|c.code|, s3);
    IntRoundTrip(c.maxStack, s2);
    VarintRoundTrip(|c.code|, s3);
    CodeRoundTrip(c.code, s4);
    VarintRoundTrip(|c.sourceMap|, s5);
    EntriesRoundTrip(c.sourceMap, w, strings, k);
  }

  lemma {:induction false} LocalListRoundTrip(lvs: seq<LocalVar>, w: WriteIndex, strings: seq<Str>, k: Bytes)
    requires LocalsFit(lvs, w) && TableMatches(w, strings)
    ensures GetLocalList(PutLocalList(lvs, w, k), |lvs|, strings) == Got(lvs, k)
  {
    hide GetVarint, PutVarint;
    if lvs == [] {
    } else {
      var tail := PutLocalList(lvs[1..], w, k);
      IntRoundTrip(lvs[0].slot, PutStr(lvs[0].name, w, tail));
      StrRoundTrip(lvs[0].name, w, strings, tail);
      LocalListRoundTrip(lvs[1..], w, strings, k);
      assert [LocalVar(lvs[0].slot, lvs[0].name)] + lvs[1..] == lvs;
    }
  }

  lemma LocalsRoundTrip(lvs: seq<LocalVar>, w: WriteIndex, strings: seq<Str>, wide: bool, k: Bytes)
    requires LocalsFit(lvs, w) && TableMatches(w, strings)
    ensures GetLocals(PutLocals(lvs, w, k), strings, wide) == Got(lvs, k)
  {
    hide GetVarint, PutVarint;
    VarintRoundTrip(|lvs|, PutLocalList(lvs, w, k));
    LocalListRoundTrip(lvs, w, strings, k);
  }

  // ---------------------------------------------------- the two readers agree

  lemma {:induction false} EntriesRaw(s: Bytes, n: nat, strings: seq<Str>)
    requires GetEntries(s, n, strings).Got?
    ensures var p, q := GetEntries(s, n, strings), GetRaws(s, n);
      q.Got? && q.rest == p.rest && ResolveAll(q.val, strings) == p.val
    decreases n
  {
    hide GetVarint, PutVarint;
    if n == 0 {
    } else {
      var e, r := GetEntry(s, strings), GetRaw(s);
      assert r.Got? && r.rest == e.rest && Resolve(r.val, strings) == e.val;
      EntriesRaw(e.rest, n - 1, strings);
    }
  }

  /** Where the module reader accepts a chunk, the live reader gives the same
      chunk: its lazily decoded source map resolves to the same entries. */
  lemma LiveMatchesData(s: Bytes, strings: seq<Str>)
    requires GetChunkData(s, strings).Got?
    ensures var p, q := GetChunkData(s, strings), GetLive(s, false);
      && q.Got? && q.rest == p.rest && q.val.maxStack == p.val.maxStack && q.val.code == p.val.code
      && ResolveAll(q.val.sourceMap, strings) == p.val.sourceMap
  {
    hide GetVarint, PutVarint, GetCode, GetEntries, GetRaws;
    var n := GetVarint(GetInt(s).rest);
    var m := GetVarint(GetCode(n.rest, n.val).rest);
    EntriesRaw(m.rest, m.val, strings);
  }
}
