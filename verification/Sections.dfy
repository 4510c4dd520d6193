/** The sections of a bundle body: strings, namespace ranges, chunks, constants,
    namespace table, local-variable tables.  Each is written and read in full. */
module Sections {
  import opened Wire
  import opened Values
  import opened ValueProofs
  import opened Chunks

  /** The half-open range [lo, hi) of constant indices. */
  datatype ConstRange = ConstRange(lo: I64, hi: I64)

  /** A namespace a decoder may defer: its main chunk, the chunks [chunkLo, chunkHi)
      of its functions and the constants only it uses. */
  datatype NSRange = NSRange(name: Str, mainChunk: I64, chunkLo: I64, chunkHi: I64, runs: seq<ConstRange>)

  // ----------------------------------------------------------------- strings

  function PutStringList(ss: seq<Str>, k: Bytes): Bytes
    requires forall i :: 0 <= i < |ss| ==> |ss[i]| < TWO63
  {
    if ss == [] then k else PutVarint(|ss[0]|, ss[0] + PutStringList(ss[1..], k))
  }

  predicate StringsFit(ss: seq<Str>) {
    |ss| < TWO63 && forall i :: 0 <= i < |ss| ==> |ss[i]| < TWO63
  }

  function PutStrings(ss: seq<Str>, k: Bytes): Bytes
    requires StringsFit(ss)
  {
    PutVarint(|ss|, PutStringList(ss, k))
  }

  function GetStringList(s: Bytes, n: nat): (p: Parse<seq<Str>>)
    ensures p.Got? ==> |p.rest| <= |s| && |p.val| == n
    decreases n
  {
    if n == 0 then Got([], s)
    else
      var (len, s1) :- GetVarint(s);
      var (x, s2) :- GetBytes(s1, len);
      var (xs, s3) :- GetStringList(s2, n - 1);
      Got([x] + xs, s3)
  }

  function GetStrings(s: Bytes): (p: Parse<seq<Str>>)
    ensures p.Got? ==> |p.rest| < |s|
  {
    var (n, s1) :- GetVarint(s);
    if n >= TWO63 then Fail(Panic) else GetStringList(s1, n)
  }

  lemma {:induction false} StringListRoundTrip(ss: seq<Str>, k: Bytes)
    requires forall i :: 0 <= i < |ss| ==> |ss[i]| < TWO63
    ensures GetStringList(PutStringList(ss, k), |ss|) == Got(ss, k)
  {
    hide GetVarint, PutVarint;
    if ss == [] {
    } else {
      var tail := PutStringList(ss[1..], k);
      VarintRoundTrip(|ss[0]|, ss[0] + tail);
      assert (ss[0] + tail)[..|ss[0]|] == ss[0] && (ss[0] + tail)[|ss[0]|..] == tail;
      StringListRoundTrip(ss[1..], k);
      assert [ss[0]] + ss[1..] == ss;
    }
  }

  lemma StringsRoundTrip(ss: seq<Str>, k: Bytes)
    requires StringsFit(ss)
    ensures GetStrings(PutStrings(ss, k)) == Got(ss, k)
  {
    hide GetVarint, PutVarint;
    VarintRoundTrip(|ss|, PutStringList(ss, k));
    StringListRoundTrip(ss, k);
  }

  // -------------------------------------------------------- namespace ranges

  function PutRuns(runs: seq<ConstRange>, k: Bytes): Bytes {
    if runs == [] then k else PutInt(runs[0].lo, PutInt(runs[0].hi, PutRuns(runs[1..], k)))
  }

  function GetRuns(s: Bytes, n: nat): (p: Parse<seq<ConstRange>>)
    ensures p.Got? ==> |p.rest| <= |s| && |p.val| == n
    decreases n
  {
    if n == 0 then Got([], s)
    else
      var (lo, s1) :- GetInt(s);
      var (hi, s2) :- GetInt(s1);
      var (xs, s3) :- GetRuns(s2, n - 1);
      Got([ConstRange(lo, hi)] + xs, s3)
  }

  lemma {:induction false} RunsRoundTrip(runs: seq<ConstRange>, k: Bytes)
    ensures GetRuns(PutRuns(runs, k), |runs|) == Got(runs, k)
  {
    hide GetInt, PutInt;
    if runs == [] {
    } else {
      var tail := PutRuns(runs[1..], k);
      IntRoundTrip(runs[0].hi, tail);
      IntRoundTrip(runs[0].lo, PutInt(runs[0].hi, tail));
      RunsRoundTrip(runs[1..], k);
      assert [ConstRange(runs[0].lo, runs[0].hi)] + runs[1..] == runs;
    }
  }

  predicate RangeFits(r: NSRange, w: WriteIndex) {
    r.name in w.strs && |r.runs| < TWO63
  }

  function PutRange(r: NSRange, w: WriteIndex, k: Bytes): Bytes
    requires RangeFits(r, w)
  {
    PutStr(r.name, w, PutInt(r.mainChunk, PutInt(r.chunkLo, PutInt(r.chunkHi, PutInt(|r.runs|, PutRuns(r.runs, k))))))
  }

  function GetRange(s: Bytes, strings: seq<Str>): (p: Parse<NSRange>)
    ensures p.Got? ==> |p.rest| < |s|
  {
    var (name, s1) :- GetStr(s, strings);
    var (main, s2) :- GetInt(s1);
    var (lo, s3) :- GetInt(s2);
    var (hi, s4) :- GetInt(s3);
    var (n, s5) :- GetInt(s4);
    if n < 0 then Fail(Panic)
    else
      var (runs, s6) :- GetRuns(s5, n);
      Got(NSRange(name, main, lo, hi, runs), s6)
  }

  lemma RangeRoundTrip(r: NSRange, w: WriteIndex, strings: seq<Str>, k: Bytes)
    requires RangeFits(r, w) && TableMatches(w, strings)
    ensures GetRange(PutRange(r, w, k), strings) == Got(r, k)
  {
    hide GetInt, PutInt, GetStr, PutStr, GetRuns, PutRuns;
    var s5 := PutRuns(r.runs, k);
    var s4 := PutInt(|r.runs|, s5);
    var s3 := PutInt(r.chunkHi, s4);
    var s2 := PutInt(r.chunkLo, s3);
    var s1 := PutInt(r.mainChunk, s2);
    StrRoundTrip(r.name, w, strings, s1);
    IntRoundTrip(r.mainChunk, s2);
    IntRoundTrip(r.chunkLo, s3);
    IntRoundTrip(r.chunkHi, s4);
    IntRoundTrip(|r.runs|, s5);
    RunsRoundTrip(r.runs, k);
  }

  predicate RangesFit(rs: seq<NSRange>, w: WriteIndex) {
    |rs| < TWO63 && forall i :: 0 <= i < |rs| ==> RangeFits(rs[i], w)
  }

  function PutRangeList(rs: seq<NSRange>, w: WriteIndex, k: Bytes): Bytes
    requires RangesFit(rs, w)
  {
    if rs == [] then k else PutRange(rs[0], w, PutRangeList(rs[1..], w, k))
  }

  function GetRangeList(s: Bytes, n: nat, strings: seq<Str>): (p: Parse<seq<NSRange>>)
    ensures p.Got? ==> |p.rest| <= |s| && |p.val| == n
    decreases n
  {
    if n == 0 then Got([], s)
    else
      var (x, s1) :- GetRange(s, strings);
      var (xs, s2) :- GetRangeList(s1, n - 1, strings);
      Got([x] + xs, s2)
  }

  lemma {:induction false} RangeListRoundTrip(rs: seq<NSRange>, w: WriteIndex, strings: seq<Str>, k: Bytes)
    requires RangesFit(rs, w) && TableMatches(w, strings)
    ensures GetRangeList(PutRangeList(rs, w, k), |rs|, strings) == Got(rs, k)
  {
    hide GetRange, PutRange;
    if rs == [] {
    } else {
      RangeRoundTrip(rs[0], w, strings, PutRangeList(rs[1..], w, k));
      RangeListRoundTrip(rs[1..], w, strings, k);
      assert [rs[0]] + rs[1..] == rs;
    }
  }

  /** writeNSRanges: nothing at all when the flag is clear. */
  function PutRanges(flag: bool, rs: seq<NSRange>, w: WriteIndex, k: Bytes): Bytes
    requires flag ==> RangesFit(rs, w)
  {
    if flag then PutVarint(|rs|, PutRangeList(rs, w, k)) else k
  }

  function GetRanges(flag: bool, s: Bytes, strings: seq<Str>): (p: Parse<seq<NSRange>>)
    ensures p.Got? ==> |p.rest| <= |s|
  {
    if !flag then Got([], s)
    else
      var (n, s1) :- GetVarint(s);
      if n >= TWO63 then Fail(Panic) else GetRangeList(s1, n, strings)
  }

  lemma RangesRoundTrip(flag: bool, rs: seq<NSRange>, w: WriteIndex, strings: seq<Str>, k: Bytes)
    requires (flag ==> RangesFit(rs, w)) && TableMatches(w, strings)
    ensures GetRanges(flag, PutRanges(flag, rs, w, k), strings) == Got(if flag then rs else [], k)
  {
    hide GetVarint, PutVarint;
    if flag {
      VarintRoundTrip(|rs|, PutRangeList(rs, w, k));
      RangeListRoundTrip(rs, w, strings, k);
    }
  }

  // ------------------------------------------------------------------ chunks

  predicate RecordsFit(cs: seq<ChunkData>, w: WriteIndex) {
    |cs| < TWO63 && forall i :: 0 <= i < |cs| ==> RecordFits(cs[i], w)
  }

  predicate TablesFit(cs: seq<ChunkData>, w: WriteIndex) {
    forall i :: 0 <= i < |cs| ==> LocalsFit(cs[i].localVars, w)
  }

  function PutChunkList(cs: seq<ChunkData>, w: WriteIndex, k: Bytes): Bytes
    requires RecordsFit(cs, w)
  {
    if cs == [] then k else PutChunk(cs[0], w, PutChunkList(cs[1..], w, k))
  }

  function PutChunks(cs: seq<ChunkData>, w: WriteIndex, k: Bytes): Bytes
    requires RecordsFit(cs, w)
  {
    PutVarint(|cs|, PutChunkList(cs, w, k))
  }

  function GetChunkList(s: Bytes, n: nat, strings: seq<Str>): (p: Parse<seq<ChunkData>>)
    ensures p.Got? ==> |p.rest| <= |s| && |p.val| == n
    decreases n
  {
    if n == 0 then Got([], s)
    else
      var (x, s1) :- GetChunkData(s, strings);
      var (xs, s2) :- GetChunkList(s1, n - 1, strings);
      Got([x] + xs, s2)
  }

  /** readChunks */
  function GetChunks(s: Bytes, strings: seq<Str>): (p: Parse<seq<ChunkData>>)
    ensures p.Got? ==> |p.rest| < |s|
  {
    var (n, s1) :- GetVarint(s);
    if n >= TWO63 then Fail(Panic) else GetChunkList(s1, n, strings)
  }

  function GetLiveList(s: Bytes, n: nat, wide: bool): (p: Parse<seq<LiveChunk>>)
    ensures p.Got? ==> |p.rest| <= |s| && |p.val| == n
    decreases n
  {
    if n == 0 then Got([], s)
    else
      var (x, s1) :- GetLive(s, wide);
      var (xs, s2) :- GetLiveList(s1, n - 1, wide);
      Got([x] + xs, s2)
  }

  /** readLiveChunks with nothing deferred. */
  function GetLiveChunks(s: Bytes, wide: bool): (p: Parse<seq<LiveChunk>>)
    ensures p.Got? ==> |p.rest| < |s|
  {
    var (n, s1) :- GetVarint(s);
    if n >= TWO63 then Fail(Panic) else GetLiveList(s1, n, wide)
  }

  function NoLocals(cs: seq<ChunkData>): (r: seq<ChunkData>)
    ensures |r| == |cs| && forall i :: 0 <= i < |r| ==> r[i] == cs[i].(localVars := [])
  {
    seq(|cs|, i requires 0 <= i < |cs| => cs[i].(localVars := []))
  }

  lemma {:induction false} ChunkListRoundTrip(cs: seq<ChunkData>, w: WriteIndex, strings: seq<Str>, k: Bytes)
    requires RecordsFit(cs, w) && TableMatches(w, strings)
    ensures GetChunkList(PutChunkList(cs, w, k), |cs|, strings) == Got(NoLocals(cs), k)
  {
    hide GetChunkData, PutChunk;
    if cs == [] {
    } else {
      ChunkRoundTrip(cs[0], w, strings, PutChunkList(cs[1..], w, k));
      ChunkListRoundTrip(cs[1..], w, strings, k);
      assert [cs[0].(localVars := [])] + NoLocals(cs[1..]) == NoLocals(cs);
    }
  }

  lemma ChunksRoundTrip(cs: seq<ChunkData>, w: WriteIndex, strings: seq<Str>, k: Bytes)
    requires RecordsFit(cs, w) && TableMatches(w, strings)
    ensures GetChunks(PutChunks(cs, w, k), strings) == Got(NoLocals(cs), k)
  {
    hide GetVarint, PutVarint;
    VarintRoundTrip(|cs|, PutChunkList(cs, w, k));
    ChunkListRoundTrip(cs, w, strings, k);
  }

  /** A live chunk that carries what the module data says. */
  ghost predicate Carries(live: LiveChunk, c: ChunkData, strings: seq<Str>) {
    live.maxStack == c.maxStack && live.code == c.code && ResolveAll(live.sourceMap, strings) == c.sourceMap
  }

  ghost predicate AllCarry(lives: seq<LiveChunk>, cs: seq<ChunkData>, strings: seq<Str>) {
    |lives| == |cs| && forall i :: 0 <= i < |cs| ==> Carries(lives[i], cs[i], strings)
  }

  lemma {:induction false} LiveListMatchesData(s: Bytes, n: nat, strings: seq<Str>)
    requires GetChunkList(s, n, strings).Got?
    ensures var p, q := GetChunkList(s, n, strings), GetLiveList(s, n, false);
      q.Got? && q.rest == p.rest && AllCarry(q.val, p.val, strings)
    decreases n
  {
    hide GetChunkData, GetLive;
    if n == 0 {
    } else {
      LiveMatchesData(s, strings);
      LiveListMatchesData(GetChunkData(s, strings).rest, n - 1, strings);
    }
  }

  /** What was written as module data can be run: the live reader accepts it and
      its chunks carry the same stack bounds, code and source maps. */
  lemma LiveChunksRoundTrip(cs: seq<ChunkData>, w: WriteIndex, strings: seq<Str>, k: Bytes)
    requires RecordsFit(cs, w) && TableMatches(w, strings)
    ensures var q := GetLiveChunks(PutChunks(cs, w, k), false);
      q.Got? && q.rest == k && AllCarry(q.val, cs, strings)
  {
    hide GetVarint, PutVarint;
    var t := PutChunkList(cs, w, k);
    VarintRoundTrip(|cs|, t);
    ChunkListRoundTrip(cs, w, strings, k);
    LiveListMatchesData(t, |cs|, strings);
  }

  // --------------------------------------------------------------- constants

  datatype ConstHead = ConstHead(count: U64, base: I64)

  function GetConstHead(flag: bool, s: Bytes): (p: Parse<ConstHead>)
    ensures p.Got? ==> |p.rest| < |s|
  {
    var (n, s1) :- GetVarint(s);
    var (base, s2) :- if flag then GetInt(s1) else Got(0, s1);
    Got(ConstHead(n, base), s2)
  }

  ghost predicate ConstsFit(vs: seq<Value>, w: WriteIndex) {
    |vs| < TWO63 && WritableAll(vs, w)
  }

  ghost function PutConsts(flag: bool, base: I64, vs: seq<Value>, w: WriteIndex, k: Bytes): Bytes
    requires ConstsFit(vs, w)
  {
    var body := PutValues(vs, w, k);
    PutVarint(|vs|, if flag then PutInt(base, body) else body)
  }

  lemma ConstHeadRoundTrip(flag: bool, base: I64, vs: seq<Value>, w: WriteIndex, k: Bytes)
    requires ConstsFit(vs, w)
    ensures GetConstHead(flag, PutConsts(flag, base, vs, w, k))
         == Got(ConstHead(|vs|, if flag then base else 0), PutValues(vs, w, k))
  {
    hide GetVarint, PutVarint, GetInt, PutInt, PutValues;
    var body := PutValues(vs, w, k);
    IntRoundTrip(base, body);
    VarintRoundTrip(|vs|, if flag then PutInt(base, body) else body);
  }

  // --------------------------------------------------------- namespace table

  function PutNSEntries(names: seq<Str>, table: map<Str, I64>, w: WriteIndex, k: Bytes): Bytes
    requires forall i :: 0 <= i < |names| ==> names[i] in table && names[i] in w.strs
  {
    if names == [] then k else PutStr(names[0], w, PutInt(table[names[0]], PutNSEntries(names[1..], table, w, k)))
  }

  function GetNSEntries(s: Bytes, n: nat, strings: seq<Str>, acc: map<Str, I64>): (p: Parse<map<Str, I64>>)
    ensures p.Got? ==> |p.rest| <= |s|
    decreases n
  {
    if n == 0 then Got(acc, s)
    else
      var (name, s1) :- GetStr(s, strings);
      var (idx, s2) :- GetInt(s1);
      GetNSEntries(s2, n - 1, strings, acc[name := idx])
  }

  /** readNSTable: a body that ends before it, or holds an overlong count there, has
      no table. */
  function GetNSTable(s: Bytes, strings: seq<Str>): (p: Parse<map<Str, I64>>)
    ensures p.Got? ==> |p.rest| <= |s|
  {
    match GetVarint(s)
    case Fail(_) => Got(map[], s[if |s| < MAX_VARINT_BYTES then |s| else MAX_VARINT_BYTES..])
    case Got(n, s1) => GetNSEntries(s1, if n >= TWO63 then 0 else n, strings, map[])
  }

  /** The entries of the table under the given names. */
  function Restricted(table: map<Str, I64>, names: seq<Str>): map<Str, I64> {
    map x | x in names && x in table :: table[x]
  }

  lemma {:induction false} NSEntriesRoundTrip(names: seq<Str>, table: map<Str, I64>, w: WriteIndex,
                                              strings: seq<Str>, acc: map<Str, I64>, k: Bytes)
    requires forall i :: 0 <= i < |names| ==> names[i] in table && names[i] in w.strs
    requires TableMatches(w, strings)
    ensures GetNSEntries(PutNSEntries(names, table, w, k), |names|, strings, acc)
         == Got(acc + Restricted(table, names), k)
  {
    hide GetInt, PutInt, GetStr, PutStr;
    if names != [] {
      var tail := PutNSEntries(names[1..], table, w, k);
      StrRoundTrip(names[0], w, strings, PutInt(table[names[0]], tail));
      IntRoundTrip(table[names[0]], tail);
      NSEntriesRoundTrip(names[1..], table, w, strings, acc[names[0] := table[names[0]]], k);
      OnlyFirst(names, table, acc);
    } else {
      assert acc + Restricted(table, names) == acc;
    }
  }

  lemma OnlyFirst(names: seq<Str>, table: map<Str, I64>, acc: map<Str, I64>)
    requires names != [] && names[0] in table
    ensures acc[names[0] := table[names[0]]] + Restricted(table, names[1..]) == acc + Restricted(table, names)
  {
    assert forall x :: x in names <==> x == names[0] || x in names[1..];
  }

  /** writeNSTable, the names in a given order. */
  function PutNSTable(names: seq<Str>, table: map<Str, I64>, w: WriteIndex, k: Bytes): Bytes
    requires |names| < TWO63
    requires forall i :: 0 <= i < |names| ==> names[i] in table && names[i] in w.strs
  {
    PutVarint(|names|, PutNSEntries(names, table, w, k))
  }

  lemma NSTableRoundTrip(names: seq<Str>, table: map<Str, I64>, w: WriteIndex, strings: seq<Str>, k: Bytes)
    requires |names| < TWO63 && table.Keys <= w.strs.Keys && (set x | x in names) == table.Keys
    requires forall i :: 0 <= i < |names| ==> names[i] in table && names[i] in w.strs
    requires TableMatches(w, strings)
    ensures GetNSTable(PutNSTable(names, table, w, k), strings) == Got(table, k)
  {
    hide GetVarint, PutVarint;
    VarintRoundTrip(|names|, PutNSEntries(names, table, w, k));
    NSEntriesRoundTrip(names, table, w, strings, map[], k);
    assert map[] + Restricted(table, names) == table;
  }

  // ---------------------------------------------------------- local variables

  function PutLocalTables(cs: seq<ChunkData>, w: WriteIndex, k: Bytes): Bytes
    requires TablesFit(cs, w)
  {
    if cs == [] then k else PutLocals(cs[0].localVars, w, PutLocalTables(cs[1..], w, k))
  }

  function GetLocalTables(s: Bytes, n: nat, strings: seq<Str>, wide: bool): (p: Parse<seq<seq<LocalVar>>>)
    ensures p.Got? ==> |p.rest| <= |s| && |p.val| == n
    decreases n
  {
    if n == 0 then Got([], s)
    else
      var (x, s1) :- GetLocals(s, strings, wide);
      var (xs, s2) :- GetLocalTables(s1, n - 1, strings, wide);
      Got([x] + xs, s2)
  }

  function LocalsOf(cs: seq<ChunkData>): (r: seq<seq<LocalVar>>)
    ensures |r| == |cs| && forall i :: 0 <= i < |r| ==> r[i] == cs[i].localVars
  {
    seq(|cs|, i requires 0 <= i < |cs| => cs[i].localVars)
  }

  lemma {:induction false} LocalTablesRoundTrip(cs: seq<ChunkData>, w: WriteIndex, strings: seq<Str>, wide: bool,
                                                k: Bytes)
    requires TablesFit(cs, w) && TableMatches(w, strings)
    ensures GetLocalTables(PutLocalTables(cs, w, k), |cs|, strings, wide) == Got(LocalsOf(cs), k)
  {
    hide GetLocals, PutLocals;
    if cs == [] {
    } else {
      LocalsRoundTrip(cs[0].localVars, w, strings, wide, PutLocalTables(cs[1..], w, k));
      LocalTablesRoundTrip(cs[1..], w, strings, wide, k);
      assert [cs[0].localVars] + LocalsOf(cs[1..]) == LocalsOf(cs);
    }
  }
}
