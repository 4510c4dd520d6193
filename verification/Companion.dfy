/** The debug companion: the source maps and local variables a stripped bundle lacks,
    bound to it by a digest. */
module Companion {
  import opened Wire
  import opened Stream
  import opened Values
  import opened ValueProofs
  import opened ValueCodec
  import opened Chunks
  import opened ChunkCodec
  import opened Sections
  import opened ModuleCodec
  import opened Shapes

  const MAGIC: Bytes := [0x4C, 0x47, 0x44, 0x01]
  const VERSION: nat := 1
  const DIGEST_BYTES: nat := 32

  /** SHA-256, kept abstract. */
  ghost predicate IsDigest(sha: Bytes -> Bytes) {
    forall b :: |sha(b)| == DIGEST_BYTES
  }

  /** One chunk's debug information. */
  datatype Debug = Debug(sourceMap: seq<SourceEntry>, localVars: seq<LocalVar>)

  function DebugOf(cs: seq<ChunkData>): (ds: seq<Debug>)
    ensures |ds| == |cs| && forall i :: 0 <= i < |ds| ==> ds[i] == Debug(cs[i].sourceMap, cs[i].localVars)
  {
    seq(|cs|, i requires 0 <= i < |cs| => Debug(cs[i].sourceMap, cs[i].localVars))
  }

  // ----------------------------------------------------------------- writing

  /** Every file and variable name has an index. */
  predicate DebugsFit(cs: seq<ChunkData>, w: WriteIndex) {
    |cs| < TWO63 && forall i :: 0 <= i < |cs| ==> EntriesFit(cs[i].sourceMap, w) && LocalsFit(cs[i].localVars, w)
  }

  function PutDebugs(cs: seq<ChunkData>, w: WriteIndex, k: Bytes): Bytes
    requires DebugsFit(cs, w)
  {
    if cs == [] then k
    else
      var tail := PutLocals(cs[0].localVars, w, PutDebugs(cs[1..], w, k));
      PutVarint(|cs[0].sourceMap|, PutEntries(cs[0].sourceMap, w, tail))
  }

  function PutCompanion(digest: Bytes, strings: seq<Str>, cs: seq<ChunkData>, w: WriteIndex): Bytes
    requires StringsFit(strings) && DebugsFit(cs, w)
  {
    MAGIC + PutLE(VERSION, 2, digest + PutStrings(strings, PutVarint(|cs|, PutDebugs(cs, w, []))))
  }

  /** The companion's own string table, each name once in the order it is met. */
  class NameTable {
    var strings: seq<Str>
    var index: map<Str, U64>

    ghost predicate Valid()
      reads this
    {
      && (forall s :: s in index ==> index[s] < |strings| && strings[index[s]] == s)
      && (forall i :: 0 <= i < |strings| ==> strings[i] in index && index[strings[i]] == i)
      && (forall i :: 0 <= i < |strings| ==> |strings[i]| < TWO63)
    }

    constructor ()
      ensures Valid() && strings == [] && index == map[]
    {
      strings, index := [], map[];
    }

    method Intern(s: Str)
      requires Valid() && |strings| < TWO63 && |s| < TWO63
      modifies this
      ensures Valid() && index.Keys == old(index.Keys) + {s} && |strings| <= old(|strings|) + 1
      ensures old(strings) <= strings
    {
      if s in index {
        return;
      }
      index := index[s := |strings|];
      strings := strings + [s];
    }
  }

  method InternNames(c: ChunkData, t: NameTable, ghost limit: nat)
    requires t.Valid() && |t.strings| + |c.sourceMap| + |c.localVars| <= limit < TWO63 && NamesShort(c)
    modifies t
    ensures t.Valid() && |t.strings| <= old(|t.strings|) + |c.sourceMap| + |c.localVars|
    ensures old(t.index.Keys) <= t.index.Keys
    ensures forall i :: 0 <= i < |c.sourceMap| ==> c.sourceMap[i].file in t.index
    ensures forall i :: 0 <= i < |c.localVars| ==> c.localVars[i].name in t.index
  {
    for i := 0 to |c.sourceMap|
      invariant t.Valid() && |t.strings| <= old(|t.strings|) + i && old(t.index.Keys) <= t.index.Keys
      invariant forall j :: 0 <= j < i ==> c.sourceMap[j].file in t.index
    {
      ghost var keys := t.index.Keys;
      t.Intern(c.sourceMap[i].file);
      assert keys <= t.index.Keys;
    }
    for i := 0 to |c.localVars|
      invariant t.Valid() && |t.strings| <= old(|t.strings|) + |c.sourceMap| + i && old(t.index.Keys) <= t.index.Keys
      invariant forall j :: 0 <= j < |c.sourceMap| ==> c.sourceMap[j].file in t.index
      invariant forall j :: 0 <= j < i ==> c.localVars[j].name in t.index
    {
      ghost var keys := t.index.Keys;
      t.Intern(c.localVars[i].name);
      assert keys <= t.index.Keys;
    }
  }

  method WriteDebugs(out: Writer, cs: seq<ChunkData>, w: WriteIndex, ghost k: Bytes)
    requires DebugsFit(cs, w)
    modifies out
    ensures Wrote(old(out.out), out.out, k, PutDebugs(cs, w, k))
  {
    hide PutVarint, PutEntries, PutLocals;
    var i := 0;
    assert cs[0..] == cs;
    while i < |cs|
      invariant 0 <= i <= |cs|
      invariant Wrote(old(out.out), out.out, PutDebugs(cs[i..], w, k), PutDebugs(cs, w, k))
    {
      assert cs[i..][1..] == cs[i + 1..];
      ghost var rest := PutDebugs(cs[i + 1..], w, k);
      ghost var tail := PutLocals(cs[i].localVars, w, rest);
      out.WriteVarint(|cs[i].sourceMap|, PutEntries(cs[i].sourceMap, w, tail));
      var ok := WriteEntries(out, cs[i].sourceMap, w, tail);
      ok := WriteLocals(out, cs[i].localVars, w, rest);
      i := i + 1;
    }
  }

  /** What a companion of the chunks looks like. */
  ghost predicate IsCompanion(data: Bytes, digest: Bytes, cs: seq<ChunkData>, strings: seq<Str>, w: WriteIndex) {
    StringsFit(strings) && DebugsFit(cs, w) && TableMatches(w, strings) && data == PutCompanion(digest, strings, cs, w)
  }

  /** The index of a name table, with no chunks. */
  method BuildTable(cs: seq<ChunkData>) returns (strings: seq<Str>, w: WriteIndex)
    requires ChunksCountable(cs) && Nameable(cs)
    ensures StringsFit(strings) && DebugsFit(cs, w) && TableMatches(w, strings)
  {
    hide Mentions;
    var t := new NameTable();
    assert Mentions(cs[..0]) == 0 by { NoMentions(); assert cs[..0] == []; }
    for i := 0 to |cs|
      invariant t.Valid() && fresh(t) && |t.strings| <= Mentions(cs[..i]) <= Mentions(cs)
      invariant forall j, h :: 0 <= j < i && 0 <= h < |cs[j].sourceMap| ==> cs[j].sourceMap[h].file in t.index
      invariant forall j, h :: 0 <= j < i && 0 <= h < |cs[j].localVars| ==> cs[j].localVars[h].name in t.index
    {
      MentionsUpTo(cs, i);
      ghost var keys := t.index.Keys;
      assert ChunkCountable(cs[i]) && NamesShort(cs[i]);
      InternNames(cs[i], t, Mentions(cs));
      assert keys <= t.index.Keys;
    }
    assert cs[..|cs|] == cs;
    strings, w := t.strings, WriteIndex(t.index, map[]);
  }

  lemma NoMentions()
    ensures Mentions([]) == 0
  {
  }

  /** encodeDebugCompanion */
  method EncodeCompanion(stripped: Bytes, cs: seq<ChunkData>, sha: Bytes -> Bytes)
    returns (data: Bytes, ghost strings: seq<Str>, ghost w: WriteIndex)
    requires ChunksCountable(cs) && Nameable(cs)
    ensures IsCompanion(data, sha(stripped), cs, strings, w)
  {
    hide PutVarint, PutLE, PutStrings, PutDebugs, ChunksCountable, Nameable, DebugsFit, StringsFit, TableMatches;
    var table, index := BuildTable(cs);
    strings, w := table, index;
    var n := |cs|;
    CountFits(cs);
    var digest := sha(stripped);
    ghost var s3 := PutDebugs(cs, w, []);
    ghost var s2 := PutStrings(table, PutVarint(n, s3));
    var out := new Writer();
    out.WriteBytes(MAGIC, PutLE(VERSION, 2, digest + s2));
    out.WriteFixed(VERSION, 2, digest + s2);
    out.WriteBytes(digest, s2);
    WriteStrings(out, table, PutVarint(n, s3));
    out.WriteVarint(n, s3);
    WriteDebugs(out, cs, index, []);
    assert out.out + [] == out.out && [] + PutCompanion(digest, table, cs, w) == PutCompanion(digest, table, cs, w);
    data := out.out;
  }

  lemma CountFits(cs: seq<ChunkData>)
    requires ChunksCountable(cs)
    ensures |cs| < TWO63
  {
  }

  // ----------------------------------------------------------------- reading

  /** readDebugCount */
  function GetCount(s: Bytes): (p: Parse<nat>)
    ensures p.Got? ==> |p.rest| < |s| && p.val < TWO63
  {
    var (n, rest) :- GetVarint(s);
    if n >= TWO63 then Fail(BadDebugCount) else Got(n, rest)
  }

  function GetNames(s: Bytes, n: nat): (p: Parse<seq<Str>>)
    ensures p.Got? ==> |p.rest| <= |s| && |p.val| == n
    decreases n
  {
    if n == 0 then Got([], s)
    else
      var (len, s1) :- GetCount(s);
      var (x, s2) :- GetBytes(s1, len);
      var (xs, s3) :- GetNames(s2, n - 1);
      Got([x] + xs, s3)
  }

  /** All six integers are read before the file's index is looked up. */
  function GetDebugEntry(s: Bytes, strings: seq<Str>): (p: Parse<SourceEntry>)
    ensures p.Got? ==> |p.rest| < |s|
  {
    var (raw, rest) :- GetRaw(s);
    if raw.file >= |strings| then Fail(BadStringRef) else Got(Resolve(raw, strings), rest)
  }

  function GetDebugEntries(s: Bytes, n: nat, strings: seq<Str>): (p: Parse<seq<SourceEntry>>)
    ensures p.Got? ==> |p.rest| <= |s| && |p.val| == n
    decreases n
  {
    if n == 0 then Got([], s)
    else
      var (x, s1) :- GetDebugEntry(s, strings);
      var (xs, s2) :- GetDebugEntries(s1, n - 1, strings);
      Got([x] + xs, s2)
  }

  function GetDebugLocal(s: Bytes, strings: seq<Str>): (p: Parse<LocalVar>)
    ensures p.Got? ==> |p.rest| < |s|
  {
    var (slot, s1) :- GetInt(s);
    var (i, s2) :- GetVarint(s1);
    if i >= |strings| then Fail(BadStringRef) else Got(LocalVar(slot, strings[i]), s2)
  }

  function GetDebugLocals(s: Bytes, n: nat, strings: seq<Str>): (p: Parse<seq<LocalVar>>)
    ensures p.Got? ==> |p.rest| <= |s| && |p.val| == n
    decreases n
  {
    if n == 0 then Got([], s)
    else
      var (x, s1) :- GetDebugLocal(s, strings);
      var (xs, s2) :- GetDebugLocals(s1, n - 1, strings);
      Got([x] + xs, s2)
  }

  function GetDebug(s: Bytes, strings: seq<Str>): (p: Parse<Debug>)
    ensures p.Got? ==> |p.rest| < |s|
  {
    var (n, s1) :- GetCount(s);
    var (sm, s2) :- GetDebugEntries(s1, n, strings);
    var (m, s3) :- GetCount(s2);
    var (lvs, s4) :- GetDebugLocals(s3, m, strings);
    Got(Debug(sm, lvs), s4)
  }

  function GetDebugs(s: Bytes, n: nat, strings: seq<Str>): (p: Parse<seq<Debug>>)
    ensures p.Got? ==> |p.rest| <= |s| && |p.val| == n
    decreases n
  {
    if n == 0 then Got([], s)
    else
      var (x, s1) :- GetDebug(s, strings);
      var (xs, s2) :- GetDebugs(s1, n - 1, strings);
      Got([x] + xs, s2)
  }

  /** decodeDebugCompanion, against the bundle it should belong to. */
  function GetCompanion(data: Bytes, stripped: Bytes, sha: Bytes -> Bytes): Parse<seq<Debug>> {
    if |data| < 4 then Fail(Eof)
    else if data[..4] != MAGIC then Fail(BadMagic)
    else
      var (version, s1) :- GetLE(data[4..], 2);
      if version != VERSION then Fail(BadVersion)
      else
        var (digest, s2) :- GetBytes(s1, DIGEST_BYTES);
        if digest != sha(stripped) then Fail(BadDigest)
        else GetTables(s2)
  }

  /** The string table, then the chunks. */
  function GetTables(s: Bytes): Parse<seq<Debug>> {
    var (n, s1) :- GetCount(s);
    var (strings, s2) :- GetNames(s1, n);
    var (m, s3) :- GetCount(s2);
    GetDebugs(s3, m, strings)
  }

  // -------------------------------------------------------------- round trips

  lemma CountRoundTrip(n: nat, k: Bytes)
    requires n < TWO63
    ensures GetCount(PutVarint(n, k)) == Got(n, k)
  {
    hide GetVarint, PutVarint;
    VarintRoundTrip(n, k);
  }

  lemma {:induction false} NamesRoundTrip(ss: seq<Str>, k: Bytes)
    requires forall i :: 0 <= i < |ss| ==> |ss[i]| < TWO63
    ensures GetNames(PutStringList(ss, k), |ss|) == Got(ss, k)
  {
    hide GetCount, PutVarint;
    if ss == [] {
    } else {
      var tail := PutStringList(ss[1..], k);
      CountRoundTrip(|ss[0]|, ss[0] + tail);
      assert (ss[0] + tail)[..|ss[0]|] == ss[0] && (ss[0] + tail)[|ss[0]|..] == tail;
      NamesRoundTrip(ss[1..], k);
      assert [ss[0]] + ss[1..] == ss;
    }
  }

  lemma DebugEntryRoundTrip(e: SourceEntry, w: WriteIndex, strings: seq<Str>, k: Bytes)
    requires e.file in w.strs && TableMatches(w, strings)
    ensures GetDebugEntry(PutEntry(e, w, k), strings) == Got(e, k)
  {
    hide GetVarint, PutVarint;
    var s6 := PutInt(e.endColumn, k);
    var s5 := PutInt(e.endLine, s6);
    var s4 := PutInt(e.column, s5);
    var s3 := PutInt(e.line, s4);
    var s2 := PutStr(e.file, w, s3);
    VarintRoundTrip(ToU64(e.startIP), s2);
    VarintRoundTrip(w.strs[e.file], s3);
    VarintRoundTrip(ToU64(e.line), s4);
    VarintRoundTrip(ToU64(e.column), s5);
    VarintRoundTrip(ToU64(e.endLine), s6);
    VarintRoundTrip(ToU64(e.endColumn), k);
  }

  lemma {:induction false} DebugEntriesRoundTrip(sm: seq<SourceEntry>, w: WriteIndex, strings: seq<Str>, k: Bytes)
    requires EntriesFit(sm, w) && TableMatches(w, strings)
    ensures GetDebugEntries(PutEntries(sm, w, k), |sm|, strings) == Got(sm, k)
  {
    hide GetDebugEntry, PutEntry;
    if sm == [] {
    } else {
      DebugEntryRoundTrip(sm[0], w, strings, PutEntries(sm[1..], w, k));
      DebugEntriesRoundTrip(sm[1..], w, strings, k);
      assert [sm[0]] + sm[1..] == sm;
    }
  }

  lemma {:induction false} DebugLocalsRoundTrip(lvs: seq<LocalVar>, w: WriteIndex, strings: seq<Str>, k: Bytes)
    requires LocalsFit(lvs, w) && TableMatches(w, strings)
    ensures GetDebugLocals(PutLocalList(lvs, w, k), |lvs|, strings) == Got(lvs, k)
  {
    hide GetVarint, PutVarint;
    if lvs == [] {
    } else {
      var tail := PutLocalList(lvs[1..], w, k);
      IntRoundTrip(lvs[0].slot, PutStr(lvs[0].name, w, tail));
      VarintRoundTrip(w.strs[lvs[0].name], tail);
      DebugLocalsRoundTrip(lvs[1..], w, strings, k);
      assert [LocalVar(lvs[0].slot, lvs[0].name)] + lvs[1..] == lvs;
    }
  }

  lemma {:induction false} DebugsRoundTrip(cs: seq<ChunkData>, w: WriteIndex, strings: seq<Str>, k: Bytes)
    requires DebugsFit(cs, w) && TableMatches(w, strings)
    ensures GetDebugs(PutDebugs(cs, w, k), |cs|, strings) == Got(DebugOf(cs), k)
  {
    hide GetCount, PutVarint, GetDebugEntries, PutEntries, GetDebugLocals, PutLocalList;
    if cs == [] {
    } else {
      var c, rest := cs[0], PutDebugs(cs[1..], w, k);
      var tail := PutLocals(c.localVars, w, rest);
      CountRoundTrip(|c.sourceMap|, PutEntries(c.sourceMap, w, tail));
      DebugEntriesRoundTrip(c.sourceMap, w, strings, tail);
      CountRoundTrip(|c.localVars|, PutLocalList(c.localVars, w, rest));
      DebugLocalsRoundTrip(c.localVars, w, strings, rest);
      DebugsRoundTrip(cs[1..], w, strings, k);
      assert [Debug(c.sourceMap, c.localVars)] + DebugOf(cs[1..]) == DebugOf(cs);
    }
  }

  /** Against the bundle it was made for, a companion gives every chunk's source map and
      local variables back; against any other bundle with another digest it is refused. */
  lemma CompanionRoundTrip(data: Bytes, stripped: Bytes, cs: seq<ChunkData>, strings: seq<Str>, w: WriteIndex,
                           sha: Bytes -> Bytes, other: Bytes)
    requires IsDigest(sha) && IsCompanion(data, sha(stripped), cs, strings, w)
    ensures sha(other) == sha(stripped) ==> GetCompanion(data, other, sha) == Got(DebugOf(cs), [])
    ensures sha(other) != sha(stripped) ==> GetCompanion(data, other, sha) == Fail(BadDigest)
  {
    hide GetVarint, PutVarint, GetLE, PutLE, GetCount, GetNames, PutStringList, GetDebugs, PutDebugs, DebugsFit;
    DebugCount(cs, w);
    var s5 := PutDebugs(cs, w, []);
    var s4 := PutVarint(|cs|, s5);
    var s3 := PutStringList(strings, s4);
    var s2 := PutVarint(|strings|, s3);
    var digest := sha(stripped);
    var s1 := digest + s2;
    Pow256Widths();
    LERoundTrip(VERSION, 2, s1);
    assert (MAGIC + PutLE(VERSION, 2, s1))[..4] == MAGIC && (MAGIC + PutLE(VERSION, 2, s1))[4..] == PutLE(VERSION, 2, s1);
    assert s1[..DIGEST_BYTES] == digest && s1[DIGEST_BYTES..] == s2;
    CountRoundTrip(|strings|, s3);
    NamesRoundTrip(strings, s4);
    CountRoundTrip(|cs|, s5);
    DebugsRoundTrip(cs, w, strings, []);
  }

  lemma DebugCount(cs: seq<ChunkData>, w: WriteIndex)
    requires DebugsFit(cs, w)
    ensures |cs| < TWO63
  {
  }

  // ------------------------------------------------------------- the reader

  method ReadCount(r: Reader) returns (o: Outcome<nat>)
    requires r.Valid()
    modifies r
    ensures r.Valid() && old(r.pos) <= r.pos
    ensures Reads(o, GetCount(old(r.Rest())), r.Rest())
  {
    hide GetVarint;
    var n :- r.ReadVarint();
    if n >= TWO63 {
      return Err(BadDebugCount);
    }
    o := Ok(n);
  }

  method ReadNames(r: Reader, n: nat) returns (o: Outcome<seq<Str>>)
    requires r.Valid()
    modifies r
    ensures r.Valid() && old(r.pos) <= r.pos
    ensures Reads(o, GetNames(old(r.Rest()), n), r.Rest())
  {
    hide GetCount, GetBytes;
    var xs: seq<Str> := [];
    var i := 0;
    ghost var p := GetNames(r.Rest(), n);
    assert p.Got? ==> xs + p.val == p.val;
    while i < n
      invariant 0 <= i <= n && r.Valid() && old(r.pos) <= r.pos
      invariant Resumes(p, xs, GetNames(r.Rest(), n - i))
    {
      ghost var q := GetNames(r.Rest(), n - i);
      var len :- ReadCount(r);
      var x :- r.ReadBytes(len);
      assert q.Got? ==> xs + q.val == (xs + [x]) + q.val[1..];
      xs := xs + [x];
      i := i + 1;
    }
    assert xs + [] == xs;
    o := Ok(xs);
  }

  method ReadDebugEntries(r: Reader, n: nat, strings: seq<Str>) returns (o: Outcome<seq<SourceEntry>>)
    requires r.Valid()
    modifies r
    ensures r.Valid() && old(r.pos) <= r.pos
    ensures Reads(o, GetDebugEntries(old(r.Rest()), n, strings), r.Rest())
  {
    hide GetRaw, Resolve;
    var xs: seq<SourceEntry> := [];
    var i := 0;
    ghost var p := GetDebugEntries(r.Rest(), n, strings);
    assert p.Got? ==> xs + p.val == p.val;
    while i < n
      invariant 0 <= i <= n && r.Valid() && old(r.pos) <= r.pos
      invariant Resumes(p, xs, GetDebugEntries(r.Rest(), n - i, strings))
    {
      ghost var q := GetDebugEntries(r.Rest(), n - i, strings);
      var raw :- ReadRaw(r);
      if raw.file >= |strings| {
        return Err(BadStringRef);
      }
      var x := Resolve(raw, strings);
      assert q.Got? ==> xs + q.val == (xs + [x]) + q.val[1..];
      xs := xs + [x];
      i := i + 1;
    }
    assert xs + [] == xs;
    o := Ok(xs);
  }

  method ReadDebugLocal(r: Reader, strings: seq<Str>) returns (o: Outcome<LocalVar>)
    requires r.Valid()
    modifies r
    ensures r.Valid() && old(r.pos) <= r.pos
    ensures Reads(o, GetDebugLocal(old(r.Rest()), strings), r.Rest())
  {
    hide GetVarint;
    var slot :- r.ReadInt();
    var i :- r.ReadVarint();
    if i >= |strings| {
      return Err(BadStringRef);
    }
    o := Ok(LocalVar(slot, strings[i]));
  }

  method ReadDebugLocals(r: Reader, n: nat, strings: seq<Str>) returns (o: Outcome<seq<LocalVar>>)
    requires r.Valid()
    modifies r
    ensures r.Valid() && old(r.pos) <= r.pos
    ensures Reads(o, GetDebugLocals(old(r.Rest()), n, strings), r.Rest())
  {
    hide GetDebugLocal;
    var xs: seq<LocalVar> := [];
    var k := 0;
    ghost var p := GetDebugLocals(r.Rest(), n, strings);
    assert p.Got? ==> xs + p.val == p.val;
    while k < n
      invariant 0 <= k <= n && r.Valid() && old(r.pos) <= r.pos
      invariant Resumes(p, xs, GetDebugLocals(r.Rest(), n - k, strings))
    {
      ghost var q := GetDebugLocals(r.Rest(), n - k, strings);
      var x :- ReadDebugLocal(r, strings);
      assert q.Got? ==> xs + q.val == (xs + [x]) + q.val[1..];
      xs := xs + [x];
      k := k + 1;
    }
    assert xs + [] == xs;
    o := Ok(xs);
  }

  method ReadDebug(r: Reader, strings: seq<Str>) returns (o: Outcome<Debug>)
    requires r.Valid()
    modifies r
    ensures r.Valid() && old(r.pos) <= r.pos
    ensures Reads(o, GetDebug(old(r.Rest()), strings), r.Rest())
  {
    hide GetCount, GetDebugEntries, GetDebugLocals;
    var n :- ReadCount(r);
    var sm :- ReadDebugEntries(r, n, strings);
    var m :- ReadCount(r);
    var lvs :- ReadDebugLocals(r, m, strings);
    o := Ok(Debug(sm, lvs));
  }

  method ReadDebugs(r: Reader, n: nat, strings: seq<Str>) returns (o: Outcome<seq<Debug>>)
    requires r.Valid()
    modifies r
    ensures r.Valid() && old(r.pos) <= r.pos
    ensures Reads(o, GetDebugs(old(r.Rest()), n, strings), r.Rest())
  {
    hide GetDebug;
    var xs: seq<Debug> := [];
    var i := 0;
    ghost var p := GetDebugs(r.Rest(), n, strings);
    assert p.Got? ==> xs + p.val == p.val;
    while i < n
      invariant 0 <= i <= n && r.Valid() && old(r.pos) <= r.pos
      invariant Resumes(p, xs, GetDebugs(r.Rest(), n - i, strings))
    {
      ghost var q := GetDebugs(r.Rest(), n - i, strings);
      var x :- ReadDebug(r, strings);
      assert q.Got? ==> xs + q.val == (xs + [x]) + q.val[1..];
      xs := xs + [x];
      i := i + 1;
    }
    assert xs + [] == xs;
    o := Ok(xs);
  }

  method ReadTables(r: Reader) returns (o: Outcome<seq<Debug>>)
    requires r.Valid()
    modifies r
    ensures r.Valid()
    ensures Reads(o, GetTables(old(r.Rest())), r.Rest())
  {
    hide GetCount, GetNames, GetDebugs;
    var n :- ReadCount(r);
    var strings :- ReadNames(r, n);
    var m :- ReadCount(r);
    o := ReadDebugs(r, m, strings);
  }

  /** decodeDebugCompanion */
  method DecodeCompanion(data: Bytes, stripped: Bytes, sha: Bytes -> Bytes) returns (o: Outcome<seq<Debug>>)
    ensures match GetCompanion(data, stripped, sha) case Got(ds, _) => o == Ok(ds) case Fail(e) => o == Err(e)
  {
    hide GetLE, GetTables;
    var r := new Reader(data);
    var magic :- r.ReadBytes(4);
    if magic != MAGIC {
      return Err(BadMagic);
    }
    assert r.Rest() == data[4..];
    var version :- r.ReadFixed(2);
    if version != VERSION {
      return Err(BadVersion);
    }
    var digest :- r.ReadBytes(DIGEST_BYTES);
    if digest != sha(stripped) {
      return Err(BadDigest);
    }
    o := ReadTables(r);
  }
}
