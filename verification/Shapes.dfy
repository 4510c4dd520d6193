/** What decoding gives is well shaped: it can be handed to the encoder again. */
module Shapes {
  import opened Wire
  import opened Values
  import opened ValueProofs
  import opened Chunks
  import opened Sections
  import opened Modules
  import opened ModuleCodec

  lemma {:induction false} MagnitudeShort(b: Bytes)
    ensures |Magnitude(FromMagnitude(b))| <= |b|
    decreases |b|
  {
    if b == [] {
    } else {
      var x, y := FromMagnitude(b[..|b| - 1]), b[|b| - 1];
      MagnitudeShort(b[..|b| - 1]);
      assert (256 * x + y) / 256 == x;
    }
  }

  lemma {:induction false} ShapedAllEach(vs: seq<Value>)
    ensures ShapedAll(vs) <==> forall i :: 0 <= i < |vs| ==> Shaped(vs[i])
  {
    hide Shaped;
    if vs == [] {
    } else {
      ShapedAllEach(vs[1..]);
      if forall i :: 0 <= i < |vs| ==> Shaped(vs[i]) {
        assert forall i :: 0 <= i < |vs[1..]| ==> vs[1..][i] == vs[i + 1];
      }
    }
  }

  lemma LeafShaped(id: Byte, ver: Byte, s: Bytes, e: Env)
    requires LeafTag(id) && GetLeaf(id, ver, s, e).Got?
    ensures Shaped(GetLeaf(id, ver, s, e).val)
  {
    hide GetVarint, GetLE, Magnitude, FromMagnitude;
    if id == 0x09 {
      var s1 := GetByte(s).rest;
      var len := GetVarint(s1);
      MagnitudeShort(GetBytes(len.rest, len.val).val);
    }
  }

  lemma {:induction false} ValueShaped(s: Bytes, e: Env)
    requires GetValue(s, e).Got?
    ensures Shaped(GetValue(s, e).val)
    decreases |s|, 0
  {
    hide GetTagged, Shaped;
    TaggedShaped(s[0] % 64, s[0] / 64, s[1..], e);
  }

  lemma {:induction false} TaggedShaped(id: Byte, ver: Byte, s: Bytes, e: Env)
    requires GetTagged(id, ver, s, e).Got?
    ensures Shaped(GetTagged(id, ver, s, e).val)
    decreases |s|, 4
  {
    hide GetVarint, GetLeaf, GetValues, GetValue, GetMapItems, GetType, GetStr, MakeRecord, ShapedAll;
    if LeafTag(id) {
      LeafShaped(id, ver, s, e);
    } else if id == 0x33 {
      ValueShaped(s, e);
    } else if id == 0x31 {
      RecordShaped(ver, s, e);
    } else if id == 0x34 {
      DTypeShaped(s, e);
    } else if id == 0x23 {
      MapShaped(s, e);
    } else {
      var n := GetVarint(s);
      ValuesShaped(n.rest, n.val, e);
    }
  }

  lemma {:induction false} MapShaped(s: Bytes, e: Env)
    ensures var p := GetMapItems(s, e); p.Got? ==> |p.val| < TWO63 && |p.val| % 2 == 0 && ShapedAll(p.val)
    ensures var p := GetDefMeta(s, e); p.Got? ==> Shaped(p.val)
    decreases |s|, 3
  {
    hide GetVarint, GetValues, ShapedAll;
    var n := GetVarint(s);
    if n.Got? {
      if GetMapItems(s, e).Got? {
        ValuesShaped(n.rest, if n.val >= TWO63 then 0 else 2 * n.val, e);
      }
      if GetDefMeta(s, e).Got? {
        ValuesShaped(n.rest, ToI64(n.val * 2 % TWO64), e);
      }
    }
  }

  lemma {:induction false} LastSetIsVal(fields: seq<Str>, vals: seq<Value>, f: Str, n: nat)
    requires n <= |fields| == |vals|
    ensures LastSet(fields, vals, f, n) == Nil || LastSet(fields, vals, f, n) in vals
    decreases n
  {
    if n == 0 {
    } else {
      LastSetIsVal(fields, vals, f, n - 1);
    }
  }

  lemma {:induction false} LookUpIsVal(kvs: seq<Value>, f: Str)
    ensures LookUp(kvs, f) == Nil || LookUp(kvs, f) in kvs
    decreases |kvs|
  {
    if |kvs| >= 2 {
      LookUpIsVal(kvs[..|kvs| - 2], f);
    }
  }

  lemma {:induction false} DropFieldsShort(kvs: seq<Value>, fields: seq<Str>)
    ensures |DropFields(kvs, fields)| <= |kvs| && |DropFields(kvs, fields)| % 2 == 0
    ensures forall v :: v in DropFields(kvs, fields) ==> v in kvs
    decreases |kvs|
  {
    if |kvs| >= 2 {
      DropFieldsShort(kvs[2..], fields);
      assert forall v :: v in kvs[2..] ==> v in kvs;
      assert forall v :: v in kvs[..2] ==> v in kvs;
    }
  }

  lemma RecordMade(t: TypeHead, vals: seq<Value>, extra: seq<Value>)
    requires |t.fields| == |vals| < TWO63 && |extra| < TWO63 && ShapedAll(vals) && ShapedAll(extra)
    ensures Shaped(MakeRecord(t, vals, extra))
  {
    hide ShapedAll;
    ShapedAllEach(vals);
    ShapedAllEach(extra);
    var r := MakeRecord(t, vals, extra);
    DropFieldsShort(extra, t.fields);
    forall i | 0 <= i < |r.fixed|
      ensures Shaped(r.fixed[i])
    {
      LastSetIsVal(t.fields, vals, t.fields[i], |vals|);
      LookUpIsVal(extra, t.fields[i]);
    }
    ShapedAllEach(r.fixed);
    forall i | 0 <= i < |r.extra|
      ensures Shaped(r.extra[i])
    {
      assert r.extra[i] in extra;
    }
    ShapedAllEach(r.extra);
  }

  lemma TypeCounted(s: Bytes, ver: Byte, strings: seq<Str>)
    requires GetType(s, ver, strings).Got?
    ensures |GetType(s, ver, strings).val.fields| < TWO63
  {
    hide GetVarint, GetStr;
  }

  lemma {:induction false} RecordShaped(ver: Byte, s: Bytes, e: Env)
    requires GetRecord(ver, s, e).Got?
    ensures Shaped(GetRecord(ver, s, e).val)
    decreases |s|, 3
  {
    hide GetVarint, GetType, GetValues, GetMapItems, MakeRecord, ShapedAll;
    TypeCounted(s, ver, e.strings);
    var t := GetType(s, ver, e.strings);
    ValuesShaped(t.rest, |t.val.fields|, e);
    var vals := GetValues(t.rest, |t.val.fields|, e);
    MapShaped(vals.rest, e);
    RecordMade(t.val, vals.val, GetMapItems(vals.rest, e).val);
  }

  lemma {:induction false} DTypeShaped(s: Bytes, e: Env)
    requires GetDType(s, e).Got?
    ensures Shaped(GetDType(s, e).val)
    decreases |s|, 3
  {
    hide GetVarint, GetType, GetValues, GetStr, ShapedAll;
    var s1 := GetStr(s, e.strings).rest;
    TypeCounted(s1, 0, e.strings);
    var t := GetType(s1, 0, e.strings);
    ValuesShaped(t.rest, |t.val.fields|, e);
  }

  lemma {:induction false} ValuesShaped(s: Bytes, n: nat, e: Env)
    requires GetValues(s, n, e).Got?
    ensures ShapedAll(GetValues(s, n, e).val)
    decreases |s|, 1
  {
    hide GetTagged, Shaped;
    if n == 0 {
    } else {
      ValueShaped(s, e);
      ValuesShaped(GetValue(s, e).rest, n - 1, e);
    }
  }

  // ------------------------------------------------------------ whole modules

  lemma {:induction false} StringsCounted(s: Bytes, n: nat)
    requires GetStringList(s, n).Got?
    ensures forall i :: 0 <= i < n ==> |GetStringList(s, n).val[i]| < TWO63
    decreases n
  {
    hide GetVarint;
    if n == 0 {
    } else {
      var len := GetVarint(s);
      StringsCounted(GetBytes(len.rest, len.val).rest, n - 1);
    }
  }

  lemma {:induction false} RangesCounted(s: Bytes, n: nat, strings: seq<Str>)
    requires GetRangeList(s, n, strings).Got?
    ensures forall i :: 0 <= i < n ==> |GetRangeList(s, n, strings).val[i].runs| < TWO63
    decreases n
  {
    hide GetInt, GetStr, GetRuns;
    if n == 0 {
    } else {
      RangesCounted(GetRange(s, strings).rest, n - 1, strings);
    }
  }

  lemma {:induction false} ChunksCounted(s: Bytes, n: nat, strings: seq<Str>)
    requires GetChunkList(s, n, strings).Got?
    ensures forall i :: 0 <= i < n ==> ChunkCountable(GetChunkList(s, n, strings).val[i])
    decreases n
  {
    hide GetVarint, GetCode, GetEntries;
    if n == 0 {
    } else {
      ChunksCounted(GetChunkData(s, strings).rest, n - 1, strings);
    }
  }

  lemma {:induction false} TablesCounted(s: Bytes, n: nat, strings: seq<Str>)
    requires GetLocalTables(s, n, strings, false).Got?
    ensures forall i :: 0 <= i < n ==> |GetLocalTables(s, n, strings, false).val[i]| < TWO63
    decreases n
  {
    hide GetVarint, GetLocalList;
    if n == 0 {
    } else {
      TablesCounted(GetLocals(s, strings, false).rest, n - 1, strings);
    }
  }

  lemma {:induction false} NamesCounted(s: Bytes, n: nat, strings: seq<Str>, acc: map<Str, I64>)
    requires GetNSEntries(s, n, strings, acc).Got?
    ensures |GetNSEntries(s, n, strings, acc).val.Keys| <= |acc.Keys| + n
    decreases n
  {
    hide GetStr, GetInt;
    if n == 0 {
    } else {
      var name := GetStr(s, strings);
      var idx := GetInt(name.rest);
      var more := acc[name.val := idx.val];
      assert more.Keys == acc.Keys + {name.val};
      NamesCounted(idx.rest, n - 1, strings, more);
    }
  }

  /** A decoded module's slices and values are such as Go can hold, so the encoder accepts
      it as an argument. */
  lemma BodyCountable(h: Header, s: Bytes, valid: TextParsers)
    requires GetBody(h, s, valid).Got?
    ensures Countable(GetBody(h, s, valid).val)
  {
    hide GetVarint, GetStringList, GetRangeList, GetChunkList, GetValues, GetConstHead, GetNSEntries, GetLocalTables,
         ShapedAll,
         AttachLocals, ChunkCountable;
    var p1 := GetStrings(s);
    StringsCounted(GetVarint(s).rest, GetVarint(s).val);
    var p2 := GetRanges(h.flags.nsRanges, p1.rest, p1.val);
    if h.flags.nsRanges {
      RangesCounted(GetVarint(p1.rest).rest, GetVarint(p1.rest).val, p1.val);
    }
    var p3 := GetChunks(p2.rest, p1.val);
    ChunksCounted(GetVarint(p2.rest).rest, GetVarint(p2.rest).val, p1.val);
    var e := AllLiveEnv(p1.val, |p3.val|, valid, true);
    var head := GetConstHead(h.flags.constsBase, p3.rest);
    ValuesShaped(head.rest, head.val.count, e);
    var p4 := GetModuleConsts(h.flags.constsBase, p3.rest, e);
    TableCounted(p4.rest, p1.val);
    var p5 := GetNSTable(p4.rest, p1.val);
    if h.flags.localVars {
      TablesCounted(p5.rest, |p3.val|, p1.val);
      Attached(p3.val, GetLocalTables(p5.rest, |p3.val|, p1.val, false).val);
    }
  }

  lemma TableCounted(s: Bytes, strings: seq<Str>)
    requires GetNSTable(s, strings).Got?
    ensures |GetNSTable(s, strings).val.Keys| < TWO63
  {
    hide GetVarint, GetNSEntries;
    var n := GetVarint(s);
    if n.Got? {
      NamesCounted(n.rest, if n.val >= TWO63 then 0 else n.val, strings, map[]);
    }
  }

  lemma Attached(cs: seq<ChunkData>, tables: seq<seq<LocalVar>>)
    requires |tables| == |cs| && ChunksCountable(cs) && forall i :: 0 <= i < |tables| ==> |tables[i]| < TWO63
    ensures ChunksCountable(AttachLocals(cs, tables))
  {
  }

  lemma DecodedCountable(data: Bytes, rt: Runtime, valid: TextParsers, c: Codec)
    requires DecodeModule(data, rt, valid, c).Got?
    ensures Countable(DecodeModule(data, rt, valid, c).val)
  {
    hide GetHeader, GetInflated, GetBody, Countable;
    var h := GetHeader(data, rt);
    BodyCountable(h.val, if h.val.flags.compressed then GetInflated(h.rest, c).val else h.rest, valid);
  }

  // ------------------------------------------------------- names in a module

  /** How many names the chunks mention. */
  function Mentions(cs: seq<ChunkData>): nat {
    if cs == [] then 0 else |cs[0].sourceMap| + |cs[0].localVars| + Mentions(cs[1..])
  }

  lemma {:induction false} MentionsUpTo(cs: seq<ChunkData>, i: nat)
    requires i < |cs|
    ensures Mentions(cs[..i + 1]) == Mentions(cs[..i]) + |cs[i].sourceMap| + |cs[i].localVars|
    ensures Mentions(cs[..i + 1]) <= Mentions(cs)
    decreases i
  {
    if i > 0 {
      MentionsUpTo(cs[1..], i - 1);
      assert cs[..i + 1][1..] == cs[1..][..i] && cs[..i][1..] == cs[1..][..i - 1];
    } else {
      assert cs[..1][1..] == [];
    }
  }

  /** The chunk's names are short enough for a Go string. */
  predicate NamesShort(c: ChunkData) {
    && (forall j :: 0 <= j < |c.sourceMap| ==> |c.sourceMap[j].file| < TWO63)
    && (forall j :: 0 <= j < |c.localVars| ==> |c.localVars[j].name| < TWO63)
  }

  /** A table of the chunks' names fits Go's ints. */
  predicate Nameable(cs: seq<ChunkData>) {
    Mentions(cs) < TWO63 && forall i :: 0 <= i < |cs| ==> NamesShort(cs[i])
  }

  ghost predicate AllShort(strings: seq<Str>) {
    forall i :: 0 <= i < |strings| ==> |strings[i]| < TWO63
  }

  lemma {:induction false} EntriesNamed(s: Bytes, n: nat, strings: seq<Str>)
    requires GetEntries(s, n, strings).Got? && AllShort(strings)
    ensures var p := GetEntries(s, n, strings);
      |p.rest| + n <= |s| && forall i :: 0 <= i < n ==> |p.val[i].file| < TWO63
    decreases n
  {
    hide GetVarint;
    if n == 0 {
    } else {
      EntriesNamed(GetEntry(s, strings).rest, n - 1, strings);
    }
  }

  lemma {:induction false} LocalsNamed(s: Bytes, n: nat, strings: seq<Str>)
    requires GetLocalList(s, n, strings).Got? && AllShort(strings)
    ensures forall i :: 0 <= i < n ==> |GetLocalList(s, n, strings).val[i].name| < TWO63
    decreases n
  {
    hide GetVarint;
    if n == 0 {
    } else {
      LocalsNamed(GetStr(GetInt(s).rest, strings).rest, n - 1, strings);
    }
  }

  lemma ChunkNamed(s: Bytes, strings: seq<Str>)
    requires GetChunkData(s, strings).Got? && AllShort(strings)
    ensures var p := GetChunkData(s, strings);
      NamesShort(p.val) && |p.rest| + |p.val.sourceMap| <= |s| && p.val.localVars == []
  {
    hide GetVarint, GetCode, GetEntries;
    var n := GetVarint(GetInt(s).rest);
    var m := GetVarint(GetCode(n.rest, n.val).rest);
    EntriesNamed(m.rest, m.val, strings);
  }

  lemma {:induction false} ChunksNamed(s: Bytes, n: nat, strings: seq<Str>)
    requires GetChunkList(s, n, strings).Got? && AllShort(strings)
    ensures var p := GetChunkList(s, n, strings);
      && |p.rest| + Mentions(p.val) <= |s|
      && forall i :: 0 <= i < n ==> NamesShort(p.val[i]) && p.val[i].localVars == []
    decreases n
  {
    hide GetChunkData, NamesShort;
    if n == 0 {
    } else {
      ChunkNamed(s, strings);
      ChunksNamed(GetChunkData(s, strings).rest, n - 1, strings);
      var p := GetChunkList(s, n, strings).val;
      assert p[1..] == GetChunkList(GetChunkData(s, strings).rest, n - 1, strings).val;
    }
  }

  ghost predicate LocalsShort(lvs: seq<LocalVar>) {
    forall j :: 0 <= j < |lvs| ==> |lvs[j].name| < TWO63
  }

  function Lengths(tables: seq<seq<LocalVar>>): nat {
    if tables == [] then 0 else |tables[0]| + Lengths(tables[1..])
  }

  lemma {:induction false} TablesNamed(s: Bytes, n: nat, strings: seq<Str>)
    requires GetLocalTables(s, n, strings, false).Got? && AllShort(strings)
    ensures var p := GetLocalTables(s, n, strings, false);
      |p.rest| + Lengths(p.val) <= |s| && forall i :: 0 <= i < n ==> LocalsShort(p.val[i])
    decreases n
  {
    hide GetVarint, GetLocalList;
    if n == 0 {
    } else {
      var count := GetVarint(s);
      LocalsNamed(count.rest, count.val, strings);
      var x := GetLocals(s, strings, false);
      TablesNamed(x.rest, n - 1, strings);
      var p := GetLocalTables(s, n, strings, false).val;
      assert p[1..] == GetLocalTables(x.rest, n - 1, strings, false).val;
    }
  }

  lemma {:induction false} AttachedNamed(cs: seq<ChunkData>, tables: seq<seq<LocalVar>>)
    requires |tables| == |cs| && forall i :: 0 <= i < |cs| ==> NamesShort(cs[i]) && cs[i].localVars == []
    requires forall i :: 0 <= i < |tables| ==> LocalsShort(tables[i])
    ensures Mentions(AttachLocals(cs, tables)) == Mentions(cs) + Lengths(tables)
    ensures forall i :: 0 <= i < |cs| ==> NamesShort(AttachLocals(cs, tables)[i])
  {
    if cs == [] {
    } else {
      AttachedNamed(cs[1..], tables[1..]);
      assert AttachLocals(cs, tables)[1..] == AttachLocals(cs[1..], tables[1..]);
    }
  }

  /** The names of a decoded module fit a table of their own. */
  lemma BodyNameable(h: Header, s: Bytes, valid: TextParsers)
    requires GetBody(h, s, valid).Got? && |s| < TWO63
    ensures Nameable(GetBody(h, s, valid).val.chunks)
  {
    hide GetVarint, GetStringList, GetRangeList, GetChunkList, GetValues, GetConstHead, GetNSEntries, GetLocalTables,
         AllLiveEnv,
         AttachLocals, NamesShort, Mentions, Lengths;
    var p1 := GetStrings(s);
    StringsCounted(GetVarint(s).rest, GetVarint(s).val);
    var p2 := GetRanges(h.flags.nsRanges, p1.rest, p1.val);
    var p3 := GetChunks(p2.rest, p1.val);
    ChunksNamed(GetVarint(p2.rest).rest, GetVarint(p2.rest).val, p1.val);
    if h.flags.localVars {
      var e := AllLiveEnv(p1.val, |p3.val|, valid, true);
      var p4 := GetModuleConsts(h.flags.constsBase, p3.rest, e);
      ConstsShrink(h.flags.constsBase, p3.rest, e);
      var p5 := GetNSTable(p4.rest, p1.val);
      TablesNamed(p5.rest, |p3.val|, p1.val);
      AttachedNamed(p3.val, GetLocalTables(p5.rest, |p3.val|, p1.val, false).val);
    }
  }

  lemma ConstsShrink(flag: bool, s: Bytes, e: Env)
    requires GetModuleConsts(flag, s, e).Got?
    ensures |GetModuleConsts(flag, s, e).rest| <= |s|
  {
    hide GetConstHead, GetValues;
  }

  lemma DecodedNameable(data: Bytes, rt: Runtime, valid: TextParsers, c: Codec)
    requires DecodeModule(data, rt, valid, c).Got? && |data| < TWO63
    ensures Nameable(DecodeModule(data, rt, valid, c).val.chunks)
  {
    hide GetHeader, GetVarint, GetBody, Nameable;
    var h := GetHeader(data, rt);
    BodyNameable(h.val, if h.val.flags.compressed then GetInflated(h.rest, c).val else h.rest, valid);
  }
}
