/** Stripping a bundle of its debug tables into a companion, and putting them back. */
module SplitDebug {
  import opened Wire
  import opened Stream
  import opened Values
  import opened ValueProofs
  import opened Chunks
  import opened Sections
  import opened Sorting
  import opened Modules
  import opened ModuleCodec
  import opened Migration
  import opened Shapes
  import opened References
  import opened Companion

  // ---------------------------------------------------- finding a live chunk

  predicate SameCode(a: ChunkData, b: ChunkData) {
    a.maxStack == b.maxStack && a.code == b.code
  }

  /** The first chunk with the stack bound and code of c. */
  function FirstSame(cs: seq<ChunkData>, c: ChunkData): (at: Option<nat>)
    ensures at.Some? ==> at.value < |cs| && SameCode(cs[at.value], c)
    ensures at.Some? ==> forall j :: 0 <= j < at.value ==> !SameCode(cs[j], c)
    ensures at.None? ==> forall j :: 0 <= j < |cs| ==> !SameCode(cs[j], c)
  {
    if cs == [] then None
    else if SameCode(cs[0], c) then Some(0)
    else
      match FirstSame(cs[1..], c)
      case None => None
      case Some(i) => Some(i + 1)
  }

  method EqualCode(a: seq<I32>, b: seq<I32>) returns (same: bool)
    ensures same <==> a == b
  {
    if |a| != |b| {
      return false;
    }
    var j := 0;
    while j < |a|
      invariant 0 <= j <= |a| && forall i :: 0 <= i < j ==> a[i] == b[i]
    {
      if a[j] != b[j] {
        return false;
      }
      j := j + 1;
    }
    same := true;
  }

  /** findChunkIndex: by identity where the builder recorded it, else by structure; -1 when
      there is none. */
  method FindChunkIndex(liveIdx: map<nat, nat>, cs: seq<ChunkData>, chunk: nat, c: ChunkData) returns (idx: int)
    ensures chunk in liveIdx ==> idx == liveIdx[chunk]
    ensures chunk !in liveIdx ==> idx == match FirstSame(cs, c) case Some(i) => i case None => -1
  {
    if chunk in liveIdx {
      return liveIdx[chunk];
    }
    var i := 0;
    while i < |cs|
      invariant 0 <= i <= |cs| && forall j :: 0 <= j < i ==> !SameCode(cs[j], c)
    {
      if cs[i].maxStack == c.maxStack {
        var same := EqualCode(cs[i].code, c.code);
        if same {
          return i;
        }
      }
      i := i + 1;
    }
    idx := -1;
  }

  // ------------------------------------------------------- a raw module's index

  /** newEncoder's string index: the last place of each string. */
  function LastIndex(strings: seq<Str>): (r: map<Str, U64>)
    requires |strings| < TWO63
    ensures forall s :: s in r <==> s in strings
    ensures forall s :: s in r ==> r[s] < |strings| && strings[r[s]] == s
  {
    if strings == [] then map[]
    else
      var n := |strings| - 1;
      LastIndex(strings[..n])[strings[n] := n]
  }

  method IndexStrings(strings: seq<Str>) returns (r: map<Str, U64>)
    requires |strings| < TWO63
    ensures r == LastIndex(strings)
  {
    r := map[];
    for i := 0 to |strings|
      invariant r == LastIndex(strings[..i])
    {
      assert strings[..i + 1][..i] == strings[..i];
      r := r[strings[i] := i];
    }
    assert strings[..|strings|] == strings;
  }

  /** The live chunk a decoder builds from chunk data. */
  function LiveOf(c: ChunkData, migrate: bool): ChunkData {
    if migrate then c.(code := Remap(c.code)) else c
  }

  /** What findChunkIndex says of each live chunk of a decoded module. */
  function RawChunks(cs: seq<ChunkData>, migrate: bool): map<nat, U64>
    requires |cs| < TWO63
  {
    map c: nat | c < |cs| && FirstSame(cs, LiveOf(cs[c], migrate)).Some? :: FirstSame(cs, LiveOf(cs[c], migrate)).value
  }

  function RawIndex(m: Module, migrate: bool): WriteIndex
    requires |m.strings| < TWO63 && |m.chunks| < TWO63
  {
    WriteIndex(LastIndex(m.strings), RawChunks(m.chunks, migrate))
  }

  /** The index of every chunk, looked up once. */
  method IndexChunks(cs: seq<ChunkData>, migrate: bool) returns (r: map<nat, U64>)
    requires |cs| < TWO63
    ensures r == RawChunks(cs, migrate)
  {
    hide FirstSame, LiveOf;
    r := map[];
    for i := 0 to |cs|
      invariant forall c: nat :: c in r <==> c < i && FirstSame(cs, LiveOf(cs[c], migrate)).Some?
      invariant forall c: nat :: c in r ==> r[c] == FirstSame(cs, LiveOf(cs[c], migrate)).value
    {
      var idx := FindChunkIndex(map[], cs, i, LiveOf(cs[i], migrate));
      if idx >= 0 {
        r := r[i := idx];
      }
    }
  }

  // ---------------------------------------------------------------- stripping

  function Bare(cs: seq<ChunkData>): (r: seq<ChunkData>)
    ensures |r| == |cs| && forall i :: 0 <= i < |r| ==> r[i] == cs[i].(sourceMap := [], localVars := [])
  {
    seq(|cs|, i requires 0 <= i < |cs| => cs[i].(sourceMap := [], localVars := []))
  }

  function Stripped(m: Module): Module {
    m.(chunks := Bare(m.chunks), flags := m.flags.(localVars := false, debugSplit := true))
  }

  /** StripDebug: decode, drop the tables, encode. */
  ghost function StripOf(data: Bytes, rt: Runtime, valid: TextParsers, c: Codec): Option<Bytes> {
    match DecodeModule(data, rt, valid, c)
    case Fail(_) => None
    case Got(m, _) => Restripped(m, GetHeader(data, rt).Got? && GetHeader(data, rt).val.migrate, rt, c)
  }

  ghost function Restripped(m: Module, migrate: bool, rt: Runtime, c: Codec): Option<Bytes> {
    var m1 := Stripped(m);
    if !Countable(m) then None
    else
      CountableCounts(m);
      var w1 := RawIndex(m1, migrate);
      EnumerationSize(SortedNames(m1.nsTable.Keys), m1.nsTable.Keys);
      if Fits(m1, w1) then EncodeModule(m1, w1, SortedNames(m1.nsTable.Keys), rt, c) else None
  }

  lemma CountableCounts(m: Module)
    requires Countable(m)
    ensures |m.strings| < TWO63 && |m.chunks| < TWO63 && |m.nsTable.Keys| < TWO63
    ensures Countable(Stripped(m))
  {
    forall i | 0 <= i < |m.chunks|
      ensures ChunkCountable(Bare(m.chunks)[i])
    {
      assert ChunkCountable(m.chunks[i]);
    }
  }

  method DropTables(cs: seq<ChunkData>) returns (bare: seq<ChunkData>)
    ensures bare == Bare(cs)
  {
    bare := [];
    for i := 0 to |cs|
      invariant |bare| == i && forall j :: 0 <= j < i ==> bare[j] == cs[j].(sourceMap := [], localVars := [])
    {
      bare := bare + [cs[i].(sourceMap := [], localVars := [])];
    }
  }

  method StripDebug(data: Bytes, rt: Runtime, valid: TextParsers, c: Codec) returns (stripped: Option<Bytes>)
    ensures stripped == StripOf(data, rt, valid, c)
  {
    hide DecodeModule, GetHeader, EncodeModule, Fits, Countable, RawChunks, LastIndex;
    var m := Decode(data, rt, valid, c);
    if m.Err? {
      return None;
    }
    DecodedCountable(data, rt, valid, c);
    CountableCounts(m.value);
    var h := GetHeader(data, rt);
    var bare := DropTables(m.value.chunks);
    var m1 := m.value.(chunks := bare, flags := m.value.flags.(localVars := false, debugSplit := true));
    var strs := IndexStrings(m1.strings);
    var chunks := IndexChunks(m1.chunks, h.Got? && h.val.migrate);
    ghost var names := SortedNames(m1.nsTable.Keys);
    EnumerationSize(names, m1.nsTable.Keys);
    assert Lists(names, m1);
    stripped := Encode(m1, WriteIndex(strs, chunks), rt, c, names);
  }

  /** The same chunks, as far as running them goes. */
  ghost predicate SameProgram(a: seq<ChunkData>, b: seq<ChunkData>) {
    |a| == |b| && forall i :: 0 <= i < |a| ==> SameCode(a[i], b[i])
  }

  method CheckSame(a: seq<ChunkData>, b: seq<ChunkData>) returns (same: bool)
    ensures same <==> SameProgram(a, b)
  {
    if |a| != |b| {
      return false;
    }
    for i := 0 to |a|
      invariant forall j :: 0 <= j < i ==> SameCode(a[j], b[j])
    {
      var equal := EqualCode(a[i].code, b[i].code);
      if a[i].maxStack != b[i].maxStack || !equal {
        return false;
      }
    }
    same := true;
  }

  /** The checks SplitDebug makes pass. */
  ghost predicate Splits(data: Bytes, rt: Runtime, valid: TextParsers, c: Codec) {
    var s := StripOf(data, rt, valid, c);
    && DecodeModule(data, rt, valid, c).Got? && s.Some? && DecodeModule(s.value, rt, valid, c).Got?
    && SameProgram(DecodeModule(data, rt, valid, c).val.chunks, DecodeModule(s.value, rt, valid, c).val.chunks)
  }

  /** SplitDebug: the stripped bundle and the companion bound to it. */
  method Split(data: Bytes, rt: Runtime, valid: TextParsers, c: Codec, sha: Bytes -> Bytes)
    returns (stripped: Option<Bytes>, companion: Bytes, ghost strings: seq<Str>, ghost w: WriteIndex)
    requires |data| < TWO63
    ensures stripped.Some? <==> Splits(data, rt, valid, c)
    ensures stripped.Some? ==> stripped == StripOf(data, rt, valid, c)
    ensures var p := DecodeModule(data, rt, valid, c);
      stripped.Some? ==> p.Got? && IsCompanion(companion, sha(stripped.value), p.val.chunks, strings, w)
  {
    hide DecodeModule, StripOf, IsCompanion, SameProgram, Nameable;
    companion, strings, w := [], [], WriteIndex(map[], map[]);
    var original := Decode(data, rt, valid, c);
    if original.Err? {
      return None, companion, strings, w;
    }
    stripped := StripDebug(data, rt, valid, c);
    if stripped.None? {
      return None, companion, strings, w;
    }
    var slim := Decode(stripped.value, rt, valid, c);
    if slim.Err? {
      return None, companion, strings, w;
    }
    var same := CheckSame(original.value.chunks, slim.value.chunks);
    if !same {
      return None, companion, strings, w;
    }
    DecodedCountable(data, rt, valid, c);
    DecodedNameable(data, rt, valid, c);
    companion, strings, w := EncodeCompanion(stripped.value, original.value.chunks, sha);
  }

  // ----------------------------------------------- splitting an encoded bundle

  lemma StringsIndexed(m: Module, w: WriteIndex)
    requires TableMatches(w, m.strings)
    ensures w.strs.Keys <= LastIndex(m.strings).Keys
  {
  }

  lemma DecodedCounts(m: Module, w: WriteIndex, names: seq<Str>)
    requires Fits(m, w) && Lists(names, m)
    ensures var d := Decoded(m, w);
      && StringsFit(d.strings) && ChunksCountable(d.chunks) && |d.consts| < TWO63 && |d.nsTable.Keys| < TWO63
      && (!m.flags.nsRanges ==> RunsCountable(d.ranges))
  {
    hide NormAll, ConstsFit;
    EnumerationSize(names, m.nsTable.Keys);
    ConstsCount(m.consts, w);
    forall i | 0 <= i < |m.chunks|
      ensures ChunkCountable(Decoded(m, w).chunks[i])
    {
      assert RecordFits(m.chunks[i], w);
    }
  }

  lemma ConstsCount(vs: seq<Value>, w: WriteIndex)
    requires ConstsFit(vs, w)
    ensures |vs| < TWO63
  {
  }

  /** The decoded constants can be written with the index of a raw module, and refer only
      to its chunks. */
  lemma DecodedConsts(m: Module, w: WriteIndex, valid: TextParsers)
    requires Encodable(m, w, valid)
    ensures var vs := NormAll(m.consts, w);
      && |m.strings| < TWO63 && |m.chunks| < TWO63 && |vs| < TWO63 && CanonicalAll(vs, valid)
      && ShapedAll(vs) && SerializableAll(vs) && StringRefsAll(vs) <= LastIndex(m.strings).Keys
      && forall k :: k in FuncRefsAll(vs) ==> k < |m.chunks|
  {
    hide NormAll, ShapedAll, CanonicalAll, StringRefsAll, FuncRefsAll, RecordsFit, SerializableAll, RangesFit,
         TablesFit, StringsFit;
    NormAllKeeps(m.consts, w, valid);
    StringsIndexed(m, w);
    ConstsCount(m.consts, w);
  }

  /** Every function among the constants is found again among the bare chunks, its live code
      being migrated or not. */
  ghost predicate Findable(m: Module, w: WriteIndex, former: bool) {
    var d := Decoded(m, w);
    |d.chunks| < TWO63 && forall k :: k in FuncRefsAll(d.consts) ==> k in RawChunks(Bare(d.chunks), former)
  }

  lemma RefsFound(refs: set<nat>, cs: seq<ChunkData>, former: bool, strs: map<Str, U64>, strings: seq<Str>,
                  valid: TextParsers)
    requires |cs| < TWO63 && forall k :: k in refs ==> k in RawChunks(cs, former)
    ensures RefsLive(refs, WriteIndex(strs, RawChunks(cs, former)), AllLiveEnv(strings, |cs|, valid, true))
  {
    hide LiveOf;
  }

  /** Functions that are not migrated are found. */
  lemma CurrentFindable(m: Module, w: WriteIndex, valid: TextParsers)
    requires Encodable(m, w, valid)
    ensures Findable(m, w, false)
  {
    hide RawChunks, NormAll, FuncRefsAll, Encodable, ShapedAll, CanonicalAll, StringRefsAll, SerializableAll, LastIndex;
    DecodedConsts(m, w, valid);
    var d := Decoded(m, w);
    forall k | k in FuncRefsAll(d.consts)
      ensures k in RawChunks(Bare(d.chunks), false)
    {
      FoundSame(Bare(d.chunks), k);
    }
  }

  /** What decoding an encoded bundle without a range table gives, stripped, can be encoded
      with the indexes of a raw module. */
  lemma StrippedEncodable(m: Module, w: WriteIndex, names: seq<Str>, former: bool, valid: TextParsers)
    requires Encodable(m, w, valid) && Lists(names, m) && !m.flags.nsRanges && Findable(m, w, former)
    ensures var d := Decoded(m, w);
      && Countable(d) && |d.strings| < TWO63 && |d.chunks| < TWO63
      && Encodable(Stripped(d), RawIndex(Stripped(d), former), valid)
  {
    hide NormAll, ShapedAll, CanonicalAll, StringRefsAll, FuncRefsAll, RecordsFit, ChunksCountable, SerializableAll,
         Enumerates, RawChunks, LastIndex, RefsLive, TablesFit, RangesFit, RunsCountable, StringsFit;
    DecodedCounts(m, w, names);
    DecodedConsts(m, w, valid);
    var d := Decoded(m, w);
    var w1 := RawIndex(Stripped(d), former);
    BareFits(d.chunks, w1);
    RefsFound(FuncRefsAll(d.consts), Bare(d.chunks), former, w1.strs, m.strings, valid);
    assert m.nsTable.Keys <= w1.strs.Keys by {
      StringsIndexed(m, w);
    }
  }

  lemma BareFits(cs: seq<ChunkData>, w: WriteIndex)
    requires ChunksCountable(cs)
    ensures RecordsFit(Bare(cs), w)
  {
    forall i | 0 <= i < |cs|
      ensures RecordFits(Bare(cs)[i], w)
    {
      assert ChunkCountable(cs[i]);
    }
  }

  /** A function of a bundle with the running opcodes is found again: at the first chunk
      with its stack bound and code.  It keeps its own chunk exactly when no earlier one is
      the same; else it gets that one's debug information. */
  lemma FoundSame(cs: seq<ChunkData>, k: nat)
    requires |cs| < TWO63 && k < |cs|
    ensures k in RawChunks(cs, false)
    ensures var i := RawChunks(cs, false)[k];
      && i <= k && SameCode(cs[i], cs[k])
      && (i == k <==> forall j :: 0 <= j < k ==> !SameCode(cs[j], cs[k]))
  {
    var at := FirstSame(cs, cs[k]);
    assert SameCode(cs[k], cs[k]);
  }

  /** An input that shows it: two chunks alike but for the name of a variable; the second
      is found as the first. */
  lemma RelabelledInput()
    ensures var c, d := ChunkData(0, [], [], [LocalVar(0, [0x61])]), ChunkData(0, [], [], [LocalVar(0, [0x62])]);
      var found := RawChunks(Bare([c, d]), false);
      1 in found && found[1] == 0 && c.localVars != d.localVars
  {
    var c, d := ChunkData(0, [], [], [LocalVar(0, [0x61])]), ChunkData(0, [], [], [LocalVar(0, [0x62])]);
    assert c.localVars[0] != d.localVars[0];
    FoundSame(Bare([c, d]), 1);
  }

  lemma BareSame(cs: seq<ChunkData>, m: Module, w: WriteIndex)
    requires m.chunks == Bare(cs) && !m.flags.localVars
    ensures SameProgram(cs, Decoded(m, w).chunks)
  {
    hide NormAll;
  }

  /** What an encoded bundle without a range table decodes to, stripped. */
  function Slim(m: Module, w: WriteIndex): Module {
    Stripped(Decoded(m, w))
  }

  ghost function SlimNames(m: Module): seq<Str> {
    SortedNames(m.nsTable.Keys)
  }

  /** On rt, the code of what a runtime `wr` wrote is of the running opcode set. */
  predicate Current(m: Module, wr: Runtime, rt: Runtime) {
    !Foreign(m.flags, m.caps, wr.running, rt) && !Former(m.flags, m.caps, wr.running, rt)
  }

  /** Stripping on rt what `wr` wrote, without a range table, encodes its module again
      without the tables, and as a bundle of rt; if its functions are found. */
  lemma StripEncodes(m: Module, w: WriteIndex, names: seq<Str>, wr: Runtime, rt: Runtime, valid: TextParsers, c: Codec)
    requires Encodable(m, w, valid) && Lists(names, m) && Lawful(c) && EncodeModule(m, w, names, wr, c).Some?
    requires !m.flags.nsRanges && !Foreign(m.flags, m.caps, wr.running, rt)
    requires Findable(m, w, Former(m.flags, m.caps, wr.running, rt))
    ensures var d1, w1 := Slim(m, w), SlimIndex(m, w, Former(m.flags, m.caps, wr.running, rt));
      && Encodable(d1, w1, valid) && Lists(SlimNames(d1), d1)
      && StripOf(EncodeModule(m, w, names, wr, c).value, rt, valid, c) == EncodeModule(d1, w1, SlimNames(d1), rt, c)
  {
    hide DecodeModule, GetHeader, PutHeader, EncodeModule, Encodable, RawIndex, Countable, Lists, Former, Foreign,
         NormAll,
         RawChunks, FuncRefsAll;
    EncodableFits(m, w, valid);
    ModuleRoundTrip(m, w, names, wr, rt, valid, c);
    HeaderSays(m, w, names, wr, rt, c);
    var former := Former(m.flags, m.caps, wr.running, rt);
    StrippedEncodable(m, w, names, former, valid);
    var d := Decoded(m, w);
    CountableCounts(d);
    var d1 := Stripped(d);
    EncodableFits(d1, RawIndex(d1, former), valid);
    ListsSorted(d1);
  }

  /** The index the stripped module is written with. */
  function SlimIndex(m: Module, w: WriteIndex, former: bool): WriteIndex
    requires |m.strings| < TWO63 && |m.chunks| < TWO63
  {
    RawIndex(Slim(m, w), former)
  }

  /** Splitting such a bundle never fails a check: every chunk keeps its stack bound and
      code at its index.  (A compressed body may only not outgrow its limit.) */
  lemma SplitWorks(m: Module, w: WriteIndex, names: seq<Str>, wr: Runtime, rt: Runtime, valid: TextParsers, c: Codec)
    requires Encodable(m, w, valid) && Lists(names, m) && Lawful(c) && EncodeModule(m, w, names, wr, c).Some?
    requires !m.flags.nsRanges && Current(m, wr, rt)
    ensures var data := EncodeModule(m, w, names, wr, c).value;
      && (!m.flags.compressed ==> StripOf(data, rt, valid, c).Some?)
      && (StripOf(data, rt, valid, c).Some? ==> Splits(data, rt, valid, c))
  {
    hide DecodeModule, StripOf, EncodeModule, Encodable, SameProgram, RawIndex, Lists;
    EncodableFits(m, w, valid);
    ModuleRoundTrip(m, w, names, wr, rt, valid, c);
    CurrentFindable(m, w, valid);
    StripEncodes(m, w, names, wr, rt, valid, c);
    var d1 := Slim(m, w);
    var w1 := RawIndex(d1, false);
    EncodableFits(d1, w1, valid);
    BareSame(Decoded(m, w).chunks, d1, w1);
    NotTooLarge(d1, w1, SlimNames(d1), rt, c);
    if EncodeModule(d1, w1, SlimNames(d1), rt, c).Some? {
      ModuleRoundTrip(d1, w1, SlimNames(d1), rt, rt, valid, c);
    }
  }

  /** After such a split every function constant still runs the same code: it refers to
      the first chunk with the stack bound and code of its own. */
  lemma SplitKeepsFunctions(m: Module, w: WriteIndex, names: seq<Str>, wr: Runtime, rt: Runtime, valid: TextParsers,
                            c: Codec)
    requires Encodable(m, w, valid) && Lists(names, m) && Lawful(c) && EncodeModule(m, w, names, wr, c).Some?
    requires !m.flags.nsRanges && Current(m, wr, rt)
    requires StripOf(EncodeModule(m, w, names, wr, c).value, rt, valid, c).Some?
    ensures var data := EncodeModule(m, w, names, wr, c).value;
      var d, p := Decoded(m, w), DecodeModule(StripOf(data, rt, valid, c).value, rt, valid, c);
      && DecodeModule(data, rt, valid, c) == Got(d, []) && p.Got?
      && var w1 := RawIndex(Stripped(d), false);
      && p.val.consts == NormAll(d.consts, w1) && FuncRefsAll(p.val.consts) == Renamed(FuncRefsAll(d.consts), w1)
      && forall k :: k in FuncRefsAll(d.consts) ==> FuncKept(p.val.chunks, w1.ChunkRef(k), d.chunks, k)
  {
    hide DecodeModule, StripOf, EncodeModule, Encodable, RawIndex, Lists, NormAll, FuncRefsAll, ShapedAll, CanonicalAll,
         StringRefsAll, SerializableAll, FuncKept, Renamed;
    EncodableFits(m, w, valid);
    ModuleRoundTrip(m, w, names, wr, rt, valid, c);
    CurrentFindable(m, w, valid);
    StripEncodes(m, w, names, wr, rt, valid, c);
    var d, d1 := Decoded(m, w), Slim(m, w);
    var w1 := RawIndex(d1, false);
    EncodableFits(d1, w1, valid);
    ModuleRoundTrip(d1, w1, SlimNames(d1), rt, rt, valid, c);
    DecodedConsts(m, w, valid);
    NormAllKeeps(d.consts, w1, valid);
    forall k | k in FuncRefsAll(d.consts)
      ensures FuncKept(Decoded(d1, w1).chunks, w1.ChunkRef(k), d.chunks, k)
    {
      SlimRef(d.chunks, d1, k);
    }
  }

  /** A reference to chunk k became one to chunk i. */
  predicate FuncKept(after: seq<ChunkData>, i: nat, before: seq<ChunkData>, k: nat) {
    i < |after| && k < |before| && SameCode(after[i], before[k])
  }

  lemma SlimRef(cs: seq<ChunkData>, d1: Module, k: nat)
    requires |d1.strings| < TWO63 && |cs| < TWO63 && d1.chunks == Bare(cs) && k < |cs| && !d1.flags.localVars
    ensures var w1 := RawIndex(d1, false); FuncKept(Decoded(d1, w1).chunks, w1.ChunkRef(k), cs, k)
  {
    hide RawChunks, LastIndex, NormAll;
    FoundSame(d1.chunks, k);
  }

  lemma ListsSorted(m: Module)
    requires Countable(m)
    ensures Lists(SortedNames(m.nsTable.Keys), m)
  {
    hide Enumerates;
    EnumerationSize(SortedNames(m.nsTable.Keys), m.nsTable.Keys);
  }

  lemma HeaderSays(m: Module, w: WriteIndex, names: seq<Str>, wr: Runtime, rt: Runtime, c: Codec)
    requires Fits(m, w) && Lists(names, m) && CapsSupported(m.caps) && EncodeModule(m, w, names, wr, c).Some?
    requires !Foreign(m.flags, m.caps, wr.running, rt)
    ensures var h := GetHeader(EncodeModule(m, w, names, wr, c).value, rt);
      h.Got? && h.val.migrate == Former(m.flags, m.caps, wr.running, rt)
  {
    hide GetHeader, PutHeader, PutBody, PutVarint, Former, Foreign;
    var body := PutBody(m, w, names, []);
    HeaderRoundTrip(m.flags, m.caps, wr, rt,
                    if m.flags.compressed then PutVarint(|body|, [FLATE] + c.deflate(body)) else body);
  }

  lemma NotTooLarge(m: Module, w: WriteIndex, names: seq<Str>, rt: Runtime, c: Codec)
    requires Fits(m, w) && Lists(names, m)
    ensures !m.flags.compressed ==> EncodeModule(m, w, names, rt, c).Some?
  {
    hide PutHeader, PutBody;
  }
}
