/** Decoding to be run, with or without a companion: what the unit's chunks and their debug
    information are for every bundle the encoder makes, across the runtimes that write, split
    and run it. */
module WithDebug {
  import opened Wire
  import opened Stream
  import opened Values
  import opened ValueProofs
  import opened Chunks
  import opened Sections
  import opened Modules
  import opened Migration
  import opened Selection
  import opened EagerDecode
  import opened LazyDecode
  import opened Deferred
  import opened Bundles
  import opened DeferralProofs
  import opened EndToEnd
  import opened Companion
  import opened SplitDebug
  import opened Restore

  /** The module has a chunk, and its namespaces name chunks it has. */
  predicate Runnable(m: Module) {
    m.chunks != [] && forall x :: x in m.nsTable ==> 0 <= m.nsTable[x] < |m.chunks|
  }

  /** The unit's chunks and maps are the wanted ones, whose code is of the old opcode set or
      of the running one. */
  ghost predicate Gives(chunks: seq<Option<LiveChunk>>, maps: seq<seq<SourceEntry>>, want: seq<ChunkData>,
                        former: bool) {
    && |chunks| == |maps| == |want|
    && forall k :: 0 <= k < |want| ==> chunks[k].Some? && SaysSame(chunks[k].value, maps[k], want[k], former)
  }

  /** The chunks of a module as its bundle carries them. */
  function Kept(m: Module): (cs: seq<ChunkData>)
    ensures |cs| == |m.chunks|
    ensures forall k :: 0 <= k < |cs| ==>
      cs[k] == m.chunks[k].(localVars := if m.flags.localVars then m.chunks[k].localVars else [])
  {
    if m.flags.localVars then m.chunks else NoLocals(m.chunks)
  }

  /** With nothing deferred and good debug information, the verdict is on the module. */
  lemma Verdict(o: Outcome<ExecUnit>, chunks: seq<Option<LiveChunk>>, maps: seq<seq<SourceEntry>>, whole: Whole,
                valid: TextParsers, ds: seq<Debug>, n: int, m: Module, w: WriteIndex)
    requires Sized(whole.e) && |ds| == |whole.e.chunks| && DecodesWith(o, chunks, maps, whole, valid, Ok(ds), n)
    requires Encoded(whole.e, m, w) && Encodable(m, w, valid)
    ensures o.Ok? <==> Runnable(m)
    ensures o.Ok? ==> Attached(chunks, maps, whole.e, whole.migrate, ds)
  {
    hide Sized, Encoded, Encodable, Attached, Accepts, Refuses, StateIs, FinalChunk, TableFits;
    var e := whole.e;
    if o.Ok? {
      AcceptedFits(e, m, w, [], None, o.value.byName, n);
    } else {
      EncodedRefsMet(e, m, w, valid);
      NoneRefused(e, m, w, o.error);
    }
  }

  lemma NoneRefused(e: Eager, m: Module, w: WriteIndex, error: DecodeError)
    requires Encoded(e, m, w) && RefsMet(e.refs, [], EagerLive([], |e.chunks|), |e.refs|)
    requires Refuses(error, e, None, [])
    ensures !Runnable(m)
  {
    hide NormAll, Targets, RefsMet, EagerLive, IsMain;
    EncodedNames(e, m, w);
    if m.chunks != [] {
      var byName, n :| RefusesTable(error, e, [], byName, n);
      assert !TableAgrees(e.table, [], byName, |e.chunks|);
    }
  }

  /** Without debug information a chunk shows what its bundle carries. */
  lemma PlainSays(e: Eager, former: bool, m: Module, w: WriteIndex, k: nat)
    requires Sized(e) && Encoded(e, m, w) && k < |m.chunks|
    ensures |e.chunks| == |m.chunks|
    ensures var none := Debug([], []);
      SaysSame(Annotated(FinalChunk(e, former, k), none), ShownMap(e.chunks[k], none, e.strings), Kept(m)[k], former)
  {
    hide NormAll, Targets, Runs, Remap;
    assert Carries(e.chunks[k], m.chunks[k], m.strings);
    RemapRuns(m.chunks[k].code, former);
    assert e.locals[k] + [] == e.locals[k];
  }

  lemma PlainGives(chunks: seq<Option<LiveChunk>>, maps: seq<seq<SourceEntry>>, e: Eager, former: bool, m: Module,
                   w: WriteIndex)
    requires Sized(e) && Encoded(e, m, w) && Attached(chunks, maps, e, former, NoDebug(|e.chunks|))
    ensures Gives(chunks, maps, Kept(m), former)
  {
    hide Sized, Encoded, FinalChunk, SaysSame, Annotated, ShownMap;
    EncodedNames(e, m, w);
    forall k | 0 <= k < |m.chunks|
      ensures chunks[k].Some? && SaysSame(chunks[k].value, maps[k], Kept(m)[k], former)
    {
      PlainSays(e, former, m, w, k);
    }
  }

  /** Running a bundle that was not split, whatever companion lies beside it, or a split one
      without its companion.  A bundle of a foreign opcode set is refused as that; any other
      is accepted exactly when it can be run, and gives every chunk the stack bound, code,
      source map and local variables it was encoded with. */
  method RunAsEncoded(data: Bytes, companion: Bytes, rt: Runtime, valid: TextParsers, c: Codec, sha: Bytes -> Bytes,
                      ghost m: Module, ghost w: WriteIndex, ghost names: seq<Str>, ghost wr: Runtime)
    returns (o: Outcome<ExecUnit>, chunks: seq<Option<LiveChunk>>, maps: seq<seq<SourceEntry>>)
    requires Encodable(m, w, valid) && Lists(names, m) && Lawful(c)
    requires EncodeIs(data, m, w, names, wr, valid, c) && |data| < TWO63
    requires !m.flags.debugSplit || companion == []
    ensures Foreign(m.flags, m.caps, wr.running, rt) ==> o == Err(OpcodeMismatch)
    ensures !Foreign(m.flags, m.caps, wr.running, rt) ==> (o.Ok? <==> Runnable(m))
    ensures o.Ok? ==> Gives(chunks, maps, Kept(m), Former(m.flags, m.caps, wr.running, rt))
  {
    hide GetWhole, GetHeader, Encodable, Lists, Encoded, Sized, DecodesWith, ReadWith, Attached, Gives, Runnable,
         Lawful,
         EncodeIs, Former, Foreign, GetCompanion;
    ghost var e := EncodedAs(data, m, w, names, wr, rt, valid, c);
    ghost var n;
    o, chunks, maps, n := DecodeWithDebug(data, companion, rt, valid, c, sha);
    if !Foreign(m.flags, m.caps, wr.running, rt) {
      ghost var whole := GetWhole(data, rt, valid, c).val;
      assert DebugFor(whole, companion, data, sha) == Ok(NoDebug(|e.chunks|));
      Verdict(o, chunks, maps, whole, valid, NoDebug(|e.chunks|), n, m, w);
      if o.Ok? {
        PlainGives(chunks, maps, e, whole.migrate, m, w);
      }
    }
  }

  /** A bundle of the running opcode set, split on rt, as rt wrote it. */
  ghost predicate SplitFrom(s: Bytes, m: Module, w: WriteIndex, names: seq<Str>, wr: Runtime, rt: Runtime,
                            valid: TextParsers, c: Codec)
    requires Encodable(m, w, valid) && Lists(names, m)
  {
    EncodableFits(m, w, valid);
    var data := EncodeModule(m, w, names, wr, c);
    && !m.flags.nsRanges && Current(m, wr, rt)
    && data.Some? && StripOf(data.value, rt, valid, c) == Some(s)
  }

  lemma SplitIs(s: Bytes, m: Module, w: WriteIndex, names: seq<Str>, wr: Runtime, rt: Runtime, valid: TextParsers,
                c: Codec)
    returns (w1: WriteIndex)
    requires Encodable(m, w, valid) && Lists(names, m) && Lawful(c) && SplitFrom(s, m, w, names, wr, rt, valid, c)
    ensures |m.chunks| < TWO63
    ensures var d1 := Slim(m, w);
      Encodable(d1, w1, valid) && Lists(SlimNames(d1), d1) && EncodeIs(s, d1, w1, SlimNames(d1), rt, valid, c)
  {
    hide StripOf, EncodeModule, Encodable, SlimIndex, Lists, Lawful, Former, Foreign, NormAll, Findable;
    EncodableFits(m, w, valid);
    CurrentFindable(m, w, valid);
    StripEncodes(m, w, names, wr, rt, valid, c);
    w1 := SlimIndex(m, w, false);
  }

  /** A split bundle run without its companion, on any runtime: it is accepted exactly when
      the bundle could be run, and gives every chunk its stack bound and code with no source
      map and no local variables. */
  method RunWithoutCompanion(s: Bytes, rd: Runtime, valid: TextParsers, c: Codec, sha: Bytes -> Bytes, ghost m: Module,
                             ghost w: WriteIndex, ghost names: seq<Str>, ghost wr: Runtime, ghost rt: Runtime)
    returns (o: Outcome<ExecUnit>, chunks: seq<Option<LiveChunk>>, maps: seq<seq<SourceEntry>>)
    requires Encodable(m, w, valid) && Lists(names, m) && Lawful(c) && SplitFrom(s, m, w, names, wr, rt, valid, c)
    requires |s| < TWO63
    ensures Foreign(m.flags, m.caps, rt.running, rd) ==> o == Err(OpcodeMismatch)
    ensures !Foreign(m.flags, m.caps, rt.running, rd) ==> (o.Ok? <==> Runnable(m))
    ensures o.Ok? ==> Gives(chunks, maps, Bare(m.chunks), Former(m.flags, m.caps, rt.running, rd))
  {
    hide Encodable, Lists, Lawful, EncodeIs, Gives, SplitFrom, NormAll, Foreign, Former, Runnable;
    ghost var w1 := SplitIs(s, m, w, names, wr, rt, valid, c);
    ghost var d1 := Slim(m, w);
    SlimRunnable(m, w, rt, rd);
    o, chunks, maps := RunAsEncoded(s, [], rd, valid, c, sha, d1, w1, SlimNames(d1), rt);
    assert Kept(d1) == Bare(m.chunks);
  }

  /** A split bundle run with the companion made for it, on any runtime: it is accepted
      exactly when the bundle could be run, and every chunk gets everything back. */
  method RunWithCompanion(s: Bytes, companion: Bytes, rd: Runtime, valid: TextParsers, c: Codec, sha: Bytes -> Bytes,
                          ghost m: Module, ghost w: WriteIndex, ghost names: seq<Str>, ghost wr: Runtime,
                          ghost rt: Runtime, ghost strings: seq<Str>, ghost wc: WriteIndex)
    returns (o: Outcome<ExecUnit>, chunks: seq<Option<LiveChunk>>, maps: seq<seq<SourceEntry>>)
    requires Encodable(m, w, valid) && Lists(names, m) && Lawful(c) && SplitFrom(s, m, w, names, wr, rt, valid, c)
    requires |s| < TWO63 && IsDigest(sha) && IsCompanion(companion, sha(s), Kept(m), strings, wc)
    ensures Foreign(m.flags, m.caps, rt.running, rd) ==> o == Err(OpcodeMismatch)
    ensures !Foreign(m.flags, m.caps, rt.running, rd) ==> (o.Ok? <==> Runnable(m))
    ensures o.Ok? ==> Gives(chunks, maps, Kept(m), Former(m.flags, m.caps, rt.running, rd))
  {
    hide GetWhole, GetHeader, Encodable, Lists, Encoded, Sized, DecodesWith, ReadWith, Attached, Gives, Runnable,
         Lawful,
         EncodeIs, Former, Foreign, IsDigest, IsCompanion, SplitFrom, SaysSame, FinalChunk, NormAll,
         Annotated, ShownMap, DebugFor;
    ghost var w1 := SplitIs(s, m, w, names, wr, rt, valid, c);
    ghost var d1 := Slim(m, w);
    SlimRunnable(m, w, rt, rd);
    ghost var e := EncodedAs(s, d1, w1, SlimNames(d1), rt, rd, valid, c);
    ghost var n;
    o, chunks, maps, n := DecodeWithDebug(s, companion, rd, valid, c, sha);
    if !Foreign(m.flags, m.caps, rt.running, rd) {
      ghost var whole := GetWhole(s, rd, valid, c).val;
      SplitSays(s, m, w, names, wr, rt, rd, valid, c, companion, strings, wc, sha);
      ghost var ds := DebugOf(Kept(m));
      Verdict(o, chunks, maps, whole, valid, ds, n, d1, w1);
      if o.Ok? {
        RestoredGives(chunks, maps, e, whole.migrate, Kept(m));
      }
    }
  }

  lemma SlimRunnable(m: Module, w: WriteIndex, rt: Runtime, rd: Runtime)
    ensures Runnable(Slim(m, w)) <==> Runnable(m)
    ensures Foreign(Slim(m, w).flags, Slim(m, w).caps, rt.running, rd) == Foreign(m.flags, m.caps, rt.running, rd)
    ensures Former(Slim(m, w).flags, Slim(m, w).caps, rt.running, rd) == Former(m.flags, m.caps, rt.running, rd)
  {
    hide NormAll;
  }

  /** The split bundle is marked as split and says it has no local variables; what else its
      flag word says, compression included, is what the bundle's said. */
  lemma SplitFlags(s: Bytes, m: Module, w: WriteIndex, names: seq<Str>, wr: Runtime, rt: Runtime, valid: TextParsers,
                   c: Codec)
    requires Encodable(m, w, valid) && Lists(names, m) && Lawful(c) && SplitFrom(s, m, w, names, wr, rt, valid, c)
    ensures |s| >= 8 && WordAt(s, 4) == 3 && Spells(WordAt(s, 6), m.flags.(localVars := false, debugSplit := true))
  {
    hide Encodable, Lists, Lawful, EncodeModule, SplitFrom, NormAll;
    var w1 := SplitIs(s, m, w, names, wr, rt, valid, c);
    var d1 := Slim(m, w);
    EncodableFits(d1, w1, valid);
    LeastVersion(d1, w1, SlimNames(d1), rt, c);
    SpelledBits(WordAt(s, 6), d1.flags);
  }

  /** SplitRestores of the split bundle. */
  lemma SplitSays(s: Bytes, m: Module, w: WriteIndex, names: seq<Str>, wr: Runtime, rt: Runtime, rd: Runtime,
                  valid: TextParsers, c: Codec, companion: Bytes, strings: seq<Str>, wc: WriteIndex,
                  sha: Bytes -> Bytes)
    requires Encodable(m, w, valid) && Lists(names, m) && Lawful(c) && SplitFrom(s, m, w, names, wr, rt, valid, c)
    requires IsDigest(sha) && IsCompanion(companion, sha(s), Kept(m), strings, wc)
    requires !Foreign(m.flags, m.caps, rt.running, rd)
    ensures var p, former := GetWhole(s, rd, valid, c), Former(m.flags, m.caps, rt.running, rd);
      && p.Got? && Sized(p.val.e) && p.val.migrate == former && |p.val.e.chunks| == |m.chunks|
      && DebugFor(p.val, companion, s, sha) == Ok(DebugOf(Kept(m)))
      && Restored(p.val.e, former, Kept(m))
  {
    hide GetWhole, EncodeModule, Encodable, Lists, Lawful, Sized, IsDigest, IsCompanion, SaysSame, FinalChunk, NormAll,
         Annotated, ShownMap, Former, Foreign, StripOf, DebugFor;
    EncodableFits(m, w, valid);
    SplitRestores(m, w, names, wr, rt, rd, valid, c, companion, strings, wc, sha);
  }

  ghost predicate Restored(e: Eager, former: bool, cs: seq<ChunkData>)
    requires Sized(e) && |e.chunks| == |cs|
  {
    forall k :: 0 <= k < |cs| ==>
      SaysSame(Annotated(FinalChunk(e, former, k), DebugOf(cs)[k]), ShownMap(e.chunks[k], DebugOf(cs)[k], e.strings),
               cs[k], former)
  }

  lemma RestoredGives(chunks: seq<Option<LiveChunk>>, maps: seq<seq<SourceEntry>>, e: Eager, former: bool,
                      cs: seq<ChunkData>)
    requires Sized(e) && |e.chunks| == |cs| && Restored(e, former, cs)
    requires Attached(chunks, maps, e, former, DebugOf(cs))
    ensures Gives(chunks, maps, cs, former)
  {
    hide Sized, FinalChunk, SaysSame, Annotated, ShownMap;
  }

  // ------------------------------------------------ splitting an older bundle

  lemma StrippedServes(m: Module, w: WriteIndex, names: seq<Str>, wr: Runtime, rt: Runtime, valid: TextParsers,
                       c: Codec,
                       k: nat)
    requires Encodable(m, w, valid) && Lists(names, m) && Lawful(c) && EncodeModule(m, w, names, wr, c).Some?
    requires !m.flags.nsRanges && Former(m.flags, m.caps, wr.running, rt) && Findable(m, w, true)
    requires StripOf(EncodeModule(m, w, names, wr, c).value, rt, valid, c).Some? && k < |m.chunks|
    ensures var data := EncodeModule(m, w, names, wr, c).value;
      var p, q := GetWhole(data, rt, valid, c), GetWhole(StripOf(data, rt, valid, c).value, rt, valid, c);
      && ServesChunk(p, k) && ServesChunk(q, k) && ServedCode(p, k) == Remap(m.chunks[k].code)
      && ServedCode(q, k) == if m.flags.capabilities then m.chunks[k].code else Remap(m.chunks[k].code)
  {
    hide GetWhole, EncodeModule, Encodable, Lists, Lawful, Former, Foreign, StripOf, Findable, Encoded, Sized, Remap,
         NormAll, ServesChunk, ServedCode;
    EncodableFits(m, w, valid);
    FormerHere(m, wr, rt);
    StripEncodes(m, w, names, wr, rt, valid, c);
    var d1, w1 := Slim(m, w), SlimIndex(m, w, true);
    EncodableFits(d1, w1, valid);
    EncodedWhole(m, w, names, wr, rt, valid, c);
    SlimHere(m, w, rt);
    EncodedWhole(d1, w1, SlimNames(d1), rt, rt, valid, c);
    var data := EncodeModule(m, w, names, wr, c).value;
    ServedIs(data, rt, valid, c, m, w, k);
    SlimCode(m, w, k);
    ServedIs(StripOf(data, rt, valid, c).value, rt, valid, c, d1, w1, k);
  }

  /** Stripping promises that running is unaffected, but what rt strips it stamps with its own
      opcode set, and the code stays as it was read.  So of a bundle that names the old opcode
      set the stripped form is served unmigrated: a chunk then runs as the bundle's does
      exactly when no opcode on its walk is a removed one or a later one.  A bundle without
      capabilities is still migrated. */
  lemma StrippedCode(m: Module, w: WriteIndex, names: seq<Str>, wr: Runtime, rt: Runtime, valid: TextParsers, c: Codec,
                     k: nat)
    requires Encodable(m, w, valid) && Lists(names, m) && Lawful(c) && EncodeModule(m, w, names, wr, c).Some?
    requires !m.flags.nsRanges && Former(m.flags, m.caps, wr.running, rt) && Findable(m, w, true)
    requires StripOf(EncodeModule(m, w, names, wr, c).value, rt, valid, c).Some? && k < |m.chunks|
    ensures var data := EncodeModule(m, w, names, wr, c).value;
      var p, q := GetWhole(data, rt, valid, c), GetWhole(StripOf(data, rt, valid, c).value, rt, valid, c);
      && ServesChunk(p, k) && ServesChunk(q, k) && Runs(ServedCode(p, k), m.chunks[k].code, true)
      && (m.flags.capabilities ==> ServedCode(q, k) == m.chunks[k].code)
      && (ServedCode(q, k) == ServedCode(p, k) <==> !m.flags.capabilities || Untouched(m.chunks[k].code))
  {
    hide GetWhole, EncodeModule, Encodable, Lists, Lawful, Former, StripOf, Findable, Remap, Untouched, Runs,
         ServedCode,
         ServesChunk;
    StrippedServes(m, w, names, wr, rt, valid, c, k);
    RemapRuns(m.chunks[k].code, true);
    RemapChanges(m.chunks[k].code);
  }

  lemma SlimCode(m: Module, w: WriteIndex, k: nat)
    requires k < |m.chunks|
    ensures |Slim(m, w).chunks| == |m.chunks| && Slim(m, w).chunks[k].code == m.chunks[k].code
  {
    hide NormAll;
  }

  /** The code of chunk k of a bundle all of which decodes. */
  ghost predicate ServesChunk(p: Parse<Whole>, k: nat) {
    p.Got? && Sized(p.val.e) && k < |p.val.e.chunks|
  }

  ghost function ServedCode(p: Parse<Whole>, k: nat): seq<I32>
    requires ServesChunk(p, k)
  {
    FinalChunk(p.val.e, p.val.migrate, k).code
  }

  lemma ServedIs(data: Bytes, rt: Runtime, valid: TextParsers, c: Codec, m: Module, w: WriteIndex, k: nat)
    requires GetWhole(data, rt, valid, c).Got? && Encoded(GetWhole(data, rt, valid, c).val.e, m, w) && k < |m.chunks|
    ensures var p := GetWhole(data, rt, valid, c);
      ServesChunk(p, k)
      && ServedCode(p, k) == if p.val.migrate then Remap(m.chunks[k].code) else m.chunks[k].code
  {
    hide GetWhole, Remap, NormAll, Targets, Sized;
    WholeSized(data, rt, valid, c);
    var e := GetWhole(data, rt, valid, c).val.e;
    assert Carries(e.chunks[k], m.chunks[k], m.strings);
  }

  lemma FormerHere(m: Module, wr: Runtime, rt: Runtime)
    requires Former(m.flags, m.caps, wr.running, rt)
    ensures !Foreign(m.flags, m.caps, wr.running, rt) && rt.former != rt.running
  {
  }

  /** The stripped bundle is at home on rt, and of the old opcode set only if it says
      nothing about it. */
  lemma SlimHere(m: Module, w: WriteIndex, rt: Runtime)
    ensures !Foreign(Slim(m, w).flags, Slim(m, w).caps, rt.running, rt)
    ensures Former(Slim(m, w).flags, Slim(m, w).caps, rt.running, rt)
         == (rt.former != rt.running && !m.flags.capabilities)
  {
    hide NormAll;
  }

  // One chunk whose code is an instruction of the old opcode set that is now another.

  function OldModule(): Module {
    Module(2, Flags(false, true, false, false, false, false), 1, [], [ChunkData(0, [20, 0], [], [])], [], 0, map[], [])
  }

  function OldIndex(): WriteIndex {
    WriteIndex(map[], map[])
  }

  lemma OldWrites(valid: TextParsers)
    ensures Encodable(OldModule(), OldIndex(), valid) && Lists([], OldModule())
    ensures Findable(OldModule(), OldIndex(), true) && Fits(OldModule(), OldIndex())
  {
  }

  /** An input that shows it: the instruction of the bundle is MAKE_MULTI_ARITY; of the
      bundle stripped on rt it is TRY_PUSH. */
  lemma StrippedInput(wr: Runtime, rt: Runtime, valid: TextParsers, c: Codec)
    requires Lawful(c) && wr.running == rt.former && rt.former != rt.running
    ensures Encodable(OldModule(), OldIndex(), valid) && Lists([], OldModule()) && Fits(OldModule(), OldIndex())
    ensures var data := EncodeModule(OldModule(), OldIndex(), [], wr, c);
      && data.Some? && StripOf(data.value, rt, valid, c).Some?
      && var p, q := GetWhole(data.value, rt, valid, c), GetWhole(StripOf(data.value, rt, valid, c).value, rt, valid, c);
      && ServesChunk(p, 0) && ServesChunk(q, 0) && ServedCode(p, 0) == [18, 0] && ServedCode(q, 0) == [20, 0]
      && Name(18) == MAKE_MULTI_ARITY && Name(20) == TRY_PUSH
  {
    hide GetWhole, EncodeModule, Encodable, Lists, Lawful, Foreign, StripOf, Findable, PutBody, PutHeader, NormAll,
         Fits,
         ServesChunk, ServedCode, SlimIndex, Slim, SlimNames, Name, Remap;
    var m, w := OldModule(), OldIndex();
    OldWrites(valid);
    OldStrips(wr, rt, valid, c);
    StrippedServes(m, w, [], wr, rt, valid, c, 0);
    OldRemap();
  }

  lemma OldStrips(wr: Runtime, rt: Runtime, valid: TextParsers, c: Codec)
    requires Lawful(c) && wr.running == rt.former && rt.former != rt.running
    requires Encodable(OldModule(), OldIndex(), valid) && Lists([], OldModule()) && Fits(OldModule(), OldIndex())
    requires Findable(OldModule(), OldIndex(), true)
    ensures var data := EncodeModule(OldModule(), OldIndex(), [], wr, c);
      data.Some? && StripOf(data.value, rt, valid, c).Some?
  {
    hide EncodeModule, Encodable, Lists, Lawful, Foreign, StripOf, Findable, NormAll, Fits, RawIndex, SlimNames;
    var m, w := OldModule(), OldIndex();
    FormerHere(m, wr, rt);
    NotTooLarge(m, w, [], wr, c);
    StripEncodes(m, w, [], wr, rt, valid, c);
    var d1, w1 := Slim(m, w), SlimIndex(m, w, true);
    EncodableFits(d1, w1, valid);
    NotTooLarge(d1, w1, SlimNames(d1), rt, c);
  }

  lemma OldRemap()
    ensures Remap([20, 0]) == [18, 0] && Name(18) == MAKE_MULTI_ARITY && Name(20) == TRY_PUSH
  {
    hide OldStride, Stride, RemapWord, RemapOp, Remap, Op;
    var code: seq<I32> := [20, 0];
    OldWord();
    RemapHead(code);
    assert |Remap(code)| == 2 && Remap(code)[1..2] == code[1..2];
    assert Remap(code)[1] == Remap(code)[1..2][0] && code[1..2][0] == 0;
  }

  lemma OldWord()
    ensures Next([20, 0], OldStride) == 2 && RemapWord(20) == 18
  {
    hide Stride;
    assert Op(20) == 20;
  }
}
