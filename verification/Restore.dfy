/** Decoding a stripped bundle together with its companion. */
module Restore {
  import opened Wire
  import opened Stream
  import opened Values
  import opened ValueProofs
  import opened Chunks
  import opened Sections
  import opened Sorting
  import opened Modules
  import opened Migration
  import opened Selection
  import opened EagerDecode
  import opened LazyRead
  import opened LazyDecode
  import opened Deferred
  import opened Bundles
  import opened DeferralProofs
  import opened Shapes
  import opened Companion
  import opened SplitDebug

  // ----------------------------------------------------------- with debug info

  function NoDebug(n: nat): (ds: seq<Debug>)
    ensures |ds| == n && forall k :: 0 <= k < n ==> ds[k] == Debug([], [])
  {
    seq(n, _ => Debug([], []))
  }

  /** The debug information a companion brings to a bundle of n chunks.  A bundle that was
      not split ignores it. */
  ghost function DebugOn(split: bool, n: nat, companion: Bytes, data: Bytes,
                         sha: Bytes -> Bytes): (o: Outcome<seq<Debug>>)
    ensures o.Ok? ==> |o.value| == n
  {
    if !split || companion == [] then Ok(NoDebug(n))
    else
      match GetCompanion(companion, data, sha)
      case Fail(e) => Err(e)
      case Got(ds, _) => if |ds| != n then Err(BadDebugCount) else Ok(ds)
  }

  ghost function DebugFor(w: Whole, companion: Bytes, data: Bytes, sha: Bytes -> Bytes): (o: Outcome<seq<Debug>>)
    ensures o.Ok? ==> |o.value| == |w.e.chunks|
  {
    DebugOn(w.flags.debugSplit, |w.e.chunks|, companion, data, sha)
  }

  /** The local variables join those the bundle has. */
  function Annotated(c: LiveChunk, d: Debug): LiveChunk {
    c.(localVars := c.localVars + d.localVars)
  }

  /** What looking up a source position sees.  A map still raw replaces, once it is
      decoded, whatever was attached to it. */
  function ShownMap(c: LiveChunk, d: Debug, strings: seq<Str>): seq<SourceEntry> {
    if c.sourceMap != [] then ResolveAll(c.sourceMap, strings) else d.sourceMap
  }

  /** All chunks of a unit with nothing deferred, with their debug information. */
  ghost predicate Attached(chunks: seq<Option<LiveChunk>>, maps: seq<seq<SourceEntry>>, e: Eager, migrate: bool,
                           ds: seq<Debug>)
    requires Sized(e) && |ds| == |e.chunks|
  {
    && |chunks| == |e.chunks| == |maps|
    && forall k :: 0 <= k < |chunks| ==>
      chunks[k] == Some(Annotated(FinalChunk(e, migrate, k), ds[k])) && maps[k] == ShownMap(e.chunks[k], ds[k], e.strings)
  }

  /** The outcome of decoding, with a companion, a bundle all of which decodes. */
  ghost predicate DecodesWith(o: Outcome<ExecUnit>, chunks: seq<Option<LiveChunk>>, maps: seq<seq<SourceEntry>>,
                              w: Whole,
                              valid: TextParsers, debug: Outcome<seq<Debug>>, m: int)
    requires Sized(w.e) && (debug.Ok? ==> |debug.value| == |w.e.chunks|)
    reads if o.Ok? then {o.value} else {}
  {
    && (o.Ok? ==> debug.Ok? && Accepts(w.e, None, []) && UnitOf(o.value, w.e, w.flags, w.migrate, valid, [], m)
                  && Attached(chunks, maps, w.e, w.migrate, debug.value))
    && (o.Err? ==> Refuses(o.error, w.e, None, []) || (debug.Err? && o.error == debug.error))
  }

  /** With nothing deferred every slot is full. */
  lemma AllPresent(u: ExecUnit, e: Eager, flags: Flags, migrate: bool, valid: TextParsers, m: int)
    requires Sized(e) && UnitOf(u, e, flags, migrate, valid, [], m)
    ensures |u.chunks| == |e.chunks| && u.strings == e.strings && u.flags == flags
    ensures forall k :: 0 <= k < |u.chunks| ==> u.chunks[k] == Some(FinalChunk(e, migrate, k))
  {
    hide Sized, Located, Complete, TableFits, IsMain, Ordered;
    assert u.Serves(e);
    forall k | 0 <= k < |u.chunks|
      ensures u.chunks[k].Some?
    {
      assert !DeferredChunk(Ranges(u.ns), k);
    }
  }

  /** The attaching loop.  The chunks come back beside the unit, which shares them. */
  method Attach(slots: seq<Option<LiveChunk>>, strings: seq<Str>, ds: seq<Debug>)
    returns (chunks: seq<Option<LiveChunk>>, maps: seq<seq<SourceEntry>>)
    requires |slots| == |ds|
    ensures |chunks| == |slots| == |maps|
    ensures forall k :: 0 <= k < |chunks| && slots[k].Some? ==>
      chunks[k] == Some(Annotated(slots[k].value, ds[k])) && maps[k] == ShownMap(slots[k].value, ds[k], strings)
  {
    hide ResolveAll;
    chunks, maps := slots, seq(|slots|, _ => []);
    for i := 0 to |slots|
      invariant |chunks| == |slots| == |maps| && chunks[i..] == slots[i..]
      invariant forall k :: 0 <= k < i && slots[k].Some? ==>
        chunks[k] == Some(Annotated(slots[k].value, ds[k])) && maps[k] == ShownMap(slots[k].value, ds[k], strings)
    {
      assert chunks[i..][0] == slots[i..][0];
      if chunks[i].Some? {
        var c := chunks[i].value;
        maps := maps[i := if c.sourceMap != [] then ResolveAll(c.sourceMap, strings) else ds[i].sourceMap];
        var locals := AddLocalVars(c.localVars, ds[i].localVars);
        chunks := chunks[i := Some(c.(localVars := locals))];
      }
    }
  }

  method AddLocalVars(have: seq<LocalVar>, more: seq<LocalVar>) returns (all: seq<LocalVar>)
    ensures all == have + more
  {
    all := have;
    for j := 0 to |more|
      invariant all == have + more[..j]
    {
      all := all + [more[j]];
    }
    assert more[..|more|] == more;
  }

  lemma NothingChosen(o: Outcome<ExecUnit>, w: Whole, valid: TextParsers, sel: seq<NSRange>, m: int)
    requires Sized(w.e) && Decodes(o, w, valid, None, sel, m)
    ensures o.Ok? ==> sel == []
    ensures o.Err? ==> Refuses(o.error, w.e, None, [])
  {
    hide UnitOf, RefusesChosen, RunsInPool, RefsMet, EagerLive;
  }

  lemma AttachedAll(slots: seq<Option<LiveChunk>>, chunks: seq<Option<LiveChunk>>, maps: seq<seq<SourceEntry>>,
                    e: Eager, migrate: bool, ds: seq<Debug>)
    requires Sized(e) && |slots| == |e.chunks| == |ds| == |chunks| == |maps|
    requires forall k :: 0 <= k < |slots| ==> slots[k] == Some(FinalChunk(e, migrate, k))
    requires forall k :: 0 <= k < |chunks| && slots[k].Some? ==>
      chunks[k] == Some(Annotated(slots[k].value, ds[k])) && maps[k] == ShownMap(slots[k].value, ds[k], e.strings)
    ensures Attached(chunks, maps, e, migrate, ds)
  {
    hide Sized, ResolveAll;
  }

  /** On any bytes the unit presents what is read of them, all of it, and each of its
      chunks is given its debug information. */
  ghost predicate ReadWith(u: ExecUnit, chunks: seq<Option<LiveChunk>>, maps: seq<seq<SourceEntry>>, data: Bytes,
                           rt: Runtime, valid: TextParsers, c: Codec, companion: Bytes, sha: Bytes -> Bytes, m: int)
    reads u
  {
    var debug := DebugOn(u.flags.debugSplit, |u.chunks|, companion, data, sha);
    && Read(u, data, rt, valid, c, None, [], m) && debug.Ok? && |chunks| == |u.chunks| == |maps|
    && forall k :: 0 <= k < |chunks| ==>
      u.chunks[k].Some? && GivenDebug(chunks[k], maps[k], u.chunks[k].value, debug.value[k], u.strings)
  }

  predicate GivenDebug(now: Option<LiveChunk>, shown: seq<SourceEntry>, c: LiveChunk, d: Debug, strings: seq<Str>) {
    now == Some(Annotated(c, d)) && shown == ShownMap(c, d, strings)
  }

  /** With nothing selected no slot is empty. */
  lemma ReadFull(u: ExecUnit, data: Bytes, rt: Runtime, valid: TextParsers, c: Codec, sel: seq<NSRange>, m: int)
    requires Read(u, data, rt, valid, c, None, sel, m)
    ensures sel == [] && forall k :: 0 <= k < |u.chunks| ==> u.chunks[k].Some?
  {
    hide GetHeader, GetInflated, LazyBody, NameIndex, TableAgrees, EagerMains, IsMain, AllNamed;
    var h := GetHeader(data, rt);
    var body := if h.val.flags.compressed then GetInflated(h.rest, c) else Got(h.rest, []);
    FullBody(h.val.flags, h.val.migrate, body.val, valid);
  }

  lemma FullBody(f: Flags, migrate: bool, s: Bytes, valid: TextParsers)
    requires LazyBody(f, migrate, s, valid, []).Got?
    ensures forall k :: 0 <= k < |LazyBody(f, migrate, s, valid, []).val.chunks| ==>
      LazyBody(f, migrate, s, valid, []).val.chunks[k].Some?
  {
    hide GetStrings, GetRanges, LazyChunks, LazyConstSection, GetNSTable, LazyTables, GetVarint;
    var strings := GetStrings(s);
    var ranges := GetRanges(f.nsRanges, strings.rest, strings.val);
    var n := GetVarint(ranges.rest);
    NoneChunks(n.rest, 0, n.val);
    var slots := LazyChunkSection(ranges.rest, []);
    var chunks := if migrate then AllRemapped(slots.val) else slots.val;
    var consts := LazyConstSection(f.constsBase, slots.rest, [], Env(strings.val, Live(chunks), valid, true));
    var table := GetNSTable(consts.rest, strings.val);
    FullTables(table.rest, chunks, strings.val);
  }

  lemma {:induction false} FullTables(s: Bytes, slots: seq<Option<LiveChunk>>, strings: seq<Str>)
    requires forall k :: 0 <= k < |slots| ==> slots[k].Some?
    ensures var p := LazyTables(s, slots, strings); p.Got? ==> forall k :: 0 <= k < |slots| ==> p.val[k].Some?
    decreases |slots|
  {
    hide GetLocals, ScanLocals;
    if slots == [] {
    } else {
      var x := LazyTable(s, slots[0], strings);
      if x.Got? {
        FullTables(x.rest, slots[1..], strings);
      }
    }
  }

  /** DecodeToExecUnitBytesWithDebug */
  method DecodeWithDebug(data: Bytes, companion: Bytes, rt: Runtime, valid: TextParsers, c: Codec, sha: Bytes -> Bytes)
    returns (o: Outcome<ExecUnit>, chunks: seq<Option<LiveChunk>>, maps: seq<seq<SourceEntry>>, ghost m: int)
    requires |data| < TWO63
    ensures o.Ok? ==> fresh(o.value) && o.value.Valid()
    ensures var h := GetHeader(data, rt); h.Fail? ==> o == Err(h.error)
    ensures GetWhole(data, rt, valid, c).Got? ==> Sized(GetWhole(data, rt, valid, c).val.e)
    ensures var p := GetWhole(data, rt, valid, c);
      p.Got? ==> DecodesWith(o, chunks, maps, p.val, valid, DebugFor(p.val, companion, data, sha), m)
    ensures o.Ok? ==> ReadWith(o.value, chunks, maps, data, rt, valid, c, companion, sha, m)
  {
    hide GetHeader, GetWhole, Sized, UnitOf, Accepts, Refuses, Attached, GetCompanion, Read;
    chunks, maps := [], [];
    ghost var sel;
    o, sel, m := DecodeBundle(data, rt, valid, c, None);
    ghost var p := GetWhole(data, rt, valid, c);
    if p.Got? { NothingChosen(o, p.val, valid, sel, m); }
    if o.Err? {
      return;
    }
    var u := o.value;
    ReadFull(u, data, rt, valid, c, sel, m);
    if p.Got? { AllPresent(u, p.val.e, p.val.flags, p.val.migrate, valid, m); }
    var ds := NoDebug(|u.chunks|);
    if u.flags.debugSplit && companion != [] {
      var debug := DecodeCompanion(companion, data, sha);
      if debug.Err? {
        return Err(debug.error), chunks, maps, m;
      }
      if |debug.value| != |u.chunks| {
        return Err(BadDebugCount), chunks, maps, m;
      }
      ds := debug.value;
    }
    chunks, maps := Attach(u.chunks, u.strings, ds);
    if p.Got? { AttachedAll(u.chunks, chunks, maps, p.val.e, p.val.migrate, ds); }
  }

  // -------------------------------------------------------------- restoration

  /** The live chunk and its map say what the module's chunk says, whose code is of the old
      opcode set or of the running one. */
  ghost predicate SaysSame(live: LiveChunk, shown: seq<SourceEntry>, c: ChunkData, former: bool) {
    && live.maxStack == c.maxStack && Runs(live.code, c.code, former)
    && live.localVars == c.localVars && shown == c.sourceMap
  }

  lemma SlimSaysSame(e: Eager, former: bool, d: Module, w1: WriteIndex, k: nat)
    requires |d.chunks| < TWO63 && Sized(e) && Encoded(e, Stripped(d), w1) && k < |d.chunks|
    ensures |e.chunks| == |d.chunks| && e.chunks[k].sourceMap == []
    ensures var own := DebugOf(d.chunks)[k];
      SaysSame(Annotated(FinalChunk(e, former, k), own), ShownMap(e.chunks[k], own, e.strings), d.chunks[k], former)
  {
    hide NormAll, Targets, Runs, Remap;
    assert Carries(e.chunks[k], Stripped(d).chunks[k], d.strings);
    RemapRuns(d.chunks[k].code, former);
  }

  /** Nothing is lost: for a bundle the encoder made, without a range table, that rt splits,
      decoding the stripped bundle on any runtime rd with its companion gives every chunk its
      stack bound, code, source map and local variables back. */
  lemma SplitRestores(m: Module, w: WriteIndex, names: seq<Str>, wr: Runtime, rt: Runtime, rd: Runtime,
                      valid: TextParsers, c: Codec, companion: Bytes, strings: seq<Str>, wc: WriteIndex,
                      sha: Bytes -> Bytes)
    requires Encodable(m, w, valid) && Lists(names, m) && Lawful(c) && EncodeModule(m, w, names, wr, c).Some?
    requires !m.flags.nsRanges && Current(m, wr, rt) && !Foreign(m.flags, m.caps, rt.running, rd)
    requires StripOf(EncodeModule(m, w, names, wr, c).value, rt, valid, c).Some?
    requires var s := StripOf(EncodeModule(m, w, names, wr, c).value, rt, valid, c).value;
      IsDigest(sha) && IsCompanion(companion, sha(s), Decoded(m, w).chunks, strings, wc)
    ensures var s, cs := StripOf(EncodeModule(m, w, names, wr, c).value, rt, valid, c).value, Decoded(m, w).chunks;
      var p, former := GetWhole(s, rd, valid, c), Former(m.flags, m.caps, rt.running, rd);
      && p.Got? && Sized(p.val.e) && p.val.migrate == former && |p.val.e.chunks| == |cs|
      && DebugFor(p.val, companion, s, sha) == Ok(DebugOf(cs))
      && forall k :: 0 <= k < |cs| ==>
        SaysSame(Annotated(FinalChunk(p.val.e, former, k), DebugOf(cs)[k]),
                 ShownMap(p.val.e.chunks[k], DebugOf(cs)[k], p.val.e.strings), cs[k], former)
  {
    hide GetWhole, StripOf, EncodeModule, Encodable, RawIndex, Lists, NormAll, Encoded, Sized, Annotated, ShownMap,
         FinalChunk, GetCompanion, SaysSame, IsDigest;
    EncodableFits(m, w, valid);
    CurrentFindable(m, w, valid);
    StripEncodes(m, w, names, wr, rt, valid, c);
    var d, d1 := Decoded(m, w), Slim(m, w);
    var w1 := RawIndex(d1, false);
    EncodableFits(d1, w1, valid);
    EncodedWhole(d1, w1, SlimNames(d1), rt, rd, valid, c);
    var s := StripOf(EncodeModule(m, w, names, wr, c).value, rt, valid, c).value;
    WholeSized(s, rd, valid, c);
    var e, former := GetWhole(s, rd, valid, c).val.e, Former(m.flags, m.caps, rt.running, rd);
    EncodedShape(e, d1, w1);
    CompanionRoundTrip(companion, s, d.chunks, strings, wc, sha, s);
    CompanionBytes(companion, sha(s), d.chunks, strings, wc);
    forall k | 0 <= k < |d.chunks|
      ensures SaysSame(Annotated(FinalChunk(e, former, k), DebugOf(d.chunks)[k]),
                       ShownMap(e.chunks[k], DebugOf(d.chunks)[k], e.strings), d.chunks[k], former)
    {
      SlimSaysSame(e, former, d, w1, k);
    }
  }

  lemma CompanionBytes(companion: Bytes, digest: Bytes, cs: seq<ChunkData>, strings: seq<Str>, w: WriteIndex)
    requires IsCompanion(companion, digest, cs, strings, w)
    ensures companion != []
  {
    hide PutLE, PutStrings, PutDebugs;
  }

  // ----------------------------------------------------- refused no more often

  lemma RefusedAlike(e0: Eager, e1: Eager, error: DecodeError)
    requires e0.table == e1.table && |e0.chunks| == |e1.chunks| && |e0.consts| == |e1.consts|
    requires RefsMet(e0.refs, [], EagerLive([], |e0.chunks|), |e0.refs|)
    requires RefsMet(e1.refs, [], EagerLive([], |e1.chunks|), |e1.refs|)
    ensures Refuses(error, e0, None, []) ==> Refuses(error, e1, None, [])
  {
    hide RefsMet, EagerLive, DeferredChunk, AllNamed, NameIndex, IsMain, TableAgrees;
    if Refuses(error, e0, None, []) && e0.chunks != [] {
      var byName, m :| RefusesTable(error, e0, [], byName, m);
      assert RefusesTable(error, e1, [], byName, m);
    }
  }

  /** The split bundle is refused exactly when the bundle was, and for the same reason. */
  lemma SplitRefusals(m: Module, w: WriteIndex, names: seq<Str>, wr: Runtime, rt: Runtime, valid: TextParsers, c: Codec,
                      error: DecodeError)
    requires Encodable(m, w, valid) && Lists(names, m) && Lawful(c) && EncodeModule(m, w, names, wr, c).Some?
    requires !m.flags.nsRanges && Current(m, wr, rt)
    requires StripOf(EncodeModule(m, w, names, wr, c).value, rt, valid, c).Some?
    ensures var data := EncodeModule(m, w, names, wr, c).value;
      var p, q := GetWhole(data, rt, valid, c), GetWhole(StripOf(data, rt, valid, c).value, rt, valid, c);
      p.Got? && q.Got? && (Refuses(error, q.val.e, None, []) <==> Refuses(error, p.val.e, None, []))
  {
    hide GetWhole, StripOf, EncodeModule, Encodable, RawIndex, Lists, NormAll, Encoded, Refuses, RefsMet, EagerLive;
    EncodableFits(m, w, valid);
    CurrentFindable(m, w, valid);
    StripEncodes(m, w, names, wr, rt, valid, c);
    var d1 := Slim(m, w);
    var w1 := RawIndex(d1, false);
    EncodableFits(d1, w1, valid);
    EncodedWhole(m, w, names, wr, rt, valid, c);
    EncodedWhole(d1, w1, SlimNames(d1), rt, rt, valid, c);
    var e := GetWhole(EncodeModule(m, w, names, wr, c).value, rt, valid, c).val.e;
    var e1 := GetWhole(StripOf(EncodeModule(m, w, names, wr, c).value, rt, valid, c).value, rt, valid, c).val.e;
    EncodedRefsMet(e, m, w, valid);
    EncodedRefsMet(e1, d1, w1, valid);
    EncodedShape(e, m, w);
    EncodedShape(e1, d1, w1);
    RefusedAlike(e, e1, error);
    RefusedAlike(e1, e, error);
  }

  lemma EncodedShape(e: Eager, m: Module, w: WriteIndex)
    requires Encoded(e, m, w)
    ensures e.table == m.nsTable && |e.chunks| == |m.chunks| && |e.consts| == |m.consts|
  {
    hide Targets;
  }
}
