/** Deferred decoding of the bundles the encoder makes: whatever is deferred and whatever
    is asked for afterwards, nothing ever needs a chunk that is still missing, and what
    the unit serves is what was encoded. */
module DeferralProofs {
  import opened Wire
  import opened Stream
  import opened Values
  import opened ValueProofs
  import opened Chunks
  import opened Sections
  import opened Sorting
  import opened Modules
  import opened Migration
  import opened References
  import opened Reachability
  import opened NSRanges
  import opened Validation
  import opened Selection
  import opened EagerDecode
  import opened LazyDecode
  import opened Deferred
  import opened Bundles

  // ------------------------------------------- what the function records refer to

  /** The chunks, by index, of the functions inside v. */
  ghost function Targets(v: Value, w: WriteIndex): set<nat> {
    set f | f in FuncRefs(v) && f in w.chunks :: w.chunks[f]
  }

  /** The environment in which only the given chunks are decoded. */
  ghost function OnlyLive(e: Env, targets: set<nat>): (r: Env)
    ensures |r.live| == |e.live| && forall k :: 0 <= k < |r.live| ==> (r.live[k] <==> k in targets)
    ensures r.strings == e.strings && r.valid == e.valid && !r.wide
  {
    e.(live := seq(|e.live|, k => k in targets), wide := false)
  }

  /** A written constant's function records refer to exactly the chunks of its functions:
      with only those chunks the constant reads, and no value reads without the chunks of
      the functions in it. */
  lemma RecordRefs(v: Value, w: WriteIndex, e: Env, k: Bytes)
    requires Writable(v, w) && Canonical(v, e.valid) && TableMatches(w, e.strings) && RefsLive(FuncRefs(v), w, e)
    ensures Scan(PutValue(v, w, k)) == Got(Targets(v, w), k)
  {
    hide PutValue, GetValue, Scan, Norm, Canonical, Writable;
    var s := PutValue(v, w, k);
    var e2 := OnlyLive(e, Targets(v, w));
    assert RefsLive(FuncRefs(v), w, e2) by {
      forall c | c in FuncRefs(v)
        ensures c in w.chunks && w.chunks[c] < |e2.live| && e2.live[w.chunks[c]]
      {
        assert w.chunks[c] in Targets(v, w);
      }
    }
    ValueRoundTrip(v, w, e2, k);
    ValueScan(s, e2, e2);
    var refs := Scan(s).val;
    var e3 := OnlyLive(e, refs);
    ValueScan(s, e2, e3);
    NormRefs(v, w, e2.valid);
    ReadLive(s, e3);
    assert refs == Targets(v, w);
    assert GetValue(s, e2).rest == k;
  }

  /** The functions of the decoded constant are named by their chunks' indices. */
  lemma NormRefs(v: Value, w: WriteIndex, valid: TextParsers)
    requires Writable(v, w) && Canonical(v, valid) && forall c :: c in FuncRefs(v) ==> c in w.chunks
    ensures FuncRefs(Norm(v, w)) == Targets(v, w)
  {
    hide FuncRefs, Norm, Canonical, Serializable, Shaped, StringRefs;
    NormKeeps(v, w, valid);
    assert Renamed(FuncRefs(v), w) == Targets(v, w);
  }

  lemma {:induction false} RecordRefsEach(vs: seq<Value>, w: WriteIndex, e: Env, k: Bytes, c: nat)
    requires WritableAll(vs, w) && Carried(vs, w, e) && c < |vs|
    ensures ScanEach(PutValues(vs, w, k), |vs|)[c] == Targets(vs[c], w)
    ensures RefsLive(FuncRefs(vs[c]), w, e)
    decreases vs
  {
    hide PutValue, GetValue, Scan, Targets;
    RecordRefs(vs[0], w, e, PutValues(vs[1..], w, k));
    if c > 0 {
      RecordRefsEach(vs[1..], w, e, k, c - 1);
    }
  }

  // ------------------------------------------------- decoding an encoded body

  /** e is what decoding everything of the encoding of m gives. */
  ghost predicate Encoded(e: Eager, m: Module, w: WriteIndex) {
    && e.strings == m.strings && e.ranges == (if m.flags.nsRanges then m.ranges else [])
    && AllCarry(e.chunks, m.chunks, m.strings)
    && e.base == (if m.flags.constsBase then m.base else 0) && e.consts == NormAll(m.consts, w)
    && |e.refs| == |m.consts| && (forall c :: 0 <= c < |m.consts| ==> e.refs[c] == Targets(m.consts[c], w))
    && e.table == m.nsTable
    && |e.locals| == |m.chunks|
    && forall i :: 0 <= i < |m.chunks| ==> e.locals[i] == if m.flags.localVars then m.chunks[i].localVars else []
  }

  lemma EncodedConsts(flag: bool, base: I64, vs: seq<Value>, w: WriteIndex, e: Env, k: Bytes)
    requires ConstsFit(vs, w) && Carried(vs, w, e)
    ensures var p := GetConstHead(flag, PutConsts(flag, base, vs, w, k));
      && p.Got? && p.val == ConstHead(|vs|, if flag then base else 0)
      && GetValues(p.rest, |vs|, e) == Got(NormAll(vs, w), k)
      && forall c :: 0 <= c < |vs| ==> ScanEach(p.rest, |vs|)[c] == Targets(vs[c], w)
  {
    hide GetConstHead, PutConsts, GetValues, PutValues, NormAll, ScanEach, Targets;
    ConstHeadRoundTrip(flag, base, vs, w, k);
    ValuesRoundTrip(vs, w, e, k);
    forall c | 0 <= c < |vs|
      ensures ScanEach(PutValues(vs, w, k), |vs|)[c] == Targets(vs[c], w)
    {
      RecordRefsEach(vs, w, e, k, c);
    }
  }

  lemma EncodedTables(flag: bool, cs: seq<ChunkData>, w: WriteIndex, strings: seq<Str>, k: Bytes)
    requires |cs| < TWO63 && (flag ==> TablesFit(cs, w)) && TableMatches(w, strings)
    ensures var s := if flag then PutLocalTables(cs, w, k) else k;
      GetTables(flag, s, |cs|, strings) == Got(if flag then LocalsOf(cs) else seq(|cs|, _ => []), k)
  {
    hide GetLocalTables, PutLocalTables;
    if flag {
      LocalTablesRoundTrip(cs, w, strings, false, k);
    }
  }

  /** The body the encoder writes decodes in full, to what was encoded. */
  lemma EncodedBody(m: Module, w: WriteIndex, names: seq<Str>, valid: TextParsers, k: Bytes)
    requires Encodable(m, w, valid) && Lists(names, m)
    ensures var p := GetEager(m.flags, PutBody(m, w, names, k), valid);
      p.Got? && p.rest == k && Encoded(p.val, m, w)
  {
    hide GetStrings, PutStrings, GetRanges, PutRanges, GetLiveChunks, PutChunks, PutConsts, GetConstHead, GetValues,
         ScanEach, GetNSTable, PutNSTable, GetTables, PutLocalTables, NormAll, Targets, AllLiveEnv;
    var s5 := if m.flags.localVars then PutLocalTables(m.chunks, w, k) else k;
    var s4 := PutNSTable(names, m.nsTable, w, s5);
    var s3 := PutConsts(m.flags.constsBase, m.base, m.consts, w, s4);
    var s2 := PutChunks(m.chunks, w, s3);
    StringsRoundTrip(m.strings, PutRanges(m.flags.nsRanges, m.ranges, w, s2));
    RangesRoundTrip(m.flags.nsRanges, m.ranges, w, m.strings, s2);
    LiveChunksRoundTrip(m.chunks, w, m.strings, s3);
    var env := AllLiveEnv(m.strings, |m.chunks|, valid, false);
    StrictCarried(m, w, valid);
    EncodedConsts(m.flags.constsBase, m.base, m.consts, w, env, s4);
    EnumerationSize(names, m.nsTable.Keys);
    NSTableRoundTrip(names, m.nsTable, w, m.strings, s5);
    EncodedTables(m.flags.localVars, m.chunks, w, m.strings, k);
  }

  /** Whether counts of 2^63 are refused makes no difference to what is carried. */
  lemma StrictCarried(m: Module, w: WriteIndex, valid: TextParsers)
    requires Encodable(m, w, valid)
    ensures Carried(m.consts, w, AllLiveEnv(m.strings, |m.chunks|, valid, false))
  {
    hide Fits;
  }

  // ------------------------------------------------------- nothing is missing

  /** The module and its range table come from one compilation: the analysed program's
      constants, code, chunk index and namespaces are the module's. */
  ghost predicate Compiled(m: Module, w: WriteIndex, b: Bundle, owners: seq<nat>) {
    && WellFormed(b.prog) && b.prog.consts == m.consts && |b.prog.code| == |m.chunks|
    && (forall f :: f in FuncRefsAll(m.consts) ==> f in b.prog.index && f in w.chunks && b.prog.index[f] == w.chunks[f])
    && |b.names| == |b.prog.mains|
    && (forall n :: 0 <= n < |b.names| ==> b.names[n] in m.nsTable && m.nsTable[b.names[n]] == b.prog.mains[n])
    && (forall i, j :: 0 <= i < j < |b.names| ==> b.names[i] != b.names[j])
    && (forall x :: x in m.nsTable ==> x in b.names)
    && m.flags.nsRanges && SoundTable(b, m.ranges, owners)
  }

  lemma {:induction false} RefsOfOne(vs: seq<Value>, c: nat)
    requires c < |vs|
    ensures FuncRefs(vs[c]) <= FuncRefsAll(vs)
  {
    if c == 0 {
    } else {
      RefsOfOne(vs[1..], c - 1);
    }
  }

  lemma TargetsAreRefs(m: Module, w: WriteIndex, b: Bundle, owners: seq<nat>, c: nat)
    requires Compiled(m, w, b, owners) && c < |m.consts|
    ensures Targets(m.consts[c], w) <= ChunkRefs(b.prog, c)
    ensures forall k :: k in Targets(m.consts[c], w) ==> k < |m.chunks|
  {
    hide SoundTable;
    RefsOfOne(m.consts, c);
    forall k | k in Targets(m.consts[c], w)
      ensures k in ChunkRefs(b.prog, c) && k < |m.chunks|
    {
      var f :| f in FuncRefs(m.consts[c]) && f in w.chunks && w.chunks[f] == k;
      assert f in FuncRefsAll(m.consts);
    }
  }

  /** Where a selected entry stands in the table. */
  lemma SelectedFrom(sel: seq<NSRange>, rs: seq<NSRange>, choice: Choice, j: nat) returns (i: nat)
    requires Chooses(sel, rs, choice) && j < |sel|
    ensures i < |rs| && rs[i] == sel[j] && sel[j].mainChunk != 0
  {
    var r := sel[j];
    assert r in multiset(sel);
    assert r in multiset(Picked(rs, choice.value));
    PickedFrom(rs, choice.value, r);
    i :| 0 <= i < |rs| && rs[i] == r;
  }

  /** A chunk a constant's functions use is deferred only if the constant is, by the same
      entry. */
  lemma TargetInside(m: Module, w: WriteIndex, b: Bundle, owners: seq<nat>, sel: seq<NSRange>, choice: Choice, c: nat,
                     k: nat, j: nat)
    requires Compiled(m, w, b, owners) && Chooses(sel, m.ranges, choice)
    requires c < |m.consts| && k in Targets(m.consts[c], w) && j < |sel| && OwnsChunk(sel[j], k)
    ensures InChunkRun(sel[j], k) && InRuns(sel[j], c)
    ensures forall h :: 0 <= h < |sel| && InRuns(sel[h], c) ==> sel[h] == sel[j]
  {
    hide SoundTable, InRuns, ChunkRefs, Targets, Chooses;
    TargetsAreRefs(m, w, b, owners, c);
    var i := SelectedFrom(sel, m.ranges, choice, j);
    RefsStayInside(b, m.ranges, owners, i, c, k);
    forall h | 0 <= h < |sel| && InRuns(sel[h], c)
      ensures sel[h] == sel[j]
    {
      var i2 := SelectedFrom(sel, m.ranges, choice, h);
    }
  }

  /** Whatever is deferred, every function of a constant that is decoded at once has its
      chunk decoded, and every function of a deferred namespace's constants has its chunk
      decoded at once or by that namespace: the error for a function outside a deferred
      namespace cannot arise. */
  lemma NeverOutside(e: Eager, m: Module, w: WriteIndex, b: Bundle, owners: seq<nat>, sel: seq<NSRange>, choice: Choice)
    requires Encoded(e, m, w) && Compiled(m, w, b, owners) && Chooses(sel, m.ranges, choice)
    ensures RefsMet(e.refs, sel, EagerLive(sel, |e.chunks|), |e.refs|)
    ensures SelfServing(e, sel)
  {
    hide Compiled, InRuns, Targets, Chooses, OwnsChunk, NormAll;
    forall c | 0 <= c < |e.refs| && !DeferredConst(sel, c)
      ensures AllLive(e.refs[c], EagerLive(sel, |e.chunks|))
    {
      TargetsAreRefs(m, w, b, owners, c);
      forall k | k in e.refs[c]
        ensures k < |e.chunks| && !DeferredChunk(sel, k)
      {
        if j :| 0 <= j < |sel| && OwnsChunk(sel[j], k) {
          TargetInside(m, w, b, owners, sel, choice, c, k, j);
        }
      }
    }
    forall j, c | 0 <= j < |sel| && 0 <= c < |e.refs| && InRuns(sel[j], c)
      ensures RefsWithin(e, sel, j, c)
    {
      TargetsAreRefs(m, w, b, owners, c);
      forall k | k in e.refs[c]
        ensures k < |e.chunks| && (!DeferredChunk(sel, k) || InChunkRun(sel[j], k))
      {
        if h :| 0 <= h < |sel| && OwnsChunk(sel[h], k) {
          TargetInside(m, w, b, owners, sel, choice, c, k, h);
        }
      }
    }
  }

  /** With nothing deferred, all functions of an encoded module have their chunk. */
  lemma EncodedRefsMet(e: Eager, m: Module, w: WriteIndex, valid: TextParsers)
    requires Encoded(e, m, w) && Encodable(m, w, valid)
    ensures RefsMet(e.refs, [], EagerLive([], |e.chunks|), |e.refs|)
  {
    hide Fits, NormAll, CanonicalAll, TableMatches;
    forall c | 0 <= c < |e.refs|
      ensures AllLive(e.refs[c], EagerLive([], |e.chunks|))
    {
      RefsOfOne(m.consts, c);
      assert e.refs[c] <= Targets(m.consts[c], w);
    }
  }

  // --------------------------------------------------------- the main chunk

  lemma EncodedFits(e: Eager, m: Module, w: WriteIndex, b: Bundle, owners: seq<nat>, sel: seq<NSRange>, choice: Choice)
    requires Encoded(e, m, w) && Compiled(m, w, b, owners) && Chooses(sel, m.ranges, choice)
    ensures !BadTable(e, choice) && RunsInPool(sel, |e.consts|)
  {
    hide Emitted, NoSharedChunk, InRuns, PairwiseApart, ChunkRunsOk, Chooses, NormAll, Targets;
    forall j, a | 0 <= j < |sel| && 0 <= a < |sel[j].runs|
      ensures sel[j].runs[a].hi <= |e.consts|
    {
      var i := SelectedFrom(sel, m.ranges, choice, j);
      assert EntryFits(m.ranges[i], |b.prog.code|, |b.prog.consts|);
    }
    forall i | 0 <= i < |m.ranges|
      ensures EntryFits(m.ranges[i], |e.chunks|, -1)
    {
      assert EntryFits(m.ranges[i], |b.prog.code|, |b.prog.consts|);
    }
  }

  lemma EntryNamed(m: Module, w: WriteIndex, b: Bundle, owners: seq<nat>, i: nat)
    requires Compiled(m, w, b, owners) && i < |m.ranges|
    ensures m.ranges[i].name in m.nsTable && m.nsTable[m.ranges[i].name] == m.ranges[i].mainChunk
  {
    hide Qualifies, RunsAre, ValidRanges, NoSharedChunk, Unqualified;
    assert EntryFor(b, owners[i], m.ranges[i]);
  }

  lemma EncodedTable(e: Eager, m: Module, w: WriteIndex, b: Bundle, owners: seq<nat>, sel: seq<NSRange>, choice: Choice,
                     byName: map<Str, nat>)
    requires Encoded(e, m, w) && Compiled(m, w, b, owners) && Chooses(sel, m.ranges, choice) && NameIndex(byName, sel)
    ensures TableAgrees(e.table, sel, byName, |e.chunks|) && AllNamed(sel, e.table)
  {
    hide SoundTable, Chooses, NormAll, Targets;
    forall j | 0 <= j < |sel|
      ensures sel[j].name in m.nsTable && m.nsTable[sel[j].name] == sel[j].mainChunk
    {
      var i := SelectedFrom(sel, m.ranges, choice, j);
      EntryNamed(m, w, b, owners, i);
    }
    forall x | x in e.table
      ensures EntryAgrees(e.table[x], x, sel, byName, |e.chunks|)
    {
      assert x in b.names;
      var n :| 0 <= n < |b.names| && b.names[n] == x;
    }
  }

  /** The namespace whose chunk the unit would run is left undecoded. */
  ghost predicate MainLeftOut(table: map<Str, I64>, sel: seq<NSRange>) {
    && (CORE in table ==> exists j :: 0 <= j < |sel| && sel[j].name == CORE)
    && exists j :: 0 <= j < |sel| && IsLast(table, sel[j].mainChunk)
  }

  /** The only thing DecodeBundle can refuse of an encoded bundle with chunks: it does so
      when the namespace of the greatest chunk index is deferred, and "core" is deferred
      too or not there. */
  lemma OnlyMainRefused(e: Eager, m: Module, w: WriteIndex, b: Bundle, owners: seq<nat>, sel: seq<NSRange>,
                        choice: Choice, error: DecodeError)
    requires Encoded(e, m, w) && Compiled(m, w, b, owners) && Chooses(sel, m.ranges, choice)
    requires m.chunks != [] && Refuses(error, e, choice, sel)
    ensures error == MainDeferred && MainLeftOut(e.table, sel)
  {
    hide Compiled, Chooses, NormAll, Targets, RunsInPool, RefsMet, BadTable, SelfServing, NameIndex, TableAgrees,
         AllNamed, IsMain, MainMissing, EagerLive;
    NeverOutside(e, m, w, b, owners, sel, choice);
    EncodedFits(e, m, w, b, owners, sel, choice);
    var byName, n :| RefusesTable(error, e, sel, byName, n);
    EncodedTable(e, m, w, b, owners, sel, choice, byName);
    MissingMain(e, m, w, b, owners, sel, choice, byName, n);
  }

  lemma MissingMain(e: Eager, m: Module, w: WriteIndex, b: Bundle, owners: seq<nat>, sel: seq<NSRange>, choice: Choice,
                    byName: map<Str, nat>, n: int)
    requires Encoded(e, m, w) && Compiled(m, w, b, owners) && Chooses(sel, m.ranges, choice) && NameIndex(byName, sel)
    requires IsMain(e.table, byName.Keys, n) && MainMissing(e, sel, byName, n)
    ensures MainLeftOut(e.table, sel)
  {
    hide Chooses, NormAll, Targets, SoundTable;
    if CORE in byName {
      assert sel[byName[CORE]].name == CORE;
    }
    var j :| 0 <= j < |sel| && OwnsChunk(sel[j], n);
    var i := SelectedFrom(sel, m.ranges, choice, j);
    var x :| x in e.table && e.table[x] == n;
    assert x in b.names;
    var y :| 0 <= y < |b.names| && b.names[y] == x;
    RunHoldsNoMain(b, m.ranges, owners, i, y);
    assert sel[j].mainChunk == n;
  }

  /** The other half: a bundle that is accepted has its main chunk. */
  lemma AcceptedHasMain(e: Eager, sel: seq<NSRange>, choice: Choice, byName: map<Str, nat>, n: int)
    requires Chooses(sel, e.ranges, choice) && TableFits(e, sel, byName, n)
    ensures !MainLeftOut(e.table, sel)
  {
    hide Chooses;
    if MainLeftOut(e.table, sel) {
      var j :| 0 <= j < |sel| && IsLast(e.table, sel[j].mainChunk);
      var _ := SelectedFrom(sel, e.ranges, choice, j);
    }
  }

  /** No namespace's main chunk lies in an entry's chunk run. */
  lemma RunHoldsNoMain(b: Bundle, out: seq<NSRange>, owners: seq<nat>, i: nat, n: nat)
    requires SoundTable(b, out, owners) && i < |out| && n < |b.prog.mains|
    ensures !InChunkRun(out[i], b.prog.mains[n])
  {
    hide Emitted, ValidRanges, NoSharedChunk, Deferrable, ChunkRefs, ChunkUsers, RunsAre;
    EmittedEntry(b, out, owners, i);
    var g, ns := b.prog, owners[i];
    var span := b.spans[out[i].name];
    CountCheckExact(g, span, out[i].chunkLo, out[i].chunkHi);
    forall k: int | InChunkRun(out[i], k)
      ensures k !in g.mains
    {
      FuncChunkNotMain(g, span, ns, k);
    }
  }

  lemma FuncChunkNotMain(g: Program, span: ConstRange, ns: nat, k: int)
    requires SelfContained(g, span, ns) && FuncChunk(g, span, k)
    ensures k !in g.mains
  {
    hide Deferrable, ChunkRefs, ChunkUsers;
    var c :| c in SpanFuncs(g, span) && Indexed(g, c) && ChunkOf(g, c) == k;
    assert OwnFunc(g, span, ns, c);
  }

  lemma EmittedEntry(b: Bundle, out: seq<NSRange>, owners: seq<nat>, i: nat)
    requires |b.names| == |b.prog.mains| && Emitted(b, |b.names|, out, owners) && i < |out|
    ensures |owners| == |out| && owners[i] < |b.names| && EntryFor(b, owners[i], out[i])
  {
    hide EntryFor, Unqualified;
  }

  /** Deferral changes which chunk the unit runs exactly when "core" is deferred: then
      the unit runs the namespace of the greatest chunk index instead. */
  lemma MainAgrees(e: Eager, sel: seq<NSRange>, rs: seq<NSRange>, choice: Choice, byName: map<Str, nat>, n: int,
                   eager: int)
    requires Chooses(sel, rs, choice) && TableFits(e, sel, byName, n) && IsMain(e.table, {}, eager)
    ensures n == eager <==> CORE !in byName
  {
    hide Chooses;
    if CORE in byName {
      var j := byName[CORE];
      assert sel[j].name == CORE;
      var i := SelectedFrom(sel, rs, choice, j);
      assert EntryAgrees(e.table[CORE], CORE, sel, byName, |e.chunks|);
      assert OwnsChunk(sel[j], sel[j].mainChunk);
    }
  }

  // ------------------------------------------------------------ whole bundles

  /** What a runtime `wr` encoded, decoded in full on rt: refused exactly when its opcode set
      is foreign there, and otherwise migrated exactly when it is the old one. */
  lemma EncodedWhole(m: Module, w: WriteIndex, names: seq<Str>, wr: Runtime, rt: Runtime, valid: TextParsers, c: Codec)
    requires Encodable(m, w, valid) && Lists(names, m) && Lawful(c) && EncodeModule(m, w, names, wr, c).Some?
    ensures var data := EncodeModule(m, w, names, wr, c).value;
      var p := GetWhole(data, rt, valid, c);
      && (Foreign(m.flags, m.caps, wr.running, rt) ==> GetHeader(data, rt) == Fail(OpcodeMismatch))
      && (!Foreign(m.flags, m.caps, wr.running, rt) ==>
            p.Got? && Encoded(p.val.e, m, w) && p.val.flags == m.flags
            && p.val.migrate == Former(m.flags, m.caps, wr.running, rt))
  {
    hide GetHeader, PutHeader, GetInflated, PutBody, GetEager, PutVarint, Encoded, Lists, Fits, Former, Foreign;
    var body := PutBody(m, w, names, []);
    EncodedBody(m, w, names, valid, []);
    if m.flags.compressed {
      HeaderRoundTrip(m.flags, m.caps, wr, rt, PutVarint(|body|, [FLATE] + c.deflate(body)));
      InflatedRoundTrip(body, c);
    } else {
      HeaderRoundTrip(m.flags, m.caps, wr, rt, body);
    }
  }

  /** whole is what decoding everything of the encoding of m gives. */
  ghost predicate WholeOf(whole: Whole, m: Module, w: WriteIndex, names: seq<Str>, rt: Runtime, valid: TextParsers,
                          c: Codec)
  {
    && Encodable(m, w, valid) && Lists(names, m)
    && (EncodableFits(m, w, valid); var data := EncodeModule(m, w, names, rt, c);
        && data.Some? && GetWhole(data.value, rt, valid, c).Got? && GetWhole(data.value, rt, valid, c).val == whole
        && Sized(whole.e))
  }

  lemma EncodedOf(m: Module, w: WriteIndex, names: seq<Str>, rt: Runtime, valid: TextParsers, c: Codec)
    returns (whole: Whole)
    requires Encodable(m, w, valid) && Lists(names, m) && Lawful(c) && !m.flags.compressed
    ensures WholeOf(whole, m, w, names, rt, valid, c) && Encoded(whole.e, m, w) && whole.flags == m.flags
    ensures whole.migrate == (!m.flags.capabilities && rt.former != rt.running)
  {
    hide GetWhole, Encodable, Lists, Encoded, PutHeader, PutBody, Sized;
    EncodableFits(m, w, valid);
    assert EncodeModule(m, w, names, rt, c).Some?;
    EncodedWhole(m, w, names, rt, rt, valid, c);
    var data := EncodeModule(m, w, names, rt, c).value;
    WholeSized(data, rt, valid, c);
    whole := GetWhole(data, rt, valid, c).val;
  }

  lemma WholeGives(whole: Whole, m: Module, w: WriteIndex, names: seq<Str>, rt: Runtime, valid: TextParsers, c: Codec)
    requires WholeOf(whole, m, w, names, rt, valid, c) && Lawful(c) && !m.flags.compressed
    ensures Sized(whole.e) && Encoded(whole.e, m, w) && whole.flags == m.flags
    ensures whole.migrate == (!m.flags.capabilities && rt.former != rt.running)
  {
    hide GetWhole, Encodable, Lists, Encoded, EncodeModule, Sized;
    var other := EncodedOf(m, w, names, rt, valid, c);
    assert whole == other;
  }

  /** What the unit serves for chunk k is the module's chunk k, its code the same program. */
  lemma ServesModule(e: Eager, migrate: bool, m: Module, w: WriteIndex, k: nat)
    requires Sized(e) && Encoded(e, m, w) && k < |m.chunks|
    ensures var c := FinalChunk(e, migrate, k);
      && c.maxStack == m.chunks[k].maxStack && Runs(c.code, m.chunks[k].code, migrate)
      && ResolveAll(c.sourceMap, m.strings) == m.chunks[k].sourceMap
      && c.localVars == if m.flags.localVars then m.chunks[k].localVars else []
  {
    hide NormAll, Targets, ResolveAll, Runs, Remap;
    assert Carries(e.chunks[k], m.chunks[k], m.strings);
    RemapRuns(m.chunks[k].code, migrate);
  }
}
