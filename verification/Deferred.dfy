/** The executable unit DecodeBundle makes, and the materialization of the namespaces
    it left undecoded. */
module Deferred {
  import opened Wire
  import opened Stream
  import opened Values
  import opened ValueProofs
  import opened Chunks
  import opened ChunkCodec
  import opened Sections
  import opened Modules
  import opened Migration
  import opened Validation
  import opened Selection
  import opened EagerDecode
  import opened LazyDecode
  import opened Refill

  function WholeEnv(e: Eager, valid: TextParsers): (env: Env)
    ensures |env.live| == |e.chunks| && forall k :: 0 <= k < |env.live| ==> env.live[k]
    ensures env.strings == e.strings && env.valid == valid && !env.wide
  {
    AllLiveEnv(e.strings, |e.chunks|, valid, false)
  }

  // ---------------------------------------- what the unit holds, in terms of e

  /** Nothing in the tables differs from what decoding everything gives. */
  ghost predicate Faithful(chunks: seq<Option<LiveChunk>>, consts: seq<Option<Value>>, e: Eager, migrate: bool) {
    && Sized(e) && |chunks| == |e.chunks| && |consts| == |e.consts|
    && (forall k :: 0 <= k < |chunks| && chunks[k].Some? ==> chunks[k].value == FinalChunk(e, migrate, k))
    && (forall c :: 0 <= c < |consts| && consts[c].Some? ==> consts[c].value == e.consts[c])
  }

  /** The noted offsets are where the records are. */
  ghost predicate Located(ns: seq<DeferredNS>, body: Bytes, e: Eager, flags: Flags, valid: TextParsers) {
    && AllChunkOffs(ns, body, e.chunks, |e.chunks|)
    && AllRunOffs(ns, body, e, WholeEnv(e, valid), |e.consts|)
    && if flags.localVars then AllTableOffs(ns, body, e.locals, e.strings, |e.chunks|)
       else forall k :: 0 <= k < |e.locals| ==> e.locals[k] == []
  }

  ghost predicate OwnConsts(r: NSRange, consts: seq<Option<Value>>) {
    forall c :: 0 <= c < |consts| && InRuns(r, c) ==> consts[c].Some?
  }

  ghost predicate OwnChunks(r: NSRange, chunks: seq<Option<LiveChunk>>) {
    forall k :: 0 <= k < |chunks| && InChunkRun(r, k) ==> chunks[k].Some?
  }

  /** A materialized namespace has its main chunk and all its slots. */
  ghost predicate Complete(d: DeferredNS, chunks: seq<Option<LiveChunk>>, consts: seq<Option<Value>>, e: Eager,
                           migrate: bool)
    requires Sized(e)
  {
    d.main.Some? ==>
      && 0 <= d.range.mainChunk < |e.chunks| && d.main.value == FinalChunk(e, migrate, d.range.mainChunk)
      && OwnChunks(d.range, chunks) && OwnConsts(d.range, consts)
  }

  /** The chunk table with the empty slots of [lo, hi) filled. */
  function Filled(chunks: seq<Option<LiveChunk>>, e: Eager, migrate: bool, lo: int,
                  hi: int): (r: seq<Option<LiveChunk>>)
    requires Sized(e) && |chunks| == |e.chunks|
    ensures |r| == |chunks|
    ensures forall k :: 0 <= k < |r| ==>
        r[k] == if lo <= k < hi && chunks[k].None? then Some(FinalChunk(e, migrate, k)) else chunks[k]
  {
    seq(|chunks|, k requires 0 <= k < |chunks| =>
      if lo <= k < hi && chunks[k].None? then Some(FinalChunk(e, migrate, k)) else chunks[k])
  }

  /** The pool has changed only in empty slots of the entry's runs, and only to the
      constants that belong there. */
  ghost predicate PoolGrown(pool: seq<Option<Value>>, pool0: seq<Option<Value>>, r: NSRange, vals: seq<Value>) {
    && |pool| == |pool0| == |vals|
    && forall c :: 0 <= c < |pool| ==>
      pool[c] == pool0[c] || (pool0[c].None? && InRuns(r, c) && pool[c] == Some(vals[c]))
  }

  /** Every function of the entry's constants has its chunk decoded. */
  ghost predicate NeedsMet(e: Eager, r: NSRange, live: seq<bool>) {
    forall c :: 0 <= c < |e.refs| && InRuns(r, c) ==> AllLive(e.refs[c], live)
  }

  // ------------------------------------------- the first half of materialize

  predicate Missing(chunks0: seq<Option<LiveChunk>>, added: set<nat>, lo: int, hi: int) {
    && (forall k :: k in added ==> lo <= k < hi && k < |chunks0| && chunks0[k].None?)
    && (forall k :: 0 <= k < |chunks0| && lo <= k < hi && chunks0[k].None? ==> k in added)
  }

  /** The added chunks are as `at` says, the others as they were. */
  ghost predicate AddedAre(chunks: seq<Option<LiveChunk>>, chunks0: seq<Option<LiveChunk>>, added: set<nat>,
                           at: nat -> LiveChunk) {
    && |chunks| == |chunks0|
    && forall k :: 0 <= k < |chunks| ==> chunks[k] == if k in added then Some(at(k)) else chunks0[k]
  }

  const NO_CHUNK := LiveChunk(0, [], [], [])

  ghost function RawAt(e: Eager): nat -> LiveChunk {
    (k: nat) => if k < |e.chunks| then e.chunks[k] else NO_CHUNK
  }

  ghost function TabledAt(e: Eager): nat -> LiveChunk {
    (k: nat) => if k < |e.chunks| && k < |e.locals| then e.chunks[k].(localVars := e.locals[k]) else NO_CHUNK
  }

  ghost function FinalAt(e: Eager, migrate: bool): nat -> LiveChunk
    requires Sized(e)
  {
    (k: nat) => if k < |e.chunks| then FinalChunk(e, migrate, k) else NO_CHUNK
  }

  /** A bundle without local variables is as if it had empty tables. */
  lemma NoTables(chunks: seq<Option<LiveChunk>>, chunks0: seq<Option<LiveChunk>>, added: set<nat>, e: Eager)
    requires Sized(e) && |chunks0| == |e.chunks| && forall k :: 0 <= k < |e.locals| ==> e.locals[k] == []
    requires AddedAre(chunks, chunks0, added, RawAt(e))
    ensures AddedAre(chunks, chunks0, added, TabledAt(e))
    ensures forall k :: 0 <= k < |e.chunks| ==> e.chunks[k].(localVars := e.locals[k]) == e.chunks[k]
  {
    hide FinalChunk;
  }

  lemma RemapAdded(chunks: seq<Option<LiveChunk>>, chunks1: seq<Option<LiveChunk>>, chunks0: seq<Option<LiveChunk>>,
                   added: set<nat>, e: Eager, migrate: bool)
    requires Sized(e) && |chunks0| == |e.chunks| && AddedAre(chunks1, chunks0, added, TabledAt(e))
    requires |chunks| == |chunks1|
    requires forall k :: 0 <= k < |chunks| ==>
        chunks[k] == if migrate && k in added then Remapped(chunks1[k]) else chunks1[k]
    ensures AddedAre(chunks, chunks0, added, FinalAt(e, migrate))
  {
    hide Remap;
  }

  lemma AddedFills(chunks: seq<Option<LiveChunk>>, chunks0: seq<Option<LiveChunk>>, added: set<nat>, e: Eager,
                   migrate: bool, lo: int, hi: int)
    requires Sized(e) && |chunks0| == |e.chunks| && AddedAre(chunks, chunks0, added, FinalAt(e, migrate))
    requires Missing(chunks0, added, lo, hi)
    ensures chunks == Filled(chunks0, e, migrate, lo, hi)
  {
    hide FinalChunk;
  }

  method DecodeRun(body: Bytes, d: DeferredNS, chunks0: seq<Option<LiveChunk>>, ghost e: Eager, ghost ok: bool)
    returns (o: Outcome<()>, chunks: seq<Option<LiveChunk>>, added: set<nat>)
    requires |body| < TWO63 && d.chunksOff <= |body| && EntryFits(d.range, |chunks0|, -1)
    requires ok ==> Sized(e) && |e.chunks| == |chunks0| && ChunkOffs(d, body, e.chunks, |e.chunks|)
    ensures |chunks| == |chunks0| && FilledWithin(chunks, chunks0, d.range.chunkLo, d.range.chunkHi)
    ensures forall k :: k in added ==> d.range.chunkLo <= k < d.range.chunkHi && chunks[k].Some?
    ensures ok ==> o.Ok? && Missing(chunks0, added, d.range.chunkLo, d.range.chunkHi)
    ensures ok ==> AddedAre(chunks, chunks0, added, RawAt(e))
  {
    hide ChunkRecord, ChunkRecords;
    o, chunks, added := Ok(()), chunks0, {};
    if d.range.chunkHi > d.range.chunkLo {
      var r := new Reader(body[d.chunksOff..]);
      o, chunks, added := ReadRun(r, chunks0, d.range.chunkLo, d.range.chunkHi, e.chunks);
    }
  }

  method DecodeMain(body: Bytes, d: DeferredNS, ghost e: Eager, ghost ok: bool) returns (o: Outcome<LiveChunk>)
    requires |body| < TWO63 && d.mainOff <= |body|
    requires ok ==> 0 <= d.range.mainChunk < |e.chunks| && ChunkOffs(d, body, e.chunks, |e.chunks|)
    ensures ok ==> o == Ok(e.chunks[d.range.mainChunk])
  {
    hide GetLive, ChunkRecords, ScanChunk;
    var r := new Reader(body[d.mainOff..]);
    if ok {
      ChunkSkipMirrorsRead(body[d.mainOff..]);
    }
    o := ReadLive(r);
  }

  method DecodeTables(body: Bytes, d: DeferredNS, strings: seq<Str>, chunks0: seq<Option<LiveChunk>>, added: set<nat>,
                      main: LiveChunk, ghost base: seq<Option<LiveChunk>>, ghost e: Eager, ghost ok: bool)
    returns (o: Outcome<LiveChunk>, chunks: seq<Option<LiveChunk>>)
    requires |body| < TWO63 && d.lvOff <= |body| && d.mainLVOff <= |body| && EntryFits(d.range, |chunks0|, -1)
    requires forall k :: k in added ==> d.range.chunkLo <= k < d.range.chunkHi && chunks0[k].Some?
    requires ok ==> Sized(e) && |e.chunks| == |chunks0| && TableOffs(d, body, e.locals, strings, |e.chunks|)
    requires ok ==> AddedAre(chunks0, base, added, RawAt(e))
    ensures |chunks| == |chunks0|
    ensures forall k :: 0 <= k < |chunks| ==> if k in added then chunks[k].Some? else chunks[k] == chunks0[k]
    ensures ok ==> o == Ok(main.(localVars := e.locals[d.range.mainChunk]))
    ensures ok ==> AddedAre(chunks, base, added, TabledAt(e))
  {
    hide GetLocals, ScanLocals;
    chunks := chunks0;
    if d.lvOff >= 0 {
      var r := new Reader(body[d.lvOff..]);
      var tables;
      tables, chunks := ReadRunTables(r, strings, chunks0, added, d.range.chunkLo, d.range.chunkHi, e.locals);
      if tables.Err? {
        return Err(tables.error), chunks;
      }
    }
    o := Ok(main);
    if d.mainLVOff >= 0 {
      var r := new Reader(body[d.mainLVOff..]);
      if ok {
        LocalsSkipMirrorsRead(body[d.mainLVOff..], strings);
      }
      var lvs := ReadLocals(r, strings);
      if lvs.Err? {
        return Err(lvs.error), chunks;
      }
      o := Ok(main.(localVars := lvs.value));
    }
  }

  // ------------------------------------------------------- its second half

  lemma GrowRun(pool1: seq<Option<Value>>, pool: seq<Option<Value>>, pool0: seq<Option<Value>>, r: NSRange, a: nat,
                stop: int, vals: seq<Value>)
    requires a < |r.runs| && PoolGrown(pool1, pool0, r, vals) && 0 <= r.runs[a].lo <= stop <= r.runs[a].hi <= |pool0|
    requires FilledWithin(pool, pool1, r.runs[a].lo, stop) && Matches(pool, pool1, vals, r.runs[a].lo, stop)
    ensures PoolGrown(pool, pool0, r, vals)
    ensures forall c :: 0 <= c < |pool| && pool1[c].Some? ==> pool[c] == pool1[c]
  {
    forall c | 0 <= c < |pool|
      ensures pool[c] == pool0[c] || (pool0[c].None? && InRuns(r, c) && pool[c] == Some(vals[c]))
    {
      assert pool1[c] == pool0[c] || (pool0[c].None? && InRuns(r, c) && pool1[c] == Some(vals[c]));
      if r.runs[a].lo <= c < stop {
        assert InRun(r.runs[a], c);
      }
    }
  }

  /** The first n runs. */
  function FirstRuns(r: NSRange, n: nat): NSRange
    requires n <= |r.runs|
  {
    r.(runs := r.runs[..n])
  }

  lemma OneMoreRun(r: NSRange, a: nat, c: int)
    requires a < |r.runs|
    ensures InRuns(FirstRuns(r, a + 1), c) <==> InRuns(FirstRuns(r, a), c) || InRun(r.runs[a], c)
  {
    var x, y := FirstRuns(r, a).runs, FirstRuns(r, a + 1).runs;
    assert y == x + [r.runs[a]];
    if InRun(r.runs[a], c) {
      assert InRun(y[a], c);
    }
    if i :| 0 <= i < |x| && InRun(x[i], c) {
      assert InRun(y[i], c);
    }
  }

  /** The first n runs are read, every function they need there. */
  ghost predicate RunsDone(e: Eager, r: NSRange, n: nat, live: seq<bool>, pool: seq<Option<Value>>)
    requires n <= |r.runs|
  {
    NeedsMet(e, FirstRuns(r, n), live) && OwnConsts(FirstRuns(r, n), pool)
  }

  lemma RunDone(e: Eager, r: NSRange, a: nat, live: seq<bool>, pool1: seq<Option<Value>>, pool: seq<Option<Value>>)
    requires a < |r.runs| && RunsDone(e, r, a, live, pool1) && 0 <= r.runs[a].lo <= r.runs[a].hi <= |pool1| == |pool|
    requires Needs(e, r.runs[a].lo, r.runs[a].hi, live)
    requires Matches(pool, pool1, e.consts, r.runs[a].lo, r.runs[a].hi)
    requires forall c :: 0 <= c < |pool| && pool1[c].Some? ==> pool[c] == pool1[c]
    ensures RunsDone(e, r, a + 1, live, pool)
  {
    hide InRuns, AllLive, FirstRuns;
    forall c: int { OneMoreRun(r, a, c); }
  }

  lemma RunFails(e: Eager, r: NSRange, a: nat, live: seq<bool>)
    requires a < |r.runs| && r.runs[a].hi <= |e.refs| && 0 <= r.runs[a].lo
    requires !Needs(e, r.runs[a].lo, r.runs[a].hi, live)
    ensures !NeedsMet(e, r, live)
  {
    hide AllLive;
    var c :| r.runs[a].lo <= c < r.runs[a].hi && 0 <= c < |e.refs| && !AllLive(e.refs[c], live);
    assert InRun(r.runs[a], c);
    assert InRuns(r, c);
  }

  method DecodeRuns(body: Bytes, d: DeferredNS, env2: Env, pool0: seq<Option<Value>>, ghost e: Eager, ghost env: Env,
                    ghost ok: bool)
    returns (o: Outcome<()>, pool: seq<Option<Value>>)
    requires |d.runOffs| == |d.range.runs| && forall a :: 0 <= a < |d.runOffs| ==> d.runOffs[a] <= |body|
    requires forall a :: 0 <= a < |d.range.runs| ==> 0 <= d.range.runs[a].lo < d.range.runs[a].hi <= |pool0|
    requires !env.wide && Compatible(env, env2)
    requires ok ==> |pool0| == |e.consts| == |e.refs|
    requires ok ==> forall a :: 0 <= a < |d.range.runs| ==> RunOff(d, a, body, e, env, |e.consts|)
    ensures |pool| == |pool0|
    ensures ok ==> PoolGrown(pool, pool0, d.range, e.consts) && (o.Err? ==> o.error == DeferredOutside)
    ensures ok ==> (o.Ok? <==> NeedsMet(e, d.range, env2.live)) && (o.Ok? ==> OwnConsts(d.range, pool))
  {
    hide RunRecords, Compatible, PoolGrown, NeedsMet, OwnConsts, FilledWithin, Matches, Needs, RunsDone;
    var r := d.range;
    pool := pool0;
    if ok { RunsStart(e, r, env2.live, pool0); }
    var a := 0;
    while a < |r.runs|
      invariant 0 <= a <= |r.runs| && |pool| == |pool0|
      invariant ok ==> PoolGrown(pool, pool0, r, e.consts) && RunsDone(e, r, a, env2.live, pool)
    {
      var run := r.runs[a];
      var reader := new Reader(body[d.runOffs[a]..]);
      ghost var pool1, stop := pool, 0;
      assert ok ==> RunOff(d, a, body, e, env, |e.consts|);
      o, pool, stop := ReadRunConsts(reader, env2, pool, run, e, env);
      FilledSize(pool, pool1, run.lo, stop);
      if ok {
        GrowRun(pool1, pool, pool0, r, a, stop, e.consts);
      }
      if o.Err? {
        if ok { RunFails(e, r, a, env2.live); }
        return;
      }
      if ok {
        RunDone(e, r, a, env2.live, pool1, pool);
      }
      a := a + 1;
    }
    if ok { RunsEnd(e, r, env2.live, pool); }
    o := Ok(());
  }

  lemma FilledSize<T>(slots: seq<Option<T>>, slots0: seq<Option<T>>, lo: int, hi: int)
    requires FilledWithin(slots, slots0, lo, hi)
    ensures |slots| == |slots0|
  {
  }

  lemma RunsStart(e: Eager, r: NSRange, live: seq<bool>, pool: seq<Option<Value>>)
    requires |pool| == |e.consts|
    ensures RunsDone(e, r, 0, live, pool) && PoolGrown(pool, pool, r, e.consts)
  {
    hide AllLive;
  }

  lemma RunsEnd(e: Eager, r: NSRange, live: seq<bool>, pool: seq<Option<Value>>)
    requires RunsDone(e, r, |r.runs|, live, pool)
    ensures NeedsMet(e, r, live) && OwnConsts(r, pool)
  {
    hide AllLive;
    assert FirstRuns(r, |r.runs|) == r;
  }

  class ExecUnit {
    const body: Bytes
    const strings: seq<Str>
    const flags: Flags
    const valid: TextParsers
    const migrate: bool
    /** The deferred namespaces' positions in ns. */
    const byName: map<Str, nat>
    /** The main chunks of the others. */
    const nsChunks: map<Str, Option<LiveChunk>>
    const nsOrder: seq<Str>
    const main: Option<LiveChunk>
    var chunks: seq<Option<LiveChunk>>
    var consts: seq<Option<Value>>
    var ns: seq<DeferredNS>

    ghost predicate Valid()
      reads this
    {
      && |body| < TWO63 && InBody(ns, body) && Selectable(Ranges(ns), |chunks|) && RunsInPool(Ranges(ns), |consts|)
      && forall x :: x in byName ==> byName[x] < |ns|
    }

    /** The unit serves what decoding everything gives, and no more is missing than the
        deferred namespaces' own slots. */
    ghost predicate Serves(e: Eager)
      reads this
    {
      && strings == e.strings && Faithful(chunks, consts, e, migrate) && Located(ns, body, e, flags, valid)
      && forall j :: 0 <= j < |ns| ==> Complete(ns[j], chunks, consts, e, migrate)
    }

    constructor (body: Bytes, strings: seq<Str>, flags: Flags, valid: TextParsers, migrate: bool,
                 byName: map<Str, nat>, nsChunks: map<Str, Option<LiveChunk>>, nsOrder: seq<Str>,
                 main: Option<LiveChunk>, chunks: seq<Option<LiveChunk>>, consts: seq<Option<Value>>, ns: seq<DeferredNS>)
      ensures this.body == body && this.strings == strings && this.flags == flags && this.valid == valid
      ensures this.migrate == migrate && this.byName == byName && this.nsChunks == nsChunks
      ensures this.nsOrder == nsOrder && this.main == main
      ensures this.chunks == chunks && this.consts == consts && this.ns == ns
    {
      this.body, this.strings, this.flags, this.valid, this.migrate := body, strings, flags, valid, migrate;
      this.byName, this.nsChunks, this.nsOrder, this.main := byName, nsChunks, nsOrder, main;
      this.chunks, this.consts, this.ns := chunks, consts, ns;
    }

    /** materialize, its first half: the chunk run, the main chunk, their local
        variables, and the migration of the chunks just read. */
    method FillChunks(j: nat, ghost e: Eager) returns (o: Outcome<LiveChunk>)
      requires Valid() && j < |ns|
      modifies this`chunks
      ensures Valid()
      ensures old(Serves(e)) ==>
          && o == Ok(FinalChunk(e, migrate, ns[j].range.mainChunk))
          && chunks == Filled(old(chunks), e, migrate, ns[j].range.chunkLo, ns[j].range.chunkHi)
    {
      hide ChunkOffs, TableOffs, AllRunOffs, Separate, AddedAre, Missing, Filled, RawAt, TabledAt, FinalAt, Remap,
           Complete, FilledWithin, InBody;
      var d := ns[j];
      ghost var ok, chunks0 := Serves(e), chunks;
      DeferredFits(ns, body, |chunks|, j);
      var run, added;
      run, chunks, added := DecodeRun(body, d, chunks, e, ok);
      if run.Err? {
        return Err(run.error);
      }
      var m := DecodeMain(body, d, e, ok);
      if m.Err? {
        return m;
      }
      if flags.localVars {
        m, chunks := DecodeTables(body, d, strings, chunks, added, m.value, chunks0, e, ok);
        if m.Err? {
          return m;
        }
      } else if ok {
        NoTables(chunks, chunks0, added, e);
      }
      ghost var chunks1 := chunks;
      var main := m.value;
      if migrate {
        chunks := RemapFresh(chunks, added);
        main := RemapChunk(main);
      }
      if ok {
        RemapAdded(chunks, chunks1, chunks0, added, e, migrate);
        AddedFills(chunks, chunks0, added, e, migrate, d.range.chunkLo, d.range.chunkHi);
      }
      o := Ok(main);
    }

    /** materialize: the namespace at j is decoded at most once. */
    method Materialize(j: nat, ghost e: Eager) returns (o: Outcome<LiveChunk>)
      requires Valid() && j < |ns|
      modifies this`chunks, this`consts, this`ns
      ensures Valid() && Ranges(ns) == old(Ranges(ns))
      ensures old(Serves(e)) ==>
          && Serves(e) && Grown(e, old(chunks), old(consts), old(ns), j, o)
    {
      hide InBody, Selectable, RunsInPool, AllRunOffs, FinalChunk, Faithful, Located, Complete, PoolGrown, NeedsMet,
           OwnConsts, OwnChunks, InRuns, Filled;
      var d := ns[j];
      ghost var ok, chunks0, consts0, ns0 := Serves(e), chunks, consts, ns;
      if d.main.Some? {
        if ok { AlreadyGrown(e, chunks, consts, ns, j, migrate); }
        return Ok(d.main.value);
      }
      var main := FillChunks(j, e);
      if main.Err? {
        return main;
      }
      DeferredRunsFit(ns, body, |chunks|, |consts|, j);
      var env2 := Env(strings, Live(chunks), valid, true);
      ghost var env := if ok then WholeEnv(e, valid) else Env(strings, Live(chunks), valid, false);
      if ok { RunsLocated(ns, body, e, flags, valid, chunks0, consts, migrate, j); }
      var filled;
      filled, consts := DecodeRuns(body, d, env2, consts, e, env, ok);
      if filled.Err? {
        if ok { StillServes(e, chunks0, chunks, consts0, consts, ns0, j, migrate); }
        return Err(filled.error);
      }
      ns := ns[j := d.(main := Some(main.value))];
      NowMaterialized(ns0, body, j, main.value);
      if ok {
        LocatedStays(ns0, body, e, flags, valid, j, main.value);
        NowServes(e, chunks0, chunks, consts0, consts, ns0, ns, j, migrate);
      }
      o := main;
    }

    /** What a call of materialize for the namespace at j did to a serving unit. */
    ghost predicate Grown(e: Eager, chunks0: seq<Option<LiveChunk>>, consts0: seq<Option<Value>>, ns0: seq<DeferredNS>,
                          j: nat, o: Outcome<LiveChunk>)
      requires Sized(e) && j < |ns0|
      reads this
    {
      MaterializedTo(e, migrate, chunks0, consts0, ns0, j, chunks, consts, ns, o)
    }

    /** What the unit's names mean: nsChunks holds the main chunks decoded at once, byName
        the deferred namespaces, and together they are the namespace table. */
    ghost predicate Named(e: Eager)
      requires Sized(e)
      reads this
    {
      && e.table.Keys == nsChunks.Keys + byName.Keys && nsChunks.Keys !! byName.Keys
      && (forall x :: x in e.table ==> 0 <= e.table[x] < |e.chunks|)
      && (forall x :: x in nsChunks && nsChunks[x].Some? ==> nsChunks[x].value == FinalChunk(e, migrate, e.table[x]))
      && (forall x :: x in nsChunks ==> (nsChunks[x].None? <==> DeferredChunk(Ranges(ns), e.table[x])))
      && (forall x :: x in byName ==> byName[x] < |ns| && ns[byName[x]].range.mainChunk == e.table[x])
    }

    /** NSChunk: the main chunk that decoding everything gives the namespace, decoding the
        namespace first if need be.  It fails only where a function of the namespace uses
        a chunk that is still deferred. */
    method NSChunk(name: Str, ghost e: Eager, ghost done: set<nat>) returns (o: Outcome<Option<LiveChunk>>)
      requires Valid()
      modifies this`chunks, this`consts, this`ns
      ensures Valid() && Ranges(ns) == old(Ranges(ns))
      ensures old(Serves(e) && Named(e)) ==> Serves(e) && Named(e)
      ensures old(Serves(e) && Named(e)) ==> Answers(o, name, e) && (o.Ok? ==> !DeferredNow(name))
      ensures old(Serves(e) && Named(e) && StateIs(chunks, consts, ns, done)) && o.Ok? ==>
          StateIs(chunks, consts, ns, if name in byName then done + {byName[name]} else done)
      ensures old(Serves(e) && Named(e) && StateIs(chunks, consts, ns, done)) && SelfServing(e, Ranges(ns)) ==> o.Ok?
    {
      hide InBody, Selectable, RunsInPool, FinalChunk, Faithful, Located, Complete, StateIs, SelfServing,
           MaterializedTo;
      if name in nsChunks && nsChunks[name].Some? {
        return Ok(nsChunks[name]);
      }
      if name !in byName {
        return Ok(None);
      }
      ghost var ok, chunks0, consts0, ns0 := Serves(e), chunks, consts, ns;
      var j := byName[name];
      var main := Materialize(j, e);
      if ok { FaithfulSized(chunks, consts, e, migrate); }
      if ok {
        CallGives(e, migrate, chunks0, consts0, ns0, j, chunks, consts, ns, main);
        NowThere(e, migrate, chunks0, consts0, ns0, j, chunks, consts, ns, main);
      }
      if ok && StateIs(chunks0, consts0, ns0, done) {
        if SelfServing(e, Ranges(ns)) {
          SelfServingSucceeds(e, migrate, chunks0, consts0, ns0, j, chunks, consts, ns, main, done);
        }
        if main.Ok? {
          StateStep(e, migrate, chunks0, consts0, ns0, j, chunks, consts, ns, main, done);
        }
      }
      o := if main.Ok? then Ok(Some(main.value)) else Err(main.error);
    }

    /** What NSChunk answers for a name. */
    ghost predicate Answers(o: Outcome<Option<LiveChunk>>, name: Str, e: Eager)
      requires Sized(e)
      reads this
    {
      && (name !in e.table ==> o == Ok(None))
      && (o.Err? ==> name in byName && o.error == DeferredOutside)
      && (name in byName && o.Ok? ==> o.value.Some?)
      && (name in nsChunks ==> o == Ok(nsChunks[name]))
      && (o.Ok? && o.value.Some? ==>
            name in e.table && 0 <= e.table[name] < |e.chunks| && o.value.value == FinalChunk(e, migrate, e.table[name]))
    }

    /** DeferredNS */
    predicate DeferredNow(name: Str)
      requires Valid()
      reads this
    {
      name in byName && ns[byName[name]].main.None?
    }
  }

  /** Materializing the namespace at j: its own slots are filled with what belongs
      there and nothing else changes; it succeeds exactly when every function of its
      constants has its chunk decoded by then, and fails in one way. */
  ghost predicate MaterializedTo(e: Eager, migrate: bool, chunks0: seq<Option<LiveChunk>>, consts0: seq<Option<Value>>,
                                 ns0: seq<DeferredNS>, j: nat, chunks: seq<Option<LiveChunk>>,
                                 consts: seq<Option<Value>>, ns: seq<DeferredNS>, o: Outcome<LiveChunk>)
    requires Sized(e) && j < |ns0|
  {
    var r := ns0[j].range;
    && |chunks0| == |e.chunks| && 0 <= r.mainChunk < |e.chunks| && |ns| == |ns0|
    && chunks == Filled(chunks0, e, migrate, r.chunkLo, r.chunkHi)
    && PoolGrown(consts, consts0, r, e.consts)
    && (ns0[j].main.None? ==> (o.Ok? <==> NeedsMet(e, r, Live(chunks))))
    && (ns0[j].main.Some? ==> o.Ok?)
    && (o.Ok? ==> o.value == FinalChunk(e, migrate, r.mainChunk) && OwnConsts(r, consts))
    && (o.Err? ==> o.error == DeferredOutside)
    && ns == (if o.Ok? then ns0[j := ns0[j].(main := Some(o.value))] else ns0)
  }

  lemma FaithfulSized(chunks: seq<Option<LiveChunk>>, consts: seq<Option<Value>>, e: Eager, migrate: bool)
    requires Faithful(chunks, consts, e, migrate)
    ensures Sized(e)
  {
  }

  lemma CallGives(e: Eager, migrate: bool, chunks0: seq<Option<LiveChunk>>, consts0: seq<Option<Value>>,
                  ns0: seq<DeferredNS>, j: nat, chunks: seq<Option<LiveChunk>>, consts: seq<Option<Value>>,
                  ns: seq<DeferredNS>, o: Outcome<LiveChunk>)
    requires Sized(e) && j < |ns0| && MaterializedTo(e, migrate, chunks0, consts0, ns0, j, chunks, consts, ns, o)
    ensures |ns| == |ns0| && (forall h :: 0 <= h < |ns| ==> ns[h].range == ns0[h].range)
    ensures 0 <= ns0[j].range.mainChunk < |e.chunks|
    ensures o.Ok? ==> o.value == FinalChunk(e, migrate, ns0[j].range.mainChunk)
    ensures o.Err? ==> o.error == DeferredOutside
  {
    hide FinalChunk, Filled, PoolGrown, NeedsMet, OwnConsts;
  }

  lemma NowThere(e: Eager, migrate: bool, chunks0: seq<Option<LiveChunk>>, consts0: seq<Option<Value>>,
                 ns0: seq<DeferredNS>, j: nat, chunks: seq<Option<LiveChunk>>, consts: seq<Option<Value>>,
                 ns: seq<DeferredNS>, o: Outcome<LiveChunk>)
    requires Sized(e) && j < |ns0| && MaterializedTo(e, migrate, chunks0, consts0, ns0, j, chunks, consts, ns, o)
    ensures |ns| == |ns0| && (o.Ok? ==> ns[j].main.Some?)
  {
    hide Filled, PoolGrown, NeedsMet, OwnConsts, FinalChunk;
  }

  lemma AlreadyGrown(e: Eager, chunks: seq<Option<LiveChunk>>, consts: seq<Option<Value>>, ns: seq<DeferredNS>, j: nat,
                     migrate: bool)
    requires Faithful(chunks, consts, e, migrate) && j < |ns| && ns[j].main.Some?
    requires Complete(ns[j], chunks, consts, e, migrate)
    ensures MaterializedTo(e, migrate, chunks, consts, ns, j, chunks, consts, ns, Ok(ns[j].main.value))
  {
    hide FinalChunk, InRuns, AllLive;
    var r := ns[j].range;
    assert chunks == Filled(chunks, e, migrate, r.chunkLo, r.chunkHi);
    assert ns == ns[j := ns[j].(main := Some(ns[j].main.value))];
  }

  lemma DeferredRunsFit(ns: seq<DeferredNS>, body: Bytes, chunkCount: int, constCount: int, j: nat)
    requires InBody(ns, body) && Selectable(Ranges(ns), chunkCount) && RunsInPool(Ranges(ns), constCount) && j < |ns|
    ensures var d := ns[j];
      && |d.runOffs| == |d.range.runs| && (forall a :: 0 <= a < |d.runOffs| ==> d.runOffs[a] <= |body|)
      && (forall a :: 0 <= a < |d.range.runs| ==> 0 <= d.range.runs[a].lo < d.range.runs[a].hi <= constCount)
      && 0 <= d.range.mainChunk < chunkCount
  {
    DeferredFits(ns, body, chunkCount, j);
    assert Ranges(ns)[j] == ns[j].range;
  }

  lemma RunsLocated(ns: seq<DeferredNS>, body: Bytes, e: Eager, flags: Flags, valid: TextParsers,
                    chunks: seq<Option<LiveChunk>>, consts: seq<Option<Value>>, migrate: bool, j: nat)
    requires Located(ns, body, e, flags, valid) && Faithful(chunks, consts, e, migrate) && j < |ns|
    ensures |consts| == |e.consts| == |e.refs| && |chunks| == |e.chunks|
    ensures forall a :: 0 <= a < |ns[j].range.runs| ==> RunOff(ns[j], a, body, e, WholeEnv(e, valid), |e.consts|)
  {
    hide RunOff, AllChunkOffs, AllTableOffs, FinalChunk;
  }

  lemma NowMaterialized(ns0: seq<DeferredNS>, body: Bytes, j: nat, m: LiveChunk)
    requires j < |ns0| && InBody(ns0, body)
    ensures var ns := ns0[j := ns0[j].(main := Some(m))];
      InBody(ns, body) && Ranges(ns) == Ranges(ns0)
  {
  }

  lemma LocatedStays(ns0: seq<DeferredNS>, body: Bytes, e: Eager, flags: Flags, valid: TextParsers, j: nat,
                     m: LiveChunk)
    requires j < |ns0| && Located(ns0, body, e, flags, valid)
    ensures Located(ns0[j := ns0[j].(main := Some(m))], body, e, flags, valid)
  {
    hide ChunkRecord, ChunkRecords, RunRecords, TableRecord, TableRecords, WholeEnv;
    var ns, n, env := ns0[j := ns0[j].(main := Some(m))], |e.chunks|, WholeEnv(e, valid);
    forall h | 0 <= h < |ns|
      ensures ChunkOffs(ns[h], body, e.chunks, n)
    {
      assert ChunkOffs(ns0[h], body, e.chunks, n);
    }
    forall h, a | 0 <= h < |ns| && 0 <= a < |ns[h].range.runs|
      ensures RunOff(ns[h], a, body, e, env, |e.consts|)
    {
      assert RunOff(ns0[h], a, body, e, env, |e.consts|);
    }
    if flags.localVars {
      forall h | 0 <= h < |ns|
        ensures TableOffs(ns[h], body, e.locals, e.strings, n)
      {
        assert TableOffs(ns0[h], body, e.locals, e.strings, n);
      }
    }
  }

  /** Filling slots keeps the tables faithful and the complete namespaces complete. */
  lemma FilledServes(e: Eager, chunks0: seq<Option<LiveChunk>>, chunks: seq<Option<LiveChunk>>,
                     consts0: seq<Option<Value>>, consts: seq<Option<Value>>, r: NSRange, migrate: bool)
    requires Faithful(chunks0, consts0, e, migrate) && PoolGrown(consts, consts0, r, e.consts)
    requires chunks == Filled(chunks0, e, migrate, r.chunkLo, r.chunkHi)
    ensures Faithful(chunks, consts, e, migrate)
    ensures forall d: DeferredNS :: Complete(d, chunks0, consts0, e, migrate) ==> Complete(d, chunks, consts, e, migrate)
  {
    hide FinalChunk, InRuns;
  }

  lemma StillServes(e: Eager, chunks0: seq<Option<LiveChunk>>, chunks: seq<Option<LiveChunk>>,
                    consts0: seq<Option<Value>>, consts: seq<Option<Value>>, ns: seq<DeferredNS>, j: nat, migrate: bool)
    requires Faithful(chunks0, consts0, e, migrate) && j < |ns| && ns[j].main.None?
    requires 0 <= ns[j].range.mainChunk < |e.chunks|
    requires forall h :: 0 <= h < |ns| ==> Complete(ns[h], chunks0, consts0, e, migrate)
    requires chunks == Filled(chunks0, e, migrate, ns[j].range.chunkLo, ns[j].range.chunkHi)
    requires PoolGrown(consts, consts0, ns[j].range, e.consts) && !NeedsMet(e, ns[j].range, Live(chunks))
    ensures Faithful(chunks, consts, e, migrate)
    ensures forall h :: 0 <= h < |ns| ==> Complete(ns[h], chunks, consts, e, migrate)
    ensures MaterializedTo(e, migrate, chunks0, consts0, ns, j, chunks, consts, ns, Err(DeferredOutside))
  {
    hide FinalChunk, InRuns, Complete, PoolGrown, NeedsMet, Filled;
    FilledServes(e, chunks0, chunks, consts0, consts, ns[j].range, migrate);
  }

  lemma NowServes(e: Eager, chunks0: seq<Option<LiveChunk>>, chunks: seq<Option<LiveChunk>>,
                  consts0: seq<Option<Value>>, consts: seq<Option<Value>>, ns0: seq<DeferredNS>, ns: seq<DeferredNS>,
                  j: nat, migrate: bool)
    requires Faithful(chunks0, consts0, e, migrate) && j < |ns0| && ns0[j].main.None?
    requires 0 <= ns0[j].range.mainChunk < |e.chunks|
    requires forall h :: 0 <= h < |ns0| ==> Complete(ns0[h], chunks0, consts0, e, migrate)
    requires chunks == Filled(chunks0, e, migrate, ns0[j].range.chunkLo, ns0[j].range.chunkHi)
    requires PoolGrown(consts, consts0, ns0[j].range, e.consts) && OwnConsts(ns0[j].range, consts)
    requires NeedsMet(e, ns0[j].range, Live(chunks))
    requires ns == ns0[j := ns0[j].(main := Some(FinalChunk(e, migrate, ns0[j].range.mainChunk)))]
    ensures Faithful(chunks, consts, e, migrate)
    ensures forall h :: 0 <= h < |ns| ==> Complete(ns[h], chunks, consts, e, migrate)
    ensures MaterializedTo(e, migrate, chunks0, consts0, ns0, j, chunks, consts, ns,
                           Ok(FinalChunk(e, migrate, ns0[j].range.mainChunk)))
  {
    hide FinalChunk, InRuns, PoolGrown, NeedsMet, OwnConsts;
    FilledServes(e, chunks0, chunks, consts0, consts, ns0[j].range, migrate);
    assert OwnChunks(ns0[j].range, chunks);
  }

  lemma DeferredFits(ns: seq<DeferredNS>, body: Bytes, chunkCount: int, j: nat)
    requires InBody(ns, body) && Selectable(Ranges(ns), chunkCount) && j < |ns|
    ensures EntryFits(ns[j].range, chunkCount, -1) && !InChunkRun(ns[j].range, ns[j].range.mainChunk)
    ensures ns[j].mainOff <= |body| && ns[j].chunksOff <= |body| && ns[j].mainLVOff <= |body| && ns[j].lvOff <= |body|
  {
    assert Ranges(ns)[j] == ns[j].range;
  }

  // -------------------------------------------------- which slots are filled

  /** The namespaces of `done` are materialized, and exactly the slots of the other
      deferred namespaces are empty. */
  ghost predicate StateIs(chunks: seq<Option<LiveChunk>>, consts: seq<Option<Value>>, ns: seq<DeferredNS>,
                          done: set<nat>) {
    var sel := Ranges(ns);
    && (forall k :: 0 <= k < |chunks| ==> (chunks[k].Some? <==> !DeferredChunk(sel, k) || RunOfSome(sel, done, k)))
    && (forall c :: 0 <= c < |consts| ==> (consts[c].Some? <==> !DeferredConst(sel, c) || ConstOfSome(sel, done, c)))
    && (forall j :: 0 <= j < |ns| ==> (ns[j].main.Some? <==> j in done))
  }

  ghost predicate RunOfSome(sel: seq<NSRange>, done: set<nat>, k: int) {
    exists j :: j in done && j < |sel| && InChunkRun(sel[j], k)
  }

  ghost predicate ConstOfSome(sel: seq<NSRange>, done: set<nat>, c: int) {
    exists j :: j in done && j < |sel| && InRuns(sel[j], c)
  }

  lemma OneMoreDone(sel: seq<NSRange>, done: set<nat>, j: nat, x: int)
    requires j < |sel|
    ensures RunOfSome(sel, done + {j}, x) <==> RunOfSome(sel, done, x) || InChunkRun(sel[j], x)
    ensures ConstOfSome(sel, done + {j}, x) <==> ConstOfSome(sel, done, x) || InRuns(sel[j], x)
  {
    hide InRuns, InChunkRun;
    if InChunkRun(sel[j], x) || InRuns(sel[j], x) {
      assert j in done + {j};
    }
    if RunOfSome(sel, done, x) {
      var i :| i in done && i < |sel| && InChunkRun(sel[i], x);
      assert i in done + {j};
    }
    if ConstOfSome(sel, done, x) {
      var i :| i in done && i < |sel| && InRuns(sel[i], x);
      assert i in done + {j};
    }
  }

  /** A successful materialization adds its namespace to those done, whatever was done
      before; one already done changes nothing. */
  lemma StateStep(e: Eager, migrate: bool, chunks0: seq<Option<LiveChunk>>, consts0: seq<Option<Value>>,
                  ns0: seq<DeferredNS>, j: nat, chunks: seq<Option<LiveChunk>>, consts: seq<Option<Value>>,
                  ns: seq<DeferredNS>, o: Outcome<LiveChunk>, done: set<nat>)
    requires Sized(e) && j < |ns0| && StateIs(chunks0, consts0, ns0, done) && Ranges(ns) == Ranges(ns0)
    requires MaterializedTo(e, migrate, chunks0, consts0, ns0, j, chunks, consts, ns, o) && o.Ok?
    ensures StateIs(chunks, consts, ns, done + {j})
  {
    hide FinalChunk, InRuns, InChunkRun, NeedsMet, RunOfSome, ConstOfSome, DeferredConst, DeferredChunk;
    var sel := Ranges(ns);
    forall k | 0 <= k < |chunks|
      ensures chunks[k].Some? <==> !DeferredChunk(sel, k) || RunOfSome(sel, done + {j}, k)
    {
      OneMoreDone(sel, done, j, k);
      InRunMeans(sel[j], k);
    }
    forall c | 0 <= c < |consts|
      ensures consts[c].Some? <==> !DeferredConst(sel, c) || ConstOfSome(sel, done + {j}, c)
    {
      OneMoreDone(sel, done, j, c);
      OwnConst(sel[j], consts, c);
    }
  }

  lemma InRunMeans(r: NSRange, k: int)
    ensures InChunkRun(r, k) <==> r.chunkLo <= k < r.chunkHi
  {
  }

  lemma OwnConst(r: NSRange, consts: seq<Option<Value>>, c: nat)
    requires OwnConsts(r, consts) && c < |consts|
    ensures InRuns(r, c) ==> consts[c].Some?
  {
  }

  /** Which namespaces are done determines the tables: the order in which they were
      materialized, and how often each was asked for, leaves no trace. */
  lemma OrderFree(e: Eager, migrate: bool, ns1: seq<DeferredNS>, ns2: seq<DeferredNS>, done: set<nat>,
                  chunks1: seq<Option<LiveChunk>>, consts1: seq<Option<Value>>,
                  chunks2: seq<Option<LiveChunk>>, consts2: seq<Option<Value>>)
    requires Ranges(ns1) == Ranges(ns2)
    requires Faithful(chunks1, consts1, e, migrate) && Faithful(chunks2, consts2, e, migrate)
    requires StateIs(chunks1, consts1, ns1, done) && StateIs(chunks2, consts2, ns2, done)
    ensures chunks1 == chunks2 && consts1 == consts2
  {
    hide FinalChunk, DeferredChunk, DeferredConst, RunOfSome, ConstOfSome;
    assert forall k :: 0 <= k < |chunks1| ==> chunks1[k] == chunks2[k];
    assert forall c :: 0 <= c < |consts1| ==> consts1[c] == consts2[c];
  }

  /** The functions of constant c use no deferred chunk but those of entry j's run. */
  ghost predicate RefsWithin(e: Eager, sel: seq<NSRange>, j: nat, c: nat)
    requires j < |sel| && c < |e.refs|
  {
    forall k :: k in e.refs[c] ==> k < |e.chunks| && (!DeferredChunk(sel, k) || InChunkRun(sel[j], k))
  }

  /** No constant of a deferred namespace uses a chunk of another, or its own main. */
  ghost predicate SelfServing(e: Eager, sel: seq<NSRange>) {
    forall j, c :: 0 <= j < |sel| && 0 <= c < |e.refs| && InRuns(sel[j], c) ==> RefsWithin(e, sel, j, c)
  }

  /** Then every materialization succeeds. */
  lemma SelfServingSucceeds(e: Eager, migrate: bool, chunks0: seq<Option<LiveChunk>>, consts0: seq<Option<Value>>,
                            ns0: seq<DeferredNS>, j: nat, chunks: seq<Option<LiveChunk>>, consts: seq<Option<Value>>,
                            ns: seq<DeferredNS>, o: Outcome<LiveChunk>, done: set<nat>)
    requires Sized(e) && j < |ns0| && StateIs(chunks0, consts0, ns0, done) && SelfServing(e, Ranges(ns0))
    requires MaterializedTo(e, migrate, chunks0, consts0, ns0, j, chunks, consts, ns, o)
    ensures o.Ok?
  {
    hide FinalChunk, InRuns, DeferredChunk, DeferredConst, RunOfSome, ConstOfSome, OwnConsts, PoolGrown, StateIs;
    var sel := Ranges(ns0);
    forall c | 0 <= c < |e.refs| && InRuns(sel[j], c)
      ensures AllLive(e.refs[c], Live(chunks))
    {
      assert RefsWithin(e, sel, j, c);
      forall k | k in e.refs[c]
        ensures k < |chunks| && chunks[k].Some?
      {
        assert k < |e.chunks| && (!DeferredChunk(sel, k) || InChunkRun(sel[j], k));
        if !DeferredChunk(sel, k) {
          EagerThere(chunks0, consts0, ns0, done, k);
        }
      }
    }
  }

  lemma EagerThere(chunks: seq<Option<LiveChunk>>, consts: seq<Option<Value>>, ns: seq<DeferredNS>, done: set<nat>,
                   k: nat)
    requires StateIs(chunks, consts, ns, done) && k < |chunks| && !DeferredChunk(Ranges(ns), k)
    ensures chunks[k].Some?
  {
    hide DeferredChunk, DeferredConst, RunOfSome, ConstOfSome;
  }

  /** The tables of a unit. */
  datatype Slots = Slots(chunks: seq<Option<LiveChunk>>, consts: seq<Option<Value>>, ns: seq<DeferredNS>)

  ghost predicate Call(e: Eager, migrate: bool, t: Slots, j: nat, u: Slots, o: Outcome<LiveChunk>)
    requires Sized(e)
  {
    && j < |t.ns| && Ranges(u.ns) == Ranges(t.ns)
    && MaterializedTo(e, migrate, t.chunks, t.consts, t.ns, j, u.chunks, u.consts, u.ns, o)
  }

  /** Calls of materialize one after another: for the namespaces at js, with outcomes os,
      through the tables ts. */
  ghost predicate Calls(e: Eager, migrate: bool, ts: seq<Slots>, js: seq<nat>, os: seq<Outcome<LiveChunk>>)
    requires Sized(e)
  {
    && |ts| == |js| + 1 && |os| == |js|
    && forall i :: 0 <= i < |js| ==> Call(e, migrate, ts[i], js[i], ts[i + 1], os[i])
  }

  ghost function Set(js: seq<nat>): set<nat> {
    set j | j in js
  }

  /** Over a freshly decoded self-serving unit every call succeeds, and any calls, in any
      order and with any repetition, leave exactly the requested namespaces
      materialized. */
  lemma {:induction false} AnyOrder(e: Eager, migrate: bool, ts: seq<Slots>, js: seq<nat>, os: seq<Outcome<LiveChunk>>,
                                    n: nat)
    requires Sized(e) && Calls(e, migrate, ts, js, os) && n <= |js|
    requires StateIs(ts[0].chunks, ts[0].consts, ts[0].ns, {}) && SelfServing(e, Ranges(ts[0].ns))
    ensures Ranges(ts[n].ns) == Ranges(ts[0].ns) && StateIs(ts[n].chunks, ts[n].consts, ts[n].ns, Set(js[..n]))
    ensures forall i :: 0 <= i < n ==> os[i].Ok?
    decreases n
  {
    hide StateIs, SelfServing, MaterializedTo, Set;
    if n == 0 {
      assert js[..0] == [];
      SetOfNone();
    } else {
      AnyOrder(e, migrate, ts, js, os, n - 1);
      var t, u, o := ts[n - 1], ts[n], os[n - 1];
      assert Call(e, migrate, t, js[n - 1], ts[n - 1 + 1], o);
      var done := Set(js[..n - 1]);
      SelfServingSucceeds(e, migrate, t.chunks, t.consts, t.ns, js[n - 1], u.chunks, u.consts, u.ns, o, done);
      StateStep(e, migrate, t.chunks, t.consts, t.ns, js[n - 1], u.chunks, u.consts, u.ns, o, done);
      SetOfOneMore(js, n);
    }
  }

  lemma SetOfNone()
    ensures Set([]) == {}
  {
  }

  lemma SetOfOneMore(js: seq<nat>, n: nat)
    requires 0 < n <= |js|
    ensures Set(js[..n]) == Set(js[..n - 1]) + {js[n - 1]}
  {
    assert js[..n] == js[..n - 1] + [js[n - 1]];
  }
}
