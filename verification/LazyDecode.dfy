/** The eager pass of DecodeBundle: it reads every section in order, but skips the
    records of deferred namespaces, keeps their slots empty and notes where they are. */
module LazyDecode {
  import opened Wire
  import opened Stream
  import opened Values
  import opened ValueProofs
  import opened ValueCodec
  import opened Chunks
  import opened ChunkCodec
  import opened Sections
  import opened Modules
  import opened Migration
  import opened Validation
  import opened Selection
  import opened EagerDecode
  import opened LazyRead

  /** A namespace left undecoded: where its skipped records are (-1 for none), and its
      main chunk once it has been materialized. */
  datatype DeferredNS = DeferredNS(range: NSRange, mainOff: nat, chunksOff: nat, mainLVOff: int, lvOff: int,
                                   runOffs: seq<nat>, main: Option<LiveChunk>)

  function Ranges(ns: seq<DeferredNS>): (sel: seq<NSRange>)
    ensures |sel| == |ns| && forall j :: 0 <= j < |ns| ==> sel[j] == ns[j].range
  {
    seq(|ns|, j requires 0 <= j < |ns| => ns[j].range)
  }

  /** Offsets lie in the body, and there is one for each constant run. */
  ghost predicate InBody(ns: seq<DeferredNS>, body: Bytes) {
    forall j :: 0 <= j < |ns| ==>
      && ns[j].mainOff <= |body| && ns[j].chunksOff <= |body|
      && ns[j].mainLVOff <= |body| && ns[j].lvOff <= |body|
      && |ns[j].runOffs| == |ns[j].range.runs|
      && forall a :: 0 <= a < |ns[j].runOffs| ==> ns[j].runOffs[a] <= |body|
  }

  function Undecoded(sel: seq<NSRange>): (ns: seq<DeferredNS>)
    ensures Ranges(ns) == sel
  {
    seq(|sel|, j requires 0 <= j < |sel| => DeferredNS(sel[j], 0, 0, -1, -1, seq(|sel[j].runs|, _ => 0), None))
  }

  // ------------------------------------------------------------------ chunks

  /** The first i slots: those of deferred chunks are empty. */
  ghost predicate ChunkSlots(slots: seq<Option<LiveChunk>>, sel: seq<NSRange>, cs: seq<LiveChunk>, i: nat) {
    && |slots| == i <= |cs|
    && forall k :: 0 <= k < i ==> slots[k] == if DeferredChunk(sel, k) then None else Some(cs[k])
  }

  /** The offsets of d among the first i records. */
  ghost predicate ChunkOffs(d: DeferredNS, body: Bytes, cs: seq<LiveChunk>, i: nat) {
    && d.mainOff <= |body| && d.chunksOff <= |body| && EntryFits(d.range, |cs|, -1)
    && (d.range.mainChunk < i ==> ChunkRecord(body[d.mainOff..], cs[d.range.mainChunk]))
    && (d.range.chunkLo < d.range.chunkHi && d.range.chunkLo < i ==>
          ChunkRecords(body[d.chunksOff..], cs[d.range.chunkLo..d.range.chunkHi]))
  }

  ghost predicate AllChunkOffs(ns: seq<DeferredNS>, body: Bytes, cs: seq<LiveChunk>, i: nat) {
    forall j :: 0 <= j < |ns| ==> ChunkOffs(ns[j], body, cs, i)
  }

  /** The switch that notes an offset: only a main chunk's record and the first one of
      a chunk run are noted. */
  function NoteChunk(d: DeferredNS, k: nat, off: nat): DeferredNS {
    if k == d.range.mainChunk then d.(mainOff := off)
    else if k == d.range.chunkLo then d.(chunksOff := off)
    else d
  }

  lemma StartChunkOffs(sel: seq<NSRange>, body: Bytes, cs: seq<LiveChunk>)
    requires Selectable(sel, |cs|)
    ensures AllChunkOffs(Undecoded(sel), body, cs, 0) && InBody(Undecoded(sel), body)
  {
    hide Separate;
  }

  lemma PassChunk(ns: seq<DeferredNS>, body: Bytes, cs: seq<LiveChunk>, i: nat)
    requires AllChunkOffs(ns, body, cs, i) && !DeferredChunk(Ranges(ns), i)
    ensures AllChunkOffs(ns, body, cs, i + 1)
  {
    hide ChunkRecord, ChunkRecords;
    forall j | 0 <= j < |ns|
      ensures ChunkOffs(ns[j], body, cs, i + 1)
    {
      assert !OwnsChunk(Ranges(ns)[j], i);
    }
  }

  lemma NoteChunkKeeps(ns: seq<DeferredNS>, body: Bytes, cs: seq<LiveChunk>, i: nat, j: nat, off: nat, rest: Bytes)
    requires AllChunkOffs(ns, body, cs, i) && i < |cs| && j < |ns| && Selectable(Ranges(ns), |cs|)
    requires OwnsChunk(ns[j].range, i) && off <= |body| && ChunksAt(body[off..], cs, i, rest)
    ensures AllChunkOffs(ns[j := NoteChunk(ns[j], i, off)], body, cs, i + 1)
  {
    hide ChunkRecord, ChunkRecords, ChunksAt, Separate, OwnsChunk, EntryFits;
    var d := ns[j];
    var now := ns[j := NoteChunk(d, i, off)];
    forall h | 0 <= h < |now|
      ensures ChunkOffs(now[h], body, cs, i + 1)
    {
      if h != j {
        if OwnsChunk(ns[h].range, i) {
          OneOwner(Ranges(ns), |cs|, h, j, i);
        }
        OtherChunk(ns[h], body, cs, i);
      } else {
        OwnChunk(d, body, cs, i, off, rest);
      }
    }
  }

  lemma OtherChunk(d: DeferredNS, body: Bytes, cs: seq<LiveChunk>, i: nat)
    requires ChunkOffs(d, body, cs, i) && !OwnsChunk(d.range, i)
    ensures ChunkOffs(d, body, cs, i + 1)
  {
    hide ChunkRecord, ChunkRecords;
  }

  lemma OwnChunk(d: DeferredNS, body: Bytes, cs: seq<LiveChunk>, i: nat, off: nat, rest: Bytes)
    requires ChunkOffs(d, body, cs, i) && OwnsChunk(d.range, i) && i < |cs| && !InChunkRun(d.range, d.range.mainChunk)
    requires off <= |body| && ChunksAt(body[off..], cs, i, rest)
    ensures ChunkOffs(NoteChunk(d, i, off), body, cs, i + 1)
  {
    hide ChunkRecord, ChunkRecords, ChunksAt;
    ChunksAhead(body[off..], cs, i, i + 1, rest);
    if i == d.range.chunkLo && d.range.chunkLo < d.range.chunkHi {
      ChunksAhead(body[off..], cs, i, d.range.chunkHi, rest);
    }
  }

  /** What reading the chunk section comes to, when reading all of it succeeds. */
  ghost predicate ChunksRead(o: Outcome<()>, slots: seq<Option<LiveChunk>>, ns: seq<DeferredNS>, body: Bytes,
                             rs: seq<NSRange>, choice: Choice, cs: seq<LiveChunk>) {
    && o == (if choice.Some? && rs != [] && !ValidRanges(rs, |cs|, -1) then Err(BadRanges) else Ok(()))
    && (o.Ok? ==> ChunkSlots(slots, Ranges(ns), cs, |cs|) && AllChunkOffs(ns, body, cs, |cs|))
  }

  ghost predicate Fresh(ns: seq<DeferredNS>) {
    forall j :: 0 <= j < |ns| ==> ns[j].main.None? && ns[j].mainLVOff == -1 && ns[j].lvOff == -1
  }

  /** What holds of the selection whether or not the records are well formed. */
  ghost predicate Chosen(ns: seq<DeferredNS>, runs: seq<DeferredRun>, body: Bytes, rs: seq<NSRange>, choice: Choice,
                         chunkCount: nat) {
    && Chooses(Ranges(ns), rs, choice) && Selectable(Ranges(ns), chunkCount) && RunsOf(runs, Ranges(ns))
    && InBody(ns, body) && Fresh(ns)
  }

  lemma NoteInBody(ns: seq<DeferredNS>, body: Bytes, j: nat, k: nat, off: nat)
    requires InBody(ns, body) && Fresh(ns) && j < |ns| && off <= |body|
    ensures InBody(ns[j := NoteChunk(ns[j], k, off)], body) && Fresh(ns[j := NoteChunk(ns[j], k, off)])
    ensures Ranges(ns[j := NoteChunk(ns[j], k, off)]) == Ranges(ns)
  {
  }

  /** Between two chunk records, i of n read or skipped, s ahead. */
  ghost predicate MidChunks(p: Parse<seq<LiveChunk>>, s: Bytes, slots: seq<Option<LiveChunk>>, ns: seq<DeferredNS>,
                            body: Bytes, n: nat, i: nat)
  {
    p.Got? ==>
      && |p.val| == n && ChunksAt(s, p.val, i, p.rest)
      && AllChunkOffs(ns, body, p.val, i) && ChunkSlots(slots, Ranges(ns), p.val, i)
  }

  lemma MidSkip(p: Parse<seq<LiveChunk>>, slots: seq<Option<LiveChunk>>, ns: seq<DeferredNS>, body: Bytes, n: nat,
                i: nat, off: nat, j: nat)
    requires i < n && off <= |body| < TWO63 && j < |ns| && OwnsChunk(ns[j].range, i) && Selectable(Ranges(ns), n)
    requires MidChunks(p, body[off..], slots, ns, body, n, i)
    ensures var q, now := ScanChunk(body[off..]), ns[j := NoteChunk(ns[j], i, off)];
      (p.Got? ==> q.Got?) && (q.Got? ==> MidChunks(p, q.rest, slots + [None], now, body, n, i + 1))
  {
    hide ScanChunk, GetLive, ChunksAt, AllChunkOffs, Selectable, NoteChunk;
    if p.Got? {
      ChunkStep(body[off..], p.val, i, p.rest);
      NoteChunkKeeps(ns, body, p.val, i, j, off, p.rest);
      var now := ns[j := NoteChunk(ns[j], i, off)];
      assert Ranges(now) == Ranges(ns) by { NoteRange(ns[j], i, off); }
      assert OwnsChunk(Ranges(ns)[j], i);
    }
  }

  lemma NoteRange(d: DeferredNS, k: nat, off: nat)
    ensures NoteChunk(d, k, off).range == d.range
  {
  }

  lemma MidRead(p: Parse<seq<LiveChunk>>, slots: seq<Option<LiveChunk>>, ns: seq<DeferredNS>, body: Bytes, n: nat,
                i: nat, off: nat)
    requires i < n && off <= |body| < TWO63 && !DeferredChunk(Ranges(ns), i)
    requires MidChunks(p, body[off..], slots, ns, body, n, i)
    ensures var q := GetLive(body[off..], true);
      (p.Got? ==> q.Got?) && (q.Got? ==> MidChunks(p, q.rest, slots + [Some(q.val)], ns, body, n, i + 1))
  {
    hide ScanChunk, GetLive, ChunksAt, AllChunkOffs;
    if p.Got? {
      ChunkStep(body[off..], p.val, i, p.rest);
      PassChunk(ns, body, p.val, i);
    }
  }

  lemma MidStart(p: Parse<seq<LiveChunk>>, s: Bytes, sel: seq<NSRange>, body: Bytes, n: nat)
    requires p == GetLiveList(s, n, false) && Selectable(sel, n)
    ensures MidChunks(p, s, [], Undecoded(sel), body, n, 0)
  {
    hide GetLive, Undecoded, Selectable, AllChunkOffs;
    if p.Got? {
      assert p.val[0..] == p.val;
      StartChunkOffs(sel, body, p.val);
    }
  }

  lemma MidDone(p: Parse<seq<LiveChunk>>, s: Bytes, slots: seq<Option<LiveChunk>>, ns: seq<DeferredNS>, body: Bytes,
                n: nat)
    requires MidChunks(p, s, slots, ns, body, n, n)
    ensures p.Got? ==> s == p.rest && ChunkSlots(slots, Ranges(ns), p.val, n) && AllChunkOffs(ns, body, p.val, n)
    ensures p.Got? ==> n == |p.val|
  {
    hide GetLive, AllChunkOffs;
  }

  /** The empty slots are the deferred chunks'. */
  ghost predicate Empties(slots: seq<Option<LiveChunk>>, sel: seq<NSRange>) {
    forall k :: 0 <= k < |slots| ==> (slots[k].None? <==> DeferredChunk(sel, k))
  }

  /** readLiveChunks */
  method ReadLiveChunks(r: Reader, rs: seq<NSRange>, choice: Choice)
    returns (o: Outcome<()>, slots: seq<Option<LiveChunk>>, ns: seq<DeferredNS>, runs: seq<DeferredRun>)
    requires r.Valid() && |r.data| < TWO63
    modifies r
    ensures r.Valid() && old(r.pos) <= r.pos
    ensures o.Ok? ==> Chosen(ns, runs, r.data, rs, choice, |slots|) && Empties(slots, Ranges(ns))
    ensures var p := GetLiveChunks(old(r.Rest()), false);
      p.Got? ==> ChunksRead(o, slots, ns, r.data, rs, choice, p.val) && (o.Ok? ==> r.Rest() == p.rest)
    ensures o.Ok? ==> LazyChunkSection(old(r.Rest()), Ranges(ns)) == Got(slots, r.Rest())
  {
    hide GetVarint, GetLive, GetLiveList, ScanChunk, ValidRanges, Selectable, RunsOf, Chooses, AllChunkOffs, ChunksAt,
         OwnsChunk, NoteChunk, InBody, Fresh, Undecoded, MidChunks, ChunkSlots, DeferredChunk, LazyChunks, OnChunks;
    ghost var p := GetLiveChunks(r.Rest(), false);
    slots, ns, runs := [], [], [];
    var count := r.ReadVarint();
    if count.Err? {
      return Err(count.error), [], [], [];
    }
    var n := count.value;
    if n >= TWO63 {
      return Err(Panic), [], [], [];
    }
    var s, sel;
    s, sel, runs := SelectDeferred(rs, n, choice);
    if s.Err? {
      return s, [], [], [];
    }
    ns := Undecoded(sel);
    StartInBody(sel, r.data);
    MidStart(p, r.Rest(), sel, r.data, n);
    ghost var q := LazyChunks(r.Rest(), 0, n, sel);
    OnChunksStart(r.Rest(), n, sel);
    var i := 0;
    while i < n
      invariant 0 <= i <= n && r.Valid() && old(r.pos) <= r.pos && |slots| == i && Ranges(ns) == sel
      invariant Empties(slots, sel) && OnChunks(q, slots, r.Rest(), i, n, sel)
      invariant InBody(ns, r.data) && Fresh(ns) && MidChunks(p, r.Rest(), slots, ns, r.data, n, i)
    {
      ghost var s0, slots0 := r.Rest(), slots;
      var owner := OwnerOfChunk(sel, i);
      if owner.Some? {
        NoteInBody(ns, r.data, owner.value, i, r.pos);
        MidSkip(p, slots, ns, r.data, n, i, r.pos, owner.value);
        ns := ns[owner.value := NoteChunk(ns[owner.value], i, r.pos)];
        var skipped := SkipChunk(r);
        if skipped.Err? {
          return skipped, [], [], [];
        }
        slots := slots + [None];
      } else {
        MidRead(p, slots, ns, r.data, n, i, r.pos);
        var c := ReadLive(r);
        if c.Err? {
          return Err(c.error), [], [], [];
        }
        slots := slots + [Some(c.value)];
      }
      OnChunksStep(q, slots0, s0, i, n, sel);
      i := i + 1;
    }
    OnChunksDone(q, slots, r.Rest(), n, sel);
    MidDone(p, r.Rest(), slots, ns, r.data, n);
    o := Ok(());
  }

  lemma StartInBody(sel: seq<NSRange>, body: Bytes)
    ensures InBody(Undecoded(sel), body) && Fresh(Undecoded(sel))
  {
  }

  // --------------------------------------------------------------- constants

  function Live(slots: seq<Option<LiveChunk>>): (live: seq<bool>)
    ensures |live| == |slots| && forall k :: 0 <= k < |live| ==> live[k] == slots[k].Some?
  {
    seq(|slots|, k requires 0 <= k < |slots| => slots[k].Some?)
  }

  ghost predicate ConstSlots(slots: seq<Option<Value>>, sel: seq<NSRange>, vals: seq<Value>, i: nat) {
    && |slots| == i <= |vals|
    && forall c :: 0 <= c < i ==> slots[c] == if DeferredConst(sel, c) then None else Some(vals[c])
  }

  /** Every function of the constants decoded so far has its chunk decoded. */
  ghost predicate RefsMet(refs: seq<set<nat>>, sel: seq<NSRange>, live: seq<bool>, i: nat) {
    i <= |refs| && forall c :: 0 <= c < i && !DeferredConst(sel, c) ==> AllLive(refs[c], live)
  }

  ghost predicate RunsInPool(sel: seq<NSRange>, n: int) {
    forall j, a :: 0 <= j < |sel| && 0 <= a < |sel[j].runs| ==> sel[j].runs[a].hi <= n
  }

  ghost predicate RunRecords(s: Bytes, run: ConstRange, e: Eager, env: Env) {
    && 0 <= run.lo <= run.hi <= |e.consts| == |e.refs|
    && ConstRecords(s, e.consts[run.lo..run.hi], e.refs[run.lo..run.hi], env)
  }

  /** The offset of run a of d among the first i records. */
  ghost predicate RunOff(d: DeferredNS, a: int, body: Bytes, e: Eager, env: Env, i: nat) {
    && 0 <= a < |d.range.runs| == |d.runOffs| && d.runOffs[a] <= |body|
    && var run := d.range.runs[a];
    && 0 <= run.lo < run.hi
    && (run.lo < i ==> RunRecords(body[d.runOffs[a]..], run, e, env))
  }

  ghost predicate AllRunOffs(ns: seq<DeferredNS>, body: Bytes, e: Eager, env: Env, i: nat) {
    forall j, a :: 0 <= j < |ns| && 0 <= a < |ns[j].range.runs| ==> RunOff(ns[j], a, body, e, env, i)
  }

  function NoteRun(ns: seq<DeferredNS>, t: DeferredRun, off: nat): (now: seq<DeferredNS>)
    requires t.ns < |ns| && t.idx < |ns[t.ns].runOffs|
    ensures Ranges(now) == Ranges(ns)
  {
    ns[t.ns := ns[t.ns].(runOffs := ns[t.ns].runOffs[t.idx := off])]
  }

  /** A run that starts at a constant some run holds is that run. */
  lemma RunThere(runs: seq<DeferredRun>, sel: seq<NSRange>, p: nat, j: nat, a: nat, c: int)
    requires RunsOf(runs, sel) && p < |runs| && InRun(runs[p].run, c)
    requires j < |sel| && a < |sel[j].runs| && sel[j].runs[a].lo == c
    ensures runs[p] == DeferredRun(sel[j].runs[a], j, a)
  {
    hide IsRun;
    var t := DeferredRun(sel[j].runs[a], j, a);
    assert t in runs;
    var q :| 0 <= q < |runs| && runs[q] == t;
    if p < q {
      LaterRun(runs, sel, p, q);
    } else if q < p {
      LaterRun(runs, sel, q, p);
    }
  }

  lemma NoteRunKeeps(ns: seq<DeferredNS>, runs: seq<DeferredRun>, p: nat, body: Bytes, e: Eager, env: Env, i: nat,
                     off: nat, rest: Bytes)
    requires RunsOf(runs, Ranges(ns)) && p < |runs| && InRun(runs[p].run, i) && IsRun(runs[p], Ranges(ns))
    requires AllRunOffs(ns, body, e, env, i) && InBody(ns, body) && runs[p].run.hi <= |e.consts| && !env.wide
    requires off <= |body| && ConstsAt(body[off..], e, env, i, rest)
    ensures AllRunOffs(if i == runs[p].run.lo then NoteRun(ns, runs[p], off) else ns, body, e, env, i + 1)
  {
    hide RunRecords, ConstsAt, RunsOf, NoteRun;
    var t, next := runs[p], i + 1;
    var now := if i == t.run.lo then NoteRun(ns, t, off) else ns;
    if i == t.run.lo {
      RunStart(body[off..], e, env, t.run, rest);
      NoteRunAt(ns, t, off);
    }
    forall j, a | 0 <= j < |ns| && 0 <= a < |ns[j].range.runs|
      ensures RunOff(now[j], a, body, e, env, next)
    {
      assert RunOff(ns[j], a, body, e, env, i);
      if ns[j].range.runs[a].lo == i {
        RunThere(runs, Ranges(ns), p, j, a, i);
      }
    }
  }

  lemma NoteRunAt(ns: seq<DeferredNS>, t: DeferredRun, off: nat)
    requires t.ns < |ns| && t.idx < |ns[t.ns].runOffs|
    ensures var now := NoteRun(ns, t, off);
      && |now| == |ns| && (forall j :: 0 <= j < |ns| ==> now[j].range == ns[j].range)
      && (forall j :: 0 <= j < |ns| ==> |now[j].runOffs| == |ns[j].runOffs|)
      && (forall j, a :: 0 <= j < |ns| && 0 <= a < |ns[j].runOffs| ==>
            now[j].runOffs[a] == if j == t.ns && a == t.idx then off else ns[j].runOffs[a])
  {
  }

  lemma RunStart(s: Bytes, e: Eager, env: Env, run: ConstRange, rest: Bytes)
    requires 0 <= run.lo < run.hi <= |e.consts| && ConstsAt(s, e, env, run.lo, rest) && !env.wide
    ensures RunRecords(s, run, e, env)
  {
    hide ConstRecords;
    ConstsAhead(s, e, env, run.lo, run.hi, rest);
  }

  lemma ConstsSized(s: Bytes, e: Eager, env: Env, i: nat, rest: Bytes)
    requires ConstsAt(s, e, env, i, rest)
    ensures |e.refs| == |e.consts|
  {
  }

  lemma PassConst(ns: seq<DeferredNS>, body: Bytes, e: Eager, env: Env, i: nat)
    requires AllRunOffs(ns, body, e, env, i) && !DeferredConst(Ranges(ns), i)
    ensures AllRunOffs(ns, body, e, env, i + 1)
  {
    hide RunRecords;
    var next := i + 1;
    forall j, a | 0 <= j < |ns| && 0 <= a < |ns[j].range.runs|
      ensures RunOff(ns[j], a, body, e, env, next)
    {
      assert RunOff(ns[j], a, body, e, env, i);
      if ns[j].range.runs[a].lo == i {
        HoldsConst(Ranges(ns), j, a, i);
      }
    }
  }

  lemma HoldsConst(sel: seq<NSRange>, j: nat, a: nat, c: int)
    requires j < |sel| && a < |sel[j].runs| && InRun(sel[j].runs[a], c)
    ensures DeferredConst(sel, c)
  {
    assert InRuns(sel[j], c);
  }

  /** Between two constant records. */
  ghost predicate MidConsts(ok: bool, s: Bytes, slots: seq<Option<Value>>, ns: seq<DeferredNS>, live: seq<bool>,
                            body: Bytes, e: Eager, env: Env, rest: Bytes, i: nat)
  {
    ok ==>
      && ConstsAt(s, e, env, i, rest) && AllRunOffs(ns, body, e, env, i)
      && ConstSlots(slots, Ranges(ns), e.consts, i) && RefsMet(e.refs, Ranges(ns), live, i)
  }

  lemma MidSkipConst(ok: bool, slots: seq<Option<Value>>, ns: seq<DeferredNS>, live: seq<bool>, body: Bytes, e: Eager,
                     env: Env, rest: Bytes, i: nat, off: nat, runs: seq<DeferredRun>, p: nat)
    requires off <= |body| && MidConsts(ok, body[off..], slots, ns, live, body, e, env, rest, i) && !env.wide
    requires RunsOf(runs, Ranges(ns)) && p < |runs| && InRun(runs[p].run, i) && IsRun(runs[p], Ranges(ns))
    requires InBody(ns, body) && (ok ==> runs[p].run.hi <= |e.consts|)
    ensures var q, now := Scan(body[off..]), if i == runs[p].run.lo then NoteRun(ns, runs[p], off) else ns;
      && (ok ==> q.Got?)
      && (q.Got? ==> MidConsts(ok, q.rest, slots + [None], now, live, body, e, env, rest, i + 1))
  {
    hide ConstsAt, AllRunOffs, RunsOf, IsRun, InBody, Scan, GetValue, AllLive;
    if ok {
      ConstStep(body[off..], e, env, env, i, rest);
      ConstsSized(body[off..], e, env, i, rest);
      NoteRunKeeps(ns, runs, p, body, e, env, i, off, rest);
      DeferredConstRun(runs, Ranges(ns), i);
    }
  }

  lemma MidReadConst(ok: bool, slots: seq<Option<Value>>, ns: seq<DeferredNS>, live: seq<bool>, body: Bytes, e: Eager,
                     env: Env, rest: Bytes, i: nat, off: nat, env2: Env)
    requires off <= |body| && MidConsts(ok, body[off..], slots, ns, live, body, e, env, rest, i) && !env.wide
    requires !DeferredConst(Ranges(ns), i) && (ok ==> i < |e.consts| && Compatible(env, env2)) && env2.live == live
    ensures var q := GetValue(body[off..], env2);
      && (ok ==> q.Got? || (q.error == DeferredOutside && i < |e.refs| && !AllLive(e.refs[i], live)))
      && (q.Got? ==> MidConsts(ok, q.rest, slots + [Some(q.val)], ns, live, body, e, env, rest, i + 1))
  {
    hide ConstsAt, AllRunOffs, Scan, GetValue, AllLive, Compatible, DeferredConst;
    if ok {
      ConstStep(body[off..], e, env, env2, i, rest);
      ConstsSized(body[off..], e, env, i, rest);
      PassConst(ns, body, e, env, i);
    }
  }

  lemma NoteRunInBody(ns: seq<DeferredNS>, t: DeferredRun, body: Bytes, off: nat)
    requires InBody(ns, body) && Fresh(ns) && IsRun(t, Ranges(ns)) && off <= |body|
    ensures t.ns < |ns| && t.idx < |ns[t.ns].runOffs|
    ensures InBody(NoteRun(ns, t, off), body) && Fresh(NoteRun(ns, t, off))
  {
  }

  /** What reading the constants comes to, when reading all of them succeeds. */
  ghost predicate ConstsRead(o: Outcome<()>, slots: seq<Option<Value>>, ns0: seq<DeferredNS>, ns: seq<DeferredNS>,
                             live: seq<bool>, body: Bytes, e: Eager, env: Env)
  {
    var sel := Ranges(ns0);
    && (o.Err? ==> o.error == if !RunsInPool(sel, |e.consts|) then RangePastConsts else DeferredOutside)
    && (o.Ok? <==> RunsInPool(sel, |e.consts|) && RefsMet(e.refs, sel, live, |e.refs|))
    && (o.Ok? ==> ConstSlots(slots, sel, e.consts, |e.consts|) && AllRunOffs(ns, body, e, env, |e.consts|))
  }

  lemma MidConstsStart(ok: bool, s: Bytes, ns: seq<DeferredNS>, live: seq<bool>, body: Bytes, e: Eager, env: Env,
                       rest: Bytes, chunkCount: int)
    requires ok ==> (|e.refs| == |e.consts| && GetValues(s, |e.consts|, env) == Got(e.consts, rest)
                     && ScanEach(s, |e.consts|) == e.refs)
    requires InBody(ns, body) && Selectable(Ranges(ns), chunkCount)
    ensures MidConsts(ok, s, [], ns, live, body, e, env, rest, 0)
  {
    hide GetValues, ScanEach, RunRecords, Separate;
    if ok {
      assert e.consts[0..] == e.consts && e.refs[0..] == e.refs;
      var zero := 0;
      forall j, a | 0 <= j < |ns| && 0 <= a < |ns[j].range.runs|
        ensures RunOff(ns[j], a, body, e, env, zero)
      {
        assert EntryFits(Ranges(ns)[j], chunkCount, -1);
      }
    }
  }

  lemma MidConstsDone(ok: bool, s: Bytes, slots: seq<Option<Value>>, ns0: seq<DeferredNS>, ns: seq<DeferredNS>,
                      live: seq<bool>, body: Bytes, e: Eager, env: Env, rest: Bytes)
    requires ok && MidConsts(ok, s, slots, ns, live, body, e, env, rest, |e.consts|)
    requires Ranges(ns) == Ranges(ns0) && RunsInPool(Ranges(ns0), |e.consts|)
    ensures s == rest && ConstsRead(Ok(()), slots, ns0, ns, live, body, e, env)
  {
    hide AllRunOffs, ScanEach;
  }

  lemma PastConsts(ns0: seq<DeferredNS>, live: seq<bool>, body: Bytes, e: Eager, env: Env)
    requires !RunsInPool(Ranges(ns0), |e.consts|)
    ensures ConstsRead(Err(RangePastConsts), [], ns0, [], live, body, e, env)
  {
    hide RunsInPool;
  }

  lemma Unmet(ns0: seq<DeferredNS>, live: seq<bool>, body: Bytes, e: Eager, env: Env, i: nat)
    requires i < |e.refs| && !DeferredConst(Ranges(ns0), i) && !AllLive(e.refs[i], live)
    requires RunsInPool(Ranges(ns0), |e.consts|)
    ensures ConstsRead(Err(DeferredOutside), [], ns0, [], live, body, e, env)
  {
    hide RunsInPool;
  }

  /** The bound check against the last run covers them all. */
  lemma LastRunBounds(runs: seq<DeferredRun>, sel: seq<NSRange>, n: int)
    requires RunsOf(runs, sel)
    ensures RunsInPool(sel, n) <==> runs == [] || runs[|runs| - 1].run.hi <= n
  {
    hide InRuns;
    if runs != [] {
      var last := runs[|runs| - 1];
      assert IsRun(last, sel);
      assert last.run == sel[last.ns].runs[last.idx];
      if last.run.hi <= n {
        forall j, a | 0 <= j < |sel| && 0 <= a < |sel[j].runs|
          ensures sel[j].runs[a].hi <= n
        {
          var t := DeferredRun(sel[j].runs[a], j, a);
          assert t in runs;
          var q :| 0 <= q < |runs| && runs[q] == t;
          if q < |runs| - 1 {
            LaterRun(runs, sel, q, |runs| - 1);
          }
        }
      }
    }
  }

  /** The section of constants is at the front of s. */
  ghost predicate ConstSection(s: Bytes, flag: bool, e: Eager, env: Env, rest: Bytes) {
    var h := GetConstHead(flag, s);
    && h.Got? && h.val.count < TWO63 && h.val.count == |e.consts| == |e.refs|
    && GetValues(h.rest, |e.consts|, env) == Got(e.consts, rest) && ScanEach(h.rest, |e.consts|) == e.refs
  }

  /** What noting run offsets leaves as it was. */
  ghost predicate SameButRuns(now: seq<DeferredNS>, ns: seq<DeferredNS>) {
    |now| == |ns| && forall j :: 0 <= j < |ns| ==> now[j] == ns[j].(runOffs := now[j].runOffs)
  }

  lemma NoteRunSame(now: seq<DeferredNS>, ns: seq<DeferredNS>, t: DeferredRun, off: nat)
    requires SameButRuns(now, ns) && t.ns < |now| && t.idx < |now[t.ns].runOffs|
    ensures SameButRuns(NoteRun(now, t, off), ns)
  {
  }

  lemma SameButRunsSelf(ns: seq<DeferredNS>)
    ensures SameButRuns(ns, ns)
  {
  }

  lemma SectionHead(ok: bool, s: Bytes, flag: bool, e: Eager, env: Env, rest: Bytes)
    requires ok ==> ConstSection(s, flag, e, env, rest)
    ensures var h := GetConstHead(flag, s);
      && (ok ==> h.Got? && h.val.count < TWO63 && h.val.count == |e.consts| == |e.refs|)
      && (ok ==> GetValues(h.rest, |e.consts|, env) == Got(e.consts, rest) && ScanEach(h.rest, |e.consts|) == e.refs)
  {
    hide GetConstHead, GetValues, ScanEach;
  }

  /** The records of the constants, n in all. */
  method ReadConstRecords(r: Reader, n: nat, env2: Env, ns0: seq<DeferredNS>, runs: seq<DeferredRun>, ghost ok: bool,
                          ghost e: Eager, ghost env: Env, ghost rest: Bytes)
    returns (o: Outcome<()>, slots: seq<Option<Value>>, ns: seq<DeferredNS>)
    requires r.Valid() && RunsOf(runs, Ranges(ns0)) && InBody(ns0, r.data) && Fresh(ns0)
    requires Selectable(Ranges(ns0), |env2.live|) && RunsInPool(Ranges(ns0), n)
    requires !env.wide && Compatible(env, env2)
    requires ok ==> n == |e.consts| == |e.refs|
    requires ok ==> GetValues(r.Rest(), n, env) == Got(e.consts, rest) && ScanEach(r.Rest(), n) == e.refs
    modifies r
    ensures r.Valid() && old(r.pos) <= r.pos
    ensures o.Ok? ==> Ranges(ns) == Ranges(ns0) && InBody(ns, r.data) && Fresh(ns) && SameButRuns(ns, ns0)
    ensures o.Ok? ==> |slots| == n && LazyConsts(old(r.Rest()), 0, n, Ranges(ns0), env2) == Got(slots, r.Rest())
    ensures ok ==> ConstsRead(o, slots, ns0, ns, env2.live, r.data, e, env) && (o.Ok? ==> r.Rest() == rest)
  {
    hide GetVarint, GetValue, GetValues, Scan, ScanEach, Selectable, RunsOf, InBody, Fresh, MidConsts, DeferredConst,
         LazyConsts, OnConsts, NoteRun, IsRun, AllLive, Compatible, RunsInPool, RefsMet, ConstSlots, AllRunOffs, InRun,
         Ranges, SameButRuns, ConstsRead;
    slots, ns := [], ns0;
    SameButRunsSelf(ns0);
    ghost var sel := Ranges(ns);
    var cursor := new Cursor(runs, sel);
    MidConstsStart(ok, r.Rest(), ns, env2.live, r.data, e, env, rest, |env2.live|);
    ghost var q := LazyConsts(r.Rest(), 0, n, sel, env2);
    OnConstsStart(r.Rest(), n, sel, env2);
    var i := 0;
    while i < n
      invariant 0 <= i <= n && r.Valid() && old(r.pos) <= r.pos && Ranges(ns) == sel && |slots| == i
      invariant cursor.At(sel, i) && cursor.runs == runs
      invariant InBody(ns, r.data) && Fresh(ns) && SameButRuns(ns, ns0)
      invariant MidConsts(ok, r.Rest(), slots, ns, env2.live, r.data, e, env, rest, i)
      invariant OnConsts(q, slots, r.Rest(), i, n, sel, env2)
    {
      ghost var s0, slots0 := r.Rest(), slots;
      var at := cursor.RunAt(sel, i);
      if at.Some? {
        var t := runs[at.value];
        RunIn(runs, sel, at.value, n);
        MidSkipConst(ok, slots, ns, env2.live, r.data, e, env, rest, i, r.pos, runs, at.value);
        NoteRunInBody(ns, t, r.data, r.pos);
        if i == t.run.lo {
          NoteRunSame(ns, ns0, t, r.pos);
          ns := NoteRun(ns, t, r.pos);
        }
        var skipped := SkipValue(r);
        if skipped.Err? {
          return skipped, [], [];
        }
        slots := slots + [None];
      } else {
        MidReadConst(ok, slots, ns, env2.live, r.data, e, env, rest, i, r.pos, env2);
        var v := ReadValue(r, env2);
        if v.Err? {
          if ok { Unmet(ns0, env2.live, r.data, e, env, i); }
          return Err(v.error), [], [];
        }
        slots := slots + [Some(v.value)];
      }
      OnConstsStep(q, slots0, s0, i, n, sel, env2);
      cursor.Advance(sel, i);
      i := i + 1;
    }
    OnConstsDone(q, slots, r.Rest(), n, sel, env2);
    if ok {
      MidConstsDone(ok, r.Rest(), slots, ns0, ns, env2.live, r.data, e, env, rest);
    }
    o := Ok(());
  }

  /** readConstsV2Into */
  method ReadConstsInto(r: Reader, flag: bool, env2: Env, ns0: seq<DeferredNS>, runs: seq<DeferredRun>,
                        ghost e: Eager, ghost env: Env, ghost rest: Bytes)
    returns (o: Outcome<()>, slots: seq<Option<Value>>, ns: seq<DeferredNS>)
    requires r.Valid() && RunsOf(runs, Ranges(ns0)) && InBody(ns0, r.data) && Fresh(ns0)
    requires Selectable(Ranges(ns0), |env2.live|)
    requires !env.wide && Compatible(env, env2)
    modifies r
    ensures r.Valid() && old(r.pos) <= r.pos
    ensures o.Ok? ==> Ranges(ns) == Ranges(ns0) && InBody(ns, r.data) && Fresh(ns) && SameButRuns(ns, ns0)
    ensures o.Ok? ==> RunsInPool(Ranges(ns0), |slots|)
    ensures old(ConstSection(r.Rest(), flag, e, env, rest)) ==>
        ConstsRead(o, slots, ns0, ns, env2.live, r.data, e, env) && (o.Ok? ==> r.Rest() == rest)
    ensures o.Ok? ==> LazyConstSection(flag, old(r.Rest()), Ranges(ns0), env2) == Got(slots, r.Rest())
  {
    hide GetValues, ScanEach, Selectable, RunsOf, InBody, Fresh, LazyConsts, Compatible, RunsInPool, GetConstHead,
         Ranges,
         SameButRuns, ConstsRead, ConstSection;
    ghost var ok := ConstSection(r.Rest(), flag, e, env, rest);
    SectionHead(ok, r.Rest(), flag, e, env, rest);
    var head := ReadConstHead(r, flag);
    if head.Err? {
      return Err(head.error), [], [];
    }
    var n := if head.value.count >= TWO63 then 0 else head.value.count;
    LastRunBounds(runs, Ranges(ns0), n);
    if runs != [] && runs[|runs| - 1].run.hi > n {
      if ok { PastConsts(ns0, env2.live, r.data, e, env); }
      return Err(RangePastConsts), [], [];
    }
    o, slots, ns := ReadConstRecords(r, n, env2, ns0, runs, ok, e, env, rest);
  }

  lemma RunIn(runs: seq<DeferredRun>, sel: seq<NSRange>, p: nat, n: int)
    requires RunsOf(runs, sel) && p < |runs| && RunsInPool(sel, n)
    ensures IsRun(runs[p], sel) && runs[p].run.hi <= n
  {
  }

  // --------------------------------------------------- local-variable tables

  ghost predicate TableSlots(out: seq<Option<LiveChunk>>, slots: seq<Option<LiveChunk>>, tables: seq<seq<LocalVar>>,
                             i: nat)
  {
    && |out| == i <= |slots| == |tables|
    && forall k :: 0 <= k < i ==>
        out[k] == if slots[k].None? then None else Some(slots[k].value.(localVars := tables[k]))
  }

  ghost predicate TableOffs(d: DeferredNS, body: Bytes, tables: seq<seq<LocalVar>>, strings: seq<Str>, i: nat) {
    && d.mainLVOff <= |body| && d.lvOff <= |body| && EntryFits(d.range, |tables|, -1)
    && (d.range.mainChunk < i ==>
          d.mainLVOff >= 0 && TableRecord(body[d.mainLVOff..], tables[d.range.mainChunk], strings))
    && (d.range.chunkLo < d.range.chunkHi && d.range.chunkLo < i ==>
          d.lvOff >= 0 && TableRecords(body[d.lvOff..], tables[d.range.chunkLo..d.range.chunkHi], strings))
  }

  ghost predicate AllTableOffs(ns: seq<DeferredNS>, body: Bytes, tables: seq<seq<LocalVar>>, strings: seq<Str>,
                               i: nat) {
    forall j :: 0 <= j < |ns| ==> TableOffs(ns[j], body, tables, strings, i)
  }

  function NoteTable(d: DeferredNS, k: nat, off: nat): DeferredNS {
    if k == d.range.mainChunk then d.(mainLVOff := off)
    else if k == d.range.chunkLo then d.(lvOff := off)
    else d
  }

  lemma OtherTable(d: DeferredNS, body: Bytes, tables: seq<seq<LocalVar>>, strings: seq<Str>, i: nat)
    requires TableOffs(d, body, tables, strings, i) && !OwnsChunk(d.range, i)
    ensures TableOffs(d, body, tables, strings, i + 1)
  {
    hide TableRecord, TableRecords;
  }

  lemma OwnTable(d: DeferredNS, body: Bytes, tables: seq<seq<LocalVar>>, strings: seq<Str>, i: nat, off: nat,
                 rest: Bytes)
    requires TableOffs(d, body, tables, strings, i) && OwnsChunk(d.range, i) && i < |tables|
    requires !InChunkRun(d.range, d.range.mainChunk)
    requires off <= |body| && TablesAt(body[off..], tables, strings, i, rest)
    ensures TableOffs(NoteTable(d, i, off), body, tables, strings, i + 1)
  {
    hide TableRecord, TableRecords, TablesAt;
    TablesAhead(body[off..], tables, strings, i, i + 1, rest);
    if i == d.range.chunkLo && d.range.chunkLo < d.range.chunkHi {
      TablesAhead(body[off..], tables, strings, i, d.range.chunkHi, rest);
    }
  }

  lemma NoteTableKeeps(ns: seq<DeferredNS>, body: Bytes, tables: seq<seq<LocalVar>>, strings: seq<Str>, i: nat, j: nat,
                       off: nat, rest: Bytes)
    requires AllTableOffs(ns, body, tables, strings, i) && i < |tables| && j < |ns|
    requires Selectable(Ranges(ns), |tables|) && OwnsChunk(ns[j].range, i)
    requires off <= |body| && TablesAt(body[off..], tables, strings, i, rest)
    ensures AllTableOffs(ns[j := NoteTable(ns[j], i, off)], body, tables, strings, i + 1)
  {
    hide TableOffs, TablesAt, Separate, OwnsChunk, EntryFits;
    var now := ns[j := NoteTable(ns[j], i, off)];
    var next := i + 1;
    forall h | 0 <= h < |now|
      ensures TableOffs(now[h], body, tables, strings, next)
    {
      if h != j {
        if OwnsChunk(ns[h].range, i) {
          OneOwner(Ranges(ns), |tables|, h, j, i);
        }
        OtherTable(ns[h], body, tables, strings, i);
      } else {
        OwnTable(ns[j], body, tables, strings, i, off, rest);
      }
    }
  }

  lemma PassTable(ns: seq<DeferredNS>, body: Bytes, tables: seq<seq<LocalVar>>, strings: seq<Str>, i: nat)
    requires AllTableOffs(ns, body, tables, strings, i) && !DeferredChunk(Ranges(ns), i)
    ensures AllTableOffs(ns, body, tables, strings, i + 1)
  {
    hide TableOffs, OwnsChunk;
    var next := i + 1;
    forall j | 0 <= j < |ns|
      ensures TableOffs(ns[j], body, tables, strings, next)
    {
      assert !OwnsChunk(Ranges(ns)[j], i);
      OtherTable(ns[j], body, tables, strings, i);
    }
  }

  /** Between two tables. */
  ghost predicate MidTables(ok: bool, s: Bytes, out: seq<Option<LiveChunk>>, slots: seq<Option<LiveChunk>>,
                            ns: seq<DeferredNS>, body: Bytes, tables: seq<seq<LocalVar>>, strings: seq<Str>,
                            rest: Bytes, i: nat)
  {
    ok ==>
      && TablesAt(s, tables, strings, i, rest) && AllTableOffs(ns, body, tables, strings, i)
      && TableSlots(out, slots, tables, i)
  }

  lemma MidSkipTable(ok: bool, out: seq<Option<LiveChunk>>, slots: seq<Option<LiveChunk>>, ns: seq<DeferredNS>,
                     body: Bytes, tables: seq<seq<LocalVar>>, strings: seq<Str>, rest: Bytes, i: nat, off: nat, j: nat)
    requires off <= |body| < TWO63 && MidTables(ok, body[off..], out, slots, ns, body, tables, strings, rest, i)
    requires i < |slots| && slots[i].None? && j < |ns| && OwnsChunk(ns[j].range, i) && Selectable(Ranges(ns), |slots|)
    ensures var q, now := ScanLocals(body[off..]), ns[j := NoteTable(ns[j], i, off)];
      && (ok ==> q.Got?)
      && (q.Got? ==> MidTables(ok, q.rest, out + [None], slots, now, body, tables, strings, rest, i + 1))
  {
    hide ScanLocals, GetLocals, TablesAt, AllTableOffs, Selectable, NoteTable;
    if ok {
      TableStep(body[off..], tables, strings, i, rest);
      NoteTableKeeps(ns, body, tables, strings, i, j, off, rest);
    }
  }

  lemma MidReadTable(ok: bool, out: seq<Option<LiveChunk>>, slots: seq<Option<LiveChunk>>, ns: seq<DeferredNS>,
                     body: Bytes, tables: seq<seq<LocalVar>>, strings: seq<Str>, rest: Bytes, i: nat, off: nat)
    requires off <= |body| < TWO63 && MidTables(ok, body[off..], out, slots, ns, body, tables, strings, rest, i)
    requires i < |slots| && slots[i].Some? && !DeferredChunk(Ranges(ns), i)
    ensures var q := GetLocals(body[off..], strings, true);
      && (ok ==> q.Got?)
      && (q.Got? ==> MidTables(ok, q.rest, out + [Some(slots[i].value.(localVars := q.val))], slots, ns, body, tables,
                               strings, rest, i + 1))
  {
    hide ScanLocals, GetLocals, TablesAt, AllTableOffs;
    if ok {
      TableStep(body[off..], tables, strings, i, rest);
      PassTable(ns, body, tables, strings, i);
    }
  }

  lemma MidTablesStart(ok: bool, s: Bytes, slots: seq<Option<LiveChunk>>, ns: seq<DeferredNS>, body: Bytes,
                       tables: seq<seq<LocalVar>>, strings: seq<Str>, rest: Bytes)
    requires ok ==> |tables| == |slots| && GetLocalTables(s, |tables|, strings, false) == Got(tables, rest)
    requires InBody(ns, body) && Selectable(Ranges(ns), |slots|)
    ensures MidTables(ok, s, [], slots, ns, body, tables, strings, rest, 0)
  {
    hide GetLocals, Separate, TableRecord, TableRecords;
    if ok {
      assert tables[0..] == tables;
      forall j | 0 <= j < |ns|
        ensures EntryFits(ns[j].range, |tables|, -1)
      {
        assert EntryFits(Ranges(ns)[j], |slots|, -1);
      }
    }
  }

  lemma MidTablesDone(s: Bytes, out: seq<Option<LiveChunk>>, slots: seq<Option<LiveChunk>>, ns: seq<DeferredNS>,
                      body: Bytes, tables: seq<seq<LocalVar>>, strings: seq<Str>, rest: Bytes)
    requires MidTables(true, s, out, slots, ns, body, tables, strings, rest, |slots|)
    ensures s == rest && AllTableOffs(ns, body, tables, strings, |slots|) && TableSlots(out, slots, tables, |slots|)
  {
    hide GetLocals, AllTableOffs;
  }

  /** Unmaterialized namespaces. */
  ghost predicate Waiting(ns: seq<DeferredNS>) {
    forall j :: 0 <= j < |ns| ==> ns[j].main.None?
  }

  lemma NoteTableInBody(ns: seq<DeferredNS>, body: Bytes, j: nat, k: nat, off: nat)
    requires InBody(ns, body) && Waiting(ns) && j < |ns| && off <= |body|
    ensures var now := ns[j := NoteTable(ns[j], k, off)]; InBody(now, body) && Waiting(now) && Ranges(now) == Ranges(ns)
  {
  }

  /** What noting table offsets leaves as it was. */
  ghost predicate SameRecords(now: seq<DeferredNS>, ns: seq<DeferredNS>) {
    |now| == |ns| && forall j :: 0 <= j < |ns| ==> now[j] == ns[j].(mainLVOff := now[j].mainLVOff, lvOff := now[j].lvOff)
  }

  lemma NoteTableSame(now: seq<DeferredNS>, ns: seq<DeferredNS>, j: nat, k: nat, off: nat)
    requires SameRecords(now, ns) && j < |ns|
    ensures SameRecords(now[j := NoteTable(now[j], k, off)], ns)
  {
  }

  /** readLocalVarTablesInto */
  method ReadTablesInto(r: Reader, strings: seq<Str>, slots: seq<Option<LiveChunk>>, ns0: seq<DeferredNS>,
                        ghost tables: seq<seq<LocalVar>>, ghost rest: Bytes)
    returns (o: Outcome<()>, out: seq<Option<LiveChunk>>, ns: seq<DeferredNS>)
    requires r.Valid() && |r.data| < TWO63 && InBody(ns0, r.data) && Waiting(ns0) && Selectable(Ranges(ns0), |slots|)
    requires Empties(slots, Ranges(ns0))
    modifies r
    ensures r.Valid() && old(r.pos) <= r.pos
    ensures o.Ok? ==> InBody(ns, r.data) && Waiting(ns) && SameRecords(ns, ns0) && |out| == |slots|
    ensures o.Ok? ==> Ranges(ns) == Ranges(ns0)
    ensures |tables| == |slots| && old(GetLocalTables(r.Rest(), |tables|, strings, false)) == Got(tables, rest) ==>
        && o.Ok? && r.Rest() == rest
        && AllTableOffs(ns, r.data, tables, strings, |slots|) && TableSlots(out, slots, tables, |slots|)
    ensures o.Ok? ==> LazyTables(old(r.Rest()), slots, strings) == Got(out, r.Rest())
  {
    hide GetLocals, GetLocalTables, ScanLocals, Selectable, InBody, Waiting, MidTables, NoteTable, DeferredChunk,
         OwnsChunk, LazyTables, OnTables, SameRecords, TableSlots, AllTableOffs;
    ghost var ok := |tables| == |slots| && GetLocalTables(r.Rest(), |tables|, strings, false) == Got(tables, rest);
    ghost var sel := Ranges(ns0);
    out, ns := [], ns0;
    MidTablesStart(ok, r.Rest(), slots, ns, r.data, tables, strings, rest);
    assert SameRecords(ns, ns0) by { SameSelf(ns0); }
    ghost var q := LazyTables(r.Rest(), slots, strings);
    OnTablesStart(r.Rest(), slots, strings);
    var i := 0;
    while i < |slots|
      invariant 0 <= i <= |slots| && r.Valid() && old(r.pos) <= r.pos && Ranges(ns) == sel && |out| == i
      invariant InBody(ns, r.data) && Waiting(ns) && SameRecords(ns, ns0)
      invariant MidTables(ok, r.Rest(), out, slots, ns, r.data, tables, strings, rest, i)
      invariant OnTables(q, out, r.Rest(), i, slots, strings)
    {
      ghost var s0, out0 := r.Rest(), out;
      if slots[i].None? {
        var owner := OwnerOfChunk(Ranges(ns), i);
        var j := owner.value;
        NoteTableInBody(ns, r.data, j, i, r.pos);
        NoteTableSame(ns, ns0, j, i, r.pos);
        MidSkipTable(ok, out, slots, ns, r.data, tables, strings, rest, i, r.pos, j);
        ns := ns[j := NoteTable(ns[j], i, r.pos)];
        var skipped := SkipLocals(r);
        if skipped.Err? {
          return skipped, [], [];
        }
        out := out + [None];
      } else {
        MidReadTable(ok, out, slots, ns, r.data, tables, strings, rest, i, r.pos);
        var lvs := ReadLocals(r, strings);
        if lvs.Err? {
          return Err(lvs.error), [], [];
        }
        out := out + [Some(slots[i].value.(localVars := lvs.value))];
      }
      OnTablesStep(q, out0, s0, i, slots, strings);
      i := i + 1;
    }
    OnTablesDone(q, out, r.Rest(), slots, strings);
    if ok {
      MidTablesDone(r.Rest(), out, slots, ns, r.data, tables, strings, rest);
    }
    o := Ok(());
  }

  lemma SameSelf(ns: seq<DeferredNS>)
    ensures SameRecords(ns, ns)
  {
  }

  // --------------------------------------------------------------- migration

  /** A chunk's code rewritten by the remap in place. */
  method RemapChunk(c: LiveChunk) returns (m: LiveChunk)
    ensures m == c.(code := Remap(c.code))
  {
    var code := new I32[|c.code|](i requires 0 <= i < |c.code| => c.code[i]);
    assert code[..] == c.code;
    RemapInPlace(code);
    m := c.(code := code[..]);
  }

  function Remapped(slot: Option<LiveChunk>): Option<LiveChunk> {
    if slot.None? then None else Some(slot.value.(code := Remap(slot.value.code)))
  }

  /** The remap over the decoded chunks: each once, the empty slots left out. */
  method RemapDecoded(slots: seq<Option<LiveChunk>>) returns (out: seq<Option<LiveChunk>>)
    ensures |out| == |slots|
    ensures forall k :: 0 <= k < |slots| ==> out[k] == Remapped(slots[k])
  {
    hide Remap;
    out := [];
    for k := 0 to |slots|
      invariant |out| == k
      invariant forall j :: 0 <= j < k ==> out[j] == Remapped(slots[j])
    {
      if slots[k].None? {
        out := out + [None];
      } else {
        var c := RemapChunk(slots[k].value);
        out := out + [Some(c)];
      }
    }
  }
}
