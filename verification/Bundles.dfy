/** DecodeBundle: the eager pass over a whole bundle, the unit it makes, and NSChunk. */
module Bundles {
  import opened Wire
  import opened Stream
  import opened Values
  import opened ValueProofs
  import opened ValueCodec
  import opened Chunks
  import opened ChunkCodec
  import opened Sections
  import opened Sorting
  import opened Modules
  import opened ModuleCodec
  import opened Migration
  import opened Validation
  import opened Selection
  import opened EagerDecode
  import opened LazyRead
  import opened LazyDecode
  import opened Refill
  import opened Deferred

  // ------------------------------------------------------- the namespace table

  /** Each name of the selection, with the last entry of that name. */
  ghost predicate NameIndex(byName: map<Str, nat>, sel: seq<NSRange>) {
    && (forall x :: x in byName ==> byName[x] < |sel| && sel[byName[x]].name == x)
    && (forall j :: 0 <= j < |sel| ==> sel[j].name in byName && j <= byName[sel[j].name])
  }

  method BuildNames(sel: seq<NSRange>) returns (byName: map<Str, nat>)
    ensures NameIndex(byName, sel)
  {
    byName := map[];
    for j := 0 to |sel|
      invariant forall x :: x in byName ==> byName[x] < j && sel[byName[x]].name == x
      invariant forall i :: 0 <= i < j ==> sel[i].name in byName && i <= byName[sel[i].name]
    {
      byName := byName[sel[j].name := j];
    }
  }

  /** Every index of the table is a chunk, and a deferred namespace's is its main one. */
  ghost predicate TableAgrees(table: map<Str, I64>, sel: seq<NSRange>, byName: map<Str, nat>, n: nat)
    requires forall x :: x in byName ==> byName[x] < |sel|
  {
    forall x :: x in table ==> EntryAgrees(table[x], x, sel, byName, n)
  }

  predicate EntryAgrees(idx: I64, x: Str, sel: seq<NSRange>, byName: map<Str, nat>, n: nat)
    requires x in byName ==> byName[x] < |sel|
  {
    0 <= idx < n && (x in byName ==> sel[byName[x]].mainChunk == idx)
  }

  /** The main chunks of the namespaces that are not deferred. */
  ghost predicate EagerMains(nsChunks: map<Str, Option<LiveChunk>>, table: map<Str, I64>, byName: map<Str, nat>,
                             slots: seq<Option<LiveChunk>>)
  {
    && nsChunks.Keys == table.Keys - byName.Keys
    && forall x :: x in nsChunks ==> 0 <= table[x] < |slots| && nsChunks[x] == slots[table[x]]
  }

  /** The loop over the table, in whatever order. */
  method NameChunks(table: map<Str, I64>, sel: seq<NSRange>, byName: map<Str, nat>, slots: seq<Option<LiveChunk>>)
    returns (o: Outcome<()>, nsChunks: map<Str, Option<LiveChunk>>)
    requires forall x :: x in byName ==> byName[x] < |sel|
    requires forall j :: 0 <= j < |sel| ==> sel[j].mainChunk >= 0
    ensures o.Ok? <==> TableAgrees(table, sel, byName, |slots|)
    ensures o.Err? ==> o.error == BadNSTable || o.error == Panic
    ensures o.Ok? ==> EagerMains(nsChunks, table, byName, slots)
  {
    nsChunks := map[];
    var left := table.Keys;
    while left != {}
      invariant left <= table.Keys
      invariant forall x :: x in table && x !in left ==> EntryAgrees(table[x], x, sel, byName, |slots|)
      invariant nsChunks.Keys == table.Keys - left - byName.Keys
      invariant forall x :: x in nsChunks ==> 0 <= table[x] < |slots| && nsChunks[x] == slots[table[x]]
      decreases left
    {
      var x :| x in left;
      var idx := table[x];
      if idx >= |slots| {
        return Err(BadNSTable), map[];
      }
      if x in byName {
        if sel[byName[x]].mainChunk != idx {
          return Err(BadNSTable), map[];
        }
      } else {
        if idx < 0 {
          return Err(Panic), map[];
        }
        nsChunks := nsChunks[x := slots[idx]];
      }
      left := left - {x};
    }
    o := Ok(());
  }

  function IndexOf(table: map<Str, I64>, x: Str): I64 {
    if x in table then table[x] else 0
  }

  /** The names of the table in the order of their chunk indices. */
  method OrderNames(table: map<Str, I64>) returns (order: seq<Str>)
    ensures multiset(order) == multiset(table.Keys)
    ensures Ordered(order, (a: Str, b: Str) => IndexOf(table, a) < IndexOf(table, b))
  {
    var left, listed := table.Keys, [];
    while left != {}
      invariant left <= table.Keys && multiset(listed) + multiset(left) == multiset(table.Keys)
      decreases left
    {
      var x :| x in left;
      assert multiset(left) == multiset(left - {x}) + multiset{x};
      listed, left := listed + [x], left - {x};
    }
    var a := new Str[|listed|](i requires 0 <= i < |listed| => listed[i]);
    assert a[..] == listed;
    InsertionSort(a, (a: Str, b: Str) => IndexOf(table, a) < IndexOf(table, b));
    order := a[..];
  }

  /** The greatest index in the table. */
  ghost predicate IsLast(table: map<Str, I64>, m: int) {
    (exists x :: x in table && table[x] == m) && forall x :: x in table ==> table[x] <= m
  }

  /** Which chunk is the unit's main one: that of "core" if it was decoded, else that of
      the namespace with the greatest chunk index, else chunk 0. */
  ghost predicate IsMain(table: map<Str, I64>, deferred: set<Str>, m: int) {
    if CORE in table && CORE !in deferred then m == table[CORE]
    else if table.Keys != {} then IsLast(table, m)
    else m == 0
  }

  lemma LastOrdered(table: map<Str, I64>, order: seq<Str>)
    requires multiset(order) == multiset(table.Keys)
    requires Ordered(order, (a: Str, b: Str) => IndexOf(table, a) < IndexOf(table, b))
    ensures order == [] <==> table.Keys == {}
    ensures order != [] ==> order[|order| - 1] in table && IsLast(table, table[order[|order| - 1]])
  {
    forall x
      ensures x in order <==> x in table
    {
      assert x in multiset(order) <==> x in multiset(table.Keys);
    }
    if order != [] {
      var last := order[|order| - 1];
      assert last in order;
      forall x | x in table
        ensures table[x] <= table[last]
      {
        var i :| 0 <= i < |order| && order[i] == x;
      }
    }
  }

  /** The unit's main chunk, which cannot be one left undecoded. */
  method ChooseMain(table: map<Str, I64>, sel: seq<NSRange>, byName: map<Str, nat>, slots: seq<Option<LiveChunk>>,
                    nsChunks: map<Str, Option<LiveChunk>>)
    returns (o: Outcome<Option<LiveChunk>>, order: seq<Str>, ghost m: int)
    requires |slots| > 0 && EagerMains(nsChunks, table, byName, slots)
    requires forall x :: x in byName ==> byName[x] < |sel|
    requires TableAgrees(table, sel, byName, |slots|)
    ensures IsMain(table, byName.Keys, m) && 0 <= m < |slots|
    ensures multiset(order) == multiset(table.Keys)
    ensures Ordered(order, (a: Str, b: Str) => IndexOf(table, a) < IndexOf(table, b))
    ensures o == if (CORE !in table || CORE in byName) && m != 0 && slots[m].None? then Err(MainDeferred) else Ok(slots[m])
  {
    hide Ordered, EntryAgrees;
    order := OrderNames(table);
    LastOrdered(table, order);
    assert forall x :: x in table ==> 0 <= table[x] < |slots| by {
      InTable(table, sel, byName, |slots|);
    }
    if CORE in nsChunks {
      m := table[CORE];
      return Ok(nsChunks[CORE]), order, m;
    }
    if order == [] {
      return Ok(slots[0]), order, 0;
    }
    var last := order[|order| - 1];
    var idx := table[last];
    m := idx;
    if idx != 0 && slots[idx].None? {
      return Err(MainDeferred), order, m;
    }
    o := Ok(slots[idx]);
  }

  lemma InTable(table: map<Str, I64>, sel: seq<NSRange>, byName: map<Str, nat>, n: nat)
    requires forall x :: x in byName ==> byName[x] < |sel|
    requires TableAgrees(table, sel, byName, n)
    ensures forall x :: x in table ==> 0 <= table[x] < n
  {
    forall x | x in table
      ensures 0 <= table[x] < n
    {
      assert EntryAgrees(table[x], x, sel, byName, n);
    }
  }

  /** Every deferred namespace is in the table. */
  ghost predicate AllNamed(sel: seq<NSRange>, table: map<Str, I64>) {
    forall j :: 0 <= j < |sel| ==> sel[j].name in table
  }

  method CheckNamed(sel: seq<NSRange>, table: map<Str, I64>) returns (ok: bool)
    ensures ok <==> AllNamed(sel, table)
  {
    for j := 0 to |sel|
      invariant forall i :: 0 <= i < j ==> sel[i].name in table
    {
      if sel[j].name !in table {
        return false;
      }
    }
    return true;
  }

  // ------------------------------------------------------------ the verdict

  /** The chunks the eager pass decodes. */
  ghost function EagerLive(sel: seq<NSRange>, n: nat): (live: seq<bool>)
    ensures |live| == n && forall k :: 0 <= k < n ==> live[k] == !DeferredChunk(sel, k)
  {
    seq(n, k => !DeferredChunk(sel, k))
  }

  ghost predicate BadTable(e: Eager, choice: Choice) {
    choice.Some? && e.ranges != [] && !ValidRanges(e.ranges, |e.chunks|, -1)
  }

  /** The namespace table fits the selection, and the unit's main chunk is decoded. */
  ghost predicate TableFits(e: Eager, sel: seq<NSRange>, byName: map<Str, nat>, m: int) {
    && NameIndex(byName, sel) && TableAgrees(e.table, sel, byName, |e.chunks|) && AllNamed(sel, e.table)
    && IsMain(e.table, byName.Keys, m) && !MainMissing(e, sel, byName, m)
  }

  ghost predicate MainMissing(e: Eager, sel: seq<NSRange>, byName: map<Str, nat>, m: int) {
    (CORE !in e.table || CORE in byName) && m != 0 && DeferredChunk(sel, m)
  }

  /** Why the tail of the decode refuses the namespace table. */
  ghost predicate RefusesTable(error: DecodeError, e: Eager, sel: seq<NSRange>, byName: map<Str, nat>, m: int) {
    && NameIndex(byName, sel)
    && (!TableAgrees(e.table, sel, byName, |e.chunks|) ==> error == BadNSTable || error == Panic)
    && (TableAgrees(e.table, sel, byName, |e.chunks|) ==>
          if !IsMain(e.table, byName.Keys, m) then false
          else if MainMissing(e, sel, byName, m) then error == MainDeferred
          else error == BadNSTable && !AllNamed(sel, e.table))
  }

  /** Why a bundle all of which decodes is refused when the entries of sel are deferred. */
  ghost predicate Refuses(error: DecodeError, e: Eager, choice: Choice, sel: seq<NSRange>) {
    if BadTable(e, choice) then error == BadRanges
    else Chooses(sel, e.ranges, choice) && RefusesChosen(error, e, sel)
  }

  ghost predicate RefusesChosen(error: DecodeError, e: Eager, sel: seq<NSRange>) {
    if !RunsInPool(sel, |e.consts|) then error == RangePastConsts
    else if !RefsMet(e.refs, sel, EagerLive(sel, |e.chunks|), |e.refs|) then error == DeferredOutside
    else if e.chunks == [] then error == NoChunks
    else exists byName, m :: RefusesTable(error, e, sel, byName, m)
  }

  /** What a successful decode establishes. */
  ghost predicate Accepts(e: Eager, choice: Choice, sel: seq<NSRange>) {
    && !BadTable(e, choice) && Chooses(sel, e.ranges, choice)
    && RunsInPool(sel, |e.consts|) && RefsMet(e.refs, sel, EagerLive(sel, |e.chunks|), |e.refs|)
    && e.chunks != []
  }

  // --------------------------------------------------------- the eager pass

  /** The final state of the chunk slots. */
  ghost predicate FinalSlots(slots: seq<Option<LiveChunk>>, sel: seq<NSRange>, e: Eager, migrate: bool)
    requires Sized(e)
  {
    && |slots| == |e.chunks|
    && forall k :: 0 <= k < |slots| ==>
      slots[k] == if DeferredChunk(sel, k) then None else Some(FinalChunk(e, migrate, k))
  }

  lemma SlotsFinal(slots: seq<Option<LiveChunk>>, slots1: seq<Option<LiveChunk>>, slots0: seq<Option<LiveChunk>>,
                   sel: seq<NSRange>, e: Eager, migrate: bool, tabled: bool, ns: seq<DeferredNS>, body: Bytes)
    requires Sized(e) && ChunkSlots(slots0, sel, e.chunks, |e.chunks|) && |slots1| == |slots0|
    requires forall k :: 0 <= k < |slots0| ==> slots1[k] == if migrate then Remapped(slots0[k]) else slots0[k]
    requires Tabled(tabled, slots, slots1, ns, body, e.locals, e.strings)
    ensures FinalSlots(slots, sel, e, migrate)
  {
    hide Remap, DeferredChunk, AllTableOffs;
  }

  /** The offsets the three sections noted. */
  lemma NowLocated(ns: seq<DeferredNS>, ns2: seq<DeferredNS>, ns1: seq<DeferredNS>, body: Bytes, e: Eager, flags: Flags,
                   valid: TextParsers, slots: seq<Option<LiveChunk>>, slots1: seq<Option<LiveChunk>>)
    requires AllChunkOffs(ns1, body, e.chunks, |e.chunks|)
    requires SameButRuns(ns2, ns1) && AllRunOffs(ns2, body, e, WholeEnv(e, valid), |e.consts|)
    requires SameRecords(ns, ns2)
    requires |slots1| == |e.chunks| && Tabled(flags.localVars, slots, slots1, ns, body, e.locals, e.strings)
    ensures Located(ns, body, e, flags, valid)
  {
    hide ChunkRecord, ChunkRecords, RunRecords, TableOffs, TableSlots, WholeEnv;
    var n, env := |e.chunks|, WholeEnv(e, valid);
    forall h | 0 <= h < |ns|
      ensures ChunkOffs(ns[h], body, e.chunks, n)
    {
      assert ChunkOffs(ns1[h], body, e.chunks, n);
    }
    forall h, a | 0 <= h < |ns| && 0 <= a < |ns[h].range.runs|
      ensures RunOff(ns[h], a, body, e, env, |e.consts|)
    {
      assert RunOff(ns2[h], a, body, e, env, |e.consts|);
    }
  }

  lemma FreshState(slots: seq<Option<LiveChunk>>, pool: seq<Option<Value>>, ns: seq<DeferredNS>, e: Eager,
                   migrate: bool)
    requires Sized(e) && FinalSlots(slots, Ranges(ns), e, migrate) && ConstSlots(pool, Ranges(ns), e.consts, |e.consts|)
    requires Waiting(ns)
    ensures Faithful(slots, pool, e, migrate) && StateIs(slots, pool, ns, {})
    ensures forall j :: 0 <= j < |ns| ==> Complete(ns[j], slots, pool, e, migrate)
  {
    hide FinalChunk, DeferredChunk, DeferredConst;
  }

  lemma LiveIsEager(slots: seq<Option<LiveChunk>>, sel: seq<NSRange>, cs: seq<LiveChunk>,
                    slots1: seq<Option<LiveChunk>>,
                    migrate: bool)
    requires ChunkSlots(slots, sel, cs, |cs|) && |slots1| == |slots|
    requires forall k :: 0 <= k < |slots| ==> slots1[k] == if migrate then Remapped(slots[k]) else slots[k]
    ensures Live(slots1) == EagerLive(sel, |cs|)
    ensures forall k :: 0 <= k < |slots1| ==> (slots1[k].None? <==> DeferredChunk(sel, k))
  {
    hide Remap, DeferredChunk;
    assert Live(slots1) == EagerLive(sel, |cs|);
  }

  /** The parts of the successful parse that the section readers need. */
  lemma EagerParts(f: Flags, s: Bytes, valid: TextParsers, e: Eager, rest: Bytes)
    requires GetEager(f, s, valid) == Got(e, rest)
    ensures var p1 := GetStrings(s);
      && p1.Got? && p1.val == e.strings
      && var p2 := GetRanges(f.nsRanges, p1.rest, e.strings);
      && p2.Got? && p2.val == e.ranges
      && var p3 := GetLiveChunks(p2.rest, false);
      && p3.Got? && p3.val == e.chunks && GetAfterChunks(f, p3.rest, e.strings, e.ranges, e.chunks, valid) == Got(e, rest)
  {
    hide GetStrings, GetRanges, GetLiveChunks, GetConstHead, GetValues, GetNSTable, GetTables, ScanEach;
  }

  lemma AfterParts(f: Flags, s: Bytes, valid: TextParsers, e: Eager, rest: Bytes) returns (s2: Bytes)
    requires GetAfterChunks(f, s, e.strings, e.ranges, e.chunks, valid) == Got(e, rest)
    ensures ConstSection(s, f.constsBase, e, WholeEnv(e, valid), s2)
    ensures var p := GetNSTable(s2, e.strings);
      p.Got? && p.val == e.table && GetTables(f.localVars, p.rest, |e.chunks|, e.strings) == Got(e.locals, rest)
  {
    hide GetConstHead, GetValues, GetNSTable, GetTables, ScanEach;
    var h := GetConstHead(f.constsBase, s);
    s2 := GetValues(h.rest, h.val.count, WholeEnv(e, valid)).rest;
  }

  /** What the eager pass collects. */
  datatype Pass = Pass(strings: seq<Str>, ranges: seq<NSRange>, chunks: seq<Option<LiveChunk>>,
                       consts: seq<Option<Value>>, ns: seq<DeferredNS>, table: map<Str, I64>)

  /** What a body holds when the entries of sel are left out. */
  datatype LazyUnit = LazyUnit(flags: Flags, strings: seq<Str>, ranges: seq<NSRange>, chunks: seq<Option<LiveChunk>>,
                               consts: seq<Option<Value>>, table: map<Str, I64>)

  function AllRemapped(slots: seq<Option<LiveChunk>>): (r: seq<Option<LiveChunk>>)
    ensures |r| == |slots| && forall k :: 0 <= k < |r| ==> r[k] == Remapped(slots[k])
  {
    seq(|slots|, k requires 0 <= k < |slots| => Remapped(slots[k]))
  }

  function LazyTail(flag: bool, s: Bytes, slots: seq<Option<LiveChunk>>,
                    strings: seq<Str>): Parse<seq<Option<LiveChunk>>> {
    if flag then LazyTables(s, slots, strings) else Got(slots, s)
  }

  /** The sections of any body, in order; the records of sel are skipped. */
  function LazyBody(f: Flags, migrate: bool, s: Bytes, valid: TextParsers, sel: seq<NSRange>): Parse<LazyUnit> {
    var (strings, s1) :- GetStrings(s);
    var (ranges, s2) :- GetRanges(f.nsRanges, s1, strings);
    var (slots, s3) :- LazyChunkSection(s2, sel);
    var chunks := if migrate then AllRemapped(slots) else slots;
    var (consts, s4) :- LazyConstSection(f.constsBase, s3, sel, Env(strings, Live(chunks), valid, true));
    var (table, s5) :- GetNSTable(s4, strings);
    var (done, s6) :- LazyTail(f.localVars, s5, chunks, strings);
    Got(LazyUnit(f, strings, ranges, done, consts, table), s6)
  }

  /** The pass has collected what it read. */
  ghost predicate Collects(p: Pass, f: Flags, migrate: bool, s: Bytes, valid: TextParsers, choice: Choice,
                           rest: Bytes) {
    && LazyBody(f, migrate, s, valid, Ranges(p.ns))
         == Got(LazyUnit(f, p.strings, p.ranges, p.chunks, p.consts, p.table), rest)
    && Chooses(Ranges(p.ns), p.ranges, choice)
  }

  lemma BodyRead(f: Flags, migrate: bool, s: Bytes, valid: TextParsers, choice: Choice, p: Pass,
                 slots: seq<Option<LiveChunk>>,
                 chunks: seq<Option<LiveChunk>>, s1: Bytes, s2: Bytes, s3: Bytes, s4: Bytes, s5: Bytes, s6: Bytes)
    requires GetStrings(s) == Got(p.strings, s1) && GetRanges(f.nsRanges, s1, p.strings) == Got(p.ranges, s2)
    requires LazyChunkSection(s2, Ranges(p.ns)) == Got(slots, s3) && |chunks| == |slots|
    requires forall k :: 0 <= k < |slots| ==> chunks[k] == if migrate then Remapped(slots[k]) else slots[k]
    requires LazyConstSection(f.constsBase, s3, Ranges(p.ns), Env(p.strings, Live(chunks), valid, true))
          == Got(p.consts, s4)
    requires GetNSTable(s4, p.strings) == Got(p.table, s5)
    requires LazyTail(f.localVars, s5, chunks, p.strings) == Got(p.chunks, s6)
    requires Chooses(Ranges(p.ns), p.ranges, choice)
    ensures Collects(p, f, migrate, s, valid, choice, s6)
  {
    hide GetStrings, GetRanges, LazyChunkSection, LazyConstSection, GetNSTable, LazyTail, Chooses, Remapped, Live;
    assert chunks == if migrate then AllRemapped(slots) else slots;
  }

  /** What holds of a pass over any bytes. */
  ghost predicate Sound(p: Pass, body: Bytes) {
    InBody(p.ns, body) && Waiting(p.ns) && Selectable(Ranges(p.ns), |p.chunks|) && RunsInPool(Ranges(p.ns), |p.consts|)
  }

  /** What a pass over a body all of which decodes has collected. */
  ghost predicate PassIs(p: Pass, e: Eager, choice: Choice, flags: Flags, migrate: bool, valid: TextParsers,
                         body: Bytes)
    requires Sized(e)
  {
    var sel := Ranges(p.ns);
    && p.strings == e.strings && p.table == e.table
    && !BadTable(e, choice) && Chooses(sel, e.ranges, choice)
    && RunsInPool(sel, |e.consts|) && RefsMet(e.refs, sel, EagerLive(sel, |e.chunks|), |e.refs|)
    && FinalSlots(p.chunks, sel, e, migrate) && ConstSlots(p.consts, sel, e.consts, |e.consts|)
    && Located(p.ns, body, e, flags, valid)
  }

  /** The chunk section, and the migration of what was decoded. */
  method ChunkPass(r: Reader, ranges: seq<NSRange>, migrate: bool, choice: Choice)
    returns (o: Outcome<()>, slots: seq<Option<LiveChunk>>, ns: seq<DeferredNS>, runs: seq<DeferredRun>,
             ghost slots0: seq<Option<LiveChunk>>)
    requires r.Valid() && |r.data| < TWO63
    modifies r
    ensures r.Valid() && old(r.pos) <= r.pos
    ensures o.Ok? ==> Chosen(ns, runs, r.data, ranges, choice, |slots|) && |slots| == |slots0|
    ensures o.Ok? ==> Empties(slots, Ranges(ns))
    ensures o.Ok? ==> forall k :: 0 <= k < |slots0| ==> slots[k] == if migrate then Remapped(slots0[k]) else slots0[k]
    ensures var p := GetLiveChunks(old(r.Rest()), false);
      p.Got? ==> ChunksRead(o, slots0, ns, r.data, ranges, choice, p.val) && (o.Ok? ==> r.Rest() == p.rest)
    ensures o.Ok? ==> LazyChunkSection(old(r.Rest()), Ranges(ns)) == Got(slots0, r.Rest())
  {
    hide GetLiveChunks, Chosen, ChunksRead, Remap, DeferredChunk, LazyChunkSection;
    o, slots, ns, runs := ReadLiveChunks(r, ranges, choice);
    slots0 := slots;
    if o.Ok? && migrate {
      slots := RemapDecoded(slots);
    }
  }

  lemma ChosenParts(ns: seq<DeferredNS>, runs: seq<DeferredRun>, body: Bytes, rs: seq<NSRange>, choice: Choice, n: nat)
    requires Chosen(ns, runs, body, rs, choice, n)
    ensures Chooses(Ranges(ns), rs, choice) && Selectable(Ranges(ns), n) && RunsOf(runs, Ranges(ns))
    ensures InBody(ns, body) && Fresh(ns) && Waiting(ns)
  {
    hide Chooses, Selectable, RunsOf, InBody;
  }

  lemma FreshWaits(ns: seq<DeferredNS>)
    requires Fresh(ns)
    ensures Waiting(ns) && SameRecords(ns, ns)
  {
  }

  lemma RefusedTable(error: DecodeError, e: Eager, choice: Choice, sel: seq<NSRange>, slots: seq<Option<LiveChunk>>,
                     ns: seq<DeferredNS>, body: Bytes)
    requires ChunksRead(Err(error), slots, ns, body, e.ranges, choice, e.chunks)
    ensures Refuses(error, e, choice, sel) && error == BadRanges
  {
    hide ValidRanges;
  }

  lemma ChunksReadOk(o: Outcome<()>, slots: seq<Option<LiveChunk>>, ns: seq<DeferredNS>, body: Bytes, e: Eager,
                     choice: Choice)
    requires ChunksRead(o, slots, ns, body, e.ranges, choice, e.chunks) && o.Ok?
    ensures !BadTable(e, choice) && ChunkSlots(slots, Ranges(ns), e.chunks, |e.chunks|)
    ensures AllChunkOffs(ns, body, e.chunks, |e.chunks|)
  {
    hide ValidRanges, AllChunkOffs, ChunkSlots;
  }

  lemma EnvsCompatible(e: Eager, valid: TextParsers, env: Env, env2: Env, ok: bool)
    requires if ok then env == WholeEnv(e, valid) && env2.strings == e.strings && |env2.live| == |e.chunks|
             else env == env2.(wide := false)
    requires env2.valid == valid
    ensures Compatible(env, env2) && !env.wide
  {
  }

  lemma RefusedConsts(error: DecodeError, e: Eager, choice: Choice, slots: seq<Option<Value>>, ns1: seq<DeferredNS>,
                      ns: seq<DeferredNS>, live: seq<bool>, body: Bytes, env: Env)
    requires ConstsRead(Err(error), slots, ns1, ns, live, body, e, env)
    requires !BadTable(e, choice) && Chooses(Ranges(ns1), e.ranges, choice)
    requires live == EagerLive(Ranges(ns1), |e.chunks|)
    ensures Refuses(error, e, choice, Ranges(ns1)) && (error == RangePastConsts || error == DeferredOutside)
  {
    hide RunsInPool, RefsMet, BadTable, Chooses, ConstSlots, AllRunOffs, EagerLive;
  }

  lemma ConstsReadOk(o: Outcome<()>, slots: seq<Option<Value>>, ns1: seq<DeferredNS>, ns: seq<DeferredNS>,
                     live: seq<bool>, body: Bytes, e: Eager, env: Env)
    requires ConstsRead(o, slots, ns1, ns, live, body, e, env) && o.Ok?
    ensures RunsInPool(Ranges(ns1), |e.consts|) && RefsMet(e.refs, Ranges(ns1), live, |e.refs|)
    ensures ConstSlots(slots, Ranges(ns1), e.consts, |e.consts|) && AllRunOffs(ns, body, e, env, |e.consts|)
  {
    hide RunsInPool, RefsMet, ConstSlots, AllRunOffs;
  }

  lemma TableFlag(flag: bool, s: Bytes, strings: seq<Str>, locals: seq<seq<LocalVar>>, rest: Bytes)
    requires GetTables(flag, s, |locals|, strings) == Got(locals, rest)
    ensures if flag then GetLocalTables(s, |locals|, strings, false) == Got(locals, rest)
            else s == rest && forall k :: 0 <= k < |locals| ==> locals[k] == []
  {
    hide GetLocalTables;
  }

  /** The slots have their tables, if the body has any. */
  ghost predicate Tabled(flag: bool, out: seq<Option<LiveChunk>>, slots: seq<Option<LiveChunk>>, now: seq<DeferredNS>,
                         body: Bytes, locals: seq<seq<LocalVar>>, strings: seq<Str>)
  {
    && |locals| == |slots|
    && (flag ==> AllTableOffs(now, body, locals, strings, |slots|) && TableSlots(out, slots, locals, |slots|))
    && (!flag ==> out == slots && forall k :: 0 <= k < |locals| ==> locals[k] == [])
  }

  /** The section of local-variable tables. */
  method TablePass(r: Reader, flag: bool, strings: seq<Str>, slots: seq<Option<LiveChunk>>, ns: seq<DeferredNS>,
                   ghost locals: seq<seq<LocalVar>>, ghost rest: Bytes, ghost ok: bool)
    returns (o: Outcome<()>, out: seq<Option<LiveChunk>>, now: seq<DeferredNS>)
    requires r.Valid() && |r.data| < TWO63 && InBody(ns, r.data) && Fresh(ns) && Selectable(Ranges(ns), |slots|)
    requires Empties(slots, Ranges(ns))
    requires ok ==> |locals| == |slots| && GetTables(flag, r.Rest(), |locals|, strings) == Got(locals, rest)
    modifies r
    ensures r.Valid()
    ensures o.Ok? ==> InBody(now, r.data) && Waiting(now) && SameRecords(now, ns) && |out| == |slots|
    ensures o.Ok? ==> Ranges(now) == Ranges(ns) && LazyTail(flag, old(r.Rest()), slots, strings) == Got(out, r.Rest())
    ensures ok ==> o.Ok? && Tabled(flag, out, slots, now, r.data, locals, strings)
  {
    hide GetTables, GetLocalTables, InBody, Fresh, Waiting, Selectable, Empties, SameRecords, LazyTables, AllTableOffs,
         TableSlots;
    FreshWaits(ns);
    if ok { TableFlag(flag, r.Rest(), strings, locals, rest); }
    o, out, now := Ok(()), slots, ns;
    if flag {
      o, out, now := ReadTablesInto(r, strings, slots, ns, locals, rest);
    }
  }

  lemma SizedParts(e: Eager)
    requires Sized(e)
    ensures |e.refs| == |e.consts| && |e.locals| == |e.chunks|
  {
  }

  /** The constants section. */
  method ConstPass(r: Reader, flags: Flags, strings: seq<Str>, valid: TextParsers, slots: seq<Option<LiveChunk>>,
                   ns: seq<DeferredNS>, runs: seq<DeferredRun>, ghost choice: Choice, ghost e: Eager, ghost rest: Bytes,
                   ghost ok: bool)
    returns (o: Outcome<()>, consts: seq<Option<Value>>, now: seq<DeferredNS>)
    requires r.Valid() && RunsOf(runs, Ranges(ns)) && InBody(ns, r.data) && Fresh(ns)
    requires Selectable(Ranges(ns), |slots|)
    requires ok ==> !BadTable(e, choice) && Chooses(Ranges(ns), e.ranges, choice) && e.strings == strings && Sized(e)
    requires ok ==> Live(slots) == EagerLive(Ranges(ns), |e.chunks|) && |slots| == |e.chunks|
    requires ok ==> GetAfterChunks(flags, r.Rest(), e.strings, e.ranges, e.chunks, valid) == Got(e, rest)
    modifies r
    ensures r.Valid()
    ensures o.Ok? ==> Ranges(now) == Ranges(ns) && InBody(now, r.data) && Fresh(now) && SameButRuns(now, ns)
    ensures o.Ok? ==> RunsInPool(Ranges(ns), |consts|)
    ensures var env := Env(strings, Live(slots), valid, true);
      o.Ok? ==> LazyConstSection(flags.constsBase, old(r.Rest()), Ranges(ns), env) == Got(consts, r.Rest())
    ensures ok && o.Err? ==> Refuses(o.error, e, choice, Ranges(ns)) && o.error in {RangePastConsts, DeferredOutside}
    ensures ok && o.Ok? ==> ConstsIn(consts, ns, now, r.data, e, valid) && TableNext(r.Rest(), flags, e, rest)
  {
    hide GetAfterChunks, GetNSTable, GetTables, ConstSection, WholeEnv, Chooses, Selectable, RunsOf, InBody, Fresh,
         AllRunOffs,
         ConstSlots, RunsInPool, RefsMet, SameButRuns, Compatible, BadTable, ConstsRead, EagerLive, Sized, Refuses, Live,
         LazyConstSection;
    ghost var s2: Bytes := [];
    if ok { s2 := AfterParts(flags, r.Rest(), valid, e, rest); }
    var env2 := Env(strings, Live(slots), valid, true);
    ghost var env := if ok then WholeEnv(e, valid) else env2.(wide := false);
    EnvsCompatible(e, valid, env, env2, ok);
    o, consts, now := ReadConstsInto(r, flags.constsBase, env2, ns, runs, e, env, s2);
    if ok {
      if o.Err? {
        RefusedConsts(o.error, e, choice, consts, ns, now, env2.live, r.data, env);
      } else {
        ConstsReadOk(o, consts, ns, now, env2.live, r.data, e, env);
      }
    }
  }

  ghost predicate ConstsIn(consts: seq<Option<Value>>, ns: seq<DeferredNS>, now: seq<DeferredNS>, body: Bytes, e: Eager,
                           valid: TextParsers)
  {
    var sel := Ranges(ns);
    && RunsInPool(sel, |e.consts|) && RefsMet(e.refs, sel, EagerLive(sel, |e.chunks|), |e.refs|)
    && ConstSlots(consts, sel, e.consts, |e.consts|) && AllRunOffs(now, body, e, WholeEnv(e, valid), |e.consts|)
  }

  ghost predicate TableNext(s: Bytes, flags: Flags, e: Eager, rest: Bytes) {
    var p := GetNSTable(s, e.strings);
    p.Got? && p.val == e.table && GetTables(flags.localVars, p.rest, |e.chunks|, e.strings) == Got(e.locals, rest)
  }

  /** Every section of the body, in order. */
  method EagerPass(r: Reader, flags: Flags, migrate: bool, valid: TextParsers, choice: Choice,
                   ghost e: Eager, ghost rest: Bytes)
    returns (o: Outcome<Pass>, ghost sel: seq<NSRange>)
    requires r.Valid() && |r.data| < TWO63
    modifies r
    ensures r.Valid()
    ensures o.Ok? ==> Sound(o.value, r.data)
    ensures old(GetEager(flags, r.Rest(), valid)) == Got(e, rest) && Sized(e) ==>
        && (o.Ok? ==> PassIs(o.value, e, choice, flags, migrate, valid, r.data) && sel == Ranges(o.value.ns))
        && (o.Err? ==> Refuses(o.error, e, choice, sel) && o.error in {BadRanges, RangePastConsts, DeferredOutside})
    ensures o.Ok? ==> Collects(o.value, flags, migrate, old(r.Rest()), valid, choice, r.Rest())
  {
    hide GetEager, GetStrings, GetRanges, GetLiveChunks, GetAfterChunks, GetNSTable, GetTables, ConstSection, WholeEnv,
         Chosen, Chooses, Selectable, RunsOf, InBody, Fresh, Waiting, AllChunkOffs, AllRunOffs, AllTableOffs, ChunkSlots,
         ConstSlots, TableSlots, FinalSlots, Located, RunsInPool, RefsMet, SameRecords, SameButRuns, Compatible, Remapped,
         BadTable, ConstsRead, GetLocalTables, EagerLive, Sized, DeferredChunk, Refuses, ChunksRead, Empties, Live,
         Collects, LazyChunkSection, LazyConstSection, LazyTail, Tabled;
    ghost var body0 := r.Rest();
    ghost var ok := GetEager(flags, r.Rest(), valid) == Got(e, rest) && Sized(e);
    sel := [];
    if ok { EagerParts(flags, r.Rest(), valid, e, rest); SizedParts(e); }
    var ss := ReadStrings(r);
    if ss.Err? {
      return Err(ss.error), sel;
    }
    var strings := ss.value;
    ghost var body1 := r.Rest();
    var rs := ReadRanges(r, flags.nsRanges, strings);
    if rs.Err? {
      return Err(rs.error), sel;
    }
    ghost var body2 := r.Rest();
    var o1, slots, ns, runs, slots0 := ChunkPass(r, rs.value, migrate, choice);
    if o1.Err? {
      if ok { RefusedTable(o1.error, e, choice, sel, slots0, ns, r.data); }
      return Err(o1.error), sel;
    }
    ChosenParts(ns, runs, r.data, rs.value, choice, |slots|);
    sel := Ranges(ns);
    ghost var body3 := r.Rest();
    if ok {
      ChunksReadOk(o1, slots0, ns, r.data, e, choice);
      LiveIsEager(slots0, sel, e.chunks, slots, migrate);
    }
    ghost var ns1 := ns;
    var o2, consts;
    o2, consts, ns := ConstPass(r, flags, strings, valid, slots, ns, runs, choice, e, rest, ok);
    if o2.Err? {
      return Err(o2.error), sel;
    }
    ghost var body4 := r.Rest();
    var table := ReadNSTable(r, strings);
    if table.Err? {
      return Err(table.error), sel;
    }
    ghost var body5 := r.Rest();
    ghost var slots1, ns2 := slots, ns;
    var o3;
    o3, slots, ns := TablePass(r, flags.localVars, strings, slots, ns, e.locals, rest, ok);
    if o3.Err? {
      return Err(o3.error), sel;
    }
    if ok {
      SlotsFinal(slots, slots1, slots0, sel, e, migrate, flags.localVars, ns, r.data);
      NowLocated(ns, ns2, ns1, r.data, e, flags, valid, slots, slots1);
    }
    o := Ok(Pass(strings, rs.value, slots, consts, ns, table.value));
    BodyRead(flags, migrate, body0, valid, choice, o.value, slots0, slots1, body1, body2, body3, body4, body5, r.Rest());
  }

  // ---------------------------------------------------------------- the unit

  /** A unit fresh from decoding a body all of which decodes as e. */
  ghost predicate UnitOf(u: ExecUnit, e: Eager, flags: Flags, migrate: bool, valid: TextParsers, sel: seq<NSRange>,
                         m: int)
    requires Sized(e)
    reads u
  {
    && u.flags == flags && u.migrate == migrate && u.valid == valid
    && u.Serves(e) && u.Named(e) && Ranges(u.ns) == sel && StateIs(u.chunks, u.consts, u.ns, {})
    && TableFits(e, sel, u.byName, m) && 0 <= m < |e.chunks|
    && u.main == (if DeferredChunk(sel, m) then None else Some(FinalChunk(e, migrate, m)))
    && multiset(u.nsOrder) == multiset(e.table.Keys)
    && Ordered(u.nsOrder, (a: Str, b: Str) => IndexOf(e.table, a) < IndexOf(e.table, b))
  }

  /** The unit presents what has been read: its tables, the names of its namespaces, and
      chunk m as its main one. */
  ghost predicate Presents(u: ExecUnit, l: LazyUnit, sel: seq<NSRange>, m: int)
    reads u
  {
    && u.flags == l.flags && u.strings == l.strings && u.chunks == l.chunks && u.consts == l.consts && Ranges(u.ns) == sel
    && NameIndex(u.byName, sel) && TableAgrees(l.table, sel, u.byName, |l.chunks|) && AllNamed(sel, l.table)
    && EagerMains(u.nsChunks, l.table, u.byName, l.chunks)
    && IsMain(l.table, u.byName.Keys, m) && 0 <= m < |l.chunks| && u.main == l.chunks[m]
    && multiset(u.nsOrder) == multiset(l.table.Keys)
    && Ordered(u.nsOrder, (a: Str, b: Str) => IndexOf(l.table, a) < IndexOf(l.table, b))
  }

  lemma MainsFit(sel: seq<NSRange>, n: int)
    requires Selectable(sel, n)
    ensures forall j :: 0 <= j < |sel| ==> 0 <= sel[j].mainChunk < n
  {
  }

  lemma NamesServe(u: ExecUnit, e: Eager, flags: Flags, migrate: bool, valid: TextParsers, sel: seq<NSRange>, m: int)
    requires Sized(e) && u.flags == flags && u.migrate == migrate && u.valid == valid && Ranges(u.ns) == sel
    requires FinalSlots(u.chunks, sel, e, migrate) && NameIndex(u.byName, sel)
    requires EagerMains(u.nsChunks, e.table, u.byName, u.chunks)
    requires TableAgrees(e.table, sel, u.byName, |e.chunks|) && AllNamed(sel, e.table)
    ensures u.Named(e)
  {
    hide DeferredChunk, FinalChunk;
    InTable(e.table, sel, u.byName, |e.chunks|);
    forall x | x in u.byName
      ensures x in e.table && u.ns[u.byName[x]].range.mainChunk == e.table[x]
    {
      assert sel[u.byName[x]].name == x;
      assert x in e.table;
      assert EntryAgrees(e.table[x], x, sel, u.byName, |e.chunks|);
    }
  }

  lemma PassParts(p: Pass, e: Eager, choice: Choice, flags: Flags, migrate: bool, valid: TextParsers, body: Bytes)
    requires Sized(e) && PassIs(p, e, choice, flags, migrate, valid, body) && Waiting(p.ns)
    ensures p.table == e.table && p.strings == e.strings && |p.chunks| == |e.chunks|
    ensures FinalSlots(p.chunks, Ranges(p.ns), e, migrate)
    ensures Faithful(p.chunks, p.consts, e, migrate) && StateIs(p.chunks, p.consts, p.ns, {})
    ensures Located(p.ns, body, e, flags, valid)
    ensures forall j :: 0 <= j < |p.ns| ==> Complete(p.ns[j], p.chunks, p.consts, e, migrate)
    ensures p.chunks != [] ==> Accepts(e, choice, Ranges(p.ns))
  {
    hide BadTable, Chooses, RunsInPool, RefsMet, FinalSlots, ConstSlots, Located, StateIs, Complete, EagerLive, Waiting;
    FreshState(p.chunks, p.consts, p.ns, e, migrate);
    FinalSize(p.chunks, Ranges(p.ns), e, migrate);
  }

  lemma FinalSize(slots: seq<Option<LiveChunk>>, sel: seq<NSRange>, e: Eager, migrate: bool)
    requires Sized(e) && FinalSlots(slots, sel, e, migrate)
    ensures |slots| == |e.chunks|
  {
  }

  /** Past the chunks and constants, what is left to refuse is in the table. */
  lemma RefusedLate(error: DecodeError, p: Pass, e: Eager, choice: Choice, flags: Flags, migrate: bool,
                    valid: TextParsers, body: Bytes, byName: map<Str, nat>, m: int)
    requires Sized(e) && PassIs(p, e, choice, flags, migrate, valid, body)
    requires if e.chunks == [] then error == NoChunks else RefusesTable(error, e, Ranges(p.ns), byName, m)
    ensures Refuses(error, e, choice, Ranges(p.ns))
  {
    hide BadTable, Chooses, RunsInPool, RefsMet, FinalSlots, ConstSlots, Located, EagerLive, RefusesTable;
  }

  /** The tail of decodeToExecUnitV2: the unit, its namespaces and its main chunk. */
  method Finish(p: Pass, flags: Flags, migrate: bool, valid: TextParsers, body: Bytes, choice: Choice,
                ghost e: Eager, ghost ok: bool)
    returns (o: Outcome<ExecUnit>, ghost m: int)
    requires |body| < TWO63 && Sound(p, body)
    requires ok ==> Sized(e) && PassIs(p, e, choice, flags, migrate, valid, body)
    ensures o.Ok? ==> fresh(o.value) && o.value.Valid()
    ensures ok && o.Ok? ==> Accepts(e, choice, Ranges(p.ns))
    ensures ok && o.Ok? ==> UnitOf(o.value, e, flags, migrate, valid, Ranges(p.ns), m)
    ensures ok && o.Err? ==> Refuses(o.error, e, choice, Ranges(p.ns))
    ensures o.Ok? ==> Presents(o.value, LazyUnit(flags, p.strings, p.ranges, p.chunks, p.consts, p.table), Ranges(p.ns), m)
  {
    hide InBody, Waiting, Selectable, RunsInPool, PassIs, FinalSlots, Faithful, StateIs, Located, Complete, Accepts,
         Refuses, NameIndex, TableAgrees, EagerMains, AllNamed, IsMain, Ordered, Sized, FinalChunk, DeferredChunk;
    m := 0;
    var sel := Ranges(p.ns);
    if ok { PassParts(p, e, choice, flags, migrate, valid, body); }
    if p.chunks == [] {
      if ok { RefusedLate(NoChunks, p, e, choice, flags, migrate, valid, body, map[], 0); }
      return Err(NoChunks), m;
    }
    MainsFit(sel, |p.chunks|);
    var byName := BuildNames(sel);
    NamesInside(byName, sel);
    var t, nsChunks := NameChunks(p.table, sel, byName, p.chunks);
    if t.Err? {
      if ok { RefusedLate(t.error, p, e, choice, flags, migrate, valid, body, byName, 0); }
      return Err(t.error), m;
    }
    var main, order;
    main, order, m := ChooseMain(p.table, sel, byName, p.chunks, nsChunks);
    if ok { MainSlot(p.chunks, sel, e, migrate, m); }
    if main.Err? {
      if ok { RefusedLate(main.error, p, e, choice, flags, migrate, valid, body, byName, m); }
      return Err(main.error), m;
    }
    var named := CheckNamed(sel, p.table);
    if !named {
      if ok { RefusedLate(BadNSTable, p, e, choice, flags, migrate, valid, body, byName, m); }
      return Err(BadNSTable), m;
    }
    var u := new ExecUnit(body, p.strings, flags, valid, migrate, byName, nsChunks, order, main.value,
                          p.chunks, p.consts, p.ns);
    if ok { NamesServe(u, e, flags, migrate, valid, sel, m); }
    o := Ok(u);
  }

  lemma NamesInside(byName: map<Str, nat>, sel: seq<NSRange>)
    requires NameIndex(byName, sel)
    ensures forall x :: x in byName ==> byName[x] < |sel|
  {
  }

  lemma MainSlot(slots: seq<Option<LiveChunk>>, sel: seq<NSRange>, e: Eager, migrate: bool, m: int)
    requires Sized(e) && FinalSlots(slots, sel, e, migrate) && 0 <= m < |slots|
    ensures m < |e.chunks| && slots[m] == if DeferredChunk(sel, m) then None else Some(FinalChunk(e, migrate, m))
  {
    hide FinalChunk, DeferredChunk;
  }

  // ------------------------------------------------------------ whole bundles

  /** A bundle decoded with nothing deferred. */
  datatype Whole = Whole(flags: Flags, migrate: bool, body: Bytes, e: Eager)

  /** Header, body (inflated if need be) and everything in it. */
  function GetWhole(data: Bytes, rt: Runtime, valid: TextParsers, c: Codec): Parse<Whole> {
    var (h, s) :- GetHeader(data, rt);
    var (body, _) :- if h.flags.compressed then GetInflated(s, c) else Got(s, []);
    var (e, rest) :- GetEager(h.flags, body, valid);
    Got(Whole(h.flags, h.migrate, body, e), rest)
  }

  /** Header, body and what is read of it when the entries of sel are left out. */
  function LazyWhole(data: Bytes, rt: Runtime, valid: TextParsers, c: Codec, sel: seq<NSRange>): Parse<LazyUnit> {
    var (h, s) :- GetHeader(data, rt);
    var (body, _) :- if h.flags.compressed then GetInflated(s, c) else Got(s, []);
    LazyBody(h.flags, h.migrate, body, valid, sel)
  }

  /** On any bytes, the unit presents what was read of them for its own selection. */
  ghost predicate Read(u: ExecUnit, data: Bytes, rt: Runtime, valid: TextParsers, c: Codec, choice: Choice,
                       sel: seq<NSRange>, m: int)
    reads u
  {
    var p := LazyWhole(data, rt, valid, c, sel);
    p.Got? && Chooses(sel, p.val.ranges, choice) && Presents(u, p.val, sel, m)
  }

  lemma WholeSized(data: Bytes, rt: Runtime, valid: TextParsers, c: Codec)
    requires GetWhole(data, rt, valid, c).Got?
    ensures Sized(GetWhole(data, rt, valid, c).val.e)
  {
    hide GetHeader, GetInflated, GetEager, Sized;
    var w := GetWhole(data, rt, valid, c).val;
    EagerSized(w.flags, w.body, valid);
  }

  /** The outcome of DecodeBundle on a bundle all of which decodes. */
  ghost predicate Decodes(o: Outcome<ExecUnit>, w: Whole, valid: TextParsers, choice: Choice, sel: seq<NSRange>, m: int)
    requires Sized(w.e)
    reads if o.Ok? then {o.value} else {}
  {
    && (o.Ok? ==> Accepts(w.e, choice, sel) && UnitOf(o.value, w.e, w.flags, w.migrate, valid, sel, m))
    && (o.Err? ==> Refuses(o.error, w.e, choice, sel))
  }

  ghost predicate IsBody(h: Header, s: Bytes, valid: TextParsers, w: Whole, rest: Bytes) {
    h.flags == w.flags && h.migrate == w.migrate && GetEager(h.flags, s, valid) == Got(w.e, rest) && Sized(w.e)
  }

  method DecodeBody(r: Reader, h: Header, valid: TextParsers, choice: Choice, ghost w: Whole, ghost rest: Bytes)
    returns (o: Outcome<ExecUnit>, ghost sel: seq<NSRange>, ghost m: int)
    requires r.Valid() && |r.data| < TWO63
    modifies r
    ensures o.Ok? ==> fresh(o.value) && o.value.Valid()
    ensures old(IsBody(h, r.Rest(), valid, w, rest)) ==> Decodes(o, w, valid, choice, sel, m)
    ensures var p := LazyBody(h.flags, h.migrate, old(r.Rest()), valid, sel);
      o.Ok? ==> p.Got? && Chooses(sel, p.val.ranges, choice) && Presents(o.value, p.val, sel, m)
  {
    hide GetEager, Sized, Sound, PassIs, Accepts, Refuses, UnitOf, LazyBody, Presents, Chooses;
    ghost var ok := IsBody(h, r.Rest(), valid, w, rest);
    m := 0;
    var p;
    p, sel := EagerPass(r, h.flags, h.migrate, valid, choice, w.e, rest);
    if p.Err? {
      return Err(p.error), sel, m;
    }
    sel := Ranges(p.value.ns);
    o, m := Finish(p.value, h.flags, h.migrate, valid, r.data, choice, w.e, ok);
  }

  lemma InflatedFits(s: Bytes, c: Codec)
    ensures GetInflated(s, c).Got? ==> |GetInflated(s, c).val| <= MAX_BODY
  {
    hide GetVarint;
  }

  /** DecodeBundle; without a choice, DecodeToExecUnitBytes. */
  method DecodeBundle(data: Bytes, rt: Runtime, valid: TextParsers, c: Codec, choice: Choice)
    returns (o: Outcome<ExecUnit>, ghost sel: seq<NSRange>, ghost m: int)
    requires |data| < TWO63
    ensures o.Ok? ==> fresh(o.value) && o.value.Valid()
    ensures var h := GetHeader(data, rt); h.Fail? ==> o == Err(h.error)
    ensures var p := GetWhole(data, rt, valid, c);
      p.Got? ==> Sized(p.val.e) && Decodes(o, p.val, valid, choice, sel, m)
    ensures o.Ok? ==> Read(o.value, data, rt, valid, c, choice, sel, m)
  {
    hide GetHeader, GetInflated, GetEager, Sized, Decodes, LazyBody, Presents, Chooses;
    ghost var p := GetWhole(data, rt, valid, c);
    ghost var w := if p.Got? then p.val else Whole(FlagsOf(0), false, [], NOTHING);
    ghost var rest: Bytes := if p.Got? then p.rest else [];
    sel, m := [], 0;
    if p.Got? { WholeSized(data, rt, valid, c); }
    var r := new Reader(data);
    var h := ReadHeader(r, rt);
    if h.Err? {
      return Err(h.error), sel, m;
    }
    if h.value.flags.compressed {
      InflatedFits(r.Rest(), c);
      var body := ReadInflated(r, c);
      if body.Err? {
        return Err(body.error), sel, m;
      }
      r := new Reader(body.value);
    }
    o, sel, m := DecodeBody(r, h.value, valid, choice, w, rest);
  }

  const NOTHING := Eager([], [], [], 0, [], [], map[], [])
}
