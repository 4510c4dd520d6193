/** From the encoder to what a deferring unit hands out, over any sequence of requests. */
module EndToEnd {
  import opened Wire
  import opened Stream
  import opened Values
  import opened ValueProofs
  import opened Chunks
  import opened Sections
  import opened Modules
  import opened Migration
  import opened Reachability
  import opened NSRanges
  import opened Validation
  import opened Selection
  import opened EagerDecode
  import opened LazyDecode
  import opened Deferred
  import opened Bundles
  import opened DeferralProofs

  lemma CallFaithful(e: Eager, migrate: bool, t: Slots, j: nat, u: Slots, o: Outcome<LiveChunk>)
    requires Sized(e) && Call(e, migrate, t, j, u, o) && Faithful(t.chunks, t.consts, e, migrate)
    ensures Faithful(u.chunks, u.consts, e, migrate)
    ensures var k := t.ns[j].range.mainChunk; o.Ok? ==> 0 <= k < |e.chunks| && o.value == FinalChunk(e, migrate, k)
  {
    hide FinalChunk, InRuns, OwnConsts, NeedsMet;
  }

  lemma {:induction false} CallsFaithful(e: Eager, migrate: bool, ts: seq<Slots>, js: seq<nat>,
                                         os: seq<Outcome<LiveChunk>>, n: nat)
    requires Sized(e) && Calls(e, migrate, ts, js, os) && n <= |js|
    requires Faithful(ts[0].chunks, ts[0].consts, e, migrate)
    ensures Faithful(ts[n].chunks, ts[n].consts, e, migrate)
    decreases n
  {
    hide Faithful, Call;
    if n == 0 {
    } else {
      CallsFaithful(e, migrate, ts, js, os, n - 1);
      assert Call(e, migrate, ts[n - 1], js[n - 1], ts[n - 1 + 1], os[n - 1]);
      CallFaithful(e, migrate, ts[n - 1], js[n - 1], ts[n], os[n - 1]);
    }
  }

  /** The tables of a unit fresh from DecodeBundle. */
  ghost predicate Starts(t: Slots, e: Eager, migrate: bool, choice: Choice) {
    && Sized(e) && Chooses(Ranges(t.ns), e.ranges, choice)
    && Faithful(t.chunks, t.consts, e, migrate) && StateIs(t.chunks, t.consts, t.ns, {})
  }

  lemma UnitStarts(u: ExecUnit, e: Eager, flags: Flags, migrate: bool, valid: TextParsers, choice: Choice,
                   sel: seq<NSRange>, n: int)
    requires Sized(e) && UnitOf(u, e, flags, migrate, valid, sel, n) && Accepts(e, choice, sel)
    ensures Starts(Slots(u.chunks, u.consts, u.ns), e, migrate, choice)
  {
    hide Sized, Chooses, StateIs, Located, Complete, TableFits, FinalChunk, RefsMet, RunsInPool;
  }

  /** The live chunk carries what the module says of chunk k, whose code is of the old
      opcode set or of the running one. */
  ghost predicate Says(live: LiveChunk, m: Module, k: int, former: bool) {
    && 0 <= k < |m.chunks| && live.maxStack == m.chunks[k].maxStack && Runs(live.code, m.chunks[k].code, former)
    && ResolveAll(live.sourceMap, m.strings) == m.chunks[k].sourceMap
    && live.localVars == if m.flags.localVars then m.chunks[k].localVars else []
  }

  /** Every slot that is filled holds what was encoded, and exactly the slots of the
      namespaces not asked for are empty. */
  ghost predicate Holds(t: Slots, m: Module, w: WriteIndex, done: set<nat>, former: bool) {
    && |t.chunks| == |m.chunks| && |t.consts| == |m.consts| && StateIs(t.chunks, t.consts, t.ns, done)
    && (forall k :: 0 <= k < |t.chunks| && t.chunks[k].Some? ==> Says(t.chunks[k].value, m, k, former))
    && (forall c :: 0 <= c < |t.consts| && t.consts[c].Some? ==> t.consts[c].value == NormAll(m.consts, w)[c])
  }

  lemma FaithfulHolds(t: Slots, e: Eager, former: bool, m: Module, w: WriteIndex, done: set<nat>)
    requires Faithful(t.chunks, t.consts, e, former) && Encoded(e, m, w) && StateIs(t.chunks, t.consts, t.ns, done)
    ensures Holds(t, m, w, done, former)
  {
    hide NormAll, Targets, StateIs, FinalChunk, Says;
    forall k | 0 <= k < |t.chunks| && t.chunks[k].Some?
      ensures Says(t.chunks[k].value, m, k, former)
    {
      FinalSays(e, former, m, w, k);
    }
  }

  lemma FinalSays(e: Eager, former: bool, m: Module, w: WriteIndex, k: nat)
    requires Sized(e) && Encoded(e, m, w) && k < |m.chunks|
    ensures |e.chunks| == |m.chunks| && Says(FinalChunk(e, former, k), m, k, former)
  {
    hide NormAll, Targets, Runs;
    ServesModule(e, former, m, w, k);
  }

  /** A module without a range table, or one whose table comes from its compilation. */
  ghost predicate Ranged(m: Module, w: WriteIndex, b: Bundle, owners: seq<nat>) {
    m.flags.nsRanges ==> Compiled(m, w, b, owners)
  }

  /** What decodes here of a bundle that `wr` wrote is what it encoded, and its code is
      migrated exactly when it is of the old opcode set. */
  lemma EncodedHere(m: Module, w: WriteIndex, names: seq<Str>, wr: Runtime, rt: Runtime, valid: TextParsers, c: Codec)
    returns (e: Eager)
    requires Encodable(m, w, valid) && Lists(names, m) && Lawful(c) && EncodeModule(m, w, names, wr, c).Some?
    requires GetWhole(EncodeModule(m, w, names, wr, c).value, rt, valid, c).Got?
    ensures var p := GetWhole(EncodeModule(m, w, names, wr, c).value, rt, valid, c).val;
      p.e == e && p.flags == m.flags && p.migrate == Former(m.flags, m.caps, wr.running, rt) && Encoded(e, m, w)
  {
    hide GetHeader, GetInflated, GetEager, EncodeModule, Encodable, Lists, Encoded, Former, Foreign;
    EncodableFits(m, w, valid);
    EncodedWhole(m, w, names, wr, rt, valid, c);
    e := GetWhole(EncodeModule(m, w, names, wr, c).value, rt, valid, c).val.e;
  }

  /** Deferring agrees with encoding: decode what a runtime `wr` encoded on rt, deferring any
      namespaces, then ask for any of them, in any order and with any repetition.  Every
      call succeeds and gives the namespace's main chunk as it was encoded; at every moment
      each filled chunk and constant slot holds what was encoded, and exactly the slots of
      the namespaces still not asked for are empty.  Code of the old opcode set is served
      as the same program in the running one, all other code word for word. */
  lemma DeferredServesEncoded(m: Module, w: WriteIndex, names: seq<Str>, wr: Runtime, rt: Runtime, valid: TextParsers,
                              c: Codec, b: Bundle, owners: seq<nat>, choice: Choice, ts: seq<Slots>, js: seq<nat>,
                              os: seq<Outcome<LiveChunk>>, n: nat)
    requires Encodable(m, w, valid) && Lists(names, m) && Lawful(c) && EncodeModule(m, w, names, wr, c).Some?
    requires Ranged(m, w, b, owners)
    requires var p := GetWhole(EncodeModule(m, w, names, wr, c).value, rt, valid, c);
      p.Got? && ts != [] && Starts(ts[0], p.val.e, p.val.migrate, choice) && Calls(p.val.e, p.val.migrate, ts, js, os)
    requires n <= |js|
    ensures var former := Former(m.flags, m.caps, wr.running, rt);
      && Holds(ts[n], m, w, Deferred.Set(js[..n]), former)
      && forall i :: 0 <= i < |js| ==>
        os[i].Ok? && js[i] < |ts[0].ns| && Says(os[i].value, m, ts[0].ns[js[i]].range.mainChunk, former)
  {
    hide GetWhole, EncodeModule, Encodable, Lists, Ranged, Encoded, Sized, Faithful, StateIs, Chooses, Calls,
         Deferred.Set, Says, Holds, SelfServing, FinalChunk, RefsMet, EagerLive, Former;
    EncodableFits(m, w, valid);
    var e := EncodedHere(m, w, names, wr, rt, valid, c);
    var former := Former(m.flags, m.caps, wr.running, rt);
    NothingOutside(e, m, w, valid, b, owners, Ranges(ts[0].ns), choice);
    CallsLength(e, former, ts, js, os);
    AnyOrder(e, former, ts, js, os, n);
    CallsFaithful(e, former, ts, js, os, n);
    FaithfulHolds(ts[n], e, former, m, w, Deferred.Set(js[..n]));
    AnyOrder(e, former, ts, js, os, |js|);
    forall i | 0 <= i < |js|
      ensures os[i].Ok? && js[i] < |ts[0].ns| && Says(os[i].value, m, ts[0].ns[js[i]].range.mainChunk, former)
    {
      AnyOrder(e, former, ts, js, os, i);
      CallsFaithful(e, former, ts, js, os, i);
      Answered(e, former, m, w, ts, js, os, i);
    }
  }

  lemma CallsLength(e: Eager, migrate: bool, ts: seq<Slots>, js: seq<nat>, os: seq<Outcome<LiveChunk>>)
    requires Sized(e) && Calls(e, migrate, ts, js, os)
    ensures |ts| == |js| + 1 && |os| == |js|
  {
    hide Call;
  }

  lemma CompiledRanges(e: Eager, m: Module, w: WriteIndex, b: Bundle, owners: seq<nat>)
    requires Encoded(e, m, w) && Compiled(m, w, b, owners)
    ensures e.ranges == m.ranges
  {
    hide NormAll, Targets, SoundTable;
  }

  lemma Answered(e: Eager, former: bool, m: Module, w: WriteIndex, ts: seq<Slots>, js: seq<nat>,
                 os: seq<Outcome<LiveChunk>>, i: nat)
    requires Sized(e) && Encoded(e, m, w) && Calls(e, former, ts, js, os) && i < |js| && os[i].Ok?
    requires Faithful(ts[i].chunks, ts[i].consts, e, former) && Ranges(ts[i].ns) == Ranges(ts[0].ns)
    ensures js[i] < |ts[0].ns| && Says(os[i].value, m, ts[0].ns[js[i]].range.mainChunk, former)
  {
    hide Encoded, Faithful, FinalChunk, Says, MaterializedTo;
    assert Call(e, former, ts[i], js[i], ts[i + 1], os[i]);
    CallFaithful(e, former, ts[i], js[i], ts[i + 1], os[i]);
    assert Ranges(ts[i].ns)[js[i]] == Ranges(ts[0].ns)[js[i]];
    var k := ts[0].ns[js[i]].range.mainChunk;
    EncodedChunks(e, m, w);
    FinalSays(e, former, m, w, k);
  }

  lemma EncodedChunks(e: Eager, m: Module, w: WriteIndex)
    requires Encoded(e, m, w)
    ensures |e.chunks| == |m.chunks|
  {
    hide NormAll, Targets;
  }

  // --------------------------------------------------------- a client's view

  /** Whatever is chosen of an encoded bundle, no function inside needs a chunk that is
      still missing when it is decoded. */
  lemma NothingOutside(e: Eager, m: Module, w: WriteIndex, valid: TextParsers, b: Bundle, owners: seq<nat>,
                       sel: seq<NSRange>, choice: Choice)
    requires Encoded(e, m, w) && Encodable(m, w, valid) && Ranged(m, w, b, owners) && Chooses(sel, e.ranges, choice)
    ensures !m.flags.nsRanges ==> sel == []
    ensures RefsMet(e.refs, sel, EagerLive(sel, |e.chunks|), |e.refs|) && SelfServing(e, sel)
  {
    hide Encodable, Compiled, RefsMet, EagerLive, NormAll, Targets;
    if m.flags.nsRanges {
      CompiledRanges(e, m, w, b, owners);
      NeverOutside(e, m, w, b, owners, sel, choice);
    } else {
      EncodedRefsMet(e, m, w, valid);
    }
  }

  /** A namespace that is not selected has its main chunk decoded at once. */
  lemma MainDecoded(e: Eager, m: Module, w: WriteIndex, b: Bundle, owners: seq<nat>, sel: seq<NSRange>, choice: Choice,
                    byName: map<Str, nat>, x: Str)
    requires Encoded(e, m, w) && Compiled(m, w, b, owners) && Chooses(sel, m.ranges, choice) && NameIndex(byName, sel)
    requires x in m.nsTable && x !in byName
    ensures !DeferredChunk(sel, m.nsTable[x])
  {
    hide Chooses, NormAll, Targets, SoundTable;
    var n :| 0 <= n < |b.names| && b.names[n] == x;
    if j :| 0 <= j < |sel| && OwnsChunk(sel[j], m.nsTable[x]) {
      var i := SelectedFrom(sel, m.ranges, choice, j);
      RunHoldsNoMain(b, m.ranges, owners, i, n);
      OneMain(b, m.ranges, owners, i, n);
    }
  }

  /** Only its own namespace has the main chunk of an entry. */
  lemma OneMain(b: Bundle, out: seq<NSRange>, owners: seq<nat>, i: nat, n: nat)
    requires SoundTable(b, out, owners) && i < |out| && n < |b.prog.mains| && b.prog.mains[n] == out[i].mainChunk
    ensures b.names[n] == out[i].name
  {
    hide Emitted, ValidRanges, NoSharedChunk, SelfContained, Deferrable, ChunkRefs, RunsAre, TightRun, SpanFuncs;
    EmittedEntry(b, out, owners, i);
    ReachesSelf(b.prog, b.prog.mains[n]);
    assert n in ChunkUsers(b.prog, out[i].mainChunk);
  }

  /** Why DecodeBundle can refuse an encoded bundle: it has no chunk, its namespace table
      names none of its chunks, or its main chunk is left undecoded. */
  ghost predicate Refusable(m: Module, sel: seq<NSRange>) {
    m.chunks == [] || MainLeftOut(m.nsTable, sel) || exists x :: x in m.nsTable && !(0 <= m.nsTable[x] < |m.chunks|)
  }

  lemma AcceptedFits(e: Eager, m: Module, w: WriteIndex, sel: seq<NSRange>, choice: Choice, byName: map<Str, nat>,
                     n: int)
    requires Encoded(e, m, w) && Accepts(e, choice, sel) && TableFits(e, sel, byName, n)
    ensures !Refusable(m, sel)
  {
    hide NormAll, Targets, Chooses, RefsMet, RunsInPool, BadTable, IsMain, MainMissing, MainLeftOut;
    AcceptedHasMain(e, sel, choice, byName, n);
    EncodedChunks(e, m, w);
    forall x | x in m.nsTable
      ensures 0 <= m.nsTable[x] < |m.chunks|
    {
      assert EntryAgrees(e.table[x], x, sel, byName, |e.chunks|);
    }
  }

  lemma RefusedFor(e: Eager, m: Module, w: WriteIndex, valid: TextParsers, b: Bundle, owners: seq<nat>,
                   sel: seq<NSRange>, choice: Choice, error: DecodeError)
    requires Encoded(e, m, w) && Encodable(m, w, valid) && Ranged(m, w, b, owners) && Refuses(error, e, choice, sel)
    ensures Refusable(m, sel)
  {
    hide NormAll, Targets, Chooses, RefsMet, EagerLive, Compiled, Encodable, MainLeftOut, BadTable, ValidRanges;
    EncodedChunks(e, m, w);
    if m.chunks != [] {
      if m.flags.nsRanges {
        CompiledRanges(e, m, w, b, owners);
        NoBadTable(e, m, w, b, owners, choice);
        OnlyMainRefused(e, m, w, b, owners, sel, choice, error);
      } else {
        Picks(error, e, m, w, b, owners, choice, sel);
        NothingOutside(e, m, w, valid, b, owners, sel, choice);
        PlainRefused(e, m, w, sel, choice, error);
      }
    }
  }

  lemma NoBadTable(e: Eager, m: Module, w: WriteIndex, b: Bundle, owners: seq<nat>, choice: Choice)
    requires Encoded(e, m, w) && Compiled(m, w, b, owners)
    ensures !BadTable(e, choice)
  {
    hide NormAll, Targets, Emitted, NoSharedChunk, PairwiseApart, ChunkRunsOk;
    forall i | 0 <= i < |m.ranges|
      ensures EntryFits(m.ranges[i], |e.chunks|, -1)
    {
      assert EntryFits(m.ranges[i], |b.prog.code|, |b.prog.consts|);
    }
  }

  lemma PlainRefused(e: Eager, m: Module, w: WriteIndex, sel: seq<NSRange>, choice: Choice, error: DecodeError)
    requires Encoded(e, m, w) && !m.flags.nsRanges && sel == [] && m.chunks != []
    requires RefsMet(e.refs, sel, EagerLive(sel, |e.chunks|), |e.refs|) && Refuses(error, e, choice, sel)
    ensures Refusable(m, sel)
  {
    hide NormAll, Targets, RefsMet, EagerLive, IsMain, Chooses;
    EncodedChunks(e, m, w);
    var byName, n :| RefusesTable(error, e, sel, byName, n);
    assert !TableAgrees(e.table, sel, byName, |e.chunks|);
  }

  /** What asking for a namespace of an encoded module gives. */
  ghost predicate GivesChunk(o: Outcome<Option<LiveChunk>>, m: Module, name: Str, former: bool) {
    if name in m.nsTable then o.Ok? && o.value.Some? && Says(o.value.value, m, m.nsTable[name], former) else o == Ok(None)
  }

  lemma AnswerDelivers(u: ExecUnit, e: Eager, former: bool, m: Module, w: WriteIndex, b: Bundle, owners: seq<nat>,
                       sel: seq<NSRange>, choice: Choice, name: Str, o: Outcome<Option<LiveChunk>>)
    requires Sized(e) && Encoded(e, m, w) && Ranged(m, w, b, owners) && Chooses(sel, e.ranges, choice)
    requires Ranges(u.ns) == sel && u.migrate == former && u.Named(e) && NameIndex(u.byName, sel)
    requires u.Answers(o, name, e) && o.Ok?
    requires !m.flags.nsRanges ==> sel == []
    ensures GivesChunk(o, m, name, former)
  {
    hide Encoded, Compiled, NameIndex, Chooses, FinalChunk, Says, Sized;
    EncodedNames(e, m, w);
    if name in m.nsTable {
      if name !in u.byName && m.flags.nsRanges {
        CompiledRanges(e, m, w, b, owners);
        MainDecoded(e, m, w, b, owners, sel, choice, u.byName, name);
      }
      FinalSays(e, former, m, w, m.nsTable[name]);
    }
  }

  lemma EncodedNames(e: Eager, m: Module, w: WriteIndex)
    requires Encoded(e, m, w)
    ensures e.table == m.nsTable && |e.chunks| == |m.chunks|
  {
    hide NormAll, Targets;
  }

  /** A unit that serves an encoded module, ready for requests. */
  ghost predicate Ready(u: ExecUnit, e: Eager, former: bool, m: Module, w: WriteIndex, b: Bundle, owners: seq<nat>,
                        choice: Choice)
    requires Sized(e)
    reads u
  {
    var sel := Ranges(u.ns);
    && Encoded(e, m, w) && Ranged(m, w, b, owners) && Chooses(sel, e.ranges, choice) && u.migrate == former
    && u.Serves(e) && u.Named(e) && NameIndex(u.byName, sel) && SelfServing(e, sel)
    && (!m.flags.nsRanges ==> sel == [])
  }

  lemma UnitReady(u: ExecUnit, e: Eager, former: bool, m: Module, w: WriteIndex, valid: TextParsers, b: Bundle,
                  owners: seq<nat>, choice: Choice, sel: seq<NSRange>, flags: Flags, n: int)
    requires Sized(e) && Encoded(e, m, w) && Encodable(m, w, valid) && Ranged(m, w, b, owners)
    requires UnitOf(u, e, flags, former, valid, sel, n) && Accepts(e, choice, sel)
    ensures Ready(u, e, former, m, w, b, owners, choice) && StateIs(u.chunks, u.consts, u.ns, {}) && Ranges(u.ns) == sel
    ensures Chooses(sel, e.ranges, choice) && !Refusable(m, sel)
  {
    hide Sized, Encoded, Encodable, Compiled, StateIs, SelfServing, RefsMet, EagerLive, Chooses, Refusable, NameIndex,
         Faithful, Located, Complete, FinalChunk, Accepts, TableFits;
    AcceptedChoice(e, choice, sel);
    AcceptedFits(e, m, w, sel, choice, u.byName, n);
    NothingOutside(e, m, w, valid, b, owners, sel, choice);
    NamesFit(e, sel, u.byName, n);
  }

  /** One request after another. */
  method Ask(u: ExecUnit, asks: seq<Str>, ghost e: Eager, ghost former: bool, ghost m: Module, ghost w: WriteIndex,
             ghost b: Bundle, ghost owners: seq<nat>, ghost choice: Choice)
    returns (answers: seq<Outcome<Option<LiveChunk>>>)
    requires u.Valid() && Sized(e) && Ready(u, e, former, m, w, b, owners, choice)
    requires StateIs(u.chunks, u.consts, u.ns, {})
    modifies u
    ensures |answers| == |asks| && forall i :: 0 <= i < |asks| ==> GivesChunk(answers[i], m, asks[i], former)
  {
    hide Encoded, Compiled, Sized, StateIs, SelfServing, Chooses, GivesChunk, NameIndex, Faithful, Located, Complete,
         FinalChunk, InBody, Selectable, RunsInPool;
    answers := [];
    ghost var done: set<nat> := {};
    for i := 0 to |asks|
      invariant |answers| == i && u.Valid() && Ready(u, e, former, m, w, b, owners, choice)
      invariant StateIs(u.chunks, u.consts, u.ns, done)
      invariant forall k :: 0 <= k < i ==> GivesChunk(answers[k], m, asks[k], former)
    {
      var a := u.NSChunk(asks[i], e, done);
      if asks[i] in u.byName { done := done + {u.byName[asks[i]]}; }
      AnswerDelivers(u, e, former, m, w, b, owners, Ranges(u.ns), choice, asks[i], a);
      answers := answers + [a];
    }
  }

  /** An entry is selected exactly when its name is chosen, unless its main chunk is chunk 0. */
  lemma ChosenEntries(sel: seq<NSRange>, rs: seq<NSRange>, choice: Choice, r: NSRange)
    requires Chooses(sel, rs, choice)
    ensures r in sel <==> choice.Some? && r in rs && r.mainChunk != 0 && choice.value(r.name)
  {
    hide Picked;
    if choice.Some? {
      PickedFrom(rs, choice.value, r);
      assert r in sel <==> r in multiset(sel);
      assert r in Picked(rs, choice.value) <==> r in multiset(Picked(rs, choice.value));
    }
  }

  /** The entry is one that the choice leaves undecoded. */
  predicate LeftOut(m: Module, choice: Choice, i: nat)
    requires i < |m.ranges|
  {
    m.flags.nsRanges && choice.Some? && m.ranges[i].mainChunk != 0 && choice.value(m.ranges[i].name)
  }

  ghost predicate ChunkLeft(m: Module, choice: Choice, k: int) {
    exists i :: 0 <= i < |m.ranges| && LeftOut(m, choice, i) && OwnsChunk(m.ranges[i], k)
  }

  ghost predicate ConstLeft(m: Module, choice: Choice, x: int) {
    exists i :: 0 <= i < |m.ranges| && LeftOut(m, choice, i) && InRuns(m.ranges[i], x)
  }

  /** Exactly the main chunks, the chunk runs and the constants of what is left out are
      missing; all else is there as it was encoded. */
  ghost predicate Opens(u: ExecUnit, m: Module, w: WriteIndex, choice: Choice, former: bool)
    reads u
  {
    && |u.chunks| == |m.chunks| && |u.consts| == |m.consts|
    && (forall k :: 0 <= k < |u.chunks| ==> (u.chunks[k].None? <==> ChunkLeft(m, choice, k)))
    && (forall x :: 0 <= x < |u.consts| ==> (u.consts[x].None? <==> ConstLeft(m, choice, x)))
    && (forall k :: 0 <= k < |u.chunks| && u.chunks[k].Some? ==> Says(u.chunks[k].value, m, k, former))
    && (forall x :: 0 <= x < |u.consts| && u.consts[x].Some? ==> u.consts[x].value == NormAll(m.consts, w)[x])
  }

  lemma UnitOpens(u: ExecUnit, e: Eager, former: bool, m: Module, w: WriteIndex, choice: Choice, sel: seq<NSRange>)
    requires Sized(e) && Encoded(e, m, w) && Chooses(sel, e.ranges, choice) && Ranges(u.ns) == sel
    requires Faithful(u.chunks, u.consts, e, former) && StateIs(u.chunks, u.consts, u.ns, {})
    ensures Opens(u, m, w, choice, former)
  {
    hide NormAll, Targets, FinalChunk, Says, Chooses, InRuns, Sized, Faithful;
    FaithfulHolds(Slots(u.chunks, u.consts, u.ns), e, former, m, w, {});
    EncodedRanges(e, m, w);
    forall k | 0 <= k < |u.chunks|
      ensures DeferredChunk(sel, k) <==> ChunkLeft(m, choice, k)
    {
      LeftChunk(sel, m, choice, k);
    }
    forall x | 0 <= x < |u.consts|
      ensures DeferredConst(sel, x) <==> ConstLeft(m, choice, x)
    {
      LeftConst(sel, m, choice, x);
    }
  }

  lemma LeftChunk(sel: seq<NSRange>, m: Module, choice: Choice, k: int)
    requires Chooses(sel, if m.flags.nsRanges then m.ranges else [], choice)
    ensures DeferredChunk(sel, k) <==> ChunkLeft(m, choice, k)
  {
    hide Chooses, OwnsChunk;
    var rs := if m.flags.nsRanges then m.ranges else [];
    if j :| 0 <= j < |sel| && OwnsChunk(sel[j], k) {
      ChosenEntries(sel, rs, choice, sel[j]);
    }
    if i :| 0 <= i < |m.ranges| && LeftOut(m, choice, i) && OwnsChunk(m.ranges[i], k) {
      ChosenEntries(sel, rs, choice, m.ranges[i]);
    }
  }

  lemma LeftConst(sel: seq<NSRange>, m: Module, choice: Choice, x: int)
    requires Chooses(sel, if m.flags.nsRanges then m.ranges else [], choice)
    ensures DeferredConst(sel, x) <==> ConstLeft(m, choice, x)
  {
    hide Chooses, InRuns;
    var rs := if m.flags.nsRanges then m.ranges else [];
    if j :| 0 <= j < |sel| && InRuns(sel[j], x) {
      ChosenEntries(sel, rs, choice, sel[j]);
    }
    if i :| 0 <= i < |m.ranges| && LeftOut(m, choice, i) && InRuns(m.ranges[i], x) {
      ChosenEntries(sel, rs, choice, m.ranges[i]);
    }
  }

  /** Decoding what the encoder of some runtime `wr` wrote, deferring as one likes.  A bundle
      of a foreign opcode set is refused as that, any other exactly for the reasons above.
      What is missing of the unit is exactly what the choice leaves out. */
  method Open(data: Bytes, rt: Runtime, valid: TextParsers, c: Codec, choice: Choice, ghost m: Module,
              ghost w: WriteIndex, ghost names: seq<Str>, ghost wr: Runtime, ghost b: Bundle, ghost owners: seq<nat>)
    returns (o: Outcome<ExecUnit>, ghost sel: seq<NSRange>, ghost e: Eager)
    requires Encodable(m, w, valid) && Lists(names, m) && Lawful(c) && Ranged(m, w, b, owners)
    requires EncodeIs(data, m, w, names, wr, valid, c) && |data| < TWO63
    ensures Foreign(m.flags, m.caps, wr.running, rt) ==> o == Err(OpcodeMismatch)
    ensures !Foreign(m.flags, m.caps, wr.running, rt) ==>
      Chooses(sel, if m.flags.nsRanges then m.ranges else [], choice) && (o.Ok? <==> !Refusable(m, sel))
    ensures o.Ok? ==> fresh(o.value) && o.value.Valid() && Sized(e)
    ensures o.Ok? ==> StateIs(o.value.chunks, o.value.consts, o.value.ns, {})
    ensures var former := Former(m.flags, m.caps, wr.running, rt);
      o.Ok? ==> Ready(o.value, e, former, m, w, b, owners, choice) && Opens(o.value, m, w, choice, former)
  {
    hide GetWhole, GetHeader, EncodeModule, Encodable, Lists, Encoded, Ranged, Ready, UnitOf, Sized, Accepts, Refuses,
         StateIs, Chooses, Refusable, Lawful, EncodeIs, Former, Foreign, Opens;
    e := EncodedAs(data, m, w, names, wr, rt, valid, c);
    ghost var former := Former(m.flags, m.caps, wr.running, rt);
    ghost var n;
    o, sel, n := DecodeBundle(data, rt, valid, c, choice);
    if !Foreign(m.flags, m.caps, wr.running, rt) {
      EncodedRanges(e, m, w);
      if o.Err? {
        Picks(o.error, e, m, w, b, owners, choice, sel);
        RefusedFor(e, m, w, valid, b, owners, sel, choice, o.error);
      } else {
        UnitReady(o.value, e, former, m, w, valid, b, owners, choice, sel, m.flags, n);
        ReadyFaithful(o.value, e, former, m, w, b, owners, choice);
        UnitOpens(o.value, e, former, m, w, choice, sel);
      }
    }
  }

  lemma ReadyFaithful(u: ExecUnit, e: Eager, former: bool, m: Module, w: WriteIndex, b: Bundle, owners: seq<nat>,
                      choice: Choice)
    requires Sized(e) && Ready(u, e, former, m, w, b, owners, choice)
    ensures Faithful(u.chunks, u.consts, e, former)
  {
    hide Faithful, Sized, Encoded, Ranged, Chooses, SelfServing, NameIndex, Located, Complete;
  }

  /** The way a program uses a bundle: decode it so, then ask for namespaces by name.  Every
      request is answered with the chunk as it was encoded, migrated if its code is of the
      old opcode set, and one for an unknown name with none. */
  method Serve(data: Bytes, rt: Runtime, valid: TextParsers, c: Codec, choice: Choice, asks: seq<Str>,
               ghost m: Module, ghost w: WriteIndex, ghost names: seq<Str>, ghost wr: Runtime, ghost b: Bundle,
               ghost owners: seq<nat>)
    returns (o: Outcome<seq<Outcome<Option<LiveChunk>>>>, ghost sel: seq<NSRange>)
    requires Encodable(m, w, valid) && Lists(names, m) && Lawful(c) && Ranged(m, w, b, owners)
    requires EncodeIs(data, m, w, names, wr, valid, c) && |data| < TWO63
    ensures Foreign(m.flags, m.caps, wr.running, rt) ==> o == Err(OpcodeMismatch)
    ensures !Foreign(m.flags, m.caps, wr.running, rt) ==>
      Chooses(sel, if m.flags.nsRanges then m.ranges else [], choice) && (o.Ok? <==> !Refusable(m, sel))
    ensures o.Ok? ==> |o.value| == |asks| && forall i :: 0 <= i < |asks| ==>
      GivesChunk(o.value[i], m, asks[i], Former(m.flags, m.caps, wr.running, rt))
  {
    hide Encodable, Lists, Encoded, Ranged, Ready, Sized, StateIs, Chooses, Refusable, GivesChunk, Lawful, EncodeIs,
         Former, Foreign, Opens;
    var u;
    ghost var e;
    u, sel, e := Open(data, rt, valid, c, choice, m, w, names, wr, b, owners);
    if u.Err? {
      return Err(u.error), sel;
    }
    var answers := Ask(u.value, asks, e, Former(m.flags, m.caps, wr.running, rt), m, w, b, owners, choice);
    o := Ok(answers);
  }

  /** data is what the encoder of wr writes of m. */
  ghost predicate EncodeIs(data: Bytes, m: Module, w: WriteIndex, names: seq<Str>, wr: Runtime, valid: TextParsers,
                           c: Codec)
    requires Encodable(m, w, valid) && Lists(names, m)
  {
    EncodableFits(m, w, valid);
    EncodeModule(m, w, names, wr, c) == Some(data)
  }

  lemma EncodedAs(data: Bytes, m: Module, w: WriteIndex, names: seq<Str>, wr: Runtime, rt: Runtime, valid: TextParsers,
                  c: Codec)
    returns (e: Eager)
    requires Encodable(m, w, valid) && Lists(names, m) && Lawful(c) && EncodeIs(data, m, w, names, wr, valid, c)
    ensures Foreign(m.flags, m.caps, wr.running, rt) ==> GetHeader(data, rt) == Fail(OpcodeMismatch)
    ensures !Foreign(m.flags, m.caps, wr.running, rt) ==>
      var p := GetWhole(data, rt, valid, c);
      p.Got? && p.val.e == e && p.val.flags == m.flags && Encoded(e, m, w)
      && p.val.migrate == Former(m.flags, m.caps, wr.running, rt)
  {
    hide GetWhole, GetHeader, EncodeModule, Encodable, Lists, Encoded, Lawful, Former, Foreign;
    EncodableFits(m, w, valid);
    EncodedWhole(m, w, names, wr, rt, valid, c);
    var p := GetWhole(data, rt, valid, c);
    e := if p.Got? then p.val.e else NOTHING;
  }

  lemma EncodedRanges(e: Eager, m: Module, w: WriteIndex)
    requires Encoded(e, m, w)
    ensures e.ranges == if m.flags.nsRanges then m.ranges else []
  {
    hide NormAll, Targets;
  }

  /** A refused bundle of the encoder had its choice made. */
  lemma Picks(error: DecodeError, e: Eager, m: Module, w: WriteIndex, b: Bundle, owners: seq<nat>, choice: Choice,
              sel: seq<NSRange>)
    requires Encoded(e, m, w) && Ranged(m, w, b, owners) && Refuses(error, e, choice, sel)
    ensures Chooses(sel, e.ranges, choice)
  {
    hide Encoded, Compiled, Chooses, RefusesChosen, ValidRanges;
    EncodedRanges(e, m, w);
    if m.flags.nsRanges {
      NoBadTable(e, m, w, b, owners, choice);
    }
  }

  lemma AcceptedChoice(e: Eager, choice: Choice, sel: seq<NSRange>)
    requires Accepts(e, choice, sel)
    ensures Chooses(sel, e.ranges, choice)
  {
    hide Chooses, RefsMet, RunsInPool, BadTable;
  }

  lemma NamesFit(e: Eager, sel: seq<NSRange>, byName: map<Str, nat>, n: int)
    requires TableFits(e, sel, byName, n)
    ensures NameIndex(byName, sel)
  {
    hide IsMain, MainMissing, TableAgrees, AllNamed;
  }
}
