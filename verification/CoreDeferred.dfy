/** A bundle whose main chunk depends on what is deferred: two namespaces, "core" and "x",
    that share nothing. */
module CoreDeferred {
  import opened Wire
  import opened Stream
  import opened Values
  import opened ValueProofs
  import opened Chunks
  import opened Sections
  import opened Sorting
  import opened Modules
  import opened Reachability
  import opened NSRanges
  import opened Validation
  import opened Selection
  import opened EagerDecode
  import opened LazyDecode
  import opened Deferred
  import opened Bundles
  import opened DeferralProofs
  import opened EndToEnd

  const X: Str := [0x78]
  const CORE_ENTRY := NSRange(CORE, 1, 0, 0, [])
  const X_ENTRY := NSRange(X, 2, 0, 0, [])

  /** Chunk 1 is the main chunk of "core", chunk 2 that of "x"; their stack bounds tell
      them apart. */
  function Built(): Module {
    Module(2, Flags(false, true, false, false, false, true), 1, [CORE, X],
           [ChunkData(0, [], [], []), ChunkData(1, [], [], []), ChunkData(2, [], [], [])],
           [], 0, map[CORE := 1, X := 2], [CORE_ENTRY, X_ENTRY])
  }

  function Index(): WriteIndex {
    WriteIndex(map[CORE := 0, X := 1], map[0 := 0, 1 := 1, 2 := 2])
  }

  function Analysed(): Bundle {
    Bundle(Program([[], [], []], [], map[0 := 0, 1 := 1, 2 := 2], 0, [1, 2]), [CORE, X],
           map[CORE := ConstRange(0, 0), X := ConstRange(0, 0)])
  }

  lemma Writes(valid: TextParsers)
    ensures Encodable(Built(), Index(), valid) && Lists([CORE, X], Built())
  {
    assert StrLess(CORE, X);
  }

  /** Without constants a chunk reaches itself only. */
  lemma Alone(a: nat, k: nat)
    ensures Reachable(Analysed().prog, a, k) <==> k == a
  {
    var g := Analysed().prog;
    ReachesSelf(g, a);
    ClosedHoldsReachable(g, {a}, a);
  }

  lemma FirstRun(g: Program, span: ConstRange, ns: nat, runs: seq<ConstRange>)
    requires RunsAre(g, span, ns, runs)
    ensures runs != [] ==> Deferrable(g, span, ns, runs[0].lo)
  {
    hide Deferrable;
    if runs != [] {
      assert InRun(runs[0], runs[0].lo);
    }
  }

  lemma Qualify(n: nat)
    requires n < 2
    ensures var g, span := Analysed().prog, ConstRange(0, 0);
      SelfContained(g, span, n) && Qualifies(g, span, n, 0, 0) && forall runs :: RunsAre(g, span, n, runs) ==> runs == []
  {
    hide Reachable;
    var g, span := Analysed().prog, ConstRange(0, 0);
    forall a: nat, k: nat { Alone(a, k); }
    assert SpanFuncs(g, span) == {};
    forall runs: seq<ConstRange> | RunsAre(g, span, n, runs)
      ensures runs == []
    {
      FirstRun(g, span, n, runs);
    }
  }

  lemma EntryIs(n: nat, e: NSRange)
    requires n < 2 && EntryFor(Analysed(), n, e)
    ensures e == if n == 0 then CORE_ENTRY else X_ENTRY
  {
    hide SelfContained, OwnMain, RunsAre;
    Qualify(n);
    assert SpanFuncs(Analysed().prog, ConstRange(0, 0)) == {};
  }

  /** The analysis emits both entries, and they validate. */
  lemma Emits(entries: seq<NSRange>, owners: seq<nat>)
    requires Emitted(Analysed(), 2, entries, owners)
    ensures entries == Built().ranges && ValidRanges(entries, 3, 0)
  {
    hide Qualifies, RunsAre, ValidRanges;
    var b := Analysed();
    Qualify(0);
    Qualify(1);
    assert 0 in owners && 1 in owners by {
      assert b.spans[b.names[0]] == b.spans[b.names[1]] == ConstRange(0, 0);
    }
    forall i | 0 <= i < |owners|
      ensures owners[i] < 2 && entries[i] == if owners[i] == 0 then CORE_ENTRY else X_ENTRY
    {
      EntryIs(owners[i], entries[i]);
    }
    TwoOwners(owners);
    BothValid();
  }

  lemma {:induction false} Climbs(owners: seq<nat>, i: nat)
    requires i < |owners| && forall i, j :: 0 <= i < j < |owners| ==> owners[i] < owners[j]
    ensures owners[i] >= i
  {
    if i == 0 {
    } else {
      Climbs(owners, i - 1);
    }
  }

  lemma TwoOwners(owners: seq<nat>)
    requires forall i :: 0 <= i < |owners| ==> owners[i] < 2
    requires forall i, j :: 0 <= i < j < |owners| ==> owners[i] < owners[j]
    requires 0 in owners && 1 in owners
    ensures owners == [0, 1]
  {
    Climbs(owners, |owners| - 1);
  }

  lemma BothValid()
    ensures ValidRanges(Built().ranges, 3, 0) && ValidRanges(Built().ranges, 3, -1)
  {
    NoRunsAtAll(Built().ranges);
    TwoValid(CORE_ENTRY, X_ENTRY, 0);
    TwoValid(CORE_ENTRY, X_ENTRY, -1);
  }

  lemma TwoValid(a: NSRange, b: NSRange, constCount: int)
    requires a.runs == b.runs == [] && a.mainChunk == 1 && b.mainChunk == 2
    requires a.chunkLo == a.chunkHi == b.chunkLo == b.chunkHi == 0
    ensures ValidRanges([a, b], 3, constCount)
  {
    hide AllRuns, EntriesOk, ChunkRunsOk, PairwiseApart;
    NoRunsAtAll([a, b]);
    assert PairwiseApart([]) by { NothingApart(); }
    TwoFit(a, b, constCount);
    TwoApart(a, b);
  }

  lemma NothingApart()
    ensures PairwiseApart([])
  {
  }

  lemma TwoFit(a: NSRange, b: NSRange, constCount: int)
    requires a.runs == b.runs == [] && a.mainChunk == 1 && b.mainChunk == 2
    requires a.chunkLo == a.chunkHi == b.chunkLo == b.chunkHi == 0
    ensures EntriesOk([a, b], 3, constCount)
  {
  }

  lemma TwoApart(a: NSRange, b: NSRange)
    requires a.chunkLo == a.chunkHi == b.chunkLo == b.chunkHi == 0
    ensures ChunkRunsOk([a, b])
  {
  }

  lemma {:induction false} NoRunsAtAll(rs: seq<NSRange>)
    requires forall i :: 0 <= i < |rs| ==> rs[i].runs == []
    ensures AllRuns(rs) == []
  {
    if rs == [] {
    } else {
      NoRunsAtAll(rs[1..]);
    }
  }

  lemma EmitsBoth()
    ensures Emitted(Analysed(), 2, Built().ranges, [0, 1])
  {
    hide Qualifies, RunsAre;
    var b, out, owners := Analysed(), Built().ranges, [0, 1];
    Qualify(0);
    Qualify(1);
    NoConsts();
    forall i | 0 <= i < 2
      ensures EntryFor(b, owners[i], out[i])
    {
      assert b.names[i] in b.spans && b.spans[b.names[i]] == ConstRange(0, 0);
    }
  }

  lemma NoConsts()
    ensures forall n :: RunsAre(Analysed().prog, ConstRange(0, 0), n, [])
    ensures NoSharedChunk(Analysed().prog, ConstRange(0, 0))
  {
  }

  /** The deferral theorems apply to the bundle. */
  lemma IsCompiled()
    ensures Compiled(Built(), Index(), Analysed(), [0, 1])
  {
    hide Emitted, ValidRanges, NoSharedChunk;
    EmitsBoth();
    BothValid();
    NoConsts();
    assert FuncRefsAll([]) == {};
  }

  /** What decoding everything of the encoded bundle gives. */
  ghost predicate IsWhole(whole: Whole, rt: Runtime, valid: TextParsers, c: Codec) {
    WholeOf(whole, Built(), Index(), [CORE, X], rt, valid, c)
  }

  lemma BuiltDecodes(rt: Runtime, valid: TextParsers, c: Codec) returns (whole: Whole)
    requires Lawful(c)
    ensures IsWhole(whole, rt, valid, c)
  {
    hide Encodable, Lists, WholeOf;
    Writes(valid);
    whole := EncodedOf(Built(), Index(), [CORE, X], rt, valid, c);
  }

  lemma BuiltGives(whole: Whole, rt: Runtime, valid: TextParsers, c: Codec)
    requires Lawful(c) && IsWhole(whole, rt, valid, c)
    ensures Sized(whole.e) && Encoded(whole.e, Built(), Index()) && !whole.migrate
  {
    hide Encoded, WholeOf, Sized;
    WholeGives(whole, Built(), Index(), [CORE, X], rt, valid, c);
  }

  lemma Contents(e: Eager)
    requires Sized(e) && Encoded(e, Built(), Index())
    ensures e.ranges == Built().ranges && e.table == Built().nsTable && |e.chunks| == 3 && e.consts == [] && e.refs == []
    ensures forall k :: 0 <= k < 3 ==> FinalChunk(e, false, k).maxStack == k
  {
    forall k | 0 <= k < 3
      ensures FinalChunk(e, false, k).maxStack == k
    {
      ServesModule(e, false, Built(), Index(), k);
    }
  }

  /** The entries that a predicate picks. */
  lemma PickedAre(pick: Str -> bool)
    requires pick(CORE)
    ensures Picked(Built().ranges, pick) == if pick(X) then [CORE_ENTRY, X_ENTRY] else [CORE_ENTRY]
  {
    var rs := Built().ranges;
    assert rs[1..] == [X_ENTRY] && [X_ENTRY][1..] == [];
    assert Picked([], pick) == [];
    assert Picked([X_ENTRY], pick) == if pick(X) then [X_ENTRY] else [];
  }

  lemma PickedCore(sel: seq<NSRange>, pick: Str -> bool)
    requires Chooses(sel, Built().ranges, Some(pick)) && pick(CORE)
    ensures !pick(X) ==> sel == [CORE_ENTRY]
    ensures pick(X) ==> CORE_ENTRY in sel && X_ENTRY in sel
  {
    hide Picked, Built;
    PickedAre(pick);
    if pick(X) {
      SameMembers(sel, CORE_ENTRY, X_ENTRY);
    } else {
      OnlyMember(sel, CORE_ENTRY);
    }
  }

  lemma SameMembers<T>(xs: seq<T>, a: T, b: T)
    requires multiset(xs) == multiset([a, b])
    ensures a in xs && b in xs
  {
    assert [a, b][0] in multiset(xs) && [a, b][1] in multiset(xs);
  }

  /** The unit's main chunk is chunk k. */
  predicate RunsChunk(o: Outcome<ExecUnit>, k: nat) {
    o.Ok? && o.value.main.Some? && o.value.main.value.maxStack == k
  }

  /** Decoded at once the bundle runs "core". */
  lemma EagerMain(rt: Runtime, valid: TextParsers, c: Codec, whole: Whole, o: Outcome<ExecUnit>, sel: seq<NSRange>,
                  n: int)
    requires Lawful(c) && IsWhole(whole, rt, valid, c) && Sized(whole.e) && Decodes(o, whole, valid, None, sel, n)
    ensures RunsChunk(o, 1)
  {
    hide WholeOf, Encoded, Sized, Chooses, FinalChunk, StateIs, Faithful, Located, Complete, RefsMet, EagerLive,
         Built, Index, TableFits;
    BuiltGives(whole, rt, valid, c);
    var e := whole.e;
    Contents(e);
    if o.Ok? {
      AcceptedChoice(e, None, sel);
      NothingPicked(sel, e.ranges);
      MainIsCore(e, o.value.byName, n);
    } else {
      Refusal(rt, valid, c, whole, None, sel, o.error);
      NothingPicked(sel, e.ranges);
      InTheTable([]);
    }
  }

  /** With "core" deferred it runs "x". */
  lemma OtherMain(rt: Runtime, valid: TextParsers, c: Codec, whole: Whole, o: Outcome<ExecUnit>, pick: Str -> bool,
                  sel: seq<NSRange>, n: int)
    requires Lawful(c) && IsWhole(whole, rt, valid, c) && Sized(whole.e) && Decodes(o, whole, valid, Some(pick), sel, n)
    requires pick(CORE) && !pick(X)
    ensures RunsChunk(o, 2)
  {
    hide WholeOf, Encoded, Sized, Chooses, FinalChunk, StateIs, Faithful, Located, Complete, RefsMet, EagerLive,
         Built, Index, TableFits;
    BuiltGives(whole, rt, valid, c);
    var e := whole.e;
    Contents(e);
    if o.Ok? {
      PickedCore(sel, pick);
      MainIsX(e, o.value.byName, n);
    } else {
      Refusal(rt, valid, c, whole, Some(pick), sel, o.error);
      PickedCore(sel, pick);
      InTheTable([CORE_ENTRY]);
    }
  }

  lemma Refusal(rt: Runtime, valid: TextParsers, c: Codec, whole: Whole, choice: Choice, sel: seq<NSRange>,
                error: DecodeError)
    requires Lawful(c) && IsWhole(whole, rt, valid, c) && Refuses(error, whole.e, choice, sel)
    ensures Refusable(Built(), sel) && Chooses(sel, whole.e.ranges, choice)
  {
    hide WholeOf, Encoded, Sized, Chooses, Built, Index, Analysed, Compiled, Refuses, Refusable, Encodable;
    BuiltGives(whole, rt, valid, c);
    Writes(valid);
    IsCompiled();
    Picks(error, whole.e, Built(), Index(), Analysed(), [0, 1], choice, sel);
    RefusedFor(whole.e, Built(), Index(), valid, Analysed(), [0, 1], sel, choice, error);
  }

  lemma InTheTable(sel: seq<NSRange>)
    requires sel == [] || sel == [CORE_ENTRY]
    ensures !Refusable(Built(), sel)
  {
    assert Built().nsTable[X] == 2 && Built().nsTable[CORE] == 1;
  }

  lemma NothingPicked(sel: seq<NSRange>, rs: seq<NSRange>)
    requires Chooses(sel, rs, None)
    ensures sel == [] && forall k :: !DeferredChunk(sel, k)
  {
  }

  lemma MainIsX(e: Eager, byName: map<Str, nat>, n: int)
    requires e.table == Built().nsTable && TableFits(e, [CORE_ENTRY], byName, n)
    ensures n == 2 && !DeferredChunk([CORE_ENTRY], 2)
  {
    assert CORE in byName by {
      assert [CORE_ENTRY][0].name in byName;
    }
    assert e.table[X] == 2 && e.table[CORE] == 1;
  }

  lemma MainIsCore(e: Eager, byName: map<Str, nat>, n: int)
    requires e.table == Built().nsTable && TableFits(e, [], byName, n)
    ensures n == 1
  {
  }

  /** With both deferred it is refused. */
  lemma BothRefused(rt: Runtime, valid: TextParsers, c: Codec, whole: Whole, o: Outcome<ExecUnit>, pick: Str -> bool,
                    sel: seq<NSRange>, n: int)
    requires Lawful(c) && IsWhole(whole, rt, valid, c) && Sized(whole.e)
    requires Decodes(o, whole, valid, Some(pick), sel, n) && pick(CORE) && pick(X)
    ensures o.Err?
  {
    hide WholeOf, Encoded, Sized, Chooses, FinalChunk, StateIs, Faithful, Located, Complete, RefsMet, EagerLive,
         Refuses, TableFits, Built, Index, MainLeftOut;
    BuiltGives(whole, rt, valid, c);
    var e := whole.e;
    Contents(e);
    if o.Ok? {
      PickedCore(sel, pick);
      LeftOut(sel);
      AcceptedHasMain(e, sel, Some(pick), o.value.byName, n);
    }
  }

  lemma LeftOut(sel: seq<NSRange>)
    requires CORE_ENTRY in sel && X_ENTRY in sel
    ensures MainLeftOut(Built().nsTable, sel)
  {
    var i :| 0 <= i < |sel| && sel[i] == CORE_ENTRY;
    var j :| 0 <= j < |sel| && sel[j] == X_ENTRY;
    assert sel[i].name == CORE;
    assert Built().nsTable[X] == 2;
    assert IsLast(Built().nsTable, sel[j].mainChunk);
  }
}
