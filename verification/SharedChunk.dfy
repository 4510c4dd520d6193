/** A bundle for which the width check of the range analysis goes wrong: two function
    constants of one namespace share a chunk, so another's chunk fits into the run. */
module SharedChunk {
  import opened Wire
  import opened Stream
  import opened Values
  import opened ValueProofs
  import opened Chunks
  import opened Sections
  import opened Sorting
  import opened Modules
  import opened Migration
  import opened Reachability
  import opened NSRanges
  import opened Validation
  import opened Selection
  import opened EagerDecode
  import opened LazyDecode
  import opened Deferred
  import opened Bundles
  import opened DeferralProofs

  const A: Str := [0x61]
  const B: Str := [0x62]
  const SPAN := ConstRange(0, 3)
  const ENTRY := NSRange(A, 1, 2, 5, [SPAN])

  /** Namespace "a" has chunk 1 as its main chunk and the first three constants; two of
      these are functions over chunk 2 and one is a function over chunk 4.  Namespace "b"
      runs chunk 0, which loads the last constant, a function over chunk 3. */
  function Prog(): Program {
    Program([[1, 3], [], [], [], []],
            [Func(2, 0, false, []), Func(2, 0, false, []), Func(4, 0, false, []), Func(3, 0, false, [])],
            map[0 := 0, 1 := 1, 2 := 2, 3 := 3, 4 := 4], 0, [1, 0])
  }

  function Analysed(): Bundle {
    Bundle(Prog(), [A, B], map[A := SPAN])
  }

  lemma Sizes()
    ensures var g := Prog();
      |g.code| == 5 && g.mains == [1, 0] && |g.consts| == 4 && WellFormed(g)
  {
  }

  lemma Reads(k: nat)
    requires k < 5
    ensures Loads(Prog(), k) == if k == 0 then {3} else {}
  {
    var code := Prog().code[k];
    assert ConstReads([]) == {};
    if k == 0 {
      assert Op(code[0]) == 1 && Next(code, Stride) == 2 && code[2..] == [];
      assert ConstReads(code) == {3};
    }
  }

  lemma Refs(c: nat)
    requires c < 4
    ensures ChunkRefs(Prog(), c) == {if c < 2 then 2 else if c == 2 then 4 else 3}
  {
    var g := Prog();
    var f := if c < 2 then 2 else if c == 2 then 4 else 3;
    assert FuncRefs(g.consts[c]) == {f} && g.index[f] == f;
  }

  lemma Reach(n: nat, k: nat)
    requires n < 2
    ensures var g := Prog(); Reachable(g, g.mains[n], k) <==> k == 1 - n || (n == 1 && k == 3)
  {
    hide Prog, Loads, ChunkRefs;
    var g := Prog();
    Sizes();
    forall j: nat | j < 5 { Reads(j); }
    Refs(3);
    ReachesSelf(g, 1 - n);
    assert ChunkEdge(g, 0, 3);
    if n == 1 { ReachesNext(g, 0, 0, 3); }
    ClosedHoldsReachable(g, if n == 0 then {1} else {0, 3}, 1 - n);
  }

  lemma Users()
    ensures var g := Prog();
      && (forall c: nat :: c < 3 ==> ConstUsers(g, c) == {})
      && ChunkUsers(g, 2) == {} && ChunkUsers(g, 4) == {} && ChunkUsers(g, 1) == {0}
  {
    hide Loads, Reachable, Prog;
    Sizes();
    forall n, k: nat | 0 <= n < 2 { Reach(n, k); }
    forall k: nat | k < 5 { Reads(k); }
  }

  lemma Funcs()
    ensures var g := Prog();
      && SpanFuncs(g, SPAN) == {0, 1, 2} && TightRun(g, SpanFuncs(g, SPAN), 2, 5)
      && Indexed(g, 0) && Indexed(g, 1) && Indexed(g, 2)
      && ChunkOf(g, 0) == 2 && ChunkOf(g, 1) == 2 && ChunkOf(g, 2) == 4
  {
    assert SpanFuncs(Prog(), SPAN) == {0, 1, 2};
  }

  /** The run [2, 5) qualifies for "a", though code of "b" reaches chunk 3. */
  lemma Unsound()
    ensures var g := Prog();
      && SelfContained(g, SPAN, 0) && Qualifies(g, SPAN, 0, 2, 5)
      && Reachable(g, g.mains[1], 3) && !NoSharedChunk(g, SPAN)
  {
    hide Loads, ChunkRefs, Reachable, TightRun, ChunkUsers, ConstUsers, Prog, Indexed, ChunkOf, SpanFuncs;
    var g := Prog();
    Sizes();
    Users();
    Funcs();
    Reach(1, 3);
    forall c: nat | c < 4 { Refs(c); }
    assert SelfContained(g, SPAN, 0) by {
      forall c: nat | SpanFunc(g, SPAN, c)
        ensures OwnFunc(g, SPAN, 0, c)
      {
        assert c in {0, 1, 2};
      }
    }
  }

  // ---------------------------------------------------------- it is emitted

  lemma OwnConsts(c: nat)
    ensures Deferrable(Prog(), SPAN, 0, c) <==> c < 3
  {
    hide ConstUsers, Prog;
    Sizes();
    Users();
  }

  /** Runs that ascend with gaps and hold exactly 0, 1 and 2 are one run. */
  lemma OneRun(runs: seq<ConstRange>)
    requires RunsAre(Prog(), SPAN, 0, runs)
    ensures runs == [SPAN]
  {
    hide Deferrable, Prog;
    forall c: nat { OwnConsts(c); }
    assert |runs| > 1 ==> runs[0].hi < runs[1].lo;
    forall i | 0 <= i < |runs|
      ensures runs[i].lo < 3
    {
      assert InRun(runs[i], runs[i].lo) && Deferrable(Prog(), SPAN, 0, runs[i].lo);
    }
    assert Deferrable(Prog(), SPAN, 0, 0);
    var i :| 0 <= i < |runs| && InRun(runs[i], 0);
    if i > 0 {
      Ascend(Prog(), runs, i);
    }
    var hi: nat := runs[0].hi;
    assert InRun(runs[0], hi - 1) && Deferrable(Prog(), SPAN, 0, hi - 1);
    if hi < 3 {
      assert Deferrable(Prog(), SPAN, 0, hi);
      var j :| 0 <= j < |runs| && InRun(runs[j], hi);
      Ascend(Prog(), runs, j);
    }
  }

  lemma {:induction false} Ascend(g: Program, runs: seq<ConstRange>, j: nat)
    requires 0 < j < |runs| && RunsAre(g, SPAN, 0, runs)
    ensures runs[0].hi < runs[j].lo
  {
    hide Deferrable;
    if j > 1 {
      Ascend(g, runs, j - 1);
    }
  }

  lemma FirstTwo(owners: seq<nat>)
    requires forall i, j :: 0 <= i < j < |owners| ==> owners[i] < owners[j]
    ensures |owners| > 1 ==> owners[0] < owners[1]
  {
  }

  /** nsRanges emits exactly the bad entry, and it validates. */
  lemma Emits(entries: seq<NSRange>, owners: seq<nat>)
    requires Emitted(Analysed(), 2, entries, owners)
    ensures entries == [ENTRY] && owners == [0] && ValidRanges(entries, 5, 4) && ValidRanges(entries, 5, -1)
  {
    hide Prog, Qualifies, RunsAre, ValidRanges;
    var b := Analysed();
    Sizes();
    Unsound();
    assert 0 in owners by {
      assert b.names[0] in b.spans && b.spans[b.names[0]] == SPAN;
    }
    FirstTwo(owners);
    forall i | 0 <= i < |owners|
      ensures owners[i] == 0
    {
      assert EntryFor(b, owners[i], entries[i]);
    }
    assert |owners| == 1;
    OnlyEntry(entries[0]);
    EntryValid();
  }

  lemma OnlyEntry(e: NSRange)
    requires EntryFor(Analysed(), 0, e)
    ensures e == ENTRY
  {
    hide Prog, TightRun, SpanFuncs, RunsAre, SelfContained, OwnMain;
    Sizes();
    Funcs();
    Unsound();
    TightRunUnique(Prog(), SPAN, 0, 2, 5, e.chunkLo, e.chunkHi);
    OneRun(e.runs);
  }

  lemma EntryValid()
    ensures ValidRanges([ENTRY], 5, 4) && ValidRanges([ENTRY], 5, -1)
  {
    assert AllRuns([ENTRY]) == [SPAN];
  }

  // ------------------------------------------------------ and decoding fails

  /** The bundle, as the encoder is given it. */
  function Built(): Module {
    Module(2, Flags(false, true, false, false, false, true), 1, [A, B, []],
           seq(5, k requires 0 <= k < 5 => ChunkData(0, Prog().code[k], [], [])),
           Prog().consts, 0, map[A := 1, B := 0], [ENTRY])
  }

  function Index(): WriteIndex {
    WriteIndex(map[A := 0, B := 1, [] := 2], map[0 := 0, 1 := 1, 2 := 2, 3 := 3, 4 := 4])
  }

  lemma ConstsWritable(valid: TextParsers)
    ensures ConstsFit(Prog().consts, Index()) && CanonicalAll(Prog().consts, valid)
    ensures FuncRefsAll(Prog().consts) <= {2, 3, 4}
  {
    var vs := Prog().consts;
    assert vs[1..][1..][1..][1..] == [];
    assert vs[1..][0] == vs[1] && vs[1..][1..][0] == vs[2] && vs[1..][1..][1..][0] == vs[3];
    FuncsWritable(vs, valid);
  }

  lemma {:induction false} FuncsWritable(vs: seq<Value>, valid: TextParsers)
    requires forall i :: 0 <= i < |vs| ==> vs[i].Func? && vs[i].name == [] && vs[i].chunk in {2, 3, 4}
    ensures WritableAll(vs, Index()) && CanonicalAll(vs, valid) && FuncRefsAll(vs) <= {2, 3, 4}
  {
    if vs == [] {
    } else {
      FuncsWritable(vs[1..], valid);
    }
  }

  lemma Writes(valid: TextParsers)
    ensures Encodable(Built(), Index(), valid) && Lists([A, B], Built())
  {
    hide ConstsFit, CanonicalAll, FuncRefsAll;
    ConstsWritable(valid);
    assert StrLess(A, B);
  }

  /** Constant 3 refers to chunk 3. */
  lemma LastTarget()
    ensures Targets(Built().consts[3], Index()) == {3}
  {
    assert FuncRefs(Prog().consts[3]) == {3};
  }

  /** Only the entry of "a" can be picked, and it is. */
  lemma PickedA(sel: seq<NSRange>, pick: Str -> bool)
    requires Chooses(sel, [ENTRY], Some(pick)) && pick(A)
    ensures sel == [ENTRY]
  {
    assert Picked([ENTRY], pick) == [ENTRY] by {
      assert [ENTRY][1..] == [];
      assert Picked([], pick) == [];
    }
    OnlyMember(sel, ENTRY);
  }

  /** What decoding everything of the encoded bundle gives. */
  ghost predicate IsWhole(whole: Whole, rt: Runtime, valid: TextParsers, c: Codec) {
    WholeOf(whole, Built(), Index(), [A, B], rt, valid, c)
  }

  lemma BuiltDecodes(rt: Runtime, valid: TextParsers, c: Codec) returns (whole: Whole)
    requires Lawful(c)
    ensures IsWhole(whole, rt, valid, c)
  {
    hide Encodable, Lists, WholeOf;
    Writes(valid);
    whole := EncodedOf(Built(), Index(), [A, B], rt, valid, c);
  }

  lemma BuiltGives(whole: Whole, rt: Runtime, valid: TextParsers, c: Codec)
    requires Lawful(c) && IsWhole(whole, rt, valid, c)
    ensures Sized(whole.e) && Encoded(whole.e, Built(), Index()) && !whole.migrate
  {
    hide Encoded, WholeOf, Sized;
    WholeGives(whole, Built(), Index(), [A, B], rt, valid, c);
  }

  /** Decoding the encoded bundle at once works; decoding it with "a" deferred fails, on
      the constant of "b" that needs a chunk of the run. */
  lemma DeferringFails(rt: Runtime, valid: TextParsers, c: Codec, whole: Whole, o: Outcome<ExecUnit>, choice: Choice,
                       sel: seq<NSRange>, n: int)
    requires Lawful(c) && IsWhole(whole, rt, valid, c) && Sized(whole.e) && Decodes(o, whole, valid, choice, sel, n)
    ensures choice.None? ==> o.Ok?
    ensures choice.Some? && choice.value(A) ==> o == Err(DeferredOutside)
  {
    hide WholeOf, Encoded, Built, Index, Sized, UnitOf, Chooses, IsMain, TableAgrees, NameIndex;
    BuiltGives(whole, rt, valid, c);
    var e := whole.e;
    Contents(e);
    EntryValid();
    if choice.Some? && choice.value(A) {
      if !BadTable(e, choice) && Chooses(sel, e.ranges, choice) {
        PickedA(sel, choice.value);
        LastRefused(e);
      }
    } else if choice.None? && o.Err? {
      NothingRefused(e, sel, o.error);
    }
  }

  lemma Contents(e: Eager)
    requires Encoded(e, Built(), Index())
    ensures e.ranges == [ENTRY] && |e.chunks| == 5 && |e.consts| == 4 && |e.refs| == 4 && e.refs[3] == {3}
    ensures e.table == map[A := 1, B := 0]
    ensures forall i :: 0 <= i < 4 ==> e.refs[i] == Targets(Built().consts[i], Index())
  {
    hide Targets;
    LastTarget();
  }

  lemma LastRefused(e: Eager)
    requires |e.chunks| == 5 && |e.refs| == 4 && e.refs[3] == {3}
    ensures !RefsMet(e.refs, [ENTRY], EagerLive([ENTRY], |e.chunks|), |e.refs|)
  {
    assert OwnsChunk([ENTRY][0], 3);
    assert !AllLive(e.refs[3], EagerLive([ENTRY], 5));
    assert !DeferredConst([ENTRY], 3);
  }

  lemma NothingRefused(e: Eager, sel: seq<NSRange>, error: DecodeError)
    requires Encoded(e, Built(), Index())
    ensures !Refuses(error, e, None, sel)
  {
    hide Encoded, Prog;
    Contents(e);
    forall c | 0 <= c < |e.refs|
      ensures AllLive(e.refs[c], EagerLive([], |e.chunks|))
    {
      TargetsInside(c);
    }
  }

  lemma TargetsInside(c: nat)
    requires c < 4
    ensures forall k :: k in Targets(Built().consts[c], Index()) ==> k < 5
  {
  }
}
