/** nsRanges: which namespaces of a bundle a decoder may leave undecoded, and why
    that is safe. */
module NSRanges {
  import opened Wire
  import opened Values
  import opened Sections
  import opened Validation
  import opened Reachability
  import opened Migration

  /** The builder's state: the program, the namespace names in order, and the constant
      range each namespace's compilation appended. */
  datatype Bundle = Bundle(prog: Program, names: seq<Str>, spans: map<Str, ConstRange>)

  ghost predicate BundleOk(b: Bundle) {
    && WellFormed(b.prog) && |b.names| == |b.prog.mains|
    && |b.prog.code| < TWO63 && |b.prog.consts| < TWO63
    && (forall x :: x in b.spans ==> 0 <= b.spans[x].lo)
  }

  // ------------------------------------------------------------ what qualifies

  ghost predicate Only(users: set<nat>, ns: nat) {
    forall m :: m in users ==> m == ns
  }

  predicate InSpan(span: ConstRange, c: int) {
    span.lo <= c < span.hi
  }

  /** A constant of the namespace's range that no other namespace's code reads. */
  ghost predicate Deferrable(g: Program, span: ConstRange, ns: nat, c: nat) {
    c < |g.consts| && InSpan(span, c) && Only(ConstUsers(g, c), ns)
  }

  /** The function constants of the namespace's range. */
  ghost predicate SpanFunc(g: Program, span: ConstRange, c: nat) {
    c < |g.consts| && InSpan(span, c) && g.consts[c].Func?
  }

  ghost function SpanFuncs(g: Program, span: ConstRange): set<nat> {
    set c | 0 <= c < |g.consts| && SpanFunc(g, span, c)
  }

  /** A function constant whose chunk the bundle holds. */
  predicate Indexed(g: Program, c: nat) {
    c < |g.consts| && g.consts[c].Func? && g.consts[c].chunk in g.index
  }

  function ChunkOf(g: Program, c: nat): nat
    requires Indexed(g, c)
  {
    g.index[g.consts[c].chunk]
  }

  /** Nothing but the namespace reaches its main chunk, and no function uses it. */
  ghost predicate OwnMain(g: Program, ns: nat)
    requires ns < |g.mains|
  {
    && Only(ChunkUsers(g, g.mains[ns]), ns)
    && forall c: nat :: c < |g.consts| ==> g.mains[ns] !in ChunkRefs(g, c)
  }

  /** A function constant of the range is the namespace's alone, and so is every use of
      its chunk. */
  ghost predicate OwnFunc(g: Program, span: ConstRange, ns: nat, c: nat)
    requires SpanFunc(g, span, c)
  {
    && Indexed(g, c) && ChunkOf(g, c) !in g.mains
    && Deferrable(g, span, ns, c)
    && Only(ChunkUsers(g, ChunkOf(g, c)), ns)
    && forall r: nat :: r < |g.consts| && ChunkOf(g, c) in ChunkRefs(g, r) ==> Deferrable(g, span, ns, r)
  }

  ghost predicate SelfContained(g: Program, span: ConstRange, ns: nat) {
    forall c: nat :: SpanFunc(g, span, c) ==> OwnFunc(g, span, ns, c)
  }

  /** [lo, hi) is the least range that holds the functions' chunks, empty at 0 if there
      are none. */
  ghost predicate TightRun(g: Program, funcs: set<nat>, lo: int, hi: int) {
    && (forall c :: c in funcs ==> Indexed(g, c) && lo <= ChunkOf(g, c) < hi)
    && (funcs == {} ==> lo == 0 && hi == 0)
    && (funcs != {} ==> exists c :: c in funcs && Indexed(g, c) && ChunkOf(g, c) == lo)
    && (funcs != {} ==> exists c :: c in funcs && Indexed(g, c) && ChunkOf(g, c) == hi - 1)
  }

  /** The runs are the maximal stretches of deferrable constants. */
  ghost predicate RunsAre(g: Program, span: ConstRange, ns: nat, runs: seq<ConstRange>) {
    && (forall i :: 0 <= i < |runs| ==> 0 <= runs[i].lo < runs[i].hi <= |g.consts|)
    && (forall i :: 0 < i < |runs| ==> runs[i - 1].hi < runs[i].lo)
    && (forall i, c: nat :: 0 <= i < |runs| && InRun(runs[i], c) ==> Deferrable(g, span, ns, c))
    && (forall c: nat :: Deferrable(g, span, ns, c) ==> exists i :: 0 <= i < |runs| && InRun(runs[i], c))
  }

  /** What nsRanges asks of a namespace before it emits [lo, hi) for it.  It compares
      the width of the run with the number of function constants. */
  ghost predicate Qualifies(g: Program, span: ConstRange, ns: nat, lo: int, hi: int)
    requires ns < |g.mains|
  {
    && OwnMain(g, ns) && SelfContained(g, span, ns)
    && TightRun(g, SpanFuncs(g, span), lo, hi) && hi - lo == |SpanFuncs(g, span)|
  }

  ghost predicate EntryFor(b: Bundle, ns: nat, e: NSRange)
    requires ns < |b.names| == |b.prog.mains|
  {
    && b.names[ns] in b.spans && e.name == b.names[ns] && e.mainChunk == b.prog.mains[ns]
    && Qualifies(b.prog, b.spans[e.name], ns, e.chunkLo, e.chunkHi)
    && RunsAre(b.prog, b.spans[e.name], ns, e.runs)
  }

  ghost predicate Unqualified(b: Bundle, ns: nat)
    requires ns < |b.names| == |b.prog.mains|
  {
    b.names[ns] in b.spans ==> forall lo, hi :: !Qualifies(b.prog, b.spans[b.names[ns]], ns, lo, hi)
  }

  // -------------------------------------------------------------- the analysis

  /** What the owner arrays say, in terms of the users. */
  lemma OwnerMeans(o: int, n: nat, users: set<nat>, ns: nat)
    requires Owner(o, n, users) && ns < n && forall m :: m in users ==> m < n
    ensures o == ns || o == NONE <==> Only(users, ns)
    ensures o == ns <==> Only(users, ns) && ns in users
  {
  }

  predicate OwnedBy(o: int, ns: nat) {
    o == ns || o == NONE
  }

  lemma OwnersMean(g: Program, ns: nat, constOwner: seq<int>, chunkOwner: seq<int>)
    requires ns < |g.mains| && |constOwner| == |g.consts| && |chunkOwner| == |g.code|
    requires OwnersUpTo(g, |g.mains|, constOwner, chunkOwner)
    ensures forall c :: 0 <= c < |g.consts| ==> (OwnedBy(constOwner[c], ns) <==> Only(ConstUsers(g, c), ns))
    ensures forall k :: 0 <= k < |g.code| ==> (OwnedBy(chunkOwner[k], ns) <==> Only(ChunkUsers(g, k), ns))
  {
    hide Owner, Reachable, ReachesConst;
    forall c | 0 <= c < |g.consts|
      ensures OwnedBy(constOwner[c], ns) <==> Only(ConstUsers(g, c), ns)
    {
      OwnerMeans(constOwner[c], |g.mains|, ConstUsers(g, c), ns);
    }
    forall k | 0 <= k < |g.code|
      ensures OwnedBy(chunkOwner[k], ns) <==> Only(ChunkUsers(g, k), ns)
    {
      OwnerMeans(chunkOwner[k], |g.mains|, ChunkUsers(g, k), ns);
    }
  }

  lemma OwnMainUser(g: Program, ns: nat, chunkOwner: seq<int>)
    requires WellFormed(g) && ns < |g.mains| && |chunkOwner| == |g.code|
    requires Owner(chunkOwner[g.mains[ns]], |g.mains|, ChunkUsers(g, g.mains[ns]))
    ensures chunkOwner[g.mains[ns]] == ns <==> Only(ChunkUsers(g, g.mains[ns]), ns)
  {
    hide Owner, Reachable;
    ReachesSelf(g, g.mains[ns]);
    OwnerMeans(chunkOwner[g.mains[ns]], |g.mains|, ChunkUsers(g, g.mains[ns]), ns);
  }

  /** `uses` lists the constants below n a function inside which refers to chunk k. */
  ghost predicate UsesAre(g: Program, uses: seq<nat>, k: nat, n: nat)
    requires n <= |g.consts|
  {
    forall c: nat :: c in uses <==> c < n && k in ChunkRefs(g, c)
  }

  ghost predicate RefsUpTo(g: Program, refs: seq<seq<nat>>, n: nat)
    requires n <= |g.consts|
  {
    |refs| == |g.code| && forall k :: 0 <= k < |refs| ==> UsesAre(g, refs[k], k, n)
  }

  /** The uses of each chunk. */
  ghost predicate RefsAre(g: Program, refs: seq<seq<nat>>) {
    RefsUpTo(g, refs, |g.consts|)
  }

  method AddRefs(g: Program, c: nat, refs: array<seq<nat>>)
    requires WellFormed(g) && c < |g.consts| && refs.Length == |g.code|
    requires RefsUpTo(g, refs[..], c)
    modifies refs
    ensures RefsUpTo(g, refs[..], c + 1)
  {
    hide ChunkRefs, UsesAre, Hits;
    NoHits(g);
    var fs := FuncSeq(g.consts[c]);
    assert fs[..0] == [];
    ghost var before := refs[..];
    assert forall k :: 0 <= k < |before| ==> UsesAre(g, before[k], k, c);
    var j := 0;
    while j < |fs|
      invariant 0 <= j <= |fs|
      invariant forall k :: 0 <= k < refs.Length ==> Extends(refs[k], before[k], c)
      invariant forall k :: 0 <= k < refs.Length ==> (refs[k] != before[k] <==> Hits(g, fs[..j], k))
    {
      if fs[j] in g.index {
        var k := g.index[fs[j]];
        refs[k] := refs[k] + [c];
      }
      forall x
        ensures Hits(g, fs[..j + 1], x) <==> Hits(g, fs[..j], x) || (fs[j] in g.index && g.index[fs[j]] == x)
      {
        HitsStep(g, fs, j, x);
      }
      j := j + 1;
    }
    assert fs[..j] == fs;
    forall k | 0 <= k < refs.Length
      ensures UsesAre(g, refs[k], k, c + 1)
    {
      UsesStep(g, before[k], refs[k], k, c);
    }
  }

  /** Some listed function has chunk k. */
  ghost predicate Hits(g: Program, fs: seq<nat>, k: int) {
    exists f :: f in fs && f in g.index && g.index[f] == k
  }

  lemma NoHits(g: Program)
    ensures forall k :: !Hits(g, [], k)
  {
  }

  lemma HitsStep(g: Program, fs: seq<nat>, j: nat, k: int)
    requires j < |fs|
    ensures Hits(g, fs[..j + 1], k) <==> Hits(g, fs[..j], k) || (fs[j] in g.index && g.index[fs[j]] == k)
  {
    assert fs[..j + 1] == fs[..j] + [fs[j]];
    assert fs[j] in fs[..j + 1];
    if Hits(g, fs[..j], k) {
      var f :| f in fs[..j] && f in g.index && g.index[f] == k;
      assert f in fs[..j + 1];
    }
  }

  ghost predicate Extends(uses: seq<nat>, before: seq<nat>, c: nat) {
    |before| <= |uses| && uses[..|before|] == before && forall i :: |before| <= i < |uses| ==> uses[i] == c
  }

  lemma UsesStep(g: Program, before: seq<nat>, uses: seq<nat>, k: nat, c: nat)
    requires c < |g.consts| && UsesAre(g, before, k, c) && Extends(uses, before, c)
    requires uses != before <==> Hits(g, FuncSeq(g.consts[c]), k)
    ensures UsesAre(g, uses, k, c + 1)
  {
    var fs := FuncSeq(g.consts[c]);
    FuncSeqRefs(g.consts[c]);
    assert uses == before + uses[|before|..];
    if k in ChunkRefs(g, c) {
      var f :| f in FuncRefs(g.consts[c]) && f in g.index && g.index[f] == k;
      assert f in fs;
      assert uses[|before|..] != [];
      assert uses[|before|] == c;
    } else {
      assert forall f :: f in fs ==> f in FuncRefs(g.consts[c]);
      assert uses == before;
    }
    forall x: nat
      ensures x in uses <==> x < c + 1 && k in ChunkRefs(g, x)
    {
      assert x in uses <==> x in before || x in uses[|before|..];
    }
  }

  method FindRefs(g: Program) returns (refs: seq<seq<nat>>)
    requires WellFormed(g)
    ensures RefsAre(g, refs)
  {
    var a := new seq<nat>[|g.code|](_ => []);
    var c := 0;
    while c < |g.consts|
      invariant 0 <= c <= |g.consts|
      invariant RefsUpTo(g, a[..], c)
    {
      AddRefs(g, c, a);
      c := c + 1;
    }
    refs := a[..];
  }

  ghost predicate InSome(runs: seq<ConstRange>, c: int) {
    exists i :: 0 <= i < |runs| && InRun(runs[i], c)
  }

  /** The runs of the deferrable constants below n. */
  ghost predicate RunsUpTo(g: Program, span: ConstRange, ns: nat, runs: seq<ConstRange>, n: int) {
    && (forall i :: 0 <= i < |runs| ==> 0 <= runs[i].lo < runs[i].hi <= |g.consts| && runs[i].hi <= n)
    && (forall i :: 0 < i < |runs| ==> runs[i - 1].hi < runs[i].lo)
    && (forall i, c: nat :: 0 <= i < |runs| && InRun(runs[i], c) ==> Deferrable(g, span, ns, c))
    && (forall c: nat :: c < n && Deferrable(g, span, ns, c) ==> InSome(runs, c))
  }

  function AddConst(runs: seq<ConstRange>, c: nat): seq<ConstRange>
    requires c < TWO63 - 1
  {
    if runs != [] && runs[|runs| - 1].hi == c then runs[|runs| - 1 := runs[|runs| - 1].(hi := c + 1)]
    else runs + [ConstRange(c, c + 1)]
  }

  lemma RunsStart(g: Program, span: ConstRange, ns: nat)
    ensures RunsUpTo(g, span, ns, [], span.lo)
  {
  }

  lemma SkipConstKeeps(g: Program, span: ConstRange, ns: nat, runs: seq<ConstRange>, c: nat)
    requires RunsUpTo(g, span, ns, runs, c) && !Deferrable(g, span, ns, c)
    ensures RunsUpTo(g, span, ns, runs, c + 1)
  {
    hide Deferrable, InSome;
  }

  lemma RunsDone(g: Program, span: ConstRange, ns: nat, runs: seq<ConstRange>, n: int)
    requires RunsUpTo(g, span, ns, runs, n) && (n >= span.hi || n >= |g.consts|)
    ensures RunsAre(g, span, ns, runs)
  {
    hide Only;
    forall c: nat | Deferrable(g, span, ns, c)
      ensures exists i :: 0 <= i < |runs| && InRun(runs[i], c)
    {
      assert InSome(runs, c);
    }
  }

  lemma AddConstKeeps(g: Program, span: ConstRange, ns: nat, runs: seq<ConstRange>, c: nat)
    requires c < |g.consts| < TWO63 && RunsUpTo(g, span, ns, runs, c) && Deferrable(g, span, ns, c)
    ensures RunsUpTo(g, span, ns, AddConst(runs, c), c + 1)
  {
    hide Deferrable;
    var now := AddConst(runs, c);
    var last := |now| - 1;
    assert InRun(now[last], c);
    forall x: nat | x < c + 1 && Deferrable(g, span, ns, x)
      ensures InSome(now, x)
    {
      if x < c {
        assert InSome(runs, x);
        var i :| 0 <= i < |runs| && InRun(runs[i], x);
        assert InRun(now[i], x);
      }
    }
    forall i, x: nat | 0 <= i < |now| && InRun(now[i], x)
      ensures Deferrable(g, span, ns, x)
    {
      if x != c {
        assert i < |runs| && InRun(runs[i], x);
      }
    }
  }

  /** The first loop over the range: its deferrable constants as runs. */
  method CollectRuns(g: Program, span: ConstRange, ns: nat, constOwner: seq<int>) returns (runs: seq<ConstRange>)
    requires 0 <= span.lo && |constOwner| == |g.consts| < TWO63
    requires forall c :: 0 <= c < |g.consts| ==> (OwnedBy(constOwner[c], ns) <==> Only(ConstUsers(g, c), ns))
    ensures RunsAre(g, span, ns, runs)
  {
    hide ConstUsers, RunsUpTo, AddConst, Only;
    runs := [];
    var c: int := span.lo;
    RunsStart(g, span, ns);
    while c < span.hi && c < |g.consts|
      invariant span.lo <= c
      invariant RunsUpTo(g, span, ns, runs, c)
      decreases |g.consts| - c
    {
      if OwnedBy(constOwner[c], ns) {
        AddConstKeeps(g, span, ns, runs, c);
        runs := AddConst(runs, c);
      } else {
        SkipConstKeeps(g, span, ns, runs, c);
      }
      c := c + 1;
    }
    RunsDone(g, span, ns, runs, c);
  }

  lemma TightNone(g: Program)
    ensures TightRun(g, {}, 0, 0)
  {
  }

  lemma TightStep(g: Program, funcs: set<nat>, c: nat, lo: int, hi: int)
    requires TightRun(g, funcs, lo, hi) && Indexed(g, c) && c !in funcs
    ensures var k := ChunkOf(g, c);
      TightRun(g, funcs + {c}, if funcs == {} || k < lo then k else lo, if k + 1 > hi then k + 1 else hi)
  {
    var k, funcs2 := ChunkOf(g, c), funcs + {c};
    assert c in funcs2;
    if funcs != {} {
      var x :| x in funcs && Indexed(g, x) && ChunkOf(g, x) == lo;
      var y :| y in funcs && Indexed(g, y) && ChunkOf(g, y) == hi - 1;
      assert x in funcs2 && y in funcs2;
    }
  }

  method CheckFunc(g: Program, span: ConstRange, ns: nat, constOwner: seq<int>, chunkOwner: seq<int>,
                   refs: seq<seq<nat>>, c: nat)
    returns (own: bool)
    requires WellFormed(g) && |constOwner| == |g.consts| && |chunkOwner| == |g.code|
    requires RefsAre(g, refs) && SpanFunc(g, span, c)
    requires forall c :: 0 <= c < |g.consts| ==> (OwnedBy(constOwner[c], ns) <==> Only(ConstUsers(g, c), ns))
    requires forall k :: 0 <= k < |g.code| ==> (OwnedBy(chunkOwner[k], ns) <==> Only(ChunkUsers(g, k), ns))
    ensures own <==> OwnFunc(g, span, ns, c)
    ensures own ==> Indexed(g, c)
  {
    hide ConstUsers, ChunkUsers, ChunkRefs, FuncRefs;
    if g.consts[c].chunk !in g.index {
      return false;
    }
    var k := ChunkOf(g, c);
    if k in g.mains || !OwnedBy(constOwner[c], ns) || !OwnedBy(chunkOwner[k], ns) {
      return false;
    }
    assert UsesAre(g, refs[k], k, |g.consts|);
    assert forall j :: 0 <= j < |refs[k]| ==> refs[k][j] in refs[k];
    own := CheckRefs(g, span, ns, constOwner, refs[k]);
  }

  /** The second loop: is the namespace self-contained, and which chunks are its
      functions'?  `count` counts function constants. */
  method CheckFuncs(g: Program, span: ConstRange, ns: nat, constOwner: seq<int>, chunkOwner: seq<int>,
                    refs: seq<seq<nat>>)
    returns (ok: bool, lo: int, hi: int, count: nat)
    requires WellFormed(g) && 0 <= span.lo && |constOwner| == |g.consts| && |chunkOwner| == |g.code|
    requires RefsAre(g, refs)
    requires forall c :: 0 <= c < |g.consts| ==> (OwnedBy(constOwner[c], ns) <==> Only(ConstUsers(g, c), ns))
    requires forall k :: 0 <= k < |g.code| ==> (OwnedBy(chunkOwner[k], ns) <==> Only(ChunkUsers(g, k), ns))
    ensures ok <==> SelfContained(g, span, ns)
    ensures ok ==> TightRun(g, SpanFuncs(g, span), lo, hi) && count == |SpanFuncs(g, span)|
  {
    hide ConstUsers, ChunkUsers, OwnFunc, TightRun, RefsUpTo, OwnedBy, Only;
    lo, hi, count, ok := 0, 0, 0, true;
    TightNone(g);
    ghost var found: set<nat> := {};
    var c: int := span.lo;
    while c < span.hi && c < |g.consts|
      invariant span.lo <= c
      invariant found == set x | 0 <= x < |g.consts| && x < c && SpanFunc(g, span, x)
      invariant count == |found|
      invariant forall x: nat :: x in found ==> OwnFunc(g, span, ns, x)
      invariant TightRun(g, found, lo, hi)
      decreases |g.consts| - c
    {
      if g.consts[c].Func? {
        assert SpanFunc(g, span, c);
        var own := CheckFunc(g, span, ns, constOwner, chunkOwner, refs, c);
        if !own {
          return false, 0, 0, 0;
        }
        var k := ChunkOf(g, c);
        TightStep(g, found, c, lo, hi);
        lo := if count == 0 || k < lo then k else lo;
        hi := if k + 1 > hi then k + 1 else hi;
        count := count + 1;
        found := found + {c};
      }
      c := c + 1;
    }
    assert found == SpanFuncs(g, span);
  }

  method CheckRefs(g: Program, span: ConstRange, ns: nat, constOwner: seq<int>, uses: seq<nat>) returns (ok: bool)
    requires |constOwner| == |g.consts| && forall j :: 0 <= j < |uses| ==> uses[j] < |g.consts|
    requires forall c :: 0 <= c < |g.consts| ==> (OwnedBy(constOwner[c], ns) <==> Only(ConstUsers(g, c), ns))
    ensures ok <==> forall r :: r in uses ==> Deferrable(g, span, ns, r)
  {
    hide ConstUsers;
    ok := true;
    var j := 0;
    while j < |uses|
      invariant 0 <= j <= |uses|
      invariant ok <==> forall i :: 0 <= i < j ==> Deferrable(g, span, ns, uses[i])
    {
      if !(InSpan(span, uses[j]) && OwnedBy(constOwner[uses[j]], ns)) {
        ok := false;
      }
      j := j + 1;
    }
  }

  /** One namespace's entry, if it qualifies. */
  method EntryOf(b: Bundle, ns: nat, constOwner: seq<int>, chunkOwner: seq<int>, refs: seq<seq<nat>>)
    returns (e: Option<NSRange>)
    requires BundleOk(b) && ns < |b.names|
    requires |constOwner| == |b.prog.consts| && |chunkOwner| == |b.prog.code|
    requires OwnersUpTo(b.prog, |b.prog.mains|, constOwner, chunkOwner) && RefsAre(b.prog, refs)
    ensures e.Some? ==> EntryFor(b, ns, e.value)
    ensures e.None? ==> Unqualified(b, ns)
  {
    hide SelfContained, TightRun, RunsAre, ChunkRefs, ConstUsers, ChunkUsers, Owner;
    var g := b.prog;
    if b.names[ns] !in b.spans {
      return None;
    }
    var span := b.spans[b.names[ns]];
    var main := g.mains[ns];
    OwnersMean(g, ns, constOwner, chunkOwner);
    OwnMainUser(g, ns, chunkOwner);
    if chunkOwner[main] != ns || |refs[main]| > 0 {
      if |refs[main]| > 0 {
        assert UsesAre(g, refs[main], main, |g.consts|);
        assert refs[main][0] in refs[main];
      }
      return None;
    }
    assert UsesAre(g, refs[main], main, |g.consts|);
    assert OwnMain(g, ns);
    var runs := CollectRuns(g, span, ns, constOwner);
    var ok, lo, hi, count := CheckFuncs(g, span, ns, constOwner, chunkOwner, refs);
    if !ok {
      return None;
    }
    if hi - lo != count {
      forall lo2, hi2
        ensures !Qualifies(g, span, ns, lo2, hi2)
      {
        if TightRun(g, SpanFuncs(g, span), lo2, hi2) {
          TightRunUnique(g, span, ns, lo, hi, lo2, hi2);
        }
      }
      return None;
    }
    TightRunInCode(g, span, ns, lo, hi);
    return Some(NSRange(b.names[ns], main, lo, hi, runs));
  }

  lemma TightRunUnique(g: Program, span: ConstRange, ns: nat, lo: int, hi: int, lo2: int, hi2: int)
    requires SelfContained(g, span, ns) && TightRun(g, SpanFuncs(g, span), lo, hi)
    requires TightRun(g, SpanFuncs(g, span), lo2, hi2)
    ensures lo == lo2 && hi == hi2
  {
    hide Deferrable, ChunkRefs, ChunkUsers;
  }

  lemma TightRunInCode(g: Program, span: ConstRange, ns: nat, lo: int, hi: int)
    requires WellFormed(g) && SelfContained(g, span, ns) && TightRun(g, SpanFuncs(g, span), lo, hi)
    ensures 0 <= lo <= hi <= |g.code|
  {
    hide Deferrable, ChunkRefs, ChunkUsers;
    if SpanFuncs(g, span) != {} {
      var c: nat :| SpanFunc(g, span, c) && g.consts[c].chunk in g.index && ChunkOf(g, c) == lo;
      var d: nat :| SpanFunc(g, span, d) && g.consts[d].chunk in g.index && ChunkOf(g, d) == hi - 1;
      assert ChunkOf(g, c) < hi;
    }
  }

  /** The entries are those of the namespaces that qualify, in name order. */
  ghost predicate Emitted(b: Bundle, n: nat, out: seq<NSRange>, owners: seq<nat>)
    requires n <= |b.names| == |b.prog.mains|
  {
    && |owners| == |out|
    && (forall i :: 0 <= i < |out| ==> owners[i] < n && EntryFor(b, owners[i], out[i]))
    && (forall i, j :: 0 <= i < j < |out| ==> owners[i] < owners[j])
    && (forall m: nat :: m < n && m !in owners ==> Unqualified(b, m))
  }

  /** nsRanges: None when the entries do not pass validation. */
  method FindNSRanges(b: Bundle) returns (out: Option<seq<NSRange>>, ghost owners: seq<nat>,
                      ghost entries: seq<NSRange>)
    requires BundleOk(b)
    ensures Emitted(b, |b.names|, entries, owners)
    ensures out == if ValidRanges(entries, |b.prog.code|, |b.prog.consts|) then Some(entries) else None
  {
    hide EntryFor, Qualifies, OwnersUpTo, RefsAre;
    var constOwner, chunkOwner := FindOwners(b.prog);
    var refs := FindRefs(b.prog);
    var found: seq<NSRange> := [];
    owners := [];
    var ns := 0;
    while ns < |b.names|
      invariant 0 <= ns <= |b.names|
      invariant Emitted(b, ns, found, owners)
    {
      ghost var owners0 := owners;
      var e := EntryOf(b, ns, constOwner, chunkOwner, refs);
      if e.Some? {
        found := found + [e.value];
        owners := owners + [ns];
      }
      assert forall m :: m in owners0 ==> m in owners;
      ns := ns + 1;
    }
    entries := found;
    var ok := ValidateNSRanges(found, |b.prog.code|, |b.prog.consts|);
    out := if ok then Some(found) else None;
  }

  // ------------------------------------------------ what the count check means

  /** No two function constants of the range share a chunk. */
  ghost predicate NoSharedChunk(g: Program, span: ConstRange) {
    forall c, d :: c in SpanFuncs(g, span) && d in SpanFuncs(g, span) && c != d && Indexed(g, c) && Indexed(g, d)
      ==> ChunkOf(g, c) != ChunkOf(g, d)
  }

  /** Chunk k is that of a function constant of the range. */
  ghost predicate FuncChunk(g: Program, span: ConstRange, k: int) {
    exists c :: c in SpanFuncs(g, span) && Indexed(g, c) && ChunkOf(g, c) == k
  }

  /** No other chunk sits inside the run. */
  ghost predicate RunIsOwn(g: Program, span: ConstRange, lo: int, hi: int) {
    forall k: int :: lo <= k < hi ==> FuncChunk(g, span, k)
  }

  ghost function ChunksOf(g: Program, funcs: set<nat>): set<int> {
    set c | c in funcs && Indexed(g, c) :: ChunkOf(g, c)
  }

  ghost predicate Injective(g: Program, funcs: set<nat>) {
    forall c, d :: c in funcs && d in funcs && c != d && Indexed(g, c) && Indexed(g, d) ==> ChunkOf(g, c) != ChunkOf(g, d)
  }

  lemma {:induction false} ChunksCount(g: Program, funcs: set<nat>)
    requires forall c :: c in funcs ==> Indexed(g, c)
    ensures |ChunksOf(g, funcs)| <= |funcs|
    ensures |ChunksOf(g, funcs)| == |funcs| <==> Injective(g, funcs)
    decreases |funcs|
  {
    if funcs != {} {
      var c :| c in funcs;
      var rest := funcs - {c};
      ChunksCount(g, rest);
      var k: int := ChunkOf(g, c);
      assert ChunksOf(g, funcs) == ChunksOf(g, rest) + {k};
      if k in ChunksOf(g, rest) {
        var d :| d in rest && Indexed(g, d) && ChunkOf(g, d) == k;
        assert ChunksOf(g, funcs) == ChunksOf(g, rest);
        assert !Injective(g, funcs);
      } else {
        assert Injective(g, funcs) <==> Injective(g, rest);
      }
    }
  }

  function Interval(lo: int, hi: int): (s: set<int>)
    ensures forall k :: k in s <==> lo <= k < hi
    ensures |s| == if lo < hi then hi - lo else 0
    decreases hi - lo
  {
    if lo >= hi then {} else Interval(lo, hi - 1) + {hi - 1}
  }

  lemma SubsetSize(a: set<int>, b: set<int>)
    requires a <= b
    ensures |a| <= |b| && (|a| == |b| <==> a == b)
  {
    assert b == a + (b - a);
    assert |b| == |a| + |b - a|;
  }

  /** The width of the run is compared with the number of function constants.  A run
      that passes holds no other chunk exactly when no two of them share a chunk. */
  lemma CountCheckExact(g: Program, span: ConstRange, lo: int, hi: int)
    requires TightRun(g, SpanFuncs(g, span), lo, hi)
    ensures hi - lo == |SpanFuncs(g, span)| ==> (RunIsOwn(g, span, lo, hi) <==> NoSharedChunk(g, span))
    ensures NoSharedChunk(g, span) ==> (RunIsOwn(g, span, lo, hi) <==> hi - lo == |SpanFuncs(g, span)|)
  {
    hide SpanFuncs, Indexed;
    var fs := SpanFuncs(g, span);
    var chunks, run := ChunksOf(g, fs), Interval(lo, hi);
    ChunksCount(g, fs);
    assert NoSharedChunk(g, span) <==> Injective(g, fs);
    assert chunks <= run;
    SubsetSize(chunks, run);
    assert fs != {} ==> lo < hi;
    assert RunIsOwn(g, span, lo, hi) <==> run <= chunks by {
      assert forall k :: k in chunks <==> FuncChunk(g, span, k);
    }
  }

  // ------------------------------------------ what is emitted, by reachability

  /** No other namespace's main chunk reaches chunk k. */
  ghost predicate ReachedOnlyBy(g: Program, ns: nat, k: nat) {
    forall m: nat :: m < |g.mains| && m != ns ==> !Reachable(g, g.mains[m], k)
  }

  /** No chunk that another namespace's main chunk reaches reads constant c. */
  ghost predicate ReadOnlyBy(g: Program, ns: nat, c: nat) {
    forall m: nat, k: nat ::
      m < |g.mains| && m != ns && k < |g.code| && Reachable(g, g.mains[m], k) ==> c !in Loads(g, k)
  }

  lemma ReachedMeans(g: Program, ns: nat, k: nat)
    ensures Only(ChunkUsers(g, k), ns) <==> ReachedOnlyBy(g, ns, k)
  {
    hide Reachable;
    if Only(ChunkUsers(g, k), ns) {
      forall m: nat | m < |g.mains| && m != ns
        ensures !Reachable(g, g.mains[m], k)
      {
        assert m !in ChunkUsers(g, k);
      }
    }
  }

  lemma ReadMeans(g: Program, ns: nat, c: nat)
    ensures Only(ConstUsers(g, c), ns) <==> ReadOnlyBy(g, ns, c)
  {
    hide Reachable, Loads;
    if Only(ConstUsers(g, c), ns) {
      forall m: nat, k: nat | m < |g.mains| && m != ns && k < |g.code| && Reachable(g, g.mains[m], k)
        ensures c !in Loads(g, k)
      {
        assert m !in ConstUsers(g, c);
        assert !ReachesConst(g, g.mains[m], c);
      }
    }
    if ReadOnlyBy(g, ns, c) {
      forall m | m in ConstUsers(g, c)
        ensures m == ns
      {
        var k: nat :| k < |g.code| && Reachable(g, g.mains[m], k) && c in Loads(g, k);
      }
    }
  }

  /** The runs of an emitted entry hold every constant of the namespace's range that no
      chunk reachable from another namespace reads, and nothing else. */
  lemma RunsHold(b: Bundle, out: seq<NSRange>, owners: seq<nat>, i: nat, c: nat)
    requires |b.names| == |b.prog.mains| && Emitted(b, |b.names|, out, owners) && i < |out|
    ensures out[i].name in b.spans
    ensures InRuns(out[i], c)
       <==> var span := b.spans[out[i].name];
         c < |b.prog.consts| && span.lo <= c < span.hi && ReadOnlyBy(b.prog, owners[i], c)
  {
    hide Only, ConstUsers, Qualifies, ReadOnlyBy;
    assert EntryFor(b, owners[i], out[i]);
    ReadMeans(b.prog, owners[i], c);
    RunsExact(b.prog, b.spans[out[i].name], owners[i], out[i], c);
  }

  lemma RunsExact(g: Program, span: ConstRange, ns: nat, e: NSRange, c: nat)
    requires RunsAre(g, span, ns, e.runs)
    ensures InRuns(e, c) <==> c < |g.consts| && span.lo <= c < span.hi && Only(ConstUsers(g, c), ns)
  {
    hide Only, ConstUsers;
    assert Deferrable(g, span, ns, c) <==> c < |g.consts| && span.lo <= c < span.hi && Only(ConstUsers(g, c), ns);
  }

  /** The chunk of function constant c of the range is no main chunk, and is the
      namespace's alone with the constant and all those that use the chunk, which are in
      the range too. */
  ghost predicate Private(g: Program, span: ConstRange, ns: nat, c: nat)
    requires c < |g.consts| && g.consts[c].Func?
  {
    && g.consts[c].chunk in g.index && g.index[g.consts[c].chunk] !in g.mains && ReadOnlyBy(g, ns, c)
    && var k := g.index[g.consts[c].chunk];
    && ReachedOnlyBy(g, ns, k)
    && forall r: nat :: r < |g.consts| && k in ChunkRefs(g, r) ==> span.lo <= r < span.hi && ReadOnlyBy(g, ns, r)
  }

  ghost predicate AllPrivate(g: Program, span: ConstRange, ns: nat) {
    forall c: nat :: c < |g.consts| && span.lo <= c < span.hi && g.consts[c].Func? ==> Private(g, span, ns, c)
  }

  /** [lo, hi) is exactly the chunks of the range's function constants. */
  ghost predicate IsRun(g: Program, span: ConstRange, lo: int, hi: int) {
    forall k: int :: lo <= k < hi <==> FuncChunk(g, span, k)
  }

  /** The namespace can do without everybody else: only its own code reaches its main
      chunk, no function uses that, and its functions are private and their chunks
      consecutive. */
  ghost predicate StandsAlone(b: Bundle, ns: nat)
    requires ns < |b.names| == |b.prog.mains| && b.names[ns] in b.spans
  {
    var g, span := b.prog, b.spans[b.names[ns]];
    && ReachedOnlyBy(g, ns, g.mains[ns]) && (forall c: nat :: c < |g.consts| ==> g.mains[ns] !in ChunkRefs(g, c))
    && AllPrivate(g, span, ns) && exists lo, hi :: IsRun(g, span, lo, hi)
  }

  lemma PrivateIsOwn(g: Program, span: ConstRange, ns: nat, c: nat)
    requires SpanFunc(g, span, c)
    ensures OwnFunc(g, span, ns, c) <==> Private(g, span, ns, c)
  {
    hide Only, ConstUsers, ChunkUsers, ReachedOnlyBy, ReadOnlyBy, ChunkRefs;
    ReadMeans(g, ns, c);
    if Indexed(g, c) {
      ReachedMeans(g, ns, ChunkOf(g, c));
    }
    forall r: nat
      ensures Only(ConstUsers(g, r), ns) <==> ReadOnlyBy(g, ns, r)
    {
      ReadMeans(g, ns, r);
    }
  }

  lemma PrivateMeans(g: Program, span: ConstRange, ns: nat)
    ensures SelfContained(g, span, ns) <==> AllPrivate(g, span, ns)
  {
    hide OwnFunc, Private;
    forall c: nat | SpanFunc(g, span, c)
      ensures OwnFunc(g, span, ns, c) <==> Private(g, span, ns, c)
    {
      PrivateIsOwn(g, span, ns, c);
    }
  }

  lemma OwnMainMeans(g: Program, ns: nat)
    requires ns < |g.mains|
    ensures OwnMain(g, ns)
       <==> ReachedOnlyBy(g, ns, g.mains[ns]) && forall c: nat :: c < |g.consts| ==> g.mains[ns] !in ChunkRefs(g, c)
  {
    hide Only, ChunkUsers, ReachedOnlyBy, ChunkRefs;
    ReachedMeans(g, ns, g.mains[ns]);
  }

  /** Where no two function constants share a chunk, the width test is that their chunks
      are consecutive. */
  lemma WidthMeans(g: Program, span: ConstRange, lo: int, hi: int)
    requires NoSharedChunk(g, span) && TightRun(g, SpanFuncs(g, span), lo, hi)
    ensures hi - lo == |SpanFuncs(g, span)| <==> IsRun(g, span, lo, hi)
  {
    hide SpanFuncs, Indexed, NoSharedChunk;
    CountCheckExact(g, span, lo, hi);
  }

  lemma RunTight(g: Program, span: ConstRange, lo: int, hi: int) returns (lo2: int, hi2: int)
    requires IsRun(g, span, lo, hi) && forall c :: c in SpanFuncs(g, span) ==> Indexed(g, c)
    ensures TightRun(g, SpanFuncs(g, span), lo2, hi2) && IsRun(g, span, lo2, hi2)
  {
    hide SpanFuncs, Indexed;
    var funcs := SpanFuncs(g, span);
    if funcs == {} {
      lo2, hi2 := 0, 0;
    } else {
      lo2, hi2 := lo, hi;
      var c :| c in funcs;
      assert FuncChunk(g, span, ChunkOf(g, c));
      assert FuncChunk(g, span, lo) && FuncChunk(g, span, hi - 1);
      forall d | d in funcs
        ensures Indexed(g, d) && lo <= ChunkOf(g, d) < hi
      {
        assert FuncChunk(g, span, ChunkOf(g, d));
      }
    }
  }

  lemma AllIndexed(g: Program, span: ConstRange, ns: nat)
    requires SelfContained(g, span, ns)
    ensures forall c :: c in SpanFuncs(g, span) ==> Indexed(g, c)
  {
    hide Deferrable, ChunkUsers, ChunkRefs;
  }

  /** A namespace with a constant range, no two of whose functions share a chunk, gets an
      entry exactly when it stands alone; and the entry's chunk run is then exactly the
      chunks of its functions. */
  lemma EmitsExactly(b: Bundle, out: seq<NSRange>, owners: seq<nat>, ns: nat)
    requires |b.names| == |b.prog.mains| && Emitted(b, |b.names|, out, owners)
    requires ns < |b.names| && b.names[ns] in b.spans && NoSharedChunk(b.prog, b.spans[b.names[ns]])
    ensures ns in owners <==> StandsAlone(b, ns)
    ensures forall i :: 0 <= i < |out| && owners[i] == ns ==>
      out[i].name == b.names[ns] && out[i].mainChunk == b.prog.mains[ns]
      && IsRun(b.prog, b.spans[b.names[ns]], out[i].chunkLo, out[i].chunkHi)
  {
    hide OwnMain, SelfContained, AllPrivate, ReachedOnlyBy, TightRun, IsRun, SpanFuncs, NoSharedChunk, RunsAre,
         ChunkRefs;
    var g, span := b.prog, b.spans[b.names[ns]];
    PrivateMeans(g, span, ns);
    OwnMainMeans(g, ns);
    forall i | 0 <= i < |out| && owners[i] == ns
      ensures out[i].name == b.names[ns] && out[i].mainChunk == g.mains[ns]
      ensures IsRun(g, span, out[i].chunkLo, out[i].chunkHi) && StandsAlone(b, ns)
    {
      assert EntryFor(b, owners[i], out[i]);
      WidthMeans(g, span, out[i].chunkLo, out[i].chunkHi);
    }
    assert ns !in owners ==> Unqualified(b, ns);
    if StandsAlone(b, ns) {
      var lo, hi := AloneQualifies(b, ns);
    }
  }

  lemma AloneQualifies(b: Bundle, ns: nat) returns (lo: int, hi: int)
    requires ns < |b.names| == |b.prog.mains| && b.names[ns] in b.spans && StandsAlone(b, ns)
    requires NoSharedChunk(b.prog, b.spans[b.names[ns]])
    ensures Qualifies(b.prog, b.spans[b.names[ns]], ns, lo, hi)
  {
    hide OwnMain, SelfContained, AllPrivate, ReachedOnlyBy, TightRun, IsRun, SpanFuncs, NoSharedChunk, ChunkRefs;
    var g, span := b.prog, b.spans[b.names[ns]];
    PrivateMeans(g, span, ns);
    OwnMainMeans(g, ns);
    lo, hi :| IsRun(g, span, lo, hi);
    AllIndexed(g, span, ns);
    lo, hi := RunTight(g, span, lo, hi);
    WidthMeans(g, span, lo, hi);
  }

  // --------------------------------------------------------- deferral is safe

  /** What a decoder that leaves e undecoded relies on: only the namespace's code gets
      to its main chunk, its chunk run and the constants of its runs, and only those
      constants hold its functions. */
  ghost predicate Isolated(g: Program, ns: nat, e: NSRange) {
    && (forall c: nat :: InRuns(e, c) ==> Only(ConstUsers(g, c), ns))
    && (forall k: nat :: InChunkRun(e, k) || k == e.mainChunk ==> Only(ChunkUsers(g, k), ns))
    && (forall c: nat, k :: c < |g.consts| && k in ChunkRefs(g, c) ==> k != e.mainChunk)
    && (forall c: nat, k :: c < |g.consts| && k in ChunkRefs(g, c) && InChunkRun(e, k) ==> InRuns(e, c))
  }

  /** Every entry nsRanges emits is isolated, if no two function constants of the
      namespace's range share a chunk. */
  lemma EntryIsolated(b: Bundle, ns: nat, e: NSRange)
    requires ns < |b.names| == |b.prog.mains| && EntryFor(b, ns, e) && NoSharedChunk(b.prog, b.spans[e.name])
    ensures Isolated(b.prog, ns, e)
  {
    hide Only, ConstUsers, ChunkUsers, ChunkRefs, NoSharedChunk, Deferrable;
    var g, span := b.prog, b.spans[e.name];
    CountCheckExact(g, span, e.chunkLo, e.chunkHi);
    forall k: nat | InChunkRun(e, k)
      ensures Only(ChunkUsers(g, k), ns)
      ensures forall r: nat :: r < |g.consts| && k in ChunkRefs(g, r) ==> InRuns(e, r)
    {
      assert FuncChunk(g, span, k);
      var c :| c in SpanFuncs(g, span) && Indexed(g, c) && ChunkOf(g, c) == k;
      assert OwnFunc(g, span, ns, c);
    }
    forall c: nat | InRuns(e, c)
      ensures Only(ConstUsers(g, c), ns)
    {
      DeferrableOnly(g, span, ns, c);
    }
  }

  lemma DeferrableOnly(g: Program, span: ConstRange, ns: nat, c: nat)
    requires Deferrable(g, span, ns, c)
    ensures Only(ConstUsers(g, c), ns)
  {
  }

  /** The range table is emitted whole, and for no namespace do two function constants
      share a chunk. */
  ghost predicate SoundTable(b: Bundle, out: seq<NSRange>, owners: seq<nat>) {
    && |b.names| == |b.prog.mains| && Emitted(b, |b.names|, out, owners)
    && ValidRanges(out, |b.prog.code|, |b.prog.consts|)
    && forall i :: 0 <= i < |out| ==> NoSharedChunk(b.prog, b.spans[out[i].name])
  }

  /** The namespaces whose entries are deferred. */
  ghost predicate DeferredOwner(owners: seq<nat>, deferred: set<nat>, m: nat) {
    exists i :: i in deferred && i < |owners| && owners[i] == m
  }

  /** Whatever entries are deferred, code that starts in a namespace that is not never
      gets to a deferred main chunk, a deferred chunk or an empty constant slot. */
  lemma EagerCodeStaysEager(b: Bundle, out: seq<NSRange>, owners: seq<nat>, deferred: set<nat>, m: nat, i: nat)
    requires SoundTable(b, out, owners) && m < |b.names| && !DeferredOwner(owners, deferred, m)
    requires i in deferred && i < |out|
    ensures forall k: nat :: Reachable(b.prog, b.prog.mains[m], k) ==> k != out[i].mainChunk && !InChunkRun(out[i], k)
    ensures forall c: nat :: ReachesConst(b.prog, b.prog.mains[m], c) ==> !InRuns(out[i], c)
  {
    hide Reachable, ReachesConst, Qualifies, RunsAre;
    EntryIsolated(b, owners[i], out[i]);
    assert m != owners[i];
    forall k: nat | Reachable(b.prog, b.prog.mains[m], k)
      ensures k != out[i].mainChunk && !InChunkRun(out[i], k)
    {
      assert m in ChunkUsers(b.prog, k);
    }
    forall c: nat | ReachesConst(b.prog, b.prog.mains[m], c)
      ensures !InRuns(out[i], c)
    {
      assert m in ConstUsers(b.prog, c);
    }
  }

  /** A function inside a constant uses a chunk of entry i's run only if the constant
      lies in entry i's own runs, and in no other entry's; no function uses a main
      chunk of an entry.  So neither a constant decoded at once nor one that another
      entry's materialization decodes ever needs a chunk that is not decoded. */
  lemma RefsStayInside(b: Bundle, out: seq<NSRange>, owners: seq<nat>, i: nat, c: nat, k: nat)
    requires SoundTable(b, out, owners) && i < |out| && c < |b.prog.consts| && k in ChunkRefs(b.prog, c)
    ensures k != out[i].mainChunk
    ensures InChunkRun(out[i], k) ==> InRuns(out[i], c) && forall j :: 0 <= j < |out| && j != i ==> !InRuns(out[j], c)
  {
    hide Qualifies, RunsAre, ChunkRefs, ConstUsers, ChunkUsers, InRuns;
    EntryIsolated(b, owners[i], out[i]);
    ValidMainApart(out, |b.prog.code|, |b.prog.consts|, i);
    if InChunkRun(out[i], k) {
      forall j | 0 <= j < |out| && j != i
        ensures !InRuns(out[j], c)
      {
        RunsExclusive(out, |b.prog.code|, |b.prog.consts|, i, j, c);
      }
    }
  }

  lemma ValidMainApart(out: seq<NSRange>, chunkCount: int, constCount: int, i: nat)
    requires ValidRanges(out, chunkCount, constCount) && i < |out|
    ensures !InChunkRun(out[i], out[i].mainChunk)
  {
    hide EntriesOk, PairwiseApart;
  }
}
