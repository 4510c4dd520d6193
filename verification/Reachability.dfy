/** The walk that finds which namespace's code reaches each constant and chunk. */
module Reachability {
  import opened Wire
  import opened Values
  import opened Migration

  /** What the bundle encoder knows when it looks for deferrable namespaces: chunk
      code, constants, the index of each live chunk, the first constant index, and the
      main chunk of each namespace.  Namespaces are numbered in name order. */
  datatype Program = Program(code: seq<seq<I32>>, consts: seq<Value>, index: map<nat, nat>, base: nat, mains: seq<nat>)

  ghost predicate WellFormed(g: Program) {
    && (forall c :: c in g.index ==> g.index[c] < |g.code|)
    && (forall n :: 0 <= n < |g.mains| ==> g.mains[n] < |g.code|)
  }

  // ------------------------------------------------- functions inside constants

  /** forEachFunc: the chunks of the function constants inside v, in the order of the
      traversal. */
  function FuncSeq(v: Value): seq<nat>
    decreases v, 0
  {
    match v
    case Func(c, _, _, _) => [c]
    case Coll(_, items) => FuncSeqAll(items)
    case Map(items) => FuncSeqAll(items)
    case DefMeta(items) => FuncSeqAll(items)
    case Record(_, _, _, fixed, extra) => FuncSeqAll(fixed) + FuncSeqAll(extra)
    case DType(_, _, _, fixed) => FuncSeqAll(fixed)
    case Atom(inner) => FuncSeq(inner)
    case _ => []
  }

  function FuncSeqAll(vs: seq<Value>): seq<nat>
    decreases vs, 1
  {
    if vs == [] then [] else FuncSeq(vs[0]) + FuncSeqAll(vs[1..])
  }

  lemma {:induction false} FuncSeqRefs(v: Value)
    ensures (set c | c in FuncSeq(v)) == FuncRefs(v)
    decreases v, 0
  {
    if v.Coll? || v.Map? || v.DefMeta? {
      FuncSeqAllRefs(v.items);
    } else if v.Record? {
      FuncSeqAllRefs(v.fixed);
      FuncSeqAllRefs(v.extra);
    } else if v.DType? {
      FuncSeqAllRefs(v.fixed);
    } else if v.Atom? {
      FuncSeqRefs(v.inner);
    }
  }

  lemma {:induction false} FuncSeqAllRefs(vs: seq<Value>)
    ensures (set c | c in FuncSeqAll(vs)) == FuncRefsAll(vs)
    decreases vs, 1
  {
    if vs == [] {
    } else {
      FuncSeqRefs(vs[0]);
      FuncSeqAllRefs(vs[1..]);
    }
  }

  /** The chunks of the functions inside constant c. */
  ghost function ChunkRefs(g: Program, c: nat): set<nat>
    requires c < |g.consts|
  {
    set f | f in FuncRefs(g.consts[c]) && f in g.index :: g.index[f]
  }

  // ------------------------------------------------------------- reachability

  /** vm.ReadsConst: LOAD_CONST and LOAD_VAR. */
  predicate ReadsConst(op: Byte) {
    op == 1 || op == 12
  }

  /** The argument words of the constant-reading instructions of a chunk. */
  ghost function ConstReads(code: seq<I32>): set<int>
    decreases |code|
  {
    if code == [] then {}
    else
      (if ReadsConst(Op(code[0])) && |code| > 1 then {code[1] as int} else {})
        + ConstReads(code[Next(code, Stride)..])
  }

  /** The constants of this pool that chunk k reads. */
  ghost function Loads(g: Program, k: nat): set<nat>
    requires k < |g.code|
  {
    set w | w in ConstReads(g.code[k]) && g.base <= w < g.base + |g.consts| :: w - g.base
  }

  /** An instruction of the program loads a constant or a var by this word. */
  ghost predicate ReadsWord(prog: seq<Instr>, word: int) {
    exists i :: 0 <= i < |prog| && prog[i].name in {LOAD_CONST, LOAD_VAR} && prog[i].args != [] && prog[i].args[0] == word
  }

  /** The words read are those of the LOAD_CONST and LOAD_VAR instructions of the code as it
      is disassembled. */
  lemma {:induction false} ReadsAre(code: seq<I32>, at: nat, word: int)
    ensures word in ConstReads(code) <==> ReadsWord(Disassemble(code, at, Name, Stride), word)
    decreases |code|
  {
    hide Name, Stride, Op, Next, Disassemble, ReadsConst;
    DisassembleFirst(code, at, Name, Stride);
    if code == [] {
    } else {
      var n := Next(code, Stride);
      ReadsAre(code[n..], at + n, word);
      var first := Instr(at, Name(Op(code[0])), code[0] / 256, code[1..n]);
      var rest := Disassemble(code[n..], at + n, Name, Stride);
      ReadsFirst(first, rest, word);
      LoadsOne(code);
    }
  }

  lemma ReadsFirst(first: Instr, rest: seq<Instr>, word: int)
    ensures ReadsWord([first] + rest, word)
       <==> (first.name in {LOAD_CONST, LOAD_VAR} && first.args != [] && first.args[0] == word) || ReadsWord(rest, word)
  {
    var prog := [first] + rest;
    assert prog[0] == first;
    if i :| 0 <= i < |rest| && rest[i].name in {LOAD_CONST, LOAD_VAR} && rest[i].args != [] && rest[i].args[0] == word {
      assert prog[i + 1] == rest[i];
    }
  }

  lemma LoadsOne(code: seq<I32>)
    requires code != []
    ensures ReadsConst(Op(code[0])) <==> Name(Op(code[0])) in {LOAD_CONST, LOAD_VAR}
    ensures ReadsConst(Op(code[0])) && |code| > 1 ==> Next(code, Stride) == 2
    ensures |code| == 1 ==> Next(code, Stride) == 1
  {
  }

  /** The constants a chunk reads are those its LOAD_CONST and LOAD_VAR instructions name,
      counted from the first constant of the pool. */
  lemma LoadsAre(g: Program, k: nat, c: nat)
    requires k < |g.code|
    ensures c in Loads(g, k)
       <==> c < |g.consts| && ReadsWord(Disassemble(g.code[k], 0, Name, Stride), g.base + c)
  {
    hide ConstReads, ReadsWord, Disassemble, Name, Stride;
    ReadsAre(g.code[k], 0, g.base + c);
    if c in Loads(g, k) {
      var w :| w in ConstReads(g.code[k]) && g.base <= w < g.base + |g.consts| && w - g.base == c;
      assert w == g.base + c;
    }
  }

  ghost predicate ChunkEdge(g: Program, k: nat, next: nat) {
    k < |g.code| && exists c :: c in Loads(g, k) && next in ChunkRefs(g, c)
  }

  ghost predicate ChunkPath(g: Program, p: seq<nat>) {
    p != [] && forall i :: 0 <= i < |p| - 1 ==> ChunkEdge(g, p[i], p[i + 1])
  }

  /** Code that starts in chunk a can get to chunk b. */
  ghost predicate Reachable(g: Program, a: nat, b: nat) {
    exists p :: ChunkPath(g, p) && p[0] == a && p[|p| - 1] == b
  }

  /** Code that starts in chunk a can read constant c. */
  ghost predicate ReachesConst(g: Program, a: nat, c: nat) {
    exists k: nat :: k < |g.code| && Reachable(g, a, k) && c in Loads(g, k)
  }

  lemma ReachesSelf(g: Program, a: nat)
    ensures Reachable(g, a, a)
  {
    assert ChunkPath(g, [a]);
  }

  lemma ReachesNext(g: Program, a: nat, b: nat, c: nat)
    requires Reachable(g, a, b) && ChunkEdge(g, b, c)
    ensures Reachable(g, a, c)
  {
    var p :| ChunkPath(g, p) && p[0] == a && p[|p| - 1] == b;
    assert ChunkPath(g, p + [c]);
    assert (p + [c])[|p + [c]| - 1] == c;
  }

  ghost predicate Closed(g: Program, s: set<nat>) {
    forall k, next :: k in s && ChunkEdge(g, k, next) ==> next in s
  }

  lemma {:induction false} ClosedHoldsPath(g: Program, s: set<nat>, p: seq<nat>)
    requires Closed(g, s) && ChunkPath(g, p) && p[0] in s
    ensures p[|p| - 1] in s
    decreases |p|
  {
    if |p| > 1 {
      assert ChunkEdge(g, p[0], p[1]);
      assert forall i :: 0 <= i < |p[1..]| - 1 ==> ChunkEdge(g, p[1..][i], p[1..][i + 1]) by {
        forall i | 0 <= i < |p[1..]| - 1
          ensures ChunkEdge(g, p[1..][i], p[1..][i + 1])
        {
          assert ChunkEdge(g, p[i + 1], p[i + 1 + 1]);
        }
      }
      ClosedHoldsPath(g, s, p[1..]);
    }
  }

  /** A closed set that holds a holds everything reachable from a. */
  lemma ClosedHoldsReachable(g: Program, s: set<nat>, a: nat)
    requires Closed(g, s) && a in s
    ensures forall b :: Reachable(g, a, b) ==> b in s
  {
    forall b | Reachable(g, a, b)
      ensures b in s
    {
      var p :| ChunkPath(g, p) && p[0] == a && p[|p| - 1] == b;
      ClosedHoldsPath(g, s, p);
    }
  }

  // ------------------------------------------------------------------- owners

  const NONE: int := -1
  const MULTIPLE: int := -2

  /** mark: the owner of an index that namespace ns reaches too. */
  function Mark(o: int, ns: nat): int {
    if o == NONE then ns else if o == ns || o == MULTIPLE then o else MULTIPLE
  }

  /** o says which of the first n namespaces are in users: none, one, or several. */
  ghost predicate Owner(o: int, n: nat, users: set<nat>) {
    && (o == NONE || o == MULTIPLE || 0 <= o < n)
    && (o == NONE <==> forall m :: 0 <= m < n ==> m !in users)
    && (0 <= o < n ==> o in users && forall m :: 0 <= m < n && m != o ==> m !in users)
    && (o == MULTIPLE ==> exists m1, m2 :: 0 <= m1 < m2 < n && m1 in users && m2 in users)
  }

  lemma MarkOwner(o: int, n: nat, users: set<nat>)
    requires Owner(o, n, users)
    ensures Owner(if n in users then Mark(o, n) else o, n + 1, users)
  {
    if n in users && o != NONE && o != MULTIPLE {
      assert o < n;
    }
  }

  /** The namespaces whose code reaches chunk k. */
  ghost function ChunkUsers(g: Program, k: nat): set<nat> {
    set n | 0 <= n < |g.mains| && Reachable(g, g.mains[n], k)
  }

  /** The namespaces whose code reads constant c. */
  ghost function ConstUsers(g: Program, c: nat): set<nat> {
    set n | 0 <= n < |g.mains| && ReachesConst(g, g.mains[n], c)
  }

  /** Every constant and chunk is owned by the one namespace that reaches it, by none,
      or by several. */
  ghost predicate OwnersUpTo(g: Program, n: nat, constOwner: seq<int>, chunkOwner: seq<int>)
    requires |constOwner| == |g.consts| && |chunkOwner| == |g.code|
  {
    && (forall c :: 0 <= c < |constOwner| ==> Owner(constOwner[c], n, ConstUsers(g, c)))
    && (forall k :: 0 <= k < |chunkOwner| ==> Owner(chunkOwner[k], n, ChunkUsers(g, k)))
  }

  // ----------------------------------------------------------------- the walk

  /** The chunks visited, and what is left to visit. */
  ghost predicate Explores(g: Program, main: nat, seen: set<nat>, stack: seq<nat>) {
    && (forall k :: k in seen ==> k < |g.code| && Reachable(g, main, k))
    && (forall i :: 0 <= i < |stack| ==> stack[i] < |g.code| && Reachable(g, main, stack[i]))
    && (main in seen || main in stack)
  }

  ghost predicate Pending(g: Program, seen: set<nat>, stack: seq<nat>, done: set<nat>) {
    forall k, next :: k in done && ChunkEdge(g, k, next) ==> next in seen || next in stack
  }

  /** The owners after marking the given indices for ns. */
  ghost predicate Marked(now: seq<int>, before: seq<int>, marked: set<nat>, ns: nat) {
    |now| == |before| && forall i :: 0 <= i < |now| ==> now[i] == if i in marked then Mark(before[i], ns) else before[i]
  }

  ghost function LoadsOf(g: Program, s: set<nat>): set<nat> {
    set k, c | k in s && k < |g.code| && c in Loads(g, k) :: c
  }

  lemma ConstReadsStep(code: seq<I32>, i: nat)
    requires i < |code|
    ensures ConstReads(code[i..]) == (if ReadsConst(Op(code[i])) && i + 1 < |code| then {code[i + 1] as int} else {})
        + ConstReads(code[if i + Stride(Op(code[i])) < |code| then i + Stride(Op(code[i])) else |code|..])
  {
    hide Op, Stride, ReadsConst;
    var s := code[i..];
    var n := Next(s, Stride);
    assert s[n..] == code[i + n..];
    NextOf(s);
  }

  lemma NextOf(s: seq<I32>)
    requires s != []
    ensures Next(s, Stride) == if Stride(Op(s[0])) < |s| then Stride(Op(s[0])) else |s|
  {
  }

  lemma MarkTwice(o: int, ns: nat)
    ensures Mark(Mark(o, ns), ns) == Mark(o, ns)
  {
  }

  /** Stack the chunks of the functions inside constant c, but for those seen. */
  method StackFuncs(g: Program, c: nat, seen: set<nat>, stack0: seq<nat>) returns (stack: seq<nat>)
    requires WellFormed(g) && c < |g.consts|
    ensures stack0 <= stack
    ensures forall i :: |stack0| <= i < |stack| ==> stack[i] in ChunkRefs(g, c) && stack[i] < |g.code|
    ensures forall next :: next in ChunkRefs(g, c) ==> next in seen || next in stack
  {
    stack := stack0;
    var fs := FuncSeq(g.consts[c]);
    FuncSeqRefs(g.consts[c]);
    var j := 0;
    while j < |fs|
      invariant 0 <= j <= |fs|
      invariant stack0 <= stack
      invariant forall i :: |stack0| <= i < |stack| ==> stack[i] in ChunkRefs(g, c) && stack[i] < |g.code|
      invariant forall i :: 0 <= i < j && fs[i] in g.index ==> g.index[fs[i]] in seen || g.index[fs[i]] in stack
    {
      assert fs[j] in FuncRefs(g.consts[c]);
      if fs[j] in g.index && g.index[fs[j]] !in seen {
        stack := stack + [g.index[fs[j]]];
      }
      j := j + 1;
    }
    forall next | next in ChunkRefs(g, c)
      ensures next in seen || next in stack
    {
      var f :| f in FuncRefs(g.consts[c]) && f in g.index && g.index[f] == next;
      assert f in fs;
    }
  }

  /** The constants the code from position i on reads. */
  ghost function ReadsFrom(g: Program, code: seq<I32>, i: nat): set<nat> {
    if i >= |code| then {}
    else set w | w in ConstReads(code[i..]) && g.base <= w < g.base + |g.consts| :: w - g.base
  }

  /** The constant the instruction at i reads, if it reads one of this pool. */
  function ReadAt(g: Program, code: seq<I32>, i: nat): Option<nat>
    requires i < |code|
  {
    if ReadsConst(Op(code[i])) && i + 1 < |code| && g.base <= code[i + 1] < g.base + |g.consts|
    then Some(code[i + 1] - g.base) else None
  }

  lemma ReadsStep(g: Program, code: seq<I32>, i: nat)
    requires i < |code|
    ensures Stride(Op(code[i])) >= 1
    ensures match ReadAt(g, code, i) case None => true case Some(c) => c < |g.consts|
    ensures ReadsFrom(g, code, i)
         == (match ReadAt(g, code, i) case None => {} case Some(c) => {c}) + ReadsFrom(g, code, i + Stride(Op(code[i])))
  {
    hide Op, Stride, ReadsConst;
    ConstReadsStep(code, i);
    if i + Stride(Op(code[i])) >= |code| {
      assert code[|code|..] == [];
    }
  }

  /** One chunk's code: mark the constants it reads for ns, and stack the chunks of
      the functions among them. */
  method ScanCode(g: Program, k: nat, ns: nat, constOwner: array<int>, seen: set<nat>, stack0: seq<nat>,
                  ghost before: seq<int>, ghost marked0: set<nat>)
    returns (stack: seq<nat>)
    requires WellFormed(g) && k < |g.code| && constOwner.Length == |g.consts|
    requires Marked(constOwner[..], before, marked0, ns)
    modifies constOwner
    ensures Marked(constOwner[..], before, marked0 + Loads(g, k), ns)
    ensures stack0 <= stack
    ensures forall i :: |stack0| <= i < |stack| ==> ChunkEdge(g, k, stack[i]) && stack[i] < |g.code|
    ensures forall next :: ChunkEdge(g, k, next) ==> next in seen || next in stack
  {
    hide Op, Stride, ReadsConst, ChunkRefs, ConstReads, ReadAt, ReadsFrom, Loads;
    stack := stack0;
    var code := g.code[k];
    var i := 0;
    ghost var got: set<nat> := {};
    ReadsFromStart(g, k);
    ghost var all := Loads(g, k);
    while i < |code|
      invariant 0 <= i && stack0 <= stack
      invariant got + ReadsFrom(g, code, i) == all
      invariant Marked(constOwner[..], before, marked0 + got, ns)
      invariant forall j :: |stack0| <= j < |stack| ==> ChunkEdge(g, k, stack[j]) && stack[j] < |g.code|
      invariant forall c, next :: c in got && c < |g.consts| && next in ChunkRefs(g, c) ==> next in seen || next in stack
      decreases |code| - i
    {
      ReadsStep(g, code, i);
      var read := ReadAt(g, code, i);
      if read.Some? {
        var c := read.value;
        MarkTwice(before[c], ns);
        constOwner[c] := Mark(constOwner[c], ns);
        got := got + {c};
        ghost var stack1 := stack;
        stack := StackFuncs(g, c, seen, stack);
        assert forall x :: x in stack1 ==> x in stack;
      }
      i := i + Stride(Op(code[i]));
    }
  }

  lemma ReadsFromStart(g: Program, k: nat)
    requires k < |g.code|
    ensures ReadsFrom(g, g.code[k], 0) == Loads(g, k)
    ensures forall i :: i >= |g.code[k]| ==> ReadsFrom(g, g.code[k], i) == {}
    ensures forall c :: c in Loads(g, k) ==> c < |g.consts|
  {
    assert g.code[k][0..] == g.code[k];
  }

  /** The walk from one namespace's main chunk, with an explicit stack.  It marks for
      ns exactly the chunks its code reaches and the constants its code reads. */
  method WalkNamespace(g: Program, ns: nat, constOwner: array<int>, chunkOwner: array<int>)
    requires WellFormed(g) && ns < |g.mains|
    requires constOwner.Length == |g.consts| && chunkOwner.Length == |g.code| && constOwner != chunkOwner
    requires OwnersUpTo(g, ns, constOwner[..], chunkOwner[..])
    modifies constOwner, chunkOwner
    ensures OwnersUpTo(g, ns + 1, constOwner[..], chunkOwner[..])
  {
    hide ChunkRefs, ConstReads;
    var main := g.mains[ns];
    var seen: set<nat> := {};
    var stack := [main];
    ghost var consts0, chunks0 := constOwner[..], chunkOwner[..];
    ghost var all := Below(|g.code|);
    BelowHolds(|g.code|);
    ReachesSelf(g, main);
    while stack != []
      invariant Explores(g, main, seen, stack)
      invariant Pending(g, seen, stack, seen)
      invariant Marked(chunkOwner[..], chunks0, seen, ns)
      invariant Marked(constOwner[..], consts0, LoadsOf(g, seen), ns)
      decreases all - seen, |stack|
    {
      var k := stack[|stack| - 1];
      ghost var popped := stack;
      stack := stack[..|stack| - 1];
      assert forall x :: x in popped ==> x == k || x in stack;
      if k !in seen {
        ghost var seen0, rest := seen, stack;
        seen := seen + {k};
        chunkOwner[k] := Mark(chunkOwner[k], ns);
        LoadsOfOneMore(g, seen0, k);
        stack := ScanCode(g, k, ns, constOwner, seen, stack, consts0, LoadsOf(g, seen0));
        Explored(g, main, seen0, k, popped, rest, stack);
      }
    }
    SeenIsReachable(g, ns, seen);
    UpdateOwners(g, ns, consts0, chunks0, constOwner[..], chunkOwner[..], seen);
  }

  function Below(n: nat): set<nat> {
    if n == 0 then {} else Below(n - 1) + {n - 1}
  }

  lemma {:induction false} BelowHolds(n: nat)
    ensures forall k: nat :: k in Below(n) <==> k < n
  {
    if n == 0 {
    } else {
      BelowHolds(n - 1);
    }
  }

  lemma LoadsOfOneMore(g: Program, s: set<nat>, k: nat)
    requires k < |g.code|
    ensures LoadsOf(g, s + {k}) == LoadsOf(g, s) + Loads(g, k)
  {
    hide ConstReads;
  }

  /** Visiting k keeps the walk's invariant. */
  lemma Explored(g: Program, main: nat, seen0: set<nat>, k: nat, popped: seq<nat>, rest: seq<nat>, stack: seq<nat>)
    requires Explores(g, main, seen0, popped) && Pending(g, seen0, popped, seen0)
    requires popped != [] && k == popped[|popped| - 1] && rest == popped[..|popped| - 1] && rest <= stack
    requires forall i :: |rest| <= i < |stack| ==> ChunkEdge(g, k, stack[i]) && stack[i] < |g.code|
    requires forall next :: ChunkEdge(g, k, next) ==> next in seen0 + {k} || next in stack
    ensures Explores(g, main, seen0 + {k}, stack) && Pending(g, seen0 + {k}, stack, seen0 + {k})
  {
    hide Reachable, ChunkEdge;
    assert forall x :: x in popped ==> x == k || x in rest;
    assert forall x :: x in rest ==> x in stack;
    forall i | 0 <= i < |stack|
      ensures stack[i] < |g.code| && Reachable(g, main, stack[i])
    {
      if i < |rest| {
        assert stack[i] == popped[i];
      } else {
        ReachesNext(g, main, k, stack[i]);
      }
    }
  }

  /** When nothing is left to visit, the chunks seen are the reachable ones. */
  lemma SeenIsReachable(g: Program, ns: nat, seen: set<nat>)
    requires ns < |g.mains| && Explores(g, g.mains[ns], seen, []) && Pending(g, seen, [], seen)
    ensures forall k :: k in seen <==> Reachable(g, g.mains[ns], k)
  {
    hide Reachable, ChunkEdge;
    ClosedHoldsReachable(g, seen, g.mains[ns]);
  }

  lemma LoadedIffUsed(g: Program, ns: nat, seen: set<nat>, c: nat)
    requires ns < |g.mains| && forall k :: k in seen <==> Reachable(g, g.mains[ns], k)
    ensures c in LoadsOf(g, seen) <==> ns in ConstUsers(g, c)
  {
    hide Reachable, Loads;
    if c in LoadsOf(g, seen) {
      var k :| k in seen && k < |g.code| && c in Loads(g, k);
      assert ReachesConst(g, g.mains[ns], c);
    }
    if ns in ConstUsers(g, c) {
      var k: nat :| k < |g.code| && Reachable(g, g.mains[ns], k) && c in Loads(g, k);
      assert k in seen;
    }
  }

  lemma UpdateOwners(g: Program, ns: nat, consts0: seq<int>, chunks0: seq<int>, consts1: seq<int>, chunks1: seq<int>,
                     seen: set<nat>)
    requires ns < |g.mains| && |consts0| == |g.consts| && |chunks0| == |g.code|
    requires OwnersUpTo(g, ns, consts0, chunks0)
    requires forall k :: k in seen <==> Reachable(g, g.mains[ns], k)
    requires Marked(chunks1, chunks0, seen, ns) && Marked(consts1, consts0, LoadsOf(g, seen), ns)
    ensures OwnersUpTo(g, ns + 1, consts1, chunks1)
  {
    hide Reachable, Loads, Owner;
    forall k | 0 <= k < |chunks1|
      ensures Owner(chunks1[k], ns + 1, ChunkUsers(g, k))
    {
      MarkOwner(chunks0[k], ns, ChunkUsers(g, k));
    }
    forall c | 0 <= c < |consts1|
      ensures Owner(consts1[c], ns + 1, ConstUsers(g, c))
    {
      LoadedIffUsed(g, ns, seen, c);
      MarkOwner(consts0[c], ns, ConstUsers(g, c));
    }
  }

  /** reachability: the owner of every constant and every chunk. */
  method FindOwners(g: Program) returns (constOwner: seq<int>, chunkOwner: seq<int>)
    requires WellFormed(g)
    ensures |constOwner| == |g.consts| && |chunkOwner| == |g.code|
    ensures OwnersUpTo(g, |g.mains|, constOwner, chunkOwner)
  {
    hide Reachable, ReachesConst;
    var consts := new int[|g.consts|](_ => NONE);
    var chunks := new int[|g.code|](_ => NONE);
    var ns := 0;
    while ns < |g.mains|
      invariant 0 <= ns <= |g.mains|
      invariant OwnersUpTo(g, ns, consts[..], chunks[..])
    {
      WalkNamespace(g, ns, consts, chunks);
      ns := ns + 1;
    }
    constOwner, chunkOwner := consts[..], chunks[..];
  }
}
