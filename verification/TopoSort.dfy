/** The compile order of the embedded namespaces: a three-colour depth-first sort, and
    the edges added so that ir.build follows its passes. */
module TopoSort {
  import opened Wire
  import opened Sorting

  /** The namespaces each one requires, in the order of its source. */
  type Requires = map<Str, seq<Str>>

  function DepsOf(requires_: Requires, n: Str): seq<Str> {
    if n in requires_ then requires_[n] else []
  }

  // -------------------------------------------------------------------- paths

  ghost predicate Edge(g: Requires, n: Str, d: Str) {
    d in DepsOf(g, n)
  }

  /** A requirement that constrains the order: both ends are to be sorted. */
  ghost predicate InEdge(g: Requires, nodes: set<Str>, n: Str, d: Str) {
    n in nodes && d in nodes && Edge(g, n, d)
  }

  ghost predicate Path(g: Requires, p: seq<Str>) {
    p != [] && forall i :: 0 <= i < |p| - 1 ==> Edge(g, p[i], p[i + 1])
  }

  ghost predicate InPath(g: Requires, nodes: set<Str>, p: seq<Str>) {
    p != [] && forall i :: 0 <= i < |p| - 1 ==> InEdge(g, nodes, p[i], p[i + 1])
  }

  /** A path of at least one edge. */
  ghost predicate Leads(g: Requires, a: Str, b: Str) {
    exists p :: Path(g, p) && |p| > 1 && p[0] == a && p[|p| - 1] == b
  }

  ghost predicate Cyclic(g: Requires, nodes: set<Str>) {
    exists p :: InPath(g, nodes, p) && |p| > 1 && p[0] == p[|p| - 1]
  }

  // ------------------------------------------------------------------ reaches

  ghost predicate DoneFrom(g: Requires, done: set<Str>, open: set<Str>) {
    forall n, d :: n in done && n !in open && Edge(g, n, d) ==> d in done
  }

  ghost function Universe(g: Requires): set<Str> {
    g.Keys + set n, d | n in g && d in g[n] :: d
  }

  lemma PathAppend(g: Requires, p: seq<Str>, d: Str)
    requires Path(g, p) && Edge(g, p[|p| - 1], d)
    ensures Path(g, p + [d])
  {
  }

  /** A set closed under requirements holds all that leads from it. */
  lemma {:induction false} ClosedHolds(g: Requires, s: set<Str>, p: seq<Str>)
    requires DoneFrom(g, s, {}) && Path(g, p) && p[0] in s
    ensures p[|p| - 1] in s
    decreases |p|
  {
    if |p| > 1 {
      assert Edge(g, p[0], p[1]);
      assert Path(g, p[1..]) by {
        forall i | 0 <= i < |p[1..]| - 1
          ensures Edge(g, p[1..][i], p[1..][i + 1])
        {
          assert Edge(g, p[i + 1], p[i + 1 + 1]);
        }
      }
      ClosedHolds(g, s, p[1..]);
    }
  }

  lemma InUniverse(g: Requires, n: Str)
    ensures forall d :: d in DepsOf(g, n) ==> d in Universe(g)
  {
  }

  lemma LeadsVia(g: Requires, p: seq<Str>, b: Str)
    requires Path(g, p) && |p| > 1 && p[|p| - 1] == b
    ensures Leads(g, p[0], b)
  {
  }

  /** The search that `reaches` makes, with its memory of the names seen. */
  class Search {
    const g: Requires
    const target: Str
    var seen: set<Str>

    ghost predicate Sound(open: set<Str>)
      reads this
    {
      open <= seen <= Universe(g) && target !in seen && DoneFrom(g, seen, open)
    }

    constructor (g: Requires, target: Str)
      ensures this.g == g && this.target == target && seen == {} && Sound({})
    {
      this.g, this.target, seen := g, target, {};
    }

    /** walk: true when the target is met on the way from n; else everything that leads
        from n has been seen.  `open` are the names being walked, p leads to n. */
    method Walk(n: Str, ghost open: set<Str>, ghost p: seq<Str>) returns (found: bool)
      requires Sound(open) && n in Universe(g) && Path(g, p) && |p| > 1 && p[|p| - 1] == n
      modifies this
      ensures found ==> Leads(g, p[0], target)
      ensures !found ==> Sound(open) && n in seen && old(seen) <= seen
      decreases Universe(g) - seen
    {
      hide Path, Leads, Universe, DepsOf;
      if n == target {
        LeadsVia(g, p, target);
        return true;
      }
      if n in seen {
        return false;
      }
      seen := seen + {n};
      InUniverse(g, n);
      var i := 0;
      while i < |DepsOf(g, n)|
        invariant 0 <= i <= |DepsOf(g, n)| && Sound(open + {n}) && old(seen) + {n} <= seen
        invariant forall j :: 0 <= j < i ==> DepsOf(g, n)[j] in seen
      {
        var d := DepsOf(g, n)[i];
        PathAppend(g, p, d);
        found := Walk(d, open + {n}, p + [d]);
        if found {
          return true;
        }
        i := i + 1;
      }
      found := false;
    }
  }

  /** Whether `from` requires the target, directly or through others. */
  method Reaches(from: Str, target: Str, g: Requires) returns (found: bool)
    ensures found <==> Leads(g, from, target)
  {
    hide Path, Leads, Universe, DepsOf;
    var search := new Search(g, target);
    InUniverse(g, from);
    var i := 0;
    while i < |DepsOf(g, from)|
      invariant 0 <= i <= |DepsOf(g, from)| && search.g == g && search.target == target && fresh(search)
      invariant search.Sound({}) && forall j :: 0 <= j < i ==> DepsOf(g, from)[j] in search.seen
    {
      var d := DepsOf(g, from)[i];
      FirstEdge(g, from, d);
      found := search.Walk(d, {}, [from, d]);
      if found {
        return true;
      }
      i := i + 1;
    }
    NothingLeads(g, search.seen, from, target);
    found := false;
  }

  lemma FirstEdge(g: Requires, n: Str, d: Str)
    requires d in DepsOf(g, n)
    ensures Path(g, [n, d])
  {
  }

  lemma NothingLeads(g: Requires, seen: set<Str>, from: Str, target: Str)
    requires DoneFrom(g, seen, {}) && target !in seen && forall d :: d in DepsOf(g, from) ==> d in seen
    ensures !Leads(g, from, target)
  {
    hide DepsOf;
    forall p | Path(g, p) && |p| > 1 && p[0] == from
      ensures p[|p| - 1] in seen
    {
      assert Edge(g, p[0], p[1]);
      PathTail(g, p);
      ClosedHolds(g, seen, p[1..]);
    }
  }

  lemma PathTail(g: Requires, p: seq<Str>)
    requires Path(g, p) && |p| > 1
    ensures Path(g, p[1..])
  {
    forall i | 0 <= i < |p[1..]| - 1
      ensures Edge(g, p[1..][i], p[1..][i + 1])
    {
      assert Edge(g, p[i + 1], p[i + 1 + 1]);
    }
  }

  // -------------------------------------------------------------- the sort

  /** Every requirement to be sorted stands before what requires it. */
  ghost predicate Sorted(g: Requires, nodes: set<Str>, out: seq<Str>) {
    forall i, d :: 0 <= i < |out| && InEdge(g, nodes, out[i], d) ==> d in out[..i]
  }

  const VISITING: nat := 1
  const DONE: nat := 2

  ghost predicate FromNode(g: Requires, n: Str, x: Str) {
    x == n || Leads(g, n, x)
  }

  lemma {:induction false} PathJoin(g: Requires, p: seq<Str>, q: seq<Str>)
    requires Path(g, p) && Path(g, q) && p[|p| - 1] == q[0]
    ensures Path(g, p + q[1..])
  {
    var r := p + q[1..];
    forall i | 0 <= i < |r| - 1
      ensures Edge(g, r[i], r[i + 1])
    {
      if i < |p| - 1 {
        assert Edge(g, p[i], p[i + 1]);
      } else {
        assert Edge(g, q[i - (|p| - 1)], q[i - (|p| - 1) + 1]);
      }
    }
  }

  lemma FromStep(g: Requires, n: Str, d: Str, x: Str)
    requires Edge(g, n, d) && FromNode(g, d, x)
    ensures FromNode(g, n, x)
  {
    FirstEdge(g, n, d);
    if x == d {
      LeadsVia(g, [n, d], d);
    } else {
      var q :| Path(g, q) && |q| > 1 && q[0] == d && q[|q| - 1] == x;
      PathJoin(g, [n, d], q);
      LeadsVia(g, [n, d] + q[1..], x);
    }
  }

  /** The state of a sort: the done names are in the order, sorted, and `grey` are being
      visited. */
  ghost predicate State(g: Requires, nodes: set<Str>, visited: map<Str, nat>, out: seq<Str>, grey: set<Str>) {
    && visited.Keys <= nodes && (forall x :: x in visited ==> visited[x] == VISITING || visited[x] == DONE)
    && (forall x :: x in out <==> x in visited && visited[x] == DONE)
    && (forall x :: x in grey <==> x in visited && visited[x] == VISITING)
    && Distinct(out) && Sorted(g, nodes, out)
  }

  /** The order has grown, only by n and what n requires. */
  ghost predicate Grows(g: Requires, n: Str, out: seq<Str>, before: seq<Str>) {
    before <= out && forall x :: x in out ==> x in before || FromNode(g, n, x)
  }

  lemma Enters(g: Requires, nodes: set<Str>, visited: map<Str, nat>, out: seq<Str>, grey: set<Str>, n: Str)
    requires State(g, nodes, visited, out, grey) && n in nodes && n !in visited
    ensures State(g, nodes, visited[n := VISITING], out, grey + {n}) && n !in grey && Grows(g, n, out, out)
  {
    hide Sorted, Distinct;
  }

  lemma Leaves(g: Requires, nodes: set<Str>, visited: map<Str, nat>, out: seq<Str>, grey: set<Str>, n: Str,
               before: seq<Str>)
    requires State(g, nodes, visited, out, grey + {n}) && n in nodes && n !in grey && Grows(g, n, out, before)
    requires forall d :: d in Wanted(g, nodes, n) ==> d in out
    ensures State(g, nodes, visited[n := DONE], out + [n], grey) && Grows(g, n, out + [n], before)
  {
    hide Sorted, Distinct, Leads, Wanted;
    assert n in grey + {n};
    SortedAppend(g, nodes, out, n);
  }

  lemma GrowsVia(g: Requires, n: Str, d: Str, out: seq<Str>, mid: seq<Str>, before: seq<Str>)
    requires Grows(g, n, mid, before) && Grows(g, d, out, mid) && Edge(g, n, d)
    ensures Grows(g, n, out, before)
  {
    hide Leads, Edge;
    forall x | x in out
      ensures x in before || FromNode(g, n, x)
    {
      if x !in mid {
        FromStep(g, n, d, x);
      }
    }
  }

  lemma Seen(g: Requires, nodes: set<Str>, visited: map<Str, nat>, out: seq<Str>, grey: set<Str>, n: Str)
    requires State(g, nodes, visited, out, grey) && n in visited
    ensures if visited[n] == VISITING then n in grey else visited[n] == DONE && n in out && Grows(g, n, out, out)
  {
    hide Sorted, Distinct;
  }

  ghost function Names(stack: seq<Str>): set<Str> {
    set x | x in stack
  }

  lemma NamesOneMore(stack: seq<Str>, n: Str)
    ensures Names(stack + [n]) == Names(stack) + {n} && Names([]) == {}
  {
  }

  lemma StayIn(xs: seq<Str>, before: seq<Str>, out: seq<Str>, i: nat)
    requires i < |xs| && before <= out && (forall j :: 0 <= j < i ==> xs[j] in before) && xs[i] in out
    ensures forall j :: 0 <= j < i + 1 ==> xs[j] in out
  {
  }

  class Sorter {
    const g: Requires
    const nodes: set<Str>
    var visited: map<Str, nat>
    var out: seq<Str>

    constructor (g: Requires, nodes: set<Str>)
      ensures this.g == g && this.nodes == nodes && State(g, nodes, visited, out, {}) && out == []
    {
      this.g, this.nodes, visited, out := g, nodes, map[], [];
    }

    /** visit: sorts n after everything it requires, or finds a cycle.  `stack` is the
        chain of names being visited. */
    method Visit(n: Str, ghost stack: seq<Str>) returns (ok: bool)
      requires State(g, nodes, visited, out, Names(stack)) && n in nodes && InPath(g, nodes, stack + [n])
      modifies this
      ensures old(visited.Keys) <= visited.Keys
      ensures !ok ==> Cyclic(g, nodes)
      ensures ok ==> State(g, nodes, visited, out, Names(stack)) && n in out && Grows(g, n, out, old(out))
      decreases nodes - visited.Keys
    {
      hide InPath, Cyclic, DepsOf, State, Names, Grows, Wanted;
      if n in visited {
        Seen(g, nodes, visited, out, Names(stack), n);
        if visited[n] == VISITING {
          StackCycle(g, nodes, stack, n);
          return false;
        }
        return true;
      }
      Enters(g, nodes, visited, out, Names(stack), n);
      visited := visited[n := VISITING];
      ghost var chain := stack + [n];
      NamesOneMore(stack, n);
      var deps := Wanted(g, nodes, n);
      var i := 0;
      while i < |deps|
        invariant 0 <= i <= |deps| && State(g, nodes, visited, out, Names(chain)) && Grows(g, n, out, old(out))
        invariant old(visited.Keys) + {n} <= visited.Keys
        invariant forall j :: 0 <= j < i ==> deps[j] in out
      {
        var d := deps[i];
        ChainGrows(g, nodes, chain, d);
        ghost var before := out;
        ok := Visit(d, chain);
        if !ok {
          return;
        }
        GrowsVia(g, n, d, out, before, old(out));
        assert before <= out by { GrewFrom(g, d, out, before); }
        StayIn(deps, before, out, i);
        i := i + 1;
      }
      Leaves(g, nodes, visited, out, Names(stack), n, old(out));
      visited := visited[n := DONE];
      out := out + [n];
      ok := true;
    }
  }

  lemma GrewFrom(g: Requires, n: Str, out: seq<Str>, before: seq<Str>)
    requires Grows(g, n, out, before)
    ensures before <= out
  {
  }

  /** The requirements of n that are to be sorted, in the order of its source. */
  function Wanted(g: Requires, nodes: set<Str>, n: Str): (deps: seq<Str>)
    ensures forall d :: d in deps <==> d in DepsOf(g, n) && d in nodes
  {
    Kept(DepsOf(g, n), nodes)
  }

  function Kept(ds: seq<Str>, nodes: set<Str>): (deps: seq<Str>)
    ensures forall d :: d in deps <==> d in ds && d in nodes
  {
    if ds == [] then [] else (if ds[0] in nodes then [ds[0]] else []) + Kept(ds[1..], nodes)
  }

  lemma StackCycle(g: Requires, nodes: set<Str>, stack: seq<Str>, n: Str)
    requires InPath(g, nodes, stack + [n]) && n in Names(stack)
    ensures Cyclic(g, nodes)
  {
    var k :| 0 <= k < |stack| && stack[k] == n;
    var p := stack + [n];
    var q := p[k..];
    forall i | 0 <= i < |q| - 1
      ensures InEdge(g, nodes, q[i], q[i + 1])
    {
      assert InEdge(g, nodes, p[k + i], p[k + i + 1]);
    }
    assert InPath(g, nodes, q);
  }

  lemma ChainGrows(g: Requires, nodes: set<Str>, chain: seq<Str>, d: Str)
    requires InPath(g, nodes, chain) && chain[|chain| - 1] in nodes && d in Wanted(g, nodes, chain[|chain| - 1])
    ensures InPath(g, nodes, chain + [d]) && Edge(g, chain[|chain| - 1], d) && d in nodes
  {
  }

  lemma SortedAppend(g: Requires, nodes: set<Str>, out: seq<Str>, n: Str)
    requires Sorted(g, nodes, out) && Distinct(out) && n !in out
    requires forall d :: d in Wanted(g, nodes, n) ==> d in out
    ensures Sorted(g, nodes, out + [n]) && Distinct(out + [n])
  {
    var now := out + [n];
    forall i, d | 0 <= i < |now| && InEdge(g, nodes, now[i], d)
      ensures d in now[..i]
    {
      if i < |out| {
        assert d in out[..i];
        assert now[..i] == out[..i];
      } else {
        assert now[..i] == out;
      }
    }
  }

  lemma {:induction false} PathDescends(g: Requires, nodes: set<Str>, out: seq<Str>, p: seq<Str>,
                                        i: nat) returns (j: nat)
    requires Sorted(g, nodes, out) && Distinct(out) && InPath(g, nodes, p) && |p| > 1 && i < |out| && out[i] == p[0]
    ensures j < i && out[j] == p[|p| - 1]
    decreases |p|
  {
    assert InEdge(g, nodes, p[0], p[1]);
    assert p[1] in out[..i];
    var k :| 0 <= k < |out[..i]| && out[..i][k] == p[1];
    if |p| == 2 {
      j := k;
    } else {
      assert InPath(g, nodes, p[1..]) by {
        forall h | 0 <= h < |p[1..]| - 1
          ensures InEdge(g, nodes, p[1..][h], p[1..][h + 1])
        {
          assert InEdge(g, nodes, p[h + 1], p[h + 1 + 1]);
        }
      }
      j := PathDescends(g, nodes, out, p[1..], k);
    }
  }

  /** Names that can be sorted require each other in no cycle. */
  lemma SortedAcyclic(g: Requires, nodes: set<Str>, out: seq<Str>)
    requires Sorted(g, nodes, out) && Distinct(out) && forall x :: x in nodes ==> x in out
    ensures !Cyclic(g, nodes)
  {
    forall p | InPath(g, nodes, p) && |p| > 1
      ensures p[0] != p[|p| - 1]
    {
      assert InEdge(g, nodes, p[0], p[1]);
      var i :| 0 <= i < |out| && out[i] == p[0];
      var j := PathDescends(g, nodes, out, p, i);
    }
  }

  /** An order of the nodes: each once, requirements first. */
  ghost predicate Order(g: Requires, nodes: set<Str>, out: seq<Str>) {
    Distinct(out) && (forall x :: x in out <==> x in nodes) && Sorted(g, nodes, out)
  }

  /** Only what core requires stands before core. */
  ghost predicate CoreFirst(g: Requires, out: seq<Str>) {
    forall i, k :: 0 <= i < k < |out| && out[k] == CORE ==> Leads(g, CORE, out[i])
  }

  /** The turn of x has come before that of y: core is or requires it, or a node does that
      is not after y in string order. */
  ghost predicate Due(g: Requires, nodes: set<Str>, x: Str, y: Str) {
    (CORE in nodes && FromNode(g, CORE, x)) || exists z :: z in nodes && !StrLess(y, z) && FromNode(g, z, x)
  }

  /** The nodes stand in the turn that visiting them in string order, core first, gives. */
  ghost predicate InTurn(g: Requires, nodes: set<Str>, out: seq<Str>) {
    forall j, k :: 0 <= j < k < |out| ==> Due(g, nodes, out[j], out[k])
  }

  /** What is in the order got there from core or one of the first i keys. */
  ghost predicate Visited(g: Requires, nodes: set<Str>, keys: seq<Str>, i: nat, out: seq<Str>)
    requires i <= |keys|
  {
    forall x :: x in out ==> (CORE in nodes && FromNode(g, CORE, x)) || exists h :: 0 <= h < i && FromNode(g, keys[h], x)
  }

  lemma CoreVisited(g: Requires, nodes: set<Str>, keys: seq<Str>, out: seq<Str>)
    requires out == [] || (CORE in nodes && Grows(g, CORE, out, []))
    ensures Visited(g, nodes, keys, 0, out) && InTurn(g, nodes, out)
  {
    hide FromNode;
  }

  lemma TurnTaken(g: Requires, nodes: set<Str>, keys: seq<Str>, i: nat, visited: map<Str, nat>, before: seq<Str>,
                  out: seq<Str>)
    requires Enumerates(keys, nodes) && i < |keys| && Visited(g, nodes, keys, i, before) && InTurn(g, nodes, before)
    requires State(g, nodes, visited, out, {}) && Grows(g, keys[i], out, before)
    requires forall j :: 0 <= j < i ==> keys[j] in before
    ensures Visited(g, nodes, keys, i + 1, out) && InTurn(g, nodes, out)
  {
    hide FromNode, StrLess, Sorted, Due;
    assert out[..|before|] == before;
    forall x | x in out
      ensures (CORE in nodes && FromNode(g, CORE, x)) || exists h :: 0 <= h < i + 1 && FromNode(g, keys[h], x)
    {
      if x !in before {
        assert FromNode(g, keys[i], x);
      }
    }
    forall j, k | 0 <= j < k < |out|
      ensures Due(g, nodes, out[j], out[k])
    {
      if k < |before| {
        assert out[j] == before[j] && out[k] == before[k];
      } else {
        NotYet(keys, nodes, i, before, out, k);
        DueNow(g, nodes, keys, i, out, out[j], out[k]);
      }
    }
  }

  /** A name placed at turn i is none of the earlier keys. */
  lemma NotYet(keys: seq<Str>, nodes: set<Str>, i: nat, before: seq<Str>, out: seq<Str>, k: nat)
    requires Enumerates(keys, nodes) && i < |keys| && before <= out && Distinct(out) && |before| <= k < |out|
    requires (forall j :: 0 <= j < i ==> keys[j] in before) && forall x :: x in out ==> x in nodes
    ensures forall h :: 0 <= h <= i ==> !StrLess(out[k], keys[h])
  {
    hide StrLess;
    assert out[k] in nodes;
    var m :| 0 <= m < |keys| && keys[m] == out[k];
    assert forall j :: 0 <= j < |before| ==> before[j] == out[j] && out[j] != out[k];
    forall h | 0 <= h <= i
      ensures !StrLess(out[k], keys[h])
    {
      StrLessTotal(keys[m], keys[h]);
      if h < m {
        assert StrLess(keys[h], keys[m]);
      }
    }
  }

  lemma DueNow(g: Requires, nodes: set<Str>, keys: seq<Str>, i: nat, out: seq<Str>, x: Str, y: Str)
    requires Enumerates(keys, nodes) && i < |keys| && Visited(g, nodes, keys, i + 1, out) && x in out
    requires forall h :: 0 <= h <= i ==> !StrLess(y, keys[h])
    ensures Due(g, nodes, x, y)
  {
    hide FromNode, StrLess;
    if !(CORE in nodes && FromNode(g, CORE, x)) {
      var h :| 0 <= h < i + 1 && FromNode(g, keys[h], x);
      assert keys[h] in nodes;
    }
  }

  /** topoSort: None exactly when the requirements among the nodes form a cycle; else the
      nodes in the turn that visiting core and then all nodes in string order gives. */
  method TopoSort(nodes: set<Str>, g: Requires) returns (order: Option<seq<Str>>)
    ensures order.None? <==> Cyclic(g, nodes)
    ensures order.Some? ==> Order(g, nodes, order.value)
    ensures order.Some? && CORE in nodes ==> CoreFirst(g, order.value)
    ensures order.Some? ==> InTurn(g, nodes, order.value)
  {
    hide Cyclic, Leads, State, Grows, Enumerates, CoreFirst, Order, InTurn, Visited;
    var sorter := new Sorter(g, nodes);
    NamesOneMore([], []);
    ghost var head: seq<Str> := [];
    if CORE in nodes {
      var ok := sorter.Visit(CORE, []);
      if !ok {
        return None;
      }
      head := sorter.out;
    }
    var keys := SortNames(nodes);
    KeysAre(keys, nodes);
    CoreVisited(g, nodes, keys, head);
    var i := 0;
    while i < |keys|
      invariant 0 <= i <= |keys| && sorter.g == g && sorter.nodes == nodes && fresh(sorter)
      invariant State(g, nodes, sorter.visited, sorter.out, {}) && head <= sorter.out
      invariant forall j :: 0 <= j < i ==> keys[j] in sorter.out
      invariant Visited(g, nodes, keys, i, sorter.out) && InTurn(g, nodes, sorter.out)
    {
      ghost var before := sorter.out;
      var ok := sorter.Visit(keys[i], []);
      if !ok {
        return None;
      }
      GrewFrom(g, keys[i], sorter.out, before);
      TurnTaken(g, nodes, keys, i, sorter.visited, before, sorter.out);
      StayIn(keys, before, sorter.out, i);
      i := i + 1;
    }
    var out := sorter.out;
    AllSorted(g, nodes, sorter.visited, out, keys);
    if CORE in nodes {
      OrderDistinct(g, nodes, out);
      HeadFirst(g, head, out);
    }
    order := Some(out);
  }

  lemma OrderDistinct(g: Requires, nodes: set<Str>, out: seq<Str>)
    requires Order(g, nodes, out)
    ensures Distinct(out)
  {
  }

  lemma AllSorted(g: Requires, nodes: set<Str>, visited: map<Str, nat>, out: seq<Str>, keys: seq<Str>)
    requires State(g, nodes, visited, out, {}) && (forall x :: x in keys <==> x in nodes)
    requires forall j :: 0 <= j < |keys| ==> keys[j] in out
    ensures Order(g, nodes, out) && !Cyclic(g, nodes)
  {
    hide Cyclic, Sorted, Distinct;
    forall x
      ensures x in out <==> x in nodes
    {
      if x in nodes {
        assert x in keys;
      }
    }
    SortedAcyclic(g, nodes, out);
  }

  lemma KeysAre(keys: seq<Str>, nodes: set<Str>)
    requires Enumerates(keys, nodes)
    ensures forall x :: x in keys <==> x in nodes
  {
  }

  lemma HeadFirst(g: Requires, head: seq<Str>, out: seq<Str>)
    requires head <= out && CORE in head && Distinct(out) && Grows(g, CORE, head, [])
    ensures CoreFirst(g, out)
  {
    hide Leads;
    var c :| 0 <= c < |head| && head[c] == CORE;
    forall i, k | 0 <= i < k < |out| && out[k] == CORE
      ensures Leads(g, CORE, out[i])
    {
      assert out[c] == CORE;
      assert k == c;
      assert out[i] == head[i] && head[i] in head;
      assert out[i] != out[c];
    }
  }

  // ------------------------------------------------------- the injected edges

  /** "ir.build" and "ir.passes." */
  const IR_BUILD: Str := [0x69, 0x72, 0x2E, 0x62, 0x75, 0x69, 0x6C, 0x64]
  const IR_PASSES: Str := [0x69, 0x72, 0x2E, 0x70, 0x61, 0x73, 0x73, 0x65, 0x73, 0x2E]

  predicate IsPass(n: Str) {
    IR_PASSES <= n
  }

  /** The requirements with ir.build made to require the passes too. */
  function Injected(g: Requires, passes: seq<Str>): Requires {
    g[IR_BUILD := DepsOf(g, IR_BUILD) + passes]
  }

  /** The passes that do not depend on ir.build. */
  ghost predicate Independent(g: Requires, nodes: set<Str>, passes: seq<Str>) {
    forall n :: n in passes <==> n in nodes && IsPass(n) && !Leads(g, n, IR_BUILD)
  }

  lemma InjectedEdge(g: Requires, passes: seq<Str>, n: Str, d: Str)
    ensures Edge(Injected(g, passes), n, d) <==> Edge(g, n, d) || (n == IR_BUILD && d in passes)
  {
  }

  /** A path to ir.build in the new graph gives one in the old: up to where it first gets
      there it uses no injected edge. */
  lemma {:induction false} OldWay(g: Requires, passes: seq<Str>, p: seq<Str>)
    requires Path(Injected(g, passes), p) && |p| > 1 && p[0] != IR_BUILD && p[|p| - 1] == IR_BUILD
    ensures Leads(g, p[0], IR_BUILD)
    decreases |p|
  {
    hide Injected;
    assert Edge(Injected(g, passes), p[0], p[1]);
    InjectedEdge(g, passes, p[0], p[1]);
    FirstEdge(g, p[0], p[1]);
    if p[1] == IR_BUILD {
      LeadsVia(g, [p[0], p[1]], IR_BUILD);
    } else {
      PathTail(Injected(g, passes), p);
      OldWay(g, passes, p[1..]);
      FromStep(g, p[0], p[1], IR_BUILD);
    }
  }

  lemma SubPath(g: Requires, p: seq<Str>, i: nat, j: nat)
    requires Path(g, p) && i < j <= |p|
    ensures Path(g, p[i..j])
  {
    var q := p[i..j];
    forall h | 0 <= h < |q| - 1
      ensures Edge(g, q[h], q[h + 1])
    {
      assert Edge(g, p[i + h], p[i + h + 1]);
    }
  }

  lemma InPathIsPath(g: Requires, nodes: set<Str>, p: seq<Str>)
    requires InPath(g, nodes, p)
    ensures Path(g, p)
  {
    forall i | 0 <= i < |p| - 1
      ensures Edge(g, p[i], p[i + 1])
    {
      assert InEdge(g, nodes, p[i], p[i + 1]);
    }
  }

  /** No cycle uses an injected edge: around the rest of it, the pass would lead to
      ir.build. */
  lemma CycleKeepsOff(g: Requires, nodes: set<Str>, passes: seq<Str>, p: seq<Str>, i: nat)
    requires Independent(g, nodes, passes) && Path(Injected(g, passes), p) && |p| > 1 && p[0] == p[|p| - 1]
    requires i < |p| - 1
    ensures !(p[i] == IR_BUILD && p[i + 1] in passes)
  {
    hide Injected, Leads, Path;
    if p[i] == IR_BUILD && IsPass(p[i + 1]) {
      var g2 := Injected(g, passes);
      SubPath(g2, p, i + 1, |p|);
      SubPath(g2, p, 0, i + 1);
      var around := p[i + 1..|p|] + p[0..i + 1][1..];
      PathJoin(g2, p[i + 1..|p|], p[0..i + 1]);
      assert around[0] == p[i + 1] && around[|around| - 1] == IR_BUILD && |around| > 1 by {
        if i == 0 {
          assert p[0..1][1..] == [];
        }
      }
      assert p[i + 1][3] != IR_BUILD[3];
      OldWay(g, passes, around);
    }
  }

  /** The injected edges close no cycle. */
  lemma InjectionAcyclic(g: Requires, nodes: set<Str>, passes: seq<Str>)
    requires Independent(g, nodes, passes)
    ensures Cyclic(Injected(g, passes), nodes) <==> Cyclic(g, nodes)
  {
    hide Injected, Independent;
    var g2 := Injected(g, passes);
    if Cyclic(g2, nodes) {
      var p :| InPath(g2, nodes, p) && |p| > 1 && p[0] == p[|p| - 1];
      InPathIsPath(g2, nodes, p);
      forall i | 0 <= i < |p| - 1
        ensures InEdge(g, nodes, p[i], p[i + 1])
      {
        assert InEdge(g2, nodes, p[i], p[i + 1]);
        InjectedEdge(g, passes, p[i], p[i + 1]);
        CycleKeepsOff(g, nodes, passes, p, i);
      }
      assert InPath(g, nodes, p);
    }
    if Cyclic(g, nodes) {
      var p :| InPath(g, nodes, p) && |p| > 1 && p[0] == p[|p| - 1];
      forall i | 0 <= i < |p| - 1
        ensures InEdge(g2, nodes, p[i], p[i + 1])
      {
        assert InEdge(g, nodes, p[i], p[i + 1]);
        InjectedEdge(g, passes, p[i], p[i + 1]);
      }
      assert InPath(g2, nodes, p);
    }
  }

  /** The independent passes, in string order. */
  method FindPasses(g: Requires, nodes: set<Str>) returns (passes: seq<Str>)
    ensures Independent(g, nodes, passes)
  {
    hide Leads, Enumerates;
    var found: set<Str> := {};
    var left := nodes;
    while left != {}
      invariant left <= nodes
      invariant forall n :: n in found <==> n in nodes - left && IsPass(n) && !Leads(g, n, IR_BUILD)
      decreases left
    {
      var n :| n in left;
      if IsPass(n) {
        var back := Reaches(n, IR_BUILD, g);
        if !back {
          found := found + {n};
        }
      }
      left := left - {n};
    }
    passes := SortNames(found);
    KeysAre(passes, found);
  }

  /** What the order owes to the sources and, if ir.build is sorted, to the injection. */
  ghost predicate Derived(g: Requires, nodes: set<Str>, order: seq<Str>) {
    && Order(g, nodes, order)
    && (IR_BUILD in nodes ==> forall i, k :: 0 <= i < |order| && 0 <= k < |order| ==> BuildsLate(g, order, i, k))
  }

  /** ir.build stands after a pass that does not depend on it. */
  ghost predicate BuildsLate(g: Requires, order: seq<Str>, i: nat, k: nat)
    requires i < |order| && k < |order|
  {
    order[k] == IR_BUILD && IsPass(order[i]) && !Leads(g, order[i], IR_BUILD) ==> i < k
  }

  /** deriveGoLoweringOrder, after the sources are parsed: fails exactly when the
      requirements themselves form a cycle. */
  method DeriveOrder(nodes: set<Str>, g: Requires) returns (order: Option<seq<Str>>)
    ensures order.None? <==> Cyclic(g, nodes)
    ensures order.Some? ==> Derived(g, nodes, order.value)
  {
    hide Cyclic, Order, Leads, Injected, Independent, CoreFirst, Derived;
    if IR_BUILD !in nodes {
      order := TopoSort(nodes, g);
      if order.Some? { PlainDerived(g, nodes, order.value); }
      return;
    }
    var passes := FindPasses(g, nodes);
    InjectionAcyclic(g, nodes, passes);
    order := TopoSort(nodes, Injected(g, passes));
    if order.Some? { InjectedDerived(g, nodes, passes, order.value); }
  }

  lemma PlainDerived(g: Requires, nodes: set<Str>, order: seq<Str>)
    requires Order(g, nodes, order) && IR_BUILD !in nodes
    ensures Derived(g, nodes, order)
  {
  }

  lemma InjectedDerived(g: Requires, nodes: set<Str>, passes: seq<Str>, order: seq<Str>)
    requires Order(Injected(g, passes), nodes, order) && Independent(g, nodes, passes) && IR_BUILD in nodes
    ensures Derived(g, nodes, order)
  {
    hide Injected, Leads;
    var g2 := Injected(g, passes);
    assert Sorted(g, nodes, order) by {
      forall i, d | 0 <= i < |order| && InEdge(g, nodes, order[i], d)
        ensures d in order[..i]
      {
        InjectedEdge(g, passes, order[i], d);
        assert InEdge(g2, nodes, order[i], d);
      }
    }
    forall i, k | 0 <= i < |order| && 0 <= k < |order| && order[k] == IR_BUILD && IsPass(order[i])
                  && !Leads(g, order[i], IR_BUILD)
      ensures i < k
    {
      InjectedEdge(g, passes, order[k], order[i]);
      assert order[i] in nodes && InEdge(g2, nodes, order[k], order[i]);
      assert order[i] in order[..k];
      var j :| 0 <= j < k && order[j] == order[i];
    }
  }
}
