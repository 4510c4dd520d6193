/** selectDeferred and its two searches: which chunk records and constants of a bundle
    an eager pass skips, and whose they are. */
module Selection {
  import opened Wire
  import opened Stream
  import opened Sections
  import opened Sorting
  import opened Validation

  /** A constant run, the deferred namespace it belongs to, and its place among that
      namespace's runs. */
  datatype DeferredRun = DeferredRun(run: ConstRange, ns: nat, idx: nat)

  /** Which namespaces the caller would rather not decode; None decodes everything. */
  type Choice = Option<Str -> bool>

  // ------------------------------------------------------ what belongs to whom

  /** Chunk k is the namespace's main chunk or lies in its chunk run. */
  predicate OwnsChunk(r: NSRange, k: int) {
    k == r.mainChunk || InChunkRun(r, k)
  }

  predicate DeferredChunk(sel: seq<NSRange>, k: int) {
    exists j :: 0 <= j < |sel| && OwnsChunk(sel[j], k)
  }

  predicate DeferredConst(sel: seq<NSRange>, c: int) {
    exists j :: 0 <= j < |sel| && InRuns(sel[j], c)
  }

  ghost predicate RunsApart(a: NSRange, b: NSRange) {
    forall i, j :: 0 <= i < |a.runs| && 0 <= j < |b.runs| ==> Apart(a.runs[i], b.runs[j])
  }

  /** Two entries that share nothing. */
  ghost predicate Separate(a: NSRange, b: NSRange) {
    && a.mainChunk != b.mainChunk && !InChunkRun(a, b.mainChunk) && !InChunkRun(b, a.mainChunk)
    && ChunkRunsApart(a, b) && RunsApart(a, b)
  }

  /** The entries of a valid table keep apart, and each fits its tables. */
  ghost predicate Selectable(sel: seq<NSRange>, chunkCount: int) {
    && (forall j :: 0 <= j < |sel| ==> EntryFits(sel[j], chunkCount, -1) && !InChunkRun(sel[j], sel[j].mainChunk))
    && Pairwise(sel, Separate)
  }

  lemma ValidIsSelectable(rs: seq<NSRange>, chunkCount: int)
    requires ValidRanges(rs, chunkCount, -1)
    ensures Selectable(rs, chunkCount)
  {
    forall i, j | 0 <= i < j < |rs|
      ensures Separate(rs[i], rs[j])
    {
      forall a, b | 0 <= a < |rs[i].runs| && 0 <= b < |rs[j].runs|
        ensures Apart(rs[i].runs[a], rs[j].runs[b])
      {
        EntriesApart(rs, i, a, j, b);
      }
    }
  }

  /** The entries the caller accepts; chunk 0, the unit's main chunk, is never deferred. */
  function Picked(rs: seq<NSRange>, pick: Str -> bool): seq<NSRange> {
    if rs == [] then []
    else (if rs[0].mainChunk != 0 && pick(rs[0].name) then [rs[0]] else []) + Picked(rs[1..], pick)
  }

  lemma {:induction false} PickedFrom(rs: seq<NSRange>, pick: Str -> bool, r: NSRange)
    ensures r in Picked(rs, pick) <==> r in rs && r.mainChunk != 0 && pick(r.name)
  {
    if rs == [] {
    } else {
      PickedFrom(rs[1..], pick, r);
      assert r in rs <==> r == rs[0] || r in rs[1..];
    }
  }

  lemma {:induction false} PickedSelectable(rs: seq<NSRange>, chunkCount: int, pick: Str -> bool)
    requires Selectable(rs, chunkCount)
    ensures Selectable(Picked(rs, pick), chunkCount)
  {
    hide Separate, EntryFits, InChunkRun;
    if rs == [] {
    } else {
      var rest := Picked(rs[1..], pick);
      assert Selectable(rs[1..], chunkCount);
      PickedSelectable(rs[1..], chunkCount, pick);
      forall j | 0 <= j < |rest|
        ensures Separate(rs[0], rest[j])
      {
        PickedFrom(rs[1..], pick, rest[j]);
        assert rest[j] in rs[1..];
      }
    }
  }

  /** The selection: the picked entries, in the order of their chunk runs. */
  ghost predicate Selects(sel: seq<NSRange>, rs: seq<NSRange>, pick: Str -> bool) {
    multiset(sel) == multiset(Picked(rs, pick)) && Ordered(sel, ChunkLoLess)
  }

  predicate ChunkLoLess(a: NSRange, b: NSRange) {
    a.chunkLo < b.chunkLo
  }

  lemma SeparateSymmetric()
    ensures forall a, b :: Separate(a, b) ==> Separate(b, a)
  {
    hide InChunkRun, ChunkRunsApart;
    forall a, b | Separate(a, b)
      ensures Separate(b, a)
    {
      assert ChunkRunsApart(b, a) by { ApartRuns(a, b); }
      forall i, j | 0 <= i < |b.runs| && 0 <= j < |a.runs|
        ensures Apart(b.runs[i], a.runs[j])
      {
        assert Apart(a.runs[j], b.runs[i]);
      }
    }
  }

  lemma ApartRuns(a: NSRange, b: NSRange)
    requires ChunkRunsApart(a, b)
    ensures ChunkRunsApart(b, a)
  {
  }

  lemma SelectionSelectable(sel: seq<NSRange>, picked: seq<NSRange>, chunkCount: int)
    requires multiset(sel) == multiset(picked) && Selectable(picked, chunkCount)
    ensures Selectable(sel, chunkCount)
  {
    hide Separate, EntryFits, InChunkRun;
    SeparateSymmetric();
    PairwisePermuted(picked, sel, Separate);
    forall j | 0 <= j < |sel|
      ensures EntryFits(sel[j], chunkCount, -1) && !InChunkRun(sel[j], sel[j].mainChunk)
    {
      assert sel[j] in multiset(picked);
    }
  }

  /** A chunk has at most one deferred owner. */
  lemma OneOwner(sel: seq<NSRange>, chunkCount: int, i: nat, j: nat, k: int)
    requires Selectable(sel, chunkCount) && i < |sel| && j < |sel|
    requires OwnsChunk(sel[i], k) && OwnsChunk(sel[j], k)
    ensures i == j
  {
    hide RunsApart, EntryFits;
  }

  // ----------------------------------------------------- the constant runs

  /** Every run of every selected entry, in ascending order. */
  ghost predicate RunsOf(runs: seq<DeferredRun>, sel: seq<NSRange>) {
    && (forall p :: 0 <= p < |runs| ==> IsRun(runs[p], sel))
    && (forall j, a :: 0 <= j < |sel| && 0 <= a < |sel[j].runs| ==> DeferredRun(sel[j].runs[a], j, a) in runs)
    && (forall p :: 0 <= p < |runs| ==> runs[p].run.lo < runs[p].run.hi)
    && (forall p :: 0 < p < |runs| ==> runs[p - 1].run.hi <= runs[p].run.lo)
  }

  predicate IsRun(t: DeferredRun, sel: seq<NSRange>) {
    t.ns < |sel| && t.idx < |sel[t.ns].runs| && sel[t.ns].runs[t.idx] == t.run
  }

  predicate RunLess(a: DeferredRun, b: DeferredRun) {
    a.run.lo < b.run.lo
  }

  ghost predicate TagApart(a: DeferredRun, b: DeferredRun) {
    Apart(a.run, b.run)
  }

  lemma {:induction false} RunsAscend(runs: seq<ConstRange>, constCount: int, i: nat, j: nat)
    requires RunsFit(runs, constCount) && i < j < |runs|
    ensures runs[i].hi <= runs[j].lo
    decreases j
  {
    if i < j - 1 {
      RunsAscend(runs, constCount, i, j - 1);
    }
  }

  predicate TagLess(a: DeferredRun, b: DeferredRun) {
    a.ns < b.ns || (a.ns == b.ns && a.idx < b.idx)
  }

  lemma TagsApart(tags: seq<DeferredRun>, sel: seq<NSRange>, chunkCount: int)
    requires Selectable(sel, chunkCount) && Pairwise(tags, TagLess)
    requires forall p :: 0 <= p < |tags| ==> IsRun(tags[p], sel)
    ensures Pairwise(tags, TagApart)
  {
    hide InChunkRun, ChunkRunsApart;
    forall p, q | 0 <= p < q < |tags|
      ensures TagApart(tags[p], tags[q])
    {
      assert TagLess(tags[p], tags[q]) && IsRun(tags[p], sel) && IsRun(tags[q], sel);
      if tags[p].ns == tags[q].ns {
        RunsAscend(sel[tags[p].ns].runs, -1, tags[p].idx, tags[q].idx);
      } else {
        assert Separate(sel[tags[p].ns], sel[tags[q].ns]);
      }
    }
  }

  /** The runs of the selection, in the order they are appended. */
  method TagRuns(sel: seq<NSRange>) returns (tags: seq<DeferredRun>)
    ensures Pairwise(tags, TagLess) && forall p :: 0 <= p < |tags| ==> IsRun(tags[p], sel)
    ensures forall j, a :: 0 <= j < |sel| && 0 <= a < |sel[j].runs| ==> DeferredRun(sel[j].runs[a], j, a) in tags
  {
    tags := [];
    for j := 0 to |sel|
      invariant Pairwise(tags, TagLess)
      invariant forall p :: 0 <= p < |tags| ==> IsRun(tags[p], sel) && tags[p].ns < j
      invariant forall i, a :: 0 <= i < j && 0 <= a < |sel[i].runs| ==> DeferredRun(sel[i].runs[a], i, a) in tags
    {
      for a := 0 to |sel[j].runs|
        invariant Pairwise(tags, TagLess)
        invariant forall p :: 0 <= p < |tags| ==>
            IsRun(tags[p], sel) && (tags[p].ns < j || (tags[p].ns == j && tags[p].idx < a))
        invariant forall i, b :: 0 <= i < j && 0 <= b < |sel[i].runs| ==> DeferredRun(sel[i].runs[b], i, b) in tags
        invariant forall b :: 0 <= b < a ==> DeferredRun(sel[j].runs[b], j, b) in tags
      {
        tags := tags + [DeferredRun(sel[j].runs[a], j, a)];
      }
    }
  }

  method SortTags(tags: seq<DeferredRun>) returns (runs: seq<DeferredRun>)
    ensures multiset(runs) == multiset(tags) && Ordered(runs, RunLess)
  {
    var a := new DeferredRun[|tags|](i requires 0 <= i < |tags| => tags[i]);
    assert a[..] == tags;
    InsertionSort(a, RunLess);
    runs := a[..];
  }

  method SortByChunkLo(picked: seq<NSRange>) returns (sel: seq<NSRange>)
    ensures multiset(sel) == multiset(picked) && Ordered(sel, ChunkLoLess)
  {
    var a := new NSRange[|picked|](i requires 0 <= i < |picked| => picked[i]);
    assert a[..] == picked;
    InsertionSort(a, ChunkLoLess);
    sel := a[..];
  }

  lemma SortedRunsOf(runs: seq<DeferredRun>, tags: seq<DeferredRun>, sel: seq<NSRange>, chunkCount: int)
    requires Selectable(sel, chunkCount) && multiset(runs) == multiset(tags) && Ordered(runs, RunLess)
    requires Pairwise(tags, TagLess) && forall p :: 0 <= p < |tags| ==> IsRun(tags[p], sel)
    requires forall j, a :: 0 <= j < |sel| && 0 <= a < |sel[j].runs| ==> DeferredRun(sel[j].runs[a], j, a) in tags
    ensures RunsOf(runs, sel)
  {
    hide InChunkRun, ChunkRunsApart, Separate;
    TagsApart(tags, sel, chunkCount);
    PairwisePermuted(tags, runs, TagApart);
    forall t
      ensures t in runs <==> t in tags
    {
      assert t in multiset(runs) <==> t in multiset(tags);
    }
    forall p | 0 <= p < |runs|
      ensures IsRun(runs[p], sel) && runs[p].run.lo < runs[p].run.hi
    {
      assert runs[p] in tags;
    }
    forall p | 0 < p < |runs|
      ensures runs[p - 1].run.hi <= runs[p].run.lo
    {
      assert TagApart(runs[p - 1], runs[p]) && !RunLess(runs[p], runs[p - 1]);
    }
  }

  /** A constant is deferred exactly when one of the ordered runs holds it. */
  lemma DeferredConstRun(runs: seq<DeferredRun>, sel: seq<NSRange>, c: int)
    requires RunsOf(runs, sel)
    ensures DeferredConst(sel, c) <==> exists p :: 0 <= p < |runs| && InRun(runs[p].run, c)
  {
    if DeferredConst(sel, c) {
      var j :| 0 <= j < |sel| && InRuns(sel[j], c);
      var a :| 0 <= a < |sel[j].runs| && InRun(sel[j].runs[a], c);
      assert DeferredRun(sel[j].runs[a], j, a) in runs;
    }
    if p :| 0 <= p < |runs| && InRun(runs[p].run, c) {
      assert IsRun(runs[p], sel);
      assert InRuns(sel[runs[p].ns], c);
    }
  }

  // --------------------------------------------------------------- selection

  /** What a choice selects from a range table. */
  ghost predicate Chooses(sel: seq<NSRange>, rs: seq<NSRange>, choice: Choice) {
    if choice.None? then sel == [] else Selects(sel, rs, choice.value)
  }

  lemma NothingSelected(rs: seq<NSRange>, choice: Choice, chunkCount: int)
    requires choice.None? || rs == []
    ensures Chooses([], rs, choice) && Selectable([], chunkCount) && RunsOf([], [])
  {
  }

  lemma PickedStep(rs: seq<NSRange>, pick: Str -> bool, i: nat)
    requires i < |rs|
    ensures Picked(rs[i..], pick)
         == (if rs[i].mainChunk != 0 && pick(rs[i].name) then [rs[i]] else []) + Picked(rs[i + 1..], pick)
  {
    assert rs[i..][1..] == rs[i + 1..];
  }

  lemma PickedDone(pick: Str -> bool)
    ensures Picked([], pick) == []
  {
  }

  method PickEntries(rs: seq<NSRange>, pick: Str -> bool) returns (picked: seq<NSRange>)
    ensures picked == Picked(rs, pick)
  {
    hide Picked;
    picked := [];
    var i := 0;
    assert rs[0..] == rs;
    while i < |rs|
      invariant 0 <= i <= |rs|
      invariant picked + Picked(rs[i..], pick) == Picked(rs, pick)
    {
      PickedStep(rs, pick, i);
      var r := rs[i];
      ghost var rest := Picked(rs[i + 1..], pick);
      if r.mainChunk != 0 && pick(r.name) {
        assert picked + ([r] + rest) == (picked + [r]) + rest;
        picked := picked + [r];
      } else {
        assert [] + rest == rest;
      }
      i := i + 1;
    }
    assert rs[i..] == [];
    PickedDone(pick);
  }

  /** selectDeferred: a table that holds entries must be valid before any is deferred. */
  method SelectDeferred(rs: seq<NSRange>, chunkCount: int, choice: Choice)
    returns (o: Outcome<()>, sel: seq<NSRange>, runs: seq<DeferredRun>)
    ensures o == if choice.Some? && rs != [] && !ValidRanges(rs, chunkCount, -1) then Err(BadRanges) else Ok(())
    ensures o.Ok? ==> Chooses(sel, rs, choice) && Selectable(sel, chunkCount) && RunsOf(runs, sel)
  {
    hide ValidRanges, Selectable, RunsOf, Picked, Separate;
    sel, runs := [], [];
    if choice.None? || rs == [] {
      NothingSelected(rs, choice, chunkCount);
      return Ok(()), [], [];
    }
    var valid := ValidateNSRanges(rs, chunkCount, -1);
    if !valid {
      return Err(BadRanges), [], [];
    }
    ValidIsSelectable(rs, chunkCount);
    var picked := PickEntries(rs, choice.value);
    PickedSelectable(rs, chunkCount, choice.value);
    sel := SortByChunkLo(picked);
    SelectionSelectable(sel, picked, chunkCount);
    var tags := TagRuns(sel);
    runs := SortTags(tags);
    SortedRunsOf(runs, tags, sel, chunkCount);
    o := Ok(());
  }

  /** deferredOwnerOfChunk: the first selected entry that owns chunk k. */
  method OwnerOfChunk(sel: seq<NSRange>, k: int) returns (owner: Option<nat>)
    ensures owner.None? <==> !DeferredChunk(sel, k)
    ensures owner.Some? ==> owner.value < |sel| && OwnsChunk(sel[owner.value], k)
  {
    var j := 0;
    while j < |sel|
      invariant 0 <= j <= |sel| && forall i :: 0 <= i < j ==> !OwnsChunk(sel[i], k)
    {
      if OwnsChunk(sel[j], k) {
        return Some(j);
      }
      j := j + 1;
    }
    owner := None;
  }

  /** The constant pass's cursor into the ordered runs. */
  class Cursor {
    const runs: seq<DeferredRun>
    var cur: nat

    /** Every run the cursor has passed ends at or before `from`. */
    ghost predicate At(sel: seq<NSRange>, from: int)
      reads this
    {
      RunsOf(runs, sel) && cur <= |runs| && forall p :: 0 <= p < cur ==> runs[p].run.hi <= from
    }

    constructor (runs: seq<DeferredRun>, ghost sel: seq<NSRange>)
      requires RunsOf(runs, sel)
      ensures this.runs == runs && At(sel, 0)
    {
      this.runs := runs;
      cur := 0;
    }

    /** deferredRunAt: for ascending indices the cursor finds what a search of all
        selected runs would. */
    method RunAt(ghost sel: seq<NSRange>, c: int) returns (at: Option<nat>)
      requires At(sel, c)
      modifies this
      ensures At(sel, c)
      ensures at.None? <==> !DeferredConst(sel, c)
      ensures at.Some? ==> at.value < |runs| && InRun(runs[at.value].run, c)
    {
      hide RunsOf, IsRun, DeferredConst;
      while cur < |runs| && c >= runs[cur].run.hi
        invariant At(sel, c)
      {
        cur := cur + 1;
      }
      DeferredConstRun(runs, sel, c);
      if cur < |runs| && c >= runs[cur].run.lo {
        return Some(cur);
      }
      forall p | 0 <= p < |runs|
        ensures !InRun(runs[p].run, c)
      {
        if p > cur {
          LaterRun(runs, sel, cur, p);
        }
      }
      at := None;
    }

    lemma Advance(sel: seq<NSRange>, c: int)
      requires At(sel, c)
      ensures At(sel, c + 1)
    {
    }
  }

  lemma {:induction false} LaterRun(runs: seq<DeferredRun>, sel: seq<NSRange>, p: nat, q: nat)
    requires RunsOf(runs, sel) && p < q < |runs|
    ensures runs[p].run.hi <= runs[q].run.lo
    decreases q
  {
    if p < q - 1 {
      LaterRun(runs, sel, p, q - 1);
    }
  }
}
