/** validateNSRanges: the structural check a decoder relies on. */
module Validation {
  import opened Wire
  import opened Sections
  import opened Sorting

  ghost predicate Apart(a: ConstRange, b: ConstRange) {
    a.hi <= b.lo || b.hi <= a.lo
  }

  ghost predicate PairwiseApart(runs: seq<ConstRange>) {
    Pairwise(runs, Apart)
  }

  ghost predicate Nonempty(runs: seq<ConstRange>) {
    forall i :: 0 <= i < |runs| ==> runs[i].lo < runs[i].hi
  }

  /** A negative constant count leaves the upper bound to the constants section. */
  predicate RunFits(run: ConstRange, constCount: int) {
    0 <= run.lo < run.hi && (constCount < 0 || run.hi <= constCount)
  }

  predicate RunsFit(runs: seq<ConstRange>, constCount: int) {
    && (forall i :: 0 <= i < |runs| ==> RunFits(runs[i], constCount))
    && (forall i :: 0 < i < |runs| ==> runs[i - 1].hi <= runs[i].lo)
  }

  predicate EntryFits(r: NSRange, chunkCount: int, constCount: int) {
    RunsFit(r.runs, constCount) && 0 <= r.mainChunk < chunkCount && 0 <= r.chunkLo <= r.chunkHi <= chunkCount
  }

  predicate InChunkRun(r: NSRange, k: int) {
    r.chunkLo <= k < r.chunkHi
  }

  predicate ChunkRunsApart(a: NSRange, c: NSRange) {
    a.chunkLo == a.chunkHi || c.chunkLo == c.chunkHi || a.chunkHi <= c.chunkLo || c.chunkHi <= a.chunkLo
  }

  function AllRuns(rs: seq<NSRange>): seq<ConstRange> {
    if rs == [] then [] else rs[0].runs + AllRuns(rs[1..])
  }

  ghost predicate EntriesOk(rs: seq<NSRange>, chunkCount: int, constCount: int) {
    && (forall i :: 0 <= i < |rs| ==> EntryFits(rs[i], chunkCount, constCount))
    && (forall i, j :: 0 <= i < j < |rs| ==> rs[i].mainChunk != rs[j].mainChunk)
  }

  ghost predicate ChunkRunsOk(rs: seq<NSRange>) {
    && (forall i, j :: 0 <= i < |rs| && 0 <= j < |rs| ==> !InChunkRun(rs[i], rs[j].mainChunk))
    && (forall i, j :: 0 <= i < j < |rs| ==> ChunkRunsApart(rs[i], rs[j]))
  }

  /** In-bounds indices, ascending runs, all runs pairwise disjoint, main chunks
      distinct and in nobody's chunk run, chunk runs pairwise disjoint. */
  ghost predicate ValidRanges(rs: seq<NSRange>, chunkCount: int, constCount: int) {
    EntriesOk(rs, chunkCount, constCount) && PairwiseApart(AllRuns(rs)) && ChunkRunsOk(rs)
  }

  predicate LoLess(a: ConstRange, b: ConstRange) {
    a.lo < b.lo
  }

  method SortRuns(runs: seq<ConstRange>) returns (sorted: seq<ConstRange>)
    ensures multiset(sorted) == multiset(runs) && Ordered(sorted, LoLess)
  {
    var a := new ConstRange[|runs|](i requires 0 <= i < |runs| => runs[i]);
    assert a[..] == runs;
    InsertionSort(a, LoLess);
    sorted := a[..];
  }

  // -------------------------------------------------- the sorted check suffices

  lemma NonemptyPermuted(a: seq<ConstRange>, b: seq<ConstRange>)
    requires multiset(a) == multiset(b) && Nonempty(a)
    ensures Nonempty(b)
  {
    forall i | 0 <= i < |b|
      ensures b[i].lo < b[i].hi
    {
      assert b[i] in multiset(a);
    }
  }

  lemma {:induction false} AdjacentApart(s: seq<ConstRange>, i: nat, j: nat)
    requires Nonempty(s) && forall k :: 0 < k < |s| ==> s[k - 1].hi <= s[k].lo
    requires i < j < |s|
    ensures s[i].hi <= s[j].lo
    decreases j
  {
    if i < j - 1 {
      AdjacentApart(s, i, j - 1);
    }
  }

  /** Sorted by start, the runs are disjoint when each ends before the next begins. */
  lemma SortedApart(runs: seq<ConstRange>, s: seq<ConstRange>)
    requires multiset(s) == multiset(runs) && Ordered(s, LoLess) && Nonempty(runs)
    ensures PairwiseApart(runs) <==> forall k :: 0 < k < |s| ==> s[k - 1].hi <= s[k].lo
  {
    NonemptyPermuted(runs, s);
    if forall k :: 0 < k < |s| ==> s[k - 1].hi <= s[k].lo {
      forall i, j | 0 <= i < j < |s|
        ensures Apart(s[i], s[j])
      {
        AdjacentApart(s, i, j);
      }
      PairwisePermuted(s, runs, Apart);
    }
    if PairwiseApart(runs) {
      PairwisePermuted(runs, s, Apart);
      forall k | 0 < k < |s|
        ensures s[k - 1].hi <= s[k].lo
      {
        assert Apart(s[k - 1], s[k]) && !LoLess(s[k], s[k - 1]);
      }
    }
  }

  lemma {:induction false} AllRunsNonempty(rs: seq<NSRange>, chunkCount: int, constCount: int)
    requires forall i :: 0 <= i < |rs| ==> EntryFits(rs[i], chunkCount, constCount)
    ensures Nonempty(AllRuns(rs))
  {
    if rs == [] {
    } else {
      AllRunsNonempty(rs[1..], chunkCount, constCount);
    }
  }

  lemma {:induction false} AllRunsOneMore(rs: seq<NSRange>, i: nat)
    requires i < |rs|
    ensures AllRuns(rs[..i + 1]) == AllRuns(rs[..i]) + rs[i].runs
    decreases i
  {
    if i > 0 {
      AllRunsOneMore(rs[1..], i - 1);
      assert rs[..i + 1][1..] == rs[1..][..i] && rs[..i][1..] == rs[1..][..i - 1];
    } else {
      assert rs[..1][1..] == [];
    }
  }

  // ----------------------------------------------------------------- the check

  method CheckRuns(runs: seq<ConstRange>, constCount: int) returns (ok: bool)
    ensures ok <==> RunsFit(runs, constCount)
  {
    var prev := -1;
    var i := 0;
    while i < |runs|
      invariant 0 <= i <= |runs|
      invariant prev == if i == 0 then -1 else runs[i - 1].hi
      invariant forall j :: 0 <= j < i ==> RunFits(runs[j], constCount)
      invariant forall j :: 0 < j < i ==> runs[j - 1].hi <= runs[j].lo
    {
      if !RunFits(runs[i], constCount) || runs[i].lo < prev {
        return false;
      }
      prev := runs[i].hi;
      i := i + 1;
    }
    return true;
  }

  /** The first loop: each entry on its own, and no main chunk twice. */
  method CheckEntries(rs: seq<NSRange>, chunkCount: int, constCount: int) returns (ok: bool, all: seq<ConstRange>)
    ensures ok <==> EntriesOk(rs, chunkCount, constCount)
    ensures ok ==> all == AllRuns(rs)
  {
    var mains: set<int> := {};
    all := [];
    var i := 0;
    while i < |rs|
      invariant 0 <= i <= |rs|
      invariant mains == set j | 0 <= j < i :: rs[j].mainChunk as int
      invariant all == AllRuns(rs[..i])
      invariant forall j :: 0 <= j < i ==> EntryFits(rs[j], chunkCount, constCount)
      invariant forall j, k :: 0 <= j < k < i ==> rs[j].mainChunk != rs[k].mainChunk
    {
      var r := rs[i];
      var runsOk := CheckRuns(r.runs, constCount);
      if !runsOk || r.mainChunk < 0 || r.mainChunk >= chunkCount {
        return false, [];
      }
      if r.chunkLo < 0 || r.chunkLo > r.chunkHi || r.chunkHi > chunkCount {
        return false, [];
      }
      if r.mainChunk in mains {
        return false, [];
      }
      AllRunsOneMore(rs, i);
      mains := mains + {r.mainChunk};
      all := all + r.runs;
      i := i + 1;
    }
    assert rs[..|rs|] == rs;
    return true, all;
  }

  /** The last loops: chunk runs against main chunks and against each other. */
  method CheckChunkRuns(rs: seq<NSRange>) returns (ok: bool)
    ensures ok <==> ChunkRunsOk(rs)
  {
    for i := 0 to |rs|
      invariant forall a, b :: 0 <= a < i && 0 <= b < |rs| ==> !InChunkRun(rs[a], rs[b].mainChunk)
      invariant forall a, b :: 0 <= a < i && a < b < |rs| ==> ChunkRunsApart(rs[a], rs[b])
    {
      for j := 0 to |rs|
        invariant forall b :: 0 <= b < j ==> !InChunkRun(rs[i], rs[b].mainChunk)
      {
        if InChunkRun(rs[i], rs[j].mainChunk) {
          return false;
        }
      }
      for j := i + 1 to |rs|
        invariant forall b :: i < b < j ==> ChunkRunsApart(rs[i], rs[b])
      {
        if !ChunkRunsApart(rs[i], rs[j]) {
          return false;
        }
      }
    }
    return true;
  }

  /** validateNSRanges accepts exactly the valid range tables. */
  method ValidateNSRanges(rs: seq<NSRange>, chunkCount: int, constCount: int) returns (ok: bool)
    ensures ok <==> ValidRanges(rs, chunkCount, constCount)
  {
    var all;
    ok, all := CheckEntries(rs, chunkCount, constCount);
    if !ok {
      return;
    }
    AllRunsNonempty(rs, chunkCount, constCount);
    var sorted := SortRuns(all);
    SortedApart(all, sorted);
    var i := 1;
    while i < |sorted|
      invariant 1 <= i
      invariant forall k :: 0 < k < i && k < |sorted| ==> sorted[k - 1].hi <= sorted[k].lo
    {
      if sorted[i].lo < sorted[i - 1].hi {
        return false;
      }
      i := i + 1;
    }
    ok := CheckChunkRuns(rs);
  }

  // ------------------------------------------------------------ what it gives

  predicate InRun(run: ConstRange, c: int) {
    run.lo <= c < run.hi
  }

  predicate InRuns(r: NSRange, c: int) {
    exists i :: 0 <= i < |r.runs| && InRun(r.runs[i], c)
  }

  lemma {:induction false} RunPlace(rs: seq<NSRange>, i: nat, a: nat) returns (p: nat)
    requires i < |rs| && a < |rs[i].runs|
    ensures p < |AllRuns(rs)| && AllRuns(rs)[p] == rs[i].runs[a]
    ensures |AllRuns(rs[..i])| <= p < |AllRuns(rs[..i])| + |rs[i].runs|
    decreases i
  {
    if i == 0 {
      p := a;
      assert rs[..0] == [];
    } else {
      p := RunPlace(rs[1..], i - 1, a);
      p := p + |rs[0].runs|;
      assert rs[..i][1..] == rs[1..][..i - 1];
    }
  }

  lemma {:induction false} PrefixGrows(rs: seq<NSRange>, i: nat, j: nat)
    requires i < j <= |rs|
    ensures |AllRuns(rs[..i])| + |rs[i].runs| <= |AllRuns(rs[..j])|
    decreases j
  {
    AllRunsOneMore(rs, j - 1);
    if i < j - 1 {
      PrefixGrows(rs, i, j - 1);
    } else {
      AllRunsOneMore(rs, i);
    }
  }

  lemma EntriesApart(rs: seq<NSRange>, i: nat, a: nat, j: nat, b: nat)
    requires PairwiseApart(AllRuns(rs)) && i < j < |rs| && a < |rs[i].runs| && b < |rs[j].runs|
    ensures Apart(rs[i].runs[a], rs[j].runs[b])
  {
    var p := RunPlace(rs, i, a);
    var q := RunPlace(rs, j, b);
    PrefixGrows(rs, i, j);
    assert Apart(AllRuns(rs)[p], AllRuns(rs)[q]);
  }

  /** A constant lies in the runs of at most one entry. */
  lemma RunsExclusive(rs: seq<NSRange>, chunkCount: int, constCount: int, i: nat, j: nat, c: int)
    requires ValidRanges(rs, chunkCount, constCount) && i < |rs| && j < |rs| && i != j
    ensures !(InRuns(rs[i], c) && InRuns(rs[j], c))
  {
    forall a, b | 0 <= a < |rs[i].runs| && 0 <= b < |rs[j].runs|
      ensures Apart(rs[i].runs[a], rs[j].runs[b])
    {
      if i < j {
        EntriesApart(rs, i, a, j, b);
      } else {
        EntriesApart(rs, j, b, i, a);
      }
    }
  }
}
