/** What a deferring decode of any bytes reads: the records of what is selected are
    skipped, all others are read as the decoder reads them. */
module LazyRead {
  import opened Wire
  import opened Values
  import opened ValueCodec
  import opened Chunks
  import opened Sections
  import opened Modules
  import opened Selection

  // ------------------------------------------------------------------ chunks

  /** n chunk records from chunk i on. */
  function LazyChunks(s: Bytes, i: nat, n: nat, sel: seq<NSRange>): (p: Parse<seq<Option<LiveChunk>>>)
    ensures p.Got? ==> |p.val| == n
    decreases n
  {
    if n == 0 then Got([], s)
    else
      var (x, s1) :- LazyChunk(s, i, sel);
      var (xs, s2) :- LazyChunks(s1, i + 1, n - 1, sel);
      Got([x] + xs, s2)
  }

  function LazyChunk(s: Bytes, i: nat, sel: seq<NSRange>): Parse<Option<LiveChunk>> {
    if DeferredChunk(sel, i) then
      var (_, rest) :- ScanChunk(s);
      Got(None, rest)
    else
      var (c, rest) :- GetLive(s, true);
      Got(Some(c), rest)
  }

  /** The chunk section. */
  function LazyChunkSection(s: Bytes, sel: seq<NSRange>): Parse<seq<Option<LiveChunk>>> {
    var (n, s1) :- GetVarint(s);
    if n >= TWO63 then Fail(Panic) else LazyChunks(s1, 0, n, sel)
  }

  /** i of n records are behind, s ahead. */
  ghost predicate OnChunks(p: Parse<seq<Option<LiveChunk>>>, slots: seq<Option<LiveChunk>>, s: Bytes, i: nat, n: nat,
                     sel: seq<NSRange>)
  {
    i <= n && Resumes(p, slots, LazyChunks(s, i, n - i, sel))
  }

  lemma OnChunksStart(s: Bytes, n: nat, sel: seq<NSRange>)
    ensures OnChunks(LazyChunks(s, 0, n, sel), [], s, 0, n, sel)
  {
    hide LazyChunks;
    var p := LazyChunks(s, 0, n, sel);
    if p.Got? {
      assert [] + p.val == p.val;
    }
  }

  lemma OnChunksStep(p: Parse<seq<Option<LiveChunk>>>, slots: seq<Option<LiveChunk>>, s: Bytes, i: nat, n: nat,
                     sel: seq<NSRange>)
    requires i < n && OnChunks(p, slots, s, i, n, sel) && LazyChunk(s, i, sel).Got?
    ensures var q := LazyChunk(s, i, sel); OnChunks(p, slots + [q.val], q.rest, i + 1, n, sel)
  {
    hide LazyChunk;
    var x := LazyChunk(s, i, sel);
    match LazyChunks(x.rest, i + 1, n - i - 1, sel)
    case Fail(_) =>
    case Got(xs, _) => assert slots + ([x.val] + xs) == (slots + [x.val]) + xs;
  }

  lemma OnChunksDone(p: Parse<seq<Option<LiveChunk>>>, slots: seq<Option<LiveChunk>>, s: Bytes, n: nat,
                     sel: seq<NSRange>)
    requires OnChunks(p, slots, s, n, n, sel)
    ensures p == Got(slots, s)
  {
    assert slots + [] == slots;
  }

  // --------------------------------------------------------------- constants

  function LazyConst(s: Bytes, i: nat, sel: seq<NSRange>, env: Env): Parse<Option<Value>> {
    if DeferredConst(sel, i) then
      var (_, rest) :- Scan(s);
      Got(None, rest)
    else
      var (v, rest) :- GetValue(s, env);
      Got(Some(v), rest)
  }

  /** n value records from constant i on. */
  function LazyConsts(s: Bytes, i: nat, n: nat, sel: seq<NSRange>, env: Env): (p: Parse<seq<Option<Value>>>)
    ensures p.Got? ==> |p.val| == n
    decreases n
  {
    if n == 0 then Got([], s)
    else
      var (x, s1) :- LazyConst(s, i, sel, env);
      var (xs, s2) :- LazyConsts(s1, i + 1, n - 1, sel, env);
      Got([x] + xs, s2)
  }

  /** The constants section; a count of 2^63 or more is a negative int. */
  function LazyConstSection(flag: bool, s: Bytes, sel: seq<NSRange>, env: Env): Parse<seq<Option<Value>>> {
    var (head, s1) :- GetConstHead(flag, s);
    LazyConsts(s1, 0, if head.count >= TWO63 then 0 else head.count, sel, env)
  }

  ghost predicate OnConsts(p: Parse<seq<Option<Value>>>, slots: seq<Option<Value>>, s: Bytes, i: nat, n: nat,
                     sel: seq<NSRange>, env: Env)
  {
    i <= n && Resumes(p, slots, LazyConsts(s, i, n - i, sel, env))
  }

  lemma OnConstsStart(s: Bytes, n: nat, sel: seq<NSRange>, env: Env)
    ensures OnConsts(LazyConsts(s, 0, n, sel, env), [], s, 0, n, sel, env)
  {
    hide LazyConsts;
    var p := LazyConsts(s, 0, n, sel, env);
    if p.Got? {
      assert [] + p.val == p.val;
    }
  }

  lemma OnConstsStep(p: Parse<seq<Option<Value>>>, slots: seq<Option<Value>>, s: Bytes, i: nat, n: nat,
                     sel: seq<NSRange>, env: Env)
    requires i < n && OnConsts(p, slots, s, i, n, sel, env) && LazyConst(s, i, sel, env).Got?
    ensures var q := LazyConst(s, i, sel, env); OnConsts(p, slots + [q.val], q.rest, i + 1, n, sel, env)
  {
    hide LazyConst;
    var x := LazyConst(s, i, sel, env);
    match LazyConsts(x.rest, i + 1, n - i - 1, sel, env)
    case Fail(_) =>
    case Got(xs, _) => assert slots + ([x.val] + xs) == (slots + [x.val]) + xs;
  }

  lemma OnConstsDone(p: Parse<seq<Option<Value>>>, slots: seq<Option<Value>>, s: Bytes, n: nat, sel: seq<NSRange>,
                     env: Env)
    requires OnConsts(p, slots, s, n, n, sel, env)
    ensures p == Got(slots, s)
  {
    assert slots + [] == slots;
  }

  // ---------------------------------------------------- local-variable tables

  /** One table per slot, given to the chunk in it or skipped. */
  function LazyTable(s: Bytes, slot: Option<LiveChunk>, strings: seq<Str>): Parse<Option<LiveChunk>> {
    if slot.None? then
      var (_, rest) :- ScanLocals(s);
      Got(None, rest)
    else
      var (lvs, rest) :- GetLocals(s, strings, true);
      Got(Some(slot.value.(localVars := lvs)), rest)
  }

  function LazyTables(s: Bytes, slots: seq<Option<LiveChunk>>, strings: seq<Str>): (p: Parse<seq<Option<LiveChunk>>>)
    ensures p.Got? ==> |p.val| == |slots|
    decreases |slots|
  {
    if slots == [] then Got([], s)
    else
      var (x, s1) :- LazyTable(s, slots[0], strings);
      var (xs, s2) :- LazyTables(s1, slots[1..], strings);
      Got([x] + xs, s2)
  }

  ghost predicate OnTables(p: Parse<seq<Option<LiveChunk>>>, out: seq<Option<LiveChunk>>, s: Bytes, i: nat,
                     slots: seq<Option<LiveChunk>>, strings: seq<Str>)
  {
    i <= |slots| && Resumes(p, out, LazyTables(s, slots[i..], strings))
  }

  lemma OnTablesStart(s: Bytes, slots: seq<Option<LiveChunk>>, strings: seq<Str>)
    ensures OnTables(LazyTables(s, slots, strings), [], s, 0, slots, strings)
  {
    hide LazyTables;
    assert slots[0..] == slots;
    var p := LazyTables(s, slots, strings);
    if p.Got? {
      assert [] + p.val == p.val;
    }
  }

  lemma OnTablesStep(p: Parse<seq<Option<LiveChunk>>>, out: seq<Option<LiveChunk>>, s: Bytes, i: nat,
                     slots: seq<Option<LiveChunk>>, strings: seq<Str>)
    requires i < |slots| && OnTables(p, out, s, i, slots, strings) && LazyTable(s, slots[i], strings).Got?
    ensures var q := LazyTable(s, slots[i], strings); OnTables(p, out + [q.val], q.rest, i + 1, slots, strings)
  {
    hide LazyTable;
    var x := LazyTable(s, slots[i], strings);
    assert slots[i..][1..] == slots[i + 1..];
    match LazyTables(x.rest, slots[i + 1..], strings)
    case Fail(_) =>
    case Got(xs, _) => assert out + ([x.val] + xs) == (out + [x.val]) + xs;
  }

  lemma OnTablesDone(p: Parse<seq<Option<LiveChunk>>>, out: seq<Option<LiveChunk>>, s: Bytes,
                     slots: seq<Option<LiveChunk>>, strings: seq<Str>)
    requires OnTables(p, out, s, |slots|, slots, strings)
    ensures p == Got(out, s)
  {
    assert out + [] == out && slots[|slots|..] == [];
  }

  // --------------------------------------------------------- nothing deferred

  function AllSome<T>(xs: seq<T>): (r: seq<Option<T>>)
    ensures |r| == |xs| && forall i :: 0 <= i < |r| ==> r[i] == Some(xs[i])
  {
    seq(|xs|, i requires 0 <= i < |xs| => Some(xs[i]))
  }

  /** With nothing selected every record is read. */
  lemma {:induction false} NoneChunks(s: Bytes, i: nat, n: nat)
    ensures match GetLiveList(s, n, true)
            case Got(cs, rest) => LazyChunks(s, i, n, []) == Got(AllSome(cs), rest)
            case Fail(e) => LazyChunks(s, i, n, []) == Fail(e)
    decreases n
  {
    hide GetLive, ScanChunk;
    if n == 0 {
    } else {
      assert !DeferredChunk([], i);
      match GetLive(s, true)
      case Fail(_) =>
      case Got(x, rest) =>
        NoneChunks(rest, i + 1, n - 1);
        match GetLiveList(rest, n - 1, true)
        case Fail(_) =>
        case Got(xs, _) => assert [Some(x)] + AllSome(xs) == AllSome([x] + xs);
    }
  }

  lemma {:induction false} NoneConsts(s: Bytes, i: nat, n: nat, env: Env)
    ensures match GetValues(s, n, env)
            case Got(vs, rest) => LazyConsts(s, i, n, [], env) == Got(AllSome(vs), rest)
            case Fail(e) => LazyConsts(s, i, n, [], env) == Fail(e)
    decreases n
  {
    hide GetValue, Scan;
    if n == 0 {
    } else {
      assert !DeferredConst([], i);
      match GetValue(s, env)
      case Fail(_) =>
      case Got(x, rest) =>
        NoneConsts(rest, i + 1, n - 1, env);
        match GetValues(rest, n - 1, env)
        case Fail(_) =>
        case Got(xs, _) => assert [Some(x)] + AllSome(xs) == AllSome([x] + xs);
    }
  }
}
