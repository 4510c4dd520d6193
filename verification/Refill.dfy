/** The steps of materialize: reading a deferred namespace's records from the offsets
    the eager pass noted into the slots it left empty. */
module Refill {
  import opened Wire
  import opened Stream
  import opened Values
  import opened ValueProofs
  import opened ValueCodec
  import opened Chunks
  import opened ChunkCodec
  import opened Sections
  import opened Migration
  import opened Validation
  import opened EagerDecode
  import opened LazyDecode

  /** The slots differ at most where slots0 is empty in [lo, hi). */
  predicate FilledWithin<T(==)>(slots: seq<Option<T>>, slots0: seq<Option<T>>, lo: int, hi: int) {
    && |slots| == |slots0|
    && forall k :: 0 <= k < |slots| && (slots0[k].Some? || !(lo <= k < hi)) ==> slots[k] == slots0[k]
  }

  // ------------------------------------------------------------- the chunk run

  lemma ChunksFrom(s: Bytes, cs: seq<LiveChunk>, lo: nat, hi: nat) returns (rest: Bytes)
    requires lo <= hi <= |cs| && ChunkRecords(s, cs[lo..hi])
    ensures ChunksAt(s, cs[..hi], lo, rest)
  {
    hide GetLiveList;
    rest := GetLiveList(s, hi - lo, false).rest;
    assert cs[..hi][lo..] == cs[lo..hi];
  }

  /** The run's records into the empty slots of [lo, hi); a slot an earlier attempt
      filled is kept. */
  method ReadRun(r: Reader, slots0: seq<Option<LiveChunk>>, lo: nat, hi: nat, ghost cs: seq<LiveChunk>)
    returns (o: Outcome<()>, slots: seq<Option<LiveChunk>>, added: set<nat>)
    requires r.Valid() && |r.data| < TWO63 && lo <= hi <= |slots0|
    modifies r
    ensures FilledWithin(slots, slots0, lo, hi)
    ensures forall k :: k in added <==> lo <= k < hi && slots0[k].None? && slots[k].Some?
    ensures |cs| == |slots0| && old(ChunkRecords(r.Rest(), cs[lo..hi])) ==>
        o.Ok? && forall k :: lo <= k < hi && slots0[k].None? ==> slots[k] == Some(cs[k])
  {
    hide GetLive, GetLiveList, ScanChunk, ChunkRecords, ChunksAt;
    ghost var ok := |cs| == |slots0| && ChunkRecords(r.Rest(), cs[lo..hi]);
    ghost var rest: Bytes := [];
    if ok {
      rest := ChunksFrom(r.Rest(), cs, lo, hi);
    }
    slots, added := slots0, {};
    var k := lo;
    while k < hi
      invariant lo <= k <= hi && r.Valid() && FilledWithin(slots, slots0, lo, k)
      invariant forall x :: x in added <==> lo <= x < k && slots0[x].None? && slots[x].Some?
      invariant ok ==> ChunksAt(r.Rest(), cs[..hi], k, rest)
      invariant ok ==> forall x :: lo <= x < k && slots0[x].None? ==> slots[x] == Some(cs[x])
    {
      if ok {
        ChunkStep(r.Rest(), cs[..hi], k, rest);
      }
      var c := ReadLive(r);
      if c.Err? {
        return Err(c.error), slots, added;
      }
      if slots[k].None? {
        slots := slots[k := Some(c.value)];
        added := added + {k};
      }
      k := k + 1;
    }
    o := Ok(());
  }

  lemma TablesFrom(s: Bytes, tables: seq<seq<LocalVar>>, strings: seq<Str>, lo: nat, hi: nat) returns (rest: Bytes)
    requires lo <= hi <= |tables| && TableRecords(s, tables[lo..hi], strings)
    ensures TablesAt(s, tables[..hi], strings, lo, rest)
  {
    hide GetLocalTables;
    rest := GetLocalTables(s, hi - lo, strings, false).rest;
    assert tables[..hi][lo..] == tables[lo..hi];
  }

  /** The run's local-variable tables into the chunks just added; the others' are skipped. */
  method ReadRunTables(r: Reader, strings: seq<Str>, slots0: seq<Option<LiveChunk>>, added: set<nat>, lo: nat, hi: nat,
                       ghost tables: seq<seq<LocalVar>>)
    returns (o: Outcome<()>, slots: seq<Option<LiveChunk>>)
    requires r.Valid() && |r.data| < TWO63 && lo <= hi <= |slots0|
    requires forall k :: k in added ==> lo <= k < hi && slots0[k].Some?
    modifies r
    ensures |slots| == |slots0|
    ensures forall k :: 0 <= k < |slots| ==> if k in added then slots[k].Some? else slots[k] == slots0[k]
    ensures |tables| == |slots0| && old(TableRecords(r.Rest(), tables[lo..hi], strings)) ==>
        o.Ok? && forall k :: k in added ==> slots[k] == Some(slots0[k].value.(localVars := tables[k]))
  {
    hide GetLocals, GetLocalTables, ScanLocals, TableRecords, TablesAt;
    ghost var ok := |tables| == |slots0| && TableRecords(r.Rest(), tables[lo..hi], strings);
    ghost var rest: Bytes := [];
    if ok {
      rest := TablesFrom(r.Rest(), tables, strings, lo, hi);
    }
    slots := slots0;
    var k := lo;
    while k < hi
      invariant lo <= k <= hi && r.Valid() && |slots| == |slots0|
      invariant forall x :: 0 <= x < |slots| ==>
          if x in added && x < k then slots[x].Some? else slots[x] == slots0[x]
      invariant ok ==> TablesAt(r.Rest(), tables[..hi], strings, k, rest)
      invariant ok ==> forall x :: x in added && x < k ==> slots[x] == Some(slots0[x].value.(localVars := tables[x]))
    {
      if ok {
        TableStep(r.Rest(), tables[..hi], strings, k, rest);
      }
      if k !in added {
        var skipped := SkipLocals(r);
        if skipped.Err? {
          return skipped, slots;
        }
      } else {
        var lvs := ReadLocals(r, strings);
        if lvs.Err? {
          return Err(lvs.error), slots;
        }
        slots := slots[k := Some(slots[k].value.(localVars := lvs.value))];
      }
      k := k + 1;
    }
    o := Ok(());
  }

  /** The remap over the chunks just added, in no particular order. */
  method RemapFresh(slots0: seq<Option<LiveChunk>>, added: set<nat>) returns (slots: seq<Option<LiveChunk>>)
    requires forall k :: k in added ==> k < |slots0| && slots0[k].Some?
    ensures |slots| == |slots0|
    ensures forall k :: 0 <= k < |slots| ==> slots[k] == if k in added then Remapped(slots0[k]) else slots0[k]
  {
    hide Remap;
    slots := slots0;
    var left := added;
    while left != {}
      invariant left <= added && |slots| == |slots0|
      invariant forall k :: 0 <= k < |slots| ==> slots[k] == if k in added - left then Remapped(slots0[k]) else slots0[k]
      decreases left
    {
      var k :| k in left;
      var c := RemapChunk(slots[k].value);
      slots := slots[k := Some(c)];
      left := left - {k};
    }
  }

  // ------------------------------------------------------------ the constants

  /** The records up to hi. */
  ghost function UpTo(e: Eager, hi: nat): Eager
    requires hi <= |e.consts| == |e.refs|
  {
    e.(consts := e.consts[..hi], refs := e.refs[..hi])
  }

  lemma ConstsFrom(s: Bytes, run: ConstRange, e: Eager, env: Env) returns (rest: Bytes)
    requires RunRecords(s, run, e, env)
    ensures 0 <= run.lo <= run.hi <= |e.consts| == |e.refs|
    ensures ConstsAt(s, UpTo(e, run.hi), env, run.lo, rest)
  {
    hide GetValues, ScanEach;
    rest := GetValues(s, run.hi - run.lo, env).rest;
    assert e.consts[..run.hi][run.lo..] == e.consts[run.lo..run.hi];
    assert e.refs[..run.hi][run.lo..] == e.refs[run.lo..run.hi];
  }

  /** Every function of the constants of [lo, hi) has its chunk decoded. */
  ghost predicate Needs(e: Eager, lo: int, hi: int, live: seq<bool>) {
    forall c :: lo <= c < hi && 0 <= c < |e.refs| ==> AllLive(e.refs[c], live)
  }

  /** The slots of [lo, hi) that were empty hold the constants now. */
  ghost predicate Matches(pool: seq<Option<Value>>, pool0: seq<Option<Value>>, vals: seq<Value>, lo: int, hi: int) {
    |pool| == |pool0| && hi <= |pool| <= |vals|
    && forall c :: 0 <= lo <= c < hi ==> pool[c] == if pool0[c].None? then Some(vals[c]) else pool0[c]
  }

  /** One run's records into the pool's empty slots (SetDeferred). */
  method ReadRunConsts(r: Reader, env2: Env, pool0: seq<Option<Value>>, run: ConstRange, ghost e: Eager, ghost env: Env)
    returns (o: Outcome<()>, pool: seq<Option<Value>>, ghost stop: int)
    requires r.Valid() && 0 <= run.lo <= run.hi <= |pool0|
    requires !env.wide && Compatible(env, env2)
    modifies r
    ensures FilledWithin(pool, pool0, run.lo, stop) && run.lo <= stop <= run.hi && (o.Ok? ==> stop == run.hi)
    ensures |pool0| == |e.consts| && old(RunRecords(r.Rest(), run, e, env)) ==>
        && (o.Ok? <==> Needs(e, run.lo, run.hi, env2.live)) && (o.Err? ==> o.error == DeferredOutside)
        && Matches(pool, pool0, e.consts, run.lo, stop)
  {
    hide GetValue, GetValues, Scan, ScanEach, RunRecords, ConstsAt, AllLive, Compatible;
    ghost var ok := |pool0| == |e.consts| && RunRecords(r.Rest(), run, e, env);
    ghost var rest: Bytes := [];
    if ok {
      rest := ConstsFrom(r.Rest(), run, e, env);
    }
    pool := pool0;
    var c := run.lo;
    while c < run.hi
      invariant run.lo <= c <= run.hi && r.Valid() && FilledWithin(pool, pool0, run.lo, c)
      invariant ok ==> |e.refs| == |e.consts| && ConstsAt(r.Rest(), UpTo(e, run.hi), env, c, rest)
      invariant ok ==> Needs(e, run.lo, c, env2.live) && Matches(pool, pool0, e.consts, run.lo, c)
    {
      if ok {
        ConstStep(r.Rest(), UpTo(e, run.hi), env, env2, c, rest);
      }
      var v := ReadValue(r, env2);
      if v.Err? {
        return Err(v.error), pool, c;
      }
      if pool[c].None? {
        pool := pool[c := Some(v.value)];
      }
      c := c + 1;
    }
    o, stop := Ok(()), c;
  }
}
