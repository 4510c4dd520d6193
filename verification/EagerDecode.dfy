/** Decoding a bundle body with nothing deferred: what a deferring decoder must agree
    with, and the facts about its record sequences that make that possible. */
module EagerDecode {
  import opened Wire
  import opened Values
  import opened ValueProofs
  import opened Chunks
  import opened Sections
  import opened Modules
  import opened Migration

  /** Everything in a body.  `refs` are the chunks of the function records inside each
      constant record; `locals` are empty when the body has no such section. */
  datatype Eager = Eager(strings: seq<Str>, ranges: seq<NSRange>, chunks: seq<LiveChunk>, base: I64,
                         consts: seq<Value>, refs: seq<set<nat>>, table: map<Str, I64>, locals: seq<seq<LocalVar>>)

  /** The function records' chunks of each of n consecutive value records. */
  function ScanEach(s: Bytes, n: nat): (refs: seq<set<nat>>)
    ensures |refs| == n
    decreases n
  {
    if n == 0 then []
    else
      match Scan(s)
      case Fail(_) => [{}] + ScanEach(s, n - 1)
      case Got(r, rest) => [r] + ScanEach(rest, n - 1)
  }

  function GetTables(flag: bool, s: Bytes, n: nat, strings: seq<Str>): (p: Parse<seq<seq<LocalVar>>>)
    ensures p.Got? ==> |p.rest| <= |s| && |p.val| == n
  {
    if flag then GetLocalTables(s, n, strings, false) else Got(seq(n, _ => []), s)
  }

  /** The chunk section is behind s. */
  function GetAfterChunks(f: Flags, s: Bytes, strings: seq<Str>, ranges: seq<NSRange>, chunks: seq<LiveChunk>,
                          valid: TextParsers): Parse<Eager>
  {
    var (head, s1) :- GetConstHead(f.constsBase, s);
    if head.count >= TWO63 then Fail(Panic)
    else
      var (consts, s2) :- GetValues(s1, head.count, AllLiveEnv(strings, |chunks|, valid, false));
      var (table, s3) :- GetNSTable(s2, strings);
      var (locals, s4) :- GetTables(f.localVars, s3, |chunks|, strings);
      Got(Eager(strings, ranges, chunks, head.base, consts, ScanEach(s1, head.count), table, locals), s4)
  }

  /** The whole body, refusing counts of 2^63 and more. */
  function GetEager(f: Flags, s: Bytes, valid: TextParsers): Parse<Eager> {
    var (strings, s1) :- GetStrings(s);
    var (ranges, s2) :- GetRanges(f.nsRanges, s1, strings);
    var (chunks, s3) :- GetLiveChunks(s2, false);
    GetAfterChunks(f, s3, strings, ranges, chunks, valid)
  }

  /** The tables of a successful decode have the sizes they should, and a chunk record
      brings no local variables. */
  ghost predicate Sized(e: Eager) {
    && |e.refs| == |e.consts| && |e.locals| == |e.chunks|
    && forall k :: 0 <= k < |e.chunks| ==> e.chunks[k].localVars == []
  }

  lemma {:induction false} LiveListRaw(s: Bytes, n: nat)
    requires GetLiveList(s, n, false).Got?
    ensures forall k :: 0 <= k < n ==> GetLiveList(s, n, false).val[k].localVars == []
    decreases n
  {
    hide GetVarint, GetCode, GetRaws;
    if n == 0 {
    } else {
      LiveListRaw(GetLive(s, false).rest, n - 1);
    }
  }

  lemma EagerSized(f: Flags, s: Bytes, valid: TextParsers)
    requires GetEager(f, s, valid).Got?
    ensures Sized(GetEager(f, s, valid).val)
  {
    hide GetStrings, GetRanges, GetVarint, GetLiveList, GetConstHead, GetValues, GetNSTable, GetTables, ScanEach;
    var s2 := GetRanges(f.nsRanges, GetStrings(s).rest, GetStrings(s).val).rest;
    var n := GetVarint(s2);
    LiveListRaw(n.rest, n.val);
  }

  /** A chunk with its code migrated if need be, and its local variables. */
  function Finished(c: LiveChunk, locals: seq<LocalVar>, migrate: bool): LiveChunk {
    LiveChunk(c.maxStack, if migrate then Remap(c.code) else c.code, c.sourceMap, locals)
  }

  function FinalChunk(e: Eager, migrate: bool, k: nat): LiveChunk
    requires Sized(e) && k < |e.chunks|
  {
    Finished(e.chunks[k], e.locals[k], migrate)
  }

  // ------------------------------------------------------- chunk records

  /** The records of the chunks from i on are at the front of s. */
  ghost predicate ChunksAt(s: Bytes, cs: seq<LiveChunk>, i: nat, rest: Bytes) {
    i <= |cs| && GetLiveList(s, |cs| - i, false) == Got(cs[i..], rest)
  }

  ghost predicate ChunkRecord(s: Bytes, c: LiveChunk) {
    GetLive(s, false).Got? && GetLive(s, false).val == c
  }

  ghost predicate ChunkRecords(s: Bytes, cs: seq<LiveChunk>) {
    GetLiveList(s, |cs|, false).Got? && GetLiveList(s, |cs|, false).val == cs
  }

  /** At a chunk record, reading and skipping get to the next one. */
  lemma ChunkStep(s: Bytes, cs: seq<LiveChunk>, i: nat, rest: Bytes)
    requires i < |cs| && ChunksAt(s, cs, i, rest) && |s| < TWO63
    ensures var p := GetLive(s, false);
      && p.Got? && p.val == cs[i] && ChunksAt(p.rest, cs, i + 1, rest)
      && GetLive(s, true) == p && ScanChunk(s) == Got((), p.rest)
  {
    hide GetLive, ScanChunk;
    ChunkSkipMirrorsRead(s);
    assert cs[i..][1..] == cs[i + 1..];
  }

  lemma {:induction false} LiveListPrefix(s: Bytes, n: nat, m: nat)
    requires m <= n && GetLiveList(s, n, false).Got?
    ensures GetLiveList(s, m, false).Got? && GetLiveList(s, m, false).val == GetLiveList(s, n, false).val[..m]
    decreases m
  {
    hide GetLive;
    if m == 0 {
    } else {
      LiveListPrefix(GetLive(s, false).rest, n - 1, m - 1);
    }
  }

  lemma ChunksAhead(s: Bytes, cs: seq<LiveChunk>, i: nat, j: nat, rest: Bytes)
    requires i <= j <= |cs| && ChunksAt(s, cs, i, rest)
    ensures ChunkRecords(s, cs[i..j])
    ensures i < j ==> ChunkRecord(s, cs[i])
  {
    hide GetLive;
    LiveListPrefix(s, |cs| - i, j - i);
    assert cs[i..][..j - i] == cs[i..j];
  }

  // ------------------------------------------------------- value records

  /** The records of the constants from i on, and of the functions inside them, are at
      the front of s. */
  ghost predicate ConstsAt(s: Bytes, e: Eager, env: Env, i: nat, rest: Bytes) {
    && |e.refs| == |e.consts| && i <= |e.consts|
    && GetValues(s, |e.consts| - i, env) == Got(e.consts[i..], rest)
    && ScanEach(s, |e.consts| - i) == e.refs[i..]
  }

  ghost predicate ConstRecords(s: Bytes, vals: seq<Value>, refs: seq<set<nat>>, env: Env) {
    && GetValues(s, |vals|, env).Got? && GetValues(s, |vals|, env).val == vals && ScanEach(s, |vals|) == refs
  }

  /** At a value record, skipping gets to the next one, and so does reading if every
      chunk inside is decoded; else the read fails as the namespace is deferred. */
  lemma ConstStep(s: Bytes, e: Eager, env: Env, env2: Env, i: nat, rest: Bytes)
    requires ConstsAt(s, e, env, i, rest) && i < |e.consts| && !env.wide && Compatible(env, env2)
    ensures var p := GetValue(s, env);
      && p.Got? && p.val == e.consts[i] && ConstsAt(p.rest, e, env, i + 1, rest)
      && Scan(s) == Got(e.refs[i], p.rest) && AllLive(e.refs[i], env.live)
      && GetValue(s, env2) == if AllLive(e.refs[i], env2.live) then p else Fail(DeferredOutside)
  {
    hide GetValue, Scan, Compatible, AllLive;
    ValueScan(s, env, env2);
    assert e.consts[i..][1..] == e.consts[i + 1..];
    assert e.refs[i..][1..] == e.refs[i + 1..];
  }

  lemma {:induction false} ValuesPrefix(s: Bytes, n: nat, m: nat, env: Env)
    requires m <= n && GetValues(s, n, env).Got? && !env.wide
    ensures GetValues(s, m, env).Got? && GetValues(s, m, env).val == GetValues(s, n, env).val[..m]
    ensures ScanEach(s, m) == ScanEach(s, n)[..m]
    decreases m
  {
    hide GetValue, Scan;
    if m == 0 {
    } else {
      ValueScan(s, env, env);
      ValuesPrefix(GetValue(s, env).rest, n - 1, m - 1, env);
    }
  }

  lemma ConstsAhead(s: Bytes, e: Eager, env: Env, i: nat, j: nat, rest: Bytes)
    requires ConstsAt(s, e, env, i, rest) && i <= j <= |e.consts| && !env.wide
    ensures ConstRecords(s, e.consts[i..j], e.refs[i..j], env)
  {
    hide GetValue, Scan;
    ValuesPrefix(s, |e.consts| - i, j - i, env);
    assert e.consts[i..][..j - i] == e.consts[i..j];
    assert e.refs[i..][..j - i] == e.refs[i..j];
  }

  // ------------------------------------------------- local-variable tables

  ghost predicate TablesAt(s: Bytes, tables: seq<seq<LocalVar>>, strings: seq<Str>, i: nat, rest: Bytes) {
    i <= |tables| && GetLocalTables(s, |tables| - i, strings, false) == Got(tables[i..], rest)
  }

  ghost predicate TableRecord(s: Bytes, lvs: seq<LocalVar>, strings: seq<Str>) {
    GetLocals(s, strings, false).Got? && GetLocals(s, strings, false).val == lvs
  }

  ghost predicate TableRecords(s: Bytes, tables: seq<seq<LocalVar>>, strings: seq<Str>) {
    && GetLocalTables(s, |tables|, strings, false).Got?
    && GetLocalTables(s, |tables|, strings, false).val == tables
  }

  lemma TableStep(s: Bytes, tables: seq<seq<LocalVar>>, strings: seq<Str>, i: nat, rest: Bytes)
    requires i < |tables| && TablesAt(s, tables, strings, i, rest) && |s| < TWO63
    ensures var p := GetLocals(s, strings, false);
      && p.Got? && p.val == tables[i] && TablesAt(p.rest, tables, strings, i + 1, rest)
      && GetLocals(s, strings, true) == p && ScanLocals(s) == Got((), p.rest)
  {
    hide GetLocals, ScanLocals;
    LocalsSkipMirrorsRead(s, strings);
    assert tables[i..][1..] == tables[i + 1..];
  }

  lemma {:induction false} TablesPrefix(s: Bytes, n: nat, m: nat, strings: seq<Str>)
    requires m <= n && GetLocalTables(s, n, strings, false).Got?
    ensures var p, q := GetLocalTables(s, m, strings, false), GetLocalTables(s, n, strings, false);
      p.Got? && p.val == q.val[..m]
    decreases m
  {
    hide GetLocals;
    if m == 0 {
    } else {
      TablesPrefix(GetLocals(s, strings, false).rest, n - 1, m - 1, strings);
    }
  }

  lemma TablesAhead(s: Bytes, tables: seq<seq<LocalVar>>, strings: seq<Str>, i: nat, j: nat, rest: Bytes)
    requires i <= j <= |tables| && TablesAt(s, tables, strings, i, rest)
    ensures TableRecords(s, tables[i..j], strings)
    ensures i < j ==> TableRecord(s, tables[i], strings)
  {
    hide GetLocals;
    TablesPrefix(s, |tables| - i, j - i, strings);
    assert tables[i..][..j - i] == tables[i..j];
  }
}
