/** What the value encoding promises: a written value is read back whatever
    follows it, and skipping a record stops where reading it does. */
module ValueProofs {
  import opened Wire
  import opened Values

  // ------------------------------------------------------- skipping mirrors reading

  ghost predicate AllLive(refs: set<nat>, live: seq<bool>) {
    forall c :: c in refs ==> c < |live| && live[c]
  }

  /** e2 differs from e at most in which chunks are decoded and in wide counts. */
  ghost predicate Compatible(e: Env, e2: Env) {
    e2.strings == e.strings && e2.valid == e.valid && |e2.live| == |e.live|
  }

  /** A successful read p tells what the skipper does with the same bytes, and what
      a read does when other chunks are decoded. */
  ghost predicate Mirrors<T>(p: Parse<T>, scan: Parse<set<nat>>, e: Env, p2: Parse<T>, e2: Env) {
    p.Got? ==>
      && scan.Got? && scan.rest == p.rest && AllLive(scan.val, e.live)
      && p2 == if AllLive(scan.val, e2.live) then p else Fail(DeferredOutside)
  }

  lemma {:induction false} StrsScan(s: Bytes, n: nat, strings: seq<Str>)
    requires GetStrs(s, n, strings).Got?
    ensures ScanVarints(s, n) == Got((), GetStrs(s, n, strings).rest)
    decreases n
  {
    hide GetVarint, PutVarint;
    if n == 0 {
    } else {
      StrsScan(GetStr(s, strings).rest, n - 1, strings);
    }
  }

  lemma TypeScan(s: Bytes, ver: Byte, strings: seq<Str>)
    requires ver <= 1 && GetType(s, ver, strings).Got?
    ensures ScanType(s, ver) == Got(|GetType(s, ver, strings).val.fields|, GetType(s, ver, strings).rest)
  {
    hide GetVarint, PutVarint;
    var s1 := if ver == 1 then GetStr(s, strings).rest else s;
    var s2 := GetStr(s1, strings).rest;
    assert ScanVarints(s1, 1) == Got((), s2) by {
      assert ScanVarints(s2, 0) == Got((), s2);
    }
    assert ver == 1 ==> ScanVarints(s, 2) == ScanVarints(s1, 1);
    var n := GetVarint(s2);
    StrsScan(n.rest, n.val, strings);
  }

  lemma RefScan(id: Byte, s: Bytes, e: Env, e2: Env)
    requires (IsTextTag(id) || id == 0x10 || id == 0x11) && Compatible(e, e2)
    ensures Mirrors(GetLeaf(id, 0, s, e), ScanLeaf(id, 0, s), e, GetLeaf(id, 0, s, e2), e2)
  {
    hide GetVarint, PutVarint;
    if GetLeaf(id, 0, s, e).Got? {
      var s1 := GetVarint(s).rest;
      assert ScanVarints(s, 1) == ScanVarints(s1, 0);
      if id == 0x11 {
        var s2 := GetStr(s1, e.strings).rest;
        assert ScanVarints(s, 2) == ScanVarints(s1, 1) == ScanVarints(s2, 0);
      } else if id == 0x10 {
        var refs := {GetVarint(s).val};
        assert ScanLeaf(id, 0, s) == Got(refs, GetFunc(s, e).rest);
      }
    }
  }

  lemma LeafScan(id: Byte, ver: Byte, s: Bytes, e: Env, e2: Env)
    requires LeafTag(id) && VersionSupported(id, ver) && Compatible(e, e2)
    ensures Mirrors(GetLeaf(id, ver, s, e), ScanLeaf(id, ver, s), e, GetLeaf(id, ver, s, e2), e2)
  {
    hide GetVarint, PutVarint;
    if IsTextTag(id) || id == 0x10 || id == 0x11 {
      RefScan(id, s, e, e2);
    } else if id == 0x30 && GetLeaf(id, ver, s, e).Got? {
      TypeScan(s, ver, e.strings);
    }
  }

  lemma {:induction false} ValueScan(s: Bytes, e: Env, e2: Env)
    requires !e.wide && Compatible(e, e2)
    ensures Mirrors(GetValue(s, e), Scan(s), e, GetValue(s, e2), e2)
    decreases |s|, 0
  {
    hide GetTagged, ScanTagged;
    if s == [] {
    } else {
      TaggedScan(s[0] % 64, s[0] / 64, s[1..], e, e2);
    }
  }

  lemma {:induction false} TaggedScan(id: Byte, ver: Byte, s: Bytes, e: Env, e2: Env)
    requires !e.wide && Compatible(e, e2)
    ensures Mirrors(GetTagged(id, ver, s, e), ScanTagged(id, ver, s), e, GetTagged(id, ver, s, e2), e2)
    decreases |s|, 4
  {
    hide GetVarint, PutVarint, GetLeaf, ScanLeaf, GetValues, ScanValues, GetValue, Scan;
    if GetTagged(id, ver, s, e).Got? {
      if LeafTag(id) {
        LeafScan(id, ver, s, e, e2);
      } else if id == 0x33 {
        ValueScan(s, e, e2);
      } else if id == 0x31 {
        RecordScan(ver, s, e, e2);
      } else if id == 0x34 {
        DTypeScan(s, e, e2);
      } else if id == 0x23 {
        MapScan(s, e, e2);
      } else {
        var n := GetVarint(s);
        ValuesScan(n.rest, n.val, e, e2);
      }
    }
  }

  lemma {:induction false} MapScan(s: Bytes, e: Env, e2: Env)
    requires !e.wide && Compatible(e, e2)
    ensures Mirrors(GetMapItems(s, e), ScanPairs(s), e, GetMapItems(s, e2), e2)
    ensures Mirrors(GetDefMeta(s, e), ScanPairs(s), e, GetDefMeta(s, e2), e2)
    decreases |s|, 3
  {
    hide GetVarint, PutVarint, GetValues, ScanValues;
    var n := GetVarint(s);
    if n.Got? {
      ValuesScan(n.rest, n.val * 2 % TWO64, e, e2);
    }
  }

  lemma {:induction false} RecordScan(ver: Byte, s: Bytes, e: Env, e2: Env)
    requires !e.wide && Compatible(e, e2) && ver <= 1
    ensures Mirrors(GetRecord(ver, s, e), ScanTagged(0x31, ver, s), e, GetRecord(ver, s, e2), e2)
    decreases |s|, 3
  {
    hide GetVarint, PutVarint, GetType, ScanType, GetValues, ScanValues, GetMapItems, ScanPairs, MakeRecord;
    if GetRecord(ver, s, e).Got? {
      TypeScan(s, ver, e.strings);
      var t := GetType(s, ver, e.strings);
      ValuesScan(t.rest, |t.val.fields|, e, e2);
      MapScan(GetValues(t.rest, |t.val.fields|, e).rest, e, e2);
    }
  }

  lemma {:induction false} DTypeScan(s: Bytes, e: Env, e2: Env)
    requires !e.wide && Compatible(e, e2)
    ensures Mirrors(GetDType(s, e), ScanTagged(0x34, 0, s), e, GetDType(s, e2), e2)
    decreases |s|, 3
  {
    hide GetVarint, PutVarint, GetType, GetValues, ScanValues;
    if GetDType(s, e).Got? {
      var s1 := GetStr(s, e.strings).rest;
      TypeScan(s1, 0, e.strings);
      assert ScanType(s, 1) == ScanType(s1, 0) by {
        assert ScanVarints(s, 2) == ScanVarints(s1, 1);
      }
      var t := GetType(s1, 0, e.strings);
      ValuesScan(t.rest, |t.val.fields|, e, e2);
    }
  }

  lemma {:induction false} ValuesScan(s: Bytes, n: nat, e: Env, e2: Env)
    requires !e.wide && Compatible(e, e2)
    ensures Mirrors(GetValues(s, n, e), ScanValues(s, n), e, GetValues(s, n, e2), e2)
    decreases |s|, 1
  {
    hide GetVarint, GetTagged, ScanTagged;
    if n > 0 && GetValues(s, n, e).Got? {
      ValueScan(s, e, e2);
      ValuesScan(GetValue(s, e).rest, n - 1, e, e2);
    }
  }

  /** skipValueV2 mirrors readValueV2 on every byte stream whose map counts do not
      exceed 2^63: where the read succeeds the skip succeeds and stops at the same
      byte. */
  lemma SkipMirrorsRead(s: Bytes, e: Env)
    requires GetValue(s, e.(wide := false)).Got?
    ensures GetValue(s, e) == GetValue(s, e.(wide := false))
    ensures Scan(s).Got? && Scan(s).rest == GetValue(s, e).rest
  {
    hide GetVarint, PutVarint;
    ValueScan(s, e.(wide := false), e);
  }

  /** The skipper stops where the reader does. */
  predicate StopsAlike<T>(scan: Parse<set<nat>>, p: Parse<T>)
    requires p.Got?
  {
    scan.Got? && scan.rest == p.rest
  }

  /** It does not mirror it beyond: the entries of a map or of a record's extra map, if
      2^63 + n are claimed, are read as none, because the int count is negative, but
      skipped as 2n values.  On every byte stream where they read, the skip stops where
      the read does exactly when n is 0. */
  lemma WidePairs(s: Bytes, e: Env)
    requires e.wide && GetMapItems(s, e).Got? && GetVarint(s).val >= TWO63
    ensures GetMapItems(s, e) == Got([], GetVarint(s).rest)
    ensures StopsAlike(ScanPairs(s), GetMapItems(s, e)) <==> GetVarint(s).val == TWO63
  {
    hide GetVarint, PutVarint;
    var count := GetVarint(s);
    assert GetValues(count.rest, 0, e) == Got([], count.rest);
    assert ScanPairs(s) == ScanValues(count.rest, count.val * 2 % TWO64);
    if count.val == TWO63 {
      assert ScanValues(count.rest, 0) == Got({}, count.rest);
    }
  }

  /** So it is for a whole map. */
  lemma WideMap(s: Bytes, e: Env)
    requires e.wide && s != [] && s[0] == 0x23 && GetValue(s, e).Got?
    requires GetVarint(s[1..]).Got? && GetVarint(s[1..]).val >= TWO63
    ensures StopsAlike(Scan(s), GetValue(s, e)) <==> GetVarint(s[1..]).val == TWO63
  {
    hide GetVarint, PutVarint, GetMapItems, ScanPairs;
    assert GetTagged(0x23, 0, s[1..], e) == GetValue(s, e) && ScanTagged(0x23, 0, s[1..]) == Scan(s);
    WidePairs(s[1..], e);
  }

  /** An input where they part: a map of 2^63 + 1 entries is read as empty, and two of the
      bytes behind it are skipped as values. */
  lemma WideMapInput(e: Env)
    requires e.wide
    ensures var s := [0x23] + PutVarint(TWO63 + 1, [0, 0]);
      GetValue(s, e) == Got(Map([]), [0, 0]) && Scan(s) == Got({}, [])
  {
    hide GetVarint, PutVarint;
    var k: Bytes := [0, 0];
    var t := PutVarint(TWO63 + 1, k);
    VarintRoundTrip(TWO63 + 1, k);
    assert ([0x23] + t)[1..] == t;
    assert GetMapItems(t, e) == Got([], k);
    assert GetTagged(0x23, 0, t, e) == Got(Map([]), k);
    TwoNilsSkipped();
    assert ScanPairs(t) == ScanValues(k, 2);
    assert ScanTagged(0x23, 0, t) == Got({}, []);
  }

  lemma TwoNilsSkipped()
    ensures ScanValues([0, 0], 2) == Got({}, [])
  {
    var k: Bytes := [0, 0];
    assert k[1..] == [0];
    NilSkipped(k, 1);
    NilSkipped([0], 0);
  }

  lemma NilSkipped(s: Bytes, n: nat)
    requires s != [] && s[0] == 0
    ensures ScanValues(s, n + 1) == ScanValues(s[1..], n)
  {
    assert Scan(s) == Got({}, s[1..]);
    match ScanValues(s[1..], n)
    case Fail(_) =>
    case Got(r, _) => assert {} + r == r;
  }

  /** And for a record of either tag version whose fixed fields hold no such map; t is its
      type and vals are its fixed fields. */
  lemma WideExtra(ver: Byte, s: Bytes, e: Env, t: Parse<TypeHead>, vals: Parse<seq<Value>>)
    requires e.wide && ver <= 1 && GetRecord(ver, s, e).Got? && t == GetType(s, ver, e.strings)
    requires vals == GetValues(t.rest, |t.val.fields|, e.(wide := false)) && vals.Got?
    requires GetVarint(vals.rest).Got? && GetVarint(vals.rest).val >= TWO63
    ensures StopsAlike(ScanTagged(0x31, ver, s), GetRecord(ver, s, e)) <==> GetVarint(vals.rest).val == TWO63
  {
    hide GetVarint, PutVarint, GetType, ScanType, GetValues, ScanValues, GetMapItems, ScanPairs, MakeRecord;
    TypeScan(s, ver, e.strings);
    ValuesScan(t.rest, |t.val.fields|, e.(wide := false), e);
    WidePairs(vals.rest, e);
  }

  // ------------------------------------------------------------- round trips

  /** The string table holds what the index says. */
  ghost predicate TableMatches(w: WriteIndex, strings: seq<Str>) {
    |strings| < TWO63 && forall s :: s in w.strs ==> w.strs[s] < |strings| && strings[w.strs[s]] == s
  }

  lemma StrRoundTrip(x: Str, w: WriteIndex, strings: seq<Str>, k: Bytes)
    requires x in w.strs && TableMatches(w, strings)
    ensures GetStr(PutStr(x, w, k), strings) == Got(x, k)
  {
    hide GetVarint, PutVarint;
    VarintRoundTrip(w.strs[x], k);
  }

  lemma {:induction false} StrsRoundTrip(xs: seq<Str>, w: WriteIndex, strings: seq<Str>, k: Bytes)
    requires (forall x :: x in xs ==> x in w.strs) && TableMatches(w, strings)
    ensures GetStrs(PutStrs(xs, w, k), |xs|, strings) == Got(xs, k)
  {
    hide GetVarint, PutVarint;
    if xs == [] {
    } else {
      StrRoundTrip(xs[0], w, strings, PutStrs(xs[1..], w, k));
      StrsRoundTrip(xs[1..], w, strings, k);
      assert [xs[0]] + xs[1..] == xs;
    }
  }

  /** The header after its tag byte, whose version bit says whether a namespace leads. */
  lemma TypeRoundTrip(id: Byte, ns: Str, name: Str, fields: seq<Str>, w: WriteIndex, strings: seq<Str>, k: Bytes)
    requires id < 0x40 && TypeStrings(ns, name, fields) <= w.strs.Keys && |fields| < TWO63
    requires TableMatches(w, strings)
    ensures var s := PutType(id, ns, name, fields, w, k);
      && s[0] % 64 == id && s[0] / 64 == (if ns == [] then 0 else 1)
      && GetType(s[1..], s[0] / 64, strings) == Got(TypeHead(ns, name, fields), k)
  {
    hide GetVarint, PutVarint;
    var tail := PutStrs(fields, w, k);
    var body := PutStr(name, w, PutVarint(|fields|, tail));
    StrRoundTrip(name, w, strings, PutVarint(|fields|, tail));
    VarintRoundTrip(|fields|, tail);
    StrsRoundTrip(fields, w, strings, k);
    if ns != [] {
      StrRoundTrip(ns, w, strings, body);
    }
  }

  /** The value a decode of the encoding of v gives: chunks are renamed to their
      indices, and a record's nil fields are left unset. */
  function Norm(v: Value, w: WriteIndex): Value
    decreases v, 0
  {
    match v
    case Func(c, arity, variadic, name) => Func(w.ChunkRef(c), arity, variadic, name)
    case Coll(coll, items) => Coll(coll, NormAll(items, w))
    case Map(items) => Map(NormAll(items, w))
    case DefMeta(items) => DefMeta(NormAll(items, w))
    case Record(ns, name, fields, fixed, extra) =>
      Record(ns, name, fields, NilUnset(NormAll(fixed, w)), NormAll(extra, w))
    case DType(ns, name, fields, fixed) => DType(ns, name, fields, NormAll(fixed, w))
    case Atom(inner) => Atom(Norm(inner, w))
    case _ => v
  }

  function NormAll(vs: seq<Value>, w: WriteIndex): (r: seq<Value>)
    ensures |r| == |vs|
    decreases vs, 1
  {
    if vs == [] then [] else [Norm(vs[0], w)] + NormAll(vs[1..], w)
  }

  function NilUnset(vs: seq<Value>): (r: seq<Value>)
    ensures |r| == |vs|
    ensures forall i :: 0 <= i < |r| ==> r[i] == if vs[i].Nil? then Absent else vs[i]
  {
    seq(|vs|, i requires 0 <= i < |vs| => if vs[i].Nil? then Absent else vs[i])
  }

  lemma {:induction false} NormAllAt(vs: seq<Value>, w: WriteIndex, i: nat)
    requires i < |vs|
    ensures NormAll(vs, w)[i] == Norm(vs[i], w)
  {
    hide GetVarint, PutVarint;
    if i == 0 {
    } else {
      NormAllAt(vs[1..], w, i - 1);
    }
  }

  ghost predicate FieldKey(key: Value, fields: seq<Str>) {
    key.Text? && key.kind == Keyword && key.text in fields
  }

  ghost predicate NoFieldKeys(kvs: seq<Value>, fields: seq<Str>)
    decreases |kvs|
  {
    |kvs| < 2 || (!FieldKey(kvs[0], fields) && NoFieldKeys(kvs[2..], fields))
  }

  /** What vm promises of a constant: uuid, instant and regex text parses, and a
      record keeps the values of its distinct fields out of its extra map. */
  ghost predicate Canonical(v: Value, valid: (TextKind, Str) -> bool)
    decreases v, 0
  {
    match v
    case Text(kind, text) => kind in {Uuid, Instant, Regex} ==> valid(kind, text)
    case Coll(_, items) => CanonicalAll(items, valid)
    case Map(items) => CanonicalAll(items, valid)
    case DefMeta(items) => CanonicalAll(items, valid)
    case Record(_, _, fields, fixed, extra) =>
      Distinct(fields) && NoFieldKeys(extra, fields) && CanonicalAll(fixed, valid) && CanonicalAll(extra, valid)
    case DType(_, _, _, fixed) => CanonicalAll(fixed, valid)
    case Atom(inner) => Canonical(inner, valid)
    case _ => true
  }

  ghost predicate CanonicalAll(vs: seq<Value>, valid: (TextKind, Str) -> bool)
    decreases vs, 1
  {
    vs == [] || (Canonical(vs[0], valid) && CanonicalAll(vs[1..], valid))
  }

  /** Every chunk v refers to has an index, and is decoded. */
  ghost predicate RefsLive(refs: set<nat>, w: WriteIndex, e: Env) {
    |e.live| < TWO63 && forall c :: c in refs ==> c in w.chunks && w.chunks[c] < |e.live| && e.live[w.chunks[c]]
  }

  /** Integers of any size keep their sign and magnitude. */
  lemma BigIntRoundTrip(n: int, k: Bytes)
    requires |Magnitude(if n < 0 then -n else n)| < TWO63
    ensures GetBigInt(PutBigInt(n, k)) == Got(BigInt(n), k)
  {
    hide GetVarint, PutVarint;
    var m := Magnitude(if n < 0 then -n else n);
    MagnitudeRoundTrip(if n < 0 then -n else n);
    VarintRoundTrip(|m|, m + k);
    assert (m + k)[..|m|] == m && (m + k)[|m|..] == k;
  }

  lemma FuncRoundTrip(c: nat, arity: I64, variadic: bool, name: Str, w: WriteIndex, e: Env, k: Bytes)
    requires name in w.strs && TableMatches(w, e.strings) && RefsLive({c}, w, e)
    ensures GetFunc(PutFunc(c, arity, variadic, name, w, k), e) == Got(Func(w.ChunkRef(c), arity, variadic, name), k)
  {
    hide GetVarint, PutVarint;
    assert c in {c};
    var s3 := PutStr(name, w, k);
    var s2 := [if variadic then 1 else 0] + s3;
    StrRoundTrip(name, w, e.strings, k);
    IntRoundTrip(arity, s2);
    VarintRoundTrip(w.ChunkRef(c), PutInt(arity, s2));
    assert GetByte(s2) == Got(if variadic then 1 else 0, s3);
  }

  lemma TextRoundTrip(kind: TextKind, text: Str, w: WriteIndex, e: Env, k: Bytes)
    requires text in w.strs && TableMatches(w, e.strings) && Canonical(Text(kind, text), e.valid)
    ensures GetText(TextTag(kind), PutStr(text, w, k), e) == Got(Text(kind, text), k)
  {
    hide GetVarint, PutVarint;
    StrRoundTrip(text, w, e.strings, k);
  }

  /** A record is its tag byte, then its payload. */
  lemma TagFirst(t: Byte, body: Bytes, e: Env)
    ensures GetValue([t] + body, e) == GetTagged(t % 64, t / 64, body, e)
  {
    hide GetVarint, PutVarint;
    assert ([t] + body)[1..] == body;
  }

  lemma ScalarRoundTrip(v: Value, w: WriteIndex, e: Env, k: Bytes)
    requires v.Nil? || v.True? || v.False? || v.Void? || v.EmptyList? || v.Int? || v.Float? || v.Char?
    requires Writable(v, w)
    ensures GetValue(PutLeaf(v, w, k), e) == Got(v, k)
  {
    hide GetVarint, PutVarint;
    match v
    case Nil => TagFirst(0x00, k, e);
    case True => TagFirst(0x01, k, e);
    case False => TagFirst(0x02, k, e);
    case Void => TagFirst(0x0A, k, e);
    case EmptyList => TagFirst(0x20, k, e);
    case Int(i) => SvarintRoundTrip(i, k); TagFirst(0x03, PutSvarint(i, k), e);
    case Float(bits) => U64RoundTrip(bits, k); TagFirst(0x04, PutLE(bits, 8, k), e);
    case Char(c) => I32RoundTrip(c, k); TagFirst(0x08, PutI32(c, k), e);
  }

  lemma FuncValueRoundTrip(c: nat, arity: I64, variadic: bool, name: Str, w: WriteIndex, e: Env, k: Bytes)
    requires name in w.strs && TableMatches(w, e.strings) && RefsLive({c}, w, e)
    ensures GetValue([0x10] + PutFunc(c, arity, variadic, name, w, k), e)
         == Got(Func(w.ChunkRef(c), arity, variadic, name), k)
  {
    hide GetVarint, PutVarint;
    FuncRoundTrip(c, arity, variadic, name, w, e, k);
    TagFirst(0x10, PutFunc(c, arity, variadic, name, w, k), e);
  }

  lemma TextValueRoundTrip(kind: TextKind, text: Str, w: WriteIndex, e: Env, k: Bytes)
    requires text in w.strs && TableMatches(w, e.strings) && Canonical(Text(kind, text), e.valid)
    ensures GetValue([TextTag(kind)] + PutStr(text, w, k), e) == Got(Text(kind, text), k)
  {
    hide GetVarint, PutVarint;
    TextRoundTrip(kind, text, w, e, k);
    TagFirst(TextTag(kind), PutStr(text, w, k), e);
  }

  lemma VarRefRoundTrip(ns: Str, name: Str, w: WriteIndex, e: Env, k: Bytes)
    requires ns in w.strs && name in w.strs && TableMatches(w, e.strings)
    ensures GetValue([0x11] + PutStr(ns, w, PutStr(name, w, k)), e) == Got(VarRef(ns, name), k)
  {
    hide GetVarint, PutVarint;
    var tail := PutStr(name, w, k);
    StrRoundTrip(ns, w, e.strings, tail);
    StrRoundTrip(name, w, e.strings, k);
    TagFirst(0x11, PutStr(ns, w, tail), e);
  }

  lemma RecordTypeRoundTrip(ns: Str, name: Str, fields: seq<Str>, w: WriteIndex, e: Env, k: Bytes)
    requires TypeStrings(ns, name, fields) <= w.strs.Keys && |fields| < TWO63 && TableMatches(w, e.strings)
    ensures GetValue(PutType(0x30, ns, name, fields, w, k), e) == Got(RecordType(ns, name, fields), k)
  {
    hide GetVarint, PutVarint;
    TypeRoundTrip(0x30, ns, name, fields, w, e.strings, k);
  }

  lemma LeafRoundTrip(v: Value, w: WriteIndex, e: Env, k: Bytes)
    requires Leaf(v) && Writable(v, w) && Canonical(v, e.valid)
    requires TableMatches(w, e.strings) && RefsLive(FuncRefs(v), w, e)
    ensures GetValue(PutLeaf(v, w, k), e) == Got(Norm(v, w), k)
  {
    hide GetVarint, PutVarint;
    if v.BigInt? {
      BigIntRoundTrip(v.n, k);
      TagFirst(0x09, PutBigInt(v.n, k), e);
    } else if v.Text? {
      TextValueRoundTrip(v.kind, v.text, w, e, k);
    } else if v.Func? {
      FuncValueRoundTrip(v.chunk, v.arity, v.variadic, v.name, w, e, k);
    } else if v.VarRef? {
      VarRefRoundTrip(v.ns, v.name, w, e, k);
    } else if v.RecordType? {
      RecordTypeRoundTrip(v.ns, v.name, v.fields, w, e, k);
    } else {
      ScalarRoundTrip(v, w, e, k);
    }
  }

  // ------------------------------------------------------- records read back

  lemma {:induction false} LastSetDistinct(fields: seq<Str>, vals: seq<Value>, i: nat, n: nat)
    requires n <= |fields| == |vals| && i < |fields| && Distinct(fields)
    ensures LastSet(fields, vals, fields[i], n) == if i < n then vals[i] else Nil
    decreases n
  {
    hide GetVarint, PutVarint;
    if n == 0 {
    } else {
      LastSetDistinct(fields, vals, i, n - 1);
    }
  }

  lemma {:induction false} NoFieldKeysPrefix(kvs: seq<Value>, fields: seq<Str>)
    requires |kvs| >= 2 && |kvs| % 2 == 0 && NoFieldKeys(kvs, fields)
    ensures NoFieldKeys(kvs[..|kvs| - 2], fields) && !FieldKey(kvs[|kvs| - 2], fields)
    decreases |kvs|
  {
    hide GetVarint, PutVarint;
    if |kvs| > 2 {
      NoFieldKeysPrefix(kvs[2..], fields);
      assert kvs[2..][..|kvs| - 4] == kvs[..|kvs| - 2][2..];
    }
  }

  lemma {:induction false} LookUpMisses(kvs: seq<Value>, fields: seq<Str>, f: Str)
    requires |kvs| % 2 == 0 && NoFieldKeys(kvs, fields) && f in fields
    ensures LookUp(kvs, f) == Nil
    decreases |kvs|
  {
    hide GetVarint, PutVarint;
    if |kvs| >= 2 {
      NoFieldKeysPrefix(kvs, fields);
      LookUpMisses(kvs[..|kvs| - 2], fields, f);
    }
  }

  lemma {:induction false} DropFieldsKeeps(kvs: seq<Value>, fields: seq<Str>)
    requires |kvs| % 2 == 0 && NoFieldKeys(kvs, fields)
    ensures DropFields(kvs, fields) == kvs
    decreases |kvs|
  {
    hide GetVarint, PutVarint;
    if |kvs| >= 2 {
      DropFieldsKeeps(kvs[2..], fields);
      assert kvs[..2] + kvs[2..] == kvs;
    }
  }

  lemma {:induction false} NormKeys(kvs: seq<Value>, w: WriteIndex, fields: seq<Str>)
    requires NoFieldKeys(kvs, fields)
    ensures NoFieldKeys(NormAll(kvs, w), fields)
    decreases |kvs|
  {
    hide GetVarint, PutVarint;
    if |kvs| >= 2 {
      NormKeys(kvs[2..], w, fields);
      assert kvs[1..][1..] == kvs[2..];
      assert NormAll(kvs, w)[2..] == NormAll(kvs[2..], w);
      NormAllAt(kvs, w, 0);
    }
  }

  /** Distinct fields, and an extra map that holds none of them: each field comes
      back as it was, nil as unset, and the extra map as it was. */
  lemma MakeRecordKeeps(t: TypeHead, vals: seq<Value>, extra: seq<Value>)
    requires |t.fields| == |vals| && Distinct(t.fields)
    requires |extra| % 2 == 0 && NoFieldKeys(extra, t.fields)
    ensures MakeRecord(t, vals, extra) == Record(t.ns, t.name, t.fields, NilUnset(vals), extra)
  {
    hide GetVarint, PutVarint;
    DropFieldsKeeps(extra, t.fields);
    var fixed := MakeRecord(t, vals, extra).fixed;
    forall i | 0 <= i < |vals|
      ensures fixed[i] == NilUnset(vals)[i]
    {
      LastSetDistinct(t.fields, vals, i, |vals|);
      LookUpMisses(extra, t.fields, t.fields[i]);
    }
    assert fixed == NilUnset(vals);
  }

  // ---------------------------------------------------------- the round trip

  /** Everything a value needs of the encoder and the decoder to come back. */
  ghost predicate Carried(vs: seq<Value>, w: WriteIndex, e: Env) {
    && CanonicalAll(vs, e.valid) && TableMatches(w, e.strings) && RefsLive(FuncRefsAll(vs), w, e)
  }

  /** readValueV2 reads what writeValue wrote, and stops exactly after it. */
  lemma {:induction false} ValueRoundTrip(v: Value, w: WriteIndex, e: Env, k: Bytes)
    requires Writable(v, w) && Canonical(v, e.valid)
    requires TableMatches(w, e.strings) && RefsLive(FuncRefs(v), w, e)
    ensures GetValue(PutValue(v, w, k), e) == Got(Norm(v, w), k)
    decreases v, 3
  {
    hide GetVarint, PutVarint, GetLeaf, PutLeaf, GetMapItems, GetRecord, GetDType, GetValues, PutValues, NormAll,
         PutFields;
    if Leaf(v) {
      LeafRoundTrip(v, w, e, k);
    } else if v.Coll? {
      CollRoundTrip(v.coll, v.items, w, e, k);
    } else if v.Map? || v.DefMeta? {
      PairsRoundTrip(v.items, w, e, k);
      TagFirst(if v.Map? then 0x23 else 0x63, PutVarint(|v.items| / 2, PutValues(v.items, w, k)), e);
    } else if v.Record? {
      RecordRoundTrip(v, TypeHead(v.ns, v.name, v.fields), v.fixed, v.extra, w, e, k);
    } else if v.DType? {
      DTypeRoundTrip(v.ns, v.name, v.fields, v.fixed, w, e, k);
    } else {
      ValueRoundTrip(v.inner, w, e, k);
      TagFirst(0x33, PutValue(v.inner, w, k), e);
    }
  }

  lemma {:induction false} CollRoundTrip(coll: CollKind, items: seq<Value>, w: WriteIndex, e: Env, k: Bytes)
    requires Writable(Coll(coll, items), w) && Carried(items, w, e)
    ensures GetValue(PutValue(Coll(coll, items), w, k), e) == Got(Coll(coll, NormAll(items, w)), k)
    decreases items, 2
  {
    hide GetVarint, PutVarint, GetValues, PutValues;
    var tail := PutValues(items, w, k);
    ValuesRoundTrip(items, w, e, k);
    VarintRoundTrip(|items|, tail);
    TagFirst(CollTag(coll), PutVarint(|items|, tail), e);
  }

  lemma {:induction false} PairsRoundTrip(items: seq<Value>, w: WriteIndex, e: Env, k: Bytes)
    requires WritableAll(items, w) && |items| < TWO63 && |items| % 2 == 0 && Carried(items, w, e)
    ensures var s := PutVarint(|items| / 2, PutValues(items, w, k));
      && GetMapItems(s, e) == Got(NormAll(items, w), k)
      && GetDefMeta(s, e) == Got(DefMeta(NormAll(items, w)), k)
    decreases items, 2
  {
    hide GetVarint, PutVarint, GetValues, PutValues, NormAll;
    ValuesRoundTrip(items, w, e, k);
    VarintRoundTrip(|items| / 2, PutValues(items, w, k));
  }

  lemma {:induction false} RecordRoundTrip(v: Value, t: TypeHead, fixed: seq<Value>, extra: seq<Value>,
                                           w: WriteIndex, e: Env, k: Bytes)
    requires v.Record? && v.fixed == fixed && v.extra == extra
    requires TypeStrings(t.ns, t.name, t.fields) <= w.strs.Keys && |t.fields| == |fixed| < TWO63
    requires ShapedAll(fixed) && SerializableFields(fixed) && StringRefsAll(fixed) <= w.strs.Keys
    requires Distinct(t.fields) && NoFieldKeys(extra, t.fields)
    requires WritableAll(extra, w) && |extra| < TWO63 && |extra| % 2 == 0
    requires Carried(fixed, w, e) && Carried(extra, w, e)
    ensures var s3 := PutVarint(|extra| / 2, PutValues(extra, w, k));
      GetValue(PutType(0x31, t.ns, t.name, t.fields, w, PutFields(fixed, w, s3)), e)
        == Got(Record(t.ns, t.name, t.fields, NilUnset(NormAll(fixed, w)), NormAll(extra, w)), k)
    decreases v, 2
  {
    hide GetVarint, PutVarint;
    var s3 := PutVarint(|extra| / 2, PutValues(extra, w, k));
    var s2 := PutFields(fixed, w, s3);
    PairsRoundTrip(extra, w, e, k);
    FieldsRoundTrip(fixed, w, e, s3);
    TypeRoundTrip(0x31, t.ns, t.name, t.fields, w, e.strings, s2);
    NormKeys(extra, w, t.fields);
    MakeRecordKeeps(t, FieldVals(fixed, w), NormAll(extra, w));
    FieldValsNorm(fixed, w);
    var s := PutType(0x31, t.ns, t.name, t.fields, w, s2);
    RecordParts(s, e, t, s2, FieldVals(fixed, w), s3);
  }

  lemma RecordParts(s: Bytes, e: Env, t: TypeHead, s2: Bytes, vals: seq<Value>, s3: Bytes)
    requires s != [] && s[0] % 64 == 0x31 && s[0] / 64 <= 1
    requires GetType(s[1..], s[0] / 64, e.strings) == Got(t, s2)
    requires GetValues(s2, |t.fields|, e) == Got(vals, s3)
    ensures GetValue(s, e) == match GetMapItems(s3, e) {
        case Got(extra, k) => Got(MakeRecord(t, vals, extra), k)
        case Fail(error) => Fail(error)
      }
  {
    hide GetVarint, PutVarint;
    assert GetValue(s, e) == GetRecord(s[0] / 64, s[1..], e);
  }

  lemma {:induction false} DTypeRoundTrip(ns: Str, name: Str, fields: seq<Str>, fixed: seq<Value>, w: WriteIndex,
                                          e: Env, k: Bytes)
    requires {ns, name} + (set f | f in fields) <= w.strs.Keys && |fields| == |fixed| < TWO63
    requires WritableAll(fixed, w) && Carried(fixed, w, e)
    ensures GetValue([0x34] + PutDTypeHead(ns, name, fields, w, PutValues(fixed, w, k)), e)
         == Got(DType(ns, name, fields, NormAll(fixed, w)), k)
    decreases fixed, 2
  {
    hide GetVarint, PutVarint, GetValues, PutValues, PutDTypeHead, GetDType, NormAll;
    var s4 := PutValues(fixed, w, k);
    ValuesRoundTrip(fixed, w, e, k);
    var s := PutDTypeHead(ns, name, fields, w, s4);
    DTypeHeadRoundTrip(ns, name, fields, w, e, s4);
    DTypeParts(s, e, ns, TypeHead([], name, fields), s4);
    TagFirst(0x34, s, e);
  }

  lemma DTypeParts(s: Bytes, e: Env, ns: Str, t: TypeHead, rest: Bytes)
    requires GetStr(s, e.strings).Got? && GetStr(s, e.strings).val == ns
    requires GetType(GetStr(s, e.strings).rest, 0, e.strings) == Got(t, rest)
    ensures GetDType(s, e) == match GetValues(rest, |t.fields|, e) {
        case Got(vals, k) => Got(DType(ns, t.name, t.fields, vals), k)
        case Fail(error) => Fail(error)
      }
  {
  }

  lemma DTypeHeadRoundTrip(ns: Str, name: Str, fields: seq<Str>, w: WriteIndex, e: Env, k: Bytes)
    requires {ns, name} + (set f | f in fields) <= w.strs.Keys && |fields| < TWO63 && TableMatches(w, e.strings)
    ensures var p := GetStr(PutDTypeHead(ns, name, fields, w, k), e.strings);
      p.Got? && p.val == ns && GetType(p.rest, 0, e.strings) == Got(TypeHead([], name, fields), k)
  {
    hide GetVarint, PutVarint;
    var s3 := PutStrs(fields, w, k);
    var s2 := PutVarint(|fields|, s3);
    StrsRoundTrip(fields, w, e.strings, k);
    VarintRoundTrip(|fields|, s3);
    StrRoundTrip(name, w, e.strings, s2);
    StrRoundTrip(ns, w, e.strings, PutStr(name, w, s2));
  }

  lemma {:induction false} ValuesRoundTrip(vs: seq<Value>, w: WriteIndex, e: Env, k: Bytes)
    requires WritableAll(vs, w) && Carried(vs, w, e)
    ensures GetValues(PutValues(vs, w, k), |vs|, e) == Got(NormAll(vs, w), k)
    decreases vs, 1
  {
    hide GetVarint, PutVarint, GetTagged, GetValue;
    if vs == [] {
    } else {
      ValueRoundTrip(vs[0], w, e, PutValues(vs[1..], w, k));
      ValuesRoundTrip(vs[1..], w, e, k);
    }
  }

  /** The field values on the wire. */
  function FieldVals(fixed: seq<Value>, w: WriteIndex): (r: seq<Value>)
    ensures |r| == |fixed|
  {
    if fixed == [] then []
    else [if fixed[0].Absent? then Nil else Norm(fixed[0], w)] + FieldVals(fixed[1..], w)
  }

  lemma {:induction false} FieldValsNorm(fixed: seq<Value>, w: WriteIndex)
    ensures NilUnset(FieldVals(fixed, w)) == NilUnset(NormAll(fixed, w))
  {
    hide GetVarint, PutVarint;
    if fixed == [] {
    } else {
      FieldValsNorm(fixed[1..], w);
      assert NilUnset(FieldVals(fixed, w))[1..] == NilUnset(FieldVals(fixed[1..], w));
      assert NilUnset(NormAll(fixed, w))[1..] == NilUnset(NormAll(fixed[1..], w));
      assert NilUnset(FieldVals(fixed, w))[0] == NilUnset(NormAll(fixed, w))[0];
    }
  }

  lemma {:induction false} FieldsRoundTrip(fixed: seq<Value>, w: WriteIndex, e: Env, k: Bytes)
    requires ShapedAll(fixed) && SerializableFields(fixed) && StringRefsAll(fixed) <= w.strs.Keys
    requires Carried(fixed, w, e)
    ensures GetValues(PutFields(fixed, w, k), |fixed|, e) == Got(FieldVals(fixed, w), k)
    decreases fixed, 1
  {
    hide GetVarint, PutVarint;
    if fixed == [] {
    } else {
      var rest := PutFields(fixed[1..], w, k);
      if fixed[0].Absent? {
        TagFirst(0x00, rest, e);
      } else {
        ValueRoundTrip(fixed[0], w, e, rest);
      }
      FieldsRoundTrip(fixed[1..], w, e, k);
    }
  }
}
