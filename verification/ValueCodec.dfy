/** readValueV2, skipValueV2 and writeValue as they run, over a byte reader or
    writer, proved to do what GetValue, Scan and PutValue say. */
module ValueCodec {
  import opened Wire
  import opened Stream
  import opened Values

  // ------------------------------------------------------------------ reading

  /** p is q with the elements already read in front. */
  ghost predicate Resumes<T>(p: Parse<seq<T>>, done: seq<T>, q: Parse<seq<T>>) {
    match q
    case Got(more, rest) => p == Got(done + more, rest)
    case Fail(e) => p == Fail(e)
  }

  method ReadStr(r: Reader, strings: seq<Str>) returns (o: Outcome<Str>)
    requires r.Valid()
    modifies r
    ensures r.Valid() && old(r.pos) <= r.pos
    ensures Reads(o, GetStr(old(r.Rest()), strings), r.Rest())
  {
    var i :- r.ReadVarint();
    if i >= TWO63 {
      return Err(Panic);
    }
    if i >= |strings| {
      return Err(BadStringRef);
    }
    o := Ok(strings[i]);
  }

  method ReadStrs(r: Reader, n: nat, strings: seq<Str>) returns (o: Outcome<seq<Str>>)
    requires r.Valid()
    modifies r
    ensures r.Valid() && old(r.pos) <= r.pos
    ensures Reads(o, GetStrs(old(r.Rest()), n, strings), r.Rest())
  {
    var xs: seq<Str> := [];
    var i := 0;
    ghost var p := GetStrs(r.Rest(), n, strings);
    assert p.Got? ==> xs + p.val == p.val;
    while i < n
      invariant 0 <= i <= n && r.Valid() && old(r.pos) <= r.pos
      invariant Resumes(p, xs, GetStrs(r.Rest(), n - i, strings))
    {
      ghost var q := GetStrs(r.Rest(), n - i, strings);
      var x :- ReadStr(r, strings);
      assert q.Got? ==> xs + q.val == (xs + [x]) + q.val[1..];
      xs := xs + [x];
      i := i + 1;
    }
    assert xs + [] == xs;
    o := Ok(xs);
  }

  method ReadType(r: Reader, ver: Byte, strings: seq<Str>) returns (o: Outcome<TypeHead>)
    requires r.Valid()
    modifies r
    ensures r.Valid() && old(r.pos) <= r.pos
    ensures Reads(o, GetType(old(r.Rest()), ver, strings), r.Rest())
  {
    var ns := [];
    if ver == 1 {
      ns :- ReadStr(r, strings);
    }
    var name :- ReadStr(r, strings);
    var n :- r.ReadVarint();
    if n >= TWO63 {
      return Err(Panic);
    }
    var fields :- ReadStrs(r, n, strings);
    o := Ok(TypeHead(ns, name, fields));
  }

  /** readFuncRest, with the chunk index before it. */
  method ReadFunc(r: Reader, e: Env) returns (o: Outcome<Value>)
    requires r.Valid()
    modifies r
    ensures r.Valid() && old(r.pos) <= r.pos
    ensures Reads(o, GetFunc(old(r.Rest()), e), r.Rest())
  {
    var c :- r.ReadVarint();
    if |e.live| <= c < TWO63 {
      return Err(BadChunkRef);
    }
    var arity :- r.ReadInt();
    var variadic :- r.ReadByte();
    var name :- ReadStr(r, e.strings);
    if c >= |e.live| {
      return Err(Panic);
    }
    if !e.live[c] {
      return Err(DeferredOutside);
    }
    o := Ok(Func(c, arity, variadic != 0, name));
  }

  method ReadBigInt(r: Reader) returns (o: Outcome<Value>)
    requires r.Valid()
    modifies r
    ensures r.Valid() && old(r.pos) <= r.pos
    ensures Reads(o, GetBigInt(old(r.Rest())), r.Rest())
  {
    var sign :- r.ReadByte();
    var len :- r.ReadVarint();
    var mag :- r.ReadBytes(len);
    var n: int := FromMagnitude(mag);
    o := Ok(BigInt(if sign != 0 then -n else n));
  }

  method ReadText(r: Reader, id: Byte, e: Env) returns (o: Outcome<Value>)
    requires r.Valid()
    modifies r
    ensures r.Valid() && old(r.pos) <= r.pos
    ensures Reads(o, GetText(id, old(r.Rest()), e), r.Rest())
  {
    var text :- ReadStr(r, e.strings);
    if id >= 0x08 && !e.valid(TextOf(id), text) {
      return Err(BadText);
    }
    o := Ok(Text(TextOf(id), text));
  }

  method ReadLeaf(r: Reader, id: Byte, ver: Byte, e: Env) returns (o: Outcome<Value>)
    requires r.Valid() && LeafTag(id)
    modifies r
    ensures r.Valid() && old(r.pos) <= r.pos
    ensures Reads(o, GetLeaf(id, ver, old(r.Rest()), e), r.Rest())
  {
    if id == 0x00 {
      o := Ok(Nil);
    } else if id == 0x01 {
      o := Ok(True);
    } else if id == 0x02 {
      o := Ok(False);
    } else if id == 0x0A {
      o := Ok(Void);
    } else if id == 0x20 {
      o := Ok(EmptyList);
    } else if id == 0x03 {
      var i :- r.ReadSvarint();
      o := Ok(Int(i));
    } else if id == 0x04 {
      var bits :- r.ReadU64();
      o := Ok(Float(bits));
    } else if id == 0x08 {
      var c :- r.ReadI32();
      o := Ok(Char(c));
    } else if id == 0x09 {
      o := ReadBigInt(r);
    } else if IsTextTag(id) {
      o := ReadText(r, id, e);
    } else if id == 0x10 {
      o := ReadFunc(r, e);
    } else if id == 0x11 {
      var ns :- ReadStr(r, e.strings);
      var name :- ReadStr(r, e.strings);
      o := Ok(VarRef(ns, name));
    } else if id == 0x30 {
      var t :- ReadType(r, ver, e.strings);
      o := Ok(RecordType(t.ns, t.name, t.fields));
    } else {
      o := Err(BadTag);
    }
  }

  method ReadValue(r: Reader, e: Env) returns (o: Outcome<Value>)
    requires r.Valid()
    modifies r
    ensures r.Valid() && old(r.pos) <= r.pos
    ensures Reads(o, GetValue(old(r.Rest()), e), r.Rest())
    decreases |r.data| - r.pos, 0
  {
    var tag :- r.ReadByte();
    o := ReadTagged(r, tag % 64, tag / 64, e);
  }

  method ReadTagged(r: Reader, id: Byte, ver: Byte, e: Env) returns (o: Outcome<Value>)
    requires r.Valid()
    modifies r
    ensures r.Valid() && old(r.pos) <= r.pos
    ensures Reads(o, GetTagged(id, ver, old(r.Rest()), e), r.Rest())
    decreases |r.data| - r.pos, 4
  {
    if KnownTag(id) && !VersionSupported(id, ver) {
      return Err(BadTagVersion);
    }
    if !KnownTag(id) {
      return Err(BadTag);
    }
    if LeafTag(id) {
      o := ReadLeaf(r, id, ver, e);
    } else if id == 0x33 {
      var v :- ReadValue(r, e);
      o := Ok(Atom(v));
    } else if id == 0x31 {
      o := ReadRecord(r, ver, e);
    } else if id == 0x34 {
      o := ReadDType(r, e);
    } else if id == 0x23 && ver == 1 {
      o := ReadDefMeta(r, e);
    } else if id == 0x23 {
      var items :- ReadMapItems(r, e);
      o := Ok(Map(items));
    } else {
      var n :- r.ReadVarint();
      if n >= TWO63 {
        return Err(Panic);
      }
      var items :- ReadValues(r, n, e);
      o := Ok(MakeColl(id, items));
    }
  }

  method ReadDefMeta(r: Reader, e: Env) returns (o: Outcome<Value>)
    requires r.Valid()
    modifies r
    ensures r.Valid() && old(r.pos) <= r.pos
    ensures Reads(o, GetDefMeta(old(r.Rest()), e), r.Rest())
    decreases |r.data| - r.pos, 3
  {
    var count :- r.ReadVarint();
    var n := ToI64(count * 2 % TWO64);
    if n < 0 {
      return Err(Panic);
    }
    var items :- ReadValues(r, n, e);
    o := Ok(DefMeta(items));
  }

  method ReadMapItems(r: Reader, e: Env) returns (o: Outcome<seq<Value>>)
    requires r.Valid()
    modifies r
    ensures r.Valid() && old(r.pos) <= r.pos
    ensures Reads(o, GetMapItems(old(r.Rest()), e), r.Rest())
    decreases |r.data| - r.pos, 3
  {
    var count :- r.ReadVarint();
    if count * 2 % TWO64 >= TWO63 || (!e.wide && count > TWO63) {
      return Err(Panic);
    }
    o := ReadValues(r, if count >= TWO63 then 0 else 2 * count, e);
  }

  method ReadRecord(r: Reader, ver: Byte, e: Env) returns (o: Outcome<Value>)
    requires r.Valid()
    modifies r
    ensures r.Valid() && old(r.pos) <= r.pos
    ensures Reads(o, GetRecord(ver, old(r.Rest()), e), r.Rest())
    decreases |r.data| - r.pos, 3
  {
    var t :- ReadType(r, ver, e.strings);
    var vals :- ReadValues(r, |t.fields|, e);
    var extra :- ReadMapItems(r, e);
    o := Ok(MakeRecord(t, vals, extra));
  }

  method ReadDType(r: Reader, e: Env) returns (o: Outcome<Value>)
    requires r.Valid()
    modifies r
    ensures r.Valid() && old(r.pos) <= r.pos
    ensures Reads(o, GetDType(old(r.Rest()), e), r.Rest())
    decreases |r.data| - r.pos, 3
  {
    var ns :- ReadStr(r, e.strings);
    var t :- ReadType(r, 0, e.strings);
    var vals :- ReadValues(r, |t.fields|, e);
    o := Ok(DType(ns, t.name, t.fields, vals));
  }

  method ReadValues(r: Reader, n: nat, e: Env) returns (o: Outcome<seq<Value>>)
    requires r.Valid()
    modifies r
    ensures r.Valid() && old(r.pos) <= r.pos
    ensures Reads(o, GetValues(old(r.Rest()), n, e), r.Rest())
    decreases |r.data| - r.pos, 1
  {
    var vs: seq<Value> := [];
    var i := 0;
    ghost var p := GetValues(r.Rest(), n, e);
    assert p.Got? ==> vs + p.val == p.val;
    while i < n
      invariant 0 <= i <= n && r.Valid() && old(r.pos) <= r.pos
      invariant Resumes(p, vs, GetValues(r.Rest(), n - i, e))
    {
      ghost var q := GetValues(r.Rest(), n - i, e);
      var v :- ReadValue(r, e);
      assert q.Got? ==> vs + q.val == (vs + [v]) + q.val[1..];
      vs := vs + [v];
      i := i + 1;
    }
    assert vs + [] == vs;
    o := Ok(vs);
  }

  // ----------------------------------------------------------------- skipping

  /** The skip ends, and stops, as the scan does. */
  ghost predicate Skips<T>(o: Outcome<()>, p: Parse<T>, rest: Bytes) {
    match p
    case Got(_, r) => o.Ok? && rest == r
    case Fail(e) => o == Err(e)
  }

  /** The two parses end the same way. */
  ghost predicate SameEnd<T, U>(p: Parse<T>, q: Parse<U>) {
    match p
    case Got(_, r) => q.Got? && q.rest == r
    case Fail(e) => q == Fail(e)
  }

  method SkipVarints(r: Reader, n: nat) returns (o: Outcome<()>)
    requires r.Valid()
    modifies r
    ensures r.Valid() && old(r.pos) <= r.pos
    ensures Skips(o, ScanVarints(old(r.Rest()), n), r.Rest())
  {
    var i := 0;
    ghost var p := ScanVarints(r.Rest(), n);
    while i < n
      invariant 0 <= i <= n && r.Valid() && old(r.pos) <= r.pos
      invariant p == ScanVarints(r.Rest(), n - i)
    {
      var _ :- r.ReadVarint();
      i := i + 1;
    }
    o := Ok(());
  }

  method SkipType(r: Reader, ver: Byte) returns (o: Outcome<U64>)
    requires r.Valid()
    modifies r
    ensures r.Valid() && old(r.pos) <= r.pos
    ensures Reads(o, ScanType(old(r.Rest()), ver), r.Rest())
  {
    var _ :- SkipVarints(r, 1 + ver);
    var n :- r.ReadVarint();
    var _ :- SkipVarints(r, if n >= TWO63 then 0 else n);
    o := Ok(n);
  }

  method SkipLeaf(r: Reader, id: Byte, ver: Byte) returns (o: Outcome<()>)
    requires r.Valid() && LeafTag(id)
    modifies r
    ensures r.Valid() && old(r.pos) <= r.pos
    ensures Skips(o, ScanLeaf(id, ver, old(r.Rest())), r.Rest())
  {
    if id <= 0x02 || id == 0x0A || id == 0x20 {
      o := Ok(());
    } else if id == 0x03 {
      var _ :- r.ReadSvarint();
      o := Ok(());
    } else if id == 0x04 {
      o := r.Skip(8);
    } else if id == 0x08 {
      o := r.Skip(4);
    } else if id == 0x09 {
      var _ :- r.ReadByte();
      var n :- r.ReadInt();
      o := r.Skip(n);
    } else if IsTextTag(id) {
      o := SkipVarints(r, 1);
    } else if id == 0x10 {
      var _ :- r.ReadVarint();
      var _ :- r.ReadVarint();
      var _ :- r.ReadByte();
      var _ :- r.ReadVarint();
      o := Ok(());
    } else if id == 0x11 {
      o := SkipVarints(r, 2);
    } else if id == 0x30 {
      var _ :- SkipType(r, ver);
      o := Ok(());
    } else {
      o := Err(BadTag);
    }
  }

  method SkipValue(r: Reader) returns (o: Outcome<()>)
    requires r.Valid()
    modifies r
    ensures r.Valid() && old(r.pos) <= r.pos
    ensures Skips(o, Scan(old(r.Rest())), r.Rest())
    decreases |r.data| - r.pos, 0
  {
    var tag :- r.ReadByte();
    o := SkipTagged(r, tag % 64, tag / 64);
  }

  method SkipTagged(r: Reader, id: Byte, ver: Byte) returns (o: Outcome<()>)
    requires r.Valid()
    modifies r
    ensures r.Valid() && old(r.pos) <= r.pos
    ensures Skips(o, ScanTagged(id, ver, old(r.Rest())), r.Rest())
    decreases |r.data| - r.pos, 4
  {
    if KnownTag(id) && !VersionSupported(id, ver) {
      return Err(BadTagVersion);
    }
    if !KnownTag(id) {
      return Err(BadTag);
    }
    if LeafTag(id) {
      o := SkipLeaf(r, id, ver);
    } else if id == 0x33 {
      o := SkipValue(r);
    } else if id == 0x31 {
      var n :- SkipType(r, ver);
      var _ :- SkipValues(r, n);
      o := SkipPairs(r);
    } else if id == 0x34 {
      var n :- SkipType(r, 1);
      o := SkipValues(r, n);
    } else if id == 0x23 {
      o := SkipPairs(r);
    } else {
      var n :- r.ReadVarint();
      o := SkipValues(r, n);
    }
  }

  method SkipPairs(r: Reader) returns (o: Outcome<()>)
    requires r.Valid()
    modifies r
    ensures r.Valid() && old(r.pos) <= r.pos
    ensures Skips(o, ScanPairs(old(r.Rest())), r.Rest())
    decreases |r.data| - r.pos, 3
  {
    var count :- r.ReadVarint();
    o := SkipValues(r, count * 2 % TWO64);
  }

  method SkipValues(r: Reader, n: nat) returns (o: Outcome<()>)
    requires r.Valid()
    modifies r
    ensures r.Valid() && old(r.pos) <= r.pos
    ensures Skips(o, ScanValues(old(r.Rest()), n), r.Rest())
    decreases |r.data| - r.pos, 1
  {
    var i := 0;
    ghost var p := ScanValues(r.Rest(), n);
    while i < n
      invariant 0 <= i <= n && r.Valid() && old(r.pos) <= r.pos
      invariant SameEnd(p, ScanValues(r.Rest(), n - i))
    {
      var _ :- SkipValue(r);
      i := i + 1;
    }
    o := Ok(());
  }

  // ------------------------------------------------------------------ writing

  method WriteStr(out: Writer, s: Str, w: WriteIndex, ghost k: Bytes) returns (ok: bool)
    modifies out
    ensures ok <==> s in w.strs
    ensures ok ==> Wrote(old(out.out), out.out, k, PutStr(s, w, k))
  {
    if s !in w.strs {
      return false;
    }
    out.WriteVarint(w.strs[s], k);
    ok := true;
  }

  method WriteStrs(out: Writer, ss: seq<Str>, w: WriteIndex, ghost k: Bytes) returns (ok: bool)
    modifies out
    ensures ok <==> forall s :: s in ss ==> s in w.strs
    ensures ok ==> Wrote(old(out.out), out.out, k, PutStrs(ss, w, k))
  {
    var i := 0;
    while i < |ss|
      invariant 0 <= i <= |ss|
      invariant forall j :: 0 <= j < i ==> ss[j] in w.strs
      invariant (forall s :: s in ss ==> s in w.strs) ==>
          Wrote(old(out.out), out.out, PutStrs(ss[i..], w, k), PutStrs(ss, w, k))
    {
      ok := WriteStr(out, ss[i], w, if forall s :: s in ss ==> s in w.strs then PutStrs(ss[i + 1..], w, k) else []);
      if !ok {
        return;
      }
      assert ss[i..][1..] == ss[i + 1..];
      i := i + 1;
    }
    ok := true;
  }

  method WriteType(out: Writer, id: Byte, ns: Str, name: Str, fields: seq<Str>, w: WriteIndex, ghost k: Bytes)
    returns (ok: bool)
    requires id < 0x40 && |fields| < TWO63
    modifies out
    ensures ok <==> TypeStrings(ns, name, fields) <= w.strs.Keys
    ensures ok ==> Wrote(old(out.out), out.out, k, PutType(id, ns, name, fields, w, k))
  {
    ghost var fits := TypeStrings(ns, name, fields) <= w.strs.Keys;
    ghost var tail := if fits then PutStrs(fields, w, k) else [];
    ghost var body := if fits then PutStr(name, w, PutVarint(|fields|, tail)) else [];
    if ns == [] {
      out.WriteByte(id, body);
    } else {
      out.WriteByte(id + 0x40, if fits then PutStr(ns, w, body) else []);
      ok := WriteStr(out, ns, w, body);
      if !ok {
        return;
      }
    }
    ok := WriteStr(out, name, w, PutVarint(|fields|, tail));
    if !ok {
      return;
    }
    out.WriteVarint(|fields|, tail);
    ok := WriteStrs(out, fields, w, k);
  }

  method WriteFunc(out: Writer, c: nat, arity: I64, variadic: bool, name: Str, w: WriteIndex, ghost k: Bytes)
    returns (ok: bool)
    modifies out
    ensures ok <==> name in w.strs
    ensures ok ==> Wrote(old(out.out), out.out, k, PutFunc(c, arity, variadic, name, w, k))
  {
    ghost var s3 := if name in w.strs then PutStr(name, w, k) else [];
    ghost var s2 := [if variadic then 1 else 0] + s3;
    out.WriteVarint(w.ChunkRef(c), PutInt(arity, s2));
    out.WriteVarint(ToU64(arity), s2);
    out.WriteByte(if variadic then 1 else 0, s3);
    ok := WriteStr(out, name, w, k);
  }

  method WriteLeaf(out: Writer, v: Value, w: WriteIndex, ghost k: Bytes) returns (ok: bool)
    requires Leaf(v) && Shaped(v)
    modifies out
    ensures ok <==> StringRefs(v) <= w.strs.Keys
    ensures ok ==> Wrote(old(out.out), out.out, k, PutLeaf(v, w, k))
  {
    ok := true;
    match v
    case Nil => out.WriteByte(0x00, k);
    case True => out.WriteByte(0x01, k);
    case False => out.WriteByte(0x02, k);
    case Void => out.WriteByte(0x0A, k);
    case EmptyList => out.WriteByte(0x20, k);
    case Int(i) =>
      out.WriteByte(0x03, PutSvarint(i, k));
      out.WriteVarint(Zigzag(i), k);
    case Float(bits) =>
      out.WriteByte(0x04, PutLE(bits, 8, k));
      out.WriteFixed(bits, 8, k);
    case Char(c) =>
      out.WriteByte(0x08, PutI32(c, k));
      out.WriteFixed(if c < 0 then c + TWO32 else c, 4, k);
    case BigInt(n) =>
      var mag := Magnitude(if n < 0 then -n else n);
      out.WriteByte(0x09, PutBigInt(n, k));
      out.WriteByte(if n < 0 then 1 else 0, PutVarint(|mag|, mag + k));
      out.WriteVarint(|mag|, mag + k);
      out.WriteBytes(mag, k);
    case Text(kind, text) =>
      out.WriteByte(TextTag(kind), if text in w.strs then PutStr(text, w, k) else []);
      ok := WriteStr(out, text, w, k);
    case Func(c, arity, variadic, name) =>
      out.WriteByte(0x10, if name in w.strs then PutFunc(c, arity, variadic, name, w, k) else []);
      ok := WriteFunc(out, c, arity, variadic, name, w, k);
    case VarRef(ns, name) =>
      ghost var tail := if name in w.strs then PutStr(name, w, k) else [];
      out.WriteByte(0x11, if ns in w.strs then PutStr(ns, w, tail) else []);
      ok := WriteStr(out, ns, w, tail);
      if ok {
        ok := WriteStr(out, name, w, k);
      }
    case RecordType(ns, name, fields) => ok := WriteType(out, 0x30, ns, name, fields, w, k);
  }

  /** writeValue refuses exactly the values that are not serializable or use a
      string the table does not hold; otherwise it appends their encoding. */
  method WriteValue(out: Writer, v: Value, w: WriteIndex, ghost k: Bytes) returns (ok: bool)
    requires Shaped(v)
    modifies out
    ensures ok <==> Writable(v, w)
    ensures ok ==> Wrote(old(out.out), out.out, k, PutValue(v, w, k))
    decreases v, 1
  {
    if Leaf(v) {
      ok := WriteLeaf(out, v, w, k);
      return;
    }
    if v.Absent? {
      return false;
    }
    if v.Atom? {
      out.WriteByte(0x33, if Writable(v, w) then PutValue(v.inner, w, k) else []);
      ok := WriteValue(out, v.inner, w, k);
    } else if v.Coll? {
      ghost var tail := if Writable(v, w) then PutValues(v.items, w, k) else [];
      out.WriteByte(CollTag(v.coll), PutVarint(|v.items|, tail));
      out.WriteVarint(|v.items|, tail);
      ok := WriteValues(out, v.items, w, k);
    } else if v.Map? {
      ghost var tail := if Writable(v, w) then PutValues(v.items, w, k) else [];
      out.WriteByte(0x23, PutVarint(|v.items| / 2, tail));
      out.WriteVarint(|v.items| / 2, tail);
      ok := WriteValues(out, v.items, w, k);
    } else if v.DefMeta? {
      if |v.items| % 2 != 0 {
        return false;
      }
      ghost var tail := if Writable(v, w) then PutValues(v.items, w, k) else [];
      out.WriteByte(0x63, PutVarint(|v.items| / 2, tail));
      out.WriteVarint(|v.items| / 2, tail);
      ok := WriteValues(out, v.items, w, k);
    } else if v.DType? {
      if v.ns == [] {
        return false;
      }
      ok := WriteDType(out, v.ns, v.name, v.fields, v.fixed, w, k);
    } else {
      ok := WriteRecord(out, v, w, k);
    }
  }

  method WriteValues(out: Writer, vs: seq<Value>, w: WriteIndex, ghost k: Bytes) returns (ok: bool)
    requires ShapedAll(vs)
    modifies out
    ensures ok <==> WritableAll(vs, w)
    ensures ok ==> Wrote(old(out.out), out.out, k, PutValues(vs, w, k))
    decreases vs, 1
  {
    var i := 0;
    ghost var all := WritableAll(vs, w);
    while i < |vs|
      invariant 0 <= i <= |vs|
      invariant ShapedAll(vs[i..]) && (WritableAll(vs[i..], w) <==> all)
      invariant all ==> Wrote(old(out.out), out.out, PutValues(vs[i..], w, k), PutValues(vs, w, k))
    {
      assert vs[i..][0] == vs[i] && vs[i..][1..] == vs[i + 1..];
      ok := WriteValue(out, vs[i], w, if all then PutValues(vs[i + 1..], w, k) else []);
      if !ok {
        return;
      }
      i := i + 1;
    }
    ok := true;
  }

  /** A record's fixed fields: an unset one is written as nil. */
  method WriteFields(out: Writer, vs: seq<Value>, w: WriteIndex, ghost k: Bytes) returns (ok: bool)
    requires ShapedAll(vs)
    modifies out
    ensures ok <==> SerializableFields(vs) && StringRefsAll(vs) <= w.strs.Keys
    ensures ok ==> Wrote(old(out.out), out.out, k, PutFields(vs, w, k))
    decreases vs, 1
  {
    var i := 0;
    ghost var all := SerializableFields(vs) && StringRefsAll(vs) <= w.strs.Keys;
    while i < |vs|
      invariant 0 <= i <= |vs|
      invariant ShapedAll(vs[i..])
      invariant SerializableFields(vs[i..]) && StringRefsAll(vs[i..]) <= w.strs.Keys <==> all
      invariant all ==> Wrote(old(out.out), out.out, PutFields(vs[i..], w, k), PutFields(vs, w, k))
    {
      assert vs[i..][0] == vs[i] && vs[i..][1..] == vs[i + 1..];
      if vs[i].Absent? {
        out.WriteByte(0x00, if all then PutFields(vs[i + 1..], w, k) else []);
      } else {
        ok := WriteValue(out, vs[i], w, if all then PutFields(vs[i + 1..], w, k) else []);
        if !ok {
          return;
        }
      }
      i := i + 1;
    }
    ok := true;
  }

  method WriteRecord(out: Writer, v: Value, w: WriteIndex, ghost k: Bytes) returns (ok: bool)
    requires v.Record? && Shaped(v)
    modifies out
    ensures ok <==> Writable(v, w)
    ensures ok ==> Wrote(old(out.out), out.out, k, PutValue(v, w, k))
    decreases v, 0
  {
    ghost var all := Writable(v, w);
    ghost var s3 := if all then PutVarint(|v.extra| / 2, PutValues(v.extra, w, k)) else [];
    ghost var s2 := if all then PutFields(v.fixed, w, s3) else [];
    ok := WriteType(out, 0x31, v.ns, v.name, v.fields, w, s2);
    if !ok {
      return;
    }
    ok := WriteFields(out, v.fixed, w, s3);
    if !ok {
      return;
    }
    out.WriteVarint(|v.extra| / 2, if all then PutValues(v.extra, w, k) else []);
    ok := WriteValues(out, v.extra, w, k);
  }

  method WriteDType(out: Writer, ns: Str, name: Str, fields: seq<Str>, fixed: seq<Value>, w: WriteIndex, ghost k: Bytes)
    returns (ok: bool)
    requires |fields| == |fixed| < TWO63 && ShapedAll(fixed)
    modifies out
    ensures ok <==> {ns, name} + (set f | f in fields) <= w.strs.Keys && WritableAll(fixed, w)
    ensures ok ==> Wrote(old(out.out), out.out, k, [0x34] + PutDTypeHead(ns, name, fields, w, PutValues(fixed, w, k)))
    decreases fixed, 2
  {
    ghost var all := {ns, name} + (set f | f in fields) <= w.strs.Keys && WritableAll(fixed, w);
    ghost var s4 := if all then PutValues(fixed, w, k) else [];
    ghost var s3 := if all then PutStrs(fields, w, s4) else [];
    ghost var s2 := if all then PutVarint(|fields|, s3) else [];
    ghost var s1 := if all then PutStr(name, w, s2) else [];
    out.WriteByte(0x34, if all then PutStr(ns, w, s1) else []);
    ok := WriteStr(out, ns, w, s1);
    if !ok {
      return;
    }
    ok := WriteStr(out, name, w, s2);
    if !ok {
      return;
    }
    out.WriteVarint(|fields|, s3);
    ok := WriteStrs(out, fields, w, s4);
    if !ok {
      return;
    }
    ok := WriteValues(out, fixed, w, k);
  }
}
