/** The functions inside constants: what a read needs of them, and what encoding and
    decoding do to them. */
module References {
  import opened Wire
  import opened Values
  import opened ValueProofs
  import opened Modules
  import opened Shapes

  // --------------------------------------------------- a read needs their chunks

  lemma {:induction false} AllLiveEach(vs: seq<Value>, live: seq<bool>)
    ensures AllLive(FuncRefsAll(vs), live) <==> forall i :: 0 <= i < |vs| ==> AllLive(FuncRefs(vs[i]), live)
  {
    hide FuncRefs;
    if vs == [] {
    } else {
      AllLiveEach(vs[1..], live);
      assert FuncRefsAll(vs) == FuncRefs(vs[0]) + FuncRefsAll(vs[1..]);
      if forall i :: 0 <= i < |vs| ==> AllLive(FuncRefs(vs[i]), live) {
        assert forall i :: 0 <= i < |vs[1..]| ==> vs[1..][i] == vs[i + 1];
      }
      if AllLive(FuncRefsAll(vs), live) {
        assert AllLive(FuncRefs(vs[0]), live) && AllLive(FuncRefsAll(vs[1..]), live);
        assert forall i :: 0 < i < |vs| ==> vs[i] == vs[1..][i - 1];
      }
    }
  }

  /** Every function in a value that has been read has its chunk decoded. */
  lemma {:induction false} ReadLive(s: Bytes, e: Env)
    requires GetValue(s, e).Got?
    ensures AllLive(FuncRefs(GetValue(s, e).val), e.live)
    decreases |s|, 0
  {
    hide GetTagged, FuncRefs;
    TaggedLive(s[0] % 64, s[0] / 64, s[1..], e);
  }

  lemma LeafLive(id: Byte, ver: Byte, s: Bytes, e: Env)
    requires LeafTag(id) && GetLeaf(id, ver, s, e).Got?
    ensures AllLive(FuncRefs(GetLeaf(id, ver, s, e).val), e.live)
  {
    hide GetVarint, GetLE, FromMagnitude;
  }

  lemma {:induction false} TaggedLive(id: Byte, ver: Byte, s: Bytes, e: Env)
    requires GetTagged(id, ver, s, e).Got?
    ensures AllLive(FuncRefs(GetTagged(id, ver, s, e).val), e.live)
    decreases |s|, 4
  {
    hide GetVarint, GetLeaf, GetValues, GetValue, GetMapItems, GetType, GetStr, MakeRecord, FuncRefsAll;
    if LeafTag(id) {
      LeafLive(id, ver, s, e);
    } else if id == 0x33 {
      ReadLive(s, e);
    } else if id == 0x31 {
      RecordLive(ver, s, e);
    } else if id == 0x34 {
      DTypeLive(s, e);
    } else if id == 0x23 {
      PairsLive(s, e);
    } else {
      var n := GetVarint(s);
      ReadAllLive(n.rest, n.val, e);
    }
  }

  lemma {:induction false} PairsLive(s: Bytes, e: Env)
    ensures var p := GetMapItems(s, e); p.Got? ==> AllLive(FuncRefsAll(p.val), e.live)
    ensures var p := GetDefMeta(s, e); p.Got? ==> AllLive(FuncRefs(p.val), e.live)
    decreases |s|, 3
  {
    hide GetVarint, GetValues, FuncRefsAll;
    var n := GetVarint(s);
    if n.Got? {
      if GetMapItems(s, e).Got? {
        ReadAllLive(n.rest, if n.val >= TWO63 then 0 else 2 * n.val, e);
      }
      if GetDefMeta(s, e).Got? {
        ReadAllLive(n.rest, ToI64(n.val * 2 % TWO64), e);
      }
    }
  }

  lemma RecordLiveParts(t: TypeHead, vals: seq<Value>, extra: seq<Value>, live: seq<bool>)
    requires |t.fields| == |vals| && AllLive(FuncRefsAll(vals), live) && AllLive(FuncRefsAll(extra), live)
    ensures AllLive(FuncRefs(MakeRecord(t, vals, extra)), live)
  {
    hide FuncRefsAll;
    AllLiveEach(vals, live);
    AllLiveEach(extra, live);
    var r := MakeRecord(t, vals, extra);
    DropFieldsShort(extra, t.fields);
    forall i | 0 <= i < |r.fixed|
      ensures AllLive(FuncRefs(r.fixed[i]), live)
    {
      LastSetIsVal(t.fields, vals, t.fields[i], |vals|);
      LookUpIsVal(extra, t.fields[i]);
    }
    AllLiveEach(r.fixed, live);
    forall i | 0 <= i < |r.extra|
      ensures AllLive(FuncRefs(r.extra[i]), live)
    {
      assert r.extra[i] in extra;
    }
    AllLiveEach(r.extra, live);
  }

  lemma {:induction false} RecordLive(ver: Byte, s: Bytes, e: Env)
    requires GetRecord(ver, s, e).Got?
    ensures AllLive(FuncRefs(GetRecord(ver, s, e).val), e.live)
    decreases |s|, 3
  {
    hide GetVarint, GetType, GetValues, GetMapItems, MakeRecord, FuncRefs, FuncRefsAll;
    var t := GetType(s, ver, e.strings);
    ReadAllLive(t.rest, |t.val.fields|, e);
    var vals := GetValues(t.rest, |t.val.fields|, e);
    PairsLive(vals.rest, e);
    RecordLiveParts(t.val, vals.val, GetMapItems(vals.rest, e).val, e.live);
  }

  lemma {:induction false} DTypeLive(s: Bytes, e: Env)
    requires GetDType(s, e).Got?
    ensures AllLive(FuncRefs(GetDType(s, e).val), e.live)
    decreases |s|, 3
  {
    hide GetVarint, GetType, GetValues, GetStr, FuncRefsAll;
    var t := GetType(GetStr(s, e.strings).rest, 0, e.strings);
    ReadAllLive(t.rest, |t.val.fields|, e);
  }

  lemma {:induction false} ReadAllLive(s: Bytes, n: nat, e: Env)
    requires GetValues(s, n, e).Got?
    ensures AllLive(FuncRefsAll(GetValues(s, n, e).val), e.live)
    decreases |s|, 1
  {
    hide GetTagged, FuncRefs;
    if n == 0 {
    } else {
      ReadLive(s, e);
      ReadAllLive(GetValue(s, e).rest, n - 1, e);
      var vs := GetValues(s, n, e).val;
      assert vs[1..] == GetValues(GetValue(s, e).rest, n - 1, e).val;
    }
  }

  // ------------------------------------------- decoded constants encode again

  /** The chunk indices the functions get. */
  ghost function Renamed(refs: set<nat>, w: WriteIndex): set<nat> {
    set f | f in refs :: w.ChunkRef(f) as nat
  }

  /** A constant that came back from a decode is as writable as the one that was encoded,
      refers to the same strings, and to the chunks the functions were given. */
  lemma {:induction false} NormKeeps(v: Value, w: WriteIndex, valid: TextParsers)
    requires Shaped(v) && Canonical(v, valid)
    ensures var n := Norm(v, w);
      && Shaped(n) && Canonical(n, valid) && (Serializable(v) ==> Serializable(n))
      && StringRefs(n) == StringRefs(v) && FuncRefs(n) == Renamed(FuncRefs(v), w)
      && n.Absent? == v.Absent? && n.Nil? == v.Nil?
    decreases v, 0
  {
    hide ShapedAll, SerializableAll, SerializableFields, StringRefsAll, FuncRefsAll, CanonicalAll, NormAll,
         NoFieldKeys, Magnitude;
    if v.Coll? || v.Map? || v.DefMeta? {
      NormAllKeeps(v.items, w, valid);
    } else if v.Record? {
      NormAllKeeps(v.fixed, w, valid);
      NormAllKeeps(v.extra, w, valid);
      UnsetKeeps(NormAll(v.fixed, w), valid);
      NormKeys(v.extra, w, v.fields);
      RenamedUnion(FuncRefsAll(v.fixed), FuncRefsAll(v.extra), w);
    } else if v.DType? {
      NormAllKeeps(v.fixed, w, valid);
    } else if v.Atom? {
      NormKeeps(v.inner, w, valid);
    }
  }

  lemma RenamedUnion(a: set<nat>, b: set<nat>, w: WriteIndex)
    ensures Renamed(a + b, w) == Renamed(a, w) + Renamed(b, w)
    ensures Renamed({}, w) == {}
  {
  }

  lemma {:induction false} NormAllKeeps(vs: seq<Value>, w: WriteIndex, valid: TextParsers)
    requires ShapedAll(vs) && CanonicalAll(vs, valid)
    ensures var ns := NormAll(vs, w);
      && ShapedAll(ns) && CanonicalAll(ns, valid) && (SerializableAll(vs) ==> SerializableAll(ns))
      && (SerializableFields(vs) ==> SerializableFields(ns))
      && StringRefsAll(ns) == StringRefsAll(vs) && FuncRefsAll(ns) == Renamed(FuncRefsAll(vs), w)
    decreases vs, 1
  {
    hide Shaped, Canonical, Serializable, StringRefs, FuncRefs, Norm;
    RenamedUnion({}, {}, w);
    if vs == [] {
    } else {
      NormKeeps(vs[0], w, valid);
      NormAllKeeps(vs[1..], w, valid);
      RenamedUnion(FuncRefs(vs[0]), FuncRefsAll(vs[1..]), w);
      assert NormAll(vs, w)[1..] == NormAll(vs[1..], w);
    }
  }

  /** Leaving nil fields unset changes none of it. */
  lemma {:induction false} UnsetKeeps(vs: seq<Value>, valid: TextParsers)
    requires ShapedAll(vs) && CanonicalAll(vs, valid)
    ensures var ns := NilUnset(vs);
      && ShapedAll(ns) && CanonicalAll(ns, valid) && (SerializableFields(vs) ==> SerializableFields(ns))
      && StringRefsAll(ns) == StringRefsAll(vs) && FuncRefsAll(ns) == FuncRefsAll(vs)
  {
    if vs == [] {
    } else {
      UnsetKeeps(vs[1..], valid);
      assert NilUnset(vs)[1..] == NilUnset(vs[1..]);
    }
  }
}
