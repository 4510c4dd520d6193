/** ModuleBuilder: interning strings, chunks and constants, and the modules it builds. */
module Builder {
  import opened Wire
  import opened Values
  import opened ValueProofs
  import opened Chunks
  import opened Sections
  import opened Sorting
  import opened Modules
  import opened ModuleCodec
  import opened Reachability
  import opened NSRanges
  import opened Validation
  import opened DeferralProofs

  /** The builder's tables. */
  datatype Registry = Registry(strIndex: map<Str, nat>, strings: seq<Str>, chunkIndex: map<nat, nat>,
                               chunks: seq<ChunkData>)

  /** The string index and the string table are each other's inverse. */
  ghost predicate StringsOk(strIndex: map<Str, nat>, strings: seq<Str>) {
    && (forall s :: s in strIndex ==> strIndex[s] < |strings| && strings[strIndex[s]] == s)
    && (forall i :: 0 <= i < |strings| ==> strings[i] in strIndex && strIndex[strings[i]] == i)
  }

  /** Each registered chunk has its own place in the chunk list, which holds what the live
      chunk is made of. */
  ghost predicate ChunksOk(chunkIndex: map<nat, nat>, chunks: seq<ChunkData>, live: nat -> ChunkData) {
    && (forall c :: c in chunkIndex ==> chunkIndex[c] < |chunks| && chunks[chunkIndex[c]] == live(c))
    && (forall c, d :: c in chunkIndex && d in chunkIndex && chunkIndex[c] == chunkIndex[d] ==> c == d)
  }

  /** The file names and variable names of a chunk. */
  function ChunkStrings(c: ChunkData): set<Str> {
    (set e | e in c.sourceMap :: e.file) + (set lv | lv in c.localVars :: lv.name)
  }

  ghost predicate ChunksCovered(t: Registry) {
    forall i :: 0 <= i < |t.chunks| ==> ChunkStrings(t.chunks[i]) <= t.strIndex.Keys
  }

  ghost predicate TablesOk(t: Registry, live: nat -> ChunkData) {
    StringsOk(t.strIndex, t.strings) && ChunksOk(t.chunkIndex, t.chunks, live) && ChunksCovered(t)
  }

  /** Nothing registered before has moved. */
  ghost predicate Keeps(t: Registry, before: Registry) {
    && before.strings <= t.strings && before.chunks <= t.chunks
    && (forall s :: s in before.strIndex ==> s in t.strIndex && t.strIndex[s] == before.strIndex[s])
    && (forall c :: c in before.chunkIndex ==> c in t.chunkIndex && t.chunkIndex[c] == before.chunkIndex[c])
  }

  lemma KeepsThrough(a: Registry, b: Registry, c: Registry)
    requires Keeps(b, a) && Keeps(c, b)
    ensures Keeps(c, a)
  {
  }

  /** Everything the writer will ask for when it writes the values. */
  ghost predicate Covers(t: Registry, strs: set<Str>, refs: set<nat>) {
    strs <= t.strIndex.Keys && refs <= t.chunkIndex.Keys
  }

  lemma CoversLater(t: Registry, before: Registry, strs: set<Str>, refs: set<nat>)
    requires Keeps(t, before) && Covers(before, strs, refs)
    ensures Covers(t, strs, refs)
  {
  }

  /** Whether the traversal meets a type that belongs to a namespace; it does not look
      inside an instance of a type no deftype made. */
  predicate Typed(v: Value)
    decreases v, 0
  {
    match v
    case RecordType(ns, _, _) => ns != []
    case Coll(_, items) => TypedAny(items)
    case Map(items) => TypedAny(items)
    case DefMeta(items) => TypedAny(items)
    case Record(ns, _, _, fixed, extra) => ns != [] || TypedAny(fixed) || TypedAny(extra)
    case DType(ns, _, _, _) => ns != []
    case Atom(inner) => Typed(inner)
    case _ => false
  }

  predicate TypedAny(vs: seq<Value>)
    decreases vs, 1
  {
    vs != [] && (Typed(vs[0]) || TypedAny(vs[1..]))
  }

  // ------------------------------------- the capability that typed constants need

  /** x is v, or stands inside it at some depth. */
  ghost predicate Within(x: Value, v: Value)
    decreases v, 0
  {
    || x == v
    || match v
       case Coll(_, items) => WithinAny(x, items)
       case Map(items) => WithinAny(x, items)
       case DefMeta(items) => WithinAny(x, items)
       case Record(_, _, _, fixed, extra) => WithinAny(x, fixed) || WithinAny(x, extra)
       case DType(_, _, _, fixed) => WithinAny(x, fixed)
       case Atom(inner) => Within(x, inner)
       case _ => false
  }

  ghost predicate WithinAny(x: Value, vs: seq<Value>)
    decreases vs, 1
  {
    exists i :: 0 <= i < |vs| && Within(x, vs[i])
  }

  /** x is written, and its tag is one that only a runtime with typed constants knows: a
      record type or a record with a namespace, or a deftype instance. */
  ghost predicate NewlyTagged(x: Value, w: WriteIndex) {
    Writable(x, w) && PutValue(x, w, []) != [] && PutValue(x, w, [])[0] in {0x70, 0x71, 0x34}
  }

  /** Something written among the constants is tagged so. */
  ghost predicate NewerTags(vs: seq<Value>, w: WriteIndex) {
    exists x :: WithinAny(x, vs) && NewlyTagged(x, w)
  }

  lemma TagTells(x: Value, w: WriteIndex)
    requires Writable(x, w)
    ensures NewlyTagged(x, w) <==> ((x.RecordType? || x.Record?) && x.ns != []) || x.DType?
  {
    hide PutVarint, PutSvarint, PutLE, PutI32, PutBigInt, PutFunc, PutStr, PutStrs, PutValues, PutFields, PutDTypeHead,
         Shaped, StringRefs, Serializable;
  }

  lemma TagMeans(x: Value, w: WriteIndex)
    requires NewlyTagged(x, w)
    ensures Typed(x)
  {
    hide PutValue;
    TagTells(x, w);
  }

  lemma {:induction false} TypedHolds(v: Value, w: WriteIndex) returns (x: Value)
    requires Writable(v, w) && Typed(v)
    ensures Within(x, v) && NewlyTagged(x, w)
    decreases v, 0
  {
    hide NewlyTagged, PutValue;
    TagTells(v, w);
    x := v;
    match v
    case RecordType(_, _, _) =>
    case Coll(_, items) => AllFields(items); x := TypedAnyHolds(items, w);
    case Map(items) => AllFields(items); x := TypedAnyHolds(items, w);
    case DefMeta(items) => AllFields(items); x := TypedAnyHolds(items, w);
    case Record(ns, _, _, fixed, extra) =>
      if ns == [] {
        if TypedAny(extra) {
          AllFields(extra);
          x := TypedAnyHolds(extra, w);
        } else {
          x := TypedAnyHolds(fixed, w);
        }
      }
    case DType(_, _, _, _) =>
    case Atom(inner) => x := TypedHolds(inner, w);
  }

  lemma {:induction false} TypedAnyHolds(vs: seq<Value>, w: WriteIndex) returns (x: Value)
    requires ShapedAll(vs) && SerializableFields(vs) && StringRefsAll(vs) <= w.strs.Keys && TypedAny(vs)
    ensures WithinAny(x, vs) && NewlyTagged(x, w)
    decreases vs, 1
  {
    hide NewlyTagged, Within;
    if Typed(vs[0]) {
      x := TypedHolds(vs[0], w);
      assert Within(x, vs[0]);
    } else {
      x := TypedAnyHolds(vs[1..], w);
      var i :| 0 <= i < |vs[1..]| && Within(x, vs[1..][i]);
      assert Within(x, vs[i + 1]);
    }
  }

  /** The flag set while interning is on exactly when the constants hold such a tag. */
  lemma TypedMeans(vs: seq<Value>, w: WriteIndex)
    requires WritableAll(vs, w)
    ensures TypedAny(vs) <==> NewerTags(vs, w)
  {
    hide NewlyTagged, Within, Typed, WithinAny;
    AllFields(vs);
    if TypedAny(vs) {
      var x := TypedAnyHolds(vs, w);
    }
    if NewerTags(vs, w) {
      var x :| WithinAny(x, vs) && NewlyTagged(x, w);
      TagMeans(x, w);
      HeldIsTyped(x, vs);
    }
  }

  lemma {:induction false} AllFields(vs: seq<Value>)
    requires SerializableAll(vs)
    ensures SerializableFields(vs)
  {
    if vs != [] {
      AllFields(vs[1..]);
    }
  }

  lemma {:induction false} HeldIsTyped(x: Value, vs: seq<Value>)
    requires WithinAny(x, vs) && Typed(x) && SerializableFields(vs)
    ensures TypedAny(vs)
    decreases vs, 1
  {
    var i :| 0 <= i < |vs| && Within(x, vs[i]);
    if i == 0 {
      if !vs[0].Absent? {
        WithinIsTyped(x, vs[0]);
      }
    } else {
      assert Within(x, vs[1..][i - 1]);
      HeldIsTyped(x, vs[1..]);
    }
  }

  lemma {:induction false} WithinIsTyped(x: Value, v: Value)
    requires Within(x, v) && Typed(x) && Serializable(v)
    ensures Typed(v)
    decreases v, 0
  {
    if x != v {
      match v
      case Coll(_, items) => AllFields(items); HeldIsTyped(x, items);
      case Map(items) => AllFields(items); HeldIsTyped(x, items);
      case DefMeta(items) => AllFields(items); HeldIsTyped(x, items);
      case Record(_, _, _, fixed, extra) =>
        if WithinAny(x, fixed) {
          HeldIsTyped(x, fixed);
        } else {
          AllFields(extra);
          HeldIsTyped(x, extra);
        }
      case DType(_, _, _, _) =>
      case Atom(inner) => WithinIsTyped(x, inner);
    }
  }

  /** What interning one value establishes. */
  ghost predicate Interned(t: Registry, v: Value) {
    Serializable(v) ==> Covers(t, StringRefs(v), FuncRefs(v))
  }

  ghost predicate InternedAll(t: Registry, vs: seq<Value>) {
    SerializableAll(vs) ==> Covers(t, StringRefsAll(vs), FuncRefsAll(vs))
  }

  ghost predicate InternedFields(t: Registry, vs: seq<Value>) {
    SerializableFields(vs) ==> Covers(t, StringRefsAll(vs), FuncRefsAll(vs))
  }

  lemma {:induction false} SplitRefs(vs: seq<Value>, i: nat)
    requires i < |vs|
    ensures StringRefsAll(vs[..i + 1]) == StringRefsAll(vs[..i]) + StringRefs(vs[i])
    ensures FuncRefsAll(vs[..i + 1]) == FuncRefsAll(vs[..i]) + FuncRefs(vs[i])
    ensures TypedAny(vs[..i + 1]) <==> TypedAny(vs[..i]) || Typed(vs[i])
    ensures SerializableAll(vs[..i + 1]) <==> SerializableAll(vs[..i]) && Serializable(vs[i])
    ensures SerializableFields(vs[..i + 1]) <==> SerializableFields(vs[..i]) && (vs[i].Absent? || Serializable(vs[i]))
    decreases i
  {
    hide StringRefs, FuncRefs, Typed, Serializable;
    if i > 0 {
      SplitRefs(vs[1..], i - 1);
      assert vs[..i + 1][1..] == vs[1..][..i] && vs[..i][1..] == vs[1..][..i - 1];
    } else {
      assert vs[..1][1..] == [] && vs[..0] == [];
    }
  }

  ghost predicate Adds(t: Registry, before: Registry, live: nat -> ChunkData) {
    TablesOk(t, live) && Keeps(t, before)
  }

  lemma AddsThrough(a: Registry, b: Registry, c: Registry, live: nat -> ChunkData)
    requires Keeps(b, a) && Adds(c, b, live)
    ensures Adds(c, a, live)
  {
    hide TablesOk;
    KeepsThrough(a, b, c);
  }

  lemma AddsNothing(t: Registry, live: nat -> ChunkData)
    requires TablesOk(t, live)
    ensures Adds(t, t, live)
  {
    hide TablesOk;
  }

  lemma StringAdded(t: Registry, live: nat -> ChunkData, s: Str)
    requires TablesOk(t, live) && s !in t.strIndex
    ensures Adds(Registry(t.strIndex[s := |t.strings|], t.strings + [s], t.chunkIndex, t.chunks), t, live)
  {
    hide ChunksOk;
  }

  lemma ChunkAdded(t: Registry, live: nat -> ChunkData, c: nat)
    requires TablesOk(t, live) && c !in t.chunkIndex && ChunkStrings(live(c)) <= t.strIndex.Keys
    ensures Adds(Registry(t.strIndex, t.strings, t.chunkIndex[c := |t.chunks|], t.chunks + [live(c)]), t, live)
  {
    hide StringsOk, ChunkStrings;
  }

  class ModuleBuilder {
    /** What each live chunk is made of. */
    const live: nat -> ChunkData
    var strIndex: map<Str, nat>
    var strings: seq<Str>
    var chunkIndex: map<nat, nat>
    var chunks: seq<ChunkData>
    var consts: seq<Value>
    var base: I64
    var nsTable: map<Str, nat>
    var nsConstRange: map<Str, ConstRange>
    var typedConsts: bool

    ghost function Now(): Registry
      reads this
    {
      Registry(strIndex, strings, chunkIndex, chunks)
    }

    ghost predicate Valid()
      reads this
    {
      && TablesOk(Now(), live) && typedConsts == TypedAny(consts)
      && (forall i :: 0 <= i < |consts| ==> Interned(Now(), consts[i]))
      && (forall x :: x in nsTable ==> x in strIndex && nsTable[x] < |chunks|)
      && (forall x :: x in nsConstRange ==> 0 <= nsConstRange[x].lo)
    }

    constructor (live: nat -> ChunkData, base: I64)
      ensures Valid() && this.live == live && this.base == base
      ensures Now() == Registry(map[], [], map[], []) && consts == [] && nsTable == map[] && nsConstRange == map[]
    {
      this.live, this.base := live, base;
      strIndex, strings, chunkIndex, chunks := map[], [], map[], [];
      consts, nsTable, nsConstRange, typedConsts := [], map[], map[], false;
    }

    method InternString(s: Str) returns (idx: nat)
      requires TablesOk(Now(), live)
      modifies this`strIndex, this`strings
      ensures Adds(Now(), old(Now()), live) && strIndex.Keys == old(strIndex.Keys) + {s} && idx == strIndex[s]
    {
      hide ChunksOk, ChunksCovered;
      if s in strIndex {
        AddsNothing(Now(), live);
        return strIndex[s];
      }
      StringAdded(Now(), live, s);
      idx := |strings|;
      strings := strings + [s];
      strIndex := strIndex[s := idx];
    }

    method InternStrings(ss: seq<Str>)
      requires TablesOk(Now(), live)
      modifies this`strIndex, this`strings
      ensures Adds(Now(), old(Now()), live) && strIndex.Keys == old(strIndex.Keys) + set s | s in ss
    {
      hide TablesOk, Keeps;
      AddsNothing(Now(), live);
      for i := 0 to |ss|
        invariant Adds(Now(), old(Now()), live)
        invariant strIndex.Keys == old(strIndex.Keys) + set s | s in ss[..i]
      {
        ghost var t := Now();
        var _ := InternString(ss[i]);
        AddsThrough(old(Now()), t, Now(), live);
        assert ss[..i + 1] == ss[..i] + [ss[i]];
      }
      assert ss[..|ss|] == ss;
    }

    /** AddChunk: a chunk registered before keeps its index. */
    method AddChunk(c: nat) returns (idx: nat)
      requires TablesOk(Now(), live)
      modifies this`strIndex, this`strings, this`chunkIndex, this`chunks
      ensures Adds(Now(), old(Now()), live)
      ensures chunkIndex.Keys == old(chunkIndex.Keys) + {c} && idx == chunkIndex[c] < |chunks|
      ensures c in old(chunkIndex) ==> Now() == old(Now())
    {
      hide TablesOk, Keeps;
      AddsNothing(Now(), live);
      if c in chunkIndex {
        ChunkInside(Now(), live, c);
        return chunkIndex[c];
      }
      var data := live(c);
      InternStrings(seq(|data.sourceMap|, i requires 0 <= i < |data.sourceMap| => data.sourceMap[i].file));
      ghost var t := Now();
      InternStrings(seq(|data.localVars|, i requires 0 <= i < |data.localVars| => data.localVars[i].name));
      AddsThrough(old(Now()), t, Now(), live);
      ChunkNames(data);
      ghost var u := Now();
      ChunkAdded(u, live, c);
      idx := |chunks|;
      chunks := chunks + [data];
      chunkIndex := chunkIndex[c := idx];
      AddsThrough(old(Now()), u, Now(), live);
    }

    /** internStringsForValue */
    method InternValue(v: Value)
      requires TablesOk(Now(), live)
      modifies this`strIndex, this`strings, this`chunkIndex, this`chunks, this`typedConsts
      ensures Adds(Now(), old(Now()), live) && Interned(Now(), v) && typedConsts == (old(typedConsts) || Typed(v))
      decreases v, 1
    {
      hide TablesOk, Keeps, StringRefsAll, FuncRefsAll, TypedAny, SerializableAll, SerializableFields;
      AddsNothing(Now(), live);
      if v.Text? {
        var _ := InternString(v.text);
      } else if v.Func? {
        var _ := InternString(v.name);
        ghost var t := Now();
        var _ := AddChunk(v.chunk);
        AddsThrough(old(Now()), t, Now(), live);
        CoversLater(Now(), t, {v.name}, {});
      } else if v.VarRef? {
        InternStrings([v.ns, v.name]);
      } else if v.RecordType? {
        InternType(v.ns, v.name, v.fields);
      } else if v.Coll? || v.Map? || v.DefMeta? {
        InternValues(v.items);
      } else if v.Record? {
        InternRecord(v);
      } else if v.DType? {
        if v.ns == [] {
          return;
        }
        InternDType(v);
      } else if v.Atom? {
        InternValue(v.inner);
      }
    }

    /** The namespace, if there is one, the name and the fields of a type. */
    method InternType(ns: Str, name: Str, fields: seq<Str>)
      requires TablesOk(Now(), live)
      modifies this`strIndex, this`strings, this`typedConsts
      ensures Adds(Now(), old(Now()), live) && TypeStrings(ns, name, fields) <= strIndex.Keys
      ensures typedConsts == (old(typedConsts) || ns != [])
    {
      hide TablesOk, Keeps;
      if ns != [] {
        typedConsts := true;
        InternStrings([ns]);
      } else {
        AddsNothing(Now(), live);
      }
      ghost var t := Now();
      InternStrings([name] + fields);
      AddsThrough(old(Now()), t, Now(), live);
      NamesKept(Now(), t);
    }

    method InternRecord(v: Value)
      requires v.Record? && TablesOk(Now(), live)
      modifies this`strIndex, this`strings, this`chunkIndex, this`chunks, this`typedConsts
      ensures Adds(Now(), old(Now()), live) && Interned(Now(), v) && typedConsts == (old(typedConsts) || Typed(v))
      decreases v, 0
    {
      hide TablesOk, Keeps, StringRefsAll, FuncRefsAll, TypedAny, SerializableAll, SerializableFields;
      InternType(v.ns, v.name, v.fields);
      ghost var t1 := Now();
      InternFields(v.fixed);
      AddsThrough(old(Now()), t1, Now(), live);
      ghost var t2 := Now();
      InternValues(v.extra);
      AddsThrough(old(Now()), t2, Now(), live);
      NamesKept(t2, t1);
      NamesKept(Now(), t2);
    }

    method InternDType(v: Value)
      requires v.DType? && v.ns != [] && TablesOk(Now(), live)
      modifies this`strIndex, this`strings, this`chunkIndex, this`chunks, this`typedConsts
      ensures Adds(Now(), old(Now()), live) && Interned(Now(), v) && typedConsts == (old(typedConsts) || Typed(v))
      decreases v, 0
    {
      hide TablesOk, Keeps, StringRefsAll, FuncRefsAll, TypedAny, SerializableAll, SerializableFields;
      InternType(v.ns, v.name, v.fields);
      ghost var t := Now();
      InternValues(v.fixed);
      AddsThrough(old(Now()), t, Now(), live);
      NamesKept(Now(), t);
    }

    method InternValues(vs: seq<Value>)
      requires TablesOk(Now(), live)
      modifies this`strIndex, this`strings, this`chunkIndex, this`chunks, this`typedConsts
      ensures Adds(Now(), old(Now()), live) && InternedAll(Now(), vs) && typedConsts == (old(typedConsts) || TypedAny(vs))
      decreases vs, 0
    {
      hide TablesOk, Keeps, StringRefs, FuncRefs, Typed, Serializable;
      AddsNothing(Now(), live);
      assert vs[..0] == [];
      var i := 0;
      while i < |vs|
        invariant 0 <= i <= |vs|
        invariant Adds(Now(), old(Now()), live) && InternedAll(Now(), vs[..i])
        invariant typedConsts == (old(typedConsts) || TypedAny(vs[..i]))
      {
        ghost var t := Now();
        InternValue(vs[i]);
        AddsThrough(old(Now()), t, Now(), live);
        NamesKept(Now(), t);
        SplitRefs(vs, i);
        i := i + 1;
      }
      assert vs[..i] == vs;
    }

    /** A record's fixed fields; an unset one holds nothing to intern. */
    method InternFields(vs: seq<Value>)
      requires TablesOk(Now(), live)
      modifies this`strIndex, this`strings, this`chunkIndex, this`chunks, this`typedConsts
      ensures Adds(Now(), old(Now()), live) && InternedFields(Now(), vs)
      ensures typedConsts == (old(typedConsts) || TypedAny(vs))
      decreases vs, 0
    {
      hide TablesOk, Keeps, Serializable;
      AddsNothing(Now(), live);
      assert vs[..0] == [];
      var i := 0;
      while i < |vs|
        invariant 0 <= i <= |vs|
        invariant Adds(Now(), old(Now()), live) && InternedFields(Now(), vs[..i])
        invariant typedConsts == (old(typedConsts) || TypedAny(vs[..i]))
      {
        ghost var t := Now();
        if !vs[i].Absent? {
          InternValue(vs[i]);
        } else {
          AddsNothing(t, live);
        }
        AddsThrough(old(Now()), t, Now(), live);
        NamesKept(Now(), t);
        SplitRefs(vs, i);
        i := i + 1;
      }
      assert vs[..i] == vs;
    }

    /** AddConst */
    method AddConst(v: Value)
      requires Valid()
      modifies this
      ensures Valid() && Adds(Now(), old(Now()), live) && consts == old(consts) + [v]
      ensures nsTable == old(nsTable) && nsConstRange == old(nsConstRange) && base == old(base)
    {
      hide TablesOk, Keeps, Interned, StringRefs, FuncRefs;
      ghost var t := Now();
      InternValue(v);
      forall i | 0 <= i < |consts|
        ensures Interned(Now(), consts[i])
      {
        InternedKept(Now(), t, consts[i]);
      }
      TablesKept(Now(), t);
      consts := consts + [v];
      SplitRefs(consts, |consts| - 1);
      assert consts[..|consts|] == consts && consts[..|consts| - 1] == old(consts);
    }

    /** SetNSEntry */
    method SetNSEntry(name: Str, chunk: nat)
      requires Valid()
      modifies this
      ensures Valid() && Adds(Now(), old(Now()), live) && consts == old(consts)
      ensures chunk in chunkIndex && nsTable == old(nsTable)[name := chunkIndex[chunk]]
      ensures nsConstRange == old(nsConstRange) && base == old(base)
    {
      hide TablesOk, Keeps, Interned, TypedAny;
      ghost var t := Now();
      var _ := InternString(name);
      ghost var u := Now();
      var idx := AddChunk(chunk);
      AddsThrough(t, u, Now(), live);
      TablesKept(Now(), t);
      TablesKept(Now(), u);
      forall i | 0 <= i < |consts|
        ensures Interned(Now(), consts[i])
      {
        InternedKept(Now(), t, consts[i]);
      }
      nsTable := nsTable[name := idx];
    }

    method SetNSConstRange(name: Str, r: ConstRange)
      requires Valid() && 0 <= r.lo
      modifies this`nsConstRange
      ensures Valid() && nsConstRange == old(nsConstRange)[name := r]
    {
      nsConstRange := nsConstRange[name := r];
    }

    /** Lengths fit a Go int. */
    predicate Fit()
      reads this
    {
      |strings| < TWO63 && |chunks| < TWO63 && |consts| < TWO63 && |nsTable.Keys| < TWO63
    }

    /** The encoder's indexes over what has been built. */
    ghost function Index(): (w: WriteIndex)
      requires Valid() && Fit()
      reads this
      ensures w.strs.Keys == strIndex.Keys && (forall s :: s in strIndex ==> w.strs[s] == strIndex[s])
      ensures w.chunks.Keys == chunkIndex.Keys && (forall c :: c in chunkIndex ==> w.chunks[c] == chunkIndex[c])
    {
      IndexFits(Now(), live);
      WriteIndex(map s | s in strIndex :: strIndex[s], map c | c in chunkIndex :: chunkIndex[c])
    }

    method HasLocals() returns (found: bool)
      ensures found <==> exists i :: 0 <= i < |chunks| && chunks[i].localVars != []
    {
      for i := 0 to |chunks|
        invariant forall j :: 0 <= j < i ==> chunks[j].localVars == []
      {
        if |chunks[i].localVars| > 0 {
          return true;
        }
      }
      return false;
    }

    /** m is made of what has been registered; its flags and capabilities say what is in it. */
    ghost predicate Makes(m: Module)
      reads this
    {
      && m.strings == strings && m.chunks == chunks && m.consts == consts && m.base == base && m.ranges == []
      && m.nsTable.Keys == nsTable.Keys && (forall x :: x in nsTable ==> m.nsTable[x] == nsTable[x])
      && m.flags == Flags(base > 0, true, exists i :: 0 <= i < |chunks| && chunks[i].localVars != [], false, false, false)
      && m.caps == if TypedAny(consts) then 3 else 1
    }

    /** Build: what the module is made of, and that the writer will find in it everything
        it asks for: it refuses exactly the constants that cannot be serialized. */
    method Build() returns (m: Module)
      requires Valid() && Fit()
      ensures Makes(m)
      ensures Countable(m) ==> (Fits(m, Index()) <==> SerializableAll(consts)) && TableMatches(Index(), m.strings)
      ensures Countable(m) && Fits(m, Index()) ==> m.caps == if NewerTags(m.consts, Index()) then 3 else 1
      ensures 0 <= base ==> Decoded(m, Index()) == m.(consts := NormAll(consts, Index()))
    {
      hide TablesOk, Interned, TypedAny, Countable, Fits, TableMatches, SerializableAll, NewerTags, NormAll;
      var locals := HasLocals();
      TableInside(nsTable, |chunks|);
      m := Module(2, Flags(base > 0, true, locals, false, false, false), if typedConsts then 3 else 1, strings, chunks,
                  consts, base, map x | x in nsTable :: nsTable[x], []);
      if Countable(m) {
        BuiltFits(Now(), live, consts, m, Index());
        if Fits(m, Index()) {
          FitsConsts(m, Index());
          TypedMeans(consts, Index());
        }
      }
    }

    /** nsRanges over the builder's state. */
    method DeriveRanges() returns (out: Option<seq<NSRange>>, ghost b: Bundle, ghost owners: seq<nat>,
                                   ghost entries: seq<NSRange>)
      requires Valid() && Fit() && 0 <= base
      ensures Describes(b, Now(), consts, nsTable, nsConstRange)
      ensures Emitted(b, |b.names|, entries, owners)
      ensures out == if ValidRanges(entries, |b.prog.code|, |b.prog.consts|) then Some(entries) else None
    {
      hide TablesOk, Interned, TypedAny, Emitted, ValidRanges, Enumerates;
      var names := SortNames(nsTable.Keys);
      NamesIn(names, nsTable.Keys);
      var bundle := Bundle(ProgramOf(chunks, consts, chunkIndex, base, nsTable, names), names, nsConstRange);
      ProgramOk(Now(), live, bundle.prog);
      out, owners, entries := FindNSRanges(bundle);
      b := bundle;
    }

    /** BuildDeferrable: Build, with an entry for each namespace that qualifies; None when
        the entries do not pass validation. */
    method BuildDeferrable() returns (m: Option<Module>, ghost b: Bundle, ghost owners: seq<nat>,
                                      ghost entries: seq<NSRange>)
      requires Valid() && Fit() && 0 <= base
      ensures m.Some? ==> Makes(m.value.(ranges := [], flags := m.value.flags.(nsRanges := false)))
      ensures nsConstRange.Keys == {} || nsTable.Keys == {} ==> m.Some? && m.value.ranges == [] && !m.value.flags.nsRanges
      ensures nsConstRange.Keys != {} && nsTable.Keys != {} ==>
          && Describes(b, Now(), consts, nsTable, nsConstRange)
          && Emitted(b, |b.names|, entries, owners) && Delivers(m, b, entries)
      ensures m.Some? && Countable(m.value) ==> (Fits(m.value, Index()) <==> SerializableAll(consts))
      ensures m.Some? && m.value.flags.nsRanges && SerializableAll(consts) && NothingShared(b, m.value.ranges) ==>
          Compiled(m.value, Index(), b, owners)
    {
      hide TablesOk, Interned, TypedAny, Countable, Fits, TableMatches, SerializableAll, Emitted, ValidRanges,
           NothingShared, Describes, Compiled;
      var built := Build();
      b, owners, entries := Bundle(Program([], [], map[], 0, []), [], map[]), [], [];
      if |nsConstRange.Keys| == 0 || |nsTable.Keys| == 0 {
        return Some(built), b, owners, entries;
      }
      var out;
      out, b, owners, entries := DeriveRanges();
      if out.None? {
        return None, b, owners, entries;
      }
      if out.value == [] {
        return Some(built), b, owners, entries;
      }
      m := Some(built.(ranges := out.value, flags := built.flags.(nsRanges := true)));
      if Countable(m.value) {
        RangesWritten(built, m.value, b, owners, Now(), consts, nsTable, nsConstRange, Index());
      }
      if SerializableAll(consts) && NothingShared(b, out.value) {
        RefsIndexed(Now(), consts);
        BuiltCompiled(Now(), live, nsTable, nsConstRange, m.value, Index(), b, owners);
      }
    }
  }

  /** The module carries exactly the entries, if they are valid. */
  ghost predicate Delivers(m: Option<Module>, b: Bundle, entries: seq<NSRange>) {
    && (m.Some? <==> ValidRanges(entries, |b.prog.code|, |b.prog.consts|))
    && (m.Some? ==> m.value.ranges == entries && (m.value.flags.nsRanges <==> entries != []))
  }

  lemma NamesKept(t: Registry, before: Registry)
    requires Keeps(t, before)
    ensures before.strIndex.Keys <= t.strIndex.Keys && before.chunkIndex.Keys <= t.chunkIndex.Keys
  {
  }

  lemma ChunkInside(t: Registry, live: nat -> ChunkData, c: nat)
    requires TablesOk(t, live) && c in t.chunkIndex
    ensures t.chunkIndex[c] < |t.chunks| && t.chunks[t.chunkIndex[c]] == live(c)
  {
  }

  lemma ChunkNames(c: ChunkData)
    ensures var fs := seq(|c.sourceMap|, i requires 0 <= i < |c.sourceMap| => c.sourceMap[i].file);
      var ns := seq(|c.localVars|, i requires 0 <= i < |c.localVars| => c.localVars[i].name);
      ChunkStrings(c) == (set s | s in fs) + (set s | s in ns)
  {
    var fs := seq(|c.sourceMap|, i requires 0 <= i < |c.sourceMap| => c.sourceMap[i].file);
    var ns := seq(|c.localVars|, i requires 0 <= i < |c.localVars| => c.localVars[i].name);
    forall s
      ensures s in ChunkStrings(c) <==> s in fs || s in ns
    {
      if e :| e in c.sourceMap && e.file == s {
        var i :| 0 <= i < |c.sourceMap| && c.sourceMap[i] == e;
        assert fs[i] == s;
      }
      if lv :| lv in c.localVars && lv.name == s {
        var i :| 0 <= i < |c.localVars| && c.localVars[i] == lv;
        assert ns[i] == s;
      }
    }
  }

  lemma TablesKept(t: Registry, before: Registry)
    requires Keeps(t, before)
    ensures before.strIndex.Keys <= t.strIndex.Keys && |before.chunks| <= |t.chunks|
  {
  }

  lemma InternedKept(t: Registry, before: Registry, v: Value)
    requires Keeps(t, before) && Interned(before, v)
    ensures Interned(t, v)
  {
    hide StringRefs, FuncRefs, Serializable;
  }

  lemma IndexFits(t: Registry, live: nat -> ChunkData)
    requires TablesOk(t, live) && |t.strings| < TWO63 && |t.chunks| < TWO63
    ensures forall s :: s in t.strIndex ==> t.strIndex[s] < TWO63
    ensures forall c :: c in t.chunkIndex ==> t.chunkIndex[c] < TWO63
  {
  }

  lemma TableInside(table: map<Str, nat>, n: nat)
    requires n < TWO63 && forall x :: x in table ==> table[x] < n
    ensures forall x :: x in table ==> table[x] < TWO63
  {
  }

  lemma {:induction false} AllInterned(t: Registry, vs: seq<Value>)
    requires forall i :: 0 <= i < |vs| ==> Interned(t, vs[i])
    ensures InternedAll(t, vs)
  {
    hide StringRefs, FuncRefs, Serializable;
    if vs == [] {
    } else {
      assert Interned(t, vs[0]);
      forall i | 0 <= i < |vs[1..]|
        ensures Interned(t, vs[1..][i])
      {
        assert Interned(t, vs[i + 1]);
      }
      AllInterned(t, vs[1..]);
    }
  }

  lemma CoveredRecord(c: ChunkData, keys: set<Str>)
    requires ChunkStrings(c) <= keys
    ensures forall i :: 0 <= i < |c.sourceMap| ==> c.sourceMap[i].file in keys
    ensures forall i :: 0 <= i < |c.localVars| ==> c.localVars[i].name in keys
  {
    forall i | 0 <= i < |c.sourceMap|
      ensures c.sourceMap[i].file in keys
    {
      assert c.sourceMap[i] in c.sourceMap;
      assert c.sourceMap[i].file in ChunkStrings(c);
    }
    forall i | 0 <= i < |c.localVars|
      ensures c.localVars[i].name in keys
    {
      assert c.localVars[i] in c.localVars;
      assert c.localVars[i].name in ChunkStrings(c);
    }
  }

  lemma BuiltFits(t: Registry, live: nat -> ChunkData, consts: seq<Value>, m: Module, w: WriteIndex)
    requires TablesOk(t, live) && |t.strings| < TWO63 && forall i :: 0 <= i < |consts| ==> Interned(t, consts[i])
    requires w.strs.Keys == t.strIndex.Keys && forall s :: s in t.strIndex ==> w.strs[s] == t.strIndex[s]
    requires Countable(m) && m.strings == t.strings && m.chunks == t.chunks && m.consts == consts && m.ranges == []
    requires forall x :: x in m.nsTable ==> x in t.strIndex
    ensures (Fits(m, w) <==> SerializableAll(consts)) && TableMatches(w, m.strings)
  {
    hide Interned, StringRefsAll, ShapedAll, SerializableAll, ChunkStrings, FuncRefsAll;
    AllInterned(t, consts);
    forall i | 0 <= i < |m.chunks|
      ensures RecordFits(m.chunks[i], w) && LocalsFit(m.chunks[i].localVars, w)
    {
      assert ChunkCountable(m.chunks[i]);
      CoveredRecord(m.chunks[i], t.strIndex.Keys);
    }
  }

  lemma FitsConsts(m: Module, w: WriteIndex)
    requires Fits(m, w)
    ensures WritableAll(m.consts, w)
  {
    hide RecordsFit, RangesFit, TablesFit, StringsFit, ShapedAll, SerializableAll, StringRefsAll;
  }

  /** For no entry do two function constants of its range share a chunk. */
  ghost predicate NothingShared(b: Bundle, rs: seq<NSRange>) {
    forall i :: 0 <= i < |rs| ==> rs[i].name in b.spans && NoSharedChunk(b.prog, b.spans[rs[i].name])
  }

  lemma TableSound(b: Bundle, rs: seq<NSRange>, owners: seq<nat>)
    requires |b.names| == |b.prog.mains| && Emitted(b, |b.names|, rs, owners)
    requires ValidRanges(rs, |b.prog.code|, |b.prog.consts|) && NothingShared(b, rs)
    ensures SoundTable(b, rs, owners)
  {
    hide NoSharedChunk, EntryFor, Unqualified, ValidRanges;
  }

  lemma NamesIn(names: seq<Str>, keys: set<Str>)
    requires Enumerates(names, keys)
    ensures (forall i :: 0 <= i < |names| ==> names[i] in keys) && (forall x :: x in keys ==> x in names)
    ensures forall i, j :: 0 <= i < j < |names| ==> names[i] != names[j]
  {
    hide StrLess;
    forall i, j | 0 <= i < j < |names|
      ensures names[i] != names[j]
    {
      StrLessTotal(names[i], names[j]);
    }
  }

  /** What nsRanges looks at. */
  function ProgramOf(chunks: seq<ChunkData>, consts: seq<Value>, index: map<nat, nat>, base: nat, table: map<Str, nat>,
                     names: seq<Str>): (g: Program)
    requires forall i :: 0 <= i < |names| ==> names[i] in table
    ensures g.consts == consts && g.index == index && |g.code| == |chunks| && |g.mains| == |names|
    ensures forall i :: 0 <= i < |chunks| ==> g.code[i] == chunks[i].code
    ensures forall i :: 0 <= i < |names| ==> g.mains[i] == table[names[i]]
  {
    Program(seq(|chunks|, i requires 0 <= i < |chunks| => chunks[i].code), consts, index, base,
            seq(|names|, i requires 0 <= i < |names| => table[names[i]]))
  }

  /** The bundle that is analysed is what the builder has collected. */
  ghost predicate Describes(b: Bundle, t: Registry, consts: seq<Value>, table: map<Str, nat>, spans: map<Str,
                            ConstRange>) {
    && b.spans == spans && Enumerates(b.names, table.Keys)
    && WellFormed(b.prog) && b.prog.consts == consts && b.prog.index == t.chunkIndex
    && |b.prog.code| == |t.chunks| && (forall i :: 0 <= i < |t.chunks| ==> b.prog.code[i] == t.chunks[i].code)
    && |b.names| == |b.prog.mains| && (forall x :: x in b.names <==> x in table)
    && (forall i, j :: 0 <= i < j < |b.names| ==> b.names[i] != b.names[j])
    && (forall i :: 0 <= i < |b.names| ==> b.names[i] in table && b.prog.mains[i] == table[b.names[i]])
  }

  /** The module's range table is that of the bundle. */
  ghost predicate Derives(m: Module, b: Bundle, owners: seq<nat>, t: Registry, consts: seq<Value>, table: map<Str, nat>,
                          spans: map<Str, ConstRange>) {
    && m.ranges != [] && Describes(b, t, consts, table, spans) && Emitted(b, |b.names|, m.ranges, owners)
    && ValidRanges(m.ranges, |b.prog.code|, |b.prog.consts|)
  }

  /** The range table adds nothing the string table lacks. */
  lemma RangesWritten(built: Module, m: Module, b: Bundle, owners: seq<nat>, t: Registry, consts: seq<Value>,
                      table: map<Str, nat>, spans: map<Str, ConstRange>, w: WriteIndex)
    requires Derives(m, b, owners, t, consts, table, spans) && m == built.(ranges := m.ranges, flags := m.flags)
    requires m.flags == built.flags.(nsRanges := true) && !built.flags.nsRanges && built.ranges == []
    requires Countable(m) && forall x :: x in table ==> x in w.strs
    ensures Countable(built) && (Fits(m, w) <==> Fits(built, w))
  {
    hide Qualifies, RunsAre, Unqualified, ValidRanges, ConstsFit, RecordsFit, TablesFit, StringsFit, ChunksCountable;
    forall i | 0 <= i < |m.ranges|
      ensures RangeFits(m.ranges[i], w)
    {
      assert EntryFor(b, owners[i], m.ranges[i]);
      assert m.ranges[i].name in b.names;
    }
  }

  /** A built module whose constants the writer accepts can be encoded: no chunk reference
      is missing either. */
  lemma BuiltEncodable(t: Registry, live: nat -> ChunkData, m: Module, w: WriteIndex, valid: TextParsers)
    requires TablesOk(t, live) && |t.chunks| < TWO63 && forall i :: 0 <= i < |m.consts| ==> Interned(t, m.consts[i])
    requires w.chunks.Keys == t.chunkIndex.Keys && forall c :: c in t.chunkIndex ==> w.chunks[c] == t.chunkIndex[c]
    requires m.chunks == t.chunks && Fits(m, w) && TableMatches(w, m.strings) && CanonicalAll(m.consts, valid)
    requires CapsSupported(m.caps)
    ensures Encodable(m, w, valid)
  {
    hide Interned, FuncRefsAll, CanonicalAll, StringRefsAll, RecordsFit, TablesFit, RangesFit, StringsFit;
    RefsIndexed(t, m.consts);
    forall c | c in FuncRefsAll(m.consts)
      ensures c in w.chunks && w.chunks[c] < |m.chunks|
    {
      ChunkInside(t, live, c);
    }
  }

  lemma BuiltCompiled(t: Registry, live: nat -> ChunkData, table: map<Str, nat>, spans: map<Str, ConstRange>, m: Module,
                      w: WriteIndex, b: Bundle, owners: seq<nat>)
    requires Describes(b, t, m.consts, table, spans) && NothingShared(b, m.ranges)
    requires FuncRefsAll(m.consts) <= t.chunkIndex.Keys
    requires Emitted(b, |b.names|, m.ranges, owners) && ValidRanges(m.ranges, |b.prog.code|, |b.prog.consts|)
    requires m.flags.nsRanges && m.chunks == t.chunks
    requires m.nsTable.Keys == table.Keys && forall x :: x in table ==> m.nsTable[x] == table[x]
    requires w.chunks.Keys == t.chunkIndex.Keys && forall c :: c in t.chunkIndex ==> w.chunks[c] == t.chunkIndex[c]
    ensures Compiled(m, w, b, owners)
  {
    hide Emitted, ValidRanges, NothingShared, SoundTable, WellFormed, FuncRefsAll;
    TableSound(b, m.ranges, owners);
  }

  lemma ProgramOk(t: Registry, live: nat -> ChunkData, g: Program)
    requires TablesOk(t, live) && g.index == t.chunkIndex && |g.code| == |t.chunks|
    requires forall n :: 0 <= n < |g.mains| ==> g.mains[n] < |g.code|
    ensures WellFormed(g)
  {
  }

  lemma RefsIndexed(t: Registry, vs: seq<Value>)
    requires SerializableAll(vs) && forall i :: 0 <= i < |vs| ==> Interned(t, vs[i])
    ensures FuncRefsAll(vs) <= t.chunkIndex.Keys
  {
    hide Interned, StringRefsAll, FuncRefsAll;
    AllInterned(t, vs);
  }
}
