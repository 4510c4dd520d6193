/** Constant values and their tagged encoding: the writer, the reader and the
    skipper as functions on byte sequences. */
module Values {
  import opened Wire

  datatype TextKind = String | Keyword | Symbol | Uuid | Instant | Regex
  datatype CollKind = List | Vector | Set

  /** A constant.  A function names its chunk by an identity: the live chunk when
      it is about to be written, the chunk index once it has been read.  `Absent`
      is Go's nil, which a record holds in a fixed field that was never set.  Maps
      are flat key, value, key, value sequences in iteration order. */
  datatype Value =
    | Nil | True | False | Void | EmptyList
    | Int(i: I64)
    | Float(bits: U64)
    | Char(c: I32)
    | BigInt(n: int)
    | Text(kind: TextKind, text: Str)
    | Func(chunk: nat, arity: I64, variadic: bool, name: Str)
    | VarRef(ns: Str, name: Str)
    | RecordType(ns: Str, name: Str, fields: seq<Str>)
    | Coll(coll: CollKind, items: seq<Value>)
    | Map(items: seq<Value>)
    | DefMeta(items: seq<Value>)
    | Record(ns: Str, name: Str, fields: seq<Str>, fixed: seq<Value>, extra: seq<Value>)
    | DType(ns: Str, name: Str, fields: seq<Str>, fixed: seq<Value>)
    | Atom(inner: Value)
    | Absent

  /** The chunks of the function constants inside v, at any depth. */
  function FuncRefs(v: Value): set<nat>
    decreases v, 0
  {
    match v
    case Func(c, _, _, _) => {c}
    case Coll(_, items) => FuncRefsAll(items)
    case Map(items) => FuncRefsAll(items)
    case DefMeta(items) => FuncRefsAll(items)
    case Record(_, _, _, fixed, extra) => FuncRefsAll(fixed) + FuncRefsAll(extra)
    case DType(_, _, _, fixed) => FuncRefsAll(fixed)
    case Atom(inner) => FuncRefs(inner)
    case _ => {}
  }

  function FuncRefsAll(vs: seq<Value>): set<nat>
    decreases vs, 1
  {
    if vs == [] then {} else FuncRefs(vs[0]) + FuncRefsAll(vs[1..])
  }

  // -------------------------------------------------------------------- tags

  function TextTag(kind: TextKind): Byte {
    match kind
    case String => 0x05
    case Keyword => 0x06
    case Symbol => 0x07
    case Uuid => 0x0B
    case Instant => 0x0C
    case Regex => 0x32
  }

  predicate IsTextTag(id: Byte) {
    0x05 <= id <= 0x07 || id == 0x0B || id == 0x0C || id == 0x32
  }

  function CollTag(coll: CollKind): Byte {
    match coll
    case List => 0x21
    case Vector => 0x22
    case Set => 0x24
  }

  predicate KnownTag(id: Byte) {
    id <= 0x0C || id == 0x10 || id == 0x11 || 0x20 <= id <= 0x24 || 0x30 <= id <= 0x34
  }

  predicate VersionSupported(id: Byte, ver: Byte) {
    ver == 0 || (ver == 1 && (id == 0x23 || id == 0x30 || id == 0x31))
  }

  /** A tag whose payload holds no further value. */
  predicate LeafTag(id: Byte) {
    id <= 0x11 || id == 0x20 || id == 0x30 || id == 0x32
  }

  predicate Leaf(v: Value) {
    !(v.Coll? || v.Map? || v.DefMeta? || v.Record? || v.DType? || v.Atom? || v.Absent?)
  }

  // ----------------------------------------------------------------- writing

  /** The encoder's indexes: string table positions, and chunk positions found by
      findChunkIndex. */
  datatype WriteIndex = WriteIndex(strs: map<Str, U64>, chunks: map<nat, U64>) {
    /** uint64 of findChunkIndex, which is -1 for an unknown chunk. */
    function ChunkRef(c: nat): U64 {
      if c in chunks then chunks[c] else TWO64 - 1
    }
  }

  /** The strings writeValue refers to. */
  function StringRefs(v: Value): set<Str>
    decreases v, 0
  {
    match v
    case Text(_, text) => {text}
    case Func(_, _, _, name) => {name}
    case VarRef(ns, name) => {ns, name}
    case RecordType(ns, name, fields) => TypeStrings(ns, name, fields)
    case Coll(_, items) => StringRefsAll(items)
    case Map(items) => StringRefsAll(items)
    case DefMeta(items) => StringRefsAll(items)
    case Record(ns, name, fields, fixed, extra) =>
      TypeStrings(ns, name, fields) + StringRefsAll(fixed) + StringRefsAll(extra)
    case DType(ns, name, fields, fixed) => TypeStrings(ns, name, fields) + StringRefsAll(fixed)
    case Atom(inner) => StringRefs(inner)
    case _ => {}
  }

  function StringRefsAll(vs: seq<Value>): set<Str>
    decreases vs, 1
  {
    if vs == [] then {} else StringRefs(vs[0]) + StringRefsAll(vs[1..])
  }

  /** An empty namespace is not written. */
  function TypeStrings(ns: Str, name: Str, fields: seq<Str>): set<Str> {
    (if ns == [] then {} else {ns}) + {name} + (set f | f in fields)
  }

  /** What Go guarantees of a value: slice lengths fit an int, maps and records
      have as many values as keys and fields, a list that holds nothing is the
      empty list. */
  predicate Shaped(v: Value)
    decreases v, 0
  {
    match v
    case BigInt(n) => |Magnitude(if n < 0 then -n else n)| < TWO63
    case RecordType(_, _, fields) => |fields| < TWO63
    case Coll(coll, items) => |items| < TWO63 && (coll.List? ==> items != []) && ShapedAll(items)
    case Map(items) => |items| < TWO63 && |items| % 2 == 0 && ShapedAll(items)
    case DefMeta(items) => |items| < TWO63 && ShapedAll(items)
    case Record(_, _, fields, fixed, extra) =>
      |fields| == |fixed| < TWO63 && |extra| < TWO63 && |extra| % 2 == 0
      && ShapedAll(fixed) && ShapedAll(extra)
    case DType(_, _, fields, fixed) => |fields| == |fixed| < TWO63 && ShapedAll(fixed)
    case Atom(inner) => Shaped(inner)
    case _ => true
  }

  predicate ShapedAll(vs: seq<Value>)
    decreases vs, 1
  {
    vs == [] || (Shaped(vs[0]) && ShapedAll(vs[1..]))
  }

  /** The values writeValue does not refuse: not Go's nil, not an instance of a
      type no deftype made, not def metadata with a key left over. */
  predicate Serializable(v: Value)
    decreases v, 0
  {
    match v
    case Absent => false
    case Coll(_, items) => SerializableAll(items)
    case Map(items) => SerializableAll(items)
    case DefMeta(items) => |items| % 2 == 0 && SerializableAll(items)
    case Record(_, _, _, fixed, extra) => SerializableFields(fixed) && SerializableAll(extra)
    case DType(ns, _, _, fixed) => ns != [] && SerializableAll(fixed)
    case Atom(inner) => Serializable(inner)
    case _ => true
  }

  predicate SerializableAll(vs: seq<Value>)
    decreases vs, 1
  {
    vs == [] || (Serializable(vs[0]) && SerializableAll(vs[1..]))
  }

  predicate SerializableFields(vs: seq<Value>)
    decreases vs, 1
  {
    vs == [] || ((vs[0].Absent? || Serializable(vs[0])) && SerializableFields(vs[1..]))
  }

  function PutStr(s: Str, w: WriteIndex, k: Bytes): Bytes
    requires s in w.strs
  {
    PutVarint(w.strs[s], k)
  }

  function PutStrs(ss: seq<Str>, w: WriteIndex, k: Bytes): Bytes
    requires forall s :: s in ss ==> s in w.strs
  {
    if ss == [] then k else PutStr(ss[0], w, PutStrs(ss[1..], w, k))
  }

  /** A record or record type's header: version 1 leads with the namespace. */
  function PutType(id: Byte, ns: Str, name: Str, fields: seq<Str>, w: WriteIndex, k: Bytes): Bytes
    requires id < 0x40 && TypeStrings(ns, name, fields) <= w.strs.Keys && |fields| < TWO63
  {
    var body := PutStr(name, w, PutVarint(|fields|, PutStrs(fields, w, k)));
    if ns == [] then [id] + body else [id + 0x40] + PutStr(ns, w, body)
  }

  /** A deftype instance's namespace, name and field symbols. */
  function PutDTypeHead(ns: Str, name: Str, fields: seq<Str>, w: WriteIndex, k: Bytes): Bytes
    requires {ns, name} + (set f | f in fields) <= w.strs.Keys && |fields| < TWO63
  {
    PutStr(ns, w, PutStr(name, w, PutVarint(|fields|, PutStrs(fields, w, k))))
  }

  /** A sign byte and a counted magnitude. */
  function PutBigInt(n: int, k: Bytes): Bytes
    requires |Magnitude(if n < 0 then -n else n)| < TWO63
  {
    var m := Magnitude(if n < 0 then -n else n);
    [if n < 0 then 1 else 0] + PutVarint(|m|, m + k)
  }

  function PutFunc(c: nat, arity: I64, variadic: bool, name: Str, w: WriteIndex, k: Bytes): Bytes
    requires name in w.strs
  {
    PutVarint(w.ChunkRef(c), PutInt(arity, [if variadic then 1 else 0] + PutStr(name, w, k)))
  }

  function PutLeaf(v: Value, w: WriteIndex, k: Bytes): Bytes
    requires Leaf(v) && Shaped(v) && StringRefs(v) <= w.strs.Keys
  {
    match v
    case Nil => [0x00] + k
    case True => [0x01] + k
    case False => [0x02] + k
    case Void => [0x0A] + k
    case EmptyList => [0x20] + k
    case Int(i) => [0x03] + PutSvarint(i, k)
    case Float(bits) => [0x04] + PutLE(bits, 8, k)
    case Char(c) => [0x08] + PutI32(c, k)
    case BigInt(n) => [0x09] + PutBigInt(n, k)
    case Text(kind, text) => [TextTag(kind)] + PutStr(text, w, k)
    case Func(c, arity, variadic, name) => [0x10] + PutFunc(c, arity, variadic, name, w, k)
    case VarRef(ns, name) => [0x11] + PutStr(ns, w, PutStr(name, w, k))
    case RecordType(ns, name, fields) => PutType(0x30, ns, name, fields, w, k)
  }

  ghost predicate Writable(v: Value, w: WriteIndex) {
    Shaped(v) && Serializable(v) && StringRefs(v) <= w.strs.Keys
  }

  ghost predicate WritableAll(vs: seq<Value>, w: WriteIndex) {
    ShapedAll(vs) && SerializableAll(vs) && StringRefsAll(vs) <= w.strs.Keys
  }

  /** writeValue */
  ghost function PutValue(v: Value, w: WriteIndex, k: Bytes): Bytes
    requires Writable(v, w)
    decreases v, 0
  {
    if Leaf(v) then PutLeaf(v, w, k)
    else
    match v
    case Coll(coll, items) => [CollTag(coll)] + PutVarint(|items|, PutValues(items, w, k))
    case Map(items) => [0x23] + PutVarint(|items| / 2, PutValues(items, w, k))
    case DefMeta(items) => [0x63] + PutVarint(|items| / 2, PutValues(items, w, k))
    case Record(ns, name, fields, fixed, extra) =>
      PutType(0x31, ns, name, fields, w, PutFields(fixed, w, PutVarint(|extra| / 2, PutValues(extra, w, k))))
    case DType(ns, name, fields, fixed) =>
      [0x34] + PutDTypeHead(ns, name, fields, w, PutValues(fixed, w, k))
    case Atom(inner) => [0x33] + PutValue(inner, w, k)
  }

  ghost function PutValues(vs: seq<Value>, w: WriteIndex, k: Bytes): Bytes
    requires WritableAll(vs, w)
    decreases vs, 1
  {
    if vs == [] then k else PutValue(vs[0], w, PutValues(vs[1..], w, k))
  }

  /** A record's fixed fields, an unset one as nil. */
  ghost function PutFields(vs: seq<Value>, w: WriteIndex, k: Bytes): Bytes
    requires ShapedAll(vs) && SerializableFields(vs) && StringRefsAll(vs) <= w.strs.Keys
    decreases vs, 1
  {
    if vs == [] then k
    else
      var rest := PutFields(vs[1..], w, k);
      if vs[0].Absent? then [0x00] + rest else PutValue(vs[0], w, rest)
  }

  // ----------------------------------------------------------------- reading

  /** What a read depends on: the string table, which chunks are decoded, the
      parsers of uuid, instant and regex text, and whether a map count above 2^63 is
      read as the decoder reads it (`wide`) or refused.  At 2^63 reading and skipping
      both take no entry. */
  datatype Env = Env(strings: seq<Str>, live: seq<bool>, valid: (TextKind, Str) -> bool, wide: bool)

  function GetStr(s: Bytes, strings: seq<Str>): (p: Parse<Str>)
    ensures p.Got? ==> |p.rest| < |s|
  {
    var (i, rest) :- GetVarint(s);
    if i >= TWO63 then Fail(Panic)
    else if i >= |strings| then Fail(BadStringRef)
    else Got(strings[i], rest)
  }

  function GetStrs(s: Bytes, n: nat, strings: seq<Str>): (p: Parse<seq<Str>>)
    ensures p.Got? ==> |p.rest| + n <= |s| && |p.val| == n
    decreases n
  {
    if n == 0 then Got([], s)
    else
      var (x, s1) :- GetStr(s, strings);
      var (xs, s2) :- GetStrs(s1, n - 1, strings);
      Got([x] + xs, s2)
  }

  /** readFuncRest, after the chunk index. */
  function GetFunc(s: Bytes, e: Env): (p: Parse<Value>)
    ensures p.Got? ==> |p.rest| < |s|
  {
    var (c, s1) :- GetVarint(s);
    if |e.live| <= c < TWO63 then Fail(BadChunkRef)
    else
      var (arity, s2) :- GetInt(s1);
      var (variadic, s3) :- GetByte(s2);
      var (name, s4) :- GetStr(s3, e.strings);
      if c >= |e.live| then Fail(Panic)
      else if !e.live[c] then Fail(DeferredOutside)
      else Got(Func(c, arity, variadic != 0, name), s4)
  }

  datatype TypeHead = TypeHead(ns: Str, name: Str, fields: seq<Str>)

  /** readRecordTypeV2 */
  function GetType(s: Bytes, ver: Byte, strings: seq<Str>): (p: Parse<TypeHead>)
    ensures p.Got? ==> |p.rest| < |s|
  {
    var (ns, s1) :- if ver == 1 then GetStr(s, strings) else Got([], s);
    var (name, s2) :- GetStr(s1, strings);
    var (n, s3) :- GetVarint(s2);
    if n >= TWO63 then Fail(Panic)
    else
      var (fields, s4) :- GetStrs(s3, n, strings);
      Got(TypeHead(ns, name, fields), s4)
  }

  function TextOf(id: Byte): TextKind {
    if id == 0x05 then String
    else if id == 0x06 then Keyword
    else if id == 0x07 then Symbol
    else if id == 0x0B then Uuid
    else if id == 0x0C then Instant
    else Regex
  }

  function GetText(id: Byte, s: Bytes, e: Env): (p: Parse<Value>)
    ensures p.Got? ==> |p.rest| < |s|
  {
    var (text, rest) :- GetStr(s, e.strings);
    if id >= 0x08 && !e.valid(TextOf(id), text) then Fail(BadText)
    else Got(Text(TextOf(id), text), rest)
  }

  function GetBigInt(s: Bytes): (p: Parse<Value>)
    ensures p.Got? ==> |p.rest| < |s|
  {
    var (sign, s1) :- GetByte(s);
    var (len, s2) :- GetVarint(s1);
    var (mag, s3) :- GetBytes(s2, len);
    var n: int := FromMagnitude(mag);
    Got(BigInt(if sign != 0 then -n else n), s3)
  }

  function GetLeaf(id: Byte, ver: Byte, s: Bytes, e: Env): (p: Parse<Value>)
    requires LeafTag(id)
    ensures p.Got? ==> |p.rest| <= |s|
  {
    if id == 0x00 then Got(Nil, s)
    else if id == 0x01 then Got(True, s)
    else if id == 0x02 then Got(False, s)
    else if id == 0x0A then Got(Void, s)
    else if id == 0x20 then Got(EmptyList, s)
    else if id == 0x03 then
      var (i, rest) :- GetSvarint(s);
      Got(Int(i), rest)
    else if id == 0x04 then
      var (bits, rest) :- GetU64(s);
      Got(Float(bits), rest)
    else if id == 0x08 then
      var (c, rest) :- GetI32(s);
      Got(Char(c), rest)
    else if id == 0x09 then GetBigInt(s)
    else if IsTextTag(id) then GetText(id, s, e)
    else if id == 0x10 then GetFunc(s, e)
    else if id == 0x11 then
      var (ns, s1) :- GetStr(s, e.strings);
      var (name, s2) :- GetStr(s1, e.strings);
      Got(VarRef(ns, name), s2)
    else if id == 0x30 then
      var (t, rest) :- GetType(s, ver, e.strings);
      Got(RecordType(t.ns, t.name, t.fields), rest)
    else Fail(BadTag)
  }

  function MakeColl(id: Byte, items: seq<Value>): Value {
    if id == 0x21 then (if items == [] then EmptyList else Coll(List, items))
    else if id == 0x22 then Coll(Vector, items)
    else Coll(Set, items)
  }

  /** The value the last of the first n set fields called f holds. */
  function LastSet(fields: seq<Str>, vals: seq<Value>, f: Str, n: nat): Value
    requires n <= |fields| == |vals|
  {
    if n == 0 then Nil
    else if fields[n - 1] == f && vals[n - 1] != Nil then vals[n - 1]
    else LastSet(fields, vals, f, n - 1)
  }

  /** The value of the last entry of a map under keyword f, nil if there is none. */
  function LookUp(kvs: seq<Value>, f: Str): Value
    decreases |kvs|
  {
    if |kvs| < 2 then Nil
    else if kvs[|kvs| - 2] == Text(Keyword, f) then kvs[|kvs| - 1]
    else LookUp(kvs[..|kvs| - 2], f)
  }

  /** The entries of a map whose key is not one of the field keywords. */
  function DropFields(kvs: seq<Value>, fields: seq<Str>): seq<Value>
    decreases |kvs|
  {
    if |kvs| < 2 then []
    else if kvs[0].Text? && kvs[0].kind == Keyword && kvs[0].text in fields then DropFields(kvs[2..], fields)
    else kvs[..2] + DropFields(kvs[2..], fields)
  }

  /** NewRecord over the extra map with the set fields associated into it. */
  function MakeRecord(t: TypeHead, vals: seq<Value>, extra: seq<Value>): Value
    requires |t.fields| == |vals|
  {
    var fixed := seq(|vals|, i requires 0 <= i < |vals| =>
      var x := LastSet(t.fields, vals, t.fields[i], |vals|);
      var y := if x != Nil then x else LookUp(extra, t.fields[i]);
      if y == Nil then Absent else y);
    Record(t.ns, t.name, t.fields, fixed, DropFields(extra, t.fields))
  }

  /** readValueV2 */
  function GetValue(s: Bytes, e: Env): (p: Parse<Value>)
    ensures p.Got? ==> |p.rest| < |s|
    decreases |s|, 0
  {
    if s == [] then Fail(Eof) else GetTagged(s[0] % 64, s[0] / 64, s[1..], e)
  }

  /** readValueV2Tagged */
  function GetTagged(id: Byte, ver: Byte, s: Bytes, e: Env): (p: Parse<Value>)
    ensures p.Got? ==> |p.rest| <= |s|
    decreases |s|, 4
  {
    if KnownTag(id) && !VersionSupported(id, ver) then Fail(BadTagVersion)
    else if !KnownTag(id) then Fail(BadTag)
    else if LeafTag(id) then GetLeaf(id, ver, s, e)
    else if id == 0x33 then
      var (v, rest) :- GetValue(s, e);
      Got(Atom(v), rest)
    else if id == 0x31 then GetRecord(ver, s, e)
    else if id == 0x34 then GetDType(s, e)
    else if id == 0x23 && ver == 1 then GetDefMeta(s, e)
    else if id == 0x23 then
      var (items, rest) :- GetMapItems(s, e);
      Got(Map(items), rest)
    else
      var (n, s1) :- GetVarint(s);
      if n >= TWO63 then Fail(Panic)
      else
        var (items, s2) :- GetValues(s1, n, e);
        Got(MakeColl(id, items), s2)
  }

  /** readDefMetaPairs: the slice is int(count) * 2 long. */
  function GetDefMeta(s: Bytes, e: Env): (p: Parse<Value>)
    ensures p.Got? ==> |p.rest| <= |s|
    decreases |s|, 3
  {
    var (count, s1) :- GetVarint(s);
    var n := ToI64(count * 2 % TWO64);
    if n < 0 then Fail(Panic)
    else
      var (items, s2) :- GetValues(s1, n, e);
      Got(DefMeta(items), s2)
  }

  /** readMapBatch: room for count * 2 values, then int(count) entries. */
  function GetMapItems(s: Bytes, e: Env): (p: Parse<seq<Value>>)
    ensures p.Got? ==> |p.rest| <= |s|
    decreases |s|, 3
  {
    var (count, s1) :- GetVarint(s);
    if count * 2 % TWO64 >= TWO63 || (!e.wide && count > TWO63) then Fail(Panic)
    else GetValues(s1, if count >= TWO63 then 0 else 2 * count, e)
  }

  function GetRecord(ver: Byte, s: Bytes, e: Env): (p: Parse<Value>)
    ensures p.Got? ==> |p.rest| <= |s|
    decreases |s|, 3
  {
    var (t, s1) :- GetType(s, ver, e.strings);
    var (vals, s2) :- GetValues(s1, |t.fields|, e);
    var (extra, s3) :- GetMapItems(s2, e);
    Got(MakeRecord(t, vals, extra), s3)
  }

  function GetDType(s: Bytes, e: Env): (p: Parse<Value>)
    ensures p.Got? ==> |p.rest| <= |s|
    decreases |s|, 3
  {
    var (ns, s1) :- GetStr(s, e.strings);
    var (t, s2) :- GetType(s1, 0, e.strings);
    var (vals, s3) :- GetValues(s2, |t.fields|, e);
    Got(DType(ns, t.name, t.fields, vals), s3)
  }

  function GetValues(s: Bytes, n: nat, e: Env): (p: Parse<seq<Value>>)
    ensures p.Got? ==> |p.rest| + n <= |s| && |p.val| == n
    decreases |s|, 1
  {
    if n == 0 then Got([], s)
    else
      var (v, s1) :- GetValue(s, e);
      var (vs, s2) :- GetValues(s1, n - 1, e);
      Got([v] + vs, s2)
  }

  // ---------------------------------------------------------------- skipping

  function ScanVarints(s: Bytes, n: nat): (p: Parse<()>)
    ensures p.Got? ==> |p.rest| + n <= |s|
    decreases n
  {
    if n == 0 then Got((), s)
    else
      var (_, rest) :- GetVarint(s);
      ScanVarints(rest, n - 1)
  }

  /** skipValueV2, together with the chunk indices of the function records it
      passes over: where it stops is where the skipper stops. */
  function Scan(s: Bytes): (p: Parse<set<nat>>)
    ensures p.Got? ==> |p.rest| < |s|
    decreases |s|, 0
  {
    if s == [] then Fail(Eof) else ScanTagged(s[0] % 64, s[0] / 64, s[1..])
  }

  function ScanLeaf(id: Byte, ver: Byte, s: Bytes): (p: Parse<set<nat>>)
    requires LeafTag(id)
    ensures p.Got? ==> |p.rest| <= |s|
  {
    if id <= 0x02 || id == 0x0A || id == 0x20 then Got({}, s)
    else if id == 0x03 then
      var (_, rest) :- GetSvarint(s);
      Got({}, rest)
    else if id == 0x04 then
      var (_, rest) :- GetSkip(s, 8);
      Got({}, rest)
    else if id == 0x08 then
      var (_, rest) :- GetSkip(s, 4);
      Got({}, rest)
    else if id == 0x09 then
      var (_, s1) :- GetByte(s);
      var (n, s2) :- GetInt(s1);
      var (_, s3) :- GetSkip(s2, n);
      Got({}, s3)
    else if IsTextTag(id) then
      var (_, rest) :- ScanVarints(s, 1);
      Got({}, rest)
    else if id == 0x10 then
      var (c, s1) :- GetVarint(s);
      var (_, s2) :- GetVarint(s1);
      var (_, s3) :- GetByte(s2);
      var (_, s4) :- GetVarint(s3);
      Got({c}, s4)
    else if id == 0x11 then
      var (_, rest) :- ScanVarints(s, 2);
      Got({}, rest)
    else if id == 0x30 then
      var (_, rest) :- ScanType(s, ver);
      Got({}, rest)
    else Fail(BadTag)
  }

  /** The header of a record or record type; the result is the field count. */
  function ScanType(s: Bytes, ver: Byte): (p: Parse<U64>)
    ensures p.Got? ==> |p.rest| < |s|
  {
    var (_, s1) :- ScanVarints(s, 1 + ver);
    var (n, s2) :- GetVarint(s1);
    var (_, s3) :- ScanVarints(s2, if n >= TWO63 then 0 else n);
    Got(n, s3)
  }

  function ScanTagged(id: Byte, ver: Byte, s: Bytes): (p: Parse<set<nat>>)
    ensures p.Got? ==> |p.rest| <= |s|
    decreases |s|, 4
  {
    if KnownTag(id) && !VersionSupported(id, ver) then Fail(BadTagVersion)
    else if !KnownTag(id) then Fail(BadTag)
    else if LeafTag(id) then ScanLeaf(id, ver, s)
    else if id == 0x33 then Scan(s)
    else if id == 0x31 then
      var (n, s1) :- ScanType(s, ver);
      var (r1, s2) :- ScanValues(s1, n);
      var (r2, s3) :- ScanPairs(s2);
      Got(r1 + r2, s3)
    else if id == 0x34 then
      var (n, s1) :- ScanType(s, 1);
      ScanValues(s1, n)
    else if id == 0x23 then ScanPairs(s)
    else
      var (n, s1) :- GetVarint(s);
      ScanValues(s1, n)
  }

  /** The payload of a map or of def metadata: count * 2 values. */
  function ScanPairs(s: Bytes): (p: Parse<set<nat>>)
    ensures p.Got? ==> |p.rest| < |s|
    decreases |s|, 3
  {
    var (count, s1) :- GetVarint(s);
    ScanValues(s1, count * 2 % TWO64)
  }

  function ScanValues(s: Bytes, n: nat): (p: Parse<set<nat>>)
    ensures p.Got? ==> |p.rest| + n <= |s|
    decreases |s|, 1
  {
    if n == 0 then Got({}, s)
    else
      var (r, s1) :- Scan(s);
      var (rs, s2) :- ScanValues(s1, n - 1);
      Got(r + rs, s2)
  }
}
