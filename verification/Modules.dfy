/** Whole modules: header, capabilities, optional compression, body; and what decoding
    an encoded module gives back. */
module Modules {
  import opened Wire
  import opened Values
  import opened ValueProofs
  import opened Chunks
  import opened Sections
  import opened Sorting

  // ------------------------------------------------------------ flags, header

  datatype Flags = Flags(constsBase: bool, capabilities: bool, localVars: bool,
                         compressed: bool, debugSplit: bool, nsRanges: bool)

  function Bit(b: bool): nat {
    if b then 1 else 0
  }

  function Octal(a: bool, b: bool, c: bool): (n: nat)
    ensures n < 8
  {
    Bit(a) + 2 * Bit(b) + 4 * Bit(c)
  }

  /** The flag word: constsBase is bit 0, nsRanges bit 5. */
  function FlagBits(f: Flags): (n: nat)
    ensures n < 64
  {
    Octal(f.constsBase, f.capabilities, f.localVars) + 8 * Octal(f.compressed, f.debugSplit, f.nsRanges)
  }

  predicate BitSet(n: nat, i: nat)
    requires n < 8
  {
    if i == 0 then n in {1, 3, 5, 7} else if i == 1 then n in {2, 3, 6, 7} else n >= 4
  }

  function FlagsOf(n: nat): Flags
    requires n < 64
  {
    var lo, hi := n % 8, n / 8;
    Flags(BitSet(lo, 0), BitSet(lo, 1), BitSet(lo, 2), BitSet(hi, 0), BitSet(hi, 1), BitSet(hi, 2))
  }

  lemma FlagsRoundTrip(f: Flags)
    ensures FlagsOf(FlagBits(f)) == f
  {
    OctalRoundTrip(f.constsBase, f.capabilities, f.localVars);
    OctalRoundTrip(f.compressed, f.debugSplit, f.nsRanges);
    hide Octal, BitSet;
  }

  lemma OctalRoundTrip(a: bool, b: bool, c: bool)
    ensures var n := Octal(a, b, c); BitSet(n, 0) == a && BitSet(n, 1) == b && BitSet(n, 2) == c
  {
  }

  /** encodeFormatVersion: the least format version that admits every flag set. */
  function FormatVersion(f: Flags): nat {
    if f.compressed || f.debugSplit then 3 else 2
  }

  /** An opcode set's signature: its size and the hash of its mnemonics. */
  datatype Sig = Sig(count: U64, hash: U64)

  /** The runtime's opcode set, and the old one it can migrate. */
  datatype Runtime = Runtime(running: Sig, former: Sig)

  /** resolveOpcodeSet: None on a mismatch no migration bridges, else whether the code
      must be migrated. */
  function ResolveOpcodes(sig: Sig, rt: Runtime): Option<bool> {
    if sig == rt.running then Some(false)
    else if sig == rt.former then Some(true)
    else None
  }

  const MAGIC: Bytes := [0x4C, 0x47, 0x42, 0x01]
  const CAP_OPCODE_SET: nat := 1
  const SUPPORTED_CAPS: nat := 3

  /** Capability masks are sets of bits; only the two low ones are known. */
  predicate CapsSupported(caps: nat) {
    caps <= SUPPORTED_CAPS
  }

  predicate HasOpcodeSet(caps: nat) {
    caps % 2 == CAP_OPCODE_SET
  }

  function PutCaps(f: Flags, caps: nat, rt: Runtime, k: Bytes): Bytes {
    if !f.capabilities then k
    else PutLE(caps, 4, if HasOpcodeSet(caps) then PutVarint(rt.running.count, PutLE(rt.running.hash, 8, k)) else k)
  }

  function PutHeader(f: Flags, caps: nat, rt: Runtime, k: Bytes): Bytes {
    MAGIC + PutLE(FormatVersion(f), 2, PutLE(FlagBits(f), 2, PutCaps(f, caps, rt, k)))
  }

  datatype Header = Header(version: nat, flags: Flags, caps: nat, migrate: bool)

  function GetSig(s: Bytes): (p: Parse<Sig>)
    ensures p.Got? ==> |p.rest| < |s|
  {
    var (n, s1) :- GetVarint(s);
    var (h, s2) :- GetU64(s1);
    Got(Sig(n, h), s2)
  }

  /** readCapabilities: a bundle without them carries the old opcode set. */
  function GetCaps(version: nat, f: Flags, s: Bytes, rt: Runtime): (p: Parse<Header>)
    ensures p.Got? ==> |p.rest| <= |s| && p.val.version == version && p.val.flags == f
  {
    if !f.capabilities then
      match ResolveOpcodes(rt.former, rt)
      case None => Fail(OpcodeMismatch)
      case Some(migrate) => Got(Header(version, f, 0, migrate), s)
    else
      var (caps, s1) :- GetLE(s, 4);
      if !CapsSupported(caps) then Fail(BadCapabilities)
      else if !HasOpcodeSet(caps) then Got(Header(version, f, caps, false), s1)
      else
        var (sig, s2) :- GetSig(s1);
        match ResolveOpcodes(sig, rt)
        case None => Fail(OpcodeMismatch)
        case Some(migrate) => Got(Header(version, f, caps, migrate), s2)
  }

  /** The flags a format version admits. */
  predicate FlagsAdmitted(version: nat, bits: nat) {
    bits < 64 && (version == 3 || (!FlagsOf(bits).compressed && !FlagsOf(bits).debugSplit))
  }

  /** readHeader and readCapabilities, for the format versions that have capabilities. */
  function GetHeader(s: Bytes, rt: Runtime): (p: Parse<Header>)
    ensures p.Got? ==> |p.rest| < |s|
  {
    if |s| < 4 then Fail(Eof)
    else if s[..4] != MAGIC then Fail(BadMagic)
    else
      var (version, s1) :- GetLE(s[4..], 2);
      var (bits, s2) :- GetLE(s1, 2);
      if version != 2 && version != 3 then Fail(BadVersion)
      else if !FlagsAdmitted(version, bits) then Fail(BadFlags)
      else GetCaps(version, FlagsOf(bits), s2, rt)
  }

  /** On rt, the code of a bundle that another runtime wrote is of the old opcode set: the
      bundle has no capabilities, or the signature of that set. */
  predicate Former(f: Flags, caps: nat, writer: Sig, rt: Runtime) {
    rt.former != rt.running && (!f.capabilities || (caps % 2 == 1 && writer == rt.former))
  }

  /** Its opcode set is neither rt's own nor the old one. */
  predicate Foreign(f: Flags, caps: nat, writer: Sig, rt: Runtime) {
    f.capabilities && caps % 2 == 1 && writer != rt.running && writer != rt.former
  }

  lemma CapsRoundTrip(version: nat, f: Flags, caps: nat, wr: Runtime, rt: Runtime, k: Bytes)
    requires CapsSupported(caps)
    ensures GetCaps(version, f, PutCaps(f, caps, wr, k), rt)
         == if Foreign(f, caps, wr.running, rt) then Fail(OpcodeMismatch)
            else Got(Header(version, f, if f.capabilities then caps else 0, Former(f, caps, wr.running, rt)), k)
  {
    hide GetVarint, PutVarint, GetLE, PutLE, GetU64;
    Pow256Widths();
    U64RoundTrip(wr.running.hash, k);
    var t := PutLE(wr.running.hash, 8, k);
    VarintRoundTrip(wr.running.count, t);
    LERoundTrip(caps, 4, k);
    LERoundTrip(caps, 4, PutVarint(wr.running.count, t));
  }

  /** A header that the runtime `wr` wrote, read on rt: it is refused exactly when its
      opcode set is foreign there; else it asks for a migration exactly when its code is of
      the old set, and leaves exactly the body. */
  lemma HeaderRoundTrip(f: Flags, caps: nat, wr: Runtime, rt: Runtime, k: Bytes)
    requires CapsSupported(caps)
    ensures GetHeader(PutHeader(f, caps, wr, k), rt)
         == if Foreign(f, caps, wr.running, rt) then Fail(OpcodeMismatch)
            else Got(Header(FormatVersion(f), f, if f.capabilities then caps else 0,
                            Former(f, caps, wr.running, rt)), k)
  {
    hide GetLE, PutLE, FlagBits, FlagsOf, GetCaps, PutCaps, Former, Foreign;
    Pow256Widths();
    FlagsRoundTrip(f);
    var s3 := PutCaps(f, caps, wr, k);
    var s2 := PutLE(FlagBits(f), 2, s3);
    var s1 := PutLE(FormatVersion(f), 2, s2);
    LERoundTrip(FlagBits(f), 2, s3);
    LERoundTrip(FormatVersion(f), 2, s2);
    CapsRoundTrip(FormatVersion(f), f, caps, wr, rt, k);
    assert (MAGIC + s1)[..4] == MAGIC && (MAGIC + s1)[4..] == s1;
  }

  /** A capability mask with a bit this runtime does not know is refused, whatever else the
      header says; a known one never is. */
  lemma UnknownCaps(f: Flags, caps: nat, wr: Runtime, rt: Runtime, k: Bytes)
    requires caps < 0x1_0000_0000
    ensures GetHeader(PutHeader(f, caps, wr, k), rt) == Fail(BadCapabilities) <==> f.capabilities && caps / 4 > 0
  {
    hide GetLE, PutLE, FlagBits, FlagsOf, GetVarint, PutVarint, GetU64;
    if f.capabilities && caps >= 4 {
      Pow256Widths();
      FlagsRoundTrip(f);
      var s3 := PutCaps(f, caps, wr, k);
      var s2 := PutLE(FlagBits(f), 2, s3);
      LERoundTrip(caps, 4, if caps % 2 == 1 then PutVarint(wr.running.count, PutLE(wr.running.hash, 8, k)) else k);
      LERoundTrip(FlagBits(f), 2, s3);
      LERoundTrip(FormatVersion(f), 2, s2);
      assert PutHeader(f, caps, wr, k)[..4] == MAGIC && PutHeader(f, caps, wr, k)[4..] == PutLE(FormatVersion(f), 2, s2);
    } else {
      KnownCaps(f, caps, wr, rt, k);
    }
  }

  lemma KnownCaps(f: Flags, caps: nat, wr: Runtime, rt: Runtime, k: Bytes)
    requires caps < 0x1_0000_0000 && (f.capabilities ==> caps < 4)
    ensures GetHeader(PutHeader(f, caps, wr, k), rt) != Fail(BadCapabilities)
  {
    hide GetHeader, PutLE, FlagBits;
    var known := if f.capabilities then caps else 0;
    assert PutHeader(f, caps, wr, k) == PutHeader(f, known, wr, k);
    HeaderRoundTrip(f, known, wr, rt, k);
  }

  // ------------------------------------------------------------------ modules

  /** The serializable unit.  `version` is what a decode reports; the encoder picks
      it from the flags. */
  datatype Module = Module(version: nat, flags: Flags, caps: nat, strings: seq<Str>, chunks: seq<ChunkData>,
                           consts: seq<Value>, base: I64, nsTable: map<Str, I64>, ranges: seq<NSRange>)

  /** The text parsers and the constants' other surroundings at decode. */
  type TextParsers = (TextKind, Str) -> bool

  function AllLiveEnv(strings: seq<Str>, n: nat, valid: TextParsers, wide: bool): Env {
    Env(strings, seq(n, i => true), valid, wide)
  }

  /** Sizes fit Go ints, the index finds every string the writer asks for, and every
      constant is one the writer accepts. */
  ghost predicate Fits(m: Module, w: WriteIndex) {
    && StringsFit(m.strings) && (m.flags.nsRanges ==> RangesFit(m.ranges, w)) && RecordsFit(m.chunks, w)
    && ConstsFit(m.consts, w) && m.nsTable.Keys <= w.strs.Keys && (m.flags.localVars ==> TablesFit(m.chunks, w))
  }

  /** The module can be written, and holds together: the index is that of its string
      table, and its constants refer only to its chunks. */
  ghost predicate Encodable(m: Module, w: WriteIndex, valid: TextParsers) {
    && Fits(m, w) && TableMatches(w, m.strings) && CanonicalAll(m.consts, valid)
    && RefsLive(FuncRefsAll(m.consts), w, AllLiveEnv(m.strings, |m.chunks|, valid, true))
    && CapsSupported(m.caps)
  }

  lemma EncodableFits(m: Module, w: WriteIndex, valid: TextParsers)
    requires Encodable(m, w, valid)
    ensures Fits(m, w) && CapsSupported(m.caps)
  {
  }

  /** The namespaces of the module, in string order. */
  ghost predicate Lists(names: seq<Str>, m: Module) {
    Enumerates(names, m.nsTable.Keys) && |names| < TWO63
  }

  /** writeBody */
  ghost function PutBody(m: Module, w: WriteIndex, names: seq<Str>, k: Bytes): Bytes
    requires Fits(m, w) && Lists(names, m)
  {
    PutStrings(m.strings, PutRanges(m.flags.nsRanges, m.ranges, w, PutChunks(m.chunks, w, PutTail(m, w, names, k))))
  }

  /** The sections after the chunks. */
  ghost function PutTail(m: Module, w: WriteIndex, names: seq<Str>, k: Bytes): Bytes
    requires Fits(m, w) && Lists(names, m)
  {
    PutConsts(m.flags.constsBase, m.base, m.consts, w,
      PutNSTable(names, m.nsTable, w, if m.flags.localVars then PutLocalTables(m.chunks, w, k) else k))
  }

  function AttachLocals(cs: seq<ChunkData>, tables: seq<seq<LocalVar>>): (r: seq<ChunkData>)
    requires |tables| == |cs|
    ensures |r| == |cs| && forall i :: 0 <= i < |r| ==> r[i] == cs[i].(localVars := tables[i])
  {
    seq(|cs|, i requires 0 <= i < |cs| => cs[i].(localVars := tables[i]))
  }

  /** The body sections of readModuleV2. */
  function GetBody(h: Header, s: Bytes, valid: TextParsers): Parse<Module> {
    var (strings, s1) :- GetStrings(s);
    var (ranges, s2) :- GetRanges(h.flags.nsRanges, s1, strings);
    var (chunks, s3) :- GetChunks(s2, strings);
    var (consts, s4) :- GetModuleConsts(h.flags.constsBase, s3, AllLiveEnv(strings, |chunks|, valid, true));
    var (table, s5) :- GetNSTable(s4, strings);
    if !h.flags.localVars then
      Got(Module(h.version, h.flags, h.caps, strings, chunks, consts.vals, consts.base, table, ranges), s5)
    else
      var (locals, s6) :- GetLocalTables(s5, |chunks|, strings, false);
      Got(Module(h.version, h.flags, h.caps, strings, AttachLocals(chunks, locals),
                 consts.vals, consts.base, table, ranges), s6)
  }

  datatype Consts = Consts(base: I64, vals: seq<Value>)

  /** readConstsV2 */
  function GetModuleConsts(flag: bool, s: Bytes, e: Env): Parse<Consts> {
    var (head, s1) :- GetConstHead(flag, s);
    if head.count >= TWO63 then Fail(Panic)
    else
      var (vals, s2) :- GetValues(s1, head.count, e);
      Got(Consts(head.base, vals), s2)
  }

  /** What a decode of the encoding of m gives: sections whose flag is clear are gone,
      constants are normalised, the version is the encoder's choice. */
  function Decoded(m: Module, w: WriteIndex): Module {
    Module(FormatVersion(m.flags), m.flags, if m.flags.capabilities then m.caps else 0, m.strings,
           if m.flags.localVars then m.chunks else NoLocals(m.chunks),
           NormAll(m.consts, w), if m.flags.constsBase then m.base else 0, m.nsTable,
           if m.flags.nsRanges then m.ranges else [])
  }

  lemma EnumerationSize(names: seq<Str>, keys: set<Str>)
    requires Enumerates(names, keys)
    ensures (set x | x in names) == keys && |names| == |keys|
  {
    hide StrLess;
    assert forall x :: x in names ==> x in keys;
    DistinctSize(names);
  }

  lemma {:induction false} DistinctSize(names: seq<Str>)
    requires forall i, j :: 0 <= i < j < |names| ==> StrLess(names[i], names[j])
    ensures |set x | x in names| == |names|
  {
    hide StrLess;
    if names == [] {
    } else {
      var rest := names[1..];
      DistinctSize(rest);
      assert (set x | x in names) == {names[0]} + (set x | x in rest);
      forall i | 0 <= i < |rest|
        ensures rest[i] != names[0]
      {
        StrLessTotal(names[0], names[i + 1]);
      }
    }
  }

  lemma ModuleConstsRoundTrip(flag: bool, base: I64, vs: seq<Value>, w: WriteIndex, e: Env, k: Bytes)
    requires ConstsFit(vs, w) && Carried(vs, w, e)
    ensures GetModuleConsts(flag, PutConsts(flag, base, vs, w, k), e)
         == Got(Consts(if flag then base else 0, NormAll(vs, w)), k)
  {
    hide GetConstHead, PutConsts, GetValues, PutValues, NormAll;
    ConstHeadRoundTrip(flag, base, vs, w, k);
    ValuesRoundTrip(vs, w, e, k);
  }

  /** Every section reads back, in order, and the bytes after the body are left. */
  lemma BodyRoundTrip(m: Module, w: WriteIndex, names: seq<Str>, valid: TextParsers, h: Header, k: Bytes)
    requires Encodable(m, w, valid) && Lists(names, m)
    requires h.flags == m.flags && h.version == FormatVersion(m.flags)
    requires h.caps == if m.flags.capabilities then m.caps else 0
    ensures GetBody(h, PutBody(m, w, names, k), valid) == Got(Decoded(m, w), k)
  {
    hide GetStrings, PutStrings, GetRanges, PutRanges, GetChunks, PutChunks, GetModuleConsts, PutConsts,
         GetNSTable, PutNSTable, GetLocalTables, PutLocalTables, NormAll;
    var s5 := if m.flags.localVars then PutLocalTables(m.chunks, w, k) else k;
    var s4 := PutNSTable(names, m.nsTable, w, s5);
    var s3 := PutConsts(m.flags.constsBase, m.base, m.consts, w, s4);
    var s2 := PutChunks(m.chunks, w, s3);
    var s1 := PutRanges(m.flags.nsRanges, m.ranges, w, s2);
    StringsRoundTrip(m.strings, s1);
    RangesRoundTrip(m.flags.nsRanges, m.ranges, w, m.strings, s2);
    ChunksRoundTrip(m.chunks, w, m.strings, s3);
    ModuleConstsRoundTrip(m.flags.constsBase, m.base, m.consts, w, AllLiveEnv(m.strings, |m.chunks|, valid, true), s4);
    EnumerationSize(names, m.nsTable.Keys);
    NSTableRoundTrip(names, m.nsTable, w, m.strings, s5);
    if m.flags.localVars {
      LocalTablesRoundTrip(m.chunks, w, m.strings, false, k);
    }
    assert AttachLocals(NoLocals(m.chunks), LocalsOf(m.chunks)) == m.chunks;
  }

  // -------------------------------------------------------------- compression

  const MAX_BODY: nat := 0x1000_0000
  const FLATE: Byte := 1

  /** DEFLATE, kept abstract: None on input that is not one complete stream. */
  datatype Codec = Codec(deflate: Bytes -> Bytes, inflate: Bytes -> Option<Bytes>)

  ghost predicate Lawful(c: Codec) {
    forall b :: c.inflate(c.deflate(b)) == Some(b)
  }

  /** Encode; None when a compressed body would be too large. */
  ghost function EncodeModule(m: Module, w: WriteIndex, names: seq<Str>, rt: Runtime, c: Codec): Option<Bytes>
    requires Fits(m, w) && Lists(names, m)
  {
    var body := PutBody(m, w, names, []);
    if !m.flags.compressed then Some(PutHeader(m.flags, m.caps, rt, body))
    else if |body| > MAX_BODY then None
    else Some(PutHeader(m.flags, m.caps, rt, PutVarint(|body|, [FLATE] + c.deflate(body))))
  }

  /** beginCompressedBody: the declared size, the codec byte, and the inflated body,
      which must have exactly the declared size. */
  function GetInflated(s: Bytes, c: Codec): Parse<Bytes> {
    var (size, s1) :- GetVarint(s);
    if size > MAX_BODY then Fail(BodyTooLarge)
    else
      var (codec, s2) :- GetByte(s1);
      if codec != FLATE then Fail(BadCodec)
      else
        match c.inflate(s2)
        case None => Fail(BadInflate)
        case Some(body) => if |body| != size then Fail(BodySize) else Got(body, [])
  }

  /** Decode.  A compressed body must be consumed to its last byte. */
  function DecodeModule(data: Bytes, rt: Runtime, valid: TextParsers, c: Codec): Parse<Module> {
    var (h, s) :- GetHeader(data, rt);
    if !h.flags.compressed then GetBody(h, s, valid)
    else
      var (body, _) :- GetInflated(s, c);
      var (m, rest) :- GetBody(h, body, valid);
      if rest != [] then Fail(BodySize) else Got(m, [])
  }

  lemma InflatedRoundTrip(body: Bytes, c: Codec)
    requires Lawful(c) && |body| <= MAX_BODY
    ensures GetInflated(PutVarint(|body|, [FLATE] + c.deflate(body)), c) == Got(body, [])
  {
    hide GetVarint, PutVarint;
    VarintRoundTrip(|body|, [FLATE] + c.deflate(body));
    assert ([FLATE] + c.deflate(body))[1..] == c.deflate(body);
  }

  /** Decoding what a runtime `wr` encoded gives the module back, for every combination
      of flags: strings, namespace ranges, chunks with source maps, constants with their
      base, namespace table and local variables; unless its opcode set is foreign. */
  lemma ModuleRoundTrip(m: Module, w: WriteIndex, names: seq<Str>, wr: Runtime, rt: Runtime, valid: TextParsers,
                        c: Codec)
    requires Encodable(m, w, valid) && Lists(names, m)
    requires Lawful(c) && EncodeModule(m, w, names, wr, c).Some?
    ensures DecodeModule(EncodeModule(m, w, names, wr, c).value, rt, valid, c)
         == if Foreign(m.flags, m.caps, wr.running, rt) then Fail(OpcodeMismatch) else Got(Decoded(m, w), [])
  {
    hide GetHeader, PutHeader, GetInflated, PutBody, GetBody, PutVarint, Former, Foreign;
    var body := PutBody(m, w, names, []);
    var h := Header(FormatVersion(m.flags), m.flags, if m.flags.capabilities then m.caps else 0,
                    Former(m.flags, m.caps, wr.running, rt));
    BodyRoundTrip(m, w, names, valid, h, []);
    if m.flags.compressed {
      var s := PutVarint(|body|, [FLATE] + c.deflate(body));
      HeaderRoundTrip(m.flags, m.caps, wr, rt, s);
      if |body| <= MAX_BODY {
        InflatedRoundTrip(body, c);
      }
    } else {
      HeaderRoundTrip(m.flags, m.caps, wr, rt, body);
    }
  }

  // ------------------------------------------------------- the format version

  /** The flag words that a reader of format version 2 or 3 takes: six flags are known, and
      version 2 has neither compressed bodies (bit 3) nor split debug tables (bit 4). */
  predicate Admits(version: nat, word: nat) {
    word < 64 && (version == 3 || (version == 2 && (word / 8) % 2 == 0 && (word / 16) % 2 == 0))
  }

  /** The two bytes at an offset, the low one first. */
  function WordAt(data: Bytes, at: nat): nat
    requires at + 2 <= |data|
  {
    (data[at] as int) + 256 * (data[at + 1] as int)
  }

  /** A flag word says what the flags are. */
  predicate Spells(word: nat, f: Flags) {
    && word % 2 == (if f.constsBase then 1 else 0) && (word / 2) % 2 == (if f.capabilities then 1 else 0)
    && (word / 4) % 2 == (if f.localVars then 1 else 0) && (word / 8) % 2 == (if f.compressed then 1 else 0)
    && (word / 16) % 2 == (if f.debugSplit then 1 else 0) && (word / 32) % 2 == (if f.nsRanges then 1 else 0)
  }

  lemma WordSpells(f: Flags)
    ensures Spells(FlagBits(f), f)
  {
    hide Spells;
    SixBits(f, Bit(f.constsBase), Bit(f.capabilities), Bit(f.localVars), Bit(f.compressed), Bit(f.debugSplit),
            Bit(f.nsRanges));
  }

  lemma SixBits(f: Flags, a: nat, b: nat, c: nat, d: nat, e: nat, g: nat)
    requires a < 2 && b < 2 && c < 2 && d < 2 && e < 2 && g < 2
    requires (a == 1) == f.constsBase && (b == 1) == f.capabilities && (c == 1) == f.localVars
    requires (d == 1) == f.compressed && (e == 1) == f.debugSplit && (g == 1) == f.nsRanges
    ensures Spells(a + 2 * b + 4 * c + 8 * (d + 2 * e + 4 * g), f)
  {
    var n := a + 2 * b + 4 * c + 8 * d + 16 * e + 32 * g;
    assert n / 2 == b + 2 * c + 4 * d + 8 * e + 16 * g;
    assert n / 4 == c + 2 * d + 4 * e + 8 * g;
    assert n / 8 == d + 2 * e + 4 * g;
    assert n / 16 == e + 2 * g;
    assert n / 32 == g;
  }

  lemma FirstWord(v: nat, k: Bytes)
    requires v < 0x1_0000
    ensures |PutLE(v, 2, k)| == 2 + |k| && WordAt(PutLE(v, 2, k), 0) == v && PutLE(v, 2, k)[2..] == k
  {
    assert PutLE(v, 2, k) == [v % 256] + PutLE(v / 256, 1, k);
    assert PutLE(v / 256, 1, k) == [(v / 256) % 256] + PutLE(v / 65536, 0, k);
    assert ([v % 256] + ([(v / 256) % 256] + k))[2..] == k;
  }

  lemma HeaderWords(f: Flags, caps: nat, wr: Runtime, k: Bytes)
    ensures var data := PutHeader(f, caps, wr, k);
      |data| >= 8 && data[..4] == [0x4C, 0x47, 0x42, 0x01] && WordAt(data, 4) == FormatVersion(f)
      && WordAt(data, 6) == FlagBits(f)
  {
    hide PutLE, FlagBits, PutCaps;
    var s2 := PutLE(FlagBits(f), 2, PutCaps(f, caps, wr, k));
    var s1 := PutLE(FormatVersion(f), 2, s2);
    FirstWord(FlagBits(f), PutCaps(f, caps, wr, k));
    FirstWord(FormatVersion(f), s2);
    var data := MAGIC + s1;
    assert data[4] == s1[0] && data[5] == s1[1] && data[6] == s1[2..][0] && data[7] == s1[2..][1];
  }

  /** Every bundle the encoder writes says what its flags are, in a format version that
      admits them; it is version 3 only where version 2 does not. */
  lemma LeastVersion(m: Module, w: WriteIndex, names: seq<Str>, wr: Runtime, c: Codec)
    requires Fits(m, w) && Lists(names, m) && EncodeModule(m, w, names, wr, c).Some?
    ensures var data := EncodeModule(m, w, names, wr, c).value;
      && |data| >= 8 && data[..4] == [0x4C, 0x47, 0x42, 0x01] && Spells(WordAt(data, 6), m.flags)
      && Admits(WordAt(data, 4), WordAt(data, 6)) && (WordAt(data, 4) > 2 ==> !Admits(2, WordAt(data, 6)))
  {
    hide PutHeader, PutBody, PutVarint, FlagBits, Fits, Lists, Spells;
    var body := PutBody(m, w, names, []);
    HeaderWords(m.flags, m.caps, wr, if m.flags.compressed then PutVarint(|body|, [FLATE] + c.deflate(body)) else body);
    WordSpells(m.flags);
    SpelledBits(FlagBits(m.flags), m.flags);
  }

  lemma SpelledBits(word: nat, f: Flags)
    requires Spells(word, f) && word < 64
    ensures Admits(3, word) && (Admits(2, word) <==> !f.compressed && !f.debugSplit)
  {
  }

  /** The reader refuses exactly the flag words that the version does not admit. */
  lemma ReaderAdmits(s: Bytes, rt: Runtime)
    requires |s| >= 8 && s[..4] == [0x4C, 0x47, 0x42, 0x01] && (WordAt(s, 4) == 2 || WordAt(s, 4) == 3)
    ensures GetHeader(s, rt) == Fail(BadFlags) <==> !Admits(WordAt(s, 4), WordAt(s, 6))
  {
    hide GetLE, GetCaps, BitSet;
    TwoBytes(s[4..]);
    TwoBytes(s[6..]);
    assert s[4..][2..] == s[6..];
    assert s[4] == s[4..][0] && s[5] == s[4..][1] && s[6] == s[6..][0] && s[7] == s[6..][1];
    var v, n := WordAt(s, 4), WordAt(s, 6);
    if n < 64 {
      LowBits(n / 8);
      NeverBadFlags(v, FlagsOf(n), s[6..][2..], rt);
    }
  }

  lemma OneByte(s: Bytes)
    requires |s| >= 1
    ensures GetLE(s, 1) == Got(s[0] as int, s[1..])
  {
    hide Pow256;
    assert GetLE(s[1..], 0) == Got(0, s[1..]);
  }

  lemma TwoBytes(s: Bytes)
    requires |s| >= 2
    ensures GetLE(s, 2) == Got(WordAt(s, 0), s[2..])
  {
    hide Pow256;
    var t := s[1..];
    OneByte(t);
    assert t[0] == s[1] && t[1..] == s[2..];
    LowFirst(s, t[0] as int, t[1..]);
  }

  lemma LowFirst(s: Bytes, hi: nat, rest: Bytes)
    requires s != [] && GetLE(s[1..], 1) == Got(hi, rest)
    ensures GetLE(s, 2) == Got(s[0] + 256 * hi, rest)
  {
    hide Pow256;
  }

  lemma LowBits(n: nat)
    requires n < 8
    ensures BitSet(n, 0) == (n % 2 == 1) && BitSet(n, 1) == ((n / 2) % 2 == 1)
  {
  }

  lemma {:induction false} GroupErrors(s: Bytes, n: nat)
    ensures GetGroups(s, n) != Fail(BadFlags)
    decreases n
  {
    if n > 0 && s != [] {
      GroupErrors(s[1..], n - 1);
    }
  }

  lemma NeverBadFlags(version: nat, f: Flags, s: Bytes, rt: Runtime)
    ensures GetCaps(version, f, s, rt) != Fail(BadFlags)
  {
    hide GetLE, GetGroups;
    if |s| >= 4 {
      GroupErrors(GetLE(s, 4).rest, MAX_VARINT_BYTES);
      assert GetVarint(GetLE(s, 4).rest) != Fail(BadFlags);
    }
  }

  /** Decode in a runtime that knows no format version above 2. */
  function DecodeAsOfTwo(data: Bytes, rt: Runtime, valid: TextParsers, c: Codec): Parse<Module> {
    if |data| >= 8 && data[..4] == MAGIC && WordAt(data, 4) > 2 then Fail(BadVersion)
    else DecodeModule(data, rt, valid, c)
  }

  /** Such a runtime decodes every module that is neither compressed nor split, in full. */
  lemma OlderReaders(m: Module, w: WriteIndex, names: seq<Str>, wr: Runtime, rt: Runtime, valid: TextParsers, c: Codec)
    requires Encodable(m, w, valid) && Lists(names, m) && Lawful(c) && EncodeModule(m, w, names, wr, c).Some?
    requires !m.flags.compressed && !m.flags.debugSplit && !Foreign(m.flags, m.caps, wr.running, rt)
    ensures DecodeAsOfTwo(EncodeModule(m, w, names, wr, c).value, rt, valid, c) == Got(Decoded(m, w), [])
  {
    hide DecodeModule, EncodeModule, Lists, Encodable, Spells, Foreign;
    EncodableFits(m, w, valid);
    ModuleRoundTrip(m, w, names, wr, rt, valid, c);
    LeastVersion(m, w, names, wr, c);
    SpelledBits(WordAt(EncodeModule(m, w, names, wr, c).value, 6), m.flags);
  }
}
