/** Opcode migration: rewriting the code of a bundle compiled before TRACE_ENABLE and
    TRACE_DISABLE were removed from the opcode set. */
module Migration {
  import opened Wire

  /** Opcode names; `UNKNOWN` is an opcode byte outside the table. */
  datatype Mnemonic =
    | NOOP | LOAD_CONST | LOAD_ARG | INVOKE | RETURN | BRANCH_T | BRANCH_F | JUMP | POP | POP_N | DUP_NTH | SET_VAR
    | LOAD_VAR | MAKE_CLOSURE | LOAD_CLOSEDOVER | PUSH_CLOSEDOVER | RECUR | RECUR_FN | TRACE_ENABLE | TRACE_DISABLE
    | MAKE_MULTI_ARITY | TAIL_CALL | TRY_PUSH | TRY_POP | THROW | ADD | SUB | MUL | BIT_AND | BIT_OR | BIT_XOR
    | BIT_AND_NOT | BIT_SHIFT_LEFT | BIT_SHIFT_RIGHT | UNSIGNED_BIT_SHIFT_RIGHT | LT | LTE | GT | GTE | EQ | INC
    | DEC | BIT_NOT | QUOT | DIV | UNCHECKED_ADD | UNCHECKED_SUB | UNCHECKED_MUL | FINALLY_END | AGET | ASET
    | UNKNOWN

  /** The old opcode set, in enum order. */
  function OldName(op: Byte): Mnemonic {
    match op
    case 0 => NOOP
    case 1 => LOAD_CONST
    case 2 => LOAD_ARG
    case 3 => INVOKE
    case 4 => RETURN
    case 5 => BRANCH_T
    case 6 => BRANCH_F
    case 7 => JUMP
    case 8 => POP
    case 9 => POP_N
    case 10 => DUP_NTH
    case 11 => SET_VAR
    case 12 => LOAD_VAR
    case 13 => MAKE_CLOSURE
    case 14 => LOAD_CLOSEDOVER
    case 15 => PUSH_CLOSEDOVER
    case 16 => RECUR
    case 17 => RECUR_FN
    case 18 => TRACE_ENABLE
    case 19 => TRACE_DISABLE
    case 20 => MAKE_MULTI_ARITY
    case 21 => TAIL_CALL
    case 22 => TRY_PUSH
    case 23 => TRY_POP
    case 24 => THROW
    case 25 => ADD
    case 26 => SUB
    case 27 => MUL
    case 28 => BIT_AND
    case 29 => BIT_OR
    case 30 => BIT_XOR
    case 31 => BIT_AND_NOT
    case 32 => BIT_SHIFT_LEFT
    case 33 => BIT_SHIFT_RIGHT
    case 34 => UNSIGNED_BIT_SHIFT_RIGHT
    case 35 => LT
    case 36 => LTE
    case 37 => GT
    case 38 => GTE
    case 39 => EQ
    case 40 => INC
    case 41 => DEC
    case 42 => BIT_NOT
    case 43 => QUOT
    case 44 => DIV
    case _ => UNKNOWN
  }

  /** The running opcode set. */
  function Name(op: Byte): Mnemonic {
    match op
    case 0 => NOOP
    case 1 => LOAD_CONST
    case 2 => LOAD_ARG
    case 3 => INVOKE
    case 4 => RETURN
    case 5 => BRANCH_T
    case 6 => BRANCH_F
    case 7 => JUMP
    case 8 => POP
    case 9 => POP_N
    case 10 => DUP_NTH
    case 11 => SET_VAR
    case 12 => LOAD_VAR
    case 13 => MAKE_CLOSURE
    case 14 => LOAD_CLOSEDOVER
    case 15 => PUSH_CLOSEDOVER
    case 16 => RECUR
    case 17 => RECUR_FN
    case 18 => MAKE_MULTI_ARITY
    case 19 => TAIL_CALL
    case 20 => TRY_PUSH
    case 21 => TRY_POP
    case 22 => THROW
    case 23 => ADD
    case 24 => SUB
    case 25 => MUL
    case 26 => BIT_AND
    case 27 => BIT_OR
    case 28 => BIT_XOR
    case 29 => BIT_AND_NOT
    case 30 => BIT_SHIFT_LEFT
    case 31 => BIT_SHIFT_RIGHT
    case 32 => UNSIGNED_BIT_SHIFT_RIGHT
    case 33 => LT
    case 34 => LTE
    case 35 => GT
    case 36 => GTE
    case 37 => EQ
    case 38 => INC
    case 39 => DEC
    case 40 => BIT_NOT
    case 41 => QUOT
    case 42 => DIV
    case 43 => UNCHECKED_ADD
    case 44 => UNCHECKED_SUB
    case 45 => UNCHECKED_MUL
    case 46 => FINALLY_END
    case 47 => AGET
    case 48 => ASET
    case _ => UNKNOWN
  }

  const OLD_OPCODES: nat := 45
  const OP_TRACE_ENABLE: Byte := 18
  const OP_TRACE_DISABLE: Byte := 19
  const FIRST_SHIFTED: Byte := 20

  /** word & 0xff: the opcode; the rest of the word is a stack-depth hint. */
  function Op(word: I32): Byte {
    word % 256
  }

  /** v2Stride: words per instruction in the old set. */
  function OldStride(op: Byte): (n: nat)
    ensures 1 <= n <= 4
  {
    if op == 16 then 4
    else if op == 22 then 3
    else if op in {1, 2, 3, 5, 6, 7, 9, 10, 12, 14, 17, 20, 21} then 2
    else 1
  }

  /** vm.OpcodeStride: words per instruction in the running set. */
  function Stride(op: Byte): (n: nat)
    ensures 1 <= n <= 4
  {
    if op == 20 then 3
    else if op == 16 then 4
    else if op in {1, 2, 3, 5, 6, 7, 9, 10, 12, 14, 17, 18, 19, 46} then 2
    else 1
  }

  /** remapV2Opcode */
  function RemapOp(op: Byte): Byte {
    if op == OP_TRACE_ENABLE || op == OP_TRACE_DISABLE then 0
    else if op >= FIRST_SHIFTED then op - 2
    else op
  }

  /** (word &^ 0xff) | remapV2Opcode(word & 0xff) */
  function RemapWord(word: I32): I32 {
    word - Op(word) + RemapOp(Op(word))
  }

  /** Where the instruction after the one at the front begins. */
  function Next(code: seq<I32>, stride: Byte -> nat): (n: nat)
    requires code != [] && stride(Op(code[0])) >= 1
    ensures 1 <= n <= |code|
  {
    if stride(Op(code[0])) < |code| then stride(Op(code[0])) else |code|
  }

  /** Every opcode word on the walk remapped, every argument word kept. */
  function Remap(code: seq<I32>): (r: seq<I32>)
    ensures |r| == |code|
  {
    if code == [] then []
    else
      var n := Next(code, OldStride);
      [RemapWord(code[0])] + (code[1..n] + Remap(code[n..]))
  }

  lemma RemapStep(done: seq<I32>, rest: seq<I32>)
    requires rest != []
    ensures var n := Next(rest, OldStride);
      done + Remap(rest) == done + ([RemapWord(rest[0])] + rest[1..n]) + Remap(rest[n..])
  {
    hide RemapWord, OldStride;
  }

  /** remapLegacyChunks, for one chunk: a walk by old strides that rewrites the opcode
      words in place. */
  method RemapInPlace(code: array<I32>)
    modifies code
    ensures code[..] == Remap(old(code[..]))
  {
    hide RemapWord, RemapOp, OldStride, Remap, Next;
    var i := 0;
    ghost var j := 0;
    while i < code.Length
      invariant 0 <= j <= code.Length && j == if i < code.Length then i else code.Length
      invariant code[..j] + Remap(code[j..]) == Remap(old(code[..]))
    {
      ghost var before := code[..];
      ghost var rest := before[i..];
      ghost var n := Next(rest, OldStride);
      RemapStep(before[..i], rest);
      var stride := OldStride(Op(code[i]));
      NextIs(rest, stride);
      code[i] := RemapWord(code[i]);
      assert code[..i + n] == before[..i] + ([RemapWord(rest[0])] + rest[1..n]);
      assert code[i + n..] == rest[n..];
      i := i + stride;
      j := j + n;
    }
    assert code[..j] + Remap(code[j..]) == code[..];
  }

  lemma NextIs(code: seq<I32>, stride: nat)
    requires code != [] && stride == OldStride(Op(code[0]))
    ensures Next(code, OldStride) == if stride < |code| then stride else |code|
  {
  }

  // --------------------------------------------------------- what it preserves

  /** One instruction: where it starts, its mnemonic, the packed high bits of its
      opcode word, and its argument words. */
  datatype Instr = Instr(start: nat, name: Mnemonic, high: int, args: seq<I32>)

  function Disassemble(code: seq<I32>, at: nat, nameOf: Byte -> Mnemonic, stride: Byte -> nat): seq<Instr>
    requires forall op: Byte :: stride(op) >= 1
    decreases |code|
  {
    if code == [] then []
    else
      var n := Next(code, stride);
      [Instr(at, nameOf(Op(code[0])), code[0] / 256, code[1..n])] + Disassemble(code[n..], at + n, nameOf, stride)
  }

  /** The old program, its two removed trace instructions read as NOOP. */
  function Untraced(prog: seq<Instr>): (r: seq<Instr>)
    ensures |r| == |prog|
  {
    seq(|prog|, i requires 0 <= i < |prog| =>
      if prog[i].name == TRACE_ENABLE || prog[i].name == TRACE_DISABLE then prog[i].(name := NOOP) else prog[i])
  }

  /** Every opcode on the walk belongs to the old set. */
  predicate OldCode(code: seq<I32>) {
    code == [] || (Op(code[0]) < OLD_OPCODES && OldCode(code[Next(code, OldStride)..]))
  }

  lemma RemappedWord(word: I32)
    ensures Op(RemapWord(word)) == RemapOp(Op(word))
    ensures RemapWord(word) / 256 == word / 256
  {
  }

  /** Apart from byte 48, which the old set does not use, every old opcode is as wide
      as the one it becomes. */
  lemma StrideKept(op: Byte)
    ensures OldStride(op) == Stride(RemapOp(op)) <==> op != 48
  {
  }

  lemma DisassembleFirst(code: seq<I32>, at: nat, nameOf: Byte -> Mnemonic, stride: Byte -> nat)
    requires forall op: Byte :: stride(op) >= 1
    ensures Disassemble(code, at, nameOf, stride)
         == if code == [] then []
            else var n := Next(code, stride);
              [Instr(at, nameOf(Op(code[0])), code[0] / 256, code[1..n])] + Disassemble(code[n..], at + n, nameOf, stride)
  {
  }

  lemma UntracedFirst(first: Instr, rest: seq<Instr>)
    ensures Untraced([first] + rest) == [if first.name == TRACE_ENABLE || first.name == TRACE_DISABLE
                                         then first.(name := NOOP) else first] + Untraced(rest)
    ensures Untraced([]) == []
  {
  }

  lemma NameKept(op: Byte)
    requires op < OLD_OPCODES
    ensures Name(RemapOp(op)) == if op == OP_TRACE_ENABLE || op == OP_TRACE_DISABLE then NOOP else OldName(op)
    ensures OldName(op) == TRACE_ENABLE || OldName(op) == TRACE_DISABLE
         <==> op == OP_TRACE_ENABLE || op == OP_TRACE_DISABLE
  {
    if op < 18 {
      assert RemapOp(op) == op;
    } else if op >= 20 {
      assert RemapOp(op) == op - 2;
    }
  }

  lemma RemapHead(code: seq<I32>)
    requires code != []
    ensures var n, r := Next(code, OldStride), Remap(code);
      && r[0] == RemapWord(code[0]) && r[1..n] == code[1..n] && r[n..] == Remap(code[n..])
      && Op(r[0]) == RemapOp(Op(code[0])) && r[0] / 256 == code[0] / 256
  {
    hide RemapWord, RemapOp, Op, OldStride, Next;
    RemappedWord(code[0]);
    var n := Next(code, OldStride);
    Parts(RemapWord(code[0]), code[1..n], Remap(code[n..]));
  }

  lemma Parts(word: I32, args: seq<I32>, rest: seq<I32>)
    ensures var r, n := [word] + (args + rest), 1 + |args|;
      r[0] == word && r[1..n] == args && r[n..] == rest
  {
  }

  /** An old opcode is as wide as the one it becomes, so the next instruction starts
      where it did. */
  lemma NextKept(code: seq<I32>)
    requires code != [] && (Op(code[0]) != 48 || |code| == 1)
    ensures Next(Remap(code), Stride) == Next(code, OldStride)
  {
    hide OldStride, Stride, RemapOp, RemapWord;
    RemapHead(code);
    StrideKept(Op(code[0]));
  }

  /** Migration preserves the program: read with the running opcode table, the
      remapped code has the instructions of the old code, at the same positions, with
      the same high bits and arguments; only the trace instructions became NOOP. */
  lemma {:induction false} RemapPreservesProgram(code: seq<I32>, at: nat)
    requires OldCode(code)
    ensures Disassemble(Remap(code), at, Name, Stride) == Untraced(Disassemble(code, at, OldName, OldStride))
    decreases |code|
  {
    hide OldStride, Stride, RemapOp, RemapWord, Op, OldName, Name, Remap, Next, Untraced, Disassemble;
    DisassembleFirst(code, at, OldName, OldStride);
    DisassembleFirst(Remap(code), at, Name, Stride);
    if code != [] {
      var n := Next(code, OldStride);
      RemapHead(code);
      NextKept(code);
      NameKept(Op(code[0]));
      RemapPreservesProgram(code[n..], at + n);
      UntracedFirst(Instr(at, OldName(Op(code[0])), code[0] / 256, code[1..n]),
                    Disassemble(code[n..], at + n, OldName, OldStride));
    } else {
      assert Remap(code) == [];
      UntracedFirst(Instr(0, NOOP, 0, []), []);
    }
  }

  /** What a runtime may run for given code: its very words or, where the code is of the
      old opcode set, as many words that are the same program under the running table. */
  ghost predicate Runs(live: seq<I32>, code: seq<I32>, former: bool) {
    && (!former ==> live == code)
    && |live| == |code|
    && (former && OldCode(code) ==>
          Disassemble(live, 0, Name, Stride) == Untraced(Disassemble(code, 0, OldName, OldStride)))
  }

  lemma RemapRuns(code: seq<I32>, former: bool)
    ensures Runs(if former then Remap(code) else code, code, former)
  {
    hide Remap, Disassemble, Untraced, OldCode, Name, OldName, Stride, OldStride;
    if former && OldCode(code) {
      RemapPreservesProgram(code, 0);
    }
  }

  /** Every opcode on the walk is below the removed ones. */
  predicate Untouched(code: seq<I32>) {
    code == [] || (Op(code[0]) < OP_TRACE_ENABLE && Untouched(code[Next(code, OldStride)..]))
  }

  /** The migration leaves exactly such code alone. */
  lemma {:induction false} RemapChanges(code: seq<I32>)
    ensures Remap(code) == code <==> Untouched(code)
    decreases |code|
  {
    hide OldStride, Stride, RemapWord, Next, Remap, Untouched;
    if code == [] {
      NothingToRemap();
    } else {
      var n, r := Next(code, OldStride), Remap(code);
      RemapHead(code);
      RemapChanges(code[n..]);
      UntouchedHead(code);
      assert code == [code[0]] + code[1..n] + code[n..];
      assert r == [r[0]] + r[1..n] + r[n..];
      WordKept(code[0]);
    }
  }

  lemma NothingToRemap()
    ensures Remap([]) == [] && Untouched([])
  {
  }

  lemma UntouchedHead(code: seq<I32>)
    requires code != []
    ensures Untouched(code) <==> Op(code[0]) < OP_TRACE_ENABLE && Untouched(code[Next(code, OldStride)..])
  {
  }

  lemma WordKept(word: I32)
    ensures RemapWord(word) == word <==> Op(word) < OP_TRACE_ENABLE
  {
  }

  // ------------------------------------------------------- applied only once

  /** Some instruction on the walk has an opcode the migration shifts. */
  predicate Shifts(code: seq<I32>) {
    code != [] && (Op(code[0]) >= FIRST_SHIFTED || Shifts(code[Next(code, OldStride)..]))
  }

  lemma UnshiftedWord(word: I32)
    requires Op(word) < FIRST_SHIFTED
    ensures OldStride(RemapOp(Op(word))) == OldStride(Op(word))
    ensures RemapWord(RemapWord(word)) == RemapWord(word)
  {
  }

  lemma {:induction false} UnshiftedTwice(code: seq<I32>)
    requires !Shifts(code)
    ensures Remap(Remap(code)) == Remap(code)
    decreases |code|
  {
    hide OldStride, RemapWord, Remap;
    if code == [] {
      assert Remap(code) == [];
    } else {
      RemapHead(code);
      RemapHead(Remap(code));
      var n := Next(code, OldStride);
      UnshiftedWord(code[0]);
      assert Next(Remap(code), OldStride) == n;
      UnshiftedTwice(code[n..]);
      var r := Remap(code);
      assert r == [r[0]] + r[1..n] + r[n..];
      assert Remap(r) == [Remap(r)[0]] + Remap(r)[1..n] + Remap(r)[n..];
    }
  }

  lemma {:induction false} ShiftedTwice(code: seq<I32>)
    requires Shifts(code)
    ensures Remap(Remap(code)) != Remap(code)
    decreases |code|
  {
    RemapHead(code);
    RemapHead(Remap(code));
    if Op(code[0]) < FIRST_SHIFTED {
      var n := Next(code, OldStride);
      assert Next(Remap(code), OldStride) == n;
      ShiftedTwice(code[n..]);
      assert Remap(Remap(code))[n..] != Remap(code)[n..];
    }
  }

  /** A second migration changes the code exactly when some instruction was shifted
      by the first, so it must be applied once. */
  lemma RemapTwice(code: seq<I32>)
    ensures Remap(Remap(code)) == Remap(code) <==> !Shifts(code)
  {
    if Shifts(code) {
      ShiftedTwice(code);
    } else {
      UnshiftedTwice(code);
    }
  }

  // ------------------------------------------- instruction starts on any code

  function Starts(code: seq<I32>, at: nat, stride: Byte -> nat): set<nat>
    requires forall op: Byte :: stride(op) >= 1
    decreases |code|
  {
    if code == [] then {} else var n := Next(code, stride); {at} + Starts(code[n..], at + n, stride)
  }

  /** An instruction with opcode byte 48 that is not the last word. */
  predicate Widens(code: seq<I32>) {
    code != [] && ((Op(code[0]) == 48 && |code| > 1) || Widens(code[Next(code, OldStride)..]))
  }

  lemma {:induction false} StartsFrom(code: seq<I32>, at: nat, stride: Byte -> nat)
    requires forall op: Byte :: stride(op) >= 1
    ensures forall x :: x in Starts(code, at, stride) ==> x >= at
    decreases |code|
  {
    if code == [] {
    } else {
      var n := Next(code, stride);
      StartsFrom(code[n..], at + n, stride);
    }
  }

  /** For code of any bytes, walking the migrated code by the running strides visits
      the same positions as walking the old code by the old ones exactly when no
      instruction but a final word has opcode byte 48. */
  lemma {:induction false} StartsKept(code: seq<I32>, at: nat)
    ensures Starts(Remap(code), at, Stride) == Starts(code, at, OldStride) <==> !Widens(code)
    decreases |code|
  {
    hide OldStride, Stride, RemapOp, RemapWord, Remap, Next;
    if code == [] {
      assert Remap(code) == [];
    } else if Op(code[0]) == 48 && |code| > 1 {
      WidenedStart(code, at);
    } else {
      var n := Next(code, OldStride);
      RemapHead(code);
      NextKept(code);
      StartsFrom(code[n..], at + n, OldStride);
      StartsFrom(Remap(code[n..]), at + n, Stride);
      StartsKept(code[n..], at + n);
      var a, b := Starts(code[n..], at + n, OldStride), Starts(Remap(code[n..]), at + n, Stride);
      assert ({at} + a) - {at} == a && ({at} + b) - {at} == b;
    }
  }

  lemma WidenedStart(code: seq<I32>, at: nat)
    requires |code| > 1 && Op(code[0]) == 48
    ensures at + 1 in Starts(code, at, OldStride) && at + 1 !in Starts(Remap(code), at, Stride)
  {
    hide RemapWord, Remap;
    RemapHead(code);
    var n, m := Next(code, OldStride), Next(Remap(code), Stride);
    assert n == 1 && m == 2;
    assert at + 1 in Starts(code[1..], at + 1, OldStride);
    StartsFrom(Remap(code)[m..], at + m, Stride);
  }
}
