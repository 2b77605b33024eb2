/** Reading an instruction back from bytes, as the interpreter does. */
module Decoder {
  import opened Bytecode
  import opened Verifier

  /** The instruction at `pc`; the caller knows it is complete. */
  function Decode(code: seq<Byte>, pc: nat): Instr
    requires pc < |code| && InstrLen(code, pc) > 0
  {
    var op := code[pc];
    if op == HALT then Halt
    else if op == LOAD_CONST then LoadConst(code[pc + 1], U16(code[pc + 2], code[pc + 3]))
    else if op == LOAD_NIL then LoadNil(code[pc + 1])
    else if op == PRINT then Print(code[pc + 1])
    else if op == RET then Ret(code[pc + 1])
    else if op == NEW_OBJECT then NewObject(code[pc + 1])
    else if op == ARRAY_PUSH then Push(code[pc + 1], code[pc + 2])
    else if IsTwo(op) then Two(op, code[pc + 1], code[pc + 2])
    else if op == NEW_ARRAY then NewArray(code[pc + 1], code[pc + 2])
    else if IsThree(op) then Three(op, code[pc + 1], code[pc + 2], code[pc + 3])
    else if op == GET_PROP then GetProp(code[pc + 1], code[pc + 2], U16(code[pc + 3], code[pc + 4]))
    else if op == SET_PROP then SetProp(code[pc + 1], U16(code[pc + 2], code[pc + 3]), code[pc + 4])
    else if op == CALL || op == CALL_NATIVE then
      Call(op == CALL_NATIVE, code[pc + 1], U16(code[pc + 2], code[pc + 3]), code[pc + 4])
    else if op == CALL_VALUE then CallValue(code[pc + 1], code[pc + 2])
    else if op == GET_UPVAL then GetUpval(code[pc + 1], code[pc + 2])
    else if op == JUMP then Goto(I16(code[pc + 1], code[pc + 2]))
    else if op == JUMP_IF_FALSE then GotoIfFalse(code[pc + 1], I16(code[pc + 2], code[pc + 3]))
    else Closure(code[pc + 1], U16(code[pc + 2], code[pc + 3]), code[pc + 5..pc + 5 + code[pc + 4]])
  }

  /** Instruction `i` stands at `pc`. */
  predicate At(code: seq<Byte>, pc: nat, i: Instr) {
    pc + |Encode(i)| <= |code| && code[pc..pc + |Encode(i)|] == Encode(i)
  }

  /** Instruction lengths spelled out. */
  function FixedLen(op: Byte): nat {
    if op == HALT then 1
    else if op == JUMP then 3
    else if IsOne(op) then 2
    else if IsTwo(op) || op == NEW_ARRAY || op == GET_UPVAL || op == CALL_VALUE then 3
    else if IsThree(op) || op == LOAD_CONST || op == JUMP_IF_FALSE then 4
    else 5
  }

  lemma TotalWidthFixed(op: Byte)
    requires OperandsOf(op).Fixed?
    ensures 1 + TotalWidth(OperandsOf(op).ops) == FixedLen(op)
  {
    var ops := OperandsOf(op).ops;
    if |ops| == 1 { assert ops[1..] == []; }
    if |ops| == 2 { assert ops[1..][1..] == []; }
    if |ops| == 3 { assert ops[1..][1..][1..] == []; }
  }

  lemma LenFixed(code: seq<Byte>, pc: nat)
    requires pc < |code| && OperandsOf(code[pc]).Fixed?
    ensures InstrLen(code, pc) == if pc + FixedLen(code[pc]) <= |code| then FixedLen(code[pc]) else 0
  {
    TotalWidthFixed(code[pc]);
    hide TotalWidth, FixedLen;
  }

  lemma BytesAt(code: seq<Byte>, pc: nat, i: Instr)
    requires At(code, pc, i)
    ensures pc < |code| && forall k :: 0 <= k < |Encode(i)| ==> code[pc + k] == Encode(i)[k]
  {
    forall k | 0 <= k < |Encode(i)| ensures code[pc + k] == Encode(i)[k] {
      assert code[pc..pc + |Encode(i)|][k] == Encode(i)[k];
    }
  }

  /** What was encoded is decoded, with the encoding's length. */
  lemma DecodeAt(code: seq<Byte>, pc: nat, i: Instr)
    requires At(code, pc, i) && Encodable(i)
    ensures pc < |code| && InstrLen(code, pc) == |Encode(i)| && Decode(code, pc) == i
  {
    BytesAt(code, pc, i);
    hide At;
    if i.Closure? {
      DecodeClosure(code, pc, i);
    } else if i.LoadConst? || i.GetProp? || i.SetProp? || i.Call? || i.Goto? || i.GotoIfFalse? {
      DecodeWide(code, pc, i);
    } else {
      DecodeNarrow(code, pc, i);
    }
  }

  ghost predicate Bytes(code: seq<Byte>, pc: nat, i: Instr) {
    pc + |Encode(i)| <= |code| && forall k :: 0 <= k < |Encode(i)| ==> code[pc + k] == Encode(i)[k]
  }

  lemma DecodeNarrow(code: seq<Byte>, pc: nat, i: Instr)
    requires Bytes(code, pc, i) && Encodable(i)
    requires !(i.Closure? || i.LoadConst? || i.GetProp? || i.SetProp? || i.Call? || i.Goto? || i.GotoIfFalse?)
    ensures InstrLen(code, pc) == |Encode(i)| && Decode(code, pc) == i
  {
    assert code[pc] == Encode(i)[0];
    LenFixed(code, pc);
    hide InstrLen, OperandsOf;
    assert |Encode(i)| > 1 ==> code[pc + 1] == Encode(i)[1];
    assert |Encode(i)| > 2 ==> code[pc + 2] == Encode(i)[2];
    assert |Encode(i)| > 3 ==> code[pc + 3] == Encode(i)[3];
  }

  lemma DecodeWide(code: seq<Byte>, pc: nat, i: Instr)
    requires Bytes(code, pc, i) && Encodable(i)
    requires i.LoadConst? || i.GetProp? || i.SetProp? || i.Call? || i.Goto? || i.GotoIfFalse?
    ensures InstrLen(code, pc) == |Encode(i)| && Decode(code, pc) == i
  {
    var e := Encode(i);
    assert code[pc] == e[0] && code[pc + 1] == e[1] && code[pc + 2] == e[2];
    assert |e| > 3 ==> code[pc + 3] == e[3];
    assert |e| > 4 ==> code[pc + 4] == e[4];
    LenFixed(code, pc);
    hide InstrLen, OperandsOf, Bytes;
    if i.Goto? || i.GotoIfFalse? { I16RoundTrip(i.off); } else { U16RoundTrip(i.k); }
    hide U16, I16, Lo, Hi;
  }

  lemma DecodeClosure(code: seq<Byte>, pc: nat, i: Instr)
    requires Bytes(code, pc, i) && Encodable(i) && i.Closure?
    ensures InstrLen(code, pc) == |Encode(i)| && Decode(code, pc) == i
  {
    var e := Encode(i);
    assert code[pc] == e[0] && code[pc + 1] == e[1] && code[pc + 2] == e[2] && code[pc + 3] == e[3] && code[pc + 4] == e[4];
    U16RoundTrip(i.k);
    assert code[pc + 5..pc + 5 + |i.srcs|] == i.srcs by {
      forall j | 0 <= j < |i.srcs| ensures code[pc + 5 + j] == i.srcs[j] {
        assert code[pc + (5 + j)] == e[5 + j];
      }
    }
  }

  /** An instruction's operands in range, whatever its kind. */
  predicate Fits(m: Module, f: Function, i: Instr) {
    match i
    case Halt => true
    case LoadConst(r, k) => r < f.numRegs && k < |m.consts|
    case LoadNil(r) => r < f.numRegs
    case Two(_, r, a) => r < f.numRegs && a < f.numRegs
    case Three(_, r, a, b) => r < f.numRegs && a < f.numRegs && b < f.numRegs
    case NewArray(r, _) => r < f.numRegs
    case NewObject(r) => r < f.numRegs
    case GetProp(r, a, k) => r < f.numRegs && a < f.numRegs && k < |m.consts| && m.consts[k].CStr?
    case SetProp(r, k, a) => r < f.numRegs && a < f.numRegs && k < |m.consts| && m.consts[k].CStr?
    case Push(r, a) => r < f.numRegs && a < f.numRegs
    case Call(_, r, k, n) => r < f.numRegs && r + n <= f.numRegs && k < |m.consts| && m.consts[k].CStr?
    case CallValue(r, n) => r + n + 1 <= f.numRegs
    case Ret(r) => r < f.numRegs
    case Goto(_) => true
    case GotoIfFalse(r, _) => r < f.numRegs
    case Print(r) => r < f.numRegs
    case Closure(r, k, srcs) => r < f.numRegs && k < |m.funcs| && forall j :: 0 <= j < |srcs| ==> srcs[j] < f.numRegs
    case GetUpval(r, _) => r < f.numRegs
  }

  /** The verifier's table-driven check is exactly "decoded operands in range". */
  lemma InstrOkIsFits(m: Module, f: Function, pc: nat)
    requires pc < |f.code| && InstrLen(f.code, pc) > 0
    ensures InstrOk(m, f, pc) <==> Fits(m, f, Decode(f.code, pc))
  {
    var code := f.code;
    if code[pc] == CLOSURE {
      var srcs := code[pc + 5..pc + 5 + code[pc + 4]];
      forall j | pc + 5 <= j < pc + 5 + code[pc + 4] ensures code[j] == srcs[j - pc - 5] {}
    } else {
      OperandsAt(m, f, pc);
      WindowAt(m, f, pc);
    }
  }

  lemma WindowAt(m: Module, f: Function, pc: nat)
    requires pc < |f.code| && InstrLen(f.code, pc) > 0 && f.code[pc] != CLOSURE
    requires OperandsOk(m, f, pc + 1, OperandsOf(f.code[pc]).ops) <==> OperandsFit(m, f, Decode(f.code, pc))
    ensures InstrOk(m, f, pc) <==> Fits(m, f, Decode(f.code, pc))
  {
    hide OperandsOk, OperandOk, U16, I16;
  }

  /** `Fits` without the call window. */
  predicate OperandsFit(m: Module, f: Function, i: Instr) {
    match i
    case Call(_, r, k, _) => r < f.numRegs && k < |m.consts| && m.consts[k].CStr?
    case CallValue(r, _) => r < f.numRegs
    case _ => Fits(m, f, i)
  }

  lemma OperandsAt(m: Module, f: Function, pc: nat)
    requires pc < |f.code| && InstrLen(f.code, pc) > 0 && f.code[pc] != CLOSURE
    ensures OperandsOk(m, f, pc + 1, OperandsOf(f.code[pc]).ops) <==> OperandsFit(m, f, Decode(f.code, pc))
  {
    LenFixed(f.code, pc);
    OperandsSpelled(m, f, pc);
    hide InstrLen, OperandsOk, TotalWidth;
  }

  /** A fixed instruction's operands are in range one by one. */
  lemma OperandsSpelled(m: Module, f: Function, pc: nat)
    requires pc < |f.code| && OperandsOf(f.code[pc]).Fixed? && pc + FixedLen(f.code[pc]) <= |f.code|
    ensures var at, ops := pc + 1, OperandsOf(f.code[pc]).ops;
            |ops| <= 3 && at + TotalWidth(ops) <= |f.code| &&
            (OperandsOk(m, f, at, ops) <==>
               (|ops| > 0 ==> OperandOk(m, f, at, ops[0]))
               && (|ops| > 1 ==> OperandOk(m, f, at + Width(ops[0]), ops[1]))
               && (|ops| > 2 ==> OperandOk(m, f, at + Width(ops[0]) + Width(ops[1]), ops[2])))
  {
    var ops := OperandsOf(f.code[pc]).ops;
    TotalWidthFixed(f.code[pc]);
    hide OperandOk;
    if |ops| == 1 { OneOperand(m, f, pc + 1, ops[0]); assert ops == [ops[0]]; }
    else if |ops| == 2 { TwoOperands(m, f, pc + 1, ops[0], ops[1]); assert ops == [ops[0], ops[1]]; }
    else if |ops| == 3 { ThreeOperands(m, f, pc + 1, ops[0], ops[1], ops[2]); assert ops == [ops[0], ops[1], ops[2]]; }
  }

  lemma OneOperand(m: Module, f: Function, at: nat, a: Operand)
    ensures TotalWidth([a]) == Width(a)
    ensures at + Width(a) <= |f.code| ==> (OperandsOk(m, f, at, [a]) <==> OperandOk(m, f, at, a))
  {
    assert [a][1..] == [];
  }

  lemma TwoOperands(m: Module, f: Function, at: nat, a: Operand, b: Operand)
    ensures TotalWidth([a, b]) == Width(a) + Width(b)
    ensures at + Width(a) + Width(b) <= |f.code| ==>
              (OperandsOk(m, f, at, [a, b]) <==> OperandOk(m, f, at, a) && OperandOk(m, f, at + Width(a), b))
  {
    assert [a, b][1..] == [b];
    OneOperand(m, f, at + Width(a), b);
  }

  lemma ThreeOperands(m: Module, f: Function, at: nat, a: Operand, b: Operand, c: Operand)
    ensures TotalWidth([a, b, c]) == Width(a) + Width(b) + Width(c)
    ensures at + Width(a) + Width(b) + Width(c) <= |f.code| ==>
              (OperandsOk(m, f, at, [a, b, c]) <==>
                OperandOk(m, f, at, a) && OperandOk(m, f, at + Width(a), b) && OperandOk(m, f, at + Width(a) + Width(b), c))
  {
    assert [a, b, c][1..] == [b, c];
    TwoOperands(m, f, at + Width(a), b, c);
  }
}
