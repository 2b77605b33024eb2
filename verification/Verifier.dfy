/** The bytecode verifier: two passes over a function's bytes. */
module Verifier {
  import opened Bytecode

  datatype Operand = Reg | Const | ConstStr | Count | Jump

  function Width(o: Operand): nat {
    match o
    case Reg => 1
    case Count => 1
    case Const => 2
    case ConstStr => 2
    case Jump => 2
  }

  /** The fixed operand layouts; None for CLOSURE and for unknown opcodes. */
  datatype Layout = Unknown | Fixed(ops: seq<Operand>)

  function OperandsOf(op: Byte): Layout {
    if op == HALT then Fixed([])
    else if IsOne(op) then Fixed([Reg])
    else if IsTwo(op) then Fixed([Reg, Reg])
    else if op == NEW_ARRAY then Fixed([Reg, Count])
    else if op == LOAD_CONST then Fixed([Reg, Const])
    else if IsThree(op) then Fixed([Reg, Reg, Reg])
    else if op == GET_PROP then Fixed([Reg, Reg, ConstStr])
    else if op == SET_PROP then Fixed([Reg, ConstStr, Reg])
    else if op == CALL || op == CALL_NATIVE then Fixed([Reg, ConstStr, Count])
    else if op == GET_UPVAL || op == CALL_VALUE then Fixed([Reg, Count])
    else if op == JUMP then Fixed([Jump])
    else if op == JUMP_IF_FALSE then Fixed([Reg, Jump])
    else Unknown
  }

  function TotalWidth(ops: seq<Operand>): nat {
    if ops == [] then 0 else Width(ops[0]) + TotalWidth(ops[1..])
  }

  // ---- what the verifier accepts ---------------------------------------------

  /** The length of the instruction at `pc`, or 0 if it is unknown or truncated. */
  function InstrLen(code: seq<Byte>, pc: nat): (n: nat)
    requires pc < |code|
    ensures n == 0 || (1 <= n && pc + n <= |code|)
  {
    if code[pc] == CLOSURE then
      if pc + 5 <= |code| && pc + 5 + code[pc + 4] <= |code| then 5 + code[pc + 4] else 0
    else
      var l := OperandsOf(code[pc]);
      if l.Fixed? && pc + 1 + TotalWidth(l.ops) <= |code| then 1 + TotalWidth(l.ops) else 0
  }

  predicate OperandOk(m: Module, f: Function, at: nat, o: Operand)
    requires at + Width(o) <= |f.code|
  {
    match o
    case Reg => f.code[at] < f.numRegs
    case Const => U16(f.code[at], f.code[at + 1]) < |m.consts|
    case ConstStr =>
      var k := U16(f.code[at], f.code[at + 1]);
      k < |m.consts| && m.consts[k].CStr?
    case Count => true
    case Jump => true
  }

  predicate OperandsOk(m: Module, f: Function, at: nat, ops: seq<Operand>)
    requires at + TotalWidth(ops) <= |f.code|
    decreases ops
  {
    ops == [] || (OperandOk(m, f, at, ops[0]) && OperandsOk(m, f, at + Width(ops[0]), ops[1..]))
  }

  /** The argument window of a call must fit the register file. */
  predicate WindowOk(f: Function, pc: nat)
    requires pc < |f.code| && InstrLen(f.code, pc) > 0
  {
    var code := f.code;
    if code[pc] == CALL || code[pc] == CALL_NATIVE then code[pc + 1] + code[pc + 4] <= f.numRegs
    else if code[pc] == CALL_VALUE then code[pc + 1] + code[pc + 2] + 1 <= f.numRegs
    else true
  }

  /** The instruction at `pc` is complete and its operands are in range. */
  predicate InstrOk(m: Module, f: Function, pc: nat)
    requires pc < |f.code|
  {
    var code := f.code;
    && InstrLen(code, pc) > 0
    && (if code[pc] == CLOSURE then
          && code[pc + 1] < f.numRegs
          && U16(code[pc + 2], code[pc + 3]) < |m.funcs|
          && forall j :: pc + 5 <= j < pc + 5 + code[pc + 4] ==> code[j] < f.numRegs
        else
          OperandsOk(m, f, pc + 1, OperandsOf(code[pc]).ops) && WindowOk(f, pc))
  }

  /** The positions the linear walk from `pc` visits. */
  function Starts(code: seq<Byte>, pc: nat): set<nat>
    decreases |code| - pc
  {
    if pc >= |code| then {}
    else if InstrLen(code, pc) == 0 then {pc}
    else {pc} + Starts(code, pc + InstrLen(code, pc))
  }

  predicate IsJump(op: Byte) {
    op == JUMP || op == JUMP_IF_FALSE
  }

  /** Where the jump at `pc` leads: relative to the byte after the instruction. */
  function JumpTarget(code: seq<Byte>, pc: nat): int
    requires pc < |code| && InstrLen(code, pc) > 0 && IsJump(code[pc])
  {
    var n := InstrLen(code, pc);
    pc + n + I16(code[pc + n - 2], code[pc + n - 1])
  }

  predicate JumpOk(code: seq<Byte>, pc: nat)
    requires pc < |code| && InstrLen(code, pc) > 0
  {
    IsJump(code[pc]) ==> JumpTarget(code, pc) in Starts(code, 0)
  }

  /** What it means for a function to pass: complete instructions from 0 to the end,
      operands in range, every jump to one of those instructions. */
  ghost predicate Verified(m: Module, f: Function) {
    && f.numParams <= f.numRegs
    && (forall p :: p in Starts(f.code, 0) ==> p < |f.code| && InstrOk(m, f, p) && JumpOk(f.code, p))
  }

  ghost predicate VerifiedModule(m: Module) {
    forall i :: 0 <= i < |m.funcs| ==> Verified(m, m.funcs[i])
  }

  lemma {:induction false} StartsInRange(code: seq<Byte>, pc: nat)
    ensures forall p :: p in Starts(code, pc) ==> pc <= p < |code|
    decreases |code| - pc
  {
    if pc < |code| && InstrLen(code, pc) != 0 {
      StartsInRange(code, pc + InstrLen(code, pc));
    }
  }

  lemma StartsStep(code: seq<Byte>, p: nat, n: nat)
    requires p < |code| && n > 0 && InstrLen(code, p) == n
    ensures Starts(code, p) == {p} + Starts(code, p + n)
    ensures p + n <= |code| && (p + n < |code| ==> p + n in Starts(code, p + n))
  {
  }

  // ---- the verifier's two passes -----------------------------------------------

  datatype PendingJump = PendingJump(base: nat, off: int)

  /** The operands of the instruction at `pc`, one after the other. */
  method CheckOperands(m: Module, f: Function, pc: nat, ops: seq<Operand>)
    returns (ok: bool, jumps: seq<PendingJump>)
    requires pc < |f.code| && OperandsOf(f.code[pc]) == Fixed(ops) && pc + 1 + TotalWidth(ops) <= |f.code|
    ensures ok <==> OperandsOk(m, f, pc + 1, ops)
    ensures ok ==> if IsJump(f.code[pc]) then
                     |jumps| == 1 && jumps[0].base + jumps[0].off == JumpTarget(f.code, pc)
                   else jumps == []
  {
    jumps := [];
    var at, i := pc + 1, 0;
    WidthsOf(f.code[pc]);
    while i < |ops|
      invariant 0 <= i <= |ops| && at + TotalWidth(ops[i..]) == pc + 1 + TotalWidth(ops) 
      invariant OperandsOk(m, f, pc + 1, ops) <==> OperandsOk(m, f, at, ops[i..])
      invariant if i == |ops| && IsJump(f.code[pc]) then
                  |jumps| == 1 && jumps[0].base + jumps[0].off == JumpTarget(f.code, pc)
                else jumps == []
    {
      var o := ops[i];
      assert ops[i..][0] == o && ops[i..][1..] == ops[i + 1..];
      if !OperandOk(m, f, at, o) {
        return false, [];
      }
      if o == Jump {
        jumps := jumps + [PendingJump(pc + 1 + TotalWidth(ops), I16(f.code[at], f.code[at + 1]))];
      }
      at := at + Width(o);
      i := i + 1;
    }
    ok := true;
  }

  /** The layouts spelled out: a jump operand comes last, and only jumps have one. */
  lemma WidthsOf(op: Byte)
    requires OperandsOf(op).Fixed?
    ensures var ops := OperandsOf(op).ops;
            && (forall i :: 0 <= i < |ops| ==> (ops[i] == Jump <==> IsJump(op) && i == |ops| - 1))
            && (IsJump(op) ==> |ops| > 0)
  {
  }

  /** A closure instruction: its variable list of source registers. */
  method CheckClosure(m: Module, f: Function, pc: nat) returns (ok: bool)
    requires pc < |f.code| && f.code[pc] == CLOSURE
    ensures ok <==> InstrOk(m, f, pc)
  {
    var code := f.code;
    if pc + 5 > |code| || code[pc + 1] >= f.numRegs || U16(code[pc + 2], code[pc + 3]) >= |m.funcs| {
      return false;
    }
    var nup := code[pc + 4];
    if pc + 5 + nup > |code| {
      return false;
    }
    var i := 0;
    while i < nup
      invariant 0 <= i <= nup
      invariant forall j :: pc + 5 <= j < pc + 5 + i ==> code[j] < f.numRegs
    {
      if code[pc + 5 + i] >= f.numRegs {
        return false;
      }
      i := i + 1;
    }
    ok := true;
  }

  /** One instruction of pass 1. */
  method CheckInstr(m: Module, f: Function, pc: nat) returns (ok: bool, jumps: seq<PendingJump>)
    requires pc < |f.code|
    ensures ok <==> InstrOk(m, f, pc)
    ensures ok ==> if IsJump(f.code[pc]) then
                     |jumps| == 1 && jumps[0].base + jumps[0].off == JumpTarget(f.code, pc)
                   else jumps == []
  {
    jumps := [];
    if f.code[pc] == CLOSURE {
      ok := CheckClosure(m, f, pc);
      return;
    }
    var layout := OperandsOf(f.code[pc]);
    if layout.Unknown? || pc + 1 + TotalWidth(layout.ops) > |f.code| {
      return false, [];
    }
    ok, jumps := CheckOperands(m, f, pc, layout.ops);
    if ok && !WindowOk(f, pc) {
      ok := false;
    }
  }

  /** Pass 1 so far: `starts` was visited, each of its instructions is fine, and the
      jumps collected are those of its jump instructions. */
  ghost predicate Decoded(m: Module, f: Function, pc: nat, isStart: seq<bool>, jumps: seq<PendingJump>, starts: set<nat>,
                          sources: seq<nat>)
  {
    && |isStart| == |f.code| && |sources| == |jumps|
    && Starts(f.code, 0) == starts + Starts(f.code, pc)
    && (forall p :: p in starts ==> p < pc && p < |f.code|)
    && (forall p :: p in starts && p < |f.code| ==> InstrOk(m, f, p))
    && (forall p :: 0 <= p < |isStart| ==> (isStart[p] <==> p in starts))
    && (forall i {:trigger SourceOk(f.code, sources[i], jumps[i])} :: 0 <= i < |jumps| ==>
          sources[i] in starts && SourceOk(f.code, sources[i], jumps[i]))
    && (forall p :: p in starts && p < |f.code| && IsJump(f.code[p]) ==> p in sources)
  }

  ghost predicate SourceOk(code: seq<Byte>, p: nat, j: PendingJump) {
    p < |code| && InstrLen(code, p) > 0 && IsJump(code[p]) && j.base + j.off == JumpTarget(code, p)
  }

  lemma DecodedStep(m: Module, f: Function, pc: nat, isStart: seq<bool>, jumps: seq<PendingJump>, starts: set<nat>,
                    sources: seq<nat>, more: seq<PendingJump>)
    requires pc < |f.code| && InstrOk(m, f, pc) && Decoded(m, f, pc, isStart, jumps, starts, sources)
    requires if IsJump(f.code[pc]) then |more| == 1 && more[0].base + more[0].off == JumpTarget(f.code, pc) else more == []
    ensures Decoded(m, f, pc + InstrLen(f.code, pc), isStart[pc := true], jumps + more, starts + {pc},
                    if IsJump(f.code[pc]) then sources + [pc] else sources)
  {
    hide InstrOk, JumpTarget, IsJump;
    assert InstrLen(f.code, pc) > 0 by { LenOfOk(m, f, pc); }
    var sources' := if IsJump(f.code[pc]) then sources + [pc] else sources;
    var jumps' := jumps + more;
    forall i | 0 <= i < |jumps'| ensures sources'[i] in starts + {pc} && SourceOk(f.code, sources'[i], jumps'[i]) {
      if i < |jumps| { assert SourceOk(f.code, sources[i], jumps[i]); }
    }
    forall p | p in starts + {pc} && p < |f.code| && IsJump(f.code[p]) ensures p in sources' {
      if p == pc { assert sources'[|sources|] == pc; }
    }
  }

  lemma LenOfOk(m: Module, f: Function, pc: nat)
    requires pc < |f.code| && InstrOk(m, f, pc)
    ensures InstrLen(f.code, pc) > 0
  {
  }

  lemma StartsHead(m: Module, f: Function, pc: nat, isStart: seq<bool>, jumps: seq<PendingJump>, starts: set<nat>,
                   sources: seq<nat>)
    requires pc < |f.code| && Decoded(m, f, pc, isStart, jumps, starts, sources)
    ensures Verified(m, f) ==> InstrOk(m, f, pc)
  {
    hide InstrOk;
    assert pc in Starts(f.code, pc);
  }

  /** Pass 1: decodes, bounds-checks, validates operands and collects the jumps. */
  method DecodeAll(m: Module, f: Function)
    returns (ok: bool, isStart: seq<bool>, jumps: seq<PendingJump>, ghost starts: set<nat>, ghost sources: seq<nat>)
    ensures ok ==> Decoded(m, f, |f.code|, isStart, jumps, starts, sources)
    ensures !ok ==> !Verified(m, f)
  {
    hide InstrOk, InstrLen, JumpTarget, JumpOk, Decoded;
    isStart := seq(|f.code|, _ => false);
    jumps := [];
    starts, sources := {}, [];
    var pc := 0;
    NothingDecoded(m, f, isStart);
    while pc < |f.code|
      invariant pc <= |f.code| && |isStart| == |f.code|
      invariant Decoded(m, f, pc, isStart, jumps, starts, sources)
      decreases |f.code| - pc
    {
      var fine, more := CheckInstr(m, f, pc);
      StartsHead(m, f, pc, isStart, jumps, starts, sources);
      if !fine {
        ok := false;
        return;
      }
      DecodedStep(m, f, pc, isStart, jumps, starts, sources, more);
      LenOfOk(m, f, pc);
      isStart := isStart[pc := true];
      jumps := jumps + more;
      starts, sources := starts + {pc}, if IsJump(f.code[pc]) then sources + [pc] else sources;
      pc := pc + InstrLen(f.code, pc);
    }
    ok := true;
  }

  lemma NothingDecoded(m: Module, f: Function, isStart: seq<bool>)
    requires isStart == seq(|f.code|, _ => false)
    ensures Decoded(m, f, 0, isStart, [], {}, [])
  {
    hide InstrOk, InstrLen, Starts;
  }

  /** verify_fn: accepts exactly the functions that meet `Verified`. */
  method VerifyFn(m: Module, f: Function) returns (ok: bool)
    ensures ok <==> Verified(m, f)
  {
    if f.numRegs < f.numParams {
      return false;
    }
    hide InstrOk, JumpTarget, InstrLen, Starts, JumpOk, Decoded, Verified;
    var decoded, isStart, jumps, starts, sources := DecodeAll(m, f);
    if !decoded {
      return false;
    }
    var i := 0;
    while i < |jumps|
      invariant 0 <= i <= |jumps|
      invariant forall k :: 0 <= k < i ==> jumps[k].base + jumps[k].off in starts
    {
      var target := jumps[i].base + jumps[i].off;
      JumpNeeded(m, f, isStart, jumps, starts, sources, i);
      if target < 0 || target >= |f.code| || !isStart[target] {
        return false;
      }
      i := i + 1;
    }
    AllJumpsOk(m, f, isStart, jumps, starts, sources);
    ok := true;
  }

  lemma NoStarts(code: seq<Byte>, pc: nat)
    requires pc >= |code|
    ensures Starts(code, pc) == {}
  {
  }

  lemma JumpNeeded(m: Module, f: Function, isStart: seq<bool>, jumps: seq<PendingJump>, starts: set<nat>,
                   sources: seq<nat>, i: nat)
    requires Decoded(m, f, |f.code|, isStart, jumps, starts, sources) && i < |jumps|
    ensures Verified(m, f) ==> jumps[i].base + jumps[i].off in starts
    ensures forall p :: p in starts ==> p < |f.code|
    ensures |isStart| == |f.code| && forall p :: 0 <= p < |isStart| ==> (isStart[p] <==> p in starts)
  {
    NoStarts(f.code, |f.code|);
    hide InstrOk, JumpTarget, InstrLen, Starts;
    assert SourceOk(f.code, sources[i], jumps[i]);
    assert Verified(m, f) ==> JumpOk(f.code, sources[i]);
  }

  lemma AllJumpsOk(m: Module, f: Function, isStart: seq<bool>, jumps: seq<PendingJump>, starts: set<nat>,
                   sources: seq<nat>)
    requires f.numParams <= f.numRegs
    requires Decoded(m, f, |f.code|, isStart, jumps, starts, sources)
    requires forall k :: 0 <= k < |jumps| ==> jumps[k].base + jumps[k].off in starts
    ensures Verified(m, f)
  {
    NoStarts(f.code, |f.code|);
    hide InstrOk, JumpTarget, InstrLen, Starts;
    forall p | p in starts ensures p < |f.code| && InstrOk(m, f, p) && JumpOk(f.code, p) {
      LenOfOk(m, f, p);
      if IsJump(f.code[p]) {
        var k :| 0 <= k < |sources| && sources[k] == p;
        assert SourceOk(f.code, sources[k], jumps[k]);
      }
    }
  }

  /** verify: every function passes. */
  method Verify(m: Module) returns (ok: bool)
    ensures ok <==> VerifiedModule(m)
  {
    var i := 0;
    while i < |m.funcs|
      invariant 0 <= i <= |m.funcs|
      invariant forall j :: 0 <= j < i ==> Verified(m, m.funcs[j])
    {
      var fine := VerifyFn(m, m.funcs[i]);
      if !fine {
        return false;
      }
      i := i + 1;
    }
    ok := true;
  }
}
