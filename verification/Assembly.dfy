/** Code under construction: bytes and the instructions they encode, step by step. */
module Assembly {
  import opened Bytecode
  import opened Verifier
  import opened Decoder
  import opened CodeOf
  import Safety

  /** The code so far, its instructions by position, the constants, and how many
      registers are in use. */
  datatype Asm = Asm(code: seq<Byte>, prog: Prog, consts: seq<Constant>, hw: nat)

  predicate IsJumpInstr(i: Instr) {
    i.Goto? || i.GotoIfFalse?
  }

  function Len(i: Instr): (n: nat)
    ensures n >= 1
  {
    |Encode(i)|
  }

  function BlankFunctions(nf: nat): (fs: seq<Function>)
    ensures |fs| == nf
  {
    seq(nf, _ => Function(0, 0, 0, 0, []))
  }

  lemma LenIs(i: Instr)
    ensures Len(i) == |Encode(i)|
  {
  }

  /** The operands are in range for `hw` registers, these constants and `nf` functions. */
  predicate InRange(consts: seq<Constant>, nf: nat, hw: nat, i: Instr) {
    Fits(Module(consts, BlankFunctions(nf), 0), Function(0, 0, hw, 0, []), i)
  }

  /** Where the jump at `p` leads. */
  function TargetOf(prog: Prog, p: nat): int
    requires p in prog && IsJumpInstr(prog[p])
  {
    p + Len(prog[p]) + prog[p].off
  }

  predicate IsPosition(a: Asm, q: int) {
    q == |a.code| || (q >= 0 && q in a.prog)
  }

  /** The instruction at `p` is encoded there, followed by another or by the end, has its
      operands in range, and jumps to an instruction or to the end. */
  ghost predicate Good(a: Asm, nf: nat, p: nat) {
    && p in a.prog && Encodable(a.prog[p]) && At(a.code, p, a.prog[p])
    && IsPosition(a, p + Len(a.prog[p]))
    && InRange(a.consts, nf, a.hw, a.prog[p])
    && (IsJumpInstr(a.prog[p]) ==> IsPosition(a, TargetOf(a.prog, p)))
  }

  ghost predicate Ok(a: Asm, nf: nat) {
    && (forall p {:trigger Good(a, nf, p)} :: p in a.prog ==> Good(a, nf, p))
    && Starts(a.code, 0) == a.prog.Keys
  }

  /** `b` continues `a`. */
  ghost predicate Grew(a: Asm, b: Asm) {
    && |a.code| <= |b.code| && a.hw <= b.hw && Extends(a.consts, b.consts)
    && Same(a.prog, b.prog, 0, |a.code|)
    && forall p {:trigger p in b.prog} :: p in b.prog && p < |a.code| ==> p in a.prog
  }

  lemma GrewTrans(a: Asm, b: Asm, c: Asm)
    requires Grew(a, b) && Grew(b, c)
    ensures Grew(a, c)
  {
  }

  lemma EmptyOk(consts: seq<Constant>, hw: nat, nf: nat)
    ensures Ok(Asm([], map[], consts, hw), nf)
  {
  }

  lemma GoodAt(a: Asm, nf: nat, p: nat)
    requires Ok(a, nf) && p in a.prog
    ensures Good(a, nf, p)
  {
  }

  lemma GoodParts(a: Asm, nf: nat, p: nat)
    requires Good(a, nf, p)
    ensures p in a.prog && Encodable(a.prog[p]) && At(a.code, p, a.prog[p]) && IsPosition(a, p + Len(a.prog[p]))
    ensures InRange(a.consts, nf, a.hw, a.prog[p])
    ensures IsJumpInstr(a.prog[p]) ==> IsPosition(a, TargetOf(a.prog, p))
  {
  }

  lemma GoodIf(a: Asm, nf: nat, p: nat)
    requires p in a.prog && Encodable(a.prog[p]) && At(a.code, p, a.prog[p]) && IsPosition(a, p + Len(a.prog[p]))
    requires InRange(a.consts, nf, a.hw, a.prog[p])
    requires IsJumpInstr(a.prog[p]) ==> IsPosition(a, TargetOf(a.prog, p))
    ensures Good(a, nf, p)
  {
  }

  // ---- the walk over the code ----------------------------------------------------------

  lemma GoodLen(a: Asm, nf: nat, p: nat)
    requires Good(a, nf, p)
    ensures p < |a.code| && InstrLen(a.code, p) == Len(a.prog[p]) && Decode(a.code, p) == a.prog[p]
    ensures p + Len(a.prog[p]) <= |a.code|
  {
    DecodeAt(a.code, p, a.prog[p]);
  }

  lemma StartsAt(code: seq<Byte>, from: nat, p: nat)
    requires p in Starts(code, from)
    ensures from <= p < |code| && (p != from ==> InstrLen(code, from) > 0)
  {
    StartsInRange(code, from);
  }

  lemma {:induction false} StartsApart(code: seq<Byte>, from: nat, p: nat, q: nat)
    requires p in Starts(code, from) && q in Starts(code, from) && p < q < |code| && InstrLen(code, p) > 0
    ensures p + InstrLen(code, p) <= q
    decreases |code| - from
  {
    hide *;
    StartsAt(code, from, p);
    StartsAt(code, from, q);
    var n := InstrLen(code, from);
    StartsStep(code, from, n);
    if p == from {
      StartsAt(code, from + n, q);
    } else {
      StartsApart(code, from + n, p, q);
    }
  }

  lemma AtAppend(code: seq<Byte>, more: seq<Byte>, p: nat, i: Instr)
    requires At(code, p, i)
    ensures At(code + more, p, i)
  {
    assert (code + more)[p..p + |Encode(i)|] == code[p..p + |Encode(i)|];
  }

  lemma AtEnd(code: seq<Byte>, i: Instr)
    ensures At(code + Encode(i), |code|, i)
  {
  }

  lemma PositionInside(a: Asm, p: nat)
    requires IsPosition(a, p) && p != |a.code|
    ensures p in a.prog
  {
  }

  // ---- emitting ------------------------------------------------------------------------

  function Emitted(a: Asm, i: Instr): Asm {
    a.(code := a.code + Encode(i), prog := a.prog[|a.code| := i])
  }

  /** What `Good` says about the walk, before and after appending. */
  lemma AppendLen(a: Asm, nf: nat, i: Instr, p: nat)
    requires Ok(a, nf) && p in a.prog
    ensures p < |a.code| && IsPosition(a, p + Len(a.prog[p])) && InstrLen(a.code, p) == Len(a.prog[p])
    ensures InstrLen(a.code + Encode(i), p) == Len(a.prog[p])
  {
    hide *;
    GoodAt(a, nf, p);
    GoodParts(a, nf, p);
    GoodLen(a, nf, p);
    AtAppend(a.code, Encode(i), p, a.prog[p]);
    DecodeAt(a.code + Encode(i), p, a.prog[p]);
    LenIs(a.prog[p]);
  }

  lemma {:induction false} WalkAppend(a: Asm, nf: nat, i: Instr, p: nat)
    requires Ok(a, nf) && IsPosition(a, p) && Encodable(i)
    ensures Starts(a.code + Encode(i), p) == Starts(a.code, p) + {|a.code|}
    decreases |a.code| - p
  {
    hide Ok, Starts, InstrLen, Encode, Len, Decode, At, Encodable;
    var code' := a.code + Encode(i);
    if p == |a.code| {
      AtEnd(a.code, i);
      DecodeAt(code', p, i);
      NoStarts(a.code, p);
      NoStarts(code', |code'|);
      StartsStep(code', p, |Encode(i)|);
    } else {
      AppendLen(a, nf, i, p);
      var n := Len(a.prog[p]);
      StartsStep(a.code, p, n);
      StartsStep(code', p, n);
      WalkAppend(a, nf, i, p + n);
    }
  }

  /** A new jump may be a placeholder, leading to the next instruction. */
  predicate JumpAhead(a: Asm, i: Instr) {
    IsJumpInstr(i) ==> IsPosition(a, |a.code| + Len(i) + i.off) || i.off == 0
  }

  lemma EmitPosition(a: Asm, i: Instr, t: int)
    requires IsPosition(a, t)
    ensures IsPosition(Emitted(a, i), t)
  {
  }

  lemma EmitKeeps(a: Asm, i: Instr, p: nat)
    requires p in a.prog && p < |a.code|
    ensures var b := Emitted(a, i);
            && p in b.prog && b.prog[p] == a.prog[p] && b.code == a.code + Encode(i) && b.consts == a.consts && b.hw == a.hw
            && (IsJumpInstr(a.prog[p]) ==> TargetOf(b.prog, p) == TargetOf(a.prog, p))
  {
  }

  lemma EmitGood(a: Asm, nf: nat, i: Instr, p: nat)
    requires Good(a, nf, p)
    ensures Good(Emitted(a, i), nf, p)
  {
    hide *;
    GoodParts(a, nf, p);
    GoodLen(a, nf, p);
    EmitKeeps(a, i, p);
    AtAppend(a.code, Encode(i), p, a.prog[p]);
    EmitPosition(a, i, p + Len(a.prog[p]));
    if IsJumpInstr(a.prog[p]) { EmitPosition(a, i, TargetOf(a.prog, p)); }
    GoodIf(Emitted(a, i), nf, p);
  }

  lemma EmitLast(a: Asm, nf: nat, i: Instr)
    requires Encodable(i) && InRange(a.consts, nf, a.hw, i) && JumpAhead(a, i)
    ensures Good(Emitted(a, i), nf, |a.code|)
  {
    AtEnd(a.code, i);
    hide InRange, At, Encode;
  }

  lemma EmitAllGood(a: Asm, nf: nat, i: Instr, p: nat)
    requires Ok(a, nf) && Encodable(i) && InRange(a.consts, nf, a.hw, i) && JumpAhead(a, i) && p in Emitted(a, i).prog
    ensures Good(Emitted(a, i), nf, p)
    ensures p in a.prog ==> p < |a.code|
  {
    assert p in a.prog || p == |a.code|;
    hide *;
    if p in a.prog {
      GoodAt(a, nf, p);
      GoodLen(a, nf, p);
      EmitGood(a, nf, i, p);
    } else {
      EmitLast(a, nf, i);
    }
  }

  lemma OkStarts(a: Asm, nf: nat)
    requires Ok(a, nf)
    ensures Starts(a.code, 0) == a.prog.Keys
  {
  }

  lemma OkIf(a: Asm, nf: nat)
    requires forall p {:trigger Good(a, nf, p)} :: p in a.prog ==> Good(a, nf, p)
    requires Starts(a.code, 0) == a.prog.Keys
    ensures Ok(a, nf)
  {
  }

  lemma EmitStarts(a: Asm, nf: nat, i: Instr)
    requires Ok(a, nf) && Encodable(i)
    ensures Starts(Emitted(a, i).code, 0) == Emitted(a, i).prog.Keys
  {
    ZeroIsPosition(a, nf);
    hide Ok, Starts, Encode, Encodable, IsPosition;
    OkStarts(a, nf);
    WalkAppend(a, nf, i, 0);
    assert Emitted(a, i).prog.Keys == a.prog.Keys + {|a.code|};
  }

  /** Appending an instruction in range keeps the code well formed. */
  lemma EmitOk(a: Asm, nf: nat, i: Instr)
    requires Ok(a, nf) && Encodable(i) && InRange(a.consts, nf, a.hw, i) && JumpAhead(a, i)
    ensures Ok(Emitted(a, i), nf) && Grew(a, Emitted(a, i))
  {
    hide *;
    var b := Emitted(a, i);
    EmitStarts(a, nf, i);
    forall p | p in b.prog ensures Good(b, nf, p) {
      EmitAllGood(a, nf, i, p);
    }
    OkIf(b, nf);
    EmitGrew(a, nf, i);
  }

  lemma EmitGrew(a: Asm, nf: nat, i: Instr)
    requires Ok(a, nf)
    ensures Grew(a, Emitted(a, i))
  {
    OkStarts(a, nf);
    StartsInRange(a.code, 0);
    assert forall p :: p in a.prog ==> p < |a.code|;
    hide Ok, Starts, Encode;
  }

  lemma ZeroIsPosition(a: Asm, nf: nat)
    requires Ok(a, nf)
    ensures IsPosition(a, 0)
  {
  }

  /** The last instruction from `p` on. */
  lemma {:induction false} LastInstr(a: Asm, nf: nat, p: nat) returns (q: nat)
    requires Ok(a, nf) && p in a.prog
    ensures q in a.prog && q + Len(a.prog[q]) == |a.code|
    decreases |a.code| - p
  {
    hide *;
    GoodAt(a, nf, p);
    GoodParts(a, nf, p);
    GoodLen(a, nf, p);
    q := p;
    var n := p + Len(a.prog[p]);
    if n != |a.code| {
      PositionInside(a, n);
      q := LastInstr(a, nf, n);
    }
  }

  /** Where code ended stays a position when code is added. */
  lemma EndStays(a: Asm, b: Asm, nf: nat)
    requires Ok(a, nf) && Ok(b, nf) && Grew(a, b)
    ensures IsPosition(b, |a.code|)
  {
    if |a.code| == 0 {
      ZeroIsPosition(b, nf);
    } else {
      ZeroIsPosition(a, nf);
      var q := LastInstr(a, nf, 0);
      GoodAt(a, nf, q);
      GoodLen(a, nf, q);
      assert q in b.prog && b.prog[q] == a.prog[q];
      GoodAt(b, nf, q);
      GoodParts(b, nf, q);
    }
    hide Ok, Grew, Good, Starts, IsPosition, Len;
  }

  /** All jumps lead to instructions. */
  ghost predicate Sealed(a: Asm) {
    forall p {:trigger a.prog[p]} :: p in a.prog && IsJumpInstr(a.prog[p]) ==> TargetOf(a.prog, p) >= 0 && TargetOf(a.prog, p) in a.prog
  }

  /** After an instruction that is no jump, no jump leads past the end. */
  lemma EmitSeals(a: Asm, nf: nat, i: Instr)
    requires Ok(a, nf) && !IsJumpInstr(i)
    ensures Sealed(Emitted(a, i))
  {
    var b := Emitted(a, i);
    hide Starts;
    forall p | p in b.prog && IsJumpInstr(b.prog[p]) ensures TargetOf(b.prog, p) >= 0 && TargetOf(b.prog, p) in b.prog {
      assert Good(a, nf, p);
    }
  }

  // ---- patching --------------------------------------------------------------------------

  function Retarget(i: Instr, off: int): Instr
    requires IsJumpInstr(i)
  {
    match i
    case Goto(_) => Goto(off)
    case GotoIfFalse(r, _) => GotoIfFalse(r, off)
  }

  /** Writes offset `off` into the jump at `p`, whose operand is its last two bytes. */
  function Patched(a: Asm, p: nat, off: int): Asm
    requires p in a.prog && IsJumpInstr(a.prog[p]) && p + Len(a.prog[p]) <= |a.code|
  {
    var pos := p + Len(a.prog[p]) - 2;
    a.(code := a.code[pos := Lo(off)][pos + 1 := Hi(off)], prog := a.prog[p := Retarget(a.prog[p], off)])
  }

  lemma PatchedAt(a: Asm, nf: nat, p: nat, off: int)
    requires Good(a, nf, p) && IsJumpInstr(a.prog[p])
    ensures p + Len(a.prog[p]) <= |a.code|
    ensures At(Patched(a, p, off).code, p, Retarget(a.prog[p], off)) && Len(Retarget(a.prog[p], off)) == Len(a.prog[p])
  {
    BytesAt(a.code, p, a.prog[p]);
    var code' := Patched(a, p, off).code;
    var e, e' := Encode(a.prog[p]), Encode(Retarget(a.prog[p], off));
    forall k | 0 <= k < |e'| ensures code'[p + k] == e'[k] {
      assert a.code[p + k] == e[k];
    }
    assert code'[p..p + |e'|] == e';
  }

  /** Two instructions do not overlap. */
  lemma GoodApart(a: Asm, nf: nat, p: nat, q: nat)
    requires Ok(a, nf) && p in a.prog && q in a.prog && p < q
    ensures p + Len(a.prog[p]) <= q
  {
    hide *;
    GoodAt(a, nf, p);
    GoodAt(a, nf, q);
    GoodLen(a, nf, p);
    GoodLen(a, nf, q);
    OkStarts(a, nf);
    StartsApart(a.code, 0, p, q);
  }

  lemma AtElsewhere(code: seq<Byte>, code': seq<Byte>, q: nat, i: Instr)
    requires At(code, q, i) && |code'| == |code|
    requires forall k :: q <= k < q + Len(i) && k < |code| ==> code'[k] == code[k]
    ensures At(code', q, i)
  {
    assert code'[q..q + |Encode(i)|] == code[q..q + |Encode(i)|];
  }

  lemma PatchedBytes(a: Asm, p: nat, off: int, k: nat)
    requires p in a.prog && IsJumpInstr(a.prog[p]) && p + Len(a.prog[p]) <= |a.code| && k < |a.code|
    requires k < p || p + Len(a.prog[p]) <= k
    ensures var b := Patched(a, p, off); |b.code| == |a.code| && b.code[k] == a.code[k]
  {
  }

  lemma PatchedElsewhere(a: Asm, nf: nat, p: nat, off: int, q: nat)
    requires Ok(a, nf) && p in a.prog && IsJumpInstr(a.prog[p]) && q in a.prog && q != p
    requires p + Len(a.prog[p]) <= |a.code|
    ensures At(Patched(a, p, off).code, q, a.prog[q])
  {
    hide *;
    var code' := Patched(a, p, off).code;
    GoodAt(a, nf, q);
    GoodParts(a, nf, q);
    if p < q { GoodApart(a, nf, p, q); } else { GoodApart(a, nf, q, p); }
    PatchSize(a, p, off);
    forall k | q <= k < q + Len(a.prog[q]) && k < |a.code| ensures code'[k] == a.code[k] {
      PatchedBytes(a, p, off, k);
    }
    AtElsewhere(a.code, code', q, a.prog[q]);
  }

  /** Every instruction of `a` has the same length in `code`. */
  ghost predicate SameLengths(a: Asm, code: seq<Byte>) {
    |code| == |a.code| && forall q {:trigger a.prog[q]} :: q in a.prog ==> q < |code| && InstrLen(code, q) == Len(a.prog[q])
  }

  lemma SameLengthsAt(a: Asm, code: seq<Byte>, q: nat)
    requires SameLengths(a, code) && q in a.prog
    ensures q < |code| && InstrLen(code, q) == Len(a.prog[q])
  {
  }

  lemma PatchedStep(a: Asm, code: seq<Byte>, nf: nat, p: nat, n: nat)
    requires Ok(a, nf) && SameLengths(a, code) && p in a.prog && n == Len(a.prog[p])
    ensures p < |a.code| && IsPosition(a, p + n)
    ensures Starts(a.code, p) == {p} + Starts(a.code, p + n)
    ensures Starts(code, p) == {p} + Starts(code, p + n)
  {
    hide *;
    GoodAt(a, nf, p);
    GoodParts(a, nf, p);
    GoodLen(a, nf, p);
    SameLengthsAt(a, code, p);
    StartsStep(a.code, p, n);
    StartsStep(code, p, n);
  }

  lemma {:induction false} WalkPatched(a: Asm, code: seq<Byte>, nf: nat, p: nat)
    requires Ok(a, nf) && IsPosition(a, p) && |a.code| == |code| && SameLengths(a, code)
    ensures Starts(code, p) == Starts(a.code, p)
    decreases |a.code| - p
  {
    hide *;
    if p == |a.code| {
      NoStarts(a.code, p);
      NoStarts(code, p);
    } else {
      PositionInside(a, p);
      var n := Len(a.prog[p]);
      PatchedStep(a, code, nf, p, n);
      WalkPatched(a, code, nf, p + n);
    }
  }

  /** Only the patched jump's target changed. */
  lemma PatchTargets(a: Asm, p: nat, off: int, q: nat)
    requires p in a.prog && IsJumpInstr(a.prog[p]) && q in a.prog && p + Len(a.prog[p]) <= |a.code|
    ensures var b := Patched(a, p, off);
            && Len(b.prog[q]) == Len(a.prog[q]) && IsJumpInstr(b.prog[q]) == IsJumpInstr(a.prog[q])
            && (q != p ==> b.prog[q] == a.prog[q])
            && (IsJumpInstr(a.prog[q]) ==> TargetOf(b.prog, q) == if q == p then p + Len(a.prog[p]) + off else TargetOf(a.prog, q))
            && forall t :: IsPosition(b, t) <==> IsPosition(a, t)
  {
  }

  lemma PatchRange(a: Asm, nf: nat, p: nat, off: int)
    requires p in a.prog && IsJumpInstr(a.prog[p]) && InRange(a.consts, nf, a.hw, a.prog[p]) && -32768 <= off <= 32767
    ensures InRange(a.consts, nf, a.hw, Retarget(a.prog[p], off)) && Encodable(Retarget(a.prog[p], off))
  {
  }

  lemma PatchKeeps(a: Asm, p: nat, off: int, q: nat)
    requires p in a.prog && IsJumpInstr(a.prog[p]) && q in a.prog && p + Len(a.prog[p]) <= |a.code|
    ensures var b := Patched(a, p, off);
            && b.consts == a.consts && b.hw == a.hw && q in b.prog
            && b.prog[q] == if q == p then Retarget(a.prog[p], off) else a.prog[q]
  {
  }

  lemma PatchGood(a: Asm, nf: nat, p: nat, off: int, q: nat)
    requires Ok(a, nf) && p in a.prog && IsJumpInstr(a.prog[p]) && q in a.prog && p + Len(a.prog[p]) <= |a.code|
    requires -32768 <= off <= 32767 && IsPosition(a, p + Len(a.prog[p]) + off)
    ensures Good(Patched(a, p, off), nf, q)
  {
    hide *;
    var b := Patched(a, p, off);
    PatchKeeps(a, p, off, q);
    GoodAt(a, nf, p);
    GoodAt(a, nf, q);
    GoodParts(a, nf, p);
    GoodParts(a, nf, q);
    if q == p { PatchedAt(a, nf, p, off); } else { PatchedElsewhere(a, nf, p, off, q); }
    PatchTargets(a, p, off, q);
    PatchRange(a, nf, p, off);
    GoodIf(b, nf, q);
  }

  lemma PatchSize(a: Asm, p: nat, off: int)
    requires p in a.prog && IsJumpInstr(a.prog[p]) && p + Len(a.prog[p]) <= |a.code|
    ensures |Patched(a, p, off).code| == |a.code| && Patched(a, p, off).prog.Keys == a.prog.Keys
  {
  }

  lemma PatchLength(a: Asm, nf: nat, p: nat, off: int, q: nat)
    requires Ok(a, nf) && p in a.prog && IsJumpInstr(a.prog[p]) && q in a.prog && p + Len(a.prog[p]) <= |a.code|
    requires -32768 <= off <= 32767 && IsPosition(a, p + Len(a.prog[p]) + off)
    ensures var b := Patched(a, p, off); q < |b.code| && InstrLen(b.code, q) == Len(a.prog[q])
  {
    hide *;
    PatchGood(a, nf, p, off, q);
    GoodLen(Patched(a, p, off), nf, q);
    PatchTargets(a, p, off, q);
  }

  lemma PatchStarts(a: Asm, nf: nat, p: nat, off: int)
    requires Ok(a, nf) && p in a.prog && IsJumpInstr(a.prog[p]) && p + Len(a.prog[p]) <= |a.code|
    requires -32768 <= off <= 32767 && IsPosition(a, p + Len(a.prog[p]) + off)
    ensures Starts(Patched(a, p, off).code, 0) == Patched(a, p, off).prog.Keys
  {
    var b := Patched(a, p, off);
    assert SameLengths(a, b.code) by {
      PatchSize(a, p, off);
      hide Patched, InstrLen, Len, Starts, Ok, IsPosition, TargetOf;
      forall q | q in a.prog ensures q < |b.code| && InstrLen(b.code, q) == Len(a.prog[q]) { PatchLength(a, nf, p, off, q); }
    }
    ZeroIsPosition(a, nf);
    hide *;
    PatchSize(a, p, off);
    OkStarts(a, nf);
    WalkPatched(a, b.code, nf, 0);
  }

  /** Redirecting a jump to an instruction or to the end keeps the code well formed. */
  lemma PatchOk(a: Asm, nf: nat, p: nat, off: int)
    requires Ok(a, nf) && p in a.prog && IsJumpInstr(a.prog[p])
    requires -32768 <= off <= 32767 && IsPosition(a, p + Len(a.prog[p]) + off)
    ensures p + Len(a.prog[p]) <= |a.code|
    ensures Ok(Patched(a, p, off), nf)
  {
    hide *;
    GoodAt(a, nf, p);
    GoodLen(a, nf, p);
    var b := Patched(a, p, off);
    PatchSize(a, p, off);
    PatchStarts(a, nf, p, off);
    forall q | q in b.prog ensures Good(b, nf, q) {
      PatchGood(a, nf, p, off, q);
    }
    OkIf(b, nf);
  }

  // ---- more registers, more constants ------------------------------------------------------

  lemma RangeGrows(consts: seq<Constant>, consts': seq<Constant>, nf: nat, hw: nat, hw': nat, i: Instr)
    requires InRange(consts, nf, hw, i) && Extends(consts, consts') && hw <= hw'
    ensures InRange(consts', nf, hw', i)
  {
  }

  lemma MoreOk(a: Asm, nf: nat, consts: seq<Constant>, hw: nat)
    requires Ok(a, nf) && Extends(a.consts, consts) && a.hw <= hw
    ensures Ok(a.(consts := consts, hw := hw), nf) && Grew(a, a.(consts := consts, hw := hw))
  {
    hide Starts, InRange, At, Encode, Encodable;
    var b := a.(consts := consts, hw := hw);
    forall p | p in b.prog ensures Good(b, nf, p) {
      assert Good(a, nf, p);
      RangeGrows(a.consts, consts, nf, a.hw, hw, a.prog[p]);
    }
  }

  // ---- finished code passes the verifier ------------------------------------------------------

  lemma FitsAnywhere(m: Module, f: Function, hw: nat, i: Instr)
    requires InRange(m.consts, |m.funcs|, hw, i) && f.numRegs == hw
    ensures Fits(m, f, i)
  {
  }

  lemma FinishedAt(a: Asm, m: Module, f: Function, p: nat)
    requires Ok(a, |m.funcs|) && Sealed(a) && m.consts == a.consts && f.code == a.code && f.numRegs == a.hw && p in a.prog
    ensures p < |f.code| && InstrOk(m, f, p) && JumpOk(f.code, p)
  {
    assert Good(a, |m.funcs|, p);
    GoodLen(a, |m.funcs|, p);
    FitsAnywhere(m, f, a.hw, a.prog[p]);
    InstrOkIsFits(m, f, p);
    Safety.JumpIsGoto(f.code, p);
    JumpInstrs(a, |m.funcs|, p);
    hide InstrOk, Fits, InRange, At, Encode, Good, Starts, InstrLen, Decode, JumpTarget;
  }

  lemma JumpInstrs(a: Asm, nf: nat, p: nat)
    requires Good(a, nf, p)
    ensures p < |a.code| && (IsJump(a.code[p]) ==> IsJumpInstr(a.prog[p]))
  {
    BytesAt(a.code, p, a.prog[p]);
    assert a.code[p + 0] == Encode(a.prog[p])[0];
    hide At, InRange, Fits;
  }

  /** Well-formed code without jumps past its end is accepted by the verifier. */
  lemma FinishedVerifies(a: Asm, m: Module, f: Function)
    requires Ok(a, |m.funcs|) && Sealed(a) && m.consts == a.consts
    requires f.code == a.code && f.numRegs == a.hw && f.numParams <= f.numRegs
    ensures Verified(m, f)
  {
    forall p | p in Starts(f.code, 0) ensures p < |f.code| && InstrOk(m, f, p) && JumpOk(f.code, p) {
      FinishedAt(a, m, f, p);
    }
    hide InstrOk, JumpOk, Starts;
  }

  lemma VerifiedGrows(m: Module, m': Module, f: Function)
    requires Verified(m, f) && Extends(m.consts, m'.consts) && |m.funcs| == |m'.funcs|
    ensures Verified(m', f)
  {
    hide Starts, InstrLen, JumpOk;
    forall p | p in Starts(f.code, 0) ensures InstrOk(m', f, p) {
      assert InstrOk(m, f, p);
      OkGrows(m, m', f, p);
    }
  }

  lemma OkGrows(m: Module, m': Module, f: Function, p: nat)
    requires p < |f.code| && InstrOk(m, f, p) && Extends(m.consts, m'.consts) && |m.funcs| == |m'.funcs|
    ensures InstrOk(m', f, p)
  {
    LenOfOk(m, f, p);
    InstrOkIsFits(m, f, p);
    InstrOkIsFits(m', f, p);
    hide InstrOk, InstrLen, Decode;
  }
}
