/** Temporaries never clobber anything: whatever an expression's code does when it runs,
    calls included, its frame keeps every register but the result's and the temporaries. */
module Isolation {
  import opened Bytecode
  import opened Verifier
  import opened Decoder
  import opened Values
  import opened Machine
  import opened Safety
  import opened Ast
  import opened Assembly
  import opened Building

  // ---- what the bytes of a fragment allow ---------------------------------------------------

  /** The instruction at `p` writes what `w` allows and continues between `lo` and `hi`. */
  ghost predicate FencedAt(code: seq<Byte>, lo: nat, hi: nat, w: Bound, p: nat) {
    p < |code| && InstrLen(code, p) > 0 && p + InstrLen(code, p) <= hi && WritesOnly(Decode(code, p), w)
    && (var i := Decode(code, p); IsJumpInstr(i) ==> lo <= p + InstrLen(code, p) + i.off <= hi)
  }

  /** Every instruction from `lo` up to `hi` writes only `dst` and the registers from `rt`
      on, neither returns nor halts, and leaves the fragment nowhere but at `hi`. */
  ghost predicate Fenced(code: seq<Byte>, lo: nat, hi: nat, w: Bound) {
    && w.Only? && lo <= hi <= |code|
    && forall p {:trigger FencedAt(code, lo, hi, w, p)} :: lo <= p < hi && p in Starts(code, 0) ==> FencedAt(code, lo, hi, w, p)
  }

  /** Between `lo` and `hi`, `b` has the instructions of `a`. */
  ghost predicate Agree(a: Asm, b: Asm, lo: nat, hi: nat) {
    hi <= |b.code| && forall p {:trigger p in b.prog} :: lo <= p < hi && p in b.prog ==> p in a.prog && a.prog[p] == b.prog[p]
  }

  /** The code an expression was compiled to is fenced, in whatever function it ends up. */
  lemma CompiledIsFenced(e: Expr, dst: nat, u: Unit, v: Unit, b: Asm, nf: nat)
    requires ExprDone(e, dst, u, v) && Ok(b, nf) && Agree(v.asm, b, |u.asm.code|, |v.asm.code|)
    ensures Fenced(b.code, |u.asm.code|, |v.asm.code|, Only(dst, u.regTop))
  {
    hide *;
    var lo, hi, w := |u.asm.code|, |v.asm.code|, Only(dst, u.regTop);
    DoneParts(e, dst, u, v);
    OkStarts(b, nf);
    FenceIf(b.code, lo, hi, w) by {
      AgreeParts(v.asm, b, lo, hi);
      forall p | lo <= p < hi && p in Starts(b.code, 0) ensures FencedAt(b.code, lo, hi, w, p) {
        AgreeAt(v.asm, b, lo, hi, p);
        OneFenced(v.asm, |v.funcs|, b, nf, lo, w, p);
      }
    }
  }

  lemma DoneParts(e: Expr, dst: nat, u: Unit, v: Unit)
    requires ExprDone(e, dst, u, v)
    ensures |u.asm.code| <= |v.asm.code| && Ok(v.asm, |v.funcs|) && Confined(v.asm, |u.asm.code|, Only(dst, u.regTop))
  {
    hide Ok, Confined, HasCode, LamsDone, Compiled, Captures, LoopsOk, Slots;
  }

  lemma AgreeParts(a: Asm, b: Asm, lo: nat, hi: nat)
    requires Agree(a, b, lo, hi)
    ensures hi <= |b.code|
  {
  }

  lemma AgreeAt(a: Asm, b: Asm, lo: nat, hi: nat, p: nat)
    requires Agree(a, b, lo, hi) && lo <= p < hi && p in b.prog
    ensures p in a.prog && a.prog[p] == b.prog[p]
  {
  }

  lemma FenceIf(code: seq<Byte>, lo: nat, hi: nat, w: Bound)
    requires w.Only? && lo <= hi <= |code|
    requires forall p {:trigger FencedAt(code, lo, hi, w, p)} :: lo <= p < hi && p in Starts(code, 0) ==> FencedAt(code, lo, hi, w, p)
    ensures Fenced(code, lo, hi, w)
  {
    hide FencedAt, Starts;
  }

  lemma FenceAt(code: seq<Byte>, lo: nat, hi: nat, w: Bound, p: nat)
    requires Fenced(code, lo, hi, w) && lo <= p < hi && p in Starts(code, 0)
    ensures FencedAt(code, lo, hi, w, p) && w.Only? && hi <= |code|
  {
    hide FencedAt, Starts;
  }

  /** One instruction of an expression, where it was put and where it ended up. */
  lemma OneFenced(a: Asm, na: nat, b: Asm, nb: nat, lo: nat, w: Bound, p: nat)
    requires Ok(a, na) && Ok(b, nb) && Confined(a, lo, w) && lo <= p && w.Only?
    requires p in a.prog && p in b.prog && a.prog[p] == b.prog[p]
    ensures FencedAt(b.code, lo, |a.code|, w, p)
  {
    hide Ok, Confined, WritesOnly, Assembly.Good, Decode, InstrLen;
    GoodAt(a, na, p);
    GoodAt(b, nb, p);
    GoodParts(a, na, p);
    GoodLen(a, na, p);
    GoodLen(b, nb, p);
    ConfinedHere(a, lo, w, p);
  }

  lemma ConfinedHere(a: Asm, lo: nat, w: Bound, p: nat)
    requires Confined(a, lo, w) && lo <= p && p in a.prog && w.Only?
    ensures WritesOnly(a.prog[p], w) && (IsJumpInstr(a.prog[p]) ==> lo <= TargetOf(a.prog, p) <= |a.code|)
  {
    assert ConfinedAt(a, lo, w, p);
  }

  // ---- what one step does to the frames ---------------------------------------------------------

  /** `fr'` is the frame `fr` with nothing written that `w` does not allow. */
  predicate Spared(fr: Frame, fr': Frame, w: Bound) {
    && fr'.func == fr.func && fr'.resultReg == fr.resultReg && |fr'.regs| == |fr.regs|
    && forall r {:trigger fr'.regs[r]} :: 0 <= r < |fr.regs| && !Allows(w, r) ==> fr'.regs[r] == fr.regs[r]
  }

  /** Over the frames below `d`: frame `d` is spared and between `lo` and `hi`, and a call
      it waits for returns into a register `w` allows. */
  ghost predicate Inside(st: State, below: seq<Frame>, fr: Frame, lo: nat, hi: nat, w: Bound) {
    var d := |below|;
    && |st.frames| > d && st.frames[..d] == below
    && Spared(fr, st.frames[d], w) && lo <= st.frames[d].pc <= hi
    && (|st.frames| > d + 1 ==> Allows(w, st.frames[d + 1].resultReg))
  }

  /** The run is over, by an error or by a halt further up. */
  predicate Over(st: State) {
    st.error != [] || st.frames == []
  }

  /** The top frame executed an instruction that writes what `w` allows. */
  predicate Ran(st: State, st': State, w: Bound, next: int, far: int) {
    var t := |st.frames| - 1;
    Over(st') ||
    (t >= 0 && |st'.frames| > t && st'.frames[..t] == st.frames[..t] && Spared(st.frames[t], st'.frames[t], w)
     && (st'.frames[t].pc == next || st'.frames[t].pc == far)
     && (|st'.frames| > t + 1 ==> Allows(w, st'.frames[t + 1].resultReg)))
  }

  /** The frames below the top one stay, but the one right below may get a result. */
  predicate Left(st: State, st': State) {
    var t := |st.frames| - 1;
    Over(st') ||
    (t >= 0 && |st'.frames| > t && st'.frames[..t] == st.frames[..t] && st'.frames[t].resultReg == st.frames[t].resultReg) ||
    (t >= 1 && |st'.frames| == t && st'.frames[..t - 1] == st.frames[..t - 1]
     && Spared(st.frames[t - 1], st'.frames[t - 1], Only(st.frames[t].resultReg, |st.frames[t - 1].regs|))
     && st'.frames[t - 1].pc == st.frames[t - 1].pc)
  }

  ghost predicate CanRun(m: Module, st: State, i: Instr, len: nat) {
    && st.frames != [] && Top(st).func < |m.funcs|
    && |Top(st).regs| == m.funcs[Top(st).func].numRegs
    && (|st.frames| >= 2 ==> Top(st).resultReg < |st.frames[|st.frames| - 2].regs|)
    && Fits(m, m.funcs[Top(st).func], i)
    && (i.Goto? || i.GotoIfFalse? ==> Top(st).pc + len + i.off >= 0)
  }

  function Far(st: State, i: Instr, len: nat): int
    requires st.frames != []
  {
    if IsJumpInstr(i) then Top(st).pc + len + i.off else Top(st).pc + len
  }

  lemma ExecRan(m: Module, env: Env, st: State, i: Instr, len: nat, w: Bound)
    requires CanRun(m, st, i, len) && WritesOnly(i, w) && w.Only?
    ensures Ran(st, Exec(m, env, st, i, len), w, Top(st).pc + len, Far(st, i, len))
  {
    hide Exec, Ran, Fits;
    if i.Call? || i.CallValue? {
      CallRan(m, env, st, i, len, w);
    } else if i.Two? || i.Three? {
      OperatorRan(m, env, st, i, len, w);
    } else if i.Goto? || i.GotoIfFalse? || i.Print? || i.SetProp? || i.Push? || i.LoadNil? {
      MovesOnRan(m, env, st, i, len, w);
    } else {
      LoadsRan(m, env, st, i, len, w);
    }
  }

  lemma MovesOnRan(m: Module, env: Env, st: State, i: Instr, len: nat, w: Bound)
    requires CanRun(m, st, i, len) && WritesOnly(i, w) && w.Only?
    requires i.Goto? || i.GotoIfFalse? || i.Print? || i.SetProp? || i.Push? || i.LoadNil?
    ensures Ran(st, Exec(m, env, st, i, len), w, Top(st).pc + len, Far(st, i, len))
  {
    hide FindKey, Truthy;
  }

  lemma LoadsRan(m: Module, env: Env, st: State, i: Instr, len: nat, w: Bound)
    requires CanRun(m, st, i, len) && WritesOnly(i, w) && w.Only?
    requires i.LoadConst? || i.NewArray? || i.NewObject? || i.GetProp? || i.Closure? || i.GetUpval?
    ensures Ran(st, Exec(m, env, st, i, len), w, Top(st).pc + len, Far(st, i, len))
  {
    hide FindKey;
  }

  lemma OperatorRan(m: Module, env: Env, st: State, i: Instr, len: nat, w: Bound)
    requires CanRun(m, st, i, len) && WritesOnly(i, w) && w.Only? && (i.Two? || i.Three?)
    ensures Ran(st, Exec(m, env, st, i, len), w, Top(st).pc + len, Far(st, i, len))
  {
    hide UnaryOp, BinaryOp;
  }

  lemma CallRan(m: Module, env: Env, st: State, i: Instr, len: nat, w: Bound)
    requires CanRun(m, st, i, len) && WritesOnly(i, w) && w.Only? && (i.Call? || i.CallValue?)
    ensures Ran(st, Exec(m, env, st, i, len), w, Top(st).pc + len, Far(st, i, len))
  {
    hide FindFunction, NewRegs;
  }

  // ---- frames further up ----------------------------------------------------------------------

  lemma ReturnLeft(st: State, v: Value)
    requires st.frames != [] && (|st.frames| >= 2 ==> Top(st).resultReg < |st.frames[|st.frames| - 2].regs|)
    ensures Left(st, Machine.Return(st, v))
  {
  }

  /** Whatever instruction runs further up, it can reach down only by returning. */
  lemma ExecLeft(m: Module, env: Env, st: State, i: Instr, len: nat)
    requires CanRun(m, st, i, len)
    ensures Left(st, Exec(m, env, st, i, len))
  {
    hide Exec, Ran, Left, Fits, WritesOnly;
    if i.Ret? || i.Halt? {
      LastLeft(m, env, st, i, len);
    } else {
      AnyBound(i);
      ExecRan(m, env, st, i, len, Only(0, 0));
      RanLeft(st, Exec(m, env, st, i, len), Only(0, 0), Top(st).pc + len, Far(st, i, len));
    }
  }

  lemma AnyBound(i: Instr)
    requires !i.Ret? && !i.Halt?
    ensures WritesOnly(i, Only(0, 0))
  {
  }

  lemma LastLeft(m: Module, env: Env, st: State, i: Instr, len: nat)
    requires CanRun(m, st, i, len) && (i.Ret? || i.Halt?)
    ensures Left(st, Exec(m, env, st, i, len))
  {
    if i.Ret? {
      ReturnLeft(st, Top(st).regs[i.r]);
    }
    hide Machine.Return;
  }

  lemma RanLeft(st: State, st': State, w: Bound, next: int, far: int)
    requires st.frames != [] && Ran(st, st', w, next, far)
    ensures Left(st, st')
  {
  }

  // ---- one step, and whole runs ---------------------------------------------------------------------

  /** The fragment is left at its end. */
  predicate AtEnd(st: State, below: seq<Frame>, hi: nat) {
    |st.frames| == |below| + 1 && st.frames[|below|].pc == hi
  }

  lemma OwnStep(st: State, st': State, below: seq<Frame>, fr: Frame, lo: nat, hi: nat, w: Bound, next: int, far: int)
    requires Inside(st, below, fr, lo, hi, w) && |st.frames| == |below| + 1 && Ran(st, st', w, next, far)
    requires lo <= next <= hi && lo <= far <= hi
    ensures Over(st') || Inside(st', below, fr, lo, hi, w)
  {
  }

  lemma UpperStep(st: State, st': State, below: seq<Frame>, fr: Frame, lo: nat, hi: nat, w: Bound)
    requires Inside(st, below, fr, lo, hi, w) && |st.frames| > |below| + 1 && Left(st, st')
    ensures Over(st') || Inside(st', below, fr, lo, hi, w)
  {
    var d, t := |below|, |st.frames| - 1;
    if !Over(st') {
      assert st.frames[..t][..d] == st.frames[..d] && st.frames[..t - 1][..d] == st.frames[..d];
      if |st'.frames| > t {
        assert st'.frames[..t][..d] == st'.frames[..d] && st'.frames[..t][d] == st.frames[..t][d];
        assert t > d + 1 ==> st'.frames[..t][d + 1] == st.frames[..t][d + 1];
      } else {
        assert st'.frames[..t - 1][..d] == st'.frames[..d];
        assert t - 1 > d ==> st'.frames[..t - 1][d] == st.frames[..t - 1][d];
        assert t - 1 > d + 1 ==> st'.frames[..t - 1][d + 1] == st.frames[..t - 1][d + 1];
      }
    }
  }

  lemma OwnInside(m: Module, env: Env, st: State, below: seq<Frame>, fr: Frame, lo: nat, hi: nat, w: Bound)
    requires Ready(m, st) && fr.func < |m.funcs| && Fenced(m.funcs[fr.func].code, lo, hi, w)
    requires Top(st).pc in Starts(m.funcs[Top(st).func].code, 0) || Top(st).pc == |m.funcs[Top(st).func].code|
    requires Inside(st, below, fr, lo, hi, w) && |st.frames| == |below| + 1 && !AtEnd(st, below, hi)
    ensures Over(Step(m, env, st)) || Inside(Step(m, env, st), below, fr, lo, hi, w)
  {
    var code, pc := m.funcs[fr.func].code, Top(st).pc;
    assert Top(st).func == fr.func && lo <= pc < hi && hi <= |code|;
    hide Starts, InstrLen, Decode, Fits, Exec, Fenced, FencedAt, WritesOnly, Ran, Inside, Over;
    FenceAt(code, lo, hi, w, pc);
    FencedParts(code, lo, hi, w, pc);
    var i, len := Decode(code, pc), InstrLen(code, pc);
    ExecRan(m, env, st, i, len, w);
    OwnStep(st, Step(m, env, st), below, fr, lo, hi, w, pc + len, Far(st, i, len));
  }

  lemma UpperInside(m: Module, env: Env, st: State, below: seq<Frame>, fr: Frame, lo: nat, hi: nat, w: Bound)
    requires Ready(m, st) && Inside(st, below, fr, lo, hi, w) && |st.frames| > |below| + 1
    ensures Over(Step(m, env, st)) || Inside(Step(m, env, st), below, fr, lo, hi, w)
  {
    hide InstrLen, Decode, Fits, Exec, Machine.Return, Left, Inside, Over;
    var code, pc := m.funcs[Top(st).func].code, Top(st).pc;
    if pc >= |code| {
      ReturnLeft(st, VNil);
    } else {
      ExecLeft(m, env, st, Decode(code, pc), InstrLen(code, pc));
    }
    UpperStep(st, Step(m, env, st), below, fr, lo, hi, w);
  }

  lemma StepInside(m: Module, env: Env, st: State, below: seq<Frame>, fr: Frame, lo: nat, hi: nat, w: Bound)
    requires VerifiedModule(m) && Inv(m, env, st) && Running(st)
    requires fr.func < |m.funcs| && Fenced(m.funcs[fr.func].code, lo, hi, w)
    requires Inside(st, below, fr, lo, hi, w) && !AtEnd(st, below, hi)
    ensures Ready(m, st) && (Over(Step(m, env, st)) || Inside(Step(m, env, st), below, fr, lo, hi, w))
  {
    InvIsReady(m, env, st);
    assert FrameOk(m, st.objs, st.frames[|st.frames| - 1]);
    hide VerifiedModule, Inv, Ready, Starts, Fenced, Step, AtEnd, Over, Spared, Allows, ValuesOk;
    if |st.frames| == |below| + 1 {
      OwnInside(m, env, st, below, fr, lo, hi, w);
    } else {
      UpperInside(m, env, st, below, fr, lo, hi, w);
    }
  }

  lemma FencedParts(code: seq<Byte>, lo: nat, hi: nat, w: Bound, p: nat)
    requires FencedAt(code, lo, hi, w, p) && lo <= p
    ensures p < |code| && InstrLen(code, p) > 0 && lo <= p + InstrLen(code, p) <= hi && WritesOnly(Decode(code, p), w)
    ensures var i := Decode(code, p); IsJumpInstr(i) ==> lo <= p + InstrLen(code, p) + i.off <= hi
  {
    hide InstrLen, Decode, WritesOnly;
  }

  /** While the fragment runs, and however deep its calls go, the frames below and the
      registers it may not write are as they were. */
  lemma {:induction false} FencedRuns(m: Module, env: Env, k: nat, n: nat, below: seq<Frame>, fr: Frame, lo: nat, hi: nat, w: Bound)
    requires VerifiedModule(m) && NativesOk(env) && m.entry < |m.funcs| && k <= n
    requires fr.func < |m.funcs| && Fenced(m.funcs[fr.func].code, lo, hi, w)
    requires After(m, env, k).frames == below + [fr] && lo <= fr.pc <= hi
    requires forall j :: k <= j < n ==> !AtEnd(After(m, env, j), below, hi)
    ensures Over(After(m, env, n)) || Inside(After(m, env, n), below, fr, lo, hi, w)
    decreases n
  {
    hide VerifiedModule, NativesOk, Inv, Step, Fenced, Inside, AtEnd;
    if n == k {
      StartsInside(After(m, env, k), below, fr, lo, hi, w);
    } else {
      FencedRuns(m, env, k, n - 1, below, fr, lo, hi, w);
      if Running(After(m, env, n - 1)) {
        StepInside(m, env, After(m, env, n - 1), below, fr, lo, hi, w);
      }
    }
  }

  lemma StartsInside(st: State, below: seq<Frame>, fr: Frame, lo: nat, hi: nat, w: Bound)
    requires st.frames == below + [fr] && lo <= fr.pc <= hi
    ensures Inside(st, below, fr, lo, hi, w)
  {
  }

  /** From the start of a compiled expression to its end: every variable and every operand
      or argument already in a register keeps its value, but for the result's register. */
  lemma ExpressionsSpare(e: Expr, dst: nat, u: Unit, v: Unit, b: Asm, m: Module, env: Env, k: nat, n: nat, below: seq<Frame>, fr: Frame)
    requires ExprDone(e, dst, u, v) && Agree(v.asm, b, |u.asm.code|, |v.asm.code|)
    requires VerifiedModule(m) && NativesOk(env) && m.entry < |m.funcs| && k <= n
    requires fr.func < |m.funcs| && m.funcs[fr.func].code == b.code && Ok(b, |m.funcs|)
    requires After(m, env, k).frames == below + [fr] && fr.pc == |u.asm.code|
    requires forall j :: k <= j < n ==> !AtEnd(After(m, env, j), below, |v.asm.code|)
    requires Running(After(m, env, n)) && AtEnd(After(m, env, n), below, |v.asm.code|)
    ensures var st := After(m, env, n);
            && st.frames[..|below|] == below && |st.frames[|below|].regs| == |fr.regs|
            && forall r {:trigger st.frames[|below|].regs[r]} :: 0 <= r < |fr.regs| && r != dst && r < u.regTop ==>
                 st.frames[|below|].regs[r] == fr.regs[r]
  {
    hide ExprDone, Agree, VerifiedModule, NativesOk, Ok, Inv, Step, After, Fenced;
    var lo, hi, w := |u.asm.code|, |v.asm.code|, Only(dst, u.regTop);
    CompiledIsFenced(e, dst, u, v, b, |m.funcs|);
    DoneParts(e, dst, u, v);
    FencedRuns(m, env, k, n, below, fr, lo, hi, w);
  }
}
