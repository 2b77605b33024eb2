/** Compiled code does what the source says: same output, same final variables, same
    error, and it runs on where the source runs on. */
module Simulation {
  import opened Bytecode
  import opened Verifier
  import opened Decoder
  import opened Values
  import opened Machine
  import opened Safety
  import opened Ast
  import opened Source
  import opened CodeOf
  import opened Assembly

  /** A module whose entry function has the code `a`, and what it runs in. */
  datatype Ctx = Ctx(m: Module, env: Env, a: Asm)

  ghost predicate Fit(c: Ctx) {
    && VerifiedModule(c.m) && |c.m.funcs| > 0 && c.m.entry == 0
    && c.m.funcs[0].code == c.a.code && c.m.funcs[0].numRegs == c.a.hw
    && Ok(c.a, |c.m.funcs|) && Extends(c.a.consts, c.m.consts)
  }

  /** Running the entry function at `pc`, with these registers and this output so far. */
  function At(pc: nat, regs: seq<Value>, out: seq<Value>): State {
    State([Frame(0, pc, regs, 0, VNil)], [], out, [])
  }

  // ---- runs --------------------------------------------------------------------------------

  /** From `st` the machine takes `k` steps to `st'`. */
  ghost predicate Runs(c: Ctx, st: State, st': State, k: nat)
    decreases k
  {
    if k == 0 then st == st'
    else Running(st) && Ready(c.m, st) && Runs(c, Step(c.m, c.env, st), st', k - 1)
  }

  lemma {:induction false} RunsTrans(c: Ctx, st: State, st': State, st'': State, k: nat, k': nat)
    requires Runs(c, st, st', k) && Runs(c, st', st'', k')
    ensures Runs(c, st, st'', k + k')
    decreases k
  {
    hide Step, Ready, Running;
    if k > 0 { RunsTrans(c, Step(c.m, c.env, st), st', st'', k - 1, k'); }
  }

  // ---- one instruction --------------------------------------------------------------------------

  ghost predicate CanExec(c: Ctx, p: nat, regs: seq<Value>) {
    && p in c.a.prog && |c.m.funcs| > 0 && |regs| == c.m.funcs[0].numRegs
    && Fits(c.m, c.m.funcs[0], c.a.prog[p])
    && (IsJumpInstr(c.a.prog[p]) ==> p + Len(c.a.prog[p]) + c.a.prog[p].off >= 0)
  }

  function ExecAt(c: Ctx, p: nat, regs: seq<Value>, out: seq<Value>): State
    requires CanExec(c, p, regs)
  {
    Machine.Exec(c.m, c.env, At(p, regs, out), c.a.prog[p], Len(c.a.prog[p]))
  }

  lemma PositionFacts(c: Ctx, p: nat)
    requires Fit(c) && p in c.a.prog
    ensures p in Starts(c.a.code, 0) && p < |c.a.code| && InstrLen(c.a.code, p) == Len(c.a.prog[p]) && Decode(c.a.code, p) == c.a.prog[p]
  {
    hide Starts, InstrLen, Decode, VerifiedModule, Assembly.Good;
    OkStarts(c.a, |c.m.funcs|);
    GoodAt(c.a, |c.m.funcs|, p);
    GoodLen(c.a, |c.m.funcs|, p);
  }

  /** The machine is ready for the instruction at `p`, and executes exactly it. */
  lemma StepIs(c: Ctx, p: nat, regs: seq<Value>, out: seq<Value>)
    requires Fit(c) && p in c.a.prog && |regs| == c.a.hw
    ensures CanExec(c, p, regs) && Runs(c, At(p, regs, out), ExecAt(c, p, regs, out), 1)
  {
    PositionFacts(c, p);
    assert Verified(c.m, c.m.funcs[0]);
    Continuations(c.m, c.m.funcs[0], p);
    var st := At(p, regs, out);
    assert Top(st) == st.frames[0];
    hide Starts, InstrLen, Decode, VerifiedModule, Verified, Ok, Fits, Encode, Machine.Exec;
    assert CanExec(c, p, regs);
    assert Ready(c.m, st) && Step(c.m, c.env, st) == ExecAt(c, p, regs, out);
    assert Runs(c, ExecAt(c, p, regs, out), ExecAt(c, p, regs, out), 0);
  }

  lemma TopAt(p: nat, regs: seq<Value>, out: seq<Value>)
    ensures var st := At(p, regs, out); st.frames != [] && Top(st) == Frame(0, p, regs, 0, VNil)
    ensures forall r: nat, v, n: nat :: r < |regs| ==> WriteReg(At(p, regs, out), r, v, n) == At(p + n, regs[r := v], out)
    ensures forall n: nat :: Advance(At(p, regs, out), n) == At(p + n, regs, out)
    ensures forall q: nat :: SetTop(At(p, regs, out), Frame(0, q, regs, 0, VNil)) == At(q, regs, out)
  {
  }

  lemma StepConst(c: Ctx, p: nat, dst: nat, k: Constant, regs: seq<Value>, out: seq<Value>, v: Value)
    requires Fit(c) && Loads(c.a.prog, c.a.consts, p, dst, k) && |regs| == c.a.hw
    requires (k.CInt? && v == VInt(k.i)) || (k.CBool? && v == VBool(k.b))
    ensures dst < |regs| && Runs(c, At(p, regs, out), At(p + 4, regs[dst := v], out), 1)
  {
    StepIs(c, p, regs, out);
    assert c.m.consts[c.a.prog[p].k] == k;
    assert Len(c.a.prog[p]) == 4;
    TopAt(p, regs, out);
    hide Fit, Runs, Encode, WriteReg, At;
  }

  lemma StepNil(c: Ctx, p: nat, regs: seq<Value>, out: seq<Value>, d: Byte)
    requires Fit(c) && p in c.a.prog && c.a.prog[p] == LoadNil(d) && |regs| == c.a.hw
    ensures d < |regs| && Runs(c, At(p, regs, out), At(p + 2, regs[d := VNil], out), 1)
  {
    StepIs(c, p, regs, out);
    assert Len(c.a.prog[p]) == 2;
    TopAt(p, regs, out);
    hide Fit, Runs, Encode, WriteReg, At;
  }

  lemma StepMove(c: Ctx, p: nat, regs: seq<Value>, out: seq<Value>, d: Byte, s: Byte)
    requires Fit(c) && p in c.a.prog && c.a.prog[p] == Two(MOVE, d, s) && |regs| == c.a.hw
    ensures d < |regs| && s < |regs| && Runs(c, At(p, regs, out), At(p + 3, regs[d := regs[s]], out), 1)
  {
    StepIs(c, p, regs, out);
    assert Len(c.a.prog[p]) == 3;
    TopAt(p, regs, out);
    hide Fit, Runs, Encode, WriteReg, At;
  }

  /** A state stopped by an error, with the output kept. */
  predicate Halted(st: State, e: Err, out: seq<Value>) {
    st.error == [e] && st.output == out
  }

  /** An operator's result arrives in its register, or its error stops the machine. */
  ghost predicate Settles(c: Ctx, st: State, st': State, p: nat, regs: seq<Value>, out: seq<Value>, d: nat, o: Outcome) {
    && d < |regs| && Runs(c, st, st', 1)
    && match o
       case Good(v) => st' == At(p, regs[d := v], out)
       case Bad(e) => Halted(st', e, out)
  }

  lemma StepUnary(c: Ctx, p: nat, z: nat, regs: seq<Value>, out: seq<Value>, op: Byte, d: Byte, s: Byte) returns (st': State)
    requires Fit(c) && p in c.a.prog && c.a.prog[p] == Two(op, d, s) && op != MOVE && |regs| == c.a.hw && z == p + 3
    ensures s < |regs| && Settles(c, At(p, regs, out), st', z, regs, out, d, UnaryOp(c.env.fp, op, regs[s]))
  {
    StepIs(c, p, regs, out);
    assert Len(c.a.prog[p]) == 3;
    TopAt(p, regs, out);
    st' := ExecAt(c, p, regs, out);
    hide Fit, Runs, Encode, WriteReg, UnaryOp;
  }

  lemma StepBinary(c: Ctx, p: nat, z: nat, regs: seq<Value>, out: seq<Value>, op: Byte, d: Byte, s: Byte, t: Byte) returns (st': State)
    requires Fit(c) && p in c.a.prog && c.a.prog[p] == Three(op, d, s, t) && op != ARRAY_GET && op != ARRAY_SET && |regs| == c.a.hw && z == p + 4
    ensures s < |regs| && t < |regs| && Settles(c, At(p, regs, out), st', z, regs, out, d, BinaryOp(c.env.fp, [], op, regs[s], regs[t]))
  {
    StepIs(c, p, regs, out);
    assert Len(c.a.prog[p]) == 4;
    TopAt(p, regs, out);
    st' := ExecAt(c, p, regs, out);
    hide Fit, Runs, Encode, WriteReg, BinaryOp;
  }

  lemma ExecJump(c: Ctx, p: nat, regs: seq<Value>, out: seq<Value>, target: nat)
    requires CanExec(c, p, regs) && IsJumpInstr(c.a.prog[p]) && target == p + Len(c.a.prog[p]) + c.a.prog[p].off
    ensures c.a.prog[p].Goto? ==> ExecAt(c, p, regs, out) == At(target, regs, out)
    ensures c.a.prog[p].GotoIfFalse? ==>
              ExecAt(c, p, regs, out) == At(if Truthy(c.env.fp, regs[c.a.prog[p].r]) then p + Len(c.a.prog[p]) else target, regs, out)
  {
    hide Len, Encode, Truthy;
  }

  lemma JumpLen(prog: Prog, p: nat, r: nat, target: int)
    ensures Jumps(prog, p, target) ==> p in prog && prog[p].Goto? && target == p + Len(prog[p]) + prog[p].off
    ensures Branches(prog, p, r, target) ==>
              p in prog && prog[p].GotoIfFalse? && prog[p].r == r && Len(prog[p]) == 4 && target == p + Len(prog[p]) + prog[p].off
  {
  }

  lemma StepGoto(c: Ctx, p: nat, regs: seq<Value>, out: seq<Value>, target: nat)
    requires Fit(c) && Jumps(c.a.prog, p, target) && |regs| == c.a.hw
    ensures Runs(c, At(p, regs, out), At(target, regs, out), 1)
  {
    hide Fit, Runs, Len, At, ExecAt, CanExec, Jumps;
    JumpLen(c.a.prog, p, 0, target);
    StepIs(c, p, regs, out);
    ExecJump(c, p, regs, out, target);
  }

  lemma StepBranch(c: Ctx, p: nat, r: nat, target: nat, regs: seq<Value>, out: seq<Value>)
    requires Fit(c) && Branches(c.a.prog, p, r, target) && |regs| == c.a.hw
    ensures r < |regs| && Runs(c, At(p, regs, out), At(if Truthy(c.env.fp, regs[r]) then p + 4 else target, regs, out), 1)
  {
    hide Fit, Runs, Len, At, ExecAt, CanExec, Branches, Truthy;
    JumpLen(c.a.prog, p, r, target);
    NamedRegs(c, p);
    StepIs(c, p, regs, out);
    ExecJump(c, p, regs, out, target);
  }

  lemma StepPrint(c: Ctx, p: nat, regs: seq<Value>, out: seq<Value>, r: Byte)
    requires Fit(c) && p in c.a.prog && c.a.prog[p] == Instr.Print(r) && |regs| == c.a.hw
    ensures r < |regs| && Runs(c, At(p, regs, out), At(p + 2, regs, out + [regs[r]]), 1)
  {
    StepIs(c, p, regs, out);
    assert Len(c.a.prog[p]) == 2;
    TopAt(p, regs, out);
    hide Fit, Runs, Encode;
  }

  lemma StepRet(c: Ctx, p: nat, regs: seq<Value>, out: seq<Value>, r: Byte)
    requires Fit(c) && p in c.a.prog && c.a.prog[p] == Ret(r) && |regs| == c.a.hw
    ensures r < |regs| && Runs(c, At(p, regs, out), State([], [], out, []), 1)
  {
    StepIs(c, p, regs, out);
    TopAt(p, regs, out);
    hide Fit, Runs, Encode;
  }

  lemma StepHalt(c: Ctx, p: nat, regs: seq<Value>, out: seq<Value>)
    requires Fit(c) && p in c.a.prog && c.a.prog[p] == Halt && |regs| == c.a.hw
    ensures Runs(c, At(p, regs, out), State([], [], out, []), 1)
  {
    StepIs(c, p, regs, out);
    TopAt(p, regs, out);
    hide Fit, Runs, Encode;
  }

  // ---- expressions ------------------------------------------------------------------------------

  /** The registers hold the variables. */
  ghost predicate Matches(regs: seq<Value>, locals: Regs, s: Store) {
    forall x {:trigger s[x]} {:trigger x in s} :: x in s ==> x in locals && locals[x] < |regs| && regs[locals[x]] == s[x]
  }

  /** The variables once register `dst` holds `v`. */
  function Poke(s: Store, locals: Regs, dst: nat, v: Value): (r: Store)
    ensures r.Keys == s.Keys
  {
    map x | x in s :: if x in locals && locals[x] == dst then v else s[x]
  }

  /** What the code for `e` with result register `dst` computes: the operands of a
      short-circuit operator go through `dst`, so the second one sees the first there. */
  function EvalInto(fp: FpOps, e: Expr, s: Store, locals: Regs, dst: nat): Outcome
    requires Simple(e) && Reads(e) <= s.Keys
  {
    if e.Logical? then
      var a := EvalInto(fp, e.l, s, locals, dst);
      if a.Bad? then a
      else if Truthy(fp, a.v) != e.isAnd then Outcome.Good(VBool(!e.isAnd))
      else
        var b := EvalInto(fp, e.r, Poke(s, locals, dst, a.v), locals, dst);
        if b.Bad? then b else Outcome.Good(VBool(Truthy(fp, b.v)))
    else Eval(fp, e, s)
  }

  ghost predicate Below(locals: Regs, n: nat) {
    forall x {:trigger locals[x]} :: x in locals ==> locals[x] < n
  }

  /** Registers below `rt` other than `dst` are the same. */
  ghost predicate Kept(regs: seq<Value>, regs': seq<Value>, dst: nat, rt: nat) {
    |regs'| == |regs| && forall r {:trigger regs'[r]} :: 0 <= r < rt && r < |regs| && r != dst ==> regs'[r] == regs[r]
  }

  lemma KeptTrans(regs: seq<Value>, regs1: seq<Value>, regs2: seq<Value>, d1: nat, r1: nat, d2: nat, r2: nat, dst: nat, rt: nat)
    requires Kept(regs, regs1, d1, r1) && Kept(regs1, regs2, d2, r2) && (d1 == dst || d1 >= rt) && r1 >= rt && (d2 == dst || d2 >= rt) && r2 >= rt
    ensures Kept(regs, regs2, dst, rt)
  {
  }

  lemma KeptPut(regs: seq<Value>, d: nat, v: Value, rt: nat)
    requires d < |regs|
    ensures Kept(regs, regs[d := v], d, rt) && |regs[d := v]| == |regs|
  {
  }

  lemma YieldsGood(c: Ctx, st: State, st': State, k: nat, z: nat, regs: seq<Value>, regs': seq<Value>, out: seq<Value>,
                   dst: nat, rt: nat, o: Outcome)
    requires Yields(c, st, st', k, z, regs, regs', out, dst, rt, o) && o.Good?
    ensures Runs(c, st, st', k) && st' == At(z, regs', out) && |regs'| == |regs| && dst < |regs'| && regs'[dst] == o.v && Kept(regs, regs', dst, rt)
  {
  }

  lemma YieldsBad(c: Ctx, st: State, st': State, k: nat, z: nat, z': nat, regs: seq<Value>, regs': seq<Value>, out: seq<Value>,
                  dst: nat, rt: nat, dst': nat, rt': nat, o: Outcome)
    requires Yields(c, st, st', k, z, regs, regs', out, dst, rt, o) && o.Bad?
    ensures Runs(c, st, st', k) && Halted(st', o.e, out) && Yields(c, st, st', k, z', regs, regs', out, dst', rt', o)
  {
  }

  lemma SettlesGood(c: Ctx, st: State, st': State, p: nat, regs: seq<Value>, out: seq<Value>, d: nat, o: Outcome)
    requires Settles(c, st, st', p, regs, out, d, o)
    ensures d < |regs| && Runs(c, st, st', 1) && (o.Good? ==> st' == At(p, regs[d := o.v], out)) && (o.Bad? ==> Halted(st', o.e, out))
  {
  }

  /** The run of an expression: its value arrives in `dst`, other registers below `rt`
      keep theirs; or its error stops the machine. */
  ghost predicate Yields(c: Ctx, st: State, st': State, k: nat, z: nat, regs: seq<Value>, regs': seq<Value>, out: seq<Value>,
                         dst: nat, rt: nat, o: Outcome)
  {
    && Runs(c, st, st', k) && |regs'| == |regs|
    && match o
       case Good(v) => st' == At(z, regs', out) && dst < |regs'| && regs'[dst] == v && Kept(regs, regs', dst, rt)
       case Bad(e) => Halted(st', e, out)
  }

  lemma Untouched(regs: seq<Value>, regs': seq<Value>, locals: Regs, s: Store, dst: nat, rt: nat)
    requires Matches(regs, locals, s) && Below(locals, rt) && Kept(regs, regs', dst, rt)
    requires dst >= rt || (forall x :: x in locals ==> locals[x] != dst)
    ensures Matches(regs', locals, s)
  {
  }

  lemma Poked(regs: seq<Value>, regs': seq<Value>, locals: Regs, s: Store, dst: nat, rt: nat)
    requires Matches(regs, locals, s) && dst < |regs| && Below(locals, rt) && Kept(regs, regs', dst, rt)
    ensures Matches(regs', locals, Poke(s, locals, dst, regs'[dst]))
  {
  }

  /** With its result in no variable's register, an expression means what it says. */
  lemma {:induction false} IntoTemp(fp: FpOps, e: Expr, s: Store, locals: Regs, dst: nat)
    requires Simple(e) && Reads(e) <= s.Keys && forall x :: x in locals ==> locals[x] != dst
    ensures EvalInto(fp, e, s, locals, dst) == Eval(fp, e, s)
  {
    if e.Logical? {
      IntoTemp(fp, e.l, s, locals, dst);
      var a := EvalInto(fp, e.l, s, locals, dst);
      if a.Good? {
        assert Poke(s, locals, dst, a.v) == s;
        IntoTemp(fp, e.r, s, locals, dst);
      }
    }
  }

  ghost predicate Placed(c: Ctx, e: Expr, a: nat, dst: nat, rt: nat, locals: Regs, regs: seq<Value>, s: Store) {
    && Fit(c) && |regs| == c.a.hw && Simple(e) && Reads(e) <= s.Keys
    && CodeE(e, c.a.prog, c.a.consts, a, dst, rt, locals)
    && Matches(regs, locals, s) && Below(locals, rt)
    && dst < |regs|
  }

  /** The code of an expression computes it. */
  lemma {:induction false} ExprRuns(c: Ctx, e: Expr, a: nat, dst: nat, rt: nat, locals: Regs, regs: seq<Value>, s: Store, out: seq<Value>)
    returns (k: nat, regs': seq<Value>, st': State)
    requires Placed(c, e, a, dst, rt, locals, regs, s) && dst < rt
    ensures Yields(c, At(a, regs, out), st', k, a + ESize(e, dst, rt, locals), regs, regs', out, dst, rt, EvalInto(c.env.fp, e, s, locals, dst))
    decreases e, 2
  {
    hide Fit, Runs, At;
    match e
    case IntLit(i) =>
      StepConst(c, a, dst, CInt(i), regs, out, VInt(i));
      k, regs', st' := 1, regs[dst := VInt(i)], At(a + 4, regs[dst := VInt(i)], out);
    case BoolLit(b) =>
      StepConst(c, a, dst, CBool(b), regs, out, VBool(b));
      k, regs', st' := 1, regs[dst := VBool(b)], At(a + 4, regs[dst := VBool(b)], out);
    case NilLit =>
      StepNil(c, a, regs, out, dst);
      k, regs', st' := 1, regs[dst := VNil], At(a + 2, regs[dst := VNil], out);
    case Ident(x) =>
      k, regs', st' := VariableRuns(c, x, a, dst, rt, locals, regs, s, out);
    case Binary(_, _, _) =>
      k, regs', st' := BinaryRuns(c, e, a, dst, rt, locals, regs, s, out);
    case Unary(_, _) =>
      k, regs', st' := UnaryRuns(c, e, a, dst, rt, locals, regs, s, out);
    case Logical(_, _, _) =>
      k, regs', st' := LogicalRuns(c, e, a, dst, rt, locals, regs, s, out);
  }

  lemma VariableRuns(c: Ctx, x: string, a: nat, dst: nat, rt: nat, locals: Regs, regs: seq<Value>, s: Store, out: seq<Value>)
    returns (k: nat, regs': seq<Value>, st': State)
    requires Placed(c, Ident(x), a, dst, rt, locals, regs, s) && dst < rt
    ensures Yields(c, At(a, regs, out), st', k, a + ESize(Ident(x), dst, rt, locals), regs, regs', out, dst, rt, Outcome.Good(s[x]))
  {
    hide *;
    var st, z := At(a, regs, out), a + ESize(Ident(x), dst, rt, locals);
    var i := VariableParts(c, x, a, dst, rt, locals, regs, s);
    if locals[x] == dst {
      k, regs', st' := 0, regs, st;
      RunsNone(c, st);
    } else {
      StepMove(c, a, regs, out, i.r, i.a);
      k, regs', st' := 1, regs[dst := s[x]], At(z, regs[dst := s[x]], out);
    }
    VariableYields(c, st, k, z, regs, out, dst, rt, s[x]);
  }

  lemma RunsNone(c: Ctx, st: State)
    ensures Runs(c, st, st, 0)
  {
  }

  lemma VariableParts(c: Ctx, x: string, a: nat, dst: nat, rt: nat, locals: Regs, regs: seq<Value>, s: Store) returns (i: Instr)
    requires Placed(c, Ident(x), a, dst, rt, locals, regs, s)
    ensures Fit(c) && |regs| == c.a.hw && dst < |regs| && x in s && x in locals && locals[x] < |regs| && regs[locals[x]] == s[x]
    ensures locals[x] == dst ==> ESize(Ident(x), dst, rt, locals) == 0
    ensures locals[x] != dst ==> ESize(Ident(x), dst, rt, locals) == 3 && a in c.a.prog && i == c.a.prog[a]
                                 && i.Two? && i == Two(MOVE, i.r, i.a) && i.r == dst && i.a == locals[x]
  {
    assert x in s && regs[locals[x]] == s[x];
    i := if locals[x] == dst then Halt else c.a.prog[a];
    hide Fit;
  }

  lemma VariableYields(c: Ctx, st: State, k: nat, z: nat, regs: seq<Value>, out: seq<Value>, dst: nat, rt: nat, v: Value)
    requires dst < |regs| && (if k == 0 then regs[dst] == v && Runs(c, st, At(z, regs, out), 0) else Runs(c, st, At(z, regs[dst := v], out), k))
    ensures var regs' := if k == 0 then regs else regs[dst := v];
            Yields(c, st, At(z, regs', out), k, z, regs, regs', out, dst, rt, Outcome.Good(v))
  {
    hide Runs;
  }

  /** The registers an instruction names exist. */
  lemma NamedRegs(c: Ctx, p: nat)
    requires Fit(c) && p in c.a.prog
    ensures var i := c.a.prog[p];
            && (i.Three? ==> i.r < c.a.hw && i.a < c.a.hw && i.b < c.a.hw)
            && (i.Two? ==> i.r < c.a.hw && i.a < c.a.hw)
            && (i.LoadConst? || i.LoadNil? || i.GotoIfFalse? || i.Print? || i.Ret? ==> i.r < c.a.hw)
  {
    GoodAt(c.a, |c.m.funcs|, p);
    GoodParts(c.a, |c.m.funcs|, p);
    hide Ok, Assembly.Good, Decoder.At, VerifiedModule;
  }

  lemma PlacedParts(c: Ctx, e: Expr, a: nat, dst: nat, rt: nat, locals: Regs, regs: seq<Value>, s: Store)
    requires Placed(c, e, a, dst, rt, locals, regs, s)
    ensures Fit(c) && |regs| == c.a.hw && Simple(e) && Reads(e) <= s.Keys && CodeE(e, c.a.prog, c.a.consts, a, dst, rt, locals)
    ensures Matches(regs, locals, s) && Below(locals, rt) && dst < |regs|
  {
  }

  lemma PairParts(e: Expr, s: Store)
    requires (e.Binary? || e.Logical?) && Simple(e) && Reads(e) <= s.Keys
    ensures Simple(e.l) && Simple(e.r) && Reads(e.l) <= s.Keys && Reads(e.r) <= s.Keys
  {
  }

  lemma BelowMore(locals: Regs, n: nat, n': nat)
    requires Below(locals, n) && n <= n'
    ensures Below(locals, n')
  {
  }

  lemma BinaryParts(c: Ctx, e: Expr, a: nat, dst: nat, rt: nat, locals: Regs, regs: seq<Value>, s: Store)
    returns (m: nat, n: nat)
    requires Placed(c, e, a, dst, rt, locals, regs, s) && e.Binary?
    ensures m == a + ESize(e.l, rt, rt + 2, locals) && n == m + ESize(e.r, rt + 1, rt + 2, locals) && a + ESize(e, dst, rt, locals) == n + 4
    ensures Placed(c, e.l, a, rt, rt + 2, locals, regs, s)
    ensures Simple(e.r) && Reads(e.r) <= s.Keys && CodeE(e.r, c.a.prog, c.a.consts, m, rt + 1, rt + 2, locals) && rt + 1 < |regs|
    ensures n in c.a.prog && dst < 256 && rt + 1 < 256 && c.a.prog[n] == Three(BinOpcode(e.op), dst, rt, rt + 1)
    ensures Fit(c) && |regs| == c.a.hw && Matches(regs, locals, s) && Below(locals, rt)
  {
    hide *;
    BinaryIs(e, c.a.prog, c.a.consts, a, dst, rt, locals);
    m := a + ESize(e.l, rt, rt + 2, locals);
    n := m + ESize(e.r, rt + 1, rt + 2, locals);
    PlacedParts(c, e, a, dst, rt, locals, regs, s);
    PairParts(e, s);
    NamedRegs(c, n);
    BelowMore(locals, rt, rt + 2);
    PlacedIf(c, e.l, a, rt, rt + 2, locals, regs, s, rt);
  }

  /** A part's result, then the rest. */
  lemma ThenYields(c: Ctx, st: State, st1: State, k1: nat, st2: State, k2: nat, z: nat, regs: seq<Value>, regs': seq<Value>,
                   out: seq<Value>, dst: nat, rt: nat, o: Outcome)
    requires Runs(c, st, st1, k1) && Runs(c, st1, st2, k2) && |regs'| == |regs|
    requires match o
             case Good(v) => st2 == At(z, regs', out) && dst < |regs'| && regs'[dst] == v && Kept(regs, regs', dst, rt)
             case Bad(e) => Halted(st2, e, out)
    ensures Yields(c, st, st2, k1 + k2, z, regs, regs', out, dst, rt, o)
  {
    hide Runs;
    RunsTrans(c, st, st1, st2, k1, k2);
  }

  lemma {:induction false} BinaryRuns(c: Ctx, e: Expr, a: nat, dst: nat, rt: nat, locals: Regs, regs: seq<Value>, s: Store, out: seq<Value>)
    returns (k: nat, regs': seq<Value>, st': State)
    requires Placed(c, e, a, dst, rt, locals, regs, s) && dst < rt && e.Binary?
    ensures Yields(c, At(a, regs, out), st', k, a + ESize(e, dst, rt, locals), regs, regs', out, dst, rt, EvalInto(c.env.fp, e, s, locals, dst))
    decreases e, 1
  {
    hide *;
    PlacedParts(c, e, a, dst, rt, locals, regs, s);
    var z, st := a + ESize(e, dst, rt, locals), At(a, regs, out);
    var m, n := BinaryParts(c, e, a, dst, rt, locals, regs, s);
    EvalBinary(c.env.fp, e, s, locals, dst);
    var k1, regs1, st1 := ExprRuns(c, e.l, a, rt, rt + 2, locals, regs, s, out);
    NoneAt(locals, rt, rt);
    IntoTemp(c.env.fp, e.l, s, locals, rt);
    var va := Eval(c.env.fp, e.l, s);
    if va.Bad? {
      YieldsBad(c, st, st1, k1, m, z, regs, regs1, out, rt, rt + 2, dst, rt, va);
      return k1, regs1, st1;
    }
    YieldsGood(c, st, st1, k1, m, regs, regs1, out, rt, rt + 2, va);
    KeptLess(regs, regs1, rt, rt + 2, rt);
    Untouched(regs, regs1, locals, s, rt, rt);
    k, regs', st' := BinaryRest(c, e, a, m, n, z, dst, rt, locals, regs, regs1, s, out, k1, va.v);
  }

  /** The second operand and the operator. */
  lemma {:induction false} BinaryRest(c: Ctx, e: Expr, a: nat, m: nat, n: nat, z: nat, dst: nat, rt: nat, locals: Regs, regs: seq<Value>,
                                      regs1: seq<Value>, s: Store, out: seq<Value>, k1: nat, va: Value)
    returns (k: nat, regs': seq<Value>, st': State)
    requires e.Binary? && Fit(c) && |regs| == c.a.hw && |regs1| == |regs| && dst < rt && n == m + ESize(e.r, rt + 1, rt + 2, locals) && z == n + 4
    requires Simple(e.r) && Reads(e.r) <= s.Keys && CodeE(e.r, c.a.prog, c.a.consts, m, rt + 1, rt + 2, locals) && rt + 1 < |regs|
    requires n in c.a.prog && dst < 256 && rt + 1 < 256 && c.a.prog[n] == Three(BinOpcode(e.op), dst, rt, rt + 1)
    requires Matches(regs1, locals, s) && Below(locals, rt) && Kept(regs, regs1, rt, rt) && regs1[rt] == va
    requires Runs(c, At(a, regs, out), At(m, regs1, out), k1)
    ensures var b := Eval(c.env.fp, e.r, s);
            Yields(c, At(a, regs, out), st', k, z, regs, regs', out, dst, rt,
                   if b.Bad? then b else Values.BinaryOp(c.env.fp, [], BinOpcode(e.op), va, b.v))
    decreases e, 0
  {
    hide *;
    var st := At(a, regs, out);
    PlacedIf(c, e.r, m, rt + 1, rt + 2, locals, regs1, s, rt);
    var k2, regs2, st2 := ExprRuns(c, e.r, m, rt + 1, rt + 2, locals, regs1, s, out);
    NoneAt(locals, rt, rt + 1);
    IntoTemp(c.env.fp, e.r, s, locals, rt + 1);
    var vb := Eval(c.env.fp, e.r, s);
    if vb.Bad? {
      YieldsBad(c, At(m, regs1, out), st2, k2, n, z, regs1, regs2, out, rt + 1, rt + 2, dst, rt, vb);
      ThenHalts(c, st, At(m, regs1, out), k1, st2, k2, z, regs, out, dst, rt, vb);
      return k1 + k2, regs, st2;
    }
    YieldsGood(c, At(m, regs1, out), st2, k2, n, regs1, regs2, out, rt + 1, rt + 2, vb);
    RunsTrans(c, st, At(m, regs1, out), st2, k1, k2);
    KeptAt(regs1, regs2, rt + 1, rt + 2, rt);
    var o := Values.BinaryOp(c.env.fp, [], BinOpcode(e.op), va, vb.v);
    st' := StepBinary(c, n, z, regs2, out, BinOpcode(e.op), dst, rt, rt + 1);
    SettlesGood(c, st2, st', z, regs2, out, dst, o);
    if o.Good? {
      k, regs' := k1 + k2 + 1, regs2[dst := o.v];
      KeptPut(regs2, dst, o.v, rt);
      KeptTrans(regs, regs1, regs2, rt, rt, rt + 1, rt + 2, dst, rt);
      KeptTrans(regs, regs2, regs', dst, rt, dst, rt, dst, rt);
      ThenYields(c, st, st2, k1 + k2, st', 1, z, regs, regs', out, dst, rt, o);
    } else {
      k, regs' := k1 + k2 + 1, regs;
      ThenHalts(c, st, st2, k1 + k2, st', 1, z, regs, out, dst, rt, o);
    }
  }

  lemma NotMove(op: UnOp)
    ensures UnOpcode(op) != MOVE
  {
  }

  lemma NoneAt(locals: Regs, n: nat, dst: nat)
    requires Below(locals, n) && dst >= n
    ensures forall x :: x in locals ==> locals[x] != dst
  {
  }

  lemma KeptLess(regs: seq<Value>, regs': seq<Value>, dst: nat, rt: nat, rt': nat)
    requires Kept(regs, regs', dst, rt) && rt' <= rt
    ensures Kept(regs, regs', dst, rt')
  {
  }

  lemma KeptAt(regs: seq<Value>, regs': seq<Value>, dst: nat, rt: nat, r: nat)
    requires Kept(regs, regs', dst, rt) && r < rt && r < |regs| && r != dst
    ensures regs'[r] == regs[r]
  {
  }

  lemma ThenHalts(c: Ctx, st: State, st1: State, k1: nat, st2: State, k2: nat, z: nat, regs: seq<Value>, out: seq<Value>, dst: nat, rt: nat, o: Outcome)
    requires Runs(c, st, st1, k1) && Runs(c, st1, st2, k2) && o.Bad? && Halted(st2, o.e, out)
    ensures Yields(c, st, st2, k1 + k2, z, regs, regs, out, dst, rt, o)
  {
    hide Runs;
    RunsTrans(c, st, st1, st2, k1, k2);
  }

  lemma EvalBinary(fp: FpOps, e: Expr, s: Store, locals: Regs, dst: nat)
    requires e.Binary? && Simple(e) && Reads(e) <= s.Keys
    ensures Simple(e.l) && Simple(e.r) && Reads(e.l) <= s.Keys && Reads(e.r) <= s.Keys
    ensures EvalInto(fp, e, s, locals, dst) ==
            var a := Eval(fp, e.l, s);
            if a.Bad? then a else
            var b := Eval(fp, e.r, s);
            if b.Bad? then b else Values.BinaryOp(fp, [], BinOpcode(e.op), a.v, b.v)
  {
    hide Values.BinaryOp;
  }

  lemma PlacedIf(c: Ctx, e: Expr, a: nat, dst: nat, rt: nat, locals: Regs, regs: seq<Value>, s: Store, n: nat)
    requires Fit(c) && |regs| == c.a.hw && Simple(e) && Reads(e) <= s.Keys && CodeE(e, c.a.prog, c.a.consts, a, dst, rt, locals)
    requires Matches(regs, locals, s) && Below(locals, n) && n <= rt && dst < |regs|
    ensures Placed(c, e, a, dst, rt, locals, regs, s)
  {
  }

  lemma {:induction false} UnaryRuns(c: Ctx, e: Expr, a: nat, dst: nat, rt: nat, locals: Regs, regs: seq<Value>, s: Store, out: seq<Value>)
    returns (k: nat, regs': seq<Value>, st': State)
    requires Placed(c, e, a, dst, rt, locals, regs, s) && dst < rt && e.Unary?
    ensures Yields(c, At(a, regs, out), st', k, a + ESize(e, dst, rt, locals), regs, regs', out, dst, rt, EvalInto(c.env.fp, e, s, locals, dst))
    decreases e, 1
  {
    hide *;
    PlacedParts(c, e, a, dst, rt, locals, regs, s);
    var z, st := a + ESize(e, dst, rt, locals), At(a, regs, out);
    var n := UnaryParts(c, e, a, dst, rt, locals, regs, s);
    EvalUnary(c.env.fp, e, s, locals, dst);
    var k1, regs1, st1 := ExprRuns(c, e.e, a, rt, rt + 1, locals, regs, s, out);
    NoneAt(locals, rt, rt);
    IntoTemp(c.env.fp, e.e, s, locals, rt);
    var va := Eval(c.env.fp, e.e, s);
    if va.Bad? {
      YieldsBad(c, st, st1, k1, n, z, regs, regs1, out, rt, rt + 1, dst, rt, va);
      return k1, regs1, st1;
    }
    YieldsGood(c, st, st1, k1, n, regs, regs1, out, rt, rt + 1, va);
    var o := Values.UnaryOp(c.env.fp, UnOpcode(e.uop), va.v);
    NotMove(e.uop);
    st' := StepUnary(c, n, z, regs1, out, UnOpcode(e.uop), dst, rt);
    SettlesGood(c, st1, st', z, regs1, out, dst, o);
    if o.Good? {
      k, regs' := k1 + 1, regs1[dst := o.v];
      KeptPut(regs1, dst, o.v, rt);
      KeptTrans(regs, regs1, regs', rt, rt + 1, dst, rt, dst, rt);
      ThenYields(c, st, st1, k1, st', 1, z, regs, regs', out, dst, rt, o);
    } else {
      k, regs' := k1 + 1, regs;
      ThenHalts(c, st, st1, k1, st', 1, z, regs, out, dst, rt, o);
    }
  }

  lemma EvalUnary(fp: FpOps, e: Expr, s: Store, locals: Regs, dst: nat)
    requires e.Unary? && Simple(e) && Reads(e) <= s.Keys
    ensures Simple(e.e) && Reads(e.e) <= s.Keys
    ensures EvalInto(fp, e, s, locals, dst) ==
            var a := Eval(fp, e.e, s);
            if a.Bad? then a else Values.UnaryOp(fp, UnOpcode(e.uop), a.v)
  {
    hide Values.UnaryOp;
  }

  lemma UnaryParts(c: Ctx, e: Expr, a: nat, dst: nat, rt: nat, locals: Regs, regs: seq<Value>, s: Store)
    returns (n: nat)
    requires Placed(c, e, a, dst, rt, locals, regs, s) && e.Unary?
    ensures n == a + ESize(e.e, rt, rt + 1, locals) && a + ESize(e, dst, rt, locals) == n + 3
    ensures Placed(c, e.e, a, rt, rt + 1, locals, regs, s)
    ensures n in c.a.prog && dst < 256 && rt < 256 && c.a.prog[n] == Two(UnOpcode(e.uop), dst, rt)
    ensures Fit(c) && |regs| == c.a.hw && Below(locals, rt)
  {
    n := a + ESize(e.e, rt, rt + 1, locals);
    assert n in c.a.prog && c.a.prog[n].Two?;
    hide Fit, Matches;
    NamedRegs(c, n);
  }

  // ---- short-circuit operators -------------------------------------------------------------------

  /** Loading true or false at the end, and where that leads. */
  lemma {:induction false} EndRuns(c: Ctx, isTrue: bool, m: nat, n: nat, z: nat, isAnd: bool, dst: nat, rt: nat, regs: seq<Value>, out: seq<Value>)
    returns (k: nat, regs': seq<Value>)
    requires z == n + 15 && Fit(c) && |regs| == c.a.hw && Circuit(isAnd, c.a.prog, c.a.consts, m, n, dst)
    ensures Runs(c, At(if isTrue then n + 4 else n + 11, regs, out), At(z, regs', out), k)
    ensures dst < |regs| && regs' == regs[dst := VBool(isTrue)]
  {
    hide Fit, Runs, At, Loads, Jumps;
    LoadTarget(c, n, dst, isTrue, isAnd, m);
    regs' := regs[dst := VBool(isTrue)];
    if isTrue {
      StepConst(c, n + 4, dst, CBool(true), regs, out, VBool(true));
      StepGoto(c, n + 8, regs', out, z);
      RunsTrans(c, At(n + 4, regs, out), At(n + 8, regs', out), At(z, regs', out), 1, 1);
      k := 2;
    } else {
      StepConst(c, n + 11, dst, CBool(false), regs, out, VBool(false));
      k := 1;
    }
  }

  lemma LoadTarget(c: Ctx, n: nat, dst: nat, isTrue: bool, isAnd: bool, m: nat)
    requires Fit(c) && Circuit(isAnd, c.a.prog, c.a.consts, m, n, dst)
    ensures dst < c.a.hw && Loads(c.a.prog, c.a.consts, n + 4, dst, CBool(true)) && Loads(c.a.prog, c.a.consts, n + 11, dst, CBool(false))
    ensures Jumps(c.a.prog, n + 8, n + 15)
  {
    NamedRegs(c, n + 4);
  }

  /** From the test of the first operand: to the second operand, or past it. */
  lemma FirstTest(c: Ctx, isAnd: bool, m: nat, n: nat, dst: nat, regs: seq<Value>, out: seq<Value>) returns (k: nat)
    requires Fit(c) && |regs| == c.a.hw && Circuit(isAnd, c.a.prog, c.a.consts, m, n, dst)
    ensures dst < |regs|
    ensures var go := Truthy(c.env.fp, regs[dst]) == isAnd;
            Runs(c, At(m, regs, out), At(if go then m + (if isAnd then 4 else 7) else if isAnd then n + 11 else n + 4, regs, out), k)
  {
    hide Fit, Runs, At, Loads, Truthy;
    if isAnd {
      StepBranch(c, m, dst, n + 11, regs, out);
      k := 1;
    } else {
      StepBranch(c, m, dst, m + 7, regs, out);
      if Truthy(c.env.fp, regs[dst]) {
        StepGoto(c, m + 4, regs, out, n + 4);
        RunsTrans(c, At(m, regs, out), At(m + 4, regs, out), At(n + 4, regs, out), 1, 1);
        k := 2;
      } else {
        k := 1;
      }
    }
  }

  lemma SecondTest(c: Ctx, isAnd: bool, m: nat, n: nat, dst: nat, regs: seq<Value>, out: seq<Value>)
    requires Fit(c) && |regs| == c.a.hw && Circuit(isAnd, c.a.prog, c.a.consts, m, n, dst)
    ensures dst < |regs| && Runs(c, At(n, regs, out), At(if Truthy(c.env.fp, regs[dst]) then n + 4 else n + 11, regs, out), 1)
  {
    hide Fit, Runs, At, Loads, Truthy;
    StepBranch(c, n, dst, n + 11, regs, out);
  }

  lemma LogicalParts(c: Ctx, e: Expr, a: nat, dst: nat, rt: nat, locals: Regs, regs: seq<Value>, s: Store)
    returns (m: nat, second: nat, n: nat)
    requires Placed(c, e, a, dst, rt, locals, regs, s) && e.Logical?
    ensures m == a + ESize(e.l, dst, rt, locals) && second == m + (if e.isAnd then 4 else 7) && n == second + ESize(e.r, dst, rt, locals)
    ensures a + ESize(e, dst, rt, locals) == n + 15
    ensures Placed(c, e.l, a, dst, rt, locals, regs, s)
    ensures Simple(e.r) && Reads(e.r) <= s.Keys && CodeE(e.r, c.a.prog, c.a.consts, second, dst, rt, locals)
    ensures Circuit(e.isAnd, c.a.prog, c.a.consts, m, n, dst)
    ensures Fit(c) && |regs| == c.a.hw && Matches(regs, locals, s) && Below(locals, rt)
  {
    hide *;
    LogicalIs(e, c.a.prog, c.a.consts, a, dst, rt, locals);
    m := a + ESize(e.l, dst, rt, locals);
    second := m + if e.isAnd then 4 else 7;
    n := second + ESize(e.r, dst, rt, locals);
    PlacedParts(c, e, a, dst, rt, locals, regs, s);
    PairParts(e, s);
    PlacedIf(c, e.l, a, dst, rt, locals, regs, s, rt);
  }

  lemma {:induction false} LogicalRuns(c: Ctx, e: Expr, a: nat, dst: nat, rt: nat, locals: Regs, regs: seq<Value>, s: Store, out: seq<Value>)
    returns (k: nat, regs': seq<Value>, st': State)
    requires Placed(c, e, a, dst, rt, locals, regs, s) && dst < rt && e.Logical?
    ensures Yields(c, At(a, regs, out), st', k, a + ESize(e, dst, rt, locals), regs, regs', out, dst, rt, EvalInto(c.env.fp, e, s, locals, dst))
    decreases e, 1
  {
    hide *;
    PlacedParts(c, e, a, dst, rt, locals, regs, s);
    var z, st := a + ESize(e, dst, rt, locals), At(a, regs, out);
    var m, second, n := LogicalParts(c, e, a, dst, rt, locals, regs, s);
    EvalLogical(c.env.fp, e, s, locals, dst);
    var k1, regs1, st1 := ExprRuns(c, e.l, a, dst, rt, locals, regs, s, out);
    var va := EvalInto(c.env.fp, e.l, s, locals, dst);
    if va.Bad? {
      YieldsBad(c, st, st1, k1, m, z, regs, regs1, out, dst, rt, dst, rt, va);
      return k1, regs1, st1;
    }
    YieldsGood(c, st, st1, k1, m, regs, regs1, out, dst, rt, va);
    var k2 := FirstTest(c, e.isAnd, m, n, dst, regs1, out);
    if Truthy(c.env.fp, va.v) != e.isAnd {
      var st2 := At(if e.isAnd then n + 11 else n + 4, regs1, out);
      RunsTrans(c, st, st1, st2, k1, k2);
      var k3;
      k3, regs' := EndRuns(c, !e.isAnd, m, n, z, e.isAnd, dst, rt, regs1, out);
      st', k := At(z, regs', out), k1 + k2 + k3;
      KeptPut(regs1, dst, VBool(!e.isAnd), rt);
      KeptTrans(regs, regs1, regs', dst, rt, dst, rt, dst, rt);
      ThenYields(c, st, st2, k1 + k2, st', k3, z, regs, regs', out, dst, rt, Outcome.Good(VBool(!e.isAnd)));
      return;
    }
    RunsTrans(c, st, st1, At(second, regs1, out), k1, k2);
    k, regs', st' := SecondRuns(c, e, a, m, second, n, z, dst, rt, locals, regs, regs1, s, out, k1 + k2, va.v);
  }

  lemma EvalLogical(fp: FpOps, e: Expr, s: Store, locals: Regs, dst: nat)
    requires e.Logical? && Simple(e) && Reads(e) <= s.Keys
    ensures Simple(e.l) && Simple(e.r) && Reads(e.l) <= s.Keys && Reads(e.r) <= s.Keys
    ensures EvalInto(fp, e, s, locals, dst) ==
            var a := EvalInto(fp, e.l, s, locals, dst);
            if a.Bad? then a
            else if Truthy(fp, a.v) != e.isAnd then Outcome.Good(VBool(!e.isAnd))
            else
              var b := EvalInto(fp, e.r, Poke(s, locals, dst, a.v), locals, dst);
              if b.Bad? then b else Outcome.Good(VBool(Truthy(fp, b.v)))
  {
    hide Truthy;
  }

  /** The second operand and its test. */
  lemma {:induction false} SecondRuns(c: Ctx, e: Expr, a: nat, m: nat, second: nat, n: nat, z: nat, dst: nat, rt: nat, locals: Regs,
                                      regs: seq<Value>, regs1: seq<Value>, s: Store, out: seq<Value>, k1: nat, v: Value)
    returns (k: nat, regs': seq<Value>, st': State)
    requires e.Logical? && Fit(c) && |regs| == c.a.hw && |regs1| == |regs| && dst < rt && dst < |regs|
    requires Simple(e.r) && Reads(e.r) <= s.Keys && CodeE(e.r, c.a.prog, c.a.consts, second, dst, rt, locals)
    requires Circuit(e.isAnd, c.a.prog, c.a.consts, m, n, dst) && n == second + ESize(e.r, dst, rt, locals) && z == n + 15
    requires Matches(regs, locals, s) && Below(locals, rt)
    requires Runs(c, At(a, regs, out), At(second, regs1, out), k1) && regs1[dst] == v && Kept(regs, regs1, dst, rt)
    ensures var b := EvalInto(c.env.fp, e.r, Poke(s, locals, dst, v), locals, dst);
            Yields(c, At(a, regs, out), st', k, z, regs, regs', out, dst, rt,
                   if b.Bad? then b else Outcome.Good(VBool(Truthy(c.env.fp, b.v))))
    decreases e, 0
  {
    hide *;
    var st, s' := At(a, regs, out), Poke(s, locals, dst, v);
    Poked(regs, regs1, locals, s, dst, rt);
    PlacedIf(c, e.r, second, dst, rt, locals, regs1, s', rt);
    var k2, regs2, st2 := ExprRuns(c, e.r, second, dst, rt, locals, regs1, s', out);
    var vb := EvalInto(c.env.fp, e.r, s', locals, dst);
    if vb.Bad? {
      YieldsBad(c, At(second, regs1, out), st2, k2, n, z, regs1, regs2, out, dst, rt, dst, rt, vb);
      ThenHalts(c, st, At(second, regs1, out), k1, st2, k2, z, regs, out, dst, rt, vb);
      return k1 + k2, regs, st2;
    }
    YieldsGood(c, At(second, regs1, out), st2, k2, n, regs1, regs2, out, dst, rt, vb);
    RunsTrans(c, st, At(second, regs1, out), st2, k1, k2);
    SecondTest(c, e.isAnd, m, n, dst, regs2, out);
    var truth := Truthy(c.env.fp, vb.v);
    var st3 := At(if truth then n + 4 else n + 11, regs2, out);
    RunsTrans(c, st, st2, st3, k1 + k2, 1);
    var k3;
    k3, regs' := EndRuns(c, truth, m, n, z, e.isAnd, dst, rt, regs2, out);
    st', k := At(z, regs', out), k1 + k2 + 1 + k3;
    KeptPut(regs2, dst, VBool(truth), rt);
    KeptTrans(regs, regs1, regs2, dst, rt, dst, rt, dst, rt);
    KeptTrans(regs, regs2, regs', dst, rt, dst, rt, dst, rt);
    ThenYields(c, st, st3, k1 + k2 + 1, st', k3, z, regs, regs', out, dst, rt, Outcome.Good(VBool(truth)));
  }
}
