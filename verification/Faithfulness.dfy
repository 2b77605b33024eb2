/** Statements and whole programs: the compiled code ends as the source does. */
module Faithfulness {
  import opened Bytecode
  import opened Values
  import opened Machine
  import opened Ast
  import opened Source
  import opened CodeOf
  import opened CodeFrames
  import opened Assembly
  import opened Simulation

  // ---- assignments ---------------------------------------------------------------------------

  /** Into its own variable's register: the register holds what the variable does. */
  lemma {:induction false} IntoVariable(fp: FpOps, e: Expr, s: Store, locals: Regs, x: string)
    requires Simple(e) && Reads(e) <= s.Keys && x in s && x in locals && Distinct(locals) && s.Keys <= locals.Keys
    ensures EvalInto(fp, e, s, locals, locals[x]) == EvalThrough(fp, e, s, x)
  {
    if e.Logical? {
      IntoVariable(fp, e.l, s, locals, x);
      var a := EvalThrough(fp, e.l, s, x);
      if a.Good? {
        PokesVariable(s, locals, x, a.v);
        IntoVariable(fp, e.r, s[x := a.v], locals, x);
      }
    }
  }

  lemma PokesVariable(s: Store, locals: Regs, x: string, v: Value)
    requires x in s && x in locals && Distinct(locals) && s.Keys <= locals.Keys
    ensures Poke(s, locals, locals[x], v) == s[x := v]
  {
    var s' := Poke(s, locals, locals[x], v);
    forall y | y in s ensures s'[y] == s[x := v][y] {
      assert locals[y] == locals[x] ==> y == x;
    }
  }

  // ---- how a fragment ends ------------------------------------------------------------------------

  function T(c: Ctx): Text {
    Text(c.a.prog, c.a.consts)
  }

  /** The machine stands before a fragment, its registers holding the variables. */
  ghost predicate Stands(c: Ctx, sc: Scope, regs: seq<Value>, s: Store) {
    Fit(c) && |regs| == c.a.hw && Matches(regs, sc.locals, s) && Simulation.Below(sc.locals, sc.rt) && Distinct(sc.locals)
  }

  /** From `st` the machine arrives at `pc` with the variables `s` and the output `out`. */
  ghost predicate Arrives(c: Ctx, st: State, k: nat, pc: int, regs: seq<Value>, sc: Scope, s: Store, out: seq<Value>) {
    pc >= 0 && Runs(c, st, At(pc, regs, out), k) && Stands(c, sc, regs, s)
  }

  /** The machine's run from `st` matches ending `r`: past the fragment at `z`, at the
      loop's targets, finished, stopped by the same error, or still running. */
  ghost predicate Ends(c: Ctx, st: State, r: Ending, z: nat, tg: Targets, sc: Scope, k: nat, regs: seq<Value>, st': State, fuel: nat) {
    match r
    case Next(s, out) => Arrives(c, st, k, z, regs, sc, s, out)
    case Broke(s, out) => tg.Closed? && Arrives(c, st, k, tg.brk, regs, sc, s, out)
    case Continued(s, out) => tg.Closed? && Arrives(c, st, k, tg.cont, regs, sc, s, out) && k >= 1
    case Returned(_, out) => Runs(c, st, st', k) && st' == State([], [], out, [])
    case Stopped(e, out) => Runs(c, st, st', k) && Halted(st', e, out)
    case Timeout => Runs(c, st, st', k) && k >= fuel
  }

  /** A first part, then the rest. */
  lemma EndsAfter(c: Ctx, st: State, st1: State, k1: nat, r: Ending, z: nat, tg: Targets, sc: Scope, k: nat, regs: seq<Value>, st': State, fuel: nat)
    requires Runs(c, st, st1, k1) && Ends(c, st1, r, z, tg, sc, k, regs, st', fuel)
    ensures Ends(c, st, r, z, tg, sc, k1 + k, regs, st', fuel)
  {
    hide Runs, Stands, At;
    match r
    case Next(_, out) => RunsTrans(c, st, st1, At(z, regs, out), k1, k);
    case Broke(_, out) => RunsTrans(c, st, st1, At(tg.brk, regs, out), k1, k);
    case Continued(_, out) => RunsTrans(c, st, st1, At(tg.cont, regs, out), k1, k);
    case Returned(_, _) => RunsTrans(c, st, st1, st', k1, k);
    case Stopped(_, _) => RunsTrans(c, st, st1, st', k1, k);
    case Timeout => RunsTrans(c, st, st1, st', k1, k);
  }

  lemma EndsStopped(c: Ctx, st: State, st': State, k: nat, e: Err, out: seq<Value>, z: nat, tg: Targets, sc: Scope, regs: seq<Value>, fuel: nat)
    requires Runs(c, st, st', k) && Halted(st', e, out)
    ensures Ends(c, st, Stopped(e, out), z, tg, sc, k, regs, st', fuel)
  {
  }

  lemma EndsNext(c: Ctx, st: State, k: nat, z: nat, tg: Targets, sc: Scope, regs: seq<Value>, s: Store, out: seq<Value>, st': State, fuel: nat)
    requires Arrives(c, st, k, z, regs, sc, s, out)
    ensures Ends(c, st, Next(s, out), z, tg, sc, k, regs, st', fuel)
  {
  }

  // ---- expressions inside statements -----------------------------------------------------------------

  /** The register an expression's code writes exists. */
  lemma ResultRegister(c: Ctx, e: Expr, a: nat, dst: nat, rt: nat, locals: Regs)
    requires Fit(c) && Simple(e) && CodeE(e, c.a.prog, c.a.consts, a, dst, rt, locals) && forall x :: x in locals ==> locals[x] != dst
    ensures dst < c.a.hw
  {
    hide Fit;
    match e
    case IntLit(_) => NamedRegs(c, a);
    case BoolLit(_) => NamedRegs(c, a);
    case NilLit => NamedRegs(c, a);
    case Ident(_) => NamedRegs(c, a);
    case Binary(_, l, r) => NamedRegs(c, a + ESize(l, rt, rt + 2, locals) + ESize(r, rt + 1, rt + 2, locals));
    case Unary(_, x) => NamedRegs(c, a + ESize(x, rt, rt + 1, locals));
    case Logical(isAnd, l, r) =>
      NamedRegs(c, a + ESize(l, dst, rt, locals) + (if isAnd then 4 else 7) + ESize(r, dst, rt, locals) + 4);
  }

  lemma StandsParts(c: Ctx, sc: Scope, regs: seq<Value>, s: Store)
    requires Stands(c, sc, regs, s)
    ensures Fit(c) && |regs| == c.a.hw && Matches(regs, sc.locals, s) && Simulation.Below(sc.locals, sc.rt) && Distinct(sc.locals)
  {
  }

  lemma StandsIf(c: Ctx, sc: Scope, regs: seq<Value>, s: Store, regs': seq<Value>, s': Store)
    requires Stands(c, sc, regs, s) && |regs'| == |regs| && Matches(regs', sc.locals, s')
    ensures Stands(c, sc, regs', s')
  {
  }

  /** An expression into a temporary. */
  lemma TempRuns(c: Ctx, e: Expr, a: nat, sc: Scope, regs: seq<Value>, s: Store, out: seq<Value>, z: nat)
    returns (k: nat, regs': seq<Value>, st': State)
    requires Stands(c, sc, regs, s) && Simple(e) && Reads(e) <= s.Keys
    requires CodeE(e, c.a.prog, c.a.consts, a, sc.rt, sc.rt + 1, sc.locals) && z == a + ESize(e, sc.rt, sc.rt + 1, sc.locals)
    ensures var v := Eval(c.env.fp, e, s);
            if v.Good? then Arrives(c, At(a, regs, out), k, z, regs', sc, s, out) && sc.rt < |regs'| && regs'[sc.rt] == v.v
            else Runs(c, At(a, regs, out), st', k) && Halted(st', v.e, out)
  {
    hide *;
    StandsParts(c, sc, regs, s);
    NoneAt(sc.locals, sc.rt, sc.rt);
    ResultRegister(c, e, a, sc.rt, sc.rt + 1, sc.locals);
    PlacedIf(c, e, a, sc.rt, sc.rt + 1, sc.locals, regs, s, sc.rt);
    IntoTemp(c.env.fp, e, s, sc.locals, sc.rt);
    k, regs', st' := ExprRuns(c, e, a, sc.rt, sc.rt + 1, sc.locals, regs, s, out);
    var v := Eval(c.env.fp, e, s);
    if v.Good? {
      YieldsGood(c, At(a, regs, out), st', k, z, regs, regs', out, sc.rt, sc.rt + 1, v);
      KeptLess(regs, regs', sc.rt, sc.rt + 1, sc.rt);
      Untouched(regs, regs', sc.locals, s, sc.rt, sc.rt);
      StandsIf(c, sc, regs, s, regs', s);
      ArrivesIf(c, At(a, regs, out), k, z, regs', sc, s, out);
    } else {
      YieldsBad(c, At(a, regs, out), st', k, z, z, regs, regs', out, sc.rt, sc.rt + 1, sc.rt, sc.rt + 1, v);
    }
  }

  lemma ArrivesIf(c: Ctx, st: State, k: nat, pc: nat, regs: seq<Value>, sc: Scope, s: Store, out: seq<Value>)
    requires Runs(c, st, At(pc, regs, out), k) && Stands(c, sc, regs, s)
    ensures Arrives(c, st, k, pc, regs, sc, s, out)
  {
  }

  lemma ArrivesParts(c: Ctx, st: State, k: nat, pc: int, regs: seq<Value>, sc: Scope, s: Store, out: seq<Value>)
    requires Arrives(c, st, k, pc, regs, sc, s, out)
    ensures pc >= 0 && Runs(c, st, At(pc, regs, out), k) && Stands(c, sc, regs, s)
  {
  }

  /** One more step to another place. */
  lemma ArrivesOn(c: Ctx, st: State, k: nat, pc: nat, k': nat, pc': nat, regs: seq<Value>, sc: Scope, s: Store, out: seq<Value>)
    requires Arrives(c, st, k, pc, regs, sc, s, out) && Runs(c, At(pc, regs, out), At(pc', regs, out), k')
    ensures Arrives(c, st, k + k', pc', regs, sc, s, out)
  {
    hide Runs, Stands, At;
    RunsTrans(c, st, At(pc, regs, out), At(pc', regs, out), k, k');
  }

  // ---- effects, output, tests ------------------------------------------------------------------------

  lemma AssignMatches(regs: seq<Value>, regs': seq<Value>, locals: Regs, s: Store, x: string, rt: nat)
    requires Matches(regs, locals, s) && Simulation.Below(locals, rt) && Distinct(locals) && x in s && x in locals
    requires locals[x] < |regs| && Kept(regs, regs', locals[x], rt)
    ensures Matches(regs', locals, s[x := regs'[locals[x]]])
  {
  }

  lemma AssignRuns(c: Ctx, e: Expr, a: nat, sc: Scope, regs: seq<Value>, s: Store, out: seq<Value>, z: nat)
    returns (k: nat, regs': seq<Value>, st': State)
    requires Stands(c, sc, regs, s) && e.Assign? && e.target.Ident? && Simple(e.value)
    requires Reads(e.value) <= s.Keys && e.target.name in s && e.target.name in sc.locals
    requires CodeE(e.value, c.a.prog, c.a.consts, a, sc.locals[e.target.name], sc.rt, sc.locals)
    requires z == a + ESize(e.value, sc.locals[e.target.name], sc.rt, sc.locals)
    ensures var v := EvalThrough(c.env.fp, e.value, s, e.target.name);
            if v.Good? then Arrives(c, At(a, regs, out), k, z, regs', sc, s[e.target.name := v.v], out)
            else Runs(c, At(a, regs, out), st', k) && Halted(st', v.e, out)
  {
    hide *;
    var x := e.target.name;
    var dst := sc.locals[x];
    StandsParts(c, sc, regs, s);
    VariableRegister(regs, sc.locals, s, x, sc.rt);
    PlacedIf(c, e.value, a, dst, sc.rt, sc.locals, regs, s, sc.rt);
    VariablesHeld(regs, sc.locals, s);
    IntoVariable(c.env.fp, e.value, s, sc.locals, x);
    k, regs', st' := ExprRuns(c, e.value, a, dst, sc.rt, sc.locals, regs, s, out);
    var v := EvalThrough(c.env.fp, e.value, s, e.target.name);
    if v.Good? {
      YieldsGood(c, At(a, regs, out), st', k, z, regs, regs', out, dst, sc.rt, v);
      AssignMatches(regs, regs', sc.locals, s, x, sc.rt);
      StandsIf(c, sc, regs, s, regs', s[x := v.v]);
      ArrivesIf(c, At(a, regs, out), k, z, regs', sc, s[x := v.v], out);
    } else {
      YieldsBad(c, At(a, regs, out), st', k, z, z, regs, regs', out, dst, sc.rt, dst, sc.rt, v);
    }
  }

  lemma VariablesHeld(regs: seq<Value>, locals: Regs, s: Store)
    requires Matches(regs, locals, s)
    ensures s.Keys <= locals.Keys
  {
    forall x | x in s ensures x in locals { assert s[x] == s[x]; }
  }

  lemma VariableRegister(regs: seq<Value>, locals: Regs, s: Store, x: string, rt: nat)
    requires Matches(regs, locals, s) && x in s && x in locals && Simulation.Below(locals, rt)
    ensures locals[x] < |regs| && locals[x] < rt
  {
    assert s[x] == s[x];
  }

  lemma EffectParts(e: Expr, t: Text, sc: Scope, a: nat)
    requires CodeEffect(e, t, sc, a) && SimpleEffect(e)
    ensures if e.Assign? then
              e.target.Ident? && e.target.name in sc.locals && Simple(e.value)
              && CodeE(e.value, t.prog, t.consts, a, sc.locals[e.target.name], sc.rt, sc.locals)
              && EffectSize(e, sc) == ESize(e.value, sc.locals[e.target.name], sc.rt, sc.locals)
              && EffectVars(e) == {e.target.name} + Reads(e.value)
            else
              Simple(e) && CodeE(e, t.prog, t.consts, a, sc.rt, sc.rt + 1, sc.locals)
              && EffectSize(e, sc) == ESize(e, sc.rt, sc.rt + 1, sc.locals) && EffectVars(e) == Reads(e)
  {
    hide CodeE, ESize, Simple, Reads;
  }

  lemma EffectIs(fp: FpOps, e: Expr, s: Store, out: seq<Value>)
    requires SimpleEffect(e) && EffectVars(e) <= s.Keys
    ensures Effect(fp, AsCompiled, e, s, out) ==
            var v := if e.Assign? then EvalThrough(fp, e.value, s, e.target.name) else Eval(fp, e, s);
            if v.Bad? then Stopped(v.e, out) else if e.Assign? then Next(s[e.target.name := v.v], out) else Next(s, out)
  {
    hide Eval, EvalThrough;
  }

  lemma EffectRuns(c: Ctx, e: Expr, a: nat, sc: Scope, tg: Targets, regs: seq<Value>, s: Store, out: seq<Value>, z: nat, fuel: nat)
    returns (k: nat, regs': seq<Value>, st': State)
    requires Stands(c, sc, regs, s) && SimpleEffect(e) && EffectVars(e) <= s.Keys
    requires CodeEffect(e, T(c), sc, a) && z == a + EffectSize(e, sc)
    ensures Ends(c, At(a, regs, out), Effect(c.env.fp, AsCompiled, e, s, out), z, tg, sc, k, regs', st', fuel)
  {
    assert T(c).prog == c.a.prog && T(c).consts == c.a.consts;
    hide *;
    var st := At(a, regs, out);
    EffectParts(e, T(c), sc, a);
    EffectIs(c.env.fp, e, s, out);
    if e.Assign? {
      k, regs', st' := AssignRuns(c, e, a, sc, regs, s, out, z);
      var v := EvalThrough(c.env.fp, e.value, s, e.target.name);
      if v.Good? {
        EndsNext(c, st, k, z, tg, sc, regs', s[e.target.name := v.v], out, st', fuel);
      } else {
        EndsStopped(c, st, st', k, v.e, out, z, tg, sc, regs', fuel);
      }
    } else {
      k, regs', st' := TempRuns(c, e, a, sc, regs, s, out, z);
      var v := Eval(c.env.fp, e, s);
      if v.Good? { EndsNext(c, st, k, z, tg, sc, regs', s, out, st', fuel); } else { EndsStopped(c, st, st', k, v.e, out, z, tg, sc, regs', fuel); }
    }
  }

  /** A clause that may be omitted. */
  lemma ClauseRuns(c: Ctx, o: OptExpr, a: nat, sc: Scope, tg: Targets, regs: seq<Value>, s: Store, out: seq<Value>, z: nat, fuel: nat)
    returns (k: nat, regs': seq<Value>, st': State)
    requires Stands(c, sc, regs, s) && SimpleClause(o) && OptVars(o) <= s.Keys
    requires CodeClause(o, T(c), sc, a) && z == a + ClauseSize(o, sc)
    ensures Ends(c, At(a, regs, out), EffectOpt(c.env.fp, AsCompiled, o, s, out), z, tg, sc, k, regs', st', fuel)
  {
    hide Stands, Ends, Effect, SimpleEffect, EffectVars, CodeEffect, EffectSize, At, T;
    if o.Present? {
      k, regs', st' := EffectRuns(c, o.e, a, sc, tg, regs, s, out, z, fuel);
    } else {
      k, regs', st' := 0, regs, At(a, regs, out);
      Stays(c, a, sc, regs, s, out);
      EndsNext(c, At(a, regs, out), 0, z, tg, sc, regs, s, out, st', fuel);
    }
  }

  lemma Stays(c: Ctx, a: nat, sc: Scope, regs: seq<Value>, s: Store, out: seq<Value>)
    requires Stands(c, sc, regs, s)
    ensures Arrives(c, At(a, regs, out), 0, a, regs, sc, s, out)
  {
    hide Stands, At;
  }

  lemma TextIs(c: Ctx)
    ensures T(c).prog == c.a.prog && T(c).consts == c.a.consts
  {
  }

  /** A condition: on if it holds, to `exit` if not; an omitted one holds. */
  lemma TestRuns(c: Ctx, o: OptExpr, a: nat, exit: nat, sc: Scope, regs: seq<Value>, s: Store, out: seq<Value>, z: nat)
    returns (k: nat, regs': seq<Value>, st': State)
    requires Stands(c, sc, regs, s) && SimpleOpt(o) && OptVars(o) <= s.Keys
    requires CodeTest(o, T(c), sc, a, exit) && z == a + TestSize(o, sc)
    ensures var v := Test(c.env.fp, o, s);
            if v.Good? then Arrives(c, At(a, regs, out), k, if Truthy(c.env.fp, v.v) then z else exit, regs', sc, s, out)
            else Runs(c, At(a, regs, out), st', k) && Halted(st', v.e, out)
  {
    hide *;
    TextIs(c);
    TestParts(c.env.fp, o, T(c), sc, a, exit, s);
    var st := At(a, regs, out);
    if o.Present? {
      var n := a + ESize(o.e, sc.rt, sc.rt + 1, sc.locals);
      k, regs', st' := TempRuns(c, o.e, a, sc, regs, s, out, n);
      var v := Eval(c.env.fp, o.e, s);
      if v.Good? {
        ArrivesParts(c, st, k, n, regs', sc, s, out);
        StandsParts(c, sc, regs', s);
        StepBranch(c, n, sc.rt, exit, regs', out);
        ArrivesOn(c, st, k, n, 1, if Truthy(c.env.fp, v.v) then n + 4 else exit, regs', sc, s, out);
        k := k + 1;
      }
    } else {
      k, regs', st' := 0, regs, st;
      Stays(c, a, sc, regs, s, out);
    }
  }

  lemma TestParts(fp: FpOps, o: OptExpr, t: Text, sc: Scope, a: nat, exit: int, s: Store)
    requires CodeTest(o, t, sc, a, exit) && SimpleOpt(o) && OptVars(o) <= s.Keys
    ensures o.Present? ==> (Simple(o.e) && Reads(o.e) <= s.Keys && CodeE(o.e, t.prog, t.consts, a, sc.rt, sc.rt + 1, sc.locals)
                            && Branches(t.prog, a + ESize(o.e, sc.rt, sc.rt + 1, sc.locals), sc.rt, exit)
                            && TestSize(o, sc) == ESize(o.e, sc.rt, sc.rt + 1, sc.locals) + 4 && Test(fp, o, s) == Eval(fp, o.e, s))
    ensures o.Absent? ==> TestSize(o, sc) == 0 && Test(fp, o, s) == Outcome.Good(VBool(true)) && Truthy(fp, VBool(true))
  {
    if o.Present? { assert !o.e.Assign?; }
    hide CodeE, ESize, Simple, Reads, Eval, Branches;
  }

  lemma PrintRuns(c: Ctx, e: Expr, a: nat, sc: Scope, tg: Targets, regs: seq<Value>, s: Store, out: seq<Value>, z: nat, fuel: nat)
    returns (k: nat, regs': seq<Value>, st': State)
    requires Stands(c, sc, regs, s) && Simple(e) && Reads(e) <= s.Keys
    requires CodePrint(e, T(c), sc, a) && z == a + SSize(Stmt.Print(e), sc)
    ensures Ends(c, At(a, regs, out), var v := Eval(c.env.fp, e, s); if v.Bad? then Stopped(v.e, out) else Next(s, out + [v.v]),
                 z, tg, sc, k, regs', st', fuel)
  {
    hide *;
    var n, st := a + ESize(e, sc.rt, sc.rt + 1, sc.locals), At(a, regs, out);
    PrintParts(c, e, sc, a, n);
    k, regs', st' := TempRuns(c, e, a, sc, regs, s, out, n);
    var v := Eval(c.env.fp, e, s);
    if v.Good? {
      ArrivesParts(c, st, k, n, regs', sc, s, out);
      StandsParts(c, sc, regs', s);
      StepPrint(c, n, regs', out, sc.rt);
      RunsTrans(c, st, At(n, regs', out), At(n + 2, regs', out + [v.v]), k, 1);
      k := k + 1;
      ArrivesIf(c, st, k, z, regs', sc, s, out + [v.v]);
      EndsNext(c, st, k, z, tg, sc, regs', s, out + [v.v], st', fuel);
    } else {
      EndsStopped(c, st, st', k, v.e, out, z, tg, sc, regs', fuel);
    }
  }

  lemma PrintParts(c: Ctx, e: Expr, sc: Scope, a: nat, n: nat)
    requires CodePrint(e, T(c), sc, a) && n == a + ESize(e, sc.rt, sc.rt + 1, sc.locals)
    ensures a + SSize(Stmt.Print(e), sc) == n + 2 && CodeE(e, c.a.prog, c.a.consts, a, sc.rt, sc.rt + 1, sc.locals)
    ensures n in c.a.prog && sc.rt < 256 && c.a.prog[n] == Instr.Print(sc.rt)
  {
    hide CodeE, ESize;
  }

  lemma ReturnRuns(c: Ctx, o: OptExpr, a: nat, sc: Scope, tg: Targets, regs: seq<Value>, s: Store, out: seq<Value>, z: nat, fuel: nat)
    returns (k: nat, regs': seq<Value>, st': State)
    requires Stands(c, sc, regs, s) && SimpleOpt(o) && OptVars(o) <= s.Keys && CodeReturn(o, T(c), sc, a)
    ensures Ends(c, At(a, regs, out),
                 if o.Absent? then Ending.Returned(VNil, out) else
                 var v := Eval(c.env.fp, o.e, s); if v.Bad? then Stopped(v.e, out) else Ending.Returned(v.v, out),
                 z, tg, sc, k, regs', st', fuel)
  {
    hide *;
    var n := ReturnParts(c, o, sc, a, s);
    var st := At(a, regs, out);
    StandsParts(c, sc, regs, s);
    if o.Absent? {
      StepNil(c, a, regs, out, sc.rt);
      regs' := regs[sc.rt := VNil];
      k := 1;
    } else {
      k, regs', st' := TempRuns(c, o.e, a, sc, regs, s, out, n);
      var v := Eval(c.env.fp, o.e, s);
      if v.Bad? {
        EndsStopped(c, st, st', k, v.e, out, z, tg, sc, regs', fuel);
        return;
      }
      ArrivesParts(c, st, k, n, regs', sc, s, out);
      StandsParts(c, sc, regs', s);
    }
    StepRet(c, n, regs', out, sc.rt);
    st' := State([], [], out, []);
    RunsTrans(c, st, At(n, regs', out), st', k, 1);
    k := k + 1;
    EndsReturned(c, st, st', k, if o.Absent? then VNil else Eval(c.env.fp, o.e, s).v, out, z, tg, sc, regs', fuel);
  }

  lemma EndsReturned(c: Ctx, st: State, st': State, k: nat, v: Value, out: seq<Value>, z: nat, tg: Targets, sc: Scope, regs: seq<Value>, fuel: nat)
    requires Runs(c, st, st', k) && st' == State([], [], out, [])
    ensures Ends(c, st, Ending.Returned(v, out), z, tg, sc, k, regs, st', fuel)
  {
  }

  lemma ReturnParts(c: Ctx, o: OptExpr, sc: Scope, a: nat, s: Store) returns (n: nat)
    requires CodeReturn(o, T(c), sc, a) && SimpleOpt(o) && OptVars(o) <= s.Keys
    ensures sc.rt < 256 && n in c.a.prog && c.a.prog[n] == Ret(sc.rt)
    ensures o.Absent? ==> a in c.a.prog && c.a.prog[a] == LoadNil(sc.rt) && n == a + 2
    ensures o.Present? ==> Simple(o.e) && Reads(o.e) <= s.Keys && CodeE(o.e, c.a.prog, c.a.consts, a, sc.rt, sc.rt + 1, sc.locals)
                           && n == a + ESize(o.e, sc.rt, sc.rt + 1, sc.locals)
  {
    n := a + if o.Absent? then 2 else ESize(o.e, sc.rt, sc.rt + 1, sc.locals);
    if o.Present? { assert !o.e.Assign?; }
    hide CodeE, ESize, Simple, Reads;
  }

  lemma LeaveRuns(c: Ctx, brk: bool, a: nat, sc: Scope, tg: Targets, regs: seq<Value>, s: Store, out: seq<Value>, z: nat, fuel: nat)
    returns (k: nat)
    requires Stands(c, sc, regs, s) && !tg.Open? && (tg.Closed? ==> tg.brk >= 0 && tg.cont >= 0)
    requires Leaves(T(c), a, tg, if tg.Closed? then (if brk then tg.brk else tg.cont) else 0)
    ensures Ends(c, At(a, regs, out), if brk then Broke(s, out) else Continued(s, out), z, tg, sc, k, regs, At(a, regs, out), fuel)
  {
    assert tg.Closed? && Jumps(c.a.prog, a, if brk then tg.brk else tg.cont);
    hide Runs, At, Stands, Jumps;
    k := 1;
    StandsParts(c, sc, regs, s);
    StepGoto(c, a, regs, out, if brk then tg.brk else tg.cont);
  }

  // ---- statements -------------------------------------------------------------------------------------

  /** Targets that are not still to be patched. */
  predicate TargetsKnown(tg: Targets) {
    !tg.Open? && (tg.Closed? ==> tg.brk >= 0 && tg.cont >= 0)
  }

  lemma {:induction false} StmtRuns(c: Ctx, st: Stmt, a: nat, sc: Scope, tg: Targets, regs: seq<Value>, s: Store, out: seq<Value>, z: nat, fuel: nat)
    returns (k: nat, regs': seq<Value>, st': State)
    requires Stands(c, sc, regs, s) && SimpleStmt(st) && Vars(st) <= s.Keys && TargetsKnown(tg)
    requires CodeS(st, T(c), sc, a, tg) && z == a + SSize(st, sc)
    ensures Ends(c, At(a, regs, out), Source.Exec(c.env.fp, AsCompiled, st, s, out, fuel), z, tg, sc, k, regs', st', fuel)
    decreases fuel, st, 2
  {
    hide Stands, Ends, At, T, CodeEffect, CodePrint, CodeReturn, CodeAll, CodeChain, CodeLoop, CodeClause, Leaves, Effect, EffectOpt, ExecAll,
         ExecChain, Source.Loop, EffectSize, ESize, SizeAll, ChainSize, TestSize, ClauseSize, Eval, SimpleStmts, SimpleChain,
         VarsAll, VarsChain, EffectVars, Simple, Reads;
    match st
    case ExprStmt(e) => k, regs', st' := EffectRuns(c, e, a, sc, tg, regs, s, out, z, fuel);
    case Print(e) => k, regs', st' := PrintRuns(c, e, a, sc, tg, regs, s, out, z, fuel);
    case Return(o) => k, regs', st' := ReturnRuns(c, o, a, sc, tg, regs, s, out, z, fuel);
    case Block(b) => k, regs', st' := AllRuns(c, b, a, sc, tg, regs, s, out, z, fuel);
    case If(ch) => k, regs', st' := ChainRuns(c, ch, a, sc, tg, regs, s, out, z, fuel);
    case While(_, _) => k, regs', st' := WhileRuns(c, st, a, sc, tg, regs, s, out, z, fuel);
    case For(_, _, _, _) => k, regs', st' := ForRuns(c, st, a, sc, tg, regs, s, out, z, fuel);
    case Break =>
      k := LeaveRuns(c, true, a, sc, tg, regs, s, out, z, fuel);
      regs', st' := regs, At(a, regs, out);
    case Continue =>
      k := LeaveRuns(c, false, a, sc, tg, regs, s, out, z, fuel);
      regs', st' := regs, At(a, regs, out);
  }

  lemma {:induction false} AllRuns(c: Ctx, ss: Stmts, a: nat, sc: Scope, tg: Targets, regs: seq<Value>, s: Store, out: seq<Value>, z: nat, fuel: nat)
    returns (k: nat, regs': seq<Value>, st': State)
    requires Stands(c, sc, regs, s) && SimpleStmts(ss) && VarsAll(ss) <= s.Keys && TargetsKnown(tg)
    requires CodeAll(ss, T(c), sc, a, tg) && z == a + SizeAll(ss, sc)
    ensures Ends(c, At(a, regs, out), ExecAll(c.env.fp, AsCompiled, ss, s, out, fuel), z, tg, sc, k, regs', st', fuel)
    decreases fuel, ss, 1
  {
    hide *;
    var st := At(a, regs, out);
    AllParts(c.env.fp, ss, T(c), sc, a, tg, s, out, fuel);
    if ss.SNil? {
      k, regs', st' := 0, regs, st;
      Stays(c, a, sc, regs, s, out);
      EndsNext(c, st, 0, z, tg, sc, regs, s, out, st', fuel);
      return;
    }
    var m := a + SSize(ss.head, sc);
    var r := Source.Exec(c.env.fp, AsCompiled, ss.head, s, out, fuel);
    k, regs', st' := StmtRuns(c, ss.head, a, sc, tg, regs, s, out, m, fuel);
    if r.Next? {
      EndsNextIs(c, st, r, m, tg, sc, k, regs', st', fuel);
      var k2, regs2, st2 := AllRuns(c, ss.tail, m, sc, tg, regs', r.s, r.out, z, fuel);
      EndsAfter(c, st, At(m, regs', r.out), k, ExecAll(c.env.fp, AsCompiled, ss.tail, r.s, r.out, fuel), z, tg, sc, k2, regs2, st2, fuel);
      return k + k2, regs2, st2;
    }
    EndsElsewhere(c, st, r, m, z, tg, sc, k, regs', st', fuel);
  }

  lemma AllParts(fp: FpOps, ss: Stmts, t: Text, sc: Scope, a: nat, tg: Targets, s: Store, out: seq<Value>, fuel: nat)
    requires SimpleStmts(ss) && VarsAll(ss) <= s.Keys && CodeAll(ss, t, sc, a, tg)
    ensures ss.SNil? ==> SizeAll(ss, sc) == 0 && ExecAll(fp, AsCompiled, ss, s, out, fuel) == Next(s, out)
    ensures ss.SCons? ==>
              (SimpleStmt(ss.head) && Vars(ss.head) <= s.Keys && CodeS(ss.head, t, sc, a, tg)
               && SimpleStmts(ss.tail) && VarsAll(ss.tail) <= s.Keys
               && CodeAll(ss.tail, t, sc, a + SSize(ss.head, sc), tg)
               && SizeAll(ss, sc) == SSize(ss.head, sc) + SizeAll(ss.tail, sc)
               && KeepsKeys(Source.Exec(fp, AsCompiled, ss.head, s, out, fuel), s)
               && ExecAll(fp, AsCompiled, ss, s, out, fuel) ==
                  var r := Source.Exec(fp, AsCompiled, ss.head, s, out, fuel);
                  if r.Next? then ExecAll(fp, AsCompiled, ss.tail, r.s, r.out, fuel) else r)
    ensures ss.SCons? && Source.Exec(fp, AsCompiled, ss.head, s, out, fuel).Next? ==> Source.Exec(fp, AsCompiled, ss.head, s, out, fuel).s.Keys == s.Keys
  {
    hide SimpleStmt, Vars, CodeS, SSize, Source.Exec;
  }

  lemma EndsNextIs(c: Ctx, st: State, r: Ending, z: nat, tg: Targets, sc: Scope, k: nat, regs: seq<Value>, st': State, fuel: nat)
    requires Ends(c, st, r, z, tg, sc, k, regs, st', fuel) && r.Next?
    ensures Arrives(c, st, k, z, regs, sc, r.s, r.out) && Runs(c, st, At(z, regs, r.out), k) && Stands(c, sc, regs, r.s)
  {
    hide Stands, At, Runs;
  }

  /** An ending elsewhere does not depend on where the fragment ends. */
  lemma EndsElsewhere(c: Ctx, st: State, r: Ending, m: nat, z: nat, tg: Targets, sc: Scope, k: nat, regs: seq<Value>, st': State, fuel: nat)
    requires Ends(c, st, r, m, tg, sc, k, regs, st', fuel) && !r.Next?
    ensures Ends(c, st, r, z, tg, sc, k, regs, st', fuel)
  {
    hide Stands, At, Runs;
  }

  lemma {:induction false} ChainRuns(c: Ctx, ch: Chain, a: nat, sc: Scope, tg: Targets, regs: seq<Value>, s: Store, out: seq<Value>, z: nat, fuel: nat)
    returns (k: nat, regs': seq<Value>, st': State)
    requires Stands(c, sc, regs, s) && SimpleChain(ch) && VarsChain(ch) <= s.Keys && TargetsKnown(tg)
    requires CodeChain(ch, T(c), sc, a, tg) && z == a + ChainSize(ch, sc)
    ensures Ends(c, At(a, regs, out), ExecChain(c.env.fp, AsCompiled, ch, s, out, fuel), z, tg, sc, k, regs', st', fuel)
    decreases fuel, ch, 1
  {
    hide *;
    var st := At(a, regs, out);
    var thn := a + TestSize(Present(ch.cond), sc);
    var after := thn + SizeAll(ch.thn, sc);
    var exit := if ch.els.NoElse? then after else after + 3;
    ChainIs(ch, T(c), sc, a, tg, thn, after, exit);
    ChainParts(c.env.fp, ch, s, out, fuel);
    k, regs', st' := TestRuns(c, Present(ch.cond), a, exit, sc, regs, s, out, thn);
    var v := Eval(c.env.fp, ch.cond, s);
    if v.Bad? {
      EndsStopped(c, st, st', k, v.e, out, z, tg, sc, regs', fuel);
      return;
    }
    ArrivesParts(c, st, k, if Truthy(c.env.fp, v.v) then thn else exit, regs', sc, s, out);
    if Truthy(c.env.fp, v.v) {
      var k2, regs2, st2 := ThenRuns(c, ch, thn, after, z, sc, tg, regs', s, out, fuel);
      EndsAfter(c, st, At(thn, regs', out), k, ExecAll(c.env.fp, AsCompiled, ch.thn, s, out, fuel), z, tg, sc, k2, regs2, st2, fuel);
      return k + k2, regs2, st2;
    } else {
      var k2, regs2, st2 := ElseRuns(c, ch.els, after, exit, z, sc, tg, regs', s, out, fuel);
      EndsAfter(c, st, At(exit, regs', out), k, ExecElse(c.env.fp, AsCompiled, ch.els, s, out, fuel), z, tg, sc, k2, regs2, st2, fuel);
      return k + k2, regs2, st2;
    }
  }

  lemma ChainParts(fp: FpOps, ch: Chain, s: Store, out: seq<Value>, fuel: nat)
    requires SimpleChain(ch) && VarsChain(ch) <= s.Keys
    ensures SimpleOpt(Present(ch.cond)) && OptVars(Present(ch.cond)) <= s.Keys && Simple(ch.cond) && Reads(ch.cond) <= s.Keys
    ensures Test(fp, Present(ch.cond), s) == Eval(fp, ch.cond, s)
    ensures SimpleStmts(ch.thn) && VarsAll(ch.thn) <= s.Keys
    ensures SimpleElse(ch.els) && VarsElse(ch.els) <= s.Keys
    ensures ExecChain(fp, AsCompiled, ch, s, out, fuel) ==
            var v := Eval(fp, ch.cond, s);
            if v.Bad? then Stopped(v.e, out)
            else if Truthy(fp, v.v) then ExecAll(fp, AsCompiled, ch.thn, s, out, fuel)
            else ExecElse(fp, AsCompiled, ch.els, s, out, fuel)
  {
    assert !ch.cond.Assign?;
    hide Eval, ExecAll, ExecElse, SimpleStmts, SimpleElse, VarsAll, VarsElse, Truthy;
  }

  /** The then block, and the jump over the else branch. */
  lemma {:induction false} ThenRuns(c: Ctx, ch: Chain, thn: nat, after: nat, z: nat, sc: Scope, tg: Targets, regs: seq<Value>, s: Store,
                                    out: seq<Value>, fuel: nat)
    returns (k: nat, regs': seq<Value>, st': State)
    requires Stands(c, sc, regs, s) && SimpleStmts(ch.thn) && VarsAll(ch.thn) <= s.Keys && TargetsKnown(tg)
    requires CodeAll(ch.thn, T(c), sc, thn, tg) && CodeElse(ch.els, T(c), sc, after, tg)
    requires after == thn + SizeAll(ch.thn, sc) && z == after + ElseSize(ch.els, sc)
    ensures Ends(c, At(thn, regs, out), ExecAll(c.env.fp, AsCompiled, ch.thn, s, out, fuel), z, tg, sc, k, regs', st', fuel)
    decreases fuel, ch, 0
  {
    hide *;
    ElseJump(c, ch.els, sc, after, z, tg);
    var st, r := At(thn, regs, out), ExecAll(c.env.fp, AsCompiled, ch.thn, s, out, fuel);
    k, regs', st' := AllRuns(c, ch.thn, thn, sc, tg, regs, s, out, after, fuel);
    if r.Next? {
      EndsNextIs(c, st, r, after, tg, sc, k, regs', st', fuel);
      if !ch.els.NoElse? {
        StandsParts(c, sc, regs', r.s);
        StepGoto(c, after, regs', r.out, z);
        ArrivesOn(c, st, k, after, 1, z, regs', sc, r.s, r.out);
        k := k + 1;
      }
      EndsNext(c, st, k, z, tg, sc, regs', r.s, r.out, st', fuel);
    } else {
      EndsElsewhere(c, st, r, after, z, tg, sc, k, regs', st', fuel);
    }
  }

  lemma ElseJump(c: Ctx, e: Else, sc: Scope, a: nat, z: nat, tg: Targets)
    requires CodeElse(e, T(c), sc, a, tg) && z == a + ElseSize(e, sc)
    ensures if e.NoElse? then z == a else Jumps(c.a.prog, a, z)
  {
    hide CodeAll, CodeChain, Jumps;
  }

  lemma {:induction false} ElseRuns(c: Ctx, e: Else, after: nat, b: nat, z: nat, sc: Scope, tg: Targets, regs: seq<Value>, s: Store,
                                    out: seq<Value>, fuel: nat)
    returns (k: nat, regs': seq<Value>, st': State)
    requires Stands(c, sc, regs, s) && SimpleElse(e) && VarsElse(e) <= s.Keys && TargetsKnown(tg)
    requires CodeElse(e, T(c), sc, after, tg) && z == after + ElseSize(e, sc) && b == if e.NoElse? then after else after + 3
    ensures Ends(c, At(b, regs, out), ExecElse(c.env.fp, AsCompiled, e, s, out, fuel), z, tg, sc, k, regs', st', fuel)
    decreases fuel, e, 1
  {
    hide *;
    ElseParts(c.env.fp, e, T(c), sc, after, b, z, tg, s, out, fuel);
    if e.NoElse? {
      k, regs', st' := 0, regs, At(b, regs, out);
      Stays(c, b, sc, regs, s, out);
      EndsNext(c, At(b, regs, out), 0, z, tg, sc, regs, s, out, st', fuel);
    } else if e.ElseBlock? {
      k, regs', st' := AllRuns(c, e.body, b, sc, tg, regs, s, out, z, fuel);
    } else {
      k, regs', st' := ChainRuns(c, e.chain, b, sc, tg, regs, s, out, z, fuel);
    }
  }

  lemma ElseParts(fp: FpOps, e: Else, t: Text, sc: Scope, a: nat, b: nat, z: nat, tg: Targets, s: Store, out: seq<Value>, fuel: nat)
    requires SimpleElse(e) && VarsElse(e) <= s.Keys && CodeElse(e, t, sc, a, tg)
    requires z == a + ElseSize(e, sc) && b == if e.NoElse? then a else a + 3
    ensures e.NoElse? ==> b == z && ExecElse(fp, AsCompiled, e, s, out, fuel) == Next(s, out)
    ensures e.ElseBlock? ==>
              (SimpleStmts(e.body) && VarsAll(e.body) <= s.Keys && CodeAll(e.body, t, sc, b, tg) && z == b + SizeAll(e.body, sc)
               && ExecElse(fp, AsCompiled, e, s, out, fuel) == ExecAll(fp, AsCompiled, e.body, s, out, fuel))
    ensures e.ElseIf? ==>
              (SimpleChain(e.chain) && VarsChain(e.chain) <= s.Keys && CodeChain(e.chain, t, sc, b, tg)
               && z == b + ChainSize(e.chain, sc) && ExecElse(fp, AsCompiled, e, s, out, fuel) == ExecChain(fp, AsCompiled, e.chain, s, out, fuel))
  {
    hide CodeAll, CodeChain, SizeAll, ChainSize, ExecAll, ExecChain, SimpleStmts, SimpleChain, VarsAll, VarsChain;
  }

  // ---- loops --------------------------------------------------------------------------------------------

  ghost predicate LoopStands(c: Ctx, test: OptExpr, step: OptExpr, body: Stmts, start: nat, cont: nat, z: nat, sc: Scope) {
    && CodeLoop(test, step, body, T(c), sc, start, cont)
    && z == start + TestSize(test, sc) + SizeAll(body, sc) + ClauseSize(step, sc) + 3
    && SimpleOpt(test) && SimpleClause(step) && SimpleStmts(body)
  }

  lemma LoopStandsParts(c: Ctx, test: OptExpr, step: OptExpr, body: Stmts, start: nat, cont: nat, z: nat, sc: Scope)
    requires LoopStands(c, test, step, body, start, cont, z, sc)
    ensures CodeLoop(test, step, body, T(c), sc, start, cont)
    ensures z == start + TestSize(test, sc) + SizeAll(body, sc) + ClauseSize(step, sc) + 3
    ensures SimpleOpt(test) && SimpleClause(step) && SimpleStmts(body)
  {
  }

  lemma LoopPieces(c: Ctx, test: OptExpr, step: OptExpr, body: Stmts, start: nat, cont: nat, z: nat, sc: Scope)
    returns (bodyAt: nat, stepAt: nat, back: nat)
    requires LoopStands(c, test, step, body, start, cont, z, sc)
    ensures bodyAt == start + TestSize(test, sc) && stepAt == bodyAt + SizeAll(body, sc) && back == stepAt + ClauseSize(step, sc) && z == back + 3
    ensures cont == stepAt || (step.Absent? && cont == start)
    ensures CodeTest(test, T(c), sc, start, z) && CodeAll(body, T(c), sc, bodyAt, Closed(z, cont)) && CodeClause(step, T(c), sc, stepAt)
    ensures Jumps(c.a.prog, back, start)
    ensures SimpleOpt(test) && SimpleClause(step) && SimpleStmts(body)
  {
    hide *;
    bodyAt := start + TestSize(test, sc);
    stepAt := bodyAt + SizeAll(body, sc);
    back := stepAt + ClauseSize(step, sc);
    LoopStandsParts(c, test, step, body, start, cont, z, sc);
    TextIs(c);
    LoopIs(test, step, body, T(c), sc, start, cont, bodyAt, stepAt, back);
  }

  ghost predicate LoopVars(test: OptExpr, step: OptExpr, body: Stmts, s: Store) {
    OptVars(test) + OptVars(step) + VarsAll(body) <= s.Keys
  }

  lemma LoopMeans(fp: FpOps, test: OptExpr, step: OptExpr, body: Stmts, s: Store, out: seq<Value>, fuel: nat)
    requires SimpleOpt(test) && SimpleClause(step) && SimpleStmts(body) && LoopVars(test, step, body, s)
    ensures OptVars(test) <= s.Keys && VarsAll(body) <= s.Keys
    ensures KeepsKeys(ExecAll(fp, AsCompiled, body, s, out, fuel), s)
    ensures Source.Loop(fp, AsCompiled, test, step, body, s, out, fuel) ==
            if fuel == 0 then Timeout else
            var v := Test(fp, test, s);
            if v.Bad? then Stopped(v.e, out)
            else if !Truthy(fp, v.v) then Next(s, out)
            else LoopAfter(fp, test, step, body, ExecAll(fp, AsCompiled, body, s, out, fuel), fuel)
  {
    hide Test, Truthy, ExecAll, EffectOpt, SimpleOpt, SimpleClause, SimpleStmts, OptVars, VarsAll;
  }

  /** How a loop goes on after its body ended with `r`. */
  function LoopAfter(fp: FpOps, test: OptExpr, step: OptExpr, body: Stmts, r: Ending, fuel: nat): Ending
    requires fuel > 0 && SimpleOpt(test) && SimpleClause(step) && SimpleStmts(body)
    requires r.Next? || r.Broke? || r.Continued? ==> OptVars(test) + OptVars(step) + VarsAll(body) <= r.s.Keys
  {
    if r.Broke? then Next(r.s, r.out)
    else if r.Returned? || r.Stopped? || r.Timeout? then r
    else
      var u := EffectOpt(fp, AsCompiled, step, r.s, r.out);
      if u.Next? then Source.Loop(fp, AsCompiled, test, step, body, u.s, u.out, fuel - 1) else u
  }

  lemma EndsMore(c: Ctx, st: State, st1: State, k1: nat, r: Ending, z: nat, tg: Targets, sc: Scope, k: nat, regs: seq<Value>, st': State, fuel: nat)
    requires Runs(c, st, st1, k1) && k1 >= 1 && fuel > 0 && Ends(c, st1, r, z, tg, sc, k, regs, st', fuel - 1)
    ensures Ends(c, st, r, z, tg, sc, k1 + k, regs, st', fuel)
  {
    hide Runs, Stands, At, Arrives;
    if r.Timeout? {
      RunsTrans(c, st, st1, st', k1, k);
    } else {
      EndsFuel(c, st1, r, z, tg, sc, k, regs, st', fuel - 1, fuel);
      EndsAfter(c, st, st1, k1, r, z, tg, sc, k, regs, st', fuel);
    }
  }

  lemma EndsFuel(c: Ctx, st: State, r: Ending, z: nat, tg: Targets, sc: Scope, k: nat, regs: seq<Value>, st': State, fuel: nat, fuel': nat)
    requires Ends(c, st, r, z, tg, sc, k, regs, st', fuel) && !r.Timeout?
    ensures Ends(c, st, r, z, tg, sc, k, regs, st', fuel')
  {
    hide Runs, Stands, At, Arrives;
  }

  lemma {:induction false} LoopRuns(c: Ctx, test: OptExpr, step: OptExpr, body: Stmts, start: nat, cont: nat, sc: Scope, tg: Targets,
                                    regs: seq<Value>, s: Store, out: seq<Value>, z: nat, fuel: nat)
    returns (k: nat, regs': seq<Value>, st': State)
    requires Stands(c, sc, regs, s) && LoopStands(c, test, step, body, start, cont, z, sc) && LoopVars(test, step, body, s)
    requires SimpleOpt(test) && SimpleClause(step) && SimpleStmts(body)
    ensures Ends(c, At(start, regs, out), Source.Loop(c.env.fp, AsCompiled, test, step, body, s, out, fuel), z, tg, sc, k, regs', st', fuel)
    decreases fuel, body, 4
  {
    hide *;
    var st := At(start, regs, out);
    LoopMeans(c.env.fp, test, step, body, s, out, fuel);
    if fuel == 0 {
      k, regs', st' := 0, regs, st;
      StillRunning(c, st, z, tg, sc, regs);
      return;
    }
    var bodyAt, stepAt, back := LoopPieces(c, test, step, body, start, cont, z, sc);
    k, regs', st' := TestRuns(c, test, start, z, sc, regs, s, out, bodyAt);
    var v := Test(c.env.fp, test, s);
    if v.Bad? {
      EndsStopped(c, st, st', k, v.e, out, z, tg, sc, regs', fuel);
      return;
    }
    if !Truthy(c.env.fp, v.v) {
      EndsNext(c, st, k, z, tg, sc, regs', s, out, st', fuel);
      return;
    }
    ArrivesParts(c, st, k, bodyAt, regs', sc, s, out);
    var k2, regs2, st2 := RoundRuns(c, test, step, body, start, cont, bodyAt, stepAt, back, sc, tg, regs', s, out, z, fuel);
    EndsAfter(c, st, At(bodyAt, regs', out), k, LoopAfter(c.env.fp, test, step, body, ExecAll(c.env.fp, AsCompiled, body, s, out, fuel), fuel),
              z, tg, sc, k2, regs2, st2, fuel);
    return k + k2, regs2, st2;
  }

  lemma StillRunning(c: Ctx, st: State, z: nat, tg: Targets, sc: Scope, regs: seq<Value>)
    ensures Ends(c, st, Timeout, z, tg, sc, 0, regs, st, 0)
  {
  }

  lemma ClosedPatched(z: nat, cont: nat)
    ensures TargetsKnown(Closed(z, cont))
  {
  }

  /** The body, and what follows it. */
  lemma {:induction false} RoundRuns(c: Ctx, test: OptExpr, step: OptExpr, body: Stmts, start: nat, cont: nat, bodyAt: nat, stepAt: nat, back: nat,
                                     sc: Scope, tg: Targets, regs: seq<Value>, s: Store, out: seq<Value>, z: nat, fuel: nat)
    returns (k: nat, regs': seq<Value>, st': State)
    requires Stands(c, sc, regs, s) && LoopStands(c, test, step, body, start, cont, z, sc) && LoopVars(test, step, body, s) && fuel > 0
    requires SimpleOpt(test) && SimpleClause(step) && SimpleStmts(body) && VarsAll(body) <= s.Keys
    requires bodyAt == start + TestSize(test, sc) && stepAt == bodyAt + SizeAll(body, sc) && back == stepAt + ClauseSize(step, sc) && z == back + 3
    requires cont == stepAt || (step.Absent? && cont == start)
    requires CodeAll(body, T(c), sc, bodyAt, Closed(z, cont)) && CodeClause(step, T(c), sc, stepAt) && Jumps(c.a.prog, back, start)
    requires KeepsKeys(ExecAll(c.env.fp, AsCompiled, body, s, out, fuel), s)
    ensures var r := ExecAll(c.env.fp, AsCompiled, body, s, out, fuel);
            && (r.Next? || r.Broke? || r.Continued? ==> OptVars(test) + OptVars(step) + VarsAll(body) <= r.s.Keys)
            && Ends(c, At(bodyAt, regs, out), LoopAfter(c.env.fp, test, step, body, r, fuel), z, tg, sc, k, regs', st', fuel)
    decreases fuel, body, 3
  {
    hide *;
    var st, inner := At(bodyAt, regs, out), Closed(z, cont);
    var r := ExecAll(c.env.fp, AsCompiled, body, s, out, fuel);
    ClosedPatched(z, cont);
    RoundMeans(c.env.fp, test, step, body, s, r, fuel);
    k, regs', st' := AllRuns(c, body, bodyAt, sc, inner, regs, s, out, stepAt, fuel);
    if r.Broke? {
      EndsBroke(c, st, r, stepAt, z, cont, sc, k, regs', st', fuel, tg);
    } else if r.Returned? || r.Stopped? || r.Timeout? {
      EndsOut(c, st, r, stepAt, z, inner, tg, sc, k, regs', st', fuel);
    } else {
      var at := if r.Next? then stepAt else cont;
      EndsGoesOn(c, st, r, stepAt, z, cont, sc, k, regs', st', fuel);
      ArrivesParts(c, st, k, at, regs', sc, r.s, r.out);
      var k2, regs2, st2 := NextRound(c, test, step, body, start, cont, stepAt, back, at, sc, tg, regs', r.s, r.out, z, fuel, st, k);
      return k2, regs2, st2;
    }
  }

  lemma RoundMeans(fp: FpOps, test: OptExpr, step: OptExpr, body: Stmts, s: Store, r: Ending, fuel: nat)
    requires fuel > 0 && SimpleOpt(test) && SimpleClause(step) && SimpleStmts(body) && LoopVars(test, step, body, s) && KeepsKeys(r, s)
    ensures r.Next? || r.Broke? || r.Continued? ==> OptVars(test) + OptVars(step) + VarsAll(body) <= r.s.Keys && OptVars(step) <= r.s.Keys
                                                    && LoopVars(test, step, body, r.s)
    ensures r.Broke? ==> LoopAfter(fp, test, step, body, r, fuel) == Next(r.s, r.out)
    ensures r.Returned? || r.Stopped? || r.Timeout? ==> LoopAfter(fp, test, step, body, r, fuel) == r
    ensures r.Next? || r.Continued? ==>
              LoopAfter(fp, test, step, body, r, fuel) ==
              var u := EffectOpt(fp, AsCompiled, step, r.s, r.out);
              if u.Next? then Source.Loop(fp, AsCompiled, test, step, body, u.s, u.out, fuel - 1) else u
  {
    hide OptVars, VarsAll, SimpleOpt, SimpleClause, SimpleStmts, EffectOpt, Source.Loop;
  }

  lemma EndsBroke(c: Ctx, st: State, r: Ending, m: nat, z: nat, cont: nat, sc: Scope, k: nat, regs: seq<Value>, st': State, fuel: nat, tg: Targets)
    requires Ends(c, st, r, m, Closed(z, cont), sc, k, regs, st', fuel) && r.Broke?
    ensures Ends(c, st, Next(r.s, r.out), z, tg, sc, k, regs, st', fuel)
  {
    hide Arrives;
  }

  lemma EndsOut(c: Ctx, st: State, r: Ending, m: nat, z: nat, tg: Targets, tg': Targets, sc: Scope, k: nat, regs: seq<Value>, st': State, fuel: nat)
    requires Ends(c, st, r, m, tg, sc, k, regs, st', fuel) && (r.Returned? || r.Stopped? || r.Timeout?)
    ensures Ends(c, st, r, z, tg', sc, k, regs, st', fuel)
  {
    hide Arrives;
  }

  lemma EndsGoesOn(c: Ctx, st: State, r: Ending, m: nat, z: nat, cont: nat, sc: Scope, k: nat, regs: seq<Value>, st': State, fuel: nat)
    requires Ends(c, st, r, m, Closed(z, cont), sc, k, regs, st', fuel) && (r.Next? || r.Continued?)
    ensures Arrives(c, st, k, if r.Next? then m else cont, regs, sc, r.s, r.out) && (r.Continued? ==> k >= 1)
  {
    hide Arrives;
  }

  /** The step and the jump back (a continue of a while loop jumps back itself), then
      the loop again. */
  lemma {:induction false} NextRound(c: Ctx, test: OptExpr, step: OptExpr, body: Stmts, start: nat, cont: nat, stepAt: nat, back: nat, at: nat,
                                     sc: Scope, tg: Targets, regs: seq<Value>, s: Store, out: seq<Value>, z: nat, fuel: nat, st: State, k1: nat)
    returns (k: nat, regs': seq<Value>, st': State)
    requires Stands(c, sc, regs, s) && LoopStands(c, test, step, body, start, cont, z, sc) && LoopVars(test, step, body, s) && fuel > 0
    requires SimpleOpt(test) && SimpleClause(step) && SimpleStmts(body) && OptVars(step) <= s.Keys
    requires back == stepAt + ClauseSize(step, sc) && CodeClause(step, T(c), sc, stepAt) && Jumps(c.a.prog, back, start)
    requires at == stepAt || (at == start && step.Absent? && k1 >= 1)
    requires Runs(c, st, At(at, regs, out), k1)
    ensures var u := EffectOpt(c.env.fp, AsCompiled, step, s, out);
            && (u.Next? ==> OptVars(test) + OptVars(step) + VarsAll(body) <= u.s.Keys)
            && Ends(c, st, if u.Next? then Source.Loop(c.env.fp, AsCompiled, test, step, body, u.s, u.out, fuel - 1) else u, z, tg, sc, k, regs', st', fuel)
    decreases fuel, body, 2
  {
    hide *;
    var u := EffectOpt(c.env.fp, AsCompiled, step, s, out);
    StepMeans(c.env.fp, test, step, body, s, out);
    if at != stepAt {
      var k2, regs2, st2 := LoopRuns(c, test, step, body, start, cont, sc, tg, regs, s, out, z, fuel - 1);
      EndsMore(c, st, At(start, regs, out), k1, Source.Loop(c.env.fp, AsCompiled, test, step, body, s, out, fuel - 1), z, tg, sc, k2, regs2, st2, fuel);
      return k1 + k2, regs2, st2;
    }
    k, regs', st' := ClauseRuns(c, step, stepAt, sc, tg, regs, s, out, back, fuel);
    EndsAfter(c, st, At(stepAt, regs, out), k1, u, back, tg, sc, k, regs', st', fuel);
    k := k1 + k;
    if u.Next? {
      EndsNextIs(c, st, u, back, tg, sc, k, regs', st', fuel);
      StandsParts(c, sc, regs', u.s);
      StepGoto(c, back, regs', u.out, start);
      RunsTrans(c, st, At(back, regs', u.out), At(start, regs', u.out), k, 1);
      var k2, regs2, st2 := LoopRuns(c, test, step, body, start, cont, sc, tg, regs', u.s, u.out, z, fuel - 1);
      EndsMore(c, st, At(start, regs', u.out), k + 1, Source.Loop(c.env.fp, AsCompiled, test, step, body, u.s, u.out, fuel - 1), z, tg, sc, k2, regs2, st2, fuel);
      return k + 1 + k2, regs2, st2;
    }
    EndsElsewhere(c, st, u, back, z, tg, sc, k, regs', st', fuel);
  }

  lemma StepMeans(fp: FpOps, test: OptExpr, step: OptExpr, body: Stmts, s: Store, out: seq<Value>)
    requires SimpleClause(step) && OptVars(step) <= s.Keys && LoopVars(test, step, body, s)
    ensures step.Absent? ==> EffectOpt(fp, AsCompiled, step, s, out) == Next(s, out)
    ensures var u := EffectOpt(fp, AsCompiled, step, s, out);
            u.Next? ==> LoopVars(test, step, body, u.s) && OptVars(test) + OptVars(step) + VarsAll(body) <= u.s.Keys
  {
    hide VarsAll, Effect, SimpleEffect;
  }

  lemma {:induction false} WhileRuns(c: Ctx, st: Stmt, a: nat, sc: Scope, tg: Targets, regs: seq<Value>, s: Store, out: seq<Value>, z: nat, fuel: nat)
    returns (k: nat, regs': seq<Value>, st': State)
    requires st.While? && Stands(c, sc, regs, s) && SimpleStmt(st) && Vars(st) <= s.Keys
    requires CodeS(st, T(c), sc, a, tg) && z == a + SSize(st, sc)
    ensures Ends(c, At(a, regs, out), Source.Exec(c.env.fp, AsCompiled, st, s, out, fuel), z, tg, sc, k, regs', st', fuel)
    decreases fuel, st, 1
  {
    hide *;
    WhilePieces(c, st, a, sc, tg, s, out, z, fuel);
    k, regs', st' := LoopRuns(c, Present(st.cond), Absent, st.body, a, a, sc, tg, regs, s, out, z, fuel);
  }

  lemma WhilePieces(c: Ctx, st: Stmt, a: nat, sc: Scope, tg: Targets, s: Store, out: seq<Value>, z: nat, fuel: nat)
    requires st.While? && SimpleStmt(st) && Vars(st) <= s.Keys && CodeS(st, T(c), sc, a, tg) && z == a + SSize(st, sc)
    ensures LoopStands(c, Present(st.cond), Absent, st.body, a, a, z, sc) && LoopVars(Present(st.cond), Absent, st.body, s)
    ensures SimpleOpt(Present(st.cond)) && SimpleClause(Absent) && SimpleStmts(st.body)
    ensures Source.Exec(c.env.fp, AsCompiled, st, s, out, fuel) == Source.Loop(c.env.fp, AsCompiled, Present(st.cond), Absent, st.body, s, out, fuel)
  {
    assert !st.cond.Assign?;
    assert ClauseSize(Absent, sc) == 0;
    hide CodeLoop, TestSize, SizeAll, SimpleStmts, VarsAll, Simple, Reads, Source.Loop, T;
  }

  lemma {:induction false} ForRuns(c: Ctx, st: Stmt, a: nat, sc: Scope, tg: Targets, regs: seq<Value>, s: Store, out: seq<Value>, z: nat, fuel: nat)
    returns (k: nat, regs': seq<Value>, st': State)
    requires st.For? && Stands(c, sc, regs, s) && SimpleStmt(st) && Vars(st) <= s.Keys
    requires CodeS(st, T(c), sc, a, tg) && z == a + SSize(st, sc)
    ensures Ends(c, At(a, regs, out), Source.Exec(c.env.fp, AsCompiled, st, s, out, fuel), z, tg, sc, k, regs', st', fuel)
    decreases fuel, st, 1
  {
    hide *;
    var start, stepAt := ForPieces(c, st, a, sc, tg, z);
    ForMeans(c.env.fp, st, s, out, fuel);
    var from, u := At(a, regs, out), EffectOpt(c.env.fp, AsCompiled, st.init, s, out);
    k, regs', st' := ClauseRuns(c, st.init, a, sc, tg, regs, s, out, start, fuel);
    if u.Next? {
      EndsNextIs(c, from, u, start, tg, sc, k, regs', st', fuel);
      var k2, regs2, st2 := LoopRuns(c, st.test, st.step, st.body, start, stepAt, sc, tg, regs', u.s, u.out, z, fuel);
      EndsAfter(c, from, At(start, regs', u.out), k, Source.Loop(c.env.fp, AsCompiled, st.test, st.step, st.body, u.s, u.out, fuel), z, tg, sc, k2, regs2, st2, fuel);
      return k + k2, regs2, st2;
    }
    EndsElsewhere(c, from, u, start, z, tg, sc, k, regs', st', fuel);
  }

  lemma ForPieces(c: Ctx, st: Stmt, a: nat, sc: Scope, tg: Targets, z: nat) returns (start: nat, stepAt: nat)
    requires st.For? && SimpleStmt(st) && CodeS(st, T(c), sc, a, tg) && z == a + SSize(st, sc)
    ensures CodeClause(st.init, T(c), sc, a)
    ensures start == a + ClauseSize(st.init, sc) && LoopStands(c, st.test, st.step, st.body, start, stepAt, z, sc)
  {
    hide *;
    start := a + ClauseSize(st.init, sc);
    stepAt := start + TestSize(st.test, sc) + SizeAll(st.body, sc);
    ForIs(st, T(c), sc, a, tg, start, stepAt);
    ForFlags(st);
    LoopStandsIf(c, st.test, st.step, st.body, start, stepAt, z, sc);
  }

  lemma ForFlags(st: Stmt)
    requires st.For? && SimpleStmt(st)
    ensures SimpleOpt(st.test) && SimpleClause(st.step) && SimpleStmts(st.body)
  {
  }

  lemma LoopStandsIf(c: Ctx, test: OptExpr, step: OptExpr, body: Stmts, start: nat, cont: nat, z: nat, sc: Scope)
    requires CodeLoop(test, step, body, T(c), sc, start, cont)
    requires z == start + TestSize(test, sc) + SizeAll(body, sc) + ClauseSize(step, sc) + 3
    requires SimpleOpt(test) && SimpleClause(step) && SimpleStmts(body)
    ensures LoopStands(c, test, step, body, start, cont, z, sc)
  {
  }

  lemma ForMeans(fp: FpOps, st: Stmt, s: Store, out: seq<Value>, fuel: nat)
    requires st.For? && SimpleStmt(st) && Vars(st) <= s.Keys
    ensures SimpleClause(st.init) && OptVars(st.init) <= s.Keys
    ensures SimpleOpt(st.test) && SimpleClause(st.step) && SimpleStmts(st.body)
    ensures var u := EffectOpt(fp, AsCompiled, st.init, s, out);
            && (u.Next? ==> LoopVars(st.test, st.step, st.body, u.s) && OptVars(st.test) + OptVars(st.step) + VarsAll(st.body) <= u.s.Keys)
            && Source.Exec(fp, AsCompiled, st, s, out, fuel) ==
               if !u.Next? then u else Source.Loop(fp, AsCompiled, st.test, st.step, st.body, u.s, u.out, fuel)
  {
    hide SimpleStmts, VarsAll, SimpleOpt, SimpleClause, OptVars, Source.Loop, EffectOpt;
  }
}
