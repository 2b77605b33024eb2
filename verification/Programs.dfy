/** Compiling and running whole programs: what the compiler accepts passes the verifier,
    and what the machine then does is what the source says. */
module Programs {
  import opened Bytecode
  import opened Verifier
  import opened Values
  import opened Machine
  import opened Safety
  import opened Ast
  import opened Source
  import opened CodeOf
  import opened Assembly
  import opened Simulation
  import opened Faithfulness
  import opened Assignments
  import Building
  import FnCode
  import CompilerModel

  /** A verified module whose entry function is the code `a` of `main`, with the variables
      of `main` (and no others) in the registers below `sc.rt`. */
  ghost predicate CompiledMain(m: Module, main: Stmts, sc: Scope, a: Asm) {
    && VerifiedModule(m) && |m.funcs| > 0 && m.entry == 0
    && m.funcs[0].code == a.code && m.funcs[0].numRegs == a.hw
    && Ok(a, |m.funcs|) && Extends(a.consts, m.consts)
    && FnCode.MainCode(main, sc, a) && FnCode.Names(sc.locals, [], main)
    && Simulation.Below(sc.locals, sc.rt) && sc.rt <= a.hw
  }

  /** compile: a program the compiler accepts yields a module the verifier accepts. */
  method Compile(program: Stmts, fp: FpOps, natives: map<string, (nat, nat)>)
    returns (ok: bool, m: Module, ghost sc: Scope, ghost a: Asm)
    requires FnCode.DistinctLambdas(MarksAll(program, true))
    ensures ok ==> VerifiedModule(m) && CompiledMain(m, FnCode.MainOf(program), sc, a)
    ensures ok ==> Building.AllEntered(m.consts, m.funcs) && |m.consts| <= 65536
  {
    hide VerifiedModule, Ok, FnCode.MainCode, FnCode.Names, FnCode.MainOf, FnCode.DistinctLambdas;
    var c := new CompilerModel.Compiler(fp, natives);
    sc, a := c.Run(program);
    ok := !c.failed;
    m := Module(c.consts, c.funcs, 0);
  }

  /** Before the first statement every variable is nil. */
  function AllNil(locals: Regs): (s: Store)
    ensures s.Keys == locals.Keys
  {
    map x | x in locals :: VNil
  }

  // ---- runs from the start ----------------------------------------------------------------------

  lemma {:induction false} RunsAfter(c: Ctx, i: nat, st': State, k: nat)
    requires VerifiedModule(c.m) && NativesOk(c.env) && c.m.entry < |c.m.funcs| && Runs(c, After(c.m, c.env, i), st', k)
    ensures After(c.m, c.env, i + k) == st'
    ensures forall n {:trigger After(c.m, c.env, n)} :: i <= n < i + k ==> Running(After(c.m, c.env, n))
    decreases k
  {
    hide Ready, Running, Step, VerifiedModule, NativesOk;
    if k > 0 {
      AfterNext(c, i);
      RunsAfter(c, i + 1, st', k - 1);
    }
  }

  lemma AfterNext(c: Ctx, i: nat)
    requires VerifiedModule(c.m) && NativesOk(c.env) && c.m.entry < |c.m.funcs| && Running(After(c.m, c.env, i))
    ensures Ready(c.m, After(c.m, c.env, i)) && After(c.m, c.env, i + 1) == Step(c.m, c.env, After(c.m, c.env, i))
  {
    StepInv(c.m, c.env, After(c.m, c.env, i));
    hide Ready, Step, VerifiedModule, NativesOk, Inv;
  }

  /** The single frame's registers hold these variables. */
  ghost predicate HoldsVariables(st: State, locals: Regs, s: Store) {
    |st.frames| == 1 && Matches(st.frames[0].regs, locals, s)
  }

  /** The machine's run of `k` steps from the start matches the ending `r`. */
  ghost predicate RunMatches(m: Module, env: Env, sc: Scope, r: Ending, k: nat, fuel: nat)
    requires VerifiedModule(m) && NativesOk(env) && m.entry < |m.funcs|
  {
    match r
    case Next(s, out) => k >= 1 && After(m, env, k) == State([], [], out, []) && HoldsVariables(After(m, env, k - 1), sc.locals, s)
    case Returned(_, out) => After(m, env, k) == State([], [], out, [])
    case Stopped(e, out) => Halted(After(m, env, k), e, out)
    case Timeout => k >= fuel && forall n {:trigger After(m, env, n)} :: 0 <= n < k ==> Running(After(m, env, n))
    case Broke(_, _) => false
    case Continued(_, _) => false
  }

  lemma StartStands(c: Ctx, main: Stmts, sc: Scope)
    requires CompiledMain(c.m, main, sc, c.a) && NativesOk(c.env)
    ensures Fit(c) && Initial(c.m) == At(0, seq(c.m.funcs[0].numRegs, _ => VNil), [])
    ensures Stands(c, sc, seq(c.m.funcs[0].numRegs, _ => VNil), AllNil(sc.locals))
  {
    hide VerifiedModule, Ok, FnCode.MainCode;
  }

  /** Every variable mentioned is assigned somewhere: no other name is a variable here, and
      the compiler takes it for a function or refuses it. */
  ghost predicate VariablesAssigned(main: Stmts) {
    forall x :: x in VarsAll(main) ==> Target(x) in MarksAll(main, false)
  }

  /** The variables the compiler finds are those: whatever it gives the other names, no
      register holds them. */
  lemma AssignedAreLocals(m: Module, main: Stmts, sc: Scope, a: Asm)
    requires CompiledMain(m, main, sc, a)
    ensures VarsAll(main) <= sc.locals.Keys <==> VariablesAssigned(main)
  {
    hide VerifiedModule, Ok, FnCode.MainCode, VarsAll, MarksAll;
    assert FnCode.Names(sc.locals, [], main);
  }

  lemma MainPieces(main: Stmts, sc: Scope, c: Ctx)
    requires CompiledMain(c.m, main, sc, c.a) && SimpleStmts(main) && VarsAll(main) <= sc.locals.Keys
    ensures CodeAll(main, T(c), sc, 0, Outside) && SizeAll(main, sc) in c.a.prog && c.a.prog[SizeAll(main, sc)] == Halt
    ensures Fit(c)
  {
    hide VerifiedModule, Ok, CodeAll, SizeAll, SimpleStmts, VarsAll;
  }

  /** For every program of the fragment: the machine ends as the source does, assigned values
      computed in their variables' registers, with the same output and the same final
      variables or the same error; and while the source has not ended, neither has the machine. */
  lemma MainRuns(m: Module, main: Stmts, sc: Scope, a: Asm, env: Env, fuel: nat) returns (k: nat)
    requires CompiledMain(m, main, sc, a) && NativesOk(env)
    requires SimpleStmts(main) && VariablesAssigned(main)
    ensures VerifiedModule(m) && m.entry < |m.funcs| && VarsAll(main) <= sc.locals.Keys
    ensures RunMatches(m, env, sc, ExecAll(env.fp, AsCompiled, main, AllNil(sc.locals), [], fuel), k, fuel)
  {
    var c := Ctx(m, env, a);
    assert VerifiedModule(m) && m.entry < |m.funcs|;
    AssignedAreLocals(m, main, sc, a);
    StartStands(c, main, sc);
    MainPieces(main, sc, c);
    assert After(m, env, 0) == Initial(m);
    hide *;
    var regs, s0, z := seq(m.funcs[0].numRegs, _ => VNil), AllNil(sc.locals), SizeAll(main, sc);
    NoTargets();
    var k1, regs', st' := AllRuns(c, main, 0, sc, Outside, regs, s0, [], z, fuel);
    var r := ExecAll(env.fp, AsCompiled, main, s0, [], fuel);
    k := MainEnds(c, sc, r, z, k1, regs', st', fuel);
  }

  lemma NoTargets()
    ensures TargetsKnown(Outside)
  {
  }

  lemma MainEnds(c: Ctx, sc: Scope, r: Ending, z: nat, k1: nat, regs: seq<Value>, st': State, fuel: nat) returns (k: nat)
    requires VerifiedModule(c.m) && NativesOk(c.env) && c.m.entry < |c.m.funcs| && Fit(c)
    requires Ends(c, After(c.m, c.env, 0), r, z, Outside, sc, k1, regs, st', fuel)
    requires z in c.a.prog && c.a.prog[z] == Halt
    ensures RunMatches(c.m, c.env, sc, r, k, fuel)
  {
    hide VerifiedModule, NativesOk, Runs, Fit, After, Matches, Running, Step;
    k := k1;
    match r
    case Next(s, out) =>
      StandsParts(c, sc, regs, s);
      StepHalt(c, z, regs, out);
      RunsAfter(c, 0, At(z, regs, out), k1);
      RunsTrans(c, After(c.m, c.env, 0), At(z, regs, out), State([], [], out, []), k1, 1);
      k := k1 + 1;
      RunsAfter(c, 0, State([], [], out, []), k);
    case Returned(_, _) => RunsAfter(c, 0, st', k1);
    case Stopped(_, _) => RunsAfter(c, 0, st', k1);
    case Timeout => RunsAfter(c, 0, st', k1);
  }

  /** With enough budget the interpreter reports exactly that. */
  lemma EnoughBudget(m: Module, env: Env, sc: Scope, r: Ending, k: nat, fuel: nat, budget: nat)
    requires VerifiedModule(m) && NativesOk(env) && m.entry < |m.funcs| && RunMatches(m, env, sc, r, k, fuel) && !r.Timeout? && k <= budget
    ensures After(m, env, budget) == After(m, env, k) && !Running(After(m, env, k))
  {
    hide VerifiedModule, NativesOk, After, Matches;
    StoppedStays(m, env, k, budget);
  }

  /** Where assignments are safe, that is what the source means. */
  lemma MainRunsAsMeant(m: Module, main: Stmts, sc: Scope, a: Asm, env: Env, fuel: nat) returns (k: nat)
    requires CompiledMain(m, main, sc, a) && NativesOk(env)
    requires SimpleStmts(main) && SafeAll(main) && VariablesAssigned(main)
    ensures VerifiedModule(m) && m.entry < |m.funcs| && VarsAll(main) <= sc.locals.Keys
    ensures RunMatches(m, env, sc, ExecAll(env.fp, AsMeant, main, AllNil(sc.locals), [], fuel), k, fuel)
  {
    hide *;
    AssignedAreLocals(m, main, sc, a);
    NilKeys(sc.locals);
    ExecAllAsMeant(env.fp, main, AllNil(sc.locals), [], fuel);
    k := MainRuns(m, main, sc, a, env, fuel);
  }

  lemma NilKeys(locals: Regs)
    ensures AllNil(locals).Keys == locals.Keys
  {
  }

  // ---- a program that comes out wrong ----------------------------------------------------------------

  /** x = 0; x = 1 && x; print x; */
  function Misread(): Stmts {
    var x := Expr.Ident("x");
    SCons(ExprStmt(Expr.Assign(x, IntLit(0))),
          SCons(ExprStmt(Expr.Assign(x, Logical(true, IntLit(1), x))), SCons(Stmt.Print(x), SNil)))
  }

  lemma MisreadMeans(fp: FpOps, how: How, s: Store, fuel: nat)
    requires "x" in s
    ensures SimpleStmts(Misread()) && VarsAll(Misread()) == {"x"}
    ensures ExecAll(fp, how, Misread(), s, [], fuel) ==
            Next(s["x" := VBool(how.AsCompiled?)], [VBool(how.AsCompiled?)])
  {
    var x := Expr.Ident("x");
    var e, s1, b := Logical(true, IntLit(1), x), s["x" := VInt(0)], VBool(how.AsCompiled?);
    assert s1["x" := b] == s["x" := b];
    MisreadValue(fp, how, s1);
    var last := SCons(Stmt.Print(x), SNil);
    assert ExecAll(fp, how, last, s["x" := b], [], fuel) == Next(s["x" := b], [b]);
    var rest := SCons(ExprStmt(Expr.Assign(x, e)), last);
    assert Effect(fp, how, Expr.Assign(x, e), s1, []) == Next(s["x" := b], []);
    assert ExecAll(fp, how, rest, s1, [], fuel) == Next(s["x" := b], [b]);
    assert Effect(fp, how, Expr.Assign(x, IntLit(0)), s, []) == Next(s1, []);
  }

  lemma MisreadValue(fp: FpOps, how: How, s: Store)
    requires "x" in s && s["x"] == VInt(0)
    ensures Assigned(fp, how, Logical(true, IntLit(1), Expr.Ident("x")), "x", s) == Outcome.Good(VBool(how.AsCompiled?))
  {
    var x, one := Expr.Ident("x"), IntLit(1);
    if how.AsMeant? {
      assert Eval(fp, one, s) == Outcome.Good(VInt(1)) && Eval(fp, x, s) == Outcome.Good(VInt(0));
    } else {
      var s' := s["x" := VInt(1)];
      assert EvalThrough(fp, one, s, "x") == Eval(fp, one, s) == Outcome.Good(VInt(1));
      assert EvalThrough(fp, x, s', "x") == Eval(fp, x, s') == Outcome.Good(VInt(1));
    }
  }

  /** However it is compiled, the program prints true where the source says false. */
  lemma MisreadRuns(m: Module, sc: Scope, a: Asm, env: Env, fuel: nat) returns (k: nat)
    requires CompiledMain(m, Misread(), sc, a) && NativesOk(env)
    ensures VerifiedModule(m) && m.entry < |m.funcs| && After(m, env, k) == State([], [], [VBool(true)], [])
    ensures "x" in sc.locals && SimpleStmts(Misread()) && VarsAll(Misread()) <= sc.locals.Keys
    ensures ExecAll(env.fp, AsMeant, Misread(), AllNil(sc.locals), [], fuel) == Next(AllNil(sc.locals)["x" := VBool(false)], [VBool(false)])
  {
    MisreadHasX(m, sc, a);
    hide *;
    MisreadMeans(env.fp, AsMeant, map["x" := VNil], fuel);
    AssignedAreLocals(m, Misread(), sc, a);
    NilKeys(sc.locals);
    MisreadMeans(env.fp, AsMeant, AllNil(sc.locals), fuel);
    MisreadMeans(env.fp, AsCompiled, AllNil(sc.locals), fuel);
    k := MainRuns(m, Misread(), sc, a, env, fuel);
    PrintsAre(m, env, sc, AllNil(sc.locals)["x" := VBool(true)], [VBool(true)], k, fuel);
  }

  lemma MisreadHasX(m: Module, sc: Scope, a: Asm)
    requires CompiledMain(m, Misread(), sc, a)
    ensures "x" in sc.locals
  {
    hide VerifiedModule, Ok, FnCode.MainCode;
    assert MarksAll(Misread(), false)[0] == Target("x");
  }

  lemma PrintsAre(m: Module, env: Env, sc: Scope, s: Store, out: seq<Value>, k: nat, fuel: nat)
    requires VerifiedModule(m) && NativesOk(env) && m.entry < |m.funcs| && RunMatches(m, env, sc, Next(s, out), k, fuel)
    ensures After(m, env, k) == State([], [], out, [])
  {
    hide VerifiedModule, NativesOk, After;
  }
}
