/** Modules that are compilations of the programs `Programs.Misread` and `LongCode.Clears`. */
module Compilations {
  import opened Bytecode
  import opened Verifier
  import opened Decoder
  import opened Ast
  import opened Source
  import opened CodeOf
  import opened Assembly
  import opened Programs
  import opened Pipeline
  import opened LongCode
  import opened Loader
  import Machine
  import opened Serializer
  import Values
  import Building
  import FnCode
  import Safety
  import Simulation

  // ---- code given by its instructions --------------------------------------------------------

  ghost predicate AllGood(a: Asm, nf: nat) {
    forall p {:trigger Good(a, nf, p)} :: p in a.prog ==> Good(a, nf, p)
  }

  /** No instruction starts inside another. */
  ghost predicate Apart(prog: Prog) {
    forall p, q {:trigger prog[p], prog[q]} :: p in prog && q in prog && p < q ==> p + Len(prog[p]) <= q
  }

  function From(prog: Prog, p: nat): set<nat> {
    set q | q in prog && p <= q
  }

  /** A walk over such code visits just its instructions. */
  lemma {:induction false} WalkIs(a: Asm, nf: nat, p: nat)
    requires AllGood(a, nf) && Apart(a.prog) && IsPosition(a, p) && p <= |a.code|
    ensures Starts(a.code, p) == From(a.prog, p)
    decreases |a.code| - p
  {
    hide InstrLen, InRange, Encodable, At, Decode, Len;
    if p == |a.code| {
      forall q | q in a.prog ensures q < p {
        GoodLen(a, nf, q);
      }
    } else {
      GoodLen(a, nf, p);
      var n := Len(a.prog[p]);
      StartsStep(a.code, p, n);
      WalkIs(a, nf, p + n);
      assert From(a.prog, p) == {p} + From(a.prog, p + n);
    }
  }

  lemma CodeOk(a: Asm, nf: nat)
    requires AllGood(a, nf) && Apart(a.prog) && IsPosition(a, 0)
    ensures Ok(a, nf)
  {
    hide Starts;
    WalkIs(a, nf, 0);
    assert From(a.prog, 0) == a.prog.Keys;
  }

  /** A module whose only function is `a`, and which is therefore accepted. */
  function Only(a: Asm): Module {
    Module(a.consts, [Function(0, 0, a.hw, 0, a.code)], 0)
  }

  ghost predicate Complete(a: Asm) {
    && AllGood(a, 1) && Apart(a.prog) && IsPosition(a, 0) && Sealed(a)
    && 0 < |a.consts| <= 65536 && a.consts[0].CStr? && a.hw < 256
  }

  lemma OnlyVerifies(a: Asm)
    requires Complete(a)
    ensures VerifiedModule(Only(a)) && Ok(a, 1) && Building.AllEntered(Only(a).consts, Only(a).funcs)
  {
    hide Ok, Verified, Sealed, AllGood, Apart;
    CodeOk(a, 1);
    FinishedVerifies(a, Only(a), Only(a).funcs[0]);
  }

  /** Code of a simple program's statements makes such a module a compilation of it. */
  lemma Compiles(a: Asm, main: Stmts, sc: Scope)
    requires Complete(a) && CodeAll(main, Text(a.prog, a.consts), sc, 0, Outside)
    requires SizeAll(main, sc) in a.prog && a.prog[SizeAll(main, sc)] == Halt
    requires FnCode.Names(sc.locals, [], main) && Simulation.Below(sc.locals, sc.rt) && sc.rt <= a.hw
    ensures CompiledMain(Only(a), main, sc, a)
  {
    hide Complete, VerifiedModule, Ok, CodeAll, SizeAll, FnCode.Names;
    OnlyVerifies(a);
  }

  lemma CompilesFrom(a: Asm, program: Stmts, fp: Values.FpOps, sc: Scope)
    requires Complete(a) && CompiledMain(Only(a), FnCode.MainOf(Prepared(fp, program)), sc, a)
    ensures CompiledFrom(Only(a), program, fp, sc, a)
  {
    hide CompiledMain, FnCode.MainOf, Prepared, Building.AllEntered;
    OnlyVerifies(a);
  }

  // ---- x = nil; over and over ------------------------------------------------------------------

  const ONE: Scope := Scope(1, map["x" := 0])

  function ClearsAsm(n: nat): Asm {
    Asm(
      seq(2 * n + 1, i requires 0 <= i < 2 * n + 1 => if i % 2 == 0 && i < 2 * n then LOAD_NIL else HALT),
      map p: nat | p <= 2 * n && p % 2 == 0 :: if p == 2 * n then Halt else LoadNil(0),
      [CStr("main")], 1)
  }

  lemma ClearsGood(n: nat, p: nat)
    requires p <= 2 * n && p % 2 == 0
    ensures Good(ClearsAsm(n), 1, p)
  {
    var a := ClearsAsm(n);
    if p < 2 * n {
      assert a.code[p..p + 2] == [LOAD_NIL, 0];
    } else {
      assert a.code[p..p + 1] == [HALT];
    }
  }

  lemma ClearsApart(n: nat)
    ensures Apart(ClearsAsm(n).prog) && Sealed(ClearsAsm(n))
  {
  }

  lemma ClearsComplete(n: nat)
    ensures Complete(ClearsAsm(n))
  {
    hide Good, Apart, Sealed;
    ClearsApart(n);
    forall p | p in ClearsAsm(n).prog ensures Good(ClearsAsm(n), 1, p) {
      ClearsGood(n, p);
    }
  }

  lemma {:induction false} ClearsCode(n: nat, k: nat)
    requires k <= n
    ensures var a := ClearsAsm(n); CodeAll(Clears(k), Text(a.prog, a.consts), ONE, 2 * (n - k), Outside)
    decreases k
  {
    if k > 0 {
      ClearsCode(n, k - 1);
      assert SSize(CLEAR, ONE) == 2;
    }
  }

  lemma {:induction false} ClearsNames(n: nat)
    ensures forall x :: Target(x) in MarksAll(Clears(n), false) <==> n > 0 && x == "x"
  {
    if n > 0 {
      ClearsNames(n - 1);
      assert Marks(CLEAR, false) == [Target("x")];
    }
  }

  /** There is a compilation of every such program. */
  lemma ClearsCompile(n: nat, fp: Values.FpOps) returns (m: Module, a: Asm)
    requires n > 0
    ensures CompiledFrom(m, Clears(n), fp, ONE, a)
  {
    hide *;
    a := ClearsAsm(n);
    m := Only(a);
    ClearsComplete(n);
    ClearsCode(n, n);
    ClearsEnd(n);
    Compiles(a, Clears(n), ONE);
    ClearsStay(fp, n);
    PreparedMain(fp, Clears(n));
    CompilesFrom(a, Clears(n), fp, ONE);
  }

  lemma ClearsEnd(n: nat)
    requires n > 0
    ensures SizeAll(Clears(n), ONE) in ClearsAsm(n).prog && ClearsAsm(n).prog[SizeAll(Clears(n), ONE)] == Halt
    ensures FnCode.Names(ONE.locals, [], Clears(n)) && Simulation.Below(ONE.locals, ONE.rt) && ONE.rt <= ClearsAsm(n).hw
  {
    hide Clears, SizeAll, MarksAll;
    ClearsSize(n, ONE);
    ClearsNames(n);
  }

  /** There is a compilation of every such program, however long, and from 2^31 statements on
      its file does not read back. */
  lemma LongCodeHappens(n: nat, fp: Values.FpOps, rest: seq<Byte>) returns (m: Module, a: Asm)
    requires n > 0
    ensures CompiledFrom(m, Clears(n), fp, ONE, a)
    ensures n >= 0x8000_0000 ==> GetModule(ModuleBytes(m) + rest) != Got(m, |ModuleBytes(m)|)
  {
    hide *;
    m, a := ClearsCompile(n, fp);
    if n >= 0x8000_0000 { LongCodeIsLost(m, n, fp, ONE, a, rest); }
  }

  // ---- x = 0; x = 1 && x; print x; ---------------------------------------------------------------

  function MisreadProg(): Prog {
    map[0 := LoadConst(0, 1), 4 := LoadConst(0, 2), 8 := GotoIfFalse(0, 11), 12 := GotoIfFalse(0, 7), 16 := LoadConst(0, 3),
        20 := Goto(4), 23 := LoadConst(0, 4), 27 := Two(MOVE, 1, 0), 30 := Instr.Print(1), 32 := Halt]
  }

  /** Its bytes other than zero. */
  function MisreadByte(i: nat): Byte {
    match i
    case 0 => LOAD_CONST case 2 => 1
    case 4 => LOAD_CONST case 6 => 2
    case 8 => JUMP_IF_FALSE case 10 => 11
    case 12 => JUMP_IF_FALSE case 14 => 7
    case 16 => LOAD_CONST case 18 => 3
    case 20 => JUMP case 21 => 4
    case 23 => LOAD_CONST case 25 => 4
    case 27 => MOVE case 28 => 1
    case 30 => PRINT case 31 => 1
    case _ => 0
  }

  function MisreadAsm(): Asm {
    Asm(seq(33, i requires 0 <= i => MisreadByte(i)), MisreadProg(), [CStr("main"), CInt(0), CInt(1), CBool(true), CBool(false)], 2)
  }

  lemma MisreadAt(p: nat)
    requires p in MisreadProg()
    ensures At(MisreadAsm().code, p, MisreadProg()[p])
  {
    var bytes, code := Encode(MisreadProg()[p]), MisreadAsm().code;
    MisreadBytes(p);
    assert forall i :: 0 <= i < 33 ==> code[i] == MisreadByte(i);
    hide Encode, MisreadByte, MisreadProg;
  }

  lemma MisreadBytes(p: nat)
    requires p in MisreadProg()
    ensures var bytes := Encode(MisreadProg()[p]);
            p + |bytes| <= 33 && forall k :: 0 <= k < |bytes| ==> bytes[k] == MisreadByte(p + k)
  {
  }

  lemma MisreadRange(p: nat)
    requires p in MisreadProg()
    ensures InRange(MisreadAsm().consts, 1, 2, MisreadProg()[p]) && Encodable(MisreadProg()[p])
  {
  }

  lemma MisreadPosition(p: nat)
    requires p in MisreadProg()
    ensures IsPosition(MisreadAsm(), p + Len(MisreadProg()[p]))
    ensures IsJumpInstr(MisreadProg()[p]) ==> TargetOf(MisreadProg(), p) in {23, 27}
    ensures forall q :: q in MisreadProg() && p < q ==> p + Len(MisreadProg()[p]) <= q
  {
  }

  lemma MisreadGood(p: nat)
    requires p in MisreadProg()
    ensures Good(MisreadAsm(), 1, p)
  {
    var a := MisreadAsm();
    assert a.prog == MisreadProg() && a.hw == 2 && 23 in a.prog && 27 in a.prog;
    MisreadPosition(p);
    MisreadRange(p);
    MisreadAt(p);
    hide InRange, At, Encodable, Len, TargetOf, MisreadAsm, MisreadProg;
  }

  lemma MisreadAllGood()
    ensures AllGood(MisreadAsm(), 1) && Apart(MisreadAsm().prog)
  {
    var a := MisreadAsm();
    assert a.prog == MisreadProg();
    hide Good, Len, MisreadAsm, MisreadProg;
    forall p | p in a.prog ensures Good(a, 1, p) {
      MisreadGood(p);
    }
    forall p, q | p in a.prog && q in a.prog && p < q ensures p + Len(a.prog[p]) <= q {
      MisreadPosition(p);
    }
  }

  lemma MisreadSealed()
    ensures Sealed(MisreadAsm())
  {
    var a := MisreadAsm();
    assert a.prog == MisreadProg() && 23 in a.prog && 27 in a.prog;
    hide TargetOf, Len, MisreadAsm, MisreadProg;
    forall p | p in a.prog && IsJumpInstr(a.prog[p]) ensures TargetOf(a.prog, p) in {23, 27} {
      MisreadPosition(p);
    }
  }

  lemma MisreadComplete()
    ensures Complete(MisreadAsm())
  {
    MisreadAllGood();
    MisreadSealed();
    hide AllGood, Apart, Sealed;
  }

  lemma MisreadCode()
    ensures var a := MisreadAsm(); CodeAll(Misread(), Text(a.prog, a.consts), ONE, 0, Outside)
    ensures SizeAll(Misread(), ONE) == 32
  {
    var a, x := MisreadAsm(), Expr.Ident("x");
    var u := Text(a.prog, a.consts);
    MisreadOperator(a);
    hide CodeE, ESize, MisreadAsm, MisreadProg;
    var last := Stmt.Print(x);
    assert CodeS(last, u, ONE, 27, Outside) && SSize(last, ONE) == 5;
    var second := ExprStmt(Expr.Assign(x, Logical(true, IntLit(1), x)));
    assert CodeS(second, u, ONE, 4, Outside) && SSize(second, ONE) == 23;
    var first := ExprStmt(Expr.Assign(x, IntLit(0)));
    assert CodeS(first, u, ONE, 0, Outside) && SSize(first, ONE) == 4;
    AllOfThree(first, second, last, u);
  }

  lemma AllOfThree(r: Stmt, s: Stmt, t: Stmt, u: Text)
    requires CodeS(r, u, ONE, 0, Outside) && CodeS(s, u, ONE, SSize(r, ONE), Outside) && CodeS(t, u, ONE, SSize(r, ONE) + SSize(s, ONE), Outside)
    ensures CodeAll(SCons(r, SCons(s, SCons(t, SNil))), u, ONE, 0, Outside)
    ensures SizeAll(SCons(r, SCons(s, SCons(t, SNil))), ONE) == SSize(r, ONE) + SSize(s, ONE) + SSize(t, ONE)
  {
    hide CodeS, SSize;
    var n := SSize(r, ONE) + SSize(s, ONE);
    assert CodeAll(SNil, u, ONE, n + SSize(t, ONE), Outside);
    assert CodeAll(SCons(t, SNil), u, ONE, n, Outside);
    assert CodeAll(SCons(s, SCons(t, SNil)), u, ONE, SSize(r, ONE), Outside);
    assert SizeAll(SCons(t, SNil), ONE) == SSize(t, ONE);
  }

  lemma MisreadOperator(a: Asm)
    requires a == MisreadAsm()
    ensures CodeE(IntLit(0), a.prog, a.consts, 0, 0, 1, ONE.locals) && ESize(IntLit(0), 0, 1, ONE.locals) == 4
    ensures CodeE(Logical(true, IntLit(1), Expr.Ident("x")), a.prog, a.consts, 4, 0, 1, ONE.locals)
    ensures ESize(Logical(true, IntLit(1), Expr.Ident("x")), 0, 1, ONE.locals) == 23
    ensures CodeE(Expr.Ident("x"), a.prog, a.consts, 27, 1, 2, ONE.locals) && ESize(Expr.Ident("x"), 1, 2, ONE.locals) == 3
    ensures 30 in a.prog && a.prog[30] == Instr.Print(1)
  {
    MisreadOperands(a);
    hide MisreadAsm, Circuit;
  }

  lemma MisreadOperands(a: Asm)
    requires a == MisreadAsm()
    ensures CodeE(IntLit(1), a.prog, a.consts, 4, 0, 1, ONE.locals) && ESize(IntLit(1), 0, 1, ONE.locals) == 4
    ensures CodeE(Expr.Ident("x"), a.prog, a.consts, 12, 0, 1, ONE.locals) && ESize(Expr.Ident("x"), 0, 1, ONE.locals) == 0
    ensures CodeE(IntLit(0), a.prog, a.consts, 0, 0, 1, ONE.locals) && ESize(IntLit(0), 0, 1, ONE.locals) == 4
    ensures CodeE(Expr.Ident("x"), a.prog, a.consts, 27, 1, 2, ONE.locals) && ESize(Expr.Ident("x"), 1, 2, ONE.locals) == 3
    ensures Circuit(true, a.prog, a.consts, 8, 12, 0) && 30 in a.prog && a.prog[30] == Instr.Print(1)
  {
  }

  lemma MisreadNames()
    ensures FnCode.Names(ONE.locals, [], Misread())
  {
    assert MarksAll(Misread(), false) == [Target("x"), Target("x")];
  }

  /** There is a compilation of the program that comes out wrong. */
  lemma MisreadCompiles() returns (m: Module, a: Asm)
    ensures CompiledMain(m, Misread(), ONE, a)
  {
    hide CodeAll, Complete, SizeAll, FnCode.Names, CompiledMain;
    a := MisreadAsm();
    m := Only(a);
    MisreadComplete();
    MisreadCode();
    MisreadNames();
    Compiles(a, Misread(), ONE);
  }

  /** And run, it prints true, where the source says false. */
  lemma MisreadHappens(env: Machine.Env, fuel: nat) returns (m: Module, a: Asm, k: nat)
    requires Machine.NativesOk(env)
    ensures CompiledMain(m, Misread(), ONE, a) && VerifiedModule(m) && m.entry < |m.funcs|
    ensures Safety.After(m, env, k) == Machine.State([], [], [Values.VBool(true)], [])
    ensures SimpleStmts(Misread()) && VarsAll(Misread()) <= AllNil(ONE.locals).Keys
    ensures ExecAll(env.fp, AsMeant, Misread(), AllNil(ONE.locals), [], fuel) == Next(AllNil(ONE.locals)["x" := Values.VBool(false)], [Values.VBool(false)])
  {
    hide *;
    m, a := MisreadCompiles();
    k := MisreadRuns(m, ONE, a, env, fuel);
    NilKeys(ONE.locals);
  }
}
