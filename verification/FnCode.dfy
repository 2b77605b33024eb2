/** Whole functions: their variables, their terminator, and what the finished bytes pass. */
module FnCode {
  import opened Bytecode
  import opened Verifier
  import opened Ast
  import opened Source
  import opened CodeOf
  import opened CodeFrames
  import opened Assembly
  import opened Building
  import opened ExprCode
  import opened StmtCode
  import opened LoopCode

  /** What holds between functions, whatever is left of the last one. */
  ghost predicate Outer(u: Unit) {
    Compiled(u.asm.consts, u.funcs, u.done) && Slots(u) && |u.asm.consts| <= 65536
  }

  lemma FineOuter(u: Unit)
    requires Fine(u)
    ensures Outer(u)
  {
  }

  /** A function's variables are its parameters and the names its statements assign, each
      with a register of its own. */
  ghost predicate Names(locals: Regs, params: seq<string>, ss: Stmts) {
    Distinct(locals) && forall x :: x in locals <==> x in params || Target(x) in MarksAll(ss, false)
  }

  /** An empty function with these variables. */
  lemma FreshFine(u: Unit, n: nat)
    requires Outer(u) && u.asm.code == [] && u.asm.prog == map[] && u.regTop == n && u.asm.hw == n && LocalsBelow(u.locals, n)
    requires u.loops == [] && u.upvals == [] && u.upvalSrc == []
    ensures Fine(u)
  {
    EmptyOk(u.asm.consts, n, |u.funcs|);
    assert u.asm == Asm([], map[], u.asm.consts, n);
    hide Ok, Compiled, Slots, LocalsBelow;
  }

  /** The function `f` receives its bytes. */
  function Filled(u: Unit, f: nat): Unit
    requires f < |u.funcs|
  {
    u.(funcs := u.funcs[f := u.funcs[f].(numRegs := u.asm.hw, code := u.asm.code)], done := u.done + {f})
  }

  lemma FilledCompiled(u: Unit, f: nat)
    requires f < |u.funcs| && Fine(u) && Sealed(u.asm) && u.funcs[f].numParams <= u.asm.hw
    ensures Compiled(u.asm.consts, Filled(u, f).funcs, Filled(u, f).done)
  {
    var v := Filled(u, f);
    var m, m' := Module(u.asm.consts, u.funcs, 0), Module(u.asm.consts, v.funcs, 0);
    assert Ok(u.asm, |m'.funcs|) && Extends(u.asm.consts, u.asm.consts);
    assert Compiled(u.asm.consts, u.funcs, u.done);
    hide Fine, Ok, Verified, Sealed;
    FinishedVerifies(u.asm, m', v.funcs[f]);
    forall i | i in v.done ensures i < |v.funcs| && Verified(m', v.funcs[i]) {
      if i != f {
        assert i in u.done;
        assert Verified(m, u.funcs[i]);
        VerifiedGrows(m, m', u.funcs[i]);
      }
    }
  }

  /** A finished function leaves a state fit for the next one. */
  lemma FilledOuter(u: Unit, f: nat)
    requires f < |u.funcs| && Fine(u) && Sealed(u.asm) && u.funcs[f].numParams <= u.asm.hw && u.asm.hw < 256
    ensures Outer(Filled(u, f))
  {
    FilledCompiled(u, f);
    var v := Filled(u, f);
    assert Slots(u) && forall i :: 0 <= i < |u.funcs| ==> v.funcs[i].numParams == u.funcs[i].numParams;
    hide Ok, Compiled, LoopsOk, Captures, LocalsBelow;
  }

  // ---- the entry function's code -----------------------------------------------------------------

  /** `ss` followed by a halt, from byte 0 on. */
  ghost predicate MainCode(ss: Stmts, sc: Scope, a: Asm) {
    SimpleStmts(ss) && VarsAll(ss) <= sc.locals.Keys ==>
      (CodeAll(ss, Text(a.prog, a.consts), sc, 0, Outside)
       && SizeAll(ss, sc) in a.prog && a.prog[SizeAll(ss, sc)] == Halt)
  }

  lemma MainHas(ss: Stmts, u: Unit, v: Unit, w: Unit)
    requires AllDone(ss, u, v) && u.asm.code == [] && u.loops == [] && w == Put(v, Halt) && Keeps(v, w)
    ensures MainCode(ss, ScopeOf(u), w.asm)
  {
    assert HasAll(ss, u, v);
    hide *;
    var sc := ScopeOf(u);
    ScopeLocals(u);
    if SimpleStmts(ss) && VarsAll(ss) <= u.locals.Keys {
      HasAllIs(ss, u, v);
      AllKept(ss, v, w, sc, 0, Around(u));
      PutAt(v, Halt);
      NoLoop(u);
      MainIf(ss, sc, w);
    } else {
      MainUnless(ss, sc, w.asm);
    }
  }

  lemma ScopeLocals(u: Unit)
    ensures ScopeOf(u).locals == u.locals
  {
  }

  lemma NoLoop(u: Unit)
    requires u.loops == []
    ensures Around(u) == Outside
  {
  }

  lemma MainIf(ss: Stmts, sc: Scope, w: Unit)
    requires CodeAll(ss, TextOf(w), sc, 0, Outside) && SizeAll(ss, sc) in w.asm.prog && w.asm.prog[SizeAll(ss, sc)] == Halt
    ensures MainCode(ss, sc, w.asm)
  {
  }

  lemma MainUnless(ss: Stmts, sc: Scope, a: Asm)
    requires !(SimpleStmts(ss) && VarsAll(ss) <= sc.locals.Keys)
    ensures MainCode(ss, sc, a)
  {
  }

  /** The terminator seals the code. */
  lemma PutSeals(v: Unit, i: Instr)
    requires Fine(v) && !IsJumpInstr(i)
    ensures Sealed(Put(v, i).asm)
  {
    assert Ok(v.asm, |v.funcs|);
    EmitSeals(v.asm, |v.funcs|, i);
  }

  // ---- nested functions ----------------------------------------------------------------------------

  /** Back in the enclosing function after a nested one is compiled. */
  function Resumed(u: Unit, v: Unit): Unit {
    u.(asm := u.asm.(consts := v.asm.consts), funcs := v.funcs, done := v.done)
  }

  lemma ResumedFine(u: Unit, v: Unit)
    requires Fine(u) && Outer(v) && Extends(u.asm.consts, v.asm.consts) && SameSlots(u.funcs, v.funcs)
    requires v.lambdaFunc == u.lambdaFunc && v.funcIndex == u.funcIndex && u.done <= v.done
    ensures Fine(Resumed(u, v)) && Keeps(u, Resumed(u, v))
  {
    var w := Resumed(u, v);
    hide Ok, Compiled, LoopsOk, Captures, LocalsBelow, Grew, Extends;
    MoreOk(u.asm, |u.funcs|, v.asm.consts, u.asm.hw);
    assert w.asm == u.asm.(consts := v.asm.consts, hw := u.asm.hw);
    assert Slots(w);
  }

  /** Captured registers are the enclosing function's own. */
  lemma CapturedBelow(upvals: seq<string>, srcs: seq<nat>, enclosing: seq<Regs>, u: Unit)
    requires Captures(upvals, srcs, enclosing + [u.locals]) && Fine(u)
    ensures forall i :: 0 <= i < |srcs| ==> srcs[i] < u.asm.hw
  {
    forall i | 0 <= i < |srcs| ensures srcs[i] < u.asm.hw {
      assert upvals[i] in u.locals && u.locals[upvals[i]] == srcs[i];
    }
    hide Ok, Compiled, LoopsOk;
  }

  // ---- facts the compiler's methods use -----------------------------------------------------------

  lemma OuterSame(u: Unit, v: Unit)
    requires Outer(u) && v.asm.consts == u.asm.consts && v.funcs == u.funcs && v.done == u.done
    requires v.lambdaFunc == u.lambdaFunc && v.funcIndex == u.funcIndex
    ensures Outer(v)
  {
    hide Compiled;
    SlotsSame(u, v);
  }

  lemma AllFacts(ss: Stmts, u: Unit, v: Unit)
    requires AllDone(ss, u, v)
    ensures Fine(v) && Keeps(u, v) && v.regTop == u.regTop && LamsDone(MarksAll(ss, true), v) && u.regTop <= v.asm.hw
  {
    assert Doing(Job(u, Any, MarksAll(ss, true)), v);
    DoingFacts(Job(u, Any, MarksAll(ss, true)), v);
    hide Fine, Keeps, Confined, HasAll;
  }

  /** From the start of a function to its end, nothing outside it changed but the constants, the functions
      compiled on the way and, for the entry, its own code. */
  ghost predicate GrownIn(u: Unit, v: Unit, isMain: bool) {
    && Extends(u.asm.consts, v.asm.consts)
    && |v.funcs| == |u.funcs| && (!isMain && |u.funcs| > 0 ==> v.funcs[0] == u.funcs[0])
    && (forall i {:trigger v.funcs[i]} :: 0 <= i < |u.funcs| ==> v.funcs[i].numParams == u.funcs[i].numParams)
    && v.lambdaFunc == u.lambdaFunc && v.funcIndex == u.funcIndex && v.enclosing == u.enclosing && u.done <= v.done
  }

  lemma GrownInParts(u: Unit, v: Unit)
    requires GrownIn(u, v, false)
    ensures Extends(u.asm.consts, v.asm.consts) && SameSlots(u.funcs, v.funcs) && u.done <= v.done
    ensures v.lambdaFunc == u.lambdaFunc && v.funcIndex == u.funcIndex && v.enclosing == u.enclosing
  {
  }

  lemma FillFacts(u0: Unit, u: Unit, v: Unit, w: Unit, f: nat, isMain: bool, ms: seq<Mark>)
    requires f < |u0.funcs| && (isMain <==> f == 0) && u.funcs == u0.funcs && u.done == u0.done && u.asm.consts == u0.asm.consts
    requires u.lambdaFunc == u0.lambdaFunc && u.funcIndex == u0.funcIndex && u.enclosing == u0.enclosing
    requires Keeps(u, v) && Keeps(v, w) && Fine(w) && Sealed(w.asm) && LamsDone(ms, v) && u.regTop <= v.asm.hw
    requires u0.funcs[f].numParams <= u.regTop && w.asm.hw < 256
    ensures f < |w.funcs| && Outer(Filled(w, f)) && GrownIn(u0, Filled(w, f), isMain) && LamsDone(ms, Filled(w, f))
    ensures Captures(w.upvals, w.upvalSrc, w.enclosing) && u.regTop <= w.asm.hw && Ok(w.asm, |w.funcs|)
  {
    KeepsTrans(u, v, w);
    KeepsHw(v, w);
    LamsKept(ms, v, w);
    assert SameSlots(u.funcs, w.funcs) && w.funcs[f].numParams == u.funcs[f].numParams;
    assert Captures(w.upvals, w.upvalSrc, w.enclosing) && Ok(w.asm, |w.funcs|);
    assert Extends(u.asm.consts, w.asm.consts);
    FilledOuter(w, f);
    hide Fine, Outer, Captures, Sealed, Ok, Grew, Extends;
  }

  lemma LambdaSlot(u: Unit, e: Expr)
    requires Fine(u) && e in u.lambdaFunc
    ensures 0 < u.lambdaFunc[e] < |u.funcs| && e.Lambda? && u.funcs[u.lambdaFunc[e]].numParams <= |e.params|
  {
    hide Ok, Compiled, LoopsOk, Captures, LocalsBelow;
  }

  lemma LambdaMarks(e: Expr, u: Unit, v: Unit, w: Unit)
    requires e.Lambda? && w == Resumed(u, v) && LamsDone(MarksAll(e.body, true), v) && v.lambdaFunc == w.lambdaFunc
    requires e in w.lambdaFunc && w.lambdaFunc[e] in w.done
    ensures LamsDone(MarksE(e, true), w)
  {
    assert MarksE(e, true) == [Lam(e)] + MarksAll(e.body, true);
    hide MarksE, MarksAll;
  }

  lemma DoingMarked(j: Job, v: Unit, ms: seq<Mark>)
    requires Doing(j, v) && LamsDone(ms, v)
    ensures Doing(j.(ms := ms), v)
  {
    hide Fine, Keeps, Confined, LamsDone, LoopsKept;
  }

  lemma NestedFacts(u: Unit, v0: Unit, v: Unit)
    requires Fine(u) && v0 == u.(enclosing := u.enclosing + [u.locals], upvals := [], upvalSrc := [])
    requires GrownIn(v0, v, false) && Outer(v) && Captures(v.upvals, v.upvalSrc, v.enclosing)
    ensures Fine(Resumed(u, v)) && Keeps(u, Resumed(u, v)) && v.lambdaFunc == u.lambdaFunc && |v.funcs| == |u.funcs|
    ensures v.funcIndex == u.funcIndex
    ensures forall i :: 0 <= i < |v.upvalSrc| ==> v.upvalSrc[i] < u.asm.hw
  {
    GrownInParts(v0, v);
    assert |v.funcs| == |u.funcs|;
    hide Fine, Outer, Captures, Keeps, SameSlots, GrownIn;
    CapturedBelow(v.upvals, v.upvalSrc, u.enclosing, u);
    ResumedFine(u, v);
  }

  // ---- the whole program -------------------------------------------------------------------------

  /** The statements of the entry function: all that are no function declarations. */
  function MainOf(ss: Stmts): Stmts {
    match ss
    case SNil => SNil
    case SCons(h, t) => if h.FnDecl? then MainOf(t) else SCons(h, MainOf(t))
  }

  function DeclNames(ss: Stmts): set<string> {
    match ss
    case SNil => {}
    case SCons(h, t) => (if h.FnDecl? then {h.name} else {}) + DeclNames(t)
  }

  /** The marks in declared functions. */
  function DeclMarks(ss: Stmts): seq<Mark> {
    match ss
    case SNil => []
    case SCons(h, t) => (if h.FnDecl? then MarksAll(h.body, true) else []) + DeclMarks(t)
  }

  /** Every mark of a program is in the entry function or in a declared one. */
  lemma {:induction false} MarksSplit(ss: Stmts, m: Mark)
    requires m in MarksAll(ss, true)
    ensures m in MarksAll(MainOf(ss), true) || m in DeclMarks(ss)
  {
    if m in MarksAll(ss.tail, true) { MarksSplit(ss.tail, m); }
  }

  /** The name leads to a function of its own with that many parameters. */
  predicate DeclaredAs(funcIndex: map<string, nat>, funcs: seq<Function>, name: string, n: nat) {
    name in funcIndex && 0 < funcIndex[name] < |funcs| && funcs[funcIndex[name]].numParams == n
  }

  predicate Declared(ss: Stmts, funcIndex: map<string, nat>, funcs: seq<Function>) {
    match ss
    case SNil => true
    case SCons(h, t) => (h.FnDecl? ==> DeclaredAs(funcIndex, funcs, h.name, |h.params|)) && Declared(t, funcIndex, funcs)
  }

  ghost predicate MoreFunctions(idx: map<string, nat>, fs: seq<Function>, idx': map<string, nat>, fs': seq<Function>) {
    && |fs| <= |fs'|
    && (forall i {:trigger fs'[i]} :: 0 <= i < |fs| ==> fs'[i].numParams == fs[i].numParams)
    && forall n {:trigger n in idx} {:trigger n in idx'} :: n in idx ==> n in idx' && idx'[n] == idx[n]
  }

  lemma MoreTrans(idx: map<string, nat>, fs: seq<Function>, idx': map<string, nat>, fs': seq<Function>, idx'': map<string, nat>, fs'': seq<Function>)
    requires MoreFunctions(idx, fs, idx', fs') && MoreFunctions(idx', fs', idx'', fs'')
    ensures MoreFunctions(idx, fs, idx'', fs'')
  {
  }

  lemma {:induction false} DeclaredLater(ss: Stmts, idx: map<string, nat>, fs: seq<Function>, idx': map<string, nat>, fs': seq<Function>)
    requires Declared(ss, idx, fs) && MoreFunctions(idx, fs, idx', fs')
    ensures Declared(ss, idx', fs')
  {
    if ss.SCons? { DeclaredLater(ss.tail, idx, fs, idx', fs'); }
  }

  /** Before any code is emitted. */
  ghost predicate Fresh(u: Unit) {
    Fine(u) && u.asm.code == [] && u.asm.prog == map[] && u.done == {} && u.loops == []
  }

  lemma FreshNamed(u: Unit, consts: seq<Constant>)
    requires Fresh(u) && Fine(Interned(u, consts))
    ensures Fresh(Interned(u, consts))
  {
  }

  lemma FreshStarts(u: Unit)
    requires Fresh(u)
    ensures Doing(Job(u, Any, []), u)
  {
    DoingStarts(u, Any);
  }

  /** One more function slot. */
  lemma FreshAdded(u: Unit, f: Function)
    requires Fresh(u) && Entered(u.asm.consts, f)
    ensures Fresh(u.(funcs := u.funcs + [f]))
  {
    var v := u.(funcs := u.funcs + [f]);
    EmptyOk(u.asm.consts, u.asm.hw, |v.funcs|);
    assert u.asm == Asm([], map[], u.asm.consts, u.asm.hw);
    hide Ok, LoopsOk, Captures, LocalsBelow, Verified;
  }

  lemma FreshIndexed(u: Unit, name: string)
    requires Fresh(u) && |u.funcs| >= 2
    ensures Fresh(u.(funcIndex := u.funcIndex[name := |u.funcs| - 1]))
  {
    hide Ok, LoopsOk, Captures, LocalsBelow, Compiled;
  }

  lemma FreshLambda(u: Unit, e: Expr)
    requires Fresh(u) && |u.funcs| >= 2 && e.Lambda? && u.funcs[|u.funcs| - 1].numParams <= |e.params|
    ensures Fresh(u.(lambdaFunc := u.lambdaFunc[e := |u.funcs| - 1]))
  {
    hide Ok, LoopsOk, Captures, LocalsBelow, Compiled;
  }

  /** No function expression stands in two places. */
  ghost predicate DistinctLambdas(ms: seq<Mark>) {
    forall i, k :: 0 <= i < k < |ms| && ms[i].Lam? ==> ms[i] != ms[k]
  }

  /** Index `i` belongs to a declared function, or to one of these function expressions. */
  ghost predicate Named(funcIndex: map<string, nat>, names: set<string>, i: nat) {
    exists n :: n in names && n in funcIndex && funcIndex[n] == i
  }

  ghost predicate Lambdaed(lambdaFunc: map<Expr, nat>, ms: seq<Mark>, i: nat) {
    exists e {:trigger Lam(e) in ms} :: Lam(e) in ms && e in lambdaFunc && lambdaFunc[e] == i
  }

  /** So do all indices from `lo` to `hi`. */
  ghost predicate AllNamed(funcIndex: map<string, nat>, names: set<string>, lo: nat, hi: nat) {
    forall i: nat {:trigger Named(funcIndex, names, i)} :: lo <= i < hi ==> Named(funcIndex, names, i)
  }

  ghost predicate AllLambdaed(lambdaFunc: map<Expr, nat>, ms: seq<Mark>, lo: nat, hi: nat) {
    forall i: nat {:trigger Lambdaed(lambdaFunc, ms, i)} :: lo <= i < hi ==> Lambdaed(lambdaFunc, ms, i)
  }

  /** A declared name and the functions after it. */
  lemma NamedCons(ss: Stmts, funcIndex: map<string, nat>, lo: nat, mid: nat, hi: nat)
    requires ss.SCons? && AllNamed(funcIndex, DeclNames(ss.tail), mid, hi)
    requires if ss.head.FnDecl? then ss.head.name in funcIndex && funcIndex[ss.head.name] == lo && mid == lo + 1 else mid == lo
    ensures AllNamed(funcIndex, DeclNames(ss), lo, hi)
  {
    forall i: nat | lo <= i < hi ensures Named(funcIndex, DeclNames(ss), i) {
      if i < mid {
        assert ss.head.name in DeclNames(ss);
      } else {
        assert Named(funcIndex, DeclNames(ss.tail), i);
        var n :| n in DeclNames(ss.tail) && n in funcIndex && funcIndex[n] == i;
        assert n in DeclNames(ss);
      }
    }
  }

  lemma LambdaedCons(lf: map<Expr, nat>, ms: seq<Mark>, i: nat, lo: nat, hi: nat)
    requires i < |ms| && ms[i].Lam? && DistinctLambdas(ms) && AllLambdaed(lf, ms[..i], lo, hi)
    ensures AllLambdaed(lf[ms[i].node := hi], ms[..i + 1], lo, hi + 1)
  {
    var e, after, lf' := ms[i].node, ms[..i + 1], lf[ms[i].node := hi];
    forall k: nat | lo <= k < hi + 1 ensures Lambdaed(lf', after, k) {
      if k == hi {
        assert after[i] == Lam(e);
        assert Lam(e) in after;
      } else {
        assert Lambdaed(lf, ms[..i], k);
        var x :| Lam(x) in ms[..i] && x in lf && lf[x] == k;
        var h :| 0 <= h < i && ms[h] == Lam(x);
        assert after[h] == Lam(x);
        assert Lam(x) in after && x != e;
      }
    }
  }

  lemma LambdaedSkip(lf: map<Expr, nat>, ms: seq<Mark>, i: nat, lo: nat, hi: nat)
    requires i < |ms| && AllLambdaed(lf, ms[..i], lo, hi)
    ensures AllLambdaed(lf, ms[..i + 1], lo, hi)
  {
    var before, after := ms[..i], ms[..i + 1];
    assert after == before + [ms[i]];
    forall k: nat | lo <= k < hi ensures Lambdaed(lf, after, k) {
      assert Lambdaed(lf, before, k);
      var x :| Lam(x) in before && x in lf && lf[x] == k;
      assert Lam(x) in after;
    }
  }

  /** Everything is compiled, so every function passes. */
  lemma AllCompiled(u: Unit, names: set<string>, ms: seq<Mark>, n: nat)
    requires Outer(u) && 0 in u.done && LamsDone(ms, u) && n <= |u.funcs|
    requires forall x :: x in names ==> x in u.funcIndex && u.funcIndex[x] in u.done
    requires AllNamed(u.funcIndex, names, 1, n) && AllLambdaed(u.lambdaFunc, ms, n, |u.funcs|)
    ensures VerifiedModule(Module(u.asm.consts, u.funcs, 0))
  {
    hide Verified;
    forall i: nat | i < |u.funcs| ensures Verified(Module(u.asm.consts, u.funcs, 0), u.funcs[i]) {
      if 0 < i < n {
        assert Named(u.funcIndex, names, i);
      } else if n <= i {
        assert Lambdaed(u.lambdaFunc, ms, i);
        var e :| Lam(e) in ms && e in u.lambdaFunc && u.lambdaFunc[e] == i;
      }
      assert i in u.done;
    }
  }

  lemma StartFresh(u: Unit)
    requires u == Unit(Asm([], map[], [], 0), 0, map[], [], [], [], [], [], map[], map[], {})
    ensures Fresh(u)
  {
    EmptyOk([], 0, 0);
    hide Ok, Verified;
  }

  lemma FreshOuter(u: Unit)
    requires Fresh(u)
    ensures Outer(u)
  {
  }

  lemma GrownSelf(u: Unit)
    requires Outer(u)
    ensures GrownIn(u, u, false) && LamsDone([], u)
  {
  }

  lemma GrownInTrans(u: Unit, v: Unit, w: Unit)
    requires GrownIn(u, v, false) && GrownIn(v, w, false)
    ensures GrownIn(u, w, false)
  {
  }

  lemma StillDeclared(ss: Stmts, u: Unit, v: Unit, isMain: bool)
    requires Declared(ss, u.funcIndex, u.funcs) && GrownIn(u, v, isMain)
    ensures Declared(ss, v.funcIndex, v.funcs)
  {
    assert MoreFunctions(u.funcIndex, u.funcs, v.funcIndex, v.funcs);
    hide Declared;
    DeclaredLater(ss, u.funcIndex, u.funcs, v.funcIndex, v.funcs);
  }

  lemma DeclLams(ss: Stmts, v: Unit, w: Unit)
    requires ss.SCons? && GrownIn(v, w, false) && LamsDone(DeclMarks(ss.tail), w)
    requires ss.head.FnDecl? ==> LamsDone(MarksAll(ss.head.body, true), v) && ss.head.name in v.funcIndex && v.funcIndex[ss.head.name] in v.done
    requires forall n :: n in DeclNames(ss.tail) ==> n in w.funcIndex && w.funcIndex[n] in w.done
    ensures LamsDone(DeclMarks(ss), w)
    ensures forall n :: n in DeclNames(ss) ==> n in w.funcIndex && w.funcIndex[n] in w.done
  {
    if ss.head.FnDecl? {
      var ms := MarksAll(ss.head.body, true);
      forall n | Lam(n) in ms ensures n in w.lambdaFunc && w.lambdaFunc[n] in w.done {}
      assert DeclMarks(ss) == ms + DeclMarks(ss.tail);
    } else {
      assert DeclMarks(ss) == [] + DeclMarks(ss.tail);
    }
    hide MarksAll, DeclMarks;
  }

  lemma RunDone(program: Stmts, u: Unit, v: Unit, w: Unit, n: nat)
    requires n <= |u.funcs| && Outer(w) && GrownIn(u, v, true) && GrownIn(v, w, false) && 0 in v.done && |u.funcs| > 0
    requires LamsDone(MarksAll(MainOf(program), true), v) && LamsDone(DeclMarks(program), w)
    requires forall x :: x in DeclNames(program) ==> x in w.funcIndex && w.funcIndex[x] in w.done
    requires AllNamed(u.funcIndex, DeclNames(program), 1, n) && AllLambdaed(u.lambdaFunc, MarksAll(program, true), n, |u.funcs|)
    ensures VerifiedModule(Module(w.asm.consts, w.funcs, 0)) && |w.funcs| > 0
    ensures AllEntered(w.asm.consts, w.funcs) && |w.asm.consts| <= 65536
    ensures w.funcs[0] == v.funcs[0] && |w.funcs| == |v.funcs| && Extends(v.asm.consts, w.asm.consts)
  {
    var ms := MarksAll(program, true);
    forall e | Lam(e) in ms ensures e in w.lambdaFunc && w.lambdaFunc[e] in w.done {
      MarksSplit(program, Lam(e));
      if Lam(e) in MarksAll(MainOf(program), true) { assert e in v.lambdaFunc && v.lambdaFunc[e] in v.done; }
    }
    assert LamsDone(ms, w);
    assert 0 in w.done && |w.funcs| == |u.funcs| && w.funcIndex == u.funcIndex && w.lambdaFunc == u.lambdaFunc;
    hide Outer, MarksAll, DeclMarks, MainOf, DeclNames, Verified, VerifiedModule, AllNamed, AllLambdaed;
    AllCompiled(w, DeclNames(program), ms, n);
  }

  lemma GrownIndex(u: Unit, v: Unit, isMain: bool)
    requires GrownIn(u, v, isMain)
    ensures v.funcIndex == u.funcIndex && v.lambdaFunc == u.lambdaFunc && |v.funcs| == |u.funcs|
  {
  }
}
