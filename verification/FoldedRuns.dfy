/** Folding constants changes nothing a program of the simple fragment does. */
module FoldedRuns {
  import opened Bytecode
  import opened Ast
  import opened Values
  import opened Source
  import opened Folding
  import opened Assignments
  import Meaning
  import FnCode

  // ---- expressions ---------------------------------------------------------------------------

  /** The simple fragment's variables as a world. */
  function Vars'(fp: FpOps): Meaning.World<Store> {
    Meaning.World(
      fp, s => [],
      (x: string, s: Store) => Meaning.Reply(if x in s then Good(s[x]) else Bad(BadUpvalue), s),
      (x: string, v: Value, s: Store) => s[x := v],
      (t: string, s: Store) => Meaning.Reply(Bad(OutOfMemory), s),
      (a: Value, b: Value, s: Store) => Bad(NotArray),
      (a: Value, b: Value, v: Value, s: Store) => Meaning.Reply(Bad(NotArray), s),
      (a: Value, name: string, s: Store) => Bad(NotObject),
      (a: Value, name: string, v: Value, s: Store) => Meaning.Reply(Bad(NotObject), s),
      (n: nat, s: Store) => Meaning.Reply(Bad(OutOfMemory), s),
      s => Meaning.Reply(Bad(OutOfMemory), s),
      (id: nat, ps: seq<string>, s: Store) => Meaning.Reply(Bad(BadClosure), s),
      (name: string, vs: seq<Value>, s: Store) => Meaning.Reply(Bad(UndefinedFunction), s),
      Bad(NotObject))
  }

  /** The two evaluators agree on simple expressions. */
  lemma {:induction false} SameEval(fp: FpOps, e: Expr, s: Store)
    requires Simple(e) && Reads(e) <= s.Keys
    ensures Meaning.Eval(Vars'(fp), e, s) == Meaning.Reply(Eval(fp, e, s), s)
  {
    hide BinaryOp, UnaryOp, Truthy;
    match e
    case Binary(_, l, r) =>
      SameEval(fp, l, s);
      SameEval(fp, r, s);
    case Logical(_, l, r) =>
      SameEval(fp, l, s);
      SameEval(fp, r, s);
    case Unary(_, x) => SameEval(fp, x, s);
    case _ =>
  }

  lemma {:induction false} SimpleIsClean(e: Expr)
    requires Simple(e)
    ensures Meaning.Clean(e)
  {
    match e
    case Binary(_, l, r) =>
      SimpleIsClean(l);
      SimpleIsClean(r);
    case Logical(_, l, r) =>
      SimpleIsClean(l);
      SimpleIsClean(r);
    case Unary(_, x) => SimpleIsClean(x);
    case _ =>
  }

  lemma LiteralShape(op: BinOp, x: int, y: int)
    ensures Simple(Binary(op, IntLit(x), IntLit(y))) && Reads(Binary(op, IntLit(x), IntLit(y))) == {}
  {
  }

  lemma SimpleBinary(fp: FpOps, op: BinOp, l: Expr, r: Expr)
    requires Simple(l) && Simple(r)
    ensures var e := FoldBinary(fp, op, l, r); Simple(e) && Reads(e) == Reads(l) + Reads(r)
  {
    hide FoldInts, FoldDoubles;
    if l.IntLit? && r.IntLit? {
      IntsStay(op, l.i, r.i);
      LiteralShape(op, l.i, r.i);
    }
  }

  /** Folding keeps the fragment and the variables read. */
  lemma {:induction false} FoldReads(fp: FpOps, e: Expr)
    requires Simple(e)
    ensures Simple(FoldE(fp, e)) && Reads(FoldE(fp, e)) == Reads(e)
  {
    hide FoldBinary;
    match e
    case Binary(op, l, r) =>
      FoldReads(fp, l);
      FoldReads(fp, r);
      SimpleBinary(fp, op, FoldE(fp, l), FoldE(fp, r));
    case Logical(_, l, r) =>
      FoldReads(fp, l);
      FoldReads(fp, r);
    case Unary(_, x) => FoldReads(fp, x);
    case _ =>
  }

  lemma FoldEval(fp: FpOps, e: Expr, s: Store)
    requires Simple(e) && Reads(e) <= s.Keys
    ensures Simple(FoldE(fp, e)) && Reads(FoldE(fp, e)) == Reads(e)
    ensures Eval(fp, FoldE(fp, e), s) == Eval(fp, e, s)
  {
    hide Eval, FoldE, Simple, Reads, Meaning.Eval, Meaning.PureTexts, Meaning.Clean;
    FoldReads(fp, e);
    SameEval(fp, e, s);
    SameEval(fp, FoldE(fp, e), s);
    SimpleIsClean(e);
    Meaning.FoldKeeps(Vars'(fp), e, s);
  }

  // ---- statements --------------------------------------------------------------------------------

  lemma FoldEffect(fp: FpOps, e: Expr)
    requires SimpleEffect(e)
    ensures SimpleEffect(FoldE(fp, e)) && EffectVars(FoldE(fp, e)) == EffectVars(e)
    ensures SafeEffect(e) ==> SafeEffect(FoldE(fp, e))
  {
    hide FoldBinary, FoldUnary;
    if e.Assign? {
      FoldReads(fp, e.value);
      if SafeEffect(e) { FoldSafe(fp, e.value, e.target.name); }
    } else {
      FoldReads(fp, e);
      FoldNotAssign(fp, e);
    }
  }

  lemma FoldNotAssign(fp: FpOps, e: Expr)
    requires Simple(e)
    ensures !FoldE(fp, e).Assign?
  {
    FoldReads(fp, e);
  }

  /** A safe value stays safe. */
  lemma {:induction false} FoldSafe(fp: FpOps, e: Expr, x: string)
    requires Simple(e) && SafeTarget(e, x)
    ensures SafeTarget(FoldE(fp, e), x)
  {
    hide FoldBinary, FoldUnary;
    match e
    case Binary(op, l, r) => BinaryStays(fp, op, FoldE(fp, l), FoldE(fp, r));
    case Unary(op, y) => UnaryStays(fp, op, FoldE(fp, y));
    case Logical(_, l, r) =>
      FoldSafe(fp, l, x);
      FoldReads(fp, r);
    case _ =>
  }

  lemma EffectSame(fp: FpOps, e: Expr, s: Store, out: seq<Value>)
    requires SimpleEffect(e) && EffectVars(e) <= s.Keys
    ensures SimpleEffect(FoldE(fp, e)) && EffectVars(FoldE(fp, e)) <= s.Keys
    ensures Effect(fp, AsMeant, FoldE(fp, e), s, out) == Effect(fp, AsMeant, e, s, out)
  {
    hide Eval, EvalThrough;
    FoldEffect(fp, e);
    if e.Assign? {
      FoldEval(fp, e.value, s);
    } else {
      FoldEval(fp, e, s);
    }
  }

  /** Folded statements are of the fragment, mention the same variables and stay safe. */
  lemma {:induction false} FoldShapes(fp: FpOps, st: Stmt)
    requires SimpleStmt(st)
    ensures SimpleStmt(FoldS(fp, st)) && Vars(FoldS(fp, st)) == Vars(st) && (SafeStmt(st) ==> SafeStmt(FoldS(fp, st)))
  {
    hide FoldE, Simple, Reads;
    match st
    case ExprStmt(e) => FoldEffect(fp, e);
    case Print(e) => FoldReads(fp, e);
    case Return(v) => FoldShapesOpt(fp, v);
    case Block(b) => FoldShapesAll(fp, b);
    case If(c) => FoldShapesChain(fp, c);
    case While(c, b) =>
      FoldReads(fp, c);
      FoldShapesAll(fp, b);
    case For(i, t, step, b) =>
      FoldShapesClause(fp, i);
      FoldShapesOpt(fp, t);
      FoldShapesClause(fp, step);
      FoldShapesAll(fp, b);
    case _ =>
  }

  lemma FoldShapesOpt(fp: FpOps, o: OptExpr)
    requires SimpleOpt(o)
    ensures SimpleOpt(FoldOpt(fp, o)) && OptVars(FoldOpt(fp, o)) == OptVars(o)
  {
    if o.Present? {
      FoldReads(fp, o.e);
      FoldNotAssign(fp, o.e);
    }
  }

  lemma FoldShapesClause(fp: FpOps, o: OptExpr)
    requires SimpleClause(o)
    ensures SimpleClause(FoldOpt(fp, o)) && OptVars(FoldOpt(fp, o)) == OptVars(o) && (SafeOpt(o) ==> SafeOpt(FoldOpt(fp, o)))
  {
    if o.Present? { FoldEffect(fp, o.e); }
  }

  lemma {:induction false} FoldShapesAll(fp: FpOps, ss: Stmts)
    requires SimpleStmts(ss)
    ensures SimpleStmts(FoldAll(fp, ss)) && VarsAll(FoldAll(fp, ss)) == VarsAll(ss) && (SafeAll(ss) ==> SafeAll(FoldAll(fp, ss)))
  {
    if ss.SCons? {
      FoldShapes(fp, ss.head);
      FoldShapesAll(fp, ss.tail);
    }
  }

  lemma {:induction false} FoldShapesChain(fp: FpOps, c: Chain)
    requires SimpleChain(c)
    ensures SimpleChain(FoldChain(fp, c)) && VarsChain(FoldChain(fp, c)) == VarsChain(c) && (SafeChain(c) ==> SafeChain(FoldChain(fp, c)))
  {
    FoldReads(fp, c.cond);
    FoldShapesAll(fp, c.thn);
    FoldShapesElse(fp, c.els);
  }

  lemma {:induction false} FoldShapesElse(fp: FpOps, e: Else)
    requires SimpleElse(e)
    ensures SimpleElse(FoldElse(fp, e)) && VarsElse(FoldElse(fp, e)) == VarsElse(e) && (SafeElse(e) ==> SafeElse(FoldElse(fp, e)))
  {
    match e
    case NoElse =>
    case ElseBlock(b) => FoldShapesAll(fp, b);
    case ElseIf(chain) => FoldShapesChain(fp, chain);
  }

  // ---- runs ------------------------------------------------------------------------------------------

  lemma {:induction false} ExecSame(fp: FpOps, st: Stmt, s: Store, out: seq<Value>, fuel: nat)
    requires SimpleStmt(st) && Vars(st) <= s.Keys
    ensures SimpleStmt(FoldS(fp, st)) && Vars(FoldS(fp, st)) <= s.Keys
    ensures Exec(fp, AsMeant, FoldS(fp, st), s, out, fuel) == Exec(fp, AsMeant, st, s, out, fuel)
    decreases fuel, st, 1
  {
    hide FoldE, Simple, Reads, Eval, Effect, Loop, ExecAll, ExecChain;
    FoldShapes(fp, st);
    match st
    case ExprStmt(e) => EffectSame(fp, e, s, out);
    case Print(e) => FoldEval(fp, e, s);
    case Return(v) => if v.Present? { OptRead(v); FoldEval(fp, v.e, s); }
    case Block(b) => ExecAllSame(fp, b, s, out, fuel);
    case If(c) => ExecChainSame(fp, c, s, out, fuel);
    case While(c, b) =>
      OptRead(Present(c));
      LoopSame(fp, Present(c), Absent, b, s, out, fuel);
    case For(i, t, step, b) =>
      EffectOptSame(fp, i, s, out);
      var r := EffectOpt(fp, AsMeant, i, s, out);
      if r.Next? { LoopSame(fp, t, step, b, r.s, r.out, fuel); }
    case _ =>
  }

  lemma OptRead(o: OptExpr)
    requires o.Present? && SimpleOpt(o)
    ensures OptVars(o) == Reads(o.e) && !o.e.Assign?
  {
  }

  lemma EffectOptSame(fp: FpOps, o: OptExpr, s: Store, out: seq<Value>)
    requires SimpleClause(o) && OptVars(o) <= s.Keys
    ensures SimpleClause(FoldOpt(fp, o)) && OptVars(FoldOpt(fp, o)) <= s.Keys
    ensures EffectOpt(fp, AsMeant, FoldOpt(fp, o), s, out) == EffectOpt(fp, AsMeant, o, s, out)
  {
    hide FoldE, Effect;
    if o.Present? { EffectSame(fp, o.e, s, out); }
  }

  lemma TestSame(fp: FpOps, o: OptExpr, s: Store)
    requires SimpleOpt(o) && OptVars(o) <= s.Keys
    ensures SimpleOpt(FoldOpt(fp, o)) && OptVars(FoldOpt(fp, o)) <= s.Keys
    ensures Test(fp, FoldOpt(fp, o), s) == Test(fp, o, s)
  {
    hide FoldE, Eval;
    FoldShapesOpt(fp, o);
    if o.Present? {
      OptRead(o);
      FoldEval(fp, o.e, s);
    }
  }

  lemma {:induction false} ExecAllSame(fp: FpOps, ss: Stmts, s: Store, out: seq<Value>, fuel: nat)
    requires SimpleStmts(ss) && VarsAll(ss) <= s.Keys
    ensures SimpleStmts(FoldAll(fp, ss)) && VarsAll(FoldAll(fp, ss)) <= s.Keys
    ensures ExecAll(fp, AsMeant, FoldAll(fp, ss), s, out, fuel) == ExecAll(fp, AsMeant, ss, s, out, fuel)
    decreases fuel, ss, 0
  {
    hide Exec, Vars, SimpleStmt, FoldS;
    FoldShapesAll(fp, ss);
    if ss.SCons? {
      ExecSame(fp, ss.head, s, out, fuel);
      var r := Exec(fp, AsMeant, ss.head, s, out, fuel);
      if r.Next? { ExecAllSame(fp, ss.tail, r.s, r.out, fuel); }
    }
  }

  lemma {:induction false} ExecChainSame(fp: FpOps, c: Chain, s: Store, out: seq<Value>, fuel: nat)
    requires SimpleChain(c) && VarsChain(c) <= s.Keys
    ensures SimpleChain(FoldChain(fp, c)) && VarsChain(FoldChain(fp, c)) <= s.Keys
    ensures ExecChain(fp, AsMeant, FoldChain(fp, c), s, out, fuel) == ExecChain(fp, AsMeant, c, s, out, fuel)
    decreases fuel, c, 0
  {
    hide FoldE, Simple, Reads, Eval, ExecAll, Truthy;
    FoldShapesChain(fp, c);
    FoldEval(fp, c.cond, s);
    ExecAllSame(fp, c.thn, s, out, fuel);
    match c.els
    case NoElse =>
    case ElseBlock(b) => ExecAllSame(fp, b, s, out, fuel);
    case ElseIf(chain) => ExecChainSame(fp, chain, s, out, fuel);
  }

  /** One round: the test, the body and the step mean the same folded. */
  lemma {:induction false} LoopSame(fp: FpOps, test: OptExpr, step: OptExpr, body: Stmts, s: Store, out: seq<Value>, fuel: nat)
    requires SimpleOpt(test) && SimpleClause(step) && SimpleStmts(body)
    requires OptVars(test) + OptVars(step) + VarsAll(body) <= s.Keys
    ensures SimpleOpt(FoldOpt(fp, test)) && SimpleClause(FoldOpt(fp, step)) && SimpleStmts(FoldAll(fp, body))
    ensures OptVars(FoldOpt(fp, test)) + OptVars(FoldOpt(fp, step)) + VarsAll(FoldAll(fp, body)) <= s.Keys
    ensures Loop(fp, AsMeant, FoldOpt(fp, test), FoldOpt(fp, step), FoldAll(fp, body), s, out, fuel) == Loop(fp, AsMeant, test, step, body, s, out, fuel)
    decreases fuel, body, 1
  {
    hide *;
    FoldShapesOpt(fp, test);
    FoldShapesClause(fp, step);
    FoldShapesAll(fp, body);
    if fuel == 0 {
      LoopOut(fp, AsMeant, test, step, body, s, out);
      LoopOut(fp, AsMeant, FoldOpt(fp, test), FoldOpt(fp, step), FoldAll(fp, body), s, out);
      return;
    }
    TestSame(fp, test, s);
    LoopRound(fp, AsMeant, test, step, body, s, out, fuel);
    LoopRound(fp, AsMeant, FoldOpt(fp, test), FoldOpt(fp, step), FoldAll(fp, body), s, out, fuel);
    if Test(fp, test, s).Good? && Truthy(fp, Test(fp, test, s).v) {
      ExecAllSame(fp, body, s, out, fuel);
      var r := ExecAll(fp, AsMeant, body, s, out, fuel);
      KeysKept(fp, AsMeant, body, s, out, fuel);
      if r.Next? || r.Continued? {
        EffectOptSame(fp, step, r.s, r.out);
        var u := EffectOpt(fp, AsMeant, step, r.s, r.out);
        if u.Next? { LoopSame(fp, test, step, body, u.s, u.out, fuel - 1); }
      }
    }
  }

  // ---- the assignments ---------------------------------------------------------------------------------

  lemma {:induction false} NoMarks(e: Expr)
    requires Simple(e)
    ensures MarksE(e, false) == []
  {
    match e
    case Binary(_, l, r) =>
      NoMarks(l);
      NoMarks(r);
    case Logical(_, l, r) =>
      NoMarks(l);
      NoMarks(r);
    case Unary(_, x) => NoMarks(x);
    case _ =>
  }

  lemma FoldMarksE(fp: FpOps, e: Expr)
    requires SimpleEffect(e)
    ensures MarksE(FoldE(fp, e), false) == MarksE(e, false)
  {
    hide FoldBinary, FoldUnary;
    if e.Assign? {
      FoldReads(fp, e.value);
      NoMarks(e.value);
      NoMarks(FoldE(fp, e.value));
    } else {
      FoldReads(fp, e);
      NoMarks(e);
      NoMarks(FoldE(fp, e));
    }
  }

  lemma FoldMarksOpt(fp: FpOps, o: OptExpr)
    requires SimpleClause(o) || SimpleOpt(o)
    ensures MarksOpt(FoldOpt(fp, o), false) == MarksOpt(o, false)
  {
    hide FoldE, MarksE;
    if o.Present? { FoldMarksE(fp, o.e); }
  }

  lemma {:induction false} FoldMarks(fp: FpOps, st: Stmt)
    requires SimpleStmt(st)
    ensures Marks(FoldS(fp, st), false) == Marks(st, false)
  {
    hide FoldE, MarksE, FoldOpt, MarksOpt;
    match st
    case ExprStmt(e) => FoldMarksE(fp, e);
    case Print(e) => FoldMarksE(fp, e);
    case Return(v) => FoldMarksOpt(fp, v);
    case Block(b) => FoldMarksAll(fp, b);
    case If(c) => FoldMarksChain(fp, c);
    case While(c, b) =>
      FoldMarksE(fp, c);
      FoldMarksAll(fp, b);
    case For(i, t, step, b) =>
      FoldMarksOpt(fp, i);
      FoldMarksOpt(fp, t);
      FoldMarksOpt(fp, step);
      FoldMarksAll(fp, b);
    case _ =>
  }

  /** Folding keeps every assignment, and so the compiler's variables. */
  lemma {:induction false} FoldMarksAll(fp: FpOps, ss: Stmts)
    requires SimpleStmts(ss)
    ensures MarksAll(FoldAll(fp, ss), false) == MarksAll(ss, false)
  {
    if ss.SCons? {
      FoldMarks(fp, ss.head);
      FoldMarksAll(fp, ss.tail);
    }
  }

  lemma {:induction false} FoldMarksChain(fp: FpOps, c: Chain)
    requires SimpleChain(c)
    ensures MarksChain(FoldChain(fp, c), false) == MarksChain(c, false)
  {
    hide FoldE, MarksE;
    FoldMarksE(fp, c.cond);
    FoldMarksAll(fp, c.thn);
    match c.els
    case NoElse =>
    case ElseBlock(b) => FoldMarksAll(fp, b);
    case ElseIf(chain) => FoldMarksChain(fp, chain);
  }

  // ---- programs --------------------------------------------------------------------------------------------

  /** The entry statements of the folded program are the entry statements folded. */
  lemma {:induction false} MainFolds(fp: FpOps, ss: Stmts)
    ensures FnCode.MainOf(FoldAll(fp, ss)) == FoldAll(fp, FnCode.MainOf(ss))
  {
    if ss.SCons? { MainFolds(fp, ss.tail); }
  }
}
