/** Assigned values are computed in the variable's own register: when that is right, and for
    which programs it makes no difference. */
module Assignments {
  import opened Bytecode
  import opened Values
  import opened Ast
  import opened Source

  // ---- exactly when an assignment comes out right ---------------------------------------------

  predicate SameTruth(fp: FpOps, a: Outcome, b: Outcome) {
    if a.Good? && b.Good? then Truthy(fp, a.v) == Truthy(fp, b.v) else a == b
  }

  /** The outcome is a value whose truth is `t`. */
  predicate Settles(fp: FpOps, o: Outcome, t: bool) {
    o.Good? && Truthy(fp, o.v) == t
  }

  /** Operand by operand: what is computed from `s'`, with `x` overwritten on the way, has the
      truth that the expression has in `s`. Where only one of the two stops at the first operand,
      the other's second operand has to come to the same. */
  predicate Unharmed(fp: FpOps, e: Expr, s: Store, s': Store, x: string)
    requires Simple(e) && Reads(e) <= s.Keys && Reads(e) <= s'.Keys
    decreases e
  {
    if !e.Logical? then SameTruth(fp, Eval(fp, e, s'), Eval(fp, e, s))
    else
      var a', a := EvalThrough(fp, e.l, s', x), Eval(fp, e.l, s);
      if a'.Bad? && a.Bad? then a' == a
      else if a'.Bad? then Truthy(fp, a.v) == e.isAnd && Eval(fp, e.r, s) == a'
      else if a.Bad? then Truthy(fp, a'.v) == e.isAnd && EvalThrough(fp, e.r, s'[x := a'.v], x) == a
      else
        var cut', cut := Truthy(fp, a'.v) != e.isAnd, Truthy(fp, a.v) != e.isAnd;
        if cut' && cut then true
        else if cut' then Settles(fp, Eval(fp, e.r, s), !e.isAnd)
        else if cut then Settles(fp, EvalThrough(fp, e.r, s'[x := a'.v], x), !e.isAnd)
        else Unharmed(fp, e.r, s, s'[x := a'.v], x)
  }

  lemma {:induction false} UnharmedExact(fp: FpOps, e: Expr, s: Store, s': Store, x: string)
    requires Simple(e) && Reads(e) <= s.Keys && Reads(e) <= s'.Keys
    ensures SameTruth(fp, EvalThrough(fp, e, s', x), Eval(fp, e, s)) <==> Unharmed(fp, e, s, s', x)
    decreases e
  {
    if e.Logical? {
      var a' := EvalThrough(fp, e.l, s', x);
      if a'.Good? { UnharmedExact(fp, e.r, s, s'[x := a'.v], x); }
    }
  }

  /** For any nesting of short-circuit operators: the assigned value is the one meant if and
      only if no overwriting of `x` on the way changes a truth that counts. */
  lemma AssignedExact(fp: FpOps, e: Expr, s: Store, x: string)
    requires Simple(e) && Reads(e) <= s.Keys
    ensures Assigned(fp, AsCompiled, e, x, s) == Assigned(fp, AsMeant, e, x, s) <==> Unharmed(fp, e, s, s, x)
  {
    UnharmedExact(fp, e, s, s, x);
    if e.Logical? {
      TruthIsAll(fp, EvalThrough(fp, e, s, x), Eval(fp, e, s));
    }
  }

  /** Booleans and errors with the same truth are equal. */
  lemma TruthIsAll(fp: FpOps, a: Outcome, b: Outcome)
    requires (a.Good? ==> a.v.VBool?) && (b.Good? ==> b.v.VBool?)
    ensures SameTruth(fp, a, b) <==> a == b
  {
  }

  // ---- a condition on the text --------------------------------------------------------------------

  /** No second operand of a short-circuit operator, as far as those stand at the root, reads `x`. */
  predicate SafeTarget(e: Expr, x: string) {
    e.Logical? ==> SafeTarget(e.l, x) && x !in Reads(e.r)
  }

  lemma {:induction false} EvalAgrees(fp: FpOps, e: Expr, s: Store, s': Store)
    requires Simple(e) && Reads(e) <= s.Keys && Reads(e) <= s'.Keys && forall y {:trigger y in Reads(e)} :: y in Reads(e) ==> s'[y] == s[y]
    ensures Eval(fp, e, s') == Eval(fp, e, s)
  {
    hide Values.BinaryOp, Values.UnaryOp, Truthy;
    if e.Binary? || e.Logical? {
      assert forall y :: y in Reads(e.l) || y in Reads(e.r) ==> y in Reads(e);
      EvalAgrees(fp, e.l, s, s');
      EvalAgrees(fp, e.r, s, s');
    } else if e.Unary? {
      EvalAgrees(fp, e.e, s, s');
    } else if e.Ident? {
      assert e.name in Reads(e);
    }
  }

  lemma {:induction false} UnreadIsSafe(e: Expr, x: string)
    requires Simple(e) && x !in Reads(e)
    ensures SafeTarget(e, x)
  {
    if e.Logical? { UnreadIsSafe(e.l, x); }
  }

  lemma {:induction false} SafeThrough(fp: FpOps, e: Expr, s: Store, x: string)
    requires Simple(e) && Reads(e) <= s.Keys && SafeTarget(e, x)
    ensures EvalThrough(fp, e, s, x) == Eval(fp, e, s)
    decreases e
  {
    if e.Logical? {
      SafeThrough(fp, e.l, s, x);
      var a := Eval(fp, e.l, s);
      if a.Good? {
        UnreadIsSafe(e.r, x);
        SafeThrough(fp, e.r, s[x := a.v], x);
        EvalAgrees(fp, e.r, s, s[x := a.v]);
      }
    }
  }

  /** For one operator whose second operand is none: the assigned value is the one meant if
      and only if the first operand stops or decides, or the second operand's truth does not
      depend on whether `x` still has its value or already that of the first operand. */
  lemma OverwrittenExact(fp: FpOps, e: Expr, s: Store, x: string)
    requires Simple(e) && Reads(e) <= s.Keys && e.Logical? && SafeTarget(e.l, x) && !e.r.Logical?
    ensures Assigned(fp, AsCompiled, e, x, s) == Assigned(fp, AsMeant, e, x, s) <==>
            var a := Eval(fp, e.l, s);
            a.Bad? || Truthy(fp, a.v) != e.isAnd || SameTruth(fp, Eval(fp, e.r, s[x := a.v]), Eval(fp, e.r, s))
  {
    AssignedExact(fp, e, s, x);
    SafeThrough(fp, e.l, s, x);
  }

  /** x = 2 && x reads the overwritten variable; where x was 1 that changes nothing. */
  lemma HarmlessOverwrite(fp: FpOps, s: Store)
    requires "x" in s && s["x"] == VInt(1)
    ensures var e := Logical(true, IntLit(2), Ident("x"));
            !SafeTarget(e, "x") && Assigned(fp, AsCompiled, e, "x", s) == Assigned(fp, AsMeant, e, "x", s) == Good(VBool(true))
  {
    var e, s' := Logical(true, IntLit(2), Ident("x")), s["x" := VInt(2)];
    assert EvalThrough(fp, e.l, s, "x") == Eval(fp, e.l, s) == Good(VInt(2));
    assert EvalThrough(fp, e.r, s', "x") == Eval(fp, e.r, s') == Good(VInt(2)) && Eval(fp, e.r, s) == Good(VInt(1));
  }

  predicate SafeEffect(e: Expr) {
    e.Assign? && e.target.Ident? ==> SafeTarget(e.value, e.target.name)
  }

  predicate SafeOpt(o: OptExpr) {
    o.Present? ==> SafeEffect(o.e)
  }

  predicate SafeStmt(s: Stmt) {
    match s
    case ExprStmt(e) => SafeEffect(e)
    case Block(b) => SafeAll(b)
    case If(c) => SafeChain(c)
    case While(_, b) => SafeAll(b)
    case For(i, _, st, b) => SafeOpt(i) && SafeOpt(st) && SafeAll(b)
    case _ => true
  }

  predicate SafeAll(ss: Stmts) {
    ss.SCons? ==> SafeStmt(ss.head) && SafeAll(ss.tail)
  }

  predicate SafeChain(c: Chain) {
    SafeAll(c.thn) && SafeElse(c.els)
  }

  predicate SafeElse(e: Else) {
    match e
    case NoElse => true
    case ElseBlock(b) => SafeAll(b)
    case ElseIf(c) => SafeChain(c)
  }

  // ---- safe programs do as they mean -----------------------------------------------------------------

  lemma EffectAsMeant(fp: FpOps, e: Expr, s: Store, out: seq<Value>)
    requires SimpleEffect(e) && SafeEffect(e) && EffectVars(e) <= s.Keys
    ensures Effect(fp, AsCompiled, e, s, out) == Effect(fp, AsMeant, e, s, out)
  {
    hide Eval, EvalThrough;
    if e.Assign? { SafeThrough(fp, e.value, s, e.target.name); }
  }

  lemma EffectOptAsMeant(fp: FpOps, o: OptExpr, s: Store, out: seq<Value>)
    requires SimpleClause(o) && SafeOpt(o) && OptVars(o) <= s.Keys
    ensures EffectOpt(fp, AsCompiled, o, s, out) == EffectOpt(fp, AsMeant, o, s, out)
  {
    hide Effect;
    if o.Present? { EffectAsMeant(fp, o.e, s, out); }
  }

  lemma {:induction false} ExecAsMeant(fp: FpOps, st: Stmt, s: Store, out: seq<Value>, fuel: nat)
    requires SimpleStmt(st) && SafeStmt(st) && Vars(st) <= s.Keys
    ensures Exec(fp, AsCompiled, st, s, out, fuel) == Exec(fp, AsMeant, st, s, out, fuel)
    decreases fuel, st, 1
  {
    hide Simple, Reads, Eval, Effect, Loop, ExecAll, ExecChain;
    match st
    case ExprStmt(e) => EffectAsMeant(fp, e, s, out);
    case Block(b) => ExecAllAsMeant(fp, b, s, out, fuel);
    case If(c) => ExecChainAsMeant(fp, c, s, out, fuel);
    case While(c, b) =>
      ConditionVars(c);
      LoopAsMeant(fp, Present(c), Absent, b, s, out, fuel);
    case For(i, t, step, b) =>
      EffectOptAsMeant(fp, i, s, out);
      var r := EffectOpt(fp, AsMeant, i, s, out);
      if r.Next? { LoopAsMeant(fp, t, step, b, r.s, r.out, fuel); }
    case _ =>
  }

  lemma ConditionVars(c: Expr)
    requires Simple(c)
    ensures OptVars(Present(c)) == Reads(c)
  {
  }

  lemma {:induction false} ExecAllAsMeant(fp: FpOps, ss: Stmts, s: Store, out: seq<Value>, fuel: nat)
    requires SimpleStmts(ss) && SafeAll(ss) && VarsAll(ss) <= s.Keys
    ensures ExecAll(fp, AsCompiled, ss, s, out, fuel) == ExecAll(fp, AsMeant, ss, s, out, fuel)
    decreases fuel, ss, 0
  {
    hide Exec, Vars, SimpleStmt;
    if ss.SCons? {
      ExecAsMeant(fp, ss.head, s, out, fuel);
      var r := Exec(fp, AsMeant, ss.head, s, out, fuel);
      if r.Next? { ExecAllAsMeant(fp, ss.tail, r.s, r.out, fuel); }
    }
  }

  lemma {:induction false} ExecChainAsMeant(fp: FpOps, c: Chain, s: Store, out: seq<Value>, fuel: nat)
    requires SimpleChain(c) && SafeChain(c) && VarsChain(c) <= s.Keys
    ensures ExecChain(fp, AsCompiled, c, s, out, fuel) == ExecChain(fp, AsMeant, c, s, out, fuel)
    decreases fuel, c, 0
  {
    hide Simple, Reads, Eval, ExecAll, Truthy;
    ExecAllAsMeant(fp, c.thn, s, out, fuel);
    match c.els
    case NoElse =>
    case ElseBlock(b) => ExecAllAsMeant(fp, b, s, out, fuel);
    case ElseIf(chain) => ExecChainAsMeant(fp, chain, s, out, fuel);
  }

  lemma {:induction false} LoopAsMeant(fp: FpOps, test: OptExpr, step: OptExpr, body: Stmts, s: Store, out: seq<Value>, fuel: nat)
    requires SimpleOpt(test) && SimpleClause(step) && SimpleStmts(body) && SafeOpt(step) && SafeAll(body)
    requires OptVars(test) + OptVars(step) + VarsAll(body) <= s.Keys
    ensures Loop(fp, AsCompiled, test, step, body, s, out, fuel) == Loop(fp, AsMeant, test, step, body, s, out, fuel)
    decreases fuel, body, 1
  {
    hide *;
    if fuel == 0 {
      LoopOut(fp, AsCompiled, test, step, body, s, out);
      LoopOut(fp, AsMeant, test, step, body, s, out);
      return;
    }
    LoopRound(fp, AsCompiled, test, step, body, s, out, fuel);
    LoopRound(fp, AsMeant, test, step, body, s, out, fuel);
    if Test(fp, test, s).Good? && Truthy(fp, Test(fp, test, s).v) {
      ExecAllAsMeant(fp, body, s, out, fuel);
      var r := ExecAll(fp, AsMeant, body, s, out, fuel);
      KeysKept(fp, AsMeant, body, s, out, fuel);
      if r.Next? || r.Continued? {
        EffectOptAsMeant(fp, step, r.s, r.out);
        var u := EffectOpt(fp, AsMeant, step, r.s, r.out);
        if u.Next? { LoopAsMeant(fp, test, step, body, u.s, u.out, fuel - 1); }
      }
    }
  }
}
