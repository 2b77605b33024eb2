/** Reading back statements: each comes back exactly when it fits and is sound. */
module RoundStmts {
  import opened Ast
  import opened Grammar
  import opened Format
  import opened Spines
  import opened RoundExprs
  import T = Tokens

  predicate FitsOpt(o: OptExpr, d: nat) { SoundOpt(o) && d + NeedOpt(o) <= MAX_DEPTH }

  predicate FitsS(s: Stmt, d: nat) { SoundS(s) && d + NeedS(s) <= MAX_DEPTH }

  predicate FitsChain(c: Chain, d: nat) { SoundChain(c) && d + NeedChain(c) <= MAX_DEPTH }

  predicate FitsElse(e: Else, d: nat) { SoundElse(e) && d + NeedElse(e) <= MAX_DEPTH }

  /** A token that may follow a statement. */
  predicate Follows(t: T.Token) {
    t != T.KwElif && t != T.KwElse
  }

  ghost predicate AssignDone(toks: Toks, p: nat, d: nat, e: Expr, q: nat)
    requires p <= |toks|
  {
    var r := AssignmentOf(toks, p, d);
    if FitsA(e, d) then Stops(At(toks, q)) && At(toks, q) != T.Assign ==> r == Ok(e, q) else Wrong(r, e)
  }

  ghost predicate ClauseDone(toks: Toks, p: nat, d: nat, o: OptExpr, stop: T.Token, q: nat)
    requires p <= |toks| && stop != T.Eof
  {
    if FitsOpt(o, d) then ClauseOf(toks, p, d, stop) == Ok(o, q) else Wrong(ClauseOf(toks, p, d, stop), o)
  }

  ghost predicate CondDone(toks: Toks, p: nat, d: nat, e: Expr, q: nat)
    requires p < |toks|
  {
    if FitsA(e, d) then Condition(toks, p, d) == Ok(e, q) else Wrong(Condition(toks, p, d), e)
  }

  ghost predicate StmtDone(toks: Toks, p: nat, d: nat, s: Stmt, q: nat)
    requires p <= |toks|
  {
    var r := StatementOf(toks, p, d);
    if FitsS(s, d) then Follows(At(toks, q)) ==> r == Ok(s, q) else Wrong(r, s)
  }

  ghost predicate AllDone(toks: Toks, p: nat, d: nat, top: bool, ss: Stmts, q: nat)
    requires p <= |toks|
  {
    if FitsAll(ss, d) then Statements(toks, p, d, top) == Ok(ss, q) else Wrong(Statements(toks, p, d, top), ss)
  }

  ghost predicate ChainDone(toks: Toks, p: nat, d: nat, c: Chain, q: nat)
    requires p < |toks|
  {
    var t := At(toks, q);
    if FitsChain(c, d) then Follows(t) ==> ChainOf(toks, p, d) == Ok(c, q) else Wrong(ChainOf(toks, p, d), c)
  }

  ghost predicate ElseDone(toks: Toks, p: nat, d: nat, e: Else, q: nat)
    requires p <= |toks|
  {
    var t := At(toks, q);
    if FitsElse(e, d) then Follows(t) ==> ElseOf(toks, p, d) == Ok(e, q) else Wrong(ElseOf(toks, p, d), e)
  }

  // ---- assignments ----------------------------------------------------------------------------

  lemma FitsBare(e: Expr, d: nat)
    requires !e.Assign?
    ensures FitsA(e, d) <==> FitsE(e, d + 1)
  {
    hide SoundE, NeedU;
  }

  lemma BareStep(toks: Toks, p: nat, d: nat, e: Expr, q: nat)
    requires p <= |toks| && q <= |toks| && ShapedE(e) && ExprDone(toks, p, d + 1, e, q)
    ensures AssignDone(toks, p, d, e, q)
  {
    hide ExprOf, UnaryOf, Diverges, FitsE, FitsU, FitsA, Height;
    FitsBare(e, d);
    FitsShallow(e, d);
    if d >= MAX_DEPTH {
      TooDeep(toks, p, d);
    } else {
      var r := ExprOf(toks, p, d + 1, 1);
      if r.Ok? && !FitsE(e, d + 1) { DivergesDiffer(e, r.v); }
    }
  }

  lemma FitsShallow(e: Expr, d: nat)
    ensures FitsA(e, d) ==> d < MAX_DEPTH
  {
  }

  lemma FitsAssign(t: Expr, v: Expr, d: nat)
    ensures FitsA(Assign(t, v), d) <==> FitsE(t, d + 1) && FitsA(v, d + 1)
  {
    hide NeedE;
  }

  lemma AssignmentAt(toks: Toks, p: nat, d: nat)
    requires p <= |toks| && d < MAX_DEPTH
    ensures AssignmentOf(toks, p, d) ==
            var l := ExprOf(toks, p, d + 1, 1);
            if l.Fail? || At(toks, l.next) != T.Assign then l
            else
              var v := AssignmentOf(toks, l.next + 1, d + 1);
              if v.Ok? && Assignable(l.v) then Ok(Assign(l.v, v.v), v.next) else Fail
  {
    hide ExprOf;
  }

  lemma AssignStep(toks: Toks, p: nat, d: nat, t: Expr, v: Expr, m: nat, q: nat)
    requires p <= m < q <= |toks| && ShapedE(t) && Assignable(t) && At(toks, m) == T.Assign
    requires ExprDone(toks, p, d + 1, t, m) && AssignDone(toks, m + 1, d + 1, v, q)
    ensures AssignDone(toks, p, d, Assign(t, v), q)
  {
    hide ExprOf, AssignmentOf, Diverges, FitsE, FitsA, Height;
    FitsAssign(t, v, d);
    FitsShallow(Assign(t, v), d);
    if d < MAX_DEPTH {
      AssignmentAt(toks, p, d);
      var r := ExprOf(toks, p, d + 1, 1);
      if r.Ok? && !FitsE(t, d + 1) { DivergesDiffer(t, r.v); }
    } else {
      TooDeep(toks, p, d);
    }
  }

  lemma TooDeep(toks: Toks, p: nat, d: nat)
    requires p <= |toks| && d >= MAX_DEPTH
    ensures AssignmentOf(toks, p, d) == Fail && StatementOf(toks, p, d) == Fail
  {
  }

  // ---- clauses and conditions -----------------------------------------------------------------------

  lemma ClauseStep(toks: Toks, p: nat, d: nat, e: Expr, stop: T.Token, q: nat)
    requires p < q <= |toks| && (stop == T.Semicolon || stop == T.RParen) && At(toks, p) != stop && At(toks, q - 1) == stop
    requires AssignDone(toks, p, d, e, q - 1)
    ensures ClauseDone(toks, p, d, Present(e), stop, q)
  {
    hide AssignmentOf;
  }

  lemma CondStep(toks: Toks, p: nat, d: nat, e: Expr, q: nat)
    requires p + 2 < q <= |toks| && At(toks, p + 1) == T.LParen && At(toks, q - 1) == T.RParen
    requires AssignDone(toks, p + 2, d, e, q - 1)
    ensures CondDone(toks, p, d, e, q)
  {
    hide AssignmentOf;
  }

  lemma BlockStep(toks: Toks, p: nat, d: nat, ss: Stmts, q: nat)
    requires p + 1 < q <= |toks| && At(toks, p) == T.LBrace && At(toks, q - 1) == T.RBrace
    requires AllDone(toks, p + 1, d, false, ss, q - 1)
    ensures BlockDone(toks, p, d, ss, q)
  {
    hide Statements, FitsAll;
  }

  // ---- chains ----------------------------------------------------------------------------------------------

  lemma NoElseStep(toks: Toks, p: nat, d: nat)
    requires p <= |toks| && d <= MAX_DEPTH
    ensures ElseDone(toks, p, d, NoElse, p)
  {
    hide ChainOf, BlockOf;
  }

  lemma ElseBlockStep(toks: Toks, p: nat, d: nat, b: Stmts, q: nat)
    requires p < q <= |toks| && At(toks, p) == T.KwElse && BlockDone(toks, p + 1, d, b, q)
    ensures ElseDone(toks, p, d, ElseBlock(b), q)
  {
    hide ChainOf, BlockOf, SoundAll, NeedAll;
  }

  lemma ElseIfStep(toks: Toks, p: nat, d: nat, c: Chain, q: nat)
    requires p < q <= |toks| && At(toks, p) == T.KwElif && ChainDone(toks, p, d, c, q)
    ensures ElseDone(toks, p, d, ElseIf(c), q)
  {
    hide ChainOf, BlockOf, SoundChain, NeedChain;
  }

  lemma FitsChainParts(c: Chain, d: nat)
    ensures FitsChain(c, d) <==> FitsA(c.cond, d) && FitsAll(c.thn, d) && FitsElse(c.els, d)
  {
    hide SoundE, SoundAll, SoundElse, NeedA, NeedAll, NeedElse;
  }

  lemma ChainStep(toks: Toks, p: nat, d: nat, c: Chain, m: nat, n: nat, q: nat)
    requires p < m < n <= q <= |toks|
    requires CondDone(toks, p, d, c.cond, m) && BlockDone(toks, m, d, c.thn, n) && ElseDone(toks, n, d, c.els, q)
    ensures ChainDone(toks, p, d, c, q)
  {
    hide Condition, BlockOf, ElseOf, FitsA, FitsAll, FitsElse, FitsChain;
    FitsChainParts(c, d);
    if FitsA(c.cond, d) && FitsAll(c.thn, d) {
      assert Condition(toks, p, d) == Ok(c.cond, m) && BlockOf(toks, m, d) == Ok(c.thn, n);
    }
  }

  // ---- statements ------------------------------------------------------------------------------------------------

  /** What is proved of a statement's own production, its guard passed. */
  ghost predicate DispatchDone(toks: Toks, p: nat, d: nat, s: Stmt, q: nat)
    requires p <= |toks|
  {
    var r := DispatchOf(toks, p, d + 1);
    if FitsS(s, d) then Follows(At(toks, q)) ==> r == Ok(s, q) else Wrong(r, s)
  }

  lemma GuardStep(toks: Toks, p: nat, d: nat, s: Stmt, q: nat)
    requires p <= |toks| && (d < MAX_DEPTH ==> DispatchDone(toks, p, d, s, q))
    ensures StmtDone(toks, p, d, s, q)
  {
    hide DispatchOf, SoundS;
  }

  lemma PrintStep(toks: Toks, p: nat, d: nat, e: Expr, q: nat)
    requires p + 1 < q <= |toks| && At(toks, p) == T.KwPrint && At(toks, q - 1) == T.Semicolon
    requires AssignDone(toks, p + 1, d + 1, e, q - 1)
    ensures DispatchDone(toks, p, d, Print(e), q)
  {
    hide DispatchOf, AssignmentOf, FitsS, FitsA, Stops;
    SemicolonStops();
    FitsPrint(e, d);
    DispatchesPrint(toks, p, d + 1);
  }

  lemma SemicolonStops()
    ensures Stops(T.Semicolon)
  {
  }

  lemma FitsPrint(e: Expr, d: nat)
    ensures FitsS(Print(e), d) <==> FitsA(e, d + 1)
  {
    hide SoundE, NeedA;
  }

  lemma DispatchesPrint(toks: Toks, p: nat, d: nat)
    requires p < |toks| && At(toks, p) == T.KwPrint
    ensures var e := AssignmentOf(toks, p + 1, d);
            DispatchOf(toks, p, d) == if e.Ok? && At(toks, e.next) == T.Semicolon then Ok(Print(e.v), e.next + 1) else Fail
  {
    hide AssignmentOf;
  }

  lemma ReturnStep(toks: Toks, p: nat, d: nat, v: OptExpr, q: nat)
    requires p < q <= |toks| && At(toks, p) == T.KwReturn && ClauseDone(toks, p + 1, d + 1, v, T.Semicolon, q)
    ensures DispatchDone(toks, p, d, Return(v), q)
  {
    hide ClauseOf, SoundOpt, NeedOpt;
  }

  lemma WordStep(toks: Toks, p: nat, d: nat, s: Stmt)
    requires p + 2 <= |toks| && d < MAX_DEPTH && At(toks, p + 1) == T.Semicolon
    requires (s.Break? && At(toks, p) == T.KwBreak) || (s.Continue? && At(toks, p) == T.KwContinue)
    ensures DispatchDone(toks, p, d, s, p + 2)
  {
  }

  lemma BlockStmtStep(toks: Toks, p: nat, d: nat, b: Stmts, q: nat)
    requires p <= |toks| && At(toks, p) == T.LBrace && BlockDone(toks, p, d + 1, b, q)
    ensures DispatchDone(toks, p, d, Block(b), q)
  {
    hide BlockOf, SoundAll, NeedAll;
  }

  lemma IfStep(toks: Toks, p: nat, d: nat, c: Chain, q: nat)
    requires p < |toks| && At(toks, p) == T.KwIf && ChainDone(toks, p, d + 1, c, q)
    ensures DispatchDone(toks, p, d, If(c), q)
  {
    hide ChainOf, SoundChain, NeedChain;
  }

  lemma FitsWhile(c: Expr, b: Stmts, d: nat)
    ensures FitsS(While(c, b), d) <==> FitsA(c, d + 1) && FitsAll(b, d + 1)
  {
    hide SoundE, SoundAll, NeedA, NeedAll;
  }

  lemma WhileStep(toks: Toks, p: nat, d: nat, c: Expr, b: Stmts, m: nat, q: nat)
    requires p < m < q <= |toks| && At(toks, p) == T.KwWhile && CondDone(toks, p, d + 1, c, m) && BlockDone(toks, m, d + 1, b, q)
    ensures DispatchDone(toks, p, d, While(c, b), q)
  {
    hide WhileOf, FitsS, BlockDone, CondDone, FitsA, FitsAll;
    FitsWhile(c, b, d);
    WhileAt(toks, p, d + 1, c, b, m, q);
  }

  lemma WhileAt(toks: Toks, p: nat, d: nat, c: Expr, b: Stmts, m: nat, q: nat)
    requires p < m < q <= |toks| && CondDone(toks, p, d, c, m) && BlockDone(toks, m, d, b, q)
    ensures if FitsA(c, d) && FitsAll(b, d) then WhileOf(toks, p, d) == Ok(While(c, b), q) else Wrong(WhileOf(toks, p, d), While(c, b))
  {
    hide Condition, BlockOf, FitsA, FitsAll;
  }

  lemma FitsFor(i: OptExpr, t: OptExpr, s: OptExpr, b: Stmts, d: nat)
    ensures FitsS(For(i, t, s, b), d) <==> FitsOpt(i, d + 1) && FitsOpt(t, d + 1) && FitsOpt(s, d + 1) && FitsAll(b, d + 1)
  {
    hide SoundOpt, SoundAll, NeedOpt, NeedAll;
  }

  lemma ForStep(toks: Toks, p: nat, d: nat, i: OptExpr, t: OptExpr, s: OptExpr, b: Stmts, k: nat, m: nat, n: nat, q: nat)
    requires p + 1 < k < m < n < q <= |toks| && At(toks, p) == T.KwFor && At(toks, p + 1) == T.LParen
    requires ClauseDone(toks, p + 2, d + 1, i, T.Semicolon, k) && ClauseDone(toks, k, d + 1, t, T.Semicolon, m)
    requires ClauseDone(toks, m, d + 1, s, T.RParen, n) && BlockDone(toks, n, d + 1, b, q)
    ensures DispatchDone(toks, p, d, For(i, t, s, b), q)
  {
    hide ForOf, FitsS, BlockDone, ClauseDone, FitsOpt, FitsAll;
    FitsFor(i, t, s, b, d);
    ForAt(toks, p, d + 1, i, t, s, b, k, m, n, q);
  }

  lemma ForAt(toks: Toks, p: nat, d: nat, i: OptExpr, t: OptExpr, s: OptExpr, b: Stmts, k: nat, m: nat, n: nat, q: nat)
    requires p + 1 < k < m < n < q <= |toks| && At(toks, p + 1) == T.LParen
    requires ClauseDone(toks, p + 2, d, i, T.Semicolon, k) && ClauseDone(toks, k, d, t, T.Semicolon, m)
    requires ClauseDone(toks, m, d, s, T.RParen, n) && BlockDone(toks, n, d, b, q)
    ensures if FitsOpt(i, d) && FitsOpt(t, d) && FitsOpt(s, d) && FitsAll(b, d) then ForOf(toks, p, d) == Ok(For(i, t, s, b), q)
            else Wrong(ForOf(toks, p, d), For(i, t, s, b))
  {
    hide ClauseOf, BlockOf, FitsOpt, FitsAll;
  }

  lemma FnDeclStep(toks: Toks, p: nat, d: nat, name: string, params: seq<string>, b: Stmts, m: nat, q: nat)
    requires p + 3 < m <= q <= |toks| && At(toks, p) == T.KwFn && At(toks, p + 1) == T.Ident(name) && At(toks, p + 2) == T.LParen
    requires Params(toks, p + 3) == Ok(params, m) && BlockDone(toks, m, d + 1, b, q)
    ensures DispatchDone(toks, p, d, FnDecl(name, params, b), q)
  {
    hide FnDeclOf, Params, BlockDone, BlockOf, SoundAll, NeedAll;
    FnDeclAt(toks, p, d + 1, name, params, b, m, q);
  }

  lemma FnDeclAt(toks: Toks, p: nat, d: nat, name: string, params: seq<string>, b: Stmts, m: nat, q: nat)
    requires p + 3 < m <= q <= |toks| && At(toks, p + 1) == T.Ident(name) && At(toks, p + 2) == T.LParen
    requires Params(toks, p + 3) == Ok(params, m) && BlockDone(toks, m, d, b, q)
    ensures if FitsAll(b, d) then FnDeclOf(toks, p, d) == Ok(FnDecl(name, params, b), q)
            else Wrong(FnDeclOf(toks, p, d), FnDecl(name, params, b))
  {
    hide Params, BlockOf, FitsAll;
  }

  lemma FitsExprStmt(e: Expr, d: nat)
    ensures FitsS(ExprStmt(e), d) <==> FitsA(e, d + 1) && First(e) != T.LBrace && First(e) != T.KwFn
  {
    hide SoundE, NeedA, First;
  }

  /** Neither a block nor a declaration is an expression statement. */
  lemma StartStep(toks: Toks, p: nat, d: nat, e: Expr, q: nat)
    requires p <= |toks| && At(toks, p) == First(e) && (First(e) == T.LBrace || First(e) == T.KwFn)
    ensures DispatchDone(toks, p, d, ExprStmt(e), q)
  {
    hide BlockOf, FnDeclOf, SoundE, NeedA, FitsS, First;
    FitsExprStmt(e, d);
  }

  lemma DispatchesExpr(toks: Toks, p: nat, d: nat)
    requires p <= |toks| && Opens(At(toks, p)) && At(toks, p) != T.LBrace && At(toks, p) != T.KwFn
    ensures DispatchOf(toks, p, d) == ExprStmtOf(toks, p, d)
  {
    hide ExprStmtOf;
  }

  lemma ExprStmtStep(toks: Toks, p: nat, d: nat, e: Expr, m: nat, q: nat)
    requires p < m <= q <= |toks| && At(toks, p) == First(e)
    requires !EndsInBlock(e) ==> q == m + 1 && At(toks, m) == T.Semicolon
    requires AssignDone(toks, p, d + 1, e, m)
    ensures DispatchDone(toks, p, d, ExprStmt(e), q)
  {
    hide DispatchOf, AssignmentOf, FitsS, FitsA;
    FitsExprStmt(e, d);
    FirstOpens(e);
    if First(e) == T.LBrace || First(e) == T.KwFn {
      StartStep(toks, p, d, e, q);
    } else {
      DispatchesExpr(toks, p, d + 1);
    }
  }

  // ---- lists of statements ------------------------------------------------------------------------------------------

  lemma FitsSCons(h: Stmt, t: Stmts, d: nat)
    ensures FitsAll(SCons(h, t), d) <==> FitsS(h, d) && FitsAll(t, d)
  {
    hide SoundS, NeedS;
  }

  lemma ConsStep(toks: Toks, p: nat, d: nat, top: bool, h: Stmt, t: Stmts, m: nat, q: nat)
    requires p < m <= q <= |toks| && At(toks, p) != T.Eof && At(toks, p) != T.RBrace
    requires StmtDone(toks, p, d, h, m) && AllDone(toks, m, d, top, t, q)
    requires Follows(At(toks, m))
    ensures AllDone(toks, p, d, top, SCons(h, t), q)
  {
    hide StatementOf, FitsS, FitsAll, Follows;
    FitsSCons(h, t, d);
  }
}
