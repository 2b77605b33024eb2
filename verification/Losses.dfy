/** Programs the parser accepts and the formatter's text loses. */
module Losses {
  import opened Ast
  import opened Grammar
  import opened Format
  import opened Spines
  import opened RoundExprs
  import opened RoundStmts
  import opened RoundTrip
  import T = Tokens

  // ---- long sums: read at a constant depth, written with nested parentheses --------------------

  const TERM: Expr := Ident("a")

  /** a + a + ... + a, with `n` operators. */
  function Sum(n: nat): Expr {
    if n == 0 then TERM else Binary(Add, Sum(n - 1), TERM)
  }

  function SumText(n: nat): Toks {
    seq(2 * n + 3, i requires 0 <= i < 2 * n + 3 =>
      if i == 2 * n + 1 then T.Semicolon else if i == 2 * n + 2 then T.Eof else if i % 2 == 0 then T.Ident("a") else T.Plus)
  }

  function SumProgram(n: nat): Stmts {
    SCons(ExprStmt(Sum(n)), SNil)
  }

  lemma {:induction false} SumShaped(n: nat)
    ensures ShapedE(Sum(n)) && SoundE(Sum(n)) && First(Sum(n)) in {T.Ident("a"), T.LParen} && !Sum(n).Assign? && !Sum(n).Lambda?
    ensures FirstOperand(Sum(n)) in {T.Ident("a"), T.LParen}
  {
    if n > 0 { SumShaped(n - 1); }
  }

  /** Two levels for every operator. */
  lemma {:induction false} SumNeeds(n: nat)
    ensures NeedE(Sum(n)) == if n == 0 then 2 else 2 * n + 1
  {
    if n > 1 { SumNeeds(n - 1); }
  }

  lemma OneTerm(n: nat, p: nat, d: nat, min: nat)
    requires p <= 2 * n && p % 2 == 0 && d + 2 <= MAX_DEPTH && min > 9
    ensures UnaryOf(SumText(n), p, d) == Ok(TERM, p + 1) && ExprOf(SumText(n), p, d, min) == Ok(TERM, p + 1)
  {
    hide SumText;
    SumTextAt(n, p);
    SumTextAt(n, p + 1);
    assert UnaryOf(SumText(n), p, d) == Ok(TERM, p + 1);
    assert UnaryOf(SumText(n), p, d + 1) == Ok(TERM, p + 1);
  }

  lemma SumTextAt(n: nat, i: nat)
    requires i < 2 * n + 3
    ensures |SumText(n)| == 2 * n + 3
    ensures At(SumText(n), i) ==
            if i == 2 * n + 1 then T.Semicolon else if i == 2 * n + 2 then T.Eof else if i % 2 == 0 then T.Ident("a") else T.Plus
  {
  }

  lemma {:induction false} SumClimbs(n: nat, k: nat, d: nat)
    requires k <= n && d + 2 <= MAX_DEPTH
    ensures |SumText(n)| == 2 * n + 3 && ShapedE(Sum(k))
    ensures Climb(SumText(n), 2 * k + 1, d, 1, Sum(k)) == Ok(Sum(n), 2 * n + 1)
    decreases n - k
  {
    hide SumText, ExprOf, UnaryOf;
    SumTextAt(n, 2 * k + 1);
    SumShaped(k);
    if k < n {
      assert (2 * k + 1) % 2 == 1 && (2 * k + 2) % 2 == 0;
      OneTerm(n, 2 * k + 2, d, 10);
      SumClimbs(n, k + 1, d);
    }
  }

  /** The parser reads sums of any length. */
  lemma SumParses(n: nat)
    ensures ProgramOf(SumText(n)) == Ok(SumProgram(n), 2 * n + 2)
  {
    hide SumText, UnaryOf, Climb, ExprOf, AssignmentOf;
    SumTextAt(n, 0);
    SumTextAt(n, 2 * n + 1);
    SumTextAt(n, 2 * n + 2);
    OneTerm(n, 0, 3, 10);
    SumClimbs(n, 0, 3);
    SumAssigns(n);
    assert ExprStmtOf(SumText(n), 0, 1) == Ok(ExprStmt(Sum(n)), 2 * n + 2);
    assert StatementOf(SumText(n), 0, 0) == Ok(ExprStmt(Sum(n)), 2 * n + 2);
    assert Statements(SumText(n), 2 * n + 2, 0, true) == Ok(SNil, 2 * n + 2);
  }

  lemma SumAssigns(n: nat)
    requires |SumText(n)| == 2 * n + 3 && At(SumText(n), 2 * n + 1) == T.Semicolon
    requires UnaryOf(SumText(n), 0, 3) == Ok(TERM, 1) && Climb(SumText(n), 1, 3, 1, Sum(0)) == Ok(Sum(n), 2 * n + 1)
    ensures AssignmentOf(SumText(n), 0, 1) == Ok(Sum(n), 2 * n + 1)
  {
    hide SumText, UnaryOf, Climb;
    assert ExprOf(SumText(n), 0, 2, 1) == Ok(Sum(n), 2 * n + 1);
  }

  lemma OneLine(e: Expr)
    requires !e.Assign?
    ensures NeedAll(SCons(ExprStmt(e), SNil)) == NeedE(e) + 2
  {
    hide NeedE;
    assert NeedA(e) == 1 + NeedE(e);
    assert NeedS(ExprStmt(e)) == 1 + NeedA(e);
    assert NeedAll(SCons(ExprStmt(e), SNil)) == Max(NeedS(ExprStmt(e)), NeedAll(SNil));
  }

  /** Its formatted text is read back up to 98 operators, and refused beyond. */
  lemma LongSums(n: nat)
    ensures ProgramOf(SumText(n)) == Ok(SumProgram(n), 2 * n + 2)
    ensures var r := ProgramOf(WrittenAll(SumProgram(n)) + [T.Eof]);
            (r.Ok? && r.v == SumProgram(n)) <==> n <= 98
  {
    hide SumText, Statements, Sum, NeedE, SoundE, First;
    SumParses(n);
    SumShaped(n);
    SumNeeds(n);
    FormatThenParse(SumProgram(n));
    OneLine(Sum(n));
  }

  // ---- statements that start like something else --------------------------------------------

  /** An operand and nothing more. */
  lemma Lone(toks: Toks, p: nat, d: nat, min: nat, e: Expr, q: nat)
    requires p <= |toks| && d < MAX_DEPTH && UnaryOf(toks, p, d + 1) == Ok(e, q) && T.BinPrec(At(toks, q)) == 0
    ensures ExprOf(toks, p, d, min) == Ok(e, q)
  {
    hide UnaryOf;
  }

  /** ({}); */
  function Braced(): Stmts {
    SCons(ExprStmt(MapLit(MNil)), SNil)
  }

  function BracedText(): Toks {
    [T.LParen, T.LBrace, T.RBrace, T.RParen, T.Semicolon, T.Eof]
  }

  /** A map literal as a statement is printed like an empty block with a semicolon after it,
      which the parser refuses: no statement starts with a semicolon. */
  lemma BracedIsLost()
    ensures ShapedAll(Braced()) && ProgramOf(BracedText()) == Ok(Braced(), 5)
    ensures WrittenAll(Braced()) + [T.Eof] == [T.LBrace, T.RBrace, T.Semicolon, T.Eof]
    ensures ProgramOf(WrittenAll(Braced()) + [T.Eof]).Fail?
  {
    BracedParses();
    BracedPrints();
    BracedRefused();
  }

  lemma BracedParses()
    ensures ProgramOf(BracedText()) == Ok(Braced(), 5)
  {
    hide UnaryOf, ExprOf, Climb, Primary, Postfix;
    var t := BracedText();
    EmptyMap(t);
    Lone(t, 1, 4, 1, MapLit(MNil), 3);
    ParensParse(t);
    Lone(t, 0, 2, 1, MapLit(MNil), 4);
    assert AssignmentOf(t, 0, 1) == Ok(MapLit(MNil), 4);
    assert StatementOf(t, 0, 0) == Ok(Braced().head, 5);
    assert Statements(t, 5, 0, true) == Ok(SNil, 5);
  }

  lemma EmptyMap(t: Toks)
    requires t == BracedText()
    ensures UnaryOf(t, 1, 5) == Ok(MapLit(MNil), 3)
  {
    assert Primary(t, 1, 6) == Ok(MapLit(MNil), 3) && Postfix(t, 3, 6, MapLit(MNil)) == Ok(MapLit(MNil), 3);
  }

  lemma ParensParse(t: Toks)
    requires t == BracedText() && ExprOf(t, 1, 4, 1) == Ok(MapLit(MNil), 3)
    ensures UnaryOf(t, 0, 3) == Ok(MapLit(MNil), 4)
  {
    hide ExprOf;
    assert Primary(t, 0, 4) == Ok(MapLit(MNil), 4);
    assert Postfix(t, 4, 4, MapLit(MNil)) == Ok(MapLit(MNil), 4);
  }

  lemma BracedPrints()
    ensures WrittenAll(Braced()) + [T.Eof] == [T.LBrace, T.RBrace, T.Semicolon, T.Eof]
  {
  }

  lemma BracedRefused()
    ensures ProgramOf([T.LBrace, T.RBrace, T.Semicolon, T.Eof]).Fail?
  {
    var t := [T.LBrace, T.RBrace, T.Semicolon, T.Eof];
    assert Statements(t, 1, 1, false) == Ok(SNil, 1);
    assert StatementOf(t, 0, 0) == Ok(Block(SNil), 2);
    assert UnaryOf(t, 2, 3).Fail?;
    assert AssignmentOf(t, 2, 1).Fail?;
    assert StatementOf(t, 2, 0).Fail?;
    assert Statements(t, 2, 0, true).Fail?;
  }

  /** (fn() {}); */
  function Function(): Stmts {
    SCons(ExprStmt(Lambda(0, [], SNil)), SNil)
  }

  function FunctionText(): Toks {
    [T.LParen, T.KwFn, T.LParen, T.RParen, T.LBrace, T.RBrace, T.RParen, T.Semicolon, T.Eof]
  }

  /** A function literal as a statement is printed without parentheses, where the parser takes
      it for a declaration and misses the name. */
  lemma FunctionIsLost()
    ensures ShapedAll(Function()) && ProgramOf(FunctionText()) == Ok(Function(), 8)
    ensures WrittenAll(Function()) + [T.Eof] == [T.KwFn, T.LParen, T.RParen, T.LBrace, T.RBrace, T.Eof]
    ensures ProgramOf(WrittenAll(Function()) + [T.Eof]).Fail?
  {
    FunctionParses();
    FunctionPrints();
    FunctionRefused();
  }

  lemma FunctionParses()
    ensures ProgramOf(FunctionText()) == Ok(Function(), 8)
  {
    hide UnaryOf, ExprOf, Climb, Primary, Postfix;
    var t := FunctionText();
    FunctionValue(t);
    Lone(t, 1, 4, 1, Lambda(0, [], SNil), 6);
    FunctionParens(t);
    Lone(t, 0, 2, 1, Lambda(0, [], SNil), 7);
    assert AssignmentOf(t, 0, 1) == Ok(Lambda(0, [], SNil), 7);
    assert StatementOf(t, 0, 0) == Ok(Function().head, 8);
    assert Statements(t, 8, 0, true) == Ok(SNil, 8);
  }

  lemma FunctionValue(t: Toks)
    requires t == FunctionText()
    ensures UnaryOf(t, 1, 5) == Ok(Lambda(0, [], SNil), 6)
  {
    EmptyBody(t);
    hide LambdaOf, Statements, ExprOf, Items, Pairs;
    assert Primary(t, 1, 6) == Ok(Lambda(0, [], SNil), 6) && Postfix(t, 6, 6, Lambda(0, [], SNil)) == Ok(Lambda(0, [], SNil), 6);
  }

  lemma EmptyBody(t: Toks)
    requires t == FunctionText()
    ensures LambdaOf(t, 1, 6) == Ok(Lambda(0, [], SNil), 6)
  {
    hide StatementOf;
    assert Params(t, 3) == Ok([], 4);
    assert Statements(t, 5, 6, false) == Ok(SNil, 5);
    assert BlockOf(t, 4, 6) == Ok(SNil, 6);
  }

  lemma FunctionParens(t: Toks)
    requires t == FunctionText() && ExprOf(t, 1, 4, 1) == Ok(Lambda(0, [], SNil), 6)
    ensures UnaryOf(t, 0, 3) == Ok(Lambda(0, [], SNil), 7)
  {
    hide ExprOf;
    assert Primary(t, 0, 4) == Ok(Lambda(0, [], SNil), 7);
    assert Postfix(t, 7, 4, Lambda(0, [], SNil)) == Ok(Lambda(0, [], SNil), 7);
  }

  lemma FunctionPrints()
    ensures WrittenAll(Function()) + [T.Eof] == [T.KwFn, T.LParen, T.RParen, T.LBrace, T.RBrace, T.Eof]
  {
  }

  lemma FunctionRefused()
    ensures ProgramOf([T.KwFn, T.LParen, T.RParen, T.LBrace, T.RBrace, T.Eof]).Fail?
  {
    var t := [T.KwFn, T.LParen, T.RParen, T.LBrace, T.RBrace, T.Eof];
    assert FnDeclOf(t, 0, 1).Fail?;
    assert StatementOf(t, 0, 0).Fail?;
  }
}
