/** The nesting limit only ever refuses: what is accepted at one depth is read to the same
    tree and the same position at every shallower one. */
module Depths {
  import opened Ast
  import opened Grammar
  import T = Tokens

  lemma {:induction false} PrimaryShallower(toks: Toks, p: nat, d: nat, d': nat)
    requires p <= |toks| && d' <= d && Primary(toks, p, d).Ok?
    ensures Primary(toks, p, d') == Primary(toks, p, d)
    decreases |toks| - p, 4
  {
    match At(toks, p)
    case LParen => ExprShallower(toks, p + 1, d, d', 1);
    case LBracket => ItemsShallower(toks, p + 1, d, d', T.RBracket);
    case LBrace => PairsShallower(toks, p + 1, d, d');
    case KwFn => LambdaShallower(toks, p, d, d');
    case _ =>
  }

  lemma {:induction false} LambdaShallower(toks: Toks, p: nat, d: nat, d': nat)
    requires p < |toks| && d' <= d && LambdaOf(toks, p, d).Ok?
    ensures LambdaOf(toks, p, d') == LambdaOf(toks, p, d)
    decreases |toks| - p, 3
  {
    BlockShallower(toks, Params(toks, p + 2).next, d, d');
  }

  lemma {:induction false} ItemsShallower(toks: Toks, p: nat, d: nat, d': nat, close: T.Token)
    requires p <= |toks| && close != T.Eof && d' <= d && Items(toks, p, d, close).Ok?
    ensures Items(toks, p, d', close) == Items(toks, p, d, close)
    decreases |toks| - p, 8
  {
    if At(toks, p) != close {
      ElementsShallower(toks, p, d, d', close);
    }
  }

  lemma {:induction false} ElementsShallower(toks: Toks, p: nat, d: nat, d': nat, close: T.Token)
    requires p <= |toks| && close != T.Eof && d' <= d && Elements(toks, p, d, close).Ok?
    ensures Elements(toks, p, d', close) == Elements(toks, p, d, close)
    decreases |toks| - p, 7
  {
    hide ExprOf, ShapedE, ShapedList;
    ExprShallower(toks, p, d, d', 1);
    var e := ExprOf(toks, p, d, 1);
    if At(toks, e.next) == T.Comma {
      ElementsShallower(toks, e.next + 1, d, d', close);
    }
  }

  lemma {:induction false} PairsShallower(toks: Toks, p: nat, d: nat, d': nat)
    requires p <= |toks| && d' <= d && Pairs(toks, p, d).Ok?
    ensures Pairs(toks, p, d') == Pairs(toks, p, d)
    decreases |toks| - p, 8
  {
    if At(toks, p) != T.RBrace {
      PairsFromShallower(toks, p, d, d');
    }
  }

  lemma {:induction false} PairsFromShallower(toks: Toks, p: nat, d: nat, d': nat)
    requires p <= |toks| && d' <= d && PairsFrom(toks, p, d).Ok?
    ensures PairsFrom(toks, p, d') == PairsFrom(toks, p, d)
    decreases |toks| - p, 7, 1
  {
    PairShallower(toks, p, d, d');
    var kv := PairOf(toks, p, d);
    if At(toks, kv.next) == T.Comma {
      PairsFromShallower(toks, kv.next + 1, d, d');
    }
  }

  lemma {:induction false} PairShallower(toks: Toks, p: nat, d: nat, d': nat)
    requires p <= |toks| && d' <= d && PairOf(toks, p, d).Ok?
    ensures PairOf(toks, p, d') == PairOf(toks, p, d)
    decreases |toks| - p, 7, 0
  {
    ExprShallower(toks, p, d, d', 1);
    ExprShallower(toks, ExprOf(toks, p, d, 1).next + 1, d, d', 1);
  }

  lemma {:induction false} PostfixShallower(toks: Toks, p: nat, d: nat, d': nat, base: Expr)
    requires p <= |toks| && ShapedE(base) && d' <= d && Postfix(toks, p, d, base).Ok?
    ensures Postfix(toks, p, d', base) == Postfix(toks, p, d, base)
    decreases |toks| - p, 9
  {
    hide ExprOf, Items;
    match At(toks, p)
    case LBracket =>
      ExprShallower(toks, p + 1, d, d', 1);
      var i := ExprOf(toks, p + 1, d, 1);
      PostfixShallower(toks, i.next + 1, d, d', Index(base, i.v));
    case Dot => PostfixShallower(toks, p + 2, d, d', Field(base, At(toks, p + 1).name));
    case LParen =>
      ItemsShallower(toks, p + 1, d, d', T.RParen);
      var a := Items(toks, p + 1, d, T.RParen);
      PostfixShallower(toks, a.next, d, d', Call(base.name, a.v));
    case _ =>
  }

  lemma {:induction false} UnaryShallower(toks: Toks, p: nat, d: nat, d': nat)
    requires p <= |toks| && d' <= d && UnaryOf(toks, p, d).Ok?
    ensures UnaryOf(toks, p, d') == UnaryOf(toks, p, d)
    decreases |toks| - p, 5
  {
    hide Postfix, Primary, ShapedE;
    match T.PrefixOf(At(toks, p))
    case Prefixed(op) => UnaryShallower(toks, p + 1, d + 1, d' + 1);
    case NotPrefix =>
      PrimaryShallower(toks, p, d + 1, d' + 1);
      var b := Primary(toks, p, d + 1);
      PostfixShallower(toks, b.next, d + 1, d' + 1, b.v);
  }

  lemma {:induction false} ClimbShallower(toks: Toks, p: nat, d: nat, d': nat, min: nat, left: Expr)
    requires p <= |toks| && ShapedE(left) && d' <= d && Climb(toks, p, d, min, left).Ok?
    ensures Climb(toks, p, d', min, left) == Climb(toks, p, d, min, left)
    decreases |toks| - p, 9
  {
    var k := T.BinPrec(At(toks, p));
    if k != 0 && k >= min {
      ExprShallower(toks, p + 1, d, d', k + 1);
      var r := ExprOf(toks, p + 1, d, k + 1);
      ClimbShallower(toks, r.next, d, d', min, Join(T.InfixOf(At(toks, p)), left, r.v));
    }
  }

  lemma {:induction false} ExprShallower(toks: Toks, p: nat, d: nat, d': nat, min: nat)
    requires p <= |toks| && d' <= d && ExprOf(toks, p, d, min).Ok?
    ensures ExprOf(toks, p, d', min) == ExprOf(toks, p, d, min)
    decreases |toks| - p, 6
  {
    hide Climb, UnaryOf, ShapedE;
    UnaryShallower(toks, p, d + 1, d' + 1);
    var l := UnaryOf(toks, p, d + 1);
    ClimbShallower(toks, l.next, d + 1, d' + 1, min, l.v);
  }

  lemma {:induction false} AssignmentShallower(toks: Toks, p: nat, d: nat, d': nat)
    requires p <= |toks| && d' <= d && AssignmentOf(toks, p, d).Ok?
    ensures AssignmentOf(toks, p, d') == AssignmentOf(toks, p, d)
    decreases |toks| - p, 7
  {
    ExprShallower(toks, p, d + 1, d' + 1, 1);
    var l := ExprOf(toks, p, d + 1, 1);
    if At(toks, l.next) == T.Assign {
      AssignmentShallower(toks, l.next + 1, d + 1, d' + 1);
    }
  }

  lemma {:induction false} BlockShallower(toks: Toks, p: nat, d: nat, d': nat)
    requires p <= |toks| && d' <= d && BlockOf(toks, p, d).Ok?
    ensures BlockOf(toks, p, d') == BlockOf(toks, p, d)
    decreases |toks| - p, 2
  {
    StatementsShallower(toks, p + 1, d, d', false);
  }

  lemma {:induction false} StatementsShallower(toks: Toks, p: nat, d: nat, d': nat, top: bool)
    requires p <= |toks| && d' <= d && Statements(toks, p, d, top).Ok?
    ensures Statements(toks, p, d', top) == Statements(toks, p, d, top)
    decreases |toks| - p, 10
  {
    if !(At(toks, p) == T.Eof || (!top && At(toks, p) == T.RBrace)) {
      StatementShallower(toks, p, d, d');
      StatementsShallower(toks, StatementOf(toks, p, d).next, d, d', top);
    }
  }

  lemma {:induction false} ConditionShallower(toks: Toks, p: nat, d: nat, d': nat)
    requires p < |toks| && d' <= d && Condition(toks, p, d).Ok?
    ensures Condition(toks, p, d') == Condition(toks, p, d)
    decreases |toks| - p, 1
  {
    AssignmentShallower(toks, p + 2, d, d');
  }

  lemma {:induction false} ChainShallower(toks: Toks, p: nat, d: nat, d': nat)
    requires p < |toks| && d' <= d && ChainOf(toks, p, d).Ok?
    ensures ChainOf(toks, p, d') == ChainOf(toks, p, d)
    decreases |toks| - p, 3
  {
    ConditionShallower(toks, p, d, d');
    var c := Condition(toks, p, d);
    BlockShallower(toks, c.next, d, d');
    ElseShallower(toks, BlockOf(toks, c.next, d).next, d, d');
  }

  lemma {:induction false} ElseShallower(toks: Toks, p: nat, d: nat, d': nat)
    requires p <= |toks| && d' <= d && ElseOf(toks, p, d).Ok?
    ensures ElseOf(toks, p, d') == ElseOf(toks, p, d)
    decreases |toks| - p, 4
  {
    match At(toks, p)
    case KwElif => ChainShallower(toks, p, d, d');
    case KwElse => BlockShallower(toks, p + 1, d, d');
    case _ =>
  }

  lemma {:induction false} WhileShallower(toks: Toks, p: nat, d: nat, d': nat)
    requires p < |toks| && d' <= d && WhileOf(toks, p, d).Ok?
    ensures WhileOf(toks, p, d') == WhileOf(toks, p, d)
    decreases |toks| - p, 3
  {
    ConditionShallower(toks, p, d, d');
    BlockShallower(toks, Condition(toks, p, d).next, d, d');
  }

  lemma {:induction false} ClauseShallower(toks: Toks, p: nat, d: nat, d': nat, stop: T.Token)
    requires p <= |toks| && stop != T.Eof && d' <= d && ClauseOf(toks, p, d, stop).Ok?
    ensures ClauseOf(toks, p, d', stop) == ClauseOf(toks, p, d, stop)
    decreases |toks| - p, 8
  {
    if At(toks, p) != stop {
      AssignmentShallower(toks, p, d, d');
    }
  }

  lemma {:induction false} ForShallower(toks: Toks, p: nat, d: nat, d': nat)
    requires p < |toks| && d' <= d && ForOf(toks, p, d).Ok?
    ensures ForOf(toks, p, d') == ForOf(toks, p, d)
    decreases |toks| - p, 3
  {
    ClauseShallower(toks, p + 2, d, d', T.Semicolon);
    var i := ClauseOf(toks, p + 2, d, T.Semicolon);
    ClauseShallower(toks, i.next, d, d', T.Semicolon);
    var t := ClauseOf(toks, i.next, d, T.Semicolon);
    ClauseShallower(toks, t.next, d, d', T.RParen);
    BlockShallower(toks, ClauseOf(toks, t.next, d, T.RParen).next, d, d');
  }

  lemma {:induction false} FnDeclShallower(toks: Toks, p: nat, d: nat, d': nat)
    requires p < |toks| && d' <= d && FnDeclOf(toks, p, d).Ok?
    ensures FnDeclOf(toks, p, d') == FnDeclOf(toks, p, d)
    decreases |toks| - p, 3
  {
    BlockShallower(toks, Params(toks, p + 3).next, d, d');
  }

  lemma {:induction false} ExprStmtShallower(toks: Toks, p: nat, d: nat, d': nat)
    requires p <= |toks| && d' <= d && ExprStmtOf(toks, p, d).Ok?
    ensures ExprStmtOf(toks, p, d') == ExprStmtOf(toks, p, d)
    decreases |toks| - p, 8, 0
  {
    AssignmentShallower(toks, p, d, d');
  }

  lemma {:induction false} StatementShallower(toks: Toks, p: nat, d: nat, d': nat)
    requires p <= |toks| && d' <= d && StatementOf(toks, p, d).Ok?
    ensures StatementOf(toks, p, d') == StatementOf(toks, p, d)
    decreases |toks| - p, 9
  {
    DispatchShallower(toks, p, d + 1, d' + 1);
  }

  lemma {:induction false} DispatchShallower(toks: Toks, p: nat, d: nat, d': nat)
    requires p <= |toks| && d' <= d && DispatchOf(toks, p, d).Ok?
    ensures DispatchOf(toks, p, d') == DispatchOf(toks, p, d)
    decreases |toks| - p, 8, 1
  {
    match At(toks, p)
    case KwPrint => AssignmentShallower(toks, p + 1, d, d');
    case KwReturn => ClauseShallower(toks, p + 1, d, d', T.Semicolon);
    case KwIf => ChainShallower(toks, p, d, d');
    case KwWhile => WhileShallower(toks, p, d, d');
    case KwFor => ForShallower(toks, p, d, d');
    case KwFn => FnDeclShallower(toks, p, d, d');
    case LBrace => BlockShallower(toks, p, d, d');
    case KwBreak =>
    case KwContinue =>
    case _ => ExprStmtShallower(toks, p, d, d');
  }

  /** Two depths that both accept read the same operand. */
  lemma SameOperand(toks: Toks, p: nat, d: nat, d': nat)
    requires p <= |toks| && UnaryOf(toks, p, d).Ok? && UnaryOf(toks, p, d').Ok?
    ensures UnaryOf(toks, p, d) == UnaryOf(toks, p, d')
  {
    hide UnaryOf;
    if d <= d' {
      UnaryShallower(toks, p, d', d);
    } else {
      UnaryShallower(toks, p, d, d');
    }
  }
}
