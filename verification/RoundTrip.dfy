/** The formatter and the parser are inverses exactly on the programs whose text fits the
    depth limit and is sound. */
module RoundTrip {
  import opened Ast
  import opened Grammar
  import opened Format
  import opened Spines
  import opened RoundExprs
  import opened RoundStmts
  import T = Tokens

  /** The tokens from `p` on are `s`. */
  predicate Reads(toks: Toks, p: nat, s: Toks) {
    p + |s| <= |toks| && toks[p..p + |s|] == s
  }

  lemma Split(toks: Toks, p: nat, a: Toks, b: Toks) returns (m: nat)
    requires Reads(toks, p, a + b)
    ensures m == p + |a| && m + |b| == p + |a + b| && Reads(toks, p, a) && Reads(toks, m, b)
  {
    m := p + |a|;
    var s := toks[p..p + |a + b|];
    assert s[..|a|] == a && s[|a|..] == b;
    assert toks[p..m] == s[..|a|] && toks[m..m + |b|] == s[|a|..];
  }

  lemma ReadsAt(toks: Toks, p: nat, s: Toks, i: nat)
    requires Reads(toks, p, s) && i < |s|
    ensures p + i < |toks| && At(toks, p + i) == s[i]
  {
    assert toks[p + i] == toks[p..p + |s|][i];
  }

  lemma ReadsFits(toks: Toks, p: nat, s: Toks)
    requires Reads(toks, p, s)
    ensures p + |s| <= |toks|
  {
  }

  lemma Token(toks: Toks, p: nat, t: T.Token)
    requires Reads(toks, p, [t])
    ensures p < |toks| && At(toks, p) == t
  {
    ReadsAt(toks, p, [t], 0);
  }

  /** a t b */
  lemma Between(toks: Toks, p: nat, a: Toks, t: T.Token, b: Toks) returns (m: nat)
    requires Reads(toks, p, a + [t] + b)
    ensures m == p + |a| && m < |toks| && m + 1 + |b| == p + |a + [t] + b|
    ensures Reads(toks, p, a) && At(toks, m) == t && Reads(toks, m + 1, b)
  {
    var n := Split(toks, p, a + [t], b);
    m := Split(toks, p, a, [t]);
    Token(toks, m, t);
  }

  /** t a u */
  lemma Around(toks: Toks, p: nat, t: T.Token, a: Toks, u: T.Token) returns (m: nat)
    requires Reads(toks, p, [t] + a + [u])
    ensures m == p + 1 + |a| && m < |toks| && m + 1 == p + |[t] + a + [u]|
    ensures At(toks, p) == t && Reads(toks, p + 1, a) && At(toks, m) == u
  {
    m := Split(toks, p, [t] + a, [u]);
    Token(toks, m, u);
    var n := Split(toks, p, [t], a);
    Token(toks, p, t);
  }

  /** t a */
  lemma After(toks: Toks, p: nat, t: T.Token, a: Toks)
    requires Reads(toks, p, [t] + a)
    ensures p < |toks| && p + 1 + |a| == p + |[t] + a| && At(toks, p) == t && Reads(toks, p + 1, a)
  {
    var m := Split(toks, p, [t], a);
    Token(toks, p, t);
  }

  lemma Opening(toks: Toks, p: nat, e: Expr)
    requires Reads(toks, p, Written(e))
    ensures p < |toks| && p < p + |Written(e)| && At(toks, p) == First(e) && Opens(First(e))
  {
    FirstWritten(e);
    FirstOpens(e);
    ReadsAt(toks, p, Written(e), 0);
  }

  // ---- expressions --------------------------------------------------------------------------------

  lemma {:induction false} OperandRound(toks: Toks, p: nat, d: nat, x: Expr, q: nat)
    requires Reads(toks, p, Operand(x)) && ShapedE(x) && q == p + |Operand(x)|
    ensures OperandDone(toks, p, d, x, q)
    decreases x, if Compound(x) then 6 else 2
  {
    hide OperandDone, RightDone, ExprDone, ListDone, ElementsDone, PairsDone, BlockDone, AssignDone, ClauseDone, CondDone, StmtDone, AllDone, ChainDone, ElseDone, DispatchDone;
    match x
    case Binary(_, _, _) => ParensRound(toks, p, d, x, q);
    case Logical(_, _, _) => ParensRound(toks, p, d, x, q);
    case Unary(_, _) => ParensRound(toks, p, d, x, q);
    case Index(_, _) => IndexRound(toks, p, d, x, q);
    case Field(_, _) => FieldRound(toks, p, d, x, q);
    case Call(_, _) => CallRound(toks, p, d, x, q);
    case ArrayLit(_) => ArrayRound(toks, p, d, x, q);
    case MapLit(_) => MapRound(toks, p, d, x, q);
    case Lambda(_, _, _) => LambdaRound(toks, p, d, x, q);
    case _ =>
      Opening(toks, p, x);
      LeafStep(toks, p, d, x);
  }

  lemma {:induction false} ParensRound(toks: Toks, p: nat, d: nat, x: Expr, q: nat)
    requires Reads(toks, p, Operand(x)) && ShapedE(x) && q == p + |Operand(x)| && Compound(x)
    ensures OperandDone(toks, p, d, x, q)
    decreases x, 5
  {
    hide OperandDone, RightDone, ExprDone, ListDone, ElementsDone, PairsDone, BlockDone, AssignDone, ClauseDone, CondDone, StmtDone, AllDone, ChainDone, ElseDone, DispatchDone;
    var m := Around(toks, p, T.LParen, Written(x), T.RParen);
    ExprRound(toks, p + 1, d + 1, x, m);
    Opening(toks, p + 1, x);
    ParensStep(toks, p, d, x, q);
  }

  lemma {:induction false} IndexRound(toks: Toks, p: nat, d: nat, x: Expr, q: nat)
    requires Reads(toks, p, Operand(x)) && ShapedE(x) && q == p + |Operand(x)| && x.Index?
    ensures OperandDone(toks, p, d, x, q)
    decreases x, 1
  {
    hide OperandDone, RightDone, ExprDone, ListDone, ElementsDone, PairsDone, BlockDone, AssignDone, ClauseDone, CondDone, StmtDone, AllDone, ChainDone, ElseDone, DispatchDone;
    var c, i := x.c, x.ix;
    assert Operand(x) == Operand(c) + [T.LBracket] + Written(i) + [T.RBracket];
    var n := Split(toks, p, Operand(c) + [T.LBracket] + Written(i), [T.RBracket]);
    Token(toks, n, T.RBracket);
    var m := Between(toks, p, Operand(c), T.LBracket, Written(i));
    Opening(toks, m + 1, i);
    OperandRound(toks, p, d, c, m);
    ExprRound(toks, m + 1, d + 1, i, n);
    IndexStep(toks, p, d, c, i, m, q);
  }

  lemma {:induction false} FieldRound(toks: Toks, p: nat, d: nat, x: Expr, q: nat)
    requires Reads(toks, p, Operand(x)) && ShapedE(x) && q == p + |Operand(x)| && x.Field?
    ensures OperandDone(toks, p, d, x, q)
    decreases x, 1
  {
    hide OperandDone, RightDone, ExprDone, ListDone, ElementsDone, PairsDone, BlockDone, AssignDone, ClauseDone, CondDone, StmtDone, AllDone, ChainDone, ElseDone, DispatchDone;
    var c, name := x.c, x.name;
    assert Operand(x) == Operand(c) + [T.Dot, T.Ident(name)];
    var m := Split(toks, p, Operand(c), [T.Dot, T.Ident(name)]);
    ReadsAt(toks, m, [T.Dot, T.Ident(name)], 0);
    ReadsAt(toks, m, [T.Dot, T.Ident(name)], 1);
    OperandRound(toks, p, d, c, m);
    FieldStep(toks, p, d, c, name, m);
  }

  lemma {:induction false} CallRound(toks: Toks, p: nat, d: nat, x: Expr, q: nat)
    requires Reads(toks, p, Operand(x)) && ShapedE(x) && q == p + |Operand(x)| && x.Call?
    ensures OperandDone(toks, p, d, x, q)
    decreases x, 1
  {
    hide OperandDone, RightDone, ExprDone, ListDone, ElementsDone, PairsDone, BlockDone, AssignDone, ClauseDone, CondDone, StmtDone, AllDone, ChainDone, ElseDone, DispatchDone;
    var name, args := x.name, x.args;
    assert Operand(x) == [T.Ident(name), T.LParen] + WrittenList(args) + [T.RParen];
    assert Operand(x) == [T.Ident(name)] + ([T.LParen] + WrittenList(args) + [T.RParen]);
    After(toks, p, T.Ident(name), [T.LParen] + WrittenList(args) + [T.RParen]);
    var m := Around(toks, p + 1, T.LParen, WrittenList(args), T.RParen);
    if d < MAX_DEPTH { ListRound(toks, p + 2, d + 1, args, T.RParen, m); }
    CallStep(toks, p, d, name, args, q);
  }

  lemma {:induction false} ArrayRound(toks: Toks, p: nat, d: nat, x: Expr, q: nat)
    requires Reads(toks, p, Operand(x)) && ShapedE(x) && q == p + |Operand(x)| && x.ArrayLit?
    ensures OperandDone(toks, p, d, x, q)
    decreases x, 1
  {
    hide OperandDone, RightDone, ExprDone, ListDone, ElementsDone, PairsDone, BlockDone, AssignDone, ClauseDone, CondDone, StmtDone, AllDone, ChainDone, ElseDone, DispatchDone;
    var m := Around(toks, p, T.LBracket, WrittenList(x.elems), T.RBracket);
    if d < MAX_DEPTH { ListRound(toks, p + 1, d + 1, x.elems, T.RBracket, m); }
    ArrayStep(toks, p, d, x.elems, q);
  }

  lemma {:induction false} MapRound(toks: Toks, p: nat, d: nat, x: Expr, q: nat)
    requires Reads(toks, p, Operand(x)) && ShapedE(x) && q == p + |Operand(x)| && x.MapLit?
    ensures OperandDone(toks, p, d, x, q)
    decreases x, 1
  {
    hide OperandDone, RightDone, ExprDone, ListDone, ElementsDone, PairsDone, BlockDone, AssignDone, ClauseDone, CondDone, StmtDone, AllDone, ChainDone, ElseDone, DispatchDone, Pairs, WrittenPairs, ShapedEntries, FitsPairs;
    assert Operand(x) == [T.LBrace] + WrittenPairs(x.entries) + [T.RBrace] && ShapedEntries(x.entries);
    var m := Around(toks, p, T.LBrace, WrittenPairs(x.entries), T.RBrace);
    if d < MAX_DEPTH { MapListRound(toks, p + 1, d + 1, x.entries, m); }
    MapStep(toks, p, d, x.entries, q);
  }

  lemma {:induction false} LambdaRound(toks: Toks, p: nat, d: nat, x: Expr, q: nat)
    requires Reads(toks, p, Operand(x)) && ShapedE(x) && q == p + |Operand(x)| && x.Lambda?
    ensures OperandDone(toks, p, d, x, q)
    decreases x, 1
  {
    hide OperandDone, RightDone, ExprDone, ListDone, ElementsDone, PairsDone, BlockDone, AssignDone, ClauseDone, CondDone, StmtDone, AllDone, ChainDone, ElseDone, DispatchDone;
    After(toks, p, T.KwFn, WrittenFn(x.params, x.body));
    var m := FnParts(toks, p + 1, x.params, x.body);
    if d < MAX_DEPTH { BlockRound(toks, m, d + 1, x.body, q); }
    LambdaStep(toks, p, d, x.params, x.body, m, q);
  }

  lemma FnParts(toks: Toks, p: nat, params: seq<string>, body: Stmts) returns (m: nat)
    requires Reads(toks, p, WrittenFn(params, body))
    ensures p + 1 < m < p + |WrittenFn(params, body)| <= |toks| && At(toks, p) == T.LParen && Params(toks, p + 1) == Ok(params, m)
    ensures Reads(toks, m, WrittenBlock(body)) && m + |WrittenBlock(body)| == p + |WrittenFn(params, body)|
  {
    hide Params, Names, WrittenNames, WrittenAll;
    var head := [T.LParen] + WrittenNames(params) + [T.RParen];
    m := Split(toks, p, head, WrittenBlock(body));
    var n := Around(toks, p, T.LParen, WrittenNames(params), T.RParen);
    ParamsRound(toks, p + 1, params, n);
  }

  lemma ParamsRound(toks: Toks, p: nat, ps: seq<string>, q: nat)
    requires Reads(toks, p, WrittenNames(ps)) && q == p + |WrittenNames(ps)| && q < |toks| && At(toks, q) == T.RParen
    ensures Params(toks, p) == Ok(ps, q + 1)
  {
    if ps != [] {
      NamesRound(toks, p, ps, q);
      ReadsAt(toks, p, WrittenNames(ps), 0);
    }
  }

  lemma {:induction false} NamesRound(toks: Toks, p: nat, ps: seq<string>, q: nat)
    requires ps != [] && Reads(toks, p, WrittenNames(ps)) && q == p + |WrittenNames(ps)| && q < |toks| && At(toks, q) == T.RParen
    ensures Names(toks, p) == Ok(ps, q + 1)
    decreases |ps|
  {
    var tail := ps[1..];
    ReadsAt(toks, p, WrittenNames(ps), 0);
    if |ps| == 1 {
      assert ps == [ps[0]];
    } else {
      assert WrittenNames(ps) == [T.Ident(ps[0]), T.Comma] + WrittenNames(tail);
      ReadsAt(toks, p, WrittenNames(ps), 1);
      var m := Split(toks, p, [T.Ident(ps[0]), T.Comma], WrittenNames(tail));
      NamesRound(toks, m, tail, q);
      assert ps == [ps[0]] + tail;
    }
  }

  lemma {:induction false} RightRound(toks: Toks, p: nat, d: nat, min: nat, x: Expr, q: nat)
    requires Reads(toks, p, Operand(x)) && ShapedE(x) && q == p + |Operand(x)|
    ensures RightDone(toks, p, d, min, x, q)
    decreases x, if Compound(x) then 7 else 3
  {
    hide OperandDone, RightDone, ExprDone, ListDone, ElementsDone, PairsDone, BlockDone, AssignDone, ClauseDone, CondDone, StmtDone, AllDone, ChainDone, ElseDone, DispatchDone;
    OperandRound(toks, p, d + 1, x, q);
    RightStep(toks, p, d, min, x, q);
  }

  lemma {:induction false} ExprRound(toks: Toks, p: nat, d: nat, e: Expr, q: nat)
    requires Reads(toks, p, Written(e)) && ShapedE(e) && q == p + |Written(e)|
    ensures ExprDone(toks, p, d, e, q)
    decreases e, 4
  {
    hide OperandDone, RightDone, ExprDone, ListDone, ElementsDone, PairsDone, BlockDone, AssignDone, ClauseDone, CondDone, StmtDone, AllDone, ChainDone, ElseDone, DispatchDone;
    match e
    case Binary(op, l, r) => JoinRound(toks, p, d, T.BinToken(op), l, r, e, q);
    case Logical(isAnd, l, r) => JoinRound(toks, p, d, T.CircuitToken(isAnd), l, r, e, q);
    case Unary(op, x) =>
      After(toks, p, T.UnToken(op), Operand(x));
      OperandRound(toks, p + 1, d + 2, x, q);
      PrefixStep(toks, p, d, op, x, q);
    case _ =>
      RightRound(toks, p, d, 1, e, q);
      PlainStep(toks, p, d, e, q);
  }

  lemma {:induction false} JoinRound(toks: Toks, p: nat, d: nat, t: T.Token, l: Expr, r: Expr, e: Expr, q: nat)
    requires !T.InfixOf(t).NotInfix? && e == Join(T.InfixOf(t), l, r) && ShapedE(l) && ShapedE(r)
    requires Reads(toks, p, Operand(l) + [t] + Operand(r)) && q == p + |Operand(l) + [t] + Operand(r)| && l < e && r < e
    ensures ShapedE(e) && ExprDone(toks, p, d, e, q)
    decreases e, 3
  {
    hide OperandDone, RightDone, ExprDone, ListDone, ElementsDone, PairsDone, BlockDone, AssignDone, ClauseDone, CondDone, StmtDone, AllDone, ChainDone, ElseDone, DispatchDone, Operand, Written, ShapedE, Join, Suffix, Reads;
    JoinShaped(T.InfixOf(t), l, r);
    InfixOnly(t);
    var m := Between(toks, p, Operand(l), t, Operand(r));
    OperandRound(toks, p, d + 1, l, m);
    RightRound(toks, m + 1, d + 1, T.BinPrec(t) + 1, r, q);
    JoinStep(toks, p, d, l, r, m, q);
  }

  lemma InfixOnly(t: T.Token)
    requires !T.InfixOf(t).NotInfix?
    ensures !Suffix(t)
  {
  }

  // ---- lists ---------------------------------------------------------------------------------------

  lemma {:induction false} ListRound(toks: Toks, p: nat, d: nat, es: Exprs, close: T.Token, q: nat)
    requires Reads(toks, p, WrittenList(es)) && ShapedList(es) && q == p + |WrittenList(es)| && q < |toks| && At(toks, q) == close
    requires close == T.RParen || close == T.RBracket
    requires d <= MAX_DEPTH
    ensures ListDone(toks, p, d, es, close, q)
    decreases es, 1
  {
    hide ExprOf, Elements;
    if es.ECons? {
      ElementsRound(toks, p, d, es, close, q);
      var m := Split(toks, p, Written(es.head), (if es.tail.ENil? then [] else [T.Comma]) + WrittenList(es.tail));
      Opening(toks, p, es.head);
    }
  }

  lemma {:induction false} ElementsRound(toks: Toks, p: nat, d: nat, es: Exprs, close: T.Token, q: nat)
    requires es.ECons? && Reads(toks, p, WrittenList(es)) && ShapedList(es) && q == p + |WrittenList(es)| && q < |toks| && At(toks, q) == close
    requires close == T.RParen || close == T.RBracket
    requires d <= MAX_DEPTH
    ensures ElementsDone(toks, p, d, es, close, q)
    decreases es, 0
  {
    hide OperandDone, RightDone, ExprDone, ListDone, ElementsDone, PairsDone, BlockDone, AssignDone, ClauseDone, CondDone, StmtDone, AllDone, ChainDone, ElseDone, DispatchDone;
    var h, t := es.head, es.tail;
    if t.ENil? {
      assert WrittenList(es) == Written(h);
      ExprRound(toks, p, d, h, q);
      LastElement(toks, p, d, h, close, q);
    } else {
      assert WrittenList(es) == Written(h) + [T.Comma] + WrittenList(t);
      var m := Between(toks, p, Written(h), T.Comma, WrittenList(t));
      ExprRound(toks, p, d, h, m);
      ElementsRound(toks, m + 1, d, t, close, q);
      NextElement(toks, p, d, h, t, close, m, q);
    }
  }

  lemma {:induction false} MapListRound(toks: Toks, p: nat, d: nat, ms: Entries, q: nat)
    requires Reads(toks, p, WrittenPairs(ms)) && ShapedEntries(ms) && q == p + |WrittenPairs(ms)| && q < |toks| && At(toks, q) == T.RBrace
    requires d <= MAX_DEPTH
    ensures if FitsPairs(ms, d) then Pairs(toks, p, d) == Ok(ms, q + 1) else Wrong(Pairs(toks, p, d), ms)
    decreases ms, 1
  {
    hide ExprOf, PairsFrom;
    if ms.MCons? {
      PairsRound(toks, p, d, ms, q);
      PairsOpen(toks, p, ms);
    }
  }

  lemma PairsOpen(toks: Toks, p: nat, ms: Entries)
    requires ms.MCons? && Reads(toks, p, WrittenPairs(ms))
    ensures At(toks, p) != T.RBrace
  {
    FirstWritten(ms.key);
    FirstOpens(ms.key);
    ReadsAt(toks, p, WrittenPairs(ms), 0);
  }

  lemma {:induction false} PairsRound(toks: Toks, p: nat, d: nat, ms: Entries, q: nat)
    requires ms.MCons? && Reads(toks, p, WrittenPairs(ms)) && ShapedEntries(ms) && q == p + |WrittenPairs(ms)| && q < |toks| && At(toks, q) == T.RBrace
    requires d <= MAX_DEPTH
    ensures PairsDone(toks, p, d, ms, q)
    decreases ms, 0, 1
  {
    hide OperandDone, RightDone, ExprDone, ListDone, ElementsDone, PairsDone, BlockDone, AssignDone, ClauseDone, CondDone, StmtDone, AllDone, ChainDone, ElseDone, DispatchDone;
    if ms.rest.MNil? { LastPairRound(toks, p, d, ms, q); } else { NextPairRound(toks, p, d, ms, q); }
  }

  lemma {:induction false} LastPairRound(toks: Toks, p: nat, d: nat, ms: Entries, q: nat)
    requires ms.MCons? && ms.rest.MNil? && Reads(toks, p, WrittenPairs(ms)) && ShapedEntries(ms)
    requires q == p + |WrittenPairs(ms)| && q < |toks| && At(toks, q) == T.RBrace && d <= MAX_DEPTH
    ensures PairsDone(toks, p, d, ms, q)
    decreases ms, 0, 0
  {
    hide OperandDone, RightDone, ExprDone, ListDone, ElementsDone, PairsDone, BlockDone, AssignDone, ClauseDone, CondDone, StmtDone, AllDone, ChainDone, ElseDone, DispatchDone;
    var k, v := ms.key, ms.val;
    assert WrittenPairs(ms) == Written(k) + [T.Assign] + Written(v);
    var m := Between(toks, p, Written(k), T.Assign, Written(v));
    ExprRound(toks, p, d, k, m);
    ExprRound(toks, m + 1, d, v, q);
    Opening(toks, m + 1, v);
    LastPair(toks, p, d, k, v, m, q);
  }

  lemma {:induction false} NextPairRound(toks: Toks, p: nat, d: nat, ms: Entries, q: nat)
    requires ms.MCons? && ms.rest.MCons? && Reads(toks, p, WrittenPairs(ms)) && ShapedEntries(ms)
    requires q == p + |WrittenPairs(ms)| && q < |toks| && At(toks, q) == T.RBrace && d <= MAX_DEPTH
    ensures PairsDone(toks, p, d, ms, q)
    decreases ms, 0, 0
  {
    hide OperandDone, RightDone, ExprDone, ListDone, ElementsDone, PairsDone, BlockDone, AssignDone, ClauseDone, CondDone, StmtDone, AllDone, ChainDone, ElseDone, DispatchDone;
    var k, v, t := ms.key, ms.val, ms.rest;
    assert WrittenPairs(ms) == Written(k) + [T.Assign] + Written(v) + [T.Comma] + WrittenPairs(t);
    var n := Between(toks, p, Written(k) + [T.Assign] + Written(v), T.Comma, WrittenPairs(t));
    var m := Between(toks, p, Written(k), T.Assign, Written(v));
    ExprRound(toks, p, d, k, m);
    ExprRound(toks, m + 1, d, v, n);
    Opening(toks, m + 1, v);
    PairsRound(toks, n + 1, d, t, q);
    NextPair(toks, p, d, k, v, t, m, n, q);
  }

  // ---- statements ---------------------------------------------------------------------------------------

  lemma {:induction false} AssignRound(toks: Toks, p: nat, d: nat, e: Expr, q: nat)
    requires Reads(toks, p, Written(e)) && ShapedA(e) && q == p + |Written(e)|
    ensures AssignDone(toks, p, d, e, q)
    decreases e, 8
  {
    hide OperandDone, RightDone, ExprDone, ListDone, ElementsDone, PairsDone, BlockDone, AssignDone, ClauseDone, CondDone, StmtDone, AllDone, ChainDone, ElseDone, DispatchDone;
    if e.Assign? {
      var m := Between(toks, p, Written(e.target), T.Assign, Written(e.value));
      ExprRound(toks, p, d + 1, e.target, m);
      AssignRound(toks, m + 1, d + 1, e.value, q);
      AssignStep(toks, p, d, e.target, e.value, m, q);
    } else {
      ExprRound(toks, p, d + 1, e, q);
      BareStep(toks, p, d, e, q);
    }
  }

  lemma {:induction false} ClauseRound(toks: Toks, p: nat, d: nat, o: OptExpr, stop: T.Token, q: nat)
    requires Reads(toks, p, WrittenOpt(o, stop)) && ShapedOpt(o) && q == p + |WrittenOpt(o, stop)| && d <= MAX_DEPTH
    requires stop == T.Semicolon || stop == T.RParen
    ensures p < q <= |toks| && ClauseDone(toks, p, d, o, stop, q)
    decreases o
  {
    hide AssignDone;
    match o
    case Absent => Token(toks, p, stop);
    case Present(e) =>
      var m := Split(toks, p, Written(e), [stop]);
      Token(toks, m, stop);
      AssignRound(toks, p, d, e, m);
      Opening(toks, p, e);
      ClauseStep(toks, p, d, e, stop, q);
  }

  lemma {:induction false} LinkRound(toks: Toks, p: nat, d: nat, cond: Expr, body: Toks) returns (m: nat)
    requires p < |toks| && Reads(toks, p + 1, Link(Written(cond), body)) && ShapedA(cond)
    ensures p < m <= |toks| && CondDone(toks, p, d, cond, m) && Reads(toks, m, body) && m + |body| == p + 1 + |Link(Written(cond), body)|
    decreases cond, 9
  {
    hide OperandDone, RightDone, ExprDone, ListDone, ElementsDone, PairsDone, BlockDone, AssignDone, ClauseDone, CondDone, StmtDone, AllDone, ChainDone, ElseDone, DispatchDone;
    m := Split(toks, p + 1, [T.LParen] + Written(cond) + [T.RParen], body);
    var n := Around(toks, p + 1, T.LParen, Written(cond), T.RParen);
    AssignRound(toks, p + 2, d, cond, n);
    Opening(toks, p + 2, cond);
    CondStep(toks, p, d, cond, m);
  }

  lemma {:induction false} BlockRound(toks: Toks, p: nat, d: nat, ss: Stmts, q: nat)
    requires Reads(toks, p, WrittenBlock(ss)) && ShapedAll(ss) && q == p + |WrittenBlock(ss)|
    requires d <= MAX_DEPTH
    ensures BlockDone(toks, p, d, ss, q)
    decreases ss, 1
  {
    hide OperandDone, RightDone, ExprDone, ListDone, ElementsDone, PairsDone, BlockDone, AssignDone, ClauseDone, CondDone, StmtDone, AllDone, ChainDone, ElseDone, DispatchDone;
    var m := Around(toks, p, T.LBrace, WrittenAll(ss), T.RBrace);
    AllRound(toks, p + 1, d, false, ss, m);
    BlockStep(toks, p, d, ss, q);
  }

  /** Statements come back when the end of the block, or of the input, follows. */
  lemma {:induction false} AllRound(toks: Toks, p: nat, d: nat, top: bool, ss: Stmts, q: nat)
    requires Reads(toks, p, WrittenAll(ss)) && ShapedAll(ss) && q == p + |WrittenAll(ss)|
    requires At(toks, q) == if top then T.Eof else T.RBrace
    requires d <= MAX_DEPTH
    ensures AllDone(toks, p, d, top, ss, q)
    decreases ss, 0
  {
    hide OperandDone, RightDone, ExprDone, ListDone, ElementsDone, PairsDone, BlockDone, AssignDone, ClauseDone, CondDone, StmtDone, AllDone, ChainDone, ElseDone, DispatchDone, Written, WrittenStmt, Reads, ShapedS, SoundAll, Follows, Stops, FirstOf, Announces, Opens;
    match ss
    case SNil =>
      ReadsFits(toks, p, []);
      NilStep(toks, p, d, top);
    case SCons(h, t) =>
      var m := Split(toks, p, WrittenStmt(h), WrittenAll(t));
      StmtOpening(toks, p, h);
      if t.SCons? {
        var n := Split(toks, m, WrittenStmt(t.head), WrittenAll(t.tail));
        StmtOpening(toks, m, t.head);
      }
      FollowsNext(t, At(toks, m), top);
      StartsStatement(FirstOf(h));
      StmtRound(toks, p, d, h, m);
      AllRound(toks, m, d, top, t, q);
      ConsStep(toks, p, d, top, h, t, m, q);
  }

  lemma StartsStatement(t: T.Token)
    requires Announces(t)
    ensures t != T.Eof && t != T.RBrace
  {
  }

  /** What comes after a statement does not carry it on. */
  lemma FollowsNext(t: Stmts, next: T.Token, top: bool)
    requires if t.SCons? then next == FirstOf(t.head) && Announces(next) else next == if top then T.Eof else T.RBrace
    ensures Follows(next)
  {
    hide FirstOf;
  }

  lemma NilStep(toks: Toks, p: nat, d: nat, top: bool)
    requires p <= |toks| && d <= MAX_DEPTH && At(toks, p) == if top then T.Eof else T.RBrace
    ensures AllDone(toks, p, d, top, SNil, p)
  {
  }

  lemma StmtOpening(toks: Toks, p: nat, s: Stmt)
    requires Reads(toks, p, WrittenStmt(s))
    ensures p < p + |WrittenStmt(s)| && p < |toks| && At(toks, p) == FirstOf(s) && Announces(FirstOf(s))
  {
    hide First, Written, WrittenAll, WrittenFn, WrittenChain;
    if s.ExprStmt? {
      FirstWritten(s.e);
      FirstOpens(s.e);
    }
    ReadsAt(toks, p, WrittenStmt(s), 0);
  }

  /** Tokens a statement can start with. */
  predicate Announces(t: T.Token) {
    Opens(t) || t.KwPrint? || t.KwReturn? || t.KwIf? || t.KwWhile? || t.KwFor? || t.KwBreak? || t.KwContinue?
  }

  lemma {:induction false} StmtRound(toks: Toks, p: nat, d: nat, s: Stmt, q: nat)
    requires Reads(toks, p, WrittenStmt(s)) && ShapedS(s) && q == p + |WrittenStmt(s)|
    ensures StmtDone(toks, p, d, s, q)
    decreases s, 1
  {
    hide OperandDone, RightDone, ExprDone, ListDone, ElementsDone, PairsDone, BlockDone, AssignDone, ClauseDone, CondDone, StmtDone, AllDone, ChainDone, ElseDone, DispatchDone, Written, WrittenStmt, Reads, ShapedS;
    ReadsFits(toks, p, WrittenStmt(s));
    if d < MAX_DEPTH {
      match s
      case ExprStmt(_) => ExprStmtRound(toks, p, d, s, q);
      case Print(_) => PrintRound(toks, p, d, s, q);
      case Return(_) => ReturnRound(toks, p, d, s, q);
      case Block(_) => BlockStmtRound(toks, p, d, s, q);
      case If(_) => IfRound(toks, p, d, s, q);
      case While(_, _) => WhileRound(toks, p, d, s, q);
      case For(_, _, _, _) => ForRound(toks, p, d, s, q);
      case FnDecl(_, _, _) => FnDeclRound(toks, p, d, s, q);
      case Break => WordRound(toks, p, d, s, q);
      case Continue => WordRound(toks, p, d, s, q);
    }
    GuardStep(toks, p, d, s, q);
  }

  lemma {:induction false} WordRound(toks: Toks, p: nat, d: nat, s: Stmt, q: nat)
    requires Reads(toks, p, WrittenStmt(s)) && ShapedS(s) && q == p + |WrittenStmt(s)| && (s.Break? || s.Continue?) && d < MAX_DEPTH
    ensures DispatchDone(toks, p, d, s, q)
    decreases s, 0
  {
    hide OperandDone, RightDone, ExprDone, ListDone, ElementsDone, PairsDone, BlockDone, AssignDone, ClauseDone, CondDone, StmtDone, AllDone, ChainDone, ElseDone, DispatchDone, Written, WrittenAll, WrittenFn, WrittenOpt, Link, Reads, ShapedE, ShapedAll, ShapedChain, SoundE;
    ReadsAt(toks, p, WrittenStmt(s), 0);
    ReadsAt(toks, p, WrittenStmt(s), 1);
    WordStep(toks, p, d, s);
  }

  lemma {:induction false} PrintRound(toks: Toks, p: nat, d: nat, s: Stmt, q: nat)
    requires Reads(toks, p, WrittenStmt(s)) && ShapedS(s) && q == p + |WrittenStmt(s)| && s.Print? && d < MAX_DEPTH
    ensures DispatchDone(toks, p, d, s, q)
    decreases s, 0
  {
    hide OperandDone, RightDone, ExprDone, ListDone, ElementsDone, PairsDone, BlockDone, AssignDone, ClauseDone, CondDone, StmtDone, AllDone, ChainDone, ElseDone, DispatchDone, Written, WrittenAll, WrittenFn, WrittenOpt, Link, Reads, ShapedE, ShapedAll, ShapedChain, SoundE;
    var m := Around(toks, p, T.KwPrint, Written(s.e), T.Semicolon);
    AssignRound(toks, p + 1, d + 1, s.e, m);
    Opening(toks, p + 1, s.e);
    PrintStep(toks, p, d, s.e, q);
  }

  lemma {:induction false} ReturnRound(toks: Toks, p: nat, d: nat, s: Stmt, q: nat)
    requires Reads(toks, p, WrittenStmt(s)) && ShapedS(s) && q == p + |WrittenStmt(s)| && s.Return? && d < MAX_DEPTH
    ensures DispatchDone(toks, p, d, s, q)
    decreases s, 0
  {
    hide OperandDone, RightDone, ExprDone, ListDone, ElementsDone, PairsDone, BlockDone, AssignDone, ClauseDone, CondDone, StmtDone, AllDone, ChainDone, ElseDone, DispatchDone, Written, WrittenAll, WrittenFn, WrittenOpt, Link, Reads, ShapedE, ShapedAll, ShapedChain, SoundE;
    After(toks, p, T.KwReturn, WrittenOpt(s.value, T.Semicolon));
    ClauseRound(toks, p + 1, d + 1, s.value, T.Semicolon, q);
    ReturnStep(toks, p, d, s.value, q);
  }

  lemma {:induction false} BlockStmtRound(toks: Toks, p: nat, d: nat, s: Stmt, q: nat)
    requires Reads(toks, p, WrittenStmt(s)) && ShapedS(s) && q == p + |WrittenStmt(s)| && s.Block? && d < MAX_DEPTH
    ensures DispatchDone(toks, p, d, s, q)
    decreases s, 0
  {
    hide OperandDone, RightDone, ExprDone, ListDone, ElementsDone, PairsDone, BlockDone, AssignDone, ClauseDone, CondDone, StmtDone, AllDone, ChainDone, ElseDone, DispatchDone, Written, WrittenAll, WrittenFn, WrittenOpt, Link, Reads, ShapedE, ShapedAll, ShapedChain, SoundE;
    var m := Around(toks, p, T.LBrace, WrittenAll(s.body), T.RBrace);
    BlockRound(toks, p, d + 1, s.body, q);
    BlockStmtStep(toks, p, d, s.body, q);
  }

  lemma {:induction false} IfRound(toks: Toks, p: nat, d: nat, s: Stmt, q: nat)
    requires Reads(toks, p, WrittenStmt(s)) && ShapedS(s) && q == p + |WrittenStmt(s)| && s.If? && d < MAX_DEPTH
    ensures DispatchDone(toks, p, d, s, q)
    decreases s, 0
  {
    hide OperandDone, RightDone, ExprDone, ListDone, ElementsDone, PairsDone, BlockDone, AssignDone, ClauseDone, CondDone, StmtDone, AllDone, ChainDone, ElseDone, DispatchDone, Written, WrittenAll, WrittenFn, WrittenOpt, Link, Reads, ShapedE, ShapedAll, ShapedChain, SoundE;
    After(toks, p, T.KwIf, WrittenChain(s.chain));
    ChainRound(toks, p, d + 1, s.chain, q);
    IfStep(toks, p, d, s.chain, q);
  }

  lemma {:induction false} WhileRound(toks: Toks, p: nat, d: nat, s: Stmt, q: nat)
    requires Reads(toks, p, WrittenStmt(s)) && ShapedS(s) && q == p + |WrittenStmt(s)| && s.While? && d < MAX_DEPTH
    ensures DispatchDone(toks, p, d, s, q)
    decreases s, 0
  {
    hide OperandDone, RightDone, ExprDone, ListDone, ElementsDone, PairsDone, BlockDone, AssignDone, ClauseDone, CondDone, StmtDone, AllDone, ChainDone, ElseDone, DispatchDone, Written, WrittenAll, WrittenFn, WrittenOpt, Link, Reads, ShapedE, ShapedAll, ShapedChain, SoundE;
    After(toks, p, T.KwWhile, Link(Written(s.cond), WrittenBlock(s.body)));
    var m := LinkRound(toks, p, d + 1, s.cond, WrittenBlock(s.body));
    BlockRound(toks, m, d + 1, s.body, q);
    BlockLonger(s.body);
    ReadsFits(toks, m, WrittenBlock(s.body));
    WhileStep(toks, p, d, s.cond, s.body, m, q);
  }

  lemma BlockLonger(ss: Stmts)
    ensures |WrittenBlock(ss)| >= 2
  {
  }

  lemma {:induction false} ExprStmtRound(toks: Toks, p: nat, d: nat, s: Stmt, q: nat)
    requires Reads(toks, p, WrittenStmt(s)) && ShapedS(s) && q == p + |WrittenStmt(s)| && s.ExprStmt? && d < MAX_DEPTH
    ensures DispatchDone(toks, p, d, s, q)
    decreases s, 0
  {
    hide OperandDone, RightDone, ExprDone, ListDone, ElementsDone, PairsDone, BlockDone, AssignDone, ClauseDone, CondDone, StmtDone, AllDone, ChainDone, ElseDone, DispatchDone;
    var e := s.e;
    var m := Split(toks, p, Written(e), if EndsInBlock(e) then [] else [T.Semicolon]);
    Opening(toks, p, e);
    AssignRound(toks, p, d + 1, e, m);
    if !EndsInBlock(e) { Token(toks, m, T.Semicolon); }
    ExprStmtStep(toks, p, d, e, m, q);
  }

  lemma {:induction false} ForRound(toks: Toks, p: nat, d: nat, s: Stmt, q: nat)
    requires Reads(toks, p, WrittenStmt(s)) && ShapedS(s) && q == p + |WrittenStmt(s)| && s.For? && d < MAX_DEPTH
    ensures DispatchDone(toks, p, d, s, q)
    decreases s, 0
  {
    hide OperandDone, RightDone, ExprDone, ListDone, ElementsDone, PairsDone, BlockDone, AssignDone, ClauseDone, CondDone, StmtDone, AllDone, ChainDone, ElseDone, DispatchDone;
    var i, t, st := WrittenOpt(s.init, T.Semicolon), WrittenOpt(s.test, T.Semicolon), WrittenOpt(s.step, T.RParen);
    var head := [T.KwFor, T.LParen];
    assert WrittenStmt(s) == head + i + t + st + WrittenBlock(s.body);
    var n := Split(toks, p, head + i + t + st, WrittenBlock(s.body));
    var m := Split(toks, p, head + i + t, st);
    var k := Split(toks, p, head + i, t);
    var h := Split(toks, p, head, i);
    ReadsAt(toks, p, head, 0);
    ReadsAt(toks, p, head, 1);
    ClauseRound(toks, h, d + 1, s.init, T.Semicolon, k);
    ClauseRound(toks, k, d + 1, s.test, T.Semicolon, m);
    ClauseRound(toks, m, d + 1, s.step, T.RParen, n);
    BlockRound(toks, n, d + 1, s.body, q);
    ForStep(toks, p, d, s.init, s.test, s.step, s.body, k, m, n, q);
  }

  lemma {:induction false} FnDeclRound(toks: Toks, p: nat, d: nat, s: Stmt, q: nat)
    requires Reads(toks, p, WrittenStmt(s)) && ShapedS(s) && q == p + |WrittenStmt(s)| && s.FnDecl? && d < MAX_DEPTH
    ensures DispatchDone(toks, p, d, s, q)
    decreases s, 0
  {
    hide OperandDone, RightDone, ExprDone, ListDone, ElementsDone, PairsDone, BlockDone, AssignDone, ClauseDone, CondDone, StmtDone, AllDone, ChainDone, ElseDone, DispatchDone;
    var head := [T.KwFn, T.Ident(s.name)];
    var h := Split(toks, p, head, WrittenFn(s.params, s.body));
    ReadsAt(toks, p, head, 0);
    ReadsAt(toks, p, head, 1);
    var m := FnParts(toks, h, s.params, s.body);
    BlockRound(toks, m, d + 1, s.body, q);
    FnDeclStep(toks, p, d, s.name, s.params, s.body, m, q);
  }

  lemma {:induction false} ChainRound(toks: Toks, p: nat, d: nat, c: Chain, q: nat)
    requires p < |toks| && Reads(toks, p + 1, WrittenChain(c)) && ShapedChain(c) && q == p + 1 + |WrittenChain(c)| && d <= MAX_DEPTH
    ensures ChainDone(toks, p, d, c, q)
    decreases c
  {
    hide OperandDone, RightDone, ExprDone, ListDone, ElementsDone, PairsDone, BlockDone, AssignDone, ClauseDone, CondDone, StmtDone, AllDone, ChainDone, ElseDone, DispatchDone;
    var link := Link(Written(c.cond), WrittenBlock(c.thn));
    var n := Split(toks, p + 1, link, WrittenElse(c.els));
    var m := LinkRound(toks, p, d, c.cond, WrittenBlock(c.thn));
    BlockRound(toks, m, d, c.thn, n);
    ElseRound(toks, n, d, c.els, q);
    ChainStep(toks, p, d, c, m, n, q);
  }

  lemma {:induction false} ElseRound(toks: Toks, p: nat, d: nat, e: Else, q: nat)
    requires Reads(toks, p, WrittenElse(e)) && ShapedElse(e) && q == p + |WrittenElse(e)| && d <= MAX_DEPTH
    ensures ElseDone(toks, p, d, e, q)
    decreases e
  {
    hide OperandDone, RightDone, ExprDone, ListDone, ElementsDone, PairsDone, BlockDone, AssignDone, ClauseDone, CondDone, StmtDone, AllDone, ChainDone, ElseDone, DispatchDone;
    match e
    case NoElse => NoElseStep(toks, p, d);
    case ElseBlock(b) =>
      After(toks, p, T.KwElse, WrittenBlock(b));
      BlockRound(toks, p + 1, d, b, q);
      ElseBlockStep(toks, p, d, b, q);
    case ElseIf(c) =>
      After(toks, p, T.KwElif, WrittenChain(c));
      ChainRound(toks, p, d, c, q);
      ElseIfStep(toks, p, d, c, q);
  }

  // ---- the whole program -----------------------------------------------------------------------------

  /** Formatting a program and parsing the result gives the program back exactly when the
      text fits the depth limit and is sound. */
  lemma FormatThenParse(program: Stmts)
    requires ShapedAll(program)
    ensures var r := ProgramOf(WrittenAll(program) + [T.Eof]);
            (r.Ok? && r.v == program) <==> (SoundAll(program) && NeedAll(program) <= MAX_DEPTH)
  {
    hide Statements, WrittenAll, SoundAll, NeedAll, ShapedAll;
    var text := WrittenAll(program);
    var toks := text + [T.Eof];
    assert toks[0..|text|] == text;
    AllRound(toks, 0, 0, true, program, |text|);
  }

  /** An assigned function value is no exception: its semicolon is kept, and whatever
      statements come next, they do not become part of it. */
  lemma AssignedFunctionKept(t: Expr, params: seq<string>, body: Stmts, rest: Stmts)
    requires ShapedE(t) && Assignable(t) && ShapedAll(body) && ShapedAll(rest)
    requires SoundE(t) && First(t) != T.LBrace && First(t) != T.KwFn && SoundAll(body) && SoundAll(rest)
    ensures var program := SCons(ExprStmt(Expr.Assign(t, Lambda(0, params, body))), rest);
            var r := ProgramOf(WrittenAll(program) + [T.Eof]);
            (r.Ok? && r.v == program) <==> NeedAll(program) <= MAX_DEPTH
  {
    var e := Expr.Assign(t, Lambda(0, params, body));
    AssignmentSound(t, Lambda(0, params, body));
    hide SoundE, ShapedE, First, Statements, WrittenAll, NeedAll, ShapedA;
    FormatThenParse(SCons(ExprStmt(e), rest));
  }

  lemma AssignmentSound(t: Expr, v: Expr)
    requires ShapedE(t) && Assignable(t) && ShapedA(v) && SoundE(t) && SoundE(v) && First(t) != T.LBrace && First(t) != T.KwFn
    ensures ShapedA(Expr.Assign(t, v)) && SoundS(ExprStmt(Expr.Assign(t, v)))
  {
  }
}
