/** The parser: a cursor, a nesting depth and an error flag over a token list. Every method
    follows one production of the grammar. */
module ParserModel {
  import opened Ast
  import opened Grammar
  import T = Tokens

  datatype Opt<V> = None | Some(v: V)

  // ---- lists built from the back -----------------------------------------------------------

  function ListWith(kids: seq<Expr>, es: Exprs): Exprs {
    if kids == [] then es else ECons(kids[0], ListWith(kids[1..], es))
  }

  function PairsWith(kids: seq<(Expr, Expr)>, ms: Entries): Entries {
    if kids == [] then ms else MCons(kids[0].0, kids[0].1, PairsWith(kids[1..], ms))
  }

  function StmtsWith(kids: seq<Stmt>, ss: Stmts): Stmts {
    if kids == [] then ss else SCons(kids[0], StmtsWith(kids[1..], ss))
  }

  lemma {:induction false} ListPush(kids: seq<Expr>, e: Expr, es: Exprs)
    ensures ListWith(kids + [e], es) == ListWith(kids, ECons(e, es))
  {
    if kids == [] {
      assert ListWith([e], es) == ECons(e, ListWith([], es));
    } else {
      ListPush(kids[1..], e, es);
      assert (kids + [e])[1..] == kids[1..] + [e];
    }
  }

  lemma {:induction false} PairsPush(kids: seq<(Expr, Expr)>, k: Expr, v: Expr, ms: Entries)
    ensures PairsWith(kids + [(k, v)], ms) == PairsWith(kids, MCons(k, v, ms))
  {
    if kids == [] {
      assert PairsWith([(k, v)], ms) == MCons(k, v, PairsWith([], ms));
    } else {
      PairsPush(kids[1..], k, v, ms);
      assert (kids + [(k, v)])[1..] == kids[1..] + [(k, v)];
    }
  }

  lemma {:induction false} StmtsPush(kids: seq<Stmt>, s: Stmt, ss: Stmts)
    ensures StmtsWith(kids + [s], ss) == StmtsWith(kids, SCons(s, ss))
  {
    if kids == [] {
      assert StmtsWith([s], ss) == SCons(s, StmtsWith([], ss));
    } else {
      StmtsPush(kids[1..], s, ss);
      assert (kids + [s])[1..] == kids[1..] + [s];
    }
  }

  /** What a list comes to when `kids` are read and the rest gives `r`. */
  function Items'(kids: seq<Expr>, r: Result<Exprs>): Result<Exprs> {
    if r.Ok? then Ok(ListWith(kids, r.v), r.next) else Fail
  }

  function Pairs'(kids: seq<(Expr, Expr)>, r: Result<Entries>): Result<Entries> {
    if r.Ok? then Ok(PairsWith(kids, r.v), r.next) else Fail
  }

  function Names'(names: seq<string>, r: Result<seq<string>>): Result<seq<string>> {
    if r.Ok? then Ok(names + r.v, r.next) else Fail
  }

  function Stmts'(kids: seq<Stmt>, r: Result<Stmts>): Result<Stmts> {
    if r.Ok? then Ok(StmtsWith(kids, r.v), r.next) else Fail
  }

  // ---- what is left of a list once an element is read, and after its comma ------------------------

  function RestOfItems(toks: Toks, p: nat, d: nat, close: T.Token, more: bool): Result<Exprs>
    requires p <= |toks| && close != T.Eof
  {
    if more then Elements(toks, p, d, close) else if At(toks, p) == close then Ok(ENil, p + 1) else Fail
  }

  lemma ItemsStep(toks: Toks, p: nat, d: nat, close: T.Token, kids: seq<Expr>)
    requires p <= |toks| && close != T.Eof && close != T.Comma
    ensures var e := ExprOf(toks, p, d, 1);
            (e.Fail? ==> Elements(toks, p, d, close) == Fail && Items'(kids, RestOfItems(toks, p, d, close, true)) == Fail) &&
            (e.Ok? ==>
               var more := At(toks, e.next) == T.Comma;
               Items'(kids, RestOfItems(toks, p, d, close, true)) ==
                 Items'(kids + [e.v], RestOfItems(toks, if more then e.next + 1 else e.next, d, close, more)))
  {
    hide ExprOf, ListWith, ShapedList, ShapedE;
    var e := ExprOf(toks, p, d, 1);
    if e.Ok? {
      var more := At(toks, e.next) == T.Comma;
      var r := RestOfItems(toks, if more then e.next + 1 else e.next, d, close, more);
      if r.Ok? { ListPush(kids, e.v, r.v); }
    }
  }

  lemma ItemsEnds(toks: Toks, p: nat, d: nat, close: T.Token, kids: seq<Expr>)
    requires p <= |toks| && close != T.Eof
    ensures Items'([], RestOfItems(toks, p, d, close, true)) == Elements(toks, p, d, close)
    ensures Items'(kids, RestOfItems(toks, p, d, close, false)) ==
            if At(toks, p) == close then Ok(ListWith(kids, ENil), p + 1) else Fail
    ensures Items(toks, p, d, close) == if At(toks, p) == close then Ok(ListWith([], ENil), p + 1) else Elements(toks, p, d, close)
  {
    hide Elements;
  }

  lemma PairsEnds(toks: Toks, p: nat, d: nat, kids: seq<(Expr, Expr)>)
    requires p <= |toks|
    ensures Pairs'([], RestOfPairs(toks, p, d, true)) == PairsFrom(toks, p, d)
    ensures Pairs'(kids, RestOfPairs(toks, p, d, false)) ==
            if At(toks, p) == T.RBrace then Ok(PairsWith(kids, MNil), p + 1) else Fail
    ensures Pairs(toks, p, d) == if At(toks, p) == T.RBrace then Ok(PairsWith([], MNil), p + 1) else PairsFrom(toks, p, d)
  {
    hide PairsFrom;
  }

  function RestOfPairs(toks: Toks, p: nat, d: nat, more: bool): Result<Entries>
    requires p <= |toks|
  {
    if more then PairsFrom(toks, p, d) else if At(toks, p) == T.RBrace then Ok(MNil, p + 1) else Fail
  }

  lemma PairsStep(toks: Toks, p: nat, d: nat, kids: seq<(Expr, Expr)>)
    requires p <= |toks|
    ensures var kv := PairOf(toks, p, d);
            (kv.Fail? ==> PairsFrom(toks, p, d) == Fail && Pairs'(kids, RestOfPairs(toks, p, d, true)) == Fail) &&
            (kv.Ok? ==>
               var more := At(toks, kv.next) == T.Comma;
               Pairs'(kids, RestOfPairs(toks, p, d, true)) ==
                 Pairs'(kids + [kv.v], RestOfPairs(toks, if more then kv.next + 1 else kv.next, d, more)))
  {
    hide PairOf, PairsWith, ShapedEntries, ShapedE;
    var kv := PairOf(toks, p, d);
    if kv.Ok? {
      var more := At(toks, kv.next) == T.Comma;
      var r := RestOfPairs(toks, if more then kv.next + 1 else kv.next, d, more);
      if r.Ok? { PairsPush(kids, kv.v.0, kv.v.1, r.v); }
    }
  }

  function RestOfNames(toks: Toks, p: nat, more: bool): Result<seq<string>>
    requires p <= |toks|
  {
    if more then Names(toks, p) else if At(toks, p) == T.RParen then Ok([], p + 1) else Fail
  }

  lemma NamesStep(toks: Toks, p: nat, names: seq<string>)
    requires p < |toks|
    ensures !At(toks, p).Ident? ==> Names'(names, Names(toks, p)) == Fail
    ensures At(toks, p).Ident? ==>
              var more := At(toks, p + 1) == T.Comma;
              Names'(names, Names(toks, p)) == Names'(names + [At(toks, p).name], RestOfNames(toks, if more then p + 2 else p + 1, more))
  {
    if At(toks, p).Ident? {
      var more := At(toks, p + 1) == T.Comma;
      var r := RestOfNames(toks, if more then p + 2 else p + 1, more);
      var n := [At(toks, p).name];
      assert n + [] == n && names + n + [] == names + n;
      if r.Ok? { assert names + (n + r.v) == names + n + r.v; }
    }
  }

  lemma NamesStart(r: Result<seq<string>>)
    ensures Names'([], r) == r
  {
    if r.Ok? { assert [] + r.v == r.v; }
  }

  lemma StmtsStep(toks: Toks, p: nat, d: nat, top: bool, kids: seq<Stmt>)
    requires p <= |toks|
    requires At(toks, p) != T.Eof && (top || At(toks, p) != T.RBrace)
    ensures var s := StatementOf(toks, p, d);
            (s.Fail? ==> Stmts'(kids, Statements(toks, p, d, top)) == Fail) &&
            (s.Ok? ==> Stmts'(kids, Statements(toks, p, d, top)) == Stmts'(kids + [s.v], Statements(toks, s.next, d, top)))
  {
    hide StatementOf, StmtsWith;
    var s := StatementOf(toks, p, d);
    if s.Ok? {
      var r := Statements(toks, s.next, d, top);
      if r.Ok? { StmtsPush(kids, s.v, r.v); }
    }
  }

  // ---- the parser --------------------------------------------------------------------------------------

  class Parser {
    const toks: Toks
    var pos: nat
    var depth: nat
    var failed: bool

    constructor (toks: Toks)
      requires toks != [] && toks[|toks| - 1] == T.Eof
      ensures this.toks == toks && Ready() && pos == depth == 0
    {
      this.toks := toks;
      pos, depth, failed := 0, 0, false;
    }

    /** The input ends in Eof and the cursor never passes it. */
    predicate Valid()
      reads this
    {
      toks != [] && toks[|toks| - 1] == T.Eof && pos < |toks|
    }

    predicate Ready()
      reads this
    {
      Valid() && !failed
    }

    /** A method's outcome is the production's: a tree and the cursor after it, or the error flag. */
    ghost predicate Agrees<V>(r: Result<V>, v: Opt<V>)
      reads this
    {
      Valid() && (r.Fail? ==> failed && v.None?) && (r.Ok? ==> !failed && v == Some(r.v) && pos == r.next)
    }

    function Peek(): T.Token
      requires Valid()
      reads this
    {
      toks[pos]
    }

    method Advance()
      requires Valid()
      modifies this`pos
      ensures Valid() && pos == if old(Peek()) == T.Eof then old(pos) else old(pos) + 1
    {
      if toks[pos] != T.Eof {
        pos := pos + 1;
      }
    }

    method Match(k: T.Token) returns (ok: bool)
      requires Valid() && k != T.Eof
      modifies this`pos
      ensures Valid() && ok == (old(Peek()) == k) && pos == if ok then old(pos) + 1 else old(pos)
    {
      ok := Peek() == k;
      if ok {
        Advance();
      }
    }

    method Expect(k: T.Token) returns (ok: bool)
      requires Ready() && k != T.Eof
      modifies this`pos, this`failed
      ensures Valid() && ok == (old(Peek()) == k) && failed == !ok && pos == if ok then old(pos) + 1 else old(pos)
    {
      ok := Match(k);
      if !ok {
        failed := true;
      }
    }

    /** One level deeper, unless that is too deep. */
    method Enter() returns (ok: bool)
      requires Ready()
      modifies this`depth, this`failed
      ensures Valid() && ok == (old(depth) < MAX_DEPTH) && failed == !ok
      ensures depth == if ok then old(depth) + 1 else old(depth)
    {
      ok := depth < MAX_DEPTH;
      if ok {
        depth := depth + 1;
      } else {
        failed := true;
      }
    }

    method Leave()
      requires depth > 0
      modifies this`depth
      ensures depth == old(depth) - 1
    {
      depth := depth - 1;
    }

    // ---- expressions ------------------------------------------------------------------------------------

    method ParsePrimary() returns (e: Opt<Expr>)
      requires Ready()
      modifies this
      ensures Agrees(Primary(toks, old(pos), old(depth)), e) && depth == old(depth)
      decreases |toks| - pos, 4
    {
      hide Params, Names, LambdaOf, Items, Elements, Pairs, PairsFrom, Postfix, UnaryOf, Climb, ExprOf, AssignmentOf, BlockOf, Statements, Condition, ChainOf, ElseOf, WhileOf, ClauseOf, ForOf, FnDeclOf, ExprStmtOf, StatementOf, ShapedAll, ShapedS, ShapedList;
      match Peek()
      case Int(i) => e := ParseLeaf(IntLit(i));
      case Float(x) => e := ParseLeaf(FloatLit(x));
      case Str(raw) => e := ParseLeaf(StrLit(T.Unescape(raw)));
      case KwTrue => e := ParseLeaf(BoolLit(true));
      case KwFalse => e := ParseLeaf(BoolLit(false));
      case KwNil => e := ParseLeaf(NilLit);
      case Ident(name) => e := ParseLeaf(Ident(name));
      case LParen => e := ParseParens();
      case LBracket => e := ParseArray();
      case LBrace => e := ParseMap();
      case KwFn => e := ParseLambda();
      case _ =>
        failed := true;
        e := None;
    }

    method ParseLeaf(leaf: Expr) returns (e: Opt<Expr>)
      requires Ready() && Peek() != T.Eof
      modifies this
      ensures Agrees(Ok(leaf, old(pos) + 1), e) && depth == old(depth)
    {
      Advance();
      e := Some(leaf);
    }

    method ParseParens() returns (e: Opt<Expr>)
      requires Ready() && Peek() == T.LParen
      modifies this
      ensures Agrees(Primary(toks, old(pos), old(depth)), e) && depth == old(depth)
      decreases |toks| - pos, 3
    {
      hide Params, Names, LambdaOf, Items, Elements, Pairs, PairsFrom, PairOf, Postfix, UnaryOf, Climb, ExprOf, AssignmentOf, BlockOf, Statements, Condition, ChainOf, ElseOf, WhileOf, ClauseOf, ForOf, FnDeclOf, ExprStmtOf, StatementOf, DispatchOf, ShapedE, ShapedAll, ShapedS, ShapedList;
      Advance();
      e := ParseExpr(1);
      if e.None? {
        return;
      }
      var ok := Expect(T.RParen);
      if !ok {
        e := None;
      }
    }

    method ParseArray() returns (e: Opt<Expr>)
      requires Ready() && Peek() == T.LBracket
      modifies this
      ensures Agrees(Primary(toks, old(pos), old(depth)), e) && depth == old(depth)
      decreases |toks| - pos, 3
    {
      Advance();
      var es := ParseItems(T.RBracket);
      e := if es.None? then None else Some(ArrayLit(es.v));
    }

    /** A comma-separated list up to `close`. */
    method ParseItems(close: T.Token) returns (es: Opt<Exprs>)
      requires Ready() && close != T.Eof && close != T.Comma
      modifies this
      ensures Agrees(Items(toks, old(pos), old(depth), close), es) && depth == old(depth)
      decreases |toks| - pos, 8
    {
      hide Primary, Params, Names, LambdaOf, Items, Elements, Pairs, PairsFrom, Postfix, UnaryOf, Climb, ExprOf, AssignmentOf, BlockOf, Statements, StatementOf, ShapedE, ShapedList, ShapedEntries, ListWith, PairsWith, Items', Pairs', RestOfItems, RestOfPairs;
      var kids := [];
      ItemsEnds(toks, pos, depth, close, kids);
      if Peek() != close {
        var more := true;
        while more
          invariant Ready() && depth == old(depth) && old(pos) <= pos
          invariant Elements(toks, old(pos), depth, close) == Items'(kids, RestOfItems(toks, pos, depth, close, more))
          decreases |toks| - pos, more
        {
          ItemsStep(toks, pos, depth, close, kids);
          var e := ParseExpr(1);
          if e.None? {
            return None;
          }
          kids := kids + [e.v];
          more := Match(T.Comma);
        }
      }
      ItemsEnds(toks, pos, depth, close, kids);
      var ok := Expect(close);
      es := if ok then Some(ListWith(kids, ENil)) else None;
    }

    method ParseMap() returns (e: Opt<Expr>)
      requires Ready() && Peek() == T.LBrace
      modifies this
      ensures Agrees(Primary(toks, old(pos), old(depth)), e) && depth == old(depth)
      decreases |toks| - pos, 3
    {
      Advance();
      var ms := ParsePairs();
      e := if ms.None? then None else Some(MapLit(ms.v));
    }

    method ParsePairs() returns (ms: Opt<Entries>)
      requires Ready()
      modifies this
      ensures Agrees(Pairs(toks, old(pos), old(depth)), ms) && depth == old(depth)
      decreases |toks| - pos, 8
    {
      hide Primary, Params, Names, LambdaOf, Items, Elements, Pairs, PairOf, PairsFrom, Postfix, UnaryOf, Climb, ExprOf, AssignmentOf, BlockOf, Statements, StatementOf, ShapedE, ShapedList, ShapedEntries, ListWith, PairsWith, Items', Pairs', RestOfItems, RestOfPairs;
      var kids := [];
      PairsEnds(toks, pos, depth, kids);
      if Peek() != T.RBrace {
        var more := true;
        while more
          invariant Ready() && depth == old(depth) && old(pos) <= pos
          invariant PairsFrom(toks, old(pos), depth) == Pairs'(kids, RestOfPairs(toks, pos, depth, more))
          decreases |toks| - pos, more
        {
          PairsStep(toks, pos, depth, kids);
          var kv := ParsePair();
          if kv.None? {
            return None;
          }
          kids := kids + [kv.v];
          more := Match(T.Comma);
        }
      }
      PairsEnds(toks, pos, depth, kids);
      var ok := Expect(T.RBrace);
      ms := if ok then Some(PairsWith(kids, MNil)) else None;
    }

    /** key = value. */
    method ParsePair() returns (kv: Opt<(Expr, Expr)>)
      requires Ready()
      modifies this
      ensures Agrees(PairOf(toks, old(pos), old(depth)), kv) && depth == old(depth)
      decreases |toks| - pos, 7
    {
      var k := ParseExpr(1);
      if k.None? {
        return None;
      }
      var ok := Expect(T.Assign);
      if !ok {
        return None;
      }
      var v := ParseExpr(1);
      kv := if v.None? then None else Some((k.v, v.v));
    }

    /** Parameter names and the closing parenthesis. */
    method ParseParams() returns (ps: Opt<seq<string>>)
      requires Ready()
      modifies this
      ensures Agrees(Params(toks, old(pos)), ps) && depth == old(depth)
    {
      var names := [];
      if Peek() != T.RParen {
        var more := true;
        NamesStart(Names(toks, pos));
        while more
          invariant Ready() && depth == old(depth) && old(pos) <= pos
          invariant Names(toks, old(pos)) == Names'(names, RestOfNames(toks, pos, more))
          decreases |toks| - pos, more
        {
          NamesStep(toks, pos, names);
          if !Peek().Ident? {
            failed := true;
            return None;
          }
          names := names + [Peek().name];
          Advance();
          more := Match(T.Comma);
        }
      }
      assert names + [] == names;
      var ok := Expect(T.RParen);
      ps := if ok then Some(names) else None;
    }

    method ParseLambda() returns (e: Opt<Expr>)
      requires Ready() && Peek() == T.KwFn
      modifies this
      ensures Agrees(LambdaOf(toks, old(pos), old(depth)), e) && depth == old(depth)
      decreases |toks| - pos, 3
    {
      Advance();
      var ok := Expect(T.LParen);
      if !ok {
        return None;
      }
      var ps := ParseParams();
      if ps.None? {
        return None;
      }
      var body := ParseBlock();
      e := if body.None? then None else Some(Lambda(0, ps.v, body.v));
    }

    method ParsePostfix(start: Expr) returns (e: Opt<Expr>)
      requires Ready() && ShapedE(start)
      modifies this
      ensures Agrees(Postfix(toks, old(pos), old(depth), start), e) && depth == old(depth)
      decreases |toks| - pos, 9
    {
      var base := start;
      while Peek() in {T.LBracket, T.Dot, T.LParen}
        invariant Ready() && depth == old(depth) && old(pos) <= pos && ShapedE(base)
        invariant Postfix(toks, old(pos), depth, start) == Postfix(toks, pos, depth, base)
        decreases |toks| - pos
      {
        var next := ParseSuffix(base);
        if next.None? {
          return None;
        }
        base := next.v;
      }
      e := Some(base);
    }

    /** One round of the loop: an index, a field or a call. */
    method ParseSuffix(base: Expr) returns (e: Opt<Expr>)
      requires Ready() && ShapedE(base) && Peek() in {T.LBracket, T.Dot, T.LParen}
      modifies this
      ensures Valid() && depth == old(depth) && failed == e.None?
      ensures e.None? ==> Postfix(toks, old(pos), old(depth), base) == Fail
      ensures e.Some? ==> old(pos) < pos && ShapedE(e.v) && Postfix(toks, old(pos), old(depth), base) == Postfix(toks, pos, depth, e.v)
      decreases |toks| - pos, 8
    {
      if Peek() == T.LBracket {
        e := ParseIndex(base);
      } else if Peek() == T.Dot {
        e := ParseField(base);
      } else {
        e := ParseCall(base);
      }
    }

    method ParseIndex(base: Expr) returns (e: Opt<Expr>)
      requires Ready() && ShapedE(base) && Peek() == T.LBracket
      modifies this
      ensures Valid() && depth == old(depth) && failed == e.None?
      ensures e.None? ==> Postfix(toks, old(pos), old(depth), base) == Fail
      ensures e.Some? ==> old(pos) < pos && ShapedE(e.v) && Postfix(toks, old(pos), old(depth), base) == Postfix(toks, pos, depth, e.v)
      decreases |toks| - pos, 7
    {
      hide Primary, Params, Names, LambdaOf, Items, Elements, Pairs, PairsFrom, UnaryOf, Climb, ExprOf, AssignmentOf, BlockOf, Statements, Condition, ChainOf, ElseOf, WhileOf, ClauseOf, ForOf, FnDeclOf, ExprStmtOf, StatementOf, ShapedAll, ShapedS, ShapedList;
      Advance();
      var ix := ParseExpr(1);
      if ix.None? {
        return None;
      }
      var ok := Expect(T.RBracket);
      e := if ok then Some(Index(base, ix.v)) else None;
    }

    method ParseField(base: Expr) returns (e: Opt<Expr>)
      requires Ready() && ShapedE(base) && Peek() == T.Dot
      modifies this
      ensures Valid() && depth == old(depth) && failed == e.None?
      ensures e.None? ==> Postfix(toks, old(pos), old(depth), base) == Fail
      ensures e.Some? ==> old(pos) < pos && ShapedE(e.v) && Postfix(toks, old(pos), old(depth), base) == Postfix(toks, pos, depth, e.v)
    {
      hide Primary, Params, Names, LambdaOf, Items, Elements, Pairs, PairsFrom, UnaryOf, Climb, ExprOf, AssignmentOf, BlockOf, Statements, Condition, ChainOf, ElseOf, WhileOf, ClauseOf, ForOf, FnDeclOf, ExprStmtOf, StatementOf, ShapedAll, ShapedS, ShapedList;
      Advance();
      if !Peek().Ident? {
        failed := true;
        return None;
      }
      e := Some(Field(base, Peek().name));
      Advance();
    }

    method ParseCall(base: Expr) returns (e: Opt<Expr>)
      requires Ready() && ShapedE(base) && Peek() == T.LParen
      modifies this
      ensures Valid() && depth == old(depth) && failed == e.None?
      ensures e.None? ==> Postfix(toks, old(pos), old(depth), base) == Fail
      ensures e.Some? ==> old(pos) < pos && ShapedE(e.v) && Postfix(toks, old(pos), old(depth), base) == Postfix(toks, pos, depth, e.v)
      decreases |toks| - pos, 7
    {
      hide Primary, Params, Names, LambdaOf, Items, Elements, Pairs, PairsFrom, UnaryOf, Climb, ExprOf, AssignmentOf, BlockOf, Statements, Condition, ChainOf, ElseOf, WhileOf, ClauseOf, ForOf, FnDeclOf, ExprStmtOf, StatementOf, ShapedAll, ShapedS, ShapedList;
      if !base.Ident? {
        failed := true;
        return None;
      }
      Advance();
      var args := ParseItems(T.RParen);
      e := if args.None? then None else Some(Call(base.name, args.v));
    }

    method ParseUnary() returns (e: Opt<Expr>)
      requires Ready()
      modifies this
      ensures Agrees(UnaryOf(toks, old(pos), old(depth)), e) && depth == old(depth)
      decreases |toks| - pos, 5
    {
      var ok := Enter();
      if !ok {
        return None;
      }
      var op := T.PrefixOf(Peek());
      if op.Prefixed? {
        Advance();
        var x := ParseUnary();
        e := if x.None? then None else Some(Unary(op.op, x.v));
      } else {
        e := ParsePrimary();
        if e.Some? {
          e := ParsePostfix(e.v);
        }
      }
      Leave();
    }

    method ParseExpr(min: nat) returns (e: Opt<Expr>)
      requires Ready()
      modifies this
      ensures Agrees(ExprOf(toks, old(pos), old(depth), min), e) && depth == old(depth)
      decreases |toks| - pos, 6
    {
      var ok := Enter();
      if !ok {
        return None;
      }
      e := ParseUnary();
      if e.Some? {
        e := ParseClimb(e.v, min);
      }
      Leave();
    }

    /** The loop over operators that bind at least as tightly as `min`. */
    method ParseClimb(start: Expr, min: nat) returns (e: Opt<Expr>)
      requires Ready() && ShapedE(start)
      modifies this
      ensures Agrees(Climb(toks, old(pos), old(depth), min, start), e) && depth == old(depth)
      decreases |toks| - pos, 9
    {
      var left := start;
      while T.BinPrec(Peek()) != 0 && T.BinPrec(Peek()) >= min
        invariant Ready() && depth == old(depth) && old(pos) <= pos && ShapedE(left)
        invariant Climb(toks, old(pos), depth, min, start) == Climb(toks, pos, depth, min, left)
        decreases |toks| - pos
      {
        var prec, op := T.BinPrec(Peek()), T.InfixOf(Peek());
        Advance();
        var right := ParseExpr(prec + 1);
        if right.None? {
          return None;
        }
        left := Join(op, left, right.v);
      }
      e := Some(left);
    }

    method ParseAssignment() returns (e: Opt<Expr>)
      requires Ready()
      modifies this
      ensures Agrees(AssignmentOf(toks, old(pos), old(depth)), e) && depth == old(depth)
      decreases |toks| - pos, 7
    {
      hide Primary, Params, Names, LambdaOf, Items, Elements, Pairs, PairsFrom, Postfix, UnaryOf, Climb, ExprOf, BlockOf, Statements, Condition, ChainOf, ElseOf, WhileOf, ClauseOf, ForOf, FnDeclOf, ExprStmtOf, StatementOf, ShapedE, ShapedAll, ShapedS, ShapedList;
      var ok := Enter();
      if !ok {
        return None;
      }
      e := ParseExpr(1);
      if e.Some? && Peek() == T.Assign {
        Advance();
        var value := ParseAssignment();
        if value.None? {
          e := None;
        } else if !Assignable(e.v) {
          failed := true;
          e := None;
        } else {
          e := Some(Assign(e.v, value.v));
        }
      }
      Leave();
    }

    // ---- statements ----------------------------------------------------------------------------------------

    method ParseBlock() returns (b: Opt<Stmts>)
      requires Ready()
      modifies this
      ensures Agrees(BlockOf(toks, old(pos), old(depth)), b) && depth == old(depth)
      decreases |toks| - pos, 2
    {
      var ok := Expect(T.LBrace);
      if !ok {
        return None;
      }
      b := ParseStatements(false);
      if b.Some? {
        ok := Expect(T.RBrace);
        if !ok {
          b := None;
        }
      }
    }

    method ParseStatements(top: bool) returns (b: Opt<Stmts>)
      requires Ready()
      modifies this
      ensures Agrees(Statements(toks, old(pos), old(depth), top), b) && depth == old(depth)
      decreases |toks| - pos, 10
    {
      var kids := [];
      while Peek() != T.Eof && (top || Peek() != T.RBrace)
        invariant Ready() && depth == old(depth) && old(pos) <= pos
        invariant Statements(toks, old(pos), depth, top) == Stmts'(kids, Statements(toks, pos, depth, top))
        decreases |toks| - pos
      {
        StmtsStep(toks, pos, depth, top, kids);
        var s := ParseStatement();
        if s.None? {
          return None;
        }
        kids := kids + [s.v];
      }
      b := Some(StmtsWith(kids, SNil));
    }

    method ParseCondition() returns (c: Opt<Expr>)
      requires Ready() && Peek() != T.Eof
      modifies this
      ensures Agrees(Condition(toks, old(pos), old(depth)), c) && depth == old(depth)
      decreases |toks| - pos, 1
    {
      Advance();
      var ok := Expect(T.LParen);
      if !ok {
        return None;
      }
      c := ParseAssignment();
      if c.None? {
        return;
      }
      ok := Expect(T.RParen);
      if !ok {
        c := None;
      }
    }

    /** `if` and `elif` alike: the nested chain goes in the else slot. */
    method ParseIfAfterKeyword() returns (c: Opt<Chain>)
      requires Ready() && Peek() != T.Eof
      modifies this
      ensures Agrees(ChainOf(toks, old(pos), old(depth)), c) && depth == old(depth)
      decreases |toks| - pos, 3
    {
      var cond := ParseCondition();
      if cond.None? {
        return None;
      }
      var thn := ParseBlock();
      if thn.None? {
        return None;
      }
      var els := ParseElse();
      c := if els.None? then None else Some(Chain(cond.v, thn.v, els.v));
    }

    method ParseElse() returns (e: Opt<Else>)
      requires Ready()
      modifies this
      ensures Agrees(ElseOf(toks, old(pos), old(depth)), e) && depth == old(depth)
      decreases |toks| - pos, 4
    {
      if Peek() == T.KwElif {
        var c := ParseIfAfterKeyword();
        e := if c.None? then None else Some(ElseIf(c.v));
      } else if Peek() == T.KwElse {
        Advance();
        var b := ParseBlock();
        e := if b.None? then None else Some(ElseBlock(b.v));
      } else {
        e := Some(NoElse);
      }
    }

    method ParseWhile() returns (s: Opt<Stmt>)
      requires Ready() && Peek() != T.Eof
      modifies this
      ensures Agrees(WhileOf(toks, old(pos), old(depth)), s) && depth == old(depth)
      decreases |toks| - pos, 3
    {
      var c := ParseCondition();
      if c.None? {
        return None;
      }
      var b := ParseBlock();
      s := if b.None? then None else Some(While(c.v, b.v));
    }

    method ParseClause(stop: T.Token) returns (o: Opt<OptExpr>)
      requires Ready() && stop != T.Eof
      modifies this
      ensures Agrees(ClauseOf(toks, old(pos), old(depth), stop), o) && depth == old(depth)
      decreases |toks| - pos, 8
    {
      hide Primary, Params, Names, LambdaOf, Items, Elements, Pairs, PairsFrom, Postfix, UnaryOf, Climb, ExprOf, AssignmentOf, BlockOf, Statements, Condition, ChainOf, ElseOf, WhileOf, ForOf, FnDeclOf, ExprStmtOf, StatementOf, ShapedE, ShapedAll, ShapedS, ShapedList;
      var clause := Absent;
      if Peek() != stop {
        var e := ParseAssignment();
        if e.None? {
          return None;
        }
        clause := Present(e.v);
      }
      var ok := Expect(stop);
      o := if ok then Some(clause) else None;
    }

    method ParseFor() returns (s: Opt<Stmt>)
      requires Ready() && Peek() != T.Eof
      modifies this
      ensures Agrees(ForOf(toks, old(pos), old(depth)), s) && depth == old(depth)
      decreases |toks| - pos, 3
    {
      hide Primary, Params, Names, LambdaOf, Items, Elements, Pairs, PairsFrom, PairOf, Postfix, UnaryOf, Climb, ExprOf, AssignmentOf, BlockOf, Statements, Condition, ChainOf, ElseOf, WhileOf, ClauseOf, FnDeclOf, ExprStmtOf, StatementOf, DispatchOf, ShapedE, ShapedAll, ShapedS, ShapedList;
      Advance();
      var ok := Expect(T.LParen);
      if !ok {
        return None;
      }
      var init := ParseClause(T.Semicolon);
      if init.None? {
        return None;
      }
      var test := ParseClause(T.Semicolon);
      if test.None? {
        return None;
      }
      var step := ParseClause(T.RParen);
      if step.None? {
        return None;
      }
      var body := ParseBlock();
      s := if body.None? then None else Some(For(init.v, test.v, step.v, body.v));
    }

    method ParseFnDecl() returns (s: Opt<Stmt>)
      requires Ready() && Peek() != T.Eof
      modifies this
      ensures Agrees(FnDeclOf(toks, old(pos), old(depth)), s) && depth == old(depth)
      decreases |toks| - pos, 3
    {
      hide Primary, Params, Names, LambdaOf, Items, Elements, Pairs, PairsFrom, Postfix, UnaryOf, Climb, ExprOf, AssignmentOf, BlockOf, Statements, Condition, ChainOf, ElseOf, WhileOf, ClauseOf, ForOf, ExprStmtOf, StatementOf, ShapedE, ShapedAll, ShapedS, ShapedList;
      Advance();
      if !Peek().Ident? {
        failed := true;
        return None;
      }
      var name := Peek().name;
      Advance();
      var ok := Expect(T.LParen);
      if !ok {
        return None;
      }
      var ps := ParseParams();
      if ps.None? {
        return None;
      }
      var body := ParseBlock();
      s := if body.None? then None else Some(FnDecl(name, ps.v, body.v));
    }

    method ParseExprStmt() returns (s: Opt<Stmt>)
      requires Ready()
      modifies this
      ensures Agrees(ExprStmtOf(toks, old(pos), old(depth)), s) && depth == old(depth)
      decreases |toks| - pos, 8, 0
    {
      hide Primary, Params, Names, LambdaOf, Items, Elements, Pairs, PairsFrom, PairOf, Postfix, UnaryOf, Climb, ExprOf, AssignmentOf, BlockOf, Statements, Condition, ChainOf, ElseOf, WhileOf, ClauseOf, ForOf, FnDeclOf, StatementOf, DispatchOf, ShapedE, ShapedAll, ShapedS, ShapedList;
      var e := ParseAssignment();
      if e.None? {
        return None;
      }
      if Peek() == T.Semicolon {
        Advance();
      } else if !(pos > 0 && toks[pos - 1] == T.RBrace) {
        failed := true;
        return None;
      }
      s := Some(ExprStmt(e.v));
    }

    method ParseStatement() returns (s: Opt<Stmt>)
      requires Ready()
      modifies this
      ensures Agrees(StatementOf(toks, old(pos), old(depth)), s) && depth == old(depth)
      decreases |toks| - pos, 9
    {
      hide DispatchOf, Primary, Params, Names, LambdaOf, Items, Elements, Pairs, PairsFrom, Postfix, UnaryOf, Climb, ExprOf, AssignmentOf, BlockOf, Statements, Condition, ChainOf, ElseOf, WhileOf, ClauseOf, ForOf, FnDeclOf, ExprStmtOf, ShapedE, ShapedAll, ShapedS, ShapedList;
      var ok := Enter();
      if !ok {
        return None;
      }
      s := ParseDispatch();
      Leave();
    }

    /** The statement its first token announces. */
    method ParseDispatch() returns (s: Opt<Stmt>)
      requires Ready()
      modifies this
      ensures Agrees(DispatchOf(toks, old(pos), old(depth)), s) && depth == old(depth)
      decreases |toks| - pos, 8, 1
    {
      hide Primary, Params, Names, LambdaOf, Items, Elements, Pairs, PairsFrom, Postfix, UnaryOf, Climb, ExprOf, AssignmentOf, BlockOf, Statements, Condition, ChainOf, ElseOf, WhileOf, ClauseOf, ForOf, FnDeclOf, ExprStmtOf, ShapedE, ShapedAll, ShapedS, ShapedList;
      match Peek() {
        case KwPrint => s := ParsePrint();
        case KwReturn => s := ParseReturn();
        case KwIf =>
          var c := ParseIfAfterKeyword();
          s := if c.None? then None else Some(If(c.v));
        case KwWhile => s := ParseWhile();
        case KwFor => s := ParseFor();
        case KwFn => s := ParseFnDecl();
        case LBrace =>
          var b := ParseBlock();
          s := if b.None? then None else Some(Block(b.v));
        case KwBreak => s := ParseWord(Break);
        case KwContinue => s := ParseWord(Continue);
        case _ => s := ParseExprStmt();
      }
    }

    method ParsePrint() returns (s: Opt<Stmt>)
      requires Ready() && Peek() == T.KwPrint
      modifies this
      ensures Agrees(var e := AssignmentOf(toks, old(pos) + 1, old(depth));
                     if e.Ok? && At(toks, e.next) == T.Semicolon then Ok(Print(e.v), e.next + 1) else Fail, s)
      ensures depth == old(depth)
      decreases |toks| - pos, 8, 0
    {
      Advance();
      var e := ParseAssignment();
      if e.None? {
        return None;
      }
      var ok := Expect(T.Semicolon);
      s := if ok then Some(Print(e.v)) else None;
    }

    method ParseReturn() returns (s: Opt<Stmt>)
      requires Ready() && Peek() == T.KwReturn
      modifies this
      ensures Agrees(var v := ClauseOf(toks, old(pos) + 1, old(depth), T.Semicolon); if v.Ok? then Ok(Return(v.v), v.next) else Fail, s)
      ensures depth == old(depth)
      decreases |toks| - pos, 8, 0
    {
      Advance();
      var v := ParseClause(T.Semicolon);
      s := if v.None? then None else Some(Return(v.v));
    }

    /** A keyword and its semicolon. */
    method ParseWord(word: Stmt) returns (s: Opt<Stmt>)
      requires Ready() && Peek() != T.Eof
      modifies this
      ensures Agrees(if At(toks, old(pos) + 1) == T.Semicolon then Ok(word, old(pos) + 2) else Fail, s) && depth == old(depth)
    {
      Advance();
      var ok := Expect(T.Semicolon);
      s := if ok then Some(word) else None;
    }
  }

  /** parse: the tree of a whole token list, or none. */
  method Parse(toks: Toks) returns (program: Opt<Stmts>)
    requires toks == [] || toks[|toks| - 1] == T.Eof
    ensures program == if toks != [] && ProgramOf(toks).Ok? then Some(ProgramOf(toks).v) else None
  {
    if toks == [] {
      return None;
    }
    var parser := new Parser(toks);
    program := parser.ParseStatements(true);
  }
}
