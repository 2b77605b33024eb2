/** Reading back what the formatter writes, one production at a time: an expression comes
    back exactly when it fits the depth left and is sound, and otherwise not at all. */
module RoundExprs {
  import opened Ast
  import opened Grammar
  import opened Format
  import opened Spines
  import T = Tokens

  // ---- what fits at a depth -------------------------------------------------------------------

  predicate FitsU(x: Expr, d: nat) { SoundE(x) && d + NeedU(x) <= MAX_DEPTH }

  predicate FitsR(x: Expr, d: nat) { SoundE(x) && d + 1 + NeedU(x) <= MAX_DEPTH }

  predicate FitsE(x: Expr, d: nat) { SoundE(x) && d + NeedE(x) <= MAX_DEPTH }

  predicate FitsA(x: Expr, d: nat) { SoundE(x) && d + NeedA(x) <= MAX_DEPTH }

  predicate FitsList(es: Exprs, d: nat) { SoundList(es) && d + NeedList(es) <= MAX_DEPTH }

  predicate FitsPairs(ms: Entries, d: nat) { SoundPairs(ms) && d + NeedPairs(ms) <= MAX_DEPTH }

  predicate FitsAll(ss: Stmts, d: nat) { SoundAll(ss) && d + NeedAll(ss) <= MAX_DEPTH }

  // ---- what reading back comes to ------------------------------------------------------------------

  ghost predicate Wrong<V>(r: Result<V>, v: V) {
    r.Ok? ==> r.v != v
  }

  /** The operand at `p..q` is read and the suffix loop goes on from it. */
  ghost predicate OperandDone(toks: Toks, p: nat, d: nat, x: Expr, q: nat)
    requires p <= |toks| && q <= |toks| && ShapedE(x)
  {
    if FitsU(x, d) then UnaryOf(toks, p, d) == Postfix(toks, q, d + 1, x) else Off(UnaryOf(toks, p, d), x)
  }

  /** The same for an operand read as the right side of an operator. */
  ghost predicate RightDone(toks: Toks, p: nat, d: nat, min: nat, x: Expr, q: nat)
    requires p <= |toks| && q <= |toks| && ShapedE(x)
  {
    if FitsR(x, d) then
      var t := At(toks, q);
      !Suffix(t) && (T.BinPrec(t) == 0 || T.BinPrec(t) < min) ==> ExprOf(toks, p, d, min) == Ok(x, q)
    else Off(ExprOf(toks, p, d, min), x)
  }

  ghost predicate ExprDone(toks: Toks, p: nat, d: nat, e: Expr, q: nat)
    requires p <= |toks| && q <= |toks| && ShapedE(e)
  {
    if FitsE(e, d) then Stops(At(toks, q)) ==> ExprOf(toks, p, d, 1) == Ok(e, q) else Off(ExprOf(toks, p, d, 1), e)
  }

  ghost predicate ListDone(toks: Toks, p: nat, d: nat, es: Exprs, close: T.Token, q: nat)
    requires p <= |toks| && close != T.Eof
  {
    if FitsList(es, d) then Items(toks, p, d, close) == Ok(es, q + 1) else Wrong(Items(toks, p, d, close), es)
  }

  ghost predicate ElementsDone(toks: Toks, p: nat, d: nat, es: Exprs, close: T.Token, q: nat)
    requires p <= |toks| && close != T.Eof
  {
    if FitsList(es, d) then Elements(toks, p, d, close) == Ok(es, q + 1) else Wrong(Elements(toks, p, d, close), es)
  }

  ghost predicate PairsDone(toks: Toks, p: nat, d: nat, ms: Entries, q: nat)
    requires p <= |toks|
  {
    if FitsPairs(ms, d) then PairsFrom(toks, p, d) == Ok(ms, q + 1) else Wrong(PairsFrom(toks, p, d), ms)
  }

  ghost predicate BlockDone(toks: Toks, p: nat, d: nat, ss: Stmts, q: nat)
    requires p <= |toks|
  {
    if FitsAll(ss, d) then BlockOf(toks, p, d) == Ok(ss, q) else Wrong(BlockOf(toks, p, d), ss)
  }

  // ---- operands ----------------------------------------------------------------------------------------

  /** A primary decides the operand. */
  lemma PrimaryStep(toks: Toks, p: nat, d: nat, x: Expr, q: nat)
    requires p <= |toks| && q <= |toks| && ShapedE(x) && T.PrefixOf(At(toks, p)).NotPrefix?
    requires d < MAX_DEPTH ==>
               if FitsU(x, d) then Primary(toks, p, d + 1) == Ok(x, q) else Off(Primary(toks, p, d + 1), x)
    ensures OperandDone(toks, p, d, x, q)
  {
    hide Primary, Postfix, SoundE, NeedU, ShapedE, Diverges;
    if d < MAX_DEPTH && !FitsU(x, d) {
      var b := Primary(toks, p, d + 1);
      if b.Ok? { PostfixKeeps(toks, b.next, d + 1, b.v, x); }
    }
  }

  predicate Leaf(x: Expr) {
    x.IntLit? || x.FloatLit? || x.StrLit? || x.BoolLit? || x.NilLit? || x.Ident?
  }

  lemma LeafStep(toks: Toks, p: nat, d: nat, x: Expr)
    requires p < |toks| && Leaf(x) && ShapedE(x) && At(toks, p) == First(x)
    ensures OperandDone(toks, p, d, x, p + 1)
  {
    hide UnaryOf, Postfix, Diverges;
    assert NeedU(x) == 1;
    if x.StrLit? {
      T.EscapeExact(x.s);
      if !SoundE(x) { DivergesNow(x, StrLit(T.Unescape(T.Escape(x.s)))); }
    }
    PrimaryStep(toks, p, d, x, p + 1);
  }

  lemma ParensStep(toks: Toks, p: nat, d: nat, x: Expr, q: nat)
    requires p + 1 < q <= |toks| && ShapedE(x) && Compound(x) && At(toks, p) == T.LParen && At(toks, q - 1) == T.RParen
    requires ExprDone(toks, p + 1, d + 1, x, q - 1)
    ensures OperandDone(toks, p, d, x, q)
  {
    hide UnaryOf, Postfix, Diverges, ExprOf, NeedE, SoundE, ShapedE;
    assert FitsU(x, d) <==> FitsE(x, d + 1);
    PrimaryStep(toks, p, d, x, q);
  }

  lemma FitsIndex(c: Expr, i: Expr, d: nat)
    ensures FitsU(Index(c, i), d) <==> FitsU(c, d) && FitsE(i, d + 1)
  {
    hide NeedE;
  }

  lemma IndexStep(toks: Toks, p: nat, d: nat, c: Expr, i: Expr, m: nat, q: nat)
    requires p <= m && m + 1 < q <= |toks| && ShapedE(c) && ShapedE(i)
    requires At(toks, m) == T.LBracket && At(toks, q - 1) == T.RBracket
    requires OperandDone(toks, p, d, c, m) && ExprDone(toks, m + 1, d + 1, i, q - 1)
    ensures ShapedE(Index(c, i)) && OperandDone(toks, p, d, Index(c, i), q)
  {
    hide UnaryOf, Diverges, ExprOf, Postfix, Off, FitsU, FitsE, SoundE, Edge, NeedU, NeedE;
    FitsIndex(c, i, d);
    if !FitsU(c, d) {
      OffOn(UnaryOf(toks, p, d), c, Index(c, i));
    } else if !FitsE(i, d + 1) {
      IndexOff(toks, p, d, c, i, m);
    } else {
      IndexOn(toks, d + 1, c, i, m, q);
    }
  }

  lemma IndexOn(toks: Toks, d: nat, c: Expr, i: Expr, m: nat, q: nat)
    requires m + 1 < q <= |toks| && ShapedE(c) && ShapedE(i) && At(toks, m) == T.LBracket && At(toks, q - 1) == T.RBracket
    requires ExprOf(toks, m + 1, d, 1) == Ok(i, q - 1)
    ensures Postfix(toks, m, d, c) == Postfix(toks, q, d, Index(c, i))
  {
    hide ExprOf, Items;
  }

  /** An index that is read as something else stays off whatever follows. */
  lemma IndexOff(toks: Toks, p: nat, d: nat, c: Expr, i: Expr, m: nat)
    requires p <= m && m + 1 < |toks| && ShapedE(c) && ShapedE(i) && At(toks, m) == T.LBracket
    requires UnaryOf(toks, p, d) == Postfix(toks, m, d + 1, c) && Off(ExprOf(toks, m + 1, d + 1, 1), i)
    ensures Off(UnaryOf(toks, p, d), Index(c, i))
  {
    hide UnaryOf, Diverges, ExprOf, Items, Edge, Primary, Compound;
    var r := ExprOf(toks, m + 1, d + 1, 1);
    if r.Ok? && At(toks, r.next) == T.RBracket {
      DivergesDiffer(i, r.v);
      DivergesNow(Index(c, i), Index(c, r.v));
      PostfixKeeps(toks, r.next + 1, d + 1, Index(c, r.v), Index(c, i));
    }
  }

  /** A result that is off one tree is off what is built on that tree. */
  lemma OffOn(r: Result<Expr>, x: Expr, x': Expr)
    requires Off(r, x) && On(x', x)
    ensures Off(r, x')
  {
    hide Diverges, On;
    if r.Ok? {
      DivergesSym(x, r.v);
      DivergesOn(r.v, x, x');
    }
  }

  lemma FitsField(c: Expr, name: string, d: nat)
    ensures FitsU(Field(c, name), d) <==> FitsU(c, d)
  {
  }

  lemma FieldStep(toks: Toks, p: nat, d: nat, c: Expr, name: string, m: nat)
    requires p <= m && m + 2 <= |toks| && ShapedE(c) && At(toks, m) == T.Dot && At(toks, m + 1) == T.Ident(name)
    requires OperandDone(toks, p, d, c, m)
    ensures ShapedE(Field(c, name)) && OperandDone(toks, p, d, Field(c, name), m + 2)
  {
    hide UnaryOf, Diverges, ExprOf, Items, FitsU, SoundE;
    FitsField(c, name, d);
    if !FitsU(c, d) { OffOn(UnaryOf(toks, p, d), c, Field(c, name)); }
  }

  lemma FitsCall(name: string, args: Exprs, d: nat)
    ensures FitsU(Call(name, args), d) <==> d < MAX_DEPTH && FitsList(args, d + 1)
  {
    hide NeedList, SoundList;
  }

  lemma CallStep(toks: Toks, p: nat, d: nat, name: string, args: Exprs, q: nat)
    requires p + 2 < q <= |toks| && ShapedList(args) && At(toks, p) == T.Ident(name) && At(toks, p + 1) == T.LParen
    requires d < MAX_DEPTH ==> ListDone(toks, p + 2, d + 1, args, T.RParen, q - 1)
    ensures OperandDone(toks, p, d, Call(name, args), q)
  {
    hide Items, ExprOf, Diverges, FitsU, FitsList, ShapedList, Edge;
    var x := Call(name, args);
    FitsCall(name, args, d);
    if d < MAX_DEPTH {
      assert UnaryOf(toks, p, d) == Postfix(toks, p + 1, d + 1, Ident(name));
      var a := Items(toks, p + 2, d + 1, T.RParen);
      if !FitsList(args, d + 1) && a.Ok? {
        DivergesNow(x, Call(name, a.v));
        PostfixKeeps(toks, a.next, d + 1, Call(name, a.v), x);
      }
    }
  }

  lemma FitsArray(es: Exprs, d: nat)
    ensures FitsU(ArrayLit(es), d) <==> d < MAX_DEPTH && FitsList(es, d + 1)
  {
    hide NeedList, SoundList;
  }

  lemma ArrayStep(toks: Toks, p: nat, d: nat, es: Exprs, q: nat)
    requires p + 1 < q <= |toks| && ShapedList(es) && At(toks, p) == T.LBracket
    requires d < MAX_DEPTH ==> ListDone(toks, p + 1, d + 1, es, T.RBracket, q - 1)
    ensures OperandDone(toks, p, d, ArrayLit(es), q)
  {
    hide UnaryOf, Items, Diverges, FitsU, FitsList, ShapedList, Edge;
    FitsArray(es, d);
    var r := Items(toks, p + 1, d + 1, T.RBracket);
    if r.Ok? && r.v != es { DivergesNow(ArrayLit(es), ArrayLit(r.v)); }
    PrimaryStep(toks, p, d, ArrayLit(es), q);
  }

  lemma FitsMap(ms: Entries, d: nat)
    ensures FitsU(MapLit(ms), d) <==> d < MAX_DEPTH && FitsPairs(ms, d + 1)
  {
    hide NeedPairs, SoundPairs;
  }

  lemma MapStep(toks: Toks, p: nat, d: nat, ms: Entries, q: nat)
    requires p + 1 < q <= |toks| && ShapedEntries(ms) && At(toks, p) == T.LBrace
    requires d < MAX_DEPTH ==>
               if FitsPairs(ms, d + 1) then Pairs(toks, p + 1, d + 1) == Ok(ms, q) else Wrong(Pairs(toks, p + 1, d + 1), ms)
    ensures OperandDone(toks, p, d, MapLit(ms), q)
  {
    hide UnaryOf, Pairs, Diverges, FitsU, FitsPairs, ShapedEntries, Edge;
    FitsMap(ms, d);
    var r := Pairs(toks, p + 1, d + 1);
    if r.Ok? && r.v != ms { DivergesNow(MapLit(ms), MapLit(r.v)); }
    PrimaryStep(toks, p, d, MapLit(ms), q);
  }

  lemma FitsLambda(params: seq<string>, body: Stmts, d: nat)
    ensures FitsU(Lambda(0, params, body), d) <==> d < MAX_DEPTH && FitsAll(body, d + 1)
  {
    hide NeedAll, SoundAll;
  }

  lemma LambdaStep(toks: Toks, p: nat, d: nat, params: seq<string>, body: Stmts, m: nat, q: nat)
    requires p + 2 < m <= q <= |toks| && ShapedAll(body) && At(toks, p) == T.KwFn && At(toks, p + 1) == T.LParen
    requires Params(toks, p + 2) == Ok(params, m) && (d < MAX_DEPTH ==> BlockDone(toks, m, d + 1, body, q))
    ensures OperandDone(toks, p, d, Lambda(0, params, body), q)
  {
    hide UnaryOf, Params, BlockOf, Diverges, FitsU, FitsAll, ShapedAll, Edge;
    var x := Lambda(0, params, body);
    FitsLambda(params, body, d);
    var r := BlockOf(toks, m, d + 1);
    if r.Ok? && r.v != body { DivergesNow(x, Lambda(0, params, r.v)); }
    PrimaryStep(toks, p, d, x, q);
  }

  // ---- expressions -------------------------------------------------------------------------------------------

  lemma RightStep(toks: Toks, p: nat, d: nat, min: nat, x: Expr, q: nat)
    requires p <= |toks| && q <= |toks| && ShapedE(x)
    requires OperandDone(toks, p, d + 1, x, q)
    ensures RightDone(toks, p, d, min, x, q)
  {
    hide UnaryOf, Postfix, Climb, Diverges, SoundE, NeedU, ShapedE, Height, Edge;
    assert FitsR(x, d) <==> FitsU(x, d + 1);
    if d < MAX_DEPTH {
      var l := UnaryOf(toks, p, d + 1);
      PostfixGrows(toks, q, d + 2, x);
      ClimbGrows(toks, q, d + 1, min, x);
      if !FitsR(x, d) && l.Ok? { ClimbKeeps(toks, l.next, d + 1, min, l.v, x); }
    }
  }

  lemma PlainStep(toks: Toks, p: nat, d: nat, x: Expr, q: nat)
    requires p <= |toks| && q <= |toks| && ShapedE(x) && !Compound(x) && RightDone(toks, p, d, 1, x, q)
    ensures ExprDone(toks, p, d, x, q)
  {
    hide ExprOf, Diverges, SoundE, NeedU;
  }

  lemma FitsPrefix(op: UnOp, x: Expr, d: nat)
    ensures FitsE(Unary(op, x), d) <==> FitsU(x, d + 2)
  {
  }

  lemma UnaryPrefixed(toks: Toks, p: nat, d: nat, op: UnOp)
    requires p < |toks| && T.PrefixOf(At(toks, p)) == T.Prefixed(op)
    ensures UnaryOf(toks, p, d) ==
            if d >= MAX_DEPTH then Fail
            else
              var r := UnaryOf(toks, p + 1, d + 1);
              if r.Ok? then Ok(Unary(op, r.v), r.next) else Fail
  {
    hide Primary, Postfix;
  }

  lemma PrefixStep(toks: Toks, p: nat, d: nat, op: UnOp, x: Expr, q: nat)
    requires p < |toks| && q <= |toks| && ShapedE(x) && T.PrefixOf(At(toks, p)) == T.Prefixed(op)
    requires OperandDone(toks, p + 1, d + 2, x, q)
    ensures ShapedE(Unary(op, x)) && ExprDone(toks, p, d, Unary(op, x), q)
  {
    hide UnaryOf, Postfix, Climb, Diverges, FitsE, SoundE, NeedU, Edge;
    var e := Unary(op, x);
    FitsPrefix(op, x, d);
    UnaryPrefixed(toks, p, d + 1, op);
    if d + 1 < MAX_DEPTH {
      var z := d + 2;
      var r := UnaryOf(toks, p + 1, z);
      if FitsU(x, d + 2) {
        PostfixGrows(toks, q, d + 3, x);
        ClimbGrows(toks, q, d + 1, 1, e);
      } else if r.Ok? {
        DivergesDiffer(x, r.v);
        DivergesNow(e, Unary(op, r.v));
        ClimbKeeps(toks, r.next, d + 1, 1, Unary(op, r.v), e);
      }
    }
  }

  lemma FitsJoin(f: T.Infix, l: Expr, r: Expr, d: nat)
    requires !f.NotInfix?
    ensures FitsE(Join(f, l, r), d) <==> FitsU(l, d + 1) && FitsR(r, d + 1)
  {
    hide *;
    JoinCases(f, l, r);
    if f.Arith? {
      FitsBinary(f.op, l, r, d);
    } else {
      FitsLogical(f.isAnd, l, r, d);
    }
  }

  lemma JoinCases(f: T.Infix, l: Expr, r: Expr)
    requires !f.NotInfix?
    ensures Join(f, l, r) == if f.Arith? then Binary(f.op, l, r) else Logical(f.isAnd, l, r)
  {
  }

  lemma FitsBinary(op: BinOp, l: Expr, r: Expr, d: nat)
    ensures FitsE(Binary(op, l, r), d) <==> FitsU(l, d + 1) && FitsR(r, d + 1)
  {
    hide NeedU;
  }

  lemma FitsLogical(isAnd: bool, l: Expr, r: Expr, d: nat)
    ensures FitsE(Logical(isAnd, l, r), d) <==> FitsU(l, d + 1) && FitsR(r, d + 1)
  {
    hide NeedU;
  }

  lemma JoinStep(toks: Toks, p: nat, d: nat, l: Expr, r: Expr, m: nat, q: nat)
    requires p <= m < q <= |toks| && ShapedE(l) && ShapedE(r) && !T.InfixOf(At(toks, m)).NotInfix? && !Suffix(At(toks, m))
    requires OperandDone(toks, p, d + 1, l, m) && RightDone(toks, m + 1, d + 1, T.BinPrec(At(toks, m)) + 1, r, q)
    ensures var e := Join(T.InfixOf(At(toks, m)), l, r); ShapedE(e) && ExprDone(toks, p, d, e, q)
  {
    hide UnaryOf, Postfix, Climb, Diverges, FitsE, FitsU, FitsR, SoundE, NeedU, Edge, ShapedE, Join, Height, On;
    var f := T.InfixOf(At(toks, m));
    var e := Join(f, l, r);
    JoinShaped(f, l, r);
    FitsJoin(f, l, r, d);
    if d < MAX_DEPTH {
      if FitsU(l, d + 1) {
        PostfixGrows(toks, m, d + 2, l);
        JoinRight(toks, d, l, r, m, q);
      } else {
        JoinLeft(toks, p, d, l, r, f);
      }
    }
  }

  /** The left operand is off: so is the whole. */
  lemma JoinLeft(toks: Toks, p: nat, d: nat, l: Expr, r: Expr, f: T.Infix)
    requires p <= |toks| && d < MAX_DEPTH && !f.NotInfix? && Off(UnaryOf(toks, p, d + 1), l)
    ensures Off(ExprOf(toks, p, d, 1), Join(f, l, r))
  {
    hide UnaryOf, Climb, Diverges;
    var u := UnaryOf(toks, p, d + 1);
    OffOn(u, l, Join(f, l, r));
    if u.Ok? { ClimbKeeps(toks, u.next, d + 1, 1, u.v, Join(f, l, r)); }
  }

  /** The left operand is read: the right one decides. */
  lemma JoinRight(toks: Toks, d: nat, l: Expr, r: Expr, m: nat, q: nat)
    requires m < q <= |toks| && ShapedE(l) && ShapedE(r) && !T.InfixOf(At(toks, m)).NotInfix?
    requires RightDone(toks, m + 1, d + 1, T.BinPrec(At(toks, m)) + 1, r, q)
    ensures var e := Join(T.InfixOf(At(toks, m)), l, r);
            if FitsR(r, d + 1) then Stops(At(toks, q)) ==> Climb(toks, m, d + 1, 1, l) == Ok(e, q)
            else Off(Climb(toks, m, d + 1, 1, l), e)
  {
    hide UnaryOf, Postfix, ExprOf, Join, Diverges, FitsR, Edge, Height, ShapedE, SoundE, NeedU, On;
    JoinShaped(T.InfixOf(At(toks, m)), l, r);
    var k, f := T.BinPrec(At(toks, m)), T.InfixOf(At(toks, m));
    var e := Join(f, l, r);
    var x := ExprOf(toks, m + 1, d + 1, k + 1);
    if FitsR(r, d + 1) {
      ClimbGrows(toks, q, d + 1, 1, e);
    } else if x.Ok? {
      DivergesDiffer(r, x.v);
      JoinShaped(f, l, x.v);
      JoinDiverges(f, l, r, x.v);
      ClimbKeeps(toks, x.next, d + 1, 1, Join(f, l, x.v), e);
    }
  }

  lemma JoinShaped(f: T.Infix, l: Expr, r: Expr)
    requires !f.NotInfix? && ShapedE(l) && ShapedE(r)
    ensures ShapedE(Join(f, l, r))
  {
  }

  lemma JoinDiverges(f: T.Infix, l: Expr, r: Expr, r': Expr)
    requires !f.NotInfix? && r != r'
    ensures Diverges(Join(f, l, r), Join(f, l, r'))
  {
    hide *;
    JoinInjective(f, l, r, r');
    JoinHeight(f, l, r, r');
    DivergesNow(Join(f, l, r), Join(f, l, r'));
  }

  lemma JoinInjective(f: T.Infix, l: Expr, r: Expr, r': Expr)
    requires !f.NotInfix? && r != r'
    ensures Join(f, l, r) != Join(f, l, r')
  {
    match f
    case Circuit(isAnd) => assert Join(f, l, r).r == r && Join(f, l, r').r == r';
    case Arith(op) => assert Join(f, l, r).r == r && Join(f, l, r').r == r';
  }

  lemma JoinHeight(f: T.Infix, l: Expr, r: Expr, r': Expr)
    requires !f.NotInfix?
    ensures Height(Join(f, l, r)) == Height(Join(f, l, r'))
  {
    hide *;
    JoinOn(f, l, r);
    JoinOn(f, l, r');
    EdgeOn(Join(f, l, r), l, 0);
    EdgeOn(Join(f, l, r'), l, 0);
  }

  lemma JoinOn(f: T.Infix, l: Expr, r: Expr)
    requires !f.NotInfix?
    ensures On(Join(f, l, r), l)
  {
  }

  // ---- lists ---------------------------------------------------------------------------------------------------

  lemma FitsCons(h: Expr, t: Exprs, d: nat)
    ensures FitsList(ECons(h, t), d) <==> FitsE(h, d) && FitsList(t, d)
  {
    hide NeedE, SoundE;
  }

  lemma LastElement(toks: Toks, p: nat, d: nat, h: Expr, close: T.Token, q: nat)
    requires p <= q < |toks| && ShapedE(h) && close != T.Eof && close != T.Comma && Stops(close) && At(toks, q) == close
    requires ExprDone(toks, p, d, h, q) && d <= MAX_DEPTH
    ensures ElementsDone(toks, p, d, ECons(h, ENil), close, q)
  {
    hide ExprOf, Diverges, FitsE;
    FitsCons(h, ENil, d);
    var r := ExprOf(toks, p, d, 1);
    if !FitsE(h, d) && r.Ok? { DivergesDiffer(h, r.v); }
  }

  lemma ElementsIs(toks: Toks, p: nat, d: nat, close: T.Token)
    requires p <= |toks| && close != T.Eof
    ensures Elements(toks, p, d, close) ==
            var e := ExprOf(toks, p, d, 1);
            if e.Fail? then Fail
            else if At(toks, e.next) == T.Comma then
              var r := Elements(toks, e.next + 1, d, close);
              if r.Ok? then Ok(ECons(e.v, r.v), r.next) else Fail
            else if At(toks, e.next) == close then Ok(ECons(e.v, ENil), e.next + 1)
            else Fail
  {
    hide ExprOf;
  }

  lemma NextElement(toks: Toks, p: nat, d: nat, h: Expr, t: Exprs, close: T.Token, m: nat, q: nat)
    requires p <= m < q < |toks| && ShapedE(h) && close != T.Eof && At(toks, m) == T.Comma
    requires ExprDone(toks, p, d, h, m) && ElementsDone(toks, m + 1, d, t, close, q)
    ensures ElementsDone(toks, p, d, ECons(h, t), close, q)
  {
    hide ExprOf, Elements, Diverges, FitsE, FitsList, ShapedE, ShapedList, SoundE, SoundList, NeedE, NeedList, Items;
    FitsCons(h, t, d);
    ElementsIs(toks, p, d, close);
    var r := ExprOf(toks, p, d, 1);
    if !FitsE(h, d) && r.Ok? { DivergesDiffer(h, r.v); }
  }

  lemma FitsEntry(k: Expr, v: Expr, t: Entries, d: nat)
    ensures FitsPairs(MCons(k, v, t), d) <==> FitsE(k, d) && FitsE(v, d) && FitsPairs(t, d)
  {
    hide NeedE, SoundE;
  }

  /** One key and value: both come back or the pair does not. */
  lemma PairStep(toks: Toks, p: nat, d: nat, k: Expr, v: Expr, m: nat, n: nat)
    requires p <= m < n <= |toks| && ShapedE(k) && ShapedE(v) && At(toks, m) == T.Assign && Stops(At(toks, n))
    requires ExprDone(toks, p, d, k, m) && ExprDone(toks, m + 1, d, v, n)
    ensures if FitsE(k, d) && FitsE(v, d) then PairOf(toks, p, d) == Ok((k, v), n) else Wrong(PairOf(toks, p, d), (k, v))
  {
    hide ExprOf, Diverges, FitsE, ShapedE, Items, Elements;
    if FitsE(k, d) {
      assert ExprOf(toks, p, d, 1) == Ok(k, m);
      PairRight(toks, m, d, v, n);
    } else {
      var a := ExprOf(toks, p, d, 1);
      if a.Ok? { DivergesDiffer(k, a.v); }
    }
  }

  lemma PairRight(toks: Toks, m: nat, d: nat, v: Expr, n: nat)
    requires m < n <= |toks| && ShapedE(v) && Stops(At(toks, n)) && ExprDone(toks, m + 1, d, v, n)
    ensures if FitsE(v, d) then ExprOf(toks, m + 1, d, 1) == Ok(v, n) else Wrong(ExprOf(toks, m + 1, d, 1), v)
  {
    hide ExprOf, Diverges, FitsE, ShapedE;
    var b := ExprOf(toks, m + 1, d, 1);
    if !FitsE(v, d) && b.Ok? { DivergesDiffer(v, b.v); }
  }

  lemma LastPair(toks: Toks, p: nat, d: nat, k: Expr, v: Expr, m: nat, q: nat)
    requires p <= m < q < |toks| && ShapedE(k) && ShapedE(v) && At(toks, m) == T.Assign && At(toks, q) == T.RBrace
    requires ExprDone(toks, p, d, k, m) && ExprDone(toks, m + 1, d, v, q) && d <= MAX_DEPTH
    ensures PairsDone(toks, p, d, MCons(k, v, MNil), q)
  {
    hide PairOf, ExprDone, FitsE;
    FitsEntry(k, v, MNil, d);
    PairStep(toks, p, d, k, v, m, q);
  }

  lemma NextPair(toks: Toks, p: nat, d: nat, k: Expr, v: Expr, t: Entries, m: nat, n: nat, q: nat)
    requires p <= m < n < q < |toks| && ShapedE(k) && ShapedE(v) && At(toks, m) == T.Assign && At(toks, n) == T.Comma
    requires ExprDone(toks, p, d, k, m) && ExprDone(toks, m + 1, d, v, n) && PairsDone(toks, n + 1, d, t, q)
    ensures PairsDone(toks, p, d, MCons(k, v, t), q)
  {
    hide PairOf, ExprDone, FitsE, FitsPairs;
    FitsEntry(k, v, t, d);
    PairStep(toks, p, d, k, v, m, n);
  }
}
