/** What the formatter's output costs the parser in depth, which trees it writes soundly,
    and how two trees come to differ along their left edges. */
module Spines {
  import opened Ast
  import opened Grammar
  import opened Format
  import T = Tokens

  // ---- first tokens ------------------------------------------------------------------------

  function FirstOperand(e: Expr): T.Token
    decreases e, 1
  {
    if Compound(e) then T.LParen else First(e)
  }

  /** The token an expression's text starts with. */
  function First(e: Expr): T.Token
    decreases e, 0
  {
    match e
    case IntLit(i) => if i < 0 then T.Minus else T.Int(i)
    case FloatLit(d) => T.Float(d)
    case StrLit(s) => T.Str(T.Escape(s))
    case BoolLit(b) => if b then T.KwTrue else T.KwFalse
    case NilLit => T.KwNil
    case Ident(name) => T.Ident(name)
    case Binary(_, l, _) => FirstOperand(l)
    case Logical(_, l, _) => FirstOperand(l)
    case Unary(op, _) => T.UnToken(op)
    case Assign(t, _) => First(t)
    case Index(c, _) => FirstOperand(c)
    case Field(c, _) => FirstOperand(c)
    case Call(name, _) => T.Ident(name)
    case ArrayLit(_) => T.LBracket
    case MapLit(_) => T.LBrace
    case Lambda(_, _, _) => T.KwFn
  }

  function FirstOf(s: Stmt): T.Token {
    match s
    case ExprStmt(e) => First(e)
    case Print(_) => T.KwPrint
    case Return(_) => T.KwReturn
    case Block(_) => T.LBrace
    case If(_) => T.KwIf
    case While(_, _) => T.KwWhile
    case For(_, _, _, _) => T.KwFor
    case Break => T.KwBreak
    case Continue => T.KwContinue
    case FnDecl(_, _, _) => T.KwFn
  }

  /** Tokens that carry on with the expression before them. */
  predicate Suffix(t: T.Token) {
    t == T.LBracket || t == T.Dot || t == T.LParen
  }

  predicate Stops(t: T.Token) {
    !Suffix(t) && T.BinPrec(t) == 0
  }

  /** Tokens an expression can start with. */
  predicate Opens(t: T.Token) {
    t.Int? || t.Float? || t.Str? || t.Ident? || t.KwTrue? || t.KwFalse? || t.KwNil? || t.LParen? || t.LBracket? ||
    t.LBrace? || t.KwFn? || t.Minus? || t.Bang? || t.Tilde?
  }

  lemma {:induction false} FirstOpens(e: Expr)
    ensures Opens(First(e)) && Opens(FirstOperand(e))
  {
    match e
    case Binary(_, l, _) => FirstOpens(l);
    case Logical(_, l, _) => FirstOpens(l);
    case Assign(t, _) => FirstOpens(t);
    case Index(c, _) => FirstOpens(c);
    case Field(c, _) => FirstOpens(c);
    case _ =>
  }

  lemma {:induction false} FirstWritten(e: Expr)
    ensures Written(e) != [] && Written(e)[0] == First(e)
    ensures Operand(e) != [] && Operand(e)[0] == FirstOperand(e)
  {
    match e
    case Binary(_, l, _) => FirstWritten(l);
    case Logical(_, l, _) => FirstWritten(l);
    case Assign(t, _) => FirstWritten(t);
    case Index(c, _) => FirstWritten(c);
    case Field(c, _) => FirstWritten(c);
    case _ =>
  }

  // ---- nesting ---------------------------------------------------------------------------------

  function Max(a: nat, b: nat): nat {
    if a < b then b else a
  }

  /** Levels the parser goes down for an operand's text, from where it reads a unary. */
  function NeedU(x: Expr): (n: nat)
    ensures n >= 1
    decreases x, if Compound(x) then 1 else 0
  {
    if Compound(x) then 1 + NeedE(x)
    else
      match x
      case Index(c, i) => Max(NeedU(c), 1 + NeedE(i))
      case Field(c, _) => NeedU(c)
      case Call(_, args) => 1 + NeedList(args)
      case ArrayLit(es) => 1 + NeedList(es)
      case MapLit(ms) => 1 + NeedPairs(ms)
      case Lambda(_, _, body) => 1 + NeedAll(body)
      case _ => 1
  }

  /** Levels for an expression's text: every pair of parentheses costs two. */
  function NeedE(x: Expr): nat
    decreases x, if Compound(x) then 0 else 1
  {
    match x
    case Binary(_, l, r) => 1 + Max(NeedU(l), 1 + NeedU(r))
    case Logical(_, l, r) => 1 + Max(NeedU(l), 1 + NeedU(r))
    case Unary(_, y) => 2 + NeedU(y)
    case Assign(_, _) => 0
    case _ => 1 + NeedU(x)
  }

  /** Levels for an expression or assignment. */
  function NeedA(e: Expr): nat
    decreases e, 2
  {
    1 + if e.Assign? then Max(NeedE(e.target), NeedA(e.value)) else NeedE(e)
  }

  function NeedList(es: Exprs): nat {
    match es
    case ENil => 0
    case ECons(h, t) => Max(NeedE(h), NeedList(t))
  }

  function NeedPairs(ms: Entries): nat {
    match ms
    case MNil => 0
    case MCons(k, v, t) => Max(Max(NeedE(k), NeedE(v)), NeedPairs(t))
  }

  function NeedOpt(o: OptExpr): nat {
    match o
    case Absent => 0
    case Present(e) => NeedA(e)
  }

  function NeedS(s: Stmt): nat {
    1 + match s
        case ExprStmt(e) => NeedA(e)
        case Print(e) => NeedA(e)
        case Return(v) => NeedOpt(v)
        case Block(b) => NeedAll(b)
        case If(c) => NeedChain(c)
        case While(c, b) => Max(NeedA(c), NeedAll(b))
        case For(i, t, st, b) => Max(Max(NeedOpt(i), NeedOpt(t)), Max(NeedOpt(st), NeedAll(b)))
        case FnDecl(_, _, b) => NeedAll(b)
        case Break => 0
        case Continue => 0
  }

  /** Levels for the text of a list of statements. */
  function NeedAll(ss: Stmts): nat {
    match ss
    case SNil => 0
    case SCons(h, t) => Max(NeedS(h), NeedAll(t))
  }

  function NeedChain(c: Chain): nat {
    Max(Max(NeedA(c.cond), NeedAll(c.thn)), NeedElse(c.els))
  }

  function NeedElse(e: Else): nat {
    match e
    case NoElse => 0
    case ElseBlock(b) => NeedAll(b)
    case ElseIf(c) => NeedChain(c)
  }

  // ---- sound text ----------------------------------------------------------------------------------

  /** No string with a carriage return, and every function body sound. */
  predicate SoundE(e: Expr) {
    match e
    case StrLit(s) => '\r' !in s
    case Binary(_, l, r) => SoundE(l) && SoundE(r)
    case Logical(_, l, r) => SoundE(l) && SoundE(r)
    case Unary(_, x) => SoundE(x)
    case Assign(t, v) => SoundE(t) && SoundE(v)
    case Index(c, i) => SoundE(c) && SoundE(i)
    case Field(c, _) => SoundE(c)
    case Call(_, args) => SoundList(args)
    case ArrayLit(es) => SoundList(es)
    case MapLit(ms) => SoundPairs(ms)
    case Lambda(_, _, body) => SoundAll(body)
    case _ => true
  }

  predicate SoundList(es: Exprs) {
    es.ECons? ==> SoundE(es.head) && SoundList(es.tail)
  }

  predicate SoundPairs(ms: Entries) {
    ms.MCons? ==> SoundE(ms.key) && SoundE(ms.val) && SoundPairs(ms.rest)
  }

  predicate SoundOpt(o: OptExpr) {
    o.Present? ==> SoundE(o.e)
  }

  /** An expression statement must not start like a block or a function declaration. */
  predicate SoundS(s: Stmt) {
    match s
    case ExprStmt(e) => SoundE(e) && First(e) != T.LBrace && First(e) != T.KwFn
    case Print(e) => SoundE(e)
    case Return(v) => SoundOpt(v)
    case Block(b) => SoundAll(b)
    case If(c) => SoundChain(c)
    case While(c, b) => SoundE(c) && SoundAll(b)
    case For(i, t, st, b) => SoundOpt(i) && SoundOpt(t) && SoundOpt(st) && SoundAll(b)
    case FnDecl(_, _, b) => SoundAll(b)
    case _ => true
  }

  predicate SoundAll(ss: Stmts) {
    ss.SCons? ==> SoundS(ss.head) && SoundAll(ss.tail)
  }

  predicate SoundChain(c: Chain) {
    SoundE(c.cond) && SoundAll(c.thn) && SoundElse(c.els)
  }

  predicate SoundElse(e: Else) {
    match e
    case NoElse => true
    case ElseBlock(b) => SoundAll(b)
    case ElseIf(c) => SoundChain(c)
  }

  // ---- left edges ----------------------------------------------------------------------------------------

  /** How many operators and suffixes stand between a tree's root and its first primary. */
  function Height(e: Expr): nat {
    match e
    case Binary(_, l, _) => 1 + Height(l)
    case Logical(_, l, _) => 1 + Height(l)
    case Index(c, _) => 1 + Height(c)
    case Field(c, _) => 1 + Height(c)
    case Call(_, _) => 1
    case _ => 0
  }

  /** The tree at height `m` on the left edge. */
  function Edge(e: Expr, m: nat): Expr
    requires m <= Height(e)
  {
    if m == Height(e) then e
    else
      match e
      case Binary(_, l, _) => Edge(l, m)
      case Logical(_, l, _) => Edge(l, m)
      case Index(c, _) => Edge(c, m)
      case Field(c, _) => Edge(c, m)
      case Call(name, _) => Ident(name)
  }

  predicate DivergesAt(x: Expr, y: Expr, m: nat) {
    m <= Height(x) && m <= Height(y) && Edge(x, m) != Edge(y, m)
  }

  /** The two trees differ at a height both left edges reach: what is added on top of
      either does not mend it. */
  ghost predicate Diverges(x: Expr, y: Expr) {
    exists m :: DivergesAt(x, y, m)
  }

  /** `y` is built on `base` by one operator or suffix. */
  predicate On(y: Expr, base: Expr) {
    match y
    case Binary(_, l, _) => l == base
    case Logical(_, l, _) => l == base
    case Index(c, _) => c == base
    case Field(c, _) => c == base
    case Call(name, _) => base == Ident(name)
    case _ => false
  }

  lemma EdgeOn(y: Expr, base: Expr, m: nat)
    requires On(y, base) && m <= Height(base)
    ensures Height(y) == Height(base) + 1 && Edge(y, m) == Edge(base, m)
  {
  }

  /** Building on either side keeps a difference. */
  lemma DivergesOn(x: Expr, y: Expr, y': Expr)
    requires Diverges(x, y) && On(y', y)
    ensures Diverges(x, y') && Diverges(y', x)
  {
    hide Edge, On, Height;
    var m :| DivergesAt(x, y, m);
    EdgeOn(y', y, m);
    assert DivergesAt(x, y', m) && DivergesAt(y', x, m);
  }

  lemma DivergesSym(x: Expr, y: Expr)
    requires Diverges(x, y)
    ensures Diverges(y, x)
  {
    var m :| DivergesAt(x, y, m);
    assert DivergesAt(y, x, m);
  }

  lemma DivergesNow(x: Expr, y: Expr)
    requires Height(x) == Height(y) && x != y
    ensures Diverges(x, y)
  {
    assert DivergesAt(x, y, Height(x));
  }

  lemma DivergesDiffer(x: Expr, y: Expr)
    requires Diverges(x, y)
    ensures x != y
  {
  }

  // ---- loops only add to the left edge ---------------------------------------------------------------------

  /** Not `x`, nor anything that could still become `x`. */
  ghost predicate Off(r: Result<Expr>, x: Expr) {
    r.Ok? ==> Diverges(x, r.v)
  }

  /** One round of the suffix loop. */
  ghost predicate Steps(r: Result<Expr>, toks: Toks, p: nat, d: nat, base: Expr, q: nat, base': Expr)
    requires p <= |toks|
  {
    r.Ok? ==> p < q <= |toks| && ShapedE(base') && On(base', base) && r == Postfix(toks, q, d, base')
  }

  lemma TakesSuffix(toks: Toks, p: nat, d: nat, base: Expr) returns (q: nat, base': Expr)
    requires p <= |toks| && ShapedE(base)
    ensures if Suffix(At(toks, p)) then Steps(Postfix(toks, p, d, base), toks, p, d, base, q, base')
            else Postfix(toks, p, d, base) == Ok(base, p)
  {
    q, base' := p, base;
    match At(toks, p)
    case LBracket => q, base' := TakesIndex(toks, p, d, base);
    case Dot => q, base' := TakesField(toks, p, d, base);
    case LParen => q, base' := TakesCall(toks, p, d, base);
    case _ =>
  }

  lemma TakesIndex(toks: Toks, p: nat, d: nat, base: Expr) returns (q: nat, base': Expr)
    requires p <= |toks| && ShapedE(base) && At(toks, p) == T.LBracket
    ensures Steps(Postfix(toks, p, d, base), toks, p, d, base, q, base')
  {
    hide ExprOf, Postfix;
    q, base' := p, base;
    IndexTaken(toks, p, d, base);
    var i := ExprOf(toks, p + 1, d, 1);
    if i.Ok? && At(toks, i.next) == T.RBracket {
      q, base' := i.next + 1, Index(base, i.v);
    }
  }

  lemma IndexTaken(toks: Toks, p: nat, d: nat, base: Expr)
    requires p < |toks| && ShapedE(base) && At(toks, p) == T.LBracket
    ensures var i := ExprOf(toks, p + 1, d, 1);
            if i.Ok? && At(toks, i.next) == T.RBracket
            then p < i.next < |toks| && ShapedE(i.v) && Postfix(toks, p, d, base) == Postfix(toks, i.next + 1, d, Index(base, i.v))
            else Postfix(toks, p, d, base).Fail?
  {
    hide ExprOf, Items;
  }

  lemma TakesField(toks: Toks, p: nat, d: nat, base: Expr) returns (q: nat, base': Expr)
    requires p <= |toks| && ShapedE(base) && At(toks, p) == T.Dot
    ensures Steps(Postfix(toks, p, d, base), toks, p, d, base, q, base')
  {
    hide ExprOf, Items;
    q, base' := p, base;
    if At(toks, p + 1).Ident? {
      q, base' := p + 2, Field(base, At(toks, p + 1).name);
    }
  }

  lemma TakesCall(toks: Toks, p: nat, d: nat, base: Expr) returns (q: nat, base': Expr)
    requires p <= |toks| && ShapedE(base) && At(toks, p) == T.LParen
    ensures Steps(Postfix(toks, p, d, base), toks, p, d, base, q, base')
  {
    hide ExprOf, Items;
    q, base' := p, base;
    if base.Ident? {
      var a := Items(toks, p + 1, d, T.RParen);
      if a.Ok? {
        q, base' := a.next, Call(base.name, a.v);
      }
    }
  }

  lemma {:induction false} PostfixKeeps(toks: Toks, p: nat, d: nat, base: Expr, x: Expr)
    requires p <= |toks| && ShapedE(base) && Diverges(x, base)
    ensures Off(Postfix(toks, p, d, base), x)
    decreases |toks| - p
  {
    hide Postfix, On, Diverges;
    var q, base' := TakesSuffix(toks, p, d, base);
    if Suffix(At(toks, p)) && Postfix(toks, p, d, base).Ok? {
      DivergesOn(x, base, base');
      PostfixKeeps(toks, q, d, base', x);
    }
  }

  lemma {:induction false} ClimbKeeps(toks: Toks, p: nat, d: nat, min: nat, left: Expr, x: Expr)
    requires p <= |toks| && ShapedE(left) && Diverges(x, left)
    ensures Off(Climb(toks, p, d, min, left), x)
    decreases |toks| - p
  {
    hide Diverges, ExprOf;
    var k := T.BinPrec(At(toks, p));
    if k != 0 && k >= min {
      var r := ExprOf(toks, p + 1, d, k + 1);
      if r.Ok? {
        var next := Join(T.InfixOf(At(toks, p)), left, r.v);
        DivergesOn(x, left, next);
        ClimbKeeps(toks, r.next, d, min, next, x);
      }
    }
  }

  lemma {:induction false} PostfixGrows(toks: Toks, p: nat, d: nat, base: Expr)
    requires p <= |toks| && ShapedE(base)
    ensures var r := Postfix(toks, p, d, base);
            if Suffix(At(toks, p)) then r.Ok? ==> Height(r.v) > Height(base) else r == Ok(base, p)
    decreases |toks| - p
  {
    hide Postfix, On, Height, Suffix, Edge;
    var q, base' := TakesSuffix(toks, p, d, base);
    if Suffix(At(toks, p)) && Postfix(toks, p, d, base).Ok? {
      EdgeOn(base', base, 0);
      PostfixGrows(toks, q, d, base');
    }
  }

  lemma {:induction false} ClimbGrows(toks: Toks, p: nat, d: nat, min: nat, left: Expr)
    requires p <= |toks| && ShapedE(left)
    ensures var r := Climb(toks, p, d, min, left);
            var k := T.BinPrec(At(toks, p));
            if k != 0 && k >= min then r.Ok? ==> Height(r.v) > Height(left) else r == Ok(left, p)
    decreases |toks| - p
  {
    hide ExprOf;
    var k := T.BinPrec(At(toks, p));
    if k != 0 && k >= min {
      var r := ExprOf(toks, p + 1, d, k + 1);
      if r.Ok? { ClimbGrows(toks, r.next, d, min, Join(T.InfixOf(At(toks, p)), left, r.v)); }
    }
  }
}
