/** The language's grammar as the parser reads it: one function a production, from a
    position and a nesting depth to a tree and the position after it. */
module Grammar {
  import opened Ast
  import T = Tokens

  type Toks = seq<T.Token>

  const MAX_DEPTH := 200

  datatype Result<V> = Ok(v: V, next: nat) | Fail

  /** The token at `p`; the input ends in Eof for good. */
  function At(toks: Toks, p: nat): T.Token {
    if p < |toks| then toks[p] else T.Eof
  }

  /** A result that read at least one token. */
  predicate Read<V>(toks: Toks, p: nat, r: Result<V>) {
    r.Ok? ==> p < r.next <= |toks|
  }

  // ---- what trees the parser makes -----------------------------------------------------

  /** An expression without a bare assignment. */
  predicate ShapedE(e: Expr)
    decreases e, 0
  {
    match e
    case IntLit(i) => i >= 0
    case Binary(_, l, r) => ShapedE(l) && ShapedE(r)
    case Logical(_, l, r) => ShapedE(l) && ShapedE(r)
    case Unary(_, x) => ShapedE(x)
    case Assign(_, _) => false
    case Index(c, i) => ShapedE(c) && ShapedE(i)
    case Field(c, _) => ShapedE(c)
    case Call(_, args) => ShapedList(args)
    case ArrayLit(es) => ShapedList(es)
    case MapLit(ms) => ShapedEntries(ms)
    case Lambda(id, _, body) => id == 0 && ShapedAll(body)
    case _ => true
  }

  /** An expression or a chain of assignments. */
  predicate ShapedA(e: Expr)
    decreases e, 1
  {
    if e.Assign? then Assignable(e.target) && ShapedE(e.target) && ShapedA(e.value) else ShapedE(e)
  }

  predicate Assignable(e: Expr) {
    e.Ident? || e.Index? || e.Field?
  }

  predicate ShapedList(es: Exprs) {
    es.ECons? ==> ShapedE(es.head) && ShapedList(es.tail)
  }

  predicate ShapedEntries(ms: Entries) {
    ms.MCons? ==> ShapedE(ms.key) && ShapedE(ms.val) && ShapedEntries(ms.rest)
  }

  predicate ShapedOpt(o: OptExpr) {
    o.Present? ==> ShapedA(o.e)
  }

  predicate ShapedS(s: Stmt) {
    match s
    case ExprStmt(e) => ShapedA(e)
    case Print(e) => ShapedA(e)
    case Return(v) => ShapedOpt(v)
    case Block(b) => ShapedAll(b)
    case If(c) => ShapedChain(c)
    case While(c, b) => ShapedA(c) && ShapedAll(b)
    case For(i, t, st, b) => ShapedOpt(i) && ShapedOpt(t) && ShapedOpt(st) && ShapedAll(b)
    case FnDecl(_, _, b) => ShapedAll(b)
    case _ => true
  }

  predicate ShapedAll(ss: Stmts) {
    ss.SCons? ==> ShapedS(ss.head) && ShapedAll(ss.tail)
  }

  predicate ShapedChain(c: Chain) {
    ShapedA(c.cond) && ShapedAll(c.thn) && ShapedElse(c.els)
  }

  predicate ShapedElse(e: Else) {
    match e
    case NoElse => true
    case ElseBlock(b) => ShapedAll(b)
    case ElseIf(c) => ShapedChain(c)
  }

  // ---- expressions -----------------------------------------------------------------------

  /** A primary, its guard already passed: `d` is the depth inside. */
  function Primary(toks: Toks, p: nat, d: nat): (r: Result<Expr>)
    requires p <= |toks|
    ensures Read(toks, p, r) && (r.Ok? ==> ShapedE(r.v))
    decreases |toks| - p, 4
  {
    match At(toks, p)
    case Int(i) => Ok(IntLit(i), p + 1)
    case Float(x) => Ok(FloatLit(x), p + 1)
    case Str(raw) => Ok(StrLit(T.Unescape(raw)), p + 1)
    case KwTrue => Ok(BoolLit(true), p + 1)
    case KwFalse => Ok(BoolLit(false), p + 1)
    case KwNil => Ok(NilLit, p + 1)
    case Ident(name) => Ok(Ident(name), p + 1)
    case LParen =>
      var r := ExprOf(toks, p + 1, d, 1);
      if r.Ok? && At(toks, r.next) == T.RParen then Ok(r.v, r.next + 1) else Fail
    case LBracket =>
      var r := Items(toks, p + 1, d, T.RBracket);
      if r.Ok? then Ok(ArrayLit(r.v), r.next) else Fail
    case LBrace =>
      var r := Pairs(toks, p + 1, d);
      if r.Ok? then Ok(MapLit(r.v), r.next) else Fail
    case KwFn => LambdaOf(toks, p, d)
    case _ => Fail
  }

  /** The names of a parameter list and its closing parenthesis. */
  function Params(toks: Toks, p: nat): (r: Result<seq<string>>)
    requires p <= |toks|
    ensures Read(toks, p, r)
  {
    if At(toks, p) == T.RParen then Ok([], p + 1) else Names(toks, p)
  }

  function Names(toks: Toks, p: nat): (r: Result<seq<string>>)
    requires p <= |toks|
    ensures Read(toks, p, r)
    decreases |toks| - p
  {
    if !At(toks, p).Ident? then Fail
    else if At(toks, p + 1) == T.Comma then
      var r := Names(toks, p + 2);
      if r.Ok? then Ok([At(toks, p).name] + r.v, r.next) else Fail
    else if At(toks, p + 1) == T.RParen then Ok([At(toks, p).name], p + 2)
    else Fail
  }

  function LambdaOf(toks: Toks, p: nat, d: nat): (r: Result<Expr>)
    requires p < |toks|
    ensures Read(toks, p, r) && (r.Ok? ==> r.v.Lambda? && ShapedE(r.v))
    decreases |toks| - p, 3
  {
    if At(toks, p + 1) != T.LParen then Fail
    else
      var ps := Params(toks, p + 2);
      if ps.Fail? then Fail
      else
        var b := BlockOf(toks, ps.next, d);
        if b.Ok? then Ok(Lambda(0, ps.v, b.v), b.next) else Fail
  }

  /** Expressions separated by commas, and the closing token. */
  function Items(toks: Toks, p: nat, d: nat, close: T.Token): (r: Result<Exprs>)
    requires p <= |toks| && close != T.Eof
    ensures Read(toks, p, r) && (r.Ok? ==> ShapedList(r.v))
    decreases |toks| - p, 8
  {
    if At(toks, p) == close then Ok(ENil, p + 1) else Elements(toks, p, d, close)
  }

  function Elements(toks: Toks, p: nat, d: nat, close: T.Token): (r: Result<Exprs>)
    requires p <= |toks| && close != T.Eof
    ensures Read(toks, p, r) && (r.Ok? ==> ShapedList(r.v))
    decreases |toks| - p, 7
  {
    var e := ExprOf(toks, p, d, 1);
    if e.Fail? then Fail
    else if At(toks, e.next) == T.Comma then
      var r := Elements(toks, e.next + 1, d, close);
      if r.Ok? then Ok(ECons(e.v, r.v), r.next) else Fail
    else if At(toks, e.next) == close then Ok(ECons(e.v, ENil), e.next + 1)
    else Fail
  }

  function Pairs(toks: Toks, p: nat, d: nat): (r: Result<Entries>)
    requires p <= |toks|
    ensures Read(toks, p, r) && (r.Ok? ==> ShapedEntries(r.v))
    decreases |toks| - p, 8
  {
    if At(toks, p) == T.RBrace then Ok(MNil, p + 1) else PairsFrom(toks, p, d)
  }

  function PairsFrom(toks: Toks, p: nat, d: nat): (r: Result<Entries>)
    requires p <= |toks|
    ensures Read(toks, p, r) && (r.Ok? ==> ShapedEntries(r.v))
    decreases |toks| - p, 7, 1
  {
    var kv := PairOf(toks, p, d);
    if kv.Fail? then Fail
    else if At(toks, kv.next) == T.Comma then
      var r := PairsFrom(toks, kv.next + 1, d);
      if r.Ok? then Ok(MCons(kv.v.0, kv.v.1, r.v), r.next) else Fail
    else if At(toks, kv.next) == T.RBrace then Ok(MCons(kv.v.0, kv.v.1, MNil), kv.next + 1)
    else Fail
  }

  function PairOf(toks: Toks, p: nat, d: nat): (r: Result<(Expr, Expr)>)
    requires p <= |toks|
    ensures Read(toks, p, r) && (r.Ok? ==> ShapedE(r.v.0) && ShapedE(r.v.1))
    decreases |toks| - p, 7, 0
  {
    var k := ExprOf(toks, p, d, 1);
    if k.Fail? || At(toks, k.next) != T.Assign then Fail
    else
      var v := ExprOf(toks, k.next + 1, d, 1);
      if v.Ok? then Ok((k.v, v.v), v.next) else Fail
  }

  /** Index, field and call suffixes of `base`. */
  function Postfix(toks: Toks, p: nat, d: nat, base: Expr): (r: Result<Expr>)
    requires p <= |toks| && ShapedE(base)
    ensures r.Ok? ==> p <= r.next <= |toks| && ShapedE(r.v)
    decreases |toks| - p, 9
  {
    match At(toks, p)
    case LBracket =>
      var i := ExprOf(toks, p + 1, d, 1);
      if i.Ok? && At(toks, i.next) == T.RBracket then Postfix(toks, i.next + 1, d, Index(base, i.v)) else Fail
    case Dot =>
      if At(toks, p + 1).Ident? then Postfix(toks, p + 2, d, Field(base, At(toks, p + 1).name)) else Fail
    case LParen =>
      if !base.Ident? then Fail
      else
        var a := Items(toks, p + 1, d, T.RParen);
        if a.Ok? then Postfix(toks, a.next, d, Call(base.name, a.v)) else Fail
    case _ => Ok(base, p)
  }

  function UnaryOf(toks: Toks, p: nat, d: nat): (r: Result<Expr>)
    requires p <= |toks|
    ensures Read(toks, p, r) && (r.Ok? ==> ShapedE(r.v))
    decreases |toks| - p, 5
  {
    if d >= MAX_DEPTH then Fail
    else
      match T.PrefixOf(At(toks, p))
      case Prefixed(op) =>
        var x := UnaryOf(toks, p + 1, d + 1);
        if x.Ok? then Ok(Unary(op, x.v), x.next) else Fail
      case NotPrefix =>
        var b := Primary(toks, p, d + 1);
        if b.Ok? then Postfix(toks, b.next, d + 1, b.v) else Fail
  }

  function Join(f: T.Infix, l: Expr, r: Expr): Expr
    requires !f.NotInfix?
  {
    match f
    case Circuit(isAnd) => Logical(isAnd, l, r)
    case Arith(op) => Binary(op, l, r)
  }

  /** Operators of at least `min` after `left`, and their right operands. */
  function Climb(toks: Toks, p: nat, d: nat, min: nat, left: Expr): (r: Result<Expr>)
    requires p <= |toks| && ShapedE(left)
    ensures r.Ok? ==> p <= r.next <= |toks| && ShapedE(r.v)
    decreases |toks| - p, 9
  {
    var k := T.BinPrec(At(toks, p));
    if k == 0 || k < min then Ok(left, p)
    else
      var r := ExprOf(toks, p + 1, d, k + 1);
      if r.Ok? then Climb(toks, r.next, d, min, Join(T.InfixOf(At(toks, p)), left, r.v)) else Fail
  }

  function ExprOf(toks: Toks, p: nat, d: nat, min: nat): (r: Result<Expr>)
    requires p <= |toks|
    ensures Read(toks, p, r) && (r.Ok? ==> ShapedE(r.v))
    decreases |toks| - p, 6
  {
    if d >= MAX_DEPTH then Fail
    else
      var l := UnaryOf(toks, p, d + 1);
      if l.Ok? then Climb(toks, l.next, d + 1, min, l.v) else Fail
  }

  function AssignmentOf(toks: Toks, p: nat, d: nat): (r: Result<Expr>)
    requires p <= |toks|
    ensures Read(toks, p, r) && (r.Ok? ==> ShapedA(r.v))
    decreases |toks| - p, 7
  {
    if d >= MAX_DEPTH then Fail
    else
      var l := ExprOf(toks, p, d + 1, 1);
      if l.Fail? || At(toks, l.next) != T.Assign then l
      else
        var v := AssignmentOf(toks, l.next + 1, d + 1);
        if v.Ok? && Assignable(l.v) then Ok(Assign(l.v, v.v), v.next) else Fail
  }

  // ---- statements ------------------------------------------------------------------------

  function BlockOf(toks: Toks, p: nat, d: nat): (r: Result<Stmts>)
    requires p <= |toks|
    ensures Read(toks, p, r) && (r.Ok? ==> ShapedAll(r.v) && At(toks, r.next - 1) == T.RBrace)
    decreases |toks| - p, 2
  {
    if At(toks, p) != T.LBrace then Fail
    else
      var b := Statements(toks, p + 1, d, false);
      if b.Ok? && At(toks, b.next) == T.RBrace then Ok(b.v, b.next + 1) else Fail
  }

  /** Statements up to the end of the input, or of the block when not at the top. */
  function Statements(toks: Toks, p: nat, d: nat, top: bool): (r: Result<Stmts>)
    requires p <= |toks|
    ensures r.Ok? ==> p <= r.next <= |toks| && ShapedAll(r.v)
    decreases |toks| - p, 10
  {
    if At(toks, p) == T.Eof || (!top && At(toks, p) == T.RBrace) then Ok(SNil, p)
    else
      var s := StatementOf(toks, p, d);
      if s.Fail? then Fail
      else
        var r := Statements(toks, s.next, d, top);
        if r.Ok? then Ok(SCons(s.v, r.v), r.next) else Fail
  }

  /** A parenthesised condition after the token at `p`. */
  function Condition(toks: Toks, p: nat, d: nat): (r: Result<Expr>)
    requires p < |toks|
    ensures Read(toks, p, r) && (r.Ok? ==> ShapedA(r.v))
    decreases |toks| - p, 1
  {
    if At(toks, p + 1) != T.LParen then Fail
    else
      var c := AssignmentOf(toks, p + 2, d);
      if c.Ok? && At(toks, c.next) == T.RParen then Ok(c.v, c.next + 1) else Fail
  }

  /** The chain that starts with the `if` or `elif` at `p`. */
  function ChainOf(toks: Toks, p: nat, d: nat): (r: Result<Chain>)
    requires p < |toks|
    ensures Read(toks, p, r) && (r.Ok? ==> ShapedChain(r.v))
    decreases |toks| - p, 3
  {
    var c := Condition(toks, p, d);
    if c.Fail? then Fail
    else
      var b := BlockOf(toks, c.next, d);
      if b.Fail? then Fail
      else
        var e := ElseOf(toks, b.next, d);
        if e.Ok? then Ok(Chain(c.v, b.v, e.v), e.next) else Fail
  }

  function ElseOf(toks: Toks, p: nat, d: nat): (r: Result<Else>)
    requires p <= |toks|
    ensures r.Ok? ==> p <= r.next <= |toks| && ShapedElse(r.v)
    decreases |toks| - p, 4
  {
    match At(toks, p)
    case KwElif =>
      var c := ChainOf(toks, p, d);
      if c.Ok? then Ok(ElseIf(c.v), c.next) else Fail
    case KwElse =>
      var b := BlockOf(toks, p + 1, d);
      if b.Ok? then Ok(ElseBlock(b.v), b.next) else Fail
    case _ => Ok(NoElse, p)
  }

  function WhileOf(toks: Toks, p: nat, d: nat): (r: Result<Stmt>)
    requires p < |toks|
    ensures Read(toks, p, r) && (r.Ok? ==> ShapedS(r.v))
    decreases |toks| - p, 3
  {
    var c := Condition(toks, p, d);
    if c.Fail? then Fail
    else
      var b := BlockOf(toks, c.next, d);
      if b.Ok? then Ok(While(c.v, b.v), b.next) else Fail
  }

  /** An optional clause of a `for` and the token that ends it. */
  function ClauseOf(toks: Toks, p: nat, d: nat, stop: T.Token): (r: Result<OptExpr>)
    requires p <= |toks| && stop != T.Eof
    ensures Read(toks, p, r) && (r.Ok? ==> ShapedOpt(r.v))
    decreases |toks| - p, 8
  {
    if At(toks, p) == stop then Ok(Absent, p + 1)
    else
      var e := AssignmentOf(toks, p, d);
      if e.Ok? && At(toks, e.next) == stop then Ok(Present(e.v), e.next + 1) else Fail
  }

  function ForOf(toks: Toks, p: nat, d: nat): (r: Result<Stmt>)
    requires p < |toks|
    ensures Read(toks, p, r) && (r.Ok? ==> ShapedS(r.v))
    decreases |toks| - p, 3
  {
    if At(toks, p + 1) != T.LParen then Fail
    else
      var i := ClauseOf(toks, p + 2, d, T.Semicolon);
      if i.Fail? then Fail
      else
        var t := ClauseOf(toks, i.next, d, T.Semicolon);
        if t.Fail? then Fail
        else
          var s := ClauseOf(toks, t.next, d, T.RParen);
          if s.Fail? then Fail
          else
            var b := BlockOf(toks, s.next, d);
            if b.Ok? then Ok(For(i.v, t.v, s.v, b.v), b.next) else Fail
  }

  function FnDeclOf(toks: Toks, p: nat, d: nat): (r: Result<Stmt>)
    requires p < |toks|
    ensures Read(toks, p, r) && (r.Ok? ==> r.v.FnDecl? && ShapedS(r.v))
    decreases |toks| - p, 3
  {
    if !At(toks, p + 1).Ident? || At(toks, p + 2) != T.LParen then Fail
    else
      var ps := Params(toks, p + 3);
      if ps.Fail? then Fail
      else
        var b := BlockOf(toks, ps.next, d);
        if b.Ok? then Ok(FnDecl(At(toks, p + 1).name, ps.v, b.v), b.next) else Fail
  }

  /** An expression as a statement: its semicolon may be missing after a closing brace. */
  function ExprStmtOf(toks: Toks, p: nat, d: nat): (r: Result<Stmt>)
    requires p <= |toks|
    ensures Read(toks, p, r) && (r.Ok? ==> r.v.ExprStmt? && ShapedS(r.v))
    decreases |toks| - p, 8, 0
  {
    var e := AssignmentOf(toks, p, d);
    if e.Fail? then Fail
    else if At(toks, e.next) == T.Semicolon then Ok(ExprStmt(e.v), e.next + 1)
    else if At(toks, e.next - 1) == T.RBrace then Ok(ExprStmt(e.v), e.next)
    else Fail
  }

  function StatementOf(toks: Toks, p: nat, d: nat): (r: Result<Stmt>)
    requires p <= |toks|
    ensures Read(toks, p, r) && (r.Ok? ==> ShapedS(r.v))
    decreases |toks| - p, 9
  {
    if d >= MAX_DEPTH then Fail else DispatchOf(toks, p, d + 1)
  }

  /** The statement its first token announces. */
  function DispatchOf(toks: Toks, p: nat, d: nat): (r: Result<Stmt>)
    requires p <= |toks|
    ensures Read(toks, p, r) && (r.Ok? ==> ShapedS(r.v))
    decreases |toks| - p, 8, 1
  {
    match At(toks, p)
    case KwPrint =>
      var e := AssignmentOf(toks, p + 1, d);
      if e.Ok? && At(toks, e.next) == T.Semicolon then Ok(Print(e.v), e.next + 1) else Fail
    case KwReturn =>
      var v := ClauseOf(toks, p + 1, d, T.Semicolon);
      if v.Ok? then Ok(Return(v.v), v.next) else Fail
    case KwIf =>
      var c := ChainOf(toks, p, d);
      if c.Ok? then Ok(If(c.v), c.next) else Fail
    case KwWhile => WhileOf(toks, p, d)
    case KwFor => ForOf(toks, p, d)
    case KwFn => FnDeclOf(toks, p, d)
    case LBrace =>
      var b := BlockOf(toks, p, d);
      if b.Ok? then Ok(Block(b.v), b.next) else Fail
    case KwBreak => if At(toks, p + 1) == T.Semicolon then Ok(Break, p + 2) else Fail
    case KwContinue => if At(toks, p + 1) == T.Semicolon then Ok(Continue, p + 2) else Fail
    case _ => ExprStmtOf(toks, p, d)
  }

  /** A whole program, up to the end of the input. */
  function ProgramOf(toks: Toks): Result<Stmts> {
    Statements(toks, 0, 0, true)
  }
}
