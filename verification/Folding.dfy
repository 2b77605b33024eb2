/** Constant folding: operators over literals are computed ahead of time, bottom up,
    wherever the interpreter would compute the same. */
module Folding {
  import opened Bytecode
  import opened Ast
  import opened Values

  /** A numeric literal as a double. */
  function NumLit(fp: FpOps, e: Expr): Fp
    requires e.IntLit? || e.FloatLit?
  {
    if e.IntLit? then fp.ofInt(e.i) else e.d
  }

  predicate PureLit(e: Expr) {
    e.IntLit? || e.FloatLit? || e.BoolLit? || e.NilLit? || e.StrLit?
  }

  predicate LitTruthy(fp: FpOps, e: Expr)
    requires PureLit(e)
  {
    match e
    case IntLit(i) => i != 0
    case FloatLit(d) => !fp.isZero(d)
    case BoolLit(b) => b
    case NilLit => false
    case StrLit(_) => true
  }

  /** Two integer literals; an operation that would trap or be refused stays. */
  function FoldInts(op: BinOp, x: int, y: int): Expr {
    match op
    case Add => IntLit(Wrap(x + y))
    case Sub => IntLit(Wrap(x - y))
    case Mul => IntLit(Wrap(x * y))
    case Div => if y == 0 || (x == I64_MIN && y == -1) then Binary(op, IntLit(x), IntLit(y)) else IntLit(TruncDiv(x, y))
    case Mod => if y == 0 || (x == I64_MIN && y == -1) then Binary(op, IntLit(x), IntLit(y)) else IntLit(TruncMod(x, y))
    case Eq => BoolLit(x == y)
    case Ne => BoolLit(x != y)
    case Lt => BoolLit(x < y)
    case Le => BoolLit(x <= y)
    case Gt => BoolLit(x > y)
    case Ge => BoolLit(x >= y)
    case BitAnd => IntLit(Values.BitAnd(x, y))
    case BitOr => IntLit(Values.BitOr(x, y))
    case BitXor => IntLit(Values.BitXor(x, y))
    case Shl => if y < 0 || y >= 64 then Binary(op, IntLit(x), IntLit(y)) else IntLit(Wrap(Unsigned(x) * Pow2(y)))
    case Shr => if y < 0 || y >= 64 then Binary(op, IntLit(x), IntLit(y)) else IntLit(Wrap(Unsigned(x) / Pow2(y)))
  }

  function FiniteOr(fp: FpOps, d: Fp, e: Expr): Expr {
    if fp.isFinite(d) then FloatLit(d) else e
  }

  /** A double among two numeric literals: double arithmetic, kept when finite. */
  function FoldDoubles(fp: FpOps, op: BinOp, l: Expr, r: Expr): Expr
    requires (l.IntLit? || l.FloatLit?) && (r.IntLit? || r.FloatLit?)
  {
    var x, y, same := NumLit(fp, l), NumLit(fp, r), Binary(op, l, r);
    match op
    case Add => FiniteOr(fp, fp.add(x, y), same)
    case Sub => FiniteOr(fp, fp.sub(x, y), same)
    case Mul => FiniteOr(fp, fp.mul(x, y), same)
    case Div => FiniteOr(fp, fp.div(x, y), same)
    case Mod => FiniteOr(fp, fp.fmod(x, y), same)
    case Eq => BoolLit(fp.eq(x, y))
    case Ne => BoolLit(!fp.eq(x, y))
    case Lt => BoolLit(fp.lt(x, y))
    case Le => BoolLit(fp.le(x, y))
    case Gt => BoolLit(fp.lt(y, x))
    case Ge => BoolLit(fp.le(y, x))
    case _ => same
  }

  function FoldBinary(fp: FpOps, op: BinOp, l: Expr, r: Expr): Expr {
    if l.IntLit? && r.IntLit? then FoldInts(op, l.i, r.i)
    else if (l.IntLit? || l.FloatLit?) && (r.IntLit? || r.FloatLit?) then FoldDoubles(fp, op, l, r)
    else Binary(op, l, r)
  }

  function FoldUnary(fp: FpOps, op: UnOp, e: Expr): Expr {
    match op
    case Neg => if e.IntLit? then IntLit(Wrap(-e.i)) else if e.FloatLit? then FloatLit(fp.neg(e.d)) else Unary(op, e)
    case BitNot => if e.IntLit? then IntLit(-e.i - 1) else Unary(op, e)
    case Not => if PureLit(e) then BoolLit(!LitTruthy(fp, e)) else Unary(op, e)
  }

  /** Only when both sides are boolean literals. */
  function FoldLogical(isAnd: bool, l: Expr, r: Expr): Expr {
    if l.BoolLit? && r.BoolLit? then BoolLit(if isAnd then l.b && r.b else l.b || r.b) else Logical(isAnd, l, r)
  }

  // ---- the walk ------------------------------------------------------------------------------

  function FoldE(fp: FpOps, e: Expr): Expr {
    match e
    case Binary(op, l, r) => FoldBinary(fp, op, FoldE(fp, l), FoldE(fp, r))
    case Logical(isAnd, l, r) => FoldLogical(isAnd, FoldE(fp, l), FoldE(fp, r))
    case Unary(op, x) => FoldUnary(fp, op, FoldE(fp, x))
    case Assign(t, v) => Assign(FoldE(fp, t), FoldE(fp, v))
    case Index(c, i) => Index(FoldE(fp, c), FoldE(fp, i))
    case Field(c, name) => Field(FoldE(fp, c), name)
    case Call(name, args) => Expr.Call(name, FoldList(fp, args))
    case ArrayLit(es) => ArrayLit(FoldList(fp, es))
    case MapLit(ms) => MapLit(FoldEntries(fp, ms))
    case Lambda(id, params, body) => Lambda(id, params, FoldAll(fp, body))
    case _ => e
  }

  function FoldList(fp: FpOps, es: Exprs): Exprs {
    match es
    case ENil => ENil
    case ECons(h, t) => ECons(FoldE(fp, h), FoldList(fp, t))
  }

  function FoldEntries(fp: FpOps, ms: Entries): Entries {
    match ms
    case MNil => MNil
    case MCons(k, v, t) => MCons(FoldE(fp, k), FoldE(fp, v), FoldEntries(fp, t))
  }

  function FoldOpt(fp: FpOps, o: OptExpr): OptExpr {
    match o
    case Absent => Absent
    case Present(e) => Present(FoldE(fp, e))
  }

  function FoldS(fp: FpOps, s: Stmt): Stmt {
    match s
    case ExprStmt(e) => ExprStmt(FoldE(fp, e))
    case Print(e) => Stmt.Print(FoldE(fp, e))
    case Return(v) => Return(FoldOpt(fp, v))
    case Block(b) => Block(FoldAll(fp, b))
    case If(c) => If(FoldChain(fp, c))
    case While(c, b) => While(FoldE(fp, c), FoldAll(fp, b))
    case For(i, t, st, b) => For(FoldOpt(fp, i), FoldOpt(fp, t), FoldOpt(fp, st), FoldAll(fp, b))
    case Break => Break
    case Continue => Continue
    case FnDecl(name, params, b) => FnDecl(name, params, FoldAll(fp, b))
  }

  /** fold_constants over the statements of a program. */
  function FoldAll(fp: FpOps, ss: Stmts): Stmts {
    match ss
    case SNil => SNil
    case SCons(h, t) => SCons(FoldS(fp, h), FoldAll(fp, t))
  }

  function FoldChain(fp: FpOps, c: Chain): Chain {
    Chain(FoldE(fp, c.cond), FoldAll(fp, c.thn), FoldElse(fp, c.els))
  }

  function FoldElse(fp: FpOps, e: Else): Else {
    match e
    case NoElse => NoElse
    case ElseBlock(b) => ElseBlock(FoldAll(fp, b))
    case ElseIf(c) => ElseIf(FoldChain(fp, c))
  }

  // ---- folding again changes nothing -------------------------------------------------------------

  /** What an operator can become. */
  predicate Computed(e: Expr) {
    e.IntLit? || e.FloatLit? || e.BoolLit?
  }

  /** An operator node is computed or stays as it was. */
  lemma BinaryStays(fp: FpOps, op: BinOp, l: Expr, r: Expr)
    ensures var e := FoldBinary(fp, op, l, r); Computed(e) || e == Binary(op, l, r)
  {
  }

  lemma IntsStay(op: BinOp, x: int, y: int)
    ensures var e := FoldInts(op, x, y); e.IntLit? || e.BoolLit? || e == Binary(op, IntLit(x), IntLit(y))
  {
    hide Wrap, Unsigned, Pow2, TruncDiv, TruncMod, Values.BitAnd, Values.BitOr, Values.BitXor;
  }

  lemma UnaryStays(fp: FpOps, op: UnOp, x: Expr)
    ensures var e := FoldUnary(fp, op, x); Computed(e) || e == Unary(op, x)
  {
  }

  lemma {:induction false} FoldTwice(fp: FpOps, e: Expr)
    ensures FoldE(fp, FoldE(fp, e)) == FoldE(fp, e)
  {
    match e
    case Binary(op, l, r) =>
      FoldTwice(fp, l);
      FoldTwice(fp, r);
      BinaryStays(fp, op, FoldE(fp, l), FoldE(fp, r));
    case Logical(_, l, r) =>
      FoldTwice(fp, l);
      FoldTwice(fp, r);
    case Unary(_, x) => FoldTwice(fp, x);
    case Assign(t, v) =>
      FoldTwice(fp, t);
      FoldTwice(fp, v);
    case Index(c, i) =>
      FoldTwice(fp, c);
      FoldTwice(fp, i);
    case Field(c, _) => FoldTwice(fp, c);
    case Call(_, args) => FoldListTwice(fp, args);
    case ArrayLit(es) => FoldListTwice(fp, es);
    case MapLit(ms) => FoldEntriesTwice(fp, ms);
    case Lambda(_, _, body) => FoldAllTwice(fp, body);
    case _ =>
  }

  lemma {:induction false} FoldListTwice(fp: FpOps, es: Exprs)
    ensures FoldList(fp, FoldList(fp, es)) == FoldList(fp, es)
  {
    if es.ECons? {
      FoldTwice(fp, es.head);
      FoldListTwice(fp, es.tail);
    }
  }

  lemma {:induction false} FoldEntriesTwice(fp: FpOps, ms: Entries)
    ensures FoldEntries(fp, FoldEntries(fp, ms)) == FoldEntries(fp, ms)
  {
    if ms.MCons? {
      FoldTwice(fp, ms.key);
      FoldTwice(fp, ms.val);
      FoldEntriesTwice(fp, ms.rest);
    }
  }

  lemma {:induction false} FoldOptTwice(fp: FpOps, o: OptExpr)
    ensures FoldOpt(fp, FoldOpt(fp, o)) == FoldOpt(fp, o)
  {
    if o.Present? { FoldTwice(fp, o.e); }
  }

  lemma {:induction false} FoldSTwice(fp: FpOps, s: Stmt)
    ensures FoldS(fp, FoldS(fp, s)) == FoldS(fp, s)
  {
    match s
    case ExprStmt(e) => FoldTwice(fp, e);
    case Print(e) => FoldTwice(fp, e);
    case Return(v) => FoldOptTwice(fp, v);
    case Block(b) => FoldAllTwice(fp, b);
    case If(c) => FoldChainTwice(fp, c);
    case While(c, b) =>
      FoldTwice(fp, c);
      FoldAllTwice(fp, b);
    case For(i, t, st, b) =>
      FoldOptTwice(fp, i);
      FoldOptTwice(fp, t);
      FoldOptTwice(fp, st);
      FoldAllTwice(fp, b);
    case FnDecl(_, _, b) => FoldAllTwice(fp, b);
    case _ =>
  }

  /** Folding a program twice is folding it once. */
  lemma {:induction false} FoldAllTwice(fp: FpOps, ss: Stmts)
    ensures FoldAll(fp, FoldAll(fp, ss)) == FoldAll(fp, ss)
  {
    if ss.SCons? {
      FoldSTwice(fp, ss.head);
      FoldAllTwice(fp, ss.tail);
    }
  }

  lemma {:induction false} FoldChainTwice(fp: FpOps, c: Chain)
    ensures FoldChain(fp, FoldChain(fp, c)) == FoldChain(fp, c)
  {
    FoldTwice(fp, c.cond);
    FoldAllTwice(fp, c.thn);
    match c.els
    case NoElse =>
    case ElseBlock(b) => FoldAllTwice(fp, b);
    case ElseIf(chain) => FoldChainTwice(fp, chain);
  }
}
