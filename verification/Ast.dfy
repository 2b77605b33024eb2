/** The syntax tree. Child lists are linked lists so that recursion follows the data. */
module Ast {
  import opened Bytecode

  datatype BinOp = Add | Sub | Mul | Div | Mod | Eq | Ne | Lt | Le | Gt | Ge | BitAnd | BitOr | BitXor | Shl | Shr

  datatype UnOp = Neg | Not | BitNot

  datatype Expr =
    | IntLit(i: int)
    | FloatLit(d: Fp)
    | StrLit(s: string)
    | BoolLit(b: bool)
    | NilLit
    | Ident(name: string)
    | Binary(op: BinOp, l: Expr, r: Expr)
    | Logical(isAnd: bool, l: Expr, r: Expr)
    | Unary(uop: UnOp, e: Expr)
    | Assign(target: Expr, value: Expr)
    | Index(c: Expr, ix: Expr)
    | Field(c: Expr, name: string)
    | Call(name: string, args: Exprs)
    | ArrayLit(elems: Exprs)
    | MapLit(entries: Entries)
    | Lambda(id: nat, params: seq<string>, body: Stmts)  // id: which node, as its address is

  datatype Exprs = ENil | ECons(head: Expr, tail: Exprs)

  datatype Entries = MNil | MCons(key: Expr, val: Expr, rest: Entries)

  /** An assignment used as a statement is ExprStmt(Assign(..)). */
  datatype Stmt =
    | ExprStmt(e: Expr)
    | Print(e: Expr)
    | Return(value: OptExpr)
    | Block(body: Stmts)
    | If(chain: Chain)
    | While(cond: Expr, body: Stmts)
    | For(init: OptExpr, test: OptExpr, step: OptExpr, body: Stmts)
    | Break
    | Continue
    | FnDecl(name: string, params: seq<string>, body: Stmts)

  datatype OptExpr = Absent | Present(e: Expr)

  datatype Chain = Chain(cond: Expr, thn: Stmts, els: Else)

  datatype Else = NoElse | ElseBlock(body: Stmts) | ElseIf(chain: Chain)

  datatype Stmts = SNil | SCons(head: Stmt, tail: Stmts)

  function Count(es: Exprs): nat {
    match es
    case ENil => 0
    case ECons(_, t) => 1 + Count(t)
  }

  // ---- walking a tree ------------------------------------------------------------

  /** What a walk over a tree comes across: names assigned to, and function expressions. */
  datatype Mark = Target(name: string) | Lam(node: Expr)

  /** The marks in source order; `deep` also enters nested functions. */
  function MarksE(e: Expr, deep: bool): seq<Mark> {
    match e
    case Binary(_, l, r) => MarksE(l, deep) + MarksE(r, deep)
    case Logical(_, l, r) => MarksE(l, deep) + MarksE(r, deep)
    case Unary(_, x) => MarksE(x, deep)
    case Assign(t, v) => (if t.Ident? then [Target(t.name)] else []) + MarksE(t, deep) + MarksE(v, deep)
    case Index(c, i) => MarksE(c, deep) + MarksE(i, deep)
    case Field(c, _) => MarksE(c, deep)
    case Call(_, args) => MarksList(args, deep)
    case ArrayLit(es) => MarksList(es, deep)
    case MapLit(ms) => MarksEntries(ms, deep)
    case Lambda(_, _, body) => if deep then [Lam(e)] + MarksAll(body, deep) else []
    case _ => []
  }

  function MarksList(es: Exprs, deep: bool): seq<Mark> {
    match es
    case ENil => []
    case ECons(h, t) => MarksE(h, deep) + MarksList(t, deep)
  }

  function MarksEntries(ms: Entries, deep: bool): seq<Mark> {
    match ms
    case MNil => []
    case MCons(k, v, t) => MarksE(k, deep) + MarksE(v, deep) + MarksEntries(t, deep)
  }

  function MarksOpt(o: OptExpr, deep: bool): seq<Mark> {
    match o
    case Absent => []
    case Present(e) => MarksE(e, deep)
  }

  function Marks(s: Stmt, deep: bool): seq<Mark> {
    match s
    case ExprStmt(e) => MarksE(e, deep)
    case Print(e) => MarksE(e, deep)
    case Return(v) => MarksOpt(v, deep)
    case Block(b) => MarksAll(b, deep)
    case If(c) => MarksChain(c, deep)
    case While(c, b) => MarksE(c, deep) + MarksAll(b, deep)
    case For(i, t, st, b) => MarksOpt(i, deep) + MarksOpt(t, deep) + MarksOpt(st, deep) + MarksAll(b, deep)
    case FnDecl(_, _, b) => if deep then MarksAll(b, deep) else []
    case _ => []
  }

  function MarksAll(ss: Stmts, deep: bool): seq<Mark> {
    match ss
    case SNil => []
    case SCons(h, t) => Marks(h, deep) + MarksAll(t, deep)
  }

  function MarksChain(c: Chain, deep: bool): seq<Mark> {
    MarksE(c.cond, deep) + MarksAll(c.thn, deep) + MarksElse(c.els, deep)
  }

  function MarksElse(e: Else, deep: bool): seq<Mark> {
    match e
    case NoElse => []
    case ElseBlock(b) => MarksAll(b, deep)
    case ElseIf(c) => MarksChain(c, deep)
  }

  // ---- operators -----------------------------------------------------------------

  function BinOpcode(op: BinOp): (b: Byte)
    ensures IsThree(b) && b != ARRAY_GET && b != ARRAY_SET
  {
    match op
    case Add => ADD case Sub => SUB case Mul => MUL case Div => DIV case Mod => MOD
    case Eq => EQ case Ne => NE case Lt => LT case Le => LE case Gt => GT case Ge => GE
    case BitAnd => BAND case BitOr => BOR case BitXor => BXOR case Shl => SHL case Shr => SHR
  }

  function UnOpcode(op: UnOp): (b: Byte)
    ensures NEG <= b <= BNOT
  {
    match op
    case Neg => NEG case Not => NOT case BitNot => BNOT
  }
}
