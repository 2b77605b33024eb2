/** The formatter: a tree back to tokens, every compound operand in parentheses. */
module Format {
  import opened Ast
  import T = Tokens
  import opened Grammar

  predicate Compound(e: Expr) {
    e.Binary? || e.Logical? || e.Unary? || e.Assign?
  }

  /** An expression statement that is a function value is written without a semicolon. An
      assignment statement keeps it, whatever is assigned: the parser hands it on as a bare
      assignment node, which the formatter writes like any expression it finds in statement
      position. */
  predicate EndsInBlock(e: Expr) {
    e.Lambda?
  }

  function Operand(e: Expr): Toks
    decreases e, 1
  {
    if Compound(e) then [T.LParen] + Written(e) + [T.RParen] else Written(e)
  }

  /** The tokens of an expression. */
  function Written(e: Expr): Toks
    decreases e, 0
  {
    match e
    case IntLit(i) => if i < 0 then [T.Minus, T.Int(-i)] else [T.Int(i)]
    case FloatLit(d) => [T.Float(d)]
    case StrLit(s) => [T.Str(T.Escape(s))]
    case BoolLit(b) => [if b then T.KwTrue else T.KwFalse]
    case NilLit => [T.KwNil]
    case Ident(name) => [T.Ident(name)]
    case Binary(op, l, r) => Operand(l) + [T.BinToken(op)] + Operand(r)
    case Logical(isAnd, l, r) => Operand(l) + [T.CircuitToken(isAnd)] + Operand(r)
    case Unary(op, x) => [T.UnToken(op)] + Operand(x)
    case Assign(t, v) => Written(t) + [T.Assign] + Written(v)
    case Index(c, i) => Operand(c) + [T.LBracket] + Written(i) + [T.RBracket]
    case Field(c, name) => Operand(c) + [T.Dot, T.Ident(name)]
    case Call(name, args) => [T.Ident(name), T.LParen] + WrittenList(args) + [T.RParen]
    case ArrayLit(es) => [T.LBracket] + WrittenList(es) + [T.RBracket]
    case MapLit(ms) => [T.LBrace] + WrittenPairs(ms) + [T.RBrace]
    case Lambda(_, params, body) => [T.KwFn] + WrittenFn(params, body)
  }

  function WrittenList(es: Exprs): Toks {
    match es
    case ENil => []
    case ECons(h, t) => Written(h) + (if t.ENil? then [] else [T.Comma]) + WrittenList(t)
  }

  function WrittenPairs(ms: Entries): Toks {
    match ms
    case MNil => []
    case MCons(k, v, t) => Written(k) + [T.Assign] + Written(v) + (if t.MNil? then [] else [T.Comma]) + WrittenPairs(t)
  }

  function WrittenNames(ps: seq<string>): Toks {
    if ps == [] then [] else [T.Ident(ps[0])] + (if |ps| == 1 then [] else [T.Comma]) + WrittenNames(ps[1..])
  }

  function WrittenBlock(ss: Stmts): Toks
    decreases ss, 1
  {
    [T.LBrace] + WrittenAll(ss) + [T.RBrace]
  }

  function WrittenAll(ss: Stmts): Toks
    decreases ss, 0
  {
    match ss
    case SNil => []
    case SCons(h, t) => WrittenStmt(h) + WrittenAll(t)
  }

  /** An optional expression and the token that ends it. */
  function WrittenOpt(o: OptExpr, stop: T.Token): Toks {
    match o
    case Absent => [stop]
    case Present(e) => Written(e) + [stop]
  }

  function WrittenStmt(s: Stmt): Toks {
    match s
    case ExprStmt(e) => Written(e) + (if EndsInBlock(e) then [] else [T.Semicolon])
    case Print(e) => [T.KwPrint] + Written(e) + [T.Semicolon]
    case Return(v) => [T.KwReturn] + WrittenOpt(v, T.Semicolon)
    case Break => [T.KwBreak, T.Semicolon]
    case Continue => [T.KwContinue, T.Semicolon]
    case Block(b) => WrittenBlock(b)
    case If(c) => [T.KwIf] + WrittenChain(c)
    case While(c, b) => [T.KwWhile] + Link(Written(c), WrittenBlock(b))
    case For(i, t, st, b) =>
      [T.KwFor, T.LParen] + WrittenOpt(i, T.Semicolon) + WrittenOpt(t, T.Semicolon) + WrittenOpt(st, T.RParen) + WrittenBlock(b)
    case FnDecl(name, params, b) => [T.KwFn, T.Ident(name)] + WrittenFn(params, b)
  }

  /** A chain after its `if` or `elif`. */
  function WrittenChain(c: Chain): Toks
    decreases c, 1
  {
    Link(Written(c.cond), WrittenBlock(c.thn)) + WrittenElse(c.els)
  }

  /** A condition in parentheses and its block. */
  function Link(cond: Toks, body: Toks): Toks {
    [T.LParen] + cond + [T.RParen] + body
  }

  /** A parameter list and a body. */
  function WrittenFn(params: seq<string>, body: Stmts): Toks
    decreases body, 2
  {
    [T.LParen] + WrittenNames(params) + [T.RParen] + WrittenBlock(body)
  }

  function WrittenElse(e: Else): Toks {
    match e
    case NoElse => []
    case ElseBlock(b) => [T.KwElse] + WrittenBlock(b)
    case ElseIf(c) => [T.KwElif] + WrittenChain(c)
  }

  // ---- the formatter itself ------------------------------------------------------------------

  /** Appends tokens to its output. */
  class Printer {
    var out: Toks

    constructor ()
      ensures out == []
    {
      out := [];
    }

    method Put(t: T.Token)
      modifies this
      ensures out == old(out) + [t]
    {
      out := out + [t];
    }

    method PutOperand(e: Expr)
      modifies this
      ensures out == old(out) + Operand(e)
      decreases e, 1
    {
      if Compound(e) {
        Put(T.LParen);
        PutExpr(e);
        Put(T.RParen);
      } else {
        PutExpr(e);
      }
    }

    method PutExpr(e: Expr)
      modifies this
      ensures out == old(out) + Written(e)
      decreases e, 0, 1
    {
      match e
      case IntLit(i) =>
        if i < 0 {
          Put(T.Minus);
          Put(T.Int(-i));
        } else {
          Put(T.Int(i));
        }
      case FloatLit(d) => Put(T.Float(d));
      case StrLit(s) => Put(T.Str(T.Escape(s)));
      case BoolLit(b) => Put(if b then T.KwTrue else T.KwFalse);
      case NilLit => Put(T.KwNil);
      case Ident(name) => Put(T.Ident(name));
      case Binary(_, _, _) | Logical(_, _, _) | Unary(_, _) | Assign(_, _) => PutOperator(e);
      case Index(_, _) | Field(_, _) => PutSuffixed(e);
      case Call(_, _) | ArrayLit(_) | MapLit(_) | Lambda(_, _, _) => PutEnclosed(e);
    }

    /** Operators between and before operands. */
    method PutOperator(e: Expr)
      requires Compound(e)
      modifies this
      ensures out == old(out) + Written(e)
      decreases e, 0, 0
    {
      match e
      case Binary(op, l, r) =>
        PutOperand(l);
        Put(T.BinToken(op));
        PutOperand(r);
      case Logical(isAnd, l, r) =>
        PutOperand(l);
        Put(T.CircuitToken(isAnd));
        PutOperand(r);
      case Unary(op, x) =>
        Put(T.UnToken(op));
        PutOperand(x);
      case Assign(t, v) =>
        PutExpr(t);
        Put(T.Assign);
        PutExpr(v);
    }

    /** A suffix after what it applies to. */
    method PutSuffixed(e: Expr)
      requires e.Index? || e.Field?
      modifies this
      ensures out == old(out) + Written(e)
      decreases e, 0, 0
    {
      match e
      case Index(c, i) =>
        PutOperand(c);
        Put(T.LBracket);
        PutExpr(i);
        Put(T.RBracket);
      case Field(c, name) =>
        PutOperand(c);
        Put(T.Dot);
        Put(T.Ident(name));
    }

    /** Calls, literals with parts, and function expressions. */
    method PutEnclosed(e: Expr)
      requires e.Call? || e.ArrayLit? || e.MapLit? || e.Lambda?
      modifies this
      ensures out == old(out) + Written(e)
      decreases e, 0, 0
    {
      match e
      case Call(name, args) =>
        Put(T.Ident(name));
        Put(T.LParen);
        PutList(args);
        Put(T.RParen);
      case ArrayLit(es) =>
        Put(T.LBracket);
        PutList(es);
        Put(T.RBracket);
      case MapLit(ms) =>
        Put(T.LBrace);
        PutPairs(ms);
        Put(T.RBrace);
      case Lambda(_, params, body) =>
        Put(T.KwFn);
        PutFn(params, body);
    }

    method PutList(es: Exprs)
      modifies this
      ensures out == old(out) + WrittenList(es)
    {
      match es
      case ENil =>
      case ECons(h, t) =>
        PutExpr(h);
        if !t.ENil? {
          Put(T.Comma);
        }
        PutList(t);
    }

    method PutPairs(ms: Entries)
      modifies this
      ensures out == old(out) + WrittenPairs(ms)
    {
      match ms
      case MNil =>
      case MCons(k, v, t) =>
        PutExpr(k);
        Put(T.Assign);
        PutExpr(v);
        if !t.MNil? {
          Put(T.Comma);
        }
        PutPairs(t);
    }

    method PutNames(ps: seq<string>)
      modifies this
      ensures out == old(out) + WrittenNames(ps)
    {
      if ps != [] {
        Put(T.Ident(ps[0]));
        if |ps| != 1 {
          Put(T.Comma);
        }
        PutNames(ps[1..]);
      }
    }

    method PutBlock(ss: Stmts)
      modifies this
      ensures out == old(out) + WrittenBlock(ss)
      decreases ss, 1
    {
      Put(T.LBrace);
      PutAll(ss);
      Put(T.RBrace);
    }

    method PutAll(ss: Stmts)
      modifies this
      ensures out == old(out) + WrittenAll(ss)
      decreases ss, 0
    {
      match ss
      case SNil =>
      case SCons(h, t) =>
        PutStmt(h);
        PutAll(t);
    }

    method PutClause(o: OptExpr, stop: T.Token)
      modifies this
      ensures out == old(out) + WrittenOpt(o, stop)
    {
      if o.Present? {
        PutExpr(o.e);
      }
      Put(stop);
    }

    method PutStmt(s: Stmt)
      modifies this
      ensures out == old(out) + WrittenStmt(s)
      decreases s, 1
    {
      match s
      case ExprStmt(_) | Print(_) | Return(_) | Break | Continue => PutLine(s);
      case Block(b) => PutBlock(b);
      case If(c) =>
        Put(T.KwIf);
        PutChain(c);
      case While(_, _) | FnDecl(_, _, _) => PutHeaded(s);
      case For(_, _, _, _) => PutFor(s);
    }

    /** Statements on one line. */
    method PutLine(s: Stmt)
      requires s.ExprStmt? || s.Print? || s.Return? || s.Break? || s.Continue?
      modifies this
      ensures out == old(out) + WrittenStmt(s)
      decreases s, 0
    {
      match s
      case ExprStmt(e) =>
        PutExpr(e);
        if !EndsInBlock(e) {
          Put(T.Semicolon);
        }
      case Print(e) =>
        Put(T.KwPrint);
        PutExpr(e);
        Put(T.Semicolon);
      case Return(v) =>
        Put(T.KwReturn);
        PutClause(v, T.Semicolon);
      case Break =>
        Put(T.KwBreak);
        Put(T.Semicolon);
      case Continue =>
        Put(T.KwContinue);
        Put(T.Semicolon);
    }

    /** Statements that are a header and a block. */
    method PutHeaded(s: Stmt)
      requires s.While? || s.FnDecl?
      modifies this
      ensures out == old(out) + WrittenStmt(s)
      decreases s, 0
    {
      match s
      case While(c, b) =>
        Put(T.KwWhile);
        Put(T.LParen);
        PutExpr(c);
        Put(T.RParen);
        PutBlock(b);
      case FnDecl(name, params, b) =>
        Put(T.KwFn);
        Put(T.Ident(name));
        PutFn(params, b);
    }

    method PutFor(s: Stmt)
      requires s.For?
      modifies this
      ensures out == old(out) + WrittenStmt(s)
      decreases s, 0
    {
      hide *;
      Put(T.KwFor);
      Put(T.LParen);
      PutClause(s.init, T.Semicolon);
      PutClause(s.test, T.Semicolon);
      PutClause(s.step, T.RParen);
      PutBlock(s.body);
      ForSplits(old(out), out, s);
    }

    method PutFn(params: seq<string>, body: Stmts)
      modifies this
      ensures out == old(out) + WrittenFn(params, body)
      decreases body, 2
    {
      Put(T.LParen);
      PutNames(params);
      Put(T.RParen);
      PutBlock(body);
    }

    /** The conditions and blocks of a chain, its `elif` links in a loop. */
    method PutChain(c: Chain)
      modifies this
      ensures out == old(out) + WrittenChain(c)
      decreases c, 1
    {
      hide *;
      Put(T.LParen);
      PutExpr(c.cond);
      Put(T.RParen);
      PutBlock(c.thn);
      ChainSplits(old(out), out, c);
      var cur := c.els;
      while cur.ElseIf?
        invariant out + WrittenElse(cur) == old(out) + WrittenChain(c)
        invariant cur < c
        decreases cur
      {
        ghost var before := out;
        Put(T.KwElif);
        Put(T.LParen);
        PutExpr(cur.chain.cond);
        Put(T.RParen);
        PutBlock(cur.chain.thn);
        ElifSplits(before, out, cur);
        cur := cur.chain.els;
      }
      ElseSplits(out, cur);
      if cur.ElseBlock? {
        Put(T.KwElse);
        PutBlock(cur.body);
      }
    }
  }

  lemma ForSplits(before: Toks, after: Toks, s: Stmt)
    requires s.For?
    requires after == before + [T.KwFor] + [T.LParen] + WrittenOpt(s.init, T.Semicolon) + WrittenOpt(s.test, T.Semicolon) +
                      WrittenOpt(s.step, T.RParen) + WrittenBlock(s.body)
    ensures after == before + WrittenStmt(s)
  {
    hide Written, WrittenOpt, WrittenBlock;
  }

  lemma ChainSplits(before: Toks, after: Toks, c: Chain)
    requires after == before + [T.LParen] + Written(c.cond) + [T.RParen] + WrittenBlock(c.thn)
    ensures after + WrittenElse(c.els) == before + WrittenChain(c)
  {
  }

  lemma ElifSplits(before: Toks, after: Toks, e: Else)
    requires e.ElseIf? && after == before + [T.KwElif] + [T.LParen] + Written(e.chain.cond) + [T.RParen] + WrittenBlock(e.chain.thn)
    ensures after + WrittenElse(e.chain.els) == before + WrittenElse(e)
  {
    hide Written, WrittenBlock;
  }

  lemma ElseSplits(before: Toks, e: Else)
    requires !e.ElseIf?
    ensures e.NoElse? ==> before + WrittenElse(e) == before
    ensures e.ElseBlock? ==> before + WrittenElse(e) == before + [T.KwElse] + WrittenBlock(e.body)
  {
  }

  /** format_source: every statement of a program. */
  method FormatSource(program: Stmts) returns (out: Toks)
    ensures out == WrittenAll(program)
  {
    var printer := new Printer();
    printer.PutAll(program);
    out := printer.out;
  }
}
