/** Which node is which: function expressions get numbers of their own, as nodes have
    addresses of their own. */
module Numbering {
  import opened Ast
  import opened Source
  import FnCode

  /** Numbers a tree's function expressions by their places in its walk, from `n` on. */
  function NumberE(e: Expr, n: nat): Expr
    decreases e
  {
    match e
    case Binary(op, l, r) => Binary(op, NumberE(l, n), NumberE(r, n + |MarksE(l, true)|))
    case Logical(isAnd, l, r) => Logical(isAnd, NumberE(l, n), NumberE(r, n + |MarksE(l, true)|))
    case Unary(op, x) => Unary(op, NumberE(x, n))
    case Assign(t, v) =>
      var k := if t.Ident? then 1 else 0;
      Assign(NumberE(t, n + k), NumberE(v, n + k + |MarksE(t, true)|))
    case Index(c, i) => Index(NumberE(c, n), NumberE(i, n + |MarksE(c, true)|))
    case Field(c, name) => Field(NumberE(c, n), name)
    case Call(name, args) => Call(name, NumberList(args, n))
    case ArrayLit(es) => ArrayLit(NumberList(es, n))
    case MapLit(ms) => MapLit(NumberEntries(ms, n))
    case Lambda(_, params, body) => Lambda(n, params, NumberAll(body, n + 1))
    case _ => e
  }

  function NumberList(es: Exprs, n: nat): Exprs
    decreases es
  {
    match es
    case ENil => ENil
    case ECons(h, t) => ECons(NumberE(h, n), NumberList(t, n + |MarksE(h, true)|))
  }

  function NumberEntries(ms: Entries, n: nat): Entries
    decreases ms
  {
    match ms
    case MNil => MNil
    case MCons(k, v, t) =>
      var a, b := |MarksE(k, true)|, |MarksE(v, true)|;
      MCons(NumberE(k, n), NumberE(v, n + a), NumberEntries(t, n + (a + b)))
  }

  function NumberOpt(o: OptExpr, n: nat): OptExpr
    decreases o
  {
    match o
    case Absent => Absent
    case Present(e) => Present(NumberE(e, n))
  }

  function NumberS(s: Stmt, n: nat): Stmt
    decreases s
  {
    match s
    case ExprStmt(e) => ExprStmt(NumberE(e, n))
    case Print(e) => Print(NumberE(e, n))
    case Return(v) => Return(NumberOpt(v, n))
    case Block(b) => Block(NumberAll(b, n))
    case If(c) => If(NumberChain(c, n))
    case While(c, b) => While(NumberE(c, n), NumberAll(b, n + |MarksE(c, true)|))
    case For(i, t, st, b) =>
      var a := |MarksOpt(i, true)|;
      var k := a + |MarksOpt(t, true)|;
      var m := k + |MarksOpt(st, true)|;
      For(NumberOpt(i, n), NumberOpt(t, n + a), NumberOpt(st, n + k), NumberAll(b, n + m))
    case FnDecl(name, params, b) => FnDecl(name, params, NumberAll(b, n))
    case _ => s
  }

  function NumberAll(ss: Stmts, n: nat): Stmts
    decreases ss
  {
    match ss
    case SNil => SNil
    case SCons(h, t) => SCons(NumberS(h, n), NumberAll(t, n + |Marks(h, true)|))
  }

  function NumberChain(c: Chain, n: nat): Chain
    decreases c
  {
    var a := |MarksE(c.cond, true)|;
    Chain(NumberE(c.cond, n), NumberAll(c.thn, n + a), NumberElse(c.els, n + (a + |MarksAll(c.thn, true)|)))
  }

  function NumberElse(e: Else, n: nat): Else
    decreases e
  {
    match e
    case NoElse => NoElse
    case ElseBlock(b) => ElseBlock(NumberAll(b, n))
    case ElseIf(c) => ElseIf(NumberChain(c, n))
  }

  // ---- every number is a place in the walk --------------------------------------------------------

  /** `ms` is as long as `old` and its function expressions carry their places, from `n` on. */
  predicate Tagged(ms: seq<Mark>, was: seq<Mark>, n: nat) {
    |ms| == |was| && forall i :: 0 <= i < |ms| && ms[i].Lam? ==> ms[i].node.Lambda? && ms[i].node.id == n + i
  }

  lemma TaggedBoth(a: seq<Mark>, was: seq<Mark>, b: seq<Mark>, was': seq<Mark>, n: nat, k: nat)
    requires Tagged(a, was, n) && k == n + |was| && Tagged(b, was', k)
    ensures Tagged(a + b, was + was', n)
  {
  }

  lemma {:induction false} TagsE(e: Expr, n: nat)
    ensures Tagged(MarksE(NumberE(e, n), true), MarksE(e, true), n)
    decreases e, 1
  {
    hide Tagged, MarksAll, NumberAll, MarksList, NumberList, MarksEntries, NumberEntries;
    match e
    case Binary(_, l, r) => TagsTwo(e, l, r, n);
    case Logical(_, l, r) => TagsTwo(e, l, r, n);
    case Unary(_, x) => TagsE(x, n);
    case Assign(_, _) => TagsAssign(e, n);
    case Index(c, i) => TagsTwo(e, c, i, n);
    case Field(c, _) => TagsE(c, n);
    case Call(_, args) => TagsList(args, n);
    case ArrayLit(es) => TagsList(es, n);
    case MapLit(ms) => TagsEntries(ms, n);
    case Lambda(_, _, _) => TagsLambda(e, n);
    case _ => TaggedNone(n);
  }

  lemma {:induction false} TagsLambda(e: Expr, n: nat)
    requires e.Lambda?
    ensures Tagged(MarksE(NumberE(e, n), true), MarksE(e, true), n)
    decreases e, 0
  {
    hide Tagged, MarksAll, NumberAll;
    TagsAll(e.body, n + 1);
    TaggedOne(Lam(NumberE(e, n)), Lam(e), n);
    TaggedBoth([Lam(NumberE(e, n))], [Lam(e)], MarksAll(NumberAll(e.body, n + 1), true), MarksAll(e.body, true), n, n + 1);
  }

  /** Two operands of `e`, one after the other. */
  lemma {:induction false} TagsTwo(e: Expr, l: Expr, r: Expr, n: nat)
    requires l < e && r < e
    ensures Tagged(MarksE(NumberE(l, n), true) + MarksE(NumberE(r, n + |MarksE(l, true)|), true), MarksE(l, true) + MarksE(r, true), n)
    decreases e, 0
  {
    hide Tagged, MarksE, NumberE;
    var k := n + |MarksE(l, true)|;
    TagsE(l, n);
    TagsE(r, k);
    TaggedBoth(MarksE(NumberE(l, n), true), MarksE(l, true), MarksE(NumberE(r, k), true), MarksE(r, true), n, k);
  }

  lemma TaggedNone(n: nat)
    ensures Tagged([], [], n)
  {
  }

  lemma TaggedOne(m: Mark, was: Mark, n: nat)
    requires m.Lam? ==> m.node.Lambda? && m.node.id == n
    ensures Tagged([m], [was], n)
  {
  }

  lemma {:induction false} TagsAssign(e: Expr, n: nat)
    requires e.Assign?
    ensures Tagged(MarksE(NumberE(e, n), true), MarksE(e, true), n)
    decreases e, 0
  {
    hide Tagged, NumberE;
    var t, v := e.target, e.value;
    var a := if t.Ident? then [Target(t.name)] else [];
    var k := n + |a|;
    var m := k + |MarksE(t, true)|;
    if t.Ident? { TaggedOne(a[0], a[0], n); } else { TaggedNone(n); }
    TagsE(t, k);
    TaggedBoth(a, a, MarksE(NumberE(t, k), true), MarksE(t, true), n, k);
    TagsE(v, m);
    var b, was := a + MarksE(NumberE(t, k), true), a + MarksE(t, true);
    TaggedBoth(b, was, MarksE(NumberE(v, m), true), MarksE(v, true), n, m);
    AssignNumbered(t, v, n, k, m);
  }

  lemma AssignNumbered(t: Expr, v: Expr, n: nat, k: nat, m: nat)
    requires k == n + (if t.Ident? then 1 else 0) && m == k + |MarksE(t, true)|
    ensures NumberE(Assign(t, v), n) == Assign(NumberE(t, k), NumberE(v, m))
    ensures NumberE(t, k).Ident? <==> t.Ident?
    ensures t.Ident? ==> NumberE(t, k) == t
  {
  }

  lemma {:induction false} TagsList(es: Exprs, n: nat)
    ensures Tagged(MarksList(NumberList(es, n), true), MarksList(es, true), n)
    decreases es
  {
    hide Tagged, MarksE, NumberE;
    match es
    case ENil => TaggedNone(n);
    case ECons(h, t) =>
      var k := n + |MarksE(h, true)|;
      TagsE(h, n);
      TagsList(t, k);
      TaggedBoth(MarksE(NumberE(h, n), true), MarksE(h, true), MarksList(NumberList(t, k), true), MarksList(t, true), n, k);
  }

  lemma {:induction false} TagsEntries(ms: Entries, n: nat)
    ensures Tagged(MarksEntries(NumberEntries(ms, n), true), MarksEntries(ms, true), n)
    decreases ms
  {
    hide Tagged, MarksE, NumberE;
    match ms
    case MNil => TaggedNone(n);
    case MCons(key, v, t) =>
      var k := n + |MarksE(key, true)|;
      var m := n + (|MarksE(key, true)| + |MarksE(v, true)|);
      TagsE(key, n);
      TagsE(v, k);
      TaggedBoth(MarksE(NumberE(key, n), true), MarksE(key, true), MarksE(NumberE(v, k), true), MarksE(v, true), n, k);
      TagsEntries(t, m);
      var b, was := MarksE(NumberE(key, n), true) + MarksE(NumberE(v, k), true), MarksE(key, true) + MarksE(v, true);
      TaggedBoth(b, was, MarksEntries(NumberEntries(t, m), true), MarksEntries(t, true), n, m);
  }

  lemma {:induction false} TagsOpt(o: OptExpr, n: nat)
    ensures Tagged(MarksOpt(NumberOpt(o, n), true), MarksOpt(o, true), n)
    decreases o
  {
    hide Tagged, MarksE, NumberE;
    match o
    case Absent => TaggedNone(n);
    case Present(e) => TagsE(e, n);
  }

  lemma {:induction false} TagsS(s: Stmt, n: nat)
    ensures Tagged(Marks(NumberS(s, n), true), Marks(s, true), n)
    decreases s, 1
  {
    hide Tagged, MarksE, NumberE, MarksAll, NumberAll, MarksOpt, NumberOpt;
    match s
    case ExprStmt(e) => TagsE(e, n);
    case Print(e) => TagsE(e, n);
    case Return(v) => TagsOpt(v, n);
    case Block(b) => TagsAll(b, n);
    case If(c) => TagsChain(c, n);
    case While(c, b) =>
      var k := n + |MarksE(c, true)|;
      TagsE(c, n);
      TagsAll(b, k);
      TaggedBoth(MarksE(NumberE(c, n), true), MarksE(c, true), MarksAll(NumberAll(b, k), true), MarksAll(b, true), n, k);
    case For(_, _, _, _) => TagsFor(s, n);
    case FnDecl(_, _, b) => TagsAll(b, n);
    case _ => TaggedNone(n);
  }

  lemma {:induction false} TagsFor(s: Stmt, n: nat)
    requires s.For?
    ensures Tagged(Marks(NumberS(s, n), true), Marks(s, true), n)
    decreases s, 0
  {
    hide Tagged, MarksAll, NumberAll, MarksOpt, NumberOpt;
    var i, t, st, b := s.init, s.test, s.step, s.body;
    var wi, wt, ws := MarksOpt(i, true), MarksOpt(t, true), MarksOpt(st, true);
    var k1, k2, k3 := n + |wi|, n + (|wi| + |wt|), n + (|wi| + |wt| + |ws|);
    var mi, mt, ms := MarksOpt(NumberOpt(i, n), true), MarksOpt(NumberOpt(t, k1), true), MarksOpt(NumberOpt(st, k2), true);
    TagsOpt(i, n);
    TagsOpt(t, k1);
    TagsOpt(st, k2);
    TagsAll(b, k3);
    TaggedBoth(mi, wi, mt, wt, n, k1);
    TaggedBoth(mi + mt, wi + wt, ms, ws, n, k2);
    TaggedBoth(mi + mt + ms, wi + wt + ws, MarksAll(NumberAll(b, k3), true), MarksAll(b, true), n, k3);
  }

  lemma {:induction false} TagsAll(ss: Stmts, n: nat)
    ensures Tagged(MarksAll(NumberAll(ss, n), true), MarksAll(ss, true), n)
    decreases ss
  {
    hide Tagged, Marks, NumberS;
    match ss
    case SNil => TaggedNone(n);
    case SCons(h, t) =>
      var k := n + |Marks(h, true)|;
      TagsS(h, n);
      TagsAll(t, k);
      TaggedBoth(Marks(NumberS(h, n), true), Marks(h, true), MarksAll(NumberAll(t, k), true), MarksAll(t, true), n, k);
  }

  lemma {:induction false} TagsChain(c: Chain, n: nat)
    ensures Tagged(MarksChain(NumberChain(c, n), true), MarksChain(c, true), n)
    decreases c
  {
    hide Tagged, MarksE, NumberE, MarksAll, NumberAll, MarksElse, NumberElse;
    var wc, wt := MarksE(c.cond, true), MarksAll(c.thn, true);
    var k, m := n + |wc|, n + (|wc| + |wt|);
    var mc, mt := MarksE(NumberE(c.cond, n), true), MarksAll(NumberAll(c.thn, k), true);
    TagsE(c.cond, n);
    TagsAll(c.thn, k);
    TagsElse(c.els, m);
    TaggedBoth(mc, wc, mt, wt, n, k);
    TaggedBoth(mc + mt, wc + wt, MarksElse(NumberElse(c.els, m), true), MarksElse(c.els, true), n, m);
  }

  lemma {:induction false} TagsElse(e: Else, n: nat)
    ensures Tagged(MarksElse(NumberElse(e, n), true), MarksElse(e, true), n)
    decreases e
  {
    hide Tagged;
    match e
    case NoElse => TaggedNone(n);
    case ElseBlock(b) => TagsAll(b, n);
    case ElseIf(c) => TagsChain(c, n);
  }

  /** A numbered program has no function expression in two places. */
  lemma NumbersDistinct(ss: Stmts)
    ensures FnCode.DistinctLambdas(MarksAll(NumberAll(ss, 0), true))
  {
    hide MarksAll, NumberAll;
    TagsAll(ss, 0);
  }

  // ---- programs without function expressions stay as they are ------------------------------------------

  lemma {:induction false} SimpleStaysE(e: Expr, n: nat)
    requires Simple(e)
    ensures NumberE(e, n) == e
    decreases e
  {
    match e
    case Binary(_, l, r) =>
      SimpleStaysE(l, n);
      SimpleStaysE(r, n + |MarksE(l, true)|);
    case Logical(_, l, r) =>
      SimpleStaysE(l, n);
      SimpleStaysE(r, n + |MarksE(l, true)|);
    case Unary(_, x) => SimpleStaysE(x, n);
    case _ =>
  }

  lemma SimpleStaysEffect(e: Expr, n: nat)
    requires SimpleEffect(e)
    ensures NumberE(e, n) == e
  {
    if e.Assign? {
      SimpleStaysE(e.value, n + 1 + |MarksE(e.target, true)|);
    } else {
      SimpleStaysE(e, n);
    }
  }

  lemma {:induction false} SimpleStaysS(s: Stmt, n: nat)
    requires SimpleStmt(s)
    ensures NumberS(s, n) == s
    decreases s
  {
    hide MarksE, MarksOpt, MarksAll, NumberE;
    match s
    case ExprStmt(e) => SimpleStaysEffect(e, n);
    case Print(e) => SimpleStaysE(e, n);
    case Return(v) => if v.Present? { SimpleStaysE(v.e, n); }
    case Block(b) => SimpleStaysAll(b, n);
    case If(c) => SimpleStaysChain(c, n);
    case While(c, b) =>
      SimpleStaysE(c, n);
      SimpleStaysAll(b, n + |MarksE(c, true)|);
    case For(i, t, st, b) =>
      var a := |MarksOpt(i, true)|;
      var k := a + |MarksOpt(t, true)|;
      if i.Present? { SimpleStaysEffect(i.e, n); }
      if t.Present? { SimpleStaysE(t.e, n + a); }
      if st.Present? { SimpleStaysEffect(st.e, n + k); }
      SimpleStaysAll(b, n + (k + |MarksOpt(st, true)|));
    case _ =>
  }

  lemma {:induction false} SimpleStaysAll(ss: Stmts, n: nat)
    requires SimpleStmts(ss)
    ensures NumberAll(ss, n) == ss
    decreases ss
  {
    hide Marks;
    if ss.SCons? {
      SimpleStaysS(ss.head, n);
      SimpleStaysAll(ss.tail, n + |Marks(ss.head, true)|);
    }
  }

  lemma {:induction false} SimpleStaysChain(c: Chain, n: nat)
    requires SimpleChain(c)
    ensures NumberChain(c, n) == c
    decreases c
  {
    hide MarksE, MarksAll;
    var a := |MarksE(c.cond, true)|;
    SimpleStaysE(c.cond, n);
    SimpleStaysAll(c.thn, n + a);
    var m := n + (a + |MarksAll(c.thn, true)|);
    match c.els
    case NoElse =>
    case ElseBlock(b) => SimpleStaysAll(b, m);
    case ElseIf(chain) => SimpleStaysChain(chain, m);
  }

  /** Numbering leaves a program's simple entry statements alone. */
  lemma {:induction false} MainStays(ss: Stmts, n: nat)
    requires SimpleStmts(FnCode.MainOf(ss))
    ensures FnCode.MainOf(NumberAll(ss, n)) == FnCode.MainOf(ss)
    decreases ss
  {
    hide Marks, NumberS;
    if ss.SCons? {
      var k := n + |Marks(ss.head, true)|;
      NumberedKind(ss.head, n);
      if !ss.head.FnDecl? { SimpleStaysS(ss.head, n); }
      MainStays(ss.tail, k);
    }
  }

  lemma NumberedKind(s: Stmt, n: nat)
    ensures NumberS(s, n).FnDecl? <==> s.FnDecl?
  {
  }
}
