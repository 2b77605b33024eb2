/** What code a fragment compiles to, as a relation between the tree and the
    instructions at its position: the layout the compiler promises. */
module CodeOf {
  import opened Bytecode
  import opened Ast
  import opened Source

  /** Instructions by start position. */
  type Prog = map<nat, Instr>

  type Regs = map<string, nat>

  /** No two variables share a register. */
  ghost predicate Distinct(locals: Regs) {
    forall x, y {:trigger locals[x], locals[y]} :: x in locals && y in locals && locals[x] == locals[y] ==> x == y
  }

  // ---- single instructions ---------------------------------------------------

  predicate Loads(prog: Prog, consts: seq<Constant>, p: nat, dst: nat, c: Constant) {
    p in prog && prog[p].LoadConst? && prog[p].r == dst && prog[p].k < |consts| && consts[prog[p].k] == c
  }

  predicate Jumps(prog: Prog, p: nat, target: int) {
    p in prog && prog[p] == Goto(target - (p + 3))
  }

  predicate Branches(prog: Prog, p: nat, r: nat, target: int) {
    p in prog && prog[p].GotoIfFalse? && prog[p].r == r && prog[p].off == target - (p + 4)
  }

  // ---- expressions -------------------------------------------------------------

  function ESize(e: Expr, dst: nat, rt: nat, locals: Regs): nat {
    match e
    case IntLit(_) => 4
    case BoolLit(_) => 4
    case NilLit => 2
    case Ident(x) => if x in locals && locals[x] == dst then 0 else 3
    case Binary(_, l, r) => ESize(l, rt, rt + 2, locals) + ESize(r, rt + 1, rt + 2, locals) + 4
    case Unary(_, x) => ESize(x, rt, rt + 1, locals) + 3
    case Logical(isAnd, l, r) => ESize(l, dst, rt, locals) + ESize(r, dst, rt, locals) + if isAnd then 19 else 22
    case _ => 0
  }

  /** The code of expression `e` with result register `dst` and first free register
      `rt` stands at `a`. */
  predicate CodeE(e: Expr, prog: Prog, consts: seq<Constant>, a: nat, dst: nat, rt: nat, locals: Regs) {
    match e
    case IntLit(i) => Loads(prog, consts, a, dst, CInt(i))
    case BoolLit(b) => Loads(prog, consts, a, dst, CBool(b))
    case NilLit => a in prog && prog[a].LoadNil? && prog[a].r == dst
    case Ident(x) =>
      x in locals
      && (locals[x] != dst ==> a in prog && prog[a].Two? && prog[a].op == MOVE && prog[a].r == dst && prog[a].a == locals[x])
    case Binary(op, l, r) =>
      var m := a + ESize(l, rt, rt + 2, locals);
      var n := m + ESize(r, rt + 1, rt + 2, locals);
      && CodeE(l, prog, consts, a, rt, rt + 2, locals)
      && CodeE(r, prog, consts, m, rt + 1, rt + 2, locals)
      && n in prog && prog[n].Three? && prog[n].op == BinOpcode(op) && prog[n].r == dst
      && prog[n].a == rt && prog[n].b == rt + 1
    case Unary(op, x) =>
      var n := a + ESize(x, rt, rt + 1, locals);
      && CodeE(x, prog, consts, a, rt, rt + 1, locals)
      && n in prog && prog[n].Two? && prog[n].op == UnOpcode(op) && prog[n].r == dst && prog[n].a == rt
    case Logical(isAnd, l, r) =>
      var m := a + ESize(l, dst, rt, locals);
      var second := if isAnd then m + 4 else m + 7;
      var n := second + ESize(r, dst, rt, locals);
      && CodeE(l, prog, consts, a, dst, rt, locals)
      && CodeE(r, prog, consts, second, dst, rt, locals)
      && Circuit(isAnd, prog, consts, m, n, dst)
    case _ => false
  }

  /** The jumps and loads around the operands of a short-circuit operator: the left
      operand ends at `m`, the right one at `n`. */
  predicate Circuit(isAnd: bool, prog: Prog, consts: seq<Constant>, m: nat, n: nat, dst: nat) {
    && Branches(prog, m, dst, if isAnd then n + 11 else m + 7)
    && (!isAnd ==> Jumps(prog, m + 4, n + 4))
    && Branches(prog, n, dst, n + 11)
    && Loads(prog, consts, n + 4, dst, CBool(true))
    && Jumps(prog, n + 8, n + 15)
    && Loads(prog, consts, n + 11, dst, CBool(false))
  }

  /** Constants are only ever added. */
  ghost predicate Extends(consts: seq<Constant>, consts': seq<Constant>) {
    consts <= consts'
  }

  /** The instructions between `a` and `b` are the same in both programs. */
  ghost predicate Same(prog: Prog, prog': Prog, a: nat, b: nat) {
    forall p {:trigger p in prog} {:trigger p in prog'} :: a <= p < b && p in prog ==> p in prog' && prog'[p] == prog[p]
  }

  lemma SameWithin(prog: Prog, prog': Prog, a: nat, b: nat, a': nat, b': nat)
    requires Same(prog, prog', a, b) && a <= a' && b' <= b
    ensures Same(prog, prog', a', b')
  {
  }

  lemma SameAt(prog: Prog, prog': Prog, a: nat, b: nat, p: nat)
    requires Same(prog, prog', a, b) && a <= p < b && p in prog
    ensures p in prog' && prog'[p] == prog[p]
  {
  }

  lemma CircuitSame(isAnd: bool, prog: Prog, prog': Prog, consts: seq<Constant>, consts': seq<Constant>, m: nat, n: nat, z: nat, dst: nat)
    requires Circuit(isAnd, prog, consts, m, n, dst) && Extends(consts, consts')
    requires m + (if isAnd then 4 else 7) <= n && z == n + 15 && Same(prog, prog', m, z)
    ensures Circuit(isAnd, prog', consts', m, n, dst)
  {
  }

  lemma BinaryIs(e: Expr, prog: Prog, consts: seq<Constant>, a: nat, dst: nat, rt: nat, locals: Regs)
    requires e.Binary?
    ensures var m := a + ESize(e.l, rt, rt + 2, locals);
            var n := m + ESize(e.r, rt + 1, rt + 2, locals);
            && a + ESize(e, dst, rt, locals) == n + 4
            && (CodeE(e, prog, consts, a, dst, rt, locals) <==>
                 (CodeE(e.l, prog, consts, a, rt, rt + 2, locals)
                  && CodeE(e.r, prog, consts, m, rt + 1, rt + 2, locals)
                  && n in prog && prog[n].Three? && prog[n].op == BinOpcode(e.op) && prog[n].r == dst
                  && prog[n].a == rt && prog[n].b == rt + 1))
  {
  }

  lemma LogicalIs(e: Expr, prog: Prog, consts: seq<Constant>, a: nat, dst: nat, rt: nat, locals: Regs)
    requires e.Logical?
    ensures var m := a + ESize(e.l, dst, rt, locals);
            var second := if e.isAnd then m + 4 else m + 7;
            var n := second + ESize(e.r, dst, rt, locals);
            && a + ESize(e, dst, rt, locals) == n + 15
            && (CodeE(e, prog, consts, a, dst, rt, locals) <==>
                 (CodeE(e.l, prog, consts, a, dst, rt, locals)
                  && CodeE(e.r, prog, consts, second, dst, rt, locals)
                  && Circuit(e.isAnd, prog, consts, m, n, dst)))
  {
    hide Circuit;
  }

  /** Code stays code for the same expression while its own range is left alone. */
  lemma {:induction false} CodeESame(e: Expr, prog: Prog, prog': Prog, consts: seq<Constant>, consts': seq<Constant>,
                                     a: nat, dst: nat, rt: nat, locals: Regs)
    requires CodeE(e, prog, consts, a, dst, rt, locals)
    requires Same(prog, prog', a, a + ESize(e, dst, rt, locals)) && Extends(consts, consts')
    ensures CodeE(e, prog', consts', a, dst, rt, locals)
    decreases e, 1
  {
    if e.Binary? || e.Logical? { hide CodeE, ESize; }
    match e
    case Binary(_, _, _) => BinarySame(e, prog, prog', consts, consts', a, dst, rt, locals);
    case Logical(_, _, _) => LogicalSame(e, prog, prog', consts, consts', a, dst, rt, locals);
    case Unary(_, x) =>
      SameWithin(prog, prog', a, a + ESize(e, dst, rt, locals), a, a + ESize(x, rt, rt + 1, locals));
      CodeESame(x, prog, prog', consts, consts', a, rt, rt + 1, locals);
    case _ =>
  }

  lemma {:induction false} BinarySame(e: Expr, prog: Prog, prog': Prog, consts: seq<Constant>, consts': seq<Constant>,
                                      a: nat, dst: nat, rt: nat, locals: Regs)
    requires e.Binary? && CodeE(e, prog, consts, a, dst, rt, locals)
    requires Same(prog, prog', a, a + ESize(e, dst, rt, locals)) && Extends(consts, consts')
    ensures CodeE(e, prog', consts', a, dst, rt, locals)
    decreases e, 0
  {
    hide *;
    BinaryIs(e, prog, consts, a, dst, rt, locals);
    BinaryIs(e, prog', consts', a, dst, rt, locals);
    var z := a + ESize(e, dst, rt, locals);
    var m := a + ESize(e.l, rt, rt + 2, locals);
    var n := m + ESize(e.r, rt + 1, rt + 2, locals);
    SameWithin(prog, prog', a, z, a, m);
    SameWithin(prog, prog', a, z, m, n);
    SameAt(prog, prog', a, z, n);
    CodeESame(e.l, prog, prog', consts, consts', a, rt, rt + 2, locals);
    CodeESame(e.r, prog, prog', consts, consts', m, rt + 1, rt + 2, locals);
  }

  lemma {:induction false} LogicalSame(e: Expr, prog: Prog, prog': Prog, consts: seq<Constant>, consts': seq<Constant>,
                                       a: nat, dst: nat, rt: nat, locals: Regs)
    requires e.Logical? && CodeE(e, prog, consts, a, dst, rt, locals)
    requires Same(prog, prog', a, a + ESize(e, dst, rt, locals)) && Extends(consts, consts')
    ensures CodeE(e, prog', consts', a, dst, rt, locals)
    decreases e, 0
  {
    hide *;
    LogicalIs(e, prog, consts, a, dst, rt, locals);
    LogicalIs(e, prog', consts', a, dst, rt, locals);
    var z := a + ESize(e, dst, rt, locals);
    var m := a + ESize(e.l, dst, rt, locals);
    var second := if e.isAnd then m + 4 else m + 7;
    var n := second + ESize(e.r, dst, rt, locals);
    SameWithin(prog, prog', a, z, a, m);
    SameWithin(prog, prog', a, z, second, n);
    SameWithin(prog, prog', a, z, m, z);
    CodeESame(e.l, prog, prog', consts, consts', a, dst, rt, locals);
    CodeESame(e.r, prog, prog', consts, consts', second, dst, rt, locals);
    CircuitSame(e.isAnd, prog, prog', consts, consts', m, n, z, dst);
  }

  // ---- statements ----------------------------------------------------------------

  /** Where breaks and continues lead: there is no loop around, the jumps are still to be
      patched, or they lead to these positions. */
  datatype Targets = Outside | Open | Closed(brk: int, cont: int)

  /** What a function's statements share: the first free register, and its variables'. */
  datatype Scope = Scope(rt: nat, locals: Regs)

  /** The instructions and the constants they refer to. */
  datatype Text = Text(prog: Prog, consts: seq<Constant>)

  function EffectSize(e: Expr, sc: Scope): nat {
    if e.Assign? then
      if e.target.Ident? && e.target.name in sc.locals then ESize(e.value, sc.locals[e.target.name], sc.rt, sc.locals) else 0
    else ESize(e, sc.rt, sc.rt + 1, sc.locals)
  }

  function ClauseSize(o: OptExpr, sc: Scope): nat {
    if o.Absent? then 0 else EffectSize(o.e, sc)
  }

  function TestSize(o: OptExpr, sc: Scope): nat {
    if o.Absent? then 0 else ESize(o.e, sc.rt, sc.rt + 1, sc.locals) + 4
  }

  function SSize(s: Stmt, sc: Scope): nat {
    match s
    case ExprStmt(e) => EffectSize(e, sc)
    case Print(e) => ESize(e, sc.rt, sc.rt + 1, sc.locals) + 2
    case Return(o) => if o.Absent? then 4 else ESize(o.e, sc.rt, sc.rt + 1, sc.locals) + 2
    case Block(b) => SizeAll(b, sc)
    case If(c) => ChainSize(c, sc)
    case While(c, b) => TestSize(Present(c), sc) + SizeAll(b, sc) + 3
    case For(i, t, st, b) =>
      ClauseSize(i, sc) + TestSize(t, sc) + SizeAll(b, sc) + ClauseSize(st, sc) + 3
    case Break => 3
    case Continue => 3
    case FnDecl(_, _, _) => 0
  }

  function SizeAll(ss: Stmts, sc: Scope): nat {
    match ss
    case SNil => 0
    case SCons(h, t) => SSize(h, sc) + SizeAll(t, sc)
  }

  function ChainSize(c: Chain, sc: Scope): nat {
    TestSize(Present(c.cond), sc) + SizeAll(c.thn, sc) + ElseSize(c.els, sc)
  }

  /** With the jump over it. */
  function ElseSize(e: Else, sc: Scope): nat {
    match e
    case NoElse => 0
    case ElseBlock(b) => 3 + SizeAll(b, sc)
    case ElseIf(c) => 3 + ChainSize(c, sc)
  }

  predicate CodeEffect(e: Expr, u: Text, sc: Scope, a: nat) {
    if e.Assign? then
      && e.target.Ident? && e.target.name in sc.locals
      && CodeE(e.value, u.prog, u.consts, a, sc.locals[e.target.name], sc.rt, sc.locals)
    else CodeE(e, u.prog, u.consts, a, sc.rt, sc.rt + 1, sc.locals)
  }

  predicate CodeClause(o: OptExpr, u: Text, sc: Scope, a: nat) {
    o.Present? ==> CodeEffect(o.e, u, sc, a)
  }

  /** A loop's or if's condition at `a`, branching to `exit` when it fails. */
  predicate CodeTest(o: OptExpr, u: Text, sc: Scope, a: nat, exit: int) {
    o.Present? ==>
      (CodeE(o.e, u.prog, u.consts, a, sc.rt, sc.rt + 1, sc.locals)
       && Branches(u.prog, a + ESize(o.e, sc.rt, sc.rt + 1, sc.locals), sc.rt, exit))
  }

  predicate CodePrint(e: Expr, u: Text, sc: Scope, a: nat) {
    var n := a + ESize(e, sc.rt, sc.rt + 1, sc.locals);
    && CodeE(e, u.prog, u.consts, a, sc.rt, sc.rt + 1, sc.locals)
    && n in u.prog && u.prog[n].Print? && u.prog[n].r == sc.rt
  }

  predicate CodeReturn(o: OptExpr, u: Text, sc: Scope, a: nat) {
    var n := a + if o.Absent? then 2 else ESize(o.e, sc.rt, sc.rt + 1, sc.locals);
    && (if o.Absent? then a in u.prog && u.prog[a].LoadNil? && u.prog[a].r == sc.rt
        else CodeE(o.e, u.prog, u.consts, a, sc.rt, sc.rt + 1, sc.locals))
    && n in u.prog && u.prog[n].Ret? && u.prog[n].r == sc.rt
  }

  predicate Leaves(u: Text, a: nat, tg: Targets, target: int) {
    && a in u.prog && u.prog[a].Goto? && !tg.Outside?
    && (tg.Closed? ==> Jumps(u.prog, a, target))
  }

  predicate CodeS(s: Stmt, u: Text, sc: Scope, a: nat, tg: Targets)
    decreases s, 1
  {
    match s
    case ExprStmt(e) => CodeEffect(e, u, sc, a)
    case Print(e) => CodePrint(e, u, sc, a)
    case Return(o) => CodeReturn(o, u, sc, a)
    case Block(b) => CodeAll(b, u, sc, a, tg)
    case If(c) => CodeChain(c, u, sc, a, tg)
    case While(c, b) => CodeLoop(Present(c), Absent, b, u, sc, a, a)
    case For(i, t, st, b) =>
      var start := a + ClauseSize(i, sc);
      && CodeClause(i, u, sc, a)
      && CodeLoop(t, st, b, u, sc, start, start + TestSize(t, sc) + SizeAll(b, sc))
    case Break => Leaves(u, a, tg, if tg.Closed? then tg.brk else 0)
    case Continue => Leaves(u, a, tg, if tg.Closed? then tg.cont else 0)
    case FnDecl(_, _, _) => false
  }

  predicate CodeAll(ss: Stmts, u: Text, sc: Scope, a: nat, tg: Targets)
    decreases ss, 0
  {
    match ss
    case SNil => true
    case SCons(h, t) => CodeS(h, u, sc, a, tg) && CodeAll(t, u, sc, a + SSize(h, sc), tg)
  }

  predicate CodeChain(c: Chain, u: Text, sc: Scope, a: nat, tg: Targets)
    decreases c, 1
  {
    var thn := a + TestSize(Present(c.cond), sc);
    var after := thn + SizeAll(c.thn, sc);
    && CodeTest(Present(c.cond), u, sc, a, if c.els.NoElse? then after else after + 3)
    && CodeAll(c.thn, u, sc, thn, tg)
    && CodeElse(c.els, u, sc, after, tg)
  }

  /** The jump over the else branch, and the branch. */
  predicate CodeElse(e: Else, u: Text, sc: Scope, a: nat, tg: Targets)
    decreases e, 1
  {
    && (!e.NoElse? ==> Jumps(u.prog, a, a + ElseSize(e, sc)))
    && match e
       case NoElse => true
       case ElseBlock(b) => CodeAll(b, u, sc, a + 3, tg)
       case ElseIf(c) => CodeChain(c, u, sc, a + 3, tg)
  }

  /** Test, body, step and the jump back; `cont` is where a continue leads. */
  predicate CodeLoop(test: OptExpr, step: OptExpr, body: Stmts, u: Text, sc: Scope, start: nat, cont: nat)
    decreases body, 1
  {
    var bodyAt := start + TestSize(test, sc);
    var stepAt := bodyAt + SizeAll(body, sc);
    var back := stepAt + ClauseSize(step, sc);
    && (cont == stepAt || (step.Absent? && cont == start))
    && CodeTest(test, u, sc, start, back + 3)
    && CodeAll(body, u, sc, bodyAt, Closed(back + 3, cont))
    && CodeClause(step, u, sc, stepAt)
    && Jumps(u.prog, back, start)
  }

  // ---- jumps out of loops ------------------------------------------------------------

  /** Where the breaks (or the continues) of the loop around a fragment stand. */
  function Holes(s: Stmt, a: nat, sc: Scope, brk: bool): set<nat> {
    match s
    case Block(b) => HolesAll(b, a, sc, brk)
    case If(c) => HolesChain(c, a, sc, brk)
    case Break => if brk then {a} else {}
    case Continue => if brk then {} else {a}
    case _ => {}
  }

  function HolesAll(ss: Stmts, a: nat, sc: Scope, brk: bool): set<nat> {
    match ss
    case SNil => {}
    case SCons(h, t) => Holes(h, a, sc, brk) + HolesAll(t, a + SSize(h, sc), sc, brk)
  }

  function HolesChain(c: Chain, a: nat, sc: Scope, brk: bool): set<nat> {
    var thn := a + TestSize(Present(c.cond), sc);
    HolesAll(c.thn, thn, sc, brk) + HolesElse(c.els, thn + SizeAll(c.thn, sc), sc, brk)
  }

  function HolesElse(e: Else, a: nat, sc: Scope, brk: bool): set<nat> {
    match e
    case NoElse => {}
    case ElseBlock(b) => HolesAll(b, a + 3, sc, brk)
    case ElseIf(c) => HolesChain(c, a + 3, sc, brk)
  }

  ghost predicate Within(ps: set<nat>, qs: set<nat>, a: nat, b: nat) {
    ps !! qs && (forall p :: p in ps ==> a <= p < b) && (forall p :: p in qs ==> a <= p < b)
  }

  lemma {:induction false} HolesWithin(s: Stmt, a: nat, sc: Scope)
    ensures Within(Holes(s, a, sc, true), Holes(s, a, sc, false), a, a + SSize(s, sc))
  {
    match s
    case Block(b) => HolesWithinAll(b, a, sc);
    case If(c) => HolesWithinChain(c, a, sc);
    case _ =>
  }

  lemma {:induction false} HolesWithinAll(ss: Stmts, a: nat, sc: Scope)
    ensures Within(HolesAll(ss, a, sc, true), HolesAll(ss, a, sc, false), a, a + SizeAll(ss, sc))
  {
    if ss.SCons? {
      HolesWithin(ss.head, a, sc);
      HolesWithinAll(ss.tail, a + SSize(ss.head, sc), sc);
    }
  }

  lemma {:induction false} HolesWithinChain(c: Chain, a: nat, sc: Scope)
    ensures Within(HolesChain(c, a, sc, true), HolesChain(c, a, sc, false), a, a + ChainSize(c, sc))
  {
    var thn := a + TestSize(Present(c.cond), sc);
    HolesWithinAll(c.thn, thn, sc);
    HolesWithinElse(c.els, thn + SizeAll(c.thn, sc), sc);
  }

  lemma {:induction false} HolesWithinElse(e: Else, a: nat, sc: Scope)
    ensures Within(HolesElse(e, a, sc, true), HolesElse(e, a, sc, false), a, a + ElseSize(e, sc))
  {
    match e
    case NoElse =>
    case ElseBlock(b) => HolesWithinAll(b, a + 3, sc);
    case ElseIf(c) => HolesWithinChain(c, a + 3, sc);
  }
}
