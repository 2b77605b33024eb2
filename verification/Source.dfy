/** A big-step semantics of the language fragment without objects and calls, written
    independently of the compiler: what its programs print and how they end. */
module Source {
  import opened Bytecode
  import opened Ast
  import opened Values

  type Store = map<string, Value>

  /** Expressions over integer, boolean and nil literals, variables and operators. */
  predicate Simple(e: Expr) {
    match e
    case IntLit(_) => true
    case BoolLit(_) => true
    case NilLit => true
    case Ident(_) => true
    case Binary(_, l, r) => Simple(l) && Simple(r)
    case Logical(_, l, r) => Simple(l) && Simple(r)
    case Unary(_, x) => Simple(x)
    case _ => false
  }

  /** The variables an expression reads. */
  function Reads(e: Expr): set<string> {
    match e
    case Ident(x) => {x}
    case Binary(_, l, r) => Reads(l) + Reads(r)
    case Logical(_, l, r) => Reads(l) + Reads(r)
    case Unary(_, x) => Reads(x)
    case _ => {}
  }

  function Eval(fp: FpOps, e: Expr, s: Store): Outcome
    requires Simple(e) && Reads(e) <= s.Keys
  {
    match e
    case IntLit(i) => Good(VInt(i))
    case BoolLit(b) => Good(VBool(b))
    case NilLit => Good(VNil)
    case Ident(x) => Good(s[x])
    case Binary(op, l, r) =>
      var a := Eval(fp, l, s);
      if a.Bad? then a else
      var b := Eval(fp, r, s);
      if b.Bad? then b else BinaryOp(fp, [], BinOpcode(op), a.v, b.v)
    case Unary(op, x) =>
      var a := Eval(fp, x, s);
      if a.Bad? then a else UnaryOp(fp, UnOpcode(op), a.v)
    case Logical(isAnd, l, r) =>
      var a := Eval(fp, l, s);
      if a.Bad? then a
      else if Truthy(fp, a.v) != isAnd then Good(VBool(!isAnd))
      else
        var b := Eval(fp, r, s);
        if b.Bad? then b else Good(VBool(Truthy(fp, b.v)))
  }

  /** An assignment's value as the language means it, or as it is computed in the register of
      the variable `x` itself: the first operand of a short-circuit operator is held there
      while the second one is evaluated. */
  datatype How = AsMeant | AsCompiled

  function EvalThrough(fp: FpOps, e: Expr, s: Store, x: string): Outcome
    requires Simple(e) && Reads(e) <= s.Keys
    decreases e
  {
    if e.Logical? then
      var a := EvalThrough(fp, e.l, s, x);
      if a.Bad? then a
      else if Truthy(fp, a.v) != e.isAnd then Good(VBool(!e.isAnd))
      else
        var b := EvalThrough(fp, e.r, s[x := a.v], x);
        if b.Bad? then b else Good(VBool(Truthy(fp, b.v)))
    else Eval(fp, e, s)
  }

  function Assigned(fp: FpOps, how: How, e: Expr, x: string, s: Store): Outcome
    requires Simple(e) && Reads(e) <= s.Keys
  {
    if how.AsMeant? then Eval(fp, e, s) else EvalThrough(fp, e, s, x)
  }

  /** How a statement ends; `Timeout` means some loop went round `fuel` times. */
  datatype Ending =
    | Next(s: Store, out: seq<Value>)
    | Broke(s: Store, out: seq<Value>)
    | Continued(s: Store, out: seq<Value>)
    | Returned(v: Value, out: seq<Value>)
    | Stopped(e: Err, out: seq<Value>)
    | Timeout

  predicate SimpleOpt(o: OptExpr) {
    o.Present? ==> Simple(o.e)
  }

  /** An expression or an assignment to a variable, as for-clauses and expression
      statements allow. */
  predicate SimpleEffect(e: Expr) {
    if e.Assign? then e.target.Ident? && Simple(e.value) else Simple(e)
  }

  predicate SimpleClause(o: OptExpr) {
    o.Present? ==> SimpleEffect(o.e)
  }

  predicate SimpleStmt(s: Stmt) {
    match s
    case ExprStmt(e) => SimpleEffect(e)
    case Print(e) => Simple(e)
    case Return(v) => SimpleOpt(v)
    case Block(b) => SimpleStmts(b)
    case If(c) => SimpleChain(c)
    case While(c, b) => Simple(c) && SimpleStmts(b)
    case For(i, t, st, b) => SimpleClause(i) && SimpleOpt(t) && SimpleClause(st) && SimpleStmts(b)
    case Break => true
    case Continue => true
    case FnDecl(_, _, _) => false
  }

  predicate SimpleStmts(ss: Stmts) {
    match ss
    case SNil => true
    case SCons(h, t) => SimpleStmt(h) && SimpleStmts(t)
  }

  predicate SimpleChain(c: Chain) {
    Simple(c.cond) && SimpleStmts(c.thn) && SimpleElse(c.els)
  }

  predicate SimpleElse(e: Else) {
    match e
    case NoElse => true
    case ElseBlock(b) => SimpleStmts(b)
    case ElseIf(c) => SimpleChain(c)
  }

  /** The variables a statement mentions. */
  function EffectVars(e: Expr): set<string> {
    if e.Assign? && e.target.Ident? then {e.target.name} + Reads(e.value) else Reads(e)
  }

  function OptVars(o: OptExpr): set<string> {
    if o.Present? then EffectVars(o.e) else {}
  }

  function Vars(s: Stmt): set<string> {
    match s
    case ExprStmt(e) => EffectVars(e)
    case Print(e) => Reads(e)
    case Return(v) => OptVars(v)
    case Block(b) => VarsAll(b)
    case If(c) => VarsChain(c)
    case While(c, b) => Reads(c) + VarsAll(b)
    case For(i, t, st, b) => OptVars(i) + OptVars(t) + OptVars(st) + VarsAll(b)
    case _ => {}
  }

  function VarsAll(ss: Stmts): set<string> {
    match ss
    case SNil => {}
    case SCons(h, t) => Vars(h) + VarsAll(t)
  }

  function VarsChain(c: Chain): set<string> {
    Reads(c.cond) + VarsAll(c.thn) + VarsElse(c.els)
  }

  function VarsElse(e: Else): set<string> {
    match e
    case NoElse => {}
    case ElseBlock(b) => VarsAll(b)
    case ElseIf(c) => VarsChain(c)
  }

  function Effect(fp: FpOps, how: How, e: Expr, s: Store, out: seq<Value>): (r: Ending)
    requires SimpleEffect(e) && EffectVars(e) <= s.Keys
    ensures r.Next? ==> r.s.Keys == s.Keys
  {
    var v := if e.Assign? then Assigned(fp, how, e.value, e.target.name, s) else Eval(fp, e, s);
    if v.Bad? then Stopped(v.e, out)
    else if e.Assign? then Next(s[e.target.name := v.v], out)
    else Next(s, out)
  }

  function EffectOpt(fp: FpOps, how: How, o: OptExpr, s: Store, out: seq<Value>): (r: Ending)
    requires SimpleClause(o) && OptVars(o) <= s.Keys
    ensures r.Next? ==> r.s.Keys == s.Keys
  {
    if o.Absent? then Next(s, out) else Effect(fp, how, o.e, s, out)
  }

  predicate KeepsKeys(r: Ending, s: Store) {
    r.Next? || r.Broke? || r.Continued? ==> r.s.Keys == s.Keys
  }

  /** An omitted condition holds. */
  function Test(fp: FpOps, o: OptExpr, s: Store): Outcome
    requires SimpleOpt(o) && OptVars(o) <= s.Keys
  {
    if o.Absent? then Good(VBool(true)) else Eval(fp, o.e, s)
  }

  function Exec(fp: FpOps, how: How, st: Stmt, s: Store, out: seq<Value>, fuel: nat): (r: Ending)
    requires SimpleStmt(st) && Vars(st) <= s.Keys
    ensures KeepsKeys(r, s)
    decreases fuel, st, 0
  {
    match st
    case ExprStmt(e) => Effect(fp, how, e, s, out)
    case Print(e) =>
      var v := Eval(fp, e, s);
      if v.Bad? then Stopped(v.e, out) else Next(s, out + [v.v])
    case Return(o) =>
      if o.Absent? then Returned(VNil, out) else
      var v := Eval(fp, o.e, s);
      if v.Bad? then Stopped(v.e, out) else Returned(v.v, out)
    case Block(b) => ExecAll(fp, how, b, s, out, fuel)
    case If(c) => ExecChain(fp, how, c, s, out, fuel)
    case While(c, b) => Loop(fp, how, Present(c), Absent, b, s, out, fuel)
    case For(i, t, step, b) =>
      var r := EffectOpt(fp, how, i, s, out);
      if !r.Next? then r else Loop(fp, how, t, step, b, r.s, r.out, fuel)
    case Break => Broke(s, out)
    case Continue => Continued(s, out)
  }

  function ExecAll(fp: FpOps, how: How, ss: Stmts, s: Store, out: seq<Value>, fuel: nat): (r: Ending)
    requires SimpleStmts(ss) && VarsAll(ss) <= s.Keys
    ensures KeepsKeys(r, s)
    decreases fuel, ss, 0
  {
    match ss
    case SNil => Next(s, out)
    case SCons(h, t) =>
      var r := Exec(fp, how, h, s, out, fuel);
      if r.Next? then ExecAll(fp, how, t, r.s, r.out, fuel) else r
  }

  function ExecChain(fp: FpOps, how: How, c: Chain, s: Store, out: seq<Value>, fuel: nat): (r: Ending)
    requires SimpleChain(c) && VarsChain(c) <= s.Keys
    ensures KeepsKeys(r, s)
    decreases fuel, c, 0
  {
    var v := Eval(fp, c.cond, s);
    if v.Bad? then Stopped(v.e, out)
    else if Truthy(fp, v.v) then ExecAll(fp, how, c.thn, s, out, fuel)
    else ExecElse(fp, how, c.els, s, out, fuel)
  }

  function ExecElse(fp: FpOps, how: How, e: Else, s: Store, out: seq<Value>, fuel: nat): (r: Ending)
    requires SimpleElse(e) && VarsElse(e) <= s.Keys
    ensures KeepsKeys(r, s)
    decreases fuel, e, 0
  {
    match e
    case NoElse => Next(s, out)
    case ElseBlock(b) => ExecAll(fp, how, b, s, out, fuel)
    case ElseIf(c) => ExecChain(fp, how, c, s, out, fuel)
  }

  /** Test, body, step, again. */
  function Loop(fp: FpOps, how: How, test: OptExpr, step: OptExpr, body: Stmts, s: Store, out: seq<Value>, fuel: nat): (r: Ending)
    requires SimpleOpt(test) && SimpleClause(step) && SimpleStmts(body)
    requires OptVars(test) + OptVars(step) + VarsAll(body) <= s.Keys
    ensures KeepsKeys(r, s) && !r.Broke? && !r.Continued?
    decreases fuel, body, 1
  {
    if fuel == 0 then Timeout else
    var v := Test(fp, test, s);
    if v.Bad? then Stopped(v.e, out)
    else if !Truthy(fp, v.v) then Next(s, out)
    else
      var r := ExecAll(fp, how, body, s, out, fuel);
      if r.Broke? then Next(r.s, r.out)
      else if r.Returned? || r.Stopped? || r.Timeout? then r
      else
        var u := EffectOpt(fp, how, step, r.s, r.out);
        if u.Next? then Loop(fp, how, test, step, body, u.s, u.out, fuel - 1) else u
  }

  lemma KeysKept(fp: FpOps, how: How, body: Stmts, s: Store, out: seq<Value>, fuel: nat)
    requires SimpleStmts(body) && VarsAll(body) <= s.Keys
    ensures KeepsKeys(ExecAll(fp, how, body, s, out, fuel), s)
    ensures var r := ExecAll(fp, how, body, s, out, fuel); r.Next? || r.Broke? || r.Continued? ==> r.s.Keys == s.Keys
  {
    hide ExecAll;
  }

  lemma LoopOut(fp: FpOps, how: How, test: OptExpr, step: OptExpr, body: Stmts, s: Store, out: seq<Value>)
    requires SimpleOpt(test) && SimpleClause(step) && SimpleStmts(body) && OptVars(test) + OptVars(step) + VarsAll(body) <= s.Keys
    ensures Loop(fp, how, test, step, body, s, out, 0) == Timeout
  {
  }

  /** The loop, one round taken out. */
  lemma LoopRound(fp: FpOps, how: How, test: OptExpr, step: OptExpr, body: Stmts, s: Store, out: seq<Value>, fuel: nat)
    requires SimpleOpt(test) && SimpleClause(step) && SimpleStmts(body) && OptVars(test) + OptVars(step) + VarsAll(body) <= s.Keys && fuel > 0
    ensures var v := Test(fp, test, s);
            Loop(fp, how, test, step, body, s, out, fuel) ==
            if v.Bad? then Stopped(v.e, out)
            else if !Truthy(fp, v.v) then Next(s, out)
            else
              var r := ExecAll(fp, how, body, s, out, fuel);
              if r.Broke? then Next(r.s, r.out)
              else if r.Returned? || r.Stopped? || r.Timeout? then r
              else
                var u := EffectOpt(fp, how, step, r.s, r.out);
                if u.Next? then Loop(fp, how, test, step, body, u.s, u.out, fuel - 1) else u
  {
    hide Test, ExecAll, EffectOpt, Truthy, OptVars, VarsAll, SimpleOpt, SimpleClause, SimpleStmts;
  }
}
