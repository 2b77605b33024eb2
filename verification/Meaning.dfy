/** What every kind of expression evaluates to, over an arbitrary world of variables, calls
    and objects, and that folding constants changes none of it. */
module Meaning {
  import opened Bytecode
  import opened Ast
  import opened Values
  import opened Folding
  import opened Decoder
  import Machine

  datatype Reply<S> = Reply(r: Outcome, s: S)

  /** The effects an expression can have, as operations on some state. */
  datatype World<!S> = World(
    fp: FpOps,
    objects: S -> Objects,
    read: (string, S) -> Reply<S>,
    assign: (string, Value, S) -> S,
    text: (string, S) -> Reply<S>,
    item: (Value, Value, S) -> Outcome,
    setItem: (Value, Value, Value, S) -> Reply<S>,
    prop: (Value, string, S) -> Outcome,
    setProp: (Value, string, Value, S) -> Reply<S>,
    newArray: (nat, S) -> Reply<S>,
    newMap: S -> Reply<S>,
    closure: (nat, seq<string>, S) -> Reply<S>,
    call: (string, seq<Value>, S) -> Reply<S>,
    badKey: Outcome)

  datatype Values'<S> = Values'(ok: bool, vs: seq<Value>, e: Outcome, s: S)

  /** Operands are evaluated left to right; the first error ends the evaluation. */
  function Eval<S>(w: World<S>, e: Expr, s: S): Reply<S>
    decreases e, 1
  {
    match e
    case IntLit(i) => Reply(Good(VInt(i)), s)
    case FloatLit(d) => Reply(Good(VDbl(d)), s)
    case BoolLit(b) => Reply(Good(VBool(b)), s)
    case NilLit => Reply(Good(VNil), s)
    case StrLit(t) => w.text(t, s)
    case Ident(x) => w.read(x, s)
    case Binary(op, l, r) =>
      var a := Eval(w, l, s);
      if a.r.Bad? then a
      else
        var b := Eval(w, r, a.s);
        if b.r.Bad? then b else Reply(BinaryOp(w.fp, w.objects(b.s), BinOpcode(op), a.r.v, b.r.v), b.s)
    case Unary(op, x) =>
      var a := Eval(w, x, s);
      if a.r.Bad? then a else Reply(UnaryOp(w.fp, UnOpcode(op), a.r.v), a.s)
    case Logical(isAnd, l, r) =>
      var a := Eval(w, l, s);
      if a.r.Bad? then a
      else if Truthy(w.fp, a.r.v) != isAnd then Reply(Good(VBool(!isAnd)), a.s)
      else
        var b := Eval(w, r, a.s);
        if b.r.Bad? then b else Reply(Good(VBool(Truthy(w.fp, b.r.v))), b.s)
    case Index(c, i) =>
      var a := Eval(w, c, s);
      if a.r.Bad? then a
      else
        var b := Eval(w, i, a.s);
        if b.r.Bad? then b else Reply(w.item(a.r.v, b.r.v, b.s), b.s)
    case Field(c, name) =>
      var a := Eval(w, c, s);
      if a.r.Bad? then a else Reply(w.prop(a.r.v, name, a.s), a.s)
    case Call(name, args) =>
      var a := EvalList(w, args, s);
      if a.ok then w.call(name, a.vs, a.s) else Reply(a.e, a.s)
    case ArrayLit(es) =>
      var a := w.newArray(Count(es), s);
      if a.r.Bad? then a else EvalElements(w, a.r.v, 0, es, a.s)
    case MapLit(ms) =>
      var a := w.newMap(s);
      if a.r.Bad? then a else EvalEntries(w, a.r.v, ms, a.s)
    case Lambda(id, params, _) => w.closure(id, params, s)
    case Assign(_, _) => EvalAssign(w, e, s)
  }

  function EvalAssign<S>(w: World<S>, e: Expr, s: S): Reply<S>
    requires e.Assign?
    decreases e, 0
  {
    var v := e.value;
    match e.target
    case Index(c, i) =>
      var a := Eval(w, c, s);
      if a.r.Bad? then a
      else
        var b := Eval(w, i, a.s);
        if b.r.Bad? then b
        else
          var x := Eval(w, v, b.s);
          if x.r.Bad? then x else w.setItem(a.r.v, b.r.v, x.r.v, x.s)
    case Field(c, name) =>
      var a := Eval(w, c, s);
      if a.r.Bad? then a
      else
        var x := Eval(w, v, a.s);
        if x.r.Bad? then x else w.setProp(a.r.v, name, x.r.v, x.s)
    case Ident(name) =>
      var x := Eval(w, v, s);
      if x.r.Bad? then x else Reply(x.r, w.assign(name, x.r.v, x.s))
    case _ => Reply(w.badKey, s)
  }

  function EvalList<S>(w: World<S>, es: Exprs, s: S): Values'<S>
    decreases es
  {
    match es
    case ENil => Values'(true, [], Good(VNil), s)
    case ECons(h, t) =>
      var a := Eval(w, h, s);
      if a.r.Bad? then Values'(false, [], a.r, a.s)
      else
        var r := EvalList(w, t, a.s);
        if r.ok then Values'(true, [a.r.v] + r.vs, r.e, r.s) else r
  }

  /** The elements from index `k` on, each stored as soon as it is evaluated. */
  function EvalElements<S>(w: World<S>, arr: Value, k: nat, es: Exprs, s: S): Reply<S>
    decreases es
  {
    match es
    case ENil => Reply(Good(arr), s)
    case ECons(h, t) =>
      var a := Eval(w, h, s);
      if a.r.Bad? then a
      else
        var p := w.setItem(arr, VInt(k), a.r.v, a.s);
        if p.r.Bad? then p else EvalElements(w, arr, k + 1, t, p.s)
  }

  function EvalEntries<S>(w: World<S>, obj: Value, ms: Entries, s: S): Reply<S>
    decreases ms
  {
    match ms
    case MNil => Reply(Good(obj), s)
    case MCons(k, v, t) =>
      if !k.StrLit? then Reply(w.badKey, s)
      else
        var a := Eval(w, v, s);
        if a.r.Bad? then a
        else
          var p := w.setProp(obj, k.s, a.r.v, a.s);
          if p.r.Bad? then p else EvalEntries(w, obj, t, p.s)
  }

  // ---- folded operators compute what the interpreter would -----------------------------------------

  lemma IntsKeep<S>(w: World<S>, op: BinOp, x: int, y: int, s: S)
    ensures Eval(w, FoldInts(op, x, y), s) == Eval(w, Binary(op, IntLit(x), IntLit(y)), s)
  {
    hide Wrap, Unsigned, Pow2, TruncDiv, TruncMod, Values.BitAnd, Values.BitOr, Values.BitXor;
    IntsAre(w, op, x, y, s);
  }

  /** Evaluating an operator over integer literals, case by case. */
  lemma IntsAre<S>(w: World<S>, op: BinOp, x: int, y: int, s: S)
    ensures Eval(w, Binary(op, IntLit(x), IntLit(y)), s) == Reply(BinaryOp(w.fp, w.objects(s), BinOpcode(op), VInt(x), VInt(y)), s)
  {
    hide BinaryOp;
  }

  lemma DoublesKeep<S>(w: World<S>, op: BinOp, l: Expr, r: Expr, s: S)
    requires (l.IntLit? || l.FloatLit?) && (r.IntLit? || r.FloatLit?) && !(l.IntLit? && r.IntLit?)
    ensures Eval(w, FoldDoubles(w.fp, op, l, r), s) == Eval(w, Binary(op, l, r), s)
  {
  }

  lemma BinaryKeeps<S>(w: World<S>, op: BinOp, l: Expr, r: Expr, s: S)
    ensures Eval(w, FoldBinary(w.fp, op, l, r), s) == Eval(w, Binary(op, l, r), s)
  {
    hide Eval, FoldInts, FoldDoubles;
    if l.IntLit? && r.IntLit? {
      IntsKeep(w, op, l.i, r.i, s);
    } else if (l.IntLit? || l.FloatLit?) && (r.IntLit? || r.FloatLit?) {
      DoublesKeep(w, op, l, r, s);
    }
  }

  /** Making a string literal changes nothing else and yields a truthy value. */
  ghost predicate TextIsPure<S>(w: World<S>, t: string, s: S) {
    var r := w.text(t, s);
    r.r.Good? && Truthy(w.fp, r.r.v) && r == Reply(r.r, s)
  }

  ghost predicate PureTexts<S(!new)>(w: World<S>) {
    forall t, s :: TextIsPure(w, t, s)
  }

  /** No `!` before a string literal. */
  predicate Clean(e: Expr) {
    match e
    case Unary(op, x) => !(op.Not? && x.StrLit?) && Clean(x)
    case Binary(_, l, r) => Clean(l) && Clean(r)
    case Logical(_, l, r) => Clean(l) && Clean(r)
    case Assign(t, v) => Clean(t) && Clean(v)
    case Index(c, i) => Clean(c) && Clean(i)
    case Field(c, _) => Clean(c)
    case Call(_, args) => CleanList(args)
    case ArrayLit(es) => CleanList(es)
    case MapLit(ms) => CleanEntries(ms)
    case _ => true
  }

  predicate CleanList(es: Exprs) {
    es.ECons? ==> Clean(es.head) && CleanList(es.tail)
  }

  predicate CleanEntries(ms: Entries) {
    ms.MCons? ==> Clean(ms.key) && Clean(ms.val) && CleanEntries(ms.rest)
  }

  /** `!"t"` is computed as if the string had never been made: that is right exactly where
      making it does nothing but yield a truthy value. */
  lemma NotTextExact<S>(w: World<S>, t: string, s: S)
    ensures Eval(w, FoldE(w.fp, Unary(Not, StrLit(t))), s) == Eval(w, Unary(Not, StrLit(t)), s) <==> TextIsPure(w, t, s)
  {
    assert FoldE(w.fp, Unary(Not, StrLit(t))) == BoolLit(false);
    assert Eval(w, BoolLit(false), s) == Reply(Good(VBool(false)), s);
    assert Eval(w, StrLit(t), s) == w.text(t, s);
  }

  /** Making a text as the machine does: a new object, or no room for one. */
  function Load(env: Machine.Env, t: string, objs: Objects): Reply<Objects> {
    if env.full(objs) then Reply(Bad(OutOfMemory), objs) else Reply(Good(VObj(|objs|)), objs + [Str(t)])
  }

  /** A world over the machine's objects whose texts are made as the machine makes them. */
  ghost predicate LoadsTexts(w: World<Objects>, env: Machine.Env) {
    w.fp == env.fp && forall t, objs :: w.text(t, objs) == Load(env, t, objs)
  }

  /** There the folded `!"t"` makes no object where the program made one, and ends a program
      well that ran out of memory: the outcomes agree exactly while there is room. */
  lemma NotTextDiffers(w: World<Objects>, env: Machine.Env, t: string, objs: Objects)
    requires LoadsTexts(w, env)
    ensures var e := Unary(Not, StrLit(t));
            Eval(w, FoldE(w.fp, e), objs) == Reply(Good(VBool(false)), objs) &&
            Eval(w, e, objs).s == (if env.full(objs) then objs else objs + [Str(t)]) &&
            (Eval(w, FoldE(w.fp, e), objs).r == Eval(w, e, objs).r <==> !env.full(objs))
  {
    assert FoldE(w.fp, Unary(Not, StrLit(t))) == BoolLit(false);
    assert Eval(w, StrLit(t), objs) == w.text(t, objs) == Load(env, t, objs);
  }

  /** The machine is about to load constant `k` into register `a`, then negate it into `r`. */
  ghost predicate CanNegate(m: Module, st: Machine.State, k: nat, a: Byte, r: Byte) {
    && st.frames != [] && st.error == [] && Machine.Top(st).func < |m.funcs|
    && |Machine.Top(st).regs| == m.funcs[Machine.Top(st).func].numRegs
    && (|st.frames| >= 2 ==> Machine.Top(st).resultReg < |st.frames[|st.frames| - 2].regs|)
    && Fits(m, m.funcs[Machine.Top(st).func], LoadConst(a, k)) && Fits(m, m.funcs[Machine.Top(st).func], Two(NOT, r, a))
  }

  /** LOAD_CONST and NOT, the second only if the first did not stop. */
  ghost function Negated(m: Module, env: Machine.Env, st: Machine.State, k: nat, a: Byte, r: Byte): Machine.State
    requires CanNegate(m, st, k, a, r)
  {
    var st' := Machine.Exec(m, env, st, LoadConst(a, k), 4);
    if st'.error != [] then st' else Machine.Exec(m, env, st', Two(NOT, r, a), 3)
  }

  /** The two instructions `!"t"` is compiled to do on the machine what it means in that world;
      in particular they run out of memory where its folded form, a load of false, cannot. */
  lemma NotTextSteps(w: World<Objects>, m: Module, env: Machine.Env, st: Machine.State, k: nat, a: Byte, r: Byte)
    requires LoadsTexts(w, env) && CanNegate(m, st, k, a, r) && m.consts[k].CStr?
    ensures var v, st' := Eval(w, Unary(Not, StrLit(m.consts[k].s)), st.objs), Negated(m, env, st, k, a, r);
            if v.r.Bad? then st' == Machine.Fail(st, v.r.e)
            else st'.error == [] && st'.objs == v.s && |st'.frames| == |st.frames| && r < |Machine.Top(st').regs| && Machine.Top(st').regs[r] == v.r.v
    ensures env.full(st.objs) ==> Negated(m, env, st, k, a, r).error == [OutOfMemory]
  {
    hide LoadsTexts, BinaryOp;
    TextLoads(w, env, m.consts[k].s, st.objs);
  }

  lemma TextLoads(w: World<Objects>, env: Machine.Env, t: string, objs: Objects)
    requires LoadsTexts(w, env)
    ensures w.fp == env.fp && Eval(w, StrLit(t), objs) == Load(env, t, objs)
  {
  }

  lemma UnaryKeeps<S(!new)>(w: World<S>, op: UnOp, x: Expr, s: S)
    requires PureTexts(w) || !(op.Not? && x.StrLit?)
    ensures Eval(w, FoldUnary(w.fp, op, x), s) == Eval(w, Unary(op, x), s)
  {
    if x.StrLit? && op.Not? { assert TextIsPure(w, x.s, s); }
  }

  lemma LogicalKeeps<S>(w: World<S>, isAnd: bool, l: Expr, r: Expr, s: S)
    ensures Eval(w, FoldLogical(isAnd, l, r), s) == Eval(w, Logical(isAnd, l, r), s)
  {
  }

  // ---- folding preserves evaluation -------------------------------------------------------------------

  /** In any world, with any effects: an expression without `!"text"` means the same folded. */
  lemma {:induction false} FoldKeeps<S(!new)>(w: World<S>, e: Expr, s: S)
    requires Clean(e) || PureTexts(w)
    ensures Eval(w, FoldE(w.fp, e), s) == Eval(w, e, s)
    decreases e, 2
  {
    hide PureTexts, FoldBinary, FoldUnary, FoldLogical, BinaryOp, UnaryOp;
    match e
    case Binary(op, l, r) => BinaryFoldKeeps(w, op, l, r, s);
    case Logical(isAnd, l, r) => LogicalFoldKeeps(w, isAnd, l, r, s);
    case Unary(op, x) =>
      FoldKeeps(w, x, s);
      FoldsToText(w.fp, x);
      UnaryKeeps(w, op, FoldE(w.fp, x), s);
    case Index(c, i) =>
      FoldKeeps(w, c, s);
      FoldKeeps(w, i, Eval(w, c, s).s);
    case Field(c, _) => FoldKeeps(w, c, s);
    case Call(_, args) => FoldListKeeps(w, args, s);
    case ArrayLit(es) =>
      FoldCount(w.fp, es);
      var a := w.newArray(Count(es), s);
      if a.r.Good? { FoldElementsKeep(w, a.r.v, 0, es, a.s); }
    case MapLit(ms) =>
      var a := w.newMap(s);
      if a.r.Good? { FoldEntriesKeep(w, a.r.v, ms, a.s); }
    case Assign(_, _) => FoldAssignKeeps(w, e, s);
    case _ =>
  }

  /** An operator's operands may be exchanged for others that evaluate alike. */
  lemma OperandsAlike<S>(w: World<S>, op: BinOp, isAnd: bool, l: Expr, r: Expr, l': Expr, r': Expr, s: S)
    requires Eval(w, l', s) == Eval(w, l, s) && Eval(w, r', Eval(w, l, s).s) == Eval(w, r, Eval(w, l, s).s)
    ensures Eval(w, Binary(op, l', r'), s) == Eval(w, Binary(op, l, r), s)
    ensures Eval(w, Logical(isAnd, l', r'), s) == Eval(w, Logical(isAnd, l, r), s)
  {
    hide BinaryOp, Truthy;
  }

  lemma {:induction false} BinaryFoldKeeps<S(!new)>(w: World<S>, op: BinOp, l: Expr, r: Expr, s: S)
    requires (Clean(l) && Clean(r)) || PureTexts(w)
    ensures Eval(w, FoldE(w.fp, Binary(op, l, r)), s) == Eval(w, Binary(op, l, r), s)
    decreases Binary(op, l, r), 1
  {
    hide PureTexts, FoldBinary, Eval;
    FoldKeeps(w, l, s);
    FoldKeeps(w, r, Eval(w, l, s).s);
    OperandsAlike(w, op, true, l, r, FoldE(w.fp, l), FoldE(w.fp, r), s);
    BinaryKeeps(w, op, FoldE(w.fp, l), FoldE(w.fp, r), s);
  }

  lemma {:induction false} LogicalFoldKeeps<S(!new)>(w: World<S>, isAnd: bool, l: Expr, r: Expr, s: S)
    requires (Clean(l) && Clean(r)) || PureTexts(w)
    ensures Eval(w, FoldE(w.fp, Logical(isAnd, l, r)), s) == Eval(w, Logical(isAnd, l, r), s)
    decreases Logical(isAnd, l, r), 1
  {
    hide PureTexts, FoldLogical, Eval;
    FoldKeeps(w, l, s);
    FoldKeeps(w, r, Eval(w, l, s).s);
    OperandsAlike(w, Add, isAnd, l, r, FoldE(w.fp, l), FoldE(w.fp, r), s);
    LogicalKeeps(w, isAnd, FoldE(w.fp, l), FoldE(w.fp, r), s);
  }

  /** Folding an assignment's target never changes its kind. */
  lemma {:induction false} FoldAssignKeeps<S(!new)>(w: World<S>, e: Expr, s: S)
    requires (Clean(e) || PureTexts(w)) && e.Assign?
    ensures Eval(w, FoldE(w.fp, e), s) == Eval(w, e, s)
    decreases e, 1
  {
    hide PureTexts, FoldBinary, FoldUnary, FoldLogical, BinaryOp, UnaryOp;
    match e.target
    case Index(c, i) =>
      FoldKeeps(w, c, s);
      var a := Eval(w, c, s);
      FoldKeeps(w, i, a.s);
      FoldKeeps(w, e.value, Eval(w, i, a.s).s);
    case Field(c, _) =>
      FoldKeeps(w, c, s);
      FoldKeeps(w, e.value, Eval(w, c, s).s);
    case Ident(_) => FoldKeeps(w, e.value, s);
    case _ => FoldsToOther(w.fp, e.target);
  }

  lemma FoldsToOther(fp: FpOps, e: Expr)
    requires !e.Index? && !e.Field? && !e.Ident?
    ensures var f := FoldE(fp, e); !f.Index? && !f.Field? && !f.Ident?
  {
    hide FoldBinary, FoldUnary;
    match e
    case Binary(op, l, r) => BinaryStays(fp, op, FoldE(fp, l), FoldE(fp, r));
    case Unary(op, x) => UnaryStays(fp, op, FoldE(fp, x));
    case _ =>
  }

  lemma {:induction false} FoldCount(fp: FpOps, es: Exprs)
    ensures Count(FoldList(fp, es)) == Count(es)
  {
    if es.ECons? { FoldCount(fp, es.tail); }
  }

  lemma {:induction false} FoldListKeeps<S(!new)>(w: World<S>, es: Exprs, s: S)
    requires CleanList(es) || PureTexts(w)
    ensures EvalList(w, FoldList(w.fp, es), s) == EvalList(w, es, s)
    decreases es
  {
    hide PureTexts, FoldE, Eval;
    if es.ECons? {
      FoldKeeps(w, es.head, s);
      FoldListKeeps(w, es.tail, Eval(w, es.head, s).s);
    }
  }

  lemma {:induction false} FoldElementsKeep<S(!new)>(w: World<S>, arr: Value, k: nat, es: Exprs, s: S)
    requires CleanList(es) || PureTexts(w)
    ensures EvalElements(w, arr, k, FoldList(w.fp, es), s) == EvalElements(w, arr, k, es, s)
    decreases es
  {
    hide PureTexts, FoldE, Eval;
    if es.ECons? {
      FoldKeeps(w, es.head, s);
      var a := Eval(w, es.head, s);
      if a.r.Good? { FoldElementsKeep(w, arr, k + 1, es.tail, w.setItem(arr, VInt(k), a.r.v, a.s).s); }
    }
  }

  lemma {:induction false} FoldEntriesKeep<S(!new)>(w: World<S>, obj: Value, ms: Entries, s: S)
    requires CleanEntries(ms) || PureTexts(w)
    ensures EvalEntries(w, obj, FoldEntries(w.fp, ms), s) == EvalEntries(w, obj, ms, s)
    decreases ms
  {
    hide PureTexts, Eval;
    if ms.MCons? {
      FoldsToText(w.fp, ms.key);
      FoldKeeps(w, ms.val, s);
      var a := Eval(w, ms.val, s);
      if a.r.Good? && ms.key.StrLit? { FoldEntriesKeep(w, obj, ms.rest, w.setProp(obj, ms.key.s, a.r.v, a.s).s); }
    }
  }

  lemma FoldsToText(fp: FpOps, e: Expr)
    ensures FoldE(fp, e).StrLit? <==> e.StrLit?
    ensures e.StrLit? ==> FoldE(fp, e) == e
  {
    hide FoldBinary, FoldUnary;
    match e
    case Binary(op, l, r) => BinaryStays(fp, op, FoldE(fp, l), FoldE(fp, r));
    case Unary(op, x) => UnaryStays(fp, op, FoldE(fp, x));
    case _ =>
  }

  ghost predicate KeptAt<S>(w: World<S>, e: Expr, s: S) {
    Eval(w, FoldE(w.fp, e), s) == Eval(w, e, s)
  }

  ghost predicate FoldingIsSafe<S(!new)>(w: World<S>) {
    forall e, s :: KeptAt(w, e, s)
  }

  /** Folding preserves every evaluation exactly in the worlds where making a string literal
      has no effect: the fold of !"text" no longer makes it. */
  lemma FoldExact<S(!new)>(w: World<S>)
    ensures FoldingIsSafe(w) <==> PureTexts(w)
  {
    hide Eval, FoldE, TextIsPure, Clean;
    if PureTexts(w) {
      forall e, s ensures KeptAt(w, e, s) {
        FoldKeeps(w, e, s);
      }
    }
    if FoldingIsSafe(w) {
      forall t, s ensures TextIsPure(w, t, s) {
        assert KeptAt(w, Unary(Not, StrLit(t)), s);
        NotTextExact(w, t, s);
      }
    }
  }
}
