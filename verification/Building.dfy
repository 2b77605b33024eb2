/** The compiler's state as a value: what holds of it between any two steps, and how each
    step may change it. */
module Building {
  import opened Bytecode
  import opened Verifier
  import opened Ast
  import opened Source
  import opened CodeOf
  import opened CodeFrames
  import opened Assembly

  /** Operand positions of the jumps to patch when the loop's targets are known. */
  datatype Loop = Loop(conts: seq<nat>, brks: seq<nat>)

  /** Everything the compiler keeps; `done` are the functions compiled so far. */
  datatype Unit = Unit(asm: Asm, regTop: nat, locals: Regs, loops: seq<Loop>, upvals: seq<string>, upvalSrc: seq<nat>,
                       enclosing: seq<Regs>, funcs: seq<Function>, lambdaFunc: map<Expr, nat>, funcIndex: map<string, nat>,
                       done: set<nat>)

  // ---- the invariant ------------------------------------------------------------------

  ghost predicate LocalsBelow(locals: Regs, n: nat) {
    forall x {:trigger locals[x]} :: x in locals ==> locals[x] < n
  }

  /** Each captured name is a variable of the enclosing function, taken from its register. */
  ghost predicate Captures(upvals: seq<string>, srcs: seq<nat>, enclosing: seq<Regs>) {
    && |upvals| == |srcs|
    && forall i {:trigger upvals[i]} {:trigger srcs[i]} :: 0 <= i < |upvals| ==>
         (enclosing != [] && upvals[i] in enclosing[|enclosing| - 1] && enclosing[|enclosing| - 1][upvals[i]] == srcs[i])
  }

  /** `pos` is the operand of a jump. */
  ghost predicate Site(prog: Prog, pos: nat) {
    pos >= 1 && pos - 1 in prog && prog[pos - 1].Goto?
  }

  ghost predicate Sites(prog: Prog, ps: seq<nat>) {
    forall i {:trigger ps[i]} :: 0 <= i < |ps| ==> Site(prog, ps[i])
  }

  ghost predicate LoopsOk(prog: Prog, loops: seq<Loop>) {
    forall i {:trigger loops[i]} :: 0 <= i < |loops| ==> Sites(prog, loops[i].conts) && Sites(prog, loops[i].brks)
  }

  ghost predicate Compiled(consts: seq<Constant>, funcs: seq<Function>, done: set<nat>) {
    forall i {:trigger i in done} :: i in done ==> i < |funcs| && Verified(Module(consts, funcs, 0), funcs[i])
  }

  /** The function's name is a string constant, and its sizes fit their bytes. */
  predicate Entered(consts: seq<Constant>, f: Function) {
    f.nameConst < |consts| && consts[f.nameConst].CStr? && f.numParams < 256 && f.numRegs < 256 && f.maxStack < 65536
  }

  ghost predicate AllEntered(consts: seq<Constant>, funcs: seq<Function>) {
    forall i {:trigger funcs[i]} :: 0 <= i < |funcs| ==> Entered(consts, funcs[i])
  }

  lemma EnteredGrows(consts: seq<Constant>, consts': seq<Constant>, funcs: seq<Function>)
    requires AllEntered(consts, funcs) && Extends(consts, consts')
    ensures AllEntered(consts', funcs)
  {
  }

  /** Function slots besides the entry's, which is 0. */
  ghost predicate Slots(u: Unit) {
    && AllEntered(u.asm.consts, u.funcs)
    && (forall l {:trigger u.lambdaFunc[l]} :: l in u.lambdaFunc ==>
          0 < u.lambdaFunc[l] < |u.funcs| && l.Lambda? && u.funcs[u.lambdaFunc[l]].numParams <= |l.params|)
    && (forall f {:trigger u.funcIndex[f]} :: f in u.funcIndex ==> 0 < u.funcIndex[f] < |u.funcs|)
  }

  ghost predicate Fine(u: Unit) {
    && Ok(u.asm, |u.funcs|)
    && u.regTop <= u.asm.hw && LocalsBelow(u.locals, u.regTop)
    && Captures(u.upvals, u.upvalSrc, u.enclosing)
    && LoopsOk(u.asm.prog, u.loops)
    && Compiled(u.asm.consts, u.funcs, u.done)
    && Slots(u) && |u.asm.consts| <= 65536
  }

  // ---- steps ----------------------------------------------------------------------------

  /** What no step changes or takes back. */
  ghost predicate Keeps(u: Unit, v: Unit) {
    && Grew(u.asm, v.asm)
    && v.locals == u.locals && v.enclosing == u.enclosing && u.upvals <= v.upvals && u.upvalSrc <= v.upvalSrc
    && v.lambdaFunc == u.lambdaFunc && v.funcIndex == u.funcIndex
    && SameSlots(u.funcs, v.funcs)
    && u.done <= v.done
  }

  /** Functions keep their places and their parameters, and the entry its code. */
  ghost predicate SameSlots(fs: seq<Function>, fs': seq<Function>) {
    && |fs'| == |fs| && (|fs| > 0 ==> fs'[0] == fs[0])
    && forall i {:trigger fs'[i]} :: 0 <= i < |fs| ==> fs'[i].numParams == fs[i].numParams
  }

  lemma KeepsTrans(u: Unit, v: Unit, w: Unit)
    requires Keeps(u, v) && Keeps(v, w)
    ensures Keeps(u, w)
  {
    GrewTrans(u.asm, v.asm, w.asm);
    hide Grew;
  }

  /** Reserving `n` more registers. */
  function Opened(u: Unit, n: nat): Unit {
    u.(regTop := u.regTop + n, asm := u.asm.(hw := Max(u.asm.hw, u.regTop + n)))
  }

  function Max(a: nat, b: nat): nat {
    if a < b then b else a
  }

  function Raised(u: Unit, n: nat): Unit {
    u.(asm := u.asm.(hw := Max(u.asm.hw, n)))
  }

  function Put(u: Unit, i: Instr): Unit {
    u.(asm := Emitted(u.asm, i))
  }

  lemma CompiledGrows(consts: seq<Constant>, consts': seq<Constant>, funcs: seq<Function>, done: set<nat>)
    requires Compiled(consts, funcs, done) && Extends(consts, consts')
    ensures Compiled(consts', funcs, done)
  {
    hide Verified, Extends;
    forall i | i in done ensures i < |funcs| && Verified(Module(consts', funcs, 0), funcs[i]) {
      assert Verified(Module(consts, funcs, 0), funcs[i]);
      VerifiedGrows(Module(consts, funcs, 0), Module(consts', funcs, 0), funcs[i]);
    }
  }

  lemma RaisedFine(u: Unit, n: nat)
    requires Fine(u)
    ensures Fine(Raised(u, n)) && Keeps(u, Raised(u, n))
  {
    assert Extends(u.asm.consts, u.asm.consts);
    hide Ok, Compiled, LoopsOk, Captures, LocalsBelow, Slots, Grew, Extends;
    MoreOk(u.asm, |u.funcs|, u.asm.consts, Max(u.asm.hw, n));
    assert u.asm.(consts := u.asm.consts, hw := Max(u.asm.hw, n)) == Raised(u, n).asm;
    SlotsSame(u, Raised(u, n));
  }

  lemma SlotsSame(u: Unit, v: Unit)
    requires Slots(u) && v.lambdaFunc == u.lambdaFunc && v.funcIndex == u.funcIndex && v.funcs == u.funcs
    requires Extends(u.asm.consts, v.asm.consts)
    ensures Slots(v)
  {
    hide AllEntered, Extends;
    EnteredGrows(u.asm.consts, v.asm.consts, u.funcs);
  }

  lemma OpenedFine(u: Unit, n: nat)
    requires Fine(u)
    ensures Fine(Opened(u, n)) && Keeps(u, Opened(u, n))
  {
    RaisedFine(u, u.regTop + n);
    hide Ok, Compiled, LoopsOk, Captures, Slots, Grew;
    SlotsSame(u, Opened(u, n));
  }

  /** Giving registers back. */
  lemma ClosedFine(u: Unit, n: nat)
    requires Fine(u) && n <= u.regTop && LocalsBelow(u.locals, n)
    ensures Fine(u.(regTop := n)) && Keeps(u, u.(regTop := n))
  {
    hide Ok, Compiled, LoopsOk, Captures, LocalsBelow, Slots;
    SlotsSame(u, u.(regTop := n));
    SelfGrew(u.asm, |u.funcs|);
  }

  lemma SelfGrew(a: Asm, nf: nat)
    requires Ok(a, nf)
    ensures Grew(a, a)
  {
    OkStarts(a, nf);
    StartsInRange(a.code, 0);
    hide Ok, Starts;
  }

  lemma LoopsGrow(prog: Prog, prog': Prog, n: nat, loops: seq<Loop>)
    requires LoopsOk(prog, loops) && Same(prog, prog', 0, n) && forall p :: p in prog ==> p < n
    ensures LoopsOk(prog', loops)
  {
    forall i | 0 <= i < |loops| ensures Sites(prog', loops[i].conts) && Sites(prog', loops[i].brks) {
      assert Sites(prog, loops[i].conts) && Sites(prog, loops[i].brks);
      SitesGrow(prog, prog', n, loops[i].conts);
      SitesGrow(prog, prog', n, loops[i].brks);
    }
    hide Sites;
  }

  lemma SitesGrow(prog: Prog, prog': Prog, n: nat, ps: seq<nat>)
    requires Sites(prog, ps) && Same(prog, prog', 0, n) && forall p :: p in prog ==> p < n
    ensures Sites(prog', ps)
  {
    forall i | 0 <= i < |ps| ensures Site(prog', ps[i]) {
      assert Site(prog, ps[i]);
    }
  }

  lemma PutFine(u: Unit, i: Instr)
    requires Fine(u) && Encodable(i) && InRange(u.asm.consts, |u.funcs|, u.asm.hw, i) && JumpAhead(u.asm, i)
    ensures Fine(Put(u, i)) && Keeps(u, Put(u, i))
  {
    var v := Put(u, i);
    EmitOk(u.asm, |u.funcs|, i);
    OkStarts(u.asm, |u.funcs|);
    StartsInRange(u.asm.code, 0);
    assert Same(u.asm.prog, v.asm.prog, 0, |u.asm.code|);
    hide Ok, Compiled, LoopsOk, Captures, LocalsBelow, Slots, Grew, Encode, Encodable, InRange, JumpAhead, Starts, Same;
    LoopsGrow(u.asm.prog, v.asm.prog, |u.asm.code|, u.loops);
    SlotsSame(u, v);
  }

  /** A constant was added or found. */
  lemma InternedFine(u: Unit, consts: seq<Constant>)
    requires Fine(u) && Extends(u.asm.consts, consts) && |consts| <= 65536
    ensures var v := u.(asm := u.asm.(consts := consts)); Fine(v) && Keeps(u, v)
  {
    var v := u.(asm := u.asm.(consts := consts));
    hide Ok, Compiled, LoopsOk, Captures, LocalsBelow, Slots, Grew;
    MoreOk(u.asm, |u.funcs|, consts, u.asm.hw);
    assert v.asm == u.asm.(consts := consts, hw := u.asm.hw);
    CompiledGrows(u.asm.consts, consts, u.funcs, u.done);
    SlotsSame(u, v);
  }

  // ---- where fragments write and jump ---------------------------------------------------------

  /** What a fragment may write: anything, or only `dst` and the registers from `rt` on. */
  datatype Bound = Any | Only(dst: nat, rt: nat)

  predicate Allows(w: Bound, r: nat) {
    w.Any? || r == w.dst || r >= w.rt
  }

  /** The register an instruction writes is allowed; returns and halts are not allowed. */
  predicate WritesOnly(i: Instr, w: Bound) {
    match i
    case LoadConst(r, _) => Allows(w, r)
    case LoadNil(r) => Allows(w, r)
    case Two(_, r, _) => Allows(w, r)
    case Three(op, r, _, _) => op == ARRAY_SET || Allows(w, r)
    case NewArray(r, _) => Allows(w, r)
    case NewObject(r) => Allows(w, r)
    case GetProp(r, _, _) => Allows(w, r)
    case Call(_, r, _, _) => Allows(w, r)
    case CallValue(r, _) => Allows(w, r)
    case Closure(r, _, _) => Allows(w, r)
    case GetUpval(r, _) => Allows(w, r)
    case Halt => w.Any?
    case Ret(_) => w.Any?
    case _ => true
  }

  ghost predicate ConfinedAt(b: Asm, lo: nat, w: Bound, p: nat) {
    p in b.prog ==> WritesOnly(b.prog[p], w) && (w.Only? && IsJumpInstr(b.prog[p]) ==> lo <= TargetOf(b.prog, p) <= |b.code|)
  }

  /** The instructions from `lo` on write only what `w` allows and, unless that is anything,
      jump among themselves or to their end. */
  ghost predicate Confined(b: Asm, lo: nat, w: Bound) {
    forall p {:trigger ConfinedAt(b, lo, w, p)} :: lo <= p ==> ConfinedAt(b, lo, w, p)
  }

  /** Whatever `v` allows, `w` allows. */
  predicate Narrower(v: Bound, w: Bound) {
    w.Any? || (v.Only? && Allows(w, v.dst) && v.rt >= w.rt)
  }

  lemma NarrowerWrites(i: Instr, v: Bound, w: Bound)
    requires WritesOnly(i, v) && Narrower(v, w)
    ensures WritesOnly(i, w)
  {
  }

  lemma ConfinedTrans(a: Asm, b: Asm, c: Asm, v: Bound, w: Bound)
    requires Confined(b, |a.code|, w) && Confined(c, |b.code|, v) && Grew(b, c) && |a.code| <= |b.code| && Narrower(v, w)
    ensures Confined(c, |a.code|, w)
  {
    hide WritesOnly;
    forall p | |a.code| <= p ensures ConfinedAt(c, |a.code|, w, p) {
      if p < |b.code| {
        assert ConfinedAt(b, |a.code|, w, p);
        assert p in c.prog ==> p in b.prog && c.prog[p] == b.prog[p];
      } else {
        assert ConfinedAt(c, |b.code|, v, p);
        if p in c.prog { NarrowerWrites(c.prog[p], v, w); }
      }
    }
  }

  lemma ConfinedPut(a: Asm, nf: nat, i: Instr, w: Bound)
    requires Ok(a, nf) && WritesOnly(i, w) && (IsJumpInstr(i) ==> i.off == 0)
    ensures Confined(Emitted(a, i), |a.code|, w)
  {
    OkStarts(a, nf);
    StartsInRange(a.code, 0);
    var b := Emitted(a, i);
    assert forall p :: p in a.prog ==> p < |a.code|;
    hide Ok, WritesOnly, Starts;
    forall p | |a.code| <= p ensures ConfinedAt(b, |a.code|, w, p) {
    }
  }

  lemma ConfinedNone(a: Asm, nf: nat, w: Bound)
    requires Ok(a, nf)
    ensures Confined(a, |a.code|, w)
  {
    OkStarts(a, nf);
    StartsInRange(a.code, 0);
    assert forall p :: p in a.prog ==> p < |a.code|;
    hide Ok, Starts;
  }

  // ---- nested functions are compiled ----------------------------------------------------------

  ghost predicate LamsDone(ms: seq<Mark>, u: Unit) {
    forall n {:trigger Lam(n) in ms} :: Lam(n) in ms ==> n in u.lambdaFunc && u.lambdaFunc[n] in u.done
  }

  lemma LamsKept(ms: seq<Mark>, u: Unit, v: Unit)
    requires LamsDone(ms, u) && Keeps(u, v)
    ensures LamsDone(ms, v)
  {
  }

  lemma LamsBoth(ms: seq<Mark>, ns: seq<Mark>, u: Unit)
    requires LamsDone(ms, u) && LamsDone(ns, u)
    ensures LamsDone(ms + ns, u)
  {
  }

  // ---- what compiling an expression achieves ------------------------------------------------------

  ghost predicate HasCode(e: Expr, dst: nat, u: Unit, v: Unit) {
    Simple(e) && Reads(e) <= u.locals.Keys ==>
      (CodeE(e, v.asm.prog, v.asm.consts, |u.asm.code|, dst, u.regTop, u.locals)
       && |v.asm.code| == |u.asm.code| + ESize(e, dst, u.regTop, u.locals))
  }

  /** From `u` the code of `e` was added, with its result in `dst`. */
  ghost predicate ExprDone(e: Expr, dst: nat, u: Unit, v: Unit) {
    && Fine(v) && Keeps(u, v) && v.regTop == u.regTop && v.loops == u.loops
    && Confined(v.asm, |u.asm.code|, Only(dst, u.regTop))
    && LamsDone(MarksE(e, true), v)
    && HasCode(e, dst, u, v)
  }

  // ---- on the way ------------------------------------------------------------------------------------

  /** A fragment being compiled: where it started, what it may write, and the marks of
      the parts already compiled. */
  datatype Job = Job(from: Unit, w: Bound, ms: seq<Mark>)

  /** The innermost loop may have new jumps to patch, all of them in the code from `lo` on. */
  ghost predicate LoopsGrew(ls: seq<Loop>, ls': seq<Loop>, lo: nat) {
    && |ls'| == |ls|
    && (forall i :: 0 <= i < |ls| - 1 ==> ls'[i] == ls[i])
    && (ls != [] ==>
          (ListGrew(ls[|ls| - 1].conts, ls'[|ls| - 1].conts, lo) && ListGrew(ls[|ls| - 1].brks, ls'[|ls| - 1].brks, lo)))
  }

  ghost predicate ListGrew(ps: seq<nat>, ps': seq<nat>, lo: nat) {
    ps <= ps' && forall i {:trigger ps'[i]} :: |ps| <= i < |ps'| ==> ps'[i] > lo
  }

  lemma LoopsGrewTrans(ls: seq<Loop>, ls': seq<Loop>, ls'': seq<Loop>, lo: nat, lo': nat)
    requires LoopsGrew(ls, ls', lo) && LoopsGrew(ls', ls'', lo') && lo <= lo'
    ensures LoopsGrew(ls, ls'', lo)
  {
  }

  /** Expressions leave the loops alone. */
  ghost predicate LoopsKept(w: Bound, ls: seq<Loop>, ls': seq<Loop>, lo: nat) {
    if w.Only? then ls' == ls else LoopsGrew(ls, ls', lo)
  }

  ghost predicate Doing(j: Job, v: Unit) {
    && Fine(v) && Keeps(j.from, v) && LoopsKept(j.w, j.from.loops, v.loops, |j.from.asm.code|)
    && Confined(v.asm, |j.from.asm.code|, j.w) && LamsDone(j.ms, v)
  }

  lemma DoingStarts(u: Unit, w: Bound)
    requires Fine(u)
    ensures Doing(Job(u, w, []), u)
  {
    SelfGrew(u.asm, |u.funcs|);
    ConfinedNone(u.asm, |u.funcs|, w);
    hide Grew, Confined, Ok, Compiled, LoopsOk, Captures, LocalsBelow, Slots;
  }

  /** More code that keeps within a narrower bound. */
  lemma DoingMore(j: Job, v: Unit, v': Unit, w: Bound)
    requires Doing(j, v) && Fine(v') && Keeps(v, v') && v'.loops == v.loops
    requires Confined(v'.asm, |v.asm.code|, w) && Narrower(w, j.w)
    ensures Doing(j, v')
  {
    KeepsTrans(j.from, v, v');
    assert Grew(v.asm, v'.asm) && |j.from.asm.code| <= |v.asm.code|;
    hide Fine, Keeps, Confined, Grew, Narrower, LamsDone;
    ConfinedTrans(j.from.asm, v.asm, v'.asm, w, j.w);
    LamsKept(j.ms, v, v');
  }

  /** Changes that leave the code alone. */
  lemma DoingSame(j: Job, v: Unit, v': Unit)
    requires Doing(j, v) && Fine(v') && Keeps(v, v') && v'.loops == v.loops
    requires v'.asm.code == v.asm.code && v'.asm.prog == v.asm.prog
    ensures Doing(j, v')
  {
    KeepsTrans(j.from, v, v');
    assert Fine(v') && Confined(v.asm, |j.from.asm.code|, j.w);
    hide Fine, Keeps, WritesOnly, LamsDone;
    LamsKept(j.ms, v, v');
    forall p | |j.from.asm.code| <= p ensures ConfinedAt(v'.asm, |j.from.asm.code|, j.w, p) {
      assert ConfinedAt(v.asm, |j.from.asm.code|, j.w, p);
    }
  }

  lemma DoingPut(j: Job, v: Unit, i: Instr)
    requires Doing(j, v) && Encodable(i) && InRange(v.asm.consts, |v.funcs|, v.asm.hw, i)
    requires WritesOnly(i, j.w) && (IsJumpInstr(i) ==> i.off == 0)
    ensures Doing(j, Put(v, i)) && Keeps(v, Put(v, i))
  {
    assert JumpAhead(v.asm, i) && Fine(v);
    assert Ok(v.asm, |v.funcs|);
    assert Narrower(j.w, j.w);
    hide Doing, Encodable, InRange, WritesOnly, JumpAhead, Fine, Keeps, Ok, Encode;
    PutFine(v, i);
    ConfinedPut(v.asm, |v.funcs|, i, j.w);
    DoingMore(j, v, Put(v, i), j.w);
  }

  /** A part is compiled. */
  lemma DoingExpr(j: Job, v: Unit, e: Expr, d: nat, v': Unit)
    requires Doing(j, v) && ExprDone(e, d, v, v') && Narrower(Only(d, v.regTop), j.w)
    ensures Doing(j.(ms := j.ms + MarksE(e, true)), v') && Keeps(v, v')
  {
    hide Fine, Keeps, Confined, LamsDone, HasCode, Narrower;
    DoingMore(j, v, v', Only(d, v.regTop));
    LamsBoth(j.ms, MarksE(e, true), v');
  }

  lemma DoingOpened(j: Job, v: Unit, n: nat)
    requires Doing(j, v)
    ensures Doing(j, Opened(v, n))
  {
    assert Fine(v);
    hide Doing, Fine, Keeps;
    OpenedFine(v, n);
    DoingSame(j, v, Opened(v, n));
  }

  lemma DoingRaised(j: Job, v: Unit, n: nat)
    requires Doing(j, v)
    ensures Doing(j, Raised(v, n))
  {
    assert Fine(v);
    hide Doing, Fine, Keeps;
    RaisedFine(v, n);
    DoingSame(j, v, Raised(v, n));
  }

  lemma DoingClosed(j: Job, v: Unit, n: nat)
    requires Doing(j, v) && n <= v.regTop && LocalsBelow(j.from.locals, n)
    ensures Doing(j, v.(regTop := n))
  {
    assert Fine(v) && v.locals == j.from.locals;
    hide Doing, Fine, Keeps, LocalsBelow;
    ClosedFine(v, n);
    DoingSame(j, v, v.(regTop := n));
  }

  function Interned(u: Unit, consts: seq<Constant>): Unit {
    u.(asm := u.asm.(consts := consts))
  }

  lemma DoingInterned(j: Job, v: Unit, consts: seq<Constant>)
    requires Doing(j, v) && Extends(v.asm.consts, consts) && |consts| <= 65536
    ensures Doing(j, Interned(v, consts))
  {
    assert Fine(v);
    hide Doing, Fine, Keeps, Extends;
    InternedFine(v, consts);
    DoingSame(j, v, Interned(v, consts));
  }

  /** One more name captured from the enclosing function. */
  function Capturing(u: Unit, name: string, src: nat): Unit {
    u.(upvals := u.upvals + [name], upvalSrc := u.upvalSrc + [src])
  }

  lemma DoingCaptured(j: Job, v: Unit, name: string, src: nat)
    requires Doing(j, v) && v.enclosing != []
    requires name in v.enclosing[|v.enclosing| - 1] && v.enclosing[|v.enclosing| - 1][name] == src
    ensures Doing(j, Capturing(v, name, src))
  {
    var v' := Capturing(v, name, src);
    assert Fine(v);
    assert Captures(v'.upvals, v'.upvalSrc, v'.enclosing);
    SelfGrew(v.asm, |v.funcs|);
    hide Ok, Compiled, LoopsOk, Captures, LocalsBelow, Grew, Doing;
    SlotsSame(v, v');
    DoingSame(j, v, v');
  }

  // ---- redirecting jumps ----------------------------------------------------------------------------

  predicate CanPatch(u: Unit, p: nat, target: nat) {
    && p in u.asm.prog && IsJumpInstr(u.asm.prog[p]) && p + Len(u.asm.prog[p]) <= |u.asm.code|
    && -32768 <= target - (p + Len(u.asm.prog[p])) <= 32767
  }

  /** The jump at `p` now leads to `target`. */
  function Redirected(u: Unit, p: nat, target: nat): Unit
    requires CanPatch(u, p, target)
  {
    u.(asm := Patched(u.asm, p, target - (p + Len(u.asm.prog[p]))))
  }

  lemma LoopsPatched(prog: Prog, loops: seq<Loop>, p: nat, off: int)
    requires LoopsOk(prog, loops) && p in prog && IsJumpInstr(prog[p])
    ensures LoopsOk(prog[p := Retarget(prog[p], off)], loops)
  {
    var prog' := prog[p := Retarget(prog[p], off)];
    forall i | 0 <= i < |loops| ensures Sites(prog', loops[i].conts) && Sites(prog', loops[i].brks) {
      assert Sites(prog, loops[i].conts) && Sites(prog, loops[i].brks);
      SitesPatched(prog, loops[i].conts, p, off);
      SitesPatched(prog, loops[i].brks, p, off);
    }
    hide Sites;
  }

  lemma SitesPatched(prog: Prog, ps: seq<nat>, p: nat, off: int)
    requires Sites(prog, ps) && p in prog && IsJumpInstr(prog[p])
    ensures Sites(prog[p := Retarget(prog[p], off)], ps)
  {
    var prog' := prog[p := Retarget(prog[p], off)];
    forall i | 0 <= i < |ps| ensures Site(prog', ps[i]) {
      assert Site(prog, ps[i]);
    }
  }

  lemma RedirectedFine(u: Unit, p: nat, target: nat)
    requires Fine(u) && CanPatch(u, p, target) && IsPosition(u.asm, target)
    ensures Fine(Redirected(u, p, target))
  {
    var off := target - (p + Len(u.asm.prog[p]));
    var v := Redirected(u, p, target);
    assert p + Len(u.asm.prog[p]) + off == target;
    assert v.asm == Patched(u.asm, p, off) && v.asm.prog == u.asm.prog[p := Retarget(u.asm.prog[p], off)];
    assert v.asm.hw == u.asm.hw && v.asm.consts == u.asm.consts;
    hide Ok, Compiled, LoopsOk, Captures, LocalsBelow, Slots, Patched, Retarget, Len, Redirected, IsPosition;
    PatchOk(u.asm, |u.funcs|, p, off);
    LoopsPatched(u.asm.prog, u.loops, p, off);
    SlotsSame(u, v);
  }

  lemma RedirectedKeeps(u: Unit, v: Unit, p: nat, target: nat)
    requires Keeps(u, v) && CanPatch(v, p, target) && p >= |u.asm.code|
    ensures Keeps(u, Redirected(v, p, target))
  {
    var v' := Redirected(v, p, target);
    assert |v'.asm.code| == |v.asm.code|;
    hide Len, Retarget;
  }

  lemma RedirectedConfined(lo: nat, v: Unit, p: nat, target: nat, w: Bound)
    requires Confined(v.asm, lo, w) && CanPatch(v, p, target) && lo <= p && lo <= target <= |v.asm.code|
    ensures Confined(Redirected(v, p, target).asm, lo, w)
  {
    var v' := Redirected(v, p, target);
    assert |v'.asm.code| == |v.asm.code|;
    assert ConfinedAt(v.asm, lo, w, p);
    RetargetWrites(v.asm.prog[p], v'.asm.prog[p], target - (p + Len(v.asm.prog[p])), w);
    hide WritesOnly, Confined, Len;
    forall q | lo <= q ensures ConfinedAt(v'.asm, lo, w, q) {
      ConfinedHere(v.asm, lo, w, q);
    }
    ConfinedIf(v'.asm, lo, w);
  }

  lemma RetargetWrites(i: Instr, i': Instr, off: int, w: Bound)
    requires IsJumpInstr(i) && i' == Retarget(i, off) && WritesOnly(i, w)
    ensures WritesOnly(i', w) && Len(i') == Len(i)
  {
  }

  lemma ConfinedHere(a: Asm, lo: nat, w: Bound, q: nat)
    requires Confined(a, lo, w) && lo <= q
    ensures ConfinedAt(a, lo, w, q)
  {
  }

  lemma ConfinedIf(a: Asm, lo: nat, w: Bound)
    requires forall p {:trigger ConfinedAt(a, lo, w, p)} :: lo <= p ==> ConfinedAt(a, lo, w, p)
    ensures Confined(a, lo, w)
  {
  }

  lemma DoingRedirected(j: Job, v: Unit, p: nat, target: nat)
    requires Doing(j, v) && CanPatch(v, p, target) && IsPosition(v.asm, target)
    requires |j.from.asm.code| <= p && |j.from.asm.code| <= target <= |v.asm.code|
    ensures Doing(j, Redirected(v, p, target))
  {
    var v' := Redirected(v, p, target);
    assert v'.lambdaFunc == v.lambdaFunc && v'.done == v.done && v'.loops == v.loops;
    LamsSame(j.ms, v, v');
    hide Fine, Keeps, Confined, LamsDone, Redirected, CanPatch, IsPosition;
    RedirectedFine(v, p, target);
    RedirectedKeeps(j.from, v, p, target);
    RedirectedConfined(|j.from.asm.code|, v, p, target, j.w);
  }

  lemma LamsSame(ms: seq<Mark>, u: Unit, v: Unit)
    requires v.lambdaFunc == u.lambdaFunc && v.done == u.done && LamsDone(ms, u)
    ensures LamsDone(ms, v)
  {
  }

  // ---- done ------------------------------------------------------------------------------------------

  lemma ExprFinished(e: Expr, dst: nat, j: Job, v: Unit)
    requires Doing(j, v) && j.w == Only(dst, j.from.regTop) && v.regTop == j.from.regTop
    requires j.ms == MarksE(e, true) && HasCode(e, dst, j.from, v)
    ensures ExprDone(e, dst, j.from, v)
  {
    hide Fine, Keeps, Confined, LamsDone, HasCode, LoopsGrew;
  }

  lemma DoingFacts(j: Job, v: Unit)
    requires Doing(j, v)
    ensures |v.asm.consts| <= 65536 && v.regTop <= v.asm.hw && v.locals == j.from.locals
    ensures j.w.Only? ==> v.loops == j.from.loops
    ensures v.enclosing == j.from.enclosing && v.lambdaFunc == j.from.lambdaFunc && v.funcIndex == j.from.funcIndex
    ensures |v.funcs| == |j.from.funcs| && Keeps(j.from, v) && Fine(v)
  {
    hide Grew, Ok, Confined;
  }

  lemma LocalAt(u: Unit, x: string)
    requires Fine(u) && x in u.locals
    ensures u.locals[x] < u.regTop <= u.asm.hw
  {
    hide Ok, Compiled, LoopsOk, Captures, Slots;
  }

  lemma FunctionAt(u: Unit, f: string)
    requires Fine(u) && f in u.funcIndex
    ensures u.funcIndex[f] < |u.funcs|
  {
    hide Ok, Compiled, LoopsOk, Captures, LocalsBelow;
  }

  lemma FineLocals(u: Unit)
    requires Fine(u)
    ensures LocalsBelow(u.locals, u.regTop)
  {
  }
}
