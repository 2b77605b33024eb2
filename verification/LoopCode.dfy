/** Loops: what patching the breaks, continues and branches of a loop leaves behind. */
module LoopCode {
  import opened Bytecode
  import opened Verifier
  import opened Ast
  import opened Source
  import opened CodeOf
  import opened CodeFrames
  import opened Assembly
  import opened Building
  import opened ExprCode
  import opened StmtCode

  /** All the jumps whose operands `ps` lists lead to `target` now; nothing else changed. */
  ghost predicate AllRedirected(u: Unit, v: Unit, ps: seq<nat>, target: nat) {
    && v == u.(asm := v.asm) && |v.asm.code| == |u.asm.code| && v.asm.consts == u.asm.consts && v.asm.hw == u.asm.hw
    && v.asm.prog.Keys == u.asm.prog.Keys
    && forall p {:trigger p in u.asm.prog} {:trigger p in v.asm.prog} :: p in u.asm.prog ==>
         v.asm.prog[p] == if p + 1 in ps then Goto(target - (p + 3)) else u.asm.prog[p]
  }

  lemma NoneRedirected(u: Unit, target: nat)
    ensures AllRedirected(u, u, [], target)
  {
  }

  lemma InNext(ps: seq<nat>, i: nat)
    requires i < |ps|
    ensures forall x :: x in ps[..i + 1] <==> x in ps[..i] || x == ps[i]
  {
    assert ps[..i + 1] == ps[..i] + [ps[i]];
  }

  lemma RedirectOne(u: Unit, v: Unit, w: Unit, before: seq<nat>, after: seq<nat>, p: nat, target: nat)
    requires AllRedirected(u, v, before, target) && p in v.asm.prog && forall x {:trigger x in after} :: x in after <==> x in before || x == p + 1
    requires w == v.(asm := w.asm) && |w.asm.code| == |v.asm.code| && w.asm.consts == v.asm.consts && w.asm.hw == v.asm.hw
    requires w.asm.prog == v.asm.prog[p := Goto(target - (p + 3))]
    ensures AllRedirected(u, w, after, target)
  {
  }

  lemma OneRedirected(u: Unit, v: Unit, ps: seq<nat>, i: nat, target: nat)
    requires i < |ps| && AllRedirected(u, v, ps[..i], target) && ps[i] >= 1 && Site(v.asm.prog, ps[i])
    requires CanPatch(v, ps[i] - 1, target)
    ensures AllRedirected(u, Redirected(v, ps[i] - 1, target), ps[..i + 1], target)
  {
    hide AllRedirected, Redirected, CanPatch;
    var p := ps[i] - 1;
    RedirectedProg(v, p, target);
    RedirectedOnlyAsm(v, p, target);
    InNext(ps, i);
    RedirectOne(u, v, Redirected(v, p, target), ps[..i], ps[..i + 1], p, target);
  }

  lemma RedirectedOnlyAsm(u: Unit, p: nat, target: nat)
    requires CanPatch(u, p, target)
    ensures var v := Redirected(u, p, target); v == u.(asm := v.asm) && v.asm.hw == u.asm.hw
  {
  }

  lemma SitesLater(v: Unit, ps: seq<nat>, p: nat, target: nat)
    requires Sites(v.asm.prog, ps) && CanPatch(v, p, target)
    ensures Sites(Redirected(v, p, target).asm.prog, ps)
  {
    RedirectedProg(v, p, target);
    SitesPatched(v.asm.prog, ps, p, target - (p + Len(v.asm.prog[p])));
    hide Sites, Redirected;
  }

  lemma SiteRoom(j: Job, v: Unit, ps: seq<nat>, i: nat)
    requires Doing(j, v) && i < |ps| && Sites(v.asm.prog, ps)
    ensures ps[i] >= 1 && Site(v.asm.prog, ps[i]) && IsJumpInstr(v.asm.prog[ps[i] - 1]) && Len(v.asm.prog[ps[i] - 1]) == 3
    ensures ps[i] + 2 <= |v.asm.code|
  {
    DoingFacts(j, v);
    assert Site(v.asm.prog, ps[i]) && Ok(v.asm, |v.funcs|);
    hide Doing, Fine, Keeps, Ok;
    GoodAt(v.asm, |v.funcs|, ps[i] - 1);
    GoodLen(v.asm, |v.funcs|, ps[i] - 1);
    BranchLen(v.asm.prog[ps[i] - 1]);
  }

  lemma PositionLater(v: Unit, p: nat, target: nat, t: nat)
    requires CanPatch(v, p, target) && IsPosition(v.asm, t)
    ensures IsPosition(Redirected(v, p, target).asm, t)
  {
    RedirectedProg(v, p, target);
    hide Redirected, CanPatch;
  }

  // ---- entering and leaving a loop -----------------------------------------------------------

  function Pushed(u: Unit): Unit {
    u.(loops := u.loops + [Loop([], [])])
  }

  function Popped(u: Unit): Unit
    requires u.loops != []
  {
    u.(loops := u.loops[..|u.loops| - 1])
  }

  lemma PushedFine(u: Unit)
    requires Fine(u)
    ensures Fine(Pushed(u))
  {
    hide Ok, Compiled, Captures, LocalsBelow;
    SlotsSame(u, Pushed(u));
  }

  lemma PoppedFine(u: Unit)
    requires Fine(u) && u.loops != []
    ensures Fine(Popped(u))
  {
    hide Ok, Compiled, Captures, LocalsBelow;
    SlotsSame(u, Popped(u));
  }

  /** A finished loop is a part like any other. */
  lemma LoopLeft(u: Unit, v: Unit, ms: seq<Mark>)
    requires Fine(u) && Doing(Job(Pushed(u), Any, ms), v)
    ensures v.loops != [] && Popped(v).loops == u.loops && Doing(Job(u, Any, ms), Popped(v))
  {
    var w := Popped(v);
    assert Fine(v) && LoopsGrew(Pushed(u).loops, v.loops, |u.asm.code|);
    assert forall i :: 0 <= i < |u.loops| ==> v.loops[i] == u.loops[i];
    assert w.loops == u.loops;
    SelfGrew(u.asm, |u.funcs|);
    LamsSame(ms, v, w);
    assert Keeps(u, w) && Confined(w.asm, |u.asm.code|, Any);
    hide Fine, Confined, LamsDone, Keeps, Pushed;
    PoppedFine(v);
  }

  lemma MarksReordered(j: Job, v: Unit, ms: seq<Mark>)
    requires Doing(j, v) && forall m :: m in ms ==> m in j.ms
    ensures Doing(j.(ms := ms), v)
  {
    hide Fine, Keeps, Confined, LoopsKept;
  }

  // ---- the program of a finished loop ----------------------------------------------------------

  /** The jumps listed stand between `lo` and `hi`. */
  ghost predicate ListIn(ps: seq<nat>, lo: nat, hi: nat) {
    forall i {:trigger ps[i]} :: 0 <= i < |ps| ==> lo < ps[i] <= hi
  }

  lemma ListWider(ps: seq<nat>, lo: nat, hi: nat, lo': nat, hi': nat)
    requires ListIn(ps, lo, hi) && lo' <= lo && hi <= hi'
    ensures ListIn(ps, lo', hi')
  {
  }

  /** Test to `u2`, body to `u3`, continues patched, step to `u5`, jump back, test's branch
      patched, breaks patched. */
  ghost predicate LoopSteps(u2: Unit, u3: Unit, u4: Unit, u5: Unit, u6: Unit, u7: Unit, u8: Unit, u9: Unit,
                            conts: seq<nat>, brks: seq<nat>, start: nat, cont: nat, hasTest: bool)
  {
    && Keeps(u2, u3) && ListIn(conts, |u2.asm.code|, |u3.asm.code|) && ListIn(brks, |u2.asm.code|, |u3.asm.code|)
    && AllRedirected(u3, u4, conts, cont)
    && Keeps(u4, u5)
    && u6 == Put(u5, Goto(0)) && Keeps(u5, u6)
    && CanPatch(u6, |u5.asm.code|, start) && u7 == Redirected(u6, |u5.asm.code|, start)
    && (if hasTest then |u2.asm.code| >= 4 && CanPatch(u7, |u2.asm.code| - 4, |u7.asm.code|) && u8 == Redirected(u7, |u2.asm.code| - 4, |u7.asm.code|)
        else u8 == u7)
    && AllRedirected(u8, u9, brks, |u7.asm.code|)
  }

  lemma RedirectedOutside(u: Unit, v: Unit, ps: seq<nat>, target: nat, lo: nat, hi: nat, a: nat, b: nat)
    requires AllRedirected(u, v, ps, target) && ListIn(ps, lo, hi) && (b <= lo || hi <= a)
    ensures Same(u.asm.prog, v.asm.prog, a, b) && Extends(u.asm.consts, v.asm.consts) && |v.asm.code| == |u.asm.code|
  {
    forall p | a <= p < b && p in u.asm.prog ensures p in v.asm.prog && v.asm.prog[p] == u.asm.prog[p] {
      NotListed(ps, lo, hi, p);
    }
  }

  lemma NotListed(ps: seq<nat>, lo: nat, hi: nat, p: nat)
    requires ListIn(ps, lo, hi) && (p < lo || hi <= p)
    ensures p + 1 !in ps
  {
  }

  lemma SizesInLoop(u2: Unit, u3: Unit, u4: Unit, u5: Unit, u6: Unit, u7: Unit, u8: Unit, u9: Unit,
                    conts: seq<nat>, brks: seq<nat>, start: nat, cont: nat, hasTest: bool)
    requires LoopSteps(u2, u3, u4, u5, u6, u7, u8, u9, conts, brks, start, cont, hasTest)
    ensures |u2.asm.code| <= |u3.asm.code| == |u4.asm.code| <= |u5.asm.code|
    ensures |u6.asm.code| == |u7.asm.code| == |u8.asm.code| == |u9.asm.code| == |u5.asm.code| + 3
    ensures u9.loops == u6.loops == u5.loops && u4.loops == u3.loops && u9.regTop == u5.regTop
    ensures Extends(u3.asm.consts, u9.asm.consts) && Extends(u2.asm.consts, u9.asm.consts) && Extends(u5.asm.consts, u9.asm.consts)
  {
    PutAt(u5, Goto(0));
    PutFields(u5, Goto(0));
    BranchLen(Goto(0));
    RedirectedProg(u6, |u5.asm.code|, start);
    RedirectedFields(u6, |u5.asm.code|, start);
    if hasTest {
      RedirectedProg(u7, |u2.asm.code| - 4, |u7.asm.code|);
      RedirectedFields(u7, |u2.asm.code| - 4, |u7.asm.code|);
    }
    SameKept(u2, u3, 0, 0);
    SameKept(u4, u5, 0, 0);
    SameKept(u5, u6, 0, 0);
    hide Keeps, Redirected, CanPatch, Put, Len, ListIn;
  }

  /** The code up to the end of the test, from `u2` to `u7`. */
  lemma BeforeKept(u2: Unit, u3: Unit, u4: Unit, u5: Unit, u6: Unit, u7: Unit, conts: seq<nat>, start: nat, cont: nat, n: nat)
    requires n == |u2.asm.code| <= |u3.asm.code| <= |u4.asm.code| <= |u5.asm.code| <= |u6.asm.code|
    requires Keeps(u2, u3) && ListIn(conts, n, |u3.asm.code|) && AllRedirected(u3, u4, conts, cont) && Keeps(u4, u5) && Keeps(u5, u6)
    requires CanPatch(u6, |u5.asm.code|, start) && u7 == Redirected(u6, |u5.asm.code|, start)
    ensures Same(u2.asm.prog, u7.asm.prog, 0, n)
  {
    hide *;
    SameKept(u2, u3, 0, n);
    RedirectedOutside(u3, u4, conts, cont, n, |u3.asm.code|, 0, n);
    SameKept(u4, u5, 0, n);
    SameKept(u5, u6, 0, n);
    SameRedirected(u6, |u5.asm.code|, start, 0, n);
    SameThrough(u2.asm.prog, u3.asm.prog, u4.asm.prog, 0, n);
    SameThrough(u2.asm.prog, u4.asm.prog, u5.asm.prog, 0, n);
    SameThrough(u2.asm.prog, u5.asm.prog, u6.asm.prog, 0, n);
    SameThrough(u2.asm.prog, u6.asm.prog, u7.asm.prog, 0, n);
  }

  lemma LoopBefore(u2: Unit, u3: Unit, u4: Unit, u5: Unit, u6: Unit, u7: Unit, u8: Unit, u9: Unit,
                   conts: seq<nat>, brks: seq<nat>, start: nat, cont: nat, n: nat)
    requires LoopSteps(u2, u3, u4, u5, u6, u7, u8, u9, conts, brks, start, cont, true) && n == |u2.asm.code|
    ensures Same(u2.asm.prog, u7.asm.prog, 0, n) && Same(u8.asm.prog, u9.asm.prog, 0, n)
    ensures n >= 4 && CanPatch(u7, n - 4, |u7.asm.code|) && u8 == Redirected(u7, n - 4, |u7.asm.code|)
  {
    SizesInLoop(u2, u3, u4, u5, u6, u7, u8, u9, conts, brks, start, cont, true);
    hide Keeps, Redirected, CanPatch, AllRedirected, Same, Put, ListIn, Extends;
    BeforeKept(u2, u3, u4, u5, u6, u7, conts, start, cont, n);
    RedirectedOutside(u8, u9, brks, |u7.asm.code|, n, |u3.asm.code|, 0, n);
  }

  /** The test's code is as it was, and its branch leads out of the loop. */
  lemma LoopTest(u2: Unit, u3: Unit, u4: Unit, u5: Unit, u6: Unit, u7: Unit, u8: Unit, u9: Unit,
                 conts: seq<nat>, brks: seq<nat>, start: nat, cont: nat, r: nat)
    requires LoopSteps(u2, u3, u4, u5, u6, u7, u8, u9, conts, brks, start, cont, true)
    requires |u2.asm.code| >= 4 && BranchOpen(u2, |u2.asm.code| - 4, r)
    ensures Same(u2.asm.prog, u9.asm.prog, 0, |u2.asm.code| - 4)
    ensures Branches(u9.asm.prog, |u2.asm.code| - 4, r, |u7.asm.code|)
  {
    hide *;
    var p, n := |u2.asm.code| - 4, |u2.asm.code|;
    SizesInLoop(u2, u3, u4, u5, u6, u7, u8, u9, conts, brks, start, cont, true);
    LoopBefore(u2, u3, u4, u5, u6, u7, u8, u9, conts, brks, start, cont, n);
    BranchAlong(u2, u7, p, r, n);
    SameWithin(u2.asm.prog, u7.asm.prog, 0, n, 0, p);
    SameRedirected(u7, p, |u7.asm.code|, 0, p);
    SameThrough(u2.asm.prog, u7.asm.prog, u8.asm.prog, 0, p);
    BranchPatched(u7, p, r, |u7.asm.code|);
    BranchesKept(u8.asm.prog, u9.asm.prog, 0, n, p, r, |u7.asm.code|);
    SameWithin(u8.asm.prog, u9.asm.prog, 0, n, 0, p);
    SameThrough(u2.asm.prog, u8.asm.prog, u9.asm.prog, 0, p);
  }

  lemma BranchAlong(u: Unit, v: Unit, p: nat, r: nat, n: nat)
    requires BranchOpen(u, p, r) && Same(u.asm.prog, v.asm.prog, 0, n) && p < n && |u.asm.code| <= |v.asm.code|
    ensures BranchOpen(v, p, r)
  {
  }

  /** The step's code is as it was, and the jump after it leads back. */
  lemma LoopStep(u2: Unit, u3: Unit, u4: Unit, u5: Unit, u6: Unit, u7: Unit, u8: Unit, u9: Unit,
                 conts: seq<nat>, brks: seq<nat>, start: nat, cont: nat, hasTest: bool)
    requires LoopSteps(u2, u3, u4, u5, u6, u7, u8, u9, conts, brks, start, cont, hasTest)
    ensures Same(u5.asm.prog, u9.asm.prog, |u4.asm.code|, |u5.asm.code|)
    ensures Jumps(u9.asm.prog, |u5.asm.code|, start)
  {
    SizesInLoop(u2, u3, u4, u5, u6, u7, u8, u9, conts, brks, start, cont, hasTest);
    hide Keeps, Redirected, CanPatch, AllRedirected, Same, Jumps, Put, ListIn, Extends;
    var a, b, z := |u4.asm.code|, |u5.asm.code|, |u6.asm.code|;
    PutAt(u5, Goto(0));
    SameKept(u5, u6, a, b);
    SameRedirected(u6, b, start, a, b);
    JumpPatched(u6, b, start);
    SameThrough(u5.asm.prog, u6.asm.prog, u7.asm.prog, a, b);
    if hasTest {
      SameRedirected(u7, |u2.asm.code| - 4, |u7.asm.code|, a, z);
    } else {
      SameSelf(u7.asm.prog, a, z);
    }
    RedirectedOutside(u8, u9, brks, |u7.asm.code|, |u2.asm.code|, |u3.asm.code|, a, z);
    SameThrough(u7.asm.prog, u8.asm.prog, u9.asm.prog, a, z);
    JumpsSame2(u7.asm.prog, u9.asm.prog, a, z, b, start);
    SameWithin(u7.asm.prog, u9.asm.prog, a, z, a, b);
    SameThrough(u5.asm.prog, u7.asm.prog, u9.asm.prog, a, b);
  }

  lemma SameSelf(p: Prog, a: nat, b: nat)
    ensures Same(p, p, a, b)
  {
  }

  lemma JumpsSame2(p: Prog, q: Prog, a: nat, b: nat, n: nat, target: int)
    requires Jumps(p, n, target) && Same(p, q, a, b) && a <= n < b
    ensures Jumps(q, n, target)
  {
  }

  /** Between the test and the step only the breaks and continues changed. */
  lemma LoopBody(u2: Unit, u3: Unit, u4: Unit, u5: Unit, u6: Unit, u7: Unit, u8: Unit, u9: Unit,
                 conts: seq<nat>, brks: seq<nat>, start: nat, cont: nat, hasTest: bool)
    requires LoopSteps(u2, u3, u4, u5, u6, u7, u8, u9, conts, brks, start, cont, hasTest)
    ensures BodyPatched(u3, u9, |u2.asm.code|, |u3.asm.code|, brks, conts, |u7.asm.code|, cont)
  {
    SizesInLoop(u2, u3, u4, u5, u6, u7, u8, u9, conts, brks, start, cont, hasTest);
    var a, b := |u2.asm.code|, |u3.asm.code|;
    LoopMiddle(u2, u3, u4, u5, u6, u7, u8, u9, conts, brks, start, cont, hasTest);
    hide Keeps, Redirected, CanPatch, Put, ListIn, Extends;
    forall p | p in u3.asm.prog && a <= p < b
      ensures p in u9.asm.prog
              && u9.asm.prog[p] == if p + 1 in brks then Goto(|u7.asm.code| - (p + 3))
                                   else if p + 1 in conts then Goto(cont - (p + 3)) else u3.asm.prog[p]
    {
      assert p in u4.asm.prog;
      assert p in u8.asm.prog && u8.asm.prog[p] == u4.asm.prog[p];
      assert p in u9.asm.prog;
    }
  }

  lemma LoopMiddle(u2: Unit, u3: Unit, u4: Unit, u5: Unit, u6: Unit, u7: Unit, u8: Unit, u9: Unit,
                   conts: seq<nat>, brks: seq<nat>, start: nat, cont: nat, hasTest: bool)
    requires LoopSteps(u2, u3, u4, u5, u6, u7, u8, u9, conts, brks, start, cont, hasTest)
    ensures Same(u4.asm.prog, u8.asm.prog, |u2.asm.code|, |u3.asm.code|)
  {
    SizesInLoop(u2, u3, u4, u5, u6, u7, u8, u9, conts, brks, start, cont, hasTest);
    var a, b := |u2.asm.code|, |u3.asm.code|;
    hide Keeps, Redirected, CanPatch, AllRedirected, Same, Put, ListIn, Extends;
    SameKept(u4, u5, a, b);
    SameKept(u5, u6, a, b);
    SameRedirected(u6, |u5.asm.code|, start, a, b);
    SameThrough(u4.asm.prog, u5.asm.prog, u6.asm.prog, a, b);
    SameThrough(u4.asm.prog, u6.asm.prog, u7.asm.prog, a, b);
    if hasTest {
      SameRedirected(u7, a - 4, |u7.asm.code|, a, b);
      SameThrough(u4.asm.prog, u7.asm.prog, u8.asm.prog, a, b);
    }
  }

  // ---- the code of a finished loop ----------------------------------------------------------------

  predicate LoopSimple(test: OptExpr, step: OptExpr, body: Stmts, locals: Regs) {
    && SimpleOpt(test) && SimpleClause(step) && SimpleStmts(body)
    && OptVars(test) + OptVars(step) + VarsAll(body) <= locals.Keys
  }

  /** Where a continue leads: a while loop has no step, its test is next. */
  function ContAt(isWhile: bool, start: nat, stepAt: nat): nat {
    if isWhile then start else stepAt
  }

  ghost predicate HasLoop(test: OptExpr, step: OptExpr, body: Stmts, u: Unit, v: Unit, isWhile: bool) {
    LoopSimple(test, step, body, u.locals) ==>
      var sc := ScopeOf(u);
      var stepAt := |u.asm.code| + TestSize(test, sc) + SizeAll(body, sc);
      && CodeLoop(test, step, body, TextOf(v), sc, |u.asm.code|, ContAt(isWhile, |u.asm.code|, stepAt))
      && |v.asm.code| == stepAt + ClauseSize(step, sc) + 3
  }

  ghost predicate Listed(ps: seq<nat>, b: set<nat>) {
    (forall i {:trigger ps[i]} :: 0 <= i < |ps| ==> ps[i] >= 1) && (forall p: nat {:trigger p in b} :: p in b <==> p + 1 in ps)
  }

  lemma SitesListed(u: Unit, v: Unit, brk: bool)
    requires Pending(u.loops, brk) == [] && Sites(v.asm.prog, Pending(v.loops, brk))
    ensures Listed(Pending(v.loops, brk), NewSites(u, v, brk))
  {
    var ps, b := Pending(v.loops, brk), NewSites(u, v, brk);
    forall i | 0 <= i < |ps| ensures ps[i] >= 1 {
      assert Site(v.asm.prog, ps[i]);
    }
    forall p: nat | p + 1 in ps ensures p in b {
      var i :| 0 <= i < |ps| && ps[i] == p + 1;
      assert ps[i] - 1 == p;
    }
  }

  lemma SiteIsGoto(prog: Prog, ps: seq<nat>, p: nat)
    requires Sites(prog, ps) && p + 1 in ps
    ensures p in prog && prog[p].Goto?
  {
    var i :| 0 <= i < |ps| && ps[i] == p + 1;
    assert Site(prog, ps[i]);
  }

  /** The body's breaks and continues lead where they should now. */
  lemma BodyMoved(u: Unit, v: Unit, a: nat, b: nat, brks: seq<nat>, conts: seq<nat>, bs: set<nat>, cs: set<nat>, exit: nat, cont: nat)
    requires Listed(brks, bs) && Listed(conts, cs) && bs !! cs
    requires Sites(u.asm.prog, brks) && Sites(u.asm.prog, conts) && Extends(u.asm.consts, v.asm.consts)
    requires BodyPatched(u, v, a, b, brks, conts, exit, cont)
    ensures Moved(TextOf(u), TextOf(v), a, b, bs, cs, Open, Closed(exit, cont))
  {
    var t, t', tg := TextOf(u), TextOf(v), Closed(exit, cont);
    hide Sites;
    forall p | a <= p < b
      ensures if p in bs then Leaves(t', p, tg, Brk(tg))
              else if p in cs then Leaves(t', p, tg, Cont(tg))
              else p in t.prog ==> (p in t'.prog && t'.prog[p] == t.prog[p])
    {
      if p in bs { SiteIsGoto(u.asm.prog, brks, p); } else if p in cs { SiteIsGoto(u.asm.prog, conts, p); }
    }
  }

  lemma LoopParts(test: OptExpr, step: OptExpr, body: Stmts, u: Unit)
    requires LoopSimple(test, step, body, u.locals)
    ensures SimpleStmts(body) && VarsAll(body) <= u.locals.Keys
    ensures test.Present? ==> Simple(test.e) && Reads(test.e) <= u.locals.Keys
    ensures step.Present? ==> SimpleEffect(step.e) && EffectVars(step.e) <= u.locals.Keys
  {
    if test.Present? { assert !test.e.Assign?; }
    hide Simple, Reads, SimpleStmts, VarsAll;
  }

  /** Between the test and the step, the breaks and continues lead to their targets. */
  ghost predicate BodyPatched(u: Unit, v: Unit, a: nat, b: nat, brks: seq<nat>, conts: seq<nat>, exit: nat, cont: nat) {
    forall p {:trigger p in u.asm.prog} :: p in u.asm.prog && a <= p < b ==>
      (p in v.asm.prog
       && v.asm.prog[p] == if p + 1 in brks then Goto(exit - (p + 3))
                           else if p + 1 in conts then Goto(cont - (p + 3)) else u.asm.prog[p])
  }

  /** The body's part of a finished loop. */
  lemma LoopBodyCode(body: Stmts, u2: Unit, u3: Unit, u9: Unit, conts: seq<nat>, brks: seq<nat>, exit: nat, cont: nat, sc: Scope)
    requires BodyPatched(u3, u9, |u2.asm.code|, |u3.asm.code|, brks, conts, exit, cont) && Extends(u3.asm.consts, u9.asm.consts)
    requires HasAll(body, u2, u3) && SimpleStmts(body) && VarsAll(body) <= u2.locals.Keys && sc == ScopeOf(u2)
    requires u2.loops != [] && Pending(u2.loops, true) == [] && Pending(u2.loops, false) == []
    requires brks == Pending(u3.loops, true) && conts == Pending(u3.loops, false)
    requires Sites(u3.asm.prog, brks) && Sites(u3.asm.prog, conts)
    ensures CodeAll(body, TextOf(u9), sc, |u2.asm.code|, Closed(exit, cont))
    ensures |u3.asm.code| == |u2.asm.code| + SizeAll(body, sc)
  {
    hide *;
    var a, z := |u2.asm.code|, |u3.asm.code|;
    OpenAround(u2);
    HasAllIs(body, u2, u3);
    SitesListed(u2, u3, true);
    SitesListed(u2, u3, false);
    var bs, cs := HolesAll(body, a, sc, true), HolesAll(body, a, sc, false);
    AddedIs(u2, u3, SizeAll(body, sc), bs, cs);
    HolesApart(body, a, sc);
    BodyMoved(u3, u9, a, z, brks, conts, bs, cs, exit, cont);
    CodeAllMovedTo(body, u3, u9, sc, a, z, Open, Closed(exit, cont));
  }

  lemma OpenAround(u: Unit)
    requires u.loops != []
    ensures Around(u) == Open
  {
  }

  lemma AddedIs(u: Unit, v: Unit, n: nat, b: set<nat>, c: set<nat>)
    requires Added(u, v, n, b, c) && u.loops != []
    ensures NewSites(u, v, true) == b && NewSites(u, v, false) == c
  {
  }

  lemma HolesApart(ss: Stmts, a: nat, sc: Scope)
    ensures HolesAll(ss, a, sc, true) !! HolesAll(ss, a, sc, false)
  {
    HolesWithinAll(ss, a, sc);
  }

  lemma CodeAllMovedTo(ss: Stmts, u: Unit, v: Unit, sc: Scope, a: nat, z: nat, tg: Targets, tg': Targets)
    requires CodeAll(ss, TextOf(u), sc, a, tg) && z == a + SizeAll(ss, sc)
    requires Moved(TextOf(u), TextOf(v), a, z, HolesAll(ss, a, sc, true), HolesAll(ss, a, sc, false), tg, tg')
    ensures CodeAll(ss, TextOf(v), sc, a, tg')
  {
    hide CodeAll, Moved, HolesAll, SizeAll;
    CodeAllMoved(ss, TextOf(u), TextOf(v), sc, a, tg, tg');
  }

  /** The test's part. */
  lemma LoopTestCode(test: OptExpr, u1: Unit, u2: Unit, u3: Unit, u4: Unit, u5: Unit, u6: Unit, u7: Unit, u8: Unit, u9: Unit,
                     conts: seq<nat>, brks: seq<nat>, start: nat, cont: nat, sc: Scope)
    requires LoopSteps(u2, u3, u4, u5, u6, u7, u8, u9, conts, brks, start, cont, test.Present?)
    requires test.Present? ==> HasTest(test.e, u1, u2) && Simple(test.e) && Reads(test.e) <= u1.locals.Keys
    requires test.Absent? ==> u2 == u1
    requires sc == ScopeOf(u1)
    ensures CodeTest(test, TextOf(u9), sc, |u1.asm.code|, |u7.asm.code|)
    ensures |u2.asm.code| == |u1.asm.code| + TestSize(test, sc)
  {
    hide *;
    if test.Present? {
      HasTestIs(test.e, u1, u2);
      SizesInLoop(u2, u3, u4, u5, u6, u7, u8, u9, conts, brks, start, cont, true);
      LoopTest(u2, u3, u4, u5, u6, u7, u8, u9, conts, brks, start, cont, u1.regTop);
      SameWithin(u2.asm.prog, u9.asm.prog, 0, |u2.asm.code| - 4, |u1.asm.code|, |u2.asm.code| - 4);
      TestCode(test.e, u1, u2, u9, |u7.asm.code|);
      assert test == Present(test.e);
    } else {
      NoTest(TextOf(u9), sc, |u1.asm.code|, |u7.asm.code|);
      assert test == Absent;
    }
  }

  lemma NoTest(t: Text, sc: Scope, a: nat, exit: int)
    ensures CodeTest(Absent, t, sc, a, exit) && TestSize(Absent, sc) == 0
  {
  }

  /** The step's part. */
  lemma LoopStepCode(step: OptExpr, u2: Unit, u3: Unit, u4: Unit, u5: Unit, u6: Unit, u7: Unit, u8: Unit, u9: Unit,
                     conts: seq<nat>, brks: seq<nat>, start: nat, cont: nat, hasTest: bool, sc: Scope)
    requires LoopSteps(u2, u3, u4, u5, u6, u7, u8, u9, conts, brks, start, cont, hasTest)
    requires step.Present? ==> (HasEffect(step.e, u4, u5) && SimpleEffect(step.e) && EffectVars(step.e) <= u4.locals.Keys)
    requires step.Absent? ==> u5 == u4
    requires sc == ScopeOf(u4)
    ensures CodeClause(step, TextOf(u9), sc, |u4.asm.code|)
    ensures |u5.asm.code| == |u4.asm.code| + ClauseSize(step, sc)
    ensures Jumps(TextOf(u9).prog, |u5.asm.code|, start)
  {
    hide *;
    SizesInLoop(u2, u3, u4, u5, u6, u7, u8, u9, conts, brks, start, cont, hasTest);
    LoopStep(u2, u3, u4, u5, u6, u7, u8, u9, conts, brks, start, cont, hasTest);
    TextProg(u9);
    if step.Present? {
      EffectMoved(step.e, u4, u5, u9, sc);
      assert step == Present(step.e);
    } else {
      NoClause(TextOf(u9), sc, |u4.asm.code|);
      assert step == Absent;
    }
  }

  lemma NoClause(t: Text, sc: Scope, a: nat)
    ensures CodeClause(Absent, t, sc, a) && ClauseSize(Absent, sc) == 0
  {
  }

  lemma EffectMoved(e: Expr, u: Unit, v: Unit, w: Unit, sc: Scope)
    requires HasEffect(e, u, v) && SimpleEffect(e) && EffectVars(e) <= u.locals.Keys && sc == ScopeOf(u)
    requires Same(v.asm.prog, w.asm.prog, |u.asm.code|, |v.asm.code|) && Extends(v.asm.consts, w.asm.consts)
    ensures CodeClause(Present(e), TextOf(w), sc, |u.asm.code|)
    ensures |v.asm.code| == |u.asm.code| + ClauseSize(Present(e), sc)
  {
    var a, z := |u.asm.code|, |u.asm.code| + EffectSize(e, sc);
    assert z == |v.asm.code| && CodeEffect(e, TextOf(v), sc, a);
    hide SimpleEffect, EffectVars, CodeEffect, EffectSize, Same, Extends, HasEffect;
    EffectSame(e, TextOf(v), TextOf(w), sc, a);
  }

  lemma LoopHas(test: OptExpr, step: OptExpr, body: Stmts, u1: Unit, u2: Unit, u3: Unit, u4: Unit, u5: Unit, u6: Unit, u7: Unit, u8: Unit,
                u9: Unit, isWhile: bool)
    requires isWhile ==> step.Absent?
    requires u1.loops != [] && Pending(u1.loops, true) == [] && Pending(u1.loops, false) == []
    requires test.Present? ==> HasTest(test.e, u1, u2)
    requires test.Absent? ==> u2 == u1
    requires u2.loops == u1.loops && ScopeOf(u2) == ScopeOf(u1) && u2.locals == u1.locals
    requires HasAll(body, u2, u3) && Sites(u3.asm.prog, Pending(u3.loops, true)) && Sites(u3.asm.prog, Pending(u3.loops, false))
    requires step.Present? ==> HasEffect(step.e, u4, u5)
    requires step.Absent? ==> u5 == u4
    requires ScopeOf(u4) == ScopeOf(u1) && u4.locals == u1.locals
    requires LoopSteps(u2, u3, u4, u5, u6, u7, u8, u9, Pending(u3.loops, false), Pending(u3.loops, true), |u1.asm.code|,
                       ContAt(isWhile, |u1.asm.code|, |u3.asm.code|), test.Present?)
    ensures HasLoop(test, step, body, u1, u9, isWhile)
  {
    hide *;
    var sc, start := ScopeOf(u1), |u1.asm.code|;
    var cont := ContAt(isWhile, start, |u3.asm.code|);
    var conts, brks := Pending(u3.loops, false), Pending(u3.loops, true);
    if LoopSimple(test, step, body, u1.locals) {
      LoopParts(test, step, body, u1);
      SizesInLoop(u2, u3, u4, u5, u6, u7, u8, u9, conts, brks, start, cont, test.Present?);
      LoopTestCode(test, u1, u2, u3, u4, u5, u6, u7, u8, u9, conts, brks, start, cont, sc);
      LoopBody(u2, u3, u4, u5, u6, u7, u8, u9, conts, brks, start, cont, test.Present?);
      LoopBodyCode(body, u2, u3, u9, conts, brks, |u7.asm.code|, cont, sc);
      LoopStepCode(step, u2, u3, u4, u5, u6, u7, u8, u9, conts, brks, start, cont, test.Present?, sc);
      LoopClose(test, step, body, u1, u9, isWhile, |u2.asm.code|, |u3.asm.code|, |u5.asm.code|, cont);
    } else {
      LoopUnless(test, step, body, u1, u9, isWhile);
    }
  }

  lemma LoopUnless(test: OptExpr, step: OptExpr, body: Stmts, u: Unit, v: Unit, isWhile: bool)
    requires !LoopSimple(test, step, body, u.locals)
    ensures HasLoop(test, step, body, u, v, isWhile)
  {
  }

  lemma LoopClose(test: OptExpr, step: OptExpr, body: Stmts, u: Unit, v: Unit, isWhile: bool, bodyAt: nat, stepAt: nat, back: nat, cont: nat)
    requires var sc := ScopeOf(u);
             && bodyAt == |u.asm.code| + TestSize(test, sc) && stepAt == bodyAt + SizeAll(body, sc)
             && back == stepAt + ClauseSize(step, sc) && |v.asm.code| == back + 3
             && cont == ContAt(isWhile, |u.asm.code|, stepAt) && (isWhile ==> step.Absent?)
             && CodeTest(test, TextOf(v), sc, |u.asm.code|, |v.asm.code|)
             && CodeAll(body, TextOf(v), sc, bodyAt, Closed(|v.asm.code|, cont))
             && CodeClause(step, TextOf(v), sc, stepAt) && Jumps(TextOf(v).prog, back, |u.asm.code|)
    ensures HasLoop(test, step, body, u, v, isWhile)
  {
    var sc := ScopeOf(u);
    hide LoopSimple, CodeTest, CodeAll, CodeClause, Jumps, CodeLoop, TestSize, SizeAll, ClauseSize, TextOf, ScopeOf;
    assert |v.asm.code| == back + 3;
    LoopIs(test, step, body, TextOf(v), sc, |u.asm.code|, cont, bodyAt, stepAt, back);
  }

  // ---- while and for -------------------------------------------------------------------------------

  lemma WhileHas(s: Stmt, u: Unit, v: Unit)
    requires s.While? && HasLoop(Present(s.cond), Absent, s.body, u, v, true) && v.loops == u.loops
    ensures HasStmt(s, u, v)
  {
    var sc, a := ScopeOf(u), |u.asm.code|;
    if SimpleStmt(s) && Vars(s) <= u.locals.Keys {
      assert !s.cond.Assign?;
      assert LoopSimple(Present(s.cond), Absent, s.body, u.locals);
      assert SSize(s, sc) == TestSize(Present(s.cond), sc) + SizeAll(s.body, sc) + 3;
    }
    hide CodeLoop, TestSize, SizeAll, SimpleStmts, Simple, Reads, VarsAll, TextOf, ScopeOf, LoopSimple, Holes, Added;
    WhileIs(s, u, v, sc, a);
    if SimpleStmt(s) && Vars(s) <= u.locals.Keys { AddedPlain(u, v, SSize(s, sc)); }
  }

  lemma WhileIs(s: Stmt, u: Unit, v: Unit, sc: Scope, a: nat)
    requires s.While?
    ensures CodeLoop(Present(s.cond), Absent, s.body, TextOf(v), sc, a, a) ==> CodeS(s, TextOf(v), sc, a, Around(u))
    ensures Holes(s, a, sc, true) == {} && Holes(s, a, sc, false) == {}
    ensures SSize(s, sc) == TestSize(Present(s.cond), sc) + SizeAll(s.body, sc) + 3
    ensures ClauseSize(Absent, sc) == 0
  {
    hide CodeLoop, TestSize, SizeAll;
  }

  /** A for loop: its first clause to `v`, the rest to `w`. */
  lemma ForHas(s: Stmt, u: Unit, v: Unit, w: Unit)
    requires s.For? && HasLoop(s.test, s.step, s.body, v, w, false) && w.loops == v.loops && v.loops == u.loops
    requires s.init.Present? ==> HasEffect(s.init.e, u, v)
    requires s.init.Absent? ==> v == u
    requires v.locals == u.locals && v.regTop == u.regTop && KeepsBelow(v, w)
    ensures HasStmt(s, u, w)
  {
    hide *;
    SameScope(u, v);
    var sc, a := ScopeOf(u), |u.asm.code|;
    if SimpleStmt(s) && Vars(s) <= u.locals.Keys {
      ForParts(s, u.locals);
      var start, stepAt := |v.asm.code|, |v.asm.code| + TestSize(s.test, sc) + SizeAll(s.body, sc);
      InitMoved(s.init, u, v, w, sc);
      HasLoopIs(s.test, s.step, s.body, v, w, sc, start, stepAt);
      ForIs(s, TextOf(w), sc, a, Around(u), start, stepAt);
      AddedPlain(u, w, SSize(s, sc));
      NoHoles(s, a, sc);
      HasStmtIf(s, u, w);
    } else {
      HasStmtUnless(s, u, w);
    }
  }

  ghost predicate KeepsBelow(v: Unit, w: Unit) {
    Same(v.asm.prog, w.asm.prog, 0, |v.asm.code|) && Extends(v.asm.consts, w.asm.consts)
  }

  lemma ForParts(s: Stmt, locals: Regs)
    requires s.For? && SimpleStmt(s) && Vars(s) <= locals.Keys
    ensures LoopSimple(s.test, s.step, s.body, locals)
    ensures s.init.Present? ==> SimpleEffect(s.init.e) && EffectVars(s.init.e) <= locals.Keys
  {
    hide SimpleStmts, VarsAll, Simple, Reads;
  }

  lemma InitMoved(init: OptExpr, u: Unit, v: Unit, w: Unit, sc: Scope)
    requires init.Present? ==> (HasEffect(init.e, u, v) && SimpleEffect(init.e) && EffectVars(init.e) <= u.locals.Keys)
    requires init.Absent? ==> v == u
    requires sc == ScopeOf(u) && KeepsBelow(v, w)
    ensures CodeClause(init, TextOf(w), sc, |u.asm.code|) && |v.asm.code| == |u.asm.code| + ClauseSize(init, sc)
  {
    assert Same(v.asm.prog, w.asm.prog, 0, |v.asm.code|) && Extends(v.asm.consts, w.asm.consts);
    hide *;
    if init.Present? {
      SameWithin(v.asm.prog, w.asm.prog, 0, |v.asm.code|, |u.asm.code|, |v.asm.code|);
      EffectMoved(init.e, u, v, w, sc);
      assert init == Present(init.e);
    } else {
      NoClause(TextOf(w), sc, |u.asm.code|);
      assert init == Absent;
    }
  }

  lemma HasLoopIs(test: OptExpr, step: OptExpr, body: Stmts, u: Unit, v: Unit, sc: Scope, start: nat, stepAt: nat)
    requires HasLoop(test, step, body, u, v, false) && LoopSimple(test, step, body, u.locals) && sc == ScopeOf(u) && start == |u.asm.code|
    requires stepAt == |u.asm.code| + TestSize(test, sc) + SizeAll(body, sc)
    ensures CodeLoop(test, step, body, TextOf(v), sc, start, stepAt) && |v.asm.code| == stepAt + ClauseSize(step, sc) + 3
  {
    hide CodeLoop, LoopSimple, TestSize, SizeAll, ClauseSize;
  }

  lemma NoHoles(s: Stmt, a: nat, sc: Scope)
    requires !s.Block? && !s.If? && !s.Break? && !s.Continue?
    ensures Holes(s, a, sc, true) == {} && Holes(s, a, sc, false) == {}
  {
  }

  lemma HasStmtIf(s: Stmt, u: Unit, v: Unit)
    requires CodeS(s, TextOf(v), ScopeOf(u), |u.asm.code|, Around(u))
    requires Added(u, v, SSize(s, ScopeOf(u)), Holes(s, |u.asm.code|, ScopeOf(u), true), Holes(s, |u.asm.code|, ScopeOf(u), false))
    ensures HasStmt(s, u, v)
  {
  }

  lemma HasStmtUnless(s: Stmt, u: Unit, v: Unit)
    requires !(SimpleStmt(s) && Vars(s) <= u.locals.Keys)
    ensures HasStmt(s, u, v)
  {
  }

  // ---- facts the compiler's methods use ----------------------------------------------------------

  function LoopMarks(test: OptExpr, step: OptExpr, body: Stmts): seq<Mark> {
    MarksOpt(test, true) + MarksOpt(step, true) + MarksAll(body, true)
  }

  lemma LoopPopped(test: OptExpr, step: OptExpr, body: Stmts, u: Unit, v: Unit, isWhile: bool)
    requires HasLoop(test, step, body, Pushed(u), v, isWhile) && v.loops != []
    ensures HasLoop(test, step, body, u, Popped(v), isWhile) && Popped(v).regTop == v.regTop
  {
    hide LoopSimple, CodeLoop, TestSize, SizeAll, ClauseSize;
  }

  lemma FineLocals2(j: Job, u: Unit)
    requires Doing(j, u)
    ensures LocalsBelow(u.locals, u.regTop)
  {
    hide Ok, Keeps, Confined;
  }

  lemma SelfKeeps(u: Unit)
    requires Fine(u)
    ensures Keeps(u, u)
  {
    SelfGrew(u.asm, |u.funcs|);
    hide Ok, Grew;
  }

  /** The parts of a while or for statement. */
  predicate LoopOf(s: Stmt, test: OptExpr, step: OptExpr, body: Stmts, isWhile: bool) {
    if isWhile then s.While? && test == Present(s.cond) && step == Absent && body == s.body
    else s.For? && test == s.test && step == s.step && body == s.body
  }

  lemma SelfKeeps2(j: Job, u: Unit)
    requires Doing(j, u)
    ensures Keeps(u, u)
  {
    hide Keeps;
    SelfKeeps(u);
  }

  lemma KeepsIsBelow(v: Unit, w: Unit)
    requires Keeps(v, w)
    ensures KeepsBelow(v, w)
  {
  }

  /** The jumps to patch are those of the body. */
  lemma LoopSites(test: OptExpr, u: Unit, u2: Unit, u3: Unit, j1: Job, j2: Job, body: Stmts)
    requires u.loops != [] && Pending(u.loops, true) == [] && Pending(u.loops, false) == []
    requires u2.loops == u.loops && AllDone(body, u2, u3) && Keeps(u2, u3)
    ensures u3.loops != [] && Sites(u3.asm.prog, Pending(u3.loops, true)) && Sites(u3.asm.prog, Pending(u3.loops, false))
    ensures ListIn(Pending(u3.loops, true), |u2.asm.code|, |u3.asm.code|)
    ensures ListIn(Pending(u3.loops, false), |u2.asm.code|, |u3.asm.code|)
    ensures Pending(u3.loops, false) == u3.loops[|u3.loops| - 1].conts && Pending(u3.loops, true) == u3.loops[|u3.loops| - 1].brks
  {
    assert Fine(u3) && LoopsGrew(u2.loops, u3.loops, |u2.asm.code|);
    var l := u3.loops[|u3.loops| - 1];
    assert Sites(u3.asm.prog, l.conts) && Sites(u3.asm.prog, l.brks);
    hide Doing, Keeps, HasAll, Sites;
    SitesBelow(u3, l.conts);
    SitesBelow(u3, l.brks);
  }

  lemma SitesBelow(u: Unit, ps: seq<nat>)
    requires Fine(u) && Sites(u.asm.prog, ps)
    ensures forall i {:trigger ps[i]} :: 0 <= i < |ps| ==> ps[i] <= |u.asm.code|
  {
    assert Ok(u.asm, |u.funcs|);
    OkStarts(u.asm, |u.funcs|);
    StartsInRange(u.asm.code, 0);
    forall i | 0 <= i < |ps| ensures ps[i] <= |u.asm.code| {
      assert Site(u.asm.prog, ps[i]);
    }
    hide Fine, Ok, Starts;
  }

  lemma StartIsPosition(u: Unit, v: Unit, j: Job)
    requires Doing(j, v) && j.from == u && Fine(u)
    ensures IsPosition(v.asm, |u.asm.code|) && IsPosition(v.asm, |v.asm.code|) && |u.asm.code| <= |v.asm.code|
  {
    assert Ok(u.asm, |u.funcs|) && Ok(v.asm, |u.funcs|) && Grew(u.asm, v.asm);
    hide Fine, Keeps, Confined, LamsDone, Ok;
    EndStays(u.asm, v.asm, |u.funcs|);
  }

  lemma PatchedFields(u: Unit, v: Unit, ps: seq<nat>, target: nat)
    requires AllRedirected(u, v, ps, target)
    ensures |v.asm.code| == |u.asm.code| && v.loops == u.loops && v.locals == u.locals && v.regTop == u.regTop
    ensures forall p :: p in u.asm.prog <==> p in v.asm.prog
  {
    assert forall p :: p in u.asm.prog <==> p in u.asm.prog.Keys;
  }

  // ---- the end of a loop ---------------------------------------------------------------------------

  /** Test, body and step compiled and the continues patched. */
  ghost predicate LoopReady(test: OptExpr, step: OptExpr, body: Stmts, isWhile: bool, u: Unit, u2: Unit, u3: Unit, u4: Unit, u5: Unit) {
    && (isWhile ==> step.Absent?)
    && u.loops != [] && Pending(u.loops, true) == [] && Pending(u.loops, false) == []
    && (test.Present? ==> HasTest(test.e, u, u2)) && (test.Absent? ==> u2 == u)
    && u2.loops == u.loops && u2.locals == u.locals && u2.regTop == u.regTop
    && HasAll(body, u2, u3) && Keeps(u2, u3) && |u2.asm.code| <= |u3.asm.code| && u3.regTop == u.regTop && u3.loops != []
    && Sites(u3.asm.prog, Pending(u3.loops, true)) && Sites(u3.asm.prog, Pending(u3.loops, false))
    && ListIn(Pending(u3.loops, true), |u2.asm.code|, |u3.asm.code|)
    && ListIn(Pending(u3.loops, false), |u2.asm.code|, |u3.asm.code|)
    && AllRedirected(u3, u4, Pending(u3.loops, false), ContAt(isWhile, |u.asm.code|, |u3.asm.code|))
    && u4.locals == u.locals
    && (step.Present? ==> HasEffect(step.e, u4, u5)) && (step.Absent? ==> u5 == u4)
    && Keeps(u4, u5) && u5.loops == u4.loops && u5.regTop == u4.regTop
  }

  lemma ReadySizes(test: OptExpr, step: OptExpr, body: Stmts, isWhile: bool, u: Unit, u2: Unit, u3: Unit, u4: Unit, u5: Unit)
    requires LoopReady(test, step, body, isWhile, u, u2, u3, u4, u5)
    ensures |u2.asm.code| <= |u3.asm.code| == |u4.asm.code| <= |u5.asm.code| && u5.loops == u3.loops != [] && u5.regTop == u.regTop
    ensures test.Present? ==> |u2.asm.code| >= |u.asm.code| + 4
    ensures test.Absent? ==> u2 == u
    ensures ListIn(Pending(u3.loops, true), |u2.asm.code|, |u3.asm.code|)
    ensures Pending(u3.loops, true) == u3.loops[|u3.loops| - 1].brks
  {
    SameKeptSize(u4, u5);
    if test.Present? { HasTestIs(test.e, u, u2); }
    hide HasAll, HasEffect, Keeps, Sites, ListIn, HasTest;
  }

  /** The test's branch is still there when the loop's end is known. */
  lemma ReadyBranch(test: OptExpr, step: OptExpr, body: Stmts, isWhile: bool, u: Unit, u2: Unit, u3: Unit, u4: Unit, u5: Unit, u6: Unit, u7: Unit)
    requires LoopReady(test, step, body, isWhile, u, u2, u3, u4, u5) && test.Present?
    requires Keeps(u5, u6) && CanPatch(u6, |u5.asm.code|, |u.asm.code|) && u7 == Redirected(u6, |u5.asm.code|, |u.asm.code|)
    ensures |u2.asm.code| >= 4
    ensures var p := |u2.asm.code| - 4;
            p in u7.asm.prog && IsJumpInstr(u7.asm.prog[p]) && Len(u7.asm.prog[p]) == 4 && p + 4 <= |u7.asm.code|
  {
    ReadySizes(test, step, body, isWhile, u, u2, u3, u4, u5);
    KeepsSizes(u5, u6);
    HasTestIs(test.e, u, u2);
    RedirectedProg(u6, |u5.asm.code|, |u.asm.code|);
    var p, n := |u2.asm.code| - 4, |u2.asm.code|;
    hide HasAll, HasEffect, Keeps, Sites, ListIn, HasTest, AllRedirected, Redirected, CanPatch, Len, BranchOpen;
    BeforeKept(u2, u3, u4, u5, u6, u7, Pending(u3.loops, false), |u.asm.code|, ContAt(isWhile, |u.asm.code|, |u3.asm.code|), n);
    BranchAlong(u2, u7, p, u.regTop, n);
    BranchRoom(u7, p, u.regTop);
  }

  lemma BackJump(u5: Unit, u6: Unit)
    requires u6 == Put(u5, Goto(0))
    ensures var p := |u5.asm.code|;
            p in u6.asm.prog && IsJumpInstr(u6.asm.prog[p]) && Len(u6.asm.prog[p]) == 3 && |u6.asm.code| == p + 3
  {
  }

  lemma FineSites(u: Unit)
    requires Fine(u) && u.loops != []
    ensures Sites(u.asm.prog, u.loops[|u.loops| - 1].brks)
  {
  }

  lemma LoopEnds(test: OptExpr, step: OptExpr, body: Stmts, isWhile: bool, u: Unit, u2: Unit, u3: Unit, u4: Unit, u5: Unit, u6: Unit,
                 u7: Unit, u8: Unit, u9: Unit)
    requires LoopReady(test, step, body, isWhile, u, u2, u3, u4, u5)
    requires u6 == Put(u5, Goto(0)) && Keeps(u5, u6)
    requires CanPatch(u6, |u5.asm.code|, |u.asm.code|) && u7 == Redirected(u6, |u5.asm.code|, |u.asm.code|)
    requires if test.Present? then |u2.asm.code| >= 4 && CanPatch(u7, |u2.asm.code| - 4, |u7.asm.code|)
                                   && u8 == Redirected(u7, |u2.asm.code| - 4, |u7.asm.code|)
             else u8 == u7
    requires AllRedirected(u8, u9, Pending(u3.loops, true), |u7.asm.code|)
    ensures HasLoop(test, step, body, u, u9, isWhile) && u9.regTop == u.regTop && u9.loops == u3.loops
  {
    ReadySteps(test, step, body, isWhile, u, u2, u3, u4, u5, u6, u7, u8, u9);
    ReadyFacts(test, step, body, isWhile, u, u2, u3, u4, u5);
    hide *;
    var conts, brks := Pending(u3.loops, false), Pending(u3.loops, true);
    SizesInLoop(u2, u3, u4, u5, u6, u7, u8, u9, conts, brks, |u.asm.code|, ContAt(isWhile, |u.asm.code|, |u3.asm.code|), test.Present?);
    LoopHas(test, step, body, u, u2, u3, u4, u5, u6, u7, u8, u9, isWhile);
  }

  lemma ReadySteps(test: OptExpr, step: OptExpr, body: Stmts, isWhile: bool, u: Unit, u2: Unit, u3: Unit, u4: Unit, u5: Unit, u6: Unit,
                   u7: Unit, u8: Unit, u9: Unit)
    requires LoopReady(test, step, body, isWhile, u, u2, u3, u4, u5)
    requires u6 == Put(u5, Goto(0)) && Keeps(u5, u6)
    requires CanPatch(u6, |u5.asm.code|, |u.asm.code|) && u7 == Redirected(u6, |u5.asm.code|, |u.asm.code|)
    requires if test.Present? then |u2.asm.code| >= 4 && CanPatch(u7, |u2.asm.code| - 4, |u7.asm.code|)
                                   && u8 == Redirected(u7, |u2.asm.code| - 4, |u7.asm.code|)
             else u8 == u7
    requires AllRedirected(u8, u9, Pending(u3.loops, true), |u7.asm.code|)
    ensures LoopSteps(u2, u3, u4, u5, u6, u7, u8, u9, Pending(u3.loops, false), Pending(u3.loops, true), |u.asm.code|,
                      ContAt(isWhile, |u.asm.code|, |u3.asm.code|), test.Present?)
  {
    hide HasAll, HasEffect, Keeps, Sites, ListIn, HasTest, AllRedirected, Redirected, CanPatch, Put, Pending, ContAt;
  }

  lemma ReadyFacts(test: OptExpr, step: OptExpr, body: Stmts, isWhile: bool, u: Unit, u2: Unit, u3: Unit, u4: Unit, u5: Unit)
    requires LoopReady(test, step, body, isWhile, u, u2, u3, u4, u5)
    ensures isWhile ==> step.Absent?
    ensures u.loops != [] && Pending(u.loops, true) == [] && Pending(u.loops, false) == []
    ensures (test.Present? ==> HasTest(test.e, u, u2)) && (test.Absent? ==> u2 == u)
    ensures u2.loops == u.loops && ScopeOf(u2) == ScopeOf(u) && u2.locals == u.locals
    ensures HasAll(body, u2, u3) && Sites(u3.asm.prog, Pending(u3.loops, true)) && Sites(u3.asm.prog, Pending(u3.loops, false))
    ensures (step.Present? ==> HasEffect(step.e, u4, u5)) && (step.Absent? ==> u5 == u4)
    ensures ScopeOf(u4) == ScopeOf(u) && u4.locals == u.locals && u5.regTop == u.regTop && u5.loops == u3.loops
  {
    hide HasAll, HasEffect, Keeps, Sites, ListIn, HasTest, Pending, ContAt;
  }

  lemma BreakSites(j: Job, v: Unit, u: Unit, u2: Unit, u3: Unit, exit: nat)
    requires Doing(j, v) && j.from == u && v.loops == u3.loops != [] && exit == |v.asm.code|
    requires Pending(u3.loops, true) == u3.loops[|u3.loops| - 1].brks
    requires ListIn(Pending(u3.loops, true), |u2.asm.code|, |u3.asm.code|) && |u.asm.code| <= |u2.asm.code| && |u3.asm.code| <= |v.asm.code|
    ensures Sites(v.asm.prog, v.loops[|v.loops| - 1].brks) && ListIn(v.loops[|v.loops| - 1].brks, |u.asm.code|, |v.asm.code|)
    ensures IsPosition(v.asm, exit) && |u.asm.code| <= exit
  {
    assert Fine(v);
    hide Keeps, Confined, LamsDone, Sites, ListIn, Doing, Fine;
    FineSites(v);
    ListWider(Pending(u3.loops, true), |u2.asm.code|, |u3.asm.code|, |u.asm.code|, |v.asm.code|);
  }

  lemma ReadyIf(test: OptExpr, step: OptExpr, body: Stmts, isWhile: bool, u: Unit, u2: Unit, u3: Unit, u4: Unit, u5: Unit)
    requires isWhile ==> step.Absent?
    requires u.loops != [] && Pending(u.loops, true) == [] && Pending(u.loops, false) == []
    requires (test.Present? ==> HasTest(test.e, u, u2)) && (test.Absent? ==> u2 == u)
    requires u2.loops == u.loops && u2.locals == u.locals && u2.regTop == u.regTop
    requires HasAll(body, u2, u3) && Keeps(u2, u3) && |u2.asm.code| <= |u3.asm.code| && u3.regTop == u.regTop && u3.loops != []
    requires Sites(u3.asm.prog, Pending(u3.loops, true)) && Sites(u3.asm.prog, Pending(u3.loops, false))
    requires ListIn(Pending(u3.loops, true), |u2.asm.code|, |u3.asm.code|)
    requires ListIn(Pending(u3.loops, false), |u2.asm.code|, |u3.asm.code|)
    requires AllRedirected(u3, u4, Pending(u3.loops, false), ContAt(isWhile, |u.asm.code|, |u3.asm.code|))
    requires u4.locals == u.locals
    requires (step.Present? ==> HasEffect(step.e, u4, u5)) && (step.Absent? ==> u5 == u4)
    requires Keeps(u4, u5) && u5.loops == u4.loops && u5.regTop == u4.regTop
    ensures LoopReady(test, step, body, isWhile, u, u2, u3, u4, u5)
  {
  }
}
