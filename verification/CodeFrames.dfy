/** What a statement's code survives: changes elsewhere, and the patching of the jumps
    that leave the loop around it. */
module CodeFrames {
  import opened Bytecode
  import opened Ast
  import opened CodeOf

  function Brk(tg: Targets): int {
    if tg.Closed? then tg.brk else 0
  }

  function Cont(tg: Targets): int {
    if tg.Closed? then tg.cont else 0
  }

  /** Between `a` and `b` only the breaks and continues may have changed, and those only
      to lead to their new targets. */
  ghost predicate Moved(u: Text, u': Text, a: nat, b: nat, brks: set<nat>, conts: set<nat>, tg: Targets, tg': Targets) {
    && Extends(u.consts, u'.consts)
    && forall p {:trigger p in u.prog} {:trigger p in u'.prog} :: a <= p < b ==>
         if tg != tg' && p in brks then Leaves(u', p, tg', Brk(tg'))
         else if tg != tg' && p in conts then Leaves(u', p, tg', Cont(tg'))
         else p in u.prog ==> (p in u'.prog && u'.prog[p] == u.prog[p])
  }

  /** `ps` are the members of `qs` between `a` and `b`, and none is missing. */
  ghost predicate Part(ps: set<nat>, qs: set<nat>, a: nat, b: nat) {
    ps <= qs && forall p :: p in qs - ps ==> p < a || b <= p
  }

  lemma MovedWithin(u: Text, u': Text, a: nat, b: nat, brks: set<nat>, conts: set<nat>, tg: Targets, tg': Targets,
                    a': nat, b': nat, brks': set<nat>, conts': set<nat>)
    requires Moved(u, u', a, b, brks, conts, tg, tg') && a <= a' && b' <= b
    requires Part(brks', brks, a', b') && Part(conts', conts, a', b')
    ensures Moved(u, u', a', b', brks', conts', tg, tg')
  {
    hide Leaves, Extends;
    forall p | a' <= p < b'
      ensures if tg != tg' && p in brks' then Leaves(u', p, tg', Brk(tg'))
              else if tg != tg' && p in conts' then Leaves(u', p, tg', Cont(tg'))
              else p in u.prog ==> (p in u'.prog && u'.prog[p] == u.prog[p])
    {
      assert p in brks && p !in brks' ==> p in brks - brks';
      assert p in conts && p !in conts' ==> p in conts - conts';
      assert p in u.prog || p !in u.prog;
    }
  }

  /** Where there are no holes nothing changed. */
  lemma MovedSame(u: Text, u': Text, a: nat, b: nat, brks: set<nat>, conts: set<nat>, tg: Targets, tg': Targets, a': nat, b': nat)
    requires Moved(u, u', a, b, brks, conts, tg, tg') && a <= a' && b' <= b
    requires Part({}, brks, a', b') && Part({}, conts, a', b')
    ensures Extends(u.consts, u'.consts) && Same(u.prog, u'.prog, a', b')
  {
    hide Leaves, Extends;
    forall p | a' <= p < b' && (p in u.prog || p in u'.prog) ensures p !in brks && p !in conts {
      assert p in brks ==> p in brks - {};
      assert p in conts ==> p in conts - {};
    }
  }

  lemma SameMoved(u: Text, u': Text, a: nat, b: nat, brks: set<nat>, conts: set<nat>, tg: Targets)
    requires Extends(u.consts, u'.consts) && Same(u.prog, u'.prog, a, b)
    ensures Moved(u, u', a, b, brks, conts, tg, tg)
  {
  }

  // ---- pieces without holes --------------------------------------------------------

  lemma EffectSame(e: Expr, u: Text, u': Text, sc: Scope, a: nat)
    requires CodeEffect(e, u, sc, a) && Extends(u.consts, u'.consts) && Same(u.prog, u'.prog, a, a + EffectSize(e, sc))
    ensures CodeEffect(e, u', sc, a)
  {
    hide CodeE, ESize, Same;
    if e.Assign? {
      CodeESame(e.value, u.prog, u'.prog, u.consts, u'.consts, a, sc.locals[e.target.name], sc.rt, sc.locals);
    } else {
      CodeESame(e, u.prog, u'.prog, u.consts, u'.consts, a, sc.rt, sc.rt + 1, sc.locals);
    }
  }

  lemma ClauseSame(o: OptExpr, u: Text, u': Text, sc: Scope, a: nat)
    requires CodeClause(o, u, sc, a) && Extends(u.consts, u'.consts) && Same(u.prog, u'.prog, a, a + ClauseSize(o, sc))
    ensures CodeClause(o, u', sc, a)
  {
    hide CodeEffect, EffectSize, Same, Extends;
    if o.Present? { EffectSame(o.e, u, u', sc, a); }
  }

  lemma ESame(e: Expr, u: Text, u': Text, sc: Scope, a: nat, z: nat)
    requires CodeE(e, u.prog, u.consts, a, sc.rt, sc.rt + 1, sc.locals) && Extends(u.consts, u'.consts) && Same(u.prog, u'.prog, a, z)
    requires a + ESize(e, sc.rt, sc.rt + 1, sc.locals) <= z
    ensures CodeE(e, u'.prog, u'.consts, a, sc.rt, sc.rt + 1, sc.locals)
  {
    hide CodeE, ESize;
    SameWithin(u.prog, u'.prog, a, z, a, a + ESize(e, sc.rt, sc.rt + 1, sc.locals));
    CodeESame(e, u.prog, u'.prog, u.consts, u'.consts, a, sc.rt, sc.rt + 1, sc.locals);
  }

  lemma TestSame(o: OptExpr, u: Text, u': Text, sc: Scope, a: nat, exit: int)
    requires CodeTest(o, u, sc, a, exit) && Extends(u.consts, u'.consts) && Same(u.prog, u'.prog, a, a + TestSize(o, sc))
    ensures CodeTest(o, u', sc, a, exit)
  {
    hide CodeE, ESize, Same;
    if o.Present? {
      var z := a + TestSize(o, sc);
      ESame(o.e, u, u', sc, a, z);
      SameAt(u.prog, u'.prog, a, z, a + ESize(o.e, sc.rt, sc.rt + 1, sc.locals));
    }
  }

  lemma PrintSame(e: Expr, u: Text, u': Text, sc: Scope, a: nat)
    requires CodePrint(e, u, sc, a) && Extends(u.consts, u'.consts) && Same(u.prog, u'.prog, a, a + SSize(Stmt.Print(e), sc))
    ensures CodePrint(e, u', sc, a)
  {
    hide CodeE, ESize, Same;
    var z := a + SSize(Stmt.Print(e), sc);
    ESame(e, u, u', sc, a, z);
    SameAt(u.prog, u'.prog, a, z, a + ESize(e, sc.rt, sc.rt + 1, sc.locals));
  }

  lemma ReturnSame(o: OptExpr, u: Text, u': Text, sc: Scope, a: nat)
    requires CodeReturn(o, u, sc, a) && Extends(u.consts, u'.consts) && Same(u.prog, u'.prog, a, a + SSize(Return(o), sc))
    ensures CodeReturn(o, u', sc, a)
  {
    hide CodeE, ESize, Same;
    var z := a + SSize(Return(o), sc);
    if o.Present? {
      ESame(o.e, u, u', sc, a, z);
      SameAt(u.prog, u'.prog, a, z, a + ESize(o.e, sc.rt, sc.rt + 1, sc.locals));
    } else {
      SameAt(u.prog, u'.prog, a, z, a);
      SameAt(u.prog, u'.prog, a, z, a + 2);
    }
  }

  lemma LoopIs(test: OptExpr, step: OptExpr, body: Stmts, u: Text, sc: Scope, start: nat, cont: nat, bodyAt: nat, stepAt: nat, back: nat)
    requires bodyAt == start + TestSize(test, sc) && stepAt == bodyAt + SizeAll(body, sc)
    requires back == stepAt + ClauseSize(step, sc)
    ensures CodeLoop(test, step, body, u, sc, start, cont) <==>
              ((cont == stepAt || (step.Absent? && cont == start)) && CodeTest(test, u, sc, start, back + 3)
               && CodeAll(body, u, sc, bodyAt, Closed(back + 3, cont)) && CodeClause(step, u, sc, stepAt)
               && Jumps(u.prog, back, start))
  {
    hide CodeTest, CodeAll, CodeClause, Jumps;
  }

  lemma JumpsSame(u: Text, u': Text, a: nat, z: nat, p: nat, target: int)
    requires Jumps(u.prog, p, target) && Same(u.prog, u'.prog, a, z) && a <= p < z
    ensures Jumps(u'.prog, p, target)
  {
  }

  lemma {:induction false} LoopSame(test: OptExpr, step: OptExpr, body: Stmts, u: Text, u': Text, sc: Scope, start: nat, cont: nat, z: nat)
    requires CodeLoop(test, step, body, u, sc, start, cont) && Extends(u.consts, u'.consts) && Same(u.prog, u'.prog, start, z)
    requires z == start + TestSize(test, sc) + SizeAll(body, sc) + ClauseSize(step, sc) + 3
    ensures CodeLoop(test, step, body, u', sc, start, cont)
    decreases body, 1
  {
    hide *;
    var bodyAt := start + TestSize(test, sc);
    var stepAt := bodyAt + SizeAll(body, sc);
    var back := stepAt + ClauseSize(step, sc);
    SameWithin(u.prog, u'.prog, start, z, start, bodyAt);
    SameWithin(u.prog, u'.prog, start, z, bodyAt, stepAt);
    SameWithin(u.prog, u'.prog, start, z, stepAt, back);
    LoopIs(test, step, body, u, sc, start, cont, bodyAt, stepAt, back);
    LoopIs(test, step, body, u', sc, start, cont, bodyAt, stepAt, back);
    TestSame(test, u, u', sc, start, back + 3);
    ClauseSame(step, u, u', sc, stepAt);
    JumpsSame(u, u', start, z, back, start);
    var tg := Closed(back + 3, cont);
    var bs, cs := HolesAll(body, bodyAt, sc, true), HolesAll(body, bodyAt, sc, false);
    SameMoved(u, u', bodyAt, stepAt, bs, cs, tg);
    CodeAllMoved(body, u, u', sc, bodyAt, tg, tg);
  }

  // ---- statements ----------------------------------------------------------------------

  /** The code of `s` with its holes filled in: the same statement's code, with its breaks
      and continues leading to the new targets. */
  lemma {:induction false} CodeSMoved(s: Stmt, u: Text, u': Text, sc: Scope, a: nat, tg: Targets, tg': Targets)
    requires CodeS(s, u, sc, a, tg)
    requires Moved(u, u', a, a + SSize(s, sc), Holes(s, a, sc, true), Holes(s, a, sc, false), tg, tg')
    ensures CodeS(s, u', sc, a, tg')
    decreases s, 2
  {
    if s.Block? {
      hide Moved;
      CodeAllMoved(s.body, u, u', sc, a, tg, tg');
    } else if s.If? {
      hide Moved;
      CodeChainMoved(s.chain, u, u', sc, a, tg, tg');
    } else if s.Break? || s.Continue? {
      assert a in u.prog;
    } else {
      hide CodeS, SSize, Moved;
      PlainMoved(s, u, u', sc, a, tg, tg');
    }
  }

  /** Statements whose jumps all stay inside. */
  lemma {:induction false} PlainMoved(s: Stmt, u: Text, u': Text, sc: Scope, a: nat, tg: Targets, tg': Targets)
    requires CodeS(s, u, sc, a, tg) && !s.Block? && !s.If? && !s.Break? && !s.Continue?
    requires Moved(u, u', a, a + SSize(s, sc), Holes(s, a, sc, true), Holes(s, a, sc, false), tg, tg')
    ensures CodeS(s, u', sc, a, tg')
    decreases s, 1
  {
    var z := a + SSize(s, sc);
    MovedSame(u, u', a, z, {}, {}, tg, tg', a, z);
    hide Moved, CodeEffect, CodePrint, CodeReturn, CodeLoop, CodeClause, Extends, Same, EffectSize, ClauseSize, TestSize, SizeAll;
    match s
    case ExprStmt(e) => EffectSame(e, u, u', sc, a);
    case Print(e) => PrintSame(e, u, u', sc, a);
    case Return(o) => ReturnSame(o, u, u', sc, a);
    case While(c, b) => WhileSame(s, u, u', sc, a, z, tg, tg');
    case For(i, t, st, b) => ForSame(s, u, u', sc, a, z, tg, tg');
  }

  lemma {:induction false} WhileSame(s: Stmt, u: Text, u': Text, sc: Scope, a: nat, z: nat, tg: Targets, tg': Targets)
    requires s.While? && CodeS(s, u, sc, a, tg) && Extends(u.consts, u'.consts)
    requires z == a + SSize(s, sc) && Same(u.prog, u'.prog, a, z)
    ensures CodeS(s, u', sc, a, tg')
    decreases s, 0
  {
    hide CodeLoop, CodeClause, Extends, Same, TestSize, SizeAll;
    assert ClauseSize(Absent, sc) == 0;
    LoopSame(Present(s.cond), Absent, s.body, u, u', sc, a, a, z);
  }

  lemma ForIs(s: Stmt, u: Text, sc: Scope, a: nat, tg: Targets, start: nat, stepAt: nat)
    requires s.For? && start == a + ClauseSize(s.init, sc)
    requires stepAt == start + TestSize(s.test, sc) + SizeAll(s.body, sc)
    ensures CodeS(s, u, sc, a, tg) <==> (CodeClause(s.init, u, sc, a) && CodeLoop(s.test, s.step, s.body, u, sc, start, stepAt))
    ensures SSize(s, sc) == stepAt + ClauseSize(s.step, sc) + 3 - a
  {
    hide CodeLoop, CodeClause;
  }

  lemma {:induction false} ForSame(s: Stmt, u: Text, u': Text, sc: Scope, a: nat, z: nat, tg: Targets, tg': Targets)
    requires s.For? && CodeS(s, u, sc, a, tg) && Extends(u.consts, u'.consts)
    requires z == a + SSize(s, sc) && Same(u.prog, u'.prog, a, z)
    ensures CodeS(s, u', sc, a, tg')
    decreases s, 0
  {
    hide *;
    var start := a + ClauseSize(s.init, sc);
    var stepAt := start + TestSize(s.test, sc) + SizeAll(s.body, sc);
    ForIs(s, u, sc, a, tg, start, stepAt);
    ForIs(s, u', sc, a, tg', start, stepAt);
    SameWithin(u.prog, u'.prog, a, z, a, start);
    SameWithin(u.prog, u'.prog, a, z, start, z);
    ClauseSame(s.init, u, u', sc, a);
    LoopSame(s.test, s.step, s.body, u, u', sc, start, stepAt, z);
  }

  lemma AllHoles(ss: Stmts, sc: Scope, a: nat, m: nat, z: nat, brk: bool)
    requires ss.SCons? && m == a + SSize(ss.head, sc) && z == a + SizeAll(ss, sc)
    ensures var bs, bh, bt := HolesAll(ss, a, sc, brk), Holes(ss.head, a, sc, brk), HolesAll(ss.tail, m, sc, brk);
            && bs == bh + bt && z == m + SizeAll(ss.tail, sc)
            && Part(bh, bs, a, m) && Part(bt, bs, m, z)
  {
    HolesWithin(ss.head, a, sc);
    HolesWithinAll(ss.tail, m, sc);
    hide Holes, SSize;
  }

  lemma AllIs(ss: Stmts, u: Text, sc: Scope, a: nat, m: nat, tg: Targets)
    requires ss.SCons? && m == a + SSize(ss.head, sc)
    ensures CodeAll(ss, u, sc, a, tg) <==> (CodeS(ss.head, u, sc, a, tg) && CodeAll(ss.tail, u, sc, m, tg))
  {
    hide CodeS, SSize;
  }

  lemma {:induction false} CodeAllMoved(ss: Stmts, u: Text, u': Text, sc: Scope, a: nat, tg: Targets, tg': Targets)
    requires CodeAll(ss, u, sc, a, tg)
    requires Moved(u, u', a, a + SizeAll(ss, sc), HolesAll(ss, a, sc, true), HolesAll(ss, a, sc, false), tg, tg')
    ensures CodeAll(ss, u', sc, a, tg')
    decreases ss, 0
  {
    if ss.SCons? {
      hide *;
      var z := a + SizeAll(ss, sc);
      var m := a + SSize(ss.head, sc);
      var bs, cs := HolesAll(ss, a, sc, true), HolesAll(ss, a, sc, false);
      AllHoles(ss, sc, a, m, z, true);
      AllHoles(ss, sc, a, m, z, false);
      AllIs(ss, u, sc, a, m, tg);
      AllIs(ss, u', sc, a, m, tg');
      MovedWithin(u, u', a, z, bs, cs, tg, tg', a, m, Holes(ss.head, a, sc, true), Holes(ss.head, a, sc, false));
      MovedWithin(u, u', a, z, bs, cs, tg, tg', m, z, HolesAll(ss.tail, m, sc, true), HolesAll(ss.tail, m, sc, false));
      CodeSMoved(ss.head, u, u', sc, a, tg, tg');
      CodeAllMoved(ss.tail, u, u', sc, m, tg, tg');
    }
  }

  lemma ChainIs(c: Chain, u: Text, sc: Scope, a: nat, tg: Targets, thn: nat, after: nat, exit: nat)
    requires thn == a + TestSize(Present(c.cond), sc) && after == thn + SizeAll(c.thn, sc)
    requires exit == if c.els.NoElse? then after else after + 3
    ensures CodeChain(c, u, sc, a, tg) <==>
              (CodeTest(Present(c.cond), u, sc, a, exit) && CodeAll(c.thn, u, sc, thn, tg) && CodeElse(c.els, u, sc, after, tg))
    ensures ChainSize(c, sc) == after + ElseSize(c.els, sc) - a
  {
    hide CodeTest, CodeAll, CodeElse;
  }

  lemma ChainHoles(c: Chain, sc: Scope, a: nat, thn: nat, after: nat, z: nat, brk: bool)
    requires thn == a + TestSize(Present(c.cond), sc) && after == thn + SizeAll(c.thn, sc)
    requires z == after + ElseSize(c.els, sc)
    ensures var bs, bt, be := HolesChain(c, a, sc, brk), HolesAll(c.thn, thn, sc, brk), HolesElse(c.els, after, sc, brk);
            && Part({}, bs, a, thn) && Part(bt, bs, thn, after) && Part(be, bs, after, z)
  {
    HolesWithinAll(c.thn, thn, sc);
    HolesWithinElse(c.els, after, sc);
    hide HolesAll, HolesElse, SizeAll, ElseSize, TestSize;
  }

  lemma ChainParts(c: Chain, u: Text, u': Text, sc: Scope, a: nat, thn: nat, after: nat, z: nat, tg: Targets, tg': Targets)
    requires Moved(u, u', a, a + ChainSize(c, sc), HolesChain(c, a, sc, true), HolesChain(c, a, sc, false), tg, tg')
    requires thn == a + TestSize(Present(c.cond), sc) && after == thn + SizeAll(c.thn, sc) && z == after + ElseSize(c.els, sc)
    ensures Extends(u.consts, u'.consts) && Same(u.prog, u'.prog, a, thn)
    ensures Moved(u, u', thn, after, HolesAll(c.thn, thn, sc, true), HolesAll(c.thn, thn, sc, false), tg, tg')
    ensures Moved(u, u', after, z, HolesElse(c.els, after, sc, true), HolesElse(c.els, after, sc, false), tg, tg')
  {
    var w := a + ChainSize(c, sc);
    assert w == z && Extends(u.consts, u'.consts);
    var bs, cs := HolesChain(c, a, sc, true), HolesChain(c, a, sc, false);
    hide *;
    ChainHoles(c, sc, a, thn, after, z, true);
    ChainHoles(c, sc, a, thn, after, z, false);
    MovedSame(u, u', a, w, bs, cs, tg, tg', a, thn);
    MovedWithin(u, u', a, w, bs, cs, tg, tg', thn, after, HolesAll(c.thn, thn, sc, true), HolesAll(c.thn, thn, sc, false));
    MovedWithin(u, u', a, w, bs, cs, tg, tg', after, z, HolesElse(c.els, after, sc, true), HolesElse(c.els, after, sc, false));
  }

  lemma {:induction false} CodeChainMoved(c: Chain, u: Text, u': Text, sc: Scope, a: nat, tg: Targets, tg': Targets)
    requires CodeChain(c, u, sc, a, tg)
    requires Moved(u, u', a, a + ChainSize(c, sc), HolesChain(c, a, sc, true), HolesChain(c, a, sc, false), tg, tg')
    ensures CodeChain(c, u', sc, a, tg')
    decreases c, 1
  {
    hide *;
    var thn := a + TestSize(Present(c.cond), sc);
    var after := thn + SizeAll(c.thn, sc);
    var exit := if c.els.NoElse? then after else after + 3;
    ChainParts(c, u, u', sc, a, thn, after, after + ElseSize(c.els, sc), tg, tg');
    ChainIs(c, u, sc, a, tg, thn, after, exit);
    ChainIs(c, u', sc, a, tg', thn, after, exit);
    TestSame(Present(c.cond), u, u', sc, a, exit);
    CodeAllMoved(c.thn, u, u', sc, thn, tg, tg');
    CodeElseMoved(c.els, u, u', sc, after, tg, tg');
  }

  /** The size, the jump and the holes of an else branch whose block starts at `b`. */
  lemma ElseIs(e: Else, u: Text, sc: Scope, a: nat, b: nat, z: nat, tg: Targets)
    requires !e.NoElse? && b == a + 3 && z == a + ElseSize(e, sc)
    ensures CodeElse(e, u, sc, a, tg) <==>
              (Jumps(u.prog, a, z) && if e.ElseBlock? then CodeAll(e.body, u, sc, b, tg) else CodeChain(e.chain, u, sc, b, tg))
    ensures z == b + if e.ElseBlock? then SizeAll(e.body, sc) else ChainSize(e.chain, sc)
  {
    hide CodeAll, CodeChain, SizeAll, ChainSize, Jumps;
  }

  lemma ElseHoles(e: Else, sc: Scope, a: nat, b: nat, z: nat, brk: bool)
    requires !e.NoElse? && b == a + 3 && z == a + ElseSize(e, sc)
    ensures var bs := HolesElse(e, a, sc, brk);
            && bs == (if e.ElseBlock? then HolesAll(e.body, b, sc, brk) else HolesChain(e.chain, b, sc, brk))
            && Part({}, bs, a, b) && Part(bs, bs, b, z)
  {
    if e.ElseBlock? { HolesWithinAll(e.body, b, sc); } else { HolesWithinChain(e.chain, b, sc); }
    hide HolesAll, HolesChain, SizeAll, ChainSize;
  }

  lemma {:induction false} CodeElseMoved(e: Else, u: Text, u': Text, sc: Scope, a: nat, tg: Targets, tg': Targets)
    requires CodeElse(e, u, sc, a, tg)
    requires Moved(u, u', a, a + ElseSize(e, sc), HolesElse(e, a, sc, true), HolesElse(e, a, sc, false), tg, tg')
    ensures CodeElse(e, u', sc, a, tg')
    decreases e, 1
  {
    if !e.NoElse? {
      hide *;
      var b, z := a + 3, a + ElseSize(e, sc);
      var bs, cs := HolesElse(e, a, sc, true), HolesElse(e, a, sc, false);
      ElseHoles(e, sc, a, b, z, true);
      ElseHoles(e, sc, a, b, z, false);
      ElseIs(e, u, sc, a, b, z, tg);
      ElseIs(e, u', sc, a, b, z, tg');
      MovedSame(u, u', a, z, bs, cs, tg, tg', a, b);
      JumpsSame(u, u', a, b, a, z);
      MovedWithin(u, u', a, z, bs, cs, tg, tg', b, z, bs, cs);
      if e.ElseBlock? {
        CodeAllMoved(e.body, u, u', sc, b, tg, tg');
      } else {
        CodeChainMoved(e.chain, u, u', sc, b, tg, tg');
      }
    }
  }
}
