/** Each kind of statement: the steps the compiler takes leave exactly its code, and
    note exactly its jumps out of the loop. */
module StmtCode {
  import opened Bytecode
  import opened Ast
  import opened Source
  import opened CodeOf
  import opened CodeFrames
  import opened Assembly
  import opened Building
  import opened ExprCode

  function TextOf(v: Unit): Text {
    Text(v.asm.prog, v.asm.consts)
  }

  function ScopeOf(u: Unit): Scope {
    Scope(u.regTop, u.locals)
  }

  function Around(u: Unit): Targets {
    if u.loops == [] then Outside else Open
  }

  function Pending(ls: seq<Loop>, brk: bool): seq<nat> {
    if ls == [] then [] else if brk then ls[|ls| - 1].brks else ls[|ls| - 1].conts
  }

  /** The instructions whose operands `ps` lists from index `from` on. */
  ghost function SitesOf(ps: seq<nat>, from: nat): set<nat> {
    set i | from <= i < |ps| && ps[i] > 0 :: ps[i] - 1
  }

  ghost function NewSites(u: Unit, v: Unit, brk: bool): set<nat> {
    SitesOf(Pending(v.loops, brk), |Pending(u.loops, brk)|)
  }

  /** From `u` to `v`, `size` bytes of code were added, and these jumps are to be patched. */
  ghost predicate Added(u: Unit, v: Unit, size: nat, brks: set<nat>, conts: set<nat>) {
    && |v.asm.code| == |u.asm.code| + size
    && (u.loops != [] ==> NewSites(u, v, true) == brks && NewSites(u, v, false) == conts)
  }

  ghost predicate HasStmt(s: Stmt, u: Unit, v: Unit) {
    SimpleStmt(s) && Vars(s) <= u.locals.Keys ==>
      (CodeS(s, TextOf(v), ScopeOf(u), |u.asm.code|, Around(u))
       && Added(u, v, SSize(s, ScopeOf(u)), Holes(s, |u.asm.code|, ScopeOf(u), true), Holes(s, |u.asm.code|, ScopeOf(u), false)))
  }

  ghost predicate HasAll(ss: Stmts, u: Unit, v: Unit) {
    SimpleStmts(ss) && VarsAll(ss) <= u.locals.Keys ==>
      (CodeAll(ss, TextOf(v), ScopeOf(u), |u.asm.code|, Around(u))
       && Added(u, v, SizeAll(ss, ScopeOf(u)), HolesAll(ss, |u.asm.code|, ScopeOf(u), true), HolesAll(ss, |u.asm.code|, ScopeOf(u), false)))
  }

  ghost predicate HasChain(c: Chain, u: Unit, v: Unit) {
    SimpleChain(c) && VarsChain(c) <= u.locals.Keys ==>
      (CodeChain(c, TextOf(v), ScopeOf(u), |u.asm.code|, Around(u))
       && Added(u, v, ChainSize(c, ScopeOf(u)), HolesChain(c, |u.asm.code|, ScopeOf(u), true), HolesChain(c, |u.asm.code|, ScopeOf(u), false)))
  }

  ghost predicate StmtDone(s: Stmt, u: Unit, v: Unit) {
    Doing(Job(u, Any, Marks(s, true)), v) && v.regTop == u.regTop && HasStmt(s, u, v)
  }

  ghost predicate AllDone(ss: Stmts, u: Unit, v: Unit) {
    Doing(Job(u, Any, MarksAll(ss, true)), v) && v.regTop == u.regTop && HasAll(ss, u, v)
  }

  ghost predicate ChainDone(c: Chain, u: Unit, v: Unit) {
    Doing(Job(u, Any, MarksChain(c, true)), v) && v.regTop == u.regTop && HasChain(c, u, v)
  }

  // ---- composing ------------------------------------------------------------------------

  /** A part that may have jumps out of the loop is compiled. */
  lemma DoingPart(j: Job, v: Unit, v': Unit, ms: seq<Mark>)
    requires Doing(j, v) && j.w == Any && Doing(Job(v, Any, ms), v')
    ensures Doing(j.(ms := j.ms + ms), v') && Keeps(v, v')
  {
    KeepsTrans(j.from, v, v');
    assert Grew(v.asm, v'.asm) && |j.from.asm.code| <= |v.asm.code|;
    assert Narrower(Any, Any);
    hide Fine, Keeps, Confined, Grew, Narrower, LamsDone, LoopsGrew;
    ConfinedTrans(j.from.asm, v.asm, v'.asm, Any, Any);
    LamsKept(j.ms, v, v');
    LamsBoth(j.ms, ms, v');
    LoopsGrewTrans(j.from.loops, v.loops, v'.loops, |j.from.asm.code|, |v.asm.code|);
  }

  lemma SitesJoin(u: Unit, v: Unit, w: Unit, brk: bool)
    requires Pending(u.loops, brk) <= Pending(v.loops, brk) <= Pending(w.loops, brk)
    ensures NewSites(u, w, brk) == NewSites(u, v, brk) + NewSites(v, w, brk)
  {
    var p, q, r := Pending(u.loops, brk), Pending(v.loops, brk), Pending(w.loops, brk);
    assert forall i :: 0 <= i < |q| ==> r[i] == q[i];
    forall x | x in NewSites(u, w, brk) ensures x in NewSites(u, v, brk) + NewSites(v, w, brk) {
      var i :| |p| <= i < |r| && r[i] > 0 && x == r[i] - 1;
      if i < |q| { assert q[i] > 0 && x == q[i] - 1; }
    }
    forall x | x in NewSites(u, v, brk) ensures x in NewSites(u, w, brk) {
      var i :| |p| <= i < |q| && q[i] > 0 && x == q[i] - 1;
      assert r[i] == q[i];
    }
    forall x | x in NewSites(v, w, brk) ensures x in NewSites(u, w, brk) {
      var i :| |q| <= i < |r| && r[i] > 0 && x == r[i] - 1;
    }
  }

  lemma PendingGrows(j: Job, v: Unit, brk: bool)
    requires Doing(j, v)
    ensures Pending(j.from.loops, brk) <= Pending(v.loops, brk) && (j.from.loops == [] <==> v.loops == [])
  {
    hide Fine, Keeps, Confined, LamsDone;
  }

  /** The lists of pending jumps have only grown. */
  ghost predicate Pend(u: Unit, v: Unit) {
    && (u.loops == [] <==> v.loops == [])
    && Pending(u.loops, true) <= Pending(v.loops, true) && Pending(u.loops, false) <= Pending(v.loops, false)
  }

  lemma PendOf(j: Job, v: Unit)
    requires Doing(j, v)
    ensures Pend(j.from, v)
  {
    PendingGrows(j, v, true);
    PendingGrows(j, v, false);
  }

  lemma AddedJoin(u: Unit, v: Unit, w: Unit, n: nat, n': nat, b: set<nat>, c: set<nat>, b': set<nat>, c': set<nat>)
    requires Pend(u, v) && Pend(v, w) && Added(u, v, n, b, c) && Added(v, w, n', b', c')
    ensures Added(u, w, n + n', b + b', c + c') && Pend(u, w)
  {
    hide NewSites, Pending;
    SitesJoin(u, v, w, true);
    SitesJoin(u, v, w, false);
  }

  lemma ScopeKept(j: Job, v: Unit)
    requires Doing(j, v) && v.regTop == j.from.regTop
    ensures ScopeOf(v) == ScopeOf(j.from) && Around(v) == Around(j.from)
  {
    hide Fine, Confined, LamsDone, Grew;
  }

  lemma TextKept(v: Unit, w: Unit)
    requires Keeps(v, w)
    ensures Extends(TextOf(v).consts, TextOf(w).consts) && Same(TextOf(v).prog, TextOf(w).prog, 0, |v.asm.code|)
  {
  }

  lemma StmtKept(s: Stmt, v: Unit, w: Unit, sc: Scope, a: nat, tg: Targets)
    requires CodeS(s, TextOf(v), sc, a, tg) && Keeps(v, w) && a + SSize(s, sc) <= |v.asm.code|
    ensures CodeS(s, TextOf(w), sc, a, tg)
  {
    hide *;
    TextKept(v, w);
    var z := a + SSize(s, sc);
    SameWithin(TextOf(v).prog, TextOf(w).prog, 0, |v.asm.code|, a, z);
    SameMoved(TextOf(v), TextOf(w), a, z, Holes(s, a, sc, true), Holes(s, a, sc, false), tg);
    CodeSMoved(s, TextOf(v), TextOf(w), sc, a, tg, tg);
  }

  lemma AllKept(ss: Stmts, v: Unit, w: Unit, sc: Scope, a: nat, tg: Targets)
    requires CodeAll(ss, TextOf(v), sc, a, tg) && Keeps(v, w) && a + SizeAll(ss, sc) <= |v.asm.code|
    ensures CodeAll(ss, TextOf(w), sc, a, tg)
  {
    hide *;
    TextKept(v, w);
    var z := a + SizeAll(ss, sc);
    SameWithin(TextOf(v).prog, TextOf(w).prog, 0, |v.asm.code|, a, z);
    SameMoved(TextOf(v), TextOf(w), a, z, HolesAll(ss, a, sc, true), HolesAll(ss, a, sc, false), tg);
    CodeAllMoved(ss, TextOf(v), TextOf(w), sc, a, tg, tg);
  }

  // ---- lists -------------------------------------------------------------------------------

  lemma NoneDone(u: Unit)
    requires Fine(u)
    ensures AllDone(SNil, u, u)
  {
    DoingStarts(u, Any);
    hide Doing;
  }

  lemma HasAllIf(ss: Stmts, u: Unit, v: Unit)
    requires CodeAll(ss, TextOf(v), ScopeOf(u), |u.asm.code|, Around(u))
    requires Added(u, v, SizeAll(ss, ScopeOf(u)), HolesAll(ss, |u.asm.code|, ScopeOf(u), true), HolesAll(ss, |u.asm.code|, ScopeOf(u), false))
    ensures HasAll(ss, u, v)
  {
  }

  lemma HasStmtIs(s: Stmt, u: Unit, v: Unit)
    requires HasStmt(s, u, v) && SimpleStmt(s) && Vars(s) <= u.locals.Keys
    ensures CodeS(s, TextOf(v), ScopeOf(u), |u.asm.code|, Around(u))
    ensures Added(u, v, SSize(s, ScopeOf(u)), Holes(s, |u.asm.code|, ScopeOf(u), true), Holes(s, |u.asm.code|, ScopeOf(u), false))
    ensures |v.asm.code| == |u.asm.code| + SSize(s, ScopeOf(u))
  {
  }

  lemma HasAllIs(ss: Stmts, u: Unit, v: Unit)
    requires HasAll(ss, u, v) && SimpleStmts(ss) && VarsAll(ss) <= u.locals.Keys
    ensures CodeAll(ss, TextOf(v), ScopeOf(u), |u.asm.code|, Around(u))
    ensures Added(u, v, SizeAll(ss, ScopeOf(u)), HolesAll(ss, |u.asm.code|, ScopeOf(u), true), HolesAll(ss, |u.asm.code|, ScopeOf(u), false))
    ensures |v.asm.code| == |u.asm.code| + SizeAll(ss, ScopeOf(u))
  {
  }

  lemma HasAllUnless(ss: Stmts, u: Unit, v: Unit)
    requires !(SimpleStmts(ss) && VarsAll(ss) <= u.locals.Keys)
    ensures HasAll(ss, u, v)
  {
  }

  lemma ConsParts(ss: Stmts, sc: Scope, a: nat)
    requires ss.SCons?
    ensures SimpleStmts(ss) <==> SimpleStmt(ss.head) && SimpleStmts(ss.tail)
    ensures VarsAll(ss) == Vars(ss.head) + VarsAll(ss.tail)
    ensures SizeAll(ss, sc) == SSize(ss.head, sc) + SizeAll(ss.tail, sc)
    ensures forall b :: HolesAll(ss, a, sc, b) == Holes(ss.head, a, sc, b) + HolesAll(ss.tail, a + SSize(ss.head, sc), sc, b)
    ensures MarksAll(ss, true) == Marks(ss.head, true) + MarksAll(ss.tail, true)
  {
  }

  lemma ConsHas(ss: Stmts, u: Unit, v: Unit, w: Unit)
    requires ss.SCons? && StmtDone(ss.head, u, v) && AllDone(ss.tail, v, w) && Keeps(v, w) && v.locals == u.locals
    requires ScopeOf(v) == ScopeOf(u) && Around(v) == Around(u)
    ensures HasAll(ss, u, w)
  {
    hide Doing, Keeps, HasStmt, HasAll, SimpleStmts, SimpleStmt, VarsAll, Vars, CodeS, CodeAll, SSize, SizeAll, Holes, HolesAll, Added, ScopeOf, Around, Pend;
    var sc, a, m := ScopeOf(u), |u.asm.code|, |v.asm.code|;
    ConsParts(ss, sc, a);
    if SimpleStmts(ss) && VarsAll(ss) <= u.locals.Keys {
      HasStmtIs(ss.head, u, v);
      HasAllIs(ss.tail, v, w);
      StmtKept(ss.head, v, w, sc, a, Around(u));
      AllIs(ss, TextOf(w), sc, a, m, Around(u));
      PendOf(Job(u, Any, Marks(ss.head, true)), v);
      PendOf(Job(v, Any, MarksAll(ss.tail, true)), w);
      AddedJoin(u, v, w, SSize(ss.head, sc), SizeAll(ss.tail, sc),
                Holes(ss.head, a, sc, true), Holes(ss.head, a, sc, false), HolesAll(ss.tail, m, sc, true), HolesAll(ss.tail, m, sc, false));
      HasAllIf(ss, u, w);
    } else {
      HasAllUnless(ss, u, w);
    }
  }

  lemma ConsDone(ss: Stmts, u: Unit, v: Unit, w: Unit)
    requires ss.SCons? && StmtDone(ss.head, u, v) && AllDone(ss.tail, v, w)
    ensures AllDone(ss, u, w)
  {
    assert v.regTop == u.regTop && w.regTop == v.regTop;
    var j := Job(u, Any, Marks(ss.head, true));
    assert j.(ms := j.ms + MarksAll(ss.tail, true)) == Job(u, Any, MarksAll(ss, true));
    hide Doing, Keeps, HasStmt, HasAll, ScopeOf, Around;
    DoingFacts(j, v);
    DoingPart(j, v, w, MarksAll(ss.tail, true));
    ScopeKept(j, v);
    ConsHas(ss, u, v, w);
  }

  // ---- statements without jumps out of the loop -----------------------------------------------

  lemma NothingPending(u: Unit, v: Unit)
    requires v.loops == u.loops
    ensures NewSites(u, v, true) == {} && NewSites(u, v, false) == {}
  {
  }

  lemma PlainDone(s: Stmt, j: Job, v: Unit)
    requires Doing(j, v) && j.w == Any && j.ms == Marks(s, true) && v.regTop == j.from.regTop && v.loops == j.from.loops
    requires !s.Block? && !s.If? && !s.Break? && !s.Continue?
    requires SimpleStmt(s) && Vars(s) <= j.from.locals.Keys ==>
               (CodeS(s, TextOf(v), ScopeOf(j.from), |j.from.asm.code|, Around(j.from))
                && |v.asm.code| == |j.from.asm.code| + SSize(s, ScopeOf(j.from)))
    ensures StmtDone(s, j.from, v)
  {
    NothingPending(j.from, v);
    hide Doing, CodeS, SSize, SimpleStmt, Vars;
  }

  /** The code of an expression as a statement, or of an assignment, stands from `u` on. */
  ghost predicate HasEffect(e: Expr, u: Unit, v: Unit) {
    SimpleEffect(e) && EffectVars(e) <= u.locals.Keys ==>
      (CodeEffect(e, TextOf(v), ScopeOf(u), |u.asm.code|) && |v.asm.code| == |u.asm.code| + EffectSize(e, ScopeOf(u)))
  }

  lemma EffectDone(e: Expr, j: Job, v: Unit)
    requires Doing(j, v) && j.w == Any && j.ms == MarksE(e, true) && v.regTop == j.from.regTop && v.loops == j.from.loops
    requires HasEffect(e, j.from, v)
    ensures StmtDone(ExprStmt(e), j.from, v)
  {
    hide Doing, CodeEffect, EffectSize, SimpleEffect, EffectVars;
    PlainDone(ExprStmt(e), j, v);
  }

  lemma BareEffect(e: Expr, u: Unit, v: Unit, v': Unit, w: Unit)
    requires !e.Assign? && v.locals == u.locals && v.regTop == u.regTop + 1 && v.asm.code == u.asm.code
    requires HasCode(e, u.regTop, v, v') && w.asm == v'.asm
    ensures HasEffect(e, u, w)
  {
    hide Simple, Reads, CodeE, ESize;
  }

  lemma AssignEffect(e: Expr, u: Unit, v: Unit)
    requires e.Assign? && e.target.Ident? && e.target.name in u.locals && HasCode(e.value, u.locals[e.target.name], u, v)
    ensures HasEffect(e, u, v)
  {
    hide Simple, Reads, CodeE, ESize;
  }

  lemma OtherEffect(e: Expr, u: Unit, v: Unit)
    requires e.Assign? && !e.target.Ident?
    ensures HasEffect(e, u, v)
  {
  }

  /** `e` into a temporary, followed by one instruction. */
  lemma ThenPut(e: Expr, u: Unit, v: Unit, v': Unit, i: Instr, w: Unit)
    requires v.locals == u.locals && v.regTop == u.regTop + 1 && v.asm.code == u.asm.code
    requires HasCode(e, u.regTop, v, v') && Keeps(v', Put(v', i)) && w.asm == Put(v', i).asm
    requires Simple(e) && Reads(e) <= u.locals.Keys
    ensures var sc := ScopeOf(u);
            var n := |u.asm.code| + ESize(e, sc.rt, sc.rt + 1, sc.locals);
            && CodeE(e, w.asm.prog, w.asm.consts, |u.asm.code|, sc.rt, sc.rt + 1, sc.locals)
            && n == |v'.asm.code| && n in w.asm.prog && w.asm.prog[n] == i && |w.asm.code| == n + Len(i)
  {
    hide Simple, Reads, CodeE, ESize, HasCode, Keeps, Put, Len;
    CodeKept(e, v, v', Put(v', i), u.regTop);
    PutAt(v', i);
  }

  lemma PrintIf(e: Expr, t: Text, sc: Scope, a: nat, n: nat, d: Byte)
    requires n == a + ESize(e, sc.rt, sc.rt + 1, sc.locals) && CodeE(e, t.prog, t.consts, a, sc.rt, sc.rt + 1, sc.locals)
    requires n in t.prog && t.prog[n] == Instr.Print(d) && d == sc.rt
    ensures CodePrint(e, t, sc, a) && a + SSize(Stmt.Print(e), sc) == n + 2 && Len(Instr.Print(d)) == 2
  {
    hide CodeE, ESize;
  }

  lemma PrintCode(e: Expr, u: Unit, v: Unit, v': Unit, d: Byte, w: Unit)
    requires v.locals == u.locals && v.regTop == u.regTop + 1 && v.asm.code == u.asm.code
    requires HasCode(e, u.regTop, v, v') && Keeps(v', Put(v', Instr.Print(d))) && w.asm == Put(v', Instr.Print(d)).asm && d == u.regTop
    ensures Simple(e) && Reads(e) <= u.locals.Keys ==>
              (CodePrint(e, TextOf(w), ScopeOf(u), |u.asm.code|)
               && |w.asm.code| == |u.asm.code| + SSize(Stmt.Print(e), ScopeOf(u)))
  {
    hide Simple, Reads, CodeE, ESize, HasCode, Keeps, Put, Len, CodePrint, SSize;
    if Simple(e) && Reads(e) <= u.locals.Keys {
      ThenPut(e, u, v, v', Instr.Print(d), w);
      PrintIf(e, TextOf(w), ScopeOf(u), |u.asm.code|, |v'.asm.code|, d);
    }
  }

  lemma ReturnIf(e: Expr, t: Text, sc: Scope, a: nat, n: nat, d: Byte)
    requires n == a + ESize(e, sc.rt, sc.rt + 1, sc.locals) && CodeE(e, t.prog, t.consts, a, sc.rt, sc.rt + 1, sc.locals)
    requires n in t.prog && t.prog[n] == Ret(d) && d == sc.rt
    ensures CodeReturn(Present(e), t, sc, a) && a + SSize(Return(Present(e)), sc) == n + 2 && Len(Ret(d)) == 2
  {
    hide CodeE, ESize;
  }

  lemma ReturnCode(e: Expr, u: Unit, v: Unit, v': Unit, d: Byte, w: Unit)
    requires v.locals == u.locals && v.regTop == u.regTop + 1 && v.asm.code == u.asm.code
    requires HasCode(e, u.regTop, v, v') && Keeps(v', Put(v', Ret(d))) && w.asm == Put(v', Ret(d)).asm && d == u.regTop
    ensures Simple(e) && Reads(e) <= u.locals.Keys ==>
              (CodeReturn(Present(e), TextOf(w), ScopeOf(u), |u.asm.code|)
               && |w.asm.code| == |u.asm.code| + SSize(Return(Present(e)), ScopeOf(u)))
  {
    hide Simple, Reads, CodeE, ESize, HasCode, Keeps, Put, Len, CodeReturn, SSize;
    if Simple(e) && Reads(e) <= u.locals.Keys {
      ThenPut(e, u, v, v', Ret(d), w);
      ReturnIf(e, TextOf(w), ScopeOf(u), |u.asm.code|, |v'.asm.code|, d);
    }
  }

  lemma ReturnNilCode(u: Unit, v: Unit, d: Byte, w: Unit)
    requires v.asm.code == u.asm.code && d == u.regTop && w.asm == Put(Put(v, LoadNil(d)), Ret(d)).asm
    ensures CodeReturn(Absent, TextOf(w), ScopeOf(u), |u.asm.code|)
    ensures |w.asm.code| == |u.asm.code| + SSize(Return(Absent), ScopeOf(u))
  {
    assert Len(LoadNil(d)) == 2 && Len(Ret(d)) == 2;
  }

  // ---- break and continue -----------------------------------------------------------------------

  /** The innermost loop has one more jump to patch. */
  function Noted(ls: seq<Loop>, pos: nat, brk: bool): seq<Loop>
    requires ls != []
  {
    var top := ls[|ls| - 1];
    ls[|ls| - 1 := if brk then top.(brks := top.brks + [pos]) else top.(conts := top.conts + [pos])]
  }

  lemma NotedGrows(ls: seq<Loop>, pos: nat, brk: bool, lo: nat)
    requires ls != [] && pos > lo
    ensures LoopsGrew(ls, Noted(ls, pos, brk), lo)
  {
  }

  lemma NotedOk(prog: Prog, ls: seq<Loop>, pos: nat, brk: bool)
    requires LoopsOk(prog, ls) && ls != [] && Site(prog, pos)
    ensures LoopsOk(prog, Noted(ls, pos, brk))
  {
    var ls' := Noted(ls, pos, brk);
    hide Site;
    forall i | 0 <= i < |ls'| ensures Sites(prog, ls'[i].conts) && Sites(prog, ls'[i].brks) {
      assert Sites(prog, ls[i].conts) && Sites(prog, ls[i].brks);
    }
  }

  lemma NotedFine(u: Unit, pos: nat, brk: bool)
    requires Fine(u) && u.loops != [] && Site(u.asm.prog, pos)
    ensures Fine(u.(loops := Noted(u.loops, pos, brk)))
  {
    hide Ok, Compiled, LoopsOk, Captures, LocalsBelow, Site;
    NotedOk(u.asm.prog, u.loops, pos, brk);
    SlotsSame(u, u.(loops := Noted(u.loops, pos, brk)));
  }

  lemma NotedSites(u: Unit, v: Unit, brk: bool)
    requires u.loops != [] && v.loops == Noted(u.loops, |u.asm.code| + 1, brk)
    ensures NewSites(u, v, brk) == {|u.asm.code|} && NewSites(u, v, !brk) == {}
  {
    var ps := Pending(v.loops, brk);
    assert ps[|ps| - 1] == |u.asm.code| + 1;
    assert |u.asm.code| in NewSites(u, v, brk);
  }

  lemma LeaveHas(s: Stmt, u: Unit, w: Unit)
    requires u.loops != [] && (s.Break? || s.Continue?) && |w.asm.code| == |u.asm.code| + 3
    requires |u.asm.code| in w.asm.prog && w.asm.prog[|u.asm.code|] == Goto(0)
    requires w.loops == Noted(u.loops, |u.asm.code| + 1, s.Break?)
    ensures HasStmt(s, u, w)
  {
    NotedSites(u, w, s.Break?);
    hide NewSites, Noted;
  }

  lemma ReturnMarks(o: OptExpr)
    ensures Marks(Return(o), true) == if o.Present? then [] + MarksE(o.e, true) else []
  {
    hide MarksE;
  }

  /** The open jump of a break or continue, and where it is noted. */
  lemma LeaveFacts(u: Unit, v: Unit, w: Unit, brk: bool)
    requires Fine(u) && u.loops != []
    requires Doing(Job(u, Any, []), v) && v == Put(u, Goto(0)) && w == v.(loops := Noted(u.loops, |u.asm.code| + 1, brk))
    ensures var n := |u.asm.code|;
            && Site(v.asm.prog, n + 1) && Fine(v) && |v.asm.code| == n + 3
            && n in v.asm.prog && v.asm.prog[n] == Goto(0) && Keeps(u, w) && Confined(w.asm, n, Any) && LamsDone([], v)
  {
    assert Len(Goto(0)) == 3;
    hide Fine, Confined, LamsDone, LoopsGrew, Noted, HasStmt;
  }

  lemma LeaveDone(s: Stmt, u: Unit, v: Unit, w: Unit)
    requires Fine(u) && u.loops != [] && (s.Break? || s.Continue?)
    requires Doing(Job(u, Any, []), v) && v == Put(u, Goto(0)) && w == v.(loops := Noted(u.loops, |u.asm.code| + 1, s.Break?))
    ensures StmtDone(s, u, w)
  {
    var n := |u.asm.code|;
    LeaveFacts(u, v, w, s.Break?);
    hide Fine, Keeps, Confined, LamsDone, LoopsGrew, Put, Noted, Site, HasStmt;
    NotedGrows(u.loops, n + 1, s.Break?, n);
    LamsSame([], v, w);
    PutFields(u, Goto(0));
    NotedFine(v, n + 1, s.Break?);
    LeaveHas(s, u, w);
  }

  lemma PutFields(v: Unit, i: Instr)
    ensures Put(v, i).regTop == v.regTop && Put(v, i).loops == v.loops && Put(v, i).locals == v.locals
  {
  }

  /** An assigned variable's name is no function. */
  lemma AddTarget(j: Job, e: Expr, v: Unit)
    requires Doing(j, v) && e.Assign? && e.target.Ident? && j.ms == [] + MarksE(e.value, true)
    ensures Doing(j.(ms := MarksE(e, true)), v)
  {
    assert LamsDone(j.ms, v);
    forall n | Lam(n) in MarksE(e, true) ensures Lam(n) in j.ms {
      assert MarksE(e, true) == [Target(e.target.name)] + [] + MarksE(e.value, true);
    }
    hide Fine, Keeps, Confined, MarksE, LoopsKept;
  }

  // ---- conditions ---------------------------------------------------------------------------------

  /** A branch on register `r` at `p`, its target still open. */
  ghost predicate BranchOpen(v: Unit, p: nat, r: nat) {
    p in v.asm.prog && v.asm.prog[p].GotoIfFalse? && v.asm.prog[p].r == r && p + 4 <= |v.asm.code|
  }

  /** From `u` to `v` a condition was added, ending in a branch. */
  ghost predicate HasTest(e: Expr, u: Unit, v: Unit) {
    && |v.asm.code| >= |u.asm.code| + 4 && BranchOpen(v, |v.asm.code| - 4, u.regTop)
    && (Simple(e) && Reads(e) <= u.locals.Keys ==>
          (CodeE(e, v.asm.prog, v.asm.consts, |u.asm.code|, u.regTop, u.regTop + 1, u.locals)
           && |v.asm.code| == |u.asm.code| + ESize(e, u.regTop, u.regTop + 1, u.locals) + 4))
  }

  lemma TestHas(e: Expr, u: Unit, v: Unit, v': Unit, d: Byte, w: Unit)
    requires v.locals == u.locals && v.regTop == u.regTop + 1 && v.asm.code == u.asm.code && |u.asm.code| <= |v'.asm.code|
    requires HasCode(e, u.regTop, v, v') && Keeps(v', Put(v', GotoIfFalse(d, 0))) && w.asm == Put(v', GotoIfFalse(d, 0)).asm && d == u.regTop
    ensures HasTest(e, u, w)
  {
    BranchLen(GotoIfFalse(d, 0));
    PutAt(v', GotoIfFalse(d, 0));
    hide Simple, Reads, CodeE, ESize, HasCode, Keeps, Put, Len;
    if Simple(e) && Reads(e) <= u.locals.Keys { ThenPut(e, u, v, v', GotoIfFalse(d, 0), w); }
  }

  lemma HasTestIs(e: Expr, u: Unit, v: Unit)
    requires HasTest(e, u, v)
    ensures |v.asm.code| >= |u.asm.code| + 4 && BranchOpen(v, |v.asm.code| - 4, u.regTop)
    ensures Simple(e) && Reads(e) <= u.locals.Keys ==>
              (CodeE(e, v.asm.prog, v.asm.consts, |u.asm.code|, u.regTop, u.regTop + 1, u.locals)
               && |v.asm.code| == |u.asm.code| + TestSize(Present(e), ScopeOf(u)))
  {
    hide CodeE, ESize, Simple, Reads;
  }

  lemma TestSizeIs(e: Expr, sc: Scope)
    ensures TestSize(Present(e), sc) == ESize(e, sc.rt, sc.rt + 1, sc.locals) + 4
  {
    hide ESize;
  }

  lemma TestIf(e: Expr, t: Text, sc: Scope, a: nat, n: nat, exit: int)
    requires n == a + ESize(e, sc.rt, sc.rt + 1, sc.locals) && CodeE(e, t.prog, t.consts, a, sc.rt, sc.rt + 1, sc.locals)
    requires Branches(t.prog, n, sc.rt, exit)
    ensures CodeTest(Present(e), t, sc, a, exit) && n + 4 == a + TestSize(Present(e), sc)
  {
    hide CodeE, ESize, Branches;
  }

  /** The condition's code with its branch leading to `exit`. */
  lemma TestCode(e: Expr, u: Unit, v: Unit, w: Unit, exit: int)
    requires HasTest(e, u, v) && Simple(e) && Reads(e) <= u.locals.Keys && |v.asm.code| >= 4
    requires Same(v.asm.prog, w.asm.prog, |u.asm.code|, |v.asm.code| - 4) && Extends(v.asm.consts, w.asm.consts)
    requires Branches(w.asm.prog, |v.asm.code| - 4, u.regTop, exit)
    ensures CodeTest(Present(e), TextOf(w), ScopeOf(u), |u.asm.code|, exit)
    ensures |v.asm.code| == |u.asm.code| + TestSize(Present(e), ScopeOf(u))
  {
    hide Simple, Reads, CodeE, ESize, Same, Branches, HasTest, CodeTest, TestSize, Extends;
    HasTestIs(e, u, v);
    var a, n := |u.asm.code|, |v.asm.code| - 4;
    TestSizeIs(e, ScopeOf(u));
    SameWithin(v.asm.prog, w.asm.prog, a, n, a, a + ESize(e, u.regTop, u.regTop + 1, u.locals));
    CodeESame(e, v.asm.prog, w.asm.prog, v.asm.consts, w.asm.consts, a, u.regTop, u.regTop + 1, u.locals);
    TestIf(e, TextOf(w), ScopeOf(u), a, n, exit);
  }

  // ---- if ----------------------------------------------------------------------------------------------

  lemma SameThrough(p: Prog, q: Prog, r: Prog, a: nat, b: nat)
    requires Same(p, q, a, b) && Same(q, r, a, b)
    ensures Same(p, r, a, b)
  {
  }

  lemma SameRedirected(u: Unit, p: nat, target: nat, a: nat, b: nat)
    requires CanPatch(u, p, target) && (p < a || b <= p)
    ensures Same(u.asm.prog, Redirected(u, p, target).asm.prog, a, b) && Extends(u.asm.consts, Redirected(u, p, target).asm.consts)
    ensures |Redirected(u, p, target).asm.code| == |u.asm.code|
  {
    RedirectedProg(u, p, target);
    hide Redirected, CanPatch;
  }

  lemma SameKept(u: Unit, v: Unit, a: nat, b: nat)
    requires Keeps(u, v) && b <= |u.asm.code|
    ensures Same(u.asm.prog, v.asm.prog, a, b) && Extends(u.asm.consts, v.asm.consts) && |u.asm.code| <= |v.asm.code|
  {
  }

  lemma BranchKept(u: Unit, v: Unit, p: nat, r: nat)
    requires BranchOpen(u, p, r) && Keeps(u, v)
    ensures BranchOpen(v, p, r)
  {
  }

  lemma BranchPatched(u: Unit, p: nat, r: nat, target: nat)
    requires BranchOpen(u, p, r) && CanPatch(u, p, target)
    ensures Branches(Redirected(u, p, target).asm.prog, p, r, target)
  {
    RedirectedProg(u, p, target);
    hide Redirected, CanPatch;
  }

  lemma BranchesKept(p: Prog, q: Prog, a: nat, b: nat, n: nat, r: nat, target: int)
    requires Branches(p, n, r, target) && Same(p, q, a, b) && a <= n < b
    ensures Branches(q, n, r, target)
  {
  }

  /** if without else: test to `v`, block to `w`, then the branch patched. */
  lemma IfSteps(u: Unit, v: Unit, w: Unit, z: Unit, p: nat, r: nat)
    requires Keeps(v, w) && BranchOpen(v, p, r) && p + 4 == |v.asm.code|
    requires CanPatch(w, p, |w.asm.code|) && z == Redirected(w, p, |w.asm.code|)
    ensures Same(v.asm.prog, z.asm.prog, 0, p) && Extends(v.asm.consts, z.asm.consts)
    ensures Same(w.asm.prog, z.asm.prog, |v.asm.code|, |w.asm.code|) && Extends(w.asm.consts, z.asm.consts)
    ensures Branches(z.asm.prog, p, r, |w.asm.code|) && |z.asm.code| == |w.asm.code|
  {
    hide *;
    SameKept(v, w, 0, p);
    SameRedirected(w, p, |w.asm.code|, 0, p);
    SameRedirected(w, p, |w.asm.code|, |v.asm.code|, |w.asm.code|);
    SameThrough(v.asm.prog, w.asm.prog, z.asm.prog, 0, p);
    ExtendsThrough(v, w, z);
    BranchKept(v, w, p, r);
    BranchPatched(w, p, r, |w.asm.code|);
  }

  lemma ExtendsThrough(v: Unit, w: Unit, z: Unit)
    requires Extends(v.asm.consts, w.asm.consts) && Extends(w.asm.consts, z.asm.consts)
    ensures Extends(v.asm.consts, z.asm.consts)
  {
  }

  lemma AllMovedTo(ss: Stmts, u: Unit, v: Unit, z: Unit, sc: Scope, tg: Targets)
    requires CodeAll(ss, TextOf(v), sc, |u.asm.code|, tg) && |v.asm.code| == |u.asm.code| + SizeAll(ss, sc)
    requires Same(v.asm.prog, z.asm.prog, |u.asm.code|, |v.asm.code|) && Extends(v.asm.consts, z.asm.consts)
    ensures CodeAll(ss, TextOf(z), sc, |u.asm.code|, tg)
  {
    var a, b := |u.asm.code|, |u.asm.code| + SizeAll(ss, sc);
    assert b == |v.asm.code|;
    hide CodeAll, SizeAll, Same, Extends, HolesAll;
    SameMoved(TextOf(v), TextOf(z), a, b, HolesAll(ss, a, sc, true), HolesAll(ss, a, sc, false), tg);
    CodeAllMoved(ss, TextOf(v), TextOf(z), sc, a, tg, tg);
  }

  lemma ChainMovedTo(c: Chain, u: Unit, v: Unit, z: Unit, sc: Scope, tg: Targets)
    requires CodeChain(c, TextOf(v), sc, |u.asm.code|, tg) && |v.asm.code| == |u.asm.code| + ChainSize(c, sc)
    requires Same(v.asm.prog, z.asm.prog, |u.asm.code|, |v.asm.code|) && Extends(v.asm.consts, z.asm.consts)
    ensures CodeChain(c, TextOf(z), sc, |u.asm.code|, tg)
  {
    var a, b := |u.asm.code|, |u.asm.code| + ChainSize(c, sc);
    assert b == |v.asm.code|;
    hide CodeChain, ChainSize, Same, Extends, HolesChain;
    SameMoved(TextOf(v), TextOf(z), a, b, HolesChain(c, a, sc, true), HolesChain(c, a, sc, false), tg);
    CodeChainMoved(c, TextOf(v), TextOf(z), sc, a, tg, tg);
  }

  lemma ChainSimple(c: Chain, sc: Scope, a: nat)
    ensures SimpleChain(c) <==> Simple(c.cond) && SimpleStmts(c.thn) && SimpleElse(c.els)
    ensures VarsChain(c) == Reads(c.cond) + VarsAll(c.thn) + VarsElse(c.els)
    ensures MarksChain(c, true) == MarksE(c.cond, true) + MarksAll(c.thn, true) + MarksElse(c.els, true)
  {
  }

  lemma HasChainIf(c: Chain, u: Unit, v: Unit)
    requires CodeChain(c, TextOf(v), ScopeOf(u), |u.asm.code|, Around(u))
    requires Added(u, v, ChainSize(c, ScopeOf(u)), HolesChain(c, |u.asm.code|, ScopeOf(u), true), HolesChain(c, |u.asm.code|, ScopeOf(u), false))
    ensures HasChain(c, u, v)
  {
  }

  lemma HasChainUnless(c: Chain, u: Unit, v: Unit)
    requires !(SimpleChain(c) && VarsChain(c) <= u.locals.Keys)
    ensures HasChain(c, u, v)
  {
  }

  lemma HasChainIs(c: Chain, u: Unit, v: Unit)
    requires HasChain(c, u, v) && SimpleChain(c) && VarsChain(c) <= u.locals.Keys
    ensures CodeChain(c, TextOf(v), ScopeOf(u), |u.asm.code|, Around(u))
    ensures Added(u, v, ChainSize(c, ScopeOf(u)), HolesChain(c, |u.asm.code|, ScopeOf(u), true), HolesChain(c, |u.asm.code|, ScopeOf(u), false))
    ensures |v.asm.code| == |u.asm.code| + ChainSize(c, ScopeOf(u))
  {
  }

  /** Code without jumps out of the loop. */
  lemma AddedPlain(u: Unit, v: Unit, n: nat)
    requires |v.asm.code| == |u.asm.code| + n && v.loops == u.loops
    ensures Added(u, v, n, {}, {}) && Pend(u, v)
  {
    NothingPending(u, v);
    hide NewSites;
  }

  lemma NoElseParts(c: Chain, sc: Scope, a: nat, thn: nat)
    requires c.els.NoElse? && thn == a + TestSize(Present(c.cond), sc)
    ensures ChainSize(c, sc) == TestSize(Present(c.cond), sc) + SizeAll(c.thn, sc)
    ensures forall b :: HolesChain(c, a, sc, b) == {} + HolesAll(c.thn, thn, sc, b)
    ensures forall t: Text, tg, after {:trigger CodeElse(c.els, t, sc, after, tg)} :: CodeElse(c.els, t, sc, after, tg)
  {
  }

  lemma IfHas(c: Chain, u: Unit, v: Unit, w: Unit, z: Unit)
    requires c.els.NoElse? && HasTest(c.cond, u, v) && v.loops == u.loops && v.locals == u.locals && v.regTop == u.regTop
    requires HasAll(c.thn, v, w) && Keeps(v, w) && Pend(v, w)
    requires CanPatch(w, |v.asm.code| - 4, |w.asm.code|) && z == Redirected(w, |v.asm.code| - 4, |w.asm.code|)
    ensures HasChain(c, u, z)
  {
    hide *;
    HasTestIs(c.cond, u, v);
    RedirectedFields(w, |v.asm.code| - 4, |w.asm.code|);
    SameScope(u, v);
    SameAround(u, v);
    var sc, a, m, n := ScopeOf(u), |u.asm.code|, |v.asm.code|, |w.asm.code|;
    ChainSimple(c, sc, a);
    if SimpleChain(c) && VarsChain(c) <= u.locals.Keys {
      HasAllIs(c.thn, v, w);
      IfSteps(u, v, w, z, m - 4, u.regTop);
      SameWithin(v.asm.prog, z.asm.prog, 0, m - 4, a, m - 4);
      TestCode(c.cond, u, v, z, n);
      AllMovedTo(c.thn, v, w, z, sc, Around(u));
      NoElseParts(c, sc, a, m);
      ChainIs(c, TextOf(z), sc, a, Around(u), m, n, n);
      AddedPlain(u, v, TestSize(Present(c.cond), sc));
      AddedTo(v, w, z, SizeAll(c.thn, sc), HolesAll(c.thn, m, sc, true), HolesAll(c.thn, m, sc, false));
      AddedJoin(u, v, z, TestSize(Present(c.cond), sc), SizeAll(c.thn, sc), {}, {}, HolesAll(c.thn, m, sc, true), HolesAll(c.thn, m, sc, false));
      HasChainIf(c, u, z);
    } else {
      HasChainUnless(c, u, z);
    }
  }

  lemma AddedTo(u: Unit, v: Unit, w: Unit, n: nat, b: set<nat>, c: set<nat>)
    requires Added(u, v, n, b, c) && Pend(u, v) && w.loops == v.loops && |w.asm.code| == |v.asm.code|
    ensures Added(u, w, n, b, c) && Pend(u, w)
  {
  }

  ghost predicate HasElse(e: Else, u: Unit, v: Unit) {
    match e
    case NoElse => true
    case ElseBlock(b) => HasAll(b, u, v)
    case ElseIf(c) => HasChain(c, u, v)
  }

  /** if with else: test to `v`, block to `w`, jump, first patch to `x`, else branch to
      `y`, second patch. */
  lemma ElseSteps(v: Unit, w: Unit, x1: Unit, x: Unit, y: Unit, z: Unit, p: nat, r: nat)
    requires Keeps(v, w) && BranchOpen(v, p, r) && p + 4 == |v.asm.code| && |v.asm.code| <= |w.asm.code|
    requires x1 == Put(w, Goto(0)) && Keeps(w, x1) && CanPatch(x1, p, |x1.asm.code|) && x == Redirected(x1, p, |x1.asm.code|)
    requires Keeps(x, y) && CanPatch(y, |w.asm.code|, |y.asm.code|) && z == Redirected(y, |w.asm.code|, |y.asm.code|)
    ensures |x.asm.code| == |w.asm.code| + 3 <= |y.asm.code| == |z.asm.code|
    ensures Same(v.asm.prog, z.asm.prog, 0, p) && Extends(v.asm.consts, z.asm.consts)
    ensures Same(w.asm.prog, z.asm.prog, |v.asm.code|, |w.asm.code|) && Extends(w.asm.consts, z.asm.consts)
    ensures Same(y.asm.prog, z.asm.prog, |x.asm.code|, |y.asm.code|) && Extends(y.asm.consts, z.asm.consts)
    ensures Branches(z.asm.prog, p, r, |x.asm.code|) && Jumps(z.asm.prog, |w.asm.code|, |y.asm.code|)
  {
    hide *;
    var m, n, n' := |v.asm.code|, |w.asm.code|, |x1.asm.code|;
    PutAt(w, Goto(0));
    BranchLen(Goto(0));
    SameKept(v, w, 0, p);
    BranchKept(v, w, p, r);
    SameKept(w, x1, 0, p);
    SameKept(w, x1, m, n);
    BranchKept(w, x1, p, r);
    SameRedirected(x1, p, n', 0, p);
    SameRedirected(x1, p, n', m, n);
    BranchPatched(x1, p, r, n');
    JumpThere(x1, p, n', n);
    SameKept(x, y, 0, n');
    JumpKept(x, y, n);
    SameRedirected(y, n, |y.asm.code|, 0, n);
    SameRedirected(y, n, |y.asm.code|, n', |y.asm.code|);
    JumpPatched(y, n, |y.asm.code|);
    SameWithin(x.asm.prog, y.asm.prog, 0, n', 0, n);
    SameThrough(x.asm.prog, y.asm.prog, z.asm.prog, 0, n);
    SameWithin(x.asm.prog, z.asm.prog, 0, n, 0, p);
    SameWithin(x.asm.prog, z.asm.prog, 0, n, m, n);
    SameThrough(v.asm.prog, w.asm.prog, x1.asm.prog, 0, p);
    SameThrough(v.asm.prog, x1.asm.prog, x.asm.prog, 0, p);
    SameThrough(v.asm.prog, x.asm.prog, z.asm.prog, 0, p);
    SameThrough(w.asm.prog, x1.asm.prog, x.asm.prog, m, n);
    SameThrough(w.asm.prog, x.asm.prog, z.asm.prog, m, n);
    BranchesKept(x.asm.prog, z.asm.prog, 0, n, p, r, n');
    ExtendsThrough(w, x1, x);
    ExtendsThrough(w, x, y);
    ExtendsThrough(w, y, z);
    ExtendsThrough(v, w, z);
  }

  lemma JumpThere(u: Unit, p: nat, target: nat, n: nat)
    requires CanPatch(u, p, target) && n in u.asm.prog && u.asm.prog[n] == Goto(0) && n != p
    ensures n in Redirected(u, p, target).asm.prog && Redirected(u, p, target).asm.prog[n] == Goto(0)
  {
    RedirectedProg(u, p, target);
    hide Redirected, CanPatch;
  }

  lemma JumpKept(u: Unit, v: Unit, n: nat)
    requires n in u.asm.prog && u.asm.prog[n] == Goto(0) && n < |u.asm.code| && Keeps(u, v)
    ensures n in v.asm.prog && v.asm.prog[n] == Goto(0)
  {
  }

  lemma JumpPatched(u: Unit, n: nat, target: nat)
    requires n in u.asm.prog && u.asm.prog[n].Goto? && CanPatch(u, n, target)
    ensures Jumps(Redirected(u, n, target).asm.prog, n, target)
  {
    RedirectedProg(u, n, target);
    hide Redirected, CanPatch;
  }

  lemma ElseMovedTo(e: Else, u: Unit, v: Unit, z: Unit, sc: Scope, tg: Targets, after: nat)
    requires !e.NoElse? && HasElse(e, u, v) && SimpleElse(e) && VarsElse(e) <= u.locals.Keys
    requires sc == ScopeOf(u) && tg == Around(u) && |u.asm.code| == after + 3
    requires Same(v.asm.prog, z.asm.prog, |u.asm.code|, |v.asm.code|) && Extends(v.asm.consts, z.asm.consts)
    requires Jumps(z.asm.prog, after, |v.asm.code|)
    ensures CodeElse(e, TextOf(z), sc, after, tg)
    ensures Added(u, v, ElseSize(e, sc) - 3, HolesElse(e, after, sc, true), HolesElse(e, after, sc, false)) && ElseSize(e, sc) >= 3
    ensures |v.asm.code| == after + ElseSize(e, sc)
  {
    var b, n := |u.asm.code|, after + ElseSize(e, sc);
    ElseShape(e, sc, after, b);
    hide CodeAll, CodeChain, CodeElse, HolesAll, HolesChain, HolesElse, SizeAll, ChainSize, ElseSize, Same, Extends, HasAll, HasChain, SimpleStmts,
         SimpleChain, VarsAll, VarsChain, Jumps, Added, ScopeOf, Around, TextOf;
    if e.ElseBlock? {
      HasAllIs(e.body, u, v);
      AllMovedTo(e.body, u, v, z, sc, tg);
    } else {
      HasChainIs(e.chain, u, v);
      ChainMovedTo(e.chain, u, v, z, sc, tg);
    }
    TextProg(z);
    ElseIs(e, TextOf(z), sc, after, b, n, tg);
  }

  lemma TextProg(z: Unit)
    ensures TextOf(z).prog == z.asm.prog && TextOf(z).consts == z.asm.consts
  {
  }

  lemma ElseShape(e: Else, sc: Scope, a: nat, b: nat)
    requires !e.NoElse? && b == a + 3
    ensures ElseSize(e, sc) == 3 + if e.ElseBlock? then SizeAll(e.body, sc) else ChainSize(e.chain, sc)
    ensures forall brk :: HolesElse(e, a, sc, brk) == if e.ElseBlock? then HolesAll(e.body, b, sc, brk) else HolesChain(e.chain, b, sc, brk)
  {
  }

  lemma ElseParts(c: Chain, sc: Scope, a: nat, thn: nat, after: nat)
    requires thn == a + TestSize(Present(c.cond), sc) && after == thn + SizeAll(c.thn, sc)
    ensures ChainSize(c, sc) == TestSize(Present(c.cond), sc) + SizeAll(c.thn, sc) + ElseSize(c.els, sc)
    ensures forall b :: HolesChain(c, a, sc, b) == HolesAll(c.thn, thn, sc, b) + HolesElse(c.els, after, sc, b)
  {
  }

  lemma IfElseHas(c: Chain, u: Unit, v: Unit, w: Unit, x1: Unit, x: Unit, y: Unit, z: Unit)
    requires !c.els.NoElse? && HasTest(c.cond, u, v) && v.loops == u.loops && v.locals == u.locals && v.regTop == u.regTop
    requires HasAll(c.thn, v, w) && Keeps(v, w) && Pend(v, w) && |v.asm.code| <= |w.asm.code|
    requires x1 == Put(w, Goto(0)) && Keeps(w, x1)
    requires CanPatch(x1, |v.asm.code| - 4, |x1.asm.code|) && x == Redirected(x1, |v.asm.code| - 4, |x1.asm.code|)
    requires HasElse(c.els, x, y) && Keeps(x, y) && Pend(x, y) && x.locals == u.locals && x.regTop == u.regTop
    requires CanPatch(y, |w.asm.code|, |y.asm.code|) && z == Redirected(y, |w.asm.code|, |y.asm.code|)
    ensures HasChain(c, u, z)
  {
    hide *;
    HasTestIs(c.cond, u, v);
    IfElseScopes(u, v, w, x1, x, y, z);
    ElseSteps(v, w, x1, x, y, z, |v.asm.code| - 4, u.regTop);
    ChainSimple(c, ScopeOf(u), |u.asm.code|);
    if SimpleChain(c) && VarsChain(c) <= u.locals.Keys {
      IfElseCode(c, u, v, w, x, y, z);
      HasChainIf(c, u, z);
    } else {
      HasChainUnless(c, u, z);
    }
  }

  lemma IfElseScopes(u: Unit, v: Unit, w: Unit, x1: Unit, x: Unit, y: Unit, z: Unit)
    requires v.loops == u.loops && v.locals == u.locals && v.regTop == u.regTop && Pend(v, w) && |v.asm.code| >= 4
    requires x1 == Put(w, Goto(0)) && CanPatch(x1, |v.asm.code| - 4, |x1.asm.code|) && x == Redirected(x1, |v.asm.code| - 4, |x1.asm.code|)
    requires CanPatch(y, |w.asm.code|, |y.asm.code|) && z == Redirected(y, |w.asm.code|, |y.asm.code|)
    requires x.locals == u.locals && x.regTop == u.regTop
    ensures ScopeOf(v) == ScopeOf(u) && Around(v) == Around(u) && ScopeOf(x) == ScopeOf(u) && Around(x) == Around(u)
    ensures x.loops == w.loops && z.loops == y.loops
  {
    hide Redirected, CanPatch, Pend;
    RedirectedFields(x1, |v.asm.code| - 4, |x1.asm.code|);
    RedirectedFields(y, |w.asm.code|, |y.asm.code|);
    PutFields(w, Goto(0));
    assert x.loops == w.loops;
    PendEmpty(v, w);
  }

  lemma PendEmpty(u: Unit, v: Unit)
    requires Pend(u, v)
    ensures u.loops == [] <==> v.loops == []
  {
  }

  lemma RedirectedFields(u: Unit, p: nat, target: nat)
    requires CanPatch(u, p, target)
    ensures var v := Redirected(u, p, target); v.loops == u.loops && v.locals == u.locals && v.regTop == u.regTop
  {
  }

  lemma SameScope(u: Unit, v: Unit)
    requires v.locals == u.locals && v.regTop == u.regTop
    ensures ScopeOf(v) == ScopeOf(u)
  {
  }

  lemma SameAround(u: Unit, v: Unit)
    requires u.loops == [] <==> v.loops == []
    ensures Around(v) == Around(u)
  {
  }

  lemma IfElseCode(c: Chain, u: Unit, v: Unit, w: Unit, x: Unit, y: Unit, z: Unit)
    requires !c.els.NoElse? && HasTest(c.cond, u, v) && HasAll(c.thn, v, w) && HasElse(c.els, x, y)
    requires Simple(c.cond) && SimpleStmts(c.thn) && SimpleElse(c.els)
    requires Reads(c.cond) + VarsAll(c.thn) + VarsElse(c.els) <= u.locals.Keys
    requires v.locals == u.locals && x.locals == u.locals && v.loops == u.loops && x.loops == w.loops && z.loops == y.loops
    requires ScopeOf(v) == ScopeOf(u) && Around(v) == Around(u) && ScopeOf(x) == ScopeOf(u) && Around(x) == Around(u)
    requires Pend(v, w) && Pend(x, y)
    requires |x.asm.code| == |w.asm.code| + 3 <= |y.asm.code| == |z.asm.code| && |v.asm.code| >= 4
    requires Same(v.asm.prog, z.asm.prog, 0, |v.asm.code| - 4) && Extends(v.asm.consts, z.asm.consts)
    requires Same(w.asm.prog, z.asm.prog, |v.asm.code|, |w.asm.code|) && Extends(w.asm.consts, z.asm.consts)
    requires Same(y.asm.prog, z.asm.prog, |x.asm.code|, |y.asm.code|) && Extends(y.asm.consts, z.asm.consts)
    requires Branches(z.asm.prog, |v.asm.code| - 4, u.regTop, |x.asm.code|) && Jumps(z.asm.prog, |w.asm.code|, |y.asm.code|)
    ensures CodeChain(c, TextOf(z), ScopeOf(u), |u.asm.code|, Around(u))
    ensures Added(u, z, ChainSize(c, ScopeOf(u)), HolesChain(c, |u.asm.code|, ScopeOf(u), true), HolesChain(c, |u.asm.code|, ScopeOf(u), false))
  {
    hide *;
    var sc, a, m, n, b := ScopeOf(u), |u.asm.code|, |v.asm.code|, |w.asm.code|, |x.asm.code|;
    HasTestIs(c.cond, u, v);
    HasAllIs(c.thn, v, w);
    SameWithin(v.asm.prog, z.asm.prog, 0, m - 4, a, m - 4);
    TestCode(c.cond, u, v, z, b);
    AllMovedTo(c.thn, v, w, z, sc, Around(u));
    ElseMovedTo(c.els, x, y, z, sc, Around(u), n);
    ChainIs(c, TextOf(z), sc, a, Around(u), m, n, b);
    IfElseAdded(c, u, v, w, x, y, z, sc);
  }

  lemma IfElseAdded(c: Chain, u: Unit, v: Unit, w: Unit, x: Unit, y: Unit, z: Unit, sc: Scope)
    requires |v.asm.code| == |u.asm.code| + TestSize(Present(c.cond), sc) && v.loops == u.loops
    requires Added(v, w, SizeAll(c.thn, sc), HolesAll(c.thn, |v.asm.code|, sc, true), HolesAll(c.thn, |v.asm.code|, sc, false)) && Pend(v, w)
    requires |w.asm.code| == |v.asm.code| + SizeAll(c.thn, sc) && |x.asm.code| == |w.asm.code| + 3 && x.loops == w.loops
    requires ElseSize(c.els, sc) >= 3 && Pend(x, y)
    requires Added(x, y, ElseSize(c.els, sc) - 3, HolesElse(c.els, |w.asm.code|, sc, true), HolesElse(c.els, |w.asm.code|, sc, false))
    requires z.loops == y.loops && |z.asm.code| == |y.asm.code|
    ensures Added(u, z, ChainSize(c, sc), HolesChain(c, |u.asm.code|, sc, true), HolesChain(c, |u.asm.code|, sc, false))
  {
    hide *;
    var n1, n2, n3 := TestSize(Present(c.cond), sc), SizeAll(c.thn, sc), ElseSize(c.els, sc);
    var bt, ct := HolesAll(c.thn, |v.asm.code|, sc, true), HolesAll(c.thn, |v.asm.code|, sc, false);
    var be, ce := HolesElse(c.els, |w.asm.code|, sc, true), HolesElse(c.els, |w.asm.code|, sc, false);
    ElseParts(c, sc, |u.asm.code|, |v.asm.code|, |w.asm.code|);
    AddedPlain(u, v, n1);
    AddedJoin(u, v, w, n1, n2, {}, {}, bt, ct);
    AddedPlain(w, x, 3);
    AddedJoin(u, w, x, n1 + n2, 3, {} + bt, {} + ct, {}, {});
    AddedTo(x, y, z, n3 - 3, be, ce);
    AddedJoin(u, x, z, n1 + n2 + 3, n3 - 3, {} + bt + {}, {} + ct + {}, be, ce);
    assert {} + bt + {} + be == bt + be && {} + ct + {} + ce == ct + ce;
  }

  // ---- facts the compiler's methods use -----------------------------------------------------------

  lemma StmtFine(s: Stmt, u: Unit, v: Unit)
    requires StmtDone(s, u, v)
    ensures Fine(v)
  {
  }

  lemma BlockDone(ss: Stmts, u: Unit, v: Unit)
    requires AllDone(ss, u, v)
    ensures StmtDone(Block(ss), u, v)
  {
    hide Doing;
  }

  lemma IfDone(c: Chain, u: Unit, v: Unit)
    requires ChainDone(c, u, v)
    ensures StmtDone(If(c), u, v)
  {
    hide Doing;
  }

  lemma ChainFinished(c: Chain, u: Unit, v: Unit)
    requires Doing(Job(u, Any, MarksChain(c, true)), v) && v.regTop == u.regTop && HasChain(c, u, v)
    ensures ChainDone(c, u, v)
  {
  }

  lemma SameKeptSize(u: Unit, v: Unit)
    requires Keeps(u, v)
    ensures |u.asm.code| <= |v.asm.code|
  {
  }

  lemma BranchRoom(v: Unit, p: nat, r: nat)
    requires BranchOpen(v, p, r)
    ensures p in v.asm.prog && IsJumpInstr(v.asm.prog[p]) && Len(v.asm.prog[p]) == 4 && p + 4 <= |v.asm.code|
  {
  }

  lemma ThenFacts(e: Expr, u: Unit, v: Unit, w: Unit, j: Job)
    requires HasTest(e, u, v) && Keeps(v, w) && Doing(j, w) && j.from == u
    ensures |v.asm.code| >= |u.asm.code| + 4 && |v.asm.code| <= |w.asm.code|
    ensures var p := |v.asm.code| - 4;
            BranchOpen(w, p, u.regTop) && p in w.asm.prog && IsJumpInstr(w.asm.prog[p]) && Len(w.asm.prog[p]) == 4
    ensures w.locals == u.locals
  {
    hide Fine, Confined, LamsDone, Simple, CodeE, ESize, Reads;
    BranchKept(v, w, |v.asm.code| - 4, u.regTop);
    BranchRoom(w, |v.asm.code| - 4, u.regTop);
  }

  lemma JumpThere2(w: Unit, x1: Unit, p: nat, target: nat, x: Unit)
    requires x1 == Put(w, Goto(0)) && CanPatch(x1, p, target) && x == Redirected(x1, p, target) && p != |w.asm.code|
    ensures |w.asm.code| in x.asm.prog && x.asm.prog[|w.asm.code|] == Goto(0) && |x.asm.code| == |w.asm.code| + 3
  {
    PutAt(w, Goto(0));
    BranchLen(Goto(0));
    RedirectedProg(x1, p, target);
    hide Put, Redirected, CanPatch, Len;
  }

  lemma JumpKept2(w: Unit, x: Unit, y: Unit)
    requires |w.asm.code| in x.asm.prog && x.asm.prog[|w.asm.code|] == Goto(0) && |x.asm.code| == |w.asm.code| + 3 && Keeps(x, y)
    ensures var n := |w.asm.code|;
            n in y.asm.prog && y.asm.prog[n] == Goto(0) && IsJumpInstr(y.asm.prog[n]) && Len(y.asm.prog[n]) == 3 && n + 3 <= |y.asm.code|
  {
    JumpKept(x, y, |w.asm.code|);
    BranchLen(Goto(0));
    KeepsSizes(x, y);
    hide Keeps, Len;
  }
}
