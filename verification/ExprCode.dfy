/** Each kind of expression: the steps the compiler takes leave exactly its code. */
module ExprCode {
  import opened Bytecode
  import opened Ast
  import opened Source
  import opened CodeOf
  import opened Assembly
  import opened Building
  import Verifier

  lemma LiteralCode(e: Expr, dst: nat, u: Unit, consts: seq<Constant>, d: Byte, k: nat, c: Constant)
    requires (c.CInt? && e == IntLit(c.i)) || (c.CBool? && e == BoolLit(c.b))
    requires k < |consts| && consts[k] == c && d == dst
    ensures HasCode(e, dst, u, Put(Interned(u, consts), LoadConst(d, k)))
  {
  }

  lemma NilCode(dst: nat, u: Unit, d: Byte)
    requires d == dst
    ensures HasCode(NilLit, dst, u, Put(u, LoadNil(d)))
  {
  }

  lemma VariableCode(x: string, dst: nat, u: Unit, v: Unit, d: Byte, s: Byte)
    requires x in u.locals
    requires if u.locals[x] == dst then v == u else d == dst && s == u.locals[x] && v == Put(u, Two(MOVE, d, s))
    ensures HasCode(Ident(x), dst, u, v)
  {
  }

  /** Code compiled on the way to `v` is still there at `w`. */
  lemma CodeKept(e: Expr, u: Unit, v: Unit, w: Unit, dst: nat)
    requires HasCode(e, dst, u, v) && Simple(e) && Reads(e) <= u.locals.Keys && Keeps(v, w)
    ensures CodeE(e, w.asm.prog, w.asm.consts, |u.asm.code|, dst, u.regTop, u.locals)
    ensures |v.asm.code| == |u.asm.code| + ESize(e, dst, u.regTop, u.locals)
  {
    var a, z := |u.asm.code|, |u.asm.code| + ESize(e, dst, u.regTop, u.locals);
    hide Simple, Reads, CodeE, ESize;
    SameWithin(v.asm.prog, w.asm.prog, 0, |v.asm.code|, a, z);
    CodeESame(e, v.asm.prog, w.asm.prog, v.asm.consts, w.asm.consts, a, dst, u.regTop, u.locals);
  }

  lemma PutAt(v: Unit, i: Instr)
    ensures |v.asm.code| in Put(v, i).asm.prog && Put(v, i).asm.prog[|v.asm.code|] == i
    ensures |Put(v, i).asm.code| == |v.asm.code| + Len(i)
  {
  }

  lemma HasCodeIf(e: Expr, dst: nat, u: Unit, v: Unit)
    requires CodeE(e, v.asm.prog, v.asm.consts, |u.asm.code|, dst, u.regTop, u.locals)
    requires |v.asm.code| == |u.asm.code| + ESize(e, dst, u.regTop, u.locals)
    ensures HasCode(e, dst, u, v)
  {
  }

  lemma HasCodeUnless(e: Expr, dst: nat, u: Unit, v: Unit)
    requires !(Simple(e) && Reads(e) <= u.locals.Keys)
    ensures HasCode(e, dst, u, v)
  {
  }

  lemma BinaryCode(e: Expr, dst: nat, u: Unit, v: Unit, v': Unit, v'': Unit, i: Instr, w: Unit)
    requires e.Binary? && v.locals == u.locals && v.regTop == u.regTop + 2 && v.asm.code == u.asm.code
    requires HasCode(e.l, u.regTop, v, v') && v'.locals == u.locals && v'.regTop == v.regTop && Keeps(v', v'')
    requires HasCode(e.r, u.regTop + 1, v', v'') && Keeps(v'', Put(v'', i))
    requires i.Three? && i.op == BinOpcode(e.op) && i.r == dst && i.a == u.regTop && i.b == u.regTop + 1
    requires w.asm == Put(v'', i).asm
    ensures HasCode(e, dst, u, w)
  {
    hide *;
    if Simple(e) && Reads(e) <= u.locals.Keys {
      var rt := u.regTop;
      BinaryOperands(e, u.locals);
      KeepsTrans(v', v'', Put(v'', i));
      CodeKept(e.l, v, v', Put(v'', i), rt);
      CodeKept(e.r, v', v'', Put(v'', i), rt + 1);
      PutAt(v'', i);
      ThreeLen(i);
      BinaryIs(e, w.asm.prog, w.asm.consts, |u.asm.code|, dst, rt, u.locals);
      HasCodeIf(e, dst, u, w);
    } else {
      HasCodeUnless(e, dst, u, w);
    }
  }

  lemma ThreeLen(i: Instr)
    ensures i.Three? ==> Len(i) == 4
    ensures i.Two? ==> Len(i) == 3
  {
  }

  lemma UnaryIs(e: Expr, dst: nat, u: Unit, w: Unit, n: nat)
    requires e.Unary? && n == |u.asm.code| + ESize(e.e, u.regTop, u.regTop + 1, u.locals) && |w.asm.code| == n + 3
    requires CodeE(e.e, w.asm.prog, w.asm.consts, |u.asm.code|, u.regTop, u.regTop + 1, u.locals)
    requires n in w.asm.prog && w.asm.prog[n].Two? && w.asm.prog[n].op == UnOpcode(e.uop)
    requires w.asm.prog[n].r == dst && w.asm.prog[n].a == u.regTop
    ensures HasCode(e, dst, u, w)
  {
  }

  lemma UnaryCode(e: Expr, dst: nat, u: Unit, v: Unit, v': Unit, i: Instr, w: Unit)
    requires e.Unary? && v.locals == u.locals && v.regTop == u.regTop + 1 && v.asm.code == u.asm.code
    requires HasCode(e.e, u.regTop, v, v') && Keeps(v', Put(v', i))
    requires i.Two? && i.op == UnOpcode(e.uop) && i.r == dst && i.a == u.regTop
    requires w.asm == Put(v', i).asm
    ensures HasCode(e, dst, u, w)
  {
    if Simple(e) && Reads(e) <= u.locals.Keys {
      assert Simple(e.e) && Reads(e.e) <= u.locals.Keys;
      hide *;
      CodeKept(e.e, v, v', Put(v', i), u.regTop);
      PutAt(v', i);
      ThreeLen(i);
      UnaryIs(e, dst, u, w, |v'.asm.code|);
    }
    hide *;
    if !(Simple(e) && Reads(e) <= u.locals.Keys) { HasCodeUnless(e, dst, u, w); }
  }

  lemma BinaryOperands(e: Expr, locals: Regs)
    requires (e.Binary? || e.Logical?) && Simple(e) && Reads(e) <= locals.Keys
    ensures Simple(e.l) && Simple(e.r) && Reads(e.l) <= locals.Keys && Reads(e.r) <= locals.Keys
  {
  }

  // ---- short-circuit operators ---------------------------------------------------------

  /** What follows the second operand's branch at `n`: load true, jump over, load false,
      with the branch at `n` (and the one at `p`, unless `p` is -1) leading to the latter. */
  ghost predicate Tail(v: Unit, w: Unit, n: nat, p: int, dst: nat) {
    && |w.asm.code| == n + 15 && Extends(v.asm.consts, w.asm.consts)
    && Branches(w.asm.prog, n, dst, n + 11)
    && (p >= 0 ==> Branches(w.asm.prog, p, dst, n + 11))
    && Loads(w.asm.prog, w.asm.consts, n + 4, dst, CBool(true))
    && Jumps(w.asm.prog, n + 8, n + 15)
    && Loads(w.asm.prog, w.asm.consts, n + 11, dst, CBool(false))
    && (forall q {:trigger q in v.asm.prog} :: q in v.asm.prog && q != n && q != p ==> q in w.asm.prog && w.asm.prog[q] == v.asm.prog[q])
  }

  /** After the true load and the jump over the false one. */
  ghost predicate Tail1(v: Unit, u: Unit, n: nat, p: int, dst: nat) {
    && |u.asm.code| == n + 11 && Extends(v.asm.consts, u.asm.consts)
    && Loads(u.asm.prog, u.asm.consts, n + 4, dst, CBool(true))
    && n + 8 in u.asm.prog && u.asm.prog[n + 8] == Goto(0)
    && (forall q {:trigger q in v.asm.prog} :: q in v.asm.prog ==> q in u.asm.prog && u.asm.prog[q] == v.asm.prog[q])
    && n in v.asm.prog && v.asm.prog[n].GotoIfFalse? && v.asm.prog[n].r == dst
    && (p >= 0 ==> p + 4 <= n && p in v.asm.prog && v.asm.prog[p].GotoIfFalse? && v.asm.prog[p].r == dst)
  }

  ghost predicate Below(u: Unit, n: nat) {
    forall q {:trigger q in u.asm.prog} :: q in u.asm.prog ==> q < n
  }

  lemma Tail1Holds(v: Unit, u: Unit, u': Unit, n: nat, p: int, dst: nat, consts: seq<Constant>, d: Byte, k: nat)
    requires |v.asm.code| == n + 4 && Extends(v.asm.consts, consts) && k < |consts| && consts[k] == CBool(true) && d == dst
    requires u == Put(Interned(v, consts), LoadConst(d, k)) && u' == Put(u, Goto(0)) && Below(v, n + 4)
    requires n in v.asm.prog && v.asm.prog[n].GotoIfFalse? && v.asm.prog[n].r == dst
    requires p >= 0 ==> p + 4 <= n && p in v.asm.prog && v.asm.prog[p].GotoIfFalse? && v.asm.prog[p].r == dst
    ensures Tail1(v, u', n, p, dst)
  {
    assert Len(LoadConst(d, k)) == 4 && Len(Goto(0)) == 3;
    hide Encode;
  }

  /** After the branches are patched as well. */
  ghost predicate Tail2(v: Unit, u: Unit, n: nat, p: int, dst: nat) {
    && |u.asm.code| == n + 11 && Extends(v.asm.consts, u.asm.consts)
    && Branches(u.asm.prog, n, dst, n + 11)
    && (p >= 0 ==> Branches(u.asm.prog, p, dst, n + 11))
    && Loads(u.asm.prog, u.asm.consts, n + 4, dst, CBool(true))
    && n + 8 in u.asm.prog && u.asm.prog[n + 8] == Goto(0)
    && (forall q {:trigger q in v.asm.prog} :: q in v.asm.prog && q != n && q != p ==> q in u.asm.prog && u.asm.prog[q] == v.asm.prog[q])
  }

  lemma Tail2Alone(v: Unit, u: Unit, u': Unit, n: nat, dst: nat)
    requires Tail1(v, u, n, -1, dst) && Below(v, n + 4) && CanPatch(u, n, n + 11) && u' == Redirected(u, n, n + 11)
    ensures Tail2(v, u', n, -1, dst)
  {
    RedirectedProg(u, n, n + 11);
    hide Redirected, CanPatch, Encode, Len, IsJumpInstr;
  }

  /** The first branch patched. */
  lemma Tail1Both(v: Unit, u: Unit, u': Unit, n: nat, p: nat, dst: nat)
    requires Tail1(v, u, n, p, dst) && Below(v, n + 4) && CanPatch(u, p, n + 11) && u' == Redirected(u, p, n + 11)
    ensures Branches(u'.asm.prog, p, dst, n + 11) && p + 4 <= n && Tail1(u'.(asm := u'.asm.(prog := v.asm.prog[p := u'.asm.prog[p]])), u', n, -1, dst)
    ensures u'.asm.consts == u.asm.consts
  {
    RedirectedProg(u, p, n + 11);
    hide Redirected, CanPatch, Encode, Len, IsJumpInstr;
  }

  lemma Tail2Both(v: Unit, u: Unit, u': Unit, u'': Unit, n: nat, p: nat, dst: nat)
    requires Tail1(v, u, n, p, dst) && Below(v, n + 4) && CanPatch(u, p, n + 11) && u' == Redirected(u, p, n + 11)
    requires CanPatch(u', n, n + 11) && u'' == Redirected(u', n, n + 11)
    ensures Tail2(v, u'', n, p, dst)
  {
    Tail1Both(v, u, u', n, p, dst);
    assert Extends(v.asm.consts, u.asm.consts);
    var v' := u'.(asm := u'.asm.(prog := v.asm.prog[p := u'.asm.prog[p]]));
    assert Below(v', n + 4);
    hide Redirected, CanPatch, Tail1;
    Tail2Alone(v', u', u'', n, dst);
  }

  lemma TailHolds(v: Unit, u: Unit, u': Unit, w: Unit, n: nat, p: int, dst: nat, consts: seq<Constant>, d: Byte, k: nat)
    requires Tail2(v, u, n, p, dst) && Below(v, n + 4) && p + 4 <= n
    requires Extends(u.asm.consts, consts) && k < |consts| && consts[k] == CBool(false) && d == dst
    requires u' == Put(Interned(u, consts), LoadConst(d, k)) && CanPatch(u', n + 8, n + 15) && w == Redirected(u', n + 8, n + 15)
    ensures Tail(v, w, n, p, dst)
  {
    RedirectedProg(u', n + 8, n + 15);
    assert Len(LoadConst(d, k)) == 4;
    hide Redirected, CanPatch, Encode, Len, IsJumpInstr;
  }

  lemma RedirectedProg(u: Unit, p: nat, target: nat)
    requires CanPatch(u, p, target)
    ensures var v := Redirected(u, p, target);
            && |v.asm.code| == |u.asm.code| && v.asm.consts == u.asm.consts
            && v.asm.prog == u.asm.prog[p := Retarget(u.asm.prog[p], target - (p + Len(u.asm.prog[p])))]
            && (u.asm.prog[p].Goto? ==> Len(u.asm.prog[p]) == 3) && (u.asm.prog[p].GotoIfFalse? ==> Len(u.asm.prog[p]) == 4)
  {
  }

  lemma LogicalCode(e: Expr, dst: nat, u: Unit, v: Unit, v': Unit, v'': Unit, w: Unit)
    requires e.Logical? && HasCode(e.l, dst, u, v) && HasCode(e.r, dst, v', v'')
    requires v'.locals == u.locals && v'.regTop == u.regTop && |v'.asm.code| == |v.asm.code| + if e.isAnd then 4 else 7
    requires Same(v.asm.prog, w.asm.prog, |u.asm.code|, |v.asm.code|) && Extends(v.asm.consts, w.asm.consts)
    requires Same(v''.asm.prog, w.asm.prog, |v'.asm.code|, |v''.asm.code|) && Extends(v''.asm.consts, w.asm.consts)
    requires Circuit(e.isAnd, w.asm.prog, w.asm.consts, |v.asm.code|, |v''.asm.code|, dst)
    requires |w.asm.code| == |v''.asm.code| + 15
    ensures HasCode(e, dst, u, w)
  {
    hide *;
    if Simple(e) && Reads(e) <= u.locals.Keys {
      BinaryOperands(e, u.locals);
      CodeMoved(e.l, u, v, w, dst);
      CodeMoved(e.r, v', v'', w, dst);
      LogicalIs(e, w.asm.prog, w.asm.consts, |u.asm.code|, dst, u.regTop, u.locals);
      HasCodeIf(e, dst, u, w);
    } else {
      HasCodeUnless(e, dst, u, w);
    }
  }

  lemma CodeMoved(e: Expr, u: Unit, v: Unit, w: Unit, dst: nat)
    requires HasCode(e, dst, u, v) && Simple(e) && Reads(e) <= u.locals.Keys
    requires Same(v.asm.prog, w.asm.prog, |u.asm.code|, |v.asm.code|) && Extends(v.asm.consts, w.asm.consts)
    ensures CodeE(e, w.asm.prog, w.asm.consts, |u.asm.code|, dst, u.regTop, u.locals)
    ensures |v.asm.code| == |u.asm.code| + ESize(e, dst, u.regTop, u.locals)
  {
    var a, z := |u.asm.code|, |u.asm.code| + ESize(e, dst, u.regTop, u.locals);
    assert z == |v.asm.code|;
    hide Simple, Reads, CodeE, ESize, Same;
    CodeESame(e, v.asm.prog, w.asm.prog, v.asm.consts, w.asm.consts, a, dst, u.regTop, u.locals);
  }

  lemma AndCircuit(v: Unit, w: Unit, m: nat, n: nat, dst: nat)
    requires Tail(v, w, n, m, dst)
    ensures Circuit(true, w.asm.prog, w.asm.consts, m, n, dst)
  {
    hide Branches, Loads, Jumps;
  }

  lemma OrCircuit(v: Unit, w: Unit, m: nat, n: nat, dst: nat)
    requires Tail(v, w, n, -1, dst) && Branches(v.asm.prog, m, dst, m + 7) && Jumps(v.asm.prog, m + 4, n + 4) && m + 7 <= n
    ensures Circuit(false, w.asm.prog, w.asm.consts, m, n, dst)
  {
    hide Loads;
  }

  lemma CodeBelow(j: Job, v: Unit)
    requires Doing(j, v)
    ensures Below(v, |v.asm.code|)
  {
    DoingFacts(j, v);
    assert Ok(v.asm, |v.funcs|);
    OkStarts(v.asm, |v.funcs|);
    Verifier.StartsInRange(v.asm.code, 0);
    hide Ok, Doing, Fine, Keeps, Verifier.Starts;
  }

  /** Both operands tested: the branches on false stand at `n` and, unless -1, at `p`. */
  ghost predicate Branching(v: Unit, n: nat, p: int, dst: nat) {
    && |v.asm.code| == n + 4 && p + 4 <= n
    && n in v.asm.prog && v.asm.prog[n].GotoIfFalse? && v.asm.prog[n].r == dst
    && (p >= 0 ==> p in v.asm.prog && v.asm.prog[p].GotoIfFalse? && v.asm.prog[p].r == dst)
  }

  lemma BranchingSize(v: Unit, n: nat, p: int, dst: nat)
    requires Branching(v, n, p, dst)
    ensures |v.asm.code| == n + 4 && p + 4 <= n
  {
  }

  lemma BranchingParts(v: Unit, n: nat, p: int, dst: nat)
    requires Branching(v, n, p, dst)
    ensures |v.asm.code| == n + 4 && n in v.asm.prog && v.asm.prog[n].GotoIfFalse? && v.asm.prog[n].r == dst
    ensures p >= 0 ==> p + 4 <= n && p in v.asm.prog && v.asm.prog[p].GotoIfFalse? && v.asm.prog[p].r == dst
  {
  }

  lemma PutSize(v: Unit, i: Instr)
    ensures |Put(v, i).asm.code| == |v.asm.code| + Len(i) && (i.LoadConst? ==> Len(i) == 4)
  {
  }

  lemma EndIsPosition(v: Unit, j: Job, p: nat)
    requires Doing(j, v)
    ensures IsPosition(v.asm, |v.asm.code|) && |j.from.asm.code| <= |v.asm.code|
  {
    assert Keeps(j.from, v) && Grew(j.from.asm, v.asm);
  }

  lemma Tail1Facts(v: Unit, u: Unit, n: nat, p: int, dst: nat)
    requires Tail1(v, u, n, p, dst)
    ensures |u.asm.code| == n + 11 && n in u.asm.prog && IsJumpInstr(u.asm.prog[n]) && Len(u.asm.prog[n]) == 4
    ensures u.asm.prog[n].GotoIfFalse?
    ensures p >= 0 ==> p + 4 <= n && p in u.asm.prog && IsJumpInstr(u.asm.prog[p]) && Len(u.asm.prog[p]) == 4
  {
  }

  lemma StillBranch(u: Unit, p: nat, target: nat, n: nat, dst: nat)
    requires CanPatch(u, p, target) && n in u.asm.prog && u.asm.prog[n].GotoIfFalse? && n != p
    ensures var v := Redirected(u, p, target);
            n in v.asm.prog && IsJumpInstr(v.asm.prog[n]) && Len(v.asm.prog[n]) == 4 && |v.asm.code| == |u.asm.code|
            && v.regTop == u.regTop
  {
  }

  lemma Tail2Facts(v: Unit, u: Unit, n: nat, p: int, dst: nat)
    requires Tail2(v, u, n, p, dst)
    ensures |u.asm.code| == n + 11 && n + 8 in u.asm.prog && u.asm.prog[n + 8] == Goto(0)
  {
  }

  lemma StillJump(u: Unit, cs: seq<Constant>, d: Byte, k: nat, n: nat)
    requires |u.asm.code| == n + 11 && n + 8 in u.asm.prog && u.asm.prog[n + 8] == Goto(0)
    ensures var v := Put(Interned(u, cs), LoadConst(d, k));
            && n + 8 in v.asm.prog && IsJumpInstr(v.asm.prog[n + 8]) && Len(v.asm.prog[n + 8]) == 3 && |v.asm.code| == n + 15
            && v.regTop == u.regTop
  {
  }

  /** The steps of `a && b`: `v` after the first operand, `v'` after its branch, `v''`
      after the second operand, `w'` after its branch, `w` at the end. */
  lemma AndBranching(v: Unit, v': Unit, v'': Unit, w': Unit, d: Byte, d': Byte, dst: nat)
    requires v' == Put(v, GotoIfFalse(d, 0)) && Keeps(v', v'') && w' == Put(v'', GotoIfFalse(d', 0)) && d == d' == dst
    ensures Branching(w', |v''.asm.code|, |v.asm.code|, dst)
  {
    assert Len(GotoIfFalse(d, 0)) == 4 && Len(GotoIfFalse(d', 0)) == 4;
    assert |v'.asm.code| == |v.asm.code| + 4 <= |v''.asm.code|;
    assert |v.asm.code| in v'.asm.prog;
    hide Encode, Len;
  }

  lemma AndCode(e: Expr, dst: nat, u: Unit, v: Unit, v': Unit, v'': Unit, w': Unit, w: Unit, d: Byte, d': Byte)
    requires e.Logical? && e.isAnd && HasCode(e.l, dst, u, v) && HasCode(e.r, dst, v', v'')
    requires v' == Put(v, GotoIfFalse(d, 0)) && v.locals == u.locals && v.regTop == u.regTop
    requires Keeps(v, v') && Keeps(v', v'') && Keeps(v'', w') && w' == Put(v'', GotoIfFalse(d', 0)) && d == d' == dst
    requires Tail(w', w, |v''.asm.code|, |v.asm.code|, dst)
    ensures HasCode(e, dst, u, w)
  {
    hide *;
    var m, n := |v.asm.code|, |v''.asm.code|;
    PutAt(v, GotoIfFalse(d, 0));
    BranchLen(GotoIfFalse(d, 0));
    PutTop(v, GotoIfFalse(d, 0));
    KeepsTrans(v', v'', w');
    KeepsTrans(v, v', w');
    KeepsSizes(v', v'');
    TailKeeps(v, w', w, n, m, dst, |u.asm.code|, m);
    TailKeeps(v'', w', w, n, m, dst, |v'.asm.code|, n);
    AndCircuit(w', w, m, n, dst);
    LogicalCode(e, dst, u, v, v', v'', w);
  }

  lemma BranchLen(i: Instr)
    ensures (i.GotoIfFalse? ==> Len(i) == 4) && (i.Goto? ==> Len(i) == 3)
  {
  }

  lemma PutTop(v: Unit, i: Instr)
    ensures Put(v, i).regTop == v.regTop && Put(v, i).locals == v.locals
  {
  }

  lemma KeepsSizes(v: Unit, w: Unit)
    requires Keeps(v, w)
    ensures |v.asm.code| <= |w.asm.code|
  {
  }

  /** The tail leaves everything but the two branches as it was at `v`. */
  lemma TailKeeps(v: Unit, w': Unit, w: Unit, n: nat, p: int, dst: nat, a: nat, b: nat)
    requires Keeps(v, w') && Tail(w', w, n, p, dst) && b <= |v.asm.code| && b <= n && (p < a || b <= p)
    ensures Same(v.asm.prog, w.asm.prog, a, b) && Extends(v.asm.consts, w.asm.consts)
    ensures |w.asm.code| == n + 15
  {
    hide Branches, Jumps, Loads, Circuit;
  }

  /** The branch past the still open jump of `a || b`. */
  ghost predicate OrOpen(prog: Prog, m: nat, dst: nat) {
    Branches(prog, m, dst, m + 7) && m + 4 in prog && prog[m + 4] == Goto(0)
  }

  lemma RedirectedTop(u: Unit, p: nat, target: nat)
    requires CanPatch(u, p, target)
    ensures Redirected(u, p, target).regTop == u.regTop
  {
  }

  /** `a || b` before the second operand: a falsey `a` goes on after the jump. */
  lemma OrStart(v: Unit, v1: Unit, v2: Unit, v': Unit, d: Byte, dst: nat)
    requires v1 == Put(v, GotoIfFalse(d, 0)) && v2 == Put(v1, Goto(0)) && d == dst && Below(v, |v.asm.code|)
    requires CanPatch(v2, |v.asm.code|, |v2.asm.code|) && v' == Redirected(v2, |v.asm.code|, |v2.asm.code|)
    ensures var m := |v.asm.code|;
            && OrOpen(v'.asm.prog, m, dst) && |v'.asm.code| == m + 7
            && Keeps(v, v') && v'.regTop == v.regTop && v'.locals == v.locals
  {
    var m := |v.asm.code|;
    BranchLen(GotoIfFalse(d, 0));
    BranchLen(Goto(0));
    assert |v1.asm.code| == m + 4 && |v2.asm.code| == m + 7;
    RedirectedProg(v2, m, m + 7);
    assert Extends(v.asm.consts, v.asm.consts);
    hide CanPatch, Encode, Len, IsJumpInstr, Extends;
  }

  /** After the second operand and its branch at `n`, the jump at `m + 4` leads past it. */
  lemma OrBranching(v': Unit, v'': Unit, w1: Unit, w': Unit, m: nat, d: Byte, dst: nat)
    requires OrOpen(v'.asm.prog, m, dst) && |v'.asm.code| == m + 7
    requires Keeps(v', v'') && w1 == Put(v'', GotoIfFalse(d, 0)) && d == dst
    requires CanPatch(w1, m + 4, |w1.asm.code|) && w' == Redirected(w1, m + 4, |w1.asm.code|)
    ensures var n := |v''.asm.code|;
            && Branching(w', n, -1, dst) && m + 7 <= n
            && Branches(w'.asm.prog, m, dst, m + 7) && Jumps(w'.asm.prog, m + 4, n + 4)
  {
    BranchLen(GotoIfFalse(d, 0));
    BranchLen(Goto(0));
    var n := |v''.asm.code|;
    assert m in v''.asm.prog && v''.asm.prog[m] == v'.asm.prog[m];
    assert m + 4 in v''.asm.prog && v''.asm.prog[m + 4] == Goto(0);
    hide Keeps, Grew;
    RedirectedProg(w1, m + 4, n + 4);
    hide CanPatch, Redirected, Encode, Len, IsJumpInstr;
  }

  lemma OrSame(v'': Unit, w1: Unit, w': Unit, w: Unit, a: nat, m: nat, d: Byte, dst: nat)
    requires w1 == Put(v'', GotoIfFalse(d, 0)) && CanPatch(w1, m + 4, |w1.asm.code|) && w' == Redirected(w1, m + 4, |w1.asm.code|)
    requires Tail(w', w, |v''.asm.code|, -1, dst) && a >= m + 7
    ensures Same(v''.asm.prog, w.asm.prog, a, |v''.asm.code|) && Extends(v''.asm.consts, w.asm.consts)
  {
    RedirectedProg(w1, m + 4, |w1.asm.code|);
    hide CanPatch, Redirected, Encode, Len, IsJumpInstr, Branches, Jumps, Loads;
    forall q | a <= q < |v''.asm.code| && q in v''.asm.prog ensures q in w.asm.prog && w.asm.prog[q] == v''.asm.prog[q] {
      assert q in w1.asm.prog && w1.asm.prog[q] == v''.asm.prog[q];
      assert q in w'.asm.prog && w'.asm.prog[q] == v''.asm.prog[q];
    }
  }

  lemma OrKeeps(v: Unit, v': Unit, v'': Unit, w1: Unit, w': Unit, p: nat)
    requires Keeps(v, v') && Keeps(v', v'') && Keeps(v'', w1)
    requires CanPatch(w1, p, |w1.asm.code|) && w' == Redirected(w1, p, |w1.asm.code|) && p >= |v.asm.code|
    ensures Keeps(v, w')
  {
    hide *;
    KeepsTrans(v, v', v'');
    KeepsTrans(v, v'', w1);
    RedirectedKeeps(v, w1, p, |w1.asm.code|);
  }

  lemma OrCode(e: Expr, dst: nat, u: Unit, v: Unit, v': Unit, v'': Unit, w1: Unit, w': Unit, w: Unit, d: Byte)
    requires e.Logical? && !e.isAnd && HasCode(e.l, dst, u, v) && HasCode(e.r, dst, v', v'')
    requires v'.locals == u.locals && v'.regTop == u.regTop
    requires Keeps(v, v') && Keeps(v', v'') && Keeps(v'', w1) && |v'.asm.code| == |v.asm.code| + 7
    requires w1 == Put(v'', GotoIfFalse(d, 0)) && CanPatch(w1, |v.asm.code| + 4, |w1.asm.code|)
    requires w' == Redirected(w1, |v.asm.code| + 4, |w1.asm.code|)
    requires Branches(w'.asm.prog, |v.asm.code|, dst, |v.asm.code| + 7) && Jumps(w'.asm.prog, |v.asm.code| + 4, |v''.asm.code| + 4)
    requires Tail(w', w, |v''.asm.code|, -1, dst)
    ensures HasCode(e, dst, u, w)
  {
    hide *;
    var m, n := |v.asm.code|, |v''.asm.code|;
    OrKeeps(v, v', v'', w1, w', m + 4);
    KeepsSizes(v', v'');
    TailKeeps(v, w', w, n, -1, dst, |u.asm.code|, m);
    OrSame(v'', w1, w', w, |v'.asm.code|, m, d, dst);
    OrCircuit(w', w, m, n, dst);
    LogicalCode(e, dst, u, v, v', v'', w);
  }

  lemma FirstJumpStays(v: Unit, v1: Unit, v2: Unit, d: Byte)
    requires v1 == Put(v, GotoIfFalse(d, 0)) && v2 == Put(v1, Goto(0))
    ensures var m := |v.asm.code|;
            && m in v2.asm.prog && v2.asm.prog[m] == GotoIfFalse(d, 0) && IsJumpInstr(v2.asm.prog[m]) && Len(v2.asm.prog[m]) == 4
            && |v1.asm.code| == m + 4 && |v2.asm.code| == m + 7
  {
  }

  lemma JumpStays(v': Unit, v'': Unit, w: Unit, m: nat, d: Byte)
    requires OrOpen(v'.asm.prog, m, d) && m + 7 == |v'.asm.code| && Keeps(v', v'')
    requires w == Put(v'', GotoIfFalse(d, 0))
    ensures var p := m + 4; p in w.asm.prog && w.asm.prog[p] == Goto(0) && IsJumpInstr(w.asm.prog[p]) && Len(w.asm.prog[p]) == 3
    ensures |w.asm.code| == |v''.asm.code| + 4
  {
    assert Len(Goto(0)) == 3 && Len(GotoIfFalse(d, 0)) == 4;
    hide Encode, Len, Branches;
  }

  // ---- expressions outside the fragment ------------------------------------------------

  lemma NoCode(e: Expr, dst: nat, u: Unit, v: Unit)
    requires !Simple(e)
    ensures HasCode(e, dst, u, v)
  {
  }

  lemma FromLocals(j: Job, v: Unit)
    requires Doing(j, v) && v.regTop == j.from.regTop
    ensures LocalsBelow(j.from.locals, v.regTop)
  {
  }

  lemma KeepsHw(v: Unit, w: Unit)
    requires Keeps(v, w)
    ensures v.asm.hw <= w.asm.hw
  {
  }
}
