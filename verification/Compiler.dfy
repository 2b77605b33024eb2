/** The compiler: one pass over the tree emitting bytes, with registers handed out as a
    stack above the variables and forward jumps patched once their targets are known. */
module CompilerModel {
  import opened Bytecode
  import opened Decoder
  import opened Values
  import opened Ast
  import opened Source
  import opened CodeOf
  import opened Assembly
  import opened Building
  import opened ExprCode
  import opened StmtCode
  import opened LoopCode
  import opened FnCode

  const MAX_REG := 255
  const MAX_CONST := 65535
  const MAX_COUNT := 255

  /** Constants that intern as one: equal ones, and doubles that compare equal. */
  predicate SameConst(fp: FpOps, a: Constant, b: Constant) {
    if a.CDouble? && b.CDouble? then fp.eq(a.d, b.d) else a == b
  }

  class Compiler {
    const fp: FpOps
    const natives: map<string, (nat, nat)>  // least and most arguments of each builtin

    var code: seq<Byte>
    ghost var prog: Prog
    var consts: seq<Constant>
    var highWater: nat
    var regTop: nat
    var locals: Regs
    var loops: seq<Loop>
    var upvals: seq<string>
    var upvalSrc: seq<nat>
    var enclosing: seq<Regs>
    var funcs: seq<Function>
    var lambdaFunc: map<Expr, nat>
    var funcIndex: map<string, nat>
    var failed: bool
    ghost var done: set<nat>

    constructor (fp: FpOps, natives: map<string, (nat, nat)>)
      ensures Now() == Unit(Asm([], map[], [], 0), 0, map[], [], [], [], [], [], map[], map[], {}) && !failed
      ensures this.fp == fp && this.natives == natives
    {
      this.fp, this.natives := fp, natives;
      code, prog, consts, highWater, regTop := [], map[], [], 0, 0;
      locals, loops, upvals, upvalSrc, enclosing := map[], [], [], [], [];
      funcs, lambdaFunc, funcIndex, failed, done := [], map[], map[], false, {};
    }

    ghost function Now(): Unit
      reads this
    {
      Unit(Asm(code, prog, consts, highWater), regTop, locals, loops, upvals, upvalSrc, enclosing, funcs, lambdaFunc, funcIndex, done)
    }

    // ---- constants, registers, bytes -------------------------------------------------

    method Intern(c: Constant, ghost j: Job) returns (k: nat)
      requires !failed ==> Doing(j, Now())
      modifies this`consts, this`failed
      ensures old(failed) ==> failed
      ensures consts == old(consts) || consts == old(consts) + [c]
      ensures !failed ==> k < |consts| && k <= MAX_CONST && (SameConst(fp, consts[k], c) || consts[k] == c)
      ensures !failed ==> Doing(j, Now()) && Now() == Interned(old(Now()), consts)
    {
      hide Doing, SameConst, Keeps, Fine;
      if !failed { DoingFacts(j, Now()); }
      var i := 0;
      while i < |consts|
        invariant 0 <= i <= |consts|
      {
        if SameConst(fp, consts[i], c) {
          return i;
        }
        i := i + 1;
      }
      if !failed && |consts| < 65536 { DoingInterned(j, Now(), consts + [c]); }
      consts := consts + [c];
      k := |consts| - 1;
      if k > MAX_CONST {
        failed := true;
        k := 0;
      }
    }

    method Use(upto: nat, ghost j: Job)
      requires !failed ==> Doing(j, Now())
      modifies this`highWater
      ensures !failed ==> Doing(j, Now()) && Now() == Raised(old(Now()), upto)
    {
      hide Doing;
      if !failed { DoingRaised(j, Now(), upto); }
      if upto > highWater {
        highWater := upto;
      }
    }

    method Open(n: nat, ghost j: Job)
      requires !failed ==> Doing(j, Now())
      modifies this`highWater, this`regTop
      ensures regTop == old(regTop) + n
      ensures !failed ==> Doing(j, Now()) && Now() == Opened(old(Now()), n)
    {
      hide Doing;
      if !failed { DoingOpened(j, Now(), n); }
      regTop := regTop + n;
      if regTop > highWater {
        highWater := regTop;
      }
    }

    method Close(save: nat, ghost j: Job)
      requires !failed ==> Doing(j, Now()) && save <= regTop && LocalsBelow(j.from.locals, save)
      modifies this`regTop
      ensures regTop == save
      ensures !failed ==> Doing(j, Now()) && Now() == old(Now()).(regTop := save)
    {
      hide Doing, LocalsBelow;
      if !failed { DoingClosed(j, Now(), save); }
      regTop := save;
    }

    method Reg(r: nat) returns (b: Byte)
      modifies this`failed
      ensures old(failed) ==> failed
      ensures !failed ==> b == r
    {
      if r > MAX_REG {
        failed := true;
        return 0;
      }
      b := r;
    }

    method Emit(i: Instr, ghost j: Job)
      requires !failed ==> Doing(j, Now()) && Encodable(i) && InRange(consts, |funcs|, highWater, i)
      requires !failed ==> WritesOnly(i, j.w) && (IsJumpInstr(i) ==> i.off == 0)
      modifies this`code, this`prog
      ensures !failed ==> Doing(j, Now()) && Now() == Put(old(Now()), i) && Keeps(old(Now()), Now())
    {
      hide Doing, InRange, WritesOnly, Encodable, Keeps;
      if !failed {
        DoingPut(j, Now(), i);
        prog := prog[|code| := i];
        code := code + Encode(i);
      }
    }

    // ---- instructions by shape -----------------------------------------------------------

    method EmitTwo(op: Byte, r: nat, a: nat, ghost j: Job)
      requires op == MOVE || NEG <= op <= BNOT
      requires !failed ==> Doing(j, Now()) && r < highWater && a < highWater && Allows(j.w, r)
      modifies this`code, this`prog, this`failed
      ensures old(failed) ==> failed
      ensures !failed ==> r < 256 && a < 256 && Doing(j, Now()) && Now() == Put(old(Now()), Two(op, r, a)) && Keeps(old(Now()), Now())
    {
      hide Doing, Keeps, Put;
      var d := Reg(r);
      var s := Reg(a);
      Emit(Two(op, d, s), j);
    }

    method EmitThree(op: Byte, r: nat, a: nat, b: nat, ghost j: Job)
      requires IsThree(op)
      requires !failed ==> Doing(j, Now()) && r < highWater && a < highWater && b < highWater && (op == ARRAY_SET || Allows(j.w, r))
      modifies this`code, this`prog, this`failed
      ensures old(failed) ==> failed
      ensures !failed ==>
                r < 256 && a < 256 && b < 256 && Doing(j, Now())
                && Now() == Put(old(Now()), Three(op, r, a, b)) && Keeps(old(Now()), Now())
    {
      hide Doing, Keeps, Put;
      var d := Reg(r);
      var s := Reg(a);
      var t := Reg(b);
      Emit(Three(op, d, s, t), j);
    }

    /** Loads constant `c` into `r`. */
    method EmitConst(c: Constant, r: nat, ghost j: Job) returns (k: nat)
      requires !failed ==> Doing(j, Now()) && r < highWater && Allows(j.w, r)
      modifies this`code, this`prog, this`consts, this`failed
      ensures old(failed) ==> failed
      ensures !failed ==> k < |consts| && Extends(old(consts), consts) && (SameConst(fp, consts[k], c) || consts[k] == c)
      ensures !failed ==> r < 256 && Doing(j, Now()) && Now() == Put(Interned(old(Now()), consts), LoadConst(r, k))
    {
      hide Doing, Keeps, Put, SameConst;
      k := Intern(c, j);
      var d := Reg(r);
      Emit(LoadConst(d, k), j);
    }

    method EmitNil(r: nat, ghost j: Job)
      requires !failed ==> Doing(j, Now()) && r < highWater && Allows(j.w, r)
      modifies this`code, this`prog, this`failed
      ensures old(failed) ==> failed
      ensures !failed ==> r < 256 && Doing(j, Now()) && Now() == Put(old(Now()), LoadNil(r))
    {
      hide Doing, Keeps, Put;
      var d := Reg(r);
      Emit(LoadNil(d), j);
    }

    method EmitGetProp(r: nat, a: nat, name: string, ghost j: Job)
      requires !failed ==> Doing(j, Now()) && r < highWater && a < highWater && Allows(j.w, r)
      modifies this`code, this`prog, this`consts, this`failed
      ensures old(failed) ==> failed
      ensures !failed ==> Doing(j, Now())
    {
      hide Doing, Keeps, Put, SameConst;
      var k := Intern(CStr(name), j);
      var d := Reg(r);
      var c := Reg(a);
      if !failed { StringConst(consts[k], name); }
      Emit(GetProp(d, c, k), j);
    }

    method EmitSetProp(r: nat, name: string, a: nat, ghost j: Job)
      requires !failed ==> Doing(j, Now()) && r < highWater && a < highWater
      modifies this`code, this`prog, this`consts, this`failed
      ensures old(failed) ==> failed
      ensures !failed ==> Doing(j, Now())
    {
      hide Doing, Keeps, Put, SameConst;
      var k := Intern(CStr(name), j);
      var d := Reg(r);
      var v := Reg(a);
      if !failed { StringConst(consts[k], name); }
      Emit(SetProp(d, k, v), j);
    }

    lemma StringConst(c: Constant, s: string)
      requires SameConst(fp, c, CStr(s)) || c == CStr(s)
      ensures c == CStr(s)
    {
    }

    method EmitPush(r: nat, a: nat, ghost j: Job)
      requires !failed ==> Doing(j, Now()) && r < highWater && a < highWater
      modifies this`code, this`prog, this`failed
      ensures old(failed) ==> failed
      ensures !failed ==> Doing(j, Now())
    {
      hide Doing, Keeps, Put;
      var d := Reg(r);
      var v := Reg(a);
      Emit(Push(d, v), j);
    }

    /** PRINT or RET of one register. */
    method EmitOut(ret: bool, r: nat, ghost j: Job) returns (b: Byte)
      requires !failed ==> Doing(j, Now()) && r < highWater && j.w == Any
      modifies this`code, this`prog, this`failed
      ensures old(failed) ==> failed
      ensures !failed ==> Doing(j, Now()) && b == r && Now() == Put(old(Now()), if ret then Ret(b) else Instr.Print(b)) && Keeps(old(Now()), Now())
    {
      hide Doing, Keeps, Put;
      b := Reg(r);
      Emit(if ret then Ret(b) else Instr.Print(b), j);
    }

    /** Emits a jump with an empty operand; `pos` is where to patch it. */
    method EmitGoto(ghost j: Job) returns (pos: nat)
      requires !failed ==> Doing(j, Now())
      modifies this`code, this`prog
      ensures !failed ==> Doing(j, Now()) && Now() == Put(old(Now()), Goto(0)) && Keeps(old(Now()), Now()) && pos == old(|code|) + 1
    {
      hide Doing, Keeps, Put;
      pos := |code| + 1;
      Emit(Goto(0), j);
    }

    method EmitIfFalse(r: nat, ghost j: Job) returns (pos: nat)
      requires !failed ==> Doing(j, Now()) && r < highWater
      modifies this`code, this`prog, this`failed
      ensures old(failed) ==> failed
      ensures !failed ==>
                r < 256 && Doing(j, Now()) && Now() == Put(old(Now()), GotoIfFalse(r, 0)) && Keeps(old(Now()), Now())
                && pos == old(|code|) + 2
    {
      hide Doing, Keeps, Put;
      pos := |code| + 2;
      var d := Reg(r);
      Emit(GotoIfFalse(d, 0), j);
    }

    /** Patches the jump at `p`, whose operand is at `pos`, to lead to `target`. */
    method PatchTo(pos: nat, target: nat, ghost p: nat, ghost j: Job)
      requires !failed ==> Doing(j, Now()) && p in prog && IsJumpInstr(prog[p]) && pos + 2 == p + Len(prog[p]) <= |code|
      requires !failed ==> |j.from.asm.code| <= p && |j.from.asm.code| <= target <= |code| && IsPosition(Now().asm, target)
      modifies this`code, this`prog, this`failed
      ensures old(failed) ==> failed
      ensures !failed ==> CanPatch(old(Now()), p, target) && Doing(j, Now()) && Now() == Redirected(old(Now()), p, target)
    {
      hide Doing, IsPosition;
      if failed {
        return;
      }
      var rel := target - (pos + 2);
      if rel < -32768 || rel > 32767 {
        failed := true;
        return;
      }
      DoingRedirected(j, Now(), p, target);
      code := code[pos := Lo(rel)][pos + 1 := Hi(rel)];
      prog := prog[p := Retarget(prog[p], rel)];
    }
  
    /** patch_jump: to the end of the code so far. */
    method PatchHere(pos: nat, ghost p: nat, ghost j: Job)
      requires !failed ==> Doing(j, Now()) && p in prog && IsJumpInstr(prog[p]) && pos + 2 == p + Len(prog[p]) <= |code|
      requires !failed ==> |j.from.asm.code| <= p
      modifies this`code, this`prog, this`failed
      ensures old(failed) ==> failed
      ensures !failed ==> CanPatch(old(Now()), p, old(|code|)) && Doing(j, Now()) && Now() == Redirected(old(Now()), p, old(|code|))
    {
      hide Doing, Redirected, CanPatch;
      if !failed { EndIsPosition(Now(), j, p); }
      PatchTo(pos, |code|, p, j);
    }

    // ---- expressions -----------------------------------------------------------------------

    /** Resolves `name` as a variable captured from the immediately enclosing function. */
    method FindOrAddUpvalue(name: string, ghost j: Job) returns (idx: int)
      requires !failed ==> Doing(j, Now())
      modifies this`upvals, this`upvalSrc, this`failed
      ensures old(failed) ==> failed
      ensures -1 <= idx
      ensures !failed ==> Doing(j, Now()) && Now() == old(Now()).(upvals := upvals, upvalSrc := upvalSrc)
      ensures !failed && idx >= 0 ==> idx < |upvals| && upvals[idx] == name
      ensures !failed && idx >= 0 && name !in old(upvals) ==>
                enclosing != [] && name in enclosing[|enclosing| - 1] &&
                upvals == old(upvals) + [name] && upvalSrc == old(upvalSrc) + [enclosing[|enclosing| - 1][name]]
      ensures !failed && (idx == -1 || name in old(upvals)) ==> upvals == old(upvals) && upvalSrc == old(upvalSrc)
      ensures !failed && idx == -1 ==> enclosing == [] || (name !in upvals && name !in enclosing[|enclosing| - 1])
    {
      hide Doing, Keeps, Fine;
      if !failed { DoingFacts(j, Now()); }
      if enclosing == [] {
        return -1;
      }
      var i := 0;
      while i < |upvals|
        invariant 0 <= i <= |upvals| && name !in upvals[..i]
      {
        if upvals[i] == name {
          return i;
        }
        i := i + 1;
      }
      var parent := enclosing[|enclosing| - 1];
      if name !in parent {
        return -1;
      }
      idx := |upvals|;
      if idx > MAX_COUNT {
        failed := true;
        return -1;
      }
      if !failed { DoingCaptured(j, Now(), name, parent[name]); }
      upvals := upvals + [name];
      upvalSrc := upvalSrc + [parent[name]];
    }

    /** compile_expr: emits code that leaves the value of `e` in register `dst`. */
    method Expr(e: Expr, dst: nat)
      requires !failed ==> Fine(Now()) && dst < regTop
      modifies this
      ensures old(failed) ==> failed
      ensures !failed ==> ExprDone(e, dst, old(Now()), Now())
      decreases e, 3
    {
      hide Fine, ExprDone;
      if failed {
        return;
      }
      match e
      case IntLit(i) => Literal(e, CInt(i), dst);
      case FloatLit(d) => Literal(e, CDouble(d), dst);
      case StrLit(s) => Literal(e, CStr(s), dst);
      case BoolLit(b) => Literal(e, CBool(b), dst);
      case NilLit => Nil(dst);
      case Ident(x) => Identifier(x, dst);
      case Lambda(_, _, _) => LambdaExpr(e, dst);
      case Binary(_, _, _) => BinaryOp(e, dst);
      case Unary(_, _) => UnaryOp(e, dst);
      case Logical(isAnd, _, _) => if isAnd { And(e, dst); } else { Or(e, dst); }
      case Index(_, _) => Subscript(e, dst);
      case Field(_, _) => Property(e, dst);
      case ArrayLit(_) => Array(e, dst);
      case MapLit(_) => MapLiteral(e, dst);
      case Call(_, _) => Invoke(e, dst);
      case Assign(_, _) => failed := true;  // not an expression
    }

    /** A part of an expression, into register `d`. */
    method Operand(e: Expr, d: nat, ghost j: Job)
      requires !failed ==> Doing(j, Now()) && d < regTop && Narrower(Only(d, regTop), j.w)
      modifies this
      ensures old(failed) ==> failed
      ensures !failed ==> Doing(j.(ms := j.ms + MarksE(e, true)), Now()) && ExprDone(e, d, old(Now()), Now()) && Keeps(old(Now()), Now())
      ensures !failed ==> regTop == old(regTop)
      decreases e, 4
    {
      hide Fine, Doing, Keeps, Narrower, HasCode, Confined, LamsDone;
      ghost var u := Now();
      if !failed { DoingFacts(j, u); }
      Expr(e, d);
      if !failed { DoingExpr(j, u, e, d, Now()); }
    }

    method Literal(e: Expr, c: Constant, dst: nat)
      requires match c
               case CInt(i) => e == IntLit(i)
               case CDouble(d) => e == FloatLit(d)
               case CStr(s) => e == StrLit(s)
               case CBool(b) => e == BoolLit(b)
               case CNil => false
      requires !failed ==> Fine(Now()) && dst < regTop
      modifies this
      ensures old(failed) ==> failed
      ensures !failed ==> ExprDone(e, dst, old(Now()), Now())
    {
      hide Fine, Doing, Keeps, ExprDone, HasCode, SameConst;
      ghost var u := Now();
      ghost var j := Job(u, Only(dst, regTop), []);
      if !failed { DoingStarts(u, j.w); DoingFacts(j, u); }
      var k := EmitConst(c, dst, j);
      if !failed {
        LiteralHasCode(e, c, dst, u, consts, k);
        ExprFinished(e, dst, j, Now());
      }
    }

    lemma LiteralHasCode(e: Expr, c: Constant, dst: nat, u: Unit, cs: seq<Constant>, k: nat)
      requires match c
               case CInt(i) => e == IntLit(i)
               case CDouble(d) => e == FloatLit(d)
               case CStr(s) => e == StrLit(s)
               case CBool(b) => e == BoolLit(b)
               case CNil => false
      requires k < |cs| && dst < 256 && (SameConst(fp, cs[k], c) || cs[k] == c)
      ensures HasCode(e, dst, u, Put(Interned(u, cs), LoadConst(dst, k))) && MarksE(e, true) == []
    {
      if c.CInt? || c.CBool? {
        assert cs[k] == c;
        LiteralCode(e, dst, u, cs, dst, k, c);
      }
    }

    method Nil(dst: nat)
      requires !failed ==> Fine(Now()) && dst < regTop
      modifies this
      ensures old(failed) ==> failed
      ensures !failed ==> ExprDone(NilLit, dst, old(Now()), Now())
    {
      hide Fine, Doing, Keeps, ExprDone, HasCode, Put;
      ghost var u := Now();
      ghost var j := Job(u, Only(dst, regTop), []);
      if !failed { DoingStarts(u, j.w); DoingFacts(j, u); }
      EmitNil(dst, j);
      if !failed {
        NilCode(dst, u, dst);
        NilKeepsTop(u, dst);
        ExprFinished(NilLit, dst, j, Now());
      }
    }

    lemma NilKeepsTop(u: Unit, dst: Byte)
      ensures Put(u, LoadNil(dst)).regTop == u.regTop && MarksE(NilLit, true) == []
    {
    }

    method Identifier(x: string, dst: nat)
      requires !failed ==> Fine(Now()) && dst < regTop
      modifies this
      ensures old(failed) ==> failed
      ensures !failed ==> ExprDone(Ident(x), dst, old(Now()), Now())
    {
      hide Fine, Doing, Keeps, ExprDone, HasCode;
      ghost var u := Now();
      ghost var j := Job(u, Only(dst, regTop), []);
      if !failed { DoingStarts(u, j.w); DoingFacts(j, u); }
      if x in locals {
        if !failed { LocalAt(u, x); }
        if dst != locals[x] {
          EmitTwo(MOVE, dst, locals[x], j);
        }
        if !failed { VariableHasCode(x, dst, u, Now()); }
      } else {
        NotAVariable(x, dst, j);
        if !failed { OtherHasCode(Ident(x), dst, u, Now()); }
      }
      if !failed { ExprFinished(Ident(x), dst, j, Now()); }
    }

    lemma VariableHasCode(x: string, dst: nat, u: Unit, v: Unit)
      requires x in u.locals
      requires u.locals[x] == dst ==> v == u
      requires u.locals[x] != dst ==> dst < 256 && u.locals[x] < 256 && v == Put(u, Two(MOVE, dst, u.locals[x]))
      ensures HasCode(Ident(x), dst, u, v) && MarksE(Ident(x), true) == []
    {
      hide HasCode;
      if u.locals[x] == dst { VariableCode(x, dst, u, v, 0, 0); } else { VariableCode(x, dst, u, v, dst, u.locals[x]); }
    }

    lemma OtherHasCode(e: Expr, dst: nat, u: Unit, v: Unit)
      requires e.Ident? && e.name !in u.locals
      ensures HasCode(e, dst, u, v) && MarksE(e, true) == []
    {
    }

    /** A captured variable, or a function used as a value. */
    method NotAVariable(x: string, dst: nat, ghost j: Job)
      requires !failed ==> Doing(j, Now()) && dst < highWater && Allows(j.w, dst)
      modifies this
      ensures old(failed) ==> failed
      ensures !failed ==> Doing(j, Now()) && regTop == old(regTop)
    {
      hide Fine, Doing, Keeps;
      var idx := FindOrAddUpvalue(x, j);
      if failed {
        return;
      }
      DoingFacts(j, Now());
      if idx >= 0 {
        EmitUpval(dst, idx, j);
      } else if x in funcIndex {
        FunctionAt(Now(), x);
        EmitClosure(dst, funcIndex[x], [], j);
      } else {
        failed := true;  // a builtin is no value, or the variable is undefined
      }
    }

    method EmitUpval(r: nat, idx: nat, ghost j: Job)
      requires !failed ==> Doing(j, Now()) && r < highWater && Allows(j.w, r)
      modifies this`code, this`prog, this`failed
      ensures old(failed) ==> failed
      ensures !failed ==> r < 256 && idx < 256 && Doing(j, Now()) && Now() == Put(old(Now()), GetUpval(r, idx)) && Keeps(old(Now()), Now())
    {
      hide Doing, Keeps, Put;
      var d := Reg(r);
      var n := Reg(idx);
      Emit(GetUpval(d, n), j);
    }

    /** A closure over the registers `srcs` of the current function. */
    method EmitClosure(r: nat, f: nat, srcs: seq<nat>, ghost j: Job)
      requires !failed ==> Doing(j, Now()) && r < highWater && Allows(j.w, r) && f < |funcs|
      requires !failed ==> forall i :: 0 <= i < |srcs| ==> srcs[i] < highWater
      modifies this`code, this`prog, this`failed
      ensures old(failed) ==> failed
      ensures !failed ==> Doing(j, Now()) && Keeps(old(Now()), Now())
    {
      hide Doing, Keeps, Put;
      if f > 65535 {
        failed := true;
      }
      var d := Reg(r);
      var bytes: seq<Byte> := [];
      var i := 0;
      if |srcs| > MAX_COUNT {
        failed := true;
        return;
      }
      while i < |srcs|
        invariant 0 <= i <= |srcs| && |bytes| == i && (old(failed) ==> failed) && (!failed ==> d == r && f <= 65535)
        invariant !failed ==> forall k :: 0 <= k < i ==> bytes[k] == srcs[k]
        invariant Now() == old(Now())
      {
        var b := Reg(srcs[i]);
        bytes := bytes + [b];
        i := i + 1;
      }
      if !failed { ClosureInRange(d, f, bytes); }
      Emit(Closure(d, f, bytes), j);
    }

    lemma ClosureInRange(d: Byte, f: nat, bytes: seq<Byte>)
      requires d < highWater && f < |funcs| && forall k :: 0 <= k < |bytes| ==> bytes[k] < highWater
      ensures InRange(consts, |funcs|, highWater, Closure(d, f, bytes))
    {
    }

    method BinaryOp(e: Expr, dst: nat)
      requires e.Binary? && (!failed ==> Fine(Now()) && dst < regTop)
      modifies this
      ensures old(failed) ==> failed
      ensures !failed ==> ExprDone(e, dst, old(Now()), Now())
      decreases e, 2
    {
      hide Fine, Doing, Keeps, HasCode, LamsDone, Confined, LocalsBelow, Put;
      ghost var u := Now();
      ghost var j := Job(u, Only(dst, regTop), []);
      var save := regTop;
      if !failed { DoingStarts(u, j.w); FineLocals(u); }
      Open(2, j);
      ghost var v := Now();
      Operand(e.l, save, j);
      j := j.(ms := j.ms + MarksE(e.l, true));
      ghost var v' := Now();
      if !failed { DoingFacts(j, v'); }
      Operand(e.r, save + 1, j);
      j := j.(ms := j.ms + MarksE(e.r, true));
      ghost var v'' := Now();
      if !failed { DoingFacts(j, v''); }
      EmitThree(BinOpcode(e.op), dst, save, save + 1, j);
      Close(save, j);
      if !failed {
        BinaryCode(e, dst, u, v, v', v'', Three(BinOpcode(e.op), dst, save, save + 1), Now());
        assert j.ms == MarksE(e, true);
        ExprFinished(e, dst, j, Now());
      }
    }

    method UnaryOp(e: Expr, dst: nat)
      requires e.Unary? && (!failed ==> Fine(Now()) && dst < regTop)
      modifies this
      ensures old(failed) ==> failed
      ensures !failed ==> ExprDone(e, dst, old(Now()), Now())
      decreases e, 2
    {
      hide Fine, Doing, Keeps, HasCode, LamsDone, Confined, LocalsBelow, Put;
      ghost var u := Now();
      ghost var j := Job(u, Only(dst, regTop), []);
      var save := regTop;
      if !failed { DoingStarts(u, j.w); FineLocals(u); }
      Open(1, j);
      ghost var v := Now();
      Operand(e.e, save, j);
      j := j.(ms := j.ms + MarksE(e.e, true));
      ghost var v' := Now();
      if !failed { DoingFacts(j, v'); }
      EmitTwo(UnOpcode(e.uop), dst, save, j);
      Close(save, j);
      if !failed {
        UnaryCode(e, dst, u, v, v', Two(UnOpcode(e.uop), dst, save), Now());
        assert j.ms == MarksE(e, true);
        ExprFinished(e, dst, j, Now());
      }
    }

    /** Both operands are in `dst` when tested; only a branch on false is available. */
    method And(e: Expr, dst: nat)
      requires e.Logical? && e.isAnd && (!failed ==> Fine(Now()) && dst < regTop)
      modifies this
      ensures old(failed) ==> failed
      ensures !failed ==> ExprDone(e, dst, old(Now()), Now())
      decreases e, 2
    {
      hide Fine, Doing, Keeps, HasCode, LamsDone, Confined, LocalsBelow, Put;
      ghost var u := Now();
      ghost var j := Job(u, Only(dst, regTop), []);
      if !failed { DoingStarts(u, j.w); }
      Operand(e.l, dst, j);
      j := j.(ms := j.ms + MarksE(e.l, true));
      ghost var v := Now();
      if !failed { DoingFacts(j, v); }
      var jf1 := EmitIfFalse(dst, j);
      ghost var v' := Now();
      if !failed { DoingFacts(j, v'); }
      Operand(e.r, dst, j);
      j := j.(ms := j.ms + MarksE(e.r, true));
      ghost var v'' := Now();
      if !failed { DoingFacts(j, v''); }
      var jf2 := EmitIfFalse(dst, j);
      ghost var w := Now();
      if !failed { DoingFacts(j, w); AndBranching(v, v', v'', w, dst, dst, dst); KeepsSizes(u, v); KeepsSizes(u, v''); }
      CircuitEnd(dst, jf1, true, jf2, |v''.asm.code|, |v.asm.code|, j);
      if !failed {
        AndCode(e, dst, u, v, v', v'', w, Now(), dst, dst);
        assert j.ms == MarksE(e, true);
        ExprFinished(e, dst, j, Now());
      }
    }

    method Or(e: Expr, dst: nat)
      requires e.Logical? && !e.isAnd && (!failed ==> Fine(Now()) && dst < regTop)
      modifies this
      ensures old(failed) ==> failed
      ensures !failed ==> ExprDone(e, dst, old(Now()), Now())
      decreases e, 2
    {
      hide Fine, Doing, Keeps, HasCode, LamsDone, Confined, LocalsBelow, Put, Redirected, OrOpen, Below;
      ghost var u := Now();
      ghost var j := Job(u, Only(dst, regTop), []);
      if !failed { DoingStarts(u, j.w); }
      Operand(e.l, dst, j);
      j := j.(ms := j.ms + MarksE(e.l, true));
      ghost var v := Now();
      if !failed { DoingFacts(j, v); CodeBelow(j, v); }
      var jtrue := OrBranch(dst, j);
      ghost var v' := Now();
      if !failed { DoingFacts(j, v'); }
      Operand(e.r, dst, j);
      j := j.(ms := j.ms + MarksE(e.r, true));
      ghost var v'' := Now();
      if !failed { DoingFacts(j, v''); }
      OrEnd(e, dst, jtrue, u, v, v', j);
    }

    method OrEnd(e: Expr, dst: nat, jtrue: nat, ghost u: Unit, ghost v: Unit, ghost v': Unit, ghost j: Job)
      requires e.Logical? && !e.isAnd && j == Job(u, Only(dst, u.regTop), MarksE(e, true))
      requires !failed ==> Doing(j, Now()) && dst < highWater && regTop == u.regTop
      requires !failed ==> HasCode(e.l, dst, u, v) && HasCode(e.r, dst, v', Now()) && v'.locals == u.locals && v'.regTop == u.regTop
      requires !failed ==> Keeps(u, v) && Keeps(v, v') && Keeps(v', Now()) && |v'.asm.code| == |v.asm.code| + 7
      requires !failed ==> OrOpen(v'.asm.prog, |v.asm.code|, dst) && jtrue == |v.asm.code| + 5
      modifies this
      ensures old(failed) ==> failed
      ensures !failed ==> ExprDone(e, dst, u, Now())
    {
      hide Fine, Doing, Keeps, HasCode, LamsDone, Confined, LocalsBelow, Put, Redirected, CanPatch, Branches, Jumps, Branching, Below,
           OrOpen, ExprDone;
      ghost var v'', m := Now(), |v.asm.code|;
      var jfalse := EmitIfFalse(dst, j);
      ghost var w1 := Now();
      if !failed { JumpStays(v', v'', w1, m, dst); KeepsSizes(u, v); KeepsSizes(v', v''); }
      PatchHere(jtrue, m + 4, j);
      ghost var w := Now();
      if !failed { DoingFacts(j, w); OrBranching(v', v'', w1, w, m, dst, dst); RedirectedTop(w1, m + 4, |w1.asm.code|); }
      CircuitEnd(dst, 0, false, jfalse, |v''.asm.code|, -1, j);
      if !failed {
        OrCode(e, dst, u, v, v', v'', w1, w, Now(), dst);
        ExprFinished(e, dst, j, Now());
      }
    }

    /** A falsey first operand goes on with the second, a truthy one jumps. */
    method OrBranch(dst: nat, ghost j: Job) returns (jtrue: nat)
      requires !failed ==> Doing(j, Now()) && dst < highWater && Below(Now(), |code|)
      modifies this`code, this`prog, this`failed
      ensures old(failed) ==> failed
      ensures !failed ==> Doing(j, Now()) && Keeps(old(Now()), Now()) && jtrue == old(|code|) + 5 && |code| == old(|code|) + 7
      ensures !failed ==> OrOpen(prog, old(|code|), dst) && regTop == old(regTop)
    {
      hide Fine, Doing, Keeps, Put, Redirected, CanPatch, OrOpen, Below;
      ghost var v := Now();
      var jcheckb := EmitIfFalse(dst, j);
      ghost var v1 := Now();
      jtrue := EmitGoto(j);
      ghost var v2 := Now();
      if !failed { FirstJumpStays(v, v1, v2, dst); EndIsPosition(v, j, 0); }
      PatchHere(jcheckb, |v.asm.code|, j);
      if !failed { OrStart(v, v1, v2, Now(), dst, dst); }
    }

    /** The end of a short-circuit operator whose second branch stands at `n`: the branches
        lead to the load of false. */
    method CircuitEnd(dst: nat, first: nat, both: bool, second: nat, ghost n: nat, ghost p: int, ghost j: Job)
      requires !failed ==> Doing(j, Now()) && dst < highWater && Allows(j.w, dst)
      requires !failed ==> n >= |j.from.asm.code| && second == n + 2 && (both ==> p >= |j.from.asm.code| && first == p + 2)
      requires p >= -1 && (both <==> p >= 0)
      requires !failed ==> Branching(Now(), n, p, dst)
      modifies this
      ensures old(failed) ==> failed
      ensures !failed ==> Doing(j, Now()) && Tail(old(Now()), Now(), n, p, dst) && regTop == old(regTop)
    {
      hide Fine, Doing, Keeps, Tail, Tail1, Tail2, CanPatch, Redirected, Put, Branching;
      ghost var v := Now();
      if !failed { CodeBelow(j, v); BranchingSize(v, n, p, dst); }
      var end := TrueArm(dst, n, p, j);
      ghost var u := Now();
      PatchBranches(first, both, second, v, n, p, dst, j);
      if !failed { Tail2Facts(v, Now(), n, p, dst); }
      FalseArm(dst, end, v, n, p, j);
    }

    method TrueArm(dst: nat, ghost n: nat, ghost p: int, ghost j: Job) returns (end: nat)
      requires !failed ==> Doing(j, Now()) && dst < highWater && Allows(j.w, dst) && Branching(Now(), n, p, dst) && Below(Now(), n + 4)
      modifies this`code, this`prog, this`consts, this`failed
      ensures old(failed) ==> failed
      ensures !failed ==> Doing(j, Now()) && Tail1(old(Now()), Now(), n, p, dst) && end == n + 9
    {
      hide Fine, Doing, Keeps, Tail1, Put, Branching, Below;
      ghost var v := Now();
      if !failed { BranchingSize(v, n, p, dst); }
      var k := EmitConst(CBool(true), dst, j);
      ghost var u := Now();
      end := EmitGoto(j);
      if !failed {
        BranchingParts(v, n, p, dst);
        Tail1Holds(v, u, Now(), n, p, dst, u.asm.consts, dst, k);
        PutSize(Interned(v, u.asm.consts), LoadConst(dst, k));
      }
    }

    method PatchBranches(first: nat, both: bool, second: nat, ghost v: Unit, ghost n: nat, ghost p: int, ghost dst: nat, ghost j: Job)
      requires p >= -1 && (both <==> p >= 0)
      requires !failed ==> Doing(j, Now()) && Tail1(v, Now(), n, p, dst) && Below(v, n + 4)
      requires !failed ==> n >= |j.from.asm.code| && second == n + 2 && (both ==> p >= |j.from.asm.code| && first == p + 2)
      modifies this`code, this`prog, this`failed
      ensures old(failed) ==> failed
      ensures !failed ==> Doing(j, Now()) && Tail2(v, Now(), n, p, dst)
    {
      hide Fine, Doing, Keeps, Tail1, Tail2, CanPatch, Redirected, Below;
      ghost var u := Now();
      if !failed { Tail1Facts(v, u, n, p, dst); }
      if both {
        PatchHere(first, p, j);
        if !failed { StillBranch(u, p, n + 11, n, dst); }
      }
      ghost var u' := Now();
      PatchHere(second, n, j);
      if !failed {
        if both { Tail2Both(v, u, u', Now(), n, p, dst); } else { Tail2Alone(v, u, Now(), n, dst); }
      }
    }

    method FalseArm(dst: nat, end: nat, ghost v: Unit, ghost n: nat, ghost p: int, ghost j: Job)
      requires !failed ==> Doing(j, Now()) && dst < highWater && Allows(j.w, dst) && Tail2(v, Now(), n, p, dst) && Below(v, n + 4)
      requires !failed ==> end == n + 9 && n >= |j.from.asm.code| && p + 4 <= n
      modifies this`code, this`prog, this`consts, this`failed
      ensures old(failed) ==> failed
      ensures !failed ==> Doing(j, Now()) && Tail(v, Now(), n, p, dst)
    {
      hide Fine, Doing, Keeps, Tail, Tail2, CanPatch, Redirected, Put, Below;
      ghost var u := Now();
      if !failed { Tail2Facts(v, u, n, p, dst); }
      var k := EmitConst(CBool(false), dst, j);
      ghost var u' := Now();
      if !failed { StillJump(u, consts, dst, k, n); }
      PatchHere(end, n + 8, j);
      if !failed { TailHolds(v, u, u', Now(), n, p, dst, u'.asm.consts, dst, k); }
    }
  
    // ---- indexing, literals, calls -----------------------------------------------------------

    method Subscript(e: Expr, dst: nat)
      requires e.Index? && (!failed ==> Fine(Now()) && dst < regTop)
      modifies this
      ensures old(failed) ==> failed
      ensures !failed ==> ExprDone(e, dst, old(Now()), Now())
      decreases e, 2
    {
      hide Fine, Doing, Keeps, HasCode, LamsDone, Confined, LocalsBelow, Put;
      ghost var u := Now();
      ghost var j := Job(u, Only(dst, regTop), []);
      var save := regTop;
      if !failed { DoingStarts(u, j.w); FineLocals(u); }
      Open(2, j);
      Operand(e.c, save, j);
      j := j.(ms := j.ms + MarksE(e.c, true));
      Operand(e.ix, save + 1, j);
      j := j.(ms := j.ms + MarksE(e.ix, true));
      if !failed { DoingFacts(j, Now()); }
      EmitThree(ARRAY_GET, dst, save, save + 1, j);
      Close(save, j);
      if !failed {
        NoCode(e, dst, u, Now());
        assert j.ms == MarksE(e, true);
        ExprFinished(e, dst, j, Now());
      }
    }

    method Property(e: Expr, dst: nat)
      requires e.Field? && (!failed ==> Fine(Now()) && dst < regTop)
      modifies this
      ensures old(failed) ==> failed
      ensures !failed ==> ExprDone(e, dst, old(Now()), Now())
      decreases e, 2
    {
      hide Fine, Doing, Keeps, HasCode, LamsDone, Confined, LocalsBelow, Put, SameConst;
      ghost var u := Now();
      ghost var j := Job(u, Only(dst, regTop), []);
      var save := regTop;
      if !failed { DoingStarts(u, j.w); FineLocals(u); }
      Open(1, j);
      Operand(e.c, save, j);
      j := j.(ms := j.ms + MarksE(e.c, true));
      if !failed { DoingFacts(j, Now()); }
      EmitGetProp(dst, save, e.name, j);
      Close(save, j);
      if !failed {
        NoCode(e, dst, u, Now());
        assert j.ms == MarksE(e, true);
        ExprFinished(e, dst, j, Now());
      }
    }

    method Array(e: Expr, dst: nat)
      requires e.ArrayLit? && (!failed ==> Fine(Now()) && dst < regTop)
      modifies this
      ensures old(failed) ==> failed
      ensures !failed ==> ExprDone(e, dst, old(Now()), Now())
      decreases e, 2
    {
      hide Fine, Doing, Keeps, HasCode, LamsDone, Confined, Put;
      ghost var u := Now();
      ghost var j := Job(u, Only(dst, regTop), []);
      if !failed { DoingStarts(u, j.w); DoingFacts(j, u); }
      var d := Reg(dst);
      var n := Reg(Ast.Count(e.elems));
      Emit(NewArray(d, n), j);
      Elements(e.elems, 0, dst, j);
      if !failed {
        NoCode(e, dst, u, Now());
        assert [] + MarksList(e.elems, true) == MarksE(e, true);
        ExprFinished(e, dst, j.(ms := j.ms + MarksList(e.elems, true)), Now());
      }
    }

    /** Stores the remaining elements, from index `idx` on, into the array in `dst`. */
    method Elements(es: Exprs, idx: nat, dst: nat, ghost j: Job)
      requires !failed ==> Doing(j, Now()) && dst < regTop && regTop == j.from.regTop && j.w == Only(dst, regTop)
      modifies this
      ensures old(failed) ==> failed
      ensures !failed ==> Doing(j.(ms := j.ms + MarksList(es, true)), Now()) && regTop == j.from.regTop
      decreases es, 5
    {
      hide Fine, Doing, Keeps, ExprDone, LocalsBelow, Put, SameConst;
      if es.ENil? {
        assert j.ms + MarksList(es, true) == j.ms;
        return;
      }
      var save := regTop;
      if !failed { DoingFacts(j, Now()); FromLocals(j, Now()); }
      Open(2, j);
      if !failed { DoingFacts(j, Now()); }
      var _ := EmitConst(CInt(idx), save, j);
      Operand(es.head, save + 1, j);
      ghost var j' := j.(ms := j.ms + MarksE(es.head, true));
      if !failed { DoingFacts(j', Now()); }
      EmitThree(ARRAY_SET, dst, save, save + 1, j');
      Close(save, j');
      Elements(es.tail, idx + 1, dst, j');
      assert j.ms + MarksList(es, true) == j'.ms + MarksList(es.tail, true);
    }

    method MapLiteral(e: Expr, dst: nat)
      requires e.MapLit? && (!failed ==> Fine(Now()) && dst < regTop)
      modifies this
      ensures old(failed) ==> failed
      ensures !failed ==> ExprDone(e, dst, old(Now()), Now())
      decreases e, 2
    {
      hide Fine, Doing, Keeps, HasCode, LamsDone, Confined, Put;
      ghost var u := Now();
      ghost var j := Job(u, Only(dst, regTop), []);
      if !failed { DoingStarts(u, j.w); DoingFacts(j, u); }
      var d := Reg(dst);
      Emit(NewObject(d), j);
      MapEntries(e.entries, dst, j);
      if !failed {
        NoCode(e, dst, u, Now());
        assert [] + MarksEntries(e.entries, true) == MarksE(e, true);
        ExprFinished(e, dst, j.(ms := j.ms + MarksEntries(e.entries, true)), Now());
      }
    }

    method MapEntries(ms: Entries, dst: nat, ghost j: Job)
      requires !failed ==> Doing(j, Now()) && dst < regTop && regTop == j.from.regTop && j.w == Only(dst, regTop)
      modifies this
      ensures old(failed) ==> failed
      ensures !failed ==> Doing(j.(ms := j.ms + MarksEntries(ms, true)), Now()) && regTop == j.from.regTop
      decreases ms, 5
    {
      hide Fine, Doing, Keeps, ExprDone, LocalsBelow, Put, SameConst;
      if ms.MNil? {
        assert j.ms + MarksEntries(ms, true) == j.ms;
        return;
      }
      if !ms.key.StrLit? {
        failed := true;
        return;
      }
      var save := regTop;
      if !failed { DoingFacts(j, Now()); FromLocals(j, Now()); }
      Open(1, j);
      if !failed { DoingFacts(j, Now()); }
      Operand(ms.val, save, j);
      ghost var j' := j.(ms := j.ms + MarksE(ms.val, true));
      if !failed { DoingFacts(j', Now()); }
      EmitSetProp(dst, ms.key.s, save, j');
      Close(save, j');
      MapEntries(ms.rest, dst, j');
      assert j.ms + MarksEntries(ms, true) == j'.ms + MarksEntries(ms.rest, true);
    }

    /** Resolution order: a variable or captured variable holding a closure, the reserved
        `push`, a builtin, a named function. */
    method Invoke(e: Expr, dst: nat)
      requires e.Call? && (!failed ==> Fine(Now()) && dst < regTop)
      modifies this
      ensures old(failed) ==> failed
      ensures !failed ==> ExprDone(e, dst, old(Now()), Now())
      decreases e, 2
    {
      hide Fine, Doing, Keeps, HasCode, LamsDone, Confined, LocalsBelow;
      ghost var u := Now();
      ghost var j := Job(u, Only(dst, regTop), []);
      if !failed { DoingStarts(u, j.w); DoingFacts(j, u); FineLocals(u); }
      if Ast.Count(e.args) > MAX_COUNT {
        failed := true;
        return;
      }
      var base := regTop;
      var upval := -1;
      if e.name !in locals {
        upval := FindOrAddUpvalue(e.name, j);
        if failed {
          return;
        }
        DoingFacts(j, Now());
      }
      if e.name in locals || upval >= 0 {
        CallValueOf(e.name, upval, e.args, dst, j);
      } else if e.name == "push" {
        PushCall(e.args, dst, j);
      } else {
        CallNamed(e.name, e.args, dst, j);
      }
      if !failed {
        NoCode(e, dst, u, Now());
        assert [] + MarksList(e.args, true) == MarksE(e, true);
        ExprFinished(e, dst, j.(ms := j.ms + MarksList(e.args, true)), Now());
      }
    }

    /** Compiles the arguments into consecutive registers from `at` on. */
    method Args(es: Exprs, at: nat, ghost j: Job)
      requires !failed ==> Doing(j, Now()) && at == regTop && at >= j.from.regTop && j.w.Only? && j.w.rt == j.from.regTop
      modifies this
      ensures old(failed) ==> failed
      ensures !failed ==> Doing(j.(ms := j.ms + MarksList(es, true)), Now())
      ensures !failed ==> regTop == at + Ast.Count(es) && regTop <= highWater && old(highWater) <= highWater
      decreases es, 5
    {
      hide Fine, Doing, Keeps, ExprDone, Put;
      if !failed { DoingFacts(j, Now()); }
      if es.ENil? {
        assert j.ms + MarksList(es, true) == j.ms;
        return;
      }
      Open(1, j);
      if !failed { DoingFacts(j, Now()); }
      ghost var v := Now();
      Operand(es.head, at, j);
      ghost var j' := j.(ms := j.ms + MarksE(es.head, true));
      if !failed { KeepsHw(v, Now()); }
      Args(es.tail, at + 1, j');
      assert j.ms + MarksList(es, true) == j'.ms + MarksList(es.tail, true);
    }

    /** Calls the closure held by a variable (or captured as number `upval`): callee first,
        arguments after it. */
    method CallValueOf(name: string, upval: int, args: Exprs, dst: nat, ghost j: Job)
      requires name in locals || upval >= 0
      requires !failed ==> Doing(j, Now()) && dst < regTop && regTop == j.from.regTop && j.w == Only(dst, regTop)
      modifies this
      ensures old(failed) ==> failed
      ensures !failed ==> Doing(j.(ms := j.ms + MarksList(args, true)), Now()) && regTop == j.from.regTop
      decreases args, 6
    {
      hide Fine, Doing, Keeps, ExprDone, LocalsBelow, Put;
      var base := regTop;
      if !failed { DoingFacts(j, Now()); FromLocals(j, Now()); }
      Open(1, j);
      if !failed { DoingFacts(j, Now()); }
      Callee(name, upval, base, j);
      Args(args, base + 1, j);
      ghost var j' := j.(ms := j.ms + MarksList(args, true));
      CallArgs(base, Ast.Count(args), j');
      Close(base, j');
      Result(dst, base, j');
    }

    method Callee(name: string, upval: int, base: nat, ghost j: Job)
      requires name in locals || upval >= 0
      requires !failed ==> Doing(j, Now()) && base < highWater && Allows(j.w, base)
      modifies this`code, this`prog, this`failed
      ensures old(failed) ==> failed
      ensures !failed ==> Doing(j, Now())
    {
      hide Fine, Doing, Keeps, Put;
      if name in locals {
        if !failed { DoingFacts(j, Now()); LocalAt(Now(), name); }
        EmitTwo(MOVE, base, locals[name], j);
      } else {
        EmitUpval(base, upval, j);
      }
    }

    method CallArgs(base: nat, count: nat, ghost j: Job)
      requires !failed ==> Doing(j, Now()) && Allows(j.w, base)
      modifies this`code, this`prog, this`highWater, this`failed
      ensures old(failed) ==> failed
      ensures !failed ==> Doing(j, Now()) && base < highWater && old(highWater) <= highWater
    {
      hide Fine, Doing, Keeps, Put;
      Use(base + 1 + count, j);
      var b := Reg(base);
      var n := Reg(count);
      Emit(CallValue(b, n), j);
    }

    /** Moves a call's result where it is wanted. */
    method Result(dst: nat, base: nat, ghost j: Job)
      requires !failed ==> Doing(j, Now()) && dst < highWater && base < highWater && Allows(j.w, dst)
      modifies this`code, this`prog, this`failed
      ensures old(failed) ==> failed
      ensures !failed ==> Doing(j, Now())
    {
      hide Fine, Doing, Keeps, Put;
      if dst != base {
        EmitTwo(MOVE, dst, base, j);
      }
    }

    /** push(array, value), which evaluates to nil. */
    method PushCall(args: Exprs, dst: nat, ghost j: Job)
      requires !failed ==> Doing(j, Now()) && dst < regTop && regTop == j.from.regTop && j.w == Only(dst, regTop)
      modifies this
      ensures old(failed) ==> failed
      ensures !failed ==> Doing(j.(ms := j.ms + MarksList(args, true)), Now()) && regTop == j.from.regTop
      decreases args, 6
    {
      hide Fine, Doing, Keeps, ExprDone, LocalsBelow, Put;
      if Ast.Count(args) != 2 {
        failed := true;
        return;
      }
      TwoMarks(args, j.ms);
      var save := regTop;
      if !failed { DoingFacts(j, Now()); FromLocals(j, Now()); }
      Open(2, j);
      if !failed { DoingFacts(j, Now()); }
      Operand(args.head, save, j);
      ghost var j1 := j.(ms := j.ms + MarksE(args.head, true));
      Operand(args.tail.head, save + 1, j1);
      ghost var j2 := j1.(ms := j1.ms + MarksE(args.tail.head, true));
      if !failed { DoingFacts(j2, Now()); }
      EmitPush(save, save + 1, j2);
      Close(save, j2);
      EmitNil(dst, j2);
    }

    lemma TwoMarks(args: Exprs, ms: seq<Mark>)
      requires Ast.Count(args) == 2
      ensures args.ECons? && args.tail.ECons?
      ensures ms + MarksList(args, true) == ms + MarksE(args.head, true) + MarksE(args.tail.head, true)
    {
      assert args.tail.tail.ENil?;
      assert MarksList(args.tail, true) == MarksE(args.tail.head, true) + [];
    }

    /** A builtin, whose argument count is known, or a named function. */
    method CallNamed(name: string, args: Exprs, dst: nat, ghost j: Job)
      requires !failed ==> Doing(j, Now()) && dst < regTop && regTop == j.from.regTop && j.w == Only(dst, regTop)
      modifies this
      ensures old(failed) ==> failed
      ensures !failed ==> Doing(j.(ms := j.ms + MarksList(args, true)), Now()) && regTop == j.from.regTop
      decreases args, 6
    {
      hide Fine, Doing, Keeps, ExprDone, LocalsBelow, Put, SameConst;
      var isNative := name in natives;
      if !isNative && name !in funcIndex {
        failed := true;
        return;
      }
      if isNative && (Ast.Count(args) < natives[name].0 || Ast.Count(args) > natives[name].1) {
        failed := true;
        return;
      }
      var base := regTop;
      if !failed { DoingFacts(j, Now()); FromLocals(j, Now()); }
      Args(args, base, j);
      ghost var j' := j.(ms := j.ms + MarksList(args, true));
      if !failed { DoingFacts(j', Now()); }
      CallFunction(isNative, name, base, Ast.Count(args), j');
      Close(base, j');
      Result(dst, base, j');
    }

    method CallFunction(isNative: bool, name: string, base: nat, count: nat, ghost j: Job)
      requires !failed ==> Doing(j, Now()) && Allows(j.w, base) && base + count <= highWater
      modifies this`code, this`prog, this`consts, this`highWater, this`failed
      ensures old(failed) ==> failed
      ensures !failed ==> Doing(j, Now()) && base < highWater && old(highWater) <= highWater
    {
      hide Fine, Doing, Keeps, Put, SameConst;
      Use(base + 1, j);
      var k := Intern(CStr(name), j);
      var b := Reg(base);
      var n := Reg(count);
      if !failed { StringConst(consts[k], name); }
      Emit(Instr.Call(isNative, b, k, n), j);
    }
  
    // ---- statements ------------------------------------------------------------------------------

    method Statement(s: Stmt)
      requires !failed ==> Fine(Now())
      modifies this
      ensures old(failed) ==> failed
      ensures !failed ==> StmtDone(s, old(Now()), Now())
      decreases s, 10
    {
      hide Fine, StmtDone;
      if failed {
        return;
      }
      match s
      case ExprStmt(e) => Effect(e);
      case Print(e) => PrintStmt(e);
      case Return(o) => ReturnStmt(o);
      case Block(b) => BlockStmt(b);
      case If(c) => IfStmt(c);
      case While(_, _) => WhileStmt(s);
      case For(_, _, _, _) => ForStmt(s);
      case Break => Leave(s);
      case Continue => Leave(s);
      case FnDecl(_, _, _) => failed := true;  // functions are declared at the top only
    }

    /** Keeps the statement's only part in a temporary. */
    method Temporary(e: Expr, ghost j: Job)
      requires !failed ==> Doing(j, Now()) && regTop == j.from.regTop && j.w == Any
      modifies this
      ensures old(failed) ==> failed
      ensures !failed ==> Doing(j.(ms := j.ms + MarksE(e, true)), Now()) && regTop == j.from.regTop + 1
      ensures !failed ==> ExprDone(e, old(regTop), Opened(old(Now()), 1), Now())
      decreases e, 5
    {
      hide Fine, Doing, Keeps, ExprDone;
      if !failed { DoingFacts(j, Now()); }
      Open(1, j);
      Operand(e, regTop - 1, j);
    }

    /** An expression for its effect, or an assignment. */
    method Effect(e: Expr)
      requires !failed ==> Fine(Now())
      modifies this
      ensures old(failed) ==> failed
      ensures !failed ==> StmtDone(ExprStmt(e), old(Now()), Now()) && HasEffect(e, old(Now()), Now()) && loops == old(loops)
      decreases e, 6
    {
      hide Fine, Doing, Keeps, HasCode, Confined, LamsDone, HasEffect, StmtDone, LocalsBelow;
      if e.Assign? {
        if e.target.Ident? {
          AssignVariable(e);
        } else {
          AssignPart(e);
        }
        return;
      }
      ghost var u := Now();
      ghost var j := Job(u, Any, []);
      if !failed { DoingStarts(u, Any); FineLocals(u); }
      var save := regTop;
      Temporary(e, j);
      ghost var v := Now();
      j := j.(ms := j.ms + MarksE(e, true));
      Close(save, j);
      if !failed {
        BareEffect(e, u, Opened(u, 1), v, Now());
        EffectDone(e, j, Now());
      }
    }

    /** Straight into the variable's register. */
    method AssignVariable(e: Expr)
      requires e.Assign? && e.target.Ident? && (!failed ==> Fine(Now()))
      modifies this
      ensures old(failed) ==> failed
      ensures !failed ==> StmtDone(ExprStmt(e), old(Now()), Now()) && HasEffect(e, old(Now()), Now()) && loops == old(loops)
      decreases e, 5
    {
      hide Fine, Doing, Keeps, HasCode, Confined, LamsDone, HasEffect, StmtDone;
      if e.target.name !in locals {
        failed := true;
        return;
      }
      ghost var u := Now();
      ghost var j := Job(u, Any, []);
      if !failed { DoingStarts(u, Any); LocalAt(u, e.target.name); }
      Operand(e.value, locals[e.target.name], j);
      if !failed {
        AssignEffect(e, u, Now());
        assert [Target(e.target.name)] + MarksE(e.target, true) + MarksE(e.value, true) == MarksE(e, true);
        AddTarget(j.(ms := j.ms + MarksE(e.value, true)), e, Now());
        EffectDone(e, Job(u, Any, MarksE(e, true)), Now());
      }
    }

    /** To an element or a field. */
    method AssignPart(e: Expr)
      requires e.Assign? && !e.target.Ident? && (!failed ==> Fine(Now()))
      modifies this
      ensures old(failed) ==> failed
      ensures !failed ==> StmtDone(ExprStmt(e), old(Now()), Now()) && HasEffect(e, old(Now()), Now()) && loops == old(loops)
      decreases e, 5
    {
      hide Fine, Doing, Keeps, ExprDone, HasEffect, StmtDone;
      ghost var u := Now();
      ghost var j := Job(u, Any, []);
      if !failed { DoingStarts(u, Any); FineLocals(u); }
      if e.target.Index? {
        AssignElement(e, j);
      } else if e.target.Field? {
        AssignField(e, j);
      } else {
        failed := true;
      }
      if !failed {
        OtherEffect(e, u, Now());
        EffectDone(e, Job(u, Any, MarksE(e, true)), Now());
      }
    }

    method AssignElement(e: Expr, ghost j: Job)
      requires e.Assign? && e.target.Index? && j.w == Any && j.ms == []
      requires !failed ==> Doing(j, Now()) && Now() == j.from && LocalsBelow(locals, regTop)
      modifies this
      ensures old(failed) ==> failed
      ensures !failed ==> Doing(j.(ms := MarksE(e, true)), Now()) && regTop == j.from.regTop && loops == j.from.loops
      decreases e, 4
    {
      hide Fine, Doing, Keeps, HasCode, Confined, LamsDone, LocalsBelow, Put, MarksE;
      ElementMarks(e);
      var save := regTop;
      Open(3, j);
      Operand(e.target.c, save, j);
      ghost var j1 := j.(ms := j.ms + MarksE(e.target.c, true));
      Operand(e.target.ix, save + 1, j1);
      ghost var j2 := j1.(ms := j1.ms + MarksE(e.target.ix, true));
      Operand(e.value, save + 2, j2);
      ghost var j3 := j2.(ms := j2.ms + MarksE(e.value, true));
      if !failed { DoingFacts(j3, Now()); }
      EmitThree(ARRAY_SET, save, save + 1, save + 2, j3);
      Close(save, j3);
    }

    lemma ElementMarks(e: Expr)
      requires e.Assign? && e.target.Index?
      ensures MarksE(e, true) == [] + MarksE(e.target.c, true) + MarksE(e.target.ix, true) + MarksE(e.value, true)
    {
    }

    method AssignField(e: Expr, ghost j: Job)
      requires e.Assign? && e.target.Field? && j.w == Any && j.ms == []
      requires !failed ==> Doing(j, Now()) && Now() == j.from && LocalsBelow(locals, regTop)
      modifies this
      ensures old(failed) ==> failed
      ensures !failed ==> Doing(j.(ms := MarksE(e, true)), Now()) && regTop == j.from.regTop && loops == j.from.loops
      decreases e, 4
    {
      hide Fine, Doing, Keeps, HasCode, Confined, LamsDone, LocalsBelow, Put, SameConst;
      var save := regTop;
      Open(2, j);
      Operand(e.target.c, save, j);
      ghost var j1 := j.(ms := j.ms + MarksE(e.target.c, true));
      Operand(e.value, save + 1, j1);
      ghost var j2 := j1.(ms := j1.ms + MarksE(e.value, true));
      assert j2.ms == MarksE(e, true);
      if !failed { DoingFacts(j2, Now()); }
      EmitSetProp(save, e.target.name, save + 1, j2);
      Close(save, j2);
    }

    method PrintStmt(e: Expr)
      requires !failed ==> Fine(Now())
      modifies this
      ensures old(failed) ==> failed
      ensures !failed ==> StmtDone(Stmt.Print(e), old(Now()), Now())
      decreases e, 6
    {
      hide Fine, Doing, Keeps, HasCode, Confined, LamsDone, StmtDone, LocalsBelow, Put, CodePrint;
      ghost var u := Now();
      ghost var j := Job(u, Any, []);
      if !failed { DoingStarts(u, Any); FineLocals(u); }
      var save := regTop;
      Temporary(e, j);
      ghost var v := Now();
      j := j.(ms := j.ms + MarksE(e, true));
      if !failed { DoingFacts(j, v); }
      var t := EmitOut(false, save, j);
      Close(save, j);
      if !failed {
        PrintCode(e, u, Opened(u, 1), v, t, Now());
        PutFields(v, Instr.Print(t));
        PlainDone(Stmt.Print(e), j, Now());
      }
    }

    method ReturnStmt(o: OptExpr)
      requires !failed ==> Fine(Now())
      modifies this
      ensures old(failed) ==> failed
      ensures !failed ==> StmtDone(Return(o), old(Now()), Now())
      decreases o, 6
    {
      hide *;
      if o.Present? {
        ReturnValue(o.e);
      } else {
        ReturnNothing();
      }
    }

    method ReturnValue(e: Expr)
      requires !failed ==> Fine(Now())
      modifies this
      ensures old(failed) ==> failed
      ensures !failed ==> StmtDone(Return(Present(e)), old(Now()), Now())
      decreases e, 6
    {
      hide Fine, Doing, Keeps, HasCode, Confined, LamsDone, StmtDone, LocalsBelow, Put, CodeReturn, SSize, MarksE, Marks;
      ghost var u := Now();
      ghost var j := Job(u, Any, []);
      if !failed { DoingStarts(u, Any); FineLocals(u); }
      var save := regTop;
      Temporary(e, j);
      ghost var v := Now();
      j := j.(ms := j.ms + MarksE(e, true));
      if !failed { DoingFacts(j, v); }
      var t := EmitOut(true, save, j);
      Close(save, j);
      if !failed {
        PutFields(v, Ret(t));
        ReturnCode(e, u, Opened(u, 1), v, t, Now());
        ReturnMarks(Present(e));
        PlainDone(Return(Present(e)), j, Now());
      }
    }

    method ReturnNothing()
      requires !failed ==> Fine(Now())
      modifies this
      ensures old(failed) ==> failed
      ensures !failed ==> StmtDone(Return(Absent), old(Now()), Now())
    {
      hide Fine, Doing, Keeps, HasCode, Confined, LamsDone, StmtDone, LocalsBelow, Put, CodeReturn, SSize, MarksE, Marks;
      ghost var u := Now();
      ghost var j := Job(u, Any, []);
      if !failed { DoingStarts(u, Any); FineLocals(u); }
      var save := regTop;
      Open(1, j);
      if !failed { DoingFacts(j, Now()); }
      EmitNil(save, j);
      ghost var v := Now();
      if !failed { DoingFacts(j, v); }
      var t := EmitOut(true, save, j);
      Close(save, j);
      if !failed {
        PutFields(v, Ret(t));
        PutFields(Opened(u, 1), LoadNil(t));
        ReturnNilCode(u, Opened(u, 1), t, Now());
        ReturnMarks(Absent);
        PlainDone(Return(Absent), j, Now());
      }
    }

    /** Break or continue: a jump to be patched at the end of the loop. */
    method Leave(s: Stmt)
      requires (s.Break? || s.Continue?) && (!failed ==> Fine(Now()))
      modifies this
      ensures old(failed) ==> failed
      ensures !failed ==> StmtDone(s, old(Now()), Now())
    {
      hide Fine, Doing, Keeps, StmtDone, Put;
      if loops == [] {
        failed := true;
        return;
      }
      ghost var u := Now();
      ghost var j := Job(u, Any, []);
      if !failed { DoingStarts(u, Any); }
      var pos := EmitGoto(j);
      ghost var v := Now();
      var top := loops[|loops| - 1];
      loops := loops[|loops| - 1 := if s.Break? then top.(brks := top.brks + [pos]) else top.(conts := top.conts + [pos])];
      if !failed { PutFields(u, Goto(0)); LeaveDone(s, u, v, Now()); }
    }
  
    method BlockStmt(ss: Stmts)
      requires !failed ==> Fine(Now())
      modifies this
      ensures old(failed) ==> failed
      ensures !failed ==> StmtDone(Block(ss), old(Now()), Now())
      decreases ss, 9
    {
      hide Fine, AllDone, StmtDone;
      ghost var u := Now();
      All(ss);
      if !failed { BlockDone(ss, u, Now()); }
    }

    method All(ss: Stmts)
      requires !failed ==> Fine(Now())
      modifies this
      ensures old(failed) ==> failed
      ensures !failed ==> AllDone(ss, old(Now()), Now())
      decreases ss, 8
    {
      hide Fine, AllDone, StmtDone;
      ghost var u := Now();
      if ss.SNil? {
        if !failed { NoneDone(u); }
        return;
      }
      Statement(ss.head);
      ghost var v := Now();
      if !failed { StmtFine(ss.head, u, v); }
      All(ss.tail);
      if !failed { ConsDone(ss, u, v, Now()); }
    }

    /** A list of statements as part of something larger. */
    method Part(ss: Stmts, ghost j: Job)
      requires !failed ==> Doing(j, Now()) && j.w == Any
      modifies this
      ensures old(failed) ==> failed
      ensures !failed ==> Doing(j.(ms := j.ms + MarksAll(ss, true)), Now()) && AllDone(ss, old(Now()), Now()) && regTop == old(regTop)
      ensures !failed ==> Keeps(old(Now()), Now()) && Pend(old(Now()), Now())
      decreases ss, 9
    {
      hide Fine, Doing, Keeps, HasAll, Pend;
      ghost var u := Now();
      if !failed { DoingFacts(j, u); }
      All(ss);
      if !failed {
        DoingPart(j, u, Now(), MarksAll(ss, true));
        PendOf(Job(u, Any, MarksAll(ss, true)), Now());
      }
    }

    /** A condition in a temporary, and the branch taken when it fails. */
    method Test(e: Expr, ghost j: Job) returns (pos: nat)
      requires !failed ==> Doing(j, Now()) && j.w == Any && LocalsBelow(j.from.locals, regTop) && locals == j.from.locals
      modifies this
      ensures old(failed) ==> failed
      ensures !failed ==> Doing(j.(ms := j.ms + MarksE(e, true)), Now()) && HasTest(e, old(Now()), Now())
      ensures !failed ==> pos + 2 == |code| && regTop == old(regTop) && loops == old(loops) && locals == old(locals)
      decreases e, 6
    {
      hide Fine, Doing, Keeps, HasCode, Confined, LamsDone, LocalsBelow, Put, HasTest;
      ghost var u := Now();
      var save := regTop;
      Open(1, j);
      Operand(e, save, j);
      ghost var v, j' := Now(), j.(ms := j.ms + MarksE(e, true));
      if !failed { DoingFacts(j', v); }
      pos := EmitIfFalse(save, j');
      ghost var v' := Now();
      if !failed { DoingFacts(j', v'); PutFields(v, GotoIfFalse(save, 0)); PutAt(v, GotoIfFalse(save, 0)); BranchLen(GotoIfFalse(save, 0)); }
      Close(save, j');
      if !failed {
        SameKeptSize(Opened(u, 1), v);
        TestHas(e, u, Opened(u, 1), v, save, Now());
      }
    }

    method IfStmt(c: Chain)
      requires !failed ==> Fine(Now())
      modifies this
      ensures old(failed) ==> failed
      ensures !failed ==> StmtDone(If(c), old(Now()), Now())
      decreases c, 9
    {
      hide Fine, ChainDone, StmtDone;
      ghost var u := Now();
      IfChain(c);
      if !failed { IfDone(c, u, Now()); }
    }

    method IfChain(c: Chain)
      requires !failed ==> Fine(Now())
      modifies this
      ensures old(failed) ==> failed
      ensures !failed ==> ChainDone(c, old(Now()), Now())
      decreases c, 8
    {
      hide Fine, Doing, Keeps, HasAll, HasTest, LocalsBelow, ChainDone, Pend, HasElse, HasChain, MarksE, MarksAll, MarksElse;
      ghost var u := Now();
      ghost var j := Job(u, Any, []);
      if !failed { DoingStarts(u, Any); FineLocals(u); }
      var elseJump := Test(c.cond, j);
      j := j.(ms := j.ms + MarksE(c.cond, true));
      ghost var v := Now();
      Part(c.thn, j);
      j := j.(ms := j.ms + MarksAll(c.thn, true));
      ghost var w := Now();
      if failed {
        return;
      }
      ThenFacts(c.cond, u, v, w, j);
      if c.els.NoElse? {
        ThenOnly(c, elseJump, u, v, j);
      } else {
        ElseBranch(c, elseJump, u, v, j);
      }
      if !failed {
        assert j.ms + MarksElse(c.els, true) == MarksChain(c, true);
        ChainFinished(c, u, Now());
      }
    }

    method ThenOnly(c: Chain, elseJump: nat, ghost u: Unit, ghost v: Unit, ghost j: Job)
      requires c.els.NoElse? && j.w == Any && j.from == u
      requires !failed && Doing(j, Now()) && regTop == u.regTop
      requires HasTest(c.cond, u, v) && v.loops == u.loops && v.locals == u.locals && v.regTop == u.regTop
      requires HasAll(c.thn, v, Now()) && Keeps(v, Now()) && Pend(v, Now())
      requires |v.asm.code| >= 4 && BranchOpen(Now(), |v.asm.code| - 4, u.regTop) && elseJump + 2 == |v.asm.code|
      requires |u.asm.code| <= |v.asm.code| - 4 && |v.asm.code| <= |code|
      modifies this
      ensures !failed ==> Doing(j.(ms := j.ms + MarksElse(c.els, true)), Now()) && HasChain(c, u, Now()) && regTop == u.regTop
    {
      hide Fine, Doing, Keeps, HasAll, HasTest, Pend, HasChain, Redirected, CanPatch, BranchOpen;
      ghost var w, p := Now(), |v.asm.code| - 4;
      BranchRoom(w, p, u.regTop);
      PatchHere(elseJump, p, j);
      if !failed {
        IfHas(c, u, v, w, Now());
        RedirectedFields(w, p, |w.asm.code|);
        assert j.ms + MarksElse(c.els, true) == j.ms;
      }
    }

    method ElseBranch(c: Chain, elseJump: nat, ghost u: Unit, ghost v: Unit, ghost j: Job)
      requires !c.els.NoElse? && j.w == Any && j.from == u
      requires !failed && Doing(j, Now()) && regTop == u.regTop && locals == u.locals
      requires HasTest(c.cond, u, v) && v.loops == u.loops && v.locals == u.locals && v.regTop == u.regTop
      requires HasAll(c.thn, v, Now()) && Keeps(v, Now()) && Pend(v, Now())
      requires |v.asm.code| >= 4 && BranchOpen(Now(), |v.asm.code| - 4, u.regTop) && elseJump + 2 == |v.asm.code|
      requires |u.asm.code| <= |v.asm.code| - 4 && |v.asm.code| <= |code|
      modifies this
      ensures old(failed) ==> failed
      ensures !failed ==> Doing(j.(ms := j.ms + MarksElse(c.els, true)), Now()) && HasChain(c, u, Now()) && regTop == u.regTop
      decreases c, 7
    {
      hide Fine, Doing, Keeps, HasAll, HasTest, LocalsBelow, Pend, HasElse, HasChain, Put, Redirected, CanPatch, BranchOpen;
      ghost var w, p := Now(), |v.asm.code| - 4;
      var endJump := EmitGoto(j);
      ghost var x1 := Now();
      if !failed { BranchKept(w, x1, p, u.regTop); BranchRoom(x1, p, u.regTop); PutFields(w, Goto(0)); }
      PatchHere(elseJump, p, j);
      ghost var x := Now();
      if !failed { RedirectedFields(x1, p, |x1.asm.code|); JumpThere2(w, x1, p, |x1.asm.code|, x); DoingFacts(j, x); }
      Otherwise(c.els, j);
      ghost var j', y := j.(ms := j.ms + MarksElse(c.els, true)), Now();
      if !failed { JumpKept2(w, x, y); KeepsSizes(v, w); }
      PatchHere(endJump, |w.asm.code|, j');
      if !failed {
        KeepsSizes(v, w);
        IfElseHas(c, u, v, w, x1, x, y, Now());
        RedirectedFields(y, |w.asm.code|, |y.asm.code|);
      }
    }

    /** An else block or a further if. */
    method Otherwise(e: Else, ghost j: Job)
      requires !e.NoElse? && (!failed ==> Doing(j, Now()) && j.w == Any)
      modifies this
      ensures old(failed) ==> failed
      ensures !failed ==> Doing(j.(ms := j.ms + MarksElse(e, true)), Now()) && HasElse(e, old(Now()), Now()) && regTop == old(regTop)
      ensures !failed ==> Keeps(old(Now()), Now()) && Pend(old(Now()), Now())
      decreases e, 10
    {
      hide Fine, Doing, Keeps, HasAll, HasChain, Pend;
      ghost var u := Now();
      if !failed { DoingFacts(j, u); }
      if e.ElseBlock? {
        Part(e.body, j);
      } else {
        IfChain(e.chain);
        if !failed {
          DoingPart(j, u, Now(), MarksChain(e.chain, true));
          PendOf(Job(u, Any, MarksChain(e.chain, true)), Now());
        }
      }
    }
  
    // ---- loops -------------------------------------------------------------------------------------

    /** Patches all the listed jumps to lead to `target`. */
    method PatchAll(ps: seq<nat>, target: nat, ghost j: Job)
      requires !failed ==> Doing(j, Now()) && Sites(prog, ps) && ListIn(ps, |j.from.asm.code|, |code|)
      requires !failed ==> |j.from.asm.code| <= target <= |code| && IsPosition(Now().asm, target)
      modifies this`code, this`prog, this`failed
      ensures old(failed) ==> failed
      ensures !failed ==> Doing(j, Now()) && AllRedirected(old(Now()), Now(), ps, target)
    {
      hide Doing, Sites, IsPosition, AllRedirected, Redirected, CanPatch;
      ghost var u := Now();
      NoneRedirected(u, target);
      assert ps[..0] == [];
      var i := 0;
      while i < |ps|
        invariant 0 <= i <= |ps| && (old(failed) ==> failed)
        invariant !failed ==> Doing(j, Now()) && Sites(prog, ps) && AllRedirected(u, Now(), ps[..i], target)
        invariant !failed ==> |code| == |u.asm.code| && IsPosition(Now().asm, target)
      {
        if failed {
          return;
        }
        ghost var v := Now();
        SiteRoom(j, v, ps, i);
        PatchTo(ps[i], target, ps[i] - 1, j);
        if !failed {
          OneRedirected(u, v, ps, i, target);
          SitesLater(v, ps, ps[i] - 1, target);
          PositionLater(v, ps[i] - 1, target, target);
          RedirectedProg(v, ps[i] - 1, target);
        }
        i := i + 1;
      }
      assert ps[..i] == ps;
    }

    /** A loop's test, body, step and jump back, with the jumps out of it patched. */
    method LoopStmt(s: Stmt, test: OptExpr, step: OptExpr, body: Stmts, isWhile: bool)
      requires LoopOf(s, test, step, body, isWhile)
      requires !failed ==> Fine(Now())
      modifies this
      ensures old(failed) ==> failed
      ensures !failed ==> Doing(Job(old(Now()), Any, LoopMarks(test, step, body)), Now()) && regTop == old(regTop) && loops == old(loops)
      ensures !failed ==> HasLoop(test, step, body, old(Now()), Now(), isWhile)
      decreases s, 8
    {
      hide Fine, Doing, Keeps, HasLoop, LoopSteps, HasAll, HasEffect;
      ghost var u := Now();
      if failed {
        return;
      }
      loops := loops + [Loop([], [])];
      PushedFine(u);
      ghost var u1 := Now();
      assert u1 == Pushed(u);
      ghost var j := Job(u1, Any, []);
      DoingStarts(u1, Any);
      PatchedLoop(s, test, step, body, isWhile, u1, j);
      if failed {
        return;
      }
      LoopLeft(u, Now(), LoopMarks(test, step, body));
      ghost var v := Now();
      loops := loops[..|loops| - 1];
      LoopPopped(test, step, body, u, v, isWhile);
    }

    /** The same inside the loop's context. */
    method PatchedLoop(s: Stmt, test: OptExpr, step: OptExpr, body: Stmts, isWhile: bool, ghost u: Unit, ghost j: Job)
      requires LoopOf(s, test, step, body, isWhile)
      requires !failed && u == Now() && Fine(u) && Doing(j, u) && j == Job(u, Any, [])
      requires u.loops != [] && Pending(u.loops, true) == [] && Pending(u.loops, false) == []
      modifies this
      ensures !failed ==> Doing(Job(u, Any, LoopMarks(test, step, body)), Now()) && regTop == u.regTop && loops != []
      ensures !failed ==> HasLoop(test, step, body, u, Now(), isWhile)
      decreases s, 7
    {
      hide Fine, Doing, Keeps, HasLoop, LoopSteps, HasAll, HasEffect, Pend, HasTest, Sites, AllRedirected, ListIn, Put, Redirected, CanPatch,
           IsPosition, LoopsGrew, LoopsOk;
      var start := |code|;
      FineLocals2(j, u);
      var exitJump := 0;
      ghost var j1 := j.(ms := MarksOpt(test, true));
      if test.Present? {
        exitJump := Test(test.e, j);
        assert [] + MarksE(test.e, true) == MarksOpt(test, true);
      }
      ghost var u2 := Now();
      Part(body, j1);
      ghost var j2, u3 := j1.(ms := j1.ms + MarksAll(body, true)), Now();
      if failed {
        return;
      }
      LoopSites(test, u, u2, u3, j1, j2, body);
      var cont := if isWhile then start else |code|;
      StartIsPosition(u, u3, j2);
      StartIsPosition(u, u2, j1);
      ListWider(Pending(u3.loops, false), |u2.asm.code|, |u3.asm.code|, |u.asm.code|, |u3.asm.code|);
      PatchAll(loops[|loops| - 1].conts, cont, j2);
      ghost var u4 := Now();
      if failed {
        return;
      }
      PatchedFields(u3, u4, Pending(u3.loops, false), cont);
      DoingFacts(j2, u4);
      if step.Present? {
        Step(step, j2);
      } else {
        assert j2.ms + MarksOpt(step, true) == j2.ms;
        SelfKeeps2(j2, u4);
      }
      ghost var j3, u5 := j2.(ms := j2.ms + MarksOpt(step, true)), Now();
      if failed {
        return;
      }
      KeepsSizes(u2, u3);
      ReadyIf(test, step, body, isWhile, u, u2, u3, u4, u5);
      BackAndOut(test, start, exitJump, step, body, isWhile, u, u2, u3, u4, j3);
      if !failed { MarksReordered(j3, Now(), LoopMarks(test, step, body)); }
    }

    /** A for loop's step. */
    method Step(o: OptExpr, ghost j: Job)
      requires !failed && Doing(j, Now()) && j.w == Any
      modifies this
      ensures !failed ==> Doing(j.(ms := j.ms + MarksOpt(o, true)), Now()) && Keeps(old(Now()), Now()) && regTop == old(regTop)
      ensures !failed ==> loops == old(loops) && locals == old(locals)
      ensures !failed && o.Present? ==> HasEffect(o.e, old(Now()), Now())
      ensures !failed && o.Absent? ==> Now() == old(Now())
      decreases o, 9
    {
      hide Fine, Doing, Keeps, HasEffect;
      ghost var u := Now();
      DoingFacts(j, u);
      if o.Present? {
        Effect(o.e);
        if !failed {
          assert MarksOpt(o, true) == Marks(ExprStmt(o.e), true);
          DoingPart(j, u, Now(), Marks(ExprStmt(o.e), true));
          DoingFacts(Job(u, Any, Marks(ExprStmt(o.e), true)), Now());
        }
      } else {
        assert j.ms + MarksOpt(o, true) == j.ms;
        SelfKeeps(u);
      }
    }

    /** The jump back, and the patches that need the loop's end. */
    method BackAndOut(test: OptExpr, start: nat, exitJump: nat, ghost step: OptExpr, ghost body: Stmts, ghost isWhile: bool,
                      ghost u: Unit, ghost u2: Unit, ghost u3: Unit, ghost u4: Unit, ghost j: Job)
      requires !failed && Doing(j, Now()) && j.from == u && Fine(u) && start == |u.asm.code|
      requires LoopReady(test, step, body, isWhile, u, u2, u3, u4, Now()) && (test.Present? ==> exitJump + 2 == |u2.asm.code|)
      modifies this
      ensures !failed ==> Doing(j, Now()) && regTop == u.regTop && loops != []
      ensures !failed ==> HasLoop(test, step, body, u, Now(), isWhile)
    {
      hide Fine, Doing, Keeps, HasLoop, LoopReady, AllRedirected, ListIn, Put, Redirected, CanPatch, Sites, IsPosition;
      ghost var u5 := Now();
      ReadySizes(test, step, body, isWhile, u, u2, u3, u4, u5);
      JumpBack(start, u, u5, j);
      ghost var u7 := Now();
      if failed {
        return;
      }
      ghost var u6 := Put(u5, Goto(0));
      var exit := |code|;
      if test.Present? {
        ReadyBranch(test, step, body, isWhile, u, u2, u3, u4, u5, u6, u7);
        PatchHere(exitJump, |u2.asm.code| - 4, j);
        if !failed { RedirectedFields(u7, |u2.asm.code| - 4, exit); RedirectedProg(u7, |u2.asm.code| - 4, exit); }
      }
      ghost var u8 := Now();
      if failed {
        return;
      }
      BreakSites(j, u8, u, u2, u3, exit);
      PatchAll(loops[|loops| - 1].brks, exit, j);
      if !failed { LoopEnds(test, step, body, isWhile, u, u2, u3, u4, u5, u6, u7, u8, Now()); }
    }

    method JumpBack(start: nat, ghost u: Unit, ghost u5: Unit, ghost j: Job)
      requires !failed && Doing(j, Now()) && j.from == u && Fine(u) && start == |u.asm.code| && Now() == u5
      modifies this`code, this`prog, this`failed
      ensures !failed ==> Doing(j, Now()) && Keeps(u5, Put(u5, Goto(0))) && CanPatch(Put(u5, Goto(0)), |u5.asm.code|, start)
                          && Now() == Redirected(Put(u5, Goto(0)), |u5.asm.code|, start)
      ensures !failed ==> loops == u5.loops && |code| == |u5.asm.code| + 3
    {
      hide Fine, Doing, Keeps, Put, Redirected, CanPatch, IsPosition;
      StartIsPosition(u, u5, j);
      var back := EmitGoto(j);
      ghost var u6 := Now();
      BackJump(u5, u6);
      StartIsPosition(u, u6, j);
      PatchTo(back, start, |u5.asm.code|, j);
      if !failed { RedirectedProg(u6, |u5.asm.code|, start); }
    }

    method WhileStmt(s: Stmt)
      requires s.While? && (!failed ==> Fine(Now()))
      modifies this
      ensures old(failed) ==> failed
      ensures !failed ==> StmtDone(s, old(Now()), Now())
      decreases s, 9
    {
      hide Fine, Doing, HasLoop, HasStmt;
      ghost var u := Now();
      LoopStmt(s, Present(s.cond), Absent, s.body, true);
      if !failed {
        WhileHas(s, u, Now());
        MarksReordered(Job(u, Any, LoopMarks(Present(s.cond), Absent, s.body)), Now(), Marks(s, true));
      }
    }

    method ForStmt(s: Stmt)
      requires s.For? && (!failed ==> Fine(Now()))
      modifies this
      ensures old(failed) ==> failed
      ensures !failed ==> StmtDone(s, old(Now()), Now())
      decreases s, 9
    {
      hide Fine, Doing, HasLoop, HasStmt, HasEffect, Keeps;
      if failed {
        return;
      }
      ghost var u := Now();
      ghost var j := Job(u, Any, []);
      DoingStarts(u, Any);
      Step(s.init, j);
      ghost var v := Now();
      ghost var j1 := j.(ms := j.ms + MarksOpt(s.init, true));
      if !failed { DoingFacts(j1, v); }
      LoopStmt(s, s.test, s.step, s.body, false);
      if !failed {
        ghost var ms := LoopMarks(s.test, s.step, s.body);
        DoingPart(j1, v, Now(), ms);
        KeepsIsBelow(v, Now());
        ForHas(s, u, v, Now());
        MarksReordered(j1.(ms := j1.ms + ms), Now(), Marks(s, true));
      }
    }
  
    // ---- functions ---------------------------------------------------------------------------------

    /** Gives parameters and assigned variables their registers, in order of appearance. */
    method Variables(params: seq<string>, ss: Stmts) returns (next: nat)
      modifies this`locals
      ensures LocalsBelow(locals, next) && |params| <= next
      ensures Names(locals, params, ss)
    {
      locals := map[];
      next := 0;
      while next < |params|
        invariant next <= |params| && LocalsBelow(locals, next) && Distinct(locals)
        invariant forall x :: x in locals <==> x in params[..next]
      {
        locals := locals[params[next] := next];
        next := next + 1;
      }
      assert params[..next] == params;
      var ms := MarksAll(ss, false);
      var names := NewNames(ms, params);
      var i := 0;
      while i < |names|
        invariant 0 <= i <= |names| && LocalsBelow(locals, next) && |params| <= next && Distinct(locals)
        invariant forall x :: x in locals <==> x in params || x in names[..i]
      {
        locals := locals[names[i] := next];
        next := next + 1;
        i := i + 1;
      }
      assert names[..i] == names;
    }

    /** collect_locals: the assigned names that are no parameters, each once. */
    method NewNames(ms: seq<Mark>, params: seq<string>) returns (names: seq<string>)
      ensures forall x :: x in names <==> Target(x) in ms && x !in params
      ensures forall i, k :: 0 <= i < k < |names| ==> names[i] != names[k]
    {
      names := [];
      var seen := set x | x in params;
      var i := 0;
      while i < |ms|
        invariant 0 <= i <= |ms|
        invariant forall x :: x in seen <==> x in params || x in names
        invariant forall x :: x in names <==> Target(x) in ms[..i] && x !in params
        invariant forall i, k :: 0 <= i < k < |names| ==> names[i] != names[k]
      {
        assert ms[..i + 1] == ms[..i] + [ms[i]];
        if ms[i].Target? && ms[i].name !in seen {
          seen := seen + {ms[i].name};
          names := names + [ms[i].name];
        }
        i := i + 1;
      }
      assert ms[..i] == ms;
    }

    /** compile_body: function `f` from its statements. */
    method Body(f: nat, ss: Stmts, params: seq<string>, isMain: bool) returns (ghost u: Unit)
      requires !failed && Outer(Now()) && f < |funcs| && funcs[f].numParams <= |params| && (isMain <==> f == 0)
      modifies this
      ensures !failed ==> Outer(Now()) && Captures(upvals, upvalSrc, enclosing) && LamsDone(MarksAll(ss, true), Now()) && f in done
      ensures !failed ==> GrownIn(old(Now()), Now(), isMain)
      ensures !failed ==> Names(u.locals, params, ss)
      ensures !failed && isMain ==>
                MainCode(ss, ScopeOf(u), Now().asm) && Ok(Now().asm, |funcs|) && Fine(u) && u.regTop <= highWater
                && funcs[0].code == code && funcs[0].numRegs == highWater
      decreases ss, 12
    {
      hide Outer, Captures, LamsDone, LocalsBelow, Fine, AllDone, Verifier.Verified, Ok, MainCode, Names, GrownIn, Sealed, Keeps, MarksAll;
      ghost var u0 := Now();
      Begin(params, ss);
      u := Now();
      if failed {
        return;
      }
      All(ss);
      ghost var v := Now();
      if failed {
        return;
      }
      AllFacts(ss, u, v);
      Finish(isMain, ss, u, v);
      if failed {
        return;
      }
      if highWater > MAX_REG {
        failed := true;
        return;
      }
      ghost var w := Now();
      FillFacts(u0, u, v, w, f, isMain, MarksAll(ss, true));
      funcs := funcs[f := funcs[f].(numRegs := highWater, code := code)];
      done := done + {f};
    }

    /** Starts an empty function. */
    method Begin(params: seq<string>, ss: Stmts)
      requires !failed && Outer(Now())
      modifies this`code, this`prog, this`loops, this`upvals, this`upvalSrc, this`regTop, this`highWater, this`locals, this`failed
      ensures !failed ==> Fine(Now()) && code == [] && loops == [] && |params| <= regTop && Names(locals, params, ss)
    {
      hide Outer, LocalsBelow, Fine, Names;
      ghost var u := Now();
      var next := Variables(params, ss);
      if next > MAX_REG + 1 {
        failed := true;
        return;
      }
      Reset(next);
      OuterSame(u, Now());
      FreshFine(Now(), next);
    }

    method Reset(next: nat)
      modifies this`code, this`prog, this`loops, this`upvals, this`upvalSrc, this`regTop, this`highWater
      ensures code == [] && prog == map[] && loops == [] && upvals == [] && upvalSrc == [] && regTop == next && highWater == next
    {
      code, prog := [], map[];
      loops, upvals, upvalSrc := [], [], [];
      regTop, highWater := next, next;
    }

    /** The terminator: execution cannot fall off the end. */
    method Finish(isMain: bool, ss: Stmts, ghost u: Unit, ghost v: Unit)
      requires !failed && AllDone(ss, u, v) && v == Now() && u.asm.code == [] && u.loops == []
      modifies this`code, this`prog, this`highWater, this`failed
      ensures !failed ==> Fine(Now()) && Sealed(Now().asm) && Keeps(v, Now())
      ensures !failed && isMain ==> MainCode(ss, ScopeOf(u), Now().asm)
    {
      hide Fine, AllDone, Doing, Keeps, Sealed, MainCode, Put;
      ghost var j := Job(v, Any, []);
      AllFacts(ss, u, v);
      DoingStarts(v, Any);
      if isMain {
        Emit(Halt, j);
        PutSeals(v, Halt);
        MainHas(ss, u, v, Now());
        DoingFacts(j, Now());
      } else {
        var t := regTop;
        Use(t + 1, j);
        EmitNil(t, j);
        ghost var x := Now();
        if !failed { DoingFacts(j, x); }
        var b := EmitOut(true, t, j);
        if !failed {
          PutSeals(x, Ret(b));
          DoingFacts(j, Now());
        }
      }
    }

    /** compile_lambda: the nested function first, then the closure over the variables it
        turned out to capture. */
    method LambdaExpr(e: Expr, dst: nat)
      requires e.Lambda? && (!failed ==> Fine(Now()) && dst < regTop)
      modifies this
      ensures old(failed) ==> failed
      ensures !failed ==> ExprDone(e, dst, old(Now()), Now())
      decreases e, 2
    {
      hide Fine, Keeps, LamsDone, ExprDone;
      if failed {
        return;
      }
      if e !in lambdaFunc || lambdaFunc[e] > 65535 {
        failed := true;
        return;
      }
      ghost var u := Now();
      var captured, v := Nested(e, lambdaFunc[e]);
      if !failed { LambdaClosure(e, dst, lambdaFunc[e], captured, u, v); }
    }

    /** Compiles the function, with this one's state saved and restored. */
    method Nested(e: Expr, fidx: nat) returns (captured: seq<nat>, ghost v: Unit)
      requires !failed && Fine(Now()) && e.Lambda? && e in lambdaFunc && lambdaFunc[e] == fidx
      modifies this
      ensures !failed ==> Now() == Resumed(old(Now()), v) && Fine(Now()) && Keeps(old(Now()), Now())
      ensures !failed ==> forall i :: 0 <= i < |captured| ==> captured[i] < highWater
      ensures !failed ==> LamsDone(MarksAll(e.body, true), v) && v.lambdaFunc == old(lambdaFunc) && fidx in v.done && fidx < |funcs|
      decreases e, 1
    {
      hide Fine, Keeps, Outer, LamsDone, Captures, Ok, GrownIn, MainCode, LocalsBelow, Names;
      ghost var u := Now();
      v := u;
      LambdaSlot(u, e);
      var saveCode, saveLocals, saveLoops, saveReg, saveHw := code, locals, loops, regTop, highWater;
      var saveUpvals, saveUpsrc, saveEnclosing := upvals, upvalSrc, enclosing;
      enclosing := enclosing + [locals];
      upvals, upvalSrc := [], [];
      FineOuter(u);
      OuterSame(u, Now());
      ghost var v0 := Now();
      ghost var _ := Body(fidx, e.body, e.params, false);
      captured := upvalSrc;
      if failed {
        return;
      }
      v := Now();
      NestedFacts(u, v0, v);
      Restore(saveEnclosing, saveCode, saveLocals, saveLoops, saveReg, saveHw, saveUpvals, saveUpsrc, u.asm.prog);
    }

    method Restore(enclosing0: seq<Regs>, code0: seq<Byte>, locals0: Regs, loops0: seq<Loop>, regTop0: nat, highWater0: nat,
                   upvals0: seq<string>, upvalSrc0: seq<nat>, ghost prog0: Prog)
      modifies this`enclosing, this`code, this`prog, this`locals, this`loops, this`regTop, this`highWater, this`upvals, this`upvalSrc
      ensures Now() == Unit(Asm(code0, prog0, consts, highWater0), regTop0, locals0, loops0, upvals0, upvalSrc0, enclosing0, funcs,
                            lambdaFunc, funcIndex, done)
    {
      enclosing, code, locals, loops := enclosing0, code0, locals0, loops0;
      prog := prog0;
      regTop, highWater, upvals, upvalSrc := regTop0, highWater0, upvals0, upvalSrc0;
    }

    method LambdaClosure(e: Expr, dst: nat, fidx: nat, captured: seq<nat>, ghost u: Unit, ghost v: Unit)
      requires !failed && e.Lambda? && Fine(u) && Fine(Now()) && Keeps(u, Now()) && Now() == Resumed(u, v) && dst < regTop
      requires forall i :: 0 <= i < |captured| ==> captured[i] < highWater
      requires fidx < |funcs| && e in lambdaFunc && lambdaFunc[e] == fidx && fidx in done
      requires LamsDone(MarksAll(e.body, true), v) && v.lambdaFunc == lambdaFunc
      modifies this
      ensures !failed ==> ExprDone(e, dst, u, Now())
    {
      hide Fine, Doing, Keeps, HasCode, LamsDone;
      ghost var w := Now();
      ghost var j := Job(u, Only(dst, regTop), []);
      DoingStarts(u, j.w);
      DoingSame(j, u, w);
      LambdaMarks(e, u, v, w);
      ghost var j' := j.(ms := MarksE(e, true));
      DoingMarked(j, w, MarksE(e, true));
      DoingFacts(j', w);
      EmitClosure(dst, fidx, captured, j');
      if !failed {
        NoCode(e, dst, u, Now());
        ExprFinished(e, dst, j', Now());
      }
    }
  
    // ---- the whole program -------------------------------------------------------------------------

    /** A name among the constants. */
    method NameConst(name: string) returns (k: nat)
      requires !failed && Fresh(Now())
      modifies this`consts, this`failed
      ensures !failed ==> Fresh(Now()) && Now() == Interned(old(Now()), consts)
      ensures !failed ==> k < |consts| && consts[k] == CStr(name)
    {
      hide Fresh, Doing;
      ghost var u := Now();
      FreshStarts(u);
      k := Intern(CStr(name), Job(u, Any, []));
      if !failed {
        DoingFacts(Job(u, Any, []), Now());
        FreshNamed(u, consts);
      }
    }

    /** Gives every declared function its place. */
    method Declare(ss: Stmts)
      requires !failed && Fresh(Now()) && |funcs| >= 1
      modifies this`consts, this`failed, this`funcs, this`funcIndex
      ensures !failed ==> Fresh(Now()) && MoreFunctions(old(funcIndex), old(funcs), funcIndex, funcs) && Declared(ss, funcIndex, funcs)
      ensures !failed ==> AllNamed(funcIndex, DeclNames(ss), old(|funcs|), |funcs|)
      decreases ss
    {
      hide Fresh;
      if ss.SNil? {
        return;
      }
      var s := ss.head;
      if s.FnDecl? {
        if s.name in funcIndex || |s.params| > MAX_COUNT {
          failed := true;
          return;
        }
        var k := NameConst(s.name);
        if failed {
          return;
        }
        FreshAdded(Now(), Function(k, |s.params|, 0, 0, []));
        funcs := funcs + [Function(k, |s.params|, 0, 0, [])];
        FreshIndexed(Now(), s.name);
        funcIndex := funcIndex[s.name := |funcs| - 1];
      }
      ghost var idx, fs := funcIndex, funcs;
      Declare(ss.tail);
      if !failed {
        assert s.FnDecl? ==> DeclaredAs(idx, fs, s.name, |s.params|);
        NamedCons(ss, funcIndex, old(|funcs|), |fs|, |funcs|);
        MoreTrans(old(funcIndex), old(funcs), idx, fs, funcIndex, funcs);
      }
    }

    /** index_lambdas: gives every function expression its place. */
    method IndexLambdas(ms: seq<Mark>)
      requires !failed && Fresh(Now()) && |funcs| >= 1 && DistinctLambdas(ms)
      modifies this`consts, this`failed, this`funcs, this`lambdaFunc
      ensures !failed ==> Fresh(Now()) && old(funcs) <= funcs
      ensures !failed ==> AllLambdaed(lambdaFunc, ms, old(|funcs|), |funcs|) && funcIndex == old(funcIndex)
    {
      hide Fresh, AllLambdaed;
      ghost var base := |funcs|;
      var i := 0;
      NoLambdas(lambdaFunc, base);
      assert ms[..0] == [];
      while i < |ms|
        invariant 0 <= i <= |ms| && !failed && Fresh(Now()) && old(funcs) <= funcs
        invariant AllLambdaed(lambdaFunc, ms[..i], base, |funcs|)
      {
        if ms[i].Lam? {
          var e := ms[i].node;
          var k := NameConst("<lambda>");
          if failed {
            return;
          }
          if !e.Lambda? {
            failed := true;  // no other expression is marked
            return;
          }
          LambdaedCons(lambdaFunc, ms, i, base, |funcs|);
          AddLambda(e, k);
        } else {
          LambdaedSkip(lambdaFunc, ms, i, base, |funcs|);
        }
        i := i + 1;
      }
      assert ms[..i] == ms;
    }

    method AddLambda(e: Expr, k: nat)
      requires !failed && Fresh(Now()) && |funcs| >= 1 && e.Lambda? && k < |consts| && consts[k].CStr?
      modifies this`funcs, this`lambdaFunc
      ensures Fresh(Now()) && funcs == old(funcs) + [Function(k, |e.params| % 256, 0, 0, [])]
      ensures lambdaFunc == old(lambdaFunc)[e := old(|funcs|)]
    {
      hide Fresh;
      var f := Function(k, |e.params| % 256, 0, 0, []);
      FreshAdded(Now(), f);
      funcs := funcs + [f];
      FreshLambda(Now(), e);
      lambdaFunc := lambdaFunc[e := |funcs| - 1];
    }

    lemma NoLambdas(lf: map<Expr, nat>, n: nat)
      ensures AllLambdaed(lf, [], n, n)
    {
    }

    /** The bodies of the declared functions. */
    method Declarations(ss: Stmts)
      requires !failed && Outer(Now()) && Declared(ss, funcIndex, funcs)
      modifies this
      ensures !failed ==> Outer(Now()) && GrownIn(old(Now()), Now(), false) && LamsDone(DeclMarks(ss), Now())
      ensures !failed ==> forall n :: n in DeclNames(ss) ==> n in funcIndex && funcIndex[n] in done
      decreases ss
    {
      hide Outer, LamsDone, GrownIn, Captures, Names, MainCode, Fine, Ok;
      ghost var u := Now();
      if ss.SNil? {
        GrownSelf(u);
        return;
      }
      var s := ss.head;
      if s.FnDecl? {
        ghost var _ := Body(funcIndex[s.name], s.body, s.params, false);
        if failed {
          return;
        }
      } else {
        GrownSelf(u);
      }
      ghost var v := Now();
      GrownIndex(u, v, false);
      StillDeclared(ss.tail, u, v, false);
      Declarations(ss.tail);
      if !failed {
        GrownInTrans(u, v, Now());
        DeclLams(ss, v, Now());
      }
    }

    /** Compiles a program: on success, the module it leaves passes the verifier. */
    method Run(program: Stmts) returns (ghost scope: Scope, ghost asm: Asm)
      requires !failed && Now() == Unit(Asm([], map[], [], 0), 0, map[], [], [], [], [], [], map[], map[], {})
      requires DistinctLambdas(MarksAll(program, true))
      modifies this
      ensures !failed ==> Verifier.VerifiedModule(Module(consts, funcs, 0)) && |funcs| > 0
      ensures !failed ==> AllEntered(consts, funcs) && |consts| <= 65536
      ensures !failed ==>
                MainCode(MainOf(program), scope, asm) && Ok(asm, |funcs|) && Extends(asm.consts, consts)
                && funcs[0].code == asm.code && funcs[0].numRegs == asm.hw
      ensures !failed ==> Names(scope.locals, [], MainOf(program)) && LocalsBelow(scope.locals, scope.rt) && scope.rt <= asm.hw
    {
      hide Fresh, Outer, LamsDone, GrownIn, Captures, Names, MainCode, Fine, Ok, LocalsBelow, Verifier.VerifiedModule;
      scope, asm := Scope(0, map[]), Asm([], map[], [], 0);
      StartFresh(Now());
      var k := NameConst("main");
      if failed {
        return;
      }
      FreshAdded(Now(), Function(k, 0, 0, 0, []));
      funcs := funcs + [Function(k, 0, 0, 0, [])];
      Declare(program);
      if failed {
        return;
      }
      ghost var n, idx, fs := |funcs|, funcIndex, funcs;
      IndexLambdas(MarksAll(program, true));
      if failed {
        return;
      }
      assert MoreFunctions(idx, fs, funcIndex, funcs);
      DeclaredLater(program, idx, fs, funcIndex, funcs);
      FreshOuter(Now());
      ghost var u := Now();
      ghost var w := Body(0, MainOf(program), [], true);
      if failed {
        return;
      }
      scope, asm := ScopeOf(w), Now().asm;
      ghost var v := Now();
      FineLocals(w);
      StillDeclared(program, u, v, true);
      Declarations(program);
      if !failed { RunDone(program, u, v, Now(), n); }
    }
  }
}
