/** A verified module never makes the machine read outside its registers, its
    constants, its code or its functions: the invariant holds in every reachable
    state, and it is what each step needs. */
module Safety {
  import opened Bytecode
  import opened Verifier
  import opened Decoder
  import opened Values
  import opened Machine

  // ---- positions ---------------------------------------------------------------

  /** After an instruction the walk is at the next one or at the end. */
  lemma {:induction false} NextStart(code: seq<Byte>, from: nat, pc: nat)
    requires pc in Starts(code, from) && pc < |code| && InstrLen(code, pc) > 0
    ensures pc + InstrLen(code, pc) in Starts(code, from) || pc + InstrLen(code, pc) == |code|
    decreases |code| - from
  {
    assert from < |code| && (pc != from ==> InstrLen(code, from) > 0);
    hide *;
    var n := InstrLen(code, from);
    StartsStep(code, from, n);
    if pc != from {
      NextStart(code, from + n, pc);
    }
  }

  ghost predicate PcOk(code: seq<Byte>, pc: int) {
    pc >= 0 && (pc in Starts(code, 0) || pc == |code|)
  }

  /** At a verified start every continuation is a start again, or the end. */
  lemma Continuations(m: Module, f: Function, pc: nat)
    requires Verified(m, f) && pc in Starts(f.code, 0)
    ensures pc < |f.code| && InstrLen(f.code, pc) > 0
    ensures var i, len := Decode(f.code, pc), InstrLen(f.code, pc);
            && Fits(m, f, i) && PcOk(f.code, pc + len)
            && (i.Goto? || i.GotoIfFalse? ==> PcOk(f.code, pc + len + i.off))
  {
    hide InstrOk, InstrLen, Starts, Fits, Decode, JumpTarget;
    assert pc < |f.code| && InstrOk(m, f, pc);
    LenOfOk(m, f, pc);
    assert JumpOk(f.code, pc);
    InstrOkIsFits(m, f, pc);
    NextStart(f.code, 0, pc);
    JumpIsGoto(f.code, pc);
  }

  lemma JumpIsGoto(code: seq<Byte>, pc: nat)
    requires pc < |code| && InstrLen(code, pc) > 0
    ensures var i := Decode(code, pc);
            (i.Goto? || i.GotoIfFalse? ==> IsJump(code[pc]) && JumpTarget(code, pc) == pc + InstrLen(code, pc) + i.off)
  {
    if IsJump(code[pc]) { LenFixed(code, pc); }
    hide InstrLen;
  }

  lemma InvIsReady(m: Module, env: Env, st: State)
    requires VerifiedModule(m) && Inv(m, env, st) && st.frames != []
    ensures Ready(m, st)
  {
    hide Starts, Verified, ObjsOk, ValuesOk, Fits, Decode, InstrLen;
    var k := |st.frames| - 1;
    assert FrameOk(m, st.objs, st.frames[k]);
    assert k >= 1 ==> st.frames[k].resultReg < |st.frames[k - 1].regs|;
    var fr := Top(st);
    assert Verified(m, m.funcs[fr.func]);
    if fr.pc < |m.funcs[fr.func].code| {
      Continuations(m, m.funcs[fr.func], fr.pc);
    }
  }

  // ---- what one step may change ----------------------------------------------------

  lemma FrameGrows(m: Module, objs: Objects, objs': Objects, fr: Frame)
    requires FrameOk(m, objs, fr) && |objs| <= |objs'|
    ensures FrameOk(m, objs', fr)
  {
  }

  lemma ObjGrows(objs: Objects, objs': Objects, o: Obj)
    requires ObjOk(objs, o) && |objs| <= |objs'|
    ensures ObjOk(objs', o)
  {
  }

  lemma SetTopInv(m: Module, env: Env, st: State, fr: Frame)
    requires Inv(m, env, st) && st.frames != [] && FrameOk(m, st.objs, fr)
    requires fr.resultReg == Top(st).resultReg && |fr.regs| == |Top(st).regs|
    ensures Inv(m, env, SetTop(st, fr))
  {
    hide FrameOk, ObjsOk;
    var st' := SetTop(st, fr);
    forall i | 0 <= i < |st'.frames| ensures FrameOk(m, st'.objs, st'.frames[i]) {
      assert i < |st.frames| - 1 ==> FrameOk(m, st.objs, st.frames[i]);
    }
    forall i | 1 <= i < |st'.frames| ensures st'.frames[i].resultReg < |st'.frames[i - 1].regs| {
      assert st.frames[i].resultReg < |st.frames[i - 1].regs|;
    }
  }

  lemma SetObjsInv(m: Module, env: Env, st: State, objs: Objects)
    requires Inv(m, env, st) && ObjsOk(objs) && |st.objs| <= |objs|
    ensures Inv(m, env, st.(objs := objs))
  {
    hide ObjsOk, FrameOk;
    forall i | 0 <= i < |st.frames| ensures FrameOk(m, objs, st.frames[i]) {
      assert FrameOk(m, st.objs, st.frames[i]);
      FrameGrows(m, st.objs, objs, st.frames[i]);
    }
  }

  /** Replacing an object by a valid one keeps the table valid. */
  lemma ReplaceObj(objs: Objects, id: nat, o: Obj)
    requires ObjsOk(objs) && id < |objs| && ObjOk(objs, o)
    ensures ObjsOk(objs[id := o])
  {
    var objs' := objs[id := o];
    forall i | 0 <= i < |objs'| ensures ObjOk(objs', objs'[i]) {
      assert ObjOk(objs, objs[i]);
      ObjGrows(objs, objs', if i != id then objs[i] else o);
    }
  }

  lemma AddObj(objs: Objects, o: Obj)
    requires ObjsOk(objs) && ObjOk(objs, o)
    ensures ObjsOk(objs + [o])
  {
    var objs' := objs + [o];
    forall i | 0 <= i < |objs'| ensures ObjOk(objs', objs'[i]) {
      assert i < |objs| ==> ObjOk(objs, objs[i]);
      ObjGrows(objs, objs', if i < |objs| then objs[i] else o);
    }
  }

  /** The frame the step starts in, and where it may go on. */
  ghost predicate Here(m: Module, env: Env, st: State, len: nat) {
    && Inv(m, env, st) && st.frames != []
    && FrameOk(m, st.objs, Top(st))
    && PcOk(m.funcs[Top(st).func].code, Top(st).pc + len)
  }

  lemma WriteRegInv(m: Module, env: Env, st: State, r: nat, v: Value, len: nat)
    requires Here(m, env, st, len) && r < |Top(st).regs| && ValueOk(st.objs, v)
    ensures Inv(m, env, WriteReg(st, r, v, len))
  {
    hide Inv, Starts;
    var fr := Top(st);
    SetTopInv(m, env, st, fr.(regs := fr.regs[r := v], pc := fr.pc + len));
  }

  lemma AdvanceInv(m: Module, env: Env, st: State, len: nat)
    requires Here(m, env, st, len)
    ensures Inv(m, env, Advance(st, len))
  {
    hide Inv, Starts;
    SetTopInv(m, env, st, Top(st).(pc := Top(st).pc + len));
  }

  lemma GotoInv(m: Module, env: Env, st: State, target: nat)
    requires Here(m, env, st, 0) || (Inv(m, env, st) && st.frames != [] && FrameOk(m, st.objs, Top(st)))
    requires PcOk(m.funcs[Top(st).func].code, target)
    ensures Inv(m, env, SetTop(st, Top(st).(pc := target)))
  {
    hide Inv, Starts;
    SetTopInv(m, env, st, Top(st).(pc := target));
  }

  lemma HereObjs(m: Module, env: Env, st: State, len: nat, objs: Objects)
    requires Here(m, env, st, len) && ObjsOk(objs) && |st.objs| <= |objs|
    ensures Here(m, env, st.(objs := objs), len)
  {
    hide Inv, ObjsOk, FrameOk;
    SetObjsInv(m, env, st, objs);
    FrameGrows(m, st.objs, objs, Top(st));
  }

  lemma AllocateInv(m: Module, env: Env, st: State, r: nat, o: Obj, len: nat)
    requires Here(m, env, st, len) && r < |Top(st).regs| && ObjOk(st.objs, o)
    ensures Inv(m, env, Allocate(env, st, r, o, len))
  {
    if !env.full(st.objs) {
      AddObj(st.objs, o);
      HereObjs(m, env, st, len, st.objs + [o]);
      WriteRegInv(m, env, st.(objs := st.objs + [o]), r, VObj(|st.objs|), len);
    }
  }

  lemma ReplaceInv(m: Module, env: Env, st: State, id: nat, o: Obj, len: nat)
    requires Here(m, env, st, len) && id < |st.objs| && ObjOk(st.objs, o)
    ensures Inv(m, env, Advance(st.(objs := st.objs[id := o]), len))
  {
    ReplaceObj(st.objs, id, o);
    HereObjs(m, env, st, len, st.objs[id := o]);
    AdvanceInv(m, env, st.(objs := st.objs[id := o]), len);
  }

  lemma ReturnInv(m: Module, env: Env, st: State, v: Value)
    requires Inv(m, env, st) && st.frames != [] && ValueOk(st.objs, v)
    requires |st.frames| >= 2 ==> Top(st).resultReg < |st.frames[|st.frames| - 2].regs|
    ensures Inv(m, env, Return(st, v))
  {
    hide ObjsOk, Starts;
    var st' := Return(st, v);
    forall i | 0 <= i < |st'.frames| ensures FrameOk(m, st'.objs, st'.frames[i]) {
      assert FrameOk(m, st.objs, st.frames[i]);
    }
    forall i | 1 <= i < |st'.frames| ensures st'.frames[i].resultReg < |st'.frames[i - 1].regs| {
      assert st.frames[i].resultReg < |st.frames[i - 1].regs|;
    }
  }

  lemma EnterInv(m: Module, env: Env, st: State, func: nat, base: nat, args: seq<Value>, closure: Value, len: nat)
    requires Here(m, env, st, len) && func < |m.funcs| && base < |Top(st).regs|
    requires ValuesOk(st.objs, args) && ValueOk(st.objs, closure)
    ensures Inv(m, env, Enter(m, env, st, func, base, args, closure, len))
  {
    if |st.frames| < env.maxDepth {
      AdvanceInv(m, env, st, len);
      var back := Advance(st, len);
      var fr := Frame(func, 0, NewRegs(m.funcs[func], args), base, closure);
      StartOk(m.funcs[func].code);
      assert FrameOk(m, st.objs, fr);
      hide Starts, FrameOk, ObjsOk;
      var st' := back.(frames := back.frames + [fr]);
      forall i | 0 <= i < |st'.frames| ensures FrameOk(m, st'.objs, st'.frames[i]) {
        assert i < |back.frames| ==> FrameOk(m, back.objs, back.frames[i]);
      }
      forall i | 1 <= i < |st'.frames| ensures st'.frames[i].resultReg < |st'.frames[i - 1].regs| {
        assert i < |back.frames| ==> back.frames[i].resultReg < |back.frames[i - 1].regs|;
      }
    }
  }

  lemma StartOk(code: seq<Byte>)
    ensures 0 in Starts(code, 0) || |code| == 0
  {
  }

  // ---- every instruction keeps the invariant ------------------------------------------

  lemma ObjAt(objs: Objects, v: Value)
    requires ObjsOk(objs) && ValueOk(objs, v) && v.VObj?
    ensures ObjOk(objs, objs[v.id])
  {
  }

  /** Results of operators are never references. */
  lemma OperatorResult(fp: FpOps, objs: Objects, op: Byte, a: Value, b: Value)
    ensures BinaryOp(fp, objs, op, a, b).Good? ==> !BinaryOp(fp, objs, op, a, b).v.VObj?
    ensures UnaryOp(fp, op, a).Good? ==> !UnaryOp(fp, op, a).v.VObj?
  {
    hide ValuesEqual, Compare, Wrap, TruncDiv, TruncMod, BitAnd, BitOr, BitXor, Unsigned, Pow2;
  }

  lemma ArrayInv(m: Module, env: Env, st: State, r: nat, a: Value, i: Value, v: Value, len: nat)
    requires Here(m, env, st, len) && ValueOk(st.objs, a) && ValueOk(st.objs, v)
    ensures r < |Top(st).regs| ==> Inv(m, env, ArrayGet(st, r, a, i, len))
    ensures Inv(m, env, ArraySet(st, a, i, v, len))
    ensures Inv(m, env, ArrayPush(env, st, a, v, len))
  {
    hide FrameOk, ObjsOk, PcOk;
    if a.VObj? && st.objs[a.id].Arr? {
      ObjAt(st.objs, a);
      var items := st.objs[a.id].items;
      ReplaceInv(m, env, st, a.id, Arr(items + [v]), len);
      if i.VInt? && 0 <= i.i < |items| {
        ReplaceInv(m, env, st, a.id, Arr(items[i.i := v]), len);
        if r < |Top(st).regs| { WriteRegInv(m, env, st, r, items[i.i], len); }
      }
    }
  }

  lemma FieldInv(m: Module, env: Env, st: State, r: nat, a: Value, key: string, v: Value, len: nat)
    requires Here(m, env, st, len) && ValueOk(st.objs, a) && ValueOk(st.objs, v)
    ensures r < |Top(st).regs| ==> Inv(m, env, GetField(st, r, a, key, len))
    ensures Inv(m, env, SetField(env, st, a, key, v, len))
  {
    hide FrameOk, ObjsOk, PcOk;
    if a.VObj? && st.objs[a.id].Map? {
      ObjAt(st.objs, a);
      var o := st.objs[a.id];
      var j := FindKey(o.keys, key);
      if r < |Top(st).regs| { WriteRegInv(m, env, st, r, if 0 <= j < |o.vals| then o.vals[j] else VNil, len); }
      ReplaceInv(m, env, st, a.id, Map(o.keys + [key], o.vals + [v]), len);
      if 0 <= j < |o.vals| {
        ReplaceInv(m, env, st, a.id, Map(o.keys, o.vals[j := v]), len);
      }
    }
  }

  lemma NativeInv(m: Module, env: Env, st: State, base: nat, name: string, args: seq<Value>, len: nat)
    requires Here(m, env, st, len) && base < |Top(st).regs| && NativesOk(env) && ValuesOk(st.objs, args)
    ensures Inv(m, env, CallNative(env, st, base, name, args, len))
  {
    assert ObjsOk(st.objs);
    if name in env.natives && env.natives[name].arityMin <= |args| <= env.natives[name].arityMax {
      var res := env.natives[name].run(args, st.objs);
      if res.Returned? {
        HereObjs(m, env, st, len, res.objs);
        WriteRegInv(m, env, st.(objs := res.objs), base, res.v, len);
      }
    }
  }

  lemma ConstantInv(m: Module, env: Env, st: State, r: nat, c: Constant, len: nat)
    requires Here(m, env, st, len) && r < |Top(st).regs|
    ensures Inv(m, env, LoadConstant(env, st, r, c, len))
  {
    hide Here, Inv;
    match c
    case CInt(i) => WriteRegInv(m, env, st, r, VInt(i), len);
    case CDouble(d) => WriteRegInv(m, env, st, r, VDbl(d), len);
    case CBool(b) => WriteRegInv(m, env, st, r, VBool(b), len);
    case CNil => WriteRegInv(m, env, st, r, VNil, len);
    case CStr(t) => AllocateInv(m, env, st, r, Str(t), len);
  }

  lemma OutputInv(m: Module, env: Env, st: State, output: seq<Value>)
    requires Inv(m, env, st)
    ensures Inv(m, env, st.(output := output))
  {
    hide FrameOk, ObjsOk;
    forall i | 0 <= i < |st.frames| ensures FrameOk(m, st.objs, st.frames[i]) {}
  }

  lemma OutputHere(m: Module, env: Env, st: State, len: nat, output: seq<Value>)
    requires Here(m, env, st, len)
    ensures Here(m, env, st.(output := output), len)
  {
    hide FrameOk, PcOk, Inv;
    OutputInv(m, env, st, output);
  }

  /** Instructions on registers, constants and objects. */
  lemma ExecInv(m: Module, env: Env, st: State, i: Instr, len: nat)
    requires Here(m, env, st, len) && NativesOk(env) && Fits(m, m.funcs[Top(st).func], i)
    requires |st.frames| >= 2 ==> Top(st).resultReg < |st.frames[|st.frames| - 2].regs|
    requires i.Goto? || i.GotoIfFalse? ==> PcOk(m.funcs[Top(st).func].code, Top(st).pc + len + i.off)
    ensures Inv(m, env, Exec(m, env, st, i, len))
  {
    var fr := Top(st);
    var regs := fr.regs;
    if i.Two? || i.Three? {
      ExecOperatorInv(m, env, st, i, len);
    } else if i.Call? || i.CallValue? || i.Closure? || i.GetUpval? {
      ExecCallInv(m, env, st, i, len);
    } else {
      ExecPlainInv(m, env, st, i, len);
    }
  }

  lemma ExecOperatorInv(m: Module, env: Env, st: State, i: Instr, len: nat)
    requires Here(m, env, st, len) && Fits(m, m.funcs[Top(st).func], i) && (i.Two? || i.Three?)
    requires |st.frames| >= 2 ==> Top(st).resultReg < |st.frames[|st.frames| - 2].regs|
    ensures Inv(m, env, Exec(m, env, st, i, len))
  {
    assert ValuesOk(st.objs, Top(st).regs) && Inv(m, env, st);
    hide Here, Inv, BinaryOp, UnaryOp;
    var regs := Top(st).regs;
    if i.Two? {
      if i.op == MOVE {
        WriteRegInv(m, env, st, i.r, regs[i.a], len);
      } else {
        OperatorResult(env.fp, st.objs, i.op, regs[i.a], VNil);
        var o := UnaryOp(env.fp, i.op, regs[i.a]);
        if o.Good? { WriteRegInv(m, env, st, i.r, o.v, len); } else { FailInv(m, env, st, o.e); }
      }
    } else {
      ArrayInv(m, env, st, i.r, regs[i.a], regs[i.b], VNil, len);
      ArrayInv(m, env, st, i.r, regs[i.r], regs[i.a], regs[i.b], len);
      OperatorResult(env.fp, st.objs, i.op, regs[i.a], regs[i.b]);
      var o := BinaryOp(env.fp, st.objs, i.op, regs[i.a], regs[i.b]);
      if o.Good? { WriteRegInv(m, env, st, i.r, o.v, len); } else { FailInv(m, env, st, o.e); }
    }
  }

  lemma FailInv(m: Module, env: Env, st: State, e: Err)
    requires Inv(m, env, st)
    ensures Inv(m, env, Fail(st, e))
  {
    hide FrameOk, ObjsOk;
    forall i | 0 <= i < |st.frames| ensures FrameOk(m, st.objs, st.frames[i]) {}
  }

  lemma ExecCallInv(m: Module, env: Env, st: State, i: Instr, len: nat)
    requires Here(m, env, st, len) && NativesOk(env) && Fits(m, m.funcs[Top(st).func], i)
    requires i.Call? || i.CallValue? || i.Closure? || i.GetUpval?
    requires |st.frames| >= 2 ==> Top(st).resultReg < |st.frames[|st.frames| - 2].regs|
    ensures Inv(m, env, Exec(m, env, st, i, len))
  {
    RegsValid(m, env, st, len);
    hide Here, Inv, Enter, CallNative, CallClosure, Allocate, WriteReg, FindFunction, ValuesOk;
    var regs := Top(st).regs;
    if i.Call? {
      SliceValid(st.objs, regs, i.r, i.r + i.n);
      if i.native {
        NativeInv(m, env, st, i.r, m.consts[i.k].s, regs[i.r..i.r + i.n], len);
      } else {
        CallNamedInv(m, env, st, i.r, m.consts[i.k].s, regs[i.r..i.r + i.n], len);
      }
    } else if i.CallValue? {
      SliceValid(st.objs, regs, i.r + 1, i.r + 1 + i.n);
      CallClosureInv(m, env, st, i.r, regs[i.r], regs[i.r + 1..i.r + 1 + i.n], len);
    } else if i.Closure? {
      var ups := seq(|i.srcs|, j requires 0 <= j < |i.srcs| => regs[i.srcs[j]]);
      CapturesValid(st.objs, regs, i.srcs, ups);
      AllocateInv(m, env, st, i.r, Clo(i.k, ups), len);
    } else {
      UpvalInv(m, env, st, i.r, i.n, len);
    }
  }

  lemma RegsValid(m: Module, env: Env, st: State, len: nat)
    requires Here(m, env, st, len)
    ensures ValuesOk(st.objs, Top(st).regs) && forall i :: 0 <= i < |Top(st).regs| ==> ValueOk(st.objs, Top(st).regs[i])
  {
  }

  lemma SliceValid(objs: Objects, regs: seq<Value>, lo: nat, hi: nat)
    requires ValuesOk(objs, regs) && lo <= hi <= |regs|
    ensures ValuesOk(objs, regs[lo..hi])
  {
  }

  lemma CapturesValid(objs: Objects, regs: seq<Value>, srcs: seq<Byte>, ups: seq<Value>)
    requires ValuesOk(objs, regs) && |ups| == |srcs|
    requires forall j :: 0 <= j < |srcs| ==> srcs[j] < |regs| && ups[j] == regs[srcs[j]]
    ensures ValuesOk(objs, ups)
  {
  }

  lemma CallNamedInv(m: Module, env: Env, st: State, base: nat, name: string, args: seq<Value>, len: nat)
    requires Here(m, env, st, len) && base < |Top(st).regs| && ValuesOk(st.objs, args)
    ensures -1 <= FindFunction(m, name, |m.funcs|) < |m.funcs|
    ensures var f := FindFunction(m, name, |m.funcs|);
            Inv(m, env, if f < 0 then Fail(st, UndefinedFunction) else Enter(m, env, st, f, base, args, VNil, len))
  {
    assert Inv(m, env, st);
    hide Here, Inv, Enter;
    FoundInRange(m, name, |m.funcs|);
    var f := FindFunction(m, name, |m.funcs|);
    if f < 0 { FailInv(m, env, st, UndefinedFunction); } else { EnterInv(m, env, st, f, base, args, VNil, len); }
  }

  lemma CallClosureInv(m: Module, env: Env, st: State, base: nat, callee: Value, args: seq<Value>, len: nat)
    requires Here(m, env, st, len) && base < |Top(st).regs| && ValuesOk(st.objs, args) && ValueOk(st.objs, callee)
    ensures Inv(m, env, CallClosure(m, env, st, base, callee, args, len))
  {
    assert Inv(m, env, st);
    hide Here, Inv, Enter;
    FailInv(m, env, st, CallOfNonFunction);
    FailInv(m, env, st, BadClosure);
    if callee.VObj? && st.objs[callee.id].Clo? && st.objs[callee.id].func < |m.funcs| {
      EnterInv(m, env, st, st.objs[callee.id].func, base, args, callee, len);
    }
  }

  lemma UpvalInv(m: Module, env: Env, st: State, r: nat, n: nat, len: nat)
    requires Here(m, env, st, len) && r < |Top(st).regs| && Top(st).func < |m.funcs|
    requires |Top(st).regs| == m.funcs[Top(st).func].numRegs && n < 256 && r < 256
    requires |st.frames| >= 2 ==> Top(st).resultReg < |st.frames[|st.frames| - 2].regs|
    ensures Inv(m, env, Exec(m, env, st, GetUpval(r, n), len))
  {
    var closure := Top(st).closure;
    assert ValueOk(st.objs, closure) && Inv(m, env, st) && ObjsOk(st.objs);
    hide Here, Inv, ObjsOk;
    FailInv(m, env, st, BadUpvalue);
    if closure.VObj? && st.objs[closure.id].Clo? && n < |st.objs[closure.id].upvals| {
      ObjAt(st.objs, closure);
      WriteRegInv(m, env, st, r, st.objs[closure.id].upvals[n], len);
    }
  }

  lemma ExecPlainInv(m: Module, env: Env, st: State, i: Instr, len: nat)
    requires Here(m, env, st, len) && Fits(m, m.funcs[Top(st).func], i)
    requires !(i.Two? || i.Three? || i.Call? || i.CallValue? || i.Closure? || i.GetUpval?)
    requires |st.frames| >= 2 ==> Top(st).resultReg < |st.frames[|st.frames| - 2].regs|
    requires i.Goto? || i.GotoIfFalse? ==> PcOk(m.funcs[Top(st).func].code, Top(st).pc + len + i.off)
    ensures Inv(m, env, Exec(m, env, st, i, len))
  {
    var fr := Top(st);
    var regs := fr.regs;
    assert ValuesOk(st.objs, regs) && Inv(m, env, st) && FrameOk(m, st.objs, fr);
    hide Here, ObjsOk, FrameOk, PcOk;
    match i
    case Halt =>
    case LoadConst(r, k) => ConstantInv(m, env, st, r, m.consts[k], len);
    case LoadNil(r) => WriteRegInv(m, env, st, r, VNil, len);
    case NewArray(r, n) => AllocateInv(m, env, st, r, Arr(seq(n, _ => VNil)), len);
    case NewObject(r) => AllocateInv(m, env, st, r, Map([], []), len);
    case GetProp(r, a, k) => FieldInv(m, env, st, r, regs[a], m.consts[k].s, VNil, len);
    case SetProp(r, k, a) => FieldInv(m, env, st, r, regs[r], m.consts[k].s, regs[a], len);
    case Push(r, a) => ArrayInv(m, env, st, r, regs[r], VNil, regs[a], len);
    case Ret(r) => ReturnInv(m, env, st, regs[r]);
    case Goto(off) => GotoInv(m, env, st, fr.pc + len + off);
    case GotoIfFalse(r, off) =>
      if Truthy(env.fp, regs[r]) { AdvanceInv(m, env, st, len); } else { GotoInv(m, env, st, fr.pc + len + off); }
    case Print(r) =>
      OutputHere(m, env, st, len, st.output + [regs[r]]);
      AdvanceInv(m, env, st.(output := st.output + [regs[r]]), len);
  }

  /** Each step of a verified module is allowed and keeps the invariant. */
  lemma StepInv(m: Module, env: Env, st: State)
    requires VerifiedModule(m) && NativesOk(env) && Inv(m, env, st) && st.frames != []
    ensures Ready(m, st) && Inv(m, env, Step(m, env, st))
  {
    hide Starts, Verified, Fits, InstrLen, Decode, ObjsOk, ValuesOk, Exec, Return;
    InvIsReady(m, env, st);
    var fr := Top(st);
    var f := m.funcs[fr.func];
    assert FrameOk(m, st.objs, st.frames[|st.frames| - 1]);
    hide Inv;
    if fr.pc < |f.code| {
      Continuations(m, f, fr.pc);
      ExecInv(m, env, st, Decode(f.code, fr.pc), InstrLen(f.code, fr.pc));
    } else {
      ReturnInv(m, env, st, VNil);
    }
  }

  // ---- whole runs ------------------------------------------------------------------------

  predicate Running(st: State) {
    st.frames != [] && st.error == []
  }

  function Initial(m: Module): State
    requires m.entry < |m.funcs|
  {
    State([Frame(m.entry, 0, seq(m.funcs[m.entry].numRegs, _ => VNil), 0, VNil)], [], [], [])
  }

  lemma InitialInv(m: Module, env: Env)
    requires m.entry < |m.funcs|
    ensures Inv(m, env, Initial(m))
  {
    hide Starts;
    StartOk(m.funcs[m.entry].code);
  }

  /** The state after up to `n` steps. */
  ghost function After(m: Module, env: Env, n: nat): (st: State)
    requires VerifiedModule(m) && NativesOk(env) && m.entry < |m.funcs|
    ensures Inv(m, env, st)
  {
    if n == 0 then InitialInv(m, env); Initial(m)
    else
      var st := After(m, env, n - 1);
      if Running(st) then StepInv(m, env, st); Step(m, env, st) else st
  }

  /** Verified means safe: in every reachable state each frame is at an instruction the
      verifier accepted or at the end of its code, all its operands are in range, each
      callee returns into its caller's window, and the depth limit is kept. */
  lemma VerifiedRunsAreSafe(m: Module, env: Env, n: nat)
    requires VerifiedModule(m) && NativesOk(env) && m.entry < |m.funcs|
    ensures var st := After(m, env, n);
            && (Running(st) ==> Ready(m, st))
            && |st.frames| <= (if env.maxDepth > 1 then env.maxDepth else 1)
            && forall i :: 0 <= i < |st.frames| ==>
                 var fr := st.frames[i];
                 && fr.func < |m.funcs| && |fr.regs| == m.funcs[fr.func].numRegs
                 && (fr.pc in Starts(m.funcs[fr.func].code, 0) || fr.pc == |m.funcs[fr.func].code|)
                 && (i >= 1 ==> fr.resultReg < |st.frames[i - 1].regs|)
  {
    hide Starts, Verified, ObjsOk, ValuesOk, After, Step, Ready, VerifiedModule, NativesOk, Initial;
    var st := After(m, env, n);
    if st.frames != [] { InvIsReady(m, env, st); }
    forall i | 0 <= i < |st.frames| ensures FrameOk(m, st.objs, st.frames[i]) {}
  }

  /** A run that has stopped stays as it is. */
  lemma {:induction false} StoppedStays(m: Module, env: Env, k: nat, n: nat)
    requires VerifiedModule(m) && NativesOk(env) && m.entry < |m.funcs|
    requires k <= n && !Running(After(m, env, k))
    ensures After(m, env, n) == After(m, env, k)
    decreases n - k
  {
    hide Inv, Step;
    if k < n { StoppedStays(m, env, k, n - 1); }
  }

  /** run: executes the entry function of a verified module within the budget. */
  method Run(m: Module, env: Env, maxInsns: nat) returns (st: State)
    requires VerifiedModule(m) && NativesOk(env)
    ensures m.entry >= |m.funcs| ==> st == State([], [], [], [EntryRange])
    ensures m.entry < |m.funcs| ==>
              st == var s := After(m, env, maxInsns); if Running(s) then Fail(s, BudgetExceeded) else s
  {
    if m.entry >= |m.funcs| {
      return State([], [], [], [EntryRange]);
    }
    hide Inv, Step, VerifiedModule, NativesOk;
    st := Initial(m);
    var insns := 0;
    while Running(st)
      invariant insns <= maxInsns && st == After(m, env, insns)
      decreases maxInsns - insns, Running(st)
    {
      if insns == maxInsns {
        st := Fail(st, BudgetExceeded);
        return;
      }
      insns := insns + 1;
      StepInv(m, env, st);
      st := Step(m, env, st);
    }
    StoppedStays(m, env, insns, maxInsns);
  }
}
