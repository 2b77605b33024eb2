/** The register machine: one step of the interpreter over a stack of frames, and
    the run loop with its instruction budget and depth limit. */
module Machine {
  import opened Bytecode
  import opened Verifier
  import opened Decoder
  import opened Values

  datatype Frame = Frame(func: nat, pc: nat, regs: seq<Value>, resultReg: nat, closure: Value)

  datatype State = State(frames: seq<Frame>, objs: Objects, output: seq<Value>, error: seq<Err>)

  datatype NativeResult = Returned(v: Value, objs: Objects) | Failed | Exhausted

  datatype Native = Native(arityMin: nat, arityMax: nat, run: (seq<Value>, Objects) -> NativeResult)

  /** What the machine runs in: double arithmetic, builtins, the depth limit, and when
      an allocation fails. */
  datatype Env = Env(fp: FpOps, natives: map<string, Native>, maxDepth: nat, full: Objects -> bool)

  // ---- small pieces ------------------------------------------------------------

  function Top(st: State): Frame
    requires st.frames != []
  {
    st.frames[|st.frames| - 1]
  }

  function SetTop(st: State, fr: Frame): State
    requires st.frames != []
  {
    st.(frames := st.frames[|st.frames| - 1 := fr])
  }

  function Fail(st: State, e: Err): State {
    st.(error := [e])
  }

  /** Writes register `r` of the top frame and moves on by `len`. */
  function WriteReg(st: State, r: nat, v: Value, len: nat): State
    requires st.frames != [] && r < |Top(st).regs|
  {
    var fr := Top(st);
    SetTop(st, fr.(regs := fr.regs[r := v], pc := fr.pc + len))
  }

  function Advance(st: State, len: nat): State
    requires st.frames != []
  {
    SetTop(st, Top(st).(pc := Top(st).pc + len))
  }

  /** Stores the result of an operator or stops with its error. */
  function Settle(st: State, r: nat, o: Outcome, len: nat): State
    requires st.frames != [] && r < |Top(st).regs|
  {
    match o
    case Good(v) => WriteReg(st, r, v, len)
    case Bad(e) => Fail(st, e)
  }

  /** Allocates `o` and stores a reference to it. */
  function Allocate(env: Env, st: State, r: nat, o: Obj, len: nat): State
    requires st.frames != [] && r < |Top(st).regs|
  {
    if env.full(st.objs) then Fail(st, OutOfMemory)
    else WriteReg(st.(objs := st.objs + [o]), r, VObj(|st.objs|), len)
  }

  /** Pops the top frame and hands `v` to the caller's result register. */
  function Return(st: State, v: Value): State
    requires st.frames != []
    requires |st.frames| >= 2 ==> Top(st).resultReg < |st.frames[|st.frames| - 2].regs|
  {
    var rest := st.frames[..|st.frames| - 1];
    if rest == [] then st.(frames := [])
    else
      var caller := rest[|rest| - 1];
      st.(frames := rest[|rest| - 1 := caller.(regs := caller.regs[Top(st).resultReg := v])])
  }

  function NewRegs(f: Function, args: seq<Value>): (regs: seq<Value>)
    ensures |regs| == f.numRegs
  {
    seq(f.numRegs, i => if 0 <= i < f.numParams && i < |args| then args[i] else VNil)
  }

  /** Calls function `func`: the caller resumes after the call, the callee starts at 0. */
  function Enter(m: Module, env: Env, st: State, func: nat, base: nat, args: seq<Value>, closure: Value, len: nat): State
    requires st.frames != [] && func < |m.funcs|
  {
    if |st.frames| >= env.maxDepth then Fail(st, DepthExceeded)
    else
      var back := Advance(st, len);
      back.(frames := back.frames + [Frame(func, 0, NewRegs(m.funcs[func], args), base, closure)])
  }

  /** The last function with that name, as the interpreter's name table resolves it. */
  function FindFunction(m: Module, name: string, n: nat): int
    requires n <= |m.funcs|
  {
    if n == 0 then -1
    else
      var k := m.funcs[n - 1].nameConst;
      if k < |m.consts| && m.consts[k] == CStr(name) then n - 1 else FindFunction(m, name, n - 1)
  }

  lemma {:induction false} FoundInRange(m: Module, name: string, n: nat)
    requires n <= |m.funcs|
    ensures -1 <= FindFunction(m, name, n) < n
  {
    if n > 0 { FoundInRange(m, name, n - 1); }
  }

  function FindKey(keys: seq<string>, key: string): (i: int)
    ensures -1 <= i < |keys|
    ensures i >= 0 ==> keys[i] == key
    ensures i == -1 ==> key !in keys
  {
    if keys == [] then -1
    else if keys[0] == key then 0
    else
      var i := FindKey(keys[1..], key);
      if i < 0 then -1 else i + 1
  }

  // ---- validity ------------------------------------------------------------------

  predicate ValueOk(objs: Objects, v: Value) {
    v.VObj? ==> v.id < |objs|
  }

  ghost predicate ValuesOk(objs: Objects, vs: seq<Value>) {
    forall i :: 0 <= i < |vs| ==> ValueOk(objs, vs[i])
  }

  ghost predicate ObjOk(objs: Objects, o: Obj) {
    match o
    case Str(_) => true
    case Arr(items) => ValuesOk(objs, items)
    case Map(keys, vals) => |keys| == |vals| && ValuesOk(objs, vals)
    case Clo(_, upvals) => ValuesOk(objs, upvals)
    case Other(refs) => ValuesOk(objs, refs)
  }

  ghost predicate ObjsOk(objs: Objects) {
    forall i {:trigger ObjOk(objs, objs[i])} :: 0 <= i < |objs| ==> ObjOk(objs, objs[i])
  }

  /** Builtins hand back valid values and never take objects away. */
  ghost predicate NativesOk(env: Env) {
    forall name, args, objs {:trigger env.natives[name].run(args, objs)} ::
      name in env.natives && ObjsOk(objs) && ValuesOk(objs, args) ==>
        (env.natives[name].run(args, objs).Returned? ==>
           (ObjsOk(env.natives[name].run(args, objs).objs)
            && |objs| <= |env.natives[name].run(args, objs).objs|
            && ValueOk(env.natives[name].run(args, objs).objs, env.natives[name].run(args, objs).v)))
  }

  /** A frame sits at an instruction the verifier saw, or at the end of the code. */
  ghost predicate FrameOk(m: Module, objs: Objects, fr: Frame) {
    && fr.func < |m.funcs|
    && |fr.regs| == m.funcs[fr.func].numRegs
    && (fr.pc in Starts(m.funcs[fr.func].code, 0) || fr.pc == |m.funcs[fr.func].code|)
    && ValuesOk(objs, fr.regs) && ValueOk(objs, fr.closure)
  }

  /** What every reachable state satisfies. */
  ghost predicate Inv(m: Module, env: Env, st: State) {
    && ObjsOk(st.objs)
    && (forall i {:trigger FrameOk(m, st.objs, st.frames[i])} :: 0 <= i < |st.frames| ==> FrameOk(m, st.objs, st.frames[i]))
    && (forall i {:trigger st.frames[i].resultReg} :: 1 <= i < |st.frames| ==> st.frames[i].resultReg < |st.frames[i - 1].regs|)
    && |st.frames| <= (if env.maxDepth > 1 then env.maxDepth else 1)
    && |st.error| <= 1
  }

  /** Where the machine can take a step: the instruction is complete and its operands
      are in range, so nothing below is checked again. */
  ghost predicate Ready(m: Module, st: State) {
    && st.frames != []
    && Top(st).func < |m.funcs|
    && |Top(st).regs| == m.funcs[Top(st).func].numRegs
    && (|st.frames| >= 2 ==> Top(st).resultReg < |st.frames[|st.frames| - 2].regs|)
    && var code := m.funcs[Top(st).func].code;
       (Top(st).pc < |code| ==>
          InstrLen(code, Top(st).pc) > 0
          && var i := Decode(code, Top(st).pc);
             Fits(m, m.funcs[Top(st).func], i)
             && (i.Goto? || i.GotoIfFalse? ==> Top(st).pc + InstrLen(code, Top(st).pc) + i.off >= 0))
  }

  // ---- one step --------------------------------------------------------------------

  function ArrayGet(st: State, r: nat, a: Value, i: Value, len: nat): State
    requires st.frames != [] && r < |Top(st).regs|
  {
    if !a.VObj? || a.id >= |st.objs| || !st.objs[a.id].Arr? then Fail(st, NotArray)
    else if !i.VInt? then Fail(st, IndexType)
    else if i.i < 0 || i.i >= |st.objs[a.id].items| then Fail(st, IndexRange)
    else WriteReg(st, r, st.objs[a.id].items[i.i], len)
  }

  function ArraySet(st: State, a: Value, i: Value, v: Value, len: nat): State
    requires st.frames != []
  {
    if !a.VObj? || a.id >= |st.objs| || !st.objs[a.id].Arr? then Fail(st, NotArray)
    else if !i.VInt? then Fail(st, IndexType)
    else if i.i < 0 || i.i >= |st.objs[a.id].items| then Fail(st, IndexRange)
    else Advance(st.(objs := st.objs[a.id := Arr(st.objs[a.id].items[i.i := v])]), len)
  }

  /** The backing store grows by allocating, so a push can run out of memory. */
  function ArrayPush(env: Env, st: State, a: Value, v: Value, len: nat): State
    requires st.frames != []
  {
    if !a.VObj? || a.id >= |st.objs| || !st.objs[a.id].Arr? then Fail(st, PushType)
    else if env.full(st.objs) then Fail(st, OutOfMemory)
    else Advance(st.(objs := st.objs[a.id := Arr(st.objs[a.id].items + [v])]), len)
  }

  function GetField(st: State, r: nat, a: Value, key: string, len: nat): State
    requires st.frames != [] && r < |Top(st).regs|
  {
    if !a.VObj? || a.id >= |st.objs| || !st.objs[a.id].Map? then Fail(st, NotObject)
    else
      var o := st.objs[a.id];
      var j := FindKey(o.keys, key);
      WriteReg(st, r, if 0 <= j < |o.vals| then o.vals[j] else VNil, len)
  }

  function SetField(env: Env, st: State, a: Value, key: string, v: Value, len: nat): State
    requires st.frames != []
  {
    if !a.VObj? || a.id >= |st.objs| || !st.objs[a.id].Map? then Fail(st, NotObject)
    else
      var o := st.objs[a.id];
      var j := FindKey(o.keys, key);
      if 0 <= j < |o.vals| then Advance(st.(objs := st.objs[a.id := Map(o.keys, o.vals[j := v])]), len)
      else if env.full(st.objs) then Fail(st, OutOfMemory)
      else Advance(st.(objs := st.objs[a.id := Map(o.keys + [key], o.vals + [v])]), len)
  }

  function CallNative(env: Env, st: State, base: nat, name: string, args: seq<Value>, len: nat): State
    requires st.frames != [] && base < |Top(st).regs|
  {
    if name !in env.natives then Fail(st, UnknownBuiltin)
    else if |args| < env.natives[name].arityMin || |args| > env.natives[name].arityMax then Fail(st, ArgCount)
    else
      match env.natives[name].run(args, st.objs)
      case Failed => Fail(st, BuiltinError)
      case Exhausted => Fail(st, OutOfMemory)
      case Returned(v, objs) => WriteReg(st.(objs := objs), base, v, len)
  }

  function CallClosure(m: Module, env: Env, st: State, base: nat, callee: Value, args: seq<Value>, len: nat): State
    requires st.frames != []
  {
    if !callee.VObj? || callee.id >= |st.objs| || !st.objs[callee.id].Clo? then Fail(st, CallOfNonFunction)
    else if st.objs[callee.id].func >= |m.funcs| then Fail(st, BadClosure)
    else Enter(m, env, st, st.objs[callee.id].func, base, args, callee, len)
  }

  function LoadConstant(env: Env, st: State, r: nat, c: Constant, len: nat): State
    requires st.frames != [] && r < |Top(st).regs|
  {
    match c
    case CInt(i) => WriteReg(st, r, VInt(i), len)
    case CDouble(d) => WriteReg(st, r, VDbl(d), len)
    case CBool(b) => WriteReg(st, r, VBool(b), len)
    case CNil => WriteReg(st, r, VNil, len)
    case CStr(s) => Allocate(env, st, r, Str(s), len)
  }

  /** Executes instruction `i` of length `len` in the top frame. */
  function Exec(m: Module, env: Env, st: State, i: Instr, len: nat): State
    requires st.frames != [] && Top(st).func < |m.funcs|
    requires |Top(st).regs| == m.funcs[Top(st).func].numRegs
    requires |st.frames| >= 2 ==> Top(st).resultReg < |st.frames[|st.frames| - 2].regs|
    requires Fits(m, m.funcs[Top(st).func], i)
    requires i.Goto? || i.GotoIfFalse? ==> Top(st).pc + len + i.off >= 0
  {
    var fr := Top(st);
    var regs := fr.regs;
    match i
    case Halt => st.(frames := [])
    case LoadConst(r, k) => LoadConstant(env, st, r, m.consts[k], len)
    case LoadNil(r) => WriteReg(st, r, VNil, len)
    case Two(op, r, a) =>
      if op == MOVE then WriteReg(st, r, regs[a], len) else Settle(st, r, UnaryOp(env.fp, op, regs[a]), len)
    case Three(op, r, a, b) =>
      if op == ARRAY_GET then ArrayGet(st, r, regs[a], regs[b], len)
      else if op == ARRAY_SET then ArraySet(st, regs[r], regs[a], regs[b], len)
      else Settle(st, r, BinaryOp(env.fp, st.objs, op, regs[a], regs[b]), len)
    case NewArray(r, n) => Allocate(env, st, r, Arr(seq(n, _ => VNil)), len)
    case NewObject(r) => Allocate(env, st, r, Map([], []), len)
    case GetProp(r, a, k) => GetField(st, r, regs[a], m.consts[k].s, len)
    case SetProp(r, k, a) => SetField(env, st, regs[r], m.consts[k].s, regs[a], len)
    case Push(r, a) => ArrayPush(env, st, regs[r], regs[a], len)
    case Call(native, r, k, n) =>
      if native then CallNative(env, st, r, m.consts[k].s, regs[r..r + n], len)
      else
        FoundInRange(m, m.consts[k].s, |m.funcs|);
        var f := FindFunction(m, m.consts[k].s, |m.funcs|);
        if f < 0 then Fail(st, UndefinedFunction) else Enter(m, env, st, f, r, regs[r..r + n], VNil, len)
    case CallValue(r, n) => CallClosure(m, env, st, r, regs[r], regs[r + 1..r + 1 + n], len)
    case Ret(r) => Return(st, regs[r])
    case Goto(off) => SetTop(st, fr.(pc := fr.pc + len + off))
    case GotoIfFalse(r, off) =>
      if Truthy(env.fp, regs[r]) then Advance(st, len)
      else SetTop(st, fr.(pc := fr.pc + len + off))
    case Print(r) => Advance(st.(output := st.output + [regs[r]]), len)
    case Closure(r, k, srcs) =>
      Allocate(env, st, r, Clo(k, seq(|srcs|, j requires 0 <= j < |srcs| => regs[srcs[j]])), len)
    case GetUpval(r, n) =>
      if !fr.closure.VObj? || fr.closure.id >= |st.objs| || !st.objs[fr.closure.id].Clo?
         || n >= |st.objs[fr.closure.id].upvals|
      then Fail(st, BadUpvalue)
      else WriteReg(st, r, st.objs[fr.closure.id].upvals[n], len)
  }

  /** One turn of the interpreter loop: running off the end returns nil. */
  function Step(m: Module, env: Env, st: State): State
    requires Ready(m, st)
  {
    var code := m.funcs[Top(st).func].code;
    var pc := Top(st).pc;
    if pc >= |code| then Return(st, VNil) else Exec(m, env, st, Decode(code, pc), InstrLen(code, pc))
  }
}
