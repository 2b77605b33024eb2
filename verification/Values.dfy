/** Run-time values and the interpreter's arithmetic on them. */
module Values {
  import opened Bytecode

  datatype Value = VNil | VInt(i: int) | VDbl(d: Fp) | VBool(b: bool) | VObj(id: nat)

  /** Heap objects as the interpreter sees them; `id`s index the object table. */
  datatype Obj =
    | Str(text: string)
    | Arr(items: seq<Value>)
    | Map(keys: seq<string>, vals: seq<Value>)
    | Clo(func: nat, upvals: seq<Value>)
    | Other(refs: seq<Value>)

  type Objects = seq<Obj>

  /** The double operations, shared by every part that computes with doubles. */
  datatype FpOps = FpOps(
    add: (Fp, Fp) -> Fp, sub: (Fp, Fp) -> Fp, mul: (Fp, Fp) -> Fp, div: (Fp, Fp) -> Fp, fmod: (Fp, Fp) -> Fp,
    neg: Fp -> Fp, ofInt: int -> Fp, eq: (Fp, Fp) -> bool, lt: (Fp, Fp) -> bool, le: (Fp, Fp) -> bool,
    isZero: Fp -> bool, isFinite: Fp -> bool)

  datatype Err =
    | ArithType | DivByZero | DivOverflow | ModType | ModByZero | ModOverflow | CompareType | BitType
    | ShiftType | ShiftRange | NegType | BitNotType | NotArray | IndexType | IndexRange | PushType | NotObject
    | UndefinedFunction | DepthExceeded | UnknownBuiltin | ArgCount | BuiltinError | BadUpvalue | CallOfNonFunction
    | BadClosure | OutOfMemory | BudgetExceeded | InvalidOpcode | EntryRange

  datatype Outcome = Good(v: Value) | Bad(e: Err)

  const TWO63 := 0x8000_0000_0000_0000
  const TWO64 := 0x1_0000_0000_0000_0000
  const I64_MIN := -TWO63

  predicate IsI64(x: int) {
    -TWO63 <= x < TWO63
  }

  /** Two's-complement wrap-around to 64 signed bits. */
  function Wrap(x: int): (r: int)
    ensures IsI64(r)
    ensures IsI64(x) ==> r == x
  {
    (x + TWO63) % TWO64 - TWO63
  }

  /** The same 64 bits read as unsigned. */
  function Unsigned(x: int): (r: nat)
    ensures r < TWO64
  {
    x % TWO64
  }

  /** C division and remainder truncate toward zero. */
  function TruncDiv(x: int, y: int): int
    requires y != 0
  {
    if x >= 0 then x / y else -((-x) / y)
  }

  function TruncMod(x: int, y: int): int
    requires y != 0
  {
    x - y * TruncDiv(x, y)
  }

  /** C's defining property of the pair, with the remainder's sign that of the dividend. */
  lemma TruncDivMod(x: int, y: int)
    requires y != 0
    ensures x == y * TruncDiv(x, y) + TruncMod(x, y)
    ensures -(if y < 0 then -y else y) < TruncMod(x, y) < (if y < 0 then -y else y)
    ensures (x >= 0 ==> TruncMod(x, y) >= 0) && (x <= 0 ==> TruncMod(x, y) <= 0)
  {
    if x < 0 {
      assert -x == y * ((-x) / y) + (-x) % y;
      assert y * (-((-x) / y)) == -(y * ((-x) / y));
    } else {
      assert x == y * (x / y) + x % y;
    }
  }

  function BitAnd(x: int, y: int): int {
    Wrap(((Unsigned(x) as bv64) & (Unsigned(y) as bv64)) as int)
  }

  function BitOr(x: int, y: int): int {
    Wrap(((Unsigned(x) as bv64) | (Unsigned(y) as bv64)) as int)
  }

  function BitXor(x: int, y: int): int {
    Wrap(((Unsigned(x) as bv64) ^ (Unsigned(y) as bv64)) as int)
  }

  function Pow2(n: nat): (r: nat)
    ensures r > 0
  {
    if n == 0 then 1 else 2 * Pow2(n - 1)
  }

  predicate IsNumber(v: Value) {
    v.VInt? || v.VDbl?
  }

  function AsDouble(fp: FpOps, v: Value): Fp
    requires IsNumber(v)
  {
    if v.VDbl? then v.d else fp.ofInt(v.i)
  }

  predicate Truthy(fp: FpOps, v: Value) {
    match v
    case VNil => false
    case VInt(i) => i != 0
    case VDbl(d) => !fp.isZero(d)
    case VBool(b) => b
    case VObj(_) => true
  }

  predicate ValuesEqual(fp: FpOps, objs: Objects, a: Value, b: Value) {
    if IsNumber(a) && IsNumber(b) then
      if a.VInt? && b.VInt? then a.i == b.i else fp.eq(AsDouble(fp, a), AsDouble(fp, b))
    else if a.VNil? && b.VNil? then true
    else if a.VBool? && b.VBool? then a.b == b.b
    else if a.VObj? && b.VObj? then
      a.id == b.id || (a.id < |objs| && b.id < |objs| && objs[a.id].Str? && objs[b.id].Str?
                       && objs[a.id].text == objs[b.id].text)
    else false
  }

  function IntArith(op: Byte, x: int, y: int): Outcome {
    if op == ADD then Good(VInt(Wrap(x + y)))
    else if op == SUB then Good(VInt(Wrap(x - y)))
    else if op == MUL then Good(VInt(Wrap(x * y)))
    else if op == DIV then
      if y == 0 then Bad(DivByZero)
      else if x == I64_MIN && y == -1 then Bad(DivOverflow)
      else Good(VInt(TruncDiv(x, y)))
    else
      if y == 0 then Bad(ModByZero)
      else if x == I64_MIN && y == -1 then Bad(ModOverflow)
      else Good(VInt(TruncMod(x, y)))
  }

  function FloatArith(fp: FpOps, op: Byte, x: Fp, y: Fp): Value {
    VDbl(if op == ADD then fp.add(x, y) else if op == SUB then fp.sub(x, y) else if op == MUL then fp.mul(x, y)
         else if op == DIV then fp.div(x, y) else fp.fmod(x, y))
  }

  function Compare(fp: FpOps, op: Byte, a: Value, b: Value): bool
    requires IsNumber(a) && IsNumber(b)
  {
    if a.VInt? && b.VInt? then
      if op == LT then a.i < b.i else if op == LE then a.i <= b.i else if op == GT then a.i > b.i else a.i >= b.i
    else
      var x, y := AsDouble(fp, a), AsDouble(fp, b);
      if op == LT then fp.lt(x, y) else if op == LE then fp.le(x, y) else if op == GT then fp.lt(y, x) else fp.le(y, x)
  }

  function BitOp(op: Byte, x: int, y: int): int {
    if op == BAND then BitAnd(x, y) else if op == BOR then BitOr(x, y) else BitXor(x, y)
  }

  /** The operators that write a result register: arithmetic, equality, comparison,
      bitwise operations and shifts. */
  function BinaryOp(fp: FpOps, objs: Objects, op: Byte, a: Value, b: Value): Outcome {
    if op == EQ || op == NE then Good(VBool((op == EQ) == ValuesEqual(fp, objs, a, b)))
    else if ADD <= op <= MOD then
      if !IsNumber(a) || !IsNumber(b) then Bad(if op == MOD then ModType else ArithType)
      else if a.VInt? && b.VInt? then IntArith(op, a.i, b.i)
      else Good(FloatArith(fp, op, AsDouble(fp, a), AsDouble(fp, b)))
    else if LT <= op <= GE then
      if !IsNumber(a) || !IsNumber(b) then Bad(CompareType) else Good(VBool(Compare(fp, op, a, b)))
    else if BAND <= op <= BXOR then
      if !a.VInt? || !b.VInt? then Bad(BitType) else Good(VInt(BitOp(op, a.i, b.i)))
    else
      if !a.VInt? || !b.VInt? then Bad(ShiftType)
      else if b.i < 0 || b.i >= 64 then Bad(ShiftRange)
      else if op == SHL then Good(VInt(Wrap(Unsigned(a.i) * Pow2(b.i))))
      else Good(VInt(Wrap(Unsigned(a.i) / Pow2(b.i))))
  }

  function UnaryOp(fp: FpOps, op: Byte, a: Value): Outcome {
    if op == NOT then Good(VBool(!Truthy(fp, a)))
    else if op == NEG then
      if a.VInt? then Good(VInt(Wrap(-a.i))) else if a.VDbl? then Good(VDbl(fp.neg(a.d))) else Bad(NegType)
    else
      if a.VInt? then Good(VInt(-a.i - 1)) else Bad(BitNotType)
  }
}
