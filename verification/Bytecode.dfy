/** Modules, constants and the instruction set: how instructions are laid out in
    bytes, shared by the compiler, the verifier and the interpreter. */
module Bytecode {

  type Byte = x: int | 0 <= x < 256

  /** A double, kept opaque: only its bits are stored, arithmetic is a parameter. */
  datatype Fp = Fp(bits: int)

  datatype Constant = CInt(i: int) | CDouble(d: Fp) | CStr(s: string) | CNil | CBool(b: bool)

  datatype Function = Function(nameConst: nat, numParams: nat, numRegs: nat, maxStack: nat, code: seq<Byte>)

  datatype Module = Module(consts: seq<Constant>, funcs: seq<Function>, entry: nat)

  const HALT: Byte := 0x00
  const LOAD_CONST: Byte := 0x01
  const LOAD_NIL: Byte := 0x02
  const MOVE: Byte := 0x03
  const ADD: Byte := 0x10
  const SUB: Byte := 0x11
  const MUL: Byte := 0x12
  const DIV: Byte := 0x13
  const MOD: Byte := 0x14
  const EQ: Byte := 0x15
  const NE: Byte := 0x16
  const LT: Byte := 0x17
  const LE: Byte := 0x18
  const GT: Byte := 0x19
  const GE: Byte := 0x1A
  const BAND: Byte := 0x1B
  const BOR: Byte := 0x1C
  const BXOR: Byte := 0x1D
  const SHL: Byte := 0x1E
  const SHR: Byte := 0x1F
  const NEW_ARRAY: Byte := 0x20
  const ARRAY_GET: Byte := 0x21
  const ARRAY_SET: Byte := 0x22
  const NEW_OBJECT: Byte := 0x23
  const GET_PROP: Byte := 0x24
  const SET_PROP: Byte := 0x25
  const ARRAY_PUSH: Byte := 0x26
  const CALL: Byte := 0x30
  const RET: Byte := 0x31
  const CALL_NATIVE: Byte := 0x32
  const JUMP: Byte := 0x40
  const JUMP_IF_FALSE: Byte := 0x41
  const PRINT: Byte := 0x50
  const NEG: Byte := 0x60
  const NOT: Byte := 0x61
  const BNOT: Byte := 0x62
  const CLOSURE: Byte := 0x63
  const GET_UPVAL: Byte := 0x64
  const CALL_VALUE: Byte := 0x65

  /** The opcodes whose operands are a destination and two sources, or three sources. */
  predicate IsThree(op: Byte) {
    ADD <= op <= SHR || op == ARRAY_GET || op == ARRAY_SET
  }

  predicate IsTwo(op: Byte) {
    op == MOVE || op == ARRAY_PUSH || NEG <= op <= BNOT
  }

  predicate IsOne(op: Byte) {
    op == LOAD_NIL || op == PRINT || op == RET || op == NEW_OBJECT
  }

  // ---- multi-byte operands ------------------------------------------------

  function U16(lo: Byte, hi: Byte): (v: nat)
    ensures v < 65536
  {
    lo + 256 * hi
  }

  function I16(lo: Byte, hi: Byte): (v: int)
    ensures -32768 <= v <= 32767
  {
    if U16(lo, hi) >= 32768 then U16(lo, hi) - 65536 else U16(lo, hi)
  }

  function Lo(v: int): Byte {
    v % 256
  }

  function Hi(v: int): Byte {
    v / 256 % 256
  }

  lemma U16RoundTrip(v: nat)
    requires v < 65536
    ensures U16(Lo(v), Hi(v)) == v
  {
  }

  /** The two's-complement bytes of a 16-bit offset decode to that offset. */
  lemma I16RoundTrip(v: int)
    requires -32768 <= v <= 32767
    ensures I16(Lo(v), Hi(v)) == v
  {
    if v < 0 {
      assert Lo(v) == Lo(v + 65536) && Hi(v) == Hi(v + 65536);
      U16RoundTrip(v + 65536);
    } else {
      U16RoundTrip(v);
    }
  }

  // ---- instructions ----------------------------------------------------------

  datatype Instr =
    | Halt
    | LoadConst(r: Byte, k: nat)
    | LoadNil(r: Byte)
    | Two(op: Byte, r: Byte, a: Byte)             // MOVE, NEG, NOT, BNOT
    | Three(op: Byte, r: Byte, a: Byte, b: Byte)  // ADD .. SHR, ARRAY_GET, ARRAY_SET
    | NewArray(r: Byte, n: Byte)
    | NewObject(r: Byte)
    | GetProp(r: Byte, a: Byte, k: nat)
    | SetProp(r: Byte, k: nat, a: Byte)
    | Push(r: Byte, a: Byte)
    | Call(native: bool, r: Byte, k: nat, n: Byte)
    | CallValue(r: Byte, n: Byte)
    | Ret(r: Byte)
    | Goto(off: int)
    | GotoIfFalse(r: Byte, off: int)
    | Print(r: Byte)
    | Closure(r: Byte, k: nat, srcs: seq<Byte>)
    | GetUpval(r: Byte, n: Byte)

  /** Operands that fit their encoding. */
  predicate Encodable(i: Instr) {
    match i
    case LoadConst(_, k) => k < 65536
    case Two(op, _, _) => op == MOVE || NEG <= op <= BNOT
    case Three(op, _, _, _) => IsThree(op)
    case GetProp(_, _, k) => k < 65536
    case SetProp(_, k, _) => k < 65536
    case Call(_, _, k, _) => k < 65536
    case Goto(off) => -32768 <= off <= 32767
    case GotoIfFalse(_, off) => -32768 <= off <= 32767
    case Closure(_, k, srcs) => k < 65536 && |srcs| < 256
    case _ => true
  }

  function Encode(i: Instr): (bytes: seq<Byte>)
    ensures |bytes| >= 1
  {
    match i
    case Halt => [HALT]
    case LoadConst(r, k) => [LOAD_CONST, r, Lo(k), Hi(k)]
    case LoadNil(r) => [LOAD_NIL, r]
    case Two(op, r, a) => [op, r, a]
    case Three(op, r, a, b) => [op, r, a, b]
    case NewArray(r, n) => [NEW_ARRAY, r, n]
    case NewObject(r) => [NEW_OBJECT, r]
    case GetProp(r, a, k) => [GET_PROP, r, a, Lo(k), Hi(k)]
    case SetProp(r, k, a) => [SET_PROP, r, Lo(k), Hi(k), a]
    case Push(r, a) => [ARRAY_PUSH, r, a]
    case Call(native, r, k, n) => [if native then CALL_NATIVE else CALL, r, Lo(k), Hi(k), n]
    case CallValue(r, n) => [CALL_VALUE, r, n]
    case Ret(r) => [RET, r]
    case Goto(off) => [JUMP, Lo(off), Hi(off)]
    case GotoIfFalse(r, off) => [JUMP_IF_FALSE, r, Lo(off), Hi(off)]
    case Print(r) => [PRINT, r]
    case Closure(r, k, srcs) => [CLOSURE, r, Lo(k), Hi(k), if |srcs| < 256 then |srcs| else 255] + srcs
    case GetUpval(r, n) => [GET_UPVAL, r, n]
  }
}
