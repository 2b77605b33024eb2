/** The .cbc file format: writing a module as bytes and reading it back. */
module Serializer {
  import opened Bytecode

  // ---- little-endian numbers -------------------------------------------------------------------

  function Pow256(k: nat): (p: nat)
    ensures p > 0
  {
    if k == 0 then 1 else 256 * Pow256(k - 1)
  }

  /** The lowest `k` bytes of `v`, lowest first. */
  function Low(v: nat, k: nat): (bs: seq<Byte>)
    ensures |bs| == k
  {
    if k == 0 then [] else [v % 256] + Low(v / 256, k - 1)
  }

  function Number(bs: seq<Byte>): (v: nat)
    ensures v < Pow256(|bs|)
  {
    if bs == [] then 0 else bs[0] + 256 * Number(bs[1..])
  }

  lemma {:induction false} NumberOfLow(v: nat, k: nat)
    requires v < Pow256(k)
    ensures Number(Low(v, k)) == v
  {
    if k > 0 {
      assert Low(v, k)[1..] == Low(v / 256, k - 1);
      NumberOfLow(v / 256, k - 1);
    }
  }

  lemma Widths()
    ensures Pow256(1) == 256 && Pow256(2) == 65536 && Pow256(4) == 0x1_0000_0000 && Pow256(8) == 0x1_0000_0000_0000_0000
  {
    assert Pow256(3) == 256 * Pow256(2);
    assert Pow256(5) == 256 * Pow256(4) && Pow256(6) == 256 * Pow256(5) && Pow256(7) == 256 * Pow256(6);
  }

  /** Signed numbers travel as the unsigned number with the same 64 bits. */
  function ToBits(i: int): nat {
    if i >= 0 then i else if i >= -0x8000_0000_0000_0000 then i + 0x1_0000_0000_0000_0000 else 0
  }

  function OfBits(b: nat): int {
    if b < 0x8000_0000_0000_0000 then b else b - 0x1_0000_0000_0000_0000
  }

  // ---- modules that fit the format ------------------------------------------------------------

  predicate StorableString(s: string) {
    |s| < 0x1_0000_0000 && forall i :: 0 <= i < |s| ==> s[i] as int < 256
  }

  predicate StorableConst(c: Constant) {
    match c
    case CInt(i) => -0x8000_0000_0000_0000 <= i < 0x8000_0000_0000_0000
    case CDouble(d) => 0 <= d.bits < 0x1_0000_0000_0000_0000
    case CStr(s) => StorableString(s)
    case _ => true
  }

  predicate StorableFunction(consts: seq<Constant>, f: Function) {
    && f.nameConst < |consts| && f.nameConst < 0x1_0000_0000 && consts[f.nameConst].CStr?
    && f.numParams < 256 && f.numRegs < 256 && f.maxStack < 65536 && |f.code| < 0x1_0000_0000
  }

  predicate Storable(m: Module) {
    && |m.consts| < 0x1_0000_0000 && |m.funcs| < 0x1_0000_0000 && m.entry < |m.funcs|
    && (forall i :: 0 <= i < |m.consts| ==> StorableConst(m.consts[i]))
    && (forall i :: 0 <= i < |m.funcs| ==> StorableFunction(m.consts, m.funcs[i]))
  }

  // ---- the bytes of a module ------------------------------------------------------------------

  const MAGIC: seq<Byte> := [67, 66, 67, 1]

  function CharBytes(s: string): (bs: seq<Byte>)
    ensures |bs| == |s|
  {
    seq(|s|, i requires 0 <= i < |s| => if s[i] as int < 256 then s[i] as int else 0)
  }

  function ConstBytes(c: Constant): seq<Byte> {
    match c
    case CInt(i) => [0] + Low(ToBits(i), 8)
    case CDouble(d) => [1] + Low(if d.bits >= 0 then d.bits else 0, 8)
    case CStr(s) => [2] + Low(|s|, 4) + CharBytes(s)
    case CNil => [3]
    case CBool(b) => [4, if b then 1 else 0]
  }

  function ConstsBytes(cs: seq<Constant>): seq<Byte> {
    if cs == [] then [] else ConstBytes(cs[0]) + ConstsBytes(cs[1..])
  }

  function FunctionBytes(f: Function): seq<Byte> {
    Low(f.nameConst, 4) + Low(f.numParams, 1) + Low(f.numRegs, 1) + Low(f.maxStack, 2) + Low(|f.code|, 4) + f.code
  }

  function FunctionsBytes(fs: seq<Function>): seq<Byte> {
    if fs == [] then [] else FunctionBytes(fs[0]) + FunctionsBytes(fs[1..])
  }

  function HeaderBytes(m: Module): seq<Byte> {
    MAGIC + Low(1, 2) + Low(0, 2) + Low(|m.consts|, 4) + Low(|m.funcs|, 4) + Low(m.entry, 4)
  }

  function ModuleBytes(m: Module): seq<Byte> {
    HeaderBytes(m) + ConstsBytes(m.consts) + FunctionsBytes(m.funcs)
  }

  // ---- the writer ---------------------------------------------------------------------------------

  /** put16, put32, put64: the bytes of a number, one at a time. */
  method PutNumber(b: seq<Byte>, v: nat, k: nat) returns (b': seq<Byte>)
    ensures b' == b + Low(v, k)
  {
    b' := b;
    var rest, i := v, 0;
    while i < k
      invariant 0 <= i <= k && b' + Low(rest, k - i) == b + Low(v, k)
    {
      assert b' + ([rest % 256] + Low(rest / 256, k - i - 1)) == b' + [rest % 256] + Low(rest / 256, k - i - 1);
      b' := b' + [rest % 256];
      rest := rest / 256;
      i := i + 1;
    }
    assert b' + [] == b';
  }

  method PutConst(b: seq<Byte>, c: Constant) returns (b': seq<Byte>)
    ensures b' == b + ConstBytes(c)
  {
    match c
    case CInt(i) =>
      b' := PutNumber(b + [0], ToBits(i), 8);
    case CDouble(d) =>
      b' := PutNumber(b + [1], if d.bits >= 0 then d.bits else 0, 8);
    case CStr(s) =>
      b' := PutNumber(b + [2], |s|, 4);
      b' := b' + CharBytes(s);
    case CNil =>
      b' := b + [3];
    case CBool(v) =>
      b' := b + [4, if v then 1 else 0];
  }

  method PutFunction(b: seq<Byte>, f: Function) returns (b': seq<Byte>)
    ensures b' == b + FunctionBytes(f)
  {
    b' := PutNumber(b, f.nameConst, 4);
    b' := PutNumber(b', f.numParams, 1);
    b' := PutNumber(b', f.numRegs, 1);
    b' := PutNumber(b', f.maxStack, 2);
    b' := PutNumber(b', |f.code|, 4);
    b' := b' + f.code;
  }

  /** serialize: the header, the constants, the functions. */
  method Serialize(m: Module) returns (b: seq<Byte>)
    ensures b == ModuleBytes(m)
  {
    b := MAGIC;
    b := PutNumber(b, 1, 2);
    b := PutNumber(b, 0, 2);
    b := PutNumber(b, |m.consts|, 4);
    b := PutNumber(b, |m.funcs|, 4);
    b := PutNumber(b, m.entry, 4);
    assert b == HeaderBytes(m);
    var i := 0;
    while i < |m.consts|
      invariant 0 <= i <= |m.consts| && b + ConstsBytes(m.consts[i..]) == HeaderBytes(m) + ConstsBytes(m.consts)
    {
      var before := b;
      assert m.consts[i..][0] == m.consts[i] && m.consts[i..][1..] == m.consts[i + 1..];
      b := PutConst(b, m.consts[i]);
      Regroup(before, ConstBytes(m.consts[i]), ConstsBytes(m.consts[i + 1..]));
      i := i + 1;
    }
    assert m.consts[i..] == [] && b + [] == b;
    i := 0;
    ghost var start := b;
    assert m.funcs[0..] == m.funcs;
    while i < |m.funcs|
      invariant 0 <= i <= |m.funcs| && b + FunctionsBytes(m.funcs[i..]) == start + FunctionsBytes(m.funcs)
    {
      var before := b;
      assert m.funcs[i..][0] == m.funcs[i] && m.funcs[i..][1..] == m.funcs[i + 1..];
      b := PutFunction(b, m.funcs[i]);
      Regroup(before, FunctionBytes(m.funcs[i]), FunctionsBytes(m.funcs[i + 1..]));
      i := i + 1;
    }
    assert m.funcs[i..] == [] && b + [] == b;
  }

  lemma Regroup(a: seq<Byte>, b: seq<Byte>, c: seq<Byte>)
    ensures (a + b) + c == a + (b + c)
  {
  }
}
