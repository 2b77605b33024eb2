/** Reading a module back from bytes that may be anything. */
module Loader {
  import opened Bytecode
  import opened Serializer

  datatype Got<T> = Fail | Got(v: T, i: nat)

  // ---- what each read yields, as functions of the buffer and the cursor -----------------------

  function GetNumber(data: seq<Byte>, i: nat, k: nat): Got<nat> {
    if i + k > |data| then Fail else Got(Number(data[i..i + k]), i + k)
  }

  function GetBytes(data: seq<Byte>, i: nat, k: nat): Got<seq<Byte>> {
    if i + k > |data| then Fail else Got(data[i..i + k], i + k)
  }

  function BytesChars(bs: seq<Byte>): (s: string)
    ensures |s| == |bs|
  {
    seq(|bs|, i requires 0 <= i < |bs| => bs[i] as char)
  }

  function GetString(data: seq<Byte>, i: nat): Got<Constant> {
    var n := GetNumber(data, i, 4);
    if n.Fail? then Fail else
    var b := GetBytes(data, n.i, n.v);
    if b.Fail? then Fail else Got(CStr(BytesChars(b.v)), b.i)
  }

  function GetConst(data: seq<Byte>, i: nat): Got<Constant> {
    var tag := GetNumber(data, i, 1);
    if tag.Fail? then Fail
    else if tag.v == 0 then
      var n := GetNumber(data, tag.i, 8);
      if n.Fail? then Fail else Got(CInt(OfBits(n.v)), n.i)
    else if tag.v == 1 then
      var n := GetNumber(data, tag.i, 8);
      if n.Fail? then Fail else Got(CDouble(Fp(n.v)), n.i)
    else if tag.v == 2 then GetString(data, tag.i)
    else if tag.v == 3 then Got(CNil, tag.i)
    else if tag.v == 4 then
      var n := GetNumber(data, tag.i, 1);
      if n.Fail? then Fail else Got(CBool(n.v != 0), n.i)
    else Fail
  }

  function GetConsts(data: seq<Byte>, i: nat, n: nat): Got<seq<Constant>>
    decreases n
  {
    if n == 0 then Got([], i) else
    var c := GetConst(data, i);
    if c.Fail? then Fail else
    var rest := GetConsts(data, c.i, n - 1);
    if rest.Fail? then Fail else Got([c.v] + rest.v, rest.i)
  }

  function GetFunction(data: seq<Byte>, i: nat, consts: seq<Constant>): Got<Function> {
    var name := GetNumber(data, i, 4);
    if name.Fail? then Fail else
    var params := GetNumber(data, name.i, 1);
    if params.Fail? then Fail else
    var regs := GetNumber(data, params.i, 1);
    if regs.Fail? then Fail else
    var stack := GetNumber(data, regs.i, 2);
    if stack.Fail? then Fail else
    var len := GetNumber(data, stack.i, 4);
    if len.Fail? || name.v >= |consts| || !consts[name.v].CStr? then Fail else
    var code := GetBytes(data, len.i, len.v);
    if code.Fail? then Fail else Got(Function(name.v, params.v, regs.v, stack.v, code.v), code.i)
  }

  function GetFunctions(data: seq<Byte>, i: nat, n: nat, consts: seq<Constant>): Got<seq<Function>>
    decreases n
  {
    if n == 0 then Got([], i) else
    var f := GetFunction(data, i, consts);
    if f.Fail? then Fail else
    var rest := GetFunctions(data, f.i, n - 1, consts);
    if rest.Fail? then Fail else Got([f.v] + rest.v, rest.i)
  }

  datatype Header = Header(consts: nat, funcs: nat, entry: nat)

  function GetHeader(data: seq<Byte>): Got<Header> {
    if |data| < 20 || data[..4] != MAGIC || Number(data[4..6]) != 1 then Fail
    else Got(Header(Number(data[8..12]), Number(data[12..16]), Number(data[16..20])), 20)
  }

  /** load_cbc: trailing bytes are ignored. */
  function GetModule(data: seq<Byte>): Got<Module> {
    var h := GetHeader(data);
    if h.Fail? || h.v.consts > |data| || h.v.funcs > |data| then Fail else
    var cs := GetConsts(data, h.i, h.v.consts);
    if cs.Fail? then Fail else
    var fs := GetFunctions(data, cs.i, h.v.funcs, cs.v);
    if fs.Fail? || h.v.entry >= |fs.v| then Fail else Got(Module(cs.v, fs.v, h.v.entry), fs.i)
  }

  // ---- reading what was written ------------------------------------------------------------------

  /** `bs` stands at `i`. */
  ghost predicate Has(data: seq<Byte>, i: nat, bs: seq<Byte>) {
    i + |bs| <= |data| && data[i..i + |bs|] == bs
  }

  lemma HasParts(data: seq<Byte>, i: nat, a: seq<Byte>, b: seq<Byte>)
    requires Has(data, i, a + b)
    ensures Has(data, i, a) && Has(data, i + |a|, b)
  {
    var z := data[i..i + |a + b|];
    assert data[i..i + |a|] == z[..|a|] == a;
    assert data[i + |a|..i + |a| + |b|] == z[|a|..] == b;
  }

  lemma NumberThere(data: seq<Byte>, i: nat, v: nat, k: nat)
    requires Has(data, i, Low(v, k)) && v < Pow256(k)
    ensures GetNumber(data, i, k) == Got(v, i + k)
  {
    NumberOfLow(v, k);
  }

  lemma CharsBack(s: string)
    requires StorableString(s)
    ensures BytesChars(CharBytes(s)) == s
  {
  }

  lemma WordThere(data: seq<Byte>, i: nat, tag: Byte, v: nat)
    requires Has(data, i, [tag] + Low(v, 8)) && v < Pow256(8)
    ensures GetNumber(data, i, 1) == Got(tag as nat, i + 1) && GetNumber(data, i + 1, 8) == Got(v, i + 9)
  {
    hide Has, GetNumber, Pow256, Low;
    HasParts(data, i, [tag], Low(v, 8));
    TagThere(data, i, tag);
    NumberThere(data, i + 1, v, 8);
  }

  lemma ConstThere(data: seq<Byte>, i: nat, c: Constant)
    requires StorableConst(c) && Has(data, i, ConstBytes(c))
    ensures GetConst(data, i) == Got(c, i + |ConstBytes(c)|)
  {
    Widths();
    hide GetNumber, Has, Pow256, Low, Number, StorableString, CharBytes, GetString;
    match c
    case CInt(v) => WordThere(data, i, 0, ToBits(v));
    case CDouble(d) => WordThere(data, i, 1, d.bits);
    case CStr(s) =>
      assert [2] + Low(|s|, 4) + CharBytes(s) == [2] + (Low(|s|, 4) + CharBytes(s));
      HasParts(data, i, [2], Low(|s|, 4) + CharBytes(s));
      TagThere(data, i, 2);
      StringThere(data, i + 1, s);
    case CNil => TagThere(data, i, 3);
    case CBool(b) =>
      assert [4, if b then 1 else 0] == [4] + [if b then 1 else 0];
      HasParts(data, i, [4], [if b then 1 else 0]);
      TagThere(data, i, 4);
      TagThere(data, i + 1, if b then 1 else 0);
  }

  lemma TagThere(data: seq<Byte>, i: nat, b: Byte)
    requires Has(data, i, [b])
    ensures GetNumber(data, i, 1) == Got(b as nat, i + 1)
  {
    assert data[i..i + 1] == [b] && [b][1..] == [];
  }

  lemma StringThere(data: seq<Byte>, i: nat, s: string)
    requires StorableString(s) && Has(data, i, Low(|s|, 4) + CharBytes(s))
    ensures GetString(data, i) == Got(CStr(s), i + 4 + |s|)
  {
    Widths();
    HasParts(data, i, Low(|s|, 4), CharBytes(s));
    NumberThere(data, i, |s|, 4);
    CharsBack(s);
  }

  lemma {:induction false} ConstsThere(data: seq<Byte>, i: nat, cs: seq<Constant>)
    requires (forall k :: 0 <= k < |cs| ==> StorableConst(cs[k])) && Has(data, i, ConstsBytes(cs))
    ensures GetConsts(data, i, |cs|) == Got(cs, i + |ConstsBytes(cs)|)
    decreases |cs|
  {
    hide Has, GetConst, ConstBytes, StorableConst;
    if cs != [] {
      HasParts(data, i, ConstBytes(cs[0]), ConstsBytes(cs[1..]));
      ConstThere(data, i, cs[0]);
      ConstsThere(data, i + |ConstBytes(cs[0])|, cs[1..]);
      assert [cs[0]] + cs[1..] == cs;
    }
  }

  lemma FunctionThere(data: seq<Byte>, i: nat, consts: seq<Constant>, f: Function)
    requires StorableFunction(consts, f) && Has(data, i, FunctionBytes(f))
    ensures GetFunction(data, i, consts) == Got(f, i + |FunctionBytes(f)|)
  {
    Widths();
    FunctionPieces(data, i, f);
    hide Has, GetNumber, Low, Pow256;
    NumberThere(data, i, f.nameConst, 4);
    NumberThere(data, i + 4, f.numParams, 1);
    NumberThere(data, i + 5, f.numRegs, 1);
    NumberThere(data, i + 6, f.maxStack, 2);
    NumberThere(data, i + 8, |f.code|, 4);
    assert |FunctionBytes(f)| == 12 + |f.code|;
  }

  lemma FunctionPieces(data: seq<Byte>, i: nat, f: Function)
    requires Has(data, i, FunctionBytes(f))
    ensures Has(data, i, Low(f.nameConst, 4)) && Has(data, i + 4, Low(f.numParams, 1)) && Has(data, i + 5, Low(f.numRegs, 1))
    ensures Has(data, i + 6, Low(f.maxStack, 2)) && Has(data, i + 8, Low(|f.code|, 4))
    ensures GetBytes(data, i + 12, |f.code|) == Got(f.code, i + 12 + |f.code|)
  {
    var a, b, c, d, e := Low(f.nameConst, 4), Low(f.numParams, 1), Low(f.numRegs, 1), Low(f.maxStack, 2), Low(|f.code|, 4);
    HasParts(data, i, a + b + c + d + e, f.code);
    HasParts(data, i, a + b + c + d, e);
    HasParts(data, i, a + b + c, d);
    HasParts(data, i, a + b, c);
    HasParts(data, i, a, b);
  }

  lemma {:induction false} FunctionsThere(data: seq<Byte>, i: nat, consts: seq<Constant>, fs: seq<Function>)
    requires (forall k :: 0 <= k < |fs| ==> StorableFunction(consts, fs[k])) && Has(data, i, FunctionsBytes(fs))
    ensures GetFunctions(data, i, |fs|, consts) == Got(fs, i + |FunctionsBytes(fs)|)
    decreases |fs|
  {
    hide Has, GetFunction, FunctionBytes, StorableFunction;
    if fs != [] {
      HasParts(data, i, FunctionBytes(fs[0]), FunctionsBytes(fs[1..]));
      FunctionThere(data, i, consts, fs[0]);
      FunctionsThere(data, i + |FunctionBytes(fs[0])|, consts, fs[1..]);
      assert [fs[0]] + fs[1..] == fs;
    }
  }

  lemma HeaderThere(data: seq<Byte>, m: Module)
    requires Storable(m) && Has(data, 0, HeaderBytes(m))
    ensures GetHeader(data) == Got(Header(|m.consts|, |m.funcs|, m.entry), 20)
  {
    Widths();
    var a, b, c, d, e := Low(1, 2), Low(0, 2), Low(|m.consts|, 4), Low(|m.funcs|, 4), Low(m.entry, 4);
    HasParts(data, 0, MAGIC + a + b + c + d, e);
    HasParts(data, 0, MAGIC + a + b + c, d);
    HasParts(data, 0, MAGIC + a + b, c);
    HasParts(data, 0, MAGIC + a, b);
    HasParts(data, 0, MAGIC, a);
    NumberThere(data, 4, 1, 2);
    NumberThere(data, 8, |m.consts|, 4);
    NumberThere(data, 12, |m.funcs|, 4);
    NumberThere(data, 16, m.entry, 4);
  }

  lemma {:induction false} ConstsLong(cs: seq<Constant>)
    ensures |ConstsBytes(cs)| >= |cs|
  {
    if cs != [] { ConstsLong(cs[1..]); }
  }

  lemma {:induction false} FunctionsLong(fs: seq<Function>)
    ensures |FunctionsBytes(fs)| >= |fs|
  {
    if fs != [] { FunctionsLong(fs[1..]); }
  }

  /** Loading what was serialized, whatever follows it, gives the module back and stops
      exactly at its end. */
  lemma RoundTrip(m: Module, rest: seq<Byte>)
    requires Storable(m)
    ensures GetModule(ModuleBytes(m) + rest) == Got(m, |ModuleBytes(m)|)
  {
    hide *;
    var data := ModuleBytes(m) + rest;
    var cs, fs := ConstsBytes(m.consts), FunctionsBytes(m.funcs);
    ModulePieces(m, rest);
    HeaderThere(data, m);
    ConstsThere(data, 20, m.consts);
    FunctionsThere(data, 20 + |cs|, m.consts, m.funcs);
    ConstsLong(m.consts);
    FunctionsLong(m.funcs);
    ModuleIf(data, m, 20 + |cs|, 20 + |cs| + |fs|);
  }

  lemma NumberFits(data: seq<Byte>, i: nat, k: nat)
    ensures GetNumber(data, i, k).Got? ==> GetNumber(data, i, k).v < Pow256(k)
  {
    hide Number, Pow256;
    if i + k <= |data| {
      assert |data[i..i + k]| == k;
    }
  }

  lemma ConstFits(data: seq<Byte>, i: nat)
    ensures GetConst(data, i).Got? ==> StorableConst(GetConst(data, i).v)
  {
    Widths();
    NumberFits(data, i + 1, 4);
    NumberFits(data, i + 1, 8);
    hide GetNumber, Pow256;
  }

  lemma {:induction false} ConstsFit(data: seq<Byte>, i: nat, n: nat)
    requires GetConsts(data, i, n).Got?
    ensures var cs := GetConsts(data, i, n).v; |cs| == n && forall k :: 0 <= k < |cs| ==> StorableConst(cs[k])
    decreases n
  {
    hide GetConst, StorableConst;
    if n > 0 {
      ConstFits(data, i);
      ConstsFit(data, GetConst(data, i).i, n - 1);
    }
  }

  lemma FunctionFits(data: seq<Byte>, i: nat, consts: seq<Constant>)
    ensures GetFunction(data, i, consts).Got? ==> StorableFunction(consts, GetFunction(data, i, consts).v)
  {
    Widths();
    NumberFits(data, i, 4);
    NumberFits(data, i + 4, 1);
    NumberFits(data, i + 5, 1);
    NumberFits(data, i + 6, 2);
    NumberFits(data, i + 8, 4);
    Ends(data, i, 4);
    Ends(data, i + 4, 1);
    Ends(data, i + 5, 1);
    Ends(data, i + 6, 2);
    Ends(data, i + 8, 4);
    hide GetNumber, Pow256;
  }

  lemma Ends(data: seq<Byte>, i: nat, k: nat)
    ensures GetNumber(data, i, k).Got? ==> GetNumber(data, i, k).i == i + k
  {
  }

  lemma {:induction false} FunctionsFit(data: seq<Byte>, i: nat, n: nat, consts: seq<Constant>)
    requires GetFunctions(data, i, n, consts).Got?
    ensures var fs := GetFunctions(data, i, n, consts).v; |fs| == n && forall k :: 0 <= k < |fs| ==> StorableFunction(consts, fs[k])
    decreases n
  {
    hide GetFunction, StorableFunction;
    if n > 0 {
      FunctionFits(data, i, consts);
      FunctionsFit(data, GetFunction(data, i, consts).i, n - 1, consts);
    }
  }

  /** Whatever bytes load, they load as a module that fits the format. */
  lemma LoadedFits(data: seq<Byte>)
    requires GetModule(data).Got?
    ensures Storable(GetModule(data).v)
  {
    Widths();
    hide GetConsts, GetFunctions, StorableConst, StorableFunction, Pow256;
    var h := GetHeader(data);
    ConstsFit(data, h.i, h.v.consts);
    var cs := GetConsts(data, h.i, h.v.consts);
    FunctionsFit(data, cs.i, h.v.funcs, cs.v);
  }

  /** A module survives the file format exactly when it fits it. */
  lemma RoundTripExact(m: Module, rest: seq<Byte>)
    ensures GetModule(ModuleBytes(m) + rest) == Got(m, |ModuleBytes(m)|) <==> Storable(m)
  {
    hide *;
    if Storable(m) {
      RoundTrip(m, rest);
    }
    if GetModule(ModuleBytes(m) + rest) == Got(m, |ModuleBytes(m)|) {
      LoadedFits(ModuleBytes(m) + rest);
    }
  }

  lemma ModulePieces(m: Module, rest: seq<Byte>)
    requires Storable(m)
    ensures var data, cs, fs := ModuleBytes(m) + rest, ConstsBytes(m.consts), FunctionsBytes(m.funcs);
            && Has(data, 0, HeaderBytes(m)) && Has(data, 20, cs) && Has(data, 20 + |cs|, fs)
            && |ModuleBytes(m)| == 20 + |cs| + |fs| <= |data| && m.entry < |m.funcs|
    ensures forall k :: 0 <= k < |m.consts| ==> StorableConst(m.consts[k])
    ensures forall k :: 0 <= k < |m.funcs| ==> StorableFunction(m.consts, m.funcs[k])
  {
    var data := ModuleBytes(m) + rest;
    var h, cs, fs := HeaderBytes(m), ConstsBytes(m.consts), FunctionsBytes(m.funcs);
    assert |h| == 20;
    hide StorableConst, StorableFunction, HeaderBytes, ConstsBytes, FunctionsBytes;
    assert Has(data, 0, h + cs + fs);
    HasParts(data, 0, h + cs, fs);
    HasParts(data, 0, h, cs);
  }

  lemma ModuleIf(data: seq<Byte>, m: Module, a: nat, b: nat)
    requires GetHeader(data) == Got(Header(|m.consts|, |m.funcs|, m.entry), 20) && |m.consts| <= |data| && |m.funcs| <= |data|
    requires GetConsts(data, 20, |m.consts|) == Got(m.consts, a) && GetFunctions(data, a, |m.funcs|, m.consts) == Got(m.funcs, b)
    requires m.entry < |m.funcs|
    ensures GetModule(data) == Got(m, b)
  {
    hide GetHeader, GetConsts, GetFunctions;
  }

  // ---- what more bytes cannot change ----------------------------------------------------------------

  lemma NumberMore(data: seq<Byte>, more: seq<Byte>, i: nat, k: nat)
    requires GetNumber(data, i, k).Got?
    ensures GetNumber(data + more, i, k) == GetNumber(data, i, k) && i <= GetNumber(data, i, k).i <= |data|
  {
    assert (data + more)[i..i + k] == data[i..i + k];
  }

  lemma BytesMore(data: seq<Byte>, more: seq<Byte>, i: nat, k: nat)
    requires GetBytes(data, i, k).Got?
    ensures GetBytes(data + more, i, k) == GetBytes(data, i, k) && i <= GetBytes(data, i, k).i <= |data|
  {
    assert (data + more)[i..i + k] == data[i..i + k];
  }

  lemma ConstMore(data: seq<Byte>, more: seq<Byte>, i: nat)
    requires GetConst(data, i).Got?
    ensures GetConst(data + more, i) == GetConst(data, i) && i <= GetConst(data, i).i <= |data|
  {
    hide GetNumber, GetBytes;
    var tag := GetNumber(data, i, 1);
    NumberMore(data, more, i, 1);
    if tag.v == 0 || tag.v == 1 { NumberMore(data, more, tag.i, 8); }
    else if tag.v == 2 {
      NumberMore(data, more, tag.i, 4);
      var n := GetNumber(data, tag.i, 4);
      BytesMore(data, more, n.i, n.v);
    }
    else if tag.v == 4 { NumberMore(data, more, tag.i, 1); }
  }

  lemma {:induction false} ConstsMore(data: seq<Byte>, more: seq<Byte>, i: nat, n: nat)
    requires GetConsts(data, i, n).Got? && i <= |data|
    ensures GetConsts(data + more, i, n) == GetConsts(data, i, n) && i <= GetConsts(data, i, n).i <= |data|
    decreases n
  {
    hide GetConst;
    if n > 0 {
      ConstMore(data, more, i);
      ConstsMore(data, more, GetConst(data, i).i, n - 1);
    }
  }

  lemma FunctionMore(data: seq<Byte>, more: seq<Byte>, i: nat, consts: seq<Constant>)
    requires GetFunction(data, i, consts).Got?
    ensures GetFunction(data + more, i, consts) == GetFunction(data, i, consts) && i <= GetFunction(data, i, consts).i <= |data|
  {
    hide GetNumber, GetBytes;
    NumberMore(data, more, i, 4);
    var a := GetNumber(data, i, 4).i;
    NumberMore(data, more, a, 1);
    var b := GetNumber(data, a, 1).i;
    NumberMore(data, more, b, 1);
    var c := GetNumber(data, b, 1).i;
    NumberMore(data, more, c, 2);
    var d := GetNumber(data, c, 2).i;
    NumberMore(data, more, d, 4);
    var len := GetNumber(data, d, 4);
    BytesMore(data, more, len.i, len.v);
  }

  lemma {:induction false} FunctionsMore(data: seq<Byte>, more: seq<Byte>, i: nat, n: nat, consts: seq<Constant>)
    requires GetFunctions(data, i, n, consts).Got? && i <= |data|
    ensures GetFunctions(data + more, i, n, consts) == GetFunctions(data, i, n, consts) && i <= GetFunctions(data, i, n, consts).i <= |data|
    decreases n
  {
    hide GetFunction;
    if n > 0 {
      FunctionMore(data, more, i, consts);
      FunctionsMore(data, more, GetFunction(data, i, consts).i, n - 1, consts);
    }
  }

  /** A load that succeeds never looks past where it stopped. */
  lemma ModuleMore(data: seq<Byte>, more: seq<Byte>)
    requires GetModule(data).Got?
    ensures GetModule(data + more) == GetModule(data) && GetModule(data).i <= |data|
  {
    var d := data + more;
    assert d[..4] == data[..4] && d[4..6] == data[4..6] && d[8..12] == data[8..12] && d[12..16] == data[12..16] && d[16..20] == data[16..20];
    assert GetHeader(d) == GetHeader(data);
    var h := GetHeader(data);
    hide GetHeader, GetConsts, GetFunctions;
    ConstsMore(data, more, h.i, h.v.consts);
    var cs := GetConsts(data, h.i, h.v.consts);
    FunctionsMore(data, more, cs.i, h.v.funcs, cs.v);
  }

  /** Every strict prefix of a serialized module is refused. */
  lemma PrefixRefused(m: Module, n: nat)
    requires Storable(m) && n < |ModuleBytes(m)|
    ensures GetModule(ModuleBytes(m)[..n]) == Fail
  {
    var bytes := ModuleBytes(m);
    hide GetModule, ModuleBytes, Storable;
    if GetModule(bytes[..n]).Got? {
      ModuleMore(bytes[..n], bytes[n..]);
      assert bytes[..n] + bytes[n..] == bytes && bytes + [] == bytes;
      RoundTrip(m, []);
    }
  }

  // ---- the reader -------------------------------------------------------------------------------------

  /** A cursor over a buffer. Every read first makes sure its bytes are there; a read that
      cannot be served yields 0, leaves the cursor and marks the reader bad for good. */
  class Reader {
    const data: seq<Byte>
    var i: nat
    var bad: bool

    predicate Valid()
      reads this
    {
      i <= |data|
    }

    constructor (data: seq<Byte>)
      ensures Valid() && this.data == data && i == 0 && !bad
    {
      this.data, i, bad := data, 0, false;
    }

    method Need(k: nat) returns (ok: bool)
      modifies this`bad
      ensures ok <==> i + k <= |data|
      ensures bad == (old(bad) || !ok)
    {
      ok := i + k <= |data|;
      if !ok {
        bad := true;
      }
    }

    /** u8, u16, u32, i64: `k` bytes, lowest first. */
    method Take(k: nat) returns (v: nat)
      requires Valid()
      modifies this
      ensures Valid()
      ensures var g := GetNumber(data, old(i), k);
              if g.Got? then v == g.v && i == g.i && bad == old(bad) else v == 0 && i == old(i) && bad
    {
      v := 0;
      var ok := Need(k);
      if !ok {
        return;
      }
      var b := k;
      assert data[i + k..i + k] == [];
      while b > 0
        invariant 0 <= b <= k && v == Number(data[i + b..i + k]) && i == old(i) && bad == old(bad)
      {
        b := b - 1;
        assert data[i + b..i + k][1..] == data[i + b + 1..i + k];
        v := data[i + b] + 256 * v;
      }
      i := i + k;
    }

    /** The next `k` bytes as they are. */
    method TakeBytes(k: nat) returns (bs: seq<Byte>)
      requires Valid()
      modifies this
      ensures Valid()
      ensures var g := GetBytes(data, old(i), k);
              if g.Got? then bs == g.v && i == g.i && bad == old(bad) else bs == [] && i == old(i) && bad
    {
      bs := [];
      var ok := Need(k);
      if ok {
        bs := data[i..i + k];
        i := i + k;
      }
    }
  }

  datatype Loaded = Refused | Accepted(m: Module)

  /** One constant; `ok` says whether to go on. */
  method LoadConst(r: Reader) returns (ok: bool, c: Constant)
    requires r.Valid() && !r.bad
    modifies r
    ensures r.Valid() && (ok ==> !r.bad)
    ensures var g := GetConst(r.data, old(r.i)); ok == g.Got? && (ok ==> c == g.v && r.i == g.i)
  {
    c := CNil;
    var tag := r.Take(1);
    if r.bad {
      return false, c;
    }
    if tag == 0 {
      var bits := r.Take(8);
      c := CInt(OfBits(bits));
    } else if tag == 1 {
      var bits := r.Take(8);
      c := CDouble(Fp(bits));
    } else if tag == 2 {
      var len := r.Take(4);
      if r.bad {
        return false, c;
      }
      var bytes := r.TakeBytes(len);
      c := CStr(BytesChars(bytes));
    } else if tag == 4 {
      var b := r.Take(1);
      c := CBool(b != 0);
    } else if tag != 3 {
      return false, c;
    }
    ok := !r.bad;
  }

  method LoadFunction(r: Reader, consts: seq<Constant>) returns (ok: bool, f: Function)
    requires r.Valid() && !r.bad
    modifies r
    ensures r.Valid() && (ok ==> !r.bad)
    ensures var g := GetFunction(r.data, old(r.i), consts); ok == g.Got? && (ok ==> f == g.v && r.i == g.i)
  {
    f := Function(0, 0, 0, 0, []);
    var name := r.Take(4);
    var params := r.Take(1);
    var regs := r.Take(1);
    var stack := r.Take(2);
    var len := r.Take(4);
    if r.bad || name >= |consts| || !consts[name].CStr? {
      return false, f;
    }
    var code := r.TakeBytes(len);
    if r.bad {
      return false, f;
    }
    ok, f := true, Function(name, params, regs, stack, code);
  }

  method LoadConsts(r: Reader, n: nat) returns (ok: bool, cs: seq<Constant>)
    requires r.Valid() && !r.bad
    modifies r
    ensures r.Valid() && (ok ==> !r.bad)
    ensures var g := GetConsts(r.data, old(r.i), n); ok == g.Got? && (ok ==> cs == g.v && r.i == g.i)
  {
    hide GetConst;
    cs := [];
    var k := 0;
    ghost var start, all := r.i, GetConsts(r.data, r.i, n);
    assert all.Got? ==> [] + all.v == all.v;
    while k < n
      invariant 0 <= k <= n && r.Valid() && !r.bad
      invariant GetConsts(r.data, start, n) ==
                var g := GetConsts(r.data, r.i, n - k); if g.Fail? then Fail else Got(cs + g.v, g.i)
    {
      var fine, c := LoadConst(r);
      if !fine {
        return false, [];
      }
      ghost var g := GetConsts(r.data, r.i, n - k - 1);
      assert g.Got? ==> cs + ([c] + g.v) == cs + [c] + g.v;
      cs := cs + [c];
      k := k + 1;
    }
    assert cs + [] == cs;
    ok := true;
  }

  method LoadFunctions(r: Reader, n: nat, consts: seq<Constant>) returns (ok: bool, fs: seq<Function>)
    requires r.Valid() && !r.bad
    modifies r
    ensures r.Valid() && (ok ==> !r.bad)
    ensures var g := GetFunctions(r.data, old(r.i), n, consts); ok == g.Got? && (ok ==> fs == g.v && r.i == g.i)
  {
    hide GetFunction;
    fs := [];
    var k := 0;
    ghost var start, all := r.i, GetFunctions(r.data, r.i, n, consts);
    assert all.Got? ==> [] + all.v == all.v;
    while k < n
      invariant 0 <= k <= n && r.Valid() && !r.bad
      invariant GetFunctions(r.data, start, n, consts) ==
                var g := GetFunctions(r.data, r.i, n - k, consts); if g.Fail? then Fail else Got(fs + g.v, g.i)
    {
      var fine, f := LoadFunction(r, consts);
      if !fine {
        return false, [];
      }
      ghost var g := GetFunctions(r.data, r.i, n - k - 1, consts);
      assert g.Got? ==> fs + ([f] + g.v) == fs + [f] + g.v;
      fs := fs + [f];
      k := k + 1;
    }
    assert fs + [] == fs;
    ok := true;
  }

  /** load_cbc: on any input the cursor stays inside the buffer, and the answer is that of
      `GetModule`. */
  method Load(data: seq<Byte>) returns (result: Loaded, cursor: nat)
    ensures result == (var g := GetModule(data); if g.Fail? then Refused else Accepted(g.v))
    ensures cursor <= |data|
  {
    hide GetConsts, GetFunctions, Number;
    var r := new Reader(data);
    var m0 := r.Take(1);
    var m1 := r.Take(1);
    var m2 := r.Take(1);
    var m3 := r.Take(1);
    if r.bad {
      return Refused, r.i;
    }
    Magic(data, m0, m1, m2, m3);
    if m0 != 67 || m1 != 66 || m2 != 67 || m3 != 1 {
      return Refused, r.i;
    }
    var version := r.Take(2);
    var _ := r.Take(2);
    if r.bad || version != 1 {
      return Refused, r.i;
    }
    var constCount := r.Take(4);
    var funcCount := r.Take(4);
    var entry := r.Take(4);
    if r.bad || constCount > |data| || funcCount > |data| {
      return Refused, r.i;
    }
    var ok, consts := LoadConsts(r, constCount);
    if !ok {
      return Refused, r.i;
    }
    var funcs;
    ok, funcs := LoadFunctions(r, funcCount, consts);
    if !ok || entry >= |funcs| {
      return Refused, r.i;
    }
    return Accepted(Module(consts, funcs, entry)), r.i;
  }

  lemma Magic(data: seq<Byte>, m0: nat, m1: nat, m2: nat, m3: nat)
    requires |data| >= 4 && m0 == Number(data[0..1]) && m1 == Number(data[1..2]) && m2 == Number(data[2..3]) && m3 == Number(data[3..4])
    ensures data[..4] == MAGIC <==> m0 == 67 && m1 == 66 && m2 == 67 && m3 == 1
  {
    var q := data[..4];
    assert q[0] == m0 && q[1] == m1 && q[2] == m2 && q[3] == m3;
  }
}
