/** A program the pipeline accepts at every stage, with more code than a file can hold. */
module LongCode {
  import opened Bytecode
  import opened Verifier
  import opened Ast
  import opened Source
  import opened CodeOf
  import opened Assembly
  import opened Programs
  import opened Pipeline
  import opened Serializer
  import opened Loader
  import Values
  import FnCode
  import Folding
  import Grammar
  import Format
  import Spines
  import RoundTrip
  import T = Tokens

  const CLEAR: Stmt := ExprStmt(Expr.Assign(Expr.Ident("x"), NilLit))

  /** x = nil; over and over. */
  function Clears(n: nat): Stmts {
    if n == 0 then SNil else SCons(CLEAR, Clears(n - 1))
  }

  /** The parser reads the program back from its own text, whatever its length. */
  lemma ClearsParse(n: nat)
    ensures var r := Grammar.ProgramOf(Format.WrittenAll(Clears(n)) + [T.Eof]); r.Ok? && r.v == Clears(n)
  {
    ClearsSound(n);
    RoundTrip.FormatThenParse(Clears(n));
    hide *;
  }

  lemma {:induction false} ClearsSound(n: nat)
    ensures Grammar.ShapedAll(Clears(n)) && Spines.SoundAll(Clears(n)) && Spines.NeedAll(Clears(n)) <= 5
  {
    hide Grammar.ShapedS, Spines.SoundS, Spines.NeedS;
    if n > 0 {
      OneClear();
      ClearsSound(n - 1);
    }
  }

  lemma OneClear()
    ensures Grammar.ShapedS(CLEAR) && Spines.SoundS(CLEAR) && Spines.NeedS(CLEAR) <= 5
  {
    assert Spines.NeedE(NilLit) <= 2 && Spines.NeedE(Expr.Ident("x")) <= 2;
  }

  /** It is of the simple fragment, and folding leaves it as it is. */
  lemma {:induction false} ClearsStay(fp: Values.FpOps, n: nat)
    ensures SimpleStmts(Clears(n)) && VarsAll(Clears(n)) <= {"x"} && FnCode.MainOf(Clears(n)) == Clears(n)
    ensures Folding.FoldAll(fp, Clears(n)) == Clears(n)
  {
    if n > 0 {
      ClearsStay(fp, n - 1);
      assert Folding.FoldE(fp, CLEAR.e) == CLEAR.e;
    }
  }

  /** Two bytes for each statement. */
  lemma {:induction false} ClearsSize(n: nat, sc: Scope)
    requires "x" in sc.locals
    ensures SizeAll(Clears(n), sc) == 2 * n
  {
    if n > 0 { ClearsSize(n - 1, sc); }
  }

  lemma ClearsX(n: nat, sc: Scope)
    requires n > 0 && FnCode.Names(sc.locals, [], Clears(n))
    ensures "x" in sc.locals
  {
    assert MarksE(CLEAR.e, false) == [Target("x")];
    assert MarksAll(Clears(n), false) == Marks(CLEAR, false) + MarksAll(Clears(n - 1), false);
    assert MarksAll(Clears(n), false)[0] == Target("x");
  }

  lemma EntryCode(m: Module, main: Stmts, sc: Scope, a: Asm)
    requires CompiledMain(m, main, sc, a) && SimpleStmts(main) && VarsAll(main) <= sc.locals.Keys
    ensures |m.funcs| > 0 && |m.funcs[0].code| > SizeAll(main, sc)
  {
    hide VerifiedModule, FnCode.Names, CodeAll, SizeAll, SimpleStmts, VarsAll, InRange, IsPosition;
    assert Good(a, |m.funcs|, SizeAll(main, sc));
  }

  /** From 2^31 statements on, no compilation of it reads back from its file: the length of
      its code is not one the format can tell. */
  lemma LongCodeIsLost(m: Module, n: nat, fp: Values.FpOps, sc: Scope, a: Asm, rest: seq<Byte>)
    requires n >= 0x8000_0000 && CompiledFrom(m, Clears(n), fp, sc, a)
    ensures |m.funcs| > 0 && |m.funcs[0].code| > 2 * n
    ensures VerifiedModule(m) && GetModule(ModuleBytes(m) + rest) != Got(m, |ModuleBytes(m)|)
  {
    hide *;
    ClearsStay(fp, n);
    PreparedMain(fp, Clears(n));
    CompiledParts(m, Clears(n), fp, sc, a);
    LongEntry(m, n, sc, a);
    DoesNotFit(m);
    FitsExact(m, Clears(n), fp, sc, a, rest);
  }

  lemma LongEntry(m: Module, n: nat, sc: Scope, a: Asm)
    requires n > 0 && CompiledMain(m, Clears(n), sc, a) && SimpleStmts(Clears(n)) && VarsAll(Clears(n)) <= {"x"}
    ensures VerifiedModule(m) && |m.funcs| > 0 && |m.funcs[0].code| > 2 * n
  {
    assert VerifiedModule(m) && FnCode.Names(sc.locals, [], Clears(n));
    hide *;
    ClearsX(n, sc);
    ClearsSize(n, sc);
    EntryCode(m, Clears(n), sc, a);
  }

  lemma DoesNotFit(m: Module)
    requires |m.funcs| > 0 && |m.funcs[0].code| >= 0x1_0000_0000
    ensures !FitsFile(m)
  {
    hide StorableConst;
  }
}
