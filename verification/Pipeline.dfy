/** From tokens to a run: parse, fold, compile, serialize; then load, verify, run. */
module Pipeline {
  import opened Bytecode
  import opened Verifier
  import opened Values
  import opened Machine
  import opened Safety
  import opened Ast
  import opened Source
  import opened CodeOf
  import opened Assembly
  import opened Assignments
  import opened Programs
  import opened Serializer
  import opened Loader
  import Building
  import FnCode
  import Folding
  import FoldedRuns
  import Numbering
  import Grammar
  import ParserModel
  import Tokens

  /** What the compiler is given: the folded program, its function expressions told apart. */
  function Prepared(fp: FpOps, program: Stmts): Stmts {
    Numbering.NumberAll(Folding.FoldAll(fp, program), 0)
  }

  /** `m` is what compiling `program` gives. */
  ghost predicate CompiledFrom(m: Module, program: Stmts, fp: FpOps, sc: Scope, a: Asm) {
    CompiledMain(m, FnCode.MainOf(Prepared(fp, program)), sc, a) && Building.AllEntered(m.consts, m.funcs) && |m.consts| <= 65536
  }

  /** compile_source, after the lexer. */
  method CompileSource(toks: seq<Tokens.Token>, fp: FpOps, natives: map<string, (nat, nat)>)
    returns (ok: bool, bytes: seq<Byte>, ghost m: Module, ghost program: Stmts, ghost sc: Scope, ghost a: Asm)
    requires toks == [] || toks[|toks| - 1] == Tokens.Eof
    ensures ok ==> Grammar.ProgramOf(toks).Ok? && Grammar.ProgramOf(toks).v == program
    ensures ok ==> CompiledFrom(m, program, fp, sc, a) && bytes == ModuleBytes(m)
  {
    hide *;
    m, program, sc, a := Module([], [], 0), SNil, Scope(0, map[]), Asm([], map[], [], 0);
    ok, bytes := false, [];
    var parsed := ParserModel.Parse(toks);
    if parsed.None? {
      return;
    }
    program := parsed.v;
    var prepared := Numbering.NumberAll(Folding.FoldAll(fp, parsed.v), 0);
    Numbering.NumbersDistinct(Folding.FoldAll(fp, parsed.v));
    var good, made;
    good, made, sc, a := Compile(prepared, fp, natives);
    if good {
      ok, m := true, made;
      bytes := Serialize(made);
      IsCompiled(made, parsed.v, fp, sc, a);
    }
  }

  lemma IsCompiled(m: Module, program: Stmts, fp: FpOps, sc: Scope, a: Asm)
    requires CompiledMain(m, FnCode.MainOf(Numbering.NumberAll(Folding.FoldAll(fp, program), 0)), sc, a)
    requires Building.AllEntered(m.consts, m.funcs) && |m.consts| <= 65536
    ensures CompiledFrom(m, program, fp, sc, a)
  {
    hide CompiledMain, Building.AllEntered, FnCode.MainOf, Numbering.NumberAll, Folding.FoldAll;
  }

  // ---- what is accepted runs ------------------------------------------------------------------------

  /** The literals are 64-bit values and byte strings, and the parts are below 4 GB. */
  predicate FitsFile(m: Module) {
    |m.funcs| < 0x1_0000_0000 &&
    (forall i :: 0 <= i < |m.consts| ==> StorableConst(m.consts[i])) && (forall i :: 0 <= i < |m.funcs| ==> |m.funcs[i].code| < 0x1_0000_0000)
  }

  lemma CompiledIsStorable(m: Module, program: Stmts, fp: FpOps, sc: Scope, a: Asm)
    requires CompiledFrom(m, program, fp, sc, a) && FitsFile(m)
    ensures Storable(m) && VerifiedModule(m)
  {
    hide StorableConst, VerifiedModule, Ok, FnCode.MainCode, FnCode.Names, Prepared, FnCode.MainOf;
    forall i | 0 <= i < |m.funcs| ensures StorableFunction(m.consts, m.funcs[i]) {
      assert Building.Entered(m.consts, m.funcs[i]);
    }
  }

  /** No check in the pipeline refuses a program that is too large for the file: what was
      compiled reads back as itself exactly when it fits. */
  lemma FitsExact(m: Module, program: Stmts, fp: FpOps, sc: Scope, a: Asm, rest: seq<Byte>)
    requires CompiledFrom(m, program, fp, sc, a)
    ensures GetModule(ModuleBytes(m) + rest) == Got(m, |ModuleBytes(m)|) <==> FitsFile(m)
  {
    hide VerifiedModule, GetModule, ModuleBytes, CompiledFrom, FitsFile, Storable;
    RoundTripExact(m, rest);
    if FitsFile(m) {
      CompiledIsStorable(m, program, fp, sc, a);
    }
    if Storable(m) {
      StorableFits(m);
    }
  }

  lemma StorableFits(m: Module)
    requires Storable(m)
    ensures FitsFile(m)
  {
    hide StorableConst;
  }

  datatype FileResult = BadFile | BadModule | Ran(st: State)

  /** What running a file comes to. */
  ghost function FileRun(data: seq<Byte>, env: Env, maxInsns: nat): FileResult
    requires NativesOk(env)
  {
    var g := GetModule(data);
    if g.Fail? then BadFile
    else if !VerifiedModule(g.v) then BadModule
    else if g.v.entry >= |g.v.funcs| then Ran(State([], [], [], [EntryRange]))
    else
      var s := After(g.v, env, maxInsns);
      Ran(if Running(s) then Machine.Fail(s, BudgetExceeded) else s)
  }

  /** run_cbc: load, verify, run. */
  method RunFile(data: seq<Byte>, env: Env, maxInsns: nat) returns (r: FileResult)
    requires NativesOk(env)
    ensures r == FileRun(data, env, maxInsns)
  {
    hide VerifiedModule, GetModule, NativesOk, After, Running;
    var loaded, cursor := Load(data);
    if loaded.Refused? {
      return BadFile;
    }
    var fine := Verify(loaded.m);
    if !fine {
      return BadModule;
    }
    var st := Run(loaded.m, env, maxInsns);
    r := Ran(st);
  }

  /** A program compile_source accepts is never refused by the loader or the verifier. */
  lemma NeverRefused(m: Module, program: Stmts, fp: FpOps, sc: Scope, a: Asm, rest: seq<Byte>, env: Env, maxInsns: nat)
    requires CompiledFrom(m, program, fp, sc, a) && FitsFile(m) && NativesOk(env)
    ensures VerifiedModule(m) && m.entry < |m.funcs|
    ensures FileRun(ModuleBytes(m) + rest, env, maxInsns) ==
            Ran(var s := After(m, env, maxInsns); if Running(s) then Machine.Fail(s, BudgetExceeded) else s)
  {
    hide VerifiedModule, GetModule, ModuleBytes, NativesOk, After, Running, FitsFile, Storable, CompiledMain;
    CompiledIsStorable(m, program, fp, sc, a);
    HasEntry(m, program, fp, sc, a);
    RoundTrip(m, rest);
  }

  lemma HasEntry(m: Module, program: Stmts, fp: FpOps, sc: Scope, a: Asm)
    requires CompiledFrom(m, program, fp, sc, a)
    ensures |m.funcs| > 0 && m.entry == 0
  {
    hide VerifiedModule, Ok, FnCode.MainCode, FnCode.Names, Prepared, FnCode.MainOf, Building.AllEntered;
  }

  /** The entry statements as compiled: folded, of the fragment, safe. */
  lemma PreparedMain(fp: FpOps, program: Stmts)
    requires SimpleStmts(FnCode.MainOf(program))
    ensures FnCode.MainOf(Prepared(fp, program)) == Folding.FoldAll(fp, FnCode.MainOf(program))
  {
    hide FnCode.MainOf, SimpleStmts, Numbering.NumberAll, Folding.FoldAll;
    FoldedRuns.MainFolds(fp, program);
    FoldedRuns.FoldShapesAll(fp, FnCode.MainOf(program));
    Numbering.MainStays(Folding.FoldAll(fp, program), 0);
  }

  lemma FoldAssigned(fp: FpOps, main: Stmts)
    requires SimpleStmts(main) && VariablesAssigned(main)
    ensures SimpleStmts(Folding.FoldAll(fp, main)) && VariablesAssigned(Folding.FoldAll(fp, main))
  {
    hide SimpleStmts, VarsAll, MarksAll, Folding.FoldAll;
    FoldedRuns.FoldShapesAll(fp, main);
    FoldedRuns.FoldMarksAll(fp, main);
  }

  /** End to end: when the entry statements are of the simple fragment and assign safely,
      running the file does what the source says, with the output and the final variables or
      the error of the unfolded program; given budget enough, the run reports just that. */
  lemma SourceToRun(m: Module, program: Stmts, sc: Scope, a: Asm, env: Env, fuel: nat, budget: nat) returns (k: nat)
    requires CompiledFrom(m, program, env.fp, sc, a) && FitsFile(m) && NativesOk(env)
    requires var main := FnCode.MainOf(program); SimpleStmts(main) && SafeAll(main) && VariablesAssigned(main)
    ensures VerifiedModule(m) && m.entry < |m.funcs| && VarsAll(FnCode.MainOf(program)) <= sc.locals.Keys
    ensures var r := ExecAll(env.fp, AsMeant, FnCode.MainOf(program), AllNil(sc.locals), [], fuel);
            RunMatches(m, env, sc, r, k, fuel) && (!r.Timeout? && k <= budget ==> FileRun(ModuleBytes(m), env, budget) == Ran(After(m, env, k)))
  {
    hide *;
    var main := FnCode.MainOf(program);
    var folded := Folding.FoldAll(env.fp, main);
    PreparedMain(env.fp, program);
    FoldedRuns.FoldShapesAll(env.fp, main);
    CompiledParts(m, program, env.fp, sc, a);
    FoldAssigned(env.fp, main);
    AssignedAreLocals(m, folded, sc, a);
    NilKeys(sc.locals);
    FoldedRuns.ExecAllSame(env.fp, main, AllNil(sc.locals), [], fuel);
    ExecAllAsMeant(env.fp, folded, AllNil(sc.locals), [], fuel);
    k := MainRuns(m, folded, sc, a, env, fuel);
    var r := ExecAll(env.fp, AsMeant, main, AllNil(sc.locals), [], fuel);
    NeverRefused(m, program, env.fp, sc, a, [], env, budget);
    assert ModuleBytes(m) + [] == ModuleBytes(m);
    if !r.Timeout? && k <= budget { EnoughBudget(m, env, sc, r, k, fuel, budget); }
  }

  lemma CompiledParts(m: Module, program: Stmts, fp: FpOps, sc: Scope, a: Asm)
    requires CompiledFrom(m, program, fp, sc, a)
    ensures CompiledMain(m, FnCode.MainOf(Prepared(fp, program)), sc, a)
  {
    hide CompiledMain, Prepared, FnCode.MainOf, Building.AllEntered;
  }
}
