/** Tokens, operator precedence and string escapes: what the lexer hands to the parser
    and what the formatter writes. */
module Tokens {
  import Ast
  import opened Bytecode

  datatype Token =
    | Eof
    | Int(i: nat) | Float(d: Fp) | Str(raw: string) | Ident(name: string)
    | Plus | Minus | Star | Slash
    | LParen | RParen | LBrace | RBrace | LBracket | RBracket
    | Comma | Dot | Assign | Semicolon
    | EqEq | BangEq | Lt | Le | Gt | Ge | AmpAmp | PipePipe | Bang
    | Percent | Amp | Pipe | Caret | Tilde | Shl | Shr
    | KwFn | KwReturn | KwIf | KwElse | KwWhile | KwNil | KwTrue | KwFalse | KwPrint
    | KwFor | KwBreak | KwContinue | KwElif

  /** The operator a token stands for between two operands. */
  datatype Infix = Arith(op: Ast.BinOp) | Circuit(isAnd: bool) | NotInfix

  function InfixOf(t: Token): Infix {
    match t
    case Plus => Arith(Ast.Add)
    case Minus => Arith(Ast.Sub)
    case Star => Arith(Ast.Mul)
    case Slash => Arith(Ast.Div)
    case Percent => Arith(Ast.Mod)
    case EqEq => Arith(Ast.Eq)
    case BangEq => Arith(Ast.Ne)
    case Lt => Arith(Ast.Lt)
    case Le => Arith(Ast.Le)
    case Gt => Arith(Ast.Gt)
    case Ge => Arith(Ast.Ge)
    case Amp => Arith(Ast.BitAnd)
    case Pipe => Arith(Ast.BitOr)
    case Caret => Arith(Ast.BitXor)
    case Shl => Arith(Ast.Shl)
    case Shr => Arith(Ast.Shr)
    case AmpAmp => Circuit(true)
    case PipePipe => Circuit(false)
    case _ => NotInfix
  }

  /** Binding power; 0 for a token that is no binary operator. */
  function BinPrec(t: Token): (k: nat)
    ensures k <= 10 && (k == 0 <==> InfixOf(t).NotInfix?)
  {
    match t
    case PipePipe => 1
    case AmpAmp => 2
    case EqEq | BangEq => 3
    case Lt | Le | Gt | Ge => 4
    case Pipe => 5
    case Caret => 6
    case Amp => 7
    case Shl | Shr => 8
    case Plus | Minus => 9
    case Star | Slash | Percent => 10
    case _ => 0
  }

  function BinToken(op: Ast.BinOp): (t: Token)
    ensures InfixOf(t) == Arith(op)
  {
    match op
    case Add => Plus
    case Sub => Minus
    case Mul => Star
    case Div => Slash
    case Mod => Percent
    case Eq => EqEq
    case Ne => BangEq
    case Lt => Lt
    case Le => Le
    case Gt => Gt
    case Ge => Ge
    case BitAnd => Amp
    case BitOr => Pipe
    case BitXor => Caret
    case Shl => Shl
    case Shr => Shr
  }

  function CircuitToken(isAnd: bool): (t: Token)
    ensures InfixOf(t) == Circuit(isAnd)
  {
    if isAnd then AmpAmp else PipePipe
  }

  datatype Prefix = Prefixed(op: Ast.UnOp) | NotPrefix

  function PrefixOf(t: Token): Prefix {
    match t
    case Minus => Prefixed(Ast.Neg)
    case Bang => Prefixed(Ast.Not)
    case Tilde => Prefixed(Ast.BitNot)
    case _ => NotPrefix
  }

  function UnToken(op: Ast.UnOp): (t: Token)
    ensures PrefixOf(t) == Prefixed(op)
  {
    match op
    case Neg => Minus
    case Not => Bang
    case BitNot => Tilde
  }

  // ---- escapes in string literals -----------------------------------------------------------

  /** The text between the quotes for a string's characters. */
  function Escape(s: string): string {
    if s == [] then [] else
      (match s[0]
       case '\\' => "\\\\"
       case '"' => "\\\""
       case '\n' => "\\n"
       case '\t' => "\\t"
       case '\r' => "\\r"
       case c => [c]) + Escape(s[1..])
  }

  /** The characters a literal's text stands for; an unknown escape is the escaped character,
      and a lone backslash at the end is kept. */
  function Unescape(raw: string): string {
    if raw == [] then []
    else if raw[0] == '\\' && |raw| > 1 then
      [match raw[1] case 'n' => '\n' case 't' => '\t' case c => c] + Unescape(raw[2..])
    else [raw[0]] + Unescape(raw[1..])
  }

  /** What a trip through the two does: a carriage return comes back as an `r`. */
  function Returned(s: string): string {
    if s == [] then [] else [if s[0] == '\r' then 'r' else s[0]] + Returned(s[1..])
  }

  lemma {:induction false} EscapeThenUnescape(s: string)
    ensures Unescape(Escape(s)) == Returned(s)
  {
    if s != [] {
      EscapeThenUnescape(s[1..]);
      var rest := Escape(s[1..]);
      if s[0] in ['\\', '"', '\n', '\t', '\r'] {
        assert Escape(s)[2..] == rest;
      } else {
        assert Escape(s) == [s[0]] + rest;
        assert Escape(s)[1..] == rest;
      }
    }
  }

  /** A string survives exactly when it has no carriage return. */
  lemma {:induction false} EscapeExact(s: string)
    ensures Unescape(Escape(s)) == s <==> '\r' !in s
  {
    EscapeThenUnescape(s);
    ReturnedExact(s);
  }

  lemma {:induction false} ReturnedExact(s: string)
    ensures |Returned(s)| == |s| && (Returned(s) == s <==> '\r' !in s)
  {
    if s != [] {
      ReturnedExact(s[1..]);
      assert s == [s[0]] + s[1..];
    }
  }
}
