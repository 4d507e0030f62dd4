/**
 The token model of the golox scanner: token kinds, the token record with its
 source position, the keyword table, the display names of the kinds and the
 one-line textual rendering of a token.
 */
module Tokens {

  datatype Option<T> = None | Some(value: T)

  /** Go's `uint32`, the type of line and column counters. */
  const U32_MODULUS: int := 0x1_0000_0000
  type u32 = x: int | 0 <= x < 0x1_0000_0000

  /** Reduces a non-negative count to `uint32`, as Go's wrapping arithmetic does. */
  function Wrap(x: nat): u32 {
    x % U32_MODULUS
  }

  /** Go's `x++` on a `uint32`: wraps to 0 after the largest value. */
  function Inc(x: u32): u32 {
    if x == 0xFFFF_FFFF then 0 else x + 1
  }

  /** `Inc` is the reduced successor. */
  lemma {:induction false} IncIsWrap(x: u32)
    ensures Inc(x) == Wrap(x + 1)
  {
    if x == 0xFFFF_FFFF {
      assert x + 1 == U32_MODULUS;
    }
  }

  /** A value already in range is left alone. */
  lemma WrapSmall(x: nat)
    requires x < U32_MODULUS
    ensures Wrap(x) == x
  {
  }

  /** Reducing early does not change the reduced sum. */
  lemma {:induction false} WrapAdd(x: nat, n: nat)
    ensures Wrap(Wrap(x) + n) == Wrap(x + n)
  {
    var q := x / U32_MODULUS;
    assert x + n == q * U32_MODULUS + (Wrap(x) + n);
  }

  /** Incrementing a reduced count `x` is reducing the next count `m`. */
  lemma {:induction false} IncWrap(x: nat, m: nat)
    requires m == x + 1
    ensures Inc(Wrap(x)) == Wrap(m)
  {
    IncIsWrap(Wrap(x));
    WrapAdd(x, 1);
  }

  /** Adding `n` to an incremented counter is adding `m = n + 1` to the original. */
  lemma {:induction false} WrapInc(x: u32, n: nat, m: nat)
    requires m == n + 1
    ensures Wrap(Inc(x) + n) == Wrap(x + m)
  {
    if x == 0xFFFF_FFFF {
      assert x + m == U32_MODULUS + n;
    }
  }

  /** Adding `n` to a twice incremented counter is adding `m = n + 2` to the original. */
  lemma {:induction false} WrapIncInc(x: u32, n: nat, m: nat)
    requires m == n + 2
    ensures Wrap(Inc(Inc(x)) + n) == Wrap(x + m)
  {
    WrapInc(Inc(x), n, n + 1);
    WrapInc(x, n + 1, m);
  }

  /** The closed set of token kinds (the `TokenType` constants). */
  datatype TokenType =
    | StrLiteral | NumLiteral | Identifier
    | And | Class | Else | False | For | Fun | If | Nil | Or | Print
    | Return | Super | This | True | Var | While
    | LParen | RParen | LBrace | RBrace | Comma | Dot | Minus | Plus
    | Semicolon | Div | Star
    | Assign | Not | Eq | Ne | Gt | Ge | Lt | Le
    | Error | Eof

  /** The string value of each kind constant (`TokenType` is a Go string type). */
  function Value(k: TokenType): string {
    match k
    case StrLiteral => "STR_LITERAL"
    case NumLiteral => "NUM_LITERAL"
    case Identifier => "IDENTIFIER"
    case And => "AND"
    case Class => "CLASS"
    case Else => "ELSE"
    case False => "FALSE"
    case For => "FOR"
    case Fun => "FUN"
    case If => "IF"
    case Nil => "NIL"
    case Or => "OR"
    case Print => "PRINT"
    case Return => "RETURN"
    case Super => "SUPER"
    case This => "THIS"
    case True => "TRUE"
    case Var => "VAR"
    case While => "WHILE"
    case LParen => "("
    case RParen => ")"
    case LBrace => "{"
    case RBrace => "}"
    case Comma => ","
    case Dot => "."
    case Minus => "-"
    case Plus => "+"
    case Semicolon => ";"
    case Div => "/"
    case Star => "*"
    case Assign => "="
    case Not => "!"
    case Eq => "=="
    case Ne => "!="
    case Gt => ">"
    case Ge => ">="
    case Lt => "<"
    case Le => "<="
    case Error => "ERROR"
    case Eof => "EOF"
  }

  /** The sixteen reserved-word kinds. */
  predicate IsKeyword(k: TokenType) {
    k.And? || k.Class? || k.Else? || k.False? || k.For? || k.Fun? || k.If? || k.Nil?
    || k.Or? || k.Print? || k.Return? || k.Super? || k.This? || k.True? || k.Var? || k.While?
  }

  datatype Position = Position(line: u32, col: u32)

  /** `literal` is the empty string when the token carries no literal value. */
  datatype Token = Token(kind: TokenType, lexeme: string, literal: string, pos: Position)

  /** The token constructor `token.New`: every argument is stored unchanged. */
  function NewToken(kind: TokenType, lexeme: string, literal: string, line: u32, col: u32): (t: Token)
    ensures t.kind == kind && t.lexeme == lexeme && t.literal == literal
    ensures t.pos.line == line && t.pos.col == col
  {
    Token(kind, lexeme, literal, Position(line, col))
  }

  /** The reserved-word table, matched exactly and case-sensitively. */
  const Keywords: map<string, TokenType> := map[
    "and" := And,
    "class" := Class,
    "else" := Else,
    "false" := False,
    "for" := For,
    "fun" := Fun,
    "if" := If,
    "nil" := Nil,
    "or" := Or,
    "print" := Print,
    "return" := Return,
    "super" := Super,
    "this" := This,
    "true" := True,
    "var" := Var,
    "while" := While
  ]

  /** The reserved-word kind of `ident`, or `Identifier` when it is not one. */
  function LookUpIdent(ident: string): (k: TokenType)
    ensures k.Identifier? || IsKeyword(k)
    ensures k.Identifier? <==> ident !in Keywords
  {
    if ident in Keywords then Keywords[ident] else Identifier
  }

  /** ASCII lower-casing of one character; every other character is kept. */
  function LowerChar(c: char): char {
    if 'A' <= c <= 'Z' then (c as int + 32) as char else c
  }

  function Lower(s: string): string {
    seq(|s|, i requires 0 <= i < |s| => LowerChar(s[i]))
  }

  /** A reserved word is spelled as its kind's constant name in lower case. */
  function Spelling(k: TokenType): string {
    Lower(Value(k))
  }

  /** The display name of a kind (the method `TokenToStr`); kinds without a
      case of their own fall back to the constant's string value. */
  function TokenToStr(k: TokenType): (name: string)
    ensures |name| > 0
    ensures IsKeyword(k) || k.Error? ==> name == Value(k)
  {
    match k
    case StrLiteral => "STRING"
    case NumLiteral => "NUMBER"
    case Identifier => "IDENTIFIER"
    case LParen => "LEFT_PAREN"
    case RParen => "RIGHT_PAREN"
    case LBrace => "LEFT_BRACE"
    case RBrace => "RIGHT_BRACE"
    case Comma => "COMMA"
    case Dot => "DOT"
    case Minus => "MINUS"
    case Plus => "PLUS"
    case Semicolon => "SEMICOLON"
    case Div => "SLASH"
    case Star => "STAR"
    case Assign => "EQUAL"
    case Not => "BANG"
    case Eq => "EQUAL_EQUAL"
    case Ne => "BANG_EQUAL"
    case Gt => "GREATER"
    case Ge => "GREATER_EQUAL"
    case Lt => "LESS"
    case Le => "LESS_EQUAL"
    case Eof => "EOF"
    case _ => Value(k)
  }

  /** The inverse of `TokenToStr`: the kind a display name stands for. The
      names are grouped by length, so a name is compared only with the names
      of its own length. */
  function KindNamed(name: string): Option<TokenType> {
    match |name|
    case 2 =>
      if name == "IF" then Some(If)
      else if name == "OR" then Some(Or)
      else None
    case 3 =>
      if name == "AND" then Some(And)
      else if name == "FOR" then Some(For)
      else if name == "FUN" then Some(Fun)
      else if name == "NIL" then Some(Nil)
      else if name == "VAR" then Some(Var)
      else if name == "DOT" then Some(Dot)
      else if name == "EOF" then Some(Eof)
      else None
    case 4 =>
      if name == "ELSE" then Some(Else)
      else if name == "THIS" then Some(This)
      else if name == "TRUE" then Some(True)
      else if name == "PLUS" then Some(Plus)
      else if name == "STAR" then Some(Star)
      else if name == "BANG" then Some(Not)
      else if name == "LESS" then Some(Lt)
      else None
    case 5 =>
      if name == "CLASS" then Some(Class)
      else if name == "FALSE" then Some(False)
      else if name == "PRINT" then Some(Print)
      else if name == "SUPER" then Some(Super)
      else if name == "WHILE" then Some(While)
      else if name == "COMMA" then Some(Comma)
      else if name == "MINUS" then Some(Minus)
      else if name == "SLASH" then Some(Div)
      else if name == "EQUAL" then Some(Assign)
      else if name == "ERROR" then Some(Error)
      else None
    case 6 =>
      if name == "STRING" then Some(StrLiteral)
      else if name == "NUMBER" then Some(NumLiteral)
      else if name == "RETURN" then Some(Return)
      else None
    case 7 =>
      if name == "GREATER" then Some(Gt)
      else None
    case 9 =>
      if name == "SEMICOLON" then Some(Semicolon)
      else None
    case 10 =>
      if name == "IDENTIFIER" then Some(Identifier)
      else if name == "LEFT_PAREN" then Some(LParen)
      else if name == "LEFT_BRACE" then Some(LBrace)
      else if name == "BANG_EQUAL" then Some(Ne)
      else if name == "LESS_EQUAL" then Some(Le)
      else None
    case 11 =>
      if name == "RIGHT_PAREN" then Some(RParen)
      else if name == "RIGHT_BRACE" then Some(RBrace)
      else if name == "EQUAL_EQUAL" then Some(Eq)
      else None
    case 13 =>
      if name == "GREATER_EQUAL" then Some(Ge)
      else None
    case _ => None
  }

  /** The literal field as rendered: an empty literal reads `null`. */
  function LiteralText(literal: string): string {
    if literal == "" then "null" else literal
  }

  /** The textual form of a token (the method `String`, string-literal path):
      display name, lexeme and literal, separated by single spaces. */
  function Render(t: Token): (s: string)
    ensures KindOfRendered(s) == Some(t.kind)
  {
    var name := TokenToStr(t.kind);
    var s := name + " " + t.lexeme + " " + LiteralText(t.literal);
    DisplayNameRoundTrip(t.kind);
    SplitAtSpaceConcat(name, t.lexeme + " " + LiteralText(t.literal));
    assert s == name + " " + (t.lexeme + " " + LiteralText(t.literal));
    s
  }

  /** Splits at the first space: the text before it and the text after it. */
  function SplitAtSpace(s: string): (r: Option<(string, string)>)
    ensures r.Some? ==> ' ' !in r.value.0 && s == r.value.0 + " " + r.value.1
    ensures r.None? <==> ' ' !in s
  {
    if |s| == 0 then None
    else if s[0] == ' ' then Some(([], s[1..]))
    else match SplitAtSpace(s[1..])
      case None => None
      case Some((a, b)) => Some(([s[0]] + a, b))
  }

  /** The kind named by the first space-separated field of a rendered line. */
  function KindOfRendered(s: string): Option<TokenType> {
    match SplitAtSpace(s)
    case None => None
    case Some((name, _)) => KindNamed(name)
  }

  /** The three fields of a rendered line whose lexeme holds no space. */
  function Fields(s: string): Option<(string, string, string)> {
    match SplitAtSpace(s)
    case None => None
    case Some((name, rest)) =>
      match SplitAtSpace(rest)
      case None => None
      case Some((lexeme, literal)) => Some((name, lexeme, literal))
  }

  lemma {:induction false} SplitAtSpaceConcat(a: string, b: string)
    requires ' ' !in a
    ensures SplitAtSpace(a + " " + b) == Some((a, b))
  {
    if |a| > 0 {
      SplitAtSpaceConcat(a[1..], b);
      assert (a + " " + b)[1..] == a[1..] + " " + b;
      assert [a[0]] + a[1..] == a;
    }
  }

  /** Every display name is free of spaces and is read back as its own kind. */
  lemma {:induction false} DisplayNameRoundTrip(k: TokenType)
    ensures ' ' !in TokenToStr(k) && KindNamed(TokenToStr(k)) == Some(k)
  {
    DisplayNamesStrLiteralToAnd(k);
    DisplayNamesClassToFor(k);
    DisplayNamesFunToOr(k);
    DisplayNamesPrintToThis(k);
    DisplayNamesTrueToLParen(k);
    DisplayNamesRParenToComma(k);
    DisplayNamesDotToSemicolon(k);
    DisplayNamesDivToNot(k);
    DisplayNamesEqToGe(k);
    DisplayNamesLtToLe(k);
    DisplayNamesErrorToEof(k);
  }

  // The round trip, a few kinds at a time: one lemma over all forty kinds
  // is too large a proof for the verifier, so each group is proved apart.

  lemma {:induction false} DisplayNamesStrLiteralToAnd(k: TokenType)
    ensures k.StrLiteral? || k.NumLiteral? || k.Identifier? || k.And? ==>
      ' ' !in TokenToStr(k) && KindNamed(TokenToStr(k)) == Some(k)
  {
    match k
    case StrLiteral =>
    case NumLiteral =>
    case Identifier =>
    case And =>
    case _ =>
  }

  lemma {:induction false} DisplayNamesClassToFor(k: TokenType)
    ensures k.Class? || k.Else? || k.False? || k.For? ==>
      ' ' !in TokenToStr(k) && KindNamed(TokenToStr(k)) == Some(k)
  {
    match k
    case Class =>
    case Else =>
    case False =>
    case For =>
    case _ =>
  }

  lemma {:induction false} DisplayNamesFunToOr(k: TokenType)
    ensures k.Fun? || k.If? || k.Nil? || k.Or? ==>
      ' ' !in TokenToStr(k) && KindNamed(TokenToStr(k)) == Some(k)
  {
    match k
    case Fun =>
    case If =>
    case Nil =>
    case Or =>
    case _ =>
  }

  lemma {:induction false} DisplayNamesPrintToThis(k: TokenType)
    ensures k.Print? || k.Return? || k.Super? || k.This? ==>
      ' ' !in TokenToStr(k) && KindNamed(TokenToStr(k)) == Some(k)
  {
    match k
    case Print =>
    case Return =>
    case Super =>
    case This =>
    case _ =>
  }

  lemma {:induction false} DisplayNamesTrueToLParen(k: TokenType)
    ensures k.True? || k.Var? || k.While? || k.LParen? ==>
      ' ' !in TokenToStr(k) && KindNamed(TokenToStr(k)) == Some(k)
  {
    match k
    case True =>
    case Var =>
    case While =>
    case LParen =>
    case _ =>
  }

  lemma {:induction false} DisplayNamesRParenToComma(k: TokenType)
    ensures k.RParen? || k.LBrace? || k.RBrace? || k.Comma? ==>
      ' ' !in TokenToStr(k) && KindNamed(TokenToStr(k)) == Some(k)
  {
    match k
    case RParen =>
    case LBrace =>
    case RBrace =>
    case Comma =>
    case _ =>
  }

  lemma {:induction false} DisplayNamesDotToSemicolon(k: TokenType)
    ensures k.Dot? || k.Minus? || k.Plus? || k.Semicolon? ==>
      ' ' !in TokenToStr(k) && KindNamed(TokenToStr(k)) == Some(k)
  {
    match k
    case Dot =>
    case Minus =>
    case Plus =>
    case Semicolon =>
    case _ =>
  }

  lemma {:induction false} DisplayNamesDivToNot(k: TokenType)
    ensures k.Div? || k.Star? || k.Assign? || k.Not? ==>
      ' ' !in TokenToStr(k) && KindNamed(TokenToStr(k)) == Some(k)
  {
    match k
    case Div =>
    case Star =>
    case Assign =>
    case Not =>
    case _ =>
  }

  lemma {:induction false} DisplayNamesEqToGe(k: TokenType)
    ensures k.Eq? || k.Ne? || k.Gt? || k.Ge? ==>
      ' ' !in TokenToStr(k) && KindNamed(TokenToStr(k)) == Some(k)
  {
    match k
    case Eq =>
    case Ne =>
    case Gt =>
    case Ge =>
    case _ =>
  }

  lemma {:induction false} DisplayNamesLtToLe(k: TokenType)
    ensures k.Lt? || k.Le? ==>
      ' ' !in TokenToStr(k) && KindNamed(TokenToStr(k)) == Some(k)
  {
    match k
    case Lt =>
    case Le =>
    case _ =>
  }

  lemma {:induction false} DisplayNamesErrorToEof(k: TokenType)
    ensures k.Error? || k.Eof? ==>
      ' ' !in TokenToStr(k) && KindNamed(TokenToStr(k)) == Some(k)
  {
    match k
    case Error =>
    case Eof =>
    case _ =>
  }

  /** Distinct kinds have distinct display names. */
  lemma {:induction false} DisplayNamesDistinct(a: TokenType, b: TokenType)
    ensures TokenToStr(a) == TokenToStr(b) <==> a == b
  {
    DisplayNameRoundTrip(a);
    DisplayNameRoundTrip(b);
  }

  /** A rendered token whose lexeme has no space splits back into its display
      name, its lexeme and its literal (or `null` when the literal is empty). */
  lemma {:induction false} RenderFields(t: Token)
    requires ' ' !in t.lexeme
    ensures Fields(Render(t)) == Some((TokenToStr(t.kind), t.lexeme, LiteralText(t.literal)))
  {
    var name := TokenToStr(t.kind);
    var lit := LiteralText(t.literal);
    DisplayNameRoundTrip(t.kind);
    assert Render(t) == name + " " + (t.lexeme + " " + lit);
    SplitAtSpaceConcat(name, t.lexeme + " " + lit);
    SplitAtSpaceConcat(t.lexeme, lit);
  }

  // The spelling of every reserved-word kind, worked out character by
  // character, four words at a time.

  lemma {:induction false} SpellingsAndToFalse()
    ensures Spelling(And) == "and"
    ensures Spelling(Class) == "class"
    ensures Spelling(Else) == "else"
    ensures Spelling(False) == "false"
  {
  }

  lemma {:induction false} SpellingsForToNil()
    ensures Spelling(For) == "for"
    ensures Spelling(Fun) == "fun"
    ensures Spelling(If) == "if"
    ensures Spelling(Nil) == "nil"
  {
  }

  lemma {:induction false} SpellingsOrToSuper()
    ensures Spelling(Or) == "or"
    ensures Spelling(Print) == "print"
    ensures Spelling(Return) == "return"
    ensures Spelling(Super) == "super"
  {
  }

  lemma {:induction false} SpellingsThisToWhile()
    ensures Spelling(This) == "this"
    ensures Spelling(True) == "true"
    ensures Spelling(Var) == "var"
    ensures Spelling(While) == "while"
  {
  }

  /** Each reserved-word kind's spelling is a key of the table, mapped to that kind. */
  lemma {:induction false} SpellingInTable(k: TokenType)
    requires IsKeyword(k)
    ensures Spelling(k) in Keywords && Keywords[Spelling(k)] == k
  {
    SpellingsAndToFalse();
    SpellingsForToNil();
    SpellingsOrToSuper();
    SpellingsThisToWhile();
    match k
    case And => assert Keywords["and"] == And;
    case Class => assert Keywords["class"] == Class;
    case Else => assert Keywords["else"] == Else;
    case False => assert Keywords["false"] == False;
    case For => assert Keywords["for"] == For;
    case Fun => assert Keywords["fun"] == Fun;
    case If => assert Keywords["if"] == If;
    case Nil => assert Keywords["nil"] == Nil;
    case Or => assert Keywords["or"] == Or;
    case Print => assert Keywords["print"] == Print;
    case Return => assert Keywords["return"] == Return;
    case Super => assert Keywords["super"] == Super;
    case This => assert Keywords["this"] == This;
    case True => assert Keywords["true"] == True;
    case Var => assert Keywords["var"] == Var;
    case While => assert Keywords["while"] == While;
  }

  /** Each key of the table is the spelling of the kind it maps to. */
  lemma {:induction false} TableSpelling(ident: string)
    requires ident in Keywords
    ensures Spelling(Keywords[ident]) == ident
  {
    SpellingsAndToFalse();
    SpellingsForToNil();
    SpellingsOrToSuper();
    SpellingsThisToWhile();
  }

  /** `LookUpIdent` finds a reserved-word kind exactly for its spelling. */
  lemma {:induction false} LookUpIdentKeyword(ident: string, k: TokenType)
    requires IsKeyword(k)
    ensures LookUpIdent(ident) == k <==> ident == Spelling(k)
  {
    SpellingInTable(k);
    if ident in Keywords {
      TableSpelling(ident);
    }
  }

  /** `LookUpIdent` answers `Identifier` exactly for the non-reserved words. */
  lemma {:induction false} LookUpIdentIdentifier(ident: string)
    ensures LookUpIdent(ident).Identifier? <==> forall k :: IsKeyword(k) ==> ident != Spelling(k)
  {
    forall k | IsKeyword(k)
      ensures LookUpIdent(ident).Identifier? ==> ident != Spelling(k)
    {
      SpellingInTable(k);
    }
    if ident in Keywords {
      TableSpelling(ident);
    }
  }

  /** The lookup is exact: a capitalised word, a word with a reserved prefix
      and the empty string are plain identifiers. */
  lemma {:induction false} LookUpIdentExamples()
    ensures LookUpIdent("class") == Class
    ensures LookUpIdent("Class").Identifier?
    ensures LookUpIdent("classroom").Identifier?
    ensures LookUpIdent("").Identifier?
  {
    assert Keywords["class"] == Class;
    assert "Class" !in Keywords;
    assert "classroom" !in Keywords;
    assert "" !in Keywords;
  }

  /** The empty string literal renders its empty literal as `null`. */
  lemma {:induction false} RenderEmptyString(p: Position)
    ensures Render(Token(StrLiteral, "\"\"", "", p)) == "STRING \"\" null"
  {
    assert TokenToStr(StrLiteral) == "STRING";
    assert LiteralText("") == "null";
  }
}
