/**
 The golox scanner: an immutable lexer state and a pure `NextToken` that skips
 whitespace and line comments, then consumes exactly one token.
 */
module Scanner {
  import opened Tokens

  /** `start` marks the first character of the token being scanned and
      `current` the next unread one; `line` and `column` are the counters the
      next token's position is taken from. */
  datatype Lexer = Lexer(source: string, start: nat, current: nat, line: u32, column: u32)
  {
    predicate Valid() {
      start <= current <= |source|
    }
  }

  /** A fresh lexer over `source` (the file name the source also stores is never read). */
  function New(source: string): (l: Lexer)
    ensures l.Valid() && l.source == source
    ensures l.start == 0 && l.current == 0 && l.line == 1 && l.column == 1
  {
    Lexer(source, 0, 0, 1, 1)
  }

  predicate IsAtEnd(l: Lexer) {
    l.current >= |l.source|
  }

  /** Consumes one character: the cursor and the column move by one. */
  function Advance(l: Lexer): (r: (char, Lexer))
    requires l.Valid() && !IsAtEnd(l)
    ensures r.1.Valid() && r.1.source == l.source && r.1.start == l.start
    ensures r.0 == l.source[l.current] && r.1.current == l.current + 1
    ensures r.1.line == l.line && r.1.column == Inc(l.column)
  {
    (l.source[l.current], l.(current := l.current + 1, column := Inc(l.column)))
  }

  /** The next unread character, or NUL at the end of the input. */
  function Peek(l: Lexer): char
    requires l.Valid()
  {
    if IsAtEnd(l) then '\0' else l.source[l.current]
  }

  /** `Advance` consumes exactly the character `Peek` shows, and changes
      nothing but the cursor and the column. */
  lemma {:induction false} PeekThenAdvance(l: Lexer)
    requires l.Valid() && !IsAtEnd(l)
    ensures Advance(l).0 == Peek(l)
    ensures Advance(l).1 == l.(current := l.current + 1, column := Inc(l.column))
  {
  }

  /** The counter update on a newline: next line, first column. */
  function ResetCursor(l: Lexer): Lexer {
    l.(line := Inc(l.line), column := 1)
  }

  /** `r` is a state reached from `l`: same source, cursor not moved back. */
  predicate Follows(l: Lexer, r: Lexer) {
    r.Valid() && r.source == l.source && l.current <= r.current
  }

  predicate IsWhitespace(c: char) {
    c == ' ' || c == '\r' || c == '\t' || c == '\n'
  }

  /** Consumes the run of whitespace at the cursor. A newline first resets the
      counters and is then consumed like any other character, so the column
      after it is 2. */
  function SkipWhitespace(l: Lexer): (r: Lexer)
    requires l.Valid()
    ensures Follows(l, r) && r.start == l.start
    decreases |l.source| - l.current
  {
    if IsWhitespace(Peek(l)) then
      var l1 := if Peek(l) == '\n' then ResetCursor(l) else l;
      SkipWhitespace(Advance(l1).1)
    else
      l
  }

  /** The index of the first `x` at or after `i`, or the end of `s`. */
  function NextOf(s: string, i: nat, x: char): (e: nat)
    requires i <= |s|
    ensures i <= e <= |s|
    ensures e == |s| || s[e] == x
    decreases |s| - i
  {
    if i == |s| || s[i] == x then i else NextOf(s, i + 1, x)
  }

  /** No `x` lies between `i` and `NextOf(s, i, x)`. */
  lemma {:induction false} NextOfSkips(s: string, i: nat, x: char)
    requires i <= |s|
    ensures forall j :: i <= j < NextOf(s, i, x) ==> s[j] != x
    decreases |s| - i
  {
    if i < |s| && s[i] != x {
      NextOfSkips(s, i + 1, x);
    }
  }

  /** Consumes a string literal's body: everything up to the next `"` or the
      end, one column per character; the line counter stays put even across
      newlines. */
  function ScanStringBody(l: Lexer): (r: Lexer)
    requires l.Valid()
    ensures Follows(l, r) && r.start == l.start
    decreases |l.source| - l.current
  {
    if Peek(l) != '"' && !IsAtEnd(l) then ScanStringBody(Advance(l).1) else l
  }

  /** Consumes a line comment's text: everything up to the next newline or
      the end, one column per character. */
  function ScanCommentBody(l: Lexer): (r: Lexer)
    requires l.Valid()
    ensures Follows(l, r)
    decreases |l.source| - l.current
  {
    if !IsAtEnd(l) && Peek(l) != '\n' then ScanCommentBody(Advance(l).1) else l
  }

  /** The rest of a string literal, its opening quote already consumed. With no
      closing quote the input is consumed to the end and an `EOF` token is
      returned; otherwise the literal is the text between the quotes. */
  function TokenizeString(l: Lexer): (r: (Token, Lexer))
    requires l.Valid() && l.start < l.current
    ensures Follows(l, r.1)
  {
    var l1 := ScanStringBody(l);
    if IsAtEnd(l1) then
      (NewToken(Eof, "", "", l1.line, l1.column), l1)
    else
      var l2 := Advance(l1).1;
      var literal := l2.source[l2.start + 1 .. l2.current - 1];
      (NewToken(StrLiteral, "\"" + literal + "\"", literal, l2.line, l2.column), l2)
  }

  /** The characters that are a whole token on their own (`/` aside, which
      may start a comment). */
  predicate IsPunctuation(c: char) {
    c == '(' || c == ')' || c == '{' || c == '}' || c == ',' || c == '.'
    || c == '-' || c == '+' || c == ';' || c == '*'
  }

  /** The characters that start a one-or-two-character operator. */
  predicate IsOperatorStart(c: char) {
    c == '=' || c == '!' || c == '>' || c == '<'
  }

  /** The kinds this scanner can produce. */
  predicate Scannable(k: TokenType) {
    !(k.NumLiteral? || k.Identifier? || IsKeyword(k))
  }

  /** What every scanning step from `l` promises of its token `t` and final
      state `r`: the cursor never moves back; `EOF` comes only at the end of
      the input and is empty; any other token's lexeme is exactly the source
      text between the new `start` and `current`; only string literals carry a
      literal, the text between their quotes; the position is the counters
      after the token. */
  predicate ScanOutcome(l: Lexer, t: Token, r: Lexer) {
    && Follows(l, r)
    && Scannable(t.kind)
    && t.pos == Position(r.line, r.column)
    && (t.kind.Eof? ==> t.lexeme == "" && t.literal == "" && r.current == |l.source|)
    && (!t.kind.Eof? ==> l.current <= r.start < r.current && t.lexeme == l.source[r.start .. r.current])
    && (t.kind.StrLiteral? ==>
          && r.start + 2 <= r.current
          && t.literal == l.source[r.start + 1 .. r.current - 1]
          && '"' !in t.literal)
    && (!t.kind.StrLiteral? ==> t.literal == "")
  }

  /** Skips whitespace and line comments, then scans one token. The token's
      position is the counters after its last character. */
  function NextToken(l: Lexer): (r: (Token, Lexer))
    requires l.Valid()
    ensures Follows(l, r.1)
    decreases |l.source| - l.current, 3
  {
    var l1 := SkipWhitespace(l);
    var l2 := l1.(start := l1.current);
    if IsAtEnd(l2) then
      (NewToken(Eof, "", "", l2.line, l2.column), l2)
    else
      ScanToken(l2)
  }

  /** Consumes the character at the cursor, the first of a token, and
      dispatches on it. */
  function ScanToken(l: Lexer): (r: (Token, Lexer))
    requires l.Valid() && l.start == l.current && !IsAtEnd(l)
    ensures Follows(l, r.1)
    decreases |l.source| - l.current, 2
  {
    var ch := l.source[l.current];
    if ch == '"' then ScanString(l)
    else if ch == '/' then ScanSlash(l)
    else if IsOperatorStart(ch) then ScanOperator(l)
    else ScanPunctuation(l)
  }

  /** A string literal (or, unterminated, `EOF`) from the opening quote. */
  function ScanString(l: Lexer): (r: (Token, Lexer))
    requires l.Valid() && l.start == l.current && !IsAtEnd(l)
    ensures Follows(l, r.1)
  {
    TokenizeString(Advance(l).1)
  }

  /** The text of a string literal with its quotes. */
  lemma QuotedSlice(s: string, k: nat, q: nat)
    requires k < q < |s| && s[k] == '"' && s[q] == '"'
    ensures s[k .. q + 1] == "\"" + s[k + 1 .. q] + "\""
  {
  }

  /** `/` alone is a division token; `//` starts a line comment, which is
      skipped up to the newline or the end before scanning starts over. */
  function ScanSlash(l: Lexer): (r: (Token, Lexer))
    requires l.Valid() && l.start == l.current && !IsAtEnd(l)
    ensures Follows(l, r.1)
    decreases |l.source| - l.current, 1
  {
    var l1 := Advance(l).1;
    if Peek(l1) == '/' then
      NextToken(ScanCommentBody(Advance(l1).1))
    else
      (NewToken(Div, "/", "", l1.line, l1.column), l1)
  }

  /** The one-or-two-character operators `=`, `!`, `>`, `<`: a following `=`
      is consumed too, otherwise the next character is left unread. */
  function ScanOperator(l: Lexer): (r: (Token, Lexer))
    requires l.Valid() && l.start == l.current && !IsAtEnd(l)
    requires IsOperatorStart(l.source[l.current])
    ensures Follows(l, r.1)
  {
    var (ch, l1) := Advance(l);
    match ch
    case '=' => OneOrTwo(l1, Assign, "=", Eq, "==")
    case '!' => OneOrTwo(l1, Not, "!", Ne, "!=")
    case '>' => OneOrTwo(l1, Gt, ">", Ge, ">=")
    case '<' => OneOrTwo(l1, Lt, "<", Le, "<=")
  }

  /** The shared shape of the operator cases: `two` with lexeme `long` when
      the next character is `=`, which is then consumed; `one` with lexeme
      `short` otherwise. */
  function OneOrTwo(l: Lexer, one: TokenType, short: string, two: TokenType, long: string): (r: (Token, Lexer))
    requires l.Valid()
    ensures Follows(l, r.1)
  {
    if Peek(l) == '=' then
      var l2 := Advance(l).1;
      (NewToken(two, long, "", l2.line, l2.column), l2)
    else
      (NewToken(one, short, "", l.line, l.column), l)
  }

  /** The kind of a one-character token: the punctuation kinds, and `ERROR`
      for any character the scanner does not know (digits and letters
      included). */
  function PunctuationKind(c: char): (k: TokenType)
    ensures Scannable(k) && !k.Eof? && !k.StrLiteral?
    ensures k.Error? <==> !IsPunctuation(c)
  {
    match c
    case '(' => LParen
    case ')' => RParen
    case '{' => LBrace
    case '}' => RBrace
    case ',' => Comma
    case '.' => Dot
    case '-' => Minus
    case '+' => Plus
    case ';' => Semicolon
    case '*' => Star
    case _ => Error
  }

  /** The single-character tokens: the character at the cursor is consumed
      and is the whole lexeme. */
  function ScanPunctuation(l: Lexer): (r: (Token, Lexer))
    requires l.Valid() && l.start == l.current && !IsAtEnd(l)
    ensures Follows(l, r.1)
  {
    var (ch, l1) := Advance(l);
    (NewToken(PunctuationKind(ch), [ch], "", l1.line, l1.column), l1)
  }
}
