/**
 What `NextToken` returns for each kind of input, stated from the cursor
 across the whitespace it skips first.
 */
module TokenCases {
  import opened Tokens
  import opened Scanner
  import opened ScanSteps

  /** The kind each punctuation character yields is the one whose constant
      in the token model is that character. */
  lemma {:induction false} PunctuationSpelling(c: char)
    requires IsPunctuation(c)
    ensures Value(PunctuationKind(c)) == [c]
  {
    if c == '(' || c == ')' || c == '{' {
      PunctuationSpellingParens(c);
    } else if c == '}' || c == ',' || c == '.' {
      PunctuationSpellingSeparators(c);
    } else {
      PunctuationSpellingArithmetic(c);
    }
  }

  lemma {:induction false} PunctuationSpellingParens(c: char)
    requires c == '(' || c == ')' || c == '{'
    ensures Value(PunctuationKind(c)) == [c]
  {
    match c
    case '(' => assert Value(LParen) == "(";
    case ')' => assert Value(RParen) == ")";
    case '{' => assert Value(LBrace) == "{";
  }

  lemma {:induction false} PunctuationSpellingSeparators(c: char)
    requires c == '}' || c == ',' || c == '.'
    ensures Value(PunctuationKind(c)) == [c]
  {
    match c
    case '}' => assert Value(RBrace) == "}";
    case ',' => assert Value(Comma) == ",";
    case '.' => assert Value(Dot) == ".";
  }

  lemma {:induction false} PunctuationSpellingArithmetic(c: char)
    requires c == '-' || c == '+' || c == ';' || c == '*'
    ensures Value(PunctuationKind(c)) == [c]
  {
    match c
    case '-' => assert Value(Minus) == "-";
    case '+' => assert Value(Plus) == "+";
    case ';' => assert Value(Semicolon) == ";";
    case '*' => assert Value(Star) == "*";
  }

  /** A punctuation character after any whitespace is a token by itself:
      exactly that character is consumed, and it is its kind's constant. */
  lemma {:induction false} PunctuationToken(l: Lexer, k: nat)
    requires TokenStartsAt(l, k) && k < |l.source| && IsPunctuation(l.source[k])
    ensures var w := SkipWhitespace(l); var c := l.source[k]; var col := Inc(w.column);
      NextToken(l) == (Token(PunctuationKind(c), [c], "", Position(w.line, col)),
                       w.(start := k, current := k + 1, column := col))
    ensures Value(PunctuationKind(l.source[k])) == [l.source[k]]
  {
    var s := SkipWhitespace(l).(start := k);
    NextTokenAt(l, k, s);
    ScanPunctuationAt(s, k);
    PunctuationSpelling(l.source[k]);
  }

  /** Any other character, digits and letters included, is an `ERROR` token
      holding just that character; scanning resumes right after it. */
  lemma {:induction false} UnexpectedCharacter(l: Lexer, k: nat)
    requires TokenStartsAt(l, k) && k < |l.source|
    requires var c := l.source[k]; c != '"' && c != '/' && !IsPunctuation(c) && !IsOperatorStart(c)
    ensures var w := SkipWhitespace(l); var col := Inc(w.column);
      NextToken(l) == (Token(Error, [l.source[k]], "", Position(w.line, col)),
                       w.(start := k, current := k + 1, column := col))
  {
    var s := SkipWhitespace(l).(start := k);
    NextTokenAt(l, k, s);
    ScanPunctuationAt(s, k);
  }

  /** A `/` not followed by another `/` is a division token by itself. */
  lemma {:induction false} SlashToken(l: Lexer, k: nat)
    requires TokenStartsAt(l, k) && k < |l.source| && l.source[k] == '/'
    requires k + 1 == |l.source| || l.source[k + 1] != '/'
    ensures var w := SkipWhitespace(l); var col := Inc(w.column);
      NextToken(l) == (Token(Div, "/", "", Position(w.line, col)),
                       w.(start := k, current := k + 1, column := col))
    ensures Value(Div) == "/"
  {
    var s := SkipWhitespace(l).(start := k);
    NextTokenAt(l, k, s);
    ScanSlashAt(s, k);
  }

  /** Each operator kind's constant is its lexeme. */
  lemma {:induction false} OperatorSpelling(c: char, withEquals: bool)
    requires IsOperatorStart(c)
    ensures Value(OperatorKind(c, withEquals)) == [c] + (if withEquals then "=" else "")
  {
    if withEquals {
      ComparisonSpelling(c);
    } else {
      OperatorAloneSpelling(c);
    }
  }

  lemma {:induction false} ComparisonSpelling(c: char)
    requires IsOperatorStart(c)
    ensures Value(OperatorKind(c, true)) == [c] + "="
  {
    match c
    case '=' => assert Value(Eq) == "==";
    case '!' => assert Value(Ne) == "!=";
    case '>' => assert Value(Ge) == ">=";
    case '<' => assert Value(Le) == "<=";
  }

  lemma {:induction false} OperatorAloneSpelling(c: char)
    requires IsOperatorStart(c)
    ensures Value(OperatorKind(c, false)) == [c]
  {
    match c
    case '=' => assert Value(Assign) == "=";
    case '!' => assert Value(Not) == "!";
    case '>' => assert Value(Gt) == ">";
    case '<' => assert Value(Lt) == "<";
  }

  /** The one or two characters of an operator's lexeme. */
  lemma {:induction false} OperatorLexeme(s: string, k: nat, withEquals: bool)
    requires k < |s| && (withEquals ==> k + 1 < |s| && s[k + 1] == '=')
    ensures s[k .. if withEquals then k + 2 else k + 1] == [s[k]] + (if withEquals then "=" else "")
  {
    if withEquals {
      assert s[k .. k + 2] == [s[k]] + "=";
    } else {
      assert s[k .. k + 1] == [s[k]];
    }
  }

  /** `=`, `!`, `>` and `<` take a directly following `=` into the same token;
      otherwise they are a token by themselves and the next character is left
      unread. Either way the lexeme is the kind's constant. */
  lemma {:induction false} OperatorToken(l: Lexer, k: nat)
    requires TokenStartsAt(l, k) && k < |l.source| && IsOperatorStart(l.source[k])
    ensures var w := SkipWhitespace(l);
      var withEquals := k + 1 < |l.source| && l.source[k + 1] == '=';
      var n := if withEquals then k + 2 else k + 1;
      var col := if withEquals then Inc(Inc(w.column)) else Inc(w.column);
      NextToken(l) == (Token(OperatorKind(l.source[k], withEquals), l.source[k .. n], "", Position(w.line, col)),
                       w.(start := k, current := n, column := col))
    ensures var withEquals := k + 1 < |l.source| && l.source[k + 1] == '=';
      Value(OperatorKind(l.source[k], withEquals)) == l.source[k .. if withEquals then k + 2 else k + 1]
  {
    var s := SkipWhitespace(l).(start := k);
    NextTokenAt(l, k, s);
    ScanOperatorAt(s, k);
    var withEquals := k + 1 < |l.source| && l.source[k + 1] == '=';
    OperatorSpelling(l.source[k], withEquals);
    OperatorLexeme(l.source, k, withEquals);
  }

  /** A line comment produces no token: `NextToken` returns what it returns
      on the state whose cursor sits at the newline ending the comment (or at
      the end of the input), the comment's characters counted in the column. */
  lemma {:induction false} CommentSkipped(l: Lexer, k: nat, e: nat)
    requires TokenStartsAt(l, k) && k + 1 < |l.source|
    requires l.source[k] == '/' && l.source[k + 1] == '/'
    requires e == NextOf(l.source, k + 2, '\n')
    ensures var s := SkipWhitespace(l).(start := k);
      NextToken(l) == NextToken(s.(current := e, column := Wrap(s.column + (e - k))))
  {
    var s := SkipWhitespace(l).(start := k);
    NextTokenAt(l, k, s);
    ScanCommentSkips(s, k, e);
  }

  /** A `"` with a closing `"` at `q` is a string literal: the literal is the
      text between the quotes, the lexeme that text with its quotes, and the
      cursor ends just past the closing quote. Newlines inside the literal do
      not move the line counter. */
  lemma {:induction false} StringToken(l: Lexer, k: nat, q: nat)
    requires TokenStartsAt(l, k) && k < |l.source| && l.source[k] == '"'
    requires q == NextOf(l.source, k + 1, '"') < |l.source|
    ensures var s := SkipWhitespace(l).(start := k); var col := Wrap(s.column + (q + 1 - k));
      var literal := s.source[k + 1 .. q];
      NextToken(l) == (Token(StrLiteral, "\"" + literal + "\"", literal, Position(s.line, col)),
                       s.(current := q + 1, column := col))
    ensures l.source[k .. q + 1] == "\"" + l.source[k + 1 .. q] + "\""
  {
    var s := SkipWhitespace(l).(start := k);
    NextTokenAt(l, k, s);
    ScanStringClosed(s, k, q);
    QuotedSlice(l.source, k, q);
  }

  /** A `"` with no closing quote consumes the rest of the input and yields an
      empty `EOF` token rather than an error. */
  lemma {:induction false} UnterminatedString(l: Lexer, k: nat)
    requires TokenStartsAt(l, k) && k < |l.source| && l.source[k] == '"'
    requires NextOf(l.source, k + 1, '"') == |l.source|
    ensures var s := SkipWhitespace(l).(start := k); var col := Wrap(s.column + (|s.source| - k));
      NextToken(l) == (Token(Eof, "", "", Position(s.line, col)), s.(current := |s.source|, column := col))
  {
    var s := SkipWhitespace(l).(start := k);
    NextTokenAt(l, k, s);
    ScanStringOpen(s, k);
  }
}
