/**
 The scanner one step at a time: where the next token starts, and what each
 branch of `ScanToken` yields from the state with `start` and `current` on
 the token's first character.
 */
module ScanSteps {
  import opened Tokens
  import opened Scanner
  import opened Counters

  /** `k` is where the next token starts: the source from the cursor up to
      `k` is whitespace, and the character at `k`, if any, is not. */
  predicate TokenStartsAt(l: Lexer, k: nat) {
    && l.Valid() && l.current <= k <= |l.source|
    && (forall i :: l.current <= i < k ==> IsWhitespace(l.source[i]))
    && (k == |l.source| || !IsWhitespace(l.source[k]))
  }

  /** Skipping whitespace consumes only whitespace and stops at the first
      character that is not, or at the end. */
  lemma {:induction false} SkipWhitespaceStops(l: Lexer)
    requires l.Valid()
    ensures TokenStartsAt(l, SkipWhitespace(l).current)
    decreases |l.source| - l.current
  {
    if IsWhitespace(Peek(l)) {
      var l1 := if Peek(l) == '\n' then ResetCursor(l) else l;
      SkipWhitespaceStops(Advance(l1).1);
    }
  }

  /** Skipping whitespace stops exactly where the next token starts: there is
      only one such place. */
  lemma {:induction false} SkipWhitespaceStopsAt(l: Lexer, k: nat)
    requires TokenStartsAt(l, k)
    ensures SkipWhitespace(l).current == k
  {
    SkipWhitespaceStops(l);
  }

  /** When a token starts at `k`, `NextToken` scans it from the skipped
      state `s` with `start` moved to `k`. */
  lemma {:induction false} NextTokenAt(l: Lexer, k: nat, s: Lexer)
    requires TokenStartsAt(l, k) && k < |l.source|
    requires s == SkipWhitespace(l).(start := k)
    ensures ScansFrom(s, k) && NextToken(l) == ScanToken(s)
  {
    SkipWhitespaceStopsAt(l, k);
  }

  /** At the end of the input `NextToken` returns an empty `EOF` token at the
      current counters and moves nothing but `start`. */
  lemma {:induction false} NextTokenAtEnd(l: Lexer)
    requires l.Valid() && l.current == |l.source|
    ensures NextToken(l) == (Token(Eof, "", "", Position(l.line, l.column)), l.(start := l.current))
  {
    assert SkipWhitespace(l) == l;
  }

  /** The state a token is scanned from: `start` and `current` at `k`. */
  predicate ScansFrom(s: Lexer, k: nat) {
    s.Valid() && s.start == s.current == k < |s.source|
  }

  /** A one-character token: the character at `k` is consumed and is the
      lexeme. */
  lemma {:induction false} ScanPunctuationAt(s: Lexer, k: nat)
    requires ScansFrom(s, k) && !IsOperatorStart(s.source[k]) && s.source[k] != '"' && s.source[k] != '/'
    ensures var c := s.source[k]; var col := Inc(s.column);
      ScanToken(s) == (Token(PunctuationKind(c), [c], "", Position(s.line, col)), s.(current := k + 1, column := col))
  {
    assert ScanToken(s) == ScanPunctuation(s);
    assert Advance(s) == (s.source[k], s.(current := k + 1, column := Inc(s.column)));
  }

  /** `/` with no second `/` after it. */
  lemma {:induction false} ScanSlashAt(s: Lexer, k: nat)
    requires ScansFrom(s, k) && s.source[k] == '/'
    requires k + 1 == |s.source| || s.source[k + 1] != '/'
    ensures var col := Inc(s.column);
      ScanToken(s) == (Token(Div, "/", "", Position(s.line, col)), s.(current := k + 1, column := col))
  {
    assert ScanToken(s) == ScanSlash(s);
    var a := s.(current := k + 1, column := Inc(s.column));
    assert Advance(s).1 == a;
    assert Peek(a) != '/';
  }

  /** The kind of an operator starting with `c`, the two-character one when
      `c` is followed by `=`. */
  function OperatorKind(c: char, withEquals: bool): TokenType
    requires IsOperatorStart(c)
  {
    match c
    case '=' => if withEquals then Eq else Assign
    case '!' => if withEquals then Ne else Not
    case '>' => if withEquals then Ge else Gt
    case '<' => if withEquals then Le else Lt
  }

  /** An operator takes a directly following `=` into the same token. */
  lemma {:induction false} ScanOperatorAt(s: Lexer, k: nat)
    requires ScansFrom(s, k) && IsOperatorStart(s.source[k])
    ensures var withEquals := k + 1 < |s.source| && s.source[k + 1] == '=';
      var n := if withEquals then k + 2 else k + 1;
      var col := if withEquals then Inc(Inc(s.column)) else Inc(s.column);
      ScanToken(s) == (Token(OperatorKind(s.source[k], withEquals), s.source[k .. n], "", Position(s.line, col)),
                       s.(current := n, column := col))
  {
    assert ScanToken(s) == ScanOperator(s);
    if k + 1 < |s.source| && s.source[k + 1] == '=' {
      ScanOperatorWithEquals(s, k);
    } else {
      ScanOperatorAlone(s, k);
    }
  }

  lemma {:induction false} ScanOperatorWithEquals(s: Lexer, k: nat)
    requires ScansFrom(s, k) && IsOperatorStart(s.source[k])
    requires k + 1 < |s.source| && s.source[k + 1] == '='
    ensures var col := Inc(Inc(s.column));
      ScanOperator(s) == (Token(OperatorKind(s.source[k], true), s.source[k .. k + 2], "", Position(s.line, col)),
                          s.(current := k + 2, column := col))
  {
    var a := s.(current := k + 1, column := Inc(s.column));
    assert Advance(s) == (s.source[k], a);
    assert Peek(a) == '=';
    assert Advance(a).1 == s.(current := k + 2, column := Inc(Inc(s.column)));
    assert s.source[k .. k + 2] == [s.source[k]] + "=";
    match s.source[k]
    case '=' => assert [s.source[k]] + "=" == "==";
    case '!' => assert [s.source[k]] + "=" == "!=";
    case '>' => assert [s.source[k]] + "=" == ">=";
    case '<' => assert [s.source[k]] + "=" == "<=";
  }

  lemma {:induction false} ScanOperatorAlone(s: Lexer, k: nat)
    requires ScansFrom(s, k) && IsOperatorStart(s.source[k])
    requires !(k + 1 < |s.source| && s.source[k + 1] == '=')
    ensures var col := Inc(s.column);
      ScanOperator(s) == (Token(OperatorKind(s.source[k], false), s.source[k .. k + 1], "", Position(s.line, col)),
                          s.(current := k + 1, column := col))
  {
    var a := s.(current := k + 1, column := Inc(s.column));
    assert Advance(s) == (s.source[k], a);
    assert Peek(a) != '=';
    SliceOne(s.source, k);
  }

  /** A one-character slice. */
  lemma SliceOne(src: string, k: nat)
    requires k < |src|
    ensures src[k .. k + 1] == [src[k]]
  {
  }

  /** Two characters consumed. */
  lemma {:induction false} AdvanceTwice(s: Lexer)
    requires s.Valid() && s.current + 2 <= |s.source|
    ensures Advance(Advance(s).1).1 == s.(current := s.current + 2, column := Inc(Inc(s.column)))
  {
  }

  /** `//` hands the rest of the line, from the state `a` after both
      slashes, to `ScanCommentBody` and starts over. */
  lemma {:induction false} ScanSlashComment(s: Lexer, k: nat, a: Lexer)
    requires ScansFrom(s, k) && k + 1 < |s.source| && s.source[k] == '/' && s.source[k + 1] == '/'
    requires a == Advance(Advance(s).1).1
    ensures ScanToken(s) == NextToken(ScanCommentBody(a))
  {
    assert ScanToken(s) == ScanSlash(s);
  }

  /** A comment's text ends at the end of its line `e`, one column per
      character. */
  lemma {:induction false} ScanCommentBodyStops(l: Lexer, e: nat)
    requires l.Valid() && e == NextOf(l.source, l.current, '\n')
    ensures ScanCommentBody(l) == l.(current := e, column := Wrap(l.column + (e - l.current)))
    decreases |l.source| - l.current
  {
    if !IsAtEnd(l) && Peek(l) != '\n' {
      ScanCommentBodyStops(Advance(l).1, e);
      WrapInc(l.column, e - (l.current + 1), e - l.current);
    } else {
      WrapSmall(l.column);
    }
  }

  /** A string literal's body ends at the next quote `q` (or the end of the
      input), one column per character; newlines do not move the line. */
  lemma {:induction false} ScanStringBodyStops(l: Lexer, q: nat)
    requires l.Valid() && q == NextOf(l.source, l.current, '"')
    ensures ScanStringBody(l) == l.(current := q, column := Wrap(l.column + (q - l.current)))
    decreases |l.source| - l.current
  {
    if Peek(l) != '"' && !IsAtEnd(l) {
      ScanStringBodyStops(Advance(l).1, q);
      WrapInc(l.column, q - (l.current + 1), q - l.current);
    } else {
      WrapSmall(l.column);
    }
  }

  /** With a closing quote at `q`, the literal is the text up to it and the
      cursor ends just past it. */
  lemma {:induction false} TokenizeStringClosed(l: Lexer, q: nat)
    requires l.Valid() && l.start < l.current
    requires q == NextOf(l.source, l.current, '"') < |l.source|
    ensures var literal := l.source[l.start + 1 .. q];
      var col := Wrap(l.column + (q + 1 - l.current));
      TokenizeString(l) == (Token(StrLiteral, "\"" + literal + "\"", literal, Position(l.line, col)),
                            l.(current := q + 1, column := col))
  {
    ScanStringBodyStops(l, q);
    IncWrap(l.column + (q - l.current), l.column + (q + 1 - l.current));
  }

  /** With no closing quote ahead, the rest of the input is consumed and the
      token is an empty `EOF`. */
  lemma {:induction false} TokenizeStringOpen(l: Lexer)
    requires l.Valid() && l.start < l.current
    requires NextOf(l.source, l.current, '"') == |l.source|
    ensures var col := Wrap(l.column + (|l.source| - l.current));
      TokenizeString(l) == (Token(Eof, "", "", Position(l.line, col)),
                            l.(current := |l.source|, column := col))
  {
    ScanStringBodyStops(l, |l.source|);
  }

  /** A `"` hands the rest of the input, from the state `a` after the quote,
      to `TokenizeString`. */
  lemma {:induction false} ScanStringAt(s: Lexer, k: nat, a: Lexer)
    requires ScansFrom(s, k) && s.source[k] == '"'
    requires a == Advance(s).1
    ensures ScanToken(s) == TokenizeString(a)
  {
    assert ScanToken(s) == ScanString(s);
  }

  /** `//` skips to the end of the line `e` and starts over there, the
      comment's characters counted in the column. */
  lemma {:induction false} ScanCommentSkips(s: Lexer, k: nat, e: nat)
    requires ScansFrom(s, k) && k + 1 < |s.source| && s.source[k] == '/' && s.source[k + 1] == '/'
    requires e == NextOf(s.source, k + 2, '\n')
    ensures ScanToken(s) == NextToken(s.(current := e, column := Wrap(s.column + (e - k))))
  {
    var a := s.(current := k + 2, column := Inc(Inc(s.column)));
    AdvanceTwice(s);
    ScanSlashComment(s, k, a);
    CommentBodyFrom(s, k, e, a);
  }

  /** The comment body read from two characters past `k`. */
  lemma {:induction false} CommentBodyFrom(s: Lexer, k: nat, e: nat, a: Lexer)
    requires ScansFrom(s, k) && k + 1 < |s.source|
    requires e == NextOf(s.source, k + 2, '\n')
    requires a == s.(current := k + 2, column := Inc(Inc(s.column)))
    ensures ScanCommentBody(a) == s.(current := e, column := Wrap(s.column + (e - k)))
  {
    ScanCommentBodyStops(a, e);
    WrapIncInc(s.column, e - (k + 2), e - k);
  }

  /** `"` with a closing quote at `q`: a string literal ending just past it. */
  lemma {:induction false} ScanStringClosed(s: Lexer, k: nat, q: nat)
    requires ScansFrom(s, k) && s.source[k] == '"'
    requires q == NextOf(s.source, k + 1, '"') < |s.source|
    ensures var literal := s.source[k + 1 .. q]; var col := Wrap(s.column + (q + 1 - k));
      ScanToken(s) == (Token(StrLiteral, "\"" + literal + "\"", literal, Position(s.line, col)),
                       s.(current := q + 1, column := col))
  {
    var a := s.(current := k + 1, column := Inc(s.column));
    ScanStringAt(s, k, a);
    StringClosedFrom(s, k, q, a);
  }

  /** The closed literal read from just past the opening quote at `k`. */
  lemma {:induction false} StringClosedFrom(s: Lexer, k: nat, q: nat, a: Lexer)
    requires ScansFrom(s, k)
    requires q == NextOf(s.source, k + 1, '"') < |s.source|
    requires a == s.(current := k + 1, column := Inc(s.column))
    ensures var literal := s.source[k + 1 .. q]; var col := Wrap(s.column + (q + 1 - k));
      TokenizeString(a) == (Token(StrLiteral, "\"" + literal + "\"", literal, Position(s.line, col)),
                            s.(current := q + 1, column := col))
  {
    TokenizeStringClosed(a, q);
    WrapInc(s.column, q + 1 - (k + 1), q + 1 - k);
  }

  /** `"` with no closing quote: the rest of the input and an empty `EOF`. */
  lemma {:induction false} ScanStringOpen(s: Lexer, k: nat)
    requires ScansFrom(s, k) && s.source[k] == '"'
    requires NextOf(s.source, k + 1, '"') == |s.source|
    ensures var col := Wrap(s.column + (|s.source| - k));
      ScanToken(s) == (Token(Eof, "", "", Position(s.line, col)), s.(current := |s.source|, column := col))
  {
    var a := s.(current := k + 1, column := Inc(s.column));
    ScanStringAt(s, k, a);
    StringOpenFrom(s, k, a);
  }

  /** The unterminated literal read from just past the opening quote at `k`. */
  lemma {:induction false} StringOpenFrom(s: Lexer, k: nat, a: Lexer)
    requires ScansFrom(s, k)
    requires NextOf(s.source, k + 1, '"') == |s.source|
    requires a == s.(current := k + 1, column := Inc(s.column))
    ensures var col := Wrap(s.column + (|s.source| - k));
      TokenizeString(a) == (Token(Eof, "", "", Position(s.line, col)), s.(current := |s.source|, column := col))
  {
    TokenizeStringOpen(a);
    WrapInc(s.column, |s.source| - (k + 1), |s.source| - k);
  }
}
