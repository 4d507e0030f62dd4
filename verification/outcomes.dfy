/**
 What every call of the scanner promises, whatever the input: `NextToken`
 and `ScanToken` always end in a state and token related as `ScanOutcome`
 says.
 */
module Outcomes {
  import opened Tokens
  import opened Scanner
  import opened ScanSteps

  /** A promise about a scan from a later state `m` is one about a scan from
      `l` as well. */
  lemma {:induction false} OutcomeFromLater(l: Lexer, m: Lexer, t: Token, r: Lexer)
    requires Follows(l, m) && ScanOutcome(m, t, r)
    ensures ScanOutcome(l, t, r)
  {
  }

  /** No quote lies in a slice that `NextOf` skipped. */
  lemma {:induction false} NoQuoteBefore(s: string, i: nat)
    requires i <= |s|
    ensures '"' !in s[i .. NextOf(s, i, '"')]
  {
    NextOfSkips(s, i, '"');
    var q := NextOf(s, i, '"');
    forall j | 0 <= j < q - i
      ensures s[i .. q][j] != '"'
    {
      assert s[i .. q][j] == s[i + j];
    }
  }

  /** `NextToken` keeps every promise of `ScanOutcome`, from any valid state. */
  lemma {:induction false} NextTokenOutcome(l: Lexer)
    requires l.Valid()
    ensures var (t, r) := NextToken(l); ScanOutcome(l, t, r)
    decreases |l.source| - l.current, 3
  {
    var w := SkipWhitespace(l);
    var s := w.(start := w.current);
    if !IsAtEnd(s) {
      ScanTokenOutcome(s);
      OutcomeFromLater(l, s, ScanToken(s).0, ScanToken(s).1);
    }
  }

  /** So does `ScanToken`, from the first character of a token. */
  lemma {:induction false} ScanTokenOutcome(s: Lexer)
    requires ScansFrom(s, s.current)
    ensures var (t, r) := ScanToken(s); ScanOutcome(s, t, r)
    decreases |s.source| - s.current, 2
  {
    var k := s.current;
    var c := s.source[k];
    if c == '"' {
      StringOutcome(s);
    } else if c == '/' && k + 1 < |s.source| && s.source[k + 1] == '/' {
      CommentOutcome(s);
    } else if c == '/' {
      ScanSlashAt(s, k);
      SliceOne(s.source, k);
    } else if IsOperatorStart(c) {
      ScanOperatorAt(s, k);
    } else {
      ScanPunctuationAt(s, k);
      SliceOne(s.source, k);
    }
  }

  /** A line comment: the promise of the `NextToken` call after it. */
  lemma {:induction false} CommentOutcome(s: Lexer)
    requires ScansFrom(s, s.current)
    requires s.current + 1 < |s.source| && s.source[s.current] == '/' && s.source[s.current + 1] == '/'
    ensures var (t, r) := ScanToken(s); ScanOutcome(s, t, r)
    decreases |s.source| - s.current, 1
  {
    var k := s.current;
    var e := NextOf(s.source, k + 2, '\n');
    ScanCommentSkips(s, k, e);
    var m := s.(current := e, column := Wrap(s.column + (e - k)));
    NextTokenOutcome(m);
    OutcomeFromLater(s, m, NextToken(m).0, NextToken(m).1);
  }

  /** A string literal, closed or not. */
  lemma {:induction false} StringOutcome(s: Lexer)
    requires ScansFrom(s, s.current) && s.source[s.current] == '"'
    ensures var (t, r) := ScanToken(s); ScanOutcome(s, t, r)
  {
    var k := s.current;
    var q := NextOf(s.source, k + 1, '"');
    if q < |s.source| {
      ScanStringClosed(s, k, q);
      QuotedSlice(s.source, k, q);
      NoQuoteBefore(s.source, k + 1);
    } else {
      ScanStringOpen(s, k);
    }
  }
}
