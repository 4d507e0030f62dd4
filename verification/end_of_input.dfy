/**
 The end of the input: `EOF` once only whitespace and line comments remain,
 and `EOF` again on every later call.
 */
module EndOfInput {
  import opened Tokens
  import opened Scanner
  import opened ScanSteps
  import opened TokenCases
  import opened Outcomes

  /** With only whitespace left, `NextToken` consumes it and returns an empty
      `EOF` token; calling it again returns the same token and state. */
  lemma {:induction false} BlankTailGivesEof(l: Lexer)
    requires TokenStartsAt(l, |l.source|)
    ensures var (t, r) := NextToken(l); var w := SkipWhitespace(l);
      && t == Token(Eof, "", "", Position(w.line, w.column))
      && r.start == r.current == |l.source|
      && NextToken(r) == (t, r)
  {
    SkipWhitespaceStopsAt(l, |l.source|);
    var w := SkipWhitespace(l);
    NextTokenAtEnd(w);
    NextTokenAtEnd(w.(start := w.current));
  }

  /** Once `EOF` has been returned, every further call returns the same token
      without moving the cursor. */
  lemma {:induction false} EofIsSticky(l: Lexer)
    requires l.Valid() && NextToken(l).0.kind.Eof?
    ensures var (t, r) := NextToken(l); var r' := r.(start := r.current);
      && r.current == |l.source|
      && NextToken(r) == (t, r')
      && NextToken(r') == (t, r')
  {
    NextTokenOutcome(l);
    var p := NextToken(l);
    NextTokenAtEnd(p.1);
    NextTokenAtEnd(p.1.(start := p.1.current));
  }

  /** Source text made only of whitespace and line comments. */
  predicate Blank(s: string)
    decreases |s|
  {
    if |s| == 0 then true
    else if IsWhitespace(s[0]) then Blank(s[1..])
    else if |s| >= 2 && s[0] == '/' && s[1] == '/' then Blank(s[NextOf(s, 2, '\n')..])
    else false
  }

  /** Dropping leading whitespace keeps a text blank. */
  lemma {:induction false} BlankAfterWhitespace(s: string, k: nat)
    requires Blank(s) && k <= |s|
    requires forall i :: 0 <= i < k ==> IsWhitespace(s[i])
    ensures Blank(s[k..])
    decreases k
  {
    if k > 0 {
      assert s[1..][k - 1..] == s[k..];
      BlankAfterWhitespace(s[1..], k - 1);
    }
  }

  /** Comments are read the same from the source as from a suffix of it. */
  lemma {:induction false} NextOfShift(s: string, k: nat, i: nat, x: char)
    requires k <= i <= |s|
    ensures NextOf(s, i, x) == k + NextOf(s[k..], i - k, x)
    decreases |s| - i
  {
    if i < |s| && s[i] != x {
      NextOfShift(s, k, i + 1, x);
    }
  }

  /** What is left after the whitespace a token may follow is blank too. */
  lemma {:induction false} BlankFromToken(l: Lexer, k: nat)
    requires TokenStartsAt(l, k) && Blank(l.source[l.current..])
    ensures Blank(l.source[k..])
  {
    var s := l.source[l.current..];
    forall i | 0 <= i < k - l.current
      ensures IsWhitespace(s[i])
    {
      assert s[i] == l.source[l.current + i];
    }
    BlankAfterWhitespace(s, k - l.current);
    assert s[k - l.current..] == l.source[k..];
  }

  /** A blank text that starts with something other than whitespace starts
      with a line comment, and is blank again after it. */
  lemma {:induction false} BlankAfterComment(s: string, k: nat)
    requires k < |s| && !IsWhitespace(s[k]) && Blank(s[k..])
    ensures k + 1 < |s| && s[k] == '/' && s[k + 1] == '/'
    ensures Blank(s[NextOf(s, k + 2, '\n')..])
  {
    var rest := s[k..];
    assert rest[0] == s[k];
    assert rest[1] == s[k + 1];
    NextOfShift(s, k, k + 2, '\n');
    assert rest[NextOf(rest, 2, '\n')..] == s[NextOf(s, k + 2, '\n')..];
  }

  /** On input with only whitespace and line comments left, `NextToken`
      consumes it all and returns an empty `EOF` token. */
  lemma {:induction false} BlankGivesEof(l: Lexer)
    requires l.Valid() && Blank(l.source[l.current..])
    ensures var (t, r) := NextToken(l);
      t.kind.Eof? && t.lexeme == "" && t.literal == "" && r.current == |l.source|
    decreases |l.source| - l.current
  {
    var k := SkipWhitespace(l).current;
    SkipWhitespaceStops(l);
    BlankFromToken(l, k);
    if k < |l.source| {
      BlankAfterComment(l.source, k);
      var e := NextOf(l.source, k + 2, '\n');
      CommentSkipped(l, k, e);
      var s := SkipWhitespace(l).(start := k);
      var m := s.(current := e, column := Wrap(s.column + (e - k)));
      BlankGivesEof(m);
    } else {
      NextTokenOutcome(l);
    }
  }
}
