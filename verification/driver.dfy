/**
 The `tokenize` command's loop: tokens are pulled from the scanner until
 `EOF`; `ERROR` tokens are reported apart from the others, and make the exit
 status 65.
 */
module Driver {
  import opened Tokens
  import opened Scanner
  import opened Outcomes
  import opened EndOfInput

  /** Every token `NextToken` returns from `l`, up to and including the first
      `EOF`. */
  function Scan(l: Lexer): (ts: seq<Token>)
    requires l.Valid()
    ensures |ts| > 0 && ts[|ts| - 1].kind.Eof?
    ensures forall i :: 0 <= i < |ts| - 1 ==> !ts[i].kind.Eof?
    ensures forall i :: 0 <= i < |ts| ==> Scannable(ts[i].kind)
    decreases |l.source| - l.current
  {
    var (t, r) := NextToken(l);
    NextTokenOutcome(l);
    if t.kind.Eof? then [t] else [t] + Scan(r)
  }

  /** The tokens of `ts` that are not `ERROR`, in order. */
  function Printable(ts: seq<Token>): (ps: seq<Token>)
    ensures forall i :: 0 <= i < |ps| ==> !ps[i].kind.Error?
  {
    if |ts| == 0 then []
    else (if ts[0].kind.Error? then [] else [ts[0]]) + Printable(ts[1..])
  }

  /** The `ERROR` tokens of `ts`, in order. */
  function Errors(ts: seq<Token>): (es: seq<Token>)
    ensures forall i :: 0 <= i < |es| ==> es[i].kind.Error?
  {
    if |ts| == 0 then []
    else (if ts[0].kind.Error? then [ts[0]] else []) + Errors(ts[1..])
  }

  /** What the command writes: the tokens it prints, one per line as `Render`
      spells them, and the tokens it reports as unexpected characters. */
  datatype Report = Report(printed: seq<Token>, errors: seq<Token>)

  /** The loop itself: an `ERROR` token is reported and the loop goes on;
      any other token is printed, and `EOF` ends the loop after it is
      printed. */
  function Tokenize(l: Lexer): (rep: Report)
    requires l.Valid()
    ensures rep.printed == Printable(Scan(l)) && rep.errors == Errors(Scan(l))
    decreases |l.source| - l.current
  {
    var (t, r) := NextToken(l);
    NextTokenOutcome(l);
    if t.kind.Error? then
      var rest := Tokenize(r);
      Report(rest.printed, [t] + rest.errors)
    else if t.kind.Eof? then
      Report([t], [])
    else
      var rest := Tokenize(r);
      Report([t] + rest.printed, rest.errors)
  }

  /** The exit status: 65 after any lexical error, 0 otherwise. */
  function ExitCode(rep: Report): int {
    if |rep.errors| > 0 then 65 else 0
  }

  /** A token list that ends with its only `EOF` keeps that shape once its
      errors are dropped. */
  lemma {:induction false} PrintableEndsWithEof(ts: seq<Token>)
    requires |ts| > 0 && ts[|ts| - 1].kind.Eof?
    requires forall i :: 0 <= i < |ts| - 1 ==> !ts[i].kind.Eof?
    ensures var p := Printable(ts);
      && |p| > 0 && p[|p| - 1].kind.Eof?
      && (forall i :: 0 <= i < |p| - 1 ==> !p[i].kind.Eof?)
  {
    if |ts| > 1 {
      var t := ts[1..];
      assert forall i :: 0 <= i < |t| - 1 ==> t[i] == ts[i + 1];
      PrintableEndsWithEof(t);
    }
  }

  /** The printed tokens end with the one `EOF`, and none of them is an
      error. */
  lemma {:induction false} PrintedEndsWithEof(l: Lexer)
    requires l.Valid()
    ensures var p := Tokenize(l).printed;
      && |p| > 0 && p[|p| - 1].kind.Eof?
      && (forall i :: 0 <= i < |p| - 1 ==> !p[i].kind.Eof?)
      && (forall i :: 0 <= i < |p| ==> !p[i].kind.Error?)
  {
    PrintableEndsWithEof(Scan(l));
  }

  /** Nothing scanned is lost or invented: the printed and the reported
      tokens together are the scanned ones. */
  lemma {:induction false} SplitKeepsTokens(ts: seq<Token>)
    ensures multiset(Printable(ts)) + multiset(Errors(ts)) == multiset(ts)
  {
    if |ts| > 0 {
      SplitKeepsTokens(ts[1..]);
      assert ts == [ts[0]] + ts[1..];
    }
  }

  /** `Errors` has something exactly when some token is an `ERROR`. */
  lemma {:induction false} ErrorsNonEmpty(ts: seq<Token>)
    ensures |Errors(ts)| > 0 <==> exists i :: 0 <= i < |ts| && ts[i].kind.Error?
  {
    if |ts| > 0 {
      ErrorsNonEmpty(ts[1..]);
      if exists i :: 0 <= i < |ts| && ts[i].kind.Error? {
        var i :| 0 <= i < |ts| && ts[i].kind.Error?;
        if i > 0 {
          assert ts[1..][i - 1] == ts[i];
        }
      }
      if exists i :: 0 <= i < |ts| - 1 && ts[1..][i].kind.Error? {
        var i :| 0 <= i < |ts| - 1 && ts[1..][i].kind.Error?;
        assert ts[i + 1] == ts[1..][i];
      }
    }
  }

  /** The exit status is 65 exactly when some scanned token is an `ERROR`. */
  lemma {:induction false} ExitCodeMeansErrors(l: Lexer)
    requires l.Valid()
    ensures ExitCode(Tokenize(l)) == 65 ==> exists i :: 0 <= i < |Scan(l)| && Scan(l)[i].kind.Error?
    ensures forall i :: 0 <= i < |Scan(l)| && Scan(l)[i].kind.Error? ==> ExitCode(Tokenize(l)) == 65
    ensures ExitCode(Tokenize(l)) in {0, 65}
  {
    var ts := Scan(l);
    assert Tokenize(l).errors == Errors(ts);
    ErrorsNonEmpty(ts);
  }

  /** A source of only whitespace and line comments prints a lone `EOF`
      line and exits with status 0. */
  lemma {:induction false} BlankSourceTokenize(source: string)
    requires Blank(source)
    ensures var rep := Tokenize(New(source));
      && |rep.printed| == 1 && rep.printed[0].kind.Eof?
      && rep.printed[0].lexeme == "" && rep.printed[0].literal == ""
      && rep.errors == [] && ExitCode(rep) == 0
  {
    var l := New(source);
    assert l.source[l.current..] == source;
    BlankGivesEof(l);
  }
}
