/**
 How skipping whitespace moves the scanner's line and column counters. (The
 counters across string literals and line comments are stated in `ScanSteps`.)
 */
module Counters {
  import opened Tokens
  import opened Scanner

  /** A non-empty slice is its first character followed by the rest. */
  lemma SliceCons(s: string, i: nat, j: nat)
    requires i < j <= |s|
    ensures s[i..j] == [s[i]] + s[i + 1 .. j]
  {
  }

  /** The number of newlines in `s`. */
  function Newlines(s: string): nat {
    if |s| == 0 then 0 else (if s[0] == '\n' then 1 else 0) + Newlines(s[1..])
  }

  /** The number of characters after the last newline of `s` (all of them
      when `s` has none). */
  function TrailingRun(s: string): nat {
    if |s| == 0 || s[|s| - 1] == '\n' then 0 else 1 + TrailingRun(s[..|s| - 1])
  }

  /** The column reached by skipping the whitespace `s` from column `col`:
      after a newline the column is 2, and every later character adds one. */
  function ColumnAfterBlank(col: u32, s: string): u32 {
    if '\n' in s then Wrap(2 + TrailingRun(s)) else Wrap(col + |s|)
  }

  lemma {:induction false} TrailingRunCons(c: char, t: string)
    ensures TrailingRun([c] + t) == if '\n' in t then TrailingRun(t) else if c == '\n' then |t| else |t| + 1
    decreases |t|
  {
    if |t| == 0 {
      assert [c] + t == [c];
    } else {
      var t' := t[..|t| - 1];
      var d := t[|t| - 1];
      assert t == t' + [d];
      assert ([c] + t)[..|t|] == [c] + t';
      TrailingRunCons(c, t');
      assert '\n' in t <==> '\n' in t' || d == '\n';
    }
  }

  lemma {:induction false} NewlinesCons(c: char, t: string)
    ensures Newlines([c] + t) == (if c == '\n' then 1 else 0) + Newlines(t)
  {
    assert ([c] + t)[1..] == t;
  }

  /** Skipping the whitespace `s` takes the counters from `line` and `col`
      to `line'` and `col'`: each newline adds a line, and the column is as
      `ColumnAfterBlank` says. */
  predicate BlankMoves(line: u32, col: u32, s: string, line': u32, col': u32) {
    line' == Wrap(line + Newlines(s)) && col' == ColumnAfterBlank(col, s)
  }

  /** Skipping whitespace moves the counters as `BlankMoves` says. */
  lemma {:induction false} SkipWhitespacePosition(l: Lexer)
    requires l.Valid()
    ensures var r := SkipWhitespace(l);
      BlankMoves(l.line, l.column, l.source[l.current .. r.current], r.line, r.column)
    decreases |l.source| - l.current
  {
    var r := SkipWhitespace(l);
    if IsWhitespace(Peek(l)) {
      var c := l.source[l.current];
      var l1 := if c == '\n' then ResetCursor(l) else l;
      var l2 := Advance(l1).1;
      SkipWhitespacePosition(l2);
      assert r == SkipWhitespace(l2);
      var s' := l.source[l2.current .. r.current];
      SliceCons(l.source, l.current, r.current);
      if c == '\n' {
        NewlineStep(l.line, l.column, s', r.line, r.column);
      } else {
        BlankStep(c, l.line, l.column, s', r.line, r.column);
      }
    } else {
      assert l.source[l.current .. r.current] == [];
      WrapSmall(l.line);
      WrapSmall(l.column);
    }
  }

  /** A newline in front of `s`: the counters restart at the next line and
      column 2. */
  lemma {:induction false} NewlineStep(line: u32, col: u32, s: string, line': u32, col': u32)
    requires BlankMoves(Inc(line), 2, s, line', col')
    ensures BlankMoves(line, col, ['\n'] + s, line', col')
  {
    NewlinesCons('\n', s);
    TrailingRunCons('\n', s);
    WrapInc(line, Newlines(s), Newlines(['\n'] + s));
  }

  /** A space, tab or carriage return in front of `s`: one more column. */
  lemma {:induction false} BlankStep(c: char, line: u32, col: u32, s: string, line': u32, col': u32)
    requires c != '\n'
    requires BlankMoves(line, Inc(col), s, line', col')
    ensures BlankMoves(line, col, [c] + s, line', col')
  {
    NewlinesCons(c, s);
    TrailingRunCons(c, s);
    WrapInc(col, |s|, |[c] + s|);
  }
}
