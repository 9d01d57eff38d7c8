/**
 * What the scanner promises, proved of the functions in `ScannerSpec`:
 * line counting, the single closing `eof` token, the diagnostics it logs,
 * and the token each kind of input produces.
 */
module ScannerProperties {
  import opened Strings
  import opened Tokens
  import opened ScannerSpec

  // ---------------------------------------------------------------------
  // Counting newlines

  lemma NewlinesAppend(a: string, b: string)
    ensures Newlines(a + b) == Newlines(a) + Newlines(b)
  {
    assert multiset(a + b) == multiset(a) + multiset(b);
  }

  lemma NoNewlines(s: string)
    requires Newline !in s
    ensures Newlines(s) == 0
  {
    assert Newline !in multiset(s);
  }

  /** The first character counts as a line exactly when it is a newline. */
  lemma NewlinesFirst(s: string)
    requires s != []
    ensures Newlines(s) == (if s[0] == Newline then 1 else 0) + Newlines(s[1..])
  {
    assert s == [s[0]] + s[1..];
    NewlinesAppend([s[0]], s[1..]);
  }

  /** The newlines of `s` are those read before the suffix `r` and those in `r`. */
  lemma NewlinesSplit(s: string, r: string)
    requires IsSuffix(r, s)
    ensures Newlines(s) == Newlines(Consumed(s, r)) + Newlines(r)
  {
    assert s == Consumed(s, r) + r;
    NewlinesAppend(Consumed(s, r), r);
  }

  /** Reading `t` out of `s` and then `r` out of `t` reads `r` out of `s`, and counts their newlines together. */
  lemma ConsumedInSteps(s: string, t: string, r: string)
    requires IsSuffix(t, s) && IsSuffix(r, t)
    ensures IsSuffix(r, s)
    ensures Consumed(s, r) == Consumed(s, t) + Consumed(t, r)
    ensures Newlines(Consumed(s, r)) == Newlines(Consumed(s, t)) + Newlines(Consumed(t, r))
  {
    assert Consumed(s, r) == Consumed(s, t) + Consumed(t, r);
    NewlinesAppend(Consumed(s, t), Consumed(t, r));
  }

  // ---------------------------------------------------------------------
  // The line counter

  /** Reading one character counts one line exactly when it is a newline. */
  lemma FirstCharCounted(s: string)
    requires s != []
    ensures IsSuffix(s[1..], s)
    ensures Newlines(Consumed(s, s[1..])) == if s[0] == Newline then 1 else 0
  {
    assert Consumed(s, s[1..]) == [s[0]];
  }

  /** A comment runs up to the next newline and so holds none. */
  lemma CommentHasNoNewline(s: string)
    requires StartsComment(s)
    ensures IsSuffix(s[2 + IndexOf(s[2..], Newline)..], s)
    ensures Newlines(Consumed(s, s[2 + IndexOf(s[2..], Newline)..])) == 0
  {
    var j := IndexOf(s[2..], Newline);
    assert Consumed(s, s[2 + j..]) == ['/', '/'] + s[2..][..j];
    NoNewlines(Consumed(s, s[2 + j..]));
  }

  /** Skipping trivia raises the line by exactly the number of newlines it skipped. */
  lemma {:induction false} SkipTriviaCountsLines(s: string, line: int)
    ensures SkipTrivia(s, line).1 == line + Newlines(Consumed(s, SkipTrivia(s, line).0))
    decreases |s|
  {
    if s != [] && IsWhitespace(s[0]) {
      var next := if s[0] == Newline then line + 1 else line;
      var r := SkipTrivia(s[1..], next);
      assert SkipTrivia(s, line) == r;
      SkipTriviaCountsLines(s[1..], next);
      FirstCharCounted(s);
      ConsumedInSteps(s, s[1..], r.0);
    } else if StartsComment(s) {
      var u := s[2 + IndexOf(s[2..], Newline)..];
      var r := SkipTrivia(u, line);
      assert SkipTrivia(s, line) == r;
      SkipTriviaCountsLines(u, line);
      CommentHasNoNewline(s);
      ConsumedInSteps(s, u, r.0);
    } else {
      assert SkipTrivia(s, line) == (s, line);
      assert Consumed(s, s) == [];
    }
  }

  /** A string literal: its newlines are counted, whether or not it is closed. */
  lemma ReadStringCountsLines(u: string, line: int)
    ensures ReadString(u, line).Emit? ==>
      ReadString(u, line).line == line + Newlines(Consumed(u, ReadString(u, line).rest))
    ensures ReadString(u, line).Stop? ==> ReadString(u, line).line == line + Newlines(u)
  {
    var i := IndexOf(u, Quote);
    if i < |u| {
      assert Consumed(u, u[i + 1..]) == u[..i] + [Quote];
      NewlinesAppend(u[..i], [Quote]);
    } else {
      assert u[..i] == u;
    }
  }

  /** An operator token: one or two characters, none of them a newline, read on the current line. */
  lemma OperatorCountsLines(t: string, line: int)
    requires t != [] && (IsSimpleOperator(t[0]) || IsCompoundOperator(t[0]))
    ensures TokenAt(t, line).Emit? && TokenAt(t, line).line == line
    ensures Newlines(Consumed(t, TokenAt(t, line).rest)) == 0
  {
    var r := TokenAt(t, line);
    if |r.rest| == |t| - 1 {
      assert Consumed(t, r.rest) == [t[0]];
    } else {
      assert Consumed(t, r.rest) == [t[0], '='];
    }
    NoNewlines(Consumed(t, r.rest));
  }

  /** Digits and dots hold no newline. */
  lemma NumberLexemeHasNoNewline(x: string)
    requires IsNumberLexeme(x)
    ensures Newlines(x) == 0
  {
    assert Newline !in x;
    NoNewlines(x);
  }

  /** The number token at the head of the input. */
  lemma NumberTokenAt(t: string, line: int)
    requires t != [] && IsDigit(t[0])
    ensures TokenAt(t, line) ==
      Emit(Token(kind := Number, lexeme := t[..NumberLength(t)], line := line, literal := Num(t[..NumberLength(t)])),
           t[NumberLength(t)..], line, [])
  {
  }

  /** A number token: digits and a dot, read on the current line. */
  lemma NumberCountsLines(t: string, line: int)
    requires t != [] && IsDigit(t[0])
    ensures TokenAt(t, line).Emit? && TokenAt(t, line).line == line
    ensures Newlines(Consumed(t, TokenAt(t, line).rest)) == 0
  {
    var n := NumberLength(t);
    NumberTokenAt(t, line);
    assert Newlines(t[..n]) == 0 by {
      NumberLengthIsMaximal(t);
      NumberLexemeHasNoNewline(t[..n]);
    }
    assert Consumed(t, t[n..]) == t[..n];
  }

  /** Reading a recognised token raises the line by exactly the newlines in its lexeme. */
  lemma TokenAtCountsLines(t: string, line: int)
    requires t != [] && StartsToken(t[0])
    ensures TokenAt(t, line).Emit? ==>
      TokenAt(t, line).line == line + Newlines(Consumed(t, TokenAt(t, line).rest))
    ensures TokenAt(t, line).Stop? ==> TokenAt(t, line).line == line + Newlines(t)
  {
    var c := t[0];
    if IsSimpleOperator(c) || IsCompoundOperator(c) {
      OperatorCountsLines(t, line);
    } else if c == Quote {
      var r := ReadString(t[1..], line);
      assert TokenAt(t, line) == r;
      ReadStringCountsLines(t[1..], line);
      assert Consumed(t, t[1..]) == [Quote];
      StepCountsLines(t, t[1..], line, line, r);
    } else {
      NumberCountsLines(t, line);
    }
  }

  /**
   * Line counts compose: if reading from `s` to `t` counted the newlines in
   * between, and a step taken from `t` counts its own, then the step counts
   * every newline read from `s`.
   */
  lemma StepCountsLines(s: string, t: string, line: int, ln: int, r: Step)
    requires IsSuffix(t, s) && ln == line + Newlines(Consumed(s, t))
    requires r.Emit? ==> IsSuffix(r.rest, t) && r.line == ln + Newlines(Consumed(t, r.rest))
    requires r.Stop? ==> r.line == ln + Newlines(t)
    ensures r.Emit? ==> IsSuffix(r.rest, s) && r.line == line + Newlines(Consumed(s, r.rest))
    ensures r.Stop? ==> r.line == line + Newlines(s)
  {
    if r.Emit? {
      ConsumedInSteps(s, t, r.rest);
    } else {
      NewlinesSplit(s, t);
    }
  }

  /**
   * Reading one token raises the line by exactly the newlines consumed: in
   * whitespace, in a string literal, and nowhere else. When the stream runs
   * out, every newline left has been counted.
   */
  lemma {:induction false} NextTokenCountsLines(s: string, line: int)
    ensures NextToken(s, line).Emit? ==>
      NextToken(s, line).line == line + Newlines(Consumed(s, NextToken(s, line).rest))
    ensures NextToken(s, line).Stop? ==> NextToken(s, line).line == line + Newlines(s)
    decreases |s|
  {
    var skipped := SkipTrivia(s, line);
    var t, ln := skipped.0, skipped.1;
    SkipTriviaCountsLines(s, line);
    if t == [] {
      assert Consumed(s, t) == s;
    } else if StartsToken(t[0]) {
      TokenAtCountsLines(t, ln);
      StepCountsLines(s, t, line, ln, TokenAt(t, ln));
    } else {
      var r := NextToken(t[1..], ln);
      NextTokenCountsLines(t[1..], ln);
      assert Consumed(t, t[1..]) == [t[0]];
      StepCountsLines(t, t[1..], ln, ln, r);
      StepCountsLines(s, t, line, ln, Logged([Entry(ln, UnexpectedCharacter)], r));
    }
  }

  /** No token's line is below `line`. */
  predicate LinesFrom(ts: seq<Token>, line: int)
  {
    forall i :: 0 <= i < |ts| ==> line <= ts[i].line
  }

  /** Lines never decrease along the sequence. */
  predicate LinesOrdered(ts: seq<Token>)
  {
    forall i, j :: 0 <= i <= j < |ts| ==> ts[i].line <= ts[j].line
  }

  lemma PrependLines(t: Token, more: seq<Token>, line: int)
    requires line <= t.line && LinesFrom(more, t.line) && LinesOrdered(more) && more != []
    ensures LinesFrom([t] + more, line) && LinesOrdered([t] + more)
    ensures ([t] + more)[|more|] == more[|more| - 1]
  {
    var ts := [t] + more;
    forall i, j | 0 <= i <= j < |ts|
      ensures ts[i].line <= ts[j].line
    {
      if i > 0 {
        assert ts[i] == more[i - 1] && ts[j] == more[j - 1];
      } else if j > 0 {
        assert ts[j] == more[j - 1];
      }
    }
    forall i | 0 <= i < |ts|
      ensures line <= ts[i].line
    {
      if i > 0 {
        assert ts[i] == more[i - 1];
      }
    }
  }

  /**
   * Token lines never fall below the starting line and never decrease along
   * the sequence; the closing `eof` token carries the starting line plus
   * the number of newlines in the whole input.
   */
  lemma {:induction false} ScanLines(s: string, line: int)
    ensures LinesFrom(Scan(s, line).tokens, line) && LinesOrdered(Scan(s, line).tokens)
    ensures Scan(s, line).tokens[|Scan(s, line).tokens| - 1].line == line + Newlines(s)
    decreases |s|
  {
    var r := NextToken(s, line);
    NextTokenCountsLines(s, line);
    if r.Emit? {
      var more := Scan(r.rest, r.line).tokens;
      assert Scan(s, line).tokens == [r.token] + more;
      ScanLines(r.rest, r.line);
      NewlinesSplit(s, r.rest);
      PrependLines(r.token, more, line);
    } else {
      assert Scan(s, line).tokens == [Token(kind := Eof, lexeme := "", line := r.line)];
    }
  }

  /** Every token of a whole source text has a line number of at least 1. */
  lemma TokenizeLinesArePositive(source: string)
    ensures forall t :: t in Tokenize(source).tokens ==> t.line >= 1
  {
    ScanLines(source, 1);
  }

  // ---------------------------------------------------------------------
  // The end of the token sequence

  /** `eof` appears exactly once, as the last token. */
  lemma {:induction false} EofOnlyAtEnd(s: string, line: int)
    ensures forall i :: 0 <= i < |Scan(s, line).tokens| ==>
      (Scan(s, line).tokens[i].kind == Eof <==> i == |Scan(s, line).tokens| - 1)
    decreases |s|
  {
    var r := NextToken(s, line);
    if r.Emit? {
      EofOnlyAtEnd(r.rest, r.line);
      var more := Scan(r.rest, r.line).tokens;
      var ts := Scan(s, line).tokens;
      assert ts == [r.token] + more;
      forall i | 0 <= i < |ts|
        ensures ts[i].kind == Eof <==> i == |ts| - 1
      {
        if i > 0 {
          assert ts[i] == more[i - 1];
        } else {
          assert ts[i] == r.token;
        }
      }
    }
  }

  // ---------------------------------------------------------------------
  // Diagnostics

  predicate AllUnexpected(log: Log)
  {
    forall i :: 0 <= i < |log| ==> log[i].message == UnexpectedCharacter
  }

  /** Every entry reports an unexpected character, except that an unterminated string may close the log. */
  predicate OnlyLastUnterminated(log: Log)
  {
    forall i :: 0 <= i < |log| ==>
      log[i].message == UnexpectedCharacter || (i == |log| - 1 && log[i].message == UnterminatedString)
  }

  /** Unexpected-character reports placed before a log keep either property of it. */
  lemma UnexpectedThenLog(a: Log, b: Log)
    requires AllUnexpected(a)
    ensures AllUnexpected(b) ==> AllUnexpected(a + b)
    ensures OnlyLastUnterminated(b) ==> OnlyLastUnterminated(a + b)
  {
    forall i | |a| <= i < |a + b|
      ensures (a + b)[i] == b[i - |a|]
    {
    }
  }

  /**
   * Reading a token logs only unexpected characters; the one other
   * diagnostic, an unterminated string, comes last and stops scanning.
   */
  lemma {:induction false} NextTokenLog(s: string, line: int)
    ensures NextToken(s, line).Emit? ==> AllUnexpected(NextToken(s, line).log)
    ensures NextToken(s, line).Stop? ==> OnlyLastUnterminated(NextToken(s, line).log)
    decreases |s|
  {
    var skipped := SkipTrivia(s, line);
    var t, ln := skipped.0, skipped.1;
    if t != [] && !StartsToken(t[0]) {
      NextTokenLog(t[1..], ln);
      var inner := NextToken(t[1..], ln);
      assert NextToken(s, line) == Logged([Entry(ln, UnexpectedCharacter)], inner);
      UnexpectedThenLog([Entry(ln, UnexpectedCharacter)], inner.log);
    }
  }

  /** The logger receives only the two messages, and an unterminated string is always the last report. */
  lemma {:induction false} ScanLog(s: string, line: int)
    ensures OnlyLastUnterminated(Scan(s, line).log)
    decreases |s|
  {
    var r := NextToken(s, line);
    NextTokenLog(s, line);
    if r.Emit? {
      ScanLog(r.rest, r.line);
      assert Scan(s, line).log == r.log + Scan(r.rest, r.line).log;
      UnexpectedThenLog(r.log, Scan(r.rest, r.line).log);
    } else {
      assert Scan(s, line).log == r.log;
    }
  }

  // ---------------------------------------------------------------------
  // Reading one token

  /** The three ways reading a token goes, once trivia is skipped. */
  lemma NextTokenCases(s: string, line: int)
    ensures SkipTrivia(s, line).0 == [] ==> NextToken(s, line) == Stop(SkipTrivia(s, line).1, [])
    ensures SkipTrivia(s, line).0 != [] && StartsToken(SkipTrivia(s, line).0[0]) ==>
      NextToken(s, line) == TokenAt(SkipTrivia(s, line).0, SkipTrivia(s, line).1)
    ensures SkipTrivia(s, line).0 != [] && !StartsToken(SkipTrivia(s, line).0[0]) ==>
      NextToken(s, line) == Logged([Entry(SkipTrivia(s, line).1, UnexpectedCharacter)], NextToken(SkipTrivia(s, line).0[1..], SkipTrivia(s, line).1))
  {
  }

  /** Input that starts with a token character has no trivia to skip, and the token is read at once. */
  lemma TokenAtOnce(s: string, line: int)
    requires s != [] && StartsToken(s[0]) && !StartsComment(s)
    ensures SkipTrivia(s, line) == (s, line)
    ensures NextToken(s, line) == TokenAt(s, line)
  {
    assert !IsWhitespace(s[0]);
    NextTokenCases(s, line);
  }

  // ---------------------------------------------------------------------
  // Whitespace and comments

  /** Whitespace alone is skipped entirely, one line per newline. */
  lemma {:induction false} SkipWhitespace(s: string, line: int)
    requires forall i :: 0 <= i < |s| ==> IsWhitespace(s[i])
    ensures SkipTrivia(s, line) == ([], line + Newlines(s))
    decreases |s|
  {
    if s != [] {
      SkipWhitespace(s[1..], if s[0] == Newline then line + 1 else line);
      NewlinesFirst(s);
    }
  }

  /** Whitespace before any other text is skipped, one line per newline, and skipping goes on from that text. */
  lemma {:induction false} WhitespacePrefix(w: string, rest: string, line: int)
    requires forall i :: 0 <= i < |w| ==> IsWhitespace(w[i])
    ensures SkipTrivia(w + rest, line) == SkipTrivia(rest, line + Newlines(w))
    decreases |w|
  {
    if w != [] {
      var s := w + rest;
      assert s[0] == w[0] && s[1..] == w[1..] + rest;
      WhitespacePrefix(w[1..], rest, if w[0] == Newline then line + 1 else line);
      NewlinesFirst(w);
    } else {
      assert w + rest == rest;
    }
  }

  /** The token read after leading whitespace is the one read from the text that follows it, on the line the newlines reach. */
  lemma WhitespaceThenToken(w: string, rest: string, line: int)
    requires forall i :: 0 <= i < |w| ==> IsWhitespace(w[i])
    ensures NextToken(w + rest, line) == NextToken(rest, line + Newlines(w))
  {
    WhitespacePrefix(w, rest, line);
    NextTokenCases(w + rest, line);
    NextTokenCases(rest, line + Newlines(w));
  }

  /** Input made only of whitespace scans to a single `eof` token on the line after its last newline. */
  lemma WhitespaceOnlyScan(s: string, line: int)
    requires forall i :: 0 <= i < |s| ==> IsWhitespace(s[i])
    ensures Scan(s, line) == Scanned([Token(kind := Eof, lexeme := "", line := line + Newlines(s))], [])
  {
    SkipWhitespace(s, line);
    NextTokenCases(s, line);
    var r := NextToken(s, line);
    ScanStops(s, line, r.line, r.log);
  }

  /** A comment is skipped up to, but not including, the newline that ends it. */
  lemma CommentSkipped(comment: string, rest: string, line: int)
    requires Newline !in comment
    requires rest == [] || rest[0] == Newline
    ensures SkipTrivia("//" + comment + rest, line) == SkipTrivia(rest, line)
  {
    var s := "//" + comment + rest;
    assert StartsComment(s) && s[2..] == comment + rest;
    assert IndexOf(s[2..], Newline) == |comment| by {
      if rest == [] {
        assert comment + rest == comment;
        IndexOfAbsent(comment, Newline);
      } else {
        IndexOfAfterPrefix(comment, Newline, rest[1..]);
        assert comment + rest == comment + [Newline] + rest[1..];
      }
    }
    assert s[2 + |comment|..] == rest;
    assert SkipTrivia(s, line) == SkipTrivia(s[2 + IndexOf(s[2..], Newline)..], line);
  }

  /** A comment with nothing after it scans to `eof` alone, without diagnostics. */
  lemma CommentOnlyScan(comment: string, line: int)
    requires Newline !in comment
    ensures Scan("//" + comment, line) == Scanned([Token(kind := Eof, lexeme := "", line := line)], [])
  {
    var s := "//" + comment;
    assert "//" + comment + [] == s;
    CommentSkipped(comment, [], line);
    NextTokenCases(s, line);
    var r := NextToken(s, line);
    ScanStops(s, line, r.line, r.log);
  }

  // ---------------------------------------------------------------------
  // The token each character class produces

  /** A one-character operator (that does not open a comment) is a token of its mapped type with itself as lexeme. */
  lemma SimpleOperatorScan(c: char, rest: string, line: int)
    requires IsSimpleOperator(c) && !StartsComment([c] + rest)
    ensures NextToken([c] + rest, line) == Emit(Token(kind := SimpleOperatorType(c), lexeme := [c], line := line), rest, line, [])
  {
    assert ([c] + rest)[1..] == rest;
  }

  /**
   * `! = < >` take a following `=` into an `_equal` token; otherwise, and at
   * the end of the input, they stand alone.
   */
  lemma CompoundOperatorScan(c: char, rest: string, line: int)
    requires IsCompoundOperator(c)
    ensures rest != [] && rest[0] == '=' ==>
      NextToken([c] + rest, line) ==
        Emit(Token(kind := WithEqual(CompoundOperatorType(c)), lexeme := [c, '='], line := line), rest[1..], line, [])
    ensures rest == [] || rest[0] != '=' ==>
      NextToken([c] + rest, line) == Emit(Token(kind := CompoundOperatorType(c), lexeme := [c], line := line), rest, line, [])
  {
    var s := [c] + rest;
    assert s[0] == c && !IsSimpleOperator(c) && !StartsComment(s);
    TokenAtOnce(s, line);
    if rest != [] && rest[0] == '=' {
      assert s[2..] == rest[1..];
    } else {
      assert s[1..] == rest;
    }
  }

  lemma SplitAround(a: string, c: char, b: string)
    ensures (a + [c] + b)[..|a|] == a && (a + [c] + b)[|a| + 1..] == b
  {
    assert (a + [c] + b)[..|a|] == a;
    assert (a + [c] + b)[|a| + 1..] == b;
  }

  /**
   * A closed string literal: the lexeme runs from quote to quote, the literal
   * is the contents between them, and the line is the one on which the
   * closing quote stands.
   */
  lemma ReadClosedString(body: string, rest: string, line: int)
    requires Quote !in body
    ensures ReadString(body + [Quote] + rest, line) ==
      Emit(Token(kind := String, lexeme := [Quote] + body + [Quote], line := line + Newlines(body), literal := Str(body)),
           rest, line + Newlines(body), [])
  {
    IndexOfAfterPrefix(body, Quote, rest);
    SplitAround(body, Quote, rest);
  }

  /** A string whose contents run to the end of the input stops, logging the error on the last line. */
  lemma ReadUnclosedString(body: string, line: int)
    requires IndexOf(body, Quote) == |body|
    ensures ReadString(body, line) == Stop(line + Newlines(body), [Entry(line + Newlines(body), UnterminatedString)])
  {
  }

  /** The same closed string at the head of the input, where no trivia precedes it. */
  lemma TerminatedStringScan(body: string, rest: string, line: int)
    requires Quote !in body
    ensures NextToken([Quote] + body + [Quote] + rest, line) ==
      Emit(Token(kind := String, lexeme := [Quote] + body + [Quote], line := line + Newlines(body), literal := Str(body)),
           rest, line + Newlines(body), [])
    ensures ([Quote] + body + [Quote])[1..|body| + 1] == body
  {
    var s := [Quote] + body + [Quote] + rest;
    assert s[0] == Quote && s[1..] == body + [Quote] + rest;
    TokenAtOnce(s, line);
    ReadClosedString(body, rest, line);
    assert ([Quote] + body + [Quote])[1..|body| + 1] == body;
  }

  /** An unterminated string logs one error on the line where the input ends, and only `eof` follows. */
  lemma UnterminatedStringNext(body: string, line: int)
    requires Quote !in body
    ensures NextToken([Quote] + body, line) ==
      Stop(line + Newlines(body), [Entry(line + Newlines(body), UnterminatedString)])
  {
    var s := [Quote] + body;
    assert s[0] == Quote && s[1..] == body;
    TokenAtOnce(s, line);
    IndexOfAbsent(body, Quote);
    ReadUnclosedString(body, line);
  }

  /** Over the whole scan: `eof` alone, on the last line, after the one error. */
  lemma UnterminatedStringScan(body: string, line: int)
    requires Quote !in body
    ensures Scan([Quote] + body, line) ==
      Scanned([Token(kind := Eof, lexeme := "", line := line + Newlines(body))], [Entry(line + Newlines(body), UnterminatedString)])
  {
    var r := NextToken([Quote] + body, line);
    UnterminatedStringNext(body, line);
    ScanStops([Quote] + body, line, r.line, r.log);
  }

  /**
   * The number lexeme is the longest number at the start of the input: a
   * digit run, then a dot and a second digit run only when a digit follows
   * the dot, so it never ends in a dot.
   */
  lemma NumberLengthIsMaximal(t: string)
    requires t != [] && IsDigit(t[0])
    ensures IsMaximalNumber(t, NumberLength(t))
  {
    var w := DigitRun(t);
    var n := NumberLength(t);
    if w + 1 < |t| && t[w] == '.' && IsDigit(t[w + 1]) {
      var f := DigitRun(t[w + 1..]);
      assert t[..n] == t[..w] + ['.'] + t[w + 1..][..f];
      assert t[..n][w] == '.';
    } else {
      assert '.' !in t[..w];
    }
  }

  /** A number token carries the number lexeme at the start of the input as both its lexeme and its literal. */
  lemma NumberScan(t: string, line: int)
    requires t != [] && IsDigit(t[0])
    ensures NextToken(t, line) ==
      Emit(Token(kind := Number, lexeme := t[..NumberLength(t)], line := line, literal := Num(t[..NumberLength(t)])),
           t[NumberLength(t)..], line, [])
  {
    assert !IsSimpleOperator(t[0]) && !IsCompoundOperator(t[0]) && t[0] != Quote;
    TokenAtOnce(t, line);
    NumberTokenAt(t, line);
  }

  /** Digits followed by a non-digit, or by nothing, are the whole digit run. */
  lemma {:induction false} DigitRunOfPrefix(s: string, digits: string, rest: string)
    requires s == digits + rest && AllDigits(digits)
    requires rest == [] || !IsDigit(rest[0])
    ensures DigitRun(s) == |digits|
  {
    if digits != [] {
      assert s[1..] == digits[1..] + rest;
      DigitRunOfPrefix(s[1..], digits[1..], rest);
    } else {
      assert s == rest;
    }
  }

  /** A maximal number without a dot is the whole digit run. */
  lemma WholeNumberLength(t: string, m: nat)
    requires t != [] && IsDigit(t[0])
    requires IsMaximalNumber(t, m) && '.' !in t[..m]
    ensures m == NumberLength(t)
  {
    var x := t[..m];
    assert AllDigits(x) by {
      forall k | 0 <= k < m ensures IsDigit(x[k]) {
        assert x[k] in x;
      }
    }
    assert t == x + t[m..];
    DigitRunOfPrefix(t, x, t[m..]);
    if m + 1 < |t| && t[m] == '.' {
      assert !IsDigit(t[m + 1]);
    }
  }

  /** A maximal number with a dot at `p` is the digit run before `p`, the dot and the digit run after it. */
  lemma FractionNumberLength(t: string, m: nat, p: nat)
    requires t != [] && IsDigit(t[0])
    requires IsMaximalNumber(t, m) && p < m && t[p] == '.'
    ensures m == NumberLength(t)
  {
    var x := t[..m];
    assert x[p] == '.';
    assert AllDigits(t[..p]) by {
      forall k | 0 <= k < p ensures IsDigit(t[..p][k]) {
        assert t[..p][k] == x[k] && x[k] != '.';
      }
    }
    assert p + 1 < m by {
      assert IsDigit(x[m - 1]);
    }
    var u := t[p + 1..];
    var f := u[..m - p - 1];
    assert AllDigits(f) by {
      forall k | 0 <= k < |f| ensures IsDigit(f[k]) {
        assert f[k] == x[p + 1 + k] && x[p + 1 + k] != '.';
      }
    }
    assert t == t[..p] + t[p..];
    DigitRunOfPrefix(t, t[..p], t[p..]);
    assert u == f + t[m..];
    DigitRunOfPrefix(u, f, t[m..]);
    assert t[p..][1..] == u;
  }

  /** The number lexeme is the only maximal number at the start of the input. */
  lemma NumberLengthUnique(t: string, m: nat)
    requires t != [] && IsDigit(t[0])
    requires IsMaximalNumber(t, m)
    ensures m == NumberLength(t)
  {
    if '.' in t[..m] {
      var p :| 0 <= p < m && t[..m][p] == '.';
      FractionNumberLength(t, m, p);
    } else {
      WholeNumberLength(t, m);
    }
  }

  /**
   * Any other character is dropped with one `Unexpected character` report on
   * the current line, and scanning carries on with the next character.
   */
  lemma UnexpectedCharacterNext(c: char, rest: string, line: int)
    requires !IsWhitespace(c) && !StartsToken(c)
    ensures NextToken([c] + rest, line) == Logged([Entry(line, UnexpectedCharacter)], NextToken(rest, line))
  {
    var s := [c] + rest;
    assert s[0] == c && s[1..] == rest && !StartsComment(s);
    NextTokenCases(s, line);
  }

  /** Concatenation regroups freely. */
  lemma SeqAssociates<T>(a: seq<T>, b: seq<T>, c: seq<T>)
    ensures (a + b) + c == a + (b + c)
  {
  }

  /** Over the whole scan, the character only adds its report ahead of the rest's diagnostics. */
  lemma UnexpectedCharacterScan(c: char, rest: string, line: int)
    requires !IsWhitespace(c) && !StartsToken(c)
    ensures Scan([c] + rest, line) == Scanned(Scan(rest, line).tokens, [Entry(line, UnexpectedCharacter)] + Scan(rest, line).log)
  {
    UnexpectedCharacterNext(c, rest, line);
    var entry := Entry(line, UnexpectedCharacter);
    var r := NextToken(rest, line);
    if r.Emit? {
      ScanEmits(rest, line, r.token, r.rest, r.line, r.log);
      ScanEmits([c] + rest, line, r.token, r.rest, r.line, [entry] + r.log);
      SeqAssociates([entry], r.log, Scan(r.rest, r.line).log);
    } else {
      ScanStops(rest, line, r.line, r.log);
      ScanStops([c] + rest, line, r.line, [entry] + r.log);
    }
  }

  // ---------------------------------------------------------------------
  // Whole inputs

  /** Each token read is emitted, with its diagnostics, ahead of whatever the rest scans to. */
  lemma ScanEmits(s: string, line: int, t: Token, rest: string, ln: int, log: Log)
    requires NextToken(s, line) == Emit(t, rest, ln, log)
    ensures Scan(s, line) == Scanned([t] + Scan(rest, ln).tokens, log + Scan(rest, ln).log)
  {
  }

  /** When the stream stops, `eof` on the line reached closes the sequence. */
  lemma ScanStops(s: string, line: int, ln: int, log: Log)
    requires NextToken(s, line) == Stop(ln, log)
    ensures Scan(s, line) == Scanned([Token(kind := Eof, lexeme := "", line := ln)], log)
  {
  }

  /** An empty input scans to `eof` alone, on the starting line. */
  lemma EmptyScan(line: int)
    ensures Scan([], line) == Scanned([Token(kind := Eof, lexeme := "", line := line)], [])
  {
    ScanStops([], line, line, []);
  }

  /** An operator that stands alone in the input is a token, and `eof` follows it on the same line. */
  lemma LoneOperatorScan(c: char, line: int)
    requires IsSimpleOperator(c)
    ensures Scan([c], line) ==
      Scanned([Token(kind := SimpleOperatorType(c), lexeme := [c], line := line), Token(kind := Eof, lexeme := "", line := line)], [])
  {
    SimpleOperatorScan(c, [], line);
    assert [c] + [] == [c];
    ScanEmits([c], line, Token(kind := SimpleOperatorType(c), lexeme := [c], line := line), [], line, []);
    EmptyScan(line);
  }

  /** A lone trailing slash is a slash token: the failed second peek only ends the skipping of trivia. */
  lemma LoneSlash(line: int)
    ensures Scan("/", line) == Scanned([Token(kind := Slash, lexeme := "/", line := line), Token(kind := Eof, lexeme := "", line := line)], [])
  {
    LoneOperatorScan('/', line);
  }

  /**
   * Digits followed by an operator character end at that character; in
   * particular a dot that no digit follows is not part of the number.
   */
  lemma NumberBeforeOperator(digits: string, c: char, line: int)
    requires digits != [] && AllDigits(digits) && IsSimpleOperator(c)
    ensures NextToken(digits + [c], line) ==
      Emit(Token(kind := Number, lexeme := digits, line := line, literal := Num(digits)), [c], line, [])
  {
    var s := digits + [c];
    assert s[0] == digits[0];
    assert s[..|digits|] == digits && s[|digits|..] == [c];
    assert IsMaximalNumber(s, |digits|);
    NumberLengthUnique(s, |digits|);
    NumberScan(s, line);
  }

  /** Digits then an operator scan to a number token, the operator's token and `eof`, all on one line. */
  lemma NumberThenOperator(digits: string, c: char, line: int)
    requires digits != [] && AllDigits(digits) && IsSimpleOperator(c)
    ensures Scan(digits + [c], line) == Scanned(
      [Token(kind := Number, lexeme := digits, line := line, literal := Num(digits)),
       Token(kind := SimpleOperatorType(c), lexeme := [c], line := line),
       Token(kind := Eof, lexeme := "", line := line)], [])
  {
    var number := Token(kind := Number, lexeme := digits, line := line, literal := Num(digits));
    var operator := Token(kind := SimpleOperatorType(c), lexeme := [c], line := line);
    var eof := Token(kind := Eof, lexeme := "", line := line);
    NumberBeforeOperator(digits, c, line);
    ScanEmits(digits + [c], line, number, [c], line, []);
    LoneOperatorScan(c, line);
    assert [number] + [operator, eof] == [number, operator, eof];
  }
}
