/**
 * The scanner itself: an object that reads characters from a lookahead
 * iterator, keeps the current line, and reports diagnostics to a logger.
 * The methods that read a token or skip trivia are proved to take exactly
 * the step a function of `ScannerSpec` describes, and `EachToken` to produce
 * `Scan`, so everything proved there holds of the scanner; the
 * character-level methods state their effect on the stream directly.
 */
module Scanning {
  import opened Strings
  import opened Tokens
  import opened Lookahead
  import opened ScannerSpec
  import opened ScannerProperties

  /**
   * The scanner's state after reading agrees with a step of the
   * specification: the token it returns (or the end of input), the
   * characters left, the line and the diagnostics added to the log.
   */
  predicate Follows(step: Step, r: Fetched<Token>, stream: string, line: int, log: Log, log0: Log)
  {
    && line == step.line
    && log == log0 + step.log
    && (step.Emit? ==> r == Ok(step.token) && stream == step.rest)
    && (step.Stop? ==> r == Exhausted && stream == [])
  }

  class Scanner {
    /** The source text's characters, read through a lookahead iterator. */
    const characters: LookaheadIterator<char>
    /** The line of the next unread character. */
    var line: int
    /** The (line, message) pairs sent to the logger so far. */
    var log: Log

    constructor (source: string)
      ensures characters.Stream() == source && line == 1 && log == []
      ensures fresh(characters)
    {
      characters := new LookaheadIterator(source);
      line := 1;
      log := [];
    }

    /**
     * Every token of the input in order, then `eof` on the line where the
     * input ends. The whole input is consumed.
     */
    method EachToken() returns (tokens: seq<Token>)
      modifies this, characters
      ensures tokens == Scan(old(characters.Stream()), old(line)).tokens
      ensures log == old(log) + Scan(old(characters.Stream()), old(line)).log
      ensures characters.Stream() == [] && line == old(line) + Newlines(old(characters.Stream()))
    {
      ghost var s0, l0 := characters.Stream(), line;
      tokens := [];
      while true
        invariant tokens + Scan(characters.Stream(), line).tokens == Scan(s0, l0).tokens
        invariant log + Scan(characters.Stream(), line).log == old(log) + Scan(s0, l0).log
        decreases |characters.Stream()|
      {
        ghost var s, ln, log1 := characters.Stream(), line, log;
        var r := ReadToken();
        ghost var step := NextToken(s, ln);
        if r.Exhausted? {
          ScanStops(s, ln, step.line, step.log);
          break;
        }
        ScanEmits(s, ln, step.token, step.rest, step.line, step.log);
        SeqAssociates(tokens, [r.value], Scan(step.rest, step.line).tokens);
        SeqAssociates(log1, step.log, Scan(step.rest, step.line).log);
        tokens := tokens + [r.value];
      }
      tokens := tokens + [Token(kind := Eof, lexeme := "", line := line)];
      ScanLines(s0, l0);
    }

    /**
     * Reads one token: skips trivia, then dispatches on the next character.
     * An unexpected character is consumed and logged and reading starts
     * again; the end of input before a token yields `Exhausted`.
     */
    method ReadToken() returns (r: Fetched<Token>)
      modifies this, characters
      ensures Follows(NextToken(old(characters.Stream()), old(line)), r, characters.Stream(), line, log, old(log))
      decreases |characters.Stream()|
    {
      ghost var s0, l0, log0 := characters.Stream(), line, log;
      SkipWhitespaceAndComments();
      ghost var t := characters.Stream();
      NextTokenCases(s0, l0);
      var c := NextCharacter(0);
      if c.Exhausted? {
        assert log == log0 + [];
        return Exhausted;
      }
      if StartsToken(c.value) {
        r := ReadRecognisedToken();
        return;
      }
      ghost var entry := Entry(line, UnexpectedCharacter);
      var _ := ReadCharacter();
      log := log + [Entry(line, UnexpectedCharacter)];
      r := ReadToken();
      LoggedFollows(NextToken(t[1..], entry.line), r, characters.Stream(), line, log, log0, entry);
    }

    /** Reads the token that the next character starts: an operator, a string or a number. */
    method ReadRecognisedToken() returns (r: Fetched<Token>)
      requires characters.Stream() != [] && StartsToken(characters.Stream()[0])
      modifies this, characters
      ensures Follows(TokenAt(old(characters.Stream()), old(line)), r, characters.Stream(), line, log, old(log))
    {
      var c := NextCharacter(0);
      if IsSimpleOperator(c.value) || IsCompoundOperator(c.value) {
        var token := ReadOperatorToken();
        r := Ok(token);
      } else if c.value == Quote {
        r := ReadStringToken();
      } else {
        var token := ReadNumberToken();
        r := Ok(token);
      }
    }

    /**
     * Reads an operator. A compound operator takes a following `=` into an
     * `_equal` token; when the input ends after it, it stands alone.
     */
    method ReadOperatorToken() returns (token: Token)
      requires characters.Stream() != []
      requires IsSimpleOperator(characters.Stream()[0]) || IsCompoundOperator(characters.Stream()[0])
      modifies characters
      ensures Follows(TokenAt(old(characters.Stream()), line), Ok(token), characters.Stream(), line, log, log)
    {
      ghost var t := characters.Stream();
      var first := ReadCharacter();
      if IsSimpleOperator(first) {
        token := Token(kind := SimpleOperatorType(first), lexeme := [first], line := line);
        assert TokenAt(t, line) == Emit(token, t[1..], line, []);
        assert log == log + [];
        return;
      }
      var kind := CompoundOperatorType(first);
      var lexeme := [first];
      var next := NextCharacter(0);
      if next.Ok? && next.value == '=' {
        var equal := ReadExpected('=');
        assert characters.Stream() == t[2..];
        lexeme := lexeme + [equal];
        kind := WithEqual(kind);
      }
      token := Token(kind := kind, lexeme := lexeme, line := line);
      assert TokenAt(t, line) == Emit(token, characters.Stream(), line, []);
      assert log == log + [];
    }

    /**
     * Skips whitespace, counting newlines, and `//` comments up to the
     * newline that ends them, until a character that starts neither or the
     * end of the input.
     */
    method SkipWhitespaceAndComments()
      modifies this`line, characters
      ensures (characters.Stream(), line) == SkipTrivia(old(characters.Stream()), old(line))
      ensures log == old(log)
    {
      while true
        invariant SkipTrivia(characters.Stream(), line) == SkipTrivia(old(characters.Stream()), old(line))
        decreases |characters.Stream()|
      {
        var c := NextCharacter(0);
        if c.Exhausted? {
          return;
        }
        if IsWhitespace(c.value) {
          var whitespace := ReadCharacter();
          if whitespace == Newline {
            line := line + 1;
          }
        } else {
          if c.value != '/' {
            return;
          }
          var second := NextCharacter(1);
          if second.Exhausted? || second.value != '/' {
            return;
          }
          var ended := SkipComment();
          if ended {
            return;
          }
        }
      }
    }

    /**
     * Reads the two slashes that open a comment, then every character up
     * to, but not including, the next newline. Reports whether the input
     * ran out first.
     */
    method SkipComment() returns (ended: bool)
      requires StartsComment(characters.Stream())
      modifies characters
      ensures characters.Stream() ==
        old(characters.Stream())[2 + IndexOf(old(characters.Stream())[2..], Newline)..]
      ensures ended <==> characters.Stream() == []
    {
      ghost var u := characters.Stream()[2..];
      var _ := ReadExpected('/');
      var _ := ReadExpected('/');
      while true
        invariant characters.Stream()[IndexOf(characters.Stream(), Newline)..] == u[IndexOf(u, Newline)..]
        decreases |characters.Stream()|
      {
        var c := NextCharacter(0);
        if c.Exhausted? {
          return true;
        }
        if c.value == Newline {
          return false;
        }
        ghost var before := characters.Stream();
        var _ := ReadCharacter();
        CommentStep(before);
      }
    }

    /**
     * Reads a string literal from its opening quote to its closing quote,
     * counting the newlines inside it. When the input ends first, the error
     * is logged on the line reached and `Exhausted` is returned.
     */
    method ReadStringToken() returns (r: Fetched<Token>)
      requires characters.Stream() != [] && characters.Stream()[0] == Quote
      modifies this, characters
      ensures Follows(ReadString(old(characters.Stream())[1..], old(line)), r, characters.Stream(), line, log, old(log))
    {
      ghost var u, l0 := characters.Stream()[1..], line;
      var quote := ReadExpected(Quote);
      var contents := ReadStringContents();
      ghost var stream := characters.Stream();
      var next := NextCharacter(0);
      if next.Exhausted? {
        UnclosedStringFollows(u, contents, l0, line, log);
        log := log + [Entry(line, UnterminatedString)];
        return Exhausted;
      }
      var closing := ReadExpected(Quote);
      var lexeme := [quote] + contents + [closing];
      ClosedStringFollows(u, contents, stream, lexeme, l0, line, log);
      r := Ok(Token(kind := String, lexeme := lexeme, line := line, literal := Str(lexeme[1..|lexeme| - 1])));
    }

    /**
     * Reads a string's contents: every character up to the closing quote or
     * the end of the input, counting the newlines read.
     */
    method ReadStringContents() returns (contents: string)
      modifies this`line, characters
      ensures contents + characters.Stream() == old(characters.Stream())
      ensures Quote !in contents && line == old(line) + Newlines(contents)
      ensures characters.Stream() != [] ==> characters.Stream()[0] == Quote
      ensures log == old(log)
    {
      contents := [];
      while true
        invariant contents + characters.Stream() == old(characters.Stream())
        invariant Quote !in contents && line == old(line) + Newlines(contents)
        decreases |characters.Stream()|
      {
        var next := NextCharacter(0);
        if next.Exhausted? || next.value == Quote {
          return;
        }
        ghost var before := characters.Stream();
        var character := ReadCharacter();
        StringContentsStep(contents, before);
        contents := contents + [character];
        if character == Newline {
          line := line + 1;
        }
      }
    }

    /**
     * Reads a number: a run of digits, then a dot and a second run of
     * digits when a digit follows the dot. The end of the input simply
     * ends the number.
     */
    method ReadNumberToken() returns (token: Token)
      requires characters.Stream() != [] && IsDigit(characters.Stream()[0])
      modifies characters
      ensures Follows(TokenAt(old(characters.Stream()), line), Ok(token), characters.Stream(), line, log, log)
    {
      ghost var t := characters.Stream();
      var lexeme := ReadDigits([]);
      ghost var w := DigitRun(t);
      assert lexeme == t[..w] && characters.Stream() == t[w..];
      lexeme := ReadFraction(lexeme);
      ghost var n := NumberLength(t);
      assert n == w + FractionLength(t[w..]);
      PrefixSplit(t, w, FractionLength(t[w..]));
      assert lexeme == t[..n] && characters.Stream() == t[n..];
      token := Token(kind := Number, lexeme := lexeme, line := line, literal := Num(lexeme));
      NumberTokenAt(t, line);
      assert log == log + [];
    }

    /** Appends to `lexeme` a dot and the digits after it, when the input holds a dot followed by a digit. */
    method ReadFraction(lexeme: string) returns (longer: string)
      modifies characters
      ensures longer == lexeme + old(characters.Stream())[..FractionLength(old(characters.Stream()))]
      ensures characters.Stream() == old(characters.Stream())[FractionLength(old(characters.Stream()))..]
    {
      ghost var s := characters.Stream();
      longer := lexeme;
      var next := NextCharacter(0);
      if next.Ok? && next.value == '.' {
        var after := NextCharacter(1);
        if after.Ok? && IsDigit(after.value) {
          var dot := ReadExpected('.');
          longer := ReadDigits(longer + [dot]);
          FractionRead(s, lexeme, longer, characters.Stream());
          return;
        }
      }
      NoFraction(s, lexeme);
    }

    /** Appends to `lexeme` the run of digits at the head of the input. */
    method ReadDigits(lexeme: string) returns (longer: string)
      modifies characters
      ensures longer == lexeme + old(characters.Stream())[..DigitRun(old(characters.Stream()))]
      ensures characters.Stream() == old(characters.Stream())[DigitRun(old(characters.Stream()))..]
    {
      ghost var s := characters.Stream();
      longer := lexeme;
      while true
        invariant |lexeme| <= |longer| && longer[..|lexeme|] == lexeme
        invariant longer[|lexeme|..] + characters.Stream() == s && AllDigits(longer[|lexeme|..])
        decreases |characters.Stream()|
      {
        var next := NextCharacter(0);
        if next.Exhausted? || !IsDigit(next.value) {
          break;
        }
        var digit := ReadCharacter();
        assert longer[|lexeme|..] + [digit] == (longer + [digit])[|lexeme|..];
        longer := longer + [digit];
      }
      DigitRunOfPrefix(s, longer[|lexeme|..], characters.Stream());
    }

    /** The character `lookahead` places past the next one, without consuming anything. */
    method NextCharacter(lookahead: nat) returns (r: Fetched<char>)
      modifies characters
      ensures characters.Stream() == old(characters.Stream())
      ensures lookahead < |characters.Stream()| ==> r == Ok(characters.Stream()[lookahead])
      ensures lookahead >= |characters.Stream()| ==> r == Exhausted
    {
      r := characters.Peek(lookahead);
    }

    /** Consumes the next character, which the caller has already seen by peeking. */
    method ReadCharacter() returns (c: char)
      requires characters.Stream() != []
      modifies characters
      ensures c == old(characters.Stream())[0] && characters.Stream() == old(characters.Stream())[1..]
    {
      var r := characters.Next();
      c := r.value;
    }

    /** Consumes the next character, which the caller knows to be `expected`. */
    method ReadExpected(expected: char) returns (c: char)
      requires characters.Stream() != [] && characters.Stream()[0] == expected
      modifies characters
      ensures c == expected && characters.Stream() == old(characters.Stream())[1..]
    {
      c := ReadCharacter();
    }
  }

  /** Scanning a whole source text with a fresh scanner produces exactly the tokens and diagnostics of `Tokenize`. */
  method TokenizeSource(source: string) returns (tokens: seq<Token>, log: Log)
    ensures tokens == Tokenize(source).tokens && log == Tokenize(source).log
  {
    var scanner := new Scanner(source);
    tokens := scanner.EachToken();
    log := scanner.log;
  }

  /** Reading one character of a comment that is not its end leaves the same end of comment ahead. */
  lemma CommentStep(s: string)
    requires s != [] && s[0] != Newline
    ensures s[IndexOf(s, Newline)..] == s[1..][IndexOf(s[1..], Newline)..]
  {
  }

  /** Reading one more character of a string's contents, which is not its closing quote. */
  lemma StringContentsStep(contents: string, s: string)
    requires s != [] && s[0] != Quote && Quote !in contents
    ensures (contents + [s[0]]) + s[1..] == contents + s
    ensures Quote !in contents + [s[0]]
    ensures Newlines(contents + [s[0]]) == Newlines(contents) + (if s[0] == Newline then 1 else 0)
  {
    NewlinesAppend(contents, [s[0]]);
  }

  /** The scanner's state after reading a closed string agrees with `ReadString`. */
  lemma ClosedStringFollows(u: string, contents: string, stream: string, lexeme: string, l0: int, line: int, log: Log)
    requires contents + stream == u && stream != [] && stream[0] == Quote
    requires lexeme == [Quote] + contents + [Quote]
    requires Quote !in contents && line == l0 + Newlines(contents)
    ensures |lexeme| >= 2
    ensures Follows(ReadString(u, l0), Ok(Token(kind := String, lexeme := lexeme, line := line, literal := Str(lexeme[1..|lexeme| - 1]))),
                    stream[1..], line, log, log)
  {
    assert u == contents + [Quote] + stream[1..];
    ReadClosedString(contents, stream[1..], l0);
    assert lexeme[1..|lexeme| - 1] == contents;
    assert log == log + [];
  }

  /** The scanner's state after the input ends inside a string agrees with `ReadString`. */
  lemma UnclosedStringFollows(u: string, contents: string, l0: int, line: int, log: Log)
    requires contents + [] == u && Quote !in contents && line == l0 + Newlines(contents)
    ensures Follows(ReadString(u, l0), Exhausted, [], line, log + [Entry(line, UnterminatedString)], log)
  {
    assert contents == u;
    IndexOfAbsent(u, Quote);
    ReadUnclosedString(u, l0);
  }

  /** A diagnostic logged before a step is followed by the step's own diagnostics. */
  lemma LoggedFollows(step: Step, r: Fetched<Token>, stream: string, line: int, log: Log, log0: Log, entry: Entry)
    requires Follows(step, r, stream, line, log, log0 + [entry])
    ensures Follows(Logged([entry], step), r, stream, line, log, log0)
  {
    SeqAssociates(log0, [entry], step.log);
  }

  /** A dot and the digits after it make the fraction. */
  lemma FractionRead(s: string, lexeme: string, longer: string, stream: string)
    requires |s| >= 2 && s[0] == '.' && IsDigit(s[1])
    requires longer == (lexeme + ['.']) + s[1..][..DigitRun(s[1..])]
    requires stream == s[1..][DigitRun(s[1..])..]
    ensures longer == lexeme + s[..FractionLength(s)] && stream == s[FractionLength(s)..]
  {
    PrefixSplit(s, 1, DigitRun(s[1..]));
    assert s[..1] == ['.'];
  }

  /** Without a dot followed by a digit there is no fraction. */
  lemma NoFraction(s: string, lexeme: string)
    requires !(|s| >= 2 && s[0] == '.' && IsDigit(s[1]))
    ensures lexeme == lexeme + s[..FractionLength(s)] && s == s[FractionLength(s)..]
  {
    assert s[..0] == [] && s[0..] == s;
  }

  /** Reading `n` characters and then `m` more reads `n + m`. */
  lemma PrefixSplit(t: string, n: nat, m: nat)
    requires n + m <= |t|
    ensures t[..n] + t[n..][..m] == t[..n + m]
    ensures t[n..][m..] == t[n + m..]
  {
  }
}
