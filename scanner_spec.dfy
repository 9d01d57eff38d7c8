/**
 * The scanner's tokenisation policy as functions of the characters not yet
 * consumed and the current line. `SkipTrivia`, `ReadString`, `TokenAt`,
 * `NextToken` and `Scan` describe what the scanner's reading methods do to
 * the logical character stream; the others are the constant tables and the
 * vocabulary (suffixes, newline counts, number lexemes) used to state them.
 * The imperative `Scanning.Scanner` is proved to agree with them.
 */
module ScannerSpec {
  import opened Strings
  import opened Tokens

  /** The two diagnostics the scanner reports. */
  datatype Message = UnexpectedCharacter | UnterminatedString

  /** The text the logger receives for each diagnostic. */
  function MessageText(m: Message): string
  {
    match m
    case UnexpectedCharacter => "Unexpected character"
    case UnterminatedString => "Unterminated string"
  }

  /** The diagnostics sent to the logger, as (line, message) pairs in order. */
  datatype Entry = Entry(line: int, message: Message)
  type Log = seq<Entry>

  const Newline: char := '\n'
  const Quote: char := '"'

  /** WHITESPACE: space, tab, carriage return and newline. */
  predicate IsWhitespace(c: char)
  {
    c == ' ' || c == '\t' || c == '\r' || c == Newline
  }

  /** The keys of SIMPLE_OPERATORS: characters that are a token on their own. */
  predicate IsSimpleOperator(c: char)
  {
    c == '(' || c == ')' || c == '{' || c == '}' || c == ',' || c == '.'
    || c == '-' || c == '+' || c == ';' || c == '*' || c == '/'
  }

  /** SIMPLE_OPERATORS: the type each one-character operator maps to. */
  function SimpleOperatorType(c: char): TokenType
    requires IsSimpleOperator(c)
  {
    match c
    case '(' => LeftParen
    case ')' => RightParen
    case '{' => LeftBrace
    case '}' => RightBrace
    case ',' => Comma
    case '.' => Dot
    case '-' => Minus
    case '+' => Plus
    case ';' => Semicolon
    case '*' => Star
    case '/' => Slash
  }

  /** The keys of COMPOUND_OPERATORS: characters that may take a following `=`. */
  predicate IsCompoundOperator(c: char)
  {
    c == '!' || c == '=' || c == '<' || c == '>'
  }

  /** COMPOUND_OPERATORS: the type of each such character standing alone. */
  function CompoundOperatorType(c: char): (k: TokenType)
    requires IsCompoundOperator(c)
    ensures IsCompound(k)
  {
    match c
    case '!' => Bang
    case '=' => Equal
    case '<' => Less
    case '>' => Greater
  }

  predicate IsDigit(c: char)
  {
    '0' <= c <= '9'
  }

  predicate IsCompound(k: TokenType)
  {
    k == Bang || k == Equal || k == Less || k == Greater
  }

  /** The `_equal` variant of a compound operator's type: its name with `_equal` appended. */
  function WithEqual(k: TokenType): (e: TokenType)
    requires IsCompound(k)
    ensures TypeName(e) == TypeName(k) + "_equal"
    ensures !IsCompound(e)
  {
    match k
    case Bang => BangEqual
    case Equal => EqualEqual
    case Less => LessEqual
    case Greater => GreaterEqual
  }

  /** The number of newline characters in `s`. */
  function Newlines(s: string): nat
  {
    multiset(s)[Newline]
  }

  predicate IsSuffix(r: string, s: string)
  {
    |r| <= |s| && r == s[|s| - |r|..]
  }

  /** What was read from `s` to leave `r`. */
  function Consumed(s: string, r: string): string
    requires IsSuffix(r, s)
  {
    s[..|s| - |r|]
  }

  /** Two slashes in a row open a comment that runs to the end of the line. */
  predicate StartsComment(s: string)
  {
    |s| >= 2 && s[0] == '/' && s[1] == '/'
  }

  /**
   * Skipping whitespace and comments: drops whitespace characters (counting
   * newlines) and `//` comments up to, but not including, the next newline,
   * and stops at the first character that starts neither. A lone trailing `/`
   * is not a comment: the failed second peek only ends the skipping loop.
   */
  function SkipTrivia(s: string, line: int): (r: (string, int))
    ensures IsSuffix(r.0, s)
    ensures r.0 != [] ==> !IsWhitespace(r.0[0]) && !StartsComment(r.0)
    decreases |s|
  {
    if s == [] then (s, line)
    else if IsWhitespace(s[0]) then SkipTrivia(s[1..], if s[0] == Newline then line + 1 else line)
    else if StartsComment(s) then SkipTrivia(s[2 + IndexOf(s[2..], Newline)..], line)
    else (s, line)
  }

  /** The outcome of reading one token. */
  datatype Step =
    | Emit(token: Token, rest: string, line: int, log: Log)
      // a token, the characters after it, the line counter and the diagnostics logged on the way
    | Stop(line: int, log: Log)
      // the character stream ran out before a token was complete

  /** The same outcome with `entries` logged before it. */
  function Logged(entries: Log, r: Step): Step
  {
    match r
    case Emit(token, rest, line, log) => Emit(token, rest, line, entries + log)
    case Stop(line, log) => Stop(line, entries + log)
  }

  /**
   * Reading a string literal whose opening quote was just consumed: the
   * contents run to the next quote and may span lines; without a closing
   * quote the whole rest is consumed and one error is logged.
   */
  function ReadString(u: string, line: int): (r: Step)
    ensures r.Emit? ==> IsSuffix(r.rest, u)
    ensures r.Emit? ==> r.token.kind == String && r.token.line == r.line && r.log == []
  {
    var i := IndexOf(u, Quote);
    if i == |u| then
      var ln := line + Newlines(u);
      Stop(ln, [Entry(ln, UnterminatedString)])
    else
      var contents := u[..i];
      var ln := line + Newlines(contents);
      var lexeme := [Quote] + contents + [Quote];
      Emit(Token(kind := String, lexeme := lexeme, line := ln, literal := Str(contents)), u[i + 1..], ln, [])
  }

  predicate AllDigits(s: string)
  {
    forall i :: 0 <= i < |s| ==> IsDigit(s[i])
  }

  /** The length of the run of digits that starts `s`. */
  function DigitRun(s: string): (n: nat)
    ensures n <= |s| && AllDigits(s[..n])
    ensures n < |s| ==> !IsDigit(s[n])
  {
    if s == [] || !IsDigit(s[0]) then 0
    else
      assert s[..1 + DigitRun(s[1..])] == [s[0]] + s[1..][..DigitRun(s[1..])];
      1 + DigitRun(s[1..])
  }

  /** Digits with at most one dot, starting and ending with a digit. */
  predicate IsNumberLexeme(x: string)
  {
    && x != [] && IsDigit(x[0]) && IsDigit(x[|x| - 1])
    && (forall i :: 0 <= i < |x| ==> IsDigit(x[i]) || x[i] == '.')
    && (forall i, j :: 0 <= i < j < |x| && x[i] == '.' ==> x[j] != '.')
  }

  /**
   * `t[..n]` is a number lexeme that cannot be extended: no digit follows
   * it, and when it has no fraction no dot-and-digit follows it either.
   */
  predicate IsMaximalNumber(t: string, n: nat)
  {
    && 1 <= n <= |t|
    && IsNumberLexeme(t[..n])
    && (n < |t| ==> !IsDigit(t[n]))
    && (n + 1 < |t| && t[n] == '.' && IsDigit(t[n + 1]) ==> '.' in t[..n])
  }

  /** The length of the fraction at the start of `s`: a dot and digits, when a digit follows the dot, else nothing. */
  function FractionLength(s: string): (n: nat)
    ensures n <= |s|
  {
    if |s| >= 2 && s[0] == '.' && IsDigit(s[1]) then 1 + DigitRun(s[1..]) else 0
  }

  /** The length of the number lexeme at the start of `t`: digits, then a fraction. */
  function NumberLength(t: string): (n: nat)
    requires t != [] && IsDigit(t[0])
    ensures 1 <= n <= |t|
  {
    DigitRun(t) + FractionLength(t[DigitRun(t)..])
  }

  /** The characters that start a token: operators, a quote and digits. */
  predicate StartsToken(c: char)
  {
    IsSimpleOperator(c) || IsCompoundOperator(c) || c == Quote || IsDigit(c)
  }

  /**
   * Reading the token that `t` starts with, once trivia is skipped: an
   * operator (a compound one takes a following `=`, and the end of the
   * stream just leaves it short), a string or a number.
   */
  function TokenAt(t: string, line: int): (r: Step)
    requires t != [] && StartsToken(t[0])
    ensures r.Emit? ==> IsSuffix(r.rest, t) && |r.rest| < |t|
    ensures r.Emit? ==> r.token.kind != Eof && r.token.line == r.line && r.log == []
  {
    var c := t[0];
    if IsSimpleOperator(c) then
      Emit(Token(kind := SimpleOperatorType(c), lexeme := [c], line := line), t[1..], line, [])
    else if IsCompoundOperator(c) then
      if |t| >= 2 && t[1] == '=' then
        Emit(Token(kind := WithEqual(CompoundOperatorType(c)), lexeme := [c, '='], line := line), t[2..], line, [])
      else
        Emit(Token(kind := CompoundOperatorType(c), lexeme := [c], line := line), t[1..], line, [])
    else if c == Quote then
      ReadString(t[1..], line)
    else
      var n := NumberLength(t);
      Emit(Token(kind := Number, lexeme := t[..n], line := line, literal := Num(t[..n])), t[n..], line, [])
  }

  lemma SuffixTransitive(r: string, t: string, s: string)
    requires IsSuffix(r, t) && IsSuffix(t, s)
    ensures IsSuffix(r, s)
  {
  }

  /**
   * Reading one token: skip trivia, then classify the next character. An
   * unexpected character is consumed and logged and reading starts over;
   * the end of the stream, before a token or inside a string, stops it.
   */
  function NextToken(s: string, line: int): (r: Step)
    ensures r.Emit? ==> IsSuffix(r.rest, s) && |r.rest| < |s|
    ensures r.Emit? ==> r.token.kind != Eof && r.token.line == r.line
    decreases |s|
  {
    var skipped := SkipTrivia(s, line);
    var t, ln := skipped.0, skipped.1;
    if t == [] then Stop(ln, [])
    else if StartsToken(t[0]) then
      var r := TokenAt(t, ln);
      if r.Emit? then SuffixTransitive(r.rest, t, s); r else r
    else
      var r := NextToken(t[1..], ln);
      if r.Emit? then SuffixTransitive(r.rest, t[1..], t); SuffixTransitive(r.rest, t, s); Logged([Entry(ln, UnexpectedCharacter)], r)
      else Logged([Entry(ln, UnexpectedCharacter)], r)
  }

  /** The tokens produced and the diagnostics logged. */
  datatype Scanned = Scanned(tokens: seq<Token>, log: Log)

  /** The sequence is closed by an `eof` token with an empty lexeme and no literal. */
  predicate EndsWithEof(ts: seq<Token>)
  {
    && |ts| >= 1
    && ts[|ts| - 1].kind == Eof
    && ts[|ts| - 1].lexeme == []
    && ts[|ts| - 1].literal == None
  }

  lemma PrependKeepsEof(t: Token, ts: seq<Token>)
    requires EndsWithEof(ts)
    ensures EndsWithEof([t] + ts)
  {
    assert ([t] + ts)[|ts|] == ts[|ts| - 1];
  }

  /**
   * Scanning: tokens are read until the stream stops, then a single `eof`
   * token with an empty lexeme and the current line ends the sequence.
   */
  function Scan(s: string, line: int): (out: Scanned)
    ensures EndsWithEof(out.tokens)
    decreases |s|
  {
    var r := NextToken(s, line);
    if r.Stop? then Scanned([Token(kind := Eof, lexeme := "", line := r.line)], r.log)
    else
      var more := Scan(r.rest, r.line);
      PrependKeepsEof(r.token, more.tokens);
      Scanned([r.token] + more.tokens, r.log + more.log)
  }

  /** Scanning a whole source text, which starts on line 1. */
  function Tokenize(source: string): Scanned
  {
    Scan(source, 1)
  }
}
