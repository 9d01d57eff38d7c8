/** Lexical tokens and their one-line rendering. */
module Tokens {
  import opened Strings

  /** The token types the scanner produces (Ruby spells them as symbols). */
  datatype TokenType =
    | LeftParen | RightParen | LeftBrace | RightBrace | Comma | Dot | Minus | Plus
    | Semicolon | Star | Slash
    | Bang | BangEqual | Equal | EqualEqual | Less | LessEqual | Greater | GreaterEqual
    | String | Number | Eof

  /** A token's decoded value: absent, the contents of a string, or a number kept as its decimal text. */
  datatype Literal = None | Str(text: string) | Num(digits: string)

  /** One immutable lexical unit. As in the keyword-initialised struct, `literal` defaults to absent. */
  datatype Token = Token(kind: TokenType, lexeme: string, line: int, literal: Literal := None)

  /** The name of each type as the source's symbol spells it: a single non-empty word. */
  function TypeName(k: TokenType): (name: string)
    ensures name != [] && ' ' !in name
  {
    match k
    case LeftParen => "left_paren"
    case RightParen => "right_paren"
    case LeftBrace => "left_brace"
    case RightBrace => "right_brace"
    case Comma => "comma"
    case Dot => "dot"
    case Minus => "minus"
    case Plus => "plus"
    case Semicolon => "semicolon"
    case Star => "star"
    case Slash => "slash"
    case Bang => "bang"
    case BangEqual => "bang_equal"
    case Equal => "equal"
    case EqualEqual => "equal_equal"
    case Less => "less"
    case LessEqual => "less_equal"
    case Greater => "greater"
    case GreaterEqual => "greater_equal"
    case String => "string"
    case Number => "number"
    case Eof => "eof"
  }

  function UpperChar(c: char): char
  {
    if 'a' <= c <= 'z' then (c as int - 32) as char else c
  }

  /** Ruby's `upcase` on an ASCII name: every letter replaced by its capital, position by position. */
  function Upcase(s: string): (u: string)
    ensures |u| == |s|
    ensures forall i :: 0 <= i < |s| ==> u[i] == UpperChar(s[i])
  {
    if s == [] then [] else [UpperChar(s[0])] + Upcase(s[1..])
  }

  /** A string in a decimal number drops its leading zeros ... */
  function StripLeadingZeros(s: string): (r: string)
    ensures |r| <= |s| && r == s[|s| - |r|..]
    ensures r == [] || r[0] != '0'
    ensures forall i :: 0 <= i < |s| - |r| ==> s[i] == '0'
  {
    if s != [] && s[0] == '0' then StripLeadingZeros(s[1..]) else s
  }

  /** ... and a fraction drops its trailing zeros. */
  function StripTrailingZeros(s: string): (r: string)
    ensures |r| <= |s| && r == s[..|r|]
    ensures r == [] || r[|r| - 1] != '0'
    ensures forall i :: |r| <= i < |s| ==> s[i] == '0'
  {
    if s != [] && s[|s| - 1] == '0' then StripTrailingZeros(s[..|s| - 1]) else s
  }

  /** The text Ruby prints for the float a number lexeme denotes, as a normalised decimal. */
  function NumberText(d: string): string
  {
    var dot := IndexOf(d, '.');
    var whole := StripLeadingZeros(d[..dot]);
    var fraction := if dot < |d| then StripTrailingZeros(d[dot + 1..]) else "";
    var w := if whole == [] then "0" else whole;
    var f := if fraction == [] then "0" else fraction;
    w + ['.'] + f
  }

  /** What the rendering shows for a literal: `null` when there is none. */
  function LiteralText(l: Literal): string
  {
    match l
    case None => "null"
    case Str(text) => text
    case Num(digits) => NumberText(digits)
  }

  /** The upper-cased type name, the lexeme and the literal, joined by single spaces. */
  function ToString(t: Token): string
  {
    Upcase(TypeName(t.kind)) + " " + t.lexeme + " " + LiteralText(t.literal)
  }

  /** The first space-delimited word of a line. */
  function FirstWord(s: string): string
  {
    s[..IndexOf(s, ' ')]
  }

  /** Upper-casing neither adds nor removes spaces. */
  lemma {:induction false} UpcaseHasNoSpace(s: string)
    requires ' ' !in s
    ensures ' ' !in Upcase(s)
  {
    if s != [] {
      UpcaseHasNoSpace(s[1..]);
      assert Upcase(s) == [UpperChar(s[0])] + Upcase(s[1..]);
    }
  }

  /** Building a token without a literal leaves `literal` absent; the other fields read back as given. */
  lemma NoLiteralByDefault(kind: TokenType, lexeme: string, line: int)
    ensures Token(kind := kind, lexeme := lexeme, line := line).literal == None
    ensures Token(kind := kind, lexeme := lexeme, line := line).kind == kind
    ensures Token(kind := kind, lexeme := lexeme, line := line).lexeme == lexeme
    ensures Token(kind := kind, lexeme := lexeme, line := line).line == line
  {
  }

  /** The first word of a rendered token is always its type name in capitals. */
  lemma {:induction false} FirstWordIsTypeName(t: Token)
    ensures FirstWord(ToString(t)) == Upcase(TypeName(t.kind))
  {
    var name := Upcase(TypeName(t.kind));
    UpcaseHasNoSpace(TypeName(t.kind));
    var rest := t.lexeme + " " + LiteralText(t.literal);
    assert ToString(t) == name + [' '] + rest;
    IndexOfAfterPrefix(name, ' ', rest);
  }

  /** A token without a literal renders as its type, its lexeme and the word `null`. */
  lemma RenderingWithoutLiteral(t: Token)
    requires t.literal == None
    ensures |ToString(t)| >= 4 && ToString(t)[|ToString(t)| - 4..] == "null"
    ensures ToString(t)[..|ToString(t)| - 5] == Upcase(TypeName(t.kind)) + " " + t.lexeme
  {
  }

  lemma StarRendering()
    ensures ToString(Token(kind := Star, lexeme := "*", line := 1)) == "STAR * null"
  {
  }

  /** A whole-number lexeme without leading zeros prints as a float: the digits, then `.0`. */
  lemma WholeNumberText(d: string)
    requires d != [] && d[0] != '0' && '.' !in d
    ensures NumberText(d) == d + ".0"
  {
    IndexOfAbsent(d, '.');
    assert d[..|d|] == d;
    assert StripLeadingZeros(d) == d;
  }

  /**
   * A lexeme already in the form Ruby prints (no leading zeros unless the
   * whole part is `0`, no trailing zeros in a fraction) prints unchanged.
   */
  lemma FractionNumberText(w: string, f: string)
    requires w == "0" || (w != [] && w[0] != '0')
    requires '.' !in w && f != [] && f[|f| - 1] != '0'
    ensures NumberText(w + "." + f) == w + "." + f
  {
    var d := w + "." + f;
    IndexOfAfterPrefix(w, '.', f);
    assert d[..|w|] == w && d[|w| + 1..] == f;
  }
}
