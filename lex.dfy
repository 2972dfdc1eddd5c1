/**
 * The lexer: a single pass over the source text driven by a cursor. Each
 * call of `Next` skips white space and produces one token with a half-open
 * byte range `[start, end)` of the source. Characters are single bytes and
 * the character classes are the ASCII ones.
 *
 * The scanning rules are stated first as functions of the text and a
 * position (`NextToken` and the pieces it is built from); the `Lexer` class
 * then carries them out with a moving cursor and is proved to agree.
 */
module Lex {
  import opened Common

  /** Every token kind, in declaration order. */
  datatype TokenKind =
    | Plus | PlusEq | PlusPlus | SeparatedPlus
    | Lt | LtEq | SeparatedLt | Gt | GtEq | SeparatedGt
    | Bang | BangEq | Minus | Arrow | MinusEq | SeparatedMinus
    | Dot | Colon | ColonColon | ColonTilde | ColonMinus
    | Star | StarEq | SeparatedStar | Slash | SlashEq | SeparatedSlash
    | Percent | PercentEq | SeparatedPercent
    | Eq | FatArrow | EqEq | EqEqEq | Tilde | TildeGt | Pipe | PipeGt
    | Hash | Question | Backslash | Ampersand
    | LBracket | RBracket | LParen | RParen | LBrace | RBrace
    | Comma | Quote | Semi | Caret | Dollar | At | Underscore
    | Str | Int | IntBin | IntOct | IntHex | Real | RealSci | Char
    | And | As | Bool | Break | Catch | Const | Continue | Else | Enum | Error
    | Extern | False | Fn | For | If | In | Inline | Is | Let | Match | Mod
    | Newtype | Not | Null | Or | Private | Ref | Return | SelfLower | SelfCap
    | Static | Struct | Test | True | Typealias | Union | Use | When | While
    | Id | Comment | Invalid | Sof | Eof

  /** A token: its kind and the byte range `[start, end)` it covers. */
  datatype Token = Token(kind: TokenKind, start: nat, end: nat)

  // ---------------------------------------------------------------------
  // Character classes (ASCII)
  // ---------------------------------------------------------------------

  /** `isspace`: blank, tab, line feed, vertical tab, form feed, carriage return. */
  predicate IsSpace(c: char) { c == ' ' || '\t' <= c <= '\r' }

  predicate IsAlpha(c: char) { 'a' <= c <= 'z' || 'A' <= c <= 'Z' }

  predicate IsIdentChar(c: char) { IsAlpha(c) || IsDigitChar(c) || c == '_' }

  predicate IsHexDigit(c: char) { IsDigitChar(c) || 'a' <= c <= 'f' || 'A' <= c <= 'F' }

  /** The classes of characters the lexer skips over one at a time. */
  datatype CharClass = Blank | IdentPart | BinDigit | OctDigit | HexDigit | DecDigit

  predicate InClass(c: char, cls: CharClass) {
    match cls
    case Blank => IsSpace(c)
    case IdentPart => IsIdentChar(c)
    case BinDigit => c == '0' || c == '1'
    case OctDigit => '0' <= c <= '7'
    case HexDigit => IsHexDigit(c)
    case DecDigit => IsDigitChar(c)
  }

  // ---------------------------------------------------------------------
  // Lexemes and keywords
  // ---------------------------------------------------------------------

  /** `lexeme`: the text of an operator or keyword, a description for the other kinds. */
  function Lexeme(kind: TokenKind): (r: string)
    ensures r != []
  {
    match kind
    case Plus => "+"
    case PlusEq => "+="
    case PlusPlus => "++"
    case Lt => "<"
    case LtEq => "<="
    case Gt => ">"
    case GtEq => ">="
    case Bang => "!"
    case BangEq => "!="
    case Minus => "-"
    case Arrow => "->"
    case MinusEq => "-="
    case Dot => "."
    case Colon => ":"
    case Star => "*"
    case StarEq => "*="
    case Slash => "/"
    case SlashEq => "/="
    case Percent => "%"
    case PercentEq => "%="
    case Eq => "="
    case FatArrow => "=>"
    case EqEq => "=="
    case Tilde => "~"
    case Pipe => "|"
    case Hash => "#"
    case Question => "?"
    case Backslash => "\\"
    case Ampersand => "&"
    case LBracket => "["
    case RBracket => "]"
    case LParen => "("
    case RParen => ")"
    case LBrace => "{"
    case RBrace => "}"
    case Comma => ","
    case Quote => "'"
    case Semi => ";"
    case Caret => "^"
    case Dollar => "$"
    case At => "@"
    case Underscore => "_"
    case And => "and"
    case As => "as"
    case Bool => "bool"
    case Break => "break"
    case Catch => "catch"
    case Char => "<character_literal>"
    case Comment => "<comment>"
    case Const => "const"
    case Continue => "continue"
    case Else => "else"
    case Enum => "enum"
    case Eof => "<end_of_file>"
    case Error => "error"
    case Extern => "extern"
    case False => "false"
    case Fn => "fn"
    case For => "for"
    case Id => "<identifier>"
    case If => "if"
    case In => "in"
    case Inline => "inline"
    case Int => "<integer_literal>"
    case IntBin => "<binary_integer_literal>"
    case IntHex => "<hexadecimal_integer_literal>"
    case IntOct => "<octal_integer_literal>"
    case Invalid => "<invalid_token>"
    case Is => "is"
    case Let => "let"
    case Match => "match"
    case Mod => "mod"
    case Newtype => "newtype"
    case Not => "not"
    case Null => "null"
    case Or => "or"
    case Private => "private"
    case Real => "<real_literal>"
    case RealSci => "<scientific_real_literal>"
    case Ref => "ref"
    case Return => "return"
    case SelfCap => "Self"
    case SelfLower => "self"
    case Sof => "<start_of_file>"
    case Static => "static"
    case Str => "<string_literal>"
    case Struct => "struct"
    case Test => "test"
    case True => "true"
    case Typealias => "typealias"
    case Union => "union"
    case Use => "use"
    case When => "when"
    case While => "while"
    case _ => "<unknown>"
  }

  /** The keywords with their kinds, in the order `is_keyword` compares them. */
  const KEYWORDS: seq<(string, TokenKind)> := [
    ("and", And), ("as", As), ("bool", Bool), ("break", Break), ("catch", Catch),
    ("const", Const), ("continue", Continue), ("else", Else), ("enum", Enum), ("error", Error),
    ("extern", Extern), ("false", False), ("fn", Fn), ("for", For), ("if", If),
    ("in", In), ("inline", Inline), ("is", Is), ("let", Let), ("match", Match),
    ("mod", Mod), ("newtype", Newtype), ("not", Not), ("null", Null), ("or", Or),
    ("private", Private), ("ref", Ref), ("return", Return), ("self", SelfLower), ("Self", SelfCap),
    ("static", Static), ("struct", Struct), ("test", Test), ("true", True), ("typealias", Typealias),
    ("union", Union), ("use", Use), ("when", When), ("while", While)]

  /** The comparisons of `is_keyword` from the `i`-th keyword on: the first exact match wins. */
  function KeywordFrom(ident: string, i: nat): (r: Option<TokenKind>)
    requires i <= |KEYWORDS|
    ensures r.Some? <==> exists j :: i <= j < |KEYWORDS| && KEYWORDS[j].0 == ident
    ensures r.Some? ==> (ident, r.value) in KEYWORDS
    decreases |KEYWORDS| - i
  {
    if i == |KEYWORDS| then None
    else if KEYWORDS[i].0 == ident then Some(KEYWORDS[i].1)
    else KeywordFrom(ident, i + 1)
  }

  /** `is_keyword`: the keyword kind an identifier spells exactly, if any. */
  function IsKeyword(ident: string): (r: Option<TokenKind>)
    ensures r.Some? <==> exists j :: 0 <= j < |KEYWORDS| && KEYWORDS[j].0 == ident
    ensures r.Some? ==> (ident, r.value) in KEYWORDS
  {
    KeywordFrom(ident, 0)
  }

  /** The kind of an identifier-shaped run of text. */
  function WordKind(ident: string): (r: TokenKind)
    ensures r == Id <==> IsKeyword(ident).None?
    ensures r != Invalid && r != Eof
  {
    KeywordKindsDistinct();
    match IsKeyword(ident)
    case Some(k) => k
    case None => Id
  }

  /** No keyword entry has one of the kinds the lexer gives other tokens. */
  lemma KeywordKindsDistinct()
    ensures forall j :: 0 <= j < |KEYWORDS| ==>
      KEYWORDS[j].1 != Id && KEYWORDS[j].1 != Invalid && KEYWORDS[j].1 != Eof && KEYWORDS[j].1 != Str
  {
  }


  // ---------------------------------------------------------------------
  // Scanning, as functions of the text and a position
  // ---------------------------------------------------------------------

  /** The end of the run of characters of class `cls` starting at `i` (what each skipping loop computes). */
  function RunEnd(src: string, i: nat, cls: CharClass): (r: nat)
    requires i <= |src|
    ensures i <= r <= |src|
    decreases |src| - i
  {
    if i < |src| && InClass(src[i], cls) then RunEnd(src, i + 1, cls) else i
  }

  /** A run is maximal: every character in it is of the class, and the one after it is not. */
  lemma {:induction false} RunEndMaximal(src: string, i: nat, cls: CharClass)
    requires i <= |src|
    ensures forall k :: i <= k < RunEnd(src, i, cls) ==> InClass(src[k], cls)
    ensures RunEnd(src, i, cls) < |src| ==> !InClass(src[RunEnd(src, i, cls)], cls)
    decreases |src| - i
  {
    if i < |src| && InClass(src[i], cls) {
      RunEndMaximal(src, i + 1, cls);
    }
  }

  /** `peek`: the text at `i` begins with `str`; false when `str` would run past the end. */
  predicate StartsWith(src: string, i: nat, str: string) {
    i + |str| <= |src| && src[i..i + |str|] == str
  }

  /** The characters that are a token on their own. */
  function SingleCharKind(c: char): (r: Option<TokenKind>)
    ensures r.Some? ==> r.value != Invalid && r.value != Eof
    ensures r.Some? ==> !IsIdentChar(c) && c !in "+-*/%<>=!\"'"
  {
    match c
    case '.' => Some(Dot)
    case ':' => Some(Colon)
    case ';' => Some(Semi)
    case ',' => Some(Comma)
    case '(' => Some(LParen)
    case ')' => Some(RParen)
    case '{' => Some(LBrace)
    case '}' => Some(RBrace)
    case '[' => Some(LBracket)
    case ']' => Some(RBracket)
    case '~' => Some(Tilde)
    case '|' => Some(Pipe)
    case '#' => Some(Hash)
    case '?' => Some(Question)
    case '\\' => Some(Backslash)
    case '&' => Some(Ampersand)
    case '^' => Some(Caret)
    case '$' => Some(Dollar)
    case '@' => Some(At)
    case _ => None
  }

  /**
   * The operators that may be followed by `=` or a second character: the
   * longer forms are tried first, then the one-character form.
   */
  function OperatorAt(src: string, s: nat): (r: Option<(TokenKind, nat)>)
    requires s < |src|
    ensures r.Some? <==> src[s] in "+-*/%<>=!"
    ensures r.Some? ==> (r.value.1 == 1 || r.value.1 == 2) && r.value.0 != Invalid && r.value.0 != Eof
  {
    match src[s]
    case '+' =>
      if StartsWith(src, s, "+=") then Some((PlusEq, 2))
      else if StartsWith(src, s, "++") then Some((PlusPlus, 2))
      else Some((Plus, 1))
    case '-' =>
      if StartsWith(src, s, "->") then Some((Arrow, 2))
      else if StartsWith(src, s, "-=") then Some((MinusEq, 2))
      else Some((Minus, 1))
    case '*' => if StartsWith(src, s, "*=") then Some((StarEq, 2)) else Some((Star, 1))
    case '/' => if StartsWith(src, s, "/=") then Some((SlashEq, 2)) else Some((Slash, 1))
    case '%' => if StartsWith(src, s, "%=") then Some((PercentEq, 2)) else Some((Percent, 1))
    case '<' => if StartsWith(src, s, "<=") then Some((LtEq, 2)) else Some((Lt, 1))
    case '>' => if StartsWith(src, s, ">=") then Some((GtEq, 2)) else Some((Gt, 1))
    case '=' =>
      if StartsWith(src, s, "=>") then Some((FatArrow, 2))
      else if StartsWith(src, s, "==") then Some((EqEq, 2))
      else Some((Eq, 1))
    case '!' => if StartsWith(src, s, "!=") then Some((BangEq, 2)) else Some((Bang, 1))
    case _ => None
  }

  /** Where the body of a string literal stops: at a closing quote or the end; `\` skips the next byte. */
  function StringBodyEnd(src: string, i: nat): (r: nat)
    requires i <= |src|
    ensures i <= r <= |src|
    ensures r < |src| ==> src[r] == '"'
    decreases |src| - i
  {
    if i >= |src| || src[i] == '"' then i
    else if src[i] == '\\' && i + 1 < |src| then StringBodyEnd(src, i + 2)
    else StringBodyEnd(src, i + 1)
  }

  /** `recognize_string_literal`: from the opening quote to just after the closing one, or to the end. */
  function StringEnd(src: string, s: nat): (r: nat)
    requires s < |src|
    ensures s < r <= |src|
  {
    var b := StringBodyEnd(src, s + 1);
    if b < |src| then b + 1 else b
  }

  /** `recognize_char` as written: it steps over the opening quote and the character unconditionally. */
  function CharEndAsWritten(src: string, s: nat): (r: nat)
    ensures r > s
  {
    var c := s + 1;
    var c2 := if c < |src| && src[c] == '\\' then c + 2 else c + 1;
    if c2 < |src| && src[c2] == '\'' then c2 + 1 else c2
  }

  /** `recognize_char` with each step kept inside the text. */
  function CharEnd(src: string, s: nat): (r: nat)
    requires s < |src|
    ensures s < r <= |src|
    ensures r <= CharEndAsWritten(src, s)
  {
    var c := s + 1;
    var c2 := Min(if c < |src| && src[c] == '\\' then c + 2 else c + 1, |src|);
    if c2 < |src| && src[c2] == '\'' then c2 + 1 else c2
  }

  /** `recognize_number`: a based integer after `0b`, `0o` or `0x`, else digits, an optional fraction and exponent. */
  function NumberToken(src: string, s: nat): (t: Token)
    requires s < |src|
    ensures t.start == s && s <= t.end <= |src|
    ensures t.kind in {IntBin, IntOct, IntHex, Int, Real, RealSci}
  {
    var based := src[s] == '0' && s + 1 < |src|;
    if based && (src[s + 1] == 'b' || src[s + 1] == 'B') then Token(IntBin, s, RunEnd(src, s + 2, BinDigit))
    else if based && (src[s + 1] == 'o' || src[s + 1] == 'O') then Token(IntOct, s, RunEnd(src, s + 2, OctDigit))
    else if based && (src[s + 1] == 'x' || src[s + 1] == 'X') then Token(IntHex, s, RunEnd(src, s + 2, HexDigit))
    else DecimalToken(src, s)
  }

  /** A number without a base prefix: decimal digits, then an optional fraction and exponent. */
  function DecimalToken(src: string, s: nat): (t: Token)
    requires s <= |src|
    ensures t.start == s && s <= t.end <= |src|
    ensures t.kind in {Int, Real, RealSci}
  {
    var d := RunEnd(src, s, DecDigit);
    if d < |src| && src[d] == '.' then
      var f := RunEnd(src, d + 1, DecDigit);
      if f < |src| && (src[f] == 'e' || src[f] == 'E') then
        var g := if f + 1 < |src| && (src[f + 1] == '+' || src[f + 1] == '-') then f + 2 else f + 1;
        Token(RealSci, s, RunEnd(src, g, DecDigit))
      else Token(Real, s, f)
    else Token(Int, s, d)
  }

  /** The characters that can begin a token other than `Invalid`. */
  predicate StartsToken(c: char) {
    SingleCharKind(c).Some? || c in "+-*/%<>=!" || c == '"' || c == '\'' || IsAlpha(c) || c == '_' || IsDigitChar(c)
  }

  /** The token that begins at `s`, where no white space remains to be skipped. */
  function TokenAt(src: string, s: nat): (t: Token)
    requires s <= |src|
    ensures t.start == s && s <= t.end <= |src|
  {
    if s == |src| then Token(Eof, s, s)
    else
      var c := src[s];
      if SingleCharKind(c).Some? then Token(SingleCharKind(c).value, s, s + 1)
      else if OperatorAt(src, s).Some? then
        var (k, n) := OperatorAt(src, s).value;
        Token(k, s, s + n)
      else if c == '"' then Token(Str, s, StringEnd(src, s))
      else if c == '\'' then Token(Char, s, CharEnd(src, s))
      else if IsAlpha(c) || c == '_' then
        var e := RunEnd(src, s, IdentPart);
        Token(WordKind(src[s..e]), s, e)
      else if IsDigitChar(c) then NumberToken(src, s)
      else Token(Invalid, s, s)
  }

  /** `Lexer::next` from cursor position `pos`: skip white space, then read one token. */
  function NextToken(src: string, pos: nat): (t: Token)
    requires pos <= |src|
    ensures pos <= t.start <= t.end <= |src|
  {
    TokenAt(src, RunEnd(src, pos, Blank))
  }

  /**
   * `next` stops at the end of the text with `Eof`, yields `Invalid`
   * without advancing exactly on a character no token begins with, and
   * otherwise consumes at least one character.
   */
  lemma TokenAtClassified(src: string, s: nat)
    requires s <= |src|
    ensures TokenAt(src, s).kind == Eof <==> s == |src|
    ensures TokenAt(src, s).kind == Invalid <==> s < |src| && !StartsToken(src[s])
    ensures TokenAt(src, s).kind == Invalid || TokenAt(src, s).kind == Eof <==> TokenAt(src, s).end == s
  {
    var t := TokenAt(src, s);
    if s < |src| {
      var c := src[s];
      if SingleCharKind(c).Some? {
        assert t == Token(SingleCharKind(c).value, s, s + 1);
      } else if OperatorAt(src, s).Some? {
        assert t.kind == OperatorAt(src, s).value.0 && t.end == s + OperatorAt(src, s).value.1;
      } else if c == '"' {
        assert t == Token(Str, s, StringEnd(src, s));
      } else if c == '\'' {
        assert t == Token(Char, s, CharEnd(src, s));
      } else if IsAlpha(c) || c == '_' {
        var e := RunEnd(src, s, IdentPart);
        assert e > s;
        assert t == Token(WordKind(src[s..e]), s, e);
      } else if IsDigitChar(c) {
        assert t == NumberToken(src, s);
        assert t.end > s;
      } else {
        assert t == Token(Invalid, s, s);
      }
    }
  }

  /** `next` skips exactly the white space before the token; it returns `Eof` iff only white space remains. */
  lemma NextTokenSkipsSpace(src: string, pos: nat)
    requires pos <= |src|
    ensures forall k :: pos <= k < NextToken(src, pos).start ==> IsSpace(src[k])
    ensures NextToken(src, pos).start < |src| ==> !IsSpace(src[NextToken(src, pos).start])
    ensures NextToken(src, pos).kind == Eof <==> forall k :: pos <= k < |src| ==> IsSpace(src[k])
  {
    var s := RunEnd(src, pos, Blank);
    RunEndMaximal(src, pos, Blank);
    TokenAtClassified(src, s);
    if s < |src| {
      assert !IsSpace(src[s]);
    }
  }

  /**
   * Maximal munch: a token that begins with a letter or `_` covers the whole
   * run of letters, digits and `_`, and is a keyword exactly when that whole
   * run is one.
   */
  lemma IdentifierMaximalMunch(src: string, s: nat)
    requires s < |src| && (IsAlpha(src[s]) || src[s] == '_')
    ensures var t := TokenAt(src, s);
      && t.end > s
      && (forall k :: s <= k < t.end ==> IsIdentChar(src[k]))
      && (t.end < |src| ==> !IsIdentChar(src[t.end]))
      && t.kind == WordKind(src[s..t.end])
  {
    RunEndMaximal(src, s, IdentPart);
    assert SingleCharKind(src[s]).None? && OperatorAt(src, s).None?;
    assert src[s] != '"' && src[s] != '\'';
    var e := RunEnd(src, s, IdentPart);
    var w := src[s..e];
    var t := TokenAt(src, s);
    assert t == Token(WordKind(w), s, e);
    assert t.kind == WordKind(src[s..t.end]);
  }

  /** The operators of two characters, by their two characters. */
  function TwoCharOperator(c1: char, c2: char): Option<TokenKind> {
    match (c1, c2)
    case ('+', '=') => Some(PlusEq)
    case ('+', '+') => Some(PlusPlus)
    case ('-', '>') => Some(Arrow)
    case ('-', '=') => Some(MinusEq)
    case ('*', '=') => Some(StarEq)
    case ('/', '=') => Some(SlashEq)
    case ('%', '=') => Some(PercentEq)
    case ('<', '=') => Some(LtEq)
    case ('>', '=') => Some(GtEq)
    case ('=', '>') => Some(FatArrow)
    case ('=', '=') => Some(EqEq)
    case ('!', '=') => Some(BangEq)
    case _ => None
  }

  /** The operators of one character that may begin a longer one. */
  function OneCharOperator(c: char): Option<TokenKind> {
    match c
    case '+' => Some(Plus)
    case '-' => Some(Minus)
    case '*' => Some(Star)
    case '/' => Some(Slash)
    case '%' => Some(Percent)
    case '<' => Some(Lt)
    case '>' => Some(Gt)
    case '=' => Some(Eq)
    case '!' => Some(Bang)
    case _ => None
  }

  /**
   * Longest match: where a two-character operator matches it is taken.
   */
  lemma OperatorLongestMatch(src: string, s: nat)
    requires s + 1 < |src| && TwoCharOperator(src[s], src[s + 1]).Some?
    ensures OperatorAt(src, s) == Some((TwoCharOperator(src[s], src[s + 1]).value, 2))
  {
    assert src[s..s + 2] == [src[s], src[s + 1]];
  }

  /**
   * Only where no two-character operator matches (or the text ends) is the
   * one-character operator taken.
   */
  lemma OperatorShortMatch(src: string, s: nat)
    requires s < |src|
    requires !(s + 1 < |src| && TwoCharOperator(src[s], src[s + 1]).Some?)
    ensures OperatorAt(src, s) == if OneCharOperator(src[s]).Some? then Some((OneCharOperator(src[s]).value, 1)) else None
  {
    if s + 1 < |src| {
      assert src[s..s + 2] == [src[s], src[s + 1]];
    }
  }

  /** The brackets' lexemes. */
  lemma BracketLexeme(c: char)
    requires c in "()[]{}"
    ensures SingleCharKind(c).Some? && Lexeme(SingleCharKind(c).value) == [c]
  {
    match c
    case '(' => assert Lexeme(LParen) == "(";
    case ')' => assert Lexeme(RParen) == ")";
    case '[' => assert Lexeme(LBracket) == "[";
    case ']' => assert Lexeme(RBracket) == "]";
    case '{' => assert Lexeme(LBrace) == "{";
    case '}' => assert Lexeme(RBrace) == "}";
  }

  /** The separators' lexemes. */
  lemma SeparatorLexeme(c: char)
    requires c in ".:;,?#"
    ensures SingleCharKind(c).Some? && Lexeme(SingleCharKind(c).value) == [c]
  {
    match c
    case '.' => assert Lexeme(Dot) == ".";
    case ':' => assert Lexeme(Colon) == ":";
    case ';' => assert Lexeme(Semi) == ";";
    case ',' => assert Lexeme(Comma) == ",";
    case '?' => assert Lexeme(Question) == "?";
    case '#' => assert Lexeme(Hash) == "#";
  }

  /** The other one-character symbols' lexemes. */
  lemma SymbolLexeme(c: char)
    requires c in "~|\\&^$@"
    ensures SingleCharKind(c).Some? && Lexeme(SingleCharKind(c).value) == [c]
  {
    match c
    case '~' => assert Lexeme(Tilde) == "~";
    case '|' => assert Lexeme(Pipe) == "|";
    case '\\' => assert Lexeme(Backslash) == "\\";
    case '&' => assert Lexeme(Ampersand) == "&";
    case '^' => assert Lexeme(Caret) == "^";
    case '$' => assert Lexeme(Dollar) == "$";
    case '@' => assert Lexeme(At) == "@";
  }

  /** The lexeme of each one-character token is the character the lexer reads it from. */
  lemma PunctuationLexeme(c: char)
    requires SingleCharKind(c).Some?
    ensures Lexeme(SingleCharKind(c).value) == [c]
  {
    if c in "()[]{}" {
      BracketLexeme(c);
    } else if c in ".:;,?#" {
      SeparatorLexeme(c);
    } else {
      SymbolLexeme(c);
    }
  }

  /** Lexing a one-character token's lexeme gives back that token. */
  lemma PunctuationLexesBack(c: char)
    requires SingleCharKind(c).Some?
    ensures TokenAt(Lexeme(SingleCharKind(c).value), 0) == Token(SingleCharKind(c).value, 0, 1)
  {
    PunctuationLexeme(c);
  }

  /** The lexeme of each one-character operator is the character the lexer reads it from. */
  lemma ShortOperatorLexeme(c: char)
    requires OneCharOperator(c).Some?
    ensures Lexeme(OneCharOperator(c).value) == [c]
  {
    match c
    case '+' => assert Lexeme(Plus) == "+";
    case '-' => assert Lexeme(Minus) == "-";
    case '*' => assert Lexeme(Star) == "*";
    case '/' => assert Lexeme(Slash) == "/";
    case '%' => assert Lexeme(Percent) == "%";
    case '<' => assert Lexeme(Lt) == "<";
    case '>' => assert Lexeme(Gt) == ">";
    case '=' => assert Lexeme(Eq) == "=";
    case '!' => assert Lexeme(Bang) == "!";
  }

  /** Lexing a one-character operator's lexeme alone gives back that operator. */
  lemma ShortOperatorLexesBack(c: char)
    requires OneCharOperator(c).Some?
    ensures TokenAt(Lexeme(OneCharOperator(c).value), 0) == Token(OneCharOperator(c).value, 0, 1)
  {
    ShortOperatorLexeme(c);
    OperatorShortMatch([c], 0);
  }

  /** The lexeme of each two-character operator is the two characters the lexer reads it from. */
  lemma OperatorLexeme(c1: char, c2: char)
    requires TwoCharOperator(c1, c2).Some?
    ensures Lexeme(TwoCharOperator(c1, c2).value) == [c1, c2]
  {
    match (c1, c2)
    case ('+', '=') => assert Lexeme(PlusEq) == "+=";
    case ('+', '+') => assert Lexeme(PlusPlus) == "++";
    case ('-', '>') => assert Lexeme(Arrow) == "->";
    case ('-', '=') => assert Lexeme(MinusEq) == "-=";
    case ('*', '=') => assert Lexeme(StarEq) == "*=";
    case ('/', '=') => assert Lexeme(SlashEq) == "/=";
    case ('%', '=') => assert Lexeme(PercentEq) == "%=";
    case ('<', '=') => assert Lexeme(LtEq) == "<=";
    case ('>', '=') => assert Lexeme(GtEq) == ">=";
    case ('=', '>') => assert Lexeme(FatArrow) == "=>";
    case ('=', '=') => assert Lexeme(EqEq) == "==";
    case ('!', '=') => assert Lexeme(BangEq) == "!=";
  }

  /** Lexing a two-character operator's lexeme gives back that operator, with both characters. */
  lemma OperatorLexesBack(c1: char, c2: char)
    requires TwoCharOperator(c1, c2).Some?
    ensures TokenAt(Lexeme(TwoCharOperator(c1, c2).value), 0) == Token(TwoCharOperator(c1, c2).value, 0, 2)
  {
    OperatorLexeme(c1, c2);
    OperatorLongestMatch([c1, c2], 0);
  }

  /**
   * Number classification: the kind is decided by a `0b`, `0o` or `0x`
   * prefix, else by a `.` after the digits and an `e` after the fraction;
   * a based integer covers the maximal run of its digits after the prefix,
   * a plain integer the maximal run of decimal digits.
   */
  lemma NumberClassification(src: string, s: nat)
    requires s < |src|
    ensures var t := NumberToken(src, s);
      var based := src[s] == '0' && s + 1 < |src|;
      var d := RunEnd(src, s, DecDigit);
      && (t.kind == IntBin <==> based && src[s + 1] in "bB")
      && (t.kind == IntOct <==> based && src[s + 1] in "oO")
      && (t.kind == IntHex <==> based && src[s + 1] in "xX")
      && (t.kind in {Int, Real, RealSci} <==> !(based && src[s + 1] in "bBoOxX"))
      && (t.kind == Int ==> t.end == d && (d == |src| || src[d] != '.'))
      && (t.kind in {Real, RealSci} ==> d < |src| && src[d] == '.')
      && (t.kind == RealSci <==>
            (t.kind in {Real, RealSci} && var f := RunEnd(src, d + 1, DecDigit); f < |src| && src[f] in "eE"))
  {
  }

  /** The digits of a based integer: every character after the prefix is a digit of the base, and the run is maximal. */
  lemma BasedDigits(src: string, s: nat, cls: CharClass)
    requires s + 1 < |src| && src[s] == '0'
    requires cls == (if src[s + 1] in "bB" then BinDigit else if src[s + 1] in "oO" then OctDigit else HexDigit)
    requires src[s + 1] in "bBoOxX"
    ensures var t := NumberToken(src, s);
      && t.end == RunEnd(src, s + 2, cls)
      && (forall k :: s + 2 <= k < t.end ==> InClass(src[k], cls))
      && (t.end < |src| ==> !InClass(src[t.end], cls))
  {
    RunEndMaximal(src, s + 2, cls);
  }

  /**
   * A string literal runs from its opening quote to just after the first
   * closing quote that is not escaped; the token text then ends with that
   * quote. An unterminated literal runs to the end of the text.
   */
  lemma StringLiteralShape(src: string, s: nat)
    requires s < |src|
    ensures var b := StringBodyEnd(src, s + 1); var e := StringEnd(src, s);
      && (b < |src| ==> e == b + 1 && src[e - 1] == '"' && e - 1 > s)
      && (b == |src| ==> e == |src|)
  {
  }

  /** An escaped byte is never the closing quote: the body scan passes `\` and the byte after it together. */
  lemma StringEscapeSkipped(src: string, i: nat)
    requires i + 1 < |src| && src[i] == '\\'
    ensures StringBodyEnd(src, i) == StringBodyEnd(src, i + 2)
    ensures StringBodyEnd(src, i) >= i + 2
  {
  }

  /** The test literal `"hello world"` is one token of 13 bytes. */
  lemma HelloWorldLiteral()
    ensures StringEnd("\"hello world\"", 0) == 13
  {
    var src := "\"hello world\"";
    assert forall k :: 1 <= k < 12 ==> src[k] != '"' && src[k] != '\\';
    assert StringBodyEnd(src, 12) == 12;
    StringBodyEndPlain(src, 1, 12);
  }

  /** Over a stretch with no quote and no backslash, the body scan moves on one byte at a time. */
  lemma {:induction false} StringBodyEndPlain(src: string, i: nat, j: nat)
    requires i <= j <= |src|
    requires forall k :: i <= k < j ==> src[k] != '"' && src[k] != '\\'
    ensures StringBodyEnd(src, i) == StringBodyEnd(src, j)
    decreases j - i
  {
    if i < j {
      StringBodyEndPlain(src, i + 1, j);
    }
  }

  /**
   * `recognize_char` as written runs past the end of the text when the
   * quote is the last byte, or when a backslash follows it as the last byte;
   * the corrected scan stops at the end.
   */
  lemma CharOverrunCounterexample()
    ensures CharEndAsWritten("'", 0) == 2 && 2 > |"'"|
    ensures CharEndAsWritten("'\\", 0) == 3 && 3 > |"'\\"|
    ensures CharEnd("'", 0) == 1 && CharEnd("'\\", 0) == 2
  {
  }

  /** Where the as-written scan stays inside the text, the corrected one agrees with it. */
  lemma CharEndAgrees(src: string, s: nat)
    requires s < |src|
    requires CharEndAsWritten(src, s) <= |src|
    ensures CharEnd(src, s) == CharEndAsWritten(src, s)
  {
  }

  /** The character literal `'a'` is one token of three bytes, `'\n'` one of four. */
  lemma CharLiteralExamples()
    ensures CharEnd("'a'", 0) == 3
    ensures CharEnd("'\\n'", 0) == 4
  {
  }

  // ---------------------------------------------------------------------
  // The lexer object
  // ---------------------------------------------------------------------

  /** A lexer over a fixed text with a cursor that only moves forward. */
  class Lexer {
    const src: string
    var cursor: nat

    ghost predicate Valid()
      reads this
    {
      cursor <= |src|
    }

    constructor (src: string)
      ensures this.src == src && cursor == 0 && Valid()
    {
      this.src := src;
      cursor := 0;
    }

    /** `current_char`: the character under the cursor, none at the end. */
    function CurrentChar(): (r: Option<char>)
      reads this
      requires Valid()
      ensures r.Some? <==> cursor < |src|
      ensures r.Some? ==> r.value == src[cursor]
    {
      if cursor < |src| then Some(src[cursor]) else None
    }

    /** `peek`: the text at the cursor begins with `str`. */
    function Peek(str: string): (b: bool)
      reads this
      requires Valid()
      ensures b == StartsWith(src, cursor, str)
      ensures b ==> cursor + |str| <= |src|
    {
      if cursor + |str| > |src| then false else src[cursor..cursor + |str|] == str
    }

    /** One of the skipping loops: advance over the run of class `cls`. */
    method SkipRun(cls: CharClass)
      requires Valid()
      modifies this
      ensures Valid() && cursor == RunEnd(src, old(cursor), cls)
    {
      while cursor < |src| && InClass(src[cursor], cls)
        invariant old(cursor) <= cursor <= |src|
        invariant RunEnd(src, cursor, cls) == RunEnd(src, old(cursor), cls)
        decreases |src| - cursor
      {
        cursor := cursor + 1;
      }
    }

    /** `recognize_identifier`: the maximal run of letters, digits and `_`, as a keyword or `Id`. */
    method RecognizeIdentifier() returns (tok: Token)
      requires Valid()
      modifies this
      ensures Valid()
      ensures var e := RunEnd(src, old(cursor), IdentPart);
        tok == Token(WordKind(src[old(cursor)..e]), old(cursor), e) && cursor == e
    {
      var start := cursor;
      SkipRun(IdentPart);
      var end := cursor;
      var ident := src[start..end];
      var keyword := IsKeyword(ident);
      if keyword.Some? {
        return Token(keyword.value, start, end);
      }
      return Token(Id, start, end);
    }

    /** `recognize_string_literal`: from the opening quote to after the closing one. */
    method RecognizeStringLiteral() returns (tok: Token)
      requires Valid() && cursor < |src|
      modifies this
      ensures Valid()
      ensures tok == Token(Str, old(cursor), StringEnd(src, old(cursor))) && cursor == tok.end
    {
      var start := cursor;
      cursor := cursor + 1;
      while cursor < |src| && src[cursor] != '"'
        invariant start < cursor <= |src|
        invariant StringBodyEnd(src, cursor) == StringBodyEnd(src, start + 1)
        decreases |src| - cursor
      {
        if src[cursor] == '\\' && cursor + 1 < |src| {
          cursor := cursor + 2;
        } else {
          cursor := cursor + 1;
        }
      }
      if cursor < |src| {
        cursor := cursor + 1;
      }
      return Token(Str, start, cursor);
    }

    /** `recognize_number`. */
    method RecognizeNumber() returns (tok: Token)
      requires Valid() && cursor < |src|
      modifies this
      ensures Valid()
      ensures tok == NumberToken(src, old(cursor)) && cursor == tok.end
    {
      var start := cursor;
      if src[cursor] == '0' && cursor + 1 < |src| && (src[cursor + 1] == 'b' || src[cursor + 1] == 'B') {
        cursor := cursor + 2;
        SkipRun(BinDigit);
        return Token(IntBin, start, cursor);
      }
      if src[cursor] == '0' && cursor + 1 < |src| && (src[cursor + 1] == 'o' || src[cursor + 1] == 'O') {
        cursor := cursor + 2;
        SkipRun(OctDigit);
        return Token(IntOct, start, cursor);
      }
      if src[cursor] == '0' && cursor + 1 < |src| && (src[cursor + 1] == 'x' || src[cursor + 1] == 'X') {
        cursor := cursor + 2;
        SkipRun(HexDigit);
        return Token(IntHex, start, cursor);
      }
      tok := RecognizeDecimal();
    }

    /** The digits, fraction and exponent of a number without a base prefix. */
    method RecognizeDecimal() returns (tok: Token)
      requires Valid()
      modifies this
      ensures Valid()
      ensures tok == DecimalToken(src, old(cursor)) && cursor == tok.end
    {
      var start := cursor;
      SkipRun(DecDigit);
      if cursor < |src| && src[cursor] == '.' {
        cursor := cursor + 1;
        SkipRun(DecDigit);
        if cursor < |src| && (src[cursor] == 'e' || src[cursor] == 'E') {
          cursor := cursor + 1;
          if cursor < |src| && (src[cursor] == '+' || src[cursor] == '-') {
            cursor := cursor + 1;
          }
          SkipRun(DecDigit);
          return Token(RealSci, start, cursor);
        }
        return Token(Real, start, cursor);
      }
      return Token(Int, start, cursor);
    }

    /** `recognize_char`, with each step kept inside the text. */
    method RecognizeChar() returns (tok: Token)
      requires Valid() && cursor < |src|
      modifies this
      ensures Valid()
      ensures tok == Token(Char, old(cursor), CharEnd(src, old(cursor))) && cursor == tok.end
    {
      var start := cursor;
      cursor := cursor + 1;
      if cursor < |src| && src[cursor] == '\\' {
        cursor := Min(cursor + 2, |src|);
      } else {
        cursor := Min(cursor + 1, |src|);
      }
      if cursor < |src| && src[cursor] == '\'' {
        cursor := cursor + 1;
      }
      return Token(Char, start, cursor);
    }

    /** `next`: skip white space, then read one token and move the cursor to its end. */
    method Next() returns (tok: Token)
      requires Valid()
      modifies this
      ensures Valid()
      ensures tok == NextToken(src, old(cursor)) && cursor == tok.end
    {
      SkipRun(Blank);
      var ch := CurrentChar();
      if ch.None? {
        return Token(Eof, cursor, cursor);
      }
      var c := ch.value;
      var single := SingleCharKind(c);
      if single.Some? {
        tok := Token(single.value, cursor, cursor + 1);
      } else if c == '+' {
        if Peek("+=") {
          tok := Token(PlusEq, cursor, cursor + 2);
        } else if Peek("++") {
          tok := Token(PlusPlus, cursor, cursor + 2);
        } else {
          tok := Token(Plus, cursor, cursor + 1);
        }
      } else if c == '-' {
        if Peek("->") {
          tok := Token(Arrow, cursor, cursor + 2);
        } else if Peek("-=") {
          tok := Token(MinusEq, cursor, cursor + 2);
        } else {
          tok := Token(Minus, cursor, cursor + 1);
        }
      } else if c == '*' {
        tok := if Peek("*=") then Token(StarEq, cursor, cursor + 2) else Token(Star, cursor, cursor + 1);
      } else if c == '/' {
        tok := if Peek("/=") then Token(SlashEq, cursor, cursor + 2) else Token(Slash, cursor, cursor + 1);
      } else if c == '%' {
        tok := if Peek("%=") then Token(PercentEq, cursor, cursor + 2) else Token(Percent, cursor, cursor + 1);
      } else if c == '<' {
        tok := if Peek("<=") then Token(LtEq, cursor, cursor + 2) else Token(Lt, cursor, cursor + 1);
      } else if c == '>' {
        tok := if Peek(">=") then Token(GtEq, cursor, cursor + 2) else Token(Gt, cursor, cursor + 1);
      } else if c == '=' {
        if Peek("=>") {
          tok := Token(FatArrow, cursor, cursor + 2);
        } else if Peek("==") {
          tok := Token(EqEq, cursor, cursor + 2);
        } else {
          tok := Token(Eq, cursor, cursor + 1);
        }
      } else if c == '!' {
        tok := if Peek("!=") then Token(BangEq, cursor, cursor + 2) else Token(Bang, cursor, cursor + 1);
      } else if c == '"' {
        tok := RecognizeStringLiteral();
        return;
      } else if c == '\'' {
        tok := RecognizeChar();
        return;
      } else if IsAlpha(c) || c == '_' {
        tok := RecognizeIdentifier();
        return;
      } else if IsDigitChar(c) {
        tok := RecognizeNumber();
        return;
      } else {
        tok := Token(Invalid, cursor, cursor);
      }
      cursor := tok.end;
    }
  }
}
