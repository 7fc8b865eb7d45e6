/**
 * The hand-written lexer: an index `idx` into the input text is advanced by
 * scanning loops, and `Lex` collects the tokens, starting with one indentation
 * (or comment) token and ending with EOF.
 *
 * The input is ASCII, so a character position and a byte position coincide and
 * the character classes are the ASCII ones.
 */
module Lexing {

  import opened Wrappers
  import opened Tokens
  import Format

  const RAN_OUT: string := "Ran out of characters while in _lex"
  const RAN_OUT_AFTER_MINUS: string := "Ran out of characters while in lex"
  const FALLTHROUGH: string := "Fallthrough in lexer function: "

  predicate IsAscii(s: string) {
    forall i :: 0 <= i < |s| ==> s[i] < 128 as char
  }

  predicate IsSpace(c: char) {
    c == ' '
  }

  predicate IsLetter(c: char) {
    'a' <= c <= 'z' || 'A' <= c <= 'Z'
  }

  /** A character that continues a number: a digit or '.'. */
  predicate IsNumberChar(c: char) {
    Format.IsDigit(c) || c == '.'
  }

  /** A character that continues a word: a letter, a digit or '_'. */
  predicate IsWordChar(c: char) {
    IsLetter(c) || Format.IsDigit(c) || c == '_'
  }

  predicate NotNewline(c: char) {
    c != '\n'
  }

  /** The first position at or after `i` whose character does not satisfy `inRun`. */
  function RunEnd(s: string, i: nat, inRun: char -> bool): (e: nat)
    ensures i <= e
    ensures i <= |s| ==> e <= |s|
    ensures e < |s| ==> !inRun(s[e])
    decreases |s| - i
  {
    if i < |s| && inRun(s[i]) then RunEnd(s, i + 1, inRun) else i
  }

  lemma {:induction false} RunEndAll(s: string, i: nat, inRun: char -> bool)
    ensures forall k :: i <= k < RunEnd(s, i, inRun) ==> k < |s| && inRun(s[k])
    decreases |s| - i
  {
    if i < |s| && inRun(s[i]) {
      RunEndAll(s, i + 1, inRun);
    } else {
      assert RunEnd(s, i, inRun) == i;
    }
  }

  /** Where `_skip_whitespace` stops: past the spaces (and only the spaces) at `i`. */
  function SkipSpaces(s: string, i: nat): (j: nat)
    ensures i <= j
    ensures i <= |s| ==> j <= |s|
    ensures j < |s| ==> s[j] != ' '
  {
    RunEnd(s, i, IsSpace)
  }

  /** Whether the text from `i`, with leading white space trimmed, starts with '#'. */
  predicate StartsComment(s: string, i: nat)
    requires i <= |s|
  {
    var j := RunEnd(s, i, Format.IsWhitespace);
    j < |s| && s[j] == '#'
  }

  /**
   * The indentation scan: blank lines reset the count `ind`, spaces add to it,
   * and anything else stops it.  Returns the stopping position and the count.
   */
  function IndentScan(s: string, i: nat, ind: nat): (r: (nat, nat))
    ensures i <= r.0
    ensures r.1 <= ind + (r.0 - i)
    ensures r.0 < |s| ==> s[r.0] != ' ' && s[r.0] != '\n'
    decreases |s| - i
  {
    if i < |s| && s[i] == '\n' then IndentScan(s, i + 1, 0)
    else if i < |s| && s[i] == ' ' then IndentScan(s, i + 1, ind + 1)
    else (i, ind)
  }

  /** The `n` characters just before position `e` are spaces of `s`. */
  predicate SpacesBefore(s: string, e: nat, n: nat) {
    n <= e <= |s| + 1 && (n > 0 ==> e <= |s|) && forall k :: e - n <= k < e ==> s[k] == ' '
  }

  /** The counted spaces end where the scan stops: they are the spaces just before it. */
  lemma {:induction false} IndentScanSpaces(s: string, i: nat, ind: nat)
    requires i <= |s| + 1 && SpacesBefore(s, i, ind)
    ensures SpacesBefore(s, IndentScan(s, i, ind).0, IndentScan(s, i, ind).1)
    decreases |s| - i
  {
    if i < |s| && s[i] == '\n' {
      IndentScanSpaces(s, i + 1, 0);
    } else if i < |s| && s[i] == ' ' {
      IndentScanSpaces(s, i + 1, ind + 1);
    } else {
      assert IndentScan(s, i, ind) == (i, ind);
    }
  }

  /**
   * `_lex_indent` at position `i`: a comment when the trimmed rest starts with
   * '#' (the span runs from the first non-space to the end of the line),
   * otherwise one character is consumed and the spaces of the following
   * non-blank line are counted.  Returns the token and the new position.
   */
  function IndentToken(s: string, i: nat): (r: (Token, nat))
    requires i <= |s|
    ensures i <= r.1
    ensures r.0.ty == Comment || r.0.ty == Indentation
  {
    if StartsComment(s, i) then
      var j := SkipSpaces(s, i);
      var e := RunEnd(s, j, NotNewline);
      (Token(Comment, Span(j, e)), e)
    else
      var p := IndentScan(s, i + 1, 0);
      (Token(Indentation, Span(p.0 - p.1, p.0)), p.0)
  }

  /** The token type of a one-character token, if `c` starts one. */
  function SingleCharType(c: char): (t: Option<TokenType>)
    ensures t.Some? <==> c in "+*/:,()"
  {
    match c
    case '+' => Some(Plus)
    case '*' => Some(Asterisk)
    case '/' => Some(Solidus)
    case ':' => Some(Colon)
    case ',' => Some(Comma)
    case '(' => Some(LeftParenthesis)
    case ')' => Some(RightParenthesis)
    case _ => None
  }

  /** The token type of a word: the two keywords, or an identifier. */
  function WordType(w: string): (t: TokenType)
    ensures t == Return <==> w == "return"
    ensures t == Defn <==> w == "defn"
    ensures t == Return || t == Defn || t == Identifier
  {
    if w == "return" then Return else if w == "defn" then Defn else Identifier
  }

  /**
   * `_lex` at position `i`: skip spaces, then dispatch on the character found.
   * Returns the token (or the error) and the new position.
   */
  function NextToken(s: string, i: nat): (r: (Result<Token>, nat))
    ensures r.0.Ok? ==> i < r.1
  {
    var j := SkipSpaces(s, i);
    if j >= |s| then (Err(RAN_OUT), j)
    else
      var c := s[j];
      if c == '\n' then
        var t := IndentToken(s, j + 1);
        (Ok(t.0), t.1)
      else if SingleCharType(c).Some? then
        (Ok(Token(SingleCharType(c).value, Span(j, j + 1))), j + 1)
      else if c == '-' then
        if j + 1 >= |s| then (Err(RAN_OUT_AFTER_MINUS), j + 1)
        else if s[j + 1] == '>' then (Ok(Token(ThinArrow, Span(j, j + 2))), j + 2)
        else (Ok(Token(Minus, Span(j, j + 1))), j + 1)
      else if Format.IsDigit(c) then
        var e := RunEnd(s, j, IsNumberChar);
        (Ok(Token(Number, Span(j, e))), e)
      else if IsLetter(c) then
        var e := RunEnd(s, j, IsWordChar);
        (Ok(Token(WordType(s[j..e]), Span(j, e))), e)
      else
        (Err(FALLTHROUGH + "<" + [c] + ">"), j)
  }

  /** The tokens `lex` collects from position `i` on, after those already in `toks`. */
  function LexedFrom(s: string, i: nat, toks: seq<Token>): (r: Result<seq<Token>>)
    decreases if i < |s| then |s| - i else 0
  {
    if i >= |s| then Ok(toks + [Token(EOF, Span(|s|, |s|))])
    else
      var n := NextToken(s, i);
      if n.0.Err? then Err(n.0.error) else LexedFrom(s, n.1, toks + [n.0.value])
  }

  /** `lex`: one indentation or comment token, the tokens up to the end, then EOF. */
  function Lexed(s: string): Result<seq<Token>> {
    var t := IndentToken(s, 0);
    LexedFrom(s, t.1, [t.0])
  }

  /** The token types the lexer never produces. */
  predicate IsTypeKeyword(ty: TokenType) {
    ty == Integer || ty == Floating || ty == Moot
  }

  /** The positions of span `sp` are all in `s` and satisfy `inRun`. */
  predicate SpanAll(s: string, sp: Span, inRun: char -> bool) {
    sp.start <= sp.end <= |s| && forall k :: sp.start <= k < sp.end ==> inRun(s[k])
  }

  /** Span `sp` ends where the run it covers ends. */
  predicate EndsRun(s: string, sp: Span, inRun: char -> bool) {
    sp.end < |s| ==> !inRun(s[sp.end])
  }

  /**
   * What a token's text must look like, by its type: the meaning of each token
   * independent of how the lexer finds it.
   */
  predicate Classified(s: string, t: Token) {
    var sp := t.span;
    match t.ty
    case Indentation =>
      sp.start <= sp.end && (sp.start < sp.end ==> SpanAll(s, sp, IsSpace))
    case Comment =>
      SpanAll(s, sp, NotNewline) && EndsRun(s, sp, NotNewline)
    case Number =>
      sp.start < sp.end && SpanAll(s, sp, IsNumberChar) && EndsRun(s, sp, IsNumberChar)
      && Format.IsDigit(s[sp.start])
    case Identifier | Return | Defn =>
      sp.start < sp.end && SpanAll(s, sp, IsWordChar) && EndsRun(s, sp, IsWordChar)
      && IsLetter(s[sp.start]) && t.ty == WordType(s[sp.start..sp.end])
    case ThinArrow =>
      sp.end == sp.start + 2 <= |s| && s[sp.start] == '-' && s[sp.start + 1] == '>'
    case Minus =>
      sp.end == sp.start + 1 < |s| && s[sp.start] == '-' && s[sp.end] != '>'
    case Plus | Asterisk | Solidus | Colon | Comma | LeftParenthesis | RightParenthesis =>
      sp.end == sp.start + 1 <= |s| && SingleCharType(s[sp.start]) == Some(t.ty)
    case EOF =>
      sp.start == sp.end == |s|
    case Integer | Floating | Moot =>
      false
  }

  lemma IndentTokenClassified(s: string, i: nat)
    requires i <= |s|
    ensures Classified(s, IndentToken(s, i).0)
  {
    if StartsComment(s, i) {
      var j := SkipSpaces(s, i);
      RunEndAll(s, j, NotNewline);
    } else {
      IndentScanSpaces(s, i + 1, 0);
    }
  }

  /** The punctuation tokens `_lex` returns have the text their types promise. */
  lemma PunctuationClassified(s: string, i: nat)
    requires NextToken(s, i).0.Ok?
    requires s[SkipSpaces(s, i)] in "+*/:,()-"
    ensures Classified(s, NextToken(s, i).0.value)
  {
  }

  /** The number and word tokens `_lex` returns cover maximal runs. */
  lemma RunClassified(s: string, i: nat)
    requires NextToken(s, i).0.Ok?
    requires Format.IsDigit(s[SkipSpaces(s, i)]) || IsLetter(s[SkipSpaces(s, i)])
    ensures Classified(s, NextToken(s, i).0.value)
  {
    var j := SkipSpaces(s, i);
    if Format.IsDigit(s[j]) {
      RunEndAll(s, j, IsNumberChar);
    } else {
      RunEndAll(s, j, IsWordChar);
    }
  }

  /** Every token `_lex` returns has the text its type promises. */
  lemma NextTokenClassified(s: string, i: nat)
    requires NextToken(s, i).0.Ok?
    ensures Classified(s, NextToken(s, i).0.value)
  {
    var j := SkipSpaces(s, i);
    var c := s[j];
    if c == '\n' {
      IndentTokenClassified(s, j + 1);
    } else if c in "+*/:,()-" {
      PunctuationClassified(s, i);
    } else {
      RunClassified(s, i);
    }
  }

  /** One-character tokens: each of `+ * / : , ( )` after spaces is a span of length one. */
  lemma SingleCharToken(s: string, i: nat)
    requires SkipSpaces(s, i) < |s| && s[SkipSpaces(s, i)] in "+*/:,()"
    ensures var j := SkipSpaces(s, i);
      NextToken(s, i) == (Ok(Token(SingleCharType(s[j]).value, Span(j, j + 1))), j + 1)
  {
  }

  /** '-' is ThinArrow when '>' follows, Minus otherwise, and an error as the last character. */
  lemma MinusToken(s: string, i: nat)
    requires SkipSpaces(s, i) < |s| && s[SkipSpaces(s, i)] == '-'
    ensures var j := SkipSpaces(s, i);
      var r := NextToken(s, i);
      && (j + 1 == |s| ==> r.0 == Err(RAN_OUT_AFTER_MINUS))
      && (j + 1 < |s| && s[j + 1] == '>' ==> r.0 == Ok(Token(ThinArrow, Span(j, j + 2))))
      && (j + 1 < |s| && s[j + 1] != '>' ==> r.0 == Ok(Token(Minus, Span(j, j + 1))))
  {
  }

  /** Only spaces are skipped: any character that starts no token is an error naming it. */
  lemma FallthroughToken(s: string, i: nat)
    requires var j := SkipSpaces(s, i);
      j < |s| && s[j] != '\n' && s[j] != '-' && s[j] !in "+*/:,()"
      && !Format.IsDigit(s[j]) && !IsLetter(s[j])
    ensures var j := SkipSpaces(s, i);
      NextToken(s, i).0 == Err(FALLTHROUGH + "<" + [s[j]] + ">")
  {
  }

  /** The tokens collected from `i` on keep those already collected and end with EOF. */
  lemma {:induction false} LexedFromShape(s: string, i: nat, toks: seq<Token>)
    requires LexedFrom(s, i, toks).Ok?
    ensures var r := LexedFrom(s, i, toks).value;
      |r| > |toks| && r[..|toks|] == toks && r[|r| - 1] == Token(EOF, Span(|s|, |s|))
    decreases if i < |s| then |s| - i else 0
  {
    if i < |s| {
      var n := NextToken(s, i);
      LexedFromShape(s, n.1, toks + [n.0.value]);
      var r := LexedFrom(s, n.1, toks + [n.0.value]).value;
      assert r[..|toks| + 1][..|toks|] == r[..|toks|];
    }
  }

  /** Every token collected from `i` on has the text its type promises. */
  lemma {:induction false} LexedFromClassified(s: string, i: nat, toks: seq<Token>)
    requires LexedFrom(s, i, toks).Ok?
    ensures var r := LexedFrom(s, i, toks).value;
      forall k :: |toks| <= k < |r| ==> Classified(s, r[k])
    decreases if i < |s| then |s| - i else 0
  {
    if i < |s| {
      var n := NextToken(s, i);
      var toks' := toks + [n.0.value];
      NextTokenClassified(s, i);
      LexedFromShape(s, n.1, toks');
      LexedFromClassified(s, n.1, toks');
      var r := LexedFrom(s, n.1, toks').value;
      forall k | |toks| <= k < |r|
        ensures Classified(s, r[k])
      {
        if k == |toks| {
          assert r[k] == r[..|toks'|][k] == n.0.value;
        }
      }
    } else {
      assert LexedFrom(s, i, toks).value == toks + [Token(EOF, Span(|s|, |s|))];
    }
  }

  /** Every token of a successful `lex` has the text its type promises. */
  lemma LexedClassified(s: string)
    requires Lexed(s).Ok?
    ensures forall t :: t in Lexed(s).value ==> Classified(s, t)
  {
    var t := IndentToken(s, 0);
    IndentTokenClassified(s, 0);
    LexedFromShape(s, t.1, [t.0]);
    LexedFromClassified(s, t.1, [t.0]);
    var r := Lexed(s).value;
    forall k | 0 <= k < |r|
      ensures Classified(s, r[k])
    {
      if k == 0 {
        assert r[0] == r[..1][0];
      }
    }
  }

  /**
   * `lex` succeeds with a first token from `_lex_indent` (Indentation or
   * Comment) and a last token EOF spanning `[len, len]`; no Integer, Floating
   * or Moot token is ever produced.
   */
  lemma LexedShape(s: string)
    requires Lexed(s).Ok?
    ensures var r := Lexed(s).value;
      && |r| >= 2
      && (r[0].ty == Indentation || r[0].ty == Comment)
      && r[|r| - 1] == Token(EOF, Span(|s|, |s|))
      && (forall t :: t in r ==> !IsTypeKeyword(t.ty))
  {
    var t := IndentToken(s, 0);
    LexedFromShape(s, t.1, [t.0]);
    LexedClassified(s);
    var r := Lexed(s).value;
    assert r[0] == r[..1][0];
  }

  /*
   * `_lex_indent` consumes one character before counting spaces, although `_lex`
   * has already consumed the '\n' in front of it and `lex` calls it at the very
   * start of the input.  So an unindented first line loses its first character
   * and every indentation after a newline is counted one short.
   */

  /** On the one-character input "x", `lex` yields no token for 'x' at all. */
  lemma IndentDropsCharacter()
    ensures Lexed("x") == Ok([Token(Indentation, Span(1, 1)), Token(EOF, Span(1, 1))])
  {
    assert RunEnd("x", 0, Format.IsWhitespace) == 0;
    assert IndentScan("x", 1, 0) == (1, 0);
    assert IndentToken("x", 0) == (Token(Indentation, Span(1, 1)), 1);
    var first := Token(Indentation, Span(1, 1));
    assert |"x"| == 1;
    assert LexedFrom("x", 1, [first]) == Ok([first] + [Token(EOF, Span(1, 1))]);
    assert [first] + [Token(EOF, Span(1, 1))] == [first, Token(EOF, Span(1, 1))];
  }

  /** After the '\n' of "a\n  b", `_lex_indent` counts one of the two spaces. */
  lemma IndentUndercounts()
    ensures IndentToken("a\n  b", 2) == (Token(Indentation, Span(3, 4)), 4)
  {
    var s := "a\n  b";
    assert RunEnd(s, 2, Format.IsWhitespace) == 4;
    assert IndentScan(s, 3, 0) == (4, 1);
  }

  /** `_lex_indent` as evidently intended: the count starts at `i` itself. */
  function IndentTokenIntended(s: string, i: nat): (r: (Token, nat))
    requires i <= |s|
    ensures i <= r.1
    ensures r.0.ty == Comment || r.0.ty == Indentation
  {
    if StartsComment(s, i) then IndentToken(s, i)
    else
      var p := IndentScan(s, i, 0);
      (Token(Indentation, Span(p.0 - p.1, p.0)), p.0)
  }

  /** The counted spaces begin at the start position `i0` or just after a newline. */
  predicate StartsLine(s: string, i0: nat, p: nat) {
    p == i0 || (0 < p <= |s| && s[p - 1] == '\n')
  }

  /** The scan passes only spaces and newlines, and its count starts a line. */
  lemma {:induction false} IndentScanBlank(s: string, i0: nat, i: nat, ind: nat)
    requires i0 <= i <= |s| && ind <= i - i0 && StartsLine(s, i0, i - ind)
    requires forall k :: i0 <= k < i ==> s[k] == ' ' || s[k] == '\n'
    ensures var r := IndentScan(s, i, ind);
      r.0 <= |s| && r.1 <= r.0 - i0 && StartsLine(s, i0, r.0 - r.1)
      && forall k :: i0 <= k < r.0 ==> s[k] == ' ' || s[k] == '\n'
    decreases |s| - i
  {
    if i < |s| && s[i] == '\n' {
      IndentScanBlank(s, i0, i + 1, 0);
    } else if i < |s| && s[i] == ' ' {
      IndentScanBlank(s, i0, i + 1, ind + 1);
    } else {
      assert IndentScan(s, i, ind) == (i, ind);
    }
  }

  /**
   * The intended `_lex_indent` consumes only blank characters, and its token
   * covers exactly the spaces that open the first non-blank line.
   */
  lemma IndentIntendedCountsLine(s: string, i: nat)
    requires i <= |s| && !StartsComment(s, i)
    ensures var r := IndentTokenIntended(s, i);
      var sp := r.0.span;
      && r.1 <= |s| && (forall k :: i <= k < r.1 ==> s[k] == ' ' || s[k] == '\n')
      && sp.end == r.1 && StartsLine(s, i, sp.start)
      && SpacesBefore(s, sp.end, sp.end - sp.start)
      && (r.1 < |s| ==> s[r.1] != ' ' && s[r.1] != '\n')
  {
    IndentScanBlank(s, i, i, 0);
    IndentScanSpaces(s, i, 0);
  }

  /** The scanner: the input text and the position reached so far. */
  class Lexer {
    const input: string
    var idx: nat

    constructor (input: string)
      requires IsAscii(input)
      ensures this.input == input && idx == 0
    {
      this.input := input;
      idx := 0;
    }

    /** `_skip_whitespace`: advance past the spaces at `idx`. */
    method SkipWhitespace()
      modifies this
      ensures idx == SkipSpaces(input, old(idx))
    {
      while idx < |input| && input[idx] == ' '
        invariant SkipSpaces(input, idx) == SkipSpaces(input, old(idx))
        decreases |input| - idx
      {
        idx := idx + 1;
      }
    }

    /** Advance past the run of characters satisfying `inRun`, returning its length. */
    method AdvanceWhile(inRun: char -> bool) returns (len: nat)
      modifies this
      ensures idx == RunEnd(input, old(idx), inRun)
      ensures len == idx - old(idx)
    {
      len := 0;
      while idx < |input| && inRun(input[idx])
        invariant RunEnd(input, idx, inRun) == RunEnd(input, old(idx), inRun)
        invariant old(idx) <= idx && len == idx - old(idx)
        decreases |input| - idx
      {
        len := len + 1;
        idx := idx + 1;
      }
    }

    /** `_lex_indent`: a comment or an indentation token; it never fails. */
    method LexIndent() returns (t: Token)
      requires idx <= |input|
      modifies this
      ensures (t, idx) == IndentToken(input, old(idx))
    {
      if StartsComment(input, idx) {
        SkipWhitespace();
        var len := AdvanceWhile(NotNewline);
        t := Token(Comment, Span(idx - len, idx));
      } else {
        idx := idx + 1;
        var ind: nat := 0;
        while idx < |input| && (input[idx] == '\n' || input[idx] == ' ')
          invariant IndentScan(input, idx, ind) == IndentScan(input, old(idx) + 1, 0)
          invariant ind <= idx
          decreases |input| - idx
        {
          if input[idx] == '\n' {
            ind := 0;
          } else {
            ind := ind + 1;
          }
          idx := idx + 1;
        }
        t := Token(Indentation, Span(idx - ind, idx));
      }
    }

    /** `_lex`: the next token after the spaces at `idx`, or an error. */
    method LexToken() returns (r: Result<Token>)
      modifies this
      ensures (r, idx) == NextToken(input, old(idx))
    {
      SkipWhitespace();
      if idx >= |input| {
        return Err(RAN_OUT);
      }
      var c := input[idx];
      if c == '\n' {
        idx := idx + 1;
        var t := LexIndent();
        r := Ok(t);
      } else if SingleCharType(c).Some? {
        idx := idx + 1;
        r := Ok(Token(SingleCharType(c).value, Span(idx - 1, idx)));
      } else if c == '-' {
        idx := idx + 1;
        if idx >= |input| {
          return Err(RAN_OUT_AFTER_MINUS);
        }
        if input[idx] == '>' {
          idx := idx + 1;
          r := Ok(Token(ThinArrow, Span(idx - 2, idx)));
        } else {
          r := Ok(Token(Minus, Span(idx - 1, idx)));
        }
      } else if Format.IsDigit(c) {
        var len := AdvanceWhile(IsNumberChar);
        r := Ok(Token(Number, Span(idx - len, idx)));
      } else if IsLetter(c) {
        var len := AdvanceWhile(IsWordChar);
        var span := Span(idx - len, idx);
        r := Ok(Token(WordType(input[span.start..span.end]), span));
      } else {
        r := Err(FALLTHROUGH + "<" + [c] + ">");
      }
    }

    /** `lex`: run the scanner over the whole input. */
    method Lex() returns (r: Result<seq<Token>>)
      requires idx == 0
      modifies this
      ensures r == Lexed(input)
    {
      var first := LexIndent();
      var toks := [first];
      while idx < |input|
        invariant LexedFrom(input, idx, toks) == Lexed(input)
        decreases |input| - idx
      {
        var t := LexToken();
        if t.Err? {
          return Err(t.error);
        }
        toks := toks + [t.value];
      }
      r := Ok(toks + [Token(EOF, Span(|input|, |input|))]);
    }
  }
}
