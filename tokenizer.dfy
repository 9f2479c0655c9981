/** The scanner (src/tokenizer/mod.rs).

    `ScanFrom(s, i)` is the specification: the tokens the scanner produces for
    the input `s` when its cursor stands at `i`, or the lexical error it aborts
    with.  `Tokenize` is the scanner itself: a cursor loop with two inner loops
    growing the lexeme of a number or an identifier, proved equal to
    `ScanFrom(src, 0)`. */
module Tokenizer {
  import opened Wrappers
  import opened Tokens

  /** The one lexical error: a character inside a digit run that is neither a
      digit nor one of the three characters allowed to end the run. */
  datatype LexError = InvalidCharacter(c: char)

  type LexResult = Result<seq<Token>, LexError>

  /** The model only covers ASCII input: the source compares a character index
      with the byte length of the text, which agree only on ASCII. */
  predicate IsAscii(s: string) {
    forall i :: 0 <= i < |s| ==> s[i] as int < 128
  }

  /** `char::is_digit(10)` */
  predicate IsDigit(c: char) {
    '0' <= c <= '9'
  }

  predicate AllDigits(s: string) {
    forall k :: 0 <= k < |s| ==> IsDigit(s[k])
  }

  /** `char::is_alphanumeric`, restricted to ASCII */
  predicate IsAlphanumeric(c: char) {
    ('a' <= c <= 'z') || ('A' <= c <= 'Z') || IsDigit(c)
  }

  /** `is_valid_identifier_char`: ASCII letters, digits and `_`; never an
      operator, bracket, newline or blank, so an identifier run stops there. */
  function IsValidIdentifierChar(c: char): (b: bool)
    ensures b ==> !IsSingleChar(c) && c != ' ' && c != '\t'
    ensures IsDigit(c) || c == '_' ==> b
    ensures ('a' <= c <= 'z') || ('A' <= c <= 'Z') ==> b
  {
    IsAlphanumeric(c) || c == '_'
  }

  /** The characters that end a digit run without being part of it. */
  predicate IsNumberTerminator(c: char) {
    c == ' ' || c == ')' || c == '\n'
  }

  /** The eight characters that are a token on their own. */
  predicate IsSingleChar(c: char) {
    c == '=' || c == '/' || c == '+' || c == '-' || c == '*' || c == '(' || c == ')' || c == '\n'
  }

  /** Kinds whose lexeme is always one fixed character. */
  predicate IsSingleCharKind(k: TokenType) {
    k != NumberLiteral && k != Ident
  }

  /** The character a one-character token kind is written with. */
  function KindChar(k: TokenType): char
    requires IsSingleCharKind(k)
  {
    match k
    case Equal => '='
    case Slash => '/'
    case Plus => '+'
    case Minus => '-'
    case Star => '*'
    case LeftParen => '('
    case RightParen => ')'
    case Newline => '\n'
  }

  /** The kind of a one-character token; `KindChar` is its inverse. */
  function SingleCharKind(c: char): (k: TokenType)
    requires IsSingleChar(c)
    ensures IsSingleCharKind(k) && KindChar(k) == c
  {
    if c == '=' then Equal
    else if c == '/' then Slash
    else if c == '+' then Plus
    else if c == '-' then Minus
    else if c == '*' then Star
    else if c == '(' then LeftParen
    else if c == ')' then RightParen
    else Newline
  }

  /** A character that falls through to the identifier arm of the scanner. */
  predicate IsIdentStart(c: char) {
    !IsSingleChar(c) && !IsDigit(c) && c != ' '
  }

  /** End of the maximal run of digits starting at `i`. */
  function DigitRunEnd(s: string, i: nat): (j: nat)
    requires i <= |s|
    ensures i <= j <= |s|
    ensures forall k :: i <= k < j ==> IsDigit(s[k])
    ensures j == |s| || !IsDigit(s[j])
    decreases |s| - i
  {
    if i < |s| && IsDigit(s[i]) then DigitRunEnd(s, i + 1) else i
  }

  /** End of the maximal run of identifier characters starting at `i`. */
  function IdentRunEnd(s: string, i: nat): (j: nat)
    requires i <= |s|
    ensures i <= j <= |s|
    ensures forall k :: i <= k < j ==> IsValidIdentifierChar(s[k])
    ensures j == |s| || !IsValidIdentifierChar(s[j])
    decreases |s| - i
  {
    if i < |s| && IsValidIdentifierChar(s[i]) then IdentRunEnd(s, i + 1) else i
  }

  function Prepend(ts: seq<Token>, r: LexResult): LexResult {
    if r.Ok? then Ok(ts + r.value) else r
  }

  lemma PrependTwice(a: seq<Token>, b: seq<Token>, r: LexResult)
    ensures Prepend(a, Prepend(b, r)) == Prepend(a + b, r)
  {
    if r.Ok? {
      assert a + (b + r.value) == (a + b) + r.value;
    }
  }

  /** What the scanner produces from position `i` of `s` on.  On success there
      is at most one token per remaining character. */
  function ScanFrom(s: string, i: nat): (r: LexResult)
    requires i <= |s|
    ensures r.Ok? ==> |r.value| <= |s| - i
    decreases |s| - i
  {
    if i == |s| then Ok([])
    else if IsSingleChar(s[i]) then
      Prepend([Token(SingleCharKind(s[i]), [s[i]])], ScanFrom(s, i + 1))
    else if IsDigit(s[i]) then
      var j := DigitRunEnd(s, i + 1);
      if j < |s| && !IsNumberTerminator(s[j]) then Err(InvalidCharacter(s[j]))
      else Prepend([Token(NumberLiteral, s[i..j])], ScanFrom(s, j))
    else if s[i] == ' ' then
      ScanFrom(s, i + 1)
    else
      var j := IdentRunEnd(s, i + 1);
      Prepend([Token(Ident, s[i..j])], ScanFrom(s, j))
  }

  lemma {:induction false} DigitRunEndAt(s: string, i: nat, j: nat)
    requires i <= j <= |s|
    requires forall k :: i <= k < j ==> IsDigit(s[k])
    requires j == |s| || !IsDigit(s[j])
    ensures DigitRunEnd(s, i) == j
    decreases j - i
  {
    if i < j {
      DigitRunEndAt(s, i + 1, j);
    }
  }

  lemma {:induction false} IdentRunEndAt(s: string, i: nat, j: nat)
    requires i <= j <= |s|
    requires forall k :: i <= k < j ==> IsValidIdentifierChar(s[k])
    requires j == |s| || !IsValidIdentifierChar(s[j])
    ensures IdentRunEnd(s, i) == j
    decreases j - i
  {
    if i < j {
      IdentRunEndAt(s, i + 1, j);
    }
  }

  /** One of the eight punctuation characters is one token whose lexeme is that
      character; a space yields nothing and is skipped. */
  lemma ScanOneChar(s: string, i: nat)
    requires i < |s|
    ensures IsSingleChar(s[i]) ==>
      ScanFrom(s, i) == Prepend([Token(SingleCharKind(s[i]), [s[i]])], ScanFrom(s, i + 1))
    ensures s[i] == ' ' ==> ScanFrom(s, i) == ScanFrom(s, i + 1)
  {
  }

  /** A maximal digit run `s[i..j]` that ends at the end of the input, at a
      space, at `)` or at a newline is one NumberLiteral token; the terminator
      itself is not consumed and is scanned next. */
  lemma ScanNumber(s: string, i: nat, j: nat)
    requires i < j <= |s|
    requires forall k :: i <= k < j ==> IsDigit(s[k])
    requires j == |s| || IsNumberTerminator(s[j])
    ensures ScanFrom(s, i) == Prepend([Token(NumberLiteral, s[i..j])], ScanFrom(s, j))
  {
    DigitRunEndAt(s, i + 1, j);
  }

  /** A digit run followed by any other character that is not a digit aborts
      the scan with that character, whatever follows. */
  lemma ScanNumberRejects(s: string, i: nat, j: nat)
    requires i < j < |s|
    requires forall k :: i <= k < j ==> IsDigit(s[k])
    requires !IsDigit(s[j]) && !IsNumberTerminator(s[j])
    ensures ScanFrom(s, i) == Err(InvalidCharacter(s[j]))
  {
    DigitRunEndAt(s, i + 1, j);
  }

  /** Any character not claimed by an earlier arm starts an identifier, which
      extends over the longest run of letters, digits and underscores after
      it and stops without consuming the first other character. */
  lemma ScanIdent(s: string, i: nat, j: nat)
    requires i < j <= |s|
    requires IsIdentStart(s[i])
    requires forall k :: i < k < j ==> IsValidIdentifierChar(s[k])
    requires j == |s| || !IsValidIdentifierChar(s[j])
    ensures ScanFrom(s, i) == Prepend([Token(Ident, s[i..j])], ScanFrom(s, j))
  {
    IdentRunEndAt(s, i + 1, j);
  }

  /** The inner loop of `tokenize` over a number: it grows the lexeme while
      digits follow, stops before a space, `)` or newline, and fails on any
      other character. */
  method ReadNumber(src: string, start: nat) returns (r: Result<nat, LexError>, numberLexeme: string)
    requires start < |src| && IsDigit(src[start])
    ensures r.Ok? ==> start < r.value <= |src| && numberLexeme == src[start..r.value]
    ensures r.Ok? ==>
      ScanFrom(src, start) == Prepend([Token(NumberLiteral, numberLexeme)], ScanFrom(src, r.value))
    ensures r.Err? ==> ScanFrom(src, start) == Err(r.error)
  {
    numberLexeme := [src[start]];
    var pos := start + 1;
    while pos < |src|
      invariant start < pos <= |src|
      invariant numberLexeme == src[start..pos]
      invariant forall k :: start <= k < pos ==> IsDigit(src[k])
      decreases |src| - pos
    {
      var nextChar := src[pos];
      if nextChar == ' ' || nextChar == ')' || nextChar == '\n' {
        break;
      }
      if IsDigit(nextChar) {
        numberLexeme := numberLexeme + [nextChar];
      } else {
        ScanNumberRejects(src, start, pos);
        return Err(InvalidCharacter(nextChar)), numberLexeme;
      }
      pos := pos + 1;
    }
    ScanNumber(src, start, pos);
    r := Ok(pos);
  }

  /** The inner loop of `tokenize` over an identifier: it grows the lexeme
      while identifier characters follow. */
  method ReadIdent(src: string, start: nat) returns (next: nat, lexeme: string)
    requires start < |src| && IsIdentStart(src[start])
    ensures start < next <= |src| && lexeme == src[start..next]
    ensures ScanFrom(src, start) == Prepend([Token(Ident, lexeme)], ScanFrom(src, next))
  {
    lexeme := [src[start]];
    next := start + 1;
    while next < |src|
      invariant start < next <= |src|
      invariant lexeme == src[start..next]
      invariant forall k :: start < k < next ==> IsValidIdentifierChar(src[k])
      decreases |src| - next
    {
      var nextChar := src[next];
      if !IsValidIdentifierChar(nextChar) {
        break;
      }
      lexeme := lexeme + [nextChar];
      next := next + 1;
    }
    ScanIdent(src, start, next);
  }

  /** `tokenize` */
  method Tokenize(src: string) returns (r: LexResult)
    requires IsAscii(src)
    ensures r == ScanFrom(src, 0)
  {
    var pos := 0;
    var res: seq<Token> := [];
    assert ScanFrom(src, 0).Ok? ==> [] + ScanFrom(src, 0).value == ScanFrom(src, 0).value;
    while pos < |src|
      invariant pos <= |src|
      invariant ScanFrom(src, 0) == Prepend(res, ScanFrom(src, pos))
      decreases |src| - pos
    {
      var current := src[pos];
      ScanOneChar(src, pos);
      if current == '=' {
        PrependTwice(res, [Token(Equal, "=")], ScanFrom(src, pos + 1));
        res := res + [Token(Equal, "=")];
      } else if current == '/' {
        PrependTwice(res, [Token(Slash, "/")], ScanFrom(src, pos + 1));
        res := res + [Token(Slash, "/")];
      } else if current == '+' {
        PrependTwice(res, [Token(Plus, "+")], ScanFrom(src, pos + 1));
        res := res + [Token(Plus, "+")];
      } else if current == '-' {
        PrependTwice(res, [Token(Minus, "-")], ScanFrom(src, pos + 1));
        res := res + [Token(Minus, "-")];
      } else if current == '*' {
        PrependTwice(res, [Token(Star, "*")], ScanFrom(src, pos + 1));
        res := res + [Token(Star, "*")];
      } else if current == '(' {
        PrependTwice(res, [Token(LeftParen, "(")], ScanFrom(src, pos + 1));
        res := res + [Token(LeftParen, "(")];
      } else if current == ')' {
        PrependTwice(res, [Token(RightParen, ")")], ScanFrom(src, pos + 1));
        res := res + [Token(RightParen, ")")];
      } else if IsDigit(current) {
        var next, numberLexeme := ReadNumber(src, pos);
        if next.Err? {
          return Err(next.error);
        }
        PrependTwice(res, [Token(NumberLiteral, numberLexeme)], ScanFrom(src, next.value));
        res := res + [Token(NumberLiteral, numberLexeme)];
        pos := next.value;
        continue;
      } else if current == '\n' {
        PrependTwice(res, [Token(Newline, "\n")], ScanFrom(src, pos + 1));
        res := res + [Token(Newline, "\n")];
      } else if current == ' ' {
      } else {
        var next, lexeme := ReadIdent(src, pos);
        PrependTwice(res, [Token(Ident, lexeme)], ScanFrom(src, next));
        res := res + [Token(Ident, lexeme)];
        pos := next;
        continue;
      }
      pos := pos + 1;
    }
    assert res + [] == res;
    r := Ok(res);
  }

  /** The lexemes of `ts`, concatenated in order. */
  function Lexemes(ts: seq<Token>): string {
    if ts == [] then [] else ts[0].lexeme + Lexemes(ts[1..])
  }

  /** `s` with every space removed. */
  function WithoutSpaces(s: string): string {
    if s == [] then [] else (if s[0] == ' ' then [] else [s[0]]) + WithoutSpaces(s[1..])
  }

  lemma {:induction false} WithoutSpacesAppend(a: string, b: string)
    ensures WithoutSpaces(a + b) == WithoutSpaces(a) + WithoutSpaces(b)
  {
    if a == [] {
      assert a + b == b;
    } else {
      assert (a + b)[1..] == a[1..] + b;
      WithoutSpacesAppend(a[1..], b);
    }
  }

  lemma {:induction false} WithoutSpacesNone(a: string)
    requires forall k :: 0 <= k < |a| ==> a[k] != ' '
    ensures WithoutSpaces(a) == a
  {
    if a != [] {
      WithoutSpacesNone(a[1..]);
    }
  }

  lemma LexemesStep(s: string, i: nat, j: nat, t: Token, rest: seq<Token>)
    requires i < j <= |s|
    requires t.lexeme == s[i..j]
    requires forall k :: i <= k < j ==> s[k] != ' '
    requires Lexemes(rest) == WithoutSpaces(s[j..])
    ensures Lexemes([t] + rest) == WithoutSpaces(s[i..])
  {
    assert ([t] + rest)[1..] == rest;
    assert s[i..] == s[i..j] + s[j..];
    WithoutSpacesAppend(s[i..j], s[j..]);
    WithoutSpacesNone(s[i..j]);
  }

  /** No character is lost or invented: on success the lexemes of the tokens,
      read in order, spell the input with its spaces removed. */
  lemma {:induction false} ScanLexemes(s: string, i: nat)
    requires i <= |s|
    requires ScanFrom(s, i).Ok?
    ensures Lexemes(ScanFrom(s, i).value) == WithoutSpaces(s[i..])
    decreases |s| - i
  {
    if i == |s| {
      return;
    }
    if s[i] == ' ' {
      ScanOneChar(s, i);
      ScanLexemes(s, i + 1);
      assert s[i..] == [s[i]] + s[i + 1..];
      WithoutSpacesAppend([s[i]], s[i + 1..]);
    } else {
      var j, t := ScanToken(s, i);
      ScanLexemes(s, j);
      LexemesStep(s, i, j, t, ScanFrom(s, j).value);
    }
  }

  /** Away from a space, a successful scan starts with one token whose lexeme
      is the space-free text up to where the scan resumes. */
  lemma ScanToken(s: string, i: nat) returns (j: nat, t: Token)
    requires i < |s| && s[i] != ' ' && ScanFrom(s, i).Ok?
    ensures i < j <= |s| && t.lexeme == s[i..j]
    ensures forall k :: i <= k < j ==> s[k] != ' '
    ensures ScanFrom(s, i) == Prepend([t], ScanFrom(s, j))
  {
    ScanOneChar(s, i);
    if IsSingleChar(s[i]) {
      j, t := i + 1, Token(SingleCharKind(s[i]), [s[i]]);
    } else if IsDigit(s[i]) {
      j := DigitRunEnd(s, i + 1);
      t := Token(NumberLiteral, s[i..j]);
      ScanNumber(s, i, j);
    } else {
      j := IdentRunEnd(s, i + 1);
      t := Token(Ident, s[i..j]);
      ScanIdent(s, i, j);
    }
  }

  /** What every token the scanner produces looks like. */
  predicate WellFormedToken(t: Token) {
    match t.kind
    case NumberLiteral =>
      |t.lexeme| > 0 && AllDigits(t.lexeme)
    case Ident =>
      |t.lexeme| > 0 && IsIdentStart(t.lexeme[0]) &&
      forall k :: 1 <= k < |t.lexeme| ==> IsValidIdentifierChar(t.lexeme[k])
    case _ =>
      t.lexeme == [KindChar(t.kind)]
  }

  /** Every token produced is well formed: a punctuation or newline token has
      its one character as lexeme, a NumberLiteral a non-empty run of digits,
      and an Ident starts with a character no earlier arm claims (never a
      digit, a space, a newline or a punctuation character). */
  lemma {:induction false} ScanWellFormed(s: string, i: nat)
    requires i <= |s|
    requires ScanFrom(s, i).Ok?
    ensures forall t :: t in ScanFrom(s, i).value ==> WellFormedToken(t)
    decreases |s| - i
  {
    if i == |s| {
      return;
    }
    var j: nat;
    if IsSingleChar(s[i]) || s[i] == ' ' {
      j := i + 1;
    } else if IsDigit(s[i]) {
      j := DigitRunEnd(s, i + 1);
    } else {
      j := IdentRunEnd(s, i + 1);
    }
    ScanWellFormed(s, j);
  }

  /** Digit runs are not split at arbitrary characters: `12a3`, `1+2` and
      `2*(3` are all rejected. */
  lemma RejectedDigitRuns()
    ensures ScanFrom("12a3", 0) == Err(InvalidCharacter('a'))
    ensures ScanFrom("1+2", 0) == Err(InvalidCharacter('+'))
    ensures ScanFrom("2*(3", 0) == Err(InvalidCharacter('*'))
  {
    ScanNumberRejects("12a3", 0, 2);
    ScanNumberRejects("1+2", 0, 1);
    ScanNumberRejects("2*(3", 0, 1);
  }
}
