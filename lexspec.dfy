/** A reference scanner for src/Lexer.cpp written as functions over the
    source text and a position. Each function describes what one of the
    lexer's loops does from a given cursor; `ScanOne` is one call of
    `scanToken` and `ScanFrom` the loop of `scanTokens`. The imperative
    lexer in module Lexing is proved to compute exactly these. */
module LexSpec {
  import opened Base
  import opened Tokens

  /** `peek`: the character under the cursor, or NUL at the end. */
  function Peek(src: string, i: nat): char {
    if i < |src| then src[i] else '\0'
  }

  /** `peekby2`: the character after the one under the cursor, or NUL. */
  function PeekBy2(src: string, i: nat): char {
    if i + 1 < |src| then src[i + 1] else '\0'
  }

  predicate IsDigit(c: char) { '0' <= c <= '9' }

  predicate IsAlphaOrUnderscore(c: char) {
    ('a' <= c <= 'z') || ('A' <= c <= 'Z') || c == '_'
  }

  predicate IsAlphaNumeric(c: char) { IsDigit(c) || IsAlphaOrUnderscore(c) }

  /** The loop of `string`: from `i`, advance up to the closing quote or the
      end, counting newlines. Yields the stop position and the new line. */
  function StringBody(src: string, i: nat, line: nat): (r: (nat, nat))
    requires i <= |src|
    ensures i <= r.0 <= |src|
    ensures r.1 == line + CountNewlines(src[i..r.0])
    decreases |src| - i
  {
    if i == |src| || src[i] == Quote then
      (i, line)
    else
      var r := StringBody(src, i + 1, if src[i] == '\n' then line + 1 else line);
      assert src[i..r.0] == [src[i]] + src[i + 1..r.0];
      r
  }

  /** `while (isDigit(peek())) advance();` from `i`. */
  function SkipDigits(src: string, i: nat): (j: nat)
    requires i <= |src|
    ensures i <= j <= |src|
    decreases |src| - i
  {
    if i < |src| && IsDigit(src[i]) then SkipDigits(src, i + 1) else i
  }

  /** The two loops of `number`: digits, then `.` and digits only when a
      digit follows the `.`. */
  function NumberEnd(src: string, i: nat): (j: nat)
    requires i <= |src|
    ensures i <= j <= |src|
  {
    var d := SkipDigits(src, i);
    if Peek(src, d) == '.' && IsDigit(PeekBy2(src, d)) then SkipDigits(src, d + 1) else d
  }

  /** `while (isAlphaNumeric(peek())) advance();` from `i`. */
  function SkipAlphaNumeric(src: string, i: nat): (j: nat)
    requires i <= |src|
    ensures i <= j <= |src|
    decreases |src| - i
  {
    if i < |src| && IsAlphaNumeric(src[i]) then SkipAlphaNumeric(src, i + 1) else i
  }

  /** The `//` comment loop: stop in front of the next newline. */
  function SkipLine(src: string, i: nat): (j: nat)
    requires i <= |src|
    ensures i <= j <= |src|
    decreases |src| - i
  {
    if i < |src| && src[i] != '\n' then SkipLine(src, i + 1) else i
  }

  /** The string loop stops at the first quote from `i`, or at the end. */
  lemma {:induction false} StringBodyStops(src: string, i: nat, line: nat)
    requires i <= |src|
    ensures var r := StringBody(src, i, line);
      && (r.0 < |src| ==> src[r.0] == Quote)
      && (forall k :: i <= k < r.0 ==> src[k] != Quote)
    decreases |src| - i
  {
    if i < |src| && src[i] != Quote {
      StringBodyStops(src, i + 1, if src[i] == '\n' then line + 1 else line);
    }
  }

  /** `SkipDigits` stops at the first non-digit from `i`. */
  lemma {:induction false} SkipDigitsRun(src: string, i: nat)
    requires i <= |src|
    ensures var j := SkipDigits(src, i);
      && (forall k :: i <= k < j ==> IsDigit(src[k]))
      && (j < |src| ==> !IsDigit(src[j]))
    decreases |src| - i
  {
    if i < |src| && IsDigit(src[i]) {
      SkipDigitsRun(src, i + 1);
    }
  }

  /** A number's tail holds only digits and dots. */
  lemma NumberEndChars(src: string, i: nat)
    requires i <= |src|
    ensures forall k :: i <= k < NumberEnd(src, i) ==> IsDigit(src[k]) || src[k] == '.'
  {
    var d := SkipDigits(src, i);
    SkipDigitsRun(src, i);
    if Peek(src, d) == '.' && IsDigit(PeekBy2(src, d)) {
      SkipDigitsRun(src, d + 1);
    }
  }

  /** `SkipAlphaNumeric` stops at the first character that is not a letter,
      a digit or `_`. */
  lemma {:induction false} SkipAlphaNumericRun(src: string, i: nat)
    requires i <= |src|
    ensures var j := SkipAlphaNumeric(src, i);
      && (forall k :: i <= k < j ==> IsAlphaNumeric(src[k]))
      && (j < |src| ==> !IsAlphaNumeric(src[j]))
    decreases |src| - i
  {
    if i < |src| && IsAlphaNumeric(src[i]) {
      SkipAlphaNumericRun(src, i + 1);
    }
  }

  /** `SkipLine` stops at the first newline from `i`, or at the end. */
  lemma {:induction false} SkipLineRun(src: string, i: nat)
    requires i <= |src|
    ensures var j := SkipLine(src, i);
      && (forall k :: i <= k < j ==> src[k] != '\n')
      && (j < |src| ==> src[j] == '\n')
    decreases |src| - i
  {
    if i < |src| && src[i] != '\n' {
      SkipLineRun(src, i + 1);
    }
  }

  /** The `/[ ... ]/` comment loop,
      `while (!(isNext(']') && isNext('/')) && !isAtEnd()) { ...; advance(); }`.
      A `]` that `isNext` consumes is not looked at again, so the character
      after it is consumed by `advance` whatever it is. */
  function BlockComment(src: string, i: nat, line: nat): (r: (nat, nat))
    requires i <= |src|
    ensures i <= r.0 <= |src|
    ensures r.1 == line + CountNewlines(src[i..r.0])
    decreases |src| - i
  {
    if i < |src| && src[i] == ']' then
      if i + 1 < |src| && src[i + 1] == '/' then
        assert src[i..i + 2] == [']', '/'];
        (i + 2, line)
      else if i + 1 == |src| then
        assert src[i..i + 1] == [']'];
        (i + 1, line)
      else
        var r := BlockComment(src, i + 2, if src[i + 1] == '\n' then line + 1 else line);
        assert src[i..r.0] == [src[i]] + [src[i + 1]] + src[i + 2..r.0];
        CountNewlinesAppend([src[i]] + [src[i + 1]], src[i + 2..r.0]);
        CountNewlinesAppend([src[i]], [src[i + 1]]);
        r
    else if i == |src| then
      (i, line)
    else
      var r := BlockComment(src, i + 1, if src[i] == '\n' then line + 1 else line);
      assert src[i..r.0] == [src[i]] + src[i + 1..r.0];
      r
  }

  /** What one call of `scanToken` does: where the cursor and the line end
      up, the token it adds (if any) and the error it reports (if any). */
  datatype Step = Step(next: nat, line: nat, token: Option<Token>, error: Option<Diagnostic>)

  function OptSeq<T>(o: Option<T>): (s: seq<T>)
    ensures |s| <= 1
  {
    match o
    case None => []
    case Some(x) => [x]
  }

  /** The token added by `addToken(tt, lt)` for the lexeme `src[start..end]`. */
  function MakeToken(src: string, start: nat, end: nat, line: nat, tt: TokenType, lt: LiteralType): Token
    requires start <= end <= |src|
  {
    Token(tt, src[start..end], line, lt)
  }

  /** A one- or two-character operator: the two-character form exactly when
      the next character is `=`. */
  function Operator(src: string, start: nat, line: nat, one: TokenType, two: TokenType): (st: Step)
    requires start < |src| && src[start] != '\n' && one != Eof && two != Eof
    ensures start < st.next <= |src|
    ensures st.line == line + NewlinesIn(src, start, st.next)
    ensures st.token.Some? ==> st.error.None? && st.token.value.tokenType != Eof
    ensures st.token.Some? ==> st.token.value.line == st.line
  {
    if Peek(src, start + 1) == '=' then
      NoNewlines(src[start..start + 2]);
      Step(start + 2, line, Some(MakeToken(src, start, start + 2, line, two, NotLiteral)), None)
    else
      NoNewlines(src[start..start + 1]);
      Step(start + 1, line, Some(MakeToken(src, start, start + 1, line, one, NotLiteral)), None)
  }

  function Single(src: string, start: nat, line: nat, tt: TokenType): (st: Step)
    requires start < |src| && src[start] != '\n' && tt != Eof
    ensures start < st.next <= |src|
    ensures st.line == line + NewlinesIn(src, start, st.next)
    ensures st.token.Some? ==> st.error.None? && st.token.value.tokenType != Eof
    ensures st.token.Some? ==> st.token.value.line == st.line
  {
    NoNewlines(src[start..start + 1]);
    Step(start + 1, line, Some(MakeToken(src, start, start + 1, line, tt, NotLiteral)), None)
  }

  const UnterminatedString := "Unterminated String. Expected a " + [Quote] + "."
  const UnexpectedCharacter := "Unexpected character: "

  /** `string`, entered with the opening quote at `start`. */
  function StringToken(src: string, start: nat, line: nat): (st: Step)
    requires start < |src| && src[start] == Quote 
    ensures start < st.next <= |src|
    ensures st.line == line + NewlinesIn(src, start, st.next)
    ensures st.token.Some? ==> st.error.None? && st.token.value.tokenType != Eof
    ensures st.token.Some? ==> st.token.value.line == st.line
  {
    var (j, l) := StringBody(src, start + 1, line);
    StringBodyStops(src, start + 1, line);
    if j == |src| then
      assert src[start..j] == [src[start]] + src[start + 1..j];
      Step(j, l, None, Some(CompileError(l, UnterminatedString)))
    else
      assert src[start..j + 1] == [src[start]] + src[start + 1..j] + [src[j]];
      CountNewlinesAppend([src[start]] + src[start + 1..j], [src[j]]);
      CountNewlinesAppend([src[start]], src[start + 1..j]);
      Step(j + 1, l, Some(Token(StringLiteral, src[start + 1..j], l, StrLit)), None)
  }

  /** The literal subtype `identifierOrKeyword` gives a keyword. */
  function KeywordSubtype(word: string): LiteralType {
    if word == "nix" then NixLit
    else if word == "true" then TrueLit
    else if word == "false" then FalseLit
    else NotLiteral
  }

  /** `identifierOrKeyword`, entered with the first letter at `start`. */
  function WordToken(src: string, start: nat, line: nat): (st: Step)
    requires start < |src| && IsAlphaOrUnderscore(src[start])
    ensures start < st.next <= |src|
    ensures st.line == line && forall k | start <= k < st.next :: src[k] != '\n'
    ensures st.token.Some? ==> st.error.None? && st.token.value.tokenType != Eof
    ensures st.token.Some? ==> st.token.value.line == st.line
  {
    var j := SkipAlphaNumeric(src, start + 1);
    var word := src[start..j];
    SkipAlphaNumericRun(src, start + 1);
    var tok :=
      match KeywordType(word)
      case Some(tt) => Token(tt, word, line, KeywordSubtype(word))
      case None => Token(Identifier, word, line, NotLiteral);
    Step(j, line, Some(tok), None)
  }

  /** `number`, entered with the first character of the number at `start`. */
  function NumberToken(src: string, start: nat, line: nat): (st: Step)
    requires start < |src| && src[start] != '\n'
    ensures start < st.next <= |src|
    ensures st.line == line && forall k | start <= k < st.next :: src[k] != '\n'
    ensures st.token.Some? ==> st.error.None? && st.token.value.tokenType != Eof
    ensures st.token.Some? ==> st.token.value.line == st.line
  {
    var j := NumberEnd(src, start + 1);
    NumberEndChars(src, start + 1);
    NoNewlines(src[start..j]);
    Step(j, line, Some(MakeToken(src, start, j, line, NumberLiteral, NumLit)), None)
  }

  /** Everything `scanToken` can do after consuming `c` in the `default`
      branch of its switch. */
  function OtherToken(src: string, start: nat, line: nat): (st: Step)
    requires start < |src| && src[start] != '\n' 
    ensures start < st.next <= |src|
    ensures st.line == line && forall k | start <= k < st.next :: src[k] != '\n'
    ensures st.token.Some? ==> st.error.None? && st.token.value.tokenType != Eof
    ensures st.token.Some? ==> st.token.value.line == st.line
  {
    var c := src[start];
    if IsDigit(c) || (c == '.' && IsDigit(Peek(src, start + 1))) then
      NumberToken(src, start, line)
    else if IsAlphaOrUnderscore(c) then
      WordToken(src, start, line)
    else
      assert src[start..start + 1] == [c];
      Step(start + 1, line, None, Some(CompileError(line, UnexpectedCharacter + [c])))
  }

  /** `/` followed by `/`, by `[`, or by anything else. */
  function SlashToken(src: string, start: nat, line: nat): (st: Step)
    requires start < |src| && src[start] == '/' 
    ensures start < st.next <= |src|
    ensures st.line == line + NewlinesIn(src, start, st.next)
    ensures st.token.Some? ==> st.error.None? && st.token.value.tokenType != Eof
    ensures st.token.Some? ==> st.token.value.line == st.line
  {
    if Peek(src, start + 1) == '/' then
      SkipLineRun(src, start + 2);
      NoNewlines(src[start..SkipLine(src, start + 2)]);
      Step(SkipLine(src, start + 2), line, None, None)
    else if Peek(src, start + 1) == '[' then
      var (j, l) := BlockComment(src, start + 2, line);
      assert src[start..j] == src[start..start + 2] + src[start + 2..j];
      CountNewlinesAppend(src[start..start + 2], src[start + 2..j]);
      NoNewlines(src[start..start + 2]);
      Step(j, l, None, None)
    else
      Single(src, start, line, Division)
  }

  /** One call of `scanToken` with the cursor at `start`. */
  function ScanOne(src: string, start: nat, line: nat): (st: Step)
    requires start < |src|
    ensures start < st.next <= |src|
    ensures st.line == line + NewlinesIn(src, start, st.next)
    ensures st.token.Some? ==> st.error.None? && st.token.value.tokenType != Eof
    ensures st.token.Some? ==> st.token.value.line == st.line
  {
    var st := match src[start]
      case '(' => Single(src, start, line, LParen)
      case ')' => Single(src, start, line, RParen)
      case '{' => Single(src, start, line, LBrace)
      case '}' => Single(src, start, line, RBrace)
      case ',' => Single(src, start, line, Comma)
      case '+' => Single(src, start, line, Plus)
      case '-' => Single(src, start, line, Minus)
      case '*' => Single(src, start, line, Product)
      case ';' => Single(src, start, line, Semicolon)
      case '!' => Operator(src, start, line, Not, NotEqual)
      case '=' => Operator(src, start, line, Equal, EqEqual)
      case '>' => Operator(src, start, line, Greater, GtEqual)
      case '<' => Operator(src, start, line, Less, LtEqual)
      case '/' => SlashToken(src, start, line)
      case ' ' => Step(start + 1, line, None, None)
      case '\t' => Step(start + 1, line, None, None)
      case '\r' => Step(start + 1, line, None, None)
      case '\n' => Step(start + 1, line + 1, None, None)
      case '\U{22}' => StringToken(src, start, line)
      case _ =>
        (var st := OtherToken(src, start, line);
         NoNewlines(src[start..st.next]);
         st);
    assert src[start] == '\n' ==> src[start..start + 1] == ['\n'];
    st
  }

  /** What the loop of `scanTokens` has produced from `pos` on, before the
      end-of-input token is added. */
  datatype Scan = Scan(tokens: seq<Token>, errors: seq<Diagnostic>, line: nat)

  function ScanFrom(src: string, pos: nat, line: nat): Scan
    requires pos <= |src|
    decreases |src| - pos
  {
    if pos == |src| then Scan([], [], line)
    else
      var st := ScanOne(src, pos, line);
      var rest := ScanFrom(src, st.next, st.line);
      Scan(OptSeq(st.token) + rest.tokens, OptSeq(st.error) + rest.errors, rest.line)
  }

  /** The token `scanTokens` appends when it reaches the end. */
  function EofToken(line: nat): Token {
    Token(Eof, "", line, NotLiteral)
  }

  /** `Lexer(src).scanTokens(p)`: the token list and the errors reported. */
  function Lex(src: string): (r: (seq<Token>, seq<Diagnostic>)) {
    var s := ScanFrom(src, 0, 1);
    (s.tokens + [EofToken(s.line)], s.errors)
  }

  /** The scanner ends on the line it started on plus the number of
      newlines it consumed. */
  lemma {:induction false} ScanFromLine(src: string, pos: nat, line: nat)
    requires pos <= |src|
    ensures ScanFrom(src, pos, line).line == line + CountNewlines(src[pos..])
    decreases |src| - pos
  {
    if pos < |src| {
      var st := ScanOne(src, pos, line);
      ScanFromLine(src, st.next, st.line);
      assert src[pos..] == src[pos..st.next] + src[st.next..];
      CountNewlinesAppend(src[pos..st.next], src[st.next..]);
    }
  }

  /** Tokens from the loop are never end-of-input tokens, carry line numbers
      between the start line and the final line, in nondecreasing order. */
  lemma {:induction false} ScanFromTokens(src: string, pos: nat, line: nat)
    requires pos <= |src|
    ensures TokensIn(ScanFrom(src, pos, line).tokens, line, ScanFrom(src, pos, line).line)
    ensures line <= ScanFrom(src, pos, line).line
    decreases |src| - pos
  {
    if pos < |src| {
      var st := ScanOne(src, pos, line);
      ScanFromTokens(src, st.next, st.line);
      var rest := ScanFrom(src, st.next, st.line);
      assert ScanFrom(src, pos, line).tokens == OptSeq(st.token) + rest.tokens;
      PrependToken(st.token, rest.tokens, line, st.line, rest.line);
    }
  }

  /** No end-of-input token, every line within `lo..hi`, lines in order. */
  predicate TokensIn(ts: seq<Token>, lo: nat, hi: nat) {
    && (forall i :: 0 <= i < |ts| ==> ts[i].tokenType != Eof)
    && (forall i :: 0 <= i < |ts| ==> lo <= ts[i].line <= hi)
    && (forall i, j :: 0 <= i < j < |ts| ==> ts[i].line <= ts[j].line)
  }

  /** A token on a line no later than those that follow keeps them in order. */
  lemma PrependToken(o: Option<Token>, rest: seq<Token>, lo: nat, mid: nat, hi: nat)
    requires lo <= mid <= hi && TokensIn(rest, mid, hi)
    requires o.Some? ==> o.value.tokenType != Eof && lo <= o.value.line <= mid
    ensures TokensIn(OptSeq(o) + rest, lo, hi)
  {
    var ts := OptSeq(o) + rest;
    if o.Some? {
      var t := o.value;
      assert ts == [t] + rest;
      assert ts[0] == t;
      assert forall i :: 1 <= i < |ts| ==> ts[i] == rest[i - 1];
      forall i | 0 <= i < |ts|
        ensures ts[i].tokenType != Eof && lo <= ts[i].line <= hi
      {
        if i > 0 {
          assert ts[i] == rest[i - 1];
        }
      }
      forall i, j | 0 <= i < j < |ts|
        ensures ts[i].line <= ts[j].line
      {
        assert ts[j] == rest[j - 1];
        if i > 0 {
          assert ts[i] == rest[i - 1];
        }
      }
    } else {
      assert ts == rest;
    }
  }

  /** The lexer's result ends with exactly one end-of-input token, which
      carries the final line: one more than the newlines in the source. */
  lemma LexResult(src: string)
    ensures var toks := Lex(src).0;
      && |toks| >= 1
      && toks[|toks| - 1] == EofToken(1 + CountNewlines(src))
      && (forall i :: 0 <= i < |toks| - 1 ==> toks[i].tokenType != Eof)
      && (forall i, j :: 0 <= i < j < |toks| ==> 1 <= toks[i].line <= toks[j].line)
  {
    var s := ScanFrom(src, 0, 1);
    var toks := s.tokens + [EofToken(s.line)];
    assert Lex(src).0 == toks;
    ScanFromLine(src, 0, 1);
    assert src[0..] == src;
    assert s.line == 1 + CountNewlines(src);
    ScanFromTokens(src, 0, 1);
    AppendEof(s.tokens, s.line);
  }

  lemma AppendEof(ts: seq<Token>, line: nat)
    requires TokensIn(ts, 1, line)
    ensures var toks := ts + [EofToken(line)];
      && (forall i :: 0 <= i < |toks| - 1 ==> toks[i].tokenType != Eof)
      && (forall i, j :: 0 <= i < j < |toks| ==> 1 <= toks[i].line <= toks[j].line)
  {
  }

  /** The `switch` of `scanToken`: which case handles the character under
      the cursor. */
  lemma ScanOneCases(src: string, start: nat, line: nat)
    requires start < |src|
    ensures var c := src[start];
      && (c == Quote ==> ScanOne(src, start, line) == StringToken(src, start, line))
      && (c == '/' ==> ScanOne(src, start, line) == SlashToken(src, start, line))
  {
  }

  /** The four characters that may start a two-character operator. */
  lemma ScanOneOperators(src: string, start: nat, line: nat)
    requires start < |src|
    ensures var c := src[start];
      && (c == '!' ==> ScanOne(src, start, line) == Operator(src, start, line, Not, NotEqual))
      && (c == '=' ==> ScanOne(src, start, line) == Operator(src, start, line, Equal, EqEqual))
      && (c == '>' ==> ScanOne(src, start, line) == Operator(src, start, line, Greater, GtEqual))
      && (c == '<' ==> ScanOne(src, start, line) == Operator(src, start, line, Less, LtEqual))
  {
  }

  /** Blanks are skipped; a newline also moves to the next line. */
  lemma ScanOneBlanks(src: string, start: nat, line: nat)
    requires start < |src|
    ensures var c := src[start];
      && (c == ' ' || c == '\t' || c == '\r' ==> ScanOne(src, start, line) == Step(start + 1, line, None, None))
      && (c == '\n' ==> ScanOne(src, start, line) == Step(start + 1, line + 1, None, None))
  {
  }

  /** The `default` case of the `switch`, and how it tells numbers, words
      and unexpected characters apart. */
  lemma ScanOneDefault(src: string, start: nat, line: nat)
    requires start < |src| && src[start] !in "(){},+-*;!=<>/ \t\r\n" + [Quote]
    ensures ScanOne(src, start, line) == OtherToken(src, start, line)
    ensures var c := src[start];
      && (IsDigit(c) || (c == '.' && IsDigit(Peek(src, start + 1))) ==>
            OtherToken(src, start, line) == NumberToken(src, start, line))
      && (IsAlphaOrUnderscore(c) ==> OtherToken(src, start, line) == WordToken(src, start, line))
  {
  }

  /** A string literal with a closing quote: one STRING token whose lexeme
      is exactly the text between the quotes, taken without any escape
      processing; the closing quote is the first one after the opening. */
  lemma StringTokens(src: string, start: nat, line: nat, close: nat)
    requires start < close < |src| && src[start] == Quote && src[close] == Quote
    ensures var st := StringToken(src, start, line);
      && st.error.None? && st.token.Some?
      && st.token.value.tokenType == StringLiteral && st.token.value.ltype == StrLit
      && st.next <= close + 1 && src[st.next - 1] == Quote
      && st.token.value.lexeme == src[start + 1..st.next - 1]
      && (forall k :: start < k < st.next - 1 ==> src[k] != Quote)
  {
    StringBodyStops(src, start + 1, line);
  }

  /** A string literal without a closing quote: no token, one error, and
      the rest of the input consumed. */
  lemma UnterminatedStrings(src: string, start: nat, line: nat)
    requires start < |src| && src[start] == Quote
    requires forall k :: start < k < |src| ==> src[k] != Quote
    ensures var st := StringToken(src, start, line);
      && st.token.None? && st.next == |src|
      && st.error == Some(CompileError(st.line, UnterminatedString))
  {
    StringBodyStops(src, start + 1, line);
  }

  /** `!`, `=`, `>` and `<`: the two-character operator exactly when the
      next character is `=`, which is then part of the lexeme. */
  lemma OperatorTokens(src: string, start: nat, line: nat, one: TokenType, two: TokenType)
    requires start < |src| && src[start] != '\n' && one != Eof && two != Eof
    ensures var st := Operator(src, start, line, one, two);
      && st.error.None? && st.token.Some? && st.line == line
      && st.token.value.lexeme == src[start..st.next]
      && st.token.value.ltype == NotLiteral
      && (st.next == start + 2 <==> Peek(src, start + 1) == '=')
      && (st.next == start + 2 ==> src[start + 1] == '=' && st.token.value.tokenType == two)
      && (st.next != start + 2 ==> st.next == start + 1 && st.token.value.tokenType == one)
  {
  }

  /** A number: the first character is a digit, or a `.` followed by a
      digit; then the longest run of digits. The lexeme never ends in `.`. */
  lemma NumberTokens(src: string, start: nat, line: nat)
    requires start < |src| && src[start] != '\n'
    requires IsDigit(src[start]) || (src[start] == '.' && IsDigit(Peek(src, start + 1)))
    ensures var st := NumberToken(src, start, line);
      && st.error.None? && st.token.Some? && st.line == line
      && st.token.value.tokenType == NumberLiteral && st.token.value.ltype == NumLit
      && st.token.value.lexeme == src[start..st.next]
      && IsDigit(src[st.next - 1])
      && (st.next < |src| ==> !IsDigit(src[st.next]))
  {
    var st := NumberToken(src, start, line);
    var d := SkipDigits(src, start + 1);
    SkipDigitsRun(src, start + 1);
    if Peek(src, d) == '.' && IsDigit(PeekBy2(src, d)) {
      var e := SkipDigits(src, d + 1);
      SkipDigitsRun(src, d + 1);
      assert st.next == e && d + 1 < e;
    } else {
      assert st.next == d;
    }
  }

  /** After its first character a number holds digits and at most one
      `.`, and that `.` is followed by a digit. */
  lemma NumberDots(src: string, start: nat, line: nat)
    requires start < |src| && src[start] != '\n'
    requires IsDigit(src[start]) || (src[start] == '.' && IsDigit(Peek(src, start + 1)))
    ensures var st := NumberToken(src, start, line);
      && (forall k :: start < k < st.next ==> IsDigit(src[k]) || src[k] == '.')
      && (forall k :: start < k < st.next && src[k] == '.' ==> k + 1 < st.next && IsDigit(src[k + 1]))
      && (forall a, b :: start < a < b < st.next && src[a] == '.' ==> src[b] != '.')
  {
    NumberEndDots(src, start + 1);
  }

  /** The tail of a number from `i`: digits and dots only, every dot
      followed by a digit within the number, and at most one dot. */
  lemma NumberEndDots(src: string, i: nat)
    requires i <= |src|
    ensures var j := NumberEnd(src, i);
      && (forall k :: i <= k < j ==> IsDigit(src[k]) || src[k] == '.')
      && (forall k :: i <= k < j && src[k] == '.' ==> k + 1 < j && IsDigit(src[k + 1]))
      && (forall a, b :: i <= a < b < j && src[a] == '.' ==> src[b] != '.')
  {
    var d := SkipDigits(src, i);
    SkipDigitsRun(src, i);
    if Peek(src, d) == '.' && IsDigit(PeekBy2(src, d)) {
      var e := SkipDigits(src, d + 1);
      SkipDigitsRun(src, d + 1);
      assert d + 1 < |src| && IsDigit(src[d + 1]);
      assert d + 1 < e;
      assert forall k :: i <= k < e && src[k] == '.' ==> k == d;
    }
  }

  /** An identifier or keyword: a letter or `_`, then the longest run of
      letters, digits and `_`, whose category comes from the keyword table. */
  lemma WordTokens(src: string, start: nat, line: nat)
    requires start < |src| && IsAlphaOrUnderscore(src[start])
    ensures var st := WordToken(src, start, line);
      && st.error.None? && st.token.Some? && st.line == line
      && st.token.value.lexeme == src[start..st.next]
      && (forall k :: start <= k < st.next ==> IsAlphaNumeric(src[k]))
      && (st.next < |src| ==> !IsAlphaNumeric(src[st.next]))
      && var w := st.token.value.lexeme;
      && st.token.value.tokenType == (if KeywordType(w).Some? then KeywordType(w).value else Identifier)
  {
    SkipAlphaNumericRun(src, start + 1);
  }

  /** Only the words `nix`, `true` and `false` get a literal subtype, and
      each gets its own. */
  lemma WordSubtypes(src: string, start: nat, line: nat)
    requires start < |src| && IsAlphaOrUnderscore(src[start])
    ensures var st := WordToken(src, start, line);
      && st.token.Some?
      && var t := st.token.value;
      && (t.ltype == NixLit <==> t.lexeme == "nix")
      && (t.ltype == TrueLit <==> t.lexeme == "true")
      && (t.ltype == FalseLit <==> t.lexeme == "false")
      && t.ltype in {NotLiteral, NixLit, TrueLit, FalseLit}
  {
    LiteralKeywords();
  }

  /** `//` produces nothing and stops in front of the next newline. */
  lemma LineComments(src: string, start: nat, line: nat)
    requires start + 1 < |src| && src[start] == '/' && src[start + 1] == '/'
    ensures var st := SlashToken(src, start, line);
      && st.token.None? && st.error.None? && st.line == line
      && (forall k :: start <= k < st.next ==> src[k] != '\n')
      && (st.next == |src| || src[st.next] == '\n')
  {
    SkipLineRun(src, start + 2);
  }

  /** The block-comment loop stops at the end, or just after a `]/`. */
  lemma {:induction false} BlockCommentEnds(src: string, i: nat, line: nat)
    requires i <= |src|
    ensures var r := BlockComment(src, i, line);
      r.0 == |src| || (i + 2 <= r.0 && src[r.0 - 2] == ']' && src[r.0 - 1] == '/')
    decreases |src| - i
  {
    if i < |src| && src[i] == ']' {
      if !(i + 1 < |src| && src[i + 1] == '/') && i + 1 != |src| {
        BlockCommentEnds(src, i + 2, if src[i + 1] == '\n' then line + 1 else line);
      }
    } else if i < |src| {
      BlockCommentEnds(src, i + 1, if src[i] == '\n' then line + 1 else line);
    }
  }

  /** `/[` produces nothing and stops just after a `]/`, or at the end. */
  lemma BlockComments(src: string, start: nat, line: nat)
    requires start + 1 < |src| && src[start] == '/' && src[start + 1] == '['
    ensures var st := SlashToken(src, start, line);
      && st.token.None? && st.error.None?
      && st.line == line + CountNewlines(src[start..st.next])
      && (st.next == |src| || (start + 4 <= st.next && src[st.next - 2] == ']' && src[st.next - 1] == '/'))
  {
    BlockCommentEnds(src, start + 2, line);
  }

  /** A `]` consumed by the first `isNext` is not looked at again, so in
      `]]/` the second `]` and the `/` do not end the comment. */
  lemma DoubleBracketDoesNotClose(src: string, i: nat, line: nat)
    requires i + 2 < |src| && src[i] == ']' && src[i + 1] == ']' && src[i + 2] == '/'
    ensures BlockComment(src, i, line) == BlockComment(src, i + 3, line)
  {
    assert BlockComment(src, i + 2, line) == BlockComment(src, i + 3, line);
  }

  /** A character that starts no token reports one error naming it, adds no
      token, and scanning resumes after it. */
  lemma UnexpectedCharacters(src: string, start: nat, line: nat)
    requires start < |src| && src[start] != '\n'
    requires !IsAlphaNumeric(src[start])
    requires !(src[start] == '.' && IsDigit(Peek(src, start + 1)))
    ensures var st := OtherToken(src, start, line);
      && st.token.None? && st.next == start + 1 && st.line == line
      && st.error == Some(CompileError(line, UnexpectedCharacter + [src[start]]))
  {
  }
}
