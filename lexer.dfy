/** The scanner of src/Lexer.cpp as a class: the cursor fields `start`,
    `current` and `line` are advanced by its methods, `tokens` is the token
    list it pushes onto, and `errors` is what it reports through `Proto`.
    Every method is proved to do what module LexSpec says it does. */
module Lexing {
  import opened Base
  import opened Tokens
  import opened LexSpec

  class Lexer {
    const src: string
    var tokens: seq<Token>
    var start: nat
    var current: nat
    var line: nat
    var errors: seq<Diagnostic>

    ghost predicate Valid()
      reads this
    {
      start <= current <= |src|
    }

    /** `Lexer(std::string&& src)`: the cursor at the start, on line 1. */
    constructor (source: string)
      ensures Valid()
      ensures src == source && tokens == [] && errors == []
      ensures start == 0 && current == 0 && line == 1
    {
      src := source;
      tokens := [];
      errors := [];
      start, current, line := 0, 0, 1;
    }

    predicate IsAtEnd()
      reads this
    {
      current >= |src|
    }

    function Peek(): char
      reads this
    {
      LexSpec.Peek(src, current)
    }

    function PeekBy2(): char
      reads this
    {
      LexSpec.PeekBy2(src, current)
    }

    /** `advance`: `m_src.at(m_current++)`; every caller first checks that
        the cursor is not at the end. */
    method Advance() returns (c: char)
      requires current < |src|
      modifies this`current
      ensures c == src[old(current)] && current == old(current) + 1
    {
      c := src[current];
      current := current + 1;
    }

    /** `isNext`: consume the next character only if it is `c`. */
    method IsNext(c: char) returns (b: bool)
      requires Valid()
      modifies this`current
      ensures Valid()
      ensures b <==> old(current) < |src| && src[old(current)] == c
      ensures current == if b then old(current) + 1 else old(current)
    {
      if current >= |src| {
        return false;
      }
      if src[current] != c {
        return false;
      }
      current := current + 1;
      return true;
    }

    /** `addToken`: the lexeme is `src[start..current]`, with the two quotes
        dropped for a string literal. */
    method AddToken(tt: TokenType, lt: LiteralType)
      requires Valid()
      requires lt == StrLit ==> current - start >= 2
      modifies this`tokens
      ensures lt != StrLit ==> tokens == old(tokens) + [Token(tt, src[start..current], line, lt)]
      ensures lt == StrLit ==> tokens == old(tokens) + [Token(tt, src[start + 1..current - 1], line, lt)]
    {
      var lexeme := src[start..current];
      if lt == StrLit {
        lexeme := src[start + 1..current - 1];
      }
      tokens := tokens + [Token(tt, lexeme, line, lt)];
    }

    /** The loop of `string`: up to the closing quote or the end. */
    method SkipStringBody()
      requires Valid()
      modifies this`current, this`line
      ensures Valid()
      ensures (current, line) == StringBody(src, old(current), old(line))
    {
      ghost var target := StringBody(src, current, line);
      while Peek() != '"' && !IsAtEnd()
        invariant start <= current <= |src|
        invariant StringBody(src, current, line) == target
        decreases |src| - current
      {
        if Peek() == '\n' {
          line := line + 1;
        }
        var _ := Advance();
      }
    }

    /** `string`, entered just after the opening quote. */
    method ScanString()
      requires Valid() && start < |src| && src[start] == '"' && current == start + 1
      modifies this`current, this`line, this`tokens, this`errors
      ensures Valid()
      ensures var st := StringToken(src, start, old(line));
        && current == st.next && line == st.line
        && tokens == old(tokens) + OptSeq(st.token)
        && errors == old(errors) + OptSeq(st.error)
    {
      StringTokenShape(src, start, line);
      SkipStringBody();
      FinishString();
    }

    /** The end of `string`: the closing quote, or the error when the text
        ends first. */
    method FinishString()
      requires Valid() && start < current
      modifies this`current, this`tokens, this`errors
      ensures Valid()
      ensures old(current) == |src| ==>
        current == old(current) && tokens == old(tokens) && errors == old(errors) + [CompileError(line, UnterminatedString)]
      ensures old(current) < |src| ==>
        current == old(current) + 1 && errors == old(errors)
        && tokens == old(tokens) + [Token(StringLiteral, src[start + 1..old(current)], line, StrLit)]
    {
      if IsAtEnd() {
        errors := errors + [CompileError(line, UnterminatedString)];
        return;
      }
      var _ := Advance();
      AddToken(StringLiteral, StrLit);
    }

    /** `while (isDigit(peek())) advance();` */
    method SkipDigitRun()
      requires Valid()
      modifies this`current
      ensures Valid()
      ensures current == SkipDigits(src, old(current))
    {
      ghost var from := current;
      while LexSpec.IsDigit(Peek())
        invariant from <= current <= |src|
        invariant SkipDigits(src, current) == SkipDigits(src, from)
        decreases |src| - current
      {
        var _ := Advance();
      }
    }

    /** `number`, entered just after the first character of the number. */
    method ScanNumber()
      requires Valid() && start < |src| && src[start] != '\n' && current == start + 1
      modifies this`current, this`tokens
      ensures Valid()
      ensures var st := NumberToken(src, start, line);
        current == st.next && tokens == old(tokens) + OptSeq(st.token)
    {
      NumberTokenShape(src, start, line);
      SkipNumberRest();
      AddToken(NumberLiteral, NumLit);
    }

    /** The digits of `number`, then a `.` and more digits when a digit
        follows the `.`. */
    method SkipNumberRest()
      requires Valid()
      modifies this`current
      ensures Valid()
      ensures current == NumberEnd(src, old(current))
    {
      SkipDigitRun();
      if Peek() == '.' && LexSpec.IsDigit(PeekBy2()) {
        var _ := Advance();
        SkipDigitRun();
      }
    }

    /** `while (isAlphaNumeric(peek())) advance();` */
    method SkipWordRun()
      requires Valid()
      modifies this`current
      ensures Valid()
      ensures current == SkipAlphaNumeric(src, old(current))
    {
      ghost var from := current;
      while IsAlphaNumeric(Peek())
        invariant from <= current <= |src|
        invariant SkipAlphaNumeric(src, current) == SkipAlphaNumeric(src, from)
        decreases |src| - current
      {
        var _ := Advance();
      }
    }

    /** `identifierOrKeyword`, entered just after the first letter. */
    method ScanWord()
      requires Valid() && start < |src| && current == start + 1
      requires IsAlphaOrUnderscore(src[start])
      modifies this`current, this`tokens
      ensures Valid()
      ensures var st := WordToken(src, start, line);
        current == st.next && tokens == old(tokens) + OptSeq(st.token)
    {
      WordTokenShape(src, start, line);
      SkipWordRun();
      var word := src[start..current];
      var kind := KeywordType(word);
      if kind.Some? {
        AddToken(kind.value, KeywordSubtype(word));
      } else {
        AddToken(Identifier, NotLiteral);
      }
    }

    /** The `/[ ... ]/` loop, entered just after the `[`. */
    method SkipBlockComment()
      requires Valid()
      modifies this`current, this`line
      ensures Valid()
      ensures (current, line) == BlockComment(src, old(current), old(line))
    {
      ghost var target := BlockComment(src, current, line);
      var done := false;
      while !done
        invariant start <= current <= |src|
        invariant done ==> (current, line) == target
        invariant !done ==> BlockComment(src, current, line) == target
        decreases |src| - current, !done
      {
        BlockCommentStep(src, current, line);
        done := CommentTurn();
      }
    }

    /** One turn of that loop: the test `isNext(']') && isNext('/')` and
        `isAtEnd()`, then the body when neither ends the loop. */
    method CommentTurn() returns (done: bool)
      requires Valid()
      modifies this`current, this`line
      ensures Valid()
      ensures (current, line, done) == CommentNext(src, old(current), old(line))
    {
      var closing := IsNext(']');
      var slash := false;
      if closing {
        slash := IsNext('/');
      }
      if (closing && slash) || IsAtEnd() {
        return true;
      }
      if Peek() == '\n' {
        line := line + 1;
      }
      var _ := Advance();
      return false;
    }

    /** The `//` loop: up to the next newline, which is left in place. */
    method SkipLineComment()
      requires Valid()
      modifies this`current
      ensures Valid()
      ensures current == SkipLine(src, old(current))
    {
      ghost var from := current;
      while Peek() != '\n' && !IsAtEnd()
        invariant from <= current <= |src|
        invariant SkipLine(src, current) == SkipLine(src, from)
        decreases |src| - current
      {
        var _ := Advance();
      }
    }

    /** The `/` case of `scanToken`, entered just after the `/`. */
    method ScanSlash()
      requires Valid() && start < |src| && src[start] == '/' && current == start + 1
      modifies this`current, this`line, this`tokens
      ensures Valid()
      ensures var st := SlashToken(src, start, old(line));
        && current == st.next && line == st.line
        && tokens == old(tokens) + OptSeq(st.token)
    {
      SlashTokenShape(src, start, line);
      var comment := IsNext('/');
      if comment {
        SkipLineComment();
        assert tokens == old(tokens) + [];
        return;
      }
      ScanBlockOrDivision();
    }

    /** The `else` branches of the `/` case: a block comment or division. */
    method ScanBlockOrDivision()
      requires Valid() && start < current <= |src| && current == start + 1
      modifies this`current, this`line, this`tokens
      ensures Valid()
      ensures old(Peek()) == '[' ==> (current, line) == BlockComment(src, old(current) + 1, old(line)) && tokens == old(tokens)
      ensures old(Peek()) != '[' ==>
        (current == old(current) && line == old(line)
         && tokens == old(tokens) + [Token(Division, src[start..current], line, NotLiteral)])
    {
      var block := IsNext('[');
      if block {
        SkipBlockComment();
        return;
      }
      AddToken(Division, NotLiteral);
    }

    /** `addToken(tt)` for a one-character token. */
    method ScanSingle(tt: TokenType)
      requires Valid() && start < |src| && src[start] != '\n' && tt != Eof && current == start + 1
      modifies this`tokens
      ensures var st := Single(src, start, line, tt);
        && current == st.next && line == st.line
        && tokens == old(tokens) + OptSeq(st.token) && st.error.None?
    {
      AddToken(tt, NotLiteral);
    }

    /** `addToken(isNext('=') ? two : one)`. */
    method ScanOperator(one: TokenType, two: TokenType)
      requires Valid() && start < |src| && src[start] != '\n' && current == start + 1
      requires one != Eof && two != Eof
      modifies this`current, this`tokens
      ensures Valid()
      ensures var st := Operator(src, start, line, one, two);
        && current == st.next && line == st.line
        && tokens == old(tokens) + OptSeq(st.token) && st.error.None?
    {
      var eq := IsNext('=');
      AddToken(if eq then two else one, NotLiteral);
    }

    /** The `default` branch of `scanToken`. */
    method ScanOther(c: char)
      requires Valid() && start < |src| && src[start] == c && c != '\n' && current == start + 1
      modifies this`current, this`tokens, this`errors
      ensures Valid()
      ensures var st := OtherToken(src, start, line);
        && current == st.next && line == st.line
        && tokens == old(tokens) + OptSeq(st.token)
        && errors == old(errors) + OptSeq(st.error)
    {
      OtherTokenShape(src, start, line);
      if LexSpec.IsDigit(c) || (c == '.' && LexSpec.IsDigit(Peek())) {
        ScanNumber();
        assert errors == old(errors) + [];
      } else if IsAlphaOrUnderscore(c) {
        ScanWord();
        assert errors == old(errors) + [];
      } else {
        errors := errors + [CompileError(line, UnexpectedCharacter + [c])];
        assert tokens == old(tokens) + [];
      }
    }

    /** `scanToken`: consume one character and act on it. */
    method ScanToken()
      requires Valid() && start == current < |src|
      modifies this`current, this`line, this`tokens, this`errors
      ensures Valid()
      ensures var st := ScanOne(src, old(current), old(line));
        && current == st.next && line == st.line
        && tokens == old(tokens) + OptSeq(st.token)
        && errors == old(errors) + OptSeq(st.error)
    {
      ScanOneOperators(src, current, line);
      ScanOneSingles(src, current, line);
      var c := Advance();
      match c {
        case '(' => ScanSingle(LParen);
        case ')' => ScanSingle(RParen);
        case '{' => ScanSingle(LBrace);
        case '}' => ScanSingle(RBrace);
        case ',' => ScanSingle(Comma);
        case '+' => ScanSingle(Plus);
        case '-' => ScanSingle(Minus);
        case '*' => ScanSingle(Product);
        case ';' => ScanSingle(Semicolon);
        case '!' => ScanOperator(Not, NotEqual);
        case '=' => ScanOperator(Equal, EqEqual);
        case '>' => ScanOperator(Greater, GtEqual);
        case '<' => ScanOperator(Less, LtEqual);
        case _ => ScanRest(c);
      }
    }

    /** The remaining cases of the `switch` of `scanToken`: comments and
        division, white space, newlines, strings and the `default` case. */
    method ScanRest(c: char)
      requires Valid() && start < |src| && src[start] == c && current == start + 1
      requires c !in "(){},+-*;!=<>"
      modifies this`current, this`line, this`tokens, this`errors
      ensures Valid()
      ensures var st := ScanOne(src, start, old(line));
        && current == st.next && line == st.line
        && tokens == old(tokens) + OptSeq(st.token)
        && errors == old(errors) + OptSeq(st.error)
    {
      ScanOneCases(src, start, line);
      ScanOneBlanks(src, start, line);
      match c {
        case '/' => ScanSlash();
        case ' ' =>
        case '\t' =>
        case '\r' =>
        case '\n' => line := line + 1;
        case '"' => ScanString();
        case _ =>
          ScanOneDefault(src, start, line);
          ScanOther(c);
      }
    }

    /** `scanTokens`: scan to the end, then append the end-of-input token. */
    method ScanTokens() returns (result: seq<Token>)
      requires Valid()
      modifies this
      ensures Valid()
      ensures var s := ScanFrom(src, old(current), old(line));
        && tokens == old(tokens) + s.tokens + [EofToken(s.line)]
        && errors == old(errors) + s.errors
        && line == s.line && current == |src|
      ensures result == tokens
    {
      ghost var all := ScanFrom(src, current, line);
      while !IsAtEnd()
        invariant Valid()
        invariant var s := ScanFrom(src, current, line);
          && old(tokens) + all.tokens == tokens + s.tokens
          && old(errors) + all.errors == errors + s.errors
          && all.line == s.line
        decreases |src| - current
      {
        start := current;
        ghost var pos, ln, ts, es := current, line, tokens, errors;
        ScanToken();
        ghost var st := ScanOne(src, pos, ln);
        ghost var rest := ScanFrom(src, current, line);
        assert ScanFrom(src, pos, ln) == Scan(OptSeq(st.token) + rest.tokens, OptSeq(st.error) + rest.errors, rest.line);
        Regroup(ts, OptSeq(st.token), rest.tokens);
        Regroup(es, OptSeq(st.error), rest.errors);
      }
      assert ScanFrom(src, current, line) == Scan([], [], line);
      tokens := tokens + [EofToken(line)];
      result := tokens;
    }
  }

  /** Where one turn of the block-comment loop from `i` leaves the cursor
      and the line, and whether the loop then ends. */
  function CommentNext(src: string, i: nat, line: nat): (nat, nat, bool)
    requires i <= |src|
  {
    if i == |src| then (i, line, true)
    else if src[i] == ']' && i + 1 < |src| && src[i + 1] == '/' then (i + 2, line, true)
    else if src[i] == ']' && i + 1 == |src| then (i + 1, line, true)
    else if src[i] == ']' then (i + 2, if src[i + 1] == '\n' then line + 1 else line, false)
    else (i + 1, if src[i] == '\n' then line + 1 else line, false)
  }

  /** The comment's end is where the turn ends the loop, or else the end
      from where the turn leaves the cursor. */
  lemma BlockCommentStep(src: string, i: nat, line: nat)
    requires i <= |src|
    ensures var (j, l, done) := CommentNext(src, i, line);
      i <= j <= |src| && (!done ==> i < j)
      && BlockComment(src, i, line) == if done then (j, l) else BlockComment(src, j, l)
  {
  }

  /** The cases of `scanToken` that add a one-character token. */
  lemma ScanOneSingles(src: string, start: nat, line: nat)
    requires start < |src|
    ensures var c := src[start];
      && (c == '(' ==> ScanOne(src, start, line) == Single(src, start, line, LParen))
      && (c == ')' ==> ScanOne(src, start, line) == Single(src, start, line, RParen))
      && (c == '{' ==> ScanOne(src, start, line) == Single(src, start, line, LBrace))
      && (c == '}' ==> ScanOne(src, start, line) == Single(src, start, line, RBrace))
      && (c == ',' ==> ScanOne(src, start, line) == Single(src, start, line, Comma))
      && (c == '+' ==> ScanOne(src, start, line) == Single(src, start, line, Plus))
      && (c == '-' ==> ScanOne(src, start, line) == Single(src, start, line, Minus))
      && (c == '*' ==> ScanOne(src, start, line) == Single(src, start, line, Product))
      && (c == ';' ==> ScanOne(src, start, line) == Single(src, start, line, Semicolon))
  {
  }

  /** What `string` does, in the terms the method uses. */
  lemma StringTokenShape(src: string, start: nat, line: nat)
    requires start < |src| && src[start] == '"'
    ensures var (j, l) := StringBody(src, start + 1, line);
      StringToken(src, start, line)
      == if j == |src| then Step(j, l, None, Some(CompileError(l, UnterminatedString)))
         else Step(j + 1, l, Some(Token(StringLiteral, src[start + 1..j], l, StrLit)), None)
  {
  }

  /** What `number` does, in the terms the method uses. */
  lemma NumberTokenShape(src: string, start: nat, line: nat)
    requires start < |src| && src[start] != '\n'
    ensures var j := NumberEnd(src, start + 1);
      NumberToken(src, start, line) == Step(j, line, Some(Token(NumberLiteral, src[start..j], line, NumLit)), None)
  {
  }

  /** What the `/` case does, in the terms the method uses. */
  lemma SlashTokenShape(src: string, start: nat, line: nat)
    requires start < |src| && src[start] == '/'
    ensures SlashToken(src, start, line)
      == if Peek(src, start + 1) == '/' then Step(SkipLine(src, start + 2), line, None, None)
         else if Peek(src, start + 1) == '[' then
           var (j, l) := BlockComment(src, start + 2, line); Step(j, l, None, None)
         else Step(start + 1, line, Some(Token(Division, src[start..start + 1], line, NotLiteral)), None)
  {
  }

  /** The token `identifierOrKeyword` adds, in the terms the method uses. */
  lemma WordTokenShape(src: string, start: nat, line: nat)
    requires start < |src| && IsAlphaOrUnderscore(src[start])
    ensures var j := SkipAlphaNumeric(src, start + 1);
      var word := src[start..j];
      WordToken(src, start, line)
      == Step(j, line, Some(match KeywordType(word)
                            case Some(tt) => Token(tt, word, line, KeywordSubtype(word))
                            case None => Token(Identifier, word, line, NotLiteral)), None)
  {
  }

  /** The three outcomes of the `default` branch, in the terms the method uses. */
  lemma OtherTokenShape(src: string, start: nat, line: nat)
    requires start < |src| && src[start] != '\n'
    ensures var c := src[start];
      var st := OtherToken(src, start, line);
      if LexSpec.IsDigit(c) || (c == '.' && LexSpec.IsDigit(LexSpec.Peek(src, start + 1))) then
        st == NumberToken(src, start, line) && st.line == line && st.error.None?
      else if IsAlphaOrUnderscore(c) then
        st == WordToken(src, start, line) && st.line == line && st.error.None?
      else
        st == Step(start + 1, line, None, Some(CompileError(line, UnexpectedCharacter + [c])))
  {
  }

  lemma Regroup<T>(a: seq<T>, b: seq<T>, c: seq<T>)
    ensures a + (b + c) == (a + b) + c
  {
  }

  /** Scanning a whole source text with a fresh lexer yields `Lex`. */
  method LexSource(source: string) returns (toks: seq<Token>, errs: seq<Diagnostic>)
    ensures (toks, errs) == Lex(source)
  {
    var lexer := new Lexer(source);
    toks := lexer.ScanTokens();
    errs := lexer.errors;
    ghost var s := ScanFrom(source, 0, 1);
    assert toks == [] + s.tokens + [EofToken(s.line)] == s.tokens + [EofToken(s.line)];
    assert errs == [] + s.errors == s.errors;
  }
}
