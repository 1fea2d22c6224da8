/** `Parser` of src/Parser.cpp: a cursor over the lexer's token vector and
    one method per production. A thrown `ParseError` (or the string literal
    that the `Literal` constructor throws) is an `Err` result that every caller hands straight
    back, as nothing in this revision catches it; the line and message that
    `Proto::error` reports are appended to `diags`. Each method is proved
    to follow the function of `ParseSpec` for its production, both in its
    result and in where it leaves the cursor. */
module Parsing {
  import opened Base
  import opened Tokens
  import opened Ast
  import opened ParseSpec
  import Printing

  class Parser {
    const tokens: seq<Token>
    var current: nat
    var diags: seq<Diagnostic>

    predicate Valid()
      reads this
    {
      WellFormed(tokens) && current < |tokens|
    }

    constructor (toks: seq<Token>)
      requires WellFormed(toks)
      ensures Valid() && tokens == toks && current == 0 && diags == []
    {
      tokens := toks;
      current := 0;
      diags := [];
    }

    method IsAtEnd() returns (b: bool)
      requires Valid()
      ensures b == AtEnd(tokens, current)
    {
      b := tokens[current].tokenType == Eof;
    }

    method Peek() returns (t: Token)
      requires Valid()
      ensures t == tokens[current]
    {
      t := tokens[current];
    }

    /** `previous`: `m_tokens.at(m_current - 1)` throws at the start. */
    method Previous() returns (t: Option<Token>)
      requires Valid()
      ensures t == PreviousAt(tokens, current)
      ensures t.Some? <==> current > 0
    {
      if current == 0 {
        t := None;
      } else {
        t := Some(tokens[current - 1]);
      }
    }

    method IsNextType(tt: TokenType) returns (b: bool)
      requires Valid()
      ensures b == Check(tokens, current, tt)
      ensures b ==> tokens[current].tokenType == tt && tt != Eof
    {
      var end := IsAtEnd();
      if end {
        return false;
      }
      b := tokens[current].tokenType == tt;
    }

    /** `advance`: step past the current token unless it is the EOF token,
        and give back the token before the cursor. */
    method Advance() returns (t: Option<Token>)
      requires Valid()
      modifies this
      ensures Valid() && diags == old(diags)
      ensures current == Next(tokens, old(current))
      ensures t == PreviousAt(tokens, current)
    {
      var end := IsAtEnd();
      if !end {
        current := current + 1;
      }
      t := Previous();
    }

    /** `match(types)`: try the types in order and consume the token on the
        first one that fits. */
    method Match(types: seq<TokenType>) returns (b: bool)
      requires Valid()
      modifies this
      ensures Valid() && diags == old(diags)
      ensures b == MatchAny(tokens, old(current), types)
      ensures current == if b then old(current) + 1 else old(current)
    {
      for i := 0 to |types|
        invariant current == old(current) && diags == old(diags)
        invariant forall j :: 0 <= j < i ==> !Check(tokens, current, types[j])
      {
        var hit := IsNextType(types[i]);
        if hit {
          var _ := Advance();
          return true;
        }
      }
      return false;
    }

    /** `error`: report the token's line and the message, and build the
        exception. */
    method Error(t: Token, msg: string) returns (f: Failure)
      modifies this
      ensures current == old(current)
      ensures diags == old(diags) + [CompileError(t.line, msg)]
      ensures f == ParseError(t, msg)
    {
      diags := diags + [CompileError(t.line, msg)];
      f := ParseError(t, msg);
    }

    method MatchWithErr(tt: TokenType, msg: string) returns (r: Result<(), Failure>)
      requires Valid()
      modifies this
      ensures Valid()
      ensures (r, current) == Expect(tokens, old(current), tt, msg)
      ensures diags == old(diags) + Logged(r)
    {
      var hit := IsNextType(tt);
      if hit {
        var _ := Advance();
        return Ok(());
      }
      var t := Peek();
      var f := Error(t, msg);
      return Err(f);
    }

    /** `sync`, with the `advance()` its loop lacks (see `SyncLoopAsWritten`
        for the loop as written): consume the erroneous token, then tokens
        up to the next statement boundary. */
    method Sync()
      requires Valid()
      modifies this
      ensures Valid() && diags == old(diags)
      ensures current == SyncAt(tokens, old(current))
    {
      var _ := Advance();
      while true
        invariant Valid() && diags == old(diags)
        invariant SyncLoop(tokens, current) == SyncAt(tokens, old(current))
        decreases |tokens| - current
      {
        var end := IsAtEnd();
        if end {
          return;
        }
        var prev := Previous();
        if prev.Some? && prev.value.tokenType == Semicolon {
          return;
        }
        var t := Peek();
        if t.tokenType in StatementStarts {
          return;
        }
        var _ := Advance();
      }
    }

    method ParseExpression() returns (r: Result<Expr, Failure>)
      requires Valid()
      modifies this
      ensures Valid()
      ensures (r, current) == ExpressionAt(tokens, old(current))
      ensures diags == old(diags) + Logged(r)
      decreases |tokens| - current, 2 * Rank(EqualityLevel) + 3
    {
      r := ParseLevel(EqualityLevel);
    }

    /** `equality`, `comparision`, `addition` and `product`: one operand,
        then the level's loop. */
    method ParseLevel(lv: Level) returns (r: Result<Expr, Failure>)
      requires Valid()
      modifies this
      ensures Valid()
      ensures (r, current) == LevelAt(tokens, old(current), lv)
      ensures diags == old(diags) + Logged(r)
      decreases |tokens| - current, 2 * Rank(lv) + 2
    {
      r := ParseOperand(lv);
      if r.Ok? {
        r := ParseLevelRest(lv, r.value);
      }
    }

    /** The loop of a binary level: while one of its operators follows,
        take it and another operand, with the tree so far on the left. */
    method ParseLevelRest(lv: Level, left: Expr) returns (r: Result<Expr, Failure>)
      requires Valid()
      modifies this
      ensures Valid()
      ensures (r, current) == LevelRestAt(tokens, old(current), lv, left)
      ensures diags == old(diags) + Logged(r)
      decreases |tokens| - current, 2 * Rank(lv) + 1
    {
      var expr := left;
      while true
        invariant Valid() && old(current) <= current && diags == old(diags)
        invariant LevelRestAt(tokens, current, lv, expr) == LevelRestAt(tokens, old(current), lv, left)
        decreases |tokens| - current
      {
        ghost var start := current;
        var matched := Match(Operators(lv));
        if !matched {
          LevelRestEnds(tokens, start, lv, expr);
          return Ok(expr);
        }
        var op := Previous();
        var right := ParseOperand(lv);
        if right.Err? {
          LevelRestFails(tokens, start, lv, expr);
          return right;
        }
        LevelRestTurn(tokens, start, lv, expr, right.value, current);
        expr := Binary(expr, op.value, right.value);
      }
    }

    /** The level below `lv`: `product` works on `unary`. */
    method ParseOperand(lv: Level) returns (r: Result<Expr, Failure>)
      requires Valid()
      modifies this
      ensures Valid()
      ensures (r, current) == OperandAt(tokens, old(current), lv)
      ensures diags == old(diags) + Logged(r)
      decreases |tokens| - current, 2 * Rank(lv) + 1
    {
      if lv == ProductLevel {
        r := ParseUnary();
      } else {
        r := ParseLevel(Tighter(lv));
      }
    }

    method ParseUnary() returns (r: Result<Expr, Failure>)
      requires Valid()
      modifies this
      ensures Valid()
      ensures (r, current) == UnaryAt(tokens, old(current))
      ensures diags == old(diags) + Logged(r)
      decreases |tokens| - current, 1
    {
      var m := Match(UnaryOperators);
      if m {
        var op := Previous();
        var right := ParseUnary();
        if right.Err? {
          return right;
        }
        return Ok(Unary(op.value, right.value));
      }
      r := ParsePrimary();
    }

    method ParsePrimary() returns (r: Result<Expr, Failure>)
      requires Valid()
      modifies this
      ensures Valid()
      ensures (r, current) == PrimaryAt(tokens, old(current))
      ensures diags == old(diags) + Logged(r)
      decreases |tokens| - current, 0
    {
      var lit := Match(LiteralTokens);
      if lit {
        var t := Previous();
        match MakeLiteral(t.value) {
          case Ok(e) => return Ok(e);
          case Err(m) => return Err(LiteralError(m));
        }
      }
      var paren := Match([LParen]);
      if paren {
        var inner := ParseExpression();
        if inner.Err? {
          return inner;
        }
        var closed := MatchWithErr(RParen, AfterGroup);
        if closed.Err? {
          return Err(closed.error);
        }
        return inner;
      }
      var t := Peek();
      var f := Error(t, ExpectedExpression);
      return Err(f);
    }

    method ParseStatement() returns (r: Result<Stmt, Failure>)
      requires Valid()
      modifies this
      ensures Valid()
      ensures (r, current) == StatementAt(tokens, old(current))
      ensures diags == old(diags) + Logged(r)
    {
      var p := Match([Print]);
      if p {
        r := ParsePrintStmt();
      } else {
        r := ParseExprStmt();
      }
    }

    method ParsePrintStmt() returns (r: Result<Stmt, Failure>)
      requires Valid()
      modifies this
      ensures Valid()
      ensures (r, current) == PrintStmtAt(tokens, old(current))
      ensures diags == old(diags) + Logged(r)
    {
      var e := ParseExpression();
      if e.Err? {
        return Err(e.error);
      }
      var semi := MatchWithErr(Semicolon, AfterValue);
      if semi.Err? {
        return Err(semi.error);
      }
      return Ok(PrintStmt(e.value));
    }

    method ParseExprStmt() returns (r: Result<Stmt, Failure>)
      requires Valid()
      modifies this
      ensures Valid()
      ensures (r, current) == ExprStmtAt(tokens, old(current))
      ensures diags == old(diags) + Logged(r)
    {
      var e := ParseExpression();
      if e.Err? {
        return Err(e.error);
      }
      var semi := MatchWithErr(Semicolon, AfterExpression);
      if semi.Err? {
        return Err(semi.error);
      }
      return Ok(Expression(e.value));
    }

    /** `parse`: statements up to the EOF token. */
    method Parse() returns (r: Result<seq<Stmt>, Failure>)
      requires Valid()
      modifies this
      ensures Valid()
      ensures (r, current) == ProgramFrom(tokens, old(current), [])
      ensures old(current) == 0 ==> (r, current) == Program(tokens)
      ensures diags == old(diags) + Logged(r)
    {
      var statements: seq<Stmt> := [];
      ghost var goal := ProgramFrom(tokens, current, []);
      while true
        invariant Valid() && diags == old(diags)
        invariant ProgramFrom(tokens, current, statements) == goal
        decreases |tokens| - current
      {
        var end := IsAtEnd();
        if end {
          return Ok(statements);
        }
        var s := ParseStatement();
        if s.Err? {
          return Err(s.error);
        }
        statements := statements + [s.value];
      }
    }
  }

  /** What `expression` returns can always be printed by the tree printer,
      and is never a group node. */
  lemma ParsedPrintable(toks: seq<Token>, pos: nat)
    requires WellFormed(toks) && pos < |toks| && ExpressionAt(toks, pos).0.Ok?
    ensures !ExpressionAt(toks, pos).0.value.ParenGroup?
    ensures Printing.Printable(ExpressionAt(toks, pos).0.value)
  {
    ExpressionProduced(toks, pos);
    ProducedPrintable(ExpressionAt(toks, pos).0.value);
  }

  /** No tree the parser builds holds a group node, and every one of them
      can be printed by the tree printer. */
  lemma {:induction false} ProducedPrintable(e: Expr)
    requires Produced(e)
    ensures !e.ParenGroup? && Printing.Printable(e)
  {
    match e {
      case Binary(l, _, r) =>
        ProducedPrintable(l);
        ProducedPrintable(r);
      case Unary(_, r) =>
        ProducedPrintable(r);
      case Literal(_, _) =>
    }
  }
}
