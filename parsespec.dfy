/** The grammar of src/Parser.cpp as functions over the token vector and a
    cursor position. Each production takes the position where it starts
    and yields its result together with the position of the cursor once it
    returns or throws, so that the `Parser` class can be proved against it
    call by call. */
module ParseSpec {
  import opened Base
  import opened Tokens
  import opened Ast

  /** What a production throws: a `ParseError` (reported through
      `Proto::error` first), or the `const char*` message that the `Literal`
      constructor throws for a token without a literal subtype. */
  datatype Failure =
    | ParseError(at: Token, message: string)
    | LiteralError(message: string)

  /** The outcome of a production and the cursor after it. */
  type Parsed<T> = (Result<T, Failure>, nat)

  /** The diagnostic a failed production has reported: a parse error logs
      the offending token's line and the message, a literal error nothing. */
  function Logged<T>(r: Result<T, Failure>): (d: seq<Diagnostic>)
    ensures |d| <= 1
    ensures d != [] <==> r.Err? && r.error.ParseError?
  {
    if r.Err? && r.error.ParseError? then [CompileError(r.error.at.line, r.error.message)] else []
  }

  /** The token vector a lexer hands over: it ends with the EOF token. */
  predicate WellFormed(toks: seq<Token>) {
    |toks| > 0 && toks[|toks| - 1].tokenType == Eof
  }

  const AfterValue := "Expected a ';' after value."
  const AfterExpression := "Expected a ';' after expression."
  const AfterGroup := "Expected ')' after expression."
  const ExpectedExpression := "Expected an expression."

  /** `isAtEnd`. */
  predicate AtEnd(toks: seq<Token>, pos: nat)
    requires pos < |toks|
  {
    toks[pos].tokenType == Eof
  }

  /** `isNextType`: never true at the end. */
  predicate Check(toks: seq<Token>, pos: nat, tt: TokenType)
    requires pos < |toks|
  {
    !AtEnd(toks, pos) && toks[pos].tokenType == tt
  }

  /** `previous`: the token before the cursor; there is none at the start. */
  function PreviousAt(toks: seq<Token>, pos: nat): Option<Token>
    requires pos <= |toks|
  {
    if pos == 0 then None else Some(toks[pos - 1])
  }

  /** The cursor after `advance`. */
  function Next(toks: seq<Token>, pos: nat): (p: nat)
    requires WellFormed(toks) && pos < |toks|
    ensures p < |toks|
  {
    if AtEnd(toks, pos) then pos else pos + 1
  }

  /** `match(types)` succeeds. */
  predicate MatchAny(toks: seq<Token>, pos: nat, types: seq<TokenType>)
    requires pos < |toks|
  {
    !AtEnd(toks, pos) && toks[pos].tokenType in types
  }

  /** `matchWithErr(tt, msg)`. */
  function Expect(toks: seq<Token>, pos: nat, tt: TokenType, msg: string): (r: Parsed<()>)
    requires WellFormed(toks) && pos < |toks|
    ensures r.1 < |toks|
    ensures r.0.Ok? <==> Check(toks, pos, tt)
    ensures r.0.Ok? ==> r.1 == pos + 1
    ensures r.0.Err? ==> r.1 == pos && r.0.error == ParseError(toks[pos], msg)
  {
    if Check(toks, pos, tt) then (Ok(()), pos + 1) else (Err(ParseError(toks[pos], msg)), pos)
  }

  /** The four left-associative binary levels, loosest first. */
  datatype Level = EqualityLevel | ComparisonLevel | AdditionLevel | ProductLevel

  /** The operator tokens each level's loop matches. */
  function Operators(lv: Level): seq<TokenType> {
    match lv
    case EqualityLevel => [NotEqual, EqEqual]
    case ComparisonLevel => [Greater, GtEqual, Less, LtEqual]
    case AdditionLevel => [Plus, Minus]
    case ProductLevel => [Product, Division]
  }

  /** The level each level's operands are parsed at. */
  function Tighter(lv: Level): Level
    requires lv != ProductLevel
  {
    match lv
    case EqualityLevel => ComparisonLevel
    case ComparisonLevel => AdditionLevel
    case AdditionLevel => ProductLevel
  }

  function Rank(lv: Level): nat {
    match lv
    case EqualityLevel => 4
    case ComparisonLevel => 3
    case AdditionLevel => 2
    case ProductLevel => 1
  }

  /** The ten operators of the binary levels. */
  predicate BinaryOperator(tt: TokenType) {
    || tt.NotEqual? || tt.EqEqual? || tt.Greater? || tt.GtEqual? || tt.Less?
    || tt.LtEqual? || tt.Plus? || tt.Minus? || tt.Product? || tt.Division?
  }

  const UnaryOperators: seq<TokenType> := [Not, Minus]
  const LiteralTokens: seq<TokenType> := [True, False, Nix, NumberLiteral, StringLiteral]

  lemma OperatorsBinary(lv: Level, tt: TokenType)
    requires tt in Operators(lv)
    ensures BinaryOperator(tt)
  {
  }

  /** The trees the parser builds: binary nodes over the ten binary
      operators, unary nodes over `!` and `-`, and consistent literals;
      in particular no `ParenGroup`. */
  predicate Produced(e: Expr) {
    match e
    case Binary(l, op, r) => BinaryOperator(op.tokenType) && Produced(l) && Produced(r)
    case Unary(op, r) => (op.tokenType.Not? || op.tokenType.Minus?) && Produced(r)
    case Literal(lt, v) => Consistent(lt, v)
    case _ => false
  }

  /** `expression`. */
  function ExpressionAt(toks: seq<Token>, pos: nat): (r: Parsed<Expr>)
    requires WellFormed(toks) && pos < |toks|
    ensures pos <= r.1 < |toks|
    decreases |toks| - pos, 2 * Rank(EqualityLevel) + 3
  {
    LevelAt(toks, pos, EqualityLevel)
  }

  /** `equality`, `comparision`, `addition` and `product`: one operand,
      then as long as one of the level's operators follows, the operator
      and another operand, folded to the left. */
  function LevelAt(toks: seq<Token>, pos: nat, lv: Level): (r: Parsed<Expr>)
    requires WellFormed(toks) && pos < |toks|
    ensures pos <= r.1 < |toks|
    decreases |toks| - pos, 2 * Rank(lv) + 2
  {
    var first := OperandAt(toks, pos, lv);
    if first.0.Err? then first else LevelRestAt(toks, first.1, lv, first.0.value)
  }

  /** The loop of a binary level, with the tree built so far. */
  function LevelRestAt(toks: seq<Token>, pos: nat, lv: Level, left: Expr): (r: Parsed<Expr>)
    requires WellFormed(toks) && pos < |toks|
    ensures pos <= r.1 < |toks|
    decreases |toks| - pos, 2 * Rank(lv) + 1
  {
    if MatchAny(toks, pos, Operators(lv)) then
      var right := OperandAt(toks, pos + 1, lv);
      if right.0.Err? then right
      else LevelRestAt(toks, right.1, lv, Binary(left, toks[pos], right.0.value))
    else (Ok(left), pos)
  }

  /** The next tighter level: `product` works on `unary`. */
  function OperandAt(toks: seq<Token>, pos: nat, lv: Level): (r: Parsed<Expr>)
    requires WellFormed(toks) && pos < |toks|
    ensures pos <= r.1 < |toks|
    decreases |toks| - pos, 2 * Rank(lv) + 1
  {
    if lv == ProductLevel then UnaryAt(toks, pos) else LevelAt(toks, pos, Tighter(lv))
  }

  /** `unary`: a prefix `!` or `-` applies to another unary. */
  function UnaryAt(toks: seq<Token>, pos: nat): (r: Parsed<Expr>)
    requires WellFormed(toks) && pos < |toks|
    ensures pos <= r.1 < |toks|
    decreases |toks| - pos, 1
  {
    if MatchAny(toks, pos, UnaryOperators) then
      var right := UnaryAt(toks, pos + 1);
      if right.0.Err? then right else (Ok(Unary(toks[pos], right.0.value)), right.1)
    else PrimaryAt(toks, pos)
  }

  /** `primary`: a literal token, or a parenthesised expression given back
      without a wrapper node. */
  function PrimaryAt(toks: seq<Token>, pos: nat): (r: Parsed<Expr>)
    requires WellFormed(toks) && pos < |toks|
    ensures pos <= r.1 < |toks|
    decreases |toks| - pos, 0
  {
    if MatchAny(toks, pos, LiteralTokens) then
      match MakeLiteral(toks[pos])
      case Ok(e) => (Ok(e), pos + 1)
      case Err(m) => (Err(LiteralError(m)), pos + 1)
    else if MatchAny(toks, pos, [LParen]) then
      var inner := ExpressionAt(toks, pos + 1);
      if inner.0.Err? then inner
      else
        var closed := Expect(toks, inner.1, RParen, AfterGroup);
        if closed.0.Err? then (Err(closed.0.error), closed.1) else (inner.0, closed.1)
    else (Err(ParseError(toks[pos], ExpectedExpression)), pos)
  }

  /** `printstmt`, after the `print` keyword. */
  function PrintStmtAt(toks: seq<Token>, pos: nat): (r: Parsed<Stmt>)
    requires WellFormed(toks) && pos < |toks|
    ensures pos <= r.1 < |toks|
    ensures r.0.Ok? ==> pos < r.1 && toks[r.1 - 1].tokenType == Semicolon
  {
    var e := ExpressionAt(toks, pos);
    if e.0.Err? then (Err(e.0.error), e.1)
    else
      var semi := Expect(toks, e.1, Semicolon, AfterValue);
      if semi.0.Err? then (Err(semi.0.error), semi.1) else (Ok(PrintStmt(e.0.value)), semi.1)
  }

  /** `exprstmt`. */
  function ExprStmtAt(toks: seq<Token>, pos: nat): (r: Parsed<Stmt>)
    requires WellFormed(toks) && pos < |toks|
    ensures pos <= r.1 < |toks|
    ensures r.0.Ok? ==> pos < r.1 && toks[r.1 - 1].tokenType == Semicolon
  {
    var e := ExpressionAt(toks, pos);
    if e.0.Err? then (Err(e.0.error), e.1)
    else
      var semi := Expect(toks, e.1, Semicolon, AfterExpression);
      if semi.0.Err? then (Err(semi.0.error), semi.1) else (Ok(Expression(e.0.value)), semi.1)
  }

  /** `statement`. */
  function StatementAt(toks: seq<Token>, pos: nat): (r: Parsed<Stmt>)
    requires WellFormed(toks) && pos < |toks|
    ensures pos <= r.1 < |toks|
    ensures r.0.Ok? ==> pos < r.1 && toks[r.1 - 1].tokenType == Semicolon
  {
    if MatchAny(toks, pos, [Print]) then PrintStmtAt(toks, pos + 1) else ExprStmtAt(toks, pos)
  }

  /** The loop of `parse`, with the statements collected so far; the first
      failure ends it, as nothing catches a `ParseError`. */
  function ProgramFrom(toks: seq<Token>, pos: nat, acc: seq<Stmt>): (r: Parsed<seq<Stmt>>)
    requires WellFormed(toks) && pos < |toks|
    ensures pos <= r.1 < |toks|
    decreases |toks| - pos
  {
    if AtEnd(toks, pos) then (Ok(acc), pos)
    else
      var s := StatementAt(toks, pos);
      if s.0.Err? then (Err(s.0.error), s.1) else ProgramFrom(toks, s.1, acc + [s.0.value])
  }

  /** `parse` on a fresh parser. */
  function Program(toks: seq<Token>): Parsed<seq<Stmt>>
    requires WellFormed(toks)
  {
    ProgramFrom(toks, 0, [])
  }

  /** The keywords `sync` stops in front of. */
  const StatementStarts: seq<TokenType> := [Class, If, While, For, Function, Return, Print, Var]

  /** Whether the loop of `sync` leaves at `pos`: at the end, right after a
      `;`, or in front of a statement keyword. */
  predicate SyncExit(toks: seq<Token>, pos: nat)
    requires pos < |toks|
  {
    AtEnd(toks, pos)
    || (pos > 0 && toks[pos - 1].tokenType == Semicolon)
    || toks[pos].tokenType in StatementStarts
  }

  /** The loop of `sync` as written, run for at most `fuel` turns: its body
      only tests, so the cursor stays where it is; `None` means it is still
      running. */
  function SyncLoopAsWritten(toks: seq<Token>, pos: nat, fuel: nat): Option<nat>
    requires pos < |toks|
  {
    if SyncExit(toks, pos) then Some(pos)
    else if fuel == 0 then None
    else SyncLoopAsWritten(toks, pos, fuel - 1)
  }

  /** The loop of `sync` with the `advance()` its comment describes: every
      turn that does not leave consumes one token. */
  function SyncLoop(toks: seq<Token>, pos: nat): (p: nat)
    requires WellFormed(toks) && pos < |toks|
    ensures pos <= p < |toks|
    decreases |toks| - pos
  {
    if SyncExit(toks, pos) then pos else SyncLoop(toks, pos + 1)
  }

  /** `sync`, corrected: consume the erroneous token, then skip up to the
      next statement boundary. */
  function SyncAt(toks: seq<Token>, pos: nat): (p: nat)
    requires WellFormed(toks) && pos < |toks|
    ensures p < |toks|
  {
    SyncLoop(toks, Next(toks, pos))
  }

  // Properties of the grammar.

  /** Every binary level is left-associative: `a op b op' c` at one level
      is `(a op b) op' c`. */
  lemma LeftAssociative(toks: seq<Token>, pos: nat, lv: Level, a: Expr, b: Expr, c: Expr, p1: nat, p2: nat, p3: nat)
    requires WellFormed(toks) && pos < |toks|
    requires OperandAt(toks, pos, lv) == (Ok(a), p1)
    requires MatchAny(toks, p1, Operators(lv)) && OperandAt(toks, p1 + 1, lv) == (Ok(b), p2)
    requires MatchAny(toks, p2, Operators(lv)) && OperandAt(toks, p2 + 1, lv) == (Ok(c), p3)
    requires !MatchAny(toks, p3, Operators(lv))
    ensures LevelAt(toks, pos, lv) == (Ok(Binary(Binary(a, toks[p1], b), toks[p2], c)), p3)
  {
    assert LevelRestAt(toks, p3, lv, Binary(Binary(a, toks[p1], b), toks[p2], c))
      == (Ok(Binary(Binary(a, toks[p1], b), toks[p2], c)), p3);
    assert LevelRestAt(toks, p2, lv, Binary(a, toks[p1], b))
      == LevelRestAt(toks, p3, lv, Binary(Binary(a, toks[p1], b), toks[p2], c));
  }

  /** One turn of a binary level's loop: an operator and an operand more
      extend the tree to the left. */
  lemma LevelRestTurn(toks: seq<Token>, pos: nat, lv: Level, left: Expr, right: Expr, p: nat)
    requires WellFormed(toks) && pos < |toks| && MatchAny(toks, pos, Operators(lv))
    requires OperandAt(toks, pos + 1, lv) == (Ok(right), p)
    ensures LevelRestAt(toks, pos, lv, left) == LevelRestAt(toks, p, lv, Binary(left, toks[pos], right))
  {
  }

  /** Anything but one of the level's operators ends it with the tree so
      far, consuming nothing. */
  lemma LevelRestEnds(toks: seq<Token>, pos: nat, lv: Level, left: Expr)
    requires WellFormed(toks) && pos < |toks| && !MatchAny(toks, pos, Operators(lv))
    ensures LevelRestAt(toks, pos, lv, left) == (Ok(left), pos)
  {
  }

  /** A failing operand ends the level with its failure. */
  lemma LevelRestFails(toks: seq<Token>, pos: nat, lv: Level, left: Expr)
    requires WellFormed(toks) && pos < |toks| && MatchAny(toks, pos, Operators(lv))
    requires OperandAt(toks, pos + 1, lv).0.Err?
    ensures LevelRestAt(toks, pos, lv, left) == OperandAt(toks, pos + 1, lv)
  {
  }

  /** An operand followed by a token that is no operator of the level is
      the whole level. */
  lemma LevelOfOperand(toks: seq<Token>, pos: nat, lv: Level, a: Expr, p: nat)
    requires WellFormed(toks) && pos < |toks|
    requires OperandAt(toks, pos, lv) == (Ok(a), p)
    requires !MatchAny(toks, p, Operators(lv))
    ensures LevelAt(toks, pos, lv) == (Ok(a), p)
  {
  }

  /** A literal token followed by `follow` (no operator, no `(`) parses as
      that literal at every level. */
  lemma LiteralOperand(toks: seq<Token>, pos: nat, lv: Level)
    requires WellFormed(toks) && pos + 1 < |toks|
    requires toks[pos].tokenType in LiteralTokens && toks[pos].ltype != NotLiteral
    requires !BinaryOperator(toks[pos + 1].tokenType)
    ensures OperandAt(toks, pos, lv) == (Ok(MakeLiteral(toks[pos]).value), pos + 1)
    decreases Rank(lv)
  {
    var lit := MakeLiteral(toks[pos]).value;
    assert toks[pos].tokenType != Not && toks[pos].tokenType != Minus;
    assert UnaryAt(toks, pos) == (Ok(lit), pos + 1);
    if lv != ProductLevel {
      var t := Tighter(lv);
      LiteralOperand(toks, pos, t);
      assert !MatchAny(toks, pos + 1, Operators(t)) by {
        if MatchAny(toks, pos + 1, Operators(t)) {
          OperatorsBinary(t, toks[pos + 1].tokenType);
        }
      }
      LevelOfOperand(toks, pos, t, lit, pos + 1);
    }
  }

  /** `primary` on a token that starts no expression throws "Expected an
      expression." at that token and consumes nothing. */
  lemma PrimaryRejects(toks: seq<Token>, pos: nat)
    requires WellFormed(toks) && pos < |toks|
    requires !MatchAny(toks, pos, LiteralTokens) && !Check(toks, pos, LParen)
    ensures PrimaryAt(toks, pos) == (Err(ParseError(toks[pos], ExpectedExpression)), pos)
  {
  }

  /** A parenthesised expression is the inner tree itself: the brackets
      leave no node behind. */
  lemma GroupUnwrapped(toks: seq<Token>, pos: nat, e: Expr, p: nat)
    requires WellFormed(toks) && pos < |toks| && Check(toks, pos, LParen)
    requires ExpressionAt(toks, pos + 1) == (Ok(e), p) && Check(toks, p, RParen)
    ensures PrimaryAt(toks, pos) == (Ok(e), p + 1)
  {
  }

  /** A missing `)` is reported at the token found instead, which is not
      consumed. */
  lemma GroupUnclosed(toks: seq<Token>, pos: nat, e: Expr, p: nat)
    requires WellFormed(toks) && pos < |toks| && Check(toks, pos, LParen)
    requires ExpressionAt(toks, pos + 1) == (Ok(e), p) && !Check(toks, p, RParen)
    ensures PrimaryAt(toks, pos) == (Err(ParseError(toks[p], AfterGroup)), p)
  {
  }

  /** Every tree an expression production yields is one the parser can
      build. Proved for the productions together, by induction on the
      remaining tokens and the production's rank. */
  lemma {:induction false} ExpressionProduced(toks: seq<Token>, pos: nat)
    requires WellFormed(toks) && pos < |toks|
    ensures ExpressionAt(toks, pos).0.Ok? ==> Produced(ExpressionAt(toks, pos).0.value)
    decreases |toks| - pos, 2 * Rank(EqualityLevel) + 3
  {
    LevelProduced(toks, pos, EqualityLevel);
  }

  lemma {:induction false} LevelProduced(toks: seq<Token>, pos: nat, lv: Level)
    requires WellFormed(toks) && pos < |toks|
    ensures LevelAt(toks, pos, lv).0.Ok? ==> Produced(LevelAt(toks, pos, lv).0.value)
    decreases |toks| - pos, 2 * Rank(lv) + 2
  {
    var first := OperandAt(toks, pos, lv);
    OperandProduced(toks, pos, lv);
    if first.0.Ok? {
      LevelRestProduced(toks, first.1, lv, first.0.value);
    }
  }

  lemma {:induction false} LevelRestProduced(toks: seq<Token>, pos: nat, lv: Level, left: Expr)
    requires WellFormed(toks) && pos < |toks| && Produced(left)
    ensures LevelRestAt(toks, pos, lv, left).0.Ok? ==> Produced(LevelRestAt(toks, pos, lv, left).0.value)
    decreases |toks| - pos, 2 * Rank(lv) + 1
  {
    if MatchAny(toks, pos, Operators(lv)) {
      OperatorsBinary(lv, toks[pos].tokenType);
      var right := OperandAt(toks, pos + 1, lv);
      OperandProduced(toks, pos + 1, lv);
      if right.0.Ok? {
        var next := Binary(left, toks[pos], right.0.value);
        assert Produced(next);
        LevelRestProduced(toks, right.1, lv, next);
        assert LevelRestAt(toks, pos, lv, left) == LevelRestAt(toks, right.1, lv, next);
      }
    }
  }

  lemma {:induction false} OperandProduced(toks: seq<Token>, pos: nat, lv: Level)
    requires WellFormed(toks) && pos < |toks|
    ensures OperandAt(toks, pos, lv).0.Ok? ==> Produced(OperandAt(toks, pos, lv).0.value)
    decreases |toks| - pos, 2 * Rank(lv) + 1
  {
    if lv == ProductLevel {
      UnaryProduced(toks, pos);
    } else {
      LevelProduced(toks, pos, Tighter(lv));
    }
  }

  lemma {:induction false} UnaryProduced(toks: seq<Token>, pos: nat)
    requires WellFormed(toks) && pos < |toks|
    ensures UnaryAt(toks, pos).0.Ok? ==> Produced(UnaryAt(toks, pos).0.value)
    decreases |toks| - pos, 1
  {
    if MatchAny(toks, pos, UnaryOperators) {
      UnaryProduced(toks, pos + 1);
    } else {
      PrimaryProduced(toks, pos);
    }
  }

  lemma {:induction false} PrimaryProduced(toks: seq<Token>, pos: nat)
    requires WellFormed(toks) && pos < |toks|
    ensures PrimaryAt(toks, pos).0.Ok? ==> Produced(PrimaryAt(toks, pos).0.value)
    decreases |toks| - pos, 0
  {
    if !MatchAny(toks, pos, LiteralTokens) && MatchAny(toks, pos, [LParen]) {
      ExpressionProduced(toks, pos + 1);
    }
  }

  /** A successful `parse` stops at the EOF token and keeps the
      statements in source order. */
  lemma {:induction false} ProgramStopsAtEnd(toks: seq<Token>, pos: nat, acc: seq<Stmt>)
    requires WellFormed(toks) && pos < |toks|
    requires ProgramFrom(toks, pos, acc).0.Ok?
    ensures AtEnd(toks, ProgramFrom(toks, pos, acc).1)
    ensures acc <= ProgramFrom(toks, pos, acc).0.value
    decreases |toks| - pos
  {
    if !AtEnd(toks, pos) {
      var s := StatementAt(toks, pos);
      ProgramStopsAtEnd(toks, s.1, acc + [s.0.value]);
    }
  }

  /** The first statement that fails ends `parse` with its error. */
  lemma ProgramFails(toks: seq<Token>, pos: nat, acc: seq<Stmt>)
    requires WellFormed(toks) && pos < |toks| && !AtEnd(toks, pos)
    requires StatementAt(toks, pos).0.Err?
    ensures ProgramFrom(toks, pos, acc) == (Err(StatementAt(toks, pos).0.error), StatementAt(toks, pos).1)
  {
  }

  /** Corrected `sync` moves past the erroneous token unless it is the EOF
      token, stops at the first statement boundary after it, and skips
      nothing but tokens that are no boundary. */
  lemma SyncStops(toks: seq<Token>, pos: nat)
    requires WellFormed(toks) && pos < |toks|
    ensures var p := SyncAt(toks, pos);
      && (AtEnd(toks, pos) ==> p == pos)
      && (!AtEnd(toks, pos) ==> pos < p)
      && SyncExit(toks, p)
      && forall k :: Next(toks, pos) <= k < p ==> !SyncExit(toks, k)
  {
    SyncLoopStops(toks, Next(toks, pos));
  }

  lemma {:induction false} SyncLoopStops(toks: seq<Token>, pos: nat)
    requires WellFormed(toks) && pos < |toks|
    ensures SyncExit(toks, SyncLoop(toks, pos))
    ensures forall k :: pos <= k < SyncLoop(toks, pos) ==> !SyncExit(toks, k)
    decreases |toks| - pos
  {
    if !SyncExit(toks, pos) {
      SyncLoopStops(toks, pos + 1);
    }
  }

  /** As written, the loop of `sync` never leaves once it starts a turn at a
      token that is no boundary: however many turns it is given, it is
      still running. */
  lemma {:induction false} SyncAsWrittenSpins(toks: seq<Token>, pos: nat, fuel: nat)
    requires pos < |toks| && !SyncExit(toks, pos)
    ensures SyncLoopAsWritten(toks, pos, fuel) == None
  {
    if fuel > 0 {
      SyncAsWrittenSpins(toks, pos, fuel - 1);
    }
  }

  /** `sync` on `a b EOF`: after consuming `a` the loop is at `b`, which
      ends nothing, so it never returns; the corrected loop stops at EOF. */
  lemma SyncHangs(fuel: nat)
    ensures var toks := [Token(Identifier, "a", 1, NotLiteral), Token(Identifier, "b", 1, NotLiteral), Token(Eof, "", 1, NotLiteral)];
      && SyncLoopAsWritten(toks, Next(toks, 0), fuel) == None
      && SyncAt(toks, 0) == 2
  {
    var toks := [Token(Identifier, "a", 1, NotLiteral), Token(Identifier, "b", 1, NotLiteral), Token(Eof, "", 1, NotLiteral)];
    assert Next(toks, 0) == 1;
    SyncAsWrittenSpins(toks, 1, fuel);
    assert SyncLoop(toks, 2) == 2;
  }

  /** A literal token with a value. */
  predicate LiteralAt(toks: seq<Token>, k: nat)
    requires k < |toks|
  {
    toks[k].tokenType in LiteralTokens && toks[k].ltype != NotLiteral
  }

  function LiteralOf(toks: seq<Token>, k: nat): Expr
    requires k < |toks| && LiteralAt(toks, k)
  {
    MakeLiteral(toks[k]).value
  }

  /** A literal token with a value is a whole primary, and so a whole
      unary. */
  lemma LiteralUnary(toks: seq<Token>, pos: nat)
    requires WellFormed(toks) && pos < |toks| && LiteralAt(toks, pos)
    ensures PrimaryAt(toks, pos) == (Ok(LiteralOf(toks, pos)), pos + 1)
    ensures UnaryAt(toks, pos) == (Ok(LiteralOf(toks, pos)), pos + 1)
  {
    assert UnaryAt(toks, pos) == PrimaryAt(toks, pos);
  }

  /** `x - y - z` followed by anything but a binary operator parses as
      `(x - y) - z`. */
  lemma SubtractionGroupsLeft(toks: seq<Token>, pos: nat)
    requires WellFormed(toks) && pos + 5 < |toks|
    requires LiteralAt(toks, pos) && LiteralAt(toks, pos + 2) && LiteralAt(toks, pos + 4)
    requires toks[pos + 1].tokenType == Minus && toks[pos + 3].tokenType == Minus
    requires !BinaryOperator(toks[pos + 5].tokenType)
    ensures ExpressionAt(toks, pos) == (Ok(Binary(Binary(LiteralOf(toks, pos), toks[pos + 1], LiteralOf(toks, pos + 2)),
                                                  toks[pos + 3], LiteralOf(toks, pos + 4))), pos + 5)
  {
    LiteralUnary(toks, pos);
    LiteralUnary(toks, pos + 2);
    LiteralUnary(toks, pos + 4);
    var x, y, z := LiteralOf(toks, pos), LiteralOf(toks, pos + 2), LiteralOf(toks, pos + 4);
    LevelOfOperand(toks, pos, ProductLevel, x, pos + 1);
    LevelOfOperand(toks, pos + 2, ProductLevel, y, pos + 3);
    NotAnOperator(toks, pos + 5, ProductLevel);
    LevelOfOperand(toks, pos + 4, ProductLevel, z, pos + 5);
    NotAnOperator(toks, pos + 5, AdditionLevel);
    LeftAssociative(toks, pos, AdditionLevel, x, y, z, pos + 1, pos + 3, pos + 5);
    var tree := Binary(Binary(x, toks[pos + 1], y), toks[pos + 3], z);
    NotAnOperator(toks, pos + 5, ComparisonLevel);
    LevelOfOperand(toks, pos, ComparisonLevel, tree, pos + 5);
    NotAnOperator(toks, pos + 5, EqualityLevel);
    LevelOfOperand(toks, pos, EqualityLevel, tree, pos + 5);
  }

  /** `x + y * z` followed by anything but a binary operator parses as
      `x + (y * z)`: the product binds tighter. */
  lemma ProductBindsTighter(toks: seq<Token>, pos: nat)
    requires WellFormed(toks) && pos + 5 < |toks|
    requires LiteralAt(toks, pos) && LiteralAt(toks, pos + 2) && LiteralAt(toks, pos + 4)
    requires toks[pos + 1].tokenType == Plus && toks[pos + 3].tokenType == Product
    requires !BinaryOperator(toks[pos + 5].tokenType)
    ensures ExpressionAt(toks, pos) == (Ok(Binary(LiteralOf(toks, pos), toks[pos + 1],
                                                  Binary(LiteralOf(toks, pos + 2), toks[pos + 3], LiteralOf(toks, pos + 4)))), pos + 5)
  {
    LiteralUnary(toks, pos);
    LiteralUnary(toks, pos + 2);
    LiteralUnary(toks, pos + 4);
    var x, y, z := LiteralOf(toks, pos), LiteralOf(toks, pos + 2), LiteralOf(toks, pos + 4);
    LevelOfOperand(toks, pos, ProductLevel, x, pos + 1);
    var right := Binary(y, toks[pos + 3], z);
    assert OperandAt(toks, pos + 4, ProductLevel) == (Ok(z), pos + 5);
    NotAnOperator(toks, pos + 5, ProductLevel);
    assert LevelRestAt(toks, pos + 5, ProductLevel, right) == (Ok(right), pos + 5);
    assert LevelRestAt(toks, pos + 3, ProductLevel, y) == (Ok(right), pos + 5);
    assert OperandAt(toks, pos + 2, ProductLevel) == (Ok(y), pos + 3);
    assert OperandAt(toks, pos + 2, AdditionLevel) == (Ok(right), pos + 5);
    var tree := Binary(x, toks[pos + 1], right);
    NotAnOperator(toks, pos + 5, AdditionLevel);
    assert LevelRestAt(toks, pos + 5, AdditionLevel, tree) == (Ok(tree), pos + 5);
    assert LevelRestAt(toks, pos + 1, AdditionLevel, x) == (Ok(tree), pos + 5);
    assert OperandAt(toks, pos, AdditionLevel) == (Ok(x), pos + 1);
    assert LevelAt(toks, pos, AdditionLevel) == (Ok(tree), pos + 5);
    NotAnOperator(toks, pos + 5, ComparisonLevel);
    LevelOfOperand(toks, pos, ComparisonLevel, tree, pos + 5);
    NotAnOperator(toks, pos + 5, EqualityLevel);
    LevelOfOperand(toks, pos, EqualityLevel, tree, pos + 5);
  }

  lemma NotAnOperator(toks: seq<Token>, pos: nat, lv: Level)
    requires pos < |toks| && !BinaryOperator(toks[pos].tokenType)
    ensures !MatchAny(toks, pos, Operators(lv))
  {
    if MatchAny(toks, pos, Operators(lv)) {
    }
  }
}
