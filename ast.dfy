/** The syntax tree: one datatype for expressions and one for statements,
    holding every node kind that src/includes/Expressions.hpp,
    src/includes/Statements.hpp, src/Statements.cpp, src/includes/Lambda.hpp
    and the visitors of src/Resolver.cpp and src/Interpreter.cpp mention.
    The nodes a resolver can bind (`Variable`, `Assign`) carry an `id`,
    standing for the node's identity, under which the resolution table
    records a scope distance. */
module Ast {
  import opened Base
  import opened Tokens

  /** The value a `Literal` node holds: `std::variant<std::string, long
      double, void*, bool>`. */
  datatype LitValue = LStr(s: string) | LNum(n: real) | LNix | LBool(b: bool)

  datatype Expr =
    | Binary(left: Expr, op: Token, right: Expr)
    | Unary(op: Token, right: Expr)
    | ParenGroup(inner: Expr)
    | Literal(ltype: LiteralType, lit: LitValue)
    | Variable(id: nat, name: Token)
    | Assign(id: nat, name: Token, op: Token, val: Expr)
    | Logical(left: Expr, op: Token, right: Expr)
    | Call(callee: Expr, paren: Token, args: seq<Expr>)
    | Lambda(params: seq<Token>, lambdaBody: seq<Stmt>)
    | ListExpr(items: seq<Expr>)
    | Index(list: Expr, index: Expr)
    | RangeExpr(first: Expr, step: Option<Expr>, end: Expr)

  datatype Stmt =
    | Expression(expr: Expr)
    | PrintStmt(expr: Expr)
    | Block(stmts: seq<Stmt>)
    | IfStmt(cond: Expr, thenBranch: Stmt, elseBranch: Option<Stmt>)
    | WhileStmt(cond: Expr, body: Stmt)
    | ForStmt(init: Option<Expr>, cond: Expr, increment: Option<Expr>, body: Stmt)
    | Func(name: Token, params: seq<Token>, fnBody: seq<Stmt>)
    | ReturnStmt(keyword: Token, value: Option<Expr>)
    | Break
    | Continue

  predicate AllDigits(d: string) {
    forall k :: 0 <= k < |d| ==> '0' <= d[k] <= '9'
  }

  /** The value of the digit string `d`, read in base ten. */
  function DigitsValue(d: string): (n: nat)
    requires AllDigits(d)
    decreases |d|
  {
    if d == [] then 0
    else DigitsValue(d[..|d| - 1]) * 10 + ((d[|d| - 1] as int) - ('0' as int))
  }

  function Pow10(k: nat): (p: nat)
    ensures p >= 1
  {
    if k == 0 then 1 else 10 * Pow10(k - 1)
  }

  /** The length of the longest run of digits at the start of `s`. */
  function DigitRun(s: string): (k: nat)
    ensures k <= |s|
    ensures forall i :: 0 <= i < k ==> '0' <= s[i] <= '9'
    ensures k < |s| ==> !('0' <= s[k] <= '9')
    ensures AllDigits(s[..k])
  {
    if s != [] && '0' <= s[0] <= '9' then
      var k := 1 + DigitRun(s[1..]);
      assert forall i :: 1 <= i < k ==> s[i] == s[1..][i - 1];
      assert forall i :: 0 <= i < k ==> s[..k][i] == s[i];
      k
    else 0
  }

  /** `std::stold` on a number lexeme, in exact arithmetic: the digits up to
      the first `.`, plus the digits after it as a decimal fraction; reading
      stops at the first character that does not fit. */
  function DecimalValue(s: string): (v: real)
    ensures v >= 0.0
  {
    var i := DigitRun(s);
    var whole := DigitsValue(s[..i]) as real;
    if i < |s| && s[i] == '.' then whole + Fraction(s[i + 1..]) else whole
  }

  /** The digits at the start of `rest` read as tenths, hundredths, ... */
  function Fraction(rest: string): (v: real)
    ensures v >= 0.0
  {
    var f := DigitRun(rest);
    var n, p := DigitsValue(rest[..f]) as real, Pow10(f) as real;
    assert p >= 1.0;
    n / p
  }

  /** `Literal(Token)`: the literal subtype of the token decides the value,
      and a token without one raises instead of building a node. */
  function MakeLiteral(t: Token): (r: Result<Expr, string>)
    ensures r.Ok? <==> t.ltype != NotLiteral
    ensures r.Ok? ==> r.value.Literal? && r.value.ltype == t.ltype
    ensures r.Ok? ==> Consistent(r.value.ltype, r.value.lit)
  {
    match t.ltype
    case NumLit => Ok(Literal(NumLit, LNum(DecimalValue(t.lexeme))))
    case StrLit => Ok(Literal(StrLit, LStr(t.lexeme)))
    case NixLit => Ok(Literal(NixLit, LNix))
    case TrueLit => Ok(Literal(TrueLit, LBool(true)))
    case FalseLit => Ok(Literal(FalseLit, LBool(false)))
    case NotLiteral => Err(LiteralWithoutValue)
  }

  const LiteralWithoutValue := "ERR: Trying to instantiate a literal with no possible literal value"

  /** A literal's subtype agrees with the value it holds. */
  predicate Consistent(ltype: LiteralType, lit: LitValue) {
    match ltype
    case NumLit => lit.LNum?
    case StrLit => lit.LStr?
    case NixLit => lit == LNix
    case TrueLit => lit == LBool(true)
    case FalseLit => lit == LBool(false)
    case NotLiteral => false
  }

  /** What each subtype yields: the number the lexeme denotes, the lexeme
      itself for a string, nil, true or false; and the node is consistent. */
  lemma MakeLiteralValues(t: Token)
    requires t.ltype != NotLiteral
    ensures var e := MakeLiteral(t).value;
      && Consistent(e.ltype, e.lit)
      && (t.ltype == NumLit ==> e.lit == LNum(DecimalValue(t.lexeme)))
      && (t.ltype == StrLit ==> e.lit == LStr(t.lexeme))
      && (t.ltype == NixLit ==> e.lit == LNix)
      && (t.ltype == TrueLit ==> e.lit == LBool(true))
      && (t.ltype == FalseLit ==> e.lit == LBool(false))
  {
  }

  /** A run of digits denotes the number it spells. */
  lemma DecimalOfDigits(d: string)
    requires AllDigits(d)
    ensures DecimalValue(d) == DigitsValue(d) as real
  {
    assert d[..DigitRun(d)] == d;
  }

  /** `a.b` denotes `a` plus `b` tenths, hundredths, ... */
  lemma DecimalOfFraction(a: string, b: string)
    requires AllDigits(a) && AllDigits(b)
    ensures DecimalValue(a + "." + b) == DigitsValue(a) as real + (DigitsValue(b) as real) / (Pow10(|b|) as real)
  {
    var s := a + "." + b;
    RunBeforePoint(a, b);
    assert s[..|a|] == a && s[|a| + 1..] == b;
    FractionOfDigits(b);
  }

  lemma RunBeforePoint(a: string, b: string)
    requires AllDigits(a)
    ensures DigitRun(a + "." + b) == |a|
  {
    var s := a + "." + b;
    assert forall i :: 0 <= i < |a| ==> s[i] == a[i];
    assert s[|a|] == '.';
    DigitRunStops(s, |a|);
  }

  lemma FractionOfDigits(b: string)
    requires AllDigits(b)
    ensures Fraction(b) == (DigitsValue(b) as real) / (Pow10(|b|) as real)
  {
    assert DigitRun(b) == |b|;
    assert b[..|b|] == b;
  }

  lemma DigitRunStops(s: string, k: nat)
    requires k < |s| && !('0' <= s[k] <= '9')
    requires forall i :: 0 <= i < k ==> '0' <= s[i] <= '9'
    ensures DigitRun(s) == k
  {
    if k > 0 {
      assert forall i :: 0 <= i < k - 1 ==> s[1..][i] == s[i + 1];
      DigitRunStops(s[1..], k - 1);
    }
  }
}
