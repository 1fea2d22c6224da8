/** `TreePrinter` of src/includes/Expressions.hpp: a visitor that appends a
    Lisp-style rendering of an expression to its `m_repr` field. The text
    `ss << long double` gives a number is the constructor parameter `fmt`. */
module Printing {
  import opened Base
  import opened Tokens
  import opened Ast

  /** The node kinds the printer's visitor has an overload for, with
      literals whose subtype agrees with their value. */
  predicate Printable(e: Expr) {
    match e
    case Binary(l, _, r) => Printable(l) && Printable(r)
    case Unary(_, r) => Printable(r)
    case ParenGroup(i) => Printable(i)
    case Literal(lt, v) => Consistent(lt, v)
    case _ => false
  }

  predicate AllPrintable(es: seq<Expr>) {
    forall k :: 0 <= k < |es| ==> Printable(es[k])
  }

  /** `visit(const Literal&)`. */
  function LiteralText(lt: LiteralType, v: LitValue, fmt: real -> string): string
    requires Consistent(lt, v)
  {
    match lt
    case NumLit => fmt(v.n)
    case StrLit => "\"" + v.s + "\""
    case NixLit => "nix"
    case TrueLit => "true"
    case FalseLit => "false"
  }

  /** The text the printer appends for `e`. */
  function Render(e: Expr, fmt: real -> string): string
    requires Printable(e)
  {
    match e
    case Binary(l, op, r) => "(" + op.lexeme + " " + Render(l, fmt) + " " + Render(r, fmt) + ")"
    case Unary(op, r) => "(" + op.lexeme + " " + Render(r, fmt) + ")"
    case ParenGroup(i) => "(group " + Render(i, fmt) + ")"
    case Literal(lt, v) => LiteralText(lt, v, fmt)
  }

  /** `" " + child` for each child, in order. */
  function Spaced(es: seq<Expr>, fmt: real -> string): string
    requires AllPrintable(es)
  {
    if es == [] then ""
    else Spaced(es[..|es| - 1], fmt) + " " + Render(es[|es| - 1], fmt)
  }

  lemma SpacedSingle(name: string, e: Expr, fmt: real -> string)
    requires Printable(e)
    ensures AllPrintable([e]) && Spaced([e], fmt) == " " + Render(e, fmt)
    ensures "(" + name + Spaced([e], fmt) + ")" == "(" + name + " " + Render(e, fmt) + ")"
  {
    assert [e][..0] == [];
    var R := Render(e, fmt);
    assert Spaced([e], fmt) == " " + R;
    Assoc("(" + name, " ", R);
  }

  lemma SpacedPair(name: string, l: Expr, r: Expr, fmt: real -> string)
    requires Printable(l) && Printable(r)
    ensures AllPrintable([l, r])
    ensures "(" + name + Spaced([l, r], fmt) + ")" == "(" + name + " " + Render(l, fmt) + " " + Render(r, fmt) + ")"
  {
    assert [l, r][..1] == [l];
    SpacedSingle(name, l, fmt);
    var P, L, R := "(" + name, Render(l, fmt), Render(r, fmt);
    assert Spaced([l, r], fmt) == " " + L + " " + R;
    Assoc(P, " " + L + " ", R);
    Assoc(P, " " + L, " ");
    Assoc(P, " ", L);
  }

  lemma Assoc(a: string, b: string, c: string)
    ensures a + (b + c) == (a + b) + c
  {
  }

  /** A measure for the printer's recursion. */
  function Size(e: Expr): (n: nat)
    ensures n >= 1
  {
    match e
    case Binary(l, _, r) => 1 + Size(l) + Size(r)
    case Unary(_, r) => 1 + Size(r)
    case ParenGroup(i) => 1 + Size(i)
    case _ => 1
  }

  function SumSize(es: seq<Expr>): nat {
    if es == [] then 0 else SumSize(es[..|es| - 1]) + Size(es[|es| - 1])
  }

  lemma {:induction false} SumSizeBound(es: seq<Expr>, k: nat)
    requires k < |es|
    ensures Size(es[k]) <= SumSize(es)
  {
    if k < |es| - 1 {
      assert es[..|es| - 1][k] == es[k];
      SumSizeBound(es[..|es| - 1], k);
    }
  }

  class TreePrinter {
    var repr: string
    const fmt: real -> string

    constructor (numberText: real -> string)
      ensures repr == "" && fmt == numberText
    {
      repr := "";
      fmt := numberText;
    }

    /** `tree`: print `e` after whatever was printed before and return the
        whole text; `m_repr` is never cleared. */
    method Tree(e: Expr) returns (text: string)
      requires Printable(e)
      modifies this
      ensures repr == old(repr) + Render(e, fmt)
      ensures text == repr
    {
      Visit(e);
      text := repr;
    }

    method Visit(e: Expr)
      requires Printable(e)
      modifies this
      ensures repr == old(repr) + Render(e, fmt)
      decreases Size(e), 1
    {
      match e {
        case Binary(l, op, r) =>
          assert [l, r][..1] == [l] && [l][..0] == [];
          assert SumSize([l, r]) == Size(l) + Size(r);
          Parenthesize(op.lexeme, [l, r]);
          SpacedPair(op.lexeme, l, r, fmt);
        case Unary(op, r) =>
          assert [r][..0] == [];
          assert SumSize([r]) == Size(r);
          Parenthesize(op.lexeme, [r]);
          SpacedSingle(op.lexeme, r, fmt);
        case ParenGroup(i) =>
          assert [i][..0] == [];
          assert SumSize([i]) == Size(i);
          Parenthesize("group", [i]);
          SpacedSingle("group", i, fmt);
          assert "(" + "group" + " " == "(group ";
        case Literal(lt, v) =>
          repr := repr + LiteralText(lt, v, fmt);
      }
    }

    /** `parenthesize(name, exprs)`. */
    method Parenthesize(name: string, es: seq<Expr>)
      requires AllPrintable(es)
      modifies this
      ensures repr == old(repr) + "(" + name + Spaced(es, fmt) + ")"
      decreases SumSize(es), 2
    {
      repr := repr + "(" + name;
      for i := 0 to |es|
        invariant repr == old(repr) + "(" + name + Spaced(es[..i], fmt)
      {
        repr := repr + " ";
        SumSizeBound(es, i);
        Visit(es[i]);
        assert es[..i + 1][..i] == es[..i];
      }
      assert es[..|es|] == es;
      repr := repr + ")";
    }
  }

  /** Occurrences of `c` in `s`. */
  function Count(s: string, c: char): nat {
    if s == [] then 0 else Count(s[..|s| - 1], c) + (if s[|s| - 1] == c then 1 else 0)
  }

  lemma {:induction false} CountAppend(a: string, b: string, c: char)
    ensures Count(a + b, c) == Count(a, c) + Count(b, c)
    decreases |b|
  {
    if b == [] {
      assert a + b == a;
    } else {
      assert (a + b)[..|a + b| - 1] == a + b[..|b| - 1];
      CountAppend(a, b[..|b| - 1], c);
    }
  }

  /** Counting both brackets over `a + b`. */
  lemma CountBoth(a: string, b: string)
    ensures Count(a + b, '(') == Count(a, '(') + Count(b, '(')
    ensures Count(a + b, ')') == Count(a, ')') + Count(b, ')')
  {
    CountAppend(a, b, '(');
    CountAppend(a, b, ')');
  }

  /** A text without brackets counts none. */
  lemma {:induction false} CountAbsent(s: string, c: char)
    requires c !in s
    ensures Count(s, c) == 0
  {
    if s != [] {
      CountAbsent(s[..|s| - 1], c);
    }
  }

  lemma SeparatorCounts()
    ensures Count("(", '(') == 1 && Count("(", ')') == 0
    ensures Count(")", '(') == 0 && Count(")", ')') == 1
    ensures Count(" ", '(') == 0 && Count(" ", ')') == 0
    ensures Count("(group ", '(') == 1 && Count("(group ", ')') == 0
  {
    CountAbsent(" ", '(');
    CountAbsent(" ", ')');
    CountAbsent("", '(');
    CountAbsent("", ')');
    assert "(group " == "(" + "group ";
    CountBoth("(", "group ");
    CountAbsent("group ", '(');
    CountAbsent("group ", ')');
  }

  /** No operator lexeme, string literal or number text holds a bracket. */
  predicate NoBrackets(s: string) {
    '(' !in s && ')' !in s
  }

  predicate BracketFree(e: Expr, fmt: real -> string)
    requires Printable(e)
  {
    match e
    case Binary(l, op, r) => NoBrackets(op.lexeme) && BracketFree(l, fmt) && BracketFree(r, fmt)
    case Unary(op, r) => NoBrackets(op.lexeme) && BracketFree(r, fmt)
    case ParenGroup(i) => BracketFree(i, fmt)
    case Literal(lt, v) => NoBrackets(LiteralText(lt, v, fmt))
  }

  /** Bracket pairs a printout holds: one per non-literal node. */
  function Nodes(e: Expr): nat
    requires Printable(e)
  {
    match e
    case Binary(l, _, r) => 1 + Nodes(l) + Nodes(r)
    case Unary(_, r) => 1 + Nodes(r)
    case ParenGroup(i) => 1 + Nodes(i)
    case Literal(_, _) => 0
  }

  /** The printout opens exactly as many brackets as it closes, one pair per
      node that is not a literal. */
  lemma {:induction false} RenderBalanced(e: Expr, fmt: real -> string)
    requires Printable(e) && BracketFree(e, fmt)
    ensures Count(Render(e, fmt), '(') == Nodes(e)
    ensures Count(Render(e, fmt), ')') == Nodes(e)
  {
    SeparatorCounts();
    match e {
      case Binary(l, op, r) =>
        RenderBalanced(l, fmt);
        RenderBalanced(r, fmt);
        var L, R := Render(l, fmt), Render(r, fmt);
        CountAbsent(op.lexeme, '(');
        CountAbsent(op.lexeme, ')');
        CountBoth("(", op.lexeme);
        CountBoth("(" + op.lexeme, " ");
        CountBoth("(" + op.lexeme + " ", L);
        CountBoth("(" + op.lexeme + " " + L, " ");
        CountBoth("(" + op.lexeme + " " + L + " ", R);
        CountBoth("(" + op.lexeme + " " + L + " " + R, ")");
      case Unary(op, r) =>
        RenderBalanced(r, fmt);
        var R := Render(r, fmt);
        CountAbsent(op.lexeme, '(');
        CountAbsent(op.lexeme, ')');
        CountBoth("(", op.lexeme);
        CountBoth("(" + op.lexeme, " ");
        CountBoth("(" + op.lexeme + " ", R);
        CountBoth("(" + op.lexeme + " " + R, ")");
      case ParenGroup(i) =>
        RenderBalanced(i, fmt);
        var I := Render(i, fmt);
        CountBoth("(group ", I);
        CountBoth("(group " + I, ")");
      case Literal(lt, v) =>
        CountAbsent(LiteralText(lt, v, fmt), '(');
        CountAbsent(LiteralText(lt, v, fmt), ')');
    }
  }
}
