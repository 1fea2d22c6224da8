/** What the evaluation rules of `InterpSpec` promise: truth and equality,
    the typing of the operators, the order of evaluation, short-circuiting,
    the checks of a call and the restoring of the scope chain. */
module InterpProps {
  import opened Base
  import opened Tokens
  import opened Ast
  import opened Values
  import opened Frames
  import opened InterpSpec

  // Numbers in messages.

  /** `to_string` writes a count in decimal. */
  lemma {:induction false} NatStringReads(n: nat)
    ensures DigitsValue(NatString(n)) == n
    decreases n
  {
    var d := ['0' + (n % 10) as char];
    if n >= 10 {
      NatStringReads(n / 10);
      var s := NatString(n / 10);
      assert (s + d)[..|s + d| - 1] == s;
    }
  }

  // Truth and equality.

  /** The false values are exactly those equal to nil, `false` or zero. */
  lemma FalseValues(v: Value)
    ensures !IsTrue(v) <==> IsEqual(v, VNix) || IsEqual(v, VBool(false)) || IsEqual(v, VNum(0.0))
  {
  }

  /** A number is false exactly when it lies within epsilon of zero. */
  lemma NumberTruth(n: real)
    ensures IsTrue(VNum(n)) <==> n <= -Epsilon || Epsilon <= n
  {
  }

  lemma EqualityReflexiveSymmetric(a: Value, b: Value)
    ensures IsEqual(a, a)
    ensures IsEqual(a, b) <==> IsEqual(b, a)
  {
  }

  /** Values of different kinds are never equal, and apart from numbers
      equal values are identical. */
  lemma EqualitySameKind(a: Value, b: Value)
    requires IsEqual(a, b)
    ensures a.VNum? <==> b.VNum?
    ensures !a.VNum? ==> a == b
  {
  }

  /** Comparing numbers up to epsilon is not transitive. */
  lemma EqualityNotTransitive()
    ensures IsEqual(VNum(0.0), VNum(Epsilon * 0.75))
    ensures IsEqual(VNum(Epsilon * 0.75), VNum(Epsilon * 1.5))
    ensures !IsEqual(VNum(0.0), VNum(Epsilon * 1.5))
  {
  }

  // The operators.

  /** `+` adds two numbers or joins two strings and refuses anything else. */
  lemma PlusTyping(op: Token, l: Value, r: Value)
    requires op.tokenType == Plus
    ensures BinaryOp(op, l, r).Raise? <==> !(l.VNum? && r.VNum?) && !(l.VStr? && r.VStr?)
    ensures BinaryOp(op, l, r).Raise? ==> BinaryOp(op, l, r).err == RuntimeError(op, BothNumbersOrStrings)
    ensures l.VStr? && r.VStr? ==> BinaryOp(op, l, r) == Val(VStr(l.s + r.s))
  {
  }

  predicate NumericOperator(t: TokenType) {
    t.Minus? || t.Product? || t.Division? || t.Exponentiation?
    || t.GtEqual? || t.LtEqual? || t.Less? || t.Greater?
  }

  /** The other arithmetic operators and the comparisons take two numbers;
      `==` and `!=` take anything and never raise. */
  lemma NumericOperands(op: Token, l: Value, r: Value)
    ensures NumericOperator(op.tokenType) && !(l.VNum? && r.VNum?) ==>
      BinaryOp(op, l, r) == Raise(RuntimeError(op, OperandsNumbers))
    ensures (op.tokenType.EqEqual? || op.tokenType.NotEqual?) ==> BinaryOp(op, l, r).Val?
  {
  }

  /** Division raises exactly for a divisor within epsilon of zero. */
  lemma DivisionByZero(op: Token, a: real, b: real)
    requires op.tokenType == Division
    ensures BinaryOp(op, VNum(a), VNum(b)).Raise? <==> -Epsilon < b < Epsilon
    ensures NumEqual(b, 0.0) ==> BinaryOp(op, VNum(a), VNum(b)) == Raise(RuntimeError(op, DivideByZero))
    ensures !NumEqual(b, 0.0) ==> BinaryOp(op, VNum(a), VNum(b)) == Val(VNum(a / b))
  {
  }

  /** Whether comparing numbers with operator `t` yields true. */
  predicate Holds(op: Token, t: TokenType, a: real, b: real) {
    BinaryOp(op.(tokenType := t), VNum(a), VNum(b)) == Val(VBool(true))
  }

  /** Numbers within epsilon of each other compare as equal. */
  lemma ComparisonAtEpsilon(op: Token, a: real, b: real)
    requires NumEqual(a, b)
    ensures !Holds(op, Less, a, b) && !Holds(op, Greater, a, b)
    ensures Holds(op, LtEqual, a, b) && Holds(op, GtEqual, a, b)
    ensures Holds(op, EqEqual, a, b) && !Holds(op, NotEqual, a, b)
  {
  }

  /** `<` is `>` turned round. */
  lemma ComparisonsMirror(op: Token, a: real, b: real)
    ensures Holds(op, Less, a, b) <==> Holds(op, Greater, b, a)
    ensures Holds(op, LtEqual, a, b) <==> Holds(op, GtEqual, b, a)
  {
    assert Abs(a - b) == Abs(b - a);
  }

  /** `<=` and `>=` are the negations of `>` and `<`. */
  lemma ComparisonsAgree(op: Token, a: real, b: real)
    ensures Holds(op, LtEqual, a, b) <==> !Holds(op, Greater, a, b)
    ensures Holds(op, GtEqual, a, b) <==> !Holds(op, Less, a, b)
  {
  }

  /** `!=` is the negation of `==`, and numbers further apart than epsilon
      are ordered one way or the other. */
  lemma ComparisonsOrder(op: Token, a: real, b: real)
    ensures Holds(op, NotEqual, a, b) <==> !Holds(op, EqEqual, a, b)
    ensures !NumEqual(a, b) ==> (Holds(op, Less, a, b) <==> !Holds(op, Greater, a, b))
  {
  }

  /** Unary minus takes a number, and applied twice gives it back. */
  lemma NegationTyping(op: Token, v: Value)
    requires op.tokenType == Minus
    ensures UnaryOp(op, v).Raise? <==> !v.VNum?
    ensures UnaryOp(op, v).Raise? ==> UnaryOp(op, v).err == RuntimeError(op, OperandNumber)
    ensures v.VNum? ==> UnaryOp(op, UnaryOp(op, v).v) == Val(v)
  {
  }

  /** `!` always yields a Boolean, and applied twice yields the truth of its
      operand. */
  lemma DoubleNot(op: Token, v: Value)
    requires op.tokenType == Not
    ensures UnaryOp(op, v).Val? && UnaryOp(op, v).v.VBool?
    ensures UnaryOp(op, UnaryOp(op, v).v) == Val(VBool(IsTrue(v)))
  {
  }

  // Order of evaluation.

  /** Both operands are evaluated, left first, before any operator check;
      an error in the left operand means the right one is never evaluated. */
  lemma BinaryOrder(st: IState, l: Expr, op: Token, r: Expr, fuel: nat)
    ensures var (a, s1) := Eval(st, l, fuel);
      !a.Val? ==> Eval(st, Binary(l, op, r), fuel) == (a, s1)
    ensures var (a, s1) := Eval(st, l, fuel);
      var (b, s2) := Eval(s1, r, fuel);
      a.Val? && b.Val? ==> Eval(st, Binary(l, op, r), fuel) == (BinaryOp(op, a.v, b.v), s2)
  {
  }

  /** `or` and `and` always yield a Boolean. */
  lemma LogicalBool(st: IState, l: Expr, op: Token, r: Expr, fuel: nat)
    ensures var (res, _) := Eval(st, Logical(l, op, r), fuel);
      res.Val? ==> res.v.VBool?
  {
  }

  /** When the left operand decides, the right one is never evaluated;
      otherwise the result is the truth of both, combined. */
  lemma LogicalShortCircuit(st: IState, l: Expr, op: Token, r: Expr, fuel: nat)
    ensures var (a, s1) := Eval(st, l, fuel);
      a.Val? && (op.tokenType == Or <==> IsTrue(a.v)) ==>
        Eval(st, Logical(l, op, r), fuel) == (Val(VBool(IsTrue(a.v))), s1)
    ensures var (a, s1) := Eval(st, l, fuel);
      var (b, s2) := Eval(s1, r, fuel);
      a.Val? && (op.tokenType == Or <==> !IsTrue(a.v)) && b.Val? ==>
        Eval(st, Logical(l, op, r), fuel)
        == (Val(VBool(if op.tokenType == Or then IsTrue(a.v) || IsTrue(b.v) else IsTrue(a.v) && IsTrue(b.v))), s2)
  {
  }

  /** A call evaluates the callee and every argument before it checks that
      the callee can be called and takes that many arguments. */
  lemma CallChecks(st: IState, callee: Expr, paren: Token, args: seq<Expr>, fuel: nat)
    ensures var (c, s1) := Eval(st, callee, fuel);
      var (vs, s2) := EvalArgs(s1, args, fuel);
      var res := Eval(st, Call(callee, paren, args), fuel);
      c.Val? && vs.Val? ==>
        && (!c.v.VFn? ==> res == (Raise(RuntimeError(paren, NotCallable)), s2))
        && (c.v.VFn? && Arity(c.v.fn) != |args| ==>
              res == (Raise(RuntimeError(paren, ArityMessage(Arity(c.v.fn), |args|))), s2))
  {
  }

  // Calls.

  /** No later parameter among the first `k` has the name of parameter `i`. */
  predicate LastOf(params: seq<Token>, k: nat, i: nat)
    requires i < k <= |params|
  {
    forall j :: i < j < k ==> params[j].lexeme != params[i].lexeme
  }

  /** The call's scope binds the names of the parameters and no other. */
  lemma {:induction false} BindKeys(params: seq<Token>, args: seq<Value>)
    requires |args| <= |params|
    ensures forall n :: n in Bind(params, args) <==> exists i :: 0 <= i < |args| && params[i].lexeme == n
    decreases |args|
  {
    if args != [] {
      var k := |args| - 1;
      BindKeys(params, args[..k]);
      forall n | n in Bind(params, args)
        ensures exists i :: 0 <= i < |args| && params[i].lexeme == n
      {
        if n != params[k].lexeme {
          assert n in Bind(params, args[..k]);
          var i :| 0 <= i < k && params[i].lexeme == n;
        }
      }
      forall n | exists i :: 0 <= i < |args| && params[i].lexeme == n
        ensures n in Bind(params, args)
      {
        var i :| 0 <= i < |args| && params[i].lexeme == n;
        if i < k {
          assert exists i' :: 0 <= i' < |args[..k]| && params[i'].lexeme == n;
        }
      }
    }
  }

  /** Each parameter is bound to the argument of its last occurrence. */
  lemma {:induction false} BindValues(params: seq<Token>, args: seq<Value>)
    requires |args| <= |params|
    ensures forall i :: 0 <= i < |args| && LastOf(params, |args|, i) ==> Bind(params, args)[params[i].lexeme] == args[i]
    decreases |args|
  {
    if args != [] {
      var k := |args| - 1;
      BindValues(params, args[..k]);
      var m := Bind(params, args[..k]);
      assert Bind(params, args) == m[params[k].lexeme := args[k]];
      forall i | 0 <= i < |args| && LastOf(params, |args|, i)
        ensures Bind(params, args)[params[i].lexeme] == args[i]
      {
        if i < k {
          assert params[k].lexeme != params[i].lexeme;
          assert LastOf(params, k, i);
          assert args[..k][i] == args[i];
          assert m[params[i].lexeme] == args[i];
        }
      }
    }
  }

  /** A user function's body runs in a scope of its own whose only enclosing
      scope is the global one; the call yields nil whatever the body does,
      and the caller's scopes are its own again afterwards. */
  lemma UserCall(st: IState, f: Callable, args: seq<Value>, fuel: nat)
    requires f.UserFn? && Arity(f) == |args|
    ensures Chain(Enter(st, Bind(f.params, args), false)) == [Bind(f.params, args), st.global]
    ensures var (r, s) := CallValue(st, f, args, fuel);
      (r == Val(VNix) || r.Stuck?) && (!r.Stuck? ==> s.locals == st.locals)
  {
  }

  /** `read` delivers the next line, or "" once there is none; `print`
      writes its argument and yields nil. */
  lemma ForeignCalls(st: IState, v: Value, fuel: nat)
    ensures st.input != [] ==> CallValue(st, ReadFn, [], fuel) == (Val(VStr(st.input[0])), st.(input := st.input[1..]))
    ensures st.input == [] ==> CallValue(st, ReadFn, [], fuel) == (Val(VStr("")), st)
    ensures CallValue(st, PrintFn, [v], fuel) == (Val(VNix), st.(output := st.output + [v]))
  {
  }

  /** The interpreter starts with `read` and `print` bound globally. */
  lemma InitialGlobals(input: seq<string>, name: Token)
    ensures name.lexeme == "read" ==> Binding(Chain(Initial(input)), name) == Ok(VFn(ReadFn))
    ensures name.lexeme == "print" ==> Binding(Chain(Initial(input)), name) == Ok(VFn(PrintFn))
    ensures name.lexeme != "read" && name.lexeme != "print" ==> Binding(Chain(Initial(input)), name).Err?
  {
    assert Chain(Initial(input)) == [Initial(input).global];
  }

  // Scopes are restored.

  /** The names each scope of a chain defines, the innermost first. */
  function NamesOf(fs: seq<Frame>): (ns: seq<set<string>>)
    ensures |ns| == |fs|
    ensures forall i :: 0 <= i < |fs| ==> ns[i] == fs[i].Keys
  {
    seq(|fs|, i requires 0 <= i < |fs| => fs[i].Keys)
  }

  function Names(st: IState): (ns: seq<set<string>>)
    ensures |ns| == |st.locals| + 1
  {
    NamesOf(Chain(st))
  }

  /** `b`'s chain is `a`'s, values apart: as many scopes, each defining
      exactly the names it did. */
  predicate Restored(a: IState, b: IState) {
    Names(b) == Names(a)
  }

  /** `b`'s chain has `a`'s scopes; only the innermost may have gained names,
      as `=` binds there. */
  predicate Extended(a: IState, b: IState) {
    |Names(b)| == |Names(a)| && Names(a)[0] <= Names(b)[0] && Names(b)[1..] == Names(a)[1..]
  }

  lemma NamesOfCons(f: Frame, fs: seq<Frame>)
    ensures NamesOf([f] + fs) == [f.Keys] + NamesOf(fs)
  {
    var a := NamesOf([f] + fs);
    var b := [f.Keys] + NamesOf(fs);
    forall i | 0 <= i < |a|
      ensures a[i] == b[i]
    {
      if i > 0 {
        assert ([f] + fs)[i] == fs[i - 1];
      }
    }
  }

  lemma NamesOfTail(fs: seq<Frame>)
    requires fs != []
    ensures NamesOf(fs[1..]) == NamesOf(fs)[1..]
  {
  }

  /** `=` adds the name to the innermost scope and to no other. */
  lemma AssignExtends(st: IState, name: string, v: Value)
    ensures Extended(st, WithChain(st, AssignIn(Chain(st), name, v)))
  {
    var ch := AssignIn(Chain(st), name, v);
    assert Names(WithChain(st, ch)) == NamesOf(ch);
    assert NamesOf(ch)[1..] == NamesOf(Chain(st))[1..] by {
      NamesOfTail(ch);
      NamesOfTail(Chain(st));
    }
  }

  /** `:=` changes a value and no scope's names. */
  lemma StrictRestores(st: IState, name: Token, v: Value)
    requires StrictUpdate(Chain(st), name, v).Ok?
    ensures Restored(st, WithChain(st, StrictUpdate(Chain(st), name, v).value))
  {
    var ch := StrictUpdate(Chain(st), name, v).value;
    StrictChanges(Chain(st), name, v);
    assert Names(WithChain(st, ch)) == NamesOf(ch);
  }

  /** Whatever an expression or a statement does, finishing normally or by
      a `RuntimeError`, it leaves the scopes it found, the innermost perhaps
      with more names. */
  lemma {:induction false} EvalRestores(st: IState, e: Expr, fuel: nat)
    ensures !Eval(st, e, fuel).0.Stuck? ==> Extended(st, Eval(st, e, fuel).1)
    decreases fuel, e, 2
  {
    match e {
      case Binary(l, op, r) =>
        EvalRestores(st, l, fuel);
        EvalRestores(Eval(st, l, fuel).1, r, fuel);
      case Unary(op, r) =>
        EvalRestores(st, r, fuel);
      case ParenGroup(i) =>
        EvalRestores(st, i, fuel);
      case Literal(_, _) =>
      case Variable(_, _) =>
      case Logical(l, op, r) =>
        EvalRestores(st, l, fuel);
        EvalRestores(Eval(st, l, fuel).1, r, fuel);
      case Assign(_, name, op, val) =>
        EvalRestores(st, val, fuel);
        var (a, s1) := Eval(st, val, fuel);
        if a.Val? {
          if op.tokenType == Equal {
            AssignExtends(s1, name.lexeme, a.v);
          } else if op.tokenType == BtEqual && StrictUpdate(Chain(s1), name, a.v).Ok? {
            StrictRestores(s1, name, a.v);
          }
        }
      case Call(callee, paren, args) =>
        EvalRestores(st, callee, fuel);
        var (c, s1) := Eval(st, callee, fuel);
        EvalArgsRestores(s1, args, fuel);
        var (vs, s2) := EvalArgs(s1, args, fuel);
        if c.Val? && vs.Val? && c.v.VFn? && Arity(c.v.fn) == |vs.v| && fuel > 0 {
          CallRestores(s2, c.v.fn, vs.v, fuel - 1);
        }
      case Lambda(_, _) =>
      case ListExpr(_) =>
      case Index(_, _) =>
      case RangeExpr(_, _, _) =>
    }
  }

  lemma {:induction false} EvalArgsRestores(st: IState, args: seq<Expr>, fuel: nat)
    ensures !EvalArgs(st, args, fuel).0.Stuck? ==> Extended(st, EvalArgs(st, args, fuel).1)
    decreases fuel, args, 1
  {
    if args != [] {
      EvalArgsRestores(st, args[..|args| - 1], fuel);
      EvalRestores(EvalArgs(st, args[..|args| - 1], fuel).1, args[|args| - 1], fuel);
    }
  }

  /** A call comes back to the caller's very scopes, and the global scope
      defines the names it did. */
  lemma {:induction false} CallRestores(st: IState, f: Callable, args: seq<Value>, fuel: nat)
    requires Arity(f) == |args|
    ensures var (r, s) := CallValue(st, f, args, fuel);
      !r.Stuck? ==> Restored(st, s) && s.locals == st.locals
    decreases fuel, FnBody(f), 3
  {
    if f.UserFn? {
      BlockRestores(st, f.body, Bind(f.params, args), false, fuel);
    }
  }

  lemma {:induction false} ExecRestores(st: IState, s: Stmt, fuel: nat)
    ensures !Exec(st, s, fuel).0.Stuck? ==> Extended(st, Exec(st, s, fuel).1)
    decreases fuel, s, 3
  {
    match s {
      case Expression(e) =>
        EvalRestores(st, e, fuel);
      case Block(ss) =>
        BlockRestores(st, ss, map[], true, fuel);
      case IfStmt(c, t, el) =>
        EvalRestores(st, c, fuel);
        var s1 := Eval(st, c, fuel).1;
        ExecRestores(s1, t, fuel);
        if el.Some? {
          ExecRestores(s1, el.value, fuel);
        }
      case WhileStmt(c, b) =>
        EvalRestores(st, c, fuel);
        var (r, s1) := Eval(st, c, fuel);
        if r.Val? {
          WhileRestores(s1, r.v, c, b, fuel);
        }
      case PrintStmt(_) =>
      case ForStmt(_, _, _, _) =>
      case Func(_, _, _) =>
      case ReturnStmt(_, _) =>
      case Break =>
      case Continue =>
    }
  }

  lemma {:induction false} WhileRestores(st: IState, cv: Value, c: Expr, b: Stmt, fuel: nat)
    ensures !WhileFrom(st, cv, c, b, fuel).0.Stuck? ==> Extended(st, WhileFrom(st, cv, c, b, fuel).1)
    decreases fuel, WhileStmt(c, b), 2
  {
    if IsTrue(cv) && fuel > 0 {
      var (r, s1) := Exec(st, b, fuel);
      ExecRestores(st, b, fuel);
      if r.Val? {
        var (q, s2) := Eval(s1, c, fuel);
        EvalRestores(s1, c, fuel);
        if q.Val? {
          WhileRestores(s2, q.v, c, b, fuel - 1);
        }
      }
    }
  }

  lemma {:induction false} StmtsRestore(st: IState, ss: seq<Stmt>, fuel: nat)
    ensures !ExecStmts(st, ss, fuel).0.Stuck? ==> Extended(st, ExecStmts(st, ss, fuel).1)
    decreases fuel, ss, 1
  {
    if ss != [] {
      StmtsRestore(st, ss[..|ss| - 1], fuel);
      ExecRestores(ExecStmts(st, ss[..|ss| - 1], fuel).1, ss[|ss| - 1], fuel);
    }
  }

  /** `executeBlock` goes back to the saved chain on a normal exit and on a
      `RuntimeError` alike: every scope, and the global one, defines exactly
      the names it did, and a call's caller gets its own scopes back. The
      error is reported, not passed on. */
  lemma {:induction false} BlockRestores(st: IState, ss: seq<Stmt>, frame: Frame, nested: bool, fuel: nat)
    ensures var (r, s) := ExecBlock(st, ss, frame, nested, fuel);
      !r.Stuck? ==> r == Val(()) && Restored(st, s) && (!nested ==> s.locals == st.locals)
    ensures var (r, s1) := ExecStmts(Enter(st, frame, nested), ss, fuel);
      r.Raise? ==> ExecBlock(st, ss, frame, nested, fuel).1.diags == s1.diags + [RuntimeFault(r.err.token.line, r.err.message)]
    decreases fuel, ss, 2
  {
    var inner := Enter(st, frame, nested);
    StmtsRestore(inner, ss, fuel);
    var (r, s1) := ExecStmts(inner, ss, fuel);
    if !r.Stuck? {
      var back := s1.(locals := if nested then Tail(s1.locals) else st.locals);
      if nested {
        assert Chain(inner) == [frame] + Chain(st);
        NamesOfCons(frame, Chain(st));
        assert Chain(back) == Chain(s1)[1..];
        NamesOfTail(Chain(s1));
      } else {
        assert Chain(inner) == [frame, st.global];
        assert Names(s1)[1] == Names(inner)[1];
        assert Names(back) == Names(st);
      }
      assert Restored(st, back);
    }
  }

  /** After a block, a name is defined exactly when it was before it: what
      the block bound with `=` is gone with the block's scope. */
  lemma BlockKeepsNames(st: IState, ss: seq<Stmt>, fuel: nat, name: Token)
    ensures var (r, s) := ExecBlock(st, ss, map[], true, fuel);
      !r.Stuck? ==> (Binding(Chain(s), name).Ok? <==> Binding(Chain(st), name).Ok?)
  {
    BlockRestores(st, ss, map[], true, fuel);
    var (r, s) := ExecBlock(st, ss, map[], true, fuel);
    if !r.Stuck? {
      BindingFinds(Chain(st), name);
      BindingFinds(Chain(s), name);
      assert forall k :: 0 <= k < |Chain(s)| ==> (name.lexeme in Chain(s)[k] <==> name.lexeme in Names(st)[k]);
    }
  }

  /** A block `{ x := e }` whose `x` an outer scope defines overwrites that
      binding, and the new value is what `x` reads after the block. */
  lemma BlockStrictAssignPersists(st: IState, id: nat, name: Token, op: Token, lt: LiteralType, lit: LitValue, fuel: nat)
    requires op.tokenType == BtEqual && Binding(Chain(st), name).Ok?
    ensures var (r, s) := ExecBlock(st, [Expression(Assign(id, name, op, Literal(lt, lit)))], map[], true, fuel);
      r == Val(()) && Binding(Chain(s), name) == Ok(ValueOf(lit))
  {
    var v := ValueOf(lit);
    var inner := Enter(st, map[], true);
    assert Chain(inner) == [map[]] + Chain(st);
    StrictCons(map[], Chain(st), name, v);
    StrictUpdates(Chain(st), name, v);
    var ch := StrictUpdate(Chain(st), name, v).value;
    StrictChanges(Chain(st), name, v);
    StrictAssignRuns(inner, id, name, op, lt, lit, fuel);
    var s1 := WithChain(inner, [map[]] + ch);
    assert Chain(s1.(locals := Tail(s1.locals))) == ch;
  }

  /** The one statement `x := literal`, run where `:=` finds `x`. */
  lemma StrictAssignRuns(st: IState, id: nat, name: Token, op: Token, lt: LiteralType, lit: LitValue, fuel: nat)
    requires op.tokenType == BtEqual && StrictUpdate(Chain(st), name, ValueOf(lit)).Ok?
    ensures ExecStmts(st, [Expression(Assign(id, name, op, Literal(lt, lit)))], fuel)
      == (Val(()), WithChain(st, StrictUpdate(Chain(st), name, ValueOf(lit)).value))
  {
    var stmt := Expression(Assign(id, name, op, Literal(lt, lit)));
    assert [stmt][..0] == [];
    var s1 := WithChain(st, StrictUpdate(Chain(st), name, ValueOf(lit)).value);
    assert Eval(st, Literal(lt, lit), fuel) == (Val(ValueOf(lit)), st);
    assert Eval(st, Assign(id, name, op, Literal(lt, lit)), fuel) == (Val(ValueOf(lit)), s1);
    assert Exec(st, stmt, fuel) == (Val(()), s1);
  }

  // Statement sequences.

  /** Running `a + b` is running `a`, then `b` only if `a` finished
      normally. */
  lemma {:induction false} ExecStmtsAppend(st: IState, a: seq<Stmt>, b: seq<Stmt>, fuel: nat)
    ensures ExecStmts(st, a + b, fuel)
      == var (r, s1) := ExecStmts(st, a, fuel); if r.Val? then ExecStmts(s1, b, fuel) else (r, s1)
    decreases |b|
  {
    if b == [] {
      assert a + b == a;
      var (r, s1) := ExecStmts(st, a, fuel);
      if r.Val? {
        UnitVal(r);
      }
    } else {
      ExecStmtsAppend(st, a, b[..|b| - 1], fuel);
      assert (a + b)[..|a + b| - 1] == a + b[..|b| - 1];
    }
  }

  /** The first `RuntimeError` of a program is reported and nothing after
      the statement that raised it runs. */
  lemma InterpretStops(st: IState, a: seq<Stmt>, rest: seq<Stmt>, fuel: nat)
    requires ExecStmts(st, a, fuel).0.Raise?
    ensures var (r, s1) := ExecStmts(st, a, fuel);
      Interpret(st, a + rest, fuel) == (Val(()), Report(s1, r.err))
  {
    ExecStmtsAppend(st, a, rest, fuel);
  }

  /** An expression shows nothing when it raises, which is then reported,
      or when it is a call that yields nil. */
  lemma ExprShows(st: IState, e: Expr, fmt: real -> string, fuel: nat)
    ensures var (r, s1) := Eval(st, e, fuel);
      var (t, s2) := InterpretExpr(st, e, fmt, fuel);
      && (r.Raise? ==> t == Val("") && s2 == Report(s1, r.err))
      && (r.Val? && e.Call? && r.v.VNix? ==> t == Val(""))
      && (r.Val? && r.v.VStr? ==> t == Val("\"" + r.v.s + "\""))
  {
  }
}
