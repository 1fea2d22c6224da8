/** `Interpreter` of src/Interpreter.cpp with `ProtoFunction::call` of
    src/ProtoFunc.cpp: an object whose `visit` overloads update `m_val`
    (the field `val`) and `m_env` (the chain `locals`, then `global`). Each
    method is proved to move the object from one state to the one the
    function of `InterpSpec` with the same name gives. */
module Interpreting {
  import opened Base
  import opened Tokens
  import opened Ast
  import opened Values
  import opened Frames
  import opened InterpSpec

  class Interpreter {
    var locals: seq<Frame>
    var global: Frame
    var val: Value
    var diags: seq<Diagnostic>
    var input: seq<string>
    var output: seq<Value>

    /** The object's state as a value; `m_val` is only read after a visit
        has set it, so it is not part of it. */
    function State(): IState
      reads this
    {
      IState(locals, global, diags, input, output)
    }

    /** `Interpreter()`: `read` and `print` go into the global scope. */
    constructor (lines: seq<string>)
      ensures State() == Initial(lines) && val == VNix
    {
      locals := [];
      global := map[];
      val := VNix;
      diags := [];
      input := lines;
      output := [];
      new;
      global := global["read" := VFn(ReadFn)];
      global := global["print" := VFn(PrintFn)];
    }

    /** `accept` on an expression: dispatch to its `visit`. */
    method Evaluate(e: Expr, fuel: nat) returns (r: Res<Value>)
      modifies this
      ensures (r, State()) == Eval(old(State()), e, fuel)
      ensures r.Val? ==> val == r.v
      decreases fuel, e, 2
    {
      match e {
        case Binary(l, op, right) =>
          r := VisitBinary(l, op, right, fuel);
        case Unary(op, right) =>
          r := VisitUnary(op, right, fuel);
        case ParenGroup(i) =>
          r := Evaluate(i, fuel);
        case Literal(_, lit) =>
          val := ValueOf(lit);
          r := Val(val);
        case Variable(_, name) =>
          var got := Binding(Chain(State()), name);
          if got.Err? {
            return Raise(got.error);
          }
          val := got.value;
          r := Val(val);
        case Logical(l, op, right) =>
          r := VisitLogical(l, op, right, fuel);
        case Assign(id, name, op, v) =>
          r := VisitAssign(id, name, op, v, fuel);
        case Call(callee, paren, args) =>
          r := VisitCall(callee, paren, args, fuel);
        case Lambda(_, _) =>
          r := Stuck(NoVisit);
        case ListExpr(_) =>
          r := Stuck(NoVisit);
        case Index(_, _) =>
          r := Stuck(NoVisit);
        case RangeExpr(_, _, _) =>
          r := Stuck(NoVisit);
      }
    }

    /** `visit(const Binary&)`. */
    method VisitBinary(l: Expr, op: Token, right: Expr, fuel: nat) returns (r: Res<Value>)
      modifies this
      ensures (r, State()) == EvalBinary(old(State()), l, op, right, fuel)
      ensures r.Val? ==> val == r.v
      decreases fuel, Binary(l, op, right), 1
    {
      BinaryUnfolds(State(), l, op, right, fuel);
      var a := Evaluate(l, fuel);
      if !a.Val? {
        return a;
      }
      var b := Evaluate(right, fuel);
      if !b.Val? {
        return b;
      }
      r := BinaryOp(op, a.v, b.v);
      if r.Val? {
        val := r.v;
      }
    }

    /** `visit(const Unary&)`. */
    method VisitUnary(op: Token, right: Expr, fuel: nat) returns (r: Res<Value>)
      modifies this
      ensures (r, State()) == EvalUnary(old(State()), op, right, fuel)
      ensures r.Val? ==> val == r.v
      decreases fuel, Unary(op, right), 1
    {
      var a := Evaluate(right, fuel);
      if !a.Val? {
        return a;
      }
      r := UnaryOp(op, val);
      if r.Val? {
        val := r.v;
      }
    }

    /** `visit(const Logical&)`. */
    method VisitLogical(l: Expr, op: Token, right: Expr, fuel: nat) returns (r: Res<Value>)
      modifies this
      ensures (r, State()) == EvalLogical(old(State()), l, op, right, fuel)
      ensures r.Val? ==> val == r.v
      decreases fuel, Logical(l, op, right), 1
    {
      LogicalUnfolds(State(), l, op, right, fuel);
      var a := Evaluate(l, fuel);
      if !a.Val? {
        return a;
      }
      if op.tokenType == Or {
        if IsTrue(val) {
          val := VBool(true);
          return Val(val);
        }
      } else if !IsTrue(val) {
        val := VBool(false);
        return Val(val);
      }
      var b := Evaluate(right, fuel);
      if !b.Val? {
        return b;
      }
      val := VBool(IsTrue(val));
      r := Val(val);
    }

    /** `visit(const Assign&)`: `=` assigns in the innermost scope, `:=`
        overwrites the nearest binding; `m_val` keeps the value. */
    method VisitAssign(id: nat, name: Token, op: Token, v: Expr, fuel: nat) returns (r: Res<Value>)
      modifies this
      ensures (r, State()) == EvalAssign(old(State()), id, name, op, v, fuel)
      ensures r.Val? ==> val == r.v
      decreases fuel, Assign(id, name, op, v), 1
    {
      AssignUnfolds(State(), id, name, op, v, fuel);
      r := Evaluate(v, fuel);
      if !r.Val? {
        return;
      }
      if op.tokenType == Equal {
        var after := WithChain(State(), AssignIn(Chain(State()), name.lexeme, val));
        locals, global := after.locals, after.global;
      } else if op.tokenType == BtEqual {
        var upd := StrictUpdate(Chain(State()), name, val);
        if upd.Err? {
          return Raise(upd.error);
        }
        var after := WithChain(State(), upd.value);
        locals, global := after.locals, after.global;
      }
    }

    /** `visit(const Call&)`: the callee, then the arguments in turn, then
        the checks and the call. */
    method VisitCall(callee: Expr, paren: Token, args: seq<Expr>, fuel: nat) returns (r: Res<Value>)
      modifies this
      ensures (r, State()) == EvalCall(old(State()), callee, paren, args, fuel)
      ensures r.Val? ==> val == r.v
      decreases fuel, Call(callee, paren, args), 1
    {
      CallUnfolds(State(), callee, paren, args, fuel);
      var c := Evaluate(callee, fuel);
      if !c.Val? {
        return c;
      }
      var vs := EvaluateArgs(args, fuel);
      if !vs.Val? {
        return Recast(vs, VNix);
      }
      var vals := vs.v;
      if !c.v.VFn? {
        return Raise(RuntimeError(paren, NotCallable));
      }
      var fn := c.v.fn;
      if Arity(fn) != |vals| {
        return Raise(RuntimeError(paren, ArityMessage(Arity(fn), |vals|)));
      }
      if fuel == 0 {
        return Stuck(OutOfFuel);
      }
      r := CallFunction(fn, vals, fuel - 1);
      if r.Val? {
        val := r.v;
      }
    }

    /** The argument loop of `visit(const Call&)`. */
    method EvaluateArgs(args: seq<Expr>, fuel: nat) returns (r: Res<seq<Value>>)
      modifies this
      ensures (r, State()) == EvalArgs(old(State()), args, fuel)
      decreases fuel, args, 1
    {
      var vals: seq<Value> := [];
      for i := 0 to |args|
        invariant EvalArgs(old(State()), args[..i], fuel) == (Val(vals), State())
      {
        var a := Evaluate(args[i], fuel);
        assert args[..i + 1][..i] == args[..i];
        if !a.Val? {
          EvalArgsStop(old(State()), args, i + 1, fuel);
          return Recast(a, []);
        }
        vals := vals + [a.v];
      }
      assert args[..|args|] == args;
      r := Val(vals);
    }

    /** `call` of each callable. A user function's scope is filled by
        assigning the arguments to the parameters in turn; its parent is
        the global scope. */
    method CallFunction(f: Callable, args: seq<Value>, fuel: nat) returns (r: Res<Value>)
      requires Arity(f) == |args|
      modifies this
      ensures (r, State()) == CallValue(old(State()), f, args, fuel)
      decreases fuel, FnBody(f), 3
    {
      match f {
        case ReadFn =>
          if input == [] {
            r := Val(VStr(""));
          } else {
            r := Val(VStr(input[0]));
            input := input[1..];
          }
        case PrintFn =>
          output := output + [args[0]];
          r := Val(VNix);
        case UserFn(_, params, body) =>
          var frame: Frame := map[];
          for i := 0 to |args|
            invariant frame == Bind(params, args[..i])
          {
            assert args[..i + 1][..i] == args[..i];
            frame := frame[params[i].lexeme := args[i]];
          }
          assert args[..|args|] == args;
          var b := ExecuteBlock(body, frame, false, fuel);
          r := Recast(b, VNix);
      }
    }

    /** `execute`: dispatch to the statement's `visit`. */
    method Execute(s: Stmt, fuel: nat) returns (r: Res<()>)
      modifies this
      ensures (r, State()) == Exec(old(State()), s, fuel)
      decreases fuel, s, 3
    {
      match s {
        case Expression(e) =>
          var v := Evaluate(e, fuel);
          r := Recast(v, ());
        case Block(ss) =>
          r := ExecuteBlock(ss, map[], true, fuel);
        case IfStmt(c, t, el) =>
          r := VisitIf(c, t, el, fuel);
        case WhileStmt(c, b) =>
          r := VisitWhile(c, b, fuel);
        case PrintStmt(_) =>
          r := Stuck(NoVisit);
        case ForStmt(_, _, _, _) =>
          r := Stuck(NoVisit);
        case Func(_, _, _) =>
          r := Stuck(NoVisit);
        case ReturnStmt(_, _) =>
          r := Stuck(NoVisit);
        case Break =>
          r := Stuck(NoVisit);
        case Continue =>
          r := Stuck(NoVisit);
      }
    }

    /** `visit(const If&)`. */
    method VisitIf(c: Expr, t: Stmt, el: Option<Stmt>, fuel: nat) returns (r: Res<()>)
      modifies this
      ensures (r, State()) == ExecIf(old(State()), c, t, el, fuel)
      decreases fuel, IfStmt(c, t, el), 2
    {
      IfUnfolds(State(), c, t, el, fuel);
      var v := Evaluate(c, fuel);
      if !v.Val? {
        return Recast(v, ());
      }
      if IsTrue(val) {
        r := Execute(t, fuel);
      } else if el.Some? {
        r := Execute(el.value, fuel);
      } else {
        r := Val(());
      }
    }

    /** `visit(const While&)`. */
    method VisitWhile(c: Expr, b: Stmt, fuel: nat) returns (r: Res<()>)
      modifies this
      ensures (r, State()) == ExecWhile(old(State()), c, b, fuel)
      decreases fuel, WhileStmt(c, b), 2
    {
      WhileUnfolds(State(), c, b, fuel);
      var v := Evaluate(c, fuel);
      if !v.Val? {
        return Recast(v, ());
      }
      r := RunLoop(c, b, fuel);
    }

    /** The loop of the `While` visit, the condition's value in `val`:
        run the body and test again while it is true; each turn spends one
        unit of fuel. */
    method RunLoop(c: Expr, b: Stmt, fuel: nat) returns (r: Res<()>)
      modifies this
      ensures (r, State()) == WhileFrom(old(State()), old(val), c, b, fuel)
      decreases fuel, WhileStmt(c, b), 1
    {
      var f: nat := fuel;
      while IsTrue(val)
        invariant f <= fuel
        invariant WhileFrom(State(), val, c, b, f) == WhileFrom(old(State()), old(val), c, b, fuel)
        decreases f
      {
        if f == 0 {
          return Stuck(OutOfFuel);
        }
        r := RunTurn(c, b, f);
        if !r.Val? {
          return;
        }
        f := f - 1;
      }
      r := Val(());
    }

    /** One turn of the loop: the body, then the condition again. */
    method RunTurn(c: Expr, b: Stmt, f: nat) returns (r: Res<()>)
      requires IsTrue(val) && f > 0
      modifies this
      ensures !r.Val? ==> (r, State()) == WhileFrom(old(State()), old(val), c, b, f)
      ensures r.Val? ==> WhileFrom(old(State()), old(val), c, b, f) == WhileFrom(State(), val, c, b, f - 1)
      decreases f, WhileStmt(c, b), 0
    {
      WhileTurn(State(), val, c, b, f);
      var br := Execute(b, f);
      if !br.Val? {
        return br;
      }
      var q := Evaluate(c, f);
      if !q.Val? {
        return Recast(q, ());
      }
      r := Val(());
    }

    /** The statement loop of `executeBlock` and `interpret`, left at the
        first statement that does not finish normally. */
    method ExecuteStmts(ss: seq<Stmt>, fuel: nat) returns (r: Res<()>)
      modifies this
      ensures (r, State()) == ExecStmts(old(State()), ss, fuel)
      decreases fuel, ss, 1
    {
      for i := 0 to |ss|
        invariant ExecStmts(old(State()), ss[..i], fuel).0.Val?
        invariant ExecStmts(old(State()), ss[..i], fuel).1 == State()
      {
        r := Execute(ss[i], fuel);
        assert ss[..i + 1][..i] == ss[..i];
        if !r.Val? {
          StmtsStop(old(State()), ss, i + 1, fuel);
          return;
        }
      }
      assert ss[..|ss|] == ss;
      UnitVal(ExecStmts(old(State()), ss, fuel).0);
      r := Val(());
    }

    /** `executeBlock`: save the chain, run the statements in `frame`, and
        go back to the saved chain whether they finish or raise. For a block
        the saved chain is the one below its scope, with what the block
        wrote into it; a call goes back to the caller's own scopes. */
    method ExecuteBlock(stmts: seq<Stmt>, frame: Frame, nested: bool, fuel: nat) returns (r: Res<()>)
      modifies this
      ensures (r, State()) == ExecBlock(old(State()), stmts, frame, nested, fuel)
      decreases fuel, stmts, 2
    {
      var parent := locals;
      locals := [frame] + if nested then locals else [];
      r := ExecuteStmts(stmts, fuel);
      if r.Stuck? {
        return;
      }
      locals := if nested then Tail(locals) else parent;
      if r.Raise? {
        diags := diags + [RuntimeFault(r.err.token.line, r.err.message)];
      }
      r := Val(());
    }

    /** `interpret(const Stmts&)`. */
    method InterpretProgram(stmts: seq<Stmt>, fuel: nat) returns (r: Res<()>)
      modifies this
      ensures (r, State()) == Interpret(old(State()), stmts, fuel)
    {
      r := ExecuteStmts(stmts, fuel);
      if r.Raise? {
        diags := diags + [RuntimeFault(r.err.token.line, r.err.message)];
        r := Val(());
      }
    }

    /** `interpret(Expr_ptr)`: the text shown for an expression. */
    method InterpretExpression(e: Expr, fmt: real -> string, fuel: nat) returns (r: Res<string>)
      modifies this
      ensures (r, State()) == InterpretExpr(old(State()), e, fmt, fuel)
    {
      var v := Evaluate(e, fuel);
      match v {
        case Val(x) =>
          r := Val(if e.Call? && val.VNix? then "" else Stringify(val, "\"", fmt));
        case Raise(err) =>
          diags := diags + [RuntimeFault(err.token.line, err.message)];
          r := Val("");
        case Stuck(w) =>
          r := Stuck(w);
      }
    }
  }

  // One step of each spec function, for the methods that follow it.

  lemma IfUnfolds(st: IState, c: Expr, t: Stmt, el: Option<Stmt>, fuel: nat)
    ensures var (v, s1) := Eval(st, c, fuel);
      ExecIf(st, c, t, el, fuel)
      == if !v.Val? then (Recast(v, ()), s1) else if IsTrue(v.v) then Exec(s1, t, fuel) else if el.Some? then Exec(s1, el.value, fuel) else (Val(()), s1)
  {
  }

  lemma WhileTurn(st: IState, cv: Value, c: Expr, b: Stmt, f: nat)
    requires IsTrue(cv) && f > 0
    ensures var (r, s1) := Exec(st, b, f);
      !r.Val? ==> (WhileFrom(st, cv, c, b, f) == (r, s1))
    ensures var (r, s1) := Exec(st, b, f);
      var (q, s2) := Eval(s1, c, f);
      r.Val? ==> (WhileFrom(st, cv, c, b, f) == if q.Val? then WhileFrom(s2, q.v, c, b, f - 1) else (Recast(q, ()), s2))
  {
  }

  lemma BinaryUnfolds(st: IState, l: Expr, op: Token, r: Expr, fuel: nat)
    ensures var (a, s1) := Eval(st, l, fuel);
      var (b, s2) := Eval(s1, r, fuel);
      EvalBinary(st, l, op, r, fuel)
      == if !a.Val? then (a, s1) else if !b.Val? then (b, s2) else (BinaryOp(op, a.v, b.v), s2)
  {
  }

  lemma WhileUnfolds(st: IState, c: Expr, b: Stmt, fuel: nat)
    ensures var (v, s1) := Eval(st, c, fuel);
      ExecWhile(st, c, b, fuel) == if v.Val? then WhileFrom(s1, v.v, c, b, fuel) else (Recast(v, ()), s1)
  {
  }

  lemma LogicalUnfolds(st: IState, l: Expr, op: Token, r: Expr, fuel: nat)
    ensures var (a, s1) := Eval(st, l, fuel);
      EvalLogical(st, l, op, r, fuel)
      == if !a.Val? then (a, s1) else if (op.tokenType == Or) == IsTrue(a.v) then (Val(VBool(IsTrue(a.v))), s1)
         else var (b, s2) := Eval(s1, r, fuel); if b.Val? then (Val(VBool(IsTrue(b.v))), s2) else (b, s2)
  {
  }

  lemma AssignUnfolds(st: IState, id: nat, name: Token, op: Token, v: Expr, fuel: nat)
    ensures var (a, s1) := Eval(st, v, fuel);
      EvalAssign(st, id, name, op, v, fuel)
      == if !a.Val? then (a, s1) else if op.tokenType == Equal then (a, WithChain(s1, AssignIn(Chain(s1), name.lexeme, a.v)))
         else if op.tokenType != BtEqual then (a, s1)
         else match StrictUpdate(Chain(s1), name, a.v)
           case Ok(ch) => (a, WithChain(s1, ch))
           case Err(err) => (Raise(err), s1)
  {
  }

  lemma CallUnfolds(st: IState, callee: Expr, paren: Token, args: seq<Expr>, fuel: nat)
    ensures var (c, s1) := Eval(st, callee, fuel);
      var (vs, s2) := EvalArgs(s1, args, fuel);
      EvalCall(st, callee, paren, args, fuel)
      == if !c.Val? then (c, s1)
         else if !vs.Val? then (Recast(vs, VNix), s2)
         else if !c.v.VFn? then (Raise(RuntimeError(paren, NotCallable)), s2)
         else if Arity(c.v.fn) != |vs.v| then (Raise(RuntimeError(paren, ArityMessage(Arity(c.v.fn), |vs.v|))), s2)
         else if fuel == 0 then (Stuck(OutOfFuel), s2)
         else CallValue(s2, c.v.fn, vs.v, fuel - 1)
  {
  }

  /** Once an argument raises, the later ones are never evaluated. */
  lemma {:induction false} EvalArgsStop(st: IState, args: seq<Expr>, i: nat, fuel: nat)
    requires i <= |args| && !EvalArgs(st, args[..i], fuel).0.Val?
    ensures EvalArgs(st, args, fuel) == EvalArgs(st, args[..i], fuel)
    decreases |args|
  {
    if i < |args| {
      var n := |args| - 1;
      assert args[..n][..i] == args[..i];
      EvalArgsStop(st, args[..n], i, fuel);
    } else {
      assert args[..i] == args;
    }
  }

  /** Once a statement does not finish normally, the later ones never run. */
  lemma {:induction false} StmtsStop(st: IState, ss: seq<Stmt>, i: nat, fuel: nat)
    requires i <= |ss| && !ExecStmts(st, ss[..i], fuel).0.Val?
    ensures ExecStmts(st, ss, fuel) == ExecStmts(st, ss[..i], fuel)
    decreases |ss|
  {
    if i < |ss| {
      var n := |ss| - 1;
      assert ss[..n][..i] == ss[..i];
      StmtsStop(st, ss[..n], i, fuel);
    } else {
      assert ss[..i] == ss;
    }
  }
}
