/** `Resolver` of src/Resolver.cpp: the static pass as an object whose fields
    are updated in place by its `visit` overloads. The resolution table that
    `Interpreter::resolve` fills in is the field `locals`, and the warnings
    and errors the pass reports through `Proto` are appended to `diags`.
    Every method is proved to move the object from one state to the state
    the function of `ResolveSpec` with the same name gives. */
module Resolving {
  import opened Base
  import opened Tokens
  import opened Ast
  import opened ResolveSpec

  class Resolver {
    var scopes: seq<Scope>
    var inFunction: bool
    var rtrnLine: nat
    var locals: map<nat, nat>
    var diags: seq<Diagnostic>

    /** The object's state as a value. */
    function State(): RState
      reads this
    {
      RState(scopes, inFunction, rtrnLine, locals, diags)
    }

    constructor ()
      ensures State() == RState([], false, 0, map[], [])
    {
      scopes := [];
      inFunction := false;
      rtrnLine := 0;
      locals := map[];
      diags := [];
    }

    method BeginScope()
      modifies this
      ensures State() == ResolveSpec.BeginScope(old(State()))
    {
      scopes := scopes + [EmptyScope];
    }

    /** `endScope`: `m_scopes.back()` needs a scope to pop. */
    method EndScope()
      requires scopes != []
      modifies this
      ensures State() == ResolveSpec.EndScope(old(State()))
    {
      WarnUnread(scopes[|scopes| - 1]);
      scopes := scopes[..|scopes| - 1];
    }

    /** The loop of `endScope`: one warning per unread name of the scope. */
    method WarnUnread(top: Scope)
      modifies this`diags
      ensures diags == old(diags) + UnusedWarnings(top, Unread(top, top.order))
    {
      for k := 0 to |top.order|
        invariant diags == old(diags) + WarningsFor(top, top.order[..k])
      {
        var name := top.order[k];
        assert top.order[..k + 1][..k] == top.order[..k];
        if name in top.vars && !top.vars[name].hasBeenRead {
          diags := diags + [Warning(top.vars[name].line, UnusedMessage(name))];
        }
      }
      assert top.order[..|top.order|] == top.order;
      WarningsForUnread(top, top.order);
    }

    method Define(name: Token)
      modifies this
      ensures State() == ResolveSpec.Define(old(State()), name)
    {
      if scopes == [] {
        return;
      }
      scopes := scopes[|scopes| - 1 := DefineIn(scopes[|scopes| - 1], name)];
    }

    /** `resolveLocal`: search the scopes from the innermost outwards. */
    method ResolveLocal(id: nat, name: Token, read: bool)
      modifies this
      ensures State() == ResolveSpec.ResolveLocal(old(State()), id, name, read)
    {
      var i := |scopes|;
      assert scopes[..i] == scopes;
      while i > 0
        invariant 0 <= i <= |scopes| && State() == old(State())
        invariant Innermost(scopes, name.lexeme) == Innermost(scopes[..i], name.lexeme)
      {
        i := i - 1;
        assert scopes[..i + 1][..i] == scopes[..i];
        assert scopes[..i + 1][i] == scopes[i];
        if name.lexeme in scopes[i].vars {
          locals := locals[id := |scopes| - i - 1];
          if read {
            var sc := scopes[i];
            scopes := scopes[i := sc.(vars := sc.vars[name.lexeme := sc.vars[name.lexeme].(hasBeenRead := true)])];
          }
          return;
        }
      }
    }

    method IsInCurrentScope(name: string) returns (b: bool)
      ensures b == InCurrentScope(scopes, name)
    {
      if scopes == [] {
        return false;
      }
      b := name in scopes[|scopes| - 1].vars;
    }

    /** Both `resolveFunc` overloads; `clear` tells the one for `Func`
        (which clears the marker of a `return` after warning) from the one
        for `Lambda`. */
    method ResolveFunc(params: seq<Token>, body: seq<Stmt>, clear: bool)
      modifies this
      ensures State() == ResolveSpec.ResolveFunc(old(State()), params, body, clear)
      decreases body, 1
    {
      var temp := inFunction;
      inFunction := true;
      BeginScope();
      ghost var s0 := State();
      for i := 0 to |params|
        invariant State() == DefineAll(s0, params[..i])
      {
        Define(params[i]);
        assert params[..i + 1][..i] == params[..i];
      }
      assert params[..|params|] == params;
      ghost var s := State();
      DefineAllKeeps(s0, params);
      ResolveBody(body, clear);
      BodyKeeps(s, body, clear);
      EndScope();
      inFunction := temp;
      rtrnLine := 0;
    }

    /** The body loop of `resolveFunc`: warn about code after a `return`
        before each statement. */
    method ResolveBody(body: seq<Stmt>, clear: bool)
      modifies this
      ensures State() == ResolveSpec.ResolveBody(old(State()), body, clear)
      decreases body, 0
    {
      for i := 0 to |body|
        invariant State() == ResolveSpec.ResolveBody(old(State()), body[..i], clear)
      {
        if rtrnLine != 0 {
          diags := diags + [Warning(rtrnLine, RedundantCode)];
          if clear {
            rtrnLine := 0;
          }
        }
        ResolveStmt(body[i]);
        assert body[..i + 1][..i] == body[..i];
      }
      assert body[..|body|] == body;
    }

    /** The `visit` overloads for expressions. */
    method ResolveExpr(e: Expr)
      modifies this
      ensures State() == ResolveSpec.ResolveExpr(old(State()), e)
      decreases e, 2
    {
      match e {
        case Binary(l, _, r) =>
          ResolveExpr(l);
          ResolveExpr(r);
        case Unary(_, r) =>
          ResolveExpr(r);
        case ParenGroup(i) =>
          ResolveExpr(i);
        case Literal(_, _) =>
        case Logical(l, _, r) =>
          ResolveExpr(l);
          ResolveExpr(r);
        case Call(callee, _, args) =>
          ResolveExpr(callee);
          ResolveExprs(args);
        case Lambda(params, body) =>
          ResolveFunc(params, body, false);
        case ListExpr(items) =>
          ResolveExprs(items);
        case Index(list, index) =>
          ResolveExpr(index);
          ResolveExpr(list);
        case RangeExpr(first, step, end) =>
          VisitRange(first, step, end);
        case Variable(id, name) =>
          ResolveLocal(id, name, true);
        case Assign(id, name, op, val) =>
          VisitAssign(id, name, op, val);
      }
    }

    /** `visit(const Range&)`: the first value, the step if there is one,
        then the end. */
    method VisitRange(first: Expr, step: Option<Expr>, end: Expr)
      modifies this
      ensures State() == ResolveSpec.ResolveExpr(old(State()), RangeExpr(first, step, end))
      decreases RangeExpr(first, step, end), 1
    {
      RangeShape(State(), first, step, end);
      ResolveExpr(first);
      if step.Some? {
        ResolveExpr(step.value);
      }
      ResolveExpr(end);
    }

    /** `visit(const Assign&)`. */
    method VisitAssign(id: nat, name: Token, op: Token, val: Expr)
      modifies this
      ensures State() == ResolveAssign(old(State()), id, name, op, val)
      decreases Assign(id, name, op, val), 1
    {
      var isStrictAssign := op.tokenType == BtEqual;
      var isLazyAssign := op.tokenType == Equal;
      if isLazyAssign {
        var inCurrent := IsInCurrentScope(name.lexeme);
        if inCurrent {
          ResolveExpr(val);
          ResolveLocal(id, name, false);
          return;
        } else {
          ResolveExpr(val);
          Define(name);
          if scopes != [] {
            ResolveLocal(id, name, false);
          }
          return;
        }
      }
      if isStrictAssign {
        ResolveExpr(val);
        ResolveLocal(id, name, false);
      }
    }

    /** The argument and item loops. */
    method ResolveExprs(es: seq<Expr>)
      modifies this
      ensures State() == ResolveSpec.ResolveExprs(old(State()), es)
      decreases es, 0
    {
      for i := 0 to |es|
        invariant State() == ResolveSpec.ResolveExprs(old(State()), es[..i])
      {
        ResolveExpr(es[i]);
        assert es[..i + 1][..i] == es[..i];
      }
      assert es[..|es|] == es;
    }

    /** The `visit` overloads for statements. */
    method ResolveStmt(s: Stmt)
      modifies this
      ensures State() == ResolveSpec.ResolveStmt(old(State()), s)
      decreases s, 2
    {
      match s {
        case Expression(e) =>
          ResolveExpr(e);
        case PrintStmt(_) =>
        case Block(ss) =>
          VisitBlock(ss);
        case IfStmt(c, t, el) =>
          VisitIf(c, t, el);
        case WhileStmt(c, b) =>
          VisitWhile(c, b);
        case ForStmt(init, cond, inc, body) =>
          VisitFor(init, cond, inc, body);
        case Func(name, params, body) =>
          VisitFunc(name, params, body);
        case ReturnStmt(kw, val) =>
          VisitReturn(kw, val);
        case Break =>
        case Continue =>
      }
    }

    /** `visit(const Block&)`: the statements in a scope of their own. */
    method VisitBlock(ss: seq<Stmt>)
      modifies this
      ensures State() == ResolveSpec.ResolveStmt(old(State()), Block(ss))
      decreases Block(ss), 1
    {
      BeginScope();
      ghost var s0 := State();
      ResolveStmts(ss);
      StmtsKeeps(s0, ss);
      EndScope();
    }

    /** `visit(const If&)`. */
    method VisitIf(c: Expr, t: Stmt, el: Option<Stmt>)
      modifies this
      ensures State() == ResolveSpec.ResolveStmt(old(State()), IfStmt(c, t, el))
      decreases IfStmt(c, t, el), 1
    {
      IfShape(State(), c, t, el);
      ResolveExpr(c);
      ResolveStmt(t);
      if el.Some? {
        ResolveStmt(el.value);
      }
    }

    /** `visit(const While&)`. */
    method VisitWhile(c: Expr, b: Stmt)
      modifies this
      ensures State() == ResolveSpec.ResolveStmt(old(State()), WhileStmt(c, b))
      decreases WhileStmt(c, b), 1
    {
      WhileShape(State(), c, b);
      ResolveExpr(c);
      ResolveStmt(b);
    }

    /** `visit(const Func&)`: the name is defined before the body is
        resolved, so the function can call itself. */
    method VisitFunc(name: Token, params: seq<Token>, body: seq<Stmt>)
      modifies this
      ensures State() == ResolveSpec.ResolveStmt(old(State()), Func(name, params, body))
      decreases Func(name, params, body), 1
    {
      FuncShape(State(), name, params, body);
      Define(name);
      ResolveFunc(params, body, true);
    }

    /** `visit(const For&)`. */
    method VisitFor(init: Option<Expr>, cond: Expr, inc: Option<Expr>, body: Stmt)
      modifies this
      ensures State() == ResolveFor(old(State()), init, cond, inc, body)
      decreases ForStmt(init, cond, inc, body), 1
    {
      BeginScope();
      ghost var s0 := State();
      if init.Some? {
        ResolveExpr(init.value);
      }
      ResolveExpr(cond);
      if inc.Some? {
        ResolveExpr(inc.value);
      }
      if body.Block? {
        ResolveStmts(body.stmts);
      } else {
        ResolveStmt(body);
      }
      ForInnerKeeps(s0, init, cond, inc, body);
      EndScope();
    }

    /** `visit(const Return&)`. */
    method VisitReturn(kw: Token, val: Option<Expr>)
      modifies this
      ensures State() == ResolveReturn(old(State()), kw, val)
      decreases ReturnStmt(kw, val), 1
    {
      if !inFunction {
        diags := diags + [CompileError(kw.line, ReturnOutside)];
        return;
      }
      if val.Some? {
        ResolveExpr(val.value);
      }
      rtrnLine := kw.line;
    }

    /** Statements in turn: a block's body and the program. */
    method ResolveStmts(ss: seq<Stmt>)
      modifies this
      ensures State() == ResolveSpec.ResolveStmts(old(State()), ss)
      decreases ss, 0
    {
      for i := 0 to |ss|
        invariant State() == ResolveSpec.ResolveStmts(old(State()), ss[..i])
      {
        ResolveStmt(ss[i]);
        assert ss[..i + 1][..i] == ss[..i];
      }
      assert ss[..|ss|] == ss;
    }
  }

  // One visit of a compound node, as the methods take it in steps.

  lemma RangeShape(st: RState, first: Expr, step: Option<Expr>, end: Expr)
    ensures ResolveSpec.ResolveExpr(st, RangeExpr(first, step, end))
      == var s := ResolveSpec.ResolveExpr(st, first);
         ResolveSpec.ResolveExpr(if step.Some? then ResolveSpec.ResolveExpr(s, step.value) else s, end)
  {
  }

  lemma IfShape(st: RState, c: Expr, t: Stmt, el: Option<Stmt>)
    ensures ResolveSpec.ResolveStmt(st, IfStmt(c, t, el))
      == var s1 := ResolveSpec.ResolveStmt(ResolveSpec.ResolveExpr(st, c), t);
         if el.Some? then ResolveSpec.ResolveStmt(s1, el.value) else s1
  {
  }

  lemma WhileShape(st: RState, c: Expr, b: Stmt)
    ensures ResolveSpec.ResolveStmt(st, WhileStmt(c, b)) == ResolveSpec.ResolveStmt(ResolveSpec.ResolveExpr(st, c), b)
  {
  }

  lemma FuncShape(st: RState, name: Token, params: seq<Token>, body: seq<Stmt>)
    ensures ResolveSpec.ResolveStmt(st, Func(name, params, body))
      == ResolveSpec.ResolveFunc(ResolveSpec.Define(st, name), params, body, true)
  {
  }

  /** The warnings the walk over `names` gives: one for each unread name. */
  function WarningsFor(sc: Scope, names: seq<string>): seq<Diagnostic> {
    if names == [] then []
    else
      var n := names[|names| - 1];
      WarningsFor(sc, names[..|names| - 1])
        + if n in sc.vars && !sc.vars[n].hasBeenRead then [Warning(sc.vars[n].line, UnusedMessage(n))] else []
  }

  /** They are the warnings `endScope` gives for the unread names. */
  lemma {:induction false} WarningsForUnread(sc: Scope, names: seq<string>)
    ensures WarningsFor(sc, names) == UnusedWarnings(sc, Unread(sc, names))
    decreases |names|
  {
    if names != [] {
      var m := names[..|names| - 1];
      var n := names[|names| - 1];
      WarningsForUnread(sc, m);
      var u := Unread(sc, m);
      if n in sc.vars && !sc.vars[n].hasBeenRead {
        assert Unread(sc, names) == u + [n];
        assert (u + [n])[..|u|] == u;
        assert UnusedWarnings(sc, u + [n]) == UnusedWarnings(sc, u) + [Warning(sc.vars[n].line, UnusedMessage(n))];
      } else {
        assert Unread(sc, names) == u;
      }
    }
  }
}
