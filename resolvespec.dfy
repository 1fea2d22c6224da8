/** The static pass of src/Resolver.cpp as functions on the resolver's state:
    the stack of scopes, the function flag, the line of the last `return`,
    the resolution table the pass fills in (`Interpreter::resolve`, keyed by
    node and holding a scope distance) and the diagnostic log. Each function
    gives the state after one visit or helper, so that the `Resolver` class
    can be proved against it call by call. */
module ResolveSpec {
  import opened Base
  import opened Tokens
  import opened Ast

  /** `VarInfo`: where a local was defined and whether it was read. */
  datatype VarInfo = VarInfo(line: nat, hasBeenRead: bool)

  /** One scope: its entries, and the order in which `endScope` walks them.
      The order of an `unordered_map` is not specified; the model walks the
      names in the order they were first defined. */
  datatype Scope = Scope(vars: map<string, VarInfo>, order: seq<string>)

  const EmptyScope := Scope(map[], [])

  datatype RState = RState(
    scopes: seq<Scope>,
    inFunction: bool,
    rtrnLine: nat,
    locals: map<nat, nat>,
    diags: seq<Diagnostic>)

  function UnusedMessage(name: string): string {
    "Unused local variable '" + name + "'."
  }

  const RedundantCode := "Redundant code after 'return' statement."
  const ReturnOutside := "'return' statements can only be used in a function's body."

  /** The names among `names` that the scope holds and that were not read,
      in the same order. */
  function Unread(sc: Scope, names: seq<string>): (u: seq<string>)
    ensures forall k :: 0 <= k < |u| ==> u[k] in sc.vars && !sc.vars[u[k]].hasBeenRead
  {
    if names == [] then []
    else
      var n := names[|names| - 1];
      Unread(sc, names[..|names| - 1]) + (if n in sc.vars && !sc.vars[n].hasBeenRead then [n] else [])
  }

  /** One "unused" warning per name, at the line that defined it. */
  function UnusedWarnings(sc: Scope, names: seq<string>): (w: seq<Diagnostic>)
    requires forall k :: 0 <= k < |names| ==> names[k] in sc.vars
    ensures |w| == |names|
  {
    if names == [] then []
    else
      var n := names[|names| - 1];
      UnusedWarnings(sc, names[..|names| - 1]) + [Warning(sc.vars[n].line, UnusedMessage(n))]
  }

  /** `beginScope`. */
  function BeginScope(st: RState): RState {
    st.(scopes := st.scopes + [EmptyScope])
  }

  /** `endScope`: warn about the unread names of the innermost scope, then
      pop it. The stack is never empty here; on an empty stack the model
      leaves the state alone. */
  function EndScope(st: RState): RState {
    if st.scopes == [] then st
    else
      var top := st.scopes[|st.scopes| - 1];
      st.(diags := st.diags + UnusedWarnings(top, Unread(top, top.order)),
          scopes := st.scopes[..|st.scopes| - 1])
  }

  /** The entry `define` writes: a fresh, unread local. */
  function DefineIn(sc: Scope, name: Token): Scope {
    Scope(sc.vars[name.lexeme := VarInfo(name.line, false)],
          if name.lexeme in sc.vars then sc.order else sc.order + [name.lexeme])
  }

  /** `define`: nothing at the global level. */
  function Define(st: RState, name: Token): RState {
    if st.scopes == [] then st
    else st.(scopes := st.scopes[|st.scopes| - 1 := DefineIn(st.scopes[|st.scopes| - 1], name)])
  }

  /** Every parameter, in order. */
  function DefineAll(st: RState, params: seq<Token>): RState {
    if params == [] then st else Define(DefineAll(st, params[..|params| - 1]), params[|params| - 1])
  }

  /** The index of the innermost scope that holds `name`. */
  function Innermost(scopes: seq<Scope>, name: string): (r: Option<nat>)
    ensures r.Some? ==> r.value < |scopes| && name in scopes[r.value].vars
  {
    if scopes == [] then None
    else if name in scopes[|scopes| - 1].vars then Some(|scopes| - 1)
    else Innermost(scopes[..|scopes| - 1], name)
  }

  function MarkRead(sc: Scope, name: string): Scope
    requires name in sc.vars
  {
    sc.(vars := sc.vars[name := sc.vars[name].(hasBeenRead := true)])
  }

  /** `resolveLocal`: record the distance to the innermost scope holding the
      name under the node's id, and mark the entry read if asked to. */
  function ResolveLocal(st: RState, id: nat, name: Token, read: bool): RState {
    match Innermost(st.scopes, name.lexeme)
    case None => st
    case Some(i) =>
      st.(locals := st.locals[id := |st.scopes| - 1 - i],
          scopes := if read then st.scopes[i := MarkRead(st.scopes[i], name.lexeme)] else st.scopes)
  }

  /** `isInCurrentScope`. */
  predicate InCurrentScope(scopes: seq<Scope>, name: string) {
    scopes != [] && name in scopes[|scopes| - 1].vars
  }

  /** The `visit` overloads for expressions. */
  function ResolveExpr(st: RState, e: Expr): RState
    decreases e, 1
  {
    match e
    case Binary(l, _, r) => ResolveExpr(ResolveExpr(st, l), r)
    case Unary(_, r) => ResolveExpr(st, r)
    case ParenGroup(i) => ResolveExpr(st, i)
    case Literal(_, _) => st
    case Logical(l, _, r) => ResolveExpr(ResolveExpr(st, l), r)
    case Call(callee, _, args) => ResolveExprs(ResolveExpr(st, callee), args)
    case Lambda(params, body) => ResolveFunc(st, params, body, false)
    case ListExpr(items) => ResolveExprs(st, items)
    case Index(list, index) => ResolveExpr(ResolveExpr(st, index), list)
    case RangeExpr(first, step, end) =>
      var s := ResolveExpr(st, first);
      ResolveExpr(if step.Some? then ResolveExpr(s, step.value) else s, end)
    case Variable(id, name) => ResolveLocal(st, id, name, true)
    case Assign(id, name, op, val) => ResolveAssign(st, id, name, op, val)
  }

  /** `visit(const Assign&)`: a bare `=` to a name the innermost scope does
      not hold defines it there; `:=` only resolves; any other operator
      leaves everything as it is. Whether the name is in the current scope
      is asked before the value is resolved. */
  function ResolveAssign(st: RState, id: nat, name: Token, op: Token, val: Expr): RState
    decreases Assign(id, name, op, val), 0
  {
    if op.tokenType == Equal then
      if InCurrentScope(st.scopes, name.lexeme) then
        ResolveLocal(ResolveExpr(st, val), id, name, false)
      else
        var s := Define(ResolveExpr(st, val), name);
        if s.scopes != [] then ResolveLocal(s, id, name, false) else s
    else if op.tokenType == BtEqual then
      ResolveLocal(ResolveExpr(st, val), id, name, false)
    else st
  }

  /** Each expression in turn. */
  function ResolveExprs(st: RState, es: seq<Expr>): RState
    decreases es, 0
  {
    if es == [] then st else ResolveExpr(ResolveExprs(st, es[..|es| - 1]), es[|es| - 1])
  }

  /** Both `resolveFunc` overloads: the one for `Func` clears the marker of
      a `return` after warning, the one for `Lambda` (`clear` false) does
      not. */
  function ResolveFunc(st: RState, params: seq<Token>, body: seq<Stmt>, clear: bool): RState
    decreases body, 1
  {
    var s := DefineAll(BeginScope(st.(inFunction := true)), params);
    EndScope(ResolveBody(s, body, clear)).(inFunction := st.inFunction, rtrnLine := 0)
  }

  /** The body loop of `resolveFunc`. */
  function ResolveBody(st: RState, body: seq<Stmt>, clear: bool): RState
    decreases body, 0
  {
    if body == [] then st
    else
      var s := ResolveBody(st, body[..|body| - 1], clear);
      ResolveStmt(Redundant(s, clear), body[|body| - 1])
  }

  /** The check before each statement of a function body. */
  function Redundant(st: RState, clear: bool): RState {
    if st.rtrnLine != 0 then
      st.(diags := st.diags + [Warning(st.rtrnLine, RedundantCode)],
          rtrnLine := if clear then 0 else st.rtrnLine)
    else st
  }

  /** The `visit` overloads for statements. A `print` statement has none in
      this revision and changes nothing. */
  function ResolveStmt(st: RState, s: Stmt): RState
    decreases s, 2
  {
    match s
    case Expression(e) => ResolveExpr(st, e)
    case PrintStmt(_) => st
    case Block(ss) => EndScope(ResolveStmts(BeginScope(st), ss))
    case IfStmt(c, t, el) =>
      var s1 := ResolveStmt(ResolveExpr(st, c), t);
      if el.Some? then ResolveStmt(s1, el.value) else s1
    case WhileStmt(c, b) => ResolveStmt(ResolveExpr(st, c), b)
    case ForStmt(init, cond, inc, body) => ResolveFor(st, init, cond, inc, body)
    case Func(name, params, body) => ResolveFunc(Define(st, name), params, body, true)
    case ReturnStmt(kw, val) => ResolveReturn(st, kw, val)
    case Break => st
    case Continue => st
  }

  /** `visit(const For&)`: one scope around the clauses and the body. */
  function ResolveFor(st: RState, init: Option<Expr>, cond: Expr, inc: Option<Expr>, body: Stmt): RState
    decreases ForStmt(init, cond, inc, body), 1
  {
    EndScope(ForInner(BeginScope(st), init, cond, inc, body))
  }

  /** Inside the scope of a `for`: the clauses in order, then the body; a
      block body's statements go straight into that scope. */
  function ForInner(s0: RState, init: Option<Expr>, cond: Expr, inc: Option<Expr>, body: Stmt): RState
    decreases ForStmt(init, cond, inc, body), 0
  {
    var s1 := if init.Some? then ResolveExpr(s0, init.value) else s0;
    var s2 := ResolveExpr(s1, cond);
    var s3 := if inc.Some? then ResolveExpr(s2, inc.value) else s2;
    if body.Block? then ResolveStmts(s3, body.stmts) else ResolveStmt(s3, body)
  }

  /** `visit(const Return&)`. */
  function ResolveReturn(st: RState, kw: Token, val: Option<Expr>): RState
    decreases ReturnStmt(kw, val), 0
  {
    if !st.inFunction then st.(diags := st.diags + [CompileError(kw.line, ReturnOutside)])
    else
      var s := if val.Some? then ResolveExpr(st, val.value) else st;
      s.(rtrnLine := kw.line)
  }

  /** Each statement in turn. */
  function ResolveStmts(st: RState, ss: seq<Stmt>): RState
    decreases ss, 0
  {
    if ss == [] then st else ResolveStmt(ResolveStmts(st, ss[..|ss| - 1]), ss[|ss| - 1])
  }

  // Properties of the pass.

  predicate Distinct(names: seq<string>) {
    forall i, j :: 0 <= i < j < |names| ==> names[i] != names[j]
  }

  /** A scope's walk order lists each of its names exactly once. */
  predicate Enumerated(sc: Scope) {
    && Distinct(sc.order)
    && (forall n :: n in sc.vars ==> n in sc.order)
    && (forall n :: n in sc.order ==> n in sc.vars)
  }

  predicate AllEnumerated(scopes: seq<Scope>) {
    forall k :: 0 <= k < |scopes| ==> Enumerated(scopes[k])
  }

  /** What every visit keeps: the depth of the stack and the function flag
      are as before, the log and the resolution table only grow, and every
      scope still lists each of its names once. */
  predicate Keeps(a: RState, b: RState) {
    && |a.scopes| == |b.scopes|
    && a.inFunction == b.inFunction
    && a.diags <= b.diags
    && a.locals.Keys <= b.locals.Keys
    && (AllEnumerated(a.scopes) ==> AllEnumerated(b.scopes))
  }

  lemma KeepsTrans(a: RState, b: RState, c: RState)
    requires Keeps(a, b) && Keeps(b, c)
    ensures Keeps(a, c)
  {
    assert a.diags <= c.diags by {
      assert c.diags[..|a.diags|] == b.diags[..|b.diags|][..|a.diags|];
    }
  }

  lemma DefineInEnumerated(sc: Scope, name: Token)
    requires Enumerated(sc)
    ensures Enumerated(DefineIn(sc, name))
  {
  }

  /** `define` and `resolveLocal` keep the frame. */
  lemma DefineKeeps(st: RState, name: Token)
    ensures Keeps(st, Define(st, name))
  {
    if st.scopes != [] && AllEnumerated(st.scopes) {
      var n := |st.scopes| - 1;
      DefineInEnumerated(st.scopes[n], name);
      var r := Define(st, name);
      assert forall k :: 0 <= k < |r.scopes| ==> r.scopes[k] == (if k == n then DefineIn(st.scopes[n], name) else st.scopes[k]);
    }
  }

  lemma {:induction false} DefineAllKeeps(st: RState, params: seq<Token>)
    ensures Keeps(st, DefineAll(st, params))
  {
    if params != [] {
      var s := DefineAll(st, params[..|params| - 1]);
      DefineAllKeeps(st, params[..|params| - 1]);
      DefineKeeps(s, params[|params| - 1]);
      KeepsTrans(st, s, DefineAll(st, params));
    }
  }

  lemma LocalKeeps(st: RState, id: nat, name: Token, read: bool)
    ensures Keeps(st, ResolveLocal(st, id, name, read))
  {
    match Innermost(st.scopes, name.lexeme) {
      case None =>
      case Some(i) =>
        var r := ResolveLocal(st, id, name, read);
        if AllEnumerated(st.scopes) {
          assert forall k :: 0 <= k < |r.scopes| ==> r.scopes[k].order == st.scopes[k].order && r.scopes[k].vars.Keys == st.scopes[k].vars.Keys;
        }
    }
  }

  /** A block: one scope more around something that keeps the frame, and
      back to the depth before. */
  lemma ScopedKeeps(st: RState, inner: RState)
    requires Keeps(BeginScope(st), inner)
    ensures Keeps(st, EndScope(inner))
  {
    var b := BeginScope(st);
    if AllEnumerated(st.scopes) {
      assert AllEnumerated(b.scopes) by {
        assert forall k :: 0 <= k < |b.scopes| ==> b.scopes[k] == (if k < |st.scopes| then st.scopes[k] else EmptyScope);
      }
    }
  }

  lemma RedundantKeeps(st: RState, clear: bool)
    ensures Keeps(st, Redundant(st, clear))
  {
  }

  lemma {:induction false} ExprKeeps(st: RState, e: Expr)
    ensures Keeps(st, ResolveExpr(st, e))
    decreases e, 1
  {
    match e {
      case Binary(l, _, r) =>
        ExprKeeps(st, l);
        ExprKeeps(ResolveExpr(st, l), r);
        KeepsTrans(st, ResolveExpr(st, l), ResolveExpr(st, e));
      case Unary(_, r) => ExprKeeps(st, r);
      case ParenGroup(i) => ExprKeeps(st, i);
      case Literal(_, _) =>
      case Logical(l, _, r) =>
        ExprKeeps(st, l);
        ExprKeeps(ResolveExpr(st, l), r);
        KeepsTrans(st, ResolveExpr(st, l), ResolveExpr(st, e));
      case Call(callee, paren, args) => CallKeeps(st, callee, paren, args);
      case Lambda(params, body) => FuncKeeps(st, params, body, false);
      case ListExpr(items) => ExprsKeeps(st, items);
      case Index(list, index) =>
        ExprKeeps(st, index);
        ExprKeeps(ResolveExpr(st, index), list);
        KeepsTrans(st, ResolveExpr(st, index), ResolveExpr(st, e));
      case RangeExpr(first, step, end) => RangeKeeps(st, first, step, end);
      case Variable(id, name) => LocalKeeps(st, id, name, true);
      case Assign(id, name, op, val) => AssignKeeps(st, id, name, op, val);
    }
  }

  lemma {:induction false} CallKeeps(st: RState, callee: Expr, paren: Token, args: seq<Expr>)
    ensures Keeps(st, ResolveExpr(st, Call(callee, paren, args)))
    decreases Call(callee, paren, args), 0
  {
    ExprKeeps(st, callee);
    ExprsKeeps(ResolveExpr(st, callee), args);
    KeepsTrans(st, ResolveExpr(st, callee), ResolveExprs(ResolveExpr(st, callee), args));
  }

  lemma {:induction false} RangeKeeps(st: RState, first: Expr, step: Option<Expr>, end: Expr)
    ensures Keeps(st, ResolveExpr(st, RangeExpr(first, step, end)))
    decreases RangeExpr(first, step, end), 0
  {
    var s := ResolveExpr(st, first);
    ExprKeeps(st, first);
    var t := if step.Some? then ResolveExpr(s, step.value) else s;
    if step.Some? {
      ExprKeeps(s, step.value);
      KeepsTrans(st, s, t);
    }
    ExprKeeps(t, end);
    KeepsTrans(st, t, ResolveExpr(t, end));
  }

  lemma {:induction false} AssignKeeps(st: RState, id: nat, name: Token, op: Token, val: Expr)
    ensures Keeps(st, ResolveAssign(st, id, name, op, val))
    decreases Assign(id, name, op, val), 0
  {
    if op.tokenType == Equal || op.tokenType == BtEqual {
      var v := ResolveExpr(st, val);
      ExprKeeps(st, val);
      if op.tokenType == Equal && !InCurrentScope(st.scopes, name.lexeme) {
        var d := Define(v, name);
        DefineKeeps(v, name);
        KeepsTrans(st, v, d);
        LocalKeeps(d, id, name, false);
        KeepsTrans(st, d, ResolveLocal(d, id, name, false));
      } else {
        LocalKeeps(v, id, name, false);
        KeepsTrans(st, v, ResolveLocal(v, id, name, false));
      }
    }
  }

  lemma {:induction false} ExprsKeeps(st: RState, es: seq<Expr>)
    ensures Keeps(st, ResolveExprs(st, es))
    decreases es, 0
  {
    if es != [] {
      var s := ResolveExprs(st, es[..|es| - 1]);
      ExprsKeeps(st, es[..|es| - 1]);
      ExprKeeps(s, es[|es| - 1]);
      KeepsTrans(st, s, ResolveExprs(st, es));
    }
  }

  /** `resolveFunc` leaves the depth of the stack and the function flag as
      they were. */
  lemma {:induction false} FuncKeeps(st: RState, params: seq<Token>, body: seq<Stmt>, clear: bool)
    ensures Keeps(st, ResolveFunc(st, params, body, clear))
    decreases body, 1
  {
    var f := st.(inFunction := true);
    var b := BeginScope(f);
    var s := DefineAll(b, params);
    DefineAllKeeps(b, params);
    BodyKeeps(s, body, clear);
    KeepsTrans(b, s, ResolveBody(s, body, clear));
    ScopedKeeps(f, ResolveBody(s, body, clear));
  }

  lemma {:induction false} BodyKeeps(st: RState, body: seq<Stmt>, clear: bool)
    ensures Keeps(st, ResolveBody(st, body, clear))
    decreases body, 0
  {
    if body != [] {
      var s := ResolveBody(st, body[..|body| - 1], clear);
      BodyKeeps(st, body[..|body| - 1], clear);
      RedundantKeeps(s, clear);
      KeepsTrans(st, s, Redundant(s, clear));
      StmtKeeps(Redundant(s, clear), body[|body| - 1]);
      KeepsTrans(st, Redundant(s, clear), ResolveBody(st, body, clear));
    }
  }

  lemma {:induction false} StmtKeeps(st: RState, s: Stmt)
    ensures Keeps(st, ResolveStmt(st, s))
    decreases s, 2
  {
    match s {
      case Expression(e) => ExprKeeps(st, e);
      case PrintStmt(_) =>
      case Block(ss) =>
        StmtsKeeps(BeginScope(st), ss);
        ScopedKeeps(st, ResolveStmts(BeginScope(st), ss));
      case IfStmt(c, t, el) =>
        ExprKeeps(st, c);
        StmtKeeps(ResolveExpr(st, c), t);
        var s1 := ResolveStmt(ResolveExpr(st, c), t);
        KeepsTrans(st, ResolveExpr(st, c), s1);
        if el.Some? {
          StmtKeeps(s1, el.value);
          KeepsTrans(st, s1, ResolveStmt(s1, el.value));
        }
      case WhileStmt(c, b) =>
        ExprKeeps(st, c);
        StmtKeeps(ResolveExpr(st, c), b);
        KeepsTrans(st, ResolveExpr(st, c), ResolveStmt(st, s));
      case ForStmt(init, cond, inc, body) => ForKeeps(st, init, cond, inc, body);
      case Func(name, params, body) =>
        DefineKeeps(st, name);
        FuncKeeps(Define(st, name), params, body, true);
        KeepsTrans(st, Define(st, name), ResolveStmt(st, s));
      case ReturnStmt(kw, val) =>
        if st.inFunction && val.Some? {
          ExprKeeps(st, val.value);
        }
      case Break =>
      case Continue =>
    }
  }

  lemma {:induction false} ForKeeps(st: RState, init: Option<Expr>, cond: Expr, inc: Option<Expr>, body: Stmt)
    ensures Keeps(st, ResolveFor(st, init, cond, inc, body))
    decreases ForStmt(init, cond, inc, body), 1
  {
    ForInnerKeeps(BeginScope(st), init, cond, inc, body);
    ScopedKeeps(st, ForInner(BeginScope(st), init, cond, inc, body));
  }

  lemma {:induction false} ForInnerKeeps(s0: RState, init: Option<Expr>, cond: Expr, inc: Option<Expr>, body: Stmt)
    ensures Keeps(s0, ForInner(s0, init, cond, inc, body))
    decreases ForStmt(init, cond, inc, body), 0
  {
    var s1 := if init.Some? then ResolveExpr(s0, init.value) else s0;
    if init.Some? {
      ExprKeeps(s0, init.value);
    }
    var s2 := ResolveExpr(s1, cond);
    ExprKeeps(s1, cond);
    KeepsTrans(s0, s1, s2);
    var s3 := if inc.Some? then ResolveExpr(s2, inc.value) else s2;
    if inc.Some? {
      ExprKeeps(s2, inc.value);
    }
    KeepsTrans(s0, s2, s3);
    if body.Block? {
      StmtsKeeps(s3, body.stmts);
    } else {
      StmtKeeps(s3, body);
    }
    KeepsTrans(s0, s3, ForInner(s0, init, cond, inc, body));
  }

  lemma {:induction false} StmtsKeeps(st: RState, ss: seq<Stmt>)
    ensures Keeps(st, ResolveStmts(st, ss))
    decreases ss, 0
  {
    if ss != [] {
      var s := ResolveStmts(st, ss[..|ss| - 1]);
      StmtsKeeps(st, ss[..|ss| - 1]);
      StmtKeeps(s, ss[|ss| - 1]);
      KeepsTrans(st, s, ResolveStmts(st, ss));
    }
  }

  /** `resolveLocal` finds the innermost scope holding the name, and finds
      nothing exactly when no scope holds it. */
  lemma {:induction false} InnermostFinds(scopes: seq<Scope>, name: string)
    ensures Innermost(scopes, name).None? <==> forall k :: 0 <= k < |scopes| ==> name !in scopes[k].vars
    ensures Innermost(scopes, name).Some? ==>
      forall k :: Innermost(scopes, name).value < k < |scopes| ==> name !in scopes[k].vars
  {
    if scopes != [] && name !in scopes[|scopes| - 1].vars {
      var rest := scopes[..|scopes| - 1];
      InnermostFinds(rest, name);
      assert forall k :: 0 <= k < |rest| ==> rest[k] == scopes[k];
    }
  }

  /** `resolveLocal` with a hit records `size - 1 - i` under the node and
      changes no entry unless asked to mark it read; without a hit it
      changes nothing at all. */
  lemma LocalRecords(st: RState, id: nat, name: Token, read: bool)
    ensures Innermost(st.scopes, name.lexeme).None? ==> ResolveLocal(st, id, name, read) == st
    ensures Innermost(st.scopes, name.lexeme).Some? ==>
      var i := Innermost(st.scopes, name.lexeme).value;
      var r := ResolveLocal(st, id, name, read);
      && r.locals == st.locals[id := |st.scopes| - 1 - i]
      && (read ==> r.scopes[i].vars[name.lexeme] == st.scopes[i].vars[name.lexeme].(hasBeenRead := true))
      && (forall k :: 0 <= k < |st.scopes| && k != i ==> r.scopes[k] == st.scopes[k])
      && (forall n :: n in st.scopes[i].vars && n != name.lexeme ==> r.scopes[i].vars[n] == st.scopes[i].vars[n])
      && r.scopes[i].order == st.scopes[i].order
      && r.diags == st.diags && r.inFunction == st.inFunction && r.rtrnLine == st.rtrnLine
  {
  }

  /** Resolving without reading marks nothing. */
  lemma LocalWithoutRead(st: RState, id: nat, name: Token)
    ensures ResolveLocal(st, id, name, false).scopes == st.scopes
  {
  }

  /** `define` at the global level does nothing; otherwise it writes an
      unread entry for the name into the innermost scope and changes no
      other entry. */
  lemma DefineWrites(st: RState, name: Token)
    ensures st.scopes == [] ==> Define(st, name) == st
    ensures st.scopes != [] ==>
      var r := Define(st, name);
      var n := |st.scopes| - 1;
      && |r.scopes| == |st.scopes|
      && r.scopes[n].vars[name.lexeme] == VarInfo(name.line, false)
      && (forall k :: 0 <= k < n ==> r.scopes[k] == st.scopes[k])
      && (forall v :: v in st.scopes[n].vars && v != name.lexeme ==> v in r.scopes[n].vars && r.scopes[n].vars[v] == st.scopes[n].vars[v])
      && r.scopes[n].vars.Keys == st.scopes[n].vars.Keys + {name.lexeme}
      && r.locals == st.locals && r.diags == st.diags
  {
  }

  /** The names `endScope` warns about: exactly those of `names` that the
      scope holds unread, each as often as in `names`. */
  lemma {:induction false} UnreadNames(sc: Scope, names: seq<string>)
    ensures forall n :: n in Unread(sc, names) <==> n in names && n in sc.vars && !sc.vars[n].hasBeenRead
    ensures Distinct(names) ==> Distinct(Unread(sc, names))
  {
    if names != [] {
      var front := names[..|names| - 1];
      UnreadNames(sc, front);
      assert names == front + [names[|names| - 1]];
      if Distinct(names) {
        assert Distinct(front);
      }
    }
  }

  /** `endScope` pops exactly one scope and warns once for each of its
      names that was never read, at the line that defined it. */
  lemma EndScopeWarns(st: RState)
    requires st.scopes != [] && Enumerated(st.scopes[|st.scopes| - 1])
    ensures var top := st.scopes[|st.scopes| - 1];
      var r := EndScope(st);
      var u := Unread(top, top.order);
      && r.scopes == st.scopes[..|st.scopes| - 1]
      && (forall n :: n in u <==> n in top.vars && !top.vars[n].hasBeenRead)
      && Distinct(u)
      && |r.diags| == |st.diags| + |u|
      && r.diags[..|st.diags|] == st.diags
      && forall k :: 0 <= k < |u| ==> r.diags[|st.diags| + k] == Warning(top.vars[u[k]].line, UnusedMessage(u[k]))
  {
    var top := st.scopes[|st.scopes| - 1];
    UnreadNames(top, top.order);
    WarningsAt(top, Unread(top, top.order));
  }

  lemma {:induction false} WarningsAt(sc: Scope, names: seq<string>)
    requires forall k :: 0 <= k < |names| ==> names[k] in sc.vars
    ensures forall k :: 0 <= k < |names| ==> UnusedWarnings(sc, names)[k] == Warning(sc.vars[names[k]].line, UnusedMessage(names[k]))
  {
    if names != [] {
      WarningsAt(sc, names[..|names| - 1]);
    }
  }

  /** A bare `=` to a name the innermost scope lacks defines it there, as an
      unread local at the assignment's line, and records distance 0; at the
      global level it only resolves the value. */
  lemma BareAssignDefines(st: RState, id: nat, name: Token, op: Token, val: Expr)
    requires op.tokenType == Equal && !InCurrentScope(st.scopes, name.lexeme)
    ensures st.scopes == [] ==> ResolveExpr(st, Assign(id, name, op, val)) == ResolveExpr(st, val)
    ensures st.scopes != [] ==>
      var r := ResolveExpr(st, Assign(id, name, op, val));
      && InCurrentScope(r.scopes, name.lexeme)
      && r.scopes[|r.scopes| - 1].vars[name.lexeme] == VarInfo(name.line, false)
      && id in r.locals && r.locals[id] == 0
  {
    var v := ResolveExpr(st, val);
    ExprKeeps(st, val);
    if st.scopes != [] {
      var d := Define(v, name);
      DefineWrites(v, name);
      assert Innermost(d.scopes, name.lexeme) == Some(|d.scopes| - 1);
    }
  }

  /** A bare `=` to a name the innermost scope already holds, and every
      `:=`, resolves the name without defining or marking anything. */
  lemma AssignOnlyResolves(st: RState, id: nat, name: Token, op: Token, val: Expr)
    requires (op.tokenType == Equal && InCurrentScope(st.scopes, name.lexeme)) || op.tokenType == BtEqual
    ensures ResolveExpr(st, Assign(id, name, op, val)).scopes == ResolveExpr(st, val).scopes
  {
  }

  /** A `return` outside a function reports an error and resolves nothing;
      inside one it resolves its value and marks its line. */
  lemma ReturnChecked(st: RState, kw: Token, val: Option<Expr>)
    ensures !st.inFunction ==>
      ResolveStmt(st, ReturnStmt(kw, val)) == st.(diags := st.diags + [CompileError(kw.line, ReturnOutside)])
    ensures st.inFunction ==>
      var r := ResolveStmt(st, ReturnStmt(kw, val));
      && r.rtrnLine == kw.line
      && r == (if val.Some? then ResolveExpr(st, val.value) else st).(rtrnLine := kw.line)
  {
  }

  // The marker of a `return`.

  /** A "Redundant code" warning, at any line. */
  predicate IsRedundant(d: Diagnostic) {
    d.Warning? && d.message == RedundantCode
  }

  /** How many "Redundant code" warnings a log holds. */
  function RedundantCount(ds: seq<Diagnostic>): (n: nat)
    ensures n <= |ds|
  {
    if ds == [] then 0
    else RedundantCount(ds[..|ds| - 1]) + (if IsRedundant(ds[|ds| - 1]) then 1 else 0)
  }

  lemma {:induction false} RedundantCountAppend(a: seq<Diagnostic>, b: seq<Diagnostic>)
    ensures RedundantCount(a + b) == RedundantCount(a) + RedundantCount(b)
    decreases |b|
  {
    if b == [] {
      assert a + b == a;
    } else {
      assert (a + b)[..|a + b| - 1] == a + b[..|b| - 1];
      RedundantCountAppend(a, b[..|b| - 1]);
    }
  }

  /** The warnings of `endScope` are about unused names, never about
      redundant code. */
  lemma {:induction false} UnusedNotRedundant(sc: Scope, names: seq<string>)
    requires forall k :: 0 <= k < |names| ==> names[k] in sc.vars
    ensures RedundantCount(UnusedWarnings(sc, names)) == 0
  {
    if names != [] {
      var n := names[|names| - 1];
      var w := Warning(sc.vars[n].line, UnusedMessage(n));
      UnusedNotRedundant(sc, names[..|names| - 1]);
      RedundantCountAppend(UnusedWarnings(sc, names[..|names| - 1]), [w]);
      assert UnusedMessage(n)[0] != RedundantCode[0];
      assert [w][..0] == [];
    }
  }

  /** No `return`, no function declaration and no lambda anywhere inside:
      nothing that sets or clears the marker, or that resolves a body of
      its own. */
  predicate MarkerFreeExpr(e: Expr)
    decreases e
  {
    match e
    case Binary(l, _, r) => MarkerFreeExpr(l) && MarkerFreeExpr(r)
    case Unary(_, r) => MarkerFreeExpr(r)
    case ParenGroup(i) => MarkerFreeExpr(i)
    case Literal(_, _) => true
    case Logical(l, _, r) => MarkerFreeExpr(l) && MarkerFreeExpr(r)
    case Call(callee, _, args) => MarkerFreeExpr(callee) && forall k :: 0 <= k < |args| ==> MarkerFreeExpr(args[k])
    case Lambda(_, _) => false
    case ListExpr(items) => forall k :: 0 <= k < |items| ==> MarkerFreeExpr(items[k])
    case Index(list, index) => MarkerFreeExpr(list) && MarkerFreeExpr(index)
    case RangeExpr(first, step, end) =>
      MarkerFreeExpr(first) && (step.Some? ==> MarkerFreeExpr(step.value)) && MarkerFreeExpr(end)
    case Variable(_, _) => true
    case Assign(_, _, _, val) => MarkerFreeExpr(val)
  }

  predicate MarkerFree(s: Stmt)
    decreases s
  {
    match s
    case Expression(e) => MarkerFreeExpr(e)
    case PrintStmt(_) => true
    case Block(ss) => forall k :: 0 <= k < |ss| ==> MarkerFree(ss[k])
    case IfStmt(c, t, el) => MarkerFreeExpr(c) && MarkerFree(t) && (el.Some? ==> MarkerFree(el.value))
    case WhileStmt(c, b) => MarkerFreeExpr(c) && MarkerFree(b)
    case ForStmt(init, cond, inc, body) =>
      && (init.Some? ==> MarkerFreeExpr(init.value))
      && MarkerFreeExpr(cond)
      && (inc.Some? ==> MarkerFreeExpr(inc.value))
      && MarkerFree(body)
    case Func(_, _, _) => false
    case ReturnStmt(_, _) => false
    case Break => true
    case Continue => true
  }

  /** `b` has `a`'s marker and no more "Redundant code" warnings. */
  predicate Quiet(a: RState, b: RState) {
    b.rtrnLine == a.rtrnLine && RedundantCount(b.diags) == RedundantCount(a.diags)
  }

  lemma EndScopeQuiet(st: RState)
    ensures Quiet(st, EndScope(st))
  {
    if st.scopes != [] {
      var top := st.scopes[|st.scopes| - 1];
      UnusedNotRedundant(top, Unread(top, top.order));
      RedundantCountAppend(st.diags, UnusedWarnings(top, Unread(top, top.order)));
    }
  }

  lemma {:induction false} DefineAllQuiet(st: RState, params: seq<Token>)
    ensures var r := DefineAll(st, params);
      r.diags == st.diags && r.rtrnLine == st.rtrnLine && r.inFunction == st.inFunction
  {
    if params != [] {
      DefineAllQuiet(st, params[..|params| - 1]);
    }
  }

  /** Marker-free code leaves the marker alone and warns of no redundant
      code. */
  lemma {:induction false} MarkerExpr(st: RState, e: Expr)
    requires MarkerFreeExpr(e)
    ensures Quiet(st, ResolveExpr(st, e))
    decreases e, 1
  {
    match e {
      case Binary(l, _, r) =>
        MarkerExpr(st, l);
        MarkerExpr(ResolveExpr(st, l), r);
      case Unary(_, r) => MarkerExpr(st, r);
      case ParenGroup(i) => MarkerExpr(st, i);
      case Literal(_, _) =>
      case Logical(l, _, r) =>
        MarkerExpr(st, l);
        MarkerExpr(ResolveExpr(st, l), r);
      case Call(callee, _, args) =>
        MarkerExpr(st, callee);
        MarkerExprs(ResolveExpr(st, callee), args);
      case Lambda(_, _) => assert false;
      case ListExpr(items) => MarkerExprs(st, items);
      case Index(list, index) =>
        MarkerExpr(st, index);
        MarkerExpr(ResolveExpr(st, index), list);
      case RangeExpr(first, step, end) =>
        var s1 := ResolveExpr(st, first);
        MarkerExpr(st, first);
        var s2 := if step.Some? then ResolveExpr(s1, step.value) else s1;
        if step.Some? {
          MarkerExpr(s1, step.value);
        }
        MarkerExpr(s2, end);
      case Variable(_, _) =>
      case Assign(_, _, _, val) => MarkerExpr(st, val);
    }
  }

  lemma {:induction false} MarkerExprs(st: RState, es: seq<Expr>)
    requires forall k :: 0 <= k < |es| ==> MarkerFreeExpr(es[k])
    ensures Quiet(st, ResolveExprs(st, es))
    decreases es, 0
  {
    if es != [] {
      MarkerExprs(st, es[..|es| - 1]);
      MarkerExpr(ResolveExprs(st, es[..|es| - 1]), es[|es| - 1]);
    }
  }

  lemma {:induction false} MarkerStmt(st: RState, s: Stmt)
    requires MarkerFree(s)
    ensures Quiet(st, ResolveStmt(st, s))
    decreases s, 2
  {
    match s {
      case Expression(e) => MarkerExpr(st, e);
      case PrintStmt(_) =>
      case Block(ss) =>
        MarkerStmts(BeginScope(st), ss);
        EndScopeQuiet(ResolveStmts(BeginScope(st), ss));
      case IfStmt(c, t, el) =>
        MarkerExpr(st, c);
        MarkerStmt(ResolveExpr(st, c), t);
        if el.Some? {
          MarkerStmt(ResolveStmt(ResolveExpr(st, c), t), el.value);
        }
      case WhileStmt(c, b) =>
        MarkerExpr(st, c);
        MarkerStmt(ResolveExpr(st, c), b);
      case ForStmt(init, cond, inc, body) => MarkerFor(st, init, cond, inc, body);
      case Func(_, _, _) => assert false;
      case ReturnStmt(_, _) => assert false;
      case Break =>
      case Continue =>
    }
  }

  lemma {:induction false} MarkerFor(st: RState, init: Option<Expr>, cond: Expr, inc: Option<Expr>, body: Stmt)
    requires MarkerFree(ForStmt(init, cond, inc, body))
    ensures Quiet(st, ResolveFor(st, init, cond, inc, body))
    decreases ForStmt(init, cond, inc, body), 1
  {
    var s0 := BeginScope(st);
    var s1 := if init.Some? then ResolveExpr(s0, init.value) else s0;
    if init.Some? {
      MarkerExpr(s0, init.value);
    }
    var s2 := ResolveExpr(s1, cond);
    MarkerExpr(s1, cond);
    var s3 := if inc.Some? then ResolveExpr(s2, inc.value) else s2;
    if inc.Some? {
      MarkerExpr(s2, inc.value);
    }
    if body.Block? {
      MarkerStmts(s3, body.stmts);
    } else {
      MarkerStmt(s3, body);
    }
    EndScopeQuiet(ForInner(s0, init, cond, inc, body));
  }

  lemma {:induction false} MarkerStmts(st: RState, ss: seq<Stmt>)
    requires forall k :: 0 <= k < |ss| ==> MarkerFree(ss[k])
    ensures Quiet(st, ResolveStmts(st, ss))
    decreases ss, 0
  {
    if ss != [] {
      MarkerStmts(st, ss[..|ss| - 1]);
      MarkerStmt(ResolveStmts(st, ss[..|ss| - 1]), ss[|ss| - 1]);
    }
  }

  /** The body loop after a `return` (on a line other than 0) followed by
      `rest`, in which nothing returns or opens a function. With `clear`
      (a `Func`) the first statement of `rest` draws one "Redundant code"
      warning and clears the marker; without it (a `Lambda`) the marker
      stays and every statement of `rest` draws one. A marker set on entry
      draws one warning more, before the `return`. */
  lemma {:induction false} BodyAfterReturn(b: RState, kw: Token, v: Option<Expr>, rest: seq<Stmt>, clear: bool)
    requires kw.line > 0 && b.inFunction
    requires v.Some? ==> MarkerFreeExpr(v.value)
    requires forall k :: 0 <= k < |rest| ==> MarkerFree(rest[k])
    ensures var r := ResolveBody(b, [ReturnStmt(kw, v)] + rest, clear);
      && r.rtrnLine == (if clear && rest != [] then 0 else kw.line)
      && RedundantCount(r.diags)
        == RedundantCount(b.diags) + (if b.rtrnLine != 0 then 1 else 0)
           + (if clear then (if rest == [] then 0 else 1) else |rest|)
    decreases |rest|
  {
    var ret := ReturnStmt(kw, v);
    if rest == [] {
      assert [ret] + rest == [] + [ret];
      BodySnoc(b, [], ret, clear);
      var q := Redundant(b, clear);
      if b.rtrnLine != 0 {
        RedundantCountWarn(b.diags, b.rtrnLine);
      }
      if v.Some? {
        MarkerExpr(q, v.value);
      }
    } else {
      var init := rest[..|rest| - 1];
      var last := rest[|rest| - 1];
      BodyAfterReturn(b, kw, v, init, clear);
      assert [ret] + rest == ([ret] + init) + [last];
      BodySnoc(b, [ret] + init, last, clear);
      var p := ResolveBody(b, [ret] + init, clear);
      if p.rtrnLine != 0 {
        RedundantCountWarn(p.diags, p.rtrnLine);
      }
      MarkerStmt(Redundant(p, clear), last);
    }
  }

  lemma RedundantCountWarn(ds: seq<Diagnostic>, line: nat)
    ensures RedundantCount(ds + [Warning(line, RedundantCode)]) == RedundantCount(ds) + 1
  {
    assert (ds + [Warning(line, RedundantCode)])[..|ds|] == ds;
  }

  /** So a `Func` whose body is a `return` and then `rest` draws one
      "Redundant code" warning for all of `rest`, and a `Lambda` one for
      each statement of `rest` (plus one for a marker already set when the
      body is entered). */
  lemma RedundantAfterReturn(st: RState, name: Token, params: seq<Token>, kw: Token, v: Option<Expr>, rest: seq<Stmt>)
    requires kw.line > 0
    requires v.Some? ==> MarkerFreeExpr(v.value)
    requires forall k :: 0 <= k < |rest| ==> MarkerFree(rest[k])
    ensures RedundantCount(ResolveStmt(st, Func(name, params, [ReturnStmt(kw, v)] + rest)).diags)
      == RedundantCount(st.diags) + (if st.rtrnLine != 0 then 1 else 0) + (if rest == [] then 0 else 1)
    ensures RedundantCount(ResolveExpr(st, Lambda(params, [ReturnStmt(kw, v)] + rest)).diags)
      == RedundantCount(st.diags) + (if st.rtrnLine != 0 then 1 else 0) + |rest|
  {
    DeclAfterReturn(st, name, params, kw, v, rest);
    LambdaAfterReturn(st, params, kw, v, rest);
  }

  lemma DeclAfterReturn(st: RState, name: Token, params: seq<Token>, kw: Token, v: Option<Expr>, rest: seq<Stmt>)
    requires kw.line > 0
    requires v.Some? ==> MarkerFreeExpr(v.value)
    requires forall k :: 0 <= k < |rest| ==> MarkerFree(rest[k])
    ensures RedundantCount(ResolveStmt(st, Func(name, params, [ReturnStmt(kw, v)] + rest)).diags)
      == RedundantCount(st.diags) + (if st.rtrnLine != 0 then 1 else 0) + (if rest == [] then 0 else 1)
  {
    var body := [ReturnStmt(kw, v)] + rest;
    assert ResolveStmt(st, Func(name, params, body)) == ResolveFunc(Define(st, name), params, body, true);
    FuncAfterReturn(Define(st, name), params, kw, v, rest, true);
  }

  lemma LambdaAfterReturn(st: RState, params: seq<Token>, kw: Token, v: Option<Expr>, rest: seq<Stmt>)
    requires kw.line > 0
    requires v.Some? ==> MarkerFreeExpr(v.value)
    requires forall k :: 0 <= k < |rest| ==> MarkerFree(rest[k])
    ensures RedundantCount(ResolveExpr(st, Lambda(params, [ReturnStmt(kw, v)] + rest)).diags)
      == RedundantCount(st.diags) + (if st.rtrnLine != 0 then 1 else 0) + |rest|
  {
    var body := [ReturnStmt(kw, v)] + rest;
    assert ResolveExpr(st, Lambda(params, body)) == ResolveFunc(st, params, body, false);
    FuncAfterReturn(st, params, kw, v, rest, false);
  }

  lemma FuncAfterReturn(st: RState, params: seq<Token>, kw: Token, v: Option<Expr>, rest: seq<Stmt>, clear: bool)
    requires kw.line > 0
    requires v.Some? ==> MarkerFreeExpr(v.value)
    requires forall k :: 0 <= k < |rest| ==> MarkerFree(rest[k])
    ensures RedundantCount(ResolveFunc(st, params, [ReturnStmt(kw, v)] + rest, clear).diags)
      == RedundantCount(st.diags) + (if st.rtrnLine != 0 then 1 else 0)
         + (if clear then (if rest == [] then 0 else 1) else |rest|)
  {
    var body := [ReturnStmt(kw, v)] + rest;
    var f := BeginScope(st.(inFunction := true));
    DefineAllQuiet(f, params);
    var b := DefineAll(f, params);
    BodyAfterReturn(b, kw, v, rest, clear);
    EndScopeQuiet(ResolveBody(b, body, clear));
  }

  lemma BodySnoc(st: RState, body: seq<Stmt>, s: Stmt, clear: bool)
    ensures ResolveBody(st, body + [s], clear) == ResolveStmt(Redundant(ResolveBody(st, body, clear), clear), s)
  {
    assert (body + [s])[..|body|] == body;
  }

  lemma {:induction false} StmtsAppend(st: RState, a: seq<Stmt>, b: seq<Stmt>)
    ensures ResolveStmts(st, a + b) == ResolveStmts(ResolveStmts(st, a), b)
    decreases |b|
  {
    if b == [] {
      assert a + b == a;
    } else {
      assert (a + b)[..|a + b| - 1] == a + b[..|b| - 1];
      StmtsAppend(st, a, b[..|b| - 1]);
    }
  }

  /** An optional clause of a `for`, as a statement of its own. */
  function OptClause(o: Option<Expr>): seq<Stmt> {
    if o.Some? then [Expression(o.value)] else []
  }

  lemma ClauseStep(st: RState, a: seq<Stmt>, o: Option<Expr>)
    ensures ResolveStmts(st, a + OptClause(o))
      == if o.Some? then ResolveExpr(ResolveStmts(st, a), o.value) else ResolveStmts(st, a)
  {
    if o.Some? {
      assert (a + OptClause(o))[..|a|] == a;
    } else {
      assert a + OptClause(o) == a;
    }
  }

  /** The clauses of a `for`, each as a statement of its own. */
  function Clauses(init: Option<Expr>, cond: Expr, inc: Option<Expr>): seq<Stmt> {
    OptClause(init) + [Expression(cond)] + OptClause(inc)
  }

  /** A `for` with a block body opens one scope only: it resolves like a
      single block holding its clauses and then the body's statements. */
  lemma ForIsOneBlock(st: RState, init: Option<Expr>, cond: Expr, inc: Option<Expr>, ss: seq<Stmt>)
    ensures ResolveStmt(st, ForStmt(init, cond, inc, Block(ss)))
      == ResolveStmt(st, Block(Clauses(init, cond, inc) + ss))
  {
    var s0 := BeginScope(st);
    StmtsAppend(s0, Clauses(init, cond, inc), ss);
    ClausesResolve(s0, init, cond, inc);
    assert ForInner(s0, init, cond, inc, Block(ss))
      == ResolveStmts(s0, Clauses(init, cond, inc) + ss);
  }

  /** The clauses as statements resolve as the `for` resolves them. */
  lemma ClausesResolve(s0: RState, init: Option<Expr>, cond: Expr, inc: Option<Expr>)
    ensures var s1 := if init.Some? then ResolveExpr(s0, init.value) else s0;
      var s2 := ResolveExpr(s1, cond);
      ResolveStmts(s0, Clauses(init, cond, inc)) == if inc.Some? then ResolveExpr(s2, inc.value) else s2
  {
    var i := OptClause(init);
    ClauseStep(s0, [], init);
    assert [] + i == i;
    assert ResolveStmts(s0, i + [Expression(cond)]) == ResolveExpr(ResolveStmts(s0, i), cond) by {
      assert (i + [Expression(cond)])[..|i|] == i;
    }
    ClauseStep(s0, i + [Expression(cond)], inc);
  }
}
