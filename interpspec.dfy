/** The evaluation rules of src/Interpreter.cpp and src/ProtoFunc.cpp as
    functions on the interpreter's state. The environment chain is the
    value view of `Frames`: the scope maps of the blocks and of the call
    being run (`locals`, innermost first) and the global scope last. A
    `RuntimeError` is the outcome `Raise`; `Stuck` stands for what this
    revision cannot run (a node without a `visit`, `powl`) and for running
    out of `fuel`, the bound on loop iterations and call depth. */
module InterpSpec {
  import opened Base
  import opened Tokens
  import opened Ast
  import opened Values
  import opened Frames

  /** `numeric_limits<long double>::epsilon()` of the x87 extended format: 2^-63. */
  const Epsilon: real := 1.0 / 9223372036854775808.0

  function Abs(x: real): real {
    if x < 0.0 then -x else x
  }

  /** `isEqual(long double, long double)`. */
  predicate NumEqual(a: real, b: real) {
    Abs(a - b) < Epsilon
  }

  /** `isTrue`. */
  predicate IsTrue(v: Value) {
    match v
    case VNix => false
    case VBool(b) => b
    case VNum(n) => !NumEqual(n, 0.0)
    case _ => true
  }

  /** `isEqual(const Value&, const Value&)`. */
  predicate IsEqual(a: Value, b: Value) {
    if a.VNum? && b.VNum? then NumEqual(a.n, b.n) else a == b
  }

  const BothNumbersOrStrings := "Both of the operands must be numbers or strings."
  const OperandsNumbers := "Operands must be numbers."
  const DivideByZero := "Cannot divide by 0!"
  const OperandNumber := "Operand must be a number."
  const NotCallable := "Provided object is not callable."

  /** `std::to_string` of a count. */
  function NatString(n: nat): (s: string)
    ensures s != [] && AllDigits(s)
  {
    var d := ['0' + (n % 10) as char];
    if n < 10 then d else NatString(n / 10) + d
  }

  function ArityMessage(arity: nat, got: nat): string {
    "Expected" + NatString(arity) + "arguments but got " + NatString(got) + " arguments."
  }

  /** The outcome of a step: a result, a `RuntimeError` on its way to the
      nearest handler, or a stop outside the model. */
  datatype Res<T> = Val(v: T) | Raise(err: RuntimeError) | Stuck(why: string)

  const NoVisit := "no visit overload for this node"
  const PowerLeftOut := "powl"
  const OutOfFuel := "fuel exhausted"

  /** The same outcome with `u` as its result. */
  function Recast<T, U>(r: Res<T>, u: U): (q: Res<U>)
    ensures q.Raise? <==> r.Raise?
    ensures q.Stuck? <==> r.Stuck?
  {
    match r
    case Val(_) => Val(u)
    case Raise(e) => Raise(e)
    case Stuck(w) => Stuck(w)
  }

  /** A normal finish of a statement carries no result. */
  lemma UnitVal(r: Res<()>)
    requires r.Val?
    ensures r == Val(())
  {
    match r {
      case Val(u) => assert u == ();
    }
  }

  /** The interpreter's state: the scopes, the diagnostic stream, the lines
      `read` has still to deliver and the values `print` has written. */
  datatype IState = IState(
    locals: seq<Frame>,
    global: Frame,
    diags: seq<Diagnostic>,
    input: seq<string>,
    output: seq<Value>)

  /** `Interpreter()`: a global scope holding `read` and `print`. */
  function Initial(input: seq<string>): IState {
    IState([], map["read" := VFn(ReadFn), "print" := VFn(PrintFn)], [], input, [])
  }

  /** The chain `m_env` leads along. */
  function Chain(st: IState): (ch: seq<Frame>)
    ensures |ch| == |st.locals| + 1
  {
    st.locals + [st.global]
  }

  /** The state whose chain is `ch`. */
  function WithChain(st: IState, ch: seq<Frame>): (s: IState)
    requires |ch| == |st.locals| + 1
    ensures Chain(s) == ch
  {
    st.(locals := ch[..|ch| - 1], global := ch[|ch| - 1])
  }

  function Report(st: IState, err: RuntimeError): IState {
    st.(diags := st.diags + [RuntimeFault(err.token.line, err.message)])
  }

  /** The `Binary` visit once both operands are known. */
  function BinaryOp(op: Token, l: Value, r: Value): Res<Value> {
    var nums := l.VNum? && r.VNum?;
    var strs := l.VStr? && r.VStr?;
    var mistyped := Raise(RuntimeError(op, OperandsNumbers));
    match op.tokenType
    case Plus =>
      if nums then Val(VNum(l.n + r.n))
      else if strs then Val(VStr(l.s + r.s))
      else Raise(RuntimeError(op, BothNumbersOrStrings))
    case Minus => if !nums then mistyped else Val(VNum(l.n - r.n))
    case Product => if !nums then mistyped else Val(VNum(l.n * r.n))
    case Division =>
      if !nums then mistyped
      else if NumEqual(r.n, 0.0) then Raise(RuntimeError(op, DivideByZero))
      else Val(VNum(l.n / r.n))
    case Exponentiation => if !nums then mistyped else Stuck(PowerLeftOut)
    case GtEqual => if !nums then mistyped else Val(VBool(NumEqual(l.n, r.n) || l.n > r.n))
    case LtEqual => if !nums then mistyped else Val(VBool(NumEqual(l.n, r.n) || l.n < r.n))
    case Less => if !nums then mistyped else Val(VBool(!NumEqual(l.n, r.n) && l.n < r.n))
    case Greater => if !nums then mistyped else Val(VBool(!NumEqual(l.n, r.n) && l.n > r.n))
    case NotEqual => Val(VBool(!IsEqual(l, r)))
    case EqEqual => Val(VBool(IsEqual(l, r)))
    case _ => Val(VNix)
  }

  /** The `Unary` visit once the operand is known; an operator it does not
      handle leaves the operand's value. */
  function UnaryOp(op: Token, v: Value): Res<Value> {
    match op.tokenType
    case Minus => if v.VNum? then Val(VNum(-v.n)) else Raise(RuntimeError(op, OperandNumber))
    case Not => Val(VBool(!IsTrue(v)))
    case _ => Val(v)
  }

  /** The environment `ProtoFunction::call` fills: `assign(params[i],
      args[i])` in turn, so a later parameter of the same name wins. */
  function Bind(params: seq<Token>, args: seq<Value>): (f: Frame)
    requires |args| <= |params|
    ensures forall i :: 0 <= i < |args| ==> params[i].lexeme in f
    decreases |args|
  {
    if args == [] then map[]
    else Bind(params, args[..|args| - 1])[params[|args| - 1].lexeme := args[|args| - 1]]
  }

  /** The size of the body a call runs. */
  function FnBody(f: Callable): seq<Stmt> {
    if f.UserFn? then f.body else []
  }

  /** The `visit` overloads for expressions; `m_val` is the result. */
  function Eval(st: IState, e: Expr, fuel: nat): (res: (Res<Value>, IState))
    decreases fuel, e, 2
  {
    match e
    case Binary(l, op, r) => EvalBinary(st, l, op, r, fuel)
    case Unary(op, r) => EvalUnary(st, op, r, fuel)
    case ParenGroup(i) => Eval(st, i, fuel)
    case Literal(_, lit) => (Val(ValueOf(lit)), st)
    case Variable(_, name) => (EvalVariable(st, name), st)
    case Logical(l, op, r) => EvalLogical(st, l, op, r, fuel)
    case Assign(id, name, op, val) => EvalAssign(st, id, name, op, val, fuel)
    case Call(callee, paren, args) => EvalCall(st, callee, paren, args, fuel)
    case _ => (Stuck(NoVisit), st)
  }

  /** `visit(const Binary&)`. */
  function EvalBinary(st: IState, l: Expr, op: Token, r: Expr, fuel: nat): (res: (Res<Value>, IState))
    decreases fuel, Binary(l, op, r), 1
  {
    var (a, s1) := Eval(st, l, fuel);
    if !a.Val? then (a, s1)
    else
      var (b, s2) := Eval(s1, r, fuel);
      if !b.Val? then (b, s2) else (BinaryOp(op, a.v, b.v), s2)
  }

  /** `visit(const Unary&)`. */
  function EvalUnary(st: IState, op: Token, r: Expr, fuel: nat): (res: (Res<Value>, IState))
    decreases fuel, Unary(op, r), 1
  {
    var (a, s1) := Eval(st, r, fuel);
    if !a.Val? then (a, s1) else (UnaryOp(op, a.v), s1)
  }

  /** `visit(const Variable&)`: `get` along the whole chain. */
  function EvalVariable(st: IState, name: Token): Res<Value> {
    match Binding(Chain(st), name)
    case Ok(v) => Val(v)
    case Err(err) => Raise(err)
  }

  /** `visit(const Logical&)`. */
  function EvalLogical(st: IState, l: Expr, op: Token, r: Expr, fuel: nat): (res: (Res<Value>, IState))
    decreases fuel, Logical(l, op, r), 1
  {
    var (a, s1) := Eval(st, l, fuel);
    if !a.Val? then (a, s1)
    else if op.tokenType == Or && IsTrue(a.v) then (Val(VBool(true)), s1)
    else if op.tokenType != Or && !IsTrue(a.v) then (Val(VBool(false)), s1)
    else
      var (b, s2) := Eval(s1, r, fuel);
      if !b.Val? then (b, s2) else (Val(VBool(IsTrue(b.v))), s2)
  }

  /** `visit(const Assign&)`: `=` assigns in the innermost scope, `:=`
      overwrites the nearest binding, any other operator only evaluates. */
  function EvalAssign(st: IState, id: nat, name: Token, op: Token, val: Expr, fuel: nat): (res: (Res<Value>, IState))
    decreases fuel, Assign(id, name, op, val), 1
  {
    var (a, s1) := Eval(st, val, fuel);
    if !a.Val? then (a, s1)
    else if op.tokenType == Equal then (a, WithChain(s1, AssignIn(Chain(s1), name.lexeme, a.v)))
    else if op.tokenType == BtEqual then
      (match StrictUpdate(Chain(s1), name, a.v)
       case Ok(ch) => (a, WithChain(s1, ch))
       case Err(err) => (Raise(err), s1))
    else (a, s1)
  }

  /** `visit(const Call&)`; a call into a user function spends one unit of
      fuel. */
  function EvalCall(st: IState, callee: Expr, paren: Token, args: seq<Expr>, fuel: nat): (res: (Res<Value>, IState))
    decreases fuel, Call(callee, paren, args), 1
  {
    var (c, s1) := Eval(st, callee, fuel);
    if !c.Val? then (c, s1)
    else
      var (vs, s2) := EvalArgs(s1, args, fuel);
      if !vs.Val? then (Recast(vs, VNix), s2)
      else if !c.v.VFn? then (Raise(RuntimeError(paren, NotCallable)), s2)
      else if Arity(c.v.fn) != |vs.v| then
        (Raise(RuntimeError(paren, ArityMessage(Arity(c.v.fn), |vs.v|))), s2)
      else if fuel == 0 then (Stuck(OutOfFuel), s2)
      else CallValue(s2, c.v.fn, vs.v, fuel - 1)
  }

  /** The argument loop of the `Call` visit, left to right. */
  function EvalArgs(st: IState, args: seq<Expr>, fuel: nat): (res: (Res<seq<Value>>, IState))
    ensures res.0.Val? ==> |res.0.v| == |args|
    decreases fuel, args, 1
  {
    if args == [] then (Val([]), st)
    else
      var (vs, s1) := EvalArgs(st, args[..|args| - 1], fuel);
      if !vs.Val? then (vs, s1)
      else
        var (a, s2) := Eval(s1, args[|args| - 1], fuel);
        if !a.Val? then (Recast(a, []), s2) else (Val(vs.v + [a.v]), s2)
  }

  /** `call` of each callable; the `Call` visit has checked the arity. */
  function CallValue(st: IState, f: Callable, args: seq<Value>, fuel: nat): (res: (Res<Value>, IState))
    requires Arity(f) == |args|
    decreases fuel, FnBody(f), 3
  {
    match f
    case ReadFn =>
      if st.input == [] then (Val(VStr("")), st)
      else (Val(VStr(st.input[0])), st.(input := st.input[1..]))
    case PrintFn => (Val(VNix), st.(output := st.output + [args[0]]))
    case UserFn(_, params, body) =>
      var (r, s1) := ExecBlock(st, body, Bind(params, args), false, fuel);
      (Recast(r, VNix), s1)
  }

  /** The `visit` overloads for statements. */
  function Exec(st: IState, s: Stmt, fuel: nat): (res: (Res<()>, IState))
    decreases fuel, s, 3
  {
    match s
    case Expression(e) =>
      var (r, s1) := Eval(st, e, fuel);
      (Recast(r, ()), s1)
    case Block(ss) => ExecBlock(st, ss, map[], true, fuel)
    case IfStmt(c, t, el) => ExecIf(st, c, t, el, fuel)
    case WhileStmt(c, b) => ExecWhile(st, c, b, fuel)
    case _ => (Stuck(NoVisit), st)
  }

  /** `visit(const If&)`. */
  function ExecIf(st: IState, c: Expr, t: Stmt, el: Option<Stmt>, fuel: nat): (res: (Res<()>, IState))
    decreases fuel, IfStmt(c, t, el), 2
  {
    var (r, s1) := Eval(st, c, fuel);
    if !r.Val? then (Recast(r, ()), s1)
    else if IsTrue(r.v) then Exec(s1, t, fuel)
    else if el.Some? then Exec(s1, el.value, fuel)
    else (Val(()), s1)
  }

  /** `visit(const While&)`. */
  function ExecWhile(st: IState, c: Expr, b: Stmt, fuel: nat): (res: (Res<()>, IState))
    decreases fuel, WhileStmt(c, b), 2
  {
    var (r, s1) := Eval(st, c, fuel);
    if !r.Val? then (Recast(r, ()), s1) else WhileFrom(s1, r.v, c, b, fuel)
  }

  /** The loop of the `While` visit from a condition value `cv`; each turn
      spends one unit of fuel. */
  function WhileFrom(st: IState, cv: Value, c: Expr, b: Stmt, fuel: nat): (res: (Res<()>, IState))
    decreases fuel, WhileStmt(c, b), 1
  {
    if !IsTrue(cv) then (Val(()), st)
    else if fuel == 0 then (Stuck(OutOfFuel), st)
    else
      var (r, s1) := Exec(st, b, fuel);
      if !r.Val? then (r, s1)
      else
        var (q, s2) := Eval(s1, c, fuel);
        if !q.Val? then (Recast(q, ()), s2) else WhileFrom(s2, q.v, c, b, fuel - 1)
  }

  /** Statements in turn, up to the first that does not finish normally. */
  function ExecStmts(st: IState, ss: seq<Stmt>, fuel: nat): (res: (Res<()>, IState))
    decreases fuel, ss, 1
  {
    if ss == [] then (Val(()), st)
    else
      var (r, s1) := ExecStmts(st, ss[..|ss| - 1], fuel);
      if !r.Val? then (r, s1) else Exec(s1, ss[|ss| - 1], fuel)
  }

  /** The scopes `executeBlock` runs in: a block's scope in front of the
      current chain, a call's scope in front of the global scope alone. */
  function Enter(st: IState, frame: Frame, nested: bool): IState {
    st.(locals := [frame] + if nested then st.locals else [])
  }

  /** `executeBlock`: run in the new scope, then go back to the saved chain.
      For a block that chain is the one below the block's scope, with what
      the block wrote into it; a call goes back to the caller's scopes. A
      `RuntimeError` is reported and goes no further. */
  function ExecBlock(st: IState, stmts: seq<Stmt>, frame: Frame, nested: bool, fuel: nat): (res: (Res<()>, IState))
    decreases fuel, stmts, 2
  {
    var (r, s1) := ExecStmts(Enter(st, frame, nested), stmts, fuel);
    var back := s1.(locals := if nested then Tail(s1.locals) else st.locals);
    match r
    case Val(_) => (Val(()), back)
    case Raise(err) => (Val(()), Report(back, err))
    case Stuck(w) => (Stuck(w), s1)
  }

  function Tail(fs: seq<Frame>): seq<Frame> {
    if fs == [] then [] else fs[1..]
  }

  /** `interpret(const Stmts&)`: the first `RuntimeError` is reported and
      ends the run. */
  function Interpret(st: IState, stmts: seq<Stmt>, fuel: nat): (res: (Res<()>, IState))
    ensures !res.0.Raise?
  {
    var (r, s1) := ExecStmts(st, stmts, fuel);
    match r
    case Raise(err) => (Val(()), Report(s1, err))
    case _ => (r, s1)
  }

  /** `interpret(Expr_ptr)`: the text shown for an expression, none for a
      call that yields nil or for a `RuntimeError`. */
  function InterpretExpr(st: IState, e: Expr, fmt: real -> string, fuel: nat): (res: (Res<string>, IState))
    ensures !res.0.Raise?
  {
    var (r, s1) := Eval(st, e, fuel);
    match r
    case Val(v) => (Val(if e.Call? && v.VNix? then "" else Stringify(v, "\"", fmt)), s1)
    case Raise(err) => (Val(""), Report(s1, err))
    case Stuck(w) => (Stuck(w), s1)
  }
}
