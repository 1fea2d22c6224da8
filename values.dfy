/** The run-time values of src/Interpreter.cpp: `Value`, a variant of a
    string, a number, nil, a Boolean and a callable. The callables are the
    user functions of src/ProtoFunc.cpp and the foreign `read` and `print`
    of src/includes/ForeignFuncs.hpp that the interpreter's constructor
    puts in the global scope. */
module Values {
  import opened Base
  import opened Tokens
  import opened Ast

  datatype Callable =
    | UserFn(name: Token, params: seq<Token>, body: seq<Stmt>)
    | ReadFn
    | PrintFn

  datatype Value = VStr(s: string) | VNum(n: real) | VNix | VBool(b: bool) | VFn(fn: Callable)

  /** `RuntimeError(token, message)`. */
  datatype RuntimeError = RuntimeError(token: Token, message: string)

  function UndefinedMessage(name: string): string {
    "Undefined variable '" + name + "'."
  }

  /** The value a literal node evaluates to. */
  function ValueOf(lit: LitValue): Value {
    match lit
    case LStr(s) => VStr(s)
    case LNum(n) => VNum(n)
    case LNix => VNix
    case LBool(b) => VBool(b)
  }

  /** `arity` of each callable: a user function takes one argument per
      parameter. */
  function Arity(f: Callable): nat {
    match f
    case UserFn(_, params, _) => |params|
    case ReadFn => 0
    case PrintFn => 1
  }

  const UserFnPrefix := "<Proto::generic::userfn "
  const ReadInfo := "<Proto::generic::foreignfn read : () -> string_t>"
  const PrintInfo := "<Proto::generic::foreignfn print : (<printable-type>) -> ()>"

  /** `info` of each callable. */
  function Info(f: Callable): string {
    match f
    case UserFn(name, _, _) => UserFnPrefix + name.lexeme + ">"
    case ReadFn => ReadInfo
    case PrintFn => PrintInfo
  }

  /** A user function's name can be read back from its `info` text, which
      is bracketed like the foreign functions' texts and never mistaken for
      one of them. */
  lemma InfoNamesFunction(f: Callable)
    requires f.UserFn?
    ensures var s := Info(f);
      && |s| == |UserFnPrefix| + |f.name.lexeme| + 1
      && s[..|UserFnPrefix|] == UserFnPrefix
      && s[|UserFnPrefix|..|s| - 1] == f.name.lexeme
      && s[|s| - 1] == '>'
      && s != ReadInfo && s != PrintInfo
  {
    var s := Info(f);
    assert s[..|UserFnPrefix|] == UserFnPrefix;
    assert s[|UserFnPrefix|..|s| - 1] == f.name.lexeme;
    assert ReadInfo[..|UserFnPrefix|] != UserFnPrefix by {
      assert ReadInfo[17] != UserFnPrefix[17];
    }
    assert PrintInfo[..|UserFnPrefix|] != UserFnPrefix by {
      assert PrintInfo[17] != UserFnPrefix[17];
    }
  }

  /** `stringify(value, strContainer)`: the text of a number comes from
      `fmt` (the stream's `setprecision(maxPrecision)` output). */
  function Stringify(v: Value, quote: string, fmt: real -> string): string {
    match v
    case VNix => "nix"
    case VNum(n) => fmt(n)
    case VStr(s) => quote + s + quote
    case VBool(b) => if b then "true" else "false"
    case VFn(f) => Info(f)
  }
}
