/** The environment chain of src/Environment.cpp seen as values: a sequence
    of scope maps, the innermost first and the global scope last. The heap
    class `Environments.Environment` is proved to act on this view as the
    functions here do, and the interpreter works on it directly. */
module Frames {
  import opened Base
  import opened Tokens
  import opened Values

  type Frame = map<string, Value>

  /** The nearest scope of the chain that defines `name`. */
  function Nearest(frames: seq<Frame>, name: string): (r: Option<nat>)
    ensures r.Some? ==> r.value < |frames| && name in frames[r.value]
    ensures r.Some? ==> forall k :: 0 <= k < r.value ==> name !in frames[k]
    ensures r.None? ==> forall k :: 0 <= k < |frames| ==> name !in frames[k]
  {
    if frames == [] then None
    else if name in frames[0] then Some(0)
    else match Nearest(frames[1..], name)
      case None => None
      case Some(i) => Some(i + 1)
  }

  function Undefined(name: Token): RuntimeError {
    RuntimeError(name, UndefinedMessage(name.lexeme))
  }

  /** `get`: the binding of the nearest defining scope. */
  function Binding(frames: seq<Frame>, name: Token): Result<Value, RuntimeError> {
    match Nearest(frames, name.lexeme)
    case Some(i) => Ok(frames[i][name.lexeme])
    case None => Err(Undefined(name))
  }

  /** `strictAssign`: overwrite the binding of the nearest defining scope. */
  function StrictUpdate(frames: seq<Frame>, name: Token, v: Value): Result<seq<Frame>, RuntimeError> {
    match Nearest(frames, name.lexeme)
    case Some(i) => Ok(frames[i := frames[i][name.lexeme := v]])
    case None => Err(Undefined(name))
  }

  /** `assign`: create or overwrite the binding in the innermost scope. */
  function AssignIn(frames: seq<Frame>, name: string, v: Value): seq<Frame>
    requires frames != []
  {
    frames[0 := frames[0][name := v]]
  }

  /** Scope `k` defines the name and no scope inside it does. */
  predicate FirstDefining(frames: seq<Frame>, name: string, k: nat)
    requires k < |frames|
  {
    name in frames[k] && forall j :: 0 <= j < k ==> name !in frames[j]
  }

  /** `get` finds a binding exactly when some scope of the chain has the
      name, and then it is the innermost one's. */
  lemma BindingFinds(frames: seq<Frame>, name: Token)
    ensures Binding(frames, name).Ok? <==> exists k :: 0 <= k < |frames| && name.lexeme in frames[k]
    ensures forall k :: 0 <= k < |frames| && FirstDefining(frames, name.lexeme, k) ==>
      Binding(frames, name) == Ok(frames[k][name.lexeme])
    ensures Binding(frames, name).Err? ==> Binding(frames, name).error == RuntimeError(name, UndefinedMessage(name.lexeme))
  {
    var r := Nearest(frames, name.lexeme);
    forall k | 0 <= k < |frames| && FirstDefining(frames, name.lexeme, k)
      ensures Binding(frames, name) == Ok(frames[k][name.lexeme])
    {
      assert r.Some?;
      assert !(r.value < k) && !(k < r.value);
    }
  }

  /** A plain assignment binds the name in the innermost scope and leaves
      every other binding, and every other scope, as it was. */
  lemma AssignBinds(frames: seq<Frame>, name: Token, other: Token, v: Value)
    requires frames != []
    ensures Binding(AssignIn(frames, name.lexeme, v), name) == Ok(v)
    ensures other.lexeme != name.lexeme ==> Binding(AssignIn(frames, name.lexeme, v), other) == Binding(frames, other)
    ensures AssignIn(frames, name.lexeme, v)[1..] == frames[1..]
  {
    var after := AssignIn(frames, name.lexeme, v);
    if other.lexeme != name.lexeme {
      assert forall k :: 0 <= k < |frames| ==> (other.lexeme in after[k] <==> other.lexeme in frames[k]);
      BindingFinds(frames, other);
      BindingFinds(after, other);
      match Nearest(frames, other.lexeme) {
        case None =>
        case Some(i) =>
          assert FirstDefining(after, other.lexeme, i);
          assert after[i][other.lexeme] == frames[i][other.lexeme];
      }
    }
  }

  /** A strict assignment succeeds exactly when `get` would, and fails with
      the same error. */
  lemma StrictUpdates(frames: seq<Frame>, name: Token, v: Value)
    ensures StrictUpdate(frames, name, v).Ok? <==> Binding(frames, name).Ok?
    ensures StrictUpdate(frames, name, v).Err? ==> StrictUpdate(frames, name, v).error == Binding(frames, name).error
  {
  }

  /** A successful strict assignment binds the name to the value, changes
      only the nearest defining scope and creates no binding. */
  lemma StrictChanges(frames: seq<Frame>, name: Token, v: Value)
    requires StrictUpdate(frames, name, v).Ok?
    ensures var after := StrictUpdate(frames, name, v).value;
      && |after| == |frames|
      && (forall k :: 0 <= k < |frames| ==> after[k].Keys == frames[k].Keys)
      && (forall k :: 0 <= k < |frames| && k != Nearest(frames, name.lexeme).value ==> after[k] == frames[k])
      && Binding(after, name) == Ok(v)
  {
    var after := StrictUpdate(frames, name, v).value;
    var i := Nearest(frames, name.lexeme).value;
    assert forall k :: 0 <= k < |frames| ==> after[k].Keys == frames[k].Keys;
    assert FirstDefining(after, name.lexeme, i);
    BindingFinds(after, name);
  }

  /** ... and leaves the bindings of every other name as they were. */
  lemma StrictKeepsOthers(frames: seq<Frame>, name: Token, other: Token, v: Value)
    requires StrictUpdate(frames, name, v).Ok? && other.lexeme != name.lexeme
    ensures Binding(StrictUpdate(frames, name, v).value, other) == Binding(frames, other)
  {
    var after := StrictUpdate(frames, name, v).value;
    assert forall k :: 0 <= k < |frames| ==> (other.lexeme in after[k] <==> other.lexeme in frames[k]);
    BindingFinds(frames, other);
    BindingFinds(after, other);
    match Nearest(frames, other.lexeme) {
      case None =>
      case Some(j) =>
        assert FirstDefining(after, other.lexeme, j);
        assert after[j][other.lexeme] == frames[j][other.lexeme];
    }
  }

  /** A failed strict assignment reports what `get` reports. */
  lemma StrictFailsUndefined(frames: seq<Frame>, name: Token, v: Value)
    requires forall k :: 0 <= k < |frames| ==> name.lexeme !in frames[k]
    ensures StrictUpdate(frames, name, v) == Err(RuntimeError(name, UndefinedMessage(name.lexeme)))
  {
  }

  /** Looking up through a chain is looking in its head, then in the rest. */
  lemma BindingCons(f: Frame, rest: seq<Frame>, name: Token)
    ensures Binding([f] + rest, name)
      == if name.lexeme in f then Ok(f[name.lexeme]) else Binding(rest, name)
  {
    assert ([f] + rest)[1..] == rest;
  }

  lemma StrictCons(f: Frame, rest: seq<Frame>, name: Token, v: Value)
    ensures StrictUpdate([f] + rest, name, v)
      == if name.lexeme in f then Ok([f[name.lexeme := v]] + rest)
         else match StrictUpdate(rest, name, v)
           case Ok(r) => Ok([f] + r)
           case Err(e) => Err(e)
  {
    assert ([f] + rest)[1..] == rest;
    if name.lexeme !in f {
      match Nearest(rest, name.lexeme) {
        case None =>
        case Some(i) =>
          assert ([f] + rest)[i + 1 := rest[i][name.lexeme := v]] == [f] + rest[i := rest[i][name.lexeme := v]];
      }
    } else {
      assert ([f] + rest)[0 := f[name.lexeme := v]] == [f[name.lexeme := v]] + rest;
    }
  }
}
