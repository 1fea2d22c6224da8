/** `Environment` of src/Environment.cpp: a scope map with a link to the
    enclosing environment, which is fixed at construction. `depth` counts
    the links up to the global scope; it is a proof device that orders the
    chain. Each method is proved against the functions of `Frames` on the
    chain's view `Frames()`. */
module Environments {
  import opened Base
  import opened Tokens
  import opened Values
  import opened Frames

  class Environment {
    var vars: map<string, Value>
    const parent: Option<Environment>
    ghost const depth: nat
    ghost const above: set<Environment>

    /** Every link goes one step closer to the global scope, which has no
        parent; `above` holds the environments the links lead to. */
    ghost predicate Linked()
      decreases depth
    {
      if depth == 0 then parent.None? && above == {}
      else
        && parent.Some? && parent.value.depth == depth - 1
        && above == {parent.value} + parent.value.above
        && parent.value.Linked()
    }

    /** The environments of the chain. */
    ghost function Repr(): set<Environment> {
      {this} + above
    }

    /** `d` links up the chain. */
    ghost function Ancestor(d: nat): (e: Environment)
      requires Linked() && d <= depth
      ensures e.Linked() && e.depth == depth - d
      decreases d
    {
      if d == 0 then this else parent.value.Ancestor(d - 1)
    }

    /** The chain of scope maps, innermost first. */
    ghost function Frames(): (fr: seq<Frame>)
      requires Linked()
      reads Repr()
      ensures |fr| == depth + 1 && fr[0] == vars
      decreases depth
    {
      [vars] + if parent.Some? then parent.value.Frames() else []
    }

    /** `Environment()`: the global scope. */
    constructor Global()
      ensures Linked() && parent.None? && vars == map[] && Frames() == [map[]]
    {
      vars := map[];
      parent := None;
      depth := 0;
      above := {};
    }

    /** `Environment(env)`: a local scope whose parent is `env`. */
    constructor Local(env: Environment)
      requires env.Linked()
      ensures Linked() && parent == Some(env) && vars == map[]
      ensures Frames() == [map[]] + env.Frames()
    {
      vars := map[];
      parent := Some(env);
      depth := env.depth + 1;
      above := {env} + env.above;
      new;
      ReprBelow(env);
    }

    /** `get`. */
    method Get(name: Token) returns (r: Result<Value, RuntimeError>)
      requires Linked()
      ensures r == Binding(Frames(), name)
      decreases depth
    {
      BindingCons(vars, Frames()[1..], name);
      assert Frames() == [vars] + Frames()[1..];
      if name.lexeme in vars {
        return Ok(vars[name.lexeme]);
      }
      if parent.Some? {
        r := parent.value.Get(name);
        return;
      }
      return Err(RuntimeError(name, UndefinedMessage(name.lexeme)));
    }

    /** `parentAt`: follow `distance` links; the chain must be that long. */
    method ParentAt(distance: nat) returns (env: Environment)
      requires Linked() && distance <= depth
      ensures env == Ancestor(distance)
      ensures env.Frames() == Frames()[distance..]
    {
      env := this;
      for i := 0 to distance
        invariant env == Ancestor(i)
      {
        AncestorStep(i);
        env := env.parent.value;
      }
      AncestorFrames(distance);
    }

    /** `getAt`: `get` on the environment `dist` links up. */
    method GetAt(name: Token, dist: nat) returns (r: Result<Value, RuntimeError>)
      requires Linked() && dist <= depth
      ensures r == Binding(Frames()[dist..], name)
    {
      assert forall x :: x in Repr() ==> allocated(x);
      ghost var fr := Frames();
      var env := ParentAt(dist);
      assert forall x :: x in env.Repr() ==> allocated(x);
      ghost var below := env.Frames();
      r := env.Get(name);
      assert env.Frames() == below == fr[dist..];
      assert Frames() == fr;
    }

    /** `isDefined`: only this scope's own map counts. */
    method IsDefined(name: string) returns (b: bool)
      ensures b <==> name in vars
    {
      b := name in vars;
    }

    /** `assign`: bind in this scope, whatever the enclosing ones hold. */
    method Assign(name: string, val: Value)
      requires Linked()
      modifies this
      ensures Frames() == AssignIn(old(Frames()), name, val)
    {
      ghost var before := Frames();
      if parent.Some? {
        ReprBelow(parent.value);
      }
      vars := vars[name := val];
      assert Frames()[1..] == before[1..];
    }

    /** `strictAssign`: overwrite the nearest binding; an undefined name
        raises and changes nothing. */
    method StrictAssign(name: Token, val: Value) returns (r: Result<(), RuntimeError>)
      requires Linked()
      modifies Repr()
      ensures match StrictUpdate(old(Frames()), name, val)
        case Ok(fr) => r.Ok? && Frames() == fr
        case Err(e) => r == Err(e) && Frames() == old(Frames())
      decreases depth
    {
      ghost var before := Frames();
      StrictCons(vars, before[1..], name, val);
      assert before == [vars] + before[1..];
      if name.lexeme in vars {
        if parent.Some? {
          ReprBelow(parent.value);
        }
        vars := vars[name.lexeme := val];
        assert Frames() == [vars] + before[1..];
        return Ok(());
      }
      if parent.Some? {
        ReprBelow(parent.value);
        r := parent.value.StrictAssign(name, val);
        assert Frames() == [vars] + parent.value.Frames();
        return;
      }
      return Err(RuntimeError(name, UndefinedMessage(name.lexeme)));
    }

    /** `assignAt`: `assign` on the environment `dist` links up. */
    method AssignAt(name: string, val: Value, dist: nat)
      requires Linked() && dist <= depth
      modifies Repr()
      ensures Frames() == old(Frames())[dist := old(Frames())[dist][name := val]]
    {
      assert forall x :: x in Repr() ==> allocated(x);
      ghost var before := Frames();
      var env := ParentAt(dist);
      FramesSplit(dist);
      AncestorIn(dist);
      ghost var above := Above(dist);
      ghost var below := env.Frames();
      assert env !in AboveRepr(dist);
      env.Assign(name, val);
      assert Above(dist) == above;
      FramesSplit(dist);
      UpdateAcross(above, below, below[0][name := val]);
    }

    /** `strictAssignAt`: `strictAssign` on the environment `dist` links up;
        the scopes inside it are never touched. */
    method StrictAssignAt(name: Token, val: Value, dist: nat) returns (r: Result<(), RuntimeError>)
      requires Linked() && dist <= depth
      modifies Repr()
      ensures Frames()[..dist] == old(Frames())[..dist]
      ensures match StrictUpdate(old(Frames())[dist..], name, val)
        case Ok(fr) => r.Ok? && Frames()[dist..] == fr
        case Err(e) => r == Err(e) && Frames() == old(Frames())
    {
      assert forall x :: x in Repr() ==> allocated(x);
      var env := ParentAt(dist);
      FramesSplit(dist);
      AncestorReprSub(dist);
      ReprBelow(env);
      ghost var above := Above(dist);
      assert env.Repr() !! AboveRepr(dist);
      r := env.StrictAssign(name, val);
      FramesSplit(dist);
      assert Above(dist) == above;
    }

    // The shape of the chain.

    /** Everything above this environment lies deeper in the chain. */
    static lemma ReprBelow(e: Environment)
      requires e.Linked()
      ensures forall x :: x in e.Repr() ==> x.depth <= e.depth
      decreases e.depth
    {
      if e.parent.Some? {
        ReprBelow(e.parent.value);
      }
    }

    lemma AncestorStep(i: nat)
      requires Linked() && i < depth
      ensures Ancestor(i).parent.Some? && Ancestor(i).parent.value == Ancestor(i + 1)
      decreases i
    {
      if i > 0 {
        parent.value.AncestorStep(i - 1);
      }
    }

    lemma AncestorFrames(d: nat)
      requires Linked() && d <= depth
      ensures Ancestor(d).Frames() == Frames()[d..]
      decreases d
    {
      if d > 0 {
        parent.value.AncestorFrames(d - 1);
        assert Frames()[d..] == parent.value.Frames()[d - 1..];
      }
    }

    lemma AncestorIn(d: nat)
      requires Linked() && d <= depth
      ensures Ancestor(d) in Repr()
      decreases d
    {
      if d > 0 {
        parent.value.AncestorIn(d - 1);
      }
    }

    /** The environments less than `d` links up. */
    ghost function AboveRepr(d: nat): (s: set<Environment>)
      requires Linked() && d <= depth
      ensures s <= Repr()
      ensures forall x :: x in s ==> x.depth > depth - d
      decreases d
    {
      if d == 0 then {} else {this} + parent.value.AboveRepr(d - 1)
    }

    /** Their scope maps, innermost first. */
    ghost function Above(d: nat): (fr: seq<Frame>)
      requires Linked() && d <= depth
      reads AboveRepr(d)
      ensures |fr| == d
      decreases d
    {
      if d == 0 then [] else [vars] + parent.value.Above(d - 1)
    }

    /** The view is the maps inside the environment `d` links up, then
        that environment's own view. */
    lemma FramesSplit(d: nat)
      requires Linked() && d <= depth
      ensures Frames() == Above(d) + Ancestor(d).Frames()
      decreases d
    {
      if d > 0 {
        parent.value.FramesSplit(d - 1);
      }
    }

    lemma AncestorReprSub(d: nat)
      requires Linked() && d <= depth
      ensures Ancestor(d).Repr() <= Repr()
      decreases d
    {
      if d > 0 {
        parent.value.AncestorReprSub(d - 1);
      }
    }
  }

  /** Updating the first element after a prefix. */
  lemma UpdateAcross(a: seq<Frame>, b: seq<Frame>, x: Frame)
    requires b != []
    ensures (a + b)[|a| := x] == a + b[0 := x]
  {
  }
}
