/** Environments as an arena of frames. A frame is an `Environment` object:
    its own bindings and the index of its `enclosing` frame. Frames are only
    ever appended, and an enclosing frame always has a smaller index, so
    walking the chain terminates. Frame 0 is the global environment. */
module Environment {
  import opened Wrappers
  import opened Tokens
  import opened Values

  datatype Frame = Frame(vars: map<string, Value>, parent: Option<nat>)

  /** Every frame's enclosing frame was created before it. */
  predicate Linked(arena: seq<Frame>) {
    forall i :: 0 <= i < |arena| && arena[i].parent.Some? ==> arena[i].parent.value < i
  }

  /** The frames the `enclosing` chain visits from `env` outward, `env`
      first: the independent description of the chain that `get`, `assign`
      and `ancestor` walk. */
  function Chain(arena: seq<Frame>, env: nat): (chain: seq<nat>)
    requires Linked(arena) && env < |arena|
    ensures |chain| > 0 && chain[0] == env
    ensures forall k :: 0 <= k < |chain| ==> chain[k] < |arena|
    ensures arena[chain[|chain| - 1]].parent.None?
    ensures forall k :: 0 <= k < |chain| - 1 ==> arena[chain[k]].parent == Some(chain[k + 1])
    decreases env
  {
    match arena[env].parent
    case None => [env]
    case Some(p) => [env] + Chain(arena, p)
  }

  /** `d` is the distance to the nearest frame on the chain that binds
      `name`. */
  predicate Nearest(arena: seq<Frame>, env: nat, name: string, d: nat)
    requires Linked(arena) && env < |arena|
  {
    var chain := Chain(arena, env);
    && d < |chain|
    && name in arena[chain[d]].vars
    && forall k :: 0 <= k < d ==> name !in arena[chain[k]].vars
  }

  /** No frame on the chain binds `name`. */
  predicate Unbound(arena: seq<Frame>, env: nat, name: string)
    requires Linked(arena) && env < |arena|
  {
    var chain := Chain(arena, env);
    forall k :: 0 <= k < |chain| ==> name !in arena[chain[k]].vars
  }

  /** The error `get` and `assign` raise for a name no frame binds. */
  function UndefinedVariable(name: Token): Signal {
    RuntimeError(name, "Undefined variable '" + name.lexeme + "'.")
  }

  /** The arena with `name` bound to `v` in frame `k`'s own map, creating
      or overwriting the entry. */
  function Bind(arena: seq<Frame>, k: nat, name: string, v: Value): (r: seq<Frame>)
    requires k < |arena|
    ensures |r| == |arena|
    ensures r[k].vars == arena[k].vars[name := v] && r[k].parent == arena[k].parent
    ensures forall j :: 0 <= j < |arena| && j != k ==> r[j] == arena[j]
    ensures Linked(arena) ==> Linked(r)
  {
    arena[k := arena[k].(vars := arena[k].vars[name := v])]
  }

  /** `define`: creates or overwrites the binding in the current frame
      only. */
  function Define(arena: seq<Frame>, env: nat, name: string, v: Value): (r: seq<Frame>)
    requires env < |arena|
    ensures |r| == |arena| && name in r[env].vars && r[env].vars[name] == v
    ensures forall other :: other != name ==>
      (other in r[env].vars <==> other in arena[env].vars)
      && (other in arena[env].vars ==> r[env].vars[other] == arena[env].vars[other])
    ensures r[env].parent == arena[env].parent
    ensures forall j :: 0 <= j < |arena| && j != env ==> r[j] == arena[j]
  {
    Bind(arena, env, name, v)
  }

  /** `get`: the binding in the nearest frame on the chain that has the
      name, or the undefined-variable error. */
  function Get(arena: seq<Frame>, env: nat, name: Token): (r: Result<Value, Signal>)
    requires Linked(arena) && env < |arena|
    ensures r.Failure? ==> r.error == UndefinedVariable(name)
    decreases env
  {
    if name.lexeme in arena[env].vars then Success(arena[env].vars[name.lexeme])
    else
      match arena[env].parent
      case Some(p) => Get(arena, p, name)
      case None => Failure(UndefinedVariable(name))
  }

  /** `assign`: updates the nearest frame on the chain that has the name,
      never creating a binding, or raises the undefined-variable error. */
  function Assign(arena: seq<Frame>, env: nat, name: Token, v: Value): (r: Result<seq<Frame>, Signal>)
    requires Linked(arena) && env < |arena|
    ensures r.Failure? ==> r.error == UndefinedVariable(name)
    ensures r.Success? ==> |r.value| == |arena| && Linked(r.value)
    decreases env
  {
    if name.lexeme in arena[env].vars then Success(Bind(arena, env, name.lexeme, v))
    else
      match arena[env].parent
      case Some(p) => Assign(arena, p, name, v)
      case None => Failure(UndefinedVariable(name))
  }

  /** `ancestor`: follows `enclosing` `distance` times; once the chain has
      run out the result stays undefined. */
  function Ancestor(arena: seq<Frame>, env: nat, distance: nat): (a: Option<nat>)
    requires Linked(arena) && env < |arena|
    ensures a.Some? ==> a.value < |arena|
    decreases distance
  {
    if distance == 0 then Some(env)
    else
      match arena[env].parent
      case None => None
      case Some(p) => Ancestor(arena, p, distance - 1)
  }

  /** `getAt`: the entry in `ancestor(distance)`'s own map, without
      searching; undefined (nil) when the frame or the entry is missing. */
  function GetAt(arena: seq<Frame>, env: nat, distance: nat, name: string): (v: Value)
    requires Linked(arena) && env < |arena|
    ensures Ancestor(arena, env, distance).None? ==> v == Nil
    ensures Ancestor(arena, env, distance).Some? ==>
      var a := Ancestor(arena, env, distance).value;
      v == (if name in arena[a].vars then arena[a].vars[name] else Nil)
  {
    match Ancestor(arena, env, distance)
    case None => Nil
    case Some(a) => if name in arena[a].vars then arena[a].vars[name] else Nil
  }

  /** `assignAt`: sets the entry in `ancestor(distance)`'s own map, creating
      it if missing; nothing happens when the ancestor is missing. It never
      raises. */
  function AssignAt(arena: seq<Frame>, env: nat, distance: nat, name: Token, v: Value): (r: seq<Frame>)
    requires Linked(arena) && env < |arena|
    ensures |r| == |arena| && Linked(r)
    ensures Ancestor(arena, env, distance).None? ==> r == arena
    ensures Ancestor(arena, env, distance).Some? ==>
      r == Bind(arena, Ancestor(arena, env, distance).value, name.lexeme, v)
  {
    match Ancestor(arena, env, distance)
    case None => arena
    case Some(a) => Bind(arena, a, name.lexeme, v)
  }

  // ---------------------------------------------------------------------
  // The walking operations against the chain.

  /** `ancestor(d)` is the frame `d` steps along the chain, and undefined
      past its end. */
  lemma {:induction false} AncestorOnChain(arena: seq<Frame>, env: nat, d: nat)
    requires Linked(arena) && env < |arena|
    ensures var chain := Chain(arena, env);
      Ancestor(arena, env, d) == if d < |chain| then Some(chain[d]) else None
    decreases d
  {
    if d > 0 {
      match arena[env].parent
      case None =>
      case Some(p) =>
        AncestorOnChain(arena, p, d - 1);
    }
  }

  /** `get` finds the binding of the nearest frame that has the name. */
  lemma {:induction false} GetNearest(arena: seq<Frame>, env: nat, name: Token, d: nat)
    requires Linked(arena) && env < |arena| && Nearest(arena, env, name.lexeme, d)
    ensures Get(arena, env, name) == Success(arena[Chain(arena, env)[d]].vars[name.lexeme])
    decreases env
  {
    if d > 0 {
      var p := arena[env].parent.value;
      assert Chain(arena, env)[1..] == Chain(arena, p);
      GetNearest(arena, p, name, d - 1);
    }
  }

  /** `get` raises exactly when no frame on the chain has the name. */
  lemma {:induction false} GetUnbound(arena: seq<Frame>, env: nat, name: Token)
    requires Linked(arena) && env < |arena|
    ensures Get(arena, env, name).Failure? <==> Unbound(arena, env, name.lexeme)
    decreases env
  {
    var chain := Chain(arena, env);
    match arena[env].parent
    case None =>
    case Some(p) =>
      assert chain[1..] == Chain(arena, p);
      GetUnbound(arena, p, name);
      if name.lexeme !in arena[env].vars && Unbound(arena, p, name.lexeme) {
        forall k | 0 <= k < |chain|
          ensures name.lexeme !in arena[chain[k]].vars
        {
          if k > 0 {
            assert chain[k] == Chain(arena, p)[k - 1];
          }
        }
      }
  }

  /** `assign` updates exactly the nearest frame that has the name. */
  lemma {:induction false} AssignNearest(arena: seq<Frame>, env: nat, name: Token, v: Value, d: nat)
    requires Linked(arena) && env < |arena| && Nearest(arena, env, name.lexeme, d)
    ensures Assign(arena, env, name, v) == Success(Bind(arena, Chain(arena, env)[d], name.lexeme, v))
    decreases env
  {
    if d > 0 {
      var p := arena[env].parent.value;
      assert Chain(arena, env)[1..] == Chain(arena, p);
      AssignNearest(arena, p, name, v, d - 1);
    }
  }

  /** `assign` raises exactly when no frame on the chain has the name. */
  lemma {:induction false} AssignUnbound(arena: seq<Frame>, env: nat, name: Token, v: Value)
    requires Linked(arena) && env < |arena|
    ensures Assign(arena, env, name, v).Failure? <==> Unbound(arena, env, name.lexeme)
    decreases env
  {
    match arena[env].parent
    case None =>
    case Some(p) =>
      AssignUnbound(arena, p, name, v);
      GetUnbound(arena, env, name);
      GetUnbound(arena, p, name);
  }

  /** The resolver's promise kept: when `ancestor(d)` is the nearest frame
      binding the name, `getAt(d)` reads what `get` would find. */
  lemma GetAtAgreesWithGet(arena: seq<Frame>, env: nat, name: Token, d: nat)
    requires Linked(arena) && env < |arena| && Nearest(arena, env, name.lexeme, d)
    ensures Get(arena, env, name).Success?
    ensures GetAt(arena, env, d, name.lexeme) == Get(arena, env, name).value
  {
    AncestorOnChain(arena, env, d);
    GetNearest(arena, env, name, d);
  }

  /** Likewise `assignAt(d)` has the same effect as `assign`. */
  lemma AssignAtAgreesWithAssign(arena: seq<Frame>, env: nat, name: Token, v: Value, d: nat)
    requires Linked(arena) && env < |arena| && Nearest(arena, env, name.lexeme, d)
    ensures Assign(arena, env, name, v).Success?
    ensures AssignAt(arena, env, d, name, v) == Assign(arena, env, name, v).value
  {
    AncestorOnChain(arena, env, d);
    AssignNearest(arena, env, name, v, d);
  }
}
