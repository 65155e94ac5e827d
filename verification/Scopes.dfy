/** Nested scopes of names. */
module Scopes {
  import opened ControlFlow

  /** The binding of a name in the innermost scope that has it; the last scope is the innermost. */
  function Lookup<T>(scopes: seq<map<string, T>>, id: string): Option<T> {
    if scopes == [] then None
    else if id in scopes[|scopes| - 1] then Some(scopes[|scopes| - 1][id])
    else Lookup(scopes[..|scopes| - 1], id)
  }

  /** Binds the name in the innermost scope unless it is bound there already. */
  function Bind<T>(scopes: seq<map<string, T>>, id: string, t: T): seq<map<string, T>> {
    if scopes == [] || id in scopes[|scopes| - 1] then scopes
    else scopes[..|scopes| - 1] + [scopes[|scopes| - 1][id := t]]
  }

  function Leave<T>(scopes: seq<map<string, T>>): seq<map<string, T>> {
    if scopes == [] then [] else scopes[..|scopes| - 1]
  }

  /** A name found is bound in some scope and in none further in. */
  lemma {:induction false} LookupInnermost<T>(scopes: seq<map<string, T>>, id: string)
    ensures Lookup(scopes, id) == None <==> forall k {:trigger scopes[k]} :: 0 <= k < |scopes| ==> id !in scopes[k]
    ensures forall k {:trigger scopes[k]} ::
      0 <= k < |scopes| && id in scopes[k]
        && (forall j {:trigger scopes[j]} :: k < j < |scopes| ==> id !in scopes[j]) ==>
      Lookup(scopes, id) == Some(scopes[k][id])
  {
    if scopes != [] {
      var rest := scopes[..|scopes| - 1];
      LookupInnermost(rest, id);
      assert forall k :: 0 <= k < |rest| ==> rest[k] == scopes[k];
    }
  }

  /** A binding is found under its name unless the name was bound in the same scope; other names are unaffected. */
  lemma LookupBind<T>(scopes: seq<map<string, T>>, id: string, t: T, other: string)
    requires scopes != []
    ensures Lookup(Bind(scopes, id, t), other) ==
      if other == id && id !in scopes[|scopes| - 1] then Some(t) else Lookup(scopes, other)
  {
    var bound := Bind(scopes, id, t);
    assert bound[..|bound| - 1] == scopes[..|scopes| - 1];
  }

  /** Whatever is bound in a scope is forgotten when it is left. */
  lemma LeaveForgets<T>(scopes: seq<map<string, T>>, id: string, t: T)
    requires scopes != []
    ensures Leave(Bind(scopes, id, t)) == Leave(scopes)
    ensures Leave(scopes + [map[]]) == scopes
  {
  }

  class Scope<T> {
    var inner: seq<map<string, T>>

    constructor ()
      ensures inner == []
    {
      inner := [];
    }

    method Enter()
      modifies this
      ensures inner == old(inner) + [map[]]
    {
      inner := inner + [map[]];
    }

    method Exit()
      requires inner != []
      modifies this
      ensures inner == Leave(old(inner))
    {
      inner := inner[..|inner| - 1];
    }

    predicate InGlobal()
      reads this
    {
      |inner| == 1
    }

    method Push(name: string, val: T) returns (fits: bool)
      requires inner != []
      modifies this
      ensures inner == Bind(old(inner), name, val)
      ensures fits <==> name !in old(inner)[|old(inner)| - 1]
    {
      var top := inner[|inner| - 1];
      fits := name !in top;
      if fits {
        inner := inner[..|inner| - 1] + [top[name := val]];
      }
    }

    method Find(name: string) returns (r: Option<T>)
      ensures r == Lookup(inner, name)
    {
      var s := |inner|;
      assert inner[..s] == inner;
      while s > 0
        invariant 0 <= s <= |inner| && Lookup(inner[..s], name) == Lookup(inner, name)
      {
        s := s - 1;
        assert inner[..s + 1][..s] == inner[..s];
        if name in inner[s] {
          return Some(inner[s][name]);
        }
      }
      r := None;
    }
  }
}
