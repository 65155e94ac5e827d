/** Values and their users: the two directions of the use-def graph, updated in place. */
module UseDef {
  datatype Use = Use(user: Value, argNo: int)

  /** The operands and the use list of each live value. */
  datatype Graph = Graph(ops: map<Value, seq<Value?>>, uses: map<Value, seq<Use>>)
  {
    predicate Has(u: Value) {
      u in ops && u in uses
    }

    predicate Holds(u: Value, i: int, x: Value)
      requires Has(u)
    {
      0 <= i < |ops[u]| && ops[u][i] == x
    }

    function Times(x: Value, u: Value, i: int): nat
      requires Has(x)
    {
      multiset(uses[x])[Use(u, i)]
    }

    /** Operands and users are live, and `x` lists operand `i` of `u` exactly once when it is `x`, and not
        at all otherwise. */
    ghost predicate Mirrored() {
      && (forall u {:trigger u in ops} :: u in ops ==> u in uses)
      && (forall u {:trigger u in uses} :: u in uses ==> u in ops)
      && (forall u, i {:trigger ops[u][i]} :: u in ops && 0 <= i < |ops[u]| && ops[u][i] != null ==> Has(ops[u][i]))
      && (forall x, e {:trigger e in uses[x]} :: x in uses && e in uses[x] ==> Has(e.user))
      && (forall x, u, i {:trigger Times(x, u, i)} {:trigger Holds(u, i, x)} ::
            x in uses && u in ops && Has(x) && Has(u) ==> Times(x, u, i) == if Holds(u, i, x) then 1 else 0)
    }
  }

  // ----- use lists -----

  /** The uses that satisfy the predicate, in order. */
  function Only(uses: seq<Use>, p: Use -> bool): seq<Use> {
    if uses == [] then []
    else if p(uses[0]) then [uses[0]] + Only(uses[1..], p)
    else Only(uses[1..], p)
  }

  function NotBy(user: Value): Use -> bool {
    (e: Use) => e.user != user
  }

  /** The uses whose user is chosen, and the others. */
  function Chosen(pred: Value -> bool): Use -> bool {
    (e: Use) => pred(e.user)
  }

  function Unchosen(pred: Value -> bool): Use -> bool {
    (e: Use) => !pred(e.user)
  }

  lemma {:induction false} OnlyMembers(uses: seq<Use>, p: Use -> bool, e: Use)
    ensures e in Only(uses, p) <==> e in uses && p(e)
  {
    if uses != [] {
      OnlyMembers(uses[1..], p, e);
    }
  }

  lemma {:induction false} OnlyCount(uses: seq<Use>, p: Use -> bool, e: Use)
    ensures multiset(Only(uses, p))[e] == if p(e) then multiset(uses)[e] else 0
  {
    if uses != [] {
      OnlyCount(uses[1..], p, e);
      assert uses == [uses[0]] + uses[1..];
    }
  }

  lemma {:induction false} OnlyNext(uses: seq<Use>, p: Use -> bool, k: nat)
    requires k < |uses|
    ensures p(uses[k]) ==> Only(uses[..k + 1], p) == Only(uses[..k], p) + [uses[k]]
    ensures !p(uses[k]) ==> Only(uses[..k + 1], p) == Only(uses[..k], p)
  {
    if k == 0 {
      assert uses[..1] == [uses[0]] && uses[..0] == [];
    } else {
      OnlyNext(uses[1..], p, k - 1);
      assert uses[..k + 1][1..] == uses[1..][..k] && uses[..k][1..] == uses[1..][..k - 1];
    }
  }

  /** The first `k` uses, sorted into those to keep and those to move. */
  ghost predicate Sorted(all: seq<Use>, k: nat, pred: Value -> bool, kept: seq<Use>, moved: seq<Use>) {
    k <= |all| && kept == Only(all[..k], Unchosen(pred)) && moved == Only(all[..k], Chosen(pred))
  }

  lemma Appended(a: seq<Use>, b: seq<Use>, e: Use)
    ensures (a + b) + [e] == a + (b + [e])
  {
  }

  lemma SortedNone(all: seq<Use>, pred: Value -> bool)
    ensures Sorted(all, 0, pred, [], []) && all[0..] == all
  {
  }

  lemma SortedNext(all: seq<Use>, k: nat, pred: Value -> bool, kept: seq<Use>, moved: seq<Use>)
    requires k < |all| && Sorted(all, k, pred, kept, moved)
    ensures var e, list := all[k], kept + all[k..];
      && e in all && list[|kept|] == e
      && (pred(e.user) ==> Sorted(all, k + 1, pred, kept, moved + [e]))
      && (pred(e.user) ==> list[..|kept|] + list[|kept| + 1..] == kept + all[k + 1..])
      && (!pred(e.user) ==> Sorted(all, k + 1, pred, kept + [e], moved) && list == kept + [e] + all[k + 1..])
  {
    hide Only;
    OnlyNext(all, Chosen(pred), k);
    OnlyNext(all, Unchosen(pred), k);
  }

  lemma SortedAll(all: seq<Use>, k: nat, pred: Value -> bool, kept: seq<Use>, moved: seq<Use>)
    requires k <= |all| && |kept + all[k..]| <= |kept| && Sorted(all, k, pred, kept, moved)
    ensures kept == Only(all, Unchosen(pred)) && moved == Only(all, Chosen(pred)) && kept + all[k..] == kept
  {
    assert all[..k] == all;
  }

  lemma {:induction false} OnlyAll(uses: seq<Use>, p: Use -> bool)
    requires forall e {:trigger e in uses} :: e in uses ==> p(e)
    ensures Only(uses, p) == uses
  {
    if uses != [] {
      assert uses[0] in uses && forall e :: e in uses[1..] ==> e in uses;
      OnlyAll(uses[1..], p);
    }
  }

  lemma {:induction false} OnlyNone(uses: seq<Use>, p: Use -> bool)
    requires forall e {:trigger e in uses} :: e in uses ==> !p(e)
    ensures Only(uses, p) == []
  {
    if uses != [] {
      assert uses[0] in uses && forall e :: e in uses[1..] ==> e in uses;
      OnlyNone(uses[1..], p);
    }
  }

  lemma {:induction false} OnlyTwice(uses: seq<Use>, p: Use -> bool)
    ensures Only(Only(uses, p), p) == Only(uses, p)
  {
    if uses != [] {
      OnlyTwice(uses[1..], p);
    }
  }

  // ----- what each operation does to the graph -----

  function WithOperand(g: Graph, u: Value, i: nat, v: Value): Graph
    requires g.Has(u) && g.Has(v) && i < |g.ops[u]|
  {
    Graph(g.ops[u := g.ops[u][i := v]], g.uses[v := g.uses[v] + [Use(u, i)]])
  }

  function WithNewOperand(g: Graph, u: Value, v: Value): Graph
    requires g.Has(u) && g.Has(v)
  {
    Graph(g.ops[u := g.ops[u] + [v]], g.uses[v := g.uses[v] + [Use(u, |g.ops[u]|)]])
  }

  /** The listed uses are now uses of `y`; all other operands, and the use lists of all but `x` and `y`, are as
      before. */
  ghost predicate Replaced(g: Graph, g': Graph, x: Value, y: Value, moved: seq<Use>) {
    && g'.ops.Keys == g.ops.Keys && g'.uses.Keys == g.uses.Keys
    && (forall u {:trigger g'.ops[u]} {:trigger g.ops[u]} :: u in g.ops ==> |g'.ops[u]| == |g.ops[u]|)
    && (forall u, i {:trigger g'.ops[u][i]} :: u in g.ops && 0 <= i < |g.ops[u]| ==>
          g'.ops[u][i] == if Use(u, i) in moved then y else g.ops[u][i])
    && (forall z {:trigger g'.uses[z]} {:trigger g.uses[z]} ::
          z in g.uses && z != x && z != y ==> g'.uses[z] == g.uses[z])
  }

  /** Every use by `u` is struck from the use lists. */
  function WithoutUser(g: Graph, u: Value): Graph {
    Graph(g.ops, map x | x in g.uses :: Only(g.uses[x], NotBy(u)))
  }

  function Without(g: Graph, u: Value): Graph {
    Graph(g.ops - {u}, g.uses - {u})
  }

  lemma TimesAfter(g: Graph, u: Value, i: nat, v: Value, x: Value, y: Value, j: int)
    requires g.Has(u) && g.Has(v) && g.Has(x) && i < |g.ops[u]|
    ensures WithOperand(g, u, i, v).Times(x, y, j) == g.Times(x, y, j) + if x == v && y == u && j == i then 1 else 0
  {
  }

  /** Setting an operand keeps the two directions in step exactly when it had not been set before. */
  lemma SetOperandExact(g: Graph, u: Value, i: nat, v: Value)
    requires g.Mirrored() && g.Has(u) && g.Has(v) && i < |g.ops[u]|
    ensures WithOperand(g, u, i, v).Mirrored() <==> g.ops[u][i] == null
  {
    if g.ops[u][i] == null {
      FirstOperand(g, u, i, v);
    } else {
      var was := g.ops[u][i];
      assert g.Has(was) && g.Holds(u, i, was) && g.Times(was, u, i) == 1;
      TimesAfter(g, u, i, v, was, u, i);
      NotMirrored(WithOperand(g, u, i, v), was, u, i);
    }
  }

  lemma NotMirrored(g: Graph, x: Value, u: Value, i: int)
    requires g.Has(x) && g.Has(u) && g.Times(x, u, i) != if g.Holds(u, i, x) then 1 else 0
    ensures !g.Mirrored()
  {
  }

  lemma FirstOperand(g: Graph, u: Value, i: nat, v: Value)
    requires g.Mirrored() && g.Has(u) && g.Has(v) && i < |g.ops[u]| && g.ops[u][i] == null
    ensures WithOperand(g, u, i, v).Mirrored()
  {
    var g' := WithOperand(g, u, i, v);
    forall x, y, j | x in g'.uses && y in g'.ops && g'.Has(x) && g'.Has(y)
      ensures g'.Times(x, y, j) == if g'.Holds(y, j, x) then 1 else 0
    {
      TimesAfter(g, u, i, v, x, y, j);
      assert g.Times(x, y, j) == if g.Holds(y, j, x) then 1 else 0;
    }
  }

  lemma AddOperandMirrored(g: Graph, u: Value, v: Value)
    requires g.Mirrored() && g.Has(u) && g.Has(v)
    ensures WithNewOperand(g, u, v).Mirrored()
  {
    var g' := WithNewOperand(g, u, v);
    forall x, y, j | g.Has(x) && g.Has(y)
      ensures g'.Times(x, y, j) == if g'.Holds(y, j, x) then 1 else 0
    {
      assert g.Times(x, y, j) == if g.Holds(y, j, x) then 1 else 0;
    }
  }

  /** A listed use is held by its user. */
  lemma UseHeld(g: Graph, x: Value, e: Use)
    requires g.Mirrored() && g.Has(x) && e in g.uses[x]
    ensures g.Has(e.user) && g.Holds(e.user, e.argNo, x)
  {
    assert g.Times(x, e.user, e.argNo) >= 1;
  }

  lemma HeldListed(g: Graph, u: Value, i: int, x: Value)
    requires g.Mirrored() && g.Has(u) && g.Has(x) && g.Holds(u, i, x)
    ensures Use(u, i) in g.uses[x]
  {
    assert g.Times(x, u, i) == 1;
  }

  /** Moving the uses that satisfy `p` from one value to another keeps the two directions in step. */
  lemma MoveMirrored(g: Graph, g': Graph, x: Value, y: Value, p: Use -> bool, q: Use -> bool)
    requires g.Mirrored() && g.Has(x) && g.Has(y) && x != y
    requires forall e {:trigger q(e)} :: q(e) <==> !p(e)
    requires Replaced(g, g', x, y, Only(g.uses[x], p))
    requires g'.uses[x] == Only(g.uses[x], q) && g'.uses[y] == g.uses[y] + Only(g.uses[x], p)
    ensures g'.Mirrored()
  {
    var moved := Only(g.uses[x], p);
    forall e
      ensures e in moved <==> e in g.uses[x] && p(e)
      ensures e in g'.uses[x] <==> e in g.uses[x] && q(e)
    {
      OnlyMembers(g.uses[x], p, e);
      OnlyMembers(g.uses[x], q, e);
    }
    forall z
      ensures (z in g'.ops <==> z in g.ops) && (z in g'.uses <==> z in g.uses)
    {
      assert (z in g'.ops <==> z in g'.ops.Keys) && (z in g'.uses <==> z in g'.uses.Keys);
    }
    forall z, u, i | g.Has(z) && g.Has(u)
      ensures g'.Times(z, u, i) == if g'.Holds(u, i, z) then 1 else 0
    {
      assert g.Times(z, u, i) == if g.Holds(u, i, z) then 1 else 0;
      assert g.Times(x, u, i) == if g.Holds(u, i, x) then 1 else 0;
      OnlyCount(g.uses[x], p, Use(u, i));
      OnlyCount(g.uses[x], q, Use(u, i));
    }
  }

  lemma MoveChosenMirrored(g: Graph, g': Graph, x: Value, y: Value, pred: Value -> bool)
    requires g.Mirrored() && g.Has(x) && g.Has(y) && x != y
    requires Replaced(g, g', x, y, Only(g.uses[x], Chosen(pred)))
    requires g'.Has(x) && g'.uses[x] == Only(g.uses[x], Unchosen(pred))
    requires g'.Has(y) && g'.uses[y] == g.uses[y] + Only(g.uses[x], Chosen(pred))
    ensures g'.Mirrored()
  {
    hide Only, Replaced, Graph.Mirrored;
    MoveMirrored(g, g', x, y, Chosen(pred), Unchosen(pred));
  }

  /** Walking the use list of `x` replaces it wherever it is an operand, and nothing else. */
  lemma ReplacedEverywhere(g: Graph, g': Graph, x: Value, y: Value)
    requires g.Mirrored() && g.Has(x) && Replaced(g, g', x, y, g.uses[x])
    ensures forall u, i {:trigger g'.ops[u][i]} :: u in g.ops && 0 <= i < |g.ops[u]| ==>
      u in g'.ops && i < |g'.ops[u]| && g'.ops[u][i] == if g.ops[u][i] == x then y else g.ops[u][i]
  {
    forall u, i | u in g.ops && 0 <= i < |g.ops[u]|
      ensures Use(u, i) in g.uses[x] <==> g.ops[u][i] == x
    {
      assert g.Times(x, u, i) == if g.Holds(u, i, x) then 1 else 0;
    }
  }

  lemma MoveAllMirrored(g: Graph, g': Graph, x: Value, y: Value)
    requires g.Mirrored() && g.Has(x) && g.Has(y) && x != y
    requires Replaced(g, g', x, y, g.uses[x])
    requires g'.uses[x] == [] && g'.uses[y] == g.uses[y] + g.uses[x]
    ensures g'.Mirrored()
  {
    OnlyAll(g.uses[x], Chosen(_ => true));
    OnlyNone(g.uses[x], Unchosen(_ => true));
    MoveMirrored(g, g', x, y, Chosen(_ => true), Unchosen(_ => true));
  }

  lemma OperandLive(g: Graph, u: Value, k: nat)
    requires g.Mirrored() && g.Has(u) && k < |g.ops[u]| && g.ops[u][k] != null
    ensures g.Has(g.ops[u][k])
  {
  }

  /** No list but those of its operands names a user. */
  lemma NeverUsed(g: Graph, u: Value, x: Value)
    requires g.Mirrored() && g.Has(u) && g.Has(x) && x !in g.ops[u]
    ensures Only(g.uses[x], NotBy(u)) == g.uses[x]
  {
    forall e | e in g.uses[x]
      ensures e.user != u
    {
      UseHeld(g, x, e);
    }
    OnlyAll(g.uses[x], NotBy(u));
  }

  /** Once its operands have forgotten it, a value can go exactly when nothing else uses it. */
  lemma ForgottenMirrored(g: Graph, u: Value)
    requires g.Mirrored() && g.Has(u)
    ensures Without(WithoutUser(g, u), u).Mirrored() <==> forall e {:trigger e in g.uses[u]} ::
      e in g.uses[u] ==> e.user == u
  {
    if e :| e in g.uses[u] && e.user != u {
      var g' := Without(WithoutUser(g, u), u);
      UseHeld(g, u, e);
      assert g'.ops[e.user][e.argNo] == u && !g'.Has(u);
    } else {
      UnusedMirrored(g, u);
    }
  }

  lemma UnusedMirrored(g: Graph, u: Value)
    requires g.Mirrored() && g.Has(u) && forall e {:trigger e in g.uses[u]} :: e in g.uses[u] ==> e.user == u
    ensures Without(WithoutUser(g, u), u).Mirrored()
  {
    hide Only;
    var g' := Without(WithoutUser(g, u), u);
    forall x, e | x in g'.uses
      ensures e in g'.uses[x] <==> e in g.uses[x] && e.user != u
    {
      OnlyMembers(g.uses[x], NotBy(u), e);
    }
    forall v, i | v in g'.ops && 0 <= i < |g'.ops[v]| && g'.ops[v][i] != null
      ensures g'.Has(g'.ops[v][i])
    {
      assert g.ops[v][i] != null && g.Has(g.ops[v][i]);
      if g.Holds(v, i, u) {
        HeldListed(g, v, i, u);
      }
    }
    forall x, v, i | g'.Has(x) && g'.Has(v)
      ensures g'.Times(x, v, i) == if g'.Holds(v, i, x) then 1 else 0
    {
      assert g.Times(x, v, i) == if g.Holds(v, i, x) then 1 else 0;
      OnlyCount(g.uses[x], NotBy(u), Use(v, i));
    }
  }

  // ----- the operations -----

  ghost predicate Sized(live: set<Value>)
    reads live
  {
    forall u {:trigger u.numOps} :: u in live ==> u.numOps == |u.operands|
  }

  ghost function Snap(live: set<Value>): Graph
    reads live
  {
    Graph(map u | u in live :: u.operands, map u | u in live :: u.useList)
  }

  lemma SnapAt(live: set<Value>, x: Value)
    requires x in live
    ensures Snap(live).Has(x) && Snap(live).uses[x] == x.useList && Snap(live).ops.Keys == live
  {
  }

  /** A value; one that uses no others has no operands. */
  class Value {
    var useList: seq<Use>
    var operands: seq<Value?>
    var numOps: nat

    /** A value with the given number of operands, none of them set. */
    constructor (numOps: nat)
      ensures useList == [] && this.numOps == numOps && operands == seq(numOps, _ => null)
    {
      useList, operands := [], seq(numOps, _ => null);
      this.numOps := numOps;
    }

    method AddUse(user: Value, argNo: int)
      modifies `useList
      ensures useList == old(useList) + [Use(user, argNo)]
    {
      useList := useList + [Use(user, argNo)];
    }

    /** Drops every use by the user, whatever the operand. */
    method RemoveUse(user: Value)
      modifies `useList
      ensures useList == Only(old(useList), NotBy(user))
    {
      var kept := [];
      for k := 0 to |useList|
        invariant useList == old(useList) && kept == Only(useList[..k], NotBy(user))
      {
        OnlyNext(useList, NotBy(user), k);
        if useList[k].user != user {
          kept := kept + [useList[k]];
        }
      }
      assert useList[..|useList|] == useList;
      useList := kept;
    }

    method SetOperand(i: nat, v: Value, ghost live: set<Value>)
      requires Sized(live) && this in live && v in live && i < numOps
      modifies `operands, v`useList
      ensures Sized(live) && Snap(live) == WithOperand(old(Snap(live)), this, i, v)
    {
      ghost var g := Snap(live);
      PutOperand(i, v, live);
      v.AddUse(this, i);
      assert Snap(live).uses == g.uses[v := g.uses[v] + [Use(this, i)]];
    }

    method PutOperand(i: nat, v: Value, ghost live: set<Value>)
      requires Sized(live) && this in live && i < numOps
      modifies `operands
      ensures Sized(live)
      ensures Snap(live) == Graph(old(Snap(live)).ops[this := old(operands)[i := v]], old(Snap(live)).uses)
    {
      operands := operands[i := v];
    }

    method AddOperand(v: Value, ghost live: set<Value>)
      requires Sized(live) && this in live && v in live
      modifies `operands, `numOps, v`useList
      ensures Sized(live) && Snap(live) == WithNewOperand(old(Snap(live)), this, v)
    {
      ghost var g := Snap(live);
      AppendOperand(v, live);
      v.AddUse(this, numOps - 1);
      assert Snap(live).uses == g.uses[v := g.uses[v] + [Use(this, |g.ops[this]|)]];
    }

    method AppendOperand(v: Value, ghost live: set<Value>)
      requires Sized(live) && this in live
      modifies `operands, `numOps
      ensures Sized(live) && numOps == old(numOps) + 1
      ensures Snap(live) == Graph(old(Snap(live)).ops[this := old(operands) + [v]], old(Snap(live)).uses)
    {
      operands, numOps := operands + [v], numOps + 1;
    }

    method SetUseList(uses: seq<Use>, ghost live: set<Value>)
      requires Sized(live) && this in live
      modifies `useList
      ensures Sized(live) && Snap(live) == Graph(old(Snap(live)).ops, old(Snap(live)).uses[this := uses])
    {
      useList := uses;
    }

    /** Hands all uses over to another value. */
    method ReplaceAllUseWith(newVal: Value, ghost live: set<Value>)
      requires Sized(live) && Snap(live).Mirrored() && this in live && newVal in live && newVal != this
      modifies live
      ensures Sized(live) && Snap(live).Mirrored()
      ensures useList == [] && newVal.useList == old(newVal.useList) + old(useList)
      ensures Replaced(old(Snap(live)), Snap(live), this, newVal, old(useList))
    {
      hide Graph.Mirrored, Replaced, WithOperand;
      ghost var g := Snap(live);
      HandOverAll(newVal, live);
      ghost var h := Snap(live);
      SetUseList([], live);
      ReplacedSame(g, h, Snap(live), this, newVal, old(useList));
      MoveAllMirrored(g, Snap(live), this, newVal);
    }

    /** Every use of this value becomes a use of the other; the list of this value is still to be emptied. */
    method HandOverAll(newVal: Value, ghost live: set<Value>)
      requires Sized(live) && Snap(live).Mirrored() && this in live && newVal in live && newVal != this
      modifies live
      ensures Sized(live) && useList == old(useList) && newVal.useList == old(newVal.useList) + useList
      ensures Replaced(old(Snap(live)), Snap(live), this, newVal, useList)
    {
      hide Graph.Mirrored, Replaced, WithOperand;
      ghost var g := Snap(live);
      ReplacedNone(g, this, newVal);
      for k := 0 to |useList|
        invariant Sized(live) && useList == old(useList) && newVal.useList == old(newVal.useList) + useList[..k]
        invariant Replaced(g, Snap(live), this, newVal, useList[..k])
      {
        var e := useList[k];
        UseHeld(g, this, e);
        assert useList[..k + 1] == useList[..k] + [e];
        HandOver(e, newVal, live, g, useList[..k]);
      }
      assert useList[..|useList|] == useList;
    }

    /** One use of this value becomes a use of the other. */
    method HandOver(e: Use, newVal: Value, ghost live: set<Value>, ghost g: Graph, ghost moved: seq<Use>)
      requires Sized(live) && this in live && newVal in live && newVal != this && e.user in live
      requires g.Has(e.user) && 0 <= e.argNo < |g.ops[e.user]| && Replaced(g, Snap(live), this, newVal, moved)
      modifies e.user`operands, newVal`useList
      ensures Sized(live) && newVal.useList == old(newVal.useList) + [e]
      ensures Replaced(g, Snap(live), this, newVal, moved + [e])
    {
      hide Replaced;
      ghost var before := Snap(live);
      SameShape(g, before, this, newVal, moved, e.user);
      e.user.SetOperand(e.argNo, newVal, live);
      assert Snap(live).uses[newVal] == before.uses[newVal] + [e];
      ReplacedStep(g, before, Snap(live), this, newVal, moved, e);
    }

    /** Hands the uses by the chosen users over to another value. */
    method ReplaceUseWithWhen(newVal: Value, pred: Value -> bool, ghost live: set<Value>)
      requires Sized(live) && Snap(live).Mirrored() && this in live && newVal in live && newVal != this
      modifies live
      ensures Sized(live) && Snap(live).Mirrored()
      ensures useList == Only(old(useList), Unchosen(pred))
      ensures newVal.useList == old(newVal.useList) + Only(old(useList), Chosen(pred))
      ensures Replaced(old(Snap(live)), Snap(live), this, newVal, Only(old(useList), Chosen(pred)))
    {
      hide Only, Replaced, Graph.Mirrored, Chosen, Unchosen, Sorted, Snap;
      ghost var g, all := Snap(live), useList;
      SnapAt(live, this);
      SnapAt(live, newVal);
      ghost var k, kept, moved := 0, [], [];
      var it := 0;
      SortedNone(all, pred);
      ReplacedNone(g, this, newVal);
      while it < |useList|
        invariant 0 <= k <= |all| && it == |kept| && useList == kept + all[k..] && Sorted(all, k, pred, kept, moved)
        invariant Sized(live) && Replaced(g, Snap(live), this, newVal, moved)
        invariant newVal.useList == old(newVal.useList) + moved
        decreases |all| - k
      {
        var e := useList[it];
        SortedNext(all, k, pred, kept, moved);
        UseHeld(g, this, e);
        assert e.user in g.ops.Keys;
        if pred(e.user) {
          TakeOver(it, e, newVal, live, g, moved);
          Appended(old(newVal.useList), moved, e);
          moved := moved + [e];
        } else {
          it, kept := it + 1, kept + [e];
        }
        k := k + 1;
      }
      SortedAll(all, k, pred, kept, moved);
      SnapAt(live, this);
      SnapAt(live, newVal);
      MoveChosenMirrored(g, Snap(live), this, newVal, pred);
    }

    /** The use in hand becomes a use of the other value and leaves the list. */
    method TakeOver(it: nat, e: Use, newVal: Value, ghost live: set<Value>, ghost g: Graph, ghost moved: seq<Use>)
      requires Sized(live) && this in live && newVal in live && newVal != this && e.user in live && it < |useList|
      requires g.Has(e.user) && 0 <= e.argNo < |g.ops[e.user]| && Replaced(g, Snap(live), this, newVal, moved)
      modifies e.user`operands, newVal`useList, `useList
      ensures Sized(live) && newVal.useList == old(newVal.useList) + [e]
      ensures useList == old(useList)[..it] + old(useList)[it + 1..]
      ensures Replaced(g, Snap(live), this, newVal, moved + [e])
    {
      hide Replaced;
      HandOver(e, newVal, live, g, moved);
      ghost var h := Snap(live);
      SetUseList(useList[..it] + useList[it + 1..], live);
      ReplacedSame(g, h, Snap(live), this, newVal, moved + [e]);
    }

    /** Drops this user from the use lists of its operands. */
    method RemoveUseOfOps(ghost live: set<Value>)
      requires Snap(live).Mirrored() && this in live && forall i :: 0 <= i < |operands| ==> operands[i] != null
      modifies live`useList
      ensures Snap(live) == WithoutUser(old(Snap(live)), this)
    {
      hide Graph.Mirrored, Only;
      ghost var g := Snap(live);
      ForgetAtOperands(live);
      forall x | x in live
        ensures x.useList == Only(old(x.useList), NotBy(this))
      {
        if x !in operands {
          NeverUsed(g, this, x);
        }
      }
    }

    /** Each operand forgets this user; the other values are as they were. */
    method ForgetAtOperands(ghost live: set<Value>)
      requires Snap(live).Mirrored() && this in live && forall i :: 0 <= i < |operands| ==> operands[i] != null
      modifies live`useList
      ensures forall x {:trigger x.useList} :: x in live ==>
        x.useList == if x in operands then Only(old(x.useList), NotBy(this)) else old(x.useList)
    {
      hide Graph.Mirrored, Only, NotBy;
      ghost var g := Snap(live);
      for k := 0 to |operands|
        invariant forall x {:trigger x.useList} :: x in live ==>
          x.useList == if x in operands[..k] then Only(old(x.useList), NotBy(this)) else old(x.useList)
      {
        var op := operands[k];
        OperandLive(g, this, k);
        OnlyTwice(old(op.useList), NotBy(this));
        op.RemoveUse(this);
        assert operands[..k + 1] == operands[..k] + [op];
      }
      assert operands[..|operands|] == operands;
    }
  }

  lemma ReplacedNone(g: Graph, x: Value, y: Value)
    ensures Replaced(g, g, x, y, [])
  {
  }

  lemma ReplacedSame(g: Graph, h: Graph, h': Graph, x: Value, y: Value, moved: seq<Use>)
    requires Replaced(g, h, x, y, moved) && x in h.uses && x in h'.uses && h'.ops == h.ops
    requires h'.uses == h.uses[x := h'.uses[x]]
    ensures Replaced(g, h', x, y, moved)
  {
    forall z
      ensures z in h'.uses <==> z in g.uses
    {
      assert (z in h.uses <==> z in h.uses.Keys) && (z in g.uses <==> z in g.uses.Keys);
    }
    assert h'.uses.Keys == g.uses.Keys;
  }

  lemma SameShape(g: Graph, h: Graph, x: Value, y: Value, moved: seq<Use>, u: Value)
    requires Replaced(g, h, x, y, moved) && g.Has(u)
    ensures h.Has(u) && |h.ops[u]| == |g.ops[u]|
  {
    assert u in h.ops.Keys && u in h.uses.Keys;
  }

  /** One more use has been moved. */
  lemma ReplacedStep(g: Graph, h: Graph, h': Graph, x: Value, y: Value, moved: seq<Use>, e: Use)
    requires Replaced(g, h, x, y, moved) && h.Has(e.user) && h.Has(y) && 0 <= e.argNo < |h.ops[e.user]|
    requires h'.ops == WithOperand(h, e.user, e.argNo, y).ops && h'.uses.Keys == h.uses.Keys
    requires forall z {:trigger h'.uses[z]} :: z in h.uses && z != x && z != y ==> h'.uses[z] == h.uses[z]
    ensures Replaced(g, h', x, y, moved + [e])
  {
    forall z
      ensures (z in h.ops <==> z in g.ops) && (z in h.uses <==> z in g.uses) && (z in h'.ops <==> z in g.ops)
      ensures (z in h'.uses <==> z in g.uses)
    {
      assert (z in h.ops <==> z in h.ops.Keys) && (z in h.uses <==> z in h.uses.Keys)
          && (z in h'.uses <==> z in h'.uses.Keys);
    }
    assert h'.ops.Keys == g.ops.Keys;
  }

  /** The instructions of a block. */
  class BasicBlock {
    var instrList: seq<Value>

    constructor ()
      ensures instrList == []
    {
      instrList := [];
    }

    /** Erases an instruction.  What is left is in step exactly when nothing else used it. */
    method EraseInstr(instr: Value, ghost live: set<Value>)
      requires Snap(live).Mirrored() && instr in live && forall i ::
        0 <= i < |instr.operands| ==> instr.operands[i] != null
      requires instr in instrList && forall j, k :: 0 <= j < k < |instrList| ==> instrList[j] != instrList[k]
      modifies live`useList, this
      ensures Snap(live) == WithoutUser(old(Snap(live)), instr)
      ensures Snap(live - {instr}).Mirrored() <==> forall e {:trigger e in old(instr.useList)} ::
        e in old(instr.useList) ==> e.user == instr
      ensures instr !in instrList
      ensures exists k :: 0 <= k < |old(instrList)| && instrList == old(instrList)[..k] + old(instrList)[k + 1..]
    {
      hide Graph.Mirrored, Only, WithoutUser, Without;
      ghost var g := Snap(live);
      instr.RemoveUseOfOps(live);
      ForgottenMirrored(g, instr);
      SnapWithout(live, instr);
      Erase(instr);
    }

    /** Unlinks an instruction from the list. */
    method Erase(instr: Value)
      requires instr in instrList && forall j, k :: 0 <= j < k < |instrList| ==> instrList[j] != instrList[k]
      modifies this
      ensures instr !in instrList
      ensures exists k :: 0 <= k < |old(instrList)| && instrList == old(instrList)[..k] + old(instrList)[k + 1..]
    {
      var k := 0;
      while instrList[k] != instr
        invariant 0 <= k < |instrList| && instrList == old(instrList)
        invariant forall j :: 0 <= j < k ==> instrList[j] != instr
        decreases |instrList| - k
      {
        k := k + 1;
      }
      instrList := instrList[..k] + instrList[k + 1..];
    }
  }

  lemma SnapWithout(live: set<Value>, u: Value)
    ensures Snap(live - {u}) == Without(Snap(live), u)
  {
  }
}
