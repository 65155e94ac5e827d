/** What it means to promote stack slots to values: which value a slot holds at each point of the
    program, given where phis stand, and what the rewritten program looks like. */
module Promotion {
  import opened ControlFlow
  import opened DominatorTree
  import opened IR

  /** A function with its dominator tree and the phis placed in it: `phi[(b, v)]` is the identity of the
      phi for slot `v` that heads block `b`. */
  datatype Ctx = Ctx(g: Cfg, t: Tree, code: map<Block, seq<Instr>>, phi: map<(Block, Var), Id>)

  /** The tree spans the reachable blocks and the idom of a block is above each of its predecessors. */
  ghost predicate Spans(c: Ctx) {
    && c.g.Valid()
    && c.t.Valid()
    && c.t.root == c.g.Entry()
    && (forall b {:trigger c.code[b]} {:trigger b in c.t.parent} :: b in c.t.parent ==> b in c.code)
    && (forall p, s {:trigger c.g.Edge(p, s)} :: c.g.Edge(p, s) && p in c.t.parent ==>
          s in c.t.parent && s != c.t.root && c.t.OnChain(c.t.parent[s], p))
  }

  predicate StoresSlot(i: Instr, v: Var) {
    i.Store? && i.ptr == Slot(v)
  }

  predicate StoresIn(code: map<Block, seq<Instr>>, b: Block, v: Var) {
    b in code && exists k :: 0 <= k < |code[b]| && StoresSlot(code[b][k], v)
  }

  /** `b` gives `v` a new value: it stores to it or has a phi for it. */
  ghost predicate Defines(c: Ctx, b: Block, v: Var) {
    StoresIn(c.code, b, v) || (b, v) in c.phi
  }

  /** Phis stand wherever definitions meet: if a runner from a predecessor of `s` passes a definition of
      `v` below the idom of `s`, then `s` has a phi for `v`. */
  ghost predicate Closed(c: Ctx)
    requires Spans(c)
  {
    forall d, p, s, v {:trigger c.g.Edge(p, s), Defines(c, d, v)} ::
      c.g.Edge(p, s) && p in c.t.parent && c.t.OnChain(d, p) && !c.t.OnChain(d, c.t.parent[s]) && Defines(c, d, v)
      ==> (s, v) in c.phi
  }

  // ----- the value of a slot -----

  /** The value of `v` before instruction `i` of block `b`: the last one stored, or what enters the block. */
  ghost function Value(c: Ctx, sigma: map<Id, Operand>, b: Block, i: nat, v: Var): Option<Operand>
    requires Spans(c) && b in c.t.parent && i <= |c.code[b]|
    decreases c.t.rank[c.t.root] - c.t.rank[b], i, 1
  {
    if i == 0 then Incoming(c, sigma, b, v)
    else if StoresSlot(c.code[b][i - 1], v) then Some(Resolve(sigma, c.code[b][i - 1].rval))
    else Value(c, sigma, b, i - 1, v)
  }

  /** The value of `v` on entry: its phi, or what leaves the idom. */
  ghost function Incoming(c: Ctx, sigma: map<Id, Operand>, b: Block, v: Var): Option<Operand>
    requires Spans(c) && b in c.t.parent
    decreases c.t.rank[c.t.root] - c.t.rank[b], 0, 0
  {
    if (b, v) in c.phi then Some(Reg(c.phi[(b, v)]))
    else if b == c.t.root then None
    else Outgoing(c, sigma, c.t.parent[b], v)
  }

  ghost function Outgoing(c: Ctx, sigma: map<Id, Operand>, b: Block, v: Var): Option<Operand>
    requires Spans(c) && b in c.t.parent
    decreases c.t.rank[c.t.root] - c.t.rank[b], |c.code[b]|, 2
  {
    Value(c, sigma, b, |c.code[b]|, v)
  }

  lemma {:induction false} NoStoreKeepsValue(c: Ctx, sigma: map<Id, Operand>, b: Block, i: nat, v: Var)
    requires Spans(c) && b in c.t.parent && i <= |c.code[b]| && !StoresIn(c.code, b, v)
    ensures Value(c, sigma, b, i, v) == Incoming(c, sigma, b, v)
  {
    if i > 0 {
      NoStoreKeepsValue(c, sigma, b, i - 1, v);
    }
  }

  /** From a predecessor of `s` up to the idom of `s` no block changes a slot for which `s` has no phi. */
  lemma {:induction false} ClimbToIdom(c: Ctx, sigma: map<Id, Operand>, p: Block, s: Block, x: Block, v: Var)
    requires Spans(c) && Closed(c) && c.g.Edge(p, s) && p in c.t.parent && (s, v) !in c.phi
    requires x in c.t.parent && c.t.OnChain(x, p) && c.t.OnChain(c.t.parent[s], x)
    ensures Outgoing(c, sigma, x, v) == Outgoing(c, sigma, c.t.parent[s], v)
    decreases c.t.rank[c.t.root] - c.t.rank[x]
  {
    var top := c.t.parent[s];
    if x != top {
      if c.t.OnChain(x, top) {
        ChainFacts(c.t, x, top);
        ChainFacts(c.t, top, x);
      }
      assert !Defines(c, x, v);
      NoStoreKeepsValue(c, sigma, x, |c.code[x]|, v);
      assert c.t.OnChain(c.t.parent[x], x);
      ChainTrans(c.t, c.t.parent[x], x, p);
      ClimbToIdom(c, sigma, p, s, c.t.parent[x], v);
    }
  }

  /** Placement: without a phi for `v` in `s`, the value that leaves any predecessor of `s` is the one
      that leaves the idom of `s`, and so the one that enters `s`. */
  lemma {:induction false} PlacementSufficient(c: Ctx, sigma: map<Id, Operand>, p: Block, s: Block, v: Var)
    requires Spans(c) && Closed(c) && c.g.Edge(p, s) && p in c.t.parent && (s, v) !in c.phi
    ensures Outgoing(c, sigma, p, v) == Incoming(c, sigma, s, v)
  {
    ClimbToIdom(c, sigma, p, s, p, v);
  }

  // ----- identities and def-before-use -----

  /** Where each identity belongs: `at[id]` is the block and position of an instruction, `phiAt[id]` the
      block and slot of a phi. */
  datatype Names = Names(at: map<Id, (Block, int)>, phiAt: map<Id, (Block, Var)>)

  ghost predicate Named(c: Ctx, n: Names) {
    && (forall b, k {:trigger c.code[b][k]} :: b in c.code && 0 <= k < |c.code[b]| ==>
          c.code[b][k].id in n.at && n.at[c.code[b][k].id] == (b, k))
    && (forall id {:trigger n.at[id]} :: id in n.at ==>
          n.at[id].0 in c.code && 0 <= n.at[id].1 < |c.code[n.at[id].0]| && c.code[n.at[id].0][n.at[id].1].id == id)
    && (forall b, v {:trigger c.phi[(b, v)]} :: (b, v) in c.phi ==>
          c.phi[(b, v)] in n.phiAt && n.phiAt[c.phi[(b, v)]] == (b, v))
    && n.at.Keys !! n.phiAt.Keys
  }

  /** The instruction that an identity names. */
  function InstrOf(c: Ctx, n: Names, id: Id): Instr
    requires id in n.at && n.at[id].0 in c.code && 0 <= n.at[id].1 < |c.code[n.at[id].0]|
  {
    c.code[n.at[id].0][n.at[id].1]
  }

  predicate IsSlotLoad(i: Instr) {
    i.Load? && i.ptr.Slot?
  }

  /** Position `j` of block `d` comes before position `k` of block `b` on every path. */
  ghost predicate Before(c: Ctx, d: Block, j: int, b: Block, k: int)
    requires Spans(c)
  {
    c.t.OnChain(d, b) && (d == b ==> j < k)
  }

  lemma BeforeTrans(c: Ctx, d: Block, j: int, b: Block, k: int, a: Block, m: int)
    requires Spans(c) && Before(c, d, j, b, k) && Before(c, b, k, a, m)
    ensures Before(c, d, j, a, m)
  {
    ChainTrans(c.t, d, b, a);
    if d == a {
      ChainFacts(c.t, d, b);
      ChainFacts(c.t, b, a);
    }
  }

  /** The instruction's result can be named by the operand. */
  predicate ClassFits(o: Operand, i: Instr) {
    (o.Elem? ==> i.Gep?) && (o.Reg? ==> i.Load? || i.Op? || i.Call?)
  }

  ghost predicate UseOk(c: Ctx, n: Names, o: Operand, b: Block, k: int)
    requires Spans(c) && Named(c, n)
  {
    o.Reg? || o.Elem? ==>
      o.id in n.at && ClassFits(o, InstrOf(c, n, o.id)) && Before(c, n.at[o.id].0, n.at[o.id].1, b, k)
  }

  /** In reachable blocks every use is dominated by its definition. */
  ghost predicate UsesDominated(c: Ctx, n: Names)
    requires Spans(c) && Named(c, n)
  {
    forall b, k, o {:trigger o in c.code[b][k].Operands()} ::
      b in c.t.parent && 0 <= k < |c.code[b]| && o in c.code[b][k].Operands() ==> UseOk(c, n, o, b, k)
  }

  /** Loads and stores address a slot, a global or an element. */
  ghost predicate Addressed(c: Ctx) {
    forall b, k {:trigger c.code[b][k]} ::
      b in c.code && 0 <= k < |c.code[b]| && (c.code[b][k].Load? || c.code[b][k].Store?) ==>
      c.code[b][k].ptr.Slot? || c.code[b][k].ptr.Global? || c.code[b][k].ptr.Elem?
  }

  ghost predicate Wellformed(c: Ctx, n: Names) {
    Spans(c) && Closed(c) && Named(c, n) && UsesDominated(c, n) && Addressed(c)
  }

  /** `sigma` replaces loads of slots only. */
  ghost predicate OnlyLoads(c: Ctx, n: Names, sigma: map<Id, Operand>)
    requires Named(c, n)
  {
    forall id {:trigger id in sigma} :: id in sigma ==> id in n.at && IsSlotLoad(InstrOf(c, n, id))
  }

  /** `sigma` replaces the load by the value of its slot there. */
  ghost predicate Replaced(c: Ctx, sigma: map<Id, Operand>, d: Block, j: int)
    requires Spans(c) && d in c.t.parent && 0 <= j < |c.code[d]| && IsSlotLoad(c.code[d][j])
  {
    && c.code[d][j].id in sigma
    && Value(c, sigma, d, j, c.code[d][j].ptr.v) == Some(sigma[c.code[d][j].id])
  }

  /** Every load of a slot that comes before position `k` of `b` is replaced. */
  ghost predicate Resolved(c: Ctx, sigma: map<Id, Operand>, b: Block, k: int)
    requires Spans(c)
  {
    forall d, j {:trigger c.code[d][j]} ::
      d in c.t.parent && 0 <= j < |c.code[d]| && IsSlotLoad(c.code[d][j]) && Before(c, d, j, b, k) ==>
        Replaced(c, sigma, d, j)
  }

  lemma ResolvedEarlier(c: Ctx, sigma: map<Id, Operand>, d: Block, j: int, b: Block, k: int)
    requires Spans(c) && Resolved(c, sigma, b, k) && Before(c, d, j, b, k)
    ensures Resolved(c, sigma, d, j)
  {
    forall e, m | e in c.t.parent && 0 <= m < |c.code[e]| && IsSlotLoad(c.code[e][m]) && Before(c, e, m, d, j)
      ensures Replaced(c, sigma, e, m)
    {
      BeforeTrans(c, e, m, d, j, b, k);
    }
  }

  /** The operand stands for a value that exists at position `k` of `b`, and not for an access of a slot. */
  ghost predicate Available(c: Ctx, n: Names, o: Operand, b: Block, k: int)
    requires Spans(c) && Named(c, n)
  {
    o.Reg? || o.Elem? ==>
      || (o.id in n.at && !InstrOf(c, n, o.id).IsSlotAccess() && Before(c, n.at[o.id].0, n.at[o.id].1, b, k))
      || (o.id in n.phiAt && c.t.OnChain(n.phiAt[o.id].0, b))
  }

  lemma AvailableLater(c: Ctx, n: Names, o: Operand, d: Block, j: int, b: Block, k: int)
    requires Spans(c) && Named(c, n) && Available(c, n, o, d, j)
    requires c.t.OnChain(d, b) && (d == b ==> j <= k)
    ensures Available(c, n, o, b, k)
  {
    if (o.Reg? || o.Elem?) && o.id in n.at && Before(c, n.at[o.id].0, n.at[o.id].1, d, j) {
      var e := n.at[o.id].0;
      ChainTrans(c.t, e, d, b);
      if e == b {
        ChainFacts(c.t, e, d);
        ChainFacts(c.t, d, b);
      }
    } else if o.Reg? || o.Elem? {
      ChainTrans(c.t, n.phiAt[o.id].0, d, b);
    }
  }

  /** Using a dominated operand after replacement: the replacement is available at the use. */
  lemma {:induction false} ResolveAvailable(c: Ctx, n: Names, sigma: map<Id, Operand>, o: Operand, b: Block, k: nat)
    requires Wellformed(c, n) && OnlyLoads(c, n, sigma) && b in c.t.parent && k <= |c.code[b]|
    requires UseOk(c, n, o, b, k) && Resolved(c, sigma, b, k)
    ensures Available(c, n, Resolve(sigma, o), b, k)
    decreases c.t.rank[c.t.root] - c.t.rank[b], k, 0
  {
    if o.Reg? {
      var d, j := n.at[o.id].0, n.at[o.id].1;
      ChainFacts(c.t, d, b);
      assert c.code[d][j] == InstrOf(c, n, o.id);
      if IsSlotLoad(c.code[d][j]) {
        assert Replaced(c, sigma, d, j);
        ResolvedEarlier(c, sigma, d, j, b, k);
        ValueAvailable(c, n, sigma, d, j, c.code[d][j].ptr.v);
        AvailableLater(c, n, sigma[o.id], d, j, b, k);
      }
    }
  }

  /** The value of a slot at a point is available there; in particular it is never a load of a slot. */
  lemma {:induction false} ValueAvailable(c: Ctx, n: Names, sigma: map<Id, Operand>, b: Block, k: nat, v: Var)
    requires Wellformed(c, n) && OnlyLoads(c, n, sigma) && b in c.t.parent && k <= |c.code[b]|
    requires Resolved(c, sigma, b, k)
    ensures Value(c, sigma, b, k, v).Some? ==> Available(c, n, Value(c, sigma, b, k, v).value, b, k)
    decreases c.t.rank[c.t.root] - c.t.rank[b], k, 1
  {
    if k == 0 {
      if (b, v) !in c.phi && b != c.t.root {
        var p := c.t.parent[b];
        assert c.t.OnChain(p, b) && Before(c, p, |c.code[p]|, b, 0);
        ResolvedEarlier(c, sigma, p, |c.code[p]|, b, 0);
        ValueAvailable(c, n, sigma, p, |c.code[p]|, v);
        if Outgoing(c, sigma, p, v).Some? {
          AvailableLater(c, n, Outgoing(c, sigma, p, v).value, p, |c.code[p]|, b, 0);
        }
      } else if (b, v) in c.phi {
        assert c.t.OnChain(b, b);
      }
    } else {
      assert c.t.OnChain(b, b);
      ResolvedEarlier(c, sigma, b, k - 1, b, k);
      if StoresSlot(c.code[b][k - 1], v) {
        var r := c.code[b][k - 1].rval;
        assert r in c.code[b][k - 1].Operands();
        ResolveAvailable(c, n, sigma, r, b, k - 1);
        AvailableLater(c, n, Resolve(sigma, r), b, k - 1, b, k);
      } else {
        ValueAvailable(c, n, sigma, b, k - 1, v);
        if Value(c, sigma, b, k - 1, v).Some? {
          AvailableLater(c, n, Value(c, sigma, b, k - 1, v).value, b, k - 1, b, k);
        }
      }
    }
  }

  /** Replacing more loads does not change a value whose loads are already replaced. */
  lemma {:induction false} ValueStable(c: Ctx, n: Names, sigma: map<Id, Operand>, sigma': map<Id, Operand>,
                                       b: Block, k: nat, v: Var)
    requires Wellformed(c, n) && OnlyLoads(c, n, sigma') && b in c.t.parent && k <= |c.code[b]|
    requires Resolved(c, sigma, b, k)
    requires forall id {:trigger id in sigma} :: id in sigma ==> id in sigma' && sigma'[id] == sigma[id]
    ensures Value(c, sigma', b, k, v) == Value(c, sigma, b, k, v)
    decreases c.t.rank[c.t.root] - c.t.rank[b], k
  {
    if k == 0 {
      if (b, v) !in c.phi && b != c.t.root {
        var p := c.t.parent[b];
        assert c.t.OnChain(p, b) && Before(c, p, |c.code[p]|, b, 0);
        ResolvedEarlier(c, sigma, p, |c.code[p]|, b, 0);
        ValueStable(c, n, sigma, sigma', p, |c.code[p]|, v);
        assert Value(c, sigma', b, 0, v) == Incoming(c, sigma', b, v) == Outgoing(c, sigma', p, v);
        assert Value(c, sigma, b, 0, v) == Incoming(c, sigma, b, v) == Outgoing(c, sigma, p, v);
      }
    } else {
      assert c.t.OnChain(b, b);
      ResolvedEarlier(c, sigma, b, k - 1, b, k);
      ValueStable(c, n, sigma, sigma', b, k - 1, v);
      if StoresSlot(c.code[b][k - 1], v) {
        var r := c.code[b][k - 1].rval;
        assert r in c.code[b][k - 1].Operands();
        assert UseOk(c, n, r, b, k - 1);
        if r.Reg? && r.id in sigma' {
          var d, j := n.at[r.id].0, n.at[r.id].1;
          ChainFacts(c.t, d, b);
          assert c.code[d][j] == InstrOf(c, n, r.id);
          assert Replaced(c, sigma, d, j);
        }
      }
    }
  }
}
