/** Consequences of promotion: where definitions cannot be, a simple condition under which renaming never misses a
    value, and the exact one. */
module PromotionResult {
  import opened ControlFlow
  import opened DominatorTree
  import opened IR
  import opened Promotion
  import opened PromotionSimulation
  import opened PhiInsertion
  import opened Renaming
  import opened Mem2RegPass

  // ----- placement, on paths -----

  /** A path in the graph, as the list of its blocks. */
  ghost predicate IsPath(g: Cfg, path: seq<Block>) {
    forall j {:trigger path[j]} :: 0 <= j < |path| - 1 ==> g.Edge(path[j], path[j + 1])
  }

  lemma PathStep(g: Cfg, path: seq<Block>, j: nat)
    requires IsPath(g, path) && j + 1 < |path|
    ensures g.Edge(path[j], path[j + 1])
  {
  }

  lemma {:induction false} PathInTree(c: Ctx, path: seq<Block>, j: nat)
    requires Spans(c) && IsPath(c.g, path) && j < |path| && path[0] in c.t.parent
    ensures path[j] in c.t.parent && (j > 0 ==> path[j] != c.t.root)
  {
    hide IsPath;
    if j > 0 {
      PathInTree(c, path, j - 1);
      PathStep(c.g, path, j - 1);
    }
  }

  /** If `q` is above the end of a path that avoids `q`, it is above every block of the path. */
  lemma {:induction false} AboveWholePath(c: Ctx, path: seq<Block>, q: Block, j: nat, k: nat)
    requires Spans(c) && IsPath(c.g, path) && path != [] && path[0] in c.t.parent && j <= k < |path|
    requires forall m {:trigger path[m]} :: j <= m <= k ==> path[m] != q
    requires c.t.OnChain(q, path[k])
    ensures c.t.OnChain(q, path[j])
    decreases k - j
  {
    hide IsPath;
    if j < k {
      PathInTree(c, path, k - 1);
      PathStep(c.g, path, k - 1);
      assert path[k] != q;
      PathInTree(c, path, k);
      ChainTrans(c.t, q, c.t.parent[path[k]], path[k - 1]);
      AboveWholePath(c, path, q, j, k - 1);
    }
  }

  /** A definition above the end of an edge is above the idom of the block it leads to, if there is no phi there. */
  lemma CarriedToIdom(c: Ctx, d: Block, p: Block, s: Block, v: Var)
    requires Spans(c) && Closed(c) && c.g.Edge(p, s) && p in c.t.parent && s in c.t.parent
    requires c.t.OnChain(d, p) && Defines(c, d, v) && (s, v) !in c.phi
    ensures c.t.OnChain(d, c.t.parent[s]) && c.t.OnChain(c.t.parent[s], p)
  {
    hide Defines;
  }

  lemma ParentKnown(c: Ctx, b: Block)
    requires Spans(c) && b in c.t.parent && b != c.t.root
    ensures c.t.Valid() && c.t.parent[b] in c.t.parent
  {
  }

  /** A definition on a path towards `b` is carried along by phis: just before the end some block of the
      path above the last one defines the slot. */
  lemma {:induction false} DefinitionCarried(c: Ctx, path: seq<Block>, v: Var, j: nat, k: nat) returns (m: nat)
    requires Spans(c) && Closed(c) && IsPath(c.g, path) && path != [] && path[0] in c.t.parent
    requires 0 < j <= k < |path| && Defines(c, path[j], v)
    ensures j <= m <= k && Defines(c, path[m], v) && c.t.OnChain(path[m], path[k])
    decreases k
  {
    hide IsPath;
    PathInTree(c, path, k);
    if j == k {
      m := k;
    } else {
      m := DefinitionCarried(c, path, v, j, k - 1);
      PathInTree(c, path, k - 1);
      PathStep(c.g, path, k - 1);
      if c.t.OnChain(path[m], c.t.parent[path[k]]) {
        assert c.t.OnChain(path[m], path[k]);
      } else {
        assert (path[k], v) in c.phi;
        m := k;
      }
    }
  }

  /** Placement: if block `b` has no phi for `v`, then on no path from its idom to `b` that does not come
      back to the idom does any block in between define `v`, whether by a store or by a phi. */
  lemma NoDefinitionInBetween(c: Ctx, path: seq<Block>, b: Block, v: Var, j: nat)
    requires Spans(c) && Closed(c) && b in c.t.parent && b != c.t.root && (b, v) !in c.phi
    requires IsPath(c.g, path) && |path| >= 2 && path[0] == c.t.parent[b] && path[|path| - 1] == b
    requires forall m {:trigger path[m]} :: 0 < m < |path| - 1 ==> path[m] != c.t.parent[b]
    requires 0 < j < |path| - 1
    ensures !Defines(c, path[j], v)
  {
    hide IsPath, Closed, Defines, Spans, Tree.OnChain, Cfg.Valid, Tree.Valid, Cfg.Edge;
    var q, last := c.t.parent[b], |path| - 2;
    if Defines(c, path[j], v) {
      ParentKnown(c, b);
      var m := DefinitionCarried(c, path, v, j, last);
      PathInTree(c, path, last);
      PathStep(c.g, path, last);
      CarriedToIdom(c, path[m], path[last], b, v);
      AboveWholePath(c, path, q, m, last);
      ChainFacts(c.t, path[m], q);
      ChainFacts(c.t, q, path[m]);
    }
  }

  // ----- initialisation -----

  /** Every slot that is stored to anywhere or loaded is stored to in the entry, there before any load. */
  ghost predicate SetInEntry(g: Cfg, code: map<Block, seq<Instr>>)
    requires g.Valid() && g.Entry() in code
  {
    forall b, k {:trigger code[b][k]} :: b in code && 0 <= k < |code[b]| && code[b][k].IsSlotAccess() ==>
      exists j :: 0 <= j < |code[g.Entry()]| && StoresSlot(code[g.Entry()][j], code[b][k].ptr.v)
        && (b == g.Entry() && code[b][k].Load? ==> j < k)
  }

  lemma PhiNeedsStore(c: Ctx, frontier: map<Block, set<Block>>, s: Block, v: Var)
    requires PhisPlaced(c, frontier) && (s, v) in c.phi
    ensures exists b :: StoresIn(c.code, b, v)
  {
    hide Spans;
    PlacedNeedsStore(c, frontier, s, v);
  }

  lemma PlacedNeedsStore(c: Ctx, frontier: map<Block, set<Block>>, s: Block, v: Var)
    requires c.g.Valid() && Placed(c, frontier) && (s, v) in c.phi
    ensures exists b :: StoresIn(c.code, b, v)
  {
    assert s in PhiBlocks(c, v);
    assert FrontierClosed(frontier, {}, {});
    assert StoreBlocks(c, v) != {};
    HasMember(StoreBlocks(c, v));
    var b :| b in StoreBlocks(c, v);
  }

  lemma EntryStoreReaches(c: Ctx, b: Block, k: nat, v: Var)
    requires Spans(c) && b in c.t.parent && k <= |c.code[b]|
    requires exists j :: 0 <= j < |c.code[c.t.root]| && StoresSlot(c.code[c.t.root][j], v) && (b == c.t.root ==> j < k)
    ensures HasValue(c, b, k, v)
  {
    HasValueIff(c, b, k, v);
    RootOnChain(c.t, b);
    if b != c.t.root {
      assert Defines(c, c.t.root, v);
    }
  }

  /** Initialising every slot in the entry block is enough for all of renaming's look-ups to succeed. */
  lemma EntryInitialises(g: Cfg, code: map<Block, seq<Instr>>, address: Block -> int)
    requires g.Valid() && g.Entry() in code && SetInEntry(g, code)
    ensures LookupsSucceed(g, code, address)
  {
    forall c: Ctx, frontier | c.g == g && c.code == code && PhisPlaced(c, frontier)
      ensures ConsultableIn(c, address)
    {
      EntryConsultable(c, frontier);
      ConsultableAnyOrder(c, address);
    }
  }

  lemma EntryConsultable(c: Ctx, frontier: map<Block, set<Block>>)
    requires PhisPlaced(c, frontier) && c.g.Entry() in c.code && SetInEntry(c.g, c.code)
    ensures Consultable(c)
  {
    hide Placed, FrontierTable, HasValue;
    forall b, k | b in c.t.parent && 0 <= k < |c.code[b]| && IsSlotLoad(c.code[b][k])
      ensures HasValue(c, b, k, c.code[b][k].ptr.v)
    {
      EntryStoreReaches(c, b, k, c.code[b][k].ptr.v);
    }
    forall b, s, v | b in c.t.parent && c.g.Edge(b, s) && (s, v) in c.phi
      ensures HasValue(c, b, |c.code[b]|, v)
    {
      PhiNeedsStore(c, frontier, s, v);
      var d :| StoresIn(c.code, d, v);
      var k :| 0 <= k < |c.code[d]| && StoresSlot(c.code[d][k], v);
      assert c.code[d][k].IsSlotAccess();
      EntryStoreReaches(c, b, |c.code[b]|, v);
    }
  }

  // ----- the condition on look-ups is exact -----

  ghost predicate SafeInAnyOrder(c: Ctx)
    requires Spans(c)
  {
    forall address, b, s, v, d {:trigger EmptyStackAsked(c, address, b, s, v, d)} ::
      Ordered(address) ==> !EmptyStackAsked(c, address, b, s, v, d)
  }

  /** A definition in a block above, or in the block itself, gives the slot a value at the end of the block. */
  lemma DefinedHasValue(c: Ctx, d: Block, b: Block, v: Var)
    requires Spans(c) && b in c.t.parent && c.t.OnChain(d, b) && Defines(c, d, v)
    ensures HasValue(c, b, |c.code[b]|, v)
  {
    HasValueIff(c, b, |c.code[b]|, v);
  }

  /** Below the point where they part, two chains go through different children. */
  lemma {:induction false} ChainsPart(t: Tree, d: Block, b: Block) returns (x: Block, y: Block)
    requires t.Valid() && d in t.parent && b in t.parent && !t.OnChain(d, b) && !t.OnChain(b, d) && t.OnChain(t.root, b)
    ensures x in t.parent && y in t.parent && x != t.root && y != t.root && t.parent[x] == t.parent[y] && x != y
    ensures t.OnChain(x, d) && t.OnChain(y, b)
    decreases t.rank[t.root] - t.rank[d]
  {
    var p := t.parent[d];
    assert t.OnChain(d, d) && t.OnChain(p, p);
    if t.OnChain(p, b) {
      x := d;
      y := ChildTowards(t, p, b);
    } else {
      x, y := ChainsPart(t, p, b);
    }
  }

  /** Blocks in the subtree of `b` are not visited before the phis behind `b` are filled. */
  lemma BelowLater(c: Ctx, address: Block -> int, d: Block, b: Block)
    requires Spans(c) && b in c.t.parent && d in c.t.parent && d != b && c.t.OnChain(b, d)
    ensures !VisitedBefore(c, address, d, b)
  {
    if c.t.OnChain(d, b) {
      ChainFacts(c.t, d, b);
      ChainFacts(c.t, b, d);
    } else if VisitedBefore(c, address, d, b) {
      var x, y :| x in c.t.parent && y in c.t.parent && x != c.t.root && y != c.t.root && c.t.parent[x] == c.t.parent[y]
                  && c.t.OnChain(x, d) && c.t.OnChain(y, b) && address(x) < address(y);
      ChainTrans(c.t, y, b, d);
      SiblingsApart(c.t, x, y, d);
    }
  }

  /** Addresses for which `x` comes first. */
  function First(x: Block): Block -> int {
    b => if b == x then 0 else if b >= 0 then 2 * b + 1 else -2 * b
  }

  lemma FirstOrdered(x: Block)
    ensures Ordered(First(x)) && forall b {:trigger First(x)(b)} :: b != x ==> First(x)(x) < First(x)(b)
  {
  }

  /** What gets by in every order gets by in a given one. */
  lemma ConsultableAnyOrder(c: Ctx, address: Block -> int)
    requires Spans(c) && Consultable(c)
    ensures ConsultableIn(c, address)
  {
    hide HasValue, Defines, VisitedBefore;
    forall b, s, v, d
      ensures !EmptyStackAsked(c, address, b, s, v, d)
    {
      if EmptyStackAsked(c, address, b, s, v, d) {
        assert OnlyBelow(c, b, v);
        BelowLater(c, address, d, b);
      }
    }
  }

  /** All look-ups succeed in every order of the children exactly if every load has a value and no order makes a phi ask
      for the top of an empty stack. */
  lemma ConsultableIff(c: Ctx)
    requires Spans(c)
    ensures Consultable(c) <==> LoadsHaveValues(c) && SafeInAnyOrder(c)
  {
    hide HasValue, Defines, VisitedBefore;
    if Consultable(c) {
      forall address, b, s, v, d | EmptyStackAsked(c, address, b, s, v, d)
        ensures false
      {
        assert OnlyBelow(c, b, v);
        BelowLater(c, address, d, b);
      }
    } else if LoadsHaveValues(c) {
      var b, s, v :| b in c.t.parent && c.g.Edge(b, s) && (s, v) in c.phi && !HasValue(c, b, |c.code[b]|, v)
        && !OnlyBelow(c, b, v);
      SomeOrderFails(c, b, s, v);
    }
  }

  lemma SomeOrderFails(c: Ctx, b: Block, s: Block, v: Var)
    requires Spans(c) && b in c.t.parent && c.g.Edge(b, s) && (s, v) in c.phi && !HasValue(c, b, |c.code[b]|, v)
    requires !OnlyBelow(c, b, v)
    ensures exists address, d :: Ordered(address) && EmptyStackAsked(c, address, b, s, v, d)
  {
    hide HasValue, Defines, Ordered;
    var d :| d in c.t.parent && Defines(c, d, v) && !(d != b && c.t.OnChain(b, d));
    assert c.t.OnChain(b, b);
    if c.t.OnChain(d, b) {
      DefinedHasValue(c, d, b, v);
    } else {
      RootOnChain(c.t, b);
      var x, y := ChainsPart(c.t, d, b);
      FirstOrdered(x);
      assert First(x)(x) < First(x)(y);
      assert VisitedBefore(c, First(x), d, b);
      assert EmptyStackAsked(c, First(x), b, s, v, d);
    }
  }
}
