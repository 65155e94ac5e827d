/** Where phis are placed: the least set of blocks closed under dominance frontiers. */
module PhiInsertion {
  import opened ControlFlow
  import opened DominatorTree
  import opened IdomInvariants
  import DominatorAnalysis
  import opened IR
  import opened Promotion
  import opened PromotionSimulation

  ghost predicate Frontier(frontier: map<Block, set<Block>>, r: Block, j: Block) {
    DominatorAnalysis.InTable(frontier, r, j)
  }

  /** `x` holds the frontiers of `start` and of its own members. */
  ghost predicate FrontierClosed(frontier: map<Block, set<Block>>, start: set<Block>, x: set<Block>) {
    forall d, j {:trigger Frontier(frontier, d, j)} :: (d in start || d in x) && Frontier(frontier, d, j) ==> j in x
  }

  /** `p` is the iterated dominance frontier of `start`: the least closed set. */
  ghost predicate IteratedFrontier(frontier: map<Block, set<Block>>, start: set<Block>, p: set<Block>) {
    && FrontierClosed(frontier, start, p)
    && forall x {:trigger FrontierClosed(frontier, start, x)} :: FrontierClosed(frontier, start, x) ==> p <= x
  }

  ghost function StoreBlocks(c: Ctx, v: Var): set<Block>
    requires c.g.Valid()
  {
    set b | b in c.g.BlockSet() && StoresIn(c.code, b, v)
  }

  ghost function PhiBlocks(c: Ctx, v: Var): set<Block>
    requires c.g.Valid()
  {
    set b | b in c.g.BlockSet() && (b, v) in c.phi
  }

  /** Every slot has its phis exactly in the iterated dominance frontier of its stores. */
  ghost predicate Placed(c: Ctx, frontier: map<Block, set<Block>>)
    requires c.g.Valid()
  {
    && (forall b, v {:trigger (b, v) in c.phi} :: (b, v) in c.phi ==> c.g.HasBlock(b))
    && (forall v {:trigger PhiBlocks(c, v)} :: IteratedFrontier(frontier, StoreBlocks(c, v), PhiBlocks(c, v)))
  }

  /** The dominator analysis gives the tree that promotion needs, when nothing branches to the entry. */
  lemma AnalysisSpans(c: Ctx)
    requires c.g.Valid() && Computed(c.g, c.t)
    requires forall b {:trigger b in c.code} :: c.g.HasBlock(b) ==> b in c.code
    requires forall p {:trigger c.g.Edge(p, c.g.Entry())} :: !c.g.Edge(p, c.g.Entry())
    ensures Spans(c)
  {
    forall b | b in c.t.parent
      ensures b in c.code
    {
      ReachableHasBlock(c.g, b);
    }
    forall p, s | c.g.Edge(p, s) && p in c.t.parent
      ensures s in c.t.parent && s != c.t.root && c.t.OnChain(c.t.parent[s], p)
    {
      assert Reachable(c.g, p);
      EdgeReachable(c.g, p, s);
      assert s in c.t.rank;
      DominatorAnalysis.IdomAbovePred(c.g, c.t, p, s);
    }
  }

  lemma ReachableHasBlock(g: Cfg, b: Block)
    requires g.Valid() && Reachable(g, b)
    ensures g.HasBlock(b)
  {
    var w :| WalkTo(g, w, b);
    match w
    case Start =>
    case Step(p, _) => assert g.Edge(End(g, p), b);
  }

  /** Placement in iterated frontiers puts a phi wherever a runner passes a definition. */
  lemma PlacedIsClosed(c: Ctx, frontier: map<Block, set<Block>>)
    requires Spans(c) && Computed(c.g, c.t) && Placed(c, frontier)
    requires forall r, j {:trigger Frontier(frontier, r, j)} ::
      Frontier(frontier, r, j) <==> c.g.HasBlock(j) && DominatorAnalysis.Met(c.g, c.t, r, j)
    ensures Closed(c)
  {
    hide Inv, Tree.OnChain, IteratedFrontier;
    forall d, p, s, v | c.g.Edge(p, s) && p in c.t.parent && c.t.OnChain(d, p) && !c.t.OnChain(d, c.t.parent[s])
      && Defines(c, d, v)
      ensures (s, v) in c.phi
    {
      RunnerMeets(c.g, c.t, d, p, s);
      assert Frontier(frontier, d, s);
      ChainFacts(c.t, d, p);
      InParentHasBlock(c.g, c.t, d);
      ClosedAt(c, frontier, d, s, v);
    }
  }

  lemma InParentHasBlock(g: Cfg, t: Tree, d: Block)
    requires g.Valid() && Inv(g, t) && d in t.parent
    ensures g.HasBlock(d)
  {
    assert Reachable(g, d);
    ReachableHasBlock(g, d);
  }

  lemma ClosedAt(c: Ctx, frontier: map<Block, set<Block>>, d: Block, s: Block, v: Var)
    requires c.g.Valid() && Placed(c, frontier) && c.g.HasBlock(d) && Frontier(frontier, d, s) && Defines(c, d, v)
    ensures (s, v) in c.phi
  {
    assert FrontierClosed(frontier, StoreBlocks(c, v), PhiBlocks(c, v));
    assert d in c.g.BlockSet();
  }

  lemma RunnerMeets(g: Cfg, t: Tree, d: Block, p: Block, s: Block)
    requires g.Valid() && Computed(g, t) && g.Edge(p, s) && p in t.parent && s in t.parent && s != t.root
    requires t.OnChain(d, p) && !t.OnChain(d, t.parent[s])
    ensures g.HasBlock(s) && DominatorAnalysis.Met(g, t, d, s)
  {
    assert p in g.pred[s];
    if |g.pred[s]| < 2 {
      DominatorAnalysis.SinglePred(g, t, p, s, d);
    }
    var m :| 0 <= m < |g.pred[s]| && g.pred[s][m] == p;
    assert DominatorAnalysis.RunnerHits(t, p, s, d);
  }

  // ----- adding one phi -----

  /** The phis in the blocks are those of `c.phi`, without operands yet, and `next` is a fresh identity. */
  ghost predicate Rows(c: Ctx, n: Names, phis: map<Block, seq<Phi>>, next: Id) {
    && Named(c, n)
    && (forall id {:trigger id in n.at} :: id in n.at ==> id < next)
    && (forall id {:trigger id in n.phiAt} :: id in n.phiAt ==> id < next)
    && (forall b {:trigger phis[b]} :: b in phis ==> PhiRow(c, b, phis[b]))
    && (forall b, k {:trigger phis[b][k]} :: b in phis && 0 <= k < |phis[b]| ==> phis[b][k].pairs == [])
  }

  ghost function WithPhi(c: Ctx, b: Block, v: Var, id: Id): Ctx {
    c.(phi := c.phi[(b, v) := id])
  }

  ghost function WithPhiName(n: Names, b: Block, v: Var, id: Id): Names {
    n.(phiAt := n.phiAt[id := (b, v)])
  }

  lemma NewRow(c: Ctx, b: Block, v: Var, id: Id, row: seq<Phi>)
    requires PhiRow(c, b, row) && (b, v) !in c.phi
    ensures PhiRow(WithPhi(c, b, v, id), b, [Phi(id, v, [])] + row)
  {
    var row' := [Phi(id, v, [])] + row;
    var c' := WithPhi(c, b, v, id);
    forall u | (b, u) in c'.phi
      ensures HasPhi(row', u)
    {
      if u == v {
        assert row'[0].lval == v;
      } else {
        assert (b, u) in c.phi;
        var k :| 0 <= k < |row| && row[k].lval == u;
        assert row'[k + 1].lval == u;
      }
    }
  }

  lemma OtherRow(c: Ctx, b: Block, v: Var, id: Id, b': Block, row: seq<Phi>)
    requires PhiRow(c, b', row) && b' != b && (b, v) !in c.phi
    ensures PhiRow(WithPhi(c, b, v, id), b', row)
  {
    forall u | (b', u) in WithPhi(c, b, v, id).phi
      ensures HasPhi(row, u)
    {
      assert (b', u) in c.phi;
    }
  }

  lemma RowsExtended(c: Ctx, n: Names, phis: map<Block, seq<Phi>>, next: Id, b: Block, v: Var)
    requires Rows(c, n, phis, next) && b in phis && (b, v) !in c.phi
    ensures Rows(WithPhi(c, b, v, next), WithPhiName(n, b, v, next), phis[b := [Phi(next, v, [])] + phis[b]], next + 1)
  {
    hide PhiRow;
    var phis' := phis[b := [Phi(next, v, [])] + phis[b]];
    var c', n' := WithPhi(c, b, v, next), WithPhiName(n, b, v, next);
    NewRow(c, b, v, next, phis[b]);
    forall b' | b' in phis'
      ensures PhiRow(c', b', phis'[b'])
    {
      if b' != b {
        OtherRow(c, b, v, next, b', phis[b']);
      }
    }
    forall b', k | b' in phis' && 0 <= k < |phis'[b']|
      ensures phis'[b'][k].pairs == []
    {
      if b' == b && k > 0 {
        assert phis'[b'][k] == phis[b][k - 1];
      } else if b' != b {
        assert phis'[b'][k] == phis[b'][k];
      }
    }
    assert Named(c', n');
  }
}
