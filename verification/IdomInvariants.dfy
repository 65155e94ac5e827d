/** What every step of the iterative immediate-dominator computation keeps. */
module IdomInvariants {
  import opened ControlFlow
  import opened DominatorTree

  /** `rank` numbers the reachable blocks without collision, the entry is the highest, and every other
      reachable block has a predecessor of higher number. */
  ghost predicate Numbered(g: Cfg, rank: map<Block, int>) {
    && g.Valid()
    && (forall b {:trigger Reachable(g, b)} :: b in rank <==> Reachable(g, b))
    && g.Entry() in rank
    && (forall b {:trigger rank[b]} :: b in rank ==> rank[b] <= rank[g.Entry()])
    && (forall a, b {:trigger SameNumber(rank, a, b)} :: SameNumber(rank, a, b) ==> a == b)
    && (forall b {:trigger HasForwardEdge(g, rank, b)} :: b in rank && b != g.Entry() ==> HasForwardEdge(g, rank, b))
  }

  ghost predicate SameNumber(rank: map<Block, int>, a: Block, b: Block) {
    a in rank && b in rank && rank[a] == rank[b]
  }

  ghost predicate HasForwardEdge(g: Cfg, rank: map<Block, int>, b: Block) {
    exists p :: ForwardEdge(g, rank, p, b)
  }

  ghost predicate ForwardEdge(g: Cfg, rank: map<Block, int>, p: Block, b: Block) {
    g.Edge(p, b) && p in rank && b in rank && rank[b] < rank[p]
  }

  /** There is a path from `a` to `b` along which the numbers only go down. */
  ghost predicate Descends(g: Cfg, rank: map<Block, int>, a: Block, b: Block)
    requires Numbered(g, rank)
    decreases if b in rank then rank[g.Entry()] - rank[b] else 0
  {
    b in rank && (a == b || exists p :: ForwardEdge(g, rank, p, b) && Descends(g, rank, a, p))
  }

  lemma {:induction false} DescendsRank(g: Cfg, rank: map<Block, int>, a: Block, b: Block)
    requires Numbered(g, rank) && Descends(g, rank, a, b)
    ensures a in rank && rank[b] <= rank[a]
    decreases rank[g.Entry()] - rank[b]
  {
    if a != b {
      var p :| ForwardEdge(g, rank, p, b) && Descends(g, rank, a, p);
      DescendsRank(g, rank, a, p);
    }
  }

  lemma {:induction false} DescendsTrans(g: Cfg, rank: map<Block, int>, a: Block, b: Block, c: Block)
    requires Numbered(g, rank) && Descends(g, rank, a, b) && Descends(g, rank, b, c)
    ensures Descends(g, rank, a, c)
    decreases rank[g.Entry()] - rank[c]
  {
    if b != c {
      var p :| ForwardEdge(g, rank, p, c) && Descends(g, rank, b, p);
      DescendsTrans(g, rank, a, b, p);
    }
  }

  /** A dominator of `b` numbered above the start of a descending path to `b` dominates that start. */
  lemma {:induction false} DescendsDominator(g: Cfg, rank: map<Block, int>, a: Block, b: Block, d: Block)
    requires Numbered(g, rank) && Descends(g, rank, a, b) && Dominates(g, d, b)
    requires a in rank && d in rank && rank[a] < rank[d]
    ensures Dominates(g, d, a)
    decreases rank[g.Entry()] - rank[b]
  {
    DescendsRank(g, rank, a, b);
    if a != b {
      var p :| ForwardEdge(g, rank, p, b) && Descends(g, rank, a, p);
      DominatesPred(g, d, p, b);
      DescendsDominator(g, rank, a, p, d);
    }
  }

  /** `a` is on the chain of every predecessor of `b` whose idom is known. */
  ghost predicate Common(g: Cfg, t: Tree, b: Block, a: Block)
    requires t.Valid()
  {
    forall p {:trigger g.Edge(p, b)} :: p in t.parent && g.Edge(p, b) ==> t.OnChain(a, p)
  }

  /** The invariant of the whole computation.  `(lines)` idom links are descending paths; `(sound)` no
      dominator is ever missing from a chain; `(closed)` the known blocks include the higher-numbered
      predecessors of each; `(upward)` whatever the predecessors of a block share is
      not below its idom. */
  ghost predicate Inv(g: Cfg, t: Tree) {
    && Numbered(g, t.rank)
    && t.Valid()
    && t.root == g.Entry()
    && (forall b, q {:trigger ForwardEdge(g, t.rank, q, b)} ::
          b in t.parent && ForwardEdge(g, t.rank, q, b) ==> q in t.parent)
    && (forall b {:trigger t.parent[b]} :: b in t.parent && b != t.root ==> Descends(g, t.rank, t.parent[b], b))
    && (forall b, d {:trigger Dominates(g, d, b)} :: b in t.parent && Dominates(g, d, b) ==> t.OnChain(d, b))
    && (forall b, a {:trigger Common(g, t, b, a)} ::
          b in t.parent && b != t.root && a in t.parent && Common(g, t, b, a) ==> t.rank[t.parent[b]] <= t.rank[a])
  }

  /** Within one pass: for the blocks numbered `r` and up, already visited, the chain of a block lies in
      the chain of each of its higher-numbered predecessors, itself excepted. */
  ghost predicate Visited(g: Cfg, t: Tree, r: int)
    requires t.Valid()
  {
    && (forall b {:trigger b in t.parent} {:trigger t.rank[b]} :: b in t.rank && r <= t.rank[b] ==> b in t.parent)
    && (forall u, w, a {:trigger ForwardEdge(g, t.rank, w, u), t.OnChain(a, u)} ::
          u != t.root && ForwardEdge(g, t.rank, w, u) && r <= t.rank[u] && t.OnChain(a, u) && a != u ==>
            t.OnChain(a, w))
  }

  lemma {:induction false} ChainDescends(g: Cfg, t: Tree, a: Block, b: Block)
    requires Inv(g, t) && t.OnChain(a, b)
    ensures Descends(g, t.rank, a, b)
    decreases t.rank[t.root] - t.rank[b]
  {
    if a != b {
      ChainDescends(g, t, a, t.parent[b]);
      DescendsTrans(g, t.rank, a, t.parent[b], b);
    }
  }

  /** Along a descending path inside the visited part, chain elements are inherited by the start. */
  lemma {:induction false} DescendsInherits(g: Cfg, t: Tree, r: int, a: Block, b: Block, z: Block)
    requires Inv(g, t) && Visited(g, t, r) && Descends(g, t.rank, a, b) && r <= t.rank[b]
    requires t.OnChain(z, b) && a in t.rank && z in t.parent && t.rank[a] <= t.rank[z]
    ensures t.OnChain(z, a)
    decreases t.rank[t.root] - t.rank[b]
  {
    if a != b {
      var p :| ForwardEdge(g, t.rank, p, b) && Descends(g, t.rank, a, p);
      DescendsRank(g, t.rank, a, p);
      DescendsInherits(g, t, r, a, p, z);
    }
  }

  /** The block `n` is the nearest common ancestor of the known predecessors of `x`. */
  ghost predicate Meet(g: Cfg, t: Tree, x: Block, n: Block)
    requires t.Valid()
  {
    n in t.parent && forall a {:trigger t.OnChain(a, n)} {:trigger Common(g, t, x, a)} ::
      t.OnChain(a, n) <==> a in t.parent && Common(g, t, x, a)
  }

  /** Before `x` is visited: it is reachable, not the entry, and all blocks numbered above it are visited. */
  ghost predicate Ready(g: Cfg, t: Tree, x: Block) {
    && Inv(g, t)
    && x in t.rank
    && x != t.root
    && Visited(g, t, t.rank[x] + 1)
  }

  /** The meet is above `x`, and it never lies off the line that `x` already had: the step moves up. */
  lemma {:induction false} MeetIsUpward(g: Cfg, t: Tree, x: Block, n: Block)
    requires Ready(g, t, x) && Meet(g, t, x, n)
    ensures t.rank[x] < t.rank[n] && Descends(g, t.rank, n, x)
    ensures x in t.parent ==> t.OnChain(n, t.parent[x]) && t.rank[t.parent[x]] <= t.rank[n]
  {
    assert HasForwardEdge(g, t.rank, x);
    var q :| ForwardEdge(g, t.rank, q, x);
    ChainFacts(t, n, n);
    assert t.OnChain(n, n);
    assert Common(g, t, x, n);
    assert t.OnChain(n, q);
    ChainFacts(t, n, q);
    ChainDescends(g, t, n, q);
    if x in t.parent {
      var o := t.parent[x];
      assert t.rank[o] <= t.rank[n];
      assert Descends(g, t.rank, o, x) && o != x;
      var p :| ForwardEdge(g, t.rank, p, x) && Descends(g, t.rank, o, p);
      assert t.OnChain(n, p);
      DescendsInherits(g, t, t.rank[x] + 1, o, p, n);
    }
  }

  ghost function Reparent(t: Tree, x: Block, n: Block): Tree {
    t.(parent := t.parent[x := n])
  }

  lemma {:induction false} ReparentValid(t: Tree, x: Block, n: Block)
    requires t.Valid() && x in t.rank && x != t.root && n in t.parent && t.rank[x] < t.rank[n]
    requires t.rank[x] <= t.rank[t.root]
    ensures Reparent(t, x, n).Valid()
  {
  }

  /** The chain of `x` after the step is `x` and the chain of the meet. */
  lemma {:induction false} ReparentedChain(g: Cfg, t: Tree, x: Block, n: Block, a: Block)
    requires Ready(g, t, x) && Meet(g, t, x, n)
    ensures IsReparent(t, Reparent(t, x, n), x, n)
    ensures Reparent(t, x, n).OnChain(a, x) <==> a == x || t.OnChain(a, n)
  {
    MeetIsUpward(g, t, x, n);
    ReparentValid(t, x, n);
    if t.OnChain(x, n) {
      ChainFacts(t, x, n);
    }
    ReparentOther(t, Reparent(t, x, n), x, n, n, a);
  }

  /** Chains only shrink, and only those of blocks numbered at most `x` lose anything. */
  lemma {:induction false} ReparentShrinks(g: Cfg, t: Tree, x: Block, n: Block, y: Block, a: Block)
    requires Ready(g, t, x) && Meet(g, t, x, n) && y in t.parent
    ensures Reparent(t, x, n).Valid()
    ensures Reparent(t, x, n).OnChain(a, y) ==> t.OnChain(a, y)
    ensures t.rank[x] < t.rank[y] ==> (Reparent(t, x, n).OnChain(a, y) <==> t.OnChain(a, y))
  {
    var t' := Reparent(t, x, n);
    ReparentedChain(g, t, x, n, a);
    if t.OnChain(x, y) {
      ChainFacts(t, x, y);
      MeetIsUpward(g, t, x, n);
      ReparentBelow(t, t', x, n, y, a);
      if t.OnChain(a, n) {
        ChainTrans(t, a, n, t.parent[x]);
      }
      if t.OnChain(a, x) {
        ChainTrans(t, a, x, y);
      }
    } else {
      ReparentOther(t, t', x, n, y, a);
    }
  }

  /** No dominator is dropped from the chain of `x` itself. */
  lemma {:induction false} SoundAtStep(g: Cfg, t: Tree, x: Block, n: Block, d: Block)
    requires Ready(g, t, x) && Meet(g, t, x, n) && Dominates(g, d, x)
    ensures d == x || t.OnChain(d, n)
  {
    if d != x {
      forall p | p in t.parent && g.Edge(p, x)
        ensures t.OnChain(d, p)
      {
        DominatesPred(g, d, p, x);
      }
      assert HasForwardEdge(g, t.rank, x);
      var q :| ForwardEdge(g, t.rank, q, x);
      ChainFacts(t, d, q);
    }
  }

  /** No dominator is dropped from any chain. */
  lemma {:induction false} SoundAfterStep(g: Cfg, t: Tree, x: Block, n: Block, b: Block, d: Block)
    requires Ready(g, t, x) && Meet(g, t, x, n) && (b in t.parent || b == x) && Dominates(g, d, b)
    ensures Reparent(t, x, n).Valid() && Reparent(t, x, n).OnChain(d, b)
  {
    var t' := Reparent(t, x, n);
    ReparentedChain(g, t, x, n, d);
    if b == x {
      SoundAtStep(g, t, x, n, d);
    } else if !t.OnChain(x, b) {
      ReparentOther(t, t', x, n, b, d);
    } else {
      ChainFacts(t, x, b);
      ReparentBelow(t, t', x, n, b, d);
      if t.OnChain(d, x) {
        ChainFacts(t, d, x);
        if d != x {
          ChainDescends(g, t, x, b);
          DescendsDominator(g, t.rank, x, b, d);
          SoundAtStep(g, t, x, n, d);
        }
      }
    }
  }

  /** The upward property survives the step, since chains only shrink. */
  lemma {:induction false} UpwardAfterStep(g: Cfg, t: Tree, x: Block, n: Block, b: Block, a: Block)
    requires Ready(g, t, x) && Meet(g, t, x, n) && Reparent(t, x, n).Valid()
    requires b != t.root && (b in t.parent || b == x)
    requires a in Reparent(t, x, n).parent && Common(g, Reparent(t, x, n), b, a)
    ensures t.rank[Reparent(t, x, n).parent[b]] <= t.rank[a]
  {
    var t' := Reparent(t, x, n);
    forall p | p in t.parent && g.Edge(p, b)
      ensures t.OnChain(a, p)
    {
      ReparentShrinks(g, t, x, n, p, a);
    }
    assert Common(g, t, b, a);
    assert HasForwardEdge(g, t.rank, b);
    var q :| ForwardEdge(g, t.rank, q, b);
    assert t.OnChain(a, q);
    ChainFacts(t, a, q);
    if b == x {
      ChainFacts(t, a, n);
    }
  }

  /** One step keeps the invariant. */
  lemma {:induction false} StepKeepsInv(g: Cfg, t: Tree, x: Block, n: Block)
    requires Ready(g, t, x) && Meet(g, t, x, n)
    ensures Inv(g, Reparent(t, x, n))
  {
    var t' := Reparent(t, x, n);
    MeetIsUpward(g, t, x, n);
    ReparentedChain(g, t, x, n, x);
    forall b, d | b in t'.parent && Dominates(g, d, b)
      ensures t'.OnChain(d, b)
    {
      SoundAfterStep(g, t, x, n, b, d);
    }
    forall b, a | b in t'.parent && b != t.root && a in t'.parent && Common(g, t', b, a)
      ensures t'.rank[t'.parent[b]] <= t'.rank[a]
    {
      UpwardAfterStep(g, t, x, n, b, a);
    }
  }

  lemma {:induction false} StepVisitsEdge(g: Cfg, t: Tree, x: Block, n: Block, u: Block, w: Block, a: Block)
    requires Ready(g, t, x) && Meet(g, t, x, n) && Reparent(t, x, n).Valid()
    requires u != t.root && ForwardEdge(g, t.rank, w, u) && t.rank[x] <= t.rank[u] && a != u
    requires Reparent(t, x, n).OnChain(a, u)
    ensures Reparent(t, x, n).OnChain(a, w)
  {
    ReparentShrinks(g, t, x, n, w, a);
    if u == x {
      ReparentedChain(g, t, x, n, a);
      assert Common(g, t, x, a);
      assert g.Edge(w, x);
    } else {
      assert SameNumber(t.rank, x, u) ==> x == u;
      ReparentShrinks(g, t, x, n, u, a);
    }
  }

  /** After the step `x` has joined the visited blocks. */
  lemma {:induction false} StepVisits(g: Cfg, t: Tree, x: Block, n: Block)
    requires Ready(g, t, x) && Meet(g, t, x, n)
    ensures Reparent(t, x, n).Valid() && Visited(g, Reparent(t, x, n), t.rank[x])
  {
    var t' := Reparent(t, x, n);
    ReparentedChain(g, t, x, n, x);
    forall b | b in t.rank && t.rank[x] <= t.rank[b]
      ensures b in t'.parent
    {
      assert SameNumber(t.rank, x, b) ==> x == b;
    }
    forall u, w, a | u != t.root && ForwardEdge(g, t.rank, w, u) && t.rank[x] <= t.rank[u] && t'.OnChain(a, u) && a != u
      ensures t'.OnChain(a, w)
    {
      StepVisitsEdge(g, t, x, n, u, w, a);
    }
  }

  /** The computation has reached a fixpoint: every reachable block has the meet of its predecessors. */
  ghost predicate Computed(g: Cfg, t: Tree) {
    && Inv(g, t)
    && (forall b {:trigger b in t.parent} :: b in t.rank ==> b in t.parent)
    && (forall b {:trigger Meet(g, t, b, t.parent[b])} :: b in t.parent && b != t.root ==> Meet(g, t, b, t.parent[b]))
  }

  lemma {:induction false} ChainOnWalk(g: Cfg, t: Tree, w: Walk, a: Block)
    requires Computed(g, t) && IsWalk(g, w) && t.OnChain(a, End(g, w))
    ensures Visits(g, w, a)
  {
    var b := End(g, w);
    if a != b && w.Step? {
      var p := End(g, w.prev);
      assert WalkTo(g, w.prev, p) && Reachable(g, p);
      ChainFacts(t, a, t.parent[b]);
      assert Meet(g, t, b, t.parent[b]);
      assert Common(g, t, b, a);
      ChainOnWalk(g, t, w.prev, a);
    }
  }

  /** At the fixpoint the idom chain of a block is exactly its set of dominators. */
  lemma {:induction false} ChainIsDominators(g: Cfg, t: Tree, a: Block, b: Block)
    requires Computed(g, t)
    ensures t.OnChain(a, b) <==> Dominates(g, a, b)
  {
    if t.OnChain(a, b) {
      forall w | WalkTo(g, w, b)
        ensures Visits(g, w, a)
      {
        ChainOnWalk(g, t, w, a);
      }
      assert Reachable(g, b);
    }
    if Dominates(g, a, b) {
      assert Reachable(g, b);
      assert b in t.parent;
    }
  }

  /** `d` is the immediate dominator of `b`: it strictly dominates `b`, and every other strict
      dominator of `b` dominates it. */
  ghost predicate ImmediateDominator(g: Cfg, d: Block, b: Block)
    requires g.Valid()
  {
    StrictlyDominates(g, d, b) && forall c :: StrictlyDominates(g, c, b) ==> Dominates(g, c, d)
  }

  /** At the fixpoint the parent of a block is its immediate dominator, and no other block is. */
  lemma {:induction false} ParentIsImmediate(g: Cfg, t: Tree, b: Block, d: Block)
    requires Computed(g, t) && b in t.parent && b != t.root
    ensures ImmediateDominator(g, d, b) <==> d == t.parent[b]
  {
    var i := t.parent[b];
    assert t.OnChain(i, b);
    ChainIsDominators(g, t, i, b);
    forall c | StrictlyDominates(g, c, b)
      ensures Dominates(g, c, i)
    {
      ChainIsDominators(g, t, c, b);
      ChainIsDominators(g, t, c, i);
    }
    assert ImmediateDominator(g, i, b);
    if ImmediateDominator(g, d, b) {
      ChainIsDominators(g, t, i, d);
      ChainIsDominators(g, t, d, i);
      ChainFacts(t, i, d);
      ChainFacts(t, d, i);
    }
  }

  /** The entry block has no strict dominator. */
  lemma {:induction false} EntryHasNoStrictDominator(g: Cfg, d: Block)
    requires g.Valid()
    ensures !StrictlyDominates(g, d, g.Entry())
  {
    if StrictlyDominates(g, d, g.Entry()) {
      EntryDominators(g, d);
    }
  }

  /** How far the idom links of the listed blocks still are below the root. */
  ghost function Slack(t: Tree, order: seq<Block>): (s: int)
    requires t.Valid() && t.rank[t.root] >= 0
    ensures s >= 0
  {
    if order == [] then 0 else Weight(t, order[0]) + Slack(t, order[1..])
  }

  ghost function Weight(t: Tree, b: Block): (s: int)
    requires t.Valid() && t.rank[t.root] >= 0
    ensures s >= 0
  {
    if b in t.parent then t.rank[t.root] - t.rank[t.parent[b]] else t.rank[t.root] + 1
  }

  /** Moving the link of one listed block strictly upward, or giving it its first link, lowers the slack. */
  lemma {:induction false} SlackDrops(t: Tree, t': Tree, x: Block, n: Block, order: seq<Block>)
    requires IsReparent(t, t', x, n) && t.rank[t.root] >= 0
    requires n in t.parent && 0 <= t.rank[n] && (x in t.parent ==> t.rank[t.parent[x]] < t.rank[n])
    ensures Slack(t', order) <= Slack(t, order)
    ensures x in order ==> Slack(t', order) < Slack(t, order)
  {
    if order != [] {
      var b := order[0];
      assert b != x ==> Weight(t', b) == Weight(t, b);
      assert Weight(t', x) < Weight(t, x);
      assert order == [b] + order[1..];
      SlackDrops(t, t', x, n, order[1..]);
    }
  }
}
