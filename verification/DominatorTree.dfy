/** The tree that an `idom` map describes, ordered by post-order number, and how re-parenting one
    block changes the chains of the others. */
module DominatorTree {
  import opened ControlFlow

  /** `parent` is the idom map (a block it does not hold has a null idom), `rank` the post-order ids. */
  datatype Tree = Tree(root: Block, parent: map<Block, Block>, rank: map<Block, int>)
  {
    ghost predicate Valid() {
      && root in parent
      && parent[root] == root
      && (forall b {:trigger b in parent} :: b in parent ==> b in rank)
      && (forall b {:trigger rank[b]} :: b in parent ==> rank[b] <= rank[root])
      && (forall b {:trigger parent[b]} :: b in parent ==>
            parent[b] in parent && parent[b] in rank && rank[parent[b]] <= rank[root])
      && (forall b {:trigger parent[b]} :: b in parent && b != root ==> rank[b] < rank[parent[b]])
    }

    /** `a` is `b`, or is reached from `b` by following idom links. */
    ghost predicate OnChain(a: Block, b: Block)
      requires Valid()
      decreases if b in parent then rank[root] - rank[b] else 0
    {
      b in parent && (a == b || (b != root && OnChain(a, parent[b])))
    }
  }

  lemma {:induction false} ChainFacts(t: Tree, a: Block, b: Block)
    requires t.Valid() && t.OnChain(a, b)
    ensures a in t.parent && t.rank[b] <= t.rank[a]
    ensures a != b ==> t.rank[b] < t.rank[a]
    decreases t.rank[t.root] - t.rank[b]
  {
    if a != b {
      ChainFacts(t, a, t.parent[b]);
    }
  }

  lemma {:induction false} ChainTrans(t: Tree, a: Block, c: Block, b: Block)
    requires t.Valid() && t.OnChain(a, c) && t.OnChain(c, b)
    ensures t.OnChain(a, b)
    decreases t.rank[t.root] - t.rank[b]
  {
    if c != b {
      ChainTrans(t, a, c, t.parent[b]);
    }
  }

  lemma {:induction false} RootOnChain(t: Tree, b: Block)
    requires t.Valid() && b in t.parent
    ensures t.OnChain(t.root, b)
    decreases t.rank[t.root] - t.rank[b]
  {
    if b != t.root {
      RootOnChain(t, t.parent[b]);
    }
  }

  /** Two blocks of one chain are on one line: the one of lower rank has the other above it. */
  lemma {:induction false} ChainLinear(t: Tree, a: Block, c: Block, b: Block)
    requires t.Valid() && t.OnChain(a, b) && t.OnChain(c, b)
    requires a in t.parent && c in t.parent && t.rank[a] <= t.rank[c]
    ensures t.OnChain(c, a)
    decreases t.rank[t.root] - t.rank[b]
  {
    ChainFacts(t, a, b);
    ChainFacts(t, c, b);
    if a == b {
    } else if c == b {
      assert false;
    } else {
      ChainLinear(t, a, c, t.parent[b]);
    }
  }

  ghost predicate IsReparent(t: Tree, t': Tree, x: Block, n: Block) {
    && t.Valid()
    && t'.Valid()
    && x != t.root
    && t' == t.(parent := t.parent[x := n])
  }

  /** Re-parenting `x` leaves every chain that does not pass through `x` as it was. */
  lemma {:induction false} ReparentOther(t: Tree, t': Tree, x: Block, n: Block, y: Block, a: Block)
    requires IsReparent(t, t', x, n) && y in t.parent && !t.OnChain(x, y)
    ensures t'.OnChain(a, y) <==> t.OnChain(a, y)
    decreases t.rank[t.root] - t.rank[y]
  {
    if y != t.root && y != x {
      ReparentOther(t, t', x, n, t.parent[y], a);
    }
  }

  /** Re-parenting `x` keeps the part of a chain below `x` and replaces the rest by the new chain of `x`. */
  lemma {:induction false} ReparentBelow(t: Tree, t': Tree, x: Block, n: Block, y: Block, a: Block)
    requires IsReparent(t, t', x, n) && x in t.parent && t.OnChain(x, y)
    ensures t'.OnChain(a, y) <==> (t.OnChain(a, y) && !t.OnChain(a, x)) || t'.OnChain(a, x)
    decreases t.rank[t.root] - t.rank[y]
  {
    if y != x {
      ReparentBelow(t, t', x, n, t.parent[y], a);
      if t.OnChain(y, x) {
        ChainFacts(t, y, x);
        ChainFacts(t, x, y);
        assert false;
      }
    }
  }
}
