/** Control-flow graphs of one function, and dominance defined by paths from the entry. */
module ControlFlow {

  datatype Option<+T> = None | Some(value: T)

  type Block = int

  predicate NoRepeats(s: seq<Block>) {
    forall i, j :: 0 <= i < j < |s| ==> s[i] != s[j]
  }

  /** The basic blocks of a function with the successor and predecessor lists kept by each of them.
      The entry is the first block. */
  datatype Cfg = Cfg(blocks: seq<Block>, succ: map<Block, seq<Block>>, pred: map<Block, seq<Block>>)
  {
    /** Every block has both lists, and the lists mirror each other. */
    ghost predicate Valid() {
      && |blocks| > 0
      && HasBlock(blocks[0])
      && (forall b {:trigger HasBlock(b)} :: HasBlock(b) ==> b in succ && b in pred)
      && (forall a, b {:trigger Edge(a, b)} :: Edge(a, b) ==> HasBlock(a) && HasBlock(b) && a in pred[b])
      && (forall a, b {:trigger a in pred[b]} :: b in pred && a in pred[b] ==> Edge(a, b))
    }

    predicate HasBlock(b: Block) {
      b in blocks
    }

    predicate Edge(a: Block, b: Block) {
      a in succ && b in succ[a]
    }

    function Entry(): Block
      requires Valid()
    {
      blocks[0]
    }

    /** The blocks as a set. */
    function BlockSet(): set<Block> {
      set b | b in blocks
    }
  }

  /** A path that starts in the entry block. */
  datatype Walk = Start | Step(prev: Walk, to: Block)

  ghost function End(g: Cfg, w: Walk): Block
    requires g.Valid()
  {
    match w
    case Start => g.Entry()
    case Step(_, b) => b
  }

  ghost predicate IsWalk(g: Cfg, w: Walk)
    requires g.Valid()
  {
    match w
    case Start => true
    case Step(p, b) => IsWalk(g, p) && g.Edge(End(g, p), b)
  }

  ghost predicate Visits(g: Cfg, w: Walk, a: Block)
    requires g.Valid()
  {
    a == End(g, w) || (w.Step? && Visits(g, w.prev, a))
  }

  ghost predicate WalkTo(g: Cfg, w: Walk, b: Block)
    requires g.Valid()
  {
    IsWalk(g, w) && End(g, w) == b
  }

  ghost predicate Reachable(g: Cfg, b: Block)
    requires g.Valid()
  {
    exists w :: WalkTo(g, w, b)
  }

  /** `a` dominates `b`: every path from the entry to `b` passes through `a`. */
  ghost predicate Dominates(g: Cfg, a: Block, b: Block)
    requires g.Valid()
  {
    Reachable(g, b) && forall w :: WalkTo(g, w, b) ==> Visits(g, w, a)
  }

  ghost predicate StrictlyDominates(g: Cfg, a: Block, b: Block)
    requires g.Valid()
  {
    a != b && Dominates(g, a, b)
  }

  lemma EdgeReachable(g: Cfg, a: Block, b: Block)
    requires g.Valid() && Reachable(g, a) && g.Edge(a, b)
    ensures Reachable(g, b)
  {
    var w :| WalkTo(g, w, a);
    assert WalkTo(g, Step(w, b), b);
  }

  lemma EntryReachable(g: Cfg)
    requires g.Valid()
    ensures Reachable(g, g.Entry())
  {
    assert WalkTo(g, Start, g.Entry());
  }

  lemma EntryDominators(g: Cfg, d: Block)
    requires g.Valid() && Dominates(g, d, g.Entry())
    ensures d == g.Entry()
  {
    assert WalkTo(g, Start, g.Entry());
    assert Visits(g, Start, d);
  }

  /** A strict dominator of a block dominates each of its reachable predecessors. */
  lemma DominatesPred(g: Cfg, d: Block, p: Block, b: Block)
    requires g.Valid() && Dominates(g, d, b) && d != b && g.Edge(p, b) && Reachable(g, p)
    ensures Dominates(g, d, p)
  {
    forall w | WalkTo(g, w, p)
      ensures Visits(g, w, d)
    {
      assert WalkTo(g, Step(w, b), b);
      assert Visits(g, Step(w, b), d);
    }
  }

  /** A set that holds the entry and is closed under successors holds every reachable block. */
  lemma {:induction false} ClosedHoldsWalk(g: Cfg, s: set<Block>, w: Walk)
    requires g.Valid() && g.Entry() in s && IsWalk(g, w)
    requires forall a, b :: a in s && g.Edge(a, b) ==> b in s
    ensures End(g, w) in s
  {
    if w.Step? {
      ClosedHoldsWalk(g, s, w.prev);
    }
  }

  lemma HasMember(s: set<int>)
    ensures s == {} || exists b :: b in s
  {
    if forall b :: b !in s {
      assert s == {};
    }
  }
}
