/** The dominator analysis of one function: depth-first numbering, the iterative computation of
    immediate dominators, dominance frontiers and the children lists of the dominator tree. */
module DominatorAnalysis {
  import opened ControlFlow
  import opened DominatorTree
  import opened IdomInvariants

  /** The order lists blocks without repetition, and `id` gives the place of each. */
  ghost predicate Indexed(order: seq<Block>, id: map<Block, int>) {
    && (forall i :: 0 <= i < |order| ==> order[i] in id && id[order[i]] == i)
    && (forall b {:trigger b in id} {:trigger id[b]} :: b in id ==> 0 <= id[b] < |order| && order[id[b]] == b)
  }

  /** A block numbered in `id` but not in `before`. */
  ghost predicate Fresh(before: map<Block, int>, id: map<Block, int>, b: Block) {
    b in id && b !in before
  }

  lemma IndexedAppend(order: seq<Block>, id: map<Block, int>, b: Block)
    requires Indexed(order, id) && b !in id
    ensures Indexed(order + [b], id[b := |order|])
  {
  }

  ghost predicate HasFreshParent(g: Cfg, before: map<Block, int>, id: map<Block, int>, u: Block) {
    exists w :: Fresh(before, id, w) && ForwardEdge(g, id, w, u)
  }

  ghost predicate Extends(before: map<Block, int>, id: map<Block, int>) {
    forall b {:trigger before[b]} {:trigger b in before} :: b in before ==> b in id && id[b] == before[b]
  }

  /** What a visit from `bb` has done by the time it returns. */
  ghost predicate Explored(g: Cfg, bb: Block, seen: set<Block>, before: map<Block, int>,
                           seen': set<Block>, id: map<Block, int>)
    requires g.Valid()
  {
    && seen <= seen'
    && (forall b {:trigger b in id} {:trigger b in seen'} :: Fresh(before, id, b) <==> b in seen' && b !in seen)
    && (forall u {:trigger Fresh(before, id, u)} :: Fresh(before, id, u) ==> Reachable(g, u))
    && (forall u, v {:trigger Fresh(before, id, u), g.Edge(u, v)} ::
          Fresh(before, id, u) && g.Edge(u, v) ==> v in seen')
    && (forall u {:trigger HasFreshParent(g, before, id, u)} ::
          Fresh(before, id, u) && u != bb ==> HasFreshParent(g, before, id, u))
  }

  /** The same, while the successors of `bb` are being visited and `bb` itself has no number yet. */
  ghost predicate Exploring(g: Cfg, bb: Block, seen: set<Block>, before: map<Block, int>,
                            seen': set<Block>, id: map<Block, int>)
    requires g.Valid()
  {
    && bb in seen && bb !in id && seen <= seen' && Extends(before, id)
    && (forall b {:trigger b in id} {:trigger b in seen'} :: Fresh(before, id, b) <==> b in seen' && b !in seen)
    && (forall u {:trigger Fresh(before, id, u)} :: Fresh(before, id, u) ==> Reachable(g, u))
    && (forall u, v {:trigger Fresh(before, id, u), g.Edge(u, v)} ::
          Fresh(before, id, u) && g.Edge(u, v) ==> v in seen')
    && (forall u {:trigger HasFreshParent(g, before, id, u)} ::
          Fresh(before, id, u) ==> g.Edge(bb, u) || HasFreshParent(g, before, id, u))
  }

  lemma ParentKept(g: Cfg, before: map<Block, int>, mid: map<Block, int>, id: map<Block, int>, u: Block)
    requires Extends(before, mid) && Extends(mid, id)
    ensures HasFreshParent(g, before, mid, u) ==> HasFreshParent(g, before, id, u)
    ensures HasFreshParent(g, mid, id, u) ==> HasFreshParent(g, before, id, u)
  {
    if HasFreshParent(g, before, mid, u) {
      var w :| Fresh(before, mid, w) && ForwardEdge(g, mid, w, u);
      assert Fresh(before, id, w) && ForwardEdge(g, id, w, u);
    }
    if HasFreshParent(g, mid, id, u) {
      var w :| Fresh(mid, id, w) && ForwardEdge(g, id, w, u);
      assert Fresh(before, id, w);
    }
  }

  lemma ExploreStart(g: Cfg, bb: Block, seen: set<Block>, id: map<Block, int>)
    requires g.Valid() && bb !in seen && id.Keys <= seen
    ensures Exploring(g, bb, seen + {bb}, id, seen + {bb}, id)
  {
    assert forall u :: !Fresh(id, id, u);
  }

  /** Visiting one more successor of `bb` continues the exploration. */
  lemma ExploreStep(g: Cfg, bb: Block, b: Block, seen: set<Block>, before: map<Block, int>,
                    mid: set<Block>, idMid: map<Block, int>, seen': set<Block>, id: map<Block, int>)
    requires g.Valid() && g.Edge(bb, b)
    requires Exploring(g, bb, seen, before, mid, idMid)
    requires Explored(g, b, mid, idMid, seen', id) && Extends(idMid, id)
    ensures Exploring(g, bb, seen, before, seen', id)
  {
    assert bb in mid && !Fresh(idMid, id, bb);
    forall u
      ensures Fresh(before, id, u) <==> Fresh(before, idMid, u) || Fresh(idMid, id, u)
    {
    }
    forall u | Fresh(before, id, u)
      ensures g.Edge(bb, u) || HasFreshParent(g, before, id, u)
    {
      ParentKept(g, before, idMid, id, u);
      assert HasFreshParent(g, before, idMid, u) || true;
      assert HasFreshParent(g, idMid, id, u) || true;
    }
  }

  // ----- edges to higher numbers -----

  /** A walk from any block. */
  datatype Trip = Outset(b: Block) | Onward(trip: Trip, b: Block)

  function Origin(t: Trip): Block {
    if t.Outset? then t.b else Origin(t.trip)
  }

  ghost predicate IsTrip(g: Cfg, t: Trip)
    requires g.Valid()
  {
    t.Onward? ==> IsTrip(g, t.trip) && g.Edge(t.trip.b, t.b)
  }

  ghost predicate Leads(g: Cfg, a: Block, b: Block)
    requires g.Valid()
  {
    exists t {:trigger IsTrip(g, t)} :: IsTrip(g, t) && Origin(t) == a && t.b == b
  }

  lemma LeadsOn(g: Cfg, a: Block, b: Block)
    requires g.Valid()
    ensures Leads(g, a, a)
    ensures forall c {:trigger g.Edge(b, c)} :: Leads(g, a, b) && g.Edge(b, c) ==> Leads(g, a, c)
  {
    assert IsTrip(g, Outset(a));
    forall c | Leads(g, a, b) && g.Edge(b, c)
      ensures Leads(g, a, c)
    {
      var t :| IsTrip(g, t) && Origin(t) == a && t.b == b;
      assert IsTrip(g, Onward(t, c));
    }
  }

  /** An edge from a numbered block to one without a number or with a higher one closes a cycle. */
  ghost predicate HigherCloses(g: Cfg, id: map<Block, int>)
    requires g.Valid()
  {
    forall u, v {:trigger id[u], g.Edge(u, v)} ::
      u in id && g.Edge(u, v) && (v !in id || id[u] < id[v]) ==> Leads(g, v, u)
  }

  /** The blocks under visit: those seen that have no number yet. */
  ghost predicate OpenLead(g: Cfg, seen: set<Block>, id: map<Block, int>, bb: Block)
    requires g.Valid()
  {
    forall v {:trigger Leads(g, v, bb)} :: v in seen && v !in id ==> Leads(g, v, bb)
  }

  /** Going on to a successor, when all that has been numbered since was also seen since. */
  lemma OpenLeadOn(g: Cfg, bb: Block, b: Block, seen: set<Block>, before: map<Block, int>, seen': set<Block>,
                   id: map<Block, int>)
    requires g.Valid() && g.Edge(bb, b) && OpenLead(g, seen, before, bb)
    requires Exploring(g, bb, seen + {bb}, before, seen', id)
    ensures OpenLead(g, seen', id, b)
  {
    forall v | v in seen' && v !in id
      ensures Leads(g, v, b)
    {
      LeadsOn(g, v, bb);
      assert v == bb || (v in seen && v !in before);
    }
  }

  lemma NumberedCloses(g: Cfg, bb: Block, seen: set<Block>, before: map<Block, int>, seen': set<Block>,
                       id: map<Block, int>, n: int)
    requires g.Valid() && OpenLead(g, seen, before, bb) && HigherCloses(g, id)
    requires Exploring(g, bb, seen + {bb}, before, seen', id)
    requires forall b :: b in id ==> id[b] < n
    requires forall v :: g.Edge(bb, v) ==> v in seen'
    ensures HigherCloses(g, id[bb := n])
  {
    var id' := id[bb := n];
    forall u, v | u in id' && g.Edge(u, v) && (v !in id' || id'[u] < id'[v])
      ensures Leads(g, v, u)
    {
      LeadsOn(g, v, v);
      if u == bb {
        assert v !in id && (v == bb || (v in seen && v !in before));
      } else {
        assert v !in id || id[u] < id[v];
      }
    }
  }

  /** Numbering `bb` last, above everything found from it, completes the exploration. */
  lemma ExploreFinish(g: Cfg, bb: Block, seen: set<Block>, before: map<Block, int>,
                      seen': set<Block>, id: map<Block, int>, n: int)
    requires g.Valid() && Reachable(g, bb) && bb !in seen
    requires Exploring(g, bb, seen + {bb}, before, seen', id)
    requires forall b :: b in id ==> id[b] < n
    requires forall v :: g.Edge(bb, v) ==> v in seen'
    ensures Explored(g, bb, seen, before, seen', id[bb := n])
  {
    var id' := id[bb := n];
    forall u | Fresh(before, id', u) && u != bb
      ensures HasFreshParent(g, before, id', u)
    {
      assert Fresh(before, id, u);
      if HasFreshParent(g, before, id, u) {
        ParentKept(g, before, id, id', u);
      } else {
        assert Fresh(before, id', bb) && ForwardEdge(g, id', bb, u);
      }
    }
  }

  function Reversed(s: seq<Block>): seq<Block> {
    if s == [] then [] else Reversed(s[1..]) + [s[0]]
  }

  lemma {:induction false} ReversedIndex(s: seq<Block>)
    ensures |Reversed(s)| == |s|
    ensures forall i {:trigger Reversed(s)[i]} :: 0 <= i < |s| ==> Reversed(s)[i] == s[|s| - 1 - i]
    ensures forall b :: b in Reversed(s) <==> b in s
  {
    if s != [] {
      ReversedIndex(s[1..]);
      assert s == [s[0]] + s[1..];
    }
  }

  /** The visit from the entry numbers exactly the reachable blocks. */
  lemma NumberingComplete(g: Cfg, order: seq<Block>, id: map<Block, int>, visited: set<Block>)
    requires g.Valid() && Indexed(order, id) && |order| > 0 && order[|order| - 1] == g.Entry()
    requires Explored(g, g.Entry(), {}, map[], visited, id) && g.Entry() in visited
    ensures Numbered(g, id)
  {
    assert forall b :: b in id <==> Fresh(map[], id, b);
    forall b
      ensures b in id <==> Reachable(g, b)
    {
      if Reachable(g, b) {
        var w :| WalkTo(g, w, b);
        assert forall x, y :: x in visited && g.Edge(x, y) ==> Fresh(map[], id, x) && y in visited;
        ClosedHoldsWalk(g, visited, w);
        assert Fresh(map[], id, b);
      }
    }
    forall b | b in id && b != g.Entry()
      ensures HasForwardEdge(g, id, b)
    {
      assert Fresh(map[], id, b) && HasFreshParent(g, map[], id, b);
      var w :| Fresh(map[], id, w) && ForwardEdge(g, id, w, b);
    }
    assert id[g.Entry()] == |order| - 1;
  }

  /** Moving the lower of two blocks to its idom loses no common chain element. */
  lemma ClimbKeepsCommon(t: Tree, b: Block, c: Block)
    requires t.Valid() && b in t.parent && c in t.parent && t.rank[b] < t.rank[c]
    ensures b != t.root
    ensures forall a :: t.OnChain(a, t.parent[b]) && t.OnChain(a, c) <==> t.OnChain(a, b) && t.OnChain(a, c)
  {
    if t.OnChain(b, c) {
      ChainFacts(t, b, c);
    }
  }

  /** What the chains of `b1` and `b2` share is what those of `p` and `q` share. */
  ghost predicate BothOn(t: Tree, p: Block, q: Block, b1: Block, b2: Block)
    requires t.Valid()
  {
    forall a {:trigger t.OnChain(a, b1)} {:trigger t.OnChain(a, b2)}
             {:trigger t.OnChain(a, p)} {:trigger t.OnChain(a, q)} ::
      t.OnChain(a, b1) && t.OnChain(a, b2) <==> t.OnChain(a, p) && t.OnChain(a, q)
  }

  /** The chain of `n` is what the chains of `pred` and of the known blocks among the first `k` of `ps` share. */
  ghost predicate MeetUpTo(t: Tree, ps: seq<Block>, k: int, pred: Block, n: Block)
    requires t.Valid() && 0 <= k <= |ps|
  {
    n in t.parent && forall a {:trigger t.OnChain(a, n)} ::
      t.OnChain(a, n) <==> t.OnChain(a, pred) && SharedBy(t, ps, k, a)
  }

  ghost predicate SharedBy(t: Tree, ps: seq<Block>, k: int, a: Block)
    requires t.Valid() && 0 <= k <= |ps|
  {
    forall j {:trigger ps[j]} :: 0 <= j < k && ps[j] in t.parent ==> t.OnChain(a, ps[j])
  }

  lemma SomePredKnown(g: Cfg, t: Tree, x: Block)
    requires Ready(g, t, x)
    ensures x in g.pred && exists q :: q in g.pred[x] && q in t.parent
  {
    assert HasForwardEdge(g, t.rank, x);
    var q :| ForwardEdge(g, t.rank, q, x);
    assert q in g.pred[x] && q in t.parent;
  }

  lemma MeetExtend(t: Tree, ps: seq<Block>, k: int, pred: Block, n: Block, n': Block)
    requires t.Valid() && 0 <= k < |ps| && MeetUpTo(t, ps, k, pred, n)
    requires if ps[k] != pred && ps[k] in t.parent then n' in t.parent && BothOn(t, ps[k], n, n', n') else n' == n
    ensures MeetUpTo(t, ps, k + 1, pred, n')
  {
    hide Tree.OnChain, Tree.Valid;
    forall a
      ensures t.OnChain(a, n') <==> t.OnChain(a, pred) && SharedBy(t, ps, k + 1, a)
    {
      assert t.OnChain(a, n) <==> t.OnChain(a, pred) && SharedBy(t, ps, k, a);
      assert SharedBy(t, ps, k + 1, a) <==> SharedBy(t, ps, k, a) && (ps[k] in t.parent ==> t.OnChain(a, ps[k]));
    }
  }

  lemma MeetFound(g: Cfg, t: Tree, x: Block, pred: Block, n: Block)
    requires g.Valid() && Inv(g, t) && x in g.pred && pred in g.pred[x] && pred in t.parent
    requires MeetUpTo(t, g.pred[x], |g.pred[x]|, pred, n)
    ensures Meet(g, t, x, n)
  {
    forall a
      ensures t.OnChain(a, n) <==> a in t.parent && Common(g, t, x, a)
    {
      if t.OnChain(a, n) {
        ChainFacts(t, a, n);
        forall p | p in t.parent && g.Edge(p, x)
          ensures t.OnChain(a, p)
        {
          var j :| 0 <= j < |g.pred[x]| && g.pred[x][j] == p;
        }
      }
      if Common(g, t, x, a) {
        assert g.Edge(pred, x);
        forall j | 0 <= j < |g.pred[x]| && g.pred[x][j] in t.parent
          ensures t.OnChain(a, g.pred[x][j])
        {
          assert g.pred[x][j] in g.pred[x];
          assert g.Edge(g.pred[x][j], x);
        }
      }
    }
  }

  /** The reachable blocks numbered `r` and up have the meet of their predecessors as idom. */
  ghost predicate Settled(g: Cfg, t: Tree, r: int)
    requires t.Valid()
  {
    && (forall b {:trigger t.rank[b]} :: b in t.rank && b != t.root && r <= t.rank[b] ==> b in t.parent)
    && (forall b {:trigger Meet(g, t, b, t.parent[b])} ::
          b in t.rank && b in t.parent && b != t.root && r <= t.rank[b] ==> Meet(g, t, b, t.parent[b]))
  }

  /** Inside a pass, when the blocks numbered `r` and up have been visited. */
  ghost predicate InPass(g: Cfg, t: Tree, r: int, changed: bool) {
    Inv(g, t) && Visited(g, t, r) && (!changed ==> Settled(g, t, r))
  }

  lemma PassReady(g: Cfg, t: Tree, x: Block, r: int, changed: bool)
    requires InPass(g, t, r, changed) && x in t.rank && x != t.root && t.rank[x] == r - 1
    ensures Ready(g, t, x)
  {
  }

  lemma PassSkip(g: Cfg, t: Tree, r: int, changed: bool)
    requires InPass(g, t, r, changed) && t.rank[t.root] == r - 1
    ensures InPass(g, t, r - 1, changed)
  {
    forall b | b in t.rank && r - 1 <= t.rank[b]
      ensures b == t.root
    {
      assert SameNumber(t.rank, b, t.root);
    }
    hide Inv, Settled, Tree.OnChain;
  }

  /** Giving the block numbered next below `r` its meet continues the pass; it changes nothing or lowers the slack. */
  lemma PassStep(g: Cfg, t: Tree, x: Block, n: Block, order: seq<Block>, r: int, changed: bool)
    requires InPass(g, t, r, changed) && Ready(g, t, x) && t.rank[x] == r - 1 && Meet(g, t, x, n) && x in order
    requires forall b {:trigger b in t.rank} :: b in t.rank ==> 0 <= t.rank[b]
    ensures Reparent(t, x, n).Valid()
    ensures x in t.parent && t.parent[x] == n ==> Reparent(t, x, n) == t && InPass(g, t, r - 1, changed)
    ensures !(x in t.parent && t.parent[x] == n) ==> InPass(g, Reparent(t, x, n), r - 1, true)
    ensures !(x in t.parent && t.parent[x] == n) ==> Slack(Reparent(t, x, n), order) < Slack(t, order)
  {
    if x in t.parent && t.parent[x] == n {
      UnchangedStep(g, t, x, n, r, changed);
    } else {
      StepKeepsInv(g, t, x, n);
      StepVisits(g, t, x, n);
      assert t.rank[t.root] >= 0 && t.Valid();
      hide Inv, Visited, Settled, Meet, Tree.Valid;
      StepDropsSlack(g, t, x, n, order);
    }
  }

  lemma UnchangedStep(g: Cfg, t: Tree, x: Block, n: Block, r: int, changed: bool)
    requires InPass(g, t, r, changed) && Ready(g, t, x) && t.rank[x] == r - 1 && Meet(g, t, x, n)
    requires x in t.parent && t.parent[x] == n
    ensures Reparent(t, x, n) == t && InPass(g, t, r - 1, changed)
  {
    assert t.parent == t.parent[x := n];
    assert t.Valid() && forall b {:trigger SameNumber(t.rank, b, x)} :: SameNumber(t.rank, b, x) ==> b == x;
    hide Inv, Ready, Visited, Meet, Settled, Tree.Valid;
    StepVisits(g, t, x, n);
    if !changed {
      SettledExtend(g, t, x, r);
    }
  }

  lemma SettledExtend(g: Cfg, t: Tree, x: Block, r: int)
    requires t.Valid() && Settled(g, t, r) && x in t.parent && t.rank[x] == r - 1 && Meet(g, t, x, t.parent[x])
    requires forall b {:trigger SameNumber(t.rank, b, x)} :: SameNumber(t.rank, b, x) ==> b == x
    ensures Settled(g, t, r - 1)
  {
    hide Meet;
    assert forall b {:trigger t.rank[b]} :: b in t.rank && t.rank[b] == t.rank[x] ==> SameNumber(t.rank, b, x);
  }

  lemma PassStart(g: Cfg, t: Tree, n: int)
    requires Inv(g, t) && forall b {:trigger b in t.rank} :: b in t.rank ==> t.rank[b] < n
    ensures t.Valid() && t.root in t.rank && InPass(g, t, n, false)
  {
  }

  lemma PassEnd(g: Cfg, t: Tree, changed: bool)
    requires InPass(g, t, 0, changed) && forall b {:trigger b in t.rank} :: b in t.rank ==> 0 <= t.rank[b]
    ensures Inv(g, t) && (!changed ==> Computed(g, t))
  {
  }

  lemma InitialInv(g: Cfg, t: Tree)
    requires Numbered(g, t.rank) && t.root == g.Entry() && t.parent == map[t.root := t.root]
    ensures Inv(g, t)
  {
    assert t.parent[t.root] == t.root;
    forall b, d | b in t.parent && Dominates(g, d, b)
      ensures t.OnChain(d, b)
    {
      EntryDominators(g, d);
    }
  }

  lemma StepDropsSlack(g: Cfg, t: Tree, x: Block, n: Block, order: seq<Block>)
    requires Ready(g, t, x) && Meet(g, t, x, n) && x in order && t.rank[t.root] >= 0
    requires forall b :: b in t.rank ==> 0 <= t.rank[b]
    requires x in t.parent ==> t.parent[x] != n
    ensures Reparent(t, x, n).Valid() && Slack(Reparent(t, x, n), order) < Slack(t, order)
  {
    MeetIsUpward(g, t, x, n);
    ReparentValid(t, x, n);
    if x in t.parent {
      ChainFacts(t, n, t.parent[x]);
    }
    SlackDrops(t, Reparent(t, x, n), x, n, order);
  }

  ghost predicate InTable(table: map<Block, set<Block>>, r: Block, j: Block) {
    r in table && j in table[r]
  }

  /** No predecessor of a reachable join is unreachable: otherwise the runner loop would not end. */
  ghost predicate JoinsReached(g: Cfg)
    requires g.Valid()
  {
    forall p, j {:trigger g.Edge(p, j)} :: g.Edge(p, j) && |g.pred[j]| >= 2 && Reachable(g, j) ==> Reachable(g, p)
  }

  /** The runner that starts in the predecessor `p` of `j` passes `r` before it stops. */
  ghost predicate RunnerHits(t: Tree, p: Block, j: Block, r: Block)
    requires t.Valid()
  {
    if j in t.parent then t.OnChain(r, p) && !t.OnChain(r, t.parent[j]) else r == p
  }

  ghost predicate RunnerPassed(t: Tree, p: Block, j: Block, r: Block, runner: Option<Block>)
    requires t.Valid()
  {
    if runner.Some? then j in t.parent && t.OnChain(r, p) && !t.OnChain(r, runner.value) else r == p
  }

  ghost predicate Met(g: Cfg, t: Tree, r: Block, j: Block)
    requires t.Valid() && g.Valid() && g.HasBlock(j)
  {
    |g.pred[j]| >= 2 && exists m :: 0 <= m < |g.pred[j]| && RunnerHits(t, g.pred[j][m], j, r)
  }

  lemma ComputedValid(g: Cfg, t: Tree)
    requires Computed(g, t)
    ensures t.Valid()
  {
  }

  lemma JoinReached(g: Cfg, t: Tree, p: Block, j: Block)
    requires g.Valid() && Computed(g, t) && JoinsReached(g) && g.HasBlock(j) && |g.pred[j]| >= 2 && p in g.pred[j]
    ensures g.Edge(p, j) && (j in t.parent <==> p in t.parent)
  {
    assert g.Edge(p, j);
    if Reachable(g, p) {
      EdgeReachable(g, p, j);
    }
    assert Reachable(g, p) <==> Reachable(g, j);
  }

  lemma IdomAbovePred(g: Cfg, t: Tree, p: Block, j: Block)
    requires g.Valid() && Computed(g, t) && g.Edge(p, j) && (j in t.parent ==> p in t.parent)
    ensures j in t.parent ==> t.OnChain(t.parent[j], p)
  {
    if j in t.parent {
      if j == t.root {
        RootOnChain(t, p);
      } else {
        assert Meet(g, t, j, t.parent[j]);
        assert t.OnChain(t.parent[j], t.parent[j]);
      }
    }
  }

  lemma RunnerMoves(t: Tree, p: Block, j: Block, v: Block)
    requires t.Valid() && (j in t.parent <==> p in t.parent)
    requires if j in t.parent then t.OnChain(v, p) && t.OnChain(t.parent[j], v) && v != t.parent[j] else v == p
    ensures var next := if v in t.parent then Some(t.parent[v]) else None;
      && (j in t.parent ==>
            v in t.parent && t.OnChain(t.parent[v], p) && t.OnChain(t.parent[j], t.parent[v])
            && t.rank[v] < t.rank[t.parent[v]])
      && forall r :: RunnerPassed(t, p, j, r, next) <==> RunnerPassed(t, p, j, r, Some(v)) || r == v
  {
    if j in t.parent {
      ChainFacts(t, t.parent[j], v);
      assert t.OnChain(t.parent[v], v);
      ChainTrans(t, t.parent[v], v, p);
      if t.OnChain(v, t.parent[v]) {
        ChainFacts(t, v, t.parent[v]);
      }
    }
    var next := if v in t.parent then Some(t.parent[v]) else None;
    forall r
      ensures RunnerPassed(t, p, j, r, next) <==> RunnerPassed(t, p, j, r, Some(v)) || r == v
    {
      if j in t.parent {
        assert t.OnChain(r, v) <==> r == v || t.OnChain(r, t.parent[v]);
      }
    }
  }

  lemma RunnerStops(t: Tree, p: Block, j: Block)
    requires t.Valid()
    ensures var stop := if j in t.parent then Some(t.parent[j]) else None;
      forall r :: RunnerPassed(t, p, j, r, stop) <==> RunnerHits(t, p, j, r)
  {
  }

  class Dominators {
    const g: Cfg
    var reversePostOrder: seq<Block>
    var postOrderId: map<Block, int>
    /** A block with a null idom is absent. */
    var idom: map<Block, Block>
    var domFrontier: map<Block, set<Block>>
    var domTreeSucc: map<Block, set<Block>>

    constructor (g: Cfg)
      ensures this.g == g
    {
      this.g := g;
      reversePostOrder, postOrderId, idom := [], map[], map[];
      domFrontier, domTreeSucc := map[], map[];
    }

    method PostOrderVisit(bb: Block, visited: set<Block>) returns (visited': set<Block>)
      requires g.Valid() && Reachable(g, bb) && g.HasBlock(bb) && bb !in visited
      requires visited <= g.BlockSet()
      requires Indexed(reversePostOrder, postOrderId) && postOrderId.Keys <= visited
      requires OpenLead(g, visited, postOrderId, bb) && HigherCloses(g, postOrderId)
      modifies `reversePostOrder, `postOrderId
      ensures Indexed(reversePostOrder, postOrderId) && Extends(old(postOrderId), postOrderId)
      ensures |reversePostOrder| > 0 && reversePostOrder[|reversePostOrder| - 1] == bb
      ensures visited' <= g.BlockSet() && bb in visited' && postOrderId.Keys <= visited'
      ensures Explored(g, bb, visited, old(postOrderId), visited', postOrderId)
      ensures HigherCloses(g, postOrderId)
      decreases g.BlockSet() - visited
    {
      hide Leads, HigherCloses, OpenLead;
      visited' := visited + {bb};
      var succs := g.succ[bb];
      ExploreStart(g, bb, visited, postOrderId);
      for i := 0 to |succs|
        invariant Indexed(reversePostOrder, postOrderId)
        invariant postOrderId.Keys <= visited' && visited' <= g.BlockSet()
        invariant Exploring(g, bb, visited + {bb}, old(postOrderId), visited', postOrderId)
        invariant HigherCloses(g, postOrderId)
        invariant forall j :: 0 <= j < i ==> succs[j] in visited'
      {
        var b := succs[i];
        if b !in visited' {
          ghost var mid, idMid := visited', postOrderId;
          assert g.Edge(bb, b);
          EdgeReachable(g, bb, b);
          assert bb in g.BlockSet() - visited;
          OpenLeadOn(g, bb, b, visited, old(postOrderId), visited', postOrderId);
          visited' := PostOrderVisit(b, visited');
          ExploreStep(g, bb, b, visited + {bb}, old(postOrderId), mid, idMid, visited', postOrderId);
        }
      }
      ExploreFinish(g, bb, visited, old(postOrderId), visited', postOrderId, |reversePostOrder|);
      NumberedCloses(g, bb, visited, old(postOrderId), visited', postOrderId, |reversePostOrder|);
      IndexedAppend(reversePostOrder, postOrderId, bb);
      postOrderId := postOrderId[bb := |reversePostOrder|];
      reversePostOrder := reversePostOrder + [bb];
    }

    /** The analysis has numbered the blocks of `g`. */
    ghost predicate Ordered()
      reads this
    {
      && Numbered(g, postOrderId)
      && (forall b {:trigger b in postOrderId} :: b in postOrderId ==> 0 <= postOrderId[b] < |reversePostOrder|)
      && |reversePostOrder| > 0 && reversePostOrder[0] == g.Entry()
      && (forall b {:trigger b in reversePostOrder} :: b in reversePostOrder <==> b in postOrderId)
      && (forall i {:trigger reversePostOrder[i]} :: 0 <= i < |reversePostOrder| ==>
            reversePostOrder[i] in postOrderId && postOrderId[reversePostOrder[i]] == |reversePostOrder| - 1 - i)
    }

    method CreateReversePostOrder()
      requires g.Valid()
      modifies `reversePostOrder, `postOrderId
      ensures Ordered() && HigherCloses(g, postOrderId)
    {
      reversePostOrder, postOrderId := [], map[];
      EntryReachable(g);
      var visited := PostOrderVisit(g.Entry(), {});
      NumberingComplete(g, reversePostOrder, postOrderId, visited);
      var order := reversePostOrder;
      reversePostOrder := Reversed(order);
      ReversedIndex(order);
    }

    ghost function T(): Tree
      reads this
      requires g.Valid()
    {
      Tree(g.Entry(), idom, postOrderId)
    }

    function GetIdom(b: Block): Option<Block>
      reads this
    {
      if b in idom then Some(idom[b]) else None
    }

    /** The nearest block on both idom chains. */
    method Intersect(p: Block, q: Block) returns (b: Block)
      requires g.Valid() && Inv(g, T()) && p in idom && q in idom
      ensures b in idom && BothOn(T(), p, q, b, b)
    {
      ghost var t := T();
      var b1, b2 := p, q;
      while b1 != b2
        invariant b1 in idom && b2 in idom && BothOn(t, p, q, b1, b2)
        decreases 2 * postOrderId[g.Entry()] - postOrderId[b1] - postOrderId[b2]
      {
        assert SameNumber(postOrderId, b1, b2) ==> b1 == b2;
        ghost var b1', b2' := b1, b2;
        while postOrderId[b1] < postOrderId[b2]
          invariant b1 in idom && b2 in idom && b2 == b2' && BothOn(t, p, q, b1, b2)
          invariant b1 == b1' || postOrderId[b1'] < postOrderId[b1]
          decreases postOrderId[g.Entry()] - postOrderId[b1]
        {
          ClimbKeepsCommon(t, b1, b2);
          b1 := idom[b1];
        }
        while postOrderId[b2] < postOrderId[b1]
          invariant b1 in idom && b2 in idom && BothOn(t, p, q, b1, b2)
          invariant b1 == b1' || postOrderId[b1'] < postOrderId[b1]
          invariant b2 == b2' || postOrderId[b2'] < postOrderId[b2]
          decreases postOrderId[g.Entry()] - postOrderId[b2]
        {
          ClimbKeepsCommon(t, b2, b1);
          b2 := idom[b2];
        }
      }
      b := b1;
    }

    /** The first of the listed blocks whose idom is known. */
    method FirstKnown(preds: seq<Block>) returns (pred: Block)
      requires exists q :: q in preds && q in idom
      ensures pred in preds && pred in idom
    {
      var k := 0;
      while preds[k] !in idom
        invariant 0 <= k < |preds| && forall j :: 0 <= j < k ==> preds[j] !in idom
        decreases |preds| - k
      {
        k := k + 1;
      }
      pred := preds[k];
    }

    /** Intersects the predecessors of `bb` whose idom is known, starting from the first such one. */
    method NewIdom(bb: Block) returns (newIdom: Block)
      requires g.Valid() && Ready(g, T(), bb)
      ensures Meet(g, T(), bb, newIdom)
    {
      ghost var t := T();
      SomePredKnown(g, t, bb);
      var preds := g.pred[bb];
      var pred := FirstKnown(preds);
      newIdom := pred;
      assert t.Valid() && Inv(g, t) && MeetUpTo(t, preds, 0, pred, newIdom);
      hide Ready, Inv, Visited, Meet, MeetUpTo, BothOn, Cfg.Valid, Tree.Valid, Tree.OnChain;
      for i := 0 to |preds|
        invariant newIdom in idom && MeetUpTo(t, preds, i, pred, newIdom)
      {
        var p := preds[i];
        ghost var newIdom' := newIdom;
        if p != pred && p in idom {
          newIdom := Intersect(p, newIdom);
        }
        MeetExtend(t, preds, i, pred, newIdom', newIdom);
      }
      MeetFound(g, t, bb, pred, newIdom);
    }

    /** Recomputes the idom of one block. */
    method Revise(bb: Block, ghost r: int, ghost before: bool) returns (changed: bool)
      requires g.Valid() && Ordered() && InPass(g, T(), r, before)
      requires bb in postOrderId && bb != g.Entry() && postOrderId[bb] == r - 1
      modifies `idom
      ensures T().Valid() && InPass(g, T(), r - 1, before || changed)
      ensures if changed then Slack(T(), reversePostOrder) < old(Slack(T(), reversePostOrder)) else T() == old(T())
    {
      hide InPass, Slack, Inv, Ready, Visited, Settled, Meet, Tree.Valid;
      ghost var t := T();
      PassReady(g, t, bb, r, before);
      var newIdom := NewIdom(bb);
      PassStep(g, t, bb, newIdom, reversePostOrder, r, before);
      changed := GetIdom(bb) != Some(newIdom);
      if changed {
        idom := idom[bb := newIdom];
        assert T() == Reparent(t, bb, newIdom);
      }
    }

    method CreateIdom()
      requires g.Valid() && Ordered()
      modifies `idom
      ensures Computed(g, T())
    {
      var root := g.Entry();
      idom := map[root := root];
      InitialInv(g, T());
      var changed := true;
      while changed
        invariant Inv(g, T()) && (!changed ==> Computed(g, T()))
        decreases Slack(T(), reversePostOrder), if changed then 1 else 0
      {
        changed := Pass();
      }
    }

    /** One sweep over the blocks in reverse post-order. */
    method Pass() returns (changed: bool)
      requires g.Valid() && Ordered() && Inv(g, T())
      modifies `idom
      ensures Inv(g, T())
      ensures if changed then Slack(T(), reversePostOrder) < old(Slack(T(), reversePostOrder))
              else T() == old(T()) && Computed(g, T())
    {
      hide Inv, InPass, Visited, Settled, Slack, Cfg.Valid, Tree.OnChain, Tree.Valid;
      changed := false;
      var n := |reversePostOrder|;
      PassStart(g, T(), n);
      for i := 0 to n
        invariant T().Valid() && InPass(g, T(), n - i, changed)
        invariant if changed then Slack(T(), reversePostOrder) < old(Slack(T(), reversePostOrder)) else T() == old(T())
      {
        var bb := reversePostOrder[i];
        if bb == g.Entry() {
          PassSkip(g, T(), n - i, changed);
        } else {
          var c := Revise(bb, n - i, changed);
          changed := changed || c;
        }
      }
      PassEnd(g, T(), changed);
    }

    method AddDominanceFrontier(bb: Block, frontierBb: Block)
      modifies `domFrontier
      ensures forall r, j :: InTable(domFrontier, r, j) <==>
        InTable(old(domFrontier), r, j) || (r == bb && j == frontierBb)
    {
      var f := if bb in domFrontier then domFrontier[bb] else {};
      domFrontier := domFrontier[bb := f + {frontierBb}];
    }

    /** Puts `bb` into the frontier of every block from its predecessor `p` up to, but not including, its idom. */
    method RunUp(bb: Block, p: Block)
      requires g.Valid() && Computed(g, T()) && g.Edge(p, bb) && (bb in idom <==> p in idom)
      modifies `domFrontier
      ensures forall r, j :: InTable(domFrontier, r, j) <==>
          InTable(old(domFrontier), r, j) || (j == bb && RunnerHits(T(), p, bb, r))
    {
      var runner := Some(p);
      IdomAbovePred(g, T(), p, bb);
      while runner != GetIdom(bb)
        invariant bb in idom ==> runner.Some? && T().OnChain(runner.value, p) && T().OnChain(idom[bb], runner.value)
        invariant bb !in idom ==> runner == Some(p) || runner == None
        invariant forall r, j :: InTable(domFrontier, r, j) <==>
            InTable(old(domFrontier), r, j) || (j == bb && RunnerPassed(T(), p, bb, r, runner))
        decreases if bb in idom then postOrderId[g.Entry()] - postOrderId[runner.value] else if runner.Some? then 1
          else 0
      {
        AddDominanceFrontier(runner.value, bb);
        RunnerMoves(T(), p, bb, runner.value);
        runner := GetIdom(runner.value);
      }
      RunnerStops(T(), p, bb);
    }

    /** Runs up from every predecessor of a join block. */
    method FrontierOfJoin(bb: Block)
      requires g.Valid() && T().Valid() && Computed(g, T()) && JoinsReached(g) && g.HasBlock(bb) && |g.pred[bb]| >= 2
      modifies `domFrontier
      ensures forall r, j :: InTable(domFrontier, r, j) <==>
          InTable(old(domFrontier), r, j) || (j == bb && Met(g, T(), r, bb))
    {
      hide Computed, JoinsReached, RunnerHits, Dominates;
      ghost var t := T();
      var preds := g.pred[bb];
      for k := 0 to |preds|
        invariant forall r, j :: InTable(domFrontier, r, j) <==>
            InTable(old(domFrontier), r, j) || (j == bb && exists m :: 0 <= m < k && RunnerHits(t, preds[m], bb, r))
      {
        JoinReached(g, t, preds[k], bb);
        RunUp(bb, preds[k]);
      }
    }

    method CreateDominanceFrontier()
      requires g.Valid() && Computed(g, T()) && JoinsReached(g)
      modifies `domFrontier
      ensures forall r, j :: InTable(domFrontier, r, j) <==>
          InTable(old(domFrontier), r, j) || (g.HasBlock(j) && Met(g, T(), r, j))
    {
      hide Computed, JoinsReached, RunnerHits, Dominates;
      ComputedValid(g, T());
      for i := 0 to |g.blocks|
        invariant forall r, j :: InTable(domFrontier, r, j) <==>
            InTable(old(domFrontier), r, j) || (j in g.blocks[..i] && g.HasBlock(j) && Met(g, T(), r, j))
      {
        var bb := g.blocks[i];
        assert g.HasBlock(bb) && g.blocks[..i + 1] == g.blocks[..i] + [bb];
        if |g.pred[bb]| >= 2 {
          FrontierOfJoin(bb);
        }
      }
    }

    method AddDomTreeSuccBlock(bb: Block, succBb: Block)
      modifies `domTreeSucc
      ensures forall r, j :: InTable(domTreeSucc, r, j) <==> InTable(old(domTreeSucc), r, j) || (r == bb && j == succBb)
    {
      var f := if bb in domTreeSucc then domTreeSucc[bb] else {};
      domTreeSucc := domTreeSucc[bb := f + {succBb}];
    }

    /** Files every block but the entry under its idom.  (A block without idom would be filed under null.) */
    method CreateDomTreeSucc()
      requires g.Valid() && Computed(g, T())
      modifies `domTreeSucc
      ensures forall p, c :: InTable(domTreeSucc, p, c) <==>
          InTable(old(domTreeSucc), p, c) || (g.HasBlock(c) && c in idom && c != g.Entry() && idom[c] == p)
    {
      for i := 0 to |g.blocks|
        invariant forall p, c :: InTable(domTreeSucc, p, c) <==>
            InTable(old(domTreeSucc), p, c) || (c in g.blocks[..i] && c in idom && c != g.Entry() && idom[c] == p)
      {
        var bb := g.blocks[i];
        assert g.blocks[..i + 1] == g.blocks[..i] + [bb];
        if bb in idom && idom[bb] != bb {
          AddDomTreeSuccBlock(idom[bb], bb);
        }
      }
    }

    /** The tables agree with the dominance relation of the graph. */
    ghost predicate Analysed()
      reads this
    {
      && g.Valid()
      && Computed(g, T())
      && (forall r, j {:trigger InTable(domFrontier, r, j)} ::
            InTable(domFrontier, r, j) <==> g.HasBlock(j) && Met(g, T(), r, j))
      && (forall p, c {:trigger InTable(domTreeSucc, p, c)} ::
            InTable(domTreeSucc, p, c) <==> g.HasBlock(c) && c in idom && c != g.Entry() && idom[c] == p)
    }

    /** The whole analysis of one function. */
    method Run()
      requires g.Valid() && JoinsReached(g)
      modifies this
      ensures Analysed()
    {
      idom := map[];
      domFrontier := map b | b in g.BlockSet() :: {};
      domTreeSucc := map b | b in g.BlockSet() :: {};
      CreateReversePostOrder();
      CreateIdom();
      CreateDominanceFrontier();
      CreateDomTreeSucc();
    }
  }

  /** The textbook frontier: `r` dominates a predecessor of `j` without strictly dominating `j`. */
  ghost predicate DominanceFrontier(g: Cfg, r: Block, j: Block)
    requires g.Valid()
  {
    exists p :: g.Edge(p, j) && Dominates(g, r, p) && !StrictlyDominates(g, r, j)
  }

  lemma SinglePred(g: Cfg, t: Tree, p: Block, j: Block, r: Block)
    requires g.Valid() && Computed(g, t) && j in t.parent && j != t.root && g.Edge(p, j) && p in t.parent
    requires |g.pred[j]| < 2 && t.OnChain(r, p)
    ensures t.OnChain(r, t.parent[j])
  {
    assert p in g.pred[j];
    assert forall q :: q in g.pred[j] ==> q == p;
    ChainFacts(t, r, p);
    assert Meet(g, t, j, t.parent[j]);
    assert Common(g, t, j, r);
  }

  lemma StrictOnChain(g: Cfg, t: Tree, r: Block, j: Block)
    requires g.Valid() && Computed(g, t) && j in t.parent && j != t.root
    ensures StrictlyDominates(g, r, j) <==> t.OnChain(r, t.parent[j])
  {
    ChainIsDominators(g, t, r, j);
    if t.OnChain(j, t.parent[j]) {
      ChainFacts(t, j, t.parent[j]);
    }
  }

  /** For every block but the entry, the computed frontier is the textbook one. */
  lemma FrontierExact(g: Cfg, t: Tree, r: Block, j: Block)
    requires g.Valid() && Computed(g, t) && JoinsReached(g) && g.HasBlock(j) && j != g.Entry() && Reachable(g, r)
    ensures Met(g, t, r, j) <==> DominanceFrontier(g, r, j)
  {
    if Met(g, t, r, j) {
      var m :| 0 <= m < |g.pred[j]| && RunnerHits(t, g.pred[j][m], j, r);
      var p := g.pred[j][m];
      JoinReached(g, t, p, j);
      assert j in t.parent;
      ChainIsDominators(g, t, r, p);
      StrictOnChain(g, t, r, j);
    }
    if DominanceFrontier(g, r, j) {
      var p :| g.Edge(p, j) && Dominates(g, r, p) && !StrictlyDominates(g, r, j);
      EdgeReachable(g, p, j);
      assert p in t.parent && j in t.parent;
      ChainIsDominators(g, t, r, p);
      StrictOnChain(g, t, r, j);
      if |g.pred[j]| < 2 {
        SinglePred(g, t, p, j, r);
      }
      var m :| 0 <= m < |g.pred[j]| && g.pred[j][m] == p;
      assert RunnerHits(t, p, j, r);
    }
  }

  /** The entry is never put into its own frontier, where the definition wants it as soon as some
      reachable block branches back to the entry. */
  lemma EntryFrontier(g: Cfg, t: Tree)
    requires g.Valid() && Computed(g, t) && JoinsReached(g)
    ensures !Met(g, t, g.Entry(), g.Entry())
    ensures DominanceFrontier(g, g.Entry(), g.Entry()) <==> exists p :: g.Edge(p, g.Entry()) && Reachable(g, p)
  {
    var e := g.Entry();
    forall p | g.Edge(p, e) && Reachable(g, p)
      ensures Dominates(g, e, p)
    {
      assert p in t.parent;
      RootOnChain(t, p);
      ChainIsDominators(g, t, e, p);
    }
    assert t.OnChain(e, t.parent[e]);
  }

  /** Two blocks, the second of which branches back to the entry. */
  const LOOP_AT_ENTRY := Cfg([0, 1], map[0 := [1], 1 := [0]], map[0 := [1], 1 := [0]])

  lemma LoopAtEntryValid()
    ensures LOOP_AT_ENTRY.Valid() && LOOP_AT_ENTRY.Entry() == 0 && JoinsReached(LOOP_AT_ENTRY)
  {
    var g := LOOP_AT_ENTRY;
    assert g.succ[0] == [1] && g.succ[1] == [0] && g.pred[0] == [1] && g.pred[1] == [0]
        && g.succ.Keys == {0, 1} == g.pred.Keys;
    assert g.blocks[0] in g.blocks && g.blocks[1] in g.blocks;
    assert forall b :: g.HasBlock(b) <==> b == 0 || b == 1;
    assert forall a, b :: g.Edge(a, b) <==> (a == 0 && b == 1) || (a == 1 && b == 0);
  }

  /** On this graph the entry is missing from its own frontier. */
  lemma EntryFrontierMissed(t: Tree)
    requires Computed(LOOP_AT_ENTRY, t)
    ensures LOOP_AT_ENTRY.Valid() && t.Valid()
    ensures !Met(LOOP_AT_ENTRY, t, 0, 0) && DominanceFrontier(LOOP_AT_ENTRY, 0, 0)
  {
    var g := LOOP_AT_ENTRY;
    ComputedValid(g, t);
    LoopAtEntryValid();
    EntryFrontier(g, t);
    assert WalkTo(g, Step(Start, 1), 1);
    assert g.Edge(1, 0) && Reachable(g, 1);
  }

  /** The computed frontier of every reachable block is the textbook one, if and only if no reachable
      block branches to the entry. */
  lemma FrontierExactIff(g: Cfg, t: Tree)
    requires g.Valid() && Computed(g, t) && JoinsReached(g)
    ensures (forall r, j {:trigger Met(g, t, r, j)} :: Reachable(g, r) && g.HasBlock(j) ==>
               (Met(g, t, r, j) <==> DominanceFrontier(g, r, j)))
       <==> !exists p :: g.Edge(p, g.Entry()) && Reachable(g, p)
  {
    var e := g.Entry();
    EntryReachable(g);
    EntryFrontier(g, t);
    if !exists p :: g.Edge(p, e) && Reachable(g, p) {
      forall r, j | Reachable(g, r) && g.HasBlock(j)
        ensures Met(g, t, r, j) <==> DominanceFrontier(g, r, j)
      {
        if j != e {
          FrontierExact(g, t, r, j);
        } else {
          NoPredNoFrontier(g, t, r);
        }
      }
    }
  }

  lemma NoPredNoFrontier(g: Cfg, t: Tree, r: Block)
    requires g.Valid() && Computed(g, t) && JoinsReached(g)
    requires forall p {:trigger g.Edge(p, g.Entry())} :: g.Edge(p, g.Entry()) ==> !Reachable(g, p)
    ensures !Met(g, t, r, g.Entry()) && !DominanceFrontier(g, r, g.Entry())
  {
    hide Computed, Tree.OnChain;
    var e := g.Entry();
    EntryReachable(g);
    if |g.pred[e]| >= 2 {
      EntryJoin(g);
    }
  }

  lemma EntryJoin(g: Cfg)
    requires g.Valid() && JoinsReached(g) && |g.pred[g.Entry()]| >= 2
    ensures exists p :: g.Edge(p, g.Entry()) && Reachable(g, p)
  {
    var p := g.pred[g.Entry()][0];
    EntryReachable(g);
    assert p in g.pred[g.Entry()];
    assert g.Edge(p, g.Entry());
  }

  /** From an unreachable predecessor of a reachable join the runner never meets the idom of the join. */
  lemma StrayRunnerNeverStops(g: Cfg, t: Tree, p: Block, j: Block, steps: nat)
    requires g.Valid() && Computed(g, t) && g.Edge(p, j) && Reachable(g, j) && !Reachable(g, p)
    ensures j in t.parent && Climb(t, Some(p), steps) != Some(t.parent[j])
  {
    assert p !in t.parent && j in t.parent;
    StrayClimb(t, p, steps);
  }

  ghost function Climb(t: Tree, runner: Option<Block>, steps: nat): Option<Block>
    decreases steps
  {
    if steps == 0 then runner
    else Climb(t, if runner.Some? && runner.value in t.parent then Some(t.parent[runner.value]) else None, steps - 1)
  }

  lemma {:induction false} StrayClimb(t: Tree, p: Block, steps: nat)
    requires p !in t.parent
    ensures Climb(t, Some(p), steps) == (if steps == 0 then Some(p) else None)
  {
    if steps > 0 {
      NullClimb(t, steps - 1);
    }
  }

  lemma {:induction false} NullClimb(t: Tree, steps: nat)
    ensures Climb(t, None, steps) == None
  {
    if steps > 0 {
      NullClimb(t, steps - 1);
    }
  }
}
