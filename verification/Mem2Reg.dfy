/** The pass itself: phi insertion, renaming along the dominator tree, and removal of the slots. */
module Mem2RegPass {
  import opened ControlFlow
  import opened DominatorTree
  import opened IdomInvariants
  import opened DominatorAnalysis
  import opened IR
  import opened Promotion
  import opened PromotionSimulation
  import opened PhiInsertion
  import opened Renaming
  import opened SlotUse

  ghost predicate LiveAt(live: map<Var, set<Block>>, v: Var, b: Block) {
    v in live && b in live[v]
  }

  /** The members of a set, in some order. */
  method Listed(s: set<Block>) returns (l: seq<Block>)
    ensures forall b {:trigger b in l} {:trigger b in s} :: b in l <==> b in s
  {
    l := [];
    var rest := s;
    while rest != {}
      invariant rest <= s && forall b {:trigger b in l} {:trigger b in s} :: b in l <==> b in s && b !in rest
      decreases rest
    {
      HasMember(rest);
      var b :| b in rest;
      l := l + [b];
      rest := rest - {b};
    }
  }

  /** The state of the work list: it lists the stores and the blocks given a phi so far, the frontiers of
      its first `i` blocks are covered, and nothing outside the iterated frontier has been given a phi. */
  ghost predicate Working(frontier: map<Block, set<Block>>, start: set<Block>, placed: set<Block>, l: seq<Block>,
                          i: int)
    requires 0 <= i <= |l|
  {
    && (forall b {:trigger b in l} :: b in l ==> b in start || b in placed)
    && (forall b {:trigger b in start} {:trigger b in placed} :: b in start || b in placed ==> b in l)
    && (forall k, j {:trigger Frontier(frontier, l[k], j)} :: 0 <= k < i && Frontier(frontier, l[k], j) ==> j in placed)
    && (forall x {:trigger FrontierClosed(frontier, start, x)} :: FrontierClosed(frontier, start, x) ==> placed <= x)
  }

  lemma WorkingAdd(frontier: map<Block, set<Block>>, start: set<Block>, placed: set<Block>, l: seq<Block>, i: int,
                   j: Block)
    requires 0 <= i < |l| && Working(frontier, start, placed, l, i) && Frontier(frontier, l[i], j)
    ensures Working(frontier, start, placed + {j}, l + [j], i)
  {
    assert l[i] in l;
    forall k, m | 0 <= k < i && Frontier(frontier, (l + [j])[k], m)
      ensures m in placed + {j}
    {
      assert (l + [j])[k] == l[k];
    }
  }

  lemma WorkingNext(frontier: map<Block, set<Block>>, start: set<Block>, placed: set<Block>, l: seq<Block>, i: int)
    requires 0 <= i < |l| && Working(frontier, start, placed, l, i)
    requires forall j {:trigger Frontier(frontier, l[i], j)} :: Frontier(frontier, l[i], j) ==> j in placed
    ensures Working(frontier, start, placed, l, i + 1)
  {
  }

  lemma WorkingDone(frontier: map<Block, set<Block>>, start: set<Block>, placed: set<Block>, l: seq<Block>)
    requires Working(frontier, start, placed, l, |l|)
    ensures IteratedFrontier(frontier, start, placed)
  {
    forall d, j | (d in start || d in placed) && Frontier(frontier, d, j)
      ensures j in placed
    {
      var k :| 0 <= k < |l| && l[k] == d;
    }
  }

  lemma AllPlaced(c: Ctx, frontier: map<Block, set<Block>>, live: map<Var, set<Block>>, placedOf: map<Var, set<Block>>)
    requires c.g.Valid() && live.Keys == placedOf.Keys
    requires forall v, b {:trigger b in live[v]} ::
      v in live ==> (b in live[v] <==> c.g.HasBlock(b) && StoresIn(c.code, b, v))
    requires forall v, b {:trigger StoresIn(c.code, b, v)} :: c.g.HasBlock(b) && StoresIn(c.code, b, v) ==> v in live
    requires forall b, u {:trigger (b, u) in c.phi} :: (b, u) in c.phi <==> u in placedOf && b in placedOf[u]
    requires forall u {:trigger placedOf[u]} :: u in placedOf ==>
      IteratedFrontier(frontier, live[u], placedOf[u]) && placedOf[u] <= c.g.BlockSet()
    ensures Placed(c, frontier)
  {
    forall b, v | (b, v) in c.phi
      ensures c.g.HasBlock(b)
    {
      assert b in placedOf[v];
      assert b in c.g.BlockSet();
    }
    forall v
      ensures IteratedFrontier(frontier, StoreBlocks(c, v), PhiBlocks(c, v))
    {
      forall b
        ensures b in StoreBlocks(c, v) <==> c.g.HasBlock(b) && StoresIn(c.code, b, v)
      {
      }
      if v in live {
        assert StoreBlocks(c, v) == live[v];
        forall b
          ensures b in PhiBlocks(c, v) <==> b in placedOf[v]
        {
          assert (b, v) in c.phi <==> b in placedOf[v];
        }
        assert PhiBlocks(c, v) == placedOf[v];
      } else {
        assert StoreBlocks(c, v) == {};
        assert PhiBlocks(c, v) == {};
      }
    }
  }

  ghost predicate FrontierInside(g: Cfg, frontier: map<Block, set<Block>>) {
    forall r, j {:trigger Frontier(frontier, r, j)} :: Frontier(frontier, r, j) ==> g.HasBlock(j)
  }

  lemma NotAmongEarlier(s: seq<Block>, i: nat)
    requires NoRepeats(s) && i < |s|
    ensures s[i] !in s[..i]
  {
  }

  lemma SuccHasPhis(c: Ctx, n: Names, st: RenameState, base: map<Var, seq<Operand>>, b: Block, s: Block)
    requires b in c.code && Inside(c, n, st, base, b, |c.code[b]|) && c.g.Edge(b, s)
    ensures s in c.t.parent && s in st.phis
  {
  }

  /** No phi of the row finds its slot's stack empty. */
  ghost predicate Answered(row: seq<Phi>, stack: map<Var, seq<Operand>>) {
    forall k {:trigger row[k]} :: 0 <= k < |row| && row[k].lval in stack ==> stack[row[k].lval] != []
  }

  lemma PhisAnswered(c: Ctx, n: Names, st: RenameState, base: map<Var, seq<Operand>>, address: Block -> int, b: Block,
                     s: Block)
    requires b in c.code && Inside(c, n, st, base, b, |c.code[b]|) && c.g.Edge(b, s)
    requires Spans(c) && ConsultableIn(c, address) && LeftBefore(c, address, st.exited, b)
    ensures s in c.t.parent && s in st.phis && Answered(st.phis[s], st.stack)
  {
    hide Inside, LoadsHaveValues, LeftBefore, EmptyStackAsked;
    SuccHasPhis(c, n, st, base, b, s);
    forall k | 0 <= k < |st.phis[s]| && st.phis[s][k].lval in st.stack
      ensures st.stack[st.phis[s][k].lval] != []
    {
      PhiPlaced(c, n, st, base, b, s, k);
      AskedIff(c, n, st, base, address, b, s, st.phis[s][k].lval);
    }
  }

  lemma PhiPlaced(c: Ctx, n: Names, st: RenameState, base: map<Var, seq<Operand>>, b: Block, s: Block, k: nat)
    requires b in c.code && Inside(c, n, st, base, b, |c.code[b]|) && c.g.Edge(b, s) && s in st.phis && k < |st.phis[s]|
    ensures (s, st.phis[s][k].lval) in c.phi
  {
    hide PairsOk, UsesDominated, Closed, Addressed, CodeState, Resolved, OnlyLoads, NoLoadValues, Stacked, BaseIs;
    assert s in c.t.parent;
  }

  /** The phis of the first successors have been filled and no others. */
  ghost predicate FilledFor(phis0: map<Block, seq<Phi>>, phis: map<Block, seq<Phi>>, done: seq<Block>,
                            stack: map<Var, seq<Operand>>, b: Block) {
    && phis.Keys == phis0.Keys
    && forall s {:trigger phis[s]} ::
         s in phis0 ==> phis[s] == if s in done then Filled(phis0[s], stack, b) else phis0[s]
  }

  lemma FilledForNone(phis: map<Block, seq<Phi>>, succs: seq<Block>, stack: map<Var, seq<Operand>>, b: Block)
    ensures FilledFor(phis, phis, succs[..0], stack, b)
  {
  }

  lemma FilledForNext(phis0: map<Block, seq<Phi>>, phis: map<Block, seq<Phi>>, succs: seq<Block>, i: nat,
                      stack: map<Var, seq<Operand>>, b: Block)
    requires NoRepeats(succs) && i < |succs| && succs[i] in phis0 && FilledFor(phis0, phis, succs[..i], stack, b)
    ensures succs[i] in phis && phis[succs[i]] == phis0[succs[i]]
    ensures FilledFor(phis0, phis[succs[i] := Filled(phis0[succs[i]], stack, b)], succs[..i + 1], stack, b)
  {
    hide Filled, NoRepeats;
    var x := succs[i];
    NotAmongEarlier(succs, i);
    assert succs[..i + 1] == succs[..i] + [x];
    assert x in phis.Keys && x !in succs[..i];
    assert phis[x] == phis0[x];
    var next := phis[x := Filled(phis0[x], stack, b)];
    assert next.Keys == phis0.Keys;
    forall s | s in phis0
      ensures next[s] == if s in succs[..i + 1] then Filled(phis0[s], stack, b) else phis0[s]
    {
      assert s in phis.Keys && (s != x ==> next[s] == phis[s]);
    }
  }

  lemma FilledForAll(phis0: map<Block, seq<Phi>>, phis: map<Block, seq<Phi>>, succs: seq<Block>,
                     stack: map<Var, seq<Operand>>, b: Block)
    requires FilledFor(phis0, phis, succs[..|succs|], stack, b)
    ensures phis.Keys == phis0.Keys
    ensures forall s {:trigger phis[s]} ::
      s in phis0 ==> phis[s] == if s in succs then Filled(phis0[s], stack, b) else phis0[s]
  {
    assert succs[..|succs|] == succs;
  }

  /** The children table files every block but the entry under its idom, and no block lists a successor twice. */
  ghost predicate Tables(c: Ctx, children: map<Block, set<Block>>)
    requires Spans(c)
  {
    && (forall p, k {:trigger InTable(children, p, k)} ::
          InTable(children, p, k) <==> k in c.t.parent && k != c.t.root && c.t.parent[k] == p)
    && (forall b {:trigger c.g.succ[b]} {:trigger b in c.g.succ} ::
          b in c.t.parent ==> b in c.g.succ && NoRepeats(c.g.succ[b]))
  }

  lemma KidsOf(c: Ctx, children: map<Block, set<Block>>, b: Block)
    requires Spans(c) && Tables(c, children)
    ensures ChildrenOf(c, b, if b in children then children[b] else {})
  {
    var kids := if b in children then children[b] else {};
    forall k
      ensures k in kids <==> k in c.t.parent && k != c.t.root && c.t.parent[k] == b
    {
      assert k in kids <==> InTable(children, b, k);
    }
  }

  lemma SuccKnown(c: Ctx, children: map<Block, set<Block>>, b: Block)
    requires Spans(c) && Tables(c, children) && b in c.t.parent
    ensures b in c.g.succ && NoRepeats(c.g.succ[b])
  {
    var s := if b in c.g.succ then c.g.succ[b] else [];
  }

  lemma ConsultableLoads(c: Ctx, address: Block -> int)
    requires Spans(c) && ConsultableIn(c, address)
    ensures LoadsHaveValues(c)
  {
  }

  /** The children done are those with the lowest addresses. */
  ghost predicate Elders(kids: set<Block>, done: set<Block>, address: Block -> int) {
    forall k, m {:trigger k in done, m in kids} :: k in done && m in kids && m !in done ==> address(k) < address(m)
  }

  lemma NoElders(kids: set<Block>, address: Block -> int)
    ensures Elders(kids, {}, address)
  {
  }

  predicate Eldest(s: set<Block>, address: Block -> int, k: Block) {
    k in s && forall m {:trigger m in s} :: m in s ==> address(k) <= address(m)
  }

  lemma {:induction false} HasEldest(s: set<Block>, address: Block -> int)
    requires s != {}
    ensures exists k :: Eldest(s, address, k)
    decreases s
  {
    HasMember(s);
    var k :| k in s;
    var rest := s - {k};
    if rest == {} {
      assert s == {k};
      assert Eldest(s, address, k);
    } else {
      HasEldest(rest, address);
      var e :| Eldest(rest, address, e);
      EldestOf(s, address, k, e);
    }
  }

  lemma EldestOf(s: set<Block>, address: Block -> int, k: Block, e: Block)
    requires k in s && Eldest(s - {k}, address, e)
    ensures Eldest(s, address, if address(k) <= address(e) then k else e)
  {
    forall m | m in s
      ensures address(if address(k) <= address(e) then k else e) <= address(m)
    {
      assert m == k || m in s - {k};
    }
  }

  lemma NextElders(kids: set<Block>, done: set<Block>, address: Block -> int, kid: Block)
    requires Ordered(address) && Elders(kids, done, address) && done <= kids && kid in kids && kid !in done
    requires Eldest(kids - done, address, kid)
    ensures Elders(kids, done + {kid}, address)
    ensures forall k {:trigger k in done} {:trigger k in kids} :: k in done <==> k in kids && address(k) < address(kid)
  {
    forall k
      ensures k in done <==> k in kids && address(k) < address(kid)
      ensures k in kids && k !in done && k != kid ==> address(kid) < address(k)
    {
      if k in kids && k !in done {
        assert k in kids - done;
      }
    }
  }

  lemma KidLeftBefore(c: Ctx, n: Names, address: Block -> int, s: RenameState, s': RenameState, b: Block,
                      kids: set<Block>, done: set<Block>, kid: Block)
    requires Entering(c, n, s, b) && Entering(c, n, s', kid) && Spans(c) && LeftBefore(c, address, s.exited, b)
    requires ChildrenDone(c, s, s', b, done) && ChildrenOf(c, b, kids) && kid in kids
    requires forall k {:trigger k in done} {:trigger k in kids} :: k in done <==> k in kids && address(k) < address(kid)
    ensures LeftBefore(c, address, s'.exited, kid)
  {
    hide Entering, Spans, LeftBefore, ChildrenDone, ChildrenOf;
    EnteringFacts(c, n, s, b);
    EnteringFacts(c, n, s', kid);
    LeftBeforeKid(c, address, s, s', b, kids, done, kid);
  }

  class Mem2Reg {
    const g: Cfg
    /** Where each block is in memory: the children of a block are kept in this order. */
    const address: Block -> int
    const frontier: map<Block, set<Block>>
    const children: map<Block, set<Block>>
    ghost const t: Tree
    ghost const source: map<Block, seq<Instr>>
    ghost const at: map<Id, (Block, int)>

    var code: map<Block, seq<Instr>>
    var phis: map<Block, seq<Phi>>
    var nextId: Id
    /** Which blocks have a phi for which slot, and its identity. */
    var bbHasVarPhi: map<(Block, Var), Id>
    ghost var phiAt: map<Id, (Block, Var)>
    /** The stack of current values of each slot. */
    var varValStack: map<Var, seq<Operand>>
    /** Renaming so far: what replaced each load, the blocks whose successors are filled, the blocks done. */
    ghost var sigma: map<Id, Operand>
    ghost var exited: set<Block>
    ghost var finished: set<Block>

    /** Takes over the tables of a finished dominator analysis. */
    constructor (dom: Dominators, code: map<Block, seq<Instr>>, nextFree: Id, address: Block -> int,
                 ghost at: map<Id, (Block, int)>)
      requires dom.Analysed()
      ensures this.address == address
      ensures this.g == dom.g && this.frontier == dom.domFrontier && this.children == dom.domTreeSucc
      ensures this.t == dom.T()
      ensures this.source == code && this.code == code && this.at == at && this.nextId == nextFree
      ensures bbHasVarPhi == map[] && phiAt == map[] && varValStack == map[]
      ensures phis == (map b | b in dom.g.BlockSet() :: []) && sigma == map[] && exited == {} && finished == {}
    {
      g, frontier, children, t := dom.g, dom.domFrontier, dom.domTreeSucc, dom.T();
      this.address, this.source, this.code, this.at, nextId := address, code, code, at, nextFree;
      phis := map b | b in dom.g.BlockSet() :: [];
      bbHasVarPhi, phiAt, varValStack := map[], map[], map[];
      sigma, exited, finished := map[], {}, {};
    }

    ghost function C(): Ctx
      reads this
    {
      Ctx(g, t, source, bbHasVarPhi)
    }

    ghost function N(): Names
      reads this
    {
      Names(at, phiAt)
    }

    /** A phi without operands for `v` at the head of `bb`. */
    method CreatePhi(bb: Block, v: Var)
      requires Rows(C(), N(), phis, nextId) && bb in phis && (bb, v) !in bbHasVarPhi
      modifies `phis, `nextId, `bbHasVarPhi, `phiAt
      ensures Rows(C(), N(), phis, nextId) && nextId == old(nextId) + 1
      ensures phis == old(phis)[bb := [Phi(old(nextId), v, [])] + old(phis)[bb]]
      ensures bbHasVarPhi == old(bbHasVarPhi)[(bb, v) := old(nextId)] && phiAt == old(phiAt)[old(nextId) := (bb, v)]
    {
      hide Rows;
      RowsExtended(C(), N(), phis, nextId, bb, v);
      phis := phis[bb := [Phi(nextId, v, [])] + phis[bb]];
      bbHasVarPhi := bbHasVarPhi[(bb, v) := nextId];
      phiAt := phiAt[nextId := (bb, v)];
      nextId := nextId + 1;
    }

    /** The slots stored to, with the blocks that store to them. */
    method CollectStores() returns (live: map<Var, set<Block>>)
      requires g.Valid() && forall b {:trigger b in code} :: g.HasBlock(b) ==> b in code
      ensures forall v, b {:trigger b in live[v]} ::
        v in live ==> (b in live[v] <==> g.HasBlock(b) && StoresIn(code, b, v))
      ensures forall v, b {:trigger StoresIn(code, b, v)} :: g.HasBlock(b) && StoresIn(code, b, v) ==> v in live
    {
      live := map[];
      for i := 0 to |g.blocks|
        invariant forall v, b {:trigger LiveAt(live, v, b)} ::
          LiveAt(live, v, b) <==> b in g.blocks[..i] && StoresIn(code, b, v)
      {
        var bb := g.blocks[i];
        assert g.HasBlock(bb) && g.blocks[..i + 1] == g.blocks[..i] + [bb];
        live := CollectBlock(live, bb);
      }
      assert g.blocks[..|g.blocks|] == g.blocks;
      forall v, b | v in live
        ensures b in live[v] <==> g.HasBlock(b) && StoresIn(code, b, v)
      {
        assert LiveAt(live, v, b) <==> b in live[v];
      }
      forall v, b | g.HasBlock(b) && StoresIn(code, b, v)
        ensures v in live
      {
        assert LiveAt(live, v, b);
      }
    }

    method CollectBlock(before: map<Var, set<Block>>, bb: Block) returns (live: map<Var, set<Block>>)
      requires bb in code
      ensures forall v, b {:trigger LiveAt(live, v, b)} ::
        LiveAt(live, v, b) <==> LiveAt(before, v, b) || (b == bb && StoresIn(code, b, v))
    {
      live := before;
      var instrs := code[bb];
      for k := 0 to |instrs|
        invariant forall v, b {:trigger LiveAt(live, v, b)} :: LiveAt(live, v, b) <==>
            LiveAt(before, v, b) || (b == bb && exists m :: 0 <= m < k && StoresSlot(instrs[m], v))
      {
        ghost var live' := live;
        if instrs[k].Store? && instrs[k].ptr.Slot? {
          var v := instrs[k].ptr.v;
          live := live[v := (if v in live then live[v] else {}) + {bb}];
        }
        forall v, b
          ensures LiveAt(live, v, b) <==> LiveAt(live', v, b) || (b == bb && StoresSlot(instrs[k], v))
        {
        }
      }
    }

    /** Puts phis for `v` into the iterated frontier of the blocks that store to it. */
    method PlacePhis(v: Var, stores: set<Block>) returns (ghost placed: set<Block>)
      requires g.Valid() && FrontierInside(g, frontier) && Rows(C(), N(), phis, nextId)
      requires forall b {:trigger b in phis} :: g.HasBlock(b) ==> b in phis
      requires forall b {:trigger (b, v) in bbHasVarPhi} :: (b, v) !in bbHasVarPhi
      modifies `phis, `nextId, `bbHasVarPhi, `phiAt
      ensures Rows(C(), N(), phis, nextId) && phis.Keys == old(phis).Keys
      ensures IteratedFrontier(frontier, stores, placed) && placed <= g.BlockSet()
      ensures forall b, u {:trigger (b, u) in bbHasVarPhi} ::
        (b, u) in bbHasVarPhi <==> (b, u) in old(bbHasVarPhi) || (u == v && b in placed)
    {
      hide Rows, PhiRow;
      placed := {};
      var workList := Listed(stores);
      var i := 0;
      while i < |workList|
        invariant 0 <= i <= |workList|
        invariant Rows(C(), N(), phis, nextId) && phis.Keys == old(phis).Keys && placed <= g.BlockSet()
        invariant forall b, u {:trigger (b, u) in bbHasVarPhi} ::
            (b, u) in bbHasVarPhi <==> (b, u) in old(bbHasVarPhi) || (u == v && b in placed)
        invariant Working(frontier, stores, placed, workList, i)
        decreases g.BlockSet() - placed, |workList| - i
      {
        var bb := workList[i];
        var rest := if bb in frontier then frontier[bb] else {};
        ghost var before, workListBefore := placed, workList;
        while rest != {}
          invariant rest <= if bb in frontier then frontier[bb] else {}
          invariant i < |workList| && workList[i] == bb && before <= placed
          invariant Rows(C(), N(), phis, nextId) && phis.Keys == old(phis).Keys && placed <= g.BlockSet()
          invariant forall b, u {:trigger (b, u) in bbHasVarPhi} ::
              (b, u) in bbHasVarPhi <==> (b, u) in old(bbHasVarPhi) || (u == v && b in placed)
          invariant Working(frontier, stores, placed, workList, i)
          invariant forall j {:trigger Frontier(frontier, bb, j)} ::
            Frontier(frontier, bb, j) ==> j in rest || j in placed
          invariant placed == before ==> |workList| == |workListBefore|
          decreases rest
        {
          HasMember(rest);
          var j :| j in rest;
          assert Frontier(frontier, bb, j);
          if (j, v) !in bbHasVarPhi {
            CreatePhi(j, v);
            WorkingAdd(frontier, stores, placed, workList, i, j);
            workList := workList + [j];
            placed := placed + {j};
          }
          rest := rest - {j};
        }
        WorkingNext(frontier, stores, placed, workList, i);
        i := i + 1;
      }
      WorkingDone(frontier, stores, placed, workList);
    }

    /** Phi insertion for every slot that is stored to. */
    method GeneratePhi()
      requires g.Valid() && FrontierInside(g, frontier) && Rows(C(), N(), phis, nextId) && code == source
      requires forall b {:trigger g.HasBlock(b)} :: g.HasBlock(b) ==> b in code && b in phis
      requires bbHasVarPhi == map[]
      modifies `phis, `nextId, `bbHasVarPhi, `phiAt
      ensures Rows(C(), N(), phis, nextId) && phis.Keys == old(phis).Keys
      ensures Placed(C(), frontier)
    {
      hide Rows, PhiRow, IteratedFrontier;
      var live := CollectStores();
      ghost var placedOf: map<Var, set<Block>> := map[];
      var rest := live.Keys;
      while rest != {}
        invariant rest <= live.Keys && placedOf.Keys == live.Keys - rest
        invariant Rows(C(), N(), phis, nextId) && phis.Keys == old(phis).Keys
        invariant forall b, u {:trigger (b, u) in bbHasVarPhi} ::
          (b, u) in bbHasVarPhi <==> u in placedOf && b in placedOf[u]
        invariant forall u {:trigger placedOf[u]} :: u in placedOf ==>
            IteratedFrontier(frontier, live[u], placedOf[u]) && placedOf[u] <= g.BlockSet()
        decreases rest
      {
        HasMember(rest);
        var v :| v in rest;
        ghost var placed := PlacePhis(v, live[v]);
        placedOf := placedOf[v := placed];
        rest := rest - {v};
      }
      AllPlaced(C(), frontier, live, placedOf);
    }

    // ----- renaming -----

    /** Each phi of `bb` is the current value of its slot. */
    method PushPhis(bb: Block, ghost seen: set<Block>)
      requires bb in phis && bb in source && PhiRow(C(), bb, phis[bb]) && KeysWithin(C(), varValStack, seen, seen)
      modifies `varValStack
      ensures Stacked(C(), sigma, old(varValStack), varValStack, bb, 0)
      ensures KeysWithin(C(), varValStack, seen, seen + {bb})
    {
      hide Stk, PhiRow, PhisPushed, KeysWithin, Stacked;
      var row := phis[bb];
      ghost var c, base := C(), varValStack;
      NothingPushed(c, base, row, bb, seen);
      for k := 0 to |row|
        invariant C() == c && phis[bb] == row
        invariant PhisPushed(c, base, varValStack, row, bb, k) && KeysWithin(c, varValStack, seen, seen + {bb})
      {
        PushPhiStep(c, base, varValStack, row, bb, k, seen, seen + {bb});
        var v := row[k].lval;
        varValStack := varValStack[v := Stk(varValStack, v) + [Reg(row[k].id)]];
      }
      AllPushed(c, sigma, base, varValStack, row, bb);
    }

    /** Every use of the load becomes a use of `v`. */
    method ReplaceAllUseWith(load: Id, v: Operand)
      modifies `code, `phis
      ensures code == SubstCode(map[load := v], old(code))
      ensures phis.Keys == old(phis).Keys
      ensures forall b {:trigger phis[b]} :: b in phis ==> phis[b] == SubstRow(map[load := v], old(phis)[b])
      ensures forall b {:trigger code[b]} :: b in code ==> CodeReplacedIn(old(code)[b], code[b], load, v)
      ensures forall b {:trigger phis[b]} :: b in phis ==> RowReplacedIn(old(phis)[b], phis[b], load, v)
    {
      hide CodeReplacedIn, RowReplacedIn;
      forall b | b in code
        ensures CodeReplacedIn(code[b], SubstAll(map[load := v], code[b]), load, v)
      {
        SubstCodeAt(load, v, code[b]);
      }
      forall b | b in phis
        ensures RowReplacedIn(phis[b], SubstRow(map[load := v], phis[b]), load, v)
      {
        SubstRowAt(load, v, phis[b]);
      }
      code := map b | b in code :: SubstAll(map[load := v], code[b]);
      phis := map b | b in phis :: SubstRow(map[load := v], phis[b]);
    }

    ghost function State(): RenameState
      reads this
    {
      RenameState(sigma, exited, finished, code, phis, varValStack)
    }

    /** A load of a slot gives way to the current value of the slot. */
    method RewriteLoad(bb: Block, k: nat, ghost base: map<Var, seq<Operand>>)
      requires Inside(C(), N(), State(), base, bb, k) && LoadsHaveValues(C())
      requires bb in source && k < |source[bb]| && IsSlotLoad(source[bb][k])
      modifies `code, `phis, `sigma
      ensures Inside(C(), N(), State(), base, bb, k + 1) && Grows(old(sigma), sigma) && C() == old(C())
      ensures N() == old(N())
    {
      hide Inside, LoadsHaveValues;
      ghost var c, n, st := C(), N(), State();
      LoadReady(c, n, st, base, bb, k);
      var load, v := code[bb][k].id, code[bb][k].ptr.v;
      var top := varValStack[v][|varValStack[v]| - 1];
      ReplaceAllUseWith(load, top);
      sigma := sigma[load := top];
      LoadKeeps(c, n, st, base, bb, k, top, State());
    }

    /** A store to a slot makes the stored value current. */
    method RewriteStore(bb: Block, k: nat, ghost base: map<Var, seq<Operand>>)
      requires Inside(C(), N(), State(), base, bb, k)
      requires bb in source && k < |source[bb]| && source[bb][k].Store? && source[bb][k].ptr.Slot?
      modifies `varValStack
      ensures Inside(C(), N(), State(), base, bb, k + 1) && C() == old(C()) && N() == old(N())
    {
      hide Inside;
      ghost var c, n, st := C(), N(), State();
      InstrAt(c, n, st, base, bb, k);
      var v, rval := code[bb][k].ptr.v, code[bb][k].rval;
      varValStack := varValStack[v := Stk(varValStack, v) + [rval]];
      StoreKeeps(c, n, st, base, bb, k, State());
    }

    /** Rewrites the instructions of `bb` in order; returns the slot accesses, to be erased later. */
    method RewriteBody(bb: Block, ghost base: map<Var, seq<Operand>>) returns (waitDelete: seq<Id>)
      requires Inside(C(), N(), State(), base, bb, 0) && LoadsHaveValues(C()) && bb in source
      modifies `code, `phis, `sigma, `varValStack
      ensures C() == old(C()) && N() == old(N()) && Grows(old(sigma), sigma)
      ensures exited == old(exited) && finished == old(finished)
      ensures Inside(C(), N(), State(), base, bb, |source[bb]|)
      ensures Waiting(source[bb], |source[bb]|, waitDelete)
    {
      hide Inside, LoadsHaveValues;
      waitDelete := [];
      ghost var c, n := C(), N();
      LengthKept(c, n, State(), base, bb, 0);
      var size := |code[bb]|;
      for k := 0 to size
        invariant C() == c && N() == n && Grows(old(sigma), sigma)
        invariant exited == old(exited) && finished == old(finished)
        invariant size == |source[bb]| && Inside(c, n, State(), base, bb, k)
        invariant Waiting(source[bb], k, waitDelete)
      {
        InstrAt(c, n, State(), base, bb, k);
        var i := code[bb][k];
        if i.Load? && i.ptr.Slot? {
          RewriteLoad(bb, k, base);
          waitDelete := waitDelete + [i.id];
        } else if i.Store? && i.ptr.Slot? {
          RewriteStore(bb, k, base);
          waitDelete := waitDelete + [i.id];
        } else {
          OtherKeeps(c, n, State(), base, bb, k);
        }
      }
    }

    /** Gives each phi of `s` the current value of its slot, as coming from `bb`. */
    method FillRow(s: Block, bb: Block)
      requires s in phis
      requires Answered(phis[s], varValStack)
      modifies `phis
      ensures phis == old(phis)[s := Filled(old(phis)[s], varValStack, bb)]
    {
      ghost var row := phis[s];
      for k := 0 to |phis[s]|
        invariant phis.Keys == old(phis).Keys && |phis[s]| == |row|
        invariant forall u {:trigger phis[u]} :: u in phis && u != s ==> phis[u] == old(phis)[u]
        invariant forall j {:trigger phis[s][j]} ::
          0 <= j < |row| ==> phis[s][j] == if j < k then FilledPhi(row[j], varValStack, bb) else row[j]
      {
        var f := phis[s][k];
        if f.lval in varValStack {
          var stack := varValStack[f.lval];
          assert stack != [];
          phis := phis[s := phis[s][k := f.(pairs := f.pairs + [(stack[|stack| - 1], bb)])]];
        }
      }
      FilledAt(row, varValStack, bb);
      assert phis[s] == Filled(row, varValStack, bb);
      assert phis.Keys == old(phis)[s := phis[s]].Keys;
      assert phis == old(phis)[s := phis[s]];
    }

    /** Fills the phis of every successor. */
    method FillSuccessors(bb: Block, ghost base: map<Var, seq<Operand>>)
      requires bb in source && Inside(C(), N(), State(), base, bb, |source[bb]|) && Spans(C())
      requires ConsultableIn(C(), address) && LeftBefore(C(), address, exited, bb)
      requires bb in g.succ && NoRepeats(g.succ[bb])
      modifies `phis
      ensures C() == old(C()) && N() == old(N()) && phis.Keys == old(phis).Keys
      ensures forall s {:trigger phis[s]} :: s in old(phis) ==>
          phis[s] == if g.Edge(bb, s) then Filled(old(phis)[s], varValStack, bb) else old(phis)[s]
    {
      hide Inside, ConsultableIn, LeftBefore, Spans, Filled, Answered, NoRepeats, FilledFor;
      ghost var c, n, st := C(), N(), State();
      var succs := g.succ[bb];
      FilledForNone(phis, succs, varValStack, bb);
      for i := 0 to |succs|
        invariant C() == c && N() == n && FilledFor(st.phis, phis, succs[..i], varValStack, bb)
      {
        var s := succs[i];
        assert g.Edge(bb, s);
        PhisAnswered(c, n, st, base, address, bb, s);
        FilledForNext(st.phis, phis, succs, i, varValStack, bb);
        FillRow(s, bb);
      }
      FilledForAll(st.phis, phis, succs, varValStack, bb);
    }

    /** Takes what `bb` has pushed off the stacks again: its phis, then its stored values. */
    method PopAll(bb: Block, ghost c: Ctx, ghost s1: map<Id, Operand>, ghost base: map<Var, seq<Operand>>,
                  ghost full: map<Var, seq<Operand>>)
      requires bb in phis && bb in c.code && PhiRow(c, bb, phis[bb]) && Stacked(c, s1, base, full, bb, |c.code[bb]|)
      requires bb in code && SameAccesses(code[bb], c.code[bb])
      requires forall v {:trigger Stk(varValStack, v)} :: Stk(varValStack, v) == Stk(full, v)
      modifies `varValStack
      ensures varValStack.Keys == old(varValStack).Keys
      ensures forall v {:trigger Stk(varValStack, v)} :: Stk(varValStack, v) == Stk(base, v)
    {
      hide Stacked, Popped, PhisPopped, PhiRow, Stk, Pushes;
      var row := phis[bb];
      NothingPopped(full, varValStack, row);
      for k := 0 to |row|
        invariant phis[bb] == row && varValStack.Keys == old(varValStack).Keys && PhisPopped(full, varValStack, row, k)
      {
        PopPhiStep(c, s1, base, full, varValStack, row, bb, k);
        var v := row[k].lval;
        StkKey(varValStack, v);
        if v in varValStack {
          varValStack := varValStack[v := varValStack[v][..|varValStack[v]| - 1]];
        }
      }
      PhisPoppedDone(c, s1, full, varValStack, row, bb);
      var instrs := code[bb];
      assert SameAccesses(instrs, c.code[bb]);
      for k := 0 to |instrs|
        invariant varValStack.Keys == old(varValStack).Keys && Popped(c, s1, full, varValStack, bb, k)
      {
        if instrs[k].Store? && instrs[k].ptr.Slot? {
          PopStoreStep(c, s1, base, full, varValStack, bb, k);
          var v := instrs[k].ptr.v;
          StkKey(varValStack, v);
          varValStack := varValStack[v := varValStack[v][..|varValStack[v]| - 1]];
        } else {
          PopOtherStep(c, s1, full, varValStack, bb, k);
        }
      }
      PoppedAll(c, s1, base, full, varValStack, bb);
    }

    /** Removes the listed instructions from `bb`. */
    method EraseInstrs(bb: Block, ids: seq<Id>)
      requires bb in code
      modifies `code
      ensures code == old(code)[bb := Without(old(code)[bb], IdSet(ids))]
    {
      WithoutNone(code[bb]);
      assert IdSet(ids[..0]) == {};
      assert code == code[bb := code[bb]];
      for i := 0 to |ids|
        invariant bb in code && code == old(code)[bb := Without(old(code)[bb], IdSet(ids[..i]))]
      {
        WithoutTwice(old(code)[bb], IdSet(ids[..i]), ids[i]);
        IdSetNext(ids, i);
        code := code[bb := Without(code[bb], {ids[i]})];
      }
      assert ids[..|ids|] == ids;
    }

    /** The last step: the loads and stores of slots, which nothing uses any more. */
    method EraseUnused(bb: Block, ids: seq<Id>, ghost c: Ctx)
      requires bb in code && NoUser(c, code, phis, ids)
      modifies `code
      ensures code == old(code)[bb := Without(old(code)[bb], IdSet(ids))]
    {
      EraseInstrs(bb, ids);
    }

    /** Steps three to six: the phis and instructions of `bb`, then the phis of its successors. */
    method ReNameBlock(bb: Block) returns (waitDelete: seq<Id>, ghost s1: RenameState)
      requires Entering(C(), N(), State(), bb) && Spans(C()) && ConsultableIn(C(), address) && Tables(C(), children)
      requires LeftBefore(C(), address, exited, bb)
      requires bb in source
      modifies `code, `phis, `varValStack, `sigma, `exited
      ensures C() == old(C()) && N() == old(N()) && Waiting(source[bb], |source[bb]|, waitDelete)
      ensures Inside(C(), N(), s1, old(varValStack), bb, |source[bb]|) && Grows(old(sigma), s1.sigma)
      ensures Leaving(C(), N(), State(), s1.stack, bb) && ChildrenDone(C(), old(State()), State(), bb, {})
      ensures sigma == s1.sigma && varValStack == s1.stack && exited == old(exited) + {bb}
    {
      hide Entering, ConsultableIn, LeftBefore, Inside, Leaving, ChildrenDone, Tables, Stacked, PhiRow, Waiting, Spans,
        Grows, LoadsHaveValues;
      ConsultableLoads(C(), address);
      ghost var c, n, s0 := C(), N(), State();
      EnteringFacts(c, n, s0, bb);
      PushPhis(bb, exited);
      EnterInside(c, n, s0, bb, State());
      waitDelete := RewriteBody(bb, s0.stack);
      s1 := State();
      SuccKnown(c, children, bb);
      FillSuccessors(bb, s0.stack);
      exited := exited + {bb};
      BodyDone(c, n, s0, s1, s0.stack, bb, State());
    }

    /** Step seven: the blocks immediately dominated by `bb`, in the order of their addresses. */
    method ReNameChildren(bb: Block, ghost s0: RenameState, ghost full: map<Var, seq<Operand>>)
      returns (ghost kids: set<Block>)
      requires Spans(C()) && ConsultableIn(C(), address) && Tables(C(), children)
      requires Ordered(address) && LeftBefore(C(), address, s0.exited, bb)
      requires Entering(C(), N(), s0, bb) && Leaving(C(), N(), State(), full, bb)
      requires ChildrenDone(C(), s0, State(), bb, {})
      modifies `code, `phis, `varValStack, `sigma, `exited, `finished
      ensures C() == old(C()) && N() == old(N()) && ChildrenOf(C(), bb, kids)
      ensures Leaving(C(), N(), State(), full, bb) && ChildrenDone(C(), s0, State(), bb, kids)
      ensures Grows(old(sigma), sigma)
      decreases t.parent.Keys - exited, 2
    {
      hide Entering, ConsultableIn, LeftBefore, Ordered, Leaving, Renamed, ChildrenDone, Tables, Spans, ChildrenOf,
        Grows,
        Elders;
      ghost var c, n, s1 := C(), N(), State();
      GrowsRefl(sigma);
      KidsOf(c, children, bb);
      kids := if bb in children then children[bb] else {};
      var rest := if bb in children then children[bb] else {};
      ghost var done: set<Block> := {};
      NoElders(kids, address);
      while rest != {}
        invariant C() == c && N() == n && done <= kids && rest == kids - done && Elders(kids, done, address)
        invariant Leaving(c, n, State(), full, bb) && ChildrenDone(c, s0, State(), bb, done)
        invariant Grows(s1.sigma, sigma) && s1.exited <= exited
        decreases rest
      {
        HasEldest(rest, address);
        var kid :| kid in rest && Eldest(rest, address, kid);
        ghost var s2 := State();
        assert t.parent.Keys - exited <= t.parent.Keys - s1.exited;
        KidReady(c, n, s0, s2, full, bb, kids, done, kid);
        NextElders(kids, done, address, kid);
        KidLeftBefore(c, n, address, s0, s2, bb, kids, done, kid);
        ReName(kid);
        KidDone(c, n, s0, s2, State(), full, bb, kids, done, kid, s1.sigma);
        done := done + {kid};
        rest := rest - {kid};
      }
      assert done == kids;
    }

    /** Renames block `bb` and the blocks below it in the dominator tree. */
    method ReName(bb: Block)
      requires Entering(C(), N(), State(), bb) && Spans(C()) && ConsultableIn(C(), address) && Tables(C(), children)
      requires Ordered(address) && LeftBefore(C(), address, exited, bb)
      modifies `code, `phis, `varValStack, `sigma, `exited, `finished
      ensures C() == old(C()) && N() == old(N())
      ensures Renamed(C(), N(), old(State()), State(), bb)
      decreases t.parent.Keys - exited, 1
    {
      hide Entering, ConsultableIn, LeftBefore, Ordered, Inside, Leaving, Renamed, ChildrenDone, Tables, Stacked,
        PhiRow,
        Waiting, Spans, Grows, ChildrenOf;
      ghost var c, n, s0 := C(), N(), State();
      EnteringFacts(c, n, s0, bb);
      ghost var s1;
      var waitDelete;
      waitDelete, s1 := ReNameBlock(bb);
      ghost var kids := ReNameChildren(bb, s0, s1.stack);
      ghost var s3 := State();
      LeavingFacts(c, n, s1, s0.stack, s3, bb);
      PopAll(bb, c, s1.sigma, s0.stack, s1.stack);
      WaitingUnused(c, n, s3, s1.stack, bb, waitDelete);
      EraseUnused(bb, waitDelete, c);
      finished := finished + {bb};
      BlockDone(c, n, s0, s1, s3, State(), s0.stack, s1.stack, bb, kids, waitDelete);
    }

    /** Lists the scalar slots of `bb`. */
    method ScalarAllocas(bb: Block) returns (waitDelete: seq<Id>)
      requires bb in code
      ensures ListsAllocas(code[bb], waitDelete)
    {
      waitDelete := [];
      var instrs := code[bb];
      for k := 0 to |instrs|
        invariant forall id {:trigger id in waitDelete} ::
            id in waitDelete <==> exists j :: 0 <= j < k && ScalarAlloca(instrs[j]) && instrs[j].id == id
      {
        if instrs[k].Alloca? && instrs[k].scalar {
          waitDelete := waitDelete + [instrs[k].id];
        }
      }
    }

    /** Slots that nothing uses any more. */
    method EraseUnusedSlots(bb: Block, ids: seq<Id>, ghost c: Ctx)
      requires bb in code && NoSlotUser(c, code, phis, ids)
      modifies `code
      ensures code == old(code)[bb := Without(old(code)[bb], IdSet(ids))]
    {
      EraseInstrs(bb, ids);
    }

    /** The scalar slots of one block. */
    method EraseAllocas(bb: Block, ghost c: Ctx, ghost n: Names)
      requires Setting(c, n, sigma) && ScalarsConfined(c.code) && Rewritten(c, sigma, code)
      requires PairsAreValues(c, sigma, phis)
      requires bb in code && ScalarsAmong(code[bb], ScalarSlots(c.code))
      requires bb in c.t.parent ==> bb in c.code && code[bb] == Kept(sigma, c.code[bb], true)
      modifies `code
      ensures bb in code && code == old(code)[bb := code[bb]]
      ensures bb in c.t.parent ==> code[bb] == Kept(sigma, c.code[bb], false)
    {
      hide Setting, Kept, ListsAllocas, ScalarsConfined, Rewritten, PairsAreValues, NoSlotUser, ScalarsAmong,
        ScalarSlots;
      SettingFacts(c, n, sigma);
      var waitDelete := ScalarAllocas(bb);
      if bb in c.t.parent {
        AllocasErased(c, n, sigma, bb, waitDelete);
      }
      ConfinedScalars(c);
      ListedAmong(code[bb], ScalarSlots(c.code), waitDelete);
      SlotsUnused(c, n, sigma, ScalarSlots(c.code), code, phis, waitDelete);
      EraseUnusedSlots(bb, waitDelete, c);
    }

    /** Erases the scalar slots of every block. */
    method RemoveAlloca()
      requires Setting(C(), N(), sigma) && Promoted(C(), N(), sigma, Body(phis, code), true)
      requires ScalarsConfined(source) && PairsAreValues(C(), sigma, phis)
      requires forall b {:trigger code[b]} :: b in code ==> ScalarsAmong(code[b], ScalarSlots(source))
      requires NoRepeats(g.blocks) && forall b {:trigger b in t.parent} :: b in t.parent ==> b in g.blocks
      requires forall b {:trigger b in g.blocks} :: b in g.blocks ==> b in code
      modifies `code
      ensures Promoted(C(), N(), sigma, Body(phis, code), false) && C() == old(C()) && N() == old(N())
    {
      hide Setting, Spans, Named, Promoted, Kept, ListsAllocas, Cfg.Valid, Erasing, ScalarsConfined, Rewritten,
        PairsAreValues, ScalarsAmong, ScalarSlots, NoRepeats;
      ghost var c, n, f := C(), N(), Body(phis, code);
      SettingFacts(c, n, sigma);
      ErasingNone(c, n, sigma, f);
      for i := 0 to |g.blocks|
        invariant C() == c && N() == n && phis == f.phis && code.Keys == f.code.Keys
        invariant Erasing(c, sigma, f.code, code, g.blocks[..i])
      {
        var bb := g.blocks[i];
        NotAmongEarlier(g.blocks, i);
        assert bb in g.blocks;
        ErasingAt(c, n, sigma, f, code, g.blocks[..i], bb);
        ErasingRewritten(c, n, sigma, f, code, g.blocks[..i]);
        ErasingWas(c, sigma, f.code, code, g.blocks[..i], bb);
        ghost var before := code;
        EraseAllocas(bb, c, n);
        assert g.blocks[..i + 1] == g.blocks[..i] + [bb];
        ErasingNext(c, sigma, f.code, before, code, g.blocks[..i], bb);
      }
      assert g.blocks[..|g.blocks|] == g.blocks;
      ErasingAll(c, n, sigma, f, code, g.blocks);
      AllocasGone(c, n, sigma, f, Body(phis, code));
    }
  }

  // ----- the pass on one function -----

  /** What the pass requires of a function, in terms of its graph and instructions: the lists mirror each
      other without repetition, nothing branches to the entry or from an unreachable block to a reachable
      one, identities are unique, uses are dominated, and blocks end in their only terminator. */
  ghost predicate Acceptable(g: Cfg, code: map<Block, seq<Instr>>, at: map<Id, (Block, int)>) {
    && g.Valid() && NoRepeats(g.blocks) && JoinsReached(g)
    && (forall b {:trigger g.HasBlock(b)} :: g.HasBlock(b) <==> b in code)
    && (forall b {:trigger g.succ[b]} :: g.HasBlock(b) ==> NoRepeats(g.succ[b]))
    && (forall p {:trigger g.Edge(p, g.Entry())} :: !g.Edge(p, g.Entry()))
    && Identified(code, at)
    && DominatedUses(g, code, at)
    && (forall b, k {:trigger code[b][k]} :: b in code && 0 <= k < |code[b]| ==> PlainInstr(g, code, b, k))
    && (forall b, k, s {:trigger code[b][k].HasTarget(s)} ::
          b in code && 0 <= k < |code[b]| && code[b][k].HasTarget(s) ==> g.Edge(b, s))
  }

  ghost predicate Identified(code: map<Block, seq<Instr>>, at: map<Id, (Block, int)>) {
    && (forall b, k {:trigger code[b][k]} :: b in code && 0 <= k < |code[b]| ==>
          code[b][k].id in at && at[code[b][k].id] == (b, k))
    && (forall id {:trigger at[id]} :: id in at ==>
          at[id].0 in code && 0 <= at[id].1 < |code[at[id].0]| && code[at[id].0][at[id].1].id == id)
  }

  /** Memory is addressed through a slot, a global or an element, and a terminator stands last. */
  ghost predicate PlainInstr(g: Cfg, code: map<Block, seq<Instr>>, b: Block, k: int)
    requires b in code && 0 <= k < |code[b]|
  {
    var i := code[b][k];
    && (i.Load? || i.Store? ==> i.ptr.Slot? || i.ptr.Global? || i.ptr.Elem?)
    && (i.IsTerminator() ==> k == |code[b]| - 1)
  }

  ghost predicate DominatedUses(g: Cfg, code: map<Block, seq<Instr>>, at: map<Id, (Block, int)>)
    requires g.Valid() && Identified(code, at)
  {
    forall b, k, o {:trigger o in code[b][k].Operands()} ::
      b in code && Reachable(g, b) && 0 <= k < |code[b]| && o in code[b][k].Operands() && (o.Reg? || o.Elem?) ==>
        o.id in at && ClassFits(o, code[at[o.id].0][at[o.id].1])
        && Dominates(g, at[o.id].0, b) && (at[o.id].0 == b ==> at[o.id].1 < k)
  }

  /** The frontier table of the dominator analysis. */
  ghost predicate FrontierTable(c: Ctx, frontier: map<Block, set<Block>>)
    requires c.g.Valid() && c.t.Valid()
  {
    forall r, j {:trigger Frontier(frontier, r, j)} ::
      Frontier(frontier, r, j) <==> c.g.HasBlock(j) && Met(c.g, c.t, r, j)
  }

  /** The function with the dominator tree and the phis that the pass gives it. */
  ghost predicate PhisPlaced(c: Ctx, frontier: map<Block, set<Block>>) {
    Spans(c) && Computed(c.g, c.t) && FrontierTable(c, frontier) && Placed(c, frontier)
  }

  /** Renaming in this order of the children never consults an empty stack (see `ConsultableIn`), whatever identities
      the phis get. */
  ghost predicate LookupsSucceed(g: Cfg, code: map<Block, seq<Instr>>, address: Block -> int) {
    forall c: Ctx, frontier {:trigger PhisPlaced(c, frontier)} ::
      c.g == g && c.code == code && PhisPlaced(c, frontier) ==> ConsultableIn(c, address)
  }

  /** Both runs are at the same block, or have returned the same values, with the same memory and the
      same stores and calls behind them; unless the memory program has read a value never set. */
  ghost predicate SameBehaviour(p0: Point, p1: Point) {
    match p0
    case Stuck => true
    case At(b, s0) => p1.At? && p1.block == b && p1.state.mem == s0.mem && p1.state.trace == s0.trace
    case Finished(vs, s0) => p1.Finished? && p1.vals == vs && p1.state.mem == s0.mem && p1.state.trace == s0.trace
  }

  function Plain(g: Cfg, code: map<Block, seq<Instr>>): Body {
    Body(map b | b in g.BlockSet() :: [], code)
  }

  lemma AcceptableContext(c: Ctx, n: Names)
    requires Acceptable(c.g, c.code, n.at) && Spans(c) && Computed(c.g, c.t) && Named(c, n)
    ensures UsesDominated(c, n) && Addressed(c) && Terminated(c)
  {
    hide Computed, NoRepeats, JoinsReached;
    forall b, k, o | b in c.t.parent && 0 <= k < |c.code[b]| && o in c.code[b][k].Operands()
      ensures UseOk(c, n, o, b, k)
    {
      InParentReachable(c.g, c.t, b);
      if o.Reg? || o.Elem? {
        ChainIsDominators(c.g, c.t, n.at[o.id].0, b);
      }
    }
    forall b, k | b in c.code && 0 <= k < |c.code[b]|
      ensures PlainInstr(c.g, c.code, b, k)
    {
    }
  }

  lemma InParentReachable(g: Cfg, t: Tree, b: Block)
    requires g.Valid() && Computed(g, t) && b in t.parent
    ensures Reachable(g, b)
  {
  }

  /** The state in which renaming starts. */
  lemma StartEntering(c: Ctx, n: Names, s: RenameState)
    requires Wellformed(c, n) && s.sigma == map[] && s.exited == {} && s.finished == {} && s.stack == map[]
    requires s.code == c.code
    requires forall b {:trigger s.phis[b]} {:trigger b in s.phis} ::
      b in c.t.parent ==> b in s.phis && PhiRow(c, b, s.phis[b])
    requires forall b, k {:trigger s.phis[b][k]} :: b in s.phis && 0 <= k < |s.phis[b]| ==> s.phis[b][k].pairs == []
    ensures Entering(c, n, s, c.t.root)
  {
    hide PhiRow, UsesDominated, Closed;
    forall b | b in s.code
      ensures s.code[b] == SubstAll(s.sigma, c.code[b])
    {
      SubstNothing(c.code[b]);
    }
  }

  lemma {:induction false} SubstNothing(code: seq<Instr>)
    ensures SubstAll(map[], code) == code
  {
    forall k | 0 <= k < |code|
      ensures SubstAll(map[], code)[k] == code[k]
    {
      SubstInstrNothing(code[k]);
    }
  }

  lemma SubstInstrNothing(i: Instr)
    ensures Subst(map[], i) == i
  {
    assert forall os: seq<Operand> {:trigger ResolveAll(map[], os)} :: ResolveAll(map[], os) == os;
  }

  lemma Behaves(c: Ctx, n: Names, sigma: map<Id, Operand>, f: Body, w: World, mem: Memory, steps: nat)
    requires c.g.Valid() && Setting(c, n, sigma) && Promoted(c, n, sigma, f, false)
    ensures var start := At(c.g.Entry(), State(map[], map[], mem, []));
      SameBehaviour(Run(w, Plain(c.g, c.code), steps, start), Run(w, f, steps, start))
  {
    hide Setting, Promoted, Spans, Related;
    SettingFacts(c, n, sigma);
    var start := At(c.g.Entry(), State(map[], map[], mem, []));
    PromotionPreservesMeaning(c, n, sigma, w, Plain(c.g, c.code), f, false, mem, steps);
    InStepBehaves(c, n, sigma, w, Run(w, Plain(c.g, c.code), steps, start), Run(w, f, steps, start));
  }

  lemma SettingFacts(c: Ctx, n: Names, sigma: map<Id, Operand>)
    requires Setting(c, n, sigma)
    ensures Spans(c) && Named(c, n) && c.g.Valid()
  {
  }

  lemma InStepBehaves(c: Ctx, n: Names, sigma: map<Id, Operand>, w: World, p0: Point, p1: Point)
    requires Spans(c) && Named(c, n) && InStep(c, n, sigma, w, p0, p1)
    ensures SameBehaviour(p0, p1)
  {
  }

  // ----- from one step of the pass to the next -----

  lemma AnalysedFacts(dom: Dominators, c: Ctx)
    requires dom.Analysed() && c.g == dom.g && c.t == dom.T()
    ensures c.g.Valid() && Computed(c.g, c.t) && FrontierTable(c, dom.domFrontier)
    ensures forall p, k {:trigger InTable(dom.domTreeSucc, p, k)} ::
      InTable(dom.domTreeSucc, p, k) <==> k in c.t.parent && k != c.t.root && c.t.parent[k] == p
  {
    hide Inv, Met;
    forall p, k
      ensures InTable(dom.domTreeSucc, p, k) <==> k in c.t.parent && k != c.t.root && c.t.parent[k] == p
    {
      if k in c.t.parent {
        InParentHasBlock(c.g, c.t, k);
      }
      RootIsEntry(c.g, c.t);
    }
  }

  lemma RootIsEntry(g: Cfg, t: Tree)
    requires g.Valid() && Inv(g, t)
    ensures t.root == g.Entry()
  {
  }

  lemma BeforePhis(c: Ctx, n: Names, phis: map<Block, seq<Phi>>, nextFree: Id, frontier: map<Block, set<Block>>)
    requires Acceptable(c.g, c.code, n.at) && forall id {:trigger id in n.at} :: id in n.at ==> id < nextFree
    requires c.phi == map[] && n.phiAt == map[] && phis == (map b | b in c.g.BlockSet() :: [])
    requires Computed(c.g, c.t) && FrontierTable(c, frontier)
    ensures Rows(c, n, phis, nextFree) && FrontierInside(c.g, frontier) && Spans(c)
    ensures forall b {:trigger c.g.HasBlock(b)} :: c.g.HasBlock(b) ==> b in c.code && b in phis
  {
    hide Computed, Met, DominatedUses, JoinsReached, NoRepeats, PlainInstr;
    AnalysisSpans(c);
    assert forall b :: b in phis ==> PhiRow(c, b, phis[b]);
  }

  lemma PlacedSpans(c: Ctx, c': Ctx)
    requires Spans(c) && c' == c.(phi := c'.phi)
    ensures Spans(c')
  {
  }

  lemma BeforeRenaming(c: Ctx, n: Names, s: RenameState, nextFree: Id, frontier: map<Block, set<Block>>,
                       children: map<Block, set<Block>>, address: Block -> int)
    requires Acceptable(c.g, c.code, n.at) && LookupsSucceed(c.g, c.code, address) && Spans(c)
    requires Computed(c.g, c.t) && FrontierTable(c, frontier) && Placed(c, frontier) && Rows(c, n, s.phis, nextFree)
    requires forall b {:trigger c.g.HasBlock(b)} :: c.g.HasBlock(b) ==> b in s.phis
    requires s.sigma == map[] && s.exited == {} && s.finished == {} && s.stack == map[] && s.code == c.code
    requires forall p, k {:trigger InTable(children, p, k)} ::
      InTable(children, p, k) <==> k in c.t.parent && k != c.t.root && c.t.parent[k] == p
    ensures Wellformed(c, n) && Terminated(c) && ConsultableIn(c, address) && Entering(c, n, s, c.g.Entry())
    ensures Tables(c, children) && LeftBefore(c, address, s.exited, c.g.Entry())
  {
    hide UsesDominated, DominatedUses, Met, PlainInstr, JoinsReached, PhiRow, Entering, Inv, ConsultableIn, LeftBefore;
    PlacedIsClosed(c, frontier);
    AcceptableContext(c, n);
    assert PhisPlaced(c, frontier);
    forall b | b in c.t.parent
      ensures c.g.HasBlock(b)
    {
      InParentHasBlock(c.g, c.t, b);
    }
    StartEntering(c, n, s);
    NothingLeft(c, address);
  }

  lemma AfterRenaming(c: Ctx, n: Names, s: RenameState, s': RenameState)
    requires Spans(c) && Terminated(c) && Renamed(c, n, s, s', c.t.root)
    ensures Named(c, n) && Promoted(c, n, s'.sigma, Body(s'.phis, s'.code), true) && Wellformed(c, n)
    ensures s'.code.Keys == c.code.Keys && PhisComplete(c, s'.phis) && PairsAreValues(c, s'.sigma, s'.phis)
    ensures forall b {:trigger s'.code[b]} :: b in s'.code ==> ScalarsAmong(s'.code[b], ScalarSlots(c.code))
  {
    hide CodeState, PhiState, UsesDominated, Closed, Resolved, NoLoadValues, Promoted, PhisComplete, PairsAreValues,
      ScalarsAmong, ScalarSlots;
    forall d | d in c.t.parent
      ensures d in s'.exited && d in s'.finished
    {
      RootOnChain(c.t, d);
    }
    RenamedIsPromoted(c, n, s');
    PhiComplete(c, n, s');
    PairValues(c, n, s');
    AllocasKnown(c, n, s');
    SameKeys(c, n, s');
  }

  lemma SameKeys(c: Ctx, n: Names, s: RenameState)
    requires Consistent(c, n, s)
    ensures s.code.Keys == c.code.Keys
  {
  }

  lemma FinalSetting(c: Ctx, n: Names, sigma: map<Id, Operand>, f: Body)
    requires Wellformed(c, n) && Terminated(c) && Promoted(c, n, sigma, f, true)
    ensures Setting(c, n, sigma)
  {
  }

  lemma BlocksKnown(c: Ctx, at: map<Id, (Block, int)>)
    requires Acceptable(c.g, c.code, at) && Spans(c) && Computed(c.g, c.t)
    ensures NoRepeats(c.g.blocks) && (forall b {:trigger b in c.t.parent} :: b in c.t.parent ==> b in c.g.blocks)
    ensures forall b {:trigger b in c.g.blocks} :: b in c.g.blocks ==> b in c.code
    ensures c.t.root == c.g.Entry()
  {
    hide UsesDominated, DominatedUses, PlainInstr, JoinsReached, Inv;
    forall b | b in c.t.parent
      ensures c.g.HasBlock(b)
    {
      InParentHasBlock(c.g, c.t, b);
    }
    forall b | b in c.g.blocks
      ensures b in c.code
    {
      assert c.g.HasBlock(b);
    }
  }

  /** Mem2Reg on one function: the result behaves like the input, for every world, memory and length of run. */
  method PromoteFunction(g: Cfg, code: map<Block, seq<Instr>>, nextFree: Id, address: Block -> int,
                         ghost at: map<Id, (Block, int)>)
    returns (f: Body, ghost c: Ctx, ghost n: Names, ghost sigma: map<Id, Operand>)
    requires Acceptable(g, code, at) && Ordered(address) && LookupsSucceed(g, code, address) && ScalarsConfined(code)
    requires forall id {:trigger id in at} :: id in at ==> id < nextFree
    ensures c.g == g && c.code == code && n.at == at && g.Valid()
    ensures Setting(c, n, sigma) && Promoted(c, n, sigma, f, false) && PhisComplete(c, f.phis)
    ensures forall w, mem, steps: nat {:trigger Run(w, f, steps, At(g.Entry(), State(map[], map[], mem, [])))} ::
      SameBehaviour(Run(w, Plain(g, code), steps, At(g.Entry(), State(map[], map[], mem, []))),
                    Run(w, f, steps, At(g.Entry(), State(map[], map[], mem, []))))
  {
    hide Acceptable, LookupsSucceed, Rows, Placed, Entering, Renamed, Promoted, Spans, ConsultableIn, LeftBefore,
      Ordered, Tables, Setting,
      Computed,
      Wellformed, Named, Terminated, FrontierTable, Run, SameBehaviour, NoRepeats, FrontierInside, Dominators.Analysed,
        Cfg.Valid, PhisComplete,
      ScalarsConfined, PairsAreValues, ScalarsAmong, ScalarSlots;
    AcceptableValid(g, code, at);
    var dom := new Dominators(g);
    dom.Run();
    var m := new Mem2Reg(dom, code, nextFree, address, at);
    AnalysedFacts(dom, m.C());
    BeforePhis(m.C(), m.N(), m.phis, nextFree, m.frontier);
    ghost var c0 := m.C();
    m.GeneratePhi();
    PlacedSpans(c0, m.C());
    AnalysedFacts(dom, m.C());
    BeforeRenaming(m.C(), m.N(), m.State(), m.nextId, m.frontier, m.children, address);
    BlocksKnown(m.C(), at);
    ghost var s0 := m.State();
    m.ReName(g.Entry());
    AfterRenaming(m.C(), m.N(), s0, m.State());
    FinalSetting(m.C(), m.N(), m.sigma, Body(m.phis, m.code));
    m.RemoveAlloca();
    f, c, n, sigma := Body(m.phis, m.code), m.C(), m.N(), m.sigma;
    forall w, mem, steps: nat
      ensures SameBehaviour(Run(w, Plain(g, code), steps, At(g.Entry(), State(map[], map[], mem, []))),
                            Run(w, f, steps, At(g.Entry(), State(map[], map[], mem, []))))
    {
      Behaves(c, n, sigma, f, w, mem, steps);
    }
  }

  lemma AcceptableValid(g: Cfg, code: map<Block, seq<Instr>>, at: map<Id, (Block, int)>)
    requires Acceptable(g, code, at)
    ensures g.Valid() && JoinsReached(g)
  {
  }
}
