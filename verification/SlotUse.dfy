/** Slots that are never used as values: nothing but loads and stores names them, so nothing is left that does when
    they are erased. */
module SlotUse {
  import opened ControlFlow
  import opened DominatorTree
  import opened IR
  import opened Promotion
  import opened PromotionSimulation
  import opened Renaming

  /** The operands that are values, that is, all but the address of a slot access. */
  function ValueOperands(i: Instr): seq<Operand> {
    match i
    case Load(_, p) => if p.Slot? then [] else [p]
    case Store(_, r, p) => if p.Slot? then [r] else [r, p]
    case _ => i.Operands()
  }

  /** The slots in `own` are never used as values: they are only loaded from and stored to. */
  ghost predicate Confined(c: Ctx, own: set<Var>)
    requires Spans(c)
  {
    forall b, k, o {:trigger o in ValueOperands(c.code[b][k])} ::
      b in c.t.parent && 0 <= k < |c.code[b]| && o in ValueOperands(c.code[b][k]) && o.Slot? ==> o.v !in own
  }

  /** The current value of a slot is never the address of a confined slot. */
  lemma {:induction false} ValueConfined(c: Ctx, n: Names, sigma: map<Id, Operand>, own: set<Var>, b: Block, k: nat,
                                         v: Var)
    requires Wellformed(c, n) && OnlyLoads(c, n, sigma) && Confined(c, own) && b in c.t.parent && k <= |c.code[b]|
    requires Resolved(c, sigma, b, k)
    ensures var r := Value(c, sigma, b, k, v); r.Some? && r.value.Slot? ==> r.value.v !in own
    decreases c.t.rank[c.t.root] - c.t.rank[b], k, 1
  {
    if k == 0 {
      if (b, v) !in c.phi && b != c.t.root {
        var p := c.t.parent[b];
        assert c.t.OnChain(p, b) && Before(c, p, |c.code[p]|, b, 0);
        ResolvedEarlier(c, sigma, p, |c.code[p]|, b, 0);
        ValueConfined(c, n, sigma, own, p, |c.code[p]|, v);
        assert Value(c, sigma, b, 0, v) == Promotion.Incoming(c, sigma, b, v) == Outgoing(c, sigma, p, v) == Value(c,
            sigma, p, |c.code[p]|, v);
      }
    } else {
      assert c.t.OnChain(b, b);
      ResolvedEarlier(c, sigma, b, k - 1, b, k);
      if StoresSlot(c.code[b][k - 1], v) {
        var r := c.code[b][k - 1].rval;
        assert r in ValueOperands(c.code[b][k - 1]) && r in c.code[b][k - 1].Operands();
        OperandConfined(c, n, sigma, own, r, b, k - 1);
      } else {
        ValueConfined(c, n, sigma, own, b, k - 1, v);
      }
    }
  }

  lemma {:induction false} OperandConfined(c: Ctx, n: Names, sigma: map<Id, Operand>, own: set<Var>, o: Operand,
                                           b: Block, k: nat)
    requires Wellformed(c, n) && OnlyLoads(c, n, sigma) && Confined(c, own) && b in c.t.parent && k < |c.code[b]|
    requires Resolved(c, sigma, b, k) && o in ValueOperands(c.code[b][k]) && UseOk(c, n, o, b, k)
    ensures Resolve(sigma, o).Slot? ==> Resolve(sigma, o).v !in own
    decreases c.t.rank[c.t.root] - c.t.rank[b], k, 0
  {
    if o.Reg? && o.id in sigma {
      var d, j := n.at[o.id].0, n.at[o.id].1;
      ChainFacts(c.t, d, b);
      assert c.code[d][j] == InstrOf(c, n, o.id);
      assert Replaced(c, sigma, d, j);
      ResolvedEarlier(c, sigma, d, j, b, k);
      ValueConfined(c, n, sigma, own, d, j, c.code[d][j].ptr.v);
    }
  }

  /** What is left of a block after renaming has no access of a slot, and no operand there names a replaced load or a
      confined slot. */
  lemma NothingLeftIn(c: Ctx, n: Names, sigma: map<Id, Operand>, own: set<Var>, b: Block, allocas: bool, i: Instr,
                      o: Operand)
    requires Setting(c, n, sigma) && Confined(c, own) && b in c.t.parent && i in Kept(sigma, c.code[b], allocas)
    ensures !i.IsSlotAccess() && (ScalarAlloca(i) ==> allocas)
    ensures o in i.Operands() ==> !(o.Slot? && o.v in own)
    ensures o in i.Operands() && o.Reg? && o.id in n.at ==> !IsSlotLoad(InstrOf(c, n, o.id))
  {
    var k := KeptOrigin(sigma, c.code[b], allocas, i);
    var j := c.code[b][k];
    if j.Load? || j.Store? {
      assert !j.ptr.Slot? && Resolve(sigma, j.ptr) == j.ptr;
    }
    if o in i.Operands() {
      var x := OperandOrigin(sigma, j, o);
      ResolvedEverywhere(c, sigma, b, k);
      assert UseOk(c, n, x, b, k);
      ResolveAvailable(c, n, sigma, x, b, k);
      OperandConfined(c, n, sigma, own, x, b, k);
    }
  }

  /** In the promoted program no slot is loaded or stored in a reachable block, and no operand there names a
      replaced load or a confined slot. */
  lemma NothingLeftBehind(c: Ctx, n: Names, sigma: map<Id, Operand>, f: Body, allocas: bool, own: set<Var>, b: Block,
                          i: Instr, o: Operand)
    requires Setting(c, n, sigma) && Promoted(c, n, sigma, f, allocas) && Confined(c, own)
    requires b in c.t.parent && b in f.code && i in f.code[b]
    ensures !i.IsSlotAccess() && (ScalarAlloca(i) ==> allocas)
    ensures o in i.Operands() ==> !(o.Slot? && o.v in own)
    ensures o in i.Operands() && o.Reg? && o.id in n.at ==> !IsSlotLoad(InstrOf(c, n, o.id))
  {
    hide Setting, Confined, Kept;
    NothingLeftIn(c, n, sigma, own, b, allocas, i, o);
  }

  // ----- erasing the slots -----

  /** The slots of scalars. */
  function ScalarSlots(code: map<Block, seq<Instr>>): set<Var> {
    set b, k | b in code && 0 <= k < |code[b]| && ScalarAlloca(code[b][k]) :: code[b][k].id
  }

  /** Slots of scalars are never used as values. */
  ghost predicate ScalarsConfined(code: map<Block, seq<Instr>>) {
    forall b, k, o {:trigger o in ValueOperands(code[b][k])} ::
      b in code && 0 <= k < |code[b]| && o in ValueOperands(code[b][k]) && o.Slot? ==> o.v !in ScalarSlots(code)
  }

  lemma ConfinedScalars(c: Ctx)
    requires Spans(c) && ScalarsConfined(c.code)
    ensures Confined(c, ScalarSlots(c.code))
  {
  }

  /** No operand of an instruction or phi in the tree is one of the slots. */
  ghost predicate NoSlotUser(c: Ctx, code: map<Block, seq<Instr>>, phis: map<Block, seq<Phi>>, ids: seq<Id>) {
    && (forall u, i, o {:trigger i in code[u], o in i.Operands()} ::
          u in c.t.parent && u in code && i in code[u] && o in i.Operands() ==> !(o.Slot? && o.v in ids))
    && (forall u, k, m {:trigger phis[u][k].pairs[m]} ::
          u in c.t.parent && u in phis && 0 <= k < |phis[u]| && 0 <= m < |phis[u][k].pairs| ==>
            !(phis[u][k].pairs[m].0.Slot? && phis[u][k].pairs[m].0.v in ids))
  }

  /** Every pair of a phi is the value that leaves a block of the tree. */
  ghost predicate PairsAreValues(c: Ctx, sigma: map<Id, Operand>, phis: map<Block, seq<Phi>>)
    requires Spans(c)
  {
    forall u, k, m {:trigger phis[u][k].pairs[m]} ::
      u in c.t.parent && u in phis && 0 <= k < |phis[u]| && 0 <= m < |phis[u][k].pairs| ==>
        phis[u][k].pairs[m].1 in c.t.parent
        && Outgoing(c, sigma, phis[u][k].pairs[m].1, phis[u][k].lval) == Some(phis[u][k].pairs[m].0)
  }

  lemma PairValues(c: Ctx, n: Names, s: RenameState)
    requires Consistent(c, n, s)
    ensures PairsAreValues(c, s.sigma, s.phis)
  {
    hide CodeState, Closed, UsesDominated, PhiRow, Outgoing, Resolved, OnlyLoads, NoLoadValues;
    forall u, k, m | u in c.t.parent && u in s.phis && 0 <= k < |s.phis[u]| && 0 <= m < |s.phis[u][k].pairs|
      ensures s.phis[u][k].pairs[m].1 in c.t.parent
      ensures Outgoing(c, s.sigma, s.phis[u][k].pairs[m].1, s.phis[u][k].lval) == Some(s.phis[u][k].pairs[m].0)
    {
      assert PairsOk(c, s.sigma, u, s.phis[u][k], s.exited);
      PairForMember(s.phis[u][k].pairs, m);
    }
  }

  /** Each block of the tree has been rewritten, with or without its slots. */
  ghost predicate Rewritten(c: Ctx, sigma: map<Id, Operand>, code: map<Block, seq<Instr>>) {
    forall b {:trigger code[b]} :: b in c.t.parent && b in code ==>
      b in c.code && exists allocas :: code[b] == Kept(sigma, c.code[b], allocas)
  }

  lemma SlotsUnused(c: Ctx, n: Names, sigma: map<Id, Operand>, own: set<Var>, code: map<Block, seq<Instr>>,
                    phis: map<Block, seq<Phi>>, ids: seq<Id>)
    requires Setting(c, n, sigma) && Confined(c, own) && Rewritten(c, sigma, code) && PairsAreValues(c, sigma, phis)
    requires forall id {:trigger id in ids} :: id in ids ==> id in own
    ensures NoSlotUser(c, code, phis, ids)
  {
    hide Setting, Confined, Kept, Outgoing, Spans;
    SettingParts(c, n, sigma);
    forall u, i, o | u in c.t.parent && u in code && i in code[u] && o in i.Operands()
      ensures !(o.Slot? && o.v in ids)
    {
      var allocas :| code[u] == Kept(sigma, c.code[u], allocas);
      NothingLeftIn(c, n, sigma, own, u, allocas, i, o);
    }
    forall u, k, m | u in c.t.parent && u in phis && 0 <= k < |phis[u]| && 0 <= m < |phis[u][k].pairs|
      ensures !(phis[u][k].pairs[m].0.Slot? && phis[u][k].pairs[m].0.v in ids)
    {
      PairConfined(c, n, sigma, own, phis[u][k], m);
    }
  }

  lemma SettingParts(c: Ctx, n: Names, sigma: map<Id, Operand>)
    requires Setting(c, n, sigma)
    ensures Spans(c)
  {
  }

  lemma PairConfined(c: Ctx, n: Names, sigma: map<Id, Operand>, own: set<Var>, f: Phi, m: nat)
    requires Setting(c, n, sigma) && Confined(c, own) && m < |f.pairs|
    requires f.pairs[m].1 in c.t.parent && Outgoing(c, sigma, f.pairs[m].1, f.lval) == Some(f.pairs[m].0)
    ensures f.pairs[m].0.Slot? ==> f.pairs[m].0.v !in own
  {
    var p := f.pairs[m].1;
    ResolvedEverywhere(c, sigma, p, |c.code[p]|);
    ValueConfined(c, n, sigma, own, p, |c.code[p]|, f.lval);
  }

  ghost predicate ScalarsAmong(code: seq<Instr>, own: set<Var>) {
    forall k {:trigger code[k]} :: 0 <= k < |code| && ScalarAlloca(code[k]) ==> code[k].id in own
  }

  lemma ListedAmong(code: seq<Instr>, own: set<Var>, ids: seq<Id>)
    requires ScalarsAmong(code, own) && ListsAllocas(code, ids)
    ensures forall id {:trigger id in ids} :: id in ids ==> id in own
  {
  }

  /** Renaming makes no slots. */
  lemma AllocasKnown(c: Ctx, n: Names, s: RenameState)
    requires Consistent(c, n, s)
    ensures forall b {:trigger s.code[b]} :: b in s.code ==> ScalarsAmong(s.code[b], ScalarSlots(c.code))
  {
    hide PhiState, Closed, UsesDominated, Resolved, OnlyLoads, NoLoadValues;
    forall b, k | b in s.code && 0 <= k < |s.code[b]| && ScalarAlloca(s.code[b][k])
      ensures s.code[b][k].id in ScalarSlots(c.code)
    {
      assert b in c.code;
      if b in s.finished {
        var j := KeptOrigin(s.sigma, c.code[b], true, s.code[b][k]);
        assert c.code[b][j] == s.code[b][k];
      } else {
        assert c.code[b][k] == s.code[b][k];
      }
    }
  }

  lemma ErasingRewritten(c: Ctx, n: Names, sigma: map<Id, Operand>, f: Body, now: map<Block, seq<Instr>>,
                         done: seq<Block>)
    requires Spans(c) && Named(c, n) && Promoted(c, n, sigma, f, true) && Erasing(c, sigma, f.code, now, done)
    ensures Rewritten(c, sigma, now)
  {
    hide Named, Promoted, Kept;
    PromotedCode(c, n, sigma, f);
    forall b | b in c.t.parent && b in now
      ensures b in c.code && exists allocas :: now[b] == Kept(sigma, c.code[b], allocas)
    {
      if b in done {
        assert now[b] == Kept(sigma, c.code[b], false);
      } else {
        assert now[b] == f.code[b] == Kept(sigma, c.code[b], true);
      }
    }
  }

  lemma ErasingWas(c: Ctx, sigma: map<Id, Operand>, was: map<Block, seq<Instr>>, now: map<Block, seq<Instr>>,
                   done: seq<Block>, b: Block)
    requires Erasing(c, sigma, was, now, done) && b in now && b !in done
    ensures b in was && now[b] == was[b]
  {
    assert b in was.Keys;
  }
}
