/** What renaming keeps while it walks the dominator tree: which loads are replaced so far, what the
    blocks and phis look like, and what the stack of each slot holds. */
module Renaming {
  import opened ControlFlow
  import opened DominatorTree
  import opened IR
  import opened Promotion
  import opened PromotionSimulation

  // ----- substitution in blocks and phis -----

  function SubstAll(sigma: map<Id, Operand>, code: seq<Instr>): (r: seq<Instr>)
    ensures |r| == |code| && forall k {:trigger r[k]} :: 0 <= k < |code| ==> r[k] == Subst(sigma, code[k])
  {
    if code == [] then [] else [Subst(sigma, code[0])] + SubstAll(sigma, code[1..])
  }

  function SubstPairs(sigma: map<Id, Operand>, pairs: seq<(Operand, Block)>): seq<(Operand, Block)> {
    if pairs == [] then [] else [(Resolve(sigma, pairs[0].0), pairs[0].1)] + SubstPairs(sigma, pairs[1..])
  }

  function SubstRow(sigma: map<Id, Operand>, row: seq<Phi>): seq<Phi> {
    if row == [] then [] else [row[0].(pairs := SubstPairs(sigma, row[0].pairs))] + SubstRow(sigma, row[1..])
  }

  /** Every operand that was the load is the value now, the others are as before. */
  predicate OperandsReplaced(before: seq<Operand>, after: seq<Operand>, load: Id, v: Operand) {
    && |after| == |before|
    && forall m {:trigger after[m]} {:trigger before[m]} ::
         0 <= m < |before| ==> after[m] == if before[m] == Reg(load) then v else before[m]
  }

  /** So is every operand of the instructions, which are otherwise as before. */
  predicate CodeReplacedIn(before: seq<Instr>, after: seq<Instr>, load: Id, v: Operand) {
    && |after| == |before|
    && forall k {:trigger after[k]} {:trigger before[k]} :: 0 <= k < |before| ==>
         after[k].id == before[k].id && OperandsReplaced(before[k].Operands(), after[k].Operands(), load, v)
  }

  /** So is every value of the phis, each from the same block as before. */
  predicate RowReplacedIn(before: seq<Phi>, after: seq<Phi>, load: Id, v: Operand) {
    && |after| == |before|
    && forall k {:trigger after[k]} {:trigger before[k]} :: 0 <= k < |before| ==>
         after[k] == before[k].(pairs := after[k].pairs) && PairsReplacedIn(before[k].pairs, after[k].pairs, load, v)
  }

  predicate PairsReplacedIn(before: seq<(Operand, Block)>, after: seq<(Operand, Block)>, load: Id, v: Operand) {
    && |after| == |before|
    && forall m {:trigger after[m]} {:trigger before[m]} :: 0 <= m < |before| ==>
         after[m] == (if before[m].0 == Reg(load) then v else before[m].0, before[m].1)
  }

  lemma SubstCodeAt(load: Id, v: Operand, code: seq<Instr>)
    ensures CodeReplacedIn(code, SubstAll(map[load := v], code), load, v)
  {
    hide OperandsReplaced;
    forall k | 0 <= k < |code|
      ensures Subst(map[load := v], code[k]).id == code[k].id
      ensures OperandsReplaced(code[k].Operands(), Subst(map[load := v], code[k]).Operands(), load, v)
    {
      SubstOperands(load, v, code[k]);
    }
  }

  lemma SubstOperands(load: Id, v: Operand, i: Instr)
    ensures OperandsReplaced(i.Operands(), Subst(map[load := v], i).Operands(), load, v)
  {
  }

  lemma {:induction false} SubstPairsAt(load: Id, v: Operand, pairs: seq<(Operand, Block)>)
    ensures PairsReplacedIn(pairs, SubstPairs(map[load := v], pairs), load, v)
  {
    if pairs != [] {
      SubstPairsAt(load, v, pairs[1..]);
      assert pairs == [pairs[0]] + pairs[1..];
    }
  }

  lemma {:induction false} SubstRowAt(load: Id, v: Operand, row: seq<Phi>)
    ensures RowReplacedIn(row, SubstRow(map[load := v], row), load, v)
  {
    hide PairsReplacedIn;
    if row != [] {
      SubstPairsAt(load, v, row[0].pairs);
      SubstRowAt(load, v, row[1..]);
      assert row == [row[0]] + row[1..];
    }
  }

  /** `load` is not replaced yet and no replacement mentions it. */
  ghost predicate Untouched(sigma: map<Id, Operand>, load: Id) {
    load !in sigma && forall id {:trigger sigma[id]} :: id in sigma ==> sigma[id] != Reg(load)
  }

  lemma ResolveTwice(sigma: map<Id, Operand>, load: Id, v: Operand, o: Operand)
    requires Untouched(sigma, load)
    ensures Resolve(map[load := v], Resolve(sigma, o)) == Resolve(sigma[load := v], o)
  {
  }

  lemma {:induction false} ResolveAllTwice(sigma: map<Id, Operand>, load: Id, v: Operand, os: seq<Operand>)
    requires Untouched(sigma, load)
    ensures ResolveAll(map[load := v], ResolveAll(sigma, os)) == ResolveAll(sigma[load := v], os)
  {
    forall i | 0 <= i < |os|
      ensures ResolveAll(map[load := v], ResolveAll(sigma, os))[i] == ResolveAll(sigma[load := v], os)[i]
    {
      ResolveTwice(sigma, load, v, os[i]);
    }
  }

  lemma SubstTwice(sigma: map<Id, Operand>, load: Id, v: Operand, i: Instr)
    requires Untouched(sigma, load)
    ensures Subst(map[load := v], Subst(sigma, i)) == Subst(sigma[load := v], i)
  {
    hide Resolve, Untouched;
    match i {
      case Alloca(_, _) =>
      case Load(_, p) => ResolveTwice(sigma, load, v, p);
      case Store(_, r, p) => ResolveTwice(sigma, load, v, r); ResolveTwice(sigma, load, v, p);
      case Gep(_, a) => ResolveAllTwice(sigma, load, v, a);
      case Op(_, _, a) => ResolveAllTwice(sigma, load, v, a);
      case Call(_, _, a) => ResolveAllTwice(sigma, load, v, a);
      case Br(_, _) =>
      case CondBr(_, cond, _, _) => ResolveTwice(sigma, load, v, cond);
      case Ret(_, a) => ResolveAllTwice(sigma, load, v, a);
    }
  }

  lemma {:induction false} SubstAllTwice(sigma: map<Id, Operand>, load: Id, v: Operand, code: seq<Instr>)
    requires Untouched(sigma, load)
    ensures SubstAll(map[load := v], SubstAll(sigma, code)) == SubstAll(sigma[load := v], code)
  {
    forall k | 0 <= k < |code|
      ensures SubstAll(map[load := v], SubstAll(sigma, code))[k] == SubstAll(sigma[load := v], code)[k]
    {
      SubstTwice(sigma, load, v, code[k]);
    }
  }

  lemma {:induction false} KeptTwice(sigma: map<Id, Operand>, load: Id, v: Operand, code: seq<Instr>)
    requires Untouched(sigma, load)
    ensures SubstAll(map[load := v], Kept(sigma, code, true)) == Kept(sigma[load := v], code, true)
  {
    if code != [] {
      KeptTwice(sigma, load, v, code[1..]);
      SubstTwice(sigma, load, v, code[0]);
      if !Dropped(code[0], true) {
        assert Kept(sigma, code, true)[1..] == Kept(sigma, code[1..], true);
      }
    }
  }

  lemma {:induction false} SubstPairsIdle(load: Id, v: Operand, pairs: seq<(Operand, Block)>)
    requires forall i {:trigger pairs[i]} :: 0 <= i < |pairs| ==> pairs[i].0 != Reg(load)
    ensures SubstPairs(map[load := v], pairs) == pairs
  {
    if pairs != [] {
      assert forall i :: 0 <= i < |pairs[1..]| ==> pairs[1..][i] == pairs[i + 1];
      SubstPairsIdle(load, v, pairs[1..]);
      assert pairs[0].0 != Reg(load);
    }
  }

  lemma {:induction false} SubstRowIdle(load: Id, v: Operand, row: seq<Phi>)
    requires forall k, i {:trigger row[k].pairs[i]} ::
      0 <= k < |row| && 0 <= i < |row[k].pairs| ==> row[k].pairs[i].0 != Reg(load)
    ensures SubstRow(map[load := v], row) == row
  {
    if row != [] {
      assert forall k :: 0 <= k < |row[1..]| ==> row[1..][k] == row[k + 1];
      SubstRowIdle(load, v, row[1..]);
      assert forall i :: 0 <= i < |row[0].pairs| ==> row[0].pairs[i].0 != Reg(load);
      SubstPairsIdle(load, v, row[0].pairs);
    }
  }

  // ----- the replacement so far -----

  ghost predicate Grows(sigma: map<Id, Operand>, sigma': map<Id, Operand>) {
    forall id {:trigger id in sigma} :: id in sigma ==> id in sigma' && sigma'[id] == sigma[id]
  }

  lemma GrowsRefl(sigma: map<Id, Operand>)
    ensures Grows(sigma, sigma)
  {
  }

  ghost predicate NoLoadValues(c: Ctx, n: Names, sigma: map<Id, Operand>)
    requires Named(c, n)
  {
    forall id {:trigger sigma[id]} :: id in sigma && (sigma[id].Reg? || sigma[id].Elem?) && sigma[id].id in n.at ==>
      !InstrOf(c, n, sigma[id].id).IsSlotAccess()
  }

  /** Replaced loads lie in blocks already left, or before position `k` of the block at hand. */
  ghost predicate SigmaWithin(n: Names, sigma: map<Id, Operand>, exited: set<Block>, b: Block, k: int) {
    forall id {:trigger id in sigma} ::
      id in sigma && id in n.at ==> n.at[id].0 in exited || (n.at[id].0 == b && n.at[id].1 < k)
  }

  ghost predicate Replacing(c: Ctx, n: Names, sigma: map<Id, Operand>, exited: set<Block>) {
    && Wellformed(c, n)
    && OnlyLoads(c, n, sigma)
    && NoLoadValues(c, n, sigma)
    && (forall d {:trigger d in exited} :: d in exited ==> d in c.t.parent)
    && (forall d {:trigger c.t.parent[d]} :: d in exited && d != c.t.root ==> c.t.parent[d] in exited)
    && (forall d {:trigger Resolved(c, sigma, d, |c.code[d]|)} :: d in exited ==> Resolved(c, sigma, d, |c.code[d]|))
  }

  lemma ResolvedGrows(c: Ctx, n: Names, sigma: map<Id, Operand>, sigma': map<Id, Operand>, b: Block, k: int)
    requires Wellformed(c, n) && OnlyLoads(c, n, sigma') && Grows(sigma, sigma') && Resolved(c, sigma, b, k)
    ensures Resolved(c, sigma', b, k)
  {
    forall d, j | d in c.t.parent && 0 <= j < |c.code[d]| && IsSlotLoad(c.code[d][j]) && Before(c, d, j, b, k)
      ensures Replaced(c, sigma', d, j)
    {
      assert Replaced(c, sigma, d, j);
      ResolvedEarlier(c, sigma, d, j, b, k);
      ValueStable(c, n, sigma, sigma', d, j, c.code[d][j].ptr.v);
    }
  }

  /** Replacing the load at position `k` by the value of its slot keeps everything and covers position `k`. */
  lemma ReplaceOne(c: Ctx, n: Names, sigma: map<Id, Operand>, exited: set<Block>, b: Block, k: nat, top: Operand)
    requires Replacing(c, n, sigma, exited) && b in c.t.parent && b !in exited && k < |c.code[b]|
    requires IsSlotLoad(c.code[b][k])
    requires SigmaWithin(n, sigma, exited, b, k) && Resolved(c, sigma, b, k)
    requires Value(c, sigma, b, k, c.code[b][k].ptr.v) == Some(top)
    ensures var L := c.code[b][k].id; var sigma' := sigma[L := top];
      Untouched(sigma, L) && Grows(sigma, sigma') && Replacing(c, n, sigma', exited)
      && SigmaWithin(n, sigma', exited, b, k + 1) && Resolved(c, sigma', b, k + 1)
  {
    var L := c.code[b][k].id;
    var sigma' := sigma[L := top];
    assert n.at[L] == (b, k) && InstrOf(c, n, L) == c.code[b][k];
    ValueAvailable(c, n, sigma, b, k, c.code[b][k].ptr.v);
    assert L !in sigma;
    assert Untouched(sigma, L);
    assert OnlyLoads(c, n, sigma');
    forall d | d in exited
      ensures Resolved(c, sigma', d, |c.code[d]|)
    {
      ResolvedGrows(c, n, sigma, sigma', d, |c.code[d]|);
    }
    ResolvedGrows(c, n, sigma, sigma', b, k);
    ValueStable(c, n, sigma, sigma', b, k, c.code[b][k].ptr.v);
    NextResolved(c, n, sigma', b, k);
  }

  lemma NextResolved(c: Ctx, n: Names, sigma: map<Id, Operand>, b: Block, k: nat)
    requires Wellformed(c, n) && b in c.t.parent && k < |c.code[b]| && Resolved(c, sigma, b, k)
    requires IsSlotLoad(c.code[b][k]) ==> Replaced(c, sigma, b, k)
    ensures Resolved(c, sigma, b, k + 1)
  {
    forall d, j | d in c.t.parent && 0 <= j < |c.code[d]| && IsSlotLoad(c.code[d][j]) && Before(c, d, j, b, k + 1)
      ensures Replaced(c, sigma, d, j)
    {
      if d != b || j != k {
        assert Before(c, d, j, b, k);
      }
    }
  }

  lemma ResolvedAtEntry(c: Ctx, n: Names, sigma: map<Id, Operand>, exited: set<Block>, b: Block)
    requires Replacing(c, n, sigma, exited) && b in c.t.parent && (b != c.t.root ==> c.t.parent[b] in exited)
    ensures Resolved(c, sigma, b, 0)
  {
    forall d, j | d in c.t.parent && 0 <= j < |c.code[d]| && IsSlotLoad(c.code[d][j]) && Before(c, d, j, b, 0)
      ensures Replaced(c, sigma, d, j)
    {
      var p := c.t.parent[b];
      assert Resolved(c, sigma, p, |c.code[p]|);
      assert Before(c, d, j, p, |c.code[p]|);
    }
  }

  // ----- what the blocks look like -----

  ghost predicate CodeState(c: Ctx, sigma: map<Id, Operand>, finished: set<Block>, code: map<Block, seq<Instr>>) {
    && code.Keys == c.code.Keys
    && forall b {:trigger code[b]} :: b in code ==>
         code[b] == if b in finished then Kept(sigma, c.code[b], true) else SubstAll(sigma, c.code[b])
  }

  ghost function SubstCode(sigma: map<Id, Operand>, code: map<Block, seq<Instr>>): map<Block, seq<Instr>> {
    map b | b in code :: SubstAll(sigma, code[b])
  }

  lemma CodeReplaced(c: Ctx, sigma: map<Id, Operand>, finished: set<Block>, code: map<Block, seq<Instr>>, L: Id,
                     top: Operand)
    requires CodeState(c, sigma, finished, code) && Untouched(sigma, L)
    ensures CodeState(c, sigma[L := top], finished, SubstCode(map[L := top], code))
  {
    var code' := SubstCode(map[L := top], code);
    forall b | b in code'
      ensures code'[b] == if b in finished then Kept(sigma[L := top], c.code[b], true)
        else SubstAll(sigma[L := top], c.code[b])
    {
      KeptTwice(sigma, L, top, c.code[b]);
      SubstAllTwice(sigma, L, top, c.code[b]);
    }
  }

  // ----- what the phis look like -----

  /** The phi has exactly one pair for each predecessor already left from which its slot has a value. */
  ghost predicate PairsOk(c: Ctx, sigma: map<Id, Operand>, s: Block, f: Phi, exited: set<Block>)
    requires Spans(c) && forall d {:trigger d in exited} :: d in exited ==> d in c.t.parent
  {
    && (forall p {:trigger c.g.Edge(p, s)} ::
          p in exited && c.g.Edge(p, s) ==> PairFor(f.pairs, p) == Outgoing(c, sigma, p, f.lval))
    && (forall i {:trigger f.pairs[i]} :: 0 <= i < |f.pairs| ==> f.pairs[i].1 in exited && c.g.Edge(f.pairs[i].1, s))
    && (forall i, j {:trigger f.pairs[i], f.pairs[j]} :: 0 <= i < j < |f.pairs| ==> f.pairs[i].1 != f.pairs[j].1)
  }

  ghost predicate PhiState(c: Ctx, sigma: map<Id, Operand>, exited: set<Block>, phis: map<Block, seq<Phi>>)
    requires Spans(c) && forall d {:trigger d in exited} :: d in exited ==> d in c.t.parent
  {
    && (forall b {:trigger phis[b]} {:trigger b in phis} :: b in c.t.parent ==> b in phis && PhiRow(c, b, phis[b]))
    && (forall b, k {:trigger phis[b][k]} ::
          b in c.t.parent && b in phis && 0 <= k < |phis[b]| ==> PairsOk(c, sigma, b, phis[b][k], exited))
  }

  lemma {:induction false} PairForMember(pairs: seq<(Operand, Block)>, i: nat)
    requires i < |pairs|
    requires forall a, b {:trigger pairs[a], pairs[b]} :: 0 <= a < b < |pairs| ==> pairs[a].1 != pairs[b].1
    ensures PairFor(pairs, pairs[i].1) == Some(pairs[i].0)
  {
    if i > 0 {
      assert pairs[0].1 != pairs[i].1;
      var rest := pairs[1..];
      assert forall a :: 0 <= a < |rest| ==> rest[a] == pairs[a + 1];
      PairForMember(rest, i - 1);
    }
  }

  lemma {:induction false} PairForAppend(pairs: seq<(Operand, Block)>, o: Operand, b: Block, p: Block)
    requires forall i {:trigger pairs[i]} :: 0 <= i < |pairs| ==> pairs[i].1 != b
    ensures PairFor(pairs + [(o, b)], p) == if p == b then Some(o) else PairFor(pairs, p)
    ensures p == b ==> PairFor(pairs, p) == None
  {
    if pairs == [] {
      assert pairs + [(o, b)] == [(o, b)];
      assert PairFor([(o, b)][1..], p) == None;
    } else {
      assert pairs[0].1 != b;
      var rest := pairs[1..];
      assert forall i :: 0 <= i < |rest| ==> rest[i] == pairs[i + 1];
      assert (pairs + [(o, b)])[1..] == rest + [(o, b)];
      PairForAppend(rest, o, b, p);
    }
  }

  /** Replacing a load leaves the phis alone: their operands are never loads of slots. */
  lemma PhisReplaced(c: Ctx, n: Names, sigma: map<Id, Operand>, sigma': map<Id, Operand>, exited: set<Block>,
                     phis: map<Block, seq<Phi>>, L: Id, top: Operand)
    requires Replacing(c, n, sigma, exited) && Replacing(c, n, sigma', exited) && Grows(sigma, sigma')
    requires L in n.at && IsSlotLoad(InstrOf(c, n, L))
    requires PhiState(c, sigma, exited, phis)
    ensures PhiState(c, sigma', exited, phis)
    ensures forall b {:trigger phis[b]} :: b in c.t.parent ==> b in phis && SubstRow(map[L := top], phis[b]) == phis[b]
  {
    hide PhiRow;
    forall b, k | b in c.t.parent && b in phis && 0 <= k < |phis[b]|
      ensures PairsOk(c, sigma', b, phis[b][k], exited)
      ensures forall i {:trigger phis[b][k].pairs[i]} :: 0 <= i < |phis[b][k].pairs| ==> phis[b][k].pairs[i].0 != Reg(L)
    {
      PairsReplaced(c, n, sigma, sigma', exited, b, phis[b][k], L);
    }
    forall b | b in c.t.parent
      ensures b in phis && SubstRow(map[L := top], phis[b]) == phis[b]
    {
      assert b in phis;
      SubstRowIdle(L, top, phis[b]);
    }
  }

  lemma PairsReplaced(c: Ctx, n: Names, sigma: map<Id, Operand>, sigma': map<Id, Operand>, exited: set<Block>, s: Block,
                      f: Phi, L: Id)
    requires Replacing(c, n, sigma, exited) && Replacing(c, n, sigma', exited) && Grows(sigma, sigma')
    requires L in n.at && IsSlotLoad(InstrOf(c, n, L)) && PairsOk(c, sigma, s, f, exited)
    ensures PairsOk(c, sigma', s, f, exited)
    ensures forall i {:trigger f.pairs[i]} :: 0 <= i < |f.pairs| ==> f.pairs[i].0 != Reg(L)
  {
    hide OnlyLoads, NoLoadValues;
    forall p | p in exited && c.g.Edge(p, s)
      ensures Outgoing(c, sigma', p, f.lval) == Outgoing(c, sigma, p, f.lval)
    {
      OutgoingStable(c, n, sigma, sigma', exited, p, f.lval);
    }
    forall i | 0 <= i < |f.pairs|
      ensures f.pairs[i].0 != Reg(L)
    {
      PairForMember(f.pairs, i);
      OutgoingNotLoad(c, n, sigma, exited, f.pairs[i].1, f.lval, L);
    }
  }

  lemma OutgoingStable(c: Ctx, n: Names, sigma: map<Id, Operand>, sigma': map<Id, Operand>, exited: set<Block>,
                       p: Block, v: Var)
    requires Replacing(c, n, sigma, exited) && Replacing(c, n, sigma', exited) && Grows(sigma, sigma') && p in exited
    ensures Outgoing(c, sigma', p, v) == Outgoing(c, sigma, p, v)
  {
    assert Resolved(c, sigma, p, |c.code[p]|);
    ValueStable(c, n, sigma, sigma', p, |c.code[p]|, v);
  }

  lemma OutgoingNotLoad(c: Ctx, n: Names, sigma: map<Id, Operand>, exited: set<Block>, p: Block, v: Var, L: Id)
    requires Replacing(c, n, sigma, exited) && p in exited && L in n.at && IsSlotLoad(InstrOf(c, n, L))
    ensures Outgoing(c, sigma, p, v) != Some(Reg(L))
  {
    assert Resolved(c, sigma, p, |c.code[p]|);
    ValueAvailable(c, n, sigma, p, |c.code[p]|, v);
  }

  // ----- what the stacks hold -----

  function Stk(stack: map<Var, seq<Operand>>, v: Var): seq<Operand> {
    if v in stack then stack[v] else []
  }

  function TopOf(s: seq<Operand>): Option<Operand> {
    if s == [] then None else Some(s[|s| - 1])
  }

  /** What block `b` has pushed for `v` before position `k`: its phi, then the stored values. */
  ghost function Pushes(c: Ctx, sigma: map<Id, Operand>, b: Block, k: nat, v: Var): seq<Operand>
    requires b in c.code && k <= |c.code[b]|
  {
    if k == 0 then (if (b, v) in c.phi then [Reg(c.phi[(b, v)])] else [])
    else if StoresSlot(c.code[b][k - 1], v) then Pushes(c, sigma, b, k - 1, v) + [Resolve(sigma, c.code[b][k - 1].rval)]
    else Pushes(c, sigma, b, k - 1, v)
  }

  /** The value of `v` when block `b` is entered, before its phis. */
  ghost function EntryValue(c: Ctx, sigma: map<Id, Operand>, b: Block, v: Var): Option<Operand>
    requires Spans(c) && b in c.t.parent
  {
    if b == c.t.root then None else Outgoing(c, sigma, c.t.parent[b], v)
  }

  /** The stacks are those of the start of block `b`, `base`, with what `b` has pushed on top. */
  ghost predicate Stacked(c: Ctx, sigma: map<Id, Operand>, base: map<Var, seq<Operand>>, stack: map<Var, seq<Operand>>,
                          b: Block, k: nat)
    requires b in c.code && k <= |c.code[b]|
  {
    forall v {:trigger Stk(stack, v)} :: Stk(stack, v) == Stk(base, v) + Pushes(c, sigma, b, k, v)
  }

  ghost predicate BaseIs(c: Ctx, sigma: map<Id, Operand>, base: map<Var, seq<Operand>>, b: Block)
    requires Spans(c) && b in c.t.parent
  {
    forall v {:trigger Stk(base, v)} :: TopOf(Stk(base, v)) == EntryValue(c, sigma, b, v)
  }

  lemma {:induction false} PushesTop(c: Ctx, sigma: map<Id, Operand>, b: Block, k: nat, v: Var)
    requires Spans(c) && b in c.t.parent && k <= |c.code[b]|
    ensures Value(c, sigma, b, k, v) ==
      if Pushes(c, sigma, b, k, v) == [] then EntryValue(c, sigma, b, v) else TopOf(Pushes(c, sigma, b, k, v))
  {
    if k > 0 {
      PushesTop(c, sigma, b, k - 1, v);
    }
  }

  /** The top of the stack of `v` is the value of `v` at this point. */
  lemma TopIsValue(c: Ctx, sigma: map<Id, Operand>, base: map<Var, seq<Operand>>, stack: map<Var, seq<Operand>>,
                   b: Block, k: nat, v: Var)
    requires Spans(c) && b in c.t.parent && k <= |c.code[b]|
    requires Stacked(c, sigma, base, stack, b, k) && BaseIs(c, sigma, base, b)
    ensures TopOf(Stk(stack, v)) == Value(c, sigma, b, k, v)
  {
    hide Value, EntryValue, Pushes;
    PushesTop(c, sigma, b, k, v);
    assert Stk(stack, v) == Stk(base, v) + Pushes(c, sigma, b, k, v);
    assert TopOf(Stk(base, v)) == EntryValue(c, sigma, b, v);
  }

  lemma {:induction false} PushesStable(c: Ctx, n: Names, sigma: map<Id, Operand>, sigma': map<Id, Operand>, b: Block,
                                        k: nat, v: Var)
    requires Wellformed(c, n) && OnlyLoads(c, n, sigma') && Grows(sigma, sigma') && Resolved(c, sigma, b, k)
    requires b in c.t.parent && k <= |c.code[b]|
    ensures Pushes(c, sigma', b, k, v) == Pushes(c, sigma, b, k, v)
  {
    if k > 0 {
      assert c.t.OnChain(b, b);
      ResolvedEarlier(c, sigma, b, k - 1, b, k);
      PushesStable(c, n, sigma, sigma', b, k - 1, v);
      if StoresSlot(c.code[b][k - 1], v) {
        ValueStable(c, n, sigma, sigma', b, k, v);
      }
    }
  }

  lemma StackedStable(c: Ctx, n: Names, sigma: map<Id, Operand>, sigma': map<Id, Operand>,
                      base: map<Var, seq<Operand>>, stack: map<Var, seq<Operand>>, b: Block, k: nat)
    requires Wellformed(c, n) && OnlyLoads(c, n, sigma') && Grows(sigma, sigma') && Resolved(c, sigma, b, k)
    requires b in c.t.parent && k <= |c.code[b]| && Stacked(c, sigma, base, stack, b, k)
    ensures Stacked(c, sigma', base, stack, b, k)
  {
    hide Resolved, OnlyLoads, Closed, UsesDominated, Addressed;
    forall v
      ensures Stk(stack, v) == Stk(base, v) + Pushes(c, sigma', b, k, v)
    {
      PushesStable(c, n, sigma, sigma', b, k, v);
    }
  }

  lemma BaseStable(c: Ctx, n: Names, sigma: map<Id, Operand>, sigma': map<Id, Operand>, exited: set<Block>,
                   base: map<Var, seq<Operand>>, b: Block)
    requires Replacing(c, n, sigma, exited) && Replacing(c, n, sigma', exited) && Grows(sigma, sigma')
    requires b in c.t.parent && (b != c.t.root ==> c.t.parent[b] in exited) && BaseIs(c, sigma, base, b)
    ensures BaseIs(c, sigma', base, b)
  {
    hide OnlyLoads, NoLoadValues, Outgoing, Closed, UsesDominated, Addressed;
    forall v
      ensures EntryValue(c, sigma', b, v) == EntryValue(c, sigma, b, v)
    {
      if b != c.t.root {
        OutgoingStable(c, n, sigma, sigma', exited, c.t.parent[b], v);
      }
    }
  }

  /** The slots with a stack are defined by a block seen so far. */
  ghost predicate KeysWithin(c: Ctx, stack: map<Var, seq<Operand>>, left: set<Block>, seen: set<Block>) {
    && (forall v {:trigger v in stack} :: v in stack ==> DefinedIn(c, seen, v))
    && (forall v {:trigger v in stack} {:trigger DefinedIn(c, left, v)} :: DefinedIn(c, left, v) ==> v in stack)
  }

  ghost predicate DefinedIn(c: Ctx, seen: set<Block>, v: Var) {
    exists d :: d in seen && Defines(c, d, v)
  }

  // ----- when every look-up succeeds -----

  /** `v` has a value before position `k` of `b`. */
  ghost predicate HasValue(c: Ctx, b: Block, k: nat, v: Var)
    requires Spans(c) && b in c.t.parent && k <= |c.code[b]|
  {
    Value(c, map[], b, k, v).Some?
  }

  lemma {:induction false} HasValueAny(c: Ctx, sigma: map<Id, Operand>, b: Block, k: nat, v: Var)
    requires Spans(c) && b in c.t.parent && k <= |c.code[b]|
    ensures Value(c, sigma, b, k, v).Some? <==> HasValue(c, b, k, v)
    decreases c.t.rank[c.t.root] - c.t.rank[b], k
  {
    if k > 0 {
      HasValueAny(c, sigma, b, k - 1, v);
    } else {
      assert Value(c, sigma, b, 0, v) == Promotion.Incoming(c, sigma, b, v);
      assert Value(c, map[], b, 0, v) == Promotion.Incoming(c, map[], b, v);
      if (b, v) !in c.phi && b != c.t.root {
        var p := c.t.parent[b];
        HasValueAny(c, sigma, p, |c.code[p]|, v);
        assert Outgoing(c, sigma, p, v) == Value(c, sigma, p, |c.code[p]|, v);
        assert Outgoing(c, map[], p, v) == Value(c, map[], p, |c.code[p]|, v);
      }
    }
  }

  /** A strict dominator of `b` defines `v`. */
  ghost predicate DefinedAbove(c: Ctx, b: Block, v: Var)
    requires Spans(c)
  {
    exists d :: d != b && c.t.OnChain(d, b) && Defines(c, d, v)
  }

  lemma DefinedAboveStep(c: Ctx, b: Block, v: Var)
    requires Spans(c) && b in c.t.parent && b != c.t.root
    ensures DefinedAbove(c, b, v) <==> Defines(c, c.t.parent[b], v) || DefinedAbove(c, c.t.parent[b], v)
  {
    var p := c.t.parent[b];
    assert c.t.OnChain(p, p) && c.t.OnChain(p, b);
    if DefinedAbove(c, b, v) {
      var d :| d != b && c.t.OnChain(d, b) && Defines(c, d, v);
      assert c.t.OnChain(d, p);
    }
    if DefinedAbove(c, p, v) {
      var d :| d != p && c.t.OnChain(d, p) && Defines(c, d, v);
      ChainFacts(c.t, d, p);
      assert c.t.OnChain(d, b);
    }
  }

  lemma HasValueAtEntry(c: Ctx, b: Block, v: Var)
    requires Spans(c) && b in c.t.parent
    ensures HasValue(c, b, 0, v) <==>
      (b, v) in c.phi || (b != c.t.root && HasValue(c, c.t.parent[b], |c.code[c.t.parent[b]]|, v))
  {
    assert Value(c, map[], b, 0, v) == Promotion.Incoming(c, map[], b, v);
    if b != c.t.root {
      var p := c.t.parent[b];
      assert Outgoing(c, map[], p, v) == Value(c, map[], p, |c.code[p]|, v);
    }
  }

  /** A slot has a value at a point exactly if it was stored to earlier in the block, or the block has a
      phi for it, or a strict dominator of the block defines it. */
  lemma {:induction false} HasValueIff(c: Ctx, b: Block, k: nat, v: Var)
    requires Spans(c) && b in c.t.parent && k <= |c.code[b]|
    ensures HasValue(c, b, k, v) <==>
      (exists j :: 0 <= j < k && StoresSlot(c.code[b][j], v)) || (b, v) in c.phi || DefinedAbove(c, b, v)
    decreases c.t.rank[c.t.root] - c.t.rank[b], k
  {
    hide DefinedAbove;
    if k > 0 {
      HasValueIff(c, b, k - 1, v);
    } else {
      HasValueAtEntry(c, b, v);
      if b != c.t.root {
        HasValueIff(c, c.t.parent[b], |c.code[c.t.parent[b]]|, v);
        DefinedAboveStep(c, b, v);
      } else {
        RootDefinedAbove(c, v);
      }
    }
  }

  lemma RootDefinedAbove(c: Ctx, v: Var)
    requires Spans(c)
    ensures !DefinedAbove(c, c.t.root, v)
  {
  }

  ghost predicate LoadsHaveValues(c: Ctx)
    requires Spans(c)
  {
    forall b, k {:trigger c.code[b][k]} :: b in c.t.parent && 0 <= k < |c.code[b]| && IsSlotLoad(c.code[b][k]) ==>
      HasValue(c, b, k, c.code[b][k].ptr.v)
  }

  /** Every look-up that renaming makes succeeds, whatever the order of the children: a load always finds
      a value, and an edge into a phi brings one, unless the slot is defined only further down the tree. */
  ghost predicate Consultable(c: Ctx)
    requires Spans(c)
  {
    && LoadsHaveValues(c)
    && (forall b, s, v {:trigger c.g.Edge(b, s), (s, v) in c.phi} ::
          b in c.t.parent && c.g.Edge(b, s) && (s, v) in c.phi ==>
          HasValue(c, b, |c.code[b]|, v) || OnlyBelow(c, b, v))
  }

  /** The children of a block are kept in the order of their addresses. */
  ghost predicate Ordered(address: Block -> int) {
    forall a, b {:trigger address(a), address(b)} :: address(a) == address(b) ==> a == b
  }

  /** Renaming comes to `d` no later than to `b`: it is `b`, or above it, or in the subtree of an earlier child. */
  ghost predicate VisitedBefore(c: Ctx, address: Block -> int, d: Block, b: Block)
    requires Spans(c)
  {
    || c.t.OnChain(d, b)
    || exists x, y {:trigger c.t.OnChain(x, d), c.t.OnChain(y, b)} ::
         x in c.t.parent && y in c.t.parent && x != c.t.root && y != c.t.root && c.t.parent[x] == c.t.parent[y]
         && c.t.OnChain(x, d) && c.t.OnChain(y, b) && address(x) < address(y)
  }

  /** At the end of `b` the slot `v` has no value although block `d`, visited before, defines it, and a phi of a
      successor asks for one: then the stack of `v` is there but empty (see `EmptyStackIff`). */
  ghost predicate EmptyStackAsked(c: Ctx, address: Block -> int, b: Block, s: Block, v: Var, d: Block)
    requires Spans(c)
  {
    && b in c.t.parent && c.g.Edge(b, s) && (s, v) in c.phi && !HasValue(c, b, |c.code[b]|, v)
    && d in c.t.parent && Defines(c, d, v) && VisitedBefore(c, address, d, b)
  }

  /** Every look-up succeeds when the children of each block are renamed in the order of their addresses. */
  ghost predicate ConsultableIn(c: Ctx, address: Block -> int)
    requires Spans(c)
  {
    && LoadsHaveValues(c)
    && (forall b, s, v, d {:trigger EmptyStackAsked(c, address, b, s, v, d)} ::
          !EmptyStackAsked(c, address, b, s, v, d))
  }

  /** The blocks left are those that renaming in this order comes to before `b`. */
  ghost predicate LeftBefore(c: Ctx, address: Block -> int, left: set<Block>, b: Block)
    requires Spans(c)
  {
    forall d {:trigger d in left} {:trigger VisitedBefore(c, address, d, b)} :: d in c.t.parent ==>
      (d in left <==> d != b && VisitedBefore(c, address, d, b))
  }

  ghost predicate OnlyBelow(c: Ctx, b: Block, v: Var)
    requires Spans(c)
  {
    forall d {:trigger Defines(c, d, v)} :: d in c.t.parent && Defines(c, d, v) ==> d != b && c.t.OnChain(b, d)
  }

  // ----- filling the phis of the successors -----

  function Filled(row: seq<Phi>, stack: map<Var, seq<Operand>>, b: Block): seq<Phi> {
    if row == [] then [] else [FilledPhi(row[0], stack, b)] + Filled(row[1..], stack, b)
  }

  function FilledPhi(f: Phi, stack: map<Var, seq<Operand>>, b: Block): Phi {
    match TopOf(Stk(stack, f.lval))
    case Some(o) => f.(pairs := f.pairs + [(o, b)])
    case None => f
  }

  lemma {:induction false} FilledAt(row: seq<Phi>, stack: map<Var, seq<Operand>>, b: Block)
    ensures |Filled(row, stack, b)| == |row|
    ensures forall k {:trigger Filled(row, stack, b)[k]} ::
      0 <= k < |row| ==> Filled(row, stack, b)[k] == FilledPhi(row[k], stack, b)
  {
    if row != [] {
      FilledAt(row[1..], stack, b);
    }
  }

  lemma PairsFilled(c: Ctx, sigma: map<Id, Operand>, s: Block, f: Phi, stack: map<Var, seq<Operand>>,
                    exited: set<Block>, b: Block)
    requires Spans(c) && b in c.t.parent && b !in exited && c.g.Edge(b, s)
    requires forall d {:trigger d in exited} :: d in exited ==> d in c.t.parent
    requires PairsOk(c, sigma, s, f, exited) && TopOf(Stk(stack, f.lval)) == Outgoing(c, sigma, b, f.lval)
    ensures PairsOk(c, sigma, s, FilledPhi(f, stack, b), exited + {b})
  {
    hide Outgoing;
    var f' := FilledPhi(f, stack, b);
    forall p | p in exited + {b} && c.g.Edge(p, s)
      ensures PairFor(f'.pairs, p) == Outgoing(c, sigma, p, f.lval)
    {
      match TopOf(Stk(stack, f.lval)) {
        case Some(o) => PairForAppend(f.pairs, o, b, p);
        case None => PairForAppend(f.pairs, Const(0), b, p);
      }
    }
  }

  lemma PairsUnfilled(c: Ctx, sigma: map<Id, Operand>, s: Block, f: Phi, exited: set<Block>, b: Block)
    requires Spans(c) && b in c.t.parent && b !in exited && !c.g.Edge(b, s)
    requires forall d {:trigger d in exited} :: d in exited ==> d in c.t.parent
    requires PairsOk(c, sigma, s, f, exited)
    ensures PairsOk(c, sigma, s, f, exited + {b})
  {
  }

  /** Filling the successors of `b` brings the phis up to date with `b` left. */
  lemma PhisFilled(c: Ctx, sigma: map<Id, Operand>, exited: set<Block>, phis: map<Block, seq<Phi>>,
                   phis': map<Block, seq<Phi>>, stack: map<Var, seq<Operand>>, b: Block)
    requires Spans(c) && b in c.t.parent && b !in exited && InTree(c, exited) && PhiState(c, sigma, exited, phis)
    requires phis'.Keys == phis.Keys
    requires forall s {:trigger phis'[s]} ::
      s in phis ==> phis'[s] == if c.g.Edge(b, s) then Filled(phis[s], stack, b) else phis[s]
    requires forall v {:trigger Stk(stack, v)} :: TopOf(Stk(stack, v)) == Outgoing(c, sigma, b, v)
    ensures PhiState(c, sigma, exited + {b}, phis')
  {
    hide Spans, PairsOk, Outgoing, PhiRow, FilledPhi, Filled, TopOf;
    forall s | s in c.t.parent
      ensures s in phis' && PhiRow(c, s, phis'[s])
    {
      assert s in phis && PhiRow(c, s, phis[s]);
      if c.g.Edge(b, s) {
        FilledRow(c, s, phis[s], stack, b);
      }
    }
    forall s, k | s in c.t.parent && s in phis' && 0 <= k < |phis'[s]|
      ensures PairsOk(c, sigma, s, phis'[s][k], exited + {b})
    {
      PhiFilled(c, sigma, exited, phis, phis', stack, b, s, k);
    }
  }

  lemma PhiFilled(c: Ctx, sigma: map<Id, Operand>, exited: set<Block>, phis: map<Block, seq<Phi>>,
                  phis': map<Block, seq<Phi>>, stack: map<Var, seq<Operand>>, b: Block, s: Block, k: nat)
    requires Spans(c) && b in c.t.parent && b !in exited && InTree(c, exited) && PhiState(c, sigma, exited, phis)
    requires s in c.t.parent && s in phis && s in phis' && k < |phis'[s]|
    requires phis'[s] == if c.g.Edge(b, s) then Filled(phis[s], stack, b) else phis[s]
    requires forall v {:trigger Stk(stack, v)} :: TopOf(Stk(stack, v)) == Outgoing(c, sigma, b, v)
    ensures PairsOk(c, sigma, s, phis'[s][k], exited + {b})
  {
    hide Spans, PairsOk, Outgoing, PhiRow, FilledPhi, Filled, TopOf;
    if c.g.Edge(b, s) {
      FilledAt(phis[s], stack, b);
      var f := phis[s][k];
      assert TopOf(Stk(stack, f.lval)) == Outgoing(c, sigma, b, f.lval);
      PairsFilled(c, sigma, s, f, stack, exited, b);
    } else {
      assert phis'[s][k] == phis[s][k];
      PairsUnfilled(c, sigma, s, phis[s][k], exited, b);
    }
  }

  ghost predicate InTree(c: Ctx, exited: set<Block>) {
    forall d {:trigger d in exited} :: d in exited ==> d in c.t.parent
  }

  lemma FilledRow(c: Ctx, s: Block, row: seq<Phi>, stack: map<Var, seq<Operand>>, b: Block)
    requires PhiRow(c, s, row)
    ensures PhiRow(c, s, Filled(row, stack, b))
  {
    FilledAt(row, stack, b);
    var row' := Filled(row, stack, b);
    forall v | (s, v) in c.phi
      ensures HasPhi(row', v)
    {
      assert HasPhi(row, v);
      var k :| 0 <= k < |row| && row[k].lval == v;
      assert row'[k].lval == v;
    }
    forall j, k | 0 <= j < k < |row'|
      ensures row'[j].lval != row'[k].lval
    {
      assert row[j].lval != row[k].lval;
    }
  }

  // ----- subtrees -----

  lemma SubtreeSplit(c: Ctx, b: Block, x: Block)
    requires Spans(c) && c.t.OnChain(b, x) && x != b
    ensures exists k :: k in c.t.parent && k != c.t.root && c.t.parent[k] == b && c.t.OnChain(k, x)
  {
    var k := ChildTowards(c.t, b, x);
  }

  lemma {:induction false} ChildTowards(t: Tree, b: Block, x: Block) returns (k: Block)
    requires t.Valid() && t.OnChain(b, x) && x != b
    ensures k in t.parent && k != t.root && t.parent[k] == b && t.OnChain(k, x)
    decreases t.rank[t.root] - t.rank[x]
  {
    if t.parent[x] == b {
      k := x;
    } else {
      k := ChildTowards(t, b, t.parent[x]);
    }
  }

  /** Two children of one block have no descendant in common. */
  lemma SiblingsApart(t: Tree, k: Block, m: Block, x: Block)
    requires t.Valid() && k in t.parent && m in t.parent && k != t.root && m != t.root
    requires t.parent[k] == t.parent[m] && t.OnChain(k, x) && t.OnChain(m, x)
    ensures k == m
  {
    if t.rank[k] <= t.rank[m] {
      ChainLinear(t, k, m, x);
      if k != m {
        ChainFacts(t, m, t.parent[k]);
      }
    } else {
      ChainLinear(t, m, k, x);
      ChainFacts(t, k, t.parent[m]);
    }
  }

  // ----- inside a block -----

  datatype RenameState = RenameState(
    sigma: map<Id, Operand>, exited: set<Block>, finished: set<Block>,
    code: map<Block, seq<Instr>>, phis: map<Block, seq<Phi>>, stack: map<Var, seq<Operand>>)

  /** The state between two blocks. */
  ghost predicate Consistent(c: Ctx, n: Names, s: RenameState) {
    && Replacing(c, n, s.sigma, s.exited)
    && CodeState(c, s.sigma, s.finished, s.code)
    && PhiState(c, s.sigma, s.exited, s.phis)
  }

  /** Nothing in the subtree of `b` has been left yet. */
  ghost predicate Apart(c: Ctx, exited: set<Block>, b: Block)
    requires Spans(c)
  {
    forall d {:trigger d in exited} :: d in exited ==> !c.t.OnChain(b, d)
  }

  /** The state inside block `b`, before position `k`; `base` is the stack the block started from. */
  ghost predicate Inside(c: Ctx, n: Names, s: RenameState, base: map<Var, seq<Operand>>, b: Block, k: nat) {
    && Consistent(c, n, s)
    && b in c.t.parent && b !in s.exited && b !in s.finished && k <= |c.code[b]|
    && SigmaWithin(n, s.sigma, s.exited, b, k)
    && Resolved(c, s.sigma, b, k)
    && BaseIs(c, s.sigma, base, b)
    && (b != c.t.root ==> c.t.parent[b] in s.exited)
    && Apart(c, s.exited, b)
    && Stacked(c, s.sigma, base, s.stack, b, k)
    && KeysWithin(c, s.stack, s.exited, s.exited + {b})
  }

  lemma LengthKept(c: Ctx, n: Names, s: RenameState, base: map<Var, seq<Operand>>, b: Block, k: nat)
    requires Inside(c, n, s, base, b, k)
    ensures b in s.code && b in c.code && |s.code[b]| == |c.code[b]|
  {
  }

  lemma InstrAt(c: Ctx, n: Names, s: RenameState, base: map<Var, seq<Operand>>, b: Block, k: nat)
    requires Inside(c, n, s, base, b, k) && b in c.code && k < |c.code[b]|
    ensures b in s.code && k < |s.code[b]| && s.code[b][k] == Subst(s.sigma, c.code[b][k])
    ensures s.code[b][k].id == c.code[b][k].id
    ensures s.code[b][k].Load? && s.code[b][k].ptr.Slot? <==> IsSlotLoad(c.code[b][k])
    ensures s.code[b][k].Store? && s.code[b][k].ptr.Slot? <==> c.code[b][k].Store? && c.code[b][k].ptr.Slot?
    ensures c.code[b][k].IsSlotAccess() ==> s.code[b][k].ptr == c.code[b][k].ptr
  {
  }

  lemma LoadReady(c: Ctx, n: Names, s: RenameState, base: map<Var, seq<Operand>>, b: Block, k: nat)
    requires Inside(c, n, s, base, b, k) && LoadsHaveValues(c) && b in c.code && k < |c.code[b]|
    requires IsSlotLoad(c.code[b][k])
    ensures b in s.code && k < |s.code[b]| && s.code[b][k] == c.code[b][k]
    ensures var v := c.code[b][k].ptr.v; v in s.stack && s.stack[v] != []
    ensures c.g.Valid() && Spans(c) && b in c.t.parent
    ensures var v := c.code[b][k].ptr.v; Value(c, s.sigma, b, k, v) == Some(s.stack[v][|s.stack[v]| - 1])
  {
    hide Inside, Value, Resolved;
    InstrAt(c, n, s, base, b, k);
    InsideStacks(c, n, s, base, b, k);
    TopReady(c, s.sigma, base, s.stack, b, k);
  }

  lemma InsideStacks(c: Ctx, n: Names, s: RenameState, base: map<Var, seq<Operand>>, b: Block, k: nat)
    requires Inside(c, n, s, base, b, k)
    ensures c.g.Valid() && Spans(c) && b in c.t.parent && b in c.code && k <= |c.code[b]|
    ensures Stacked(c, s.sigma, base, s.stack, b, k) && BaseIs(c, s.sigma, base, b)
  {
    hide Stacked, BaseIs, CodeState, PhiState, KeysWithin, UsesDominated, Closed, Addressed, OnlyLoads, NoLoadValues;
  }

  lemma TopReady(c: Ctx, sigma: map<Id, Operand>, base: map<Var, seq<Operand>>, stack: map<Var, seq<Operand>>, b: Block,
                 k: nat)
    requires Spans(c) && b in c.t.parent && k < |c.code[b]| && IsSlotLoad(c.code[b][k]) && LoadsHaveValues(c)
    requires Stacked(c, sigma, base, stack, b, k) && BaseIs(c, sigma, base, b)
    ensures var v := c.code[b][k].ptr.v;
      v in stack && stack[v] != [] && Value(c, sigma, b, k, v) == Some(stack[v][|stack[v]| - 1])
  {
    hide Value, Stacked, BaseIs;
    var v := c.code[b][k].ptr.v;
    TopIsValue(c, sigma, base, stack, b, k, v);
    HasValueAny(c, sigma, b, k, v);
  }

  lemma LoadKeeps(c: Ctx, n: Names, s: RenameState, base: map<Var, seq<Operand>>, b: Block, k: nat, top: Operand,
                  s': RenameState)
    requires Inside(c, n, s, base, b, k) && b in c.code && k < |c.code[b]| && IsSlotLoad(c.code[b][k])
    requires Value(c, s.sigma, b, k, c.code[b][k].ptr.v) == Some(top)
    requires var L := c.code[b][k].id;
      && s'.sigma == s.sigma[L := top] && s'.exited == s.exited && s'.finished == s.finished && s'.stack == s.stack
      && s'.code == SubstCode(map[L := top], s.code)
      && s'.phis.Keys == s.phis.Keys
      && forall p {:trigger s'.phis[p]} :: p in s'.phis ==> s'.phis[p] == SubstRow(map[L := top], s.phis[p])
    ensures Inside(c, n, s', base, b, k + 1) && Grows(s.sigma, s'.sigma)
  {
    hide PairsOk, PhiRow, CodeState, UsesDominated, Closed, Addressed, KeysWithin;
    var L := c.code[b][k].id;
    ReplaceOne(c, n, s.sigma, s.exited, b, k, top);
    CodeReplaced(c, s.sigma, s.finished, s.code, L, top);
    assert InstrOf(c, n, L) == c.code[b][k];
    PhisReplaced(c, n, s.sigma, s'.sigma, s.exited, s.phis, L, top);
    PhisEqual(c, s'.sigma, s.exited, s.phis, s'.phis);
    BaseStable(c, n, s.sigma, s'.sigma, s.exited, base, b);
    StackedStable(c, n, s.sigma, s'.sigma, base, s.stack, b, k);
    StackedSkip(c, s'.sigma, base, s.stack, b, k);
  }

  lemma PhisEqual(c: Ctx, sigma: map<Id, Operand>, exited: set<Block>, phis: map<Block, seq<Phi>>,
                  phis': map<Block, seq<Phi>>)
    requires Spans(c) && InTree(c, exited) && PhiState(c, sigma, exited, phis) && phis'.Keys == phis.Keys
    requires forall p {:trigger phis'[p]} :: p in c.t.parent ==> p in phis' && p in phis && phis'[p] == phis[p]
    ensures PhiState(c, sigma, exited, phis')
  {
    hide PairsOk, PhiRow;
    forall s | s in c.t.parent
      ensures s in phis' && PhiRow(c, s, phis'[s])
    {
      assert s in phis && phis'[s] == phis[s];
    }
    forall s, k | s in c.t.parent && s in phis' && 0 <= k < |phis'[s]|
      ensures PairsOk(c, sigma, s, phis'[s][k], exited)
    {
      assert phis'[s][k] == phis[s][k];
    }
  }

  lemma StackedSkip(c: Ctx, sigma: map<Id, Operand>, base: map<Var, seq<Operand>>, stack: map<Var, seq<Operand>>,
                    b: Block, k: nat)
    requires b in c.code && k < |c.code[b]| && Stacked(c, sigma, base, stack, b, k)
    requires !(c.code[b][k].Store? && c.code[b][k].ptr.Slot?)
    ensures Stacked(c, sigma, base, stack, b, k + 1)
  {
    forall v
      ensures Pushes(c, sigma, b, k + 1, v) == Pushes(c, sigma, b, k, v)
    {
    }
  }

  lemma StoreKeeps(c: Ctx, n: Names, s: RenameState, base: map<Var, seq<Operand>>, b: Block, k: nat, s': RenameState)
    requires Inside(c, n, s, base, b, k) && b in c.code && k < |c.code[b]| && c.code[b][k].Store?
    requires c.code[b][k].ptr.Slot?
    requires var v := c.code[b][k].ptr.v;
      s' == s.(stack := s.stack[v := Stk(s.stack, v) + [Resolve(s.sigma, c.code[b][k].rval)]])
    ensures Inside(c, n, s', base, b, k + 1)
  {
    hide PhiState, CodeState, UsesDominated, Closed, Addressed, Stacked, KeysWithin, BaseIs, Value;
    NextResolved(c, n, s.sigma, b, k);
    StackedStore(c, s.sigma, base, s.stack, b, k);
    KeysStore(c, s.stack, s.exited, s.exited + {b}, b, k, Resolve(s.sigma, c.code[b][k].rval));
  }

  lemma StackedStore(c: Ctx, sigma: map<Id, Operand>, base: map<Var, seq<Operand>>, stack: map<Var, seq<Operand>>,
                     b: Block, k: nat)
    requires b in c.code && k < |c.code[b]| && Stacked(c, sigma, base, stack, b, k)
    requires c.code[b][k].Store? && c.code[b][k].ptr.Slot?
    ensures var v := c.code[b][k].ptr.v;
      Stacked(c, sigma, base, stack[v := Stk(stack, v) + [Resolve(sigma, c.code[b][k].rval)]], b, k + 1)
  {
    var v := c.code[b][k].ptr.v;
    var stack' := stack[v := Stk(stack, v) + [Resolve(sigma, c.code[b][k].rval)]];
    forall u
      ensures Stk(stack', u) == Stk(base, u) + Pushes(c, sigma, b, k + 1, u)
    {
      assert StoresSlot(c.code[b][k], u) <==> u == v;
      assert Stk(stack, u) == Stk(base, u) + Pushes(c, sigma, b, k, u);
    }
  }

  lemma KeysStore(c: Ctx, stack: map<Var, seq<Operand>>, left: set<Block>, seen: set<Block>, b: Block, k: nat,
                  o: Operand)
    requires b in c.code && b in seen && k < |c.code[b]| && c.code[b][k].Store? && c.code[b][k].ptr.Slot?
    requires KeysWithin(c, stack, left, seen)
    ensures var v := c.code[b][k].ptr.v; KeysWithin(c, stack[v := Stk(stack, v) + [o]], left, seen)
  {
    var v := c.code[b][k].ptr.v;
    assert StoresSlot(c.code[b][k], v);
    assert Defines(c, b, v);
  }

  lemma OtherKeeps(c: Ctx, n: Names, s: RenameState, base: map<Var, seq<Operand>>, b: Block, k: nat)
    requires Inside(c, n, s, base, b, k) && b in c.code && k < |c.code[b]| && !c.code[b][k].IsSlotAccess()
    ensures Inside(c, n, s, base, b, k + 1)
  {
    hide PhiState, CodeState, UsesDominated, Closed, Addressed;
    NextResolved(c, n, s.sigma, b, k);
    StackedSkip(c, s.sigma, base, s.stack, b, k);
  }

  /** The listed identities are those of the slot accesses among the first `k` instructions. */
  ghost predicate Waiting(code: seq<Instr>, k: nat, ids: seq<Id>)
    requires k <= |code|
  {
    forall id {:trigger id in ids} ::
      id in ids <==> exists j :: 0 <= j < k && code[j].IsSlotAccess() && code[j].id == id
  }

  // ----- entering and leaving a block -----

  /** The state before renaming block `b` and its subtree. */
  ghost predicate Entering(c: Ctx, n: Names, s: RenameState, b: Block) {
    && Consistent(c, n, s)
    && b in c.t.parent && (b != c.t.root ==> c.t.parent[b] in s.exited)
    && Apart(c, s.exited, b) && s.finished <= s.exited
    && SigmaWithin(n, s.sigma, s.exited, b, 0)
    && BaseIs(c, s.sigma, s.stack, b)
    && KeysWithin(c, s.stack, s.exited, s.exited)
  }

  lemma EnterInside(c: Ctx, n: Names, s: RenameState, b: Block, s': RenameState)
    requires Entering(c, n, s, b) && s' == s.(stack := s'.stack) && b in c.code
    requires Stacked(c, s.sigma, s.stack, s'.stack, b, 0) && KeysWithin(c, s'.stack, s.exited, s.exited + {b})
    ensures Inside(c, n, s', s.stack, b, 0)
  {
    hide PhiState, CodeState, Stacked, KeysWithin, BaseIs, UsesDominated, Closed, Addressed;
    ResolvedAtEntry(c, n, s.sigma, s.exited, b);
    assert c.t.OnChain(b, b);
  }

  /** At the end of a block the stack of a slot is there but empty if and only if the slot has no value although a block
      visited so far defines it. */
  lemma EmptyStackIff(c: Ctx, n: Names, s: RenameState, base: map<Var, seq<Operand>>, b: Block, v: Var)
    requires Spans(c) && b in c.t.parent && Inside(c, n, s, base, b, |c.code[b]|)
    ensures v in s.stack && s.stack[v] == [] <==> !HasValue(c, b, |c.code[b]|, v) && DefinedIn(c, s.exited + {b}, v)
  {
    hide Stacked, BaseIs, PhiState, CodeState, UsesDominated, Closed, Addressed, DefinedIn, Resolved, OnlyLoads,
      NoLoadValues, HasValue;
    TopIsValue(c, s.sigma, base, s.stack, b, |c.code[b]|, v);
    HasValueAny(c, s.sigma, b, |c.code[b]|, v);
    KeysLeft(c, s.sigma, base, s.stack, s.exited, b);
    StkKey(s.stack, v);
  }

  /** For a phi of a successor this is what is excluded when the children are renamed in the order of addresses. */
  lemma AskedIff(c: Ctx, n: Names, s: RenameState, base: map<Var, seq<Operand>>, address: Block -> int, b: Block,
                 u: Block, v: Var)
    requires b in c.code && Inside(c, n, s, base, b, |c.code[b]|) && Spans(c) && LeftBefore(c, address, s.exited, b)
    requires c.g.Edge(b, u) && (u, v) in c.phi
    ensures v in s.stack && s.stack[v] == [] <==> exists d :: EmptyStackAsked(c, address, b, u, v, d)
  {
    hide Inside, Spans, HasValue, Defines, VisitedBefore;
    InsideTree(c, n, s, base, b);
    EmptyStackIff(c, n, s, base, b, v);
    VisitedSelf(c, address, b);
    if v in s.stack && s.stack[v] == [] {
      var d :| d in s.exited + {b} && Defines(c, d, v);
      assert EmptyStackAsked(c, address, b, u, v, d);
    }
    if exists d :: EmptyStackAsked(c, address, b, u, v, d) {
      var d :| EmptyStackAsked(c, address, b, u, v, d);
      assert d in s.exited + {b};
    }
  }

  lemma InsideTree(c: Ctx, n: Names, s: RenameState, base: map<Var, seq<Operand>>, b: Block)
    requires b in c.code && Inside(c, n, s, base, b, |c.code[b]|)
    ensures b in c.t.parent && forall d {:trigger d in s.exited} :: d in s.exited ==> d in c.t.parent
  {
    hide PhiState, CodeState, UsesDominated, Closed, Addressed, Resolved, OnlyLoads, NoLoadValues;
  }

  lemma VisitedSelf(c: Ctx, address: Block -> int, b: Block)
    requires Spans(c) && b in c.t.parent
    ensures VisitedBefore(c, address, b, b)
  {
    assert c.t.OnChain(b, b);
  }

  /** Nothing is left before the root. */
  lemma NothingLeft(c: Ctx, address: Block -> int)
    requires Spans(c)
    ensures LeftBefore(c, address, {}, c.t.root)
  {
    forall y | c.t.OnChain(y, c.t.root)
      ensures y == c.t.root
    {
    }
  }

  /** When the child with the next address is renamed, exactly its elders, their subtrees and what comes before the
      parent have been left. */
  lemma LeftBeforeKid(c: Ctx, address: Block -> int, s: RenameState, s': RenameState, b: Block, kids: set<Block>,
                      done: set<Block>, kid: Block)
    requires Spans(c) && b in c.t.parent && LeftBefore(c, address, s.exited, b) && ChildrenDone(c, s, s', b, done)
    requires ChildrenOf(c, b, kids) && kid in kids && kid !in s'.exited
    requires forall k {:trigger k in done} {:trigger k in kids} :: k in done <==> k in kids && address(k) < address(kid)
    ensures LeftBefore(c, address, s'.exited, kid)
  {
    hide Spans, VisitedBefore, ChildrenDone, LeftBefore, ChildrenOf;
    forall d | d in c.t.parent
      ensures d in s'.exited <==> d != kid && VisitedBefore(c, address, d, kid)
    {
      if d in s'.exited {
        LeftIsBefore(c, address, s, s', b, kids, done, kid, d);
      } else if d != kid && VisitedBefore(c, address, d, kid) {
        BeforeIsLeft(c, address, s, s', b, kids, done, kid, d);
      }
    }
    LeftBeforeFrom(c, address, s'.exited, kid);
  }

  lemma LeftBeforeFrom(c: Ctx, address: Block -> int, left: set<Block>, b: Block)
    requires Spans(c)
    requires forall d {:trigger d in left} {:trigger VisitedBefore(c, address, d, b)} ::
      d in c.t.parent ==> (d in left <==> d != b && VisitedBefore(c, address, d, b))
    ensures LeftBefore(c, address, left, b)
  {
    hide Spans, VisitedBefore;
  }

  lemma LeftIsBefore(c: Ctx, address: Block -> int, s: RenameState, s': RenameState, b: Block, kids: set<Block>,
                     done: set<Block>, kid: Block, d: Block)
    requires Spans(c) && b in c.t.parent && LeftBefore(c, address, s.exited, b) && ChildrenDone(c, s, s', b, done)
    requires ChildrenOf(c, b, kids) && kid in kids && d in c.t.parent && d in s'.exited
    requires forall k {:trigger k in done} {:trigger k in kids} :: k in done <==> k in kids && address(k) < address(kid)
    ensures VisitedBefore(c, address, d, kid)
  {
    hide Spans, VisitedBefore;
    if d in s.exited {
      VisitedBelow(c, address, d, b, kid);
    } else if d == b {
      KidBelow(c, b, kid);
      VisitedAbove(c, address, d, kid);
    } else {
      SpansTree(c);
      var k :| k in done && c.t.OnChain(k, d);
      VisitedElder(c, address, d, k, kid);
    }
  }

  lemma KidBelow(c: Ctx, b: Block, kid: Block)
    requires Spans(c) && kid in c.t.parent && kid != c.t.root && c.t.parent[kid] == b && b in c.t.parent
    ensures c.t.OnChain(b, kid)
  {
    assert c.t.OnChain(b, b);
  }

  lemma BeforeIsLeft(c: Ctx, address: Block -> int, s: RenameState, s': RenameState, b: Block, kids: set<Block>,
                     done: set<Block>, kid: Block, d: Block)
    requires Spans(c) && b in c.t.parent && LeftBefore(c, address, s.exited, b) && ChildrenDone(c, s, s', b, done)
    requires ChildrenOf(c, b, kids) && kid in kids && d in c.t.parent && d != kid && VisitedBefore(c, address, d, kid)
    requires forall k {:trigger k in done} {:trigger k in kids} :: k in done <==> k in kids && address(k) < address(kid)
    ensures d in s'.exited
  {
    hide Spans, VisitedBefore, Under;
    VisitedKid(c, address, d, b, kids, done, kid);
  }

  lemma SpansTree(c: Ctx)
    requires Spans(c)
    ensures c.t.Valid()
  {
  }

  lemma VisitedBelow(c: Ctx, address: Block -> int, d: Block, b: Block, kid: Block)
    requires Spans(c) && kid in c.t.parent && kid != c.t.root && c.t.parent[kid] == b && VisitedBefore(c, address, d, b)
    ensures VisitedBefore(c, address, d, kid)
  {
    if !c.t.OnChain(d, b) {
      var x, y :| x in c.t.parent && y in c.t.parent && x != c.t.root && y != c.t.root
        && c.t.parent[x] == c.t.parent[y] && c.t.OnChain(x, d) && c.t.OnChain(y, b) && address(x) < address(y);
      assert c.t.OnChain(y, kid);
    }
  }

  lemma VisitedAbove(c: Ctx, address: Block -> int, d: Block, b: Block)
    requires Spans(c) && c.t.OnChain(d, b)
    ensures VisitedBefore(c, address, d, b)
  {
  }

  lemma VisitedElder(c: Ctx, address: Block -> int, d: Block, k: Block, kid: Block)
    requires Spans(c) && k in c.t.parent && kid in c.t.parent && k != c.t.root && kid != c.t.root
    requires c.t.parent[k] == c.t.parent[kid] && address(k) < address(kid) && c.t.OnChain(k, d)
    ensures VisitedBefore(c, address, d, kid)
  {
    assert c.t.OnChain(kid, kid);
  }

  /** What is visited before a child is below an elder one, or its parent, or visited before that. */
  lemma VisitedKid(c: Ctx, address: Block -> int, d: Block, b: Block, kids: set<Block>, done: set<Block>, kid: Block)
    requires Spans(c) && d in c.t.parent && b in c.t.parent && ChildrenOf(c, b, kids) && kid in kids && d != kid
    requires forall k {:trigger k in done} {:trigger k in kids} :: k in done <==> k in kids && address(k) < address(kid)
    requires VisitedBefore(c, address, d, kid)
    ensures Under(c, done, d) || d == b || VisitedBefore(c, address, d, b)
  {
    if !c.t.OnChain(d, kid) {
      var x, y :| x in c.t.parent && y in c.t.parent && x != c.t.root && y != c.t.root
        && c.t.parent[x] == c.t.parent[y] && c.t.OnChain(x, d) && c.t.OnChain(y, kid) && address(x) < address(y);
      if y == kid {
        assert x in kids && x in done;
      } else {
        assert c.t.OnChain(y, b);
      }
    }
  }

  /** The state after the successors of `b` have been filled, while its children are renamed; `full` is
      the stack at the end of `b`. */
  ghost predicate Leaving(c: Ctx, n: Names, s: RenameState, full: map<Var, seq<Operand>>, b: Block) {
    && Consistent(c, n, s)
    && b in s.exited && b !in s.finished && s.finished <= s.exited
    && SigmaWithin(n, s.sigma, s.exited, b, 0)
    && KeysWithin(c, s.stack, s.exited, s.exited)
    && (forall v {:trigger Stk(s.stack, v)} :: Stk(s.stack, v) == Stk(full, v))
    && (forall v {:trigger Stk(full, v)} :: TopOf(Stk(full, v)) == Outgoing(c, s.sigma, b, v))
  }

  lemma InsideToLeaving(c: Ctx, n: Names, s: RenameState, base: map<Var, seq<Operand>>, b: Block, s': RenameState)
    requires b in c.code && Inside(c, n, s, base, b, |c.code[b]|) && s.finished <= s.exited
    requires s' == s.(exited := s.exited + {b}, phis := s'.phis) && s'.phis.Keys == s.phis.Keys
    requires forall u {:trigger s'.phis[u]} ::
      u in s.phis ==> s'.phis[u] == if c.g.Edge(b, u) then Filled(s.phis[u], s.stack, b) else s.phis[u]
    ensures Leaving(c, n, s', s.stack, b)
  {
    hide PairsOk, PhiRow, UsesDominated, Closed, Addressed, CodeState, KeysWithin, Resolved, OnlyLoads, NoLoadValues;
    forall v
      ensures TopOf(Stk(s.stack, v)) == Outgoing(c, s.sigma, b, v)
    {
      TopIsValue(c, s.sigma, base, s.stack, b, |c.code[b]|, v);
    }
    PhisFilled(c, s.sigma, s.exited, s.phis, s'.phis, s.stack, b);
    KeysLeft(c, s.sigma, base, s.stack, s.exited, b);
    assert s'.exited == s.exited + {b};
  }

  lemma KeysMore(c: Ctx, stack: map<Var, seq<Operand>>, left: set<Block>, seen: set<Block>, seen': set<Block>)
    requires KeysWithin(c, stack, left, seen) && seen <= seen'
    ensures KeysWithin(c, stack, left, seen')
  {
    forall v | v in stack
      ensures DefinedIn(c, seen', v)
    {
      assert DefinedIn(c, seen, v);
      var d :| d in seen && Defines(c, d, v);
      assert d in seen';
    }
  }

  /** At the end of a block every slot that it defines has a key. */
  lemma KeysLeft(c: Ctx, sigma: map<Id, Operand>, base: map<Var, seq<Operand>>, stack: map<Var, seq<Operand>>,
                 left: set<Block>, b: Block)
    requires b in c.code && Stacked(c, sigma, base, stack, b, |c.code[b]|) && KeysWithin(c, stack, left, left + {b})
    ensures KeysWithin(c, stack, left + {b}, left + {b})
  {
    hide Stacked, Defines, Pushes;
    forall v | DefinedIn(c, left + {b}, v)
      ensures v in stack
    {
      var d :| d in left + {b} && Defines(c, d, v);
      if d == b {
        DefinesPushes(c, sigma, b, v);
        StackedAt(c, sigma, base, stack, b, v);
      } else {
        assert DefinedIn(c, left, v);
      }
    }
  }

  lemma StackedAt(c: Ctx, sigma: map<Id, Operand>, base: map<Var, seq<Operand>>, stack: map<Var, seq<Operand>>,
                  b: Block, v: Var)
    requires b in c.code && Stacked(c, sigma, base, stack, b, |c.code[b]|) && Pushes(c, sigma, b, |c.code[b]|, v) != []
    ensures v in stack
  {
    assert Stk(stack, v) == Stk(base, v) + Pushes(c, sigma, b, |c.code[b]|, v);
  }

  lemma DefinesPushes(c: Ctx, sigma: map<Id, Operand>, b: Block, v: Var)
    requires b in c.code && Defines(c, b, v)
    ensures Pushes(c, sigma, b, |c.code[b]|, v) != []
  {
    if (b, v) in c.phi {
      PushesPrefix(c, sigma, b, 0, |c.code[b]|, v);
    } else {
      var k :| 0 <= k < |c.code[b]| && StoresSlot(c.code[b][k], v);
      PushesPrefix(c, sigma, b, k, |c.code[b]|, v);
    }
  }

  lemma EnterChild(c: Ctx, n: Names, s: RenameState, full: map<Var, seq<Operand>>, b: Block, k: Block)
    requires Leaving(c, n, s, full, b) && k in c.t.parent && k != c.t.root && c.t.parent[k] == b
    requires Apart(c, s.exited, k)
    ensures Entering(c, n, s, k)
  {
    hide PhiState, CodeState, KeysWithin, UsesDominated, Closed, Addressed, Resolved, OnlyLoads, NoLoadValues, Outgoing;
    forall v
      ensures TopOf(Stk(s.stack, v)) == EntryValue(c, s.sigma, k, v)
    {
      assert Stk(s.stack, v) == Stk(full, v);
    }
  }

  /** Renaming one child keeps the parent's state. */
  lemma ChildKeeps(c: Ctx, n: Names, s: RenameState, s': RenameState, full: map<Var, seq<Operand>>, b: Block, k: Block)
    requires Leaving(c, n, s, full, b) && k in c.t.parent && k != c.t.root && c.t.parent[k] == b
    requires Renamed(c, n, s, s', k)
    ensures Leaving(c, n, s', full, b)
  {
    hide PhiState, CodeState, KeysWithin, UsesDominated, Closed, Addressed, Resolved, OnlyLoads, NoLoadValues;
    forall v
      ensures Stk(s'.stack, v) == Stk(full, v)
      ensures Outgoing(c, s'.sigma, b, v) == Outgoing(c, s.sigma, b, v)
    {
      assert Stk(s.stack, v) == Stk(full, v);
      OutgoingGrown(c, n, s, s', b, v);
    }
    assert !c.t.OnChain(k, b) by {
      if c.t.OnChain(k, b) {
        ChainFacts(c.t, k, b);
      }
    }
    forall d | d in s'.finished
      ensures d in s'.exited
    {
    }
    assert SigmaWithin(n, s'.sigma, s'.exited, b, 0);
  }

  lemma OutgoingGrown(c: Ctx, n: Names, s: RenameState, s': RenameState, b: Block, v: Var)
    requires Consistent(c, n, s) && Consistent(c, n, s') && Grows(s.sigma, s'.sigma) && b in s.exited
    ensures Outgoing(c, s'.sigma, b, v) == Outgoing(c, s.sigma, b, v)
  {
    assert Resolved(c, s.sigma, b, |c.code[b]|);
    ValueStable(c, n, s.sigma, s'.sigma, b, |c.code[b]|, v);
  }

  /** What renaming the subtree of `b` has done. */
  ghost predicate Renamed(c: Ctx, n: Names, s: RenameState, s': RenameState, b: Block) {
    && Consistent(c, n, s')
    && Grows(s.sigma, s'.sigma)
    && (forall d {:trigger d in s'.exited} :: d in s'.exited <==> d in s.exited || c.t.OnChain(b, d))
    && (forall d {:trigger d in s'.finished} :: d in s'.finished <==> d in s.finished || c.t.OnChain(b, d))
    && SigmaWithin(n, s'.sigma, s'.exited, b, 0)
    && KeysWithin(c, s'.stack, s'.exited, s'.exited)
    && (forall v {:trigger Stk(s'.stack, v)} :: Stk(s'.stack, v) == Stk(s.stack, v))
  }

  /** While the children of `b` are renamed: the subtrees of the children in `done` have been left. */
  ghost predicate ChildrenDone(c: Ctx, s: RenameState, s': RenameState, b: Block, done: set<Block>)
    requires Spans(c)
  {
    && (forall d {:trigger d in s'.exited} :: d in s'.exited <==> d in s.exited || d == b || Under(c, done, d))
    && (forall d {:trigger d in s'.finished} :: d in s'.finished <==> d in s.finished || Under(c, done, d))
  }

  ghost predicate Under(c: Ctx, done: set<Block>, d: Block)
    requires Spans(c)
  {
    exists k :: k in done && c.t.OnChain(k, d)
  }

  ghost predicate ChildrenOf(c: Ctx, b: Block, kids: set<Block>) {
    forall k {:trigger k in kids} :: k in kids <==> k in c.t.parent && k != c.t.root && c.t.parent[k] == b
  }

  lemma ChildApart(c: Ctx, s: RenameState, s': RenameState, b: Block, kids: set<Block>, done: set<Block>, k: Block)
    requires Spans(c) && ChildrenOf(c, b, kids) && done <= kids && k in kids && k !in done && Apart(c, s.exited, b)
    requires ChildrenDone(c, s, s', b, done)
    ensures Apart(c, s'.exited, k)
  {
    forall d | d in s'.exited
      ensures !c.t.OnChain(k, d)
    {
      if c.t.OnChain(k, d) {
        assert c.t.OnChain(b, k);
        ChainTrans(c.t, b, k, d);
        if d == b {
          ChainFacts(c.t, k, b);
        } else {
          assert Under(c, done, d);
          var m :| m in done && c.t.OnChain(m, d);
          SiblingsApart(c.t, k, m, d);
        }
        assert false;
      }
    }
  }

  lemma ChildDone(c: Ctx, n: Names, s: RenameState, s1: RenameState, s2: RenameState, b: Block, done: set<Block>,
                  k: Block)
    requires Spans(c) && ChildrenDone(c, s, s1, b, done) && Renamed(c, n, s1, s2, k)
    ensures ChildrenDone(c, s, s2, b, done + {k})
  {
    hide Consistent, SigmaWithin, KeysWithin, Grows;
    forall d
      ensures Under(c, done + {k}, d) <==> Under(c, done, d) || c.t.OnChain(k, d)
    {
      if c.t.OnChain(k, d) {
        assert k in done + {k};
      }
      if Under(c, done, d) {
        var m :| m in done && c.t.OnChain(m, d);
        assert m in done + {k};
      }
    }
  }

  lemma AllChildrenDone(c: Ctx, s: RenameState, s': RenameState, b: Block, kids: set<Block>)
    requires Spans(c) && b in c.t.parent && ChildrenOf(c, b, kids) && ChildrenDone(c, s, s', b, kids)
    ensures forall d {:trigger d in s'.exited} :: d in s'.exited <==> d in s.exited || c.t.OnChain(b, d)
    ensures forall d {:trigger d in s'.finished} :: d in s'.finished + {b} <==> d in s.finished || c.t.OnChain(b, d)
  {
    forall d
      ensures c.t.OnChain(b, d) <==> d == b || Under(c, kids, d)
    {
      if c.t.OnChain(b, d) && d != b {
        SubtreeSplit(c, b, d);
      }
      if Under(c, kids, d) {
        var k :| k in kids && c.t.OnChain(k, d);
        assert c.t.OnChain(b, k);
        ChainTrans(c.t, b, k, d);
      }
    }
  }

  // ----- popping -----

  lemma {:induction false} PushesPrefix(c: Ctx, sigma: map<Id, Operand>, b: Block, k: nat, m: nat, v: Var)
    requires b in c.code && k <= m <= |c.code[b]|
    ensures |Pushes(c, sigma, b, k, v)| <= |Pushes(c, sigma, b, m, v)|
    ensures k < m && StoresSlot(c.code[b][k], v) ==> |Pushes(c, sigma, b, k, v)| < |Pushes(c, sigma, b, m, v)|
    decreases m - k
  {
    if k < m {
      PushesPrefix(c, sigma, b, k + 1, m, v);
    }
  }

  /** `n` values have been popped from each stack of `full`, where `n` is what `b` pushed before `k`. */
  ghost predicate Popped(c: Ctx, sigma: map<Id, Operand>, full: map<Var, seq<Operand>>, stack: map<Var, seq<Operand>>,
                         b: Block, k: nat)
    requires b in c.code && k <= |c.code[b]|
  {
    forall v {:trigger Stk(stack, v)} {:trigger Pushes(c, sigma, b, k, v)} ::
      Remains(full, stack, v, |Stk(full, v)| - |Pushes(c, sigma, b, k, v)|)
  }

  lemma PoppedAll(c: Ctx, sigma: map<Id, Operand>, base: map<Var, seq<Operand>>, full: map<Var, seq<Operand>>,
                  stack: map<Var, seq<Operand>>, b: Block)
    requires b in c.code && Stacked(c, sigma, base, full, b, |c.code[b]|)
    requires Popped(c, sigma, full, stack, b, |c.code[b]|)
    ensures forall v {:trigger Stk(stack, v)} :: Stk(stack, v) == Stk(base, v)
  {
    forall v
      ensures Stk(stack, v) == Stk(base, v)
    {
      assert Stk(full, v) == Stk(base, v) + Pushes(c, sigma, b, |c.code[b]|, v);
    }
  }

  predicate PhiBefore(row: seq<Phi>, k: int, v: Var) {
    exists i :: 0 <= i < k && i < |row| && row[i].lval == v
  }

  /** The first `k` phis of block `b` have been pushed. */
  ghost predicate PhisPushed(c: Ctx, base: map<Var, seq<Operand>>, stack: map<Var, seq<Operand>>, row: seq<Phi>,
                             b: Block, k: int) {
    forall v {:trigger Stk(stack, v)} {:trigger PhiBefore(row, k, v)} ::
      (PhiBefore(row, k, v) ==> (b, v) in c.phi) &&
      Stk(stack, v) == Stk(base, v) + (if PhiBefore(row, k, v) then [Reg(c.phi[(b, v)])] else [])
  }

  lemma NothingPushed(c: Ctx, base: map<Var, seq<Operand>>, row: seq<Phi>, b: Block, seen: set<Block>)
    requires KeysWithin(c, base, seen, seen)
    ensures PhisPushed(c, base, base, row, b, 0) && KeysWithin(c, base, seen, seen + {b})
  {
    hide DefinedIn;
    KeysMore(c, base, seen, seen, seen + {b});
  }

  lemma RowAt(c: Ctx, b: Block, row: seq<Phi>, k: nat)
    requires PhiRow(c, b, row) && k < |row|
    ensures (b, row[k].lval) in c.phi && row[k].id == c.phi[(b, row[k].lval)] && !PhiBefore(row, k, row[k].lval)
  {
  }

  lemma KeysPush(c: Ctx, stack: map<Var, seq<Operand>>, left: set<Block>, seen: set<Block>, b: Block, v: Var,
                 values: seq<Operand>)
    requires KeysWithin(c, stack, left, seen) && b in seen && (b, v) in c.phi
    ensures KeysWithin(c, stack[v := values], left, seen)
  {
    assert Defines(c, b, v);
    assert DefinedIn(c, seen, v);
  }

  lemma PushPhiStep(c: Ctx, base: map<Var, seq<Operand>>, stack: map<Var, seq<Operand>>, row: seq<Phi>, b: Block,
                    k: nat, left: set<Block>, seen: set<Block>)
    requires PhiRow(c, b, row) && k < |row| && b in seen
    requires PhisPushed(c, base, stack, row, b, k) && KeysWithin(c, stack, left, seen)
    ensures var stack' := stack[row[k].lval := Stk(stack, row[k].lval) + [Reg(row[k].id)]];
      PhisPushed(c, base, stack', row, b, k + 1) && KeysWithin(c, stack', left, seen)
  {
    hide PhiRow, KeysWithin, PhiBefore;
    var v := row[k].lval;
    RowAt(c, b, row, k);
    var stack' := stack[v := Stk(stack, v) + [Reg(row[k].id)]];
    KeysPush(c, stack, left, seen, b, v, stack'[v]);
    forall u
      ensures PhiBefore(row, k + 1, u) ==> (b, u) in c.phi
      ensures Stk(stack', u) == Stk(base, u) + (if PhiBefore(row, k + 1, u) then [Reg(c.phi[(b, u)])] else [])
    {
      PhiBeforeNext(row, k, u);
      assert Stk(stack', u) == if u == v then Stk(stack, u) + [Reg(row[k].id)] else Stk(stack, u);
    }
  }

  lemma AllPushed(c: Ctx, sigma: map<Id, Operand>, base: map<Var, seq<Operand>>, stack: map<Var, seq<Operand>>,
                  row: seq<Phi>, b: Block)
    requires b in c.code && PhiRow(c, b, row) && PhisPushed(c, base, stack, row, b, |row|)
    ensures Stacked(c, sigma, base, stack, b, 0)
  {
    forall v
      ensures (b, v) in c.phi <==> PhiBefore(row, |row|, v)
    {
      if (b, v) in c.phi {
        assert HasPhi(row, v);
      }
    }
  }

  /** The first `k` phis of a block have been popped. */
  ghost predicate PhisPopped(full: map<Var, seq<Operand>>, stack: map<Var, seq<Operand>>, row: seq<Phi>, k: int) {
    forall v {:trigger Stk(stack, v)} {:trigger PhiBefore(row, k, v)} ::
      Remains(full, stack, v, |Stk(full, v)| - (if PhiBefore(row, k, v) then 1 else 0))
  }

  function PopTop(stack: map<Var, seq<Operand>>, v: Var): map<Var, seq<Operand>> {
    if v in stack && stack[v] != [] then stack[v := stack[v][..|stack[v]| - 1]] else stack
  }

  lemma PhiBeforeNext(row: seq<Phi>, k: nat, v: Var)
    requires k < |row|
    ensures PhiBefore(row, k + 1, v) <==> PhiBefore(row, k, v) || row[k].lval == v
  {
  }

  lemma PopTopStk(stack: map<Var, seq<Operand>>, v: Var, u: Var)
    requires Stk(stack, v) != []
    ensures Stk(PopTop(stack, v), u) == if u == v then Stk(stack, u)[..|Stk(stack, u)| - 1] else Stk(stack, u)
  {
  }

  /** `m` values remain of the stack of `v` in `full`. */
  ghost predicate Remains(full: map<Var, seq<Operand>>, stack: map<Var, seq<Operand>>, v: Var, m: int) {
    0 <= m <= |Stk(full, v)| && Stk(stack, v) == Stk(full, v)[..m]
  }

  lemma RemainsPop(full: map<Var, seq<Operand>>, stack: map<Var, seq<Operand>>, v: Var, m: int, u: Var, k: int)
    requires Remains(full, stack, v, m) && m > 0 && Remains(full, stack, u, k)
    ensures Stk(stack, v) != [] && Remains(full, PopTop(stack, v), u, if u == v then m - 1 else k)
  {
    PopTopStk(stack, v, u);
  }

  lemma PopPhiStep(c: Ctx, sigma: map<Id, Operand>, base: map<Var, seq<Operand>>, full: map<Var, seq<Operand>>,
                   stack: map<Var, seq<Operand>>, row: seq<Phi>, b: Block, k: nat)
    requires b in c.code && PhiRow(c, b, row) && Stacked(c, sigma, base, full, b, |c.code[b]|) && k < |row|
    requires PhisPopped(full, stack, row, k)
    ensures Stk(stack, row[k].lval) != [] && PhisPopped(full, PopTop(stack, row[k].lval), row, k + 1)
  {
    hide Remains, PopTop, Stk;
    var v := row[k].lval;
    assert (b, v) in c.phi && !PhiBefore(row, k, v);
    PushesPrefix(c, sigma, b, 0, |c.code[b]|, v);
    assert Stk(full, v) == Stk(base, v) + Pushes(c, sigma, b, |c.code[b]|, v);
    assert Remains(full, stack, v, |Stk(full, v)|);
    RemainsPop(full, stack, v, |Stk(full, v)|, v, |Stk(full, v)|);
    forall u
      ensures Remains(full, PopTop(stack, v), u, |Stk(full, u)| - (if PhiBefore(row, k + 1, u) then 1 else 0))
    {
      var m := |Stk(full, u)| - (if PhiBefore(row, k, u) then 1 else 0);
      assert Remains(full, stack, u, m);
      PhiBeforeNext(row, k, u);
      RemainsPop(full, stack, v, |Stk(full, v)|, u, m);
    }
  }

  lemma NothingPopped(full: map<Var, seq<Operand>>, stack: map<Var, seq<Operand>>, row: seq<Phi>)
    requires forall v {:trigger Stk(stack, v)} :: Stk(stack, v) == Stk(full, v)
    ensures PhisPopped(full, stack, row, 0)
  {
  }

  lemma PhisPoppedDone(c: Ctx, sigma: map<Id, Operand>, full: map<Var, seq<Operand>>, stack: map<Var, seq<Operand>>,
                       row: seq<Phi>, b: Block)
    requires b in c.code && PhiRow(c, b, row) && PhisPopped(full, stack, row, |row|)
    ensures Popped(c, sigma, full, stack, b, 0)
  {
    forall v
      ensures (b, v) in c.phi <==> PhiBefore(row, |row|, v)
    {
      if (b, v) in c.phi {
        assert HasPhi(row, v);
      }
    }
  }

  lemma PopStoreStep(c: Ctx, sigma: map<Id, Operand>, base: map<Var, seq<Operand>>, full: map<Var, seq<Operand>>,
                     stack: map<Var, seq<Operand>>, b: Block, k: nat)
    requires b in c.code && k < |c.code[b]| && Stacked(c, sigma, base, full, b, |c.code[b]|)
    requires Popped(c, sigma, full, stack, b, k) && c.code[b][k].Store? && c.code[b][k].ptr.Slot?
    ensures Stk(stack, c.code[b][k].ptr.v) != [] && Popped(c, sigma, full, PopTop(stack, c.code[b][k].ptr.v), b, k + 1)
  {
    hide Remains, PopTop, Stk;
    var v := c.code[b][k].ptr.v;
    assert StoresSlot(c.code[b][k], v);
    PushesPrefix(c, sigma, b, k, |c.code[b]|, v);
    var m := |Stk(full, v)| - |Pushes(c, sigma, b, k, v)|;
    assert Stk(full, v) == Stk(base, v) + Pushes(c, sigma, b, |c.code[b]|, v);
    assert Remains(full, stack, v, m);
    RemainsPop(full, stack, v, m, v, m);
    forall u
      ensures Remains(full, PopTop(stack, v), u, |Stk(full, u)| - |Pushes(c, sigma, b, k + 1, u)|)
    {
      assert StoresSlot(c.code[b][k], u) <==> u == v;
      assert Remains(full, stack, u, |Stk(full, u)| - |Pushes(c, sigma, b, k, u)|);
      RemainsPop(full, stack, v, m, u, |Stk(full, u)| - |Pushes(c, sigma, b, k, u)|);
    }
  }

  lemma PopOtherStep(c: Ctx, sigma: map<Id, Operand>, full: map<Var, seq<Operand>>, stack: map<Var, seq<Operand>>,
                     b: Block, k: nat)
    requires b in c.code && k < |c.code[b]| && Popped(c, sigma, full, stack, b, k)
    requires !(c.code[b][k].Store? && c.code[b][k].ptr.Slot?)
    ensures Popped(c, sigma, full, stack, b, k + 1)
  {
    forall u
      ensures Pushes(c, sigma, b, k + 1, u) == Pushes(c, sigma, b, k, u)
    {
      assert !StoresSlot(c.code[b][k], u);
    }
  }

  // ----- erasing -----

  function IdSet(ids: seq<Id>): set<Id> {
    set id | id in ids
  }

  lemma IdSetNext(ids: seq<Id>, i: nat)
    requires i < |ids|
    ensures IdSet(ids[..i + 1]) == IdSet(ids[..i]) + {ids[i]}
  {
    assert ids[..i + 1] == ids[..i] + [ids[i]];
  }


  function Without(code: seq<Instr>, ids: set<Id>): seq<Instr> {
    if code == [] then []
    else if code[0].id in ids then Without(code[1..], ids)
    else [code[0]] + Without(code[1..], ids)
  }

  lemma {:induction false} WithoutTwice(code: seq<Instr>, ids: set<Id>, id: Id)
    ensures Without(Without(code, ids), {id}) == Without(code, ids + {id})
  {
    if code != [] {
      WithoutTwice(code[1..], ids, id);
      if code[0].id !in ids {
        assert Without(code, ids)[1..] == Without(code[1..], ids);
      }
    }
  }

  lemma {:induction false} WithoutNone(code: seq<Instr>)
    ensures Without(code, {}) == code
  {
    if code != [] {
      WithoutNone(code[1..]);
    }
  }

  lemma {:induction false} WithoutIsKept(sigma: map<Id, Operand>, code: seq<Instr>, ids: set<Id>)
    requires forall k {:trigger code[k]} :: 0 <= k < |code| ==> (code[k].id in ids <==> code[k].IsSlotAccess())
    ensures Without(SubstAll(sigma, code), ids) == Kept(sigma, code, true)
  {
    if code != [] {
      var rest := code[1..];
      assert forall k :: 0 <= k < |rest| ==> rest[k] == code[k + 1];
      WithoutIsKept(sigma, rest, ids);
      assert code[0].id in ids <==> code[0].IsSlotAccess();
      assert SubstAll(sigma, code)[0] == Subst(sigma, code[0]) && SubstAll(sigma, code)[1..] == SubstAll(sigma, rest);
      assert Subst(sigma, code[0]).id == code[0].id;
    }
  }

  /** In a function where identities are unique, the waiting identities are exactly the slot accesses. */
  lemma WaitingExact(c: Ctx, n: Names, b: Block, ids: seq<Id>)
    requires Named(c, n) && b in c.code && Waiting(c.code[b], |c.code[b]|, ids)
    ensures forall k {:trigger c.code[b][k]} ::
      0 <= k < |c.code[b]| ==> (c.code[b][k].id in ids <==> c.code[b][k].IsSlotAccess())
  {
    forall k | 0 <= k < |c.code[b]|
      ensures c.code[b][k].id in ids <==> c.code[b][k].IsSlotAccess()
    {
      if c.code[b][k].id in ids {
        var j :| 0 <= j < |c.code[b]| && c.code[b][j].IsSlotAccess() && c.code[b][j].id == c.code[b][k].id;
        assert n.at[c.code[b][j].id] == (b, j) && n.at[c.code[b][k].id] == (b, k);
      }
    }
  }

  // ----- what is erased has no user left -----

  predicate Mentions(o: Operand, ids: seq<Id>) {
    (o.Reg? || o.Elem?) && o.id in ids
  }

  /** No operand of an instruction or phi in the tree is one of the identities. */
  ghost predicate NoUser(c: Ctx, code: map<Block, seq<Instr>>, phis: map<Block, seq<Phi>>, ids: seq<Id>) {
    && (forall u, i, o {:trigger i in code[u], o in i.Operands()} ::
          u in c.t.parent && u in code && i in code[u] && o in i.Operands() ==> !Mentions(o, ids))
    && (forall u, k, m {:trigger phis[u][k].pairs[m]} ::
          u in c.t.parent && u in phis && 0 <= k < |phis[u]| && 0 <= m < |phis[u][k].pairs| ==>
            !Mentions(phis[u][k].pairs[m].0, ids))
  }

  lemma {:induction false} KeptOrigin(sigma: map<Id, Operand>, code: seq<Instr>, allocas: bool, i: Instr)
    returns (k: nat)
    requires i in Kept(sigma, code, allocas)
    ensures k < |code| && !Dropped(code[k], allocas) && i == Subst(sigma, code[k])
  {
    if Dropped(code[0], allocas) || i != Subst(sigma, code[0]) {
      k := KeptOrigin(sigma, code[1..], allocas, i);
      k := k + 1;
    } else {
      k := 0;
    }
  }

  lemma OperandOrigin(sigma: map<Id, Operand>, i: Instr, o: Operand) returns (x: Operand)
    requires o in Subst(sigma, i).Operands()
    ensures x in i.Operands() && o == Resolve(sigma, x)
  {
    var m :| 0 <= m < |Subst(sigma, i).Operands()| && Subst(sigma, i).Operands()[m] == o;
    x := i.Operands()[m];
  }

  /** Once the children of `b` have been renamed nothing uses an access of a slot in `b` any more. */
  lemma WaitingUnused(c: Ctx, n: Names, s: RenameState, full: map<Var, seq<Operand>>, b: Block, ids: seq<Id>)
    requires Leaving(c, n, s, full, b) && b in c.code && Waiting(c.code[b], |c.code[b]|, ids)
    ensures NoUser(c, s.code, s.phis, ids)
  {
    hide Leaving, Waiting, PhiState, Mentions, Resolved, UsesDominated, Closed;
    LeavingConsistent(c, n, s, full, b);
    forall u, i, o | u in c.t.parent && u in s.code && i in s.code[u] && o in i.Operands()
      ensures !Mentions(o, ids)
    {
      var k := CodeOrigin(c, s.sigma, s.finished, s.code, u, i);
      var x := OperandOrigin(s.sigma, c.code[u][k], o);
      ResolvedUnused(c, n, s, b, ids, u, k, x);
    }
    forall u, k, m | u in c.t.parent && u in s.phis && 0 <= k < |s.phis[u]| && 0 <= m < |s.phis[u][k].pairs|
      ensures !Mentions(s.phis[u][k].pairs[m].0, ids)
    {
      PairUnused(c, n, s, b, ids, u, k, m);
    }
  }

  lemma LeavingConsistent(c: Ctx, n: Names, s: RenameState, full: map<Var, seq<Operand>>, b: Block)
    requires Leaving(c, n, s, full, b)
    ensures Consistent(c, n, s) && b in s.exited && b in c.t.parent
  {
  }

  lemma CodeOrigin(c: Ctx, sigma: map<Id, Operand>, finished: set<Block>, code: map<Block, seq<Instr>>, u: Block,
                   i: Instr) returns (k: nat)
    requires CodeState(c, sigma, finished, code) && u in code && i in code[u]
    ensures u in c.code && k < |c.code[u]| && i == Subst(sigma, c.code[u][k])
  {
    if u in finished {
      k := KeptOrigin(sigma, c.code[u], true, i);
    } else {
      k :| 0 <= k < |code[u]| && code[u][k] == i;
    }
  }

  /** A waiting identity that names a value belongs to a load that has been replaced. */
  lemma WaitingReplaced(c: Ctx, n: Names, sigma: map<Id, Operand>, exited: set<Block>, b: Block, ids: seq<Id>, id: Id)
    requires Replacing(c, n, sigma, exited) && b in exited && b in c.code && Waiting(c.code[b], |c.code[b]|, ids)
    requires id in ids
    ensures id in n.at && InstrOf(c, n, id).IsSlotAccess() && (InstrOf(c, n, id).Load? ==> id in sigma)
  {
    var j :| 0 <= j < |c.code[b]| && c.code[b][j].IsSlotAccess() && c.code[b][j].id == id;
    assert n.at[c.code[b][j].id] == (b, j);
    if c.code[b][j].Load? {
      assert Resolved(c, sigma, b, |c.code[b]|) && c.t.OnChain(b, b);
      assert Replaced(c, sigma, b, j);
    }
  }

  lemma ResolvedUnused(c: Ctx, n: Names, s: RenameState, b: Block, ids: seq<Id>, u: Block, k: nat, x: Operand)
    requires Consistent(c, n, s) && b in s.exited && b in c.code && Waiting(c.code[b], |c.code[b]|, ids)
    requires u in c.t.parent && u in c.code && k < |c.code[u]| && x in c.code[u][k].Operands()
    ensures !Mentions(Resolve(s.sigma, x), ids)
  {
    hide Waiting, PhiState, CodeState, Resolved, Closed;
    var o := Resolve(s.sigma, x);
    assert UseOk(c, n, x, u, k);
    if Mentions(o, ids) {
      WaitingReplaced(c, n, s.sigma, s.exited, b, ids, o.id);
    }
  }

  lemma PairUnused(c: Ctx, n: Names, s: RenameState, b: Block, ids: seq<Id>, u: Block, k: nat, m: nat)
    requires Consistent(c, n, s) && b in s.exited && b in c.code && Waiting(c.code[b], |c.code[b]|, ids)
    requires u in c.t.parent && u in s.phis && k < |s.phis[u]| && m < |s.phis[u][k].pairs|
    ensures !Mentions(s.phis[u][k].pairs[m].0, ids)
  {
    hide Waiting, CodeState, Closed, UsesDominated, PhiRow;
    var f := s.phis[u][k];
    assert PairsOk(c, s.sigma, u, f, s.exited);
    PairForMember(f.pairs, m);
    var p := f.pairs[m].1;
    assert Resolved(c, s.sigma, p, |c.code[p]|);
    ValueAvailable(c, n, s.sigma, p, |c.code[p]|, f.lval);
    if Mentions(f.pairs[m].0, ids) {
      WaitingReplaced(c, n, s.sigma, s.exited, b, ids, f.pairs[m].0.id);
    }
  }

  /** Erasing the waiting instructions of `b` finishes the block. */
  lemma FinishBlock(c: Ctx, sigma: map<Id, Operand>, finished: set<Block>, code: map<Block, seq<Instr>>, b: Block,
                    code': map<Block, seq<Instr>>)
    requires CodeState(c, sigma, finished, code) && b in code && b !in finished
    requires code' == code[b := Kept(sigma, c.code[b], true)]
    ensures CodeState(c, sigma, finished + {b}, code')
  {
  }

  // ----- one whole block -----

  /** The two versions of a block have their slot stores at the same places. */
  ghost predicate SameAccesses(code: seq<Instr>, orig: seq<Instr>) {
    && |code| == |orig|
    && forall k {:trigger code[k]} {:trigger orig[k]} :: 0 <= k < |code| ==>
         (code[k].Store? && code[k].ptr.Slot? <==> orig[k].Store? && orig[k].ptr.Slot?)
         && (code[k].Store? && code[k].ptr.Slot? ==> code[k].ptr == orig[k].ptr)
  }

  lemma SubstSameAccesses(c: Ctx, sigma: map<Id, Operand>, b: Block)
    requires Addressed(c) && b in c.code
    ensures SameAccesses(SubstAll(sigma, c.code[b]), c.code[b])
  {
  }

  lemma StkKey(stack: map<Var, seq<Operand>>, v: Var)
    ensures v in stack ==> Stk(stack, v) == stack[v]
    ensures v !in stack ==> Stk(stack, v) == []
  {
  }

  lemma EnteringFacts(c: Ctx, n: Names, s: RenameState, b: Block)
    requires Entering(c, n, s, b)
    ensures Spans(c) && b in c.t.parent && b in c.code && b in s.phis && PhiRow(c, b, s.phis[b])
    ensures b !in s.exited && KeysWithin(c, s.stack, s.exited, s.exited)
  {
    assert c.t.OnChain(b, b);
    assert b in s.phis;
  }

  lemma BodyDone(c: Ctx, n: Names, s0: RenameState, s1: RenameState, base: map<Var, seq<Operand>>, b: Block,
                 s2: RenameState)
    requires Entering(c, n, s0, b) && b in c.code && Inside(c, n, s1, base, b, |c.code[b]|)
    requires s1.exited == s0.exited && s1.finished == s0.finished
    requires s2 == s1.(exited := s1.exited + {b}, phis := s2.phis) && s2.phis.Keys == s1.phis.Keys
    requires forall u {:trigger s2.phis[u]} ::
      u in s1.phis ==> s2.phis[u] == if c.g.Edge(b, u) then Filled(s1.phis[u], s1.stack, b) else s1.phis[u]
    ensures Spans(c) && Leaving(c, n, s2, s1.stack, b) && ChildrenDone(c, s0, s2, b, {})
  {
    hide Leaving, Inside, Consistent, ChildrenDone;
    EnteringFacts(c, n, s0, b);
    InsideToLeaving(c, n, s1, base, b, s2);
    NoneDone(c, s0, s2, b);
  }

  lemma NoneDone(c: Ctx, s: RenameState, s': RenameState, b: Block)
    requires Spans(c) && s'.exited == s.exited + {b} && s'.finished == s.finished
    ensures ChildrenDone(c, s, s', b, {})
  {
    assert forall d :: !Under(c, {}, d);
  }

  lemma KidReady(c: Ctx, n: Names, s0: RenameState, s2: RenameState, full: map<Var, seq<Operand>>, b: Block,
                 kids: set<Block>, done: set<Block>, kid: Block)
    requires Spans(c) && Entering(c, n, s0, b) && Leaving(c, n, s2, full, b) && ChildrenDone(c, s0, s2, b, done)
    requires ChildrenOf(c, b, kids) && done <= kids && kid in kids && kid !in done
    ensures Entering(c, n, s2, kid)
  {
    hide Consistent, SigmaWithin, KeysWithin, BaseIs, Leaving, ChildrenDone, Apart;
    ChildApart(c, s0, s2, b, kids, done, kid);
    EnterChild(c, n, s2, full, b, kid);
  }

  lemma KidDone(c: Ctx, n: Names, s0: RenameState, s2: RenameState, s3: RenameState, full: map<Var, seq<Operand>>,
                b: Block, kids: set<Block>, done: set<Block>, kid: Block, sigma1: map<Id, Operand>)
    requires Spans(c) && Leaving(c, n, s2, full, b) && ChildrenDone(c, s0, s2, b, done)
    requires ChildrenOf(c, b, kids) && kid in kids && Renamed(c, n, s2, s3, kid) && Grows(sigma1, s2.sigma)
    ensures Leaving(c, n, s3, full, b) && ChildrenDone(c, s0, s3, b, done + {kid}) && Grows(sigma1, s3.sigma)
    ensures s2.exited <= s3.exited
  {
    ChildKeeps(c, n, s2, s3, full, b, kid);
    ChildDone(c, n, s0, s2, s3, b, done, kid);
    hide Consistent, SigmaWithin, KeysWithin, Leaving, ChildrenDone;
    forall d | d in s2.exited
      ensures d in s3.exited
    {
    }
  }

  lemma LeavingFacts(c: Ctx, n: Names, s1: RenameState, base: map<Var, seq<Operand>>, s3: RenameState, b: Block)
    requires b in c.code && Inside(c, n, s1, base, b, |c.code[b]|) && Leaving(c, n, s3, s1.stack, b)
    ensures b in s3.phis && PhiRow(c, b, s3.phis[b]) && b in s3.code && SameAccesses(s3.code[b], c.code[b])
    ensures Stacked(c, s1.sigma, base, s1.stack, b, |c.code[b]|)
    ensures forall v {:trigger Stk(s3.stack, v)} :: Stk(s3.stack, v) == Stk(s1.stack, v)
  {
    hide PairsOk, UsesDominated, Closed, KeysWithin, Resolved, OnlyLoads, NoLoadValues, SigmaWithin, Apart, PhiRow,
      Stacked, BaseIs, Outgoing, SameAccesses;
    assert b in s3.phis;
    SubstSameAccesses(c, s3.sigma, b);
    assert s3.code[b] == SubstAll(s3.sigma, c.code[b]);
  }

  lemma BlockDone(c: Ctx, n: Names, s0: RenameState, s1: RenameState, s3: RenameState, s4: RenameState,
                  base: map<Var, seq<Operand>>, full: map<Var, seq<Operand>>, b: Block, kids: set<Block>, ids: seq<Id>)
    requires Entering(c, n, s0, b) && b in c.code && s0.stack == base && Leaving(c, n, s3, full, b)
    requires ChildrenOf(c, b, kids) && ChildrenDone(c, s0, s3, b, kids)
    requires Grows(s0.sigma, s1.sigma) && Grows(s1.sigma, s3.sigma) && Waiting(c.code[b], |c.code[b]|, ids)
    requires b in s3.code && s4.code == s3.code[b := Without(s3.code[b], IdSet(ids))]
    requires s4 == s3.(stack := s4.stack, code := s4.code, finished := s3.finished + {b})
    requires s4.stack.Keys == s3.stack.Keys
    requires forall v {:trigger Stk(s4.stack, v)} :: Stk(s4.stack, v) == Stk(base, v)
    ensures Renamed(c, n, s0, s4, b)
  {
    hide PhiState, CodeState, UsesDominated, Closed, Addressed, Resolved, OnlyLoads, NoLoadValues, BaseIs, Outgoing,
      ChildrenDone,
      DefinedIn, Waiting, SigmaWithin, KeysWithin, Apart, ChildrenOf, Named;
    BlockErased(c, n, s3, s4.code, b, ids);
    AllChildrenDone(c, s0, s3, b, kids);
    GrowsTrans(s0.sigma, s1.sigma, s3.sigma);
    SameStacks(s0.stack, base, s4.stack);
    KeysSame(c, s3.stack, s4.stack, s3.exited);
    forall d
      ensures d in s4.finished <==> d in s0.finished || c.t.OnChain(b, d)
    {
      assert d in s3.finished + {b} <==> d in s4.finished;
    }
  }

  lemma BlockErased(c: Ctx, n: Names, s3: RenameState, code: map<Block, seq<Instr>>, b: Block, ids: seq<Id>)
    requires Wellformed(c, n) && CodeState(c, s3.sigma, s3.finished, s3.code) && b in c.code && b !in s3.finished
    requires b in s3.code
    requires Waiting(c.code[b], |c.code[b]|, ids) && code == s3.code[b := Without(s3.code[b], IdSet(ids))]
    ensures CodeState(c, s3.sigma, s3.finished + {b}, code)
  {
    hide UsesDominated, Closed, Addressed, Spans, Waiting;
    WaitingExact(c, n, b, ids);
    WithoutIsKept(s3.sigma, c.code[b], IdSet(ids));
    FinishBlock(c, s3.sigma, s3.finished, s3.code, b, code);
  }

  lemma GrowsTrans(s0: map<Id, Operand>, s1: map<Id, Operand>, s2: map<Id, Operand>)
    requires Grows(s0, s1) && Grows(s1, s2)
    ensures Grows(s0, s2)
  {
  }

  lemma SameStacks(s0: map<Var, seq<Operand>>, base: map<Var, seq<Operand>>, s4: map<Var, seq<Operand>>)
    requires s0 == base && forall v {:trigger Stk(s4, v)} :: Stk(s4, v) == Stk(base, v)
    ensures forall v {:trigger Stk(s4, v)} :: Stk(s4, v) == Stk(s0, v)
  {
  }

  lemma KeysSame(c: Ctx, stack: map<Var, seq<Operand>>, stack': map<Var, seq<Operand>>, seen: set<Block>)
    requires KeysWithin(c, stack, seen, seen) && stack'.Keys == stack.Keys
    ensures KeysWithin(c, stack', seen, seen)
  {
    hide DefinedIn;
    forall v
      ensures v in stack' <==> v in stack
    {
      assert v in stack'.Keys <==> v in stack.Keys;
    }
  }

  // ----- the end of the pass -----

  /** Along the edge from `p` the slot has a value. */
  ghost predicate Brings(c: Ctx, p: Block, s: Block, v: Var)
    requires Spans(c)
  {
    p in c.t.parent && c.g.Edge(p, s) && HasValue(c, p, |c.code[p]|, v)
  }

  ghost predicate OnlyPairFor(pairs: seq<(Operand, Block)>, p: Block, i: int) {
    0 <= i < |pairs| && forall j :: 0 <= j < |pairs| ==> (pairs[j].1 == p <==> j == i)
  }

  /** The phis of the reachable blocks have exactly one pair for each edge that brings a value, and no others. */
  ghost predicate PhisComplete(c: Ctx, phis: map<Block, seq<Phi>>)
    requires Spans(c)
  {
    forall s, k, p {:trigger Brings(c, p, s, phis[s][k].lval)} :: s in c.t.parent && s in phis && 0 <= k < |phis[s]| ==>
      (Brings(c, p, s, phis[s][k].lval) <==> exists i :: OnlyPairFor(phis[s][k].pairs, p, i))
      && (!Brings(c, p, s, phis[s][k].lval) ==> PairFor(phis[s][k].pairs, p) == None)
  }

  /** When the whole tree has been renamed every phi is complete. */
  lemma PhiComplete(c: Ctx, n: Names, s: RenameState)
    requires Consistent(c, n, s) && forall d {:trigger d in s.exited} :: d in c.t.parent ==> d in s.exited
    ensures PhisComplete(c, s.phis)
  {
    hide CodeState, UsesDominated, Closed, Resolved, OnlyLoads, NoLoadValues, PhiRow, Outgoing;
    forall u, k, p | u in c.t.parent && u in s.phis && 0 <= k < |s.phis[u]|
      ensures Brings(c, p, u, s.phis[u][k].lval) <==> exists i :: OnlyPairFor(s.phis[u][k].pairs, p, i)
      ensures !Brings(c, p, u, s.phis[u][k].lval) ==> PairFor(s.phis[u][k].pairs, p) == None
    {
      assert PairsOk(c, s.sigma, u, s.phis[u][k], s.exited);
      PairsComplete(c, s.sigma, u, s.phis[u][k], s.exited, p);
    }
  }

  lemma PairsComplete(c: Ctx, sigma: map<Id, Operand>, s: Block, f: Phi, exited: set<Block>, p: Block)
    requires Spans(c) && InTree(c, exited) && PairsOk(c, sigma, s, f, exited)
    requires forall d {:trigger d in exited} :: d in c.t.parent ==> d in exited
    ensures Brings(c, p, s, f.lval) <==> exists i :: OnlyPairFor(f.pairs, p, i)
    ensures !Brings(c, p, s, f.lval) ==> PairFor(f.pairs, p) == None
  {
    hide Spans;
    if p in c.t.parent && c.g.Edge(p, s) {
      SpansCode(c, p);
      HasValueAny(c, sigma, p, |c.code[p]|, f.lval);
      assert PairFor(f.pairs, p) == Outgoing(c, sigma, p, f.lval) == Value(c, sigma, p, |c.code[p]|, f.lval);
    }
    if PairFor(f.pairs, p).Some? {
      var i := PairIndex(f.pairs, p);
      assert f.pairs[i].1 in exited;
      forall j | 0 <= j < |f.pairs| && f.pairs[j].1 == p
        ensures j == i
      {
        PairsDiffer(f.pairs, i, j);
      }
      assert OnlyPairFor(f.pairs, p, i);
    } else if i :| OnlyPairFor(f.pairs, p, i) {
      PairForMember(f.pairs, i);
    }
  }

  lemma SpansCode(c: Ctx, b: Block)
    requires Spans(c) && b in c.t.parent
    ensures b in c.code && c.t.Valid() && c.g.Valid()
  {
  }

  lemma PairsDiffer(pairs: seq<(Operand, Block)>, i: nat, j: nat)
    requires forall i, j {:trigger pairs[i], pairs[j]} :: 0 <= i < j < |pairs| ==> pairs[i].1 != pairs[j].1
    requires i < |pairs| && j < |pairs| && pairs[i].1 == pairs[j].1
    ensures i == j
  {
  }

  lemma {:induction false} PairIndex(pairs: seq<(Operand, Block)>, p: Block) returns (i: nat)
    requires PairFor(pairs, p).Some?
    ensures i < |pairs| && pairs[i].1 == p
  {
    if pairs[0].1 == p {
      i := 0;
    } else {
      i := PairIndex(pairs[1..], p);
      i := i + 1;
    }
  }

  /** When the whole tree has been renamed, the function is in promoted form. */
  lemma RenamedIsPromoted(c: Ctx, n: Names, s: RenameState)
    requires Consistent(c, n, s)
    requires forall d {:trigger d in s.exited} :: d in c.t.parent ==> d in s.exited
    requires forall d {:trigger d in s.finished} :: d in c.t.parent ==> d in s.finished
    ensures Promoted(c, n, s.sigma, Body(s.phis, s.code), true)
  {
    hide UsesDominated, Closed, Addressed, NoLoadValues, PhiRow;
    forall d, j | d in c.t.parent && 0 <= j < |c.code[d]| && IsSlotLoad(c.code[d][j])
      ensures Replaced(c, s.sigma, d, j)
    {
      assert d in s.exited;
      assert Resolved(c, s.sigma, d, |c.code[d]|);
      assert c.t.OnChain(d, d);
      assert Before(c, d, j, d, |c.code[d]|);
    }
    forall u, k | u in c.t.parent && u in s.phis && 0 <= k < |s.phis[u]|
      ensures PairsMatch(c, s.sigma, u, s.phis[u][k])
    {
      assert PairsOk(c, s.sigma, u, s.phis[u][k], s.exited);
    }
  }

  predicate ScalarAlloca(i: Instr) {
    i.Alloca? && i.scalar
  }

  /** Erasing the scalar slots from a promoted block. */
  lemma {:induction false} WithoutAllocas(sigma: map<Id, Operand>, code: seq<Instr>, ids: set<Id>)
    requires forall k {:trigger code[k]} :: 0 <= k < |code| ==> (code[k].id in ids <==> ScalarAlloca(code[k]))
    ensures Without(Kept(sigma, code, true), ids) == Kept(sigma, code, false)
  {
    if code != [] {
      var rest := code[1..];
      assert forall k :: 0 <= k < |rest| ==> rest[k] == code[k + 1];
      WithoutAllocas(sigma, rest, ids);
      assert code[0].id in ids <==> ScalarAlloca(code[0]);
      if !Dropped(code[0], true) {
        assert Kept(sigma, code, true)[0] == Subst(sigma, code[0])
            && Kept(sigma, code, true)[1..] == Kept(sigma, rest, true);
        assert Subst(sigma, code[0]).id == code[0].id;
      }
    }
  }

  /** The scalar slots of a block are still all there after promotion. */
  lemma {:induction false} KeptAllocas(sigma: map<Id, Operand>, code: seq<Instr>, id: Id)
    ensures (exists k :: 0 <= k < |Kept(sigma, code, true)| &&
               ScalarAlloca(Kept(sigma, code, true)[k]) && Kept(sigma, code, true)[k].id == id)
       <==> (exists k :: 0 <= k < |code| && ScalarAlloca(code[k]) && code[k].id == id)
  {
    if code != [] {
      var kept, rest := Kept(sigma, code, true), code[1..];
      var keptRest := Kept(sigma, rest, true);
      KeptAllocas(sigma, rest, id);
      assert ScalarAlloca(Subst(sigma, code[0])) <==> ScalarAlloca(code[0]);
      if !Dropped(code[0], true) {
        assert kept == [Subst(sigma, code[0])] + keptRest;
        if k :| 0 <= k < |keptRest| && ScalarAlloca(keptRest[k]) && keptRest[k].id == id {
          assert kept[k + 1] == keptRest[k];
        }
        if k :| 0 <= k < |kept| && ScalarAlloca(kept[k]) && kept[k].id == id {
          if k > 0 {
            assert kept[k] == keptRest[k - 1];
          }
        }
      }
      if k :| 0 <= k < |rest| && ScalarAlloca(rest[k]) && rest[k].id == id {
        assert code[k + 1] == rest[k];
      }
      if k :| 0 <= k < |code| && ScalarAlloca(code[k]) && code[k].id == id {
        if k > 0 {
          assert code[k] == rest[k - 1];
        } else {
          assert kept[0] == Subst(sigma, code[0]);
        }
      }
    }
  }

  /** The listed identities are those of the scalar slots in the block. */
  ghost predicate ListsAllocas(code: seq<Instr>, ids: seq<Id>) {
    forall id {:trigger id in ids} ::
      id in ids <==> exists k :: 0 <= k < |code| && ScalarAlloca(code[k]) && code[k].id == id
  }

  /** The scalar slots of the blocks done have gone, the other blocks are as they were. */
  ghost predicate Erasing(c: Ctx, sigma: map<Id, Operand>, was: map<Block, seq<Instr>>, now: map<Block, seq<Instr>>,
                          done: seq<Block>) {
    && now.Keys == was.Keys
    && (forall b {:trigger now[b]} {:trigger b in now} ::
          b in now && b in done && b in c.t.parent ==> b in c.code && now[b] == Kept(sigma, c.code[b], false))
    && (forall b {:trigger now[b]} {:trigger b in now} :: b in now && b !in done ==> now[b] == was[b])
  }

  lemma ErasingNone(c: Ctx, n: Names, sigma: map<Id, Operand>, f: Body)
    requires Spans(c) && Named(c, n) && Promoted(c, n, sigma, f, true)
    ensures Erasing(c, sigma, f.code, f.code, [])
  {
  }

  lemma ErasingAt(c: Ctx, n: Names, sigma: map<Id, Operand>, f: Body, now: map<Block, seq<Instr>>, done: seq<Block>,
                  b: Block)
    requires Spans(c) && Named(c, n) && Promoted(c, n, sigma, f, true)
    requires Erasing(c, sigma, f.code, now, done) && b in now && b !in done
    ensures b in c.t.parent ==> b in c.code && now[b] == Kept(sigma, c.code[b], true)
  {
    hide Named, Promoted, Kept;
    PromotedCode(c, n, sigma, f);
    assert now[b] == f.code[b];
  }

  lemma ErasingNext(c: Ctx, sigma: map<Id, Operand>, was: map<Block, seq<Instr>>, now: map<Block, seq<Instr>>,
                    now': map<Block, seq<Instr>>, done: seq<Block>, b: Block)
    requires Erasing(c, sigma, was, now, done) && b in now && b in now' && now' == now[b := now'[b]]
    requires b in c.t.parent ==> b in c.code && now'[b] == Kept(sigma, c.code[b], false)
    ensures Erasing(c, sigma, was, now', done + [b])
  {
    hide Kept;
  }

  lemma ErasingAll(c: Ctx, n: Names, sigma: map<Id, Operand>, f: Body, now: map<Block, seq<Instr>>, done: seq<Block>)
    requires Spans(c) && Named(c, n) && Promoted(c, n, sigma, f, true)
    requires Erasing(c, sigma, f.code, now, done) && forall b {:trigger b in c.t.parent} ::
      b in c.t.parent ==> b in done
    ensures forall b {:trigger now[b]} {:trigger b in now} :: b in c.t.parent ==>
      b in now && b in f.code && b in c.code && now[b] == Kept(sigma, c.code[b], false)
  {
    hide Named, Promoted, Kept;
    PromotedCode(c, n, sigma, f);
    forall b | b in c.t.parent
      ensures b in now && b in f.code && b in c.code && now[b] == Kept(sigma, c.code[b], false)
    {
      assert f.code[b] == Kept(sigma, c.code[b], true);
      assert b in now;
    }
  }

  lemma AllocasErased(c: Ctx, n: Names, sigma: map<Id, Operand>, b: Block, ids: seq<Id>)
    requires Named(c, n) && b in c.code && ListsAllocas(Kept(sigma, c.code[b], true), ids)
    ensures Without(Kept(sigma, c.code[b], true), IdSet(ids)) == Kept(sigma, c.code[b], false)
  {
    forall k | 0 <= k < |c.code[b]|
      ensures c.code[b][k].id in ids <==> ScalarAlloca(c.code[b][k])
    {
      KeptAllocas(sigma, c.code[b], c.code[b][k].id);
      if c.code[b][k].id in ids {
        var j :| 0 <= j < |c.code[b]| && ScalarAlloca(c.code[b][j]) && c.code[b][j].id == c.code[b][k].id;
        assert n.at[c.code[b][j].id] == (b, j) && n.at[c.code[b][k].id] == (b, k);
      }
    }
    WithoutAllocas(sigma, c.code[b], IdSet(ids));
  }

  lemma AllocasGone(c: Ctx, n: Names, sigma: map<Id, Operand>, f: Body, f': Body)
    requires Spans(c) && Named(c, n) && Promoted(c, n, sigma, f, true) && f'.phis == f.phis
    requires forall b {:trigger f'.code[b]} {:trigger b in f'.code} :: b in c.t.parent ==>
      b in f'.code && b in f.code && f'.code[b] == Kept(sigma, c.code[b], false)
    ensures Promoted(c, n, sigma, f', false)
  {
    hide PhiRow, PairsMatch, AllResolved, OnlyLoads;
    forall s, k | s in c.t.parent && s in f'.phis && 0 <= k < |f'.phis[s]|
      ensures PairsMatch(c, sigma, s, f'.phis[s][k])
    {
      assert f'.phis[s][k] == f.phis[s][k];
    }
  }

  lemma PromotedCode(c: Ctx, n: Names, sigma: map<Id, Operand>, f: Body)
    requires Spans(c) && Named(c, n) && Promoted(c, n, sigma, f, true)
    ensures forall b {:trigger f.code[b]} {:trigger c.code[b]} :: b in c.t.parent ==>
      b in f.code && b in c.code && f.code[b] == Kept(sigma, c.code[b], true)
  {
    forall b | b in c.t.parent
      ensures b in f.code && b in c.code && f.code[b] == Kept(sigma, c.code[b], true)
    {
      assert b in f.code;
    }
  }
}
