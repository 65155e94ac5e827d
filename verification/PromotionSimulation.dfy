/** Promoting slots to values preserves meaning: the memory program and the rewritten program run in
    lock step, block by block. */
module PromotionSimulation {
  import opened ControlFlow
  import opened DominatorTree
  import opened IR
  import opened Promotion

  /** A block after promotion: accesses to slots are gone, other operands are resolved, and the slots
      of scalars are kept or not. */
  function Kept(sigma: map<Id, Operand>, code: seq<Instr>, allocas: bool): seq<Instr> {
    if code == [] then []
    else if Dropped(code[0], allocas) then Kept(sigma, code[1..], allocas)
    else [Subst(sigma, code[0])] + Kept(sigma, code[1..], allocas)
  }

  predicate Dropped(i: Instr, allocas: bool) {
    i.IsSlotAccess() || (i.Alloca? && i.scalar && !allocas)
  }

  /** The phis of a block are the placed ones, each once. */
  ghost predicate PhiRow(c: Ctx, b: Block, row: seq<Phi>) {
    && (forall k {:trigger row[k]} ::
          0 <= k < |row| ==> (b, row[k].lval) in c.phi && row[k].id == c.phi[(b, row[k].lval)])
    && (forall v {:trigger (b, v) in c.phi} :: (b, v) in c.phi ==> HasPhi(row, v))
    && (forall j, k {:trigger row[j], row[k]} :: 0 <= j < k < |row| ==> row[j].lval != row[k].lval)
  }

  predicate HasPhi(row: seq<Phi>, v: Var) {
    exists k :: 0 <= k < |row| && row[k].lval == v
  }

  /** The phi of `s` has for each reachable predecessor the value that leaves it. */
  ghost predicate PairsMatch(c: Ctx, sigma: map<Id, Operand>, s: Block, f: Phi)
    requires Spans(c)
  {
    forall p {:trigger c.g.Edge(p, s)} :: c.g.Edge(p, s) && p in c.t.parent ==>
      PairFor(f.pairs, p) == Outgoing(c, sigma, p, f.lval)
  }

  ghost predicate AllResolved(c: Ctx, sigma: map<Id, Operand>)
    requires Spans(c)
  {
    forall d, j {:trigger c.code[d][j]} ::
      d in c.t.parent && 0 <= j < |c.code[d]| && IsSlotLoad(c.code[d][j]) ==> Replaced(c, sigma, d, j)
  }

  /** Terminators stand last and branch along edges of the graph. */
  ghost predicate Terminated(c: Ctx)
    requires Spans(c)
  {
    && (forall b, k {:trigger c.code[b][k]} ::
          b in c.t.parent && 0 <= k < |c.code[b]| && c.code[b][k].IsTerminator() ==>
          k == |c.code[b]| - 1)
    && (forall b, k, s {:trigger c.code[b][k].HasTarget(s)} ::
          b in c.t.parent && 0 <= k < |c.code[b]| && c.code[b][k].HasTarget(s) ==> c.g.Edge(b, s))
  }

  /** `f` is the promoted form of `c` under the replacement `sigma`. */
  ghost predicate Promoted(c: Ctx, n: Names, sigma: map<Id, Operand>, f: Body, allocas: bool)
    requires Spans(c) && Named(c, n)
  {
    && OnlyLoads(c, n, sigma)
    && AllResolved(c, sigma)
    && (forall b {:trigger f.code[b]} {:trigger b in f.code} ::
          b in c.t.parent ==> b in f.code && f.code[b] == Kept(sigma, c.code[b], allocas))
    && (forall b {:trigger f.phis[b]} {:trigger b in f.phis} ::
          b in c.t.parent ==> b in f.phis && PhiRow(c, b, f.phis[b]))
    && (forall s, k {:trigger f.phis[s][k]} :: s in c.t.parent && s in f.phis && 0 <= k < |f.phis[s]| ==>
          PairsMatch(c, sigma, s, f.phis[s][k]))
  }

  // ----- the relation -----

  predicate HasResult(i: Instr) {
    i.Load? || i.Gep? || i.Op? || i.Call?
  }

  /** What the memory program has computed on the way to this point, the other one has too. */
  ghost predicate SameValues(c: Ctx, n: Names, sigma: map<Id, Operand>, w: World, b: Block, k: int,
                             env0: map<Id, Val>, env1: map<Id, Val>)
    requires Spans(c) && Named(c, n)
  {
    forall id {:trigger id in env0} ::
      id in env0 && id in n.at && HasResult(InstrOf(c, n, id)) && Before(c, n.at[id].0, n.at[id].1, b, k)
      ==> Eval(w, env1, Resolve(sigma, Reg(id))) == Some(env0[id])
  }

  /** The value that stands for a slot evaluates to the content of its cell. */
  ghost predicate SameCells(c: Ctx, sigma: map<Id, Operand>, w: World, b: Block, k: nat,
                            cells: map<Var, Val>, env1: map<Id, Val>)
    requires Spans(c) && b in c.t.parent && k <= |c.code[b]|
  {
    forall v {:trigger v in cells} :: v in cells ==>
      Value(c, sigma, b, k, v).Some? && Eval(w, env1, Value(c, sigma, b, k, v).value) == Some(cells[v])
  }

  ghost predicate Related(c: Ctx, n: Names, sigma: map<Id, Operand>, w: World, b: Block, k: nat, s0: State, s1: State)
    requires Spans(c) && Named(c, n) && b in c.t.parent && k <= |c.code[b]|
  {
    && s0.mem == s1.mem && s0.trace == s1.trace
    && SameValues(c, n, sigma, w, b, k, s0.env, s1.env)
    && SameCells(c, sigma, w, b, k, s0.cells, s1.env)
  }

  ghost predicate Setting(c: Ctx, n: Names, sigma: map<Id, Operand>) {
    Wellformed(c, n) && OnlyLoads(c, n, sigma) && AllResolved(c, sigma) && Terminated(c)
  }

  lemma ResolvedEverywhere(c: Ctx, sigma: map<Id, Operand>, b: Block, k: int)
    requires Spans(c) && AllResolved(c, sigma)
    ensures Resolved(c, sigma, b, k)
  {
  }

  /** What stands for an earlier result is available now. */
  lemma EarlierAvailable(c: Ctx, n: Names, sigma: map<Id, Operand>, id: Id, b: Block, k: nat)
    requires Setting(c, n, sigma) && b in c.t.parent && k <= |c.code[b]|
    requires id in n.at && Before(c, n.at[id].0, n.at[id].1, b, k) && HasResult(InstrOf(c, n, id))
    ensures Available(c, n, Resolve(sigma, Reg(id)), b, k)
  {
    var d, j := n.at[id].0, n.at[id].1;
    ChainFacts(c.t, d, b);
    assert c.code[d][j] == InstrOf(c, n, id);
    if IsSlotLoad(c.code[d][j]) {
      assert Replaced(c, sigma, d, j);
      ResolvedEverywhere(c, sigma, d, j);
      ValueAvailable(c, n, sigma, d, j, c.code[d][j].ptr.v);
      AvailableLater(c, n, sigma[id], d, j, b, k);
    }
  }

  /** Writing the result of the current instruction leaves available values alone. */
  lemma AvailableUntouched(c: Ctx, n: Names, w: World, o: Operand, b: Block, k: nat, env: map<Id, Val>, x: Val)
    requires Spans(c) && Named(c, n) && b in c.t.parent && k < |c.code[b]| && Available(c, n, o, b, k)
    ensures Eval(w, env[c.code[b][k].id := x], o) == Eval(w, env, o)
  {
    var id := c.code[b][k].id;
    assert n.at[id] == (b, k);
  }

  lemma UseEval(c: Ctx, n: Names, sigma: map<Id, Operand>, w: World, b: Block, k: nat, s0: State, s1: State, o: Operand)
    requires Setting(c, n, sigma) && b in c.t.parent && k < |c.code[b]| && o in c.code[b][k].Operands()
    requires SameValues(c, n, sigma, w, b, k, s0.env, s1.env)
    ensures Eval(w, s0.env, o).Some? ==> Eval(w, s1.env, Resolve(sigma, o)) == Eval(w, s0.env, o)
  {
    assert UseOk(c, n, o, b, k);
  }

  lemma {:induction false} UseEvalAll(c: Ctx, n: Names, sigma: map<Id, Operand>, w: World, b: Block, k: nat,
                                      s0: State, s1: State, os: seq<Operand>)
    requires Setting(c, n, sigma) && b in c.t.parent && k < |c.code[b]|
    requires forall o {:trigger o in os} :: o in os ==> o in c.code[b][k].Operands()
    requires SameValues(c, n, sigma, w, b, k, s0.env, s1.env)
    ensures EvalAll(w, s0.env, os).Some? ==> EvalAll(w, s1.env, ResolveAll(sigma, os)) == EvalAll(w, s0.env, os)
  {
    hide Setting, SameValues;
    if os != [] {
      assert os == [os[0]] + os[1..];
      assert os[0] in os && forall o :: o in os[1..] ==> o in os;
      UseEval(c, n, sigma, w, b, k, s0, s1, os[0]);
      UseEvalAll(c, n, sigma, w, b, k, s0, s1, os[1..]);
      assert ResolveAll(sigma, os)[1..] == ResolveAll(sigma, os[1..]);
    }
  }

  /** One position on: nothing is forgotten, and the current instruction may add its result. */
  lemma NextValues(c: Ctx, n: Names, sigma: map<Id, Operand>, w: World, b: Block, k: nat, s0: State, s1: State)
    requires Setting(c, n, sigma) && b in c.t.parent && k < |c.code[b]|
    requires SameValues(c, n, sigma, w, b, k, s0.env, s1.env)
    requires HasResult(c.code[b][k]) && c.code[b][k].id in s0.env ==>
      Eval(w, s1.env, Resolve(sigma, Reg(c.code[b][k].id))) == Some(s0.env[c.code[b][k].id])
    ensures SameValues(c, n, sigma, w, b, k + 1, s0.env, s1.env)
  {
    forall id | id in s0.env && id in n.at && HasResult(InstrOf(c, n, id))
      && Before(c, n.at[id].0, n.at[id].1, b, k + 1)
      ensures Eval(w, s1.env, Resolve(sigma, Reg(id))) == Some(s0.env[id])
    {
      if n.at[id] == (b, k) {
        assert InstrOf(c, n, id) == c.code[b][k];
      }
    }
  }

  lemma WriteKeepsValues(c: Ctx, n: Names, sigma: map<Id, Operand>, w: World, b: Block, k: nat,
                         env0: map<Id, Val>, env1: map<Id, Val>, x: Val)
    requires Setting(c, n, sigma) && b in c.t.parent && k < |c.code[b]|
    requires SameValues(c, n, sigma, w, b, k, env0, env1)
    ensures SameValues(c, n, sigma, w, b, k, env0[c.code[b][k].id := x], env1)
    ensures SameValues(c, n, sigma, w, b, k, env0[c.code[b][k].id := x], env1[c.code[b][k].id := x])
  {
    var i := c.code[b][k].id;
    assert n.at[i] == (b, k);
    forall id | id in env0[i := x] && id in n.at && HasResult(InstrOf(c, n, id))
      && Before(c, n.at[id].0, n.at[id].1, b, k)
      ensures id in env0 && id != i
      ensures Eval(w, env1[i := x], Resolve(sigma, Reg(id))) == Eval(w, env1, Resolve(sigma, Reg(id)))
    {
      EarlierAvailable(c, n, sigma, id, b, k);
      AvailableUntouched(c, n, w, Resolve(sigma, Reg(id)), b, k, env1, x);
    }
  }

  lemma WriteKeepsCells(c: Ctx, n: Names, sigma: map<Id, Operand>, w: World, b: Block, k: nat,
                        cells: map<Var, Val>, env1: map<Id, Val>, x: Val)
    requires Setting(c, n, sigma) && b in c.t.parent && k < |c.code[b]|
    requires SameCells(c, sigma, w, b, k, cells, env1)
    ensures SameCells(c, sigma, w, b, k, cells, env1[c.code[b][k].id := x])
  {
    forall v | v in cells
      ensures Eval(w, env1[c.code[b][k].id := x], Value(c, sigma, b, k, v).value) == Some(cells[v])
    {
      ResolvedEverywhere(c, sigma, b, k);
      ValueAvailable(c, n, sigma, b, k, v);
      AvailableUntouched(c, n, w, Value(c, sigma, b, k, v).value, b, k, env1, x);
    }
  }

  lemma NextCells(c: Ctx, sigma: map<Id, Operand>, w: World, b: Block, k: nat, cells: map<Var, Val>, env1: map<Id, Val>)
    requires Spans(c) && b in c.t.parent && k < |c.code[b]|
    requires SameCells(c, sigma, w, b, k, cells, env1)
    requires forall v :: !StoresSlot(c.code[b][k], v)
    ensures SameCells(c, sigma, w, b, k + 1, cells, env1)
  {
    forall v | v in cells
      ensures Value(c, sigma, b, k + 1, v) == Value(c, sigma, b, k, v)
    {
    }
  }

  /** An instruction that only writes its result keeps the relation, if both sides write the same. */
  lemma ResultStep(c: Ctx, n: Names, sigma: map<Id, Operand>, w: World, b: Block, k: nat, s0: State, s1: State,
                   x: Val, mem: Memory, trace: seq<Event>)
    requires Setting(c, n, sigma) && b in c.t.parent && k < |c.code[b]| && Related(c, n, sigma, w, b, k, s0, s1)
    requires HasResult(c.code[b][k]) && !IsSlotLoad(c.code[b][k])
    ensures var i := c.code[b][k].id;
      Related(c, n, sigma, w, b, k + 1, s0.(env := s0.env[i := x], mem := mem, trace := trace),
                                        s1.(env := s1.env[i := x], mem := mem, trace := trace))
  {
    hide Value, Closed, UsesDominated, AllResolved, Terminated;
    var i := c.code[b][k].id;
    var s0', s1' := s0.(env := s0.env[i := x], mem := mem, trace := trace),
      s1.(env := s1.env[i := x], mem := mem, trace := trace);
    WriteKeepsValues(c, n, sigma, w, b, k, s0.env, s1.env, x);
    WriteKeepsCells(c, n, sigma, w, b, k, s0.cells, s1.env, x);
    assert InstrOf(c, n, i) == c.code[b][k];
    assert i !in sigma;
    NextValues(c, n, sigma, w, b, k, s0', s1');
    NextCells(c, sigma, w, b, k, s0'.cells, s1'.env);
  }

  /** A load of a slot is matched by doing nothing. */
  lemma SlotLoadStep(c: Ctx, n: Names, sigma: map<Id, Operand>, w: World, b: Block, k: nat, s0: State, s1: State)
    requires Setting(c, n, sigma) && b in c.t.parent && k < |c.code[b]| && Related(c, n, sigma, w, b, k, s0, s1)
    requires IsSlotLoad(c.code[b][k]) && c.code[b][k].ptr.v in s0.cells
    ensures var i := c.code[b][k];
      Related(c, n, sigma, w, b, k + 1, s0.(env := s0.env[i.id := s0.cells[i.ptr.v]]), s1)
  {
    hide Value, Closed, UsesDominated, Terminated;
    var i := c.code[b][k];
    var s0' := s0.(env := s0.env[i.id := s0.cells[i.ptr.v]]);
    assert Replaced(c, sigma, b, k);
    WriteKeepsValues(c, n, sigma, w, b, k, s0.env, s1.env, s0.cells[i.ptr.v]);
    NextValues(c, n, sigma, w, b, k, s0', s1);
    NextCells(c, sigma, w, b, k, s0'.cells, s1.env);
  }

  /** A store to a slot is matched by doing nothing. */
  lemma SlotStoreStep(c: Ctx, n: Names, sigma: map<Id, Operand>, w: World, b: Block, k: nat, s0: State, s1: State,
                      x: Val)
    requires Setting(c, n, sigma) && b in c.t.parent && k < |c.code[b]| && Related(c, n, sigma, w, b, k, s0, s1)
    requires c.code[b][k].Store? && c.code[b][k].ptr.Slot? && Eval(w, s0.env, c.code[b][k].rval) == Some(x)
    ensures Related(c, n, sigma, w, b, k + 1, s0.(cells := s0.cells[c.code[b][k].ptr.v := x]), s1)
  {
    var i := c.code[b][k];
    var s0' := s0.(cells := s0.cells[i.ptr.v := x]);
    assert i.rval in i.Operands();
    UseEval(c, n, sigma, w, b, k, s0, s1, i.rval);
    NextValues(c, n, sigma, w, b, k, s0', s1);
    forall v | v in s0'.cells
      ensures Value(c, sigma, b, k + 1, v) == if v == i.ptr.v then Some(Resolve(sigma, i.rval))
        else Value(c, sigma, b, k, v)
    {
      assert StoresSlot(i, v) <==> v == i.ptr.v;
    }
  }

  /** Instructions without result that do not store to a slot. */
  lemma QuietStep(c: Ctx, n: Names, sigma: map<Id, Operand>, w: World, b: Block, k: nat, s0: State, s1: State,
                  mem: Memory, trace: seq<Event>, gone: set<Var>, cells1: map<Var, Val>)
    requires Setting(c, n, sigma) && b in c.t.parent && k < |c.code[b]| && Related(c, n, sigma, w, b, k, s0, s1)
    requires !HasResult(c.code[b][k]) && !(c.code[b][k].Store? && c.code[b][k].ptr.Slot?)
    ensures Related(c, n, sigma, w, b, k + 1, s0.(cells := s0.cells - gone, mem := mem, trace := trace),
                                              s1.(cells := cells1, mem := mem, trace := trace))
  {
    hide Value, Closed, UsesDominated, AllResolved, Terminated;
    var s0' := s0.(cells := s0.cells - gone, mem := mem, trace := trace);
    NextValues(c, n, sigma, w, b, k, s0', s1);
    NextCells(c, sigma, w, b, k, s0'.cells, s1.env);
  }

  /** A load or store that reaches memory does the same in both programs. */
  lemma KeptAccess(c: Ctx, n: Names, sigma: map<Id, Operand>, w: World, b: Block, k: nat, s0: State, s1: State)
    requires Setting(c, n, sigma) && b in c.t.parent && k < |c.code[b]| && Related(c, n, sigma, w, b, k, s0, s1)
    requires (c.code[b][k].Load? || c.code[b][k].Store?) && !c.code[b][k].IsSlotAccess()
    requires ExecInstr(w, c.code[b][k], s0).Some?
    ensures ExecInstr(w, Subst(sigma, c.code[b][k]), s1).Some?
    ensures Related(c, n, sigma, w, b, k + 1, ExecInstr(w, c.code[b][k], s0).value,
                    ExecInstr(w, Subst(sigma, c.code[b][k]), s1).value)
  {
    hide SameValues, SameCells, AllResolved, OnlyLoads, Terminated, Closed, UsesDominated, Value;
    var i := c.code[b][k];
    var p := i.ptr;
    assert p in i.Operands();
    UseEval(c, n, sigma, w, b, k, s0, s1, p);
    var a := Eval(w, s0.env, p).value;
    assert !Resolve(sigma, p).Slot?;
    if i.Load? {
      ResultStep(c, n, sigma, w, b, k, s0, s1, Fetch(s0.mem, a), s0.mem, s0.trace);
    } else {
      assert i.rval in i.Operands();
      UseEval(c, n, sigma, w, b, k, s0, s1, i.rval);
      var x := Eval(w, s0.env, i.rval).value;
      QuietStep(c, n, sigma, w, b, k, s0, s1, s0.mem[a := x], s0.trace + [Stored(a, x)], {}, s1.cells);
      assert s0.cells - {} == s0.cells;
    }
  }

  /** An address computation, an operation or a call does the same in both programs. */
  lemma KeptResult(c: Ctx, n: Names, sigma: map<Id, Operand>, w: World, b: Block, k: nat, s0: State, s1: State)
    requires Setting(c, n, sigma) && b in c.t.parent && k < |c.code[b]| && Related(c, n, sigma, w, b, k, s0, s1)
    requires c.code[b][k].Gep? || c.code[b][k].Op? || c.code[b][k].Call?
    requires ExecInstr(w, c.code[b][k], s0).Some?
    ensures ExecInstr(w, Subst(sigma, c.code[b][k]), s1).Some?
    ensures Related(c, n, sigma, w, b, k + 1, ExecInstr(w, c.code[b][k], s0).value,
                    ExecInstr(w, Subst(sigma, c.code[b][k]), s1).value)
  {
    hide SameValues, SameCells, AllResolved, OnlyLoads, Terminated, Closed, UsesDominated, Value;
    var i := c.code[b][k];
    UseEvalAll(c, n, sigma, w, b, k, s0, s1, i.args);
    var vs := EvalAll(w, s0.env, i.args).value;
    if i.Gep? {
      ResultStep(c, n, sigma, w, b, k, s0, s1, w.gep(vs), s0.mem, s0.trace);
    } else if i.Op? {
      ResultStep(c, n, sigma, w, b, k, s0, s1, w.op(i.op, vs), s0.mem, s0.trace);
    } else {
      var (r, m) := w.call(i.callee, vs, s0.mem);
      ResultStep(c, n, sigma, w, b, k, s0, s1, r, m, s0.trace + [Called(i.callee, vs, r)]);
    }
  }

  /** A kept instruction does in the promoted program what the original does. */
  lemma KeptStep(c: Ctx, n: Names, sigma: map<Id, Operand>, w: World, b: Block, k: nat, s0: State, s1: State)
    requires Setting(c, n, sigma) && b in c.t.parent && k < |c.code[b]| && Related(c, n, sigma, w, b, k, s0, s1)
    requires !c.code[b][k].IsTerminator() && !c.code[b][k].IsSlotAccess()
    requires ExecInstr(w, c.code[b][k], s0).Some?
    ensures ExecInstr(w, Subst(sigma, c.code[b][k]), s1).Some?
    ensures Related(c, n, sigma, w, b, k + 1, ExecInstr(w, c.code[b][k], s0).value,
                    ExecInstr(w, Subst(sigma, c.code[b][k]), s1).value)
  {
    hide SameValues, SameCells, AllResolved, OnlyLoads, Terminated, Closed, UsesDominated, Value;
    var i := c.code[b][k];
    match i {
      case Alloca(id, _) =>
        QuietStep(c, n, sigma, w, b, k, s0, s1, s0.mem, s0.trace, {id}, s1.cells - {id});
      case Load(_, _) =>
        KeptAccess(c, n, sigma, w, b, k, s0, s1);
      case Store(_, _, _) =>
        KeptAccess(c, n, sigma, w, b, k, s0, s1);
      case Gep(_, _) =>
        KeptResult(c, n, sigma, w, b, k, s0, s1);
      case Op(_, _, _) =>
        KeptResult(c, n, sigma, w, b, k, s0, s1);
      case Call(_, _, _) =>
        KeptResult(c, n, sigma, w, b, k, s0, s1);
    }
  }

  lemma RelatedMemory(c: Ctx, n: Names, sigma: map<Id, Operand>, w: World, b: Block, k: nat, s0: State, s1: State)
    requires Spans(c) && Named(c, n) && b in c.t.parent && k <= |c.code[b]| && Related(c, n, sigma, w, b, k, s0, s1)
    ensures s0.mem == s1.mem && s0.trace == s1.trace
  {
  }

  /** A dropped instruction is matched by doing nothing. */
  lemma DroppedStep(c: Ctx, n: Names, sigma: map<Id, Operand>, w: World, allocas: bool, b: Block, k: nat, s0: State,
                    s1: State)
    requires Setting(c, n, sigma) && b in c.t.parent && k < |c.code[b]| && Related(c, n, sigma, w, b, k, s0, s1)
    requires Dropped(c.code[b][k], allocas) && ExecInstr(w, c.code[b][k], s0).Some?
    ensures Related(c, n, sigma, w, b, k + 1, ExecInstr(w, c.code[b][k], s0).value, s1)
  {
    hide Related, AllResolved, OnlyLoads, Terminated, Closed, UsesDominated;
    var i := c.code[b][k];
    if i.Load? {
      SlotLoadStep(c, n, sigma, w, b, k, s0, s1);
    } else if i.Store? {
      SlotStoreStep(c, n, sigma, w, b, k, s0, s1, Eval(w, s0.env, i.rval).value);
    } else {
      RelatedMemory(c, n, sigma, w, b, k, s0, s1);
      QuietStep(c, n, sigma, w, b, k, s0, s1, s0.mem, s0.trace, {i.id}, s1.cells);
    }
  }

  /** From position `k` on: the rest of the block does the same in both programs. */
  lemma {:induction false} CodeStep(c: Ctx, n: Names, sigma: map<Id, Operand>, w: World, allocas: bool,
                                    b: Block, k: nat, s0: State, s1: State)
    requires Setting(c, n, sigma) && b in c.t.parent && k <= |c.code[b]| && Related(c, n, sigma, w, b, k, s0, s1)
    requires ExecCode(w, c.code[b][k..], s0).Some?
    ensures ExecCode(w, Kept(sigma, c.code[b][k..], allocas), s1).Some?
    ensures var (t0, e0) := ExecCode(w, c.code[b][k..], s0).value;
            var (t1, e1) := ExecCode(w, Kept(sigma, c.code[b][k..], allocas), s1).value;
            e0 == e1 && Related(c, n, sigma, w, b, |c.code[b]|, t0, t1)
            && (e0.Goto? ==> c.g.Edge(b, e0.target))
    decreases |c.code[b]| - k
  {
    hide Related, ExecInstr, ExecExit, AllResolved, OnlyLoads, Closed, UsesDominated;
    var rest := c.code[b][k..];
    var i := rest[0];
    assert i == c.code[b][k] && rest[1..] == c.code[b][k + 1..];
    if i.IsTerminator() {
      ExitStep(c, n, sigma, w, b, k, s0, s1);
      ExitRelated(c, n, sigma, w, b, k, s0, s1);
      assert Kept(sigma, rest, allocas)[0] == Subst(sigma, i);
    } else {
      var s0' := ExecInstr(w, i, s0).value;
      if Dropped(i, allocas) {
        DroppedStep(c, n, sigma, w, allocas, b, k, s0, s1);
        CodeStep(c, n, sigma, w, allocas, b, k + 1, s0', s1);
      } else {
        KeptStep(c, n, sigma, w, b, k, s0, s1);
        var s1' := ExecInstr(w, Subst(sigma, i), s1).value;
        CodeStep(c, n, sigma, w, allocas, b, k + 1, s0', s1');
        assert Kept(sigma, rest, allocas)[0] == Subst(sigma, i);
        assert Kept(sigma, rest, allocas)[1..] == Kept(sigma, rest[1..], allocas);
      }
    }
  }

  /** A terminator changes nothing that the relation speaks of. */
  lemma ExitRelated(c: Ctx, n: Names, sigma: map<Id, Operand>, w: World, b: Block, k: nat, s0: State, s1: State)
    requires Setting(c, n, sigma) && b in c.t.parent && k < |c.code[b]| && Related(c, n, sigma, w, b, k, s0, s1)
    requires c.code[b][k].IsTerminator()
    ensures Related(c, n, sigma, w, b, k + 1, s0, s1)
  {
    hide Related, AllResolved, OnlyLoads, Terminated, Closed, UsesDominated;
    RelatedMemory(c, n, sigma, w, b, k, s0, s1);
    QuietStep(c, n, sigma, w, b, k, s0, s1, s0.mem, s0.trace, {}, s1.cells);
    assert s0.(cells := s0.cells - {}) == s0;
  }

  /** A terminator leaves both programs to the same block or with the same result. */
  lemma ExitStep(c: Ctx, n: Names, sigma: map<Id, Operand>, w: World, b: Block, k: nat, s0: State, s1: State)
    requires Setting(c, n, sigma) && b in c.t.parent && k < |c.code[b]| && Related(c, n, sigma, w, b, k, s0, s1)
    requires c.code[b][k].IsTerminator() && ExecExit(w, c.code[b][k], s0).Some?
    ensures ExecExit(w, Subst(sigma, c.code[b][k]), s1) == ExecExit(w, c.code[b][k], s0)
    ensures k + 1 == |c.code[b]|
    ensures var e := ExecExit(w, c.code[b][k], s0).value; e.Goto? ==> c.g.Edge(b, e.target)
  {
    hide SameValues, SameCells, AllResolved, OnlyLoads, Closed, UsesDominated, Value;
    var i := c.code[b][k];
    match i {
      case Br(_, t) =>
        assert i.HasTarget(t);
      case CondBr(_, cond, t, f) =>
        assert cond in i.Operands() && i.HasTarget(t) && i.HasTarget(f);
        UseEval(c, n, sigma, w, b, k, s0, s1, cond);
      case Ret(_, args) =>
        UseEvalAll(c, n, sigma, w, b, k, s0, s1, args);
    }
  }

  // ----- crossing an edge -----

  lemma {:induction false} EnterOther(w: World, row: seq<Phi>, from: Block, env: map<Id, Val>, id: Id)
    requires forall k {:trigger row[k]} :: 0 <= k < |row| ==> row[k].id != id
    ensures id in EnterPhis(w, row, from, env) <==> id in env
    ensures id in env ==> EnterPhis(w, row, from, env)[id] == env[id]
  {
    if row != [] {
      assert row[0].id != id;
      assert forall k :: 0 <= k < |row[1..]| ==> row[1..][k] == row[k + 1];
      EnterOther(w, row[1..], from, env, id);
    }
  }

  lemma {:induction false} EnterPhi(w: World, row: seq<Phi>, from: Block, env: map<Id, Val>, k: nat)
    requires k < |row|
    requires forall j, m {:trigger row[j], row[m]} :: 0 <= j < m < |row| ==> row[j].id != row[m].id
    ensures Eval(w, EnterPhis(w, row, from, env), Reg(row[k].id)) == PhiValue(w, env, row[k], from)
  {
    var rest := row[1..];
    assert forall j :: 0 <= j < |rest| ==> rest[j] == row[j + 1];
    if k > 0 {
      assert rest[k - 1] == row[k];
      EnterPhi(w, rest, from, env, k - 1);
    }
  }

  /** Available values that are not phis of the entered block survive entering it. */
  lemma AvailableAcross(c: Ctx, n: Names, w: World, o: Operand, d: Block, j: nat, s: Block, row: seq<Phi>, from: Block,
                        env: map<Id, Val>)
    requires Spans(c) && Named(c, n) && s in c.t.parent && PhiRow(c, s, row)
    requires Available(c, n, o, d, j) && c.t.OnChain(d, s) && d != s
    ensures Eval(w, EnterPhis(w, row, from, env), o) == Eval(w, env, o)
  {
    if o.Reg? || o.Elem? {
      forall k | 0 <= k < |row|
        ensures row[k].id != o.id
      {
        var v := row[k].lval;
        assert row[k].id == c.phi[(s, v)];
        if o.id == row[k].id {
          assert n.phiAt[o.id] == (s, v);
          ChainFacts(c.t, s, d);
          ChainFacts(c.t, d, s);
        }
      }
      EnterOther(w, row, from, env, o.id);
    }
  }

  lemma RowDistinct(c: Ctx, n: Names, s: Block, row: seq<Phi>)
    requires Spans(c) && Named(c, n) && PhiRow(c, s, row)
    ensures forall j, m {:trigger row[j], row[m]} :: 0 <= j < m < |row| ==> row[j].id != row[m].id
  {
    forall j, m | 0 <= j < m < |row|
      ensures row[j].id != row[m].id
    {
      assert n.phiAt[c.phi[(s, row[j].lval)]] == (s, row[j].lval);
      assert n.phiAt[c.phi[(s, row[m].lval)]] == (s, row[m].lval);
    }
  }

  lemma CrossValues(c: Ctx, n: Names, sigma: map<Id, Operand>, w: World, b: Block, s: Block, row: seq<Phi>,
                    env0: map<Id, Val>, env1: map<Id, Val>)
    requires Setting(c, n, sigma) && b in c.t.parent && c.g.Edge(b, s) && s in c.t.parent && PhiRow(c, s, row)
    requires SameValues(c, n, sigma, w, b, |c.code[b]|, env0, env1)
    ensures SameValues(c, n, sigma, w, s, 0, env0, EnterPhis(w, row, b, env1))
  {
    forall id | id in env0 && id in n.at && HasResult(InstrOf(c, n, id)) && Before(c, n.at[id].0, n.at[id].1, s, 0)
      ensures Eval(w, EnterPhis(w, row, b, env1), Resolve(sigma, Reg(id))) == Some(env0[id])
    {
      var d, j := n.at[id].0, n.at[id].1;
      ChainTrans(c.t, d, c.t.parent[s], b);
      assert Before(c, d, j, b, |c.code[b]|);
      ChainFacts(c.t, d, b);
      assert c.t.OnChain(d, d);
      assert Before(c, d, j, d, j + 1);
      EarlierAvailable(c, n, sigma, id, d, j + 1);
      AvailableAcross(c, n, w, Resolve(sigma, Reg(id)), d, j + 1, s, row, b, env1);
    }
  }

  lemma CrossCell(c: Ctx, n: Names, sigma: map<Id, Operand>, w: World, b: Block, s: Block, row: seq<Phi>,
                  cells: map<Var, Val>, env1: map<Id, Val>, v: Var)
    requires Setting(c, n, sigma) && b in c.t.parent && c.g.Edge(b, s) && s in c.t.parent && PhiRow(c, s, row)
    requires forall k {:trigger row[k]} :: 0 <= k < |row| ==> PairsMatch(c, sigma, s, row[k])
    requires SameCells(c, sigma, w, b, |c.code[b]|, cells, env1) && v in cells
    ensures Value(c, sigma, s, 0, v).Some?
    ensures Eval(w, EnterPhis(w, row, b, env1), Value(c, sigma, s, 0, v).value) == Some(cells[v])
  {
    assert Value(c, sigma, s, 0, v) == Promotion.Incoming(c, sigma, s, v);
    assert Outgoing(c, sigma, b, v) == Value(c, sigma, b, |c.code[b]|, v);
    if (s, v) in c.phi {
      assert HasPhi(row, v);
      var k :| 0 <= k < |row| && row[k].lval == v;
      RowDistinct(c, n, s, row);
      EnterPhi(w, row, b, env1, k);
      assert PairsMatch(c, sigma, s, row[k]);
    } else {
      PlacementSufficient(c, sigma, b, s, v);
      var p := c.t.parent[s];
      assert Promotion.Incoming(c, sigma, s, v) == Outgoing(c, sigma, p, v) == Value(c, sigma, p, |c.code[p]|, v);
      ResolvedEverywhere(c, sigma, p, |c.code[p]|);
      ValueAvailable(c, n, sigma, p, |c.code[p]|, v);
      assert c.t.OnChain(p, s);
      ChainFacts(c.t, p, s);
      AvailableAcross(c, n, w, Value(c, sigma, p, |c.code[p]|, v).value, p, |c.code[p]|, s, row, b, env1);
    }
  }

  // ----- whole runs -----

  /** The two runs are at the same place with the same effects so far.  A run of the memory program that
      got stuck, by reading a value that was never set, promises nothing. */
  ghost predicate InStep(c: Ctx, n: Names, sigma: map<Id, Operand>, w: World, p0: Point, p1: Point)
    requires Spans(c) && Named(c, n)
  {
    match p0
    case Stuck => true
    case At(b, s0) => b in c.t.parent && p1.At? && p1.block == b && Related(c, n, sigma, w, b, 0, s0, p1.state)
    case Finished(vs, s0) => p1.Finished? && p1.vals == vs && p1.state.mem == s0.mem && p1.state.trace == s0.trace
  }

  lemma AdvanceInStep(c: Ctx, n: Names, sigma: map<Id, Operand>, w: World, f0: Body, f1: Body, allocas: bool, p0: Point,
                      p1: Point)
    requires Setting(c, n, sigma) && Promoted(c, n, sigma, f1, allocas)
    requires f0.code == c.code && forall b {:trigger f0.phis[b]} :: b in f0.phis ==> f0.phis[b] == []
    requires InStep(c, n, sigma, w, p0, p1)
    ensures InStep(c, n, sigma, w, Advance(w, f0, p0), Advance(w, f1, p1))
  {
    hide SameValues, SameCells, AllResolved, OnlyLoads, Closed, UsesDominated, Value, Terminated, PhiRow, PairsMatch;
    if p0.At? && Advance(w, f0, p0) != Stuck {
      var b, s0, s1 := p0.block, p0.state, p1.state;
      assert c.code[b][0..] == c.code[b];
      CodeStep(c, n, sigma, w, allocas, b, 0, s0, s1);
      var (t0, e) := ExecCode(w, c.code[b], s0).value;
      var (t1, e1) := ExecCode(w, f1.code[b], s1).value;
      if e.Goto? {
        var s := e.target;
        assert f0.phis[s] == [];
        var row := f1.phis[s];
        forall k | 0 <= k < |row|
          ensures PairsMatch(c, sigma, s, row[k])
        {
          assert f1.phis[s][k] == row[k];
        }
        CrossRelated(c, n, sigma, w, b, s, row, t0, t1);
      }
    }
  }

  lemma CrossRelated(c: Ctx, n: Names, sigma: map<Id, Operand>, w: World, b: Block, s: Block, row: seq<Phi>, t0: State,
                     t1: State)
    requires Setting(c, n, sigma) && b in c.t.parent && c.g.Edge(b, s) && s in c.t.parent && PhiRow(c, s, row)
    requires forall k {:trigger row[k]} :: 0 <= k < |row| ==> PairsMatch(c, sigma, s, row[k])
    requires Related(c, n, sigma, w, b, |c.code[b]|, t0, t1)
    ensures Related(c, n, sigma, w, s, 0, t0, t1.(env := EnterPhis(w, row, b, t1.env)))
  {
    CrossValues(c, n, sigma, w, b, s, row, t0.env, t1.env);
    forall v | v in t0.cells
      ensures Value(c, sigma, s, 0, v).Some?
      ensures Eval(w, EnterPhis(w, row, b, t1.env), Value(c, sigma, s, 0, v).value) == Some(t0.cells[v])
    {
      CrossCell(c, n, sigma, w, b, s, row, t0.cells, t1.env, v);
    }
  }

  /** Promotion preserves meaning: from the entry, with nothing computed and no slot set, the two
      programs stay in step for any number of blocks. */
  lemma {:induction false} PromotionPreservesMeaning(c: Ctx, n: Names, sigma: map<Id, Operand>, w: World, f0: Body,
                                                     f1: Body, allocas: bool, mem: Memory, steps: nat)
    requires Setting(c, n, sigma) && Promoted(c, n, sigma, f1, allocas)
    requires f0.code == c.code && forall b {:trigger f0.phis[b]} :: b in f0.phis ==> f0.phis[b] == []
    ensures var start := At(c.g.Entry(), State(map[], map[], mem, []));
      InStep(c, n, sigma, w, Run(w, f0, steps, start), Run(w, f1, steps, start))
  {
    hide AllResolved, OnlyLoads, Closed, UsesDominated, Terminated, PhiRow, PairsMatch;
    if steps > 0 {
      PromotionPreservesMeaning(c, n, sigma, w, f0, f1, allocas, mem, steps - 1);
      var start := At(c.g.Entry(), State(map[], map[], mem, []));
      AdvanceInStep(c, n, sigma, w, f0, f1, allocas, Run(w, f0, steps - 1, start), Run(w, f1, steps - 1, start));
    }
  }
}
