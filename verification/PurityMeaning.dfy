/** What purity means: running a pure function changes no memory but its own. */
module PurityMeaning {
  import opened ControlFlow
  import opened IR
  import opened Functions
  import opened Purity

  /** Calls of the functions in the set leave memory alone. */
  ghost predicate PureWorld(w: World, pure: set<string>) {
    forall f, vs, m {:trigger w.call(f, vs, m)} :: f in pure ==> w.call(f, vs, m).1 == m
  }

  /** The function's own memory holds its slots and is closed under computing element addresses. */
  ghost predicate OwnMemory(w: World, own: Val -> bool) {
    && (forall v {:trigger w.slot(v)} :: own(w.slot(v)))
    && (forall vs {:trigger w.gep(vs)} :: |vs| > 0 && own(vs[0]) ==> own(w.gep(vs)))
  }

  ghost predicate SameOutside(own: Val -> bool, m0: Memory, m1: Memory) {
    forall a {:trigger a in m0} {:trigger a in m1} {:trigger own(a)} ::
      !own(a) ==> (a in m0 <==> a in m1) && (a in m0 ==> m0[a] == m1[a])
  }

  predicate IsGep(p: Program, id: Id) {
    id in p.nodes && p.nodes[id].Inner? && p.nodes[id].instr.Gep?
  }

  predicate IsLoad(p: Program, id: Id) {
    id in p.nodes && p.nodes[id].Inner? && p.nodes[id].instr.Load?
  }

  /** Element addresses come from element-address computations, other pointers in registers from loads. */
  predicate TypedAddress(p: Program, o: Operand) {
    match o
    case Elem(id) => IsGep(p, id)
    case Reg(id) => IsLoad(p, id)
    case _ => true
  }

  ghost predicate TypedNode(p: Program, n: Node) {
    match n
    case Inner(Load(_, a)) => TypedAddress(p, a)
    case Inner(Store(_, _, a)) => TypedAddress(p, a)
    case Inner(Gep(_, args)) => args != [] ==> TypedAddress(p, args[0])
    case _ => true
  }

  ghost predicate Typed(p: Program, f: Func) {
    forall n {:trigger HasNode(f, n)} :: HasNode(f, n) ==> TypedNode(p, n)
  }

  // ----- the verdict on one function, by its instructions -----

  /** The operand is computed by a Gep from `base`. */
  predicate ElementOf(p: Program, o: Operand, base: Operand) {
    && !o.Slot? && Def(o).Some? && IsGep(p, Def(o).value)
    && var args := p.nodes[Def(o).value].instr.args;
      args != [] && args[0] == base
  }

  ghost predicate GepChain(p: Program, chain: seq<Operand>) {
    |chain| > 0 && forall i {:trigger chain[i]} :: 0 <= i < |chain| - 1 ==> ElementOf(p, chain[i], chain[i + 1])
  }

  /** The operand is a slot, or is reached from one by element-address computations. */
  ghost predicate Based(p: Program, o: Operand) {
    exists chain: seq<Operand> {:trigger GepChain(p, chain)} ::
      GepChain(p, chain) && chain[0] == o && chain[|chain| - 1].Slot?
  }

  lemma BasedSlot(p: Program, o: Operand)
    requires o.Slot?
    ensures Based(p, o)
  {
    assert GepChain(p, [o]) && [o][|[o]| - 1] == o;
  }

  lemma BasedStep(p: Program, o: Operand, base: Operand)
    requires ElementOf(p, o, base)
    ensures Based(p, o) <==> Based(p, base)
  {
    if chain: seq<Operand> :| GepChain(p, chain) && chain[0] == base && chain[|chain| - 1].Slot? {
      var longer := [o] + chain;
      assert forall i :: 0 < i < |longer| ==> longer[i] == chain[i - 1];
      assert GepChain(p, longer) && longer[|longer| - 1] == chain[|chain| - 1];
    }
    if chain: seq<Operand> :| GepChain(p, chain) && chain[0] == o && chain[|chain| - 1].Slot? {
      var rest := chain[1..];
      assert forall i :: 0 <= i < |rest| ==> rest[i] == chain[i + 1];
      assert GepChain(p, rest) && rest[|rest| - 1] == chain[|chain| - 1];
    }
  }

  lemma BasedOnSomething(p: Program, o: Operand)
    ensures Based(p, o) ==> o.Slot? || exists base {:trigger ElementOf(p, o, base)} :: ElementOf(p, o, base)
  {
    if chain: seq<Operand> :| GepChain(p, chain) && chain[0] == o && chain[|chain| - 1].Slot? {
      if |chain| > 1 {
        assert ElementOf(p, chain[0], chain[1]);
      }
    }
  }

  /** Where addresses are typed, the search finds a slot exactly behind the addresses that are based on one. */
  lemma {:induction false} FoundIffBased(p: Program, f: Func, rank: Id -> nat, o: Operand)
    requires Ranked(p, f, rank) && Indexed(f, p.nodes) && Typed(p, f) && TypedAddress(p, o)
    requires Def(o).Some? ==> OwnedBy(f, p.nodes, Def(o).value)
    ensures GetFirstAddr(p, f, rank, o).Slot? <==> Based(p, o)
    decreases if Def(o).Some? then rank(Def(o).value) + 1 else 0
  {
    hide Based, Ranked;
    if o.Slot? {
      BasedSlot(p, o);
    } else if o.Elem? && p.nodes[o.id].instr.args != [] {
      var n := p.nodes[o.id];
      var base := n.instr.args[0];
      assert HasNode(f, n) && base in n.Uses() && TypedNode(p, n);
      assert NextAddr(p, f, o.id) == Some(base);
      if Def(base).Some? {
        SmallerRank(p, f, rank, o.id);
      }
      FoundIffBased(p, f, rank, base);
      BasedStep(p, o, base);
    } else {
      BasedOnSomething(p, o);
    }
  }

  lemma SmallerRank(p: Program, f: Func, rank: Id -> nat, id: Id)
    requires Ranked(p, f, rank) && NextAddr(p, f, id).Some? && Def(NextAddr(p, f, id).value).Some?
    ensures rank(Def(NextAddr(p, f, id).value).value) < rank(id)
  {
  }

  /** The instruction, if it is a load or store, is one of memory based on a slot. */
  ghost predicate KeepsToSlots(p: Program, n: Node) {
    && (n.Inner? && n.instr.Load? ==> Based(p, n.instr.ptr))
    && (n.Inner? && n.instr.Store? ==> Based(p, n.instr.ptr))
  }

  /** By itself a function is not rejected exactly if it has a body, is not main, takes only numbers, and loads and
      stores only memory based on its slots. */
  lemma RejectedUnless(p: Program, f: Func, rank: Id -> nat)
    requires Ranked(p, f, rank) && Indexed(f, p.nodes) && Typed(p, f)
    ensures !Rejected(p, f, rank) <==>
      && f.blocks != [] && f.name != "main"
      && (forall k :: 0 <= k < |f.params| ==> f.params[k] == Integer || f.params[k] == Float)
      && (forall n {:trigger HasNode(f, n)} :: HasNode(f, n) ==> KeepsToSlots(p, n))
  {
    hide Based, Ranked, GetFirstAddr, Indexed;
    forall n | HasNode(f, n)
      ensures IsSideEffect(p, f, rank, n) <==> !KeepsToSlots(p, n)
    {
      if n.Inner? && (n.instr.Load? || n.instr.Store?) {
        AddressFound(p, f, rank, n);
      }
    }
  }

  lemma AddressFound(p: Program, f: Func, rank: Id -> nat, n: Node)
    requires Ranked(p, f, rank) && Indexed(f, p.nodes) && Typed(p, f) && HasNode(f, n)
    requires n.Inner? && (n.instr.Load? || n.instr.Store?)
    ensures GetFirstAddr(p, f, rank, n.instr.ptr).Slot? <==> Based(p, n.instr.ptr)
  {
    hide Based, Ranked, GetFirstAddr;
    var a := n.instr.ptr;
    assert a in n.Uses() && TypedNode(p, n);
    FoundIffBased(p, f, rank, a);
  }

  /** Every element address that goes back to a slot is an address of the function's own memory. */
  ghost predicate OwnAddresses(p: Program, f: Func, rank: Id -> nat, own: Val -> bool, env: map<Id, Val>)
    requires Ranked(p, f, rank)
  {
    forall id {:trigger env[id]} ::
      id in env && IsGep(p, id) && GetFirstAddr(p, f, rank, Elem(id)).Slot? ==> own(env[id])
  }

  lemma AddressOwned(p: Program, f: Func, rank: Id -> nat, own: Val -> bool, w: World, env: map<Id, Val>, o: Operand)
    requires Ranked(p, f, rank) && OwnMemory(w, own) && OwnAddresses(p, f, rank, own, env)
    requires TypedAddress(p, o) && GetFirstAddr(p, f, rank, o).Slot? && Eval(w, env, o).Some?
    ensures own(Eval(w, env, o).value)
  {
  }

  /** The function touches only its own memory and calls only pure functions. */
  ghost predicate Contained(p: Program, f: Func, rank: Id -> nat, pure: set<string>)
    requires Ranked(p, f, rank)
  {
    && Indexed(f, p.nodes) && Typed(p, f)
    && (forall n {:trigger HasNode(f, n)} :: HasNode(f, n) ==> !IsSideEffect(p, f, rank, n))
    && (forall g {:trigger Calls(f, g)} :: Calls(f, g) ==> g in pure)
  }

  /** What is true of memory and environment throughout the run. */
  ghost predicate Inside(p: Program, f: Func, rank: Id -> nat, own: Val -> bool, m: Memory, s: State)
    requires Ranked(p, f, rank)
  {
    SameOutside(own, m, s.mem) && OwnAddresses(p, f, rank, own, s.env)
  }

  lemma InstrInside(p: Program, f: Func, rank: Id -> nat, pure: set<string>, own: Val -> bool, w: World, m: Memory,
                    i: Instr, s: State)
    requires Ranked(p, f, rank) && Contained(p, f, rank, pure) && OwnMemory(w, own) && PureWorld(w, pure)
    requires HasNode(f, Inner(i)) && !i.IsTerminator() && Inside(p, f, rank, own, m, s) && ExecInstr(w, i, s).Some?
    ensures Inside(p, f, rank, own, m, ExecInstr(w, i, s).value)
  {
    hide Ranked, Indexed, Calls, HasNode;
    assert p.nodes[i.id] == Inner(i) by {
      OwnNode(p, f, rank, pure, Inner(i));
    }
    match i {
      case Store(_, _, a) =>
        if !a.Slot? {
          AddressOwned(p, f, rank, own, w, s.env, a);
        }
      case Gep(id, args) =>
        if args != [] && GetFirstAddr(p, f, rank, args[0]).Slot? {
          AddressOwned(p, f, rank, own, w, s.env, args[0]);
        }
      case Call(id, g, args) =>
        CalleePure(p, f, rank, pure, i);
      case _ =>
    }
  }

  lemma OwnNode(p: Program, f: Func, rank: Id -> nat, pure: set<string>, n: Node)
    requires Ranked(p, f, rank) && Contained(p, f, rank, pure) && HasNode(f, n)
    ensures n.Id() in p.nodes && p.nodes[n.Id()] == n
  {
  }

  lemma CalleePure(p: Program, f: Func, rank: Id -> nat, pure: set<string>, i: Instr)
    requires Ranked(p, f, rank) && Contained(p, f, rank, pure) && HasNode(f, Inner(i)) && i.Call?
    ensures i.callee in pure
  {
    assert Calls(f, i.callee);
  }

  lemma {:induction false} CodeInside(p: Program, f: Func, rank: Id -> nat, pure: set<string>, own: Val -> bool,
                                      w: World, m: Memory, code: seq<Instr>, s: State)
    requires Ranked(p, f, rank) && Contained(p, f, rank, pure) && OwnMemory(w, own) && PureWorld(w, pure)
    requires (forall i {:trigger i in code} :: i in code ==> HasNode(f, Inner(i))) && Inside(p, f, rank, own, m, s)
    requires ExecCode(w, code, s).Some?
    ensures Inside(p, f, rank, own, m, ExecCode(w, code, s).value.0)
  {
    hide Ranked, Contained, OwnMemory, PureWorld, Inside, HasNode;
    assert code[0] in code && forall i :: i in code[1..] ==> i in code;
    if !code[0].IsTerminator() {
      InstrInside(p, f, rank, pure, own, w, m, code[0], s);
      CodeInside(p, f, rank, pure, own, w, m, code[1..], ExecInstr(w, code[0], s).value);
    }
  }

  lemma {:induction false} PhisInside(p: Program, f: Func, rank: Id -> nat, pure: set<string>, own: Val -> bool,
                                      w: World, row: seq<Phi>, from: Block, env: map<Id, Val>)
    requires Ranked(p, f, rank) && Contained(p, f, rank, pure) && OwnAddresses(p, f, rank, own, env)
    requires forall q {:trigger q in row} :: q in row ==> HasNode(f, Head(q))
    ensures OwnAddresses(p, f, rank, own, EnterPhis(w, row, from, env))
  {
    hide Ranked, Contained, HasNode, PhiValue;
    if row != [] {
      assert row[0] in row && forall q :: q in row[1..] ==> q in row;
      PhisInside(p, f, rank, pure, own, w, row[1..], from, env);
      OwnNode(p, f, rank, pure, Head(row[0]));
    }
  }

  ghost predicate InsideAt(p: Program, f: Func, rank: Id -> nat, own: Val -> bool, m: Memory, at: Point)
    requires Ranked(p, f, rank)
  {
    match at
    case Stuck => true
    case At(b, s) => Inside(p, f, rank, own, m, s)
    case Finished(_, s) => Inside(p, f, rank, own, m, s)
  }

  lemma AdvanceInside(p: Program, f: Func, rank: Id -> nat, pure: set<string>, own: Val -> bool, w: World, m: Memory,
                      at: Point)
    requires Ranked(p, f, rank) && Contained(p, f, rank, pure) && OwnMemory(w, own) && PureWorld(w, pure) && Listed(f)
    requires InsideAt(p, f, rank, own, m, at)
    ensures InsideAt(p, f, rank, own, m, Advance(w, f.body, at))
  {
    hide Ranked, Contained, OwnMemory, PureWorld, SameOutside, OwnAddresses;
    if at.At? && Advance(w, f.body, at) != Stuck {
      var b, s := at.block, at.state;
      forall i | i in f.body.code[b]
        ensures HasNode(f, Inner(i))
      {
        assert NodeIn(f, b, Inner(i));
      }
      CodeInside(p, f, rank, pure, own, w, m, f.body.code[b], s);
      var (t, e) := ExecCode(w, f.body.code[b], s).value;
      if e.Goto? {
        var u := e.target;
        forall q | q in f.body.phis[u]
          ensures HasNode(f, Head(q))
        {
          assert NodeIn(f, u, Head(q));
        }
        PhisInside(p, f, rank, pure, own, w, f.body.phis[u], b, t.env);
      }
    }
  }

  lemma {:induction false} RunInside(p: Program, f: Func, rank: Id -> nat, pure: set<string>, own: Val -> bool,
                                     w: World, m: Memory, start: Point, steps: nat)
    requires Ranked(p, f, rank) && Contained(p, f, rank, pure) && OwnMemory(w, own) && PureWorld(w, pure) && Listed(f)
    requires InsideAt(p, f, rank, own, m, start)
    ensures InsideAt(p, f, rank, own, m, Run(w, f.body, steps, start))
  {
    hide Ranked, Contained, OwnMemory, PureWorld, Listed, InsideAt;
    if steps > 0 {
      RunInside(p, f, rank, pure, own, w, m, start, steps - 1);
      AdvanceInside(p, f, rank, pure, own, w, m, Run(w, f.body, steps - 1, start));
    }
  }

  /** The memory at a point of a run. */
  function MemoryAt(at: Point): Option<Memory> {
    match at
    case Stuck => None
    case At(_, s) => Some(s.mem)
    case Finished(_, s) => Some(s.mem)
  }

  /** A function that the analysis calls pure changes nothing outside its own memory, however long it runs,
      provided that the functions called pure that it calls change nothing. */
  lemma PureFunctionKeepsMemory(p: Program, f: Func, rank: Id -> nat, pure: set<string>, own: Val -> bool, w: World,
                                entry: Block, m: Memory, steps: nat)
    requires AllRanked(p, rank) && f in p.funcs && Indexed(f, p.nodes) && Typed(p, f) && Listed(f)
    requires !Tainted(p, rank, f.name)
    requires forall g {:trigger Calls(f, g)} :: Calls(f, g) && !Tainted(p, rank, g) ==> g in pure
    requires PureWorld(w, pure) && OwnMemory(w, own)
    ensures var end := MemoryAt(Run(w, f.body, steps, At(entry, State(map[], map[], m, []))));
      end.Some? ==> SameOutside(own, m, end.value)
  {
    hide Indexed, Typed, Listed, PureWorld, OwnMemory, AllRanked, Tainted, Ranked, Calls;
    assert Ranked(p, f, rank) by {
      RankedIn(p, f, rank);
    }
    UntaintedContained(p, f, rank, pure);
    RunInside(p, f, rank, pure, own, w, m, At(entry, State(map[], map[], m, [])), steps);
  }

  lemma RankedIn(p: Program, f: Func, rank: Id -> nat)
    requires AllRanked(p, rank) && f in p.funcs
    ensures Ranked(p, f, rank)
  {
  }

  lemma UntaintedContained(p: Program, f: Func, rank: Id -> nat, pure: set<string>)
    requires AllRanked(p, rank) && f in p.funcs && Ranked(p, f, rank) && Indexed(f, p.nodes) && Typed(p, f)
    requires !Tainted(p, rank, f.name)
    requires forall g {:trigger Calls(f, g)} :: Calls(f, g) && !Tainted(p, rank, g) ==> g in pure
    ensures Contained(p, f, rank, pure)
  {
    hide Tainted, IsSideEffect, Indexed, Typed, Calls;
    assert Named(p, f, f.name);
    assert !Rejected(p, f, rank) by {
      if Rejected(p, f, rank) {
        RejectedTainted(p, rank, f.name);
      }
    }
    forall g | Calls(f, g)
      ensures g in pure
    {
      assert CallsByName(p, f.name, g);
      if Tainted(p, rank, g) {
        TaintedCaller(p, rank, f.name, g);
      }
    }
  }
}
