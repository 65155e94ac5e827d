/** Dead-code elimination: mark what the critical instructions need, sweep the rest. */
module DeadCodeMeaning {
  import opened ControlFlow
  import opened IR
  import opened Functions
  import opened Purity
  import opened PurityMeaning

  /** Branches, returns, stores, and calls of functions that are not pure. */
  predicate IsCritical(n: Node, pure: set<string>) {
    match n
    case Head(_) => false
    case Inner(i) => (i.Call? && i.callee !in pure) || i.IsTerminator() || i.Store?
  }

  /** The set holds the critical instructions and, with an instruction, what it uses. */
  ghost predicate UseClosed(f: Func, pure: set<string>, s: set<Id>) {
    && (forall n {:trigger IsCritical(n, pure)} :: HasNode(f, n) && IsCritical(n, pure) ==> n.Id() in s)
    && (forall n, o {:trigger HasNode(f, n), Def(o)} ::
          HasNode(f, n) && n.Id() in s && o in n.Uses() && Def(o).Some? ==> Def(o).value in s)
  }

  /** What a function needs: the least such set. */
  ghost predicate Needed(f: Func, pure: set<string>, s: set<Id>) {
    UseClosed(f, pure, s) && forall x {:trigger UseClosed(f, pure, x)} :: UseClosed(f, pure, x) ==> s <= x
  }

  // ----- what is needed, by the instructions -----

  /** A branch, a return, a store, or a call of a function that is not pure. */
  predicate HasEffect(n: Node, pure: set<string>) {
    n.Inner? && match n.instr
                case Br(_, _) => true
                case CondBr(_, _, _, _) => true
                case Ret(_, _) => true
                case Store(_, _, _) => true
                case Call(_, callee, _) => callee !in pure
                case _ => false
  }

  /** The instruction computes an operand of the other. */
  ghost predicate UsedBy(n: Node, user: Node) {
    exists o {:trigger Def(o)} :: o in user.Uses() && Def(o) == Some(n.Id())
  }

  /** Each instruction of the chain is used by the next, and the last has an effect. */
  ghost predicate UseChain(f: Func, pure: set<string>, chain: seq<Node>) {
    && |chain| > 0 && HasNode(f, chain[0])
    && if |chain| == 1 then HasEffect(chain[0], pure)
       else UsedBy(chain[0], chain[1]) && UseChain(f, pure, chain[1..])
  }

  /** What the instruction computes reaches an effect. */
  ghost predicate Reaches(f: Func, pure: set<string>, n: Node) {
    exists chain {:trigger UseChain(f, pure, chain)} :: UseChain(f, pure, chain) && chain[0] == n
  }

  lemma ReachesAlone(f: Func, pure: set<string>, n: Node)
    requires HasNode(f, n) && HasEffect(n, pure)
    ensures Reaches(f, pure, n)
  {
    assert UseChain(f, pure, [n]);
  }

  lemma ReachesThrough(f: Func, pure: set<string>, n: Node, user: Node)
    requires HasNode(f, n) && UsedBy(n, user) && Reaches(f, pure, user)
    ensures Reaches(f, pure, n)
  {
    hide HasNode, UsedBy;
    var chain :| UseChain(f, pure, chain) && chain[0] == user;
    assert ([n] + chain)[1..] == chain;
    assert UseChain(f, pure, [n] + chain);
  }

  lemma {:induction false} ChainNeeded(f: Func, nodes: map<Id, Node>, pure: set<string>, s: set<Id>, chain: seq<Node>)
    requires Indexed(f, nodes) && UseClosed(f, pure, s) && UseChain(f, pure, chain)
    ensures chain[0].Id() in s
  {
    hide HasNode;
    if |chain| == 1 {
      assert IsCritical(chain[0], pure);
    } else {
      ChainNeeded(f, nodes, pure, s, chain[1..]);
    }
  }

  /** A function needs exactly the instructions from which a chain of uses leads to a branch, a return, a store or a
      call of a function that is not pure. */
  lemma NeededReaches(f: Func, nodes: map<Id, Node>, pure: set<string>, s: set<Id>, n: Node)
    requires Indexed(f, nodes) && Needed(f, pure, s) && HasNode(f, n)
    ensures n.Id() in s <==> Reaches(f, pure, n)
  {
    hide HasNode, Indexed;
    if chain :| UseChain(f, pure, chain) && chain[0] == n {
      ChainNeeded(f, nodes, pure, s, chain);
    }
    var reached := set id | id in nodes && OwnedBy(f, nodes, id) && Reaches(f, pure, nodes[id]);
    ReachedClosed(f, nodes, pure, reached);
    if n.Id() in s {
      assert n.Id() in reached;
      NodeOf(f, nodes, n);
    }
  }

  lemma NodeOf(f: Func, nodes: map<Id, Node>, n: Node)
    requires Indexed(f, nodes) && HasNode(f, n)
    ensures OwnedBy(f, nodes, n.Id()) && nodes[n.Id()] == n
  {
  }

  lemma ReachedClosed(f: Func, nodes: map<Id, Node>, pure: set<string>, reached: set<Id>)
    requires Indexed(f, nodes)
    requires forall id {:trigger id in reached} ::
      id in reached <==> id in nodes && OwnedBy(f, nodes, id) && Reaches(f, pure, nodes[id])
    ensures UseClosed(f, pure, reached)
  {
    hide HasNode, Reaches, UseChain;
    forall n | HasNode(f, n) && IsCritical(n, pure)
      ensures n.Id() in reached
    {
      NodeOf(f, nodes, n);
      ReachesAlone(f, pure, n);
    }
    forall n, o | HasNode(f, n) && n.Id() in reached && o in n.Uses() && Def(o).Some?
      ensures Def(o).value in reached
    {
      NodeOf(f, nodes, n);
      var id := Def(o).value;
      assert OwnedBy(f, nodes, id);
      assert UsedBy(nodes[id], n);
      ReachesThrough(f, pure, nodes[id], n);
    }
  }

  // ----- sweeping -----

  function SweepCode(marked: set<Id>, code: seq<Instr>): seq<Instr> {
    if code == [] then []
    else if code[0].id in marked then [code[0]] + SweepCode(marked, code[1..])
    else SweepCode(marked, code[1..])
  }

  function SweepRow(marked: set<Id>, row: seq<Phi>): seq<Phi> {
    if row == [] then []
    else if row[0].id in marked then [row[0]] + SweepRow(marked, row[1..])
    else SweepRow(marked, row[1..])
  }

  ghost predicate Swept(f: Func, marked: set<Id>, f': Func) {
    && f'.blocks == f.blocks
    && f'.body.code.Keys == f.body.code.Keys && f'.body.phis.Keys == f.body.phis.Keys
    && (forall b {:trigger f'.body.code[b]} {:trigger f.body.code[b]} :: b in f.blocks && b in f.body.code ==>
          f'.body.code[b] == SweepCode(marked, f.body.code[b]))
    && (forall b {:trigger f'.body.phis[b]} {:trigger f.body.phis[b]} :: b in f.blocks && b in f.body.phis ==>
          f'.body.phis[b] == SweepRow(marked, f.body.phis[b]))
  }

  lemma {:induction false} SweepCodeMembers(marked: set<Id>, code: seq<Instr>, i: Instr)
    ensures i in SweepCode(marked, code) <==> i in code && i.id in marked
  {
    if code != [] {
      SweepCodeMembers(marked, code[1..], i);
    }
  }

  lemma {:induction false} SweepRowMembers(marked: set<Id>, row: seq<Phi>, p: Phi)
    ensures p in SweepRow(marked, row) <==> p in row && p.id in marked
  {
    if row != [] {
      SweepRowMembers(marked, row[1..], p);
    }
  }

  /** What survives are exactly the marked instructions. */
  lemma SweptNodes(f: Func, nodes: map<Id, Node>, marked: set<Id>, f': Func, n: Node)
    requires Indexed(f, nodes) && Swept(f, marked, f')
    ensures HasNode(f', n) <==> HasNode(f, n) && n.Id() in marked
  {
    forall b | b in f.blocks
      ensures NodeIn(f', b, n) <==> NodeIn(f, b, n) && n.Id() in marked
    {
      match n
      case Head(p) => SweepRowMembers(marked, f.body.phis[b], p);
      case Inner(i) => SweepCodeMembers(marked, f.body.code[b], i);
    }
    if HasNode(f', n) {
      var b :| b in f'.blocks && NodeIn(f', b, n);
      assert NodeIn(f, b, n);
    }
    if HasNode(f, n) && n.Id() in marked {
      var b :| b in f.blocks && NodeIn(f, b, n);
      assert NodeIn(f', b, n);
    }
  }

  /** No survivor uses an erased instruction: the swept function is well formed again. */
  lemma SweptIndexed(f: Func, nodes: map<Id, Node>, pure: set<string>, marked: set<Id>, f': Func)
    requires Indexed(f, nodes) && Swept(f, marked, f') && UseClosed(f, pure, marked)
    ensures Indexed(f', nodes)
  {
    forall n
      ensures HasNode(f', n) <==> HasNode(f, n) && n.Id() in marked
    {
      SweptNodes(f, nodes, marked, f', n);
    }
    forall b | b in f'.blocks
      ensures b in f'.body.code && b in f'.body.phis
    {
      assert b in f.blocks && b in f.body.code && b in f.body.phis;
    }
    forall n, o | HasNode(f', n) && o in n.Uses() && Def(o).Some?
      ensures OwnedBy(f', nodes, Def(o).value)
    {
      assert HasNode(f, n);
    }
  }

  /** Marking the swept function again marks the same, which is all that is left. */
  lemma SecondMark(f: Func, nodes: map<Id, Node>, pure: set<string>, marked: set<Id>, f': Func, again: set<Id>)
    requires Indexed(f, nodes) && Swept(f, marked, f') && Needed(f, pure, marked) && Needed(f', pure, again)
    ensures again == marked
    ensures forall n {:trigger HasNode(f', n)} :: HasNode(f', n) ==> n.Id() in again
  {
    forall n
      ensures HasNode(f', n) <==> HasNode(f, n) && n.Id() in marked
    {
      SweptNodes(f, nodes, marked, f', n);
    }
    assert UseClosed(f', pure, marked);
    assert UseClosed(f, pure, again * marked);
  }

  /** After the sweep the function holds exactly the instructions that reach an effect. */
  lemma SweptReaches(f: Func, nodes: map<Id, Node>, pure: set<string>, marked: set<Id>, f': Func, n: Node)
    requires Indexed(f, nodes) && Swept(f, marked, f') && Needed(f, pure, marked)
    ensures HasNode(f', n) <==> HasNode(f, n) && Reaches(f, pure, n)
  {
    hide HasNode, Indexed, Needed, Swept, Reaches;
    SweptNodes(f, nodes, marked, f', n);
    if HasNode(f, n) {
      NeededReaches(f, nodes, pure, marked, n);
    }
  }

  // ----- meaning -----

  /** The trace without the calls of pure functions. */
  function Observable(pure: set<string>, trace: seq<Event>): seq<Event> {
    if trace == [] then []
    else
      var e := trace[|trace| - 1];
      Observable(pure, trace[..|trace| - 1]) + if e.Called? && e.callee in pure then [] else [e]
  }

  /** The two states agree on everything marked, on memory, and on what can be observed. */
  ghost predicate Agree(pure: set<string>, marked: set<Id>, s0: State, s1: State) {
    && (forall id {:trigger s0.env[id]} {:trigger s1.env[id]} {:trigger id in s0.env} {:trigger id in s1.env} ::
          id in marked ==> (id in s0.env <==> id in s1.env) && (id in s0.env ==> s0.env[id] == s1.env[id]))
    && (forall v {:trigger s0.cells[v]} {:trigger s1.cells[v]} {:trigger v in s0.cells} {:trigger v in s1.cells} ::
          v in marked ==> (v in s0.cells <==> v in s1.cells) && (v in s0.cells ==> s0.cells[v] == s1.cells[v]))
    && s0.mem == s1.mem
    && Observable(pure, s0.trace) == Observable(pure, s1.trace)
  }

  ghost predicate UsesMarked(marked: set<Id>, os: seq<Operand>) {
    forall o {:trigger o in os} :: o in os && Def(o).Some? ==> Def(o).value in marked
  }

  lemma {:induction false} EvalAgree(w: World, pure: set<string>, marked: set<Id>, s0: State, s1: State,
                                     os: seq<Operand>)
    requires Agree(pure, marked, s0, s1) && UsesMarked(marked, os)
    ensures EvalAll(w, s0.env, os) == EvalAll(w, s1.env, os)
    ensures forall o {:trigger Eval(w, s0.env, o)} :: o in os ==> Eval(w, s0.env, o) == Eval(w, s1.env, o)
  {
    if os != [] {
      assert os[0] in os && forall o :: o in os[1..] ==> o in os;
      EvalAgree(w, pure, marked, s0, s1, os[1..]);
      assert os == [os[0]] + os[1..];
    }
  }

  lemma ObservableAppend(pure: set<string>, trace: seq<Event>, e: Event)
    ensures Observable(pure, trace + [e]) == Observable(pure, trace) + if e.Called? && e.callee in pure then [] else [e]
  {
    assert (trace + [e])[..|trace|] == trace;
  }

  /** A marked load does the same in both programs. */
  lemma MarkedLoad(w: World, pure: set<string>, marked: set<Id>, i: Instr, s0: State, s1: State)
    requires Agree(pure, marked, s0, s1) && UsesMarked(marked, i.Operands()) && i.Load?
    requires ExecInstr(w, i, s0).Some?
    ensures ExecInstr(w, i, s1).Some? && Agree(pure, marked, ExecInstr(w, i, s0).value, ExecInstr(w, i, s1).value)
  {
    hide Observable;
    EvalAgree(w, pure, marked, s0, s1, i.Operands());
    assert i.ptr in i.Operands();
  }

  /** A marked store does the same in both programs. */
  lemma MarkedStore(w: World, pure: set<string>, marked: set<Id>, i: Instr, s0: State, s1: State)
    requires Agree(pure, marked, s0, s1) && UsesMarked(marked, i.Operands()) && i.Store?
    requires ExecInstr(w, i, s0).Some?
    ensures ExecInstr(w, i, s1).Some? && Agree(pure, marked, ExecInstr(w, i, s0).value, ExecInstr(w, i, s1).value)
  {
    hide Observable;
    EvalAgree(w, pure, marked, s0, s1, i.Operands());
    assert i.rval in i.Operands() && i.ptr in i.Operands();
    if !i.ptr.Slot? {
      var x, a := Eval(w, s0.env, i.rval).value, Eval(w, s0.env, i.ptr).value;
      ObservableAppend(pure, s0.trace, Stored(a, x));
      ObservableAppend(pure, s1.trace, Stored(a, x));
    }
  }

  /** A marked call does the same in both programs. */
  lemma MarkedCall(w: World, pure: set<string>, marked: set<Id>, i: Instr, s0: State, s1: State)
    requires Agree(pure, marked, s0, s1) && UsesMarked(marked, i.Operands()) && i.Call?
    requires ExecInstr(w, i, s0).Some?
    ensures ExecInstr(w, i, s1).Some? && Agree(pure, marked, ExecInstr(w, i, s0).value, ExecInstr(w, i, s1).value)
  {
    hide Observable, UsesMarked;
    EvalAgree(w, pure, marked, s0, s1, i.Operands());
    var vs := EvalAll(w, s0.env, i.args).value;
    var (r, m) := w.call(i.callee, vs, s0.mem);
    ObservableAppend(pure, s0.trace, Called(i.callee, vs, r));
    ObservableAppend(pure, s1.trace, Called(i.callee, vs, r));
  }

  /** A marked instruction does the same in both programs. */
  lemma MarkedStep(w: World, pure: set<string>, marked: set<Id>, i: Instr, s0: State, s1: State)
    requires Agree(pure, marked, s0, s1) && UsesMarked(marked, i.Operands()) && !i.IsTerminator()
    requires ExecInstr(w, i, s0).Some?
    ensures ExecInstr(w, i, s1).Some? && Agree(pure, marked, ExecInstr(w, i, s0).value, ExecInstr(w, i, s1).value)
  {
    hide Observable, UsesMarked;
    match i {
      case Load(_, _) =>
        MarkedLoad(w, pure, marked, i, s0, s1);
      case Store(_, _, _) =>
        MarkedStore(w, pure, marked, i, s0, s1);
      case Call(_, _, _) =>
        MarkedCall(w, pure, marked, i, s0, s1);
      case _ =>
        EvalAgree(w, pure, marked, s0, s1, i.Operands());
    }
  }

  /** An unmarked instruction does nothing that counts. */
  lemma UnmarkedStep(w: World, pure: set<string>, marked: set<Id>, i: Instr, s0: State, s1: State)
    requires PureWorld(w, pure) && Agree(pure, marked, s0, s1) && i.id !in marked
    requires !IsCritical(Inner(i), pure) && ExecInstr(w, i, s0).Some?
    ensures Agree(pure, marked, ExecInstr(w, i, s0).value, s1)
  {
    hide Observable;
    match i {
      case Call(id, f, args) =>
        var vs := EvalAll(w, s0.env, args).value;
        var (r, m) := w.call(f, vs, s0.mem);
        ObservableAppend(pure, s0.trace, Called(f, vs, r));
      case _ =>
    }
  }

  // ----- what is critical -----

  /** In some state the instruction gives a slot a value that it did not have, changes memory, or does what can be
      observed, although the functions called pure leave memory alone. */
  ghost predicate Acts(i: Instr, pure: set<string>)
    requires !i.IsTerminator()
  {
    exists w, s {:trigger ExecInstr(w, i, s)} :: PureWorld(w, pure) && ExecInstr(w, i, s).Some? &&
      Different(pure, s, ExecInstr(w, i, s).value)
  }

  ghost predicate Different(pure: set<string>, s: State, s': State) {
    || (exists v {:trigger s'.cells[v]} :: v in s'.cells && (v !in s.cells || s.cells[v] != s'.cells[v]))
    || s'.mem != s.mem || Observable(pure, s'.trace) != Observable(pure, s.trace)
  }

  /** A world in which nothing happens. */
  function Idle(): World {
    World(n => 0, x => 0, v => 0, vs => 0, (op, vs) => 0, (f, vs, m: Memory) => (0, m))
  }

  /** An environment that has every operand. */
  function Given(os: seq<Operand>): map<Id, Val> {
    map o | o in os && (o.Reg? || o.Elem?) :: o.id := 0
  }

  lemma {:induction false} GivenEvaluates(w: World, env: map<Id, Val>, os: seq<Operand>)
    requires forall o {:trigger o in os} :: o in os ==> Eval(w, env, o).Some?
    ensures EvalAll(w, env, os).Some?
  {
    if os != [] {
      assert os[0] in os && forall o :: o in os[1..] ==> o in os;
      GivenEvaluates(w, env, os[1..]);
    }
  }

  /** An instruction that does not end its block is critical exactly if it can act. */
  lemma CriticalIffActs(i: Instr, pure: set<string>)
    requires !i.IsTerminator()
    ensures IsCritical(Inner(i), pure) <==> Acts(i, pure)
  {
    if IsCritical(Inner(i), pure) {
      CriticalActs(i, pure);
    }
    if w, s :| PureWorld(w, pure) && ExecInstr(w, i, s).Some? && Different(pure, s, ExecInstr(w, i, s).value) {
      if i.Call? && i.callee in pure {
        PureCallIdle(w, pure, i, s);
      }
    }
  }

  lemma PureCallIdle(w: World, pure: set<string>, i: Instr, s: State)
    requires PureWorld(w, pure) && i.Call? && i.callee in pure && ExecInstr(w, i, s).Some?
    ensures !Different(pure, s, ExecInstr(w, i, s).value)
  {
    hide Observable;
    var vs := EvalAll(w, s.env, i.args).value;
    ObservableAppend(pure, s.trace, Called(i.callee, vs, w.call(i.callee, vs, s.mem).0));
  }

  lemma CriticalActs(i: Instr, pure: set<string>)
    requires !i.IsTerminator() && IsCritical(Inner(i), pure)
    ensures Acts(i, pure)
  {
    hide Observable;
    var w, env := Idle(), Given(i.Operands());
    var s := State(env, map[], map[], []);
    GivenEvaluates(w, env, i.Operands());
    match i
    case Call(_, callee, args) =>
      ObservableAppend(pure, [], Called(callee, EvalAll(w, env, args).value, 0));
      assert PureWorld(w, pure) && Different(pure, s, ExecInstr(w, i, s).value);
    case Store(_, r, p) =>
      assert r in i.Operands() && p in i.Operands();
      StoreActs(w, i, pure, s);
  }

  lemma StoreActs(w: World, i: Instr, pure: set<string>, s: State)
    requires w == Idle() && i.Store? && s.cells == map[] && s.mem == map[]
    requires Eval(w, s.env, i.rval).Some? && Eval(w, s.env, i.ptr).Some?
    ensures Acts(i, pure)
  {
    hide Observable;
    var s' := ExecInstr(w, i, s).value;
    if i.ptr.Slot? {
      assert i.ptr.v in s'.cells && s'.cells[i.ptr.v] == Eval(w, s.env, i.rval).value;
    } else {
      assert Eval(w, s.env, i.ptr).value in s'.mem;
    }
    assert PureWorld(w, pure) && Different(pure, s, s');
  }

  /** All instructions of a block that are critical are marked, and so is what the marked ones use. */
  ghost predicate Covered(pure: set<string>, marked: set<Id>, code: seq<Instr>) {
    forall i {:trigger i in code} :: i in code ==>
      (IsCritical(Inner(i), pure) ==> i.id in marked) && (i.id in marked ==> UsesMarked(marked, i.Operands()))
  }

  lemma {:induction false} CodeAgree(w: World, pure: set<string>, marked: set<Id>, code: seq<Instr>, s0: State,
                                     s1: State)
    requires PureWorld(w, pure) && Agree(pure, marked, s0, s1) && Covered(pure, marked, code)
    requires ExecCode(w, code, s0).Some?
    ensures ExecCode(w, SweepCode(marked, code), s1).Some?
    ensures var (t0, e0) := ExecCode(w, code, s0).value; var (t1, e1) := ExecCode(w, SweepCode(marked, code), s1).value;
      e0 == e1 && Agree(pure, marked, t0, t1)
  {
    hide Agree, PureWorld, IsCritical;
    var i, rest := code[0], code[1..];
    assert i in code && forall j :: j in rest ==> j in code;
    assert Covered(pure, marked, rest);
    var swept := SweepCode(marked, code);
    if i.IsTerminator() {
      TerminatorIsCritical(pure, i);
      ExitAgree(w, pure, marked, i, s0, s1);
      assert swept[0] == i;
    } else if i.id in marked {
      MarkedStep(w, pure, marked, i, s0, s1);
      assert swept[0] == i && swept[1..] == SweepCode(marked, rest);
      CodeAgree(w, pure, marked, rest, ExecInstr(w, i, s0).value, ExecInstr(w, i, s1).value);
    } else {
      UnmarkedStep(w, pure, marked, i, s0, s1);
      CodeAgree(w, pure, marked, rest, ExecInstr(w, i, s0).value, s1);
    }
  }

  lemma TerminatorIsCritical(pure: set<string>, i: Instr)
    requires i.IsTerminator()
    ensures IsCritical(Inner(i), pure)
  {
  }

  lemma ExitAgree(w: World, pure: set<string>, marked: set<Id>, i: Instr, s0: State, s1: State)
    requires Agree(pure, marked, s0, s1) && UsesMarked(marked, i.Operands()) && i.IsTerminator()
    ensures ExecExit(w, i, s0) == ExecExit(w, i, s1)
  {
    hide Agree, UsesMarked;
    EvalAgree(w, pure, marked, s0, s1, i.Operands());
    if i.CondBr? {
      assert i.cond in i.Operands();
    }
  }

  ghost predicate RowCovered(marked: set<Id>, row: seq<Phi>) {
    forall p {:trigger p in row} :: p in row && p.id in marked ==> UsesMarked(marked, Values(p.pairs))
  }

  lemma {:induction false} PairForValue(pairs: seq<(Operand, Block)>, from: Block)
    ensures PairFor(pairs, from).Some? ==> PairFor(pairs, from).value in Values(pairs)
  {
    if pairs != [] {
      PairForValue(pairs[1..], from);
    }
  }

  lemma PhiAgree(w: World, pure: set<string>, marked: set<Id>, p: Phi, from: Block, s0: State, s1: State)
    requires Agree(pure, marked, s0, s1) && UsesMarked(marked, Values(p.pairs))
    ensures PhiValue(w, s0.env, p, from) == PhiValue(w, s1.env, p, from)
  {
    hide Agree, UsesMarked;
    PairForValue(p.pairs, from);
    EvalAgree(w, pure, marked, s0, s1, Values(p.pairs));
  }

  /** Writing an unmarked result on one side, or the same marked result on both, keeps the agreement. */
  lemma AgreePut(pure: set<string>, marked: set<Id>, id: Id, v: Option<Val>, s0: State, s1: State)
    requires Agree(pure, marked, s0, s1)
    ensures id !in marked ==> Agree(pure, marked, s0.(env := Put(s0.env, id, v)), s1)
    ensures Agree(pure, marked, s0.(env := Put(s0.env, id, v)), s1.(env := Put(s1.env, id, v)))
  {
    hide Observable;
  }

  function Put(env: map<Id, Val>, id: Id, v: Option<Val>): map<Id, Val> {
    match v
    case Some(x) => env[id := x]
    case None => env - {id}
  }

  /** Entering a block through its surviving phis keeps the agreement. */
  lemma {:induction false} EnterAgree(w: World, pure: set<string>, marked: set<Id>, row: seq<Phi>, from: Block,
                                      s0: State, s1: State)
    requires Agree(pure, marked, s0, s1) && RowCovered(marked, row)
    ensures Agree(pure, marked, s0.(env := EnterPhis(w, row, from, s0.env)),
                  s1.(env := EnterPhis(w, SweepRow(marked, row), from, s1.env)))
  {
    hide UsesMarked, Agree, PhiValue;
    if row != [] {
      var p, rest := row[0], row[1..];
      assert p in row && forall q :: q in rest ==> q in row;
      EnterAgree(w, pure, marked, rest, from, s0, s1);
      var r0 := s0.(env := EnterPhis(w, rest, from, s0.env));
      var r1 := s1.(env := EnterPhis(w, SweepRow(marked, rest), from, s1.env));
      AgreePut(pure, marked, p.id, PhiValue(w, s0.env, p, from), r0, r1);
      if p.id in marked {
        PhiAgree(w, pure, marked, p, from, s0, s1);
        assert SweepRow(marked, row)[0] == p && SweepRow(marked, row)[1..] == SweepRow(marked, rest);
      }
    }
  }

  /** The runs are at the same block and agree, or have returned the same values with the same memory and
      the same observable effects; unless the original run is stuck. */
  ghost predicate InStep(pure: set<string>, marked: set<Id>, p0: Point, p1: Point) {
    match p0
    case Stuck => true
    case At(b, s0) => p1.At? && p1.block == b && Agree(pure, marked, s0, p1.state)
    case Finished(vs, s0) => p1.Finished? && p1.vals == vs && Agree(pure, marked, s0, p1.state)
  }

  lemma BlockCovered(f: Func, pure: set<string>, marked: set<Id>, b: Block)
    requires UseClosed(f, pure, marked) && b in f.blocks && b in f.body.code && b in f.body.phis
    ensures Covered(pure, marked, f.body.code[b]) && RowCovered(marked, f.body.phis[b])
  {
    forall i | i in f.body.code[b]
      ensures IsCritical(Inner(i), pure) ==> i.id in marked
      ensures i.id in marked ==> UsesMarked(marked, i.Operands())
    {
      var n := Inner(i);
      assert NodeIn(f, b, n) && HasNode(f, n);
      assert n.Uses() == i.Operands() && n.Id() == i.id;
    }
    forall p | p in f.body.phis[b] && p.id in marked
      ensures UsesMarked(marked, Values(p.pairs))
    {
      var n := Head(p);
      assert NodeIn(f, b, n) && HasNode(f, n);
      assert n.Uses() == Values(p.pairs) && n.Id() == p.id;
    }
  }

  lemma AdvanceAgree(w: World, f: Func, pure: set<string>, marked: set<Id>, f': Func, p0: Point, p1: Point)
    requires Listed(f) && UseClosed(f, pure, marked) && Swept(f, marked, f') && PureWorld(w, pure)
    requires InStep(pure, marked, p0, p1)
    ensures InStep(pure, marked, Advance(w, f.body, p0), Advance(w, f'.body, p1))
  {
    hide Agree, UseClosed, PureWorld, Covered, RowCovered;
    if p0.At? && Advance(w, f.body, p0) != Stuck {
      var b, s0, s1 := p0.block, p0.state, p1.state;
      BlockCovered(f, pure, marked, b);
      CodeAgree(w, pure, marked, f.body.code[b], s0, s1);
      assert f'.body.code[b] == SweepCode(marked, f.body.code[b]);
      var (t0, e) := ExecCode(w, f.body.code[b], s0).value;
      var (t1, e1) := ExecCode(w, f'.body.code[b], s1).value;
      if e.Goto? {
        var u := e.target;
        BlockCovered(f, pure, marked, u);
        assert f'.body.phis[u] == SweepRow(marked, f.body.phis[u]);
        EnterAgree(w, pure, marked, f.body.phis[u], b, t0, t1);
      }
    }
  }

  /** Sweeping what is not needed preserves behaviour, for runs of any length from any point. */
  lemma {:induction false} SweepPreservesMeaning(w: World, f: Func, pure: set<string>, marked: set<Id>, f': Func,
                                                 start: Point, steps: nat)
    requires Listed(f) && UseClosed(f, pure, marked) && Swept(f, marked, f') && PureWorld(w, pure)
    ensures InStep(pure, marked, Run(w, f.body, steps, start), Run(w, f'.body, steps, start))
  {
    hide UseClosed, Swept, PureWorld, Listed;
    if steps > 0 {
      SweepPreservesMeaning(w, f, pure, marked, f', start, steps - 1);
      AdvanceAgree(w, f, pure, marked, f', Run(w, f.body, steps - 1, start), Run(w, f'.body, steps - 1, start));
    }
  }
}
