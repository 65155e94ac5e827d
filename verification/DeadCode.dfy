/** The dead-code pass on the functions of a module. */
module DeadCodePass {
  import opened ControlFlow
  import opened IR
  import opened Functions
  import opened Purity
  import opened PurityMeaning
  import opened DeadCodeMeaning

  /** How far marking has come: the marked instructions are needed, the critical ones are marked, and so are
      the operands of all but the waiting ones. */
  ghost predicate Marking(f: Func, nodes: map<Id, Node>, pure: set<string>, marked: set<Id>, waiting: seq<Id>) {
    && (forall id {:trigger id in marked} {:trigger OwnedBy(f, nodes, id)} :: id in marked ==> OwnedBy(f, nodes, id))
    && (forall id {:trigger id in waiting} :: id in waiting ==> id in marked)
    && (forall n {:trigger IsCritical(n, pure)} :: HasNode(f, n) && IsCritical(n, pure) ==> n.Id() in marked)
    && (forall n, o {:trigger HasNode(f, n), Def(o)} ::
          HasNode(f, n) && n.Id() in marked && n.Id() !in waiting && o in n.Uses() && Def(o).Some? ==>
            Def(o).value in marked)
    && (forall x {:trigger UseClosed(f, pure, x)} :: UseClosed(f, pure, x) ==> marked <= x)
  }

  /** Before any operand has been looked at: marked are the critical instructions met so far, all waiting. */
  ghost predicate Seeding(f: Func, nodes: map<Id, Node>, pure: set<string>, marked: set<Id>, waiting: seq<Id>) {
    && (forall id {:trigger id in marked} {:trigger OwnedBy(f, nodes, id)} ::
          id in marked ==> OwnedBy(f, nodes, id) && IsCritical(nodes[id], pure))
    && (forall id {:trigger id in waiting} {:trigger id in marked} :: id in waiting <==> id in marked)
  }

  lemma SeedingDone(f: Func, nodes: map<Id, Node>, pure: set<string>, marked: set<Id>, waiting: seq<Id>)
    requires Seeding(f, nodes, pure, marked, waiting)
    requires forall n {:trigger HasNode(f, n)} :: HasNode(f, n) && IsCritical(n, pure) ==> n.Id() in marked
    ensures Marking(f, nodes, pure, marked, waiting)
  {
    forall x | UseClosed(f, pure, x)
      ensures marked <= x
    {
      forall id | id in marked
        ensures id in x
      {
        assert HasNode(f, nodes[id]) && IsCritical(nodes[id], pure);
      }
    }
  }

  /** Marking an operand of the instruction in hand. */
  lemma MarkOperand(f: Func, nodes: map<Id, Node>, pure: set<string>, marked: set<Id>, waiting: seq<Id>, now: Id,
                    o: Operand)
    requires Indexed(f, nodes) && Marking(f, nodes, pure, marked, [now] + waiting) && now in marked
    requires o in nodes[now].Uses() && Def(o).Some?
    ensures OwnedBy(f, nodes, Def(o).value)
    ensures Marking(f, nodes, pure, marked + {Def(o).value}, [now] + (waiting + [Def(o).value]))
  {
    hide IsCritical;
    assert OwnedBy(f, nodes, now);
    var d := Def(o).value;
    var marked', waiting' := marked + {d}, [now] + (waiting + [d]);
    assert OwnedBy(f, nodes, d);
    assert forall id :: id in waiting' <==> id in [now] + waiting || id == d;
    forall x | UseClosed(f, pure, x)
      ensures marked' <= x
    {
      assert marked <= x && now in x;
      assert HasNode(f, nodes[now]) && nodes[now].Id() == now;
    }
  }

  /** What the operands name is marked, nothing else is new, and exactly what is new has been queued, once each. */
  ghost predicate UsesFound(uses: seq<Operand>, before: set<Id>, after: set<Id>, queue: seq<Id>, queue': seq<Id>) {
    after == before + Defs(uses) && Enqueued(queue, queue', after - before)
  }

  lemma FoundNone(uses: seq<Operand>, marked: set<Id>, queue: seq<Id>)
    ensures UsesFound(uses[..0], marked, marked, queue, queue)
  {
    DefsNone();
    EnqueuedNone(queue, marked);
  }

  lemma FoundNext(uses: seq<Operand>, i: nat, before: set<Id>, now: set<Id>, after: set<Id>, queue: seq<Id>,
                  queue': seq<Id>, queue'': seq<Id>)
    requires i < |uses| && UsesFound(uses[..i], before, now, queue, queue')
    requires after == now + (if Def(uses[i]).Some? then {Def(uses[i]).value} else {})
    requires Enqueued(queue', queue'', after - now)
    ensures UsesFound(uses[..i + 1], before, after, queue, queue'')
  {
    hide Enqueued, Defs;
    DefsNext(uses, i);
    EnqueuedLater(queue, queue', queue'', before, now, after);
  }

  lemma FoundAll(uses: seq<Operand>, before: set<Id>, after: set<Id>, queue: seq<Id>, queue': seq<Id>)
    requires UsesFound(uses, before, after, queue, queue')
    ensures before <= after && Enqueued(queue, queue', after - before)
    ensures forall o {:trigger o in uses} :: o in uses && Def(o).Some? ==> Def(o).value in after
  {
    forall o | o in uses && Def(o).Some?
      ensures Def(o).value in after
    {
      assert Def(o).value in Defs(uses);
    }
  }

  lemma MarkedOwned(f: Func, nodes: map<Id, Node>, pure: set<string>, marked: set<Id>, waiting: seq<Id>, now: Id)
    requires Marking(f, nodes, pure, marked, waiting) && now in marked
    ensures OwnedBy(f, nodes, now)
  {
  }

  /** All operands of the instruction in hand are marked. */
  lemma MarkNext(f: Func, nodes: map<Id, Node>, pure: set<string>, marked: set<Id>, waiting: seq<Id>, now: Id)
    requires Marking(f, nodes, pure, marked, [now] + waiting) && OwnedBy(f, nodes, now) && Indexed(f, nodes)
    requires forall o {:trigger o in nodes[now].Uses()} ::
      o in nodes[now].Uses() && Def(o).Some? ==> Def(o).value in marked
    ensures Marking(f, nodes, pure, marked, waiting)
  {
    hide IsCritical, UseClosed;
    assert forall id :: id in [now] + waiting <==> id == now || id in waiting;
    forall n, o | HasNode(f, n) && n.Id() in marked && n.Id() !in waiting && o in n.Uses() && Def(o).Some?
      ensures Def(o).value in marked
    {
      if n.Id() == now {
        assert n == nodes[now];
      }
    }
  }

  lemma MarkingDone(f: Func, nodes: map<Id, Node>, pure: set<string>, marked: set<Id>)
    requires Marking(f, nodes, pure, marked, [])
    ensures Needed(f, pure, marked)
  {
    hide IsCritical;
  }

  // ----- sweeping -----

  /** The instructions of the function that are not marked. */
  ghost function Unmarked(f: Func, nodes: map<Id, Node>, marked: set<Id>): set<Id> {
    set id | id in nodes && OwnedBy(f, nodes, id) && id !in marked
  }

  lemma {:induction false} AllKept(marked: set<Id>, code: seq<Instr>)
    requires forall i {:trigger i in code} :: i in code ==> i.id in marked
    ensures SweepCode(marked, code) == code
  {
    if code != [] {
      assert code[0] in code && forall i :: i in code[1..] ==> i in code;
      AllKept(marked, code[1..]);
    }
  }

  lemma {:induction false} AllPhisKept(marked: set<Id>, row: seq<Phi>)
    requires forall q {:trigger q in row} :: q in row ==> q.id in marked
    ensures SweepRow(marked, row) == row
  {
    if row != [] {
      assert row[0] in row && forall q :: q in row[1..] ==> q in row;
      AllPhisKept(marked, row[1..]);
    }
  }

  /** The function apart from its body is untouched, and so are unlisted blocks. */
  ghost predicate SameShell(f: Func, f': Func) {
    && f'.name == f.name && f'.params == f.params && f'.blocks == f.blocks
    && f'.body.code.Keys == f.body.code.Keys && f'.body.phis.Keys == f.body.phis.Keys
    && (forall b {:trigger f'.body.code[b]} :: b in f.body.code && b !in f.blocks ==> f'.body.code[b] == f.body.code[b])
    && (forall b {:trigger f'.body.phis[b]} :: b in f.body.phis && b !in f.blocks ==> f'.body.phis[b] == f.body.phis[b])
  }

  lemma NothingSwept(f: Func, nodes: map<Id, Node>, marked: set<Id>, f': Func)
    requires Indexed(f, nodes) && Swept(f, marked, f') && SameShell(f, f') && Unmarked(f, nodes, marked) == {}
    ensures f' == f
  {
    forall n | HasNode(f, n)
      ensures n.Id() in marked
    {
      assert OwnedBy(f, nodes, n.Id());
      assert n.Id() !in Unmarked(f, nodes, marked);
    }
    forall b | b in f.blocks
      ensures f'.body.code[b] == f.body.code[b] && f'.body.phis[b] == f.body.phis[b]
    {
      forall i | i in f.body.code[b]
        ensures i.id in marked
      {
        assert NodeIn(f, b, Inner(i)) && HasNode(f, Inner(i));
      }
      forall q | q in f.body.phis[b]
        ensures q.id in marked
      {
        assert NodeIn(f, b, Head(q)) && HasNode(f, Head(q));
      }
      AllKept(marked, f.body.code[b]);
      AllPhisKept(marked, f.body.phis[b]);
    }
    SameBodies(f.body, f'.body);
  }

  lemma SameBodies(x: Body, y: Body)
    requires x.code.Keys == y.code.Keys && x.phis.Keys == y.phis.Keys
    requires forall b {:trigger y.code[b]} :: b in x.code ==> y.code[b] == x.code[b]
    requires forall b {:trigger y.phis[b]} :: b in x.phis ==> y.phis[b] == x.phis[b]
    ensures x == y
  {
    forall b
      ensures (b in x.code <==> b in y.code) && (b in x.code ==> y.code[b] == x.code[b])
      ensures (b in x.phis <==> b in y.phis) && (b in x.phis ==> y.phis[b] == x.phis[b])
    {
      assert (b in x.code <==> b in x.code.Keys) && (b in x.phis <==> b in x.phis.Keys);
    }
    assert x.code == y.code && x.phis == y.phis;
  }

  ghost predicate SweptBlock(f: Func, marked: set<Id>, body: Body, b: Block) {
    && b in f.body.code && b in f.body.phis && b in body.code && b in body.phis
    && body.code[b] == SweepCode(marked, f.body.code[b])
    && body.phis[b] == SweepRow(marked, f.body.phis[b])
  }

  method EraseCode(code: seq<Instr>, waitDel: set<Id>, ghost marked: set<Id>) returns (kept: seq<Instr>)
    requires forall i {:trigger i in code} :: i in code ==> (i.id in waitDel <==> i.id !in marked)
    ensures kept == SweepCode(marked, code)
  {
    kept := [];
    for k := 0 to |code|
      invariant kept + SweepCode(marked, code[k..]) == SweepCode(marked, code)
    {
      assert code[k] in code && code[k..][1..] == code[k + 1..];
      if code[k].id !in waitDel {
        kept := kept + [code[k]];
      }
    }
  }

  method ErasePhis(row: seq<Phi>, waitDel: set<Id>, ghost marked: set<Id>) returns (kept: seq<Phi>)
    requires forall q {:trigger q in row} :: q in row ==> (q.id in waitDel <==> q.id !in marked)
    ensures kept == SweepRow(marked, row)
  {
    kept := [];
    for k := 0 to |row|
      invariant kept + SweepRow(marked, row[k..]) == SweepRow(marked, row)
    {
      assert row[k] in row && row[k..][1..] == row[k + 1..];
      if row[k].id !in waitDel {
        kept := kept + [row[k]];
      }
    }
  }

  lemma WaitingInBlock(f: Func, nodes: map<Id, Node>, marked: set<Id>, waitDel: set<Id>, b: Block)
    requires Indexed(f, nodes) && waitDel == Unmarked(f, nodes, marked) && b in f.blocks
    ensures forall i {:trigger i in f.body.code[b]} :: i in f.body.code[b] ==> (i.id in waitDel <==> i.id !in marked)
    ensures forall q {:trigger q in f.body.phis[b]} :: q in f.body.phis[b] ==> (q.id in waitDel <==> q.id !in marked)
  {
    forall n | NodeIn(f, b, n)
      ensures OwnedBy(f, nodes, n.Id())
    {
      assert HasNode(f, n);
    }
    forall i | i in f.body.code[b]
      ensures OwnedBy(f, nodes, i.id)
    {
      assert NodeIn(f, b, Inner(i));
    }
    forall q | q in f.body.phis[b]
      ensures OwnedBy(f, nodes, q.id)
    {
      assert NodeIn(f, b, Head(q));
    }
  }

  // ----- rounds -----

  /** The function is what marking and sweeping leave of the other. */
  ghost predicate Cleaned(pure: set<string>, f: Func, f': Func) {
    SameShell(f, f') && exists s {:trigger Needed(f, pure, s)} :: Needed(f, pure, s) && Swept(f, s, f')
  }

  /** Nothing is left to sweep. */
  ghost predicate Tidy(pure: set<string>, f: Func) {
    forall n, s {:trigger HasNode(f, n), Needed(f, pure, s)} :: HasNode(f, n) && Needed(f, pure, s) ==> n.Id() in s
  }

  lemma CleanedTidy(f: Func, nodes: map<Id, Node>, pure: set<string>, f': Func)
    requires Indexed(f, nodes) && Cleaned(pure, f, f')
    ensures Tidy(pure, f') && Indexed(f', nodes)
  {
    hide Indexed, Swept;
    var s :| Needed(f, pure, s) && Swept(f, s, f');
    SweptIndexed(f, nodes, pure, s, f');
    forall again | Needed(f', pure, again)
      ensures forall n {:trigger HasNode(f', n)} :: HasNode(f', n) ==> n.Id() in again
    {
      SecondMark(f, nodes, pure, s, f', again);
    }
  }

  /** Exactly the instructions from which a chain of uses leads to a branch, a return, a store or a call of a function
      that is not pure are left. */
  lemma CleanedExactly(f: Func, nodes: map<Id, Node>, pure: set<string>, f': Func, n: Node)
    requires Indexed(f, nodes) && Cleaned(pure, f, f')
    ensures HasNode(f', n) <==> HasNode(f, n) && Reaches(f, pure, n)
  {
    hide Indexed, Swept, Needed, HasNode, Reaches;
    var s :| Needed(f, pure, s) && Swept(f, s, f');
    SweptReaches(f, nodes, pure, s, f', n);
  }

  ghost predicate SameEffects(pure: set<string>, s0: State, s1: State) {
    s0.mem == s1.mem && Observable(pure, s0.trace) == Observable(pure, s1.trace)
  }

  ghost predicate SameOutcome(pure: set<string>, p0: Point, p1: Point) {
    match p0
    case Stuck => true
    case At(b, s0) => p1.At? && p1.block == b && SameEffects(pure, s0, p1.state)
    case Finished(vs, s0) => p1.Finished? && p1.vals == vs && SameEffects(pure, s0, p1.state)
  }

  /** The cleaned function goes through the same blocks and returns the same values, with the same memory and
      the same stores and impure calls; only a run that the original cannot continue is left open. */
  lemma CleanedBehaves(w: World, f: Func, pure: set<string>, f': Func, start: Point, steps: nat)
    requires Listed(f) && Cleaned(pure, f, f') && PureWorld(w, pure)
    ensures SameOutcome(pure, Run(w, f.body, steps, start), Run(w, f'.body, steps, start))
  {
    hide UseClosed, Swept, Run, Observable, PureWorld, Listed;
    var marked :| Needed(f, pure, marked) && Swept(f, marked, f');
    SweepPreservesMeaning(w, f, pure, marked, f', start, steps);
  }

  class DeadCode {
    const nodes: map<Id, Node>
    const funcInfo: FuncInfo
    var pure: set<string>
    var funcs: seq<Func>
    var workList: seq<Id>
    var marked: set<Id>
    var insCount: nat

    constructor (funcInfo: FuncInfo)
      ensures this.funcInfo == funcInfo && nodes == funcInfo.p.nodes && funcs == funcInfo.p.funcs && insCount == 0
    {
      this.funcInfo := funcInfo;
      nodes := funcInfo.p.nodes;
      funcs := funcInfo.p.funcs;
      pure, workList, marked, insCount := {}, [], {}, 0;
    }

    /** Marks the operands of an instruction. */
    method MarkOperands(ghost f: Func, now: Id)
      requires Indexed(f, nodes) && now in marked && Marking(f, nodes, pure, marked, [now] + workList)
      modifies `workList, `marked
      ensures Marking(f, nodes, pure, marked, workList)
      ensures UsesFound(nodes[now].Uses(), old(marked), marked, old(workList), workList)
      ensures old(marked) <= marked <= nodes.Keys
    {
      hide Marking, Indexed, UsesFound;
      MarkedOwned(f, nodes, pure, marked, [now] + workList, now);
      var uses := nodes[now].Uses();
      FoundNone(uses, marked, workList);
      for i := 0 to |uses|
        invariant now in marked && Marking(f, nodes, pure, marked, [now] + workList)
        invariant UsesFound(uses[..i], old(marked), marked, old(workList), workList)
      {
        ghost var before, waiting := marked, workList;
        MarkUse(f, now, uses[i]);
        FoundNext(uses, i, old(marked), before, marked, old(workList), waiting, workList);
      }
      assert uses[..|uses|] == uses;
      FoundAll(uses, old(marked), marked, old(workList), workList);
      MarkNext(f, nodes, pure, marked, workList, now);
      MarkedKnown(f);
    }

    /** Marks one operand of the instruction, unless it is marked already. */
    method MarkUse(ghost f: Func, ghost now: Id, o: Operand)
      requires Indexed(f, nodes) && now in marked && Marking(f, nodes, pure, marked, [now] + workList)
      requires now in nodes && o in nodes[now].Uses()
      modifies `workList, `marked
      ensures Marking(f, nodes, pure, marked, [now] + workList)
      ensures marked == old(marked) + (if Def(o).Some? then {Def(o).value} else {})
      ensures Enqueued(old(workList), workList, marked - old(marked))
    {
      hide Marking, Indexed, Enqueued;
      EnqueuedNone(workList, marked);
      var def := Def(o);
      if def.Some? && def.value !in marked {
        MarkOperand(f, nodes, pure, marked, workList, now, o);
        EnqueuedNext(workList, workList, marked - marked, def.value);
        marked := marked + {def.value};
        workList := workList + [def.value];
      }
    }

    lemma MarkedKnown(f: Func)
      requires Marking(f, nodes, pure, marked, workList)
      ensures marked <= nodes.Keys
    {
      forall id | id in marked
        ensures id in nodes
      {
        assert OwnedBy(f, nodes, id);
      }
    }

    /** Marks the critical instructions. */
    method MarkCritical(f: Func)
      requires Indexed(f, nodes)
      modifies `workList, `marked
      ensures Marking(f, nodes, pure, marked, workList)
      ensures forall id {:trigger id in marked} ::
        id in marked <==> OwnedBy(f, nodes, id) && IsCritical(nodes[id], pure)
      ensures forall id {:trigger id in workList} :: id in workList <==> id in marked
    {
      workList, marked := [], {};
      for i := 0 to |f.blocks|
        invariant Seeding(f, nodes, pure, marked, workList)
        invariant forall j, n {:trigger NodeIn(f, f.blocks[j], n)} ::
          0 <= j < i && NodeIn(f, f.blocks[j], n) && IsCritical(n, pure) ==> n.Id() in marked
      {
        var b := f.blocks[i];
        assert b in f.blocks;
        var instrs := NodesOf(f, b);
        for k := 0 to |instrs|
          invariant Seeding(f, nodes, pure, marked, workList)
          invariant forall j, n {:trigger NodeIn(f, f.blocks[j], n)} ::
            0 <= j < i && NodeIn(f, f.blocks[j], n) && IsCritical(n, pure) ==> n.Id() in marked
          invariant forall j :: 0 <= j < k && IsCritical(instrs[j], pure) ==> instrs[j].Id() in marked
        {
          var n := instrs[k];
          if IsCritical(n, pure) {
            assert NodeIn(f, b, n) && HasNode(f, n);
            marked := marked + {n.Id()};
            workList := workList + [n.Id()];
          }
        }
      }
      SeedingDone(f, nodes, pure, marked, workList);
    }

    /** Marks exactly what the critical instructions need. */
    method Mark(f: Func)
      requires Indexed(f, nodes)
      modifies `workList, `marked
      ensures Needed(f, pure, marked)
    {
      hide Marking, Indexed, Needed;
      MarkCritical(f);
      MarkedKnown(f);
      while workList != []
        invariant Marking(f, nodes, pure, marked, workList) && marked <= nodes.Keys
        decreases nodes.Keys - marked, |workList|
      {
        var now := workList[0];
        assert workList == [now] + workList[1..];
        WaitingMarked(f, now);
        workList := workList[1..];
        ghost var before, waiting := marked, workList;
        MarkOperands(f, now);
        FoundAll(nodes[now].Uses(), before, marked, waiting, workList);
        EnqueuedMore(waiting, workList, nodes.Keys, before, marked);
      }
      MarkingDone(f, nodes, pure, marked);
    }

    lemma WaitingMarked(f: Func, now: Id)
      requires Marking(f, nodes, pure, marked, workList) && now in workList
      ensures now in marked
    {
    }

    /** Erases the unmarked instructions of a function. */
    method Sweep(k: nat) returns (changed: bool)
      requires k < |funcs| && Indexed(funcs[k], nodes)
      modifies `funcs, `insCount
      ensures |funcs| == |old(funcs)| && funcs == old(funcs)[k := funcs[k]]
      ensures Swept(old(funcs[k]), marked, funcs[k]) && SameShell(old(funcs[k]), funcs[k])
      ensures insCount == old(insCount) + |Unmarked(old(funcs[k]), nodes, marked)|
      ensures changed <==> Unmarked(old(funcs[k]), nodes, marked) != {}
    {
      var f := funcs[k];
      var waitDel := WaitDel(f);
      var body := f.body;
      for i := 0 to |f.blocks|
        invariant funcs == old(funcs) && insCount == old(insCount)
        invariant SameShell(f, f.(body := body))
        invariant forall j :: 0 <= j < i ==> SweptBlock(f, marked, body, f.blocks[j])
      {
        var b := f.blocks[i];
        assert b in f.blocks;
        WaitingInBlock(f, nodes, marked, waitDel, b);
        var code := EraseCode(f.body.code[b], waitDel, marked);
        var row := ErasePhis(f.body.phis[b], waitDel, marked);
        body := Body(body.phis[b := row], body.code[b := code]);
      }
      assert Swept(f, marked, f.(body := body)) by {
        forall b | b in f.blocks
          ensures SweptBlock(f, marked, body, b)
        {
          var j :| 0 <= j < |f.blocks| && f.blocks[j] == b;
        }
      }
      funcs := funcs[k := f.(body := body)];
      insCount := insCount + |waitDel|;
      changed := waitDel != {};
    }

    /** Collects the unmarked instructions of a function. */
    method WaitDel(f: Func) returns (waitDel: set<Id>)
      requires Indexed(f, nodes)
      ensures waitDel == Unmarked(f, nodes, marked)
    {
      waitDel := {};
      for i := 0 to |f.blocks|
        invariant waitDel <= Unmarked(f, nodes, marked)
        invariant forall j, n {:trigger NodeIn(f, f.blocks[j], n)} ::
          0 <= j < i && NodeIn(f, f.blocks[j], n) && n.Id() !in marked ==> n.Id() in waitDel
      {
        var b := f.blocks[i];
        assert b in f.blocks;
        var instrs := NodesOf(f, b);
        for k := 0 to |instrs|
          invariant waitDel <= Unmarked(f, nodes, marked)
          invariant forall j, n {:trigger NodeIn(f, f.blocks[j], n)} ::
            0 <= j < i && NodeIn(f, f.blocks[j], n) && n.Id() !in marked ==> n.Id() in waitDel
          invariant forall j :: 0 <= j < k && instrs[j].Id() !in marked ==> instrs[j].Id() in waitDel
        {
          var n := instrs[k];
          assert NodeIn(f, b, n) && HasNode(f, n);
          if n.Id() !in marked {
            waitDel := waitDel + {n.Id()};
          }
        }
      }
      forall id | id in Unmarked(f, nodes, marked)
        ensures id in waitDel
      {
        var b :| b in f.blocks && NodeIn(f, b, nodes[id]);
        var j :| 0 <= j < |f.blocks| && f.blocks[j] == b;
        assert NodeIn(f, f.blocks[j], nodes[id]);
      }
    }

    /** One round over all functions. */
    method Round() returns (changed: bool)
      requires forall k :: 0 <= k < |funcs| ==> Indexed(funcs[k], nodes)
      modifies `funcs, `insCount, `workList, `marked
      ensures |funcs| == |old(funcs)|
      ensures forall k :: 0 <= k < |funcs| ==> Cleaned(pure, old(funcs)[k], funcs[k])
      ensures !changed ==> funcs == old(funcs)
      ensures (forall k :: 0 <= k < |funcs| ==> Tidy(pure, old(funcs)[k])) ==> !changed
    {
      hide Indexed, Needed, Swept, SameShell;
      changed := false;
      for k := 0 to |funcs|
        invariant |funcs| == |old(funcs)|
        invariant forall j :: 0 <= j < k ==> Cleaned(pure, old(funcs)[j], funcs[j])
        invariant forall j :: k <= j < |funcs| ==> funcs[j] == old(funcs)[j]
        invariant !changed ==> funcs == old(funcs)
        invariant (forall j :: 0 <= j < k ==> Tidy(pure, old(funcs)[j])) ==> !changed
      {
        Mark(funcs[k]);
        var c := Sweep(k);
        SweptIsClean(old(funcs)[k], funcs[k]);
        changed := changed || c;
      }
    }

    lemma SweptIsClean(f: Func, f': Func)
      requires Indexed(f, nodes) && Needed(f, pure, marked) && Swept(f, marked, f') && SameShell(f, f')
      ensures Cleaned(pure, f, f')
      ensures Unmarked(f, nodes, marked) == {} ==> f' == f
      ensures Tidy(pure, f) ==> Unmarked(f, nodes, marked) == {}
    {
      hide UseClosed, Swept, SameShell, Indexed, Needed;
      if Unmarked(f, nodes, marked) == {} {
        NothingSwept(f, nodes, marked, f');
      }
    }

    /** Every function is left with exactly what it needs, after at most two rounds. */
    method Run(ghost rank: Id -> nat) returns (ghost rounds: nat)
      requires AllRanked(funcInfo.p, rank) && Linked(funcInfo.p, funcInfo.uses) && funcInfo.isPure == map[]
      requires funcInfo.worklist == []
      requires nodes == funcInfo.p.nodes && funcs == funcInfo.p.funcs
      requires forall k :: 0 <= k < |funcs| ==> Indexed(funcs[k], nodes)
      modifies this, funcInfo
      ensures forall a {:trigger a in pure} {:trigger IsName(funcInfo.p, a)} ::
        a in pure <==> IsName(funcInfo.p, a) && !Tainted(funcInfo.p, rank, a)
      ensures |funcs| == |old(funcs)| && rounds <= 2
      ensures forall k :: 0 <= k < |funcs| ==>
        Cleaned(pure, old(funcs)[k], funcs[k]) && Tidy(pure, funcs[k]) && Indexed(funcs[k], nodes)
      ensures forall k, n {:trigger HasNode(funcs[k], n)} :: 0 <= k < |funcs| ==>
        (HasNode(funcs[k], n) <==> HasNode(old(funcs)[k], n) && Reaches(old(funcs)[k], pure, n))
    {
      hide Indexed, Tainted, Linked, AllRanked, Cleaned, Tidy, HasNode, Reaches;
      funcInfo.Run(rank);
      pure := PureNames(funcInfo.isPure);
      forall a
        ensures a in pure <==> IsName(funcInfo.p, a) && !Tainted(funcInfo.p, rank, a)
      {
        assert a in funcInfo.isPure ==> (funcInfo.isPure[a] <==> !Tainted(funcInfo.p, rank, a));
      }
      rounds := 0;
      var changed := true;
      while changed
        invariant |funcs| == |old(funcs)| && rounds <= 2
        invariant forall a {:trigger a in pure} {:trigger IsName(funcInfo.p, a)} ::
          a in pure <==> IsName(funcInfo.p, a) && !Tainted(funcInfo.p, rank, a)
        invariant rounds == 0 ==> funcs == old(funcs)
        invariant rounds == 2 ==> !changed
        invariant forall k :: 0 <= k < |funcs| ==> Indexed(funcs[k], nodes)
        invariant rounds > 0 ==> forall k ::
          0 <= k < |funcs| ==> Cleaned(pure, old(funcs)[k], funcs[k]) && Tidy(pure, funcs[k])
        invariant rounds == 0 ==> changed
        decreases 2 - rounds
      {
        ghost var before := funcs;
        changed := Round();
        forall k | 0 <= k < |funcs|
          ensures Tidy(pure, funcs[k]) && Indexed(funcs[k], nodes)
        {
          CleanedTidy(before[k], nodes, pure, funcs[k]);
        }
        rounds := rounds + 1;
      }
      forall k, n | 0 <= k < |funcs|
        ensures HasNode(funcs[k], n) <==> HasNode(old(funcs)[k], n) && Reaches(old(funcs)[k], pure, n)
      {
        CleanedExactly(old(funcs)[k], nodes, pure, funcs[k], n);
      }
    }
  }
}
