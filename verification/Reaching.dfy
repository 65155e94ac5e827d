/** Which blocks of a lowered function are reached.  A conditional that returns in both arms leaves the builder in a
    block that nothing leads to; whether such blocks branch back to reached ones can be read off the source. */
module Reaching {
  import opened ControlFlow
  import opened IR
  import opened Scopes
  import opened Syntax
  import opened Lowering
  import opened LoweringShape
  import opened DominatorTree
  import IdomInvariants
  import DominatorAnalysis

  // ----- on the source -----

  /** After a statement the block has ended, or code follows that is reached, or code that is not. */
  datatype Flow = Ends | Goes | Lost

  /** Where a statement leaves the builder, if it starts in a block that is reached, or in one that is not. */
  function After(st: Stmt, live: bool): Flow
    decreases st, 1
  {
    match st
    case Compound(_, sts) => AfterAll(sts, live)
    case Return(_) => Ends
    case If(_, t, Some(f)) => if After(t, live) == Goes || After(f, live) == Goes then Goes else Lost
    case _ => if live then Goes else Lost
  }

  function AfterAll(sts: seq<Stmt>, live: bool): Flow
    decreases sts, 0
  {
    if sts == [] then (if live then Goes else Lost)
    else if After(sts[0], live) == Ends then Ends
    else AfterAll(sts[1..], After(sts[0], live) == Goes)
  }

  /** No arm of a conditional and no body of a loop is left in code that is not reached to go on in code that is. */
  predicate Tidy(st: Stmt, live: bool)
    decreases st, 1
  {
    match st
    case Compound(_, sts) => TidyAll(sts, live)
    case If(_, t, None) => Tidy(t, live) && (live ==> After(t, live) != Lost)
    case If(_, t, Some(f)) =>
      Tidy(t, live) && Tidy(f, live) && (After(st, live) == Goes ==> After(t, live) != Lost && After(f, live) != Lost)
    case While(_, body) => Tidy(body, live) && (live ==> After(body, live) != Lost)
    case _ => true
  }

  predicate TidyAll(sts: seq<Stmt>, live: bool)
    decreases sts, 0
  {
    sts != [] ==>
      Tidy(sts[0], live) && (After(sts[0], live) != Ends ==> TidyAll(sts[1..], After(sts[0], live) == Goes))
  }

  // ----- on the function under construction -----

  function Last(w: Walk): Block {
    match w
    case Start => ENTRY
    case Step(_, y) => y
  }

  ghost predicate OnPath(b: Builder, w: Walk) {
    match w
    case Start => true
    case Step(p, y) => OnPath(b, p) && y in b.Succ(Last(p))
  }

  ghost predicate Live(b: Builder, x: Block) {
    exists w {:trigger Last(w)} :: OnPath(b, w) && Last(w) == x
  }

  /** Every block is dead, to do, or reached; dead blocks are entered from dead ones only; and they lead to dead ones
      only if and only if all is tidy so far. */
  ghost predicate Zoned(b: Builder, dead: set<Block>, todo: set<Block>, tidy: bool) {
    && ENTRY < b.nextBlock && ENTRY !in dead && dead !! todo
    && (forall x {:trigger x in dead} {:trigger x in todo} :: x in dead || x in todo ==> x < b.nextBlock)
    && (forall p, j {:trigger j in b.Succ(p)} :: j in b.Succ(p) && j in dead ==> p in dead)
    && (forall x {:trigger x in b.code} :: x in b.code ==> x in dead || x in todo || Live(b, x))
    && (tidy <==> forall p, j {:trigger j in b.Succ(p)} :: j in b.Succ(p) && p in dead ==> j in dead)
  }

  lemma {:induction false} PathStays(b: Builder, b': Builder, w: Walk)
    requires OnPath(b, w) && forall x, y {:trigger y in b.Succ(x)} :: y in b.Succ(x) ==> y in b'.Succ(x)
    ensures OnPath(b', w)
  {
    if w.Step? {
      PathStays(b, b', w.prev);
    }
  }

  lemma LiveStays(b: Builder, b': Builder, x: Block)
    requires Live(b, x) && forall x, y {:trigger y in b.Succ(x)} :: y in b.Succ(x) ==> y in b'.Succ(x)
    ensures Live(b', x)
  {
    var w :| OnPath(b, w) && Last(w) == x;
    PathStays(b, b', w);
    assert Last(w) == x;
  }

  lemma LiveNext(b: Builder, x: Block, y: Block)
    requires Live(b, x) && y in b.Succ(x)
    ensures Live(b, y)
  {
    var w :| OnPath(b, w) && Last(w) == x;
    assert Last(Step(w, y)) == y;
  }

  /** The edges and the blocks are the same. */
  ghost predicate SameEdges(b: Builder, b': Builder) {
    b'.succ == b.succ && b'.nextBlock == b.nextBlock && b'.code.Keys == b.code.Keys
  }

  lemma SteadyZones(b: Builder, b': Builder, dead: set<Block>, todo: set<Block>, dead': set<Block>, todo': set<Block>,
                    tidy: bool)
    requires Zoned(b, dead, todo, tidy) && ENTRY !in dead' && dead' !! todo' && dead <= dead'
    requires b.nextBlock <= b'.nextBlock
    requires forall p {:trigger b'.Succ(p)} {:trigger b.Succ(p)} :: b'.Succ(p) == b.Succ(p)
    requires forall x {:trigger x in dead'} {:trigger x in todo'} :: x in dead' || x in todo' ==> x < b'.nextBlock
    requires forall x, p {:trigger x in b.Succ(p)} ::
      x in b.Succ(p) && (x in dead' || p in dead') ==> (x in dead' <==> x in dead) && (p in dead' <==> p in dead)
    requires forall x {:trigger x in b'.code} ::
      x in b'.code && x !in dead' && x !in todo' ==> x in b.code && x !in dead && x !in todo
    ensures Zoned(b', dead', todo', tidy)
  {
    hide Live;
    forall x | x in b'.code && x !in dead' && x !in todo'
      ensures Live(b', x)
    {
      LiveStays(b, b', x);
    }
  }

  lemma SameZones(b: Builder, b': Builder, dead: set<Block>, todo: set<Block>, tidy: bool)
    requires Zoned(b, dead, todo, tidy) && SameEdges(b, b')
    ensures Zoned(b', dead, todo, tidy)
  {
    hide Live;
    assert forall x :: x in b'.code ==> x in b.code.Keys;
    SteadyZones(b, b', dead, todo, dead, todo, tidy);
  }

  function With(s: set<Block>, x: Block, yes: bool): set<Block> {
    if yes then s + {x} else s
  }

  function WithTwo(s: set<Block>, n: Block, yes: bool): set<Block> {
    With(With(s, n, yes), n + 1, yes)
  }

  function WithThree(s: set<Block>, n: Block, yes: bool, third: bool): set<Block> {
    With(WithTwo(s, n, yes), n + 2, third)
  }

  /** The second set has more blocks, all new. */
  ghost predicate Sprouts(dead: set<Block>, dead': set<Block>, n: Block) {
    dead <= dead' && forall x {:trigger x in dead'} :: x in dead' && x !in dead ==> x >= n
  }

  lemma SproutsTrans(dead: set<Block>, dead1: set<Block>, dead2: set<Block>, n: Block, n': Block)
    requires Sprouts(dead, dead1, n) && Sprouts(dead1, dead2, n') && n <= n'
    ensures Sprouts(dead, dead2, n)
  {
  }

  lemma WithThreeFacts(dead: set<Block>, n: Block, lost: bool, lostCont: bool)
    requires forall x {:trigger x in dead} :: x in dead ==> x < n
    ensures var dead' := WithThree(dead, n, lost, lostCont);
      Sprouts(dead, dead', n) && (n in dead' <==> lost) && (n + 1 in dead' <==> lost) && (n + 2 in dead' <==> lostCont)
  {
  }

  lemma WithTwoFacts(dead: set<Block>, n: Block, lost: bool)
    requires forall x {:trigger x in dead} :: x in dead ==> x < n
    ensures var dead' := WithTwo(dead, n, lost);
      Sprouts(dead, dead', n) && (n in dead' <==> lost) && (n + 1 in dead' <==> lost)
    ensures forall x {:trigger x in WithTwo(dead, n, lost)} :: x < n ==> (x in WithTwo(dead, n, lost) <==> x in dead)
  {
  }

  /** A new block is dead or to do. */
  lemma NewZones(b: Builder, dead: set<Block>, todo: set<Block>, tidy: bool, lost: bool)
    requires Good(b) && Zoned(b, dead, todo, tidy)
    ensures var n := b.nextBlock; Zoned(NewBlock(b), With(dead, n, lost), With(todo, n, !lost), tidy)
  {
    hide Live, Good;
    NoEdges(b, b.nextBlock);
    SteadyZones(b, NewBlock(b), dead, todo, With(dead, b.nextBlock, lost), With(todo, b.nextBlock, !lost), tidy);
  }

  lemma NoEdges(b: Builder, n: Block)
    requires Good(b) && n >= b.nextBlock
    ensures b.Succ(n) == [] && forall p {:trigger b.Succ(p)} :: n !in b.Succ(p)
  {
    hide NoRepeats, Open, Sealed;
    assert n !in b.code;
    assert b.Succ(n) == Targets(b.Code(n));
  }

  /** The current block, which had no successors, gets these. */
  ghost predicate Linked(b: Builder, b': Builder, ts: seq<Block>) {
    && b'.nextBlock == b.nextBlock && b.Succ(b.cur) == []
    && (forall x {:trigger x in b'.code} :: x in b'.code ==> x in b.code)
    && (forall x {:trigger b'.Succ(x)} :: b'.Succ(x) == if x == b.cur then ts else b.Succ(x))
  }

  function Except(todo: set<Block>, ts: seq<Block>): set<Block> {
    set x | x in todo && x !in ts
  }

  /** From a block that is reached no edge leads to a dead one; the blocks it leads to are reached, too. */
  lemma LinkedLive(b: Builder, b': Builder, ts: seq<Block>, dead: set<Block>, todo: set<Block>, tidy: bool)
    requires Zoned(b, dead, todo, tidy) && Linked(b, b', ts) && b.cur in b.code && b.cur !in dead && b.cur !in todo
    requires forall x {:trigger x in ts} :: x in ts ==> x !in dead
    ensures Zoned(b', dead, Except(todo, ts), tidy)
  {
    hide Live;
    var rest := Except(todo, ts);
    forall x | x in b'.code && x !in dead && x !in rest
      ensures Live(b', x)
    {
      if x in ts {
        LiveStays(b, b', b.cur);
        LiveNext(b', b.cur, x);
      } else {
        LiveStays(b, b', x);
      }
    }
    LinkedTidy(b, b', ts, dead);
  }

  lemma LinkedTidy(b: Builder, b': Builder, ts: seq<Block>, dead: set<Block>)
    requires Linked(b, b', ts) && (b.cur in dead ==> forall x {:trigger x in ts} :: x in ts ==> x in dead)
    ensures (forall p, j {:trigger j in b.Succ(p)} :: j in b.Succ(p) && p in dead ==> j in dead)
       <==> (forall p, j {:trigger j in b'.Succ(p)} :: j in b'.Succ(p) && p in dead ==> j in dead)
  {
    forall p, j
      ensures j in b.Succ(p) && p in dead && j !in dead <==> j in b'.Succ(p) && p in dead && j !in dead
    {
    }
  }

  /** From a dead block edges lead to dead ones. */
  lemma LinkedDead(b: Builder, b': Builder, ts: seq<Block>, dead: set<Block>, todo: set<Block>, tidy: bool)
    requires Zoned(b, dead, todo, tidy) && Linked(b, b', ts) && b.cur in dead
    requires forall x {:trigger x in ts} :: x in ts ==> x in dead
    ensures Zoned(b', dead, todo, tidy)
  {
    hide Live;
    forall x | x in b'.code && x !in dead && x !in todo
      ensures Live(b', x)
    {
      LiveStays(b, b', x);
    }
    LinkedTidy(b, b', ts, dead);
  }

  /** An edge from a dead block to one that is not. */
  lemma LinkedLost(b: Builder, b': Builder, t: Block, dead: set<Block>, todo: set<Block>, tidy: bool)
    requires Zoned(b, dead, todo, tidy) && Linked(b, b', [t]) && b.cur in dead && t !in dead
    ensures Zoned(b', dead, todo, false)
  {
    hide Live;
    forall x | x in b'.code && x !in dead && x !in todo
      ensures Live(b', x)
    {
      LiveStays(b, b', x);
    }
    assert b'.Succ(b.cur)[0] == t;
    assert t in b'.Succ(b.cur);
  }

  /** A block to do that has no edges is taken out. */
  lemma RemovedZones(b: Builder, x: Block, dead: set<Block>, todo: set<Block>, tidy: bool)
    requires Good(b) && Zoned(b, dead, todo, tidy) && x in b.code && b.code[x] == [] && b.Pred(x) == []
    ensures Zoned(RemoveBlock(b, x), dead, todo - {x}, tidy)
  {
    hide Live, Mirrored;
    RemovedSucc(b, x);
    SteadyZones(b, RemoveBlock(b, x), dead, todo, dead, todo - {x}, tidy);
  }

  lemma RemovedSucc(b: Builder, x: Block)
    requires Good(b) && x in b.code && b.code[x] == [] && b.Pred(x) == []
    ensures forall p {:trigger RemoveBlock(b, x).Succ(p)} {:trigger b.Succ(p)} :: RemoveBlock(b, x).Succ(p) == b.Succ(p)
  {
    hide Sealed, Open, NoRepeats;
    assert b.Succ(x) == Targets(b.Code(x)) == [];
    forall p
      ensures RemoveBlock(b, x).Succ(p) == b.Succ(p)
    {
      RemoveNeighbours(b, x, p);
    }
  }

  // ----- expressions -----

  /** The dead blocks once more has been lowered: what is lowered in dead code is dead. */
  function DeadTo(b: Builder, b': Builder, dead: set<Block>): set<Block> {
    if b.cur in dead then dead + (b'.code.Keys - b.code.Keys) else dead
  }

  /** More has been lowered in code that is all reached or all dead. */
  ghost predicate Zones(b: Builder, b': Builder, dead: set<Block>, todo: set<Block>, tidy: bool) {
    && Zoned(b', DeadTo(b, b', dead), todo, tidy) && b'.cur !in todo
    && (b'.cur in DeadTo(b, b', dead) <==> b.cur in dead)
  }

  lemma ZonesSelf(b: Builder, dead: set<Block>, todo: set<Block>, tidy: bool)
    requires Zoned(b, dead, todo, tidy) && b.cur !in todo
    ensures Zones(b, b, dead, todo, tidy)
  {
    hide Zoned;
    assert DeadTo(b, b, dead) == dead;
  }

  lemma ZonesTrans(b: Builder, b1: Builder, b2: Builder, dead: set<Block>, todo: set<Block>, tidy: bool)
    requires Zones(b, b1, dead, todo, tidy) && Zones(b1, b2, DeadTo(b, b1, dead), todo, tidy)
    requires b.code.Keys <= b1.code.Keys <= b2.code.Keys
    ensures Zones(b, b2, dead, todo, tidy)
  {
    hide Zoned;
    assert DeadTo(b1, b2, DeadTo(b, b1, dead)) == DeadTo(b, b2, dead);
  }

  lemma ZonesSame(b: Builder, b1: Builder, b2: Builder, dead: set<Block>, todo: set<Block>, tidy: bool)
    requires Zones(b, b1, dead, todo, tidy) && SameEdges(b1, b2) && b2.cur == b1.cur
    ensures Zones(b, b2, dead, todo, tidy)
  {
    hide Zoned;
    SameZones(b1, b2, DeadTo(b, b1, dead), todo, tidy);
    assert DeadTo(b, b2, dead) == DeadTo(b, b1, dead);
  }

  /** Instructions that branch nowhere. */
  lemma AppendEdges(b: Builder, i: Instr)
    requires b.cur in b.code
    ensures SameEdges(b, Append(b, i)) && Append(b, i).cur == b.cur && Append(b, i).code.Keys == b.code.Keys
  {
  }

  lemma KeptBlocks(b: Builder, b': Builder)
    requires Kept(b, b')
    ensures b.code.Keys <= b'.code.Keys
  {
    assert forall x :: x in b.code ==> x in b'.code;
  }

  /** A test and a conditional branch to two blocks that are dead just when the current one is. */
  lemma ForkZones(b: Builder, op: string, o: Operand, t: Block, f: Block, dead: set<Block>, todo: set<Block>,
                  tidy: bool)
    requires Ready(b) && Zoned(b, dead, todo, tidy) && b.cur !in todo && t != f && t in b.code && f in b.code
    requires (t in dead <==> b.cur in dead) && (f in dead <==> b.cur in dead)
    ensures Zoned(Forked(b, op, o, t, f), dead, Except(todo, [f, t]), tidy)
  {
    hide Zoned, Good, Open, EmitCondBr, Append, SameEdges, Linked;
    var n := EmitOp(b, op, [o, Const(0)], Int);
    ReadyCur(b);
    AppendGrows(b, Op(b.nextId, op, [o, Const(0)]));
    AppendEdges(b, Op(b.nextId, op, [o, Const(0)]));
    SameZones(b, n.b, dead, todo, tidy);
    assert t in n.b.code.Keys && f in n.b.code.Keys;
    var b' := EmitCondBr(n.b, n.o, t, f);
    CondBrLinked(n.b, n.o, t, f);
    assert forall x {:trigger x in [f, t]} :: x in [f, t] <==> x == f || x == t;
    if b.cur in dead {
      LinkedDead(n.b, b', [f, t], dead, todo, tidy);
      DeadNotTodo(b, dead, todo, tidy);
      assert Except(todo, [f, t]) == todo;
    } else {
      LinkedLive(n.b, b', [f, t], dead, todo, tidy);
    }
    SameZones(b', SetInsert(b', t), dead, Except(todo, [f, t]), tidy);
  }

  lemma DeadNotTodo(b: Builder, dead: set<Block>, todo: set<Block>, tidy: bool)
    requires Zoned(b, dead, todo, tidy)
    ensures dead !! todo && forall x {:trigger x in dead} {:trigger x in todo} ::
      x in dead || x in todo ==> x < b.nextBlock
  {
  }

  lemma CondBrLinked(b: Builder, c: Operand, t: Block, f: Block)
    requires Ready(b) && t in b.code && f in b.code && t != f
    ensures Linked(b, EmitCondBr(b, c, t, f), [f, t]) && b.cur in b.code
    ensures SameEdges(EmitCondBr(b, c, t, f), SetInsert(EmitCondBr(b, c, t, f), t))
  {
    hide SameBlocks, Targets, Open;
    OpenNoSucc(b);
    CondBrNeighbours(b, c, t, f);
  }

  /** Two new blocks, both dead or both to do. */
  lemma TwoZones(b: Builder, dead: set<Block>, todo: set<Block>, tidy: bool)
    requires Ready(b) && Zoned(b, dead, todo, tidy)
    ensures var n, lost, b' := b.nextBlock, b.cur in dead, NewBlock(NewBlock(b));
      && Ready(b') && b'.cur == b.cur && b'.code.Keys == b.code.Keys + {n, n + 1} && b'.nextBlock == n + 2
      && b'.scope == b.scope
      && n !in b.code && n + 1 !in b.code && b.cur in b.code
      && Zoned(b', WithTwo(dead, n, lost), WithTwo(todo, n, !lost), tidy)
  {
    hide Zoned, Grows, Open, Mirrored;
    var n, lost, b1 := b.nextBlock, b.cur in dead, NewBlock(b);
    GrowsSelf(b);
    GrowsNewBlock(b, b, {});
    GrowsFacts(b, b1, {} + {n});
    NewZones(b, dead, todo, tidy, lost);
    NewZones(b1, With(dead, n, lost), With(todo, n, !lost), tidy, lost);
    GrowsSelf(b1);
    GrowsNewBlock(b1, b1, {});
    NotIn(b, n);
    NotIn(b, n + 1);
  }

  /** Two new blocks, to which a test branches: dead if the code before is dead, and reached if it is. */
  lemma ForkNew(b: Builder, k: Builder, op: string, o: Operand, dead: set<Block>, todo: set<Block>, tidy: bool)
    requires Ready(b) && Zoned(b, dead, todo, tidy) && b.cur !in todo
    requires Ready(k) && SameEdges(NewBlock(NewBlock(b)), k) && k.cur == b.cur
    ensures var n, c := b.nextBlock, b.nextBlock + 1; var b2 := Forked(k, op, o, n, c);
      && Zoned(b2, WithTwo(dead, n, b.cur in dead), todo, tidy) && b2.cur == n && n !in todo && c !in todo
      && b2.code.Keys == b.code.Keys + {n, c} && n !in b.code && c !in b.code && b2.nextBlock == n + 2
      && (b.cur !in dead ==> n !in dead && c !in dead)
  {
    hide Zoned, Grows, Good, Open, Forked, NewBlock;
    var n, c := b.nextBlock, b.nextBlock + 1;
    DeadNotTodo(b, dead, todo, tidy);
    TwoZones(b, dead, todo, tidy);
    var b1, dead1 := NewBlock(NewBlock(b)), WithTwo(dead, n, b.cur in dead);
    var todo1 := WithTwo(todo, n, b.cur !in dead);
    SameZones(b1, k, dead1, todo1, tidy);
    assert n in k.code.Keys && c in k.code.Keys && b.cur !in {n, c};
    ForkZones(k, op, o, n, c, dead1, todo1, tidy);
    assert Except(todo1, [c, n]) == todo;
    ForkedBlocks(k, op, o, n, c);
  }

  lemma CheckForked(b: Builder, o: Operand, ty: Ty, dead: set<Block>, todo: set<Block>, tidy: bool)
    requires Ready(b) && Zoned(b, dead, todo, tidy) && b.cur !in todo
    ensures var e, c, k := b.nextBlock, b.nextBlock + 1, Index(b, o, ty); var b2 := Forked(k.b, "icmp_lt", k.o, e, c);
      && Zoned(b2, WithTwo(dead, e, b.cur in dead), todo, tidy) && b2.cur == e && c !in todo
      && b2.code.Keys == b.code.Keys + {e, c} && e !in b.code && c !in b.code && (b.cur !in dead ==> c !in dead)
  {
    hide Zoned, Ready, Grows, Forked, Index, SameEdges;
    IndexReady(b, o, ty);
    IndexEdges(b, o, ty);
    var k := Index(b, o, ty);
    ForkNew(b, k.b, "icmp_lt", k.o, dead, todo, tidy);
  }

  /** Both blocks of the check of an index are reached if the check is. */
  lemma CheckZoned(b: Builder, o: Operand, ty: Ty, dead: set<Block>, todo: set<Block>, tidy: bool)
    requires Ready(b) && Zoned(b, dead, todo, tidy) && b.cur !in todo
    ensures Zones(b, LowerCheck(b, o, ty).b, dead, todo, tidy)
  {
    hide Zoned, Ready, Forked, LowerNegative, Index, SameEdges;
    var e, c, k := b.nextBlock, b.nextBlock + 1, Index(b, o, ty);
    CheckForked(b, o, ty, dead, todo, tidy);
    var b2 := Forked(k.b, "icmp_lt", k.o, e, c);
    assert b2.cur in b2.code.Keys;
    NegativeEdges(b2, c);
    var b4 := SetInsert(LowerNegative(b2), c);
    SameZones(b2, b4, WithTwo(dead, e, b.cur in dead), todo, tidy);
    assert b.cur in dead ==> dead + (b4.code.Keys - b.code.Keys) == WithTwo(dead, e, true);
  }

  lemma IndexEdges(b: Builder, o: Operand, ty: Ty)
    requires Ready(b)
    ensures SameEdges(NewBlock(NewBlock(b)), Index(b, o, ty).b)
    ensures Index(b, o, ty).b.code.Keys == NewBlock(NewBlock(b)).code.Keys
  {
  }

  lemma ForkedBlocks(b: Builder, op: string, o: Operand, t: Block, f: Block)
    requires b.cur in b.code && t in b.code
    ensures var b' := Forked(b, op, o, t, f); b'.code.Keys == b.code.Keys && b'.cur == t && b'.nextBlock == b.nextBlock
  {
  }

  lemma NegativeEdges(b: Builder, c: Block)
    requires b.cur in b.code
    ensures SameEdges(b, SetInsert(LowerNegative(b), c)) && SetInsert(LowerNegative(b), c).code.Keys == b.code.Keys
  {
  }

  /** One more piece of an expression, lowered where the last one ended. */
  lemma ZonesMore(b: Builder, b1: Builder, b2: Builder, dead: set<Block>, todo: set<Block>, tidy: bool)
    requires Zones(b, b1, dead, todo, tidy) && Zones(b1, b2, DeadTo(b, b1, dead), todo, tidy) && Kept(b, b1)
    requires Kept(b1, b2)
    ensures Zones(b, b2, dead, todo, tidy)
  {
    hide Zones, Kept;
    KeptBlocks(b, b1);
    KeptBlocks(b1, b2);
    ZonesTrans(b, b1, b2, dead, todo, tidy);
  }

  /** What can follow when a piece has been lowered. */
  lemma ZonesNow(b: Builder, b1: Builder, dead: set<Block>, todo: set<Block>, tidy: bool)
    requires Zones(b, b1, dead, todo, tidy)
    ensures Zoned(b1, DeadTo(b, b1, dead), todo, tidy) && b1.cur !in todo
  {
  }

  lemma ZonesAppend(b: Builder, b1: Builder, i: Instr, dead: set<Block>, todo: set<Block>, tidy: bool)
    requires Zones(b, b1, dead, todo, tidy) && Ready(b1)
    ensures Zones(b, Append(b1, i), dead, todo, tidy)
  {
    hide Zones, Append;
    AppendEdges(b1, i);
    ZonesSame(b, b1, Append(b1, i), dead, todo, tidy);
  }

  lemma {:induction false} ExprZoned(b: Builder, e: Expr, dead: set<Block>, todo: set<Block>, tidy: bool)
    requires Ready(b) && Addressed(b.scope) && Zoned(b, dead, todo, tidy) && b.cur !in todo
    ensures Zones(b, LowerExpr(b, e).b, dead, todo, tidy)
    decreases e, 2
  {
    hide Zones, Zoned, Kept, Ready, Addressed, LowerPlace, LowerRef, LowerPair, LowerArgs, Append, DeadTo;
    ZonesSelf(b, dead, todo, tidy);
    match e
    case Num(_, _) =>
    case Ref(v) => RefZoned(b, v, dead, todo, tidy);
    case Paren(inner) => ExprZoned(b, inner, dead, todo, tidy);
    case Assign(d, rhs) => AssignZoned(b, d, rhs, dead, todo, tidy);
    case Relation(op, _, _) =>
      PairZoned(b, e, dead, todo, tidy);
      PairKept(b, e);
      var p := LowerPair(b, e);
      KeptFacts(b, p.b);
      var i := Op(p.b.nextId, RelName(op, p.isInt), [p.x, p.y]);
      ZonesAppend(b, p.b, i, dead, todo, tidy);
      AppendOne(b, p.b, i);
      KeptFacts(b, Append(p.b, i));
      ZonesAppend(b, Append(p.b, i), Op(Append(p.b, i).nextId, ZEXT, [Reg(p.b.nextId)]), dead, todo, tidy);
    case Arith(op, _, _) =>
      PairZoned(b, e, dead, todo, tidy);
      PairKept(b, e);
      var p := LowerPair(b, e);
      KeptFacts(b, p.b);
      ZonesAppend(b, p.b, Op(p.b.nextId, ArithName(op, p.isInt), [p.x, p.y]), dead, todo, tidy);
    case CallFun(id, args) =>
      match Lookup<Symbol>(b.scope, id) {
        case Some(Callee(name, ret, params)) =>
          ArgsZoned(b, args, params, dead, todo, tidy);
          ArgsKept(b, args, params);
          var a := LowerArgs(b, args, params);
          KeptFacts(b, a.b);
          ZonesAppend(b, a.b, Call(a.b.nextId, name, a.os), dead, todo, tidy);
        case _ => ZonesSame(b, b, Abort(b), dead, todo, tidy);
      }
  }

  lemma {:induction false} AssignZoned(b: Builder, d: VarRef, rhs: Expr, dead: set<Block>, todo: set<Block>, tidy: bool)
    requires Ready(b) && Addressed(b.scope) && Zoned(b, dead, todo, tidy) && b.cur !in todo
    ensures Zones(b, LowerExpr(b, Assign(d, rhs)).b, dead, todo, tidy)
    decreases Assign(d, rhs), 1
  {
    hide Zones, Zoned, Kept, Ready, Addressed, LowerPlace, DeadTo, Append;
    ExprZoned(b, rhs, dead, todo, tidy);
    ExprKept(b, rhs);
    var x := LowerExpr(b, rhs);
    KeptFacts(b, x.b);
    ZonesNow(b, x.b, dead, todo, tidy);
    PlaceZoned(x.b, d, DeadTo(b, x.b, dead), todo, tidy);
    PlaceKept(x.b, d);
    var p := LowerPlace(x.b, d);
    ZonesMore(b, x.b, p.b, dead, todo, tidy);
    KeptTrans(b, x.b, p.b);
    KeptFacts(b, p.b);
    CoerceKept(b, p.b, x.o, x.ty);
    CoerceZones(b, p.b, x.o, x.ty, dead, todo, tidy);
    var y := if p.held == One(x.ty) then Tmp(p.b, x.o, x.ty) else Coerce(p.b, x.o, x.ty);
    KeptFacts(b, y.b);
    ZonesAppend(b, y.b, Store(y.b.nextId, y.o, p.o), dead, todo, tidy);
  }

  lemma CoerceZones(b: Builder, b1: Builder, o: Operand, ty: Ty, dead: set<Block>, todo: set<Block>, tidy: bool)
    requires Zones(b, b1, dead, todo, tidy) && Ready(b1)
    ensures Zones(b, Coerce(b1, o, ty).b, dead, todo, tidy)
  {
    hide Zones, Ready, Append;
    ZonesAppend(b, b1, Op(b1.nextId, SITOFP, [o]), dead, todo, tidy);
    ZonesAppend(b, b1, Op(b1.nextId, FPTOSI, [o]), dead, todo, tidy);
  }

  lemma {:induction false} RefZoned(b: Builder, v: VarRef, dead: set<Block>, todo: set<Block>, tidy: bool)
    requires Ready(b) && Addressed(b.scope) && Zoned(b, dead, todo, tidy) && b.cur !in todo
    ensures Zones(b, LowerRef(b, v).b, dead, todo, tidy)
    decreases v, 1
  {
    hide Zones, Zoned, Kept, Ready, Addressed, LowerPlace, Append;
    PlaceZoned(b, v, dead, todo, tidy);
    PlaceKept(b, v);
    var p := LowerPlace(b, v);
    KeptFacts(b, p.b);
    ZonesAppend(b, p.b, Load(p.b.nextId, p.o), dead, todo, tidy);
    ZonesAppend(b, p.b, Gep(p.b.nextId, [p.o, Const(0), Const(0)]), dead, todo, tidy);
  }

  lemma {:induction false} PlaceZoned(b: Builder, v: VarRef, dead: set<Block>, todo: set<Block>, tidy: bool)
    requires Ready(b) && Addressed(b.scope) && Zoned(b, dead, todo, tidy) && b.cur !in todo
    ensures Zones(b, LowerPlace(b, v).b, dead, todo, tidy)
    decreases v, 0
  {
    hide Zones, Zoned, Kept, Ready, Addressed, LowerCheck, LowerElement, DeadTo;
    ZonesSelf(b, dead, todo, tidy);
    match Lookup<Symbol>(b.scope, v.id) {
      case Some(Var(addr, held)) =>
        if v.index.Some? {
          ExprZoned(b, v.index.value, dead, todo, tidy);
          ExprKept(b, v.index.value);
          var x := LowerExpr(b, v.index.value);
          KeptFacts(b, x.b);
          ZonesNow(b, x.b, dead, todo, tidy);
          CheckZoned(x.b, x.o, x.ty, DeadTo(b, x.b, dead), todo, tidy);
          CheckKept(x.b, x.o, x.ty);
          var k := LowerCheck(x.b, x.o, x.ty);
          ZonesMore(b, x.b, k.b, dead, todo, tidy);
          KeptFacts(x.b, k.b);
          ElementZones(b, k.b, addr, held, k.o, dead, todo, tidy);
        }
      case _ => ZonesSame(b, b, Abort(b), dead, todo, tidy);
    }
  }

  lemma ElementZones(b: Builder, b1: Builder, addr: Operand, held: Held, k: Operand, dead: set<Block>, todo: set<Block>,
                     tidy: bool)
    requires Zones(b, b1, dead, todo, tidy) && Ready(b1)
    ensures Zones(b, LowerElement(b1, addr, held, k).b, dead, todo, tidy)
  {
    hide Zones, Ready, Append, Kept;
    match held {
      case One(t) =>
        var i := Load(b1.nextId, addr);
        ZonesAppend(b, b1, i, dead, todo, tidy);
        SelfKept(b1);
        AppendOne(b1, b1, i);
        KeptFacts(b1, Append(b1, i));
        ZonesAppend(b, Append(b1, i), Gep(Append(b1, i).nextId, [Reg(b1.nextId), k]), dead, todo, tidy);
        ZonesAppend(b, b1, Gep(b1.nextId, [addr, k]), dead, todo, tidy);
      case Many(t) =>
        ZonesAppend(b, b1, Gep(b1.nextId, [addr, Const(0), k]), dead, todo, tidy);
    }
  }

  lemma {:induction false} PairZoned(b: Builder, e: Expr, dead: set<Block>, todo: set<Block>, tidy: bool)
    requires Ready(b) && Addressed(b.scope) && (e.Relation? || e.Arith?) && Zoned(b, dead, todo, tidy) && b.cur !in todo
    ensures Zones(b, LowerPair(b, e).b, dead, todo, tidy)
    decreases e, 1
  {
    hide Zones, Zoned, Kept, Ready, Addressed, DeadTo, Append;
    ExprZoned(b, e.l, dead, todo, tidy);
    ExprKept(b, e.l);
    var l := LowerExpr(b, e.l);
    KeptFacts(b, l.b);
    ZonesNow(b, l.b, dead, todo, tidy);
    ExprZoned(l.b, e.r, DeadTo(b, l.b, dead), todo, tidy);
    ExprKept(l.b, e.r);
    var r := LowerExpr(l.b, e.r);
    ZonesMore(b, l.b, r.b, dead, todo, tidy);
    KeptFacts(l.b, r.b);
    ZonesAppend(b, r.b, Op(r.b.nextId, SITOFP, [l.o]), dead, todo, tidy);
    ZonesAppend(b, r.b, Op(r.b.nextId, SITOFP, [r.o]), dead, todo, tidy);
  }

  lemma {:induction false} ArgsZoned(b: Builder, args: seq<Expr>, params: seq<Ty>, dead: set<Block>, todo: set<Block>,
                                     tidy: bool)
    requires Ready(b) && Addressed(b.scope) && Zoned(b, dead, todo, tidy) && b.cur !in todo
    ensures Zones(b, LowerArgs(b, args, params).b, dead, todo, tidy)
    decreases args, 0
  {
    hide Zones, Zoned, Kept, Ready, Addressed, DeadTo, Coerce;
    ZonesSelf(b, dead, todo, tidy);
    ZonesSame(b, b, Abort(b), dead, todo, tidy);
    if args != [] {
      ExprZoned(b, args[0], dead, todo, tidy);
      ExprKept(b, args[0]);
      var x := LowerExpr(b, args[0]);
      KeptFacts(b, x.b);
      ZonesSame(b, x.b, Abort(x.b), dead, todo, tidy);
      CoerceZones(b, x.b, x.o, x.ty, dead, todo, tidy);
      SelfKept(x.b);
      KeptTrans(b, x.b, Abort(x.b));
      CoerceKept(b, x.b, x.o, x.ty);
      var y :=
        if params == [] then Tmp(Abort(x.b), x.o, x.ty)
        else if !IsPtr(x.ty) && params[0] != x.ty then Coerce(x.b, x.o, x.ty)
        else x;
      KeptFacts(b, y.b);
      var rest := if params == [] then [] else params[1..];
      ZonesNow(b, y.b, dead, todo, tidy);
      ArgsZoned(y.b, args[1..], rest, DeadTo(b, y.b, dead), todo, tidy);
      ArgsKept(y.b, args[1..], rest);
      ZonesMore(b, y.b, LowerArgs(y.b, args[1..], rest).b, dead, todo, tidy);
    }
  }

  // ----- statements -----

  /** Where the builder stands, in terms of the flow. */
  ghost predicate Standing(b: Builder, dead: set<Block>, flow: Flow) {
    (flow == Ends <==> b.Terminated()) && (flow == Goes ==> b.cur !in dead) && (flow == Lost ==> b.cur in dead)
  }

  /** A statement has been lowered; new blocks may be dead. */
  ghost predicate Arrives(b: Builder, b': Builder, dead: set<Block>, dead': set<Block>, todo: set<Block>, tidy: bool,
                          flow: Flow) {
    && Zoned(b', dead', todo, tidy) && b'.cur !in todo && Standing(b', dead', flow) && Sprouts(dead, dead', b.nextBlock)
  }

  lemma ArrivesFacts(b: Builder, b': Builder, dead: set<Block>, dead': set<Block>, todo: set<Block>, tidy: bool,
                     flow: Flow)
    requires Arrives(b, b', dead, dead', todo, tidy, flow)
    ensures Zoned(b', dead', todo, tidy) && b'.cur !in todo && Standing(b', dead', flow)
    ensures Sprouts(dead, dead', b.nextBlock)
    ensures forall x {:trigger x in dead'} {:trigger x in dead} :: x < b.nextBlock ==> (x in dead' <==> x in dead)
  {
  }

  /** In dead code nothing is reached. */
  lemma {:induction false} NeverGoes(st: Stmt)
    ensures After(st, false) != Goes
    decreases st, 1
  {
    match st
    case Compound(_, sts) => NeverGoesAll(sts);
    case If(_, t, Some(f)) =>
      NeverGoes(t);
      NeverGoes(f);
    case _ =>
  }

  lemma {:induction false} NeverGoesAll(sts: seq<Stmt>)
    ensures AfterAll(sts, false) != Goes
    decreases sts, 0
  {
    if sts != [] {
      NeverGoes(sts[0]);
      NeverGoesAll(sts[1..]);
    }
  }

  lemma ArrivesTrans(b: Builder, b1: Builder, b2: Builder, dead: set<Block>, dead1: set<Block>, dead2: set<Block>,
                     todo: set<Block>, tidy: bool, tidy': bool, flow: Flow, flow': Flow)
    requires Arrives(b, b1, dead, dead1, todo, tidy, flow) && Arrives(b1, b2, dead1, dead2, todo, tidy', flow')
    requires b.nextBlock <= b1.nextBlock
    ensures Arrives(b, b2, dead, dead2, todo, tidy', flow')
  {
    hide Zoned, Standing;
  }

  /** A statement that goes on in a block of its own. */
  lemma Arrived(b: Builder, b': Builder, dead: set<Block>, dead1: set<Block>, dead': set<Block>, todo: set<Block>,
                tidy: bool, flow: Flow, n: Block)
    requires Zoned(b', dead', todo, tidy) && b'.cur !in todo && Good(b') && !Sealed(b'.code[b'.cur])
    requires flow != Ends && (flow == Lost <==> b'.cur in dead')
    requires Sprouts(dead, dead1, b.nextBlock) && Sprouts(dead1, dead', n) && b.nextBlock <= n
    ensures Arrives(b, b', dead, dead', todo, tidy, flow)
  {
    hide Zoned, Sealed, Mirrored, Open;
    ReadyTerminated(b');
  }

  /** An expression, and what it is followed by without leaving the block. */
  lemma ZonesArrive(b: Builder, b': Builder, dead: set<Block>, todo: set<Block>, tidy: bool)
    requires Zones(b, b', dead, todo, tidy) && Kept(b, b')
    ensures Arrives(b, b', dead, DeadTo(b, b', dead), todo, tidy, if b.cur !in dead then Goes else Lost)
  {
    hide Zoned, Good, Open, Longer;
    KeptReady(b, b');
    forall x | x in DeadTo(b, b', dead) && x !in dead
      ensures x >= b.nextBlock
    {
      assert x in b'.code.Keys && x !in b.code.Keys;
    }
  }

  lemma KeptReady(b: Builder, b': Builder)
    requires Kept(b, b')
    ensures Ready(b') && !b'.Terminated()
  {
    hide Grows, Open, Sealed, Mirrored;
    ReadyTerminated(b');
  }

  lemma BrLinked(b: Builder, t: Block)
    requires Ready(b) && t in b.code
    ensures Linked(b, EmitBr(b, t), [t]) && b.cur in b.code && EmitBr(b, t).nextBlock == b.nextBlock
  {
    hide SameBlocks, Targets, Open;
    OpenNoSucc(b);
    BrNeighbours(b, t);
  }

  lemma BrCode(b: Builder, t: Block)
    requires b.cur in b.code
    ensures EmitBr(b, t).nextBlock == b.nextBlock && EmitBr(b, t).code.Keys == b.code.Keys && EmitBr(b, t).cur == b.cur
  {
  }

  /** The branch at the end of an arm or a body, unless it has ended. */
  lemma BranchZoned(b: Builder, t: Block, dead: set<Block>, todo: set<Block>, tidy: bool, flow: Flow)
    requires Good(b) && t in b.code && Zoned(b, dead, todo, tidy) && b.cur !in todo && Standing(b, dead, flow)
    requires (flow == Goes ==> t !in dead)
    ensures Zoned(BranchTo(b, t), dead, if flow == Goes then todo - {t} else todo, tidy && (flow == Lost ==> t in dead))
    ensures BranchTo(b, t).nextBlock == b.nextBlock
  {
    hide Zoned, Good, Open, EmitBr, Linked;
    if flow != Ends {
      ReadyTerminated(b);
      var b' := EmitBr(b, t);
      BrLinked(b, t);
      assert forall x {:trigger x in [t]} :: x in [t] <==> x == t;
      if flow == Goes {
        LinkedLive(b, b', [t], dead, todo, tidy);
        assert Except(todo, [t]) == todo - {t};
      } else if t in dead {
        LinkedDead(b, b', [t], dead, todo, tidy);
      } else {
        LinkedLost(b, b', t, dead, todo, tidy);
      }
    }
  }

  /** Lowering a statement leads to where the source says, in code that is reached or not. */
  lemma {:induction false} StmtZoned(b: Builder, st: Stmt, dead: set<Block>, todo: set<Block>, tidy: bool)
    returns (dead': set<Block>)
    requires Ready(b) && Addressed(b.scope) && Zoned(b, dead, todo, tidy) && b.cur !in todo
    ensures Arrives(b, LowerStmt(b, st), dead, dead', todo, tidy && Tidy(st, b.cur !in dead), After(st, b.cur !in dead))
    decreases st, 3
  {
    hide Arrives, Zoned, Ready, Kept, Addressed, Zones, LowerExpr, LowerIf, LowerWhile, DeadTo, Append;
    dead' := dead;
    match st
    case Compound(ds, sts) => dead' := CompoundZoned(b, ds, sts, dead, todo, tidy);
    case ExprStmt(None) =>
      ZonesSelf(b, dead, todo, tidy);
      SelfKept(b);
      ZonesArrive(b, b, dead, todo, tidy);
      dead' := DeadTo(b, b, dead);
    case ExprStmt(Some(e)) =>
      ExprZoned(b, e, dead, todo, tidy);
      ExprKept(b, e);
      ZonesArrive(b, LowerExpr(b, e).b, dead, todo, tidy);
      dead' := DeadTo(b, LowerExpr(b, e).b, dead);
    case If(c, t, None) => dead' := IfZoned(b, c, t, dead, todo, tidy);
    case If(c, t, Some(f)) => dead' := IfElseZoned(b, c, t, f, dead, todo, tidy);
    case While(c, body) => dead' := WhileZoned(b, c, body, dead, todo, tidy);
    case Return(None) =>
      ZonesSelf(b, dead, todo, tidy);
      SelfKept(b);
      RetZoned(b, b, [], dead, todo, tidy);
      dead' := DeadTo(b, b, dead);
    case Return(Some(e)) =>
      ExprZoned(b, e, dead, todo, tidy);
      ExprKept(b, e);
      var x := LowerExpr(b, e);
      KeptFacts(b, x.b);
      ZonesAppend(b, x.b, Op(x.b.nextId, FPTOSI, [x.o]), dead, todo, tidy);
      ZonesAppend(b, x.b, Op(x.b.nextId, SITOFP, [x.o]), dead, todo, tidy);
      AppendOne(b, x.b, Op(x.b.nextId, FPTOSI, [x.o]));
      AppendOne(b, x.b, Op(x.b.nextId, SITOFP, [x.o]));
      var y := LowerReturned(x.b, x.o, x.ty);
      RetZoned(b, y.b, [y.o], dead, todo, tidy);
      dead' := DeadTo(b, y.b, dead);
  }

  lemma RetZoned(b: Builder, b1: Builder, args: seq<Operand>, dead: set<Block>, todo: set<Block>, tidy: bool)
    requires Ready(b) && Zones(b, b1, dead, todo, tidy) && Kept(b, b1)
    ensures Arrives(b, EmitRet(b1, args), dead, DeadTo(b, b1, dead), todo, tidy, Ends)
  {
    hide Zoned, Ready, Kept;
    ZonesArrive(b, b1, dead, todo, tidy);
    KeptFacts(b, b1);
    ReadyCur(b1);
    AppendEdges(b1, Instr.Ret(b1.nextId, args));
    SameZones(b1, EmitRet(b1, args), DeadTo(b, b1, dead), todo, tidy);
    RetDone(b, b1, args);
  }

  lemma ReadyCur(b: Builder)
    requires Ready(b)
    ensures b.cur in b.code && b.cur < b.nextBlock
  {
  }

  lemma {:induction false} DeclsEdges(b: Builder, ds: seq<VarDecl>)
    requires b.cur in b.code
    ensures SameEdges(b, LowerDecls(b, ds)) && LowerDecls(b, ds).cur == b.cur
    decreases |ds|
  {
    if ds != [] {
      DeclsEdges(LowerDecl(b, ds[0]), ds[1..]);
    }
  }

  lemma {:induction false} CompoundZoned(b: Builder, ds: seq<VarDecl>, sts: seq<Stmt>, dead: set<Block>,
                                         todo: set<Block>, tidy: bool)
    returns (dead': set<Block>)
    requires Ready(b) && Addressed(b.scope) && Zoned(b, dead, todo, tidy) && b.cur !in todo
    ensures var st := Compound(ds, sts);
      Arrives(b, LowerStmt(b, st), dead, dead', todo, tidy && Tidy(st, b.cur !in dead), After(st, b.cur !in dead))
    decreases sts, 1
  {
    hide Zoned, Ready, Addressed, Grows, LowerDecls, LowerAll, Standing;
    var b0 := b.(scope := b.scope + [map[]]);
    AddressedEnter(b.scope);
    Rescoped(b, b0);
    ReadyCur(b0);
    DeclsDeclared(b0, ds);
    DeclsEdges(b0, ds);
    var b1 := LowerDecls(b0, ds);
    SameZones(b, b1, dead, todo, tidy);
    dead' := AllZoned(b1, sts, dead, todo, tidy);
    var b2 := LowerAll(b1, sts);
    var b3 := b2.(scope := Leave(b2.scope));
    SameZones(b2, b3, dead', todo, tidy && TidyAll(sts, b.cur !in dead));
    SameStanding(b2, b3, dead', AfterAll(sts, b.cur !in dead));
  }

  lemma SameStanding(b: Builder, b': Builder, dead: set<Block>, flow: Flow)
    requires Standing(b, dead, flow) && b'.cur == b.cur && b'.code == b.code
    ensures Standing(b', dead, flow)
  {
  }

  lemma {:induction false} AllZoned(b: Builder, sts: seq<Stmt>, dead: set<Block>, todo: set<Block>, tidy: bool)
    returns (dead': set<Block>)
    requires Ready(b) && Addressed(b.scope) && Zoned(b, dead, todo, tidy) && b.cur !in todo
    ensures Arrives(b, LowerAll(b, sts), dead, dead', todo, tidy
                    && TidyAll(sts, b.cur !in dead), AfterAll(sts, b.cur !in dead))
    decreases sts, 0
  {
    hide Arrives, Zoned, Ready, Addressed, Kept, Done, LowerStmt;
    var live := b.cur !in dead;
    if sts == [] {
      ZonesSelf(b, dead, todo, tidy);
      SelfKept(b);
      ZonesArrive(b, b, dead, todo, tidy);
      dead' := DeadTo(b, b, dead);
    } else {
      var b1, flow, tidy1 := LowerStmt(b, sts[0]), After(sts[0], live), tidy && Tidy(sts[0], live);
      dead' := StmtZoned(b, sts[0], dead, todo, tidy);
      StmtDone(b, sts[0]);
      DoneFacts(b, b1);
      ArrivesFacts(b, b1, dead, dead', todo, tidy1, flow);
      if !b1.Terminated() {
        var dead1 := dead';
        dead' := AllZoned(b1, sts[1..], dead1, todo, tidy1);
        ArrivesTrans(b, b1, LowerAll(b1, sts[1..]), dead, dead1, dead', todo, tidy1, tidy1
                     && TidyAll(sts[1..], flow == Goes), flow,
                     AfterAll(sts[1..], flow == Goes));
      }
    }
  }

  // ----- loops -----

  lemma WhileStartZoned(b: Builder, dead: set<Block>, todo: set<Block>, tidy: bool)
    requires Ready(b) && Zoned(b, dead, todo, tidy) && b.cur !in todo
    ensures var b1, e := WhileStart(b), b.nextBlock;
      Zones(b, b1, dead, todo, tidy) && e in b1.code && b1.cur == e && e < b1.nextBlock && e !in todo && e !in dead
      && Sprouts(dead, DeadTo(b, b1, dead), e) && (e in DeadTo(b, b1, dead) <==> b.cur in dead)
  {
    hide Zoned, Grows, Open, Mirrored, EmitBr;
    var e, lost := b.nextBlock, b.cur in dead;
    var b1, dead1, todo1 := NewBlock(b), With(dead, e, lost), With(todo, e, !lost);
    NewZones(b, dead, todo, tidy, lost);
    DeadNotTodo(b, dead, todo, tidy);
    GrowsSelf(b);
    GrowsNewBlock(b, b, {});
    GrowsFacts(b, b1, {} + {e});
    ReadyTerminated(b1);
    BranchZoned(b1, e, dead1, todo1, tidy, if lost then Lost else Goes);
    assert todo + {e} - {e} == todo;
    NotIn(b, e);
    BrCode(b1, e);
    var b2 := BranchTo(b1, e);
    assert b2.code.Keys == b.code.Keys + {e} && e !in b.code;
    SameZones(b2, SetInsert(b2, e), dead1, todo, tidy);
    assert lost ==> dead + (b2.code.Keys - b.code.Keys) == dead1;
  }

  lemma EdgesSelf(b: Builder)
    ensures SameEdges(b, b)
  {
  }

  /** A condition, and a test with two new blocks to go to. */
  lemma {:induction false} TestZoned(b: Builder, c: Expr, dead: set<Block>, todo: set<Block>, tidy: bool)
    returns (dead': set<Block>)
    requires Ready(b) && Addressed(b.scope) && Zoned(b, dead, todo, tidy) && b.cur !in todo
    ensures var x := LowerExpr(b, c); var n := x.b.nextBlock;
      var b2 := Forked(NewBlock(NewBlock(x.b)), TestName(x.ty), x.o, n, n + 1);
      && Zoned(b2, dead', todo, tidy) && b2.cur == n && n !in todo && n + 1 !in todo && b2.nextBlock == n + 2
      && b.nextBlock <= n
      && Sprouts(dead, dead', b.nextBlock) && (n in dead' <==> b.cur in dead) && (n + 1 in dead' <==> b.cur in dead)
  {
    hide Zoned, Ready, Addressed, Kept, Forked, LowerExpr, NewBlock, WithTwo, Sprouts, Zones, DeadTo, SameEdges,
      Standing;
    ExprZoned(b, c, dead, todo, tidy);
    ExprKept(b, c);
    var x := LowerExpr(b, c);
    KeptFacts(b, x.b);
    var n, dead1, lost := x.b.nextBlock, DeadTo(b, x.b, dead), b.cur in dead;
    ZonesArrive(b, x.b, dead, todo, tidy);
    ZonesCur(b, x.b, dead, todo, tidy);
    ArrivesFacts(b, x.b, dead, dead1, todo, tidy, if lost then Lost else Goes);
    TwoZones(x.b, dead1, todo, tidy);
    EdgesSelf(NewBlock(NewBlock(x.b)));
    ForkNew(x.b, NewBlock(NewBlock(x.b)), TestName(x.ty), x.o, dead1, todo, tidy);
    dead' := WithTwo(dead1, n, lost);
    DeadNotTodo(x.b, dead1, todo, tidy);
    WithTwoFacts(dead1, n, lost);
    SproutsTrans(dead, dead1, dead', b.nextBlock, n);
  }

  lemma ZonesCur(b: Builder, b': Builder, dead: set<Block>, todo: set<Block>, tidy: bool)
    requires Zones(b, b', dead, todo, tidy)
    ensures b'.cur in DeadTo(b, b', dead) <==> b.cur in dead
  {
  }

  lemma {:induction false} WhileBodyZoned(b: Builder, c: Expr, dead: set<Block>, todo: set<Block>, tidy: bool)
    returns (dead': set<Block>)
    requires Ready(b) && Addressed(b.scope) && Zoned(b, dead, todo, tidy) && b.cur !in todo
    ensures var n, b2, e := LowerExpr(WhileStart(b), c).b.nextBlock, WhileBody(b, c), b.nextBlock;
      && Zoned(b2, dead', todo, tidy) && b2.cur == n && n !in todo && n + 1 !in todo && b2.nextBlock == n + 2 && e < n
      && e !in todo
      && Sprouts(dead, dead', e) && e in b2.code
      && (e in dead' <==> b.cur in dead) && (n in dead' <==> b.cur in dead) && (n + 1 in dead' <==> b.cur in dead)
  {
    hide Zoned, Ready, Addressed, Grows, WhileStart, WhileBody, Forked, LowerExpr, NewBlock, Sprouts, Zones, DeadTo;
    WhileStarted(b, c);
    WhileBodyForked(b, c);
    WhileStartZoned(b, dead, todo, tidy);
    var b1, e := WhileStart(b), b.nextBlock;
    var dead1 := DeadTo(b, b1, dead);
    ZonesNow(b, b1, dead, todo, tidy);
    ZonesCur(b, b1, dead, todo, tidy);
    dead' := TestZoned(b1, c, dead1, todo, tidy);
    SproutsFacts(dead1, dead', b1.nextBlock, e);
    SproutsTrans(dead, dead1, dead', e, b1.nextBlock);
  }

  // ----- conditionals -----

  /** The blocks of a conditional: the first two dead as the code before is, the last as is said. */
  lemma ThreeZones(b: Builder, dead: set<Block>, todo: set<Block>, tidy: bool, lost: bool, lostCont: bool)
    requires Ready(b) && Zoned(b, dead, todo, tidy)
    ensures var n, b' := b.nextBlock, NewBlock(NewBlock(NewBlock(b)));
      && Ready(b') && b'.cur == b.cur && b'.code.Keys == b.code.Keys + {n, n + 1, n + 2} && b'.nextBlock == n + 3
      && n !in b.code && n + 1 !in b.code && n + 2 !in b.code && b.cur in b.code
      && Zoned(b', WithThree(dead, n, lost, lostCont), WithThree(todo, n, !lost, !lostCont), tidy)
  {
    hide Zoned, Grows, Open, Mirrored;
    var n, b1, b2 := b.nextBlock, NewBlock(b), NewBlock(NewBlock(b));
    GrowsSelf(b);
    GrowsNewBlock(b, b, {});
    GrowsFacts(b, b1, {} + {n});
    GrowsSelf(b1);
    GrowsNewBlock(b1, b1, {});
    GrowsFacts(b1, b2, {} + {n + 1});
    GrowsSelf(b2);
    GrowsNewBlock(b2, b2, {});
    NewZones(b, dead, todo, tidy, lost);
    NewZones(b1, With(dead, n, lost), With(todo, n, !lost), tidy, lost);
    NewZones(b2, WithTwo(dead, n, lost), WithTwo(todo, n, !lost), tidy, lostCont);
    NotIn(b, n);
    NotIn(b, n + 1);
    NotIn(b, n + 2);
  }

  /** The test of a conditional. */
  lemma ForkThree(b: Builder, op: string, o: Operand, hasElse: bool, dead: set<Block>, todo: set<Block>, tidy: bool,
                  lostCont: bool)
    requires Ready(b) && Zoned(b, dead, todo, tidy) && b.cur !in todo
    requires (b.cur in dead ==> lostCont) && (!hasElse ==> (lostCont <==> b.cur in dead))
    ensures var n, lost := b.nextBlock, b.cur in dead;
      var b1 := Forked(NewBlock(NewBlock(NewBlock(b))), op, o, n, if hasElse then n + 1 else n + 2);
      && Zoned(b1, WithThree(dead, n, lost, lostCont),
               With(With(todo, n + 1, !hasElse && !lost), n + 2, hasElse && !lostCont), tidy)
      && b1.cur == n && b1.nextBlock == n + 3 && n + 1 in b1.code && n + 2 in b1.code
      && n !in todo && n + 1 !in todo && n + 2 !in todo
  {
    hide Zoned, Good, Open, Forked, NewBlock;
    var n, lost, b0 := b.nextBlock, b.cur in dead, NewBlock(NewBlock(NewBlock(b)));
    var f := if hasElse then n + 1 else n + 2;
    DeadNotTodo(b, dead, todo, tidy);
    ThreeZones(b, dead, todo, tidy, lost, lostCont);
    var dead', todo' := WithThree(dead, n, lost, lostCont), WithThree(todo, n, !lost, !lostCont);
    assert n in b0.code.Keys && f in b0.code.Keys && n + 1 in b0.code.Keys && n + 2 in b0.code.Keys;
    ForkZones(b0, op, o, n, f, dead', todo', tidy);
    ForkedBlocks(b0, op, o, n, f);
    assert Except(todo', [f, n]) == With(With(todo, n + 1, !hasElse && !lost), n + 2, hasElse && !lostCont);
    var b1 := Forked(b0, op, o, n, f);
    assert n + 1 in b1.code.Keys && n + 2 in b1.code.Keys;
  }

  /** The start of a conditional: its arms are reached if the condition is; without a second arm that block is still
      to do, and so may be the block that follows. */
  lemma {:induction false} IfStartZoned(b: Builder, c: Expr, hasElse: bool, dead: set<Block>, todo: set<Block>,
                                        tidy: bool, lostCont: bool)
    returns (dead': set<Block>)
    requires Ready(b) && Addressed(b.scope) && Zoned(b, dead, todo, tidy) && b.cur !in todo
    requires (b.cur in dead ==> lostCont) && (!hasElse ==> (lostCont <==> b.cur in dead))
    ensures var n, b1 := LowerExpr(b, c).b.nextBlock, IfStart(b, c, hasElse);
      && Zoned(b1, dead', With(With(todo, n + 1, !hasElse && b.cur !in dead), n + 2, hasElse && !lostCont), tidy)
      && b1.cur == n && n !in todo && n + 1 !in todo && n + 2 !in todo && b1.nextBlock == n + 3
      && (n in dead' <==> b.cur in dead) && (n + 1 in dead' <==> b.cur in dead) && (n + 2 in dead' <==> lostCont)
      && Sprouts(dead, dead', b.nextBlock) && n + 1 in b1.code && n + 2 in b1.code
  {
    hide Zoned, Ready, Addressed, Kept, Forked, LowerExpr, NewBlock, Zones, DeadTo, WithThree, With, Sprouts, IfStart;
    ExprZoned(b, c, dead, todo, tidy);
    ExprKept(b, c);
    var x := LowerExpr(b, c);
    KeptFacts(b, x.b);
    var n, dead1, lost := x.b.nextBlock, DeadTo(b, x.b, dead), b.cur in dead;
    ZonesArrive(b, x.b, dead, todo, tidy);
    ArrivesFacts(b, x.b, dead, dead1, todo, tidy, if lost then Lost else Goes);
    DeadNotTodo(x.b, dead1, todo, tidy);
    ForkThree(x.b, TestName(x.ty), x.o, hasElse, dead1, todo, tidy, lostCont);
    IfStartForked(b, c, hasElse);
    dead' := WithThree(dead1, n, lost, lostCont);
    WithThreeFacts(dead1, n, lost, lostCont);
    SproutsTrans(dead, dead1, dead', b.nextBlock, n);
  }

  /** An arm of a conditional, and the branch at its end. */
  lemma {:induction false} ArmZoned(b: Builder, t: Stmt, cont: Block, dead: set<Block>, todo: set<Block>, tidy: bool)
    returns (dead': set<Block>)
    requires Ready(b) && Addressed(b.scope) && Zoned(b, dead, todo, tidy) && b.cur !in todo && cont in b.code
    requires After(t, b.cur !in dead) == Goes ==> cont !in dead
    ensures var flow := After(t, b.cur !in dead);
      && Zoned(BranchTo(LowerStmt(b, t), cont), dead', if flow == Goes then todo - {cont} else todo,
               tidy && Tidy(t, b.cur !in dead) && (flow == Lost ==> cont in dead))
      && Sprouts(dead, dead', b.nextBlock) && b.nextBlock <= BranchTo(LowerStmt(b, t), cont).nextBlock
    decreases t, 4
  {
    hide Zoned, Ready, Addressed, Grows, LowerStmt, BranchTo, After, Tidy, Standing, Sprouts;
    var flow := After(t, b.cur !in dead);
    dead' := StmtZoned(b, t, dead, todo, tidy);
    var b2 := LowerStmt(b, t);
    StmtDone(b, t);
    DoneFacts(b, b2);
    GrowsHas(b, b2, {}, cont);
    BlockKnown(b, cont);
    ArrivesFacts(b, b2, dead, dead', todo, tidy && Tidy(t, b.cur !in dead), flow);
    assert cont in dead' <==> cont in dead;
    BranchZoned(b2, cont, dead', todo, tidy && Tidy(t, b.cur !in dead), flow);
  }

  lemma BlockKnown(b: Builder, x: Block)
    requires Ready(b) && x in b.code
    ensures x < b.nextBlock
  {
  }

  lemma WhileFlow(c: Expr, body: Stmt, live: bool)
    ensures After(While(c, body), live) == if live then Goes else Lost
    ensures Tidy(While(c, body), live) <==> Tidy(body, live) && (live ==> After(body, live) != Lost)
  {
  }

  lemma IfFlow(c: Expr, t: Stmt, live: bool)
    ensures After(If(c, t, None), live) == if live then Goes else Lost
    ensures Tidy(If(c, t, None), live) <==> Tidy(t, live) && (live ==> After(t, live) != Lost)
  {
  }

  lemma IfElseFlow(c: Expr, t: Stmt, f: Stmt, live: bool)
    ensures var st, a1, a2 := If(c, t, Some(f)), After(t, live), After(f, live);
      && After(st, live) == (if a1 == Goes || a2 == Goes then Goes else Lost)
      && (Tidy(st, live) <==> Tidy(t, live) && Tidy(f, live) && (After(st, live) == Goes ==> a1 != Lost && a2 != Lost))
  {
  }

  lemma {:induction false} WhileZoned(b: Builder, c: Expr, body: Stmt, dead: set<Block>, todo: set<Block>, tidy: bool)
    returns (dead': set<Block>)
    requires Ready(b) && Addressed(b.scope) && Zoned(b, dead, todo, tidy) && b.cur !in todo
    ensures var st, live := While(c, body), b.cur !in dead;
      Arrives(b, LowerStmt(b, st), dead, dead', todo, tidy && Tidy(st, live), After(st, live))
    decreases While(c, body), 2
  {
    hide Zoned, Good, Ready, Addressed, Grows, WhileStart, WhileBody, LowerExpr, LowerStmt, BranchTo, Arrives, Sprouts,
      Done, Kept, After, Tidy;
    WhileFlow(c, body, b.cur !in dead);
    var live, e, n, b2 := b.cur !in dead, b.nextBlock, LowerExpr(WhileStart(b), c).b.nextBlock, WhileBody(b, c);
    WhileStarted(b, c);
    var dead2 := WhileBodyZoned(b, c, dead, todo, tidy);
    if !live {
      NeverGoes(body);
    }
    dead' := ArmZoned(b2, body, e, dead2, todo, tidy);
    assert todo - {e} == todo;
    WhileLast(b, c, body);
    var b4, tidy' := BranchTo(LowerStmt(b2, body), e), tidy && Tidy(While(c, body), live);
    SameZones(b4, SetInsert(b4, n + 1), dead', todo, tidy');
    WhileDone(b, c, body);
    SproutsFacts(dead2, dead', n + 2, n + 1);
    ReadyOpen(LowerStmt(b, While(c, body)));
    Arrived(b, LowerStmt(b, While(c, body)), dead, dead2, dead', todo, tidy', After(While(c, body), live), n + 2);
  }

  lemma SproutsFacts(dead: set<Block>, dead': set<Block>, n: Block, x: Block)
    requires Sprouts(dead, dead', n) && x < n
    ensures x in dead' <==> x in dead
  {
  }

  lemma ReadyOpen(b: Builder)
    requires Ready(b)
    ensures Good(b) && b.cur in b.code && !Sealed(b.code[b.cur])
  {
  }

  lemma {:induction false} IfZoned(b: Builder, c: Expr, t: Stmt, dead: set<Block>, todo: set<Block>, tidy: bool)
    returns (dead': set<Block>)
    requires Ready(b) && Addressed(b.scope) && Zoned(b, dead, todo, tidy) && b.cur !in todo
    ensures var st, live := If(c, t, None), b.cur !in dead;
      Arrives(b, LowerStmt(b, st), dead, dead', todo, tidy && Tidy(st, live), After(st, live))
    decreases If(c, t, None), 2
  {
    hide Zoned, Good, Addressed, Grows, IfStart, LowerExpr, LowerStmt, BranchTo, Open, Arrives, Sprouts, Done, Kept,
      RemoveBlock, After, Tidy;
    IfFlow(c, t, b.cur !in dead);
    var live, n, b1, st := b.cur !in dead, LowerExpr(b, c).b.nextBlock, IfStart(b, c, false), If(c, t, None);
    IfStarted(b, c, false);
    IfParts(b, c, t, None);
    var dead1 := IfStartZoned(b, c, false, dead, todo, tidy, !live);
    var todo1, tidy' := With(todo, n + 1, live), tidy && Tidy(st, live);
    if !live {
      NeverGoes(t);
    }
    dead' := ArmZoned(b1, t, n + 2, dead1, todo1, tidy);
    assert todo1 - {n + 2} == todo1;
    var b3 := IfEnd(b, c, t, None);
    GrowsFacts(b, b3, {n + 1, n + 2});
    TodoEmpty(b, b3, {n + 1, n + 2}, n + 1);
    RemovedZones(b3, n + 1, dead', todo1, tidy');
    assert todo1 - {n + 1} == todo;
    IfLast(b, c, t, None);
    var b4 := RemoveBlock(b3, n + 1);
    SameZones(b4, SetInsert(b4, n + 2), dead', todo, tidy');
    IfDone(b, c, t, None);
    SproutsFacts(dead1, dead', n + 3, n + 2);
    ReadyOpen(LowerStmt(b, st));
    Arrived(b, LowerStmt(b, st), dead, dead1, dead', todo, tidy', After(st, live), n + 3);
  }

  lemma {:induction false} IfElseZoned(b: Builder, c: Expr, t: Stmt, f: Stmt, dead: set<Block>, todo: set<Block>,
                                       tidy: bool)
    returns (dead': set<Block>)
    requires Ready(b) && Addressed(b.scope) && Zoned(b, dead, todo, tidy) && b.cur !in todo
    ensures var st, live := If(c, t, Some(f)), b.cur !in dead;
      Arrives(b, LowerStmt(b, st), dead, dead', todo, tidy && Tidy(st, live), After(st, live))
    decreases If(c, t, Some(f)), 2
  {
    hide Zoned, Good, Addressed, Grows, IfStart, LowerExpr, LowerStmt, BranchTo, Open, Arrives, Sprouts, Done, Kept,
      After, Tidy;
    IfElseFlow(c, t, f, b.cur !in dead);
    var st, live, n, b1 := If(c, t, Some(f)), b.cur !in dead, LowerExpr(b, c).b.nextBlock, IfStart(b, c, true);
    var lostCont := After(st, live) == Lost;
    IfStarted(b, c, true);
    IfParts(b, c, t, Some(f));
    ElseParts(b, c, t, f);
    if !live {
      NeverGoes(t);
      NeverGoes(f);
    }
    var dead1 := IfStartZoned(b, c, true, dead, todo, tidy, lostCont);
    var todo1, flow1, flow2 := With(todo, n + 2, !lostCont), After(t, live), After(f, live);
    var deadT := ArmZoned(b1, t, n + 2, dead1, todo1, tidy);
    var tidy1, todo2 := tidy && Tidy(t, live) && (flow1 == Lost ==> lostCont), if flow1 == Goes then todo else todo1;
    assert todo1 - {n + 2} == todo;
    var b3, b4 := IfEnd(b, c, t, Some(f)), ElseStart(b, c, t, f);
    TodoEmpty(b, b3, {n + 1, n + 2}, n + 2);
    SameZones(b3, b4, deadT, todo2, tidy1);
    SproutsFacts(dead1, deadT, n + 3, n + 1);
    SproutsFacts(dead1, deadT, n + 3, n + 2);
    DoneFacts(b1, LowerStmt(b1, t));
    dead' := ArmZoned(b4, f, n + 2, deadT, todo2, tidy1);
    assert todo2 - {n + 2} == todo;
    IfLast(b, c, t, Some(f));
    var b6, tidy' := ElseEnd(b, c, t, f), tidy && Tidy(st, live);
    SameZones(b6, SetInsert(b6, n + 2), dead', todo, tidy');
    IfDone(b, c, t, Some(f));
    SproutsFacts(deadT, dead', b4.nextBlock, n + 2);
    SproutsTrans(dead1, deadT, dead', n + 3, b4.nextBlock);
    ReadyOpen(LowerStmt(b, st));
    Arrived(b, LowerStmt(b, st), dead, dead1, dead', todo, tidy', After(st, live), n + 3);
  }

  // ----- functions -----

  lemma {:induction false} ParamsEdges(b: Builder, ds: seq<VarDecl>, i: nat)
    requires b.cur in b.code && i <= |ds|
    ensures SameEdges(b, LowerParams(b, ds, i)) && LowerParams(b, ds, i).cur == b.cur
    decreases |ds| - i
  {
    if i < |ds| {
      ParamEdges(b, ds[i], i);
      ParamsEdges(LowerParam(b, ds[i], i), ds, i + 1);
    }
  }

  lemma ParamEdges(b: Builder, d: VarDecl, i: nat)
    requires b.cur in b.code
    ensures SameEdges(b, LowerParam(b, d, i)) && LowerParam(b, d, i).cur == b.cur && b.cur in LowerParam(b, d, i).code
  {
  }

  lemma BeginZoned(ret: Ty, globals: map<string, Symbol>, first: Id)
    ensures Zoned(Begin(ret, globals, first), {}, {}, true)
  {
    var b := Begin(ret, globals, first);
    assert OnPath(b, Start) && Last(Start) == ENTRY;
  }

  lemma {:induction false} FunctionZoned(f: FunDecl, globals: map<string, Symbol>, first: Id) returns (dead: set<Block>)
    requires Addressed([globals])
    ensures Zoned(LowerFun(f, globals, first), dead, {}, Tidy(f.body, true))
  {
    hide Zoned, Ready, Addressed, Grows, LowerStmt, LowerParams, Tidy, After, Standing, SameEdges;
    var b0 := Begin(f.ret, globals, first);
    BeginReady(f.ret, globals, first);
    BeginZoned(f.ret, globals, first);
    ParamsDeclared(b0, f.params, 0);
    ParamsEdges(b0, f.params, 0);
    var b1 := LowerParams(b0, f.params, 0);
    SameZones(b0, b1, {}, {}, true);
    dead := StmtZoned(b1, f.body, {}, {}, true);
    var b2, tidy := LowerStmt(b1, f.body), true && Tidy(f.body, true);
    ArrivesFacts(b1, b2, {}, dead, {}, tidy, After(f.body, true));
    StmtDone(b1, f.body);
    DoneFacts(b1, b2);
    if !b2.Terminated() {
      ReadyCur(b2);
      AppendEdges(b2, Instr.Ret(b2.nextId, DefaultOperands(f.ret)));
      SameZones(b2, EmitRet(b2, DefaultOperands(f.ret)), dead, {}, tidy);
    }
  }

  lemma {:induction false} PathReaches(b: Builder, w: Walk)
    requires Graph(b).Valid() && Graph(b).Entry() == ENTRY && OnPath(b, w)
    ensures WalkTo(Graph(b), w, Last(w))
  {
    if w.Step? {
      PathReaches(b, w.prev);
    }
  }

  lemma LiveReachable(b: Builder, x: Block)
    requires Graph(b).Valid() && Graph(b).Entry() == ENTRY && Live(b, x)
    ensures Reachable(Graph(b), x)
  {
    var w :| OnPath(b, w) && Last(w) == x;
    PathReaches(b, w);
  }

  lemma {:induction false} WalkAvoids(b: Builder, dead: set<Block>, tidy: bool, w: Walk)
    requires Graph(b).Valid() && Graph(b).Entry() == ENTRY && Zoned(b, dead, {}, tidy) && IsWalk(Graph(b), w)
    ensures End(Graph(b), w) !in dead
  {
    if w.Step? {
      WalkAvoids(b, dead, tidy, w.prev);
      assert w.to in b.Succ(End(Graph(b), w.prev));
    }
  }

  /** A block is reached exactly if it is not dead. */
  lemma DeadIff(b: Builder, dead: set<Block>, tidy: bool, x: Block)
    requires Graph(b).Valid() && Graph(b).Entry() == ENTRY && Zoned(b, dead, {}, tidy) && x in b.code
    ensures Reachable(Graph(b), x) <==> x !in dead
  {
    if x in dead {
      forall w
        ensures !WalkTo(Graph(b), w, x)
      {
        if IsWalk(Graph(b), w) {
          WalkAvoids(b, dead, tidy, w);
        }
      }
    } else {
      LiveReachable(b, x);
    }
  }

  /** The join that an edge from dead code leads to has another predecessor, which is reached. */
  lemma StrayJoin(b: Builder, dead: set<Block>, tidy: bool, p: Block, j: Block)
    requires Mirrored(b) && Graph(b).Valid() && Graph(b).Entry() == ENTRY && b.Pred(ENTRY) == []
    requires Zoned(b, dead, {}, tidy)
    requires j in b.Succ(p) && p in dead && j !in dead
    ensures var g := Graph(b); g.Edge(p, j) && |g.pred[j]| >= 2 && Reachable(g, j) && !Reachable(g, p)
  {
    hide Zoned, SameBlocks, SuccExact, NoRepeats;
    var g := Graph(b);
    assert p in b.Pred(j) && g.Edge(p, j);
    EdgeBlocks(b, p, j);
    DeadIff(b, dead, tidy, j);
    DeadIff(b, dead, tidy, p);
    var w :| WalkTo(g, w, j);
    var q := End(g, w.prev);
    assert w.Step? && g.Edge(q, j);
    assert WalkTo(g, w.prev, q);
    assert j in b.Succ(q) && q in b.Pred(j) && q != p;
  }

  lemma EdgeBlocks(b: Builder, p: Block, j: Block)
    requires Mirrored(b) && j in b.Succ(p)
    ensures p in b.code && j in b.code
  {
    assert p in b.succ;
  }

  lemma ZonesDecide(b: Builder, dead: set<Block>, tidy: bool)
    requires Mirrored(b) && Graph(b).Valid() && Graph(b).Entry() == ENTRY && b.Pred(ENTRY) == []
    requires Zoned(b, dead, {}, tidy)
    ensures DominatorAnalysis.JoinsReached(Graph(b)) <==> tidy
  {
    hide Mirrored, Live;
    var g := Graph(b);
    if tidy {
      forall p, j | g.Edge(p, j) && Reachable(g, j)
        ensures Reachable(g, p)
      {
        assert j in b.Succ(p);
        EdgeBlocks(b, p, j);
        DeadIff(b, dead, tidy, j);
        DeadIff(b, dead, tidy, p);
      }
    } else {
      var p, j :| j in b.Succ(p) && p in dead && j !in dead;
      StrayJoin(b, dead, tidy, p, j);
    }
  }

  /** In a lowered function every join is reached along all of its edges if and only if the function is tidy: so it
      depends on the source alone whether the analysis of dominance frontiers comes to an end. */
  lemma JoinsReachedIff(f: FunDecl, globals: map<string, Symbol>, first: Id)
    requires Addressed([globals])
    ensures var g := Graph(LowerFun(f, globals, first));
      g.Valid() && (DominatorAnalysis.JoinsReached(g) <==> Tidy(f.body, true))
  {
    hide LowerFun, Zoned, Mirrored, Sealed, Tidy, DominatorAnalysis.JoinsReached;
    FunctionShape(f, globals, first);
    var dead := FunctionZoned(f, globals, first);
    ZonesDecide(LowerFun(f, globals, first), dead, Tidy(f.body, true));
  }

  /** In a function that is not tidy some runner never meets the idom it looks for. */
  lemma UntidyNeverStops(f: FunDecl, globals: map<string, Symbol>, first: Id, t: Tree) returns (p: Block, j: Block)
    requires Addressed([globals]) && !Tidy(f.body, true)
    requires var g := Graph(LowerFun(f, globals, first)); g.Valid() && IdomInvariants.Computed(g, t)
    ensures var g := Graph(LowerFun(f, globals, first));
      g.Edge(p, j) && !Reachable(g, p) && Reachable(g, j) && j in t.parent
    ensures forall steps: nat {:trigger DominatorAnalysis.Climb(t, Some(p), steps)} ::
      DominatorAnalysis.Climb(t, Some(p), steps) != Some(t.parent[j])
  {
    hide LowerFun, Tidy, IdomInvariants.Computed, DominatorAnalysis.Climb, Addressed;
    JoinsReachedIff(f, globals, first);
    var g := Graph(LowerFun(f, globals, first));
    p, j :| g.Edge(p, j) && |g.pred[j]| >= 2 && Reachable(g, j) && !Reachable(g, p);
    DominatorAnalysis.StrayRunnerNeverStops(g, t, p, j, 0);
    forall steps: nat
      ensures DominatorAnalysis.Climb(t, Some(p), steps) != Some(t.parent[j])
    {
      DominatorAnalysis.StrayRunnerNeverStops(g, t, p, j, steps);
    }
  }

  /** A conditional that returns in both arms. */
  function ReturnsInBoth(c: Expr, x: Expr, y: Expr): Stmt {
    If(c, Stmt.Return(Some(x)), Some(Stmt.Return(Some(y))))
  }

  /** At the end of a function it does no harm, but in a loop, or in an arm of another conditional, it does. */
  lemma ReturnsInBothTidy(c: Expr, d: Expr, x: Expr, y: Expr)
    ensures Tidy(Compound([], [ReturnsInBoth(c, x, y)]), true)
    ensures !Tidy(Compound([], [While(d, ReturnsInBoth(c, x, y))]), true)
    ensures !Tidy(Compound([], [If(d, ReturnsInBoth(c, x, y), None)]), true)
  {
    var st := ReturnsInBoth(c, x, y);
    IfElseFlow(c, Stmt.Return(Some(x)), Stmt.Return(Some(y)), true);
    WhileFlow(d, st, true);
    IfFlow(d, st, true);
    SingleTidy(st);
    SingleTidy(While(d, st));
    SingleTidy(If(d, st, None));
  }

  lemma SingleTidy(st: Stmt)
    ensures Tidy(Compound([], [st]), true) <==> Tidy(st, true)
  {
    var sts, none: seq<Stmt> := [st], [];
    assert sts[0] == st && sts[1..] == none;
    assert TidyAll(none, true) && TidyAll(none, false);
    assert TidyAll(sts, true) <==> Tidy(st, true);
    assert Tidy(Compound([], sts), true) <==> TidyAll(sts, true);
  }
}
