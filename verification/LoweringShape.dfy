/** The shape of lowered code: what lowering one piece of the tree leaves as it was, and that every block
    it is done with ends in its only branch or return. */
module LoweringShape {
  import opened ControlFlow
  import opened IR
  import opened Scopes
  import opened Syntax
  import opened Lowering

  /** No branch or return yet. */
  ghost predicate Open(c: seq<Instr>) {
    forall k {:trigger c[k]} :: 0 <= k < |c| ==> !c[k].IsTerminator()
  }

  /** One branch or return, which comes last. */
  ghost predicate Sealed(c: seq<Instr>) {
    |c| > 0 && c[|c| - 1].IsTerminator() && forall k {:trigger c[k]} :: 0 <= k < |c| - 1 ==> !c[k].IsTerminator()
  }

  /** The blocks that the code of a block branches to, in the order in which they are recorded. */
  function Targets(c: seq<Instr>): seq<Block> {
    if c == [] then []
    else
      match c[|c| - 1]
      case Br(_, t) => [t]
      case CondBr(_, _, t, f) => [f, t]
      case _ => []
  }

  /** The successor lists are the targets of the branches, and the predecessor lists say the same backwards. */
  ghost predicate Mirrored(b: Builder) {
    SameBlocks(b) && SuccExact(b) && PredExact(b)
  }

  /** The list of blocks and the four tables agree on what the blocks are. */
  ghost predicate SameBlocks(b: Builder) {
    && NoRepeats(b.blocks)
    && (forall x {:trigger x in b.blocks} {:trigger x in b.code} {:trigger x in b.succ} {:trigger x in b.pred} ::
          (x in b.blocks <==> x in b.code) && (x in b.succ <==> x in b.code) && (x in b.pred <==> x in b.code))
  }

  ghost predicate SuccExact(b: Builder) {
    && (forall x {:trigger b.Succ(x)} {:trigger b.Code(x)} :: b.Succ(x) == Targets(b.Code(x)) && NoRepeats(b.Succ(x)))
    && (forall x, p {:trigger x in b.Succ(p)} :: x in b.Succ(p) ==> x in b.code)
  }

  ghost predicate PredExact(b: Builder) {
    && (forall x {:trigger b.Pred(x)} :: NoRepeats(b.Pred(x)))
    && (forall x, p {:trigger p in b.Pred(x)} {:trigger x in b.Succ(p)} :: p in b.Pred(x) <==> x in b.Succ(p))
  }

  /** The builder appends to a block of the function, every block is open or sealed, and the lists of
      neighbours mirror the branches. */
  ghost predicate Good(b: Builder) {
    && b.cur in b.code && Mirrored(b)
    && (forall x {:trigger b.code[x]} {:trigger x in b.code} ::
          x in b.code ==> x < b.nextBlock && (Open(b.code[x]) || Sealed(b.code[x])))
  }

  ghost predicate Ready(b: Builder) {
    Good(b) && Open(b.code[b.cur])
  }

  /** A block after more has been lowered: a sealed one stays as it is. */
  ghost predicate Longer(c: seq<Instr>, c': seq<Instr>) {
    |c| <= |c'| && c'[..|c|] == c && (Sealed(c) ==> c' == c)
  }

  /** Lowering adds to the current block and to new blocks only, and seals all of these but the one it has
      come to, and the blocks to do: new and still empty. */
  ghost predicate Grows(b: Builder, b': Builder, todo: set<Block>) {
    && Good(b') && b.ret == b'.ret && b.nextBlock <= b'.nextBlock && b.nextId <= b'.nextId
    && b.cur in b'.code && Longer(b.Code(b.cur), b'.code[b.cur])
    && (forall x {:trigger x in b'.code} {:trigger x in b.code} ::
          x in b.code && x != b.cur ==> x in b'.code && b'.code[x] == b.code[x])
    && (b'.cur == b.cur || b'.cur >= b.nextBlock)
    && (b.blocks != [] ==> b'.blocks != [] && b'.blocks[0] == b.blocks[0])
    && (forall x {:trigger b'.Pred(x)} {:trigger b.Pred(x)} :: x in b.code ==> b'.Pred(x) == b.Pred(x))
    && (forall x {:trigger b'.code[x]} ::
          x in b'.code && (x == b.cur || x >= b.nextBlock) && x != b'.cur && x !in todo ==> Sealed(b'.code[x]))
    && (forall x {:trigger x in b'.code} :: x in b'.code && x !in b.code ==> x >= b.nextBlock)
    && (forall x {:trigger x in todo} ::
          x in todo ==> x >= b.nextBlock && x != b'.cur && x in b'.code && b'.code[x] == [])
  }

  /** A piece has been lowered, and more can follow. */
  ghost predicate Kept(b: Builder, b': Builder) {
    Ready(b') && Grows(b, b', {}) && b'.scope == b.scope
  }

  /** A value that later instructions of the same straight piece do not overwrite. */
  predicate Below(o: Operand, n: Id) {
    match o
    case Reg(id) => id < n
    case Elem(id) => id < n
    case _ => true
  }

  /** Variables are addressed through slots and globals. */
  ghost predicate Addressed(scope: seq<map<string, Symbol>>) {
    forall k, x {:trigger scope[k][x]} ::
      0 <= k < |scope| && x in scope[k] && scope[k][x].Var? ==> scope[k][x].addr.Slot? || scope[k][x].addr.Global?
  }

  lemma {:induction false} LookupAddressed(scope: seq<map<string, Symbol>>, id: string)
    requires Addressed(scope)
    ensures Lookup(scope, id).Some? && Lookup(scope, id).value.Var? ==>
      Lookup(scope, id).value.addr.Slot? || Lookup(scope, id).value.addr.Global?
  {
    if scope != [] {
      var rest := scope[..|scope| - 1];
      assert forall k, x :: 0 <= k < |rest| && x in rest[k] ==> rest[k][x] == scope[k][x];
      LookupAddressed(rest, id);
    }
  }

  lemma GrowsTrans(b: Builder, b1: Builder, b2: Builder, todo: set<Block>)
    requires Good(b) && Grows(b, b1, todo) && Grows(b1, b2, {})
    ensures Grows(b, b2, todo)
  {
    hide Open;
    forall x | x in b.code && x != b.cur
      ensures x in b2.code && b2.code[x] == b.code[x]
    {
      assert x in b1.code && b1.code[x] == b.code[x] && x != b1.cur;
    }
    forall x | x in b2.code && (x == b.cur || x >= b.nextBlock) && x != b2.cur && x !in todo
      ensures Sealed(b2.code[x])
    {
      if x in b1.code && x != b1.cur {
        assert b2.code[x] == b1.code[x];
      }
    }
    forall x | x in b2.code && x !in b.code
      ensures x >= b.nextBlock
    {
      if x in b1.code {
        assert x >= b.nextBlock;
      }
    }
    forall x | x in todo
      ensures x != b2.cur && x in b2.code && b2.code[x] == []
    {
      assert x in b1.code && b1.code[x] == [] && x < b1.nextBlock;
    }
    if b1.cur == b.cur {
      LongerTrans(b.code[b.cur], b1.code[b.cur], b2.code[b.cur]);
    }
  }

  lemma LongerTrans(c: seq<Instr>, c1: seq<Instr>, c2: seq<Instr>)
    requires Longer(c, c1) && Longer(c1, c2)
    ensures Longer(c, c2)
  {
    assert c2[..|c|] == c2[..|c1|][..|c|];
  }

  lemma KeptTrans(b: Builder, b1: Builder, b2: Builder)
    requires Ready(b) && Kept(b, b1) && Kept(b1, b2)
    ensures Kept(b, b2)
  {
    hide Grows, Good, Open;
    GrowsTrans(b, b1, b2, {});
  }

  lemma GrowsSame(b: Builder, b': Builder, todo: set<Block>, c: Builder)
    requires Grows(b, b', todo) && SameCode(b', c)
    ensures Grows(b, c, todo)
  {
    hide Open, Sealed, Mirrored;
    SameMirrored(b', c);
    forall x | x in b.code
      ensures c.Pred(x) == b.Pred(x)
    {
      assert b'.Pred(x) == b.Pred(x);
    }
  }

  /** The function under construction is the same; scopes may differ. */
  predicate SameCode(b: Builder, b': Builder) {
    && b'.code == b.code && b'.cur == b.cur && b'.nextBlock == b.nextBlock && b'.nextId == b.nextId && b'.ret == b.ret
    && b'.blocks == b.blocks && b'.succ == b.succ && b'.pred == b.pred
  }

  lemma GrowsSelf(b: Builder)
    requires Good(b)
    ensures Grows(b, b, {})
  {
  }

  /** A new block is to be done. */
  lemma GrowsNewBlock(b: Builder, b': Builder, todo: set<Block>)
    requires Good(b) && Grows(b, b', todo)
    ensures Grows(b, NewBlock(b'), todo + {b'.nextBlock})
    ensures Ready(b') ==> Ready(NewBlock(b'))
    ensures NewBlock(b').Pred(b'.nextBlock) == []
  {
    hide Sealed, Mirrored;
    NewBlockMirrored(b');
    forall x | x in b.code
      ensures NewBlock(b').Pred(x) == b.Pred(x)
    {
      assert b'.Pred(x) == b.Pred(x);
    }
  }

  lemma NoRepeatsSnoc(s: seq<Block>, x: Block)
    requires NoRepeats(s) && x !in s
    ensures NoRepeats(s + [x])
  {
  }

  lemma NewBlockMirrored(b: Builder)
    requires Mirrored(b) && b.nextBlock !in b.code
    ensures Mirrored(NewBlock(b))
    ensures forall x {:trigger NewBlock(b).Pred(x)} :: NewBlock(b).Pred(x) == b.Pred(x)
    ensures b.Pred(b.nextBlock) == []
  {
    hide Targets, NoRepeats;
    var b' := NewBlock(b);
    forall x
      ensures b'.Succ(x) == b.Succ(x) && b'.Pred(x) == b.Pred(x) && b'.Code(x) == b.Code(x)
    {
    }
    NoRepeatsSnoc(b.blocks, b.nextBlock);
    SameNeighbours(b, b');
  }

  lemma SameNeighbours(b: Builder, b': Builder)
    requires Mirrored(b) && SameBlocks(b')
    requires forall x {:trigger b'.Succ(x)} {:trigger b.Succ(x)} :: b'.Succ(x) == b.Succ(x)
    requires forall x {:trigger b'.Pred(x)} {:trigger b.Pred(x)} :: b'.Pred(x) == b.Pred(x)
    requires forall x {:trigger b'.Code(x)} {:trigger b'.Succ(x)} :: Targets(b'.Code(x)) == Targets(b.Code(x))
    requires forall x, p {:trigger x in b.Succ(p)} :: x in b.Succ(p) ==> x in b'.code
    ensures Mirrored(b')
  {
    hide SameBlocks, Targets, NoRepeats;
    forall x, p | x in b'.Succ(p)
      ensures x in b'.code
    {
      assert x in b.Succ(p);
    }
    forall x, p
      ensures p in b'.Pred(x) <==> x in b'.Succ(p)
    {
      assert p in b.Pred(x) <==> x in b.Succ(p);
    }
  }

  /** The current block is finished, and a block to do becomes the current one. */
  lemma GrowsMove(b: Builder, b': Builder, todo: set<Block>, x: Block)
    requires Good(b) && Grows(b, b', todo) && x in todo && Sealed(b'.code[b'.cur])
    ensures Grows(b, SetInsert(b', x), todo - {x}) && Ready(SetInsert(b', x))
  {
    hide Sealed, Mirrored;
    assert Mirrored(SetInsert(b', x)) by {
      SameMirrored(b', SetInsert(b', x));
    }
  }

  lemma SameMirrored(b: Builder, b': Builder)
    requires b'.code == b.code && b'.blocks == b.blocks && b'.succ == b.succ && b'.pred == b.pred
    ensures Mirrored(b) <==> Mirrored(b')
    ensures forall x {:trigger b'.Pred(x)} {:trigger b.Pred(x)} :: b'.Pred(x) == b.Pred(x)
  {
    hide SameBlocks, SuccExact, PredExact;
    SameBlocksToo(b, b');
    SameSuccExact(b, b');
    SamePredExact(b, b');
  }

  lemma SameBlocksToo(b: Builder, b': Builder)
    requires b'.code == b.code && b'.blocks == b.blocks && b'.succ == b.succ && b'.pred == b.pred
    ensures SameBlocks(b) <==> SameBlocks(b')
  {
    hide NoRepeats;
  }

  lemma SameSuccExact(b: Builder, b': Builder)
    requires b'.code == b.code && b'.succ == b.succ
    ensures SuccExact(b) <==> SuccExact(b')
  {
    hide NoRepeats, Targets;
    assert forall x {:trigger b.Succ(x)} {:trigger b'.Succ(x)} :: b'.Succ(x) == b.Succ(x);
    assert forall x {:trigger b.Code(x)} {:trigger b'.Code(x)} :: b'.Code(x) == b.Code(x);
  }

  lemma SamePredExact(b: Builder, b': Builder)
    requires b'.succ == b.succ && b'.pred == b.pred
    ensures PredExact(b) <==> PredExact(b')
  {
    hide NoRepeats;
    assert forall x {:trigger b.Succ(x)} {:trigger b'.Succ(x)} :: b'.Succ(x) == b.Succ(x);
    assert forall x {:trigger b.Pred(x)} {:trigger b'.Pred(x)} :: b'.Pred(x) == b.Pred(x);
  }

  lemma GrowsRemove(b: Builder, b': Builder, todo: set<Block>, x: Block)
    requires Good(b) && Grows(b, b', todo) && x in todo && x !in b.code && b'.Pred(x) == []
    ensures Grows(b, RemoveBlock(b', x), todo - {x})
  {
    hide Open, Sealed, Mirrored;
    RemoveMirrored(b', x);
    if b.blocks != [] {
      assert b.blocks[0] != x by {
        FirstBlock(b);
      }
    }
    forall y | y in b.code
      ensures RemoveBlock(b', x).Pred(y) == b.Pred(y)
    {
      assert b'.Pred(y) == b.Pred(y);
    }
  }

  lemma FirstBlock(b: Builder)
    requires Mirrored(b) && b.blocks != []
    ensures b.blocks[0] in b.code
  {
    hide SuccExact, PredExact, NoRepeats;
    var x := b.blocks[0];
    assert x in b.blocks;
  }

  lemma {:induction false} WithoutMembers(s: seq<Block>, x: Block)
    ensures forall y {:trigger y in Without(s, x)} :: y in Without(s, x) <==> y in s && y != x
    ensures NoRepeats(s) ==> NoRepeats(Without(s, x))
  {
    if s != [] {
      var rest := s[1..];
      WithoutMembers(rest, x);
      if NoRepeats(s) {
        assert forall i :: 0 <= i < |rest| ==> rest[i] == s[i + 1];
        var kept := Without(rest, x);
        forall j | 0 <= j < |kept|
          ensures kept[j] != s[0]
        {
          assert kept[j] in kept;
        }
      }
    }
  }

  lemma RemoveNeighbours(b: Builder, x: Block, y: Block)
    requires SameBlocks(b) && x in b.code && b.Succ(x) == [] && b.Pred(x) == []
    ensures var b' := RemoveBlock(b, x);
      b'.Succ(y) == b.Succ(y) && b'.Pred(y) == b.Pred(y) && (y != x ==> b'.Code(y) == b.Code(y))
  {
  }

  /** Taking out a block without edges leaves all other lists as they are. */
  lemma RemoveMirrored(b: Builder, x: Block)
    requires Mirrored(b) && x in b.code && b.code[x] == [] && b.Pred(x) == []
    ensures Mirrored(RemoveBlock(b, x))
    ensures forall y {:trigger RemoveBlock(b, x).Pred(y)} :: RemoveBlock(b, x).Pred(y) == b.Pred(y)
  {
    hide NoRepeats;
    WithoutMembers(b.blocks, x);
    var b' := RemoveBlock(b, x);
    assert b.Succ(x) == Targets(b.Code(x)) == [];
    forall y
      ensures b'.Succ(y) == b.Succ(y) && b'.Pred(y) == b.Pred(y) && Targets(b'.Code(y)) == Targets(b.Code(y))
    {
      RemoveNeighbours(b, x, y);
    }
    RemoveSame(b, x);
    forall y, p | y in b.Succ(p)
      ensures y in b'.code
    {
      assert p in b.Pred(y);
    }
    SameNeighbours(b, b');
  }

  lemma RemoveSame(b: Builder, x: Block)
    requires SameBlocks(b)
    ensures SameBlocks(RemoveBlock(b, x))
  {
    WithoutMembers(b.blocks, x);
  }

  lemma AppendCode(b: Builder, i: Instr)
    requires b.cur in b.code && Open(b.code[b.cur])
    ensures var c, c' := b.code[b.cur], Append(b, i).code[b.cur];
      c' == c + [i] && Longer(c, c') && (if i.IsTerminator() then Sealed(c') else Open(c'))
  {
    var c := b.code[b.cur];
    assert (c + [i])[..|c|] == c;
  }

  lemma OpenTargets(c: seq<Instr>)
    requires Open(c)
    ensures Targets(c) == []
  {
  }

  /** An instruction that branches nowhere. */
  lemma PlainMirrored(b: Builder, i: Instr)
    requires Ready(b) && !i.Br? && !i.CondBr?
    ensures Mirrored(Append(b, i))
    ensures forall x {:trigger Append(b, i).Pred(x)} :: Append(b, i).Pred(x) == b.Pred(x)
  {
    OpenTargets(b.code[b.cur]);
    var b' := Append(b, i);
    forall x
      ensures b'.Succ(x) == b.Succ(x) && b'.Pred(x) == b.Pred(x) && Targets(b'.Code(x)) == Targets(b.Code(x))
    {
    }
    SameNeighbours(b, b');
  }

  lemma AppendGrows(b: Builder, i: Instr)
    requires Ready(b) && !i.Br? && !i.CondBr?
    ensures Grows(b, Append(b, i), {})
    ensures !i.IsTerminator() ==> Kept(b, Append(b, i))
    ensures i.IsTerminator() ==> Sealed(Append(b, i).code[b.cur])
  {
    hide Mirrored;
    AppendCode(b, i);
    PlainMirrored(b, i);
  }

  lemma OpenNoSucc(b: Builder)
    requires Ready(b)
    ensures b.Succ(b.cur) == [] && SameBlocks(b) && b.cur in b.succ
  {
    OpenTargets(b.code[b.cur]);
    assert b.Succ(b.cur) == Targets(b.Code(b.cur));
  }

  lemma BrNeighbours(b: Builder, t: Block)
    requires SameBlocks(b) && b.cur in b.code && t in b.code && b.Succ(b.cur) == []
    ensures SameBlocks(EmitBr(b, t)) && Targets(EmitBr(b, t).Code(b.cur)) == [t]
    ensures forall x {:trigger EmitBr(b, t).Succ(x)} :: EmitBr(b, t).Succ(x) == if x == b.cur then [t] else b.Succ(x)
    ensures forall x {:trigger EmitBr(b, t).Pred(x)} ::
      EmitBr(b, t).Pred(x) == if x == t then b.Pred(x) + [b.cur] else b.Pred(x)
  {
  }

  lemma BrMirrored(b: Builder, t: Block)
    requires Ready(b) && t in b.code
    ensures Mirrored(EmitBr(b, t))
    ensures forall x {:trigger EmitBr(b, t).Pred(x)} :: x != t ==> EmitBr(b, t).Pred(x) == b.Pred(x)
  {
    hide SameBlocks, SuccExact, PredExact, Targets, Open;
    OpenNoSucc(b);
    BrNeighbours(b, t);
    EdgesAdded(b, EmitBr(b, t), [t]);
  }

  lemma CondBrNeighbours(b: Builder, c: Operand, t: Block, f: Block)
    requires SameBlocks(b) && b.cur in b.code && t in b.code && f in b.code && t != f && b.Succ(b.cur) == []
    ensures var b' := EmitCondBr(b, c, t, f); SameBlocks(b') && Targets(b'.Code(b.cur)) == [f, t]
    ensures forall x {:trigger EmitCondBr(b, c, t, f).Succ(x)} ::
      EmitCondBr(b, c, t, f).Succ(x) == if x == b.cur then [f, t] else b.Succ(x)
    ensures forall x {:trigger EmitCondBr(b, c, t, f).Pred(x)} ::
      EmitCondBr(b, c, t, f).Pred(x) == if x == t || x == f then b.Pred(x) + [b.cur] else b.Pred(x)
  {
  }

  lemma CondBrMirrored(b: Builder, c: Operand, t: Block, f: Block)
    requires Ready(b) && t in b.code && f in b.code && t != f
    ensures Mirrored(EmitCondBr(b, c, t, f))
    ensures forall x {:trigger EmitCondBr(b, c, t, f).Pred(x)} ::
      x != t && x != f ==> EmitCondBr(b, c, t, f).Pred(x) == b.Pred(x)
  {
    hide SameBlocks, SuccExact, PredExact, Targets, Open;
    OpenNoSucc(b);
    CondBrNeighbours(b, c, t, f);
    EdgesAdded(b, EmitCondBr(b, c, t, f), [f, t]);
  }

  /** The current block, which had no successors, gets these. */
  lemma EdgesAdded(b: Builder, b': Builder, ts: seq<Block>)
    requires Mirrored(b) && b.cur in b.code && b.Succ(b.cur) == [] && SameBlocks(b') && NoRepeats(ts)
    requires forall x {:trigger x in b.code} {:trigger x in b'.code} :: x in b.code <==> x in b'.code
    requires forall x {:trigger x in ts} :: x in ts ==> x in b.code
    requires forall x {:trigger b'.Succ(x)} :: b'.Succ(x) == if x == b.cur then ts else b.Succ(x)
    requires forall x {:trigger b'.Pred(x)} :: b'.Pred(x) == if x in ts then b.Pred(x) + [b.cur] else b.Pred(x)
    requires forall x {:trigger b'.Code(x)} {:trigger b'.Succ(x)} ::
      if x == b.cur then Targets(b'.Code(x)) == ts else b'.Code(x) == b.Code(x)
    ensures Mirrored(b')
  {
    hide SameBlocks, SuccExact, PredExact, Targets, NoRepeats, Builder.Succ, Builder.Pred, Builder.Code;
    SuccAdded(b, b', ts);
    PredAdded(b, b', ts);
  }

  lemma SuccAdded(b: Builder, b': Builder, ts: seq<Block>)
    requires SuccExact(b) && NoRepeats(ts)
    requires forall x {:trigger x in b.code} {:trigger x in b'.code} :: x in b.code <==> x in b'.code
    requires forall x {:trigger x in ts} :: x in ts ==> x in b.code
    requires forall x {:trigger b'.Succ(x)} :: b'.Succ(x) == if x == b.cur then ts else b.Succ(x)
    requires forall x {:trigger b'.Code(x)} {:trigger b'.Succ(x)} ::
      if x == b.cur then Targets(b'.Code(x)) == ts else b'.Code(x) == b.Code(x)
    ensures SuccExact(b')
  {
    hide Targets, NoRepeats, Builder.Succ, Builder.Code;
    forall x
      ensures b'.Succ(x) == Targets(b'.Code(x)) && NoRepeats(b'.Succ(x))
    {
      assert b.Succ(x) == Targets(b.Code(x));
    }
  }

  lemma PredAdded(b: Builder, b': Builder, ts: seq<Block>)
    requires PredExact(b) && b.Succ(b.cur) == []
    requires forall x {:trigger b'.Succ(x)} :: b'.Succ(x) == if x == b.cur then ts else b.Succ(x)
    requires forall x {:trigger b'.Pred(x)} :: b'.Pred(x) == if x in ts then b.Pred(x) + [b.cur] else b.Pred(x)
    ensures PredExact(b')
  {
    hide Builder.Succ, Builder.Pred;
    forall x
      ensures NoRepeats(b'.Pred(x))
    {
      assert b.cur in b.Pred(x) <==> x in b.Succ(b.cur);
    }
    forall x, p
      ensures p in b'.Pred(x) <==> x in b'.Succ(p)
    {
      assert p in b.Pred(x) <==> x in b.Succ(p);
    }
  }

  lemma BrGrows(b: Builder, b1: Builder, todo: set<Block>, t: Block)
    requires Good(b) && Ready(b1) && Grows(b, b1, todo) && t in b1.code && t >= b.nextBlock
    ensures Grows(b, EmitBr(b1, t), todo) && Sealed(EmitBr(b1, t).code[b1.cur])
    ensures forall x {:trigger EmitBr(b1, t).Pred(x)} :: x != t ==> EmitBr(b1, t).Pred(x) == b1.Pred(x)
  {
    hide Mirrored, Open;
    BrMirrored(b1, t);
    AppendCode(b1, Br(b1.nextId, t));
    var b' := EmitBr(b1, t);
    assert b'.code == Append(b1, Br(b1.nextId, t)).code;
    EmittedGrows(b, b1, todo, b');
  }

  lemma CondBrGrows(b: Builder, b1: Builder, todo: set<Block>, c: Operand, t: Block, f: Block)
    requires Good(b) && Ready(b1) && Grows(b, b1, todo) && t in b1.code && f in b1.code && t != f && t >= b.nextBlock
    requires f >= b.nextBlock
    ensures Grows(b, EmitCondBr(b1, c, t, f), todo) && Sealed(EmitCondBr(b1, c, t, f).code[b1.cur])
    ensures forall x {:trigger EmitCondBr(b1, c, t, f).Pred(x)} ::
      x != t && x != f ==> EmitCondBr(b1, c, t, f).Pred(x) == b1.Pred(x)
  {
    hide Mirrored, Open;
    CondBrMirrored(b1, c, t, f);
    AppendCode(b1, CondBr(b1.nextId, c, t, f));
    var b' := EmitCondBr(b1, c, t, f);
    assert b'.code == Append(b1, CondBr(b1.nextId, c, t, f)).code;
    EmittedGrows(b, b1, todo, b');
  }

  lemma EmittedGrows(b: Builder, b1: Builder, todo: set<Block>, b': Builder)
    requires Good(b) && Ready(b1) && Grows(b, b1, todo) && Mirrored(b') && b'.cur == b1.cur
    requires b'.nextBlock == b1.nextBlock
    requires b'.ret == b1.ret && b'.nextId >= b1.nextId && b1.cur in b'.code
    requires b'.code == b1.code[b1.cur := b'.code[b1.cur]]
    requires Longer(b1.code[b1.cur], b'.code[b1.cur]) && Sealed(b'.code[b1.cur]) && b'.blocks == b1.blocks
    requires forall x {:trigger b'.Pred(x)} :: x in b.code ==> b'.Pred(x) == b1.Pred(x)
    ensures Grows(b, b', todo)
  {
    hide Mirrored, Open;
    if b1.cur == b.cur {
      LongerTrans(b.code[b.cur], b1.code[b.cur], b'.code[b.cur]);
    }
  }

  lemma AppendOne(b: Builder, b1: Builder, i: Instr)
    requires Ready(b) && Kept(b, b1) && !i.IsTerminator()
    ensures Kept(b, Append(b1, i))
  {
    hide Grows, Good, Open;
    AppendGrows(b1, i);
    KeptTrans(b, b1, Append(b1, i));
  }

  lemma AppendTwo(b: Builder, b1: Builder, i: Instr, j: Instr)
    requires Ready(b) && Kept(b, b1) && !i.IsTerminator() && !j.IsTerminator()
    ensures Kept(b, Append(Append(b1, i), j))
  {
    hide Kept, Ready, Append;
    AppendOne(b, b1, i);
    AppendOne(b, Append(b1, i), j);
  }

  lemma ReadyTerminated(b: Builder)
    requires Good(b)
    ensures b.Terminated() <==> Sealed(b.code[b.cur])
    ensures !b.Terminated() <==> Ready(b)
  {
  }

  lemma CoerceKept(b: Builder, b1: Builder, o: Operand, ty: Ty)
    requires Ready(b) && Kept(b, b1)
    ensures Kept(b, Coerce(b1, o, ty).b) && Below(Coerce(b1, o, ty).o, Coerce(b1, o, ty).b.nextId)
  {
    hide Grows, Good, Open, Kept, Ready;
    AppendOne(b, b1, Op(b1.nextId, SITOFP, [o]));
    AppendOne(b, b1, Op(b1.nextId, FPTOSI, [o]));
  }

  // ----- expressions -----

  lemma {:induction false} ExprKept(b: Builder, e: Expr)
    requires Ready(b) && Addressed(b.scope)
    ensures Kept(b, LowerExpr(b, e).b) && Below(LowerExpr(b, e).o, LowerExpr(b, e).b.nextId)
    decreases e, 2
  {
    hide Kept, Ready, Addressed, LowerPlace, Coerce;
    match e
    case Num(_, _) => SelfKept(b);
    case Ref(v) => RefKept(b, v);
    case Paren(inner) => ExprKept(b, inner);
    case Assign(d, rhs) =>
      ExprKept(b, rhs);
      var x := LowerExpr(b, rhs);
      KeptFacts(b, x.b);
      PlaceKept(x.b, d);
      var p := LowerPlace(x.b, d);
      KeptTrans(b, x.b, p.b);
      KeptFacts(x.b, p.b);
      CoerceKept(b, p.b, x.o, x.ty);
      var y := if p.held == One(x.ty) then Tmp(p.b, x.o, x.ty) else Coerce(p.b, x.o, x.ty);
      AppendOne(b, y.b, Store(y.b.nextId, y.o, p.o));
    case Relation(op, _, _) =>
      PairKept(b, e);
      var p := LowerPair(b, e);
      AppendTwo(b, p.b, Op(p.b.nextId, RelName(op, p.isInt), [p.x, p.y]), Op(p.b.nextId + 1, ZEXT, [Reg(p.b.nextId)]));
    case Arith(op, _, _) =>
      PairKept(b, e);
      var p := LowerPair(b, e);
      AppendOne(b, p.b, Op(p.b.nextId, ArithName(op, p.isInt), [p.x, p.y]));
    case CallFun(id, args) =>
      match Lookup<Symbol>(b.scope, id) {
        case Some(Callee(name, ret, params)) =>
          ArgsKept(b, args, params);
          var a := LowerArgs(b, args, params);
          AppendOne(b, a.b, Call(a.b.nextId, name, a.os));
        case _ => SelfKept(b);
      }
  }

  lemma SelfKept(b: Builder)
    requires Ready(b)
    ensures Kept(b, b) && Kept(b, Abort(b))
  {
    hide Open, Mirrored;
    SameMirrored(b, Abort(b));
  }

  lemma KeptFacts(b: Builder, b': Builder)
    requires Kept(b, b')
    ensures Ready(b') && b'.scope == b.scope && b'.ret == b.ret && b.nextId <= b'.nextId && b.nextBlock <= b'.nextBlock
  {
  }

  lemma {:induction false} RefKept(b: Builder, v: VarRef)
    requires Ready(b) && Addressed(b.scope)
    ensures Kept(b, LowerRef(b, v).b) && Below(LowerRef(b, v).o, LowerRef(b, v).b.nextId)
    decreases v, 1
  {
    hide Kept, Ready, Addressed, LowerPlace;
    PlaceKept(b, v);
    var p := LowerPlace(b, v);
    AppendOne(b, p.b, Load(p.b.nextId, p.o));
    AppendOne(b, p.b, Gep(p.b.nextId, [p.o, Const(0), Const(0)]));
  }

  lemma {:induction false} PlaceKept(b: Builder, v: VarRef)
    requires Ready(b) && Addressed(b.scope)
    ensures Kept(b, LowerPlace(b, v).b) && Below(LowerPlace(b, v).o, LowerPlace(b, v).b.nextId)
    decreases v, 0
  {
    hide Kept, Ready, Addressed, LowerCheck, LowerElement;
    LookupAddressed(b.scope, v.id);
    match Lookup<Symbol>(b.scope, v.id) {
      case Some(Var(addr, held)) =>
        if v.index.None? {
          SelfKept(b);
        } else {
          ExprKept(b, v.index.value);
          var x := LowerExpr(b, v.index.value);
          KeptFacts(b, x.b);
          CheckKept(x.b, x.o, x.ty);
          var k := LowerCheck(x.b, x.o, x.ty);
          KeptTrans(b, x.b, k.b);
          KeptFacts(x.b, k.b);
          ElementKept(b, k.b, addr, held, k.o);
        }
      case _ => SelfKept(b);
    }
  }

  lemma ElementKept(b: Builder, b1: Builder, addr: Operand, held: Held, k: Operand)
    requires Ready(b) && Kept(b, b1)
    ensures Kept(b, LowerElement(b1, addr, held, k).b)
    ensures Below(LowerElement(b1, addr, held, k).o, LowerElement(b1, addr, held, k).b.nextId)
  {
    hide Kept, Ready;
    match held {
      case One(t) =>
        AppendTwo(b, b1, Load(b1.nextId, addr), Gep(b1.nextId + 1, [Reg(b1.nextId), k]));
        AppendOne(b, b1, Gep(b1.nextId, [addr, k]));
      case Many(t) =>
        AppendOne(b, b1, Gep(b1.nextId, [addr, Const(0), k]));
    }
  }

  /** The check of an index splits off a block that leaves the function. */
  lemma CheckKept(b: Builder, o: Operand, ty: Ty)
    requires Ready(b)
    ensures Kept(b, LowerCheck(b, o, ty).b)
    ensures Below(o, b.nextId) ==> Below(LowerCheck(b, o, ty).o, LowerCheck(b, o, ty).b.nextId)
  {
    hide Grows, Good, Open, RemoveBlock, LowerNegative;
    var except, cont := b.nextBlock, b.nextBlock + 1;
    GrowsSelf(b);
    SelfKept(b);
    TwoNew(b, b);
    var b1 := NewBlock(NewBlock(b));
    AppendGrows(b1, Op(b1.nextId, FPTOSI, [o]));
    GrowsTrans(b, b1, Append(b1, Op(b1.nextId, FPTOSI, [o])), {except, cont});
    var k := if ty == Flt then EmitOp(b1, FPTOSI, [o], Int) else Tmp(b1, o, ty);
    ForkGrows(b, k.b, "icmp_lt", k.o, except, cont, {except, cont});
    var b2 := SetInsert(EmitCondBr(EmitOp(k.b, "icmp_lt", [k.o, Const(0)], Int).b, Reg(k.b.nextId), except, cont),
                        except);
    NegativeGrows(b2);
    GrowsTrans(b, b2, LowerNegative(b2), {except, cont} - {except});
    GrowsMove(b, LowerNegative(b2), {except, cont} - {except}, cont);
    assert {except, cont} - {except} - {cont} == {};
    GrowsFacts(b2, LowerNegative(b2), {});
  }

  lemma GrowsFacts(b: Builder, b': Builder, todo: set<Block>)
    requires Grows(b, b', todo)
    ensures b.nextId <= b'.nextId && b.nextBlock <= b'.nextBlock && b'.ret == b.ret && Good(b')
  {
  }

  lemma ForkedCur(b: Builder, op: string, o: Operand, t: Block, f: Block)
    ensures Forked(b, op, o, t, f).cur == t
  {
  }

  /** A comparison with zero, a conditional branch on it, and the move to a block to do. */
  lemma ForkGrows(b: Builder, b1: Builder, op: string, o: Operand, t: Block, f: Block, todo: set<Block>)
    requires Good(b) && Ready(b1) && Grows(b, b1, todo) && t in todo && f in todo && t != f
    ensures forall x {:trigger Forked(b1, op, o, t, f).Pred(x)} ::
      x != t && x != f ==> Forked(b1, op, o, t, f).Pred(x) == b1.Pred(x)
    ensures var n := EmitOp(b1, op, [o, Const(0)], Int); var b2 := SetInsert(EmitCondBr(n.b, n.o, t, f), t);
      Grows(b, b2, todo - {t}) && Ready(b2) && b2.scope == b1.scope && b2.nextId == b1.nextId + 2 && b2.ret == b1.ret
        && b2.nextBlock == b1.nextBlock
  {
    hide Grows, Good, Open;
    var n := EmitOp(b1, op, [o, Const(0)], Int);
    AppendGrows(b1, Op(b1.nextId, op, [o, Const(0)]));
    GrowsTrans(b, b1, n.b, todo);
    GrowsTodo(b, n.b, todo, t);
    GrowsTodo(b, n.b, todo, f);
    CondBrGrows(b, n.b, todo, n.o, t, f);
    GrowsMove(b, EmitCondBr(n.b, n.o, t, f), todo, t);
    assert n.b.pred == b1.pred;
  }

  lemma NegativeGrows(b: Builder)
    requires Ready(b)
    ensures var b' := LowerNegative(b);
      Grows(b, b', {}) && Sealed(b'.code[b'.cur]) && b'.scope == b.scope && b'.cur == b.cur
  {
    hide Grows, Good, Open;
    match Lookup<Symbol>(b.scope, NEGATIVE_INDEX) {
      case Some(Callee(name, ret, _)) =>
        var b1 := EmitCall(b, name, [], ret).b;
        AppendGrows(b, Call(b.nextId, name, []));
        AppendGrows(b1, Instr.Ret(b1.nextId, DefaultOperands(b.ret)));
        GrowsTrans(b, b1, EmitRet(b1, DefaultOperands(b.ret)), {});
      case _ =>
        GrowsSelf(b);
        SelfKept(b);
        AppendGrows(Abort(b), Instr.Ret(b.nextId, DefaultOperands(b.ret)));
        GrowsSame(b, b, {}, Abort(b));
        GrowsTrans(b, Abort(b), LowerNegative(b), {});
    }
  }

  lemma {:induction false} PairKept(b: Builder, e: Expr)
    requires Ready(b) && Addressed(b.scope) && (e.Relation? || e.Arith?)
    ensures var p := LowerPair(b, e); Kept(b, p.b) && Below(p.x, p.b.nextId) && Below(p.y, p.b.nextId)
    decreases e, 1
  {
    hide Kept, Ready, Addressed;
    ExprKept(b, e.l);
    var l := LowerExpr(b, e.l);
    KeptFacts(b, l.b);
    ExprKept(l.b, e.r);
    var r := LowerExpr(l.b, e.r);
    KeptTrans(b, l.b, r.b);
    KeptFacts(l.b, r.b);
    AppendOne(b, r.b, Op(r.b.nextId, SITOFP, [l.o]));
    AppendOne(b, r.b, Op(r.b.nextId, SITOFP, [r.o]));
  }

  lemma {:induction false} ArgsKept(b: Builder, args: seq<Expr>, params: seq<Ty>)
    requires Ready(b) && Addressed(b.scope)
    ensures Kept(b, LowerArgs(b, args, params).b)
    ensures forall o {:trigger o in LowerArgs(b, args, params).os} ::
      o in LowerArgs(b, args, params).os ==> Below(o, LowerArgs(b, args, params).b.nextId)
    decreases args, 0
  {
    hide Kept, Ready, Addressed, Coerce;
    if args == [] {
      SelfKept(b);
    } else {
      ExprKept(b, args[0]);
      var x := LowerExpr(b, args[0]);
      KeptFacts(b, x.b);
      var y :=
        if params == [] then Tmp(Abort(x.b), x.o, x.ty)
        else if !IsPtr(x.ty) && params[0] != x.ty then Coerce(x.b, x.o, x.ty)
        else x;
      SelfKept(x.b);
      KeptTrans(b, x.b, Abort(x.b));
      CoerceKept(b, x.b, x.o, x.ty);
      KeptFacts(b, y.b);
      var rest := if params == [] then [] else params[1..];
      ArgsKept(y.b, args[1..], rest);
      KeptTrans(b, y.b, LowerArgs(y.b, args[1..], rest).b);
      KeptFacts(y.b, LowerArgs(y.b, args[1..], rest).b);
    }
  }

  // ----- statements -----

  /** A statement has been lowered; it may have ended the block. */
  ghost predicate Done(b: Builder, b': Builder) {
    Grows(b, b', {}) && b'.scope == b.scope
  }

  lemma DoneFacts(b: Builder, b': Builder)
    requires Done(b, b')
    ensures Good(b') && b'.scope == b.scope && b'.ret == b.ret && b.nextId <= b'.nextId && b.nextBlock <= b'.nextBlock
    ensures b'.Terminated() <==> Sealed(b'.code[b'.cur])
    ensures !b'.Terminated() <==> Kept(b, b')
    ensures !b'.Terminated() <==> Ready(b')
  {
    ReadyTerminated(b');
  }

  lemma BindAddressed(scope: seq<map<string, Symbol>>, id: string, sym: Symbol)
    requires Addressed(scope) && (sym.Var? ==> sym.addr.Slot? || sym.addr.Global?)
    ensures Addressed(Bind(scope, id, sym)) && Leave(Bind(scope, id, sym)) == Leave(scope)
    ensures |Bind(scope, id, sym)| == |scope|
  {
  }

  /** Declarations add to the innermost scope only. */
  ghost predicate Declared(b: Builder, b': Builder) {
    && Ready(b') && Grows(b, b', {}) && Addressed(b'.scope)
    && |b'.scope| == |b.scope| && Leave(b'.scope) == Leave(b.scope)
  }

  lemma DeclDeclared(b: Builder, d: VarDecl)
    requires Ready(b) && Addressed(b.scope)
    ensures Declared(b, LowerDecl(b, d))
  {
    hide Grows, Good, Open, Addressed;
    AppendGrows(b, Alloca(d.site, !d.isArray));
    var b1 := Append(b, Alloca(d.site, !d.isArray));
    BindAddressed(b.scope, d.id, Var(Slot(d.site), if d.isArray then Many(Scalar(d.isInt)) else One(Scalar(d.isInt))));
    GrowsSame(b, b1, {}, LowerDecl(b, d));
    Rescoped(b1, LowerDecl(b, d));
  }

  /** Readiness does not depend on the scopes. */
  lemma Rescoped(b: Builder, b': Builder)
    requires SameCode(b, b')
    ensures Good(b) <==> Good(b')
    ensures Ready(b) <==> Ready(b')
  {
    hide Open, Mirrored;
    SameMirrored(b, b');
  }

  lemma {:induction false} DeclsDeclared(b: Builder, ds: seq<VarDecl>)
    requires Ready(b) && Addressed(b.scope)
    ensures Declared(b, LowerDecls(b, ds))
    decreases |ds|
  {
    hide Grows, Good, Open, Addressed, LowerDecl;
    if ds == [] {
      GrowsSelf(b);
    } else {
      var b1 := LowerDecl(b, ds[0]);
      DeclDeclared(b, ds[0]);
      DeclsDeclared(b1, ds[1..]);
      GrowsTrans(b, b1, LowerDecls(b1, ds[1..]), {});
    }
  }

  lemma AddressedEnter(scope: seq<map<string, Symbol>>)
    requires Addressed(scope)
    ensures Addressed(scope + [map[]])
  {
  }

  lemma BranchSealed(b: Builder, b1: Builder, todo: set<Block>, t: Block)
    requires Good(b) && Grows(b, b1, todo) && t in b1.code && t >= b.nextBlock
    ensures var b2 := BranchTo(b1, t);
      Grows(b, b2, todo) && Sealed(b2.code[b2.cur]) && b2.scope == b1.scope && b2.cur == b1.cur
    ensures BranchTo(b1, t).nextBlock == b1.nextBlock && BranchTo(b1, t).ret == b1.ret
    ensures forall x {:trigger BranchTo(b1, t).Pred(x)} :: x != t ==> BranchTo(b1, t).Pred(x) == b1.Pred(x)
  {
    hide Grows, Open;
    GrowsFacts(b, b1, todo);
    ReadyTerminated(b1);
    if !b1.Terminated() {
      BrGrows(b, b1, todo, t);
    }
  }

  lemma {:induction false} StmtDone(b: Builder, st: Stmt)
    requires Ready(b) && Addressed(b.scope)
    ensures Done(b, LowerStmt(b, st))
    decreases st, 3
  {
    hide Kept, Ready, Grows, Addressed;
    match st
    case Compound(ds, sts) => CompoundDone(b, ds, sts);
    case ExprStmt(None) => KeptDone(b, b);
    case ExprStmt(Some(e)) =>
      ExprKept(b, e);
      KeptDone(b, LowerExpr(b, e).b);
    case If(c, t, f) => IfDone(b, c, t, f);
    case While(c, body) => WhileDone(b, c, body);
    case Return(None) =>
      SelfKept(b);
      RetDone(b, b, []);
    case Return(Some(e)) =>
      ExprKept(b, e);
      var x := LowerExpr(b, e);
      KeptFacts(b, x.b);
      AppendOne(b, x.b, Op(x.b.nextId, FPTOSI, [x.o]));
      AppendOne(b, x.b, Op(x.b.nextId, SITOFP, [x.o]));
      var y := LowerReturned(x.b, x.o, x.ty);
      RetDone(b, y.b, [y.o]);
  }

  lemma KeptDone(b: Builder, b': Builder)
    requires Kept(b, b') || (Ready(b) && b' == b)
    ensures Done(b, b')
  {
  }

  lemma RetDone(b: Builder, b1: Builder, args: seq<Operand>)
    requires Ready(b) && Kept(b, b1)
    ensures Done(b, EmitRet(b1, args)) && EmitRet(b1, args).Terminated()
  {
    hide Grows, Open;
    var i := Instr.Ret(b1.nextId, args);
    AppendGrows(b1, i);
    GrowsTrans(b, b1, Append(b1, i), {});
    GrowsFacts(b, Append(b1, i), {});
    ReadyTerminated(Append(b1, i));
  }

  lemma {:induction false} CompoundDone(b: Builder, ds: seq<VarDecl>, sts: seq<Stmt>)
    requires Ready(b) && Addressed(b.scope)
    ensures Done(b, LowerStmt(b, Compound(ds, sts)))
    decreases sts, 1
  {
    hide Grows, Good, Open, Addressed;
    var b0 := b.(scope := b.scope + [map[]]);
    AddressedEnter(b.scope);
    Rescoped(b, b0);
    GrowsSelf(b);
    GrowsSame(b, b, {}, b0);
    DeclsDeclared(b0, ds);
    var b1 := LowerDecls(b0, ds);
    AllDone(b1, sts);
    var b2 := LowerAll(b1, sts);
    GrowsTrans(b, b0, b1, {});
    GrowsTrans(b, b1, b2, {});
    GrowsSame(b, b2, {}, LowerStmt(b, Compound(ds, sts)));
    assert Leave(b0.scope) == b.scope;
  }

  lemma {:induction false} AllDone(b: Builder, sts: seq<Stmt>)
    requires Ready(b) && Addressed(b.scope)
    ensures Done(b, LowerAll(b, sts))
    decreases sts, 0
  {
    hide Kept, Ready, Grows, Addressed, Done;
    if sts == [] {
      KeptDone(b, b);
    } else {
      var b1 := LowerStmt(b, sts[0]);
      StmtDone(b, sts[0]);
      DoneFacts(b, b1);
      if !b1.Terminated() {
        AllDone(b1, sts[1..]);
        DoneTrans(b, b1, LowerAll(b1, sts[1..]));
      }
    }
  }

  lemma DoneTrans(b: Builder, b1: Builder, b2: Builder)
    requires Ready(b) && Done(b, b1) && Done(b1, b2)
    ensures Done(b, b2)
  {
    hide Grows, Good, Open;
    GrowsTrans(b, b1, b2, {});
  }

  lemma TwoNew(b: Builder, b1: Builder)
    requires Good(b) && Kept(b, b1)
    ensures var n, b2 := b1.nextBlock, NewBlock(NewBlock(b1));
      Grows(b, b2, {n, n + 1}) && Ready(b2) && b2.scope == b1.scope && b2.nextId == b1.nextId && b2.nextBlock == n + 2
        && b2.cur == b1.cur
  {
    hide Grows, Open, Good, Ready;
    var n := b1.nextBlock;
    GrowsNewBlock(b, b1, {});
    GrowsNewBlock(b, NewBlock(b1), {} + {n});
    assert {} + {n} + {n + 1} == {n, n + 1};
  }

  lemma ThreeNew(b: Builder, b1: Builder)
    requires Good(b) && Kept(b, b1)
    ensures var n, b2 := b1.nextBlock, NewBlock(NewBlock(NewBlock(b1)));
      && Grows(b, b2, {n, n + 1, n + 2}) && Ready(b2) && b2.scope == b1.scope && b2.nextId == b1.nextId
      && b2.nextBlock == n + 3
      && b2.cur == b1.cur && b2.Pred(n + 1) == []
  {
    hide Grows, Open, Good, Ready;
    var n := b1.nextBlock;
    TwoNew(b, b1);
    GrowsNewBlock(b, NewBlock(NewBlock(b1)), {n, n + 1});
    assert {n, n + 1} + {n + 2} == {n, n + 1, n + 2};
  }

  lemma IndexReady(b: Builder, o: Operand, ty: Ty)
    requires Ready(b)
    ensures Below(o, b.nextId) ==> Below(Index(b, o, ty).o, Index(b, o, ty).b.nextId)
    ensures var k, e := Index(b, o, ty), b.nextBlock;
      Ready(k.b) && Grows(b, k.b, {e, e + 1}) && k.b.scope == b.scope && k.b.ret == b.ret && k.b.cur == b.cur
        && b.nextId <= k.b.nextId
  {
    hide Grows, Good, Open;
    var e := b.nextBlock;
    SelfKept(b);
    TwoNew(b, b);
    var b1 := NewBlock(NewBlock(b));
    AppendGrows(b1, Op(b1.nextId, FPTOSI, [o]));
    GrowsTrans(b, b1, Append(b1, Op(b1.nextId, FPTOSI, [o])), {e, e + 1});
    GrowsFacts(b, b1, {e, e + 1});
  }

  lemma IfStarted(b: Builder, c: Expr, hasElse: bool)
    requires Ready(b) && Addressed(b.scope)
    ensures var n, b1 := LowerExpr(b, c).b.nextBlock, IfStart(b, c, hasElse);
      && b.nextBlock <= n && Grows(b, b1, {n + 1, n + 2}) && Ready(b1) && b1.scope == b.scope
      && n + 1 in b1.code && n + 2 in b1.code && (!hasElse ==> b1.Pred(n + 1) == [])
  {
    hide Grows, Open, Addressed, NewBlock, Kept, LowerExpr, Append;
    ExprKept(b, c);
    var x := LowerExpr(b, c);
    KeptFacts(b, x.b);
    var n := x.b.nextBlock;
    ThreeNew(b, x.b);
    var b0 := NewBlock(NewBlock(NewBlock(x.b)));
    var op, f := TestName(x.ty), if hasElse then n + 1 else n + 2;
    ForkGrows(b, b0, op, x.o, n, f, {n, n + 1, n + 2});
    assert {n, n + 1, n + 2} - {n} == {n + 1, n + 2};
    assert Forked(b0, op, x.o, n, f).Pred(n + 1) == b0.Pred(n + 1) || hasElse;
    GrowsTodo(b, IfStart(b, c, hasElse), {n + 1, n + 2}, n + 1);
    GrowsTodo(b, IfStart(b, c, hasElse), {n + 1, n + 2}, n + 2);
  }

  lemma ForkedOthers(b: Builder, op: string, o: Operand, t: Block, f: Block, x: Block)
    requires x != b.cur
    ensures Forked(b, op, o, t, f).Code(x) == b.Code(x)
  {
  }

  lemma TodoEmpty(b: Builder, b': Builder, todo: set<Block>, x: Block)
    requires Grows(b, b', todo) && x in todo
    ensures b'.Code(x) == [] && x != b'.cur && x in b'.code
  {
  }

  function IfEnd(b: Builder, c: Expr, t: Stmt, f: Option<Stmt>): Builder {
    BranchTo(LowerStmt(IfStart(b, c, f.Some?), t), LowerExpr(b, c).b.nextBlock + 2)
  }

  function ElseStart(b: Builder, c: Expr, t: Stmt, f: Stmt): Builder {
    SetInsert(IfEnd(b, c, t, Some(f)), LowerExpr(b, c).b.nextBlock + 1)
  }

  function ElseEnd(b: Builder, c: Expr, t: Stmt, f: Stmt): Builder {
    BranchTo(LowerStmt(ElseStart(b, c, t, f), f), LowerExpr(b, c).b.nextBlock + 2)
  }

  /** Where the condition and the first arm of an `if` are. */
  lemma {:induction false} IfParts(b: Builder, c: Expr, t: Stmt, f: Option<Stmt>)
    requires Ready(b) && Addressed(b.scope)
    ensures var n, b1 := LowerExpr(b, c).b.nextBlock, IfStart(b, c, f.Some?);
      && Ready(b1) && b1.cur == n && b1.Code(n) == [] && b1.scope == b.scope && b1.ret == b.ret
      && Done(b1, LowerStmt(b1, t))
    ensures var n, b3 := LowerExpr(b, c).b.nextBlock, IfEnd(b, c, t, f);
      && Grows(b, b3, {n + 1, n + 2}) && Sealed(b3.code[b3.cur]) && b3.scope == b.scope && b3.Code(n + 1) == []
      && b3.Code(n + 2) == []
      && (f.None? ==> b3.Pred(n + 1) == [])
    decreases If(c, t, f), 0
  {
    hide Grows, Good, Open, Addressed, LowerExpr, LowerStmt, BranchTo, NewBlock, Append, Forked;
    IfStarted(b, c, f.Some?);
    ExprKept(b, c);
    var x := LowerExpr(b, c);
    KeptFacts(b, x.b);
    var n, b1 := x.b.nextBlock, IfStart(b, c, f.Some?);
    ThreeNew(b, x.b);
    var b0 := NewBlock(NewBlock(NewBlock(x.b)));
    TodoEmpty(b, b0, {n, n + 1, n + 2}, n);
    IfStartForked(b, c, f.Some?);
    ForkedOthers(b0, TestName(x.ty), x.o, n, if f.Some? then n + 1 else n + 2, n);
    GrowsFacts(b, b1, {n + 1, n + 2});
    StmtDone(b1, t);
    var b2 := LowerStmt(b1, t);
    GrowsHas(b1, b2, {}, n + 1);
    GrowsHas(b1, b2, {}, n + 2);
    GrowsTrans(b, b1, b2, {n + 1, n + 2});
    BranchSealed(b, b2, {n + 1, n + 2}, n + 2);
    TodoEmpty(b, IfEnd(b, c, t, f), {n + 1, n + 2}, n + 1);
    TodoEmpty(b, IfEnd(b, c, t, f), {n + 1, n + 2}, n + 2);
  }

  lemma IfStartForked(b: Builder, c: Expr, hasElse: bool)
    ensures var x := LowerExpr(b, c); var n := x.b.nextBlock;
      IfStart(b, c, hasElse) ==
      Forked(NewBlock(NewBlock(NewBlock(x.b))), TestName(x.ty), x.o, n, if hasElse then n + 1 else n + 2)
      && IfStart(b, c, hasElse).cur == n
  {
    hide LowerExpr, NewBlock, EmitOp, EmitCondBr, TestName;
  }

  /** Where the second arm is, and the end. */
  lemma {:induction false} ElseParts(b: Builder, c: Expr, t: Stmt, f: Stmt)
    requires Ready(b) && Addressed(b.scope)
    ensures var n, b4 := LowerExpr(b, c).b.nextBlock, ElseStart(b, c, t, f);
      && Ready(b4) && b4.cur == n + 1 && b4.Code(n + 1) == [] && b4.scope == b.scope && b4.ret == b.ret
      && Done(b4, LowerStmt(b4, f))
    ensures var n, b6 := LowerExpr(b, c).b.nextBlock, ElseEnd(b, c, t, f);
      && Grows(b, b6, {n + 2}) && Sealed(b6.code[b6.cur]) && b6.Code(n + 2) == [] && b6.scope == b.scope
    decreases If(c, t, Some(f)), 1
  {
    hide Grows, Good, Open, Addressed, LowerExpr, LowerStmt, BranchTo, IfEnd, IfStart;
    IfParts(b, c, t, Some(f));
    var n, b3, b4 := LowerExpr(b, c).b.nextBlock, IfEnd(b, c, t, Some(f)), ElseStart(b, c, t, f);
    GrowsMove(b, b3, {n + 1, n + 2}, n + 1);
    assert {n + 1, n + 2} - {n + 1} == {n + 2};
    GrowsFacts(b, b4, {n + 2});
    GrowsTodo(b, b4, {n + 2}, n + 2);
    StmtDone(b4, f);
    var b5 := LowerStmt(b4, f);
    GrowsHas(b4, b5, {}, n + 2);
    GrowsTrans(b, b4, b5, {n + 2});
    BranchSealed(b, b5, {n + 2}, n + 2);
    TodoEmpty(b, ElseEnd(b, c, t, f), {n + 2}, n + 2);
  }

  lemma IfLast(b: Builder, c: Expr, t: Stmt, f: Option<Stmt>)
    ensures var n, b' := LowerExpr(b, c).b.nextBlock, LowerStmt(b, If(c, t, f));
      b' == SetInsert(if f.None? then RemoveBlock(IfEnd(b, c, t, f), n + 1) else ElseEnd(b, c, t, f.value), n + 2)
  {
    hide LowerExpr, LowerStmt, RemoveBlock, SetInsert, IfEnd, ElseEnd;
    if f.None? {
      IfNoElseLast(b, c, t);
    } else {
      IfElseLast(b, c, t, f.value);
    }
  }

  lemma IfNoElseLast(b: Builder, c: Expr, t: Stmt)
    ensures var n := LowerExpr(b, c).b.nextBlock;
      LowerStmt(b, If(c, t, None)) == SetInsert(RemoveBlock(IfEnd(b, c, t, None), n + 1), n + 2)
  {
    hide LowerExpr, RemoveBlock, BranchTo, NewBlock, Forked, TestName, SetInsert;
  }

  lemma IfElseLast(b: Builder, c: Expr, t: Stmt, f: Stmt)
    ensures var n := LowerExpr(b, c).b.nextBlock;
      LowerStmt(b, If(c, t, Some(f))) == SetInsert(ElseEnd(b, c, t, f), n + 2)
  {
    hide LowerExpr, RemoveBlock, BranchTo, NewBlock, Forked, TestName, SetInsert;
  }

  lemma RemoveCode(b: Builder, x: Block, y: Block)
    ensures RemoveBlock(b, x).Code(y) == if x == y then [] else b.Code(y)
    ensures RemoveBlock(b, x).scope == b.scope
  {
  }

  lemma {:induction false} IfDone(b: Builder, c: Expr, t: Stmt, f: Option<Stmt>)
    requires Ready(b) && Addressed(b.scope)
    ensures Done(b, LowerStmt(b, If(c, t, f))) && Ready(LowerStmt(b, If(c, t, f)))
    decreases If(c, t, f), 2
  {
    hide Grows, Good, Open, Addressed, LowerExpr, LowerStmt, RemoveBlock, IfEnd, ElseEnd, ElseStart, IfStart;
    var n, b3 := LowerExpr(b, c).b.nextBlock, IfEnd(b, c, t, f);
    IfParts(b, c, t, f);
    IfLast(b, c, t, f);
    if f.None? {
      GrowsTodo(b, b3, {n + 1, n + 2}, n + 1);
      NotIn(b, n + 1);
      GrowsRemove(b, b3, {n + 1, n + 2}, n + 1);
      assert {n + 1, n + 2} - {n + 1} == {n + 2};
      RemoveSealed(b3, n + 1);
      GrowsMove(b, RemoveBlock(b3, n + 1), {n + 2}, n + 2);
    } else {
      ElseParts(b, c, t, f.value);
      GrowsMove(b, ElseEnd(b, c, t, f.value), {n + 2}, n + 2);
    }
    assert {n + 2} - {n + 2} == {};
  }

  lemma GrowsTodo(b: Builder, b': Builder, todo: set<Block>, x: Block)
    requires Grows(b, b', todo) && x in todo
    ensures b'.cur in b'.code && x != b'.cur && x >= b.nextBlock && x in b'.code
  {
  }

  lemma GrowsHas(b: Builder, b': Builder, todo: set<Block>, x: Block)
    requires Grows(b, b', todo) && x in b.code
    ensures x in b'.code && b'.Pred(x) == b.Pred(x)
  {
  }

  lemma NotIn(b: Builder, x: Block)
    requires Good(b) && x >= b.nextBlock
    ensures x !in b.code
  {
  }

  lemma RemoveSealed(b: Builder, x: Block)
    requires b.cur in b.code && x != b.cur && Sealed(b.code[b.cur])
    ensures var b' := RemoveBlock(b, x); b'.cur in b'.code && Sealed(b'.code[b'.cur]) && b'.scope == b.scope
  {
  }

  function WhileEnd(b: Builder, c: Expr, body: Stmt): Builder {
    BranchTo(LowerStmt(WhileBody(b, c), body), b.nextBlock)
  }

  lemma WhileLast(b: Builder, c: Expr, body: Stmt)
    ensures LowerStmt(b, While(c, body)) == SetInsert(WhileEnd(b, c, body), LowerExpr(WhileStart(b), c).b.nextBlock + 1)
  {
    hide LowerExpr, BranchTo, NewBlock, Forked, TestName;
  }

  lemma WhileBodyForked(b: Builder, c: Expr)
    ensures var x := LowerExpr(WhileStart(b), c); var n := x.b.nextBlock;
      WhileBody(b, c) == Forked(NewBlock(NewBlock(x.b)), TestName(x.ty), x.o, n, n + 1) && WhileBody(b, c).cur == n
  {
    hide LowerExpr, WhileStart, NewBlock, EmitOp, EmitCondBr, TestName;
  }

  lemma WhileStarted(b: Builder, c: Expr)
    requires Ready(b) && Addressed(b.scope)
    ensures Grows(b, WhileStart(b), {}) && Ready(WhileStart(b)) && WhileStart(b).scope == b.scope
    ensures var n, b2 := LowerExpr(WhileStart(b), c).b.nextBlock, WhileBody(b, c);
      b.nextBlock <= n && Grows(b, b2, {n + 1}) && Ready(b2) && b2.scope == b.scope && b.nextBlock in b2.code
  {
    hide Grows, Good, Open, Addressed, BranchTo, NewBlock, LowerExpr, Append, Kept;
    var b1 := WhileStart(b);
    WhileEntered(b);
    ExprKept(b1, c);
    var x := LowerExpr(b1, c);
    KeptFacts(b1, x.b);
    var n := x.b.nextBlock;
    TwoNew(b1, x.b);
    ForkGrows(b1, NewBlock(NewBlock(x.b)), TestName(x.ty), x.o, n, n + 1, {n, n + 1});
    assert {n, n + 1} - {n} == {n + 1};
    GrowsLater(b, b1, WhileBody(b, c), {n + 1});
    GrowsHas(b1, WhileBody(b, c), {n + 1}, b.nextBlock);
  }

  lemma WhileEntered(b: Builder)
    requires Ready(b)
    ensures Grows(b, WhileStart(b), {}) && Ready(WhileStart(b)) && WhileStart(b).scope == b.scope
    ensures WhileStart(b).nextBlock == b.nextBlock + 1
    ensures b.nextBlock in WhileStart(b).code
  {
    hide Grows, Open, BranchTo;
    var e := b.nextBlock;
    GrowsSelf(b);
    GrowsNewBlock(b, b, {});
    assert {} + {e} == {e};
    BranchSealed(b, NewBlock(b), {e}, e);
    GrowsMove(b, BranchTo(NewBlock(b), e), {e}, e);
    assert {e} - {e} == {};
  }

  lemma GrowsLater(b: Builder, b1: Builder, b2: Builder, todo: set<Block>)
    requires Good(b) && Grows(b, b1, {}) && Grows(b1, b2, todo)
    ensures Grows(b, b2, todo)
  {
    hide Open;
    forall x | x in b.code && x != b.cur
      ensures x in b2.code && b2.code[x] == b.code[x]
    {
      assert x in b1.code && b1.code[x] == b.code[x] && x != b1.cur;
    }
    forall x | x in b2.code && (x == b.cur || x >= b.nextBlock) && x != b2.cur && x !in todo
      ensures Sealed(b2.code[x])
    {
      if x in b1.code && x != b1.cur {
        assert b2.code[x] == b1.code[x];
      }
    }
    if b1.cur == b.cur {
      LongerTrans(b.code[b.cur], b1.code[b.cur], b2.code[b.cur]);
    }
  }

  lemma {:induction false} WhileDone(b: Builder, c: Expr, body: Stmt)
    requires Ready(b) && Addressed(b.scope)
    ensures Done(b, LowerStmt(b, While(c, body))) && Ready(LowerStmt(b, While(c, body)))
    decreases While(c, body), 2
  {
    hide Grows, Good, Open, Addressed, LowerExpr, LowerStmt, BranchTo, WhileStart, WhileBody;
    WhileLast(b, c, body);
    WhileStarted(b, c);
    var n, b2 := LowerExpr(WhileStart(b), c).b.nextBlock, WhileBody(b, c);
    StmtDone(b2, body);
    var b3 := LowerStmt(b2, body);
    GrowsHas(b2, b3, {}, b.nextBlock);
    GrowsTrans(b, b2, b3, {n + 1});
    BranchSealed(b, b3, {n + 1}, b.nextBlock);
    GrowsMove(b, BranchTo(b3, b.nextBlock), {n + 1}, n + 1);
    assert {n + 1} - {n + 1} == {};
  }

  // ----- functions -----

  lemma ParamDeclared(b: Builder, d: VarDecl, i: nat)
    requires Ready(b) && Addressed(b.scope)
    ensures Declared(b, LowerParam(b, d, i))
  {
    hide Grows, Good, Open, Addressed, Append;
    SelfKept(b);
    var b1 := Append(b, Alloca(d.site, !d.isArray));
    AppendOne(b, b, Alloca(d.site, !d.isArray));
    AppendOne(b, b1, Store(b1.nextId, Arg(i), Slot(d.site)));
    var b2 := EmitStore(b1, Arg(i), Slot(d.site));
    BindAddressed(b2.scope, d.id, Var(Slot(d.site), One(ParamTy(d))));
    GrowsSame(b, b2, {}, LowerParam(b, d, i));
    Rescoped(b2, LowerParam(b, d, i));
  }

  lemma {:induction false} ParamsDeclared(b: Builder, ds: seq<VarDecl>, i: nat)
    requires Ready(b) && Addressed(b.scope) && i <= |ds|
    ensures Declared(b, LowerParams(b, ds, i))
    decreases |ds| - i
  {
    hide Grows, Good, Open, Addressed, LowerParam;
    if i == |ds| {
      GrowsSelf(b);
    } else {
      var b1 := LowerParam(b, ds[i], i);
      ParamDeclared(b, ds[i], i);
      ParamsDeclared(b1, ds, i + 1);
      GrowsTrans(b, b1, LowerParams(b1, ds, i + 1), {});
    }
  }

  /** The graph of a function under construction. */
  function Graph(b: Builder): Cfg {
    Cfg(b.blocks, b.succ, b.pred)
  }

  /** In a lowered function every block ends in its only branch or return, the lists of neighbours mirror the
      branches, and no branch leads to the entry; the scopes are as before. */
  lemma FunctionShape(f: FunDecl, globals: map<string, Symbol>, firstId: Id)
    requires Addressed([globals])
    ensures var b := LowerFun(f, globals, firstId);
      && (forall x {:trigger b.code[x]} :: x in b.code ==> Sealed(b.code[x]))
      && Mirrored(b) && Graph(b).Valid() && Graph(b).Entry() == ENTRY && b.Pred(ENTRY) == []
      && |b.scope| == 2 && b.scope[0] == globals
  {
    hide Grows, Good, Open, LowerParams, LowerStmt;
    var b0 := Begin(f.ret, globals, firstId);
    BeginReady(f.ret, globals, firstId);
    ParamsDeclared(b0, f.params, 0);
    var b1 := LowerParams(b0, f.params, 0);
    StmtDone(b1, f.body);
    var b2 := LowerStmt(b1, f.body);
    GrowsTrans(b0, b1, b2, {});
    DoneFacts(b1, b2);
    var i := Instr.Ret(b2.nextId, DefaultOperands(f.ret));
    if !b2.Terminated() {
      AppendGrows(b2, i);
      GrowsTrans(b0, b2, Append(b2, i), {});
    }
    AllSealed(b0, LowerFun(f, globals, firstId));
    assert Leave(b1.scope)[0] == Leave(b0.scope)[0] == globals;
  }

  lemma BeginReady(ret: Ty, globals: map<string, Symbol>, firstId: Id)
    requires Addressed([globals])
    ensures var b := Begin(ret, globals, firstId); Ready(b) && Addressed(b.scope)
  {
    var b := Begin(ret, globals, firstId);
    assert forall x :: b.Succ(x) == [] && b.Pred(x) == [] && b.Code(x) == [];
    assert Targets([]) == [];
    assert [globals][0] == b.scope[0];
  }

  lemma AllSealed(b0: Builder, b: Builder)
    requires b0.code == map[ENTRY := []] && b0.cur == ENTRY && b0.nextBlock == ENTRY + 1 && b0.blocks == [ENTRY]
    requires b0.Pred(ENTRY) == []
    requires Grows(b0, b, {}) && Sealed(b.code[b.cur])
    ensures (forall x {:trigger b.code[x]} :: x in b.code ==> Sealed(b.code[x]))
    ensures Mirrored(b) && Graph(b).Valid() && Graph(b).Entry() == ENTRY && b.Pred(ENTRY) == []
  {
    hide Sealed, NoRepeats, Targets;
    forall x | x in b.code
      ensures Sealed(b.code[x])
    {
      if x != b.cur && x != ENTRY {
        assert x >= b0.nextBlock;
      }
    }
    var g := Graph(b);
    assert b.Pred(ENTRY) == b0.Pred(ENTRY);
    assert g.blocks[0] in b.blocks;
    forall x, y | g.Edge(x, y)
      ensures g.HasBlock(x) && g.HasBlock(y) && x in g.pred[y]
    {
      assert y in b.Succ(x);
      assert x in b.Pred(y);
    }
    forall x, y | y in g.pred && x in g.pred[y]
      ensures g.Edge(x, y)
    {
      assert x in b.Pred(y);
      assert y in b.Succ(x);
    }
  }
}
