/** Names in lowered code: every instruction has an identity of its own, and every value is computed before it is
    used, in the same block or in one that all paths to the use go through. */
module LoweringNames {
  import opened ControlFlow
  import opened IR
  import opened Scopes
  import opened Syntax
  import opened Lowering
  import opened LoweringShape
  import Promotion

  // ----- where a value is available -----

  /** The conditional branch that goes on in `y` unless it leaves for the block made just before. */
  predicate ForksTo(i: Instr, y: Block) {
    i.CondBr? && i.ifTrue == y - 1 && i.ifFalse == y
  }

  /** The block is entered from a single earlier block, by the branch of an index check or the like. */
  ghost predicate Fixed(b: Builder, y: Block) {
    && |b.Pred(y)| == 1 && 0 <= b.Pred(y)[0] < y
    && var c := b.Code(b.Pred(y)[0]); c != [] && ForksTo(c[|c| - 1], y)
  }

  /** All paths to `x` come from `d`, through blocks that are entered from a single one. */
  ghost predicate Chain(b: Builder, x: Block, d: Block)
    decreases x
  {
    x == d || (Fixed(b, x) && Chain(b, b.Pred(x)[0], d))
  }

  predicate IsValue(o: Operand) {
    o.Reg? || o.Elem?
  }

  /** Instruction `j` of block `d` computes the operand. */
  predicate Computes(b: Builder, o: Operand, d: Block, j: int)
    requires IsValue(o)
  {
    0 <= j < |b.Code(d)| && b.Code(d)[j].id == o.id && Promotion.ClassFits(o, b.Code(d)[j])
  }

  /** The operand has been computed on every path to position `k` of block `x`. */
  ghost predicate Avail(b: Builder, o: Operand, x: Block, k: int) {
    IsValue(o) ==> exists d, j {:trigger Computes(b, o, d, j)} ::
      Computes(b, o, d, j) && Chain(b, x, d) && (x == d ==> j < k)
  }

  /** The operand is available to the next instruction. */
  ghost predicate Now(b: Builder, o: Operand) {
    Avail(b, o, b.cur, |b.Code(b.cur)|)
  }

  ghost predicate AllNow(b: Builder, os: seq<Operand>) {
    forall o {:trigger o in os} :: o in os ==> Now(b, o)
  }

  predicate PlainAddr(o: Operand) {
    o.Slot? || o.Global? || o.Elem?
  }

  predicate PlainInstr(i: Instr) {
    i.Load? || i.Store? ==> PlainAddr(i.ptr)
  }

  // ----- the invariant -----

  /** Declarations have identities below `first` and in `used`, other instructions those given out since, and no two
      the same. */
  ghost predicate NamesOk(b: Builder, first: Id, used: set<Id>) {
    && first <= b.nextId
    && (forall x, k {:trigger b.Code(x)[k]} :: 0 <= k < |b.Code(x)| ==>
          if b.Code(x)[k].Alloca? then b.Code(x)[k].id in used && b.Code(x)[k].id < first
            else first <= b.Code(x)[k].id < b.nextId)
    && (forall x, k, y, m {:trigger b.Code(x)[k], b.Code(y)[m]} ::
          0 <= k < |b.Code(x)| && 0 <= m < |b.Code(y)| && b.Code(x)[k].id == b.Code(y)[m].id ==> x == y && k == m)
  }

  ghost predicate UsesOk(b: Builder) {
    forall x, k, o {:trigger o in b.Code(x)[k].Operands()} ::
      0 <= k < |b.Code(x)| && o in b.Code(x)[k].Operands() ==> Avail(b, o, x, k)
  }

  ghost predicate PlainOk(b: Builder) {
    b.aborted || forall x, k {:trigger b.Code(x)[k]} :: 0 <= k < |b.Code(x)| ==> PlainInstr(b.Code(x)[k])
  }

  ghost predicate Sound(b: Builder, first: Id, used: set<Id>) {
    NamesOk(b, first, used) && UsesOk(b) && PlainOk(b) && 0 <= b.cur < b.nextBlock
  }

  // ----- growing -----

  /** All code stays where it is, and blocks entered from a single one stay so. */
  ghost predicate Extends(b: Builder, b': Builder) {
    && (b.aborted ==> b'.aborted)
    && (forall x {:trigger b.Code(x)} {:trigger b'.Code(x)} :: b.Code(x) <= b'.Code(x))
    && (forall y {:trigger Fixed(b, y)} :: Fixed(b, y) ==> Fixed(b', y) && b'.Pred(y) == b.Pred(y))
  }

  lemma ExtendsSelf(b: Builder)
    ensures Extends(b, b) && Flows(b, b)
  {
  }

  lemma ExtendsTrans(b: Builder, b1: Builder, b2: Builder)
    requires Extends(b, b1) && Extends(b1, b2)
    ensures Extends(b, b2)
  {
    hide Fixed;
    forall x
      ensures b.Code(x) <= b2.Code(x)
    {
      assert b.Code(x) <= b1.Code(x) <= b2.Code(x);
    }
    forall y | Fixed(b, y)
      ensures Fixed(b2, y) && b2.Pred(y) == b.Pred(y)
    {
      assert Fixed(b1, y) && b1.Pred(y) == b.Pred(y);
    }
  }

  lemma {:induction false} ChainExtends(b: Builder, b': Builder, x: Block, d: Block)
    requires Extends(b, b') && Chain(b, x, d)
    ensures Chain(b', x, d)
    decreases x
  {
    if x != d {
      ChainExtends(b, b', b.Pred(x)[0], d);
    }
  }

  lemma {:induction false} ChainTrans(b: Builder, x: Block, y: Block, d: Block)
    requires Chain(b, x, y) && Chain(b, y, d)
    ensures Chain(b, x, d)
    decreases x
  {
    if x != y {
      ChainTrans(b, b.Pred(x)[0], y, d);
    }
  }

  lemma AvailExtends(b: Builder, b': Builder, o: Operand, x: Block, k: int)
    requires Extends(b, b') && Avail(b, o, x, k)
    ensures Avail(b', o, x, k)
  {
    hide Extends;
    if IsValue(o) {
      var d, j :| Computes(b, o, d, j) && Chain(b, x, d) && (x == d ==> j < k);
      ChainExtends(b, b', x, d);
      ComputesExtends(b, b', o, d, j);
    }
  }

  lemma ComputesExtends(b: Builder, b': Builder, o: Operand, d: Block, j: int)
    requires Extends(b, b') && IsValue(o) && Computes(b, o, d, j)
    ensures Computes(b', o, d, j)
  {
    assert b.Code(d)[j] == b'.Code(d)[j];
  }

  /** More has been lowered, and all paths to where lowering has come go through where it was. */
  ghost predicate Flows(b: Builder, b': Builder) {
    Extends(b, b') && Chain(b', b'.cur, b.cur)
  }

  lemma FlowsTrans(b: Builder, b1: Builder, b2: Builder)
    requires Flows(b, b1) && Flows(b1, b2)
    ensures Flows(b, b2)
  {
    hide Extends;
    ExtendsTrans(b, b1, b2);
    ChainExtends(b1, b2, b1.cur, b.cur);
    ChainTrans(b2, b2.cur, b1.cur, b.cur);
  }

  /** What was available still is. */
  lemma NowFlows(b: Builder, b': Builder, o: Operand)
    requires Flows(b, b') && Now(b, o)
    ensures Now(b', o)
  {
    hide Extends, Chain;
    if IsValue(o) {
      var d, j :| Computes(b, o, d, j) && Chain(b, b.cur, d) && (b.cur == d ==> j < |b.Code(b.cur)|);
      ComputesExtends(b, b', o, d, j);
      ChainExtends(b, b', b.cur, d);
      ChainTrans(b', b'.cur, b.cur, d);
    }
  }

  /** An instruction at the end of an open block. */
  lemma AppendExtends(b: Builder, i: Instr)
    requires Open(b.Code(b.cur))
    ensures Extends(b, Append(b, i)) && Flows(b, Append(b, i)) && Append(b, i).Code(b.cur) == b.Code(b.cur) + [i]
    ensures forall x {:trigger Append(b, i).Code(x)} :: x != b.cur ==> Append(b, i).Code(x) == b.Code(x)
  {
    var b' := Append(b, i);
    forall x
      ensures b'.Code(x) == if x == b.cur then b.Code(x) + [i] else b.Code(x)
      ensures b'.Pred(x) == b.Pred(x)
    {
    }
  }

  lemma AppendNames(b: Builder, i: Instr, first: Id, used: set<Id>, used': set<Id>)
    requires NamesOk(b, first, used) && Open(b.Code(b.cur)) && used <= used'
    requires if i.Alloca? then i.id in used' && i.id !in used && i.id < first else i.id == b.nextId
    ensures NamesOk(Append(b, i), first, used')
  {
    hide Extends, Flows, Open, Append, Builder.Code;
    AppendExtends(b, i);
    AppendFields(b, i);
    var b' := Append(b, i);
    var n := |b.Code(b.cur)|;
    forall x, k | 0 <= k < |b'.Code(x)|
      ensures (b'.Code(x)[k] == i && x == b.cur && k == n) || (k < |b.Code(x)| && b'.Code(x)[k] == b.Code(x)[k])
      ensures b'.Code(x)[k].id == i.id ==> x == b.cur && k == n
      ensures if b'.Code(x)[k].Alloca? then b'.Code(x)[k].id in used' && b'.Code(x)[k].id < first
        else first <= b'.Code(x)[k].id < b'.nextId
    {
    }
  }

  lemma AppendUses(b: Builder, i: Instr)
    requires UsesOk(b) && Open(b.Code(b.cur)) && AllNow(b, i.Operands())
    ensures UsesOk(Append(b, i))
  {
    hide Extends, Flows, Open, Avail;
    AppendExtends(b, i);
    var b' := Append(b, i);
    forall x, k, o | 0 <= k < |b'.Code(x)| && o in b'.Code(x)[k].Operands()
      ensures Avail(b', o, x, k)
    {
      if x == b.cur && k == |b.Code(x)| {
        assert Now(b, o);
        AvailExtends(b, b', o, x, k);
      } else {
        assert o in b.Code(x)[k].Operands();
        AvailExtends(b, b', o, x, k);
      }
    }
  }

  lemma AppendPlain(b: Builder, i: Instr)
    requires PlainOk(b) && Open(b.Code(b.cur)) && (b.aborted || PlainInstr(i))
    ensures PlainOk(Append(b, i))
  {
    hide Extends, Flows, Open;
    AppendExtends(b, i);
    var b' := Append(b, i);
    forall x, k | !b.aborted && 0 <= k < |b'.Code(x)|
      ensures PlainInstr(b'.Code(x)[k])
    {
      if x != b.cur || k < |b.Code(x)| {
        assert b'.Code(x)[k] == b.Code(x)[k];
      }
    }
  }

  lemma AppendSound(b: Builder, i: Instr, first: Id, used: set<Id>)
    requires Sound(b, first, used) && Open(b.Code(b.cur)) && AllNow(b, i.Operands()) && (b.aborted || PlainInstr(i))
    requires !i.Alloca? && i.id == b.nextId
    ensures Sound(Append(b, i), first, used) && Flows(b, Append(b, i)) && Extends(b, Append(b, i))
    ensures i.Load? || i.Op? || i.Call? ==> Now(Append(b, i), Reg(i.id))
    ensures i.Gep? ==> Now(Append(b, i), Elem(i.id))
  {
    hide NamesOk, UsesOk, PlainOk, Open, AllNow, Extends, PlainInstr;
    AppendExtends(b, i);
    AppendNames(b, i, first, used, used);
    AppendUses(b, i);
    AppendPlain(b, i);
    var b', n := Append(b, i), |b.Code(b.cur)|;
    assert b'.Code(b.cur)[n] == i && Chain(b', b.cur, b.cur);
    assert Computes(b', Reg(i.id), b.cur, n) || !(i.Load? || i.Op? || i.Call?);
    assert Computes(b', Elem(i.id), b.cur, n) || !i.Gep?;
  }

  lemma SameCodeExtends(b: Builder, b': Builder)
    requires forall x {:trigger b'.Code(x)} {:trigger b.Code(x)} :: b'.Code(x) == b.Code(x)
    requires b.aborted ==> b'.aborted
    requires forall y {:trigger Fixed(b, y)} {:trigger b'.Pred(y)} :: Fixed(b, y) ==> b'.Pred(y) == b.Pred(y)
    ensures Extends(b, b')
  {
    forall y | Fixed(b, y)
      ensures Fixed(b', y) && b'.Pred(y) == b.Pred(y)
    {
      assert b'.Code(b.Pred(y)[0]) == b.Code(b.Pred(y)[0]);
    }
  }

  /** The code is the same, and only blocks that are not fixed have other neighbours. */
  lemma SameCodeSound(b: Builder, b': Builder, first: Id, used: set<Id>)
    requires Sound(b, first, used) && (forall x {:trigger b'.Code(x)} {:trigger b.Code(x)} :: b'.Code(x) == b.Code(x))
    requires b.nextId <= b'.nextId && (b.aborted ==> b'.aborted) && 0 <= b'.cur < b'.nextBlock
    requires forall y {:trigger Fixed(b, y)} {:trigger b'.Pred(y)} :: Fixed(b, y) ==> b'.Pred(y) == b.Pred(y)
    ensures Sound(b', first, used) && Extends(b, b')
  {
    hide Avail, Extends, Fixed, PlainInstr;
    SameCodeExtends(b, b');
    forall x, k, o | 0 <= k < |b'.Code(x)| && o in b'.Code(x)[k].Operands()
      ensures Avail(b', o, x, k)
    {
      assert o in b.Code(x)[k].Operands();
      AvailExtends(b, b', o, x, k);
    }
  }

  // ----- branches -----

  lemma NewBlockSound(b: Builder, first: Id, used: set<Id>)
    requires Sound(b, first, used) && b.nextBlock !in b.code && b.nextBlock !in b.pred
    ensures var b' := NewBlock(b);
      Sound(b', first, used) && Flows(b, b') && b'.Pred(b.nextBlock) == [] && b'.cur == b.cur
        && b'.Code(b.cur) == b.Code(b.cur)
    ensures forall y {:trigger NewBlock(b).Pred(y)} :: NewBlock(b).Pred(y) == b.Pred(y)
    ensures forall y {:trigger NewBlock(b).Code(y)} :: NewBlock(b).Code(y) == b.Code(y)
  {
    hide NamesOk, UsesOk, PlainOk, Extends;
    SameCodeSound(b, NewBlock(b), first, used);
  }

  lemma MoveSound(b: Builder, x: Block, first: Id, used: set<Id>)
    requires Sound(b, first, used) && 0 <= x < b.nextBlock
    ensures Sound(SetInsert(b, x), first, used) && Extends(b, SetInsert(b, x))
  {
    hide NamesOk, UsesOk, PlainOk, Extends;
    SameCodeSound(b, SetInsert(b, x), first, used);
  }

  lemma AbortSound(b: Builder, first: Id, used: set<Id>)
    requires Sound(b, first, used)
    ensures Sound(Abort(b), first, used) && Flows(b, Abort(b))
  {
    hide NamesOk, UsesOk, PlainOk, Extends;
    SameCodeSound(b, Abort(b), first, used);
  }

  lemma RescopeSound(b: Builder, scope: seq<map<string, Symbol>>, first: Id, used: set<Id>)
    requires Sound(b, first, used)
    ensures Sound(b.(scope := scope), first, used) && Flows(b, b.(scope := scope))
  {
    hide NamesOk, UsesOk, PlainOk, Extends;
    SameCodeSound(b, b.(scope := scope), first, used);
  }

  /** A branch to a block that may have several predecessors. */
  lemma BrSound(b: Builder, t: Block, first: Id, used: set<Id>)
    requires Sound(b, first, used) && Open(b.Code(b.cur)) && !Fixed(b, t)
    ensures Sound(EmitBr(b, t), first, used) && Extends(b, EmitBr(b, t))
    ensures EmitBr(b, t).Pred(t) == b.Pred(t) + [b.cur] && EmitBr(b, t).Code(b.cur) == b.Code(b.cur) + [Br(b.nextId, t)]
  {
    hide NamesOk, UsesOk, PlainOk, Extends, Open;
    var b1 := b.(pred := b.pred[t := b.Pred(t) + [b.cur]], succ := b.succ[b.cur := b.Succ(b.cur) + [t]]);
    SameCodeSound(b, b1, first, used);
    AppendSound(b1, Br(b.nextId, t), first, used);
    ExtendsTrans(b, b1, EmitBr(b, t));
    AppendExtends(b1, Br(b.nextId, t));
  }

  lemma CondBrSound(b: Builder, c: Operand, t: Block, f: Block, first: Id, used: set<Id>)
    requires Sound(b, first, used) && Open(b.Code(b.cur)) && Now(b, c) && !Fixed(b, t) && !Fixed(b, f) && t != f
    ensures Sound(EmitCondBr(b, c, t, f), first, used) && Extends(b, EmitCondBr(b, c, t, f))
  {
    hide NamesOk, UsesOk, PlainOk, Extends, Open, Now;
    var b1 := b.(pred := b.pred[t := b.Pred(t) + [b.cur]]);
    var b2 := b1.(pred := b1.pred[f := b1.Pred(f) + [b.cur]], succ := b.succ[b.cur := b.Succ(b.cur) + [f, t]]);
    SameCodeSound(b, b2, first, used);
    NowSame(b, b2, c);
    AppendSound(b2, CondBr(b.nextId, c, t, f), first, used);
    ExtendsTrans(b, b2, EmitCondBr(b, c, t, f));
  }

  lemma CondBrFacts(b: Builder, c: Operand, t: Block, f: Block)
    requires Open(b.Code(b.cur)) && t != f
    ensures var b' := EmitCondBr(b, c, t, f);
      b'.Pred(f) == b.Pred(f) + [b.cur] && b'.Code(b.cur) == b.Code(b.cur) + [CondBr(b.nextId, c, t, f)]
    ensures forall y {:trigger EmitCondBr(b, c, t, f).Pred(y)} ::
      y != t && y != f ==> EmitCondBr(b, c, t, f).Pred(y) == b.Pred(y)
  {
  }

  /** A test and the branch on it. */
  lemma ForkSound(b: Builder, op: string, o: Operand, t: Block, f: Block, first: Id, used: set<Id>)
    requires Sound(b, first, used) && Open(b.Code(b.cur)) && Now(b, o) && !Fixed(b, t) && !Fixed(b, f) && t != f
    requires 0 <= t < b.nextBlock
    ensures var b' := Forked(b, op, o, t, f); Sound(b', first, used) && Extends(b, b')
  {
    hide Sound, Extends, Open, Now, Fixed, EmitCondBr;
    var i := Op(b.nextId, op, [o, Const(0)]);
    ConstNow(b, 0);
    assert AllNow(b, i.Operands());
    AppendSound(b, i, first, used);
    AppendOpen(b, i);
    var b1 := Append(b, i);
    FixedAppend(b, i, t);
    FixedAppend(b, i, f);
    CondBrSound(b1, Reg(b.nextId), t, f, first, used);
    var b2 := EmitCondBr(b1, Reg(b.nextId), t, f);
    CondBrNext(b1, Reg(b.nextId), t, f);
    MoveSound(b2, t, first, used);
    ExtendsTrans(b, b1, b2);
    ExtendsTrans(b, b2, SetInsert(b2, t));
  }

  lemma CondBrNext(b: Builder, c: Operand, t: Block, f: Block)
    ensures EmitCondBr(b, c, t, f).nextBlock == b.nextBlock
  {
  }

  /** When the second target comes right after the first, and both are new, all paths to it come from here. */
  lemma ForkFixed(b: Builder, op: string, o: Operand, t: Block, f: Block)
    requires Open(b.Code(b.cur)) && f == t + 1 && b.Pred(f) == [] && 0 <= b.cur < f
    ensures Fixed(Forked(b, op, o, t, f), f) && Forked(b, op, o, t, f).Pred(f)[0] == b.cur
  {
    hide Open, Forked;
    ForkFacts(b, op, o, t, f);
  }

  lemma ForkFacts(b: Builder, op: string, o: Operand, t: Block, f: Block)
    requires Open(b.Code(b.cur)) && t != f
    ensures var b' := Forked(b, op, o, t, f);
      b'.cur == t && b'.nextBlock == b.nextBlock && b'.Pred(f) == b.Pred(f) + [b.cur]
    ensures forall y {:trigger Forked(b, op, o, t, f).Pred(y)} ::
      y != t && y != f ==> Forked(b, op, o, t, f).Pred(y) == b.Pred(y)
    ensures var c := Forked(b, op, o, t, f).Code(b.cur);
      c != [] && c[|c| - 1].CondBr? && c[|c| - 1].ifTrue == t && c[|c| - 1].ifFalse == f
  {
    hide Open, EmitCondBr;
    var i := Op(b.nextId, op, [o, Const(0)]);
    AppendOpen(b, i);
    var b1 := Append(b, i);
    CondBrFacts(b1, Reg(b.nextId), t, f);
    CondBrNext(b1, Reg(b.nextId), t, f);
    var b2, b' := EmitCondBr(b1, Reg(b.nextId), t, f), Forked(b, op, o, t, f);
    assert forall y :: b'.Pred(y) == b2.Pred(y) && b'.Code(y) == b2.Code(y) && b1.Pred(y) == b.Pred(y);
  }

  lemma ConstNow(b: Builder, c: Val)
    ensures Now(b, Const(c))
  {
  }

  lemma AppendOpen(b: Builder, i: Instr)
    requires Open(b.Code(b.cur)) && !i.IsTerminator()
    ensures Open(Append(b, i).Code(b.cur))
  {
    AppendExtends(b, i);
  }

  lemma FixedAppend(b: Builder, i: Instr, y: Block)
    requires Open(b.Code(b.cur)) && !i.IsTerminator()
    ensures Fixed(Append(b, i), y) <==> Fixed(b, y)
  {
    AppendExtends(b, i);
    AppendOpen(b, i);
  }

  lemma NowSame(b: Builder, b': Builder, o: Operand)
    requires Extends(b, b') && b'.cur == b.cur && b'.Code(b.cur) == b.Code(b.cur) && Now(b, o)
    ensures Now(b', o)
  {
    AvailExtends(b, b', o, b.cur, |b.Code(b.cur)|);
  }

  // ----- expressions -----

  lemma ReadyOpen(b: Builder)
    requires Ready(b)
    ensures Open(b.Code(b.cur)) && b.nextBlock !in b.code && b.nextBlock !in b.pred && b.Code(b.nextBlock) == []
    ensures b.Pred(b.nextBlock) == []
  {
  }

  /** One more instruction. */
  lemma Then(b0: Builder, b: Builder, i: Instr, first: Id, used: set<Id>)
    requires Flows(b0, b) && Sound(b, first, used) && Open(b.Code(b.cur)) && AllNow(b, i.Operands())
    requires (b.aborted || PlainInstr(i))
    requires !i.Alloca? && i.id == b.nextId
    ensures Sound(Append(b, i), first, used) && Flows(b0, Append(b, i))
    ensures i.Load? || i.Op? || i.Call? ==> Now(Append(b, i), Reg(i.id))
    ensures i.Gep? ==> Now(Append(b, i), Elem(i.id))
    ensures !i.IsTerminator() ==> Open(Append(b, i).Code(b.cur))
  {
    hide Sound, Flows, Open, Now, AllNow, PlainInstr;
    AppendSound(b, i, first, used);
    FlowsTrans(b0, b, Append(b, i));
    if !i.IsTerminator() {
      AppendOpen(b, i);
    }
  }

  lemma OnlyNow(b: Builder, x: Operand)
    requires Now(b, x)
    ensures AllNow(b, [x]) && AllNow(b, []) && AllNow(b, [x, Const(0)]) && AllNow(b, [x, Const(0), Const(0)])
  {
  }

  lemma BothNow(b: Builder, x: Operand, y: Operand)
    requires Now(b, x) && Now(b, y)
    ensures AllNow(b, [x, y]) && AllNow(b, [x, Const(0), y])
  {
  }

  lemma {:induction false} ExprSound(b: Builder, e: Expr, first: Id, used: set<Id>)
    requires Ready(b) && Addressed(b.scope) && Sound(b, first, used)
    ensures var r := LowerExpr(b, e); Sound(r.b, first, used) && Flows(b, r.b) && Now(r.b, r.o)
    decreases e, 2
  {
    hide Kept, Ready, Addressed, LowerPlace, Coerce, Sound, Flows, Now, AllNow, Open, Append;
    ExprKept(b, e);
    match e
    case Num(_, n) =>
      ExtendsSelf(b);
      ConstNow(b, n);
    case Ref(v) => RefSound(b, v, first, used);
    case Paren(inner) => ExprSound(b, inner, first, used);
    case Assign(d, rhs) => AssignSound(b, d, rhs, first, used);
    case Relation(op, _, _) =>
      PairSound(b, e, first, used);
      var p := LowerPair(b, e);
      PairKept(b, e);
      KeptFacts(b, p.b);
      ReadyOpen(p.b);
      BothNow(p.b, p.x, p.y);
      var c := EmitOp(p.b, RelName(op, p.isInt), [p.x, p.y], Int);
      Then(b, p.b, Op(p.b.nextId, RelName(op, p.isInt), [p.x, p.y]), first, used);
      AppendFields(p.b, Op(p.b.nextId, RelName(op, p.isInt), [p.x, p.y]));
      OnlyNow(c.b, c.o);
      Then(b, c.b, Op(c.b.nextId, ZEXT, [c.o]), first, used);
    case Arith(op, _, _) =>
      PairSound(b, e, first, used);
      var p := LowerPair(b, e);
      PairKept(b, e);
      KeptFacts(b, p.b);
      ReadyOpen(p.b);
      BothNow(p.b, p.x, p.y);
      Then(b, p.b, Op(p.b.nextId, ArithName(op, p.isInt), [p.x, p.y]), first, used);
    case CallFun(id, args) => CallSound(b, id, args, first, used);
  }

  lemma AppendFields(b: Builder, i: Instr)
    ensures var b' := Append(b, i);
      b'.cur == b.cur && b'.nextId == b.nextId + 1 && b'.scope == b.scope && b'.aborted == b.aborted
        && b'.nextBlock == b.nextBlock && b'.ret == b.ret
  {
  }

  lemma {:induction false} CallSound(b: Builder, id: string, args: seq<Expr>, first: Id, used: set<Id>)
    requires Ready(b) && Addressed(b.scope) && Sound(b, first, used)
    ensures var r := LowerExpr(b, CallFun(id, args)); Sound(r.b, first, used) && Flows(b, r.b) && Now(r.b, r.o)
    decreases args, 1
  {
    hide Kept, Ready, Addressed, Sound, Flows, Now, AllNow, Open, Append, LowerArgs;
    match Lookup<Symbol>(b.scope, id) {
      case Some(Callee(name, ret, params)) =>
        ArgsSound(b, args, params, first, used);
        var a := LowerArgs(b, args, params);
        ArgsKept(b, args, params);
        KeptFacts(b, a.b);
        ReadyOpen(a.b);
        Then(b, a.b, Call(a.b.nextId, name, a.os), first, used);
      case _ =>
        AbortSound(b, first, used);
        ConstNow(Abort(b), 0);
    }
  }

  lemma CoerceSound(b0: Builder, b: Builder, o: Operand, ty: Ty, first: Id, used: set<Id>)
    requires Flows(b0, b) && Sound(b, first, used) && Open(b.Code(b.cur)) && Now(b, o)
    ensures var r := Coerce(b, o, ty);
      Sound(r.b, first, used) && Flows(b0, r.b) && Now(r.b, r.o) && Open(r.b.Code(r.b.cur)) && r.b.aborted == b.aborted
        && r.b.cur == b.cur && Flows(b, r.b)
  {
    hide Sound, Flows, Now, AllNow, Open, Append;
    OnlyNow(b, o);
    ExtendsSelf(b);
    Then(b0, b, Op(b.nextId, SITOFP, [o]), first, used);
    Then(b0, b, Op(b.nextId, FPTOSI, [o]), first, used);
    Then(b, b, Op(b.nextId, SITOFP, [o]), first, used);
    Then(b, b, Op(b.nextId, FPTOSI, [o]), first, used);
    AppendFields(b, Op(b.nextId, SITOFP, [o]));
    AppendFields(b, Op(b.nextId, FPTOSI, [o]));
  }

  lemma {:induction false} AssignSound(b: Builder, d: VarRef, rhs: Expr, first: Id, used: set<Id>)
    requires Ready(b) && Addressed(b.scope) && Sound(b, first, used)
    ensures var r := LowerExpr(b, Assign(d, rhs)); Sound(r.b, first, used) && Flows(b, r.b) && Now(r.b, r.o)
    decreases Assign(d, rhs), 1
  {
    hide Kept, Ready, Addressed, LowerPlace, Coerce, Sound, Flows, Now, AllNow, Open, Append, PlainAddr;
    ExprSound(b, rhs, first, used);
    var x := LowerExpr(b, rhs);
    ExprKept(b, rhs);
    KeptFacts(b, x.b);
    PlaceSound(x.b, d, first, used);
    var p := LowerPlace(x.b, d);
    PlaceKept(x.b, d);
    KeptFacts(x.b, p.b);
    ReadyOpen(p.b);
    NowFlows(x.b, p.b, x.o);
    FlowsTrans(b, x.b, p.b);
    CoerceSound(b, p.b, x.o, x.ty, first, used);
    ExtendsSelf(p.b);
    var y := if p.held == One(x.ty) then Tmp(p.b, x.o, x.ty) else Coerce(p.b, x.o, x.ty);
    NowFlows(p.b, y.b, p.o);
    StoreSound(b, y.b, y.o, p.o, first, used);
  }

  lemma StoreSound(b0: Builder, b: Builder, o: Operand, addr: Operand, first: Id, used: set<Id>)
    requires Flows(b0, b) && Sound(b, first, used) && Open(b.Code(b.cur)) && Now(b, o) && Now(b, addr)
    requires (b.aborted || PlainAddr(addr))
    ensures var b' := EmitStore(b, o, addr);
      Sound(b', first, used) && Flows(b0, b') && Now(b', o) && Open(b'.Code(b'.cur)) && b'.cur == b.cur
  {
    hide Sound, Flows, Now, AllNow, Open, Append, PlainAddr;
    var i := Store(b.nextId, o, addr);
    BothNow(b, o, addr);
    Then(b0, b, i, first, used);
    ExtendsSelf(b);
    Then(b, b, i, first, used);
    NowFlows(b, Append(b, i), o);
    AppendFields(b, i);
  }

  lemma {:induction false} RefSound(b: Builder, v: VarRef, first: Id, used: set<Id>)
    requires Ready(b) && Addressed(b.scope) && Sound(b, first, used)
    ensures var r := LowerRef(b, v); Sound(r.b, first, used) && Flows(b, r.b) && Now(r.b, r.o)
    decreases v, 1
  {
    hide Kept, Ready, Addressed, LowerPlace, Sound, Flows, Now, AllNow, Open, Append, PlainAddr;
    PlaceSound(b, v, first, used);
    PlaceKept(b, v);
    var p := LowerPlace(b, v);
    KeptFacts(b, p.b);
    ReadyOpen(p.b);
    OnlyNow(p.b, p.o);
    Then(b, p.b, Load(p.b.nextId, p.o), first, used);
    Then(b, p.b, Gep(p.b.nextId, [p.o, Const(0), Const(0)]), first, used);
  }

  lemma {:induction false} PlaceSound(b: Builder, v: VarRef, first: Id, used: set<Id>)
    requires Ready(b) && Addressed(b.scope) && Sound(b, first, used)
    ensures var r := LowerPlace(b, v);
      Sound(r.b, first, used) && Flows(b, r.b) && Now(r.b, r.o) && (r.b.aborted || PlainAddr(r.o))
    decreases v, 0
  {
    hide Kept, Ready, Addressed, LowerCheck, LowerElement, Sound, Flows, Open, Append;
    LookupAddressed(b.scope, v.id);
    match Lookup<Symbol>(b.scope, v.id) {
      case Some(Var(addr, held)) =>
        if v.index.None? {
          ExtendsSelf(b);
        } else {
          ExprSound(b, v.index.value, first, used);
          var x := LowerExpr(b, v.index.value);
          ExprKept(b, v.index.value);
          KeptFacts(b, x.b);
          CheckSound(x.b, x.o, x.ty, first, used);
          CheckKept(x.b, x.o, x.ty);
          var k := LowerCheck(x.b, x.o, x.ty);
          KeptFacts(x.b, k.b);
          FlowsTrans(b, x.b, k.b);
          ReadyOpen(k.b);
          ElementSound(b, k.b, addr, held, k.o, first, used);
        }
      case _ =>
        AbortSound(b, first, used);
    }
  }

  lemma ElementSound(b0: Builder, b: Builder, addr: Operand, held: Held, k: Operand, first: Id, used: set<Id>)
    requires Flows(b0, b) && Sound(b, first, used) && Open(b.Code(b.cur)) && Now(b, k) && (addr.Slot? || addr.Global?)
    ensures var r := LowerElement(b, addr, held, k);
      Sound(r.b, first, used) && Flows(b0, r.b) && Now(r.b, r.o) && PlainAddr(r.o)
  {
    hide Sound, Flows, AllNow, Open, Append;
    assert Now(b, addr);
    match held {
      case One(t) =>
        if IsPtr(t) {
          var i := Load(b.nextId, addr);
          OnlyNow(b, addr);
          Then(b0, b, i, first, used);
          ExtendsSelf(b);
          Then(b, b, i, first, used);
          var l := EmitLoad(b, addr, t);
          NowFlows(b, l.b, k);
          AppendFields(b, i);
          BothNow(l.b, l.o, k);
          Then(b0, l.b, Gep(l.b.nextId, [l.o, k]), first, used);
        } else {
          BothNow(b, addr, k);
          Then(b0, b, Gep(b.nextId, [addr, k]), first, used);
        }
      case Many(t) =>
        BothNow(b, addr, k);
        Then(b0, b, Gep(b.nextId, [addr, Const(0), k]), first, used);
    }
  }

  lemma NegativeSound(b: Builder, first: Id, used: set<Id>)
    requires Sound(b, first, used) && Open(b.Code(b.cur))
    ensures var b' := LowerNegative(b); Sound(b', first, used) && Extends(b, b') && b'.nextBlock == b.nextBlock
  {
    hide Sound, Now, AllNow, Open, Append, Extends;
    var os := DefaultOperands(b.ret);
    match Lookup<Symbol>(b.scope, NEGATIVE_INDEX) {
      case Some(Callee(name, ret, _)) =>
        var i := Call(b.nextId, name, []);
        var b1 := Append(b, i);
        ConstNow(b, 0);
        OnlyNow(b, Const(0));
        AppendSound(b, i, first, used);
        AppendOpen(b, i);
        AppendFields(b, i);
        ConstNow(b1, 0);
        OnlyNow(b1, Const(0));
        AppendSound(b1, Instr.Ret(b1.nextId, os), first, used);
        AppendFields(b1, Instr.Ret(b1.nextId, os));
        ExtendsTrans(b, b1, Append(b1, Instr.Ret(b1.nextId, os)));
      case _ =>
        var b1 := Abort(b);
        AbortSound(b, first, used);
        ConstNow(b1, 0);
        OnlyNow(b1, Const(0));
        AppendSound(b1, Instr.Ret(b1.nextId, os), first, used);
        AppendFields(b1, Instr.Ret(b1.nextId, os));
        ExtendsTrans(b, b1, Append(b1, Instr.Ret(b1.nextId, os)));
    }
  }

  /** The check of an index goes on in a block that is only entered from here. */
  lemma CheckSound(b: Builder, o: Operand, ty: Ty, first: Id, used: set<Id>)
    requires Ready(b) && Sound(b, first, used) && Now(b, o)
    ensures var r := LowerCheck(b, o, ty); Sound(r.b, first, used) && Flows(b, r.b) && Now(r.b, r.o)
  {
    hide Sound, Now, AllNow, Open, Append, Extends, Forked, LowerNegative, NewBlock, Chain, Flows, Ready, Kept, Index;
    var e, c := b.nextBlock, b.nextBlock + 1;
    var k := Index(b, o, ty);
    IndexSound(b, o, ty, first, used);
    IndexReady(b, o, ty);
    ReadyOpen(k.b);
    ForkSound(k.b, "icmp_lt", k.o, e, c, first, used);
    ForkFacts(k.b, "icmp_lt", k.o, e, c);
    ForkFixed(k.b, "icmp_lt", k.o, e, c);
    ForkedOthers(k.b, "icmp_lt", k.o, e, c, e);
    var b2 := Forked(k.b, "icmp_lt", k.o, e, c);
    EmptyOpen();
    NegativeSound(b2, first, used);
    var b3 := LowerNegative(b2);
    MoveSound(b3, c, first, used);
    var b4 := SetInsert(b3, c);
    ExtendsTrans(k.b, b2, b3);
    ExtendsTrans(k.b, b3, b4);
    ExtendsTrans(b2, b3, b4);
    FixedChain(b2, b4, c, k.b.cur);
    FlowsFrom(k.b, b4);
    FlowsTrans(b, k.b, b4);
    NowFlows(k.b, b4, k.o);
  }

  lemma EmptyOpen()
    ensures Open([])
  {
  }

  lemma FlowsFrom(b: Builder, b': Builder)
    requires Extends(b, b') && Chain(b', b'.cur, b.cur)
    ensures Flows(b, b')
  {
  }

  lemma FixedChain(b: Builder, b': Builder, y: Block, d: Block)
    requires Extends(b, b') && Fixed(b, y) && b.Pred(y)[0] == d
    ensures Chain(b', y, d)
  {
    assert Fixed(b', y) && b'.Pred(y) == b.Pred(y);
    assert Chain(b', d, d);
  }

  lemma IndexSound(b: Builder, o: Operand, ty: Ty, first: Id, used: set<Id>)
    requires Ready(b) && Sound(b, first, used) && Now(b, o)
    ensures var k, e := Index(b, o, ty), b.nextBlock;
      && Sound(k.b, first, used) && Flows(b, k.b) && Now(k.b, k.o) && k.b.cur == b.cur && k.b.nextBlock == e + 2
      && k.b.Pred(e) == [] && k.b.Pred(e + 1) == [] && k.b.Code(e) == [] && e != k.b.cur && !Fixed(k.b, e)
      && !Fixed(k.b, e + 1)
      && 0 <= k.b.cur < e
  {
    hide NamesOk, UsesOk, PlainOk, Now, AllNow, Open, Append, Extends, Flows;
    ReadyOpen(b);
    var b1 := NewBlock(b);
    NewBlockSound(b, first, used);
    assert b1.nextBlock !in b1.code && b1.nextBlock !in b1.pred by {
      NotYet(b, b.nextBlock + 1);
    }
    NewBlockSound(b1, first, used);
    var b2 := NewBlock(b1);
    FlowsTrans(b, b1, b2);
    NowFlows(b, b2, o);
    OnlyNow(b2, o);
    Then(b, b2, Op(b2.nextId, FPTOSI, [o]), first, used);
    AppendFields(b2, Op(b2.nextId, FPTOSI, [o]));
    AppendExtends(b2, Op(b2.nextId, FPTOSI, [o]));
    AppendPred(b2, Op(b2.nextId, FPTOSI, [o]));
  }

  lemma AppendPred(b: Builder, i: Instr)
    ensures forall y {:trigger Append(b, i).Pred(y)} :: Append(b, i).Pred(y) == b.Pred(y)
  {
  }

  lemma NotYet(b: Builder, x: Block)
    requires Ready(b) && x >= b.nextBlock
    ensures x !in b.code && x !in b.pred && b.Code(x) == [] && b.Pred(x) == []
  {
  }

  lemma {:induction false} PairSound(b: Builder, e: Expr, first: Id, used: set<Id>)
    requires Ready(b) && Addressed(b.scope) && Sound(b, first, used) && (e.Relation? || e.Arith?)
    ensures var p := LowerPair(b, e); Sound(p.b, first, used) && Flows(b, p.b) && Now(p.b, p.x) && Now(p.b, p.y)
    decreases e, 1
  {
    hide Kept, Ready, Addressed, Sound, Flows, Now, AllNow, Open, Append;
    ExprSound(b, e.l, first, used);
    var l := LowerExpr(b, e.l);
    ExprKept(b, e.l);
    KeptFacts(b, l.b);
    ExprSound(l.b, e.r, first, used);
    var r := LowerExpr(l.b, e.r);
    ExprKept(l.b, e.r);
    KeptFacts(l.b, r.b);
    ReadyOpen(r.b);
    FlowsTrans(b, l.b, r.b);
    NowFlows(l.b, r.b, l.o);
    UnifySound(b, r.b, l.o, l.ty, r.o, r.ty, first, used);
  }

  lemma UnifySound(b0: Builder, b: Builder, x: Operand, tx: Ty, y: Operand, ty: Ty, first: Id, used: set<Id>)
    requires Flows(b0, b) && Sound(b, first, used) && Open(b.Code(b.cur)) && Now(b, x) && Now(b, y)
    ensures var p := Unify(b, x, tx, y, ty); Sound(p.b, first, used) && Flows(b0, p.b) && Now(p.b, p.x) && Now(p.b, p.y)
  {
    hide Sound, Flows, Now, AllNow, Open, Append;
    if tx != ty {
      var o, other := if tx == Int then x else y, if tx == Int then y else x;
      OnlyNow(b, o);
      ExtendsSelf(b);
      Then(b0, b, Op(b.nextId, SITOFP, [o]), first, used);
      Then(b, b, Op(b.nextId, SITOFP, [o]), first, used);
      NowFlows(b, Append(b, Op(b.nextId, SITOFP, [o])), other);
    }
  }

  lemma {:induction false} ArgsSound(b: Builder, args: seq<Expr>, params: seq<Ty>, first: Id, used: set<Id>)
    requires Ready(b) && Addressed(b.scope) && Sound(b, first, used)
    ensures var a := LowerArgs(b, args, params); Sound(a.b, first, used) && Flows(b, a.b) && AllNow(a.b, a.os)
    decreases args, 0
  {
    hide Kept, Ready, Addressed, Sound, Flows, Now, Open, Append, Argument;
    if args == [] {
      ExtendsSelf(b);
      AbortSound(b, first, used);
    } else {
      ExprSound(b, args[0], first, used);
      var x := LowerExpr(b, args[0]);
      ExprKept(b, args[0]);
      KeptFacts(b, x.b);
      var y := if params == [] then Tmp(Abort(x.b), x.o, x.ty) else Argument(x.b, x.o, x.ty, params[0]);
      ArgumentSound(b, x.b, x.o, x.ty, if params == [] then None else Some(params[0]), first, used);
      var rest := if params == [] then [] else params[1..];
      ArgsSound(y.b, args[1..], rest, first, used);
      var a := LowerArgs(y.b, args[1..], rest);
      FlowsTrans(b, y.b, a.b);
      NowFlows(y.b, a.b, y.o);
      ConsNow(a.b, y.o, a.os);
    }
  }

  lemma ConsNow(b: Builder, o: Operand, os: seq<Operand>)
    requires Now(b, o) && AllNow(b, os)
    ensures AllNow(b, [o] + os)
  {
  }

  lemma ArgumentSound(b0: Builder, b: Builder, o: Operand, ty: Ty, param: Option<Ty>, first: Id, used: set<Id>)
    requires Ready(b0) && Kept(b0, b) && Flows(b0, b) && Sound(b, first, used) && Now(b, o)
    ensures var y := if param.None? then Tmp(Abort(b), o, ty) else Argument(b, o, ty, param.value);
      Sound(y.b, first, used) && Flows(b0, y.b) && Now(y.b, y.o) && Ready(y.b) && y.b.scope == b.scope
  {
    hide Sound, Flows, Now, Open, Append, Coerce, Kept, Ready;
    KeptFacts(b0, b);
    ReadyOpen(b);
    if param.None? {
      AbortSound(b, first, used);
      FlowsTrans(b0, b, Abort(b));
      NowFlows(b, Abort(b), o);
      SelfKept(b);
      KeptFacts(b, Abort(b));
    } else {
      CoerceSound(b0, b, o, ty, first, used);
      SelfKept(b);
      CoerceKept(b, b, o, ty);
      KeptFacts(b, Coerce(b, o, ty).b);
    }
  }

  // ----- statements -----

  predicate AllBelow(ids: set<Id>, first: Id) {
    forall id {:trigger id in ids} :: id in ids ==> id < first
  }

  lemma SoundMore(b: Builder, first: Id, used: set<Id>, used': set<Id>)
    requires Sound(b, first, used) && used <= used'
    ensures Sound(b, first, used')
  {
    hide UsesOk, PlainOk;
  }

  lemma AllocaSound(b: Builder, site: Id, scalar: bool, first: Id, used: set<Id>)
    requires Sound(b, first, used) && Open(b.Code(b.cur)) && site !in used && site < first
    ensures Sound(Append(b, Alloca(site, scalar)), first, used + {site})
  {
    hide NamesOk, UsesOk, PlainOk, Open, Now, Extends, Flows;
    var i := Alloca(site, scalar);
    assert AllNow(b, i.Operands());
    AppendNames(b, i, first, used, used + {site});
    AppendUses(b, i);
    AppendPlain(b, i);
  }

  lemma DeclSound(b: Builder, d: VarDecl, first: Id, used: set<Id>)
    requires Ready(b) && Sound(b, first, used) && d.site !in used && d.site < first
    ensures Sound(LowerDecl(b, d), first, used + {d.site})
  {
    hide Sound, Open, Extends, Flows, Append;
    ReadyOpen(b);
    AllocaSound(b, d.site, !d.isArray, first, used);
    RescopeSound(Append(b, Alloca(d.site, !d.isArray)), LowerDecl(b, d).scope, first, used + {d.site});
  }

  lemma {:induction false} DeclsSound(b: Builder, ds: seq<VarDecl>, first: Id, used: set<Id>)
    requires Ready(b) && Addressed(b.scope) && Sound(b, first, used) && FreshDecls(ds, used)
    requires AllBelow(Sites(ds), first)
    ensures Sound(LowerDecls(b, ds), first, used + Sites(ds))
    decreases |ds|
  {
    hide Sound, Ready, Addressed, LowerDecl, Grows;
    if ds == [] {
      SoundMore(b, first, used, used + Sites(ds));
    } else {
      var b1 := LowerDecl(b, ds[0]);
      SitesCons(ds, used);
      DeclSound(b, ds[0], first, used);
      DeclDeclared(b, ds[0]);
      DeclsSound(b1, ds[1..], first, used + {ds[0].site});
    }
  }

  lemma SitesCons(ds: seq<VarDecl>, used: set<Id>)
    requires ds != [] && FreshDecls(ds, used)
    ensures ds[0].site in Sites(ds) && ds[0].site !in used && Sites(ds[1..]) <= Sites(ds)
    ensures FreshDecls(ds[1..], used + {ds[0].site}) && used + {ds[0].site} + Sites(ds[1..]) == used + Sites(ds)
  {
    forall id
      ensures id in Sites(ds) <==> id == ds[0].site || id in Sites(ds[1..])
    {
      if id in Sites(ds) {
        var k :| 0 <= k < |ds| && ds[k].site == id;
        assert k == 0 || ds[1..][k - 1] == ds[k];
      }
      if id in Sites(ds[1..]) {
        var k :| 0 <= k < |ds[1..]| && ds[1..][k].site == id;
        assert ds[k + 1] == ds[1..][k];
      }
    }
  }

  /** Branches to the block, so far, are not what makes a block fixed. */
  lemma BrNotFixed(b: Builder, t: Block)
    ensures !Fixed(EmitBr(b, t), t)
  {
    var b' := EmitBr(b, t);
    assert b'.Pred(t) == b.Pred(t) + [b.cur] && b'.Code(b.cur) == b.Code(b.cur) + [Br(b.nextId, t)];
  }

  lemma BranchSound(b: Builder, t: Block, first: Id, used: set<Id>)
    requires Sound(b, first, used) && !Fixed(b, t) && (b.Terminated() || Ready(b))
    ensures Sound(BranchTo(b, t), first, used) && !Fixed(BranchTo(b, t), t)
  {
    hide Sound, Fixed, EmitBr, Ready, Open;
    if !b.Terminated() {
      ReadyOpen(b);
      BrSound(b, t, first, used);
      BrNotFixed(b, t);
    }
  }

  lemma NotFixedGrows(b: Builder, b': Builder, todo: set<Block>, y: Block)
    requires Ready(b) && Grows(b, b', todo) && y in b.code && !Fixed(b, y)
    ensures !Fixed(b', y)
  {
    hide NoRepeats;
    assert b'.Pred(y) == b.Pred(y);
    if |b.Pred(y)| == 1 {
      var p := b.Pred(y)[0];
      assert p in b.Pred(y) && y in b.Succ(p);
      OpenTargets(b.code[b.cur]);
      assert p != b.cur && p in b.code && b'.code[p] == b.code[p];
    }
  }

  lemma {:induction false} StmtSound(b: Builder, st: Stmt, first: Id, used: set<Id>)
    requires Ready(b) && Addressed(b.scope) && Sound(b, first, used) && AllFresh(st, used)
    requires AllBelow(SitesOf(st), first)
    ensures Sound(LowerStmt(b, st), first, used + SitesOf(st))
    decreases st, 3
  {
    hide Ready, Addressed, Sound, Flows, Kept, Now, AllNow, AllBelow, Sites, Extends, Append, LowerExpr, Fixed;
    match st
    case Compound(ds, sts) => CompoundSound(b, ds, sts, first, used);
    case ExprStmt(None) => assert used + {} == used;
    case ExprStmt(Some(e)) =>
      ExprSound(b, e, first, used);
      assert used + {} == used;
    case If(c, t, f) => IfSound(b, c, t, f, first, used);
    case While(c, body) => WhileSound(b, c, body, first, used);
    case Return(None) =>
      ReadyOpen(b);
      ConstNow(b, 0);
      OnlyNow(b, Const(0));
      AppendSound(b, Instr.Ret(b.nextId, []), first, used);
      assert used + {} == used;
    case Return(Some(e)) =>
      ReturnSound(b, e, first, used);
      assert used + {} == used;
  }

  lemma ReturnSound(b: Builder, e: Expr, first: Id, used: set<Id>)
    requires Ready(b) && Addressed(b.scope) && Sound(b, first, used)
    ensures Sound(LowerStmt(b, Stmt.Return(Some(e))), first, used)
  {
    hide Ready, Addressed, Sound, Flows, Kept, Now, AllNow, Extends, Append, LowerExpr, Open;
    ExprSound(b, e, first, used);
    ExprKept(b, e);
    var x := LowerExpr(b, e);
    KeptFacts(b, x.b);
    ReadyOpen(x.b);
    OnlyNow(x.b, x.o);
    Then(b, x.b, Op(x.b.nextId, FPTOSI, [x.o]), first, used);
    Then(b, x.b, Op(x.b.nextId, SITOFP, [x.o]), first, used);
    AppendFields(x.b, Op(x.b.nextId, FPTOSI, [x.o]));
    AppendFields(x.b, Op(x.b.nextId, SITOFP, [x.o]));
    var y := LowerReturned(x.b, x.o, x.ty);
    OnlyNow(y.b, y.o);
    AppendSound(y.b, Instr.Ret(y.b.nextId, [y.o]), first, used);
  }

  lemma {:induction false} CompoundSound(b: Builder, ds: seq<VarDecl>, sts: seq<Stmt>, first: Id, used: set<Id>)
    requires Ready(b) && Addressed(b.scope) && Sound(b, first, used)
    requires AllFresh(Compound(ds, sts), used) && AllBelow(SitesOf(Compound(ds, sts)), first)
    ensures Sound(LowerStmt(b, Compound(ds, sts)), first, used + SitesOf(Compound(ds, sts)))
    decreases sts, 1
  {
    hide Ready, Addressed, Sound, Flows, Kept, Extends, LowerDecls, LowerAll, Sites, Grows, FreshDecls;
    var b0 := b.(scope := b.scope + [map[]]);
    AddressedEnter(b.scope);
    Rescoped(b, b0);
    RescopeSound(b, b0.scope, first, used);
    DeclsSound(b0, ds, first, used);
    DeclsDeclared(b0, ds);
    var b1 := LowerDecls(b0, ds);
    AllSound(b1, sts, first, used + Sites(ds));
    var b2 := LowerAll(b1, sts);
    assert used + Sites(ds) + SitesOfAll(sts) == used + (Sites(ds) + SitesOfAll(sts));
    RescopeSound(b2, Leave(b2.scope), first, used + SitesOf(Compound(ds, sts)));
  }

  lemma {:induction false} AllSound(b: Builder, sts: seq<Stmt>, first: Id, used: set<Id>)
    requires Ready(b) && Addressed(b.scope) && Sound(b, first, used) && EachFresh(sts, used)
    requires AllBelow(SitesOfAll(sts), first)
    ensures Sound(LowerAll(b, sts), first, used + SitesOfAll(sts))
    decreases sts, 0
  {
    hide Ready, Addressed, Sound, LowerStmt, SitesOf, AllFresh, Done;
    if sts == [] {
      assert used + {} == used;
    } else {
      var b1 := LowerStmt(b, sts[0]);
      StmtSound(b, sts[0], first, used);
      StmtDone(b, sts[0]);
      DoneFacts(b, b1);
      assert used + SitesOf(sts[0]) + SitesOfAll(sts[1..]) == used + SitesOfAll(sts);
      if b1.Terminated() {
        SoundMore(b1, first, used + SitesOf(sts[0]), used + SitesOfAll(sts));
      } else {
        AllSound(b1, sts[1..], first, used + SitesOf(sts[0]));
      }
    }
  }

  /** The test of a condition, in front of new blocks. */
  lemma TestSound(b: Builder, b0: Builder, op: string, o: Operand, t: Block, f: Block, first: Id, used: set<Id>)
    requires Flows(b, b0) && Sound(b0, first, used) && Now(b, o) && Open(b0.Code(b0.cur)) && b0.Pred(t) == []
    requires b0.Pred(f) == [] && t != f && 0 <= t < b0.nextBlock
    ensures Sound(Forked(b0, op, o, t, f), first, used)
  {
    hide Sound, Flows, Now, Extends, Open, Forked;
    NowFlows(b, b0, o);
    ForkSound(b0, op, o, t, f, first, used);
  }

  lemma TwoNewSound(b: Builder, first: Id, used: set<Id>)
    requires Ready(b) && Sound(b, first, used)
    ensures var n, b0 := b.nextBlock, NewBlock(NewBlock(b));
      && Sound(b0, first, used) && Flows(b, b0) && b0.Pred(n) == [] && b0.Pred(n + 1) == [] && Open(b0.Code(b0.cur))
      && b0.cur == b.cur && b0.nextBlock == n + 2
      && b0.nextBlock !in b0.code && b0.nextBlock !in b0.pred && 0 <= b.cur < n
  {
    hide NamesOk, UsesOk, PlainOk, Extends, Flows, Open;
    ReadyOpen(b);
    NewBlockSound(b, first, used);
    var b1 := NewBlock(b);
    NotYet(b, b.nextBlock + 1);
    NewBlockSound(b1, first, used);
    NotYet(b, b.nextBlock + 2);
    FlowsTrans(b, b1, NewBlock(b1));
  }

  lemma ThreeNewSound(b: Builder, first: Id, used: set<Id>)
    requires Ready(b) && Sound(b, first, used)
    ensures var n, b0 := b.nextBlock, NewBlock(NewBlock(NewBlock(b)));
      && Sound(b0, first, used) && Flows(b, b0) && b0.Pred(n) == [] && b0.Pred(n + 1) == [] && b0.Pred(n + 2) == []
      && Open(b0.Code(b0.cur)) && b0.cur == b.cur && b0.nextBlock == n + 3 && 0 <= b.cur < n
  {
    hide Sound, Extends, Flows, Open;
    TwoNewSound(b, first, used);
    var b1 := NewBlock(NewBlock(b));
    NewBlockSound(b1, first, used);
    FlowsTrans(b, b1, NewBlock(b1));
  }

  lemma IfStartSound(b: Builder, c: Expr, hasElse: bool, first: Id, used: set<Id>)
    requires Ready(b) && Addressed(b.scope) && Sound(b, first, used)
    ensures var n, b1 := LowerExpr(b, c).b.nextBlock, IfStart(b, c, hasElse);
      && Sound(b1, first, used) && !Fixed(b1, n + 2) && n + 2 < b1.nextBlock && 0 <= n
  {
    hide Ready, Addressed, Sound, Flows, Kept, Now, Extends, LowerExpr, NewBlock, Forked, Open;
    ExprSound(b, c, first, used);
    ExprKept(b, c);
    var x := LowerExpr(b, c);
    KeptFacts(b, x.b);
    ThreeNewSound(x.b, first, used);
    var n, b0 := x.b.nextBlock, NewBlock(NewBlock(NewBlock(x.b)));
    var f := if hasElse then n + 1 else n + 2;
    TestSound(x.b, b0, TestName(x.ty), x.o, n, f, first, used);
    ForkFacts(b0, TestName(x.ty), x.o, n, f);
  }

  lemma {:induction false} IfSound(b: Builder, c: Expr, t: Stmt, f: Option<Stmt>, first: Id, used: set<Id>)
    requires Ready(b) && Addressed(b.scope) && Sound(b, first, used)
    requires AllFresh(If(c, t, f), used) && AllBelow(SitesOf(If(c, t, f)), first)
    ensures Sound(LowerStmt(b, If(c, t, f)), first, used + SitesOf(If(c, t, f)))
    decreases If(c, t, f), 2
  {
    hide Ready, Addressed, Sound, Kept, LowerExpr, LowerStmt, IfStart, Fixed, Grows, BranchTo, RemoveBlock;
    var n, b1, b3 := LowerExpr(b, c).b.nextBlock, IfStart(b, c, f.Some?), IfEnd(b, c, t, f);
    IfEndSound(b, c, t, f, first, used);
    IfLast(b, c, t, f);
    IfParts(b, c, t, f);
    var used1 := used + SitesOf(t);
    if f.None? {
      assert used1 == used + SitesOf(If(c, t, f));
      GrowsFacts(b, b3, {n + 1, n + 2});
      RemoveSound(b3, n + 1, first, used1);
      MoveSound(RemoveBlock(b3, n + 1), n + 2, first, used1);
    } else {
      ElseSound(b, c, t, f.value, first, used1);
      assert used1 + SitesOf(f.value) == used + SitesOf(If(c, t, f));
    }
  }

  lemma {:induction false} IfEndSound(b: Builder, c: Expr, t: Stmt, f: Option<Stmt>, first: Id, used: set<Id>)
    requires Ready(b) && Addressed(b.scope) && Sound(b, first, used) && AllFresh(t, used) && AllBelow(SitesOf(t), first)
    ensures var n, b3 := LowerExpr(b, c).b.nextBlock, IfEnd(b, c, t, f);
      Sound(b3, first, used + SitesOf(t)) && !Fixed(b3, n + 2) && n + 2 < b3.nextBlock && 0 <= n
    decreases If(c, t, f), 0
  {
    hide Ready, Addressed, Sound, Kept, LowerExpr, LowerStmt, IfStart, Fixed, Grows, BranchTo, Done;
    var n, b1 := LowerExpr(b, c).b.nextBlock, IfStart(b, c, f.Some?);
    IfStartSound(b, c, f.Some?, first, used);
    IfStarted(b, c, f.Some?);
    IfParts(b, c, t, f);
    StmtSound(b1, t, first, used);
    var b2 := LowerStmt(b1, t);
    DoneFacts(b1, b2);
    DoneNotFixed(b1, b2, n + 2);
    BranchSound(b2, n + 2, first, used + SitesOf(t));
    BranchNext(b2, n + 2);
  }

  lemma DoneNotFixed(b: Builder, b': Builder, y: Block)
    requires Ready(b) && Done(b, b') && y in b.code && !Fixed(b, y)
    ensures !Fixed(b', y)
  {
    hide Ready, Grows, Fixed;
    NotFixedGrows(b, b', {}, y);
  }

  lemma BranchNext(b: Builder, t: Block)
    ensures BranchTo(b, t).nextBlock == b.nextBlock && BranchTo(b, t).cur == b.cur
  {
  }

  lemma {:induction false} ElseSound(b: Builder, c: Expr, t: Stmt, f: Stmt, first: Id, used: set<Id>)
    requires Ready(b) && Addressed(b.scope) && AllFresh(f, used) && AllBelow(SitesOf(f), first)
    requires var n, b3 := LowerExpr(b, c).b.nextBlock, IfEnd(b, c, t, Some(f));
      Sound(b3, first, used) && !Fixed(b3, n + 2) && n + 2 < b3.nextBlock && 0 <= n
    ensures Sound(SetInsert(ElseEnd(b, c, t, f), LowerExpr(b, c).b.nextBlock + 2), first, used + SitesOf(f))
    decreases If(c, t, Some(f)), 1
  {
    hide Ready, Addressed, Sound, Kept, LowerExpr, LowerStmt, IfEnd, IfStart, Fixed, Grows, BranchTo, Done;
    var n, b3, b4 := LowerExpr(b, c).b.nextBlock, IfEnd(b, c, t, Some(f)), ElseStart(b, c, t, f);
    IfParts(b, c, t, Some(f));
    ElseParts(b, c, t, f);
    MoveSound(b3, n + 1, first, used);
    MoveFixed(b3, n + 1, n + 2);
    StmtSound(b4, f, first, used);
    var b5 := LowerStmt(b4, f);
    DoneFacts(b4, b5);
    EndHere(b, b3, n);
    DoneNotFixed(b4, b5, n + 2);
    BranchSound(b5, n + 2, first, used + SitesOf(f));
    BranchNext(b5, n + 2);
    MoveSound(BranchTo(b5, n + 2), n + 2, first, used + SitesOf(f));
  }

  lemma MoveFixed(b: Builder, x: Block, y: Block)
    ensures Fixed(SetInsert(b, x), y) <==> Fixed(b, y)
  {
  }

  lemma EndHere(b: Builder, b3: Builder, n: Block)
    requires Grows(b, b3, {n + 1, n + 2})
    ensures n + 2 in b3.code
  {
  }

  /** A block without code, which nothing branches to, can go. */
  lemma RemoveSound(b: Builder, x: Block, first: Id, used: set<Id>)
    requires Sound(b, first, used) && b.Code(x) == [] && b.Pred(x) == [] && Good(b)
    ensures Sound(RemoveBlock(b, x), first, used) && RemoveBlock(b, x).nextBlock == b.nextBlock
  {
    hide NamesOk, UsesOk, PlainOk;
    var b' := RemoveBlock(b, x);
    assert b.Succ(x) == [];
    forall y
      ensures b'.Code(y) == b.Code(y) && b'.Pred(y) == b.Pred(y)
    {
    }
    SameCodeSound(b, b', first, used);
  }

  lemma {:induction false} WhileSound(b: Builder, c: Expr, body: Stmt, first: Id, used: set<Id>)
    requires Ready(b) && Addressed(b.scope) && Sound(b, first, used) && AllFresh(body, used)
    requires AllBelow(SitesOf(body), first)
    ensures Sound(LowerStmt(b, While(c, body)), first, used + SitesOf(body))
    decreases While(c, body), 2
  {
    hide Ready, Addressed, Sound, Kept, LowerExpr, LowerStmt, Fixed, Grows, BranchTo, NewBlock, Done;
    WhileBodySound(b, c, first, used);
    WhileLast(b, c, body);
    WhileStarted(b, c);
    var n, b2 := LowerExpr(WhileStart(b), c).b.nextBlock, WhileBody(b, c);
    StmtSound(b2, body, first, used);
    StmtDone(b2, body);
    var b3 := LowerStmt(b2, body);
    DoneFacts(b2, b3);
    DoneNotFixed(b2, b3, b.nextBlock);
    BranchSound(b3, b.nextBlock, first, used + SitesOf(body));
    BranchNext(b3, b.nextBlock);
    MoveSound(BranchTo(b3, b.nextBlock), n + 1, first, used + SitesOf(body));
  }

  lemma WhileStartSound(b: Builder, first: Id, used: set<Id>)
    requires Ready(b) && Sound(b, first, used)
    ensures Sound(WhileStart(b), first, used) && !Fixed(WhileStart(b), b.nextBlock)
  {
    hide Sound, Fixed, Extends, Flows, Open, BranchTo;
    var e := b.nextBlock;
    ReadyOpen(b);
    NewBlockSound(b, first, used);
    var b1 := NewBlock(b);
    GrowsSelf(b);
    GrowsNewBlock(b, b, {});
    NewNotFixed(b1, e);
    BranchSound(b1, e, first, used);
    BranchNext(b1, e);
    MoveFixed(BranchTo(b1, e), e, e);
    SoundCur(b, first, used);
    MoveSound(BranchTo(b1, e), e, first, used);
  }

  lemma NewNotFixed(b: Builder, y: Block)
    requires b.Pred(y) == []
    ensures !Fixed(b, y)
  {
  }

  lemma SoundCur(b: Builder, first: Id, used: set<Id>)
    requires Sound(b, first, used)
    ensures 0 <= b.cur < b.nextBlock
  {
  }

  lemma ReadyGood(b: Builder)
    requires Ready(b)
    ensures Good(b)
  {
  }

  lemma ForkedGrows(b: Builder, b1: Builder, op: string, o: Operand, t: Block, f: Block, todo: set<Block>)
    requires Good(b) && Ready(b1) && Grows(b, b1, todo) && t in todo && f in todo && t != f
    ensures Grows(b, Forked(b1, op, o, t, f), todo - {t})
  {
    hide Grows, Good, Ready;
    ForkGrows(b, b1, op, o, t, f, todo);
  }

  lemma WhileBodySound(b: Builder, c: Expr, first: Id, used: set<Id>)
    requires Ready(b) && Addressed(b.scope) && Sound(b, first, used)
    ensures var n, b2 := LowerExpr(WhileStart(b), c).b.nextBlock, WhileBody(b, c);
      Sound(b2, first, used) && !Fixed(b2, b.nextBlock) && n + 1 < b2.nextBlock && 0 <= n
  {
    hide Ready, Addressed, Sound, Flows, Kept, Now, Extends, LowerExpr, NewBlock, Forked, Open, Fixed, Grows, BranchTo;
    var b1 := WhileStart(b);
    WhileStartSound(b, first, used);
    WhileEntered(b);
    ExprSound(b1, c, first, used);
    ExprKept(b1, c);
    var x := LowerExpr(b1, c);
    KeptFacts(b1, x.b);
    TwoNewSound(x.b, first, used);
    var n, b0 := x.b.nextBlock, NewBlock(NewBlock(x.b));
    TestSound(x.b, b0, TestName(x.ty), x.o, n, n + 1, first, used);
    ForkFacts(b0, TestName(x.ty), x.o, n, n + 1);
    ReadyGood(b1);
    TwoNew(b1, x.b);
    ForkedGrows(b1, b0, TestName(x.ty), x.o, n, n + 1, {n, n + 1});
    NotFixedGrows(b1, WhileBody(b, c), {n, n + 1} - {n}, b.nextBlock);
  }

  // ----- functions -----

  lemma ParamSound(b: Builder, d: VarDecl, i: nat, first: Id, used: set<Id>)
    requires Ready(b) && Sound(b, first, used) && d.site !in used && d.site < first
    ensures Sound(LowerParam(b, d, i), first, used + {d.site})
  {
    hide Sound, Open, Extends, Flows, Append, Now;
    ReadyOpen(b);
    AllocaSound(b, d.site, !d.isArray, first, used);
    AppendOpen(b, Alloca(d.site, !d.isArray));
    var b1 := Append(b, Alloca(d.site, !d.isArray));
    AppendFields(b, Alloca(d.site, !d.isArray));
    ExtendsSelf(b1);
    PlainNow(b1, Arg(i), Slot(d.site));
    StoreSound(b1, b1, Arg(i), Slot(d.site), first, used + {d.site});
    var b2 := EmitStore(b1, Arg(i), Slot(d.site));
    RescopeSound(b2, LowerParam(b, d, i).scope, first, used + {d.site});
  }

  lemma PlainNow(b: Builder, x: Operand, y: Operand)
    requires !IsValue(x) && !IsValue(y)
    ensures Now(b, x) && Now(b, y)
  {
  }

  lemma {:induction false} ParamsSound(b: Builder, ds: seq<VarDecl>, i: nat, first: Id, used: set<Id>)
    requires Ready(b) && Addressed(b.scope) && Sound(b, first, used) && i <= |ds|
    requires FreshDecls(ds[i..], used) && AllBelow(Sites(ds[i..]), first)
    ensures Sound(LowerParams(b, ds, i), first, used + Sites(ds[i..]))
    decreases |ds| - i
  {
    hide Sound, Ready, Addressed, LowerParam, Grows, Sites, FreshDecls;
    if i == |ds| {
      SoundMore(b, first, used, used + Sites(ds[i..]));
    } else {
      var b1 := LowerParam(b, ds[i], i);
      assert ds[i..][0] == ds[i] && ds[i..][1..] == ds[i + 1..];
      SitesCons(ds[i..], used);
      ParamSound(b, ds[i], i, first, used);
      ParamDeclared(b, ds[i], i);
      ParamsSound(b1, ds, i + 1, first, used + {ds[i].site});
    }
  }

  lemma BeginSound(ret: Ty, globals: map<string, Symbol>, first: Id)
    ensures Sound(Begin(ret, globals, first), first, {})
  {
    var b := Begin(ret, globals, first);
    assert forall x :: b.Code(x) == [];
  }

  /** In a lowered function identities are unique and every value is computed before it is used. */
  lemma FunctionSound(f: FunDecl, globals: map<string, Symbol>, first: Id)
    requires Addressed([globals]) && FreshDecls(f.params, {}) && AllFresh(f.body, Sites(f.params))
    requires AllBelow(Sites(f.params), first) && AllBelow(SitesOf(f.body), first)
    ensures Sound(LowerFun(f, globals, first), first, Sites(f.params) + SitesOf(f.body))
  {
    hide Sound, Ready, Addressed, Grows, LowerParams, LowerStmt, Sites, FreshDecls, Done;
    var b0 := Begin(f.ret, globals, first);
    BeginReady(f.ret, globals, first);
    BeginSound(f.ret, globals, first);
    assert f.params[0..] == f.params && {} + Sites(f.params) == Sites(f.params);
    ParamsSound(b0, f.params, 0, first, {});
    ParamsDeclared(b0, f.params, 0);
    var b1 := LowerParams(b0, f.params, 0);
    StmtSound(b1, f.body, first, Sites(f.params));
    StmtDone(b1, f.body);
    var b2 := LowerStmt(b1, f.body);
    DoneFacts(b1, b2);
    if !b2.Terminated() {
      ReadyOpen(b2);
      ConstNow(b2, 0);
      OnlyNow(b2, Const(0));
      AppendSound(b2, Instr.Ret(b2.nextId, DefaultOperands(f.ret)), first, Sites(f.params) + SitesOf(f.body));
    }
  }
}
