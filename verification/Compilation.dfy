/** From C-minus functions to promoted code: what the builder makes is acceptable to promotion, and what comes out
    returns what the source says. */
module Compilation {
  import opened ControlFlow
  import opened IR
  import opened Scopes
  import opened Syntax
  import opened SourceSemantics
  import opened Lowering
  import opened LoweringShape
  import opened LoweringNames
  import opened Ticks
  import Reaching
  import Renaming
  import SlotKinds
  import SlotUse
  import SourceCheck
  import StatementMeaning
  import Building
  import Arithmetic
  import AstBuilding
  import DominatorAnalysis
  import Promotion
  import TypeSafety
  import PromotionSimulation
  import Mem2RegPass
  import ParseTrees

  // ----- lowered functions are acceptable -----

  /** What lowering needs of a function: every declaration has an identity of its own, below those given to
      instructions. */
  predicate Declares(f: FunDecl, first: Id) {
    && FreshDecls(f.params, {}) && AllFresh(f.body, Sites(f.params))
    && AllBelow(Sites(f.params), first) && AllBelow(SitesOf(f.body), first)
  }

  /** The functions built from parse trees meet this when instructions are numbered after their declarations. */
  lemma BuiltDeclares(n: AstBuilding.Numerals, t: ParseTrees.Tree, id: Id, first: Id)
    requires ParseTrees.Derives(ParseTrees.FunDeclaration, t) && AstBuilding.ToFun(n, t, id).next <= first
    ensures Declares(AstBuilding.ToFun(n, t, id).t, first)
  {
    hide AstBuilding.ToFun, AllFresh, FreshDecls, Sites;
    AstBuilding.FunctionFresh(n, t, id);
  }

  /** A chain of blocks that are entered from a single one dominates. */
  lemma {:induction false} ChainDominates(b: Builder, x: Block, d: Block)
    requires Graph(b).Valid() && Graph(b).Entry() == ENTRY && b.Pred(ENTRY) == [] && Chain(b, x, d)
    requires Reachable(Graph(b), x)
    ensures Dominates(Graph(b), d, x)
    decreases x
  {
    var g := Graph(b);
    if x != d {
      var p := b.Pred(x)[0];
      assert x != ENTRY && x in b.pred;
      forall w | WalkTo(g, w, x)
        ensures w.Step? && WalkTo(g, w.prev, p)
      {
        OnlyFrom(b, w, x);
      }
      var w :| WalkTo(g, w, x);
      assert WalkTo(g, w.prev, p);
      ChainDominates(b, p, d);
      forall w | WalkTo(g, w, x)
        ensures Visits(g, w, d)
      {
        assert Visits(g, w.prev, d);
      }
    } else {
      VisitsEnd(g, x);
    }
  }

  lemma VisitsEnd(g: Cfg, x: Block)
    requires g.Valid() && Reachable(g, x)
    ensures Dominates(g, x, x)
  {
  }

  lemma OnlyFrom(b: Builder, w: Walk, x: Block)
    requires Graph(b).Valid() && Graph(b).Entry() == ENTRY && WalkTo(Graph(b), w, x) && x != ENTRY && |b.Pred(x)| == 1
    ensures w.Step? && WalkTo(Graph(b), w.prev, b.Pred(x)[0])
  {
    var g := Graph(b);
    if w.Step? {
      assert g.Edge(End(g, w.prev), x);
      assert End(g, w.prev) in g.pred[x];
    }
  }

  /** Where each instruction stands. */
  ghost function Places(code: map<Block, seq<Instr>>): map<Id, (Block, int)>
    requires Unique(code)
  {
    map x, k | x in code && 0 <= k < |code[x]| :: code[x][k].id := (x, k)
  }

  ghost predicate Unique(code: map<Block, seq<Instr>>) {
    forall x, k, y, m {:trigger code[x][k], code[y][m]} ::
      x in code && 0 <= k < |code[x]| && y in code && 0 <= m < |code[y]| && code[x][k].id == code[y][m].id ==>
        x == y && k == m
  }

  lemma PlacesIdentify(code: map<Block, seq<Instr>>)
    requires Unique(code)
    ensures Mem2RegPass.Identified(code, Places(code))
  {
  }

  lemma SoundUnique(b: Builder, first: Id, used: set<Id>)
    requires Sound(b, first, used) && AllBelow(used, first)
    ensures Unique(b.code) && forall id {:trigger id in Places(b.code)} :: id in Places(b.code) ==> id < b.nextId
  {
    hide UsesOk, PlainOk;
    forall x, k, y, m | x in b.code && 0 <= k < |b.code[x]| && y in b.code && 0 <= m < |b.code[y]|
      && b.code[x][k].id == b.code[y][m].id
      ensures x == y && k == m
    {
      assert b.Code(x)[k].id == b.Code(y)[m].id;
    }
    forall x, k | x in b.code && 0 <= k < |b.code[x]|
      ensures b.code[x][k].id < b.nextId
    {
      assert b.Code(x)[k] == b.code[x][k];
    }
  }

  lemma SoundDominated(b: Builder, first: Id, used: set<Id>)
    requires Sound(b, first, used) && Unique(b.code)
    requires Graph(b).Valid() && Graph(b).Entry() == ENTRY && b.Pred(ENTRY) == []
    ensures Mem2RegPass.Identified(b.code, Places(b.code))
    ensures Mem2RegPass.DominatedUses(Graph(b), b.code, Places(b.code))
  {
    hide NamesOk, UsesOk, PlainOk, Dominates, Unique, Promotion.ClassFits, Places;
    PlacesIdentify(b.code);
    var g, at := Graph(b), Places(b.code);
    forall x, k, o | x in b.code && Reachable(g, x) && 0 <= k < |b.code[x]| && o in b.code[x][k].Operands()
      && (o.Reg? || o.Elem?)
      ensures o.id in at && Promotion.ClassFits(o, b.code[at[o.id].0][at[o.id].1])
      ensures Dominates(g, at[o.id].0, x) && (at[o.id].0 == x ==> at[o.id].1 < k)
    {
      UseDominated(b, x, k, o);
    }
  }

  lemma UseDominated(b: Builder, x: Block, k: int, o: Operand)
    requires UsesOk(b) && Unique(b.code) && Graph(b).Valid() && Graph(b).Entry() == ENTRY && b.Pred(ENTRY) == []
    requires x in b.code && Reachable(Graph(b), x) && 0 <= k < |b.code[x]| && o in b.code[x][k].Operands() && IsValue(o)
    ensures o.id in Places(b.code) && var (d, j) := Places(b.code)[o.id];
      && d in b.code && 0 <= j < |b.code[d]| && Promotion.ClassFits(o, b.code[d][j]) && Dominates(Graph(b), d, x)
      && (d == x ==> j < k)
  {
    hide Chain, Dominates, Unique, Promotion.ClassFits;
    assert o in b.Code(x)[k].Operands();
    assert Avail(b, o, x, k);
    var d, j :| Computes(b, o, d, j) && Chain(b, x, d) && (x == d ==> j < k);
    PlaceOf(b.code, d, j);
    ChainDominates(b, x, d);
  }

  lemma PlaceOf(code: map<Block, seq<Instr>>, x: Block, k: int)
    requires Unique(code) && x in code && 0 <= k < |code[x]|
    ensures code[x][k].id in Places(code) && Places(code)[code[x][k].id] == (x, k)
  {
  }

  /** In lowered code instructions are plain. */
  lemma SoundPlain(b: Builder, first: Id, used: set<Id>)
    requires Sound(b, first, used) && !b.aborted && forall x {:trigger b.code[x]} :: x in b.code ==> Sealed(b.code[x])
    ensures forall x, k {:trigger b.code[x][k]} ::
      x in b.code && 0 <= k < |b.code[x]| ==> Mem2RegPass.PlainInstr(Graph(b), b.code, x, k)
  {
    hide NamesOk, UsesOk;
    forall x, k | x in b.code && 0 <= k < |b.code[x]|
      ensures Mem2RegPass.PlainInstr(Graph(b), b.code, x, k)
    {
      assert PlainInstr(b.Code(x)[k]);
    }
  }

  /** Lowered code branches along the edges of the graph. */
  lemma BranchesAlongEdges(b: Builder)
    requires Mirrored(b) && forall x {:trigger b.code[x]} :: x in b.code ==> Sealed(b.code[x])
    ensures forall x, k, s {:trigger b.code[x][k].HasTarget(s)} ::
      x in b.code && 0 <= k < |b.code[x]| && b.code[x][k].HasTarget(s) ==> Graph(b).Edge(x, s)
  {
    hide NoRepeats, PredExact;
    forall x, k, s | x in b.code && 0 <= k < |b.code[x]| && b.code[x][k].HasTarget(s)
      ensures Graph(b).Edge(x, s)
    {
      assert k == |b.code[x]| - 1;
      assert s in Targets(b.Code(x));
      assert s in b.Succ(x);
    }
  }

  /** If no name was missing and the function is tidy, its lowered code is acceptable. */
  lemma LoweredAcceptable(f: FunDecl, globals: map<string, Symbol>, first: Id)
    requires Addressed([globals]) && Declares(f, first)
    requires !LowerFun(f, globals, first).aborted && Reaching.Tidy(f.body, true)
    ensures var b := LowerFun(f, globals, first);
      && Unique(b.code) && Mem2RegPass.Acceptable(Graph(b), b.code, Places(b.code)) && Graph(b).Valid()
      && Graph(b).Entry() == ENTRY
      && forall id {:trigger id in Places(b.code)} :: id in Places(b.code) ==> id < b.nextId
  {
    hide LowerFun, Sound, Mirrored, Sealed, Mem2RegPass.DominatedUses, Unique, Reachable, AllFresh, Reaching.Tidy,
      DominatorAnalysis.JoinsReached;
    var b, used := LowerFun(f, globals, first), Sites(f.params) + SitesOf(f.body);
    FunctionShape(f, globals, first);
    Reaching.JoinsReachedIff(f, globals, first);
    FunctionSound(f, globals, first);
    SoundUnique(b, first, used);
    SoundDominated(b, first, used);
    SoundPlain(b, first, used);
    BranchesAlongEdges(b);
    MirroredFacts(b);
    forall x, k | x in b.code && 0 <= k < |b.code[x]|
      ensures Mem2RegPass.PlainInstr(Graph(b), b.code, x, k)
    {
      var i := b.code[x][k];
    }
  }

  lemma MirroredFacts(b: Builder)
    requires Mirrored(b) && Graph(b).Valid() && Graph(b).Entry() == ENTRY && b.Pred(ENTRY) == []
    ensures NoRepeats(Graph(b).blocks)
    ensures (forall x {:trigger Graph(b).HasBlock(x)} :: Graph(b).HasBlock(x) <==> x in b.code)
    ensures forall x {:trigger Graph(b).succ[x]} :: Graph(b).HasBlock(x) ==> NoRepeats(Graph(b).succ[x])
    ensures forall p {:trigger Graph(b).Edge(p, ENTRY)} :: !Graph(b).Edge(p, ENTRY)
  {
    hide Targets;
    forall x | Graph(b).HasBlock(x)
      ensures NoRepeats(Graph(b).succ[x])
    {
      assert x in b.blocks && b.Succ(x) == b.succ[x];
    }
  }

  // ----- from source to promoted code -----

  /** A function that lowering and promotion can take: declarations are distinct, code that is not reached does not
      lead to code that is, every name is known, scalars are not indexed, and every variable looked up by renaming
      has a value. */
  ghost predicate Compilable(f: FunDecl, globals: map<string, Symbol>, first: Id, address: Block -> int) {
    && Addressed([globals]) && Declares(f, first) && Reaching.Tidy(f.body, true)
    && var b := LowerFun(f, globals, first);
       !b.aborted && SlotUse.ScalarsConfined(b.code)
         && (Graph(b).Valid() ==> Mem2RegPass.LookupsSucceed(Graph(b), b.code, address))
  }

  /** All of this can be read off the source: it is enough that the function passes the check and is tidy. */
  lemma CheckedCompilable(f: FunDecl, globals: map<string, Symbol>, first: Id, address: Block -> int)
    requires SourceCheck.GlobalsNamed(globals) && SourceCheck.FunOk(f, globals) && Reaching.Tidy(f.body, true)
    requires Declares(f, first)
    ensures Compilable(f, globals, first, address)
  {
    hide LowerFun, SourceCheck.FunOk, AllFresh, FreshDecls, Sites, Reaching.Tidy, SlotUse.ScalarsConfined,
      Mem2RegPass.LookupsSucceed;
    SourceCheck.GlobalsFit(globals, {});
    SourceCheck.FunctionChecked(f, globals, first, address);
  }

  /** When the source returns, so does the code, with the same values, memory, stores and calls. */
  ghost predicate ReturnsAsSource(w: World, f: FunDecl, frame: map<string, Entry>, mem: Memory, fuel: nat, body: Body) {
    var o := Invoke(w, f, frame, mem, fuel);
    o.Returned? ==> exists blocks: nat,
      s {:trigger Finished(o.vals, s), Run(w, body, blocks, At(ENTRY, State(map[], map[], mem, [])))} ::
      Run(w, body, blocks, At(ENTRY, State(map[], map[], mem, []))) == Finished(o.vals, s) && s.mem == o.mem
        && s.trace == o.trace
  }

  /** When the source runs for ever, so does the code. */
  ghost predicate RunsOnAsSource(w: World, f: FunDecl, frame: map<string, Entry>, mem: Memory, body: Body) {
    (forall fuel: nat {:trigger Invoke(w, f, frame, mem, fuel)} :: Invoke(w, f, frame, mem, fuel) == OutOfFuel)
    ==> forall blocks: nat {:trigger Run(w, body, blocks, At(ENTRY, State(map[], map[], mem, [])))} ::
          Run(w, body, blocks, At(ENTRY, State(map[], map[], mem, []))).At?
  }

  /** When the source never fails, the code returns only what the source does. */
  ghost predicate ReturnsOnlyAsSource(w: World, f: FunDecl, frame: map<string, Entry>, mem: Memory, body: Body) {
    (forall fuel: nat {:trigger Invoke(w, f, frame, mem, fuel)} :: !Invoke(w, f, frame, mem, fuel).Failed?)
    ==> forall blocks: nat {:trigger Run(w, body, blocks, At(ENTRY, State(map[], map[], mem, [])))} ::
          var p := Run(w, body, blocks, At(ENTRY, State(map[], map[], mem, [])));
          p.Finished? ==> exists fuel: nat ::
            Invoke(w, f, frame, mem, fuel) == Returned(p.vals, p.state.mem, p.state.trace)
  }

  /** The code does what the source does: it returns the same, runs on for ever, and does nothing else. */
  ghost predicate DoesAsSource(w: World, f: FunDecl, frame: map<string, Entry>, mem: Memory, body: Body) {
    && (forall fuel: nat {:trigger Invoke(w, f, frame, mem, fuel)} :: ReturnsAsSource(w, f, frame, mem, fuel, body))
    && RunsOnAsSource(w, f, frame, mem, body) && ReturnsOnlyAsSource(w, f, frame, mem, body)
  }

  lemma PlainIsNoPhis(b: Builder)
    requires Mirrored(b)
    ensures Mem2RegPass.Plain(Graph(b), b.code) == NoPhis(b.code)
  {
    assert forall x :: x in Graph(b).BlockSet() <==> x in b.code;
  }

  /** The body behaves like a lowered function, block by block. */
  ghost predicate Behaves(w: World, b: Builder, mem: Memory, body: Body) {
    forall steps: nat {:trigger Run(w, body, steps, At(ENTRY, State(map[], map[], mem, [])))} ::
      Mem2RegPass.SameBehaviour(Run(w, Mem2RegPass.Plain(Graph(b), b.code), steps,
                                    At(ENTRY, State(map[], map[], mem, []))),
                                Run(w, body, steps, At(ENTRY, State(map[], map[], mem, []))))
  }

  /** What promotion does to a lowered function keeps what the source says. */
  lemma PromotedReturns(w: World, f: FunDecl, globals: map<string, Symbol>, frame: map<string, Entry>, first: Id,
                        mem: Memory, fuel: nat, body: Body)
    requires StatementMeaning.GlobalsMatch(w, globals, frame) && Addressed([globals]) && Declares(f, first)
    requires Behaves(w, LowerFun(f, globals, first), mem, body)
    ensures ReturnsAsSource(w, f, frame, mem, fuel, body)
  {
    hide LowerFun, Invoke, Run, AllFresh, Mirrored, StatementMeaning.GlobalsMatch;
    var b, start := LowerFun(f, globals, first), At(ENTRY, State(map[], map[], mem, []));
    AllFreshNested(f.body, Sites(f.params), Sites(f.params));
    if Invoke(w, f, frame, mem, fuel).Returned? {
      var blocks, s := StatementMeaning.LoweredFunctionReturns(w, f, globals, frame, first, mem, fuel);
      FunctionShape(f, globals, first);
      PlainIsNoPhis(b);
      var end := Run(w, body, blocks, start);
      assert Mem2RegPass.SameBehaviour(Run(w, NoPhis(b.code), blocks, start), end);
    }
  }

  /** For every number of blocks there are loop iterations of the source that outlast them. */
  lemma PromotedRunsOn(w: World, f: FunDecl, globals: map<string, Symbol>, frame: map<string, Entry>, first: Id,
                       mem: Memory, body: Body, blocks: nat) returns (fuel: nat)
    requires StatementMeaning.GlobalsMatch(w, globals, frame) && Addressed([globals]) && Declares(f, first)
    requires Behaves(w, LowerFun(f, globals, first), mem, body)
    ensures Invoke(w, f, frame, mem, fuel) == OutOfFuel ==>
      Run(w, body, blocks, At(ENTRY, State(map[], map[], mem, []))).At?
  {
    hide LowerFun, Invoke, Run, AllFresh, Mirrored, StatementMeaning.GlobalsMatch;
    var b, start := LowerFun(f, globals, first), At(ENTRY, State(map[], map[], mem, []));
    AllFreshNested(f.body, Sites(f.params), Sites(f.params));
    fuel := StatementMeaning.LoweredFunctionRunsOn(w, f, globals, frame, first, mem, blocks);
    FunctionShape(f, globals, first);
    PlainIsNoPhis(b);
    var end := Run(w, body, blocks, start);
    assert Mem2RegPass.SameBehaviour(Run(w, NoPhis(b.code), blocks, start), end);
  }

  lemma {:induction false} FinishedStays(w: World, body: Body, n: nat, m: nat, p: Point)
    requires n <= m && Run(w, body, n, p).Finished?
    ensures Run(w, body, m, p) == Run(w, body, n, p)
  {
    if n < m {
      FinishedStays(w, body, n, m - 1, p);
    }
  }

  lemma ReturnsOnce(w: World, f: FunDecl, frame: map<string, Entry>, mem: Memory, fuel: nat, body: Body, n: nat)
    requires ReturnsAsSource(w, f, frame, mem, fuel, body) && Invoke(w, f, frame, mem, fuel).Returned?
    requires Run(w, body, n, At(ENTRY, State(map[], map[], mem, []))).Finished?
    ensures var p := Run(w, body, n, At(ENTRY, State(map[], map[], mem, [])));
      Invoke(w, f, frame, mem, fuel) == Returned(p.vals, p.state.mem, p.state.trace)
  {
    hide Invoke, Run;
    var o, start := Invoke(w, f, frame, mem, fuel), At(ENTRY, State(map[], map[], mem, []));
    var m: nat, s :| Run(w, body, m, start) == Finished(o.vals, s) && s.mem == o.mem && s.trace == o.trace;
    if m <= n {
      FinishedStays(w, body, m, n, start);
    } else {
      FinishedStays(w, body, n, m, start);
    }
  }

  /** What promotion does to a lowered function does what the source does. */
  lemma PromotedDoes(w: World, f: FunDecl, globals: map<string, Symbol>, frame: map<string, Entry>, first: Id,
                     mem: Memory, body: Body)
    requires StatementMeaning.GlobalsMatch(w, globals, frame) && Addressed([globals]) && Declares(f, first)
    requires Behaves(w, LowerFun(f, globals, first), mem, body)
    ensures DoesAsSource(w, f, frame, mem, body)
  {
    hide LowerFun, Invoke, Run, Declares, Addressed, StatementMeaning.GlobalsMatch, Behaves, ReturnsAsSource;
    var start := At(ENTRY, State(map[], map[], mem, []));
    forall fuel: nat
      ensures ReturnsAsSource(w, f, frame, mem, fuel, body)
    {
      PromotedReturns(w, f, globals, frame, first, mem, fuel, body);
    }
    forall blocks: nat
      ensures (forall fuel: nat {:trigger Invoke(w, f, frame, mem, fuel)} ::
                 Invoke(w, f, frame, mem, fuel) == OutOfFuel) ==>
        Run(w, body, blocks, start).At?
      ensures (forall fuel: nat {:trigger Invoke(w, f, frame, mem, fuel)} ::
                 !Invoke(w, f, frame, mem, fuel).Failed?) ==>
        var p := Run(w, body, blocks, start);
        p.Finished? ==> exists fuel: nat ::
          Invoke(w, f, frame, mem, fuel) == Returned(p.vals, p.state.mem, p.state.trace)
    {
      var fuel := PromotedRunsOn(w, f, globals, frame, first, mem, body, blocks);
      InvokeEnds(w, f, frame, mem, fuel);
      if Run(w, body, blocks, start).Finished? && Invoke(w, f, frame, mem, fuel).Returned? {
        ReturnsOnce(w, f, frame, mem, fuel, body, blocks);
      }
    }
  }

  lemma InvokeEnds(w: World, f: FunDecl, frame: map<string, Entry>, mem: Memory, fuel: nat)
    ensures !Invoke(w, f, frame, mem, fuel).Normal?
  {
  }

  /** In the reachable blocks no slot is loaded or stored, and the only slots are those declared as arrays. */
  ghost predicate OnlyArraysLeft(g: Cfg, f: FunDecl, body: Body)
    requires g.Valid()
  {
    forall x, i {:trigger i in body.code[x]} :: Reachable(g, x) && x in body.code && i in body.code[x] ==>
      && (i.Load? ==> !i.ptr.Slot?) && (i.Store? ==> !i.ptr.Slot?)
      && (i.Alloca? ==> i.id in SlotKinds.Arrays(f) && !i.scalar)
  }

  lemma PromotedSlots(f: FunDecl, globals: map<string, Symbol>, first: Id, c: Promotion.Ctx, n: Promotion.Names,
                      sigma: map<Id, Operand>, body: Body)
    requires Declares(f, first) && c.code == LowerFun(f, globals, first).code
    requires PromotionSimulation.Setting(c, n, sigma) && PromotionSimulation.Promoted(c, n, sigma, body, false)
    ensures c.g.Valid() && OnlyArraysLeft(c.g, f, body)
  {
    hide LowerFun, AllFresh, PromotionSimulation.Promoted, PromotionSimulation.Setting, PromotionSimulation.Kept,
      Reachable;
    SlotUse.SettingParts(c, n, sigma);
    SlotKinds.FunctionKinded(f, globals, first);
    forall x, i | Reachable(c.g, x) && x in body.code && i in body.code[x]
      ensures (i.Load? ==> !i.ptr.Slot?) && (i.Store? ==> !i.ptr.Slot?)
      ensures i.Alloca? ==> i.id in SlotKinds.Arrays(f) && !i.scalar
    {
      ReachedInTree(c, x);
      PromotedInstr(c, n, sigma, body, x, i);
      if i.Alloca? {
        var k := PromotedOrigin(c, n, sigma, body, x, i);
        assert LowerFun(f, globals, first).Code(x)[k] == c.code[x][k];
      }
    }
  }

  lemma ReachedInTree(c: Promotion.Ctx, x: Block)
    requires Promotion.Spans(c) && Reachable(c.g, x)
    ensures x in c.t.parent
  {
    var w :| WalkTo(c.g, w, x);
    ClosedHoldsWalk(c.g, c.t.parent.Keys, w);
  }

  lemma PromotedInstr(c: Promotion.Ctx, n: Promotion.Names, sigma: map<Id, Operand>, body: Body, x: Block, i: Instr)
    requires PromotionSimulation.Setting(c, n, sigma) && PromotionSimulation.Promoted(c, n, sigma, body, false)
    requires x in c.t.parent && x in body.code && i in body.code[x]
    ensures (i.Load? ==> !i.ptr.Slot?) && (i.Store? ==> !i.ptr.Slot?)
  {
    hide PromotionSimulation.Promoted, PromotionSimulation.Setting;
    SlotUse.SettingParts(c, n, sigma);
    SlotUse.NothingLeftBehind(c, n, sigma, body, false, {}, x, i, Const(0));
  }

  /** A slot that is left was in the lowered code, and not as a scalar. */
  lemma PromotedOrigin(c: Promotion.Ctx, n: Promotion.Names, sigma: map<Id, Operand>, body: Body, x: Block, i: Instr)
    returns (k: nat)
    requires PromotionSimulation.Setting(c, n, sigma) && PromotionSimulation.Promoted(c, n, sigma, body, false)
    requires x in c.t.parent && x in body.code && i in body.code[x] && i.Alloca?
    ensures x in c.code && k < |c.code[x]| && c.code[x][k] == i && !i.scalar
  {
    hide PromotionSimulation.Setting, PromotionSimulation.Kept;
    SlotUse.SettingParts(c, n, sigma);
    k := Renaming.KeptOrigin(sigma, c.code[x], false, i);
  }

  /** A function is lowered by the builder and promoted: in every world that has the globals, the promoted code
      returns when the source does, with the same values, memory, stores and calls, runs for ever when the source
      does, and, if the source never fails, returns nothing else. */
  method CompileFunction(cb: Building.CminusfBuilder, f: FunDecl, address: Block -> int) returns (body: Body)
    requires |cb.scope.inner| == 1 && !cb.requireLvalue
    requires Renaming.Ordered(address) && Compilable(f, GlobalsWith(cb.scope.inner, f), cb.nextId, address)
    modifies cb, cb.scope
    ensures forall w, frame, mem {:trigger DoesAsSource(w, f, frame, mem, body)} ::
      StatementMeaning.GlobalsMatch(w, old(GlobalsWith(cb.scope.inner, f)), frame) ==>
        DoesAsSource(w, f, frame, mem, body)
    ensures Cfg(cb.blocks, cb.succ, cb.pred).Valid() && OnlyArraysLeft(Cfg(cb.blocks, cb.succ, cb.pred), f, body)
  {
    hide LowerFun, OnlyArraysLeft, PromotionSimulation.Setting, PromotionSimulation.Promoted, Renaming.Ordered,
      Mem2RegPass.Acceptable, Mem2RegPass.LookupsSucceed, DoesAsSource,
      Mem2RegPass.SameBehaviour,
      StatementMeaning.GlobalsMatch, Addressed, Declares, Places, Run;
    ghost var globals, first := GlobalsWith(cb.scope.inner, f), cb.nextId;
    cb.VisitFunDeclaration(f);
    ghost var b := LowerFun(f, globals, first);
    LoweredAcceptable(f, globals, first);
    var g, code, next := Cfg(cb.blocks, cb.succ, cb.pred), cb.code, cb.nextId;
    assert g == Graph(b) && code == b.code && next == b.nextId;
    ghost var c, n, sigma;
    body, c, n, sigma := Mem2RegPass.PromoteFunction(g, code, next, address, Places(code));
    assert OnlyArraysLeft(g, f, body) by {
      PromotedSlots(f, globals, first, c, n, sigma, body);
    }
    forall w, frame, mem | StatementMeaning.GlobalsMatch(w, globals, frame)
      ensures DoesAsSource(w, f, frame, mem, body)
    {
      assert Behaves(w, b, mem, body);
      PromotedDoes(w, f, globals, frame, first, mem, body);
    }
  }

  /** At any time the code is still running or has returned what the source returns: it is never stuck. */
  ghost predicate NeverStuck(w: World, f: FunDecl, frame: map<string, Entry>, mem: Memory, body: Body) {
    forall blocks: nat {:trigger Run(w, body, blocks, At(ENTRY, State(map[], map[], mem, [])))} ::
      var p := Run(w, body, blocks, At(ENTRY, State(map[], map[], mem, [])));
      p.At? || (p.Finished? && exists fuel: nat ::
                  Invoke(w, f, frame, mem, fuel) == Returned(p.vals, p.state.mem, p.state.trace))
  }

  lemma {:induction false} StuckStays(w: World, body: Body, n: nat, m: nat, p: Point)
    requires n <= m && Run(w, body, n, p) == Stuck
    ensures Run(w, body, m, p) == Stuck
  {
    if n < m {
      StuckStays(w, body, n, m - 1, p);
    }
  }

  lemma NotStuck(w: World, f: FunDecl, frame: map<string, Entry>, mem: Memory, body: Body, blocks: nat)
    requires DoesAsSource(w, f, frame, mem, body)
    requires forall fuel: nat {:trigger Invoke(w, f, frame, mem, fuel)} :: !Invoke(w, f, frame, mem, fuel).Failed?
    ensures Run(w, body, blocks, At(ENTRY, State(map[], map[], mem, []))) != Stuck
  {
    hide Invoke, Run, ReturnsOnlyAsSource;
    var start := At(ENTRY, State(map[], map[], mem, []));
    if forall fuel: nat {:trigger Invoke(w, f, frame, mem, fuel)} :: Invoke(w, f, frame, mem, fuel) == OutOfFuel {
      assert RunsOnAsSource(w, f, frame, mem, body);
      assert forall blocks: nat {:trigger Run(w, body, blocks, At(ENTRY, State(map[], map[], mem, [])))} ::
          Run(w, body, blocks, At(ENTRY, State(map[], map[], mem, []))).At?;
      assert Run(w, body, blocks, start).At?;
    } else {
      var fuel: nat :| Invoke(w, f, frame, mem, fuel) != OutOfFuel;
      InvokeEnds(w, f, frame, mem, fuel);
      var o := Invoke(w, f, frame, mem, fuel);
      assert ReturnsAsSource(w, f, frame, mem, fuel, body);
      var m: nat, s :| Run(w, body, m, start) == Finished(o.vals, s) && s.mem == o.mem && s.trace == o.trace;
      if blocks > m {
        FinishedStays(w, body, m, blocks, start);
      } else if Run(w, body, blocks, start) == Stuck {
        StuckStays(w, body, blocks, m, start);
      }
    }
  }

  /** Code that does as a source that never fails is never stuck. */
  lemma SafeNeverStuck(w: World, f: FunDecl, frame: map<string, Entry>, mem: Memory, body: Body)
    requires DoesAsSource(w, f, frame, mem, body)
    requires forall fuel: nat {:trigger Invoke(w, f, frame, mem, fuel)} :: !Invoke(w, f, frame, mem, fuel).Failed?
    ensures NeverStuck(w, f, frame, mem, body)
  {
    hide Invoke, Run, ReturnsAsSource, RunsOnAsSource;
    var start := At(ENTRY, State(map[], map[], mem, []));
    forall blocks: nat
      ensures var p := Run(w, body, blocks, start);
        p.At? || (p.Finished? && exists fuel: nat ::
                    Invoke(w, f, frame, mem, fuel) == Returned(p.vals, p.state.mem, p.state.trace))
    {
      NotStuck(w, f, frame, mem, body, blocks);
      assert ReturnsOnlyAsSource(w, f, frame, mem, body);
      assert start == At(ENTRY, State(map[], map[], mem, []));
    }
  }

  /** A function that passes the check, is typed and is tidy is lowered and promoted to code that does what the source
      does in every world that has the globals, and is never stuck. */
  method CompileChecked(cb: Building.CminusfBuilder, f: FunDecl, address: Block -> int) returns (body: Body)
    requires |cb.scope.inner| == 1 && !cb.requireLvalue && Renaming.Ordered(address)
    requires var globals := GlobalsWith(cb.scope.inner, f);
      && SourceCheck.GlobalsNamed(globals) && SourceCheck.FunOk(f, globals) && TypeSafety.FunTyped(f, globals)
      && Reaching.Tidy(f.body, true) && Declares(f, cb.nextId)
    modifies cb, cb.scope
    ensures forall w, frame, mem {:trigger DoesAsSource(w, f, frame, mem, body)} ::
      StatementMeaning.GlobalsMatch(w, old(GlobalsWith(cb.scope.inner, f)), frame) ==>
        DoesAsSource(w, f, frame, mem, body) && NeverStuck(w, f, frame, mem, body)
  {
    hide SourceCheck.FunOk, SourceCheck.GlobalsNamed, TypeSafety.FunTyped, Reaching.Tidy, DoesAsSource, NeverStuck,
      OnlyArraysLeft, Compilable, Renaming.Ordered, StatementMeaning.GlobalsMatch, AllFresh, FreshDecls, FreshSites;
    ghost var globals := GlobalsWith(cb.scope.inner, f);
    CheckedCompilable(f, globals, cb.nextId, address);
    body := CompileFunction(cb, f, address);
    AllFreshNested(f.body, Sites(f.params), Sites(f.params));
    forall w, frame, mem | StatementMeaning.GlobalsMatch(w, globals, frame)
      ensures DoesAsSource(w, f, frame, mem, body) && NeverStuck(w, f, frame, mem, body)
    {
      assert DoesAsSource(w, f, frame, mem, body);
      forall fuel: nat
        ensures !Invoke(w, f, frame, mem, fuel).Failed?
      {
        TypeSafety.FunctionSafe(w, f, globals, frame, mem, fuel);
      }
      SafeNeverStuck(w, f, frame, mem, body);
    }
  }

  /** The global scope once the function has been named in it. */
  function GlobalsWith(inner: seq<map<string, Symbol>>, f: FunDecl): map<string, Symbol>
    requires |inner| == 1
  {
    Bind(inner, f.name, Callee(f.name, f.ret, Building.ParamTypes(f.params)))[0]
  }
}
