/** Lowering preserves the meaning of statements and functions. */
module StatementMeaning {
  import opened ControlFlow
  import opened IR
  import opened Scopes
  import opened Syntax
  import opened SourceSemantics
  import opened Lowering
  import opened LoweringShape
  import opened Ticks
  import opened LoweringMeaning

  // ----- declarations -----

  ghost predicate SlotsIn(scope: seq<map<string, Symbol>>, used: set<Id>) {
    forall k, x, v {:trigger HasSlot(scope, k, x, v)} :: HasSlot(scope, k, x, v) ==> v in used
  }

  lemma BindMatches(w: World, scope: seq<map<string, Symbol>>, cells: map<Var, Val>, frames: seq<map<string, Entry>>,
                    id: string, sym: Symbol, e: Entry)
    requires Matches(w, scope, cells, frames) && scope != [] && EntryMatches(w, cells, sym, e)
    ensures Matches(w, Bind(scope, id, sym), cells, Bind(frames, id, e))
  {
    hide EntryMatches;
    var scope', frames' := Bind(scope, id, sym), Bind(frames, id, e);
    var top := |scope| - 1;
    assert id in scope[top] <==> id in frames[top];
    forall k, x | 0 <= k < |scope'|
      ensures x in scope'[k] <==> x in frames'[k]
      ensures x in scope'[k] ==> EntryMatches(w, cells, scope'[k][x], frames'[k][x])
    {
      assert x in scope[k] <==> x in frames[k];
    }
  }

  lemma BindSlots(scope: seq<map<string, Symbol>>, id: string, site: Id, held: Held, used: set<Id>)
    requires scope != [] && Apart(scope) && SlotsIn(scope, used) && site !in used
    ensures var scope' := Bind(scope, id, Var(Slot(site), held)); Apart(scope') && SlotsIn(scope', used + {site})
  {
    var scope' := Bind(scope, id, Var(Slot(site), held));
    forall k, x, v | HasSlot(scope', k, x, v)
      ensures HasSlot(scope, k, x, v) || (v == site && k == |scope| - 1 && x == id)
    {
    }
    forall k, x, j, y, v | HasSlot(scope', k, x, v) && HasSlot(scope', j, y, v)
      ensures k == j && x == y
    {
      assert v == site || (HasSlot(scope, k, x, v) && HasSlot(scope, j, y, v));
    }
  }

  /** A slot made for a declaration, which may be given a value. */
  lemma SlotMade(w: World, scope: seq<map<string, Symbol>>, s: State, src: Source, d: VarDecl, held: Held, e: Entry,
                 cells: map<Var, Val>, used: set<Id>)
    requires Rel(w, scope, s, src) && scope != [] && SlotsIn(scope, used) && d.site !in used
    requires SameCells(d.site, s.cells, cells)
    requires EntryMatches(w, cells, Var(Slot(d.site), held), e)
    ensures var scope' := Bind(scope, d.id, Var(Slot(d.site), held));
      Rel(w, scope', s.(cells := cells), src.(frames := Bind(src.frames, d.id, e))) && SlotsIn(scope', used + {d.site})
        && scope' != []
  {
    hide EntryMatches, SameCells, Matches, Addressed;
    forall k, x
      ensures !HasSlot(scope, k, x, d.site)
    {
    }
    UnusedSlot(w, scope, s.cells, src.frames, d.site, cells);
    BindMatches(w, scope, cells, src.frames, d.id, Var(Slot(d.site), held), e);
    BindSlots(scope, d.id, d.site, held, used);
    BindAddressed(scope, d.id, Var(Slot(d.site), held));
  }

  lemma DeclMeans(w: World, code: map<Block, seq<Instr>>, b: Builder, d: VarDecl, s: State, src: Source, used: set<Id>)
    returns (s': State)
    requires Starts(w, b, s, src) && b.scope != [] && SlotsIn(b.scope, used) && d.site !in used
    requires Completes(code, LowerDecl(b, d))
    ensures Tick(w, code, Stand(b, s)) == Stand(LowerDecl(b, d), s') && Completes(code, b)
    ensures Rel(w, LowerDecl(b, d).scope, s', src.(frames := Declare(w, src.frames, d)))
    ensures SlotsIn(LowerDecl(b, d).scope, used + {d.site})
  {
    hide Ready, Rel, Completes, SlotsIn;
    var i := Alloca(d.site, !d.isArray);
    s' := s.(cells := s.cells - {d.site});
    CompletesSame(code, Append(b, i), LowerDecl(b, d));
    AppendTick(w, code, b, i, s);
    SlotMade(w, b.scope, s, src, d, if d.isArray then Many(Scalar(d.isInt)) else One(Scalar(d.isInt)),
             if d.isArray then Object(Many(Scalar(d.isInt)), w.slot(d.site))
               else Local(Scalar(d.isInt), None), s'.cells, used);
  }

  lemma DeclCompletes(code: map<Block, seq<Instr>>, b: Builder, ds: seq<VarDecl>)
    requires Ready(b) && Addressed(b.scope) && Completes(code, LowerDecls(b, ds))
    ensures Completes(code, b)
  {
    hide Grows, Open, Completes, Addressed;
    DeclsDeclared(b, ds);
    CompletesGrows(code, b, LowerDecls(b, ds), {});
  }

  lemma {:induction false} DeclsMean(w: World, code: map<Block, seq<Instr>>, b: Builder, ds: seq<VarDecl>, s: State,
                                     src: Source, used: set<Id>) returns (n: nat, s': State)
    requires Starts(w, b, s, src) && b.scope != [] && SlotsIn(b.scope, used) && FreshDecls(ds, used)
    requires Completes(code, LowerDecls(b, ds))
    ensures var b' := LowerDecls(b, ds);
      && Ticking(w, code, n, Stand(b, s)) == Stand(b', s')
      && Starts(w, b', s', src.(frames := DeclareAll(w, src.frames, ds)))
      && SlotsIn(b'.scope, used + Sites(ds))
    decreases |ds|
  {
    hide Good, Open, Rel, Completes, SlotsIn, LowerDecl, Declare, Addressed, FreshDecls, Tick;
    n, s' := 0, s;
    if ds == [] {
      assert used + Sites(ds) == used;
    } else {
      var d, rest := ds[0], ds[1..];
      var b1 := LowerDecl(b, d);
      RelAddressed(w, b.scope, s, src);
      DeclDeclared(b, d);
      DeclCompletes(code, b1, rest);
      FreshRest(ds, used);
      var s1 := DeclMeans(w, code, b, d, s, src, used);
      var m, s2 := DeclsMean(w, code, b1, rest, s1, src.(frames := Declare(w, src.frames, d)), used + {d.site});
      SitesSplit(ds, used);
      TickMore(w, code, 0, Stand(b, s), Stand(b, s));
      TickingAdd(w, code, 1, m, Stand(b, s));
      n, s' := 1 + m, s2;
    }
  }

  lemma FreshRest(ds: seq<VarDecl>, used: set<Id>)
    requires ds != [] && FreshDecls(ds, used)
    ensures ds[0].site !in used && FreshDecls(ds[1..], used + {ds[0].site})
  {
    assert forall k :: 0 <= k < |ds[1..]| ==> ds[1..][k] == ds[k + 1];
  }

  lemma SitesSplit(ds: seq<VarDecl>, used: set<Id>)
    requires ds != []
    ensures used + {ds[0].site} + Sites(ds[1..]) == used + Sites(ds)
  {
    forall x
      ensures x in {ds[0].site} + Sites(ds[1..]) <==> x in Sites(ds)
    {
      if x in Sites(ds[1..]) {
        var k :| 0 <= k < |ds[1..]| && ds[1..][k].site == x;
        assert ds[k + 1].site == x;
      }
      if x in Sites(ds) {
        var k :| 0 <= k < |ds| && ds[k].site == x;
        assert k > 0 ==> ds[1..][k - 1].site == x;
      }
    }
  }

  // ----- branches -----

  lemma BranchMeans(w: World, code: map<Block, seq<Instr>>, b: Builder, t: Block, s: State)
    requires Good(b) && Completes(code, BranchTo(b, t))
    ensures Completes(code, b)
    ensures Ready(b) ==> Tick(w, code, Stand(b, s)) == Here(t, 0, s)
  {
    hide Good, Open, Completes;
    ReadyTerminated(b);
    if !b.Terminated() {
      BrCode(b, t);
      CompletesSame(code, Append(b, Br(b.nextId, t)), EmitBr(b, t));
      AppendTick(w, code, b, Br(b.nextId, t), s);
    }
  }

  lemma BrCode(b: Builder, t: Block)
    ensures EmitBr(b, t).code == Append(b, Br(b.nextId, t)).code
  {
  }

  lemma RemoveCompletes(code: map<Block, seq<Instr>>, b: Builder, x: Block)
    requires Completes(code, RemoveBlock(b, x)) && b.Code(x) == []
    ensures Completes(code, b)
  {
    hide Longer;
    forall y | y in b.code && b.code[y] != []
      ensures y in code && Longer(b.code[y], code[y])
    {
      assert RemoveBlock(b, x).code[y] == b.code[y];
    }
  }

  // ----- statements -----

  /** What the code from one state of the builder to another does, given the outcome of the statement. */
  ghost predicate Ran(w: World, code: map<Block, seq<Instr>>, b: Builder, b': Builder, s: State, n: nat, s': State,
                      o: Outcome, fuel: nat) {
    match o
    case Normal(src) => Ready(b') && Ticking(w, code, n, Stand(b, s)) == Stand(b', s') && Rel(w, b'.scope, s', src)
    case Returned(vals, m, t) => Ticking(w, code, n, Stand(b, s)) == Over(vals, s') && s'.mem == m && s'.trace == t
    case OutOfFuel => n >= fuel && Ticking(w, code, n, Stand(b, s)).Here?
    case Failed => true
  }

  /** A piece that follows steps already made; each step stands for a unit of fuel. */
  lemma RanLater(w: World, code: map<Block, seq<Instr>>, b: Builder, b1: Builder, b': Builder, s: State, s1: State,
                 n: nat, m: nat, s': State, o: Outcome, fuel: nat, more: nat)
    requires Ticking(w, code, n, Stand(b, s)) == Stand(b1, s1) && Ran(w, code, b1, b', s1, m, s', o, fuel)
    requires more <= fuel + n
    ensures Ran(w, code, b, b', s, n + m, s', o, more)
  {
    hide Ready, Rel, Stand;
    TickingAdd(w, code, n, m, Stand(b, s));
  }

  lemma RanNormally(w: World, code: map<Block, seq<Instr>>, b: Builder, b': Builder, s: State, n: nat, s': State,
                    src: Source, fuel: nat)
    requires Ready(b') && Ticking(w, code, n, Stand(b, s)) == Stand(b', s') && Rel(w, b'.scope, s', src)
    ensures Ran(w, code, b, b', s, n, s', Normal(src), fuel)
  {
  }

  lemma RanFailed(w: World, code: map<Block, seq<Instr>>, b: Builder, b': Builder, s: State, n: nat, s': State,
                  fuel: nat)
    ensures Ran(w, code, b, b', s, n, s', Failed, fuel)
  {
  }

  /** Unless the statement falls through, what is lowered after it does not matter. */
  lemma RanOut(w: World, code: map<Block, seq<Instr>>, b: Builder, b1: Builder, b': Builder, s: State, n: nat,
               s': State, o: Outcome, fuel: nat)
    requires Ran(w, code, b, b1, s, n, s', o, fuel) && !o.Normal?
    ensures Ran(w, code, b, b', s, n, s', o, fuel)
  {
  }

  lemma RanThrough(w: World, code: map<Block, seq<Instr>>, b: Builder, b': Builder, s: State, n: nat, s': State,
                   o: Outcome, fuel: nat)
    requires Ran(w, code, b, b', s, n, s', o, fuel) && o.Normal?
    ensures Ready(b') && Ticking(w, code, n, Stand(b, s)) == Stand(b', s') && Rel(w, b'.scope, s', o.s)
  {
  }

  lemma LeftRan(w: World, code: map<Block, seq<Instr>>, b: Builder, b': Builder, s: State, n: nat, s': State,
                g: Got<Typed>, fuel: nat)
    requires !g.Got? && (g.Left? ==> LeftBy(w, code, b, s, n, s', g.mem, g.trace))
    ensures Ran(w, code, b, b', s, n, s', ExitOf(b.ret, g), fuel)
  {
  }

  /** What a statement needs of the builder and the state when its turn comes. */
  ghost predicate Turn(w: World, b: Builder, s: State, src: Source, used: set<Id>) {
    Starts(w, b, s, src) && SlotsIn(b.scope, used)
  }

  lemma {:induction false} StmtMeans(w: World, code: map<Block, seq<Instr>>, b: Builder, st: Stmt, s: State,
                                     src: Source, used: set<Id>, fuel: nat) returns (n: nat, s': State)
    requires Turn(w, b, s, src, used) && FreshSites(st, used) && Completes(code, LowerStmt(b, st))
    ensures Ran(w, code, b, LowerStmt(b, st), s, n, s', Exec(w, b.ret, st, src, fuel), fuel)
    decreases fuel, st, 4
  {
    hide Ready, Rel, Completes, Stand, Ticking, SlotsIn;
    n, s' := 0, s;
    match st
    case Compound(ds, sts) => n, s' := CompoundMeans(w, code, b, ds, sts, s, src, used, fuel);
    case ExprStmt(None) => NoSteps(w, code, b, s, src);
    case ExprStmt(Some(e)) => n, s' := ExprStmtMeans(w, code, b, e, s, src, fuel);
    case If(c, t, f) => n, s' := IfMeans(w, code, b, st, s, src, used, fuel);
    case While(c, body) => n, s' := WhileMeans(w, code, b, st, s, src, used, fuel);
    case Return(None) => n, s' := ReturnMeans(w, code, b, [], [], s, src, fuel);
    case Return(Some(e)) => n, s' := ReturnValueMeans(w, code, b, e, s, src, fuel);
  }

  lemma ExprStmtMeans(w: World, code: map<Block, seq<Instr>>, b: Builder, e: Expr, s: State, src: Source, fuel: nat)
    returns (n: nat, s': State)
    requires Starts(w, b, s, src) && Completes(code, LowerExpr(b, e).b)
    ensures Ran(w, code, b, LowerStmt(b, ExprStmt(Some(e))), s, n, s', Exec(w, b.ret, ExprStmt(Some(e)), src, fuel),
                fuel)
  {
    hide Ready, Rel, Completes, Stand, Ticking;
    RelAddressed(w, b.scope, s, src);
    ExprKept(b, e);
    KeptFacts(b, LowerExpr(b, e).b);
    n, s' := ExprMeans(w, code, b, e, s, src);
    var g := EvalExpr(w, e, src);
    if !g.Got? {
      LeftRan(w, code, b, LowerExpr(b, e).b, s, n, s', g, fuel);
    }
  }

  lemma ReturnMeans(w: World, code: map<Block, seq<Instr>>, b: Builder, os: seq<Operand>, vs: seq<Val>, s: State,
                    src: Source, fuel: nat) returns (n: nat, s': State)
    requires Starts(w, b, s, src) && Completes(code, EmitRet(b, os)) && EvalAll(w, s.env, os) == Some(vs)
    ensures Ran(w, code, b, EmitRet(b, os), s, n, s', Returned(vs, src.mem, src.trace), fuel)
  {
    hide Ready, Completes, Stand, Append;
    SameMemory(w, b.scope, s, src);
    AppendTick(w, code, b, Instr.Ret(b.nextId, os), s);
    TickMore(w, code, 0, Stand(b, s), Stand(b, s));
    n, s' := 1, s;
  }

  lemma ReturnValueMeans(w: World, code: map<Block, seq<Instr>>, b: Builder, e: Expr, s: State, src: Source, fuel: nat)
    returns (n: nat, s': State)
    requires Starts(w, b, s, src) && Completes(code, LowerStmt(b, Stmt.Return(Some(e))))
    ensures Ran(w, code, b, LowerStmt(b, Stmt.Return(Some(e))), s, n, s',
                Exec(w, b.ret, Stmt.Return(Some(e)), src, fuel), fuel)
  {
    hide Ready, Rel, Completes, Stand, Ticking, Tick, Append, Kept, Keeps, Convert, LowerExpr, EvalExpr, Ran,
      LowerReturned;
    RelAddressed(w, b.scope, s, src);
    ExprKept(b, e);
    var x := LowerExpr(b, e);
    KeptFacts(b, x.b);
    var y := LowerReturned(x.b, x.o, x.ty);
    ReturnedReady(code, x.b, x.o, x.ty);
    n, s' := ExprMeans(w, code, b, e, s, src);
    var g := EvalExpr(w, e, src);
    if !g.Got? {
      LeftRan(w, code, b, LowerStmt(b, Stmt.Return(Some(e))), s, n, s', g, fuel);
    } else if Convert(w, g.t, b.ret).Some? {
      var s1, v := s', Convert(w, g.t, b.ret).value;
      var m, s2 := ReturnedMeans(w, code, x.b, x.o, g.t, s1);
      RelEnv(w, x.b.scope, s1, s2, g.s);
      TickingAdd(w, code, n, m, Stand(b, s));
      EvalTwo(w, s2.env, y.o, y.o, v, v);
      var k, s3 := ReturnMeans(w, code, y.b, [y.o], [v], s2, g.s, fuel);
      RanLater(w, code, b, y.b, EmitRet(y.b, [y.o]), s, s2, n + m, k, s3, Returned([v], g.s.mem, g.s.trace), fuel,
               fuel);
      n, s' := n + m + k, s3;
    } else {
      RanFailed(w, code, b, LowerStmt(b, Stmt.Return(Some(e))), s, n, s', fuel);
    }
  }

  lemma ReturnedReady(code: map<Block, seq<Instr>>, b: Builder, o: Operand, ty: Ty)
    requires Ready(b)
    ensures var y := LowerReturned(b, o, ty); Kept(b, y.b) && Ready(y.b) && y.b.scope == b.scope
    ensures var y := LowerReturned(b, o, ty);
      Completes(code, EmitRet(y.b, [y.o])) ==> Completes(code, y.b) && Completes(code, b)
  {
    hide Good, Open, Completes, Append, Kept;
    SelfKept(b);
    AppendOne(b, b, Op(b.nextId, FPTOSI, [o]));
    AppendOne(b, b, Op(b.nextId, SITOFP, [o]));
    var y := LowerReturned(b, o, ty);
    KeptFacts(b, y.b);
    if Completes(code, EmitRet(y.b, [y.o])) {
      CompletesAppend(code, y.b, Instr.Ret(y.b.nextId, [y.o]));
      CompletesKept(code, b, y.b);
    }
  }

  lemma ReturnedMeans(w: World, code: map<Block, seq<Instr>>, b: Builder, o: Operand, x: Typed, s: State)
    returns (n: nat, s': State)
    requires Ready(b) && Completes(code, LowerReturned(b, o, x.ty).b) && Eval(w, s.env, o) == Some(x.v)
    requires Convert(w, x, b.ret).Some?
    ensures var y := LowerReturned(b, o, x.ty);
      Ticking(w, code, n, Stand(b, s)) == Stand(y.b, s') && Eval(w, s'.env, y.o) == Convert(w, x, b.ret)
    ensures s' == s.(env := s'.env)
  {
    hide Ready, Completes, Append, Stand, Tick;
    n, s' := 0, s;
    if b.ret != x.ty {
      EvalTwo(w, s.env, o, o, x.v, x.v);
      s' := OpTick(w, code, b, if b.ret == Int then FPTOSI else SITOFP, [o], [x.v], s);
      TickMore(w, code, 0, Stand(b, s), Stand(b, s));
      n := 1;
    }
  }

  // ----- compound statements -----

  lemma EnterRel(w: World, scope: seq<map<string, Symbol>>, s: State, src: Source, used: set<Id>)
    requires Rel(w, scope, s, src) && SlotsIn(scope, used)
    ensures Rel(w, scope + [map[]], s, src.(frames := src.frames + [map[]])) && SlotsIn(scope + [map[]], used)
  {
    hide EntryMatches;
    var scope', frames' := scope + [map[]], src.frames + [map[]];
    AddressedEnter(scope);
    forall k, x | 0 <= k < |scope'|
      ensures x in scope'[k] <==> x in frames'[k]
      ensures x in scope'[k] ==> EntryMatches(w, s.cells, scope'[k][x], frames'[k][x])
    {
      assert k < |scope| ==> scope'[k] == scope[k] && (x in scope[k] <==> x in src.frames[k]);
    }
    forall k, x, v | HasSlot(scope', k, x, v)
      ensures HasSlot(scope, k, x, v)
    {
    }
  }

  lemma LeaveRel(w: World, scope: seq<map<string, Symbol>>, s: State, src: Source)
    requires Rel(w, scope, s, src)
    ensures Rel(w, Leave(scope), s, src.(frames := Leave(src.frames)))
  {
    hide EntryMatches;
    if scope != [] {
      InnerMatches(w, scope, s.cells, src.frames);
      var rest := Leave(scope);
      forall k, x, v | HasSlot(rest, k, x, v)
        ensures HasSlot(scope, k, x, v)
      {
      }
      assert forall k, x :: 0 <= k < |rest| && x in rest[k] ==> rest[k][x] == scope[k][x];
    }
  }

  lemma {:induction false} CompoundMeans(w: World, code: map<Block, seq<Instr>>, b: Builder, ds: seq<VarDecl>,
                                         sts: seq<Stmt>, s: State, src: Source, used: set<Id>, fuel: nat)
    returns (n: nat, s': State)
    requires Turn(w, b, s, src, used) && FreshSites(Compound(ds, sts), used)
    requires Completes(code, LowerStmt(b, Compound(ds, sts)))
    ensures Ran(w, code, b, LowerStmt(b, Compound(ds, sts)), s, n, s', Exec(w, b.ret, Compound(ds, sts), src, fuel),
                fuel)
    decreases fuel, sts, 1
  {
    hide Good, Open, Rel, Completes, SlotsIn, Addressed, Grows, LowerDecls, LowerAll, DeclareAll;
    var b0, src0 := b.(scope := b.scope + [map[]]), src.(frames := src.frames + [map[]]);
    RelAddressed(w, b.scope, s, src);
    AddressedEnter(b.scope);
    Rescoped(b, b0);
    EnterRel(w, b.scope, s, src, used);
    DeclsDeclared(b0, ds);
    var b1 := LowerDecls(b0, ds);
    AllDone(b1, sts);
    var b2 := LowerAll(b1, sts);
    CompletesSame(code, b2, LowerStmt(b, Compound(ds, sts)));
    CompletesGrows(code, b1, b2, {});
    GrowsFacts(b0, b1, {});
    var n1, s1 := DeclsMean(w, code, b0, ds, s, src0, used);
    var src1 := src0.(frames := DeclareAll(w, src0.frames, ds));
    var n2, s2 := AllMeans(w, code, b1, sts, s1, src1, used + Sites(ds), fuel);
    var o := ExecAll(w, b.ret, sts, src1, fuel);
    RanLater(w, code, b0, b1, b2, s, s1, n1, n2, s2, o, fuel, fuel);
    n, s' := n1 + n2, s2;
    if o.Normal? {
      LeaveRel(w, b2.scope, s2, o.s);
      Rescoped(b2, LowerStmt(b, Compound(ds, sts)));
    }
  }

  lemma {:induction false} AllMeans(w: World, code: map<Block, seq<Instr>>, b: Builder, sts: seq<Stmt>, s: State,
                                    src: Source, used: set<Id>, fuel: nat) returns (n: nat, s': State)
    requires Turn(w, b, s, src, used) && Completes(code, LowerAll(b, sts))
    requires forall k :: 0 <= k < |sts| ==> FreshSites(sts[k], used)
    ensures Ran(w, code, b, LowerAll(b, sts), s, n, s', ExecAll(w, b.ret, sts, src, fuel), fuel)
    decreases fuel, sts, 0
  {
    hide Good, Open, Rel, Completes, SlotsIn, Grows, Stand, Ticking, Exec, Ran, LowerStmt;
    n, s' := 0, s;
    if sts == [] {
      NothingRan(w, code, b, s, src, fuel);
    } else {
      RelAddressed(w, b.scope, s, src);
      var b1, rest := LowerStmt(b, sts[0]), sts[1..];
      StmtDone(b, sts[0]);
      DoneFacts(b, b1);
      if !b1.Terminated() {
        AllDone(b1, rest);
        CompletesGrows(code, b1, LowerAll(b1, rest), {});
      }
      n, s' := StmtMeans(w, code, b, sts[0], s, src, used, fuel);
      var o := Exec(w, b.ret, sts[0], src, fuel);
      if o.Normal? {
        var n1, s1 := n, s';
        RanThrough(w, code, b, b1, s, n1, s1, o, fuel);
        var n2, s2 := AllMeans(w, code, b1, rest, s1, o.s, used, fuel);
        RanLater(w, code, b, b1, LowerAll(b1, rest), s, s1, n1, n2, s2, ExecAll(w, b.ret, rest, o.s, fuel), fuel, fuel);
        n, s' := n1 + n2, s2;
      } else {
        RanOut(w, code, b, b1, LowerAll(b, sts), s, n, s', o, fuel);
      }
    }
  }

  lemma NothingRan(w: World, code: map<Block, seq<Instr>>, b: Builder, s: State, src: Source, fuel: nat)
    requires Starts(w, b, s, src)
    ensures Ran(w, code, b, b, s, 0, s, Normal(src), fuel)
  {
  }

  // ----- conditionals -----

  lemma IfLastCode(b: Builder, c: Expr, t: Stmt, f: Option<Stmt>, x: Block)
    ensures LowerStmt(b, If(c, t, f)).cur == LowerExpr(b, c).b.nextBlock + 2
    ensures LowerStmt(b, If(c, t, f)).Code(x) ==
      if f.None? then RemoveBlock(IfEnd(b, c, t, f), LowerExpr(b, c).b.nextBlock + 1).Code(x)
        else ElseEnd(b, c, t, f.value).Code(x)
  {
    hide LowerExpr, LowerStmt, RemoveBlock, IfEnd, ElseEnd;
    IfLast(b, c, t, f);
  }

  /** What a conditional ends in. */
  lemma IfResult(b: Builder, c: Expr, t: Stmt, f: Option<Stmt>)
    requires Ready(b) && Addressed(b.scope)
    ensures var n, b' := LowerExpr(b, c).b.nextBlock, LowerStmt(b, If(c, t, f));
      Ready(b') && b'.cur == n + 2 && b'.Code(n + 2) == [] && b'.scope == b.scope
  {
    hide Grows, Good, Open, Ready, Addressed, LowerExpr, LowerStmt;
    IfDone(b, c, t, f);
    IfEndEmpty(b, c, t, f);
  }

  lemma IfEndEmpty(b: Builder, c: Expr, t: Stmt, f: Option<Stmt>)
    requires Ready(b) && Addressed(b.scope)
    ensures LowerStmt(b, If(c, t, f)).Code(LowerExpr(b, c).b.nextBlock + 2) == []
    ensures LowerStmt(b, If(c, t, f)).cur == LowerExpr(b, c).b.nextBlock + 2
  {
    hide Grows, Good, Open, Ready, Addressed, LowerExpr, LowerStmt, RemoveBlock, IfEnd, ElseEnd, ElseStart, IfStart,
      Sealed, Done;
    var n := LowerExpr(b, c).b.nextBlock;
    IfLastCode(b, c, t, f, n + 2);
    if f.Some? {
      ElseParts(b, c, t, f.value);
    } else {
      IfParts(b, c, t, f);
      RemoveCode(IfEnd(b, c, t, f), n + 1, n + 2);
    }
  }

  lemma IfCompletes(code: map<Block, seq<Instr>>, b: Builder, c: Expr, t: Stmt, f: Option<Stmt>)
    requires Ready(b) && Addressed(b.scope) && Completes(code, LowerStmt(b, If(c, t, f)))
    ensures var b1 := IfStart(b, c, f.Some?);
      Completes(code, LowerExpr(b, c).b) && Completes(code, b1)
        && Completes(code, BranchTo(LowerStmt(b1, t), LowerExpr(b, c).b.nextBlock + 2))
    ensures f.Some? ==> Completes(code,
                                  BranchTo(LowerStmt(ElseStart(b, c, t, f.value), f.value),
                                           LowerExpr(b, c).b.nextBlock + 2))
  {
    hide Grows, Good, Open, Completes, Addressed, LowerExpr, LowerStmt, RemoveBlock, BranchTo, IfStart;
    IfParts(b, c, t, f);
    IfLast(b, c, t, f);
    var n, b1, b3 := LowerExpr(b, c).b.nextBlock, IfStart(b, c, f.Some?), IfEnd(b, c, t, f);
    if f.None? {
      CompletesSame(code, RemoveBlock(b3, n + 1), LowerStmt(b, If(c, t, f)));
      RemoveCompletes(code, b3, n + 1);
    } else {
      ElseParts(b, c, t, f.value);
      var b4 := ElseStart(b, c, t, f.value);
      CompletesSame(code, ElseEnd(b, c, t, f.value), LowerStmt(b, If(c, t, f)));
      DoneFacts(b4, LowerStmt(b4, f.value));
      BranchCompletes(code, LowerStmt(b4, f.value), n + 2);
      CompletesGrows(code, b4, LowerStmt(b4, f.value), {});
      CompletesSame(code, b3, b4);
    }
    DoneFacts(b1, LowerStmt(b1, t));
    BranchCompletes(code, LowerStmt(b1, t), n + 2);
    CompletesGrows(code, b1, LowerStmt(b1, t), {});
    IfTestCompletes(code, b, c, f.Some?);
  }

  lemma IfTestCompletes(code: map<Block, seq<Instr>>, b: Builder, c: Expr, hasElse: bool)
    requires Ready(b) && Addressed(b.scope) && Completes(code, IfStart(b, c, hasElse))
    ensures Completes(code, LowerExpr(b, c).b)
  {
    hide Grows, Good, Open, Completes, Addressed, LowerExpr, NewBlock, Forked, IfStart;
    ExprKept(b, c);
    var x := LowerExpr(b, c);
    KeptFacts(b, x.b);
    SelfKept(x.b);
    ThreeNew(x.b, x.b);
    IfStartForked(b, c, hasElse);
    var n, b0 := x.b.nextBlock, NewBlock(NewBlock(NewBlock(x.b)));
    ForkCompletes(code, b0, TestName(x.ty), x.o, n, if hasElse then n + 1 else n + 2);
    CompletesGrows(code, x.b, b0, {n, n + 1, n + 2});
  }

  /** The test of a conditional, from the value of its condition. */
  lemma IfTest(w: World, code: map<Block, seq<Instr>>, b: Builder, c: Expr, hasElse: bool, v: Typed, s: State,
               src: Source) returns (s': State)
    requires Ready(b) && Addressed(b.scope) && Completes(code, IfStart(b, c, hasElse)) && IsNumber(v.ty)
    requires var x := LowerExpr(b, c); x.ty == v.ty && Eval(w, s.env, x.o) == Some(v.v) && Rel(w, x.b.scope, s, src)
    ensures var x := LowerExpr(b, c); var n := x.b.nextBlock;
      Ticking(w, code, 2, Stand(x.b, s)) == Here(if IsTrue(w, v) then n else if hasElse then n + 1 else n + 2, 0, s')
    ensures Rel(w, b.scope, s', src)
  {
    hide Good, Open, Rel, Completes, LowerExpr, NewBlock, Addressed, Keeps, Grows, Stand, Ticking, Forked, IfStart;
    ExprKept(b, c);
    var x := LowerExpr(b, c);
    KeptFacts(b, x.b);
    SelfKept(x.b);
    ThreeNew(x.b, x.b);
    NewBlocksStand(x.b, s);
    IfStartForked(b, c, hasElse);
    var n, b0 := x.b.nextBlock, NewBlock(NewBlock(NewBlock(x.b)));
    s' := ForkMeans(w, code, b0, TestName(x.ty), x.o, v.v, n, if hasElse then n + 1 else n + 2, s);
    RelEnv(w, b.scope, s, s', src);
  }

  lemma ExecIf(w: World, ret: Ty, st: Stmt, src: Source, fuel: nat)
    requires st.If?
    ensures var g := EvalExpr(w, st.cond, src);
      Exec(w, ret, st, src, fuel) ==
      if !g.Got? then ExitOf(ret, g)
      else if !IsNumber(g.t.ty) then Failed
      else if IsTrue(w, g.t) then Exec(w, ret, st.ifTrue, g.s, fuel)
      else if st.ifFalse.Some? then Exec(w, ret, st.ifFalse.value, g.s, fuel)
      else Normal(g.s)
  {
  }

  lemma {:induction false} IfMeans(w: World, code: map<Block, seq<Instr>>, b: Builder, st: Stmt, s: State, src: Source,
                                   used: set<Id>, fuel: nat) returns (n: nat, s': State)
    requires st.If? && Turn(w, b, s, src, used) && FreshSites(st, used) && Completes(code, LowerStmt(b, st))
    ensures Ran(w, code, b, LowerStmt(b, st), s, n, s', Exec(w, b.ret, st, src, fuel), fuel)
    decreases fuel, st, 3
  {
    hide Good, Open, Rel, Completes, SlotsIn, LowerExpr, LowerStmt, Addressed, Keeps, IfStart, EvalExpr, Exec, IsTrue,
      IfEnd, ElseStart, ElseEnd, Ran, Ticking, Done;
    var c, t, f := st.cond, st.ifTrue, st.ifFalse;
    var b1, b' := IfStart(b, c, f.Some?), LowerStmt(b, st);
    RelAddressed(w, b.scope, s, src);
    IfParts(b, c, t, f);
    IfResult(b, c, t, f);
    IfCompletes(code, b, c, t, f);
    ExecIf(w, b.ret, st, src, fuel);
    n, s' := ExprMeans(w, code, b, c, s, src);
    var g, x := EvalExpr(w, c, src), LowerExpr(b, c);
    if !g.Got? {
      LeftRan(w, code, b, b', s, n, s', g, fuel);
    } else if IsNumber(g.t.ty) {
      var s2 := IfTest(w, code, b, c, f.Some?, g.t, s', g.s);
      TickingAdd(w, code, n, 2, Stand(b, s));
      n, s' := IfChosen(w, code, b, st, s, src, used, fuel, n + 2, s2, g.t, g.s);
    } else {
      RanFailed(w, code, b, b', s, n, s', fuel);
    }
  }

  /** What follows the test of a condition: one of the arms, or the end. */
  lemma {:induction false} IfChosen(w: World, code: map<Block, seq<Instr>>, b: Builder, st: Stmt, s: State, src: Source,
                                    used: set<Id>, fuel: nat, n0: nat, s2: State, v: Typed, src2: Source)
    returns (n: nat, s': State)
    requires st.If? && Ready(b) && Addressed(b.scope) && SlotsIn(b.scope, used) && FreshSites(st, used)
    requires Completes(code, LowerStmt(b, st))
    requires EvalExpr(w, st.cond, src) == Got(v, src2) && IsNumber(v.ty) && Rel(w, b.scope, s2, src2)
    requires var k := LowerExpr(b, st.cond).b.nextBlock;
      Ticking(w, code, n0, Stand(b, s)) == Here(if IsTrue(w, v) then k else if st.ifFalse.Some? then k + 1
                                                else k + 2, 0, s2)
    ensures Ran(w, code, b, LowerStmt(b, st), s, n, s', Exec(w, b.ret, st, src, fuel), fuel)
    decreases fuel, st, 2
  {
    hide Good, Open, Rel, Completes, SlotsIn, LowerExpr, LowerStmt, Addressed, IfStart, EvalExpr, Exec, IsTrue, IfEnd,
      ElseStart, ElseEnd, Ran, Ticking, Done;
    var c, t, f := st.cond, st.ifTrue, st.ifFalse;
    var b1, b', end := IfStart(b, c, f.Some?), LowerStmt(b, st), LowerExpr(b, c).b.nextBlock + 2;
    IfParts(b, c, t, f);
    IfResult(b, c, t, f);
    IfCompletes(code, b, c, t, f);
    ExecIf(w, b.ret, st, src, fuel);
    n, s' := n0, s2;
    if IsTrue(w, v) {
      n, s' := ArmLater(w, code, b, s, n0, b1, t, end, b', s2, src2, used, fuel);
    } else if f.Some? {
      ElseParts(b, c, t, f.value);
      n, s' := ArmLater(w, code, b, s, n0, ElseStart(b, c, t, f.value), f.value, end, b', s2, src2, used, fuel);
    } else {
      RanNormally(w, code, b, b', s, n, s', src2, fuel);
    }
  }

  /** An arm after the test that leads to it. */
  lemma {:induction false} ArmLater(w: World, code: map<Block, seq<Instr>>, b0: Builder, s0: State, m: nat, b: Builder,
                                    st: Stmt, end: Block, b': Builder, s: State, src: Source, used: set<Id>, fuel: nat)
    returns (n: nat, s': State)
    requires Ticking(w, code, m, Stand(b0, s0)) == Stand(b, s) && b0.ret == b.ret
    requires Turn(w, b, s, src, used) && FreshSites(st, used) && Done(b, LowerStmt(b, st))
    requires Completes(code, BranchTo(LowerStmt(b, st), end))
    requires Ready(b') && b'.cur == end && b'.Code(end) == [] && b'.scope == b.scope
    ensures Ran(w, code, b0, b', s0, n, s', Exec(w, b0.ret, st, src, fuel), fuel)
    decreases fuel, st, 6
  {
    hide Ran, Turn, FreshSites, Done, Completes, Exec, Ready, Ticking, LowerStmt, BranchTo;
    n, s' := ArmMeans(w, code, b, st, end, b', s, src, used, fuel);
    RanLater(w, code, b0, b, b', s0, s, m, n, s', Exec(w, b0.ret, st, src, fuel), fuel, fuel);
    n := m + n;
  }

  /** An arm, and the branch to the end. */
  lemma {:induction false} ArmMeans(w: World, code: map<Block, seq<Instr>>, b: Builder, st: Stmt, end: Block,
                                    b': Builder, s: State, src: Source, used: set<Id>, fuel: nat)
    returns (n: nat, s': State)
    requires Turn(w, b, s, src, used) && FreshSites(st, used) && Done(b, LowerStmt(b, st))
    requires Completes(code, BranchTo(LowerStmt(b, st), end))
    requires Ready(b') && b'.cur == end && b'.Code(end) == [] && b'.scope == b.scope
    ensures Ran(w, code, b, b', s, n, s', Exec(w, b.ret, st, src, fuel), fuel)
    decreases fuel, st, 5
  {
    hide Good, Open, Rel, Completes, SlotsIn, LowerStmt, Exec, Ran, BranchTo;
    var b1, o := LowerStmt(b, st), Exec(w, b.ret, st, src, fuel);
    DoneFacts(b, b1);
    BranchCompletes(code, b1, end);
    n, s' := StmtMeans(w, code, b, st, s, src, used, fuel);
    if o.Normal? {
      RanThrough(w, code, b, b1, s, n, s', o, fuel);
      BranchMeans(w, code, b1, end, s');
      TickMore(w, code, n, Stand(b, s), Stand(b1, s'));
      n := n + 1;
      ArmDone(w, code, b, b', s, n, s', o, fuel);
    } else {
      RanOut(w, code, b, b1, b', s, n, s', o, fuel);
    }
  }

  lemma ArmDone(w: World, code: map<Block, seq<Instr>>, b: Builder, b': Builder, s: State, n: nat, s': State,
                o: Outcome, fuel: nat)
    requires o.Normal? && Ready(b') && Ticking(w, code, n, Stand(b, s)) == Stand(b', s') && Rel(w, b'.scope, s', o.s)
    ensures Ran(w, code, b, b', s, n, s', o, fuel)
  {
  }

  // ----- loops -----

  /** Where the parts of a loop are. */
  lemma WhileParts(b: Builder, c: Expr, body: Stmt)
    requires Ready(b) && Addressed(b.scope)
    ensures var b1 := WhileStart(b);
      Ready(b1) && b1.cur == b.nextBlock && b1.Code(b.nextBlock) == [] && b1.scope == b.scope && b1.ret == b.ret
    ensures var n, b2 := LowerExpr(WhileStart(b), c).b.nextBlock, WhileBody(b, c);
      Ready(b2) && b2.cur == n && b2.Code(n) == [] && b2.scope == b.scope && b2.ret == b.ret
        && Done(b2, LowerStmt(b2, body))
    ensures var n, b' := LowerExpr(WhileStart(b), c).b.nextBlock, LowerStmt(b, While(c, body));
      Ready(b') && b'.cur == n + 1 && b'.Code(n + 1) == [] && b'.scope == b.scope
        && b'.code == WhileEnd(b, c, body).code
  {
    hide Ready, Done, Addressed, LowerExpr, LowerStmt, WhileStart, WhileBody, WhileEnd;
    WhileStartAt(b);
    WhileBodyAt(b, c, body);
    WhileEndAt(b, c, body);
  }

  lemma WhileStartAt(b: Builder)
    requires Ready(b) && Addressed(b.scope)
    ensures var b1 := WhileStart(b);
      Ready(b1) && b1.cur == b.nextBlock && b1.Code(b.nextBlock) == [] && b1.scope == b.scope && b1.ret == b.ret
  {
    hide Grows, Good, Open, BranchTo, NewBlock;
    WhileEntered(b);
    GrowsFacts(b, WhileStart(b), {});
    WhileStartCode(b);
  }

  lemma WhileBodyAt(b: Builder, c: Expr, body: Stmt)
    requires Ready(b) && Addressed(b.scope)
    ensures var n, b2 := LowerExpr(WhileStart(b), c).b.nextBlock, WhileBody(b, c);
      Ready(b2) && b2.cur == n && b2.Code(n) == [] && b2.scope == b.scope && b2.ret == b.ret
        && Done(b2, LowerStmt(b2, body))
  {
    hide Grows, Good, Open, Addressed, LowerExpr, LowerStmt, NewBlock, Forked, TestName, WhileStart, WhileBody, Kept;
    WhileStarted(b, c);
    var b1 := WhileStart(b);
    ExprKept(b1, c);
    var x := LowerExpr(b1, c);
    KeptFacts(b1, x.b);
    var n, b2, b0 := x.b.nextBlock, WhileBody(b, c), NewBlock(NewBlock(x.b));
    TwoNew(b1, x.b);
    TodoEmpty(b1, b0, {n, n + 1}, n);
    WhileBodyForked(b, c);
    ForkedOthers(b0, TestName(x.ty), x.o, n, n + 1, n);
    GrowsFacts(b, b2, {n + 1});
    StmtDone(b2, body);
  }

  lemma WhileEndAt(b: Builder, c: Expr, body: Stmt)
    requires Ready(b) && Addressed(b.scope)
    ensures var n, b' := LowerExpr(WhileStart(b), c).b.nextBlock, LowerStmt(b, While(c, body));
      Ready(b') && b'.cur == n + 1 && b'.Code(n + 1) == [] && b'.scope == b.scope
        && b'.code == WhileEnd(b, c, body).code
  {
    hide Grows, Good, Open, Addressed, LowerExpr, LowerStmt, BranchTo, WhileStart, WhileBody;
    WhileStarted(b, c);
    WhileDone(b, c, body);
    WhileLast(b, c, body);
    var n, b2 := LowerExpr(WhileStart(b), c).b.nextBlock, WhileBody(b, c);
    StmtDone(b2, body);
    var b3 := LowerStmt(b2, body);
    GrowsHas(b2, b3, {}, b.nextBlock);
    GrowsTrans(b, b2, b3, {n + 1});
    BranchSealed(b, b3, {n + 1}, b.nextBlock);
    TodoEmpty(b, BranchTo(b3, b.nextBlock), {n + 1}, n + 1);
  }

  lemma WhileStartCode(b: Builder)
    requires Ready(b)
    ensures WhileStart(b).Code(b.nextBlock) == []
  {
    hide Mirrored, Open;
  }

  lemma WhileCompletes(code: map<Block, seq<Instr>>, b: Builder, c: Expr, body: Stmt)
    requires Ready(b) && Addressed(b.scope) && Completes(code, LowerStmt(b, While(c, body)))
    ensures var x, b2 := LowerExpr(WhileStart(b), c), WhileBody(b, c);
      Completes(code, x.b) && Completes(code, b2) && Completes(code, LowerStmt(b2, body))
        && Completes(code, WhileEnd(b, c, body))
      && Completes(code, BranchTo(NewBlock(b), b.nextBlock))
  {
    hide Grows, Good, Open, Completes, Addressed, LowerExpr, BranchTo, NewBlock, Append, WhileBody;
    WhileParts(b, c, body);
    var b1, b2 := WhileStart(b), WhileBody(b, c);
    var b3 := LowerStmt(b2, body);
    CompletesSame(code, WhileEnd(b, c, body), LowerStmt(b, While(c, body)));
    DoneFacts(b2, b3);
    BranchCompletes(code, b3, b.nextBlock);
    CompletesGrows(code, b2, b3, {});
    ConditionCompletes(code, b, c);
    CompletesSame(code, b1, BranchTo(NewBlock(b), b.nextBlock));
  }

  lemma ConditionCompletes(code: map<Block, seq<Instr>>, b: Builder, c: Expr)
    requires Ready(b) && Addressed(b.scope) && Completes(code, WhileBody(b, c))
    ensures Completes(code, LowerExpr(WhileStart(b), c).b) && Completes(code, WhileStart(b))
  {
    hide Grows, Good, Open, Completes, Addressed, LowerExpr, BranchTo, NewBlock, Append;
    WhileStarted(b, c);
    var b1 := WhileStart(b);
    ExprKept(b1, c);
    var x := LowerExpr(b1, c);
    KeptFacts(b1, x.b);
    SelfKept(x.b);
    TwoNew(x.b, x.b);
    var n := x.b.nextBlock;
    ForkCompletes(code, NewBlock(NewBlock(x.b)), TestName(x.ty), x.o, n, n + 1);
    CompletesGrows(code, x.b, NewBlock(NewBlock(x.b)), {n, n + 1});
    CompletesKept(code, b1, x.b);
  }

  lemma BranchCompletes(code: map<Block, seq<Instr>>, b: Builder, t: Block)
    requires Good(b) && Completes(code, BranchTo(b, t))
    ensures Completes(code, b)
  {
    hide Good, Open, Completes;
    ReadyTerminated(b);
    if !b.Terminated() {
      BrCode(b, t);
      CompletesSame(code, Append(b, Br(b.nextId, t)), EmitBr(b, t));
      CompletesAppend(code, b, Br(b.nextId, t));
    }
  }

  lemma {:induction false} WhileMeans(w: World, code: map<Block, seq<Instr>>, b: Builder, st: Stmt, s: State,
                                      src: Source, used: set<Id>, fuel: nat) returns (n: nat, s': State)
    requires st.While? && Turn(w, b, s, src, used) && FreshSites(st, used) && Completes(code, LowerStmt(b, st))
    ensures Ran(w, code, b, LowerStmt(b, st), s, n, s', Exec(w, b.ret, st, src, fuel), fuel)
    decreases fuel, st, 3
  {
    hide Good, Open, Rel, Completes, SlotsIn, LowerExpr, LowerStmt, BranchTo, NewBlock, Addressed, Exec, Ran;
    RelAddressed(w, b.scope, s, src);
    WhileParts(b, st.cond, st.body);
    WhileCompletes(code, b, st.cond, st.body);
    NewBlockReady(b);
    NewBlocksStand(b, s);
    BranchMeans(w, code, NewBlock(b), b.nextBlock, s);
    TickMore(w, code, 0, Stand(b, s), Stand(b, s));
    var m, s1 := LoopMeans(w, code, b, st, s, src, used, fuel);
    RanLater(w, code, b, WhileStart(b), LowerStmt(b, st), s, s, 1, m, s1, Exec(w, b.ret, st, src, fuel), fuel, fuel);
    n, s' := 1 + m, s1;
  }

  lemma NewBlockReady(b: Builder)
    requires Ready(b)
    ensures Ready(NewBlock(b))
  {
    hide Good, Open, Grows;
    GrowsSelf(b);
    GrowsNewBlock(b, b, {});
  }

  /** What is left of a loop once its condition has been found true. */
  function Iterate(w: World, ret: Ty, st: Stmt, src: Source, fuel: nat): Outcome
    requires st.While? && fuel > 0
  {
    match Exec(w, ret, st.body, src, fuel - 1)
    case Normal(s2) => Exec(w, ret, st, s2, fuel - 1)
    case o => o
  }

  lemma ExecLoop(w: World, ret: Ty, st: Stmt, src: Source, fuel: nat)
    requires st.While? && fuel > 0
    ensures var g := EvalExpr(w, st.cond, src);
      Exec(w, ret, st, src, fuel) ==
      if !g.Got? then ExitOf(ret, g)
      else if !IsNumber(g.t.ty) then Failed
      else if IsTrue(w, g.t) then Iterate(w, ret, st, g.s, fuel)
      else Normal(g.s)
  {
  }

  /** A loop from the block of its condition, once for each unit of fuel. */
  lemma {:induction false} LoopMeans(w: World, code: map<Block, seq<Instr>>, b: Builder, st: Stmt, s: State,
                                     src: Source, used: set<Id>, fuel: nat) returns (n: nat, s': State)
    requires st.While? && Turn(w, b, s, src, used) && FreshSites(st, used) && Completes(code, LowerStmt(b, st))
    ensures Ran(w, code, WhileStart(b), LowerStmt(b, st), s, n, s', Exec(w, b.ret, st, src, fuel), fuel)
    decreases fuel, st, 1
  {
    hide Good, Open, Rel, Completes, SlotsIn, LowerExpr, LowerStmt, BranchTo, NewBlock, Addressed, Keeps, Forked,
      WhileBody, EvalExpr, Iterate, IsTrue;
    n, s' := 0, s;
    if fuel > 0 {
      var c, body, b1, b2, b' := st.cond, st.body, WhileStart(b), WhileBody(b, st.cond), LowerStmt(b, st);
      RelAddressed(w, b.scope, s, src);
      WhileParts(b, c, body);
      WhileCompletes(code, b, c, body);
      ExecLoop(w, b.ret, st, src, fuel);
      n, s' := ExprMeans(w, code, b1, c, s, src);
      var g, x := EvalExpr(w, c, src), LowerExpr(b1, c);
      if !g.Got? {
        LeftRan(w, code, b1, b', s, n, s', g, fuel);
      } else if IsNumber(g.t.ty) {
        var s2 := LoopTest(w, code, b, c, g.t, s', g.s);
        TickingAdd(w, code, n, 2, Stand(b1, s));
        n, s' := n + 2, s2;
        if IsTrue(w, g.t) {
          var m, s3 := IterationMeans(w, code, b, st, s2, g.s, used, fuel);
          RanLater(w, code, b1, b2, b', s, s2, n, m, s3, Exec(w, b.ret, st, src, fuel), fuel - 1, fuel);
          n, s' := n + m, s3;
        }
      }
    }
  }

  /** The body of a loop, and what follows. */
  lemma {:induction false} IterationMeans(w: World, code: map<Block, seq<Instr>>, b: Builder, st: Stmt, s: State,
                                          src: Source, used: set<Id>, fuel: nat) returns (n: nat, s': State)
    requires st.While? && fuel > 0 && Ready(b) && Rel(w, b.scope, s, src) && SlotsIn(b.scope, used)
    requires FreshSites(st, used) && Completes(code, LowerStmt(b, st))
    ensures Ran(w, code, WhileBody(b, st.cond), LowerStmt(b, st), s, n, s', Iterate(w, b.ret, st, src, fuel), fuel - 1)
    decreases fuel, st, 0
  {
    hide Good, Open, Rel, Completes, SlotsIn, LowerExpr, LowerStmt, BranchTo, NewBlock, Addressed, Forked, WhileBody,
      Exec, Ran;
    var c, body, b1, b2, b' := st.cond, st.body, WhileStart(b), WhileBody(b, st.cond), LowerStmt(b, st);
    RelAddressed(w, b.scope, s, src);
    WhileParts(b, c, body);
    WhileCompletes(code, b, c, body);
    var b3 := LowerStmt(b2, body);
    DoneFacts(b2, b3);
    n, s' := StmtMeans(w, code, b2, body, s, src, used, fuel - 1);
    var o := Exec(w, b.ret, body, src, fuel - 1);
    if o.Normal? {
      var s3 := s';
      RanThrough(w, code, b2, b3, s, n, s3, o, fuel - 1);
      BranchMeans(w, code, b3, b.nextBlock, s3);
      TickMore(w, code, n, Stand(b2, s), Stand(b3, s3));
      var k, s4 := LoopMeans(w, code, b, st, s3, o.s, used, fuel - 1);
      RanLater(w, code, b2, b1, b', s, s3, n + 1, k, s4, Exec(w, b.ret, st, o.s, fuel - 1), fuel - 1, fuel - 1);
      n, s' := n + 1 + k, s4;
    } else {
      RanOut(w, code, b2, b3, b', s, n, s', o, fuel - 1);
    }
  }

  /** The test of a loop, from the value of its condition. */
  lemma LoopTest(w: World, code: map<Block, seq<Instr>>, b: Builder, c: Expr, v: Typed, s: State, src: Source)
    returns (s': State)
    requires Ready(b) && Addressed(b.scope) && Completes(code, WhileBody(b, c)) && IsNumber(v.ty)
    requires var x := LowerExpr(WhileStart(b), c);
      x.ty == v.ty && Eval(w, s.env, x.o) == Some(v.v) && Rel(w, x.b.scope, s, src)
    ensures var x := LowerExpr(WhileStart(b), c);
      Ticking(w, code, 2, Stand(x.b, s)) == Here(if IsTrue(w, v) then x.b.nextBlock else x.b.nextBlock + 1, 0, s')
    ensures Rel(w, b.scope, s', src)
  {
    hide Good, Open, Rel, Completes, LowerExpr, BranchTo, NewBlock, Addressed, Keeps, Grows, Stand, Ticking;
    var b1 := WhileStart(b);
    WhileStarted(b, c);
    ExprKept(b1, c);
    var x := LowerExpr(b1, c);
    KeptFacts(b1, x.b);
    SelfKept(x.b);
    TwoNew(x.b, x.b);
    NewBlocksStand(x.b, s);
    s' := ForkMeans(w, code, NewBlock(NewBlock(x.b)), TestName(x.ty), x.o, v.v, x.b.nextBlock, x.b.nextBlock + 1, s);
    RelEnv(w, b.scope, s, s', src);
  }

  // ----- functions -----

  lemma ParamMeans(w: World, code: map<Block, seq<Instr>>, b: Builder, d: VarDecl, i: nat, s: State, src: Source,
                   used: set<Id>) returns (s': State)
    requires Starts(w, b, s, src) && b.scope != [] && SlotsIn(b.scope, used) && d.site !in used
    requires Completes(code, LowerParam(b, d, i))
    ensures Ticking(w, code, 2, Stand(b, s)) == Stand(LowerParam(b, d, i), s') && Completes(code, b)
    ensures Rel(w, LowerParam(b, d, i).scope, s',
                src.(frames := Bind(src.frames, d.id, Local(ParamTy(d), Some(w.arg(i))))))
    ensures SlotsIn(LowerParam(b, d, i).scope, used + {d.site})
  {
    hide Good, Open, Rel, Completes, SlotsIn, Append, Kept, Stand;
    var j, b1 := Alloca(d.site, !d.isArray), Append(b, Alloca(d.site, !d.isArray));
    SelfKept(b);
    AppendOne(b, b, j);
    KeptFacts(b, b1);
    var i2 := Store(b1.nextId, Arg(i), Slot(d.site));
    var b2 := Append(b1, i2);
    NextId(b1, i2);
    CompletesSame(code, b2, LowerParam(b, d, i));
    CompletesAppend(code, b1, i2);
    var s1 := s.(cells := s.cells - {d.site});
    s' := s1.(cells := s1.cells[d.site := w.arg(i)]);
    AppendTick(w, code, b, j, s);
    AppendTick(w, code, b1, i2, s1);
    TickMore(w, code, 0, Stand(b, s), Stand(b, s));
    TickMore(w, code, 1, Stand(b, s), Stand(b1, s1));
    SlotMade(w, b.scope, s, src, d, One(ParamTy(d)), Local(ParamTy(d), Some(w.arg(i))), s'.cells, used);
    StandSame(b2, LowerParam(b, d, i), s');
  }

  lemma StandSame(b: Builder, b': Builder, s: State)
    requires b'.code == b.code && b'.cur == b.cur
    ensures Stand(b', s) == Stand(b, s)
  {
  }

  function SitesFrom(ds: seq<VarDecl>, i: nat): set<Id> {
    set k | i <= k < |ds| :: ds[k].site
  }

  lemma {:induction false} ParamsMean(w: World, code: map<Block, seq<Instr>>, b: Builder, ds: seq<VarDecl>, i: nat,
                                      s: State, src: Source, used: set<Id>) returns (n: nat, s': State)
    requires i <= |ds| && Starts(w, b, s, src) && b.scope != [] && SlotsIn(b.scope, used)
    requires Completes(code, LowerParams(b, ds, i))
    requires FreshDecls(ds, used - Sites(ds[..i])) && Sites(ds[..i]) <= used
    ensures var b' := LowerParams(b, ds, i);
      && Ticking(w, code, n, Stand(b, s)) == Stand(b', s')
      && Starts(w, b', s', src.(frames := BindParams(w, src.frames, ds, i)))
      && SlotsIn(b'.scope, used + SitesFrom(ds, i))
    decreases |ds| - i
  {
    hide Good, Open, Rel, Completes, SlotsIn, Grows, Addressed, LowerParam, Bind;
    n, s' := 0, s;
    if i == |ds| {
      assert used + SitesFrom(ds, i) == used;
    } else {
      var d, b1 := ds[i], LowerParam(b, ds[i], i);
      RelAddressed(w, b.scope, s, src);
      ParamDeclared(b, d, i);
      ParamsDeclared(b1, ds, i + 1);
      CompletesGrows(code, b1, LowerParams(b1, ds, i + 1), {});
      ParamFresh(ds, i, used);
      var s1 := ParamMeans(w, code, b, d, i, s, src, used);
      var src1 := src.(frames := Bind(src.frames, d.id, Local(ParamTy(d), Some(w.arg(i)))));
      var m, s2 := ParamsMean(w, code, b1, ds, i + 1, s1, src1, used + {d.site});
      TickingAdd(w, code, 2, m, Stand(b, s));
      n, s' := 2 + m, s2;
    }
  }

  lemma ParamFresh(ds: seq<VarDecl>, i: nat, used: set<Id>)
    requires i < |ds| && FreshDecls(ds, used - Sites(ds[..i])) && Sites(ds[..i]) <= used
    ensures ds[i].site !in used
    ensures FreshDecls(ds, (used + {ds[i].site}) - Sites(ds[..i + 1])) && Sites(ds[..i + 1]) <= used + {ds[i].site}
    ensures used + {ds[i].site} + SitesFrom(ds, i + 1) == used + SitesFrom(ds, i)
  {
    assert Sites(ds[..i + 1]) == Sites(ds[..i]) + {ds[i].site} by {
      assert ds[..i + 1] == ds[..i] + [ds[i]];
      forall x | x in Sites(ds[..i])
        ensures x in Sites(ds[..i + 1])
      {
        var k :| 0 <= k < i && ds[..i][k].site == x;
        assert ds[..i + 1][k].site == x;
      }
      assert ds[..i + 1][i].site == ds[i].site;
      forall x | x in Sites(ds[..i + 1])
        ensures x in Sites(ds[..i]) + {ds[i].site}
      {
        var k :| 0 <= k < i + 1 && ds[..i + 1][k].site == x;
        assert k < i ==> ds[..i][k].site == x;
      }
    }
    assert ds[i].site !in Sites(ds[..i]) by {
      assert forall k :: 0 <= k < i ==> ds[..i][k].site == ds[k].site;
    }
  }

  /** Names of functions and global variables are bound alike for the builder and the source. */
  ghost predicate GlobalsMatch(w: World, globals: map<string, Symbol>, frame: map<string, Entry>) {
    && Matches(w, [globals], map[], [frame])
    && forall x {:trigger globals[x]} :: x in globals && globals[x].Var? ==> globals[x].addr.Global?
  }

  lemma GlobalsRel(w: World, globals: map<string, Symbol>, frame: map<string, Entry>, mem: Memory)
    requires GlobalsMatch(w, globals, frame)
    ensures Rel(w, [globals, map[]], State(map[], map[], mem, []), Source([frame, map[]], mem, []))
    ensures SlotsIn([globals, map[]], {})
    ensures Addressed([globals])
  {
    var scope, frames := [globals, map[]], [frame, map[]];
    forall k, x, v
      ensures !HasSlot(scope, k, x, v)
    {
    }
    forall k, x | 0 <= k < |scope|
      ensures x in scope[k] <==> x in frames[k]
      ensures x in scope[k] ==> EntryMatches(w, map[], scope[k][x], frames[k][x])
    {
      assert x in [globals][0] <==> x in [frame][0];
    }
  }

  lemma EndCompletes(b: Builder)
    requires forall x {:trigger b.code[x]} :: x in b.code ==> Sealed(b.code[x])
    ensures Completes(b.code, b)
  {
  }

  /** A call of the lowered function does what the source says: it returns the same values with the same
      memory, stores and calls when the source returns, and is still running after as many steps as the
      source can make loop iterations when the source needs more. */
  lemma LoweringPreservesMeaning(w: World, f: FunDecl, globals: map<string, Symbol>, frame: map<string, Entry>,
                                 firstId: Id, mem: Memory, fuel: nat) returns (n: nat, s': State)
    requires GlobalsMatch(w, globals, frame) && FreshDecls(f.params, {}) && FreshSites(f.body, Sites(f.params))
    ensures var code := LowerFun(f, globals, firstId).code; var start := Here(ENTRY, 0, State(map[], map[], mem, []));
      Performed(w, code, start, n, s', Invoke(w, f, frame, mem, fuel), fuel)
  {
    hide Good, Open, Rel, Completes, SlotsIn, Grows, Addressed, LowerParams, LowerStmt, BindParams, Exec, Ran, Sealed,
      Mirrored;
    var b0, s0, src0 := Begin(f.ret, globals, firstId), State(map[], map[], mem, []), Source([frame, map[]], mem, []);
    var b := LowerFun(f, globals, firstId);
    GlobalsRel(w, globals, frame, mem);
    FunctionShape(f, globals, firstId);
    EndCompletes(b);
    BeginReady(f.ret, globals, firstId);
    ParamsDeclared(b0, f.params, 0);
    var b1 := LowerParams(b0, f.params, 0);
    StmtDone(b1, f.body);
    var b2 := LowerStmt(b1, f.body);
    DoneFacts(b1, b2);
    GrowsFacts(b0, b1, {});
    EndOfFunction(b2, f.ret, b.code);
    CompletesGrows(b.code, b1, b2, {});
    assert f.params[..0] == [] && Sites([]) == {};
    var n1, s1 := ParamsMean(w, b.code, b0, f.params, 0, s0, src0, {});
    var src1 := src0.(frames := BindParams(w, src0.frames, f.params, 0));
    assert {} + SitesFrom(f.params, 0) == Sites(f.params);
    var n2, s2 := StmtMeans(w, b.code, b1, f.body, s1, src1, Sites(f.params), fuel);
    var o := Exec(w, f.ret, f.body, src1, fuel);
    RanLater(w, b.code, b0, b1, b2, s0, s1, n1, n2, s2, o, fuel, fuel);
    n, s' := n1 + n2, s2;
    if o.Normal? {
      RanThrough(w, b.code, b0, b2, s0, n, s2, o, fuel);
      SameMemory(w, b2.scope, s2, o.s);
      DefaultValues(w, s2.env, f.ret);
      AppendTick(w, b.code, b2, Instr.Ret(b2.nextId, DefaultOperands(f.ret)), s2);
      TickMore(w, b.code, n, Stand(b0, s0), Stand(b2, s2));
      n := n + 1;
    } else {
      RanPerformed(w, b.code, b0, b2, s0, n, s2, o, fuel);
    }
  }

  lemma EndOfFunction(b: Builder, ret: Ty, code: map<Block, seq<Instr>>)
    requires Good(b) && code == (if b.Terminated() then b else EmitRet(b, DefaultOperands(ret))).code
    requires Completes(code, if b.Terminated() then b else EmitRet(b, DefaultOperands(ret)))
    ensures Completes(code, b)
  {
    hide Good, Open, Completes;
    ReadyTerminated(b);
    if !b.Terminated() {
      CompletesAppend(code, b, Instr.Ret(b.nextId, DefaultOperands(ret)));
    }
  }

  /** The run of `n` instructions does what the outcome says. */
  ghost predicate Performed(w: World, code: map<Block, seq<Instr>>, start: Conf, n: nat, s': State, o: Outcome,
                            fuel: nat) {
    match o
    case Normal(_) => false
    case Returned(vals, m, t) => Ticking(w, code, n, start) == Over(vals, s') && s'.mem == m && s'.trace == t
    case OutOfFuel => n >= fuel && Ticking(w, code, n, start).Here?
    case Failed => true
  }

  lemma RanPerformed(w: World, code: map<Block, seq<Instr>>, b: Builder, b': Builder, s: State, n: nat, s': State,
                     o: Outcome, fuel: nat)
    requires Ran(w, code, b, b', s, n, s', o, fuel) && !o.Normal?
    ensures Performed(w, code, Stand(b, s), n, s', o, fuel)
  {
  }

  /** Block by block, the lowered function finishes with what the source returns. */
  lemma LoweredFunctionReturns(w: World, f: FunDecl, globals: map<string, Symbol>, frame: map<string, Entry>,
                               firstId: Id, mem: Memory, fuel: nat) returns (blocks: nat, s': State)
    requires GlobalsMatch(w, globals, frame) && FreshDecls(f.params, {}) && FreshSites(f.body, Sites(f.params))
    requires Invoke(w, f, frame, mem, fuel).Returned?
    ensures var o := Invoke(w, f, frame, mem, fuel);
      Run(w, NoPhis(LowerFun(f, globals, firstId).code), blocks,
          At(ENTRY, State(map[], map[], mem, []))) == Finished(o.vals, s')
      && s'.mem == o.mem && s'.trace == o.trace
  {
    hide LowerFun, Invoke, Mirrored;
    var n, s := LoweringPreservesMeaning(w, f, globals, frame, firstId, mem, fuel);
    s' := s;
    var code := LowerFun(f, globals, firstId).code;
    GlobalsRel(w, globals, frame, mem);
    FunctionShape(f, globals, firstId);
    FirstBlock(LowerFun(f, globals, firstId));
    blocks := RunReturns(w, code, ENTRY, State(map[], map[], mem, []), n);
  }

  /** A function that never returns according to the source, whatever number of loop iterations is allowed,
      never stops running once lowered. */
  lemma LoweredFunctionDiverges(w: World, f: FunDecl, globals: map<string, Symbol>, frame: map<string, Entry>,
                                firstId: Id, mem: Memory, n: nat)
    requires GlobalsMatch(w, globals, frame) && FreshDecls(f.params, {}) && FreshSites(f.body, Sites(f.params))
    requires Invoke(w, f, frame, mem, n) == OutOfFuel
    ensures Ticking(w, LowerFun(f, globals, firstId).code, n, Here(ENTRY, 0, State(map[], map[], mem, []))).Here?
  {
    hide LowerFun, Invoke;
    var m, s := LoweringPreservesMeaning(w, f, globals, frame, firstId, mem, n);
    var code, start := LowerFun(f, globals, firstId).code, Here(ENTRY, 0, State(map[], map[], mem, []));
    if !Ticking(w, code, n, start).Here? {
      Settled(w, code, n, m, start);
    }
  }

  /** Block by block: for every number of blocks there are loop iterations that outlast them, so if the source is
      still running then, the lowered function has not come to an end either. */
  lemma LoweredFunctionRunsOn(w: World, f: FunDecl, globals: map<string, Symbol>, frame: map<string, Entry>,
                              firstId: Id, mem: Memory, blocks: nat) returns (fuel: nat)
    requires GlobalsMatch(w, globals, frame) && FreshDecls(f.params, {}) && FreshSites(f.body, Sites(f.params))
    ensures Invoke(w, f, frame, mem, fuel) == OutOfFuel ==>
      Run(w, NoPhis(LowerFun(f, globals, firstId).code), blocks, At(ENTRY, State(map[], map[], mem, []))).At?
  {
    hide LowerFun, Invoke, Run, Ticking;
    var code, start := LowerFun(f, globals, firstId).code, At(ENTRY, State(map[], map[], mem, []));
    fuel := RunTicks(w, code, blocks, start);
    if Invoke(w, f, frame, mem, fuel) == OutOfFuel {
      LoweredFunctionDiverges(w, f, globals, frame, firstId, mem, fuel);
    }
  }
}
