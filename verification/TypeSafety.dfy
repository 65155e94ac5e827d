/** Functions that pass the check and are typed never fail: no evaluation reads a variable that has not been set,
    misses a name, or mixes types that cannot be converted. */
module TypeSafety {
  import opened ControlFlow
  import opened IR
  import opened Scopes
  import opened Syntax
  import opened SourceSemantics
  import opened Lowering
  import opened LoweringMeaning
  import opened StatementMeaning
  import opened SourceCheck
  import opened Arithmetic

  // ----- static types -----

  predicate Pointer(t: Ty) {
    t == IntPtr || t == FltPtr
  }

  /** A value of one type can be assigned to the other. */
  predicate Assignable(from: Ty, to: Ty) {
    (from == to && from != Void) || (Numeric(from) && Numeric(to))
  }

  predicate Passable(from: Ty, to: Ty) {
    (Pointer(from) && Pointer(to)) || Assignable(from, to)
  }

  function TypeOf(scope: seq<map<string, Symbol>>, e: Expr): Ty
    decreases e, 1
  {
    match e
    case Num(isInt, _) => if isInt then Int else Flt
    case Ref(v) => VarType(scope, v)
    case Paren(inner) => TypeOf(scope, inner)
    case Assign(d, _) => VarType(scope, d)
    case Relation(_, _, _) => Int
    case Arith(_, l, r) => if TypeOf(scope, l) == Int && TypeOf(scope, r) == Int then Int else Flt
    case CallFun(id, _) =>
      match Lookup<Symbol>(scope, id)
      case Some(Callee(_, ret, _)) => ret
      case _ => Void
  }

  /** The type of a variable as a value; the elements of an array are numbers. */
  function VarType(scope: seq<map<string, Symbol>>, v: VarRef): Ty {
    match Lookup<Symbol>(scope, v.id)
    case Some(Var(_, One(t))) => if v.index.None? then t else if t == IntPtr then Int else Flt
    case Some(Var(_, Many(t))) => if v.index.Some? then t else if t == Int then IntPtr else FltPtr
    case _ => Void
  }

  /** Operands and conditions are numbers, and what is assigned or passed fits. */
  predicate WellTyped(scope: seq<map<string, Symbol>>, e: Expr)
    decreases e, 2
  {
    match e
    case Num(_, _) => true
    case Ref(v) => VarTyped(scope, v)
    case Paren(inner) => WellTyped(scope, inner)
    case Assign(d, rhs) =>
      WellTyped(scope, rhs) && VarTyped(scope, d) && Assignable(TypeOf(scope, rhs), VarType(scope, d))
    case Relation(_, l, r) => NumberTyped(scope, l) && NumberTyped(scope, r)
    case Arith(_, l, r) => NumberTyped(scope, l) && NumberTyped(scope, r)
    case CallFun(id, args) =>
      match Lookup<Symbol>(scope, id)
      case Some(Callee(_, _, params)) => |args| == |params| && ArgsTyped(scope, args, params)
      case _ => false
  }

  predicate NumberTyped(scope: seq<map<string, Symbol>>, e: Expr)
    decreases e, 3
  {
    WellTyped(scope, e) && Numeric(TypeOf(scope, e))
  }

  predicate ArgsTyped(scope: seq<map<string, Symbol>>, args: seq<Expr>, params: seq<Ty>)
    requires |args| == |params|
    decreases args, 0
  {
    args != [] ==>
      WellTyped(scope, args[0]) && Passable(TypeOf(scope, args[0]), params[0])
        && ArgsTyped(scope, args[1..], params[1..])
  }

  /** Only the pointers among the local variables are indexed. */
  predicate VarTyped(scope: seq<map<string, Symbol>>, v: VarRef)
    decreases v, 0
  {
    v.index.None? || (NumberTyped(scope, v.index.value) && IndexedName(scope, v.id))
  }

  predicate IndexedName(scope: seq<map<string, Symbol>>, id: string) {
    match Lookup<Symbol>(scope, id)
    case Some(Var(addr, One(t))) => addr.Slot? && Pointer(t)
    case _ => true
  }

  predicate StmtTyped(scope: seq<map<string, Symbol>>, ret: Ty, st: Stmt)
    decreases st, 1
  {
    match st
    case Compound(ds, sts) => AllTyped(DeclScope(scope + [map[]], ds), ret, sts)
    case ExprStmt(e) => e.Some? ==> WellTyped(scope, e.value)
    case If(c, t, f) =>
      NumberTyped(scope, c) && StmtTyped(scope, ret, t) && (f.Some? ==> StmtTyped(scope, ret, f.value))
    case While(c, body) => NumberTyped(scope, c) && StmtTyped(scope, ret, body)
    case Return(e) => e.Some? ==> WellTyped(scope, e.value) && Assignable(TypeOf(scope, e.value), ret)
  }

  predicate AllTyped(scope: seq<map<string, Symbol>>, ret: Ty, sts: seq<Stmt>)
    decreases sts, 0
  {
    sts != [] ==> StmtTyped(scope, ret, sts[0]) && AllTyped(scope, ret, sts[1..])
  }

  predicate FunTyped(f: FunDecl, globals: map<string, Symbol>) {
    StmtTyped(ParamScope([globals, map[]], f.params, 0), f.ret, f.body)
  }

  // ----- states -----

  ghost predicate EntryFits(sym: Symbol, e: Entry, have: set<Id>) {
    match e
    case Local(ty, val) => sym.Var? && sym.addr.Slot? && sym.held == One(ty) && (sym.addr.v in have ==> val.Some?)
    case Object(held, _) => sym.Var? && sym.held == held && (held.One? ==> sym.addr.Global?)
    case Fun(name, ret, params) => sym == Callee(name, ret, params)
  }

  /** Every name stands for what it is declared as, and the variables whose slots are in `have` have been set. */
  ghost predicate Fits(scope: seq<map<string, Symbol>>, frames: seq<map<string, Entry>>, have: set<Id>) {
    && |scope| == |frames|
    && (forall k, x {:trigger x in scope[k]} {:trigger x in frames[k]} :: 0 <= k < |scope| ==>
          (x in scope[k] <==> x in frames[k]) && (x in scope[k] ==> EntryFits(scope[k][x], frames[k][x], have)))
  }

  lemma FitsInner(scope: seq<map<string, Symbol>>, frames: seq<map<string, Entry>>, have: set<Id>)
    requires Fits(scope, frames, have) && scope != []
    ensures Fits(scope[..|scope| - 1], frames[..|frames| - 1], have)
  {
    hide EntryFits;
    var rest, rest' := scope[..|scope| - 1], frames[..|frames| - 1];
    forall k, x | 0 <= k < |rest|
      ensures x in rest[k] <==> x in rest'[k]
      ensures x in rest[k] ==> EntryFits(rest[k][x], rest'[k][x], have)
    {
      assert rest[k] == scope[k] && rest'[k] == frames[k];
      assert x in scope[k] <==> x in frames[k];
    }
  }

  lemma {:induction false} LookupEntry(scope: seq<map<string, Symbol>>, frames: seq<map<string, Entry>>, have: set<Id>,
                                       id: string)
    requires Fits(scope, frames, have)
    ensures Lookup<Symbol>(scope, id).Some? <==> Lookup<Entry>(frames, id).Some?
    ensures Lookup<Symbol>(scope, id).Some? ==>
      EntryFits(Lookup<Symbol>(scope, id).value, Lookup<Entry>(frames, id).value, have)
    ensures Depth(scope, id) == Depth(frames, id)
  {
    hide EntryFits;
    if scope != [] {
      var top := |scope| - 1;
      assert id in scope[top] <==> id in frames[top];
      FitsInner(scope, frames, have);
      LookupEntry(scope[..top], frames[..top], have, id);
    }
  }

  /** A variable that is set has been set from then on. */
  lemma SetFits(scope: seq<map<string, Symbol>>, frames: seq<map<string, Entry>>, have: set<Id>, id: string, ty: Ty,
                x: Val)
    requires Fits(scope, frames, have)
    requires Lookup<Entry>(frames, id).Some? && Lookup<Entry>(frames, id).value.Local?
    requires Lookup<Entry>(frames, id).value.ty == ty
    ensures Fits(scope, SetLocal(frames, id, ty, x), have)
    ensures Apart(scope) ==> forall v {:trigger have + {v}} ::
      Lookup<Symbol>(scope, id) == Some(Var(Slot(v), One(ty))) ==>
      Fits(scope, SetLocal(frames, id, ty, x), have + {v})
  {
    LookupEntry(scope, frames, have, id);
    DepthLookup(scope, id);
    DepthLookup(frames, id);
    DepthSet(frames, id, ty, x);
    var k, frames' := Depth(frames, id), SetLocal(frames, id, ty, x);
    assert id in scope[k] && HasSlot(scope, k, id, scope[k][id].addr.v);
    forall j, y | 0 <= j < |scope|
      ensures y in scope[j] <==> y in frames'[j]
      ensures y in scope[j] ==> EntryFits(scope[j][y], frames'[j][y], have)
      ensures y in scope[j] && Apart(scope) ==> EntryFits(scope[j][y], frames'[j][y], have + {scope[k][id].addr.v})
    {
      assert y in scope[j] <==> y in frames[j];
      if y in scope[j] && scope[j][y].Var? && scope[j][y].addr.Slot? {
        assert HasSlot(scope, j, y, scope[j][y].addr.v);
      }
    }
  }

  // ----- expressions -----

  /** Evaluation gives a value of the static type, or leaves the function. */
  ghost predicate Safe(scope: seq<map<string, Symbol>>, have: set<Id>, ty: Ty, g: Got<Typed>) {
    !g.Wrong? && (g.Got? ==> g.t.ty == ty && Fits(scope, g.s.frames, have))
  }

  lemma AssignableConverts(w: World, x: Typed, to: Ty)
    ensures Assignable(x.ty, to) ==> Convert(w, x, to).Some?
    ensures Passable(x.ty, to) ==> Pass(w, x, to).Some?
  {
  }

  lemma {:induction false} ExprSafe(w: World, scope: seq<map<string, Symbol>>, e: Expr, src: Source, have: set<Id>)
    requires Fits(scope, src.frames, have) && ExprOk(scope, e, have) && WellTyped(scope, e)
    ensures Safe(scope, have, TypeOf(scope, e), EvalExpr(w, e, src))
    decreases e, 3
  {
    hide Fits, EvalRef, EvalPlace, EvalPair, RefOk, VarTyped, VarType, Lookup;
    match e
    case Num(_, _) =>
    case Ref(v) => RefSafe(w, scope, v, src, have);
    case Paren(inner) => ExprSafe(w, scope, inner, src, have);
    case Assign(d, rhs) => AssignSafe(w, scope, d, rhs, src, have);
    case Relation(_, _, _) => PairSafe(w, scope, e, src, have);
    case Arith(_, _, _) => PairSafe(w, scope, e, src, have);
    case CallFun(id, args) => CallSafe(w, scope, id, args, src, have);
  }

  /** Negative indices have someone to report them to. */
  lemma NegativeSafe(w: World, scope: seq<map<string, Symbol>>, src: Source, have: set<Id>)
    requires Fits(scope, src.frames, have)
    requires Lookup<Symbol>(scope, NEGATIVE_INDEX).Some? && Lookup<Symbol>(scope, NEGATIVE_INDEX).value.Callee?
    ensures NegativeIndex<Place>(w, src).Left?
  {
    hide Lookup;
    LookupEntry(scope, src.frames, have, NEGATIVE_INDEX);
  }

  ghost predicate PlaceSafe(scope: seq<map<string, Symbol>>, have: set<Id>, ty: Ty, g: Got<Place>) {
    && !g.Wrong?
    && (g.Got? ==> g.t.ty == ty && Fits(scope, g.s.frames, have) && (g.t.Cell? ==>
          var e := Lookup<Entry>(g.s.frames, g.t.id); e.Some? && e.value.Local? && e.value.ty == ty))
  }

  lemma ElementSafe(w: World, scope: seq<map<string, Symbol>>, v: VarRef, k: Val, src: Source, have: set<Id>)
    requires Fits(scope, src.frames, have) && RefOk(scope, v, have) && VarTyped(scope, v) && v.index.Some?
    ensures PlaceSafe(scope, have, VarType(scope, v), ElementAt(w, v.id, k, src))
  {
    hide Fits, Lookup, ExprOk, NumberTyped;
    LookupEntry(scope, src.frames, have, v.id);
  }

  lemma IndexableFits(scope: seq<map<string, Symbol>>, v: VarRef, src: Source, have: set<Id>)
    requires Fits(scope, src.frames, have) && RefOk(scope, v, have) && VarTyped(scope, v) && v.index.Some?
    ensures Indexable(src.frames, v.id)
  {
    hide Fits, Lookup, ExprOk, NumberTyped;
    LookupEntry(scope, src.frames, have, v.id);
  }

  lemma {:induction false} PlaceFound(w: World, scope: seq<map<string, Symbol>>, v: VarRef, src: Source, have: set<Id>)
    requires Fits(scope, src.frames, have) && RefOk(scope, v, have) && VarTyped(scope, v)
    requires v.index.None? ==> !WholeArray(scope, v.id)
    ensures PlaceSafe(scope, have, VarType(scope, v), EvalPlace(w, v, src))
    decreases v, 0
  {
    hide Fits, Lookup, WellTyped, TypeOf, ExprOk, EvalExpr, VarType, NegativeIndex, ElementAt, Convert;
    match v.index
    case None => NameFound(w, scope, v, src, have);
    case Some(i) =>
      IndexableFits(scope, v, src, have);
      ExprSafe(w, scope, i, src, have);
      var g := EvalExpr(w, i, src);
      if g.Got? {
        AssignableConverts(w, g.t, Int);
        NegativeSafe(w, scope, g.s, have);
        ElementSafe(w, scope, v, Convert(w, g.t, Int).value, g.s, have);
      }
  }

  lemma NameFound(w: World, scope: seq<map<string, Symbol>>, v: VarRef, src: Source, have: set<Id>)
    requires Fits(scope, src.frames, have) && RefOk(scope, v, have) && v.index.None? && !WholeArray(scope, v.id)
    ensures PlaceSafe(scope, have, VarType(scope, v), EvalPlace(w, v, src))
  {
    hide Fits, Lookup, ExprOk;
    LookupEntry(scope, src.frames, have, v.id);
  }

  lemma {:induction false} RefSafe(w: World, scope: seq<map<string, Symbol>>, v: VarRef, src: Source, have: set<Id>)
    requires Fits(scope, src.frames, have) && RefOk(scope, v, have) && VarTyped(scope, v)
    ensures Safe(scope, have, VarType(scope, v), EvalRef(w, v, src))
    decreases v, 1
  {
    hide Fits, Lookup, ExprOk, NumberTyped, EvalPlace;
    if v.index.Some? {
      PlaceFound(w, scope, v, src, have);
      ElementInMemory(w, v, src);
    } else {
      LookupEntry(scope, src.frames, have, v.id);
    }
  }

  /** What is indexed is in memory. */
  lemma ElementInMemory(w: World, v: VarRef, src: Source)
    requires v.index.Some?
    ensures EvalPlace(w, v, src).Got? ==> EvalPlace(w, v, src).t.InMemory?
  {
    hide EvalExpr, Lookup;
  }

  lemma {:induction false} AssignSafe(w: World, scope: seq<map<string, Symbol>>, d: VarRef, rhs: Expr, src: Source,
                                      have: set<Id>)
    requires Fits(scope, src.frames, have) && ExprOk(scope, Assign(d, rhs), have) && WellTyped(scope, Assign(d, rhs))
    ensures Safe(scope, have, VarType(scope, d), EvalExpr(w, Assign(d, rhs), src))
    decreases Assign(d, rhs), 0
  {
    hide Fits, Lookup, EvalPlace, RefOk, VarTyped, VarType, Write;
    ExprSafe(w, scope, rhs, src, have);
    var g := EvalExpr(w, rhs, src);
    if g.Got? {
      PlaceFound(w, scope, d, g.s, have);
      var p := EvalPlace(w, d, g.s);
      if p.Got? {
        WriteSafe(w, scope, p.t, g.t, p.s, have);
      }
    }
  }

  lemma WriteSafe(w: World, scope: seq<map<string, Symbol>>, p: Place, x: Typed, src: Source,
                  have: set<Id>)
    requires PlaceSafe(scope, have, p.ty, Got(p, src)) && Assignable(x.ty, p.ty)
    ensures Safe(scope, have, p.ty, Write(w, p, x, src))
  {
    hide Fits, Lookup, Convert, SetLocal;
    AssignableConverts(w, x, p.ty);
    if p.Cell? {
      SetFits(scope, src.frames, have, p.id, p.ty, Convert(w, x, p.ty).value);
    }
  }

  lemma {:induction false} PairSafe(w: World, scope: seq<map<string, Symbol>>, e: Expr, src: Source, have: set<Id>)
    requires e.Relation? || e.Arith?
    requires Fits(scope, src.frames, have) && ExprOk(scope, e, have) && WellTyped(scope, e)
    ensures var g := EvalPair(w, e, src);
      && !g.Wrong? && (g.Got? ==> Fits(scope, g.s.frames, have))
      && (g.Got? ==> (g.t.2 <==> TypeOf(scope, e.l) == Int && TypeOf(scope, e.r) == Int))
    decreases e, 1
  {
    hide Fits, EvalExpr, TypeOf;
    ExprSafe(w, scope, e.l, src, have);
    var g := EvalExpr(w, e.l, src);
    if g.Got? {
      ExprSafe(w, scope, e.r, g.s, have);
    }
  }

  lemma {:induction false} CallSafe(w: World, scope: seq<map<string, Symbol>>, id: string, args: seq<Expr>, src: Source,
                                    have: set<Id>)
    requires Fits(scope, src.frames, have) && ExprOk(scope, CallFun(id, args), have)
    requires WellTyped(scope, CallFun(id, args))
    ensures Safe(scope, have, TypeOf(scope, CallFun(id, args)), EvalExpr(w, CallFun(id, args), src))
    decreases CallFun(id, args), 1
  {
    hide Fits, Lookup, ArgsOk, ArgsTyped, EvalArgs;
    LookupEntry(scope, src.frames, have, id);
    ArgsSafe(w, scope, args, Lookup<Symbol>(scope, id).value.params, src, have);
  }

  lemma {:induction false} ArgsSafe(w: World, scope: seq<map<string, Symbol>>, args: seq<Expr>, params: seq<Ty>,
                                    src: Source, have: set<Id>)
    requires |args| == |params| && Fits(scope, src.frames, have)
    requires ArgsOk(scope, args, have) && ArgsTyped(scope, args, params)
    ensures var g := EvalArgs(w, args, params, src); !g.Wrong? && (g.Got? ==> Fits(scope, g.s.frames, have))
    decreases args, 0
  {
    hide Fits, EvalExpr, TypeOf, WellTyped, ExprOk, Pass;
    if args != [] {
      ExprSafe(w, scope, args[0], src, have);
      var g := EvalExpr(w, args[0], src);
      if g.Got? {
        AssignableConverts(w, g.t, params[0]);
        ArgsSafe(w, scope, args[1..], params[1..], g.s, have);
      }
    }
  }

  // ----- statements -----

  /** The statement falls through with every name as declared, returns, or runs out of fuel. */
  ghost predicate Sound(scope: seq<map<string, Symbol>>, have: set<Id>, o: Outcome) {
    !o.Failed? && (o.Normal? ==> Fits(scope, o.s.frames, have))
  }

  lemma DeclareFits(w: World, scope: seq<map<string, Symbol>>, frames: seq<map<string, Entry>>, d: VarDecl,
                    have: set<Id>)
    requires Fits(scope, frames, have) && scope != [] && d.site !in have
    ensures Fits(Bind(scope, d.id, Var(Slot(d.site), HeldBy(d))), Declare(w, frames, d), have)
    ensures |Bind(scope, d.id, Var(Slot(d.site), HeldBy(d)))| == |scope|
  {
    var scope', frames', top := Bind(scope, d.id, Var(Slot(d.site), HeldBy(d))), Declare(w, frames, d), |scope| - 1;
    assert d.id in scope[top] <==> d.id in frames[top];
    forall k, x | 0 <= k < |scope'|
      ensures x in scope'[k] <==> x in frames'[k]
      ensures x in scope'[k] ==> EntryFits(scope'[k][x], frames'[k][x], have)
    {
      assert x in scope[k] <==> x in frames[k];
    }
  }

  lemma {:induction false} DeclareAllFits(w: World, scope: seq<map<string, Symbol>>, frames: seq<map<string, Entry>>,
                                          ds: seq<VarDecl>, have: set<Id>)
    requires Fits(scope, frames, have) && scope != [] && forall k :: 0 <= k < |ds| ==> ds[k].site !in have
    ensures Fits(DeclScope(scope, ds), DeclareAll(w, frames, ds), have)
    ensures |DeclScope(scope, ds)| == |scope| && Leave(DeclScope(scope, ds)) == Leave(scope)
    decreases |ds|
  {
    hide Fits, Declare, HeldBy;
    if ds != [] {
      var d := ds[0];
      DeclareFits(w, scope, frames, d, have);
      DeclareAllFits(w, Bind(scope, d.id, Var(Slot(d.site), HeldBy(d))), Declare(w, frames, d), ds[1..], have);
    }
  }

  lemma EnterFits(scope: seq<map<string, Symbol>>, frames: seq<map<string, Entry>>, have: set<Id>)
    requires Fits(scope, frames, have)
    ensures Fits(scope + [map[]], frames + [map[]], have) && Leave(scope + [map[]]) == scope
  {
    hide EntryFits;
    var scope', frames' := scope + [map[]], frames + [map[]];
    forall k, x | 0 <= k < |scope'|
      ensures x in scope'[k] <==> x in frames'[k]
      ensures x in scope'[k] ==> EntryFits(scope'[k][x], frames'[k][x], have)
    {
      if k < |scope| {
        assert x in scope[k] <==> x in frames[k];
      }
    }
  }

  lemma {:induction false} StmtSafe(w: World, ret: Ty, scope: seq<map<string, Symbol>>, st: Stmt, src: Source,
                                    have: set<Id>, fuel: nat)
    requires Fits(scope, src.frames, have) && StmtOk(scope, st, have) && StmtTyped(scope, ret, st)
    requires FreshSites(st, have)
    ensures Sound(scope, have, Exec(w, ret, st, src, fuel))
    decreases fuel, st, 2
  {
    hide Fits, ExprOk, WellTyped, TypeOf, EvalExpr;
    match st
    case Compound(ds, sts) => CompoundSafe(w, ret, scope, ds, sts, src, have, fuel);
    case ExprStmt(None) =>
    case ExprStmt(Some(e)) => ExprSafe(w, scope, e, src, have);
    case If(c, t, f) =>
      ExprSafe(w, scope, c, src, have);
      var g := EvalExpr(w, c, src);
      if g.Got? {
        StmtSafe(w, ret, scope, t, g.s, have, fuel);
        if f.Some? {
          StmtSafe(w, ret, scope, f.value, g.s, have, fuel);
        }
      }
    case While(c, body) => LoopSafe(w, ret, scope, c, body, src, have, fuel);
    case Return(None) =>
    case Return(Some(e)) =>
      ExprSafe(w, scope, e, src, have);
      var g := EvalExpr(w, e, src);
      if g.Got? {
        AssignableConverts(w, g.t, ret);
      }
  }

  lemma {:induction false} LoopSafe(w: World, ret: Ty, scope: seq<map<string, Symbol>>, c: Expr, body: Stmt,
                                    src: Source, have: set<Id>, fuel: nat)
    requires Fits(scope, src.frames, have) && StmtOk(scope, While(c, body), have)
    requires StmtTyped(scope, ret, While(c, body)) && FreshSites(While(c, body), have)
    ensures Sound(scope, have, Exec(w, ret, While(c, body), src, fuel))
    decreases fuel, While(c, body), 1
  {
    hide Fits, ExprOk, WellTyped, TypeOf, EvalExpr;
    if fuel > 0 {
      ExprSafe(w, scope, c, src, have);
      var g := EvalExpr(w, c, src);
      if g.Got? {
        StmtSafe(w, ret, scope, body, g.s, have, fuel - 1);
        var o := Exec(w, ret, body, g.s, fuel - 1);
        if o.Normal? {
          LoopSafe(w, ret, scope, c, body, o.s, have, fuel - 1);
        }
      }
    }
  }

  lemma FreshApart(ds: seq<VarDecl>, sts: seq<Stmt>, have: set<Id>)
    requires FreshSites(Compound(ds, sts), have)
    ensures forall k :: 0 <= k < |ds| ==> ds[k].site !in have
    ensures forall k :: 0 <= k < |sts| ==> FreshSites(sts[k], have + Sites(ds))
  {
  }

  lemma {:induction false} FreshLess(st: Stmt, used: set<Id>, have: set<Id>)
    requires FreshSites(st, used) && have <= used
    ensures FreshSites(st, have)
    decreases st
  {
    match st
    case Compound(ds, sts) =>
      forall k | 0 <= k < |sts|
        ensures FreshSites(sts[k], have + Sites(ds))
      {
        FreshLess(sts[k], used + Sites(ds), have + Sites(ds));
      }
    case If(_, t, f) =>
      FreshLess(t, used, have);
      if f.Some? {
        FreshLess(f.value, used, have);
      }
    case While(_, body) => FreshLess(body, used, have);
    case _ =>
  }

  lemma {:induction false} CompoundSafe(w: World, ret: Ty, scope: seq<map<string, Symbol>>, ds: seq<VarDecl>,
                                        sts: seq<Stmt>, src: Source, have: set<Id>, fuel: nat)
    requires Fits(scope, src.frames, have) && StmtOk(scope, Compound(ds, sts), have)
    requires StmtTyped(scope, ret, Compound(ds, sts)) && FreshSites(Compound(ds, sts), have)
    ensures Sound(scope, have, Exec(w, ret, Compound(ds, sts), src, fuel))
    decreases fuel, Compound(ds, sts), 1
  {
    hide Fits, FreshSites, DeclScope, DeclareAll, AllOk, AllTyped;
    FreshApart(ds, sts, have);
    forall k | 0 <= k < |sts|
      ensures FreshSites(sts[k], have)
    {
      FreshLess(sts[k], have + Sites(ds), have);
    }
    EnterFits(scope, src.frames, have);
    DeclareAllFits(w, scope + [map[]], src.frames + [map[]], ds, have);
    var inner, src1 := DeclScope(scope + [map[]], ds), src.(frames := DeclareAll(w, src.frames + [map[]], ds));
    AllSafe(w, ret, inner, sts, src1, have, fuel);
    LeaveSound(inner, have, ExecAll(w, ret, sts, src1, fuel));
  }

  lemma LeaveSound(scope: seq<map<string, Symbol>>, have: set<Id>, o: Outcome)
    requires Sound(scope, have, o) && scope != []
    ensures o.Normal? ==> Fits(Leave(scope), Leave(o.s.frames), have)
  {
    hide Fits;
    if o.Normal? {
      assert o.s.frames != [] by {
        SameDepth(scope, o.s.frames, have);
      }
      FitsInner(scope, o.s.frames, have);
    }
  }

  lemma SameDepth(scope: seq<map<string, Symbol>>, frames: seq<map<string, Entry>>, have: set<Id>)
    requires Fits(scope, frames, have)
    ensures |scope| == |frames|
  {
  }

  lemma {:induction false} AllSafe(w: World, ret: Ty, scope: seq<map<string, Symbol>>, sts: seq<Stmt>, src: Source,
                                   have: set<Id>, fuel: nat)
    requires Fits(scope, src.frames, have) && AllOk(scope, sts, have) && AllTyped(scope, ret, sts)
    requires forall k :: 0 <= k < |sts| ==> FreshSites(sts[k], have)
    ensures Sound(scope, have, ExecAll(w, ret, sts, src, fuel))
    decreases fuel, sts, 0
  {
    hide Fits, StmtOk, StmtTyped, FreshSites, Exec;
    if sts != [] {
      StmtSafe(w, ret, scope, sts[0], src, have, fuel);
      var o := Exec(w, ret, sts[0], src, fuel);
      if o.Normal? {
        assert forall k :: 0 <= k < |sts[1..]| ==> sts[1..][k] == sts[k + 1];
        AllSafe(w, ret, scope, sts[1..], o.s, have, fuel);
      }
    }
  }

  // ----- functions -----

  /** A leading assignment sets one more variable. */
  lemma AssignsSafe(w: World, ret: Ty, scope: seq<map<string, Symbol>>, st: Stmt, src: Source, have: set<Id>, fuel: nat)
    requires Fits(scope, src.frames, have) && Apart(scope) && StmtTyped(scope, ret, st)
    requires Assigns(scope, st, have).Some?
    ensures Sound(scope, have + {Assigns(scope, st, have).value}, Exec(w, ret, st, src, fuel))
  {
    hide Fits, Lookup, ExprOk, EvalExpr, Apart, SetLocal;
    var v, id, rhs := Assigns(scope, st, have).value, st.expr.value.dest.id, st.expr.value.rhs;
    ExprSafe(w, scope, rhs, src, have);
    var g := EvalExpr(w, rhs, src);
    AssignTo(w, id, rhs, src);
    if g.Got? {
      LookupEntry(scope, g.s.frames, have, id);
      var ty := VarType(scope, VarRef(id, None));
      AssignableConverts(w, g.t, ty);
      var x := Convert(w, g.t, ty).value;
      SetFits(scope, g.s.frames, have, id, ty, x);
    }
  }

  /** An assignment to a local variable. */
  lemma AssignTo(w: World, id: string, rhs: Expr, src: Source)
    ensures var g, a := EvalExpr(w, rhs, src), EvalExpr(w, Assign(VarRef(id, None), rhs), src);
      if !g.Got? then a == g.Lost()
      else var e := Lookup<Entry>(g.s.frames, id);
        e.Some? && e.value.Local? && Convert(w, g.t, e.value.ty).Some? ==>
          var x := Convert(w, g.t, e.value.ty).value;
          a == Got(Typed(x, e.value.ty), g.s.(frames := SetLocal(g.s.frames, id, e.value.ty, x)))
  {
    hide Lookup, Convert, SetLocal;
  }

  lemma {:induction false} LeadingSafe(w: World, ret: Ty, scope: seq<map<string, Symbol>>, sts: seq<Stmt>, src: Source,
                                       have: set<Id>, final: set<Id>, fuel: nat)
    requires Fits(scope, src.frames, have) && Apart(scope) && Leading(scope, sts, have) == final
    requires AllOk(scope, sts, final) && AllTyped(scope, ret, sts)
    requires forall k :: 0 <= k < |sts| ==> FreshSites(sts[k], final)
    ensures Sound(scope, final, ExecAll(w, ret, sts, src, fuel))
    decreases |sts|
  {
    hide Fits, StmtOk, StmtTyped, FreshSites, Exec, Assigns, Apart;
    if sts != [] && Assigns(scope, sts[0], have).Some? {
      AssignsSafe(w, ret, scope, sts[0], src, have, fuel);
      var o := Exec(w, ret, sts[0], src, fuel);
      if o.Normal? {
        assert forall k :: 0 <= k < |sts[1..]| ==> sts[1..][k] == sts[k + 1];
        LeadingSafe(w, ret, scope, sts[1..], o.s, have + {Assigns(scope, sts[0], have).value}, final, fuel);
      }
    } else {
      AllSafe(w, ret, scope, sts, src, have, fuel);
    }
  }

  lemma {:induction false} ParamsFit(w: World, scope: seq<map<string, Symbol>>, frames: seq<map<string, Entry>>,
                                     ds: seq<VarDecl>, i: nat, have: set<Id>)
    requires i <= |ds| && Fits(scope, frames, have) && scope != []
    ensures Fits(ParamScope(scope, ds, i), BindParams(w, frames, ds, i), have)
    decreases |ds| - i
  {
    hide Fits;
    if i < |ds| {
      ParamFits(w, scope, frames, ds[i], i, have);
      ParamsFit(w, Bind(scope, ds[i].id, Var(Slot(ds[i].site), One(ParamTy(ds[i])))),
                Bind(frames, ds[i].id, Local(ParamTy(ds[i]), Some(w.arg(i)))), ds, i + 1, have);
    }
  }

  lemma ParamFits(w: World, scope: seq<map<string, Symbol>>, frames: seq<map<string, Entry>>, d: VarDecl, i: nat,
                  have: set<Id>)
    requires Fits(scope, frames, have) && scope != []
    ensures var scope' := Bind(scope, d.id, Var(Slot(d.site), One(ParamTy(d))));
      Fits(scope', Bind(frames, d.id, Local(ParamTy(d), Some(w.arg(i)))), have) && scope' != []
  {
    hide ParamTy;
    var scope' := Bind(scope, d.id, Var(Slot(d.site), One(ParamTy(d))));
    var frames', top := Bind(frames, d.id, Local(ParamTy(d), Some(w.arg(i)))), |scope| - 1;
    assert d.id in scope[top] <==> d.id in frames[top];
    forall k, x | 0 <= k < |scope'|
      ensures x in scope'[k] <==> x in frames'[k]
      ensures x in scope'[k] ==> EntryFits(scope'[k][x], frames'[k][x], have)
    {
      assert x in scope[k] <==> x in frames[k];
    }
  }

  lemma GlobalsFitToo(w: World, globals: map<string, Symbol>, frame: map<string, Entry>, have: set<Id>)
    requires GlobalsMatch(w, globals, frame)
    ensures Fits([globals, map[]], [frame, map[]], have)
    ensures Apart([globals, map[]]) && SlotsIn([globals, map[]], {})
  {
    GlobalsRel(w, globals, frame, map[]);
    var scope, frames := [globals, map[]], [frame, map[]];
    forall k, x | 0 <= k < |scope|
      ensures x in scope[k] <==> x in frames[k]
      ensures x in scope[k] ==> EntryFits(scope[k][x], frames[k][x], have)
    {
      assert x in [globals][0] <==> x in [frame][0];
    }
  }

  lemma {:induction false} DeclsApart(scope: seq<map<string, Symbol>>, ds: seq<VarDecl>, used: set<Id>)
    requires scope != [] && Apart(scope) && SlotsIn(scope, used) && FreshDecls(ds, used)
    ensures Apart(DeclScope(scope, ds)) && SlotsIn(DeclScope(scope, ds), used + Sites(ds))
    decreases |ds|
  {
    hide Apart, SlotsIn;
    if ds == [] {
      assert used + Sites(ds) == used;
    } else {
      var d := ds[0];
      BindSlots(scope, d.id, d.site, HeldBy(d), used);
      FreshRest(ds, used);
      DeclsApart(Bind(scope, d.id, Var(Slot(d.site), HeldBy(d))), ds[1..], used + {d.site});
      SitesSplit(ds, used);
    }
  }

  lemma {:induction false} ParamsApart(scope: seq<map<string, Symbol>>, ds: seq<VarDecl>, i: nat, used: set<Id>)
    requires i <= |ds| && scope != [] && Apart(scope) && SlotsIn(scope, used) && FreshDecls(ds, {})
    requires used == Sites(ds[..i])
    ensures Apart(ParamScope(scope, ds, i)) && SlotsIn(ParamScope(scope, ds, i), Sites(ds))
    decreases |ds| - i
  {
    hide Apart, SlotsIn;
    if i == |ds| {
      assert ds[..i] == ds;
    } else {
      assert forall k :: 0 <= k < i ==> ds[..i][k] == ds[k];
      assert Sites(ds[..i + 1]) == used + {ds[i].site} by {
        SitesNext(ds, i);
      }
      BindSlots(scope, ds[i].id, ds[i].site, One(ParamTy(ds[i])), used);
      ParamsApart(Bind(scope, ds[i].id, Var(Slot(ds[i].site), One(ParamTy(ds[i])))), ds, i + 1, used + {ds[i].site});
    }
  }

  lemma SitesNext(ds: seq<VarDecl>, i: nat)
    requires i < |ds|
    ensures Sites(ds[..i + 1]) == Sites(ds[..i]) + {ds[i].site}
  {
    var a, b := ds[..i], ds[..i + 1];
    forall x | x in Sites(b)
      ensures x in Sites(a) + {ds[i].site}
    {
      var k :| 0 <= k < |b| && b[k].site == x;
      assert k < i ==> a[k] == b[k];
    }
    forall x | x in Sites(a)
      ensures x in Sites(b)
    {
      var k :| 0 <= k < |a| && a[k].site == x;
      assert b[k] == a[k];
    }
    assert b[i].site in Sites(b);
  }

  lemma FoundSlot(scope: seq<map<string, Symbol>>, id: string, v: Id, held: Held, used: set<Id>)
    requires SlotsIn(scope, used) && Lookup<Symbol>(scope, id) == Some(Var(Slot(v), held))
    ensures v in used
  {
    DepthLookup(scope, id);
    assert HasSlot(scope, Depth(scope, id), id, v);
  }

  lemma {:induction false} LeadingWithin(scope: seq<map<string, Symbol>>, sts: seq<Stmt>, have: set<Id>, used: set<Id>)
    requires SlotsIn(scope, used) && have <= used
    ensures have <= Leading(scope, sts, have) <= used
    decreases |sts|
  {
    hide Lookup, ExprOk, SlotsIn, Straight;
    if sts != [] && Assigns(scope, sts[0], have).Some? {
      var v, id := Assigns(scope, sts[0], have).value, sts[0].expr.value.dest.id;
      FoundSlot(scope, id, v, Lookup<Symbol>(scope, id).value.held, used);
      LeadingWithin(scope, sts[1..], have + {v}, used);
    }
  }

  lemma BodySafe(w: World, ret: Ty, scope: seq<map<string, Symbol>>, body: Stmt, src: Source, used: set<Id>, fuel: nat)
    requires Fits(scope, src.frames, used) && Apart(scope) && SlotsIn(scope, used)
    requires StmtOk(scope, body, StoredIn(scope, body, used)) && StmtTyped(scope, ret, body) && FreshSites(body, used)
    ensures !Exec(w, ret, body, src, fuel).Failed?
  {
    hide Fits, Apart, SlotsIn, DeclScope, DeclareAll, AllOk, AllTyped, Leading;
    match body
    case Compound(ds, sts) =>
      var inner, src1 := DeclScope(scope + [map[]], ds), src.(frames := DeclareAll(w, src.frames + [map[]], ds));
      var final := Leading(inner, sts, used);
      FreshApart(ds, sts, used);
      EnterFits(scope, src.frames, used);
      EnterApart(scope, used);
      DeclareAllFits(w, scope + [map[]], src.frames + [map[]], ds, used);
      DeclsApart(scope + [map[]], ds, used);
      LeadingWithin(inner, sts, used, used + Sites(ds));
      forall k | 0 <= k < |sts|
        ensures FreshSites(sts[k], final)
      {
        FreshLess(sts[k], used + Sites(ds), final);
      }
      LeadingSafe(w, ret, inner, sts, src1, used, final, fuel);
    case _ => StmtSafe(w, ret, scope, body, src, used, fuel);
  }

  lemma EnterApart(scope: seq<map<string, Symbol>>, used: set<Id>)
    requires Apart(scope) && SlotsIn(scope, used)
    ensures Apart(scope + [map[]]) && SlotsIn(scope + [map[]], used)
  {
    var inner := scope + [map[]];
    forall k, x, v | HasSlot(inner, k, x, v)
      ensures HasSlot(scope, k, x, v)
    {
    }
  }

  /** A call of a function that passes the check and is typed never fails, in any world that has the globals. */
  lemma FunctionSafe(w: World, f: FunDecl, globals: map<string, Symbol>, frame: map<string, Entry>, mem: Memory,
                     fuel: nat)
    requires GlobalsMatch(w, globals, frame) && FunOk(f, globals) && FunTyped(f, globals)
    requires FreshDecls(f.params, {}) && FreshSites(f.body, Sites(f.params))
    ensures !Invoke(w, f, frame, mem, fuel).Failed?
  {
    hide Fits, Apart, SlotsIn, ParamScope, BindParams, StmtOk, StmtTyped, Exec, FreshSites, StoredIn, GlobalsMatch;
    var used, scope := Sites(f.params), ParamScope([globals, map[]], f.params, 0);
    GlobalsFitToo(w, globals, frame, used);
    ParamsFit(w, [globals, map[]], [frame, map[]], f.params, 0, used);
    assert f.params[..0] == [] && Sites([]) == {};
    ParamsApart([globals, map[]], f.params, 0, {});
    BodySafe(w, f.ret, scope, f.body, Source(BindParams(w, [frame, map[]], f.params, 0), mem, []), used, fuel);
  }
}
