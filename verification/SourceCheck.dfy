/** A check of the source that promises what the passes require of lowered code: every name is known, only arrays are
    indexed, and every local variable that is used has been assigned at the start of the function. */
module SourceCheck {
  import opened ControlFlow
  import opened IR
  import opened Scopes
  import opened Syntax
  import opened Lowering
  import opened LoweringShape
  import Promotion
  import Mem2RegPass
  import PromotionResult
  import Renaming
  import SlotUse

  // ----- the check -----

  /** A slot that is loaded or stored has been assigned at the start. */
  predicate SlotOk(addr: Operand, stored: set<Id>) {
    addr.Slot? ==> addr.v in stored
  }

  /** The names in an expression are known, calls have as many arguments as there are parameters, and only arrays
      are indexed. */
  predicate ExprOk(scope: seq<map<string, Symbol>>, e: Expr, stored: set<Id>)
    decreases e, 2
  {
    match e
    case Num(_, _) => true
    case Ref(v) => RefOk(scope, v, stored)
    case Paren(inner) => ExprOk(scope, inner, stored)
    case Assign(d, rhs) => ExprOk(scope, rhs, stored) && RefOk(scope, d, stored)
      && !(d.index.None? && WholeArray(scope, d.id))
    case Relation(_, l, r) => ExprOk(scope, l, stored) && ExprOk(scope, r, stored)
    case Arith(_, l, r) => ExprOk(scope, l, stored) && ExprOk(scope, r, stored)
    case CallFun(id, args) =>
      match Lookup<Symbol>(scope, id)
      case Some(Callee(_, _, params)) => |args| == |params| && ArgsOk(scope, args, stored)
      case _ => false
  }

  predicate ArgsOk(scope: seq<map<string, Symbol>>, args: seq<Expr>, stored: set<Id>)
    decreases args, 0
  {
    args != [] ==> ExprOk(scope, args[0], stored) && ArgsOk(scope, args[1..], stored)
  }

  predicate WholeArray(scope: seq<map<string, Symbol>>, id: string) {
    match Lookup<Symbol>(scope, id)
    case Some(Var(_, Many(_))) => true
    case _ => false
  }

  predicate RefOk(scope: seq<map<string, Symbol>>, v: VarRef, stored: set<Id>)
    decreases v, 0
  {
    match Lookup<Symbol>(scope, v.id)
    case Some(Var(addr, held)) =>
      && (held.One? ==> SlotOk(addr, stored))
      && (v.index.Some? ==>
            && ExprOk(scope, v.index.value, stored) && (held.One? ==> IsPtr(held.ty))
            && Lookup<Symbol>(scope, NEGATIVE_INDEX).Some? && Lookup<Symbol>(scope, NEGATIVE_INDEX).value.Callee?)
    case _ => false
  }

  function DeclScope(scope: seq<map<string, Symbol>>, ds: seq<VarDecl>): seq<map<string, Symbol>>
    decreases |ds|
  {
    if ds == [] then scope else DeclScope(Bind(scope, ds[0].id, Var(Slot(ds[0].site), HeldBy(ds[0]))), ds[1..])
  }

  function ParamScope(scope: seq<map<string, Symbol>>, ds: seq<VarDecl>, i: nat): seq<map<string, Symbol>>
    requires i <= |ds|
    decreases |ds| - i
  {
    if i == |ds| then scope else ParamScope(Bind(scope, ds[i].id, Var(Slot(ds[i].site), One(ParamTy(ds[i])))), ds,
                                            i + 1)
  }

  predicate StmtOk(scope: seq<map<string, Symbol>>, st: Stmt, stored: set<Id>)
    decreases st, 1
  {
    match st
    case Compound(ds, sts) => AllOk(DeclScope(scope + [map[]], ds), sts, stored)
    case ExprStmt(e) => e.Some? ==> ExprOk(scope, e.value, stored)
    case If(c, t, f) => ExprOk(scope, c, stored) && StmtOk(scope, t, stored)
      && (f.Some? ==> StmtOk(scope, f.value, stored))
    case While(c, body) => ExprOk(scope, c, stored) && StmtOk(scope, body, stored)
    case Return(e) => e.Some? ==> ExprOk(scope, e.value, stored)
  }

  predicate AllOk(scope: seq<map<string, Symbol>>, sts: seq<Stmt>, stored: set<Id>)
    decreases sts, 0
  {
    sts != [] ==> StmtOk(scope, sts[0], stored) && AllOk(scope, sts[1..], stored)
  }

  /** Nothing is indexed, so lowering stays in its block. */
  predicate Straight(e: Expr)
    decreases e, 1
  {
    match e
    case Num(_, _) => true
    case Ref(v) => v.index.None?
    case Paren(inner) => Straight(inner)
    case Assign(d, rhs) => d.index.None? && Straight(rhs)
    case Relation(_, l, r) => Straight(l) && Straight(r)
    case Arith(_, l, r) => Straight(l) && Straight(r)
    case CallFun(_, args) => AllStraight(args)
  }

  predicate AllStraight(args: seq<Expr>)
    decreases args, 0
  {
    args != [] ==> Straight(args[0]) && AllStraight(args[1..])
  }

  /** The slot that a statement assigns in a straight piece of code, using only what has been assigned before. */
  function Assigns(scope: seq<map<string, Symbol>>, st: Stmt, stored: set<Id>): Option<Id> {
    match st
    case ExprStmt(Some(Assign(VarRef(id, None), rhs))) =>
      if !Straight(rhs) || !ExprOk(scope, rhs, stored) then None
      else
        (match Lookup<Symbol>(scope, id)
         case Some(Var(Slot(v), One(_))) => Some(v)
         case _ => None)
    case _ => None
  }

  /** The slots that have been assigned after the leading statements. */
  function Leading(scope: seq<map<string, Symbol>>, sts: seq<Stmt>, stored: set<Id>): set<Id>
    decreases |sts|
  {
    if sts == [] then stored
    else
      match Assigns(scope, sts[0], stored)
      case Some(v) => Leading(scope, sts[1..], stored + {v})
      case None => stored
  }

  /** The slots assigned at the start of a body. */
  function StoredIn(scope: seq<map<string, Symbol>>, body: Stmt, stored: set<Id>): set<Id> {
    match body
    case Compound(ds, sts) => Leading(DeclScope(scope + [map[]], ds), sts, stored)
    case _ => stored
  }

  function Stored(f: FunDecl, globals: map<string, Symbol>): set<Id> {
    StoredIn(ParamScope([globals, map[]], f.params, 0), f.body, Sites(f.params))
  }

  /** What is checked of a function. */
  predicate FunOk(f: FunDecl, globals: map<string, Symbol>) {
    StmtOk(ParamScope([globals, map[]], f.params, 0), f.body, Stored(f, globals))
  }

  // ----- kinds of slots -----

  /** The arrays are exactly the declarations in `arrays`. */
  predicate Kinds(st: Stmt, arrays: set<Id>)
    decreases st, 1
  {
    match st
    case Compound(ds, sts) => DeclKinds(ds, arrays) && AllKinds(sts, arrays)
    case If(_, t, f) => Kinds(t, arrays) && (f.Some? ==> Kinds(f.value, arrays))
    case While(_, body) => Kinds(body, arrays)
    case _ => true
  }

  predicate AllKinds(sts: seq<Stmt>, arrays: set<Id>)
    decreases sts, 0
  {
    sts != [] ==> Kinds(sts[0], arrays) && AllKinds(sts[1..], arrays)
  }

  predicate DeclKinds(ds: seq<VarDecl>, arrays: set<Id>) {
    forall k {:trigger ds[k]} :: 0 <= k < |ds| ==> (ds[k].isArray <==> ds[k].site in arrays)
  }

  function ArrayDecls(ds: seq<VarDecl>): set<Id> {
    set k | 0 <= k < |ds| && ds[k].isArray :: ds[k].site
  }

  function ArraySites(st: Stmt): set<Id>
    decreases st, 1
  {
    match st
    case Compound(ds, sts) => ArrayDecls(ds) + AllArraySites(sts)
    case If(_, t, f) => ArraySites(t) + if f.Some? then ArraySites(f.value) else {}
    case While(_, body) => ArraySites(body)
    case _ => {}
  }

  function AllArraySites(sts: seq<Stmt>): set<Id>
    decreases sts, 0
  {
    if sts == [] then {} else ArraySites(sts[0]) + AllArraySites(sts[1..])
  }

  lemma {:induction false} SitesApart(st: Stmt, used: set<Id>)
    requires AllFresh(st, used)
    ensures ArraySites(st) <= SitesOf(st) && used !! SitesOf(st)
    decreases st, 1
  {
    match st
    case Compound(ds, sts) => AllSitesApart(sts, used + Sites(ds));
    case If(_, t, f) =>
      SitesApart(t, used);
      if f.Some? {
        SitesApart(f.value, used + SitesOf(t));
      }
    case While(_, body) => SitesApart(body, used);
    case _ =>
  }

  lemma {:induction false} AllSitesApart(sts: seq<Stmt>, used: set<Id>)
    requires EachFresh(sts, used)
    ensures AllArraySites(sts) <= SitesOfAll(sts) && used !! SitesOfAll(sts)
    decreases sts, 0
  {
    if sts != [] {
      SitesApart(sts[0], used);
      AllSitesApart(sts[1..], used + SitesOf(sts[0]));
    }
  }

  lemma {:induction false} KindsKnown(st: Stmt, used: set<Id>, arrays: set<Id>)
    requires AllFresh(st, used) && arrays * SitesOf(st) == ArraySites(st)
    ensures Kinds(st, arrays)
    decreases st, 1
  {
    SitesApart(st, used);
    match st
    case Compound(ds, sts) =>
      AllSitesApart(sts, used + Sites(ds));
      DeclKindsKnown(ds, used, arrays, sts);
      AllKindsKnown(sts, used + Sites(ds), arrays);
    case If(_, t, f) =>
      SitesApart(t, used);
      if f.Some? {
        SitesApart(f.value, used + SitesOf(t));
        KindsKnown(f.value, used + SitesOf(t), arrays);
      }
      KindsKnown(t, used, arrays);
    case While(_, body) => KindsKnown(body, used, arrays);
    case _ =>
  }

  lemma DeclKindsKnown(ds: seq<VarDecl>, used: set<Id>, arrays: set<Id>, sts: seq<Stmt>)
    requires FreshDecls(ds, used) && arrays * (Sites(ds) + SitesOfAll(sts)) == ArrayDecls(ds) + AllArraySites(sts)
    requires Sites(ds) !! SitesOfAll(sts) && AllArraySites(sts) <= SitesOfAll(sts)
    ensures DeclKinds(ds, arrays) && arrays * SitesOfAll(sts) == AllArraySites(sts)
  {
    forall k | 0 <= k < |ds|
      ensures ds[k].isArray <==> ds[k].site in arrays
    {
      assert ds[k].site in Sites(ds);
    }
  }

  lemma {:induction false} AllKindsKnown(sts: seq<Stmt>, used: set<Id>, arrays: set<Id>)
    requires EachFresh(sts, used) && arrays * SitesOfAll(sts) == AllArraySites(sts)
    ensures AllKinds(sts, arrays)
    decreases sts, 0
  {
    if sts != [] {
      SitesApart(sts[0], used);
      AllSitesApart(sts[1..], used + SitesOf(sts[0]));
      KindsKnown(sts[0], used, arrays);
      AllKindsKnown(sts[1..], used + SitesOf(sts[0]), arrays);
    }
  }

  // ----- what holds of the code -----

  /** Slots that are loaded or stored are in `stored`, those that are used as values in `arrays`, and scalars not. */
  ghost predicate FitInstr(i: Instr, stored: set<Id>, arrays: set<Id>) {
    && (i.IsSlotAccess() ==> i.ptr.v in stored)
    && (forall o {:trigger o in SlotUse.ValueOperands(i)} :: o in SlotUse.ValueOperands(i) && o.Slot? ==> o.v in arrays)
    && (i.Alloca? && i.scalar ==> i.id !in arrays)
  }

  /** Every slot is stored to, and none is loaded before that. */
  ghost predicate Settled(c: seq<Instr>, stored: set<Id>) {
    && (forall v {:trigger v in stored} :: v in stored ==> StoredBefore(c, v, |c|))
    && (forall k {:trigger c[k]} :: 0 <= k < |c| && Promotion.IsSlotLoad(c[k]) ==> StoredBefore(c, c[k].ptr.v, k))
  }

  ghost predicate StoredBefore(c: seq<Instr>, v: Id, n: int)
    requires n <= |c|
  {
    exists j :: 0 <= j < n && Promotion.StoresSlot(c[j], v)
  }

  ghost predicate ScopeFits(scope: seq<map<string, Symbol>>, arrays: set<Id>) {
    forall k, x {:trigger scope[k][x]} ::
      0 <= k < |scope| && x in scope[k] && scope[k][x].Var? ==> VarFits(scope[k][x], arrays)
  }

  predicate VarFits(s: Symbol, arrays: set<Id>)
    requires s.Var?
  {
    && (s.addr.Slot? || s.addr.Global?)
    && (s.addr.Slot? && s.held.Many? ==> s.addr.v in arrays)
  }

  ghost predicate Fit(b: Builder, stored: set<Id>, arrays: set<Id>) {
    && !b.aborted && ENTRY < b.nextBlock && Settled(b.Code(ENTRY), stored)
    && forall x, k {:trigger b.Code(x)[k]} :: 0 <= k < |b.Code(x)| ==> FitInstr(b.Code(x)[k], stored, arrays)
  }

  lemma SettledAppend(c: seq<Instr>, i: Instr, stored: set<Id>)
    requires Settled(c, stored) && (Promotion.IsSlotLoad(i) ==> i.ptr.v in stored)
    ensures Settled(c + [i], stored)
  {
    var c' := c + [i];
    forall v, n: nat | n <= |c| && StoredBefore(c, v, n)
      ensures StoredBefore(c', v, n)
    {
      var j :| 0 <= j < n && Promotion.StoresSlot(c[j], v);
      assert Promotion.StoresSlot(c'[j], v);
    }
    forall v | v in stored
      ensures StoredBefore(c', v, |c'|)
    {
      assert StoredBefore(c', v, |c|);
    }
  }

  lemma FitAppend(b: Builder, i: Instr, stored: set<Id>, arrays: set<Id>)
    requires Fit(b, stored, arrays) && FitInstr(i, stored, arrays)
    ensures Fit(Append(b, i), stored, arrays) && Append(b, i).scope == b.scope
  {
    hide Settled;
    var b' := Append(b, i);
    SettledAppend(b.Code(ENTRY), i, stored);
    forall x, k | 0 <= k < |b'.Code(x)|
      ensures FitInstr(b'.Code(x)[k], stored, arrays)
    {
      assert x != b.cur || k < |b.Code(x)| ==> b'.Code(x)[k] == b.Code(x)[k];
    }
  }

  /** The code of the entry is the same, and that of the other blocks is the same or gone. */
  lemma FitSame(b: Builder, b': Builder, stored: set<Id>, arrays: set<Id>)
    requires Fit(b, stored, arrays) && !b'.aborted && b'.Code(ENTRY) == b.Code(ENTRY) && b.nextBlock <= b'.nextBlock
    requires forall x {:trigger b'.Code(x)} :: b'.Code(x) == b.Code(x) || b'.Code(x) == []
    ensures Fit(b', stored, arrays)
  {
    hide Settled, FitInstr;
  }

  lemma {:induction false} LookupFits(scope: seq<map<string, Symbol>>, id: string, arrays: set<Id>)
    requires ScopeFits(scope, arrays)
    ensures Lookup(scope, id).Some? && Lookup(scope, id).value.Var? ==> VarFits(Lookup(scope, id).value, arrays)
  {
    if scope != [] {
      var rest := scope[..|scope| - 1];
      assert forall k, x :: 0 <= k < |rest| && x in rest[k] ==> rest[k][x] == scope[k][x];
      LookupFits(rest, id, arrays);
    }
  }

  // ----- expressions -----

  lemma FitOp(b: Builder, op: string, args: seq<Operand>, stored: set<Id>, arrays: set<Id>)
    requires Fit(b, stored, arrays) && forall o {:trigger o in args} :: o in args ==> !o.Slot?
    ensures Fit(Append(b, Op(b.nextId, op, args)), stored, arrays) && Append(b, Op(b.nextId, op, args)).scope == b.scope
  {
    FitAppend(b, Op(b.nextId, op, args), stored, arrays);
  }

  lemma FitGep(b: Builder, args: seq<Operand>, stored: set<Id>, arrays: set<Id>)
    requires Fit(b, stored, arrays) && forall o {:trigger o in args} :: o in args && o.Slot? ==> o.v in arrays
    ensures Fit(Append(b, Gep(b.nextId, args)), stored, arrays) && Append(b, Gep(b.nextId, args)).scope == b.scope
  {
    FitAppend(b, Gep(b.nextId, args), stored, arrays);
  }

  lemma FitLoad(b: Builder, p: Operand, stored: set<Id>, arrays: set<Id>)
    requires Fit(b, stored, arrays) && (p.Slot? ==> p.v in stored)
    ensures Fit(Append(b, Load(b.nextId, p)), stored, arrays) && Append(b, Load(b.nextId, p)).scope == b.scope
  {
    FitAppend(b, Load(b.nextId, p), stored, arrays);
  }

  lemma FitStore(b: Builder, o: Operand, p: Operand, stored: set<Id>, arrays: set<Id>)
    requires Fit(b, stored, arrays) && !o.Slot? && (p.Slot? ==> p.v in stored)
    ensures Fit(Append(b, Store(b.nextId, o, p)), stored, arrays) && Append(b, Store(b.nextId, o, p)).scope == b.scope
  {
    FitAppend(b, Store(b.nextId, o, p), stored, arrays);
  }

  /** The address of a variable, in terms of its kind. */
  ghost predicate PlaceFits(p: Addr, stored: set<Id>, arrays: set<Id>) {
    (p.o.Slot? ==> if p.held.One? then p.o.v in stored else p.o.v in arrays)
  }

  lemma {:induction false} ExprFit(b: Builder, e: Expr, stored: set<Id>, arrays: set<Id>)
    requires Fit(b, stored, arrays) && ScopeFits(b.scope, arrays) && ExprOk(b.scope, e, stored)
    ensures Fit(LowerExpr(b, e).b, stored, arrays) && !LowerExpr(b, e).o.Slot?
    decreases e, 3
  {
    hide Fit, Append, ScopeFits, LowerPlace;
    match e
    case Num(_, _) =>
    case Ref(v) => RefFit(b, v, stored, arrays);
    case Paren(inner) => ExprFit(b, inner, stored, arrays);
    case Assign(d, rhs) => AssignFit(b, d, rhs, stored, arrays);
    case Relation(op, _, _) =>
      PairFit(b, e, stored, arrays);
      var p := LowerPair(b, e);
      FitOp(p.b, RelName(op, p.isInt), [p.x, p.y], stored, arrays);
      var c := EmitOp(p.b, RelName(op, p.isInt), [p.x, p.y], Int);
      FitOp(c.b, ZEXT, [c.o], stored, arrays);
    case Arith(op, _, _) =>
      PairFit(b, e, stored, arrays);
      var p := LowerPair(b, e);
      FitOp(p.b, ArithName(op, p.isInt), [p.x, p.y], stored, arrays);
    case CallFun(id, args) => CallFit(b, id, args, stored, arrays);
  }

  lemma {:induction false} CallFit(b: Builder, id: string, args: seq<Expr>, stored: set<Id>, arrays: set<Id>)
    requires Fit(b, stored, arrays) && ScopeFits(b.scope, arrays) && ExprOk(b.scope, CallFun(id, args), stored)
    ensures var r := LowerExpr(b, CallFun(id, args)); Fit(r.b, stored, arrays) && !r.o.Slot?
    decreases args, 1
  {
    hide Fit, Append, ScopeFits;
    var Callee(name, ret, params) := Lookup<Symbol>(b.scope, id).value;
    ArgsFit(b, args, params, stored, arrays);
    var a := LowerArgs(b, args, params);
    FitAppend(a.b, Call(a.b.nextId, name, a.os), stored, arrays);
  }

  lemma {:induction false} ArgsFit(b: Builder, args: seq<Expr>, params: seq<Ty>, stored: set<Id>, arrays: set<Id>)
    requires Fit(b, stored, arrays) && ScopeFits(b.scope, arrays) && ArgsOk(b.scope, args, stored) && |args| == |params|
    ensures var r := LowerArgs(b, args, params);
      Fit(r.b, stored, arrays) && forall o {:trigger o in r.os} :: o in r.os ==> !o.Slot?
    decreases args, 0
  {
    hide Fit, Append, ScopeFits, LowerExpr;
    if args != [] {
      ExprFit(b, args[0], stored, arrays);
      var x := LowerExpr(b, args[0]);
      CoerceFit(x.b, x.o, x.ty, stored, arrays);
      var y := Argument(x.b, x.o, x.ty, params[0]);
      ArgsFit(y.b, args[1..], params[1..], stored, arrays);
    }
  }

  lemma CoerceFit(b: Builder, o: Operand, ty: Ty, stored: set<Id>, arrays: set<Id>)
    requires Fit(b, stored, arrays) && !o.Slot?
    ensures var r := Coerce(b, o, ty); Fit(r.b, stored, arrays) && !r.o.Slot? && r.b.scope == b.scope
  {
    hide Fit, Append;
    FitOp(b, SITOFP, [o], stored, arrays);
    FitOp(b, FPTOSI, [o], stored, arrays);
  }

  lemma {:induction false} AssignFit(b: Builder, d: VarRef, rhs: Expr, stored: set<Id>, arrays: set<Id>)
    requires Fit(b, stored, arrays) && ScopeFits(b.scope, arrays) && ExprOk(b.scope, Assign(d, rhs), stored)
    ensures var r := LowerExpr(b, Assign(d, rhs)); Fit(r.b, stored, arrays) && !r.o.Slot?
    decreases Assign(d, rhs), 2
  {
    hide Fit, Append, ScopeFits, LowerPlace, RefOk, PlaceFits;
    ExprFit(b, rhs, stored, arrays);
    var x := LowerExpr(b, rhs);
    PlaceFit(x.b, d, stored, arrays);
    var p := LowerPlace(x.b, d);
    CoerceFit(p.b, x.o, x.ty, stored, arrays);
    var y := if p.held == One(x.ty) then Tmp(p.b, x.o, x.ty) else Coerce(p.b, x.o, x.ty);
    FitStore(y.b, y.o, p.o, stored, arrays);
  }

  lemma {:induction false} RefFit(b: Builder, v: VarRef, stored: set<Id>, arrays: set<Id>)
    requires Fit(b, stored, arrays) && ScopeFits(b.scope, arrays) && RefOk(b.scope, v, stored)
    ensures Fit(LowerRef(b, v).b, stored, arrays) && !LowerRef(b, v).o.Slot?
    decreases v, 2
  {
    hide Fit, Append, ScopeFits, LowerPlace, RefOk;
    PlaceFit(b, v, stored, arrays);
    var p := LowerPlace(b, v);
    if p.held.One? {
      FitLoad(p.b, p.o, stored, arrays);
    } else {
      FitGep(p.b, [p.o, Const(0), Const(0)], stored, arrays);
    }
  }

  lemma {:induction false} PlaceFit(b: Builder, v: VarRef, stored: set<Id>, arrays: set<Id>)
    requires Fit(b, stored, arrays) && ScopeFits(b.scope, arrays) && RefOk(b.scope, v, stored)
    ensures Fit(LowerPlace(b, v).b, stored, arrays) && PlaceFits(LowerPlace(b, v), stored, arrays)
    ensures !(v.index.None? && WholeArray(b.scope, v.id)) ==> SlotOk(LowerPlace(b, v).o, stored)
    decreases v, 1
  {
    hide Fit, Append, ScopeFits, LowerCheck, LowerExpr;
    LookupFits(b.scope, v.id, arrays);
    var Var(addr, held) := Lookup<Symbol>(b.scope, v.id).value;
    if v.index.Some? {
      ExprFit(b, v.index.value, stored, arrays);
      var x := LowerExpr(b, v.index.value);
      CheckFit(x.b, x.o, x.ty, stored, arrays);
      var k := LowerCheck(x.b, x.o, x.ty);
      ElementFit(k.b, addr, held, k.o, stored, arrays);
    }
  }

  lemma ElementFit(b: Builder, addr: Operand, held: Held, k: Operand, stored: set<Id>, arrays: set<Id>)
    requires Fit(b, stored, arrays) && !k.Slot? && (held.One? ==> IsPtr(held.ty))
    requires addr.Slot? ==> if held.One? then addr.v in stored else addr.v in arrays
    ensures var r := LowerElement(b, addr, held, k); Fit(r.b, stored, arrays) && !r.o.Slot?
  {
    hide Fit, Append;
    if held.One? {
      FitLoad(b, addr, stored, arrays);
      var l := EmitLoad(b, addr, held.ty);
      FitGep(l.b, [l.o, k], stored, arrays);
    } else {
      FitGep(b, [addr, Const(0), k], stored, arrays);
    }
  }

  lemma CheckFit(b: Builder, o: Operand, ty: Ty, stored: set<Id>, arrays: set<Id>)
    requires Fit(b, stored, arrays) && !o.Slot?
    requires Lookup<Symbol>(b.scope, NEGATIVE_INDEX).Some? && Lookup<Symbol>(b.scope, NEGATIVE_INDEX).value.Callee?
    ensures var r := LowerCheck(b, o, ty); Fit(r.b, stored, arrays) && !r.o.Slot?
  {
    hide Fit, Append, Forked, NewBlock;
    var b1 := NewBlock(NewBlock(b));
    NewFit(b, stored, arrays);
    NewFit(NewBlock(b), stored, arrays);
    FitOp(b1, FPTOSI, [o], stored, arrays);
    var k := Index(b, o, ty);
    ForkFit(k.b, "icmp_lt", k.o, b.nextBlock, b.nextBlock + 1, stored, arrays);
    var b2 := Forked(k.b, "icmp_lt", k.o, b.nextBlock, b.nextBlock + 1);
    var Callee(name, ret, _) := Lookup<Symbol>(b2.scope, NEGATIVE_INDEX).value;
    FitAppend(b2, Call(b2.nextId, name, []), stored, arrays);
    var b3 := EmitCall(b2, name, [], ret).b;
    FitRet(b3, DefaultOperands(b2.ret), stored, arrays);
    FitMoved(LowerNegative(b2), b.nextBlock + 1, stored, arrays);
  }

  lemma FitRet(b: Builder, args: seq<Operand>, stored: set<Id>, arrays: set<Id>)
    requires Fit(b, stored, arrays) && forall o {:trigger o in args} :: o in args ==> !o.Slot?
    ensures Fit(EmitRet(b, args), stored, arrays)
  {
    FitAppend(b, Instr.Ret(b.nextId, args), stored, arrays);
  }

  lemma FitMoved(b: Builder, x: Block, stored: set<Id>, arrays: set<Id>)
    requires Fit(b, stored, arrays)
    ensures Fit(SetInsert(b, x), stored, arrays)
  {
    FitSame(b, SetInsert(b, x), stored, arrays);
  }

  lemma NewFit(b: Builder, stored: set<Id>, arrays: set<Id>)
    requires Fit(b, stored, arrays)
    ensures Fit(NewBlock(b), stored, arrays) && NewBlock(b).scope == b.scope && NewBlock(b).nextBlock == b.nextBlock + 1
  {
    FitSame(b, NewBlock(b), stored, arrays);
  }

  lemma ForkFit(b: Builder, op: string, o: Operand, t: Block, f: Block, stored: set<Id>, arrays: set<Id>)
    requires Fit(b, stored, arrays) && !o.Slot?
    ensures var b' := Forked(b, op, o, t, f); Fit(b', stored, arrays) && b'.scope == b.scope
  {
    hide Fit;
    FitOp(b, op, [o, Const(0)], stored, arrays);
    var n := EmitOp(b, op, [o, Const(0)], Int);
    FitAppend(n.b, CondBr(n.b.nextId, n.o, t, f), stored, arrays);
    SameCodeFit(Append(n.b, CondBr(n.b.nextId, n.o, t, f)), Forked(b, op, o, t, f), stored, arrays);
  }

  lemma SameCodeFit(b: Builder, b': Builder, stored: set<Id>, arrays: set<Id>)
    requires Fit(b, stored, arrays) && b'.code == b.code && !b'.aborted && b.nextBlock <= b'.nextBlock
    ensures Fit(b', stored, arrays)
  {
    FitSame(b, b', stored, arrays);
  }

  lemma {:induction false} PairFit(b: Builder, e: Expr, stored: set<Id>, arrays: set<Id>)
    requires Fit(b, stored, arrays) && ScopeFits(b.scope, arrays) && (e.Relation? || e.Arith?)
    requires ExprOk(b.scope, e, stored)
    ensures var p := LowerPair(b, e); Fit(p.b, stored, arrays) && !p.x.Slot? && !p.y.Slot?
    decreases e, 2
  {
    hide Fit, Append, ScopeFits;
    ExprFit(b, e.l, stored, arrays);
    var l := LowerExpr(b, e.l);
    ExprFit(l.b, e.r, stored, arrays);
    var r := LowerExpr(l.b, e.r);
    FitOp(r.b, SITOFP, [l.o], stored, arrays);
    FitOp(r.b, SITOFP, [r.o], stored, arrays);
  }

  // ----- statements -----

  lemma BindFits(scope: seq<map<string, Symbol>>, id: string, sym: Symbol, arrays: set<Id>)
    requires ScopeFits(scope, arrays) && sym.Var? && VarFits(sym, arrays)
    ensures ScopeFits(Bind(scope, id, sym), arrays)
  {
  }

  lemma EnterFits(scope: seq<map<string, Symbol>>, arrays: set<Id>)
    requires ScopeFits(scope, arrays)
    ensures ScopeFits(scope + [map[]], arrays)
  {
  }

  lemma DeclFit(b: Builder, d: VarDecl, stored: set<Id>, arrays: set<Id>)
    requires Fit(b, stored, arrays) && ScopeFits(b.scope, arrays) && (d.isArray <==> d.site in arrays)
    ensures var b' := LowerDecl(b, d); Fit(b', stored, arrays) && ScopeFits(b'.scope, arrays) && b'.cur == b.cur
    ensures LowerDecl(b, d).scope == Bind(b.scope, d.id, Var(Slot(d.site), HeldBy(d)))
  {
    hide Fit, Append, ScopeFits;
    var i := Alloca(d.site, !d.isArray);
    FitAppend(b, i, stored, arrays);
    BindFits(b.scope, d.id, Var(Slot(d.site), HeldBy(d)), arrays);
    AppendFields(b, i);
    RescopeFit(Append(b, i), LowerDecl(b, d).scope, stored, arrays);
  }

  lemma AppendFields(b: Builder, i: Instr)
    ensures var b' := Append(b, i);
      b'.scope == b.scope && b'.aborted == b.aborted && b'.nextBlock == b.nextBlock && b'.cur == b.cur
  {
  }

  lemma {:induction false} DeclsFit(b: Builder, ds: seq<VarDecl>, stored: set<Id>, arrays: set<Id>)
    requires Fit(b, stored, arrays) && ScopeFits(b.scope, arrays) && DeclKinds(ds, arrays)
    ensures var b' := LowerDecls(b, ds); Fit(b', stored, arrays) && ScopeFits(b'.scope, arrays) && b'.cur == b.cur
    ensures LowerDecls(b, ds).scope == DeclScope(b.scope, ds)
    decreases |ds|
  {
    hide Fit, ScopeFits, LowerDecl;
    if ds != [] {
      DeclFit(b, ds[0], stored, arrays);
      DeclsFit(LowerDecl(b, ds[0]), ds[1..], stored, arrays);
    }
  }

  lemma {:induction false} StmtFit(b: Builder, st: Stmt, stored: set<Id>, arrays: set<Id>)
    requires Fit(b, stored, arrays) && ScopeFits(b.scope, arrays) && StmtOk(b.scope, st, stored) && Kinds(st, arrays)
    ensures Fit(LowerStmt(b, st), stored, arrays)
    decreases st, 3
  {
    hide Fit, ScopeFits, LowerExpr, LowerIf, LowerWhile, Append;
    match st
    case Compound(ds, sts) =>
      var b0 := b.(scope := b.scope + [map[]]);
      EnterFits(b.scope, arrays);
      RescopeFit(b, b0.scope, stored, arrays);
      DeclsFit(b0, ds, stored, arrays);
      var b1 := LowerDecls(b0, ds);
      AllFit(b1, sts, stored, arrays);
      RescopeFit(LowerAll(b1, sts), Leave(LowerAll(b1, sts).scope), stored, arrays);
    case ExprStmt(None) =>
    case ExprStmt(Some(e)) => ExprFit(b, e, stored, arrays);
    case If(c, t, f) => IfFit(b, c, t, f, stored, arrays);
    case While(c, body) => WhileFit(b, c, body, stored, arrays);
    case Return(None) => FitRet(b, [], stored, arrays);
    case Return(Some(e)) =>
      ExprFit(b, e, stored, arrays);
      var x := LowerExpr(b, e);
      FitOp(x.b, FPTOSI, [x.o], stored, arrays);
      FitOp(x.b, SITOFP, [x.o], stored, arrays);
      var y := LowerReturned(x.b, x.o, x.ty);
      FitRet(y.b, [y.o], stored, arrays);
  }

  lemma RescopeFit(b: Builder, scope: seq<map<string, Symbol>>, stored: set<Id>, arrays: set<Id>)
    requires Fit(b, stored, arrays)
    ensures Fit(b.(scope := scope), stored, arrays)
  {
    FitAborted(b, stored, arrays);
    SameCodeFit(b, b.(scope := scope), stored, arrays);
  }

  lemma FitAborted(b: Builder, stored: set<Id>, arrays: set<Id>)
    requires Fit(b, stored, arrays)
    ensures !b.aborted && ENTRY < b.nextBlock
  {
  }

  lemma {:induction false} AllFit(b: Builder, sts: seq<Stmt>, stored: set<Id>, arrays: set<Id>)
    requires Fit(b, stored, arrays) && ScopeFits(b.scope, arrays) && AllOk(b.scope, sts, stored)
    requires AllKinds(sts, arrays)
    ensures Fit(LowerAll(b, sts), stored, arrays)
    decreases sts, 0
  {
    hide Fit, ScopeFits, LowerStmt, StmtOk, Kinds;
    if sts != [] {
      StmtFit(b, sts[0], stored, arrays);
      var b1 := LowerStmt(b, sts[0]);
      if !b1.Terminated() {
        AllFit(b1, sts[1..], stored, arrays);
      }
    }
  }

  lemma BranchFit(b: Builder, t: Block, stored: set<Id>, arrays: set<Id>)
    requires Fit(b, stored, arrays)
    ensures Fit(BranchTo(b, t), stored, arrays)
  {
    hide Fit;
    var i := Br(b.nextId, t);
    FitAborted(b, stored, arrays);
    FitAppend(b, i, stored, arrays);
    SameCodeFit(Append(b, i), EmitBr(b, t), stored, arrays);
  }

  lemma {:induction false} WhileFit(b: Builder, c: Expr, body: Stmt, stored: set<Id>, arrays: set<Id>)
    requires Fit(b, stored, arrays) && ScopeFits(b.scope, arrays) && StmtOk(b.scope, While(c, body), stored)
    requires Kinds(body, arrays)
    ensures Fit(LowerWhile(b, c, body), stored, arrays)
    decreases While(c, body), 2
  {
    hide Fit, ScopeFits, LowerExpr, LowerStmt, BranchTo, NewBlock, Forked, ExprOk;
    NewFit(b, stored, arrays);
    BranchFit(NewBlock(b), b.nextBlock, stored, arrays);
    FitMoved(BranchTo(NewBlock(b), b.nextBlock), b.nextBlock, stored, arrays);
    var b1 := WhileStart(b);
    ExprFit(b1, c, stored, arrays);
    var x := LowerExpr(b1, c);
    NewFit(x.b, stored, arrays);
    NewFit(NewBlock(x.b), stored, arrays);
    ForkFit(NewBlock(NewBlock(x.b)), TestName(x.ty), x.o, x.b.nextBlock, x.b.nextBlock + 1, stored, arrays);
    var b2 := WhileBody(b, c);
    StmtFit(b2, body, stored, arrays);
    BranchFit(LowerStmt(b2, body), b.nextBlock, stored, arrays);
    FitMoved(BranchTo(LowerStmt(b2, body), b.nextBlock), x.b.nextBlock + 1, stored, arrays);
  }

  lemma RemoveFit(b: Builder, x: Block, stored: set<Id>, arrays: set<Id>)
    requires Fit(b, stored, arrays) && x != ENTRY
    ensures Fit(RemoveBlock(b, x), stored, arrays)
  {
    forall y
      ensures RemoveBlock(b, x).Code(y) == b.Code(y) || RemoveBlock(b, x).Code(y) == []
    {
      RemoveCode(b, x, y);
    }
    RemoveCode(b, x, ENTRY);
    FitSame(b, RemoveBlock(b, x), stored, arrays);
  }

  lemma {:induction false} IfFit(b: Builder, c: Expr, t: Stmt, f: Option<Stmt>, stored: set<Id>, arrays: set<Id>)
    requires Fit(b, stored, arrays) && ScopeFits(b.scope, arrays) && StmtOk(b.scope, If(c, t, f), stored)
    requires Kinds(If(c, t, f), arrays)
    ensures Fit(LowerIf(b, c, t, f), stored, arrays)
    decreases If(c, t, f), 2
  {
    hide Fit, ScopeFits, LowerExpr, LowerStmt, BranchTo, NewBlock, Forked, RemoveBlock, ExprOk;
    ExprFit(b, c, stored, arrays);
    var x := LowerExpr(b, c);
    var n := x.b.nextBlock;
    FitAborted(x.b, stored, arrays);
    NewFit(x.b, stored, arrays);
    NewFit(NewBlock(x.b), stored, arrays);
    NewFit(NewBlock(NewBlock(x.b)), stored, arrays);
    ForkFit(NewBlock(NewBlock(NewBlock(x.b))), TestName(x.ty), x.o, n, if f.Some? then n + 1
            else n + 2, stored, arrays);
    var b1 := IfStart(b, c, f.Some?);
    StmtFit(b1, t, stored, arrays);
    BranchFit(LowerStmt(b1, t), n + 2, stored, arrays);
    var b2 := BranchTo(LowerStmt(b1, t), n + 2);
    if f.None? {
      RemoveFit(b2, n + 1, stored, arrays);
      FitMoved(RemoveBlock(b2, n + 1), n + 2, stored, arrays);
    } else {
      FitMoved(b2, n + 1, stored, arrays);
      ScopeKept(b1, t, n + 2);
      var b3 := SetInsert(b2, n + 1);
      StmtFit(b3, f.value, stored, arrays);
      BranchFit(LowerStmt(b3, f.value), n + 2, stored, arrays);
      FitMoved(BranchTo(LowerStmt(b3, f.value), n + 2), n + 2, stored, arrays);
    }
  }

  lemma ScopeKept(b: Builder, t: Stmt, x: Block)
    ensures BranchTo(LowerStmt(b, t), x).scope == b.scope
  {
    hide LowerStmt;
  }

  // ----- the leading assignments -----

  lemma {:induction false} StraightStays(b: Builder, e: Expr)
    requires Straight(e)
    ensures LowerExpr(b, e).b.cur == b.cur
    decreases e, 2
  {
    match e
    case Num(_, _) =>
    case Ref(v) => PlainPlace(b, v);
    case Paren(inner) => StraightStays(b, inner);
    case Assign(d, rhs) =>
      StraightStays(b, rhs);
      PlainPlace(LowerExpr(b, rhs).b, d);
    case Relation(_, _, _) => PairStays(b, e);
    case Arith(_, _, _) => PairStays(b, e);
    case CallFun(id, args) =>
      match Lookup<Symbol>(b.scope, id) {
        case Some(Callee(name, ret, params)) => ArgsStay(b, args, params);
        case _ =>
      }
  }

  lemma PlainPlace(b: Builder, v: VarRef)
    requires v.index.None?
    ensures LowerPlace(b, v).b.cur == b.cur
  {
  }

  lemma {:induction false} PairStays(b: Builder, e: Expr)
    requires (e.Relation? || e.Arith?) && Straight(e.l) && Straight(e.r)
    ensures LowerPair(b, e).b.cur == b.cur
    decreases e, 1
  {
    hide LowerExpr;
    StraightStays(b, e.l);
    StraightStays(LowerExpr(b, e.l).b, e.r);
  }

  lemma {:induction false} ArgsStay(b: Builder, args: seq<Expr>, params: seq<Ty>)
    requires AllStraight(args)
    ensures LowerArgs(b, args, params).b.cur == b.cur
    decreases args, 0
  {
    hide LowerExpr;
    if args != [] {
      StraightStays(b, args[0]);
      var x := LowerExpr(b, args[0]);
      ArgsStay(Abort(x.b), args[1..], []);
      if params != [] {
        ArgsStay(Argument(x.b, x.o, x.ty, params[0]).b, args[1..], params[1..]);
      }
    }
  }

  /** A store at the end of the entry block. */
  lemma FitFirstStore(b: Builder, o: Operand, v: Id, stored: set<Id>, arrays: set<Id>)
    requires Fit(b, stored, arrays) && b.cur == ENTRY && !o.Slot?
    ensures var b' := EmitStore(b, o, Slot(v)); Fit(b', stored + {v}, arrays) && b'.cur == ENTRY && !b'.Terminated()
  {
    var i := Store(b.nextId, o, Slot(v));
    var b', c := Append(b, i), b.Code(ENTRY);
    SettledStore(c, i, v, stored);
    forall x, k | 0 <= k < |b'.Code(x)|
      ensures FitInstr(b'.Code(x)[k], stored + {v}, arrays)
    {
      if x != ENTRY || k < |c| {
        assert b'.Code(x)[k] == b.Code(x)[k];
      }
    }
  }

  lemma SettledStore(c: seq<Instr>, i: Instr, v: Id, stored: set<Id>)
    requires Settled(c, stored) && Promotion.StoresSlot(i, v)
    ensures Settled(c + [i], stored + {v})
  {
    SettledAppend(c, i, stored);
    var c' := c + [i];
    assert c'[|c|] == i;
  }

  lemma {:induction false} AssignedFit(b: Builder, st: Stmt, v: Id, stored: set<Id>, arrays: set<Id>)
    requires Fit(b, stored, arrays) && ScopeFits(b.scope, arrays) && b.cur == ENTRY
    requires Assigns(b.scope, st, stored) == Some(v)
    ensures var b1 := LowerStmt(b, st);
      Fit(b1, stored + {v}, arrays) && b1.cur == ENTRY && !b1.Terminated() && b1.scope == b.scope
  {
    hide Fit, ScopeFits, Append, LowerExpr, ExprOk, Straight;
    var Assign(d, rhs) := st.expr.value;
    ExprFit(b, rhs, stored, arrays);
    StraightStays(b, rhs);
    var x := LowerExpr(b, rhs);
    CoerceFit(x.b, x.o, x.ty, stored, arrays);
    CoerceStays(x.b, x.o, x.ty);
    var held := Lookup<Symbol>(b.scope, d.id).value.held;
    var y := if held == One(x.ty) then x else Coerce(x.b, x.o, x.ty);
    FitFirstStore(y.b, y.o, v, stored, arrays);
    AssignLowered(b, d, rhs, v);
  }

  lemma CoerceStays(b: Builder, o: Operand, ty: Ty)
    ensures Coerce(b, o, ty).b.cur == b.cur
  {
  }

  lemma AssignLowered(b: Builder, d: VarRef, rhs: Expr, v: Id)
    requires d.index.None? && Lookup<Symbol>(b.scope, d.id).Some? && Lookup<Symbol>(b.scope, d.id).value.Var?
    requires Lookup<Symbol>(b.scope, d.id).value.addr == Slot(v)
    ensures var x, held := LowerExpr(b, rhs), Lookup<Symbol>(b.scope, d.id).value.held;
      var y := if held == One(x.ty) then x else Coerce(x.b, x.o, x.ty);
      LowerStmt(b, ExprStmt(Some(Assign(d, rhs)))) == EmitStore(y.b, y.o, Slot(v))
  {
    hide Append, Coerce;
    var x := LowerExpr(b, rhs);
    assert LowerPlace(x.b, d) == Addr(x.b, Slot(v), Lookup<Symbol>(b.scope, d.id).value.held);
  }

  lemma {:induction false} LeadingFit(b: Builder, sts: seq<Stmt>, stored: set<Id>, arrays: set<Id>)
    requires Fit(b, stored, arrays) && ScopeFits(b.scope, arrays) && b.cur == ENTRY
    requires AllOk(b.scope, sts, Leading(b.scope, sts, stored)) && AllKinds(sts, arrays)
    ensures Fit(LowerAll(b, sts), Leading(b.scope, sts, stored), arrays)
    decreases |sts|
  {
    hide Fit, ScopeFits, LowerStmt, StmtOk, Kinds, Assigns;
    if sts != [] {
      match Assigns(b.scope, sts[0], stored) {
        case Some(v) =>
          AssignedFit(b, sts[0], v, stored, arrays);
          LeadingFit(LowerStmt(b, sts[0]), sts[1..], stored + {v}, arrays);
        case None => AllFit(b, sts, stored, arrays);
      }
    }
  }

  // ----- functions -----

  lemma {:induction false} ParamsFit(b: Builder, ds: seq<VarDecl>, i: nat, arrays: set<Id>)
    requires i <= |ds| && Fit(b, Sites(ds[..i]), arrays) && ScopeFits(b.scope, arrays) && b.cur == ENTRY
    requires Sites(ds) !! arrays
    ensures var b' := LowerParams(b, ds, i);
      Fit(b', Sites(ds), arrays) && ScopeFits(b'.scope, arrays) && b'.cur == ENTRY
    ensures LowerParams(b, ds, i).scope == ParamScope(b.scope, ds, i)
    decreases |ds| - i
  {
    hide Fit, ScopeFits, LowerParam;
    assert ds[..|ds|] == ds;
    if i < |ds| {
      ParamFit(b, ds[i], i, Sites(ds[..i]), arrays);
      assert Sites(ds[..i + 1]) == Sites(ds[..i]) + {ds[i].site};
      ParamsFit(LowerParam(b, ds[i], i), ds, i + 1, arrays);
    }
  }

  lemma ParamFit(b: Builder, d: VarDecl, i: nat, stored: set<Id>, arrays: set<Id>)
    requires Fit(b, stored, arrays) && ScopeFits(b.scope, arrays) && b.cur == ENTRY && d.site !in arrays
    ensures var b' := LowerParam(b, d, i);
      Fit(b', stored + {d.site}, arrays) && ScopeFits(b'.scope, arrays) && b'.cur == ENTRY
    ensures LowerParam(b, d, i).scope == Bind(b.scope, d.id, Var(Slot(d.site), One(ParamTy(d))))
  {
    hide Fit, ScopeFits, Append;
    var a := Alloca(d.site, !d.isArray);
    FitAppend(b, a, stored, arrays);
    AppendFields(b, a);
    var b1 := Append(b, a);
    FitFirstStore(b1, Arg(i), d.site, stored, arrays);
    AppendFields(b1, Store(b1.nextId, Arg(i), Slot(d.site)));
    BindFits(b.scope, d.id, Var(Slot(d.site), One(ParamTy(d))), arrays);
    RescopeFit(EmitStore(b1, Arg(i), Slot(d.site)), LowerParam(b, d, i).scope, stored + {d.site}, arrays);
  }

  lemma BeginFit(ret: Ty, globals: map<string, Symbol>, first: Id, arrays: set<Id>)
    requires Addressed([globals]) && ScopeFits([globals], arrays)
    ensures var b := Begin(ret, globals, first); Fit(b, {}, arrays) && ScopeFits(b.scope, arrays)
  {
    var b := Begin(ret, globals, first);
    assert [globals][0] == b.scope[0];
  }

  /** The code of a function that passes the check. */
  lemma {:induction false} FunctionFit(f: FunDecl, globals: map<string, Symbol>, first: Id, arrays: set<Id>)
    requires Addressed([globals]) && ScopeFits([globals], arrays) && FunOk(f, globals)
    requires Kinds(f.body, arrays) && Sites(f.params) !! arrays
    ensures Fit(LowerFun(f, globals, first), Stored(f, globals), arrays)
  {
    hide Fit, ScopeFits, LowerStmt, LowerParams, LowerAll, LowerDecls, Addressed, StmtOk, AllOk, Kinds, AllKinds,
      Leading;
    var b0 := Begin(f.ret, globals, first);
    BeginFit(f.ret, globals, first, arrays);
    assert Sites(f.params[..0]) == {};
    ParamsFit(b0, f.params, 0, arrays);
    var b1 := LowerParams(b0, f.params, 0);
    BodyFit(b1, f.body, Sites(f.params), arrays);
    var b2 := LowerStmt(b1, f.body);
    FitRet(b2, DefaultOperands(f.ret), Stored(f, globals), arrays);
  }

  lemma {:induction false} BodyFit(b: Builder, body: Stmt, stored: set<Id>, arrays: set<Id>)
    requires Fit(b, stored, arrays) && ScopeFits(b.scope, arrays) && b.cur == ENTRY && Kinds(body, arrays)
    requires StmtOk(b.scope, body, StoredIn(b.scope, body, stored))
    ensures Fit(LowerStmt(b, body), StoredIn(b.scope, body, stored), arrays)
  {
    hide Fit, ScopeFits, LowerIf, LowerWhile, LowerAll, LowerDecls, Leading;
    match body
    case Compound(ds, sts) =>
      var b0 := b.(scope := b.scope + [map[]]);
      EnterFits(b.scope, arrays);
      RescopeFit(b, b0.scope, stored, arrays);
      DeclsFit(b0, ds, stored, arrays);
      var b1 := LowerDecls(b0, ds);
      LeadingFit(b1, sts, stored, arrays);
      var b2 := LowerAll(b1, sts);
      RescopeFit(b2, Leave(b2.scope), StoredIn(b.scope, body, stored), arrays);
    case _ => StmtFit(b, body, stored, arrays);
  }

  // ----- what the passes require -----

  /** Global variables are addressed as such. */
  predicate GlobalsNamed(globals: map<string, Symbol>) {
    forall x {:trigger globals[x]} :: x in globals && globals[x].Var? ==> globals[x].addr.Global?
  }

  lemma GlobalsFit(globals: map<string, Symbol>, arrays: set<Id>)
    requires GlobalsNamed(globals)
    ensures Addressed([globals]) && ScopeFits([globals], arrays)
  {
    assert forall k, x {:trigger [globals][k][x]} :: 0 <= k < 1 && x in [globals][k] ==> [globals][k][x] == globals[x];
  }

  lemma FitSetInEntry(b: Builder, stored: set<Id>, arrays: set<Id>)
    requires Fit(b, stored, arrays) && Graph(b).Valid() && Graph(b).Entry() == ENTRY && ENTRY in b.code
    ensures PromotionResult.SetInEntry(Graph(b), b.code)
  {
    var g, c := Graph(b), b.Code(ENTRY);
    forall x, k | x in b.code && 0 <= k < |b.code[x]| && b.code[x][k].IsSlotAccess()
      ensures exists j :: 0 <= j < |b.code[g.Entry()]| && Promotion.StoresSlot(b.code[g.Entry()][j], b.code[x][k].ptr.v)
                          && (x == g.Entry() && b.code[x][k].Load? ==> j < k)
    {
      var i := b.Code(x)[k];
      assert StoredBefore(c, i.ptr.v, |c|);
      if x == ENTRY && i.Load? {
        assert c[k] == i && StoredBefore(c, i.ptr.v, k);
      }
    }
  }

  lemma FitConfined(b: Builder, stored: set<Id>, arrays: set<Id>)
    requires Fit(b, stored, arrays)
    ensures SlotUse.ScalarsConfined(b.code)
  {
    forall x, k, o | x in b.code && 0 <= k < |b.code[x]| && o in SlotUse.ValueOperands(b.code[x][k]) && o.Slot?
      ensures o.v !in SlotUse.ScalarSlots(b.code)
    {
      assert b.Code(x)[k] == b.code[x][k];
      forall y, m | y in b.code && 0 <= m < |b.code[y]| && Renaming.ScalarAlloca(b.code[y][m])
        ensures b.code[y][m].id != o.v
      {
        assert b.Code(y)[m] == b.code[y][m];
      }
    }
  }

  /** The code of a function that passes the check misses no name, uses no scalar slot but in loads and stores, and
      lets all look-ups of renaming succeed. */
  lemma FunctionChecked(f: FunDecl, globals: map<string, Symbol>, first: Id, address: Block -> int)
    requires GlobalsNamed(globals) && FunOk(f, globals)
    requires FreshDecls(f.params, {}) && AllFresh(f.body, Sites(f.params))
    ensures var b := LowerFun(f, globals, first);
      && !b.aborted && SlotUse.ScalarsConfined(b.code) && Graph(b).Valid()
      && Mem2RegPass.LookupsSucceed(Graph(b), b.code, address)
  {
    hide LowerFun, Fit, FunOk, Kinds, AllFresh, SlotUse.ScalarsConfined, Mem2RegPass.LookupsSucceed, Mirrored, Sealed;
    var arrays, b := ArraySites(f.body), LowerFun(f, globals, first);
    GlobalsFit(globals, arrays);
    SitesApart(f.body, Sites(f.params));
    assert arrays * SitesOf(f.body) == arrays;
    KindsKnown(f.body, Sites(f.params), arrays);
    FunctionFit(f, globals, first, arrays);
    FunctionShape(f, globals, first);
    EntryKnown(b);
    FitAborted(b, Stored(f, globals), arrays);
    FitConfined(b, Stored(f, globals), arrays);
    FitSetInEntry(b, Stored(f, globals), arrays);
    PromotionResult.EntryInitialises(Graph(b), b.code, address);
  }

  lemma EntryKnown(b: Builder)
    requires Mirrored(b) && Graph(b).Valid() && Graph(b).Entry() == ENTRY
    ensures ENTRY in b.code
  {
    hide NoRepeats, SuccExact, PredExact;
    assert b.blocks[0] in b.blocks;
  }
}
