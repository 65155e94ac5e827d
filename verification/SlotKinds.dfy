/** The slots of lowered code: each is that of a declaration, and is marked a scalar exactly if that declares no
    array. */
module SlotKinds {
  import opened ControlFlow
  import opened IR
  import opened Scopes
  import opened Syntax
  import opened Lowering
  import opened SourceCheck

  ghost predicate KindKept(i: Instr, arrays: set<Id>) {
    i.Alloca? ==> (i.scalar <==> i.id !in arrays)
  }

  /** The slots that are no scalars are those of the arrays. */
  ghost predicate Kinded(b: Builder, arrays: set<Id>) {
    forall x, k {:trigger b.Code(x)[k]} :: 0 <= k < |b.Code(x)| ==> KindKept(b.Code(x)[k], arrays)
  }

  lemma AppendKinded(b: Builder, i: Instr, arrays: set<Id>)
    requires Kinded(b, arrays) && KindKept(i, arrays)
    ensures Kinded(Append(b, i), arrays)
  {
    var b' := Append(b, i);
    forall x, k | 0 <= k < |b'.Code(x)|
      ensures KindKept(b'.Code(x)[k], arrays)
    {
      assert x != b.cur || k < |b.Code(x)| ==> b'.Code(x)[k] == b.Code(x)[k];
    }
  }

  /** Blocks have the same code or none. */
  lemma SameKinded(b: Builder, b': Builder, arrays: set<Id>)
    requires Kinded(b, arrays) && forall x {:trigger b'.Code(x)} :: b'.Code(x) == b.Code(x) || b'.Code(x) == []
    ensures Kinded(b', arrays)
  {
    hide KindKept;
  }

  lemma EmitKinded(b: Builder, op: string, args: seq<Operand>, p: Operand, o: Operand, arrays: set<Id>)
    requires Kinded(b, arrays)
    ensures Kinded(Append(b, Op(b.nextId, op, args)), arrays) && Kinded(Append(b, Gep(b.nextId, args)), arrays)
    ensures Kinded(Append(b, Call(b.nextId, op, args)), arrays) && Kinded(Append(b, Instr.Ret(b.nextId, args)), arrays)
    ensures Kinded(Append(b, Load(b.nextId, p)), arrays) && Kinded(Append(b, Store(b.nextId, o, p)), arrays)
  {
    hide Kinded, Append;
    AppendKinded(b, Op(b.nextId, op, args), arrays);
    AppendKinded(b, Gep(b.nextId, args), arrays);
    AppendKinded(b, Call(b.nextId, op, args), arrays);
    AppendKinded(b, Instr.Ret(b.nextId, args), arrays);
    AppendKinded(b, Load(b.nextId, p), arrays);
    AppendKinded(b, Store(b.nextId, o, p), arrays);
  }

  lemma BranchKinded(b: Builder, c: Operand, t: Block, f: Block, arrays: set<Id>)
    requires Kinded(b, arrays)
    ensures Kinded(EmitBr(b, t), arrays) && Kinded(EmitCondBr(b, c, t, f), arrays) && Kinded(BranchTo(b, t), arrays)
  {
    hide Kinded, Append, Builder.Terminated;
    var b1 := b.(pred := b.pred[t := b.Pred(t) + [b.cur]], succ := b.succ[b.cur := b.Succ(b.cur) + [t]]);
    SameKinded(b, b1, arrays);
    AppendKinded(b1, Br(b.nextId, t), arrays);
    var b2 := b.(pred := b.pred[t := b.Pred(t) + [b.cur]]);
    var b3 := b2.(pred := b2.pred[f := b2.Pred(f) + [b.cur]], succ := b.succ[b.cur := b.Succ(b.cur) + [f, t]]);
    SameKinded(b, b3, arrays);
    AppendKinded(b3, CondBr(b.nextId, c, t, f), arrays);
  }

  lemma MoveKinded(b: Builder, x: Block, scope: seq<map<string, Symbol>>, arrays: set<Id>)
    requires Kinded(b, arrays)
    ensures Kinded(NewBlock(b), arrays) && Kinded(SetInsert(b, x), arrays) && Kinded(RemoveBlock(b, x), arrays)
    ensures Kinded(b.(scope := scope), arrays) && Kinded(Abort(b), arrays)
  {
    hide Kinded;
    SameKinded(b, NewBlock(b), arrays);
    SameKinded(b, SetInsert(b, x), arrays);
    SameKinded(b, RemoveBlock(b, x), arrays);
    SameKinded(b, b.(scope := scope), arrays);
    SameKinded(b, Abort(b), arrays);
  }

  lemma ForkedKinded(b: Builder, op: string, o: Operand, t: Block, f: Block, arrays: set<Id>)
    requires Kinded(b, arrays)
    ensures Kinded(Forked(b, op, o, t, f), arrays)
  {
    hide Kinded, Append, EmitCondBr, SetInsert;
    EmitKinded(b, op, [o, Const(0)], o, o, arrays);
    var n := EmitOp(b, op, [o, Const(0)], Int);
    BranchKinded(n.b, n.o, t, f, arrays);
    MoveKinded(EmitCondBr(n.b, n.o, t, f), t, b.scope, arrays);
  }

  // ----- expressions -----

  lemma {:induction false} ExprKinded(b: Builder, e: Expr, arrays: set<Id>)
    requires Kinded(b, arrays)
    ensures Kinded(LowerExpr(b, e).b, arrays)
    decreases e, 2
  {
    hide Kinded, Append, LowerPlace, LowerPair, LowerArgs;
    match e
    case Num(_, _) =>
    case Ref(v) =>
      PlaceKinded(b, v, arrays);
      ReadKinded(LowerPlace(b, v), arrays);
    case Paren(inner) => ExprKinded(b, inner, arrays);
    case Assign(d, rhs) =>
      ExprKinded(b, rhs, arrays);
      var x := LowerExpr(b, rhs);
      PlaceKinded(x.b, d, arrays);
      var p := LowerPlace(x.b, d);
      CoerceKinded(p.b, x.o, x.ty, arrays);
      var y := if p.held == One(x.ty) then Tmp(p.b, x.o, x.ty) else Coerce(p.b, x.o, x.ty);
      EmitKinded(y.b, "", [], p.o, y.o, arrays);
    case Relation(op, _, _) =>
      PairKinded(b, e, arrays);
      var p := LowerPair(b, e);
      EmitKinded(p.b, RelName(op, p.isInt), [p.x, p.y], p.x, p.x, arrays);
      var c := EmitOp(p.b, RelName(op, p.isInt), [p.x, p.y], Int);
      EmitKinded(c.b, ZEXT, [c.o], c.o, c.o, arrays);
    case Arith(op, _, _) =>
      PairKinded(b, e, arrays);
      var p := LowerPair(b, e);
      EmitKinded(p.b, ArithName(op, p.isInt), [p.x, p.y], p.x, p.x, arrays);
    case CallFun(id, args) =>
      MoveKinded(b, 0, b.scope, arrays);
      if Lookup<Symbol>(b.scope, id).Some? && Lookup<Symbol>(b.scope, id).value.Callee? {
        var g := Lookup<Symbol>(b.scope, id).value;
        ArgsKinded(b, args, g.params, arrays);
        var a := LowerArgs(b, args, g.params);
        EmitKinded(a.b, g.name, a.os, Const(0), Const(0), arrays);
      }
  }

  lemma CoerceKinded(b: Builder, o: Operand, ty: Ty, arrays: set<Id>)
    requires Kinded(b, arrays)
    ensures Kinded(Coerce(b, o, ty).b, arrays)
  {
    hide Kinded, Append;
    EmitKinded(b, SITOFP, [o], o, o, arrays);
    EmitKinded(b, FPTOSI, [o], o, o, arrays);
  }

  lemma ReadKinded(p: Addr, arrays: set<Id>)
    requires Kinded(p.b, arrays)
    ensures Kinded(LowerRead(p).b, arrays)
  {
    hide Kinded, Append;
    EmitKinded(p.b, "", [p.o, Const(0), Const(0)], p.o, p.o, arrays);
  }

  lemma {:induction false} PlaceKinded(b: Builder, v: VarRef, arrays: set<Id>)
    requires Kinded(b, arrays)
    ensures Kinded(LowerPlace(b, v).b, arrays)
    decreases v, 0
  {
    hide Kinded, Append, LowerExpr, LowerCheck, LowerElement;
    MoveKinded(b, 0, b.scope, arrays);
    if Lookup<Symbol>(b.scope, v.id).Some? && Lookup<Symbol>(b.scope, v.id).value.Var? && v.index.Some? {
      var s, i := Lookup<Symbol>(b.scope, v.id).value, v.index.value;
      ExprKinded(b, i, arrays);
      var x := LowerExpr(b, i);
      CheckKinded(x.b, x.o, x.ty, arrays);
      var k := LowerCheck(x.b, x.o, x.ty);
      ElementKinded(k.b, s.addr, s.held, k.o, arrays);
    }
  }

  lemma CheckKinded(b: Builder, o: Operand, ty: Ty, arrays: set<Id>)
    requires Kinded(b, arrays)
    ensures Kinded(LowerCheck(b, o, ty).b, arrays)
  {
    hide Kinded, Append, NewBlock, Forked, SetInsert, LowerNegative;
    MoveKinded(b, 0, b.scope, arrays);
    MoveKinded(NewBlock(b), 0, b.scope, arrays);
    EmitKinded(NewBlock(NewBlock(b)), FPTOSI, [o], o, o, arrays);
    var except, cont, k := b.nextBlock, b.nextBlock + 1, Index(b, o, ty);
    ForkedKinded(k.b, "icmp_lt", k.o, except, cont, arrays);
    var b2 := Forked(k.b, "icmp_lt", k.o, except, cont);
    NegativeKinded(b2, arrays);
    MoveKinded(LowerNegative(b2), cont, b.scope, arrays);
  }

  lemma NegativeKinded(b: Builder, arrays: set<Id>)
    requires Kinded(b, arrays)
    ensures Kinded(LowerNegative(b), arrays)
  {
    hide Kinded, Append, Abort;
    MoveKinded(b, 0, b.scope, arrays);
    EmitKinded(Abort(b), "", DefaultOperands(b.ret), Const(0), Const(0), arrays);
    if Lookup<Symbol>(b.scope, NEGATIVE_INDEX).Some? && Lookup<Symbol>(b.scope, NEGATIVE_INDEX).value.Callee? {
      var g := Lookup<Symbol>(b.scope, NEGATIVE_INDEX).value;
      EmitKinded(b, g.name, [], Const(0), Const(0), arrays);
      EmitKinded(EmitCall(b, g.name, [], g.ret).b, "", DefaultOperands(b.ret), Const(0), Const(0), arrays);
    }
  }

  lemma ElementKinded(b: Builder, addr: Operand, held: Held, k: Operand, arrays: set<Id>)
    requires Kinded(b, arrays)
    ensures Kinded(LowerElement(b, addr, held, k).b, arrays)
  {
    hide Kinded, Append;
    EmitKinded(b, "", [addr, k], addr, addr, arrays);
    EmitKinded(b, "", [addr, Const(0), k], addr, addr, arrays);
    var l := EmitLoad(b, addr, Int);
    EmitKinded(l.b, "", [l.o, k], l.o, l.o, arrays);
  }

  lemma {:induction false} PairKinded(b: Builder, e: Expr, arrays: set<Id>)
    requires Kinded(b, arrays) && (e.Relation? || e.Arith?)
    ensures Kinded(LowerPair(b, e).b, arrays)
    decreases e, 1
  {
    hide Kinded, Append, LowerExpr;
    var l := LowerExpr(b, e.l);
    var r := LowerExpr(l.b, e.r);
    ExprKinded(b, e.l, arrays);
    ExprKinded(l.b, e.r, arrays);
    EmitKinded(r.b, SITOFP, [l.o], l.o, l.o, arrays);
    EmitKinded(r.b, SITOFP, [r.o], r.o, r.o, arrays);
  }

  lemma {:induction false} ArgsKinded(b: Builder, args: seq<Expr>, params: seq<Ty>, arrays: set<Id>)
    requires Kinded(b, arrays)
    ensures Kinded(LowerArgs(b, args, params).b, arrays)
    decreases args, 0
  {
    hide Kinded, Append, LowerExpr, Coerce, Abort;
    MoveKinded(b, 0, b.scope, arrays);
    if args != [] {
      ExprKinded(b, args[0], arrays);
      var x := LowerExpr(b, args[0]);
      if params == [] {
        MoveKinded(x.b, 0, b.scope, arrays);
        ArgsKinded(Abort(x.b), args[1..], [], arrays);
      } else {
        CoerceKinded(x.b, x.o, x.ty, arrays);
        ArgsKinded(Argument(x.b, x.o, x.ty, params[0]).b, args[1..], params[1..], arrays);
      }
    }
  }

  // ----- declarations and statements -----

  lemma {:induction false} DeclsKinded(b: Builder, ds: seq<VarDecl>, arrays: set<Id>)
    requires Kinded(b, arrays) && DeclKinds(ds, arrays)
    ensures Kinded(LowerDecls(b, ds), arrays)
    decreases |ds|
  {
    hide Kinded, Append;
    if ds != [] {
      var d, i := ds[0], Alloca(ds[0].site, !ds[0].isArray);
      AppendKinded(b, i, arrays);
      MoveKinded(Append(b, i), 0, Bind(Append(b, i).scope, d.id, Var(Slot(d.site), HeldBy(d))), arrays);
      assert forall k :: 0 <= k < |ds[1..]| ==> ds[1..][k] == ds[k + 1];
      DeclsKinded(LowerDecl(b, d), ds[1..], arrays);
    }
  }

  lemma {:induction false} ParamsKinded(b: Builder, ds: seq<VarDecl>, i: nat, arrays: set<Id>)
    requires i <= |ds| && Kinded(b, arrays) && DeclKinds(ds, arrays)
    ensures Kinded(LowerParams(b, ds, i), arrays)
    decreases |ds| - i
  {
    hide Kinded, Append;
    if i < |ds| {
      var d := ds[i];
      var b1 := Append(b, Alloca(d.site, !d.isArray));
      AppendKinded(b, Alloca(d.site, !d.isArray), arrays);
      EmitKinded(b1, "", [], Slot(d.site), Arg(i), arrays);
      var b2 := EmitStore(b1, Arg(i), Slot(d.site));
      MoveKinded(b2, 0, Bind(b2.scope, d.id, Var(Slot(d.site), One(ParamTy(d)))), arrays);
      ParamsKinded(LowerParam(b, d, i), ds, i + 1, arrays);
    }
  }

  lemma {:induction false} StmtKinded(b: Builder, st: Stmt, arrays: set<Id>)
    requires Kinded(b, arrays) && Kinds(st, arrays)
    ensures Kinded(LowerStmt(b, st), arrays)
    decreases st, 1
  {
    hide Kinded, Append, LowerExpr, LowerDecls, LowerAll, LowerIf, LowerWhile;
    match st
    case Compound(ds, sts) =>
      MoveKinded(b, 0, b.scope + [map[]], arrays);
      var b0 := b.(scope := b.scope + [map[]]);
      DeclsKinded(b0, ds, arrays);
      AllKinded(LowerDecls(b0, ds), sts, arrays);
      var b1 := LowerAll(LowerDecls(b0, ds), sts);
      MoveKinded(b1, 0, Leave(b1.scope), arrays);
    case ExprStmt(None) =>
    case ExprStmt(Some(e)) => ExprKinded(b, e, arrays);
    case If(c, t, f) => IfKinded(b, c, t, f, arrays);
    case While(c, body) => WhileKinded(b, c, body, arrays);
    case Return(None) => EmitKinded(b, "", [], Const(0), Const(0), arrays);
    case Return(Some(e)) =>
      ExprKinded(b, e, arrays);
      var x := LowerExpr(b, e);
      EmitKinded(x.b, FPTOSI, [x.o], x.o, x.o, arrays);
      EmitKinded(x.b, SITOFP, [x.o], x.o, x.o, arrays);
      var y := LowerReturned(x.b, x.o, x.ty);
      EmitKinded(y.b, "", [y.o], y.o, y.o, arrays);
  }

  lemma {:induction false} AllKinded(b: Builder, sts: seq<Stmt>, arrays: set<Id>)
    requires Kinded(b, arrays) && AllKinds(sts, arrays)
    ensures Kinded(LowerAll(b, sts), arrays)
    decreases sts, 0
  {
    hide Kinded, LowerStmt, Builder.Terminated;
    if sts != [] {
      StmtKinded(b, sts[0], arrays);
      AllKinded(LowerStmt(b, sts[0]), sts[1..], arrays);
    }
  }

  lemma {:induction false} IfKinded(b: Builder, c: Expr, t: Stmt, f: Option<Stmt>, arrays: set<Id>)
    requires Kinded(b, arrays) && Kinds(If(c, t, f), arrays)
    ensures Kinded(LowerIf(b, c, t, f), arrays)
    decreases If(c, t, f), 0
  {
    hide Kinded, LowerExpr, LowerStmt, BranchTo, NewBlock, Forked, SetInsert, RemoveBlock;
    ExprKinded(b, c, arrays);
    var x := LowerExpr(b, c);
    var n, b1 := x.b.nextBlock, IfStart(b, c, f.Some?);
    MoveKinded(x.b, 0, b.scope, arrays);
    MoveKinded(NewBlock(x.b), 0, b.scope, arrays);
    MoveKinded(NewBlock(NewBlock(x.b)), 0, b.scope, arrays);
    ForkedKinded(NewBlock(NewBlock(NewBlock(x.b))), TestName(x.ty), x.o, n, if f.Some? then n + 1 else n + 2, arrays);
    StmtKinded(b1, t, arrays);
    BranchKinded(LowerStmt(b1, t), x.o, n + 2, n + 2, arrays);
    var b2 := BranchTo(LowerStmt(b1, t), n + 2);
    MoveKinded(b2, n + 1, b.scope, arrays);
    if f.None? {
      MoveKinded(RemoveBlock(b2, n + 1), n + 2, b.scope, arrays);
    } else {
      var b3 := SetInsert(b2, n + 1);
      StmtKinded(b3, f.value, arrays);
      BranchKinded(LowerStmt(b3, f.value), x.o, n + 2, n + 2, arrays);
      MoveKinded(BranchTo(LowerStmt(b3, f.value), n + 2), n + 2, b.scope, arrays);
    }
  }

  lemma {:induction false} WhileKinded(b: Builder, c: Expr, body: Stmt, arrays: set<Id>)
    requires Kinded(b, arrays) && Kinds(While(c, body), arrays)
    ensures Kinded(LowerWhile(b, c, body), arrays)
    decreases While(c, body), 0
  {
    hide Kinded, LowerExpr, LowerStmt, BranchTo, NewBlock, Forked, SetInsert;
    var n := b.nextBlock;
    MoveKinded(b, 0, b.scope, arrays);
    BranchKinded(NewBlock(b), Const(0), n, n, arrays);
    MoveKinded(BranchTo(NewBlock(b), n), n, b.scope, arrays);
    ExprKinded(WhileStart(b), c, arrays);
    var x := LowerExpr(WhileStart(b), c);
    MoveKinded(x.b, 0, b.scope, arrays);
    MoveKinded(NewBlock(x.b), 0, b.scope, arrays);
    ForkedKinded(NewBlock(NewBlock(x.b)), TestName(x.ty), x.o, x.b.nextBlock, x.b.nextBlock + 1, arrays);
    var b1 := WhileBody(b, c);
    StmtKinded(b1, body, arrays);
    BranchKinded(LowerStmt(b1, body), x.o, n, n, arrays);
    MoveKinded(BranchTo(LowerStmt(b1, body), n), x.b.nextBlock + 1, b.scope, arrays);
  }

  /** The declarations of arrays among the parameters and in the body. */
  function Arrays(f: FunDecl): set<Id> {
    ArrayDecls(f.params) + ArraySites(f.body)
  }

  /** In a lowered function, checked or not, the slot of a declaration is a scalar exactly if it declares no array. */
  lemma FunctionKinded(f: FunDecl, globals: map<string, Symbol>, first: Id)
    requires FreshDecls(f.params, {}) && AllFresh(f.body, Sites(f.params))
    ensures DeclKinds(f.params, Arrays(f)) && Kinds(f.body, Arrays(f))
    ensures Kinded(LowerFun(f, globals, first), Arrays(f))
  {
    hide Kinded, LowerStmt, LowerParams, DeclKinds, Kinds, AllFresh, SitesOf, ArraySites, Builder.Terminated;
    FunctionKinds(f);
    var b0 := Begin(f.ret, globals, first);
    assert Kinded(b0, Arrays(f)) by {
      BeginKinded(b0, Arrays(f));
    }
    ParamsKinded(b0, f.params, 0, Arrays(f));
    StmtKinded(LowerParams(b0, f.params, 0), f.body, Arrays(f));
    EmitKinded(LowerStmt(LowerParams(b0, f.params, 0), f.body), "", DefaultOperands(f.ret), Const(0), Const(0),
               Arrays(f));
  }

  lemma BeginKinded(b: Builder, arrays: set<Id>)
    requires b.code == map[ENTRY := []]
    ensures Kinded(b, arrays)
  {
  }

  lemma FunctionKinds(f: FunDecl)
    requires FreshDecls(f.params, {}) && AllFresh(f.body, Sites(f.params))
    ensures DeclKinds(f.params, Arrays(f)) && Kinds(f.body, Arrays(f))
  {
    hide AllFresh, SitesOf, ArraySites, Kinds;
    SitesApart(f.body, Sites(f.params));
    forall k | 0 <= k < |f.params|
      ensures f.params[k].isArray <==> f.params[k].site in Arrays(f)
    {
      assert f.params[k].site in Sites(f.params);
    }
    forall id | id in ArrayDecls(f.params)
      ensures id in Sites(f.params)
    {
    }
    assert Arrays(f) * SitesOf(f.body) == ArraySites(f.body);
    KindsKnown(f.body, Sites(f.params), Arrays(f));
  }
}
