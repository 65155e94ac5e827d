/** When the builder fails: an assertion of it fails exactly if what is lowered uses a name in a way that it is not
    declared. */
module MissingNames {
  import opened ControlFlow
  import opened IR
  import opened Scopes
  import opened Syntax
  import opened Lowering
  import opened LoweringShape
  import opened SourceCheck

  // ----- on the source -----

  predicate NamesFunction(scope: seq<map<string, Symbol>>, id: string) {
    Lookup<Symbol>(scope, id).Some? && Lookup<Symbol>(scope, id).value.Callee?
  }

  predicate NamesVariable(scope: seq<map<string, Symbol>>, id: string) {
    Lookup<Symbol>(scope, id).Some? && Lookup<Symbol>(scope, id).value.Var?
  }

  /** Variables and functions are declared as such, and calls have as many arguments as there are parameters. */
  predicate ExprNamed(scope: seq<map<string, Symbol>>, e: Expr)
    decreases e, 2
  {
    match e
    case Num(_, _) => true
    case Ref(v) => VarNamed(scope, v)
    case Paren(inner) => ExprNamed(scope, inner)
    case Assign(d, rhs) => ExprNamed(scope, rhs) && VarNamed(scope, d)
    case Relation(_, l, r) => ExprNamed(scope, l) && ExprNamed(scope, r)
    case Arith(_, l, r) => ExprNamed(scope, l) && ExprNamed(scope, r)
    case CallFun(id, args) =>
      && NamesFunction(scope, id) && ArgsNamed(scope, args)
      && |args| == |Lookup<Symbol>(scope, id).value.params|
  }

  predicate ArgsNamed(scope: seq<map<string, Symbol>>, args: seq<Expr>)
    decreases args, 0
  {
    args != [] ==> ExprNamed(scope, args[0]) && ArgsNamed(scope, args[1..])
  }

  /** An index needs the function that is called when it is negative. */
  predicate VarNamed(scope: seq<map<string, Symbol>>, v: VarRef)
    decreases v, 0
  {
    && NamesVariable(scope, v.id)
    && (v.index.Some? ==> ExprNamed(scope, v.index.value) && NamesFunction(scope, "neg_idx_except"))
  }

  /** The statement always ends in a return, as far as its lists of statements show. */
  predicate Closes(st: Stmt)
    decreases st, 1
  {
    match st
    case Compound(_, sts) => SomeCloses(sts)
    case Return(_) => true
    case _ => false
  }

  predicate SomeCloses(sts: seq<Stmt>)
    decreases sts, 0
  {
    sts != [] && (Closes(sts[0]) || SomeCloses(sts[1..]))
  }

  predicate StmtNamed(scope: seq<map<string, Symbol>>, st: Stmt)
    decreases st, 1
  {
    match st
    case Compound(ds, sts) => AllNamed(DeclScope(scope + [map[]], ds), sts)
    case ExprStmt(e) => e.Some? ==> ExprNamed(scope, e.value)
    case If(c, t, f) => ExprNamed(scope, c) && StmtNamed(scope, t) && (f.Some? ==> StmtNamed(scope, f.value))
    case While(c, body) => ExprNamed(scope, c) && StmtNamed(scope, body)
    case Return(e) => e.Some? ==> ExprNamed(scope, e.value)
  }

  /** What follows a return in a list of statements is not lowered, and so not looked at. */
  predicate AllNamed(scope: seq<map<string, Symbol>>, sts: seq<Stmt>)
    decreases sts, 0
  {
    sts != [] ==> StmtNamed(scope, sts[0]) && (Closes(sts[0]) || AllNamed(scope, sts[1..]))
  }

  predicate FunNamed(f: FunDecl, globals: map<string, Symbol>) {
    StmtNamed(ParamScope([globals, map[]], f.params, 0), f.body)
  }

  // ----- expressions -----

  lemma {:induction false} ExprAborts(b: Builder, e: Expr)
    ensures LowerExpr(b, e).b.aborted <==> b.aborted || !ExprNamed(b.scope, e)
    decreases e, 2
  {
    hide LowerPlace, LowerPair, Lookup, LowerArgs;
    match e
    case Num(_, _) =>
    case Ref(v) => VarAborts(b, v);
    case Paren(inner) => ExprAborts(b, inner);
    case Assign(d, rhs) =>
      ExprAborts(b, rhs);
      VarAborts(LowerExpr(b, rhs).b, d);
    case Relation(op, l, r) => PairAborts(b, e);
    case Arith(op, l, r) => PairAborts(b, e);
    case CallFun(id, args) =>
      if NamesFunction(b.scope, id) {
        ArgsAbort(b, args, Lookup<Symbol>(b.scope, id).value.params);
      }
  }

  lemma {:induction false} PairAborts(b: Builder, e: Expr)
    requires e.Relation? || e.Arith?
    ensures LowerPair(b, e).b.aborted <==> b.aborted || !ExprNamed(b.scope, e.l) || !ExprNamed(b.scope, e.r)
    decreases e, 1
  {
    hide LowerExpr;
    ExprAborts(b, e.l);
    ExprAborts(LowerExpr(b, e.l).b, e.r);
  }

  lemma {:induction false} VarAborts(b: Builder, v: VarRef)
    ensures LowerPlace(b, v).b.aborted <==> b.aborted || !VarNamed(b.scope, v)
    decreases v, 0
  {
    hide LowerExpr, LowerCheck;
    if NamesVariable(b.scope, v.id) && v.index.Some? {
      ExprAborts(b, v.index.value);
      var x := LowerExpr(b, v.index.value);
      CheckAborts(x.b, x.o, x.ty);
      var s, k := Lookup<Symbol>(b.scope, v.id).value, LowerCheck(x.b, x.o, x.ty);
      ElementKeeps(k.b, s.addr, s.held, k.o);
    }
  }

  lemma CheckAborts(b: Builder, o: Operand, ty: Ty)
    ensures LowerCheck(b, o, ty).b.aborted <==> b.aborted || !NamesFunction(b.scope, "neg_idx_except")
  {
    hide Lookup;
  }

  lemma ElementKeeps(b: Builder, addr: Operand, held: Held, k: Operand)
    ensures LowerElement(b, addr, held, k).b.aborted == b.aborted
  {
  }

  lemma {:induction false} ArgsAbort(b: Builder, args: seq<Expr>, params: seq<Ty>)
    ensures LowerArgs(b, args, params).b.aborted <==> b.aborted || !ArgsNamed(b.scope, args) || |args| != |params|
    decreases args, 0
  {
    hide LowerExpr;
    if args != [] {
      ExprAborts(b, args[0]);
      var x := LowerExpr(b, args[0]);
      if params == [] {
        ArgsAbort(Abort(x.b), args[1..], []);
      } else {
        ArgsAbort(Argument(x.b, x.o, x.ty, params[0]).b, args[1..], params[1..]);
      }
    }
  }

  // ----- statements -----

  lemma {:induction false} DeclsKeep(b: Builder, ds: seq<VarDecl>)
    ensures LowerDecls(b, ds).aborted == b.aborted && LowerDecls(b, ds).scope == DeclScope(b.scope, ds)
    decreases |ds|
  {
    if ds != [] {
      DeclsKeep(LowerDecl(b, ds[0]), ds[1..]);
    }
  }

  lemma {:induction false} ParamsKeep(b: Builder, ds: seq<VarDecl>, i: nat)
    requires i <= |ds|
    ensures LowerParams(b, ds, i).aborted == b.aborted && LowerParams(b, ds, i).scope == ParamScope(b.scope, ds, i)
    decreases |ds| - i
  {
    if i < |ds| {
      ParamsKeep(LowerParam(b, ds[i], i), ds, i + 1);
    }
  }

  /** The builder's block has ended after exactly the statements that close. */
  lemma {:induction false} ClosesEnds(b: Builder, st: Stmt)
    requires Ready(b) && Addressed(b.scope)
    ensures LowerStmt(b, st).Terminated() <==> Closes(st)
    decreases st, 1
  {
    hide Ready, Addressed, Kept, Grows;
    match st
    case Compound(ds, sts) => CompoundEnds(b, ds, sts);
    case ExprStmt(None) => ReadyOpen(b);
    case ExprStmt(Some(e)) =>
      ExprKept(b, e);
      KeptReady(b, LowerExpr(b, e).b);
    case If(c, t, f) =>
      IfDone(b, c, t, f);
      ReadyOpen(LowerStmt(b, st));
    case While(c, body) =>
      WhileDone(b, c, body);
      ReadyOpen(LowerStmt(b, st));
    case Return(None) =>
    case Return(Some(e)) =>
  }

  lemma ReadyOpen(b: Builder)
    requires Ready(b)
    ensures !b.Terminated()
  {
    ReadyTerminated(b);
  }

  lemma KeptReady(b: Builder, b': Builder)
    requires Kept(b, b')
    ensures Ready(b') && !b'.Terminated()
  {
    ReadyTerminated(b');
  }

  lemma {:induction false} CompoundEnds(b: Builder, ds: seq<VarDecl>, sts: seq<Stmt>)
    requires Ready(b) && Addressed(b.scope)
    ensures LowerStmt(b, Compound(ds, sts)).Terminated() <==> SomeCloses(sts)
    decreases sts, 1
  {
    hide Ready, Addressed, Grows, LowerDecls, LowerAll;
    var b0 := b.(scope := b.scope + [map[]]);
    AddressedEnter(b.scope);
    Rescoped(b, b0);
    DeclsDeclared(b0, ds);
    SomeClosesEnds(LowerDecls(b0, ds), sts);
  }

  lemma {:induction false} SomeClosesEnds(b: Builder, sts: seq<Stmt>)
    requires Ready(b) && Addressed(b.scope)
    ensures LowerAll(b, sts).Terminated() <==> SomeCloses(sts)
    decreases sts, 0
  {
    hide Ready, Addressed, Grows, Kept, Done, LowerStmt;
    if sts == [] {
      ReadyOpen(b);
    } else {
      ClosesEnds(b, sts[0]);
      StmtDone(b, sts[0]);
      DoneFacts(b, LowerStmt(b, sts[0]));
      if !Closes(sts[0]) {
        SomeClosesEnds(LowerStmt(b, sts[0]), sts[1..]);
      }
    }
  }

  lemma {:induction false} StmtAborts(b: Builder, st: Stmt)
    requires Ready(b) && Addressed(b.scope)
    ensures LowerStmt(b, st).aborted <==> b.aborted || !StmtNamed(b.scope, st)
    decreases st, 2
  {
    hide Ready, Addressed, Kept, Grows, LowerExpr, LowerIf, LowerWhile, LowerDecls, LowerAll;
    match st
    case Compound(ds, sts) =>
      var b0 := b.(scope := b.scope + [map[]]);
      AddressedEnter(b.scope);
      Rescoped(b, b0);
      DeclsDeclared(b0, ds);
      DeclsKeep(b0, ds);
      AllAbort(LowerDecls(b0, ds), sts);
    case ExprStmt(None) =>
    case ExprStmt(Some(e)) => ExprAborts(b, e);
    case If(c, t, f) => IfAborts(b, c, t, f);
    case While(c, body) => WhileAborts(b, c, body);
    case Return(None) =>
    case Return(Some(e)) => ExprAborts(b, e);
  }

  lemma {:induction false} AllAbort(b: Builder, sts: seq<Stmt>)
    requires Ready(b) && Addressed(b.scope)
    ensures LowerAll(b, sts).aborted <==> b.aborted || !AllNamed(b.scope, sts)
    decreases sts, 0
  {
    hide Ready, Addressed, Grows, Kept, Done, LowerStmt;
    if sts != [] {
      var b1 := LowerStmt(b, sts[0]);
      StmtAborts(b, sts[0]);
      ClosesEnds(b, sts[0]);
      StmtDone(b, sts[0]);
      DoneFacts(b, b1);
      if !Closes(sts[0]) {
        AllAbort(b1, sts[1..]);
      }
    }
  }

  lemma BranchAborts(b: Builder, op: string, o: Operand, t: Block, f: Block)
    ensures BranchTo(b, t).aborted == b.aborted && Forked(b, op, o, t, f).aborted == b.aborted
  {
    hide Builder.Terminated;
  }

  lemma {:induction false} IfAborts(b: Builder, c: Expr, t: Stmt, f: Option<Stmt>)
    requires Ready(b) && Addressed(b.scope)
    ensures LowerStmt(b, If(c, t, f)).aborted <==>
      b.aborted || !ExprNamed(b.scope, c) || !StmtNamed(b.scope, t) || (f.Some? && !StmtNamed(b.scope, f.value))
    decreases If(c, t, f), 1
  {
    hide Ready, Addressed, Grows, LowerExpr, LowerStmt, BranchTo, StmtNamed, IfStart, IfEnd, RemoveBlock;
    IfLast(b, c, t, f);
    FirstAborts(b, c, t, f);
    if f.Some? {
      ElseParts(b, c, t, f.value);
      var n, b3 := LowerExpr(b, c).b.nextBlock, ElseStart(b, c, t, f.value);
      StmtAborts(b3, f.value);
      BranchAborts(LowerStmt(b3, f.value), "", Const(0), n + 2, n + 2);
    } else {
      RemoveAborts(IfEnd(b, c, t, f), LowerExpr(b, c).b.nextBlock + 1);
    }
  }

  lemma RemoveAborts(b: Builder, x: Block)
    ensures RemoveBlock(b, x).aborted == b.aborted
  {
  }

  lemma {:induction false} FirstAborts(b: Builder, c: Expr, t: Stmt, f: Option<Stmt>)
    requires Ready(b) && Addressed(b.scope)
    ensures IfEnd(b, c, t, f).aborted <==> b.aborted || !ExprNamed(b.scope, c) || !StmtNamed(b.scope, t)
    decreases If(c, t, f), 0
  {
    hide Ready, Addressed, Grows, LowerExpr, LowerStmt, BranchTo, Forked, StmtNamed;
    ExprAborts(b, c);
    IfStarted(b, c, f.Some?);
    var x, b1 := LowerExpr(b, c), IfStart(b, c, f.Some?);
    var n := x.b.nextBlock;
    BranchAborts(NewBlock(NewBlock(NewBlock(x.b))), TestName(x.ty), x.o, n, if f.Some? then n + 1 else n + 2);
    StmtAborts(b1, t);
    BranchAborts(LowerStmt(b1, t), "", x.o, n + 2, n + 2);
  }

  lemma {:induction false} WhileAborts(b: Builder, c: Expr, body: Stmt)
    requires Ready(b) && Addressed(b.scope)
    ensures LowerWhile(b, c, body).aborted <==>
      b.aborted || !ExprNamed(b.scope, c) || !StmtNamed(b.scope, body)
    decreases While(c, body), 0
  {
    hide Ready, Addressed, Grows, LowerExpr, LowerStmt, BranchTo, Forked;
    var n := b.nextBlock;
    BranchAborts(NewBlock(b), "", Const(0), n, n);
    ExprAborts(WhileStart(b), c);
    WhileStarted(b, c);
    var x, b1 := LowerExpr(WhileStart(b), c), WhileBody(b, c);
    BranchAborts(NewBlock(NewBlock(x.b)), TestName(x.ty), x.o, x.b.nextBlock, x.b.nextBlock + 1);
    StmtAborts(b1, body);
    BranchAborts(LowerStmt(b1, body), "", x.o, n, n);
  }

  /** An assertion of the builder fails for a function exactly if a name in what is lowered of it is missing. */
  lemma FunctionAborts(f: FunDecl, globals: map<string, Symbol>, first: Id)
    requires Addressed([globals])
    ensures LowerFun(f, globals, first).aborted <==> !FunNamed(f, globals)
  {
    hide Ready, Addressed, Grows, LowerStmt, LowerParams;
    var b0 := Begin(f.ret, globals, first);
    BeginReady(f.ret, globals, first);
    ParamsDeclared(b0, f.params, 0);
    ParamsKeep(b0, f.params, 0);
    StmtAborts(LowerParams(b0, f.params, 0), f.body);
  }
}
