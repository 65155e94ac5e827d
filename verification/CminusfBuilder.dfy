/** The builder: it walks the tree, keeps the last value in a variable and appends to a moving insertion
    point.  Each visit leaves the function under construction as the lowering functions say. */
module Building {
  import opened ControlFlow
  import opened IR
  import opened Scopes
  import opened Syntax
  import opened Lowering
  import LoweringShape

  const LIBRARY: map<string, Symbol> := map[
    "input" := Callee("input", Int, []),
    "output" := Callee("output", Void, [Int]),
    "outputFloat" := Callee("outputFloat", Void, [Flt]),
    NEGATIVE_INDEX := Callee(NEGATIVE_INDEX, Void, [])]

  lemma BindFirst(m: map<string, Symbol>, id: string, t: Symbol)
    requires id !in m
    ensures Bind([m], id, t) == [m[id := t]]
  {
  }

  class CminusfBuilder {
    const scope: Scope<Symbol>
    var ret: Ty
    var blocks: seq<Block>
    var code: map<Block, seq<Instr>>
    var succ: map<Block, seq<Block>>
    var pred: map<Block, seq<Block>>
    var insertBlock: Block
    var nextId: Id
    var nextBlock: Block
    var aborted: bool
    // The last value, or address, that a visit has produced.
    var tmpVal: Operand
    var tmpTy: Ty
    var tmpHeld: Held
    // Whether the next variable is wanted as an address.
    var requireLvalue: bool

    /** A builder that knows the library functions and nothing else. */
    constructor ()
      ensures scope.inner == [map["input" := Callee("input", Int, []), "output" := Callee("output", Void, [Int]),
                                  "outputFloat" := Callee("outputFloat", Void, [Flt]),
                                  "neg_idx_except" := Callee("neg_idx_except", Void, [])]]
      ensures !requireLvalue && !aborted && fresh(scope)
    {
      scope := new Scope<Symbol>();
      ret, blocks, code, succ, pred, insertBlock, nextId, nextBlock, aborted := Void, [], map[], map[], map[], ENTRY, 0,
        ENTRY, false;
      tmpVal, tmpTy, tmpHeld, requireLvalue := Const(0), Int, One(Int), false;
      new;
      scope.Enter();
      NameLibrary();
    }

    /** Names the library functions in the global scope. */
    method NameLibrary()
      requires scope.inner == [map[]]
      modifies scope
      ensures scope.inner == [LIBRARY]
    {
      hide Bind;
      BindFirst(map[], "input", Callee("input", Int, []));
      var _ := scope.Push("input", Callee("input", Int, []));
      BindFirst(scope.inner[0], "output", Callee("output", Void, [Int]));
      var _ := scope.Push("output", Callee("output", Void, [Int]));
      BindFirst(scope.inner[0], "outputFloat", Callee("outputFloat", Void, [Flt]));
      var _ := scope.Push("outputFloat", Callee("outputFloat", Void, [Flt]));
      BindFirst(scope.inner[0], NEGATIVE_INDEX, Callee(NEGATIVE_INDEX, Void, []));
      var _ := scope.Push(NEGATIVE_INDEX, Callee(NEGATIVE_INDEX, Void, []));
    }

    ghost function View(): Builder
      reads this, scope
    {
      Builder(ret, blocks, code, succ, pred, insertBlock, nextId, nextBlock, scope.inner, aborted)
    }

    // ----- the builder of instructions -----

    method Emit(i: Instr)
      modifies `code, `nextId
      ensures View() == Append(old(View()), i)
    {
      code := code[insertBlock := (if insertBlock in code then code[insertBlock] else []) + [i]];
      nextId := nextId + 1;
    }

    method CreateStore(o: Operand, addr: Operand)
      modifies `code, `nextId
      ensures View() == EmitStore(old(View()), o, addr)
    {
      Emit(Store(nextId, o, addr));
    }

    /** What the visit hands on. */
    method SetLast(o: Operand, ty: Ty)
      modifies `tmpVal, `tmpTy
      ensures tmpVal == o && tmpTy == ty && View() == old(View())
    {
      tmpVal, tmpTy := o, ty;
    }

    method CreateOp(op: string, args: seq<Operand>) returns (o: Operand)
      modifies `code, `nextId
      ensures View() == Append(old(View()), Op(old(nextId), op, args)) && o == Reg(old(nextId))
    {
      o := Reg(nextId);
      Emit(Op(nextId, op, args));
    }

    method CreateLoad(addr: Operand) returns (o: Operand)
      modifies `code, `nextId
      ensures View() == Append(old(View()), Load(old(nextId), addr)) && o == Reg(old(nextId))
    {
      o := Reg(nextId);
      Emit(Load(nextId, addr));
    }

    method CreateGep(args: seq<Operand>) returns (o: Operand)
      modifies `code, `nextId
      ensures View() == Append(old(View()), Gep(old(nextId), args)) && o == Elem(old(nextId))
    {
      o := Elem(nextId);
      Emit(Gep(nextId, args));
    }

    method CreateBasicBlock() returns (b: Block)
      modifies `blocks, `code, `succ, `pred, `nextBlock
      ensures b == old(View()).nextBlock && View().nextBlock == b + 1 && View() == NewBlock(old(View()))
    {
      b := nextBlock;
      blocks, code, succ, pred, nextBlock := blocks + [b], code[b := []], succ[b := []], pred[b := []], b + 1;
    }

    method AddEdge(to: Block)
      modifies `succ, `pred
      ensures pred == old(pred)[to := old(View()).Pred(to) + [insertBlock]]
      ensures succ == old(succ)[insertBlock := old(View()).Succ(insertBlock) + [to]]
    {
      pred := pred[to := (if to in pred then pred[to] else []) + [insertBlock]];
      succ := succ[insertBlock := (if insertBlock in succ then succ[insertBlock] else []) + [to]];
    }

    method CreateBr(t: Block)
      modifies `code, `nextId, `succ, `pred
      ensures View() == EmitBr(old(View()), t)
    {
      AddEdge(t);
      Emit(Br(nextId, t));
    }

    method CreateCondBr(c: Operand, t: Block, f: Block)
      modifies `code, `nextId, `succ, `pred
      ensures View() == EmitCondBr(old(View()), c, t, f)
    {
      pred := pred[t := (if t in pred then pred[t] else []) + [insertBlock]];
      pred := pred[f := (if f in pred then pred[f] else []) + [insertBlock]];
      var out := if insertBlock in succ then succ[insertBlock] else [];
      out := out + [f];
      out := out + [t];
      assert out == old(View()).Succ(insertBlock) + [f, t];
      succ := succ[insertBlock := out];
      Emit(CondBr(nextId, c, t, f));
    }

    method SetInsertPoint(b: Block)
      modifies `insertBlock
      ensures View() == SetInsert(old(View()), b)
    {
      insertBlock := b;
    }

    /** Whether the block ends in a branch or return. */
    predicate HasTerminator()
      reads this
    {
      insertBlock in code && code[insertBlock] != [] && code[insertBlock][|code[insertBlock]| - 1].IsTerminator()
    }

    method EraseFromParent(b: Block)
      modifies `blocks, `code, `succ, `pred
      ensures View() == RemoveBlock(old(View()), b)
    {
      var pre := if b in pred then pred[b] else [];
      var post := if b in succ then succ[b] else [];
      blocks := Without(blocks, b);
      code := code - {b};
      succ := map p | p in succ && p != b :: if p in pre then Without(succ[p], b) else succ[p];
      pred := map s | s in pred && s != b :: if s in post then Without(pred[s], b) else pred[s];
    }

    /** The conversion of the last value when types differ. */
    method Coerced(o: Operand, ty: Ty)
      modifies `code, `nextId, `tmpVal, `tmpTy
      ensures Tmp(View(), tmpVal, tmpTy) == Coerce(old(View()), o, ty)
    {
      if ty == Int {
        tmpVal := CreateOp(SITOFP, [o]);
        tmpTy := Flt;
      } else {
        tmpVal := CreateOp(FPTOSI, [o]);
        tmpTy := Int;
      }
    }

    // ----- expressions -----

    method VisitExpr(e: Expr)
      requires !requireLvalue
      modifies this
      ensures Tmp(View(), tmpVal, tmpTy) == LowerExpr(old(View()), e) && !requireLvalue
      decreases e, 4
    {
      match e
      case Num(isInt, n) => tmpVal, tmpTy := Const(n), Scalar(isInt);
      case Ref(v) => VisitVar(v);
      case Paren(inner) => VisitExpr(inner);
      case Assign(d, rhs) => VisitAssignExpression(d, rhs);
      case Relation(_, _, _) => VisitSimpleExpression(e);
      case Arith(_, _, _) => VisitAdditiveExpression(e);
      case CallFun(id, args) => VisitCall(id, args);
    }

    /** A variable, as an address when one is required. */
    method VisitVar(v: VarRef)
      modifies this
      ensures old(requireLvalue) ==> Addr(View(), tmpVal, tmpHeld) == LowerPlace(old(View()), v)
      ensures !old(requireLvalue) ==> Tmp(View(), tmpVal, tmpTy) == LowerRef(old(View()), v)
      ensures !requireLvalue
      decreases v, 1
    {
      hide CminusfBuilder.View, LowerPlace, LowerRead;
      var asAddress := requireLvalue;
      SetRequireLvalue(false);
      VisitPlace(v);
      if !asAddress {
        ReadVar();
      }
    }

    method SetRequireLvalue(required: bool)
      modifies `requireLvalue
      ensures requireLvalue == required && View() == old(View())
    {
      requireLvalue := required;
    }

    /** The place of a variable: its own address, or that of the element at the index. */
    method VisitPlace(v: VarRef)
      requires !requireLvalue
      modifies this
      ensures Addr(View(), tmpVal, tmpHeld) == LowerPlace(old(View()), v) && !requireLvalue
      decreases v, 0
    {
      hide Append, LowerCheck, LowerElement, LowerExpr;
      var sym := scope.Find(v.id);
      if sym.Some? && sym.value.Var? {
        tmpVal, tmpHeld := sym.value.addr, sym.value.held;
        if v.index.Some? {
          VisitExpr(v.index.value);
          CheckIndex();
          ElementAddress(sym.value.addr, sym.value.held);
        }
      } else {
        aborted := true;
        tmpVal, tmpHeld := Const(0), One(Int);
      }
    }

    /** The value at the last address. */
    method ReadVar()
      modifies `code, `nextId, `tmpVal, `tmpTy
      ensures Tmp(View(), tmpVal, tmpTy) == LowerRead(Addr(old(View()), old(tmpVal), tmpHeld))
    {
      match tmpHeld {
        case One(ty) =>
          tmpVal := CreateLoad(tmpVal);
          tmpTy := ty;
        case Many(t) =>
          tmpVal := CreateGep([tmpVal, Const(0), Const(0)]);
          tmpTy := PtrTo(t);
      }
    }

    /** The branch that leaves the function when the index is negative. */
    method CheckIndex()
      modifies this
      ensures Tmp(View(), tmpVal, tmpTy) == LowerCheck(old(View()), old(tmpVal), old(tmpTy))
      ensures requireLvalue == old(requireLvalue)
    {
      hide CminusfBuilder.View, NewBlock, Forked, LowerNegative, SetInsert, EmitOp;
      var exceptBB := CreateBasicBlock();
      var contBB := CreateBasicBlock();
      IndexAsInt();
      Test("icmp_lt", exceptBB, contBB);
      ReportNegative();
      SetInsertPoint(contBB);
    }

    method IndexAsInt()
      modifies `code, `nextId, `tmpVal, `tmpTy
      ensures Tmp(View(), tmpVal, tmpTy) ==
        if old(tmpTy) == Flt then EmitOp(old(View()), FPTOSI, [old(tmpVal)], Int)
          else Tmp(old(View()), old(tmpVal), old(tmpTy))
    {
      if tmpTy == Flt {
        tmpVal := CreateOp(FPTOSI, [tmpVal]);
        tmpTy := Int;
      }
    }

    /** Compares the last value with zero and goes on where the branch leads when it holds. */
    method Test(op: string, t: Block, f: Block)
      modifies `code, `nextId, `succ, `pred, `insertBlock
      ensures View() == Forked(old(View()), op, tmpVal, t, f)
    {
      hide Append, EmitCondBr;
      var cond := CreateOp(op, [tmpVal, Const(0)]);
      CreateCondBr(cond, t, f);
      SetInsertPoint(t);
    }

    method ReportNegative()
      modifies `code, `nextId, `aborted
      ensures View() == LowerNegative(old(View()))
    {
      var fun := scope.Find(NEGATIVE_INDEX);
      if fun.Some? && fun.value.Callee? {
        Emit(Call(nextId, fun.value.name, []));
      } else {
        aborted := true;
      }
      Emit(Instr.Ret(nextId, if ret == Void then [] else [Const(0)]));
    }

    /** The address of the element at the index just visited. */
    method ElementAddress(addr: Operand, held: Held)
      modifies `code, `nextId, `tmpVal, `tmpHeld
      ensures Addr(View(), tmpVal, tmpHeld) == LowerElement(old(View()), addr, held, old(tmpVal))
    {
      match held {
        case One(t) =>
          if IsPtr(t) {
            var loaded := CreateLoad(addr);
            tmpVal := CreateGep([loaded, tmpVal]);
            tmpHeld := One(PointedTo(t));
          } else {
            tmpVal := CreateGep([addr, tmpVal]);
            tmpHeld := One(t);
          }
        case Many(t) =>
          tmpVal := CreateGep([addr, Const(0), tmpVal]);
          tmpHeld := One(t);
      }
    }

    method VisitAssignExpression(d: VarRef, rhs: Expr)
      requires !requireLvalue
      modifies this
      ensures Tmp(View(), tmpVal, tmpTy) == LowerExpr(old(View()), Assign(d, rhs)) && !requireLvalue
      decreases Assign(d, rhs), 3
    {
      hide CminusfBuilder.View, EmitStore, Coerce, LowerPlace, LowerRef;
      VisitExpr(rhs);
      var result, ty := tmpVal, tmpTy;
      SetRequireLvalue(true);
      VisitVar(d);
      var addr := tmpVal;
      if tmpHeld != One(ty) {
        Coerced(result, ty);
        result, ty := tmpVal, tmpTy;
      }
      CreateStore(result, addr);
      SetLast(result, ty);
    }

    /** Both operands, the left one first, in a common type. */
    method VisitOperands(e: Expr) returns (l: Operand, r: Operand, isInt: bool)
      requires (e.Relation? || e.Arith?) && !requireLvalue
      modifies this
      ensures Pair(View(), l, r, isInt) == LowerPair(old(View()), e) && !requireLvalue
      decreases e, 2
    {
      VisitExpr(e.l);
      l := tmpVal;
      var lTy := tmpTy;
      VisitExpr(e.r);
      r := tmpVal;
      var rTy := tmpTy;
      if lTy == rTy {
        isInt := lTy == Int;
      } else {
        isInt := false;
        if lTy == Int {
          l := CreateOp(SITOFP, [l]);
        } else {
          r := CreateOp(SITOFP, [r]);
        }
      }
    }

    method VisitSimpleExpression(e: Expr)
      requires e.Relation? && !requireLvalue
      modifies this
      ensures Tmp(View(), tmpVal, tmpTy) == LowerExpr(old(View()), e) && !requireLvalue
      decreases e, 3
    {
      var l, r, isInt := VisitOperands(e);
      var cmp := CreateOp(RelName(e.rel, isInt), [l, r]);
      tmpVal := CreateOp(ZEXT, [cmp]);
      tmpTy := Int;
    }

    method VisitAdditiveExpression(e: Expr)
      requires e.Arith? && !requireLvalue
      modifies this
      ensures Tmp(View(), tmpVal, tmpTy) == LowerExpr(old(View()), e) && !requireLvalue
      decreases e, 3
    {
      var l, r, isInt := VisitOperands(e);
      tmpVal := CreateOp(ArithName(e.op, isInt), [l, r]);
      tmpTy := Scalar(isInt);
    }

    method VisitCall(id: string, args: seq<Expr>)
      requires !requireLvalue
      modifies this
      ensures Tmp(View(), tmpVal, tmpTy) == LowerExpr(old(View()), CallFun(id, args)) && !requireLvalue
      decreases args, 1
    {
      var fun := scope.Find(id);
      if fun.None? || !fun.value.Callee? {
        aborted := true;
        tmpVal, tmpTy := Const(0), Int;
        return;
      }
      var os := VisitArgs(args, fun.value.params);
      tmpVal := Reg(nextId);
      tmpTy := fun.value.ret;
      Emit(Call(nextId, fun.value.name, os));
    }

    /** The arguments in order, each converted to the type of its parameter. */
    method VisitArgs(args: seq<Expr>, params: seq<Ty>) returns (os: seq<Operand>)
      requires !requireLvalue
      modifies this
      ensures Passed(View(), os) == LowerArgs(old(View()), args, params) && !requireLvalue
      decreases args, 0
    {
      hide LowerArgs, LowerArgument, ArgsSoFar;
      os := [];
      ghost var start := View();
      ArgsBegin(start, args, params);
      for k := 0 to |args|
        invariant |os| == k && !requireLvalue && ArgsSoFar(start, View(), args, params, k, os)
      {
        ghost var before := View();
        var o := VisitArgument(args[k], if k < |params| then Some(params[k]) else None);
        ArgsStep(start, before, args, params, k, os);
        os := os + [o];
      }
      ArgsEnd(start, View(), args, params, os);
      // A call asserts that there is an argument for each parameter.
      if |os| < |params| {
        aborted := true;
      }
    }

    method VisitArgument(e: Expr, param: Option<Ty>) returns (o: Operand)
      requires !requireLvalue
      modifies this
      ensures var r := LowerArgument(old(View()), e, param); View() == r.b && o == r.o && !requireLvalue
      decreases e, 5
    {
      hide LowerExpr, Append;
      VisitExpr(e);
      if param.None? {
        aborted := true;
      } else if !IsPtr(tmpTy) && param.value != tmpTy {
        Coerced(tmpVal, tmpTy);
      }
      o := tmpVal;
    }

    // ----- declarations and statements -----

    /** A declaration: outside functions the name of a global, inside a slot in the current block. */
    method VisitVarDeclaration(d: VarDecl)
      requires scope.inner != []
      modifies this, scope
      ensures requireLvalue == old(requireLvalue)
      ensures |old(scope.inner)| == 1 ==>
        View() == old(View()).(scope := scope.inner)
          && scope.inner == Bind(old(scope.inner), d.id, Var(Global(d.id), HeldBy(d)))
      ensures |old(scope.inner)| > 1 ==> View() == LowerDecl(old(View()), d)
    {
      if scope.InGlobal() {
        var _ := scope.Push(d.id, Var(Global(d.id), HeldBy(d)));
      } else {
        Emit(Alloca(d.site, !d.isArray));
        var _ := scope.Push(d.id, Var(Slot(d.site), HeldBy(d)));
      }
    }

    method VisitStmt(st: Stmt)
      requires !requireLvalue && scope.inner != []
      modifies this, scope
      ensures View() == LowerStmt(old(View()), st) && !requireLvalue
      ensures scope.inner == old(scope.inner)
      decreases st, 3
    {
      match st
      case Compound(ds, sts) => VisitCompoundStmt(ds, sts);
      case ExprStmt(e) =>
        if e.Some? {
          VisitExpr(e.value);
        }
      case If(_, _, _) => VisitSelectionStmt(st);
      case While(_, _) => VisitIterationStmt(st);
      case Return(_) => VisitReturnStmt(st);
    }

    method VisitCompoundStmt(ds: seq<VarDecl>, sts: seq<Stmt>)
      requires !requireLvalue && scope.inner != []
      modifies this, scope
      ensures View() == LowerStmt(old(View()), Compound(ds, sts)) && !requireLvalue
      ensures scope.inner == old(scope.inner)
      decreases sts, 1
    {
      hide LowerDecl, Append;
      scope.Enter();
      VisitDeclarations(ds);
      VisitStatements(sts);
      scope.Exit();
    }

    method VisitDeclarations(ds: seq<VarDecl>)
      requires |scope.inner| > 1
      modifies this, scope
      ensures View() == LowerDecls(old(View()), ds) && requireLvalue == old(requireLvalue) && |scope.inner| > 1
    {
      hide Append;
      ghost var start := View();
      for k := 0 to |ds|
        invariant requireLvalue == old(requireLvalue) && |scope.inner| > 1
        invariant LowerDecls(start, ds) == LowerDecls(View(), ds[k..])
      {
        assert ds[k..][0] == ds[k] && ds[k..][1..] == ds[k + 1..];
        VisitVarDeclaration(ds[k]);
      }
    }

    /** Statements in order, up to the first that ends the block. */
    method VisitStatements(sts: seq<Stmt>)
      requires !requireLvalue && scope.inner != []
      modifies this, scope
      ensures View() == LowerAll(old(View()), sts) && !requireLvalue
      ensures scope.inner == old(scope.inner)
      decreases sts, 0
    {
      hide LowerStmt;
      ghost var start := View();
      for k := 0 to |sts|
        invariant !requireLvalue && scope.inner != [] && LowerAll(start, sts) == LowerAll(View(), sts[k..])
      {
        assert sts[k..][0] == sts[k] && sts[k..][1..] == sts[k + 1..];
        VisitStmt(sts[k]);
        if HasTerminator() {
          break;
        }
      }
    }

    method BranchUnlessTerminated(t: Block)
      modifies `code, `nextId, `succ, `pred
      ensures View() == BranchTo(old(View()), t)
    {
      if !HasTerminator() {
        CreateBr(t);
      }
    }

    method VisitSelectionStmt(st: Stmt)
      requires st.If? && !requireLvalue && scope.inner != []
      modifies this, scope
      ensures View() == LowerStmt(old(View()), st) && !requireLvalue
      ensures scope.inner == old(scope.inner)
      decreases st, 2
    {
      hide CminusfBuilder.View, LowerExpr, LowerStmt, NewBlock, Forked, BranchTo, RemoveBlock, SetInsert;
      LoweringShape.IfLast(View(), st.cond, st.ifTrue, st.ifFalse);
      VisitExpr(st.cond);
      var trueBB := CreateBasicBlock();
      var falseBB := CreateBasicBlock();
      var contBB := CreateBasicBlock();
      Test(if tmpTy == Int then "icmp_ne" else "fcmp_ne", trueBB, if st.ifFalse.None? then contBB else falseBB);
      VisitStmt(st.ifTrue);
      BranchUnlessTerminated(contBB);
      VisitElse(st, falseBB, contBB);
    }

    /** The second arm, or the removal of its block when there is none. */
    method VisitElse(st: Stmt, falseBB: Block, contBB: Block)
      requires st.If? && !requireLvalue && scope.inner != []
      modifies this, scope
      ensures !requireLvalue
      ensures st.ifFalse.None? ==> View() == SetInsert(RemoveBlock(old(View()), falseBB), contBB)
      ensures st.ifFalse.Some? ==>
        View() == SetInsert(BranchTo(LowerStmt(SetInsert(old(View()), falseBB), st.ifFalse.value), contBB), contBB)
      ensures scope.inner == old(scope.inner)
      decreases st, 1
    {
      hide CminusfBuilder.View, LowerStmt, BranchTo, RemoveBlock, SetInsert;
      if st.ifFalse.None? {
        EraseFromParent(falseBB);
      } else {
        SetInsertPoint(falseBB);
        VisitStmt(st.ifFalse.value);
        BranchUnlessTerminated(contBB);
      }
      SetInsertPoint(contBB);
    }

    method VisitIterationStmt(st: Stmt)
      requires st.While? && !requireLvalue && scope.inner != []
      modifies this, scope
      ensures View() == LowerStmt(old(View()), st) && !requireLvalue
      ensures scope.inner == old(scope.inner)
      decreases st, 2
    {
      hide CminusfBuilder.View, LowerExpr, LowerStmt, NewBlock, Forked, BranchTo, SetInsert;
      LoweringShape.WhileLast(View(), st.cond, st.body);
      var exprBB := CreateBasicBlock();
      BranchUnlessTerminated(exprBB);
      SetInsertPoint(exprBB);
      VisitExpr(st.cond);
      var trueBB := CreateBasicBlock();
      var contBB := CreateBasicBlock();
      Test(if tmpTy == Int then "icmp_ne" else "fcmp_ne", trueBB, contBB);
      VisitStmt(st.body);
      BranchUnlessTerminated(exprBB);
      SetInsertPoint(contBB);
    }

    method VisitReturnStmt(st: Stmt)
      requires st.Return? && !requireLvalue
      modifies this, scope
      ensures View() == LowerStmt(old(View()), st) && !requireLvalue
      ensures scope.inner == old(scope.inner)
      decreases st, 2
    {
      if st.value.None? {
        Emit(Instr.Ret(nextId, []));
      } else {
        VisitExpr(st.value.value);
        if ret != tmpTy {
          tmpVal := CreateOp(if ret == Int then FPTOSI else SITOFP, [tmpVal]);
        }
        Emit(Instr.Ret(nextId, [tmpVal]));
      }
    }

    // ----- functions -----

    /** A function: its name is bound outside it, and everything else is as the lowering of a function says. */
    method VisitFunDeclaration(f: FunDecl)
      requires |scope.inner| == 1 && !requireLvalue
      modifies this, scope
      ensures scope.inner == Bind(old(scope.inner), f.name, Callee(f.name, f.ret, ParamTypes(f.params)))
      ensures View() == LowerFun(f, scope.inner[0], old(nextId)).(scope := scope.inner) && !requireLvalue
    {
      hide CminusfBuilder.View, LowerStmt, LowerParams;
      BeginFunction(f);
      ViewScope();
      VisitParams(f.params);
      VisitStmt(f.body);
      ReturnUnlessTerminated(f.ret);
      ViewScope();
      EndFunction();
    }

    lemma ViewScope()
      ensures View().scope == scope.inner
    {
    }

    method ReturnUnlessTerminated(ret: Ty)
      modifies `code, `nextId
      ensures View() == if old(View()).Terminated() then old(View()) else EmitRet(old(View()), DefaultOperands(ret))
    {
      if !HasTerminator() {
        Emit(Instr.Ret(nextId, if ret == Void then [] else [Const(0)]));
      }
    }

    method BeginFunction(f: FunDecl)
      requires |scope.inner| == 1
      modifies this, scope
      ensures |scope.inner| == 2
      ensures [scope.inner[0]] == Bind(old(scope.inner), f.name, Callee(f.name, f.ret, ParamTypes(f.params)))
      ensures View() == Begin(f.ret, scope.inner[0], old(nextId)) && requireLvalue == old(requireLvalue)
    {
      var _ := scope.Push(f.name, Callee(f.name, f.ret, ParamTypes(f.params)));
      ret := f.ret;
      blocks, code, succ, pred := [ENTRY], map[ENTRY := []], map[ENTRY := []], map[ENTRY := []];
      insertBlock, nextBlock, aborted := ENTRY, ENTRY + 1, false;
      scope.Enter();
    }

    method EndFunction()
      requires scope.inner != []
      modifies scope
      ensures View() == old(View()).(scope := Leave(old(View()).scope)) && scope.inner == View().scope
    {
      scope.Exit();
    }

    method VisitParams(ds: seq<VarDecl>)
      requires scope.inner != []
      modifies this, scope
      ensures View() == LowerParams(old(View()), ds, 0) && requireLvalue == old(requireLvalue) && scope.inner != []
    {
      ghost var start := View();
      for k := 0 to |ds|
        invariant requireLvalue == old(requireLvalue) && scope.inner != []
        invariant LowerParams(start, ds, 0) == LowerParams(View(), ds, k)
      {
        VisitParam(ds[k], k);
      }
    }

    method VisitParam(d: VarDecl, k: nat)
      requires scope.inner != []
      modifies this, scope
      ensures View() == LowerParam(old(View()), d, k) && requireLvalue == old(requireLvalue) && scope.inner != []
    {
      Emit(Alloca(d.site, !d.isArray));
      Emit(Store(nextId, Arg(k), Slot(d.site)));
      var _ := scope.Push(d.id, Var(Slot(d.site), One(ParamTy(d))));
    }
  }

  /** An argument for a parameter, if there is one. */
  function LowerArgument(b: Builder, e: Expr, param: Option<Ty>): Tmp {
    var x := LowerExpr(b, e);
    if param.None? then Tmp(Abort(x.b), x.o, x.ty) else Argument(x.b, x.o, x.ty, param.value)
  }

  /** The parameters from the `k`-th on, if there are any. */
  function ParamsFrom(params: seq<Ty>, k: nat): seq<Ty> {
    if k <= |params| then params[k..] else []
  }

  /** The first `k` arguments have been lowered to `os`, and the rest is still to come. */
  ghost predicate ArgsSoFar(start: Builder, now: Builder, args: seq<Expr>, params: seq<Ty>, k: nat, os: seq<Operand>) {
    && k <= |args|
    && var rest := LowerArgs(now, args[k..], ParamsFrom(params, k));
       LowerArgs(start, args, params) == Passed(rest.b, os + rest.os)
  }

  lemma ArgsBegin(start: Builder, args: seq<Expr>, params: seq<Ty>)
    ensures ArgsSoFar(start, start, args, params, 0, [])
  {
    hide LowerArgs;
    assert args[0..] == args && params[0..] == params;
    var r := LowerArgs(start, args, params);
    assert [] + r.os == r.os;
  }

  lemma ArgsStep(start: Builder, now: Builder, args: seq<Expr>, params: seq<Ty>, k: nat, os: seq<Operand>)
    requires k < |args| && ArgsSoFar(start, now, args, params, k, os)
    ensures var y := LowerArgument(now, args[k], if k < |params| then Some(params[k]) else None);
      ArgsSoFar(start, y.b, args, params, k + 1, os + [y.o])
  {
    hide LowerArgs, LowerArgument;
    ArgsNext(now, args, params, k);
    var y := LowerArgument(now, args[k], if k < |params| then Some(params[k]) else None);
    var rest := LowerArgs(y.b, args[k + 1..], ParamsFrom(params, k + 1));
    assert os + ([y.o] + rest.os) == (os + [y.o]) + rest.os;
  }

  lemma ArgsEnd(start: Builder, now: Builder, args: seq<Expr>, params: seq<Ty>, os: seq<Operand>)
    requires ArgsSoFar(start, now, args, params, |args|, os)
    ensures LowerArgs(start, args, params) == Passed(if |args| < |params| then Abort(now) else now, os)
  {
    assert args[|args|..] == [] && os + [] == os;
    assert |args| < |params| ==> params[|args|..] != [];
  }

  lemma ArgsNext(b: Builder, args: seq<Expr>, params: seq<Ty>, k: nat)
    requires k < |args|
    ensures var y := LowerArgument(b, args[k], if k < |params| then Some(params[k]) else None);
      var rest := LowerArgs(y.b, args[k + 1..], ParamsFrom(params, k + 1));
      LowerArgs(b, args[k..], ParamsFrom(params, k)) == Passed(rest.b, [y.o] + rest.os)
  {
    hide LowerExpr, Coerce, Abort;
    assert args[k..][0] == args[k] && args[k..][1..] == args[k + 1..];
    if k < |params| {
      assert params[k..][0] == params[k] && params[k..][1..] == params[k + 1..];
    }
  }

  /** The types of the parameters: numbers, or pointers to numbers. */
  function ParamTypes(ds: seq<VarDecl>): (r: seq<Ty>)
    ensures |r| == |ds| && forall k {:trigger r[k]} :: 0 <= k < |r| ==>
      r[k] == if ds[k].isArray then if ds[k].isInt then IntPtr else FltPtr else if ds[k].isInt then Int else Flt
  {
    seq(|ds|, k requires 0 <= k < |ds| => ParamTy(ds[k]))
  }
}
