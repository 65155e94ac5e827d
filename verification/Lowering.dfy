/** The lowering of C-minus functions to blocks, as a function of the tree and the state of the builder. */
module Lowering {
  import opened ControlFlow
  import opened IR
  import opened Scopes
  import opened Syntax

  /** What the builder has bound a name to: the address of a variable, or a function. */
  datatype Symbol = Var(addr: Operand, held: Held) | Callee(name: string, ret: Ty, params: seq<Ty>)

  /** The function under construction, the block instructions are appended to, and the scopes, innermost
      last.  `aborted` records that an assertion of the builder has failed. */
  datatype Builder = Builder(
    ret: Ty, blocks: seq<Block>, code: map<Block, seq<Instr>>, succ: map<Block, seq<Block>>, pred: map<Block,
      seq<Block>>,
    cur: Block, nextId: Id, nextBlock: Block, scope: seq<map<string, Symbol>>, aborted: bool)
  {
    function Code(b: Block): seq<Instr> {
      if b in code then code[b] else []
    }

    /** The block appended to ends in a branch or return. */
    predicate Terminated() {
      Code(cur) != [] && Code(cur)[|Code(cur)| - 1].IsTerminator()
    }

    function Succ(b: Block): seq<Block> {
      if b in succ then succ[b] else []
    }

    function Pred(b: Block): seq<Block> {
      if b in pred then pred[b] else []
    }
  }

  /** The last value produced and its type. */
  datatype Tmp = Tmp(b: Builder, o: Operand, ty: Ty)

  /** The last address produced and what it is the address of. */
  datatype Addr = Addr(b: Builder, o: Operand, held: Held)

  datatype Pair = Pair(b: Builder, x: Operand, y: Operand, isInt: bool)

  datatype Passed = Passed(b: Builder, os: seq<Operand>)

  // ----- instructions and blocks -----

  function Append(b: Builder, i: Instr): Builder {
    b.(code := b.code[b.cur := b.Code(b.cur) + [i]], nextId := b.nextId + 1)
  }

  function EmitOp(b: Builder, op: string, args: seq<Operand>, ty: Ty): Tmp {
    Tmp(Append(b, Op(b.nextId, op, args)), Reg(b.nextId), ty)
  }

  function EmitLoad(b: Builder, addr: Operand, ty: Ty): Tmp {
    Tmp(Append(b, Load(b.nextId, addr)), Reg(b.nextId), ty)
  }

  function EmitGep(b: Builder, args: seq<Operand>, elem: Ty): Addr {
    Addr(Append(b, Gep(b.nextId, args)), Elem(b.nextId), One(elem))
  }

  function EmitStore(b: Builder, o: Operand, addr: Operand): Builder {
    Append(b, Store(b.nextId, o, addr))
  }

  function EmitCall(b: Builder, name: string, args: seq<Operand>, ret: Ty): Tmp {
    Tmp(Append(b, Call(b.nextId, name, args)), Reg(b.nextId), ret)
  }

  function EmitRet(b: Builder, args: seq<Operand>): Builder {
    Append(b, Instr.Ret(b.nextId, args))
  }

  function EmitBr(b: Builder, t: Block): Builder {
    Append(b.(pred := b.pred[t := b.Pred(t) + [b.cur]], succ := b.succ[b.cur := b.Succ(b.cur) + [t]]), Br(b.nextId, t))
  }

  function EmitCondBr(b: Builder, c: Operand, t: Block, f: Block): Builder {
    var b1 := b.(pred := b.pred[t := b.Pred(t) + [b.cur]]);
    var b2 := b1.(pred := b1.pred[f := b1.Pred(f) + [b.cur]], succ := b.succ[b.cur := b.Succ(b.cur) + [f, t]]);
    Append(b2, CondBr(b.nextId, c, t, f))
  }

  function NewBlock(b: Builder): Builder {
    b.(blocks := b.blocks + [b.nextBlock], code := b.code[b.nextBlock := []], succ := b.succ[b.nextBlock := []],
       pred := b.pred[b.nextBlock := []], nextBlock := b.nextBlock + 1)
  }

  function SetInsert(b: Builder, x: Block): Builder {
    b.(cur := x)
  }

  function Without(s: seq<Block>, x: Block): seq<Block> {
    if s == [] then [] else if s[0] == x then Without(s[1..], x) else [s[0]] + Without(s[1..], x)
  }

  /** Takes a block and the edges at it out of the function. */
  function RemoveBlock(b: Builder, x: Block): Builder {
    b.(blocks := Without(b.blocks, x), code := b.code - {x},
       succ := map p | p in b.succ && p != x :: if p in b.Pred(x) then Without(b.succ[p], x) else b.succ[p],
       pred := map s | s in b.pred && s != x :: if s in b.Succ(x) then Without(b.pred[s], x) else b.pred[s])
  }

  function Abort(b: Builder): Builder {
    b.(aborted := true)
  }

  /** An int becomes a float, and anything else an int. */
  function Coerce(b: Builder, o: Operand, ty: Ty): Tmp {
    if ty == Int then EmitOp(b, SITOFP, [o], Flt) else EmitOp(b, FPTOSI, [o], Int)
  }

  /** A comparison with zero, a branch on the result, and the move to its first target. */
  function Forked(b: Builder, op: string, o: Operand, t: Block, f: Block): Builder {
    var n := EmitOp(b, op, [o, Const(0)], Int);
    SetInsert(EmitCondBr(n.b, n.o, t, f), t)
  }

  /** The comparison that tests a condition. */
  function TestName(ty: Ty): string {
    if ty == Int then "icmp_ne" else "fcmp_ne"
  }

  function DefaultOperands(ret: Ty): seq<Operand> {
    if ret == Void then [] else [Const(0)]
  }

  // ----- expressions -----

  function LowerExpr(b: Builder, e: Expr): (r: Tmp)
    ensures r.b.scope == b.scope
    decreases e, 2
  {
    match e
    case Num(isInt, n) => Tmp(b, Const(n), Scalar(isInt))
    case Ref(v) => LowerRef(b, v)
    case Paren(inner) => LowerExpr(b, inner)
    case Assign(d, rhs) =>
      var x := LowerExpr(b, rhs);
      var p := LowerPlace(x.b, d);
      var y := if p.held == One(x.ty) then Tmp(p.b, x.o, x.ty) else Coerce(p.b, x.o, x.ty);
      Tmp(EmitStore(y.b, y.o, p.o), y.o, y.ty)
    case Relation(op, _, _) =>
      var p := LowerPair(b, e);
      var c := EmitOp(p.b, RelName(op, p.isInt), [p.x, p.y], Int);
      EmitOp(c.b, ZEXT, [c.o], Int)
    case Arith(op, _, _) =>
      var p := LowerPair(b, e);
      EmitOp(p.b, ArithName(op, p.isInt), [p.x, p.y], Scalar(p.isInt))
    case CallFun(id, args) =>
      match Lookup<Symbol>(b.scope, id)
      case Some(Callee(name, ret, params)) =>
        var a := LowerArgs(b, args, params);
        EmitCall(a.b, name, a.os, ret)
      case _ => Tmp(Abort(b), Const(0), Int)
  }

  /** The value at an address; an array as a value is the address of its first element. */
  function LowerRead(p: Addr): Tmp {
    match p.held
    case One(ty) => EmitLoad(p.b, p.o, ty)
    case Many(t) =>
      var g := EmitGep(p.b, [p.o, Const(0), Const(0)], t);
      Tmp(g.b, g.o, PtrTo(t))
  }

  /** A variable as a value. */
  function LowerRef(b: Builder, v: VarRef): (r: Tmp)
    ensures r.b.scope == b.scope
    decreases v, 1
  {
    LowerRead(LowerPlace(b, v))
  }

  /** A variable as an address. */
  function LowerPlace(b: Builder, v: VarRef): (r: Addr)
    ensures r.b.scope == b.scope
    decreases v, 0
  {
    match Lookup<Symbol>(b.scope, v.id)
    case Some(Var(addr, held)) =>
      (match v.index
       case None => Addr(b, addr, held)
       case Some(i) =>
         var x := LowerExpr(b, i);
         var k := LowerCheck(x.b, x.o, x.ty);
         LowerElement(k.b, addr, held, k.o))
    case _ => Addr(Abort(b), Const(0), One(Int))
  }

  /** Leaves the function if the index is negative; the result is the index as an int. */
  function LowerCheck(b: Builder, o: Operand, ty: Ty): (r: Tmp)
    ensures r.b.scope == b.scope
  {
    var except, cont := b.nextBlock, b.nextBlock + 1;
    var k := Index(b, o, ty);
    var b2 := Forked(k.b, "icmp_lt", k.o, except, cont);
    Tmp(SetInsert(LowerNegative(b2), cont), k.o, k.ty)
  }

  /** The index as an int, after the blocks of the check have been made. */
  function Index(b: Builder, o: Operand, ty: Ty): Tmp {
    var b1 := NewBlock(NewBlock(b));
    if ty == Flt then EmitOp(b1, FPTOSI, [o], Int) else Tmp(b1, o, ty)
  }

  function LowerNegative(b: Builder): (r: Builder)
    ensures r.scope == b.scope
  {
    match Lookup<Symbol>(b.scope, NEGATIVE_INDEX)
    case Some(Callee(name, ret, _)) => EmitRet(EmitCall(b, name, [], ret).b, DefaultOperands(b.ret))
    case _ => EmitRet(Abort(b), DefaultOperands(b.ret))
  }

  function LowerElement(b: Builder, addr: Operand, held: Held, k: Operand): (r: Addr)
    ensures r.b.scope == b.scope
  {
    match held
    case One(t) =>
      if IsPtr(t) then
        var l := EmitLoad(b, addr, t);
        EmitGep(l.b, [l.o, k], PointedTo(t))
      else EmitGep(b, [addr, k], t)
    case Many(t) => EmitGep(b, [addr, Const(0), k], t)
  }

  /** Both operands, in a common type. */
  function LowerPair(b: Builder, e: Expr): (r: Pair)
    requires e.Relation? || e.Arith?
    ensures r.b.scope == b.scope
    decreases e, 1
  {
    var l := LowerExpr(b, e.l);
    var r := LowerExpr(l.b, e.r);
    Unify(r.b, l.o, l.ty, r.o, r.ty)
  }

  function Unify(b: Builder, x: Operand, tx: Ty, y: Operand, ty: Ty): Pair {
    if tx == ty then Pair(b, x, y, tx == Int)
    else if tx == Int then
      var c := EmitOp(b, SITOFP, [x], Flt);
      Pair(c.b, c.o, y, false)
    else
      var c := EmitOp(b, SITOFP, [y], Flt);
      Pair(c.b, x, c.o, false)
  }

  /** An argument as it is passed. */
  function Argument(b: Builder, o: Operand, ty: Ty, param: Ty): (r: Tmp)
    ensures r.b.scope == b.scope
  {
    if !IsPtr(ty) && param != ty then Coerce(b, o, ty) else Tmp(b, o, ty)
  }

  /** The arguments of a call, each as it is passed; there must be as many of them as parameters. */
  function LowerArgs(b: Builder, args: seq<Expr>, params: seq<Ty>): (r: Passed)
    ensures r.b.scope == b.scope
    decreases args, 0
  {
    if args == [] then Passed(if params == [] then b else Abort(b), [])
    else
      var x := LowerExpr(b, args[0]);
      if params == [] then
        var rest := LowerArgs(Abort(x.b), args[1..], []);
        Passed(rest.b, [x.o] + rest.os)
      else
        var y := Argument(x.b, x.o, x.ty, params[0]);
        var rest := LowerArgs(y.b, args[1..], params[1..]);
        Passed(rest.b, [y.o] + rest.os)
  }

  // ----- statements -----

  /** What the place of a declared variable holds. */
  function HeldBy(d: VarDecl): Held {
    if d.isArray then Many(Scalar(d.isInt)) else One(Scalar(d.isInt))
  }

  function LowerDecl(b: Builder, d: VarDecl): Builder {
    var b1 := Append(b, Alloca(d.site, !d.isArray));
    b1.(scope := Bind(b1.scope, d.id, Var(Slot(d.site), HeldBy(d))))
  }

  function LowerDecls(b: Builder, ds: seq<VarDecl>): (r: Builder)
    ensures |r.scope| == |b.scope| && Leave(r.scope) == Leave(b.scope)
    decreases |ds|
  {
    if ds == [] then b else LowerDecls(LowerDecl(b, ds[0]), ds[1..])
  }

  function BranchTo(b: Builder, t: Block): Builder {
    if b.Terminated() then b else EmitBr(b, t)
  }

  function LowerStmt(b: Builder, st: Stmt): (r: Builder)
    ensures r.scope == b.scope
    decreases st, 1
  {
    match st
    case Compound(ds, sts) =>
      var b1 := LowerAll(LowerDecls(b.(scope := b.scope + [map[]]), ds), sts);
      b1.(scope := Leave(b1.scope))
    case ExprStmt(None) => b
    case ExprStmt(Some(e)) => LowerExpr(b, e).b
    case If(c, t, f) => LowerIf(b, c, t, f)
    case While(c, body) => LowerWhile(b, c, body)
    case Return(None) => EmitRet(b, [])
    case Return(Some(e)) =>
      var x := LowerExpr(b, e);
      var y := LowerReturned(x.b, x.o, x.ty);
      EmitRet(y.b, [y.o])
  }

  /** The condition of an `if` has been lowered and tested, and its first arm is next. */
  function IfStart(b: Builder, c: Expr, hasElse: bool): (r: Builder)
    ensures r.scope == b.scope
  {
    var x := LowerExpr(b, c);
    var n := x.b.nextBlock;
    Forked(NewBlock(NewBlock(NewBlock(x.b))), TestName(x.ty), x.o, n, if hasElse then n + 1 else n + 2)
  }

  /** Blocks for the first arm, the second and what follows; without a second arm its block is taken out again. */
  function LowerIf(b: Builder, c: Expr, t: Stmt, f: Option<Stmt>): (r: Builder)
    ensures r.scope == b.scope
    decreases If(c, t, f), 0
  {
    var n := LowerExpr(b, c).b.nextBlock;
    var b2 := BranchTo(LowerStmt(IfStart(b, c, f.Some?), t), n + 2);
    if f.None? then SetInsert(RemoveBlock(b2, n + 1), n + 2)
    else SetInsert(BranchTo(LowerStmt(SetInsert(b2, n + 1), f.value), n + 2), n + 2)
  }

  /** The block of the condition of a `while`. */
  function WhileStart(b: Builder): (r: Builder)
    ensures r.scope == b.scope
  {
    SetInsert(BranchTo(NewBlock(b), b.nextBlock), b.nextBlock)
  }

  /** The condition has been lowered and tested, and the body is next. */
  function WhileBody(b: Builder, c: Expr): (r: Builder)
    ensures r.scope == b.scope
  {
    var x := LowerExpr(WhileStart(b), c);
    Forked(NewBlock(NewBlock(x.b)), TestName(x.ty), x.o, x.b.nextBlock, x.b.nextBlock + 1)
  }

  function LowerWhile(b: Builder, c: Expr, body: Stmt): (r: Builder)
    ensures r.scope == b.scope
    decreases While(c, body), 0
  {
    SetInsert(BranchTo(LowerStmt(WhileBody(b, c), body), b.nextBlock), LowerExpr(WhileStart(b), c).b.nextBlock + 1)
  }

  /** The value in the return type of the function. */
  function LowerReturned(b: Builder, o: Operand, ty: Ty): Tmp {
    if b.ret == ty then Tmp(b, o, ty)
    else if b.ret == Int then EmitOp(b, FPTOSI, [o], Int)
    else EmitOp(b, SITOFP, [o], Flt)
  }

  /** Statements in order, up to the first that ends the block. */
  function LowerAll(b: Builder, sts: seq<Stmt>): (r: Builder)
    ensures r.scope == b.scope
    decreases sts, 0
  {
    if sts == [] then b
    else
      var b1 := LowerStmt(b, sts[0]);
      if b1.Terminated() then b1 else LowerAll(b1, sts[1..])
  }

  // ----- functions -----

  /** A parameter gets a slot that holds the argument. */
  function LowerParam(b: Builder, d: VarDecl, i: nat): Builder {
    var b1 := Append(b, Alloca(d.site, !d.isArray));
    var b2 := EmitStore(b1, Arg(i), Slot(d.site));
    b2.(scope := Bind(b2.scope, d.id, Var(Slot(d.site), One(ParamTy(d)))))
  }

  function LowerParams(b: Builder, ds: seq<VarDecl>, i: nat): (r: Builder)
    requires i <= |ds|
    ensures |r.scope| == |b.scope| && Leave(r.scope) == Leave(b.scope)
    decreases |ds| - i
  {
    if i == |ds| then b else LowerParams(LowerParam(b, ds[i], i), ds, i + 1)
  }

  const ENTRY: Block := 0

  /** A builder about to lower a function: identities below `firstId` are those of declarations. */
  function Begin(ret: Ty, globals: map<string, Symbol>, firstId: Id): Builder {
    Builder(ret, [ENTRY], map[ENTRY := []], map[ENTRY := []], map[ENTRY := []], ENTRY, firstId, ENTRY + 1,
            [globals, map[]], false)
  }

  function LowerFun(f: FunDecl, globals: map<string, Symbol>, firstId: Id): Builder {
    var b := LowerStmt(LowerParams(Begin(f.ret, globals, firstId), f.params, 0), f.body);
    if b.Terminated() then b else EmitRet(b, DefaultOperands(f.ret))
  }
}
