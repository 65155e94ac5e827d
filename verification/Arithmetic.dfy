/** What the instructions compute in a world where each means what its name says, and so what the operators of C-minus
    compute, in the source and in lowered code. */
module Arithmetic {
  import opened ControlFlow
  import opened IR
  import opened Scopes
  import opened Syntax
  import opened SourceSemantics
  import opened Lowering
  import opened LoweringShape
  import opened LoweringMeaning

  // ----- numbers -----

  /** Floats by their encodings: comparing, calculating, and converting from and to ints. */
  datatype Floats = Floats(compare: (RelOp, Val, Val) -> bool, compute: (ArithOp, Val, Val) -> Val, ofInt: Val -> Val,
                           toInt: Val -> Val)

  /** The int of 32 bits that is congruent to the number. */
  function Wrap(x: int): int {
    (x + 0x8000_0000) % 0x1_0000_0000 - 0x8000_0000
  }

  /** Division rounds towards zero. */
  function Quotient(x: int, y: int): int
    requires y != 0
  {
    if x >= 0 then x / y else -(-x / y)
  }

  lemma QuotientTruncates(x: int, y: int)
    requires y != 0
    ensures var r := x - Quotient(x, y) * y;
      (x >= 0 ==> 0 <= r) && (x <= 0 ==> r <= 0) && (y > 0 ==> -y < r < y) && (y < 0 ==> y < r < -y)
  {
    if x < 0 {
      assert x - Quotient(x, y) * y == -(-x - (-x / y) * y);
    }
  }

  function Bit(b: bool): Val {
    if b then 1 else 0
  }

  /** Instructions mean what their names say. */
  ghost predicate Standard(w: World, fl: Floats) {
    IntComparisons(w) && FloatComparisons(w, fl) && IntArithmetic(w) && FloatArithmetic(w, fl) && Conversions(w, fl)
  }

  ghost predicate IntComparisons(w: World) {
    && (forall x, y {:trigger w.op("icmp_le", [x, y])} :: w.op("icmp_le", [x, y]) == Bit(x <= y))
    && (forall x, y {:trigger w.op("icmp_lt", [x, y])} :: w.op("icmp_lt", [x, y]) == Bit(x < y))
    && (forall x, y {:trigger w.op("icmp_gt", [x, y])} :: w.op("icmp_gt", [x, y]) == Bit(x > y))
    && (forall x, y {:trigger w.op("icmp_ge", [x, y])} :: w.op("icmp_ge", [x, y]) == Bit(x >= y))
    && (forall x, y {:trigger w.op("icmp_eq", [x, y])} :: w.op("icmp_eq", [x, y]) == Bit(x == y))
    && (forall x, y {:trigger w.op("icmp_ne", [x, y])} :: w.op("icmp_ne", [x, y]) == Bit(x != y))
  }

  ghost predicate FloatComparisons(w: World, fl: Floats) {
    && (forall x, y {:trigger w.op("fcmp_le", [x, y])} :: w.op("fcmp_le", [x, y]) == Bit(fl.compare(LessEq, x, y)))
    && (forall x, y {:trigger w.op("fcmp_lt", [x, y])} :: w.op("fcmp_lt", [x, y]) == Bit(fl.compare(Less, x, y)))
    && (forall x, y {:trigger w.op("fcmp_gt", [x, y])} :: w.op("fcmp_gt", [x, y]) == Bit(fl.compare(Greater, x, y)))
    && (forall x, y {:trigger w.op("fcmp_ge", [x, y])} :: w.op("fcmp_ge", [x, y]) == Bit(fl.compare(GreaterEq, x, y)))
    && (forall x, y {:trigger w.op("fcmp_eq", [x, y])} :: w.op("fcmp_eq", [x, y]) == Bit(fl.compare(Equal, x, y)))
    && (forall x, y {:trigger w.op("fcmp_ne", [x, y])} :: w.op("fcmp_ne", [x, y]) == Bit(fl.compare(NotEqual, x, y)))
  }

  ghost predicate IntArithmetic(w: World) {
    && (forall x, y {:trigger w.op("add", [x, y])} :: w.op("add", [x, y]) == Wrap(x + y))
    && (forall x, y {:trigger w.op("sub", [x, y])} :: w.op("sub", [x, y]) == Wrap(x - y))
    && (forall x, y {:trigger w.op("mul", [x, y])} :: w.op("mul", [x, y]) == Wrap(x * y))
    && (forall x, y {:trigger w.op("sdiv", [x, y])} :: y != 0 ==> w.op("sdiv", [x, y]) == Wrap(Quotient(x, y)))
  }

  ghost predicate FloatArithmetic(w: World, fl: Floats) {
    && (forall x, y {:trigger w.op("fadd", [x, y])} :: w.op("fadd", [x, y]) == fl.compute(Plus, x, y))
    && (forall x, y {:trigger w.op("fsub", [x, y])} :: w.op("fsub", [x, y]) == fl.compute(Minus, x, y))
    && (forall x, y {:trigger w.op("fmul", [x, y])} :: w.op("fmul", [x, y]) == fl.compute(Times, x, y))
    && (forall x, y {:trigger w.op("fdiv", [x, y])} :: w.op("fdiv", [x, y]) == fl.compute(Divide, x, y))
  }

  ghost predicate Conversions(w: World, fl: Floats) {
    && (forall x {:trigger w.op("zext", [x])} :: w.op("zext", [x]) == x)
    && (forall x {:trigger w.op("sitofp", [x])} :: w.op("sitofp", [x]) == fl.ofInt(x))
    && (forall x {:trigger w.op("fptosi", [x])} :: w.op("fptosi", [x]) == fl.toInt(x))
  }

  // ----- what operators compute -----

  predicate Numeric(t: Ty) {
    t == Int || t == Flt
  }

  function AsFloat(fl: Floats, x: Typed): Val {
    if x.ty == Int then fl.ofInt(x.v) else x.v
  }

  /** Two numbers compare as ints if both are ints, and as floats otherwise. */
  predicate Compares(fl: Floats, rel: RelOp, x: Typed, y: Typed) {
    if x.ty != Int || y.ty != Int then fl.compare(rel, AsFloat(fl, x), AsFloat(fl, y))
    else match rel
         case LessEq => x.v <= y.v
         case Less => x.v < y.v
         case Greater => x.v > y.v
         case GreaterEq => x.v >= y.v
         case Equal => x.v == y.v
         case NotEqual => x.v != y.v
  }

  /** Ints have no quotient by zero. */
  predicate Defined(op: ArithOp, x: Typed, y: Typed) {
    Numeric(x.ty) && Numeric(y.ty) && (op == Divide && x.ty == Int && y.ty == Int ==> y.v != 0)
  }

  /** Two ints give an int of 32 bits, and other numbers a float. */
  function Calculates(fl: Floats, op: ArithOp, x: Typed, y: Typed): Typed
    requires Defined(op, x, y)
  {
    if x.ty != Int || y.ty != Int then Typed(fl.compute(op, AsFloat(fl, x), AsFloat(fl, y)), Flt)
    else Typed(Wrap(match op
                    case Plus => x.v + y.v
                    case Minus => x.v - y.v
                    case Times => x.v * y.v
                    case Divide => Quotient(x.v, y.v)), Int)
  }

  /** A number in the other type of numbers, or as it is. */
  function Converts(fl: Floats, x: Typed, to: Ty): Val {
    if x.ty == Int && to == Flt then fl.ofInt(x.v) else if x.ty == Flt && to == Int then fl.toInt(x.v) else x.v
  }

  /** A number other than zero. */
  predicate NonZero(fl: Floats, x: Typed) {
    if x.ty == Int then x.v != 0 else fl.compare(NotEqual, x.v, 0)
  }

  // ----- the names -----

  lemma NamedComparison(w: World, fl: Floats, rel: RelOp, x: Val, y: Val)
    requires IntComparisons(w) && FloatComparisons(w, fl)
    ensures w.op(RelName(rel, true), [x, y]) == Bit(Compares(fl, rel, Typed(x, Int), Typed(y, Int)))
    ensures w.op(RelName(rel, false), [x, y]) == Bit(fl.compare(rel, x, y))
  {
  }

  lemma NamedArithmetic(w: World, fl: Floats, op: ArithOp, x: Val, y: Val)
    requires IntArithmetic(w) && FloatArithmetic(w, fl)
    ensures Defined(op, Typed(x, Int), Typed(y, Int)) ==>
      w.op(ArithName(op, true), [x, y]) == Calculates(fl, op, Typed(x, Int), Typed(y, Int)).v
    ensures w.op(ArithName(op, false), [x, y]) == fl.compute(op, x, y)
  {
    hide Wrap, Quotient;
  }

  lemma NamedConversion(w: World, fl: Floats, x: Val)
    requires Conversions(w, fl)
    ensures w.op(ZEXT, [x]) == x && w.op(SITOFP, [x]) == fl.ofInt(x) && w.op(FPTOSI, [x]) == fl.toInt(x)
  {
  }

  lemma PromotedPair(w: World, fl: Floats, x: Typed, y: Typed)
    requires Conversions(w, fl) && Numeric(x.ty) && Numeric(y.ty)
    ensures Promote(w, x, y) ==
      if x.ty == Int && y.ty == Int then Some((x.v, y.v, true)) else Some((AsFloat(fl, x), AsFloat(fl, y), false))
  {
    NamedConversion(w, fl, x.v);
    NamedConversion(w, fl, y.v);
  }

  lemma ConvertedNumber(w: World, fl: Floats, x: Typed, to: Ty)
    requires Conversions(w, fl) && Numeric(x.ty) && Numeric(to)
    ensures Convert(w, x, to) == Some(Converts(fl, x, to))
  {
    NamedConversion(w, fl, x.v);
  }

  // ----- expressions -----

  /** A comparison gives 1 exactly if the operands compare that way, and 0 otherwise. */
  lemma ComparisonValue(w: World, fl: Floats, e: Expr, src: Source, x: Typed, y: Typed, src1: Source, src2: Source)
    requires Standard(w, fl) && e.Relation? && Numeric(x.ty) && Numeric(y.ty)
    requires EvalExpr(w, e.l, src) == Got(x, src1) && EvalExpr(w, e.r, src1) == Got(y, src2)
    ensures EvalExpr(w, e, src) == Got(Typed(if Compares(fl, e.rel, x, y) then 1 else 0, Int), src2)
  {
    hide Compares, IntComparisons, FloatComparisons, Conversions, RelName;
    PromotedPair(w, fl, x, y);
    var p := Promote(w, x, y).value;
    NamedComparison(w, fl, e.rel, p.0, p.1);
    NamedConversion(w, fl, w.op(RelName(e.rel, p.2), [p.0, p.1]));
    assert Compares(fl, e.rel, x, y) == if p.2 then Compares(fl, e.rel, Typed(p.0, Int), Typed(p.1, Int))
        else fl.compare(e.rel, p.0, p.1) by {
      ComparesPromoted(fl, e.rel, x, y);
    }
  }

  /** The code of a comparison computes the same. */
  lemma ComparisonComputed(w: World, fl: Floats, code: map<Block, seq<Instr>>, b: Builder, e: Expr, s: State,
                           src: Source, x: Typed, y: Typed, src1: Source, src2: Source) returns (n: nat, s': State)
    requires Standard(w, fl) && e.Relation? && Starts(w, b, s, src) && Completes(code, LowerExpr(b, e).b)
    requires EvalExpr(w, e.l, src) == Got(x, src1) && EvalExpr(w, e.r, src1) == Got(y, src2)
    requires Numeric(x.ty) && Numeric(y.ty)
    ensures Evaluated(w, code, b, LowerExpr(b, e), s, n, s',
                      Got(Typed(if Compares(fl, e.rel, x, y) then 1 else 0, Int), src2))
  {
    hide Evaluated, Starts, Completes, LowerExpr, EvalExpr, Standard;
    ComparisonValue(w, fl, e, src, x, y, src1, src2);
    n, s' := ExprMeans(w, code, b, e, s, src);
  }

  lemma ComparesPromoted(fl: Floats, rel: RelOp, x: Typed, y: Typed)
    ensures x.ty == Int && y.ty == Int ==>
      Compares(fl, rel, x, y) == Compares(fl, rel, Typed(x.v, Int), Typed(y.v, Int))
    ensures x.ty != Int || y.ty != Int ==> Compares(fl, rel, x, y) == fl.compare(rel, AsFloat(fl, x), AsFloat(fl, y))
  {
  }

  /** A sum, difference, product or quotient is that of the operands. */
  lemma ArithmeticValue(w: World, fl: Floats, e: Expr, src: Source, x: Typed, y: Typed, src1: Source, src2: Source)
    requires Standard(w, fl) && e.Arith? && Defined(e.op, x, y)
    requires EvalExpr(w, e.l, src) == Got(x, src1) && EvalExpr(w, e.r, src1) == Got(y, src2)
    ensures EvalExpr(w, e, src) == Got(Calculates(fl, e.op, x, y), src2)
  {
    hide IntArithmetic, FloatArithmetic, Conversions, ArithName, Wrap, Quotient;
    PromotedPair(w, fl, x, y);
    var p := Promote(w, x, y).value;
    NamedArithmetic(w, fl, e.op, p.0, p.1);
  }

  /** The code of a calculation computes the same. */
  lemma ArithmeticComputed(w: World, fl: Floats, code: map<Block, seq<Instr>>, b: Builder, e: Expr, s: State,
                           src: Source, x: Typed, y: Typed, src1: Source, src2: Source) returns (n: nat, s': State)
    requires Standard(w, fl) && e.Arith? && Starts(w, b, s, src) && Completes(code, LowerExpr(b, e).b)
    requires EvalExpr(w, e.l, src) == Got(x, src1) && EvalExpr(w, e.r, src1) == Got(y, src2)
    requires Defined(e.op, x, y)
    ensures Evaluated(w, code, b, LowerExpr(b, e), s, n, s', Got(Calculates(fl, e.op, x, y), src2))
  {
    hide Evaluated, Starts, Completes, LowerExpr, EvalExpr, Standard, Calculates;
    ArithmeticValue(w, fl, e, src, x, y, src1, src2);
    n, s' := ExprMeans(w, code, b, e, s, src);
  }

  /** What is assigned to a local variable is the number in the variable's type. */
  lemma AssignmentConverts(w: World, fl: Floats, id: string, rhs: Expr, src: Source, x: Typed, src1: Source, ty: Ty,
                           was: Option<Val>)
    requires Standard(w, fl) && EvalExpr(w, rhs, src) == Got(x, src1) && Numeric(x.ty) && Numeric(ty)
    requires Lookup<Entry>(src1.frames, id) == Some(Local(ty, was))
    ensures var v, g := Converts(fl, x, ty), EvalExpr(w, Assign(VarRef(id, None), rhs), src);
      g.Got? && g.t == Typed(v, ty) && Lookup<Entry>(g.s.frames, id) == Some(Local(ty, Some(v)))
  {
    hide IntComparisons, FloatComparisons, IntArithmetic, FloatArithmetic;
    ConvertedNumber(w, fl, x, ty);
    SetLocalFound(src1.frames, id, ty, Converts(fl, x, ty));
  }

  lemma {:induction false} SetLocalFound(frames: seq<map<string, Entry>>, id: string, ty: Ty, v: Val)
    requires Lookup<Entry>(frames, id).Some?
    ensures Lookup<Entry>(SetLocal(frames, id, ty, v), id) == Some(Local(ty, Some(v)))
  {
    var rest, top := frames[..|frames| - 1], frames[|frames| - 1];
    if id !in top {
      SetLocalFound(rest, id, ty, v);
      var set' := SetLocal(rest, id, ty, v) + [top];
      assert set'[..|set'| - 1] == SetLocal(rest, id, ty, v);
    }
  }

  /** An index that is negative as an int leaves the function, and any other gives the element. */
  lemma IndexTested(w: World, fl: Floats, id: string, i: Expr, src: Source, x: Typed, src1: Source)
    requires Standard(w, fl) && EvalExpr(w, i, src) == Got(x, src1) && Numeric(x.ty) && Indexable(src.frames, id)
    ensures var k := Converts(fl, x, Int);
      EvalPlace(w, VarRef(id, Some(i)), src) == if k < 0 then NegativeIndex(w, src1) else ElementAt(w, id, k, src1)
  {
    hide FloatComparisons, IntArithmetic, FloatArithmetic;
    ConvertedNumber(w, fl, x, Int);
  }

  /** A condition holds exactly if its value is not zero. */
  lemma ConditionTested(w: World, fl: Floats, x: Typed)
    requires Standard(w, fl) && Numeric(x.ty)
    ensures IsTrue(w, x) <==> NonZero(fl, x)
  {
    hide IntArithmetic, FloatArithmetic, Conversions;
  }

  /** What is returned is the number in the return type. */
  lemma ReturnConverts(w: World, fl: Floats, ret: Ty, e: Expr, src: Source, fuel: nat, x: Typed, src1: Source)
    requires Standard(w, fl) && EvalExpr(w, e, src) == Got(x, src1) && Numeric(x.ty) && Numeric(ret)
    ensures Exec(w, ret, Stmt.Return(Some(e)), src, fuel) == Returned([Converts(fl, x, ret)], src1.mem, src1.trace)
  {
    hide IntComparisons, FloatComparisons, IntArithmetic, FloatArithmetic;
    ConvertedNumber(w, fl, x, ret);
  }

  /** An argument that is a number is passed in the type of the parameter. */
  lemma ArgumentConverts(w: World, fl: Floats, x: Typed, param: Ty)
    requires Standard(w, fl) && Numeric(x.ty) && Numeric(param)
    ensures Pass(w, x, param) == Some(Converts(fl, x, param))
  {
    hide IntComparisons, FloatComparisons, IntArithmetic, FloatArithmetic;
    ConvertedNumber(w, fl, x, param);
  }

  // ----- variables -----

  /** A pointer to numbers points to those. */
  lemma PointedToElement(t: Ty)
    requires Numeric(t)
    ensures (PtrTo(t) == IntPtr || PtrTo(t) == FltPtr) && PointedTo(PtrTo(t)) == t
  {
  }

  /** A parameter holds its argument, unless an earlier one has the same name. */
  lemma {:induction false} ParamBound(w: World, frames: seq<map<string, Entry>>, ds: seq<VarDecl>, i: nat, k: nat)
    requires frames != [] && i <= k < |ds| && ds[k].id !in frames[|frames| - 1]
    requires forall j :: i <= j < k ==> ds[j].id != ds[k].id
    ensures Lookup<Entry>(BindParams(w, frames, ds, i), ds[k].id) == Some(Local(ParamTy(ds[k]), Some(w.arg(k))))
    decreases k - i
  {
    hide Bind;
    var d := ds[i];
    var e := Local(ParamTy(d), Some(w.arg(i)));
    LookupBind<Entry>(frames, d.id, e, ds[k].id);
    BoundTop(frames, d.id, e);
    var next := Bind(frames, d.id, e);
    if i == k {
      KeptBound(w, next, ds, i + 1, d.id);
    } else {
      ParamBound(w, next, ds, i + 1, k);
    }
  }

  lemma BoundTop(frames: seq<map<string, Entry>>, id: string, e: Entry)
    requires frames != []
    ensures var next := Bind(frames, id, e);
      |next| == |frames| && next[|next| - 1].Keys == frames[|frames| - 1].Keys + {id}
  {
  }

  lemma {:induction false} KeptBound(w: World, frames: seq<map<string, Entry>>, ds: seq<VarDecl>, i: nat, id: string)
    requires frames != [] && i <= |ds| && id in frames[|frames| - 1]
    ensures Lookup<Entry>(BindParams(w, frames, ds, i), id) == Lookup<Entry>(frames, id)
    decreases |ds| - i
  {
    hide Bind;
    if i < |ds| {
      var e := Local(ParamTy(ds[i]), Some(w.arg(i)));
      LookupBind<Entry>(frames, ds[i].id, e, id);
      BoundTop(frames, ds[i].id, e);
      KeptBound(w, Bind(frames, ds[i].id, e), ds, i + 1, id);
    }
  }

  /** A parameter as a value is its argument, an int or a float, or a pointer to those if it is an array; an element of
      it is what memory holds at the address computed from the argument and the index. */
  lemma ParamRead(w: World, fl: Floats, f: FunDecl, globals: map<string, Entry>, mem: Memory, k: nat, i: Expr, x: Typed)
    requires Standard(w, fl) && k < |f.params| && forall j :: 0 <= j < k ==> f.params[j].id != f.params[k].id
    requires var src := Source(BindParams(w, [globals, map[]], f.params, 0), mem, []);
      EvalExpr(w, i, src) == Got(x, src) && x.ty == Int && x.v >= 0
    ensures var d, src := f.params[k], Source(BindParams(w, [globals, map[]], f.params, 0), mem, []);
      if d.isArray then
        && EvalExpr(w, Ref(VarRef(d.id, None)), src)
           == Got(Typed(w.arg(k), if d.isInt then IntPtr else FltPtr), src)
        && EvalExpr(w, Ref(VarRef(d.id, Some(i))), src)
           == Got(Typed(Fetch(mem, w.gep([w.arg(k), x.v])), if d.isInt then Int else Flt), src)
      else EvalExpr(w, Ref(VarRef(d.id, None)), src) == Got(Typed(w.arg(k), if d.isInt then Int else Flt), src)
  {
    hide Standard, BindParams;
    var d, src := f.params[k], Source(BindParams(w, [globals, map[]], f.params, 0), mem, []);
    ParamBound(w, [globals, map[]], f.params, 0, k);
    if d.isArray {
      IndexTested(w, fl, d.id, i, src, x, src);
    }
  }

  /** A local variable is an int or a float that has not been set, or the array that its slot stands for, which as a
      value is the address of its first element. */
  lemma LocalRead(w: World, frames: seq<map<string, Entry>>, d: VarDecl, mem: Memory, trace: seq<Event>)
    requires frames != [] && d.id !in frames[|frames| - 1]
    ensures var src := Source(Declare(w, frames, d), mem, trace);
      if d.isArray then EvalExpr(w, Ref(VarRef(d.id, None)), src)
        == Got(Typed(w.gep([w.slot(d.site), 0, 0]), if d.isInt then IntPtr else FltPtr), src)
      else Lookup<Entry>(src.frames, d.id) == Some(Local(if d.isInt then Int else Flt, None))
  {
    hide Bind;
    LookupBind<Entry>(frames, d.id, if d.isArray then Object(Many(Scalar(d.isInt)), w.slot(d.site))
                      else Local(Scalar(d.isInt), None), d.id);
  }
}
