/** What a C-minus function means: a big-step semantics over nested scopes of names. */
module SourceSemantics {
  import opened ControlFlow
  import opened IR
  import opened Scopes
  import opened Syntax

  /** What a name stands for: a local variable, which may not have been set; an object in memory; or a function. */
  datatype Entry = Local(ty: Ty, val: Option<Val>)
    | Object(held: Held, addr: Val) | Fun(name: string, ret: Ty, params: seq<Ty>)

  /** The scopes, innermost last; memory; and the stores to memory and calls made so far. */
  datatype Source = Source(frames: seq<map<string, Entry>>, mem: Memory, trace: seq<Event>)

  /** Evaluation gives a result, leaves the function because of a negative index, or is wrong: it reads an
      unset variable, or names or types do not fit. */
  datatype Got<+T> = Got(t: T, s: Source) | Left(mem: Memory, trace: seq<Event>) | Wrong
  {
    function Lost<U>(): Got<U> {
      if Left? then Left(mem, trace) else Wrong
    }
  }

  datatype Typed = Typed(v: Val, ty: Ty)

  /** What an assignment writes to: a local variable or a place in memory. */
  datatype Place = Cell(id: string, ty: Ty) | InMemory(addr: Val, ty: Ty)

  /** Gives the innermost variable of that name a value. */
  function SetLocal(frames: seq<map<string, Entry>>, id: string, ty: Ty, v: Val): seq<map<string, Entry>> {
    if frames == [] then []
    else
      var rest, top := frames[..|frames| - 1], frames[|frames| - 1];
      if id in top then rest + [top[id := Local(ty, Some(v))]] else SetLocal(rest, id, ty, v) + [top]
  }

  /** A value as one of another type. */
  function Convert(w: World, x: Typed, to: Ty): Option<Val> {
    if x.ty == Void || to == Void then None
    else if x.ty == to then Some(x.v)
    else if x.ty == Int && to == Flt then Some(w.op(SITOFP, [x.v]))
    else if x.ty == Flt && to == Int then Some(w.op(FPTOSI, [x.v]))
    else None
  }

  /** A value as an argument: pointers are passed as they are. */
  function Pass(w: World, x: Typed, to: Ty): Option<Val> {
    if IsPtr(x.ty) && IsPtr(to) then Some(x.v) else Convert(w, x, to)
  }

  /** Two numbers in a common type, int only when both are. */
  function Promote(w: World, x: Typed, y: Typed): Option<(Val, Val, bool)> {
    if !IsNumber(x.ty) || !IsNumber(y.ty) then None
    else if x.ty == y.ty then Some((x.v, y.v, x.ty == Int))
    else if x.ty == Int then Some((w.op(SITOFP, [x.v]), y.v, false))
    else Some((x.v, w.op(SITOFP, [y.v]), false))
  }

  function CallNamed(w: World, s: Source, name: string, vs: seq<Val>): (Val, Source) {
    var (r, m) := w.call(name, vs, s.mem);
    (r, s.(mem := m, trace := s.trace + [Called(name, vs, r)]))
  }

  /** The reaction to a negative index. */
  function NegativeIndex<T>(w: World, s: Source): Got<T> {
    match Lookup<Entry>(s.frames, NEGATIVE_INDEX)
    case Some(Fun(name, _, _)) =>
      var (_, s') := CallNamed(w, s, name, []);
      Left(s'.mem, s'.trace)
    case _ => Wrong
  }

  function EvalExpr(w: World, e: Expr, s: Source): Got<Typed>
    decreases e, 2
  {
    match e
    case Num(isInt, n) => Got(Typed(n, Scalar(isInt)), s)
    case Ref(v) => EvalRef(w, v, s)
    case Paren(inner) => EvalExpr(w, inner, s)
    case Assign(d, rhs) =>
      (match EvalExpr(w, rhs, s)
       case Got(x, s1) =>
         (match EvalPlace(w, d, s1)
          case Got(p, s2) => Write(w, p, x, s2)
          case g => g.Lost())
       case g => g.Lost())
    case Relation(op, l, r) =>
      (match EvalPair(w, e, s)
       case Got((x, y, isInt), s') => Got(Typed(w.op(ZEXT, [w.op(RelName(op, isInt), [x, y])]), Int), s')
       case g => g.Lost())
    case Arith(op, l, r) =>
      (match EvalPair(w, e, s)
       case Got((x, y, isInt), s') => Got(Typed(w.op(ArithName(op, isInt), [x, y]), Scalar(isInt)), s')
       case g => g.Lost())
    case CallFun(id, args) =>
      (match Lookup<Entry>(s.frames, id)
       case Some(Fun(name, ret, params)) =>
         if |args| != |params| then Wrong
         else
           (match EvalArgs(w, args, params, s)
            case Got(vs, s1) =>
              var (r, s2) := CallNamed(w, s1, name, vs);
              Got(Typed(r, ret), s2)
            case g => g.Lost())
       case _ => Wrong)
  }

  function EvalRef(w: World, v: VarRef, s: Source): Got<Typed>
    decreases v, 1
  {
    if v.index.Some? then
      match EvalPlace(w, v, s)
      case Got(InMemory(a, ty), s') => Got(Typed(Fetch(s'.mem, a), ty), s')
      case Got(_, _) => Wrong
      case g => g.Lost()
    else
      match Lookup<Entry>(s.frames, v.id)
      case Some(Local(ty, Some(x))) => Got(Typed(x, ty), s)
      case Some(Object(One(ty), a)) => Got(Typed(Fetch(s.mem, a), ty), s)
      case Some(Object(Many(t), a)) => Got(Typed(w.gep([a, 0, 0]), PtrTo(t)), s)
      case _ => Wrong
  }

  function EvalPlace(w: World, v: VarRef, s: Source): Got<Place>
    decreases v, 0
  {
    match v.index
    case None =>
      (match Lookup<Entry>(s.frames, v.id)
       case Some(Local(ty, _)) => Got(Cell(v.id, ty), s)
       case Some(Object(One(ty), a)) => Got(InMemory(a, ty), s)
       case _ => Wrong)
    case Some(i) =>
      if !Indexable(s.frames, v.id) then Wrong
      else
        match EvalExpr(w, i, s)
        case Got(x, s') =>
          (match Convert(w, x, Int)
           case Some(k) => if w.op("icmp_lt", [k, 0]) != 0 then NegativeIndex(w, s') else ElementAt(w, v.id, k, s')
           case None => Wrong)
        case g => g.Lost()
  }

  predicate Indexable(frames: seq<map<string, Entry>>, id: string) {
    match Lookup<Entry>(frames, id)
    case Some(Local(ty, _)) => IsPtr(ty)
    case Some(Object(Many(_), _)) => true
    case _ => false
  }

  function ElementAt(w: World, id: string, k: Val, s: Source): Got<Place> {
    match Lookup<Entry>(s.frames, id)
    case Some(Local(ty, Some(p))) => if IsPtr(ty) then Got(InMemory(w.gep([p, k]), PointedTo(ty)), s) else Wrong
    case Some(Object(Many(t), a)) => Got(InMemory(w.gep([a, 0, k]), t), s)
    case _ => Wrong
  }

  /** The value of an assignment is what has been stored. */
  function Write(w: World, p: Place, x: Typed, s: Source): Got<Typed> {
    match Convert(w, x, p.ty)
    case None => Wrong
    case Some(v) =>
      match p
      case Cell(id, ty) => Got(Typed(v, ty), s.(frames := SetLocal(s.frames, id, ty, v)))
      case InMemory(a, ty) => Got(Typed(v, ty), s.(mem := s.mem[a := v], trace := s.trace + [Stored(a, v)]))
  }

  /** Both operands, the left one first. */
  function EvalPair(w: World, e: Expr, s: Source): Got<(Val, Val, bool)>
    requires e.Relation? || e.Arith?
    decreases e, 1
  {
    match EvalExpr(w, e.l, s)
    case Got(x, s1) =>
      (match EvalExpr(w, e.r, s1)
       case Got(y, s2) =>
         (match Promote(w, x, y)
          case Some(p) => Got(p, s2)
          case None => Wrong)
       case g => g.Lost())
    case g => g.Lost()
  }

  function EvalArgs(w: World, args: seq<Expr>, params: seq<Ty>, s: Source): Got<seq<Val>>
    requires |args| == |params|
    decreases args, 0
  {
    if args == [] then Got([], s)
    else
      match EvalExpr(w, args[0], s)
      case Got(x, s1) =>
        (match Pass(w, x, params[0])
         case Some(v) =>
           (match EvalArgs(w, args[1..], params[1..], s1)
            case Got(vs, s2) => Got([v] + vs, s2)
            case g => g.Lost())
         case None => Wrong)
      case g => g.Lost()
  }

  // ----- statements -----

  /** A statement falls through, returns, needs more loop iterations than allowed, or is wrong. */
  datatype Outcome = Normal(s: Source) | Returned(vals: seq<Val>, mem: Memory, trace: seq<Event>) | OutOfFuel | Failed

  function ExitOf(ret: Ty, g: Got<Typed>): Outcome
    requires !g.Got?
  {
    if g.Left? then Returned(Default(ret), g.mem, g.trace) else Failed
  }

  /** What a function returns that does not say. */
  function Default(ret: Ty): seq<Val> {
    if ret == Void then [] else [0]
  }

  function IsTrue(w: World, x: Typed): bool {
    w.op(if x.ty == Int then "icmp_ne" else "fcmp_ne", [x.v, 0]) != 0
  }

  function Declare(w: World, frames: seq<map<string, Entry>>, d: VarDecl): seq<map<string, Entry>> {
    Bind(frames, d.id, if d.isArray then Object(Many(Scalar(d.isInt)), w.slot(d.site))
         else Local(Scalar(d.isInt), None))
  }

  function DeclareAll(w: World, frames: seq<map<string, Entry>>, ds: seq<VarDecl>): seq<map<string, Entry>>
    decreases |ds|
  {
    if ds == [] then frames else DeclareAll(w, Declare(w, frames, ds[0]), ds[1..])
  }

  /** Runs a statement of a function with return type `ret`; every iteration of a loop uses up fuel. */
  function Exec(w: World, ret: Ty, st: Stmt, s: Source, fuel: nat): Outcome
    decreases fuel, st, 1
  {
    match st
    case Compound(ds, sts) =>
      (match ExecAll(w, ret, sts, s.(frames := DeclareAll(w, s.frames + [map[]], ds)), fuel)
       case Normal(s') => Normal(s'.(frames := Leave(s'.frames)))
       case o => o)
    case ExprStmt(None) => Normal(s)
    case ExprStmt(Some(e)) =>
      (match EvalExpr(w, e, s)
       case Got(_, s') => Normal(s')
       case g => ExitOf(ret, g))
    case If(c, t, f) =>
      (match EvalExpr(w, c, s)
       case Got(x, s') =>
         if !IsNumber(x.ty) then Failed
         else if IsTrue(w, x) then Exec(w, ret, t, s', fuel)
         else if f.Some? then Exec(w, ret, f.value, s', fuel)
         else Normal(s')
       case g => ExitOf(ret, g))
    case While(c, body) =>
      if fuel == 0 then OutOfFuel
      else
        (match EvalExpr(w, c, s)
         case Got(x, s') =>
           if !IsNumber(x.ty) then Failed
           else if IsTrue(w, x) then
             match Exec(w, ret, body, s', fuel - 1)
             case Normal(s2) => Exec(w, ret, st, s2, fuel - 1)
             case o => o
           else Normal(s')
         case g => ExitOf(ret, g))
    case Return(None) => Returned([], s.mem, s.trace)
    case Return(Some(e)) =>
      (match EvalExpr(w, e, s)
       case Got(x, s') =>
         (match Convert(w, x, ret)
          case Some(v) => Returned([v], s'.mem, s'.trace)
          case None => Failed)
       case g => ExitOf(ret, g))
  }

  function ExecAll(w: World, ret: Ty, sts: seq<Stmt>, s: Source, fuel: nat): Outcome
    decreases fuel, sts, 0
  {
    if sts == [] then Normal(s)
    else
      match Exec(w, ret, sts[0], s, fuel)
      case Normal(s') => ExecAll(w, ret, sts[1..], s', fuel)
      case o => o
  }

  /** Binds the parameters to the arguments. */
  function BindParams(w: World, frames: seq<map<string, Entry>>, ds: seq<VarDecl>, i: nat): seq<map<string, Entry>>
    requires i <= |ds|
    decreases |ds| - i
  {
    if i == |ds| then frames
    else BindParams(w, Bind(frames, ds[i].id, Local(ParamTy(ds[i]), Some(w.arg(i)))), ds, i + 1)
  }

  /** A call of the function in a world that holds the arguments, with the given global scope and memory. */
  function Invoke(w: World, f: FunDecl, globals: map<string, Entry>, mem: Memory, fuel: nat): Outcome {
    match Exec(w, f.ret, f.body, Source(BindParams(w, [globals, map[]], f.params, 0), mem, []), fuel)
    case Normal(s) => Returned(Default(f.ret), s.mem, s.trace)
    case o => o
  }
}
