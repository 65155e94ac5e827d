/** The intermediate representation that the passes work on, and its block-by-block semantics. */
module IR {
  import opened ControlFlow

  type Id = int
  type Var = int
  type Val = int

  /** An operand, by the class of the value it points to: the address of a stack slot, the result of an
      element-address computation, or the result of any other instruction. */
  datatype Operand =
    | Const(c: Val)
    | Arg(n: int)
    | Global(name: string)
    | Slot(v: Var)
    | Elem(id: Id)
    | Reg(id: Id)

  /** Every instruction has an identity of its own, also those without a result. */
  datatype Instr =
    | Alloca(id: Id, scalar: bool)
    | Load(id: Id, ptr: Operand)
    | Store(id: Id, rval: Operand, ptr: Operand)
    | Gep(id: Id, args: seq<Operand>)
    | Op(id: Id, op: string, args: seq<Operand>)
    | Call(id: Id, callee: string, args: seq<Operand>)
    | Br(id: Id, target: Block)
    | CondBr(id: Id, cond: Operand, ifTrue: Block, ifFalse: Block)
    | Ret(id: Id, args: seq<Operand>)
  {
    predicate IsTerminator() {
      Br? || CondBr? || Ret?
    }

    predicate HasTarget(b: Block) {
      (Br? && target == b) || (CondBr? && (ifTrue == b || ifFalse == b))
    }

    /** A load or store of a stack slot itself. */
    predicate IsSlotAccess() {
      (Load? || Store?) && ptr.Slot?
    }

    /** The operands in order. */
    function Operands(): seq<Operand> {
      match this
      case Alloca(_, _) => []
      case Load(_, p) => [p]
      case Store(_, r, p) => [r, p]
      case Gep(_, a) => a
      case Op(_, _, a) => a
      case Call(_, _, a) => a
      case Br(_, _) => []
      case CondBr(_, c, _, _) => [c]
      case Ret(_, a) => a
    }
  }

  /** A phi for variable `lval`: one value for each predecessor listed. */
  datatype Phi = Phi(id: Id, lval: Var, pairs: seq<(Operand, Block)>)

  /** The blocks of a function: the phis that head each block, and the instructions after them. */
  datatype Body = Body(phis: map<Block, seq<Phi>>, code: map<Block, seq<Instr>>)

  // ----- semantics -----

  type Memory = map<Val, Val>

  /** What the surrounding world fixes: arguments, addresses, the arithmetic and the callees. */
  datatype World = World(
    arg: int -> Val, global: string -> Val, slot: Var -> Val, gep: seq<Val> -> Val,
    op: (string, seq<Val>) -> Val, call: (string, seq<Val>, Memory) -> (Val, Memory))

  datatype Event = Stored(addr: Val, val: Val) | Called(callee: string, args: seq<Val>, result: Val)

  /** `cells` holds the slots that have been stored to directly, `mem` everything that is addressed. */
  datatype State = State(env: map<Id, Val>, cells: map<Var, Val>, mem: Memory, trace: seq<Event>)

  datatype Exit = Goto(target: Block) | Return(vals: seq<Val>)

  function Eval(w: World, env: map<Id, Val>, o: Operand): Option<Val> {
    match o
    case Const(c) => Some(c)
    case Arg(n) => Some(w.arg(n))
    case Global(x) => Some(w.global(x))
    case Slot(v) => Some(w.slot(v))
    case Elem(id) => if id in env then Some(env[id]) else None
    case Reg(id) => if id in env then Some(env[id]) else None
  }

  function EvalAll(w: World, env: map<Id, Val>, os: seq<Operand>): Option<seq<Val>> {
    if os == [] then Some([])
    else
      match (Eval(w, env, os[0]), EvalAll(w, env, os[1..]))
      case (Some(v), Some(vs)) => Some([v] + vs)
      case _ => None
  }

  function Fetch(mem: Memory, a: Val): Val {
    if a in mem then mem[a] else 0
  }

  /** One instruction that is not a terminator; None when it reads a value that does not exist. */
  function ExecInstr(w: World, i: Instr, s: State): Option<State>
    requires !i.IsTerminator()
  {
    match i
    case Alloca(id, _) => Some(s.(cells := s.cells - {id}))
    case Load(id, Slot(v)) =>
      if v in s.cells then Some(s.(env := s.env[id := s.cells[v]])) else None
    case Load(id, p) =>
      (match Eval(w, s.env, p)
       case Some(a) => Some(s.(env := s.env[id := Fetch(s.mem, a)]))
       case None => None)
    case Store(id, r, Slot(v)) =>
      (match Eval(w, s.env, r)
       case Some(x) => Some(s.(cells := s.cells[v := x]))
       case None => None)
    case Store(id, r, p) =>
      (match (Eval(w, s.env, r), Eval(w, s.env, p))
       case (Some(x), Some(a)) => Some(s.(mem := s.mem[a := x], trace := s.trace + [Stored(a, x)]))
       case _ => None)
    case Gep(id, args) =>
      (match EvalAll(w, s.env, args)
       case Some(vs) => Some(s.(env := s.env[id := w.gep(vs)]))
       case None => None)
    case Op(id, op, args) =>
      (match EvalAll(w, s.env, args)
       case Some(vs) => Some(s.(env := s.env[id := w.op(op, vs)]))
       case None => None)
    case Call(id, f, args) =>
      (match EvalAll(w, s.env, args)
       case Some(vs) =>
         var (r, m) := w.call(f, vs, s.mem);
         Some(s.(env := s.env[id := r], mem := m, trace := s.trace + [Called(f, vs, r)]))
       case None => None)
  }

  function ExecExit(w: World, i: Instr, s: State): Option<Exit>
    requires i.IsTerminator()
  {
    match i
    case Br(_, t) => Some(Goto(t))
    case CondBr(_, c, t, f) =>
      (match Eval(w, s.env, c)
       case Some(x) => Some(Goto(if x != 0 then t else f))
       case None => None)
    case Ret(_, args) =>
      (match EvalAll(w, s.env, args)
       case Some(vs) => Some(Return(vs))
       case None => None)
  }

  /** The instructions of a block up to and including its first terminator. */
  function ExecCode(w: World, code: seq<Instr>, s: State): Option<(State, Exit)> {
    if code == [] then None
    else if code[0].IsTerminator() then
      match ExecExit(w, code[0], s)
      case Some(e) => Some((s, e))
      case None => None
    else
      match ExecInstr(w, code[0], s)
      case Some(s') => ExecCode(w, code[1..], s')
      case None => None
  }

  function PairFor(pairs: seq<(Operand, Block)>, from: Block): Option<Operand> {
    if pairs == [] then None
    else if pairs[0].1 == from then Some(pairs[0].0)
    else PairFor(pairs[1..], from)
  }

  function PhiValue(w: World, env: map<Id, Val>, p: Phi, from: Block): Option<Val> {
    match PairFor(p.pairs, from)
    case Some(o) => Eval(w, env, o)
    case None => None
  }

  /** All phis of a block at once, reading the environment at the end of the predecessor.  A phi without
      a value for that predecessor becomes undefined. */
  function EnterPhis(w: World, phis: seq<Phi>, from: Block, env: map<Id, Val>): map<Id, Val> {
    if phis == [] then env
    else
      var rest := EnterPhis(w, phis[1..], from, env);
      match PhiValue(w, env, phis[0], from)
      case Some(v) => rest[phis[0].id := v]
      case None => rest - {phis[0].id}
  }

  /** Where a run stands: at the start of a block after its phis, returned, or stuck. */
  datatype Point = At(block: Block, state: State) | Finished(vals: seq<Val>, state: State) | Stuck

  function Advance(w: World, f: Body, p: Point): Point {
    match p
    case At(b, s) =>
      if b !in f.code then Stuck else
      (match ExecCode(w, f.code[b], s)
       case None => Stuck
       case Some((s', Return(vs))) => Finished(vs, s')
       case Some((s', Goto(t))) =>
         if t !in f.phis then Stuck
         else At(t, s'.(env := EnterPhis(w, f.phis[t], b, s'.env))))
    case _ => p
  }

  /** The run after `n` blocks. */
  function Run(w: World, f: Body, n: nat, p: Point): Point {
    if n == 0 then p else Advance(w, f, Run(w, f, n - 1, p))
  }

  // ----- substitution -----

  /** Operands after replacing results by other values. */
  function Resolve(sigma: map<Id, Operand>, o: Operand): Operand {
    if o.Reg? && o.id in sigma then sigma[o.id] else o
  }

  function ResolveAll(sigma: map<Id, Operand>, os: seq<Operand>): (r: seq<Operand>)
    ensures |r| == |os| && forall i :: 0 <= i < |os| ==> r[i] == Resolve(sigma, os[i])
  {
    if os == [] then [] else [Resolve(sigma, os[0])] + ResolveAll(sigma, os[1..])
  }

  function Subst(sigma: map<Id, Operand>, i: Instr): Instr {
    match i
    case Alloca(_, _) => i
    case Load(id, p) => Load(id, Resolve(sigma, p))
    case Store(id, r, p) => Store(id, Resolve(sigma, r), Resolve(sigma, p))
    case Gep(id, a) => Gep(id, ResolveAll(sigma, a))
    case Op(id, op, a) => Op(id, op, ResolveAll(sigma, a))
    case Call(id, f, a) => Call(id, f, ResolveAll(sigma, a))
    case Br(_, _) => i
    case CondBr(id, c, t, f) => CondBr(id, Resolve(sigma, c), t, f)
    case Ret(id, a) => Ret(id, ResolveAll(sigma, a))
  }
}
