/** Lowering preserves meaning: running the blocks of an expression or statement does what the source says. */
module LoweringMeaning {
  import opened ControlFlow
  import opened IR
  import opened Scopes
  import opened Syntax
  import opened SourceSemantics
  import opened Lowering
  import opened LoweringShape
  import opened Ticks

  // ----- finished code -----

  /** The finished code of a function that is still under construction: what is sealed stays, what is open
      can only get longer. */
  ghost predicate Completes(code: map<Block, seq<Instr>>, b: Builder) {
    forall x {:trigger b.code[x]} :: x in b.code && b.code[x] != [] ==> x in code && Longer(b.code[x], code[x])
  }

  lemma CompletesGrows(code: map<Block, seq<Instr>>, b: Builder, b': Builder, todo: set<Block>)
    requires Good(b) && Grows(b, b', todo) && Completes(code, b')
    ensures Completes(code, b)
  {
    hide Mirrored, Open, Sealed;
    forall x | x in b.code && b.code[x] != []
      ensures x in code && Longer(b.code[x], code[x])
    {
      if x == b.cur {
        LongerTrans(b.code[x], b'.code[x], code[x]);
      }
    }
  }

  lemma CompletesAppend(code: map<Block, seq<Instr>>, b: Builder, i: Instr)
    requires Ready(b) && Completes(code, Append(b, i))
    ensures Completes(code, b)
    ensures var k := |b.Code(b.cur)|; b.cur in code && k < |code[b.cur]| && code[b.cur][k] == i
  {
    hide Mirrored;
    AppendCode(b, i);
    var b' := Append(b, i);
    assert b'.code[b.cur] != [] && Longer(b'.code[b.cur], code[b.cur]);
    LongerTrans(b.code[b.cur], b'.code[b.cur], code[b.cur]);
    assert b'.code[b.cur][|b.code[b.cur]|] == i;
    forall x | x in b.code && b.code[x] != []
      ensures x in code && Longer(b.code[x], code[x])
    {
      assert x != b.cur ==> b'.code[x] == b.code[x];
    }
  }

  lemma CompletesSame(code: map<Block, seq<Instr>>, b: Builder, b': Builder)
    requires b'.code == b.code
    ensures Completes(code, b) <==> Completes(code, b')
  {
  }

  // ----- matching states -----

  ghost predicate EntryMatches(w: World, cells: map<Var, Val>, sym: Symbol, e: Entry) {
    match e
    case Local(ty, val) =>
      sym.Var? && sym.addr.Slot? && sym.held == One(ty)
        && (val.Some? ==> sym.addr.v in cells && cells[sym.addr.v] == val.value)
    case Object(held, a) =>
      sym.Var? && sym.held == held
        && ((sym.addr.Slot? && held.Many? && a == w.slot(sym.addr.v))
            || (sym.addr.Global? && a == w.global(sym.addr.name)))
    case Fun(name, ret, params) => sym == Callee(name, ret, params)
  }

  /** Names are bound alike in the scopes of the builder and of the source. */
  ghost predicate Matches(w: World, scope: seq<map<string, Symbol>>, cells: map<Var, Val>,
                          frames: seq<map<string, Entry>>) {
    && |scope| == |frames|
    && (forall k, x {:trigger x in scope[k]} {:trigger x in frames[k]} :: 0 <= k < |scope| ==>
          (x in scope[k] <==> x in frames[k]) && (x in scope[k] ==> EntryMatches(w, cells, scope[k][x], frames[k][x])))
  }

  ghost predicate HasSlot(scope: seq<map<string, Symbol>>, k: int, x: string, v: Var) {
    0 <= k < |scope| && x in scope[k] && scope[k][x].Var? && scope[k][x].addr == Slot(v)
  }

  /** Every variable has a slot of its own. */
  ghost predicate Apart(scope: seq<map<string, Symbol>>) {
    forall k, x, j, y, v {:trigger HasSlot(scope, k, x, v), HasSlot(scope, j, y, v)} ::
      HasSlot(scope, k, x, v) && HasSlot(scope, j, y, v) ==> k == j && x == y
  }

  ghost predicate Rel(w: World, scope: seq<map<string, Symbol>>, s: State, src: Source) {
    Matches(w, scope, s.cells, src.frames) && Apart(scope) && Addressed(scope) && s.mem == src.mem
      && s.trace == src.trace
  }

  /** Which scope binds the name, from the outermost, or -1. */
  function Depth<T>(scopes: seq<map<string, T>>, id: string): int {
    if scopes == [] then -1
    else if id in scopes[|scopes| - 1] then |scopes| - 1
    else Depth(scopes[..|scopes| - 1], id)
  }

  lemma {:induction false} DepthLookup<T>(scopes: seq<map<string, T>>, id: string)
    ensures -1 <= Depth(scopes, id) < |scopes|
    ensures Depth(scopes, id) == -1 ==> Lookup(scopes, id) == None
    ensures Depth(scopes, id) >= 0 ==>
      id in scopes[Depth(scopes, id)] && Lookup(scopes, id) == Some(scopes[Depth(scopes, id)][id])
  {
    if scopes != [] {
      DepthLookup(scopes[..|scopes| - 1], id);
    }
  }

  lemma {:induction false} DepthMatches(w: World, scope: seq<map<string, Symbol>>, cells: map<Var, Val>,
                                        frames: seq<map<string, Entry>>, id: string)
    requires Matches(w, scope, cells, frames)
    ensures Depth(scope, id) == Depth(frames, id)
  {
    if scope != [] {
      InnerMatches(w, scope, cells, frames);
      var k := |scope| - 1;
      assert id in scope[k] <==> id in frames[k];
      DepthMatches(w, scope[..k], cells, frames[..k], id);
    }
  }

  lemma {:induction false} DepthSet(frames: seq<map<string, Entry>>, id: string, ty: Ty, x: Val)
    requires Depth(frames, id) >= 0
    ensures var k := Depth(frames, id);
      k < |frames| && SetLocal(frames, id, ty, x) == frames[k := frames[k][id := Local(ty, Some(x))]]
  {
    if id !in frames[|frames| - 1] {
      DepthSet(frames[..|frames| - 1], id, ty, x);
    }
  }

  lemma LookupMatches(w: World, scope: seq<map<string, Symbol>>, cells: map<Var, Val>, frames: seq<map<string, Entry>>,
                      id: string)
    requires Matches(w, scope, cells, frames)
    ensures Lookup(scope, id).Some? <==> Lookup(frames, id).Some?
    ensures Lookup(scope, id).Some? ==> EntryMatches(w, cells, Lookup(scope, id).value, Lookup(frames, id).value)
  {
    hide EntryMatches;
    DepthLookup(scope, id);
    DepthLookup(frames, id);
    DepthMatches(w, scope, cells, frames, id);
    var k := Depth(scope, id);
    assert k >= 0 ==> (id in scope[k] <==> id in frames[k]);
  }

  lemma InnerMatches(w: World, scope: seq<map<string, Symbol>>, cells: map<Var, Val>, frames: seq<map<string, Entry>>)
    requires Matches(w, scope, cells, frames) && scope != []
    ensures Matches(w, scope[..|scope| - 1], cells, frames[..|frames| - 1])
  {
    hide EntryMatches;
    var rest, rest' := scope[..|scope| - 1], frames[..|frames| - 1];
    forall k, x | 0 <= k < |rest|
      ensures x in rest[k] <==> x in rest'[k]
      ensures x in rest[k] ==> EntryMatches(w, cells, rest[k][x], rest'[k][x])
    {
      assert rest[k] == scope[k] && rest'[k] == frames[k];
      assert x in scope[k] <==> x in frames[k];
    }
  }

  /** The cells of all slots but one are as before. */
  ghost predicate SameCells(v: Var, cells: map<Var, Val>, cells': map<Var, Val>) {
    forall u {:trigger u in cells'} {:trigger u in cells} ::
      u != v && u in cells ==> u in cells' && cells'[u] == cells[u]
  }

  lemma EntryKept(w: World, cells: map<Var, Val>, cells': map<Var, Val>, v: Var, sym: Symbol, e: Entry)
    requires EntryMatches(w, cells, sym, e) && SameCells(v, cells, cells') && !(sym.Var? && sym.addr == Slot(v))
    ensures EntryMatches(w, cells', sym, e)
  {
  }

  /** A change of a slot that no variable has does not show. */
  lemma UnusedSlot(w: World, scope: seq<map<string, Symbol>>, cells: map<Var, Val>, frames: seq<map<string, Entry>>,
                   v: Var, cells': map<Var, Val>)
    requires Matches(w, scope, cells, frames) && SameCells(v, cells, cells')
    requires forall k, x {:trigger HasSlot(scope, k, x, v)} :: !HasSlot(scope, k, x, v)
    ensures Matches(w, scope, cells', frames)
  {
    hide EntryMatches, SameCells;
    forall k, x | 0 <= k < |scope|
      ensures x in scope[k] <==> x in frames[k]
      ensures x in scope[k] ==> EntryMatches(w, cells', scope[k][x], frames[k][x])
    {
      assert x in scope[k] <==> x in frames[k];
      assert !HasSlot(scope, k, x, v);
      if x in scope[k] {
        EntryKept(w, cells, cells', v, scope[k][x], frames[k][x]);
      }
    }
  }

  /** Setting a variable and its slot keeps the match. */
  lemma SetMatches(w: World, scope: seq<map<string, Symbol>>, cells: map<Var, Val>, frames: seq<map<string, Entry>>,
                   id: string, v: Var, ty: Ty, val: Val)
    requires Matches(w, scope, cells, frames) && Apart(scope) && Lookup(scope, id) == Some(Var(Slot(v), One(ty)))
    ensures Matches(w, scope, cells[v := val], SetLocal(frames, id, ty, val))
  {
    hide EntryMatches, SetLocal, Lookup, Depth;
    DepthLookup(scope, id);
    DepthMatches(w, scope, cells, frames, id);
    DepthSet(frames, id, ty, val);
    var d := Depth(scope, id);
    var frames' := SetLocal(frames, id, ty, val);
    assert HasSlot(scope, d, id, v);
    forall k, x | 0 <= k < |scope|
      ensures x in scope[k] <==> x in frames'[k]
      ensures x in scope[k] ==> EntryMatches(w, cells[v := val], scope[k][x], frames'[k][x])
    {
      assert x in scope[k] <==> x in frames[k];
      if k == d && x == id {
        SetEntry(w, cells, v, ty, val);
      } else if x in scope[k] {
        assert !HasSlot(scope, k, x, v);
        EntryKept(w, cells, cells[v := val], v, scope[k][x], frames[k][x]);
      }
    }
  }

  lemma SetEntry(w: World, cells: map<Var, Val>, v: Var, ty: Ty, val: Val)
    ensures EntryMatches(w, cells[v := val], Var(Slot(v), One(ty)), Local(ty, Some(val)))
  {
  }

  // ----- running lowered code -----

  /** About to execute what the builder appends next. */
  function Stand(b: Builder, s: State): Conf {
    Here(b.cur, |b.Code(b.cur)|, s)
  }

  /** Values with identities below `n` are as before. */
  ghost predicate Keeps(n: Id, env: map<Id, Val>, env': map<Id, Val>) {
    forall id {:trigger id in env'} {:trigger id in env} ::
      id < n ==> (id in env <==> id in env') && (id in env ==> env'[id] == env[id])
  }

  lemma KeepsTrans(n: Id, m: Id, env: map<Id, Val>, env1: map<Id, Val>, env2: map<Id, Val>)
    requires Keeps(n, env, env1) && Keeps(m, env1, env2) && n <= m
    ensures Keeps(n, env, env2)
  {
  }

  lemma EvalKeeps(w: World, n: Id, env: map<Id, Val>, env': map<Id, Val>, o: Operand)
    requires Keeps(n, env, env') && Below(o, n)
    ensures Eval(w, env', o) == Eval(w, env, o)
  {
  }

  lemma TickMore(w: World, code: map<Block, seq<Instr>>, n: nat, c: Conf, c1: Conf)
    requires Ticking(w, code, n, c) == c1
    ensures Ticking(w, code, n + 1, c) == Tick(w, code, c1)
  {
    TickingAdd(w, code, n, 1, c);
  }

  /** An instruction just appended is executed next. */
  lemma AppendTick(w: World, code: map<Block, seq<Instr>>, b: Builder, i: Instr, s: State)
    requires Ready(b) && Completes(code, Append(b, i))
    ensures Completes(code, b)
    ensures !i.IsTerminator() && ExecInstr(w, i, s).Some? ==>
      Tick(w, code, Stand(b, s)) == Stand(Append(b, i), ExecInstr(w, i, s).value)
    ensures i.IsTerminator() && ExecExit(w, i, s).Some? ==>
      Tick(w, code, Stand(b, s)) == match ExecExit(w, i, s).value case Goto(t) => Here(t, 0,
          s) case Return(vs) => Over(vs, s)
  {
    hide Mirrored, Longer, Open;
    CompletesAppend(code, b, i);
  }

  /** An instruction that computes a value from operands. */
  lemma OpTick(w: World, code: map<Block, seq<Instr>>, b: Builder, op: string, args: seq<Operand>, vs: seq<Val>,
               s: State) returns (s': State)
    requires Ready(b) && Completes(code, Append(b, Op(b.nextId, op, args))) && EvalAll(w, s.env, args) == Some(vs)
    ensures s' == s.(env := s.env[b.nextId := w.op(op, vs)]) && Completes(code, b)
    ensures Tick(w, code, Stand(b, s)) == Stand(Append(b, Op(b.nextId, op, args)), s')
    ensures Keeps(b.nextId, s.env, s'.env) && Eval(w, s'.env, Reg(b.nextId)) == Some(w.op(op, vs))
  {
    hide Ready, Completes, Append;
    s' := s.(env := s.env[b.nextId := w.op(op, vs)]);
    AppendTick(w, code, b, Op(b.nextId, op, args), s);
  }

  lemma GepTick(w: World, code: map<Block, seq<Instr>>, b: Builder, args: seq<Operand>, vs: seq<Val>, s: State)
    returns (s': State)
    requires Ready(b) && Completes(code, Append(b, Gep(b.nextId, args))) && EvalAll(w, s.env, args) == Some(vs)
    ensures s' == s.(env := s.env[b.nextId := w.gep(vs)]) && Completes(code, b)
    ensures Tick(w, code, Stand(b, s)) == Stand(Append(b, Gep(b.nextId, args)), s')
    ensures Keeps(b.nextId, s.env, s'.env) && Eval(w, s'.env, Elem(b.nextId)) == Some(w.gep(vs))
  {
    hide Ready, Completes, Append;
    s' := s.(env := s.env[b.nextId := w.gep(vs)]);
    AppendTick(w, code, b, Gep(b.nextId, args), s);
  }

  /** Loading the value of a slot, or of an address. */
  lemma LoadTick(w: World, code: map<Block, seq<Instr>>, b: Builder, addr: Operand, v: Val, s: State)
    returns (s': State)
    requires Ready(b) && Completes(code, Append(b, Load(b.nextId, addr)))
    requires if addr.Slot? then addr.v in s.cells && s.cells[addr.v] == v
      else Eval(w, s.env, addr).Some? && Fetch(s.mem, Eval(w, s.env, addr).value) == v
    ensures s' == s.(env := s.env[b.nextId := v]) && Completes(code, b)
    ensures Tick(w, code, Stand(b, s)) == Stand(Append(b, Load(b.nextId, addr)), s')
    ensures Keeps(b.nextId, s.env, s'.env) && Eval(w, s'.env, Reg(b.nextId)) == Some(v)
  {
    hide Ready, Completes, Append;
    s' := s.(env := s.env[b.nextId := v]);
    AppendTick(w, code, b, Load(b.nextId, addr), s);
  }

  lemma EvalTwo(w: World, env: map<Id, Val>, x: Operand, y: Operand, vx: Val, vy: Val)
    requires Eval(w, env, x) == Some(vx) && Eval(w, env, y) == Some(vy)
    ensures EvalAll(w, env, [x, y]) == Some([vx, vy]) && EvalAll(w, env, [x]) == Some([vx])
  {
    assert [x, y][1..] == [y] && [y][1..] == [] && [x][1..] == [];
    assert EvalAll(w, env, []) == Some([]) && [vx] + [] == [vx] && [vy] + [] == [vy];
    assert EvalAll(w, env, [y]) == Some([vy]) && [vx] + [vy] == [vx, vy];
  }

  // ----- results -----

  ghost predicate Evaluated(w: World, code: map<Block, seq<Instr>>, b: Builder, r: Tmp, s: State, n: nat, s': State,
                            g: Got<Typed>) {
    match g
    case Got(x, src) =>
      && r.ty == x.ty && Ticking(w, code, n, Stand(b, s)) == Stand(r.b, s') && Rel(w, r.b.scope, s', src)
      && Eval(w, s'.env, r.o) == Some(x.v) && Keeps(b.nextId, s.env, s'.env)
    case Left(m, t) => LeftBy(w, code, b, s, n, s', m, t)
    case Wrong => true
  }

  /** The run has left the function because of a negative index. */
  ghost predicate LeftBy(w: World, code: map<Block, seq<Instr>>, b: Builder, s: State, n: nat, s': State, m: Memory,
                         t: seq<Event>) {
    Ticking(w, code, n, Stand(b, s)) == Over(Default(b.ret), s') && s'.mem == m && s'.trace == t
  }

  ghost predicate Found(w: World, code: map<Block, seq<Instr>>, b: Builder, r: Addr, s: State, n: nat, s': State,
                        g: Got<Place>) {
    match g
    case Got(p, src) =>
      && r.held == One(p.ty) && Ticking(w, code, n, Stand(b, s)) == Stand(r.b, s') && Rel(w, r.b.scope, s', src)
      && Keeps(b.nextId, s.env, s'.env)
      && (match p
          case Cell(id, ty) => r.o.Slot? && Lookup(r.b.scope, id) == Some(Var(r.o, One(ty)))
          case InMemory(a, _) => !r.o.Slot? && Eval(w, s'.env, r.o) == Some(a))
    case Left(m, t) => LeftBy(w, code, b, s, n, s', m, t)
    case Wrong => true
  }

  ghost predicate Paired(w: World, code: map<Block, seq<Instr>>, b: Builder, r: Pair, s: State, n: nat, s': State,
                         g: Got<(Val, Val, bool)>) {
    match g
    case Got((x, y, isInt), src) =>
      && r.isInt == isInt && Ticking(w, code, n, Stand(b, s)) == Stand(r.b, s') && Rel(w, r.b.scope, s', src)
      && Eval(w, s'.env, r.x) == Some(x) && Eval(w, s'.env, r.y) == Some(y) && Keeps(b.nextId, s.env, s'.env)
    case Left(m, t) => LeftBy(w, code, b, s, n, s', m, t)
    case Wrong => true
  }

  ghost predicate AllPassed(w: World, code: map<Block, seq<Instr>>, b: Builder, r: Passed, s: State, n: nat, s': State,
                            g: Got<seq<Val>>) {
    match g
    case Got(vs, src) =>
      && Ticking(w, code, n, Stand(b, s)) == Stand(r.b, s') && Rel(w, r.b.scope, s', src)
      && EvalAll(w, s'.env, r.os) == Some(vs) && Keeps(b.nextId, s.env, s'.env)
    case Left(m, t) => LeftBy(w, code, b, s, n, s', m, t)
    case Wrong => true
  }

  /** A builder state from which a piece is lowered whose code is part of the finished code. */
  ghost predicate Starts(w: World, b: Builder, s: State, src: Source) {
    Ready(b) && Rel(w, b.scope, s, src)
  }

  lemma NoSteps(w: World, code: map<Block, seq<Instr>>, b: Builder, s: State, src: Source)
    requires Starts(w, b, s, src)
    ensures Ticking(w, code, 0, Stand(b, s)) == Stand(b, s) && Keeps(b.nextId, s.env, s.env) && Rel(w, b.scope, s, src)
  {
  }

  lemma RelEnv(w: World, scope: seq<map<string, Symbol>>, s: State, s': State, src: Source)
    requires Rel(w, scope, s, src) && s'.cells == s.cells && s'.mem == s.mem && s'.trace == s.trace
    ensures Rel(w, scope, s', src)
  {
  }

  lemma RelAddressed(w: World, scope: seq<map<string, Symbol>>, s: State, src: Source)
    requires Rel(w, scope, s, src)
    ensures Addressed(scope)
  {
  }

  lemma CompletesKept(code: map<Block, seq<Instr>>, b: Builder, b': Builder)
    requires Ready(b) && Kept(b, b') && Completes(code, b')
    ensures Completes(code, b)
  {
    hide Grows, Open, Completes;
    CompletesGrows(code, b, b', {});
  }

  /** A piece that follows another leaves the function. */
  lemma LeftLater(w: World, code: map<Block, seq<Instr>>, b: Builder, b1: Builder, s: State, s1: State, n: nat, m: nat,
                  s': State, mem: Memory, t: seq<Event>)
    requires Ticking(w, code, n, Stand(b, s)) == Stand(b1, s1) && LeftBy(w, code, b1, s1, m, s', mem, t)
    requires b1.ret == b.ret
    ensures LeftBy(w, code, b, s, n + m, s', mem, t)
  {
    TickingAdd(w, code, n, m, Stand(b, s));
  }

  // ----- expressions -----

  lemma {:induction false} ExprMeans(w: World, code: map<Block, seq<Instr>>, b: Builder, e: Expr, s: State, src: Source)
    returns (n: nat, s': State)
    requires Starts(w, b, s, src) && Completes(code, LowerExpr(b, e).b)
    ensures Evaluated(w, code, b, LowerExpr(b, e), s, n, s', EvalExpr(w, e, src))
    decreases e, 3
  {
    hide Ready, Rel, Completes, Keeps, Append, Stand, LowerPlace, EvalPlace;
    n, s' := 0, s;
    match e
    case Num(_, _) => NoSteps(w, code, b, s, src);
    case Ref(v) => n, s' := RefMeans(w, code, b, v, s, src);
    case Paren(inner) => n, s' := ExprMeans(w, code, b, inner, s, src);
    case Assign(d, rhs) => n, s' := AssignMeans(w, code, b, d, rhs, s, src);
    case Relation(op, _, _) => n, s' := BinaryMeans(w, code, b, e, s, src);
    case Arith(op, _, _) => n, s' := BinaryMeans(w, code, b, e, s, src);
    case CallFun(id, args) => n, s' := CallMeans(w, code, b, id, args, s, src);
  }

  /** A coercion computes the conversion between the types of numbers. */
  lemma CoerceMeans(w: World, code: map<Block, seq<Instr>>, b: Builder, o: Operand, x: Typed, to: Ty, s: State)
    returns (s': State)
    requires Ready(b) && Completes(code, Coerce(b, o, x.ty).b) && Eval(w, s.env, o) == Some(x.v)
    requires x.ty != to && Convert(w, x, to).Some?
    ensures var y := Coerce(b, o, x.ty);
      y.ty == to && Tick(w, code, Stand(b, s)) == Stand(y.b, s') && Eval(w, s'.env, y.o) == Convert(w, x, to)
    ensures Completes(code, b) && Keeps(b.nextId, s.env, s'.env) && s' == s.(env := s'.env)
  {
    hide Ready, Completes, Append, Keeps, Stand, Tick;
    EvalTwo(w, s.env, o, o, x.v, x.v);
    s' := OpTick(w, code, b, if x.ty == Int then SITOFP else FPTOSI, [o], [x.v], s);
  }

  lemma {:induction false} BinaryMeans(w: World, code: map<Block, seq<Instr>>, b: Builder, e: Expr, s: State,
                                       src: Source) returns (n: nat, s': State)
    requires (e.Relation? || e.Arith?) && Starts(w, b, s, src) && Completes(code, LowerExpr(b, e).b)
    ensures Evaluated(w, code, b, LowerExpr(b, e), s, n, s', EvalExpr(w, e, src))
    decreases e, 2
  {
    hide Ready, Rel, Completes, Keeps, Append, Stand, LowerPair, EvalPair, Tick, Ticking, Kept;
    var p := LowerPair(b, e);
    RelAddressed(w, b.scope, s, src);
    PairKept(b, e);
    KeptFacts(b, p.b);
    var op := if e.Relation? then RelName(e.rel, p.isInt) else ArithName(e.op, p.isInt);
    var c := EmitOp(p.b, op, [p.x, p.y], Int);
    AppendOne(b, p.b, Op(p.b.nextId, op, [p.x, p.y]));
    KeptFacts(b, c.b);
    NextId(c.b, Op(c.b.nextId, ZEXT, [c.o]));
    if e.Relation? {
      CompletesAppend(code, c.b, Op(c.b.nextId, ZEXT, [c.o]));
    }
    CompletesAppend(code, p.b, Op(p.b.nextId, op, [p.x, p.y]));
    n, s' := PairMeans(w, code, b, e, s, src);
    var g := EvalPair(w, e, src);
    if g.Got? {
      var s1 := s';
      var x, y := g.t.0, g.t.1;
      EvalTwo(w, s1.env, p.x, p.y, x, y);
      var s2 := OpTick(w, code, p.b, op, [p.x, p.y], [x, y], s1);
      TickMore(w, code, n, Stand(b, s), Stand(p.b, s1));
      KeepsTrans(b.nextId, p.b.nextId, s.env, s1.env, s2.env);
      RelEnv(w, p.b.scope, s1, s2, g.s);
      n, s' := n + 1, s2;
      if e.Relation? {
        EvalTwo(w, s2.env, c.o, c.o, w.op(op, [x, y]), w.op(op, [x, y]));
        var s3 := OpTick(w, code, c.b, ZEXT, [c.o], [w.op(op, [x, y])], s2);
        TickMore(w, code, n, Stand(b, s), Stand(c.b, s2));
        KeepsTrans(b.nextId, c.b.nextId, s.env, s2.env, s3.env);
        RelEnv(w, c.b.scope, s2, s3, g.s);
        n, s' := n + 1, s3;
      }
    }
  }

  lemma {:induction false} PairMeans(w: World, code: map<Block, seq<Instr>>, b: Builder, e: Expr, s: State, src: Source)
    returns (n: nat, s': State)
    requires (e.Relation? || e.Arith?) && Starts(w, b, s, src) && Completes(code, LowerPair(b, e).b)
    ensures Paired(w, code, b, LowerPair(b, e), s, n, s', EvalPair(w, e, src))
    decreases e, 1
  {
    hide Ready, Rel, Completes, Keeps, Append, Stand, Tick, Ticking, Kept, Unify, Promote, LowerExpr, EvalExpr;
    RelAddressed(w, b.scope, s, src);
    ExprKept(b, e.l);
    var l := LowerExpr(b, e.l);
    KeptFacts(b, l.b);
    ExprKept(l.b, e.r);
    var r := LowerExpr(l.b, e.r);
    KeptFacts(l.b, r.b);
    UnifyCompletes(code, r.b, l.o, l.ty, r.o, r.ty);
    CompletesKept(code, l.b, r.b);
    n, s' := ExprMeans(w, code, b, e.l, s, src);
    var gl := EvalExpr(w, e.l, src);
    if gl.Got? {
      var n1, s1 := n, s';
      var n2, s2 := ExprMeans(w, code, l.b, e.r, s1, gl.s);
      n, s' := n1 + n2, s2;
      var gr := EvalExpr(w, e.r, gl.s);
      if gr.Left? {
        LeftLater(w, code, b, l.b, s, s1, n1, n2, s2, gr.mem, gr.trace);
      } else if gr.Got? && Promote(w, gl.t, gr.t).Some? {
        TickingAdd(w, code, n1, n2, Stand(b, s));
        KeepsTrans(b.nextId, l.b.nextId, s.env, s1.env, s2.env);
        EvalKeeps(w, l.b.nextId, s1.env, s2.env, l.o);
        var n3, s3 := UnifyMeans(w, code, r.b, l.o, gl.t, r.o, gr.t, s2);
        Unified(w, code, b, r.b, l.o, gl.t, r.o, gr.t, s, n, s2, n3, s3, gr.s);
        n, s' := n + n3, s3;
      }
    }
  }

  /** The steps of a promotion after those that evaluate the operands. */
  lemma Unified(w: World, code: map<Block, seq<Instr>>, b: Builder, r: Builder, x: Operand, vx: Typed, y: Operand,
                vy: Typed, s: State, n: nat, s2: State, n3: nat, s3: State, src: Source)
    requires Promote(w, vx, vy).Some? && b.nextId <= r.nextId && Ticking(w, code, n, Stand(b, s)) == Stand(r, s2)
    requires Rel(w, r.scope, s2, src)
    requires Keeps(b.nextId, s.env, s2.env) && Keeps(r.nextId, s2.env, s3.env) && s3 == s2.(env := s3.env)
    requires var p, v := Unify(r, x, vx.ty, y, vy.ty), Promote(w, vx, vy).value;
      && Ticking(w, code, n3, Stand(r, s2)) == Stand(p.b, s3) && p.isInt == v.2
      && Eval(w, s3.env, p.x) == Some(v.0) && Eval(w, s3.env, p.y) == Some(v.1)
    ensures Paired(w, code, b, Unify(r, x, vx.ty, y, vy.ty), s, n + n3, s3, Got(Promote(w, vx, vy).value, src))
  {
    hide Rel, Keeps, Stand, Ticking, Unify, Promote;
    TickingAdd(w, code, n, n3, Stand(b, s));
    KeepsTrans(b.nextId, r.nextId, s.env, s2.env, s3.env);
    RelEnv(w, r.scope, s2, s3, src);
    UnifyScope(r, x, vx.ty, y, vy.ty);
  }

  lemma UnifyScope(b: Builder, x: Operand, tx: Ty, y: Operand, ty: Ty)
    ensures Unify(b, x, tx, y, ty).b.scope == b.scope
  {
  }

  lemma UnifyCompletes(code: map<Block, seq<Instr>>, b: Builder, x: Operand, tx: Ty, y: Operand, ty: Ty)
    requires Ready(b) && Completes(code, Unify(b, x, tx, y, ty).b)
    ensures Completes(code, b)
  {
    hide Ready, Completes, Append;
    if tx != ty {
      CompletesAppend(code, b, Op(b.nextId, SITOFP, [if tx == Int then x else y]));
    }
  }

  lemma Unmoved(w: World, code: map<Block, seq<Instr>>, c: Conf, n: Id, env: map<Id, Val>)
    ensures Ticking(w, code, 0, c) == c && Keeps(n, env, env)
  {
  }

  /** Promotion to a common type. */
  lemma UnifyMeans(w: World, code: map<Block, seq<Instr>>, b: Builder, x: Operand, vx: Typed, y: Operand, vy: Typed,
                   s: State) returns (n: nat, s': State)
    requires Ready(b) && Completes(code, Unify(b, x, vx.ty, y, vy.ty).b) && Promote(w, vx, vy).Some?
    requires Eval(w, s.env, x) == Some(vx.v) && Eval(w, s.env, y) == Some(vy.v) && Below(x, b.nextId)
    requires Below(y, b.nextId)
    ensures var p, v := Unify(b, x, vx.ty, y, vy.ty), Promote(w, vx, vy).value;
      && Ticking(w, code, n, Stand(b, s)) == Stand(p.b, s') && p.isInt == v.2
      && Eval(w, s'.env, p.x) == Some(v.0) && Eval(w, s'.env, p.y) == Some(v.1)
    ensures Keeps(b.nextId, s.env, s'.env) && s' == s.(env := s'.env)
  {
    hide Ready, Completes, Append, Stand, Tick, Ticking, Keeps, EvalAll;
    n, s' := 0, s;
    Unmoved(w, code, Stand(b, s), b.nextId, s.env);
    if vx.ty != vy.ty {
      var o, v := if vx.ty == Int then x else y, if vx.ty == Int then vx.v else vy.v;
      EvalTwo(w, s.env, o, o, v, v);
      s' := OpTick(w, code, b, SITOFP, [o], [v], s);
      TickMore(w, code, 0, Stand(b, s), Stand(b, s));
      EvalKeeps(w, b.nextId, s.env, s'.env, x);
      EvalKeeps(w, b.nextId, s.env, s'.env, y);
      n := 1;
    }
  }

  lemma {:induction false} CallMeans(w: World, code: map<Block, seq<Instr>>, b: Builder, id: string, args: seq<Expr>,
                                     s: State, src: Source) returns (n: nat, s': State)
    requires Starts(w, b, s, src) && Completes(code, LowerExpr(b, CallFun(id, args)).b)
    ensures Evaluated(w, code, b, LowerExpr(b, CallFun(id, args)), s, n, s', EvalExpr(w, CallFun(id, args), src))
    decreases args, 1
  {
    hide Ready, Completes, Keeps, Append, Stand, Tick, Ticking, Kept, LowerArgs, EvalArgs, Matches, Apart, Addressed,
      Lookup;
    n, s' := 0, s;
    LookupMatches(w, b.scope, s.cells, src.frames, id);
    match Lookup<Entry>(src.frames, id) {
      case Some(Fun(name, ret, params)) =>
        if |args| == |params| {
          var a := LowerArgs(b, args, params);
          ArgsKept(b, args, params);
          KeptFacts(b, a.b);
          var i := Call(a.b.nextId, name, a.os);
          CompletesAppend(code, a.b, i);
          n, s' := ArgsMeans(w, code, b, args, params, s, src);
          var g := EvalArgs(w, args, params, src);
          if g.Got? {
            var s1 := s';
            var (r, m) := w.call(name, g.t, s1.mem);
            s' := State(s1.env[a.b.nextId := r], s1.cells, m, s1.trace + [Called(name, g.t, r)]);
            assert ExecInstr(w, i, s1) == Some(s');
            AppendTick(w, code, a.b, i, s1);
            TickMore(w, code, n, Stand(b, s), Stand(a.b, s1));
            KeepsNew(a.b.nextId, s1.env, r);
            KeepsTrans(b.nextId, a.b.nextId, s.env, s1.env, s'.env);
            NextId(a.b, i);
            n := n + 1;
          }
        }
      case _ =>
    }
  }

  lemma KeepsNew(n: Id, env: map<Id, Val>, v: Val)
    ensures Keeps(n, env, env[n := v])
  {
  }

  lemma ArgumentKept(b: Builder, o: Operand, ty: Ty, param: Ty)
    requires Ready(b) && Below(o, b.nextId)
    ensures var y := Argument(b, o, ty, param); Kept(b, y.b) && Below(y.o, y.b.nextId)
  {
    hide Kept, Ready, Coerce;
    SelfKept(b);
    CoerceKept(b, b, o, ty);
  }

  /** The first argument, passed in the type of the parameter. */
  lemma {:induction false} ArgumentMeans(w: World, code: map<Block, seq<Instr>>, b: Builder, e: Expr, param: Ty,
                                         s: State, src: Source) returns (n: nat, s': State)
    requires Starts(w, b, s, src) && Completes(code, LowerExpr(b, e).b)
    requires var x := LowerExpr(b, e); Completes(code, Argument(x.b, x.o, x.ty, param).b)
    ensures var x, g := LowerExpr(b, e), EvalExpr(w, e, src); var y := Argument(x.b, x.o, x.ty, param);
      && (g.Left? ==> LeftBy(w, code, b, s, n, s', g.mem, g.trace))
      && (g.Got? && Pass(w, g.t, param).Some? ==>
            && Ticking(w, code, n, Stand(b, s)) == Stand(y.b, s') && Rel(w, y.b.scope, s', g.s)
            && Eval(w, s'.env, y.o) == Pass(w, g.t, param) && Keeps(b.nextId, s.env, s'.env))
    decreases e, 4
  {
    hide Ready, Rel, Completes, Keeps, Append, Stand, Tick, Ticking, Kept, Coerce, Convert, Pass;
    RelAddressed(w, b.scope, s, src);
    ExprKept(b, e);
    var x, g := LowerExpr(b, e), EvalExpr(w, e, src);
    KeptFacts(b, x.b);
    ArgumentKept(x.b, x.o, x.ty, param);
    KeptFacts(x.b, Argument(x.b, x.o, x.ty, param).b);
    n, s' := ExprMeans(w, code, b, e, s, src);
    if g.Got? && Pass(w, g.t, param).Some? {
      PassConverts(w, g.t, param);
      if !IsPtr(x.ty) && param != x.ty {
        var s1 := s';
        s' := CoerceMeans(w, code, x.b, x.o, g.t, param, s1);
        TickMore(w, code, n, Stand(b, s), Stand(x.b, s1));
        KeepsTrans(b.nextId, x.b.nextId, s.env, s1.env, s'.env);
        RelEnv(w, x.b.scope, s1, s', g.s);
        n := n + 1;
      }
    }
  }

  lemma {:induction false} ArgsMeans(w: World, code: map<Block, seq<Instr>>, b: Builder, args: seq<Expr>,
                                     params: seq<Ty>, s: State, src: Source) returns (n: nat, s': State)
    requires |args| == |params| && Starts(w, b, s, src) && Completes(code, LowerArgs(b, args, params).b)
    ensures AllPassed(w, code, b, LowerArgs(b, args, params), s, n, s', EvalArgs(w, args, params, src))
    decreases args, 0
  {
    hide Ready, Rel, Completes, Keeps, Append, Stand, Tick, Ticking, Kept, Coerce, Convert, Pass, Argument;
    n, s' := 0, s;
    if args == [] {
      NoSteps(w, code, b, s, src);
    } else {
      RelAddressed(w, b.scope, s, src);
      ExprKept(b, args[0]);
      var x := LowerExpr(b, args[0]);
      KeptFacts(b, x.b);
      var y := Argument(x.b, x.o, x.ty, params[0]);
      ArgumentKept(x.b, x.o, x.ty, params[0]);
      KeptFacts(x.b, y.b);
      ArgsKept(y.b, args[1..], params[1..]);
      var rest := LowerArgs(y.b, args[1..], params[1..]);
      KeptFacts(y.b, rest.b);
      ArgsSplit(b, args, params);
      CompletesKept(code, y.b, rest.b);
      CompletesKept(code, x.b, y.b);
      n, s' := ArgumentMeans(w, code, b, args[0], params[0], s, src);
      var g := EvalExpr(w, args[0], src);
      if g.Got? && Pass(w, g.t, params[0]).Some? {
        var n1, s1 := n, s';
        var n2, s2 := ArgsMeans(w, code, y.b, args[1..], params[1..], s1, g.s);
        n, s' := n1 + n2, s2;
        var gr := EvalArgs(w, args[1..], params[1..], g.s);
        if gr.Left? {
          LeftLater(w, code, b, y.b, s, s1, n1, n2, s2, gr.mem, gr.trace);
        } else if gr.Got? {
          TickingAdd(w, code, n1, n2, Stand(b, s));
          KeepsTrans(b.nextId, y.b.nextId, s.env, s1.env, s2.env);
          EvalKeeps(w, y.b.nextId, s1.env, s2.env, y.o);
          assert ([y.o] + rest.os)[1..] == rest.os;
        }
      }
    }
  }

  lemma ArgsSplit(b: Builder, args: seq<Expr>, params: seq<Ty>)
    requires args != [] && params != []
    ensures var x := LowerExpr(b, args[0]); var y := Argument(x.b, x.o, x.ty, params[0]);
      var rest := LowerArgs(y.b, args[1..], params[1..]);
      LowerArgs(b, args, params) == Passed(rest.b, [y.o] + rest.os)
  {
  }

  /** An argument is converted exactly when it is passed as a number of another type. */
  lemma PassConverts(w: World, x: Typed, to: Ty)
    requires Pass(w, x, to).Some?
    ensures !IsPtr(x.ty) && to != x.ty ==> Pass(w, x, to) == Convert(w, x, to)
    ensures IsPtr(x.ty) || to == x.ty ==> Pass(w, x, to) == Some(x.v)
  {
  }

  // ----- variables -----

  lemma EvalThree(w: World, env: map<Id, Val>, x: Operand, y: Operand, z: Operand, vx: Val, vy: Val, vz: Val)
    requires Eval(w, env, x) == Some(vx) && Eval(w, env, y) == Some(vy) && Eval(w, env, z) == Some(vz)
    ensures EvalAll(w, env, [x, y, z]) == Some([vx, vy, vz])
  {
    EvalTwo(w, env, y, z, vy, vz);
    assert [x, y, z][1..] == [y, z] && [vx] + [vy, vz] == [vx, vy, vz];
  }

  /** How a variable that is bound to an address is addressed. */
  lemma VarMatches(w: World, scope: seq<map<string, Symbol>>, s: State, src: Source, id: string)
    requires Rel(w, scope, s, src) && Lookup(src.frames, id).Some?
    ensures Lookup(scope, id).Some? && EntryMatches(w, s.cells, Lookup(scope, id).value, Lookup(src.frames, id).value)
  {
    LookupMatches(w, scope, s.cells, src.frames, id);
  }

  lemma {:induction false} RefMeans(w: World, code: map<Block, seq<Instr>>, b: Builder, v: VarRef, s: State,
                                    src: Source) returns (n: nat, s': State)
    requires Starts(w, b, s, src) && Completes(code, LowerRef(b, v).b)
    ensures Evaluated(w, code, b, LowerRef(b, v), s, n, s', EvalRef(w, v, src))
    decreases v, 2
  {
    hide Ready, Rel, Completes, Keeps, Append, Stand, Tick, Ticking, Kept, LowerPlace, EvalPlace;
    n, s' := 0, s;
    if v.index.Some? {
      RelAddressed(w, b.scope, s, src);
      PlaceKept(b, v);
      var p := LowerPlace(b, v);
      KeptFacts(b, p.b);
      LoadCompletes(code, p);
      n, s' := PlaceMeans(w, code, b, v, s, src);
      var g := EvalPlace(w, v, src);
      if g.Got? && g.t.InMemory? {
        var s1 := s';
        s' := LoadTick(w, code, p.b, p.o, Fetch(s1.mem, g.t.addr), s1);
        SameMemory(w, p.b.scope, s1, g.s);
        TickMore(w, code, n, Stand(b, s), Stand(p.b, s1));
        KeepsTrans(b.nextId, p.b.nextId, s.env, s1.env, s'.env);
        RelEnv(w, p.b.scope, s1, s', g.s);
        NextId(p.b, Load(p.b.nextId, p.o));
        n := n + 1;
      }
    } else {
      n, s' := NameMeans(w, code, b, v, s, src);
    }
  }

  lemma SameMemory(w: World, scope: seq<map<string, Symbol>>, s: State, src: Source)
    requires Rel(w, scope, s, src)
    ensures s.mem == src.mem && s.trace == src.trace
  {
  }

  lemma LoadCompletes(code: map<Block, seq<Instr>>, p: Addr)
    requires Ready(p.b) && (p.held.One? ==> Completes(code, EmitLoad(p.b, p.o, p.held.ty).b))
    requires p.held.Many? ==> Completes(code, EmitGep(p.b, [p.o, Const(0), Const(0)], p.held.elem).b)
    ensures Completes(code, p.b)
  {
    hide Ready, Completes, Append;
    if p.held.One? {
      CompletesAppend(code, p.b, Load(p.b.nextId, p.o));
    } else {
      CompletesAppend(code, p.b, Gep(p.b.nextId, [p.o, Const(0), Const(0)]));
    }
  }

  /** A variable by its name alone. */
  lemma NameMeans(w: World, code: map<Block, seq<Instr>>, b: Builder, v: VarRef, s: State, src: Source)
    returns (n: nat, s': State)
    requires v.index.None? && Starts(w, b, s, src) && Completes(code, LowerRef(b, v).b)
    ensures Evaluated(w, code, b, LowerRef(b, v), s, n, s', EvalRef(w, v, src))
  {
    hide Ready, Rel, Completes, Keeps, Append, Stand, Tick, Lookup;
    n, s' := 0, s;
    var g := EvalRef(w, v, src);
    if g.Got? {
      VarMatches(w, b.scope, s, src, v.id);
      SameMemory(w, b.scope, s, src);
      var e, sym := Lookup<Entry>(src.frames, v.id).value, Lookup<Symbol>(b.scope, v.id).value;
      if e.Object? && e.held.Many? {
        EvalThree(w, s.env, sym.addr, Const(0), Const(0), e.addr, 0, 0);
        s' := GepTick(w, code, b, [sym.addr, Const(0), Const(0)], [e.addr, 0, 0], s);
        NextId(b, Gep(b.nextId, [sym.addr, Const(0), Const(0)]));
      } else {
        s' := LoadTick(w, code, b, sym.addr, g.t.v, s);
        NextId(b, Load(b.nextId, sym.addr));
      }
      TickMore(w, code, 0, Stand(b, s), Stand(b, s));
      RelEnv(w, b.scope, s, s', src);
      n := 1;
    }
  }

  lemma {:induction false} PlaceMeans(w: World, code: map<Block, seq<Instr>>, b: Builder, v: VarRef, s: State,
                                      src: Source) returns (n: nat, s': State)
    requires Starts(w, b, s, src) && Completes(code, LowerPlace(b, v).b)
    ensures Found(w, code, b, LowerPlace(b, v), s, n, s', EvalPlace(w, v, src))
    decreases v, 1
  {
    hide Ready, Rel, Completes, Keeps, Append, Stand, Tick, Ticking, Kept, Lookup, LowerCheck, LowerElement, Convert;
    n, s' := 0, s;
    if v.index.None? {
      NoSteps(w, code, b, s, src);
      if Lookup(src.frames, v.id).Some? {
        VarMatches(w, b.scope, s, src, v.id);
      }
    } else if Indexable(src.frames, v.id) {
      var i := v.index.value;
      VarMatches(w, b.scope, s, src, v.id);
      RelAddressed(w, b.scope, s, src);
      var sym := Lookup<Symbol>(b.scope, v.id).value;
      ExprKept(b, i);
      var x, g := LowerExpr(b, i), EvalExpr(w, i, src);
      KeptFacts(b, x.b);
      CheckKept(x.b, x.o, x.ty);
      var k := LowerCheck(x.b, x.o, x.ty);
      KeptFacts(x.b, k.b);
      ElementCompletes(code, k.b, sym.addr, sym.held, k.o);
      CompletesKept(code, x.b, k.b);
      n, s' := ExprMeans(w, code, b, i, s, src);
      if g.Got? && EvalPlace(w, v, src) != Wrong {
        var m, s2 := IndexedMeans(w, code, x.b, x.o, g.t, v.id, s', g.s);
        FoundLater(w, code, b, x.b, LowerPlace(b, v), s, s', n, m, s2, EvalPlace(w, v, src));
        n, s' := n + m, s2;
      }
    }
  }

  /** A piece that follows another finds a place. */
  lemma FoundLater(w: World, code: map<Block, seq<Instr>>, b: Builder, b1: Builder, r: Addr, s: State, s1: State,
                   n: nat, m: nat, s': State, g: Got<Place>)
    requires Ticking(w, code, n, Stand(b, s)) == Stand(b1, s1) && Keeps(b.nextId, s.env, s1.env)
    requires b.nextId <= b1.nextId && b1.ret == b.ret
    requires Found(w, code, b1, r, s1, m, s', g)
    ensures Found(w, code, b, r, s, n + m, s', g)
  {
    hide Rel, Keeps, Stand;
    TickingAdd(w, code, n, m, Stand(b, s));
    if g.Got? {
      KeepsTrans(b.nextId, b1.nextId, s.env, s1.env, s'.env);
    }
  }

  /** The place of an element, from the value of its index: the meaning of an indexed variable after that. */
  function AfterIndex(w: World, x: Typed, id: string, src: Source): Got<Place> {
    match Convert(w, x, Int)
    case Some(k) => if w.op("icmp_lt", [k, 0]) != 0 then NegativeIndex(w, src) else ElementAt(w, id, k, src)
    case None => Wrong
  }

  lemma IndexedMeans(w: World, code: map<Block, seq<Instr>>, b: Builder, o: Operand, x: Typed, id: string, s: State,
                     src: Source) returns (n: nat, s': State)
    requires Starts(w, b, s, src) && Eval(w, s.env, o) == Some(x.v) && Below(o, b.nextId)
    requires AfterIndex(w, x, id, src) != Wrong
    requires Lookup<Symbol>(b.scope, id).Some? && Lookup<Symbol>(b.scope, id).value.Var?
    requires var sym, k := Lookup<Symbol>(b.scope, id).value, LowerCheck(b, o, x.ty);
      Completes(code, LowerElement(k.b, sym.addr, sym.held, k.o).b)
    ensures var sym, k := Lookup<Symbol>(b.scope, id).value, LowerCheck(b, o, x.ty);
      Found(w, code, b, LowerElement(k.b, sym.addr, sym.held, k.o), s, n, s', AfterIndex(w, x, id, src))
  {
    hide Ready, Rel, Completes, Keeps, Append, Stand, Tick, Ticking, Kept, Lookup, LowerCheck, LowerElement, Convert;
    var sym, k, c := Lookup<Symbol>(b.scope, id).value, LowerCheck(b, o, x.ty), Convert(w, x, Int).value;
    CheckKept(b, o, x.ty);
    KeptFacts(b, k.b);
    ElementCompletes(code, k.b, sym.addr, sym.held, k.o);
    n, s' := CheckMeans(w, code, b, o, x, s, src);
    if w.op("icmp_lt", [c, 0]) == 0 {
      var s1 := s';
      RelEnv(w, b.scope, s, s1, src);
      var m, s2 := ElementMeans(w, code, k.b, id, k.o, c, s1, src);
      FoundLater(w, code, b, k.b, LowerElement(k.b, sym.addr, sym.held, k.o), s, s1, n, m, s2,
                 AfterIndex(w, x, id, src));
      n, s' := n + m, s2;
    }
  }

  lemma ElementCompletes(code: map<Block, seq<Instr>>, b: Builder, addr: Operand, held: Held, k: Operand)
    requires Ready(b) && Completes(code, LowerElement(b, addr, held, k).b)
    ensures Completes(code, b)
    ensures held.One? && IsPtr(held.ty) ==> Completes(code, Append(b, Load(b.nextId, addr)))
  {
    hide Ready, Completes, Append, Kept;
    if held.Many? {
      CompletesAppend(code, b, Gep(b.nextId, [addr, Const(0), k]));
    } else if IsPtr(held.ty) {
      SelfKept(b);
      var b1 := Append(b, Load(b.nextId, addr));
      AppendOne(b, b, Load(b.nextId, addr));
      KeptFacts(b, b1);
      CompletesAppend(code, b1, Gep(b1.nextId, [Reg(b.nextId), k]));
      CompletesAppend(code, b, Load(b.nextId, addr));
    } else {
      CompletesAppend(code, b, Gep(b.nextId, [addr, k]));
    }
  }

  /** The address of an element, given its index. */
  lemma ElementMeans(w: World, code: map<Block, seq<Instr>>, b: Builder, id: string, k: Operand, v: Val, s: State,
                     src: Source) returns (n: nat, s': State)
    requires Starts(w, b, s, src) && Eval(w, s.env, k) == Some(v) && Below(k, b.nextId) && ElementAt(w, id, v, src).Got?
    requires Lookup<Symbol>(b.scope, id).Some? && Lookup<Symbol>(b.scope, id).value.Var?
    requires Completes(code, LowerElement(b, Lookup<Symbol>(b.scope, id).value.addr,
                                          Lookup<Symbol>(b.scope, id).value.held, k).b)
    ensures Found(w, code, b,
                  LowerElement(b, Lookup<Symbol>(b.scope, id).value.addr, Lookup<Symbol>(b.scope, id).value.held, k), s,
                    n, s', ElementAt(w, id, v, src))
  {
    hide Ready, Rel, Completes, Keeps, Append, Stand, Tick, Lookup, Kept;
    var sym := Lookup<Symbol>(b.scope, id).value;
    VarMatches(w, b.scope, s, src, id);
    ElementCompletes(code, b, sym.addr, sym.held, k);
    var e := Lookup<Entry>(src.frames, id).value;
    if e.Local? {
      SelfKept(b);
      AppendOne(b, b, Load(b.nextId, sym.addr));
      var b1 := Append(b, Load(b.nextId, sym.addr));
      KeptFacts(b, b1);
      NextId(b, Load(b.nextId, sym.addr));
      var s1 := LoadTick(w, code, b, sym.addr, e.val.value, s);
      EvalKeeps(w, b.nextId, s.env, s1.env, k);
      EvalTwo(w, s1.env, Reg(b.nextId), k, e.val.value, v);
      s' := GepTick(w, code, b1, [Reg(b.nextId), k], [e.val.value, v], s1);
      TickMore(w, code, 0, Stand(b, s), Stand(b, s));
      TickMore(w, code, 1, Stand(b, s), Stand(b1, s1));
      KeepsTrans(b.nextId, b1.nextId, s.env, s1.env, s'.env);
      n := 2;
    } else {
      EvalThree(w, s.env, sym.addr, Const(0), k, e.addr, 0, v);
      s' := GepTick(w, code, b, [sym.addr, Const(0), k], [e.addr, 0, v], s);
      TickMore(w, code, 0, Stand(b, s), Stand(b, s));
      n := 1;
    }
    RelEnv(w, b.scope, s, s', src);
    ScopeKept(b, sym.addr, sym.held, k);
  }

  lemma NextId(b: Builder, i: Instr)
    ensures Append(b, i).nextId == b.nextId + 1 && Append(b, i).scope == b.scope
  {
  }

  lemma ScopeKept(b: Builder, addr: Operand, held: Held, k: Operand)
    ensures LowerElement(b, addr, held, k).b.scope == b.scope
  {
  }

  /** A comparison with zero and the branch on it. */
  lemma ForkMeans(w: World, code: map<Block, seq<Instr>>, b: Builder, op: string, o: Operand, v: Val, t: Block,
                  f: Block, s: State) returns (s': State)
    requires Ready(b) && Completes(code, Forked(b, op, o, t, f)) && Eval(w, s.env, o) == Some(v)
    ensures Ticking(w, code, 2, Stand(b, s)) == Here(if w.op(op, [v, 0]) != 0 then t else f, 0, s')
    ensures Completes(code, b) && Keeps(b.nextId, s.env, s'.env) && s' == s.(env := s'.env)
  {
    hide Ready, Completes, Append, Keeps, Stand, Kept;
    var i, b1 := Op(b.nextId, op, [o, Const(0)]), EmitOp(b, op, [o, Const(0)], Int).b;
    SelfKept(b);
    AppendOne(b, b, i);
    KeptFacts(b, b1);
    var j := CondBr(b1.nextId, Reg(b.nextId), t, f);
    ForkedCode(b1, Reg(b.nextId), t, f);
    CompletesSame(code, Append(b1, j), Forked(b, op, o, t, f));
    CompletesAppend(code, b1, j);
    EvalTwo(w, s.env, o, Const(0), v, 0);
    s' := OpTick(w, code, b, op, [o, Const(0)], [v, 0], s);
    AppendTick(w, code, b1, j, s');
    TickMore(w, code, 0, Stand(b, s), Stand(b, s));
    TickMore(w, code, 1, Stand(b, s), Stand(b1, s'));
  }

  lemma ForkedCode(b: Builder, c: Operand, t: Block, f: Block)
    ensures SetInsert(EmitCondBr(b, c, t, f), t).code == Append(b, CondBr(b.nextId, c, t, f)).code
  {
  }

  lemma NewBlocksStand(b: Builder, s: State)
    requires Ready(b)
    ensures Stand(NewBlock(b), s) == Stand(b, s) && Stand(NewBlock(NewBlock(b)), s) == Stand(b, s)
    ensures Stand(NewBlock(NewBlock(NewBlock(b))), s) == Stand(b, s)
  {
    hide Mirrored, Open;
  }

  /** The check of an index: an int that is not negative, or the function is left. */
  lemma CheckMeans(w: World, code: map<Block, seq<Instr>>, b: Builder, o: Operand, x: Typed, s: State, src: Source)
    returns (n: nat, s': State)
    requires Starts(w, b, s, src) && Completes(code, LowerCheck(b, o, x.ty).b)
    requires Eval(w, s.env, o) == Some(x.v) && Below(o, b.nextId) && Convert(w, x, Int).Some?
    requires w.op("icmp_lt", [Convert(w, x, Int).value, 0]) != 0 ==> NegativeIndex<Place>(w, src).Left?
    ensures var c := Convert(w, x, Int).value; var l: Got<Place> := NegativeIndex(w, src);
      var k := LowerCheck(b, o, x.ty);
      if w.op("icmp_lt", [c, 0]) != 0 then LeftBy(w, code, b, s, n, s', l.mem, l.trace)
      else
        Ticking(w, code, n, Stand(b, s)) == Stand(k.b, s') && Eval(w, s'.env, k.o) == Some(c)
        && Keeps(b.nextId, s.env, s'.env) && s' == s.(env := s'.env)
  {
    hide Good, Open, Rel, Completes, Append, Keeps, Grows, Forked, LowerNegative, Ticking, Index, LowerCheck;
    var e, c := b.nextBlock, Convert(w, x, Int).value;
    var k := Index(b, o, x.ty);
    IndexReady(b, o, x.ty);
    ForkGrows(b, k.b, "icmp_lt", k.o, e, e + 1, {e, e + 1});
    var b2 := Forked(k.b, "icmp_lt", k.o, e, e + 1);
    CheckCode(b, o, x.ty);
    CompletesSame(code, LowerNegative(b2), LowerCheck(b, o, x.ty).b);
    NegativeCompletes(code, b2);
    ForkCompletes(code, k.b, "icmp_lt", k.o, e, e + 1);
    n, s' := IndexMeans(w, code, b, o, x, s);
    var s2 := ForkMeans(w, code, k.b, "icmp_lt", k.o, c, e, e + 1, s');
    TickingAdd(w, code, n, 2, Stand(b, s));
    KeepsTrans(b.nextId, k.b.nextId, s.env, s'.env, s2.env);
    if w.op("icmp_lt", [c, 0]) != 0 {
      RelEnv(w, b.scope, s, s2, src);
      var n3, s3 := NegativeMeans(w, code, b2, s2, src);
      TickingAdd(w, code, n + 2, n3, Stand(b, s));
      n, s' := n + 2 + n3, s3;
    } else {
      EvalKeeps(w, k.b.nextId, s'.env, s2.env, k.o);
      n, s' := n + 2, s2;
    }
  }

  lemma ForkCompletes(code: map<Block, seq<Instr>>, b: Builder, op: string, o: Operand, t: Block, f: Block)
    requires Ready(b) && Completes(code, Forked(b, op, o, t, f))
    ensures Completes(code, b)
  {
    hide Ready, Completes, Append, Kept;
    var i, b1 := Op(b.nextId, op, [o, Const(0)]), EmitOp(b, op, [o, Const(0)], Int).b;
    SelfKept(b);
    AppendOne(b, b, i);
    KeptFacts(b, b1);
    var j := CondBr(b1.nextId, Reg(b.nextId), t, f);
    ForkedCode(b1, Reg(b.nextId), t, f);
    CompletesSame(code, Append(b1, j), Forked(b, op, o, t, f));
    CompletesAppend(code, b1, j);
    CompletesAppend(code, b, i);
  }

  lemma OthersSame(b: Builder, b': Builder, todo: set<Block>, x: Block)
    requires Grows(b, b', todo) && x in b.code && x != b.cur
    ensures b'.Code(x) == b.Code(x)
  {
  }

  /** Where the parts of a check are. */
  lemma CheckCode(b: Builder, o: Operand, ty: Ty)
    requires Ready(b)
    ensures var e, k, l := b.nextBlock, Index(b, o, ty), LowerCheck(b, o, ty);
      var b2 := Forked(k.b, "icmp_lt", k.o, e, e + 1);
      && l.o == k.o && l.b.code == LowerNegative(b2).code && l.b.cur == e + 1 && l.b.Code(e + 1) == []
      && b2.cur == e && b2.Code(e) == [] && b2.ret == b.ret && b2.scope == b.scope && Ready(b2)
  {
    hide Good, Open, Grows, Append, LowerNegative;
    var e, k := b.nextBlock, Index(b, o, ty);
    IndexReady(b, o, ty);
    TodoEmpty(b, k.b, {e, e + 1}, e);
    ForkedOthers(k.b, "icmp_lt", k.o, e, e + 1, e);
    ForkGrows(b, k.b, "icmp_lt", k.o, e, e + 1, {e, e + 1});
    assert {e, e + 1} - {e} == {e + 1};
    var b2 := Forked(k.b, "icmp_lt", k.o, e, e + 1);
    TodoEmpty(b, b2, {e + 1}, e + 1);
    NegativeGrows(b2);
    OthersSame(b2, LowerNegative(b2), {}, e + 1);
  }

  lemma NegativeCompletes(code: map<Block, seq<Instr>>, b: Builder)
    requires Ready(b) && Completes(code, LowerNegative(b))
    ensures Completes(code, b)
  {
    hide Grows, Open, Completes;
    NegativeGrows(b);
    CompletesGrows(code, b, LowerNegative(b), {});
  }

  lemma IndexMeans(w: World, code: map<Block, seq<Instr>>, b: Builder, o: Operand, x: Typed, s: State)
    returns (n: nat, s': State)
    requires Ready(b) && Completes(code, Index(b, o, x.ty).b) && Eval(w, s.env, o) == Some(x.v)
    requires Convert(w, x, Int).Some?
    ensures var k := Index(b, o, x.ty);
      Ticking(w, code, n, Stand(b, s)) == Stand(k.b, s') && Eval(w, s'.env, k.o) == Convert(w, x, Int)
    ensures Keeps(b.nextId, s.env, s'.env) && s' == s.(env := s'.env)
  {
    hide Good, Open, Completes, Append, Stand, Tick, Grows;
    n, s' := 0, s;
    NewBlocksStand(b, s);
    if x.ty == Flt {
      var b1 := NewBlock(NewBlock(b));
      SelfKept(b);
      TwoNew(b, b);
      EvalTwo(w, s.env, o, o, x.v, x.v);
      s' := OpTick(w, code, b1, FPTOSI, [o], [x.v], s);
      TickMore(w, code, 0, Stand(b, s), Stand(b, s));
      n := 1;
    }
  }

  lemma DefaultValues(w: World, env: map<Id, Val>, ret: Ty)
    ensures EvalAll(w, env, DefaultOperands(ret)) == Some(Default(ret))
  {
    if ret != Void {
      EvalTwo(w, env, Const(0), Const(0), 0, 0);
    }
  }

  /** The call that reports a negative index, and the return after it. */
  lemma NegativeMeans(w: World, code: map<Block, seq<Instr>>, b: Builder, s: State, src: Source)
    returns (n: nat, s': State)
    requires Starts(w, b, s, src) && Completes(code, LowerNegative(b)) && NegativeIndex<Place>(w, src).Left?
    ensures var l: Got<Place> := NegativeIndex(w, src); LeftBy(w, code, b, s, n, s', l.mem, l.trace)
  {
    hide Ready, Completes, Append, Stand, Tick, Lookup, Kept, Matches, Apart, Addressed;
    LookupMatches(w, b.scope, s.cells, src.frames, NEGATIVE_INDEX);
    var name := Lookup<Entry>(src.frames, NEGATIVE_INDEX).value.name;
    var i := Call(b.nextId, name, []);
    var b1 := Append(b, i);
    SelfKept(b);
    AppendOne(b, b, i);
    KeptFacts(b, b1);
    var j := Instr.Ret(b1.nextId, DefaultOperands(b.ret));
    CompletesAppend(code, b1, j);
    var (r, m) := w.call(name, [], s.mem);
    s' := State(s.env[b.nextId := r], s.cells, m, s.trace + [Called(name, [], r)]);
    assert ExecInstr(w, i, s) == Some(s');
    AppendTick(w, code, b, i, s);
    DefaultValues(w, s'.env, b.ret);
    AppendTick(w, code, b1, j, s');
    TickMore(w, code, 0, Stand(b, s), Stand(b, s));
    TickMore(w, code, 1, Stand(b, s), Stand(b1, s'));
    n := 2;
  }

  // ----- assignment -----

  lemma {:induction false} AssignMeans(w: World, code: map<Block, seq<Instr>>, b: Builder, d: VarRef, rhs: Expr,
                                       s: State, src: Source) returns (n: nat, s': State)
    requires Starts(w, b, s, src) && Completes(code, LowerExpr(b, Assign(d, rhs)).b)
    ensures Evaluated(w, code, b, LowerExpr(b, Assign(d, rhs)), s, n, s', EvalExpr(w, Assign(d, rhs), src))
    decreases Assign(d, rhs), 2
  {
    hide Ready, Rel, Completes, Keeps, Append, Stand, Tick, Ticking, Kept, LowerPlace, EvalPlace, Convert, Coerce,
      SetLocal;
    RelAddressed(w, b.scope, s, src);
    ExprKept(b, rhs);
    var x := LowerExpr(b, rhs);
    KeptFacts(b, x.b);
    PlaceKept(x.b, d);
    var p := LowerPlace(x.b, d);
    KeptFacts(x.b, p.b);
    StoreCompletes(code, p.b, x.o, x.ty, p.o, p.held);
    CompletesKept(code, x.b, p.b);
    n, s' := ExprMeans(w, code, b, rhs, s, src);
    var g := EvalExpr(w, rhs, src);
    if g.Got? {
      var n1, s1 := n, s';
      var n2, s2 := PlaceMeans(w, code, x.b, d, s1, g.s);
      var q := EvalPlace(w, d, g.s);
      n, s' := n1 + n2, s2;
      if q.Left? {
        LeftLater(w, code, b, x.b, s, s1, n1, n2, s2, q.mem, q.trace);
      } else if q.Got? && Write(w, q.t, g.t, q.s).Got? {
        TickingAdd(w, code, n1, n2, Stand(b, s));
        KeepsTrans(b.nextId, x.b.nextId, s.env, s1.env, s2.env);
        EvalKeeps(w, x.b.nextId, s1.env, s2.env, x.o);
        var n3, s3 := StoreMeans(w, code, p.b, x.o, g.t, p.o, p.held, q.t, s2, q.s);
        TickingAdd(w, code, n, n3, Stand(b, s));
        KeepsTrans(b.nextId, p.b.nextId, s.env, s2.env, s3.env);
        n, s' := n + n3, s3;
      }
    }
  }

  /** The value that is stored, in the type of what it is stored to. */
  function ToStore(b: Builder, o: Operand, ty: Ty, held: Held): Tmp {
    if held == One(ty) then Tmp(b, o, ty) else Coerce(b, o, ty)
  }

  lemma StoreCompletes(code: map<Block, seq<Instr>>, b: Builder, o: Operand, ty: Ty, addr: Operand, held: Held)
    requires Ready(b) && Completes(code, EmitStore(ToStore(b, o, ty, held).b, ToStore(b, o, ty, held).o, addr))
    ensures Completes(code, b) && Completes(code, ToStore(b, o, ty, held).b) && Ready(ToStore(b, o, ty, held).b)
  {
    hide Ready, Completes, Append, Kept, Coerce;
    SelfKept(b);
    CoerceKept(b, b, o, ty);
    var y := ToStore(b, o, ty, held);
    KeptFacts(b, y.b);
    CompletesAppend(code, y.b, Store(y.b.nextId, y.o, addr));
    CompletesKept(code, b, y.b);
  }

  lemma StoreMeans(w: World, code: map<Block, seq<Instr>>, b: Builder, o: Operand, x: Typed, addr: Operand, held: Held,
                   p: Place, s: State, src: Source) returns (n: nat, s': State)
    requires Starts(w, b, s, src) && held == One(p.ty) && Eval(w, s.env, o) == Some(x.v) && Write(w, p, x, src).Got?
    requires Completes(code, EmitStore(ToStore(b, o, x.ty, held).b, ToStore(b, o, x.ty, held).o, addr))
    requires match p
      case Cell(id, ty) => addr.Slot? && Lookup(b.scope, id) == Some(Var(addr, One(ty)))
      case InMemory(a, _) => !addr.Slot? && Eval(w, s.env, addr) == Some(a)
    requires Below(addr, b.nextId)
    ensures var y, g := ToStore(b, o, x.ty, held), Write(w, p, x, src);
      Evaluated(w, code, b, Tmp(EmitStore(y.b, y.o, addr), y.o, y.ty), s, n, s', g)
  {
    hide Ready, Completes, Append, Stand, Tick, Ticking, Keeps, Lookup, Kept, Matches, Apart, Addressed, Coerce,
      Convert,
      SetLocal;
    n, s' := 0, s;
    Unmoved(w, code, Stand(b, s), b.nextId, s.env);
    StoreCompletes(code, b, o, x.ty, addr, held);
    var y, v := ToStore(b, o, x.ty, held), Convert(w, x, p.ty).value;
    if held == One(x.ty) {
      ConvertSame(w, x);
    } else {
      s' := CoerceMeans(w, code, b, o, x, p.ty, s);
      TickMore(w, code, 0, Stand(b, s), Stand(b, s));
      n := 1;
    }
    SelfKept(b);
    CoerceKept(b, b, o, x.ty);
    KeptFacts(b, y.b);
    EvalKeeps(w, b.nextId, s.env, s'.env, addr);
    var i, s1 := Store(y.b.nextId, y.o, addr), s';
    s' := if addr.Slot? then s1.(cells := s1.cells[addr.v := v])
      else s1.(mem := s1.mem[p.addr := v], trace := s1.trace + [Stored(p.addr, v)]);
    assert ExecInstr(w, i, s1) == Some(s');
    AppendTick(w, code, y.b, i, s1);
    TickMore(w, code, n, Stand(b, s), Stand(y.b, s1));
    n := n + 1;
    NextId(y.b, i);
    if addr.Slot? {
      SetMatches(w, b.scope, s.cells, src.frames, p.id, addr.v, p.ty, v);
    }
  }

  lemma ConvertSame(w: World, x: Typed)
    requires Convert(w, x, x.ty).Some?
    ensures Convert(w, x, x.ty) == Some(x.v)
  {
  }
}
