/** Dead-code elimination on a whole module: with every function cleaned, calls between them included, the
    module still does the same. */
module CleanedModule {
  import opened ControlFlow
  import opened IR
  import opened Functions
  import opened Purity
  import opened PurityMeaning
  import opened DeadCodeMeaning
  import opened DeadCodePass
  import opened ModuleRuns

  // ----- worlds that cannot be told apart -----

  ghost predicate SameWorld(w: World, w': World) {
    && (forall k {:trigger w.arg(k)} {:trigger w'.arg(k)} :: w.arg(k) == w'.arg(k))
    && (forall x {:trigger w.global(x)} {:trigger w'.global(x)} :: w.global(x) == w'.global(x))
    && (forall v {:trigger w.slot(v)} {:trigger w'.slot(v)} :: w.slot(v) == w'.slot(v))
    && (forall vs {:trigger w.gep(vs)} {:trigger w'.gep(vs)} :: w.gep(vs) == w'.gep(vs))
    && (forall op, vs {:trigger w.op(op, vs)} {:trigger w'.op(op, vs)} :: w.op(op, vs) == w'.op(op, vs))
    && (forall f, vs, m {:trigger w.call(f, vs, m)} {:trigger w'.call(f, vs, m)} ::
          w.call(f, vs, m) == w'.call(f, vs, m))
  }

  lemma {:induction false} EvalAllSame(w: World, w': World, env: map<Id, Val>, os: seq<Operand>)
    requires SameWorld(w, w')
    ensures EvalAll(w, env, os) == EvalAll(w', env, os)
  {
    if os != [] {
      EvalAllSame(w, w', env, os[1..]);
    }
  }

  lemma InstrSame(w: World, w': World, i: Instr, s: State)
    requires SameWorld(w, w') && !i.IsTerminator()
    ensures ExecInstr(w, i, s) == ExecInstr(w', i, s)
  {
    hide EvalAll;
    EvalAllSame(w, w', s.env, i.Operands());
  }

  lemma {:induction false} CodeSame(w: World, w': World, code: seq<Instr>, s: State)
    requires SameWorld(w, w')
    ensures ExecCode(w, code, s) == ExecCode(w', code, s)
  {
    hide SameWorld, ExecInstr, EvalAll;
    if code != [] {
      if code[0].IsTerminator() {
        ExitSame(w, w', code[0], s);
      } else {
        InstrSame(w, w', code[0], s);
        if ExecInstr(w, code[0], s).Some? {
          CodeSame(w, w', code[1..], ExecInstr(w, code[0], s).value);
        }
      }
    }
  }

  lemma ExitSame(w: World, w': World, i: Instr, s: State)
    requires SameWorld(w, w') && i.IsTerminator()
    ensures ExecExit(w, i, s) == ExecExit(w', i, s)
  {
    hide EvalAll;
    EvalAllSame(w, w', s.env, i.Operands());
  }

  lemma {:induction false} PhisSame(w: World, w': World, row: seq<Phi>, from: Block, env: map<Id, Val>)
    requires SameWorld(w, w')
    ensures EnterPhis(w, row, from, env) == EnterPhis(w', row, from, env)
  {
    if row != [] {
      PhisSame(w, w', row[1..], from, env);
    }
  }

  lemma AdvanceSame(w: World, w': World, f: Body, p: Point)
    requires SameWorld(w, w')
    ensures Advance(w, f, p) == Advance(w', f, p)
  {
    hide SameWorld, ExecCode, EnterPhis;
    if p.At? && p.block in f.code {
      CodeSame(w, w', f.code[p.block], p.state);
      var r := ExecCode(w, f.code[p.block], p.state);
      if r.Some? && r.value.1.Goto? && r.value.1.target in f.phis {
        PhisSame(w, w', f.phis[r.value.1.target], p.block, r.value.0.env);
      }
    }
  }

  lemma {:induction false} RunSame(w: World, w': World, f: Body, n: nat, p: Point)
    requires SameWorld(w, w')
    ensures Run(w, f, n, p) == Run(w', f, n, p)
  {
    hide SameWorld, Advance;
    if n > 0 {
      RunSame(w, w', f, n - 1, p);
      AdvanceSame(w, w', f, Run(w, f, n - 1, p));
    }
  }

  // ----- the cleaned module -----

  function StartOf(f: Func, m: Memory): Point
    requires f.blocks != []
  {
    At(f.blocks[0], State(map[], map[], m, []))
  }

  /** No call reads a value that does not exist. */
  ghost predicate NeverStuck(x: Setup, bound: nat) {
    forall depth: nat, f, vs, m {:trigger Run(WorldAt(x, depth, bound, vs), f.body, bound, StartOf(f, m))} ::
      f in x.p.funcs && f.blocks != [] ==> Run(WorldAt(x, depth, bound, vs), f.body, bound, StartOf(f, m)) != Stuck
  }

  ghost predicate AllCleaned(pure: set<string>, funcs: seq<Func>, funcs': seq<Func>) {
    |funcs'| == |funcs| && forall k {:trigger funcs[k]} {:trigger funcs'[k]} ::
      0 <= k < |funcs| ==> Cleaned(pure, funcs[k], funcs'[k])
  }

  lemma {:induction false} FindCleaned(pure: set<string>, funcs: seq<Func>, funcs': seq<Func>, name: string)
    requires AllCleaned(pure, funcs, funcs')
    ensures FindFunc(funcs, name).Some? <==> FindFunc(funcs', name).Some?
    ensures FindFunc(funcs, name).Some? ==> Cleaned(pure, FindFunc(funcs, name).value, FindFunc(funcs', name).value)
  {
    hide Cleaned;
    if funcs != [] {
      CleanedShell(pure, funcs[0], funcs'[0]);
      assert forall k :: 0 <= k < |funcs[1..]| ==> funcs[1..][k] == funcs[k + 1] && funcs'[1..][k] == funcs'[k + 1];
      FindCleaned(pure, funcs[1..], funcs'[1..], name);
    }
  }

  lemma CleanedShell(pure: set<string>, f: Func, f': Func)
    requires Cleaned(pure, f, f')
    ensures SameShell(f, f')
  {
  }

  /** Every call between the cleaned functions returns what the call between the original ones returns, with the
      same memory. */
  lemma {:induction false} CleanedCall(x: Setup, x': Setup, rank: Id -> nat, uses: map<string, seq<string>>,
                                       pure: set<string>, depth: nat, bound: nat, name: string, vs: seq<Val>, m: Memory)
    requires AllRanked(x.p, rank) && Runs(x, uses) && FoundPure(x.p, rank, pure) && NeverStuck(x, bound)
    requires x' == x.(p := x'.p) && AllCleaned(pure, x.p.funcs, x'.p.funcs)
    ensures CallIn(x', depth, bound, name, vs, m) == CallIn(x, depth, bound, name, vs, m)
    decreases depth, 0
  {
    hide AllRanked, FoundPure, NeverStuck, AllCleaned, Cleaned, Framed, Linked, Indexed, Typed, Listed, Run, WorldAt,
      PureWorld, SameWorld;
    FindCleaned(pure, x.p.funcs, x'.p.funcs, name);
    var found, found' := FindFunc(x.p.funcs, name), FindFunc(x'.p.funcs, name);
    if found.Some? {
      var f, f' := found.value, found'.value;
      CleanedShell(pure, f, f');
      if f.blocks != [] && depth > 0 {
        CleanedRun(x, x', rank, uses, pure, depth - 1, bound, f, f', vs, m, bound);
        NotStuck(x, depth - 1, bound, f, vs, m);
      }
    }
  }

  lemma NotStuck(x: Setup, depth: nat, bound: nat, f: Func, vs: seq<Val>, m: Memory)
    requires NeverStuck(x, bound) && f in x.p.funcs && f.blocks != []
    ensures Run(WorldAt(x, depth, bound, vs), f.body, bound, StartOf(f, m)) != Stuck
  {
  }

  /** A cleaned function, calling cleaned functions, behaves as the original calling the originals. */
  lemma {:induction false} CleanedRun(x: Setup, x': Setup, rank: Id -> nat, uses: map<string, seq<string>>,
                                      pure: set<string>,
                                      depth: nat, bound: nat, f: Func, f': Func, vs: seq<Val>, m: Memory, steps: nat)
    requires AllRanked(x.p, rank) && Runs(x, uses) && FoundPure(x.p, rank, pure) && NeverStuck(x, bound)
    requires x' == x.(p := x'.p) && AllCleaned(pure, x.p.funcs, x'.p.funcs)
    requires f in x.p.funcs && f.blocks != [] && Cleaned(pure, f, f') && f'.blocks == f.blocks
    ensures SameOutcome(pure, Run(WorldAt(x, depth, bound, vs), f.body, steps, StartOf(f, m)),
                              Run(WorldAt(x', depth, bound, vs), f'.body, steps, StartOf(f', m)))
    decreases depth, 1
  {
    hide AllRanked, FoundPure, NeverStuck, AllCleaned, Cleaned, Framed, Linked, Indexed, Typed, Listed, Run, CallIn,
      PureWorld, SameOutcome;
    var w, w' := WorldAt(x, depth, bound, vs), WorldAt(x', depth, bound, vs);
    forall name, args, mem
      ensures w'.call(name, args, mem) == w.call(name, args, mem)
    {
      CleanedCall(x, x', rank, uses, pure, depth, bound, name, args, mem);
    }
    assert SameWorld(w, w');
    RunSame(w, w', f'.body, steps, StartOf(f', m));
    ModuleWorldPure(x, rank, uses, pure, depth, bound, vs);
    CleanedBehaves(w, f, pure, f', StartOf(f, m), steps);
  }
}
