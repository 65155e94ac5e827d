/** Calls between the functions of a module: a call runs the body of the function that is called, with a frame
    of its own that is gone when it returns.  Pure functions are then seen to leave memory as it was. */
module ModuleRuns {
  import opened ControlFlow
  import opened IR
  import opened Functions
  import opened Purity
  import opened PurityMeaning

  /** A module, the world outside it, and where the frame of a call at each depth has its slots: `own` tells
      which addresses belong to the frame at that depth. */
  datatype Setup = Setup(p: Program, outside: World, slots: (nat, Var) -> Val, own: (nat, Val) -> bool)

  function FindFunc(funcs: seq<Func>, name: string): (r: Option<Func>)
    ensures r.Some? ==> r.value in funcs && r.value.name == name
    ensures r.None? ==> forall f :: f in funcs ==> f.name != name
  {
    if funcs == [] then None
    else if funcs[0].name == name then Some(funcs[0])
    else FindFunc(funcs[1..], name)
  }

  /** The world in which a function runs that has been called with `args`, when `depth` more calls may be nested
      and each may run `bound` blocks. */
  function WorldAt(x: Setup, depth: nat, bound: nat, args: seq<Val>): World
    decreases depth, 1
  {
    World(k => if 0 <= k < |args| then args[k] else 0,
          x.outside.global,
          v => x.slots(depth, v),
          x.outside.gep,
          x.outside.op,
          (name, vs, m) => CallIn(x, depth, bound, name, vs, m))
  }

  /** A call made at some depth.  A declaration is left to the world outside; a call that goes too deep or does
      not return in time gives a default value and no change. */
  function CallIn(x: Setup, depth: nat, bound: nat, name: string, vs: seq<Val>, m: Memory): (Val, Memory)
    decreases depth, 0
  {
    match FindFunc(x.p.funcs, name)
    case None => x.outside.call(name, vs, m)
    case Some(f) =>
      if f.blocks == [] then x.outside.call(name, vs, m)
      else if depth == 0 then (0, m)
      else
        match Run(WorldAt(x, depth - 1, bound, vs), f.body, bound, At(f.blocks[0], State(map[], map[], m, [])))
        case Finished(vals, s) => (if vals == [] then 0 else vals[0], WithoutFrame(x, depth - 1, m, s.mem))
        case _ => (0, m)
  }

  /** The memory after a call: the addresses of its frame are as before the call. */
  function WithoutFrame(x: Setup, depth: nat, before: Memory, after: Memory): Memory {
    map a | a in before.Keys + after.Keys && (if x.own(depth, a) then a in before else a in after) ::
      if x.own(depth, a) then before[a] else after[a]
  }

  /** Each frame holds its slots and is closed under computing element addresses. */
  ghost predicate Framed(x: Setup) {
    && (forall d: nat, v {:trigger x.slots(d, v)} :: x.own(d, x.slots(d, v)))
    && (forall d: nat, vs {:trigger x.own(d, x.outside.gep(vs))} ::
          |vs| > 0 && x.own(d, vs[0]) ==> x.own(d, x.outside.gep(vs)))
  }

  /** The set has the functions of the module that the analysis finds pure. */
  ghost predicate FoundPure(p: Program, rank: Id -> nat, pure: set<string>)
    requires AllRanked(p, rank)
  {
    forall a {:trigger a in pure} {:trigger IsName(p, a)} :: a in pure <==> IsName(p, a) && !Tainted(p, rank, a)
  }

  /** A module that can be run: frames are as they should be, and every function is well formed. */
  ghost predicate Runs(x: Setup, uses: map<string, seq<string>>) {
    && Framed(x) && Linked(x.p, uses)
    && forall f {:trigger f in x.p.funcs} :: f in x.p.funcs ==> Indexed(f, x.p.nodes) && Typed(x.p, f) && Listed(f)
  }

  lemma FrameOwned(x: Setup, depth: nat, bound: nat, args: seq<Val>)
    requires Framed(x)
    ensures OwnMemory(WorldAt(x, depth, bound, args), a => x.own(depth, a))
  {
    var own := a => x.own(depth, a);
    var w := WorldAt(x, depth, bound, args);
    forall v
      ensures own(w.slot(v))
    {
      assert x.own(depth, x.slots(depth, v));
    }
    forall vs | |vs| > 0 && own(vs[0])
      ensures own(w.gep(vs))
    {
      assert x.own(depth, x.outside.gep(vs));
    }
  }

  lemma FrameGone(x: Setup, depth: nat, before: Memory, after: Memory)
    requires SameOutside(a => x.own(depth, a), before, after)
    ensures WithoutFrame(x, depth, before, after) == before
  {
    var own := a => x.own(depth, a);
    var m := WithoutFrame(x, depth, before, after);
    forall a
      ensures (a in m <==> a in before) && (a in before ==> m[a] == before[a])
    {
      assert own(a) == x.own(depth, a);
    }
  }

  /** The functions that an untainted function calls are in the set. */
  lemma CalleesFound(p: Program, rank: Id -> nat, uses: map<string, seq<string>>, pure: set<string>, f: Func)
    requires AllRanked(p, rank) && Linked(p, uses) && FoundPure(p, rank, pure) && f in p.funcs
    ensures forall g {:trigger Calls(f, g)} :: Calls(f, g) && !Tainted(p, rank, g) ==> g in pure
  {
    hide Tainted, Calls, AllRanked;
    assert Named(p, f, f.name);
    forall g | Calls(f, g) && !Tainted(p, rank, g)
      ensures g in pure
    {
      assert CallsByName(p, f.name, g);
    }
  }

  /** In the world of a module the functions found pure leave memory exactly as it was, whatever they call. */
  lemma {:induction false} PureCallKeepsMemory(x: Setup, rank: Id -> nat, uses: map<string, seq<string>>,
                                               pure: set<string>,
                                               depth: nat, bound: nat, name: string, vs: seq<Val>, m: Memory)
    requires AllRanked(x.p, rank) && Runs(x, uses) && FoundPure(x.p, rank, pure) && name in pure
    ensures CallIn(x, depth, bound, name, vs, m).1 == m
    decreases depth, 0
  {
    hide Tainted, AllRanked, Framed, Linked, Indexed, Typed, Listed, PureWorld, OwnMemory, SameOutside, WithoutFrame,
      Run;
    var f := FindFunc(x.p.funcs, name).value;
    UntaintedBody(x.p, rank, f);
    if depth > 0 {
      var w := WorldAt(x, depth - 1, bound, vs);
      var own := a => x.own(depth - 1, a);
      ModuleWorldPure(x, rank, uses, pure, depth - 1, bound, vs);
      FrameOwned(x, depth - 1, bound, vs);
      CalleesFound(x.p, rank, uses, pure, f);
      PureFunctionKeepsMemory(x.p, f, rank, pure, own, w, f.blocks[0], m, bound);
      var end := Run(w, f.body, bound, At(f.blocks[0], State(map[], map[], m, [])));
      if end.Finished? {
        FrameGone(x, depth - 1, m, end.state.mem);
      }
    }
  }

  lemma {:induction false} ModuleWorldPure(x: Setup, rank: Id -> nat, uses: map<string, seq<string>>, pure: set<string>,
                                           depth: nat, bound: nat, args: seq<Val>)
    requires AllRanked(x.p, rank) && Runs(x, uses) && FoundPure(x.p, rank, pure)
    ensures PureWorld(WorldAt(x, depth, bound, args), pure)
    decreases depth, 1
  {
    hide AllRanked, Runs, FoundPure, CallIn;
    var w := WorldAt(x, depth, bound, args);
    forall name, vs, m | name in pure
      ensures w.call(name, vs, m).1 == m
    {
      PureCallKeepsMemory(x, rank, uses, pure, depth, bound, name, vs, m);
    }
  }

  lemma UntaintedBody(p: Program, rank: Id -> nat, f: Func)
    requires AllRanked(p, rank) && f in p.funcs && !Tainted(p, rank, f.name)
    ensures f.blocks != []
  {
    hide Tainted;
    if f.blocks == [] {
      assert Ranked(p, f, rank) && Rejected(p, f, rank) && Named(p, f, f.name);
      RejectedTainted(p, rank, f.name);
    }
  }
}
