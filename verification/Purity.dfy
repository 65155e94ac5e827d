/** Which functions are pure: those from which no chain of calls reaches a function with an effect of its own. */
module Purity {
  import opened ControlFlow
  import opened IR
  import opened Functions

  // ----- addresses -----

  /** The operand is a pointer. */
  predicate IsPointer(p: Program, f: Func, o: Operand) {
    match o
    case Const(_) => false
    case Arg(n) => 0 <= n < |f.params| && f.params[n] == Pointer
    case Global(_) => true
    case Slot(_) => true
    case Elem(_) => true
    case Reg(id) => id in p.pointers
  }

  function FirstPointer(p: Program, f: Func, os: seq<Operand>): Option<Operand> {
    if os == [] then None
    else if IsPointer(p, f, os[0]) then Some(os[0])
    else FirstPointer(p, f, os[1..])
  }

  /** The operand in which the search for the address behind an instruction goes on, if it does. */
  function NextAddr(p: Program, f: Func, id: Id): Option<Operand> {
    if id !in p.nodes then None
    else
      match p.nodes[id]
      case Inner(Alloca(_, _)) => None
      case Inner(Gep(_, args)) => if args == [] then None else Some(args[0])
      case Inner(Load(_, _)) => None
      case n => FirstPointer(p, f, n.Uses())
  }

  /** Addresses are computed from earlier ones: what makes the search end. */
  ghost predicate Ranked(p: Program, f: Func, rank: Id -> nat) {
    forall id {:trigger NextAddr(p, f, id)} :: NextAddr(p, f, id).Some? && Def(NextAddr(p, f, id).value).Some? ==>
      rank(Def(NextAddr(p, f, id).value).value) < rank(id)
  }

  function GetFirstAddr(p: Program, f: Func, ghost rank: Id -> nat, o: Operand): Operand
    requires Ranked(p, f, rank)
    decreases if Def(o).Some? then rank(Def(o).value) + 1 else 0
  {
    if o.Slot? || Def(o).None? || NextAddr(p, f, Def(o).value).None? then o
    else GetFirstAddr(p, f, rank, NextAddr(p, f, Def(o).value).value)
  }

  /** Operand `k` is the first that is a pointer. */
  predicate FirstAt(p: Program, f: Func, os: seq<Operand>, k: nat) {
    k < |os| && IsPointer(p, f, os[k]) && forall j :: 0 <= j < k ==> !IsPointer(p, f, os[j])
  }

  lemma {:induction false} FirstPointerAt(p: Program, f: Func, os: seq<Operand>, o: Operand)
    ensures FirstPointer(p, f, os) == Some(o) <==> exists k: nat :: FirstAt(p, f, os, k) && os[k] == o
  {
    if os != [] {
      FirstPointerAt(p, f, os[1..], o);
      if k: nat :| FirstAt(p, f, os, k) && os[k] == o {
        if k > 0 {
          assert FirstAt(p, f, os[1..], k - 1) && os[1..][k - 1] == o;
        }
      }
      if IsPointer(p, f, os[0]) {
        assert FirstAt(p, f, os, 0);
      } else if k: nat :| FirstAt(p, f, os[1..], k) && os[1..][k] == o {
        assert FirstAt(p, f, os, k + 1);
      }
    }
  }

  /** The address behind the operand is the one behind `next`: a Gep takes it from its first operand, a slot or a load
      is the end, and any other instruction takes it from its first operand that is a pointer. */
  ghost predicate StepsTo(p: Program, f: Func, o: Operand, next: Operand) {
    && !o.Slot? && Def(o).Some? && Def(o).value in p.nodes
    && match p.nodes[Def(o).value]
       case Inner(Gep(_, args)) => args != [] && args[0] == next
       case Inner(Alloca(_, _)) => false
       case Inner(Load(_, _)) => false
       case n => exists k: nat :: FirstAt(p, f, n.Uses(), k) && n.Uses()[k] == next
  }

  /** The search ends at the operand. */
  ghost predicate AddrEnd(p: Program, f: Func, o: Operand) {
    forall next {:trigger StepsTo(p, f, o, next)} :: !StepsTo(p, f, o, next)
  }

  lemma NextIsStep(p: Program, f: Func, o: Operand, next: Operand)
    ensures StepsTo(p, f, o, next) <==> !o.Slot? && Def(o).Some? && NextAddr(p, f, Def(o).value) == Some(next)
  {
    if !o.Slot? && Def(o).Some? && Def(o).value in p.nodes {
      FirstPointerAt(p, f, p.nodes[Def(o).value].Uses(), next);
    }
  }

  /** Each operand of the chain takes its address from the next. */
  ghost predicate AddrChain(p: Program, f: Func, chain: seq<Operand>) {
    |chain| > 0 && forall i {:trigger chain[i]} :: 0 <= i < |chain| - 1 ==> StepsTo(p, f, chain[i], chain[i + 1])
  }

  /** The search ends at the operand exactly when a chain of such steps leads to it. */
  lemma {:induction false} FirstAddrOfChain(p: Program, f: Func, rank: Id -> nat, o: Operand, end: Operand)
    requires Ranked(p, f, rank) && AddrEnd(p, f, end)
    ensures GetFirstAddr(p, f, rank, o) == end <==> exists chain ::
      AddrChain(p, f, chain) && chain[0] == o && chain[|chain| - 1] == end
    decreases if Def(o).Some? then rank(Def(o).value) + 1 else 0
  {
    hide NextAddr, StepsTo;
    forall next
      ensures StepsTo(p, f, o, next) <==> !o.Slot? && Def(o).Some? && NextAddr(p, f, Def(o).value) == Some(next)
    {
      NextIsStep(p, f, o, next);
    }
    if o.Slot? || Def(o).None? || NextAddr(p, f, Def(o).value).None? {
      if o == end {
        assert AddrChain(p, f, [o]) && [o][|[o]| - 1] == end;
      }
    } else {
      var next := NextAddr(p, f, Def(o).value).value;
      assert StepsTo(p, f, o, next);
      FirstAddrOfChain(p, f, rank, next, end);
      if chain :| AddrChain(p, f, chain) && chain[0] == next && chain[|chain| - 1] == end {
        ChainCons(p, f, o, chain);
        assert ([o] + chain)[|chain|] == end;
      }
      if chain :| AddrChain(p, f, chain) && chain[0] == o && chain[|chain| - 1] == end {
        ChainRest(p, f, chain);
      }
    }
  }

  lemma ChainCons(p: Program, f: Func, o: Operand, chain: seq<Operand>)
    requires AddrChain(p, f, chain) && StepsTo(p, f, o, chain[0])
    ensures AddrChain(p, f, [o] + chain)
  {
    hide StepsTo;
    var longer := [o] + chain;
    assert forall i :: 0 < i < |longer| ==> longer[i] == chain[i - 1];
  }

  lemma ChainRest(p: Program, f: Func, chain: seq<Operand>)
    requires AddrChain(p, f, chain) && |chain| > 1
    ensures AddrChain(p, f, chain[1..]) && StepsTo(p, f, chain[0], chain[1])
    ensures chain[1..][|chain| - 2] == chain[|chain| - 1]
  {
    hide StepsTo;
    var rest := chain[1..];
    assert forall i :: 0 <= i < |rest| ==> rest[i] == chain[i + 1];
  }

  /** A load or store whose address does not go back to a stack slot. */
  predicate IsSideEffect(p: Program, f: Func, ghost rank: Id -> nat, n: Node)
    requires Ranked(p, f, rank)
  {
    match n
    case Inner(Store(_, _, a)) => !GetFirstAddr(p, f, rank, a).Slot?
    case Inner(Load(_, a)) => !GetFirstAddr(p, f, rank, a).Slot?
    case _ => false
  }

  // ----- the specification -----

  /** The function is a declaration, is main, takes an array, or touches memory that is not its own. */
  ghost predicate Rejected(p: Program, f: Func, rank: Id -> nat)
    requires Ranked(p, f, rank)
  {
    || f.blocks == []
    || f.name == "main"
    || (exists k :: 0 <= k < |f.params| && f.params[k] != Integer && f.params[k] != Float)
    || (exists n {:trigger HasNode(f, n)} :: HasNode(f, n) && IsSideEffect(p, f, rank, n))
  }

  ghost predicate Calls(f: Func, callee: string) {
    exists n {:trigger HasNode(f, n)} :: HasNode(f, n) && n.Inner? && n.instr.Call? && n.instr.callee == callee
  }

  predicate Named(p: Program, f: Func, name: string) {
    f in p.funcs && f.name == name
  }

  predicate IsName(p: Program, name: string) {
    exists k :: 0 <= k < |p.funcs| && p.funcs[k].name == name
  }

  ghost predicate CallsByName(p: Program, caller: string, callee: string) {
    exists f {:trigger Named(p, f, caller)} :: Named(p, f, caller) && Calls(f, callee)
  }

  ghost predicate AllRanked(p: Program, rank: Id -> nat) {
    forall f {:trigger f in p.funcs} {:trigger Ranked(p, f, rank)} :: f in p.funcs ==> Ranked(p, f, rank)
  }

  ghost predicate RejectedByName(p: Program, rank: Id -> nat, name: string)
    requires AllRanked(p, rank)
  {
    exists f {:trigger Named(p, f, name)} :: Named(p, f, name) && Rejected(p, f, rank)
  }

  /** Each function of the chain calls the next. */
  ghost predicate CallChain(p: Program, chain: seq<string>) {
    |chain| > 0 && forall i {:trigger chain[i]} :: 0 <= i < |chain| - 1 ==> CallsByName(p, chain[i], chain[i + 1])
  }

  /** A chain of calls from the function, which may be the function alone, reaches a rejected one. */
  ghost predicate Tainted(p: Program, rank: Id -> nat, name: string)
    requires AllRanked(p, rank)
  {
    exists chain {:trigger CallChain(p, chain)} ::
      CallChain(p, chain) && chain[0] == name && RejectedByName(p, rank, chain[|chain| - 1])
  }

  lemma TaintedCaller(p: Program, rank: Id -> nat, caller: string, callee: string)
    requires AllRanked(p, rank) && CallsByName(p, caller, callee) && Tainted(p, rank, callee)
    ensures Tainted(p, rank, caller)
  {
    hide CallsByName, RejectedByName, AllRanked;
    var chain :| CallChain(p, chain) && chain[0] == callee && RejectedByName(p, rank, chain[|chain| - 1]);
    var longer := [caller] + chain;
    forall i | 0 <= i < |longer| - 1
      ensures CallsByName(p, longer[i], longer[i + 1])
    {
      if i > 0 {
        assert longer[i] == chain[i - 1] && longer[i + 1] == chain[i];
      }
    }
    assert CallChain(p, longer) && longer[|longer| - 1] == chain[|chain| - 1];
  }

  /** A set of impure functions that has the rejected ones and every caller of an impure one has all tainted ones. */
  lemma {:induction false} ChainImpure(p: Program, rank: Id -> nat, isPure: map<string, bool>, chain: seq<string>)
    requires AllRanked(p, rank) && CallChain(p, chain) && RejectedByName(p, rank, chain[|chain| - 1])
    requires forall name {:trigger RejectedByName(p, rank, name)} ::
      RejectedByName(p, rank, name) ==> Impure(isPure, name)
    requires forall a, b {:trigger CallsByName(p, a, b)} ::
      CallsByName(p, a, b) && Impure(isPure, b) ==> Impure(isPure, a)
    ensures Impure(isPure, chain[0])
  {
    if |chain| > 1 {
      var rest := chain[1..];
      assert forall i :: 0 <= i < |rest| ==> rest[i] == chain[i + 1];
      assert CallChain(p, rest);
      ChainImpure(p, rank, isPure, rest);
      assert CallsByName(p, chain[0], chain[1]);
    }
  }

  predicate Impure(isPure: map<string, bool>, name: string) {
    name in isPure && !isPure[name]
  }

  ghost predicate HasBodies(f: Func) {
    forall b {:trigger b in f.blocks} :: b in f.blocks ==> b in f.body.phis && b in f.body.code
  }

  /** A module that the analysis can be asked about: names are unique, every function called has a use list,
      and it lists the function of each call. */
  ghost predicate Linked(p: Program, uses: map<string, seq<string>>) {
    && (forall f, g {:trigger f in p.funcs, g in p.funcs} ::
          f in p.funcs && g in p.funcs && f.name == g.name ==> f == g)
    && (forall f {:trigger f in p.funcs} :: f in p.funcs ==> HasBodies(f))
    && (forall f {:trigger f in p.funcs} :: f in p.funcs ==> f.name in uses)
    && (forall g, a {:trigger a in uses[g]} :: g in uses ==> (a in uses[g] <==> CallsByName(p, a, g)))
    && (forall a, g {:trigger CallsByName(p, a, g)} :: CallsByName(p, a, g) ==> g in uses && IsName(p, g))
  }

  /** Everything found impure is tainted, and the callers of all but the waiting ones have been found. */
  ghost predicate Spreading(p: Program, rank: Id -> nat, isPure: map<string, bool>, waiting: seq<string>)
    requires AllRanked(p, rank)
  {
    && (forall a {:trigger a in isPure} {:trigger IsName(p, a)} :: a in isPure <==> IsName(p, a))
    && (forall a {:trigger isPure[a]} {:trigger Tainted(p, rank, a)} :: Impure(isPure, a) ==> Tainted(p, rank, a))
    && (forall a {:trigger RejectedByName(p, rank, a)} :: RejectedByName(p, rank, a) ==> Impure(isPure, a))
    && (forall a {:trigger a in waiting} :: a in waiting ==> Impure(isPure, a))
    && (forall a, b {:trigger CallsByName(p, a, b)} ::
          CallsByName(p, a, b) && Impure(isPure, b) && b !in waiting ==> Impure(isPure, a))
  }

  function PureNames(isPure: map<string, bool>): set<string> {
    set a | a in isPure && isPure[a]
  }

  /** The listed names are no longer pure; every other verdict stands. */
  ghost predicate Spoilt(before: map<string, bool>, after: map<string, bool>, names: seq<string>) {
    && after.Keys == before.Keys
    && forall a {:trigger after[a]} {:trigger before[a]} :: a in before ==> (after[a] <==> before[a] && a !in names)
  }

  lemma SpoiltNone(isPure: map<string, bool>)
    ensures Spoilt(isPure, isPure, [])
  {
  }

  lemma SpoiltNext(before: map<string, bool>, after: map<string, bool>, names: seq<string>, i: nat)
    requires i < |names| && Spoilt(before, after, names[..i]) && names[i] in after
    ensures Spoilt(before, if after[names[i]] then after[names[i] := false] else after, names[..i + 1])
  {
    assert names[..i + 1] == names[..i] + [names[i]];
  }

  lemma PureNamesLess(all: set<string>, isPure: map<string, bool>, name: string)
    requires name in isPure && isPure[name] && PureNames(isPure) <= all
    ensures PureNames(isPure[name := false]) == PureNames(isPure) - {name}
    ensures name !in all - PureNames(isPure)
    ensures all - PureNames(isPure[name := false]) == all - PureNames(isPure) + {name}
  {
    assert name in PureNames(isPure);
  }

  lemma CallerNamed(p: Program, a: string, g: string)
    requires CallsByName(p, a, g)
    ensures IsName(p, a)
  {
    var f :| Named(p, f, a) && Calls(f, g);
    var k :| 0 <= k < |p.funcs| && p.funcs[k] == f;
  }

  lemma RejectedTainted(p: Program, rank: Id -> nat, a: string)
    requires AllRanked(p, rank) && RejectedByName(p, rank, a)
    ensures Tainted(p, rank, a)
  {
    assert CallChain(p, [a]) && [a][|[a]| - 1] == a;
  }

  lemma Spread(p: Program, rank: Id -> nat, isPure: map<string, bool>, func: string, waiting: seq<string>, user: string)
    requires AllRanked(p, rank) && Spreading(p, rank, isPure, [func] + waiting)
    requires Impure(isPure, func) && CallsByName(p, user, func) && user in isPure && isPure[user]
    ensures Spreading(p, rank, isPure[user := false], [func] + (waiting + [user]))
    ensures PureNames(isPure[user := false]) < PureNames(isPure)
  {
    hide Tainted, RejectedByName, CallsByName, IsName;
    TaintedCaller(p, rank, user, func);
    assert forall a :: a in [func] + (waiting + [user]) <==> a in [func] + waiting || a == user;
    assert user in PureNames(isPure) && user !in PureNames(isPure[user := false]);
  }

  lemma FuncUsed(p: Program, uses: map<string, seq<string>>, rank: Id -> nat, isPure: map<string, bool>, func: string,
                 waiting: seq<string>)
    requires AllRanked(p, rank) && Linked(p, uses) && Spreading(p, rank, isPure, waiting) && Impure(isPure, func)
    ensures func in uses
    ensures forall a {:trigger CallsByName(p, a, func)} :: CallsByName(p, a, func) ==> a in uses[func]
  {
    assert IsName(p, func);
  }

  lemma UserKnown(p: Program, uses: map<string, seq<string>>, rank: Id -> nat, isPure: map<string, bool>, func: string,
                  waiting: seq<string>, user: string)
    requires AllRanked(p, rank) && Linked(p, uses) && Spreading(p, rank, isPure, waiting)
    requires func in uses && user in uses[func]
    ensures CallsByName(p, user, func) && user in isPure
  {
    CallerNamed(p, user, func);
  }

  /** All uses of the function have been looked at. */
  lemma Spreaded(p: Program, rank: Id -> nat, isPure: map<string, bool>, func: string, waiting: seq<string>,
                 users: seq<string>)
    requires AllRanked(p, rank) && Spreading(p, rank, isPure, [func] + waiting)
    requires forall a {:trigger CallsByName(p, a, func)} :: CallsByName(p, a, func) ==> a in users
    requires forall j :: 0 <= j < |users| ==> Impure(isPure, users[j])
    ensures Spreading(p, rank, isPure, waiting)
  {
    hide Tainted, RejectedByName, CallsByName, IsName;
    assert forall a :: a in [func] + waiting <==> a in waiting || a == func;
  }

  predicate NamedBefore(p: Program, i: int, a: string)
    requires 0 <= i <= |p.funcs|
  {
    exists k :: 0 <= k < i && p.funcs[k].name == a
  }

  ghost predicate Recorded(p: Program, rank: Id -> nat, isPure: map<string, bool>, k: int)
    requires 0 <= k < |p.funcs| && AllRanked(p, rank)
  {
    assert p.funcs[k] in p.funcs;
    p.funcs[k].name in isPure && isPure[p.funcs[k].name] == !Rejected(p, p.funcs[k], rank)
  }

  /** The first functions have their own verdict, and no others have one. */
  ghost predicate Trivial(p: Program, rank: Id -> nat, isPure: map<string, bool>, i: int)
    requires 0 <= i <= |p.funcs| && AllRanked(p, rank)
  {
    && (forall a {:trigger a in isPure} {:trigger NamedBefore(p, i, a)} :: a in isPure <==> NamedBefore(p, i, a))
    && (forall k {:trigger Recorded(p, rank, isPure, k)} :: 0 <= k < i ==> Recorded(p, rank, isPure, k))
  }

  lemma TrivialStep(p: Program, uses: map<string, seq<string>>, rank: Id -> nat, isPure: map<string, bool>, i: nat)
    requires AllRanked(p, rank) && Linked(p, uses) && i < |p.funcs| && Trivial(p, rank, isPure, i)
    requires Ranked(p, p.funcs[i], rank)
    ensures Trivial(p, rank, isPure[p.funcs[i].name := !Rejected(p, p.funcs[i], rank)], i + 1)
    ensures p.funcs[i].name in isPure ==> isPure[p.funcs[i].name] == !Rejected(p, p.funcs[i], rank)
  {
    hide Rejected, CallsByName, AllRanked, HasBodies;
    var f := p.funcs[i];
    var isPure' := isPure[f.name := !Rejected(p, f, rank)];
    assert f in p.funcs;
    forall k | 0 <= k < i
      ensures p.funcs[k].name == f.name ==> p.funcs[k] == f
      ensures Recorded(p, rank, isPure, k) && Recorded(p, rank, isPure', k)
    {
      assert p.funcs[k] in p.funcs;
      assert Recorded(p, rank, isPure, k);
    }
    forall a
      ensures a in isPure' <==> NamedBefore(p, i + 1, a)
    {
      assert a in isPure <==> NamedBefore(p, i, a);
      assert NamedBefore(p, i + 1, a) <==> NamedBefore(p, i, a) || a == f.name;
    }
  }

  lemma VerdictByName(p: Program, rank: Id -> nat, isPure: map<string, bool>, a: string)
    requires AllRanked(p, rank) && Trivial(p, rank, isPure, |p.funcs|)
    ensures Impure(isPure, a) <==> RejectedByName(p, rank, a)
  {
    hide Rejected;
    if Impure(isPure, a) {
      assert NamedBefore(p, |p.funcs|, a);
      var k :| 0 <= k < |p.funcs| && p.funcs[k].name == a;
      assert Recorded(p, rank, isPure, k) && Named(p, p.funcs[k], a);
    }
    if RejectedByName(p, rank, a) {
      var f :| Named(p, f, a) && Rejected(p, f, rank);
      var k :| 0 <= k < |p.funcs| && p.funcs[k] == f;
      assert Recorded(p, rank, isPure, k);
    }
  }

  lemma Seeded(p: Program, rank: Id -> nat, isPure: map<string, bool>, waiting: seq<string>)
    requires AllRanked(p, rank) && Trivial(p, rank, isPure, |p.funcs|)
    requires forall a {:trigger a in waiting} :: a in waiting <==> Impure(isPure, a)
    ensures Spreading(p, rank, isPure, waiting)
  {
    hide Rejected, AllRanked, Tainted, CallsByName;
    forall a
      ensures a in isPure <==> IsName(p, a)
      ensures Impure(isPure, a) <==> RejectedByName(p, rank, a)
      ensures Impure(isPure, a) ==> Tainted(p, rank, a)
    {
      assert a in isPure <==> NamedBefore(p, |p.funcs|, a);
      VerdictByName(p, rank, isPure, a);
      if RejectedByName(p, rank, a) {
        RejectedTainted(p, rank, a);
      }
    }
  }

  class FuncInfo {
    const p: Program
    const uses: map<string, seq<string>>
    var isPure: map<string, bool>
    var worklist: seq<string>

    constructor (p: Program, uses: map<string, seq<string>>)
      ensures this.p == p && this.uses == uses && isPure == map[] && worklist == []
    {
      this.p, this.uses, isPure, worklist := p, uses, map[], [];
    }

    method TrivialMark(f: Func, ghost rank: Id -> nat)
      requires Ranked(p, f, rank) && HasBodies(f)
      modifies `isPure
      ensures isPure == old(isPure)[f.name := !Rejected(p, f, rank)]
    {
      if f.blocks == [] || f.name == "main" {
        isPure := isPure[f.name := false];
        return;
      }
      for k := 0 to |f.params|
        invariant isPure == old(isPure)
        invariant forall j :: 0 <= j < k ==> f.params[j] == Integer || f.params[j] == Float
      {
        if f.params[k] != Integer && f.params[k] != Float {
          isPure := isPure[f.name := false];
          return;
        }
      }
      for i := 0 to |f.blocks|
        invariant isPure == old(isPure)
        invariant forall j, n {:trigger NodeIn(f, f.blocks[j], n)} ::
          0 <= j < i && NodeIn(f, f.blocks[j], n) ==> !IsSideEffect(p, f, rank, n)
      {
        assert f.blocks[i] in f.blocks;
        var nodes := NodesOf(f, f.blocks[i]);
        for k := 0 to |nodes|
          invariant isPure == old(isPure)
          invariant forall j :: 0 <= j < k ==> !IsSideEffect(p, f, rank, nodes[j])
        {
          if IsSideEffect(p, f, rank, nodes[k]) {
            assert nodes[k] in nodes && NodeIn(f, f.blocks[i], nodes[k]);
            assert HasNode(f, nodes[k]);
            isPure := isPure[f.name := false];
            return;
          }
        }
      }
      isPure := isPure[f.name := true];
    }

    /** Marks one caller of an impure function, unless it is impure already. */
    method SpoilUser(ghost func: string, user: string, ghost rank: Id -> nat)
      requires AllRanked(p, rank) && Impure(isPure, func) && CallsByName(p, user, func) && user in isPure
      requires Spreading(p, rank, isPure, [func] + worklist)
      modifies `isPure, `worklist
      ensures Spreading(p, rank, isPure, [func] + worklist)
      ensures isPure == if old(isPure)[user] then old(isPure)[user := false] else old(isPure)
      ensures PureNames(isPure) <= old(PureNames(isPure))
      ensures Enqueued(old(worklist), worklist, old(PureNames(isPure)) - PureNames(isPure))
    {
      hide Spreading, Tainted, RejectedByName, CallsByName, AllRanked, Enqueued, PureNames;
      EnqueuedNone(worklist, PureNames(isPure));
      if isPure[user] {
        Spread(p, rank, isPure, func, worklist, user);
        PureNamesLess(PureNames(isPure), isPure, user);
        EnqueuedNext(worklist, worklist, PureNames(isPure) - PureNames(isPure), user);
        isPure := isPure[user := false];
        worklist := worklist + [user];
      }
    }

    /** Marks the callers of an impure function impure. */
    method Process(func: string, ghost rank: Id -> nat)
      requires AllRanked(p, rank) && Linked(p, uses) && Impure(isPure, func)
      requires Spreading(p, rank, isPure, [func] + worklist)
      modifies `isPure, `worklist
      ensures Spreading(p, rank, isPure, worklist)
      ensures func in uses && Spoilt(old(isPure), isPure, uses[func])
      ensures PureNames(isPure) <= old(PureNames(isPure))
      ensures Enqueued(old(worklist), worklist, old(PureNames(isPure)) - PureNames(isPure))
    {
      hide Spreading, Tainted, RejectedByName, CallsByName, Linked, AllRanked, Enqueued, Spoilt, PureNames;
      SpoiltNone(isPure);
      FuncUsed(p, uses, rank, isPure, func, [func] + worklist);
      var users := uses[func];
      EnqueuedNone(worklist, PureNames(isPure));
      for i := 0 to |users|
        invariant Impure(isPure, func) && Spreading(p, rank, isPure, [func] + worklist)
        invariant forall j :: 0 <= j < i ==> Impure(isPure, users[j])
        invariant Spoilt(old(isPure), isPure, users[..i])
        invariant PureNames(isPure) <= old(PureNames(isPure))
        invariant Enqueued(old(worklist), worklist, old(PureNames(isPure)) - PureNames(isPure))
      {
        var user := users[i];
        UserKnown(p, uses, rank, isPure, func, [func] + worklist, user);
        SpoiltNext(old(isPure), isPure, users, i);
        ghost var pures, waiting := PureNames(isPure), worklist;
        SpoilUser(func, user, rank);
        EnqueuedLost(old(worklist), waiting, worklist, old(PureNames(isPure)), pures, PureNames(isPure));
      }
      assert users[..|users|] == users;
      Spreaded(p, rank, isPure, func, worklist, users);
    }

    /** A function is pure exactly when it is not tainted, whatever the recursion among the functions. */
    method Run(ghost rank: Id -> nat)
      requires AllRanked(p, rank) && Linked(p, uses) && isPure == map[] && worklist == []
      modifies `isPure, `worklist
      ensures forall a {:trigger a in isPure} {:trigger IsName(p, a)} :: a in isPure <==> IsName(p, a)
      ensures forall a {:trigger isPure[a]} :: a in isPure ==> (isPure[a] <==> !Tainted(p, rank, a))
    {
      hide Tainted, RejectedByName, CallsByName, Linked, AllRanked;
      MarkAll(rank);
      while worklist != []
        invariant Spreading(p, rank, isPure, worklist)
        decreases PureNames(isPure), |worklist|
      {
        var now := worklist[0];
        assert now in worklist && worklist == [now] + worklist[1..];
        worklist := worklist[1..];
        ghost var pures, waiting := PureNames(isPure), worklist;
        Process(now, rank);
        EnqueuedSome(waiting, worklist, pures, PureNames(isPure));
      }
      Settled(rank);
    }

    /** The first loop of the run. */
    method MarkAll(ghost rank: Id -> nat)
      requires AllRanked(p, rank) && Linked(p, uses) && isPure == map[] && worklist == []
      modifies `isPure, `worklist
      ensures Spreading(p, rank, isPure, worklist)
    {
      hide Rejected, RejectedByName, Ranked, HasBodies, Spreading, Recorded;
      for i := 0 to |p.funcs|
        invariant Trivial(p, rank, isPure, i)
        invariant forall a {:trigger a in worklist} :: a in worklist <==> Impure(isPure, a)
      {
        var f := p.funcs[i];
        assert f in p.funcs;
        TrivialStep(p, uses, rank, isPure, i);
        TrivialMark(f, rank);
        if !isPure[f.name] {
          worklist := worklist + [f.name];
        }
      }
      Seeded(p, rank, isPure, worklist);
    }

    lemma Settled(rank: Id -> nat)
      requires AllRanked(p, rank) && Spreading(p, rank, isPure, [])
      ensures forall a {:trigger isPure[a]} :: a in isPure ==> (isPure[a] <==> !Tainted(p, rank, a))
    {
      forall a | a in isPure && Tainted(p, rank, a)
        ensures !isPure[a]
      {
        var chain :| CallChain(p, chain) && chain[0] == a && RejectedByName(p, rank, chain[|chain| - 1]);
        ChainImpure(p, rank, isPure, chain);
      }
    }
  }
}
