/** Two C-minus functions: the greatest common divisor by recursion, and the sum of the elements of an array by a
    loop. */
module Examples {
  import opened ControlFlow
  import opened IR
  import opened Scopes
  import opened Syntax
  import opened SourceSemantics
  import opened Lowering
  import opened SourceCheck
  import opened Arithmetic
  import opened TypeSafety
  import opened Compilation
  import Reaching

  // ----- the greatest common divisor -----

  function Name(id: string): Expr {
    Ref(VarRef(id, None))
  }

  /** The greatest common divisor as a C-minus function, which ends in a conditional that returns in both arms. */
  function GcdBody(): Stmt {
    Compound([], [If(Relation(Equal, Name("v"), Num(true, 0)), Stmt.Return(Some(Name("u"))),
                     Some(Stmt.Return(Some(CallFun("gcd", [Name("v"), GcdRest()])))))])
  }

  function GcdRest(): Expr {
    Arith(Minus, Name("u"), Arith(Times, Arith(Divide, Name("u"), Name("v")), Name("v")))
  }

  function Gcd(u: Id, v: Id): FunDecl {
    FunDecl(Int, "gcd", [VarDecl(u, "u", true, false, 0), VarDecl(v, "v", true, false, 0)], GcdBody())
  }

  /** The greatest common divisor passes the check in every global scope that has its name. */
  lemma GcdChecked(u: Id, v: Id, globals: map<string, Symbol>)
    requires "gcd" in globals && globals["gcd"] == Callee("gcd", Int, [Int, Int])
    ensures FunOk(Gcd(u, v), globals)
  {
    hide Lookup, Bind;
    var f, x, y := Gcd(u, v), Var(Slot(u), One(Int)), Var(Slot(v), One(Int));
    BindInner(globals, map[], "u", x);
    BindInner(globals, map["u" := x], "v", y);
    var inner := map["u" := x, "v" := y];
    assert ParamScope([globals, inner], f.params, 2) == [globals, inner];
    assert ParamScope([globals, map["u" := x]], f.params, 1) == [globals, inner];
    assert ParamScope([globals, map[]], f.params, 0) == [globals, inner];
    assert [globals, inner] + [map[]] == [globals, inner, map[]];
    LookupInner(globals, inner, "u");
    LookupInner(globals, inner, "v");
    LookupInner(globals, inner, "gcd");
    assert f.params[0].site in Sites(f.params) && f.params[1].site in Sites(f.params);
    GcdBodyOk([globals, inner, map[]], u, v, Sites(f.params));
  }

  lemma GcdBodyOk(scope: seq<map<string, Symbol>>, u: Id, v: Id, stored: set<Id>)
    requires Lookup(scope, "u") == Some(Var(Slot(u), One(Int))) && Lookup(scope, "v") == Some(Var(Slot(v), One(Int)))
    requires Lookup(scope, "gcd") == Some(Callee("gcd", Int, [Int, Int])) && u in stored && v in stored
    ensures AllOk(scope, GcdBody().stmts, stored)
  {
    hide Lookup;
    var x, y := Name("u"), Name("v");
    assert ExprOk(scope, x, stored) && ExprOk(scope, y, stored);
    var rest := Arith(Minus, x, Arith(Times, Arith(Divide, x, y), y));
    assert ExprOk(scope, rest, stored);
    var args, last, none: seq<Expr> := [y, rest], [rest], [];
    assert args[1..] == last && last[1..] == none;
    assert ArgsOk(scope, none, stored) && ArgsOk(scope, last, stored);
    assert ArgsOk(scope, args, stored);
    assert ExprOk(scope, CallFun("gcd", args), stored);
  }

  lemma BindInner(globals: map<string, Symbol>, m: map<string, Symbol>, id: string, t: Symbol)
    requires id !in m
    ensures Bind([globals, m], id, t) == [globals, m[id := t]]
  {
  }

  lemma LookupInner(globals: map<string, Symbol>, m: map<string, Symbol>, id: string)
    ensures Lookup([globals, m, map[]], id) == if id in m then Some(m[id]) else if id in globals then Some(globals[id])
      else None
  {
    var all := [globals, m, map[]];
    assert all[..2] == [globals, m] && [globals, m][..1] == [globals] && [globals][..0] == [];
    assert Lookup([globals], id) == if id in globals then Some(globals[id]) else None;
  }

  lemma NamePasses(scope: seq<map<string, Symbol>>, id: string, v: Id, t: Ty, stored: set<Id>)
    requires Lookup<Symbol>(scope, id) == Some(Var(Slot(v), One(t))) && v in stored
    ensures ExprOk(scope, Name(id), stored) && WellTyped(scope, Name(id)) && TypeOf(scope, Name(id)) == t
  {
    hide Lookup;
  }

  /** The greatest common divisor is typed. */
  lemma GcdTyped(u: Id, v: Id, globals: map<string, Symbol>)
    requires "gcd" in globals && globals["gcd"] == Callee("gcd", Int, [Int, Int])
    ensures FunTyped(Gcd(u, v), globals)
  {
    hide Lookup, Bind;
    var f, x, y := Gcd(u, v), Var(Slot(u), One(Int)), Var(Slot(v), One(Int));
    BindInner(globals, map[], "u", x);
    BindInner(globals, map["u" := x], "v", y);
    var inner := map["u" := x, "v" := y];
    assert ParamScope([globals, inner], f.params, 2) == [globals, inner];
    assert ParamScope([globals, map["u" := x]], f.params, 1) == [globals, inner];
    assert ParamScope([globals, map[]], f.params, 0) == [globals, inner];
    assert [globals, inner] + [map[]] == [globals, inner, map[]];
    LookupInner(globals, inner, "u");
    LookupInner(globals, inner, "v");
    LookupInner(globals, inner, "gcd");
    GcdBodyTyped([globals, inner, map[]], u, v);
  }

  lemma GcdBodyTyped(scope: seq<map<string, Symbol>>, u: Id, v: Id)
    requires Lookup(scope, "u") == Some(Var(Slot(u), One(Int))) && Lookup(scope, "v") == Some(Var(Slot(v), One(Int)))
    requires Lookup(scope, "gcd") == Some(Callee("gcd", Int, [Int, Int]))
    ensures AllTyped(scope, Int, GcdBody().stmts)
  {
    hide Lookup, Name;
    var x, y := Name("u"), Name("v");
    NamePasses(scope, "u", u, Int, {u});
    NamePasses(scope, "v", v, Int, {v});
    var q := Arith(Divide, x, y);
    assert NumberTyped(scope, x) && NumberTyped(scope, y) && NumberTyped(scope, q);
    var m := Arith(Times, q, y);
    assert NumberTyped(scope, m) && TypeOf(scope, m) == Int;
    var args, last, none: seq<Expr>, one, no: seq<Ty> := [y, GcdRest()], [GcdRest()], [], [Int], [];
    assert args[1..] == last && last[1..] == none && [Int, Int][1..] == one && one[1..] == no;
    assert ArgsTyped(scope, none, no) && ArgsTyped(scope, last, one);
    assert ArgsTyped(scope, args, [Int, Int]);
    assert WellTyped(scope, CallFun("gcd", args)) && TypeOf(scope, CallFun("gcd", args)) == Int;
    assert NumberTyped(scope, Relation(Equal, y, Num(true, 0)));
  }

  /** The greatest common divisor can be compiled, although it ends in a block that is not reached. */
  lemma GcdCompilable(u: Id, v: Id, globals: map<string, Symbol>, first: Id, address: Block -> int)
    requires u != v && u < first && v < first
    requires GlobalsNamed(globals) && "gcd" in globals && globals["gcd"] == Callee("gcd", Int, [Int, Int])
    ensures Compilable(Gcd(u, v), globals, first, address)
  {
    hide Compilable, FunOk;
    var f := Gcd(u, v);
    var st := GcdBody().stmts[0];
    Reaching.ReturnsInBothTidy(st.cond, st.cond, st.ifTrue.value.value, st.ifFalse.value.value.value);
    assert AllFresh(f.body, Sites(f.params)) && SitesOf(f.body) == {};
    GcdChecked(u, v, globals);
    CheckedCompilable(f, globals, first, address);
  }

  lemma InRange(x: int)
    requires -0x8000_0000 <= x < 0x8000_0000
    ensures Wrap(x) == x
  {
  }

  /** The scopes of a call of the greatest common divisor. */
  function GcdFrames(globals: map<string, Entry>, a: Val, b: Val): seq<map<string, Entry>> {
    [globals, map["u" := Local(Int, Some(a)), "v" := Local(Int, Some(b))], map[]]
  }

  lemma GcdNames(globals: map<string, Entry>, a: Val, b: Val)
    ensures var frames := GcdFrames(globals, a, b);
      && Lookup<Entry>(frames, "u") == Some(Local(Int, Some(a)))
      && Lookup<Entry>(frames, "v") == Some(Local(Int, Some(b)))
      && ("gcd" in globals ==> Lookup<Entry>(frames, "gcd") == Some(globals["gcd"]))
  {
    var frames := GcdFrames(globals, a, b);
    assert "u"[0] != "v"[0] && "gcd"[0] != "u"[0] && "gcd"[0] != "v"[0];
    assert frames[..2] == [globals, frames[1]] && [globals, frames[1]][..1] == [globals] && [globals][..0] == [];
    assert Lookup<Entry>([globals], "gcd") == if "gcd" in globals then Some(globals["gcd"]) else None;
    assert Lookup<Entry>([globals, frames[1]], "gcd") == Lookup<Entry>([globals], "gcd");
  }

  lemma GcdBound(w: World, u: Id, v: Id, globals: map<string, Entry>)
    ensures BindParams(w, [globals, map[]], Gcd(u, v).params, 0) + [map[]] == GcdFrames(globals, w.arg(0), w.arg(1))
  {
    var ds := Gcd(u, v).params;
    var x, y := Local(Int, Some(w.arg(0))), Local(Int, Some(w.arg(1)));
    assert "u"[0] != "v"[0];
    assert Bind<Entry>([globals, map[]], "u", x) == [globals, map["u" := x]];
    assert Bind<Entry>([globals, map["u" := x]], "v", y) == [globals, map["u" := x, "v" := y]];
    assert BindParams(w, [globals, map["u" := x, "v" := y]], ds, 2) == [globals, map["u" := x, "v" := y]];
    assert BindParams(w, [globals, map["u" := x]], ds, 1) == [globals, map["u" := x, "v" := y]];
  }

  lemma NameValue(w: World, id: string, src: Source, v: Val)
    requires Lookup<Entry>(src.frames, id) == Some(Local(Int, Some(v)))
    ensures EvalExpr(w, Name(id), src) == Got(Typed(v, Int), src)
  {
    hide Lookup;
  }

  /** A calculation with ints that does not overflow. */
  lemma IntValue(w: World, fl: Floats, e: Expr, src: Source, x: Val, y: Val, r: Val)
    requires Standard(w, fl) && e.Arith? && (e.op == Divide ==> y != 0) && -0x8000_0000 <= r < 0x8000_0000
    requires EvalExpr(w, e.l, src) == Got(Typed(x, Int), src) && EvalExpr(w, e.r, src) == Got(Typed(y, Int), src)
    requires r == match e.op
                  case Plus => x + y
                  case Minus => x - y
                  case Times => x * y
                  case Divide => Quotient(x, y)
    ensures EvalExpr(w, e, src) == Got(Typed(r, Int), src)
  {
    hide Standard, EvalExpr, Wrap, Quotient;
    ArithmeticValue(w, fl, e, src, Typed(x, Int), Typed(y, Int), src, src);
    InRange(r);
  }

  lemma TimesMore(q: nat, b: nat)
    requires b >= 1
    ensures 0 <= q <= q * b
  {
  }

  lemma Remainder(a: Val, b: Val)
    requires 0 <= a && 0 < b
    ensures 0 <= Quotient(a, b) <= a && 0 <= Quotient(a, b) * b <= a && a - Quotient(a, b) * b == a % b
  {
    var q, r := a / b, a % b;
    assert a == b * q + r;
    TimesMore(q, b);
  }

  /** The remainder, computed as it is in C. */
  lemma GcdRemainder(w: World, fl: Floats, src: Source, globals: map<string, Entry>, a: Val, b: Val)
    requires Standard(w, fl) && src.frames == GcdFrames(globals, a, b) && 0 <= a < 0x8000_0000 && 0 < b < 0x8000_0000
    ensures EvalExpr(w, GcdRest(), src) == Got(Typed(a % b, Int), src)
  {
    hide Standard, EvalExpr, Lookup, Quotient;
    GcdNames(globals, a, b);
    var u, v := Name("u"), Name("v");
    NameValue(w, "u", src, a);
    NameValue(w, "v", src, b);
    Remainder(a, b);
    var q := Arith(Divide, u, v);
    IntValue(w, fl, q, src, a, b, Quotient(a, b));
    var m := Arith(Times, q, v);
    IntValue(w, fl, m, src, Quotient(a, b), b, Quotient(a, b) * b);
    IntValue(w, fl, Arith(Minus, u, m), src, a, Quotient(a, b) * b, a % b);
  }

  lemma GcdCall(w: World, fl: Floats, src: Source, globals: map<string, Entry>, a: Val, b: Val)
    requires Standard(w, fl) && src.frames == GcdFrames(globals, a, b) && 0 <= a < 0x8000_0000 && 0 < b < 0x8000_0000
    requires "gcd" in globals && globals["gcd"] == Fun("gcd", Int, [Int, Int])
    ensures var (r, s') := CallNamed(w, src, "gcd", [b, a % b]);
      EvalExpr(w, CallFun("gcd", [Name("v"), GcdRest()]), src) == Got(Typed(r, Int), s')
  {
    hide Standard, Lookup, CallNamed, GcdRest, Name;
    GcdNames(globals, a, b);
    NameValue(w, "v", src, b);
    GcdRemainder(w, fl, src, globals, a, b);
    var args, params, none: seq<Expr>, no: seq<Ty> := [Name("v"), GcdRest()], [Int, Int], [], [];
    assert args[1..] == [GcdRest()] && [GcdRest()][1..] == none && params[1..] == [Int] && [Int][1..] == no;
    assert EvalArgs(w, none, no, src) == Got([], src);
    var noValues: seq<Val> := [];
    assert [a % b] + noValues == [a % b] && [b] + [a % b] == [b, a % b];
    assert EvalArgs(w, [GcdRest()], [Int], src) == Got([a % b], src);
    assert EvalArgs(w, args, params, src) == Got([b, a % b], src);
  }

  /** A call of the greatest common divisor takes one step of Euclid's algorithm: without a second number it returns the
      first, and otherwise what the call with the second number and the remainder gives. */
  lemma GcdStep(w: World, fl: Floats, u: Id, v: Id, globals: map<string, Entry>, mem: Memory, fuel: nat)
    requires Standard(w, fl) && "gcd" in globals && globals["gcd"] == Fun("gcd", Int, [Int, Int])
    requires 0 <= w.arg(0) < 0x8000_0000 && 0 <= w.arg(1) < 0x8000_0000
    ensures var a, b := w.arg(0), w.arg(1);
      Invoke(w, Gcd(u, v), globals, mem, fuel) ==
        if b == 0 then Returned([a], mem, [])
        else var (r, m) := w.call("gcd", [b, a % b], mem); Returned([r], m, [Called("gcd", [b, a % b], r)])
  {
    hide Standard, EvalExpr, BindParams, Name, GcdRest, IsTrue, Exec, Invoke, GcdFrames, Lookup;
    var a, b := w.arg(0), w.arg(1);
    GcdBound(w, u, v, globals);
    var src := Source(GcdFrames(globals, a, b), mem, []);
    GcdNames(globals, a, b);
    NameValue(w, "u", src, a);
    NameValue(w, "v", src, b);
    var c := Relation(Equal, Name("v"), Num(true, 0));
    assert EvalExpr(w, Num(true, 0), src) == Got(Typed(0, Int), src) by {
      NumValue(w, 0, src);
    }
    ComparisonValue(w, fl, c, src, Typed(b, Int), Typed(0, Int), src, src);
    ConditionTested(w, fl, Typed(if b == 0 then 1 else 0, Int));
    if b == 0 {
      ReturnConverts(w, fl, Int, Name("u"), src, fuel, Typed(a, Int), src);
    } else {
      var (r, s') := CallNamed(w, src, "gcd", [b, a % b]);
      var call := CallFun("gcd", [Name("v"), GcdRest()]);
      GcdCall(w, fl, src, globals, a, b);
      ReturnConverts(w, fl, Int, call, src, fuel, Typed(r, Int), s');
      assert src.trace + [Called("gcd", [b, a % b], r)] == [Called("gcd", [b, a % b], r)];
    }
    var st := GcdBody().stmts[0];
    GcdChoice(w, src, fuel, c, st.ifTrue, st.ifFalse.value);
    GcdReturns(w, u, v, globals, mem, fuel);
  }

  lemma GcdChoice(w: World, src: Source, fuel: nat, c: Expr, first: Stmt, second: Stmt)
    requires EvalExpr(w, c, src).Got? && EvalExpr(w, c, src).s == src && Numeric(EvalExpr(w, c, src).t.ty)
    ensures Exec(w, Int, If(c, first, Some(second)), src, fuel) ==
      Exec(w, Int, if IsTrue(w, EvalExpr(w, c, src).t) then first else second, src, fuel)
  {
    hide EvalExpr, IsTrue;
  }

  lemma GcdReturns(w: World, u: Id, v: Id, globals: map<string, Entry>, mem: Memory, fuel: nat)
    requires
      var src := Source(GcdFrames(globals, w.arg(0), w.arg(1)), mem, []);
      Exec(w, Int, GcdBody().stmts[0], src, fuel).Returned?
    ensures
      var src := Source(GcdFrames(globals, w.arg(0), w.arg(1)), mem, []);
      Invoke(w, Gcd(u, v), globals, mem, fuel) == Exec(w, Int, GcdBody().stmts[0], src, fuel)
  {
    hide EvalExpr, BindParams, IsTrue, GcdFrames;
    GcdBound(w, u, v, globals);
    var src := Source(GcdFrames(globals, w.arg(0), w.arg(1)), mem, []);
    var o := Exec(w, Int, GcdBody().stmts[0], src, fuel);
    assert ExecAll(w, Int, GcdBody().stmts, src, fuel) == o;
    assert DeclareAll(w, src.frames, []) == src.frames;
    assert Exec(w, Int, GcdBody(), Source(BindParams(w, [globals, map[]], Gcd(u, v).params, 0), mem, []), fuel) == o;
  }

  lemma NumValue(w: World, x: Val, src: Source)
    ensures EvalExpr(w, Num(true, x), src) == Got(Typed(x, Int), src)
  {
  }

  /** So the code of the greatest common divisor takes a step of Euclid's algorithm. */
  lemma GcdCompiled(w: World, fl: Floats, u: Id, v: Id, frame: map<string, Entry>, mem: Memory, body: Body)
    returns (blocks: nat, s: State)
    requires Standard(w, fl) && "gcd" in frame && frame["gcd"] == Fun("gcd", Int, [Int, Int])
    requires 0 <= w.arg(0) < 0x8000_0000 && 0 <= w.arg(1) < 0x8000_0000
    requires DoesAsSource(w, Gcd(u, v), frame, mem, body)
    ensures var a, b := w.arg(0), w.arg(1); var end := Run(w, body, blocks, At(ENTRY, State(map[], map[], mem, [])));
      if b == 0 then end == Finished([a], s) && s.mem == mem && s.trace == []
      else var (r, m) := w.call("gcd", [b, a % b], mem);
        end == Finished([r], s) && s.mem == m && s.trace == [Called("gcd", [b, a % b], r)]
  {
    hide Standard, Gcd, Invoke, Run, RunsOnAsSource, ReturnsOnlyAsSource;
    GcdStep(w, fl, u, v, frame, mem, 0);
    var o := Invoke(w, Gcd(u, v), frame, mem, 0);
    assert ReturnsAsSource(w, Gcd(u, v), frame, mem, 0, body);
    blocks, s :| Run(w, body, blocks, At(ENTRY, State(map[], map[], mem, []))) == Finished(o.vals, s) && s.mem == o.mem
      && s.trace == o.trace;
  }

  // ----- the sum -----

  function SetTo(id: string, e: Expr): Stmt {
    ExprStmt(Some(Assign(VarRef(id, None), e)))
  }

  function Element(): Expr {
    Ref(VarRef("a", Some(Name("i"))))
  }

  function SumStep(): seq<Stmt> {
    [SetTo("s", Arith(Plus, Name("s"), Element())), SetTo("i", Arith(Plus, Name("i"), Num(true, 1)))]
  }

  function SumLoop(): Stmt {
    While(Relation(Less, Name("i"), Name("n")), Compound([], SumStep()))
  }

  /** The sum of the first elements of an array, as a C-minus function. */
  function SumBody(i: Id, s: Id): Stmt {
    Compound([VarDecl(i, "i", true, false, 0), VarDecl(s, "s", true, false, 0)],
             [SetTo("i", Num(true, 0)), SetTo("s", Num(true, 0)), SumLoop(), Stmt.Return(Some(Name("s")))])
  }

  function Sum(a: Id, n: Id, i: Id, s: Id): FunDecl {
    FunDecl(Int, "sum", [VarDecl(a, "a", true, true, 0), VarDecl(n, "n", true, false, 0)], SumBody(i, s))
  }

  /** The names that the body uses. */
  ghost predicate SumScope(scope: seq<map<string, Symbol>>, a: Id, n: Id, i: Id, s: Id) {
    && Lookup<Symbol>(scope, "a") == Some(Var(Slot(a), One(IntPtr)))
    && Lookup<Symbol>(scope, "n") == Some(Var(Slot(n), One(Int)))
    && Lookup<Symbol>(scope, "i") == Some(Var(Slot(i), One(Int)))
    && Lookup<Symbol>(scope, "s") == Some(Var(Slot(s), One(Int)))
    && Lookup<Symbol>(scope, NEGATIVE_INDEX).Some? && Lookup<Symbol>(scope, NEGATIVE_INDEX).value.Callee?
  }

  lemma SumScopeEntered(scope: seq<map<string, Symbol>>, a: Id, n: Id, i: Id, s: Id)
    requires SumScope(scope, a, n, i, s)
    ensures SumScope(scope + [map[]], a, n, i, s) && DeclScope(scope + [map[]], []) == scope + [map[]]
  {
    assert (scope + [map[]])[..|scope|] == scope;
  }

  /** An assignment of an int to a variable that is an int. */
  lemma SetPasses(scope: seq<map<string, Symbol>>, id: string, v: Id, e: Expr, stored: set<Id>)
    requires Lookup<Symbol>(scope, id) == Some(Var(Slot(v), One(Int)))
    requires WellTyped(scope, e) && TypeOf(scope, e) == Int
    ensures StmtTyped(scope, Int, SetTo(id, e))
    ensures ExprOk(scope, e, stored) && v in stored ==> StmtOk(scope, SetTo(id, e), stored)
    ensures ExprOk(scope, e, stored) && Straight(e) ==> Assigns(scope, SetTo(id, e), stored) == Some(v)
  {
    hide Lookup;
    var d := VarRef(id, None);
    assert VarTyped(scope, d) && VarType(scope, d) == Int && WellTyped(scope, Assign(d, e));
    assert v in stored ==> RefOk(scope, d, stored) && !WholeArray(scope, id);
    assert v in stored && ExprOk(scope, e, stored) ==> ExprOk(scope, Assign(d, e), stored);
  }

  lemma ElementPasses(scope: seq<map<string, Symbol>>, a: Id, n: Id, i: Id, s: Id)
    requires SumScope(scope, a, n, i, s)
    ensures ExprOk(scope, Element(), {a, n, i, s}) && WellTyped(scope, Element()) && TypeOf(scope, Element()) == Int
  {
    hide Lookup, Name;
    NamePasses(scope, "i", i, Int, {a, n, i, s});
    assert NumberTyped(scope, Name("i"));
  }

  lemma SumIntPasses(scope: seq<map<string, Symbol>>, x: Expr, y: Expr, stored: set<Id>)
    requires ExprOk(scope, x, stored) && WellTyped(scope, x) && TypeOf(scope, x) == Int
    requires ExprOk(scope, y, stored) && WellTyped(scope, y) && TypeOf(scope, y) == Int
    ensures var e := Arith(Plus, x, y); ExprOk(scope, e, stored) && WellTyped(scope, e) && TypeOf(scope, e) == Int
    ensures var e := Relation(Less, x, y); ExprOk(scope, e, stored) && NumberTyped(scope, e)
  {
    assert NumberTyped(scope, x) && NumberTyped(scope, y);
  }

  lemma SumStepPasses(scope: seq<map<string, Symbol>>, a: Id, n: Id, i: Id, s: Id)
    requires SumScope(scope, a, n, i, s)
    ensures AllOk(scope, SumStep(), {a, n, i, s}) && AllTyped(scope, Int, SumStep())
  {
    hide Lookup, Name, Element, SetTo, ExprOk, WellTyped, TypeOf, StmtOk, StmtTyped, RefOk, VarTyped;
    var all := {a, n, i, s};
    NamePasses(scope, "i", i, Int, all);
    NamePasses(scope, "s", s, Int, all);
    ElementPasses(scope, a, n, i, s);
    OnePasses(scope, all);
    SumIntPasses(scope, Name("s"), Element(), all);
    SumIntPasses(scope, Name("i"), Num(true, 1), all);
    var more, next := Arith(Plus, Name("s"), Element()), Arith(Plus, Name("i"), Num(true, 1));
    SetPasses(scope, "s", s, more, all);
    SetPasses(scope, "i", i, next, all);
    var last, none: seq<Stmt> := [SetTo("i", next)], [];
    assert SumStep()[1..] == last && last[1..] == none;
    assert AllOk(scope, none, all) && AllOk(scope, last, all);
    assert AllTyped(scope, Int, none) && AllTyped(scope, Int, last);
  }

  lemma OnePasses(scope: seq<map<string, Symbol>>, stored: set<Id>)
    ensures var e := Num(true, 1); ExprOk(scope, e, stored) && WellTyped(scope, e) && TypeOf(scope, e) == Int
  {
  }

  lemma SumLoopPasses(scope: seq<map<string, Symbol>>, a: Id, n: Id, i: Id, s: Id)
    requires SumScope(scope, a, n, i, s)
    ensures StmtOk(scope, SumLoop(), {a, n, i, s}) && StmtTyped(scope, Int, SumLoop())
  {
    hide Lookup, Name, SumStep, ExprOk, WellTyped, NumberTyped, TypeOf, AllOk, AllTyped;
    var all := {a, n, i, s};
    SumScopeEntered(scope, a, n, i, s);
    NamePasses(scope, "i", i, Int, all);
    NamePasses(scope, "n", n, Int, all);
    SumIntPasses(scope, Name("i"), Name("n"), all);
    SumStepPasses(scope + [map[]], a, n, i, s);
  }

  lemma SumStmtsPass(scope: seq<map<string, Symbol>>, a: Id, n: Id, i: Id, s: Id)
    requires SumScope(scope, a, n, i, s)
    ensures var sts := SumBody(i, s).stmts;
      Leading(scope, sts, {a, n}) == {a, n, i, s} && AllOk(scope, sts, {a, n, i, s}) && AllTyped(scope, Int, sts)
  {
    hide Lookup, Name, SumLoop, StmtOk, StmtTyped, Assigns;
    var all, zero := {a, n, i, s}, Num(true, 0);
    SetPasses(scope, "i", i, zero, {a, n});
    SetPasses(scope, "s", s, zero, {a, n} + {i});
    SetPasses(scope, "i", i, zero, all);
    SetPasses(scope, "s", s, zero, all);
    SumLoopPasses(scope, a, n, i, s);
    NamePasses(scope, "s", s, Int, all);
    var sts, none: seq<Stmt> := SumBody(i, s).stmts, [];
    var last := Stmt.Return(Some(Name("s")));
    assert sts[1..] == [sts[1], sts[2], last] && sts[1..][1..] == [sts[2], last] && [sts[2], last][1..] == [last]
        && [last][1..] == none;
    LastPasses(scope, last, all);
    assert Assigns(scope, sts[2], {a, n} + {i} + {s}) == None by {
      LoopAssignsNothing(scope, {a, n} + {i} + {s});
    }
    assert Leading(scope, sts[1..][1..], {a, n} + {i} + {s}) == {a, n} + {i} + {s};
    assert Leading(scope, sts[1..], {a, n} + {i}) == {a, n} + {i} + {s};
    assert {a, n} + {i} + {s} == all;
    assert AllOk(scope, none, all) && AllOk(scope, [last], all) && AllOk(scope, [sts[2], last], all);
    assert AllOk(scope, sts[1..], all);
    assert AllTyped(scope, Int, none) && AllTyped(scope, Int, [last]) && AllTyped(scope, Int, [sts[2], last]);
    assert AllTyped(scope, Int, sts[1..]);
  }

  lemma LastPasses(scope: seq<map<string, Symbol>>, st: Stmt, stored: set<Id>)
    requires st == Stmt.Return(Some(Name("s"))) && ExprOk(scope, Name("s"), stored) && WellTyped(scope, Name("s"))
    requires TypeOf(scope, Name("s")) == Int
    ensures StmtOk(scope, st, stored) && StmtTyped(scope, Int, st)
  {
    hide Name;
  }

  lemma LoopAssignsNothing(scope: seq<map<string, Symbol>>, stored: set<Id>)
    ensures Assigns(scope, SumLoop(), stored) == None
  {
  }

  /** A function with an array, local variables and a loop passes the check and is typed. */
  lemma SumPasses(a: Id, n: Id, i: Id, s: Id, globals: map<string, Symbol>)
    requires NEGATIVE_INDEX in globals && globals[NEGATIVE_INDEX].Callee?
    ensures FunOk(Sum(a, n, i, s), globals) && FunTyped(Sum(a, n, i, s), globals)
  {
    hide Lookup, Bind, SumLoop, AllOk, AllTyped, Leading;
    var f, ptr, x, y, z := Sum(a, n, i, s), Var(Slot(a), One(IntPtr)), Var(Slot(n), One(Int)), Var(Slot(i), One(Int)),
      Var(Slot(s), One(Int));
    BindInner(globals, map[], "a", ptr);
    BindInner(globals, map["a" := ptr], "n", x);
    var outer, ds := map["a" := ptr, "n" := x], SumBody(i, s).decls;
    assert ParamScope([globals, outer], f.params, 2) == [globals, outer];
    assert ParamScope([globals, map["a" := ptr]], f.params, 1) == [globals, outer];
    assert ParamScope([globals, map[]], f.params, 0) == [globals, outer];
    var none: seq<VarDecl> := [];
    assert [globals, outer] + [map[]] == [globals, outer, map[]] && ds[1..] == [ds[1]] && [ds[1]][1..] == none;
    BindDeepest([globals, outer], map[], "i", y);
    BindDeepest([globals, outer], map["i" := y], "s", z);
    var inner := [globals, outer] + [map["i" := y, "s" := z]];
    assert DeclScope(inner, none) == inner && DeclScope([globals, outer] + [map["i" := y]], [ds[1]]) == inner;
    assert DeclScope([globals, outer] + [map[]], ds) == inner;
    SumNames(globals, outer, map["i" := y, "s" := z], a, n, i, s);
    SumStmtsPass(inner, a, n, i, s);
    assert Sites(f.params) == {a, n} by {
      assert f.params[0].site in Sites(f.params) && f.params[1].site in Sites(f.params);
    }
  }

  lemma BindDeepest(scopes: seq<map<string, Symbol>>, m: map<string, Symbol>, id: string, t: Symbol)
    requires id !in m
    ensures Bind(scopes + [m], id, t) == scopes + [m[id := t]]
  {
  }

  lemma LookupThree(globals: map<string, Symbol>, outer: map<string, Symbol>, m: map<string, Symbol>, id: string)
    ensures Lookup<Symbol>([globals, outer] + [m], id) ==
      if id in m then Some(m[id]) else if id in outer then Some(outer[id]) else if id in globals then Some(globals[id])
        else None
  {
    var scopes := [globals, outer] + [m];
    assert scopes[..2] == [globals, outer] && [globals, outer][..1] == [globals] && [globals][..0] == [];
    assert Lookup<Symbol>([globals], id) == if id in globals then Some(globals[id]) else None;
    assert Lookup<Symbol>([globals, outer], id) == if id in outer then Some(outer[id])
      else Lookup<Symbol>([globals], id);
  }

  lemma SumNames(globals: map<string, Symbol>, outer: map<string, Symbol>, inner: map<string, Symbol>, a: Id, n: Id,
                 i: Id, s: Id)
    requires NEGATIVE_INDEX in globals && globals[NEGATIVE_INDEX].Callee?
    requires outer == map["a" := Var(Slot(a), One(IntPtr)), "n" := Var(Slot(n), One(Int))]
    requires inner == map["i" := Var(Slot(i), One(Int)), "s" := Var(Slot(s), One(Int))]
    ensures SumScope([globals, outer] + [inner], a, n, i, s)
  {
    hide Lookup;
    LookupThree(globals, outer, inner, "a");
    LookupThree(globals, outer, inner, "n");
    LookupThree(globals, outer, inner, "i");
    LookupThree(globals, outer, inner, "s");
    LookupThree(globals, outer, inner, NEGATIVE_INDEX);
    assert |NEGATIVE_INDEX| > 1 && "a"[0] != "i"[0] && "a"[0] != "s"[0] && "a"[0] != "n"[0] && "n"[0] != "i"[0]
        && "n"[0] != "s"[0] && "i"[0] != "s"[0];
  }

  /** The sum of the elements can be compiled. */
  lemma SumCompilable(a: Id, n: Id, i: Id, s: Id, globals: map<string, Symbol>, first: Id, address: Block -> int)
    requires a != n && i != s && i !in {a, n} && s !in {a, n} && a < first && n < first && i < first && s < first
    requires GlobalsNamed(globals) && NEGATIVE_INDEX in globals && globals[NEGATIVE_INDEX].Callee?
    ensures Compilable(Sum(a, n, i, s), globals, first, address)
  {
    hide Compilable, FunOk, FunTyped, SumBody, Declares;
    var f := Sum(a, n, i, s);
    SumDeclares(a, n, i, s, first);
    SumTidy(i, s);
    SumPasses(a, n, i, s, globals);
    CheckedCompilable(f, globals, first, address);
  }

  /** A statement that declares nothing, and after which lowering goes on in code that is reached. */
  ghost predicate Simple(st: Stmt) {
    && SitesOf(st) == {} && (forall used {:trigger AllFresh(st, used)} :: AllFresh(st, used))
    && Reaching.Tidy(st, true) && Reaching.After(st, true) == Reaching.Goes
  }

  lemma {:induction false} SimpleList(sts: seq<Stmt>)
    requires forall k :: 0 <= k < |sts| ==> Simple(sts[k])
    ensures SitesOfAll(sts) == {} && forall used {:trigger EachFresh(sts, used)} :: EachFresh(sts, used)
    ensures Reaching.TidyAll(sts, true) && Reaching.AfterAll(sts, true) == Reaching.Goes
  {
    hide Simple, SitesOf, AllFresh, Reaching.Tidy, Reaching.After;
    if sts != [] {
      SimpleFirst(sts[0]);
      assert forall k :: 0 <= k < |sts[1..]| ==> sts[1..][k] == sts[k + 1];
      SimpleList(sts[1..]);
      forall used
        ensures EachFresh(sts, used)
      {
        assert AllFresh(sts[0], used) && EachFresh(sts[1..], used + SitesOf(sts[0]));
      }
    }
  }

  lemma SimpleFirst(st: Stmt)
    requires Simple(st)
    ensures SitesOf(st) == {} && (forall used {:trigger AllFresh(st, used)} :: AllFresh(st, used))
    ensures Reaching.Tidy(st, true) && Reaching.After(st, true) == Reaching.Goes
  {
  }

  lemma SetSimple(id: string, e: Expr)
    ensures Simple(SetTo(id, e))
  {
  }

  lemma LoopSimple(c: Expr, step: seq<Stmt>)
    requires forall k :: 0 <= k < |step| ==> Simple(step[k])
    ensures Simple(While(c, Compound([], step)))
  {
    hide Simple;
    SimpleList(step);
    var body := Compound([], step);
    assert Sites([]) == {};
    assert SitesOf(body) == {} && Reaching.Tidy(body, true) && Reaching.After(body, true) == Reaching.Goes;
    forall used
      ensures AllFresh(body, used)
    {
    }
    WhileSimple(c, body);
  }

  lemma WhileSimple(c: Expr, body: Stmt)
    requires Simple(body)
    ensures Simple(While(c, body))
  {
    SimpleFirst(body);
    forall used
      ensures AllFresh(While(c, body), used)
    {
      assert AllFresh(body, used);
    }
  }

  lemma SumSimple(i: Id, s: Id)
    ensures var sts := SumBody(i, s).stmts;
      sts == sts[..3] + [sts[3]] && sts[3].Return? && forall k :: 0 <= k < 3 ==> Simple(sts[..3][k])
  {
    hide Simple;
    var sts, step := SumBody(i, s).stmts, SumStep();
    SetSimple("i", Num(true, 0));
    SetSimple("s", Num(true, 0));
    SetSimple("s", step[0].expr.value.rhs);
    SetSimple("i", step[1].expr.value.rhs);
    LoopSimple(sts[2].cond, step);
  }

  /** Simple statements before a return. */
  lemma {:induction false} ReturnLast(sts: seq<Stmt>, last: Stmt)
    requires last.Return? && forall k :: 0 <= k < |sts| ==> Simple(sts[k])
    ensures SitesOfAll(sts + [last]) == {}
    ensures forall used {:trigger EachFresh(sts + [last], used)} :: EachFresh(sts + [last], used)
    ensures Reaching.TidyAll(sts + [last], true)
  {
    hide Simple;
    var all := sts + [last];
    if sts == [] {
      assert all[1..] == [] && all[0] == last;
    } else {
      SimpleFirst(sts[0]);
      assert forall k :: 0 <= k < |sts[1..]| ==> sts[1..][k] == sts[k + 1];
      ReturnLast(sts[1..], last);
      assert all[0] == sts[0] && all[1..] == sts[1..] + [last];
    }
  }

  lemma SumTidy(i: Id, s: Id)
    ensures var body := SumBody(i, s);
      && Reaching.Tidy(body, true) && SitesOfAll(body.stmts) == {}
      && forall used {:trigger EachFresh(body.stmts, used)} :: EachFresh(body.stmts, used)
  {
    hide Simple, SumLoop;
    var sts := SumBody(i, s).stmts;
    SumSimple(i, s);
    ReturnLast(sts[..3], sts[3]);
  }

  lemma SumDeclares(a: Id, n: Id, i: Id, s: Id, first: Id)
    requires a != n && i != s && i !in {a, n} && s !in {a, n} && a < first && n < first && i < first && s < first
    ensures Declares(Sum(a, n, i, s), first)
  {
    hide SumLoop, EachFresh, SitesOfAll;
    var f := Sum(a, n, i, s);
    SumTidy(i, s);
    assert SitesOf(f.body) == Sites(f.body.decls);
    assert EachFresh(f.body.stmts, Sites(f.params) + Sites(f.body.decls));
  }
}
