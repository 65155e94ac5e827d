/** From parse trees to the syntax trees that the builder visits. */
module AstBuilding {
  import opened ControlFlow
  import opened IR
  import opened ParseTrees
  import opened Syntax

  /** How numerals are read and written. */
  datatype Numerals = Numerals(toInt: string -> Val, ofInt: Val -> string, toFloat: string -> Val,
                               ofFloat: Val -> string)

  /** A new piece of syntax, and the identity of the next declaration. */
  datatype Built<T> = Built(t: T, next: Id)

  predicate SaysInt(t: Tree)
    requires Derives(TypeSpecifier, t)
  {
    t.kids[0] == Token("int")
  }

  function ToReturnType(t: Tree): Ty
    requires Derives(TypeSpecifier, t)
  {
    if t.kids[0] == Token("int") then Int else if t.kids[0] == Token("float") then Flt else Void
  }

  // ----- expressions -----

  function ToRelOp(t: Tree): RelOp
    requires Derives(Relop, t)
  {
    var op := t.kids[0].text;
    if op == "<=" then LessEq else if op == "<" then Less else if op == ">" then Greater
    else if op == ">=" then GreaterEq else if op == "==" then Equal else NotEqual
  }

  function ToAddOp(t: Tree): ArithOp
    requires Derives(Addop, t)
  {
    if t.kids[0] == Token("+") then Plus else Minus
  }

  function ToMulOp(t: Tree): ArithOp
    requires Derives(Mulop, t)
  {
    if t.kids[0] == Token("*") then Times else Divide
  }

  function ToInteger(n: Numerals, t: Tree): Expr
    requires Derives(Integer, t)
  {
    Num(true, n.toInt(t.kids[0].text))
  }

  function ToFloat(n: Numerals, t: Tree): Expr
    requires Derives(Float, t)
  {
    Num(false, n.toFloat(t.kids[0].text))
  }

  function ToExpr(n: Numerals, t: Tree): Expr
    requires Derives(Expression, t)
    decreases t
  {
    if |t.kids| == 1 then ToSimple(n, t.kids[0])
    else Assign(ToVar(n, t.kids[0]), ToExpr(n, t.kids[2]))
  }

  function ToVar(n: Numerals, t: Tree): VarRef
    requires Derives(Var, t)
    decreases t
  {
    VarRef(t.kids[0].text, if |t.kids| == 4 then Some(ToExpr(n, t.kids[2])) else None)
  }

  function ToSimple(n: Numerals, t: Tree): Expr
    requires Derives(SimpleExpression, t)
    decreases t
  {
    if |t.kids| == 3 then Relation(ToRelOp(t.kids[1]), ToAdditive(n, t.kids[0]), ToAdditive(n, t.kids[2]))
    else ToAdditive(n, t.kids[0])
  }

  function ToAdditive(n: Numerals, t: Tree): Expr
    requires Derives(AdditiveExpression, t)
    decreases t
  {
    if |t.kids| == 3 then
      Arith(ToAddOp(t.kids[1]), ToAdditive(n, t.kids[0]), ToTerm(n, t.kids[2]))
    else ToTerm(n, t.kids[0])
  }

  function ToTerm(n: Numerals, t: Tree): Expr
    requires Derives(Term, t)
    decreases t
  {
    if |t.kids| == 3 then
      Arith(ToMulOp(t.kids[1]), ToTerm(n, t.kids[0]), ToFactor(n, t.kids[2]))
    else ToFactor(n, t.kids[0])
  }

  function ToFactor(n: Numerals, t: Tree): Expr
    requires Derives(Factor, t)
    decreases t
  {
    var k := t.kids[if |t.kids| == 3 then 1 else 0];
    if k.sym == Expression then Paren(ToExpr(n, k))
    else if k.sym == Symbol.Var then Ref(ToVar(n, k))
    else if k.sym == Symbol.Call then ToCall(n, k)
    else if k.sym == Integer then ToInteger(n, k)
    else ToFloat(n, k)
  }

  function ToCall(n: Numerals, t: Tree): Expr
    requires Derives(Symbol.Call, t)
    decreases t
  {
    CallFun(t.kids[0].text, ToArgsOf(n, t.kids[2]))
  }

  function ToArgsOf(n: Numerals, t: Tree): seq<Expr>
    requires Derives(Args, t)
    decreases t
  {
    if t.kids[0] != Node(Epsilon, []) then ToArgs(n, t.kids[0]) else []
  }

  function ToArgs(n: Numerals, t: Tree): seq<Expr>
    requires Derives(ArgList, t)
    decreases t
  {
    if |t.kids| == 3 then ToArgs(n, t.kids[0]) + [ToExpr(n, t.kids[2])] else [ToExpr(n, t.kids[0])]
  }

  // ----- declarations and statements -----

  function ToVarDecl(n: Numerals, t: Tree, id: Id): Built<VarDecl>
    requires Derives(VarDeclaration, t)
  {
    var isArray := |t.kids| == 6;
    Built(VarDecl(id, t.kids[1].text, SaysInt(t.kids[0]), isArray, if isArray then n.toInt(t.kids[3].text) else 0),
          id + 1)
  }

  function ToDecls(n: Numerals, t: Tree, id: Id): Built<seq<VarDecl>>
    requires Derives(LocalDeclarations, t)
    decreases t
  {
    if |t.kids| == 2 then
      var first := ToDecls(n, t.kids[0], id);
      var last := ToVarDecl(n, t.kids[1], first.next);
      Built(first.t + [last.t], last.next)
    else Built([], id)
  }

  function ToStmts(n: Numerals, t: Tree, id: Id): Built<seq<Stmt>>
    requires Derives(StatementList, t)
    decreases t
  {
    if |t.kids| == 2 then
      var first := ToStmts(n, t.kids[0], id);
      var last := ToStmt(n, t.kids[1], first.next);
      Built(first.t + [last.t], last.next)
    else Built([], id)
  }

  function ToCompound(n: Numerals, t: Tree, id: Id): Built<Stmt>
    requires Derives(CompoundStmt, t)
    decreases t
  {
    var ds := ToDecls(n, t.kids[1], id);
    var sts := ToStmts(n, t.kids[2], ds.next);
    Built(Compound(ds.t, sts.t), sts.next)
  }

  function ToStmt(n: Numerals, t: Tree, id: Id): Built<Stmt>
    requires Derives(Statement, t)
    decreases t
  {
    var k := t.kids[0];
    if k.sym == ExpressionStmt then Built(ToExpressionStmt(n, k), id)
    else if k.sym == CompoundStmt then ToCompound(n, k, id)
    else if k.sym == SelectionStmt then ToSelection(n, k, id)
    else if k.sym == IterationStmt then ToIteration(n, k, id)
    else Built(ToReturn(n, k), id)
  }

  function ToExpressionStmt(n: Numerals, t: Tree): Stmt
    requires Derives(ExpressionStmt, t)
  {
    ExprStmt(if |t.kids| == 2 then Some(ToExpr(n, t.kids[0])) else None)
  }

  function ToSelection(n: Numerals, t: Tree, id: Id): Built<Stmt>
    requires Derives(SelectionStmt, t)
    decreases t
  {
    var ifTrue := ToStmt(n, t.kids[4], id);
    if |t.kids| == 7 then
      var ifFalse := ToStmt(n, t.kids[6], ifTrue.next);
      Built(If(ToExpr(n, t.kids[2]), ifTrue.t, Some(ifFalse.t)), ifFalse.next)
    else Built(If(ToExpr(n, t.kids[2]), ifTrue.t, None), ifTrue.next)
  }

  function ToIteration(n: Numerals, t: Tree, id: Id): Built<Stmt>
    requires Derives(IterationStmt, t)
    decreases t
  {
    var body := ToStmt(n, t.kids[4], id);
    Built(While(ToExpr(n, t.kids[2]), body.t), body.next)
  }

  function ToReturn(n: Numerals, t: Tree): Stmt
    requires Derives(ReturnStmt, t)
  {
    Stmt.Return(if |t.kids| == 3 then Some(ToExpr(n, t.kids[1])) else None)
  }

  function ToParam(t: Tree, id: Id): Built<VarDecl>
    requires Derives(Param, t)
  {
    Built(VarDecl(id, t.kids[1].text, SaysInt(t.kids[0]), |t.kids| > 2, 0), id + 1)
  }

  function ToParams(t: Tree, id: Id): Built<seq<VarDecl>>
    requires Derives(ParamList, t)
    decreases t
  {
    if |t.kids| == 3 then
      var first := ToParams(t.kids[0], id);
      var last := ToParam(t.kids[2], first.next);
      Built(first.t + [last.t], last.next)
    else
      var only := ToParam(t.kids[0], id);
      Built([only.t], only.next)
  }

  function ToParamsOf(t: Tree, id: Id): Built<seq<VarDecl>>
    requires Derives(Params, t)
  {
    if t.kids[0].Node? then ToParams(t.kids[0], id) else Built([], id)
  }

  function ToFun(n: Numerals, t: Tree, id: Id): Built<FunDecl>
    requires Derives(FunDeclaration, t)
  {
    var params := ToParamsOf(t.kids[3], id);
    var body := ToCompound(n, t.kids[5], params.next);
    Built(FunDecl(ToReturnType(t.kids[0]), t.kids[1].text, params.t, body.t), body.next)
  }

  function ToDeclaration(n: Numerals, t: Tree, id: Id): Built<Decl>
    requires Derives(Declaration, t)
  {
    if t.kids[0].sym == VarDeclaration then
      var v := ToVarDecl(n, t.kids[0], id);
      Built(GlobalVar(v.t), v.next)
    else
      var f := ToFun(n, t.kids[0], id);
      Built(GlobalFun(f.t), f.next)
  }

  function ToDeclarations(n: Numerals, t: Tree, id: Id): Built<seq<Decl>>
    requires Derives(DeclarationList, t)
    decreases t
  {
    if |t.kids| == 2 then
      var first := ToDeclarations(n, t.kids[0], id);
      var last := ToDeclaration(n, t.kids[1], first.next);
      Built(first.t + [last.t], last.next)
    else
      var only := ToDeclaration(n, t.kids[0], id);
      Built([only.t], only.next)
  }

  function ToProgram(n: Numerals, t: Tree, id: Id): Built<seq<Decl>>
    requires Derives(Program, t)
  {
    ToDeclarations(n, t.kids[0], id)
  }

  // ----- flattening -----

  /** The members of a left-recursive list in source order: nodes of `width` children hold the rest of the
      list first and a member last, the innermost node is a member or nothing. */
  function Members(t: Tree, width: nat): seq<Tree>
    requires t.Node? && width >= 2
    decreases t
  {
    if |t.kids| == width && t.kids[0].Node? then Members(t.kids[0], width) + [t.kids[width - 1]]
    else if |t.kids| == 1 && t.kids[0] != Node(Epsilon, []) then [t.kids[0]]
    else []
  }

  /** Walks down the list with a stack and takes the members off it again. */
  method Flatten(t: Tree, width: nat) returns (members: seq<Tree>)
    requires t.Node? && width >= 2
    ensures members == Members(t, width)
  {
    hide Backwards;
    BackwardsNone();
    var stack: seq<Tree> := [];
    var list := t;
    while |list.kids| == width && list.kids[0].Node?
      invariant list.Node?
      invariant Members(t, width) == Members(list, width) + Backwards(stack)
      decreases list
    {
      BackwardsPush(stack, list.kids[width - 1]);
      stack := stack + [list.kids[width - 1]];
      list := list.kids[0];
    }
    if |list.kids| == 1 && list.kids[0] != Node(Epsilon, []) {
      BackwardsPush(stack, list.kids[0]);
      stack := stack + [list.kids[0]];
    }
    members := [];
    while stack != []
      invariant Members(t, width) == members + Backwards(stack)
      decreases |stack|
    {
      var top := stack[|stack| - 1];
      BackwardsPush(stack[..|stack| - 1], top);
      assert stack == stack[..|stack| - 1] + [top];
      members := members + [top];
      stack := stack[..|stack| - 1];
    }
  }

  function Backwards(s: seq<Tree>): seq<Tree> {
    if s == [] then [] else [s[|s| - 1]] + Backwards(s[..|s| - 1])
  }

  lemma BackwardsNone()
    ensures Backwards([]) == []
  {
  }

  lemma BackwardsPush(s: seq<Tree>, t: Tree)
    ensures Backwards(s + [t]) == [t] + Backwards(s)
  {
    assert (s + [t])[..|s|] == s;
  }

  /** The arguments of a call are the members of its list, in that order. */
  lemma {:induction false} ArgsInOrder(n: Numerals, t: Tree)
    requires Derives(ArgList, t)
    ensures |Members(t, 3)| == |ToArgs(n, t)|
    ensures forall i :: 0 <= i < |Members(t, 3)| ==>
      Derives(Expression, Members(t, 3)[i]) && ToArgs(n, t)[i] == ToExpr(n, Members(t, 3)[i])
  {
    if |t.kids| == 3 {
      ArgsInOrder(n, t.kids[0]);
    }
  }

  /** The arguments one after the other, as the walk over the list gives them. */
  method BuildArgs(n: Numerals, t: Tree) returns (args: seq<Expr>)
    requires Derives(ArgList, t)
    ensures args == ToArgs(n, t)
  {
    hide ToArgs, ToExpr, Members, Derives;
    ArgsInOrder(n, t);
    var members := Flatten(t, 3);
    args := [];
    for k := 0 to |members|
      invariant args == ToArgs(n, t)[..k]
    {
      assert ToArgs(n, t)[..k + 1] == ToArgs(n, t)[..k] + [ToArgs(n, t)[k]];
      args := args + [ToExpr(n, members[k])];
    }
  }

  /** The declarations of a program are the members of its list in that order, the identities handed on from each
      to the next. */
  lemma {:induction false} DeclarationsInOrder(n: Numerals, t: Tree, id: Id) returns (ids: seq<Id>)
    requires Derives(DeclarationList, t)
    ensures var r, ms := ToDeclarations(n, t, id), Members(t, 2);
      && |r.t| == |ms| && |ids| == |ms| + 1 && ids[0] == id && ids[|ms|] == r.next
      && forall k :: 0 <= k < |ms| ==>
           Derives(Declaration, ms[k]) && ToDeclaration(n, ms[k], ids[k]) == Built(r.t[k], ids[k + 1])
    decreases t
  {
    hide ToDeclaration;
    if |t.kids| == 2 {
      ids := DeclarationsInOrder(n, t.kids[0], id);
      ids := ids + [ToDeclarations(n, t, id).next];
    } else {
      ids := [id, ToDeclarations(n, t, id).next];
    }
  }

  /** The declarations of a program, one after the other. */
  method BuildDeclarations(n: Numerals, t: Tree, id: Id) returns (r: Built<seq<Decl>>)
    requires Derives(DeclarationList, t)
    ensures r == ToDeclarations(n, t, id)
  {
    hide ToDeclarations, ToDeclaration, Members, Derives;
    ghost var ids := DeclarationsInOrder(n, t, id);
    ghost var all := ToDeclarations(n, t, id).t;
    var members := Flatten(t, 2);
    r := Built([], id);
    for k := 0 to |members|
      invariant r == Built(all[..k], ids[k])
    {
      var member := ToDeclaration(n, members[k], r.next);
      assert all[..k + 1] == all[..k] + [all[k]];
      r := Built(r.t + [member.t], member.next);
    }
    assert all[..|members|] == all;
  }

  /** So are the parameters of a function. */
  lemma {:induction false} ParamsInOrder(t: Tree, id: Id) returns (ids: seq<Id>)
    requires Derives(ParamList, t)
    ensures var r, ms := ToParams(t, id), Members(t, 3);
      && |r.t| == |ms| && |ids| == |ms| + 1 && ids[0] == id && ids[|ms|] == r.next
      && forall k :: 0 <= k < |ms| ==> Derives(Param, ms[k]) && ToParam(ms[k], ids[k]) == Built(r.t[k], ids[k + 1])
    decreases t
  {
    hide ToParam;
    if |t.kids| == 3 {
      ids := ParamsInOrder(t.kids[0], id);
      ids := ids + [ToParams(t, id).next];
    } else {
      ids := [id, ToParams(t, id).next];
    }
  }

  /** The parameters, one after the other. */
  method BuildParams(t: Tree, id: Id) returns (r: Built<seq<VarDecl>>)
    requires Derives(ParamList, t)
    ensures r == ToParams(t, id)
  {
    hide ToParams, ToParam, Members, Derives;
    ghost var ids := ParamsInOrder(t, id);
    ghost var all := ToParams(t, id).t;
    var members := Flatten(t, 3);
    r := Built([], id);
    for k := 0 to |members|
      invariant r == Built(all[..k], ids[k])
    {
      var member := ToParam(members[k], r.next);
      assert all[..k + 1] == all[..k] + [all[k]];
      r := Built(r.t + [member.t], member.next);
    }
    assert all[..|members|] == all;
  }

  /** So are the declarations of a compound statement. */
  lemma {:induction false} DeclsInOrder(n: Numerals, t: Tree, id: Id) returns (ids: seq<Id>)
    requires Derives(LocalDeclarations, t)
    ensures var r, ms := ToDecls(n, t, id), Members(t, 2);
      && |r.t| == |ms| && |ids| == |ms| + 1 && ids[0] == id && ids[|ms|] == r.next
      && forall k :: 0 <= k < |ms| ==>
           Derives(VarDeclaration, ms[k]) && ToVarDecl(n, ms[k], ids[k]) == Built(r.t[k], ids[k + 1])
    decreases t
  {
    hide ToVarDecl;
    if |t.kids| == 2 {
      ids := DeclsInOrder(n, t.kids[0], id);
      ids := ids + [ToDecls(n, t, id).next];
    } else {
      ids := [id];
    }
  }

  /** The local declarations, one after the other. */
  method BuildDecls(n: Numerals, t: Tree, id: Id) returns (r: Built<seq<VarDecl>>)
    requires Derives(LocalDeclarations, t)
    ensures r == ToDecls(n, t, id)
  {
    hide ToDecls, ToVarDecl, Members, Derives;
    ghost var ids := DeclsInOrder(n, t, id);
    ghost var all := ToDecls(n, t, id).t;
    var members := Flatten(t, 2);
    r := Built([], id);
    for k := 0 to |members|
      invariant r == Built(all[..k], ids[k])
    {
      var member := ToVarDecl(n, members[k], r.next);
      assert all[..k + 1] == all[..k] + [all[k]];
      r := Built(r.t + [member.t], member.next);
    }
    assert all[..|members|] == all;
  }

  /** So are its statements. */
  lemma {:induction false} StmtsInOrder(n: Numerals, t: Tree, id: Id) returns (ids: seq<Id>)
    requires Derives(StatementList, t)
    ensures var r, ms := ToStmts(n, t, id), Members(t, 2);
      && |r.t| == |ms| && |ids| == |ms| + 1 && ids[0] == id && ids[|ms|] == r.next
      && forall k :: 0 <= k < |ms| ==>
           Derives(Statement, ms[k]) && ToStmt(n, ms[k], ids[k]) == Built(r.t[k], ids[k + 1])
    decreases t
  {
    hide ToStmt;
    if |t.kids| == 2 {
      ids := StmtsInOrder(n, t.kids[0], id);
      ids := ids + [ToStmts(n, t, id).next];
    } else {
      ids := [id];
    }
  }

  /** The statements, one after the other. */
  method BuildStmts(n: Numerals, t: Tree, id: Id) returns (r: Built<seq<Stmt>>)
    requires Derives(StatementList, t)
    ensures r == ToStmts(n, t, id)
  {
    hide ToStmts, ToStmt, Members, Derives;
    ghost var ids := StmtsInOrder(n, t, id);
    ghost var all := ToStmts(n, t, id).t;
    var members := Flatten(t, 2);
    r := Built([], id);
    for k := 0 to |members|
      invariant r == Built(all[..k], ids[k])
    {
      var member := ToStmt(n, members[k], r.next);
      assert all[..k + 1] == all[..k] + [all[k]];
      r := Built(r.t + [member.t], member.next);
    }
    assert all[..|members|] == all;
  }

  // ----- identities -----

  /** All identities in the set have been given out. */
  predicate Given(used: set<Id>, id: Id) {
    forall u {:trigger u in used} :: u in used ==> u < id
  }

  predicate Between(ds: seq<VarDecl>, lo: Id, hi: Id) {
    forall k :: 0 <= k < |ds| ==> lo <= ds[k].site < hi
  }

  lemma {:induction false} DeclsFresh(n: Numerals, t: Tree, id: Id, used: set<Id>)
    requires Derives(LocalDeclarations, t) && Given(used, id)
    ensures var r := ToDecls(n, t, id); id <= r.next && FreshDecls(r.t, used) && Between(r.t, id, r.next)
    decreases t
  {
    if |t.kids| == 2 {
      DeclsFresh(n, t.kids[0], id, used);
    }
  }

  lemma {:induction false} ParamsFresh(t: Tree, id: Id)
    requires Derives(ParamList, t)
    ensures var r := ToParams(t, id); id <= r.next && FreshDecls(r.t, {}) && Between(r.t, id, r.next)
    decreases t
  {
    if |t.kids| == 3 {
      ParamsFresh(t.kids[0], id);
    }
  }

  predicate Within(ids: set<Id>, lo: Id, hi: Id) {
    forall id {:trigger id in ids} :: id in ids ==> lo <= id < hi
  }

  lemma GivenMore(used: set<Id>, ids: set<Id>, id: Id, next: Id)
    requires Given(used, id) && Within(ids, id, next) && id <= next
    ensures Given(used + ids, next)
  {
  }

  lemma BetweenWithin(ds: seq<VarDecl>, lo: Id, hi: Id)
    requires Between(ds, lo, hi)
    ensures Within(Sites(ds), lo, hi)
  {
  }

  lemma {:induction false} CompoundFresh(n: Numerals, t: Tree, id: Id, used: set<Id>)
    requires Derives(CompoundStmt, t) && Given(used, id)
    ensures var r := ToCompound(n, t, id); id <= r.next && AllFresh(r.t, used) && Within(SitesOf(r.t), id, r.next)
    decreases t
  {
    hide Given, ToDecls, ToStmts, FreshDecls, Sites;
    var ds := ToDecls(n, t.kids[1], id);
    DeclsFresh(n, t.kids[1], id, used);
    BetweenWithin(ds.t, id, ds.next);
    GivenMore(used, Sites(ds.t), id, ds.next);
    StmtsFresh(n, t.kids[2], ds.next, used + Sites(ds.t));
  }

  /** A list of statements stays distinct when one more comes at its end. */
  lemma {:induction false} EachAppend(sts: seq<Stmt>, st: Stmt, used: set<Id>)
    requires EachFresh(sts, used) && AllFresh(st, used + SitesOfAll(sts))
    ensures EachFresh(sts + [st], used) && SitesOfAll(sts + [st]) == SitesOfAll(sts) + SitesOf(st)
  {
    hide AllFresh, SitesOf;
    if sts == [] {
      assert [] + [st] == [st] && [st][1..] == [] && used + {} == used;
    } else {
      assert (sts + [st])[1..] == sts[1..] + [st];
      assert used + SitesOf(sts[0]) + SitesOfAll(sts[1..]) == used + SitesOfAll(sts);
      EachAppend(sts[1..], st, used + SitesOf(sts[0]));
    }
  }

  lemma {:induction false} StmtsFresh(n: Numerals, t: Tree, id: Id, used: set<Id>)
    requires Derives(StatementList, t) && Given(used, id)
    ensures var r := ToStmts(n, t, id); id <= r.next && EachFresh(r.t, used) && Within(SitesOfAll(r.t), id, r.next)
    decreases t
  {
    hide AllFresh, SitesOf, ToStmt, Given;
    if |t.kids| == 2 {
      var first := ToStmts(n, t.kids[0], id);
      StmtsFresh(n, t.kids[0], id, used);
      GivenMore(used, SitesOfAll(first.t), id, first.next);
      StmtFresh(n, t.kids[1], first.next, used + SitesOfAll(first.t));
      EachAppend(first.t, ToStmt(n, t.kids[1], first.next).t, used);
    }
  }

  lemma {:induction false} StmtFresh(n: Numerals, t: Tree, id: Id, used: set<Id>)
    requires Derives(Statement, t) && Given(used, id)
    ensures var r := ToStmt(n, t, id); id <= r.next && AllFresh(r.t, used) && Within(SitesOf(r.t), id, r.next)
    decreases t
  {
    hide ToCompound, ToSelection, Given;
    var k := t.kids[0];
    if k.sym == CompoundStmt {
      CompoundFresh(n, k, id, used);
    } else if k.sym == SelectionStmt {
      SelectionFresh(n, k, id, used);
    } else if k.sym == IterationStmt {
      StmtFresh(n, k.kids[4], id, used);
    }
  }

  lemma {:induction false} SelectionFresh(n: Numerals, t: Tree, id: Id, used: set<Id>)
    requires Derives(SelectionStmt, t) && Given(used, id)
    ensures var r := ToSelection(n, t, id); id <= r.next && AllFresh(r.t, used) && Within(SitesOf(r.t), id, r.next)
    decreases t
  {
    hide ToStmt, Given;
    var ifTrue := ToStmt(n, t.kids[4], id);
    StmtFresh(n, t.kids[4], id, used);
    if |t.kids| == 7 {
      GivenMore(used, SitesOf(ifTrue.t), id, ifTrue.next);
      StmtFresh(n, t.kids[6], ifTrue.next, used + SitesOf(ifTrue.t));
    }
  }

  /** In a function built from a parse tree every declaration has an identity of its own, which is what
      lowering relies on, and all are below the next free one. */
  lemma FunctionFresh(n: Numerals, t: Tree, id: Id)
    requires Derives(FunDeclaration, t)
    ensures var r := ToFun(n, t, id); var f := r.t;
      && FreshDecls(f.params, {}) && AllFresh(f.body, Sites(f.params)) && FreshSites(f.body, Sites(f.params))
      && f.body.Compound?
      && Within(Sites(f.params) + SitesOf(f.body), id, r.next)
  {
    hide ToParamsOf, ToCompound, FreshDecls, AllFresh, FreshSites, Sites;
    var params := ToParamsOf(t.kids[3], id);
    ParamsOfFresh(t.kids[3], id);
    BetweenWithin(params.t, id, params.next);
    GivenMore({}, Sites(params.t), id, params.next);
    assert {} + Sites(params.t) == Sites(params.t);
    CompoundFresh(n, t.kids[5], params.next, Sites(params.t));
    CompoundBuilt(n, t.kids[5], params.next);
    AllFreshNested(ToFun(n, t, id).t.body, Sites(params.t), Sites(params.t));
  }

  lemma ParamsOfFresh(t: Tree, id: Id)
    requires Derives(Params, t)
    ensures var r := ToParamsOf(t, id); id <= r.next && FreshDecls(r.t, {}) && Between(r.t, id, r.next)
  {
    if t.kids[0].Node? {
      ParamsFresh(t.kids[0], id);
    }
  }

  lemma CompoundBuilt(n: Numerals, t: Tree, id: Id)
    requires Derives(CompoundStmt, t)
    ensures ToCompound(n, t, id).t.Compound?
  {
  }
}
