/** The parse tree can be rebuilt from the syntax tree made from it. */
module RoundTrip {
  import opened ControlFlow
  import opened IR
  import opened ParseTrees
  import opened Syntax
  import opened AstBuilding

  // ----- rebuilding -----

  function RelToken(op: RelOp): string {
    match op
    case LessEq => "<="
    case Less => "<"
    case Greater => ">"
    case GreaterEq => ">="
    case Equal => "=="
    case NotEqual => "!="
  }

  function ArithToken(op: ArithOp): string {
    match op
    case Plus => "+"
    case Minus => "-"
    case Times => "*"
    case Divide => "/"
  }

  predicate IsAdd(op: ArithOp) {
    op == Plus || op == Minus
  }

  function Nothing(s: Symbol): Tree {
    Node(s, [Node(Epsilon, [])])
  }

  function AsExpr(n: Numerals, e: Expr): Tree
    decreases e, 7
  {
    match e
    case Assign(d, r) => Node(Expression, [AsVar(n, d), Token("="), AsExpr(n, r)])
    case _ => Node(Expression, [AsSimple(n, e)])
  }

  function AsVar(n: Numerals, v: VarRef): Tree
    decreases v, 0
  {
    match v.index
    case None => Node(Symbol.Var, [Token(v.id)])
    case Some(i) => Node(Symbol.Var, [Token(v.id), Token("["), AsExpr(n, i), Token("]")])
  }

  function AsSimple(n: Numerals, e: Expr): Tree
    decreases e, 6
  {
    match e
    case Relation(op, l, r) =>
      Node(SimpleExpression, [AsAdditive(n, l), Node(Relop, [Token(RelToken(op))]), AsAdditive(n, r)])
    case _ => Node(SimpleExpression, [AsAdditive(n, e)])
  }

  function AsAdditive(n: Numerals, e: Expr): Tree
    decreases e, 5
  {
    if e.Arith? && IsAdd(e.op) then
      Node(AdditiveExpression, [AsAdditive(n, e.l), Node(Addop, [Token(ArithToken(e.op))]), AsTerm(n, e.r)])
    else Node(AdditiveExpression, [AsTerm(n, e)])
  }

  function AsTerm(n: Numerals, e: Expr): Tree
    decreases e, 4
  {
    if e.Arith? && !IsAdd(e.op) then
      Node(Term, [AsTerm(n, e.l), Node(Mulop, [Token(ArithToken(e.op))]), AsFactor(n, e.r)])
    else Node(Term, [AsFactor(n, e)])
  }

  /** What is no factor of the grammar has no tree. */
  function AsFactor(n: Numerals, e: Expr): Tree
    decreases e, 3
  {
    match e
    case Paren(inner) => Node(Factor, [Token("("), AsExpr(n, inner), Token(")")])
    case Ref(v) => Node(Factor, [AsVar(n, v)])
    case CallFun(id, args) => Node(Factor, [AsCall(n, id, args)])
    case Num(isInt, x) => Node(Factor, [AsNumeral(n, isInt, x)])
    case _ => Node(Factor, [])
  }

  function AsNumeral(n: Numerals, isInt: bool, x: Val): Tree {
    if isInt then Node(Integer, [Token(n.ofInt(x))]) else Node(Float, [Token(n.ofFloat(x))])
  }

  function AsCall(n: Numerals, id: string, args: seq<Expr>): Tree
    decreases args, 2
  {
    Node(Symbol.Call, [Token(id), Token("("), AsArgsOf(n, args), Token(")")])
  }

  function AsArgsOf(n: Numerals, args: seq<Expr>): Tree
    decreases args, 1
  {
    if args == [] then Nothing(Args) else Node(Args, [AsArgs(n, args)])
  }

  function AsArgs(n: Numerals, args: seq<Expr>): Tree
    requires args != []
    decreases args, 0
  {
    var last := |args| - 1;
    if last == 0 then Node(ArgList, [AsExpr(n, args[0])])
    else Node(ArgList, [AsArgs(n, args[..last]), Token(","), AsExpr(n, args[last])])
  }

  function AsType(isInt: bool): Tree {
    Node(TypeSpecifier, [Token(if isInt then "int" else "float")])
  }

  function AsReturnType(t: Ty): Tree {
    Node(TypeSpecifier, [Token(if t == Int then "int" else if t == Flt then "float" else "void")])
  }

  function AsDecl(n: Numerals, d: VarDecl): Tree {
    if d.isArray then
      Node(VarDeclaration, [AsType(d.isInt), Token(d.id), Token("["), Token(n.ofInt(d.size)), Token("]"), Token(";")])
    else Node(VarDeclaration, [AsType(d.isInt), Token(d.id), Token(";")])
  }

  function AsDecls(n: Numerals, ds: seq<VarDecl>): Tree
    decreases |ds|
  {
    if ds == [] then Nothing(LocalDeclarations)
    else Node(LocalDeclarations, [AsDecls(n, ds[..|ds| - 1]), AsDecl(n, ds[|ds| - 1])])
  }

  function AsStmt(n: Numerals, st: Stmt): Tree
    decreases st, 3
  {
    Node(Statement, [AsBare(n, st)])
  }

  /** A statement by its kind. */
  function AsBare(n: Numerals, st: Stmt): Tree
    decreases st, 2
  {
    match st
    case Compound(ds, sts) => Node(CompoundStmt, [Token("{"), AsDecls(n, ds), AsStmts(n, sts), Token("}")])
    case ExprStmt(None) => Node(ExpressionStmt, [Token(";")])
    case ExprStmt(Some(e)) => Node(ExpressionStmt, [AsExpr(n, e), Token(";")])
    case If(c, t, f) =>
      if f.None? then Node(SelectionStmt, [Token("if"), Token("("), AsExpr(n, c), Token(")"), AsStmt(n, t)])
      else Node(SelectionStmt, [Token("if"), Token("("), AsExpr(n, c), Token(")"), AsStmt(n, t), Token("else"),
                                AsStmt(n, f.value)])
    case While(c, body) =>
      Node(IterationStmt, [Token("while"), Token("("), AsExpr(n, c), Token(")"), AsStmt(n, body)])
    case Return(None) => Node(ReturnStmt, [Token("return"), Token(";")])
    case Return(Some(e)) => Node(ReturnStmt, [Token("return"), AsExpr(n, e), Token(";")])
  }

  function AsStmts(n: Numerals, sts: seq<Stmt>): Tree
    decreases sts, 0
  {
    if sts == [] then Nothing(StatementList)
    else Node(StatementList, [AsStmts(n, sts[..|sts| - 1]), AsStmt(n, sts[|sts| - 1])])
  }

  function AsParam(d: VarDecl): Tree {
    if d.isArray then Node(Param, [AsType(d.isInt), Token(d.id), Token("["), Token("]")])
    else Node(Param, [AsType(d.isInt), Token(d.id)])
  }

  function AsParams(ds: seq<VarDecl>): Tree
    requires ds != []
    decreases |ds|
  {
    var last := |ds| - 1;
    if last == 0 then Node(ParamList, [AsParam(ds[0])])
    else Node(ParamList, [AsParams(ds[..last]), Token(","), AsParam(ds[last])])
  }

  function AsParamsOf(ds: seq<VarDecl>): Tree {
    Node(Params, [if ds == [] then Token("void") else AsParams(ds)])
  }

  function AsFun(n: Numerals, f: FunDecl): Tree {
    Node(FunDeclaration, [AsReturnType(f.ret), Token(f.name), Token("("), AsParamsOf(f.params), Token(")"),
                          AsBare(n, f.body)])
  }

  function AsDeclaration(n: Numerals, d: Decl): Tree {
    match d
    case GlobalVar(v) => Node(Declaration, [AsDecl(n, v)])
    case GlobalFun(f) => Node(Declaration, [AsFun(n, f)])
  }

  function AsDeclarations(n: Numerals, ds: seq<Decl>): Tree
    requires ds != []
    decreases |ds|
  {
    var last := |ds| - 1;
    if last == 0 then Node(DeclarationList, [AsDeclaration(n, ds[0])])
    else Node(DeclarationList, [AsDeclarations(n, ds[..last]), AsDeclaration(n, ds[last])])
  }

  function AsProgram(n: Numerals, ds: seq<Decl>): Tree
    requires ds != []
  {
    Node(Program, [AsDeclarations(n, ds)])
  }

  // ----- what survives -----

  /** A numeral that is written as it was read. */
  predicate CanonicalInt(n: Numerals, x: string) {
    n.ofInt(n.toInt(x)) == x
  }

  predicate CanonicalFloat(n: Numerals, x: string) {
    n.ofFloat(n.toFloat(x)) == x
  }

  /** Child `i` of a node: variables and parameters are not declared void, and numerals are canonical. */
  predicate Survives(n: Numerals, s: Symbol, width: nat, i: nat, kid: Tree)
    decreases kid, 1
  {
    if (s == VarDeclaration || s == Param) && i == 0 then kid.Node? && kid.kids != [Token("void")]
    else if s == VarDeclaration && width == 6 && i == 3 then kid.Token? && CanonicalInt(n, kid.text)
    else if s == Integer then kid.Token? && CanonicalInt(n, kid.text)
    else if s == Float then kid.Token? && CanonicalFloat(n, kid.text)
    else Faithful(n, kid)
  }

  predicate Faithful(n: Numerals, t: Tree)
    decreases t, 0
  {
    t.Token? || forall i :: 0 <= i < |t.kids| ==> Survives(n, t.sym, |t.kids|, i, t.kids[i])
  }

  // ----- agreement -----

  /** The trees differ at most in the texts of tokens. */
  predicate Alike(u: Tree, t: Tree)
    decreases t
  {
    if t.Token? then u.Token?
    else
      && u.Node? && u.sym == t.sym && |u.kids| == |t.kids|
      && forall i {:trigger t.kids[i]} :: 0 <= i < |t.kids| ==> Alike(u.kids[i], t.kids[i])
  }

  /** What is rebuilt differs from the tree at most in the texts of tokens, and is the tree exactly if `ok`. */
  ghost predicate Agrees(u: Tree, t: Tree, ok: bool) {
    Alike(u, t) && (u == t <==> ok)
  }

  /** Trees that are alike have as many tokens, and the same ones only if they are the same. */
  lemma {:induction false} AlikeYields(u: Tree, t: Tree)
    requires Alike(u, t)
    ensures |Yield(u)| == |Yield(t)| && (Yield(u) == Yield(t) <==> u == t)
    decreases t, 1
  {
    if t.Node? {
      AllAlikeYields(u.kids, t.kids);
    }
  }

  lemma {:induction false} AllAlikeYields(us: seq<Tree>, ts: seq<Tree>)
    requires |us| == |ts| && forall i {:trigger ts[i]} :: 0 <= i < |ts| ==> Alike(us[i], ts[i])
    ensures |YieldAll(us)| == |YieldAll(ts)| && (YieldAll(us) == YieldAll(ts) <==> us == ts)
    decreases ts, 0
  {
    hide Alike, Yield;
    if us != [] {
      AlikeRest(us, ts);
      AlikeYields(us[0], ts[0]);
      AllAlikeYields(us[1..], ts[1..]);
      SplitEqual(Yield(us[0]), YieldAll(us[1..]), Yield(ts[0]), YieldAll(ts[1..]));
      HeadAndRest(us, ts);
    }
  }

  lemma AlikeRest(us: seq<Tree>, ts: seq<Tree>)
    requires |us| == |ts| > 0 && forall i {:trigger ts[i]} :: 0 <= i < |ts| ==> Alike(us[i], ts[i])
    ensures Alike(us[0], ts[0])
    ensures forall i {:trigger ts[1..][i]} :: 0 <= i < |ts[1..]| ==> Alike(us[1..][i], ts[1..][i])
  {
    hide Alike;
    assert forall i :: 0 <= i < |ts[1..]| ==> us[1..][i] == us[i + 1] && ts[1..][i] == ts[i + 1];
  }

  lemma HeadAndRest(us: seq<Tree>, ts: seq<Tree>)
    requires |us| == |ts| > 0
    ensures us == ts <==> us[0] == ts[0] && us[1..] == ts[1..]
  {
    assert us == [us[0]] + us[1..] && ts == [ts[0]] + ts[1..];
  }

  lemma SplitEqual(a: seq<string>, b: seq<string>, c: seq<string>, d: seq<string>)
    requires |a| == |c|
    ensures a + b == c + d <==> a == c && b == d
  {
    if a + b == c + d {
      assert a == (a + b)[..|a|] && c == (c + d)[..|a|];
      assert b == (a + b)[|a|..] && d == (c + d)[|a|..];
    }
  }

  ghost predicate KidAgrees(n: Numerals, t: Tree, i: nat, u: Tree)
    requires t.Node? && i < |t.kids|
  {
    Agrees(u, t.kids[i], Survives(n, t.sym, |t.kids|, i, t.kids[i]))
  }

  lemma NodeAgrees(n: Numerals, u: Tree, t: Tree)
    requires u.Node? && t.Node? && u.sym == t.sym && |u.kids| == |t.kids|
    requires forall i {:trigger t.kids[i]} :: 0 <= i < |t.kids| ==> KidAgrees(n, t, i, u.kids[i])
    ensures Agrees(u, t, Faithful(n, t))
  {
    hide Survives;
    assert u == t <==> u.kids == t.kids;
    forall i | 0 <= i < |t.kids|
      ensures Alike(u.kids[i], t.kids[i]) && (u.kids[i] == t.kids[i] <==> Survives(n, t.sym, |t.kids|, i, t.kids[i]))
    {
      assert KidAgrees(n, t, i, u.kids[i]);
    }
  }

  // ----- nodes by their width -----

  lemma Node1(n: Numerals, t: Tree, a: Tree)
    requires t.Node? && |t.kids| == 1
    requires KidAgrees(n, t, 0, a)
    ensures Agrees(Node(t.sym, [a]), t, Faithful(n, t))
  {
    hide Agrees, KidAgrees, Faithful;
    var u := Node(t.sym, [a]);
    forall i | 0 <= i < 1
      ensures KidAgrees(n, t, i, u.kids[i])
    {
    }
    NodeAgrees(n, u, t);
  }

  lemma Node2(n: Numerals, t: Tree, a: Tree, b: Tree)
    requires t.Node? && |t.kids| == 2
    requires KidAgrees(n, t, 0, a) && KidAgrees(n, t, 1, b)
    ensures Agrees(Node(t.sym, [a, b]), t, Faithful(n, t))
  {
    hide Agrees, KidAgrees, Faithful;
    var u := Node(t.sym, [a, b]);
    forall i | 0 <= i < 2
      ensures KidAgrees(n, t, i, u.kids[i])
    {
    }
    NodeAgrees(n, u, t);
  }

  lemma Node3(n: Numerals, t: Tree, a: Tree, b: Tree, c: Tree)
    requires t.Node? && |t.kids| == 3
    requires KidAgrees(n, t, 0, a) && KidAgrees(n, t, 1, b) && KidAgrees(n, t, 2, c)
    ensures Agrees(Node(t.sym, [a, b, c]), t, Faithful(n, t))
  {
    hide Agrees, KidAgrees, Faithful;
    var u := Node(t.sym, [a, b, c]);
    forall i | 0 <= i < 3
      ensures KidAgrees(n, t, i, u.kids[i])
    {
    }
    NodeAgrees(n, u, t);
  }

  lemma Node4(n: Numerals, t: Tree, a: Tree, b: Tree, c: Tree, d: Tree)
    requires t.Node? && |t.kids| == 4
    requires KidAgrees(n, t, 0, a) && KidAgrees(n, t, 1, b) && KidAgrees(n, t, 2, c)
    requires KidAgrees(n, t, 3, d)
    ensures Agrees(Node(t.sym, [a, b, c, d]), t, Faithful(n, t))
  {
    hide Agrees, KidAgrees, Faithful;
    var u := Node(t.sym, [a, b, c, d]);
    forall i | 0 <= i < 4
      ensures KidAgrees(n, t, i, u.kids[i])
    {
    }
    NodeAgrees(n, u, t);
  }

  lemma Node5(n: Numerals, t: Tree, a: Tree, b: Tree, c: Tree, d: Tree, e: Tree)
    requires t.Node? && |t.kids| == 5
    requires KidAgrees(n, t, 0, a) && KidAgrees(n, t, 1, b) && KidAgrees(n, t, 2, c)
    requires KidAgrees(n, t, 3, d) && KidAgrees(n, t, 4, e)
    ensures Agrees(Node(t.sym, [a, b, c, d, e]), t, Faithful(n, t))
  {
    hide Agrees, KidAgrees, Faithful;
    var u := Node(t.sym, [a, b, c, d, e]);
    forall i | 0 <= i < 5
      ensures KidAgrees(n, t, i, u.kids[i])
    {
    }
    NodeAgrees(n, u, t);
  }

  lemma Node6(n: Numerals, t: Tree, a: Tree, b: Tree, c: Tree, d: Tree, e: Tree, f: Tree)
    requires t.Node? && |t.kids| == 6
    requires KidAgrees(n, t, 0, a) && KidAgrees(n, t, 1, b) && KidAgrees(n, t, 2, c)
    requires KidAgrees(n, t, 3, d) && KidAgrees(n, t, 4, e) && KidAgrees(n, t, 5, f)
    ensures Agrees(Node(t.sym, [a, b, c, d, e, f]), t, Faithful(n, t))
  {
    hide Agrees, KidAgrees, Faithful;
    var u := Node(t.sym, [a, b, c, d, e, f]);
    forall i | 0 <= i < 6
      ensures KidAgrees(n, t, i, u.kids[i])
    {
    }
    NodeAgrees(n, u, t);
  }

  lemma Node7(n: Numerals, t: Tree, a: Tree, b: Tree, c: Tree, d: Tree, e: Tree, f: Tree, g: Tree)
    requires t.Node? && |t.kids| == 7
    requires KidAgrees(n, t, 0, a) && KidAgrees(n, t, 1, b) && KidAgrees(n, t, 2, c)
    requires KidAgrees(n, t, 3, d) && KidAgrees(n, t, 4, e) && KidAgrees(n, t, 5, f)
    requires KidAgrees(n, t, 6, g)
    ensures Agrees(Node(t.sym, [a, b, c, d, e, f, g]), t, Faithful(n, t))
  {
    hide Agrees, KidAgrees, Faithful;
    var u := Node(t.sym, [a, b, c, d, e, f, g]);
    forall i | 0 <= i < 7
      ensures KidAgrees(n, t, i, u.kids[i])
    {
    }
    NodeAgrees(n, u, t);
  }

  /** A token that is no numeral of its node is rebuilt as it is. */
  lemma TokenSurvives(n: Numerals, t: Tree, i: nat)
    requires t.Node? && i < |t.kids| && t.kids[i].Token?
    requires t.sym != Integer && t.sym != Float && !((t.sym == VarDeclaration || t.sym == Param) && i == 0)
    requires !(t.sym == VarDeclaration && i == 3)
    ensures KidAgrees(n, t, i, t.kids[i])
  {
  }

  /** Everywhere but in a declaration or a numeral a child survives if it is faithful. */
  predicate Plain(s: Symbol) {
    s != VarDeclaration && s != Param && s != Integer && s != Float
  }

  lemma PlainKids(n: Numerals, t: Tree)
    requires t.Node? && Plain(t.sym)
    ensures forall i: nat, u {:trigger KidAgrees(n, t, i, u)} ::
      i < |t.kids| ==> (KidAgrees(n, t, i, u) <==> Agrees(u, t.kids[i], Faithful(n, t.kids[i])))
    ensures forall i: nat {:trigger t.kids[i]} :: i < |t.kids| && t.kids[i].Token? ==> KidAgrees(n, t, i, t.kids[i])
  {
    hide Faithful, Agrees;
    forall i: nat | i < |t.kids| && t.kids[i].Token?
      ensures KidAgrees(n, t, i, t.kids[i])
    {
      TokenSurvives(n, t, i);
    }
  }

  lemma EmptyAgrees(n: Numerals, t: Tree)
    requires Empty(t) && Plain(t.sym)
    ensures Agrees(Nothing(t.sym), t, Faithful(n, t))
  {
    assert Faithful(n, t.kids[0]);
    assert t.kids[0].kids == [];
    assert t == Nothing(t.sym);
    AlikeSelf(t);
  }

  lemma {:induction false} AlikeSelf(t: Tree)
    ensures Alike(t, t)
    decreases t
  {
    if t.Node? {
      forall i | 0 <= i < |t.kids|
        ensures Alike(t.kids[i], t.kids[i])
      {
        AlikeSelf(t.kids[i]);
      }
    }
  }

  // ----- expressions -----

  /** Which expressions come from which level of the grammar. */
  lemma {:induction false} FactorLevel(n: Numerals, t: Tree)
    requires Derives(Factor, t)
    ensures var e := ToFactor(n, t); !e.Arith? && !e.Relation? && !e.Assign?
  {
  }

  lemma {:induction false} TermLevel(n: Numerals, t: Tree)
    requires Derives(Term, t)
    ensures var e := ToTerm(n, t); !e.Relation? && !e.Assign? && (e.Arith? ==> !IsAdd(e.op))
  {
    if |t.kids| == 1 {
      FactorLevel(n, t.kids[0]);
    }
  }

  lemma {:induction false} AdditiveLevel(n: Numerals, t: Tree)
    requires Derives(AdditiveExpression, t)
    ensures var e := ToAdditive(n, t); !e.Relation? && !e.Assign?
  {
    if |t.kids| == 1 {
      TermLevel(n, t.kids[0]);
    }
  }

  lemma {:induction false} SimpleLevel(n: Numerals, t: Tree)
    requires Derives(SimpleExpression, t)
    ensures !ToSimple(n, t).Assign?
  {
    if |t.kids| == 1 {
      AdditiveLevel(n, t.kids[0]);
    }
  }

  lemma AdditiveKids(t: Tree)
    requires Derives(AdditiveExpression, t)
    ensures t.Node? && t.sym == AdditiveExpression && (|t.kids| == 1 || |t.kids| == 3) && var k := t.kids;
      && (|k| == 3 ==> Derives(AdditiveExpression, k[0]) && k[0] < t && Derives(Addop, k[1]) && Derives(Term, k[2]))
      && (|k| == 1 ==> Derives(Term, k[0]))
  {
  }

  lemma TermKids(t: Tree)
    requires Derives(Term, t)
    ensures t.Node? && t.sym == Term && (|t.kids| == 1 || |t.kids| == 3) && var k := t.kids;
      && (|k| == 3 ==> Derives(Term, k[0]) && k[0] < t && Derives(Mulop, k[1]) && Derives(Factor, k[2]))
      && (|k| == 1 ==> Derives(Factor, k[0]))
  {
  }

  lemma FactorKids(t: Tree)
    requires Derives(Factor, t)
    ensures t.Node? && t.sym == Factor && (|t.kids| == 1 || |t.kids| == 3) && var k := t.kids;
      && (|k| == 3 ==> k[0] == Token("(") && Derives(Expression, k[1]) && k[1] < t && k[2] == Token(")"))
      && (|k| == 1 ==> k[0] < t && (Derives(Symbol.Var, k[0]) || Derives(Symbol.Call, k[0]) || Derives(Integer, k[0])
                                    || Derives(Float, k[0])))
  {
  }

  lemma RelOpAgrees(n: Numerals, t: Tree)
    requires Derives(Relop, t)
    ensures Agrees(Node(Relop, [Token(RelToken(ToRelOp(t)))]), t, Faithful(n, t))
  {
    hide Agrees, Faithful, KidAgrees;
    PlainKids(n, t);
    Node1(n, t, t.kids[0]);
  }

  lemma AddOpAgrees(n: Numerals, t: Tree)
    requires Derives(Addop, t)
    ensures Agrees(Node(Addop, [Token(ArithToken(ToAddOp(t)))]), t, Faithful(n, t))
  {
    hide Agrees, Faithful, KidAgrees;
    PlainKids(n, t);
    Node1(n, t, t.kids[0]);
  }

  lemma MulOpAgrees(n: Numerals, t: Tree)
    requires Derives(Mulop, t)
    ensures Agrees(Node(Mulop, [Token(ArithToken(ToMulOp(t)))]), t, Faithful(n, t))
  {
    hide Agrees, Faithful, KidAgrees;
    PlainKids(n, t);
    Node1(n, t, t.kids[0]);
  }

  lemma {:induction false} ExprAgrees(n: Numerals, t: Tree)
    requires Derives(Expression, t)
    ensures Agrees(AsExpr(n, ToExpr(n, t)), t, Faithful(n, t))
    decreases t
  {
    hide Agrees, Faithful, Survives, KidAgrees;
    PlainKids(n, t);
    if |t.kids| == 1 {
      SimpleLevel(n, t.kids[0]);
      SimpleAgrees(n, t.kids[0]);
      Node1(n, t, AsSimple(n, ToSimple(n, t.kids[0])));
    } else {
      VarAgrees(n, t.kids[0]);
      ExprAgrees(n, t.kids[2]);
      Node3(n, t, AsVar(n, ToVar(n, t.kids[0])), Token("="), AsExpr(n, ToExpr(n, t.kids[2])));
    }
  }

  lemma {:induction false} VarAgrees(n: Numerals, t: Tree)
    requires Derives(Symbol.Var, t)
    ensures Agrees(AsVar(n, ToVar(n, t)), t, Faithful(n, t))
    decreases t
  {
    hide Agrees, Faithful, Survives, KidAgrees;
    PlainKids(n, t);
    if |t.kids| == 1 {
      Node1(n, t, t.kids[0]);
    } else {
      ExprAgrees(n, t.kids[2]);
      Node4(n, t, t.kids[0], Token("["), AsExpr(n, ToExpr(n, t.kids[2])), Token("]"));
    }
  }

  lemma {:induction false} SimpleAgrees(n: Numerals, t: Tree)
    requires Derives(SimpleExpression, t)
    ensures Agrees(AsSimple(n, ToSimple(n, t)), t, Faithful(n, t))
    decreases t
  {
    hide Agrees, Faithful, Survives, KidAgrees, AsAdditive, ToAdditive, RelToken, ToRelOp;
    PlainKids(n, t);
    AdditiveAgrees(n, t.kids[0]);
    if |t.kids| == 3 {
      RelOpAgrees(n, t.kids[1]);
      AdditiveAgrees(n, t.kids[2]);
      Node3(n, t, AsAdditive(n, ToAdditive(n, t.kids[0])), Node(Relop, [Token(RelToken(ToRelOp(t.kids[1])))]),
            AsAdditive(n, ToAdditive(n, t.kids[2])));
    } else {
      AdditiveLevel(n, t.kids[0]);
      Node1(n, t, AsAdditive(n, ToAdditive(n, t.kids[0])));
    }
  }

  /** The operators of sums and products, by where they stand. */
  lemma OperatorLevel(t: Tree)
    requires Derives(Addop, t) || Derives(Mulop, t)
    ensures Derives(Addop, t) ==> IsAdd(ToAddOp(t))
    ensures Derives(Mulop, t) ==> !IsAdd(ToMulOp(t))
  {
  }

  lemma {:induction false} AdditiveAgrees(n: Numerals, t: Tree)
    requires Derives(AdditiveExpression, t)
    ensures Agrees(AsAdditive(n, ToAdditive(n, t)), t, Faithful(n, t))
    decreases t
  {
    hide Agrees, Faithful, Survives, KidAgrees, AsTerm, ToTerm, ArithToken, ToAddOp, Derives;
    AdditiveKids(t);
    PlainKids(n, t);
    if |t.kids| == 3 {
      OperatorLevel(t.kids[1]);
      AdditiveAgrees(n, t.kids[0]);
      AddOpAgrees(n, t.kids[1]);
      TermAgrees(n, t.kids[2]);
      Node3(n, t, AsAdditive(n, ToAdditive(n, t.kids[0])), Node(Addop, [Token(ArithToken(ToAddOp(t.kids[1])))]),
            AsTerm(n, ToTerm(n, t.kids[2])));
    } else {
      TermLevel(n, t.kids[0]);
      TermAgrees(n, t.kids[0]);
      Node1(n, t, AsTerm(n, ToTerm(n, t.kids[0])));
    }
  }

  lemma {:induction false} TermAgrees(n: Numerals, t: Tree)
    requires Derives(Term, t)
    ensures Agrees(AsTerm(n, ToTerm(n, t)), t, Faithful(n, t))
    decreases t
  {
    hide Agrees, Faithful, Survives, KidAgrees, AsFactor, ToFactor, ArithToken, ToMulOp, Derives;
    TermKids(t);
    PlainKids(n, t);
    if |t.kids| == 3 {
      OperatorLevel(t.kids[1]);
      TermAgrees(n, t.kids[0]);
      MulOpAgrees(n, t.kids[1]);
      FactorAgrees(n, t.kids[2]);
      Node3(n, t, AsTerm(n, ToTerm(n, t.kids[0])), Node(Mulop, [Token(ArithToken(ToMulOp(t.kids[1])))]),
            AsFactor(n, ToFactor(n, t.kids[2])));
    } else {
      FactorLevel(n, t.kids[0]);
      FactorAgrees(n, t.kids[0]);
      Node1(n, t, AsFactor(n, ToFactor(n, t.kids[0])));
    }
  }

  lemma NumeralAgrees(n: Numerals, t: Tree)
    requires Derives(Integer, t) || Derives(Float, t)
    ensures Derives(Integer, t) ==> Agrees(AsNumeral(n, true, n.toInt(t.kids[0].text)), t, Faithful(n, t))
    ensures Derives(Float, t) ==> Agrees(AsNumeral(n, false, n.toFloat(t.kids[0].text)), t, Faithful(n, t))
  {
    hide Faithful;
    var x := t.kids[0].text;
    if t.sym == Integer {
      Node1(n, t, Token(n.ofInt(n.toInt(x))));
    } else {
      Node1(n, t, Token(n.ofFloat(n.toFloat(x))));
    }
  }

  lemma NumeralKids(t: Tree)
    requires Derives(Integer, t) || Derives(Float, t)
    ensures t.Node? && (t.sym == Integer || t.sym == Float) && |t.kids| == 1 && t.kids[0].Token?
    ensures t.sym == Integer ==> Derives(Integer, t)
    ensures t.sym == Float ==> Derives(Float, t)
  {
  }

  lemma {:induction false} FactorAgrees(n: Numerals, t: Tree)
    requires Derives(Factor, t)
    ensures Agrees(AsFactor(n, ToFactor(n, t)), t, Faithful(n, t))
    decreases t
  {
    hide Agrees, Faithful, Survives, KidAgrees, AsNumeral, AsCall, ToArgsOf, AsVar, ToVar, AsExpr, ToExpr, Derives;
    FactorKids(t);
    PlainKids(n, t);
    if |t.kids| == 3 {
      ExprAgrees(n, t.kids[1]);
      ExpressionNode(t.kids[1]);
      Node3(n, t, Token("("), AsExpr(n, ToExpr(n, t.kids[1])), Token(")"));
    } else {
      AtomAgrees(n, t);
    }
  }

  lemma ExpressionNode(t: Tree)
    requires Derives(Expression, t)
    ensures t.Node? && t.sym == Expression
  {
  }

  /** A factor that is a variable, a call or a numeral. */
  lemma {:induction false} AtomAgrees(n: Numerals, t: Tree)
    requires Derives(Factor, t) && |t.kids| == 1
    ensures Agrees(AsFactor(n, ToFactor(n, t)), t, Faithful(n, t))
    decreases t, 0
  {
    hide Agrees, Faithful, Survives, KidAgrees, AsNumeral, AsCall, ToArgsOf, AsVar, ToVar, AsExpr, ToExpr, Derives;
    FactorKids(t);
    PlainKids(n, t);
    var k := t.kids[0];
    if Derives(Symbol.Var, k) {
      VarAgrees(n, k);
      Node1(n, t, AsVar(n, ToVar(n, k)));
    } else if Derives(Symbol.Call, k) {
      CallKids(k);
      CallAgrees(n, k);
      Node1(n, t, AsCall(n, k.kids[0].text, ToArgsOf(n, k.kids[2])));
    } else {
      NumeralKids(k);
      NumeralAgrees(n, k);
      var x := k.kids[0].text;
      Node1(n, t, if k.sym == Integer then AsNumeral(n, true, n.toInt(x)) else AsNumeral(n, false, n.toFloat(x)));
    }
  }

  lemma CallKids(t: Tree)
    requires Derives(Symbol.Call, t)
    ensures t.Node? && t.sym == Symbol.Call && |t.kids| == 4 && t.kids[0].Token? && t.kids[1] == Token("(")
    ensures Derives(Args, t.kids[2]) && t.kids[2] < t && t.kids[3] == Token(")")
  {
  }

  lemma {:induction false} CallAgrees(n: Numerals, t: Tree)
    requires Derives(Symbol.Call, t)
    ensures Agrees(AsCall(n, t.kids[0].text, ToArgsOf(n, t.kids[2])), t, Faithful(n, t))
    decreases t
  {
    hide Agrees, Faithful, Survives, KidAgrees, Derives, ToArgsOf;
    CallKids(t);
    PlainKids(n, t);
    ArgsOfAgree(n, t.kids[2]);
    Node4(n, t, t.kids[0], Token("("), AsArgsOf(n, ToArgsOf(n, t.kids[2])), Token(")"));
  }

  lemma {:induction false} ArgsOfAgree(n: Numerals, t: Tree)
    requires Derives(Args, t)
    ensures Agrees(AsArgsOf(n, ToArgsOf(n, t)), t, Faithful(n, t))
    decreases t
  {
    hide Agrees, Faithful, Survives, KidAgrees;
    PlainKids(n, t);
    if t.kids[0] != Node(Epsilon, []) {
      ArgsAgree(n, t.kids[0]);
      Node1(n, t, AsArgs(n, ToArgs(n, t.kids[0])));
    } else {
      EmptyAgrees(n, t);
    }
  }

  lemma {:induction false} ArgsAgree(n: Numerals, t: Tree)
    requires Derives(ArgList, t)
    ensures ToArgs(n, t) != [] && Agrees(AsArgs(n, ToArgs(n, t)), t, Faithful(n, t))
    decreases t
  {
    hide Agrees, Faithful, Survives, KidAgrees;
    PlainKids(n, t);
    if |t.kids| == 3 {
      ArgsAgree(n, t.kids[0]);
      ExprAgrees(n, t.kids[2]);
      var first, last := ToArgs(n, t.kids[0]), ToExpr(n, t.kids[2]);
      assert (first + [last])[..|first|] == first;
      Node3(n, t, AsArgs(n, first), Token(","), AsExpr(n, last));
    } else {
      ExprAgrees(n, t.kids[0]);
      Node1(n, t, AsExpr(n, ToExpr(n, t.kids[0])));
    }
  }

  // ----- declarations -----

  /** A type is rebuilt as it was read unless it is void: void variables turn into floats. */
  lemma TypeAgrees(n: Numerals, t: Tree)
    requires Derives(TypeSpecifier, t)
    ensures Agrees(AsType(SaysInt(t)), t, t.kids != [Token("void")])
    ensures Agrees(AsReturnType(ToReturnType(t)), t, Faithful(n, t))
  {
    var x := t.kids[0].text;
    assert t.kids == [Token(x)] && t == Node(TypeSpecifier, [Token(x)]);
    assert "int"[0] != "void"[0] && "float"[0] != "void"[0];
    assert Faithful(n, t);
  }

  /** The type of a variable or parameter. */
  lemma DeclTypeAgrees(n: Numerals, t: Tree)
    requires Derives(VarDeclaration, t) || Derives(Param, t)
    ensures KidAgrees(n, t, 0, AsType(SaysInt(t.kids[0])))
  {
    hide Agrees, AsType;
    TypeAgrees(n, t.kids[0]);
  }

  lemma VarDeclAgrees(n: Numerals, t: Tree, id: Id)
    requires Derives(VarDeclaration, t)
    ensures Agrees(AsDecl(n, ToVarDecl(n, t, id).t), t, Faithful(n, t))
  {
    hide Agrees, Faithful, KidAgrees, AsType;
    var ty := AsType(SaysInt(t.kids[0]));
    DeclTypeAgrees(n, t);
    TokenSurvives(n, t, 1);
    TokenSurvives(n, t, 2);
    if |t.kids| == 3 {
      Node3(n, t, ty, t.kids[1], Token(";"));
    } else {
      SizeAgrees(n, t);
      TokenSurvives(n, t, 4);
      TokenSurvives(n, t, 5);
      Node6(n, t, ty, t.kids[1], Token("["), Token(n.ofInt(n.toInt(t.kids[3].text))), Token("]"), Token(";"));
    }
  }

  lemma SizeAgrees(n: Numerals, t: Tree)
    requires Derives(VarDeclaration, t) && |t.kids| == 6
    ensures KidAgrees(n, t, 3, Token(n.ofInt(n.toInt(t.kids[3].text))))
  {
  }

  lemma {:induction false} DeclsAgree(n: Numerals, t: Tree, id: Id)
    requires Derives(LocalDeclarations, t)
    ensures Agrees(AsDecls(n, ToDecls(n, t, id).t), t, Faithful(n, t))
    decreases t
  {
    hide Agrees, Faithful, Survives, KidAgrees;
    PlainKids(n, t);
    if |t.kids| == 2 {
      var first := ToDecls(n, t.kids[0], id);
      var last := ToVarDecl(n, t.kids[1], first.next);
      DeclsAgree(n, t.kids[0], id);
      VarDeclAgrees(n, t.kids[1], first.next);
      assert (first.t + [last.t])[..|first.t|] == first.t;
      Node2(n, t, AsDecls(n, first.t), AsDecl(n, last.t));
    } else {
      EmptyAgrees(n, t);
    }
  }

  lemma ParamAgrees(n: Numerals, t: Tree, id: Id)
    requires Derives(Param, t)
    ensures Agrees(AsParam(ToParam(t, id).t), t, Faithful(n, t))
  {
    hide Agrees, Faithful, KidAgrees, AsType;
    var ty := AsType(SaysInt(t.kids[0]));
    DeclTypeAgrees(n, t);
    TokenSurvives(n, t, 1);
    if |t.kids| == 2 {
      Node2(n, t, ty, t.kids[1]);
    } else {
      TokenSurvives(n, t, 2);
      TokenSurvives(n, t, 3);
      Node4(n, t, ty, t.kids[1], Token("["), Token("]"));
    }
  }

  lemma {:induction false} ParamsAgree(n: Numerals, t: Tree, id: Id)
    requires Derives(ParamList, t)
    ensures ToParams(t, id).t != [] && Agrees(AsParams(ToParams(t, id).t), t, Faithful(n, t))
    decreases t
  {
    hide Agrees, Faithful, Survives, KidAgrees;
    PlainKids(n, t);
    if |t.kids| == 3 {
      var first := ToParams(t.kids[0], id);
      var last := ToParam(t.kids[2], first.next);
      ParamsAgree(n, t.kids[0], id);
      ParamAgrees(n, t.kids[2], first.next);
      assert (first.t + [last.t])[..|first.t|] == first.t;
      Node3(n, t, AsParams(first.t), Token(","), AsParam(last.t));
    } else {
      ParamAgrees(n, t.kids[0], id);
      Node1(n, t, AsParam(ToParam(t.kids[0], id).t));
    }
  }

  lemma ParamsOfAgree(n: Numerals, t: Tree, id: Id)
    requires Derives(Params, t)
    ensures Agrees(AsParamsOf(ToParamsOf(t, id).t), t, Faithful(n, t))
  {
    hide Agrees, Faithful, Survives, KidAgrees;
    PlainKids(n, t);
    if t.kids[0].Node? {
      ParamsAgree(n, t.kids[0], id);
      Node1(n, t, AsParams(ToParams(t.kids[0], id).t));
    } else {
      Node1(n, t, Token("void"));
    }
  }

  // ----- statements -----

  lemma {:induction false} CompoundAgrees(n: Numerals, t: Tree, id: Id)
    requires Derives(CompoundStmt, t)
    ensures Agrees(AsBare(n, ToCompound(n, t, id).t), t, Faithful(n, t))
    decreases t
  {
    hide Agrees, Faithful, Survives, KidAgrees;
    PlainKids(n, t);
    var ds := ToDecls(n, t.kids[1], id);
    DeclsAgree(n, t.kids[1], id);
    StmtsAgree(n, t.kids[2], ds.next);
    Node4(n, t, Token("{"), AsDecls(n, ds.t), AsStmts(n, ToStmts(n, t.kids[2], ds.next).t), Token("}"));
  }

  lemma {:induction false} StmtsAgree(n: Numerals, t: Tree, id: Id)
    requires Derives(StatementList, t)
    ensures Agrees(AsStmts(n, ToStmts(n, t, id).t), t, Faithful(n, t))
    decreases t
  {
    hide Agrees, Faithful, Survives, KidAgrees, AsStmt;
    PlainKids(n, t);
    if |t.kids| == 2 {
      var first := ToStmts(n, t.kids[0], id);
      var last := ToStmt(n, t.kids[1], first.next);
      StmtsAgree(n, t.kids[0], id);
      StmtAgrees(n, t.kids[1], first.next);
      assert (first.t + [last.t])[..|first.t|] == first.t;
      Node2(n, t, AsStmts(n, first.t), AsStmt(n, last.t));
    } else {
      EmptyAgrees(n, t);
    }
  }

  lemma {:induction false} StmtAgrees(n: Numerals, t: Tree, id: Id)
    requires Derives(Statement, t)
    ensures Agrees(AsStmt(n, ToStmt(n, t, id).t), t, Faithful(n, t))
    decreases t
  {
    hide Agrees, Faithful, Survives, KidAgrees, AsBare;
    PlainKids(n, t);
    var k := t.kids[0];
    if k.sym == ExpressionStmt {
      ExpressionStmtAgrees(n, k);
    } else if k.sym == CompoundStmt {
      CompoundAgrees(n, k, id);
    } else if k.sym == SelectionStmt {
      SelectionAgrees(n, k, id);
    } else if k.sym == IterationStmt {
      IterationAgrees(n, k, id);
    } else {
      ReturnAgrees(n, k);
    }
    Node1(n, t, AsBare(n, ToStmt(n, t, id).t));
  }

  lemma ExpressionStmtAgrees(n: Numerals, t: Tree)
    requires Derives(ExpressionStmt, t)
    ensures Agrees(AsBare(n, ToExpressionStmt(n, t)), t, Faithful(n, t))
  {
    hide Agrees, Faithful, Survives, KidAgrees;
    PlainKids(n, t);
    if |t.kids| == 2 {
      ExprAgrees(n, t.kids[0]);
      Node2(n, t, AsExpr(n, ToExpr(n, t.kids[0])), Token(";"));
    } else {
      Node1(n, t, Token(";"));
    }
  }

  lemma SelectionKids(t: Tree)
    requires Derives(SelectionStmt, t)
    ensures t.Node? && t.sym == SelectionStmt && (|t.kids| == 5 || |t.kids| == 7) && var k := t.kids;
      && k[0] == Token("if") && k[1] == Token("(") && Derives(Expression, k[2]) && k[3] == Token(")")
      && Derives(Statement, k[4]) && k[4] < t
      && (|k| == 7 ==> k[5] == Token("else") && Derives(Statement, k[6]) && k[6] < t)
  {
  }

  lemma {:induction false} SelectionAgrees(n: Numerals, t: Tree, id: Id)
    requires Derives(SelectionStmt, t)
    ensures Agrees(AsBare(n, ToSelection(n, t, id).t), t, Faithful(n, t))
    decreases t
  {
    hide Agrees, Faithful, Survives, KidAgrees, Derives, AsExpr, ToExpr, ToStmt, AsStmt;
    SelectionKids(t);
    PlainKids(n, t);
    var ifTrue := ToStmt(n, t.kids[4], id);
    ExprAgrees(n, t.kids[2]);
    StmtAgrees(n, t.kids[4], id);
    var c := AsExpr(n, ToExpr(n, t.kids[2]));
    if |t.kids| == 7 {
      var ifFalse := ToStmt(n, t.kids[6], ifTrue.next);
      StmtAgrees(n, t.kids[6], ifTrue.next);
      Node7(n, t, Token("if"), Token("("), c, Token(")"), AsStmt(n, ifTrue.t), Token("else"), AsStmt(n, ifFalse.t));
    } else {
      Node5(n, t, Token("if"), Token("("), c, Token(")"), AsStmt(n, ifTrue.t));
    }
  }

  lemma IterationKids(t: Tree)
    requires Derives(IterationStmt, t)
    ensures t.Node? && t.sym == IterationStmt && var k := t.kids;
      |k| == 5 && k[0] == Token("while") && k[1] == Token("(") && Derives(Expression, k[2]) && k[3] == Token(")")
        && Derives(Statement, k[4])
  {
  }

  lemma {:induction false} IterationAgrees(n: Numerals, t: Tree, id: Id)
    requires Derives(IterationStmt, t)
    ensures Agrees(AsBare(n, ToIteration(n, t, id).t), t, Faithful(n, t))
    decreases t
  {
    hide Agrees, Faithful, Survives, KidAgrees, Derives, AsExpr, ToExpr, ToStmt, AsStmt;
    IterationKids(t);
    PlainKids(n, t);
    ExprAgrees(n, t.kids[2]);
    StmtAgrees(n, t.kids[4], id);
    Node5(n, t, Token("while"), Token("("), AsExpr(n, ToExpr(n, t.kids[2])), Token(")"),
          AsStmt(n, ToStmt(n, t.kids[4], id).t));
  }

  lemma ReturnKids(t: Tree)
    requires Derives(ReturnStmt, t)
    ensures t.Node? && t.sym == ReturnStmt && t.kids != [] && t.kids[0] == Token("return")
    ensures |t.kids| == 2 ==> t.kids[1] == Token(";")
    ensures |t.kids| != 2 ==> |t.kids| == 3 && Derives(Expression, t.kids[1]) && t.kids[2] == Token(";")
  {
  }

  lemma ReturnAgrees(n: Numerals, t: Tree)
    requires Derives(ReturnStmt, t)
    ensures Agrees(AsBare(n, ToReturn(n, t)), t, Faithful(n, t))
  {
    hide Agrees, Faithful, Survives, KidAgrees, Derives, AsExpr, ToExpr;
    ReturnKids(t);
    PlainKids(n, t);
    if |t.kids| == 2 {
      Node2(n, t, Token("return"), Token(";"));
    } else {
      ExprAgrees(n, t.kids[1]);
      Node3(n, t, Token("return"), AsExpr(n, ToExpr(n, t.kids[1])), Token(";"));
    }
  }

  // ----- programs -----

  lemma DeclarationAgrees(n: Numerals, t: Tree, id: Id)
    requires Derives(Declaration, t)
    ensures Agrees(AsDeclaration(n, ToDeclaration(n, t, id).t), t, Faithful(n, t))
  {
    hide Agrees, Faithful, Survives, KidAgrees, AsFun, AsDecl, ToFun, ToVarDecl;
    PlainKids(n, t);
    var k := t.kids[0];
    if k.sym == VarDeclaration {
      VarDeclAgrees(n, k, id);
      Node1(n, t, AsDecl(n, ToVarDecl(n, k, id).t));
    } else {
      FunAgrees(n, k, id);
      Node1(n, t, AsFun(n, ToFun(n, k, id).t));
    }
  }

  lemma FunKids(t: Tree)
    requires Derives(FunDeclaration, t)
    ensures t.Node? && t.sym == FunDeclaration && var k := t.kids;
      && |k| == 6 && Derives(TypeSpecifier, k[0]) && k[1].Token? && k[2] == Token("(") && Derives(Params, k[3])
      && k[4] == Token(")") && Derives(CompoundStmt, k[5])
  {
  }

  lemma FunAgrees(n: Numerals, t: Tree, id: Id)
    requires Derives(FunDeclaration, t)
    ensures Agrees(AsFun(n, ToFun(n, t, id).t), t, Faithful(n, t))
  {
    hide Agrees, Faithful, Survives, KidAgrees, Derives, AsBare, AsParamsOf, AsReturnType, AsType, ToReturnType,
      ToParamsOf, ToCompound;
    FunKids(t);
    PlainKids(n, t);
    var params := ToParamsOf(t.kids[3], id);
    TypeAgrees(n, t.kids[0]);
    ParamsOfAgree(n, t.kids[3], id);
    CompoundAgrees(n, t.kids[5], params.next);
    Node6(n, t, AsReturnType(ToReturnType(t.kids[0])), t.kids[1], Token("("), AsParamsOf(params.t), Token(")"),
          AsBare(n, ToCompound(n, t.kids[5], params.next).t));
  }

  lemma {:induction false} DeclarationsAgree(n: Numerals, t: Tree, id: Id)
    requires Derives(DeclarationList, t)
    ensures ToDeclarations(n, t, id).t != [] && Agrees(AsDeclarations(n, ToDeclarations(n, t, id).t), t, Faithful(n, t))
    decreases t
  {
    hide Agrees, Faithful, Survives, KidAgrees, AsDeclaration, ToDeclaration;
    PlainKids(n, t);
    if |t.kids| == 2 {
      var first := ToDeclarations(n, t.kids[0], id);
      var last := ToDeclaration(n, t.kids[1], first.next);
      DeclarationsAgree(n, t.kids[0], id);
      DeclarationAgrees(n, t.kids[1], first.next);
      assert (first.t + [last.t])[..|first.t|] == first.t;
      Node2(n, t, AsDeclarations(n, first.t), AsDeclaration(n, last.t));
    } else {
      DeclarationAgrees(n, t.kids[0], id);
      Node1(n, t, AsDeclaration(n, ToDeclaration(n, t.kids[0], id).t));
    }
  }

  /** The parse tree of a program can be rebuilt from the syntax tree made from it, if and only if no variable or
      parameter is declared void and every numeral is written as it was read.  In any case what is rebuilt differs at
      most in the texts of tokens: every construct is made of the parts it was read from. */
  lemma RebuiltAsRead(n: Numerals, t: Tree, id: Id)
    requires Derives(Program, t)
    ensures var ds := ToProgram(n, t, id).t;
      ds != [] && Alike(AsProgram(n, ds), t) && (AsProgram(n, ds) == t <==> Faithful(n, t))
  {
    hide Faithful, KidAgrees, AsDeclarations, ToDeclarations;
    PlainKids(n, t);
    DeclarationsAgree(n, t.kids[0], id);
    Node1(n, t, AsDeclarations(n, ToDeclarations(n, t.kids[0], id).t));
  }

  /** So writing out what was built gives back as many tokens, and the tokens themselves exactly under that
      condition. */
  lemma WrittenAsRead(n: Numerals, t: Tree, id: Id)
    requires Derives(Program, t)
    ensures var ds := ToProgram(n, t, id).t;
      ds != [] && |Yield(AsProgram(n, ds))| == |Yield(t)| && (Yield(AsProgram(n, ds)) == Yield(t) <==> Faithful(n, t))
  {
    hide Faithful, AsProgram, Alike;
    RebuiltAsRead(n, t, id);
    AlikeYields(AsProgram(n, ToProgram(n, t, id).t), t);
  }
}
