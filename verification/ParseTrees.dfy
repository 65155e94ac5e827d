/** The parse trees of C-minus, and the grammar that they follow. */
module ParseTrees {

  datatype Symbol =
    | Program | DeclarationList | Declaration | VarDeclaration | TypeSpecifier | FunDeclaration
    | Params | ParamList | Param | CompoundStmt | LocalDeclarations | StatementList | Statement
    | ExpressionStmt | SelectionStmt | IterationStmt | ReturnStmt | Expression | Var
    | SimpleExpression | Relop | AdditiveExpression | Addop | Term | Mulop | Factor
    | Integer | Float | Call | Args | ArgList | Epsilon

  datatype Tree = Node(sym: Symbol, kids: seq<Tree>) | Token(text: string)

  /** The tokens of a tree, left to right. */
  function Yield(t: Tree): seq<string>
    decreases t, 0
  {
    match t
    case Token(x) => [x]
    case Node(_, kids) => YieldAll(kids)
  }

  function YieldAll(ts: seq<Tree>): seq<string>
    decreases ts, 0
  {
    if ts == [] then [] else Yield(ts[0]) + YieldAll(ts[1..])
  }

  predicate IsToken(t: Tree) {
    t.Token?
  }

  /** A list without members. */
  predicate Empty(t: Tree) {
    t.Node? && t.kids == [Node(Epsilon, [])]
  }

  /** The tree is derived from the symbol by a rule of the grammar. */
  predicate Derives(s: Symbol, t: Tree): (r: bool)
    ensures r ==> t.Node? && t.sym == s
    decreases t
  {
    && t.Node? && t.sym == s
    && var k := t.kids;
      match s
      case Program => |k| == 1 && Derives(DeclarationList, k[0])
      case DeclarationList =>
        || (|k| == 2 && Derives(DeclarationList, k[0]) && Derives(Declaration, k[1]))
        || (|k| == 1 && Derives(Declaration, k[0]))
      case Declaration => |k| == 1 && (Derives(VarDeclaration, k[0]) || Derives(FunDeclaration, k[0]))
      case VarDeclaration =>
        || (|k| == 3 && Derives(TypeSpecifier, k[0]) && IsToken(k[1]) && k[2] == Token(";"))
        || (|k| == 6 && Derives(TypeSpecifier, k[0]) && IsToken(k[1]) && k[2] == Token("[") && IsToken(k[3])
            && k[4] == Token("]") && k[5] == Token(";"))
      case TypeSpecifier => |k| == 1 && (k[0] == Token("int") || k[0] == Token("float") || k[0] == Token("void"))
      case FunDeclaration =>
        && |k| == 6 && Derives(TypeSpecifier, k[0]) && IsToken(k[1]) && k[2] == Token("(") && Derives(Params, k[3])
        && k[4] == Token(")") && Derives(CompoundStmt, k[5])
      case Params => |k| == 1 && (Derives(ParamList, k[0]) || k[0] == Token("void"))
      case ParamList =>
        || (|k| == 3 && Derives(ParamList, k[0]) && k[1] == Token(",") && Derives(Param, k[2]))
        || (|k| == 1 && Derives(Param, k[0]))
      case Param =>
        || (|k| == 2 && Derives(TypeSpecifier, k[0]) && IsToken(k[1]))
        || (|k| == 4 && Derives(TypeSpecifier, k[0]) && IsToken(k[1]) && k[2] == Token("[") && k[3] == Token("]"))
      case CompoundStmt => |k| == 4 && k[0] == Token("{") && Derives(LocalDeclarations, k[1])
        && Derives(StatementList, k[2]) && k[3] == Token("}")
      case LocalDeclarations => (|k| == 2 && Derives(LocalDeclarations, k[0]) && Derives(VarDeclaration, k[1]))
        || Empty(t)
      case StatementList => (|k| == 2 && Derives(StatementList, k[0]) && Derives(Statement, k[1])) || Empty(t)
      case Statement =>
        && |k| == 1
        && (Derives(ExpressionStmt, k[0]) || Derives(CompoundStmt, k[0]) || Derives(SelectionStmt, k[0])
            || Derives(IterationStmt, k[0]) || Derives(ReturnStmt, k[0]))
      case ExpressionStmt => (|k| == 2 && Derives(Expression, k[0]) && k[1] == Token(";"))
        || (|k| == 1 && k[0] == Token(";"))
      case SelectionStmt =>
        && (|k| == 5 || (|k| == 7 && k[5] == Token("else") && Derives(Statement, k[6])))
        && k[0] == Token("if") && k[1] == Token("(") && Derives(Expression, k[2]) && k[3] == Token(")")
        && Derives(Statement, k[4])
      case IterationStmt =>
        |k| == 5 && k[0] == Token("while") && k[1] == Token("(") && Derives(Expression, k[2]) && k[3] == Token(")")
          && Derives(Statement, k[4])
      case ReturnStmt =>
        || (|k| == 2 && k[0] == Token("return") && k[1] == Token(";"))
        || (|k| == 3 && k[0] == Token("return") && Derives(Expression, k[1]) && k[2] == Token(";"))
      case Expression =>
        || (|k| == 3 && Derives(Var, k[0]) && k[1] == Token("=") && Derives(Expression, k[2]))
        || (|k| == 1 && Derives(SimpleExpression, k[0]))
      case Var =>
        || (|k| == 1 && IsToken(k[0]))
        || (|k| == 4 && IsToken(k[0]) && k[1] == Token("[") && Derives(Expression, k[2]) && k[3] == Token("]"))
      case SimpleExpression =>
        || (|k| == 3 && Derives(AdditiveExpression, k[0]) && Derives(Relop, k[1]) && Derives(AdditiveExpression, k[2]))
        || (|k| == 1 && Derives(AdditiveExpression, k[0]))
      case Relop =>
        && |k| == 1
        && (k[0] == Token("<=") || k[0] == Token("<") || k[0] == Token(">") || k[0] == Token(">=")
            || k[0] == Token("==") || k[0] == Token("!="))
      case AdditiveExpression =>
        || (|k| == 3 && Derives(AdditiveExpression, k[0]) && Derives(Addop, k[1]) && Derives(Term, k[2]))
        || (|k| == 1 && Derives(Term, k[0]))
      case Addop => |k| == 1 && (k[0] == Token("+") || k[0] == Token("-"))
      case Term =>
        || (|k| == 3 && Derives(Term, k[0]) && Derives(Mulop, k[1]) && Derives(Factor, k[2]))
        || (|k| == 1 && Derives(Factor, k[0]))
      case Mulop => |k| == 1 && (k[0] == Token("*") || k[0] == Token("/"))
      case Factor =>
        || (|k| == 3 && k[0] == Token("(") && Derives(Expression, k[1]) && k[2] == Token(")"))
        || (|k| == 1 && (Derives(Var, k[0]) || Derives(Call, k[0]) || Derives(Integer, k[0]) || Derives(Float, k[0])))
      case Integer => |k| == 1 && IsToken(k[0])
      case Float => |k| == 1 && IsToken(k[0])
      case Call => |k| == 4 && IsToken(k[0]) && k[1] == Token("(") && Derives(Args, k[2]) && k[3] == Token(")")
      case Args => (|k| == 1 && Derives(ArgList, k[0])) || Empty(t)
      case ArgList =>
        || (|k| == 3 && Derives(ArgList, k[0]) && k[1] == Token(",") && Derives(Expression, k[2]))
        || (|k| == 1 && Derives(Expression, k[0]))
      case Epsilon => k == []
  }
}
