/** Functions of the C-minus language: the tree that the builder visits. */
module Syntax {
  import opened ControlFlow
  import opened IR

  datatype RelOp = LessEq | Less | Greater | GreaterEq | Equal | NotEqual
  datatype ArithOp = Plus | Minus | Times | Divide

  /** A number is an integer or the encoding of a float. */
  datatype Expr =
    | Num(isInt: bool, num: Val)
    | Ref(v: VarRef)
    | Assign(dest: VarRef, rhs: Expr)
    | Relation(rel: RelOp, l: Expr, r: Expr)
    | Arith(op: ArithOp, l: Expr, r: Expr)
    | CallFun(id: string, args: seq<Expr>)
    | Paren(inner: Expr)

  datatype VarRef = VarRef(id: string, index: Option<Expr>)

  /** `site` is the identity of the declaration, which is also that of the slot made for it.  Only the
      declaration of an array as a variable gives a size. */
  datatype VarDecl = VarDecl(site: Id, id: string, isInt: bool, isArray: bool, size: int)

  datatype Stmt =
    | Compound(decls: seq<VarDecl>, stmts: seq<Stmt>)
    | ExprStmt(expr: Option<Expr>)
    | If(cond: Expr, ifTrue: Stmt, ifFalse: Option<Stmt>)
    | While(cond: Expr, body: Stmt)
    | Return(value: Option<Expr>)

  /** The types of values. */
  datatype Ty = Void | Int | Flt | IntPtr | FltPtr

  datatype FunDecl = FunDecl(ret: Ty, name: string, params: seq<VarDecl>, body: Stmt)

  datatype Decl = GlobalVar(v: VarDecl) | GlobalFun(f: FunDecl)

  /** What a variable holds: a value, or the elements of an array. */
  datatype Held = One(ty: Ty) | Many(elem: Ty)

  function Scalar(isInt: bool): Ty {
    if isInt then Int else Flt
  }

  function PtrTo(elem: Ty): Ty {
    if elem == Int then IntPtr else FltPtr
  }

  function PointedTo(ptr: Ty): Ty {
    if ptr == IntPtr then Int else Flt
  }

  function ParamTy(d: VarDecl): Ty {
    if d.isArray then PtrTo(Scalar(d.isInt)) else Scalar(d.isInt)
  }

  predicate IsPtr(t: Ty) {
    t == IntPtr || t == FltPtr
  }

  predicate IsNumber(t: Ty) {
    t == Int || t == Flt
  }

  function RelName(op: RelOp, isInt: bool): string {
    match op
    case LessEq => if isInt then "icmp_le" else "fcmp_le"
    case Less => if isInt then "icmp_lt" else "fcmp_lt"
    case Greater => if isInt then "icmp_gt" else "fcmp_gt"
    case GreaterEq => if isInt then "icmp_ge" else "fcmp_ge"
    case Equal => if isInt then "icmp_eq" else "fcmp_eq"
    case NotEqual => if isInt then "icmp_ne" else "fcmp_ne"
  }

  function ArithName(op: ArithOp, isInt: bool): string {
    match op
    case Plus => if isInt then "add" else "fadd"
    case Minus => if isInt then "sub" else "fsub"
    case Times => if isInt then "mul" else "fmul"
    case Divide => if isInt then "sdiv" else "fdiv"
  }

  const SITOFP := "sitofp"
  const FPTOSI := "fptosi"
  const ZEXT := "zext"
  const NEGATIVE_INDEX := "neg_idx_except"

  function Sites(ds: seq<VarDecl>): set<Id> {
    set k | 0 <= k < |ds| :: ds[k].site
  }

  predicate FreshDecls(ds: seq<VarDecl>, used: set<Id>) {
    && (forall k :: 0 <= k < |ds| ==> ds[k].site !in used)
    && (forall j, k :: 0 <= j < k < |ds| ==> ds[j].site != ds[k].site)
  }

  /** Each declaration has an identity of its own among those whose scopes enclose it. */
  predicate FreshSites(st: Stmt, used: set<Id>) {
    match st
    case Compound(ds, sts) => FreshDecls(ds, used) && forall k ::
      0 <= k < |sts| ==> FreshSites(sts[k], used + Sites(ds))
    case If(_, t, f) => FreshSites(t, used) && (f.Some? ==> FreshSites(f.value, used))
    case While(_, body) => FreshSites(body, used)
    case _ => true
  }

  /** The identities of the declarations in a statement. */
  function SitesOf(st: Stmt): set<Id>
    decreases st
  {
    match st
    case Compound(ds, sts) => Sites(ds) + SitesOfAll(sts)
    case If(_, t, f) => SitesOf(t) + if f.Some? then SitesOf(f.value) else {}
    case While(_, body) => SitesOf(body)
    case _ => {}
  }

  function SitesOfAll(sts: seq<Stmt>): set<Id>
    decreases sts
  {
    if sts == [] then {} else SitesOf(sts[0]) + SitesOfAll(sts[1..])
  }

  /** Every declaration in the statement has an identity of its own. */
  predicate AllFresh(st: Stmt, used: set<Id>)
    decreases st
  {
    match st
    case Compound(ds, sts) => FreshDecls(ds, used) && EachFresh(sts, used + Sites(ds))
    case If(_, t, f) => AllFresh(t, used) && (f.Some? ==> AllFresh(f.value, used + SitesOf(t)))
    case While(_, body) => AllFresh(body, used)
    case _ => true
  }

  predicate EachFresh(sts: seq<Stmt>, used: set<Id>)
    decreases sts
  {
    sts == [] || (AllFresh(sts[0], used) && EachFresh(sts[1..], used + SitesOf(sts[0])))
  }

  /** Distinct declarations are in particular distinct along every nesting of scopes. */
  lemma {:induction false} AllFreshNested(st: Stmt, used: set<Id>, used': set<Id>)
    requires AllFresh(st, used') && used <= used'
    ensures FreshSites(st, used)
    decreases st, 1
  {
    match st
    case Compound(ds, sts) => EachFreshNested(sts, used + Sites(ds), used' + Sites(ds));
    case If(_, t, f) =>
      AllFreshNested(t, used, used');
      if f.Some? {
        AllFreshNested(f.value, used, used' + SitesOf(t));
      }
    case While(_, body) => AllFreshNested(body, used, used');
    case _ =>
  }

  lemma {:induction false} EachFreshNested(sts: seq<Stmt>, used: set<Id>, used': set<Id>)
    requires EachFresh(sts, used') && used <= used'
    ensures forall k :: 0 <= k < |sts| ==> FreshSites(sts[k], used)
    decreases sts, 0
  {
    if sts != [] {
      AllFreshNested(sts[0], used, used');
      EachFreshNested(sts[1..], used, used' + SitesOf(sts[0]));
    }
  }
}
