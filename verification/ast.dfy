/** The JavaScript syntax trees (Esprima nodes) that the logic printer walks.
    Each handled node kind has its own variant; every other node kind, operator
    or literal kind is represented by an `Other...` variant carrying its name, so
    that the printer's refusal of it can be stated. */
module Ast {
  import opened Faults

  datatype BinaryOp = LogicalOr | LogicalAnd | Plus | Minus | OtherBinary(name: string)

  datatype UnaryOp = LogicalNot | OtherUnary(name: string)

  /** Literal token kinds; a numeric literal keeps its JavaScript spelling. */
  datatype Lit = BooleanLit(b: bool) | NullLit | NumericLit(text: string) | OtherLit(kind: string)

  datatype Expr =
    | Identifier(name: string)
    | Literal(lit: Lit)
    | Binary(bop: BinaryOp, left: Expr, right: Expr)
    | Unary(uop: UnaryOp, argument: Expr)
    | Call(callee: Expr, arguments: seq<Expr>)
    | Member(target: Expr, property: string)
      /** An arrow function; `Concise` is the single-expression form. */
    | Arrow(params: seq<string>, body: ArrowBody)
      /** A function expression; `id` is absent for an anonymous function. */
    | Function(id: Option<string>, params: seq<string>, statements: seq<Stmt>)
    | OtherExpr(kind: string)

  datatype ArrowBody = Concise(expression: Expr) | Braced(block: seq<Stmt>)

  datatype Stmt =
    | Block(body: seq<Stmt>)
      /** A class declaration; `methods` are the values of its method definitions. */
    | ClassDecl(classId: Option<string>, superClass: Option<Expr>, methods: seq<Expr>)
    | ExprStmt(expression: Expr)
    | Return(result: Option<Expr>)
    | OtherStmt(kind: string)

  /** A size measure used for termination of the mutually recursive walks. */
  function ExprSize(e: Expr): (n: nat)
    ensures n >= 1
  {
    match e
    case Identifier(_) => 1
    case Literal(_) => 1
    case Binary(_, l, r) => 1 + ExprSize(l) + ExprSize(r)
    case Unary(_, a) => 1 + ExprSize(a)
    case Call(c, args) => 1 + ExprSize(c) + ExprsSize(args)
    case Member(o, _) => 1 + ExprSize(o)
    case Arrow(_, Concise(b)) => 1 + ExprSize(b)
    case Arrow(_, Braced(ss)) => 1 + StmtsSize(ss)
    case Function(_, _, ss) => 1 + StmtsSize(ss)
    case OtherExpr(_) => 1
  }

  function ExprsSize(es: seq<Expr>): nat {
    if es == [] then 0 else ExprSize(es[0]) + ExprsSize(es[1..])
  }

  function StmtSize(s: Stmt): (n: nat)
    ensures n >= 1
  {
    match s
    case Block(ss) => 1 + StmtsSize(ss)
    case ClassDecl(_, sup, ms) => 1 + (if sup.Some? then ExprSize(sup.value) else 0) + ExprsSize(ms)
    case ExprStmt(e) => 1 + ExprSize(e)
    case Return(r) => 1 + (if r.Some? then ExprSize(r.value) else 0)
    case OtherStmt(_) => 1
  }

  function StmtsSize(ss: seq<Stmt>): nat {
    if ss == [] then 0 else StmtSize(ss[0]) + StmtsSize(ss[1..])
  }

  lemma ExprsSizeElement(es: seq<Expr>, i: nat)
    requires i < |es|
    ensures ExprSize(es[i]) <= ExprsSize(es)
  {
    if i > 0 { ExprsSizeElement(es[1..], i - 1); }
  }
}
