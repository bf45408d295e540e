/** The logic-expression printer of TextWriterExtentions.cs: a walk over the
    JavaScript syntax tree of a logic expression that writes the equivalent
    Python. The walk is a pure function of the node, the printing context and
    the root's record of unresolved macro calls; it returns the written document
    together with the updated record, or the fault the walk throws. */
module Printer {
  import opened Faults
  import opened Strings
  import opened Ast
  import Macros
  import Casing

  // ---------------------------------------------------------------------------
  // Output documents.

  /** One step of output: a character (a line end is `'\n'`, written by
      `WriteLine`), or a change of the writer's indentation level. */
  datatype Piece = Ch(c: char) | Indent | Dedent

  type Doc = seq<Piece>

  function Str(s: string): (d: Doc)
    ensures |d| == |s|
    ensures forall i :: 0 <= i < |s| ==> d[i] == Ch(s[i])
  {
    seq(|s|, i requires 0 <= i < |s| => Ch(s[i]))
  }

  lemma StrAppend(a: string, b: string)
    ensures Str(a + b) == Str(a) + Str(b)
  {
  }

  /** `"(" d ")"` when `paren` holds, `d` otherwise. */
  function Wrap(paren: bool, d: Doc): Doc {
    if paren then Str("(") + d + Str(")") else d
  }

  // ---------------------------------------------------------------------------
  // The printing context.

  /** The `Context` record: token map, game label, receiver name, the arity
      tables of the macro chain, the names bound by enclosing lambdas and
      functions, and the precedence of the enclosing operator. */
  datatype Context = Context(
    tokenMap: map<string, string>,
    game: string,
    self: string,
    chain: Macros.Chain,
    locals: set<string>,
    precedence: int)

  /** `Nested`: the same context with more names bound. */
  function Nested(ctx: Context, names: seq<string>): (r: Context)
    ensures forall n :: n in r.locals <==> n in ctx.locals || n in names
    ensures r.(locals := ctx.locals) == ctx
  {
    ctx.(locals := ctx.locals + set n | n in names)
  }

  /** Binding names in two steps binds them all, and binding none changes
      nothing. */
  lemma NestedAppend(ctx: Context, a: seq<string>, b: seq<string>)
    ensures Nested(Nested(ctx, a), b) == Nested(ctx, a + b)
    ensures Nested(ctx, []) == ctx
  {
    assert Nested(Nested(ctx, a), b).locals == Nested(ctx, a + b).locals;
    assert Nested(ctx, []).locals == ctx.locals;
  }

  function At(ctx: Context, p: int): Context {
    ctx.(precedence := p)
  }

  /** The context a top-level expression starts in: nothing bound, precedence 0. */
  function Initial(tokenMap: map<string, string>, game: string, self: string, chain: Macros.Chain): (ctx: Context)
    ensures ctx.locals == {} && ctx.precedence == 0
    ensures ctx.tokenMap == tokenMap && ctx.game == game && ctx.self == self && ctx.chain == chain
  {
    Context(tokenMap, game, self, chain, {}, 0)
  }

  /** Python keywords and builtins that a JavaScript name must not shadow get
      a trailing `_`. */
  function FixIdentifier(name: string): (r: string)
    ensures r != "id" && r != "range" && r != "type"
    ensures name != "id" && name != "range" && name != "type" ==> r == name
    ensures name == "id" || name == "range" || name == "type" ==> r == name + "_"
  {
    if name == "id" then "id_"
    else if name == "range" then "range_"
    else if name == "type" then "type_"
    else name
  }

  function FixAll(names: seq<string>): (r: seq<string>)
    ensures |r| == |names|
    ensures forall i :: 0 <= i < |names| ==> r[i] == FixIdentifier(names[i])
  {
    seq(|names|, i requires 0 <= i < |names| => FixIdentifier(names[i]))
  }

  function Quote(s: string): string {
    "\"" + s + "\""
  }

  /** The token-map replacement of a quoted name. */
  function Replace(tokenMap: map<string, string>, name: string): string {
    if name in tokenMap then tokenMap[name] else name
  }

  /** The event name written for `event(X)` and its kin: `X` itself when it
      already names a game, `{GAME}_X` otherwise. */
  function EventName(game: string, name: string): (r: string)
    ensures StartsWith(name, "OOT_") || StartsWith(name, "MM_") ==> r == name
    ensures !(StartsWith(name, "OOT_") || StartsWith(name, "MM_")) ==> r == Upper(game) + "_" + name
  {
    if StartsWith(name, "OOT_") || StartsWith(name, "MM_") then name
    else Upper(game) + "_" + name
  }

  // ---------------------------------------------------------------------------
  // Operators.

  /** Python spelling and precedence of a binary operator. */
  function BinaryToken(op: BinaryOp): (r: Result<(string, int)>)
    ensures r.Err? <==> op.OtherBinary?
    ensures r.Err? ==> r.fault.NotImplemented?
    ensures r.Ok? ==> r.value.1 >= 3
  {
    match op
    case LogicalOr => Ok(("or", 3))
    case LogicalAnd => Ok(("and", 4))
    case Plus => Ok(("+", 11))
    case Minus => Ok(("-", 11))
    case OtherBinary(name) => Err(NotImplemented("binary operator " + name))
  }

  function UnaryToken(op: UnaryOp): (r: Result<(string, int)>)
    ensures r.Err? <==> op.OtherUnary?
    ensures r.Ok? ==> r.value == ("not ", 5)
  {
    match op
    case LogicalNot => Ok(("not ", 5))
    case OtherUnary(name) => Err(NotImplemented("unary operator " + name))
  }

  /** `flag_on(X)` or `flag_off(X)`: an identifier callee with exactly that
      name (case matters here) and one argument. */
  predicate IsFlagCall(e: Expr) {
    e.Call? && e.callee.Identifier? &&
    (e.callee.name == "flag_on" || e.callee.name == "flag_off") &&
    |e.arguments| == 1
  }

  /** The `&&` of one `flag_on` and one `flag_off` call, in either order. */
  predicate IsFlagPair(e: Expr) {
    e.Binary? && e.bop == LogicalAnd && IsFlagCall(e.left) && IsFlagCall(e.right) &&
    e.left.callee.name != e.right.callee.name
  }

  /** The callee names with a special form. */
  predicate IsEventLike(callee: string) {
    callee == "event" || callee == "can_ride_bean" || callee == "wisp_enabled"
  }

  predicate IsSpecial(callee: string) {
    callee == "cond" || IsEventLike(callee) || callee == "setting" || callee == "super"
  }

  // ---------------------------------------------------------------------------
  // The walk. Each function returns the written document and the root's record
  // afterwards; the record only ever grows.

  datatype Printed = Printed(doc: Doc, missing: set<string>)

  /** The printer's expression dispatch. */
  function PrintExpr(e: Expr, ctx: Context, missing: set<string>): (r: Result<Printed>)
    ensures r.Ok? ==> missing <= r.value.missing
    decreases ExprSize(e), 2
  {
    match e
    case Identifier(name) => PrintIdentifier(name, ctx, missing)
    case Literal(lit) =>
      var d :- PrintLiteral(lit);
      Ok(Printed(d, missing))
    case Binary(op, left, right) => PrintBinary(op, left, right, ctx, missing)
    case Unary(op, argument) =>
      var token :- UnaryToken(op);
      var a :- PrintExpr(argument, At(ctx, token.1), missing);
      Ok(Printed(Wrap(ctx.precedence > token.1, Str(token.0) + a.doc), a.missing))
    case Call(callee, args) => PrintCall(callee, args, ctx, missing)
    case Member(target, property) =>
      var o :- PrintExpr(target, ctx, missing);
      Ok(Printed(o.doc + Str("." + property), o.missing))
    case Arrow(params, body) =>
      if body.Braced? then Err(NotImplemented("block-bodied arrow function"))
      else
        var a :- PrintExpr(body.expression, Nested(ctx, params), missing);
        Ok(Printed(Str("lambda" + LambdaParams(params) + ": ") + a.doc, a.missing))
    case Function(id, params, statements) =>
      if id.None? then Err(NullReference)
      else
        var header :=
          (if params == [] then Str("@property\n") else []) +
          Str("def " + Lower(id.value) + "(" + ctx.self + DefParams(params) + "):\n");
        var body :- PrintBlock(statements, Nested(ctx, params), missing);
        Ok(Printed(header + [Indent] + body.doc + [Dedent], body.missing))
    case OtherExpr(kind) => Err(NotImplemented("expression " + kind))
  }

  /** A binary node: a fused `flag_on`/`flag_off` pair, or an operator with
      both operands at its own precedence. */
  function PrintBinary(op: BinaryOp, left: Expr, right: Expr, ctx: Context, missing: set<string>): (r: Result<Printed>)
    ensures r.Ok? ==> missing <= r.value.missing
    decreases ExprSize(Binary(op, left, right)), 1
  {
    if IsFlagPair(Binary(op, left, right)) then
      assert ExprSize(left.arguments[0]) < ExprSize(left) && ExprSize(right.arguments[0]) < ExprSize(right);
      var (on, off) := if left.callee.name == "flag_off"
                       then (right.arguments[0], left.arguments[0])
                       else (left.arguments[0], right.arguments[0]);
      var probe :- Macros.Probe(ctx.chain, missing, "flags_on_off", 2, true);
      var a :- PrintExpr(on, At(ctx, -1), probe.1);
      var b :- PrintExpr(off, At(ctx, -1), a.missing);
      Ok(Printed(Str(ctx.self + ".flags_on_off(") + a.doc + Str(", ") + b.doc + Str(")"), b.missing))
    else
      var token :- BinaryToken(op);
      var inner := At(ctx, token.1);
      var a :- PrintExpr(left, inner, missing);
      var b :- PrintExpr(right, inner, a.missing);
      Ok(Printed(Wrap(ctx.precedence > token.1, a.doc + Str(" " + token.0 + " ") + b.doc), b.missing))
  }

  /** A call: a special form for the identifier callees `cond`, `event` and its
      kin, `setting` and `super`; a macro on the receiver for any other
      identifier callee; otherwise the callee printed as an expression. */
  function PrintCall(callee: Expr, args: seq<Expr>, ctx: Context, missing: set<string>): (r: Result<Printed>)
    ensures r.Ok? ==> missing <= r.value.missing
    decreases ExprSize(Call(callee, args)), 1
  {
    if callee.Identifier? then
      var name := Lower(callee.name);
      if name == "cond" then
        if |args| != 3 then Err(NotImplemented("cond arity"))
        else PrintCond(args, ctx, missing)
      else if IsEventLike(name) then
        if |args| == 0 then Err(NotImplemented("event without arguments"))
        else if !args[0].Identifier? then Err(InvalidCast)
        else
          assert ExprsSize(args) == ExprSize(args[0]) + ExprsSize(args[1..]);
          var probe :- Macros.Probe(ctx.chain, missing, name, |args|, true);
          var rest :- PrintArgs(args[1..], ctx, probe.1, true);
          Ok(Printed(Str(ctx.self + "." + name + "(" + Quote(EventName(ctx.game, args[0].name)))
                     + rest.doc + Str(")"), rest.missing))
      else if name == "setting" then
        var probe :- Macros.Probe(ctx.chain, missing, "setting", |args|, true);
        var a :- PrintSettingArgs(args, ctx, probe.1, false);
        Ok(Printed(Str(ctx.self + ".setting(") + a.doc + Str(")"), a.missing))
      else if name == "super" then
        var a :- PrintArgs(args, ctx, missing, false);
        Ok(Printed(Str("super(") + a.doc + Str(")"), a.missing))
      else
        var probe :- Macros.Probe(ctx.chain, missing, name, |args|, true);
        if !probe.0 then Err(NotImplemented("unknown macro"))
        else
          var a :- PrintArgs(args, ctx, probe.1, false);
          Ok(Printed(Str(ctx.self + "." + name + "(") + a.doc + Str(")"), a.missing))
    else
      var c :- PrintExpr(callee, ctx, missing);
      var a :- PrintArgs(args, ctx, c.missing, false);
      Ok(Printed(c.doc + Str("(") + a.doc + Str(")"), a.missing))
  }

  /** `cond(c, t, f)` as Python's `t if c else f`, the operands at the
      precedence of the conditional; the record is passed on in the order the
      operands are written: `t`, then `c`, then `f`. */
  function PrintCond(args: seq<Expr>, ctx: Context, missing: set<string>): (r: Result<Printed>)
    requires |args| == 3
    ensures r.Ok? ==> missing <= r.value.missing
    decreases ExprsSize(args), 4
  {
    ExprsSizeElement(args, 0);
    ExprsSizeElement(args, 1);
    ExprsSizeElement(args, 2);
    var inner := At(ctx, 2);
    var t :- PrintExpr(args[1], inner, missing);
    var c :- PrintExpr(args[0], inner, t.missing);
    var f :- PrintExpr(args[2], inner, c.missing);
    Ok(Printed(Wrap(ctx.precedence > 2, t.doc + Str(" if ") + c.doc + Str(" else ") + f.doc), f.missing))
  }

  /** The parameter list of a lambda: ` a, b` (nothing when there are none). */
  function LambdaParams(params: seq<string>): string {
    if params == [] then "" else " " + Join(", ", FixAll(params))
  }

  /** The parameters after `self` in a `def`: `, a: Any, b: Any`. */
  function DefParams(params: seq<string>): string {
    if params == [] then "" else ", " + FixIdentifier(params[0]) + ": Any" + DefParams(params[1..])
  }

  function PrintLiteral(lit: Lit): (r: Result<Doc>)
    ensures r.Err? <==> lit.OtherLit?
  {
    match lit
    case BooleanLit(b) => Ok(Str(if b then "True" else "False"))
    case NullLit => Ok(Str("None"))
    case NumericLit(text) => Ok(Str(text))
    case OtherLit(kind) => Err(NotImplemented("literal " + kind))
  }

  /** An identifier: a bound name, a macro (called with no arguments) or,
      failing both, a quoted token. Only outside argument position is an
      unknown name taken to be a macro and recorded. */
  function PrintIdentifier(name: string, ctx: Context, missing: set<string>): (r: Result<Printed>)
    ensures r.Ok? ==> missing <= r.value.missing
  {
    var local := name in ctx.locals;
    var probe :- Macros.Probe(ctx.chain, missing, name, 0, !local && ctx.precedence >= 0);
    if probe.0 then Ok(Printed(Str(ctx.self + "." + FixIdentifier(name)), probe.1))
    else if local then Ok(Printed(Str(FixIdentifier(name)), probe.1))
    else Ok(Printed(Str(Quote(Replace(ctx.tokenMap, name))), probe.1))
  }

  /** Call arguments at precedence -1, separated by `, `; with `lead` a
      separator also comes before the first. */
  function PrintArgs(args: seq<Expr>, ctx: Context, missing: set<string>, lead: bool): (r: Result<Printed>)
    ensures r.Ok? ==> missing <= r.value.missing
    decreases ExprsSize(args), 3
  {
    if args == [] then Ok(Printed([], missing))
    else
      var a :- PrintExpr(args[0], At(ctx, -1), missing);
      var rest :- PrintArgs(args[1..], ctx, a.missing, true);
      Ok(Printed((if lead then Str(", ") else []) + a.doc + rest.doc, rest.missing))
  }

  /** The arguments of `setting(...)`: each must be an identifier; a bound one
      is printed as an identifier in the inherited context, any other as its
      snake-cased name in quotes. */
  function PrintSettingArgs(args: seq<Expr>, ctx: Context, missing: set<string>, lead: bool): (r: Result<Printed>)
    ensures r.Ok? ==> missing <= r.value.missing
    decreases ExprsSize(args), 3
  {
    if args == [] then Ok(Printed([], missing))
    else if !args[0].Identifier? then Err(InvalidCast)
    else
      var a :- if args[0].name in ctx.locals then PrintExpr(args[0], ctx, missing)
               else Ok(Printed(Str(Quote(Casing.SnakeCase(args[0].name))), missing));
      var rest :- PrintSettingArgs(args[1..], ctx, a.missing, true);
      Ok(Printed((if lead then Str(", ") else []) + a.doc + rest.doc, rest.missing))
  }

  /** The printer's statement dispatch. */
  function PrintStmt(s: Stmt, ctx: Context, missing: set<string>): (r: Result<Printed>)
    ensures r.Ok? ==> missing <= r.value.missing
    decreases StmtSize(s), 2
  {
    match s
    case Block(body) => PrintBlock(body, ctx, missing)
    case ClassDecl(classId, superClass, methods) =>
      if classId.None? then Err(NullReference)
      else
        var base := if superClass.Some? && superClass.value.Identifier? then superClass.value.name else "";
        var ms :- PrintMethods(methods, ctx, missing);
        Ok(Printed(Str("class " + classId.value + "(" + base + "):\n") + [Indent] + ms.doc, ms.missing))
    case ExprStmt(e) => PrintExpr(e, ctx, missing)
    case Return(result) =>
      if result.None? then Ok(Printed(Str("return"), missing))
      else
        var a :- PrintExpr(result.value, ctx, missing);
        Ok(Printed(Str("return ") + a.doc + Str("\n"), a.missing))
    case OtherStmt(kind) => Err(NotImplemented("statement " + kind))
  }

  /** A block statement: `pass` for an empty body, then every statement. */
  function PrintBlock(body: seq<Stmt>, ctx: Context, missing: set<string>): (r: Result<Printed>)
    ensures r.Ok? ==> missing <= r.value.missing
    decreases StmtsSize(body), 4
  {
    var s :- PrintStmts(body, ctx, missing);
    Ok(Printed((if body == [] then Str("pass\n") else []) + s.doc, s.missing))
  }

  function PrintStmts(body: seq<Stmt>, ctx: Context, missing: set<string>): (r: Result<Printed>)
    ensures r.Ok? ==> missing <= r.value.missing
    decreases StmtsSize(body), 3
  {
    if body == [] then Ok(Printed([], missing))
    else
      var a :- PrintStmt(body[0], ctx, missing);
      var rest :- PrintStmts(body[1..], ctx, a.missing);
      Ok(Printed(a.doc + rest.doc, rest.missing))
  }

  /** The methods of a class, each followed by an empty line. */
  function PrintMethods(methods: seq<Expr>, ctx: Context, missing: set<string>): (r: Result<Printed>)
    ensures r.Ok? ==> missing <= r.value.missing
    decreases ExprsSize(methods), 3
  {
    if methods == [] then Ok(Printed([], missing))
    else
      var a :- PrintExpr(methods[0], ctx, missing);
      var rest :- PrintMethods(methods[1..], ctx, a.missing);
      Ok(Printed(a.doc + Str("\n") + rest.doc, rest.missing))
  }

  /** `WriteExpressionAsync`: a top-level expression, receiver `self` by default. */
  function PrintTop(e: Expr, tokenMap: map<string, string>, game: string, self: string,
                    chain: Macros.Chain, missing: set<string>): (r: Result<Printed>)
    ensures r.Ok? ==> missing <= r.value.missing
  {
    PrintExpr(e, Initial(tokenMap, game, self, chain), missing)
  }
}
