/** Properties of the logic-expression printer: exactly which trees it refuses,
    how the inherited precedence decides parentheses, and the output of each
    special form. */
module PrinterFacts {
  import opened Faults
  import opened Strings
  import opened Ast
  import opened Printer
  import Macros
  import Casing
  import Texts

  // ---------------------------------------------------------------------------
  // The handled subset.

  /** The trees the printer accepts, independently of the macro chain, the
      token map and the precedence: every node kind, operator and literal kind
      is one the printer handles, special forms have the argument shapes they
      need, and every name that is looked up in the registry is non-blank. */
  predicate PrintableExpr(e: Expr, locals: set<string>)
    decreases ExprSize(e), 2
  {
    match e
    case Identifier(name) => !IsBlank(name)
    case Literal(lit) => !lit.OtherLit?
    case Binary(op, left, right) =>
      if IsFlagPair(e) then
        assert ExprSize(left.arguments[0]) < ExprSize(left) && ExprSize(right.arguments[0]) < ExprSize(right);
        PrintableExpr(left.arguments[0], locals) && PrintableExpr(right.arguments[0], locals)
      else !op.OtherBinary? && PrintableExpr(left, locals) && PrintableExpr(right, locals)
    case Unary(op, argument) => op == LogicalNot && PrintableExpr(argument, locals)
    case Call(callee, args) =>
      if callee.Identifier? then
        var name := Lower(callee.name);
        if name == "cond" then |args| == 3 && AllPrintable(args, locals)
        else if IsEventLike(name) then |args| > 0 && args[0].Identifier? && AllPrintable(args[1..], locals)
        else if name == "setting" then SettingArgsPrintable(args, locals)
        else !IsBlank(callee.name) && AllPrintable(args, locals)
      else PrintableExpr(callee, locals) && AllPrintable(args, locals)
    case Member(target, _) => PrintableExpr(target, locals)
    case Arrow(params, body) =>
      body.Concise? && PrintableExpr(body.expression, locals + set n | n in params)
    case Function(id, params, statements) =>
      id.Some? && AllPrintableStmts(statements, locals + set n | n in params)
    case OtherExpr(_) => false
  }

  predicate AllPrintable(es: seq<Expr>, locals: set<string>)
    decreases ExprsSize(es), 3
  {
    es == [] || (PrintableExpr(es[0], locals) && AllPrintable(es[1..], locals))
  }

  /** Every argument of `setting` is an identifier, and a bound one (which is
      looked up) is non-blank. */
  predicate SettingArgsPrintable(args: seq<Expr>, locals: set<string>) {
    forall i :: 0 <= i < |args| ==>
      args[i].Identifier? && (args[i].name in locals ==> !IsBlank(args[i].name))
  }

  predicate PrintableStmt(s: Stmt, locals: set<string>)
    decreases StmtSize(s), 2
  {
    match s
    case Block(body) => AllPrintableStmts(body, locals)
    case ClassDecl(classId, _, methods) => classId.Some? && AllPrintable(methods, locals)
    case ExprStmt(e) => PrintableExpr(e, locals)
    case Return(result) => result.None? || PrintableExpr(result.value, locals)
    case OtherStmt(_) => false
  }

  predicate AllPrintableStmts(ss: seq<Stmt>, locals: set<string>)
    decreases StmtsSize(ss), 3
  {
    ss == [] || (PrintableStmt(ss[0], locals) && AllPrintableStmts(ss[1..], locals))
  }

  /** `AllPrintable` is the printability of every element. */
  lemma {:induction false} AllPrintableEach(es: seq<Expr>, locals: set<string>)
    ensures AllPrintable(es, locals) <==> forall i :: 0 <= i < |es| ==> PrintableExpr(es[i], locals)
    decreases |es|
  {
    if es != [] {
      AllPrintableEach(es[1..], locals);
      if forall i :: 0 <= i < |es| ==> PrintableExpr(es[i], locals) {
        forall i | 0 <= i < |es| - 1 ensures PrintableExpr(es[1..][i], locals) {
          assert es[1..][i] == es[i + 1];
        }
      }
      if AllPrintable(es, locals) {
        forall i | 0 <= i < |es| ensures PrintableExpr(es[i], locals) {
          if i > 0 { assert es[i] == es[1..][i - 1]; }
        }
      }
    }
  }

  lemma {:induction false} LowerKeepsBlank(s: string)
    ensures IsBlank(Lower(s)) <==> IsBlank(s)
  {
    if IsBlank(Lower(s)) {
      forall i | 0 <= i < |s| ensures IsWhiteSpace(s[i]) {
        assert IsWhiteSpace(Lower(s)[i]);
      }
    }
  }

  /** The printer fails exactly on trees outside the handled subset, whatever
      the context and the record: there is no fallback output for an unhandled
      node, operator or literal, and no failure for a handled one. */
  lemma {:induction false} PrintExprSucceeds(e: Expr, ctx: Context, missing: set<string>)
    ensures PrintExpr(e, ctx, missing).Ok? <==> PrintableExpr(e, ctx.locals)
    decreases ExprSize(e), 2
  {
    match e
    case Identifier(name) =>
    case Literal(lit) =>
    case Binary(op, left, right) => PrintBinarySucceeds(op, left, right, ctx, missing);
    case Unary(op, argument) =>
      if op == LogicalNot {
        PrintExprSucceeds(argument, At(ctx, 5), missing);
      }
    case Call(callee, args) => PrintCallSucceeds(callee, args, ctx, missing);
    case Member(target, _) =>
      PrintExprSucceeds(target, ctx, missing);
    case Arrow(params, body) =>
      if body.Concise? {
        PrintExprSucceeds(body.expression, Nested(ctx, params), missing);
      }
    case Function(id, params, statements) =>
      if id.Some? {
        PrintBlockSucceeds(statements, Nested(ctx, params), missing);
      }
    case OtherExpr(_) =>
  }

  lemma {:induction false} PrintBinarySucceeds(op: BinaryOp, left: Expr, right: Expr, ctx: Context, missing: set<string>)
    ensures PrintBinary(op, left, right, ctx, missing).Ok? <==> PrintableExpr(Binary(op, left, right), ctx.locals)
    decreases ExprSize(Binary(op, left, right)), 1
  {
    if IsFlagPair(Binary(op, left, right)) {
      ExprsSizeElement(left.arguments, 0);
      ExprsSizeElement(right.arguments, 0);
      var on := if left.callee.name == "flag_off" then right.arguments[0] else left.arguments[0];
      var off := if left.callee.name == "flag_off" then left.arguments[0] else right.arguments[0];
      assert ExprSize(on) < ExprSize(Binary(op, left, right)) && ExprSize(off) < ExprSize(Binary(op, left, right));
      var probe := Macros.Probe(ctx.chain, missing, "flags_on_off", 2, true);
      assert !IsBlank("flags_on_off") by { assert !IsWhiteSpace("flags_on_off"[0]); }
      PrintExprSucceeds(on, At(ctx, -1), probe.value.1);
      var a := PrintExpr(on, At(ctx, -1), probe.value.1);
      if a.Ok? {
        PrintExprSucceeds(off, At(ctx, -1), a.value.missing);
      }
    } else if !op.OtherBinary? {
      var inner := At(ctx, BinaryToken(op).value.1);
      PrintExprSucceeds(left, inner, missing);
      var a := PrintExpr(left, inner, missing);
      if a.Ok? {
        PrintExprSucceeds(right, inner, a.value.missing);
      }
    }
  }

  lemma {:induction false} PrintCallSucceeds(callee: Expr, args: seq<Expr>, ctx: Context, missing: set<string>)
    ensures PrintCall(callee, args, ctx, missing).Ok? <==> PrintableExpr(Call(callee, args), ctx.locals)
    decreases ExprSize(Call(callee, args)), 1
  {
    if callee.Identifier? {
      var name := Lower(callee.name);
      if name == "cond" {
        CondCallSucceeds(callee.name, args, ctx, missing);
      } else if IsEventLike(name) {
        EventCallSucceeds(callee.name, args, ctx, missing);
      } else if name == "setting" {
        SettingCallSucceeds(callee.name, args, ctx, missing);
      } else if name == "super" {
        SuperCallSucceeds(callee.name, args, ctx, missing);
      } else {
        MacroCallSucceeds(callee.name, args, ctx, missing);
      }
    } else {
      PrintExprSucceeds(callee, ctx, missing);
      var c := PrintExpr(callee, ctx, missing);
      if c.Ok? {
        PrintArgsSucceed(args, ctx, c.value.missing, false);
      }
    }
  }

  lemma {:induction false} CondCallSucceeds(callee: string, args: seq<Expr>, ctx: Context, missing: set<string>)
    requires Lower(callee) == "cond"
    ensures PrintCall(Identifier(callee), args, ctx, missing).Ok?
            <==> PrintableExpr(Call(Identifier(callee), args), ctx.locals)
    decreases ExprSize(Call(Identifier(callee), args)), 0
  {
    if |args| == 3 {
      assert PrintCall(Identifier(callee), args, ctx, missing) == PrintCond(args, ctx, missing);
      PrintCondSucceeds(args, ctx, missing);
    }
  }

  lemma {:induction false} PrintCondSucceeds(args: seq<Expr>, ctx: Context, missing: set<string>)
    requires |args| == 3
    ensures PrintCond(args, ctx, missing).Ok? <==> AllPrintable(args, ctx.locals)
    decreases ExprsSize(args), 4
  {
    ExprsSizeElement(args, 0);
    ExprsSizeElement(args, 1);
    ExprsSizeElement(args, 2);
    var inner := At(ctx, 2);
    AllPrintableEach(args, ctx.locals);
    PrintExprSucceeds(args[1], inner, missing);
    var t := PrintExpr(args[1], inner, missing);
    if t.Ok? {
      PrintExprSucceeds(args[0], inner, t.value.missing);
      var c := PrintExpr(args[0], inner, t.value.missing);
      if c.Ok? {
        PrintExprSucceeds(args[2], inner, c.value.missing);
      }
    }
  }

  lemma {:induction false} EventCallSucceeds(callee: string, args: seq<Expr>, ctx: Context, missing: set<string>)
    requires IsEventLike(Lower(callee))
    ensures PrintCall(Identifier(callee), args, ctx, missing).Ok?
            <==> PrintableExpr(Call(Identifier(callee), args), ctx.locals)
    decreases ExprSize(Call(Identifier(callee), args)), 0
  {
    var name := Lower(callee);
    if |args| > 0 && args[0].Identifier? {
      assert !IsBlank(name) by { assert !IsWhiteSpace(name[0]); }
      var probe := Macros.Probe(ctx.chain, missing, name, |args|, true);
      assert ExprsSize(args) == ExprSize(args[0]) + ExprsSize(args[1..]);
      PrintArgsSucceed(args[1..], ctx, probe.value.1, true);
    }
  }

  lemma {:induction false} SettingCallSucceeds(callee: string, args: seq<Expr>, ctx: Context, missing: set<string>)
    requires Lower(callee) == "setting"
    ensures PrintCall(Identifier(callee), args, ctx, missing).Ok?
            <==> PrintableExpr(Call(Identifier(callee), args), ctx.locals)
    decreases ExprSize(Call(Identifier(callee), args)), 0
  {
    var name := Lower(callee);
    assert !IsBlank(name) by { assert !IsWhiteSpace(name[0]); }
    var probe := Macros.Probe(ctx.chain, missing, "setting", |args|, true);
    PrintSettingArgsSucceed(args, ctx, probe.value.1, false);
  }

  lemma {:induction false} SuperCallSucceeds(callee: string, args: seq<Expr>, ctx: Context, missing: set<string>)
    requires Lower(callee) == "super"
    ensures PrintCall(Identifier(callee), args, ctx, missing).Ok?
            <==> PrintableExpr(Call(Identifier(callee), args), ctx.locals)
    decreases ExprSize(Call(Identifier(callee), args)), 0
  {
    var name := Lower(callee);
    assert !IsBlank(callee) by {
      assert !IsWhiteSpace(name[0]);
      assert name[0] == LowerChar(callee[0]);
    }
    PrintArgsSucceed(args, ctx, missing, false);
  }

  lemma {:induction false} MacroCallSucceeds(callee: string, args: seq<Expr>, ctx: Context, missing: set<string>)
    requires !IsSpecial(Lower(callee))
    ensures PrintCall(Identifier(callee), args, ctx, missing).Ok?
            <==> PrintableExpr(Call(Identifier(callee), args), ctx.locals)
    decreases ExprSize(Call(Identifier(callee), args)), 0
  {
    var name := Lower(callee);
    LowerKeepsBlank(callee);
    var probe := Macros.Probe(ctx.chain, missing, name, |args|, true);
    if probe.Ok? {
      PrintArgsSucceed(args, ctx, probe.value.1, false);
    }
  }

  lemma {:induction false} PrintArgsSucceed(args: seq<Expr>, ctx: Context, missing: set<string>, lead: bool)
    ensures PrintArgs(args, ctx, missing, lead).Ok? <==> AllPrintable(args, ctx.locals)
    decreases ExprsSize(args), 3
  {
    if args != [] {
      PrintExprSucceeds(args[0], At(ctx, -1), missing);
      var a := PrintExpr(args[0], At(ctx, -1), missing);
      if a.Ok? {
        PrintArgsSucceed(args[1..], ctx, a.value.missing, true);
      }
    }
  }

  lemma {:induction false} PrintSettingArgsSucceed(args: seq<Expr>, ctx: Context, missing: set<string>, lead: bool)
    ensures PrintSettingArgs(args, ctx, missing, lead).Ok? <==> SettingArgsPrintable(args, ctx.locals)
    decreases |args|
  {
    if args != [] && args[0].Identifier? {
      var a := if args[0].name in ctx.locals then PrintExpr(args[0], ctx, missing)
               else Ok(Printed(Str(Quote(Casing.SnakeCase(args[0].name))), missing));
      if a.Ok? {
        PrintSettingArgsSucceed(args[1..], ctx, a.value.missing, true);
        assert SettingArgsPrintable(args, ctx.locals) <==> SettingArgsPrintable(args[1..], ctx.locals) by {
          if SettingArgsPrintable(args[1..], ctx.locals) {
            forall i | 0 <= i < |args|
              ensures args[i].Identifier? && (args[i].name in ctx.locals ==> !IsBlank(args[i].name))
            {
              if i > 0 { assert args[i] == args[1..][i - 1]; }
            }
          }
          if SettingArgsPrintable(args, ctx.locals) {
            forall i | 0 <= i < |args| - 1
              ensures args[1..][i].Identifier? && (args[1..][i].name in ctx.locals ==> !IsBlank(args[1..][i].name))
            {
              assert args[1..][i] == args[i + 1];
            }
          }
        }
      } else {
        assert !SettingArgsPrintable(args, ctx.locals) by {
          assert args[0].name in ctx.locals && IsBlank(args[0].name);
        }
      }
    } else if args != [] {
      assert !SettingArgsPrintable(args, ctx.locals) by {
        assert !args[0].Identifier?;
      }
    }
  }

  /** The statement walk fails exactly on statements outside the handled subset. */
  lemma {:induction false} PrintStmtSucceeds(s: Stmt, ctx: Context, missing: set<string>)
    ensures PrintStmt(s, ctx, missing).Ok? <==> PrintableStmt(s, ctx.locals)
    decreases StmtSize(s), 2
  {
    match s
    case Block(body) => PrintBlockSucceeds(body, ctx, missing);
    case ClassDecl(classId, _, methods) =>
      if classId.Some? {
        PrintMethodsSucceed(methods, ctx, missing);
      }
    case ExprStmt(e) => PrintExprSucceeds(e, ctx, missing);
    case Return(result) =>
      if result.Some? {
        PrintExprSucceeds(result.value, ctx, missing);
      }
    case OtherStmt(_) =>
  }

  lemma {:induction false} PrintBlockSucceeds(body: seq<Stmt>, ctx: Context, missing: set<string>)
    ensures PrintBlock(body, ctx, missing).Ok? <==> AllPrintableStmts(body, ctx.locals)
    decreases StmtsSize(body), 4
  {
    PrintStmtsSucceed(body, ctx, missing);
  }

  lemma {:induction false} PrintStmtsSucceed(body: seq<Stmt>, ctx: Context, missing: set<string>)
    ensures PrintStmts(body, ctx, missing).Ok? <==> AllPrintableStmts(body, ctx.locals)
    decreases StmtsSize(body), 3
  {
    if body != [] {
      PrintStmtSucceeds(body[0], ctx, missing);
      var a := PrintStmt(body[0], ctx, missing);
      if a.Ok? {
        PrintStmtsSucceed(body[1..], ctx, a.value.missing);
      }
    }
  }

  lemma {:induction false} PrintMethodsSucceed(methods: seq<Expr>, ctx: Context, missing: set<string>)
    ensures PrintMethods(methods, ctx, missing).Ok? <==> AllPrintable(methods, ctx.locals)
    decreases ExprsSize(methods), 3
  {
    if methods != [] {
      PrintExprSucceeds(methods[0], ctx, missing);
      var a := PrintExpr(methods[0], ctx, missing);
      if a.Ok? {
        PrintMethodsSucceed(methods[1..], ctx, a.value.missing);
      }
    }
  }

  // ---------------------------------------------------------------------------
  // Precedence and parentheses.

  /** The precedence an operator node is written at: `or` 3, `and` 4, `not` 5,
      `+` and `-` 11, `cond` 2. Other nodes have none. */
  function OwnPrecedence(e: Expr): (r: Option<int>)
    ensures r.Some? ==> 2 <= r.value <= 11
  {
    match e
    case Binary(op, _, _) =>
      if IsFlagPair(e) || op.OtherBinary? then None else Some(BinaryToken(op).value.1)
    case Unary(op, _) => if op == LogicalNot then Some(5) else None
    case Call(callee, args) =>
      if callee.Identifier? && Lower(callee.name) == "cond" && |args| == 3 then Some(2) else None
    case _ => None
  }

  function WrapResult(paren: bool, r: Result<Printed>): Result<Printed> {
    if r.Ok? then Ok(Printed(Wrap(paren, r.value.doc), r.value.missing)) else r
  }

  /** The inherited precedence only decides the parentheses around an operator
      node: they are added exactly when it is greater than the node's own
      precedence, and what they enclose does not depend on it. In particular
      a top-level operator (precedence 0) and an operand of an operator of the
      same precedence are never parenthesised. */
  lemma ParenthesesFollowPrecedence(e: Expr, ctx: Context, q: int, missing: set<string>)
    requires OwnPrecedence(e).Some?
    ensures var p := OwnPrecedence(e).value;
            PrintExpr(e, At(ctx, q), missing) == WrapResult(q > p, PrintExpr(e, At(ctx, p), missing))
  {
    if e.Call? {
      assert PrintExpr(e, At(ctx, q), missing) == PrintCond(e.arguments, At(ctx, q), missing);
      assert PrintExpr(e, At(ctx, 2), missing) == PrintCond(e.arguments, At(ctx, 2), missing);
    }
  }

  /** One step of the expression dispatch, for the worked examples below. */
  lemma DispatchBinary(op: BinaryOp, left: Expr, right: Expr, ctx: Context, m: set<string>)
    ensures PrintExpr(Binary(op, left, right), ctx, m) == PrintBinary(op, left, right, ctx, m)
  {
  }

  lemma DispatchCall(callee: Expr, args: seq<Expr>, ctx: Context, m: set<string>)
    ensures PrintExpr(Call(callee, args), ctx, m) == PrintCall(callee, args, ctx, m)
  {
  }

  lemma ConciseArrow(params: seq<string>, body: Expr, ctx: Context, m: set<string>, p: Printed)
    requires PrintExpr(body, Nested(ctx, params), m) == Ok(p)
    ensures PrintExpr(Arrow(params, Concise(body)), ctx, m)
            == Ok(Printed(Str("lambda" + LambdaParams(params) + ": ") + p.doc, p.missing))
  {
  }

  const True := Literal(BooleanLit(true))
  const False := Literal(BooleanLit(false))

  function Number(text: string): Expr {
    Literal(NumericLit(text))
  }

  /** A context with no macros, no token map and receiver `self`. */
  function Plain(game: string): Context {
    Initial(map[], game, "self", [])
  }

  /** Three adjacent texts are the text of their concatenation. */
  lemma Str3(a: string, b: string, c: string, abc: string)
    requires a + b + c == abc
    ensures Str(a) + Str(b) + Str(c) == Str(abc)
  {
    StrAppend(a, b);
    StrAppend(a + b, c);
  }

  /** `"(" s ")"` when `paren` holds, `s` otherwise: `Wrap` on plain text. */
  function Paren(paren: bool, s: string): string {
    if paren then "(" + s + ")" else s
  }

  lemma WrapStr(paren: bool, s: string)
    ensures Wrap(paren, Str(s)) == Str(Paren(paren, s))
  {
    if paren {
      Str3("(", s, ")", "(" + s + ")");
    }
  }

  /** Literals print as their Python spelling and record nothing. */
  lemma LiteralText(ctx: Context, m: set<string>, text: string)
    ensures PrintExpr(True, ctx, m) == Ok(Printed(Str("True"), m))
    ensures PrintExpr(False, ctx, m) == Ok(Printed(Str("False"), m))
    ensures PrintExpr(Number(text), ctx, m) == Ok(Printed(Str(text), m))
  {
  }

  /** An operator node whose operands print as plain text at its precedence:
      the two texts around the operator, parenthesised exactly when the
      inherited precedence is higher; the left operand's record is passed on
      to the right operand. */
  lemma OperatorText(op: BinaryOp, left: Expr, right: Expr, ctx: Context,
                     m0: set<string>, m1: set<string>, m2: set<string>,
                     token: string, p: int, l: string, r: string)
    requires !IsFlagPair(Binary(op, left, right)) && BinaryToken(op) == Ok((token, p))
    requires PrintExpr(left, At(ctx, p), m0) == Ok(Printed(Str(l), m1))
    requires PrintExpr(right, At(ctx, p), m1) == Ok(Printed(Str(r), m2))
    ensures PrintExpr(Binary(op, left, right), ctx, m0)
            == Ok(Printed(Str(Paren(ctx.precedence > p, l + (" " + token + " ") + r)), m2))
  {
    DispatchBinary(op, left, right, ctx, m0);
    Str3(l, " " + token + " ", r, l + (" " + token + " ") + r);
    WrapStr(ctx.precedence > p, l + (" " + token + " ") + r);
  }

  /** `cond(c, t, f)`, in any letter case, with operands that print as plain
      text at precedence 2: `t if c else f`, parenthesised exactly when the
      inherited precedence is higher than 2. */
  lemma CondText(name: string, c: Expr, t: Expr, f: Expr, ctx: Context, m: set<string>,
                 ct: string, tt: string, ft: string)
    requires Lower(name) == "cond"
    requires PrintExpr(c, At(ctx, 2), m) == Ok(Printed(Str(ct), m))
    requires PrintExpr(t, At(ctx, 2), m) == Ok(Printed(Str(tt), m))
    requires PrintExpr(f, At(ctx, 2), m) == Ok(Printed(Str(ft), m))
    ensures PrintExpr(Call(Identifier(name), [c, t, f]), ctx, m)
            == Ok(Printed(Str(Paren(ctx.precedence > 2, tt + " if " + ct + " else " + ft)), m))
  {
    var args := [c, t, f];
    assert args[0] == c && args[1] == t && args[2] == f;
    assert PrintCall(Identifier(name), args, ctx, m)
           == Ok(Printed(Wrap(ctx.precedence > 2, Str(tt) + Str(" if ") + Str(ct) + Str(" else ") + Str(ft)), m));
    DispatchCall(Identifier(name), args, ctx, m);
    Str3(tt, " if ", ct, tt + " if " + ct);
    Str3(tt + " if " + ct, " else ", ft, tt + " if " + ct + " else " + ft);
    WrapStr(ctx.precedence > 2, tt + " if " + ct + " else " + ft);
  }

  /** `not` before an operand that prints as plain text at precedence 5. */
  lemma NotText(argument: Expr, ctx: Context, m: set<string>, a: string)
    requires PrintExpr(argument, At(ctx, 5), m) == Ok(Printed(Str(a), m))
    ensures PrintExpr(Unary(LogicalNot, argument), ctx, m) == Ok(Printed(Str(Paren(ctx.precedence > 5, "not " + a)), m))
  {
    StrAppend("not ", a);
    WrapStr(ctx.precedence > 5, "not " + a);
  }

  /** The texts the operator examples below are assembled from. */
  lemma OperatorTexts()
    ensures Paren(true, "True" + (" " + "or" + " ") + "False") == "(True or False)"
    ensures Paren(false, "(True or False)" + (" " + "and" + " ") + "True") == "(True or False) and True"
    ensures Paren(false, "True" + (" " + "and" + " ") + "False") == "True and False"
    ensures Paren(false, "True and False" + (" " + "or" + " ") + "True") == "True and False or True"
    ensures Paren(true, "True" + (" " + "and" + " ") + "False") == "(True and False)"
    ensures Paren(false, "not " + "(True and False)") == "not (True and False)"
  {
  }

  lemma DifferenceTexts()
    ensures Paren(false, "2" + (" " + "-" + " ") + "3") == "2 - 3"
    ensures Paren(false, "1" + (" " + "-" + " ") + "2") == "1 - 2"
    ensures Paren(false, "1" + (" " + "-" + " ") + "2 - 3") == "1 - 2 - 3"
    ensures Paren(false, "1 - 2" + (" " + "-" + " ") + "3") == "1 - 2 - 3"
  {
  }

  /** An `or` inside an `and` is parenthesised; an `and` inside an `or` is not. */
  lemma OrInsideAnd(m: set<string>)
    ensures PrintExpr(Binary(LogicalAnd, Binary(LogicalOr, True, False), True), Plain("OoT"), m)
            == Ok(Printed(Str("(True or False) and True"), m))
  {
    OperatorTexts();
    var ctx := Plain("OoT");
    LiteralText(At(At(ctx, 4), 3), m, "");
    OperatorText(LogicalOr, True, False, At(ctx, 4), m, m, m, "or", 3, "True", "False");
    LiteralText(At(ctx, 4), m, "");
    OperatorText(LogicalAnd, Binary(LogicalOr, True, False), True, ctx, m, m, m, "and", 4, "(True or False)", "True");
  }

  lemma AndInsideOr(m: set<string>)
    ensures PrintExpr(Binary(LogicalOr, Binary(LogicalAnd, True, False), True), Plain("OoT"), m)
            == Ok(Printed(Str("True and False or True"), m))
  {
    OperatorTexts();
    var ctx := Plain("OoT");
    LiteralText(At(At(ctx, 3), 4), m, "");
    OperatorText(LogicalAnd, True, False, At(ctx, 3), m, m, m, "and", 4, "True", "False");
    LiteralText(At(ctx, 3), m, "");
    OperatorText(LogicalOr, Binary(LogicalAnd, True, False), True, ctx, m, m, m, "or", 3, "True and False", "True");
  }

  lemma AndInsideNot(m: set<string>)
    ensures PrintExpr(Unary(LogicalNot, Binary(LogicalAnd, True, False)), Plain("OoT"), m)
            == Ok(Printed(Str("not (True and False)"), m))
  {
    OperatorTexts();
    var ctx := Plain("OoT");
    LiteralText(At(At(ctx, 5), 4), m, "");
    OperatorText(LogicalAnd, True, False, At(ctx, 5), m, m, m, "and", 4, "True", "False");
    NotText(Binary(LogicalAnd, True, False), ctx, m, "(True and False)");
  }

  /** Both operands of `-` are written at its own precedence, so a right-nested
      difference loses its parentheses: `1 - (2 - 3)` and `(1 - 2) - 3` are
      written the same way. */
  lemma RightNestedDifference(ctx: Context, m: set<string>)
    requires ctx.precedence <= 11
    ensures PrintExpr(Binary(Minus, Number("1"), Binary(Minus, Number("2"), Number("3"))), ctx, m)
            == Ok(Printed(Str("1 - 2 - 3"), m))
    ensures PrintExpr(Binary(Minus, Binary(Minus, Number("1"), Number("2")), Number("3")), ctx, m)
            == Ok(Printed(Str("1 - 2 - 3"), m))
  {
    DifferenceTexts();
    var inner := At(ctx, 11);
    assert At(inner, 11) == inner;
    LiteralText(inner, m, "1");
    LiteralText(inner, m, "2");
    LiteralText(inner, m, "3");
    OperatorText(Minus, Number("2"), Number("3"), inner, m, m, m, "-", 11, "2", "3");
    OperatorText(Minus, Number("1"), Number("2"), inner, m, m, m, "-", 11, "1", "2");
    OperatorText(Minus, Number("1"), Binary(Minus, Number("2"), Number("3")), ctx, m, m, m, "-", 11, "1", "2 - 3");
    OperatorText(Minus, Binary(Minus, Number("1"), Number("2")), Number("3"), ctx, m, m, m, "-", 11, "1 - 2", "3");
  }

  // ---------------------------------------------------------------------------
  // Special forms.

  function FlagCall(name: string, argument: Expr): Expr {
    Call(Identifier(name), [argument])
  }

  /** `flag_on(X) && flag_off(Y)` and `flag_off(Y) && flag_on(X)` are written
      the same way, the `flag_on` argument first. */
  lemma FlagPairOrderIrrelevant(x: Expr, y: Expr, ctx: Context, m: set<string>)
    ensures PrintExpr(Binary(LogicalAnd, FlagCall("flag_on", x), FlagCall("flag_off", y)), ctx, m)
            == PrintExpr(Binary(LogicalAnd, FlagCall("flag_off", y), FlagCall("flag_on", x)), ctx, m)
  {
  }

  lemma FlagSignatures()
    ensures Macros.Signature("flags_on_off", 2) == "flags_on_off(self, a, b)"
    ensures Macros.Signature("flag_on", 1) == "flag_on(self, a)"
  {
    Macros.ShortSignatures("flags_on_off");
    Macros.ShortSignatures("flag_on");
  }

  /** An unknown name in argument position is quoted and not recorded. */
  lemma QuotedArgument(name: string, ctx: Context, m: set<string>)
    requires ctx.chain == [] && ctx.tokenMap == map[] && name !in ctx.locals && ctx.precedence < 0
    requires |name| > 0 && !IsWhiteSpace(name[0])
    ensures PrintExpr(Identifier(name), ctx, m) == Ok(Printed(Str("\"" + name + "\""), m))
  {
  }

  /** A fused pair queries `flags_on_off` with two arguments; its arguments are
      in argument position, so unknown names are quoted, not recorded. */
  lemma FlagPairExample(m: set<string>)
    ensures PrintExpr(Binary(LogicalAnd, FlagCall("flag_off", Identifier("Y")), FlagCall("flag_on", Identifier("X"))),
                      Plain("OoT"), m)
            == Ok(Printed(Str("self.flags_on_off(\"X\", \"Y\")"), m + {"flags_on_off(self, a, b)"}))
  {
    assert "self" + ".flags_on_off(" + "\"X\"" + ", " == "self.flags_on_off(\"X\", ";
    assert "self.flags_on_off(\"X\", " + "\"Y\"" + ")" == "self.flags_on_off(\"X\", \"Y\")";
    Str3("self" + ".flags_on_off(", "\"X\"", ", ", "self.flags_on_off(\"X\", ");
    Str3("self.flags_on_off(\"X\", ", "\"Y\"", ")", "self.flags_on_off(\"X\", \"Y\")");
    var ctx := Plain("OoT");
    var m1 := m + {"flags_on_off(self, a, b)"};
    FlagSignatures();
    assert !IsBlank("flags_on_off") by { assert !IsWhiteSpace("flags_on_off"[0]); }
    assert Macros.Probe([], m, "flags_on_off", 2, true) == Ok((true, m1));
    assert "\"" + "X" + "\"" == "\"X\"" && "\"" + "Y" + "\"" == "\"Y\"";
    QuotedArgument("X", At(ctx, -1), m1);
    QuotedArgument("Y", At(ctx, -1), m1);
    var left := FlagCall("flag_off", Identifier("Y"));
    var right := FlagCall("flag_on", Identifier("X"));
    assert ctx.self == "self" && ctx.chain == [];
    assert IsFlagPair(Binary(LogicalAnd, left, right));
    assert left.callee.name == "flag_off" && right.arguments[0] == Identifier("X") && left.arguments[0] == Identifier("Y");
    assert PrintBinary(LogicalAnd, left, right, ctx, m)
           == Ok(Printed(Str("self" + ".flags_on_off(") + Str("\"X\"") + Str(", ") + Str("\"Y\"") + Str(")"), m1));
    DispatchBinary(LogicalAnd, left, right, ctx, m);
  }

  /** A call of an unknown one-argument macro with a quoted argument. */
  lemma OneArgumentCall(name: string, arg: string, ctx: Context, m: set<string>)
    requires ctx.chain == [] && ctx.tokenMap == map[] && ctx.self == "self" && arg !in ctx.locals
    requires Lower(name) == name && !IsSpecial(name)
    requires |name| > 0 && !IsWhiteSpace(name[0]) && |arg| > 0 && !IsWhiteSpace(arg[0])
    ensures PrintExpr(Call(Identifier(name), [Identifier(arg)]), ctx, m)
            == Ok(Printed(Str("self." + name + "(\"" + arg + "\")"), m + {Macros.Signature(name, 1)}))
  {
    Str3("self" + "." + name + "(", "\"" + arg + "\"", ")", "self." + name + "(\"" + arg + "\")");
    var m1 := m + {Macros.Signature(name, 1)};
    assert At(At(ctx, -1), -1) == At(ctx, -1);
    QuotedArgument(arg, At(ctx, -1), m1);
    assert PrintArgs([Identifier(arg)], ctx, m1, false) == Ok(Printed(Str("\"" + arg + "\""), m1)) by {
      assert [Identifier(arg)][1..] == [];
      assert [] + Str("\"" + arg + "\"") + [] == Str("\"" + arg + "\"");
    }
  }

  lemma FlagTexts()
    ensures Paren(false, ("self." + "flag_on" + "(\"" + "X" + "\")") + (" " + "and" + " ") +
                         ("self." + "flag_on" + "(\"" + "Y" + "\")"))
            == "self.flag_on(\"X\") and self.flag_on(\"Y\")"
    ensures Lower("flag_on") == "flag_on"
  {
    Texts.FlagPairText();
  }

  /** Two calls of the same flag function are not fused. */
  lemma SameFlagsNotFused(m: set<string>)
    ensures PrintExpr(Binary(LogicalAnd, FlagCall("flag_on", Identifier("X")), FlagCall("flag_on", Identifier("Y"))),
                      Plain("OoT"), m)
            == Ok(Printed(Str("self.flag_on(\"X\") and self.flag_on(\"Y\")"), m + {"flag_on(self, a)"}))
  {
    FlagTexts();
    FlagSignatures();
    var ctx := Plain("OoT");
    var m1 := m + {"flag_on(self, a)"};
    assert m1 + {"flag_on(self, a)"} == m1;
    OneArgumentCall("flag_on", "X", At(ctx, 4), m);
    OneArgumentCall("flag_on", "Y", At(ctx, 4), m1);
    OperatorText(LogicalAnd, FlagCall("flag_on", Identifier("X")), FlagCall("flag_on", Identifier("Y")), ctx,
                 m, m1, m1, "and", 4,
                 "self." + "flag_on" + "(\"" + "X" + "\")", "self." + "flag_on" + "(\"" + "Y" + "\")");
  }

  /** `cond` takes exactly three arguments. */
  lemma CondArity(name: string, args: seq<Expr>, ctx: Context, m: set<string>)
    requires Lower(name) == "cond" && |args| != 3
    ensures PrintExpr(Call(Identifier(name), args), ctx, m).Err?
    ensures PrintExpr(Call(Identifier(name), args), ctx, m).fault.NotImplemented?
  {
  }

  lemma CondTexts()
    ensures Lower("Cond") == "cond"
    ensures Paren(false, "1" + " if " + "True" + " else " + "2") == "1 if True else 2"
    ensures Paren(true, "1" + " if " + "True" + " else " + "2") == "(1 if True else 2)"
    ensures Paren(false, "(1 if True else 2)" + (" " + "or" + " ") + "False") == "(1 if True else 2) or False"
  {
  }

  /** `cond(c, t, f)`, in any letter case, becomes `t if c else f`. */
  lemma CondExample(ctx: Context, m: set<string>)
    requires 0 <= ctx.precedence <= 2
    ensures PrintExpr(Call(Identifier("Cond"), [True, Number("1"), Number("2")]), ctx, m)
            == Ok(Printed(Str("1 if True else 2"), m))
  {
    CondTexts();
    LiteralText(At(ctx, 2), m, "1");
    LiteralText(At(ctx, 2), m, "2");
    CondText("Cond", True, Number("1"), Number("2"), ctx, m, "True", "1", "2");
  }

  /** Inside an operator a conditional is parenthesised. */
  lemma CondInsideOr(m: set<string>)
    ensures PrintExpr(Binary(LogicalOr, Call(Identifier("Cond"), [True, Number("1"), Number("2")]), False),
                      Plain("OoT"), m)
            == Ok(Printed(Str("(1 if True else 2) or False"), m))
  {
    CondTexts();
    var ctx := Plain("OoT");
    var cond := Call(Identifier("Cond"), [True, Number("1"), Number("2")]);
    LiteralText(At(At(ctx, 3), 2), m, "1");
    LiteralText(At(At(ctx, 3), 2), m, "2");
    CondText("Cond", True, Number("1"), Number("2"), At(ctx, 3), m, "True", "1", "2");
    LiteralText(At(ctx, 3), m, "");
    OperatorText(LogicalOr, cond, False, ctx, m, m, m, "or", 3, "(1 if True else 2)", "False");
  }

  /** For the games' labels, an event name always names a game, and prefixing
      a name that already does changes nothing. */
  lemma EventNameNamesGame(game: string, name: string)
    requires Upper(game) == "OOT" || Upper(game) == "MM"
    ensures StartsWith(EventName(game, name), "OOT_") || StartsWith(EventName(game, name), "MM_")
    ensures EventName(game, EventName(game, name)) == EventName(game, name)
  {
    var r := EventName(game, name);
    if !(StartsWith(name, "OOT_") || StartsWith(name, "MM_")) {
      if Upper(game) == "OOT" {
        assert r[..4] == "OOT_";
      } else {
        assert r[..3] == "MM_";
      }
    }
  }

  /** An event-like call needs a first argument, and it must be an identifier. */
  lemma EventFaults(name: string, args: seq<Expr>, ctx: Context, m: set<string>)
    requires IsEventLike(Lower(name))
    ensures |args| == 0 ==> PrintExpr(Call(Identifier(name), args), ctx, m).Err? &&
                            PrintExpr(Call(Identifier(name), args), ctx, m).fault.NotImplemented?
    ensures |args| > 0 && !args[0].Identifier? ==>
              PrintExpr(Call(Identifier(name), args), ctx, m) == Err(InvalidCast)
  {
  }

  /** `event(X)` queries `event` with one argument and passes the event name
      of `X` as a quoted string. */
  lemma OneEventCall(x: string, ctx: Context, m: set<string>)
    requires ctx.chain == [] && ctx.self == "self"
    ensures PrintExpr(Call(Identifier("event"), [Identifier(x)]), ctx, m)
            == Ok(Printed(Str("self.event(" + Quote(EventName(ctx.game, x)) + ")"), m + {"event(self, a)"}))
  {
    var q := Quote(EventName(ctx.game, x));
    Texts.EventCallText(q);
    StrAppend("self.event(" + q, ")");
    assert Lower("event") == "event";
    assert !IsBlank("event") by { assert !IsWhiteSpace("event"[0]); }
    assert Macros.Signature("event", 1) == "event(self, a)" by {
      Macros.ShortSignatures("event");
    }
    var m1 := m + {"event(self, a)"};
    assert [Identifier(x)][1..] == [];
    assert Macros.Probe([], m, "event", 1, true) == Ok((true, m1));
    assert PrintArgs([], ctx, m1, true) == Ok(Printed([], m1));
    assert Str("self.event(" + q) + [] + Str(")") == Str("self.event(" + q + ")");
    assert PrintCall(Identifier("event"), [Identifier(x)], ctx, m)
           == Ok(Printed(Str("self.event(" + q) + [] + Str(")"), m1));
    DispatchCall(Identifier("event"), [Identifier(x)], ctx, m);
  }

  /** A bare event name is prefixed with the game; a prefixed one is kept. */
  lemma EventExamples(m: set<string>)
    ensures PrintExpr(Call(Identifier("event"), [Identifier("FOO")]), Plain("MM"), m)
            == Ok(Printed(Str("self.event(\"MM_FOO\")"), m + {"event(self, a)"}))
    ensures PrintExpr(Call(Identifier("event"), [Identifier("OOT_BAR")]), Plain("MM"), m)
            == Ok(Printed(Str("self.event(\"OOT_BAR\")"), m + {"event(self, a)"}))
  {
    assert Upper("MM") == "MM";
    assert !StartsWith("FOO", "MM_") by { assert "FOO"[0] != "MM_"[0]; }
    assert !StartsWith("FOO", "OOT_");
    assert EventName("MM", "FOO") == "MM_FOO";
    assert StartsWith("OOT_BAR", "OOT_") by { assert "OOT_BAR"[..4] == "OOT_"; }
    assert EventName("MM", "OOT_BAR") == "OOT_BAR";
    assert "self.event(" + Quote("MM_FOO") + ")" == "self.event(\"MM_FOO\")";
    assert "self.event(" + Quote("OOT_BAR") + ")" == "self.event(\"OOT_BAR\")";
    OneEventCall("FOO", Plain("MM"), m);
    OneEventCall("OOT_BAR", Plain("MM"), m);
  }

  lemma SettingSignature()
    ensures Macros.Signature("setting", 1) == "setting(self, a)"
  {
    Macros.ShortSignatures("setting");
  }

  /** The shared tail of `setting(x)`: the probe of `setting` with one
      argument and the text around the argument. */
  lemma SettingCallAround(x: string, text: string, ctx: Context, m: set<string>)
    requires ctx.chain == [] && ctx.self == "self"
    requires PrintSettingArgs([Identifier(x)], ctx, m + {"setting(self, a)"}, false)
             == Ok(Printed(Str(text), m + {"setting(self, a)"}))
    ensures PrintExpr(Call(Identifier("setting"), [Identifier(x)]), ctx, m)
            == Ok(Printed(Str("self.setting(" + text + ")"), m + {"setting(self, a)"}))
  {
    assert "self" + ".setting(" == "self.setting(";
    Str3("self.setting(", text, ")", "self.setting(" + text + ")");
    assert Lower("setting") == "setting";
    assert !IsBlank("setting") by { assert !IsWhiteSpace("setting"[0]); }
    SettingSignature();
    var m1 := m + {"setting(self, a)"};
    assert Macros.Probe([], m, "setting", 1, true) == Ok((true, m1));
    assert PrintCall(Identifier("setting"), [Identifier(x)], ctx, m)
           == Ok(Printed(Str("self" + ".setting(") + Str(text) + Str(")"), m1));
    DispatchCall(Identifier("setting"), [Identifier(x)], ctx, m);
  }

  /** `setting(x)` for a name that is not bound: its snake-cased spelling in
      quotes. */
  lemma FreeSettingCall(x: string, ctx: Context, m: set<string>)
    requires ctx.chain == [] && ctx.self == "self" && x !in ctx.locals
    ensures PrintExpr(Call(Identifier("setting"), [Identifier(x)]), ctx, m)
            == Ok(Printed(Str("self.setting(" + Quote(Casing.SnakeCase(x)) + ")"), m + {"setting(self, a)"}))
  {
    var m1 := m + {"setting(self, a)"};
    var text := Quote(Casing.SnakeCase(x));
    assert [Identifier(x)][1..] == [];
    assert PrintSettingArgs([], ctx, m1, true) == Ok(Printed([], m1));
    assert [] + Str(text) + [] == Str(text);
    SettingCallAround(x, text, ctx, m);
  }

  /** `setting(x)` for a bound name: the name itself. */
  lemma BoundSettingCall(x: string, ctx: Context, m: set<string>)
    requires ctx.chain == [] && ctx.self == "self" && x in ctx.locals && !IsBlank(x)
    ensures PrintExpr(Call(Identifier("setting"), [Identifier(x)]), ctx, m)
            == Ok(Printed(Str("self.setting(" + FixIdentifier(x) + ")"), m + {"setting(self, a)"}))
  {
    var m1 := m + {"setting(self, a)"};
    var text := FixIdentifier(x);
    BoundIdentifier(x, ctx, m1);
    assert [Identifier(x)][1..] == [];
    assert PrintSettingArgs([], ctx, m1, true) == Ok(Printed([], m1));
    assert [] + Str(text) + [] == Str(text);
    SettingCallAround(x, text, ctx, m);
  }

  /** A bound name with no macro chain prints as its fixed local name. */
  lemma BoundIdentifier(x: string, ctx: Context, m: set<string>)
    requires ctx.chain == [] && x in ctx.locals && !IsBlank(x)
    ensures PrintExpr(Identifier(x), ctx, m) == Ok(Printed(Str(FixIdentifier(x)), m))
  {
  }

  /** A `setting` argument that is not bound is written as its snake-cased
      name in quotes, without a registry lookup. */
  lemma SettingExample(m: set<string>)
    ensures PrintExpr(Call(Identifier("setting"), [Identifier("logicFooBAR")]), Plain("OoT"), m)
            == Ok(Printed(Str("self.setting(\"logic_foo_bar\")"), m + {"setting(self, a)"}))
  {
    Casing.SnakeCaseRun();
    Texts.SettingText();
    FreeSettingCall("logicFooBAR", Plain("OoT"), m);
  }

  /** A lambda parameter passed to `setting` is written as an identifier. */
  lemma LambdaSettingExample(ctx: Context, m: set<string>)
    requires ctx.chain == [] && ctx.self == "self"
    ensures PrintExpr(Arrow(["x"], Concise(Call(Identifier("setting"), [Identifier("x")]))), ctx, m)
            == Ok(Printed(Str("lambda x: self.setting(x)"), m + {"setting(self, a)"}))
  {
    Texts.LambdaText();
    StrAppend("lambda x: ", "self.setting(x)");
    assert !IsBlank("x") by { assert !IsWhiteSpace("x"[0]); }
    var inner := Nested(ctx, ["x"]);
    assert "x" in inner.locals;
    assert FixIdentifier("x") == "x";
    BoundSettingCall("x", inner, m);
    assert PrintExpr(Call(Identifier("setting"), [Identifier("x")]), inner, m)
           == Ok(Printed(Str("self.setting(x)"), m + {"setting(self, a)"}));
    assert LambdaParams(["x"]) == " x" by {
      assert FixAll(["x"]) == ["x"];
      assert Join(", ", ["x"]) == "x";
    }
    assert "lambda" + LambdaParams(["x"]) + ": " == "lambda" + " x" + ": ";
    var p := Printed(Str("self.setting(x)"), m + {"setting(self, a)"});
    ConciseArrow(["x"], Call(Identifier("setting"), [Identifier("x")]), ctx, m, p);
  }

  /** Any other identifier callee is a macro call on the receiver that cannot
      fail for lack of a definition: an unresolved one is recorded with its
      lower-cased name and argument count. */
  lemma MacroCallNeverRefused(name: string, args: seq<Expr>, ctx: Context, m: set<string>)
    requires !IsSpecial(Lower(name)) && !IsBlank(name)
    ensures var r := PrintExpr(Call(Identifier(name), args), ctx, m);
            (r.Ok? <==> AllPrintable(args, ctx.locals)) &&
            (r.Ok? ==>
               var head := Str(ctx.self + "." + Lower(name) + "(");
               |head| <= |r.value.doc| && r.value.doc[..|head|] == head &&
               (Macros.Resolves(ctx.chain, Lower(name), |args|) ||
                Macros.Signature(Lower(name), |args|) in r.value.missing))
  {
    LowerKeepsBlank(name);
    PrintExprSucceeds(Call(Identifier(name), args), ctx, m);
    AllPrintableEach(args, ctx.locals);
  }

  /** An identifier is a macro when the chain defines it with no parameters, a
      bound name when it is bound, a recorded macro outside argument position,
      and a quoted token (after token-map replacement) in argument position. */
  lemma IdentifierCases(name: string, ctx: Context, m: set<string>)
    ensures IsBlank(name) ==> PrintExpr(Identifier(name), ctx, m) == Err(InvalidArgument("macro"))
    ensures !IsBlank(name) && Macros.Resolves(ctx.chain, name, 0) ==>
              PrintExpr(Identifier(name), ctx, m) == Ok(Printed(Str(ctx.self + "." + FixIdentifier(name)), m))
    ensures !IsBlank(name) && !Macros.Resolves(ctx.chain, name, 0) && name in ctx.locals ==>
              PrintExpr(Identifier(name), ctx, m) == Ok(Printed(Str(FixIdentifier(name)), m))
    ensures !IsBlank(name) && !Macros.Resolves(ctx.chain, name, 0) && name !in ctx.locals && ctx.precedence >= 0 ==>
              PrintExpr(Identifier(name), ctx, m)
              == Ok(Printed(Str(ctx.self + "." + FixIdentifier(name)), m + {Macros.Signature(name, 0)}))
    ensures !IsBlank(name) && !Macros.Resolves(ctx.chain, name, 0) && name !in ctx.locals && ctx.precedence < 0 ==>
              PrintExpr(Identifier(name), ctx, m) == Ok(Printed(Str(Quote(Replace(ctx.tokenMap, name))), m))
  {
  }

  lemma NamedFunction(id: string, params: seq<string>, body: seq<Stmt>, ctx: Context, m: set<string>, p: Printed)
    requires PrintBlock(body, Nested(ctx, params), m) == Ok(p)
    ensures PrintExpr(Function(Some(id), params, body), ctx, m)
            == Ok(Printed((if params == [] then Str("@property\n") else []) +
                          Str("def " + Lower(id) + "(" + ctx.self + DefParams(params) + "):\n") +
                          [Indent] + p.doc + [Dedent], p.missing))
  {
  }

  lemma PropertyTexts()
    ensures "def " + "isadult" + "(" + "self" + "" + "):\n" == "def isadult(self):\n"
    ensures "@property\n" + "def isadult(self):\n" == "@property\ndef isadult(self):\n"
    ensures Lower("IsAdult") == "isadult"
    ensures DefParams([]) == ""
  {
  }

  /** A macro definition with no parameters becomes a lower-cased property. */
  lemma PropertyExample(ctx: Context, m: set<string>)
    requires ctx.self == "self"
    ensures PrintExpr(Macros.MacroFunction(Macros.Entry("IsAdult", [], True)), ctx, m)
            == Ok(Printed(Str("@property\ndef isadult(self):\n") + [Indent] + Str("return True\n") + [Dedent], m))
  {
    PropertyTexts();
    StrAppend("@property\n", "def isadult(self):\n");
    Str3("return ", "True", "\n", "return True\n");
    var inner := Nested(ctx, []);
    var body := [Return(Some(True))];
    assert PrintStmt(body[0], inner, m) == Ok(Printed(Str("return ") + Str("True") + Str("\n"), m));
    assert PrintStmts(body[1..], inner, m) == Ok(Printed([], m)) by { assert body[1..] == []; }
    assert PrintStmts(body, inner, m) == Ok(Printed(Str("return True\n") + [], m));
    assert Str("return True\n") + [] == Str("return True\n");
    assert PrintBlock(body, inner, m) == Ok(Printed([] + Str("return True\n"), m));
    assert [] + Str("return True\n") == Str("return True\n");
    NamedFunction("IsAdult", [], body, ctx, m, Printed(Str("return True\n"), m));
  }

  lemma SuperTexts()
    ensures "super(" + ")" == "super()"
    ensures "." + "__init__" == ".__init__"
    ensures "super()" + ".__init__" == "super().__init__"
    ensures "super().__init__" + "(" + "state" == "super().__init__(state"
    ensures "super().__init__(state" + ")" == "super().__init__(state)"
    ensures Lower("super") == "super"
    ensures FixIdentifier("state") == "state"
  {
  }

  /** `super().__init__(state)` with `state` bound. */
  lemma SuperInitCall(ctx: Context, m: set<string>)
    requires ctx.chain == [] && "state" in ctx.locals
    ensures PrintExpr(Call(Member(Call(Identifier("super"), []), "__init__"), [Identifier("state")]), ctx, m)
            == Ok(Printed(Str("super().__init__(state)"), m))
  {
    SuperTexts();
    StrAppend("super(", ")");
    StrAppend("super()", ".__init__");
    Str3("super().__init__", "(", "state", "super().__init__(state");
    StrAppend("super().__init__(state", ")");
    assert !IsBlank("state") by { assert !IsWhiteSpace("state"[0]); }
    var sup := Call(Identifier("super"), []);
    assert PrintArgs([], ctx, m, false) == Ok(Printed([], m));
    assert PrintCall(Identifier("super"), [], ctx, m) == Ok(Printed(Str("super(") + [] + Str(")"), m));
    DispatchCall(Identifier("super"), [], ctx, m);
    assert Str("super(") + [] + Str(")") == Str("super()");
    assert PrintExpr(sup, ctx, m) == Ok(Printed(Str("super()"), m));
    assert PrintExpr(Member(sup, "__init__"), ctx, m) == Ok(Printed(Str("super()") + Str(".__init__"), m));
    var args := [Identifier("state")];
    assert PrintExpr(args[0], At(ctx, -1), m) == Ok(Printed(Str("state"), m));
    assert PrintArgs(args[1..], ctx, m, true) == Ok(Printed([], m)) by { assert args[1..] == []; }
    assert PrintArgs(args, ctx, m, false) == Ok(Printed([] + Str("state") + [], m));
    assert [] + Str("state") + [] == Str("state");
    assert PrintCall(Member(sup, "__init__"), args, ctx, m)
           == Ok(Printed(Str("super().__init__") + Str("(") + Str("state") + Str(")"), m));
    DispatchCall(Member(sup, "__init__"), args, ctx, m);
  }

  lemma InitTexts()
    ensures "def " + "__init__" + "(" + "self" + ", state: Any" + "):\n" == "def __init__(self, state: Any):\n"
    ensures ", " + "state" + ": Any" + "" == ", state: Any"
    ensures Lower("__init__") == "__init__"
    ensures FixIdentifier("state") == "state"
  {
    Texts.InitText();
  }

  /** The constructor of a generated class hands `state` to its parent. */
  lemma InitExample(ctx: Context, m: set<string>)
    requires ctx.self == "self" && ctx.chain == []
    ensures PrintExpr(Macros.InitFunction(), ctx, m)
            == Ok(Printed(Str("def __init__(self, state: Any):\n") + [Indent] +
                          Str("super().__init__(state)") + [Dedent], m))
  {
    InitTexts();
    var inner := Nested(ctx, ["state"]);
    assert "state" in inner.locals;
    var call := Call(Member(Call(Identifier("super"), []), "__init__"), [Identifier("state")]);
    SuperInitCall(inner, m);
    var body := [ExprStmt(call)];
    assert PrintStmt(body[0], inner, m) == Ok(Printed(Str("super().__init__(state)"), m));
    assert PrintStmts(body[1..], inner, m) == Ok(Printed([], m)) by { assert body[1..] == []; }
    assert PrintStmts(body, inner, m) == Ok(Printed(Str("super().__init__(state)") + [], m));
    assert Str("super().__init__(state)") + [] == Str("super().__init__(state)");
    assert PrintBlock(body, inner, m) == Ok(Printed([] + Str("super().__init__(state)"), m));
    assert [] + Str("super().__init__(state)") == Str("super().__init__(state)");
    assert DefParams(["state"]) == ", state: Any" by { assert ["state"][1..] == []; }
    assert "def " + Lower("__init__") + "(" + ctx.self + DefParams(["state"]) + "):\n"
           == "def __init__(self, state: Any):\n";
    assert Macros.InitFunction() == Function(Some("__init__"), ["state"], body);
    NamedFunction("__init__", ["state"], body, ctx, m, Printed(Str("super().__init__(state)"), m));
    var header := Str("def __init__(self, state: Any):\n");
    assert [] + header == header;
  }

  /** The class wrapper of a game set extends its parent and holds its
      methods, each followed by an empty line. */
  lemma ClassExample(ctx: Context, m: set<string>)
    requires ctx.self == "self" && ctx.chain == []
    ensures PrintStmt(ClassDecl(Some("MacrosOoT"), Some(Identifier("MacrosBase")), [Macros.InitFunction()]), ctx, m)
            == Ok(Printed(Str("class MacrosOoT(MacrosBase):\n") + [Indent] +
                          Str("def __init__(self, state: Any):\n") + [Indent] +
                          Str("super().__init__(state)") + [Dedent] + Str("\n"), m))
  {
    Texts.ClassText();
    InitExample(ctx, m);
    var init := Str("def __init__(self, state: Any):\n") + [Indent] + Str("super().__init__(state)") + [Dedent];
    var ms := [Macros.InitFunction()];
    assert PrintMethods(ms[1..], ctx, m) == Ok(Printed([], m)) by { assert ms[1..] == []; }
    assert PrintMethods(ms, ctx, m) == Ok(Printed(init + Str("\n") + [], m));
    assert init + Str("\n") + [] == init + Str("\n");
    var head := Str("class MacrosOoT(MacrosBase):\n");
    assert PrintStmt(ClassDecl(Some("MacrosOoT"), Some(Identifier("MacrosBase")), ms), ctx, m)
           == Ok(Printed(head + [Indent] + (init + Str("\n")), m));
    assert head + [Indent] + (init + Str("\n"))
           == head + [Indent] + Str("def __init__(self, state: Any):\n") + [Indent] +
              Str("super().__init__(state)") + [Dedent] + Str("\n");
  }
}
