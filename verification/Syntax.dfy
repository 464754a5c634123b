/** Expressions, their tokens, and the printer. */
module Syntax {
  datatype BinOp =
    | Nullish | OrOr | AndAnd | Or | Xor | And | EqEq | NotEq | EqEqEq | NotEqEq | Lt | Gt | Le | Ge
    | Instanceof | In | Shl | Shr | UShr | Plus | Minus | Star | Slash | Percent | StarStar

  datatype UnaryOp = Not | Tilde | Positive | Negative | Typeof | Void | Delete

  /** `=` and the operators combined with it. */
  datatype AssignOp =
    | Plain | AddTo | SubFrom | MulBy | DivBy | ModBy | PowBy | ShlBy | ShrBy | UShrBy | AndWith | OrWith | XorWith
    | AndAndWith | OrOrWith | NullishWith

  datatype Literal = Number(raw: string) | BigInt(raw: string) | Text(raw: string)

  datatype Kind =
    | Ident(name: string) | Lit(l: Literal) | This | True | False | Null | Super | New
    | Op(op: BinOp) | Un(un: UnaryOp) | IncDec(inc: bool) | AssignWith(assign: AssignOp)
    | LParen | RParen | LBracket | RBracket | Comma | Dot | Question | Colon | Ellipsis | Arrow
    | Chain              // `?.` or the start of a template
    | Word(word: string) // any other reserved word, or `async`
    | Foreign            // anything else that can begin an expression
    | Stop               // anything else

  datatype Token = Token(kind: Kind, newline: bool)

  /** A hole stands for an elided element of an array. */
  datatype Expr =
    | Id(name: string) | Constant(l: Literal) | ThisExpr | BoolLit(b: bool) | NullLit | SuperExpr | Hole
    | ArrayLit(elements: seq<Expr>) | ArrayPattern(elements: seq<Expr>) | AssignPattern(target: Expr, default: Expr)
    | Unary(op: UnaryOp, operand: Expr)
    | Update(inc: bool, prefix: bool, operand: Expr)
    | Infix(infix: BinOp, left: Expr, right: Expr)
    | Assign(assign: AssignOp, target: Expr, value: Expr)
    | Conditional(test: Expr, consequent: Expr, alternate: Expr)
    | Call(callee: Expr, args: seq<Expr>)
    | NewExpr(callee: Expr, args: seq<Expr>)
    | Member(owner: Expr, property: Kind)
    | Index(owner: Expr, index: Expr)
    | Sequence(exprs: seq<Expr>)

  // ---------- Tables ----------

  function Prec(op: BinOp): nat {
    match op
    case Nullish => 1
    case OrOr => 2
    case AndAnd => 3
    case Or => 4
    case Xor => 5
    case And => 6
    case EqEq => 7 case NotEq => 7 case EqEqEq => 7 case NotEqEq => 7
    case Lt => 8 case Gt => 8 case Le => 8 case Ge => 8 case Instanceof => 8 case In => 8
    case Shl => 9 case Shr => 9 case UShr => 9
    case Plus => 10 case Minus => 10
    case Star => 11 case Slash => 11 case Percent => 11
    case StarStar => 12
  }

  /** The least precedence of a right operand: `**` alone associates to the right. */
  function NextPrec(op: BinOp): nat { if op.StarStar? then Prec(op) else Prec(op) + 1 }

  /** A name after a dot may be a reserved word. */
  predicate IsName(k: Kind) {
    match k
    case Ident(_) => true
    case This => true case True => true case False => true case Null => true case Super => true case New => true
    case Word(_) => true
    case Op(op) => op.In? || op.Instanceof?
    case Un(un) => un.Typeof? || un.Void? || un.Delete?
    case _ => false
  }

  predicate SimpleTarget(e: Expr) { e.Id? || e.Member? || e.Index? }

  // ---------- The printer ----------

  function T(k: Kind): Token { Token(k, false) }

  function UnaryToken(op: UnaryOp): Kind {
    match op
    case Positive => Op(Plus)
    case Negative => Op(Minus)
    case _ => Un(op)
  }

  function Wrap(ts: seq<Token>): seq<Token> { [T(LParen)] + ts + [T(RParen)] }

  function Print(e: Expr): seq<Token>
    decreases e, 1
  {
    match e
    case Id(name) => [T(Ident(name))]
    case Constant(l) => [T(Lit(l))]
    case ThisExpr => [T(This)]
    case BoolLit(b) => [T(if b then True else False)]
    case NullLit => [T(Null)]
    case SuperExpr => [T(Super)]
    case Hole => []
    case ArrayLit(es) => [T(LBracket)] + PrintElements(es) + [T(RBracket)]
    case ArrayPattern(es) => [T(LBracket)] + PrintElements(es) + [T(RBracket)]
    case AssignPattern(t, d) => Print(t) + [T(AssignWith(Plain))] + Print(d)
    case Call(c, args) => Print(c) + Wrap(PrintList(args))
    case Member(o, name) =>
      (if o.Constant? && o.l.Number? then Wrap(Print(o)) else Print(o)) + [T(Dot), T(name)]
    case Index(o, i) => Print(o) + [T(LBracket)] + Print(i) + [T(RBracket)]
    case Sequence(es) => Wrap(PrintList(es))
    case _ => Wrap(Inside(e))
  }

  /** What the printer puts between the parentheses of an operator's expression. */
  function Inside(e: Expr): seq<Token>
    decreases e, 0
  {
    match e
    case Unary(op, x) => [T(UnaryToken(op))] + Print(x)
    case Update(inc, prefix, x) => if prefix then [T(IncDec(inc))] + Print(x) else Print(x) + [T(IncDec(inc))]
    case Infix(op, l, r) => Print(l) + [T(Op(op))] + Print(r)
    case Assign(op, t, v) => Print(t) + [T(AssignWith(op))] + Print(v)
    case Conditional(a, b, c) => Print(a) + [T(Question)] + Print(b) + [T(Colon)] + Print(c)
    case NewExpr(c, args) => [T(New)] + Wrap(Print(c)) + Wrap(PrintList(args))
    case _ => []
  }

  function PrintList(es: seq<Expr>): seq<Token>
    decreases es
  {
    if es == [] then []
    else Print(es[0]) + if |es| == 1 then [] else [T(Comma)] + PrintList(es[1..])
  }

  /** A comma follows a hole even at the end. */
  function PrintElements(es: seq<Expr>): seq<Token>
    decreases es
  {
    if es == [] then []
    else Print(es[0]) + if |es| == 1 && !es[0].Hole? then [] else [T(Comma)] + PrintElements(es[1..])
  }

  /** Which expressions the printer puts in parentheses of their own. */
  predicate Parenthesised(e: Expr) {
    e.Unary? || e.Update? || e.Infix? || e.Assign? || e.Conditional? || e.NewExpr? || e.Sequence?
  }

  // ---------- Well-formed trees ----------

  predicate StrictName(name: string) { name == "arguments" || name == "eval" || name == "yield" }

  /** The trees the parser can build, patterns only where they are assigned to. */
  predicate Wf(e: Expr, strict: bool)
    decreases e, 0
  {
    match e
    case Hole => false
    case ArrayPattern(_) => false
    case AssignPattern(_, _) => false
    case ArrayLit(es) => forall i :: 0 <= i < |es| ==> es[i].Hole? || Wf(es[i], strict)
    case Unary(_, x) => Wf(x, strict)
    case Update(_, _, x) => Wf(x, strict) && SimpleTarget(x)
    case Infix(_, l, r) => Wf(l, strict) && Wf(r, strict)
    case Assign(op, t, v) => Wf(v, strict) && if op.Plain? then WfTarget(t, strict) else Wf(t, strict) && SimpleTarget(t)
    case Conditional(a, b, c) => Wf(a, strict) && Wf(b, strict) && Wf(c, strict)
    case Call(c, args) => Wf(c, strict) && forall i :: 0 <= i < |args| ==> Wf(args[i], strict)
    case NewExpr(c, args) => Wf(c, strict) && forall i :: 0 <= i < |args| ==> Wf(args[i], strict)
    case Member(o, name) => Wf(o, strict) && IsName(name)
    case Index(o, i) => Wf(o, strict) && Wf(i, strict)
    case Sequence(es) => |es| >= 2 && forall i :: 0 <= i < |es| ==> Wf(es[i], strict)
    case _ => true
  }

  predicate WfTarget(e: Expr, strict: bool)
    decreases e, 1
  {
    match e
    case Id(name) => !(strict && StrictName(name))
    case Member(_, _) => Wf(e, strict)
    case Index(_, _) => Wf(e, strict)
    case ArrayPattern(es) => forall i :: 0 <= i < |es| ==> es[i].Hole? || WfElement(es[i], strict)
    case _ => false
  }

  /** An element of a pattern: a target, perhaps with a default. */
  predicate WfElement(e: Expr, strict: bool)
    decreases e, 2
  {
    if e.AssignPattern? then WfTarget(e.target, strict) && Wf(e.default, strict) else WfTarget(e, strict)
  }
}
