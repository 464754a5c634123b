/** The expression parser: recursive descent with a bounded depth and precedence climbing. */
module Parser {
  import opened Options
  import opened Syntax

  datatype Error = TooDeep | Unexpected | BadTarget | MixedNullish | UnaryBeforePower | NotModelled

  /** What was read, whether it stood in parentheses, and the tokens after it. */
  datatype Parsed = Ok(e: Expr, paren: bool, rest: seq<Token>) | Fail(why: Error)

  datatype ParsedList = OkList(es: seq<Expr>, trailing: bool, rest: seq<Token>) | FailList(why: Error)

  datatype Mode = Mode(noIn: bool, strict: bool)

  const MAX_DEPTH := 800

  function Peek(ts: seq<Token>): Kind { if ts == [] then Stop else ts[0].kind }

  predicate ArrowNext(ts: seq<Token>) { ts != [] && ts[0].kind.Arrow? && !ts[0].newline }

  /** The operator at the head of the tokens, `in` not being one where it is suspended. */
  function OpAt(ts: seq<Token>, m: Mode): Option<BinOp> {
    if Peek(ts).Op? && !(Peek(ts).op.In? && m.noIn) then Some(Peek(ts).op) else None
  }

  // ---------- Restrictions ----------

  predicate Mixes(op: BinOp, e: Expr, paren: bool) {
    && e.Infix? && !paren
    && ((op.Nullish? && (e.infix.AndAnd? || e.infix.OrOr?)) || ((op.AndAnd? || op.OrOr?) && e.infix.Nullish?))
  }

  predicate UnaryLeft(e: Expr, paren: bool) { e.Unary? && !paren }

  /** The cover grammar's second half: the pattern an expression stands for, if it can stand for one. */
  function ToPattern(e: Expr, strict: bool): Option<Expr>
    decreases e
  {
    match e
    case Id(name) => if strict && StrictName(name) then None else Some(e)
    case Member(_, _) => Some(e)
    case Index(_, _) => Some(e)
    case ArrayPattern(_) => Some(e)
    case AssignPattern(t, d) => (match ToPattern(t, strict) case Some(p) => Some(AssignPattern(p, d)) case None => None)
    case ArrayLit(es) => (match ToPatterns(es, strict) case Some(ps) => Some(ArrayPattern(ps)) case None => None)
    case Assign(op, t, v) =>
      if !op.Plain? then None else (match ToPattern(t, strict) case Some(p) => Some(AssignPattern(p, v)) case None => None)
    case _ => None
  }

  function ToPatterns(es: seq<Expr>, strict: bool): Option<seq<Expr>>
    decreases es
  {
    if es == [] then Some([])
    else
      var p := if es[0].Hole? then Some(Hole) else ToPattern(es[0], strict);
      var ps := ToPatterns(es[1..], strict);
      if p.Some? && ps.Some? then Some([p.value] + ps.value) else None
  }

  /** The target of an assignment read as `left`. */
  function Target(op: AssignOp, left: Expr, strict: bool): Option<Expr> {
    if op.Plain? then
      var t := ToPattern(left, strict);
      if t.Some? && t.value.AssignPattern? then None else t
    else if SimpleTarget(left) then Some(left) else None
  }

  // ---------- The parser ----------

  function ParseExpression(ts: seq<Token>, d: nat, m: Mode): (r: Parsed)
    ensures r.Ok? ==> |r.rest| < |ts|
    decreases |ts|, 8
  {
    match ParseAssign(ts, d, m)
    case Fail(why) => Fail(why)
    case Ok(e, paren, rest) => if Peek(rest).Comma? then MoreExpressions([e], rest, d, m) else Ok(e, paren, rest)
  }

  function MoreExpressions(es: seq<Expr>, ts: seq<Token>, d: nat, m: Mode): (r: Parsed)
    ensures r.Ok? ==> |r.rest| <= |ts|
    decreases |ts|, 0
  {
    if !Peek(ts).Comma? then Ok(Sequence(es), false, ts)
    else
      match ParseAssign(ts[1..], d, m)
      case Fail(why) => Fail(why)
      case Ok(e, _, rest) => MoreExpressions(es + [e], rest, d, m)
  }

  function ParseAssign(ts: seq<Token>, d: nat, m: Mode): (r: Parsed)
    ensures r.Ok? ==> |r.rest| < |ts|
    decreases |ts|, 7
  {
    if d >= MAX_DEPTH then Fail(TooDeep)
    else if Peek(ts).Ident? && ArrowNext(ts[1..]) then Fail(NotModelled)
    else
      match ParseConditional(ts, d + 1, m)
      case Fail(why) => Fail(why)
      case Ok(left, paren, rest) =>
        if !Peek(rest).AssignWith? then Ok(left, paren, rest)
        else
          var op := Peek(rest).assign;
          var target := Target(op, left, m.strict);
          if target.None? then Fail(BadTarget)
          else
            match ParseAssign(rest[1..], d + 1, m)
            case Fail(why) => Fail(why)
            case Ok(v, _, rest1) => Ok(Assign(op, target.value, v), false, rest1)
  }

  function ParseConditional(ts: seq<Token>, d: nat, m: Mode): (r: Parsed)
    ensures r.Ok? ==> |r.rest| < |ts|
    decreases |ts|, 6
  {
    match ParseBinary(ts, 0, d, m)
    case Fail(why) => Fail(why)
    case Ok(test, paren, rest) =>
      if !Peek(rest).Question? then Ok(test, paren, rest)
      else
        match ParseAssign(rest[1..], d, m)
        case Fail(why) => Fail(why)
        case Ok(yes, _, rest1) =>
          if !Peek(rest1).Colon? then Fail(Unexpected)
          else
            match ParseAssign(rest1[1..], d, m)
            case Fail(why) => Fail(why)
            case Ok(no, _, rest2) => Ok(Conditional(test, yes, no), false, rest2)
  }

  function ParseBinary(ts: seq<Token>, min: nat, d: nat, m: Mode): (r: Parsed)
    ensures r.Ok? ==> |r.rest| < |ts|
    decreases |ts|, 5
  {
    if d >= MAX_DEPTH then Fail(TooDeep)
    else
      match ParseUnary(ts, d + 1, m)
      case Fail(why) => Fail(why)
      case Ok(e, paren, rest) => BinaryLoop(e, paren, rest, min, d + 1, m)
  }

  function BinaryLoop(left: Expr, paren: bool, ts: seq<Token>, min: nat, d: nat, m: Mode): (r: Parsed)
    ensures r.Ok? ==> |r.rest| <= |ts|
    decreases |ts|, 0
  {
    var op := OpAt(ts, m);
    if op.None? || Prec(op.value) < min then Ok(left, paren, ts)
    else if Mixes(op.value, left, paren) then Fail(MixedNullish)
    else if op.value.StarStar? && UnaryLeft(left, paren) then Fail(UnaryBeforePower)
    else
      match ParseBinary(ts[1..], NextPrec(op.value), d, m)
      case Fail(why) => Fail(why)
      case Ok(right, rightParen, rest) =>
        if Mixes(op.value, right, rightParen) then Fail(MixedNullish)
        else BinaryLoop(Infix(op.value, left, right), false, rest, min, d, m)
  }

  /** The prefix operator at the head of the tokens. */
  function UnaryAt(k: Kind): Option<UnaryOp> {
    match k
    case Un(op) => Some(op)
    case Op(op) => if op.Plus? then Some(Positive) else if op.Minus? then Some(Negative) else None
    case _ => None
  }

  function ParseUnary(ts: seq<Token>, d: nat, m: Mode): (r: Parsed)
    ensures r.Ok? ==> |r.rest| < |ts|
    decreases |ts|, 4
  {
    if d >= MAX_DEPTH then Fail(TooDeep)
    else if UnaryAt(Peek(ts)).Some? then
      match ParseUnary(ts[1..], d + 1, m)
      case Fail(why) => Fail(why)
      case Ok(x, _, rest) => Ok(Unary(UnaryAt(Peek(ts)).value, x), false, rest)
    else if Peek(ts).IncDec? then
      match ParseUnary(ts[1..], d + 1, m)
      case Fail(why) => Fail(why)
      case Ok(x, _, rest) => if SimpleTarget(x) then Ok(Update(Peek(ts).inc, true, x), false, rest) else Fail(BadTarget)
    else ParsePostfix(ts, d + 1, m)
  }

  function ParsePostfix(ts: seq<Token>, d: nat, m: Mode): (r: Parsed)
    ensures r.Ok? ==> |r.rest| < |ts|
    decreases |ts|, 3
  {
    match ParseMember(ts, true, d, m)
    case Fail(why) => Fail(why)
    case Ok(e, paren, rest) =>
      if !Peek(rest).IncDec? || rest[0].newline then Ok(e, paren, rest)
      else if SimpleTarget(e) then Ok(Update(Peek(rest).inc, false, e), false, rest[1..])
      else Fail(BadTarget)
  }

  /** Calls and members; without `allowCall`, a parenthesis ends the expression. */
  function ParseMember(ts: seq<Token>, allowCall: bool, d: nat, m: Mode): (r: Parsed)
    ensures r.Ok? ==> |r.rest| < |ts|
    decreases |ts|, 2
  {
    if d >= MAX_DEPTH then Fail(TooDeep)
    else
      match (if Peek(ts).New? then ParseNew(ts[1..], d + 1, m) else ParsePrimary(ts, d + 1, m))
      case Fail(why) => Fail(why)
      case Ok(e, paren, rest) => MemberLoop(e, paren, rest, allowCall, d + 1, m)
  }

  function MemberLoop(e: Expr, paren: bool, ts: seq<Token>, allowCall: bool, d: nat, m: Mode): (r: Parsed)
    ensures r.Ok? ==> |r.rest| <= |ts|
    decreases |ts|, 0
  {
    match Peek(ts)
    case Dot =>
      if Peek(ts[1..]).Foreign? then Fail(NotModelled)
      else if !IsName(Peek(ts[1..])) then Fail(Unexpected)
      else MemberLoop(Member(e, ts[1].kind), false, ts[2..], allowCall, d, m)
    case LBracket =>
      (match ParseExpression(ts[1..], d, m)
       case Fail(why) => Fail(why)
       case Ok(i, _, rest) =>
         if Peek(rest).RBracket? then MemberLoop(Index(e, i), false, rest[1..], allowCall, d, m) else Fail(Unexpected))
    case LParen =>
      if !allowCall then Ok(e, paren, ts)
      else
        (match Items([], ts[1..], d, m)
         case FailList(why) => Fail(why)
         case OkList(args, _, rest) => MemberLoop(Call(e, args), false, rest, allowCall, d, m))
    case Chain => Fail(NotModelled)
    case _ => Ok(e, paren, ts)
  }

  /** After `new`. */
  function ParseNew(ts: seq<Token>, d: nat, m: Mode): (r: Parsed)
    ensures r.Ok? ==> |r.rest| < |ts|
    decreases |ts|, 3
  {
    if Peek(ts).Dot? then Fail(NotModelled)
    else
      match ParseMember(ts, false, d, m)
      case Fail(why) => Fail(why)
      case Ok(c, _, rest) =>
        if !Peek(rest).LParen? then Ok(NewExpr(c, []), false, rest)
        else
          match Items([], rest[1..], d, m)
          case FailList(why) => Fail(why)
          case OkList(args, _, rest1) => Ok(NewExpr(c, args), false, rest1)
  }

  /** The expressions up to a closing parenthesis. */
  function Items(es: seq<Expr>, ts: seq<Token>, d: nat, m: Mode): (r: ParsedList)
    ensures r.OkList? ==> |r.rest| < |ts|
    decreases |ts|, 9
  {
    if Peek(ts).RParen? then OkList(es, es != [], ts[1..])
    else if Peek(ts).Ellipsis? then FailList(NotModelled)
    else
      match ParseAssign(ts, d, m)
      case Fail(why) => FailList(why)
      case Ok(e, _, rest) =>
        if Peek(rest).Comma? then Items(es + [e], rest[1..], d, m)
        else if Peek(rest).RParen? then OkList(es + [e], false, rest[1..])
        else FailList(Unexpected)
  }

  /** The elements up to a closing bracket. */
  function Elements(es: seq<Expr>, ts: seq<Token>, d: nat, m: Mode): (r: ParsedList)
    ensures r.OkList? ==> |r.rest| < |ts|
    decreases |ts|, 9
  {
    if Peek(ts).RBracket? then OkList(es, false, ts[1..])
    else if Peek(ts).Comma? then Elements(es + [Hole], ts[1..], d, m)
    else if Peek(ts).Ellipsis? then FailList(NotModelled)
    else
      match ParseAssign(ts, d, m)
      case Fail(why) => FailList(why)
      case Ok(e, _, rest) =>
        if Peek(rest).Comma? then Elements(es + [e], rest[1..], d, m)
        else if Peek(rest).RBracket? then OkList(es + [e], false, rest[1..])
        else FailList(Unexpected)
  }

  /** What a list in parentheses is, when no arrow follows. */
  function Parenthesised(l: ParsedList): (r: Parsed)
    ensures r.Ok? ==> l.OkList? && r.rest == l.rest
  {
    match l
    case FailList(why) => Fail(why)
    case OkList(es, trailing, rest) =>
      if ArrowNext(rest) then Fail(NotModelled)
      else if es == [] || trailing then Fail(Unexpected)
      else if |es| == 1 then Ok(es[0], true, rest)
      else Ok(Sequence(es), true, rest)
  }

  function ParsePrimary(ts: seq<Token>, d: nat, m: Mode): (r: Parsed)
    ensures r.Ok? ==> |r.rest| < |ts|
    decreases |ts|, 1
  {
    if d >= MAX_DEPTH then Fail(TooDeep)
    else
      match Peek(ts)
      case Ident(name) => Ok(Id(name), false, ts[1..])
      case Lit(l) => Ok(Constant(l), false, ts[1..])
      case This => Ok(ThisExpr, false, ts[1..])
      case True => Ok(BoolLit(true), false, ts[1..])
      case False => Ok(BoolLit(false), false, ts[1..])
      case Null => Ok(NullLit, false, ts[1..])
      case Super => Ok(SuperExpr, false, ts[1..])
      case LParen => Parenthesised(Items([], ts[1..], d + 1, m.(noIn := false)))
      case LBracket =>
        (match Elements([], ts[1..], d + 1, m.(noIn := false))
         case FailList(why) => Fail(why)
         case OkList(es, _, rest) => Ok(ArrayLit(es), false, rest))
      case Op(op) => if op.Slash? then Fail(NotModelled) else Fail(Unexpected)
      case AssignWith(op) => if op.DivBy? then Fail(NotModelled) else Fail(Unexpected)
      case Word(_) => Fail(NotModelled)
      case Foreign => Fail(NotModelled)
      case Chain => Fail(NotModelled)
      case _ => Fail(Unexpected)
  }
}
