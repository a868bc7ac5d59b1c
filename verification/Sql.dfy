/**
 A reading of SQL conditions: tokens, a recursive-descent parser with PostgreSQL's operator
 precedence (PostgreSQL documentation, section 4.1.6) and an evaluator in SQL's three-valued
 logic.  Text that is not parsed stands only inside the parentheses of an EXISTS.
 */
module Sql {
  import opened Options
  import opened Coerce
  import opened Wildcard

  datatype CmpOp = EqOp | NeOp | GtOp | GeOp | LtOp | LeOp

  /** `Param` is `$n` with its cast: `::` binds tighter than every other operator. */
  datatype Token =
    | ColTok(name: string)
    | ParamTok(n: nat, cast: Cast)
    | CmpTok(op: CmpOp)
    | LikeTok(ignoreCase: bool)
    | NotTok | InTok | BetweenTok | AndTok | OrTok | IsTok | NullTok
    | LParen | RParen | Comma | ExistsTok
    | RawTok(text: string)

  datatype Operand = Col(name: string) | Param(n: nat, cast: Cast)

  datatype Expr =
    | Compare(op: CmpOp, l: Operand, r: Operand)
    | Like(ignoreCase: bool, negated: bool, l: Operand, r: Operand)
    | In(negated: bool, l: Operand, list: seq<Operand>)
    | Between(l: Operand, lo: Operand, hi: Operand)
    | IsNull(negated: bool, l: Operand)
    | Exists(body: seq<Token>)
    | Not(e: Expr)
    | And(a: Expr, b: Expr)
    | Or(a: Expr, b: Expr)

  // ---- Parser ----

  type Parsed<T> = Option<(T, seq<Token>)>

  function ParseOperand(ts: seq<Token>): (r: Parsed<Operand>)
    ensures r.Some? ==> |r.value.1| < |ts|
  {
    if ts == [] then None
    else
      match ts[0]
      case ColTok(name) => Some((Col(name), ts[1..]))
      case ParamTok(n, cast) => Some((Param(n, cast), ts[1..]))
      case _ => None
  }

  /** operand {"," operand} ")" */
  function ParseList(ts: seq<Token>): (r: Parsed<seq<Operand>>)
    ensures r.Some? ==> |r.value.1| < |ts|
    decreases |ts|
  {
    match ParseOperand(ts)
    case None => None
    case Some((x, rest)) =>
      if rest == [] then None
      else if rest[0] == RParen then Some(([x], rest[1..]))
      else if rest[0] == Comma then
        (match ParseList(rest[1..])
         case None => None
         case Some((xs, rest')) => Some(([x] + xs, rest')))
      else None
  }

  /** LIKE, IN and BETWEEN after their optional NOT. */
  function ParseNegatable(l: Operand, negated: bool, ts: seq<Token>): (r: Parsed<Expr>)
    ensures r.Some? ==> |r.value.1| < |ts|
  {
    if ts == [] then None
    else
      match ts[0]
      case LikeTok(ci) =>
        (match ParseOperand(ts[1..])
         case None => None
         case Some((x, rest)) => Some((Like(ci, negated, l, x), rest)))
      case InTok =>
        if |ts| < 2 || ts[1] != LParen then None
        else
          (match ParseList(ts[2..])
           case None => None
           case Some((xs, rest)) => Some((In(negated, l, xs), rest)))
      case BetweenTok =>
        // The first AND after BETWEEN belongs to it.
        (match ParseOperand(ts[1..])
         case None => None
         case Some((lo, rest)) =>
           if rest == [] || rest[0] != AndTok then None
           else
             (match ParseOperand(rest[1..])
              case None => None
              case Some((hi, rest')) => Some((if negated then Not(Between(l, lo, hi)) else Between(l, lo, hi), rest'))))
      case _ => None
  }

  /** [NOT] NULL after IS. */
  function ParseNullTest(l: Operand, ts: seq<Token>): (r: Parsed<Expr>)
    ensures r.Some? ==> |r.value.1| < |ts|
  {
    if |ts| >= 1 && ts[0] == NullTok then Some((IsNull(false, l), ts[1..]))
    else if |ts| >= 2 && ts[0] == NotTok && ts[1] == NullTok then Some((IsNull(true, l), ts[2..]))
    else None
  }

  function ParsePredicate(l: Operand, ts: seq<Token>): (r: Parsed<Expr>)
    ensures r.Some? ==> |r.value.1| < |ts|
  {
    if ts == [] then None
    else
      match ts[0]
      case CmpTok(op) =>
        (match ParseOperand(ts[1..])
         case None => None
         case Some((x, rest)) => Some((Compare(op, l, x), rest)))
      case IsTok => ParseNullTest(l, ts[1..])
      case NotTok => ParseNegatable(l, true, ts[1..])
      case _ => ParseNegatable(l, false, ts)
  }

  /** Anything up to the matching right parenthesis. */
  function ParseBody(ts: seq<Token>): (r: Parsed<seq<Token>>)
    ensures r.Some? ==> |r.value.1| < |ts|
    decreases |ts|
  {
    if ts == [] then None
    else if ts[0] == RParen then Some(([], ts[1..]))
    else if ts[0] == LParen then
      match ParseBody(ts[1..])
      case None => None
      case Some((inner, rest)) =>
        (match ParseBody(rest)
         case None => None
         case Some((more, rest')) => Some(([LParen] + inner + [RParen] + more, rest')))
    else
      match ParseBody(ts[1..])
      case None => None
      case Some((more, rest)) => Some(([ts[0]] + more, rest))
  }

  /** A parenthesised condition, an EXISTS, or an operand with its predicate. */
  function ParsePrimary(ts: seq<Token>): (r: Parsed<Expr>)
    ensures r.Some? ==> |r.value.1| < |ts|
    decreases |ts|, 0
  {
    if ts == [] then None
    else if ts[0] == LParen then
      match ParseOr(ts[1..])
      case None => None
      case Some((gs, rest)) => if rest != [] && rest[0] == RParen then Some((Combine(gs), rest[1..])) else None
    else if ts[0] == ExistsTok then
      if |ts| < 2 || ts[1] != LParen then None
      else
        match ParseBody(ts[2..])
        case None => None
        case Some((body, rest)) => Some((Exists(body), rest))
    else
      match ParseOperand(ts)
      case None => None
      case Some((l, rest)) => ParsePredicate(l, rest)
  }

  /** NOT binds tighter than AND, looser than every predicate. */
  function ParseNot(ts: seq<Token>): (r: Parsed<Expr>)
    ensures r.Some? ==> |r.value.1| < |ts|
    decreases |ts|, 1
  {
    if ts != [] && ts[0] == NotTok then
      match ParseNot(ts[1..])
      case None => None
      case Some((e, rest)) => Some((Not(e), rest))
    else ParsePrimary(ts)
  }

  /** The conjuncts of a run of ANDs. */
  function ParseAnd(ts: seq<Token>): (r: Parsed<seq<Expr>>)
    ensures r.Some? ==> |r.value.1| < |ts| && r.value.0 != []
    decreases |ts|, 2
  {
    match ParseNot(ts)
    case None => None
    case Some((a, rest)) =>
      if rest != [] && rest[0] == AndTok then
        match ParseAnd(rest[1..])
        case None => None
        case Some((es, rest')) => Some(([a] + es, rest'))
      else Some(([a], rest))
  }

  /** OR binds loosest: the disjuncts, each with its conjuncts. */
  function ParseOr(ts: seq<Token>): (r: Parsed<seq<seq<Expr>>>)
    ensures r.Some? ==> |r.value.1| < |ts| && IsDisjunction(r.value.0)
    decreases |ts|, 3
  {
    match ParseAnd(ts)
    case None => None
    case Some((es, rest)) =>
      if rest != [] && rest[0] == OrTok then
        match ParseOr(rest[1..])
        case None => None
        case Some((gs, rest')) => Some(([es] + gs, rest'))
      else Some(([es], rest))
  }

  predicate IsDisjunction(gs: seq<seq<Expr>>) {
    gs != [] && forall i :: 0 <= i < |gs| ==> gs[i] != []
  }

  function AndChain(es: seq<Expr>): Expr
    requires es != []
  {
    if |es| == 1 then es[0] else And(es[0], AndChain(es[1..]))
  }

  function OrChain(es: seq<Expr>): Expr
    requires es != []
  {
    if |es| == 1 then es[0] else Or(es[0], OrChain(es[1..]))
  }

  function Combine(gs: seq<seq<Expr>>): Expr
    requires IsDisjunction(gs)
  {
    OrChain(seq(|gs|, i requires 0 <= i < |gs| => AndChain(gs[i])))
  }

  /** The top-level disjuncts of a whole condition. */
  function Disjuncts(ts: seq<Token>): (r: Option<seq<seq<Expr>>>)
    ensures r.Some? ==> IsDisjunction(r.value)
  {
    match ParseOr(ts)
    case None => None
    case Some((gs, rest)) => if rest == [] then Some(gs) else None
  }

  /** A whole condition. */
  function Parse(ts: seq<Token>): Option<Expr> {
    match Disjuncts(ts)
    case None => None
    case Some(gs) => Some(Combine(gs))
  }

  // ---- Evaluator ----

  datatype Truth = True | False | Unknown

  /** A column value. */
  datatype Value = Null | Val(v: Arg) | UuidVal(s: string)

  type Row = string -> Value

  /**
   What the database supplies: an order on values of one kind (text order depends on the
   collation), case folding for ILIKE, the canonical form of a uuid, how it reads uncast
   text where a value of another type is expected, and whether a sub-query finds a row.
   */
  datatype Env = Env(
    less: (Value, Value) -> bool,
    fold: char -> char,
    uuid: string -> string,
    infer: (Value, string) -> Value,
    finds: (seq<BodyPart>, Row) -> bool)

  /** A sub-query's text with the values of its placeholders. */
  datatype BodyPart = Code(tok: Token) | Bound(v: Value)

  function And3(a: Truth, b: Truth): Truth {
    if a == False || b == False then False
    else if a == True && b == True then True
    else Unknown
  }

  function Or3(a: Truth, b: Truth): Truth {
    if a == True || b == True then True
    else if a == False && b == False then False
    else Unknown
  }

  function Not3(a: Truth): Truth {
    match a case True => False case False => True case Unknown => Unknown
  }

  function Known(b: bool): Truth {
    if b then True else False
  }

  predicate SameKind(x: Value, y: Value) {
    match x
    case Null => false
    case UuidVal(_) => y.UuidVal?
    case Val(a) =>
      y.Val? &&
      match a
      case Text(_) => y.v.Text?
      case Int(_) => y.v.Int?
      case Bool(_) => y.v.Bool?
      case Time(_) => y.v.Time?
  }

  function CastValue(env: Env, cast: Cast, a: Arg): Value {
    if cast == CastUuid && a.Text? then UuidVal(env.uuid(a.s)) else Val(a)
  }

  function EvalOperand(env: Env, x: Operand, row: Row, args: seq<Arg>): Value {
    match x
    case Col(name) => row(name)
    case Param(n, cast) => if 1 <= n <= |args| then CastValue(env, cast, args[n - 1]) else Null
  }

  predicate IsText(x: Value) {
    x.Val? && x.v.Text?
  }

  /** A bound value next to `x`: an uncast placeholder takes the type of the other side. */
  function Against(env: Env, x: Value, cast: Cast, a: Arg): Value {
    if cast != NoCast || !a.Text? || x == Null || IsText(x) then CastValue(env, cast, a)
    else if x.UuidVal? then UuidVal(env.uuid(a.s))
    else env.infer(x, a.s)
  }

  function EvalAgainst(env: Env, x: Value, y: Operand, row: Row, args: seq<Arg>): Value {
    match y
    case Col(name) => row(name)
    case Param(n, cast) => if 1 <= n <= |args| then Against(env, x, cast, args[n - 1]) else Null
  }

  /** Comparison of two values; NULL, or values of different kinds, gives Unknown. */
  function CompareValues(env: Env, op: CmpOp, x: Value, y: Value): Truth {
    if !SameKind(x, y) then Unknown
    else
      match op
      case EqOp => Known(x == y)
      case NeOp => Known(x != y)
      case LtOp => Known(env.less(x, y))
      case LeOp => Known(env.less(x, y) || x == y)
      case GtOp => Known(env.less(y, x))
      case GeOp => Known(env.less(y, x) || x == y)
  }

  function FoldFor(env: Env, ignoreCase: bool): char -> char {
    if ignoreCase then env.fold else c => c
  }

  function LikeValues(env: Env, ignoreCase: bool, x: Value, y: Value): Truth {
    if IsText(x) && IsText(y)
    then Known(LikeMatch(FoldFor(env, ignoreCase), x.v.s, y.v.s))
    else Unknown
  }

  function InValues(env: Env, x: Value, list: seq<Operand>, row: Row, args: seq<Arg>): Truth {
    if list == [] then False
    else
      var first := CompareValues(env, EqOp, x, EvalAgainst(env, x, list[0], row, args));
      Or3(first, InValues(env, x, list[1..], row, args))
  }

  function Negate(negated: bool, t: Truth): Truth {
    if negated then Not3(t) else t
  }

  function BodyParts(env: Env, body: seq<Token>, args: seq<Arg>): seq<BodyPart> {
    seq(|body|, i requires 0 <= i < |body| =>
      match body[i]
      case ParamTok(n, cast) => Bound(if 1 <= n <= |args| then CastValue(env, cast, args[n - 1]) else Null)
      case tok => Code(tok))
  }

  function Eval(env: Env, e: Expr, row: Row, args: seq<Arg>): Truth {
    match e
    case Compare(op, l, r) =>
      var x, y := EvalOperand(env, l, row, args), EvalOperand(env, r, row, args);
      CompareValues(env, op, EvalAgainst(env, y, l, row, args), EvalAgainst(env, x, r, row, args))
    case Like(ci, negated, l, r) =>
      Negate(negated, LikeValues(env, ci, EvalOperand(env, l, row, args), EvalOperand(env, r, row, args)))
    case In(negated, l, list) => Negate(negated, InValues(env, EvalOperand(env, l, row, args), list, row, args))
    case Between(l, lo, hi) =>
      var x := EvalOperand(env, l, row, args);
      And3(
        CompareValues(env, GeOp, x, EvalAgainst(env, x, lo, row, args)),
        CompareValues(env, LeOp, x, EvalAgainst(env, x, hi, row, args)))
    case IsNull(negated, l) => Negate(negated, Known(EvalOperand(env, l, row, args) == Null))
    case Exists(body) => Known(env.finds(BodyParts(env, body, args), row))
    case Not(a) => Not3(Eval(env, a, row, args))
    case And(a, b) => And3(Eval(env, a, row, args), Eval(env, b, row, args))
    case Or(a, b) => Or3(Eval(env, a, row, args), Eval(env, b, row, args))
  }

  /** A row is selected when the condition is absent, or is TRUE (not Unknown). */
  predicate Selects(env: Env, where: seq<Token>, args: seq<Arg>, row: Row) {
    where == [] || (Parse(where).Some? && Eval(env, Parse(where).value, row, args) == True)
  }

  // ---- Connectives ----

  /** Fragments with a connective between neighbours. */
  function JoinTokens(parts: seq<seq<Token>>, sep: Token): seq<Token> {
    if parts == [] then []
    else if |parts| == 1 then parts[0]
    else parts[0] + [sep] + JoinTokens(parts[1..], sep)
  }

  function Parenthesised(ts: seq<Token>): seq<Token> {
    [LParen] + ts + [RParen]
  }

  lemma {:induction false} AndChainTrue(env: Env, es: seq<Expr>, row: Row, args: seq<Arg>)
    requires es != []
    ensures Eval(env, AndChain(es), row, args) == True <==>
      forall i :: 0 <= i < |es| ==> Eval(env, es[i], row, args) == True
  {
    if |es| <= 1 {
    } else {
      var tail := es[1..];
      AndChainTrue(env, tail, row, args);
      assert forall i :: 0 <= i < |tail| ==> tail[i] == es[i + 1];
      assert forall i :: 0 < i < |es| ==> es[i] == tail[i - 1];
    }
  }

  lemma {:induction false} OrChainTrue(env: Env, es: seq<Expr>, row: Row, args: seq<Arg>)
    requires es != []
    ensures Eval(env, OrChain(es), row, args) == True <==>
      exists i :: 0 <= i < |es| && Eval(env, es[i], row, args) == True
  {
    if |es| <= 1 {
    } else {
      var tail := es[1..];
      OrChainTrue(env, tail, row, args);
      assert forall i :: 0 <= i < |tail| ==> tail[i] == es[i + 1];
      assert forall i :: 0 < i < |es| ==> es[i] == tail[i - 1];
    }
  }

  /** Every conjunct is TRUE. */
  ghost predicate GroupTrue(env: Env, es: seq<Expr>, row: Row, args: seq<Arg>) {
    forall i :: 0 <= i < |es| ==> Eval(env, es[i], row, args) == True
  }

  ghost predicate SomeGroupTrue(env: Env, gs: seq<seq<Expr>>, row: Row, args: seq<Arg>) {
    exists j :: 0 <= j < |gs| && GroupTrue(env, gs[j], row, args)
  }

  /** A condition is TRUE iff all conjuncts of some disjunct are. */
  lemma CombineTrue(env: Env, gs: seq<seq<Expr>>, row: Row, args: seq<Arg>)
    requires IsDisjunction(gs)
    ensures Eval(env, Combine(gs), row, args) == True <==> SomeGroupTrue(env, gs, row, args)
  {
    hide Eval;
    var es := seq(|gs|, i requires 0 <= i < |gs| => AndChain(gs[i]));
    OrChainTrue(env, es, row, args);
    forall j | 0 <= j < |gs|
      ensures Eval(env, es[j], row, args) == True <==> GroupTrue(env, gs[j], row, args)
    {
      AndChainTrue(env, gs[j], row, args);
    }
  }

  lemma SelectsIffSomeGroup(env: Env, where: seq<Token>, args: seq<Arg>, row: Row)
    requires where != [] && Disjuncts(where).Some?
    ensures Selects(env, where, args, row) <==> SomeGroupTrue(env, Disjuncts(where).value, row, args)
  {
    hide ParseOr, Eval, Combine;
    CombineTrue(env, Disjuncts(where).value, row, args);
  }
}
