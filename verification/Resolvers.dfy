/** The built-in field resolvers (search/resolver.go) and what their predicates mean. */
module Resolvers {
  import opened Options
  import opened Coerce
  import opened Wildcard
  import opened Sql
  import opened SqlSplice
  import opened SqlRenumber

  /**
   `Direct` is DirectColumnResolver.  `Subquery` is SubqueryResolver with the tokens of its
   template cut at each `%s`; other format verbs in a template are not modelled.
   */
  datatype Resolver = Direct(column: string, typ: FieldType) | Subquery(parts: seq<seq<Token>>, typ: FieldType)

  /** A predicate on a column and the values it binds. */
  datatype Condition = Condition(expr: Expr, args: seq<Arg>)

  /** A fragment and the values it binds. */
  datatype Resolved = Resolved(tokens: seq<Token>, args: seq<Arg>)

  // ---- Operators ----

  const COMPARISONS: set<string> :=
    {"eq", "ne", "gt", "gte", "lt", "lte", "like", "ilike", "not_like", "not_ilike"}

  const LIKES: set<string> := {"like", "ilike", "not_like", "not_ilike"}

  function ComparisonExpr(op: string, l: Operand, r: Operand): Expr
    requires op in COMPARISONS
  {
    if op == "eq" then Compare(EqOp, l, r)
    else if op == "ne" then Compare(NeOp, l, r)
    else if op == "gt" then Compare(GtOp, l, r)
    else if op == "gte" then Compare(GeOp, l, r)
    else if op == "lt" then Compare(LtOp, l, r)
    else if op == "lte" then Compare(LeOp, l, r)
    else if op == "like" then Like(false, false, l, r)
    else if op == "ilike" then Like(true, false, l, r)
    else if op == "not_like" then Like(false, true, l, r)
    else Like(true, true, l, r)
  }

  /** The SQL text between column and placeholder (the comparisonSQL table). */
  function ComparisonTokens(op: string): seq<Token>
    requires op in COMPARISONS
  {
    if op == "eq" then [CmpTok(EqOp)]
    else if op == "ne" then [CmpTok(NeOp)]
    else if op == "gt" then [CmpTok(GtOp)]
    else if op == "gte" then [CmpTok(GeOp)]
    else if op == "lt" then [CmpTok(LtOp)]
    else if op == "lte" then [CmpTok(LeOp)]
    else if op == "like" then [LikeTok(false)]
    else if op == "ilike" then [LikeTok(true)]
    else if op == "not_like" then [NotTok, LikeTok(false)]
    else [NotTok, LikeTok(true)]
  }

  // ---- Printing predicates ----

  function OperandTok(x: Operand): Token {
    match x case Col(name) => ColTok(name) case Param(n, cast) => ParamTok(n, cast)
  }

  function OperandToks(xs: seq<Operand>): seq<seq<Token>> {
    seq(|xs|, i requires 0 <= i < |xs| => [OperandTok(xs[i])])
  }

  function NotIf(negated: bool): seq<Token> {
    if negated then [NotTok] else []
  }

  predicate IsLeaf(e: Expr) {
    && !e.Not? && !e.And? && !e.Or? && !e.Exists?
    && (e.In? ==> e.list != [])
  }

  /** What follows the left operand. */
  function TailTokens(e: Expr): seq<Token>
    requires IsLeaf(e)
  {
    match e
    case Compare(op, l, r) => [CmpTok(op), OperandTok(r)]
    case Like(ci, negated, l, r) => NotIf(negated) + [LikeTok(ci), OperandTok(r)]
    case In(negated, l, list) => NotIf(negated) + [InTok, LParen] + JoinTokens(OperandToks(list), Comma) + [RParen]
    case Between(l, lo, hi) => [BetweenTok, OperandTok(lo), AndTok, OperandTok(hi)]
    case IsNull(negated, l) => [IsTok] + NotIf(negated) + [NullTok]
  }

  function LeafTokens(e: Expr): seq<Token>
    requires IsLeaf(e)
  {
    [OperandTok(e.l)] + TailTokens(e)
  }

  lemma OperandParses(x: Operand, rest: seq<Token>)
    ensures ParseOperand([OperandTok(x)] + rest) == Some((x, rest))
  {
    assert ([OperandTok(x)] + rest)[1..] == rest;
  }

  lemma {:induction false} ListParses(xs: seq<Operand>, rest: seq<Token>)
    requires xs != []
    ensures ParseList(JoinTokens(OperandToks(xs), Comma) + [RParen] + rest) == Some((xs, rest))
    decreases |xs|
  {
    hide ParseOperand;
    var ts := JoinTokens(OperandToks(xs), Comma) + [RParen] + rest;
    if |xs| == 1 {
      assert ts == [OperandTok(xs[0])] + ([RParen] + rest);
      OperandParses(xs[0], [RParen] + rest);
      assert ([RParen] + rest)[1..] == rest;
      assert xs == [xs[0]];
    } else {
      var tail := JoinTokens(OperandToks(xs[1..]), Comma) + [RParen] + rest;
      assert OperandToks(xs)[1..] == OperandToks(xs[1..]);
      assert ts == [OperandTok(xs[0])] + ([Comma] + tail);
      OperandParses(xs[0], [Comma] + tail);
      assert ([Comma] + tail)[1..] == tail;
      ListParses(xs[1..], rest);
      assert [xs[0]] + xs[1..] == xs;
    }
  }

  lemma NegatableParses(e: Expr, rest: seq<Token>)
    requires IsLeaf(e) && (e.Like? || e.In?)
    ensures
      var body := if e.Like? then [LikeTok(e.ignoreCase), OperandTok(e.r)]
        else [InTok, LParen] + JoinTokens(OperandToks(e.list), Comma) + [RParen];
      ParseNegatable(e.l, e.negated, body + rest) == Some((e, rest))
  {
    hide ParseOperand, ParseList;
    if e.Like? {
      var ts := [LikeTok(e.ignoreCase), OperandTok(e.r)] + rest;
      assert ts[1..] == [OperandTok(e.r)] + rest;
      OperandParses(e.r, rest);
    } else {
      var list := JoinTokens(OperandToks(e.list), Comma) + [RParen] + rest;
      var ts := [InTok, LParen] + JoinTokens(OperandToks(e.list), Comma) + [RParen] + rest;
      assert ts == [InTok, LParen] + list;
      assert ts[2..] == list;
      ListParses(e.list, rest);
    }
  }

  lemma BetweenParses(l: Operand, lo: Operand, hi: Operand, rest: seq<Token>)
    ensures ParsePredicate(l, [BetweenTok, OperandTok(lo), AndTok, OperandTok(hi)] + rest) ==
      Some((Between(l, lo, hi), rest))
  {
    hide ParseOperand, ParseList;
    var ts := [BetweenTok, OperandTok(lo), AndTok, OperandTok(hi)] + rest;
    var afterLo := [AndTok, OperandTok(hi)] + rest;
    assert ts[1..] == [OperandTok(lo)] + afterLo;
    OperandParses(lo, afterLo);
    assert afterLo[1..] == [OperandTok(hi)] + rest;
    OperandParses(hi, rest);
  }

  lemma CompareParses(op: CmpOp, l: Operand, r: Operand, rest: seq<Token>)
    ensures ParsePredicate(l, [CmpTok(op), OperandTok(r)] + rest) == Some((Compare(op, l, r), rest))
  {
    hide ParseOperand, ParseNegatable;
    assert ([CmpTok(op), OperandTok(r)] + rest)[1..] == [OperandTok(r)] + rest;
    OperandParses(r, rest);
  }

  lemma LikeParses(ci: bool, negated: bool, l: Operand, r: Operand, rest: seq<Token>)
    ensures
      ParsePredicate(l, NotIf(negated) + [LikeTok(ci), OperandTok(r)] + rest) == Some((Like(ci, negated, l, r), rest))
  {
    hide ParseOperand, ParseNegatable;
    var body := [LikeTok(ci), OperandTok(r)] + rest;
    var ts := NotIf(negated) + [LikeTok(ci), OperandTok(r)] + rest;
    NegatableParses(Like(ci, negated, l, r), rest);
    assert if negated then ts[0] == NotTok && ts[1..] == body else ts == body;
  }

  lemma InParses(negated: bool, l: Operand, list: seq<Operand>, rest: seq<Token>)
    requires list != []
    ensures
      var ts := NotIf(negated) + [InTok, LParen] + JoinTokens(OperandToks(list), Comma) + [RParen] + rest;
      ParsePredicate(l, ts) == Some((In(negated, l, list), rest))
  {
    hide ParseOperand, ParseNegatable, JoinTokens;
    var body := [InTok, LParen] + JoinTokens(OperandToks(list), Comma) + [RParen] + rest;
    var ts := NotIf(negated) + [InTok, LParen] + JoinTokens(OperandToks(list), Comma) + [RParen] + rest;
    NegatableParses(In(negated, l, list), rest);
    assert if negated then ts[0] == NotTok && ts[1..] == body else ts == body;
  }

  lemma IsNullParses(negated: bool, l: Operand, rest: seq<Token>)
    ensures ParsePredicate(l, [IsTok] + NotIf(negated) + [NullTok] + rest) == Some((IsNull(negated, l), rest))
  {
    hide ParseOperand, ParseNegatable;
    var ts := [IsTok] + NotIf(negated) + [NullTok] + rest;
    assert ts[1..] == NotIf(negated) + [NullTok] + rest;
    assert if negated then ts[1..][2..] == rest else ts[1..][1..] == rest;
  }

  lemma TailParses(e: Expr, rest: seq<Token>)
    requires IsLeaf(e)
    ensures ParsePredicate(e.l, TailTokens(e) + rest) == Some((e, rest))
  {
    hide ParsePredicate, JoinTokens, NotIf, OperandTok;
    match e
    case Compare(op, l, r) => CompareParses(op, l, r, rest);
    case Like(ci, negated, l, r) => LikeParses(ci, negated, l, r, rest);
    case In(negated, l, list) => InParses(negated, l, list, rest);
    case Between(l, lo, hi) => BetweenParses(l, lo, hi, rest);
    case IsNull(negated, l) => IsNullParses(negated, l, rest);
  }

  lemma LeafParses(e: Expr, rest: seq<Token>)
    requires IsLeaf(e)
    ensures ParsePrimary(LeafTokens(e) + rest) == Some((e, rest))
  {
    hide ParseOr, ParsePredicate, ParseOperand, TailTokens;
    assert LeafTokens(e) + rest == [OperandTok(e.l)] + (TailTokens(e) + rest);
    OperandParses(e.l, TailTokens(e) + rest);
    TailParses(e, rest);
  }

  /** Every predicate on a column, BETWEEN … AND included, is one unbroken condition. */
  lemma LeafReads(e: Expr)
    requires IsLeaf(e)
    ensures IsAtom(LeafTokens(e), e)
  {
    hide ParsePrimary, TailTokens;
    LeafParses(e, []);
    assert LeafTokens(e) + [] == LeafTokens(e);
  }

  // ---- Resolve ----

  function Placeholders(base: nat, count: nat, cast: Cast): seq<Operand> {
    seq(count, i requires 0 <= i < count => Param(base + 1 + i, cast))
  }

  function ResolveDirect(
    parse: DateParser, column: string, typ: FieldType, field: string, op: string, value: Json, base: nat)
    : (r: Result<Condition>)
    ensures r.Ok? ==> IsLeaf(r.value.expr)
  {
    var cast := CastOf(typ);
    if op in COMPARISONS then
      var v :- CoerceScalar(parse, field, typ, value);
      Ok(Condition(ComparisonExpr(op, Col(column), Param(base + 1, cast)), [v]))
    else if op == "in" || op == "not_in" then
      var vals :- CoerceListSpec(parse, field, typ, value);
      if vals == [] then Err(InvalidValueType(field, "non-empty array"))
      else Ok(Condition(In(op == "not_in", Col(column), Placeholders(base, |vals|, cast)), vals))
    else if op == "between" then
      var vals :- CoerceListSpec(parse, field, typ, value);
      if |vals| != 2 then Err(InvalidValueType(field, "two-element array"))
      else Ok(Condition(Between(Col(column), Param(base + 1, cast), Param(base + 2, cast)), vals))
    else if op == "is_null" then Ok(Condition(IsNull(false, Col(column)), []))
    else if op == "is_not_null" then Ok(Condition(IsNull(true, Col(column)), []))
    else Err(UnsupportedOperator(field, op))
  }

  function TemplateTokens(parts: seq<seq<Token>>, n: nat, cast: Cast): seq<Token>
    requires |parts| == 2
  {
    parts[0] + [ParamTok(n, cast)] + parts[1]
  }

  /** The template goes in as it stands, without parentheses. */
  function ResolveSubquery(
    parse: DateParser, parts: seq<seq<Token>>, typ: FieldType, field: string, op: string, value: Json, base: nat)
    : Result<Resolved>
  {
    if |parts| != 2 then Err(BadTemplate(field))
    else if op == "eq" then
      var v :- CoerceScalar(parse, field, typ, value);
      Ok(Resolved(TemplateTokens(parts, base + 1, CastOf(typ)), [v]))
    else Err(UnsupportedOperator(field, op))
  }

  function ResolveSpec(parse: DateParser, res: Resolver, field: string, op: string, value: Json, base: nat)
    : (r: Result<Resolved>)
    ensures r.Ok? ==> r.value.tokens != []
  {
    match res
    case Direct(column, typ) =>
      var c :- ResolveDirect(parse, column, typ, field, op, value, base);
      Ok(Resolved(LeafTokens(c.expr), c.args))
    case Subquery(parts, typ) => ResolveSubquery(parse, parts, typ, field, op, value, base)
  }

  lemma ComparisonPrints(op: string, column: string, n: nat, cast: Cast)
    requires op in COMPARISONS
    ensures
      var e := ComparisonExpr(op, Col(column), Param(n, cast));
      IsLeaf(e) && LeafTokens(e) == [ColTok(column)] + ComparisonTokens(op) + [ParamTok(n, cast)]
  {
  }

  /**
   The resolver as written: binds values by appending to the shared argument list and
   returns the fragment's tokens.
   */
  method Resolve(parse: DateParser, res: Resolver, field: string, op: string, value: Json, args: seq<Arg>)
    returns (frag: Result<seq<Token>>, args': seq<Arg>)
    ensures
      match ResolveSpec(parse, res, field, op, value, |args|)
      case Err(e) => frag == Err(e) && args' == args
      case Ok(r) => frag == Ok(r.tokens) && args' == args + r.args
  {
    hide CoerceScalar, CoerceListSpec;
    args' := args;
    match res {
      case Subquery(parts, typ) =>
        if |parts| != 2 {
          return Err(BadTemplate(field)), args;
        }
        if op != "eq" {
          return Err(UnsupportedOperator(field, op)), args;
        }
        var v := CoerceScalar(parse, field, typ, value);
        if v.Err? {
          return Err(v.error), args;
        }
        args' := args + [v.value];
        frag := Ok(parts[0] + [ParamTok(|args'|, CastOf(typ))] + parts[1]);
      case Direct(column, typ) =>
        if op in COMPARISONS {
          var v := CoerceScalar(parse, field, typ, value);
          if v.Err? {
            return Err(v.error), args;
          }
          args' := args + [v.value];
          frag := Ok([ColTok(column)] + ComparisonTokens(op) + [ParamTok(|args'|, CastOf(typ))]);
          ComparisonPrints(op, column, |args| + 1, CastOf(typ));
        } else if op == "in" || op == "not_in" {
          frag, args' := ResolveIn(parse, column, typ, field, op, value, args);
        } else if op == "between" {
          frag, args' := ResolveBetween(parse, column, typ, field, value, args);
        } else if op == "is_null" {
          assert LeafTokens(IsNull(false, Col(column))) == [ColTok(column), IsTok, NullTok];
          frag := Ok([ColTok(column), IsTok, NullTok]);
        } else if op == "is_not_null" {
          assert LeafTokens(IsNull(true, Col(column))) == [ColTok(column), IsTok, NotTok, NullTok];
          frag := Ok([ColTok(column), IsTok, NotTok, NullTok]);
        } else {
          frag := Err(UnsupportedOperator(field, op));
        }
    }
  }

  /** The IN / NOT IN branch: one placeholder per list element. */
  method ResolveIn(
    parse: DateParser, column: string, typ: FieldType, field: string, op: string, value: Json, args: seq<Arg>)
    returns (frag: Result<seq<Token>>, args': seq<Arg>)
    requires op == "in" || op == "not_in"
    ensures
      match ResolveDirect(parse, column, typ, field, op, value, |args|)
      case Err(e) => frag == Err(e) && args' == args
      case Ok(r) => frag == Ok(LeafTokens(r.expr)) && args' == args + r.args
  {
    hide CoerceScalar, CoerceListSpec;
    args' := args;
    var vals := CoerceList(parse, field, typ, value);
    if vals.Err? {
      return Err(vals.error), args;
    }
    if |vals.value| == 0 {
      return Err(InvalidValueType(field, "non-empty array")), args;
    }
    var phs: seq<seq<Token>> := [];
    for i := 0 to |vals.value|
      invariant args' == args + vals.value[..i]
      invariant phs == OperandToks(Placeholders(|args|, i, CastOf(typ)))
    {
      args' := args' + [vals.value[i]];
      assert vals.value[..i + 1] == vals.value[..i] + [vals.value[i]];
      phs := phs + [[ParamTok(|args'|, CastOf(typ))]];
    }
    assert vals.value[..|vals.value|] == vals.value;
    var keyword := if op == "not_in" then [NotTok, InTok] else [InTok];
    frag := Ok([ColTok(column)] + keyword + [LParen] + JoinTokens(phs, Comma) + [RParen]);
    ghost var e := In(op == "not_in", Col(column), Placeholders(|args|, |vals.value|, CastOf(typ)));
    assert frag.value == LeafTokens(e) by {
      assert keyword + [LParen] == NotIf(op == "not_in") + [InTok, LParen];
      assert frag.value == [ColTok(column)] + ((keyword + [LParen]) + JoinTokens(phs, Comma) + [RParen]);
    }
  }

  method ResolveBetween(parse: DateParser, column: string, typ: FieldType, field: string, value: Json, args: seq<Arg>)
    returns (frag: Result<seq<Token>>, args': seq<Arg>)
    ensures
      match ResolveDirect(parse, column, typ, field, "between", value, |args|)
      case Err(e) => frag == Err(e) && args' == args
      case Ok(r) => frag == Ok(LeafTokens(r.expr)) && args' == args + r.args
  {
    hide CoerceScalar, CoerceListSpec;
    var vals := CoerceList(parse, field, typ, value);
    if vals.Err? {
      return Err(vals.error), args;
    }
    if |vals.value| != 2 {
      return Err(InvalidValueType(field, "two-element array")), args;
    }
    args' := args + [vals.value[0]];
    var lo := ParamTok(|args'|, CastOf(typ));
    args' := args' + [vals.value[1]];
    assert args' == args + vals.value;
    frag := Ok([ColTok(column), BetweenTok, lo, AndTok, ParamTok(|args'|, CastOf(typ))]);
    ghost var e := Between(Col(column), Param(|args| + 1, CastOf(typ)), Param(|args| + 2, CastOf(typ)));
    assert frag.value == LeafTokens(e);
  }

  // ---- What a filter asks for, without SQL ----

  predicate BothText(x: Value, y: Value) {
    IsText(x) && IsText(y)
  }

  predicate TextMatches(env: Env, ignoreCase: bool, x: Value, y: Value) {
    BothText(x, y) && LikeMatch(FoldFor(env, ignoreCase), x.v.s, y.v.s)
  }

  predicate Equals(x: Value, y: Value) {
    SameKind(x, y) && x == y
  }

  predicate Differs(x: Value, y: Value) {
    SameKind(x, y) && x != y
  }

  predicate AtLeast(env: Env, x: Value, y: Value) {
    SameKind(x, y) && (env.less(y, x) || x == y)
  }

  predicate AtMost(env: Env, x: Value, y: Value) {
    SameKind(x, y) && (env.less(x, y) || x == y)
  }

  /** A stored value `x` passes operator `op` against the filter's value `y`; NULL never does. */
  predicate Passes(env: Env, op: string, x: Value, y: Value) {
    if op == "eq" then Equals(x, y)
    else if op == "ne" then Differs(x, y)
    else if op == "gt" then SameKind(x, y) && env.less(y, x)
    else if op == "gte" then AtLeast(env, x, y)
    else if op == "lt" then SameKind(x, y) && env.less(x, y)
    else if op == "lte" then AtMost(env, x, y)
    else if op == "like" then TextMatches(env, false, x, y)
    else if op == "ilike" then TextMatches(env, true, x, y)
    else if op == "not_like" then BothText(x, y) && !TextMatches(env, false, x, y)
    else op == "not_ilike" && BothText(x, y) && !TextMatches(env, true, x, y)
  }

  /** Text next to a stored value of another type is read as that type. */
  function TextBeside(env: Env, x: Value, s: string): Value {
    match x
    case Null => Val(Text(s))
    case UuidVal(_) => UuidVal(env.uuid(s))
    case Val(v) => if v.Text? then Val(Text(s)) else env.infer(x, s)
  }

  /** The filter's value next to `x`: a uuid for a uuid field, otherwise text or the bound value itself. */
  function Beside(env: Env, t: FieldType, x: Value, a: Arg): Value {
    if !a.Text? then Val(a)
    else
      match t
      case FieldUUID => UuidVal(env.uuid(a.s))
      case FieldString | FieldArray => TextBeside(env, x, a.s)
      case _ => Val(a)
  }

  /** The filter's value as the operator sees it next to `x`; a pattern is no value of the column's type. */
  function Compared(env: Env, op: string, t: FieldType, x: Value, a: Arg): Value {
    Beside(env, t, if op in LIKES then Null else x, a)
  }

  function AllBeside(env: Env, t: FieldType, x: Value, vals: seq<Arg>): seq<Value> {
    seq(|vals|, i requires 0 <= i < |vals| => Beside(env, t, x, vals[i]))
  }

  lemma CastsBeside(env: Env, t: FieldType, x: Value, a: Arg)
    ensures Against(env, x, CastOf(t), a) == Beside(env, t, x, a)
    ensures CastValue(env, CastOf(t), a) == Beside(env, t, Null, a)
  {
  }

  /** The row passes the filter, read off the operator's name and what the filter's value stands for. */
  ghost predicate FilterTrue(env: Env, parse: DateParser, res: Resolver, op: string, value: Json, row: Row)
  {
    match res
    case Direct(column, typ) =>
      var x := row(column);
      if op in COMPARISONS then
        exists v :: Denotes(parse, typ, value, v) &&
          Passes(env, op, x, Compared(env, op, typ, x, v))
      else if op == "is_null" then x == Null
      else if op == "is_not_null" then x != Null
      else
        exists vals :: DenotesList(parse, typ, value, vals) &&
          ListPasses(env, op, x, AllBeside(env, typ, x, vals))
    // A template means what it says when it is the whole condition.
    case Subquery(parts, typ) =>
      exists v :: Denotes(parse, typ, value, v) && op == "eq" && |parts| == 2 &&
        Selects(env, TemplateTokens(parts, 1, CastOf(typ)), [v], row)
  }

  ghost predicate ListPasses(env: Env, op: string, x: Value, ys: seq<Value>) {
    if op == "in" then exists i :: 0 <= i < |ys| && Equals(x, ys[i])
    else if op == "not_in" then forall i :: 0 <= i < |ys| ==> Differs(x, ys[i])
    else op == "between" && |ys| == 2 && AtLeast(env, x, ys[0]) && AtMost(env, x, ys[1])
  }

  /** A coerced value is the one value the filter's value stands for. */
  lemma CoercedIsDenoted(parse: DateParser, field: string, t: FieldType, value: Json)
    requires CoerceScalar(parse, field, t, value).Ok?
    ensures forall v :: Denotes(parse, t, value, v) <==> v == CoerceScalar(parse, field, t, value).value
  {
    hide CoerceScalar, Denotes;
    forall v
      ensures Denotes(parse, t, value, v) <==> v == CoerceScalar(parse, field, t, value).value
    {
      CoercionIsExact(parse, field, t, value, v);
    }
  }

  lemma CoercedListIsDenoted(parse: DateParser, field: string, t: FieldType, value: Json)
    requires CoerceListSpec(parse, field, t, value).Ok?
    ensures forall vals :: DenotesList(parse, t, value, vals) <==> vals == CoerceListSpec(parse, field, t, value).value
  {
    hide CoerceListSpec, DenotesList;
    forall vals
      ensures DenotesList(parse, t, value, vals) <==> vals == CoerceListSpec(parse, field, t, value).value
    {
      ListCoercionIsExact(parse, field, t, value, vals);
    }
  }

  // ---- Which filters are taken ----

  /** The operator is one the resolver has, and the value stands for what the operator needs. */
  ghost predicate Accepts(parse: DateParser, res: Resolver, op: string, value: Json) {
    match res
    case Direct(_, typ) =>
      if op in {"eq", "ne", "gt", "gte", "lt", "lte", "like", "ilike", "not_like", "not_ilike"} then
        exists v :: Denotes(parse, typ, value, v)
      else if op in {"in", "not_in"} then exists vals :: DenotesList(parse, typ, value, vals) && vals != []
      else if op == "between" then exists vals :: DenotesList(parse, typ, value, vals) && |vals| == 2
      else op in {"is_null", "is_not_null"}
    case Subquery(parts, typ) => |parts| == 2 && op == "eq" && exists v :: Denotes(parse, typ, value, v)
  }

  lemma ScalarTakenIff(parse: DateParser, field: string, t: FieldType, value: Json)
    ensures CoerceScalar(parse, field, t, value).Ok? <==> exists v :: Denotes(parse, t, value, v)
  {
    hide CoerceScalar, Denotes;
    var r := CoerceScalar(parse, field, t, value);
    if r.Ok? {
      CoercionIsExact(parse, field, t, value, r.value);
    }
    if v :| Denotes(parse, t, value, v) {
      CoercionIsExact(parse, field, t, value, v);
    }
  }

  lemma ListTakenIff(parse: DateParser, field: string, t: FieldType, value: Json)
    ensures
      var r := CoerceListSpec(parse, field, t, value);
      && (r.Ok? && r.value != [] <==> exists vals :: DenotesList(parse, t, value, vals) && vals != [])
      && (r.Ok? && |r.value| == 2 <==> exists vals :: DenotesList(parse, t, value, vals) && |vals| == 2)
  {
    hide CoerceListSpec, DenotesList;
    forall vals
      ensures CoerceListSpec(parse, field, t, value) == Ok(vals) <==> DenotesList(parse, t, value, vals)
    {
      ListCoercionIsExact(parse, field, t, value, vals);
    }
  }

  /** A filter is resolved iff it is acceptable. */
  lemma ResolvesIffAccepted(parse: DateParser, res: Resolver, field: string, op: string, value: Json, base: nat)
    ensures
      var r := ResolveSpec(parse, res, field, op, value, base);
      r.Ok? <==> Accepts(parse, res, op, value)
  {
    hide CoerceScalar, CoerceListSpec, Denotes, DenotesList, LeafTokens;
    ScalarTakenIff(parse, field, res.typ, value);
    ListTakenIff(parse, field, res.typ, value);
  }

  predicate HasOperator(res: Resolver, op: string) {
    match res
    case Direct(_, _) =>
      op in {
        "eq", "ne", "gt", "gte", "lt", "lte", "like", "ilike", "not_like", "not_ilike",
        "in", "not_in", "between", "is_null", "is_not_null"}
    case Subquery(_, _) => op == "eq"
  }

  /** What a refusal says: a bad template before an unknown operator, and that before a bad value. */
  lemma ResolveErrors(parse: DateParser, res: Resolver, field: string, op: string, value: Json, base: nat)
    ensures
      var r := ResolveSpec(parse, res, field, op, value, base);
      r.Err? ==>
        if res.Subquery? && |res.parts| != 2 then r.error == BadTemplate(field)
        else if !HasOperator(res, op) then r.error == UnsupportedOperator(field, op)
        else r.error.InvalidValueType? && r.error.field == field
  {
    hide CoerceScalar, CoerceAll, LeafTokens, ComparisonExpr;
    ScalarErrorNamesField(parse, field, res.typ, value);
    if ListItems(field, value).Ok? {
      ListErrorNamesField(parse, field, res.typ, ListItems(field, value).value);
    }
  }

  /** A list of the wrong size is refused as such: IN takes at least one value, BETWEEN two. */
  lemma ListSizeErrors(
    parse: DateParser, column: string, typ: FieldType, field: string, op: string, value: Json, vals: seq<Arg>,
    base: nat)
    requires DenotesList(parse, typ, value, vals)
    ensures
      var r := ResolveSpec(parse, Direct(column, typ), field, op, value, base);
      && (op in {"in", "not_in"} && vals == [] ==> r == Err(InvalidValueType(field, "non-empty array")))
      && (op == "between" && |vals| != 2 ==> r == Err(InvalidValueType(field, "two-element array")))
  {
    hide CoerceScalar, CoerceListSpec, DenotesList, LeafTokens;
    ListCoercionIsExact(parse, field, typ, value, vals);
  }

  lemma ComparisonMeaning(env: Env, op: string, column: string, n: nat, t: FieldType, row: Row, args: seq<Arg>)
    requires op in COMPARISONS && 1 <= n <= |args|
    ensures Eval(env, ComparisonExpr(op, Col(column), Param(n, CastOf(t))), row, args) == True <==>
      Passes(env, op, row(column), Compared(env, op, t, row(column), args[n - 1]))
  {
    hide LikeMatch, Against, CastValue, SameKind, Beside, CastOf;
    CastsBeside(env, t, row(column), args[n - 1]);
  }

  /** Argument list `args` holds `vals` right after its first `base` values. */
  predicate BoundAt(args: seq<Arg>, base: nat, vals: seq<Arg>) {
    base + |vals| <= |args| && args[base..base + |vals|] == vals
  }

  lemma PlaceholderValue(env: Env, x: Value, args: seq<Arg>, base: nat, vals: seq<Arg>, i: nat, cast: Cast, row: Row)
    requires BoundAt(args, base, vals) && i < |vals|
    ensures args[base + i] == vals[i]
    ensures EvalAgainst(env, x, Param(base + 1 + i, cast), row, args) == Against(env, x, cast, vals[i])
  {
    assert args[base..base + |vals|][i] == args[base + i];
  }

  /** IN is TRUE iff some listed value is equal; FALSE iff all are known to differ. */
  lemma {:induction false} InMeaning(env: Env, x: Value, list: seq<Operand>, ys: seq<Value>, row: Row, args: seq<Arg>)
    requires |list| == |ys| && forall i :: 0 <= i < |list| ==> EvalAgainst(env, x, list[i], row, args) == ys[i]
    ensures InValues(env, x, list, row, args) == True <==> exists i :: 0 <= i < |ys| && Equals(x, ys[i])
    ensures InValues(env, x, list, row, args) == False <==> forall i :: 0 <= i < |ys| ==> Differs(x, ys[i])
  {
    hide EvalAgainst;
    if list == [] {
    } else {
      var tail := ys[1..];
      InMeaning(env, x, list[1..], tail, row, args);
      assert forall i :: 0 <= i < |tail| ==> tail[i] == ys[i + 1];
      assert forall i :: 0 < i < |ys| ==> ys[i] == tail[i - 1];
    }
  }

  lemma ListMeaning(
    env: Env, op: string, column: string, base: nat, vals: seq<Arg>, t: FieldType, row: Row, args: seq<Arg>)
    requires (op == "in" || op == "not_in") && BoundAt(args, base, vals)
    ensures
      Eval(env, In(op == "not_in", Col(column), Placeholders(base, |vals|, CastOf(t))), row, args) == True <==>
      ListPasses(env, op, row(column), AllBeside(env, t, row(column), vals))
  {
    hide EvalAgainst, Against, Beside, CastOf;
    var x := row(column);
    var list, ys := Placeholders(base, |vals|, CastOf(t)), AllBeside(env, t, x, vals);
    forall i | 0 <= i < |list|
      ensures EvalAgainst(env, x, list[i], row, args) == ys[i]
    {
      PlaceholderValue(env, x, args, base, vals, i, CastOf(t), row);
      CastsBeside(env, t, x, vals[i]);
    }
    InMeaning(env, x, list, ys, row, args);
  }

  lemma BetweenMeaning(env: Env, column: string, base: nat, vals: seq<Arg>, t: FieldType, row: Row, args: seq<Arg>)
    requires |vals| == 2 && BoundAt(args, base, vals)
    ensures
      Eval(env, Between(Col(column), Param(base + 1, CastOf(t)), Param(base + 2, CastOf(t))), row, args) == True <==>
      ListPasses(env, "between", row(column), AllBeside(env, t, row(column), vals))
  {
    hide EvalAgainst, Against, Beside, CastOf;
    PlaceholderValue(env, row(column), args, base, vals, 0, CastOf(t), row);
    PlaceholderValue(env, row(column), args, base, vals, 1, CastOf(t), row);
    CastsBeside(env, t, row(column), vals[0]);
    CastsBeside(env, t, row(column), vals[1]);
  }

  /** The resolved predicate is TRUE on exactly the rows the filter asks for. */
  lemma DirectMeaning(
    env: Env, parse: DateParser, column: string, typ: FieldType, field: string, op: string, value: Json,
    base: nat, row: Row, args: seq<Arg>)
    requires ResolveDirect(parse, column, typ, field, op, value, base).Ok?
    requires BoundAt(args, base, ResolveDirect(parse, column, typ, field, op, value, base).value.args)
    ensures
      Eval(env, ResolveDirect(parse, column, typ, field, op, value, base).value.expr, row, args) == True <==>
      FilterTrue(env, parse, Direct(column, typ), op, value, row)
  {
    hide CoerceScalar, CoerceListSpec, Denotes, DenotesList, Passes, ListPasses, ComparisonExpr, Against, Beside,
      CastOf;
    var vals := ResolveDirect(parse, column, typ, field, op, value, base).value.args;
    if op in COMPARISONS {
      CoercedIsDenoted(parse, field, typ, value);
      PlaceholderValue(env, row(column), args, base, vals, 0, CastOf(typ), row);
      ComparisonMeaning(env, op, column, base + 1, typ, row, args);
    } else if op == "in" || op == "not_in" {
      CoercedListIsDenoted(parse, field, typ, value);
      ListMeaning(env, op, column, base, vals, typ, row, args);
    } else if op == "between" {
      CoercedListIsDenoted(parse, field, typ, value);
      BetweenMeaning(env, column, base, vals, typ, row, args);
    }
  }

  // ---- Templates ----

  predicate NoParams(ts: seq<Token>) {
    forall i :: 0 <= i < |ts| ==> !ts[i].ParamTok?
  }

  /** The template is a condition by itself and names no placeholder of its own. */
  predicate IsConditionTemplate(parts: seq<seq<Token>>, typ: FieldType) {
    |parts| == 2 ==>
      NoParams(parts[0]) && NoParams(parts[1]) && Disjuncts(TemplateTokens(parts, 1, CastOf(typ))).Some?
  }

  /** And it has no OR outside parentheses. */
  predicate HasNoTopLevelOr(parts: seq<seq<Token>>, typ: FieldType)
    requires IsConditionTemplate(parts, typ)
  {
    |parts| == 2 ==> |Disjuncts(TemplateTokens(parts, 1, CastOf(typ))).value| == 1
  }

  lemma TemplateRenumbers(parts: seq<seq<Token>>, m: nat, n: nat, cast: Cast)
    requires |parts| == 2 && NoParams(parts[0]) && NoParams(parts[1])
    ensures Renumber(TemplateTokens(parts, n, cast), m) == TemplateTokens(parts, m, cast)
  {
  }

  /** Wherever its placeholder is numbered, the template has the same disjuncts up to that number. */
  lemma TemplateReads(parts: seq<seq<Token>>, typ: FieldType, m: nat)
    requires |parts| == 2 && IsConditionTemplate(parts, typ)
    ensures
      var gs := Disjuncts(TemplateTokens(parts, 1, CastOf(typ))).value;
      Disjuncts(TemplateTokens(parts, m, CastOf(typ))) == Some(RenumberGroups(gs, m)) && RenumberGroups(gs, 1) == gs
  {
    hide Disjuncts;
    var ts := TemplateTokens(parts, 1, CastOf(typ));
    TemplateRenumbers(parts, m, 1, CastOf(typ));
    TemplateRenumbers(parts, 1, 1, CastOf(typ));
    DisjunctsRenumber(ts, m);
    DisjunctsRenumber(ts, 1);
  }

  lemma TemplateMeaning(
    env: Env, parts: seq<seq<Token>>, typ: FieldType, v: Arg, m: nat, row: Row, args: seq<Arg>)
    requires |parts| == 2 && IsConditionTemplate(parts, typ) && 1 <= m <= |args| && args[m - 1] == v
    ensures Disjuncts(TemplateTokens(parts, m, CastOf(typ))).Some?
    ensures
      SomeGroupTrue(env, Disjuncts(TemplateTokens(parts, m, CastOf(typ))).value, row, args) <==>
      Selects(env, TemplateTokens(parts, 1, CastOf(typ)), [v], row)
  {
    hide Disjuncts, Selects, SomeGroupTrue;
    TemplateReads(parts, typ, m);
    var ts := TemplateTokens(parts, 1, CastOf(typ));
    GroupsMeaningKept(env, Disjuncts(ts).value, row, args, m, [v], 1);
    SelectsIffSomeGroup(env, ts, [v], row);
  }

  // ---- Any resolver ----

  predicate ReadsAsCondition(res: Resolver) {
    res.Subquery? ==> IsConditionTemplate(res.parts, res.typ)
  }

  predicate ReadsAsOneDisjunct(res: Resolver) {
    ReadsAsCondition(res) && (res.Subquery? ==> HasNoTopLevelOr(res.parts, res.typ))
  }

  /** A resolved fragment is a condition by itself, with one disjunct unless a template brings more. */
  lemma ResolvedReads(parse: DateParser, res: Resolver, field: string, op: string, value: Json, base: nat)
    requires ResolveSpec(parse, res, field, op, value, base).Ok? && ReadsAsCondition(res)
    ensures
      var r := Disjuncts(ResolveSpec(parse, res, field, op, value, base).value.tokens);
      r.Some? && (|r.value| == 1 <==> ReadsAsOneDisjunct(res))
  {
    hide CoerceScalar, ResolveDirect, Disjuncts, LeafTokens;
    match res
    case Direct(column, typ) =>
      var e := ResolveDirect(parse, column, typ, field, op, value, base).value.expr;
      LeafReads(e);
      AtomReads(LeafTokens(e), e);
    case Subquery(parts, typ) =>
      TemplateReads(parts, typ, base + 1);
  }

  /** It is TRUE of exactly the rows the filter asks for. */
  lemma ResolvedMeaning(
    env: Env, parse: DateParser, res: Resolver, field: string, op: string, value: Json, base: nat, row: Row,
    args: seq<Arg>)
    requires ResolveSpec(parse, res, field, op, value, base).Ok? && ReadsAsCondition(res)
    requires BoundAt(args, base, ResolveSpec(parse, res, field, op, value, base).value.args)
    ensures
      var r := Disjuncts(ResolveSpec(parse, res, field, op, value, base).value.tokens);
      && r.Some?
      && (SomeGroupTrue(env, r.value, row, args) <==> FilterTrue(env, parse, res, op, value, row))
  {
    hide CoerceScalar, Denotes, CoerceListSpec, ResolveDirect, Disjuncts, LeafTokens, Selects, Eval;
    match res
    case Direct(column, typ) =>
      var e := ResolveDirect(parse, column, typ, field, op, value, base).value.expr;
      LeafReads(e);
      AtomReads(LeafTokens(e), e);
      AtomMeaning(env, e, row, args);
      DirectMeaning(env, parse, column, typ, field, op, value, base, row, args);
    case Subquery(parts, typ) =>
      var v := CoerceScalar(parse, field, typ, value).value;
      CoercedIsDenoted(parse, field, typ, value);
      PlaceholderValue(env, Null, args, base, [v], 0, CastOf(typ), row);
      TemplateMeaning(env, parts, typ, v, base + 1, row, args);
  }
}
