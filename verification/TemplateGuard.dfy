/**
 What still holds when a sub-query template has an OR outside parentheses: every requested
 row is selected, and the clause keeps to the tenant iff there is no such OR, as soon as what
 follows it can hold and does not look at the tenant column.
 */
module TemplateGuard {
  import opened Options
  import opened Coerce
  import opened Sql
  import opened SqlSplice
  import opened SearchCompiler
  import opened SearchMeaning

  // ---- An OR can only select more ----

  /** A TRUE disjunct on each side leaves one in the spliced condition. */
  lemma SpliceKeepsTrue(env: Env, a: seq<seq<Expr>>, b: seq<seq<Expr>>, row: Row, args: seq<Arg>)
    requires IsDisjunction(a) && IsDisjunction(b)
    requires SomeGroupTrue(env, a, row, args) && SomeGroupTrue(env, b, row, args)
    ensures SomeGroupTrue(env, Splice(a, b), row, args)
  {
    hide GroupTrue;
    var i :| 0 <= i < |a| && GroupTrue(env, a[i], row, args);
    var j :| 0 <= j < |b| && GroupTrue(env, b[j], row, args);
    var all := Splice(a, b);
    if i < |a| - 1 {
      assert all[i] == a[i];
    } else if j > 0 {
      assert all[|a| - 1 + j] == b[j];
    } else {
      assert all[|a| - 1] == a[i] + b[j];
      GroupTrueConcat(env, a[i], b[j], row, args);
    }
  }

  lemma {:induction false} SpliceAllKeepsTrue(env: Env, rs: seq<seq<seq<Expr>>>, row: Row, args: seq<Arg>)
    requires AllDisjunctions(rs) && forall i :: 0 <= i < |rs| ==> SomeGroupTrue(env, rs[i], row, args)
    ensures SomeGroupTrue(env, SpliceAll(rs), row, args)
    decreases |rs|
  {
    hide SomeGroupTrue;
    if |rs| == 1 {
      assert SpliceAll(rs) == rs[0];
    } else {
      SpliceAllKeepsTrue(env, rs[1..], row, args);
      SpliceKeepsTrue(env, rs[0], SpliceAll(rs[1..]), row, args);
    }
  }

  /** For any templates that are conditions, every row the request asks for is selected. */
  lemma RequestedRowsAreSelected(
    env: Env, go: Go, cfg: ResourceConfig, req: RequestBody, tenant: Option<string>, cols: seq<string>,
    pieces: seq<Piece>, row: Row)
    requires IsSearchColumns(cfg, cols) && CompilePieces(go, cfg, req, tenant, cols) == Ok(pieces)
    requires TemplatesRead(cfg, req.filters)
    ensures RequestTrue(env, go, cfg, req, tenant, row) ==>
      Selects(env, JoinTokens(TokensOf(pieces), AndTok), ArgsOf(pieces), row)
  {
    hide *;
    RequestIsAllPieces(env, go, cfg, req, tenant, cols, pieces, row);
    if pieces == [] {
      NothingSelectsAll(env, row);
    } else if RequestTrue(env, go, cfg, req, tenant, row) {
      CompiledReadable(go, cfg, req, tenant, cols, pieces);
      PiecesTrueByReadings(env, pieces, row, ArgsOf(pieces));
      SelectsBySplice(env, pieces, row);
      SpliceAllKeepsTrue(env, Readings(pieces), row, ArgsOf(pieces));
    }
  }

  // ---- Conditions that do not look at a column ----

  predicate IgnoresOperand(x: Operand, column: string) {
    x.Col? ==> x.name != column
  }

  /** `e` names no operand `column`; nothing is said of a sub-query. */
  predicate Ignores(e: Expr, column: string) {
    match e
    case Compare(_, l, r) => IgnoresOperand(l, column) && IgnoresOperand(r, column)
    case Like(_, _, l, r) => IgnoresOperand(l, column) && IgnoresOperand(r, column)
    case In(_, l, list) =>
      IgnoresOperand(l, column) && forall i :: 0 <= i < |list| ==> IgnoresOperand(list[i], column)
    case Between(l, lo, hi) => IgnoresOperand(l, column) && IgnoresOperand(lo, column) && IgnoresOperand(hi, column)
    case IsNull(_, l) => IgnoresOperand(l, column)
    case Exists(_) => false
    case Not(a) => Ignores(a, column)
    case And(a, b) => Ignores(a, column) && Ignores(b, column)
    case Or(a, b) => Ignores(a, column) && Ignores(b, column)
  }

  /** The same row with NULL in `column`. */
  function Without(row: Row, column: string): Row {
    c => if c == column then Null else row(c)
  }

  lemma OperandUnchanged(env: Env, x: Operand, y: Value, column: string, row: Row, args: seq<Arg>)
    requires IgnoresOperand(x, column)
    ensures EvalOperand(env, x, Without(row, column), args) == EvalOperand(env, x, row, args)
    ensures EvalAgainst(env, y, x, Without(row, column), args) == EvalAgainst(env, y, x, row, args)
  {
  }

  lemma {:induction false} InUnchanged(
    env: Env, y: Value, list: seq<Operand>, column: string, row: Row, args: seq<Arg>)
    requires forall i :: 0 <= i < |list| ==> IgnoresOperand(list[i], column)
    ensures InValues(env, y, list, Without(row, column), args) == InValues(env, y, list, row, args)
  {
    hide EvalAgainst, CompareValues, IgnoresOperand, Without;
    if list == [] {
    } else {
      OperandUnchanged(env, list[0], y, column, row, args);
      InUnchanged(env, y, list[1..], column, row, args);
    }
  }

  /** A condition that ignores a column has the same truth value whatever stands in it. */
  lemma {:induction false} IgnoredColumnDoesNotMatter(env: Env, e: Expr, column: string, row: Row, args: seq<Arg>)
    requires Ignores(e, column)
    ensures Eval(env, e, Without(row, column), args) == Eval(env, e, row, args)
  {
    hide EvalOperand, EvalAgainst, CompareValues, LikeValues, InValues, Without;
    match e
    case Compare(_, l, r) =>
      OperandUnchanged(env, l, EvalOperand(env, r, row, args), column, row, args);
      OperandUnchanged(env, r, EvalOperand(env, l, row, args), column, row, args);
    case Like(_, _, l, r) =>
      OperandUnchanged(env, l, Null, column, row, args);
      OperandUnchanged(env, r, Null, column, row, args);
    case In(_, l, list) =>
      OperandUnchanged(env, l, Null, column, row, args);
      InUnchanged(env, EvalOperand(env, l, row, args), list, column, row, args);
    case Between(l, lo, hi) =>
      var x := EvalOperand(env, l, row, args);
      OperandUnchanged(env, l, Null, column, row, args);
      OperandUnchanged(env, lo, x, column, row, args);
      OperandUnchanged(env, hi, x, column, row, args);
    case IsNull(_, l) => OperandUnchanged(env, l, Null, column, row, args);
    case Not(a) => IgnoredColumnDoesNotMatter(env, a, column, row, args);
    case And(a, b) =>
      IgnoredColumnDoesNotMatter(env, a, column, row, args);
      IgnoredColumnDoesNotMatter(env, b, column, row, args);
    case Or(a, b) =>
      IgnoredColumnDoesNotMatter(env, a, column, row, args);
      IgnoredColumnDoesNotMatter(env, b, column, row, args);
  }

  ghost predicate GroupIgnores(es: seq<Expr>, column: string) {
    forall i :: 0 <= i < |es| ==> Ignores(es[i], column)
  }

  /** Then it also holds of a row of no tenant. */
  lemma HoldsWithoutTenant(env: Env, es: seq<Expr>, column: string, tenant: string, row: Row, args: seq<Arg>)
    requires GroupIgnores(es, column) && GroupTrue(env, es, row, args)
    ensures GroupTrue(env, es, Without(row, column), args) && !OfTenant(env, Without(row, column)(column), tenant)
  {
    hide Eval, Ignores;
    forall i | 0 <= i < |es|
      ensures Eval(env, es[i], Without(row, column), args) == True
    {
      IgnoredColumnDoesNotMatter(env, es[i], column, row, args);
    }
  }

  // ---- The guard is exact ----

  ghost predicate HoldsSomewhere(env: Env, es: seq<Expr>, args: seq<Arg>) {
    exists row: Row :: GroupTrue(env, es, row, args)
  }

  /** Every disjunct after the first can hold, and none of them looks at the tenant column. */
  ghost predicate LaterDisjunctsAreFree(env: Env, where: seq<Token>, column: string, args: seq<Arg>) {
    Disjuncts(where).Some? ==>
      var gs := Disjuncts(where).value;
      forall j :: 1 <= j < |gs| ==> GroupIgnores(gs[j], column) && HoldsSomewhere(env, gs[j], args)
  }

  ghost predicate Isolates(env: Env, cfg: ResourceConfig, tenant: string, pieces: seq<Piece>) {
    forall row: Row :: Selects(env, JoinTokens(TokensOf(pieces), AndTok), ArgsOf(pieces), row) ==>
      OfTenant(env, row(cfg.tenantColumn), tenant)
  }

  /**
   When what follows a top-level OR can hold and does not look at the tenant column, every
   selected row belongs to the tenant iff no template used has a top-level OR.
   */
  lemma IsolatesIffNoTopLevelOr(
    env: Env, go: Go, cfg: ResourceConfig, req: RequestBody, tenant: string, cols: seq<string>, pieces: seq<Piece>)
    requires CompilePieces(go, cfg, req, Some(tenant), cols) == Ok(pieces) && cfg.tenantColumn != ""
    requires TemplatesRead(cfg, req.filters)
    requires LaterDisjunctsAreFree(env, JoinTokens(TokensOf(pieces), AndTok), cfg.tenantColumn, ArgsOf(pieces))
    ensures Isolates(env, cfg, tenant, pieces) <==> NoTopLevelOr(cfg, req.filters)
  {
    hide Selects, CompilePieces, TemplatesRead, NoTopLevelOr, OfTenant, JoinTokens, GroupTrue, SpliceAll, AllReadable,
      GroupIgnores, Readings, TokensOf, ArgsOf, AllDisjunctions, Disjuncts;
    TenantIsolationIff(env, go, cfg, req, tenant, cols, pieces);
    TenantComesFirst(go, cfg, req, tenant, cols, pieces);
    ClauseReads(pieces);
    var gs := SpliceAll(Readings(pieces));
    if Isolates(env, cfg, tenant, pieces) && |gs| > 1 {
      LaterDisjunctLeaks(env, cfg, tenant, gs[1], ArgsOf(pieces));
    }
  }

  lemma LaterDisjunctLeaks(env: Env, cfg: ResourceConfig, tenant: string, es: seq<Expr>, args: seq<Arg>)
    requires GroupIgnores(es, cfg.tenantColumn) && HoldsSomewhere(env, es, args)
    ensures exists row: Row :: GroupTrue(env, es, row, args) && !OfTenant(env, row(cfg.tenantColumn), tenant)
  {
    hide GroupTrue, GroupIgnores, OfTenant, Without;
    var row: Row :| GroupTrue(env, es, row, args);
    HoldsWithoutTenant(env, es, cfg.tenantColumn, tenant, row, args);
  }
}
