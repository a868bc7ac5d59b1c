/**
 Placeholder numbering and argument types of compiled queries, and the agreement between
 Validate and Compile (search/config.go).
 */
module SearchDiscipline {
  import opened Options
  import opened GoStrings
  import opened Coerce
  import opened Wildcard
  import opened Sql
  import opened Resolvers
  import opened SearchCompiler
  import opened SearchMeaning

  // ---- Placeholders ----

  ghost predicate Uses(ts: seq<Token>, k: int) {
    exists i :: 0 <= i < |ts| && ts[i].ParamTok? && ts[i].n == k
  }

  /** `ts` uses exactly the placeholders $1..$n. */
  ghost predicate UsesExactly(ts: seq<Token>, n: nat) {
    forall k :: Uses(ts, k) <==> 1 <= k <= n
  }

  /** Follows the highest placeholder seen; None as soon as one is skipped. */
  function Scan(ts: seq<Token>, top: nat): Option<nat> {
    if ts == [] then Some(top)
    else if !ts[0].ParamTok? then Scan(ts[1..], top)
    else if ts[0].n == top + 1 then Scan(ts[1..], top + 1)
    else if 1 <= ts[0].n <= top then Scan(ts[1..], top)
    else None
  }

  lemma {:induction false} ScanAppends(a: seq<Token>, b: seq<Token>, top: nat)
    ensures Scan(a + b, top) == if Scan(a, top).Some? then Scan(b, Scan(a, top).value) else None
  {
    if a == [] {
      assert a + b == b;
    } else {
      assert (a + b)[1..] == a[1..] + b;
      ScanAppends(a[1..], b, if a[0].ParamTok? && a[0].n == top + 1 then top + 1 else top);
    }
  }

  /** A successful scan means the placeholders used are exactly those up to the result. */
  lemma {:induction false} ScanMeansExactly(ts: seq<Token>, n: nat)
    requires Scan(ts, 0) == Some(n)
    ensures UsesExactly(ts, n)
  {
    if ts == [] {
    } else {
      var init, last := ts[..|ts| - 1], ts[|ts| - 1];
      assert ts == init + [last];
      ScanAppends(init, [last], 0);
      var m := Scan(init, 0).value;
      ScanMeansExactly(init, m);
      assert [last][1..] == [];
      assert n == if last.ParamTok? && last.n == m + 1 then m + 1 else m;
      forall k
        ensures Uses(ts, k) <==> 1 <= k <= n
      {
        UsesAppends(init, last, k);
        assert Uses(init, k) <==> 1 <= k <= m;
      }
    }
  }

  lemma UsesAppends(init: seq<Token>, last: Token, k: int)
    ensures Uses(init + [last], k) <==> Uses(init, k) || (last.ParamTok? && last.n == k)
  {
    var ts := init + [last];
    if Uses(init, k) {
      var i :| 0 <= i < |init| && init[i].ParamTok? && init[i].n == k;
      assert ts[i].ParamTok? && ts[i].n == k;
    }
    if last.ParamTok? && last.n == k {
      assert ts[|init|].ParamTok? && ts[|init|].n == k;
    }
  }

  /** First occurrences come in increasing order: every prefix uses an initial run of the numbers. */
  ghost predicate UsesInitialRun(ts: seq<Token>) {
    exists m: nat :: UsesExactly(ts, m)
  }

  ghost predicate NumberedInOrder(ts: seq<Token>, n: nat) {
    && UsesExactly(ts, n)
    && forall i :: 0 <= i <= |ts| ==> UsesInitialRun(ts[..i])
  }

  lemma ScanMeansInOrder(ts: seq<Token>, n: nat)
    requires Scan(ts, 0) == Some(n)
    ensures NumberedInOrder(ts, n)
  {
    hide Scan, UsesExactly;
    ScanMeansExactly(ts, n);
    forall i | 0 <= i <= |ts|
      ensures UsesInitialRun(ts[..i])
    {
      PrefixUsesExactly(ts, i);
    }
  }

  lemma PrefixUsesExactly(ts: seq<Token>, i: nat)
    requires Scan(ts, 0).Some? && i <= |ts|
    ensures UsesInitialRun(ts[..i])
  {
    hide Scan, UsesExactly;
    assert ts == ts[..i] + ts[i..];
    ScanAppends(ts[..i], ts[i..], 0);
    ScanMeansExactly(ts[..i], Scan(ts[..i], 0).value);
  }

  function ScanParts(parts: seq<seq<Token>>, top: nat): Option<nat> {
    if parts == [] then Some(top)
    else
      match Scan(parts[0], top)
      case None => None
      case Some(m) => ScanParts(parts[1..], m)
  }

  lemma {:induction false} ScanJoin(parts: seq<seq<Token>>, sep: Token, top: nat)
    requires !sep.ParamTok?
    ensures Scan(JoinTokens(parts, sep), top) == ScanParts(parts, top)
    decreases |parts|
  {
    if |parts| == 1 {
      assert parts[1..] == [];
    } else if |parts| > 1 {
      var rest := JoinTokens(parts[1..], sep);
      assert JoinTokens(parts, sep) == parts[0] + ([sep] + rest);
      ScanAppends(parts[0], [sep] + rest, top);
      assert ([sep] + rest)[1..] == rest;
      if Scan(parts[0], top).Some? {
        ScanJoin(parts[1..], sep, Scan(parts[0], top).value);
      }
    }
  }

  lemma {:induction false} ScanPartsAppend(a: seq<seq<Token>>, p: seq<Token>, top: nat)
    ensures ScanParts(a + [p], top) == if ScanParts(a, top).Some? then Scan(p, ScanParts(a, top).value) else None
    decreases |a|
  {
    if a == [] {
      assert (a + [p])[1..] == [];
    } else {
      assert (a + [p])[1..] == a[1..] + [p];
      if Scan(a[0], top).Some? {
        ScanPartsAppend(a[1..], p, Scan(a[0], top).value);
      }
    }
  }

  lemma ScanParenthesised(ts: seq<Token>, top: nat)
    ensures Scan(Parenthesised(ts), top) == Scan(ts, top)
  {
    assert Parenthesised(ts)[1..] == ts + [RParen];
    ScanAppends(ts, [RParen], top);
    assert [RParen][1..] == [];
  }

  // ---- Tokens of joined fragments ----

  lemma {:induction false} TokenOfJoin(parts: seq<seq<Token>>, sep: Token, t: Token)
    requires t in JoinTokens(parts, sep) && t != sep
    ensures exists i :: 0 <= i < |parts| && t in parts[i]
    decreases |parts|
  {
    if |parts| > 1 && t !in parts[0] {
      TokenOfJoin(parts[1..], sep, t);
      var i :| 0 <= i < |parts[1..]| && t in parts[1..][i];
      assert t in parts[i + 1];
    }
  }

  /** A piece numbers its own arguments after the first `base`, and each suits its cast. */
  ghost predicate Binds(p: Piece, base: nat) {
    && Scan(p.tokens, base) == Some(base + |p.args|)
    && forall t :: t in p.tokens && t.ParamTok? ==>
      base < t.n <= base + |p.args| && FitsCast(t.cast, p.args[t.n - base - 1])
  }

  // ---- Search terms ----

  lemma {:induction false} SameParamParts(parts: seq<seq<Token>>, n: nat)
    requires forall i :: 0 <= i < |parts| ==> Scan(parts[i], n) == Some(n)
    ensures ScanParts(parts, n) == Some(n)
  {
    if parts == [] {
    } else {
      SameParamParts(parts[1..], n);
    }
  }

  lemma ScanColumnTest(col: string, n: nat, top: nat)
    requires n == top + 1 || 1 <= n == top
    ensures Scan([ColTok(col), LikeTok(true), ParamTok(n, NoCast)], top) == Some(n)
  {
    var a, p := [ColTok(col), LikeTok(true)], [ParamTok(n, NoCast)];
    assert [ColTok(col), LikeTok(true), ParamTok(n, NoCast)] == a + p;
    ScanAppends(a, p, top);
    ScanNoParams(a, top);
    assert p[1..] == [];
  }

  /** A term tests one placeholder on every column. */
  lemma ScanTerm(cols: seq<string>, top: nat)
    requires cols != []
    ensures Scan(TermTokens(cols, top + 1), top) == Some(top + 1)
  {
    hide JoinTokens;
    var n := top + 1;
    var parts := TermParts(cols, n);
    ScanParenthesised(JoinTokens(parts, OrTok), top);
    ScanJoin(parts, OrTok, top);
    ScanColumnTest(cols[0], n, top);
    forall i | 0 <= i < |parts[1..]|
      ensures Scan(parts[1..][i], n) == Some(n)
    {
      ScanColumnTest(cols[i + 1], n, n);
    }
    SameParamParts(parts[1..], n);
  }

  lemma {:induction false} ScanTerms(cols: seq<string>, base: nat, count: nat)
    requires cols != []
    ensures ScanParts(SearchParts(cols, base, count), base) == Some(base + count)
  {
    hide TermTokens;
    if count == 0 {
    } else {
      ScanTerms(cols, base, count - 1);
      var parts := SearchParts(cols, base, count - 1);
      assert SearchParts(cols, base, count) == parts + [TermTokens(cols, base + count)];
      ScanPartsAppend(parts, TermTokens(cols, base + count), base);
      ScanTerm(cols, base + count - 1);
    }
  }

  lemma TermTokenParam(cols: seq<string>, n: nat, t: Token)
    requires t in TermTokens(cols, n) && t.ParamTok?
    ensures t == ParamTok(n, NoCast)
  {
    var parts := TermParts(cols, n);
    assert t in JoinTokens(parts, OrTok);
    TokenOfJoin(parts, OrTok, t);
  }

  lemma SearchPieceBinds(cols: seq<string>, terms: seq<string>, base: nat)
    ensures forall i :: 0 <= i < |SearchPieces(cols, terms, base)| ==> Binds(SearchPieces(cols, terms, base)[i], base)
  {
    hide TermTokens, JoinTokens, WildcardToLike;
    var eff := EffectiveTerms(terms);
    if cols != [] && eff != [] {
      var parts := SearchParts(cols, base, |eff|);
      ScanParenthesised(JoinTokens(parts, OrTok), base);
      ScanJoin(parts, OrTok, base);
      ScanTerms(cols, base, |eff|);
      var p := SearchPieces(cols, terms, base)[0];
      forall t | t in p.tokens && t.ParamTok?
        ensures base < t.n <= base + |p.args| && FitsCast(t.cast, p.args[t.n - base - 1])
      {
        assert t in JoinTokens(parts, OrTok);
        TokenOfJoin(parts, OrTok, t);
        var i :| 0 <= i < |parts| && t in parts[i];
        TermTokenParam(cols, base + 1 + i, t);
      }
    }
  }

  // ---- Filters ----

  lemma {:induction false} ScanPlaceholders(base: nat, count: nat, cast: Cast)
    ensures ScanParts(OperandToks(Placeholders(base, count, cast)), base) == Some(base + count)
  {
    if count == 0 {
    } else {
      ScanPlaceholders(base, count - 1, cast);
      var parts := OperandToks(Placeholders(base, count - 1, cast));
      var last := [ParamTok(base + count, cast)];
      assert OperandToks(Placeholders(base, count, cast)) == parts + [last];
      ScanPartsAppend(parts, last, base);
      assert last[1..] == [];
    }
  }

  lemma ScanNoParams(ts: seq<Token>, top: nat)
    requires forall t :: t in ts ==> !t.ParamTok?
    ensures Scan(ts, top) == Some(top)
  {
    if ts != [] {
      assert ts[0] in ts && forall t :: t in ts[1..] ==> t in ts;
      ScanNoParams(ts[1..], top);
    }
  }

  /** Tokens without placeholders around one scanned part. */
  lemma ScanAround(a: seq<Token>, mid: seq<Token>, b: seq<Token>, top: nat)
    requires forall t :: t in a || t in b ==> !t.ParamTok?
    ensures Scan(a + mid + b, top) == Scan(mid, top)
  {
    ScanAppends(a + mid, b, top);
    ScanAppends(a, mid, top);
    ScanNoParams(a, top);
    if Scan(mid, top).Some? {
      ScanNoParams(b, Scan(mid, top).value);
    }
  }

  lemma ScanOneParam(n: nat, cast: Cast)
    requires n >= 1
    ensures Scan([ParamTok(n, cast)], n - 1) == Some(n)
  {
    assert [ParamTok(n, cast)][1..] == [];
  }

  lemma ComparisonBinds(op: string, column: string, base: nat, cast: Cast, v: Arg)
    requires op in COMPARISONS && FitsCast(cast, v)
    ensures
      var e := ComparisonExpr(op, Col(column), Param(base + 1, cast));
      Binds(Piece(LeafTokens(e), [v]), base)
  {
    hide LeafTokens, FitsCast, ComparisonExpr;
    ComparisonPrints(op, column, base + 1, cast);
    var a := [ColTok(column)] + ComparisonTokens(op);
    assert a + [ParamTok(base + 1, cast)] + [] == a + [ParamTok(base + 1, cast)];
    ScanAround(a, [ParamTok(base + 1, cast)], [], base);
    ScanOneParam(base + 1, cast);
  }

  lemma InPrints(negated: bool, column: string, list: seq<Operand>)
    requires list != []
    ensures LeafTokens(In(negated, Col(column), list)) ==
      [ColTok(column)] + (NotIf(negated) + [InTok, LParen]) + JoinTokens(OperandToks(list), Comma) + [RParen]
  {
    hide JoinTokens, OperandToks;
  }

  lemma InBinds(negated: bool, column: string, base: nat, cast: Cast, vals: seq<Arg>)
    requires vals != [] && forall i :: 0 <= i < |vals| ==> FitsCast(cast, vals[i])
    ensures
      var e := In(negated, Col(column), Placeholders(base, |vals|, cast));
      Binds(Piece(LeafTokens(e), vals), base)
  {
    hide FitsCast, JoinTokens, Scan, LeafTokens, OperandToks, ScanParts;
    var list := Placeholders(base, |vals|, cast);
    var e := In(negated, Col(column), list);
    var a, mid := [ColTok(column)] + (NotIf(negated) + [InTok, LParen]), JoinTokens(OperandToks(list), Comma);
    InPrints(negated, column, list);
    ScanAround(a, mid, [RParen], base);
    ScanJoin(OperandToks(list), Comma, base);
    ScanPlaceholders(base, |vals|, cast);
    forall t | t in LeafTokens(e) && t.ParamTok?
      ensures base < t.n <= base + |vals| && FitsCast(t.cast, vals[t.n - base - 1])
    {
      assert t !in a && t !in [RParen];
      PlaceholderToken(base, |vals|, cast, t);
    }
  }

  lemma PlaceholderToken(base: nat, count: nat, cast: Cast, t: Token)
    requires t in JoinTokens(OperandToks(Placeholders(base, count, cast)), Comma) && t.ParamTok?
    ensures base < t.n <= base + count && t.cast == cast
  {
    hide JoinTokens;
    TokenOfJoin(OperandToks(Placeholders(base, count, cast)), Comma, t);
  }

  lemma BetweenPrints(column: string, n: nat, cast: Cast)
    requires n >= 1
    ensures LeafTokens(Between(Col(column), Param(n, cast), Param(n + 1, cast))) ==
      [ColTok(column), BetweenTok] + [ParamTok(n, cast)] + [AndTok] + [ParamTok(n + 1, cast)]
  {
  }

  lemma BetweenBinds(column: string, base: nat, cast: Cast, vals: seq<Arg>)
    requires |vals| == 2 && FitsCast(cast, vals[0]) && FitsCast(cast, vals[1])
    ensures
      var e := Between(Col(column), Param(base + 1, cast), Param(base + 2, cast));
      Binds(Piece(LeafTokens(e), vals), base)
  {
    hide FitsCast, Scan, LeafTokens;
    BetweenPrints(column, base + 1, cast);
    var lo, hi := [ParamTok(base + 1, cast)], [ParamTok(base + 2, cast)];
    ScanAppends([ColTok(column), BetweenTok] + lo + [AndTok], hi, base);
    ScanAround([ColTok(column), BetweenTok], lo, [AndTok], base);
    ScanOneParam(base + 1, cast);
    ScanOneParam(base + 2, cast);
  }

  lemma DirectBinds(
    parse: DateParser, column: string, typ: FieldType, field: string, op: string, value: Json, base: nat)
    requires ResolveDirect(parse, column, typ, field, op, value, base).Ok?
    ensures
      var r := ResolveDirect(parse, column, typ, field, op, value, base).value;
      Binds(Piece(LeafTokens(r.expr), r.args), base)
  {
    hide CoerceScalar, FitsCast, LeafTokens, ComparisonExpr, Scan;
    if op in COMPARISONS {
      CoercedFitsCast(parse, field, typ, value);
      ComparisonBinds(op, column, base, CastOf(typ), CoerceScalar(parse, field, typ, value).value);
    } else if op == "in" || op == "not_in" {
      CoercedListFits(parse, field, typ, ListItems(field, value).value);
      InBinds(op == "not_in", column, base, CastOf(typ), CoerceListSpec(parse, field, typ, value).value);
    } else if op == "between" {
      CoercedListFits(parse, field, typ, ListItems(field, value).value);
      BetweenBinds(column, base, CastOf(typ), CoerceListSpec(parse, field, typ, value).value);
    } else {
      NullTestBinds(op == "is_not_null", column, base);
    }
  }

  lemma NullTestBinds(negated: bool, column: string, base: nat)
    ensures
      var e := IsNull(negated, Col(column));
      Binds(Piece(LeafTokens(e), []), base)
  {
    ScanNoParams(LeafTokens(IsNull(negated, Col(column))), base);
  }

  lemma TemplateBinds(parts: seq<seq<Token>>, base: nat, cast: Cast, v: Arg)
    requires |parts| == 2 && NoParams(parts[0]) && NoParams(parts[1]) && FitsCast(cast, v)
    ensures Binds(Piece(TemplateTokens(parts, base + 1, cast), [v]), base)
  {
    hide FitsCast, Scan;
    ScanAround(parts[0], [ParamTok(base + 1, cast)], parts[1], base);
    ScanOneParam(base + 1, cast);
  }

  /** A template names no placeholder of its own. */
  predicate BindsOnce(res: Resolver) {
    res.Subquery? && |res.parts| == 2 ==> NoParams(res.parts[0]) && NoParams(res.parts[1])
  }

  ghost predicate TemplatesBindOnce(cfg: ResourceConfig, filters: seq<Filter>) {
    forall i :: 0 <= i < |filters| && filters[i].field in cfg.fields ==>
      BindsOnce(ResolverOf(cfg.fields[filters[i].field]))
  }

  lemma FilterPieceBinds(go: Go, cfg: ResourceConfig, f: Filter, base: nat)
    requires FilterPiece(go, cfg, f, base).Ok? && BindsOnce(ResolverOf(cfg.fields[f.field]))
    ensures Binds(FilterPiece(go, cfg, f, base).value, base)
  {
    hide CoerceScalar, ResolveDirect, FitsCast, LeafTokens, Scan;
    var op := go.lower(f.operator);
    match ResolverOf(cfg.fields[f.field])
    case Direct(column, typ) =>
      DirectBinds(go.parse, column, typ, f.field, op, f.value, base);
    case Subquery(parts, typ) =>
      CoercedFitsCast(go.parse, f.field, typ, f.value);
      TemplateBinds(parts, base, CastOf(typ), CoerceScalar(go.parse, f.field, typ, f.value).value);
  }

  // ---- The whole query ----

  /** Every piece binds the arguments right after those of the pieces before it. */
  ghost predicate AllBind(pieces: seq<Piece>) {
    forall k :: 0 <= k < |pieces| ==> Binds(pieces[k], |ArgsOf(pieces[..k])|)
  }

  lemma FixedPiecesBind(cfg: ResourceConfig, req: RequestBody, tenant: Option<string>, cols: seq<string>)
    ensures AllBind(FixedPieces(cfg, req, tenant, cols))
  {
    hide Scan, SearchPieces, LeafTokens;
    var t := TenantPieces(cfg, tenant);
    var fixed := FixedPieces(cfg, req, tenant, cols);
    SearchPieceBinds(cols, req.searchTerms, |ArgsOf(t)|);
    assert fixed[..0] == [];
    assert fixed[..|t|] == t;
    if t != [] {
      ComparisonBinds("eq", cfg.tenantColumn, 0, NoCast, Text(tenant.value));
      ComparisonPrints("eq", cfg.tenantColumn, 1, NoCast);
      assert t[0].tokens == [ColTok(cfg.tenantColumn)] + ComparisonTokens("eq") + [ParamTok(1, NoCast)];
    }
    forall k | 0 <= k < |fixed|
      ensures Binds(fixed[k], |ArgsOf(fixed[..k])|)
    {
      if k >= |t| {
        SearchPiecesAtMostOne(cols, req.searchTerms, |ArgsOf(t)|);
        assert k == |t| && fixed[k] == SearchPieces(cols, req.searchTerms, |ArgsOf(t)|)[0];
      }
    }
  }

  lemma CompiledBinds(
    go: Go, cfg: ResourceConfig, req: RequestBody, tenant: Option<string>, cols: seq<string>, pieces: seq<Piece>)
    requires CompilePieces(go, cfg, req, tenant, cols) == Ok(pieces) && TemplatesBindOnce(cfg, req.filters)
    ensures AllBind(pieces)
  {
    hide FilterPiece, FixedPieces, Binds;
    var before := FixedPieces(cfg, req, tenant, cols);
    WithFiltersShape(go, cfg, before, req.filters);
    FixedPiecesBind(cfg, req, tenant, cols);
    forall k | 0 <= k < |pieces|
      ensures Binds(pieces[k], |ArgsOf(pieces[..k])|)
    {
      if k < |before| {
        assert pieces[..k] == before[..k] && pieces[k] == before[k];
      } else {
        var i := k - |before|;
        assert FilterPiece(go, cfg, req.filters[i], |ArgsOf(pieces[..|before| + i])|) == Ok(pieces[k]);
        KnownField(go, cfg, req.filters[i], |ArgsOf(pieces[..k])|);
        FilterPieceBinds(go, cfg, req.filters[i], |ArgsOf(pieces[..k])|);
      }
    }
  }

  lemma AllBindInit(pieces: seq<Piece>)
    requires AllBind(pieces) && pieces != []
    ensures AllBind(pieces[..|pieces| - 1])
    ensures Binds(pieces[|pieces| - 1], |ArgsOf(pieces[..|pieces| - 1])|)
  {
    hide Binds, ArgsOf;
    var init := pieces[..|pieces| - 1];
    assert forall k :: 0 <= k < |init| ==> init[..k] == pieces[..k];
  }

  lemma AnotherPieceScans(init: seq<Piece>, last: Piece)
    requires ScanParts(TokensOf(init), 0) == Some(|ArgsOf(init)|) && Binds(last, |ArgsOf(init)|)
    ensures ScanParts(TokensOf(init + [last]), 0) == Some(|ArgsOf(init + [last])|)
  {
    hide Scan, FitsCast, ScanParts, TokensOf, ArgsOf;
    AppendPiece(init, last);
    ScanPartsAppend(TokensOf(init), last.tokens, 0);
  }

  lemma {:induction false} AllBindScans(pieces: seq<Piece>)
    requires AllBind(pieces)
    ensures ScanParts(TokensOf(pieces), 0) == Some(|ArgsOf(pieces)|)
  {
    hide AllBind, Scan;
    if pieces == [] {
    } else {
      hide ScanParts, TokensOf, ArgsOf, Binds;
      var init, last := pieces[..|pieces| - 1], pieces[|pieces| - 1];
      AllBindInit(pieces);
      AllBindScans(init);
      AnotherPieceScans(init, last);
      assert pieces == init + [last];
    }
  }

  /** Every placeholder names an argument of the kind its cast expects. */
  ghost predicate ArgumentsFit(where: seq<Token>, args: seq<Arg>) {
    forall i :: 0 <= i < |where| && where[i].ParamTok? ==>
      1 <= where[i].n <= |args| && FitsCast(where[i].cast, args[where[i].n - 1])
  }

  /**
   The clause uses exactly $1..$len(args), first occurrences in increasing order, and every
   argument has the kind of value its cast expects.  Templates bring one placeholder each.
   */
  lemma PlaceholderDiscipline(
    go: Go, cfg: ResourceConfig, req: RequestBody, tenant: Option<string>, cols: seq<string>, pieces: seq<Piece>)
    requires CompilePieces(go, cfg, req, tenant, cols) == Ok(pieces) && TemplatesBindOnce(cfg, req.filters)
    ensures
      var where, args := JoinTokens(TokensOf(pieces), AndTok), ArgsOf(pieces);
      NumberedInOrder(where, |args|) && ArgumentsFit(where, args)
  {
    hide *;
    var where, args := JoinTokens(TokensOf(pieces), AndTok), ArgsOf(pieces);
    CompiledBinds(go, cfg, req, tenant, cols, pieces);
    AllBindScans(pieces);
    ScanJoin(TokensOf(pieces), AndTok, 0);
    ScanMeansInOrder(where, |args|);
    AllArgumentsFit(pieces);
  }

  lemma AllArgumentsFit(pieces: seq<Piece>)
    requires AllBind(pieces)
    ensures ArgumentsFit(JoinTokens(TokensOf(pieces), AndTok), ArgsOf(pieces))
  {
    hide AllBind, FitsCast, JoinTokens, TokensOf, ArgsOf;
    var where, args := JoinTokens(TokensOf(pieces), AndTok), ArgsOf(pieces);
    forall i | 0 <= i < |where| && where[i].ParamTok?
      ensures 1 <= where[i].n <= |args| && FitsCast(where[i].cast, args[where[i].n - 1])
    {
      AllBindFits(pieces, where[i]);
    }
  }

  lemma AllBindFits(pieces: seq<Piece>, t: Token)
    requires AllBind(pieces)
    requires t in JoinTokens(TokensOf(pieces), AndTok) && t.ParamTok?
    ensures 1 <= t.n <= |ArgsOf(pieces)| && FitsCast(t.cast, ArgsOf(pieces)[t.n - 1])
  {
    hide FitsCast, JoinTokens, Scan, ArgsOf;
    TokenOfJoin(TokensOf(pieces), AndTok, t);
    var k :| 0 <= k < |TokensOf(pieces)| && t in TokensOf(pieces)[k];
    PieceTokenFits(pieces, k, t);
  }

  lemma PieceTokenFits(pieces: seq<Piece>, k: nat, t: Token)
    requires k < |pieces| && Binds(pieces[k], |ArgsOf(pieces[..k])|)
    requires t in pieces[k].tokens && t.ParamTok?
    ensures 1 <= t.n <= |ArgsOf(pieces)| && FitsCast(t.cast, ArgsOf(pieces)[t.n - 1])
  {
    hide FitsCast, Scan, ArgsOf;
    PieceArgsBound(pieces, k);
    var base := |ArgsOf(pieces[..k])|;
    assert ArgsOf(pieces)[base + (t.n - base - 1)] == pieces[k].args[t.n - base - 1];
  }

  // ---- Validate ----

  ghost predicate FilterOk(go: Go, cfg: ResourceConfig, f: Filter) {
    && f.field in cfg.fields
    && (cfg.fields[f.field].allowedOperators != [] ==> go.lower(f.operator) in cfg.fields[f.field].allowedOperators)
  }

  ghost predicate FiltersOk(go: Go, cfg: ResourceConfig, filters: seq<Filter>) {
    forall i :: 0 <= i < |filters| ==> FilterOk(go, cfg, filters[i])
  }

  ghost predicate Acceptable(go: Go, cfg: ResourceConfig, req: RequestBody) {
    && !TooManyTerms(cfg, req)
    && FiltersOk(go, cfg, req.filters)
    && (forall i :: 0 <= i < |req.sortFields| ==> IsSortable(cfg, req.sortFields[i]))
  }

  /** The positions of the terms that say something. */
  ghost function SayingTerms(terms: seq<string>): set<nat> {
    set i: nat | i < |terms| && SaysSomething(terms[i])
  }

  lemma SayingStep(terms: seq<string>, i: nat)
    requires i < |terms|
    ensures |SayingTerms(terms[..i + 1])| == |SayingTerms(terms[..i])| + if SaysSomething(terms[i]) then 1 else 0
  {
    hide SaysSomething;
    var before, after := SayingTerms(terms[..i]), SayingTerms(terms[..i + 1]);
    assert after == if SaysSomething(terms[i]) then before + {i} else before;
  }

  method CountEffective(terms: seq<string>) returns (effective: nat)
    ensures effective == |SayingTerms(terms)|
  {
    hide TrimSpace;
    effective := 0;
    for i := 0 to |terms|
      invariant effective == |SayingTerms(terms[..i])|
    {
      SayingStep(terms, i);
      var t := TrimSpace(terms[i]);
      var allWild := IsAllWildcard(t);
      if t == "" || allWild {
        continue;
      }
      effective := effective + 1;
    }
    assert terms[..|terms|] == terms;
  }

  ghost predicate TooManyTerms(cfg: ResourceConfig, req: RequestBody) {
    cfg.maxBulkTerms > 0 && |SayingTerms(req.searchTerms)| > cfg.maxBulkTerms
  }

  ghost predicate FirstBadFilter(go: Go, cfg: ResourceConfig, filters: seq<Filter>, i: nat) {
    i < |filters| && !FilterOk(go, cfg, filters[i]) && forall k :: 0 <= k < i ==> FilterOk(go, cfg, filters[k])
  }

  ghost predicate FirstBadSort(cfg: ResourceConfig, sorts: seq<SortField>, i: nat) {
    i < |sorts| && !IsSortable(cfg, sorts[i]) && forall k :: 0 <= k < i ==> IsSortable(cfg, sorts[k])
  }

  function TermsError(): SearchError {
    InvalidValueType("search_terms", "at most the configured number of terms")
  }

  function FilterError(cfg: ResourceConfig, f: Filter): SearchError {
    if f.field !in cfg.fields then InvalidField(f.field) else UnsupportedOperator(f.field, f.operator)
  }

  function SortError(cfg: ResourceConfig, s: SortField): SearchError {
    if s.field !in cfg.fields then InvalidField(s.field) else FieldNotSortable(s.field)
  }

  /** None iff the request is acceptable; else the terms, then the first bad filter, then the first bad sort. */
  method Validate(go: Go, cfg: ResourceConfig, req: RequestBody) returns (err: Option<SearchError>)
    ensures err.None? <==> Acceptable(go, cfg, req)
    ensures TooManyTerms(cfg, req) ==> err == Some(TermsError())
    ensures forall i: nat :: !TooManyTerms(cfg, req) && FirstBadFilter(go, cfg, req.filters, i) ==>
      err == Some(FilterError(cfg, req.filters[i]))
    ensures forall i: nat | !TooManyTerms(cfg, req) && FiltersOk(go, cfg, req.filters) ::
      FirstBadSort(cfg, req.sortFields, i) ==> err == Some(SortError(cfg, req.sortFields[i]))
  {
    hide SayingTerms;
    if cfg.maxBulkTerms > 0 {
      var effective := CountEffective(req.searchTerms);
      if effective > cfg.maxBulkTerms {
        return Some(TermsError());
      }
    }
    for i := 0 to |req.filters|
      invariant forall k :: 0 <= k < i ==> FilterOk(go, cfg, req.filters[k])
    {
      var fc := ValidateFilter(go, cfg, req.filters[i]);
      if fc.Err? {
        assert !FilterOk(go, cfg, req.filters[i]);
        assert forall j: nat :: FirstBadFilter(go, cfg, req.filters, j) ==> j == i;
        return Some(fc.error);
      }
    }
    for i := 0 to |req.sortFields|
      invariant forall k :: 0 <= k < i ==> IsSortable(cfg, req.sortFields[k])
    {
      var s := req.sortFields[i];
      if s.field !in cfg.fields {
        assert !IsSortable(cfg, req.sortFields[i]);
        assert forall j: nat :: FirstBadSort(cfg, req.sortFields, j) ==> j == i;
        return Some(InvalidField(s.field));
      }
      if !cfg.fields[s.field].sortable {
        assert !IsSortable(cfg, req.sortFields[i]);
        assert forall j: nat :: FirstBadSort(cfg, req.sortFields, j) ==> j == i;
        return Some(FieldNotSortable(s.field));
      }
    }
    return None;
  }

  // ---- Validate and Compile agree ----

  /** The filter is on a known field, with an allowed operator its resolver has, and with a fitting value. */
  ghost predicate Compilable(go: Go, cfg: ResourceConfig, f: Filter) {
    && FilterOk(go, cfg, f)
    && Accepts(go.parse, ResolverOf(cfg.fields[f.field]), go.lower(f.operator), f.value)
  }

  lemma {:induction false} FiltersCompileIff(
    go: Go, cfg: ResourceConfig, before: seq<Piece>, filters: seq<Filter>)
    ensures WithFilters(go, cfg, before, filters).Ok? <==>
      forall i :: 0 <= i < |filters| ==> Compilable(go, cfg, filters[i])
  {
    hide ResolveSpec, Accepts;
    if filters == [] {
    } else {
      var init, f := filters[..|filters| - 1], filters[|filters| - 1];
      FiltersCompileIff(go, cfg, before, init);
      assert forall i :: 0 <= i < |init| ==> init[i] == filters[i];
      var made := WithFilters(go, cfg, before, init);
      if made.Ok? {
        FilterCompilesIff(go, cfg, f, |ArgsOf(made.value)|);
      }
    }
  }

  lemma FilterCompilesIff(go: Go, cfg: ResourceConfig, f: Filter, base: nat)
    ensures FilterPiece(go, cfg, f, base).Ok? <==> Compilable(go, cfg, f)
  {
    hide ResolveSpec, Accepts;
    if FilterOk(go, cfg, f) {
      ResolvesIffAccepted(
        go.parse, ResolverOf(cfg.fields[f.field]), f.field, go.lower(f.operator), f.value, base);
    }
  }

  /** A request compiles iff each of its filters does by itself. */
  lemma CompilesIff(go: Go, cfg: ResourceConfig, req: RequestBody, tenant: Option<string>, cols: seq<string>)
    ensures CompilePieces(go, cfg, req, tenant, cols).Ok? <==>
      forall i :: 0 <= i < |req.filters| ==> Compilable(go, cfg, req.filters[i])
  {
    hide FixedPieces, WithFilters, Compilable;
    FiltersCompileIff(go, cfg, FixedPieces(cfg, req, tenant, cols), req.filters);
  }

  /** A request Validate accepts never makes Compile report an unknown field. */
  lemma {:induction false} AcceptedFieldsAreKnown(go: Go, cfg: ResourceConfig, before: seq<Piece>, filters: seq<Filter>)
    requires forall i :: 0 <= i < |filters| ==> FilterOk(go, cfg, filters[i])
    ensures
      var r := WithFilters(go, cfg, before, filters);
      r.Err? ==> !r.error.InvalidField?
  {
    hide ResolveSpec;
    if filters == [] {
    } else {
      var init, last := filters[..|filters| - 1], filters[|filters| - 1];
      AcceptedFieldsAreKnown(go, cfg, before, init);
      assert FilterOk(go, cfg, last);
      if WithFilters(go, cfg, before, init).Ok? {
        ResolveErrors(
          go.parse, ResolverOf(cfg.fields[last.field]), last.field, go.lower(last.operator), last.value,
          |ArgsOf(WithFilters(go, cfg, before, init).value)|);
      }
    }
  }

  /** For an accepted request no sort field is skipped: ORDER BY lists them all, in request order. */
  lemma {:induction false} AcceptedSortsAreAllUsed(go: Go, cfg: ResourceConfig, sorts: seq<SortField>)
    requires forall i :: 0 <= i < |sorts| ==> IsSortable(cfg, sorts[i])
    ensures
      var items := OrderItems(go, cfg, sorts);
      |items| == |sorts| &&
      forall i :: 0 <= i < |sorts| ==>
        && IsSortable(cfg, sorts[i])
        && items[i] == OrderItem(cfg.fields[sorts[i].field].column, go.isDesc(sorts[i].direction))
  {
    if sorts == [] {
    } else {
      var init := sorts[..|sorts| - 1];
      assert IsSortable(cfg, sorts[|sorts| - 1]);
      assert forall i :: 0 <= i < |init| ==> init[i] == sorts[i];
      AcceptedSortsAreAllUsed(go, cfg, init);
    }
  }

  lemma {:induction false} SayingTermsAreEffective(terms: seq<string>)
    ensures |SayingTerms(terms)| == |EffectiveTerms(terms)|
  {
    hide TrimSpace;
    if terms == [] {
    } else {
      var n := |terms| - 1;
      SayingTermsAreEffective(terms[..n]);
      SayingStep(terms, n);
      assert terms[..n + 1] == terms;
    }
  }

  /** The terms Validate counts are the ones Compile binds; none when no field is searchable. */
  lemma BoundTermsAreEffectiveTerms(go: Go, cfg: ResourceConfig, req: RequestBody, cols: seq<string>, base: nat)
    requires IsSearchColumns(cfg, cols)
    ensures
      ArgsOf(SearchPieces(cols, req.searchTerms, base)) ==
      if HasSearchableField(cfg) then Patterns(EffectiveTerms(req.searchTerms)) else []
    ensures Acceptable(go, cfg, req) && cfg.maxBulkTerms > 0 ==>
      |ArgsOf(SearchPieces(cols, req.searchTerms, base))| <= cfg.maxBulkTerms
  {
    hide IsSearchColumns, HasSearchableField, WildcardToLike, EffectiveTerms, SayingTerms;
    SayingTermsAreEffective(req.searchTerms);
    NoColumnsNoSearchableField(cfg, cols);
    var pieces := SearchPieces(cols, req.searchTerms, base);
    if pieces != [] {
      assert pieces[..|pieces| - 1] == [];
      assert ArgsOf(pieces) == [] + pieces[0].args;
    }
  }
}
