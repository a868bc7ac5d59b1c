/**
 What compilation preserves: the emitted WHERE clause, parsed with SQL precedence and
 evaluated with the bound arguments, selects exactly the rows the request asks for, as long
 as no sub-query template brings an OR outside parentheses; and what it selects otherwise.
 */
module SearchMeaning {
  import opened Options
  import opened GoStrings
  import opened Pagination
  import opened Coerce
  import opened Wildcard
  import opened Sql
  import opened SqlSplice
  import opened Resolvers
  import opened SearchCompiler

  // ---- What a request asks for ----

  /** Something is left of the term besides wildcards and white space around it. */
  predicate SaysSomething(term: string) {
    exists c :: c in TrimSpace(term) && c != '*' && c != '?'
  }

  ghost predicate SomeTermSays(terms: seq<string>) {
    exists i :: 0 <= i < |terms| && SaysSomething(terms[i])
  }

  /** Some such term matches the text of some searchable field, ignoring case. */
  ghost predicate SearchTrue(env: Env, cfg: ResourceConfig, terms: seq<string>, row: Row) {
    exists i :: 0 <= i < |terms| && SaysSomething(terms[i]) && HitsSomeField(env, cfg, TrimSpace(terms[i]), row)
  }

  /** The field is marked as searchable and has a column of its own. */
  predicate TakesTerms(cfg: ResourceConfig, f: string) {
    f in cfg.fields && cfg.fields[f].searchable && cfg.fields[f].column != ""
  }

  ghost predicate HitsSomeField(env: Env, cfg: ResourceConfig, term: string, row: Row) {
    exists f :: TakesTerms(cfg, f) && TermHits(env, term, row(cfg.fields[f].column))
  }

  predicate TermHits(env: Env, term: string, x: Value) {
    IsText(x) && GlobMatch(env.fold, x.v.s, term)
  }

  ghost predicate HasSearchableField(cfg: ResourceConfig) {
    exists f :: TakesTerms(cfg, f)
  }

  ghost predicate FilterHolds(env: Env, go: Go, cfg: ResourceConfig, f: Filter, row: Row) {
    && f.field in cfg.fields
    && var fc := cfg.fields[f.field];
    match fc.resolver
    case None => FilterTrue(env, go.parse, Direct(fc.column, fc.typ), go.lower(f.operator), f.value, row)
    case Some(resolver) => FilterTrue(env, go.parse, resolver, go.lower(f.operator), f.value, row)
  }

  /** The stored tenant is `tenant`, read as the column's type. */
  predicate OfTenant(env: Env, x: Value, tenant: string) {
    Equals(x, Against(env, x, NoCast, Text(tenant)))
  }

  /** The tenant and search-term conditions. */
  ghost predicate FixedTrue(env: Env, cfg: ResourceConfig, req: RequestBody, tenant: Option<string>, row: Row) {
    && (cfg.tenantColumn != "" && tenant.Some? ==> OfTenant(env, row(cfg.tenantColumn), tenant.value))
    && (HasSearchableField(cfg) && SomeTermSays(req.searchTerms) ==> SearchTrue(env, cfg, req.searchTerms, row))
  }

  ghost predicate RequestTrue(
    env: Env, go: Go, cfg: ResourceConfig, req: RequestBody, tenant: Option<string>, row: Row)
  {
    && FixedTrue(env, cfg, req, tenant, row)
    && forall i :: 0 <= i < |req.filters| ==> FilterHolds(env, go, cfg, req.filters[i], row)
  }

  // ---- What the templates must be ----

  /** Every template the request uses is a condition by itself. */
  ghost predicate TemplatesRead(cfg: ResourceConfig, filters: seq<Filter>) {
    forall i :: 0 <= i < |filters| && filters[i].field in cfg.fields ==>
      ReadsAsCondition(ResolverOf(cfg.fields[filters[i].field]))
  }

  /** And none has an OR outside parentheses. */
  ghost predicate NoTopLevelOr(cfg: ResourceConfig, filters: seq<Filter>) {
    forall i :: 0 <= i < |filters| && filters[i].field in cfg.fields ==>
      ReadsAsOneDisjunct(ResolverOf(cfg.fields[filters[i].field]))
  }

  // ---- Arguments stay where each piece put them ----

  lemma {:induction false} ArgsAppend(a: seq<Piece>, b: seq<Piece>)
    ensures ArgsOf(a + b) == ArgsOf(a) + ArgsOf(b)
  {
    if b == [] {
      assert a + b == a;
    } else {
      var init := b[..|b| - 1];
      assert (a + b)[..|a + b| - 1] == a + init;
      ArgsAppend(a, init);
      assert ArgsOf(a) + (ArgsOf(init) + b[|b| - 1].args) == ArgsOf(a) + ArgsOf(init) + b[|b| - 1].args;
    }
  }

  lemma PieceArgsBound(pieces: seq<Piece>, k: nat)
    requires k < |pieces|
    ensures BoundAt(ArgsOf(pieces), |ArgsOf(pieces[..k])|, pieces[k].args)
  {
    var rest := pieces[k + 1..];
    assert pieces == pieces[..k + 1] + rest;
    ArgsAppend(pieces[..k + 1], rest);
    assert pieces[..k + 1][..k] == pieces[..k];
  }

  // ---- How every piece is read ----

  function ColumnTest(col: string, n: nat): Expr {
    Like(true, false, Col(col), Param(n, NoCast))
  }

  function TermExprs(cols: seq<string>, n: nat): seq<Expr> {
    seq(|cols|, i requires 0 <= i < |cols| => ColumnTest(cols[i], n))
  }

  function SearchExprs(cols: seq<string>, base: nat, count: nat): seq<Expr>
    requires cols != []
  {
    seq(count, i requires 0 <= i < count => OrChain(TermExprs(cols, base + 1 + i)))
  }

  function TenantExpr(cfg: ResourceConfig): Expr {
    Compare(EqOp, Col(cfg.tenantColumn), Param(1, NoCast))
  }

  lemma TermGroupIsAtom(cols: seq<string>, n: nat)
    requires cols != []
    ensures IsAtom(TermTokens(cols, n), OrChain(TermExprs(cols, n)))
  {
    hide ParseNot;
    var parts, es := TermParts(cols, n), TermExprs(cols, n);
    forall i | 0 <= i < |cols|
      ensures IsAtom(parts[i], es[i])
    {
      assert parts[i] == LeafTokens(es[i]);
      LeafReads(es[i]);
    }
    OrGroupIsAtom(parts, es);
  }

  lemma SearchPieceReads(cols: seq<string>, terms: seq<string>, base: nat)
    requires SearchPieces(cols, terms, base) != []
    ensures
      var eff := EffectiveTerms(terms);
      && cols != [] && eff != []
      && Disjuncts(SearchPieces(cols, terms, base)[0].tokens) == Some([[OrChain(SearchExprs(cols, base, |eff|))]])
  {
    hide ParseNot, TermTokens, TermExprs, Disjuncts, EffectiveTerms;
    var eff := EffectiveTerms(terms);
    var parts, es := SearchParts(cols, base, |eff|), SearchExprs(cols, base, |eff|);
    forall i | 0 <= i < |eff|
      ensures IsAtom(parts[i], es[i])
    {
      TermGroupIsAtom(cols, base + 1 + i);
    }
    OrGroupIsAtom(parts, es);
    AtomReads(Parenthesised(JoinTokens(parts, OrTok)), OrChain(es));
  }

  lemma TenantPieceReads(cfg: ResourceConfig, tenant: Option<string>)
    requires TenantPieces(cfg, tenant) != []
    ensures Disjuncts(TenantPieces(cfg, tenant)[0].tokens) == Some([[TenantExpr(cfg)]])
  {
    hide Disjuncts, ParseNot;
    assert TenantPieces(cfg, tenant)[0].tokens == LeafTokens(TenantExpr(cfg));
    LeafReads(TenantExpr(cfg));
    AtomReads(LeafTokens(TenantExpr(cfg)), TenantExpr(cfg));
  }

  predicate Readable(p: Piece) {
    Disjuncts(p.tokens).Some?
  }

  function ReadingOf(p: Piece): seq<seq<Expr>>
    requires Readable(p)
  {
    Disjuncts(p.tokens).value
  }

  lemma FixedPiecesRead(cfg: ResourceConfig, req: RequestBody, tenant: Option<string>, cols: seq<string>)
    ensures OneDisjunctEach(FixedPieces(cfg, req, tenant, cols))
  {
    hide Disjuncts, SearchPieces;
    var t := TenantPieces(cfg, tenant);
    var s := SearchPieces(cols, req.searchTerms, |ArgsOf(t)|);
    SearchPiecesAtMostOne(cols, req.searchTerms, |ArgsOf(t)|);
    if t != [] {
      TenantPieceReads(cfg, tenant);
    }
    if s != [] {
      SearchPieceReads(cols, req.searchTerms, |ArgsOf(t)|);
    }
  }

  /** The filters' pieces follow the fixed ones, in order, each numbered after the arguments before it. */
  ghost predicate FiltersFollow(
    go: Go, cfg: ResourceConfig, before: seq<Piece>, filters: seq<Filter>, pieces: seq<Piece>)
  {
    && |pieces| == |before| + |filters| && pieces[..|before|] == before
    && forall i :: 0 <= i < |filters| ==>
      FilterPiece(go, cfg, filters[i], |ArgsOf(pieces[..|before| + i])|) == Ok(pieces[|before| + i])
  }

  lemma OneMoreFollows(
    go: Go, cfg: ResourceConfig, before: seq<Piece>, filters: seq<Filter>, pieces: seq<Piece>, f: Filter, p: Piece)
    requires FiltersFollow(go, cfg, before, filters, pieces)
    requires FilterPiece(go, cfg, f, |ArgsOf(pieces)|) == Ok(p)
    ensures FiltersFollow(go, cfg, before, filters + [f], pieces + [p])
  {
    hide FilterPiece, ArgsOf;
    var all := pieces + [p];
    assert all[..|before|] == pieces[..|before|];
    forall i | 0 <= i < |filters + [f]|
      ensures FilterPiece(go, cfg, (filters + [f])[i], |ArgsOf(all[..|before| + i])|) == Ok(all[|before| + i])
    {
      assert all[..|before| + i] == pieces[..|before| + i];
      if i == |filters| {
        assert pieces[..|before| + i] == pieces;
      }
    }
  }

  lemma {:induction false} WithFiltersShape(go: Go, cfg: ResourceConfig, before: seq<Piece>, filters: seq<Filter>)
    requires WithFilters(go, cfg, before, filters).Ok?
    ensures FiltersFollow(go, cfg, before, filters, WithFilters(go, cfg, before, filters).value)
  {
    hide FilterPiece, ArgsOf;
    if filters == [] {
      assert before[..|before|] == before;
    } else {
      hide FiltersFollow;
      var init, last := filters[..|filters| - 1], filters[|filters| - 1];
      WithFiltersShape(go, cfg, before, init);
      var pieces := WithFilters(go, cfg, before, init).value;
      OneMoreFollows(go, cfg, before, init, pieces, last, FilterPiece(go, cfg, last, |ArgsOf(pieces)|).value);
      assert filters == init + [last];
    }
  }

  lemma FilterPieceReads(go: Go, cfg: ResourceConfig, f: Filter, base: nat)
    requires FilterPiece(go, cfg, f, base).Ok? && ReadsAsCondition(ResolverOf(cfg.fields[f.field]))
    ensures
      var p := FilterPiece(go, cfg, f, base).value;
      Readable(p) && (|ReadingOf(p)| == 1 <==> ReadsAsOneDisjunct(ResolverOf(cfg.fields[f.field])))
  {
    hide Disjuncts, ResolveSpec, ReadsAsOneDisjunct, ReadsAsCondition;
    ResolvedReads(go.parse, ResolverOf(cfg.fields[f.field]), f.field, go.lower(f.operator), f.value, base);
  }

  lemma KnownField(go: Go, cfg: ResourceConfig, f: Filter, base: nat)
    requires FilterPiece(go, cfg, f, base).Ok?
    ensures f.field in cfg.fields
  {
    hide ResolveSpec;
  }

  ghost predicate AllReadable(pieces: seq<Piece>) {
    forall k :: 0 <= k < |pieces| ==> Readable(pieces[k])
  }

  ghost function Readings(pieces: seq<Piece>): (rs: seq<seq<seq<Expr>>>)
    requires AllReadable(pieces)
    ensures |rs| == |pieces|
    ensures forall k :: 0 <= k < |pieces| ==> rs[k] == ReadingOf(pieces[k])
  {
    seq(|pieces|, k requires 0 <= k < |pieces| => ReadingOf(pieces[k]))
  }

  /** The tenant and search conditions have one disjunct; a filter has one unless its template brings more. */
  lemma CompiledPieceReads(
    go: Go, cfg: ResourceConfig, before: seq<Piece>, filters: seq<Filter>, pieces: seq<Piece>, i: nat)
    requires FiltersFollow(go, cfg, before, filters, pieces) && TemplatesRead(cfg, filters) && i < |filters|
    ensures
      var p := pieces[|before| + i];
      && filters[i].field in cfg.fields && Readable(p)
      && (|ReadingOf(p)| == 1 <==> ReadsAsOneDisjunct(ResolverOf(cfg.fields[filters[i].field])))
  {
    hide Readable, ReadingOf, FilterPiece, ReadsAsCondition, ReadsAsOneDisjunct;
    var base := |ArgsOf(pieces[..|before| + i])|;
    KnownField(go, cfg, filters[i], base);
    FilterPieceReads(go, cfg, filters[i], base);
  }

  ghost predicate OneDisjunctEach(pieces: seq<Piece>) {
    forall k :: 0 <= k < |pieces| ==> Readable(pieces[k]) && |ReadingOf(pieces[k])| == 1
  }

  lemma FilterPiecesReadable(go: Go, cfg: ResourceConfig, before: seq<Piece>, filters: seq<Filter>, pieces: seq<Piece>)
    requires FiltersFollow(go, cfg, before, filters, pieces) && TemplatesRead(cfg, filters) && OneDisjunctEach(before)
    ensures AllReadable(pieces)
  {
    hide Readable, ReadingOf, FilterPiece, ReadsAsCondition, ReadsAsOneDisjunct;
    forall k | 0 <= k < |pieces|
      ensures Readable(pieces[k])
    {
      if k < |before| {
        assert pieces[k] == before[k];
      } else {
        CompiledPieceReads(go, cfg, before, filters, pieces, k - |before|);
      }
    }
  }

  lemma FilterPiecesSingle(go: Go, cfg: ResourceConfig, before: seq<Piece>, filters: seq<Filter>, pieces: seq<Piece>)
    requires FiltersFollow(go, cfg, before, filters, pieces) && TemplatesRead(cfg, filters) && OneDisjunctEach(before)
    ensures OneDisjunctEach(pieces) <==> NoTopLevelOr(cfg, filters)
  {
    hide Readable, ReadingOf, FilterPiece, ReadsAsCondition, ReadsAsOneDisjunct;
    if NoTopLevelOr(cfg, filters) {
      forall k | 0 <= k < |pieces|
        ensures Readable(pieces[k]) && |ReadingOf(pieces[k])| == 1
      {
        if k < |before| {
          assert pieces[k] == before[k];
        } else {
          CompiledPieceReads(go, cfg, before, filters, pieces, k - |before|);
        }
      }
    }
    if OneDisjunctEach(pieces) {
      forall i | 0 <= i < |filters|
        ensures filters[i].field in cfg.fields && ReadsAsOneDisjunct(ResolverOf(cfg.fields[filters[i].field]))
      {
        CompiledPieceReads(go, cfg, before, filters, pieces, i);
      }
    }
  }

  /** Every compiled piece is a condition by itself; only a template can have several disjuncts. */
  lemma CompiledReadable(
    go: Go, cfg: ResourceConfig, req: RequestBody, tenant: Option<string>, cols: seq<string>, pieces: seq<Piece>)
    requires CompilePieces(go, cfg, req, tenant, cols) == Ok(pieces) && TemplatesRead(cfg, req.filters)
    ensures AllReadable(pieces) && (AllSingle(Readings(pieces)) <==> NoTopLevelOr(cfg, req.filters))
  {
    hide Readable, ReadingOf, FixedPieces, FilterPiece, TemplatesRead, NoTopLevelOr, FiltersFollow;
    var before := FixedPieces(cfg, req, tenant, cols);
    WithFiltersShape(go, cfg, before, req.filters);
    FixedPiecesRead(cfg, req, tenant, cols);
    FilterPiecesReadable(go, cfg, before, req.filters, pieces);
    FilterPiecesSingle(go, cfg, before, req.filters, pieces);
    assert AllSingle(Readings(pieces)) <==> OneDisjunctEach(pieces) by {
      assert forall k :: 0 <= k < |pieces| ==> Readings(pieces)[k] == ReadingOf(pieces[k]);
    }
  }

  /** How the whole clause is read, whatever its templates: neighbouring disjuncts run together. */
  lemma ClauseReads(pieces: seq<Piece>)
    requires pieces != [] && AllReadable(pieces)
    ensures AllDisjunctions(Readings(pieces))
    ensures Disjuncts(JoinTokens(TokensOf(pieces), AndTok)) == Some(SpliceAll(Readings(pieces)))
  {
    hide Disjuncts, JoinTokens;
    ConjunctionReads(TokensOf(pieces), Readings(pieces));
  }

  // ---- What each piece means ----

  lemma ColumnTestMeaning(env: Env, col: string, term: string, n: nat, row: Row, args: seq<Arg>)
    requires 1 <= n <= |args| && args[n - 1] == Text(WildcardToLike(term))
    ensures Eval(env, ColumnTest(col, n), row, args) == True <==> TermHits(env, term, row(col))
  {
    hide WildcardToLike, LikeMatch, GlobMatch;
    var x := row(col);
    if IsText(x) {
      TranslationPreservesMeaning(env.fold, x.v.s, term);
    }
  }

  ghost predicate HitsSomeColumn(env: Env, cols: seq<string>, term: string, row: Row) {
    exists k :: 0 <= k < |cols| && TermHits(env, term, row(cols[k]))
  }

  lemma TermGroupMeaning(env: Env, cols: seq<string>, term: string, n: nat, row: Row, args: seq<Arg>)
    requires cols != [] && 1 <= n <= |args| && args[n - 1] == Text(WildcardToLike(term))
    ensures Eval(env, OrChain(TermExprs(cols, n)), row, args) == True <==> HitsSomeColumn(env, cols, term, row)
  {
    hide ColumnTest, TermHits, WildcardToLike;
    var es := TermExprs(cols, n);
    OrChainTrue(env, es, row, args);
    forall k | 0 <= k < |cols|
      ensures Eval(env, es[k], row, args) == True <==> TermHits(env, term, row(cols[k]))
    {
      ColumnTestMeaning(env, cols[k], term, n, row, args);
    }
  }

  lemma FieldsAreColumns(env: Env, cfg: ResourceConfig, cols: seq<string>, term: string, row: Row)
    requires IsSearchColumns(cfg, cols)
    ensures HitsSomeField(env, cfg, term, row) <==> HitsSomeColumn(env, cols, term, row)
  {
    hide TermHits, IsSearchColumns;
    if HitsSomeField(env, cfg, term, row) {
      var f :| TakesTerms(cfg, f) && TermHits(env, term, row(cfg.fields[f].column));
      SearchColumnsMembers(cfg, cols, cfg.fields[f].column);
      var k :| 0 <= k < |cols| && cols[k] == cfg.fields[f].column;
      assert TermHits(env, term, row(cols[k]));
    }
    if HitsSomeColumn(env, cols, term, row) {
      var k :| 0 <= k < |cols| && TermHits(env, term, row(cols[k]));
      SearchColumnsMembers(cfg, cols, cols[k]);
      var f :| f in cfg.fields && IsSearchable(cfg.fields[f]) && cfg.fields[f].column == cols[k];
      assert TakesTerms(cfg, f) && TermHits(env, term, row(cfg.fields[f].column));
    }
  }

  ghost predicate SomeHits(env: Env, cfg: ResourceConfig, eff: seq<string>, row: Row) {
    exists i :: 0 <= i < |eff| && HitsSomeField(env, cfg, eff[i], row)
  }

  lemma SearchGroupMeaning(
    env: Env, cfg: ResourceConfig, cols: seq<string>, eff: seq<string>, base: nat, row: Row, args: seq<Arg>)
    requires IsSearchColumns(cfg, cols) && cols != [] && eff != [] && BoundAt(args, base, Patterns(eff))
    ensures Eval(env, OrChain(SearchExprs(cols, base, |eff|)), row, args) == True <==> SomeHits(env, cfg, eff, row)
  {
    hide TermExprs, WildcardToLike, IsSearchColumns, HitsSomeColumn, HitsSomeField, Eval, OrChain;
    var es := SearchExprs(cols, base, |eff|);
    OrChainTrue(env, es, row, args);
    forall i | 0 <= i < |eff|
      ensures Eval(env, es[i], row, args) == True <==> HitsSomeField(env, cfg, eff[i], row)
    {
      assert args[base + i] == args[base..base + |eff|][i];
      TermGroupMeaning(env, cols, eff[i], base + 1 + i, row, args);
      FieldsAreColumns(env, cfg, cols, eff[i], row);
    }
    assert |es| == |eff|;
  }

  lemma NoColumnsNoSearchableField(cfg: ResourceConfig, cols: seq<string>)
    requires IsSearchColumns(cfg, cols)
    ensures cols == [] <==> !HasSearchableField(cfg)
  {
    if f :| TakesTerms(cfg, f) {
      SearchColumnsMembers(cfg, cols, cfg.fields[f].column);
    }
    if cols != [] {
      SearchColumnsMembers(cfg, cols, cols[0]);
      var f :| f in cfg.fields && IsSearchable(cfg.fields[f]) && cfg.fields[f].column == cols[0];
      assert TakesTerms(cfg, f);
    }
  }

  ghost predicate PieceTrue(env: Env, p: Piece, row: Row, args: seq<Arg>) {
    Readable(p) && SomeGroupTrue(env, ReadingOf(p), row, args)
  }

  lemma TenantMeaning(env: Env, cfg: ResourceConfig, tenant: Option<string>, row: Row, args: seq<Arg>)
    requires TenantPieces(cfg, tenant) != [] && args != [] && args[0] == Text(tenant.value)
    ensures PieceTrue(env, TenantPieces(cfg, tenant)[0], row, args) <==>
      OfTenant(env, row(cfg.tenantColumn), tenant.value)
    ensures Eval(env, TenantExpr(cfg), row, args) == True <==> OfTenant(env, row(cfg.tenantColumn), tenant.value)
  {
    hide Disjuncts;
    TenantPieceReads(cfg, tenant);
    AtomMeaning(env, TenantExpr(cfg), row, args);
  }

  /** The effective terms are the trimmed terms that say something. */
  lemma {:induction false} EffectiveTermsSay(terms: seq<string>, t: string)
    ensures t in EffectiveTerms(terms) <==>
      exists i :: 0 <= i < |terms| && SaysSomething(terms[i]) && t == TrimSpace(terms[i])
  {
    hide TrimSpace;
    if terms == [] {
    } else {
      var init, last := terms[..|terms| - 1], terms[|terms| - 1];
      EffectiveTermsSay(init, t);
      assert IsEffective(last) <==> SaysSomething(last);
      assert forall i :: 0 <= i < |init| ==> init[i] == terms[i];
    }
  }

  lemma EffectiveIffSomeSays(terms: seq<string>)
    ensures EffectiveTerms(terms) != [] <==> SomeTermSays(terms)
  {
    hide EffectiveTerms, SaysSomething;
    var eff := EffectiveTerms(terms);
    if eff != [] {
      EffectiveTermsSay(terms, eff[0]);
    }
    if i :| 0 <= i < |terms| && SaysSomething(terms[i]) {
      EffectiveTermsSay(terms, TrimSpace(terms[i]));
    }
  }

  lemma SearchTrueOfEffective(env: Env, cfg: ResourceConfig, terms: seq<string>, row: Row)
    ensures SearchTrue(env, cfg, terms, row) <==> SomeHits(env, cfg, EffectiveTerms(terms), row)
  {
    hide EffectiveTerms, SaysSomething, HitsSomeField, TrimSpace;
    var eff := EffectiveTerms(terms);
    if SearchTrue(env, cfg, terms, row) {
      var i :| 0 <= i < |terms| && SaysSomething(terms[i]) && HitsSomeField(env, cfg, TrimSpace(terms[i]), row);
      EffectiveTermsSay(terms, TrimSpace(terms[i]));
      var j :| 0 <= j < |eff| && eff[j] == TrimSpace(terms[i]);
      assert HitsSomeField(env, cfg, eff[j], row);
    } else if SomeHits(env, cfg, eff, row) {
      var j :| 0 <= j < |eff| && HitsSomeField(env, cfg, eff[j], row);
      EffectiveTermsSay(terms, eff[j]);
      assert false;
    }
  }

  lemma SearchPieceMeaning(
    env: Env, cfg: ResourceConfig, req: RequestBody, cols: seq<string>, base: nat, row: Row, args: seq<Arg>)
    requires IsSearchColumns(cfg, cols) && SearchPieces(cols, req.searchTerms, base) != []
    requires BoundAt(args, base, SearchPieces(cols, req.searchTerms, base)[0].args)
    ensures PieceTrue(env, SearchPieces(cols, req.searchTerms, base)[0], row, args) <==>
      SearchTrue(env, cfg, req.searchTerms, row)
  {
    hide Disjuncts, IsSearchColumns, Eval, WildcardToLike, EffectiveTerms, HitsSomeField, SearchTrue;
    var eff := EffectiveTerms(req.searchTerms);
    SearchPieceReads(cols, req.searchTerms, base);
    AtomMeaning(env, OrChain(SearchExprs(cols, base, |eff|)), row, args);
    SearchGroupMeaning(env, cfg, cols, eff, base, row, args);
    SearchTrueOfEffective(env, cfg, req.searchTerms, row);
  }

  lemma FixedMeaning(
    env: Env, cfg: ResourceConfig, req: RequestBody, tenant: Option<string>, cols: seq<string>, pieces: seq<Piece>,
    row: Row)
    requires IsSearchColumns(cfg, cols)
    requires FixedPieces(cfg, req, tenant, cols) <= pieces
    ensures
      var n := |FixedPieces(cfg, req, tenant, cols)|;
      (forall k :: 0 <= k < n ==> PieceTrue(env, pieces[k], row, ArgsOf(pieces))) <==>
      FixedTrue(env, cfg, req, tenant, row)
  {
    hide PieceTrue, HasSearchableField, IsSearchColumns, SearchTrue, OfTenant, JoinTokens, SomeTermSays, EffectiveTerms;
    var args := ArgsOf(pieces);
    var t := TenantPieces(cfg, tenant);
    var s := SearchPieces(cols, req.searchTerms, |ArgsOf(t)|);
    var fixed := FixedPieces(cfg, req, tenant, cols);
    assert |t| <= 1 && |s| <= 1 && fixed == t + s;
    if t != [] {
      assert pieces[0] == t[0];
      PieceArgsBound(pieces, 0);
      assert ArgsOf(pieces[..0]) == [];
      assert args[0] == args[0..1][0];
      TenantMeaning(env, cfg, tenant, row, args);
    }
    NoColumnsNoSearchableField(cfg, cols);
    if s != [] {
      assert pieces[|t|] == fixed[|t|] == s[0];
      PieceArgsBound(pieces, |t|);
      assert pieces[..|t|] == fixed[..|t|] == t;
      SearchPieceMeaning(env, cfg, req, cols, |ArgsOf(t)|, row, args);
    }
    EffectiveIffSomeSays(req.searchTerms);
    assert s != [] <==> HasSearchableField(cfg) && SomeTermSays(req.searchTerms);
    assert t != [] <==> cfg.tenantColumn != "" && tenant.Some?;
  }

  lemma FilterPieceMeaning(env: Env, go: Go, cfg: ResourceConfig, f: Filter, base: nat, row: Row, args: seq<Arg>)
    requires FilterPiece(go, cfg, f, base).Ok? && BoundAt(args, base, FilterPiece(go, cfg, f, base).value.args)
    requires ReadsAsCondition(ResolverOf(cfg.fields[f.field]))
    ensures PieceTrue(env, FilterPiece(go, cfg, f, base).value, row, args) <==> FilterHolds(env, go, cfg, f, row)
  {
    hide SomeGroupTrue, FilterTrue, ResolveSpec, Disjuncts, ReadsAsCondition;
    ResolvedMeaning(env, go.parse, ResolverOf(cfg.fields[f.field]), f.field, go.lower(f.operator), f.value, base, row,
      args);
  }

  lemma FilterMeaningAt(
    env: Env, go: Go, cfg: ResourceConfig, before: seq<Piece>, filters: seq<Filter>, pieces: seq<Piece>, i: nat,
    row: Row)
    requires FiltersFollow(go, cfg, before, filters, pieces) && TemplatesRead(cfg, filters) && i < |filters|
    ensures PieceTrue(env, pieces[|before| + i], row, ArgsOf(pieces)) <==> FilterHolds(env, go, cfg, filters[i], row)
  {
    hide PieceTrue, FilterPiece, FilterHolds, ReadsAsCondition, ArgsOf;
    var base := |ArgsOf(pieces[..|before| + i])|;
    assert FilterPiece(go, cfg, filters[i], base) == Ok(pieces[|before| + i]);
    PieceArgsBound(pieces, |before| + i);
    KnownField(go, cfg, filters[i], base);
    FilterPieceMeaning(env, go, cfg, filters[i], base, row, ArgsOf(pieces));
  }

  lemma FiltersMeaning(
    env: Env, go: Go, cfg: ResourceConfig, before: seq<Piece>, filters: seq<Filter>, pieces: seq<Piece>, row: Row)
    requires FiltersFollow(go, cfg, before, filters, pieces) && TemplatesRead(cfg, filters)
    ensures
      (forall k :: |before| <= k < |pieces| ==> PieceTrue(env, pieces[k], row, ArgsOf(pieces))) <==>
      forall i :: 0 <= i < |filters| ==> FilterHolds(env, go, cfg, filters[i], row)
  {
    hide PieceTrue, FilterHolds, ArgsOf, TemplatesRead;
    assert |pieces| == |before| + |filters|;
    forall i | 0 <= i < |filters|
      ensures PieceTrue(env, pieces[|before| + i], row, ArgsOf(pieces)) <==> FilterHolds(env, go, cfg, filters[i], row)
    {
      FilterMeaningAt(env, go, cfg, before, filters, pieces, i, row);
    }
    hide FiltersFollow;
    if forall i :: 0 <= i < |filters| ==> FilterHolds(env, go, cfg, filters[i], row) {
      forall k | |before| <= k < |pieces|
        ensures PieceTrue(env, pieces[k], row, ArgsOf(pieces))
      {
        var i := k - |before|;
        assert FilterHolds(env, go, cfg, filters[i], row) && k == |before| + i;
      }
    }
  }

  // ---- The whole clause ----

  /** The request asks for a row iff every condition, read by itself, is TRUE of it. */
  lemma RequestIsAllPieces(
    env: Env, go: Go, cfg: ResourceConfig, req: RequestBody, tenant: Option<string>, cols: seq<string>,
    pieces: seq<Piece>, row: Row)
    requires IsSearchColumns(cfg, cols) && CompilePieces(go, cfg, req, tenant, cols) == Ok(pieces)
    requires TemplatesRead(cfg, req.filters)
    ensures
      RequestTrue(env, go, cfg, req, tenant, row) <==>
      forall k :: 0 <= k < |pieces| ==> PieceTrue(env, pieces[k], row, ArgsOf(pieces))
  {
    hide PieceTrue, FixedPieces, FilterPiece, FilterHolds, IsSearchColumns, FixedTrue, ReadsAsCondition;
    var before := FixedPieces(cfg, req, tenant, cols);
    WithFiltersShape(go, cfg, before, req.filters);
    FixedMeaning(env, cfg, req, tenant, cols, pieces, row);
    FiltersMeaning(env, go, cfg, before, req.filters, pieces, row);
  }

  lemma SelectsBySplice(env: Env, pieces: seq<Piece>, row: Row)
    requires pieces != [] && AllReadable(pieces)
    ensures AllDisjunctions(Readings(pieces))
    ensures
      Selects(env, JoinTokens(TokensOf(pieces), AndTok), ArgsOf(pieces), row) <==>
      SomeGroupTrue(env, SpliceAll(Readings(pieces)), row, ArgsOf(pieces))
  {
    hide Disjuncts, JoinTokens, SomeGroupTrue, Selects;
    ClauseReads(pieces);
    EmptyDoesNotRead();
    SelectsIffSomeGroup(env, JoinTokens(TokensOf(pieces), AndTok), ArgsOf(pieces), row);
  }

  lemma EmptyDoesNotRead()
    ensures Disjuncts([]) == None
  {
  }

  lemma PiecesTrueByReadings(env: Env, pieces: seq<Piece>, row: Row, args: seq<Arg>)
    requires AllReadable(pieces)
    ensures
      (forall k :: 0 <= k < |pieces| ==> PieceTrue(env, pieces[k], row, args)) <==>
      forall k :: 0 <= k < |pieces| ==> SomeGroupTrue(env, Readings(pieces)[k], row, args)
  {
    hide Readable, ReadingOf, SomeGroupTrue;
    assert forall k :: 0 <= k < |pieces| ==>
      (PieceTrue(env, pieces[k], row, args) <==> SomeGroupTrue(env, Readings(pieces)[k], row, args));
  }

  lemma SelectsIffAllTrue(env: Env, pieces: seq<Piece>, row: Row)
    requires pieces != [] && AllReadable(pieces) && (|pieces| == 1 || AllSingle(Readings(pieces)))
    ensures
      Selects(env, JoinTokens(TokensOf(pieces), AndTok), ArgsOf(pieces), row) <==>
      forall k :: 0 <= k < |pieces| ==> PieceTrue(env, pieces[k], row, ArgsOf(pieces))
  {
    hide *;
    SelectsBySplice(env, pieces, row);
    PiecesTrueByReadings(env, pieces, row, ArgsOf(pieces));
    if |pieces| == 1 {
      OnlyReading(env, pieces, row, ArgsOf(pieces));
    } else {
      SingleMeaning(env, Readings(pieces), row, ArgsOf(pieces));
    }
  }

  lemma OnlyReading(env: Env, pieces: seq<Piece>, row: Row, args: seq<Arg>)
    requires |pieces| == 1 && AllReadable(pieces) && AllDisjunctions(Readings(pieces))
    ensures
      SomeGroupTrue(env, SpliceAll(Readings(pieces)), row, args) <==>
      forall k :: 0 <= k < |pieces| ==> SomeGroupTrue(env, Readings(pieces)[k], row, args)
  {
    hide SomeGroupTrue, AllReadable, Readings;
    assert SpliceAll(Readings(pieces)) == Readings(pieces)[0];
  }

  /** A row is selected iff it satisfies the request: one condition alone, or no OR outside parentheses. */
  lemma CompilePreservesMeaning(
    env: Env, go: Go, cfg: ResourceConfig, req: RequestBody, tenant: Option<string>, cols: seq<string>,
    pieces: seq<Piece>, row: Row)
    requires IsSearchColumns(cfg, cols) && CompilePieces(go, cfg, req, tenant, cols) == Ok(pieces)
    requires TemplatesRead(cfg, req.filters) && (|pieces| <= 1 || NoTopLevelOr(cfg, req.filters))
    ensures
      Selects(env, JoinTokens(TokensOf(pieces), AndTok), ArgsOf(pieces), row) <==>
        RequestTrue(env, go, cfg, req, tenant, row)
  {
    hide *;
    RequestIsAllPieces(env, go, cfg, req, tenant, cols, pieces, row);
    if pieces == [] {
      NothingSelectsAll(env, row);
    } else {
      CompiledReadable(go, cfg, req, tenant, cols, pieces);
      SelectsIffAllTrue(env, pieces, row);
    }
  }

  lemma NothingSelectsAll(env: Env, row: Row)
    ensures Selects(env, JoinTokens(TokensOf([]), AndTok), ArgsOf([]), row)
  {
  }

  // ---- Tenant isolation ----

  /** With a tenant column and a tenant, and no OR outside parentheses, every selected row is the tenant's. */
  lemma TenantIsolation(
    env: Env, go: Go, cfg: ResourceConfig, req: RequestBody, tenant: string, cols: seq<string>, pieces: seq<Piece>,
    row: Row)
    requires IsSearchColumns(cfg, cols) && CompilePieces(go, cfg, req, Some(tenant), cols) == Ok(pieces)
    requires cfg.tenantColumn != "" && TemplatesRead(cfg, req.filters) && NoTopLevelOr(cfg, req.filters)
    requires Selects(env, JoinTokens(TokensOf(pieces), AndTok), ArgsOf(pieces), row)
    ensures OfTenant(env, row(cfg.tenantColumn), tenant)
  {
    hide Selects, CompilePieces, IsSearchColumns, TemplatesRead, NoTopLevelOr, FilterHolds, JoinTokens;
    CompilePreservesMeaning(env, go, cfg, req, Some(tenant), cols, pieces, row);
  }

  lemma TenantComesFirst(
    go: Go, cfg: ResourceConfig, req: RequestBody, tenant: string, cols: seq<string>, pieces: seq<Piece>)
    requires CompilePieces(go, cfg, req, Some(tenant), cols) == Ok(pieces) && cfg.tenantColumn != ""
    ensures pieces != [] && TenantPieces(cfg, Some(tenant)) == [pieces[0]]
  {
    hide SearchPieces, FilterPiece;
    WithFiltersShape(go, cfg, FixedPieces(cfg, req, Some(tenant), cols), req.filters);
  }

  /** The tenant condition opens the clause, so it guards the first disjunct. */
  lemma FirstDisjunctIsGuarded(
    env: Env, go: Go, cfg: ResourceConfig, req: RequestBody, tenant: string, cols: seq<string>, pieces: seq<Piece>,
    row: Row)
    requires CompilePieces(go, cfg, req, Some(tenant), cols) == Ok(pieces) && cfg.tenantColumn != ""
    requires AllReadable(pieces)
    ensures pieces != [] && AllDisjunctions(Readings(pieces))
    ensures GroupTrue(env, SpliceAll(Readings(pieces))[0], row, ArgsOf(pieces)) ==>
      OfTenant(env, row(cfg.tenantColumn), tenant)
  {
    hide Disjuncts, CompilePieces, OfTenant, Eval, JoinTokens;
    TenantComesFirst(go, cfg, req, tenant, cols, pieces);
    TenantPieceReads(cfg, Some(tenant));
    ClauseReads(pieces);
    var rs := Readings(pieces);
    assert rs[0] == [[TenantExpr(cfg)]];
    FirstDisjunct(rs);
    assert SpliceAll(rs)[0][0] == TenantExpr(cfg);
    PieceArgsBound(pieces, 0);
    assert ArgsOf(pieces[..0]) == [];
    assert ArgsOf(pieces)[0] == ArgsOf(pieces)[0..1][0];
    TenantMeaning(env, cfg, Some(tenant), row, ArgsOf(pieces));
  }

  /**
   For templates that are conditions: the clause keeps to the tenant iff no disjunct after the
   first holds of another tenant's row.  There is only one disjunct iff no template has an OR
   outside parentheses.
   */
  lemma TenantIsolationIff(
    env: Env, go: Go, cfg: ResourceConfig, req: RequestBody, tenant: string, cols: seq<string>, pieces: seq<Piece>)
    requires CompilePieces(go, cfg, req, Some(tenant), cols) == Ok(pieces) && cfg.tenantColumn != ""
    requires TemplatesRead(cfg, req.filters)
    ensures AllReadable(pieces) && AllDisjunctions(Readings(pieces))
    ensures
      (forall row: Row :: Selects(env, JoinTokens(TokensOf(pieces), AndTok), ArgsOf(pieces), row) ==>
        OfTenant(env, row(cfg.tenantColumn), tenant)) <==>
      (forall row: Row, j | 1 <= j < |SpliceAll(Readings(pieces))| ::
        GroupTrue(env, SpliceAll(Readings(pieces))[j], row, ArgsOf(pieces)) ==>
          OfTenant(env, row(cfg.tenantColumn), tenant))
    ensures |SpliceAll(Readings(pieces))| == 1 <==> NoTopLevelOr(cfg, req.filters)
  {
    hide Selects, CompilePieces, TemplatesRead, NoTopLevelOr, OfTenant, JoinTokens, GroupTrue, SpliceAll, AllReadable,
      Readable;
    CompiledReadable(go, cfg, req, Some(tenant), cols, pieces);
    TenantComesFirst(go, cfg, req, tenant, cols, pieces);
    ClauseReads(pieces);
    forall row: Row
      ensures GroupTrue(env, SpliceAll(Readings(pieces))[0], row, ArgsOf(pieces)) ==>
        OfTenant(env, row(cfg.tenantColumn), tenant)
      ensures Selects(env, JoinTokens(TokensOf(pieces), AndTok), ArgsOf(pieces), row) <==>
        SomeGroupTrue(env, SpliceAll(Readings(pieces)), row, ArgsOf(pieces))
    {
      FirstDisjunctIsGuarded(env, go, cfg, req, tenant, cols, pieces, row);
      SelectsBySplice(env, pieces, row);
    }
    OneDisjunctIff(Readings(pieces));
  }

  /**
   When the last filter's template has an OR outside parentheses, every row that satisfies what
   follows its last OR is selected, whatever the tenant and the other conditions say.
   */
  lemma LastDisjunctSelects(env: Env, pieces: seq<Piece>, row: Row)
    requires pieces != [] && AllReadable(pieces) && |ReadingOf(pieces[|pieces| - 1])| > 1
    requires
      var last := ReadingOf(pieces[|pieces| - 1]);
      GroupTrue(env, last[|last| - 1], row, ArgsOf(pieces))
    ensures Selects(env, JoinTokens(TokensOf(pieces), AndTok), ArgsOf(pieces), row)
  {
    hide Selects, JoinTokens, GroupTrue, Disjuncts;
    SelectsBySplice(env, pieces, row);
    LastDisjunctStands(Readings(pieces));
  }

  // ---- A template with an OR outside parentheses ----

  /** `a = %s OR b IS NULL` */
  function OrTemplate(a: string, b: string): seq<seq<Token>> {
    [[ColTok(a), CmpTok(EqOp)], [OrTok, ColTok(b), IsTok, NullTok]]
  }

  lemma OrTemplateReads(a: string, b: string, n: nat, cast: Cast)
    ensures Disjuncts(TemplateTokens(OrTemplate(a, b), n, cast)) ==
      Some([[Compare(EqOp, Col(a), Param(n, cast))], [IsNull(false, Col(b))]])
  {
    hide Disjuncts, ParseNot;
    var l, r := Compare(EqOp, Col(a), Param(n, cast)), IsNull(false, Col(b));
    LeafReads(l);
    LeafReads(r);
    AtomOrAtom(LeafTokens(l), l, LeafTokens(r), r);
    assert TemplateTokens(OrTemplate(a, b), n, cast) == LeafTokens(l) + [OrTok] + LeafTokens(r);
  }

  function OneFilter(field: string, x: string, page: Page): RequestBody {
    RequestBody([], [Filter(field, "eq", JString(x))], [], page)
  }

  ghost predicate FiltersByOrTemplate(go: Go, cfg: ResourceConfig, field: string, a: string, b: string) {
    && go.lower("eq") == "eq" && cfg.tenantColumn != "" && field in cfg.fields
    && cfg.fields[field].allowedOperators == []
    && cfg.fields[field].resolver == Some(Subquery(OrTemplate(a, b), FieldString))
  }

  lemma OrTemplateCompiles(
    go: Go, cfg: ResourceConfig, field: string, a: string, b: string, x: string, page: Page, tenant: string,
    cols: seq<string>)
    requires FiltersByOrTemplate(go, cfg, field, a, b)
    ensures
      CompilePieces(go, cfg, OneFilter(field, x, page), Some(tenant), cols) ==
      Ok(TenantPieces(cfg, Some(tenant)) + [Piece(TemplateTokens(OrTemplate(a, b), 2, NoCast), [Text(x)])])
  {
    hide TemplateTokens;
    var req, t := OneFilter(field, x, page), TenantPieces(cfg, Some(tenant));
    assert SearchPieces(cols, req.searchTerms, |ArgsOf(t)|) == [];
    assert FixedPieces(cfg, req, Some(tenant), cols) == t;
    assert t[..0] == [] && |ArgsOf(t)| == 1;
    assert req.filters[..0] == [];
    assert WithFilters(go, cfg, t, []) == Ok(t);
    OrTemplatePiece(go, cfg, field, a, b, x);
  }

  lemma OrTemplatePiece(go: Go, cfg: ResourceConfig, field: string, a: string, b: string, x: string)
    requires FiltersByOrTemplate(go, cfg, field, a, b)
    ensures FilterPiece(go, cfg, Filter(field, "eq", JString(x)), 1) ==
      Ok(Piece(TemplateTokens(OrTemplate(a, b), 2, NoCast), [Text(x)]))
  {
    hide TemplateTokens;
  }

  /** The clause `t = $1 AND a = $2 OR b IS NULL` selects another tenant's row whose `b` is NULL. */
  lemma OrTemplateSelectsForeignRow(
    env: Env, go: Go, cfg: ResourceConfig, field: string, a: string, b: string, x: string, page: Page,
    tenant: string, other: string, cols: seq<string>, row: Row)
    requires FiltersByOrTemplate(go, cfg, field, a, b)
    requires row(b) == Null && row(cfg.tenantColumn) == Val(Text(other)) && other != tenant
    ensures
      var compiled := CompilePieces(go, cfg, OneFilter(field, x, page), Some(tenant), cols);
      && compiled.Ok?
      && Selects(env, JoinTokens(TokensOf(compiled.value), AndTok), ArgsOf(compiled.value), row)
      && !OfTenant(env, row(cfg.tenantColumn), tenant)
  {
    hide Disjuncts, Selects, CompilePieces, TemplateTokens, JoinTokens, FiltersByOrTemplate;
    OrTemplateCompiles(go, cfg, field, a, b, x, page, tenant, cols);
    var pieces := CompilePieces(go, cfg, OneFilter(field, x, page), Some(tenant), cols).value;
    assert cfg.tenantColumn != "" by { TenantColumnSet(go, cfg, field, a, b); }
    TenantPieceReads(cfg, Some(tenant));
    OrTemplateReads(a, b, 2, NoCast);
    assert |pieces| == 2;
    assert GroupTrue(env, [IsNull(false, Col(b))], row, ArgsOf(pieces));
    LastDisjunctSelects(env, pieces, row);
  }

  lemma TenantColumnSet(go: Go, cfg: ResourceConfig, field: string, a: string, b: string)
    requires FiltersByOrTemplate(go, cfg, field, a, b)
    ensures cfg.tenantColumn != ""
  {
  }
}
