/** The per-resource search compiler (search/config.go): validation, compilation to SQL, ordering. */
module SearchCompiler {
  import opened Options
  import opened GoStrings
  import opened Pagination
  import opened Coerce
  import opened Wildcard
  import opened Sql
  import opened Resolvers

  datatype FieldConfig = FieldConfig(
    typ: FieldType,
    column: string,
    allowedOperators: seq<string>,
    sortable: bool,
    searchable: bool,
    resolver: Option<Resolver>)

  datatype ResourceConfig = ResourceConfig(
    name: string,
    fields: map<string, FieldConfig>,
    defaultSortField: string,
    defaultSortDirection: string,
    tenantColumn: string,
    maxPageSize: Int64,
    maxBulkTerms: Int64)

  datatype Filter = Filter(field: string, operator: string, value: Json)

  datatype SortField = SortField(field: string, direction: string)

  datatype RequestBody = RequestBody(
    searchTerms: seq<string>,
    filters: seq<Filter>,
    sortFields: seq<SortField>,
    pagination: Page)

  datatype OrderItem = OrderItem(column: string, descending: bool)

  datatype CompiledQuery = CompiledQuery(
    where: seq<Token>,
    orderBy: seq<OrderItem>,
    limit: Int64,
    offset: Int64,
    args: seq<Arg>)

  /** strings.ToLower, time.Parse, and strings.EqualFold against "desc". */
  datatype Go = Go(lower: string -> string, parse: DateParser, isDesc: string -> bool)

  // ---- Searchable columns ----

  predicate IsSearchable(fc: FieldConfig) {
    fc.searchable && fc.column != ""
  }

  /** Names among `names` of searchable fields on column `c`. */
  function Holders(fields: map<string, FieldConfig>, names: set<string>, c: string): set<string> {
    set f | f in names && f in fields && IsSearchable(fields[f]) && fields[f].column == c
  }

  /** The searchable columns, sorted, each as often as fields name it. */
  ghost predicate IsSearchColumns(cfg: ResourceConfig, cols: seq<string>) {
    Sorted(cols) && forall c :: multiset(cols)[c] == |Holders(cfg.fields, cfg.fields.Keys, c)|
  }

  lemma HoldersGrow(fields: map<string, FieldConfig>, done: set<string>, f: string, c: string)
    requires f in fields && f !in done
    ensures
      |Holders(fields, done + {f}, c)| ==
      |Holders(fields, done, c)| + if IsSearchable(fields[f]) && fields[f].column == c then 1 else 0
  {
    if IsSearchable(fields[f]) && fields[f].column == c {
      assert Holders(fields, done + {f}, c) == Holders(fields, done, c) + {f};
    } else {
      assert Holders(fields, done + {f}, c) == Holders(fields, done, c);
    }
  }

  /** Go ranges over the field map in any order; sorting removes the difference. */
  method SearchColumns(cfg: ResourceConfig) returns (cols: seq<string>)
    ensures IsSearchColumns(cfg, cols)
  {
    cols := [];
    var rest := cfg.fields.Keys;
    while rest != {}
      invariant rest <= cfg.fields.Keys
      invariant forall c :: multiset(cols)[c] == |Holders(cfg.fields, cfg.fields.Keys - rest, c)|
    {
      var f :| f in rest;
      ghost var done := cfg.fields.Keys - rest;
      forall c
        ensures |Holders(cfg.fields, done + {f}, c)| ==
          |Holders(cfg.fields, done, c)| + if IsSearchable(cfg.fields[f]) && cfg.fields[f].column == c then 1 else 0
      {
        HoldersGrow(cfg.fields, done, f, c);
      }
      if IsSearchable(cfg.fields[f]) {
        cols := cols + [cfg.fields[f].column];
      }
      rest := rest - {f};
      assert cfg.fields.Keys - rest == done + {f};
    }
    assert cfg.fields.Keys - {} == cfg.fields.Keys;
    SortStringsSorts(cols);
    cols := SortStrings(cols);
  }

  /** The generated SQL does not depend on the map iteration order. */
  lemma SearchColumnsAreDeterministic(cfg: ResourceConfig, a: seq<string>, b: seq<string>)
    requires IsSearchColumns(cfg, a) && IsSearchColumns(cfg, b)
    ensures a == b
  {
    assert multiset(a) == multiset(b);
    SortedIsUnique(a, b);
  }

  lemma SearchColumnsMembers(cfg: ResourceConfig, cols: seq<string>, c: string)
    requires IsSearchColumns(cfg, cols)
    ensures c in cols <==> exists f :: f in cfg.fields && IsSearchable(cfg.fields[f]) && cfg.fields[f].column == c
  {
    var hs := Holders(cfg.fields, cfg.fields.Keys, c);
    assert c in cols <==> multiset(cols)[c] > 0;
    if exists f :: f in cfg.fields && IsSearchable(cfg.fields[f]) && cfg.fields[f].column == c {
      var f :| f in cfg.fields && IsSearchable(cfg.fields[f]) && cfg.fields[f].column == c;
      assert f in hs;
    }
    if hs != {} {
      var f :| f in hs;
    }
  }

  // ---- Search terms ----

  predicate IsEffective(term: string) {
    TrimSpace(term) != "" && !OnlyWildcards(TrimSpace(term))
  }

  /** The trimmed terms that take part in the search, in order. */
  function EffectiveTerms(terms: seq<string>): seq<string> {
    if terms == [] then []
    else
      var last := terms[|terms| - 1];
      EffectiveTerms(terms[..|terms| - 1]) + if IsEffective(last) then [TrimSpace(last)] else []
  }

  lemma NoTerms(terms: seq<string>)
    requires terms == []
    ensures EffectiveTerms(terms) == []
  {
  }

  lemma EffectiveStep(terms: seq<string>, i: nat)
    requires i < |terms|
    ensures EffectiveTerms(terms[..i + 1]) ==
      if IsEffective(terms[i]) then EffectiveTerms(terms[..i]) + [TrimSpace(terms[i])] else EffectiveTerms(terms[..i])
  {
    assert terms[..i + 1][..i] == terms[..i];
  }

  function Patterns(terms: seq<string>): seq<Arg> {
    seq(|terms|, i requires 0 <= i < |terms| => Text(WildcardToLike(terms[i])))
  }

  function TermParts(cols: seq<string>, n: nat): seq<seq<Token>> {
    seq(|cols|, i requires 0 <= i < |cols| => [ColTok(cols[i]), LikeTok(true), ParamTok(n, NoCast)])
  }

  function TermTokens(cols: seq<string>, n: nat): seq<Token> {
    Parenthesised(JoinTokens(TermParts(cols, n), OrTok))
  }

  function SearchParts(cols: seq<string>, base: nat, count: nat): seq<seq<Token>> {
    seq(count, i requires 0 <= i < count => TermTokens(cols, base + 1 + i))
  }

  /** A condition of the WHERE clause: its tokens and the values it binds. */
  datatype Piece = Piece(tokens: seq<Token>, args: seq<Arg>)

  function SearchPieces(cols: seq<string>, terms: seq<string>, base: nat): seq<Piece> {
    var eff := EffectiveTerms(terms);
    if cols == [] || eff == [] then []
    else
      [Piece(Parenthesised(JoinTokens(SearchParts(cols, base, |eff|), OrTok)), Patterns(eff))]
  }

  /** One term across all searchable columns, every column testing the same placeholder. */
  method TermCondition(cols: seq<string>, n: nat) returns (cond: seq<Token>)
    ensures cond == TermTokens(cols, n)
  {
    var colConds: seq<seq<Token>> := [];
    for k := 0 to |cols|
      invariant colConds == TermParts(cols, n)[..k]
    {
      colConds := colConds + [[ColTok(cols[k]), LikeTok(true), ParamTok(n, NoCast)]];
    }
    assert colConds == TermParts(cols, n);
    cond := [LParen] + JoinTokens(colConds, OrTok) + [RParen];
  }

  lemma AnotherTerm(cols: seq<string>, base: nat, eff: seq<string>, t: string)
    ensures Patterns(eff + [t]) == Patterns(eff) + [Text(WildcardToLike(t))]
    ensures SearchParts(cols, base, |eff| + 1) == SearchParts(cols, base, |eff|) + [TermTokens(cols, base + |eff| + 1)]
  {
  }

  /** The pattern and condition collected for the effective terms. */
  ghost predicate Collected(
    cols: seq<string>, eff: seq<string>, args: seq<Arg>, args': seq<Arg>, termConds: seq<seq<Token>>)
  {
    args' == args + Patterns(eff) && termConds == SearchParts(cols, |args|, |eff|)
  }

  /** ORs each effective term across the searchable columns, then ORs the terms; empty when there is nothing to test. */
  method BuildSearchTerms(cols: seq<string>, terms: seq<string>, args: seq<Arg>)
    returns (frag: seq<Token>, args': seq<Arg>)
    ensures
      var pieces := SearchPieces(cols, terms, |args|);
      if pieces == [] then frag == [] && args' == args
      else frag == pieces[0].tokens && frag != [] && args' == args + pieces[0].args
  {
    hide TermTokens, WildcardToLike, EffectiveTerms, TrimSpace, JoinTokens;
    args' := args;
    if |cols| == 0 {
      return [], args;
    }
    assert EffectiveTerms(terms[..0]) == [] by { NoTerms(terms[..0]); }
    var termConds: seq<seq<Token>> := [];
    for i := 0 to |terms|
      invariant Collected(cols, EffectiveTerms(terms[..i]), args, args', termConds)
    {
      EffectiveStep(terms, i);
      var t := TrimSpace(terms[i]);
      var allWild := IsAllWildcard(t);
      if t == "" || allWild {
        continue;
      }
      ghost var eff := EffectiveTerms(terms[..i]);
      args' := args' + [Text(WildcardToLike(t))];
      AnotherTerm(cols, |args|, eff, t);
      var cond := TermCondition(cols, |args'|);
      termConds := termConds + [cond];
    }
    assert terms[..|terms|] == terms;
    if |termConds| == 0 {
      return [], args';
    }
    frag := [LParen] + JoinTokens(termConds, OrTok) + [RParen];
  }

  // ---- Compile ----

  function ResolverOf(fc: FieldConfig): Resolver {
    if fc.resolver.Some? then fc.resolver.value else Direct(fc.column, fc.typ)
  }

  function ValidateFilter(go: Go, cfg: ResourceConfig, f: Filter): Result<FieldConfig> {
    if f.field !in cfg.fields then Err(InvalidField(f.field))
    else
      var fc := cfg.fields[f.field];
      if fc.allowedOperators == [] then Ok(fc)
      else if go.lower(f.operator) !in fc.allowedOperators then Err(UnsupportedOperator(f.field, f.operator))
      else Ok(fc)
  }

  function FilterPiece(go: Go, cfg: ResourceConfig, f: Filter, base: nat): Result<Piece> {
    var fc :- ValidateFilter(go, cfg, f);
    var r :- ResolveSpec(go.parse, ResolverOf(fc), f.field, go.lower(f.operator), f.value, base);
    Ok(Piece(r.tokens, r.args))
  }

  function ArgsOf(pieces: seq<Piece>): seq<Arg> {
    if pieces == [] then [] else ArgsOf(pieces[..|pieces| - 1]) + pieces[|pieces| - 1].args
  }

  function TokensOf(pieces: seq<Piece>): seq<seq<Token>> {
    seq(|pieces|, i requires 0 <= i < |pieces| => pieces[i].tokens)
  }

  /** Appends the filters' pieces one by one; the first failing filter decides the error. */
  function WithFilters(go: Go, cfg: ResourceConfig, before: seq<Piece>, filters: seq<Filter>): Result<seq<Piece>> {
    if filters == [] then Ok(before)
    else
      var pieces :- WithFilters(go, cfg, before, filters[..|filters| - 1]);
      var p :- FilterPiece(go, cfg, filters[|filters| - 1], |ArgsOf(pieces)|);
      Ok(pieces + [p])
  }

  function TenantPieces(cfg: ResourceConfig, tenant: Option<string>): seq<Piece> {
    if cfg.tenantColumn != "" && tenant.Some? then
      [Piece([ColTok(cfg.tenantColumn), CmpTok(EqOp), ParamTok(1, NoCast)], [Text(tenant.value)])]
    else []
  }

  function FixedPieces(cfg: ResourceConfig, req: RequestBody, tenant: Option<string>, cols: seq<string>): seq<Piece> {
    var t := TenantPieces(cfg, tenant);
    t + SearchPieces(cols, req.searchTerms, |ArgsOf(t)|)
  }

  function CompilePieces(
    go: Go, cfg: ResourceConfig, req: RequestBody, tenant: Option<string>, cols: seq<string>): Result<seq<Piece>>
  {
    WithFilters(go, cfg, FixedPieces(cfg, req, tenant, cols), req.filters)
  }

  // ---- Ordering ----

  function OrderItems(go: Go, cfg: ResourceConfig, sorts: seq<SortField>): seq<OrderItem> {
    if sorts == [] then []
    else
      var s := sorts[|sorts| - 1];
      OrderItems(go, cfg, sorts[..|sorts| - 1]) +
      if s.field in cfg.fields && cfg.fields[s.field].sortable
      then [OrderItem(cfg.fields[s.field].column, go.isDesc(s.direction))] else []
  }

  /** Unknown or unsortable fields are skipped; the default sort applies when nothing is left. */
  function OrderOrDefault(go: Go, cfg: ResourceConfig, sorts: seq<SortField>): seq<OrderItem> {
    var items := OrderItems(go, cfg, sorts);
    if items != [] then items
    else if cfg.defaultSortField != "" && cfg.defaultSortField in cfg.fields
      then [OrderItem(cfg.fields[cfg.defaultSortField].column, go.isDesc(cfg.defaultSortDirection))]
    else []
  }

  predicate IsSortable(cfg: ResourceConfig, s: SortField) {
    s.field in cfg.fields && cfg.fields[s.field].sortable
  }

  /** The positions in `sorts` that can be sorted by, in order. */
  ghost predicate PicksSortable(cfg: ResourceConfig, sorts: seq<SortField>, picks: seq<nat>) {
    && (forall j, k :: 0 <= j < k < |picks| ==> picks[j] < picks[k])
    && (forall k :: 0 <= k < |picks| ==> picks[k] < |sorts| && IsSortable(cfg, sorts[picks[k]]))
    && (forall i :: 0 <= i < |sorts| && IsSortable(cfg, sorts[i]) ==> i in picks)
  }

  ghost predicate OrdersByPicks(
    go: Go, cfg: ResourceConfig, sorts: seq<SortField>, picks: seq<nat>, items: seq<OrderItem>)
    requires PicksSortable(cfg, sorts, picks)
  {
    |items| == |picks| &&
    forall k :: 0 <= k < |picks| ==>
      var s := sorts[picks[k]];
      items[k] == OrderItem(cfg.fields[s.field].column, go.isDesc(s.direction))
  }

  /** The requested sorts that are allowed, in request order; the default sort only when there is none. */
  ghost predicate Orders(go: Go, cfg: ResourceConfig, sorts: seq<SortField>, items: seq<OrderItem>) {
    if exists i :: 0 <= i < |sorts| && IsSortable(cfg, sorts[i]) then
      exists picks :: PicksSortable(cfg, sorts, picks) && OrdersByPicks(go, cfg, sorts, picks, items)
    else if cfg.defaultSortField != "" && cfg.defaultSortField in cfg.fields then
      items == [OrderItem(cfg.fields[cfg.defaultSortField].column, go.isDesc(cfg.defaultSortDirection))]
    else items == []
  }

  lemma PickedNext(
    go: Go, cfg: ResourceConfig, sorts: seq<SortField>, s: SortField, picks: seq<nat>, items: seq<OrderItem>)
    returns (all: seq<nat>)
    requires PicksSortable(cfg, sorts, picks) && OrdersByPicks(go, cfg, sorts, picks, items)
    ensures PicksSortable(cfg, sorts + [s], all)
    ensures OrdersByPicks(go, cfg, sorts + [s], all, items +
      if IsSortable(cfg, s) then [OrderItem(cfg.fields[s.field].column, go.isDesc(s.direction))] else [])
  {
    all := picks + if IsSortable(cfg, s) then [|sorts|] else [];
    forall i | 0 <= i < |sorts + [s]| && IsSortable(cfg, (sorts + [s])[i])
      ensures i in all
    {
      assert i < |sorts| ==> IsSortable(cfg, sorts[i]);
    }
  }

  lemma {:induction false} OrderItemsArePicked(go: Go, cfg: ResourceConfig, sorts: seq<SortField>)
    returns (picks: seq<nat>)
    ensures PicksSortable(cfg, sorts, picks) && OrdersByPicks(go, cfg, sorts, picks, OrderItems(go, cfg, sorts))
  {
    if sorts == [] {
      picks := [];
    } else {
      hide PicksSortable, OrdersByPicks;
      var init, last := sorts[..|sorts| - 1], sorts[|sorts| - 1];
      picks := OrderItemsArePicked(go, cfg, init);
      picks := PickedNext(go, cfg, init, last, picks, OrderItems(go, cfg, init));
      assert sorts == init + [last];
    }
  }

  /** Requested sorts win over the default; unknown and unsortable ones are passed over. */
  lemma OrderIsRequestedOrDefault(go: Go, cfg: ResourceConfig, sorts: seq<SortField>)
    ensures Orders(go, cfg, sorts, OrderOrDefault(go, cfg, sorts))
  {
    hide OrderItems;
    var picks := OrderItemsArePicked(go, cfg, sorts);
    if picks != [] {
      assert IsSortable(cfg, sorts[picks[0]]);
    }
  }

  method BuildOrderBy(go: Go, cfg: ResourceConfig, sorts: seq<SortField>) returns (parts: seq<OrderItem>)
    ensures parts == OrderOrDefault(go, cfg, sorts)
  {
    parts := [];
    for i := 0 to |sorts|
      invariant parts == OrderItems(go, cfg, sorts[..i])
    {
      assert sorts[..i + 1][..i] == sorts[..i];
      var s := sorts[i];
      if s.field !in cfg.fields || !cfg.fields[s.field].sortable {
        continue;
      }
      parts := parts + [OrderItem(cfg.fields[s.field].column, go.isDesc(s.direction))];
    }
    assert sorts[..|sorts|] == sorts;
    if parts == [] {
      if cfg.defaultSortField == "" {
        return [];
      }
      if cfg.defaultSortField in cfg.fields {
        return [OrderItem(cfg.fields[cfg.defaultSortField].column, go.isDesc(cfg.defaultSortDirection))];
      }
      return [];
    }
  }

  // ---- The Compile method ----

  lemma {:induction false} WithFiltersFails(
    go: Go, cfg: ResourceConfig, before: seq<Piece>, filters: seq<Filter>, n: nat)
    requires n <= |filters| && WithFilters(go, cfg, before, filters[..n]).Err?
    ensures WithFilters(go, cfg, before, filters) == WithFilters(go, cfg, before, filters[..n])
  {
    if n == |filters| {
      assert filters[..n] == filters;
    } else {
      assert filters[..|filters| - 1][..n] == filters[..n];
      WithFiltersFails(go, cfg, before, filters[..|filters| - 1], n);
    }
  }

  lemma WithFiltersStep(
    go: Go, cfg: ResourceConfig, before: seq<Piece>, filters: seq<Filter>, i: nat, pieces: seq<Piece>)
    requires i < |filters| && WithFilters(go, cfg, before, filters[..i]) == Ok(pieces)
    ensures
      var next := FilterPiece(go, cfg, filters[i], |ArgsOf(pieces)|);
      WithFilters(go, cfg, before, filters[..i + 1]) ==
      if next.Ok? then Ok(pieces + [next.value]) else Err(next.error)
  {
    hide FilterPiece;
    assert filters[..i + 1][..i] == filters[..i];
  }

  lemma AppendPiece(pieces: seq<Piece>, p: Piece)
    ensures ArgsOf(pieces + [p]) == ArgsOf(pieces) + p.args
    ensures TokensOf(pieces + [p]) == TokensOf(pieces) + [p.tokens]
  {
    assert (pieces + [p])[..|pieces|] == pieces;
  }

  /** The tenant and search-term conditions. */
  method FixedConditions(cfg: ResourceConfig, req: RequestBody, tenant: Option<string>)
    returns (conds: seq<seq<Token>>, args: seq<Arg>)
    ensures exists cols ::
      && IsSearchColumns(cfg, cols)
      && conds == TokensOf(FixedPieces(cfg, req, tenant, cols)) && args == ArgsOf(FixedPieces(cfg, req, tenant, cols))
  {
    hide SearchPieces, IsSearchColumns, ArgsOf, TokensOf;
    args, conds := [], [];
    if cfg.tenantColumn != "" && tenant.Some? {
      args := args + [Text(tenant.value)];
      conds := conds + [[ColTok(cfg.tenantColumn), CmpTok(EqOp), ParamTok(|args|, NoCast)]];
    }
    TenantPieceTokens(cfg, tenant);
    ghost var t := TenantPieces(cfg, tenant);
    assert conds == TokensOf(t) && args == ArgsOf(t);
    var columns := SearchColumns(cfg);
    ghost var found := SearchPieces(columns, req.searchTerms, |args|);
    var term, args' := BuildSearchTerms(columns, req.searchTerms, args);
    SearchPiecesAtMostOne(columns, req.searchTerms, |args|);
    if found == [] {
      assert t + found == t;
    } else {
      AppendPiece(t, found[0]);
      assert t + found == t + [found[0]];
    }
    args := args';
    if term != [] {
      conds := conds + [term];
    }
    assert FixedPieces(cfg, req, tenant, columns) == t + found;
  }

  lemma TenantPieceTokens(cfg: ResourceConfig, tenant: Option<string>)
    ensures
      var t := TenantPieces(cfg, tenant);
      if cfg.tenantColumn != "" && tenant.Some? then
        && TokensOf(t) == [[ColTok(cfg.tenantColumn), CmpTok(EqOp), ParamTok(1, NoCast)]]
        && ArgsOf(t) == [Text(tenant.value)]
      else TokensOf(t) == [] && ArgsOf(t) == []
  {
  }

  lemma SearchPiecesAtMostOne(cols: seq<string>, terms: seq<string>, base: nat)
    ensures |SearchPieces(cols, terms, base)| <= 1
  {
  }

  /** `r` is the query made of the compiled pieces, or their error. */
  ghost predicate CompiledAs(
    go: Go, cfg: ResourceConfig, req: RequestBody, compiled: Result<seq<Piece>>, r: Result<CompiledQuery>)
  {
    if compiled.Err? then r == Err(compiled.error)
    else
      && r.Ok?
      && r.value.where == JoinTokens(TokensOf(compiled.value), AndTok)
      && r.value.args == ArgsOf(compiled.value)
      && r.value.limit == PageSizeOf(req.pagination, cfg.maxPageSize)
      && r.value.offset == ExecutedOffset(req.pagination, cfg.maxPageSize)
      && r.value.orderBy == OrderOrDefault(go, cfg, req.sortFields)
  }

  method Compile(
    go: Go, cfg: ResourceConfig, req: RequestBody, tenant: Option<string>)
    returns (r: Result<CompiledQuery>)
    ensures exists cols ::
      IsSearchColumns(cfg, cols) && CompiledAs(go, cfg, req, CompilePieces(go, cfg, req, tenant, cols), r)
    ensures r.Ok? ==> Orders(go, cfg, req.sortFields, r.value.orderBy)
  {
    hide ResolveSpec, FixedPieces, IsSearchColumns, JoinTokens, OrderOrDefault, SizeWithMax, OffsetWithMax, ArgsOf,
      TokensOf, Orders;
    var conds, args := FixedConditions(cfg, req, tenant);
    ghost var cols :|
      && IsSearchColumns(cfg, cols)
      && conds == TokensOf(FixedPieces(cfg, req, tenant, cols)) && args == ArgsOf(FixedPieces(cfg, req, tenant, cols));
    ghost var before := FixedPieces(cfg, req, tenant, cols);
    ghost var pieces := before;
    for i := 0 to |req.filters|
      invariant WithFilters(go, cfg, before, req.filters[..i]) == Ok(pieces)
      invariant conds == TokensOf(pieces) && args == ArgsOf(pieces)
    {
      var f := req.filters[i];
      WithFiltersStep(go, cfg, before, req.filters, i, pieces);
      var fc := ValidateFilter(go, cfg, f);
      if fc.Err? {
        WithFiltersFails(go, cfg, before, req.filters, i + 1);
        r := Err(fc.error);
        assert CompiledAs(go, cfg, req, CompilePieces(go, cfg, req, tenant, cols), r);
        return;
      }
      ghost var base := |args|;
      var frag;
      frag, args := Resolve(go.parse, ResolverOf(fc.value), f.field, go.lower(f.operator), f.value, args);
      if frag.Err? {
        WithFiltersFails(go, cfg, before, req.filters, i + 1);
        r := Err(frag.error);
        assert CompiledAs(go, cfg, req, CompilePieces(go, cfg, req, tenant, cols), r);
        return;
      }
      ghost var p := FilterPiece(go, cfg, f, base).value;
      AppendPiece(pieces, p);
      if frag.value != [] {
        conds := conds + [frag.value];
      }
      pieces := pieces + [p];
    }
    assert req.filters[..|req.filters|] == req.filters;
    var orderBy := BuildOrderBy(go, cfg, req.sortFields);
    OrderIsRequestedOrDefault(go, cfg, req.sortFields);
    var max := ConfigMaxPageSize(cfg.maxPageSize);
    SizeIsClamped(req.pagination, cfg.maxPageSize);
    OffsetIsExecuted(req.pagination, cfg.maxPageSize);
    r := Ok(CompiledQuery(
      JoinTokens(conds, AndTok), orderBy, SizeWithMax(req.pagination, max), OffsetWithMax(req.pagination, max), args));
    assert CompiledAs(go, cfg, req, CompilePieces(go, cfg, req, tenant, cols), r);
  }
}
