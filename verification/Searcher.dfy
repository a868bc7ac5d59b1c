/**
 Running a search (search/pgx/searcher.go, search/counter.go): the data page and the total are
 fetched from one table, and the flag on the total is sound.
 */
module Searcher {
  import opened Options
  import opened Pagination
  import opened Coerce
  import opened Sql
  import opened SearchCompiler
  import opened SearchMeaning
  import opened SearchDiscipline

  datatype CountResult = CountResult(count: Int64, isEstimated: bool)

  /** What a count query answers. */
  datatype Counted = Rows(n: Int64) | DeadlineExceeded | CountError

  datatype Counter = ExactCounter | AdaptiveCounter

  function CountWith(counter: Counter, exact: Counted, estimate: Option<Int64>): Option<CountResult> {
    match exact
    case Rows(n) => Some(CountResult(n, false))
    case DeadlineExceeded =>
      if counter.ExactCounter? || estimate.None? then None else Some(CountResult(estimate.value, true))
    case CountError => None
  }

  function CorrectEmptyFirstPage(result: CountResult, p: Page, rowsOnPage: nat): CountResult {
    if result.isEstimated && Number(p) == 1 && rowsOnPage == 0 then CountResult(0, false) else result
  }

  /**
   A PostgreSQL table and how the two queries of one search fare on it: `order` is the order
   ORDER BY delivers, ties included; `countRun` says whether COUNT(*) finishes in time.
   */
  datatype Database = Database(
    rows: seq<Row>,
    order: (seq<OrderItem>, seq<Row>) -> seq<Row>,
    countRun: CountRun,
    estimate: Option<Int64>,
    dataOk: bool)

  datatype CountRun = InTime | TooSlow | Broken

  ghost predicate OnlyReorders(order: (seq<OrderItem>, seq<Row>) -> seq<Row>) {
    forall items, rows :: multiset(order(items, rows)) == multiset(rows)
  }

  /** PostgreSQL's default order: NULL after every value. */
  predicate Before(env: Env, x: Value, y: Value) {
    x != Null && (y == Null || env.less(x, y))
  }

  /** Row `a` comes before row `b` by the listed columns; the first column that tells them apart decides. */
  predicate Precedes(env: Env, items: seq<OrderItem>, a: Row, b: Row) {
    items != [] &&
    var x, y := a(items[0].column), b(items[0].column);
    var ab, ba := Before(env, x, y), Before(env, y, x);
    if items[0].descending then ba || (!ab && Precedes(env, items[1..], a, b))
    else ab || (!ba && Precedes(env, items[1..], a, b))
  }

  ghost predicate InOrder(env: Env, items: seq<OrderItem>, rows: seq<Row>) {
    forall i, j :: 0 <= i < j < |rows| ==> !Precedes(env, items, rows[j], rows[i])
  }

  /** What ORDER BY promises. */
  ghost predicate SortsRows(env: Env, order: (seq<OrderItem>, seq<Row>) -> seq<Row>) {
    forall items, rows :: InOrder(env, items, order(items, rows))
  }

  datatype Outcome =
    | Found(view: PagedViewModel, rows: seq<Row>)
    | Rejected(error: SearchError)
    | QueryFailed

  // ---- Queries over the table ----

  function Matching(env: Env, q: CompiledQuery, rows: seq<Row>): (out: seq<Row>)
    ensures |out| <= |rows|
  {
    if rows == [] then []
    else if Selects(env, q.where, q.args, rows[0]) then [rows[0]] + Matching(env, q, rows[1..])
    else Matching(env, q, rows[1..])
  }

  /** The rows the request asks for. */
  ghost function Wanted(
    env: Env, go: Go, cfg: ResourceConfig, req: RequestBody, tenant: Option<string>, rows: seq<Row>): (out: seq<Row>)
    ensures forall row :: row in out ==> row in rows && RequestTrue(env, go, cfg, req, tenant, row)
    ensures forall row :: row in rows && RequestTrue(env, go, cfg, req, tenant, row) ==> row in out
  {
    if rows == [] then []
    else
      var rest := Wanted(env, go, cfg, req, tenant, rows[1..]);
      if RequestTrue(env, go, cfg, req, tenant, rows[0]) then [rows[0]] + rest else rest
  }

  lemma {:induction false} MatchingIsWanted(
    env: Env, go: Go, cfg: ResourceConfig, req: RequestBody, tenant: Option<string>,
    cols: seq<string>, pieces: seq<Piece>, q: CompiledQuery, rows: seq<Row>)
    requires IsSearchColumns(cfg, cols) && CompilePieces(go, cfg, req, tenant, cols) == Ok(pieces)
    requires TemplatesRead(cfg, req.filters) && (|pieces| <= 1 || NoTopLevelOr(cfg, req.filters))
    requires q.where == JoinTokens(TokensOf(pieces), AndTok) && q.args == ArgsOf(pieces)
    ensures Matching(env, q, rows) == Wanted(env, go, cfg, req, tenant, rows)
  {
    hide IsSearchColumns, CompilePieces, Selects, RequestTrue, JoinTokens, TokensOf, ArgsOf, TemplatesRead,
      NoTopLevelOr;
    if rows == [] {
    } else {
      CompilePreservesMeaning(env, go, cfg, req, tenant, cols, pieces, rows[0]);
      MatchingIsWanted(env, go, cfg, req, tenant, cols, pieces, q, rows[1..]);
    }
  }

  function Finished(run: CountRun, n: Int64): Counted {
    match run
    case InTime => Rows(n)
    case TooSlow => DeadlineExceeded
    case Broken => CountError
  }

  /** Without a configured counter the adaptive one is used. */
  function StrategyOf(counter: Option<Counter>): Counter {
    if counter.None? then AdaptiveCounter else counter.value
  }

  /** COUNT(*) over the matching rows. */
  function ExactCount(env: Env, q: CompiledQuery, db: Database): Counted
    requires |db.rows| < TWO_63
  {
    Finished(db.countRun, |Matching(env, q, db.rows)|)
  }

  /** The data page; PostgreSQL refuses a negative OFFSET. */
  function SelectPage(env: Env, q: CompiledQuery, db: Database): Option<seq<Row>>
    requires q.limit >= 0
  {
    if !db.dataOk || q.offset < 0 then None
    else Some(PageRows(db.order(q.orderBy, Matching(env, q, db.rows)), q.limit, q.offset))
  }

  // ---- Soundness of the count ----

  lemma ReorderKeepsLength(order: (seq<OrderItem>, seq<Row>) -> seq<Row>, items: seq<OrderItem>, rows: seq<Row>)
    requires OnlyReorders(order)
    ensures |order(items, rows)| == |rows|
  {
    assert |multiset(order(items, rows))| == |multiset(rows)|;
  }

  /** An empty first page means there is no matching row: its OFFSET is 0 and its LIMIT at least 1. */
  lemma EmptyFirstPageIsEmptyResult<T>(rows: seq<T>, p: Page, max: Int64)
    requires Number(p) == 1
    ensures OffsetWithMax(p, max) == 0
    ensures PageRows(rows, SizeWithMax(p, max), 0) == [] <==> rows == []
  {
  }

  /** A total not flagged as estimated is the number of rows, whichever counter ran. */
  lemma CountFlagSound<T>(rows: seq<T>, p: Page, max: Int64, counter: Counter, exact: Counted, estimate: Option<Int64>)
    requires exact.Rows? ==> exact.n == |rows|
    requires CountWith(counter, exact, estimate).Some? && OffsetWithMax(p, max) >= 0
    ensures
      var page := PageRows(rows, SizeWithMax(p, max), OffsetWithMax(p, max));
      var counted := CorrectEmptyFirstPage(CountWith(counter, exact, estimate).value, p, |page|);
      && (!counted.isEstimated ==> counted.count == |rows|)
      && (counted.isEstimated <==> exact.DeadlineExceeded? && !(Number(p) == 1 && rows == []))
  {
    if Number(p) == 1 {
      EmptyFirstPageIsEmptyResult(rows, p, max);
    }
  }

  /** HasNextPage against an exact total: a row lies after the page that was executed. */
  lemma NextPageSound<T>(rows: seq<T>, p: Page, estimated: bool, maxPageSize: Int64)
    requires |rows| + SizeWithMax(p, maxPageSize) - 1 < TWO_63
    requires (Number(p) - 1) * SizeWithMax(p, maxPageSize) < TWO_63
    ensures
      var max := ConfigMaxPageSize(maxPageSize);
      NewPagedViewModel(p, |rows|, estimated, maxPageSize).hasNextPage <==>
      OffsetWithMax(p, max) + SizeWithMax(p, max) < |rows|
  {
    hide Wrap64, NewPagedViewModel;
    assert EffectiveMax(maxPageSize) == EffectiveMax(ConfigMaxPageSize(maxPageSize));
    OffsetExactIff(p, maxPageSize);
    HasNextPageIff(p, |rows|, estimated, maxPageSize);
    var size := SizeWithMax(p, maxPageSize);
    assert Number(p) * size == (Number(p) - 1) * size + size;
  }

  /** A page of rows in order is in order. */
  lemma PageInOrder(env: Env, items: seq<OrderItem>, rows: seq<Row>, limit: nat, offset: nat)
    requires InOrder(env, items, rows)
    ensures InOrder(env, items, PageRows(rows, limit, offset))
  {
    hide Precedes;
    var page := PageRows(rows, limit, offset);
    assert forall i :: 0 <= i < |page| ==> page[i] == rows[offset + i];
  }

  // ---- Search ----

  /** The exact count is late, and the resource's counter settles for an estimate. */
  predicate Estimates(counter: Option<Counter>, db: Database) {
    db.countRun.TooSlow? && counter != Some(ExactCounter) && db.estimate.Some?
  }

  /** The total and its flag: exact in time, an estimate when late unless an empty first page shows there is none. */
  ghost predicate CountAnswers(p: Page, db: Database, view: PagedViewModel, rows: seq<Row>) {
    && (view.isEstimatedCount <==> db.countRun.TooSlow? && (PageNumberOf(p) > 1 || rows != []))
    && (if view.isEstimatedCount then Some(view.totalCount) == db.estimate else view.totalCount == |rows|)
  }

  /** The page arithmetic of the envelope, with a number of pages that is exact while the sum fits. */
  ghost predicate PagesAnswer(p: Page, maxPageSize: Int64, view: PagedViewModel) {
    var size, number := PageSizeOf(p, maxPageSize), PageNumberOf(p);
    && view.pageSize == size && view.pageNumber == number
    && (view.hasPreviousPage <==> number > 1)
    && (view.hasNextPage <==> number < view.totalPages)
    && (view.totalCount + size - 1 < TWO_63 ==>
      CoversTotal(view.totalPages, size, view.totalCount) && (view.hasNextPage <==> number * size < view.totalCount))
  }

  /** The answer is the page and the count of `rows`. */
  ghost predicate Answers(
    go: Go, cfg: ResourceConfig, req: RequestBody, db: Database, r: Outcome, rows: seq<Row>)
    requires r.Found?
  {
    var p, offset := req.pagination, ExecutedOffset(req.pagination, cfg.maxPageSize);
    && offset >= 0
    && IsPage(
      db.order(OrderOrDefault(go, cfg, req.sortFields), rows), PageSizeOf(p, cfg.maxPageSize), offset, r.rows)
    && CountAnswers(p, db, r.view, rows)
    && PagesAnswer(p, cfg.maxPageSize, r.view)
  }

  /** A request that names no page gets the first rows, and one that names nothing at all the first ten at most. */
  lemma OmittedPageIsFirst(go: Go, cfg: ResourceConfig, req: RequestBody, db: Database, r: Outcome, rows: seq<Row>)
    requires r.Found? && Answers(go, cfg, req, db, r, rows) && req.pagination.pageNumber <= 0
    ensures
      var ordered := db.order(OrderOrDefault(go, cfg, req.sortFields), rows);
      && r.rows == ordered[..AtMost(r.view.pageSize, |ordered|)]
      && r.view.pageNumber == 1 && !r.view.hasPreviousPage
      && (req.pagination.pageSize <= 0 && !(1 <= cfg.maxPageSize < 10) ==> r.view.pageSize == 10)
  {
    hide OrderOrDefault, CountAnswers;
    assert ExecutedOffset(req.pagination, cfg.maxPageSize) == 0;
  }

  /** The rows the compiled clause selects. */
  ghost predicate Selected(
    env: Env, go: Go, cfg: ResourceConfig, req: RequestBody, tenant: Option<string>, table: seq<Row>, rows: seq<Row>)
  {
    exists q, cols ::
      && IsSearchColumns(cfg, cols)
      && CompiledAs(go, cfg, req, CompilePieces(go, cfg, req, tenant, cols), Ok(q))
      && rows == Matching(env, q, table)
  }

  /**
   Validates, compiles, and runs the data and count queries on the same table. The page holds
   selected rows in the table's order and an unflagged total counts them all; they are the
   rows the request asks for when no template has an OR outside parentheses.
   */
  method Search(
    env: Env, go: Go, cfg: ResourceConfig, counter: Option<Counter>, req: RequestBody, tenant: Option<string>,
    db: Database)
    returns (r: Outcome)
    requires |db.rows| < TWO_63 && OnlyReorders(db.order)
    ensures r.Rejected? <==>
      !Acceptable(go, cfg, req) || exists i :: 0 <= i < |req.filters| && !Compilable(go, cfg, req.filters[i])
    ensures r.Rejected? && Acceptable(go, cfg, req) ==>
      exists cols :: IsSearchColumns(cfg, cols) && CompilePieces(go, cfg, req, tenant, cols) == Err(r.error)
    ensures !r.Rejected? ==>
      (r.Found? <==>
        && db.dataOk && ExecutedOffset(req.pagination, cfg.maxPageSize) >= 0
        && (db.countRun.InTime? || Estimates(counter, db)))
    ensures r.Found? ==>
      exists rows :: Selected(env, go, cfg, req, tenant, db.rows, rows) && Answers(go, cfg, req, db, r, rows)
    ensures r.Found? && SortsRows(env, db.order) ==> InOrder(env, OrderOrDefault(go, cfg, req.sortFields), r.rows)
    ensures r.Found? && TemplatesRead(cfg, req.filters) && NoTopLevelOr(cfg, req.filters) ==>
      Answers(go, cfg, req, db, r, Wanted(env, go, cfg, req, tenant, db.rows))
  {
    hide Acceptable, CompilePieces, IsSearchColumns, OrderOrDefault, Wanted, Matching, Wrap64, JoinTokens, ArgsOf,
      TokensOf, PageRows, TotalPagesWithMax, SizeWithMax, ExecutedOffset, PageSizeOf, OnlyReorders, TemplatesRead,
      NoTopLevelOr, Answers, Orders, Compilable;
    var invalid := Validate(go, cfg, req);
    if invalid.Some? {
      return Rejected(invalid.value);
    }
    var compiled := Compile(go, cfg, req, tenant);
    ghost var cols :|
      IsSearchColumns(cfg, cols) && CompiledAs(go, cfg, req, CompilePieces(go, cfg, req, tenant, cols), compiled);
    CompilesIff(go, cfg, req, tenant, cols);
    if compiled.Err? {
      return Rejected(compiled.error);
    }
    var q := compiled.value;
    var exact := ExactCount(env, q, db);
    var count := CountWith(StrategyOf(counter), exact, db.estimate);
    var dest := SelectPage(env, q, db);
    if count.None? || dest.None? {
      return QueryFailed;
    }
    var corrected := CorrectEmptyFirstPage(count.value, req.pagination, |dest.value|);
    r := Found(
      NewPagedViewModel(req.pagination, corrected.count, corrected.isEstimated, cfg.maxPageSize), dest.value);
    ghost var rows := Matching(env, q, db.rows);
    FoundAnswers(go, cfg, counter, req, db, rows);
    assert Selected(env, go, cfg, req, tenant, db.rows, rows);
    if SortsRows(env, db.order) {
      PageInOrder(env, q.orderBy, db.order(q.orderBy, rows), q.limit, q.offset);
    }
    if TemplatesRead(cfg, req.filters) && NoTopLevelOr(cfg, req.filters) {
      MatchingIsWanted(env, go, cfg, req, tenant, cols, CompilePieces(go, cfg, req, tenant, cols).value, q, db.rows);
    }
  }

  lemma CountedAnswers(
    p: Page, counter: Option<Counter>, maxPageSize: Int64, db: Database, delivered: seq<Row>)
    requires |delivered| < TWO_63 && OffsetWithMax(p, maxPageSize) >= 0
    requires CountWith(StrategyOf(counter), Finished(db.countRun, |delivered|), db.estimate).Some?
    ensures
      var page := PageRows(delivered, SizeWithMax(p, maxPageSize), OffsetWithMax(p, maxPageSize));
      var count := CountWith(StrategyOf(counter), Finished(db.countRun, |delivered|), db.estimate);
      var counted := CorrectEmptyFirstPage(count.value, p, |page|);
      && (counted.isEstimated <==> db.countRun.TooSlow? && (PageNumberOf(p) > 1 || delivered != []))
      && (if counted.isEstimated then Some(counted.count) == db.estimate else counted.count == |delivered|)
  {
    hide PageRows, SizeWithMax, OffsetWithMax;
    SizeIsClamped(p, maxPageSize);
    CountFlagSound(delivered, p, maxPageSize, StrategyOf(counter), Finished(db.countRun, |delivered|), db.estimate);
  }

  lemma NextPageCovers(number: nat, totalPages: int, size: int, total: int)
    requires size >= 1 && number >= 1 && CoversTotal(totalPages, size, total)
    ensures number < totalPages <==> number * size < total
  {
    if total <= 0 {
      ProductNonNegative(number, size);
    } else if number < totalPages {
      MulMonotone(number, totalPages - 1, size);
    } else {
      MulMonotone(totalPages, number, size);
    }
  }

  lemma EnvelopeAnswers(p: Page, total: Int64, estimated: bool, maxPageSize: Int64)
    ensures PagesAnswer(p, maxPageSize, NewPagedViewModel(p, total, estimated, maxPageSize))
  {
    hide SizeWithMax, PageSizeOf, TotalPagesWithMax, CoversTotal, PageNumberOf, Number;
    SizeIsClamped(p, maxPageSize);
    if total + SizeWithMax(p, maxPageSize) - 1 < TWO_63 {
      TotalPagesCover(p, total, maxPageSize);
      NextPageCovers(PageNumberOf(p), TotalPagesWithMax(p, total, maxPageSize), SizeWithMax(p, maxPageSize), total);
    }
  }

  lemma FoundAnswers(
    go: Go, cfg: ResourceConfig, counter: Option<Counter>, req: RequestBody, db: Database, rows: seq<Row>)
    requires OnlyReorders(db.order) && |rows| < TWO_63
    ensures
      var size := PageSizeOf(req.pagination, cfg.maxPageSize);
      var offset := ExecutedOffset(req.pagination, cfg.maxPageSize);
      var count := CountWith(StrategyOf(counter), Finished(db.countRun, |rows|), db.estimate);
      offset >= 0 && count.Some? ==>
        var page := PageRows(db.order(OrderOrDefault(go, cfg, req.sortFields), rows), size, offset);
        var corrected := CorrectEmptyFirstPage(count.value, req.pagination, |page|);
        var view := NewPagedViewModel(req.pagination, corrected.count, corrected.isEstimated, cfg.maxPageSize);
        Answers(go, cfg, req, db, Found(view, page), rows)
  {
    hide OrderOrDefault, Wrap64, PageRows, PagesAnswer, SizeWithMax, OnlyReorders, PageSizeOf, PageNumberOf, IsPage;
    var p, max := req.pagination, ConfigMaxPageSize(cfg.maxPageSize);
    var size, offset := SizeWithMax(p, max), OffsetWithMax(p, max);
    SizeIsClamped(p, cfg.maxPageSize);
    OffsetIsExecuted(p, cfg.maxPageSize);
    var count := CountWith(StrategyOf(counter), Finished(db.countRun, |rows|), db.estimate);
    if offset >= 0 && count.Some? {
      var delivered := db.order(OrderOrDefault(go, cfg, req.sortFields), rows);
      ReorderKeepsLength(db.order, OrderOrDefault(go, cfg, req.sortFields), rows);
      PageRowsIsPage(delivered, size, offset);
      CountedAnswers(p, counter, max, db, delivered);
      var corrected := CorrectEmptyFirstPage(count.value, p, |PageRows(delivered, size, offset)|);
      EnvelopeAnswers(p, corrected.count, corrected.isEstimated, cfg.maxPageSize);
    }
  }
}
