# Verified models of shared-go

Dafny models of the parts of the shared Go libraries that carry the most state, branching or
arithmetic, with proofs of what those parts are for:

- **authz** – PARC rule evaluation, the permission repository, the two-tier permission cache,
  its revocation bus, and the protocol these form across API nodes;
- **search** – the request-to-SQL compiler, its wildcard and value translation, pagination,
  counting, and the search that runs them;
- **authn** – the OAuth provider's authorization-code and device flows, and the claims its
  tokens carry to the validator;
- **versioning** – route matching, the per-endpoint version registry, and the path rewrite.

`dafny verify dfyconfig.toml` checks everything.

## How the models are built

Code that updates state is a class or a method with loops, proved against a function of the
old state; code that computes is a function. What spans many calls is a step system over
values, with lemmas about every run, and the classes are tied to its steps.

- *Permission protocol.* Nodes, caches, repository and bus are one state. A request that
  misses a cache becomes a fill in flight, so any other step can fall between its read and its
  writes. Evictions, failed writes and deletes, abandoned requests and lost messages are steps
  like any other. Time is a counter; `delay` bounds how long a fill may take (0 for instantaneous
  fills). `Interleaving` ties it to the stores and the bus, one operation of each at a time.
- *SQL.* The compiler's output is a token sequence. It is parsed with PostgreSQL's precedence
  and evaluated in three-valued logic; the request has its own reference meaning. Column names
  are atomic. A sub-query template is a token sequence around its placeholder, spliced in
  without parentheses as the source does; text the grammar does not cover stands only inside
  the parentheses of an EXISTS. An uncast placeholder takes the type of the column it meets.
- *OAuth.* Random codes and the clock are arguments. Device records are objects shared by two
  indexes.
- *Map iteration.* Where Go's random map order can matter, the order is an argument and results
  hold for every order.

Abstract parameters: `path.Match`, `strings.EqualFold`, `strings.ToLower`, `strings.ToUpper`,
`time.Parse`, per-character case folding, text ordering, UUID parsing, how PostgreSQL reads
uncast text next to another type, sub-query results, S256.
Clock readings within one call are one value. A cached bundle decodes to what was encoded.

## Where the code and its documentation differ

- The documented 60-second grant propagation window (authz/cache/tiered.go:23) covers one tier.
  L1 can be refilled from an L2 entry about to expire, so with two tiers the window is
  GrantTTL + L1TTL, and `StalenessBoundIsReached` attains it.
- A publisher that has deleted its own L1 entry can still serve the revoked bundle until the
  message comes back to it, because L1 is deleted before L2 (`PublisherNeedsDelivery`).
- Empty and all-wildcard search terms are said to match everything (search/wildcard.go:78); that
  is true of such a term iff it is nonempty and has no `?` (`DroppedTermMatchesEverythingIff`).
- The registry lookup key drops any leading segment of two or more characters that starts with
  `v`, not only a version (`VersionLikeSegmentIsStripped`, `LookupKeyKeptIff`).
- "The most specific pattern" need not be unique; on a tie the answer follows Go's map order
  (`OrderIndependentIff`, `TiedPatternsDependOnOrder`), which is drawn anew on each pass of the
  middleware (`TiedPassesDisagree`).
- A sub-query template needs one `%s`; nothing asks for parentheses around a top-level OR, with
  which the clause selects more than was asked for (`RequestedRowsAreSelected`) and leaves the
  tenant (`IsolatesIffNoTopLevelOr`, `TenantIsolationIff`, `OrTemplateSelectsForeignRow`).

## Model

| member | source | states |
|---|---|---|
| Parc.Evaluate | authz/parc.go:73-135 | the loop allows iff some rule that covers the request permits and none that covers it denies, and gives the reason of the branch that decided; an allowed request of a tenant rests on a permit open to all tenants or of that tenant |
| Parc.MatchesIffCovers | authz/parc.go:73-97 | a rule applies iff it is not of another tenant and each of its patterns stands for the request's value, the action pattern for the name or the HTTP method |
| Parc.OtherTenantsPermitNothing | authz/parc.go:90-94 | a request of a tenant is refused when every permit names another tenant |
| Parc.OtherTenantDeniesNothing | authz/parc.go:90-94 | a deny of another tenant, stored anywhere, changes no decision |
| Parc.PlainRulesDecide | authz/parc.go:73-150 | rules whose patterns are plain text or open decide by comparing texts; a rule open in every part applies to every request |
| Parc.GlobDecides | authz/parc.go:138-150 | a pattern that is neither open nor the value is left to path.Match, and one it cannot read is compared ignoring case |
| Parc.AllowsIgnoresOrder | authz/parc.go:106-135 | decisions do not depend on the order of the rules |
| Parc.DenyNeverAllows | authz/parc.go:106-135 | a request allowed with a deny rule inserted anywhere is allowed without it, and that deny does not match |
| Parc.RepositoryHoldsGrantsSinceRevoke | authz/repository.go:39-85 | after any history a principal holds exactly the rules granted since their last RevokeAll, in order |
| Parc.MemoryPermissionRepository.GetPermissions | authz/repository.go:39-59 | returns a fresh record with the rules granted since the last RevokeAll; empty for an unknown principal |
| Parc.MemoryPermissionRepository.GrantPermission | authz/repository.go:62-77 | appends one rule to one principal's record in place, creating it on first use |
| Parc.MemoryPermissionRepository.RevokeAll | authz/repository.go:80-85 | forgets the principal and no one else |
| PolicyEngine.Engine.Evaluate | authz/engine.go:384-416 | allowed iff there is a principal and every requirement has a handler that answers true without error; otherwise the first failure is reported |
| PolicyEngine.Engine.EvaluatePolicy | authz/engine.go:375-381 | the same for a policy by name, with the reason and error of the first failure; unknown names are an error |
| PermissionProtocol.StepKeepsInv | authz/cache/tiered.go:90-164 | every step, failed cache writes and abandoned requests included, keeps all cached, in-flight and decided-on bundles genuine repository contents within their place's age bound |
| PermissionProtocol.RunInv | authz/cache/tiered.go:90-164 | the invariant holds at every point of every run |
| PermissionProtocol.BoundedStaleness | authz/engine.go:153-177 | in every run each decision uses a bundle the repository held at an instant no later than the decision and at most GrantTTL + L1TTL + 2·delay before it (GrantTTL + delay with one tier) |
| ProtocolRuns.StalenessBoundIsReached | authz/cache/tiered.go:119-146 | for every configuration a run takes a decision exactly the bound after the one instant at which the repository held its bundle |
| ProtocolRuns.FailedL2DeleteLeavesRevoked | authz/cache/tiered.go:155-164 | if the L2 delete fails, a node decides on the revoked bundle after the delivery |
| ProtocolRuns.PublisherNeedsDelivery | authz/cache/tiered.go:155-164 | without delivery even the publisher can decide on the revoked bundle |
| ProtocolRuns.StaleFillUndoesRevocation | authz/engine.go:166-177 | a fill that read before the revocation and writes after the L2 delete brings the revoked bundle back |
| RevocationConvergence.RunMessages | authz/cache/tiered.go:155-164 | every queued message belongs to a publication that has already done its L2 delete |
| RevocationConvergence.DeliveredAfterL2Delete | authz/cache/tiered.go:155-164 | a publication is never delivered before its L2 delete |
| RevocationConvergence.CleanNodeDecidesFresh | authz/cache/tiered.go:90-146 | once L2, a node's L1 and its fills hold nothing older than a version, they never again do, and all its decisions use that version or a later one |
| RevocationConvergence.RevocationConverges | authz/cache/tiered.go:90-164 | after RevokeAll, a publication whose L2 delete succeeds, and its delivery at a node, with no older fill pending, every later decision there uses a bundle fetched after the revocation |
| RevocationConvergence.RevokedAndDeliveredHappens | authz/cache/tiered.go:90-164 | the premise of convergence is met by a run of six steps, for every configuration and pair of nodes |
| RevocationConvergence.RevokedMeansDenied | authz/repository.go:80-85 | until a new grant, each such decision is a refusal |
| StaleServing.StepKeepsSettled | authz/cache/tiered.go:90-164 | once no older bundle is live in a tier the node reads or in flight to one, no step brings one back or decides on one |
| StaleServing.ServesOlderIff | authz/cache/tiered.go:90-164 | from any state some continuation makes a node decide on a version before v iff an older bundle is live in its L1, live in L2, in a fill at the node, or in a repository fill that will reach L2 |
| StaleServing.RevocationSettledIff | authz/cache/tiered.go:155-164 | after a RevokeAll a node is done with the revoked bundle iff none of those four sources is left |
| TieredCache.KeyOfIsInjective | authz/cache/tiered.go:46-88 | the default key formatter keeps principals apart |
| TieredCache.TieredCacheProvider.constructor | authz/cache/tiered.go:46-88 | an L1TTL of zero or less becomes 60 seconds |
| TieredCache.TieredCacheProvider.Get | authz/cache/tiered.go:119-135 | L1 first, then L2; an L2 hit is copied to L1 under L1TTL; L2 unchanged |
| TieredCache.TieredCacheProvider.Set | authz/cache/tiered.go:138-146 | writes both tiers, L1 under the smaller of the two TTLs; with one store as both, the L2 write stays |
| TieredCache.TieredCacheProvider.Delete | authz/cache/tiered.go:149-152 | removes one key from both tiers |
| TieredCache.TieredCacheProvider.PublishRevocation | authz/cache/tiered.go:155-164 | removes the principal's key from both tiers and takes the bus's publish step |
| TieredCache.TieredCacheProvider.OnRevocation | authz/cache/tiered.go:90-115 | one listener turn removes the principal's key from L1 only |
| TieredCache.PARCHandler.constructor | authz/engine.go:122-144 | a GrantTTL of zero or less becomes 60 seconds |
| TieredCache.PARCHandler.Handle | authz/engine.go:147-206 | over the tiered provider, one store as both its tiers, or one store alone: decides by deny-overrides on the cached bundle if it decodes, else on the repository's after writing it back; a repository error is an error |
| Interleaving.RunSimulates | authz/cache/tiered.go:90-164 | every interleaving of any number of handlers, publications, listeners and other bus users, one store or bus operation at a time, with failed writes, given-up calls and lost entries, is a run of the permission protocol |
| Interleaving.StepSimulates | authz/engine.go:153-177 | each single operation is one protocol step, or none for a cache miss |
| Interleaving.InterleavedStaleness | authz/engine.go:153-177 | so the staleness bound holds of interleaved handlers |
| Interleaving.InterleavedConvergence | authz/cache/tiered.go:90-164 | and so does revocation convergence |
| Interleaving.PublishMatches | authz/cache/memory.go:147-158 | a publication on the bus is the protocol's send to exactly the nodes whose channel is registered and has room |
| Interleaving.ListenMatches | authz/cache/tiered.go:90-115 | a listener turn is the delivery of the head of the node's own channel |
| Interleaving.SendReachesExactly | authz/cache/memory.go:147-158 | the revoked principal is appended to the buffer of each such node and of no other |
| Interleaving.TieredHandleIsItsOperations | authz/engine.go:147-206 | run in a row over two tiers, a call leaves the stores the Handle method leaves and decides on the same bundle |
| Interleaving.SingleHandleIsItsOperations | authz/engine.go:147-206 | the same over a single store |
| RevocationBus.BusNeverPanics | authz/cache/memory.go:132-179 | in every interleaving no channel is closed twice or sent to after close, every registered channel is open, buffers never exceed 100 |
| RevocationBus.StepSeen | authz/cache/memory.go:147-158 | only a publish to a registered channel with room changes what that channel has carried |
| RevocationBus.SubscriberSeesSubsequence | authz/cache/memory.go:147-179 | a subscriber gets an in-order subsequence of what was published while it was registered |
| RevocationBus.NothingLostUnlessFull | authz/cache/memory.go:147-158 | while its buffer never fills, a subscriber misses nothing |
| RevocationBus.Bus.SubscribeRevocations | authz/cache/memory.go:161-179 | registers one new, open, empty channel and touches no other |
| RevocationBus.Bus.PublishRevocation | authz/cache/memory.go:147-158 | exactly the registered channels with fewer than 100 messages get the principal, whatever the map order; the others stay as they are |
| RevocationBus.Bus.CancelSubscription | authz/cache/memory.go:161-179 | the channel is unregistered and, if it was registered, closed; no other channel changes |
| RevocationBus.Bus.CloseBus | authz/cache/memory.go:132-144 | the first call closes every registered channel, no other, and leaves none registered; a second one changes nothing |
| Wildcard.TranslationIsCharwise | search/wildcard.go:26-44 | the escape and replace passes equal one per-character map |
| Wildcard.TranslationPreservesMeaning | search/wildcard.go:26-44 | LIKE accepts a string for the translated pattern iff the glob matcher accepts it for the term |
| Wildcard.TranslationRoundTrip | search/wildcard.go:26-44 | the pattern reads back to the term |
| Wildcard.TranslationIsInjective | search/wildcard.go:26-44 | different terms give different patterns |
| Wildcard.ClassifyPattern | search/wildcard.go:50-71 | the index loop computes the classification of the pattern |
| Wildcard.ClassificationIsExact | search/wildcard.go:26-71 | exact iff the term has no wildcard, prefix iff it is w+`*` with no other wildcard, contains otherwise, also when w holds `%`, `_` or a backslash |
| Wildcard.ExactMatchesOnlyTerm | search/wildcard.go:26-71 | an exact pattern matches only the term itself |
| Wildcard.PrefixMatchesStartsWith | search/wildcard.go:26-71 | a prefix pattern matches exactly the strings that start with w |
| Wildcard.IsAllWildcard | search/wildcard.go:79-89 | the loop answers whether the term consists of wildcards only |
| Wildcard.AllWildcardIsLength | search/wildcard.go:79-89 | such a term only constrains the length |
| Wildcard.DroppedTermMatchesEverythingIff | search/wildcard.go:77-89 | it matches every string iff it is nonempty and has no `?` |
| Pagination.SizeWithMax | search/types.go:88-103 | the size is between 1 and the effective maximum and is the requested one when that fits |
| Pagination.SizeIsClamped | search/types.go:88-114 | the size is the smaller of the requested one (10 when omitted) and the cap (100 when unset), and the page is the requested one or the first |
| Pagination.OffsetExactIff | search/types.go:117-117 | the 64-bit offset is (page−1)·size iff that number fits |
| Pagination.TotalPagesExactIff | search/types.go:123-129 | TotalPages is the ceiling of total/size iff total+size−1 fits |
| Pagination.TotalPagesCover | search/types.go:123-129 | while the sum fits, the last row lies on the last page: (TotalPages−1)·size < total ≤ TotalPages·size, and no rows need no page |
| Pagination.PagesPartitionResult | search/types.go:88-129 | the executed pages 1..TotalPages, put together, are the result: no gap, no overlap |
| Pagination.EnvelopeMatchesQuery | search/types.go:160-172 | the envelope's size and number reproduce the executed LIMIT and OFFSET for every MaxPageSize, also zero or less |
| Pagination.HasNextPageIff | search/types.go:160-172 | with an exact total, HasNextPage iff a row lies past the page |
| Coerce.ParseIntRoundTrip | search/coerce.go:47-52 | decimal text reads back exactly iff it fits in 64 bits |
| Coerce.FloatCoercionIsExact | search/coerce.go:30-42 | a JSON number becomes integer n iff it is exactly n: NaN, infinities, fractions and out-of-range values are rejected |
| Coerce.CoercedFitsCast | search/coerce.go:18-86 | a coerced value has the kind its column cast expects |
| Coerce.CoercionIsExact | search/coerce.go:18-86 | a value is bound iff the JSON value stands for it: itself, an exact integer, decimal text, one of twelve boolean spellings, or the first date layout that parses; everything else is refused |
| Coerce.NativeValuesAreKept | search/coerce.go:22-86 | text, integers, booleans and times of the field's own kind are bound unchanged |
| Coerce.PaddingIsTrimmed | search/coerce.go:46-81 | white space around a number, boolean or date does not matter |
| Coerce.IntegerTextIsBound | search/coerce.go:46-51 | an integer written in decimal, white space around it or not, is bound iff it fits 64 bits |
| Coerce.RefusalNamesExpectation | search/coerce.go:18-86 | a refusal names the field and what was expected of its value |
| Coerce.ListCoercionIsExact | search/coerce.go:91-128 | a list is bound iff the value stands for it: an array item by item, text word by word between commas, anything but null by itself |
| Coerce.CommaTextListsWords | search/coerce.go:103-118 | comma-free words joined by commas are listed one by one, in order |
| Coerce.CoerceList | search/coerce.go:91-128 | lists, comma-separated text and single values become the coerced items in order; the first bad item decides the error |
| Coerce.CoerceEach | search/coerce.go:93-102 | the array branch coerces every element or stops at the first error |
| Coerce.CoerceCommaParts | search/coerce.go:103-118 | the comma branch trims, drops blanks and coerces the rest |
| Coerce.CoercedListFits | search/coerce.go:91-128 | every coerced item has the kind its cast expects |
| Resolvers.Resolve | search/resolver.go:57-138 | a resolver appends its values to the arguments and emits the tokens of the resolved condition; on an error the arguments are unchanged |
| Resolvers.ResolveIn | search/resolver.go:57-103 | the in and not_in branch numbers one placeholder per value |
| Resolvers.ResolveBetween | search/resolver.go:57-103 | the between branch binds exactly two values |
| Resolvers.ResolvesIffAccepted | search/resolver.go:57-138 | a filter is resolved iff the operator is one of the resolver's fifteen (or eq on a template) and the value stands for what it needs |
| Resolvers.ResolveErrors | search/resolver.go:57-138 | otherwise the error is a bad template, else an unsupported operator, else a bad value of that field |
| Resolvers.ListSizeErrors | search/resolver.go:57-103 | an empty IN list and a BETWEEN list of other than two values are refused as such |
| Resolvers.LeafReads | search/resolver.go:57-103 | every condition on a column, BETWEEN … AND included, is one unbroken condition |
| Resolvers.TemplateReads | search/resolver.go:121-138 | a template that is a condition by itself has the same disjuncts wherever its placeholder is numbered |
| Resolvers.TemplateMeaning | search/resolver.go:121-138 | and means there what it means when it is the whole condition with its one value |
| Resolvers.ResolvedReads | search/resolver.go:57-138 | a fragment is a condition by itself, with one disjunct iff it is no template with an OR outside parentheses |
| Resolvers.ResolvedMeaning | search/resolver.go:57-138 | read by itself, a fragment is TRUE of a row iff the filter, read off its operator, the field type and what the JSON value stands for, holds of it in three-valued logic |
| SqlSplice.ConjunctionReads | search/config.go:167-173 | conditions joined by AND without parentheses, whatever they are: the last disjunct of each runs together with the first of the next |
| SqlSplice.OneDisjunctIff | search/config.go:167-173 | the joined clause has one disjunct iff no condition has a top-level OR |
| SqlSplice.SingleMeaning | search/config.go:167-173 | then it is TRUE iff every condition is |
| SqlSplice.OrGroupIsAtom | search/config.go:194-216 | a parenthesised OR group is unbroken again |
| SqlRenumber.DisjunctsRenumber | search/resolver.go:121-138 | renumbering a placeholder commutes with parsing |
| SqlRenumber.MeaningKept | search/resolver.go:121-138 | and keeps the truth value of every condition |
| SearchCompiler.SearchColumns | search/config.go:220-229 | the searchable columns in sorted order, whatever the map order |
| SearchCompiler.SearchColumnsAreDeterministic | search/config.go:220-229 | two walks of the same fields give the same list |
| SearchCompiler.TermCondition | search/config.go:194-216 | one term tests one placeholder on every searchable column |
| SearchCompiler.BuildSearchTerms | search/config.go:194-216 | effective terms are bound once each and ORed; blank and all-wildcard ones are dropped |
| SearchCompiler.BuildOrderBy | search/config.go:231-250 | known sortable fields in request order, or the default sort |
| SearchCompiler.OrderIsRequestedOrDefault | search/config.go:231-257 | ORDER BY lists the requested sortable fields in request order, each with its column and direction; the default sort only when there is none |
| SearchCompiler.FixedConditions | search/config.go:137-154 | the tenant condition and the search group, with their arguments |
| SearchCompiler.Compile | search/config.go:137-173 | the compiled clause, arguments, page and ordering, requested or default, or the error of the first bad filter |
| SearchMeaning.CompiledReadable | search/config.go:137-173 | every compiled condition is readable by itself; all have one disjunct iff no template used has a top-level OR |
| SearchMeaning.ClauseReads | search/config.go:137-173 | how the whole clause is read for any templates that are conditions |
| SearchMeaning.RequestIsAllPieces | search/config.go:137-216 | the request asks for a row iff every condition, read by itself, is TRUE of it |
| SearchMeaning.CompilePreservesMeaning | search/config.go:137-216 | when there is one condition, or no template used has a top-level OR: a row is selected iff the tenant equality, some term that says more than wildcards on some searchable field (when there are any), and every filter on what its JSON value stands for are TRUE |
| SearchMeaning.EffectiveTermsSay | search/config.go:194-216 | the terms that take part are exactly the trimmed ones with a character other than the wildcards |
| TemplateGuard.RequestedRowsAreSelected | search/config.go:137-216 | for any templates that are conditions every row the request asks for is selected: a top-level OR can only select more |
| SearchMeaning.TenantIsolation | search/config.go:137-154 | with a tenant column and a tenant, and no top-level OR in a template used, every selected row belongs to the tenant |
| SearchMeaning.TenantIsolationIff | search/config.go:137-173 | for any templates that are conditions: every selected row belongs to the tenant iff no disjunct after the first holds of another tenant's row; there is only one disjunct iff no template used has a top-level OR |
| TemplateGuard.IsolatesIffNoTopLevelOr | search/config.go:137-173 | when each disjunct after the first can hold and does not look at the tenant column, every selected row belongs to the tenant iff no template used has a top-level OR |
| TemplateGuard.IgnoredColumnDoesNotMatter | search/resolver.go:121-138 | a condition without sub-query that does not name a column has the same truth value whatever the row holds there |
| SearchMeaning.LastDisjunctSelects | search/resolver.go:121-138 | a row that satisfies what follows the last top-level OR of the last template is selected whatever the other conditions say |
| SearchMeaning.OrTemplateSelectsForeignRow | search/resolver.go:121-138 | the template a = %s OR b IS NULL selects another tenant's row whose b is NULL |
| SearchDiscipline.PlaceholderDiscipline | search/config.go:143-165 | when templates bring one placeholder each, the clause uses exactly $1..$len(args), first occurrences in increasing order, and each argument has the kind its cast expects |
| SearchDiscipline.FilterPieceBinds | search/resolver.go:57-138 | each filter numbers its own values right after those before it |
| SearchDiscipline.SearchPieceBinds | search/config.go:194-216 | so does the search group, repeating each number across columns |
| SearchDiscipline.CountEffective | search/config.go:80-91 | the counting loop counts the terms with more than wildcards and white space in them |
| SearchDiscipline.Validate | search/config.go:79-114 | accepts iff the bulk limit, every filter and every sort are acceptable; otherwise reports the bulk limit, else the first bad filter, else the first bad sort, each with its own error |
| SearchDiscipline.AcceptedFieldsAreKnown | search/config.go:79-165 | an accepted request never makes Compile report an unknown field |
| SearchDiscipline.CompilesIff | search/config.go:118-165 | a request compiles iff every filter has a known field, an allowed operator its resolver has, and a fitting value |
| SearchDiscipline.AcceptedSortsAreAllUsed | search/config.go:231-250 | for an accepted request ORDER BY lists every sort field in request order, none skipped |
| SearchDiscipline.BoundTermsAreEffectiveTerms | search/config.go:194-216 | the search arguments are exactly Validate's effective terms when a field is searchable, none otherwise, so at most MaxBulkTerms |
| Searcher.CountFlagSound | search/counter.go:35-103 | a total not flagged as estimated is the number of rows, the empty-first-page correction included; it is flagged iff the exact count missed its deadline and the page is not an empty first one |
| Searcher.EmptyFirstPageIsEmptyResult | search/counter.go:98-103 | an empty first page means an empty result, as its OFFSET is 0 and its LIMIT at least 1 |
| Searcher.NextPageSound | search/types.go:160-172 | HasNextPage iff a row lies after the page that was executed |
| Searcher.MatchingIsWanted | search/pgx/searcher.go:84-126 | under the same condition on templates, the rows the WHERE clause selects are the rows the request asks for |
| Searcher.Search | search/pgx/searcher.go:40-80 | rejects iff validation or a filter does; otherwise finds iff the query runs, the OFFSET is not negative and the count comes in time or as the adaptive counter's estimate. The page is the requested size (10 when omitted, capped) from the requested page (the first when omitted) of the selected rows in the table's order, sorted when ORDER BY sorts; the total is exact, or the flagged estimate when the count was late, and the page count and both flags follow from it; the rows are the requested ones when no template used has a top-level OR |
| Searcher.OmittedPageIsFirst | search/types.go:109-114 | a request without a page number gets the first rows of the ordered result as page 1 |
| TokenClaims.ExtractScopes | authn/jwt_validator.go:125-161 | reads 'scope' as text or list, then 'scp'; every scope is trimmed and nonempty |
| TokenClaims.Normalize | authn/normalizer.go:27-64 | the subject claim or its absence; the first nonempty of client_id, azp and cid; the words of scope, else of an scp list; and the flow told by a known gty or grant_type, else the first telling amr item, else a machine subject, else a device code, else a user |
| TokenClaims.FlowIsClassified | authn/jwt_validator.go:202-254 | the flow follows that order on the claims, whatever they are |
| TokenClaims.FirstTexts | authn/jwt_validator.go:111-122 | client id and grant type are the first of their claims that is a nonempty string |
| TokenClaims.ScopesAreRead | authn/jwt_validator.go:125-161 | scopes are the words of scope, as text or list, and those of an scp list only when there are none |
| TokenClaims.ScopesRoundTripIff | authn/oauthprovider/provider.go:179-189 | a joined scope list reads back unchanged iff each scope is nonempty, has no space and no white space at its ends |
| TokenClaims.GrantTypeDecides | authn/jwt_validator.go:202-254 | a recognised 'gty' fixes the flow before any other claim is looked at |
| TokenClaims.AuthCodeRoundTrip | authn/oauthprovider/provider.go:179-191 | authorization-code tokens read back to their subject, client, flow and scopes, even when the subject looks like a service account |
| TokenClaims.ClientCredentialsRoundTrip | authn/oauthprovider/provider.go:206-217 | the same for client-credentials tokens |
| TokenClaims.DeviceRoundTrip | authn/oauthprovider/provider.go:303-315 | the same for device tokens |
| OAuthProtocol.ExchangeSucceedsIff | authn/oauthprovider/provider.go:126-192 | over all runs with fresh codes, an exchange gets a token iff it is the first attempt on an issued code, in time, by the same client, with a verifier that hashes to the challenge (RFC 6749 section 4.1.2, RFC 7636 section 4.6) |
| OAuthProtocol.ExchangeRefusals | authn/oauthprovider/provider.go:155-176 | a wrong verifier on an untried code in time by its client is a PKCE failure, every other refusal an invalid grant |
| OAuthProtocol.ExchangedTokenNamesItsGrant | authn/oauthprovider/provider.go:155-192 | the token carries the user, client and scopes of the call that made the code, issuer and audience, and runs out 3600 seconds after it was issued |
| OAuthProtocol.FirstAttemptConsumesCode | authn/oauthprovider/provider.go:155-163 | after the first attempt, successful or not, every later one is an invalid grant |
| OAuthProtocol.OneTokenPerAuthCode | authn/oauthprovider/provider.go:155-192 | at most one token comes from a code |
| OAuthProtocol.ClientCredentialsAnswer | authn/oauthprovider/provider.go:90-218 | over all runs, a client gets a token for itself and the scopes it asks for, for 7200 seconds, iff its secret is the last one registered; otherwise invalid client |
| OAuthProtocol.RunIndexed | authn/oauthprovider/provider.go:223-316 | at every point of every run both device indexes hold the same records under their own keys |
| OAuthProtocol.PollSucceedsIff | authn/oauthprovider/provider.go:223-316 | over all runs with fresh codes, a poll gets a token iff its client requested the code, it was approved in time, has not expired and was not redeemed before (RFC 8628 section 3.5) |
| OAuthProtocol.PollRefusals | authn/oauthprovider/provider.go:281-297 | over all runs with fresh codes, a poll is pending iff the code is open, its client polls within 600 seconds and nobody has approved; expired iff it is open and older; an invalid grant iff it is not open or another client polls in time (RFC 8628 section 3.5) |
| OAuthProtocol.ApproveAnswer | authn/oauthprovider/provider.go:263-278 | an approval is taken iff the user code is that of an open request at most 600 seconds old, expired iff it is older, not found iff there is none |
| OAuthProtocol.DeviceTokenNamesLastApprover | authn/oauthprovider/provider.go:263-315 | the token's subject is the last approver, its client and scopes those of the request, and it runs out after 3600 seconds |
| OAuthProtocol.RedeemedCodeIsGone | authn/oauthprovider/provider.go:299-301 | a redeemed device code never comes back |
| OAuthProtocol.OneTokenPerDeviceCode | authn/oauthprovider/provider.go:281-316 | at most one token comes from a device code |
| OAuthProvider.MockOAuthProvider.constructor | authn/oauthprovider/provider.go:71-87 | empty indexes and the one built-in client |
| OAuthProvider.MockOAuthProvider.AuthorizePKCE | authn/oauthprovider/provider.go:126-152 | takes the protocol's authorize step; only S256 is accepted |
| OAuthProvider.MockOAuthProvider.ExchangeAuthCode | authn/oauthprovider/provider.go:155-192 | takes the exchange step; the code is gone afterwards in every case |
| OAuthProvider.MockOAuthProvider.IssueClientCredentialsToken | authn/oauthprovider/provider.go:197-218 | a token iff the secret is the registered one; nothing changes |
| OAuthProvider.MockOAuthProvider.RequestDeviceCode | authn/oauthprovider/provider.go:223-260 | one fresh record, shared by both indexes, replaces whatever the two codes named; with fresh codes the indexes stay in step |
| OAuthProvider.MockOAuthProvider.ApproveDeviceCode | authn/oauthprovider/provider.go:263-278 | updates only the record the user code names, seen through both indexes |
| OAuthProvider.MockOAuthProvider.PollDeviceToken | authn/oauthprovider/provider.go:281-316 | takes the poll step; without a token neither index changes |
| RouteRegistry.SplitPath | versioning/match.go:7-15 | the nonempty segments in order, none with a slash |
| RouteRegistry.MatchPattern | versioning/match.go:27-50 | matches iff the segments agree one by one, `:` taking any, or the first `*` is reached with one or more left |
| RouteRegistry.LastSegmentDecides | versioning/match.go:27-50 | segment by segment, `*` takes one or more of the rest, `:` any one, anything else only itself |
| RouteRegistry.CountLiteralSegments | versioning/registry.go:112-120 | counts the segments that are neither `:` nor `*` |
| RouteRegistry.ChosenIsFirstBest | versioning/registry.go:51-64 | the walk ends on the first of the most specific matches in its order |
| RouteRegistry.ChosenIsBest | versioning/registry.go:51-64 | for every order there is a result iff some pattern matches, and it has the most literal segments |
| RouteRegistry.BestCanBeChosen | versioning/registry.go:51-64 | every most specific match is what some order chooses |
| RouteRegistry.OrderIndependentIff | versioning/registry.go:45-70 | the answer is the same for all orders iff all most specific matches agree on the version |
| RouteRegistry.UniqueBestIsChosen | versioning/registry.go:45-105 | with one most specific match every walk ends on it: for any two orders, Lookup supports a version iff SupportedVersions lists it |
| RouteRegistry.TiedWalks | versioning/registry.go:45-70 | for two tied patterns one order finds the version and another does not |
| RouteRegistry.TiedPatternsDependOnOrder | versioning/registry.go:45-70 | patterns such as /a/:x and /:y/b with different versions make the answer for /a/b depend on the order |
| RouteRegistry.RouteVersionRegistry.Register | versioning/registry.go:31-39 | adds one version to one key, the rest unchanged |
| RouteRegistry.RouteVersionRegistry.FindKey | versioning/registry.go:51-64 | the loop computes the chosen key |
| RouteRegistry.RouteVersionRegistry.Lookup | versioning/registry.go:45-70 | the endpoint exists iff some registered pattern for the method matches; the version is looked up in a most specific one |
| RouteRegistry.RouteVersionRegistry.SupportedVersions | versioning/registry.go:74-105 | the chosen key's versions, sorted and without duplicates |
| PathRewrite.RewriteInsertsVersion | versioning/middleware.go:80-82 | `/api`+rest becomes `/api/`+v+rest even when `/api` recurs |
| PathRewrite.ShouldVersionRoute | versioning/middleware.go:93-110 | exactly the non-OPTIONS requests under /api |
| PathRewrite.HasVersionPrefix | versioning/middleware.go:113-123 | the second segment is the version |
| PathRewrite.RewriteTakesEffectIff | versioning/middleware.go:79-85 | after a rewrite the version is in place iff rest is empty or starts with a slash |
| PathRewrite.RewriteCount | versioning/middleware.go:79-85 | re-dispatch stops after exactly 0, 1 or 2 rewrites: at most one when rest is empty or starts with a slash, two otherwise |
| PathRewrite.RewriteStopsIff | versioning/middleware.go:79-123 | re-dispatch ever stops iff the version is nonempty and has no slash |
| PathRewrite.VersionLikeSegmentIsStripped | versioning/middleware.go:129-143 | any leading v… segment of two or more characters is dropped from the lookup key |
| PathRewrite.LookupKeyKeptIff | versioning/middleware.go:129-143 | for rest starting with a slash, the lookup key is the same before and after the rewrite iff the first pass stripped no leading v… segment |
| PathRewrite.BareApiKeyChanges | versioning/match.go:55-65 | for the bare /api the key changes from / to the version |
| PathRewrite.FirstPassDecides | versioning/middleware.go:62-85 | where the key is kept and the registry answers alike for every order, a request is refused iff its first pass is |
| PathRewrite.TiedPassesDisagree | versioning/middleware.go:62-85 | with tied patterns a request whose first pass is accepted is refused or let through by the second, depending on the order of its walk |
| PathRewrite.Handle | versioning/middleware.go:33-89 | the handler and its re-dispatches, each with its own registry walk, leave the rewritten path after the stated number of rewrites, and refuse iff some pass finds the endpoint without the version |

## Left out

- Searcher.Search: that ORDER BY sorts is PostgreSQL's part and a premise where the page is said to be sorted.
- Searcher.Search: the two goroutines' errors are one QueryFailed, because which one errgroup reports first is a race.
- SearchMeaning.CompilePreservesMeaning: a comparison PostgreSQL would reject as ill-typed evaluates to Unknown here; templates must be conditions in the modelled grammar (comparisons, LIKE, IN lists, BETWEEN, IS NULL, EXISTS, NOT, AND, OR, parentheses).
- SearchDiscipline.PlaceholderDiscipline: a template that names a placeholder of its own, such as $1, is outside it.
- PathRewrite.Handle: takes one nonempty, slash-free version for all passes, because the version reader stays abstract and re-dispatch does not stop otherwise.
- OAuthProvider.MockOAuthProvider.RequestDeviceCode: the indexes are said to stay in step only for codes not in use, because random generation is outside the model.
- Interleaving.RunSimulates: cached bytes decode, since a write that copies undecodable bytes to L1 decides nothing.
- User-supplied field resolvers and Counter implementations, templates with verbs other than one `%s`, and FieldType values outside the six declared ones.
- EXPLAIN output parsing: the estimate is any number or an error.
- Ristretto, Redis, pgx and scany: a cache is a map with expiry and arbitrary loss, a database is a sequence of rows.
- Custom cache key formatters, health of the bus subscription, and closing the tiered provider.
- JWT signing and signature checks, expiry of tokens at the validator, OIDC discovery, Cognito normalisation, roles and metadata.
- Scope, role, user-present and custom requirement handlers, guards, API keys and identity: easy members beside the ones above.
- HTTP responses, headers, problem details, builders and the version reading strategies.
- The health package.
