/**
 The versioning middleware's path handling (versioning/middleware.go, versioning/match.go):
 inserting the version into the path, re-dispatching, and the key used for registry lookups.
 */
module PathRewrite {
  import opened GoStrings
  import opened Options
  import opened RouteRegistry

  const API: string := "/api"

  // ---- Rewriting ----

  /** Where the first occurrence of `sep` ends. */
  function CutAfter(s: string, sep: string): (cut: Option<nat>)
    requires sep != ""
    ensures cut.Some? ==> 0 < cut.value <= |s|
  {
    if HasPrefix(s, sep) then Some(|sep|)
    else if s == "" then None
    else
      match CutAfter(s[1..], sep)
      case None => None
      case Some(k) => Some(k + 1)
  }

  /** strings.SplitAfter */
  function SplitAfter(s: string, sep: string): (parts: seq<string>)
    requires sep != ""
    ensures |parts| >= 1
    decreases |s|
  {
    match CutAfter(s, sep)
    case None => [s]
    case Some(k) => [s[..k]] + SplitAfter(s[k..], sep)
  }

  lemma {:induction false} SplitAfterKeepsText(s: string, sep: string)
    requires sep != ""
    ensures Join(SplitAfter(s, sep), "") == s
    decreases |s|
  {
    match CutAfter(s, sep)
    case None =>
    case Some(k) =>
      SplitAfterKeepsText(s[k..], sep);
      var rest := SplitAfter(s[k..], sep);
      assert ([s[..k]] + rest)[1..] == rest;
      assert s[..k] + "" + s[k..] == s;
  }

  function Rewritten(path: string, version: string): string {
    API + "/" + version + Join(SplitAfter(path, API)[1..], "")
  }

  /** The version goes in right after the leading /api, even when /api occurs again later. */
  lemma RewriteInsertsVersion(rest: string, version: string)
    ensures Rewritten(API + rest, version) == API + "/" + version + rest
  {
    var path := API + rest;
    assert HasPrefix(path, API);
    assert path[|API|..] == rest;
    var tail := SplitAfter(rest, API);
    assert SplitAfter(path, API) == [path[..|API|]] + tail;
    assert SplitAfter(path, API)[1..] == tail;
    SplitAfterKeepsText(rest, API);
  }

  // ---- Which requests are versioned ----

  predicate ShouldVersionRoute(verb: string, path: string)
    ensures ShouldVersionRoute(verb, path) <==> HasPrefix(path, API) && verb != "OPTIONS"
  {
    assert HasPrefix(path, API) ==> |path| >= 4 && path[1] == 'a';
    if path == "/" || path == "/health" || HasPrefix(path, "/test") || HasPrefix(path, "/swagger") || verb == "OPTIONS"
    then
      assert HasPrefix(path, "/test") ==> path[1] == 't';
      assert HasPrefix(path, "/swagger") ==> path[1] == 's';
      false
    else HasPrefix(path, API)
  }

  /** The second segment is the version. */
  predicate HasVersion(path: string, version: string) {
    |Segments(path)| > 1 && Segments(path)[1] == version
  }

  method HasVersionPrefix(path: string, version: string) returns (found: bool)
    ensures found <==> HasVersion(path, version)
  {
    var segments := SplitPath(path);
    for index := 0 to |segments|
      invariant index > 1 ==> segments[1] != version
    {
      if segments[index] == version && index == 1 {
        return true;
      }
    }
    return false;
  }

  // ---- Segments of the paths involved ----

  lemma {:induction false} NonEmptyCons(w: string, parts: seq<string>)
    ensures NonEmpty([w] + parts) == (if w != "" then [w] else []) + NonEmpty(parts)
  {
    var all := [w] + parts;
    if parts == [] {
      assert all == [w] && [w][..0] == [];
    } else {
      assert all[..|all| - 1] == [w] + parts[..|parts| - 1];
      NonEmptyCons(w, parts[..|parts| - 1]);
    }
  }

  lemma SegmentsCons(w: string, rest: string)
    requires '/' !in w
    ensures Segments(w + "/" + rest) == (if w != "" then [w] else []) + Segments(rest)
  {
    SplitCons(w, rest, '/');
    NonEmptyCons(w, Split(rest, '/'));
  }

  lemma SegmentsOne(w: string)
    requires IsSegment(w)
    ensures Segments(w) == [w]
  {
    SplitOne(w, '/');
    NonEmptyCons(w, []);
    assert [w] + [] == [w];
  }

  lemma {:induction false} FirstPieceExtends(u: string, rest: string)
    requires '/' !in u
    ensures u <= Split(u + rest, '/')[0]
  {
    if u == "" {
    } else {
      assert (u + rest)[1..] == u[1..] + rest;
      assert u[0] in u && forall c :: c in u[1..] ==> c in u;
      FirstPieceExtends(u[1..], rest);
      assert u == [u[0]] + u[1..];
    }
  }

  lemma FirstSegmentExtends(u: string, rest: string)
    requires IsSegment(u)
    ensures Segments(u + rest) != [] && u <= Segments(u + rest)[0]
  {
    FirstPieceExtends(u, rest);
    var parts := Split(u + rest, '/');
    assert parts == [parts[0]] + parts[1..];
    NonEmptyCons(parts[0], parts[1..]);
  }

  lemma ApiIsSegment()
    ensures IsSegment("api") && API == "/" + "api"
  {
  }

  /** Segments of a path that has /api as its own first segment. */
  lemma SegmentsUnderApi(tail: string)
    ensures Segments(API + "/" + tail) == ["api"] + Segments(tail)
  {
    ApiIsSegment();
    SegmentsCons("", "api" + "/" + tail);
    SegmentsCons("api", tail);
    assert API + "/" + tail == "" + "/" + ("api" + "/" + tail);
  }

  predicate StartsSegment(rest: string) {
    rest == "" || rest[0] == '/'
  }

  /** After one rewrite the version is in place iff it was inserted as a segment of its own. */
  lemma RewriteTakesEffectIff(rest: string, version: string)
    requires IsSegment(version)
    ensures HasVersion(API + "/" + version + rest, version) <==> StartsSegment(rest)
  {
    var path := API + "/" + version + rest;
    assert path == API + "/" + (version + rest);
    SegmentsUnderApi(version + rest);
    if rest == "" {
      assert version + rest == version;
      SegmentsOne(version);
    } else if rest[0] == '/' {
      assert version + rest == version + "/" + rest[1..];
      SegmentsCons(version, rest[1..]);
    } else {
      var u := version + [rest[0]];
      assert version + rest == u + rest[1..];
      FirstSegmentExtends(u, rest[1..]);
    }
  }

  // ---- Re-dispatching ----

  function PathAfter(path: string, version: string, n: nat): string {
    if n == 0 then path else Rewritten(PathAfter(path, version, n - 1), version)
  }

  predicate Stops(verb: string, path: string, version: string) {
    !ShouldVersionRoute(verb, path) || HasVersion(path, version)
  }

  /** One rewrite for a path under /api, two when /api is only the start of the first segment. */
  function RewritesNeeded(verb: string, path: string, version: string): nat {
    if Stops(verb, path, version) then 0 else if StartsSegment(path[|API|..]) then 1 else 2
  }

  lemma RewriteStep(verb: string, path: string, version: string)
    requires IsSegment(version) && !Stops(verb, path, version)
    ensures
      var next := Rewritten(path, version);
      && HasPrefix(next, API)
      && RewritesNeeded(verb, next, version) == RewritesNeeded(verb, path, version) - 1
  {
    var rest := path[|API|..];
    assert path == API + rest;
    RewriteInsertsVersion(rest, version);
    RewriteTakesEffectIff(rest, version);
    var next := Rewritten(path, version);
    assert next == API + ("/" + version + rest);
    assert next[|API|..] == "/" + version + rest;
  }

  /** Re-dispatch stops after exactly that many rewrites. */
  lemma {:induction false} RewriteCount(verb: string, path: string, version: string)
    requires IsSegment(version)
    ensures
      var n := RewritesNeeded(verb, path, version);
      && n <= 2
      && Stops(verb, PathAfter(path, version, n), version)
      && forall k :: 0 <= k < n ==> !Stops(verb, PathAfter(path, version, k), version)
    decreases RewritesNeeded(verb, path, version)
  {
    hide ShouldVersionRoute, HasVersion, Rewritten;
    if !Stops(verb, path, version) {
      RewriteStep(verb, path, version);
      var next := Rewritten(path, version);
      RewriteCount(verb, next, version);
      var n := RewritesNeeded(verb, path, version);
      forall k | 0 <= k < n
        ensures PathAfter(next, version, k) == PathAfter(path, version, k + 1)
      {
        PathAfterShift(path, version, k);
      }
      forall k | 0 <= k < n
        ensures !Stops(verb, PathAfter(path, version, k), version)
      {
        if k > 0 {
          assert PathAfter(next, version, k - 1) == PathAfter(path, version, k);
        }
      }
      assert PathAfter(next, version, n - 1) == PathAfter(path, version, n);
    }
  }

  lemma {:induction false} PathAfterShift(path: string, version: string, k: nat)
    ensures PathAfter(Rewritten(path, version), version, k) == PathAfter(path, version, k + 1)
  {
    hide Rewritten;
    if k == 0 {
    } else {
      PathAfterShift(path, version, k - 1);
    }
  }

  lemma {:induction false} PathAfterStaysUnderApi(path: string, version: string, n: nat)
    requires HasPrefix(path, API)
    ensures HasPrefix(PathAfter(path, version, n), API)
  {
    if n > 0 {
      assert Rewritten(PathAfter(path, version, n - 1), version)[..|API|] == API;
    }
  }

  /** Re-dispatching a versioned request ever stops iff the version is a path segment: nonempty, without a slash. */
  lemma RewriteStopsIff(verb: string, path: string, version: string)
    requires ShouldVersionRoute(verb, path)
    ensures (exists n: nat :: Stops(verb, PathAfter(path, version, n), version)) <==> IsSegment(version)
  {
    if IsSegment(version) {
      RewriteCount(verb, path, version);
      assert Stops(verb, PathAfter(path, version, RewritesNeeded(verb, path, version)), version);
    } else {
      forall n: nat
        ensures !Stops(verb, PathAfter(path, version, n), version)
      {
        PathAfterStaysUnderApi(path, version, n);
        SegmentsAreSegments(PathAfter(path, version, n));
      }
    }
  }

  // ---- The lookup key ----

  function ExtractBasePath(path: string): string {
    if HasPrefix(path, API) then (if path[|API|..] == "" then "/" else path[|API|..]) else path
  }

  /** strings.IndexByte for a slash; the length when there is none. */
  function IndexSlash(s: string): (k: nat)
    ensures k <= |s| && '/' !in s[..k] && (k < |s| ==> s[k] == '/')
  {
    if s == "" then 0
    else if s[0] == '/' then 0
    else
      var k := IndexSlash(s[1..]) + 1;
      assert s[..k] == [s[0]] + s[1..][..k - 1];
      k
  }

  /** Drops a leading v… segment that another slash follows. */
  function StripVersion(base: string): string {
    if |base| > 1 && base[0] == '/' then
      var rest := base[1..];
      var slash := IndexSlash(rest);
      if slash < |rest| && HasPrefix(rest[..slash], "v") && slash > 1 then rest[slash..] else base
    else base
  }

  function LookupKey(path: string): string {
    StripVersion(ExtractBasePath(path))
  }

  predicate IsVersionLike(seg: string) {
    |seg| > 1 && seg[0] == 'v' && '/' !in seg
  }

  ghost predicate LeadsWith(rest: string, seg: string, tail: string) {
    rest == "/" + seg + "/" + tail
  }

  /** The path leads with a segment of two or more characters that starts with v and is not the last. */
  ghost predicate LeadsWithV(rest: string) {
    exists tail, seg :: LeadsWith(rest, seg, tail) && IsVersionLike(seg)
  }

  lemma {:induction false} IndexSlashOfSegment(seg: string, rest: string)
    requires '/' !in seg && (rest == "" || rest[0] == '/')
    ensures IndexSlash(seg + rest) == |seg|
  {
    if seg == "" {
      assert seg + rest == rest;
    } else {
      assert seg[0] in seg && forall c :: c in seg[1..] ==> c in seg;
      assert (seg + rest)[1..] == seg[1..] + rest;
      IndexSlashOfSegment(seg[1..], rest);
    }
  }

  lemma StripsSegment(seg: string, tail: string)
    requires IsVersionLike(seg)
    ensures StripVersion("/" + seg + "/" + tail) == "/" + tail
  {
    var base, rest := "/" + seg + "/" + tail, seg + ("/" + tail);
    assert base[1..] == rest;
    assert rest[..|seg|] == seg && rest[|seg|..] == "/" + tail;
    IndexSlashOfSegment(seg, "/" + tail);
  }

  lemma StripsOnlyV(base: string)
    requires StripVersion(base) != base
    ensures LeadsWithV(base)
  {
    hide LeadsWith;
    var rest := base[1..];
    var slash := IndexSlash(rest);
    LeadsWithCut(base, slash);
    assert LeadsWith(base, rest[..slash], rest[slash + 1..]);
  }

  lemma LeadsWithCut(base: string, slash: nat)
    requires |base| > 1 && base[0] == '/' && slash < |base| - 1 && base[slash + 1] == '/'
    ensures LeadsWith(base, base[1..][..slash], base[1..][slash + 1..])
  {
  }

  lemma StripKeepsIff(base: string)
    ensures StripVersion(base) == base <==> !LeadsWithV(base)
  {
    hide StripVersion;
    if LeadsWithV(base) {
      var tail, seg :| LeadsWith(base, seg, tail) && IsVersionLike(seg);
      StripsSegment(seg, tail);
      assert |base| == |seg| + |"/" + tail| + 1;
    } else if StripVersion(base) != base {
      StripsOnlyV(base);
    }
  }

  lemma BaseUnderApi(rest: string)
    ensures ExtractBasePath(API + rest) == if rest == "" then "/" else rest
  {
    assert (API + rest)[|API|..] == rest;
  }

  /** Any leading v… segment is stripped, whether or not it names a version. */
  lemma VersionLikeSegmentIsStripped(seg: string, tail: string)
    requires IsVersionLike(seg)
    ensures LookupKey(API + "/" + seg + "/" + tail) == "/" + tail
  {
    hide StripVersion, ExtractBasePath;
    assert API + "/" + seg + "/" + tail == API + ("/" + seg + "/" + tail);
    BaseUnderApi("/" + seg + "/" + tail);
    StripsSegment(seg, tail);
  }

  /** Inserting the version keeps the lookup key iff the first pass stripped no leading v… segment. */
  lemma LookupKeyKeptIff(rest: string, version: string)
    requires IsVersionLike(version) && rest != "" && rest[0] == '/'
    ensures LookupKey(Rewritten(API + rest, version)) == rest
    ensures LookupKey(API + rest) == LookupKey(Rewritten(API + rest, version)) <==> !LeadsWithV(rest)
  {
    hide StripVersion, ExtractBasePath, Rewritten, LeadsWithV;
    RewriteInsertsVersion(rest, version);
    assert API + "/" + version + rest == API + "/" + version + "/" + rest[1..];
    VersionLikeSegmentIsStripped(version, rest[1..]);
    assert "/" + rest[1..] == rest;
    BaseUnderApi(rest);
    StripKeepsIff(rest);
  }

  /** For the bare /api the key does change: from the root to the version itself. */
  lemma BareApiKeyChanges(version: string)
    requires IsVersionLike(version)
    ensures LookupKey(API) == "/" && LookupKey(Rewritten(API, version)) == "/" + version
  {
    assert API + "" == API;
    RewriteInsertsVersion("", version);
    BaseUnderApi("");
    assert API + "/" + version + "" == API + ("/" + version);
    BaseUnderApi("/" + version);
    assert ("/" + version)[1..] == version == version + "";
    IndexSlashOfSegment(version, "");
  }

  // ---- The handler ----

  class Context {
    const verb: string
    var path: string

    constructor (verb: string, path: string)
      ensures this.verb == verb && this.path == path
    {
      this.verb, this.path := verb, path;
    }
  }

  /** The registry knows the endpoint but not the version. Each pass walks the routes in its own order. */
  ghost predicate Refuses(routes: Routes, order: seq<RouteKey>, verb: string, path: string, version: string)
    requires Enumerates(order, routes.Keys)
  {
    var answer := LookupIn(routes, order, verb, LookupKey(path), version);
    answer.endpointExists && !answer.versionSupported
  }

  /** One walk of the routes for each pass. */
  ghost predicate Walks(routes: Routes, orders: seq<seq<RouteKey>>, verb: string, path: string, version: string) {
    && |orders| > RewritesNeeded(verb, path, version)
    && forall k :: 0 <= k < |orders| ==> Enumerates(orders[k], routes.Keys)
  }

  /** Some pass up to the last one is refused; `upper` is the verb as the registry knows it. */
  ghost predicate SomePassRefused(
    routes: Routes, orders: seq<seq<RouteKey>>, verb: string, upper: string, path: string, version: string)
    requires Walks(routes, orders, verb, path, version)
  {
    ShouldVersionRoute(verb, path) &&
    exists k :: 0 <= k <= RewritesNeeded(verb, path, version) &&
      Refuses(routes, orders[k], upper, PathAfter(path, version, k), version)
  }

  /**
   One pass of the middleware and the passes it re-dispatches. The version read is the same on
   every pass; without a registry nothing is refused.
   */
  method Handle(c: Context, version: string, registry: RouteVersionRegistry?, orders: seq<seq<RouteKey>>)
    returns (refused: bool, rewrites: nat)
    requires IsSegment(version)
    requires registry != null ==> Walks(registry.routes, orders, c.verb, c.path, version)
    modifies c`path
    ensures rewrites <= RewritesNeeded(c.verb, old(c.path), version)
    ensures c.path == PathAfter(old(c.path), version, rewrites)
    ensures !refused ==> rewrites == RewritesNeeded(c.verb, old(c.path), version)
    ensures refused <==>
      registry != null &&
      SomePassRefused(registry.routes, orders, c.verb, registry.upper(c.verb), old(c.path), version)
    decreases RewritesNeeded(c.verb, c.path, version)
  {
    hide ShouldVersionRoute, HasVersion, Rewritten, LookupKey, StartsSegment, Chosen, Enumerates;
    if !ShouldVersionRoute(c.verb, c.path) {
      return false, 0;
    }
    assert PathAfter(c.path, version, 0) == c.path;
    if registry != null {
      var endpointExists, versionSupported := registry.Lookup(c.verb, LookupKey(c.path), version, orders[0]);
      if endpointExists && !versionSupported {
        assert Refuses(registry.routes, orders[0], registry.upper(c.verb), c.path, version);
        return true, 0;
      }
    }
    var versioned := HasVersionPrefix(c.path, version);
    if versioned {
      return false, 0;
    }
    ghost var path := c.path;
    RewriteStep(c.verb, path, version);
    c.path := Rewritten(c.path, version);
    if registry != null {
      RefusalShift(registry.routes, orders, c.verb, registry.upper(c.verb), path, version);
      refused, rewrites := Handle(c, version, registry, orders[1..]);
    } else {
      refused, rewrites := Handle(c, version, registry, []);
    }
    PathAfterShift(path, version, rewrites);
    rewrites := rewrites + 1;
  }

  lemma RefusalShift(
    routes: Routes, orders: seq<seq<RouteKey>>, verb: string, upper: string, path: string, version: string)
    requires IsSegment(version) && !Stops(verb, path, version) && Walks(routes, orders, verb, path, version)
    requires !Refuses(routes, orders[0], upper, path, version)
    ensures Walks(routes, orders[1..], verb, Rewritten(path, version), version)
    ensures SomePassRefused(routes, orders, verb, upper, path, version) <==>
      SomePassRefused(routes, orders[1..], verb, upper, Rewritten(path, version), version)
  {
    hide HasVersion, Rewritten, Refuses, StartsSegment, RewritesNeeded, Enumerates;
    RewriteStep(verb, path, version);
    var next := Rewritten(path, version);
    var n := RewritesNeeded(verb, path, version);
    if SomePassRefused(routes, orders, verb, upper, path, version) {
      var k :| 0 <= k <= n && Refuses(routes, orders[k], upper, PathAfter(path, version, k), version);
      assert k > 0;
      PathAfterShift(path, version, k - 1);
      assert Refuses(routes, orders[1..][k - 1], upper, PathAfter(next, version, k - 1), version);
    }
    if SomePassRefused(routes, orders[1..], verb, upper, next, version) {
      var k :| 0 <= k <= n - 1 && Refuses(routes, orders[1..][k], upper, PathAfter(next, version, k), version);
      PathAfterShift(path, version, k);
      assert Refuses(routes, orders[k + 1], upper, PathAfter(path, version, k + 1), version);
    }
  }

  /** Where the key is kept and the registry answers alike for every order, the first pass decides. */
  lemma FirstPassDecides(
    routes: Routes, orders: seq<seq<RouteKey>>, verb: string, upper: string, rest: string, version: string)
    requires IsVersionLike(version) && rest != "" && rest[0] == '/' && !LeadsWithV(rest) && verb != "OPTIONS"
    requires Walks(routes, orders, verb, API + rest, version) && SameForAllOrders(routes, upper, rest, version)
    ensures SomePassRefused(routes, orders, verb, upper, API + rest, version) <==>
      Refuses(routes, orders[0], upper, API + rest, version)
  {
    hide HasVersion, Rewritten, LookupKey, LeadsWithV, LookupIn, Enumerates;
    var path := API + rest;
    assert path[|API|..] == rest;
    LookupKeyKeptIff(rest, version);
    assert PathAfter(path, version, 0) == path && PathAfter(path, version, 1) == Rewritten(path, version);
    OnePassMore(verb, path, version);
  }

  lemma OnePassMore(verb: string, path: string, version: string)
    requires HasPrefix(path, API) && StartsSegment(path[|API|..])
    ensures RewritesNeeded(verb, path, version) <= 1
  {
  }

  // ---- Tied routes ----

  lemma KeepsOtherSegment(seg: string, tail: string)
    requires '/' !in seg && !IsVersionLike(seg)
    ensures StripVersion("/" + seg + "/" + tail) == "/" + seg + "/" + tail
  {
    var base, rest := "/" + seg + "/" + tail, seg + ("/" + tail);
    assert base[1..] == rest;
    assert rest[..|seg|] == seg;
    IndexSlashOfSegment(seg, "/" + tail);
  }

  lemma KeyOfTwoSegments(a: string, b: string)
    requires IsSegment(a) && IsSegment(b) && !IsVersionLike(a)
    ensures LookupKey(API + ("/" + a + "/" + b)) == "/" + a + "/" + b
  {
    hide StripVersion, ExtractBasePath;
    BaseUnderApi("/" + a + "/" + b);
    KeepsOtherSegment(a, b);
  }

  lemma TwoSegmentsNeedOneRewrite(verb: string, a: string, b: string, version: string)
    requires IsSegment(a) && IsSegment(b) && IsVersionLike(version) && !IsVersionLike(a) && verb != "OPTIONS"
    ensures RewritesNeeded(verb, API + ("/" + a + "/" + b), version) == 1
  {
    var path := API + ("/" + a + "/" + b);
    assert path == API + "/" + (a + "/" + b);
    SegmentsUnderApi(a + "/" + b);
    SegmentsCons(a, b);
    assert Segments(path)[1] == a;
    assert path[|API|..] == "/" + a + "/" + b;
  }

  /**
   With tied patterns one pass can accept and the next refuse the same key: for /api/a/b under
   /a/:x and /:y/b, a request whose first pass is accepted is refused or let through depending
   on the order of the second walk.
   */
  lemma TiedPassesDisagree(verb: string, upper: string, a: string, b: string, v: string, w: string)
    returns (accepts: seq<RouteKey>, refuses: seq<RouteKey>)
    requires IsSegment(a) && IsSegment(b) && IsLiteral(a) && IsLiteral(b) && v != w
    requires IsVersionLike(v) && !IsVersionLike(a) && verb != "OPTIONS"
    ensures
      var routes, path := TiedRoutes(upper, a, b, v, w), API + ("/" + a + "/" + b);
      && Walks(routes, [accepts, refuses], verb, path, v) && Walks(routes, [accepts, accepts], verb, path, v)
      && Enumerates(accepts, routes.Keys) && !Refuses(routes, accepts, upper, path, v)
      && SomePassRefused(routes, [accepts, refuses], verb, upper, path, v)
      && !SomePassRefused(routes, [accepts, accepts], verb, upper, path, v)
  {
    hide HasVersion, Rewritten, LookupKey, LookupIn, Enumerates, RewritesNeeded, TiedRoutes, ShouldVersionRoute;
    var routes, rest := TiedRoutes(upper, a, b, v, w), "/" + a + "/" + b;
    var path := API + rest;
    accepts, refuses := TiedWalks(upper, a, b, v, w);
    TwoSegmentsNeedOneRewrite(verb, a, b, v);
    KeyOfTwoSegments(a, b);
    SecondKey(rest, v);
    UnderApi(verb, rest);
    assert PathAfter(path, v, 0) == path && PathAfter(path, v, 1) == Rewritten(path, v);
    assert Refuses(routes, [accepts, refuses][1], upper, PathAfter(path, v, 1), v);
    assert forall k :: 0 <= k <= 1 ==> [accepts, accepts][k] == accepts;
  }

  lemma SecondKey(rest: string, version: string)
    requires IsVersionLike(version) && rest != "" && rest[0] == '/'
    ensures LookupKey(Rewritten(API + rest, version)) == rest
  {
    LookupKeyKeptIff(rest, version);
  }

  lemma UnderApi(verb: string, rest: string)
    requires verb != "OPTIONS"
    ensures ShouldVersionRoute(verb, API + rest)
  {
  }
}
