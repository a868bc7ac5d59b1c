/**
 The per-endpoint version registry (versioning/match.go, versioning/registry.go). A Go map is
 walked in an order the runtime picks, so the walk takes that order as an argument and every
 result is stated for all orders.
 */
module RouteRegistry {
  import opened GoStrings
  import opened Options

  // ---- Path segments ----

  function NonEmpty(parts: seq<string>): seq<string> {
    if parts == [] then []
    else
      var init, last := NonEmpty(parts[..|parts| - 1]), parts[|parts| - 1];
      if last != "" then init + [last] else init
  }

  /** The non-empty segments of a path. */
  function Segments(path: string): seq<string> {
    NonEmpty(Split(path, '/'))
  }

  method SplitPath(path: string) returns (segments: seq<string>)
    ensures segments == Segments(path)
    ensures forall i :: 0 <= i < |segments| ==> segments[i] != "" && '/' !in segments[i]
  {
    segments := [];
    var parts := Split(path, '/');
    for i := 0 to |parts|
      invariant segments == NonEmpty(parts[..i])
    {
      assert parts[..i + 1][..i] == parts[..i];
      if parts[i] != "" {
        segments := segments + [parts[i]];
      }
    }
    assert parts[..|parts|] == parts;
    SegmentsAreSegments(path);
  }

  lemma {:induction false} NonEmptyKeeps(parts: seq<string>)
    ensures forall i :: 0 <= i < |NonEmpty(parts)| ==> NonEmpty(parts)[i] != "" && NonEmpty(parts)[i] in parts
  {
    if parts == [] {
    } else {
      NonEmptyKeeps(parts[..|parts| - 1]);
      assert forall w :: w in parts[..|parts| - 1] ==> w in parts;
    }
  }

  lemma SegmentsAreSegments(path: string)
    ensures forall i :: 0 <= i < |Segments(path)| ==> Segments(path)[i] != "" && '/' !in Segments(path)[i]
  {
    NonEmptyKeeps(Split(path, '/'));
    SplitPiecesLackSeparator(path, '/');
  }

  // ---- Patterns ----

  predicate IsParam(seg: string) {
    HasPrefix(seg, ":")
  }

  predicate IsCatchAll(seg: string) {
    HasPrefix(seg, "*")
  }

  predicate SegmentFits(url: string, pat: string) {
    IsParam(pat) || pat == url
  }

  ghost predicate FitsUpTo(url: seq<string>, pat: seq<string>, n: nat) {
    n <= |url| && n <= |pat| && forall i :: 0 <= i < n ==> !IsCatchAll(pat[i]) && SegmentFits(url[i], pat[i])
  }

  /** Without a catch-all the lengths agree and every segment fits; the first catch-all takes one or more segments. */
  ghost predicate Matches(url: seq<string>, pat: seq<string>) {
    || (|url| == |pat| && FitsUpTo(url, pat, |pat|))
    || (exists w :: 0 <= w < |pat| && IsCatchAll(pat[w]) && FitsUpTo(url, pat, w) && |url| > w)
  }

  lemma PastMatchedPrefix(url: seq<string>, pat: seq<string>, i: nat)
    requires i < |pat| && FitsUpTo(url, pat, i)
    ensures IsCatchAll(pat[i]) ==> (Matches(url, pat) <==> |url| > i)
    ensures !IsCatchAll(pat[i]) && (i >= |url| || !SegmentFits(url[i], pat[i])) ==> !Matches(url, pat)
  {
    if IsCatchAll(pat[i]) {
      forall w | 0 <= w < |pat| && IsCatchAll(pat[w]) && FitsUpTo(url, pat, w)
        ensures w == i
      {
      }
    }
  }

  /** One more pattern segment: `*` takes the rest, `:` takes any one segment, anything else only itself. */
  lemma LastSegmentDecides(url: seq<string>, pat: seq<string>, seg: string)
    requires forall i :: 0 <= i < |pat| ==> !("*" <= pat[i])
    ensures Matches([], [])
    ensures Matches(url, pat + [seg]) <==>
      && |url| > |pat| && Matches(url[..|pat|], pat)
      && ("*" <= seg || (|url| == |pat| + 1 && (":" <= seg || url[|pat|] == seg)))
  {
    var all := pat + [seg];
    assert all[|pat|] == seg && forall i :: 0 <= i < |pat| ==> all[i] == pat[i];
    if |url| > |pat| {
      var init := url[..|pat|];
      assert FitsUpTo(init, pat, |pat|) <==> FitsUpTo(url, all, |pat|);
      assert Matches(init, pat) <==> FitsUpTo(init, pat, |pat|);
    }
  }

  method MatchPattern(urlPath: string, pattern: string) returns (ok: bool)
    ensures ok <==> Matches(Segments(urlPath), Segments(pattern))
  {
    var urlParts := SplitPath(urlPath);
    var patParts := SplitPath(pattern);
    for i := 0 to |patParts|
      invariant FitsUpTo(urlParts, patParts, i)
    {
      var pat := patParts[i];
      PastMatchedPrefix(urlParts, patParts, i);
      if HasPrefix(pat, "*") {
        return |urlParts| >= i + 1;
      }
      if i >= |urlParts| {
        return false;
      }
      if HasPrefix(pat, ":") {
        continue;
      }
      if pat != urlParts[i] {
        return false;
      }
    }
    return |urlParts| == |patParts|;
  }

  predicate IsLiteral(seg: string) {
    !IsParam(seg) && !IsCatchAll(seg)
  }

  function Literals(segs: seq<string>): nat {
    if segs == [] then 0
    else Literals(segs[..|segs| - 1]) + if IsLiteral(segs[|segs| - 1]) then 1 else 0
  }

  method CountLiteralSegments(pattern: string) returns (count: nat)
    ensures count == Literals(Segments(pattern))
  {
    count := 0;
    var segments := SplitPath(pattern);
    for i := 0 to |segments|
      invariant count == Literals(segments[..i])
    {
      assert segments[..i + 1][..i] == segments[..i];
      if !HasPrefix(segments[i], ":") && !HasPrefix(segments[i], "*") {
        count := count + 1;
      }
    }
    assert segments[..|segments|] == segments;
  }

  // ---- Choosing a route ----

  datatype RouteKey = RouteKey(verb: string, pattern: string)

  type Routes = map<RouteKey, set<string>>

  ghost predicate Candidate(key: RouteKey, verb: string, path: string) {
    key.verb == verb && Matches(Segments(path), Segments(key.pattern))
  }

  function Specificity(key: RouteKey): nat {
    Literals(Segments(key.pattern))
  }

  /** Some registered key matches the request. */
  ghost predicate SomeCandidate(keys: set<RouteKey>, verb: string, path: string) {
    exists key :: key in keys && Candidate(key, verb, path)
  }

  /** A matching key with as many literal segments as any. */
  ghost predicate Best(keys: set<RouteKey>, verb: string, path: string, key: RouteKey) {
    && key in keys && Candidate(key, verb, path)
    && forall other :: other in keys && Candidate(other, verb, path) ==> Specificity(other) <= Specificity(key)
  }

  /** `order` lists every key once. */
  ghost predicate Enumerates<T(!new)>(order: seq<T>, keys: set<T>) {
    (forall k :: k in order <==> k in keys) && forall i, j :: 0 <= i < j < |order| ==> order[i] != order[j]
  }

  /** The key the walk ends on: a later one replaces it only when strictly more specific. */
  ghost function Chosen(order: seq<RouteKey>, verb: string, path: string): Option<RouteKey> {
    if order == [] then None
    else
      var before, key := Chosen(order[..|order| - 1], verb, path), order[|order| - 1];
      if Candidate(key, verb, path) && (before.None? || Specificity(key) > Specificity(before.value)) then Some(key)
      else before
  }

  /** The walk finds a most specific match, the first in its order. */
  lemma {:induction false} ChosenIsFirstBest(order: seq<RouteKey>, verb: string, path: string)
    ensures
      var chosen := Chosen(order, verb, path);
      if chosen.None? then forall i :: 0 <= i < |order| ==> !Candidate(order[i], verb, path)
      else
        && Candidate(chosen.value, verb, path)
        && exists c ::
          && 0 <= c < |order| && order[c] == chosen.value
          && forall i :: 0 <= i < |order| && Candidate(order[i], verb, path) ==>
            Specificity(order[i]) <= Specificity(order[c]) && (i < c ==> Specificity(order[i]) < Specificity(order[c]))
  {
    hide Candidate, Specificity;
    if order == [] {
    } else {
      ChosenIsFirstBest(order[..|order| - 1], verb, path);
    }
  }

  lemma ChosenIsBest(order: seq<RouteKey>, keys: set<RouteKey>, verb: string, path: string)
    requires Enumerates(order, keys)
    ensures Chosen(order, verb, path).Some? <==> SomeCandidate(keys, verb, path)
    ensures Chosen(order, verb, path).Some? ==> Best(keys, verb, path, Chosen(order, verb, path).value)
  {
    hide Candidate, Specificity, Chosen;
    ChosenIsFirstBest(order, verb, path);
    var chosen := Chosen(order, verb, path);
    if key :| key in keys && Candidate(key, verb, path) {
      assert key in order;
    }
    if chosen.Some? {
      forall other | other in keys && Candidate(other, verb, path)
        ensures Specificity(other) <= Specificity(chosen.value)
      {
        assert other in order;
      }
    }
  }

  /** Every most specific match is what some order chooses: put it first. */
  lemma BestCanBeChosen(keys: set<RouteKey>, verb: string, path: string, key: RouteKey) returns (order: seq<RouteKey>)
    requires Best(keys, verb, path, key)
    ensures Enumerates(order, keys) && Chosen(order, verb, path) == Some(key)
  {
    hide Candidate, Specificity, Chosen;
    var rest := Listing(keys - {key});
    order := [key] + rest;
    assert forall k :: k in order <==> k == key || k in rest;
    ChosenIsFirstBest(order, verb, path);
    var chosen := Chosen(order, verb, path);
    assert order[0] == key;
    if chosen.Some? {
      assert chosen.value in order;
    }
  }

  lemma {:induction false} Listing<T(!new)>(s: set<T>) returns (order: seq<T>)
    ensures Enumerates(order, s)
  {
    if s == {} {
      order := [];
    } else {
      var x :| x in s;
      var rest := Listing(s - {x});
      order := [x] + rest;
      assert forall k :: k in order <==> k == x || k in rest;
    }
  }

  // ---- What Lookup answers ----

  datatype Answer = Answer(endpointExists: bool, versionSupported: bool)

  ghost function LookupIn(routes: Routes, order: seq<RouteKey>, verb: string, path: string, version: string): Answer
    requires Enumerates(order, routes.Keys)
  {
    ChosenIsBest(order, routes.Keys, verb, path);
    match Chosen(order, verb, path)
    case None => Answer(false, false)
    case Some(key) => Answer(true, version in routes[key])
  }

  ghost predicate SameForAllOrders(routes: Routes, verb: string, path: string, version: string) {
    forall a, b :: Enumerates(a, routes.Keys) && Enumerates(b, routes.Keys) ==>
      LookupIn(routes, a, verb, path, version) == LookupIn(routes, b, verb, path, version)
  }

  /** The answer is the same for every order iff all most specific matches agree on the version. */
  lemma OrderIndependentIff(routes: Routes, verb: string, path: string, version: string)
    ensures SameForAllOrders(routes, verb, path, version) <==>
      forall k, l :: Best(routes.Keys, verb, path, k) && Best(routes.Keys, verb, path, l) ==>
        (version in routes[k] <==> version in routes[l])
  {
    hide Best, Chosen, Enumerates;
    if SameForAllOrders(routes, verb, path, version) {
      forall k, l | Best(routes.Keys, verb, path, k) && Best(routes.Keys, verb, path, l)
        ensures k in routes && l in routes && (version in routes[k] <==> version in routes[l])
      {
        BestIsRegistered(routes, verb, path, k);
        BestIsRegistered(routes, verb, path, l);
        var a := BestCanBeChosen(routes.Keys, verb, path, k);
        var b := BestCanBeChosen(routes.Keys, verb, path, l);
        assert LookupIn(routes, a, verb, path, version) == LookupIn(routes, b, verb, path, version);
      }
    } else {
      var a, b :| Enumerates(a, routes.Keys) && Enumerates(b, routes.Keys) &&
        LookupIn(routes, a, verb, path, version) != LookupIn(routes, b, verb, path, version);
      ChosenIsBest(a, routes.Keys, verb, path);
      ChosenIsBest(b, routes.Keys, verb, path);
    }
  }

  lemma BestIsRegistered(routes: Routes, verb: string, path: string, key: RouteKey)
    requires Best(routes.Keys, verb, path, key)
    ensures key in routes
  {
  }

  /** The versions SupportedVersions lists after walking the keys in `order`. */
  ghost function VersionsIn(routes: Routes, order: seq<RouteKey>, verb: string, path: string): set<string>
    requires Enumerates(order, routes.Keys)
  {
    ChosenIsBest(order, routes.Keys, verb, path);
    match Chosen(order, verb, path)
    case None => {}
    case Some(key) => routes[key]
  }

  /**
   When one match is the most specific, every walk ends on it: a Lookup and a SupportedVersions
   that walk the keys in different orders agree.
   */
  lemma UniqueBestIsChosen(
    routes: Routes, a: seq<RouteKey>, b: seq<RouteKey>, verb: string, path: string, version: string, key: RouteKey)
    requires Enumerates(a, routes.Keys) && Enumerates(b, routes.Keys) && Best(routes.Keys, verb, path, key)
    requires forall other :: Best(routes.Keys, verb, path, other) ==> other == key
    ensures LookupIn(routes, a, verb, path, version) == Answer(true, version in routes[key])
    ensures LookupIn(routes, a, verb, path, version).versionSupported <==> version in VersionsIn(routes, b, verb, path)
  {
    hide Chosen;
    ChosenIsBest(a, routes.Keys, verb, path);
    ChosenIsBest(b, routes.Keys, verb, path);
  }

  predicate IsSegment(s: string) {
    s != "" && '/' !in s
  }

  lemma TwoSegments(a: string, b: string)
    requires IsSegment(a) && IsSegment(b)
    ensures Segments("/" + a + "/" + b) == [a, b]
  {
    var path := "/" + a + "/" + b;
    assert path == "" + ['/'] + (a + ['/'] + b);
    SplitCons("", a + ['/'] + b, '/');
    SplitCons(a, b, '/');
    SplitOne(b, '/');
    assert Split(path, '/') == ["", a, b];
    assert ["", a, b][..2] == ["", a] && ["", a][..1] == [""] && [""][..0] == [];
    assert NonEmpty([""]) == [] && NonEmpty(["", a]) == [a];
  }

  lemma LiteralsOfTwo(x: string, y: string)
    ensures Literals([x, y]) == (if IsLiteral(x) then 1 else 0) + if IsLiteral(y) then 1 else 0
  {
    assert [x, y][..1] == [x] && [x][..0] == [];
    assert Literals([x]) == if IsLiteral(x) then 1 else 0;
  }

  /** /a/:x has version `v` only, /:y/b version `w` only. */
  function TiedRoutes(verb: string, a: string, b: string, v: string, w: string): Routes {
    map[RouteKey(verb, "/" + a + "/" + ":x") := {v}, RouteKey(verb, "/" + ":y" + "/" + b) := {w}]
  }

  lemma TiedRoutesAreBest(verb: string, a: string, b: string, v: string, w: string)
    requires IsSegment(a) && IsSegment(b) && IsLiteral(a) && IsLiteral(b) && v != w
    ensures
      var routes := TiedRoutes(verb, a, b, v, w);
      var k, l := RouteKey(verb, "/" + a + "/" + ":x"), RouteKey(verb, "/" + ":y" + "/" + b);
      var path := "/" + a + "/" + b;
      && Best(routes.Keys, verb, path, k) && Best(routes.Keys, verb, path, l)
      && k in routes && l in routes && routes[k] == {v} && routes[l] == {w}
  {
    var k, l := RouteKey(verb, "/" + a + "/" + ":x"), RouteKey(verb, "/" + ":y" + "/" + b);
    var routes := TiedRoutes(verb, a, b, v, w);
    TwoSegments(a, b);
    TwoSegments(a, ":x");
    TwoSegments(":y", b);
    LiteralsOfTwo(a, ":x");
    LiteralsOfTwo(":y", b);
    assert k != l by { assert [a, ":x"][0] != [":y", b][0]; }
    assert FitsUpTo([a, b], [a, ":x"], 2) && FitsUpTo([a, b], [":y", b], 2);
    assert routes.Keys == {k, l};
  }

  /** One walk finds the version and another does not. */
  lemma TiedWalks(verb: string, a: string, b: string, v: string, w: string)
    returns (accepts: seq<RouteKey>, refuses: seq<RouteKey>)
    requires IsSegment(a) && IsSegment(b) && IsLiteral(a) && IsLiteral(b) && v != w
    ensures
      var routes, path := TiedRoutes(verb, a, b, v, w), "/" + a + "/" + b;
      && Enumerates(accepts, routes.Keys) && Enumerates(refuses, routes.Keys)
      && LookupIn(routes, accepts, verb, path, v) == Answer(true, true)
      && LookupIn(routes, refuses, verb, path, v) == Answer(true, false)
  {
    hide Best, Chosen, Enumerates, TiedRoutes;
    TiedRoutesAreBest(verb, a, b, v, w);
    var routes, path := TiedRoutes(verb, a, b, v, w), "/" + a + "/" + b;
    accepts := BestCanBeChosen(routes.Keys, verb, path, RouteKey(verb, "/" + a + "/" + ":x"));
    refuses := BestCanBeChosen(routes.Keys, verb, path, RouteKey(verb, "/" + ":y" + "/" + b));
  }

  /** Patterns such as /a/:x and /:y/b tie on /a/b, and then the answer depends on the order. */
  lemma TiedPatternsDependOnOrder(verb: string, a: string, b: string, v: string, w: string)
    requires IsSegment(a) && IsSegment(b) && IsLiteral(a) && IsLiteral(b) && v != w
    ensures !SameForAllOrders(TiedRoutes(verb, a, b, v, w), verb, "/" + a + "/" + b, v)
  {
    hide LookupIn, TiedRoutes, Enumerates;
    var accepts, refuses := TiedWalks(verb, a, b, v, w);
  }

  // ---- The registry ----

  class RouteVersionRegistry {
    var routes: Routes
    /** strings.ToUpper */
    const upper: string -> string

    constructor (upper: string -> string)
      ensures routes == map[] && this.upper == upper
    {
      routes := map[];
      this.upper := upper;
    }

    method Register(verb: string, pattern: string, version: string)
      modifies this`routes
      ensures
        var key := RouteKey(upper(verb), pattern);
        && routes.Keys == old(routes.Keys) + {key}
        && routes[key] == (if key in old(routes) then old(routes)[key] else {}) + {version}
        && forall k :: k in old(routes) && k != key ==> routes[k] == old(routes)[k]
    {
      var key := RouteKey(upper(verb), pattern);
      if key !in routes {
        routes := routes[key := {}];
      }
      routes := routes[key := routes[key] + {version}];
    }

    method FindKey(verb: string, urlPath: string, order: seq<RouteKey>) returns (matched: Option<RouteKey>)
      requires Enumerates(order, routes.Keys)
      ensures matched == Chosen(order, verb, urlPath)
    {
      hide Specificity, Matches;
      matched := None;
      for i := 0 to |order|
        invariant matched == Chosen(order[..i], verb, urlPath)
      {
        assert order[..i + 1][..i] == order[..i];
        var key := order[i];
        if key.verb != verb {
          continue;
        }
        var fits := MatchPattern(urlPath, key.pattern);
        if fits {
          if matched.None? {
            matched := Some(key);
          } else {
            var more := IsMoreSpecific(key, matched.value);
            if more {
              matched := Some(key);
            }
          }
        }
      }
      assert order[..|order|] == order;
    }

    method Lookup(verb: string, urlPath: string, version: string, order: seq<RouteKey>)
      returns (endpointExists: bool, versionSupported: bool)
      requires Enumerates(order, routes.Keys)
      ensures Answer(endpointExists, versionSupported) == LookupIn(routes, order, upper(verb), urlPath, version)
      ensures endpointExists <==> SomeCandidate(routes.Keys, upper(verb), urlPath)
      ensures endpointExists ==>
        exists key :: Best(routes.Keys, upper(verb), urlPath, key) && (versionSupported <==> version in routes[key])
    {
      hide Chosen, Candidate, Best, Enumerates;
      ChosenIsBest(order, routes.Keys, upper(verb), urlPath);
      var matched := FindKey(upper(verb), urlPath, order);
      if matched.None? {
        return false, false;
      }
      BestIsRegistered(routes, upper(verb), urlPath, matched.value);
      return true, version in routes[matched.value];
    }

    /** The versions of the chosen key, sorted; `versionOrder` is the order its version map is walked in. */
    method SupportedVersions(verb: string, urlPath: string, order: seq<RouteKey>, versionOrder: seq<string>)
      returns (versions: seq<string>)
      requires Enumerates(order, routes.Keys)
      requires
        var chosen := Chosen(order, upper(verb), urlPath);
        chosen.Some? && chosen.value in routes ==> Enumerates(versionOrder, routes[chosen.value])
      ensures Sorted(versions) && NoDuplicates(versions)
      ensures forall v :: v in versions <==> v in VersionsIn(routes, order, upper(verb), urlPath)
    {
      hide Chosen, Sorted, NoDuplicates, SortStrings, Candidate, Specificity;
      ChosenIsBest(order, routes.Keys, upper(verb), urlPath);
      var matched := FindKey(upper(verb), urlPath, order);
      if matched.None? {
        NothingIsSorted();
        return [];
      }
      versions := [];
      for i := 0 to |versionOrder|
        invariant versions == versionOrder[..i]
      {
        versions := versions + [versionOrder[i]];
      }
      assert versions == versionOrder;
      SortKeepsElements(versionOrder);
      versions := SortStrings(versions);
    }
  }

  method IsMoreSpecific(a: RouteKey, b: RouteKey) returns (more: bool)
    ensures more <==> Specificity(a) > Specificity(b)
  {
    var x := CountLiteralSegments(a.pattern);
    var y := CountLiteralSegments(b.pattern);
    return x > y;
  }

  lemma NothingIsSorted()
    ensures Sorted([]) && NoDuplicates([])
  {
  }

  lemma SortKeepsElements(s: seq<string>)
    requires forall i, j :: 0 <= i < j < |s| ==> s[i] != s[j]
    ensures Sorted(SortStrings(s)) && NoDuplicates(SortStrings(s))
    ensures forall v :: v in SortStrings(s) <==> v in s
  {
    SortStringsSorts(s);
    var t := SortStrings(s);
    forall v
      ensures v in t <==> v in s
    {
      assert v in multiset(t) <==> v in multiset(s);
    }
    DistinctIffSingle(s);
    DistinctIffSingle(t);
  }

  ghost predicate OncePerElement(s: seq<string>) {
    forall v :: v in multiset(s) ==> multiset(s)[v] == 1
  }

  lemma {:induction false} DistinctIffSingle(s: seq<string>)
    ensures NoDuplicates(s) <==> OncePerElement(s)
  {
    if s == [] {
    } else {
      var init, last := s[..|s| - 1], s[|s| - 1];
      assert s == init + [last];
      DistinctIffSingle(init);
      assert multiset(s) == multiset(init) + multiset{last};
      if NoDuplicates(s) {
        assert last !in init;
      }
      if OncePerElement(s) {
        assert multiset(s)[last] == multiset(init)[last] + 1;
        assert forall v :: v in multiset(init) ==> v != last && multiset(init)[v] == multiset(s)[v];
      }
    }
  }
}
