/**
 Translation of user search terms into SQL LIKE patterns (search/wildcard.go), against a
 matcher for `*`/`?` terms and a matcher for LIKE patterns (PostgreSQL documentation,
 section 9.7.1).  `fold` is the character folding under which literals are compared:
 the identity for LIKE, lower-casing for ILIKE.
 */
module Wildcard {

  datatype WildcardPattern = PatternExact | PatternPrefix | PatternContains

  datatype WildcardResult = WildcardResult(pattern: string, patternType: WildcardPattern)

  type Fold = char -> char

  // ---- Reference matchers ----

  /** `s` matches the user term `t`: `*` is any run of characters, `?` any single one. */
  predicate GlobMatch(fold: Fold, s: string, t: string)
    decreases |s| + |t|
  {
    if t == [] then s == []
    else if t[0] == '*' then GlobMatch(fold, s, t[1..]) || (s != [] && GlobMatch(fold, s[1..], t))
    else s != [] && (t[0] == '?' || fold(s[0]) == fold(t[0])) && GlobMatch(fold, s[1..], t[1..])
  }

  /** `s LIKE p` with escape character `\`; a pattern ending in a lone escape matches nothing. */
  predicate LikeMatch(fold: Fold, s: string, p: string)
    decreases |s| + |p|
  {
    if p == [] then s == []
    else if p[0] == '%' then LikeMatch(fold, s, p[1..]) || (s != [] && LikeMatch(fold, s[1..], p))
    else if p[0] == '\\' then |p| > 1 && s != [] && fold(s[0]) == fold(p[1]) && LikeMatch(fold, s[1..], p[2..])
    else s != [] && (p[0] == '_' || fold(s[0]) == fold(p[0])) && LikeMatch(fold, s[1..], p[1..])
  }

  // ---- The source ----

  function EscapeChar(c: char): string {
    if c == '\\' then "\\\\" else if c == '%' then "\\%" else if c == '_' then "\\_" else [c]
  }

  /** A single left-to-right pass of `strings.NewReplacer`. */
  function EscapeLikeLiterals(s: string): string {
    if s == [] then [] else EscapeChar(s[0]) + EscapeLikeLiterals(s[1..])
  }

  /** `strings.ReplaceAll` of one character by another. */
  function ReplaceAll(s: string, from: char, to: char): string {
    if s == [] then [] else [if s[0] == from then to else s[0]] + ReplaceAll(s[1..], from, to)
  }

  predicate ContainsWildcard(term: string) {
    '*' in term || '?' in term
  }

  function TranslateWildcard(term: string): WildcardResult {
    if !ContainsWildcard(term) then
      WildcardResult(EscapeLikeLiterals(term), PatternExact)
    else
      var p := ReplaceAll(ReplaceAll(EscapeLikeLiterals(term), '*', '%'), '?', '_');
      WildcardResult(p, Classify(p))
  }

  function WildcardToLike(term: string): string {
    TranslateWildcard(term).pattern
  }

  // ---- One map per character ----

  function CharPattern(c: char): string {
    if c == '*' then "%" else if c == '?' then "_" else EscapeChar(c)
  }

  function CharwisePattern(term: string): string {
    if term == [] then [] else CharPattern(term[0]) + CharwisePattern(term[1..])
  }

  lemma {:induction false} ReplaceAllAppends(a: string, b: string, from: char, to: char)
    ensures ReplaceAll(a + b, from, to) == ReplaceAll(a, from, to) + ReplaceAll(b, from, to)
  {
    if a == [] {
      assert a + b == b;
    } else {
      assert (a + b)[1..] == a[1..] + b;
      ReplaceAllAppends(a[1..], b, from, to);
    }
  }

  lemma ReplaceAllOne(c: char, from: char, to: char)
    ensures ReplaceAll([c], from, to) == [if c == from then to else c]
  {
    assert [c][1..] == [];
  }

  lemma EscapedCharPasses(c: char)
    ensures ReplaceAll(ReplaceAll(EscapeChar(c), '*', '%'), '?', '_') == CharPattern(c)
  {
    if c == '\\' || c == '%' || c == '_' {
      assert EscapeChar(c) == ['\\'] + [c];
      ReplaceAllAppends(['\\'], [c], '*', '%');
      ReplaceAllAppends(['\\'], [c], '?', '_');
      ReplaceAllOne('\\', '*', '%');
      ReplaceAllOne('\\', '?', '_');
    }
    ReplaceAllOne(c, '*', '%');
    ReplaceAllOne(if c == '*' then '%' else c, '?', '_');
  }

  lemma {:induction false} PassesAreCharwise(term: string)
    ensures ReplaceAll(ReplaceAll(EscapeLikeLiterals(term), '*', '%'), '?', '_') == CharwisePattern(term)
  {
    if term == [] {
    } else {
      var a, b := EscapeChar(term[0]), EscapeLikeLiterals(term[1..]);
      ReplaceAllAppends(a, b, '*', '%');
      ReplaceAllAppends(ReplaceAll(a, '*', '%'), ReplaceAll(b, '*', '%'), '?', '_');
      EscapedCharPasses(term[0]);
      PassesAreCharwise(term[1..]);
    }
  }

  lemma {:induction false} EscapeIsCharwise(term: string)
    requires !ContainsWildcard(term)
    ensures EscapeLikeLiterals(term) == CharwisePattern(term)
  {
    if term == [] {
    } else {
      assert term[0] in term;
      assert forall c :: c in term[1..] ==> c in term;
      EscapeIsCharwise(term[1..]);
    }
  }

  /** Escape-then-replace is one map applied to each character, with or without wildcards. */
  lemma TranslationIsCharwise(term: string)
    ensures WildcardToLike(term) == CharwisePattern(term)
  {
    if ContainsWildcard(term) {
      PassesAreCharwise(term);
    } else {
      EscapeIsCharwise(term);
    }
  }

  // ---- Meaning ----

  lemma LikeStep(fold: Fold, s: string, c: char, rest: string)
    requires c != '*'
    ensures LikeMatch(fold, s, CharPattern(c) + rest) <==>
      s != [] && (c == '?' || fold(s[0]) == fold(c)) && LikeMatch(fold, s[1..], rest)
  {
    var p := CharPattern(c) + rest;
    if c == '\\' || c == '%' || c == '_' {
      assert p[0] == '\\' && p[1] == c && p[2..] == rest;
    } else {
      assert p[1..] == rest;
    }
  }

  lemma {:induction false} CharwiseMeaning(fold: Fold, s: string, t: string)
    ensures LikeMatch(fold, s, CharwisePattern(t)) <==> GlobMatch(fold, s, t)
    decreases |s| + |t|
  {
    if t == [] {
    } else {
      var rest := CharwisePattern(t[1..]);
      if t[0] == '*' {
        var p := CharwisePattern(t);
        assert p == "%" + rest;
        assert p[1..] == rest;
        CharwiseMeaning(fold, s, t[1..]);
        if s != [] {
          CharwiseMeaning(fold, s[1..], t);
        }
      } else {
        LikeStep(fold, s, t[0], rest);
        if s != [] {
          CharwiseMeaning(fold, s[1..], t[1..]);
        }
      }
    }
  }

  /** LIKE on the translated pattern accepts exactly the strings the user term describes. */
  lemma TranslationPreservesMeaning(fold: Fold, s: string, term: string)
    ensures LikeMatch(fold, s, WildcardToLike(term)) <==> GlobMatch(fold, s, term)
  {
    TranslationIsCharwise(term);
    CharwiseMeaning(fold, s, term);
  }

  // ---- Injectivity, through an inverse ----

  /** Reads a LIKE pattern back as a user term. */
  function PatternToTerm(p: string): string {
    if p == [] then []
    else if p[0] == '%' then "*" + PatternToTerm(p[1..])
    else if p[0] == '_' then "?" + PatternToTerm(p[1..])
    else if p[0] == '\\' && |p| > 1 then [p[1]] + PatternToTerm(p[2..])
    else [p[0]] + PatternToTerm(p[1..])
  }

  lemma {:induction false} TranslationRoundTrip(term: string)
    ensures PatternToTerm(CharwisePattern(term)) == term
  {
    if term == [] {
    } else {
      TranslationRoundTrip(term[1..]);
      var rest := CharwisePattern(term[1..]);
      var p := CharPattern(term[0]) + rest;
      if |CharPattern(term[0])| == 2 {
        assert p[2..] == rest;
      } else {
        assert p[1..] == rest;
      }
    }
  }

  /** Different terms never become the same pattern. */
  lemma TranslationIsInjective(a: string, b: string)
    requires WildcardToLike(a) == WildcardToLike(b)
    ensures a == b
  {
    TranslationIsCharwise(a);
    TranslationIsCharwise(b);
    TranslationRoundTrip(a);
    TranslationRoundTrip(b);
  }

  // ---- Classification ----

  /** Unescaped `%` and `_` of a pattern, and whether its last unescaped `%` ends it. */
  datatype Scan = Scan(pct: nat, under: nat, pctAtEnd: bool)

  function ScanFrom(p: string, i: nat, acc: Scan): Scan
    requires i <= |p|
    decreases |p| - i
  {
    if i == |p| then acc
    else if p[i] == '\\' then (if i + 1 < |p| then ScanFrom(p, i + 2, acc) else acc)
    else if p[i] == '%' then ScanFrom(p, i + 1, acc.(pct := acc.pct + 1, pctAtEnd := i == |p| - 1))
    else if p[i] == '_' then ScanFrom(p, i + 1, acc.(under := acc.under + 1))
    else ScanFrom(p, i + 1, acc)
  }

  function Classify(p: string): WildcardPattern {
    var scan := ScanFrom(p, 0, Scan(0, 0, false));
    if scan.pct == 1 && scan.under == 0 && scan.pctAtEnd then PatternPrefix else PatternContains
  }

  /** The index loop. */
  method ClassifyPattern(pattern: string) returns (r: WildcardPattern)
    ensures r == Classify(pattern)
  {
    var pct, under := 0, 0;
    var pctAtEnd := false;
    var i := 0;
    while i < |pattern|
      invariant 0 <= pct && 0 <= under
      invariant i <= |pattern| ==>
        ScanFrom(pattern, i, Scan(pct, under, pctAtEnd)) == ScanFrom(pattern, 0, Scan(0, 0, false))
      invariant i > |pattern| ==> Scan(pct, under, pctAtEnd) == ScanFrom(pattern, 0, Scan(0, 0, false))
    {
      if pattern[i] == '\\' {
        i := i + 2;
        continue;
      }
      if pattern[i] == '%' {
        pct := pct + 1;
        pctAtEnd := i == |pattern| - 1;
      } else if pattern[i] == '_' {
        under := under + 1;
      }
      i := i + 1;
    }
    if pct == 1 && under == 0 && pctAtEnd {
      return PatternPrefix;
    }
    return PatternContains;
  }

  function Count(t: string, c: char): nat {
    if t == [] then 0 else (if t[0] == c then 1 else 0) + Count(t[1..], c)
  }

  /** Scanning a translated term counts the term's own wildcards. */
  lemma {:induction false} ScanCountsWildcards(pre: string, t: string, acc: Scan)
    ensures
      var p := pre + CharwisePattern(t);
      var r := ScanFrom(p, |pre|, acc);
      && r.pct == acc.pct + Count(t, '*')
      && r.under == acc.under + Count(t, '?')
      && r.pctAtEnd == (if '*' in t then t[|t| - 1] == '*' else acc.pctAtEnd)
    decreases |t|
  {
    var p := pre + CharwisePattern(t);
    if t == [] {
      assert p == pre;
    } else {
      var c := CharPattern(t[0]);
      var pre' := pre + c;
      assert p == pre' + CharwisePattern(t[1..]);
      assert p[|pre|] == c[0];
      PatternIsLongEnough(t[1..]);
      var acc' :=
        if t[0] == '*' then acc.(pct := acc.pct + 1, pctAtEnd := |t| == 1)
        else if t[0] == '?' then acc.(under := acc.under + 1)
        else acc;
      ScanCountsWildcards(pre', t[1..], acc');
      assert ScanFrom(p, |pre|, acc) == ScanFrom(p, |pre'|, acc');
      assert '*' in t <==> t[0] == '*' || '*' in t[1..];
    }
  }

  lemma {:induction false} PatternIsLongEnough(t: string)
    ensures |CharwisePattern(t)| >= |t|
  {
    if t == [] {
    } else {
      PatternIsLongEnough(t[1..]);
    }
  }

  lemma {:induction false} CountZero(t: string, c: char)
    ensures Count(t, c) == 0 <==> c !in t
  {
    if t == [] {
    } else {
      CountZero(t[1..], c);
    }
  }

  lemma {:induction false} CountLast(t: string, c: char)
    requires t != []
    ensures Count(t, c) == Count(t[..|t| - 1], c) + if t[|t| - 1] == c then 1 else 0
  {
    if |t| <= 1 {
    } else {
      CountLast(t[1..], c);
      assert t[1..][..|t| - 2] == t[..|t| - 1][1..];
    }
  }

  /** The term is `w` followed by one `*`, and `w` has no wildcard. */
  predicate IsPrefixTerm(t: string) {
    t != [] && t[|t| - 1] == '*' && !ContainsWildcard(t[..|t| - 1])
  }

  lemma PrefixTermByCounts(t: string)
    requires t != []
    ensures IsPrefixTerm(t) <==> Count(t, '*') == 1 && Count(t, '?') == 0 && t[|t| - 1] == '*'
  {
    var w := t[..|t| - 1];
    CountLast(t, '*');
    CountLast(t, '?');
    CountZero(w, '*');
    CountZero(w, '?');
  }

  /** PatternExact iff no wildcard, PatternPrefix iff one wildcard, a final `*`. */
  lemma ClassificationIsExact(t: string)
    ensures TranslateWildcard(t).patternType ==
      if !ContainsWildcard(t) then PatternExact else if IsPrefixTerm(t) then PatternPrefix else PatternContains
  {
    if ContainsWildcard(t) {
      PassesAreCharwise(t);
      ScanCountsWildcards("", t, Scan(0, 0, false));
      assert "" + CharwisePattern(t) == CharwisePattern(t);
      PrefixTermByCounts(t);
      CountZero(t, '*');
    }
  }

  lemma {:induction false} LiteralMatchesItself(fold: Fold, s: string, w: string)
    requires !ContainsWildcard(w)
    ensures GlobMatch(fold, s, w) <==> |s| == |w| && forall i :: 0 <= i < |w| ==> fold(s[i]) == fold(w[i])
  {
    if w == [] {
    } else {
      assert w[0] in w;
      assert forall c :: c in w[1..] ==> c in w;
      if s != [] {
        LiteralMatchesItself(fold, s[1..], w[1..]);
        assert forall i :: 0 < i < |w| && |s| == |w| ==> s[1..][i - 1] == s[i] && w[1..][i - 1] == w[i];
        assert forall i :: 0 <= i < |w| - 1 && |s| == |w| ==> s[1..][i] == s[i + 1] && w[1..][i] == w[i + 1];
      }
    }
  }

  lemma {:induction false} StarMatchesAll(fold: Fold, s: string)
    ensures GlobMatch(fold, s, "*")
  {
    if s == [] {
      assert "*"[1..] == [];
    } else {
      StarMatchesAll(fold, s[1..]);
    }
  }

  lemma {:induction false} PrefixMatches(fold: Fold, s: string, w: string)
    requires !ContainsWildcard(w)
    ensures GlobMatch(fold, s, w + "*") <==> |w| <= |s| && forall i :: 0 <= i < |w| ==> fold(s[i]) == fold(w[i])
  {
    if w == [] {
      assert w + "*" == "*";
      StarMatchesAll(fold, s);
    } else {
      assert w[0] in w;
      assert forall c :: c in w[1..] ==> c in w;
      assert (w + "*")[1..] == w[1..] + "*";
      if s != [] {
        PrefixMatches(fold, s[1..], w[1..]);
        assert forall i :: 0 < i < |w| && |w| <= |s| ==> s[1..][i - 1] == s[i] && w[1..][i - 1] == w[i];
        assert forall i :: 0 <= i < |w| - 1 && |w| <= |s| ==> s[1..][i] == s[i + 1] && w[1..][i] == w[i + 1];
      }
    }
  }

  /** A pattern reported exact matches the term itself and nothing else. */
  lemma ExactMatchesOnlyTerm(t: string, s: string)
    requires TranslateWildcard(t).patternType == PatternExact
    ensures LikeMatch(c => c, s, TranslateWildcard(t).pattern) <==> s == t
  {
    ClassificationIsExact(t);
    TranslationPreservesMeaning(c => c, s, t);
    LiteralMatchesItself(c => c, s, t);
  }

  /** A pattern reported prefix matches exactly the strings that start with the term's literal part. */
  lemma PrefixMatchesStartsWith(t: string, s: string)
    requires TranslateWildcard(t).patternType == PatternPrefix
    ensures IsPrefixTerm(t)
    ensures LikeMatch(c => c, s, TranslateWildcard(t).pattern) <==> t[..|t| - 1] <= s
  {
    ClassificationIsExact(t);
    var w := t[..|t| - 1];
    assert t == w + "*";
    TranslationPreservesMeaning(c => c, s, t);
    PrefixMatches(c => c, s, w);
  }

  // ---- All-wildcard terms ----

  /** Empty, or nothing but `*` and `?`. */
  predicate OnlyWildcards(t: string) {
    forall c :: c in t ==> c == '*' || c == '?'
  }

  method IsAllWildcard(term: string) returns (r: bool)
    ensures r <==> OnlyWildcards(term)
  {
    if term == "" {
      return true;
    }
    for i := 0 to |term|
      invariant OnlyWildcards(term[..i])
    {
      assert term[..i + 1] == term[..i] + [term[i]];
      if term[i] != '*' && term[i] != '?' {
        assert term[i] in term;
        return false;
      }
    }
    assert term[..|term|] == term;
    return true;
  }

  /** What an all-wildcard term really says: a minimum length, exact when there is no `*`. */
  lemma {:induction false} AllWildcardIsLength(fold: Fold, s: string, t: string)
    requires OnlyWildcards(t)
    ensures GlobMatch(fold, s, t) <==> |s| >= Count(t, '?') && ('*' in t || |s| == Count(t, '?'))
    decreases |s| + |t|
  {
    if t == [] {
    } else {
      assert t[0] in t && forall c :: c in t[1..] ==> c in t;
      CountZero(t[1..], '*');
      if t[0] == '*' {
        AllWildcardIsLength(fold, s, t[1..]);
        if s != [] {
          AllWildcardIsLength(fold, s[1..], t);
        }
      } else {
        assert '*' in t <==> '*' in t[1..];
        if s != [] {
          AllWildcardIsLength(fold, s[1..], t[1..]);
        }
      }
    }
  }

  /**
   The source drops all-wildcard terms on the ground that they match everything.  That is so
   exactly for non-empty terms without `?`.
   */
  lemma DroppedTermMatchesEverythingIff(fold: Fold, t: string)
    requires OnlyWildcards(t)
    ensures (forall s :: GlobMatch(fold, s, t)) <==> t != [] && '?' !in t
  {
    CountZero(t, '?');
    if t != [] && '?' !in t {
      assert t[0] in t;
      forall s
        ensures GlobMatch(fold, s, t)
      {
        AllWildcardIsLength(fold, s, t);
      }
    } else if t == [] {
      var s := seq(1, _ => 'a');
      assert !GlobMatch(fold, s, t);
    } else {
      AllWildcardIsLength(fold, "", t);
    }
  }
}
