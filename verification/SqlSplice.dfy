/**
 What happens when conditions are joined by AND without parentheses: the last disjunct of
 each runs together with the first disjunct of the next.
 */
module SqlSplice {
  import opened Options
  import opened Coerce
  import opened Sql

  // ---- Text after a parsed piece does not change it ----

  lemma OperandExtends(ts: seq<Token>, more: seq<Token>)
    requires ParseOperand(ts).Some?
    ensures ParseOperand(ts + more) == Some((ParseOperand(ts).value.0, ParseOperand(ts).value.1 + more))
  {
    assert (ts + more)[1..] == ts[1..] + more;
  }

  lemma {:induction false} ListExtends(ts: seq<Token>, more: seq<Token>)
    requires ParseList(ts).Some?
    ensures ParseList(ts + more) == Some((ParseList(ts).value.0, ParseList(ts).value.1 + more))
    decreases |ts|
  {
    hide ParseOperand;
    OperandExtends(ts, more);
    var rest := ParseOperand(ts).value.1;
    assert (rest + more)[1..] == rest[1..] + more;
    if rest[0] == Comma {
      ListExtends(rest[1..], more);
    }
  }

  lemma {:induction false} BodyExtends(ts: seq<Token>, more: seq<Token>)
    requires ParseBody(ts).Some?
    ensures ParseBody(ts + more) == Some((ParseBody(ts).value.0, ParseBody(ts).value.1 + more))
    decreases |ts|
  {
    assert (ts + more)[1..] == ts[1..] + more;
    if ts[0] != RParen {
      BodyExtends(ts[1..], more);
      if ts[0] == LParen {
        BodyExtends(ParseBody(ts[1..]).value.1, more);
      }
    }
  }

  lemma NegatableExtends(l: Operand, negated: bool, ts: seq<Token>, more: seq<Token>)
    requires ParseNegatable(l, negated, ts).Some?
    ensures
      var r := ParseNegatable(l, negated, ts).value;
      ParseNegatable(l, negated, ts + more) == Some((r.0, r.1 + more))
  {
    hide ParseOperand, ParseList;
    assert (ts + more)[1..] == ts[1..] + more;
    match ts[0] {
      case LikeTok(_) => OperandExtends(ts[1..], more);
      case InTok =>
        assert (ts + more)[2..] == ts[2..] + more;
        ListExtends(ts[2..], more);
      case BetweenTok =>
        OperandExtends(ts[1..], more);
        var rest := ParseOperand(ts[1..]).value.1;
        assert (rest + more)[1..] == rest[1..] + more;
        OperandExtends(rest[1..], more);
      case _ =>
    }
  }

  lemma NullTestExtends(l: Operand, ts: seq<Token>, more: seq<Token>)
    requires ParseNullTest(l, ts).Some?
    ensures
      var r := ParseNullTest(l, ts).value;
      ParseNullTest(l, ts + more) == Some((r.0, r.1 + more))
  {
    if ts[0] == NullTok {
      assert (ts + more)[1..] == ts[1..] + more;
    } else {
      assert (ts + more)[2..] == ts[2..] + more;
    }
  }

  lemma PredicateExtends(l: Operand, ts: seq<Token>, more: seq<Token>)
    requires ParsePredicate(l, ts).Some?
    ensures
      var r := ParsePredicate(l, ts).value;
      ParsePredicate(l, ts + more) == Some((r.0, r.1 + more))
  {
    hide ParseOperand, ParseNegatable, ParseNullTest;
    assert (ts + more)[1..] == ts[1..] + more;
    match ts[0] {
      case CmpTok(_) => OperandExtends(ts[1..], more);
      case IsTok => NullTestExtends(l, ts[1..], more);
      case NotTok => NegatableExtends(l, true, ts[1..], more);
      case _ => NegatableExtends(l, false, ts, more);
    }
  }

  lemma {:induction false} PrimaryExtends(ts: seq<Token>, more: seq<Token>)
    requires ParsePrimary(ts).Some?
    ensures ParsePrimary(ts + more) == Some((ParsePrimary(ts).value.0, ParsePrimary(ts).value.1 + more))
    decreases |ts|, 0
  {
    hide ParseOperand, ParsePredicate, ParseBody, ParseAnd;
    assert (ts + more)[1..] == ts[1..] + more;
    if ts[0] == LParen {
      OrExtends(ts[1..], more);
      var rest := ParseOr(ts[1..]).value.1;
      assert (rest + more)[1..] == rest[1..] + more;
    } else if ts[0] == ExistsTok {
      assert (ts + more)[2..] == ts[2..] + more;
      BodyExtends(ts[2..], more);
    } else {
      OperandExtends(ts, more);
      PredicateExtends(ParseOperand(ts).value.0, ParseOperand(ts).value.1, more);
    }
  }

  lemma {:induction false} NotExtends(ts: seq<Token>, more: seq<Token>)
    requires ParseNot(ts).Some?
    ensures ParseNot(ts + more) == Some((ParseNot(ts).value.0, ParseNot(ts).value.1 + more))
    decreases |ts|, 1
  {
    hide ParsePrimary;
    if ts != [] && ts[0] == NotTok {
      assert (ts + more)[1..] == ts[1..] + more;
      NotExtends(ts[1..], more);
    } else {
      assert ts != [] by { EmptyIsNoPrimary(); }
      PrimaryExtends(ts, more);
    }
  }

  lemma EmptyIsNoPrimary()
    ensures ParsePrimary([]) == None
  {
  }

  lemma {:induction false} AndExtends(ts: seq<Token>, more: seq<Token>)
    requires ParseAnd(ts).Some? && ParseAnd(ts).value.1 != []
    ensures ParseAnd(ts + more) == Some((ParseAnd(ts).value.0, ParseAnd(ts).value.1 + more))
    decreases |ts|, 2
  {
    hide ParseNot;
    NotExtends(ts, more);
    var rest := ParseNot(ts).value.1;
    if rest != [] && rest[0] == AndTok {
      assert (rest + more)[1..] == rest[1..] + more;
      AndExtends(rest[1..], more);
    }
  }

  lemma {:induction false} OrExtends(ts: seq<Token>, more: seq<Token>)
    requires ParseOr(ts).Some? && ParseOr(ts).value.1 != []
    ensures ParseOr(ts + more) == Some((ParseOr(ts).value.0, ParseOr(ts).value.1 + more))
    decreases |ts|, 3
  {
    hide ParseAnd;
    var rest := ParseAnd(ts).value.1;
    assert rest != [];
    AndExtends(ts, more);
    if rest[0] == OrTok {
      assert (rest + more)[1..] == rest[1..] + more;
      OrExtends(rest[1..], more);
    }
  }

  // ---- Unbroken conditions ----

  /** `ts` is the condition `e`, with no connective outside parentheses. */
  predicate IsAtom(ts: seq<Token>, e: Expr) {
    ParseNot(ts) == Some((e, []))
  }

  lemma AtomReads(ts: seq<Token>, e: Expr)
    requires IsAtom(ts, e)
    ensures Disjuncts(ts) == Some([[e]])
  {
    hide ParseNot;
    assert ParseAnd(ts) == Some(([e], []));
  }

  lemma AtomMeaning(env: Env, e: Expr, row: Row, args: seq<Arg>)
    ensures SomeGroupTrue(env, [[e]], row, args) <==> Eval(env, e, row, args) == True
  {
    hide Eval;
    OnlyGroup(env, [[e]], row, args);
    assert [[e]][0] == [e] && [e][0] == e;
  }

  /** An unbroken condition is one conjunct, unless AND follows. */
  lemma AtomThen(a: seq<Token>, l: Expr, rest: seq<Token>)
    requires IsAtom(a, l) && (rest == [] || rest[0] != AndTok)
    ensures ParseAnd(a + rest) == Some(([l], rest))
  {
    hide ParseNot;
    NotExtends(a, rest);
    assert [] + rest == rest;
  }

  lemma AtomOrAtom(a: seq<Token>, l: Expr, b: seq<Token>, r: Expr)
    requires IsAtom(a, l) && IsAtom(b, r)
    ensures Disjuncts(a + [OrTok] + b) == Some([[l], [r]])
  {
    hide ParseNot, ParseAnd;
    var tail := [OrTok] + b;
    assert a + [OrTok] + b == a + tail && tail[1..] == b;
    AtomThen(a, l, tail);
    AtomThen(b, r, []);
    assert b + [] == b && ParseOr(b) == Some(([[r]], []));
    assert [[l]] + [[r]] == [[l], [r]];
  }

  ghost predicate AllAtoms(parts: seq<seq<Token>>, es: seq<Expr>) {
    |parts| == |es| > 0 && forall i :: 0 <= i < |parts| ==> IsAtom(parts[i], es[i])
  }

  function Singletons(es: seq<Expr>): seq<seq<Expr>> {
    seq(|es|, i requires 0 <= i < |es| => [es[i]])
  }

  lemma {:induction false} OrJoinParses(parts: seq<seq<Token>>, es: seq<Expr>, rest: seq<Token>)
    requires AllAtoms(parts, es) && rest != [] && rest[0] != AndTok && rest[0] != OrTok
    ensures ParseOr(JoinTokens(parts, OrTok) + rest) == Some((Singletons(es), rest))
    decreases |parts|
  {
    hide ParseNot, ParseAnd;
    assert IsAtom(parts[0], es[0]);
    if |parts| == 1 {
      AtomThen(parts[0], es[0], rest);
      assert Singletons(es) == [[es[0]]];
    } else {
      var tail := JoinTokens(parts[1..], OrTok) + rest;
      OrJoinParses(parts[1..], es[1..], rest);
      AtomThen(parts[0], es[0], [OrTok] + tail);
      assert ([OrTok] + tail)[1..] == tail;
      assert JoinTokens(parts, OrTok) + rest == parts[0] + ([OrTok] + tail);
      assert Singletons(es) == [[es[0]]] + Singletons(es[1..]);
    }
  }

  lemma CombineSingletons(es: seq<Expr>)
    requires es != []
    ensures IsDisjunction(Singletons(es)) && Combine(Singletons(es)) == OrChain(es)
  {
    var gs := Singletons(es);
    assert seq(|gs|, i requires 0 <= i < |gs| => AndChain(gs[i])) == es;
  }

  /** A parenthesised OR group is unbroken again. */
  lemma OrGroupIsAtom(parts: seq<seq<Token>>, es: seq<Expr>)
    requires AllAtoms(parts, es)
    ensures IsAtom(Parenthesised(JoinTokens(parts, OrTok)), OrChain(es))
  {
    hide ParseOr, ParsePredicate, ParseOperand;
    var ts := Parenthesised(JoinTokens(parts, OrTok));
    OrJoinParses(parts, es, [RParen]);
    assert ts[1..] == JoinTokens(parts, OrTok) + [RParen];
    assert [RParen][1..] == [];
    CombineSingletons(es);
    assert ParsePrimary(ts) == Some((OrChain(es), []));
  }

  // ---- Joining with AND ----

  /** The disjuncts of `a AND b`, written without parentheses. */
  function Splice(a: seq<seq<Expr>>, b: seq<seq<Expr>>): (r: seq<seq<Expr>>)
    requires IsDisjunction(a) && IsDisjunction(b)
    ensures IsDisjunction(r) && |r| == |a| + |b| - 1
  {
    a[..|a| - 1] + [a[|a| - 1] + b[0]] + b[1..]
  }

  lemma {:induction false} AndThenAnd(a: seq<Token>, b: seq<Token>)
    requires ParseAnd(a).Some? && ParseAnd(a).value.1 == [] && ParseAnd(b).Some?
    ensures ParseAnd(a + [AndTok] + b) == Some((ParseAnd(a).value.0 + ParseAnd(b).value.0, ParseAnd(b).value.1))
    decreases |a|
  {
    hide ParseNot;
    var tail := [AndTok] + b;
    assert a + [AndTok] + b == a + tail;
    NotExtends(a, tail);
    var rest := ParseNot(a).value.1;
    if rest == [] {
      assert rest + tail == tail && tail[1..] == b;
    } else {
      assert (rest + tail)[1..] == rest[1..] + [AndTok] + b;
      AndThenAnd(rest[1..], b);
      var x, es, eb := ParseNot(a).value.0, ParseAnd(rest[1..]).value.0, ParseAnd(b).value.0;
      assert [x] + (es + eb) == [x] + es + eb;
    }
  }

  lemma {:induction false} OrThenAnd(a: seq<Token>, b: seq<Token>)
    requires Disjuncts(a).Some? && Disjuncts(b).Some?
    ensures Disjuncts(a + [AndTok] + b) == Some(Splice(Disjuncts(a).value, Disjuncts(b).value))
    decreases |a|
  {
    hide ParseAnd;
    var tail := [AndTok] + b;
    assert a + [AndTok] + b == a + tail;
    var rest := ParseAnd(a).value.1;
    if rest == [] {
      AndThenAnd(a, b);
      LastDisjunct(a, b);
    } else {
      AndExtends(a, tail);
      assert rest[0] == OrTok;
      assert (rest + tail)[1..] == rest[1..] + [AndTok] + b;
      OrThenAnd(rest[1..], b);
      SpliceCons(ParseAnd(a).value.0, Disjuncts(rest[1..]).value, Disjuncts(b).value);
    }
  }

  lemma LastDisjunct(a: seq<Token>, b: seq<Token>)
    requires ParseAnd(a).Some? && ParseAnd(a).value.1 == [] && Disjuncts(b).Some?
    requires ParseAnd(b).Some?
    requires ParseAnd(a + [AndTok] + b) == Some((ParseAnd(a).value.0 + ParseAnd(b).value.0, ParseAnd(b).value.1))
    ensures Disjuncts(a).Some?
    ensures Disjuncts(a + [AndTok] + b) == Some(Splice(Disjuncts(a).value, Disjuncts(b).value))
  {
    hide ParseAnd;
    var gb, ea, eb, rest := Disjuncts(b).value, ParseAnd(a).value.0, ParseAnd(b).value.0, ParseAnd(b).value.1;
    assert Disjuncts(a).value == [ea];
    if rest == [] {
      assert gb == [eb] && Splice([ea], gb) == [ea + eb];
    } else {
      var gs := ParseOr(rest[1..]).value.0;
      assert gb == [eb] + gs && Splice([ea], gb) == [ea + eb] + gs;
    }
  }

  lemma SpliceCons(es: seq<Expr>, a: seq<seq<Expr>>, b: seq<seq<Expr>>)
    requires es != [] && IsDisjunction(a) && IsDisjunction(b)
    ensures IsDisjunction([es] + a) && Splice([es] + a, b) == [es] + Splice(a, b)
  {
    assert ([es] + a)[..|a|] == [es] + a[..|a| - 1];
  }

  ghost predicate AllDisjunctions(rs: seq<seq<seq<Expr>>>) {
    rs != [] && forall i :: 0 <= i < |rs| ==> IsDisjunction(rs[i])
  }

  ghost function SpliceAll(rs: seq<seq<seq<Expr>>>): (r: seq<seq<Expr>>)
    requires AllDisjunctions(rs)
    ensures IsDisjunction(r)
  {
    if |rs| == 1 then rs[0] else Splice(rs[0], SpliceAll(rs[1..]))
  }

  ghost predicate AllRead(parts: seq<seq<Token>>, rs: seq<seq<seq<Expr>>>) {
    |parts| == |rs| > 0 && forall i :: 0 <= i < |parts| ==> Disjuncts(parts[i]) == Some(rs[i])
  }

  /** How a WHERE clause made of conditions joined by AND is read, whatever they are. */
  lemma {:induction false} ConjunctionReads(parts: seq<seq<Token>>, rs: seq<seq<seq<Expr>>>)
    requires AllRead(parts, rs)
    ensures AllDisjunctions(rs)
    ensures Disjuncts(JoinTokens(parts, AndTok)) == Some(SpliceAll(rs))
    decreases |parts|
  {
    hide Disjuncts;
    assert forall i :: 0 <= i < |rs| ==> Disjuncts(parts[i]) == Some(rs[i]);
    if |parts| <= 1 {
    } else {
      ConjunctionReads(parts[1..], rs[1..]);
      OrThenAnd(parts[0], JoinTokens(parts[1..], AndTok));
    }
  }

  // ---- One disjunct each ----

  ghost predicate AllSingle(rs: seq<seq<seq<Expr>>>) {
    forall i :: 0 <= i < |rs| ==> |rs[i]| == 1
  }

  /** The clause has one disjunct iff none of its conditions has a top-level OR. */
  lemma {:induction false} OneDisjunctIff(rs: seq<seq<seq<Expr>>>)
    requires AllDisjunctions(rs)
    ensures |SpliceAll(rs)| == 1 <==> AllSingle(rs)
    decreases |rs|
  {
    if |rs| <= 1 {
    } else {
      OneDisjunctIff(rs[1..]);
      assert AllSingle(rs) <==> |rs[0]| == 1 && AllSingle(rs[1..]) by {
        assert forall i :: 0 <= i < |rs[1..]| ==> rs[1..][i] == rs[i + 1];
        assert forall i :: 0 < i < |rs| ==> rs[i] == rs[1..][i - 1];
      }
    }
  }

  lemma GroupTrueConcat(env: Env, a: seq<Expr>, b: seq<Expr>, row: Row, args: seq<Arg>)
    ensures GroupTrue(env, a + b, row, args) <==> GroupTrue(env, a, row, args) && GroupTrue(env, b, row, args)
  {
    hide Eval;
    var ab := a + b;
    assert forall i :: 0 <= i < |a| ==> ab[i] == a[i];
    assert forall i :: 0 <= i < |b| ==> ab[|a| + i] == b[i];
    if GroupTrue(env, a, row, args) && GroupTrue(env, b, row, args) {
      forall i | 0 <= i < |ab|
        ensures Eval(env, ab[i], row, args) == True
      {
        if i >= |a| {
          assert ab[i] == b[i - |a|];
        }
      }
    }
  }

  lemma OnlyGroup(env: Env, gs: seq<seq<Expr>>, row: Row, args: seq<Arg>)
    requires |gs| == 1
    ensures SomeGroupTrue(env, gs, row, args) <==> GroupTrue(env, gs[0], row, args)
  {
    hide GroupTrue;
  }

  /** Then it is TRUE iff every condition is. */
  lemma {:induction false} SingleMeaning(env: Env, rs: seq<seq<seq<Expr>>>, row: Row, args: seq<Arg>)
    requires AllDisjunctions(rs) && AllSingle(rs)
    ensures SomeGroupTrue(env, SpliceAll(rs), row, args) <==>
      forall i :: 0 <= i < |rs| ==> SomeGroupTrue(env, rs[i], row, args)
    decreases |rs|
  {
    hide GroupTrue;
    OneDisjunctIff(rs);
    if |rs| <= 1 {
    } else {
      var tail := rs[1..];
      OneDisjunctIff(tail);
      SingleMeaning(env, tail, row, args);
      assert SpliceAll(rs) == [rs[0][0] + SpliceAll(tail)[0]];
      GroupTrueConcat(env, rs[0][0], SpliceAll(tail)[0], row, args);
      OnlyGroup(env, rs[0], row, args);
      OnlyGroup(env, SpliceAll(rs), row, args);
      OnlyGroup(env, SpliceAll(tail), row, args);
      assert forall i :: 0 <= i < |tail| ==> tail[i] == rs[i + 1];
      assert forall i :: 0 < i < |rs| ==> rs[i] == tail[i - 1];
    }
  }

  // ---- The first and the last disjunct ----

  /** The first condition's first disjunct starts the clause's first disjunct, and only that one. */
  lemma FirstDisjunct(rs: seq<seq<seq<Expr>>>)
    requires AllDisjunctions(rs)
    ensures rs[0][0] <= SpliceAll(rs)[0]
  {
    if |rs| > 1 && |rs[0]| == 1 {
      assert SpliceAll(rs)[0] == rs[0][0] + SpliceAll(rs[1..])[0];
    }
  }

  /** What stands after the last top-level OR of the last condition is a disjunct of its own. */
  lemma {:induction false} LastDisjunctStands(rs: seq<seq<seq<Expr>>>)
    requires AllDisjunctions(rs) && |rs[|rs| - 1]| > 1
    ensures
      var all, last := SpliceAll(rs), rs[|rs| - 1];
      |all| > 1 && all[|all| - 1] == last[|last| - 1]
    decreases |rs|
  {
    if |rs| <= 1 {
    } else {
      LastDisjunctStands(rs[1..]);
    }
  }
}
