/** Renumbering a condition's placeholder changes neither how it is read nor what it means. */
module SqlRenumber {
  import opened Options
  import opened Coerce
  import opened Sql

  // ---- Giving every placeholder the number m ----

  function RenumberTok(t: Token, m: nat): Token {
    if t.ParamTok? then ParamTok(m, t.cast) else t
  }

  function Renumber(ts: seq<Token>, m: nat): seq<Token> {
    seq(|ts|, i requires 0 <= i < |ts| => RenumberTok(ts[i], m))
  }

  function RenumberOperand(x: Operand, m: nat): Operand {
    match x case Col(_) => x case Param(_, cast) => Param(m, cast)
  }

  function RenumberOperands(xs: seq<Operand>, m: nat): seq<Operand> {
    seq(|xs|, i requires 0 <= i < |xs| => RenumberOperand(xs[i], m))
  }

  function RenumberExpr(e: Expr, m: nat): Expr {
    match e
    case Compare(op, l, r) => Compare(op, RenumberOperand(l, m), RenumberOperand(r, m))
    case Like(ci, negated, l, r) => Like(ci, negated, RenumberOperand(l, m), RenumberOperand(r, m))
    case In(negated, l, list) => In(negated, RenumberOperand(l, m), RenumberOperands(list, m))
    case Between(l, lo, hi) => Between(RenumberOperand(l, m), RenumberOperand(lo, m), RenumberOperand(hi, m))
    case IsNull(negated, l) => IsNull(negated, RenumberOperand(l, m))
    case Exists(body) => Exists(Renumber(body, m))
    case Not(a) => Not(RenumberExpr(a, m))
    case And(a, b) => And(RenumberExpr(a, m), RenumberExpr(b, m))
    case Or(a, b) => Or(RenumberExpr(a, m), RenumberExpr(b, m))
  }

  function RenumberExprs(es: seq<Expr>, m: nat): seq<Expr> {
    seq(|es|, i requires 0 <= i < |es| => RenumberExpr(es[i], m))
  }

  function RenumberGroups(gs: seq<seq<Expr>>, m: nat): seq<seq<Expr>> {
    seq(|gs|, i requires 0 <= i < |gs| => RenumberExprs(gs[i], m))
  }

  lemma RenumberTail(ts: seq<Token>, m: nat, k: nat)
    requires k <= |ts|
    ensures Renumber(ts, m)[k..] == Renumber(ts[k..], m)
  {
  }

  // ---- The parser does not look at the number ----

  lemma OperandRenumbers(ts: seq<Token>, m: nat)
    ensures
      ParseOperand(Renumber(ts, m)) ==
      if ParseOperand(ts).None? then None
      else Some((RenumberOperand(ParseOperand(ts).value.0, m), Renumber(ParseOperand(ts).value.1, m)))
  {
    if ts != [] {
      RenumberTail(ts, m, 1);
    }
  }

  lemma {:induction false} ListRenumbers(ts: seq<Token>, m: nat)
    ensures
      ParseList(Renumber(ts, m)) ==
      if ParseList(ts).None? then None
      else Some((RenumberOperands(ParseList(ts).value.0, m), Renumber(ParseList(ts).value.1, m)))
    decreases |ts|
  {
    hide ParseOperand;
    OperandRenumbers(ts, m);
    if ParseOperand(ts).Some? {
      var x, rest := ParseOperand(ts).value.0, ParseOperand(ts).value.1;
      if rest != [] {
        RenumberTail(rest, m, 1);
        if rest[0] == RParen {
          assert RenumberOperands([x], m) == [RenumberOperand(x, m)];
        } else if rest[0] == Comma {
          ListRenumbers(rest[1..], m);
          if ParseList(rest[1..]).Some? {
            var xs := ParseList(rest[1..]).value.0;
            assert RenumberOperands([x] + xs, m) == [RenumberOperand(x, m)] + RenumberOperands(xs, m);
          }
        }
      }
    }
  }

  lemma RenumberParens(a: seq<Token>, b: seq<Token>, m: nat)
    ensures Renumber([LParen] + a + [RParen] + b, m) == [LParen] + Renumber(a, m) + [RParen] + Renumber(b, m)
  {
  }

  lemma RenumberHead(ts: seq<Token>, m: nat)
    requires ts != []
    ensures Renumber(ts, m) != [] && Renumber(ts, m)[0] == RenumberTok(ts[0], m)
    ensures Renumber(ts, m)[1..] == Renumber(ts[1..], m)
  {
  }

  lemma RenumberCons(t: Token, ts: seq<Token>, m: nat)
    ensures Renumber([t] + ts, m) == [RenumberTok(t, m)] + Renumber(ts, m)
  {
  }

  lemma RenumberNothing(m: nat)
    ensures Renumber([], m) == []
  {
  }

  lemma {:induction false} BodyRenumbers(ts: seq<Token>, m: nat)
    ensures
      ParseBody(Renumber(ts, m)) ==
      if ParseBody(ts).None? then None
      else Some((Renumber(ParseBody(ts).value.0, m), Renumber(ParseBody(ts).value.1, m)))
    decreases |ts|
  {
    hide Renumber;
    RenumberNothing(m);
    if ts == [] {
    } else {
      RenumberHead(ts, m);
      if ts[0] != RParen {
        BodyRenumbers(ts[1..], m);
        if ParseBody(ts[1..]).Some? {
          var inner, rest := ParseBody(ts[1..]).value.0, ParseBody(ts[1..]).value.1;
          if ts[0] == LParen {
            BodyRenumbers(rest, m);
            if ParseBody(rest).Some? {
              RenumberParens(inner, ParseBody(rest).value.0, m);
            }
          } else {
            RenumberCons(ts[0], inner, m);
          }
        }
      }
    }
  }

  lemma NegatableRenumbers(l: Operand, negated: bool, ts: seq<Token>, m: nat)
    ensures
      var r := ParseNegatable(l, negated, ts);
      ParseNegatable(RenumberOperand(l, m), negated, Renumber(ts, m)) ==
      if r.None? then None else Some((RenumberExpr(r.value.0, m), Renumber(r.value.1, m)))
  {
    hide ParseOperand, ParseList;
    if ts != [] {
      RenumberTail(ts, m, 1);
      match ts[0] {
        case LikeTok(_) => OperandRenumbers(ts[1..], m);
        case InTok =>
          if |ts| >= 2 {
            RenumberTail(ts, m, 2);
            ListRenumbers(ts[2..], m);
          }
        case BetweenTok =>
          OperandRenumbers(ts[1..], m);
          if ParseOperand(ts[1..]).Some? {
            var rest := ParseOperand(ts[1..]).value.1;
            if rest != [] {
              RenumberTail(rest, m, 1);
              OperandRenumbers(rest[1..], m);
            }
          }
        case _ =>
      }
    }
  }

  lemma NullTestRenumbers(l: Operand, ts: seq<Token>, m: nat)
    ensures
      var r := ParseNullTest(l, ts);
      ParseNullTest(RenumberOperand(l, m), Renumber(ts, m)) ==
      if r.None? then None else Some((RenumberExpr(r.value.0, m), Renumber(r.value.1, m)))
  {
    if |ts| >= 1 {
      RenumberTail(ts, m, 1);
    }
    if |ts| >= 2 {
      RenumberTail(ts, m, 2);
    }
  }

  ghost predicate PredicateKeeps(l: Operand, ts: seq<Token>, m: nat) {
    var r := ParsePredicate(l, ts);
    ParsePredicate(RenumberOperand(l, m), Renumber(ts, m)) ==
    if r.None? then None else Some((RenumberExpr(r.value.0, m), Renumber(r.value.1, m)))
  }

  lemma CompareRenumbers(l: Operand, ts: seq<Token>, m: nat)
    requires ts != [] && ts[0].CmpTok?
    ensures PredicateKeeps(l, ts, m)
  {
    hide ParseOperand, ParseNegatable, ParseNullTest;
    RenumberTail(ts, m, 1);
    OperandRenumbers(ts[1..], m);
  }

  lemma IsRenumbers(l: Operand, ts: seq<Token>, m: nat)
    requires ts != [] && ts[0].IsTok?
    ensures PredicateKeeps(l, ts, m)
  {
    hide ParseOperand, ParseNegatable, ParseNullTest, RenumberExpr;
    RenumberTail(ts, m, 1);
    NullTestRenumbers(l, ts[1..], m);
  }

  lemma OtherRenumbers(l: Operand, ts: seq<Token>, m: nat)
    requires ts != [] && !ts[0].CmpTok? && !ts[0].IsTok?
    ensures PredicateKeeps(l, ts, m)
  {
    hide ParseOperand, ParseNegatable, ParseNullTest, RenumberExpr;
    RenumberTail(ts, m, 1);
    if ts[0].NotTok? {
      NegatableRenumbers(l, true, ts[1..], m);
    } else {
      NegatableRenumbers(l, false, ts, m);
    }
  }

  lemma PredicateRenumbers(l: Operand, ts: seq<Token>, m: nat)
    ensures PredicateKeeps(l, ts, m)
  {
    if ts == [] {
      assert Renumber(ts, m) == [];
    } else {
      hide PredicateKeeps;
      if ts[0].CmpTok? {
        CompareRenumbers(l, ts, m);
      } else if ts[0].IsTok? {
        IsRenumbers(l, ts, m);
      } else {
        OtherRenumbers(l, ts, m);
      }
    }
  }

  lemma {:induction false} AndChainRenumbers(es: seq<Expr>, m: nat)
    requires es != []
    ensures AndChain(RenumberExprs(es, m)) == RenumberExpr(AndChain(es), m)
    decreases |es|
  {
    if |es| <= 1 {
    } else {
      assert RenumberExprs(es, m)[1..] == RenumberExprs(es[1..], m);
      AndChainRenumbers(es[1..], m);
    }
  }

  lemma {:induction false} OrChainRenumbers(es: seq<Expr>, m: nat)
    requires es != []
    ensures OrChain(RenumberExprs(es, m)) == RenumberExpr(OrChain(es), m)
    decreases |es|
  {
    if |es| <= 1 {
    } else {
      assert RenumberExprs(es, m)[1..] == RenumberExprs(es[1..], m);
      OrChainRenumbers(es[1..], m);
    }
  }

  lemma CombineRenumbers(gs: seq<seq<Expr>>, m: nat)
    requires IsDisjunction(gs)
    ensures IsDisjunction(RenumberGroups(gs, m)) && Combine(RenumberGroups(gs, m)) == RenumberExpr(Combine(gs), m)
  {
    var es := seq(|gs|, i requires 0 <= i < |gs| => AndChain(gs[i]));
    var hs := RenumberGroups(gs, m);
    forall i | 0 <= i < |gs|
      ensures AndChain(hs[i]) == RenumberExpr(es[i], m)
    {
      AndChainRenumbers(gs[i], m);
    }
    assert seq(|hs|, i requires 0 <= i < |hs| => AndChain(hs[i])) == RenumberExprs(es, m);
    OrChainRenumbers(es, m);
  }

  lemma {:induction false} PrimaryRenumbers(ts: seq<Token>, m: nat)
    ensures
      var r := ParsePrimary(ts);
      ParsePrimary(Renumber(ts, m)) ==
      if r.None? then None else Some((RenumberExpr(r.value.0, m), Renumber(r.value.1, m)))
    decreases |ts|, 0
  {
    hide ParseOperand, ParsePredicate, ParseBody, ParseOr, Combine;
    if ts != [] {
      RenumberTail(ts, m, 1);
      if ts[0] == LParen {
        OrRenumbers(ts[1..], m);
        if ParseOr(ts[1..]).Some? {
          var gs, rest := ParseOr(ts[1..]).value.0, ParseOr(ts[1..]).value.1;
          CombineRenumbers(gs, m);
          if rest != [] {
            RenumberTail(rest, m, 1);
          }
        }
      } else if ts[0] == ExistsTok {
        if |ts| >= 2 {
          RenumberTail(ts, m, 2);
          BodyRenumbers(ts[2..], m);
        }
      } else {
        OperandRenumbers(ts, m);
        if ParseOperand(ts).Some? {
          PredicateRenumbers(ParseOperand(ts).value.0, ParseOperand(ts).value.1, m);
        }
      }
    }
  }

  lemma {:induction false} NotRenumbers(ts: seq<Token>, m: nat)
    ensures
      var r := ParseNot(ts);
      ParseNot(Renumber(ts, m)) == if r.None? then None else Some((RenumberExpr(r.value.0, m), Renumber(r.value.1, m)))
    decreases |ts|, 1
  {
    hide ParsePrimary;
    if ts != [] && ts[0] == NotTok {
      RenumberTail(ts, m, 1);
      NotRenumbers(ts[1..], m);
    } else {
      PrimaryRenumbers(ts, m);
    }
  }

  lemma {:induction false} AndRenumbers(ts: seq<Token>, m: nat)
    ensures
      var r := ParseAnd(ts);
      ParseAnd(Renumber(ts, m)) == if r.None? then None else Some((RenumberExprs(r.value.0, m), Renumber(r.value.1, m)))
    decreases |ts|, 2
  {
    hide ParseNot;
    NotRenumbers(ts, m);
    if ParseNot(ts).Some? {
      var e, rest := ParseNot(ts).value.0, ParseNot(ts).value.1;
      assert RenumberExprs([e], m) == [RenumberExpr(e, m)];
      if rest != [] && rest[0] == AndTok {
        RenumberTail(rest, m, 1);
        AndRenumbers(rest[1..], m);
        if ParseAnd(rest[1..]).Some? {
          var es := ParseAnd(rest[1..]).value.0;
          assert RenumberExprs([e] + es, m) == [RenumberExpr(e, m)] + RenumberExprs(es, m);
        }
      }
    }
  }

  lemma {:induction false} OrRenumbers(ts: seq<Token>, m: nat)
    ensures
      var r := ParseOr(ts);
      ParseOr(Renumber(ts, m)) == if r.None? then None else Some((RenumberGroups(r.value.0, m), Renumber(r.value.1, m)))
    decreases |ts|, 3
  {
    hide ParseAnd;
    AndRenumbers(ts, m);
    if ParseAnd(ts).Some? {
      var es, rest := ParseAnd(ts).value.0, ParseAnd(ts).value.1;
      assert RenumberGroups([es], m) == [RenumberExprs(es, m)];
      if rest != [] && rest[0] == OrTok {
        RenumberTail(rest, m, 1);
        OrRenumbers(rest[1..], m);
        if ParseOr(rest[1..]).Some? {
          var gs := ParseOr(rest[1..]).value.0;
          assert RenumberGroups([es] + gs, m) == [RenumberExprs(es, m)] + RenumberGroups(gs, m);
        }
      }
    }
  }

  lemma DisjunctsRenumber(ts: seq<Token>, m: nat)
    ensures
      Disjuncts(Renumber(ts, m)) == if Disjuncts(ts).None? then None else Some(RenumberGroups(Disjuncts(ts).value, m))
  {
    hide ParseOr;
    OrRenumbers(ts, m);
  }

  // ---- Nor does the meaning depend on it ----

  /** Argument `m` of `args` and argument `n` of `others` are the same value. */
  predicate SameArg(args: seq<Arg>, m: nat, others: seq<Arg>, n: nat) {
    1 <= m <= |args| && 1 <= n <= |others| && args[m - 1] == others[n - 1]
  }

  lemma OperandMeaningKept(env: Env, x: Operand, y: Value, row: Row, args: seq<Arg>, m: nat, others: seq<Arg>, n: nat)
    requires SameArg(args, m, others, n)
    ensures EvalOperand(env, RenumberOperand(x, m), row, args) == EvalOperand(env, RenumberOperand(x, n), row, others)
    ensures EvalAgainst(env, y, RenumberOperand(x, m), row, args) ==
      EvalAgainst(env, y, RenumberOperand(x, n), row, others)
  {
  }

  lemma {:induction false} InMeaningKept(
    env: Env, y: Value, xs: seq<Operand>, row: Row, args: seq<Arg>, m: nat, others: seq<Arg>, n: nat)
    requires SameArg(args, m, others, n)
    ensures InValues(env, y, RenumberOperands(xs, m), row, args) ==
      InValues(env, y, RenumberOperands(xs, n), row, others)
    decreases |xs|
  {
    hide CompareValues, EvalAgainst;
    if xs == [] {
    } else {
      OperandMeaningKept(env, xs[0], y, row, args, m, others, n);
      assert RenumberOperands(xs, m)[1..] == RenumberOperands(xs[1..], m);
      assert RenumberOperands(xs, n)[1..] == RenumberOperands(xs[1..], n);
      InMeaningKept(env, y, xs[1..], row, args, m, others, n);
    }
  }

  lemma BodyMeaningKept(env: Env, body: seq<Token>, args: seq<Arg>, m: nat, others: seq<Arg>, n: nat)
    requires SameArg(args, m, others, n)
    ensures BodyParts(env, Renumber(body, m), args) == BodyParts(env, Renumber(body, n), others)
  {
  }

  lemma {:induction false} MeaningKept(
    env: Env, e: Expr, row: Row, args: seq<Arg>, m: nat, others: seq<Arg>, n: nat)
    requires SameArg(args, m, others, n)
    ensures Eval(env, RenumberExpr(e, m), row, args) == Eval(env, RenumberExpr(e, n), row, others)
  {
    hide CompareValues, LikeValues, InValues, EvalOperand, EvalAgainst, BodyParts, SameArg;
    match e
    case Compare(op, l, r) =>
      OperandMeaningKept(env, l, Null, row, args, m, others, n);
      OperandMeaningKept(env, r, Null, row, args, m, others, n);
      OperandMeaningKept(env, l, EvalOperand(env, RenumberOperand(r, n), row, others), row, args, m, others, n);
      OperandMeaningKept(env, r, EvalOperand(env, RenumberOperand(l, n), row, others), row, args, m, others, n);
    case Like(_, _, l, r) =>
      OperandMeaningKept(env, l, Null, row, args, m, others, n);
      OperandMeaningKept(env, r, Null, row, args, m, others, n);
    case In(_, l, list) =>
      OperandMeaningKept(env, l, Null, row, args, m, others, n);
      InMeaningKept(env, EvalOperand(env, RenumberOperand(l, n), row, others), list, row, args, m, others, n);
    case Between(l, lo, hi) =>
      OperandMeaningKept(env, l, Null, row, args, m, others, n);
      var x := EvalOperand(env, RenumberOperand(l, n), row, others);
      OperandMeaningKept(env, lo, x, row, args, m, others, n);
      OperandMeaningKept(env, hi, x, row, args, m, others, n);
    case IsNull(_, l) => OperandMeaningKept(env, l, Null, row, args, m, others, n);
    case Exists(body) => BodyMeaningKept(env, body, args, m, others, n);
    case Not(a) => MeaningKept(env, a, row, args, m, others, n);
    case And(a, b) =>
      MeaningKept(env, a, row, args, m, others, n);
      MeaningKept(env, b, row, args, m, others, n);
    case Or(a, b) =>
      MeaningKept(env, a, row, args, m, others, n);
      MeaningKept(env, b, row, args, m, others, n);
  }

  lemma GroupMeaningKept(env: Env, es: seq<Expr>, row: Row, args: seq<Arg>, m: nat, others: seq<Arg>, n: nat)
    requires SameArg(args, m, others, n)
    ensures GroupTrue(env, RenumberExprs(es, m), row, args) <==> GroupTrue(env, RenumberExprs(es, n), row, others)
  {
    hide Eval, SameArg;
    forall i | 0 <= i < |es|
      ensures Eval(env, RenumberExprs(es, m)[i], row, args) == Eval(env, RenumberExprs(es, n)[i], row, others)
    {
      MeaningKept(env, es[i], row, args, m, others, n);
    }
  }

  lemma GroupsMeaningKept(env: Env, gs: seq<seq<Expr>>, row: Row, args: seq<Arg>, m: nat, others: seq<Arg>, n: nat)
    requires SameArg(args, m, others, n)
    ensures
      SomeGroupTrue(env, RenumberGroups(gs, m), row, args) <==> SomeGroupTrue(env, RenumberGroups(gs, n), row, others)
  {
    hide GroupTrue, SameArg;
    forall j | 0 <= j < |gs|
      ensures GroupTrue(env, RenumberGroups(gs, m)[j], row, args) <==>
        GroupTrue(env, RenumberGroups(gs, n)[j], row, others)
    {
      GroupMeaningKept(env, gs[j], row, args, m, others, n);
    }
  }
}
