/**
 Exactly when a node can still decide on a bundle older than a given repository version,
 such as the one a revocation made.
 */
module StaleServing {
  import opened PermissionProtocol
  import opened ProtocolRuns
  import Convergence = RevocationConvergence

  // ---- Where an older bundle can come from ----

  predicate OldInL1(s: State, m: Node, p: string, v: nat) {
    (m, p) in s.l1 && Live(s.l1[(m, p)], s.now) && s.l1[(m, p)].reading.ver < v
  }

  predicate OldInL2(cfg: Config, s: State, p: string, v: nat) {
    cfg.tiered && p in s.l2 && Live(s.l2[p], s.now) && s.l2[p].reading.ver < v
  }

  predicate OldFill(s: State, id: nat, p: string, v: nat) {
    id in s.fills && s.fills[id].p == p && s.fills[id].reading.ver < v
  }

  ghost predicate OldFillAt(s: State, m: Node, p: string, v: nat) {
    exists id :: OldFill(s, id, p, v) && s.fills[id].node == m
  }

  ghost predicate OldRepoFill(cfg: Config, s: State, p: string, v: nat) {
    cfg.tiered && exists id :: OldFill(s, id, p, v) && s.fills[id].FromRepo?
  }

  /** A live entry in a tier `m` reads, a fill at `m`, or a repository fill that will reach L2. */
  ghost predicate CanServeOlder(cfg: Config, s: State, m: Node, p: string, v: nat) {
    OldInL1(s, m, p, v) || OldInL2(cfg, s, p, v) || OldFillAt(s, m, p, v) || OldRepoFill(cfg, s, p, v)
  }

  /** Continuing with `acts` makes `m` decide about `p` on a version before `v`. */
  ghost predicate DecidesOlder(cfg: Config, s: State, acts: seq<Action>, m: Node, p: string, v: nat) {
    var outcomes := Run(cfg, s, acts).outcomes;
    exists i :: |s.outcomes| <= i < |outcomes| && IsOlderDecision(outcomes[i], m, p, v)
  }

  predicate IsOlderDecision(o: Outcome, m: Node, p: string, v: nat) {
    o.node == m && o.p == p && o.reading.ver < v
  }

  // ---- Nothing older can come back ----

  lemma SettledL1(cfg: Config, s: State, a: Action, m: Node, p: string, v: nat)
    requires v < |s.history| && !CanServeOlder(cfg, s, m, p, v)
    ensures !OldInL1(Step(cfg, s, a), m, p, v)
  {
    hide Step;
    ClockSource(cfg, s, a);
    if (m, p) in Step(cfg, s, a).l1 {
      L1Source(cfg, s, a, (m, p));
      if a.WriteL1? && Enabled(cfg, s, a) {
        assert OldFill(s, a.id, p, v) && s.fills[a.id].node == m ==> OldFillAt(s, m, p, v);
      }
    }
  }

  lemma SettledL2(cfg: Config, s: State, a: Action, m: Node, p: string, v: nat)
    requires v < |s.history| && !CanServeOlder(cfg, s, m, p, v)
    ensures !OldInL2(cfg, Step(cfg, s, a), p, v)
  {
    hide Step;
    ClockSource(cfg, s, a);
    if p in Step(cfg, s, a).l2 {
      L2Source(cfg, s, a, p);
      if a.WriteL2? && Enabled(cfg, s, a) {
        assert OldFill(s, a.id, p, v) && cfg.tiered ==> OldRepoFill(cfg, s, p, v);
      }
    }
  }

  /** An older fill after a step was there before, of the same kind and at the same node. */
  lemma OldFillSource(cfg: Config, s: State, a: Action, m: Node, p: string, v: nat, id: nat)
    requires v < |s.history| && !CanServeOlder(cfg, s, m, p, v) && OldFill(Step(cfg, s, a), id, p, v)
    ensures
      var f := Step(cfg, s, a).fills[id];
      OldFill(s, id, p, v) && s.fills[id].node == f.node && s.fills[id].FromRepo? == f.FromRepo?
  {
    hide Step;
    FillSource(cfg, s, a, id);
  }

  lemma SettledFills(cfg: Config, s: State, a: Action, m: Node, p: string, v: nat)
    requires v < |s.history| && !CanServeOlder(cfg, s, m, p, v)
    ensures !OldFillAt(Step(cfg, s, a), m, p, v) && !OldRepoFill(cfg, Step(cfg, s, a), p, v)
  {
    hide Step;
    forall id | OldFill(Step(cfg, s, a), id, p, v)
      ensures OldFill(s, id, p, v) && s.fills[id].node == Step(cfg, s, a).fills[id].node
      ensures s.fills[id].FromRepo? == Step(cfg, s, a).fills[id].FromRepo?
    {
      OldFillSource(cfg, s, a, m, p, v, id);
    }
  }

  lemma StepKeepsSettled(cfg: Config, s: State, a: Action, m: Node, p: string, v: nat)
    requires v < |s.history| && !CanServeOlder(cfg, s, m, p, v)
    ensures v < |Step(cfg, s, a).history| && !CanServeOlder(cfg, Step(cfg, s, a), m, p, v)
    ensures |s.outcomes| <= |Step(cfg, s, a).outcomes|
    ensures forall i :: |s.outcomes| <= i < |Step(cfg, s, a).outcomes| ==>
      !IsOlderDecision(Step(cfg, s, a).outcomes[i], m, p, v)
  {
    hide Step;
    HistorySource(cfg, s, a);
    SettledL1(cfg, s, a, m, p, v);
    SettledL2(cfg, s, a, m, p, v);
    SettledFills(cfg, s, a, m, p, v);
    OutcomeSource(cfg, s, a);
    if (a.WriteL1? || a.WriteL2?) && Enabled(cfg, s, a) {
      assert OldFill(s, a.id, p, v) && s.fills[a.id].node == m ==> OldFillAt(s, m, p, v);
    }
  }

  lemma {:induction false} SettledNeverDecidesOlder(
    cfg: Config, s: State, acts: seq<Action>, m: Node, p: string, v: nat)
    requires v < |s.history| && !CanServeOlder(cfg, s, m, p, v)
    ensures !DecidesOlder(cfg, s, acts, m, p, v)
    decreases |acts|
  {
    hide Step, CanServeOlder, IsOlderDecision;
    if acts == [] {
    } else {
      var t := Step(cfg, s, acts[0]);
      StepKeepsSettled(cfg, s, acts[0], m, p, v);
      SettledNeverDecidesOlder(cfg, t, acts[1..], m, p, v);
      OutcomesGrow(cfg, t, acts[1..]);
    }
  }

  lemma {:induction false} OutcomesGrow(cfg: Config, s: State, acts: seq<Action>)
    ensures s.outcomes <= Run(cfg, s, acts).outcomes
    decreases |acts|
  {
    hide Step;
    if acts == [] {
    } else {
      OutcomeSource(cfg, s, acts[0]);
      OutcomesGrow(cfg, Step(cfg, s, acts[0]), acts[1..]);
    }
  }

  // ---- Each source does serve ----

  /** A decision later in the run counts from its start. */
  lemma DecidesOlderLater(cfg: Config, s: State, a: seq<Action>, b: seq<Action>, m: Node, p: string, v: nat)
    requires DecidesOlder(cfg, Run(cfg, s, a), b, m, p, v)
    ensures DecidesOlder(cfg, s, a + b, m, p, v)
  {
    hide Step, IsOlderDecision;
    RunAppends(cfg, s, a, b);
    OutcomesGrow(cfg, s, a);
  }

  lemma LastStepDecides(cfg: Config, s: State, a: Action, m: Node, p: string, v: nat, o: Outcome)
    requires Step(cfg, s, a).outcomes == s.outcomes + [o] && IsOlderDecision(o, m, p, v)
    ensures DecidesOlder(cfg, s, [a], m, p, v)
  {
    hide Step, IsOlderDecision;
    RunOne(cfg, s, a);
    assert Run(cfg, s, [a]).outcomes[|s.outcomes|] == o;
  }

  lemma ServesFromL1(cfg: Config, s: State, m: Node, p: string, v: nat)
    requires |s.history| > 0 && OldInL1(s, m, p, v)
    ensures DecidesOlder(cfg, s, [HitL1(m, p)], m, p, v)
  {
    LastStepDecides(cfg, s, HitL1(m, p), m, p, v, Outcome(m, p, s.l1[(m, p)].reading, s.now));
  }

  /** The last write of a fill takes its decision. */
  lemma LastWriteServes(cfg: Config, s: State, id: nat, p: string, v: nat)
    requires |s.history| > 0 && OldFill(s, id, p, v)
    requires s.fills[id].FromRepo? && cfg.tiered ==> s.fills[id].l1Done
    ensures
      var a := if s.fills[id].FromRepo? && s.fills[id].l1Done then WriteL2(id, true) else WriteL1(id, true);
      DecidesOlder(cfg, s, [a], s.fills[id].node, p, v)
  {
    var f := s.fills[id];
    var a := if f.FromRepo? && f.l1Done then WriteL2(id, true) else WriteL1(id, true);
    LastStepDecides(cfg, s, a, f.node, p, v, Outcome(f.node, f.p, f.reading, s.now));
  }

  lemma FirstWrite(cfg: Config, s: State, id: nat, p: string, v: nat)
    requires cfg.tiered && |s.history| > 0 && OldFill(s, id, p, v) && s.fills[id].FromRepo? && !s.fills[id].l1Done
    ensures
      var t := Step(cfg, s, WriteL1(id, true));
      && |t.history| > 0 && OldFill(t, id, p, v)
      && t.fills[id].FromRepo? && t.fills[id].l1Done && t.fills[id].node == s.fills[id].node
  {
  }

  lemma ServesFromFill(cfg: Config, s: State, id: nat, p: string, v: nat) returns (acts: seq<Action>)
    requires |s.history| > 0 && OldFill(s, id, p, v)
    ensures DecidesOlder(cfg, s, acts, s.fills[id].node, p, v)
  {
    hide Step, DecidesOlder;
    if cfg.tiered && s.fills[id].FromRepo? && !s.fills[id].l1Done {
      FirstWrite(cfg, s, id, p, v);
      RunOne(cfg, s, WriteL1(id, true));
      LastWriteServes(cfg, Step(cfg, s, WriteL1(id, true)), id, p, v);
      acts := [WriteL1(id, true)] + [WriteL2(id, true)];
      DecidesOlderLater(cfg, s, [WriteL1(id, true)], [WriteL2(id, true)], s.fills[id].node, p, v);
    } else {
      LastWriteServes(cfg, s, id, p, v);
      acts := [if s.fills[id].FromRepo? && s.fills[id].l1Done then WriteL2(id, true) else WriteL1(id, true)];
    }
  }

  /** `m` loses its own entry and asks L2. */
  lemma AsksL2(cfg: Config, s: State, m: Node, p: string, v: nat, id: nat)
    requires |s.history| > 0 && OldInL2(cfg, s, p, v) && id !in s.fills
    ensures
      var t := Run(cfg, s, [EvictL1(m, p), ReadL2(id, m, p)]);
      |t.history| > 0 && OldFill(t, id, p, v) && t.fills[id].node == m
  {
    RunTwo(cfg, s, EvictL1(m, p), ReadL2(id, m, p));
    var s1 := Step(cfg, s, EvictL1(m, p));
    assert s1 == s.(l1 := s.l1 - {(m, p)});
  }

  lemma ServesFromL2(cfg: Config, s: State, m: Node, p: string, v: nat, id: nat) returns (acts: seq<Action>)
    requires |s.history| > 0 && OldInL2(cfg, s, p, v) && id !in s.fills
    ensures DecidesOlder(cfg, s, acts, m, p, v)
  {
    hide Step, DecidesOlder;
    var ask := [EvictL1(m, p), ReadL2(id, m, p)];
    AsksL2(cfg, s, m, p, v, id);
    var serve := ServesFromFill(cfg, Run(cfg, s, ask), id, p, v);
    DecidesOlderLater(cfg, s, ask, serve, m, p, v);
    acts := ask + serve;
  }

  /** A repository fill that has written L1 puts its bundle into L2. */
  lemma FillReachesL2(cfg: Config, s: State, id: nat, p: string, v: nat)
    requires cfg.tiered && |s.history| > 0 && OldFill(s, id, p, v) && s.fills[id].FromRepo? && s.fills[id].l1Done
    ensures
      var t := Run(cfg, s, [WriteL2(id, true)]);
      |t.history| > 0 && OldInL2(cfg, t, p, v) && id !in t.fills
  {
    RunOne(cfg, s, WriteL2(id, true));
  }

  lemma ServesFromRepoFill(cfg: Config, s: State, m: Node, p: string, v: nat, id: nat) returns (acts: seq<Action>)
    requires cfg.tiered && |s.history| > 0 && OldFill(s, id, p, v) && s.fills[id].FromRepo?
    ensures DecidesOlder(cfg, s, acts, m, p, v)
    decreases !s.fills[id].l1Done
  {
    hide Step, DecidesOlder;
    var write := if s.fills[id].l1Done then [WriteL2(id, true)] else [WriteL1(id, true)];
    var serve;
    if s.fills[id].l1Done {
      FillReachesL2(cfg, s, id, p, v);
      serve := ServesFromL2(cfg, Run(cfg, s, write), m, p, v, id);
    } else {
      FirstWrite(cfg, s, id, p, v);
      RunOne(cfg, s, WriteL1(id, true));
      serve := ServesFromRepoFill(cfg, Run(cfg, s, write), m, p, v, id);
    }
    DecidesOlderLater(cfg, s, write, serve, m, p, v);
    acts := write + serve;
  }

  lemma {:induction false} FreshId(ids: set<nat>) returns (id: nat)
    ensures forall x :: x in ids ==> x < id
  {
    if ids == {} {
      id := 0;
    } else {
      var x :| x in ids;
      var rest := FreshId(ids - {x});
      id := if x < rest then rest else x + 1;
      assert forall y :: y in ids ==> y == x || y in ids - {x};
    }
  }

  /**
   From any state, some continuation makes `m` decide on a version before `v` iff an older
   bundle is live in a tier `m` reads, or in flight to one.
   */
  lemma ServesOlderIff(cfg: Config, s: State, m: Node, p: string, v: nat)
    requires v < |s.history|
    ensures (exists acts :: DecidesOlder(cfg, s, acts, m, p, v)) <==> CanServeOlder(cfg, s, m, p, v)
  {
    hide DecidesOlder, OldInL1, OldInL2;
    if OldInL1(s, m, p, v) {
      ServesFromL1(cfg, s, m, p, v);
    } else if OldInL2(cfg, s, p, v) {
      var id := FreshId(s.fills.Keys);
      var acts := ServesFromL2(cfg, s, m, p, v, id);
    } else if OldFillAt(s, m, p, v) {
      var id :| OldFill(s, id, p, v) && s.fills[id].node == m;
      var acts := ServesFromFill(cfg, s, id, p, v);
    } else if OldRepoFill(cfg, s, p, v) {
      var id :| OldFill(s, id, p, v) && s.fills[id].FromRepo?;
      var acts := ServesFromRepoFill(cfg, s, m, p, v, id);
    } else {
      forall acts
        ensures !DecidesOlder(cfg, s, acts, m, p, v)
      {
        SettledNeverDecidesOlder(cfg, s, acts, m, p, v);
      }
    }
  }

  /** After a RevokeAll, `m` is done with the revoked bundle iff none of the four sources is left. */
  lemma RevocationSettledIff(cfg: Config, acts: seq<Action>, i: nat, k: nat, m: Node, p: string)
    requires i < k <= |acts| && acts[i] == RevokeAll(p)
    ensures
      var s, v := StateAt(cfg, acts, k), |StateAt(cfg, acts, i).history|;
      (forall more :: !DecidesOlder(cfg, s, more, m, p, v)) <==> !CanServeOlder(cfg, s, m, p, v)
  {
    hide Step, DecidesOlder, CanServeOlder;
    Convergence.RevokeMakesVersion(cfg, acts, i, k);
    ServesOlderIff(cfg, StateAt(cfg, acts, k), m, p, |StateAt(cfg, acts, i).history|);
  }
}
