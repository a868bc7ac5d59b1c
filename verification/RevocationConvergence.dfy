/**
 What a revocation guarantees, over whole runs of the permission protocol:
 once RevokeAll, a PublishRevocation and its delivery have happened, a node never
 again decides on a bundle read before the revocation.
 */
module RevocationConvergence {
  import opened Parc
  import opened PermissionProtocol

  // ---- Messages are sent only after the L2 delete ----

  ghost predicate MessagesPublished(s: State) {
    forall n, i :: 0 <= i < |Queue(s, n)| ==>
      IsPublished(s, Queue(s, n)[i].rid) && s.revocations[Queue(s, n)[i].rid].p == Queue(s, n)[i].p
  }

  lemma StepKeepsMessages(cfg: Config, s: State, a: Action)
    requires MessagesPublished(s)
    ensures MessagesPublished(Step(cfg, s, a))
  {
    hide Step;
    var t := Step(cfg, s, a);
    forall n, i | 0 <= i < |Queue(t, n)|
      ensures IsPublished(t, Queue(t, n)[i].rid) && t.revocations[Queue(t, n)[i].rid].p == Queue(t, n)[i].p
    {
      QueueSource(cfg, s, a, n);
      var msg := Queue(t, n)[i];
      assert msg in Queue(s, n) || (a.PublishSend? && msg.rid == a.rid && msg.p == s.revocations[a.rid].p);
      RevocationSource(cfg, s, a, msg.rid);
    }
  }

  lemma {:induction false} RunMessages(cfg: Config, acts: seq<Action>, n: nat)
    requires n <= |acts|
    ensures MessagesPublished(StateAt(cfg, acts, n))
  {
    hide Step;
    if n == 0 {
    } else {
      RunMessages(cfg, acts, n - 1);
      StepKeepsMessages(cfg, StateAt(cfg, acts, n - 1), acts[n - 1]);
    }
  }

  lemma {:induction false} PublishedForever(cfg: Config, acts: seq<Action>, k: nat, n: nat, rid: nat)
    requires k <= n <= |acts| && IsPublished(StateAt(cfg, acts, k), rid)
    ensures IsPublished(StateAt(cfg, acts, n), rid)
  {
    hide Step;
    if k == n {
    } else {
      PublishedForever(cfg, acts, k, n - 1, rid);
      RevocationSource(cfg, StateAt(cfg, acts, n - 1), acts[n - 1], rid);
    }
  }

  // ---- Freshness of L2, then of one node ----

  /** L2 holds nothing about `p` older than version `v`, and nothing in flight can put it back. */
  ghost predicate L2Clean(s: State, p: string, v: nat) {
    && v < |s.history|
    && (p in s.l2 ==> v <= s.l2[p].reading.ver)
    && NoStaleRepoFill(s, p, v)
  }

  ghost predicate NoStaleRepoFill(s: State, p: string, v: nat) {
    forall id :: id in s.fills && s.fills[id].FromRepo? && s.fills[id].p == p ==> v <= s.fills[id].reading.ver
  }

  ghost predicate NoStaleFillAt(s: State, m: Node, p: string, v: nat) {
    forall id :: id in s.fills && s.fills[id].node == m && s.fills[id].p == p ==> v <= s.fills[id].reading.ver
  }

  ghost predicate NodeClean(s: State, m: Node, p: string, v: nat) {
    && L2Clean(s, p, v)
    && ((m, p) in s.l1 ==> v <= s.l1[(m, p)].reading.ver)
    && NoStaleFillAt(s, m, p, v)
  }

  lemma StepKeepsL2Clean(cfg: Config, s: State, a: Action, p: string, v: nat)
    requires L2Clean(s, p, v)
    ensures L2Clean(Step(cfg, s, a), p, v)
  {
    hide Step;
    var t := Step(cfg, s, a);
    HistorySource(cfg, s, a);
    if p in t.l2 {
      L2Source(cfg, s, a, p);
    }
    forall id | id in t.fills && t.fills[id].FromRepo? && t.fills[id].p == p
      ensures v <= t.fills[id].reading.ver
    {
      FillSource(cfg, s, a, id);
    }
  }

  lemma StepKeepsNodeClean(cfg: Config, s: State, a: Action, m: Node, p: string, v: nat)
    requires NodeClean(s, m, p, v)
    ensures NodeClean(Step(cfg, s, a), m, p, v)
  {
    hide Step;
    var t := Step(cfg, s, a);
    StepKeepsL2Clean(cfg, s, a, p, v);
    if (m, p) in t.l1 {
      L1Source(cfg, s, a, (m, p));
    }
    forall id | id in t.fills && t.fills[id].node == m && t.fills[id].p == p
      ensures v <= t.fills[id].reading.ver
    {
      FillSource(cfg, s, a, id);
    }
  }

  lemma {:induction false} RunKeepsL2Clean(cfg: Config, acts: seq<Action>, j: nat, n: nat, p: string, v: nat)
    requires j <= n <= |acts| && L2Clean(StateAt(cfg, acts, j), p, v)
    ensures L2Clean(StateAt(cfg, acts, n), p, v)
  {
    hide Step;
    if j == n {
    } else {
      RunKeepsL2Clean(cfg, acts, j, n - 1, p, v);
      StepKeepsL2Clean(cfg, StateAt(cfg, acts, n - 1), acts[n - 1], p, v);
    }
  }

  /** Decisions taken between states `k` and `n` at node `m` about `p` use versions from `v` on. */
  ghost predicate FreshDecisions(cfg: Config, acts: seq<Action>, k: nat, n: nat, m: Node, p: string, v: nat)
    requires k <= n <= |acts|
  {
    var s := StateAt(cfg, acts, n);
    forall i | |StateAt(cfg, acts, k).outcomes| <= i < |s.outcomes| ::
      s.outcomes[i].node == m && s.outcomes[i].p == p ==>
      v <= s.outcomes[i].reading.ver
  }

  lemma {:induction false} CleanNodeDecidesFresh(
    cfg: Config, acts: seq<Action>, k: nat, n: nat, m: Node, p: string, v: nat)
    requires k <= n <= |acts| && NodeClean(StateAt(cfg, acts, k), m, p, v)
    ensures NodeClean(StateAt(cfg, acts, n), m, p, v)
    ensures FreshDecisions(cfg, acts, k, n, m, p, v)
  {
    hide Step;
    if k == n {
    } else {
      CleanNodeDecidesFresh(cfg, acts, k, n - 1, m, p, v);
      StepKeepsNodeClean(cfg, StateAt(cfg, acts, n - 1), acts[n - 1], m, p, v);
      OutcomeSource(cfg, StateAt(cfg, acts, n - 1), acts[n - 1]);
    }
  }

  // ---- The repository after a revocation ----

  ghost predicate NoGrantFrom(acts: seq<Action>, i: nat, p: string) {
    forall q :: i <= q < |acts| ==> !(acts[q].Grant? && acts[q].p == p)
  }

  lemma {:induction false} RevokedUntilGranted(cfg: Config, acts: seq<Action>, i: nat, n: nat, p: string)
    requires i < n <= |acts| && acts[i] == RevokeAll(p) && NoGrantFrom(acts, i, p)
    ensures
      var h := StateAt(cfg, acts, n).history;
      && |StateAt(cfg, acts, i).history| < |h|
      && forall v :: |StateAt(cfg, acts, i).history| <= v < |h| ==> RulesOf(h[v].repo, p) == []
  {
    hide Step;
    RunInv(cfg, acts, n - 1);
    HistorySource(cfg, StateAt(cfg, acts, n - 1), acts[n - 1]);
    if i + 1 == n {
    } else {
      RevokedUntilGranted(cfg, acts, i, n - 1, p);
    }
  }

  // ---- Convergence ----

  /**
   Step `i` revokes all of `p`'s permissions and makes version `v`; step `j` is the
   successful L2 delete of the later publication `rid`; step `k` delivers that
   publication at `m`.  No fill that read before the revocation is still in flight
   when L2 is deleted (for `p`, anywhere) or when the message arrives (at `m`).
   */
  ghost predicate RevokedAndDelivered(
    cfg: Config, acts: seq<Action>, i: nat, j: nat, k: nat, rid: nat, m: Node, p: string, v: nat)
  {
    && i < j < |acts| && k < |acts|
    && acts[i] == RevokeAll(p) && v == |StateAt(cfg, acts, i).history|
    && acts[j] == PublishDeleteL2(rid, true) && Enabled(cfg, StateAt(cfg, acts, j), acts[j])
    && StateAt(cfg, acts, j).revocations[rid].p == p
    && acts[k] == Deliver(m) && Delivers(StateAt(cfg, acts, k), m, rid)
    && NoStaleRepoFill(StateAt(cfg, acts, j), p, v)
    && NoStaleFillAt(StateAt(cfg, acts, k), m, p, v)
  }

  predicate Delivers(s: State, m: Node, rid: nat) {
    Queue(s, m) != [] && Queue(s, m)[0].rid == rid
  }

  /** The shortest such run: revoke, publish, deliver. */
  function RevokeAndDeliver(n: Node, m: Node, p: string): seq<Action> {
    [RevokeAll(p), CallPublish(1, n, p), PublishDeleteL1(1), PublishDeleteL2(1, true), PublishSend(1, {m}), Deliver(m)]
  }

  lemma RevokeThenDelete(cfg: Config, n: Node, m: Node, p: string)
    ensures
      var acts := RevokeAndDeliver(n, m, p);
      var revoked := WithRepo(INIT, RevokedAll(p));
      && StateAt(cfg, acts, 0) == INIT
      && StateAt(cfg, acts, 3) == revoked.(revocations := map[1 := Revocation(n, p, L1Deleted)])
      && StateAt(cfg, acts, 4) == revoked.(revocations := map[1 := Revocation(n, p, L2Deleted)])
  {
    var acts := RevokeAndDeliver(n, m, p);
    var revoked := WithRepo(INIT, RevokedAll(p));
    assert StateAt(cfg, acts, 1) == revoked;
    assert StateAt(cfg, acts, 2) == revoked.(revocations := map[1 := Revocation(n, p, Called)]);
  }

  lemma RevokedAndDeliveredHappens(cfg: Config, n: Node, m: Node, p: string)
    ensures RevokedAndDelivered(cfg, RevokeAndDeliver(n, m, p), 0, 3, 5, 1, m, p, 1)
  {
    var acts := RevokeAndDeliver(n, m, p);
    RevokeThenDelete(cfg, n, m, p);
    var s := StateAt(cfg, acts, 4);
    assert StateAt(cfg, acts, 5) == Step(cfg, s, PublishSend(1, {m}));
    SendQueues(cfg, s, m, p);
  }

  lemma SendQueues(cfg: Config, s: State, m: Node, p: string)
    requires |s.history| > 0 && s.queues == map[] && 1 in s.revocations
    requires s.revocations[1].p == p && s.revocations[1].stage == L2Deleted
    ensures var t := Step(cfg, s, PublishSend(1, {m})); Queue(t, m) == [Message(p, 1)] && t.fills == s.fills
  {
  }

  /** Afterwards every decision `m` takes about `p` rests on a version no older than the revocation. */
  lemma RevocationConverges(
    cfg: Config, acts: seq<Action>, i: nat, j: nat, k: nat, rid: nat, m: Node, p: string, v: nat)
    requires RevokedAndDelivered(cfg, acts, i, j, k, rid, m, p, v)
    ensures j < k
    ensures FreshDecisions(cfg, acts, k + 1, |acts|, m, p, v)
  {
    hide Step;
    DeliveredAfterL2Delete(cfg, acts, j, k, rid, m);
    assert NodeClean(StateAt(cfg, acts, k + 1), m, p, v) by {
      assert L2Clean(StateAt(cfg, acts, k), p, v) by {
        RevokeMakesVersion(cfg, acts, i, j);
        L2CleanUntilDelivery(cfg, acts, j, k, rid, p, v);
      }
      DeliverCleans(cfg, acts, j, k, rid, m, p, v);
    }
    CleanNodeDecidesFresh(cfg, acts, k + 1, |acts|, m, p, v);
  }

  lemma L2DeleteCleans(cfg: Config, s: State, rid: nat, p: string, v: nat)
    requires Enabled(cfg, s, PublishDeleteL2(rid, true)) && s.revocations[rid].p == p
    requires v < |s.history| && NoStaleRepoFill(s, p, v)
    ensures L2Clean(Step(cfg, s, PublishDeleteL2(rid, true)), p, v)
  {
    assert Step(cfg, s, PublishDeleteL2(rid, true)).fills == s.fills;
  }

  lemma L2CleanUntilDelivery(cfg: Config, acts: seq<Action>, j: nat, k: nat, rid: nat, p: string, v: nat)
    requires j < k <= |acts| && acts[j] == PublishDeleteL2(rid, true)
    requires Enabled(cfg, StateAt(cfg, acts, j), acts[j]) && StateAt(cfg, acts, j).revocations[rid].p == p
    requires v < |StateAt(cfg, acts, j).history| && NoStaleRepoFill(StateAt(cfg, acts, j), p, v)
    ensures L2Clean(StateAt(cfg, acts, k), p, v)
  {
    hide Step;
    L2DeleteCleans(cfg, StateAt(cfg, acts, j), rid, p, v);
    RunKeepsL2Clean(cfg, acts, j + 1, k, p, v);
  }

  lemma DeliveredAfterL2Delete(cfg: Config, acts: seq<Action>, j: nat, k: nat, rid: nat, m: Node)
    requires j < |acts| && k < |acts|
    requires acts[j].PublishDeleteL2? && acts[j].rid == rid && Enabled(cfg, StateAt(cfg, acts, j), acts[j])
    requires Delivers(StateAt(cfg, acts, k), m, rid)
    ensures j < k
  {
    hide Step;
    RunMessages(cfg, acts, k);
    if k <= j {
      PublishedForever(cfg, acts, k, j, rid);
    }
  }

  lemma {:induction false} HistoryNeverShrinks(cfg: Config, acts: seq<Action>, i: nat, j: nat)
    requires i <= j <= |acts|
    ensures |StateAt(cfg, acts, i).history| <= |StateAt(cfg, acts, j).history|
  {
    hide Step;
    if i == j {
    } else {
      HistoryNeverShrinks(cfg, acts, i, j - 1);
      assert |StateAt(cfg, acts, j - 1).history| > 0 by { RunInv(cfg, acts, j - 1); }
      HistorySource(cfg, StateAt(cfg, acts, j - 1), acts[j - 1]);
    }
  }

  lemma RevokeMakesVersion(cfg: Config, acts: seq<Action>, i: nat, j: nat)
    requires i < j <= |acts| && acts[i].RevokeAll?
    ensures |StateAt(cfg, acts, i).history| < |StateAt(cfg, acts, j).history|
  {
    hide Step;
    RunInv(cfg, acts, i);
    HistorySource(cfg, StateAt(cfg, acts, i), acts[i]);
    HistoryNeverShrinks(cfg, acts, i + 1, j);
  }

  lemma {:induction false} SamePrincipal(cfg: Config, acts: seq<Action>, j: nat, k: nat, rid: nat)
    requires j <= k <= |acts| && rid in StateAt(cfg, acts, j).revocations
    ensures rid in StateAt(cfg, acts, k).revocations
    ensures StateAt(cfg, acts, k).revocations[rid].p == StateAt(cfg, acts, j).revocations[rid].p
  {
    hide Step;
    if j == k {
    } else {
      SamePrincipal(cfg, acts, j, k - 1, rid);
      RevocationSource(cfg, StateAt(cfg, acts, k - 1), acts[k - 1], rid);
    }
  }

  lemma DeliverCleans(cfg: Config, acts: seq<Action>, j: nat, k: nat, rid: nat, m: Node, p: string, v: nat)
    requires j < k < |acts| && acts[k] == Deliver(m)
    requires rid in StateAt(cfg, acts, j).revocations && StateAt(cfg, acts, j).revocations[rid].p == p
    requires Delivers(StateAt(cfg, acts, k), m, rid)
    requires L2Clean(StateAt(cfg, acts, k), p, v) && NoStaleFillAt(StateAt(cfg, acts, k), m, p, v)
    ensures NodeClean(StateAt(cfg, acts, k + 1), m, p, v)
  {
    hide Step;
    RunInv(cfg, acts, k);
    RunMessages(cfg, acts, k);
    SamePrincipal(cfg, acts, j, k, rid);
    StepKeepsL2Clean(cfg, StateAt(cfg, acts, k), acts[k], p, v);
    DeliverDeletes(cfg, StateAt(cfg, acts, k), m);
  }

  lemma DeliverDeletes(cfg: Config, s: State, m: Node)
    requires |s.history| > 0 && Queue(s, m) != []
    ensures
      var t := Step(cfg, s, Deliver(m));
      (m, Queue(s, m)[0].p) !in t.l1 && t.fills == s.fills
  {
  }

  /** Until `p` is granted something again, every decision `m` takes after the delivery is a refusal. */
  lemma RevokedMeansDenied(
    cfg: Config, acts: seq<Action>, i: nat, j: nat, k: nat, rid: nat, m: Node, p: string, v: nat,
    d: nat, g: Globs, req: Request)
    requires RevokedAndDelivered(cfg, acts, i, j, k, rid, m, p, v)
    requires NoGrantFrom(acts, i, p)
    requires |StateAt(cfg, acts, k + 1).outcomes| <= d < |StateAt(cfg, acts, |acts|).outcomes|
    requires StateAt(cfg, acts, |acts|).outcomes[d].node == m && StateAt(cfg, acts, |acts|).outcomes[d].p == p
    ensures !Allows(g, StateAt(cfg, acts, |acts|).outcomes[d].reading.bundle, req)
  {
    hide Step;
    RevocationConverges(cfg, acts, i, j, k, rid, m, p, v);
    RevokedUntilGranted(cfg, acts, i, |acts|, p);
    RunInv(cfg, acts, |acts|);
    assert OutcomeOk(cfg, StateAt(cfg, acts, |acts|), StateAt(cfg, acts, |acts|).outcomes[d]);
  }
}
