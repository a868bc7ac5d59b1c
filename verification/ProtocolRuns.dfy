/**
 Concrete families of runs of the permission protocol: the staleness bound is reached
 exactly, and each condition of the convergence theorem is needed.
 */
module ProtocolRuns {
  import opened Parc
  import opened PermissionProtocol

  function Run(cfg: Config, s: State, acts: seq<Action>): State
    decreases |acts|
  {
    if acts == [] then s else Run(cfg, Step(cfg, s, acts[0]), acts[1..])
  }

  lemma {:induction false} RunAppends(cfg: Config, s: State, a: seq<Action>, b: seq<Action>)
    ensures Run(cfg, s, a + b) == Run(cfg, Run(cfg, s, a), b)
    decreases |a|
  {
    hide Step;
    if a == [] {
      assert a + b == b;
    } else {
      assert (a + b)[1..] == a[1..] + b;
      RunAppends(cfg, Step(cfg, s, a[0]), a[1..], b);
    }
  }

  lemma {:induction false} RunIsStateAt(cfg: Config, acts: seq<Action>, n: nat)
    requires n <= |acts|
    ensures Run(cfg, INIT, acts[..n]) == StateAt(cfg, acts, n)
  {
    hide Step;
    if n == 0 {
    } else {
      RunIsStateAt(cfg, acts, n - 1);
      assert acts[..n] == acts[..n - 1] + [acts[n - 1]];
      RunAppends(cfg, INIT, acts[..n - 1], [acts[n - 1]]);
    }
  }

  function Ticks(k: nat): seq<Action> {
    seq(k, _ => Tick)
  }

  /** `k` ticks move only the clock, when every fill in flight leaves that much time. */
  lemma {:induction false} TicksMoveClock(cfg: Config, s: State, k: nat)
    requires |s.history| > 0
    requires forall id :: id in s.fills ==> s.now + k <= s.fills[id].at + cfg.delay
    ensures Run(cfg, s, Ticks(k)) == s.(now := s.now + k)
    decreases k
  {
    if k == 0 {
    } else {
      assert Ticks(k)[0] == Tick && Ticks(k)[1..] == Ticks(k - 1);
      assert Step(cfg, s, Tick) == s.(now := s.now + 1);
      TicksMoveClock(cfg, s.(now := s.now + 1), k - 1);
    }
  }

  lemma RunThenTicks(cfg: Config, s: State, acts: seq<Action>, k: nat, t: State)
    requires Run(cfg, s, acts) == t && |t.history| > 0
    requires forall id :: id in t.fills ==> t.now + k <= t.fills[id].at + cfg.delay
    ensures Run(cfg, s, acts + Ticks(k)) == t.(now := t.now + k)
  {
    hide Step;
    RunAppends(cfg, s, acts, Ticks(k));
    TicksMoveClock(cfg, t, k);
  }

  // ---- The bound is tight ----

  /** Grant, read, revoke at once; then let every cache hold on as long as it can. */
  function SlowestRead(cfg: Config, n: Node, p: string, rule: Rule): seq<Action> {
    [Grant(p, rule), ReadRepo(0, n, p), RevokeAll(p)] + Ticks(cfg.delay)
  }

  function SlowestFill(cfg: Config, n: Node, p: string, rule: Rule): seq<Action> {
    SlowestRead(cfg, n, p, rule) + [WriteL1(0, true), WriteL2(0, true)] + Ticks(cfg.grantTTL)
  }

  function SlowestRefillActs(cfg: Config, n: Node, p: string): seq<Action> {
    ([ReadL2(1, n, p)] + Ticks(cfg.delay)) + ([WriteL1(1, true)] + Ticks(cfg.l1TTL)) + [HitL1(n, p)]
  }

  function SlowestRun(cfg: Config, n: Node, p: string, rule: Rule): seq<Action> {
    if cfg.tiered then
      SlowestFill(cfg, n, p, rule) + SlowestRefillActs(cfg, n, p)
    else
      SlowestFill(cfg, n, p, rule) + [HitL1(n, p)]
  }

  function Granted1(p: string, rule: Rule): Repo {
    map[p := [rule]]
  }

  lemma FirstGrant(p: string, rule: Rule)
    ensures ApplyEvent(map[], Granted(p, rule)) == Granted1(p, rule)
  {
    assert RulesOf(map[], p) + [rule] == [rule];
  }

  /** Nothing, then `rule`, then nothing again, all at time 0. */
  function GrantThenRevoke(p: string, rule: Rule): seq<Version> {
    [Version(0, map[]), Version(0, Granted1(p, rule)), Version(0, map[])]
  }

  /** The repository held `rule` at no other instant. */
  lemma HeldOnlyAtStart(p: string, rule: Rule, t: nat)
    requires HeldAt(GrantThenRevoke(p, rule), p, [rule], t)
    ensures t == 0
  {
  }

  function ReadState(now: nat, n: Node, p: string, rule: Rule): State {
    INIT.(
    now := now,
    history := GrantThenRevoke(p, rule),
    fills := map[0 := FromRepo(n, p, Reading([rule], 1, 0), 0, false)])
  }

  lemma SlowestReadState(cfg: Config, n: Node, p: string, rule: Rule)
    ensures Run(cfg, INIT, SlowestRead(cfg, n, p, rule)) == ReadState(cfg.delay, n, p, rule)
  {
    var s1 := Step(cfg, INIT, Grant(p, rule));
    FirstGrant(p, rule);
    assert s1.history == [Version(0, map[]), Version(0, Granted1(p, rule))];
    var s2 := Step(cfg, s1, ReadRepo(0, n, p));
    var s3 := Step(cfg, s2, RevokeAll(p));
    assert s3.history == GrantThenRevoke(p, rule);
    assert s3 == ReadState(0, n, p, rule);
    assert Run(cfg, INIT, [Grant(p, rule), ReadRepo(0, n, p), RevokeAll(p)]) == s3 by {
      hide Step;
      assert [Grant(p, rule), ReadRepo(0, n, p), RevokeAll(p)][1..] == [ReadRepo(0, n, p), RevokeAll(p)];
      assert [ReadRepo(0, n, p), RevokeAll(p)][1..] == [RevokeAll(p)];
      assert Run(cfg, s2, [RevokeAll(p)]) == s3;
    }
    RunThenTicks(cfg, INIT, [Grant(p, rule), ReadRepo(0, n, p), RevokeAll(p)], cfg.delay, s3);
  }

  /** After the first fill: nothing in flight, and both caches hold the revoked bundle. */
  ghost predicate Filled(cfg: Config, s: State, n: Node, p: string, rule: Rule) {
    && s.history == GrantThenRevoke(p, rule) && s.fills == map[] && s.now == cfg.delay + cfg.grantTTL
    && var r := Reading([rule], 1, 0);
       if cfg.tiered then p in s.l2 && s.l2[p] == Entry(r, cfg.delay + cfg.grantTTL)
       else (n, p) in s.l1 && s.l1[(n, p)] == Entry(r, cfg.delay + cfg.grantTTL)
  }

  lemma SlowestFillState(cfg: Config, n: Node, p: string, rule: Rule)
    ensures Filled(cfg, Run(cfg, INIT, SlowestFill(cfg, n, p, rule)), n, p, rule)
  {
    SlowestReadState(cfg, n, p, rule);
    var s := ReadState(cfg.delay, n, p, rule);
    var s1 := Step(cfg, s, WriteL1(0, true));
    var s2 := Step(cfg, s1, WriteL2(0, true));
    assert s2.fills == map[];
    assert Run(cfg, s, [WriteL1(0, true), WriteL2(0, true)]) == s2 by {
      hide Step;
      assert [WriteL1(0, true), WriteL2(0, true)][1..] == [WriteL2(0, true)];
      assert Run(cfg, s1, [WriteL2(0, true)]) == s2;
    }
    RunAppends(cfg, INIT, SlowestRead(cfg, n, p, rule), [WriteL1(0, true), WriteL2(0, true)]);
    RunThenTicks(cfg, INIT, SlowestRead(cfg, n, p, rule) + [WriteL1(0, true), WriteL2(0, true)], cfg.grantTTL, s2);
  }

  lemma RunOne(cfg: Config, s: State, a: Action)
    ensures Run(cfg, s, [a]) == Step(cfg, s, a)
  {
    hide Step;
    assert [a][1..] == [];
  }

  lemma StepThenTicks(cfg: Config, s: State, a: Action, k: nat)
    requires |Step(cfg, s, a).history| > 0
    requires var t := Step(cfg, s, a); forall id :: id in t.fills ==> t.now + k <= t.fills[id].at + cfg.delay
    ensures Run(cfg, s, [a] + Ticks(k)) == Step(cfg, s, a).(now := Step(cfg, s, a).now + k)
  {
    hide Step;
    RunOne(cfg, s, a);
    RunThenTicks(cfg, s, [a], k, Step(cfg, s, a));
  }

  lemma RefillFromL2(cfg: Config, s: State, n: Node, p: string, r: Reading)
    requires cfg.tiered && |s.history| > 0 && s.fills == map[]
    requires p in s.l2 && s.l2[p].reading == r && Live(s.l2[p], s.now)
    ensures
      var t := Run(cfg, s, [ReadL2(1, n, p)] + Ticks(cfg.delay));
      t == s.(fills := map[1 := FromL2(n, p, r, s.now)], now := s.now + cfg.delay)
  {
    var s1 := Step(cfg, s, ReadL2(1, n, p));
    assert s1 == s.(fills := map[1 := FromL2(n, p, r, s.now)]);
    StepThenTicks(cfg, s, ReadL2(1, n, p), cfg.delay);
  }

  lemma WriteAndWait(cfg: Config, s: State, n: Node, p: string, r: Reading)
    requires |s.history| > 0 && s.fills.Keys == {1} && s.fills[1].FromL2?
    requires s.fills[1].node == n && s.fills[1].p == p && s.fills[1].reading == r
    ensures
      var t := Run(cfg, s, [WriteL1(1, true)] + Ticks(cfg.l1TTL));
      && t.history == s.history && t.now == s.now + cfg.l1TTL
      && (n, p) in t.l1 && t.l1[(n, p)] == Entry(r, s.now + cfg.l1TTL)
  {
    var s1 := Step(cfg, s, WriteL1(1, true));
    assert s1.fills == map[];
    StepThenTicks(cfg, s, WriteL1(1, true), cfg.l1TTL);
  }

  /** The refill of L1 from a dying L2 entry, and the last moment it can still be served. */
  lemma SlowestRefill(cfg: Config, s: State, n: Node, p: string, rule: Rule)
    requires cfg.tiered && Filled(cfg, s, n, p, rule)
    ensures
      var t := Run(cfg, s, SlowestRefillActs(cfg, n, p));
      && t.history == s.history && t.outcomes != []
      && t.outcomes[|t.outcomes| - 1] == Outcome(n, p, Reading([rule], 1, 0), Bound(cfg))
  {
    var r := Reading([rule], 1, 0);
    var a, b, c := [ReadL2(1, n, p)] + Ticks(cfg.delay), [WriteL1(1, true)] + Ticks(cfg.l1TTL), [HitL1(n, p)];
    RefillFromL2(cfg, s, n, p, r);
    var s2 := Run(cfg, s, a);
    WriteAndWait(cfg, s2, n, p, r);
    var s4 := Run(cfg, s2, b);
    RunOne(cfg, s4, HitL1(n, p));
    RunAppends(cfg, s, a, b);
    RunAppends(cfg, s, a + b, c);
  }

  lemma SlowestHit(cfg: Config, s: State, n: Node, p: string, rule: Rule)
    requires !cfg.tiered && Filled(cfg, s, n, p, rule)
    ensures
      var t := Run(cfg, s, [HitL1(n, p)]);
      && t.history == s.history && t.outcomes != []
      && t.outcomes[|t.outcomes| - 1] == Outcome(n, p, Reading([rule], 1, 0), Bound(cfg))
  {
    RunOne(cfg, s, HitL1(n, p));
  }

  /**
   For every configuration some run serves a revoked bundle exactly `Bound(cfg)` after it
   was read and revoked, so no smaller bound holds.
   */
  lemma StalenessBoundIsReached(cfg: Config, n: Node, p: string, rule: Rule)
    ensures
      var acts := SlowestRun(cfg, n, p, rule);
      var s := StateAt(cfg, acts, |acts|);
      && s.outcomes != []
      && s.outcomes[|s.outcomes| - 1] == Outcome(n, p, Reading([rule], 1, 0), Bound(cfg))
      && forall t :: HeldAt(s.history, p, [rule], t) ==> t == 0
  {
    hide Step, HeldAt;
    var acts := SlowestRun(cfg, n, p, rule);
    RunIsStateAt(cfg, acts, |acts|);
    assert acts[..|acts|] == acts;
    SlowestFillState(cfg, n, p, rule);
    var fill := SlowestFill(cfg, n, p, rule);
    var s := Run(cfg, INIT, fill);
    if cfg.tiered {
      var rest := SlowestRefillActs(cfg, n, p);
      assert acts == fill + rest;
      RunAppends(cfg, INIT, fill, rest);
      SlowestRefill(cfg, s, n, p, rule);
    } else {
      RunAppends(cfg, INIT, fill, [HitL1(n, p)]);
      SlowestHit(cfg, s, n, p, rule);
    }
    forall t | HeldAt(GrantThenRevoke(p, rule), p, [rule], t)
      ensures t == 0
    {
      HeldOnlyAtStart(p, rule, t);
    }
  }

  // ---- Each condition of convergence is needed ----

  /** The last decision was taken at `n` on a bundle that still holds the revoked `rule`. */
  ghost predicate DecidesOnRevoked(s: State, n: Node, p: string, rule: Rule) {
    && |s.history| > 0 && RulesOf(Latest(s).repo, p) == []
    && s.outcomes != []
    && var o := s.outcomes[|s.outcomes| - 1];
       o.node == n && o.p == p && o.reading.bundle == [rule]
  }

  lemma RunTwo(cfg: Config, s: State, a: Action, b: Action)
    ensures Run(cfg, s, [a, b]) == Step(cfg, Step(cfg, s, a), b)
  {
    hide Step;
    assert [a, b][1..] == [b];
    RunOne(cfg, Step(cfg, s, a), b);
  }

  lemma RunFour(cfg: Config, s: State, a: Action, b: Action, c: Action, d: Action)
    ensures Run(cfg, s, [a, b, c, d]) == Step(cfg, Step(cfg, Step(cfg, Step(cfg, s, a), b), c), d)
  {
    hide Step;
    assert [a, b, c, d] == [a, b] + [c, d];
    RunAppends(cfg, s, [a, b], [c, d]);
    RunTwo(cfg, s, a, b);
    RunTwo(cfg, Step(cfg, Step(cfg, s, a), b), c, d);
  }

  lemma RunParts(cfg: Config, a: seq<Action>, b: seq<Action>, c: seq<Action>)
    ensures StateAt(cfg, a + b + c, |a + b + c|) == Run(cfg, Run(cfg, Run(cfg, INIT, a), b), c)
  {
    hide Step;
    assert (a + b + c)[..|a + b + c|] == a + b + c;
    RunIsStateAt(cfg, a + b + c, |a + b + c|);
    RunAppends(cfg, INIT, a + b, c);
    RunAppends(cfg, INIT, a, b);
  }

  function WarmUp(n: Node, p: string, rule: Rule): seq<Action> {
    [Grant(p, rule), ReadRepo(0, n, p), WriteL1(0, true), WriteL2(0, true)]
  }

  /** After the warm-up both tiers hold `rule` for `p`. */
  ghost predicate Warm(cfg: Config, s: State, n: Node, p: string, rule: Rule) {
    && s.now == 0 && |s.history| == 2 && s.history[1].repo == Granted1(p, rule)
    && s.fills == map[] && s.revocations == map[] && s.queues == map[]
    && p in s.l2 && s.l2[p] == Entry(Reading([rule], 1, 0), cfg.grantTTL)
  }

  lemma WarmUpState(cfg: Config, n: Node, p: string, rule: Rule)
    requires cfg.tiered
    ensures Warm(cfg, Run(cfg, INIT, WarmUp(n, p, rule)), n, p, rule)
  {
    RunFour(cfg, INIT, Grant(p, rule), ReadRepo(0, n, p), WriteL1(0, true), WriteL2(0, true));
    var s1 := Step(cfg, INIT, Grant(p, rule));
    FirstGrant(p, rule);
    var s2 := Step(cfg, s1, ReadRepo(0, n, p));
    assert s2.fills == map[0 := FromRepo(n, p, Reading([rule], 1, 0), 0, false)];
    var s3 := Step(cfg, s2, WriteL1(0, true));
    assert s3.fills == map[0 := FromRepo(n, p, Reading([rule], 1, 0), 0, true)];
    assert Step(cfg, s3, WriteL2(0, true)).fills == map[];
  }

  lemma RevokeWithFailedDelete(cfg: Config, s: State, n: Node, p: string, rule: Rule)
    requires cfg.tiered && Warm(cfg, s, n, p, rule)
    ensures
      var t := Run(cfg, s, [RevokeAll(p), CallPublish(1, n, p), PublishDeleteL1(1), PublishDeleteL2(1, false)]);
      StaleL2BeforeSend(t, n, p, rule)
  {
    RunFour(cfg, s, RevokeAll(p), CallPublish(1, n, p), PublishDeleteL1(1), PublishDeleteL2(1, false));
    var s1 := Step(cfg, s, RevokeAll(p));
    var s2 := Step(cfg, s1, CallPublish(1, n, p));
    assert s2.revocations == map[1 := Revocation(n, p, Called)];
    var s3 := Step(cfg, s2, PublishDeleteL1(1));
    assert s3.revocations == map[1 := Revocation(n, p, L1Deleted)];
  }

  /**
   The L2 delete must succeed: if it fails, the message is delivered and node `m` still
   reads the revoked bundle from L2.
   */
  lemma FailedL2DeleteLeavesRevoked(cfg: Config, n: Node, m: Node, p: string, rule: Rule)
    requires cfg.tiered
    ensures
      var acts := WarmUp(n, p, rule)
        + [RevokeAll(p), CallPublish(1, n, p), PublishDeleteL1(1), PublishDeleteL2(1, false)]
        + [PublishSend(1, {m}), Deliver(m), ReadL2(2, m, p), WriteL1(2, true)];
      DecidesOnRevoked(StateAt(cfg, acts, |acts|), m, p, rule)
  {
    hide Step;
    var a := WarmUp(n, p, rule);
    var b := [RevokeAll(p), CallPublish(1, n, p), PublishDeleteL1(1), PublishDeleteL2(1, false)];
    var c := [PublishSend(1, {m}), Deliver(m), ReadL2(2, m, p), WriteL1(2, true)];
    RunParts(cfg, a, b, c);
    WarmUpState(cfg, n, p, rule);
    RevokeWithFailedDelete(cfg, Run(cfg, INIT, a), n, p, rule);
    DeliveredThenRefilled(cfg, Run(cfg, Run(cfg, INIT, a), b), n, m, p, rule);
  }

  /** `p` is revoked and publication 1 is about to send, but L2 still holds `rule`. */
  ghost predicate StaleL2BeforeSend(s: State, n: Node, p: string, rule: Rule) {
    && |s.history| > 0 && RulesOf(Latest(s).repo, p) == []
    && s.now == 0 && s.fills == map[] && s.queues == map[]
    && 1 in s.revocations && s.revocations[1] == Revocation(n, p, L2Deleted)
    && p in s.l2 && s.l2[p].reading.bundle == [rule]
  }

  lemma DeliveredThenRefilled(cfg: Config, s: State, n: Node, m: Node, p: string, rule: Rule)
    requires cfg.tiered && StaleL2BeforeSend(s, n, p, rule)
    ensures
      var acts := [PublishSend(1, {m}), Deliver(m), ReadL2(2, m, p), WriteL1(2, true)];
      DecidesOnRevoked(Run(cfg, s, acts), m, p, rule)
  {
    hide Step;
    RunFour(cfg, s, PublishSend(1, {m}), Deliver(m), ReadL2(2, m, p), WriteL1(2, true));
    SendKeepsCaches(cfg, s, 1, {m});
    var s1 := Step(cfg, s, PublishSend(1, {m}));
    DeliverKeepsL2(cfg, s1, m);
    ReadAndDecide(cfg, Step(cfg, s1, Deliver(m)), m, p, rule);
  }

  lemma SendKeepsCaches(cfg: Config, s: State, rid: nat, receivers: set<Node>)
    requires |s.history| > 0 && rid in s.revocations && s.revocations[rid].stage == L2Deleted
    ensures
      var t := Step(cfg, s, PublishSend(rid, receivers));
      && t.now == s.now && t.history == s.history && t.l1 == s.l1 && t.l2 == s.l2 && t.fills == s.fills
      && forall n :: n in receivers ==> Queue(t, n) == Queue(s, n) + [Message(s.revocations[rid].p, rid)]
  {
  }

  lemma DeliverKeepsL2(cfg: Config, s: State, m: Node)
    requires |s.history| > 0 && Queue(s, m) != []
    ensures
      var t := Step(cfg, s, Deliver(m));
      t.now == s.now && t.history == s.history && t.l2 == s.l2 && t.fills == s.fills
  {
  }

  lemma ReadAndDecide(cfg: Config, s: State, m: Node, p: string, rule: Rule)
    requires cfg.tiered && |s.history| > 0 && RulesOf(Latest(s).repo, p) == [] && s.now == 0 && s.fills == map[]
    requires p in s.l2 && s.l2[p].reading.bundle == [rule]
    ensures DecidesOnRevoked(Step(cfg, Step(cfg, s, ReadL2(2, m, p)), WriteL1(2, true)), m, p, rule)
  {
    var s1 := Step(cfg, s, ReadL2(2, m, p));
    assert s1.fills == map[2 := FromL2(m, p, s.l2[p].reading, 0)] && s1.history == s.history;
  }

  lemma RefillBetweenDeletes(cfg: Config, s: State, n: Node, p: string, rule: Rule)
    requires cfg.tiered && Warm(cfg, s, n, p, rule)
    ensures
      var t := Run(cfg, s, [RevokeAll(p), CallPublish(1, n, p), PublishDeleteL1(1), ReadL2(2, n, p)]);
      && |t.history| > 0 && RulesOf(Latest(t).repo, p) == [] && t.now == 0
      && t.revocations == map[1 := Revocation(n, p, L1Deleted)]
      && t.fills == map[2 := FromL2(n, p, Reading([rule], 1, 0), 0)]
  {
    RunFour(cfg, s, RevokeAll(p), CallPublish(1, n, p), PublishDeleteL1(1), ReadL2(2, n, p));
    var s1 := Step(cfg, s, RevokeAll(p));
    var s2 := Step(cfg, s1, CallPublish(1, n, p));
    assert s2.revocations == map[1 := Revocation(n, p, Called)];
    var s3 := Step(cfg, s2, PublishDeleteL1(1));
    assert s3.revocations == map[1 := Revocation(n, p, L1Deleted)];
  }

  lemma FinishWithoutReceivers(cfg: Config, s: State, n: Node, p: string, rule: Rule)
    requires |s.history| > 0 && RulesOf(Latest(s).repo, p) == [] && s.now == 0
    requires s.revocations == map[1 := Revocation(n, p, L1Deleted)]
    requires s.fills == map[2 := FromL2(n, p, Reading([rule], 1, 0), 0)]
    ensures
      var acts := [WriteL1(2, true), PublishDeleteL2(1, true), PublishSend(1, {}), HitL1(n, p)];
      DecidesOnRevoked(Run(cfg, s, acts), n, p, rule)
  {
    hide Step;
    RunFour(cfg, s, WriteL1(2, true), PublishDeleteL2(1, true), PublishSend(1, {}), HitL1(n, p));
    WriteThenDeleteL2(cfg, s, n, p, rule);
    var s2 := Step(cfg, Step(cfg, s, WriteL1(2, true)), PublishDeleteL2(1, true));
    SendKeepsCaches(cfg, s2, 1, {});
    HitDecides(cfg, Step(cfg, s2, PublishSend(1, {})), n, p, rule);
  }

  lemma WriteThenDeleteL2(cfg: Config, s: State, n: Node, p: string, rule: Rule)
    requires |s.history| > 0 && s.now == 0
    requires s.revocations == map[1 := Revocation(n, p, L1Deleted)]
    requires s.fills == map[2 := FromL2(n, p, Reading([rule], 1, 0), 0)]
    ensures
      var t := Step(cfg, Step(cfg, s, WriteL1(2, true)), PublishDeleteL2(1, true));
      && t.history == s.history && t.now == 0
      && 1 in t.revocations && t.revocations[1].stage == L2Deleted
      && (n, p) in t.l1 && t.l1[(n, p)] == Entry(Reading([rule], 1, 0), cfg.l1TTL)
  {
    var s1 := Step(cfg, s, WriteL1(2, true));
    assert s1.revocations == s.revocations && s1.history == s.history;
  }

  lemma HitDecides(cfg: Config, s: State, n: Node, p: string, rule: Rule)
    requires |s.history| > 0 && RulesOf(Latest(s).repo, p) == []
    requires (n, p) in s.l1 && Live(s.l1[(n, p)], s.now) && s.l1[(n, p)].reading.bundle == [rule]
    ensures DecidesOnRevoked(Step(cfg, s, HitL1(n, p)), n, p, rule)
  {
  }

  /**
   L1 is deleted before L2, so the publisher itself needs the delivery: a request between
   the two deletes puts the revoked bundle back into the publisher's L1, where it stays when
   there is no bus.
   */
  lemma PublisherNeedsDelivery(cfg: Config, n: Node, p: string, rule: Rule)
    requires cfg.tiered
    ensures
      var acts := WarmUp(n, p, rule)
        + [RevokeAll(p), CallPublish(1, n, p), PublishDeleteL1(1), ReadL2(2, n, p)]
        + [WriteL1(2, true), PublishDeleteL2(1, true), PublishSend(1, {}), HitL1(n, p)];
      DecidesOnRevoked(StateAt(cfg, acts, |acts|), n, p, rule)
  {
    hide Step;
    var a := WarmUp(n, p, rule);
    var b := [RevokeAll(p), CallPublish(1, n, p), PublishDeleteL1(1), ReadL2(2, n, p)];
    var c := [WriteL1(2, true), PublishDeleteL2(1, true), PublishSend(1, {}), HitL1(n, p)];
    RunParts(cfg, a, b, c);
    WarmUpState(cfg, n, p, rule);
    RefillBetweenDeletes(cfg, Run(cfg, INIT, a), n, p, rule);
    FinishWithoutReceivers(cfg, Run(cfg, Run(cfg, INIT, a), b), n, p, rule);
  }

  lemma ReadThenRevoke(cfg: Config, n: Node, p: string, rule: Rule)
    ensures
      var t := Run(cfg, INIT, [Grant(p, rule), ReadRepo(0, n, p), RevokeAll(p), CallPublish(1, n, p)]);
      ReadBeforeRevoke(t, n, p, rule)
  {
    RunFour(cfg, INIT, Grant(p, rule), ReadRepo(0, n, p), RevokeAll(p), CallPublish(1, n, p));
    var s1 := Step(cfg, INIT, Grant(p, rule));
    FirstGrant(p, rule);
    var s2 := Step(cfg, s1, ReadRepo(0, n, p));
    assert s2.fills == map[0 := FromRepo(n, p, Reading([rule], 1, 0), 0, false)];
    var s3 := Step(cfg, s2, RevokeAll(p));
    assert RulesOf(Latest(s3).repo, p) == [];
  }

  /** `p` is revoked, but a fill that read `rule` before the revocation is in flight. */
  ghost predicate ReadBeforeRevoke(s: State, n: Node, p: string, rule: Rule) {
    && |s.history| > 0 && RulesOf(Latest(s).repo, p) == [] && s.now == 0 && s.queues == map[]
    && s.fills == map[0 := FromRepo(n, p, Reading([rule], 1, 0), 0, false)]
    && s.revocations == map[1 := Revocation(n, p, Called)]
  }

  lemma LateWrites(cfg: Config, s: State, n: Node, p: string, rule: Rule)
    requires cfg.tiered && ReadBeforeRevoke(s, n, p, rule)
    ensures
      var t := Run(cfg, s, [PublishDeleteL1(1), PublishDeleteL2(1, true), WriteL1(0, true), WriteL2(0, true)]);
      StaleL2BeforeSend(t, n, p, rule)
  {
    hide Step;
    RunFour(cfg, s, PublishDeleteL1(1), PublishDeleteL2(1, true), WriteL1(0, true), WriteL2(0, true));
    DeletesKeepFill(cfg, s, n, p);
    WriteBothTiers(cfg, Step(cfg, Step(cfg, s, PublishDeleteL1(1)), PublishDeleteL2(1, true)), n, p, rule);
  }

  lemma DeletesKeepFill(cfg: Config, s: State, n: Node, p: string)
    requires |s.history| > 0 && s.revocations == map[1 := Revocation(n, p, Called)]
    ensures
      var t := Step(cfg, Step(cfg, s, PublishDeleteL1(1)), PublishDeleteL2(1, true));
      && t.now == s.now && t.history == s.history && t.fills == s.fills && t.queues == s.queues
      && t.revocations == map[1 := Revocation(n, p, L2Deleted)]
  {
    var s1 := Step(cfg, s, PublishDeleteL1(1));
    assert s1.revocations == map[1 := Revocation(n, p, L1Deleted)];
  }

  lemma WriteBothTiers(cfg: Config, s: State, n: Node, p: string, rule: Rule)
    requires cfg.tiered && |s.history| > 0
    requires s.fills == map[0 := FromRepo(n, p, Reading([rule], 1, 0), 0, false)]
    ensures
      var t := Step(cfg, Step(cfg, s, WriteL1(0, true)), WriteL2(0, true));
      && t.now == s.now && t.history == s.history && t.queues == s.queues && t.revocations == s.revocations
      && t.fills == map[] && p in t.l2 && t.l2[p].reading.bundle == [rule]
  {
    var s1 := Step(cfg, s, WriteL1(0, true));
    assert s1.fills == map[0 := FromRepo(n, p, Reading([rule], 1, 0), 0, true)];
  }

  /**
   No stale fill may be in flight at the L2 delete: a repository read from before the
   revocation writes L2 again after the delete, and node `m` picks it up after delivery.
   */
  lemma StaleFillUndoesRevocation(cfg: Config, n: Node, m: Node, p: string, rule: Rule)
    requires cfg.tiered
    ensures
      var acts := [Grant(p, rule), ReadRepo(0, n, p), RevokeAll(p), CallPublish(1, n, p)]
        + [PublishDeleteL1(1), PublishDeleteL2(1, true), WriteL1(0, true), WriteL2(0, true)]
        + [PublishSend(1, {m}), Deliver(m), ReadL2(2, m, p), WriteL1(2, true)];
      DecidesOnRevoked(StateAt(cfg, acts, |acts|), m, p, rule)
  {
    hide Step;
    var a := [Grant(p, rule), ReadRepo(0, n, p), RevokeAll(p), CallPublish(1, n, p)];
    var b := [PublishDeleteL1(1), PublishDeleteL2(1, true), WriteL1(0, true), WriteL2(0, true)];
    var c := [PublishSend(1, {m}), Deliver(m), ReadL2(2, m, p), WriteL1(2, true)];
    RunParts(cfg, a, b, c);
    ReadThenRevoke(cfg, n, p, rule);
    LateWrites(cfg, Run(cfg, INIT, a), n, p, rule);
    DeliveredThenRefilled(cfg, Run(cfg, Run(cfg, INIT, a), b), n, m, p, rule);
  }
}
