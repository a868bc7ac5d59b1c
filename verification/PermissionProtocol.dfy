/**
 The permission cache and revocation protocol as a step system.

 Any number of API nodes each run a PARC handler (authz/engine.go) over a private
 L1 cache and a shared L2 cache (authz/cache/tiered.go), one permission repository
 and a broadcast bus.  A request that misses a cache becomes a `Fill` in flight, so
 every other step may fall between its read and its cache writes.  Every value read
 from the repository carries the repository version and the time it was read.
 */
module PermissionProtocol {
  import opened Parc

  type Node = nat

  /**
   `grantTTL` and `l1TTL` are the positive durations left after defaulting.
   `delay` bounds the time between a fill's read and each of its cache writes.
   `tiered` is false when the handler's cache is a single in-memory one.
   */
  datatype Config = Config(l1TTL: nat, grantTTL: nat, delay: nat, tiered: bool)

  /** A repository content and the time from which it was in force. */
  datatype Version = Version(since: nat, repo: Repo)

  datatype Reading = Reading(bundle: seq<Rule>, ver: nat, readAt: nat)

  datatype Entry = Entry(reading: Reading, expires: nat)

  /** A request between its cache or repository read and its last cache write. */
  datatype Fill =
    | FromL2(node: Node, p: string, reading: Reading, at: nat)
    | FromRepo(node: Node, p: string, reading: Reading, at: nat, l1Done: bool)

  datatype Stage = Called | L1Deleted | L2Deleted | Published

  /** A PublishRevocation call, kept after it returns so that its id is never reused. */
  datatype Revocation = Revocation(node: Node, p: string, stage: Stage)

  datatype Message = Message(p: string, rid: nat)

  /** A PARC decision taken at `node` at time `at` on the bundle in `reading`. */
  datatype Outcome = Outcome(node: Node, p: string, reading: Reading, at: nat)

  datatype State = State(
    now: nat,
    history: seq<Version>,
    l1: map<(Node, string), Entry>,
    l2: map<string, Entry>,
    fills: map<nat, Fill>,
    revocations: map<nat, Revocation>,
    queues: map<Node, seq<Message>>,
    outcomes: seq<Outcome>)

  datatype Action =
    | Tick
    | EvictL1(node: Node, p: string)
    | EvictL2(p: string)
    | Grant(p: string, rule: Rule)
    | RevokeAll(p: string)
    | HitL1(node: Node, p: string)
    | ReadL2(id: nat, node: Node, p: string)
    | ReadRepo(id: nat, node: Node, p: string)
    | WriteL1(id: nat, succeeds: bool)
    | WriteL2(id: nat, succeeds: bool)
    | Abandon(id: nat)
    | CallPublish(rid: nat, node: Node, p: string)
    | PublishDeleteL1(rid: nat)
    | PublishDeleteL2(rid: nat, succeeds: bool)
    | PublishSend(rid: nat, receivers: set<Node>)
    | Deliver(node: Node)

  const INIT := State(0, [Version(0, map[])], map[], map[], map[], map[], map[], [])

  function Min(a: nat, b: nat): nat {
    if a < b then a else b
  }

  function Latest(s: State): Version
    requires |s.history| > 0
  {
    s.history[|s.history| - 1]
  }

  function Queue(s: State, n: Node): seq<Message> {
    if n in s.queues then s.queues[n] else []
  }

  /** A cache may serve an entry up to and including its expiry time. */
  predicate Live(e: Entry, now: nat) {
    now <= e.expires
  }

  // ---- Steps ----

  /** Time passes only while no fill would overrun the configured delay. */
  predicate MayTick(cfg: Config, s: State) {
    forall id :: id in s.fills ==> s.now + 1 <= s.fills[id].at + cfg.delay
  }

  predicate Enabled(cfg: Config, s: State, a: Action) {
    |s.history| > 0 &&
    match a
    case Tick => MayTick(cfg, s)
    case EvictL1(_, _) | EvictL2(_) | Grant(_, _) | RevokeAll(_) => true
    case HitL1(n, p) => (n, p) in s.l1 && Live(s.l1[(n, p)], s.now)
    case ReadL2(id, _, p) => cfg.tiered && id !in s.fills && p in s.l2 && Live(s.l2[p], s.now)
    case ReadRepo(id, _, _) => id !in s.fills
    case WriteL1(id, _) => id in s.fills && (s.fills[id].FromRepo? ==> !s.fills[id].l1Done)
    case WriteL2(id, _) => id in s.fills && s.fills[id].FromRepo? && s.fills[id].l1Done
    case Abandon(id) => id in s.fills
    case CallPublish(rid, _, _) => rid !in s.revocations
    case PublishDeleteL1(rid) => rid in s.revocations && s.revocations[rid].stage == Called
    case PublishDeleteL2(rid, _) => rid in s.revocations && s.revocations[rid].stage == L1Deleted
    case PublishSend(rid, _) => rid in s.revocations && s.revocations[rid].stage == L2Deleted
    case Deliver(n) => Queue(s, n) != []
  }

  function WithRepo(s: State, e: RepoEvent): State
    requires |s.history| > 0
  {
    s.(history := s.history + [Version(s.now, ApplyEvent(Latest(s).repo, e))])
  }

  function Decide(s: State, n: Node, p: string, r: Reading): State {
    s.(outcomes := s.outcomes + [Outcome(n, p, r, s.now)])
  }

  function SetL1(s: State, n: Node, p: string, r: Reading, ttl: nat): State {
    s.(l1 := s.l1[(n, p) := Entry(r, s.now + ttl)])
  }

  function Advance(s: State, rid: nat, stage: Stage): State
    requires rid in s.revocations
  {
    s.(revocations := s.revocations[rid := s.revocations[rid].(stage := stage)])
  }

  /** A failed write leaves the older entry; the handler decides all the same. */
  function AfterWriteL1(cfg: Config, s: State, id: nat, succeeds: bool): (t: State)
    requires id in s.fills
    ensures t.now == s.now && t.history == s.history && t.l2 == s.l2
    ensures t.revocations == s.revocations && t.queues == s.queues
  {
    var f := s.fills[id];
    var ttl := if f.FromL2? then cfg.l1TTL else if cfg.tiered then Min(cfg.l1TTL, cfg.grantTTL) else cfg.grantTTL;
    var s' := if succeeds then SetL1(s, f.node, f.p, f.reading, ttl) else s;
    if f.FromRepo? && cfg.tiered then s'.(fills := s.fills[id := f.(l1Done := true)])
    else Decide(s'.(fills := s.fills - {id}), f.node, f.p, f.reading)
  }

  function AfterWriteL2(cfg: Config, s: State, id: nat, succeeds: bool): (t: State)
    requires id in s.fills
    ensures t.now == s.now && t.history == s.history && t.l1 == s.l1
    ensures t.revocations == s.revocations && t.queues == s.queues
  {
    var f := s.fills[id];
    var l2 := if succeeds then s.l2[f.p := Entry(f.reading, s.now + cfg.grantTTL)] else s.l2;
    Decide(s.(l2 := l2, fills := s.fills - {id}), f.node, f.p, f.reading)
  }

  function Apply(cfg: Config, s: State, a: Action): State
    requires Enabled(cfg, s, a)
  {
    match a
    case Tick => s.(now := s.now + 1)
    case EvictL1(n, p) => s.(l1 := s.l1 - {(n, p)})
    case EvictL2(p) => s.(l2 := s.l2 - {p})
    case Grant(p, rule) => WithRepo(s, Granted(p, rule))
    case RevokeAll(p) => WithRepo(s, RevokedAll(p))
    case HitL1(n, p) => Decide(s, n, p, s.l1[(n, p)].reading)
    case ReadL2(id, n, p) => s.(fills := s.fills[id := FromL2(n, p, s.l2[p].reading, s.now)])
    case ReadRepo(id, n, p) =>
      var r := Reading(RulesOf(Latest(s).repo, p), |s.history| - 1, s.now);
      s.(fills := s.fills[id := FromRepo(n, p, r, s.now, false)])
    case WriteL1(id, succeeds) => AfterWriteL1(cfg, s, id, succeeds)
    case WriteL2(id, succeeds) => AfterWriteL2(cfg, s, id, succeeds)
    case Abandon(id) => s.(fills := s.fills - {id})
    case CallPublish(rid, n, p) => s.(revocations := s.revocations[rid := Revocation(n, p, Called)])
    case PublishDeleteL1(rid) =>
      var rv := s.revocations[rid];
      Advance(s.(l1 := s.l1 - {(rv.node, rv.p)}), rid, L1Deleted)
    case PublishDeleteL2(rid, succeeds) =>
      Advance(if succeeds then s.(l2 := s.l2 - {s.revocations[rid].p}) else s, rid, L2Deleted)
    case PublishSend(rid, receivers) =>
      var msg := Message(s.revocations[rid].p, rid);
      var queues := map n | n in s.queues.Keys + receivers ::
        if n in receivers then Queue(s, n) + [msg] else Queue(s, n);
      Advance(s.(queues := queues), rid, Published)
    case Deliver(n) =>
      var q := Queue(s, n);
      s.(l1 := s.l1 - {(n, q[0].p)}, queues := s.queues[n := q[1..]])
  }

  /** An action that is not enabled leaves the state alone, so every action list is a run. */
  function Step(cfg: Config, s: State, a: Action): State {
    if Enabled(cfg, s, a) then Apply(cfg, s, a) else s
  }

  function StateAt(cfg: Config, acts: seq<Action>, n: nat): State
    requires n <= |acts|
  {
    if n == 0 then INIT else Step(cfg, StateAt(cfg, acts, n - 1), acts[n - 1])
  }

  // ---- Where every reading comes from ----

  /** The repository held `bundle` for `p` at time `t`. */
  ghost predicate HeldAt(history: seq<Version>, p: string, bundle: seq<Rule>, t: nat) {
    exists v :: 0 <= v < |history| && InForce(history, v, t) && bundle == RulesOf(history[v].repo, p)
  }

  predicate InForce(history: seq<Version>, v: nat, t: nat)
    requires v < |history|
  {
    history[v].since <= t && (v + 1 < |history| ==> t <= history[v + 1].since)
  }

  predicate Genuine(s: State, p: string, r: Reading) {
    && r.ver < |s.history|
    && InForce(s.history, r.ver, r.readAt)
    && r.readAt <= s.now
    && r.bundle == RulesOf(s.history[r.ver].repo, p)
  }

  // ---- How old a value may be in each place ----

  function L2Bound(cfg: Config): nat {
    cfg.delay + cfg.grantTTL
  }

  function Bound(cfg: Config): nat {
    if cfg.tiered then cfg.grantTTL + cfg.l1TTL + 2 * cfg.delay else cfg.grantTTL + cfg.delay
  }

  predicate EntryOk(s: State, p: string, e: Entry, bound: nat) {
    Genuine(s, p, e.reading) && e.expires <= e.reading.readAt + bound
  }

  predicate FillOk(cfg: Config, s: State, f: Fill) {
    && Genuine(s, f.p, f.reading)
    && f.at <= s.now <= f.at + cfg.delay
    && match f
       case FromRepo(_, _, r, at, l1Done) => at == r.readAt && (l1Done ==> cfg.tiered)
       case FromL2(_, _, r, at) => cfg.tiered && at <= r.readAt + L2Bound(cfg)
  }

  predicate OutcomeOk(cfg: Config, s: State, o: Outcome) {
    Genuine(s, o.p, o.reading) && o.reading.readAt <= o.at <= s.now && o.at <= o.reading.readAt + Bound(cfg)
  }

  ghost predicate Inv(cfg: Config, s: State) {
    && |s.history| > 0 && Latest(s).since <= s.now
    && (forall k :: k in s.l1 ==> EntryOk(s, k.1, s.l1[k], Bound(cfg)))
    && (forall p :: p in s.l2 ==> EntryOk(s, p, s.l2[p], L2Bound(cfg)))
    && (forall id :: id in s.fills ==> FillOk(cfg, s, s.fills[id]))
    && (forall i :: 0 <= i < |s.outcomes| ==> OutcomeOk(cfg, s, s.outcomes[i]))
  }

  /** A step keeps every version, and a new one starts no earlier than any reading. */
  lemma StepKeepsReading(cfg: Config, s: State, a: Action, p: string, r: Reading)
    requires |s.history| > 0 && Genuine(s, p, r)
    ensures Genuine(Step(cfg, s, a), p, r)
  {
    hide Step;
    HistorySource(cfg, s, a);
    ClockSource(cfg, s, a);
  }

  /** An L1 entry after a step was there before, or one fill in flight wrote it. */
  lemma L1Source(cfg: Config, s: State, a: Action, k: (Node, string))
    requires k in Step(cfg, s, a).l1
    ensures
      var e := Step(cfg, s, a).l1[k];
      || (k in s.l1 && e == s.l1[k])
      || (&& a.WriteL1? && a.succeeds && Enabled(cfg, s, a)
          && var f := s.fills[a.id];
             && k == (f.node, f.p) && e.reading == f.reading
             && e.expires == s.now + (if f.FromL2? then cfg.l1TTL
                                      else if cfg.tiered then Min(cfg.l1TTL, cfg.grantTTL)
                                      else cfg.grantTTL))
  {
    hide AfterWriteL2;
  }

  lemma StepKeepsL1(cfg: Config, s: State, a: Action, k: (Node, string))
    requires Inv(cfg, s) && k in Step(cfg, s, a).l1
    ensures EntryOk(Step(cfg, s, a), k.1, Step(cfg, s, a).l1[k], Bound(cfg))
  {
    hide Step;
    L1Source(cfg, s, a, k);
    if k in s.l1 && Step(cfg, s, a).l1[k] == s.l1[k] {
      StepKeepsReading(cfg, s, a, k.1, s.l1[k].reading);
    } else {
      assert FillOk(cfg, s, s.fills[a.id]);
      StepKeepsReading(cfg, s, a, k.1, s.fills[a.id].reading);
    }
  }

  /** An L2 entry after a step was there before, or a repository read wrote it. */
  lemma L2Source(cfg: Config, s: State, a: Action, p: string)
    requires p in Step(cfg, s, a).l2
    ensures
      var e := Step(cfg, s, a).l2[p];
      || (p in s.l2 && e == s.l2[p])
      || (&& a.WriteL2? && a.succeeds && Enabled(cfg, s, a)
          && s.fills[a.id].p == p && e == Entry(s.fills[a.id].reading, s.now + cfg.grantTTL))
  {
    hide AfterWriteL1;
  }

  lemma StepKeepsL2(cfg: Config, s: State, a: Action, p: string)
    requires Inv(cfg, s) && p in Step(cfg, s, a).l2
    ensures EntryOk(Step(cfg, s, a), p, Step(cfg, s, a).l2[p], L2Bound(cfg))
  {
    hide Step;
    L2Source(cfg, s, a, p);
    if p in s.l2 && Step(cfg, s, a).l2[p] == s.l2[p] {
      StepKeepsReading(cfg, s, a, p, s.l2[p].reading);
    } else {
      assert FillOk(cfg, s, s.fills[a.id]);
      StepKeepsReading(cfg, s, a, p, s.fills[a.id].reading);
    }
  }

  /** A fill after a step was already in flight, or started with this step. */
  lemma FillSource(cfg: Config, s: State, a: Action, id: nat)
    requires id in Step(cfg, s, a).fills
    ensures
      var f := Step(cfg, s, a).fills[id];
      || (id in s.fills && f == s.fills[id])
      || (&& a.WriteL1? && a.id == id && cfg.tiered
          && id in s.fills && s.fills[id].FromRepo? && f == s.fills[id].(l1Done := true))
      || (&& a.ReadRepo? && Enabled(cfg, s, a)
          && f == FromRepo(a.node, a.p, Reading(RulesOf(Latest(s).repo, a.p), |s.history| - 1, s.now), s.now, false))
      || (&& a.ReadL2? && Enabled(cfg, s, a)
          && f == FromL2(a.node, a.p, s.l2[a.p].reading, s.now))
  {
  }

  lemma StepKeepsFill(cfg: Config, s: State, a: Action, id: nat)
    requires Inv(cfg, s) && id in Step(cfg, s, a).fills
    ensures FillOk(cfg, Step(cfg, s, a), Step(cfg, s, a).fills[id])
  {
    hide Step;
    var t := Step(cfg, s, a);
    FillSource(cfg, s, a, id);
    ClockSource(cfg, s, a);
    var f := t.fills[id];
    if id in s.fills && f.reading == s.fills[id].reading && f.p == s.fills[id].p {
      assert FillOk(cfg, s, s.fills[id]);
    } else if a.ReadL2? {
      assert EntryOk(s, a.p, s.l2[a.p], L2Bound(cfg));
    }
    StepKeepsReading(cfg, s, a, f.p, f.reading);
  }

  /** A step takes at most one decision, on an L1 entry or on a fill's own reading. */
  lemma OutcomeSource(cfg: Config, s: State, a: Action)
    ensures
      var t := Step(cfg, s, a);
      || t.outcomes == s.outcomes
      || (&& a.HitL1? && Enabled(cfg, s, a)
          && t.outcomes == s.outcomes + [Outcome(a.node, a.p, s.l1[(a.node, a.p)].reading, s.now)])
      || (&& (a.WriteL1? || a.WriteL2?) && Enabled(cfg, s, a)
          && var f := s.fills[a.id];
             t.outcomes == s.outcomes + [Outcome(f.node, f.p, f.reading, s.now)])
  {
  }

  lemma StepKeepsOutcome(cfg: Config, s: State, a: Action, i: nat)
    requires Inv(cfg, s) && i < |Step(cfg, s, a).outcomes|
    ensures OutcomeOk(cfg, Step(cfg, s, a), Step(cfg, s, a).outcomes[i])
  {
    hide Step;
    OutcomeSource(cfg, s, a);
    ClockSource(cfg, s, a);
    var o := Step(cfg, s, a).outcomes[i];
    if i < |s.outcomes| {
      assert OutcomeOk(cfg, s, s.outcomes[i]);
    } else if a.WriteL1? || a.WriteL2? {
      assert FillOk(cfg, s, s.fills[a.id]);
    } else {
      assert EntryOk(s, a.p, s.l1[(a.node, a.p)], Bound(cfg));
    }
    StepKeepsReading(cfg, s, a, o.p, o.reading);
  }

  /** Only an enabled tick moves the clock, by one. */
  lemma ClockSource(cfg: Config, s: State, a: Action)
    ensures Step(cfg, s, a).now == if a.Tick? && Enabled(cfg, s, a) then s.now + 1 else s.now
  {
    hide AfterWriteL1, AfterWriteL2;
  }

  /** A node's queue loses its head by delivery or gains the message of one publication. */
  lemma QueueSource(cfg: Config, s: State, a: Action, n: Node)
    ensures
      var t := Step(cfg, s, a);
      || Queue(t, n) == Queue(s, n)
      || (Queue(s, n) != [] && Queue(t, n) == Queue(s, n)[1..])
      || (&& a.PublishSend? && a.rid in s.revocations
          && IsPublished(t, a.rid)
          && Queue(t, n) == Queue(s, n) + [Message(s.revocations[a.rid].p, a.rid)])
  {
    hide AfterWriteL1, AfterWriteL2;
  }

  predicate IsPublished(s: State, rid: nat) {
    rid in s.revocations && s.revocations[rid].stage == Published
  }

  /** Only grants and revocations change the repository, each adding one version. */
  lemma HistorySource(cfg: Config, s: State, a: Action)
    requires |s.history| > 0
    ensures
      Step(cfg, s, a).history ==
      if a.Grant? then s.history + [Version(s.now, ApplyEvent(Latest(s).repo, Granted(a.p, a.rule)))]
      else if a.RevokeAll? then s.history + [Version(s.now, ApplyEvent(Latest(s).repo, RevokedAll(a.p)))]
      else s.history
  {
    hide AfterWriteL1, AfterWriteL2;
  }

  /** A publication keeps its principal, and once published stays published. */
  lemma RevocationSource(cfg: Config, s: State, a: Action, rid: nat)
    requires rid in s.revocations
    ensures rid in Step(cfg, s, a).revocations
    ensures Step(cfg, s, a).revocations[rid].p == s.revocations[rid].p
    ensures s.revocations[rid].stage == Published ==> Step(cfg, s, a).revocations[rid].stage == Published
  {
    hide AfterWriteL1, AfterWriteL2;
  }

  lemma StepKeepsInv(cfg: Config, s: State, a: Action)
    requires Inv(cfg, s)
    ensures Inv(cfg, Step(cfg, s, a))
  {
    hide Step;
    var t := Step(cfg, s, a);
    ClockSource(cfg, s, a);
    HistorySource(cfg, s, a);
    forall k | k in t.l1 ensures EntryOk(t, k.1, t.l1[k], Bound(cfg)) { StepKeepsL1(cfg, s, a, k); }
    forall p | p in t.l2 ensures EntryOk(t, p, t.l2[p], L2Bound(cfg)) { StepKeepsL2(cfg, s, a, p); }
    forall id | id in t.fills ensures FillOk(cfg, t, t.fills[id]) { StepKeepsFill(cfg, s, a, id); }
    forall i | 0 <= i < |t.outcomes| ensures OutcomeOk(cfg, t, t.outcomes[i]) { StepKeepsOutcome(cfg, s, a, i); }
  }

  lemma {:induction false} RunInv(cfg: Config, acts: seq<Action>, n: nat)
    requires n <= |acts|
    ensures Inv(cfg, StateAt(cfg, acts, n))
  {
    hide Step;
    if n == 0 {
    } else {
      RunInv(cfg, acts, n - 1);
      StepKeepsInv(cfg, StateAt(cfg, acts, n - 1), acts[n - 1]);
    }
  }

  /**
   In every run, with any evictions and interleaving, each decision uses a bundle the
   repository held at some instant no later than the decision and at most `Bound(cfg)` before it.
   */
  lemma BoundedStaleness(cfg: Config, acts: seq<Action>, i: nat)
    requires i < |StateAt(cfg, acts, |acts|).outcomes|
    ensures
      var s := StateAt(cfg, acts, |acts|);
      var o := s.outcomes[i];
      && HeldAt(s.history, o.p, o.reading.bundle, o.reading.readAt)
      && o.reading.readAt <= o.at <= o.reading.readAt + Bound(cfg)
  {
    hide Step;
    RunInv(cfg, acts, |acts|);
    assert OutcomeOk(cfg, StateAt(cfg, acts, |acts|), StateAt(cfg, acts, |acts|).outcomes[i]);
  }
}
