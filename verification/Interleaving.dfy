/**
 Many handlers, publications and listeners at once, one store or bus operation at a time
 (authz/engine.go, authz/cache/tiered.go, authz/cache/memory.go).  Every interleaving of these
 operations is a run of the permission protocol, so what holds of its runs holds here.
 */
module Interleaving {
  import opened Options
  import opened Parc
  import opened PermissionProtocol
  import opened TieredCache
  import Runs = ProtocolRuns
  import Bus = RevocationBus
  import Convergence = RevocationConvergence

  /** How far a Handle call has come. */
  datatype Pc =
    | BeforeL1
    | MissedL1
    | FoundInL2(reading: Reading, at: nat)
    | MissedAll
    | FetchedFromRepo(reading: Reading, at: nat)
    | WroteL1(reading: Reading, at: nat)

  datatype Call = Call(node: Node, p: string, pc: Pc)

  /** The stores, the calls under way, the bus, and what the repository and the outside have seen. */
  datatype World = World(
    now: nat,
    history: seq<Version>,
    l1: map<Node, Items>,
    l2: Items,
    calls: map<nat, Call>,
    revocations: map<nat, Revocation>,
    bus: Bus.State,
    outcomes: seq<Outcome>)

  datatype Op =
    | Tick
    | LoseL1(node: Node, p: string)
    | LoseL2(p: string)
    | Grant(p: string, rule: Rule)
    | RevokeAll(p: string)
    | Begin(id: nat, node: Node, p: string)
    | Proceed(id: nat, succeeds: bool)
    | GiveUp(id: nat)
    | CallPublish(rid: nat, node: Node, p: string)
    | DeleteL1(rid: nat)
    | DeleteL2(rid: nat, succeeds: bool)
    | Send(rid: nat)
    | Listen(node: Node)
    | BusOp(op: Bus.Op)

  /** The channel each node's listener reads. */
  type Channels = map<Node, nat>

  function L1Of(l1: map<Node, Items>, n: Node): Items {
    if n in l1 then l1[n] else map[]
  }

  predicate InFlight(pc: Pc) {
    pc.FoundInL2? || pc.FetchedFromRepo? || pc.WroteL1?
  }

  // ---- One operation ----

  function SetL1(w: World, n: Node, p: string, r: Reading, ttl: nat, succeeds: bool): World {
    if succeeds then w.(l1 := w.l1[n := L1Of(w.l1, n)[KeyOf(p) := Item(r, Some(w.now + ttl))]]) else w
  }

  function Finish(w: World, id: nat, n: Node, p: string, r: Reading): World {
    w.(calls := w.calls - {id}, outcomes := w.outcomes + [Outcome(n, p, r, w.now)])
  }

  function Move(w: World, id: nat, c: Call, pc: Pc): World {
    w.(calls := w.calls[id := c.(pc := pc)])
  }

  /** The next store or repository operation of call `id`. */
  function ProceedCall(cfg: Config, w: World, id: nat, succeeds: bool): World
    requires id in w.calls && |w.history| > 0
  {
    var c := w.calls[id];
    match c.pc
    case BeforeL1 =>
      (match Lookup(L1Of(w.l1, c.node), KeyOf(c.p), w.now)
       case Some(r) => Finish(w, id, c.node, c.p, r)
       case None => Move(w, id, c, if cfg.tiered then MissedL1 else MissedAll))
    case MissedL1 =>
      (match Lookup(w.l2, KeyOf(c.p), w.now)
       case Some(r) => Move(w, id, c, FoundInL2(r, w.now))
       case None => Move(w, id, c, MissedAll))
    case FoundInL2(r, _) => Finish(SetL1(w, c.node, c.p, r, cfg.l1TTL, succeeds), id, c.node, c.p, r)
    case MissedAll =>
      var r := Reading(RulesOf(w.history[|w.history| - 1].repo, c.p), |w.history| - 1, w.now);
      Move(w, id, c, FetchedFromRepo(r, w.now))
    case FetchedFromRepo(r, at) =>
      if cfg.tiered
      then Move(SetL1(w, c.node, c.p, r, Min(cfg.l1TTL, cfg.grantTTL), succeeds), id, c, WroteL1(r, at))
      else Finish(SetL1(w, c.node, c.p, r, cfg.grantTTL, succeeds), id, c.node, c.p, r)
    case WroteL1(r, _) =>
      var l2 := if succeeds then w.l2[KeyOf(c.p) := Item(r, Some(w.now + cfg.grantTTL))] else w.l2;
      Finish(w.(l2 := l2), id, c.node, c.p, r)
  }

  predicate MayTick(cfg: Config, w: World) {
    forall id :: id in w.calls && InFlight(w.calls[id].pc) ==> w.now + 1 <= w.calls[id].pc.at + cfg.delay
  }

  predicate AtStage(w: World, rid: nat, stage: Stage) {
    rid in w.revocations && w.revocations[rid].stage == stage
  }

  predicate HasMessage(chans: Channels, w: World, n: Node) {
    n in chans && chans[n] < |w.bus.chans| && w.bus.chans[chans[n]].buffer != []
  }

  /** Other uses of the bus: not a publication, and not reading a listener's channel. */
  predicate IsForeign(chans: Channels, op: Bus.Op) {
    !op.Publish? && (op.Receive? ==> op.ch !in chans.Values)
  }

  predicate Enabled(cfg: Config, chans: Channels, w: World, a: Op) {
    |w.history| > 0 &&
    match a
    case Tick => MayTick(cfg, w)
    case LoseL1(_, _) | LoseL2(_) | Grant(_, _) | RevokeAll(_) => true
    case Begin(id, _, _) => id !in w.calls
    case Proceed(id, _) => id in w.calls
    case GiveUp(id) => id in w.calls
    case CallPublish(rid, _, _) => rid !in w.revocations
    case DeleteL1(rid) => AtStage(w, rid, Called)
    case DeleteL2(rid, _) => AtStage(w, rid, L1Deleted)
    case Send(rid) => AtStage(w, rid, L2Deleted) && Bus.Step(w.bus, Bus.Publish(w.revocations[rid].p)).Some?
    case Listen(n) => HasMessage(chans, w, n)
    case BusOp(op) => IsForeign(chans, op) && Bus.Step(w.bus, op).Some?
  }

  function DropL1(w: World, n: Node, p: string): World {
    w.(l1 := w.l1[n := L1Of(w.l1, n) - {KeyOf(p)}])
  }

  function WithEvent(w: World, e: RepoEvent): World
    requires |w.history| > 0
  {
    w.(history := w.history + [Version(w.now, ApplyEvent(w.history[|w.history| - 1].repo, e))])
  }

  function Reach(w: World, rid: nat, stage: Stage): World
    requires rid in w.revocations
  {
    w.(revocations := w.revocations[rid := w.revocations[rid].(stage := stage)])
  }

  function Apply(cfg: Config, chans: Channels, w: World, a: Op): World
    requires Enabled(cfg, chans, w, a)
  {
    match a
    case Tick => w.(now := w.now + 1)
    case LoseL1(n, p) => DropL1(w, n, p)
    case LoseL2(p) => w.(l2 := w.l2 - {KeyOf(p)})
    case Grant(p, rule) => WithEvent(w, Granted(p, rule))
    case RevokeAll(p) => WithEvent(w, RevokedAll(p))
    case Begin(id, n, p) => w.(calls := w.calls[id := Call(n, p, BeforeL1)])
    case Proceed(id, succeeds) => ProceedCall(cfg, w, id, succeeds)
    case GiveUp(id) => w.(calls := w.calls - {id})
    case CallPublish(rid, n, p) => w.(revocations := w.revocations[rid := Revocation(n, p, Called)])
    case DeleteL1(rid) => Reach(DropL1(w, w.revocations[rid].node, w.revocations[rid].p), rid, L1Deleted)
    case DeleteL2(rid, succeeds) =>
      Reach(if succeeds then w.(l2 := w.l2 - {KeyOf(w.revocations[rid].p)}) else w, rid, L2Deleted)
    case Send(rid) =>
      Reach(w.(bus := Bus.Step(w.bus, Bus.Publish(w.revocations[rid].p)).value), rid, Published)
    case Listen(n) =>
      var ch := chans[n];
      DropL1(w, n, w.bus.chans[ch].buffer[0]).(bus := Bus.Step(w.bus, Bus.Receive(ch)).value)
    case BusOp(op) => w.(bus := Bus.Step(w.bus, op).value)
  }

  function Next(cfg: Config, chans: Channels, w: World, a: Op): World {
    if Enabled(cfg, chans, w, a) then Apply(cfg, chans, w, a) else w
  }

  /** The bus after `k` listeners have subscribed. */
  function Listening(k: nat): (bus: Bus.State)
    ensures |bus.chans| == k && Bus.Safe(bus)
    ensures forall i :: 0 <= i < k ==> bus.chans[i].buffer == []
  {
    if k == 0 then Bus.INIT else Bus.Step(Listening(k - 1), Bus.Subscribe).value
  }

  /** Listeners subscribe, one channel each, before anything else happens. */
  function Start(listeners: nat): World {
    World(0, [Version(0, map[])], map[], map[], map[], map[], Listening(listeners), [])
  }

  predicate OneChannelEach(chans: Channels, listeners: nat) {
    && (forall n :: n in chans ==> chans[n] < listeners)
    && (forall n, m :: n in chans && m in chans && n != m ==> chans[n] != chans[m])
  }

  function WorldAt(cfg: Config, chans: Channels, listeners: nat, ops: seq<Op>, i: nat): World
    requires i <= |ops|
  {
    if i == 0 then Start(listeners) else Next(cfg, chans, WorldAt(cfg, chans, listeners, ops, i - 1), ops[i - 1])
  }

  // ---- The protocol state a world stands for ----

  function ItemAt(items: Items, key: string): Option<Item> {
    if key in items then Some(items[key]) else None
  }

  function AsItem(e: Entry): Item {
    Item(e.reading, Some(e.expires))
  }

  function L1Entry(s: State, n: Node, p: string): Option<Entry> {
    if (n, p) in s.l1 then Some(s.l1[(n, p)]) else None
  }

  function L2Entry(s: State, p: string): Option<Entry> {
    if p in s.l2 then Some(s.l2[p]) else None
  }

  predicate Holding(items: Items, key: string, e: Option<Entry>) {
    ItemAt(items, key) == if e.Some? then Some(AsItem(e.value)) else None
  }

  ghost predicate L1Match(l1: map<Node, Items>, s: State) {
    forall n, p :: Holding(L1Of(l1, n), KeyOf(p), L1Entry(s, n, p))
  }

  ghost predicate L2Match(l2: Items, s: State) {
    forall p :: Holding(l2, KeyOf(p), L2Entry(s, p))
  }

  function FillOf(c: Call): Fill
    requires InFlight(c.pc)
  {
    match c.pc
    case FoundInL2(r, at) => FromL2(c.node, c.p, r, at)
    case FetchedFromRepo(r, at) => FromRepo(c.node, c.p, r, at, false)
    case WroteL1(r, at) => FromRepo(c.node, c.p, r, at, true)
  }

  ghost predicate FillsMatch(calls: map<nat, Call>, fills: map<nat, Fill>) {
    && (forall id :: id in fills <==> id in calls && InFlight(calls[id].pc))
    && (forall id :: id in fills ==> fills[id] == FillOf(calls[id]))
  }

  function Principals(q: seq<Message>): seq<string> {
    seq(|q|, i requires 0 <= i < |q| => q[i].p)
  }

  function Buffer(chans: Channels, bus: Bus.State, n: Node): seq<string> {
    if n in chans && chans[n] < |bus.chans| then bus.chans[chans[n]].buffer else []
  }

  ghost predicate QueuesMatch(chans: Channels, bus: Bus.State, s: State) {
    forall n :: Principals(Queue(s, n)) == Buffer(chans, bus, n)
  }

  ghost predicate Related(chans: Channels, w: World, s: State) {
    && |w.history| > 0
    && s.now == w.now && s.history == w.history && s.revocations == w.revocations && s.outcomes == w.outcomes
    && L1Match(w.l1, s) && L2Match(w.l2, s) && FillsMatch(w.calls, s.fills)
    && QueuesMatch(chans, w.bus, s) && Bus.Safe(w.bus)
    && forall n :: n in chans ==> chans[n] < |w.bus.chans|
  }

  // ---- The protocol action of each operation ----

  /** Registered listeners whose buffer has room. */
  function Receivers(chans: Channels, bus: Bus.State): set<Node> {
    set n | n in chans && chans[n] in bus.subscribers && !Bus.FullIn(bus, chans[n])
  }

  /** The protocol's name for the next operation of call `id`; none for a cache miss. */
  function ProceedAction(cfg: Config, w: World, id: nat, succeeds: bool): seq<Action>
    requires id in w.calls
  {
    var c := w.calls[id];
    match c.pc
    case BeforeL1 =>
      if Lookup(L1Of(w.l1, c.node), KeyOf(c.p), w.now).Some? then [HitL1(c.node, c.p)] else []
    case MissedL1 => if Lookup(w.l2, KeyOf(c.p), w.now).Some? then [ReadL2(id, c.node, c.p)] else []
    case FoundInL2(_, _) => [WriteL1(id, succeeds)]
    case MissedAll => [ReadRepo(id, c.node, c.p)]
    case FetchedFromRepo(_, _) => [WriteL1(id, succeeds)]
    case WroteL1(_, _) => [WriteL2(id, succeeds)]
  }

  function ActionsOf(cfg: Config, chans: Channels, w: World, a: Op): seq<Action> {
    if !Enabled(cfg, chans, w, a) then []
    else
      match a
      case Tick => [PermissionProtocol.Tick]
      case LoseL1(n, p) => [EvictL1(n, p)]
      case LoseL2(p) => [EvictL2(p)]
      case Grant(p, rule) => [PermissionProtocol.Grant(p, rule)]
      case RevokeAll(p) => [PermissionProtocol.RevokeAll(p)]
      case Begin(_, _, _) => []
      case Proceed(id, succeeds) => ProceedAction(cfg, w, id, succeeds)
      case GiveUp(id) => if InFlight(w.calls[id].pc) then [Abandon(id)] else []
      case CallPublish(rid, n, p) => [PermissionProtocol.CallPublish(rid, n, p)]
      case DeleteL1(rid) => [PublishDeleteL1(rid)]
      case DeleteL2(rid, succeeds) => [PublishDeleteL2(rid, succeeds)]
      case Send(rid) => [PublishSend(rid, Receivers(chans, w.bus))]
      case Listen(n) => [Deliver(n)]
      case BusOp(_) => []
  }

  function ProtocolRun(cfg: Config, chans: Channels, listeners: nat, ops: seq<Op>, i: nat): seq<Action>
    requires i <= |ops|
  {
    if i == 0 then []
    else
      ProtocolRun(cfg, chans, listeners, ops, i - 1) +
      ActionsOf(cfg, chans, WorldAt(cfg, chans, listeners, ops, i - 1), ops[i - 1])
  }

  // ---- Stores and entries change together ----

  lemma StoreAnswers(items: Items, key: string, e: Option<Entry>, now: nat)
    requires Holding(items, key, e)
    ensures Lookup(items, key, now) == if e.Some? && Live(e.value, now) then Some(e.value.reading) else None
  {
  }

  lemma L1SetMatches(l1: map<Node, Items>, s: State, t: State, n: Node, p: string, e: Entry)
    requires L1Match(l1, s) && t.l1 == s.l1[(n, p) := e]
    ensures L1Match(l1[n := L1Of(l1, n)[KeyOf(p) := AsItem(e)]], t)
  {
    hide KeyOf;
    var l1' := l1[n := L1Of(l1, n)[KeyOf(p) := AsItem(e)]];
    forall m, q
      ensures Holding(L1Of(l1', m), KeyOf(q), L1Entry(t, m, q))
    {
      assert Holding(L1Of(l1, m), KeyOf(q), L1Entry(s, m, q));
      if KeyOf(q) == KeyOf(p) {
        KeyOfIsInjective(q, p);
      }
    }
  }

  lemma L1DropMatches(l1: map<Node, Items>, s: State, t: State, n: Node, p: string)
    requires L1Match(l1, s) && t.l1 == s.l1 - {(n, p)}
    ensures L1Match(l1[n := L1Of(l1, n) - {KeyOf(p)}], t)
  {
    hide KeyOf;
    var l1' := l1[n := L1Of(l1, n) - {KeyOf(p)}];
    forall m, q
      ensures Holding(L1Of(l1', m), KeyOf(q), L1Entry(t, m, q))
    {
      assert Holding(L1Of(l1, m), KeyOf(q), L1Entry(s, m, q));
      if KeyOf(q) == KeyOf(p) {
        KeyOfIsInjective(q, p);
      }
    }
  }

  lemma L2SetMatches(l2: Items, s: State, t: State, p: string, e: Entry)
    requires L2Match(l2, s) && t.l2 == s.l2[p := e]
    ensures L2Match(l2[KeyOf(p) := AsItem(e)], t)
  {
    hide KeyOf;
    forall q
      ensures Holding(l2[KeyOf(p) := AsItem(e)], KeyOf(q), L2Entry(t, q))
    {
      assert Holding(l2, KeyOf(q), L2Entry(s, q));
      if KeyOf(q) == KeyOf(p) {
        KeyOfIsInjective(q, p);
      }
    }
  }

  lemma L2DropMatches(l2: Items, s: State, t: State, p: string)
    requires L2Match(l2, s) && t.l2 == s.l2 - {p}
    ensures L2Match(l2 - {KeyOf(p)}, t)
  {
    hide KeyOf;
    forall q
      ensures Holding(l2 - {KeyOf(p)}, KeyOf(q), L2Entry(t, q))
    {
      assert Holding(l2, KeyOf(q), L2Entry(s, q));
      if KeyOf(q) == KeyOf(p) {
        KeyOfIsInjective(q, p);
      }
    }
  }

  /** Unchanged parts stay matched. */
  lemma CachesKept(w: World, s: State, t: State)
    requires L1Match(w.l1, s) && L2Match(w.l2, s)
    ensures t.l1 == s.l1 ==> L1Match(w.l1, t)
    ensures t.l2 == s.l2 ==> L2Match(w.l2, t)
  {
    hide KeyOf, Holding;
    if t.l1 == s.l1 {
      forall n, p
        ensures Holding(L1Of(w.l1, n), KeyOf(p), L1Entry(t, n, p))
      {
        assert Holding(L1Of(w.l1, n), KeyOf(p), L1Entry(s, n, p)) && L1Entry(t, n, p) == L1Entry(s, n, p);
      }
    }
    if t.l2 == s.l2 {
      forall p
        ensures Holding(w.l2, KeyOf(p), L2Entry(t, p))
      {
        assert Holding(w.l2, KeyOf(p), L2Entry(s, p)) && L2Entry(t, p) == L2Entry(s, p);
      }
    }
  }

  // ---- The bus and the queues change together ----

  lemma QueuesKept(chans: Channels, bus: Bus.State, s: State, t: State)
    requires QueuesMatch(chans, bus, s) && t.queues == s.queues
    ensures QueuesMatch(chans, bus, t)
  {
    forall n
      ensures Principals(Queue(t, n)) == Buffer(chans, bus, n)
    {
      assert Queue(t, n) == Queue(s, n);
    }
  }

  /** A publication fills exactly the buffers of the registered listeners with room. */
  lemma PublishMatches(cfg: Config, chans: Channels, bus: Bus.State, s: State, rid: nat)
    requires QueuesMatch(chans, bus, s) && Bus.Safe(bus) && |s.history| > 0
    requires rid in s.revocations && s.revocations[rid].stage == L2Deleted
    requires forall n :: n in chans ==> chans[n] < |bus.chans|
    ensures Bus.Step(bus, Bus.Publish(s.revocations[rid].p)).Some?
    ensures
      var bus' := Bus.Step(bus, Bus.Publish(s.revocations[rid].p)).value;
      && QueuesMatch(chans, bus', Step(cfg, s, PublishSend(rid, Receivers(chans, bus))))
      && Bus.Safe(bus') && |bus'.chans| == |bus.chans|
  {
    hide Step;
    var p, receivers := s.revocations[rid].p, Receivers(chans, bus);
    var t := Step(cfg, s, PublishSend(rid, receivers));
    Bus.StepIsSafe(bus, Bus.Publish(p));
    var bus' := Bus.Step(bus, Bus.Publish(p)).value;
    forall n
      ensures Principals(Queue(t, n)) == Buffer(chans, bus', n)
    {
      SendQueue(cfg, s, rid, receivers, n);
      assert Principals(Queue(s, n)) == Buffer(chans, bus, n);
      if n in receivers {
        assert Principals(Queue(s, n) + [Message(p, rid)]) == Principals(Queue(s, n)) + [p];
      }
    }
  }

  lemma SendQueue(cfg: Config, s: State, rid: nat, receivers: set<Node>, n: Node)
    requires |s.history| > 0 && rid in s.revocations && s.revocations[rid].stage == L2Deleted
    ensures
      Queue(Step(cfg, s, PublishSend(rid, receivers)), n) ==
      if n in receivers then Queue(s, n) + [Message(s.revocations[rid].p, rid)] else Queue(s, n)
  {
  }

  /** A listener turn takes the head of its own channel. */
  lemma ListenMatches(cfg: Config, chans: Channels, bus: Bus.State, s: State, n: Node)
    requires QueuesMatch(chans, bus, s) && Bus.Safe(bus) && |s.history| > 0
    requires n in chans && chans[n] < |bus.chans| && bus.chans[chans[n]].buffer != []
    requires forall m :: m in chans && m != n ==> chans[m] != chans[n]
    ensures Queue(s, n) != [] && Queue(s, n)[0].p == bus.chans[chans[n]].buffer[0]
    ensures
      var bus' := Bus.Step(bus, Bus.Receive(chans[n])).value;
      QueuesMatch(chans, bus', Step(cfg, s, Deliver(n))) && Bus.Safe(bus') && |bus'.chans| == |bus.chans|
  {
    assert Principals(Queue(s, n)) == Buffer(chans, bus, n);
    assert |Principals(Queue(s, n))| == |Queue(s, n)|;
    assert Principals(Queue(s, n))[0] == Queue(s, n)[0].p;
    var t := Step(cfg, s, Deliver(n));
    var bus' := Bus.Step(bus, Bus.Receive(chans[n])).value;
    Bus.StepIsSafe(bus, Bus.Receive(chans[n]));
    forall m
      ensures Principals(Queue(t, m)) == Buffer(chans, bus', m)
    {
      assert Principals(Queue(s, m)) == Buffer(chans, bus, m);
      if m == n {
        assert Principals(Queue(s, n)[1..]) == Principals(Queue(s, n))[1..];
      }
    }
  }

  lemma ForeignKeepsBuffers(chans: Channels, bus: Bus.State, op: Bus.Op, s: State)
    requires QueuesMatch(chans, bus, s) && Bus.Safe(bus) && IsForeign(chans, op)
    requires forall n :: n in chans ==> chans[n] < |bus.chans|
    ensures Bus.Step(bus, op).Some?
    ensures
      var bus' := Bus.Step(bus, op).value;
      QueuesMatch(chans, bus', s) && Bus.Safe(bus') && |bus.chans| <= |bus'.chans|
  {
    hide Principals, Queue;
    Bus.StepIsSafe(bus, op);
    var bus' := Bus.Step(bus, op).value;
    forall n
      ensures Buffer(chans, bus', n) == Buffer(chans, bus, n)
    {
      assert n in chans ==> chans[n] in chans.Values;
    }
  }

  // ---- One operation is at most one protocol step ----

  lemma FillAt(calls: map<nat, Call>, fills: map<nat, Fill>, id: nat)
    requires FillsMatch(calls, fills) && id in calls
    ensures id in fills <==> InFlight(calls[id].pc)
    ensures id in fills ==> fills[id] == FillOf(calls[id])
  {
  }

  lemma CallsKept(calls: map<nat, Call>, fills: map<nat, Fill>, id: nat, c: Call)
    requires FillsMatch(calls, fills) && !InFlight(c.pc) && (id in calls ==> !InFlight(calls[id].pc))
    ensures FillsMatch(calls[id := c], fills)
  {
  }

  lemma CallTakesOff(calls: map<nat, Call>, fills: map<nat, Fill>, id: nat, c: Call)
    requires FillsMatch(calls, fills) && InFlight(c.pc)
    ensures FillsMatch(calls[id := c], fills[id := FillOf(c)])
  {
  }

  lemma CallEnds(calls: map<nat, Call>, fills: map<nat, Fill>, id: nat)
    requires FillsMatch(calls, fills)
    ensures FillsMatch(calls - {id}, fills - {id})
    ensures id !in fills ==> FillsMatch(calls - {id}, fills)
  {
  }

  /** A cache hit or miss in L1. */
  lemma BeforeL1Simulates(cfg: Config, chans: Channels, w: World, s: State, id: nat, succeeds: bool)
    requires Related(chans, w, s) && id in w.calls && w.calls[id].pc.BeforeL1?
    ensures Related(chans, ProceedCall(cfg, w, id, succeeds), Runs.Run(cfg, s, ProceedAction(cfg, w, id, succeeds)))
  {
    hide KeyOf, Lookup, Bus.Safe, L1Match, L2Match, QueuesMatch, FillsMatch;
    var c := w.calls[id];
    HoldingAt(w, s, c.node, c.p);
    StoreAnswers(L1Of(w.l1, c.node), KeyOf(c.p), L1Entry(s, c.node, c.p), w.now);
    if Lookup(L1Of(w.l1, c.node), KeyOf(c.p), w.now).Some? {
      Runs.RunOne(cfg, s, HitL1(c.node, c.p));
      var t := Step(cfg, s, HitL1(c.node, c.p));
      CachesKept(w, s, t);
      QueuesKept(chans, w.bus, s, t);
      FillAt(w.calls, s.fills, id);
      CallEnds(w.calls, s.fills, id);
    } else {
      CallsKept(w.calls, s.fills, id, c.(pc := if cfg.tiered then MissedL1 else MissedAll));
    }
  }

  lemma HoldingAt(w: World, s: State, n: Node, p: string)
    requires L1Match(w.l1, s) && L2Match(w.l2, s)
    ensures Holding(L1Of(w.l1, n), KeyOf(p), L1Entry(s, n, p)) && Holding(w.l2, KeyOf(p), L2Entry(s, p))
  {
  }

  lemma MissedL1Simulates(cfg: Config, chans: Channels, w: World, s: State, id: nat, succeeds: bool)
    requires Related(chans, w, s) && id in w.calls && w.calls[id].pc.MissedL1? && cfg.tiered
    ensures Related(chans, ProceedCall(cfg, w, id, succeeds), Runs.Run(cfg, s, ProceedAction(cfg, w, id, succeeds)))
  {
    hide KeyOf, Lookup, Bus.Safe, L1Match, L2Match, QueuesMatch, FillsMatch;
    var c := w.calls[id];
    HoldingAt(w, s, c.node, c.p);
    StoreAnswers(w.l2, KeyOf(c.p), L2Entry(s, c.p), w.now);
    if Lookup(w.l2, KeyOf(c.p), w.now).Some? {
      FillAt(w.calls, s.fills, id);
      Runs.RunOne(cfg, s, ReadL2(id, c.node, c.p));
      var t := Step(cfg, s, ReadL2(id, c.node, c.p));
      CachesKept(w, s, t);
      QueuesKept(chans, w.bus, s, t);
      CallTakesOff(w.calls, s.fills, id, c.(pc := FoundInL2(s.l2[c.p].reading, w.now)));
    } else {
      CallsKept(w.calls, s.fills, id, c.(pc := MissedAll));
    }
  }

  lemma MissedAllSimulates(cfg: Config, chans: Channels, w: World, s: State, id: nat, succeeds: bool)
    requires Related(chans, w, s) && id in w.calls && w.calls[id].pc.MissedAll?
    ensures Related(chans, ProceedCall(cfg, w, id, succeeds), Runs.Run(cfg, s, ProceedAction(cfg, w, id, succeeds)))
  {
    hide KeyOf, Lookup, Bus.Safe, L1Match, L2Match, QueuesMatch, FillsMatch;
    var c := w.calls[id];
    FillAt(w.calls, s.fills, id);
    Runs.RunOne(cfg, s, ReadRepo(id, c.node, c.p));
    var t := Step(cfg, s, ReadRepo(id, c.node, c.p));
    CachesKept(w, s, t);
    QueuesKept(chans, w.bus, s, t);
    var r := Reading(RulesOf(w.history[|w.history| - 1].repo, c.p), |w.history| - 1, w.now);
    CallTakesOff(w.calls, s.fills, id, c.(pc := FetchedFromRepo(r, w.now)));
  }

  /** What the L1 write of a fill in flight does. */
  lemma WriteL1Step(cfg: Config, s: State, id: nat, succeeds: bool)
    requires |s.history| > 0 && id in s.fills && (s.fills[id].FromRepo? ==> !s.fills[id].l1Done)
    ensures Step(cfg, s, WriteL1(id, succeeds)) == AfterWriteL1(cfg, s, id, succeeds)
  {
    hide AfterWriteL1;
  }

  /** The stores after the L1 write of a call match the entries after that of its fill. */
  lemma L1WriteMatches(cfg: Config, w: World, s: State, id: nat, r: Reading, ttl: nat, succeeds: bool)
    requires L1Match(w.l1, s) && L2Match(w.l2, s) && id in w.calls && id in s.fills && s.now == w.now
    requires s.fills[id].node == w.calls[id].node && s.fills[id].p == w.calls[id].p && s.fills[id].reading == r
    requires ttl ==
      if s.fills[id].FromL2? then cfg.l1TTL else if cfg.tiered then Min(cfg.l1TTL, cfg.grantTTL) else cfg.grantTTL
    ensures
      var w', t := SetL1(w, w.calls[id].node, w.calls[id].p, r, ttl, succeeds), AfterWriteL1(cfg, s, id, succeeds);
      L1Match(w'.l1, t) && L2Match(w'.l2, t)
  {
    hide KeyOf, L1Match, L2Match;
    var t := AfterWriteL1(cfg, s, id, succeeds);
    CachesKept(w, s, t);
    if succeeds {
      L1SetMatches(w.l1, s, t, w.calls[id].node, w.calls[id].p, Entry(r, w.now + ttl));
    }
  }

  lemma FoundInL2Simulates(cfg: Config, chans: Channels, w: World, s: State, id: nat, succeeds: bool)
    requires Related(chans, w, s) && id in w.calls && w.calls[id].pc.FoundInL2?
    ensures Related(chans, ProceedCall(cfg, w, id, succeeds), Runs.Run(cfg, s, [WriteL1(id, succeeds)]))
  {
    hide KeyOf, Step, Bus.Safe, L1Match, L2Match, QueuesMatch, FillsMatch;
    FillAt(w.calls, s.fills, id);
    Runs.RunOne(cfg, s, WriteL1(id, succeeds));
    WriteL1Step(cfg, s, id, succeeds);
    L1WriteMatches(cfg, w, s, id, w.calls[id].pc.reading, cfg.l1TTL, succeeds);
    QueuesKept(chans, w.bus, s, AfterWriteL1(cfg, s, id, succeeds));
    CallEnds(w.calls, s.fills, id);
  }

  lemma FetchedSimulates(cfg: Config, chans: Channels, w: World, s: State, id: nat, succeeds: bool)
    requires Related(chans, w, s) && id in w.calls && w.calls[id].pc.FetchedFromRepo?
    ensures Related(chans, ProceedCall(cfg, w, id, succeeds), Runs.Run(cfg, s, [WriteL1(id, succeeds)]))
  {
    hide KeyOf, Step, Bus.Safe, L1Match, L2Match, QueuesMatch, FillsMatch;
    var c := w.calls[id];
    FillAt(w.calls, s.fills, id);
    Runs.RunOne(cfg, s, WriteL1(id, succeeds));
    WriteL1Step(cfg, s, id, succeeds);
    var ttl := if cfg.tiered then Min(cfg.l1TTL, cfg.grantTTL) else cfg.grantTTL;
    L1WriteMatches(cfg, w, s, id, c.pc.reading, ttl, succeeds);
    QueuesKept(chans, w.bus, s, AfterWriteL1(cfg, s, id, succeeds));
    if cfg.tiered {
      CallTakesOff(w.calls, s.fills, id, c.(pc := WroteL1(c.pc.reading, c.pc.at)));
    } else {
      CallEnds(w.calls, s.fills, id);
    }
  }

  lemma WriteL2Step(cfg: Config, s: State, id: nat, succeeds: bool)
    requires |s.history| > 0 && id in s.fills && s.fills[id].FromRepo? && s.fills[id].l1Done
    ensures Step(cfg, s, WriteL2(id, succeeds)) == AfterWriteL2(cfg, s, id, succeeds)
  {
    hide AfterWriteL2;
  }

  lemma L2WriteSimulates(cfg: Config, chans: Channels, w: World, s: State, id: nat, succeeds: bool)
    requires Related(chans, w, s) && id in w.calls && w.calls[id].pc.WroteL1?
    ensures Related(chans, ProceedCall(cfg, w, id, succeeds), Runs.Run(cfg, s, [WriteL2(id, succeeds)]))
  {
    hide KeyOf, Step, Bus.Safe, L1Match, L2Match, QueuesMatch, FillsMatch;
    var c := w.calls[id];
    FillAt(w.calls, s.fills, id);
    Runs.RunOne(cfg, s, WriteL2(id, succeeds));
    WriteL2Step(cfg, s, id, succeeds);
    var t := AfterWriteL2(cfg, s, id, succeeds);
    CachesKept(w, s, t);
    if succeeds {
      L2SetMatches(w.l2, s, t, c.p, Entry(c.pc.reading, w.now + cfg.grantTTL));
    }
    QueuesKept(chans, w.bus, s, t);
    CallEnds(w.calls, s.fills, id);
  }

  /** Only a tiered handler looks at L2. */
  ghost predicate TieredCalls(cfg: Config, w: World) {
    forall id :: id in w.calls && (w.calls[id].pc.MissedL1? || w.calls[id].pc.FoundInL2?) ==> cfg.tiered
  }

  lemma ProceedSimulates(cfg: Config, chans: Channels, w: World, s: State, id: nat, succeeds: bool)
    requires Related(chans, w, s) && TieredCalls(cfg, w) && id in w.calls
    ensures Related(chans, ProceedCall(cfg, w, id, succeeds), Runs.Run(cfg, s, ProceedAction(cfg, w, id, succeeds)))
  {
    hide Related, ProceedCall, Step, KeyOf;
    match w.calls[id].pc
    case BeforeL1 => BeforeL1Simulates(cfg, chans, w, s, id, succeeds);
    case MissedL1 => MissedL1Simulates(cfg, chans, w, s, id, succeeds);
    case MissedAll => MissedAllSimulates(cfg, chans, w, s, id, succeeds);
    case FoundInL2(_, _) => FoundInL2Simulates(cfg, chans, w, s, id, succeeds);
    case FetchedFromRepo(_, _) => FetchedSimulates(cfg, chans, w, s, id, succeeds);
    case WroteL1(_, _) => L2WriteSimulates(cfg, chans, w, s, id, succeeds);
  }

  ghost predicate Simulates(cfg: Config, chans: Channels, w: World, s: State, a: Op) {
    Related(chans, Next(cfg, chans, w, a), Runs.Run(cfg, s, ActionsOf(cfg, chans, w, a)))
  }

  lemma TickSimulates(cfg: Config, chans: Channels, w: World, s: State)
    requires Related(chans, w, s) && MayTick(cfg, w)
    ensures Simulates(cfg, chans, w, s, Op.Tick)
  {
    hide Bus.Safe, L1Match, L2Match, QueuesMatch, KeyOf;
    Runs.RunOne(cfg, s, PermissionProtocol.Tick);
    var t := Step(cfg, s, PermissionProtocol.Tick);
    assert t == s.(now := s.now + 1);
    CachesKept(w, s, t);
    QueuesKept(chans, w.bus, s, t);
  }

  lemma LossSimulates(cfg: Config, chans: Channels, w: World, s: State, a: Op)
    requires Related(chans, w, s) && (a.LoseL1? || a.LoseL2?)
    ensures Simulates(cfg, chans, w, s, a)
  {
    hide Bus.Safe, L1Match, L2Match, QueuesMatch, KeyOf, FillsMatch;
    var act := if a.LoseL1? then EvictL1(a.node, a.p) else EvictL2(a.p);
    Runs.RunOne(cfg, s, act);
    var t := Step(cfg, s, act);
    CachesKept(w, s, t);
    QueuesKept(chans, w.bus, s, t);
    if a.LoseL1? {
      L1DropMatches(w.l1, s, t, a.node, a.p);
    } else {
      L2DropMatches(w.l2, s, t, a.p);
    }
  }

  lemma RepositorySimulates(cfg: Config, chans: Channels, w: World, s: State, a: Op)
    requires Related(chans, w, s) && (a.Grant? || a.RevokeAll?)
    ensures Simulates(cfg, chans, w, s, a)
  {
    hide Bus.Safe, L1Match, L2Match, QueuesMatch, KeyOf, FillsMatch, ApplyEvent;
    var act := if a.Grant? then PermissionProtocol.Grant(a.p, a.rule) else PermissionProtocol.RevokeAll(a.p);
    Runs.RunOne(cfg, s, act);
    var t := Step(cfg, s, act);
    CachesKept(w, s, t);
    QueuesKept(chans, w.bus, s, t);
  }

  lemma CallSimulates(cfg: Config, chans: Channels, w: World, s: State, a: Op)
    requires Related(chans, w, s) && Enabled(cfg, chans, w, a) && (a.Begin? || a.GiveUp?)
    ensures Simulates(cfg, chans, w, s, a)
  {
    hide Bus.Safe, L1Match, L2Match, QueuesMatch, KeyOf, FillsMatch;
    if a.Begin? {
      CallsKept(w.calls, s.fills, a.id, Call(a.node, a.p, BeforeL1));
    } else {
      FillAt(w.calls, s.fills, a.id);
      CallEnds(w.calls, s.fills, a.id);
      if InFlight(w.calls[a.id].pc) {
        Runs.RunOne(cfg, s, Abandon(a.id));
        var t := Step(cfg, s, Abandon(a.id));
        CachesKept(w, s, t);
        QueuesKept(chans, w.bus, s, t);
      }
    }
  }

  lemma PublishCallSimulates(cfg: Config, chans: Channels, w: World, s: State, rid: nat, n: Node, p: string)
    requires Related(chans, w, s) && rid !in w.revocations
    ensures Simulates(cfg, chans, w, s, Op.CallPublish(rid, n, p))
  {
    hide Bus.Safe, L1Match, L2Match, QueuesMatch, KeyOf, FillsMatch;
    var act := PermissionProtocol.CallPublish(rid, n, p);
    Runs.RunOne(cfg, s, act);
    CachesKept(w, s, Step(cfg, s, act));
    QueuesKept(chans, w.bus, s, Step(cfg, s, act));
  }

  lemma DeleteL1Simulates(cfg: Config, chans: Channels, w: World, s: State, rid: nat)
    requires Related(chans, w, s) && AtStage(w, rid, Called)
    ensures Simulates(cfg, chans, w, s, DeleteL1(rid))
  {
    hide Bus.Safe, L1Match, L2Match, QueuesMatch, KeyOf, FillsMatch;
    Runs.RunOne(cfg, s, PublishDeleteL1(rid));
    var t := Step(cfg, s, PublishDeleteL1(rid));
    CachesKept(w, s, t);
    QueuesKept(chans, w.bus, s, t);
    L1DropMatches(w.l1, s, t, w.revocations[rid].node, w.revocations[rid].p);
  }

  lemma DeleteL2Simulates(cfg: Config, chans: Channels, w: World, s: State, rid: nat, succeeds: bool)
    requires Related(chans, w, s) && AtStage(w, rid, L1Deleted)
    ensures Simulates(cfg, chans, w, s, DeleteL2(rid, succeeds))
  {
    hide Bus.Safe, L1Match, L2Match, QueuesMatch, KeyOf, FillsMatch;
    Runs.RunOne(cfg, s, PublishDeleteL2(rid, succeeds));
    var t := Step(cfg, s, PublishDeleteL2(rid, succeeds));
    CachesKept(w, s, t);
    QueuesKept(chans, w.bus, s, t);
    if succeeds {
      L2DropMatches(w.l2, s, t, w.revocations[rid].p);
    }
  }

  lemma SendKeepsRest(cfg: Config, s: State, rid: nat, receivers: set<Node>)
    requires |s.history| > 0 && rid in s.revocations && s.revocations[rid].stage == L2Deleted
    ensures
      var t := Step(cfg, s, PublishSend(rid, receivers));
      && t.now == s.now && t.history == s.history && t.l1 == s.l1 && t.l2 == s.l2 && t.fills == s.fills
      && t.outcomes == s.outcomes && t.revocations == s.revocations[rid := s.revocations[rid].(stage := Published)]
  {
  }

  lemma SendSimulates(cfg: Config, chans: Channels, w: World, s: State, rid: nat)
    requires Related(chans, w, s) && Enabled(cfg, chans, w, Send(rid))
    ensures Simulates(cfg, chans, w, s, Send(rid))
  {
    hide Step, Bus.Safe, Bus.Step, L1Match, L2Match, QueuesMatch, KeyOf, FillsMatch;
    var act := PublishSend(rid, Receivers(chans, w.bus));
    Runs.RunOne(cfg, s, act);
    PublishMatches(cfg, chans, w.bus, s, rid);
    SendKeepsRest(cfg, s, rid, Receivers(chans, w.bus));
    CachesKept(w, s, Step(cfg, s, act));
  }

  lemma DeliverKeepsRest(cfg: Config, s: State, n: Node)
    requires |s.history| > 0 && Queue(s, n) != []
    ensures
      var t := Step(cfg, s, Deliver(n));
      && t.now == s.now && t.history == s.history && t.l1 == s.l1 - {(n, Queue(s, n)[0].p)} && t.l2 == s.l2
      && t.fills == s.fills && t.outcomes == s.outcomes && t.revocations == s.revocations
  {
  }

  lemma ListenSimulates(cfg: Config, chans: Channels, w: World, s: State, n: Node)
    requires Related(chans, w, s) && Enabled(cfg, chans, w, Listen(n))
    requires forall m :: m in chans && m != n ==> chans[m] != chans[n]
    ensures Simulates(cfg, chans, w, s, Listen(n))
  {
    hide Step, Bus.Safe, Bus.Step, L1Match, L2Match, QueuesMatch, KeyOf, FillsMatch;
    Runs.RunOne(cfg, s, Deliver(n));
    ListenMatches(cfg, chans, w.bus, s, n);
    DeliverKeepsRest(cfg, s, n);
    var t := Step(cfg, s, Deliver(n));
    CachesKept(w, s, t);
    L1DropMatches(w.l1, s, t, n, w.bus.chans[chans[n]].buffer[0]);
  }

  lemma BusOpSimulates(cfg: Config, chans: Channels, w: World, s: State, op: Bus.Op)
    requires Related(chans, w, s) && Enabled(cfg, chans, w, BusOp(op))
    ensures Simulates(cfg, chans, w, s, BusOp(op))
  {
    hide Bus.Safe, Bus.Step, L1Match, L2Match, QueuesMatch, KeyOf, FillsMatch;
    ForeignKeepsBuffers(chans, w.bus, op, s);
  }

  /** Every operation is one protocol step, or none. */
  lemma StepSimulates(cfg: Config, chans: Channels, listeners: nat, w: World, s: State, a: Op)
    requires Related(chans, w, s) && TieredCalls(cfg, w) && OneChannelEach(chans, listeners)
    ensures Simulates(cfg, chans, w, s, a)
  {
    if !Enabled(cfg, chans, w, a) {
      hide Related;
    } else {
      match a {
        case Tick => TickSimulates(cfg, chans, w, s);
        case LoseL1(_, _) => LossSimulates(cfg, chans, w, s, a);
        case LoseL2(_) => LossSimulates(cfg, chans, w, s, a);
        case Grant(_, _) => RepositorySimulates(cfg, chans, w, s, a);
        case RevokeAll(_) => RepositorySimulates(cfg, chans, w, s, a);
        case Begin(_, _, _) => CallSimulates(cfg, chans, w, s, a);
        case GiveUp(_) => CallSimulates(cfg, chans, w, s, a);
        case Proceed(id, succeeds) =>
          hide Related, ProceedCall, ProceedAction;
          ProceedSimulates(cfg, chans, w, s, id, succeeds);
        case CallPublish(rid, n, p) => PublishCallSimulates(cfg, chans, w, s, rid, n, p);
        case DeleteL1(rid) => DeleteL1Simulates(cfg, chans, w, s, rid);
        case DeleteL2(rid, succeeds) => DeleteL2Simulates(cfg, chans, w, s, rid, succeeds);
        case Send(rid) => SendSimulates(cfg, chans, w, s, rid);
        case Listen(n) => ListenSimulates(cfg, chans, w, s, n);
        case BusOp(op) => BusOpSimulates(cfg, chans, w, s, op);
      }
    }
  }

  lemma StepKeepsTiered(cfg: Config, chans: Channels, w: World, a: Op)
    requires TieredCalls(cfg, w)
    ensures TieredCalls(cfg, Next(cfg, chans, w, a))
  {
    hide Bus.Step, KeyOf, Lookup;
  }

  lemma StartIsRelated(chans: Channels, listeners: nat)
    requires OneChannelEach(chans, listeners)
    ensures Related(chans, Start(listeners), INIT)
  {
    hide Bus.Safe, Bus.Step;
  }

  // ---- Whole runs ----

  /** Every interleaving of handlers, publications, listeners and other bus users is a protocol run. */
  lemma {:induction false} RunSimulates(cfg: Config, chans: Channels, listeners: nat, ops: seq<Op>, i: nat)
    requires i <= |ops| && OneChannelEach(chans, listeners)
    ensures
      var w := WorldAt(cfg, chans, listeners, ops, i);
      && TieredCalls(cfg, w)
      && Related(chans, w, Runs.Run(cfg, INIT, ProtocolRun(cfg, chans, listeners, ops, i)))
  {
    hide Related, TieredCalls, Next, Step, ActionsOf;
    if i == 0 {
      StartIsRelated(chans, listeners);
      assert TieredCalls(cfg, Start(listeners)) by { StartHasNoCalls(cfg, listeners); }
    } else {
      RunSimulates(cfg, chans, listeners, ops, i - 1);
      var w, run := WorldAt(cfg, chans, listeners, ops, i - 1), ProtocolRun(cfg, chans, listeners, ops, i - 1);
      var s := Runs.Run(cfg, INIT, run);
      StepSimulates(cfg, chans, listeners, w, s, ops[i - 1]);
      StepKeepsTiered(cfg, chans, w, ops[i - 1]);
      Runs.RunAppends(cfg, INIT, run, ActionsOf(cfg, chans, w, ops[i - 1]));
    }
  }

  lemma StartHasNoCalls(cfg: Config, listeners: nat)
    ensures TieredCalls(cfg, Start(listeners))
  {
  }

  /** The staleness bound holds of interleaved handlers. */
  lemma InterleavedStaleness(cfg: Config, chans: Channels, listeners: nat, ops: seq<Op>, i: nat)
    requires OneChannelEach(chans, listeners)
    requires i < |WorldAt(cfg, chans, listeners, ops, |ops|).outcomes|
    ensures
      var w := WorldAt(cfg, chans, listeners, ops, |ops|);
      var o := w.outcomes[i];
      && HeldAt(w.history, o.p, o.reading.bundle, o.reading.readAt)
      && o.reading.readAt <= o.at <= o.reading.readAt + Bound(cfg)
  {
    hide Step, Next, HeldAt, L1Match, L2Match, FillsMatch, QueuesMatch;
    var run := ProtocolRun(cfg, chans, listeners, ops, |ops|);
    RunSimulates(cfg, chans, listeners, ops, |ops|);
    Runs.RunIsStateAt(cfg, run, |run|);
    assert run[..|run|] == run;
    BoundedStaleness(cfg, run, i);
  }

  /** So does convergence: after the delivery every decision at `m` rests on a version from the revocation on. */
  lemma InterleavedConvergence(
    cfg: Config, chans: Channels, listeners: nat, ops: seq<Op>,
    i: nat, j: nat, k: nat, rid: nat, m: Node, p: string, v: nat)
    requires OneChannelEach(chans, listeners)
    requires Convergence.RevokedAndDelivered(
      cfg, ProtocolRun(cfg, chans, listeners, ops, |ops|), i, j, k, rid, m, p, v)
    ensures
      var run, w := ProtocolRun(cfg, chans, listeners, ops, |ops|), WorldAt(cfg, chans, listeners, ops, |ops|);
      forall d | |StateAt(cfg, run, k + 1).outcomes| <= d < |w.outcomes| ::
        w.outcomes[d].node == m && w.outcomes[d].p == p ==> v <= w.outcomes[d].reading.ver
  {
    hide Step, Next, ProtocolRun, WorldAt, L1Match, L2Match, FillsMatch, QueuesMatch;
    var run := ProtocolRun(cfg, chans, listeners, ops, |ops|);
    RunSimulates(cfg, chans, listeners, ops, |ops|);
    Runs.RunIsStateAt(cfg, run, |run|);
    assert run[..|run|] == run;
    Convergence.RevocationConverges(cfg, run, i, j, k, rid, m, p, v);
  }

  // ---- The handler method is its operations in a row ----

  function ProceedMany(cfg: Config, chans: Channels, w: World, id: nat, k: nat): World
    decreases k
  {
    if k == 0 then w else ProceedMany(cfg, chans, Next(cfg, chans, w, Proceed(id, true)), id, k - 1)
  }

  /** A call begun at `w` and run to its end with nothing in between. */
  function Uninterrupted(cfg: Config, chans: Channels, w: World, id: nat, n: Node, p: string): World {
    ProceedMany(cfg, chans, Next(cfg, chans, w, Begin(id, n, p)), id, 5)
  }

  lemma {:induction false} NothingLeftToDo(cfg: Config, chans: Channels, w: World, id: nat, k: nat)
    requires id !in w.calls
    ensures ProceedMany(cfg, chans, w, id, k) == w
  {
    if k == 0 {
    } else {
      NothingLeftToDo(cfg, chans, w, id, k - 1);
    }
  }

  function CurrentReading(w: World, p: string): Reading
    requires |w.history| > 0
  {
    Reading(RulesOf(w.history[|w.history| - 1].repo, p), |w.history| - 1, w.now)
  }

  /** `t` is `w` after one decision, with these stores at node `n` and in L2. */
  ghost predicate Decided(w: World, t: World, n: Node, p: string, used: Option<Reading>, l1: Items, l2: Items) {
    && L1Of(t.l1, n) == l1 && t.l2 == l2 && t.calls == w.calls
    && used.Some? && t.outcomes == w.outcomes + [Outcome(n, p, used.value, w.now)]
  }

  lemma ProceedIs(cfg: Config, chans: Channels, w: World, id: nat, k: nat)
    requires id in w.calls && |w.history| > 0 && k > 0
    ensures ProceedMany(cfg, chans, w, id, k) == ProceedMany(cfg, chans, ProceedCall(cfg, w, id, true), id, k - 1)
  {
    hide ProceedCall;
  }

  lemma FromL1(cfg: Config, chans: Channels, w: World, id: nat, c: Call)
    requires |w.history| > 0 && id !in w.calls && c.pc.BeforeL1?
    requires Lookup(L1Of(w.l1, c.node), KeyOf(c.p), w.now).Some?
    ensures
      var t := ProceedMany(cfg, chans, w.(calls := w.calls[id := c]), id, 5);
      Decided(w, t, c.node, c.p, Lookup(L1Of(w.l1, c.node), KeyOf(c.p), w.now), L1Of(w.l1, c.node), w.l2)
  {
    hide KeyOf, Lookup, ProceedMany;
    var w0 := w.(calls := w.calls[id := c]);
    ProceedIs(cfg, chans, w0, id, 5);
    var w1 := ProceedCall(cfg, w0, id, true);
    assert w1.calls == w.calls;
    NothingLeftToDo(cfg, chans, w1, id, 4);
  }

  lemma FromL2Tier(cfg: Config, chans: Channels, w: World, id: nat, c: Call)
    requires |w.history| > 0 && id !in w.calls && c.pc.MissedL1? && Lookup(w.l2, KeyOf(c.p), w.now).Some?
    ensures
      var t := ProceedMany(cfg, chans, w.(calls := w.calls[id := c]), id, 4);
      var r := Lookup(w.l2, KeyOf(c.p), w.now);
      Decided(w, t, c.node, c.p, r, L1Of(w.l1, c.node)[KeyOf(c.p) := Item(r.value, Some(w.now + cfg.l1TTL))], w.l2)
  {
    hide KeyOf, Lookup, ProceedMany;
    var w0 := w.(calls := w.calls[id := c]);
    ProceedIs(cfg, chans, w0, id, 4);
    var w1 := ProceedCall(cfg, w0, id, true);
    ProceedIs(cfg, chans, w1, id, 3);
    var w2 := ProceedCall(cfg, w1, id, true);
    assert w2.calls == w.calls;
    NothingLeftToDo(cfg, chans, w2, id, 2);
  }

  lemma FromRepository(cfg: Config, chans: Channels, w: World, id: nat, c: Call, k: nat)
    requires |w.history| > 0 && id !in w.calls && c.pc.MissedAll? && k >= 3
    ensures
      var t := ProceedMany(cfg, chans, w.(calls := w.calls[id := c]), id, k);
      var r := CurrentReading(w, c.p);
      var ttl := if cfg.tiered then Min(cfg.l1TTL, cfg.grantTTL) else cfg.grantTTL;
      Decided(
        w, t, c.node, c.p, Some(r), L1Of(w.l1, c.node)[KeyOf(c.p) := Item(r, Some(w.now + ttl))],
        if cfg.tiered then w.l2[KeyOf(c.p) := Item(r, Some(w.now + cfg.grantTTL))] else w.l2)
  {
    hide KeyOf, Lookup, ProceedMany;
    var w0 := w.(calls := w.calls[id := c]);
    ProceedIs(cfg, chans, w0, id, k);
    var w1 := ProceedCall(cfg, w0, id, true);
    ProceedIs(cfg, chans, w1, id, k - 1);
    var w2 := ProceedCall(cfg, w1, id, true);
    if cfg.tiered {
      ProceedIs(cfg, chans, w2, id, k - 2);
      var w3 := ProceedCall(cfg, w2, id, true);
      assert w3.calls == w.calls;
      NothingLeftToDo(cfg, chans, w3, id, k - 3);
    } else {
      assert w2.calls == w.calls;
      NothingLeftToDo(cfg, chans, w2, id, k - 2);
    }
  }

  /** Moving a call on without touching anything else. */
  lemma MissMoves(cfg: Config, chans: Channels, w: World, id: nat, c: Call, k: nat)
    requires |w.history| > 0 && k > 0
    requires c.pc.BeforeL1? || c.pc.MissedL1?
    requires c.pc.BeforeL1? ==> Lookup(L1Of(w.l1, c.node), KeyOf(c.p), w.now).None?
    requires c.pc.MissedL1? ==> Lookup(w.l2, KeyOf(c.p), w.now).None?
    ensures
      var next := c.(pc := if c.pc.BeforeL1? && cfg.tiered then MissedL1 else MissedAll);
      ProceedMany(cfg, chans, w.(calls := w.calls[id := c]), id, k) ==
      ProceedMany(cfg, chans, w.(calls := w.calls[id := next]), id, k - 1)
  {
    hide KeyOf, Lookup, ProceedMany;
    var w0 := w.(calls := w.calls[id := c]);
    ProceedIs(cfg, chans, w0, id, k);
    var next := c.(pc := if c.pc.BeforeL1? && cfg.tiered then MissedL1 else MissedAll);
    assert w0.calls[id := next] == w.calls[id := next];
  }

  /** Run in a row over two tiers, a call leaves what the Handle method leaves and decides on the same bundle. */
  lemma TieredHandleIsItsOperations(cfg: Config, chans: Channels, w: World, id: nat, n: Node, p: string)
    requires cfg.tiered && cfg.l1TTL > 0 && cfg.grantTTL > 0 && |w.history| > 0 && id !in w.calls
    ensures
      var h := HandleEffect(
        L1Of(w.l1, n), w.l2, p, w.now, cfg.l1TTL, cfg.grantTTL, Some(CurrentReading(w, p)), _ => true);
      Decided(w, Uninterrupted(cfg, chans, w, id, n, p), n, p, h.used, h.l1, h.l2)
  {
    hide KeyOf, Lookup, ProceedMany, Decided;
    var c := Call(n, p, BeforeL1);
    LookupIsHolds(L1Of(w.l1, n), KeyOf(p), w.now);
    LookupIsHolds(w.l2, KeyOf(p), w.now);
    if Lookup(L1Of(w.l1, n), KeyOf(p), w.now).Some? {
      FromL1(cfg, chans, w, id, c);
    } else {
      MissMoves(cfg, chans, w, id, c, 5);
      if Lookup(w.l2, KeyOf(p), w.now).Some? {
        FromL2Tier(cfg, chans, w, id, c.(pc := MissedL1));
      } else {
        MissMoves(cfg, chans, w, id, c.(pc := MissedL1), 4);
        FromRepository(cfg, chans, w, id, c.(pc := MissedAll), 3);
      }
    }
  }

  lemma LookupIsHolds(items: Items, key: string, now: nat)
    ensures Lookup(items, key, now).Some? <==> Holds(items, key, now)
    ensures Holds(items, key, now) ==> key in items && Lookup(items, key, now) == Some(items[key].reading)
  {
  }

  /** The same over a single store. */
  lemma SingleHandleIsItsOperations(cfg: Config, chans: Channels, w: World, id: nat, n: Node, p: string)
    requires !cfg.tiered && cfg.grantTTL > 0 && |w.history| > 0 && id !in w.calls
    ensures
      var h := HandleSingleEffect(L1Of(w.l1, n), p, w.now, cfg.grantTTL, Some(CurrentReading(w, p)), _ => true);
      Decided(w, Uninterrupted(cfg, chans, w, id, n, p), n, p, h.used, h.items, w.l2)
  {
    hide KeyOf, Lookup, ProceedMany, Decided;
    var c := Call(n, p, BeforeL1);
    if Lookup(L1Of(w.l1, n), KeyOf(p), w.now).Some? {
      FromL1(cfg, chans, w, id, c);
    } else {
      MissMoves(cfg, chans, w, id, c, 5);
      FromRepository(cfg, chans, w, id, c.(pc := MissedAll), 4);
    }
  }

  /** A publication reaches exactly the registered listeners whose buffer has room. */
  lemma SendReachesExactly(cfg: Config, chans: Channels, w: World, s: State, rid: nat, n: Node)
    requires Related(chans, w, s) && Enabled(cfg, chans, w, Send(rid))
    ensures
      var p := w.revocations[rid].p;
      Buffer(chans, Next(cfg, chans, w, Send(rid)).bus, n) ==
      if n in Receivers(chans, w.bus) then Buffer(chans, w.bus, n) + [p] else Buffer(chans, w.bus, n)
  {
    hide L1Match, L2Match, FillsMatch, QueuesMatch, KeyOf;
  }
}
