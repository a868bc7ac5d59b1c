/**
 The in-memory invalidation bus (authz/cache/memory.go): a set of subscriber channels,
 non-blocking broadcast, cancellation and close.  Go panics on a send to, or a close of,
 a closed channel; both show up here as a step with no result.
 */
module RevocationBus {
  import opened Options

  const CAPACITY := 100

  /** A buffered channel; `received` lists what its reader has taken so far. */
  datatype Chan = Chan(buffer: seq<string>, closed: bool, received: seq<string>)

  /** Channels are numbered in creation order. */
  datatype State = State(chans: seq<Chan>, subscribers: set<nat>, closeDone: bool)

  datatype Op = Subscribe | Publish(p: string) | Cancel(ch: nat) | Close | Receive(ch: nat)

  const INIT := State([], {}, false)

  // ---- Channel operations ----

  /** `select { case ch <- p: default: }` */
  function Offer(c: Chan, p: string): Chan
    requires !c.closed
  {
    if |c.buffer| < CAPACITY then c.(buffer := c.buffer + [p]) else c
  }

  function Take(c: Chan): Chan {
    if c.buffer == [] then c else c.(buffer := c.buffer[1..], received := c.received + [c.buffer[0]])
  }

  /** What has gone through the channel, in order. */
  function Through(c: Chan): seq<string> {
    c.received + c.buffer
  }

  // ---- Steps ----

  predicate AllOpen(s: State) {
    forall i :: i in s.subscribers ==> i < |s.chans| && !s.chans[i].closed
  }

  /** None when the Go code would panic. */
  function Step(s: State, op: Op): Option<State> {
    match op
    case Subscribe => Some(s.(chans := s.chans + [Chan([], false, [])], subscribers := s.subscribers + {|s.chans|}))
    case Publish(p) => if AllOpen(s) then Some(Broadcast(s, p)) else None
    case Cancel(ch) =>
      if ch !in s.subscribers then Some(s)
      else if ch < |s.chans| && !s.chans[ch].closed then
        Some(s.(chans := s.chans[ch := s.chans[ch].(closed := true)], subscribers := s.subscribers - {ch}))
      else None
    case Close =>
      if s.closeDone then Some(s)
      else if AllOpen(s) then Some(ClosedAll(s))
      else None
    case Receive(ch) => if ch < |s.chans| then Some(s.(chans := s.chans[ch := Take(s.chans[ch])])) else Some(s)
  }

  function Broadcast(s: State, p: string): State
    requires AllOpen(s)
  {
    s.(chans := seq(|s.chans|, i requires 0 <= i < |s.chans| =>
      if i in s.subscribers then Offer(s.chans[i], p) else s.chans[i]))
  }

  function ClosedAll(s: State): State {
    State(
      seq(|s.chans|, i requires 0 <= i < |s.chans| =>
        if i in s.subscribers then s.chans[i].(closed := true) else s.chans[i]),
      {}, true)
  }

  function Run(ops: seq<Op>, n: nat): Option<State>
    requires n <= |ops|
  {
    if n == 0 then Some(INIT)
    else
      match Run(ops, n - 1)
      case None => None
      case Some(s) => Step(s, ops[n - 1])
  }

  // ---- Safety in every interleaving ----

  ghost predicate Safe(s: State) {
    && AllOpen(s)
    && forall i :: 0 <= i < |s.chans| ==> |s.chans[i].buffer| <= CAPACITY
  }

  lemma StepIsSafe(s: State, op: Op)
    requires Safe(s)
    ensures Step(s, op).Some? && Safe(Step(s, op).value)
    ensures |s.chans| <= |Step(s, op).value.chans|
  {
  }

  /**
   No interleaving of publish, subscribe, cancel and close sends on or closes a closed
   channel, and every buffer stays within its capacity.
   */
  lemma {:induction false} BusNeverPanics(ops: seq<Op>, n: nat)
    requires n <= |ops|
    ensures Run(ops, n).Some? && Safe(Run(ops, n).value)
  {
    if n == 0 {
    } else {
      BusNeverPanics(ops, n - 1);
      StepIsSafe(Run(ops, n - 1).value, ops[n - 1]);
    }
  }

  // ---- What a subscriber sees ----

  /** `a` is `b` with some elements left out. */
  ghost predicate IsSubsequence(a: seq<string>, b: seq<string>) {
    a == [] ||
    (b != [] &&
     (IsSubsequence(a, b[..|b| - 1]) ||
      (a[|a| - 1] == b[|b| - 1] && IsSubsequence(a[..|a| - 1], b[..|b| - 1]))))
  }

  /** The principals published in the first `n` steps while channel `ch` was registered. */
  ghost function PublishedTo(ops: seq<Op>, n: nat, ch: nat): seq<string>
    requires n <= |ops|
  {
    if n == 0 then []
    else
      var before := PublishedTo(ops, n - 1, ch);
      if ops[n - 1].Publish? && Run(ops, n - 1).Some? && ch in Run(ops, n - 1).value.subscribers
      then before + [ops[n - 1].p] else before
  }

  /** What channel `ch` holds and has delivered; nothing before it exists. */
  function SeenIn(s: State, ch: nat): seq<string> {
    if ch < |s.chans| then Through(s.chans[ch]) else []
  }

  predicate FullIn(s: State, ch: nat) {
    ch < |s.chans| && |s.chans[ch].buffer| >= CAPACITY
  }

  ghost function Seen(ops: seq<Op>, n: nat, ch: nat): seq<string>
    requires n <= |ops|
  {
    if Run(ops, n).Some? then SeenIn(Run(ops, n).value, ch) else []
  }

  ghost predicate FullAt(ops: seq<Op>, n: nat, ch: nat)
    requires n <= |ops|
  {
    Run(ops, n).Some? && FullIn(Run(ops, n).value, ch)
  }

  /** Only a publish to a registered, non-full channel changes what the channel has seen. */
  lemma StepSeen(s: State, op: Op, ch: nat)
    requires Safe(s) && Step(s, op).Some?
    ensures
      SeenIn(Step(s, op).value, ch) ==
      if op.Publish? && ch in s.subscribers && !FullIn(s, ch) then SeenIn(s, ch) + [op.p] else SeenIn(s, ch)
  {
    if ch < |s.chans| {
      var c := s.chans[ch];
      if op.Receive? && c.buffer != [] {
        assert c.received + [c.buffer[0]] + c.buffer[1..] == c.received + c.buffer;
      }
      if op.Publish? && ch in s.subscribers && !FullIn(s, ch) {
        assert c.received + (c.buffer + [op.p]) == c.received + c.buffer + [op.p];
      }
    }
  }

  lemma SeenStep(ops: seq<Op>, n: nat, ch: nat)
    requires 0 < n <= |ops|
    ensures
      Seen(ops, n, ch) ==
      if PublishedTo(ops, n, ch) != PublishedTo(ops, n - 1, ch) && !FullAt(ops, n - 1, ch)
      then Seen(ops, n - 1, ch) + [ops[n - 1].p] else Seen(ops, n - 1, ch)
  {
    hide Step;
    BusNeverPanics(ops, n - 1);
    BusNeverPanics(ops, n);
    StepSeen(Run(ops, n - 1).value, ops[n - 1], ch);
  }

  lemma SubsequenceGrows(a: seq<string>, b: seq<string>, x: string)
    requires IsSubsequence(a, b)
    ensures IsSubsequence(a, b + [x]) && IsSubsequence(a + [x], b + [x])
  {
    assert (b + [x])[..|b + [x]| - 1] == b;
    assert (a + [x])[..|a + [x]| - 1] == a;
  }

  /** A subscriber gets, in order, a subsequence of what was published while it was registered. */
  lemma {:induction false} SubscriberSeesSubsequence(ops: seq<Op>, n: nat, ch: nat)
    requires n <= |ops|
    ensures IsSubsequence(Seen(ops, n, ch), PublishedTo(ops, n, ch))
  {
    hide Step;
    if n == 0 {
    } else {
      SubscriberSeesSubsequence(ops, n - 1, ch);
      SeenStep(ops, n, ch);
      if PublishedTo(ops, n, ch) != PublishedTo(ops, n - 1, ch) {
        SubsequenceGrows(Seen(ops, n - 1, ch), PublishedTo(ops, n - 1, ch), ops[n - 1].p);
      }
    }
  }

  /** A message is lost only when its channel's buffer is full. */
  lemma {:induction false} NothingLostUnlessFull(ops: seq<Op>, n: nat, ch: nat)
    requires n <= |ops|
    requires forall k :: 0 <= k < n ==> !FullAt(ops, k, ch)
    ensures Seen(ops, n, ch) == PublishedTo(ops, n, ch)
  {
    hide Step;
    if n == 0 {
    } else {
      NothingLostUnlessFull(ops, n - 1, ch);
      SeenStep(ops, n, ch);
    }
  }

  // ---- The object ----

  class Bus {
    var chans: seq<Chan>
    var subscribers: set<nat>
    var closeDone: bool

    ghost function Value(): State
      reads this
    {
      State(chans, subscribers, closeDone)
    }

    ghost predicate Valid()
      reads this
    {
      Safe(Value())
    }

    constructor ()
      ensures Valid() && Value() == INIT
    {
      chans, subscribers, closeDone := [], {}, false;
    }

    method SubscribeRevocations() returns (ch: nat)
      requires Valid()
      modifies this
      ensures Valid() && Step(old(Value()), Subscribe) == Some(Value())
      ensures ch == |old(chans)| && subscribers == old(subscribers) + {ch}
      ensures chans == old(chans) + [Chan([], false, [])]
    {
      ch := |chans|;
      chans := chans + [Chan([], false, [])];
      subscribers := subscribers + {ch};
    }

    /** Go ranges over the subscriber map in any order. */
    method PublishRevocation(p: string)
      requires Valid()
      modifies this
      ensures Valid() && Step(old(Value()), Publish(p)) == Some(Value())
      ensures subscribers == old(subscribers) && closeDone == old(closeDone) && |chans| == |old(chans)|
      ensures forall i :: 0 <= i < |chans| ==>
        var c := old(chans)[i];
        chans[i] == if i in subscribers && |c.buffer| < 100 then c.(buffer := c.buffer + [p]) else c
    {
      var rest := subscribers;
      while rest != {}
        invariant rest <= subscribers && subscribers == old(subscribers) && closeDone == old(closeDone)
        invariant |chans| == |old(chans)|
        invariant forall i :: 0 <= i < |chans| ==>
          chans[i] == if i in subscribers && i !in rest then Offer(old(chans)[i], p) else old(chans)[i]
      {
        var ch :| ch in rest;
        chans := chans[ch := Offer(chans[ch], p)];
        rest := rest - {ch};
      }
      StepIsSafe(old(Value()), Publish(p));
      assert chans == Broadcast(old(Value()), p).chans;
    }

    /** The goroutine that waits for the subscriber's context. */
    method CancelSubscription(ch: nat)
      requires Valid()
      modifies this
      ensures Valid() && Step(old(Value()), Cancel(ch)) == Some(Value())
      ensures subscribers == old(subscribers) - {ch} && closeDone == old(closeDone) && |chans| == |old(chans)|
      ensures forall i :: 0 <= i < |chans| ==>
        var c := old(chans)[i];
        chans[i] == if i == ch && ch in old(subscribers) then c.(closed := true) else c
    {
      if ch in subscribers {
        subscribers := subscribers - {ch};
        assert !chans[ch].closed;
        chans := chans[ch := chans[ch].(closed := true)];
      }
      StepIsSafe(old(Value()), Cancel(ch));
    }

    method CloseBus()
      requires Valid()
      modifies this
      ensures Valid() && Step(old(Value()), Close) == Some(Value())
      ensures closeDone && |chans| == |old(chans)|
      ensures subscribers == if old(closeDone) then old(subscribers) else {}
      ensures forall i :: 0 <= i < |chans| ==>
        var c := old(chans)[i];
        chans[i] == if i in old(subscribers) && !old(closeDone) then c.(closed := true) else c
    {
      if !closeDone {
        while subscribers != {}
          invariant subscribers <= old(subscribers) && !closeDone
          invariant |chans| == |old(chans)|
          invariant forall i :: 0 <= i < |chans| ==>
            chans[i] ==
            if i in old(subscribers) && i !in subscribers then old(chans)[i].(closed := true) else old(chans)[i]
        {
          var ch :| ch in subscribers;
          assert !chans[ch].closed;
          chans := chans[ch := chans[ch].(closed := true)];
          subscribers := subscribers - {ch};
        }
        closeDone := true;
        assert chans == ClosedAll(old(Value())).chans;
      }
      StepIsSafe(old(Value()), Close);
    }
  }
}
