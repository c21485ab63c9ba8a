// The fan-out of the concurrent map: one producer a shard fills a buffered
// channel under the shard's read lock, one forwarder a channel moves its entries
// to the output, the output is closed when every forwarder has finished.
// Writers and the reader run at the same time. A run is any sequence of the
// atomic steps below.
module FanIn {
  import opened ShardedMap

  type Entry<V> = (string, V)

  // A producer is waiting for the read lock, filling its channel under it, past
  // the unlock, or done with its channel closed.
  datatype Phase = Waiting | Filling | Unlocked | Closed

  /** One shard's producer, channel and forwarder. */
  datatype Lane<V> = Lane(
    phase: Phase,
    held: map<string, V>,        // the shard when its read lock was taken
    order: seq<Entry<V>>,        // the order in which the producer ranges over it
    rest: seq<Entry<V>>,         // entries not yet sent
    cap: nat,                    // capacity of the channel
    chan: seq<Entry<V>>,         // entries in the channel
    moving: seq<Entry<V>>,       // the entry the forwarder holds, if any
    gone: seq<Entry<V>>,         // the entries it has passed on
    ended: bool)                 // the forwarder has seen the closed channel

  datatype State<V> = State(
    buffered: bool,              // IterBuffered, or the unbuffered Iter
    live: seq<map<string, V>>,   // the shards
    lanes: seq<Lane<V>>,
    started: bool,               // snapshot has returned and fanIn is running
    outCap: nat,
    out: seq<Entry<V>>,
    outClosed: bool,
    received: seq<Entry<V>>)

  datatype Step<V> =
    | Lock(i: nat, order: seq<Entry<V>>)
    | Send(i: nat)
    | Unlock(i: nat)
    | Close(i: nat)
    | Start
    | Take(i: nat)
    | Forward(i: nat)
    | End(i: nat)
    | CloseOut
    | Receive
    | Write(i: nat, shard: map<string, V>)

  function Caps<V>(lanes: seq<Lane<V>>): nat
  {
    if lanes == [] then 0 else Caps(lanes[..|lanes| - 1]) + lanes[|lanes| - 1].cap
  }

  ghost predicate AllEnded<V>(lanes: seq<Lane<V>>)
  {
    forall j :: 0 <= j < |lanes| ==> lanes[j].ended
  }

  ghost predicate Enabled<V>(s: State<V>, step: Step<V>)
  {
    match step
    case Lock(i, order) => i < |s.lanes| == |s.live| && s.lanes[i].phase == Waiting && Lists(order, s.live[i])
    case Send(i) =>
      i < |s.lanes| && s.lanes[i].phase == Filling && s.lanes[i].rest != [] && |s.lanes[i].chan| < s.lanes[i].cap
    case Unlock(i) => i < |s.lanes| && s.lanes[i].phase == Filling && s.lanes[i].rest == []
    case Close(i) => i < |s.lanes| && s.lanes[i].phase == Unlocked
    case Start => !s.started && forall j :: 0 <= j < |s.lanes| ==> s.lanes[j].phase != Waiting
    case Take(i) => s.started && i < |s.lanes| && s.lanes[i].moving == [] && s.lanes[i].chan != []
    case Forward(i) => i < |s.lanes| && s.lanes[i].moving != [] && (s.buffered ==> |s.out| < s.outCap)
    case End(i) =>
      && s.started && i < |s.lanes| && !s.lanes[i].ended
      && s.lanes[i].moving == [] && s.lanes[i].chan == [] && s.lanes[i].phase == Closed
    case CloseOut => s.started && !s.outClosed && AllEnded(s.lanes)
    case Receive => s.out != []
    case Write(i, shard) =>
      i < |s.live| == |s.lanes| && s.lanes[i].phase != Filling && forall k :: k in shard ==> ShardOf(k) == i
  }

  /** An unbuffered output has no queue: forwarding hands the entry to the reader. */
  ghost function Forwarded<V>(s: State<V>, i: nat): State<V>
    requires i < |s.lanes| && s.lanes[i].moving != []
  {
    var l := s.lanes[i];
    var t := s.(lanes := s.lanes[i := l.(moving := [], gone := l.gone + l.moving)]);
    if s.buffered then t.(out := s.out + [l.moving[0]]) else t.(received := s.received + [l.moving[0]])
  }

  ghost function After<V>(s: State<V>, step: Step<V>): State<V>
    requires Enabled(s, step)
  {
    match step
    case Lock(i, order) =>
      s.(lanes := s.lanes[i := Lane(Filling, s.live[i], order, order, |s.live[i]|, [], [], [], false)])
    case Send(i) =>
      var l := s.lanes[i];
      s.(lanes := s.lanes[i := l.(rest := l.rest[1..], chan := l.chan + [l.rest[0]])])
    case Unlock(i) => s.(lanes := s.lanes[i := s.lanes[i].(phase := Unlocked)])
    case Close(i) => s.(lanes := s.lanes[i := s.lanes[i].(phase := Closed)])
    case Start => s.(started := true, outCap := if s.buffered then Caps(s.lanes) else 0)
    case Take(i) =>
      var l := s.lanes[i];
      s.(lanes := s.lanes[i := l.(moving := [l.chan[0]], chan := l.chan[1..])])
    case Forward(i) => Forwarded(s, i)
    case End(i) => s.(lanes := s.lanes[i := s.lanes[i].(ended := true)])
    case CloseOut => s.(outClosed := true)
    case Receive => s.(received := s.received + [s.out[0]], out := s.out[1..])
    case Write(i, shard) => s.(live := s.live[i := shard])
  }

  ghost predicate Init<V>(s: State<V>)
  {
    && |s.live| == |s.lanes| == SHARD_COUNT && Placed(s.live)
    && (forall j :: 0 <= j < SHARD_COUNT ==> s.lanes[j] == Lane(Waiting, map[], [], [], 0, [], [], [], false))
    && !s.started && !s.outClosed && s.outCap == 0 && s.out == [] && s.received == []
  }

  /** s leads to t by the given steps. */
  ghost predicate Run<V>(s: State<V>, steps: seq<Step<V>>, t: State<V>)
    decreases |steps|
  {
    if steps == [] then s == t
    else Enabled(s, steps[0]) && Run(After(s, steps[0]), steps[1..], t)
  }

  /** What each shard held when its lock was taken. */
  ghost function Held<V>(s: State<V>): seq<map<string, V>>
  {
    seq(|s.lanes|, i requires 0 <= i < |s.lanes| => s.lanes[i].held)
  }

  // ---- invariant -------------------------------------------------------

  /** The entries of one shard among those delivered, in order. */
  function Of<V>(entries: seq<Entry<V>>, i: nat): seq<Entry<V>>
  {
    if entries == [] then []
    else
      var n := |entries| - 1;
      Of(entries[..n], i) + (if ShardOf(entries[n].0) == i then [entries[n]] else [])
  }

  /** What was fixed when the read lock was taken. */
  ghost predicate SnapOk<V>(held: map<string, V>, order: seq<Entry<V>>, cap: nat, i: nat)
  {
    Lists(order, held) && cap == |order| && forall k :: k in held ==> ShardOf(k) == i
  }

  /** Every entry held is in exactly one place on its way to the output. */
  ghost predicate FlowOk<V>(l: Lane<V>, live: map<string, V>, started: bool)
  {
    && l.order == l.gone + l.moving + l.chan + l.rest
    && |l.moving| <= 1
    && (l.phase == Waiting ==> l.order == [])
    && (l.phase == Filling ==> live == l.held)
    && (l.phase != Filling ==> l.rest == [])
    && (!started ==> l.moving == [] && !l.ended)
    && (started ==> l.phase != Waiting)
    && (l.ended ==> l.moving == [] && l.chan == [] && l.phase == Closed)
  }

  ghost predicate LanesOk<V>(s: State<V>)
  {
    forall i :: 0 <= i < |s.lanes| == |s.live| ==>
      SnapOk(s.lanes[i].held, s.lanes[i].order, s.lanes[i].cap, i) && FlowOk(s.lanes[i], s.live[i], s.started)
  }

  /** What has been delivered is what the forwarders have passed on. */
  ghost predicate Delivered<V>(entries: seq<Entry<V>>, lanes: seq<Lane<V>>)
  {
    forall i :: 0 <= i < |lanes| ==> Of(entries, i) == lanes[i].gone
  }

  ghost predicate Inv<V>(s: State<V>)
  {
    && |s.live| == |s.lanes| == SHARD_COUNT && Placed(s.live)
    && LanesOk(s)
    && Delivered(s.received + s.out, s.lanes)
    && (s.started && s.buffered ==> s.outCap == Caps(s.lanes))
    && (!s.buffered ==> s.out == [])
    && (s.outClosed ==> s.started && AllEnded(s.lanes))
  }

  lemma OfAppend<V>(entries: seq<Entry<V>>, e: Entry<V>, i: nat)
    ensures Of(entries + [e], i) == Of(entries, i) + (if ShardOf(e.0) == i then [e] else [])
  {
    assert (entries + [e])[..|entries|] == entries;
  }

  /** Every entry is among those of its shard. */
  lemma {:induction false} OfKeeps<V>(entries: seq<Entry<V>>, j: nat)
    requires j < |entries|
    ensures entries[j] in Of(entries, ShardOf(entries[j].0))
  {
    if j < |entries| - 1 {
      OfKeeps(entries[..|entries| - 1], j);
    }
  }

  lemma InitInv<V>(s: State<V>)
    requires Init(s)
    ensures Inv(s)
  {
    assert s.received + s.out == [];
  }

  lemma {:induction false} CapsSame<V>(a: seq<Lane<V>>, b: seq<Lane<V>>)
    requires |a| == |b| && forall i :: 0 <= i < |a| ==> a[i].cap == b[i].cap
    ensures Caps(a) == Caps(b)
  {
    if a != [] {
      CapsSame(a[..|a| - 1], b[..|b| - 1]);
    }
  }

  lemma UpdateLanesOk<V>(s: State<V>, i: nat, l: Lane<V>)
    requires LanesOk(s) && i < |s.lanes| == |s.live|
    requires SnapOk(l.held, l.order, l.cap, i) && FlowOk(l, s.live[i], s.started)
    ensures LanesOk(s.(lanes := s.lanes[i := l]))
  {}

  lemma UpdateDelivered<V>(entries: seq<Entry<V>>, lanes: seq<Lane<V>>, i: nat, l: Lane<V>)
    requires Delivered(entries, lanes) && i < |lanes| && l.gone == lanes[i].gone
    ensures Delivered(entries, lanes[i := l])
  {}

  lemma UpdateEnded<V>(lanes: seq<Lane<V>>, i: nat, l: Lane<V>)
    requires i < |lanes| && (lanes[i].ended ==> l.ended)
    ensures AllEnded(lanes) ==> AllEnded(lanes[i := l])
  {}

  lemma UpdateCaps<V>(lanes: seq<Lane<V>>, i: nat, l: Lane<V>)
    requires i < |lanes| && l.cap == lanes[i].cap
    ensures Caps(lanes[i := l]) == Caps(lanes)
  {
    CapsSame(lanes, lanes[i := l]);
  }

  /** A step that changes one lane and not what has been delivered. */
  lemma LaneStep<V>(s: State<V>, t: State<V>, i: nat, l: Lane<V>)
    requires Inv(s) && i < SHARD_COUNT && t == s.(lanes := s.lanes[i := l])
    requires SnapOk(l.held, l.order, l.cap, i) && FlowOk(l, s.live[i], s.started)
    requires (l.cap == s.lanes[i].cap || !s.started) && (s.lanes[i].ended ==> l.ended) && l.gone == s.lanes[i].gone
    ensures Inv(t)
  {
    UpdateLanesOk(s, i, l);
    UpdateDelivered(s.received + s.out, s.lanes, i, l);
    UpdateEnded(s.lanes, i, l);
    if s.started && s.buffered {
      UpdateCaps(s.lanes, i, l);
    }
  }

  lemma LockInv<V>(s: State<V>, i: nat, order: seq<Entry<V>>)
    requires Inv(s) && Enabled(s, Lock(i, order))
    ensures Inv(After(s, Lock(i, order)))
  {
    assert FlowOk(s.lanes[i], s.live[i], s.started);
    LaneStep(s, After(s, Lock(i, order)), i, Lane(Filling, s.live[i], order, order, |s.live[i]|, [], [], [], false));
  }

  lemma SendFlow<V>(l: Lane<V>, live: map<string, V>, started: bool)
    requires FlowOk(l, live, started) && l.phase == Filling && l.rest != []
    ensures FlowOk(l.(rest := l.rest[1..], chan := l.chan + [l.rest[0]]), live, started)
  {
    var front := l.gone + l.moving;
    assert front + l.chan + l.rest == front + (l.chan + [l.rest[0]]) + l.rest[1..];
  }

  lemma TakeFlow<V>(l: Lane<V>, live: map<string, V>)
    requires FlowOk(l, live, true) && l.moving == [] && l.chan != []
    ensures FlowOk(l.(moving := [l.chan[0]], chan := l.chan[1..]), live, true)
  {
    assert l.gone + l.moving + l.chan + l.rest == l.gone + [l.chan[0]] + l.chan[1..] + l.rest;
  }

  lemma ForwardFlow<V>(l: Lane<V>, live: map<string, V>, started: bool)
    requires FlowOk(l, live, started)
    ensures FlowOk(l.(moving := [], gone := l.gone + l.moving), live, started)
  {
    assert l.gone + l.moving + l.chan + l.rest == (l.gone + l.moving) + [] + l.chan + l.rest;
  }

  /** The entry a forwarder holds belongs to its shard. */
  lemma MovingBelongs<V>(l: Lane<V>, live: map<string, V>, started: bool, i: nat)
    requires SnapOk(l.held, l.order, l.cap, i) && FlowOk(l, live, started) && l.moving != []
    ensures l.moving == [l.moving[0]] && ShardOf(l.moving[0].0) == i
  {
    assert l.order[|l.gone|] == l.moving[0];
    ListsExactly(l.order, l.held);
  }

  lemma ForwardDelivers<V>(entries: seq<Entry<V>>, lanes: seq<Lane<V>>, i: nat, l: Lane<V>, e: Entry<V>)
    requires Delivered(entries, lanes) && i < |lanes| && ShardOf(e.0) == i && l.gone == lanes[i].gone + [e]
    ensures Delivered(entries + [e], lanes[i := l])
  {
    forall j | 0 <= j < |lanes| ensures Of(entries + [e], j) == lanes[i := l][j].gone {
      OfAppend(entries, e, j);
      assert Of(entries, j) == lanes[j].gone;
    }
  }

  lemma ForwardLanes<V>(s: State<V>, i: nat)
    requires Inv(s) && i < |s.lanes| && s.lanes[i].moving != []
    ensures LanesOk(Forwarded(s, i)) && Caps(Forwarded(s, i).lanes) == Caps(s.lanes)
  {
    var l := s.lanes[i];
    ForwardFlow(l, s.live[i], s.started);
    var passed := l.(moving := [], gone := l.gone + l.moving);
    UpdateLanesOk(s, i, passed);
    UpdateCaps(s.lanes, i, passed);
  }

  lemma ForwardDelivered<V>(s: State<V>, i: nat)
    requires Inv(s) && i < |s.lanes| && s.lanes[i].moving != []
    ensures Delivered(Forwarded(s, i).received + Forwarded(s, i).out, Forwarded(s, i).lanes)
  {
    var l := s.lanes[i];
    MovingBelongs(l, s.live[i], s.started, i);
    ForwardDelivers(s.received + s.out, s.lanes, i, Forwarded(s, i).lanes[i], l.moving[0]);
    Appended(s.received, s.out, l.moving[0]);
  }

  lemma ForwardInv<V>(s: State<V>, i: nat)
    requires Inv(s) && i < |s.lanes| && s.lanes[i].moving != []
    ensures Inv(Forwarded(s, i))
  {
    ForwardLanes(s, i);
    ForwardDelivered(s, i);
    assert FlowOk(s.lanes[i], s.live[i], s.started);
  }

  lemma Appended<V>(a: seq<Entry<V>>, b: seq<Entry<V>>, e: Entry<V>)
    ensures a + (b + [e]) == a + b + [e]
    ensures b == [] ==> a + [e] + b == a + b + [e]
  {}

  lemma ReceiveInv<V>(s: State<V>)
    requires Inv(s) && s.out != []
    ensures Inv(s.(received := s.received + [s.out[0]], out := s.out[1..]))
  {
    assert s.received + [s.out[0]] + s.out[1..] == s.received + s.out;
  }

  lemma StartInv<V>(s: State<V>)
    requires Inv(s) && Enabled(s, Start)
    ensures Inv(s.(started := true, outCap := if s.buffered then Caps(s.lanes) else 0))
  {
    assert forall i :: 0 <= i < SHARD_COUNT ==> FlowOk(s.lanes[i], s.live[i], s.started);
  }

  lemma WriteInv<V>(s: State<V>, i: nat, shard: map<string, V>)
    requires Inv(s) && Enabled(s, Write(i, shard))
    ensures Inv(s.(live := s.live[i := shard]))
  {}

  predicate ProducerStep<V>(step: Step<V>) { step.Lock? || step.Send? || step.Unlock? || step.Close? }

  predicate ForwarderStep<V>(step: Step<V>) { step.Take? || step.Forward? || step.End? }

  lemma ProducerInv<V>(s: State<V>, step: Step<V>)
    requires Inv(s) && Enabled(s, step) && ProducerStep(step)
    ensures Inv(After(s, step))
  {
    var t := After(s, step);
    match step
    case Lock(i, order) => LockInv(s, i, order);
    case Send(i) =>
      SendFlow(s.lanes[i], s.live[i], s.started);
      LaneStep(s, t, i, t.lanes[i]);
    case Unlock(i) => LaneStep(s, t, i, t.lanes[i]);
    case Close(i) => LaneStep(s, t, i, t.lanes[i]);
  }

  lemma ForwarderInv<V>(s: State<V>, step: Step<V>)
    requires Inv(s) && Enabled(s, step) && ForwarderStep(step)
    ensures Inv(After(s, step))
  {
    var t := After(s, step);
    match step
    case Take(i) =>
      TakeFlow(s.lanes[i], s.live[i]);
      LaneStep(s, t, i, t.lanes[i]);
    case Forward(i) => ForwardInv(s, i);
    case End(i) => LaneStep(s, t, i, t.lanes[i]);
  }

  lemma StepInv<V>(s: State<V>, step: Step<V>)
    requires Inv(s) && Enabled(s, step)
    ensures Inv(After(s, step))
  {
    match step
    case Start => StartInv(s);
    case CloseOut =>
    case Receive => ReceiveInv(s);
    case Write(i, shard) => WriteInv(s, i, shard);
    case Take(_) => ForwarderInv(s, step);
    case Forward(_) => ForwarderInv(s, step);
    case End(_) => ForwarderInv(s, step);
    case _ => ProducerInv(s, step);
  }

  lemma {:induction false} RunInv<V>(s: State<V>, steps: seq<Step<V>>, t: State<V>)
    requires Inv(s) && Run(s, steps, t)
    ensures Inv(t)
    decreases |steps|
  {
    if steps != [] {
      StepInv(s, steps[0]);
      RunInv(After(s, steps[0]), steps[1..], t);
    }
  }

  // ---- nobody waits for a slow reader ----------------------------------

  /** A producer that still has entries always has room in its channel. */
  lemma ProducerNeverBlocks<V>(s: State<V>, i: nat)
    requires Inv(s) && i < SHARD_COUNT && s.lanes[i].phase == Filling
    ensures if s.lanes[i].rest != [] then Enabled(s, Send(i)) else Enabled(s, Unlock(i))
  {
    var l := s.lanes[i];
    assert FlowOk(l, s.live[i], s.started) && SnapOk(l.held, l.order, l.cap, i);
    assert |l.order| == |l.gone| + |l.moving| + |l.chan| + |l.rest|;
  }

  /** The steps that release the read lock of shard i: its own producer's, and
      no other's. */
  function Release<V>(i: nat, remaining: nat): seq<Step<V>>
  {
    if remaining == 0 then [Unlock(i)] else [Send(i)] + Release(i, remaining - 1)
  }

  lemma RunCons<V>(s: State<V>, step: Step<V>, rest: seq<Step<V>>, t: State<V>)
    requires Enabled(s, step) && Run(After(s, step), rest, t)
    ensures Run(s, [step] + rest, t)
  {
    assert ([step] + rest)[1..] == rest;
  }

  lemma OnlyLane<V>(s: State<V>, next: State<V>, t: State<V>, i: nat)
    requires i < |s.lanes| == |next.lanes| == |t.lanes|
    requires next == s.(lanes := s.lanes[i := next.lanes[i]]) && t == next.(lanes := next.lanes[i := t.lanes[i]])
    ensures t == s.(lanes := s.lanes[i := t.lanes[i]])
  {
    assert next.lanes[i := t.lanes[i]] == s.lanes[i := t.lanes[i]];
  }

  /** From every state of every run, even if nobody reads, the producer of a
      locked shard can run to its unlock alone; nothing else moves. */
  lemma {:induction false} LockReleased<V>(s: State<V>, i: nat) returns (t: State<V>)
    requires Inv(s) && i < SHARD_COUNT && s.lanes[i].phase == Filling
    ensures Run(s, Release(i, |s.lanes[i].rest|), t)
    ensures Inv(t) && t.lanes[i].phase == Unlocked
    ensures t == s.(lanes := s.lanes[i := t.lanes[i]])
    decreases |s.lanes[i].rest|
  {
    var n := |s.lanes[i].rest|;
    if n == 0 {
      t := UnlockNow(s, i);
      RunCons(s, Unlock(i), [], t);
    } else {
      var next := SendNow(s, i);
      t := LockReleased(next, i);
      RunCons(s, Send(i), Release(i, n - 1), t);
      OnlyLane(s, next, t, i);
    }
  }

  lemma UnlockNow<V>(s: State<V>, i: nat) returns (t: State<V>)
    requires Inv(s) && i < SHARD_COUNT && s.lanes[i].phase == Filling && s.lanes[i].rest == []
    ensures Enabled(s, Unlock(i)) && t == After(s, Unlock(i)) && Inv(t)
    ensures t.lanes[i].phase == Unlocked && t == s.(lanes := s.lanes[i := t.lanes[i]])
  {
    t := After(s, Unlock(i));
    ProducerInv(s, Unlock(i));
  }

  lemma SendNow<V>(s: State<V>, i: nat) returns (t: State<V>)
    requires Inv(s) && i < SHARD_COUNT && s.lanes[i].phase == Filling && s.lanes[i].rest != []
    ensures Enabled(s, Send(i)) && t == After(s, Send(i)) && Inv(t)
    ensures t.lanes[i].phase == Filling && |t.lanes[i].rest| == |s.lanes[i].rest| - 1
    ensures t == s.(lanes := s.lanes[i := t.lanes[i]])
  {
    ProducerNeverBlocks(s, i);
    t := After(s, Send(i));
    ProducerInv(s, Send(i));
  }

  /** So a writer of a locked shard only waits for that shard's own producer. */
  lemma WriterGetsIn<V>(s: State<V>, i: nat, shard: map<string, V>) returns (t: State<V>)
    requires Inv(s) && i < SHARD_COUNT && s.lanes[i].phase == Filling
    requires forall k :: k in shard ==> ShardOf(k) == i
    ensures Run(s, Release(i, |s.lanes[i].rest|), t) && t.received == s.received && t.live == s.live
    ensures Enabled(t, Write(i, shard))
  {
    t := LockReleased(s, i);
  }

  // ---- counting --------------------------------------------------------

  function OfSum<V>(entries: seq<Entry<V>>, n: nat): nat
  {
    if n == 0 then 0 else OfSum(entries, n - 1) + |Of(entries, n - 1)|
  }

  lemma {:induction false} OfSumAppend<V>(entries: seq<Entry<V>>, e: Entry<V>, n: nat)
    ensures OfSum(entries + [e], n) == OfSum(entries, n) + (if ShardOf(e.0) < n then 1 else 0)
  {
    if n > 0 {
      OfSumAppend(entries, e, n - 1);
      OfAppend(entries, e, n - 1);
    }
  }

  lemma {:induction false} OfSumNil<V>(n: nat)
    ensures OfSum<V>([], n) == 0
  {
    if n > 0 {
      OfSumNil<V>(n - 1);
    }
  }

  /** Every entry belongs to exactly one of the shards. */
  lemma {:induction false} OfSumAll<V>(entries: seq<Entry<V>>)
    ensures OfSum(entries, SHARD_COUNT) == |entries|
  {
    if entries == [] {
      OfSumNil<V>(SHARD_COUNT);
    } else {
      var n := |entries| - 1;
      OfSumAll(entries[..n]);
      OfSumAppend(entries[..n], entries[n], SHARD_COUNT);
      assert entries[..n] + [entries[n]] == entries;
    }
  }

  lemma DeliveredFront<V>(entries: seq<Entry<V>>, lanes: seq<Lane<V>>)
    requires lanes != [] && Delivered(entries, lanes)
    ensures Delivered(entries, lanes[..|lanes| - 1])
    ensures OfSum(entries, |lanes|) == OfSum(entries, |lanes| - 1) + |lanes[|lanes| - 1].gone|
  {
    assert Of(entries, |lanes| - 1) == lanes[|lanes| - 1].gone;
  }

  function Movings<V>(lanes: seq<Lane<V>>): nat
  {
    if lanes == [] then 0 else Movings(lanes[..|lanes| - 1]) + |lanes[|lanes| - 1].moving|
  }

  lemma {:induction false} MovingAmong<V>(lanes: seq<Lane<V>>, i: nat)
    requires i < |lanes|
    ensures |lanes[i].moving| <= Movings(lanes)
  {
    if i < |lanes| - 1 {
      MovingAmong(lanes[..|lanes| - 1], i);
    }
  }

  ghost predicate Roomy<V>(lanes: seq<Lane<V>>)
  {
    forall j :: 0 <= j < |lanes| ==> |lanes[j].gone| + |lanes[j].moving| <= lanes[j].cap
  }

  /** The entries passed on and the entries held by forwarders never exceed the
      capacities together. */
  lemma {:induction false} GoneWithinCaps<V>(entries: seq<Entry<V>>, lanes: seq<Lane<V>>)
    requires Delivered(entries, lanes) && Roomy(lanes)
    ensures OfSum(entries, |lanes|) + Movings(lanes) <= Caps(lanes)
  {
    if lanes != [] {
      var front, last := lanes[..|lanes| - 1], lanes[|lanes| - 1];
      DeliveredFront(entries, lanes);
      assert |last.gone| + |last.moving| <= last.cap;
      GoneWithinCaps(entries, front);
    }
  }

  lemma LaneRoom<V>(s: State<V>, j: nat)
    requires Inv(s) && j < SHARD_COUNT
    ensures |s.lanes[j].gone| + |s.lanes[j].moving| <= s.lanes[j].cap
  {
    var l := s.lanes[j];
    assert SnapOk(l.held, l.order, l.cap, j) && FlowOk(l, s.live[j], s.started);
    assert |l.order| == |l.gone| + |l.moving| + |l.chan| + |l.rest|;
  }

  /** A forwarder of IterBuffered never blocks on the output: the output was
      made large enough for everything. */
  lemma ForwarderNeverBlocks<V>(s: State<V>, i: nat)
    requires Inv(s) && s.buffered && i < SHARD_COUNT && s.lanes[i].moving != []
    ensures Enabled(s, Forward(i))
  {
    forall j | 0 <= j < SHARD_COUNT ensures |s.lanes[j].gone| + |s.lanes[j].moving| <= s.lanes[j].cap {
      LaneRoom(s, j);
    }
    GoneWithinCaps(s.received + s.out, s.lanes);
    MovingAmong(s.lanes, i);
    OfSumAll(s.received + s.out);
    assert FlowOk(s.lanes[i], s.live[i], s.started);
  }
}
