// Keys of the concurrent map. The channel is sized by an earlier Count, all
// producers send into it, each under its shard's read lock, and the caller
// drains it. Writers run at the same time. A run is any sequence of the steps
// below; an entry stands for its key, its value is history.
module KeyList {
  import opened ShardedMap
  import F = FanIn
  import FanInDelivery
  import FanInRank

  type Entry<V> = F.Entry<V>

  datatype Phase = Waiting | Sending | Done

  /** One shard's producer: what the shard held when its read lock was taken,
      what it has sent of it and what is left. */
  datatype Lane<V> = Lane(phase: Phase, held: map<string, V>, sent: seq<Entry<V>>, rest: seq<Entry<V>>)

  datatype State<V> = State(
    live: seq<map<string, V>>,
    counted: nat,              // shards that Count has read
    count: nat,                // their sizes; then the capacity of the channel
    lanes: seq<Lane<V>>,
    ch: seq<Entry<V>>,
    closed: bool,
    received: seq<Entry<V>>,
    returned: bool)            // the draining loop has ended

  datatype Step<V> =
    | CountShard
    | Lock(i: nat, order: seq<Entry<V>>)
    | Send(i: nat)
    | Unlock(i: nat)
    | Close
    | Receive
    | Return
    | Write(i: nat, shard: map<string, V>)

  /** A send goes into the buffer, or, when there is none, straight to the reader,
      who receives until the channel is closed. */
  predicate Room<V>(s: State<V>) { s.count == 0 || |s.ch| < s.count }

  ghost predicate Enabled<V>(s: State<V>, step: Step<V>)
  {
    match step
    case CountShard => s.counted < |s.live|
    case Lock(i, order) =>
      s.counted == |s.live| == |s.lanes| && i < |s.lanes| && s.lanes[i].phase == Waiting && Lists(order, s.live[i])
    case Send(i) => i < |s.lanes| && s.lanes[i].phase == Sending && s.lanes[i].rest != [] && Room(s)
    case Unlock(i) => i < |s.lanes| && s.lanes[i].phase == Sending && s.lanes[i].rest == []
    case Close =>
      !s.closed && s.counted == |s.live| && forall j :: 0 <= j < |s.lanes| ==> s.lanes[j].phase == Done
    case Receive => s.ch != []
    case Return => s.closed && s.ch == [] && !s.returned
    case Write(i, shard) =>
      i < |s.live| == |s.lanes| && s.lanes[i].phase != Sending && forall k :: k in shard ==> ShardOf(k) == i
  }

  ghost function Sent<V>(s: State<V>, i: nat): State<V>
    requires i < |s.lanes| && s.lanes[i].rest != []
  {
    var l := s.lanes[i];
    var t := s.(lanes := s.lanes[i := l.(sent := l.sent + [l.rest[0]], rest := l.rest[1..])]);
    if s.count == 0 then t.(received := s.received + [l.rest[0]]) else t.(ch := s.ch + [l.rest[0]])
  }

  ghost function After<V>(s: State<V>, step: Step<V>): State<V>
    requires Enabled(s, step)
  {
    match step
    case CountShard => s.(counted := s.counted + 1, count := s.count + |s.live[s.counted]|)
    case Lock(i, order) => s.(lanes := s.lanes[i := Lane(Sending, s.live[i], [], order)])
    case Send(i) => Sent(s, i)
    case Unlock(i) => s.(lanes := s.lanes[i := s.lanes[i].(phase := Done)])
    case Close => s.(closed := true)
    case Receive => s.(received := s.received + [s.ch[0]], ch := s.ch[1..])
    case Return => s.(returned := true)
    case Write(i, shard) => s.(live := s.live[i := shard])
  }

  function Idle<V>(): Lane<V>
  {
    Lane(Waiting, map[], [], [])
  }

  ghost predicate Init<V>(s: State<V>)
  {
    && |s.live| == |s.lanes| == SHARD_COUNT && Placed(s.live)
    && (forall j :: 0 <= j < SHARD_COUNT ==> s.lanes[j] == Idle())
    && s.counted == 0 && s.count == 0 && s.ch == [] && !s.closed && s.received == [] && !s.returned
  }

  ghost predicate Run<V>(s: State<V>, steps: seq<Step<V>>, t: State<V>)
    decreases |steps|
  {
    if steps == [] then s == t
    else Enabled(s, steps[0]) && Run(After(s, steps[0]), steps[1..], t)
  }

  // ---- invariant -------------------------------------------------------

  ghost predicate LaneOk<V>(l: Lane<V>, live: map<string, V>, i: nat)
  {
    && Lists(l.sent + l.rest, l.held)
    && (forall k :: k in l.held ==> ShardOf(k) == i)
    && (l.phase == Waiting ==> l == Idle())
    && (l.phase == Sending ==> l.held == live)
    && (l.phase == Done ==> l.rest == [])
  }

  ghost predicate LanesOk<V>(s: State<V>)
  {
    forall i :: 0 <= i < |s.lanes| == |s.live| ==> LaneOk(s.lanes[i], s.live[i], i)
  }

  /** The keys of each shard in the channel or received are those its producer sent. */
  ghost predicate Delivered<V>(entries: seq<Entry<V>>, lanes: seq<Lane<V>>)
  {
    forall i :: 0 <= i < |lanes| ==> F.Of(entries, i) == lanes[i].sent
  }

  ghost predicate Inv<V>(s: State<V>)
  {
    && |s.live| == |s.lanes| == SHARD_COUNT && Placed(s.live) && LanesOk(s)
    && s.counted <= SHARD_COUNT && |s.ch| <= s.count
    && (s.counted < SHARD_COUNT ==> s.ch == [] && forall j :: 0 <= j < SHARD_COUNT ==> s.lanes[j] == Idle())
    && Delivered(s.received + s.ch, s.lanes)
    && (s.closed ==> forall j :: 0 <= j < SHARD_COUNT ==> s.lanes[j].phase == Done)
    && (s.returned ==> s.closed && s.ch == [])
  }

  lemma InitInv<V>(s: State<V>)
    requires Init(s)
    ensures Inv(s)
  {
    assert s.received + s.ch == [];
    assert forall j :: 0 <= j < SHARD_COUNT ==> s.lanes[j].sent + s.lanes[j].rest == [];
  }

  lemma LanesUpdate<V>(s: State<V>, i: nat, l: Lane<V>)
    requires LanesOk(s) && i < |s.lanes| == |s.live| && LaneOk(l, s.live[i], i)
    ensures LanesOk(s.(lanes := s.lanes[i := l]))
  {}

  lemma DeliveredUpdate<V>(entries: seq<Entry<V>>, lanes: seq<Lane<V>>, i: nat, l: Lane<V>)
    requires Delivered(entries, lanes) && i < |lanes| && l.sent == lanes[i].sent
    ensures Delivered(entries, lanes[i := l])
  {}

  /** Changing one lane. */
  lemma LaneInv<V>(s: State<V>, i: nat, l: Lane<V>)
    requires Inv(s) && i < SHARD_COUNT && s.counted == SHARD_COUNT && !s.closed
    requires LaneOk(l, s.live[i], i) && l.sent == s.lanes[i].sent
    ensures Inv(s.(lanes := s.lanes[i := l]))
  {
    LanesUpdate(s, i, l);
    DeliveredUpdate(s.received + s.ch, s.lanes, i, l);
  }

  lemma HeadBelongs<V>(l: Lane<V>, live: map<string, V>, i: nat)
    requires LaneOk(l, live, i) && l.rest != []
    ensures ShardOf(l.rest[0].0) == i
  {
    ListsExactly(l.sent + l.rest, l.held);
    assert (l.sent + l.rest)[|l.sent|] == l.rest[0];
  }

  lemma SentLane<V>(l: Lane<V>, live: map<string, V>, i: nat)
    requires LaneOk(l, live, i) && l.phase == Sending && l.rest != []
    ensures LaneOk(l.(sent := l.sent + [l.rest[0]], rest := l.rest[1..]), live, i)
  {
    assert l.sent + [l.rest[0]] + l.rest[1..] == l.sent + l.rest;
  }

  lemma SentDelivered<V>(entries: seq<Entry<V>>, lanes: seq<Lane<V>>, i: nat, e: Entry<V>, l: Lane<V>)
    requires Delivered(entries, lanes) && i < |lanes| && ShardOf(e.0) == i && l.sent == lanes[i].sent + [e]
    ensures Delivered(entries + [e], lanes[i := l])
  {
    forall j | 0 <= j < |lanes| ensures F.Of(entries + [e], j) == lanes[i := l][j].sent {
      F.OfAppend(entries, e, j);
      assert F.Of(entries, j) == lanes[j].sent;
    }
  }

  lemma SendInv<V>(s: State<V>, i: nat)
    requires Inv(s) && Enabled(s, Send(i))
    ensures Inv(Sent(s, i))
  {
    SendLanes(s, i);
    SendDelivered(s, i);
  }

  lemma SendLanes<V>(s: State<V>, i: nat)
    requires Inv(s) && Enabled(s, Send(i))
    ensures LanesOk(Sent(s, i)) && |Sent(s, i).lanes| == SHARD_COUNT && Sent(s, i).live == s.live && !s.closed
  {
    var l := s.lanes[i];
    SentLane(l, s.live[i], i);
    LanesUpdate(s, i, l.(sent := l.sent + [l.rest[0]], rest := l.rest[1..]));
  }

  lemma SendDelivered<V>(s: State<V>, i: nat)
    requires Inv(s) && Enabled(s, Send(i))
    ensures Delivered(Sent(s, i).received + Sent(s, i).ch, Sent(s, i).lanes)
  {
    var l := s.lanes[i];
    var e := l.rest[0];
    HeadBelongs(l, s.live[i], i);
    SentDelivered(s.received + s.ch, s.lanes, i, e, l.(sent := l.sent + [e], rest := l.rest[1..]));
    F.Appended(s.received, s.ch, e);
  }

  lemma WriteLanes<V>(s: State<V>, i: nat, shard: map<string, V>)
    requires LanesOk(s) && i < |s.live| == |s.lanes| && s.lanes[i].phase != Sending
    ensures LanesOk(s.(live := s.live[i := shard]))
  {}

  lemma WritePlaced<V>(live: seq<map<string, V>>, i: nat, shard: map<string, V>)
    requires Placed(live) && i < |live| && forall k :: k in shard ==> ShardOf(k) == i
    ensures Placed(live[i := shard])
  {}

  lemma WriteInv<V>(s: State<V>, i: nat, shard: map<string, V>)
    requires Inv(s) && Enabled(s, Write(i, shard))
    ensures Inv(s.(live := s.live[i := shard]))
  {
    WriteLanes(s, i, shard);
    WritePlaced(s.live, i, shard);
  }

  lemma ReceiveInv<V>(s: State<V>)
    requires Inv(s) && s.ch != []
    ensures Inv(s.(received := s.received + [s.ch[0]], ch := s.ch[1..]))
  {
    assert s.received + [s.ch[0]] + s.ch[1..] == s.received + s.ch;
  }

  lemma StepInv<V>(s: State<V>, step: Step<V>)
    requires Inv(s) && Enabled(s, step)
    ensures Inv(After(s, step))
  {
    match step
    case CountShard =>
    case Lock(i, order) =>
      assert LaneOk(s.lanes[i], s.live[i], i);
      assert [] + order == order;
      LaneInv(s, i, Lane(Sending, s.live[i], [], order));
    case Send(i) => SendInv(s, i);
    case Unlock(i) =>
      assert LaneOk(s.lanes[i], s.live[i], i);
      LaneInv(s, i, s.lanes[i].(phase := Done));
    case Close =>
    case Receive => ReceiveInv(s);
    case Return =>
    case Write(i, shard) => WriteInv(s, i, shard);
  }

  lemma {:induction false} RunInv<V>(s: State<V>, steps: seq<Step<V>>, t: State<V>)
    requires Inv(s) && Run(s, steps, t)
    ensures Inv(t)
    decreases |steps|
  {
    if steps != [] {
      StepInv(s, steps[0]);
      RunInv(After(s, steps[0]), steps[1..], t);
    }
  }

  // ---- the draining reader makes every run finish ----------------------

  predicate OwnStep<V>(step: Step<V>) { !step.Write? }

  /** Until the keys are returned, some step of the call itself is possible: a
      full channel is one the reader can take from. */
  lemma Progress<V>(s: State<V>) returns (step: Step<V>)
    requires Inv(s) && !s.returned
    ensures OwnStep(step) && Enabled(s, step)
  {
    if s.counted < SHARD_COUNT {
      step := CountShard;
    } else if i :| 0 <= i < SHARD_COUNT && s.lanes[i].phase == Waiting {
      var order := FanInRank.ListingExists(s.live[i]);
      step := Lock(i, order);
    } else if i :| 0 <= i < SHARD_COUNT && s.lanes[i].phase == Sending {
      step := if s.lanes[i].rest == [] then Unlock(i) else if Room(s) then Send(i) else Receive;
    } else if s.ch != [] {
      step := Receive;
    } else {
      step := if s.closed then Return else Close;
    }
  }

  function OwnSteps<V>(steps: seq<Step<V>>): nat
  {
    if steps == [] then 0 else (if OwnStep(steps[0]) then 1 else 0) + OwnSteps(steps[1..])
  }

  function LaneWork<V>(l: Lane<V>): nat
  {
    |l.sent| + (match l.phase case Waiting => 0 case Sending => 1 case Done => 2)
  }

  function LanesWork<V>(lanes: seq<Lane<V>>): nat
  {
    if lanes == [] then 0 else LanesWork(lanes[..|lanes| - 1]) + LaneWork(lanes[|lanes| - 1])
  }

  /** The steps taken so far; a key handed over directly is received in the step
      that sends it. */
  function Work<V>(s: State<V>): nat
  {
    s.counted + LanesWork(s.lanes) + (if s.count == 0 then 0 else |s.received|)
    + (if s.closed then 1 else 0) + (if s.returned then 1 else 0)
  }

  lemma {:induction false} LanesWorkUpdate<V>(lanes: seq<Lane<V>>, i: nat, l: Lane<V>)
    requires i < |lanes|
    ensures LanesWork(lanes[i := l]) == LanesWork(lanes) - LaneWork(lanes[i]) + LaneWork(l)
  {
    var n := |lanes| - 1;
    if i == n {
      assert lanes[i := l][..n] == lanes[..n];
    } else {
      LanesWorkUpdate(lanes[..n], i, l);
      assert lanes[i := l][..n] == lanes[..n][i := l];
    }
  }

  lemma LockWork<V>(s: State<V>, i: nat, order: seq<Entry<V>>)
    requires Inv(s) && Enabled(s, Lock(i, order))
    ensures Work(After(s, Lock(i, order))) == Work(s) + 1
  {
    assert LaneOk(s.lanes[i], s.live[i], i);
    LanesWorkUpdate(s.lanes, i, Lane(Sending, s.live[i], [], order));
  }

  /** Nothing is received before the channel exists. */
  lemma NothingEarly<V>(s: State<V>)
    requires Inv(s) && s.counted < SHARD_COUNT
    ensures s.received == []
  {
    if s.received != [] {
      F.OfKeeps(s.received + s.ch, 0);
    }
  }

  lemma StepWork<V>(s: State<V>, step: Step<V>)
    requires Inv(s) && Enabled(s, step)
    ensures Work(After(s, step)) == Work(s) + (if OwnStep(step) then 1 else 0)
  {
    match step
    case CountShard => NothingEarly(s);
    case Lock(i, order) => LockWork(s, i, order);
    case Send(i) => LanesWorkUpdate(s.lanes, i, Sent(s, i).lanes[i]);
    case Unlock(i) => LanesWorkUpdate(s.lanes, i, s.lanes[i].(phase := Done));
    case Close =>
    case Receive =>
    case Return =>
    case Write(_, _) =>
  }

  lemma {:induction false} RunWork<V>(s: State<V>, steps: seq<Step<V>>, t: State<V>)
    requires Inv(s) && Run(s, steps, t)
    ensures Inv(t) && Work(t) == Work(s) + OwnSteps(steps)
    decreases |steps|
  {
    if steps != [] {
      StepInv(s, steps[0]);
      StepWork(s, steps[0]);
      RunWork(After(s, steps[0]), steps[1..], t);
    }
  }

  ghost function Held<V>(s: State<V>): seq<map<string, V>>
  {
    seq(|s.lanes|, i requires 0 <= i < |s.lanes| => s.lanes[i].held)
  }

  function SentTotal<V>(lanes: seq<Lane<V>>): nat
  {
    if lanes == [] then 0 else SentTotal(lanes[..|lanes| - 1]) + |lanes[|lanes| - 1].sent|
  }

  function RestTotal<V>(lanes: seq<Lane<V>>): nat
  {
    if lanes == [] then 0 else RestTotal(lanes[..|lanes| - 1]) + |lanes[|lanes| - 1].rest|
  }

  /** Held keys are sent or not yet sent. */
  lemma {:induction false} HeldTotals<V>(lanes: seq<Lane<V>>, held: seq<map<string, V>>)
    requires |lanes| == |held| && forall i :: 0 <= i < |lanes| ==> |lanes[i].sent| + |lanes[i].rest| == |held[i]|
    ensures Total(held) == SentTotal(lanes) + RestTotal(lanes)
    ensures LanesWork(lanes) <= SentTotal(lanes) + 2 * |lanes|
  {
    if lanes != [] {
      HeldTotals(lanes[..|lanes| - 1], held[..|lanes| - 1]);
    }
  }

  lemma {:induction false} SentDeliveredTotal<V>(entries: seq<Entry<V>>, lanes: seq<Lane<V>>)
    requires Delivered(entries, lanes)
    ensures F.OfSum(entries, |lanes|) == SentTotal(lanes)
  {
    if lanes != [] {
      var n := |lanes| - 1;
      assert forall i :: 0 <= i < n ==> lanes[..n][i] == lanes[i];
      SentDeliveredTotal(entries, lanes[..n]);
      assert F.Of(entries, n) == lanes[n].sent;
    }
  }

  lemma Totals<V>(s: State<V>)
    requires Inv(s)
    ensures Total(Held(s)) == |s.received| + |s.ch| + RestTotal(s.lanes)
    ensures LanesWork(s.lanes) <= Total(Held(s)) + 2 * SHARD_COUNT
  {
    forall i | 0 <= i < SHARD_COUNT ensures |s.lanes[i].sent| + |s.lanes[i].rest| == |Held(s)[i]| {
      assert LaneOk(s.lanes[i], s.live[i], i);
    }
    HeldTotals(s.lanes, Held(s));
    SentDeliveredTotal(s.received + s.ch, s.lanes);
    F.OfSumAll(s.received + s.ch);
  }

  lemma {:induction false} IdleWork<V>(lanes: seq<Lane<V>>)
    requires forall j :: 0 <= j < |lanes| ==> lanes[j] == Idle()
    ensures LanesWork(lanes) == 0
  {
    if lanes != [] {
      IdleWork(lanes[..|lanes| - 1]);
    }
  }

  /** Every run, whatever the writers do: the call takes at most two steps for
      each key held when its lock was taken, three a shard and two more, and by
      Progress it can always go on until the keys are returned. */
  lemma EveryRunIsShort<V>(s: State<V>, steps: seq<Step<V>>, t: State<V>)
    requires Init(s) && Run(s, steps, t)
    ensures OwnSteps(steps) <= 2 * Total(Held(t)) + 3 * SHARD_COUNT + 2
  {
    InitInv(s);
    IdleWork(s.lanes);
    RunWork(s, steps, t);
    Totals(t);
  }

  // ---- what is returned ------------------------------------------------

  /** In every run that returns, the keys each shard held when its read lock was
      taken have been received, each once and shard by shard in order. */
  lemma EveryRunDelivers<V>(s: State<V>, steps: seq<Step<V>>, t: State<V>)
    requires Init(s) && Run(s, steps, t) && t.returned
    ensures Inv(t) && Lists(t.received, Merged(Held(t)))
    ensures forall i :: 0 <= i < SHARD_COUNT ==> F.Of(t.received, i) == t.lanes[i].sent && Lists(t.lanes[i].sent, t.lanes[i].held)
  {
    InitInv(s);
    RunInv(s, steps, t);
    assert t.received + t.ch == t.received;
    forall i | 0 <= i < SHARD_COUNT
      ensures F.Of(t.received, i) == t.lanes[i].sent && Lists(t.lanes[i].sent, t.lanes[i].held)
      ensures forall k :: k in t.lanes[i].held ==> ShardOf(k) == i
    {
      var l := t.lanes[i];
      assert LaneOk(l, t.live[i], i) && l.phase == Done;
      assert l.sent + l.rest == l.sent;
    }
    FanInDelivery.ListsUnion(t.received, Held(t));
  }

  /** The loop that drains the channel. */
  method Keys<V>(received: seq<Entry<V>>, ghost m: map<string, V>) returns (keys: seq<string>)
    requires Lists(received, m)
    ensures |keys| == |m|
    ensures forall i, j :: 0 <= i < j < |keys| ==> keys[i] != keys[j]
    ensures forall k :: k in keys <==> k in m
  {
    keys := [];
    for n := 0 to |received|
      invariant |keys| == n && forall i :: 0 <= i < n ==> keys[i] == received[i].0
    {
      keys := keys + [received[n].0];
    }
    ListsExactly(received, m);
    forall k | k in m ensures k in keys {
      assert (k, m[k]) in received;
    }
  }

  // ---- without writers -------------------------------------------------

  ghost predicate Quiet<V>(s: State<V>, live: seq<map<string, V>>)
  {
    && s.live == live && |s.lanes| == |live| && s.counted <= |live|
    && s.count == Total(live[..s.counted])
    && forall i :: 0 <= i < |s.lanes| && s.lanes[i].phase != Waiting ==> s.lanes[i].held == live[i]
  }

  lemma QuietStep<V>(s: State<V>, step: Step<V>, live: seq<map<string, V>>)
    requires Quiet(s, live) && Enabled(s, step) && OwnStep(step)
    ensures Quiet(After(s, step), live)
  {
    if step.CountShard? {
      assert live[..s.counted + 1][..s.counted] == live[..s.counted];
    }
  }

  lemma {:induction false} RunQuiet<V>(s: State<V>, steps: seq<Step<V>>, t: State<V>, live: seq<map<string, V>>)
    requires Quiet(s, live) && Run(s, steps, t)
    requires forall step :: step in steps ==> OwnStep(step)
    ensures Quiet(t, live)
    decreases |steps|
  {
    if steps != [] {
      assert steps[0] in steps;
      QuietStep(s, steps[0], live);
      RunQuiet(After(s, steps[0]), steps[1..], t, live);
    }
  }

  /** Without writers the keys returned are exactly those of the map. */
  lemma QuietRunListsContents<V>(s: State<V>, steps: seq<Step<V>>, t: State<V>)
    requires Init(s) && Run(s, steps, t) && t.returned
    requires forall step :: step in steps ==> OwnStep(step)
    ensures Lists(t.received, Merged(s.live))
  {
    RunQuiet(s, steps, t, s.live);
    EveryRunDelivers(s, steps, t);
    InitInv(s);
    RunInv(s, steps, t);
    assert Held(t) == s.live;
  }

  // ---- when a producer may wait while it holds its lock ----------------

  /** A producer under its read lock whose next send needs the reader: the buffer
      is full, or has no room at all. */
  ghost predicate Blocked<V>(s: State<V>, i: nat)
  {
    i < |s.lanes| && s.lanes[i].phase == Sending && s.lanes[i].rest != [] && |s.ch| >= s.count
  }

  lemma {:induction false} RestAmong<V>(lanes: seq<Lane<V>>, i: nat)
    requires i < |lanes|
    ensures |lanes[i].rest| <= RestTotal(lanes)
  {
    if i < |lanes| - 1 {
      RestAmong(lanes[..|lanes| - 1], i);
    }
  }

  /** No producer waits as long as the locked shards hold no more keys than Count
      found. */
  lemma CountedNeverBlocks<V>(s: State<V>, i: nat)
    requires Inv(s) && Total(Held(s)) <= s.count
    ensures !Blocked(s, i)
  {
    if i < |s.lanes| {
      Totals(s);
      RestAmong(s.lanes, i);
    }
  }

  lemma {:induction false} TotalAtMost<V>(a: seq<map<string, V>>, b: seq<map<string, V>>)
    requires |a| == |b| && forall i :: 0 <= i < |a| ==> |a[i]| <= |b[i]|
    ensures Total(a) <= Total(b)
  {
    if a != [] {
      TotalAtMost(a[..|a| - 1], b[..|b| - 1]);
    }
  }

  /** So without writers no producer ever waits. */
  lemma QuietNeverBlocks<V>(s: State<V>, steps: seq<Step<V>>, t: State<V>, i: nat)
    requires Init(s) && Run(s, steps, t)
    requires forall step :: step in steps ==> OwnStep(step)
    ensures !Blocked(t, i)
  {
    InitInv(s);
    RunInv(s, steps, t);
    RunQuiet(s, steps, t, s.live);
    if t.counted == SHARD_COUNT {
      QuietHeld(t, s.live);
      assert t.live[..SHARD_COUNT] == t.live;
      CountedNeverBlocks(t, i);
    }
  }

  lemma QuietHeld<V>(s: State<V>, live: seq<map<string, V>>)
    requires Inv(s) && Quiet(s, live)
    ensures Total(Held(s)) <= Total(live)
  {
    forall j | 0 <= j < SHARD_COUNT ensures |Held(s)[j]| <= |live[j]| {
      assert LaneOk(s.lanes[j], s.live[j], j);
    }
    TotalAtMost(Held(s), live);
  }

  // ---- exactly when none ever waits ------------------------------------

  ghost predicate AllLocked<V>(s: State<V>)
  {
    s.counted == |s.live| && forall j :: 0 <= j < |s.lanes| ==> s.lanes[j].phase != Waiting
  }

  /** The buffer has room for every key not yet sent. */
  ghost predicate Fits<V>(s: State<V>)
  {
    |s.ch| + RestTotal(s.lanes) <= s.count
  }

  ghost predicate NeverBlocks<V(!new)>(s: State<V>)
  {
    forall steps, t, i :: Run(s, steps, t) ==> !Blocked(t, i)
  }

  lemma {:induction false} RestUpdate<V>(lanes: seq<Lane<V>>, i: nat, l: Lane<V>)
    requires i < |lanes|
    ensures RestTotal(lanes[i := l]) == RestTotal(lanes) - |lanes[i].rest| + |l.rest|
  {
    var n := |lanes| - 1;
    if i == n {
      assert lanes[i := l][..n] == lanes[..n];
    } else {
      RestUpdate(lanes[..n], i, l);
      assert lanes[i := l][..n] == lanes[..n][i := l];
    }
  }

  lemma SendRest<V>(s: State<V>, i: nat)
    requires i < |s.lanes| && s.lanes[i].rest != []
    ensures RestTotal(Sent(s, i).lanes) == RestTotal(s.lanes) - 1
  {
    RestUpdate(s.lanes, i, Sent(s, i).lanes[i]);
  }

  lemma StepFits<V>(s: State<V>, step: Step<V>)
    requires AllLocked(s) && Fits(s) && Enabled(s, step)
    ensures AllLocked(After(s, step)) && Fits(After(s, step))
  {
    match step
    case CountShard =>
    case Lock(_, _) =>
    case Send(i) => SendRest(s, i);
    case Unlock(i) => RestUpdate(s.lanes, i, s.lanes[i].(phase := Done));
    case Close =>
    case Receive =>
    case Return =>
    case Write(_, _) =>
  }

  lemma {:induction false} RunFits<V>(s: State<V>, steps: seq<Step<V>>, t: State<V>)
    requires AllLocked(s) && Fits(s) && Run(s, steps, t)
    ensures Fits(t)
    decreases |steps|
  {
    if steps != [] {
      StepFits(s, steps[0]);
      RunFits(After(s, steps[0]), steps[1..], t);
    }
  }

  lemma {:induction false} SomeRest<V>(lanes: seq<Lane<V>>) returns (i: nat)
    requires RestTotal(lanes) > 0
    ensures i < |lanes| && lanes[i].rest != []
  {
    var n := |lanes| - 1;
    if lanes[n].rest != [] {
      i := n;
    } else {
      i := SomeRest(lanes[..n]);
    }
  }

  /** Unsent keys belong to a producer that holds its lock. */
  lemma SomeSender<V>(s: State<V>) returns (i: nat)
    requires Inv(s) && RestTotal(s.lanes) > 0
    ensures i < SHARD_COUNT && s.lanes[i].phase == Sending && s.lanes[i].rest != []
  {
    i := SomeRest(s.lanes);
    assert LaneOk(s.lanes[i], s.live[i], i);
  }

  /** Sending alone fills a buffer that is too small. */
  lemma {:induction false} SendUntilFull<V>(s: State<V>) returns (steps: seq<Step<V>>, t: State<V>, i: nat)
    requires Inv(s) && !Fits(s)
    ensures Run(s, steps, t) && Blocked(t, i)
    decreases s.count - |s.ch|
  {
    i := SomeSender(s);
    if |s.ch| >= s.count {
      steps, t := [], s;
    } else {
      var next := Sent(s, i);
      SendInv(s, i);
      SendRest(s, i);
      steps, t, i := SendThenFill(s, i, next);
    }
  }

  lemma {:induction false} SendThenFill<V>(s: State<V>, j: nat, next: State<V>) returns (steps: seq<Step<V>>, t: State<V>, i: nat)
    requires Enabled(s, Send(j)) && next == After(s, Send(j)) && Inv(next) && !Fits(next) && next.count - |next.ch| < s.count - |s.ch|
    ensures Run(s, steps, t) && Blocked(t, i)
    decreases s.count - |s.ch|, 0
  {
    var rest;
    rest, t, i := SendUntilFull(next);
    steps := [Send(j)] + rest;
    assert steps[1..] == rest;
  }

  /** Once every lock has been taken: no producer ever waits for the reader, in
      any continuation, exactly when the buffer has room for all that is left. */
  lemma NeverBlocksExactly<V(!new)>(s: State<V>)
    requires Inv(s) && AllLocked(s)
    ensures NeverBlocks(s) <==> |s.ch| + RestTotal(s.lanes) <= s.count
  {
    if Fits(s) {
      forall steps, t, i | Run(s, steps, t) ensures !Blocked(t, i) {
        RunFits(s, steps, t);
        if Blocked(t, i) {
          RestAmong(t.lanes, i);
        }
      }
    } else {
      var steps, t, i := SendUntilFull(s);
      assert Run(s, steps, t) && Blocked(t, i);
    }
  }

  lemma {:induction false} RunAppend<V>(s: State<V>, steps: seq<Step<V>>, t: State<V>, step: Step<V>)
    requires Run(s, steps, t) && Enabled(t, step)
    ensures Run(s, steps + [step], After(t, step))
    decreases |steps|
  {
    if steps == [] {
      assert [step][1..] == [];
      assert steps + [step] == [step];
    } else {
      RunAppend(After(s, steps[0]), steps[1..], t, step);
      assert (steps + [step])[1..] == steps[1..] + [step];
    }
  }

  /** The shards of a map with one key. */
  function Single<V>(k: string, v: V): (live: seq<map<string, V>>)
    ensures |live| == SHARD_COUNT
  {
    seq(SHARD_COUNT, i => if i == ShardOf(k) then map[k := v] else map[])
  }

  function Start<V>(live: seq<map<string, V>>): State<V>
  {
    State(live, 0, 0, seq(|live|, i => Idle()), [], false, [], false)
  }

  function Counted<V>(live: seq<map<string, V>>, n: nat, count: nat): State<V>
  {
    Start(live).(counted := n, count := count)
  }

  lemma CountOne<V>(live: seq<map<string, V>>, n: nat)
    requires n < |live|
    ensures Enabled(Counted(live, n, Total(live[..n])), CountShard)
    ensures After(Counted(live, n, Total(live[..n])), CountShard) == Counted(live, n + 1, Total(live[..n + 1]))
  {
    assert live[..n + 1][..n] == live[..n];
  }

  lemma {:induction false} CountAll<V>(live: seq<map<string, V>>, n: nat) returns (steps: seq<Step<V>>)
    requires n <= |live|
    ensures Run(Start(live), steps, Counted(live, n, Total(live[..n])))
  {
    if n == 0 {
      steps := [];
    } else {
      var before := CountAll(live, n - 1);
      CountOne(live, n - 1);
      RunAppend(Start(live), before, Counted(live, n - 1, Total(live[..n - 1])), CountShard);
      steps := before + [CountShard];
    }
  }

  lemma {:induction false} SingleTotal<V>(k: string, v: V, n: nat)
    requires n <= SHARD_COUNT
    ensures Total(Single(k, v)[..n]) == if ShardOf(k) < n then 1 else 0
  {
    if n > 0 {
      SingleTotal(k, v, n - 1);
      assert Single(k, v)[..n][..n - 1] == Single(k, v)[..n - 1];
    }
  }

  lemma OneEntry<V>(k: string, v: V)
    ensures Lists([(k, v)], map[k := v])
  {
    ListsOneMore([], map[], k, v);
    assert [] + [(k, v)] == [(k, v)];
  }

  /** A key written between Count and the read locks can leave the channel too
      small: a producer then holds its lock until the caller has drained enough.
      Any two keys will do. */
  lemma WriterMakesProducerWait<V>(a: string, b: string, v: V)
    returns (s: State<V>, steps: seq<Step<V>>, t: State<V>, i: nat)
    requires a != b
    ensures Init(s) && Run(s, steps, t) && Blocked(t, i)
  {
    i := ShardOf(b);
    var before, u;
    s, before, u := CountThenWrite(a, b, v);
    OneEntry(a, v);
    if i == ShardOf(a) {
      ListsOneMore([(a, v)], map[a := v], b, v);
      steps, t := SendFirst(s, before, u, i, [(a, v)] + [(b, v)]);
    } else {
      OneEntry(b, v);
      var sending, sent := SendFirst(s, before, u, ShardOf(a), [(a, v)]);
      steps, t := LockNext(s, sending, sent, i, [(b, v)]);
    }
  }

  /** Count finds one key, then another one is written. */
  lemma CountThenWrite<V>(a: string, b: string, v: V) returns (s: State<V>, steps: seq<Step<V>>, t: State<V>)
    ensures Init(s) && Run(s, steps, t)
    ensures t.counted == |t.live| == |t.lanes| == SHARD_COUNT && t.count == 1 && t.ch == []
    ensures forall j :: 0 <= j < SHARD_COUNT ==> t.lanes[j] == Idle()
    ensures t.live == Single(a, v)[ShardOf(b) := Single(a, v)[ShardOf(b)][b := v]]
  {
    s := Start(Single(a, v));
    var counting := CountAll(s.live, SHARD_COUNT);
    SingleTotal(a, v, SHARD_COUNT);
    assert s.live[..SHARD_COUNT] == s.live;
    var step := Write(ShardOf(b), s.live[ShardOf(b)][b := v]);
    RunAppend(s, counting, Counted(s.live, SHARD_COUNT, 1), step);
    steps, t := counting + [step], After(Counted(s.live, SHARD_COUNT, 1), step);
  }

  lemma LockNext<V>(s: State<V>, before: seq<Step<V>>, u: State<V>, i: nat, order: seq<Entry<V>>)
    returns (steps: seq<Step<V>>, t: State<V>)
    requires Run(s, before, u) && Enabled(u, Lock(i, order)) && order != [] && |u.ch| >= u.count
    ensures Run(s, steps, t) && Blocked(t, i)
  {
    RunAppend(s, before, u, Lock(i, order));
    steps, t := before + [Lock(i, order)], After(u, Lock(i, order));
  }

  /** A producer takes its lock and sends its first key, filling the channel. */
  lemma SendFirst<V>(s: State<V>, before: seq<Step<V>>, u: State<V>, i: nat, order: seq<Entry<V>>)
    returns (steps: seq<Step<V>>, t: State<V>)
    requires Run(s, before, u) && Enabled(u, Lock(i, order)) && order != [] && u.count == 1 && u.ch == []
    ensures Run(s, steps, t) && |t.ch| >= t.count
    ensures t == u.(lanes := u.lanes[i := Lane(Sending, u.live[i], [order[0]], order[1..])], ch := [order[0]])
  {
    RunAppend(s, before, u, Lock(i, order));
    var locked := After(u, Lock(i, order));
    RunAppend(s, before + [Lock(i, order)], locked, Send(i));
    steps, t := before + [Lock(i, order)] + [Send(i)], After(locked, Send(i));
    assert [] + [order[0]] == [order[0]];
    assert t.lanes[i] == Lane(Sending, u.live[i], [order[0]], order[1..]);
    assert t.lanes == u.lanes[i := t.lanes[i]];
  }
}
