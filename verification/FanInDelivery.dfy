// What the reader of the iterator receives: exactly what each shard held when its
// lock was taken.
module FanInDelivery {
  import opened ShardedMap
  import opened FanIn

  lemma {:induction false} CollectOf<V>(entries: seq<Entry<V>>, k: string)
    ensures k in Collect(entries) <==> k in Collect(Of(entries, ShardOf(k)))
    ensures k in Collect(entries) ==> Collect(entries)[k] == Collect(Of(entries, ShardOf(k)))[k]
  {
    if entries != [] {
      var n := |entries| - 1;
      CollectOf(entries[..n], k);
      var front := Of(entries[..n], ShardOf(k));
      if ShardOf(entries[n].0) == ShardOf(k) {
        assert (front + [entries[n]])[..|front|] == front;
        assert Collect(front + [entries[n]]) == Collect(front)[entries[n].0 := entries[n].1];
      } else {
        assert front + [] == front;
      }
    }
  }

  lemma {:induction false} TotalOf<V>(entries: seq<Entry<V>>, ms: seq<map<string, V>>)
    requires forall i :: 0 <= i < |ms| ==> |Of(entries, i)| == |ms[i]|
    ensures OfSum(entries, |ms|) == Total(ms)
  {
    if ms != [] {
      TotalOf(entries, ms[..|ms| - 1]);
    }
  }

  lemma LaneDelivered<V>(s: State<V>, i: nat)
    requires Inv(s) && s.outClosed && s.out == [] && i < SHARD_COUNT
    ensures Of(s.received, i) == s.lanes[i].order && s.lanes[i].phase == Closed
    ensures Lists(s.lanes[i].order, s.lanes[i].held) && forall k :: k in s.lanes[i].held ==> ShardOf(k) == i
  {
    var l := s.lanes[i];
    assert s.received + s.out == s.received;
    assert l.ended && FlowOk(l, s.live[i], s.started) && SnapOk(l.held, l.order, l.cap, i);
    assert l.order == l.gone;
  }

  /** Entries that list each of 32 placed maps list their union. */
  lemma ListsUnion<V>(entries: seq<Entry<V>>, ms: seq<map<string, V>>)
    requires |ms| == SHARD_COUNT && Placed(ms)
    requires forall i :: 0 <= i < SHARD_COUNT ==> Lists(Of(entries, i), ms[i])
    ensures Lists(entries, Merged(ms))
  {
    forall k
      ensures k in Collect(entries) <==> k in Merged(ms)
      ensures k in Merged(ms) ==> Collect(entries)[k] == Merged(ms)[k]
    {
      CollectOf(entries, k);
      MergedLookup(ms, k);
      assert Lists(Of(entries, ShardOf(k)), ms[ShardOf(k)]);
    }
    assert Collect(entries) == Merged(ms);
    TotalOf(entries, ms);
    OfSumAll(entries);
    MergedCount(ms);
  }

  /** Once the output is closed and drained, the reader has received, shard by
      shard and in order, exactly what each shard held when its lock was taken:
      every entry once. */
  lemma ClosedDelivered<V>(s: State<V>)
    requires Inv(s) && s.outClosed && s.out == []
    ensures forall i :: 0 <= i < SHARD_COUNT ==> Of(s.received, i) == s.lanes[i].order
    ensures Lists(s.received, Merged(Held(s)))
  {
    forall i | 0 <= i < SHARD_COUNT
      ensures Of(s.received, i) == s.lanes[i].order && Lists(s.lanes[i].order, s.lanes[i].held)
      ensures forall k :: k in s.lanes[i].held ==> ShardOf(k) == i
    {
      LaneDelivered(s, i);
    }
    ListsUnion(s.received, Held(s));
  }

  /** Every run, from the start, whatever writers and reader do in between. */
  lemma EveryRunDelivers<V>(s: State<V>, steps: seq<Step<V>>, t: State<V>)
    requires Init(s) && Run(s, steps, t) && t.outClosed && t.out == []
    ensures Inv(t) && Lists(t.received, Merged(Held(t)))
    ensures forall i :: 0 <= i < SHARD_COUNT ==> Of(t.received, i) == t.lanes[i].order
  {
    InitInv(s);
    RunInv(s, steps, t);
    ClosedDelivered(t);
  }

  ghost predicate Quiet<V>(s: State<V>, live: seq<map<string, V>>)
  {
    && s.live == live && |s.lanes| == |live|
    && forall i :: 0 <= i < |s.lanes| && s.lanes[i].phase != Waiting ==> s.lanes[i].held == live[i]
  }

  lemma LaneQuiet<V>(s: State<V>, i: nat, l: Lane<V>, live: seq<map<string, V>>)
    requires Quiet(s, live) && i < |s.lanes| && (l.phase != Waiting ==> l.held == live[i])
    ensures Quiet(s.(lanes := s.lanes[i := l]), live)
  {}

  lemma StepQuiet<V>(s: State<V>, step: Step<V>, live: seq<map<string, V>>)
    requires Quiet(s, live) && Enabled(s, step) && !step.Write?
    ensures Quiet(After(s, step), live)
  {
    if ProducerStep(step) || ForwarderStep(step) {
      assert s.lanes[step.i].phase == Waiting || s.lanes[step.i].held == live[step.i];
      LaneQuiet(s, step.i, After(s, step).lanes[step.i], live);
    }
  }

  lemma {:induction false} RunQuiet<V>(s: State<V>, steps: seq<Step<V>>, t: State<V>, live: seq<map<string, V>>)
    requires Quiet(s, live) && Run(s, steps, t)
    requires forall step :: step in steps ==> !step.Write?
    ensures Quiet(t, live)
    decreases |steps|
  {
    if steps != [] {
      assert steps[0] in steps;
      StepQuiet(s, steps[0], live);
      RunQuiet(After(s, steps[0]), steps[1..], t, live);
    }
  }

  /** Without writers the reader receives exactly the map's contents. */
  lemma QuietRunDeliversContents<V>(s: State<V>, steps: seq<Step<V>>, t: State<V>)
    requires Init(s) && Run(s, steps, t) && t.outClosed && t.out == []
    requires forall step :: step in steps ==> !step.Write?
    ensures Lists(t.received, Merged(s.live))
  {
    InitInv(s);
    RunInv(s, steps, t);
    RunQuiet(s, steps, t, s.live);
    EveryRunDelivers(s, steps, t);
    forall i | 0 <= i < SHARD_COUNT ensures t.lanes[i].phase == Closed {
      LaneDelivered(t, i);
    }
    assert Held(t) == s.live;
  }

  /** The loop of Items over what the iterator delivers. */
  method Items<V>(received: seq<Entry<V>>) returns (tmp: map<string, V>)
    ensures tmp == Collect(received)
    ensures forall m :: Lists(received, m) ==> tmp == m
  {
    tmp := map[];
    for i := 0 to |received|
      invariant tmp == Collect(received[..i])
    {
      assert received[..i + 1][..i] == received[..i];
      tmp := tmp[received[i].0 := received[i].1];
    }
    assert received[..|received|] == received;
  }
}
