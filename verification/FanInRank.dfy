// How long the iterator of the concurrent map runs: every own step uses up a
// finite rank, some own step is possible until the output is closed, and writers
// add nothing to what a run can take.
module FanInRank {
  import opened ShardedMap
  import opened FanIn

  // ---- every run of IterBuffered completes without a reader ------------

  lemma {:induction false} ListingExists<V>(m: map<string, V>) returns (entries: seq<Entry<V>>)
    ensures Lists(entries, m)
    decreases |m|
  {
    if m == map[] {
      entries := [];
    } else {
      var k :| k in m;
      var smaller := m - {k};
      assert m.Keys == smaller.Keys + {k};
      entries := ListingExists(smaller);
      ListsOneMore(entries, smaller, k, m[k]);
      assert smaller[k := m[k]] == m;
      entries := entries + [(k, m[k])];
    }
  }

  predicate OwnStep<V>(step: Step<V>) { !step.Receive? && !step.Write? }

  lemma LaneProgress<V>(s: State<V>, i: nat) returns (step: Step<V>)
    requires Inv(s) && s.buffered && i < SHARD_COUNT
    requires s.lanes[i].phase != Closed || (s.started && !s.lanes[i].ended)
    ensures OwnStep(step) && Enabled(s, step)
  {
    var l := s.lanes[i];
    match l.phase
    case Waiting =>
      var order := ListingExists(s.live[i]);
      step := Lock(i, order);
    case Filling =>
      ProducerNeverBlocks(s, i);
      step := if l.rest != [] then Send(i) else Unlock(i);
    case Unlocked =>
      step := Close(i);
    case Closed =>
      if l.moving != [] {
        ForwarderNeverBlocks(s, i);
        step := Forward(i);
      } else if l.chan != [] {
        step := Take(i);
      } else {
        step := End(i);
      }
  }

  /** Until the output is closed, some step of the iterator itself is possible. */
  lemma Progress<V>(s: State<V>) returns (step: Step<V>)
    requires Inv(s) && s.buffered && !s.outClosed
    ensures OwnStep(step) && Enabled(s, step)
  {
    if i :| 0 <= i < SHARD_COUNT && s.lanes[i].phase != Closed {
      step := LaneProgress(s, i);
    } else if !s.started {
      step := Start;
    } else if i :| 0 <= i < SHARD_COUNT && !s.lanes[i].ended {
      step := LaneProgress(s, i);
    } else {
      step := CloseOut;
    }
  }

  function LaneRank<V>(l: Lane<V>, live: map<string, V>): nat
  {
    match l.phase
    case Waiting => 3 * |live| + 5
    case Filling => 3 * |l.rest| + 2 * |l.chan| + |l.moving| + 4
    case Unlocked => 2 * |l.chan| + |l.moving| + 3
    case Closed => 2 * |l.chan| + |l.moving| + (if l.ended then 0 else 2)
  }

  function LanesRank<V>(lanes: seq<Lane<V>>, live: seq<map<string, V>>): nat
    requires |lanes| == |live|
  {
    if lanes == [] then 0
    else
      var n := |lanes| - 1;
      LanesRank(lanes[..n], live[..n]) + LaneRank(lanes[n], live[n])
  }

  /** How many steps of its own the iterator has left at most. */
  function Rank<V>(s: State<V>): nat
    requires |s.lanes| == |s.live|
  {
    LanesRank(s.lanes, s.live) + (if s.started then 0 else 1) + (if s.outClosed then 0 else 1)
  }

  lemma {:induction false} LanesRankUpdate<V>(lanes: seq<Lane<V>>, live: seq<map<string, V>>, i: nat, l: Lane<V>)
    requires |lanes| == |live| && i < |lanes|
    ensures LanesRank(lanes[i := l], live) == LanesRank(lanes, live) - LaneRank(lanes[i], live[i]) + LaneRank(l, live[i])
  {
    var n := |lanes| - 1;
    if i == n {
      assert lanes[i := l][..n] == lanes[..n];
    } else {
      LanesRankUpdate(lanes[..n], live[..n], i, l);
      assert lanes[i := l][..n] == lanes[..n][i := l];
    }
  }

  lemma ProducerRank<V>(s: State<V>, step: Step<V>)
    requires Enabled(s, step) && ProducerStep(step) && |s.lanes| == |s.live|
    ensures var i := step.i;
      && LaneRank(After(s, step).lanes[i], s.live[i]) < LaneRank(s.lanes[i], s.live[i])
      && After(s, step) == s.(lanes := s.lanes[i := After(s, step).lanes[i]])
  {
  }

  lemma ForwarderRank<V>(s: State<V>, step: Step<V>)
    requires Enabled(s, step) && ForwarderStep(step) && |s.lanes| == |s.live|
    requires FlowOk(s.lanes[step.i], s.live[step.i], true)
    ensures var i := step.i; var t := After(s, step);
      && LaneRank(t.lanes[i], s.live[i]) < LaneRank(s.lanes[i], s.live[i])
      && t.lanes == s.lanes[i := t.lanes[i]]
      && t.live == s.live && t.started == s.started && t.outClosed == s.outClosed
  {
  }

  /** A forwarder only moves entries once fanIn runs. */
  lemma ForwarderStarted<V>(s: State<V>, step: Step<V>)
    requires Inv(s) && Enabled(s, step) && ForwarderStep(step)
    ensures s.started && FlowOk(s.lanes[step.i], s.live[step.i], true)
  {
    assert FlowOk(s.lanes[step.i], s.live[step.i], s.started);
  }

  /** Every step of the iterator uses up rank; a read leaves it alone. */
  lemma StepRank<V>(s: State<V>, step: Step<V>)
    requires Inv(s) && Enabled(s, step) && !step.Write?
    ensures |After(s, step).lanes| == |After(s, step).live|
    ensures if step.Receive? then Rank(After(s, step)) == Rank(s) else Rank(After(s, step)) < Rank(s)
  {
    if ProducerStep(step) || ForwarderStep(step) {
      if ProducerStep(step) {
        ProducerRank(s, step);
      } else {
        ForwarderStarted(s, step);
        ForwarderRank(s, step);
      }
      LanesRankUpdate(s.lanes, s.live, step.i, After(s, step).lanes[step.i]);
    }
  }

  /** From every state of every run of IterBuffered the iterator can go on by
      itself, in at most Rank steps, until its output is closed. */
  lemma {:induction false} CompletesUnread<V>(s: State<V>) returns (steps: seq<Step<V>>, t: State<V>)
    requires Inv(s) && s.buffered
    ensures Run(s, steps, t) && Inv(t) && t.outClosed
    ensures |steps| <= Rank(s)
    ensures forall step :: step in steps ==> OwnStep(step)
    decreases Rank(s)
  {
    if s.outClosed {
      steps, t := [], s;
    } else {
      var step := Progress(s);
      var next := After(s, step);
      StepInv(s, step);
      StepRank(s, step);
      assert next.buffered;
      steps, t := CompletesUnread(next);
      RunCons(s, step, steps, t);
      steps := [step] + steps;
    }
  }

  // ---- how long any run of the iterator can be, writers included -------

  /** The steps of the iterator itself in a run. */
  function OwnSteps<V>(steps: seq<Step<V>>): nat
  {
    if steps == [] then 0 else (if OwnStep(steps[0]) then 1 else 0) + OwnSteps(steps[1..])
  }

  lemma {:induction false} LanesRankLive<V>(lanes: seq<Lane<V>>, live: seq<map<string, V>>, i: nat, shard: map<string, V>)
    requires |lanes| == |live| && i < |lanes| && lanes[i].phase != Waiting
    ensures LanesRank(lanes, live[i := shard]) == LanesRank(lanes, live)
  {
    var n := |lanes| - 1;
    if i == n {
      assert live[i := shard][..n] == live[..n];
    } else {
      LanesRankLive(lanes[..n], live[..n], i, shard);
      assert live[i := shard][..n] == live[..n][i := shard];
    }
  }

  /** Once every lock has been taken a write changes no rank. */
  lemma StartedRank<V>(s: State<V>, step: Step<V>)
    requires Inv(s) && s.started && Enabled(s, step)
    ensures |After(s, step).lanes| == |After(s, step).live| && After(s, step).started
    ensures Rank(After(s, step)) + (if OwnStep(step) then 1 else 0) <= Rank(s)
  {
    if step.Write? {
      assert FlowOk(s.lanes[step.i], s.live[step.i], s.started);
      LanesRankLive(s.lanes, s.live, step.i, step.shard);
    } else {
      StepRank(s, step);
    }
  }

  /** From every reachable state in which fanIn runs, no run has more than Rank
      steps of the iterator, whatever the writers and the reader do. */
  lemma {:induction false} RunRank<V>(s: State<V>, steps: seq<Step<V>>, t: State<V>)
    requires Inv(s) && s.started && Run(s, steps, t)
    ensures Inv(t) && OwnSteps(steps) + Rank(t) <= Rank(s)
    decreases |steps|
  {
    if steps != [] {
      StepInv(s, steps[0]);
      StartedRank(s, steps[0]);
      RunRank(After(s, steps[0]), steps[1..], t);
    }
  }

  /** The steps a lane has taken: lock, sends, unlock, close, takes, forwards, end. */
  function LaneWork<V>(l: Lane<V>): nat
  {
    var sent := |l.gone| + |l.moving| + |l.chan|;
    sent + (|l.gone| + |l.moving|) + |l.gone| + (if l.ended then 1 else 0)
    + (match l.phase case Waiting => 0 case Filling => 1 case Unlocked => 2 case Closed => 3)
  }

  function LanesWork<V>(lanes: seq<Lane<V>>): nat
  {
    if lanes == [] then 0 else LanesWork(lanes[..|lanes| - 1]) + LaneWork(lanes[|lanes| - 1])
  }

  function Work<V>(s: State<V>): nat
  {
    LanesWork(s.lanes) + (if s.started then 1 else 0) + (if s.outClosed then 1 else 0)
  }

  lemma {:induction false} LanesWorkUpdate<V>(lanes: seq<Lane<V>>, i: nat, l: Lane<V>)
    requires i < |lanes|
    ensures LanesWork(lanes[i := l]) == LanesWork(lanes) - LaneWork(lanes[i]) + LaneWork(l)
  {
    var n := |lanes| - 1;
    if i == n {
      assert lanes[i := l][..n] == lanes[..n];
    } else {
      LanesWorkUpdate(lanes[..n], i, l);
      assert lanes[i := l][..n] == lanes[..n][i := l];
    }
  }

  ghost predicate OneLane<V>(s: State<V>, t: State<V>, i: nat)
  {
    && i < |s.lanes| == |t.lanes| && t.lanes == s.lanes[i := t.lanes[i]]
    && t.started == s.started && t.outClosed == s.outClosed
  }

  lemma OneLaneWork<V>(s: State<V>, t: State<V>, i: nat)
    requires OneLane(s, t, i) && LaneWork(t.lanes[i]) == LaneWork(s.lanes[i]) + 1
    ensures Work(t) == Work(s) + 1
  {
    LanesWorkUpdate(s.lanes, i, t.lanes[i]);
  }

  lemma ProducerWork<V>(s: State<V>, step: Step<V>)
    requires Enabled(s, step) && ProducerStep(step) && |s.lanes| == |s.live|
    requires FlowOk(s.lanes[step.i], s.live[step.i], s.started)
    ensures LaneWork(After(s, step).lanes[step.i]) == LaneWork(s.lanes[step.i]) + 1
    ensures OneLane(s, After(s, step), step.i)
  {
    var l := s.lanes[step.i];
    assert |l.order| == |l.gone| + |l.moving| + |l.chan| + |l.rest|;
  }

  lemma ForwarderWork<V>(s: State<V>, step: Step<V>)
    requires Enabled(s, step) && ForwarderStep(step) && |s.lanes| == |s.live|
    requires FlowOk(s.lanes[step.i], s.live[step.i], s.started)
    ensures LaneWork(After(s, step).lanes[step.i]) == LaneWork(s.lanes[step.i]) + 1
    ensures OneLane(s, After(s, step), step.i)
  {
  }

  lemma StepWork<V>(s: State<V>, step: Step<V>)
    requires Inv(s) && Enabled(s, step)
    ensures Work(After(s, step)) == Work(s) + (if OwnStep(step) then 1 else 0)
  {
    if ProducerStep(step) || ForwarderStep(step) {
      LaneStepWork(s, step);
    } else {
      OtherWork(s, step);
    }
  }

  lemma LaneStepWork<V>(s: State<V>, step: Step<V>)
    requires Inv(s) && Enabled(s, step) && (ProducerStep(step) || ForwarderStep(step))
    ensures Work(After(s, step)) == Work(s) + 1
  {
    LaneFlows(s, step.i);
    var t := After(s, step);
    if ProducerStep(step) {
      ProducerWork(s, step);
    } else {
      ForwarderWork(s, step);
    }
    OneLaneWork(s, t, step.i);
  }

  lemma OtherWork<V>(s: State<V>, step: Step<V>)
    requires Enabled(s, step) && !ProducerStep(step) && !ForwarderStep(step)
    ensures Work(After(s, step)) == Work(s) + (if OwnStep(step) then 1 else 0)
  {
  }

  lemma LaneFlows<V>(s: State<V>, i: nat)
    requires Inv(s) && i < SHARD_COUNT
    ensures FlowOk(s.lanes[i], s.live[i], s.started)
  {}

  lemma {:induction false} RunWork<V>(s: State<V>, steps: seq<Step<V>>, t: State<V>)
    requires Inv(s) && Run(s, steps, t)
    ensures Inv(t) && Work(t) == Work(s) + OwnSteps(steps)
    decreases |steps|
  {
    if steps != [] {
      StepInv(s, steps[0]);
      StepWork(s, steps[0]);
      RunWork(After(s, steps[0]), steps[1..], t);
    }
  }

  lemma {:induction false} WorkBounded<V>(lanes: seq<Lane<V>>, held: seq<map<string, V>>)
    requires |lanes| == |held| && forall i :: 0 <= i < |lanes| ==> LaneWork(lanes[i]) <= 3 * |held[i]| + 4
    ensures LanesWork(lanes) <= 3 * Total(held) + 4 * |lanes|
  {
    if lanes != [] {
      WorkBounded(lanes[..|lanes| - 1], held[..|lanes| - 1]);
    }
  }

  lemma LaneWorkBounded<V>(l: Lane<V>, live: map<string, V>, started: bool, i: nat)
    requires SnapOk(l.held, l.order, l.cap, i) && FlowOk(l, live, started)
    ensures LaneWork(l) <= 3 * |l.held| + 4
  {
    assert |l.order| == |l.gone| + |l.moving| + |l.chan| + |l.rest|;
  }

  lemma {:induction false} FreshWork<V>(lanes: seq<Lane<V>>)
    requires forall j :: 0 <= j < |lanes| ==> lanes[j] == Lane(Waiting, map[], [], [], 0, [], [], [], false)
    ensures LanesWork(lanes) == 0
  {
    if lanes != [] {
      FreshWork(lanes[..|lanes| - 1]);
    }
  }

  /** Every run from the start, before and after Start, with any writers and any
      reader: the iterator takes at most three steps for each entry held when its
      lock was taken, four a shard and two more. */
  lemma EveryRunIsShort<V>(s: State<V>, steps: seq<Step<V>>, t: State<V>)
    requires Init(s) && Run(s, steps, t)
    ensures OwnSteps(steps) <= 3 * Total(Held(t)) + 4 * SHARD_COUNT + 2
  {
    InitInv(s);
    FreshWork(s.lanes);
    RunWork(s, steps, t);
    forall i | 0 <= i < SHARD_COUNT ensures LaneWork(t.lanes[i]) <= 3 * |Held(t)[i]| + 4 {
      LaneWorkBounded(t.lanes[i], t.live[i], t.started, i);
    }
    WorkBounded(t.lanes, Held(t));
  }
}
