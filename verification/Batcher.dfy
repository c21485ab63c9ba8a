// The captain's analytics batcher: bounded queues filled by request handlers
// and emptied by one worker loop each, in batches.
module Batcher {
  const QUEUE_CAP := 10000
  const BATCH_SIZE := 1000

  /** A usage or website-access record: the source address and the rest. */
  datatype Record<T> = Record(sourceIP: string, body: T)

  function Filled<T>(data: Record<T>): Record<T>
  {
    if data.sourceIP == "" then data.(sourceIP := "0.0.0.0") else data
  }

  // ---- one queue with its worker ---------------------------------------

  /** What is waiting, what is collected, and the batches handed to flush. */
  datatype State<T> = State(queue: seq<Record<T>>, batch: seq<Record<T>>, flushed: seq<seq<Record<T>>>)

  function Initial<T>(): State<T>
  {
    State([], [], [])
  }

  /** A handler offers a record, the worker receives one, the ticker fires. */
  datatype Event<T> = Offer(data: Record<T>) | Receive | Tick

  ghost predicate Enabled<T>(s: State<T>, e: Event<T>)
  {
    e.Receive? ==> s.queue != []
  }

  ghost function Flush<T>(s: State<T>): State<T>
  {
    State(s.queue, [], s.flushed + [s.batch])
  }

  ghost function Step<T>(s: State<T>, e: Event<T>): State<T>
    requires Enabled(s, e)
  {
    match e
    case Offer(data) =>
      if |s.queue| < QUEUE_CAP then s.(queue := s.queue + [Filled(data)]) else s
    case Receive =>
      var more := s.(queue := s.queue[1..], batch := s.batch + [s.queue[0]]);
      if |more.batch| >= BATCH_SIZE then Flush(more) else more
    case Tick =>
      if |s.batch| > 0 then Flush(s) else s
  }

  class Service<T(0)> {
    var queue: seq<Record<T>>
    const items: array<Record<T>>
    var count: nat
    var flushed: seq<seq<Record<T>>>

    ghost predicate Valid()
      reads this
    {
      items.Length == BATCH_SIZE && count < BATCH_SIZE && |queue| <= QUEUE_CAP
    }

    ghost function Value(): State<T>
      requires Valid()
      reads this, items
    {
      State(queue, items[..count], flushed)
    }

    constructor ()
      ensures Valid() && fresh(items) && Value() == Initial()
    {
      queue, count, flushed := [], 0, [];
      items := new Record<T>[BATCH_SIZE];
    }

    /** A record is refused only when the queue is full. */
    method Offer(data: Record<T>) returns (ok: bool)
      requires Valid()
      modifies this`queue
      ensures Valid() && ok == (|old(queue)| < 10000)
      ensures Value() == Step(old(Value()), Event.Offer(data))
    {
      var filled := data;
      if filled.sourceIP == "" {
        filled := filled.(sourceIP := "0.0.0.0");
      }
      ok := |queue| < QUEUE_CAP;
      if ok {
        queue := queue + [filled];
      }
    }

    /** The batch reuses its array; the slice never outgrows it. */
    method Receive()
      requires Valid() && queue != []
      modifies this, items
      ensures Valid()
      ensures Value() == Step(old(Value()), Event.Receive)
    {
      items[count] := queue[0];
      queue, count := queue[1..], count + 1;
      assert items[..count] == old(items[..count]) + [old(queue)[0]];
      if count >= BATCH_SIZE {
        flushed, count := flushed + [items[..count]], 0;
      }
    }

    method Tick()
      requires Valid()
      modifies this`count, this`flushed
      ensures Valid()
      ensures Value() == Step(old(Value()), Event.Tick)
    {
      if count > 0 {
        flushed, count := flushed + [items[..count]], 0;
      }
    }
  }

  // ---- whole runs ------------------------------------------------------

  // A run is a schedule that never receives from an empty queue.
  ghost predicate Runs<T>(run: seq<Event<T>>)
    decreases |run|, 0
  {
    run != [] ==>
      var before := run[..|run| - 1];
      Runs(before) && Enabled(After(before), run[|run| - 1])
  }

  ghost function After<T>(run: seq<Event<T>>): State<T>
    requires Runs(run)
    decreases |run|, 1
  {
    if run == [] then Initial()
    else Step(After(run[..|run| - 1]), run[|run| - 1])
  }

  /** The records a schedule accepted, in the order of their acceptance. */
  ghost function Accepted<T>(run: seq<Event<T>>): seq<Record<T>>
    requires Runs(run)
  {
    if run == [] then []
    else
      var before, e := run[..|run| - 1], run[|run| - 1];
      Accepted(before) + (if e.Offer? && |After(before).queue| < QUEUE_CAP then [Filled(e.data)] else [])
  }

  /** What was offered when there was room, as it was offered. */
  ghost function OfferedWithRoom<T>(run: seq<Event<T>>): seq<Record<T>>
    requires Runs(run)
  {
    if run == [] then []
    else
      var before, e := run[..|run| - 1], run[|run| - 1];
      OfferedWithRoom(before) + (if e.Offer? && |After(before).queue| < 10000 then [e.data] else [])
  }

  /** A record is stored as it was offered, but for a missing source address. */
  ghost predicate StoredAs<T>(offered: Record<T>, stored: Record<T>)
  {
    && (offered.sourceIP != "" ==> stored == offered)
    && (offered.sourceIP == "" ==> stored == Record("0.0.0.0", offered.body))
  }

  lemma {:induction false} AcceptedAsOffered<T>(run: seq<Event<T>>)
    requires Runs(run)
    ensures |Accepted(run)| == |OfferedWithRoom(run)|
    ensures forall i :: 0 <= i < |Accepted(run)| ==> StoredAs(OfferedWithRoom(run)[i], Accepted(run)[i])
  {
    if run != [] {
      AcceptedAsOffered(run[..|run| - 1]);
    }
  }

  /** So at every point of every run, what is flushed, collected and queued is, one
      for one and in order, what was offered while there was room: unchanged if it
      had a source address, and with 0.0.0.0 for one if not. */
  lemma RecordsArriveAsOffered<T>(run: seq<Event<T>>)
    requires Runs(run)
    ensures var held := Flat(After(run).flushed) + After(run).batch + After(run).queue;
            && |held| == |OfferedWithRoom(run)|
            && forall i :: 0 <= i < |held| ==> StoredAs(OfferedWithRoom(run)[i], held[i])
  {
    RunConserves(run);
    AcceptedAsOffered(run);
  }

  ghost function Ticks<T>(run: seq<Event<T>>): nat
  {
    if run == [] then 0 else Ticks(run[..|run| - 1]) + (if run[|run| - 1].Tick? then 1 else 0)
  }

  function Flat<A>(batches: seq<seq<A>>): seq<A>
  {
    if batches == [] then [] else Flat(batches[..|batches| - 1]) + batches[|batches| - 1]
  }

  function Held<T>(s: State<T>): seq<Record<T>>
  {
    Flat(s.flushed) + s.batch + s.queue
  }

  lemma FlushKeepsHeld<T>(s: State<T>)
    ensures Held(Flush(s)) == Held(s)
  {
    var after := Flush(s);
    assert after.flushed[..|s.flushed|] == s.flushed;
    assert Flat(after.flushed) == Flat(s.flushed) + s.batch;
  }

  lemma StepHolds<T>(s: State<T>, e: Event<T>)
    requires Enabled(s, e)
    ensures Held(Step(s, e)) == Held(s) + (if e.Offer? && |s.queue| < QUEUE_CAP then [Filled(e.data)] else [])
  {
    match e
    case Offer(data) =>
    case Receive =>
      var more := s.(queue := s.queue[1..], batch := s.batch + [s.queue[0]]);
      assert s.queue == [s.queue[0]] + s.queue[1..];
      FlushKeepsHeld(more);
    case Tick =>
      FlushKeepsHeld(s);
  }

  /** At every point of every run the accepted records are, in the order of
      acceptance, the flushed batches, the collected batch and the queue: each
      is flushed at most once, none is lost and none is reordered. */
  lemma {:induction false} RunConserves<T>(run: seq<Event<T>>)
    requires Runs(run)
    ensures Accepted(run) == Flat(After(run).flushed) + After(run).batch + After(run).queue
  {
    if run != [] {
      var before, e := run[..|run| - 1], run[|run| - 1];
      RunConserves(before);
      StepHolds(After(before), e);
    }
  }

  /** The batch stays under its size between steps, the queue within its
      capacity, and no batch is flushed empty or oversized. */
  lemma {:induction false} RunBounds<T>(run: seq<Event<T>>)
    requires Runs(run)
    ensures |After(run).batch| < 1000 && |After(run).queue| <= 10000
    ensures forall i :: 0 <= i < |After(run).flushed| ==> 0 < |After(run).flushed[i]| <= 1000
  {
    if run != [] {
      RunBounds(run[..|run| - 1]);
    }
  }

  /** Apart from one a tick, every flush carries a full batch: the number of
      database calls is at most the ticks plus a thousandth of the records. */
  lemma {:induction false} FlushesAreFew<T>(run: seq<Event<T>>)
    requires Runs(run)
    ensures 1000 * (|After(run).flushed| - Ticks(run)) <= |Flat(After(run).flushed)| <= |Accepted(run)|
  {
    RunConserves(run);
    if run != [] {
      var before := run[..|run| - 1];
      FlushesAreFew(before);
      RunBounds(before);
      var s, t := After(before), After(run);
      if t.flushed != s.flushed {
        assert t.flushed[..|s.flushed|] == s.flushed;
      }
    }
  }

  function Receives<T>(n: nat): seq<Event<T>>
  {
    if n == 0 then [] else Receives(n - 1) + [Receive]
  }

  lemma ReceiveTakesOne<T>(s: State<T>)
    requires s.queue != []
    ensures |Step(s, Receive).queue| == |s.queue| - 1
  {}

  lemma {:induction false} ReceivesRun<T>(run: seq<Event<T>>, n: nat)
    requires Runs(run) && n <= |After(run).queue|
    ensures Runs(run + Receives(n))
    ensures |After(run + Receives(n)).queue| == |After(run).queue| - n
    ensures Accepted(run + Receives(n)) == Accepted(run)
  {
    if n == 0 {
      assert run + Receives(0) == run;
    } else {
      ReceivesRun(run, n - 1);
      OneMore(run + Receives(n - 1), Receive);
      ReceiveTakesOne(After(run + Receives(n - 1)));
      assert run + Receives(n) == (run + Receives(n - 1)) + [Receive];
    }
  }

  lemma OneMore<T>(run: seq<Event<T>>, e: Event<T>)
    requires Runs(run) && Enabled(After(run), e) && !e.Offer?
    ensures Runs(run + [e]) && After(run + [e]) == Step(After(run), e) && Accepted(run + [e]) == Accepted(run)
  {
    assert (run + [e])[..|run|] == run;
  }

  /** From any reachable state, receiving what is queued and one tick hand
      every accepted record to flush: exactly once each, in order. */
  lemma DrainFlushesAll<T>(run: seq<Event<T>>)
    requires Runs(run)
    ensures Runs(run + Receives(|After(run).queue|) + [Tick])
    ensures Flat(After(run + Receives(|After(run).queue|) + [Tick]).flushed) == Accepted(run)
  {
    var received := run + Receives(|After(run).queue|);
    ReceivesRun(run, |After(run).queue|);
    OneMore(received, Tick);
    RunConserves(received + [Tick]);
  }
}
