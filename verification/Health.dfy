// The worker's health counters: updated by every connection while the hourly
// report swaps them to zero, one counter at a time.
module Health {
  const TWO32 := 0x1_0000_0000
  const TWO64 := 0x1_0000_0000_0000_0000
  const SECONDS := 3600

  type UpstreamId = string

  type uint32 = x: int | 0 <= x < TWO32
  type uint64 = x: int | 0 <= x < TWO64

  datatype Stats = Stats(tag: string, totalLatency: int, requests: uint64, errors: uint64)

  datatype Counters = Counters(active: uint32, total: uint64, bytes: uint64, errors: uint64, successes: uint64,
                               upstreams: map<UpstreamId, Stats>)

  const ZERO := Counters(0, 0, 0, 0, 0, map[])

  /** Two's complement: the signed 64-bit value congruent to x. */
  function Signed64(x: int): (y: int)
    ensures -TWO64 / 2 <= y < TWO64 / 2 && (y - x) % TWO64 == 0
  {
    (x + TWO64 / 2) % TWO64 - TWO64 / 2
  }

  // ---- one atomic operation or lock section each -----------------------

  /** The single-number counters that a report swaps out. */
  datatype Counter = Total | Bytes | Errors | Successes

  datatype Event =
    | Begin(conn: nat)
    | End(conn: nat)
    | Add(counter: Counter, n: uint64)
    | Swap(counter: Counter)
    | Upstream(id: UpstreamId, tag: string, millis: int, isError: bool)
    | SwapUpstreams

  function Read(c: Counters, counter: Counter): uint64
  {
    match counter
    case Total => c.total
    case Bytes => c.bytes
    case Errors => c.errors
    case Successes => c.successes
  }

  function Written(c: Counters, counter: Counter, n: uint64): Counters
  {
    match counter
    case Total => c.(total := n)
    case Bytes => c.(bytes := n)
    case Errors => c.(errors := n)
    case Successes => c.(successes := n)
  }

  /** The entry of an upstream, or a fresh one. */
  function Entry(upstreams: map<UpstreamId, Stats>, id: UpstreamId, tag: string): Stats
  {
    if id in upstreams then upstreams[id] else Stats(tag, 0, 0, 0)
  }

  function Recorded(s: Stats, millis: int, isError: bool): Stats
  {
    Stats(s.tag, Signed64(s.totalLatency + millis), (s.requests + 1) % TWO64,
          if isError then (s.errors + 1) % TWO64 else s.errors)
  }

  function Step(c: Counters, e: Event): Counters
  {
    match e
    case Begin(_) => c.(active := (c.active + 1) % TWO32)
    case End(_) => c.(active := (c.active + (TWO32 - 1)) % TWO32)
    case Add(counter, n) => Written(c, counter, (Read(c, counter) + n) % TWO64)
    case Swap(counter) => Written(c, counter, 0)
    case Upstream(id, tag, millis, isError) =>
      c.(upstreams := c.upstreams[id := Recorded(Entry(c.upstreams, id, tag), millis, isError)])
    case SwapUpstreams => c.(upstreams := map[])
  }

  /** The swaps of one report, in its order and with nothing in between. */
  function Taken(c: Counters): Counters
  {
    Step(Step(Step(Step(Step(c, Swap(Total)), Swap(Bytes)), Swap(Errors)), Swap(Successes)), SwapUpstreams)
  }

  // ---- the object ------------------------------------------------------

  /** Go's integer division: truncated. */
  function Quotient(a: int, b: int): int
    requires b != 0
  {
    if a >= 0 then a / b else -(-a / b)
  }

  /** Which rounds towards zero, whatever the signs. */
  lemma Truncates(a: int, b: int)
    requires b > 0
    ensures a >= 0 ==> Quotient(a, b) * b <= a < Quotient(a, b) * b + b
    ensures a <= 0 ==> Quotient(a, b) * b - b < a <= Quotient(a, b) * b
  {
    var n := if a >= 0 then a else -a;
    assert n == (n / b) * b + n % b;
    if a < 0 {
      assert Quotient(a, b) * b == -((n / b) * b);
    }
  }

  datatype UpstreamReport = UpstreamReport(tag: string, latency: int, errors: uint64, requests: uint64)

  function Summary(s: Stats): UpstreamReport
  {
    UpstreamReport(s.tag, if s.requests > 0 then Signed64(Quotient(s.totalLatency, Signed64(s.requests))) else 0,
                   s.errors, s.requests)
  }

  /** The latency of a report is the mean of the interval, rounded down. */
  lemma LatencyIsMean(s: Stats)
    requires 0 < s.requests < TWO64 / 2 && 0 <= s.totalLatency < TWO64 / 2
    ensures var mean := Summary(s).latency;
            mean * s.requests <= s.totalLatency < (mean + 1) * s.requests
  {
    Mean(s.totalLatency, s.requests);
    SmallSigned(s.requests);
    SmallSigned(s.totalLatency / s.requests);
  }

  lemma Mean(total: nat, n: nat)
    requires n > 0
    ensures 0 <= total / n <= total && (total / n) * n <= total < (total / n + 1) * n
  {
    var q, r := total / n, total % n;
    assert total == q * n + r;
    assert (q + 1) * n == q * n + n;
    if q > 0 {
      Grows(q, n);
    }
  }

  lemma Grows(q: nat, n: nat)
    requires n > 0
    ensures q * n >= q
  {}

  lemma SmallSigned(x: int)
    requires 0 <= x < TWO64 / 2
    ensures Signed64(x) == x
  {}

  datatype Report = Report(idle: bool, active: uint32, total: uint64, bytesPerSec: uint64, errors: uint64,
                           successes: uint64, upstreams: map<UpstreamId, UpstreamReport>)

  lemma SetTwice<K, V>(m: map<K, V>, k: K, v: V, w: V)
    ensures m[k := v][k := w] == m[k := w]
  {}

  class UpstreamStats {
    const tag: string
    var totalLatency: int
    var requests: uint64
    var errors: uint64

    constructor (tag: string)
      ensures Value() == Stats(tag, 0, 0, 0)
    {
      this.tag, totalLatency, requests, errors := tag, 0, 0, 0;
    }

    function Value(): Stats
      reads this
    {
      Stats(tag, totalLatency, requests, errors)
    }

    method Record(millis: int, isError: bool)
      modifies this
      ensures Value() == Recorded(old(Value()), millis, isError)
    {
      totalLatency := Signed64(totalLatency + millis);
      requests := (requests + 1) % TWO64;
      if isError {
        errors := (errors + 1) % TWO64;
      }
    }
  }

  class HealthCollector {
    var activeConnections: uint32
    var totalConnections: uint64
    var bytesThroughput: uint64
    var errorCount: uint64
    var successCount: uint64
    var upstreamStats: map<UpstreamId, UpstreamStats>

    ghost predicate Valid()
      reads this
    {
      forall i, j :: i in upstreamStats && j in upstreamStats && i != j ==> upstreamStats[i] != upstreamStats[j]
    }

    ghost function Upstreams(): map<UpstreamId, Stats>
      reads this, upstreamStats.Values
    {
      map id | id in upstreamStats :: upstreamStats[id].Value()
    }

    ghost function State(): Counters
      reads this, upstreamStats.Values
    {
      Counters(activeConnections, totalConnections, bytesThroughput, errorCount, successCount, Upstreams())
    }

    constructor ()
      ensures Valid() && State() == ZERO
    {
      activeConnections, totalConnections, bytesThroughput, errorCount, successCount := 0, 0, 0, 0, 0;
      upstreamStats := map[];
    }

    /** The two additions of a new connection are separate atomic operations. */
    method IncrementConnection(ghost conn: nat)
      requires Valid()
      modifies this`activeConnections, this`totalConnections
      ensures Valid() && State() == Step(Step(old(State()), Begin(conn)), Add(Total, 1))
      ensures activeConnections == (old(activeConnections) + 1) % 0x1_0000_0000
      ensures totalConnections == (old(totalConnections) + 1) % 0x1_0000_0000_0000_0000
    {
      activeConnections := (activeConnections + 1) % TWO32;
      totalConnections := (totalConnections + 1) % TWO64;
    }

    /** Subtracting one is adding the complement of zero. */
    method DecrementConnection(ghost conn: nat)
      requires Valid()
      modifies this`activeConnections
      ensures Valid() && State() == Step(old(State()), End(conn))
      ensures activeConnections == if old(activeConnections) == 0 then 0xFFFF_FFFF else old(activeConnections) - 1
    {
      activeConnections := (activeConnections + 0xFFFF_FFFF) % TWO32;
    }

    method AddThroughput(bytes: uint64)
      requires Valid()
      modifies this`bytesThroughput
      ensures Valid() && State() == Step(old(State()), Add(Bytes, bytes))
      ensures bytesThroughput == (old(bytesThroughput) + bytes) % 0x1_0000_0000_0000_0000
    {
      bytesThroughput := (bytesThroughput + bytes) % TWO64;
    }

    method RecordError()
      requires Valid()
      modifies this`errorCount
      ensures Valid() && State() == Step(old(State()), Add(Errors, 1))
      ensures errorCount == (old(errorCount) + 1) % 0x1_0000_0000_0000_0000
    {
      errorCount := (errorCount + 1) % TWO64;
    }

    method RecordSuccess()
      requires Valid()
      modifies this`successCount
      ensures Valid() && State() == Step(old(State()), Add(Successes, 1))
      ensures successCount == (old(successCount) + 1) % 0x1_0000_0000_0000_0000
    {
      successCount := (successCount + 1) % TWO64;
    }

    /** The entry of the upstream, made on its first use since the last report. */
    method Lookup(id: UpstreamId, tag: string) returns (stats: UpstreamStats)
      requires Valid()
      modifies this`upstreamStats
      ensures Valid() && id in upstreamStats && stats == upstreamStats[id]
      ensures stats in old(upstreamStats.Values) || fresh(stats)
      ensures Upstreams() == old(Upstreams())[id := Entry(old(Upstreams()), id, tag)]
    {
      if id in upstreamStats {
        stats := upstreamStats[id];
      } else {
        stats := new UpstreamStats(tag);
        upstreamStats := upstreamStats[id := stats];
      }
    }

    method RecordUpstreamLatency(id: UpstreamId, tag: string, millis: int, isError: bool)
      requires Valid()
      modifies this`upstreamStats, upstreamStats.Values
      ensures Valid() && State() == Step(old(State()), Upstream(id, tag, millis, isError))
    {
      var stats := Lookup(id, tag);
      ghost var before := Upstreams();
      assert before[id] == stats.Value();
      stats.Record(millis, isError);
      forall k | k in upstreamStats
        ensures Upstreams()[k] == before[id := stats.Value()][k]
      {
        assert k != id ==> upstreamStats[k] != stats;
      }
      assert Upstreams() == before[id := stats.Value()];
      SetTwice(old(Upstreams()), id, Entry(old(Upstreams()), id, tag), stats.Value());
    }

    /** The entries of the report, one an upstream. */
    method Summaries() returns (summaries: map<UpstreamId, UpstreamReport>)
      ensures summaries.Keys == upstreamStats.Keys
      ensures forall id :: id in summaries ==> summaries[id] == Summary(upstreamStats[id].Value())
    {
      summaries := map[];
      var todo := upstreamStats.Keys;
      while todo != {}
        invariant todo <= upstreamStats.Keys && summaries.Keys == upstreamStats.Keys - todo
        invariant forall id :: id in summaries ==> summaries[id] == Summary(upstreamStats[id].Value())
        decreases todo
      {
        var id :| id in todo;
        var stats := upstreamStats[id];
        var latency := 0;
        if stats.requests > 0 {
          latency := Signed64(Quotient(stats.totalLatency, Signed64(stats.requests)));
        }
        summaries := summaries[id := UpstreamReport(stats.tag, latency, stats.errors, stats.requests)];
        todo := todo - {id};
      }
    }

    /** The report of a quiet collector; in a busy one other events come between
        its swaps, which the runs below allow. */
    method BuildWorkerHealth() returns (r: Report)
      requires Valid()
      modifies this
      ensures Valid() && State() == Taken(old(State())) == ZERO.(active := old(activeConnections))
      ensures r.active == old(activeConnections) && r.total == old(totalConnections)
      ensures r.errors == old(errorCount) && r.successes == old(successCount)
      ensures r.idle <==> old(activeConnections) == 0 && old(totalConnections) == 0
      ensures 3600 * r.bytesPerSec <= old(bytesThroughput) < 3600 * (r.bytesPerSec + 1)
      ensures r.upstreams.Keys == old(upstreamStats).Keys
      ensures forall id :: id in r.upstreams ==> r.upstreams[id] == Summary(old(upstreamStats[id].Value()))
    {
      var active := activeConnections;
      var total := totalConnections;
      totalConnections := 0;
      var throughput := bytesThroughput;
      bytesThroughput := 0;
      var errors := errorCount;
      errorCount := 0;
      var successes := successCount;
      successCount := 0;
      var summaries := Summaries();
      upstreamStats := map[];
      r := Report(active == 0 && total == 0, active, total, throughput / SECONDS, errors, successes, summaries);
    }
  }

  // ---- whole runs: any interleaving of updates and report swaps --------

  ghost function After(run: seq<Event>): Counters
  {
    if run == [] then ZERO else Step(After(run[..|run| - 1]), run[|run| - 1])
  }

  /** A number that updates add to and reports take: one of the four counters,
      or the requests or errors of one upstream. */
  datatype Lane = Single(counter: Counter) | Requests(id: UpstreamId) | Failures(id: UpstreamId)

  function Level(c: Counters, lane: Lane): uint64
  {
    match lane
    case Single(counter) => Read(c, counter)
    case Requests(id) => if id in c.upstreams then c.upstreams[id].requests else 0
    case Failures(id) => if id in c.upstreams then c.upstreams[id].errors else 0
  }

  /** What an event adds to a lane. */
  function Gain(e: Event, lane: Lane): uint64
  {
    match lane
    case Single(counter) => if e.Add? && e.counter == counter then e.n else 0
    case Requests(id) => if e.Upstream? && e.id == id then 1 else 0
    case Failures(id) => if e.Upstream? && e.id == id && e.isError then 1 else 0
  }

  /** Whether an event is the part of a report that takes the lane. */
  predicate Takes(e: Event, lane: Lane)
  {
    if lane.Single? then e == Swap(lane.counter) else e.SwapUpstreams?
  }

  lemma StepLevel(c: Counters, e: Event, lane: Lane)
    ensures Level(Step(c, e), lane) == if Takes(e, lane) then 0 else (Level(c, lane) + Gain(e, lane)) % TWO64
  {
  }

  lemma TakesOrGains(e: Event, lane: Lane)
    ensures Takes(e, lane) ==> Gain(e, lane) == 0
  {
  }

  /** All that was ever recorded in a lane. */
  function Gained(run: seq<Event>, lane: Lane): nat
  {
    if run == [] then 0 else Gained(run[..|run| - 1], lane) + Gain(run[|run| - 1], lane)
  }

  /** All that the reports took from a lane. */
  ghost function Reported(run: seq<Event>, lane: Lane): nat
  {
    if run == [] then 0
    else
      var before, e := run[..|run| - 1], run[|run| - 1];
      Reported(before, lane) + (if Takes(e, lane) then Level(After(before), lane) else 0)
  }

  /** Whether some addition overflowed the 64 bits of a lane. */
  ghost predicate Overflows(run: seq<Event>, lane: Lane)
  {
    run != [] &&
      var before, e := run[..|run| - 1], run[|run| - 1];
      Overflows(before, lane) || Level(After(before), lane) + Gain(e, lane) >= TWO64
  }

  lemma AddWraps(level: uint64, gain: uint64)
    ensures (level + gain) % TWO64 == if level + gain < TWO64 then level + gain else level + gain - TWO64
  {
  }

  lemma OneMoreWrap(missing: int)
    requires missing % TWO64 == 0
    ensures (missing + TWO64) % TWO64 == 0
  {
  }

  /** For every interleaving of updates with the separate swaps of any number
      of reports: nothing is reported twice or invented, what is missing is a
      multiple of 2^64, and reported plus residual is all that was recorded if
      and only if no addition overflowed. */
  lemma {:induction false} ReportsConserve(run: seq<Event>, lane: Lane)
    ensures Reported(run, lane) + Level(After(run), lane) <= Gained(run, lane)
    ensures (Gained(run, lane) - Reported(run, lane) - Level(After(run), lane)) % TWO64 == 0
    ensures Reported(run, lane) + Level(After(run), lane) == Gained(run, lane) <==> !Overflows(run, lane)
  {
    if run != [] {
      var before, e := run[..|run| - 1], run[|run| - 1];
      var level, gain := Level(After(before), lane), Gain(e, lane);
      ReportsConserve(before, lane);
      StepLevel(After(before), e, lane);
      AddWraps(level, gain);
      OneMoreWrap(Gained(before, lane) - Reported(before, lane) - level);
      TakesOrGains(e, lane);
    }
  }

  /** Counting by ones overflows no lane in fewer than 2^64 events. */
  lemma {:induction false} OnesDoNotOverflow(run: seq<Event>, lane: Lane)
    requires !lane.Single? && |run| < TWO64
    ensures Level(After(run), lane) <= |run| && !Overflows(run, lane)
  {
    if run != [] {
      var before, e := run[..|run| - 1], run[|run| - 1];
      OnesDoNotOverflow(before, lane);
      StepLevel(After(before), e, lane);
      assert Gain(e, lane) <= 1;
      AddWraps(Level(After(before), lane), Gain(e, lane));
    }
  }

  /** No report shows more errors than requests for an upstream. */
  lemma {:induction false} ErrorsWithinRequests(run: seq<Event>, id: UpstreamId)
    requires !Overflows(run, Requests(id))
    ensures Level(After(run), Failures(id)) <= Level(After(run), Requests(id))
  {
    if run != [] {
      var before, e := run[..|run| - 1], run[|run| - 1];
      ErrorsWithinRequests(before, id);
      StepLevel(After(before), e, Requests(id));
      StepLevel(After(before), e, Failures(id));
      AddWraps(Level(After(before), Requests(id)), Gain(e, Requests(id)));
      AddWraps(Level(After(before), Failures(id)), Gain(e, Failures(id)));
      assert Gain(e, Failures(id)) <= Gain(e, Requests(id));
    }
  }

  // ---- what a report shows of an upstream ------------------------------

  /** The events of an upstream since the last report took the statistics. */
  function Latest(run: seq<Event>, id: UpstreamId): (events: seq<Event>)
    ensures forall e :: e in events ==> e.Upstream? && e.id == id
  {
    if run == [] then []
    else
      var e := run[|run| - 1];
      if e.SwapUpstreams? then []
      else Latest(run[..|run| - 1], id) + (if e.Upstream? && e.id == id then [e] else [])
  }

  /** Their latencies added up, and how many of them were errors. */
  function Millis(events: seq<Event>): int
    requires forall e :: e in events ==> e.Upstream?
  {
    if events == [] then 0 else Millis(events[..|events| - 1]) + events[|events| - 1].millis
  }

  function Failed(events: seq<Event>): nat
    requires forall e :: e in events ==> e.Upstream?
  {
    if events == [] then 0 else Failed(events[..|events| - 1]) + (if events[|events| - 1].isError then 1 else 0)
  }

  lemma SignedSum(x: int, y: int)
    ensures Signed64(Signed64(x) + y) == Signed64(x + y)
  {
    var d := x - Signed64(x);
    assert (Signed64(x) - x) % TWO64 == 0;
    Shifted(Signed64(x) + y, d / TWO64);
    assert d == (d / TWO64) * TWO64;
  }

  lemma Shifted(x: int, k: int)
    ensures Signed64(x + k * TWO64) == Signed64(x)
  {
    ShiftedMod(x + TWO64 / 2, k);
  }

  lemma ShiftedMod(x: int, k: int)
    ensures (x + k * TWO64) % TWO64 == x % TWO64
  {
    var q, r := x / TWO64, x % TWO64;
    assert x + k * TWO64 == (q + k) * TWO64 + r;
  }

  lemma WrapOneMore(n: nat)
    ensures (n % TWO64 + 1) % TWO64 == (n + 1) % TWO64
  {}

  predicate StatsOf(stats: Stats, events: seq<Event>)
    requires forall e :: e in events ==> e.Upstream?
  {
    && (events != [] ==> stats.tag == events[0].tag) && stats.totalLatency == Signed64(Millis(events))
    && stats.requests == |events| % TWO64 && stats.errors == Failed(events) % TWO64
  }

  lemma StatsStep(stats: Stats, events: seq<Event>, e: Event)
    requires (forall x :: x in events ==> x.Upstream?) && e.Upstream? && StatsOf(stats, events)
    requires events == [] ==> stats.tag == e.tag
    ensures StatsOf(Recorded(stats, e.millis, e.isError), events + [e])
  {
    assert (events + [e])[..|events|] == events;
    SignedSum(Millis(events), e.millis);
    WrapOneMore(|events|);
    WrapOneMore(Failed(events));
  }

  lemma NoStats(tag: string)
    ensures StatsOf(Stats(tag, 0, 0, 0), [])
  {
    assert Signed64(0) == 0;
  }

  /** What the last event of a run does to an upstream. */
  lemma LatestStep(run: seq<Event>, id: UpstreamId)
    requires run != []
    ensures var before, e := run[..|run| - 1], run[|run| - 1];
            && (e.SwapUpstreams? ==> id !in After(run).upstreams && Latest(run, id) == [])
            && (e.Upstream? && e.id == id ==>
                  && Latest(run, id) == Latest(before, id) + [e] && id in After(run).upstreams
                  && After(run).upstreams[id] == Recorded(Entry(After(before).upstreams, id, e.tag), e.millis, e.isError))
            && (!e.SwapUpstreams? && !(e.Upstream? && e.id == id) ==>
                  && Latest(run, id) == Latest(before, id) && (id in After(run).upstreams <==> id in After(before).upstreams)
                  && (id in After(run).upstreams ==> After(run).upstreams[id] == After(before).upstreams[id]))
  {
    assert Latest(run[..|run| - 1], id) + [] == Latest(run[..|run| - 1], id);
  }

  /** The statistics of an upstream are those of its events since then. */
  lemma {:induction false} StatsAreLatest(run: seq<Event>, id: UpstreamId)
    ensures id in After(run).upstreams <==> Latest(run, id) != []
    ensures id in After(run).upstreams ==> StatsOf(After(run).upstreams[id], Latest(run, id))
  {
    if run != [] {
      var before, e := run[..|run| - 1], run[|run| - 1];
      StatsAreLatest(before, id);
      LatestStep(run, id);
      if e.Upstream? && e.id == id {
        NoStats(e.tag);
        StatsStep(Entry(After(before).upstreams, id, e.tag), Latest(before, id), e);
      }
    }
  }

  /** What a report shows of an upstream: the tag of its first event since the last
      report, how many events there were, how many of them were errors, and the mean
      of their latencies, rounded down. */
  lemma SummaryIsOfLatest(run: seq<Event>, id: UpstreamId)
    requires Latest(run, id) != [] && |Latest(run, id)| < TWO64 / 2 && 0 <= Millis(Latest(run, id)) < TWO64 / 2
    ensures id in After(run).upstreams
    ensures var events := Latest(run, id);
            var shown := Summary(After(run).upstreams[id]);
            && shown.tag == events[0].tag && shown.requests == |events| && shown.errors == Failed(events)
            && IsMean(shown.latency, |events|, Millis(events))
  {
    StatsAreLatest(run, id);
    SummaryOf(After(run).upstreams[id], Latest(run, id));
  }

  /** The mean of n numbers with this sum, rounded down. */
  predicate IsMean(mean: int, n: nat, sum: int) { mean * n <= sum < (mean + 1) * n }

  lemma SummaryOf(stats: Stats, events: seq<Event>)
    requires forall e :: e in events ==> e.Upstream?
    requires StatsOf(stats, events) && 0 < |events| < TWO64 / 2 && 0 <= Millis(events) < TWO64 / 2
    ensures var shown := Summary(stats);
            && shown.tag == events[0].tag && shown.requests == |events| && shown.errors == Failed(events)
            && IsMean(shown.latency, |events|, Millis(events))
  {
    FailedAtMost(events);
    SmallSigned(Millis(events));
    SmallUnsigned(|events|);
    SmallUnsigned(Failed(events));
    LatencyMean(stats);
  }

  lemma SmallUnsigned(n: nat)
    requires n < TWO64 / 2
    ensures n % TWO64 == n
  {}

  lemma LatencyMean(s: Stats)
    requires 0 < s.requests < TWO64 / 2 && 0 <= s.totalLatency < TWO64 / 2
    ensures IsMean(Summary(s).latency, s.requests, s.totalLatency)
  {
    LatencyIsMean(s);
  }

  lemma {:induction false} FailedAtMost(events: seq<Event>)
    requires forall e :: e in events ==> e.Upstream?
    ensures Failed(events) <= |events|
  {
    if events != [] {
      FailedAtMost(events[..|events| - 1]);
    }
  }

  // ---- the throughput a report divides by the hour ---------------------

  /** The rates the reports showed, and how many there were. */
  ghost function Rates(run: seq<Event>): nat
  {
    if run == [] then 0
    else
      var before, e := run[..|run| - 1], run[|run| - 1];
      Rates(before) + (if e == Swap(Bytes) then After(before).bytes / SECONDS else 0)
  }

  function Reports(run: seq<Event>): nat
  {
    if run == [] then 0 else Reports(run[..|run| - 1]) + (if run[|run| - 1] == Swap(Bytes) then 1 else 0)
  }

  lemma {:induction false} RatesBracket(run: seq<Event>)
    ensures SECONDS * Rates(run) <= Reported(run, Single(Bytes)) <= SECONDS * Rates(run) + (SECONDS - 1) * Reports(run)
  {
    if run != [] {
      RatesBracket(run[..|run| - 1]);
    }
  }

  /** The rates of all reports account for the traffic taken by them, except
      for less than 3600 bytes a report lost to rounding. */
  lemma RatesAccountForTraffic(run: seq<Event>)
    requires !Overflows(run, Single(Bytes))
    ensures var swapped := Gained(run, Single(Bytes)) - After(run).bytes;
      && 3600 * Rates(run) <= swapped
      && (Reports(run) > 0 ==> swapped < 3600 * (Rates(run) + Reports(run)))
      && (Reports(run) == 0 ==> swapped == 0)
  {
    RatesBracket(run);
    ReportsConserve(run, Single(Bytes));
  }

  // ---- active connections ----------------------------------------------

  function Begins(run: seq<Event>): nat
  {
    if run == [] then 0 else Begins(run[..|run| - 1]) + (if run[|run| - 1].Begin? then 1 else 0)
  }

  function Ends(run: seq<Event>): nat
  {
    if run == [] then 0 else Ends(run[..|run| - 1]) + (if run[|run| - 1].End? then 1 else 0)
  }

  /** The unsigned counter is increments minus decrements whenever that number
      fits it, whatever it passed through before. */
  lemma {:induction false} ActiveIsDifference(run: seq<Event>)
    ensures (After(run).active - (Begins(run) - Ends(run))) % TWO32 == 0
    ensures After(run).active == Begins(run) - Ends(run) <==> 0 <= Begins(run) - Ends(run) < TWO32
  {
    if run != [] {
      var before, e := run[..|run| - 1], run[|run| - 1];
      ActiveIsDifference(before);
      ActiveStep(After(before).active, Begins(before) - Ends(before));
    }
    OnlyCongruent(After(run).active, Begins(run) - Ends(run));
  }

  /** Counting up or down by one on both sides keeps the congruence. */
  lemma ActiveStep(active: uint32, difference: int)
    requires (active - difference) % TWO32 == 0
    ensures ((active + 1) % TWO32 - (difference + 1)) % TWO32 == 0
    ensures ((active + (TWO32 - 1)) % TWO32 - (difference - 1)) % TWO32 == 0
  {
    assert (active + 1) % TWO32 == if active + 1 < TWO32 then active + 1 else 0;
    assert (active + (TWO32 - 1)) % TWO32 == if active == 0 then TWO32 - 1 else active - 1;
  }

  lemma OnlyCongruent(active: uint32, difference: int)
    requires (active - difference) % TWO32 == 0
    ensures active == difference <==> 0 <= difference < TWO32
  {}

  /** The connections begun and not ended. */
  function Open(run: seq<Event>): set<nat>
  {
    if run == [] then {}
    else
      var open, e := Open(run[..|run| - 1]), run[|run| - 1];
      if e.Begin? then open + {e.conn} else if e.End? then open - {e.conn} else open
  }

  /** A connection begins while it is not open and ends while it is. */
  predicate Paired(run: seq<Event>)
  {
    run == [] ||
      var before, e := run[..|run| - 1], run[|run| - 1];
      Paired(before) && (e.Begin? ==> e.conn !in Open(before)) && (e.End? ==> e.conn in Open(before))
  }

  /** When every decrement follows its increment, the counter is the number of
      open connections, and no report ever sees it wrapped below zero. */
  lemma {:induction false} ActiveIsOpen(run: seq<Event>)
    requires Paired(run)
    ensures Begins(run) - Ends(run) == |Open(run)|
    ensures After(run).active == |Open(run)| <==> |Open(run)| < TWO32
  {
    ActiveIsDifference(run);
    if run != [] {
      ActiveIsOpen(run[..|run| - 1]);
    }
  }
}
