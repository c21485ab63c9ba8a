// ioCopy, the loop that moves one direction of a proxied connection, and the
// byte accounting of the two directions of a SOCKS connection.
module IoCopy {
  import opened Wrappers
  import opened Wire

  const CHUNK := 32768

  datatype IoError = EndOfFile | ShortWrite | Failed(code: int)

  // ---- a reader and a writer that do whatever the network does ---------

  /** One future read: some bytes (perhaps none) and perhaps an error. */
  datatype ReadResult = ReadResult(data: Bytes, err: Option<IoError>)

  /** One future write: how many bytes it will take and perhaps an error. */
  datatype WriteResult = WriteResult(n: nat, err: Option<IoError>)

  /** What a writer with this script answers to its i-th write. */
  function Take(script: seq<WriteResult>, i: nat, data: Bytes): WriteResult
  {
    if i >= |script| then WriteResult(|data|, None)
    else WriteResult(if script[i].n <= |data| then script[i].n else |data|, script[i].err)
  }

  function Rest<T>(script: seq<T>, n: nat): seq<T>
  {
    if n <= |script| then script[n..] else []
  }

  /** The reads that a script leads to, the end of the file behind it. */
  function Reads(script: seq<ReadResult>): seq<ReadResult>
  {
    script + [ReadResult([], Some(EndOfFile))]
  }

  class Reader {
    var script: seq<ReadResult>
    ghost var consumed: Bytes    // every byte handed out so far

    ghost predicate Valid()
      reads this
    {
      forall i :: 0 <= i < |script| ==> |script[i].data| <= CHUNK
    }

    /** After the script every read reports the end of the file. */
    method Read() returns (r: ReadResult)
      requires Valid()
      modifies this
      ensures Valid() && |r.data| <= CHUNK && consumed == old(consumed) + r.data
      ensures if old(script) == [] then r == ReadResult([], Some(EndOfFile)) && script == []
              else r == old(script)[0] && script == old(script)[1..]
    {
      if script == [] {
        assert consumed + [] == consumed;
        return ReadResult([], Some(EndOfFile));
      }
      r := script[0];
      script := script[1..];
      consumed := consumed + r.data;
    }
  }

  class Writer {
    var script: seq<WriteResult>
    var delivered: Bytes         // every byte taken so far

    /** After the script every write succeeds in full. */
    method Write(data: Bytes) returns (r: WriteResult)
      modifies this
      ensures r == Take(old(script), 0, data) && script == Rest(old(script), 1)
      ensures r.n <= |data| && delivered == old(delivered) + data[..r.n]
    {
      if script == [] {
        r := WriteResult(|data|, None);
      } else {
        r := WriteResult(if script[0].n <= |data| then script[0].n else |data|, script[0].err);
        script := script[1..];
      }
      delivered := delivered + data[..r.n];
    }
  }

  function Sum(counts: seq<nat>): nat
  {
    if counts == [] then 0 else Sum(counts[..|counts| - 1]) + counts[|counts| - 1]
  }

  lemma SumOneMore(counts: seq<nat>, n: nat)
    ensures Sum(counts + [n]) == Sum(counts) + n
  {
    assert (counts + [n])[..|counts|] == counts;
  }

  /** The callback counts of so many bytes. */
  predicate Counted(calls: seq<nat>, written: nat)
  {
    written == Sum(calls) && forall i :: 0 <= i < |calls| ==> 0 < calls[i] <= CHUNK
  }

  lemma CountOneMore(calls: seq<nat>, written: nat, n: nat)
    requires Counted(calls, written) && 0 < n <= CHUNK
    ensures Counted(calls + [n], written + n)
  {
    SumOneMore(calls, n);
  }

  lemma Partial(consumed: Bytes, delivered: Bytes, moved: Bytes, data: Bytes, n: nat)
    requires n <= |data|
    ensures moved + data[..n] <= moved + data && consumed + moved + data == consumed + (moved + data)
    ensures delivered + moved + data[..n] == delivered + (moved + data[..n])
    ensures |moved + data[..n]| == |moved| + n && |moved + data| == |moved| + |data|
    ensures n == |data| ==> moved + data[..n] == moved + data
  {}

  /** One read and, if it gave bytes, one write of them. */
  method CopyOnce(dst: Writer, src: Reader) returns (nr: nat, er: Option<IoError>, nw: nat, ew: Option<IoError>, ghost data: Bytes)
    requires src.Valid()
    modifies dst, src
    ensures src.Valid() && (er.None? ==> |src.script| < |old(src.script)|)
    ensures ReadResult(data, er) == Reads(old(src.script))[0] && src.script == Rest(old(src.script), 1)
    ensures nr == |data| <= CHUNK
    ensures WriteResult(nw, ew) == if nr > 0 then Take(old(dst.script), 0, data) else WriteResult(0, None)
    ensures dst.script == Rest(old(dst.script), if nr > 0 then 1 else 0)
    ensures nw <= nr && src.consumed == old(src.consumed) + data && dst.delivered == old(dst.delivered) + data[..nw]
  {
    var rr := src.Read();
    nr, er, nw, ew, data := |rr.data|, rr.err, 0, None, rr.data;
    if nr > 0 {
      var wr := dst.Write(rr.data);
      nw, ew := wr.n, wr.err;
    } else {
      assert dst.delivered + data[..0] == dst.delivered;
    }
  }

  // ---- what a run of the loop was --------------------------------------

  /** A write that was made: what it was offered and how it went. */
  datatype Made = Made(data: Bytes, result: WriteResult)

  predicate Full(w: Made) { w.result.err.None? && w.result.n == |w.data| }

  /** The bytes of some reads, and those of them that are offered to a writer. */
  function Data(got: seq<ReadResult>): Bytes
  {
    if got == [] then [] else Data(got[..|got| - 1]) + got[|got| - 1].data
  }

  function Offers(got: seq<ReadResult>): seq<Bytes>
  {
    if got == [] then []
    else
      var last := got[|got| - 1].data;
      Offers(got[..|got| - 1]) + (if last != [] then [last] else [])
  }

  /** Every nonempty read was offered, in order, and answered by the script. */
  predicate MadeOf(writes: seq<Made>, got: seq<ReadResult>, script: seq<WriteResult>)
  {
    && |writes| == |Offers(got)|
    && forall j :: 0 <= j < |writes| ==>
         writes[j].data == Offers(got)[j] && writes[j].result == Take(script, j, writes[j].data)
  }

  lemma OneMoreRead(got: seq<ReadResult>, r: ReadResult, writes: seq<Made>, script: seq<WriteResult>)
    requires MadeOf(writes, got, script)
    ensures Data(got + [r]) == Data(got) + r.data
    ensures r.data == [] ==> MadeOf(writes, got + [r], script)
    ensures r.data != [] ==> MadeOf(writes + [Made(r.data, Take(script, |writes|, r.data))], got + [r], script)
  {
    assert (got + [r])[..|got|] == got;
    assert Offers(got) + [] == Offers(got);
  }

  /** Why the loop ended after some reads and writes: on the source, with the error
      of the last read, all writes having been full; or on the last write, which was
      not, with its error or that of a short write. */
  predicate EndsWith(got: seq<ReadResult>, writes: seq<Made>, isSrcErr: bool, err: Option<IoError>)
    requires got != []
  {
    var last := got[|got| - 1];
    && (isSrcErr <==> forall j :: 0 <= j < |writes| ==> Full(writes[j]))
    && (isSrcErr ==> last.err.Some? && err == last.err)
    && (!isSrcErr ==>
          && last.data != [] && writes != [] && !Full(writes[|writes| - 1])
          && (forall j :: 0 <= j < |writes| - 1 ==> Full(writes[j]))
          && err == if writes[|writes| - 1].result.err.Some? then writes[|writes| - 1].result.err else Some(ShortWrite))
  }

  /** The loop has not ended after some rounds. */
  predicate Going(got: seq<ReadResult>, script: seq<WriteResult>, rounds: nat, writes: seq<Made>)
  {
    && rounds < |got| && (forall i :: 0 <= i < rounds ==> got[i].err.None?)
    && MadeOf(writes, got[..rounds], script) && (forall j :: 0 <= j < |writes| ==> Full(writes[j]))
  }

  /** The loop has ended. */
  predicate Ended(got: seq<ReadResult>, script: seq<WriteResult>, rounds: nat, writes: seq<Made>, isSrcErr: bool,
                  err: Option<IoError>)
  {
    && 0 < rounds <= |got| && (forall i :: 0 <= i < rounds - 1 ==> got[i].err.None?)
    && MadeOf(writes, got[..rounds], script) && EndsWith(got[..rounds], writes, isSrcErr, err)
  }

  function WithWrite(writes: seq<Made>, data: Bytes, result: WriteResult): seq<Made>
  {
    if data == [] then writes else writes + [Made(data, result)]
  }

  /** One more round, which ends the loop or does not. */
  lemma OneMoreRound(got: seq<ReadResult>, script: seq<WriteResult>, rounds: nat, writes: seq<Made>, w: WriteResult)
    requires Going(got, script, rounds, writes) && got[|got| - 1].err.Some?
    requires got[rounds].data != [] ==> w == Take(script, |writes|, got[rounds].data)
    ensures Data(got[..rounds + 1]) == Data(got[..rounds]) + got[rounds].data
    ensures var data, er := got[rounds].data, got[rounds].err;
            var more := WithWrite(writes, data, w);
            && (data != [] && !Full(Made(data, w)) ==>
                  Ended(got, script, rounds + 1, more, false, if w.err.Some? then w.err else Some(ShortWrite)))
            && ((data == [] || Full(Made(data, w))) && er.Some? ==> Ended(got, script, rounds + 1, more, true, er))
            && ((data == [] || Full(Made(data, w))) && er.None? ==> Going(got, script, rounds + 1, more))
  {
    assert got[..rounds + 1] == got[..rounds] + [got[rounds]];
    OneMoreRead(got[..rounds], got[rounds], writes, script);
  }

  /** Where the scripts are after that round. */
  lemma NextScripts(src: seq<ReadResult>, script: seq<WriteResult>, rounds: nat, writes: nat, data: Bytes)
    requires rounds < |Reads(src)|
    ensures Reads(Rest(src, rounds))[0] == Reads(src)[rounds] && Rest(Rest(src, rounds), 1) == Rest(src, rounds + 1)
    ensures Rest(Rest(script, writes), 1) == Rest(script, writes + 1) && Rest(Rest(script, writes), 0) == Rest(script, writes)
    ensures Take(Rest(script, writes), 0, data) == Take(script, writes, data)
  {}

  /** One round, seen from a run that has not ended. */
  method CopyRound(dst: Writer, src: Reader, ghost got: seq<ReadResult>, ghost script: seq<WriteResult>, ghost rounds: nat,
                   ghost writes: seq<Made>)
    returns (nr: nat, er: Option<IoError>, nw: nat, ew: Option<IoError>, ghost data: Bytes, ghost more: seq<Made>)
    requires src.Valid() && got != [] && src.script == Rest(got[..|got| - 1], rounds) && got == Reads(got[..|got| - 1])
    requires dst.script == Rest(script, |writes|) && Going(got, script, rounds, writes)
    modifies dst, src
    ensures src.Valid() && (er.None? ==> |src.script| < |old(src.script)|)
    ensures nw <= nr == |data| <= CHUNK && (nr == 0 ==> ew.None?)
    ensures src.consumed == old(src.consumed) + data && dst.delivered == old(dst.delivered) + data[..nw]
    ensures src.script == Rest(got[..|got| - 1], rounds + 1) && dst.script == Rest(script, |more|)
    ensures Data(got[..rounds + 1]) == Data(got[..rounds]) + data
    ensures ew.Some? ==> Ended(got, script, rounds + 1, more, false, ew)
    ensures ew.None? && nw != nr ==> Ended(got, script, rounds + 1, more, false, Some(ShortWrite))
    ensures ew.None? && nw == nr && er.Some? ==> Ended(got, script, rounds + 1, more, true, er)
    ensures ew.None? && nw == nr && er.None? ==> Going(got, script, rounds + 1, more)
  {
    nr, er, nw, ew, data := CopyOnce(dst, src);
    NextScripts(got[..|got| - 1], script, rounds, |writes|, data);
    OneMoreRound(got, script, rounds, writes, WriteResult(nw, ew));
    more := WithWrite(writes, data, WriteResult(nw, ew));
  }

  /** The loop. calls are the counts passed to the callback; read and moved are
      the bytes that left the reader and reached the writer, in rounds reads and
      the writes made of them. What reaches the writer is a prefix of what was
      read, in order, and all of it when the loop ends on the source; the callback
      counts add up to written, the number of bytes delivered. It goes on until
      there is an error: every read but the last had none and every write but the
      last was full; and there is always a final error, which is how both
      goroutines of a connection come to release it. */
  method IoCopy(dst: Writer, src: Reader)
    returns (written: nat, isSrcErr: bool, err: Option<IoError>, calls: seq<nat>,
             ghost read: Bytes, ghost moved: Bytes, ghost rounds: nat, ghost writes: seq<Made>)
    requires src.Valid()
    modifies dst, src
    ensures src.consumed == old(src.consumed) + read && dst.delivered == old(dst.delivered) + moved
    ensures moved <= read && |read| - |moved| <= 32768
    ensures written == |moved| == Sum(calls)
    ensures forall i :: 0 <= i < |calls| ==> 0 < calls[i] <= 32768
    ensures isSrcErr ==> moved == read
    ensures Ended(Reads(old(src.script)), old(dst.script), rounds, writes, isSrcErr, err) && err.Some?
    ensures read == Data(Reads(old(src.script))[..rounds])
  {
    written, isSrcErr, err, calls, read, moved := 0, false, None, [], [], [];
    rounds, writes := 0, [];
    ghost var c0, d0 := src.consumed, dst.delivered;
    ghost var got, script := Reads(src.script), dst.script;
    assert got[..|got| - 1] == src.script;
    while true
      invariant src.Valid() && src.script == Rest(got[..|got| - 1], rounds) && dst.script == Rest(script, |writes|)
      invariant src.consumed == c0 + read && dst.delivered == d0 + moved && moved == read
      invariant written == |moved| && Counted(calls, written)
      invariant !isSrcErr && Going(got, script, rounds, writes) && read == Data(got[..rounds])
      decreases |src.script|
    {
      var nr, er, nw, ew;
      ghost var data;
      nr, er, nw, ew, data, writes := CopyRound(dst, src, got, script, rounds, writes);
      Partial(c0, d0, moved, data, nw);
      read, moved, rounds := read + data, moved + data[..nw], rounds + 1;
      if nr > 0 {
        if nw > 0 {
          CountOneMore(calls, written, nw);
          written := written + nw;
          calls := calls + [nw];
        }
        if ew.Some? {
          err := ew;
          break;
        }
        if nr != nw {
          err := Some(ShortWrite);
          break;
        }
      }
      if er.Some? {
        err := er;
        isSrcErr := true;
        break;
      }
    }
  }

  // ---- the accounting of a connection's two directions -----------------

  // IoBind copies from the target's connection to the client's and back.
  datatype Direction = ToClient | ToTarget

  /** The byte counters of a connection, its share of the throughput, and for
      each direction the bytes counted but not yet added to the throughput. The
      counter of the copy to the client is the one named sent. reported is what
      the release callback put into the usage record. */
  datatype Account = Account(sent: nat, received: nat, throughput: nat, toClient: Side, toTarget: Side, reported: Option<(nat, nat)>)

  datatype Side = Side(pending: nat, stopped: bool)

  // A callback of ioCopy updates a counter and then the throughput, while the
  // other direction runs; the direction that stops first reports.
  datatype Event = CountBytes(d: Direction, n: nat) | AddThroughput(d: Direction) | Stop(d: Direction) | Report

  function SideOf(a: Account, d: Direction): Side
  {
    if d == ToClient then a.toClient else a.toTarget
  }

  function WithSide(a: Account, d: Direction, side: Side): Account
  {
    if d == ToClient then a.(toClient := side) else a.(toTarget := side)
  }

  predicate Enabled(a: Account, e: Event)
  {
    match e
    case CountBytes(d, _) => !SideOf(a, d).stopped && SideOf(a, d).pending == 0
    case AddThroughput(_) => true
    case Stop(d) => SideOf(a, d).pending == 0
    case Report => (a.toClient.stopped || a.toTarget.stopped) && a.reported == None
  }

  function After(a: Account, e: Event): Account
    requires Enabled(a, e)
  {
    match e
    case CountBytes(d, n) =>
      var b := WithSide(a, d, SideOf(a, d).(pending := n));
      if d == ToClient then b.(sent := a.sent + n) else b.(received := a.received + n)
    case AddThroughput(d) => WithSide(a, d, SideOf(a, d).(pending := 0)).(throughput := a.throughput + SideOf(a, d).pending)
    case Stop(d) => WithSide(a, d, SideOf(a, d).(stopped := true))
    case Report => a.(reported := Some((a.sent, a.received)))
  }

  const OPENED := Account(0, 0, 0, Side(0, false), Side(0, false), None)

  ghost predicate Run(a: Account, events: seq<Event>, b: Account)
    decreases |events|
  {
    if events == [] then a == b else Enabled(a, events[0]) && Run(After(a, events[0]), events[1..], b)
  }

  ghost predicate Inv(a: Account)
  {
    && a.throughput + a.toClient.pending + a.toTarget.pending == a.sent + a.received
    && (a.toClient.stopped ==> a.toClient.pending == 0) && (a.toTarget.stopped ==> a.toTarget.pending == 0)
    && (a.reported.Some? ==> a.toClient.stopped || a.toTarget.stopped)
    && (a.reported.Some? ==> a.reported.value.0 <= a.sent && a.reported.value.1 <= a.received)
  }

  /** Bytes counted by the events after the report. */
  function Late(a: Account, events: seq<Event>): nat
    decreases |events|
  {
    if events == [] || !Enabled(a, events[0]) then 0
    else (if a.reported.Some? && events[0].CountBytes? then events[0].n else 0) + Late(After(a, events[0]), events[1..])
  }

  lemma StepInv(a: Account, e: Event)
    requires Inv(a) && Enabled(a, e)
    ensures Inv(After(a, e))
  {}

  lemma {:induction false} RunInv(a: Account, events: seq<Event>, b: Account)
    requires Inv(a) && Run(a, events, b)
    ensures Inv(b)
    decreases |events|
  {
    if events != [] {
      StepInv(a, events[0]);
      RunInv(After(a, events[0]), events[1..], b);
    }
  }

  lemma {:induction false} RunLate(a: Account, events: seq<Event>, b: Account)
    requires Run(a, events, b)
    ensures a.reported.Some? ==> b.reported == a.reported && b.sent + b.received == a.sent + a.received + Late(a, events)
    ensures a.reported.None? && b.reported.Some? ==>
      b.sent + b.received == b.reported.value.0 + b.reported.value.1 + Late(a, events)
    decreases |events|
  {
    if events != [] {
      RunLate(After(a, events[0]), events[1..], b);
    }
  }

  /** A direction that has stopped counts no more. */
  lemma {:induction false} RunStopped(a: Account, events: seq<Event>, b: Account)
    requires Run(a, events, b)
    ensures a.toClient.stopped ==> b.toClient.stopped && b.sent == a.sent
    ensures a.toTarget.stopped ==> b.toTarget.stopped && b.received == a.received
    decreases |events|
  {
    if events != [] {
      RunStopped(After(a, events[0]), events[1..], b);
    }
  }

  /** In every interleaving of the two directions: once both have stopped, the
      throughput the connection added is the sum of its two byte counters. */
  lemma ThroughputIsBytes(events: seq<Event>, b: Account)
    requires Run(OPENED, events, b) && b.toClient.stopped && b.toTarget.stopped
    ensures b.throughput == b.sent + b.received
  {
    RunInv(OPENED, events, b);
  }

  // ---- which direction a counter counts --------------------------------

  /** The counts that one direction's ioCopy passed to its callback. */
  function CallsOf(events: seq<Event>, d: Direction): seq<nat>
  {
    if events == [] then []
    else
      var e := events[|events| - 1];
      CallsOf(events[..|events| - 1], d) + (if e.CountBytes? && e.d == d then [e.n] else [])
  }

  lemma CallsOneMore(events: seq<Event>, e: Event, d: Direction)
    ensures Sum(CallsOf(events + [e], d)) == Sum(CallsOf(events, d)) + (if e.CountBytes? && e.d == d then e.n else 0)
  {
    assert (events + [e])[..|events|] == events;
    if e.CountBytes? && e.d == d {
      SumOneMore(CallsOf(events, d), e.n);
    } else {
      assert CallsOf(events, d) + [] == CallsOf(events, d);
    }
  }

  lemma CountStep(before: seq<Event>, a: Account, e: Event)
    requires Enabled(a, e)
    requires a.sent == Sum(CallsOf(before, ToClient)) && a.received == Sum(CallsOf(before, ToTarget))
    ensures After(a, e).sent == Sum(CallsOf(before + [e], ToClient))
    ensures After(a, e).received == Sum(CallsOf(before + [e], ToTarget))
  {
    CallsOneMore(before, e, ToClient);
    CallsOneMore(before, e, ToTarget);
  }

  lemma {:induction false} RunCounts(before: seq<Event>, a: Account, events: seq<Event>, b: Account)
    requires Run(a, events, b)
    requires a.sent == Sum(CallsOf(before, ToClient)) && a.received == Sum(CallsOf(before, ToTarget))
    ensures b.sent == Sum(CallsOf(before + events, ToClient)) && b.received == Sum(CallsOf(before + events, ToTarget))
    decreases |events|
  {
    if events == [] {
      assert before + events == before;
    } else {
      var e := events[0];
      CountStep(before, a, e);
      RunCounts(before + [e], After(a, e), events[1..], b);
      assert before + [e] + events[1..] == before + events;
    }
  }

  /** In every interleaving sent is what reached the client, and received what
      reached the target: the sums of the callback counts of the two copies,
      which IoCopy equates with the bytes it delivered. */
  lemma CountersAreDeliveries(events: seq<Event>, b: Account)
    requires Run(OPENED, events, b)
    ensures b.sent == Sum(CallsOf(events, ToClient)) && b.received == Sum(CallsOf(events, ToTarget))
  {
    RunCounts([], OPENED, events, b);
    assert [] + events == events;
  }

  // The UDP relay records every datagram by itself: an answer of n bytes that goes
  // to the client, or a payload of n bytes that goes to the target.
  datatype Datagram = Answer(n: nat) | Payload(n: nat)

  /** RecordDataUsage as the relay calls it: bytes sent, bytes received. */
  function UdpRecord(d: Datagram): (nat, nat)
  {
    match d
    case Answer(n) => (0, n)
    case Payload(n) => (n, 0)
  }

  /** The sums of the records of an association. */
  function UdpUsage(datagrams: seq<Datagram>): (nat, nat)
  {
    if datagrams == [] then (0, 0)
    else
      var before, last := UdpUsage(datagrams[..|datagrams| - 1]), UdpRecord(datagrams[|datagrams| - 1]);
      (before.0 + last.0, before.1 + last.1)
  }

  /** The bytes an association carried in one direction. */
  function Carried(datagrams: seq<Datagram>, d: Direction): nat
  {
    if datagrams == [] then 0
    else
      var last := datagrams[|datagrams| - 1];
      Carried(datagrams[..|datagrams| - 1], d) + (if last.Answer? == (d == ToClient) then last.n else 0)
  }

  lemma {:induction false} UdpUsageIs(datagrams: seq<Datagram>)
    ensures UdpUsage(datagrams) == (Carried(datagrams, ToTarget), Carried(datagrams, ToClient))
  {
    if datagrams != [] {
      UdpUsageIs(datagrams[..|datagrams| - 1]);
    }
  }

  /** The two protocols name the directions the other way round: a TCP connection
      and a UDP association that carried the same bytes in each direction show the
      same usage exactly if both directions carried the same number. */
  lemma TcpMirrorsUdp(events: seq<Event>, b: Account, datagrams: seq<Datagram>)
    requires Run(OPENED, events, b)
    requires Sum(CallsOf(events, ToClient)) == Carried(datagrams, ToClient)
    requires Sum(CallsOf(events, ToTarget)) == Carried(datagrams, ToTarget)
    ensures (b.sent, b.received) == UdpUsage(datagrams) <==> Carried(datagrams, ToClient) == Carried(datagrams, ToTarget)
  {
    CountersAreDeliveries(events, b);
    UdpUsageIs(datagrams);
  }

  // ---- the usage record ------------------------------------------------

  /** The usage record, written when the first direction stops, never exceeds
      the final counters and misses exactly the bytes counted afterwards. */
  lemma UsageMissesLateBytes(events: seq<Event>, b: Account)
    requires Run(OPENED, events, b) && b.reported.Some?
    ensures b.reported.value.0 <= b.sent && b.reported.value.1 <= b.received
    ensures b.sent + b.received == b.reported.value.0 + b.reported.value.1 + Late(OPENED, events)
    ensures b.reported == Some((b.sent, b.received)) <==> Late(OPENED, events) == 0
  {
    RunInv(OPENED, events, b);
    RunLate(OPENED, events, b);
  }

  predicate Complete(a: Account) { a.reported == Some((a.sent, a.received)) }

  ghost predicate StaysComplete(a: Account)
  {
    forall events, b :: Run(a, events, b) ==> Complete(b)
  }

  /** A direction that has not stopped can always count one byte more. */
  lemma CountsMore(a: Account, d: Direction) returns (events: seq<Event>, b: Account)
    requires !SideOf(a, d).stopped
    ensures Run(a, events, b) && b.reported == a.reported && b.sent + b.received == a.sent + a.received + 1
  {
    var ready := After(a, AddThroughput(d));
    b := After(ready, CountBytes(d, 1));
    events := [AddThroughput(d), CountBytes(d, 1)];
    assert events[1..] == [CountBytes(d, 1)];
    assert Run(ready, [CountBytes(d, 1)], b) by {
      assert [CountBytes(d, 1)][1..] == [];
    }
  }

  /** Once written, the record stays complete in every continuation exactly when
      it is complete and both directions have stopped. */
  lemma RecordCompleteForGood(a: Account)
    requires a.reported.Some?
    ensures StaysComplete(a) <==> a.toClient.stopped && a.toTarget.stopped && Complete(a)
  {
    if a.toClient.stopped && a.toTarget.stopped && Complete(a) {
      forall events, b | Run(a, events, b) ensures Complete(b) {
        RunStopped(a, events, b);
        RunLate(a, events, b);
      }
    } else if !Complete(a) {
      assert Run(a, [], a);
    } else {
      var events, b := CountsMore(a, if !a.toClient.stopped then ToClient else ToTarget);
      assert Run(a, events, b);
    }
  }

  /** A connection whose target is sent one more byte after the report. */
  lemma ReportedTooEarly() returns (events: seq<Event>, b: Account)
    ensures Run(OPENED, events, b) && b.toClient.stopped && b.toTarget.stopped
    ensures b.reported == Some((0, 0)) && b.received == 1
  {
    var s1 := After(OPENED, Stop(ToClient));
    var s2 := After(s1, Report);
    var s3 := After(s2, CountBytes(ToTarget, 1));
    var s4 := After(s3, AddThroughput(ToTarget));
    b := After(s4, Stop(ToTarget));
    var e5 := RunCons(s4, Stop(ToTarget), [], b);
    var e4 := RunCons(s3, AddThroughput(ToTarget), e5, b);
    var e3 := RunCons(s2, CountBytes(ToTarget, 1), e4, b);
    var e2 := RunCons(s1, Report, e3, b);
    events := RunCons(OPENED, Stop(ToClient), e2, b);
  }

  lemma RunCons(a: Account, e: Event, rest: seq<Event>, b: Account) returns (events: seq<Event>)
    requires Enabled(a, e) && Run(After(a, e), rest, b)
    ensures events == [e] + rest && Run(a, events, b)
  {
    events := [e] + rest;
    assert events[1..] == rest;
  }
}
