// The tickets that concurrent calls of NextUpstream draw, and the session whose
// first upstream is lost.
module SessionTickets {
  import Worker
  import opened Sessions

  // ---- tickets ---------------------------------------------------------

  function Count(calls: seq<Call>, p: Call -> bool): nat
  {
    if calls == [] then 0 else Count(calls[..|calls| - 1], p) + (if p(calls[|calls| - 1]) then 1 else 0)
  }

  lemma {:induction false} CountUpdate(calls: seq<Call>, p: Call -> bool, c: nat, k: Call)
    requires c < |calls|
    ensures Count(calls[c := k], p) == Count(calls, p) - (if p(calls[c]) then 1 else 0) + (if p(k) then 1 else 0)
  {
    var n := |calls| - 1;
    if c == n {
      assert calls[c := k][..n] == calls[..n];
    } else {
      CountUpdate(calls[..n], p, c, k);
      assert calls[c := k][..n] == calls[..n][c := k];
    }
  }

  lemma {:induction false} CountNone(calls: seq<Call>, p: Call -> bool)
    requires forall c :: 0 <= c < |calls| ==> !p(calls[c])
    ensures Count(calls, p) == 0
  {
    if calls != [] {
      CountNone(calls[..|calls| - 1], p);
    }
  }

  predicate IsPlainDraw(k: Call) { k.pc.Returned? && k.pc.draw == PlainDraw }

  predicate IsMissedDraw(k: Call) { k.pc.Drawn? || (k.pc.Returned? && k.pc.draw == MissedDraw) }

  /** It has dereferenced the nil of an empty list. */
  predicate IsPanic(k: Call) { k.pc == Returned(Worker.NilPanic, NoDraw) }

  predicate InFlight(k: Call) { k.pc.Missed? || k.pc.Drawn? }

  function PlainDraws(): Call -> bool { (k: Call) => IsPlainDraw(k) }

  function MissedDraws(): Call -> bool { (k: Call) => IsMissedDraw(k) }

  function Panics(): Call -> bool { (k: Call) => IsPanic(k) }

  function Misses(): Call -> bool { (k: Call) => k.pc.Missed? || IsMissedDraw(k) || IsPanic(k) }

  ghost predicate Tallied(s: State)
  {
    && s.drawn == Count(s.calls, PlainDraws()) + Count(s.calls, MissedDraws())
    && s.index == s.drawn % Worker.TICKETS
  }

  lemma SameTallied(s: State, t: State, c: nat)
    requires Tallied(s) && c < |s.calls| == |t.calls| && t.calls == s.calls[c := t.calls[c]]
    requires t.drawn == s.drawn && t.index == s.index
    requires IsPlainDraw(s.calls[c]) == IsPlainDraw(t.calls[c]) && IsMissedDraw(s.calls[c]) == IsMissedDraw(t.calls[c])
    ensures Tallied(t)
  {
    CountUpdate(s.calls, PlainDraws(), c, t.calls[c]);
    CountUpdate(s.calls, MissedDraws(), c, t.calls[c]);
  }

  lemma TicketTallied(s: State, c: nat)
    requires Tallied(s) && Enabled(s, Ticket(c)) && s.upstreams != []
    ensures Tallied(After(s, Ticket(c)))
  {
    var k := After(s, Ticket(c)).calls[c];
    CountUpdate(s.calls, PlainDraws(), c, k);
    CountUpdate(s.calls, MissedDraws(), c, k);
    Worker.Successor(s.drawn, Worker.TICKETS);
  }

  lemma StepTallied(s: State, step: Step)
    requires Tallied(s) && Enabled(s, step)
    ensures Tallied(After(s, step))
  {
    if step.Ticket? && s.upstreams != [] {
      TicketTallied(s, step.c);
    } else if OfCall(step) {
      SameTallied(s, After(s, step), step.c);
    }
  }

  lemma {:induction false} RunTallied(s: State, steps: seq<Step>, t: State)
    requires Tallied(s) && Run(s, steps, t)
    ensures Tallied(t)
    decreases |steps|
  {
    if steps != [] {
      StepTallied(s, steps[0]);
      RunTallied(After(s, steps[0]), steps[1..], t);
    }
  }

  /** In every interleaving the tickets drawn are the draws of calls that are not
      sticky plus those of lookups that missed. */
  lemma TicketsAreDraws(s: State, steps: seq<Step>, t: State)
    requires Init(s) && Run(s, steps, t)
    ensures t.drawn == Count(t.calls, PlainDraws()) + Count(t.calls, MissedDraws())
    ensures t.index == t.drawn % Worker.TICKETS
  {
    CountNone(s.calls, PlainDraws());
    CountNone(s.calls, MissedDraws());
    RunTallied(s, steps, t);
  }

  // ---- tickets and distinct pairs --------------------------------------

  predicate HasPair(k: Call, p: (nat, string)) { InFlight(k) && k.pc.obj == p.0 && k.session == p.1 }

  ghost predicate Flying(s: State, p: (nat, string))
  {
    exists c :: 0 <= c < |s.calls| && HasPair(s.calls[c], p)
  }

  predicate IsStored(s: State, p: (nat, string)) { p.0 < |s.objs| && p.1 in s.objs[p.0] }

  function PairOf(k: Call): (nat, string)
    requires InFlight(k) || k.pc.Got?
  {
    (k.pc.obj, k.session)
  }

  /** A lookup that misses while another call of its pair is between its own
      missed lookup and its store. */
  ghost predicate Overlap(s: State, step: Step)
    requires Enabled(s, step)
  {
    step.Find? && Found(s, s.calls[step.c]).Missed? && Flying(s, PairOf(s.calls[step.c]))
  }

  /** A call that meets the empty list, and panics, as the last in flight of a pair
      that nobody has stored: the pair is forgotten. */
  ghost predicate Abandon(s: State, step: Step)
    requires Enabled(s, step)
  {
    && step.Ticket? && s.upstreams == [] && s.calls[step.c].pc.Missed?
    && !IsStored(s, PairOf(s.calls[step.c])) && !Flying(After(s, step), PairOf(s.calls[step.c]))
  }

  ghost function Overlaps(s: State, steps: seq<Step>): nat
    decreases |steps|
  {
    if steps == [] || !Enabled(s, steps[0]) then 0
    else (if Overlap(s, steps[0]) then 1 else 0) + Overlaps(After(s, steps[0]), steps[1..])
  }

  ghost function Abandons(s: State, steps: seq<Step>): nat
    decreases |steps|
  {
    if steps == [] || !Enabled(s, steps[0]) then 0
    else (if Abandon(s, steps[0]) then 1 else 0) + Abandons(After(s, steps[0]), steps[1..])
  }

  /** The object of a call that holds one exists. */
  predicate CallOk(s: State, k: Call)
  {
    (k.pc.Got? ==> k.pc.obj < |s.objs|) && (InFlight(k) ==> k.pc.obj < |s.objs| && PairOf(k) in s.touched)
  }

  /** Pairs in flight or stored have been missed, and all objects exist. */
  ghost predicate Known(s: State)
  {
    && (forall c :: 0 <= c < |s.calls| ==> CallOk(s, s.calls[c]))
    && (forall o, x :: 0 <= o < |s.objs| && x in s.objs[o] ==> (o, x) in s.touched)
    && (forall u :: u in s.cache ==> s.cache[u] < |s.objs|)
    && (forall u :: u in s.held ==> s.held[u] < |s.objs|)
  }

  lemma CallStepOk(s: State, step: Step)
    requires Known(s) && Enabled(s, step) && OfCall(step)
    ensures CallOk(After(s, step), After(s, step).calls[step.c])
    ensures After(s, step).calls == s.calls[step.c := After(s, step).calls[step.c]]
  {
    assert CallOk(s, s.calls[step.c]);
  }

  lemma StoredKnown(s: State, step: Step)
    requires Known(s) && Enabled(s, step)
    ensures var t := After(s, step); forall o, x :: 0 <= o < |t.objs| && x in t.objs[o] ==> (o, x) in t.touched
  {
    if OfCall(step) {
      assert CallOk(s, s.calls[step.c]);
    }
  }

  lemma ObjectsGrow(s: State, step: Step)
    requires Enabled(s, step)
    ensures var t := After(s, step); |t.objs| >= |s.objs| && s.touched <= t.touched && |t.calls| == |s.calls|
    ensures !OfCall(step) ==> After(s, step).calls == s.calls
  {}

  lemma CallsOk(s: State, step: Step)
    requires Known(s) && Enabled(s, step)
    ensures var t := After(s, step); forall c :: 0 <= c < |t.calls| ==> CallOk(t, t.calls[c])
  {
    var t := After(s, step);
    ObjectsGrow(s, step);
    if OfCall(step) {
      CallStepOk(s, step);
    }
    forall c | 0 <= c < |t.calls| ensures CallOk(t, t.calls[c]) {
      assert CallOk(s, s.calls[c]);
    }
  }

  lemma EntriesOk(s: State, step: Step)
    requires Known(s) && Enabled(s, step)
    ensures var t := After(s, step);
            && (forall u :: u in t.cache ==> t.cache[u] < |t.objs|) && (forall u :: u in t.held ==> t.held[u] < |t.objs|)
  {}

  lemma StepKnown(s: State, step: Step)
    requires Known(s) && Enabled(s, step)
    ensures Known(After(s, step))
  {
    StoredKnown(s, step);
    CallsOk(s, step);
    EntriesOk(s, step);
  }

  /** The pairs that are in flight or stored. */
  ghost function Live(s: State): set<(nat, string)>
  {
    set p | p in s.touched && (Flying(s, p) || IsStored(s, p))
  }

  lemma FlyingUpdate(s: State, t: State, c: nat, p: (nat, string))
    requires c < |s.calls| == |t.calls| && t.calls == s.calls[c := t.calls[c]]
    requires HasPair(s.calls[c], p) ==> HasPair(t.calls[c], p)
    ensures Flying(s, p) ==> Flying(t, p)
  {
    if Flying(s, p) {
      var d :| 0 <= d < |s.calls| && HasPair(s.calls[d], p);
      assert HasPair(t.calls[d], p);
    }
  }

  /** A step of one call that changes at most the flight of its own pair. */
  lemma OthersLive(s: State, t: State, c: nat, mine: (nat, string))
    requires c < |s.calls| == |t.calls| && t.calls == s.calls[c := t.calls[c]]
    requires forall p :: p != mine ==> (HasPair(s.calls[c], p) <==> HasPair(t.calls[c], p))
    requires forall p :: p != mine ==> (IsStored(s, p) <==> IsStored(t, p)) && (p in s.touched <==> p in t.touched)
    ensures Live(t) == if mine in Live(t) then Live(s) + {mine} else Live(s) - {mine}
  {
    forall p | p != mine ensures p in Live(t) <==> p in Live(s) {
      FlyingUpdate(s, t, c, p);
      FlyingUpdate(t, s, c, p);
    }
  }

  lemma SameLive(s: State, t: State, c: nat)
    requires c < |s.calls| == |t.calls| && t.calls == s.calls[c := t.calls[c]]
    requires forall p :: HasPair(s.calls[c], p) <==> HasPair(t.calls[c], p)
    requires t.objs == s.objs && t.touched == s.touched
    ensures Live(t) == Live(s)
  {
    forall p | p in s.touched ensures p in Live(t) <==> p in Live(s) {
      FlyingUpdate(s, t, c, p);
      FlyingUpdate(t, s, c, p);
    }
  }

  lemma QuietLive(s: State, t: State)
    requires t.calls == s.calls && t.touched == s.touched && forall p :: p in s.touched ==> (IsStored(s, p) <==> IsStored(t, p))
    ensures Live(t) == Live(s)
  {
    forall p | p in s.touched ensures Flying(s, p) <==> Flying(t, p) {}
  }

  lemma FindLive(s: State, c: nat)
    requires Known(s) && Enabled(s, Find(c)) && Found(s, s.calls[c]).Missed?
    ensures var mine := PairOf(s.calls[c]);
            Live(After(s, Find(c))) == Live(s) + {mine} && (mine in Live(s) <==> Overlap(s, Find(c)))
  {
    var t, mine := After(s, Find(c)), PairOf(s.calls[c]);
    OthersLive(s, t, c, mine);
    assert HasPair(t.calls[c], mine) && mine in Live(t);
    if Flying(s, mine) {
      var d :| 0 <= d < |s.calls| && HasPair(s.calls[d], mine);
      assert CallOk(s, s.calls[d]);
    }
  }

  lemma StoreLive(s: State, c: nat)
    requires Known(s) && Enabled(s, Store(c))
    ensures Live(After(s, Store(c))) == Live(s)
  {
    var t, mine := After(s, Store(c)), PairOf(s.calls[c]);
    OthersLive(s, t, c, mine);
    assert CallOk(s, s.calls[c]) && HasPair(s.calls[c], mine);
    assert mine in Live(s) && mine in Live(t);
    assert Live(s) + {mine} == Live(s);
  }

  lemma PanicLive(s: State, c: nat)
    requires Known(s) && Enabled(s, Ticket(c)) && s.upstreams == [] && s.calls[c].pc.Missed?
    ensures var mine := PairOf(s.calls[c]);
            mine in Live(s) && Live(After(s, Ticket(c))) == if Abandon(s, Ticket(c)) then Live(s) - {mine} else Live(s)
  {
    var t, mine := After(s, Ticket(c)), PairOf(s.calls[c]);
    OthersLive(s, t, c, mine);
    assert CallOk(s, s.calls[c]) && HasPair(s.calls[c], mine);
    assert mine in Live(s);
    assert mine in Live(t) <==> !Abandon(s, Ticket(c));
    assert Live(s) + {mine} == Live(s);
  }

  // ---- counting lookups that missed ------------------------------------

  ghost function Surplus(s: State): int
  {
    Count(s.calls, Misses()) - |Live(s)|
  }

  lemma FindSurplus(s: State, c: nat)
    requires Known(s) && Enabled(s, Find(c)) && Found(s, s.calls[c]).Missed?
    ensures Surplus(After(s, Find(c))) == Surplus(s) + (if Overlap(s, Find(c)) then 1 else 0)
  {
    FindLive(s, c);
    CountUpdate(s.calls, Misses(), c, After(s, Find(c)).calls[c]);
    assert PairOf(s.calls[c]) in Live(s) ==> Live(s) + {PairOf(s.calls[c])} == Live(s);
  }

  lemma PanicSurplus(s: State, c: nat)
    requires Known(s) && Enabled(s, Ticket(c)) && s.upstreams == [] && s.calls[c].pc.Missed?
    ensures Surplus(After(s, Ticket(c))) == Surplus(s) + (if Abandon(s, Ticket(c)) then 1 else 0)
  {
    PanicLive(s, c);
    CountUpdate(s.calls, Misses(), c, After(s, Ticket(c)).calls[c]);
  }

  /** A step of one call that leaves its flight as it is. */
  lemma SameSurplus(s: State, t: State, c: nat)
    requires c < |s.calls| == |t.calls| && t.calls == s.calls[c := t.calls[c]]
    requires Misses()(s.calls[c]) == Misses()(t.calls[c]) && Live(s) == Live(t)
    ensures Surplus(t) == Surplus(s)
  {
    CountUpdate(s.calls, Misses(), c, t.calls[c]);
  }

  lemma OtherSurplus(s: State, step: Step)
    requires Enabled(s, step) && OfCall(step) && !step.Store?
    requires step.Find? ==> !Found(s, s.calls[step.c]).Missed?
    requires step.Ticket? && s.upstreams == [] ==> !s.calls[step.c].pc.Missed?
    ensures Surplus(After(s, step)) == Surplus(s)
  {
    SameLive(s, After(s, step), step.c);
    SameSurplus(s, After(s, step), step.c);
  }

  lemma StepMisses(s: State, step: Step)
    requires Known(s) && Enabled(s, step)
    ensures Surplus(After(s, step))
         == Surplus(s) + (if Overlap(s, step) then 1 else 0) + (if Abandon(s, step) then 1 else 0)
  {
    var t := After(s, step);
    if step.Find? && Found(s, s.calls[step.c]).Missed? {
      FindSurplus(s, step.c);
    } else if step.Ticket? && s.upstreams == [] && s.calls[step.c].pc.Missed? {
      PanicSurplus(s, step.c);
    } else if step.Store? {
      StoreLive(s, step.c);
      SameSurplus(s, t, step.c);
    } else if OfCall(step) {
      OtherSurplus(s, step);
    } else {
      QuietLive(s, t);
    }
  }

  lemma {:induction false} RunMisses(s: State, steps: seq<Step>, t: State)
    requires Known(s) && Run(s, steps, t)
    ensures Known(t)
    ensures Surplus(t) == Surplus(s) + Overlaps(s, steps) + Abandons(s, steps)
    decreases |steps|
  {
    if steps != [] {
      StepKnown(s, steps[0]);
      StepMisses(s, steps[0]);
      RunMisses(After(s, steps[0]), steps[1..], t);
    }
  }

  lemma StepPanics(s: State, step: Step)
    requires Enabled(s, step)
    ensures Count(After(s, step).calls, Panics()) >= Count(s.calls, Panics()) + (if Abandon(s, step) then 1 else 0)
  {
    if OfCall(step) {
      CountUpdate(s.calls, Panics(), step.c, After(s, step).calls[step.c]);
    }
  }

  /** Every abandoned pair is a panic. */
  lemma {:induction false} RunPanics(s: State, steps: seq<Step>, t: State)
    requires Run(s, steps, t)
    ensures Count(t.calls, Panics()) >= Count(s.calls, Panics()) + Abandons(s, steps)
    decreases |steps|
  {
    if steps != [] {
      StepPanics(s, steps[0]);
      RunPanics(After(s, steps[0]), steps[1..], t);
    }
  }

  /** The (object, session) pairs that have an upstream. */
  ghost function Pairs(s: State): set<(nat, string)>
  {
    set p | p in s.touched && IsStored(s, p)
  }

  lemma {:induction false} MissesAre(calls: seq<Call>)
    requires forall c :: 0 <= c < |calls| ==> !InFlight(calls[c])
    ensures Count(calls, Misses()) == Count(calls, MissedDraws()) + Count(calls, Panics())
  {
    if calls != [] {
      MissesAre(calls[..|calls| - 1]);
      assert !InFlight(calls[|calls| - 1]);
    }
  }

  /** Once no call is in flight: every lookup that missed has drawn a ticket or met
      an empty list, and there were as many as there are stored pairs, plus the
      lookups that overlapped with another call of their pair, plus the pairs given
      up on an empty list. So if no call met one, each pair cost one ticket exactly
      when no lookups overlapped. */
  lemma TicketsArePairs(s: State, steps: seq<Step>, t: State)
    requires Init(s) && Run(s, steps, t)
    requires forall c :: 0 <= c < |t.calls| ==> !InFlight(t.calls[c])
    ensures forall o, x :: (o, x) in Pairs(t) <==> 0 <= o < |t.objs| && x in t.objs[o]
    ensures Count(t.calls, MissedDraws()) + Count(t.calls, Panics()) == |Pairs(t)| + Overlaps(s, steps) + Abandons(s, steps)
    ensures Count(t.calls, Panics()) >= Abandons(s, steps)
    ensures t.drawn == Count(t.calls, PlainDraws()) + Count(t.calls, MissedDraws())
    ensures Count(t.calls, Panics()) == 0 ==> (Count(t.calls, MissedDraws()) == |Pairs(t)| <==> Overlaps(s, steps) == 0)
  {
    CountNone(s.calls, Misses());
    assert Live(s) == {};
    RunMisses(s, steps, t);
    RunPanics(s, steps, t);
    TicketsAreDraws(s, steps, t);
    MissesAre(t.calls);
    NoneFlying(t);
    assert Pairs(t) == Live(t);
  }

  lemma NoneFlying(s: State)
    requires forall c :: 0 <= c < |s.calls| ==> !InFlight(s.calls[c])
    ensures forall p :: !Flying(s, p)
  {}

  // ---- two first calls at once -----------------------------------------

  /** Three calls of one session, on the list [0, 1] and one user object. */
  function Trio(user: string, session: string, a: Pc, b: Pc, c: Pc, kept: map<string, Upstream>, n: nat,
                touched: set<(nat, string)>): State
  {
    State([0, 1], n, [kept], map[user := 0], map[], false, [Call(user, session, a), Call(user, session, b), Call(user, session, c)],
          n, touched)
  }

  lemma BothLook(user: string, session: string) returns (s: State, steps: seq<Step>, t: State)
    requires session != ""
    ensures Init(s) && Run(s, steps, t)
    ensures t == Trio(user, session, Got(0), Got(0), Arrived, map[], 0, {})
  {
    var k := Call(user, session, Arrived);
    s := State([0, 1], 0, [], map[], map[], false, [k, k, k], 0, {});
    steps, t := Then(s, [], s, Cache(user));
    assert t == Trio(user, session, Arrived, Arrived, Arrived, map[], 0, {});
    steps, t := Then(s, steps, t, Look(0));
    assert t == Trio(user, session, Got(0), Arrived, Arrived, map[], 0, {});
    steps, t := Then(s, steps, t, Look(1));
  }

  lemma BothMiss(user: string, session: string) returns (s: State, steps: seq<Step>, t: State)
    requires session != ""
    ensures Init(s) && Run(s, steps, t)
    ensures t == Trio(user, session, Missed(0), Missed(0), Arrived, map[], 0, {(0, session)})
  {
    s, steps, t := BothLook(user, session);
    steps, t := Then(s, steps, t, Find(0));
    assert t == Trio(user, session, Missed(0), Got(0), Arrived, map[], 0, {(0, session)});
    steps, t := Then(s, steps, t, Find(1));
  }

  const FIRST: Pc := Returned(Worker.Chosen(0), MissedDraw)
  const SECOND: Pc := Returned(Worker.Chosen(1), MissedDraw)

  lemma FirstStores(user: string, session: string, s: State, before: seq<Step>, u: State) returns (steps: seq<Step>, t: State)
    requires Run(s, before, u) && u == Trio(user, session, Missed(0), Missed(0), Arrived, map[], 0, {(0, session)})
    ensures Run(s, steps, t) && t == Trio(user, session, FIRST, Missed(0), Arrived, map[session := 0], 1, {(0, session)})
  {
    steps, t := Then(s, before, u, Ticket(0));
    assert t == Trio(user, session, Drawn(0, 0), Missed(0), Arrived, map[], 1, {(0, session)});
    steps, t := Then(s, steps, t, Store(0));
  }

  lemma SecondStores(user: string, session: string, s: State, before: seq<Step>, u: State) returns (steps: seq<Step>, t: State)
    requires Run(s, before, u) && u == Trio(user, session, FIRST, Missed(0), Arrived, map[session := 0], 1, {(0, session)})
    ensures Run(s, steps, t) && t == Trio(user, session, FIRST, SECOND, Arrived, map[session := 1], 2, {(0, session)})
  {
    steps, t := Then(s, before, u, Ticket(1));
    assert t == Trio(user, session, FIRST, Drawn(0, 1), Arrived, map[session := 0], 2, {(0, session)});
    steps, t := Then(s, steps, t, Store(1));
    assert map[session := 0][session := 1] == map[session := 1];
  }

  /** Two calls of a new session look it up before either stores: with the list
      [0, 1] one returns 0, the other 1, the session keeps 1, so that its first
      upstream does not stick, and two tickets went for one pair. */
  lemma FirstUpstreamLost(user: string, session: string) returns (s: State, steps: seq<Step>, t: State)
    requires session != ""
    ensures Init(s) && Run(s, steps, t) && |t.calls| == 3 && t.drawn == 2
    ensures t.calls[0].pc == Returned(Worker.Chosen(0), MissedDraw) && t.calls[1].pc == Returned(Worker.Chosen(1), MissedDraw)
    ensures t.calls[2].pc == Returned(Worker.Chosen(1), NoDraw)
  {
    s, steps, t := BothMiss(user, session);
    steps, t := FirstStores(user, session, s, steps, t);
    steps, t := SecondStores(user, session, s, steps, t);
    steps, t := Then(s, steps, t, Look(2));
    assert t == Trio(user, session, FIRST, SECOND, Got(0), map[session := 1], 2, {(0, session)});
    steps, t := Then(s, steps, t, Find(2));
  }
}
