// The worker's bounded connection pool. Connections are numbered in the order
// in which the factory makes them; Release and the borrowers are book-keeping.
module ConnPool {
  import opened Wrappers

  type Conn = nat

  /** The channel and its capacity, the connections out on loan, every call of
      Release so far, and how many connections were ever made. */
  datatype Pool = Pool(conns: seq<Conn>, cap: nat, lent: set<Conn>, released: multiset<Conn>, made: nat)

  function Made(n: nat): (ids: set<Conn>)
    ensures forall c :: c in ids <==> 0 <= c < n
  {
    if n == 0 then {} else Made(n - 1) + {n - 1}
  }

  ghost function Tally(p: Pool): multiset<Conn>
  {
    multiset(p.conns) + multiset(p.lent) + p.released
  }

  /** Every connection ever made is in exactly one place, exactly once: pooled,
      lent or released. */
  ghost predicate Conserved(p: Pool)
  {
    Tally(p) == multiset(Made(p.made))
  }

  ghost predicate Bounded(p: Pool)
  {
    |p.conns| <= p.cap
  }

  // ---- one lock section each -------------------------------------------

  /** A select that sends to the channel or, when it is full, releases. */
  function Offer(p: Pool, c: Conn): Pool
  {
    if |p.conns| < p.cap then p.(conns := p.conns + [c]) else p.(released := p.released + multiset{c})
  }

  /** Rounds i.. of the refill loop; outcomes says which factory calls succeed. */
  function FillFrom(p: Pool, initialCap: nat, async: bool, outcomes: seq<bool>, i: nat): (Pool, bool)
    requires |outcomes| == initialCap
    decreases initialCap - i
  {
    if i >= initialCap then (p, true)
    else if !outcomes[i] then (if async then FillFrom(p, initialCap, async, outcomes, i + 1) else (p, false))
    else
      var q := Offer(p.(made := p.made + 1), p.made);
      if |q.conns| >= initialCap then (q, true) else FillFrom(q, initialCap, async, outcomes, i + 1)
  }

  function GetFrom(p: Pool, factoryOk: bool, active: bool): (Pool, Option<Conn>)
  {
    if p.conns != [] then
      var c := p.conns[0];
      var q := p.(conns := p.conns[1..], lent := p.lent + {c});
      (if active then q else q.(released := q.released + multiset{c}), Some(c))
    else if factoryOk then (p.(made := p.made + 1, lent := p.lent + {p.made}), Some(p.made))
    else (p, None)
  }

  function PutTo(p: Pool, c: Conn, active: bool): Pool
  {
    var q := p.(lent := p.lent - {c});
    Offer(if active then q else q.(released := q.released + multiset{c}), c)
  }

  function ReleaseAllOf(p: Pool, initialCap: nat): Pool
  {
    p.(conns := [], cap := initialCap, released := p.released + multiset(p.conns))
  }

  lemma NextDrained(drained: seq<Conn>, conns: seq<Conn>)
    requires conns != []
    ensures drained + [conns[0]] + conns[1..] == drained + conns
    ensures multiset(drained + [conns[0]]) == multiset(drained) + multiset{conns[0]}
  {}

  // ---- the object ------------------------------------------------------

  class NetPool {
    const initialCap: nat
    const maxCap: nat
    var conns: seq<Conn>
    var cap: nat
    var made: nat
    ghost var lent: set<Conn>
    ghost var released: multiset<Conn>

    ghost function State(): Pool
      reads this
    {
      Pool(conns, cap, lent, released, made)
    }

    constructor (initialCap: nat, maxCap: nat)
      ensures this.initialCap == initialCap && this.maxCap == maxCap
      ensures State() == NewPool(maxCap)
    {
      this.initialCap, this.maxCap := initialCap, maxCap;
      conns, cap, made, lent, released := [], maxCap, 0, {}, multiset{};
    }

    method Release(c: Conn)
      modifies this`released
      ensures released == old(released) + multiset{c}
    {
      released := released + multiset{c};
    }

    /** The locked part of a refill. */
    method Fill(async: bool, outcomes: seq<bool>) returns (ok: bool)
      requires |outcomes| == initialCap
      modifies this
      ensures (State(), ok) == FillFrom(old(State()), initialCap, async, outcomes, 0)
    {
      var i := 0;
      while i < initialCap
        invariant 0 <= i <= initialCap
        invariant FillFrom(old(State()), initialCap, async, outcomes, 0) == FillFrom(State(), initialCap, async, outcomes, i)
      {
        if !outcomes[i] {
          if async {
            i := i + 1;
            continue;
          } else {
            return false;
          }
        }
        var c := made;
        made := made + 1;
        if |conns| < cap {
          conns := conns + [c];
        } else {
          Release(c);
        }
        if |conns| >= initialCap {
          return true;
        }
        i := i + 1;
      }
      ok := true;
    }

    /** One round of the refill worker: the loop is entered only at the threshold. */
    method Refill(async: bool, outcomes: seq<bool>) returns (ok: bool)
      requires |outcomes| == initialCap
      modifies this
      ensures (State(), ok) == if |old(conns)| <= initialCap / 2
        then FillFrom(old(State()), initialCap, async, outcomes, 0) else (old(State()), true)
    {
      ok := true;
      if |conns| <= initialCap / 2 {
        ok := Fill(async, outcomes);
      }
    }

    method Get(factoryOk: bool, active: bool) returns (conn: Option<Conn>)
      modifies this
      ensures (State(), conn) == GetFrom(old(State()), factoryOk, active)
    {
      if conns != [] {
        var c := conns[0];
        conns := conns[1..];
        lent := lent + {c};
        if active {
          return Some(c);
        }
        Release(c);
        return Some(c);
      }
      if !factoryOk {
        return None;
      }
      conn := Some(made);
      lent := lent + {made};
      made := made + 1;
    }

    method Put(c: Conn, active: bool)
      modifies this
      ensures State() == PutTo(old(State()), c, active)
    {
      lent := lent - {c};
      if !active {
        Release(c);
      }
      if |conns| < cap {
        conns := conns + [c];
      } else {
        Release(c);
      }
    }

    method ReleaseAll()
      modifies this
      ensures State() == ReleaseAllOf(old(State()), initialCap)
    {
      var drained: seq<Conn> := [];
      while conns != []
        invariant drained + conns == old(conns)
        invariant released == old(released) + multiset(drained)
        invariant cap == old(cap) && lent == old(lent) && made == old(made)
        decreases |conns|
      {
        var c := conns[0];
        NextDrained(drained, conns);
        Release(c);
        drained, conns := drained + [c], conns[1..];
      }
      assert drained == old(conns);
      cap := initialCap;
    }
  }

  // ---- conservation ----------------------------------------------------

  lemma MadeOneMore(n: nat)
    ensures multiset(Made(n + 1)) == multiset(Made(n)) + multiset{n}
  {
    assert Made(n + 1) == Made(n) + {n};
  }

  lemma OfferTally(p: Pool, c: Conn)
    ensures Tally(Offer(p, c)) == Tally(p) + multiset{c}
  {}

  lemma OfferCap(p: Pool, c: Conn)
    ensures Offer(p, c).cap == p.cap
  {}

  lemma OfferNew(p: Pool)
    requires Conserved(p) && Bounded(p)
    ensures Conserved(Offer(p.(made := p.made + 1), p.made)) && Bounded(Offer(p.(made := p.made + 1), p.made))
  {
    OfferTally(p.(made := p.made + 1), p.made);
    MadeOneMore(p.made);
  }

  lemma {:induction false} FillConserves(p: Pool, initialCap: nat, async: bool, outcomes: seq<bool>, i: nat)
    requires Conserved(p) && Bounded(p) && |outcomes| == initialCap
    ensures Conserved(FillFrom(p, initialCap, async, outcomes, i).0)
    ensures Bounded(FillFrom(p, initialCap, async, outcomes, i).0)
    ensures FillFrom(p, initialCap, async, outcomes, i).0.cap == p.cap
    decreases initialCap - i
  {
    if i < initialCap {
      if outcomes[i] {
        OfferNew(p);
        OfferCap(p.(made := p.made + 1), p.made);
        FillConserves(Offer(p.(made := p.made + 1), p.made), initialCap, async, outcomes, i + 1);
      } else {
        FillConserves(p, initialCap, async, outcomes, i + 1);
      }
    }
  }

  lemma AddOne(a: multiset<Conn>, b: multiset<Conn>, c: Conn)
    requires a == b
    ensures a + multiset{c} != b
  {
    assert (a + multiset{c})[c] == b[c] + 1;
  }

  /** Get keeps every connection in one place exactly when the pooled one it
      takes is active, or there is none to take. */
  lemma GetConserves(p: Pool, factoryOk: bool, active: bool)
    requires Conserved(p)
    ensures Conserved(GetFrom(p, factoryOk, active).0) <==> active || p.conns == []
  {
    if p.conns != [] {
      LendTally(p);
      AddOne(Tally(p), multiset(Made(p.made)), p.conns[0]);
    } else if factoryOk {
      LendNew(p);
      MadeOneMore(p.made);
    }
  }

  lemma LendNew(p: Pool)
    requires Conserved(p) && p.conns == []
    ensures Tally(GetFrom(p, true, true).0) == Tally(GetFrom(p, true, false).0) == Tally(p) + multiset{p.made}
  {
    NotMade(p);
    assert multiset(p.lent + {p.made}) == multiset(p.lent) + multiset{p.made};
  }

  lemma LendTally(p: Pool)
    requires Conserved(p) && p.conns != []
    ensures Tally(GetFrom(p, true, true).0) == Tally(GetFrom(p, false, true).0) == Tally(p)
    ensures Tally(GetFrom(p, true, false).0) == Tally(GetFrom(p, false, false).0) == Tally(p) + multiset{p.conns[0]}
  {
    var c := p.conns[0];
    assert p.conns == [c] + p.conns[1..];
    NotBoth(p, c);
    assert multiset(p.lent + {c}) == multiset(p.lent) + multiset{c};
  }

  lemma NotBoth(p: Pool, c: Conn)
    requires Conserved(p) && c in p.conns
    ensures c !in p.lent && c !in p.released
  {
    assert multiset(Made(p.made))[c] <= 1;
    assert multiset(p.conns)[c] >= 1;
  }

  lemma NotMade(p: Pool)
    requires Conserved(p)
    ensures p.made !in p.lent
  {
    assert multiset(Made(p.made))[p.made] == 0;
  }

  /** Put of a lent connection keeps it in one place exactly when it is active. */
  lemma PutConserves(p: Pool, c: Conn, active: bool)
    requires Conserved(p) && c in p.lent
    ensures Conserved(PutTo(p, c, active)) <==> active
  {
    assert multiset(p.lent - {c}) + multiset{c} == multiset(p.lent);
    var q := p.(lent := p.lent - {c});
    OfferTally(q, c);
    assert Tally(q) + multiset{c} == Tally(p);
    OfferTally(q.(released := q.released + multiset{c}), c);
    assert Tally(q.(released := q.released + multiset{c})) == Tally(p);
    AddOne(Tally(p), multiset(Made(p.made)), c);
  }

  /** Taking out: the first pooled connection, active or not, then released on the
      way if it is not; with none pooled a new one, if it can be made, and else
      nothing, and nothing changes. */
  lemma TakenOut(p: Pool, factoryOk: bool, active: bool)
    ensures p.conns != [] ==>
      GetFrom(p, factoryOk, active)
      == (p.(conns := p.conns[1..], lent := p.lent + {p.conns[0]},
             released := if active then p.released else p.released + multiset{p.conns[0]}), Some(p.conns[0]))
    ensures p.conns == [] && factoryOk ==>
      GetFrom(p, factoryOk, active) == (p.(made := p.made + 1, lent := p.lent + {p.made}), Some(p.made))
    ensures p.conns == [] && !factoryOk ==> GetFrom(p, factoryOk, active) == (p, None)
  {}

  /** Putting back: into the last place if there is room, and else only the one put
      back is released, and the pooled ones stay. */
  lemma PutBack(p: Pool, c: Conn)
    ensures |p.conns| < p.cap ==> PutTo(p, c, true) == p.(lent := p.lent - {c}, conns := p.conns + [c])
    ensures |p.conns| >= p.cap ==> PutTo(p, c, true) == p.(lent := p.lent - {c}, released := p.released + multiset{c})
  {}

  function TakeMany(p: Pool, k: nat): Pool
  {
    if k == 0 then p else GetFrom(TakeMany(p, k - 1), false, true).0
  }

  /** Pooled connections come out in the order in which they were put in: the k-th
      taken is the k-th pooled, and no other moves. */
  lemma {:induction false} TakenInOrder(p: Pool, k: nat)
    requires k <= |p.conns|
    ensures TakeMany(p, k).conns == p.conns[k..] && TakeMany(p, k).released == p.released && TakeMany(p, k).made == p.made
    ensures k < |p.conns| ==> GetFrom(TakeMany(p, k), false, true).1 == Some(p.conns[k])
    ensures k == |p.conns| ==> GetFrom(TakeMany(p, k), false, true) == (TakeMany(p, k), None)
  {
    if k > 0 {
      TakenInOrder(p, k - 1);
    }
  }

  /** So what is put into a pool with room comes out behind all that was there. */
  lemma PutComesOutLast(p: Pool, c: Conn)
    requires |p.conns| < p.cap
    ensures GetFrom(TakeMany(PutTo(p, c, true), |p.conns|), false, true).1 == Some(c)
  {
    PutBack(p, c);
    TakenInOrder(PutTo(p, c, true), |p.conns|);
  }

  function NewPool(maxCap: nat): Pool
  {
    Pool([], maxCap, {}, multiset{}, 0)
  }

  lemma NewPoolConserved(maxCap: nat)
    ensures Conserved(NewPool(maxCap)) && Bounded(NewPool(maxCap))
  {}

  // ---- whole runs ------------------------------------------------------

  datatype Op =
    | FillOp(async: bool, outcomes: seq<bool>)
    | GetOp(factoryOk: bool)
    | PutOp(conn: Conn)
    | ReleaseAllOp

  /** A step of the pool as its only user configures it: every connection is
      active, and only lent connections are put back. */
  ghost predicate Possible(p: Pool, op: Op, initialCap: nat)
  {
    match op
    case FillOp(_, outcomes) => |outcomes| == initialCap
    case PutOp(c) => c in p.lent
    case _ => true
  }

  ghost function Apply(p: Pool, op: Op, initialCap: nat): Pool
    requires Possible(p, op, initialCap)
  {
    match op
    case FillOp(async, outcomes) => FillFrom(p, initialCap, async, outcomes, 0).0
    case GetOp(factoryOk) => GetFrom(p, factoryOk, true).0
    case PutOp(c) => PutTo(p, c, true)
    case ReleaseAllOp => ReleaseAllOf(p, initialCap)
  }

  ghost predicate Run(p: Pool, ops: seq<Op>, initialCap: nat, q: Pool)
    decreases |ops|
  {
    if ops == [] then p == q
    else Possible(p, ops[0], initialCap) && Run(Apply(p, ops[0], initialCap), ops[1..], initialCap, q)
  }

  /** In every run no connection is lost, shared or released twice, and the pool
      stays within its capacity: MaxCap at first, InitialCap once it has been
      released. */
  lemma {:induction false} RunConserves(p: Pool, ops: seq<Op>, initialCap: nat, q: Pool)
    requires Conserved(p) && Bounded(p) && Run(p, ops, initialCap, q)
    ensures Conserved(q) && Bounded(q)
    ensures q.cap == if ReleaseAllOp in ops then initialCap else p.cap
    ensures p.released <= q.released && p.made <= q.made
    decreases |ops|
  {
    if ops != [] {
      ApplyConserves(p, ops[0], initialCap);
      RunConserves(Apply(p, ops[0], initialCap), ops[1..], initialCap, q);
      assert ops == [ops[0]] + ops[1..];
    }
  }

  /** From the constructor on: every connection ever made is in exactly one place,
      and the pool never exceeds MaxCap, nor InitialCap once it was released. */
  lemma EveryRunConserves(maxCap: nat, ops: seq<Op>, initialCap: nat, q: Pool)
    requires Run(NewPool(maxCap), ops, initialCap, q)
    ensures Conserved(q) && |q.conns| <= (if ReleaseAllOp in ops then initialCap else maxCap)
  {
    NewPoolConserved(maxCap);
    RunConserves(NewPool(maxCap), ops, initialCap, q);
  }

  lemma ApplyConserves(p: Pool, op: Op, initialCap: nat)
    requires Conserved(p) && Bounded(p) && Possible(p, op, initialCap)
    ensures var q := Apply(p, op, initialCap);
            && Conserved(q) && Bounded(q)
            && q.cap == (if op == ReleaseAllOp then initialCap else p.cap)
            && p.released <= q.released && p.made <= q.made
  {
    match op
    case FillOp(async, outcomes) =>
      FillConserves(p, initialCap, async, outcomes, 0);
      FillGrows(p, initialCap, async, outcomes, 0);
    case GetOp(factoryOk) => GetConserves(p, factoryOk, true);
    case PutOp(c) => PutConserves(p, c, true);
    case ReleaseAllOp => assert Tally(ReleaseAllOf(p, initialCap)) == Tally(p);
  }

  lemma OfferGrows(p: Pool, c: Conn)
    ensures p.released <= Offer(p, c).released && Offer(p, c).made == p.made
  {}

  lemma {:induction false} FillGrows(p: Pool, initialCap: nat, async: bool, outcomes: seq<bool>, i: nat)
    requires |outcomes| == initialCap
    ensures var q := FillFrom(p, initialCap, async, outcomes, i).0;
            p.released <= q.released && p.made <= q.made
    decreases initialCap - i
  {
    if i < initialCap {
      if outcomes[i] {
        OfferGrows(p.(made := p.made + 1), p.made);
        FillGrows(Offer(p.(made := p.made + 1), p.made), initialCap, async, outcomes, i + 1);
      } else {
        FillGrows(p, initialCap, async, outcomes, i + 1);
      }
    }
  }

  /** So no connection is ever released twice. */
  lemma ReleasedOnce(p: Pool, c: Conn)
    requires Conserved(p)
    ensures p.released[c] <= 1
    ensures c in p.released ==> c < p.made && c !in p.conns && c !in p.lent
  {
    assert multiset(Made(p.made))[c] <= 1;
  }

  // ---- how far one refill goes -----------------------------------------

  function Fresh(from: nat, n: nat): (ids: seq<Conn>)
    ensures |ids| == n
  {
    seq(n, i requires 0 <= i < n => from + i)
  }

  function Successes(outcomes: seq<bool>, i: nat): nat
    decreases |outcomes| - i
  {
    if i >= |outcomes| then 0 else (if outcomes[i] then 1 else 0) + Successes(outcomes, i + 1)
  }

  /** The attempts that count: all successes in the background, those before the
      first failure otherwise. */
  function Yield(outcomes: seq<bool>, i: nat, async: bool): nat
    decreases |outcomes| - i
  {
    if i >= |outcomes| then 0
    else if outcomes[i] then 1 + Yield(outcomes, i + 1, async)
    else if async then Yield(outcomes, i + 1, async)
    else 0
  }

  lemma {:induction false} YieldInBackground(outcomes: seq<bool>, i: nat)
    ensures Yield(outcomes, i, true) == Successes(outcomes, i)
    decreases |outcomes| - i
  {
    if i < |outcomes| {
      YieldInBackground(outcomes, i + 1);
    }
  }

  /** A refill in either mode that starts below InitialCap, with room for it,
      adds one fresh connection a counting attempt until InitialCap is reached,
      and releases none. It fails only on a failing attempt of a synchronous
      refill that is still short. */
  lemma {:induction false} FillAdds(p: Pool, initialCap: nat, async: bool, outcomes: seq<bool>, i: nat)
    returns (added: nat)
    requires |outcomes| == initialCap <= p.cap && i <= initialCap && (|p.conns| < initialCap || i == initialCap)
    ensures FillFrom(p, initialCap, async, outcomes, i).0
         == p.(conns := p.conns + Fresh(p.made, added), made := p.made + added)
    ensures i < initialCap ==>
      added == if Yield(outcomes, i, async) < initialCap - |p.conns| then Yield(outcomes, i, async) else initialCap - |p.conns|
    ensures i == initialCap ==> added == 0
    ensures !FillFrom(p, initialCap, async, outcomes, i).1 <==>
      !async && i < initialCap && |p.conns| + added < initialCap && added < initialCap - i
    decreases initialCap - i
  {
    if i == initialCap {
      added := 0;
      assert p.conns + Fresh(p.made, 0) == p.conns;
    } else if !outcomes[i] && !async {
      added := 0;
      assert p.conns + Fresh(p.made, 0) == p.conns;
    } else if !outcomes[i] {
      added := FillAdds(p, initialCap, async, outcomes, i + 1);
    } else {
      var q := Offer(p.(made := p.made + 1), p.made);
      assert q.conns == p.conns + Fresh(p.made, 1);
      if |q.conns| >= initialCap {
        added := 1;
      } else {
        var more := FillAdds(q, initialCap, async, outcomes, i + 1);
        added := more + 1;
        assert q.conns + Fresh(q.made, more) == p.conns + Fresh(p.made, added);
      }
    }
  }

  lemma {:induction false} AllSucceed(outcomes: seq<bool>, i: nat)
    requires i <= |outcomes| && forall j :: i <= j < |outcomes| ==> outcomes[j]
    ensures Successes(outcomes, i) == |outcomes| - i
    decreases |outcomes| - i
  {
    if i < |outcomes| {
      AllSucceed(outcomes, i + 1);
    }
  }

  /** A refill with a factory that never fails ends with exactly InitialCap
      pooled connections if and only if it found fewer, or exactly that many and
      no way to add one. A refill entered at its own threshold, half of
      InitialCap, always does. */
  lemma FillReaches(p: Pool, initialCap: nat, async: bool, outcomes: seq<bool>)
    requires |outcomes| == initialCap <= p.cap && forall j :: 0 <= j < initialCap ==> outcomes[j]
    ensures |FillFrom(p, initialCap, async, outcomes, 0).0.conns| == initialCap
       <==> |p.conns| < initialCap || (|p.conns| == initialCap && (initialCap == 0 || p.cap == initialCap))
  {
    if |p.conns| < initialCap {
      FillSame(p, initialCap, async, outcomes, 0);
      AllSucceed(outcomes, 0);
      YieldInBackground(outcomes, 0);
      var added := FillAdds(p, initialCap, true, outcomes, 0);
    }
  }

  /** With no failing attempt the two modes of the loop do not differ. */
  lemma {:induction false} FillSame(p: Pool, initialCap: nat, async: bool, outcomes: seq<bool>, i: nat)
    requires |outcomes| == initialCap && forall j :: 0 <= j < initialCap ==> outcomes[j]
    ensures FillFrom(p, initialCap, async, outcomes, i) == FillFrom(p, initialCap, true, outcomes, i)
    decreases initialCap - i
  {
    if i < initialCap {
      FillSame(Offer(p.(made := p.made + 1), p.made), initialCap, async, outcomes, i + 1);
    }
  }

  lemma FillAtThreshold(p: Pool, initialCap: nat, async: bool, outcomes: seq<bool>)
    requires |outcomes| == initialCap <= p.cap && forall j :: 0 <= j < initialCap ==> outcomes[j]
    requires |p.conns| <= initialCap / 2
    ensures var q := FillFrom(p, initialCap, async, outcomes, 0).0;
            |q.conns| == initialCap && q.made == p.made + initialCap - |p.conns| && q.released == p.released
  {
    FillSame(p, initialCap, async, outcomes, 0);
    AllSucceed(outcomes, 0);
    YieldInBackground(outcomes, 0);
    var added := FillAdds(p, initialCap, true, outcomes, 0);
  }
}
