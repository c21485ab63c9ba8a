// The per-user connection slots. Any number of SOCKS connections of one user run
// at once; the test of the counter and its update are separate steps, because no
// lock is held across them. Meanwhile the cached user may be replaced, dropped,
// or have its counter reset.
module Slots {
  import opened Wrappers

  const LIMIT := 50

  // A connection has finished its handshake; has seen a counter below the limit;
  // was refused; serves (request, dialling, UDP); copies in two directions; is
  // closing because serving failed or ended; or its handler has panicked.
  datatype Pc = Arrived | Admitting(obj: nat) | Refused | Serving | Copying | Closing | Panicked

  datatype Direction = Running | Stopped | Crashed

  // removeConnection has not been called, is about to look the user up, has seen
  // a counter of at least zero, or has returned.
  datatype Giving = Idle | Ready | Window(obj: nat) | Done

  datatype Conn = Conn(pc: Pc, up: Direction, down: Direction, fired: bool, giving: Giving, won: bool, given: nat)

  /** The counters of all user objects ever cached, the one now cached, and the
      connections. */
  datatype State = State(counts: seq<int>, cur: Option<nat>, conns: seq<Conn>)

  datatype Step =
    // one connection
    | AdmitTest(c: nat)            // addConnection: look up, compare with the limit
    | AdmitBump(c: nat)            // addConnection: increment
    | ServeEnds(c: nat)            // request error, end of UDP, or connect error
    | StartCopy(c: nat)            // IoBind
    | UpEnds(c: nat) | DownEnds(c: nat)
    | HandlerPanics(c: nat) | UpPanics(c: nat) | DownPanics(c: nat)
    | GiveTest(c: nat)             // removeConnection: look up, compare with zero
    | GiveDrop(c: nat)             // removeConnection: decrement
    // the cache
    | SetUser
    | RemoveUser
    | ResetZero(obj: nat)          // the resetting loop clears a counter of its snapshot
    | ResetStore(obj: nat)         // and writes the entry back

  predicate OfConnection(step: Step) { !step.SetUser? && !step.RemoveUser? && !step.ResetZero? && !step.ResetStore? }

  predicate Enabled(s: State, step: Step)
  {
    match step
    case SetUser => true
    case RemoveUser => true
    case ResetZero(obj) => obj < |s.counts|
    case ResetStore(obj) => obj < |s.counts|
    case _ =>
      step.c < |s.conns| &&
      var k := s.conns[step.c];
      match step
      case AdmitTest(_) => k.pc == Arrived
      case AdmitBump(_) => k.pc.Admitting? && k.pc.obj < |s.counts|
      case ServeEnds(_) => k.pc == Serving
      case StartCopy(_) => k.pc == Serving
      case UpEnds(_) => k.pc == Copying && k.up == Running
      case DownEnds(_) => k.pc == Copying && k.down == Running
      case HandlerPanics(_) => k.pc == Serving
      case UpPanics(_) => k.pc == Copying && k.up == Running
      case DownPanics(_) => k.pc == Copying && k.down == Running
      case GiveTest(_) => k.giving == Ready
      case GiveDrop(_) => k.giving.Window? && k.giving.obj < |s.counts|
      case _ => true
  }

  /** sync.Once: the direction that ends first runs the release callback. */
  function Fire(k: Conn): Conn
  {
    if k.fired then k else k.(fired := true, giving := Ready)
  }

  function With(s: State, c: nat, k: Conn): State
    requires c < |s.conns|
  {
    s.(conns := s.conns[c := k])
  }

  predicate Usable(s: State) { s.cur.Some? ==> s.cur.value < |s.counts| }

  function After(s: State, step: Step): State
    requires Usable(s) && Enabled(s, step)
  {
    match step
    case SetUser => s.(counts := s.counts + [0], cur := Some(|s.counts|))
    case RemoveUser => s.(cur := None)
    case ResetZero(obj) => s.(counts := s.counts[obj := 0])
    case ResetStore(obj) => s.(cur := Some(obj))
    case AdmitTest(c) =>
      var k := s.conns[c];
      With(s, c, if s.cur.Some? && s.counts[s.cur.value] < LIMIT then k.(pc := Admitting(s.cur.value)) else k.(pc := Refused))
    case AdmitBump(c) =>
      var k := s.conns[c];
      With(s, c, k.(pc := Serving, won := true)).(counts := s.counts[k.pc.obj := s.counts[k.pc.obj] + 1])
    case ServeEnds(c) => With(s, c, s.conns[c].(pc := Closing, giving := Ready))
    case StartCopy(c) => With(s, c, s.conns[c].(pc := Copying))
    case UpEnds(c) => With(s, c, Fire(s.conns[c].(up := Stopped)))
    case DownEnds(c) => With(s, c, Fire(s.conns[c].(down := Stopped)))
    case HandlerPanics(c) => With(s, c, s.conns[c].(pc := Panicked))
    case UpPanics(c) => With(s, c, s.conns[c].(up := Crashed))
    case DownPanics(c) => With(s, c, s.conns[c].(down := Crashed))
    case GiveTest(c) =>
      var k := s.conns[c];
      With(s, c, if s.cur.Some? && s.counts[s.cur.value] >= 0 then k.(giving := Window(s.cur.value)) else k.(giving := Done, given := k.given + 1))
    case GiveDrop(c) =>
      var k := s.conns[c];
      With(s, c, k.(giving := Done, given := k.given + 1)).(counts := s.counts[k.giving.obj := s.counts[k.giving.obj] - 1])
  }

  predicate Init(s: State)
  {
    s.counts == [] && s.cur == None && forall c :: 0 <= c < |s.conns| ==> s.conns[c] == Conn(Arrived, Running, Running, false, Idle, false, 0)
  }

  /** An admission that nobody interrupts: below fifty the counter goes up and the
      connection is served; at fifty, or with no user cached, it is refused. */
  lemma UndisturbedAdmission(s: State, c: nat)
    requires Usable(s) && c < |s.conns| && s.conns[c].pc == Arrived
    ensures var t := After(s, AdmitTest(c));
            if s.cur.Some? && s.counts[s.cur.value] < 50
            then Enabled(t, AdmitBump(c)) && var u := After(t, AdmitBump(c));
                 u.conns[c] == s.conns[c].(pc := Serving, won := true)
                 && u.counts == s.counts[s.cur.value := s.counts[s.cur.value] + 1]
            else t.counts == s.counts && t.conns[c].pc == Refused
  {}

  /** And so a release: a counter that is not negative goes down. */
  lemma UndisturbedRelease(s: State, c: nat)
    requires Usable(s) && c < |s.conns| && s.conns[c].giving == Ready
    ensures var t := After(s, GiveTest(c));
            if s.cur.Some? && s.counts[s.cur.value] >= 0
            then Enabled(t, GiveDrop(c)) && var u := After(t, GiveDrop(c));
                 u.conns[c].giving == Done && u.counts == s.counts[s.cur.value := s.counts[s.cur.value] - 1]
            else t.counts == s.counts && t.conns[c].giving == Done
  {}

  // ---- a slot is given back at most once, and once on every exit -------

  predicate ConnOk(k: Conn)
  {
    && k.given == (if k.giving == Done then 1 else 0)
    && (k.won <==> k.pc.Serving? || k.pc.Copying? || k.pc.Closing? || k.pc.Panicked?)
    && (k.pc == Closing ==> k.giving != Idle && !k.fired)
    && (k.pc == Copying ==> (k.fired <==> k.giving != Idle) && (k.fired <==> k.up == Stopped || k.down == Stopped))
    && (k.pc != Closing && k.pc != Copying ==> k.giving == Idle && !k.fired && k.up == Running && k.down == Running)
  }

  /** The connection won a slot and nothing of it is still running. */
  predicate Finished(k: Conn)
  {
    k.won && k.giving != Ready && !k.giving.Window?
    && (k.pc == Closing || k.pc == Panicked || (k.pc == Copying && k.up != Running && k.down != Running))
  }

  predicate LostToPanic(k: Conn)
  {
    k.pc == Panicked || (k.pc == Copying && k.up == Crashed && k.down == Crashed)
  }

  ghost predicate Inv(s: State)
  {
    && Usable(s)
    && (forall c :: 0 <= c < |s.conns| ==> ConnOk(s.conns[c]) && WindowsExist(s.conns[c], |s.counts|))
  }

  predicate WindowsExist(k: Conn, n: nat)
  {
    (k.pc.Admitting? ==> k.pc.obj < n) && (k.giving.Window? ==> k.giving.obj < n)
  }

  lemma ConnStepOk(s: State, step: Step)
    requires Inv(s) && Enabled(s, step) && OfConnection(step)
    ensures var t := After(s, step);
            && |t.conns| == |s.conns| && |t.counts| == |s.counts| && t.cur == s.cur
            && t.conns == s.conns[step.c := t.conns[step.c]]
            && ConnOk(t.conns[step.c]) && WindowsExist(t.conns[step.c], |t.counts|)
  {
    assert ConnOk(s.conns[step.c]);
  }

  lemma StepInv(s: State, step: Step)
    requires Inv(s) && Enabled(s, step)
    ensures Inv(After(s, step))
  {
    if OfConnection(step) {
      ConnStepOk(s, step);
    }
  }

  ghost predicate Run(s: State, steps: seq<Step>, t: State)
    decreases |steps|
  {
    if steps == [] then s == t
    else Usable(s) && Enabled(s, steps[0]) && Run(After(s, steps[0]), steps[1..], t)
  }

  lemma {:induction false} RunInv(s: State, steps: seq<Step>, t: State)
    requires Inv(s) && Run(s, steps, t)
    ensures Inv(t)
    decreases |steps|
  {
    if steps != [] {
      StepInv(s, steps[0]);
      RunInv(After(s, steps[0]), steps[1..], t);
    }
  }

  /** In every run, whatever the interleaving of the connections, their racing
      copy directions and the cache: a slot is never given back twice, nor
      without having been won, and a connection that is over has given its slot
      back exactly once, unless it was lost to a panic. */
  lemma GivenBackOnce(s: State, steps: seq<Step>, t: State, c: nat)
    requires Init(s) && Run(s, steps, t) && c < |t.conns|
    ensures t.conns[c].given <= if t.conns[c].won then 1 else 0
    ensures Finished(t.conns[c]) ==> t.conns[c].given == if LostToPanic(t.conns[c]) then 0 else 1
  {
    RunInv(s, steps, t);
    assert ConnOk(t.conns[c]);
  }

  // ---- counting --------------------------------------------------------

  function Count(conns: seq<Conn>, p: Conn -> bool): nat
  {
    if conns == [] then 0 else Count(conns[..|conns| - 1], p) + (if p(conns[|conns| - 1]) then 1 else 0)
  }

  lemma {:induction false} CountUpdate(conns: seq<Conn>, p: Conn -> bool, c: nat, k: Conn)
    requires c < |conns|
    ensures Count(conns[c := k], p) == Count(conns, p) - (if p(conns[c]) then 1 else 0) + (if p(k) then 1 else 0)
  {
    var n := |conns| - 1;
    if c == n {
      assert conns[c := k][..n] == conns[..n];
    } else {
      CountUpdate(conns[..n], p, c, k);
      assert conns[c := k][..n] == conns[..n][c := k];
    }
  }

  function AdmittingOn(obj: nat): Conn -> bool { (k: Conn) => k.pc == Admitting(obj) }

  function DroppingOn(obj: nat): Conn -> bool { (k: Conn) => k.giving == Window(obj) }

  function HoldsSlot(): Conn -> bool { (k: Conn) => k.won && k.given == 0 }

  // ---- the counter equals the slots held -------------------------------

  /** All windows concern the cached user, whose counter is the number of slots
      held. */
  ghost predicate Balanced(s: State)
  {
    && Inv(s) && s.cur.Some?
    && s.counts[s.cur.value] == Count(s.conns, HoldsSlot())
    && forall c :: 0 <= c < |s.conns| ==> OnlyOn(s.conns[c], s.cur.value)
  }

  predicate OnlyOn(k: Conn, obj: nat)
  {
    (k.pc.Admitting? ==> k.pc.obj == obj) && (k.giving.Window? ==> k.giving.obj == obj)
  }

  lemma {:induction false} CountPositive(conns: seq<Conn>, p: Conn -> bool, c: nat)
    requires c < |conns| && p(conns[c])
    ensures Count(conns, p) >= 1
  {
    if c < |conns| - 1 {
      CountPositive(conns[..|conns| - 1], p, c);
    }
  }

  lemma BalancedStep(s: State, step: Step)
    requires Balanced(s) && Enabled(s, step) && OfConnection(step)
    ensures Balanced(After(s, step))
  {
    StepInv(s, step);
    StepOnlyOn(s, step);
    var k, next := s.conns[step.c], After(s, step).conns[step.c];
    assert ConnOk(k) && OnlyOn(k, s.cur.value);
    CountUpdate(s.conns, HoldsSlot(), step.c, next);
    if step.GiveTest? {
      CountPositive(s.conns, HoldsSlot(), step.c);
    }
  }

  lemma StepOnlyOn(s: State, step: Step)
    requires Balanced(s) && Enabled(s, step) && OfConnection(step)
    ensures After(s, step).cur == s.cur
    ensures forall c :: 0 <= c < |s.conns| ==> OnlyOn(After(s, step).conns[c], s.cur.value)
  {
    assert OnlyOn(s.conns[step.c], s.cur.value);
    assert OnlyOn(After(s, step).conns[step.c], s.cur.value);
    assert After(s, step).conns == s.conns[step.c := After(s, step).conns[step.c]];
  }

  /** While the cached user is neither replaced, dropped nor reset, its counter
      is the number of connections holding a slot. */
  lemma {:induction false} CounterIsLive(s: State, steps: seq<Step>, t: State)
    requires Balanced(s) && Run(s, steps, t)
    requires forall step :: step in steps ==> OfConnection(step)
    ensures Balanced(t) && t.cur == s.cur
    decreases |steps|
  {
    if steps != [] {
      assert steps[0] in steps;
      BalancedStep(s, steps[0]);
      CounterIsLive(After(s, steps[0]), steps[1..], t);
    }
  }

  lemma {:induction false} CountNone(conns: seq<Conn>, p: Conn -> bool)
    requires forall c :: 0 <= c < |conns| ==> !p(conns[c])
    ensures Count(conns, p) == 0
  {
    if conns != [] {
      CountNone(conns[..|conns| - 1], p);
    }
  }

  /** Caching a user before any connection arrives starts in balance. */
  lemma FreshUserBalanced(s: State)
    requires Init(s)
    ensures Balanced(After(s, SetUser))
  {
    CountNone(s.conns, HoldsSlot());
  }

  /** The resetting loop keeps the balance exactly when no slot is held. */
  lemma ResetKeepsBalance(s: State)
    requires Balanced(s)
    ensures Balanced(After(s, ResetZero(s.cur.value))) <==> Count(s.conns, HoldsSlot()) == 0
    ensures After(s, ResetStore(s.cur.value)) == s
  {
    StepInv(s, ResetZero(s.cur.value));
  }

  /** Replacing the cached user keeps the balance exactly when no slot is held
      and none is being taken. */
  lemma ReplaceKeepsBalance(s: State)
    requires Balanced(s)
    ensures Balanced(After(s, SetUser)) <==>
      Count(s.conns, HoldsSlot()) == 0 && forall c :: 0 <= c < |s.conns| ==> !s.conns[c].pc.Admitting?
  {
    var t := After(s, SetUser);
    StepInv(s, SetUser);
    if Count(s.conns, HoldsSlot()) == 0 && forall c :: 0 <= c < |s.conns| ==> !s.conns[c].pc.Admitting? {
      forall c | 0 <= c < |t.conns| ensures OnlyOn(t.conns[c], t.cur.value) {
        assert ConnOk(s.conns[c]);
        if s.conns[c].giving.Window? {
          CountPositive(s.conns, HoldsSlot(), c);
        }
      }
    }
    forall c | 0 <= c < |s.conns| && s.conns[c].pc.Admitting? ensures !OnlyOn(t.conns[c], t.cur.value) {
      assert WindowsExist(s.conns[c], |s.counts|);
    }
  }

  /** Writing an entry of the resetting loop's copy back, be it of another object,
      keeps the balance exactly if the object is the cached one, or counts the
      slots held and no connection is between its test and its update. */
  lemma WriteBackKeepsBalance(s: State, obj: nat)
    requires Balanced(s) && obj < |s.counts|
    ensures Balanced(After(s, ResetStore(obj))) <==>
      obj == s.cur.value
      || (s.counts[obj] == Count(s.conns, HoldsSlot())
          && forall c :: 0 <= c < |s.conns| ==> !s.conns[c].pc.Admitting? && !s.conns[c].giving.Window?)
  {
    var t := After(s, ResetStore(obj));
    StepInv(s, ResetStore(obj));
    if obj != s.cur.value {
      forall c | 0 <= c < |s.conns|
        ensures OnlyOn(t.conns[c], obj) <==> !s.conns[c].pc.Admitting? && !s.conns[c].giving.Window?
      {
        assert OnlyOn(s.conns[c], s.cur.value);
      }
    }
  }

  /** So after the loop has cleared the counter of its copy, which is another
      object, writing it back keeps the balance exactly if no slot is held or being
      taken. */
  lemma ResetOfOtherKeepsBalance(s: State, obj: nat)
    requires Balanced(s) && obj < |s.counts| && obj != s.cur.value
    ensures var s1 := After(s, ResetZero(obj));
            Balanced(s1) && (Balanced(After(s1, ResetStore(obj))) <==>
              Count(s.conns, HoldsSlot()) == 0 && forall c :: 0 <= c < |s.conns| ==> !s.conns[c].pc.Admitting?)
  {
    var s1 := After(s, ResetZero(obj));
    StepInv(s, ResetZero(obj));
    WriteBackKeepsBalance(s1, obj);
    forall c | 0 <= c < |s.conns| && s.conns[c].giving.Window? ensures Count(s.conns, HoldsSlot()) > 0 {
      assert ConnOk(s.conns[c]);
      CountPositive(s.conns, HoldsSlot(), c);
    }
  }

  // ---- bounds over every run -------------------------------------------

  function InAdmission(): Conn -> bool { (k: Conn) => k.pc.Admitting? }

  function InDrop(): Conn -> bool { (k: Conn) => k.giving.Window? }

  /** At most m admissions and r releases are between their test and their update. */
  ghost predicate Overlap(s: State, m: nat, r: nat)
  {
    Count(s.conns, InAdmission()) <= m && Count(s.conns, InDrop()) <= r
  }

  ghost predicate RunWithin(s: State, steps: seq<Step>, t: State, m: nat, r: nat)
    decreases |steps|
  {
    Overlap(s, m, r) &&
    if steps == [] then s == t
    else Usable(s) && Enabled(s, steps[0]) && RunWithin(After(s, steps[0]), steps[1..], t, m, r)
  }

  ghost predicate InBoundsAt(s: State, m: nat, r: nat, o: nat)
    requires o < |s.counts|
  {
    && s.counts[o] + Count(s.conns, AdmittingOn(o)) <= LIMIT - 1 + m
    && s.counts[o] + r >= Count(s.conns, DroppingOn(o))
  }

  ghost predicate InBounds(s: State, m: nat, r: nat)
  {
    forall o :: 0 <= o < |s.counts| ==> InBoundsAt(s, m, r, o)
  }

  lemma {:induction false} CountBelow(conns: seq<Conn>, p: Conn -> bool, q: Conn -> bool)
    requires forall k :: p(k) ==> q(k)
    ensures Count(conns, p) <= Count(conns, q)
  {
    if conns != [] {
      CountBelow(conns[..|conns| - 1], p, q);
    }
  }

  lemma BoundsOfConnection(s: State, step: Step, m: nat, r: nat, o: nat)
    requires Inv(s) && InBounds(s, m, r) && Enabled(s, step) && OfConnection(step) && o < |s.counts|
    requires Overlap(After(s, step), m, r)
    ensures |After(s, step).counts| == |s.counts| && InBoundsAt(After(s, step), m, r, o)
  {
    assert InBoundsAt(s, m, r, o);
    var t := After(s, step);
    CountUpdate(s.conns, AdmittingOn(o), step.c, t.conns[step.c]);
    CountUpdate(s.conns, DroppingOn(o), step.c, t.conns[step.c]);
    assert ConnOk(s.conns[step.c]);
    if step.AdmitTest? {
      CountBelow(t.conns, AdmittingOn(o), InAdmission());
    } else if step.GiveTest? {
      CountBelow(t.conns, DroppingOn(o), InDrop());
    }
  }

  lemma BoundsOfCache(s: State, step: Step, m: nat, r: nat, o: nat)
    requires InBounds(s, m, r) && Enabled(s, step) && !OfConnection(step) && Usable(s) && o < |After(s, step).counts|
    requires Overlap(s, m, r)
    ensures InBoundsAt(After(s, step), m, r, o)
  {
    assert o < |s.counts| ==> InBoundsAt(s, m, r, o);
    CountBelow(s.conns, AdmittingOn(o), InAdmission());
    CountBelow(s.conns, DroppingOn(o), InDrop());
  }

  lemma BoundsStep(s: State, step: Step, m: nat, r: nat)
    requires Inv(s) && InBounds(s, m, r) && Enabled(s, step)
    requires Overlap(s, m, r) && Overlap(After(s, step), m, r)
    ensures InBounds(After(s, step), m, r)
  {
    forall o | 0 <= o < |After(s, step).counts|
      ensures InBoundsAt(After(s, step), m, r, o)
    {
      if OfConnection(step) {
        BoundsOfConnection(s, step, m, r, o);
      } else {
        BoundsOfCache(s, step, m, r, o);
      }
    }
  }

  lemma {:induction false} RunBounds(s: State, steps: seq<Step>, t: State, m: nat, r: nat)
    requires Inv(s) && InBounds(s, m, r) && RunWithin(s, steps, t, m, r)
    ensures InBounds(t, m, r)
    decreases |steps|
  {
    if steps != [] {
      var next := After(s, steps[0]);
      StepInv(s, steps[0]);
      assert Overlap(next, m, r);
      BoundsStep(s, steps[0], m, r);
      RunBounds(next, steps[1..], t, m, r);
    }
  }

  /** In every run every counter stays between minus the number of overlapping
      releases and 49 plus the number of overlapping admissions. When tests and
      updates do not overlap at all this is -1..50. */
  lemma CounterBounds(s: State, steps: seq<Step>, t: State, m: nat, r: nat, o: nat)
    requires Init(s) && RunWithin(s, steps, t, m, r) && o < |t.counts|
    ensures t.counts[o] + r >= 0 && t.counts[o] <= 49 + m
  {
    RunBounds(s, steps, t, m, r);
    assert InBoundsAt(t, m, r, o);
  }

  // ---- the upper bound is reached --------------------------------------

  /** One cached user; a connections hold a slot, the next b have passed the
      test, the others have just arrived. */
  function Mid(total: nat, a: nat, b: nat): (s: State)
    ensures |s.conns| == total
  {
    State([a], Some(0), seq(total, (i: int) => MidConn(i, a, b)))
  }

  function MidConn(i: int, a: nat, b: nat): Conn
  {
    Conn(if i < a then Serving else if i < a + b then Admitting(0) else Arrived, Running, Running, false, Idle, i < a, 0)
  }

  lemma MidTest(total: nat, a: nat, b: nat)
    requires a + b < total && a < LIMIT
    ensures Enabled(Mid(total, a, b), AdmitTest(a + b))
    ensures After(Mid(total, a, b), AdmitTest(a + b)) == Mid(total, a, b + 1)
  {}

  lemma MidBump(total: nat, a: nat, b: nat)
    requires a + b <= total && b >= 1
    ensures Enabled(Mid(total, a, b), AdmitBump(a))
    ensures After(Mid(total, a, b), AdmitBump(a)) == Mid(total, a + 1, b - 1)
  {}

  lemma MidOverlap(total: nat, a: nat, b: nat, m: nat)
    requires a + b <= total && b <= m
    ensures Overlap(Mid(total, a, b), m, 0)
  {
    var conns := Mid(total, a, b).conns;
    MidCount(conns, a, b);
    CountNone(conns, InDrop());
  }

  lemma {:induction false} MidCount(conns: seq<Conn>, a: nat, b: nat)
    requires forall i :: 0 <= i < |conns| ==> conns[i] == MidConn(i, a, b)
    ensures Count(conns, InAdmission()) <= if |conns| <= a then 0 else if |conns| <= a + b then |conns| - a else b
  {
    if conns != [] {
      MidCount(conns[..|conns| - 1], a, b);
    }
  }

  lemma Cons(s: State, step: Step, next: State, rest: seq<Step>, t: State, m: nat, r: nat)
    requires Overlap(s, m, r) && Usable(s) && Enabled(s, step) && After(s, step) == next
    requires RunWithin(next, rest, t, m, r)
    ensures RunWithin(s, [step] + rest, t, m, r)
  {
    assert ([step] + rest)[1..] == rest;
  }

  lemma TestOne(total: nat, a: nat, b: nat, m: nat, rest: seq<Step>, t: State)
    requires a < LIMIT && a + b < total && total - a <= m
    requires RunWithin(Mid(total, a, b + 1), rest, t, m, 0)
    ensures RunWithin(Mid(total, a, b), [AdmitTest(a + b)] + rest, t, m, 0)
  {
    MidOverlap(total, a, b, m);
    MidTest(total, a, b);
    Cons(Mid(total, a, b), AdmitTest(a + b), Mid(total, a, b + 1), rest, t, m, 0);
  }

  lemma BumpOne(total: nat, a: nat, b: nat, m: nat, rest: seq<Step>, t: State)
    requires a + b <= total && 1 <= b <= m
    requires RunWithin(Mid(total, a + 1, b - 1), rest, t, m, 0)
    ensures RunWithin(Mid(total, a, b), [AdmitBump(a)] + rest, t, m, 0)
  {
    MidOverlap(total, a, b, m);
    MidBump(total, a, b);
    Cons(Mid(total, a, b), AdmitBump(a), Mid(total, a + 1, b - 1), rest, t, m, 0);
  }

  /** From a slots held and b tests passed, the remaining connections test, then
      all that passed increment. */
  lemma {:induction false} TestThenBump(total: nat, a: nat, b: nat, m: nat) returns (steps: seq<Step>)
    requires a < LIMIT && a + b <= total && total - a <= m
    ensures RunWithin(Mid(total, a, b), steps, Mid(total, total, 0), m, 0)
    decreases total - a - b
  {
    if a + b < total {
      var rest := TestThenBump(total, a, b + 1, m);
      TestOne(total, a, b, m, rest, Mid(total, total, 0));
      steps := [AdmitTest(a + b)] + rest;
    } else {
      steps := BumpAll(total, a, b, m);
    }
  }

  lemma {:induction false} BumpAll(total: nat, a: nat, b: nat, m: nat) returns (steps: seq<Step>)
    requires a + b == total && b <= m
    ensures RunWithin(Mid(total, a, b), steps, Mid(total, total, 0), m, 0)
    decreases b
  {
    if b == 0 {
      MidOverlap(total, total, 0, m);
      steps := [];
    } else {
      var rest := BumpAll(total, a + 1, b - 1, m);
      BumpOne(total, a, b, m, rest, Mid(total, total, 0));
      steps := [AdmitBump(a)] + rest;
    }
  }

  /** Connections admitted one after the other, up to 49, then m at once. */
  lemma {:induction false} AdmitUpTo(total: nat, a: nat, m: nat) returns (steps: seq<Step>)
    requires a <= LIMIT - 1 && total == LIMIT - 1 + m && m >= 1
    ensures RunWithin(Mid(total, a, 0), steps, Mid(total, total, 0), m, 0)
    decreases LIMIT - a
  {
    if a == LIMIT - 1 {
      steps := TestThenBump(total, a, 0, m);
    } else {
      var rest := AdmitUpTo(total, a + 1, m);
      AdmitOne(total, a, m, rest);
      steps := [AdmitTest(a)] + ([AdmitBump(a)] + rest);
    }
  }

  lemma AdmitOne(total: nat, a: nat, m: nat, rest: seq<Step>)
    requires a < LIMIT - 1 && total == LIMIT - 1 + m && m >= 1
    requires RunWithin(Mid(total, a + 1, 0), rest, Mid(total, total, 0), m, 0)
    ensures RunWithin(Mid(total, a, 0), [AdmitTest(a)] + ([AdmitBump(a)] + rest), Mid(total, total, 0), m, 0)
  {
    var t := Mid(total, total, 0);
    BumpOne(total, a, 1, m, rest, t);
    MidOverlap(total, a, 0, m);
    MidTest(total, a, 0);
    Cons(Mid(total, a, 0), AdmitTest(a), Mid(total, a, 1), [AdmitBump(a)] + rest, t, m, 0);
  }

  /** For every m, a run with at most m overlapping admissions brings the
      counter to 49 + m: two overlapping admissions exceed the limit of 50. */
  lemma UpperBoundReached(m: nat) returns (s: State, steps: seq<Step>, t: State)
    requires m >= 1
    ensures Init(s) && RunWithin(s, steps, t, m, 0)
    ensures t.cur == Some(0) && t.counts == [49 + m]
  {
    var total := LIMIT - 1 + m;
    s := State([], None, Mid(total, 0, 0).conns);
    t := Mid(total, total, 0);
    var rest := AdmitUpTo(total, 0, m);
    MidOverlap(total, 0, 0, m);
    assert Overlap(s, m, 0);
    assert After(s, SetUser) == Mid(total, 0, 0);
    Cons(s, SetUser, Mid(total, 0, 0), rest, t, m, 0);
    steps := [SetUser] + rest;
  }

  // ---- the lower bound is reached --------------------------------------

  /** d connections have given their slot back, up to b are about to, up to a
      hold one, the others have just arrived. */
  function Low(total: nat, a: nat, b: nat, d: nat): (s: State)
    ensures |s.conns| == total
  {
    State([0 - d], Some(0), seq(total, (i: int) => LowConn(i, a, b, d)))
  }

  function LowConn(i: int, a: nat, b: nat, d: nat): Conn
  {
    if i < d then Conn(Closing, Running, Running, false, Done, true, 1)
    else if i < b then Conn(Closing, Running, Running, false, Window(0), true, 0)
    else if i < a then Conn(Serving, Running, Running, false, Idle, true, 0)
    else Conn(Arrived, Running, Running, false, Idle, false, 0)
  }

  lemma {:induction false} CountAtMost(conns: seq<Conn>, p: Conn -> bool)
    ensures Count(conns, p) <= |conns|
  {
    if conns != [] {
      CountAtMost(conns[..|conns| - 1], p);
    }
  }

  lemma LowOverlap(total: nat, a: nat, b: nat, d: nat)
    ensures Overlap(Low(total, a, b, d), 1, total)
    ensures Count(Low(total, a, b, d).conns, InAdmission()) == 0
  {
    CountNone(Low(total, a, b, d).conns, InAdmission());
    CountAtMost(Low(total, a, b, d).conns, InDrop());
  }

  /** A connection arrives, is admitted, and the resetting loop clears the counter. */
  lemma AdmitAndReset(total: nat, a: nat, rest: seq<Step>, t: State)
    requires a < total && RunWithin(Low(total, a + 1, 0, 0), rest, t, 1, total)
    ensures RunWithin(Low(total, a, 0, 0), [AdmitTest(a)] + ([AdmitBump(a)] + ([ResetZero(0)] + rest)), t, 1, total)
  {
    var s0, s3 := Low(total, a, 0, 0), Low(total, a + 1, 0, 0);
    LowOverlap(total, a, 0, 0);
    LowOverlap(total, a + 1, 0, 0);
    var s1 := After(s0, AdmitTest(a));
    OneAdmitting(s0, a, s1.conns[a]);
    var s2 := s3.(counts := [1]);
    assert After(s1, AdmitBump(a)) == s2;
    Cons(s2, ResetZero(0), s3, rest, t, 1, total);
    Cons(s1, AdmitBump(a), s2, [ResetZero(0)] + rest, t, 1, total);
    Cons(s0, AdmitTest(a), s1, [AdmitBump(a)] + ([ResetZero(0)] + rest), t, 1, total);
  }

  lemma OneAdmitting(s: State, c: nat, k: Conn)
    requires c < |s.conns| && Count(s.conns, InAdmission()) == 0
    ensures Overlap(With(s, c, k), 1, |s.conns|)
  {
    CountUpdate(s.conns, InAdmission(), c, k);
    CountAtMost(With(s, c, k).conns, InDrop());
  }

  /** A connection ends and passes the test of removeConnection. */
  lemma EndAndTest(total: nat, b: nat, rest: seq<Step>, t: State)
    requires b < total && RunWithin(Low(total, total, b + 1, 0), rest, t, 1, total)
    ensures RunWithin(Low(total, total, b, 0), [ServeEnds(b)] + ([GiveTest(b)] + rest), t, 1, total)
  {
    var s0, s2 := Low(total, total, b, 0), Low(total, total, b + 1, 0);
    LowOverlap(total, total, b, 0);
    LowOverlap(total, total, b + 1, 0);
    var s1 := After(s0, ServeEnds(b));
    OneAdmitting(s0, b, s1.conns[b]);
    assert After(s1, GiveTest(b)) == s2;
    Cons(s1, GiveTest(b), s2, rest, t, 1, total);
    Cons(s0, ServeEnds(b), s1, [GiveTest(b)] + rest, t, 1, total);
  }

  lemma DropOne(total: nat, d: nat)
    requires d < total
    ensures Enabled(Low(total, total, total, d), GiveDrop(d))
    ensures After(Low(total, total, total, d), GiveDrop(d)) == Low(total, total, total, d + 1)
  {}

  lemma {:induction false} DropAll(total: nat, d: nat) returns (steps: seq<Step>)
    requires d <= total
    ensures RunWithin(Low(total, total, total, d), steps, Low(total, total, total, total), 1, total)
    decreases total - d
  {
    LowOverlap(total, total, total, d);
    if d == total {
      steps := [];
    } else {
      var rest := DropAll(total, d + 1);
      DropOne(total, d);
      Cons(Low(total, total, total, d), GiveDrop(d), Low(total, total, total, d + 1), rest,
           Low(total, total, total, total), 1, total);
      steps := [GiveDrop(d)] + rest;
    }
  }

  lemma {:induction false} EndAll(total: nat, b: nat) returns (steps: seq<Step>)
    requires b <= total
    ensures RunWithin(Low(total, total, b, 0), steps, Low(total, total, total, total), 1, total)
    decreases total - b
  {
    if b == total {
      steps := DropAll(total, 0);
    } else {
      var rest := EndAll(total, b + 1);
      EndAndTest(total, b, rest, Low(total, total, total, total));
      steps := [ServeEnds(b)] + ([GiveTest(b)] + rest);
    }
  }

  lemma {:induction false} AdmitAll(total: nat, a: nat) returns (steps: seq<Step>)
    requires a <= total
    ensures RunWithin(Low(total, a, 0, 0), steps, Low(total, total, total, total), 1, total)
    decreases total - a
  {
    if a == total {
      steps := EndAll(total, 0);
    } else {
      var rest := AdmitAll(total, a + 1);
      AdmitAndReset(total, a, rest, Low(total, total, total, total));
      steps := [AdmitTest(a)] + ([AdmitBump(a)] + ([ResetZero(0)] + rest));
    }
  }

  /** For every r, a run with at most r overlapping releases, and no overlapping
      admissions, brings the counter to -r: connections admitted before a reset
      end together. Two of them take it below -1. */
  lemma LowerBoundReached(r: nat) returns (s: State, steps: seq<Step>, t: State)
    ensures Init(s) && RunWithin(s, steps, t, 1, r)
    ensures t.cur == Some(0) && t.counts == [0 - r]
  {
    s := State([], None, Low(r, 0, 0, 0).conns);
    t := Low(r, r, r, r);
    var rest := AdmitAll(r, 0);
    LowOverlap(r, 0, 0, 0);
    assert Overlap(s, 1, r);
    assert After(s, SetUser) == Low(r, 0, 0, 0);
    Cons(s, SetUser, Low(r, 0, 0, 0), rest, t, 1, r);
    steps := [SetUser] + rest;
  }

  // ---- the promised bounds ---------------------------------------------

  /** In all runs with at most m overlapping admissions and r overlapping
      releases every counter stays in -1..50. */
  ghost predicate AlwaysWithin(m: nat, r: nat)
  {
    forall s, steps, t, o :: Init(s) && RunWithin(s, steps, t, m, r) && 0 <= o < |t.counts| ==> -1 <= t.counts[o] <= 50
  }

  lemma {:induction false} MayOverlapMore(s: State, steps: seq<Step>, t: State, m: nat, r: nat, m1: nat, r1: nat)
    requires RunWithin(s, steps, t, m, r) && m <= m1 && r <= r1
    ensures RunWithin(s, steps, t, m1, r1)
    decreases |steps|
  {
    if steps != [] {
      MayOverlapMore(After(s, steps[0]), steps[1..], t, m, r, m1, r1);
    }
  }

  /** The counter keeps to -1..50 exactly when neither admissions nor releases
      overlap among themselves. */
  lemma LimitsKept(m: nat, r: nat)
    requires m >= 1
    ensures AlwaysWithin(m, r) <==> m == 1 && r <= 1
  {
    if m == 1 && r <= 1 {
      forall s, steps, t, o | Init(s) && RunWithin(s, steps, t, m, r) && 0 <= o < |t.counts|
        ensures -1 <= t.counts[o] <= LIMIT
      {
        CounterBounds(s, steps, t, m, r, o);
      }
    } else if m > 1 {
      var s, steps, t := UpperBoundReached(m);
      MayOverlapMore(s, steps, t, m, 0, m, r);
      assert t.counts[0] == LIMIT - 1 + m;
    } else {
      var s, steps, t := LowerBoundReached(r);
      assert RunWithin(s, steps, t, m, r);
      assert t.counts[0] == 0 - r;
    }
  }
}
