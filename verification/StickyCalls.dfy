// Which upstream the later calls of a session are given, among concurrent calls
// and with the loop that resets connection counts putting old user objects back.
module StickyCalls {
  import Worker
  import opened Sessions

  /** The cached and the copied objects exist. */
  predicate Valid(s: State)
  {
    (forall v :: v in s.cache ==> s.cache[v] < |s.objs|) && (forall v :: v in s.held ==> s.held[v] < |s.objs|)
  }

  /** As they do from the start in every run. */
  lemma {:induction false} RunValid(s: State, steps: seq<Step>, t: State)
    requires Valid(s) && Run(s, steps, t)
    ensures Valid(t)
    decreases |steps|
  {
    if steps != [] {
      RunValid(After(s, steps[0]), steps[1..], t);
    }
  }

  /** The step neither drops nor verifies the user, nor finds its entry expired. */
  predicate LeavesAlone(s: State, step: Step, user: string)
  {
    match step
    case Drop(x) => x != user
    case Cache(x) => x != user
    case LookExpired(c) => c < |s.calls| ==> s.calls[c].user != user
    case _ => true
  }

  ghost predicate RunAlone(s: State, steps: seq<Step>, t: State, user: string)
    decreases |steps|
  {
    if steps == [] then s == t
    else Enabled(s, steps[0]) && LeavesAlone(s, steps[0], user) && RunAlone(After(s, steps[0]), steps[1..], t, user)
  }

  lemma {:induction false} AloneAppend(s: State, steps: seq<Step>, t: State, user: string, step: Step)
    requires RunAlone(s, steps, t, user) && Enabled(t, step) && LeavesAlone(t, step, user)
    ensures RunAlone(s, steps + [step], After(t, step), user)
    decreases |steps|
  {
    if steps == [] {
      assert [step][1..] == [];
      assert steps + [step] == [step];
    } else {
      AloneAppend(After(s, steps[0]), steps[1..], t, user, step);
      assert (steps + [step])[1..] == steps[1..] + [step];
    }
  }

  lemma NextAlone(s: State, before: seq<Step>, m: State, user: string, step: Step) returns (steps: seq<Step>, t: State)
    requires RunAlone(s, before, m, user) && Enabled(m, step) && LeavesAlone(m, step, user)
    ensures t == After(m, step) && RunAlone(s, steps, t, user)
  {
    AloneAppend(s, before, m, user, step);
    steps, t := before + [step], After(m, step);
  }

  /** The loop finishes copying and writes the entry it holds. */
  lemma Returns(s: State, user: string) returns (steps: seq<Step>, t: State)
    requires user in s.held
    ensures RunAlone(s, steps, t, user) && Holds(t, user, s.held[user])
    ensures t.calls == s.calls && t.objs == s.objs && t.upstreams == s.upstreams
  {
    steps, t := [], s;
    if !s.writing {
      steps, t := NextAlone(s, steps, t, user, Copied);
    }
    steps, t := NextAlone(s, steps, t, user, WriteBack(user));
  }

  // ---- when the cached object stays ------------------------------------

  /** No call has found the entry of the user expired and is about to remove it. */
  ghost predicate NobodyRemoving(s: State, user: string)
  {
    forall c :: 0 <= c < |s.calls| && s.calls[c].user == user ==> s.calls[c].pc != Expired
  }

  predicate Holds(s: State, user: string, obj: nat) { user in s.cache && s.cache[user] == obj }

  predicate HoldsNoOther(s: State, user: string, obj: nat) { user in s.held ==> s.held[user] == obj }

  ghost predicate StaysCached(s: State, user: string, obj: nat)
  {
    forall steps, t :: RunAlone(s, steps, t, user) ==> Holds(t, user, obj)
  }

  lemma StepCached(s: State, step: Step, user: string, obj: nat)
    requires Holds(s, user, obj) && NobodyRemoving(s, user) && HoldsNoOther(s, user, obj)
    requires Enabled(s, step) && LeavesAlone(s, step, user)
    ensures var t := After(s, step); Holds(t, user, obj) && NobodyRemoving(t, user) && HoldsNoOther(t, user, obj)
  {}

  lemma {:induction false} RunCached(s: State, steps: seq<Step>, t: State, user: string, obj: nat)
    requires Holds(s, user, obj) && NobodyRemoving(s, user) && HoldsNoOther(s, user, obj) && RunAlone(s, steps, t, user)
    ensures Holds(t, user, obj)
    decreases |steps|
  {
    if steps != [] {
      StepCached(s, steps[0], user, obj);
      RunCached(After(s, steps[0]), steps[1..], t, user, obj);
    }
  }

  /** A user who is not dropped, verified again or found expired stays cached as
      the same object exactly when no call is about to remove the user and the
      resetting loop is not about to put another object back. */
  lemma ObjectStays(s: State, user: string, obj: nat)
    requires Holds(s, user, obj)
    ensures StaysCached(s, user, obj) <==> NobodyRemoving(s, user) && HoldsNoOther(s, user, obj)
  {
    if !HoldsNoOther(s, user, obj) {
      var steps, t := Returns(s, user);
      assert !Holds(t, user, obj);
    } else if !NobodyRemoving(s, user) {
      var c :| 0 <= c < |s.calls| && s.calls[c].user == user && s.calls[c].pc == Expired;
      var steps, t := NextAlone(s, [], s, user, RemoveExpired(c));
      assert !Holds(t, user, obj);
    } else {
      forall steps, t | RunAlone(s, steps, t, user) ensures Holds(t, user, obj) {
        RunCached(s, steps, t, user, obj);
      }
    }
  }

  // ---- what a call of the session is given -----------------------------

  /** The upstream is stored, for good. */
  ghost predicate Firm(s: State, obj: nat, session: string, u: Upstream)
  {
    Stored(s, obj, session, u) && NobodyBetween(s, obj, session, u)
  }

  /** The user is cached with u stored for good, nobody is about to remove the
      user, and in an object that the resetting loop may put back u is stored for
      good as well. */
  ghost predicate Settled(s: State, user: string, session: string, u: Upstream)
  {
    && user in s.cache && Firm(s, s.cache[user], session, u)
    && (user in s.held ==> Firm(s, s.held[user], session, u))
    && NobodyRemoving(s, user)
  }

  /** The call has not looked yet, or holds an object with u, or has returned u. */
  ghost predicate OnTheWay(s: State, c: nat, session: string, u: Upstream)
  {
    && c < |s.calls| && s.calls[c].session == session
    && (s.calls[c].pc.Got? ==> Firm(s, s.calls[c].pc.obj, session, u))
    && GetsIt(s.calls[c].pc, u)
  }

  predicate GetsIt(pc: Pc, u: Upstream)
  {
    pc == Arrived || pc.Got? || pc == Returned(Worker.Chosen(u), NoDraw)
  }

  /** In every continuation in which nobody drops, verifies or finds expired the
      user, the call is given u, without a draw, if it gets that far. */
  ghost predicate AlwaysGets(s: State, c: nat, user: string, u: Upstream)
  {
    forall steps, t :: RunAlone(s, steps, t, user) ==> c < |t.calls| && GetsIt(t.calls[c].pc, u)
  }

  lemma StepFirm(s: State, step: Step, obj: nat, session: string, u: Upstream)
    requires Enabled(s, step) && Firm(s, obj, session, u)
    ensures Firm(After(s, step), obj, session, u)
  {
    StepStays(s, step, obj, session, u);
  }

  lemma StepNobodyRemoving(s: State, step: Step, user: string)
    requires Enabled(s, step) && LeavesAlone(s, step, user) && NobodyRemoving(s, user)
    ensures NobodyRemoving(After(s, step), user)
  {}

  lemma StepSettled(s: State, step: Step, user: string, session: string, u: Upstream)
    requires Settled(s, user, session, u) && Enabled(s, step) && LeavesAlone(s, step, user)
    ensures Settled(After(s, step), user, session, u)
  {
    StepFirm(s, step, s.cache[user], session, u);
    if user in s.held {
      StepFirm(s, step, s.held[user], session, u);
    }
    StepNobodyRemoving(s, step, user);
    if step.RemoveExpired? {
      assert s.calls[step.c].user != user;
    }
  }

  lemma StepOnTheWay(s: State, step: Step, user: string, session: string, u: Upstream, c: nat)
    requires Settled(s, user, session, u) && Enabled(s, step) && LeavesAlone(s, step, user)
    requires session != "" && OnTheWay(s, c, session, u) && s.calls[c].user == user
    ensures OnTheWay(After(s, step), c, session, u) && After(s, step).calls[c].user == user
  {
    if s.calls[c].pc.Got? {
      StepFirm(s, step, s.calls[c].pc.obj, session, u);
    }
    StepFirm(s, step, s.cache[user], session, u);
  }

  lemma {:induction false} RunGets(s: State, steps: seq<Step>, t: State, user: string, session: string, u: Upstream, c: nat)
    requires Settled(s, user, session, u) && RunAlone(s, steps, t, user)
    requires session != "" && OnTheWay(s, c, session, u) && s.calls[c].user == user
    ensures OnTheWay(t, c, session, u)
    decreases |steps|
  {
    if steps != [] {
      StepSettled(s, steps[0], user, session, u);
      StepOnTheWay(s, steps[0], user, session, u, c);
      RunGets(After(s, steps[0]), steps[1..], t, user, session, u, c);
    }
  }

  /** A call that looks while its user is cached as an object in which u is not
      stored does not get u. */
  lemma LooksAndMisses(s: State, before: seq<Step>, m: State, user: string, session: string, u: Upstream, c: nat)
    returns (steps: seq<Step>, t: State)
    requires RunAlone(s, before, m, user) && session != "" && c < |m.calls| && m.calls[c] == Call(user, session, Arrived)
    requires user in m.cache ==> m.cache[user] < |m.objs| && !Stored(m, m.cache[user], session, u)
    ensures RunAlone(s, steps, t, user) && c < |t.calls| && !GetsIt(t.calls[c].pc, u)
  {
    steps, t := NextAlone(s, before, m, user, Look(c));
    if user in m.cache {
      steps, t := NextAlone(s, steps, t, user, Find(c));
    }
  }

  /** A call between its missed lookup and its store overwrites the object. */
  lemma Overwritten(s: State, before: seq<Step>, m: State, user: string, obj: nat, session: string, u: Upstream, d: nat)
    returns (steps: seq<Step>, t: State)
    requires RunAlone(s, before, m, user) && d < |m.calls| && Stored(m, obj, session, u)
    requires MayOverwrite(m.calls[d], obj, session, u)
    ensures RunAlone(s, steps, t, user) && !Stored(t, obj, session, u)
    ensures t.cache == m.cache && |t.objs| == |m.objs| && |t.calls| == |m.calls| && t.calls == m.calls[d := t.calls[d]]
  {
    steps, t := before, m;
    if m.calls[d].pc.Missed? {
      steps, t := NextAlone(s, steps, t, user, NewUpstreams([u + 1]));
      steps, t := NextAlone(s, steps, t, user, Ticket(d));
    }
    steps, t := NextAlone(s, steps, t, user, Store(d));
  }

  /** The same when the object may yet be overwritten. */
  lemma OverwrittenFirst(s: State, before: seq<Step>, m: State, user: string, session: string, u: Upstream, c: nat)
    returns (steps: seq<Step>, t: State)
    requires RunAlone(s, before, m, user) && session != "" && c < |m.calls| && m.calls[c] == Call(user, session, Arrived)
    requires user in m.cache && m.cache[user] < |m.objs| && !Firm(m, m.cache[user], session, u)
    ensures RunAlone(s, steps, t, user) && c < |t.calls| && !GetsIt(t.calls[c].pc, u)
  {
    steps, t := before, m;
    if Stored(m, m.cache[user], session, u) {
      var d :| 0 <= d < |m.calls| && MayOverwrite(m.calls[d], m.cache[user], session, u);
      steps, t := Overwritten(s, before, m, user, m.cache[user], session, u, d);
    }
    steps, t := LooksAndMisses(s, steps, t, user, session, u, c);
  }

  lemma Unsettles(s: State, user: string, session: string, u: Upstream, c: nat) returns (steps: seq<Step>, t: State)
    requires Valid(s) && session != "" && c < |s.calls| && s.calls[c] == Call(user, session, Arrived)
    requires !Settled(s, user, session, u)
    ensures RunAlone(s, steps, t, user) && c < |t.calls| && !GetsIt(t.calls[c].pc, u)
  {
    steps, t := [], s;
    if user !in s.cache {
      steps, t := LooksAndMisses(s, steps, t, user, session, u, c);
    } else if !Firm(s, s.cache[user], session, u) {
      steps, t := OverwrittenFirst(s, steps, t, user, session, u, c);
    } else if user in s.held && !Firm(s, s.held[user], session, u) {
      steps, t := Returns(s, user);
      assert !Firm(t, t.cache[user], session, u);
      steps, t := OverwrittenFirst(s, steps, t, user, session, u, c);
    } else {
      var d :| 0 <= d < |s.calls| && s.calls[d].user == user && s.calls[d].pc == Expired;
      steps, t := NextAlone(s, steps, t, user, RemoveExpired(d));
      steps, t := LooksAndMisses(s, steps, t, user, session, u, c);
    }
  }

  /** A call of a session that has just arrived is given u, whatever else is called
      and however the list is replaced, unless somebody drops, verifies or finds
      expired the user: exactly when u is stored for good in the cached object and
      in the one that the resetting loop holds, if any, and nobody is about to
      remove the user. */
  lemma SessionSticks(s: State, user: string, session: string, u: Upstream, c: nat)
    requires Valid(s) && session != "" && c < |s.calls| && s.calls[c] == Call(user, session, Arrived)
    ensures AlwaysGets(s, c, user, u) <==> Settled(s, user, session, u)
  {
    if Settled(s, user, session, u) {
      forall steps, t | RunAlone(s, steps, t, user) ensures c < |t.calls| && GetsIt(t.calls[c].pc, u) {
        RunGets(s, steps, t, user, session, u, c);
      }
    } else {
      var steps, t := Unsettles(s, user, session, u, c);
      assert RunAlone(s, steps, t, user);
    }
  }

  // ---- an old object comes back ----------------------------------------

  /** Two calls of one session, on the list [0, 1], while the loop is writing if it
      holds anything. */
  function Pair(user: string, session: string, a: Pc, b: Pc, objs: seq<map<string, Upstream>>, cache: map<string, nat>,
                held: map<string, nat>, n: nat, touched: set<(nat, string)>): State
  {
    State([0, 1], n, objs, cache, held, held != map[], [Call(user, session, a), Call(user, session, b)], n, touched)
  }

  const FIRST: Pc := Returned(Worker.Chosen(0), MissedDraw)
  const SECOND: Pc := Returned(Worker.Chosen(1), MissedDraw)

  lemma CachedAndCopied(user: string, session: string) returns (s: State, steps: seq<Step>, t: State)
    ensures Init(s) && Run(s, steps, t)
    ensures t == Pair(user, session, Arrived, Arrived, [map[]], map[user := 0], map[user := 0], 0, {})
  {
    s := Pair(user, session, Arrived, Arrived, [], map[], map[], 0, {});
    steps, t := Then(s, [], s, Cache(user));
    steps, t := Then(s, steps, t, Snapshot(user));
    assert t.held == map[user := 0] && t.held != map[];
    steps, t := Then(s, steps, t, Copied);
  }

  /** The user is cached, copied by the resetting loop, dropped and cached anew. */
  lemma CachedAnew(user: string, session: string) returns (s: State, steps: seq<Step>, t: State)
    ensures Init(s) && Run(s, steps, t)
    ensures t == Pair(user, session, Arrived, Arrived, [map[], map[]], map[user := 1], map[user := 0], 0, {})
  {
    s, steps, t := CachedAndCopied(user, session);
    steps, t := Then(s, steps, t, Drop(user));
    assert t.cache == map[];
    steps, t := Then(s, steps, t, Cache(user));
    assert t.cache == map[user := 1] && t.objs == [map[], map[]];
  }

  lemma FirstMisses(user: string, session: string) returns (s: State, steps: seq<Step>, t: State)
    requires session != ""
    ensures Init(s) && Run(s, steps, t)
    ensures t == Pair(user, session, Missed(1), Arrived, [map[], map[]], map[user := 1], map[user := 0], 0, {(1, session)})
  {
    s, steps, t := CachedAnew(user, session);
    steps, t := Then(s, steps, t, Look(0));
    assert t.calls == [Call(user, session, Got(1)), Call(user, session, Arrived)];
    steps, t := Then(s, steps, t, Find(0));
    assert t.calls == [Call(user, session, Missed(1)), Call(user, session, Arrived)];
  }

  /** The first call draws and stores in the new object. */
  lemma FirstCall(user: string, session: string) returns (s: State, steps: seq<Step>, t: State)
    requires session != ""
    ensures Init(s) && Run(s, steps, t)
    ensures t == Pair(user, session, FIRST, Arrived, [map[], map[session := 0]], map[user := 1], map[user := 0], 1,
                      {(1, session)})
  {
    s, steps, t := FirstMisses(user, session);
    steps, t := Then(s, steps, t, Ticket(0));
    assert t.calls == [Call(user, session, Drawn(1, 0)), Call(user, session, Arrived)];
    steps, t := Then(s, steps, t, Store(0));
    assert t.objs == [map[], map[session := 0]];
    assert t.calls == [Call(user, session, FIRST), Call(user, session, Arrived)];
  }

  /** From there, the loop writes its copy back and the second call draws. */
  lemma SecondCall(user: string, session: string, m: State) returns (steps: seq<Step>, t: State)
    requires session != ""
    requires m == Pair(user, session, FIRST, Arrived, [map[], map[session := 0]], map[user := 1], map[user := 0], 1,
                       {(1, session)})
    ensures RunAlone(m, steps, t, user) && |t.calls| == 2 && t.calls[1].pc == SECOND
  {
    var kept := [map[], map[session := 0]];
    steps, t := NextAlone(m, [], m, user, WriteBack(user));
    assert t == Pair(user, session, FIRST, Arrived, kept, map[user := 0], map[], 1, {(1, session)});
    steps, t := NextAlone(m, steps, t, user, Look(1));
    assert t == Pair(user, session, FIRST, Got(0), kept, map[user := 0], map[], 1, {(1, session)});
    steps, t := NextAlone(m, steps, t, user, Find(1));
    assert t.calls == [Call(user, session, FIRST), Call(user, session, Missed(0))];
    steps, t := NextAlone(m, steps, t, user, Ticket(1));
    assert t.calls == [Call(user, session, FIRST), Call(user, session, Drawn(0, 1))];
    steps, t := NextAlone(m, steps, t, user, Store(1));
  }

  /** The resetting loop copies a user, who is then dropped and verified again. A
      call of a new session draws upstream 0 and stores it for good. The loop
      writes its copy back, and the next call of the session is given upstream 1. */
  lemma OldObjectReturns(user: string, session: string)
    returns (s: State, before: seq<Step>, m: State, after: seq<Step>, t: State)
    requires session != ""
    ensures Init(s) && Run(s, before, m) && RunAlone(m, after, t, user)
    ensures |m.calls| == 2 && m.calls[0].pc == FIRST && user in m.cache && Firm(m, m.cache[user], session, 0)
    ensures NobodyRemoving(m, user) && m.calls[1] == Call(user, session, Arrived)
    ensures |t.calls| == 2 && t.calls[1].pc == SECOND
  {
    s, before, m := FirstCall(user, session);
    after, t := SecondCall(user, session, m);
  }
}
