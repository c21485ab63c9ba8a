// NextUpstream among concurrent calls. No lock is held from the lookup of a
// session to the store of its upstream: the lookup, the round-robin draw and the
// store are separate steps, between which other calls run, the upstream list is
// replaced, users are dropped and cached anew, and the loop that resets connection
// counts writes entries back that it has copied earlier. Upstreams are numbered.
module Sessions {
  import Worker

  type Upstream = int

  type Choice = Worker.Choice<Upstream>

  // A call has just arrived; holds the cached user object and is about to look
  // for its session; has no session or no cached user and is about to draw; has
  // missed its session in the map of the object and is about to draw; has drawn
  // and is about to store; has found its entry expired and is about to remove its
  // user; or has returned.
  datatype Pc =
    | Arrived
    | Got(obj: nat)
    | Plain
    | Missed(obj: nat)
    | Drawn(obj: nat, upstream: Upstream)
    | Expired
    | Returned(choice: Choice, draw: Draw)

  // Whether a call drew, and if so whether a missed lookup made it.
  datatype Draw = NoDraw | PlainDraw | MissedDraw

  datatype Call = Call(user: string, session: string, pc: Pc)

  /** The list and the ticket counter, the session maps of all user objects ever
      cached, the object cached for each user, those that the resetting loop has
      copied and not yet written back (it is writing once it has copied all), and
      the calls. drawn counts the tickets without wrapping; touched are the pairs
      that a lookup has missed. */
  datatype State = State(
    upstreams: seq<Upstream>,
    index: nat,
    objs: seq<map<string, Upstream>>,
    cache: map<string, nat>,
    held: map<string, nat>,
    writing: bool,
    calls: seq<Call>,
    drawn: nat,
    touched: set<(nat, string)>)

  datatype Step =
    | Look(c: nat)             // the test of the session, and GetUser
    | Find(c: nat)             // the lookup of the session
    | LookExpired(c: nat)      // GetUser of an entry that the clock has overtaken
    | RemoveExpired(c: nat)
    | Ticket(c: nat)           // Next
    | Store(c: nat)
    | NewUpstreams(us: seq<Upstream>)
    | Drop(user: string)
    | Cache(user: string)
    | Snapshot(user: string)   // the resetting loop copies the entry of the user
    | Copied                   // has copied them all
    | WriteBack(user: string)  // and sets an entry again

  predicate OfCall(step: Step)
  {
    !step.NewUpstreams? && !step.Drop? && !step.Cache? && !step.Snapshot? && !step.Copied? && !step.WriteBack?
  }

  predicate Enabled(s: State, step: Step)
  {
    match step
    case NewUpstreams(_) => true
    case Drop(_) => true
    case Cache(_) => true
    case Snapshot(user) => !s.writing && user in s.cache && user !in s.held
    case Copied => !s.writing && s.held != map[]
    case WriteBack(user) => s.writing && user in s.held
    case _ =>
      step.c < |s.calls| &&
      var k := s.calls[step.c];
      match step
      case Look(_) => k.pc == Arrived
      case Find(_) => k.pc.Got? && k.pc.obj < |s.objs|
      case LookExpired(_) => k.pc == Arrived && k.session != "" && k.user in s.cache
      case RemoveExpired(_) => k.pc == Expired
      case Ticket(_) => k.pc == Plain || k.pc.Missed?
      case Store(_) => k.pc.Drawn? && k.pc.obj < |s.objs|
      case _ => true
  }

  function Looked(s: State, k: Call): Pc
  {
    if k.session != "" && k.user in s.cache then Got(s.cache[k.user]) else Plain
  }

  function Found(s: State, k: Call): Pc
    requires k.pc.Got? && k.pc.obj < |s.objs|
  {
    if k.session in s.objs[k.pc.obj] then Returned(Worker.Chosen(s.objs[k.pc.obj][k.session]), NoDraw)
    else Missed(k.pc.obj)
  }

  function Ticketed(s: State, k: Call): Pc
    requires k.pc == Plain || k.pc.Missed?
  {
    if s.upstreams == [] then
      (if k.pc == Plain then Returned(Worker.NoUpstream, NoDraw) else Returned(Worker.NilPanic, NoDraw))
    else
      var u := s.upstreams[s.index % |s.upstreams|];
      if k.pc == Plain then Returned(Worker.Chosen(u), PlainDraw) else Drawn(k.pc.obj, u)
  }

  function With(s: State, c: nat, pc: Pc): State
    requires c < |s.calls|
  {
    s.(calls := s.calls[c := s.calls[c].(pc := pc)])
  }

  function After(s: State, step: Step): State
    requires Enabled(s, step)
  {
    match step
    case Look(c) => With(s, c, Looked(s, s.calls[c]))
    case Find(c) =>
      var pc := Found(s, s.calls[c]);
      With(s, c, pc).(touched := if pc.Missed? then s.touched + {(pc.obj, s.calls[c].session)} else s.touched)
    case LookExpired(c) => With(s, c, Expired)
    case RemoveExpired(c) => With(s, c, Plain).(cache := s.cache - {s.calls[c].user})
    case Ticket(c) =>
      var t := With(s, c, Ticketed(s, s.calls[c]));
      if s.upstreams == [] then t else t.(index := (s.index + 1) % Worker.TICKETS, drawn := s.drawn + 1)
    case Store(c) =>
      var k := s.calls[c];
      With(s, c, Returned(Worker.Chosen(k.pc.upstream), MissedDraw)).(
        objs := s.objs[k.pc.obj := s.objs[k.pc.obj][k.session := k.pc.upstream]])
    case NewUpstreams(us) => s.(upstreams := us)
    case Drop(user) => s.(cache := s.cache - {user})
    case Cache(user) => s.(objs := s.objs + [map[]], cache := s.cache[user := |s.objs|])
    case Snapshot(user) => s.(held := s.held[user := s.cache[user]])
    case Copied => s.(writing := true)
    case WriteBack(user) =>
      var rest := s.held - {user};
      s.(cache := s.cache[user := s.held[user]], held := rest, writing := rest != map[])
  }

  ghost predicate Run(s: State, steps: seq<Step>, t: State)
    decreases |steps|
  {
    if steps == [] then s == t
    else Enabled(s, steps[0]) && Run(After(s, steps[0]), steps[1..], t)
  }

  predicate Init(s: State)
  {
    && s.objs == [] && s.cache == map[] && s.held == map[] && !s.writing && s.drawn == 0 && s.touched == {} && s.index == 0
    && forall c :: 0 <= c < |s.calls| ==> s.calls[c].pc == Arrived
  }

  lemma {:induction false} RunAppend(s: State, steps: seq<Step>, t: State, step: Step)
    requires Run(s, steps, t) && Enabled(t, step)
    ensures Run(s, steps + [step], After(t, step))
    decreases |steps|
  {
    if steps == [] {
      assert [step][1..] == [];
      assert steps + [step] == [step];
    } else {
      RunAppend(After(s, steps[0]), steps[1..], t, step);
      assert (steps + [step])[1..] == steps[1..] + [step];
    }
  }

  lemma Then(s: State, before: seq<Step>, u: State, step: Step) returns (steps: seq<Step>, t: State)
    requires Run(s, before, u) && Enabled(u, step)
    ensures steps == before + [step] && t == After(u, step) && Run(s, steps, t)
  {
    RunAppend(s, before, u, step);
    steps, t := before + [step], After(u, step);
  }

  // ---- when a stored pair stays ----------------------------------------

  /** The call may still overwrite the session of this object with another upstream. */
  predicate MayOverwrite(k: Call, obj: nat, session: string, u: Upstream)
  {
    k.session == session && (k.pc == Missed(obj) || (k.pc.Drawn? && k.pc.obj == obj && k.pc.upstream != u))
  }

  predicate Stored(s: State, obj: nat, session: string, u: Upstream)
  {
    obj < |s.objs| && session in s.objs[obj] && s.objs[obj][session] == u
  }

  ghost predicate NobodyBetween(s: State, obj: nat, session: string, u: Upstream)
  {
    forall c :: 0 <= c < |s.calls| ==> !MayOverwrite(s.calls[c], obj, session, u)
  }

  ghost predicate StaysStored(s: State, obj: nat, session: string, u: Upstream)
  {
    forall steps, t :: Run(s, steps, t) ==> Stored(t, obj, session, u)
  }

  lemma StepStays(s: State, step: Step, obj: nat, session: string, u: Upstream)
    requires Stored(s, obj, session, u) && NobodyBetween(s, obj, session, u) && Enabled(s, step)
    ensures Stored(After(s, step), obj, session, u) && NobodyBetween(After(s, step), obj, session, u)
  {
    if OfCall(step) {
      assert !MayOverwrite(s.calls[step.c], obj, session, u);
    }
  }

  lemma {:induction false} RunStays(s: State, steps: seq<Step>, t: State, obj: nat, session: string, u: Upstream)
    requires Stored(s, obj, session, u) && NobodyBetween(s, obj, session, u) && Run(s, steps, t)
    ensures Stored(t, obj, session, u)
    decreases |steps|
  {
    if steps != [] {
      StepStays(s, steps[0], obj, session, u);
      RunStays(After(s, steps[0]), steps[1..], t, obj, session, u);
    }
  }

  /** A call between its missed lookup and its store overwrites the pair. */
  lemma Overwrites(s: State, c: nat, obj: nat, session: string, u: Upstream) returns (steps: seq<Step>, t: State)
    requires Stored(s, obj, session, u) && c < |s.calls| && MayOverwrite(s.calls[c], obj, session, u)
    ensures Run(s, steps, t) && !Stored(t, obj, session, u)
  {
    if s.calls[c].pc.Missed? {
      var s1 := After(s, NewUpstreams([u + 1]));
      var s2 := After(s1, Ticket(c));
      t := After(s2, Store(c));
      RunAppend(s, [], s, NewUpstreams([u + 1]));
      RunAppend(s, [] + [NewUpstreams([u + 1])], s1, Ticket(c));
      RunAppend(s, [] + [NewUpstreams([u + 1])] + [Ticket(c)], s2, Store(c));
      steps := [] + [NewUpstreams([u + 1])] + [Ticket(c)] + [Store(c)];
    } else {
      t := After(s, Store(c));
      RunAppend(s, [], s, Store(c));
      steps := [] + [Store(c)];
    }
  }

  /** The upstream stored for a session of a user object never changes, in any
      continuation, exactly when no call of that pair is between its missed lookup
      and the store of another upstream. */
  lemma StoredForGood(s: State, obj: nat, session: string, u: Upstream)
    requires Stored(s, obj, session, u)
    ensures StaysStored(s, obj, session, u) <==> NobodyBetween(s, obj, session, u)
  {
    if NobodyBetween(s, obj, session, u) {
      forall steps, t | Run(s, steps, t) ensures Stored(t, obj, session, u) {
        RunStays(s, steps, t, obj, session, u);
      }
    } else {
      var c :| 0 <= c < |s.calls| && MayOverwrite(s.calls[c], obj, session, u);
      var steps, t := Overwrites(s, c, obj, session, u);
      assert Run(s, steps, t);
    }
  }

  // ---- one call at a time ----------------------------------------------

  /** What the state is to a call that nobody interrupts. */
  ghost function Router(s: State): Worker.Router<Upstream>
    requires forall u :: u in s.cache ==> s.cache[u] < |s.objs|
  {
    Worker.Router(s.upstreams, s.index, map u | u in s.cache :: s.objs[s.cache[u]])
  }

  /** The steps of a call, as many as it takes. */
  ghost function Undisturbed(s: State, c: nat): State
    requires c < |s.calls| && s.calls[c].pc == Arrived && forall u :: u in s.cache ==> s.cache[u] < |s.objs|
  {
    var s1 := After(s, Look(c));
    if s1.calls[c].pc == Plain then After(s1, Ticket(c))
    else
      var s2 := After(s1, Find(c));
      if s2.calls[c].pc.Returned? then s2
      else
        var s3 := After(s2, Ticket(c));
        if s3.calls[c].pc.Returned? then s3 else After(s3, Store(c))
  }

  lemma RouterStored(s: State, user: string, session: string, u: Upstream)
    requires user in s.cache && forall v :: v in s.cache ==> s.cache[v] < |s.objs|
    requires forall v :: v in s.cache && v != user ==> s.cache[v] != s.cache[user]
    ensures var obj := s.cache[user];
            var r := Router(s);
            Router(s.(objs := s.objs[obj := s.objs[obj][session := u]]))
            == r.(users := r.users[user := r.users[user][session := u]])
  {}

  lemma PlainIsRoute(s: State, c: nat)
    requires c < |s.calls| && s.calls[c].pc == Arrived && forall u :: u in s.cache ==> s.cache[u] < |s.objs|
    requires s.calls[c].session == "" || s.calls[c].user !in s.cache
    ensures var t := Undisturbed(s, c);
            t.cache == s.cache && t.objs == s.objs && t.calls[c].pc.Returned?
            && (Router(t), t.calls[c].pc.choice) == Worker.Route(Router(s), s.calls[c].user, s.calls[c].session)
  {}

  lemma StickyIsRoute(s: State, c: nat)
    requires c < |s.calls| && s.calls[c].pc == Arrived && forall u :: u in s.cache ==> s.cache[u] < |s.objs|
    requires s.calls[c].session != "" && s.calls[c].user in s.cache
    requires s.upstreams == [] || s.calls[c].session in s.objs[s.cache[s.calls[c].user]]
    ensures var t := Undisturbed(s, c);
            t.cache == s.cache && t.objs == s.objs && t.calls[c].pc.Returned?
            && (Router(t), t.calls[c].pc.choice) == Worker.Route(Router(s), s.calls[c].user, s.calls[c].session)
  {}

  lemma NewPairIsRoute(s: State, c: nat)
    requires c < |s.calls| && s.calls[c].pc == Arrived && forall u :: u in s.cache ==> s.cache[u] < |s.objs|
    requires s.calls[c].session != "" && s.calls[c].user in s.cache
    requires s.upstreams != [] && s.calls[c].session !in s.objs[s.cache[s.calls[c].user]]
    requires forall v :: v in s.cache && v != s.calls[c].user ==> s.cache[v] != s.cache[s.calls[c].user]
    ensures var t := Undisturbed(s, c);
            t.cache == s.cache && |t.objs| == |s.objs| && t.calls[c].pc.Returned?
            && (Router(t), t.calls[c].pc.choice) == Worker.Route(Router(s), s.calls[c].user, s.calls[c].session)
  {
    var k := s.calls[c];
    var u := s.upstreams[s.index % |s.upstreams|];
    var next := (s.index + 1) % Worker.TICKETS;
    NewPairState(s, c, u, next);
    RouterStored(s.(index := next), k.user, k.session, u);
    SameRouter(Undisturbed(s, c), s.(index := next, objs := s.objs[s.cache[k.user] := s.objs[s.cache[k.user]][k.session := u]]));
  }

  lemma SameRouter(s: State, t: State)
    requires s.cache == t.cache && s.objs == t.objs && s.index == t.index && s.upstreams == t.upstreams
    requires forall u :: u in s.cache ==> s.cache[u] < |s.objs|
    ensures Router(s) == Router(t)
  {}

  /** What the four steps of a call with a new session leave behind. */
  lemma NewPairState(s: State, c: nat, u: Upstream, next: nat)
    requires c < |s.calls| && s.calls[c].pc == Arrived && forall v :: v in s.cache ==> s.cache[v] < |s.objs|
    requires s.calls[c].session != "" && s.calls[c].user in s.cache
    requires s.upstreams != [] && s.calls[c].session !in s.objs[s.cache[s.calls[c].user]]
    requires u == s.upstreams[s.index % |s.upstreams|] && next == (s.index + 1) % Worker.TICKETS
    ensures var t := Undisturbed(s, c);
            var obj := s.cache[s.calls[c].user];
            && t.cache == s.cache && t.upstreams == s.upstreams && t.index == next
            && t.objs == s.objs[obj := s.objs[obj][s.calls[c].session := u]]
            && |t.calls| == |s.calls| && t.calls[c].pc == Returned(Worker.Chosen(u), MissedDraw)
  {}

  /** A call that nobody interrupts does what NextUpstream does as one step, given
      that no two users share an object. */
  lemma UndisturbedIsRoute(s: State, c: nat)
    requires c < |s.calls| && s.calls[c].pc == Arrived && forall u :: u in s.cache ==> s.cache[u] < |s.objs|
    requires forall u, v :: u in s.cache && v in s.cache && u != v ==> s.cache[u] != s.cache[v]
    ensures var t := Undisturbed(s, c);
            t.cache == s.cache && |t.objs| == |s.objs| && t.calls[c].pc.Returned?
            && (Router(t), t.calls[c].pc.choice) == Worker.Route(Router(s), s.calls[c].user, s.calls[c].session)
  {
    var k := s.calls[c];
    if k.session == "" || k.user !in s.cache {
      PlainIsRoute(s, c);
    } else if s.upstreams == [] || k.session in s.objs[s.cache[k.user]] {
      StickyIsRoute(s, c);
    } else {
      NewPairIsRoute(s, c);
    }
  }
}
