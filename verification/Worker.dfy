// The worker's choice of upstream: a round-robin ticket counter, and sessions of
// cached users that stick to the upstream they were given first.
module Worker {
  import Slots

  const TICKETS := 0x1_0000_0000_0000_0000   // the counter is 64 bits wide

  // ---- the value behind the objects ------------------------------------

  /** The upstream list, the ticket counter, and for each cached user the
      upstream remembered for each session. */
  datatype Router<U> = Router(upstreams: seq<U>, index: nat, users: map<string, map<string, U>>)

  /** A choice, nothing to choose from, or the nil dereference of a sticky
      session with no upstream. */
  datatype Choice<U> = Chosen(upstream: U) | NoUpstream | NilPanic

  function Draw<U>(r: Router<U>): (Router<U>, Choice<U>)
  {
    if r.upstreams == [] then (r, NoUpstream)
    else (r.(index := (r.index + 1) % TICKETS), Chosen(r.upstreams[r.index % |r.upstreams|]))
  }

  function Route<U>(r: Router<U>, user: string, session: string): (Router<U>, Choice<U>)
  {
    if session == "" || user !in r.users then Draw(r)
    else if session in r.users[user] then (r, Chosen(r.users[user][session]))
    else if r.upstreams == [] then (r, NilPanic)
    else
      var (next, choice) := Draw(r);
      (next.(users := r.users[user := r.users[user][session := choice.upstream]]), choice)
  }

  function Forget<U>(r: Router<U>, user: string): Router<U>
  {
    r.(users := r.users - {user})
  }

  // ---- the objects -----------------------------------------------------

  datatype CachedUser<U> = CachedUser(sessions: map<string, U>, connectionCount: int, expireAt: int)

  function Sessions<U>(users: map<string, CachedUser<U>>): map<string, map<string, U>>
  {
    map u | u in users :: users[u].sessions
  }

  class WorkerManager<U> {
    var upstreams: seq<U>
    var index: nat
    var cachedUsers: map<string, CachedUser<U>>

    ghost predicate Valid()
      reads this
    {
      index < TICKETS
      && forall u :: u in cachedUsers ==> -1 <= cachedUsers[u].connectionCount <= Slots.LIMIT
    }

    ghost function State(): Router<U>
      reads this
    {
      Router(upstreams, index, Sessions(cachedUsers))
    }

    constructor ()
      ensures Valid() && State() == Router([], 0, map[])
    {
      upstreams, index, cachedUsers := [], 0, map[];
    }

    method SetUpstreams(us: seq<U>)
      requires Valid()
      modifies this`upstreams
      ensures Valid() && State() == old(State()).(upstreams := us)
    {
      upstreams := us;
    }

    /** UpstreamManager.Next. */
    method Next() returns (c: Choice<U>)
      requires Valid()
      modifies this`index
      ensures Valid() && (State(), c) == Draw(old(State()))
    {
      if |upstreams| == 0 {
        return NoUpstream;
      }
      var idx := index;   // the incremented counter minus one
      index := (index + 1) % TICKETS;
      c := Chosen(upstreams[idx % |upstreams|]);
    }

    /** UserManager.SetUser with a new user: nothing remembered, counter zero. */
    method SetUser(user: string, expireAt: int)
      requires Valid()
      modifies this`cachedUsers
      ensures Valid() && cachedUsers == old(cachedUsers)[user := CachedUser(map[], 0, expireAt)]
      ensures State() == old(State()).(users := old(State()).users[user := map[]])
    {
      cachedUsers := cachedUsers[user := CachedUser(map[], 0, expireAt)];
      assert Sessions(cachedUsers) == old(State()).users[user := map[]];
    }

    method RemoveUser(user: string)
      requires Valid()
      modifies this`cachedUsers
      ensures Valid() && cachedUsers == old(cachedUsers) - {user}
      ensures State() == Forget(old(State()), user)
    {
      cachedUsers := cachedUsers - {user};
      assert Sessions(cachedUsers) == old(State()).users - {user};
    }

    /** GetUser: an expired entry is dropped on the way. */
    method GetUser(now: int, user: string) returns (found: bool)
      requires Valid()
      modifies this`cachedUsers
      ensures found <==> user in old(cachedUsers) && now < old(cachedUsers)[user].expireAt
      ensures cachedUsers == if found then old(cachedUsers) else old(cachedUsers) - {user}
      ensures Valid() && State() == if found then old(State()) else Forget(old(State()), user)
    {
      if user in cachedUsers {
        if now < cachedUsers[user].expireAt {
          return true;
        }
        RemoveUser(user);
        return false;
      }
      found := false;
    }

    /** One round of the cleanup loop over a snapshot of the cache. */
    method CleanUp(now: int)
      requires Valid()
      modifies this`cachedUsers
      ensures Valid()
      ensures forall u :: u in cachedUsers <==> u in old(cachedUsers) && now <= old(cachedUsers)[u].expireAt
      ensures forall u :: u in cachedUsers ==> cachedUsers[u] == old(cachedUsers)[u]
    {
      var items := cachedUsers;
      var todo := items.Keys;
      while todo != {}
        invariant Valid() && todo <= items.Keys
        invariant forall u :: u in cachedUsers <==> u in items && (u in todo || now <= items[u].expireAt)
        invariant forall u :: u in cachedUsers ==> cachedUsers[u] == items[u]
      {
        var u :| u in todo;
        todo := todo - {u};
        if now > items[u].expireAt {
          RemoveUser(u);
        }
      }
    }

    /** NextUpstream: an expired user counts as not cached and is dropped first,
        unless the call is not sticky and never looks the user up. */
    method NextUpstream(now: int, user: string, session: string) returns (c: Choice<U>)
      requires Valid()
      modifies this`index, this`cachedUsers
      ensures Valid()
      ensures var expired := session != "" && user in old(cachedUsers) && now >= old(cachedUsers)[user].expireAt;
              (State(), c) == Route(if expired then Forget(old(State()), user) else old(State()), user, session)
    {
      if session == "" {
        c := Next();
        return;
      }
      assert user !in cachedUsers ==> State().users - {user} == State().users;
      var ok := GetUser(now, user);
      if ok {
        var sessions := cachedUsers[user].sessions;
        if session in sessions {
          c := Chosen(sessions[session]);
          return;
        }
        c := Next();
        if c == NoUpstream {
          return NilPanic;
        }
        ghost var before := State().users;
        cachedUsers := cachedUsers[user := cachedUsers[user].(sessions := sessions[session := c.upstream])];
        assert Sessions(cachedUsers) == before[user := before[user][session := c.upstream]];
        return;
      }
      c := Next();
    }

    /** addConnection with nothing in between its test and its increment. */
    method AddConnection(user: string) returns (ok: bool)
      requires Valid()
      modifies this`cachedUsers
      ensures ok <==> user in old(cachedUsers) && old(cachedUsers)[user].connectionCount < 50
      ensures Valid() && State() == old(State())
      ensures cachedUsers == if ok
        then old(cachedUsers)[user := old(cachedUsers)[user].(connectionCount := old(cachedUsers)[user].connectionCount + 1)]
        else old(cachedUsers)
    {
      if user in cachedUsers {
        var u := cachedUsers[user];
        if u.connectionCount < Slots.LIMIT {
          cachedUsers := cachedUsers[user := u.(connectionCount := u.connectionCount + 1)];
          return true;
        }
        return false;
      }
      ok := false;
    }

    /** removeConnection: a counter of zero still goes down to minus one. */
    method RemoveConnection(user: string)
      requires Valid()
      modifies this`cachedUsers
      ensures Valid() && State() == old(State())
      ensures cachedUsers == if user in old(cachedUsers) && old(cachedUsers)[user].connectionCount >= 0
        then old(cachedUsers)[user := old(cachedUsers)[user].(connectionCount := old(cachedUsers)[user].connectionCount - 1)]
        else old(cachedUsers)
    {
      if user in cachedUsers {
        var u := cachedUsers[user];
        if u.connectionCount >= 0 {
          cachedUsers := cachedUsers[user := u.(connectionCount := u.connectionCount - 1)];
        }
      }
    }
  }

  // ---- runs ------------------------------------------------------------

  datatype Event<U> =
    | Call(user: string, session: string)
    | NewUpstreams(us: seq<U>)
    | Drop(user: string)       // removed or expired
    | Cache(user: string)      // verified again: a new user object

  function Apply<U>(r: Router<U>, e: Event<U>): Router<U>
  {
    match e
    case Call(user, session) => Route(r, user, session).0
    case NewUpstreams(us) => r.(upstreams := us)
    case Drop(user) => Forget(r, user)
    case Cache(user) => r.(users := r.users[user := map[]])
  }

  function Run<U>(r: Router<U>, events: seq<Event<U>>): Router<U>
    decreases |events|
  {
    if events == [] then r else Run(Apply(r, events[0]), events[1..])
  }

  predicate Keeps<U>(e: Event<U>, user: string)
  {
    (e.Drop? || e.Cache?) ==> e.user != user
  }

  /** As long as the user stays cached, whatever else is called and however the
      upstream list is replaced, a session gets the upstream it got first. */
  lemma SessionsStick<U>(r: Router<U>, user: string, session: string, events: seq<Event<U>>)
    requires user in r.users && session != "" && Route(r, user, session).1.Chosen?
    requires forall e :: e in events ==> Keeps(e, user)
    ensures Route(Run(Apply(r, Call(user, session)), events), user, session).1 == Route(r, user, session).1
  {
    StaysRemembered(Apply(r, Call(user, session)), user, session, events);
  }

  lemma {:induction false} StaysRemembered<U>(r: Router<U>, user: string, session: string, events: seq<Event<U>>)
    requires user in r.users && session in r.users[user]
    requires forall e :: e in events ==> Keeps(e, user)
    ensures user in Run(r, events).users && session in Run(r, events).users[user]
    ensures Run(r, events).users[user][session] == r.users[user][session]
    decreases |events|
  {
    if events != [] {
      assert events[0] in events;
      StaysRemembered(Apply(r, events[0]), user, session, events[1..]);
    }
  }

  /** Calls that draw without being remembered: no session, or a user who is
      not cached, and a list to draw from. */
  predicate Plain<U>(r: Router<U>, e: Event<U>)
  {
    e.Call? && r.upstreams != [] && (e.session == "" || e.user !in r.users)
  }

  function PlainCalls<U>(r: Router<U>, events: seq<Event<U>>): nat
    decreases |events|
  {
    if events == [] then 0
    else (if Plain(r, events[0]) then 1 else 0) + PlainCalls(Apply(r, events[0]), events[1..])
  }

  /** Tickets drawn, counted without wrapping. */
  function Drawn<U>(r: Router<U>, events: seq<Event<U>>): nat
    decreases |events|
  {
    if events == [] then 0
    else (if Apply(r, events[0]).index != r.index then 1 else 0) + Drawn(Apply(r, events[0]), events[1..])
  }

  /** The (user, session) pairs that are remembered. */
  function Pairs<U>(users: map<string, map<string, U>>): set<(string, string)>
  {
    set u, s | u in users && s in users[u] :: (u, s)
  }

  /** How often an event makes a pair remembered that was not before. */
  function NewPairs<U>(r: Router<U>, events: seq<Event<U>>): nat
    decreases |events|
  {
    if events == [] then 0
    else |Pairs(Apply(r, events[0]).users) - Pairs(r.users)| + NewPairs(Apply(r, events[0]), events[1..])
  }

  lemma PairsStore<U>(users: map<string, map<string, U>>, user: string, session: string, upstream: U)
    requires user in users && session !in users[user]
    ensures Pairs(users[user := users[user][session := upstream]]) - Pairs(users) == {(user, session)}
    ensures Pairs(users) <= Pairs(users[user := users[user][session := upstream]])
  {
    var after := users[user := users[user][session := upstream]];
    assert (user, session) !in Pairs(users);
    assert Pairs(after) == Pairs(users) + {(user, session)};
  }

  lemma PairsForgotten<U>(users: map<string, map<string, U>>, user: string)
    ensures Pairs(users - {user}) - Pairs(users) == {}
    ensures Pairs(users[user := map[]]) - Pairs(users) == {}
  {}

  lemma EventDraws<U>(r: Router<U>, e: Event<U>)
    requires r.index < TICKETS
    ensures Apply(r, e).index < TICKETS
    ensures (if Apply(r, e).index != r.index then 1 else 0)
         == (if Plain(r, e) then 1 else 0) + |Pairs(Apply(r, e).users) - Pairs(r.users)|
  {
    match e
    case Call(user, session) =>
      if r.upstreams != [] {
        IndexMoves(r);
        if session != "" && user in r.users && session !in r.users[user] {
          PairsStore(r.users, user, session, Draw(r).1.upstream);
        }
      }
    case NewUpstreams(_) =>
    case Drop(user) => PairsForgotten(r.users, user);
    case Cache(user) => PairsForgotten(r.users, user);
  }

  /** In every run, whatever users are cached, dropped or expire and however the
      list changes, the tickets drawn are the calls that are not sticky plus the
      pairs as they are first remembered. */
  lemma {:induction false} TicketsDrawn<U>(r: Router<U>, events: seq<Event<U>>)
    requires r.index < TICKETS
    ensures Drawn(r, events) == PlainCalls(r, events) + NewPairs(r, events)
    decreases |events|
  {
    if events != [] {
      EventDraws(r, events[0]);
      TicketsDrawn(Apply(r, events[0]), events[1..]);
    }
  }

  /** Those pairs are distinct as long as nobody is dropped or cached anew. */
  lemma {:induction false} NewPairsDistinct<U>(r: Router<U>, events: seq<Event<U>>)
    requires forall e :: e in events ==> e.Call? || e.NewUpstreams?
    ensures NewPairs(r, events) == |Pairs(Run(r, events).users)| - |Pairs(r.users)|
    decreases |events|
  {
    if events != [] {
      var e := events[0];
      assert e in events;
      if e.Call? && e.session != "" && e.user in r.users && e.session !in r.users[e.user] && r.upstreams != [] {
        PairsStore(r.users, e.user, e.session, Draw(r).1.upstream);
      }
      var before, after := Pairs(r.users), Pairs(Apply(r, e).users);
      assert before <= after;
      assert after == before + (after - before);
      NewPairsDistinct(Apply(r, e), events[1..]);
    }
  }

  lemma IndexMoves<U>(r: Router<U>)
    requires r.upstreams != [] && r.index < TICKETS
    ensures Draw(r).0.index != r.index && Draw(r).0.index < TICKETS
  {}

  // ---- fairness --------------------------------------------------------

  /** How often k consecutive tickets from t select position p among n. */
  function Hits(t: nat, k: nat, n: nat, p: nat): nat
    requires n > 0
  {
    if k == 0 then 0 else Hits(t, k - 1, n, p) + (if (t + k - 1) % n == p then 1 else 0)
  }

  /** How many tickets below x select position p. */
  function Below(x: nat, n: nat, p: nat): nat
    requires n > 0
  {
    x / n + (if x % n > p then 1 else 0)
  }

  lemma BelowStep(x: nat, n: nat, p: nat)
    requires p < n
    ensures Below(x + 1, n, p) == Below(x, n, p) + (if x % n == p then 1 else 0)
  {
    DivMod(x, n, x / n, x % n);
    if x % n + 1 < n {
      DivMod(x + 1, n, x / n, x % n + 1);
    } else {
      DivMod(x + 1, n, x / n + 1, 0);
    }
  }

  lemma DivMod(x: nat, n: nat, q: nat, r: nat)
    requires n > 0 && x == q * n + r && r < n
    ensures x / n == q && x % n == r
  {
    var d: int := x / n - q;
    assert d * n == r - x % n;
    if d >= 1 {
      Scale(d, n);
    } else if d <= -1 {
      Scale(-d, n);
    }
  }

  lemma Scale(d: int, n: int)
    requires d >= 1 && n > 0
    ensures d * n >= n && (-d) * n <= -n
  {}

  lemma {:induction false} HitsBelow(t: nat, k: nat, n: nat, p: nat)
    requires p < n
    ensures Hits(t, k, n, p) == Below(t + k, n, p) - Below(t, n, p)
  {
    if k > 0 {
      HitsBelow(t, k - 1, n, p);
      BelowStep(t + k - 1, n, p);
    }
  }

  /** Any k consecutive tickets select every position floor(k/n) or ceil(k/n)
      times, whoever draws them. */
  lemma RoundRobinIsFair(t: nat, k: nat, n: nat, p: nat)
    requires p < n
    ensures k / n <= Hits(t, k, n, p) <= Ceiling(k, n)
  {
    HitsBelow(t, k, n, p);
    Euclid(t, n);
    Euclid(k, n);
    Between(t, k, n, p, t / n, t % n, k / n, k % n);
  }

  lemma Euclid(x: nat, n: nat)
    requires n > 0
    ensures x == (x / n) * n + x % n && x % n < n && x / n >= 0
  {}

  lemma Between(t: nat, k: nat, n: nat, p: nat, q: nat, r: nat, a: nat, b: nat)
    requires p < n && t == q * n + r && k == a * n + b && r < n && b < n
    ensures Below(t, n, p) + a <= Below(t + k, n, p) <= Below(t, n, p) + a + (if b == 0 then 0 else 1)
  {
    DivMod(t, n, q, r);
    Carry(t, k, n, q, r, a, b);
  }

  /** Adding with carry in base n. */
  lemma Carry(t: nat, k: nat, n: nat, q: nat, r: nat, a: nat, b: nat)
    requires n > 0 && t == q * n + r && k == a * n + b && r < n && b < n
    ensures (t + k) / n == q + a + (if r + b < n then 0 else 1)
    ensures (t + k) % n == r + b - (if r + b < n then 0 else n)
  {
    assert (q + a) * n == q * n + a * n && (q + a + 1) * n == q * n + a * n + n;
    if r + b < n {
      DivMod(t + k, n, q + a, r + b);
    } else {
      DivMod(t + k, n, q + a + 1, r + b - n);
    }
  }

  function DrawMany<U>(r: Router<U>, k: nat): Router<U>
  {
    if k == 0 then r else Draw(DrawMany(r, k - 1)).0
  }

  /** How many of k draws choose the upstream at position p of the list. */
  function ChosenTimes<U>(r: Router<U>, k: nat, p: nat): nat
    requires r.upstreams != []
  {
    if k == 0 then 0
    else ChosenTimes(r, k - 1, p) + (if DrawMany(r, k - 1).index % |r.upstreams| == p then 1 else 0)
  }

  lemma NextTicket(t: nat)
    requires t + 1 < TICKETS
    ensures (t + 1) % TICKETS == t + 1
  {}

  lemma {:induction false} DrawManyIndex<U>(r: Router<U>, k: nat)
    requires r.upstreams != [] && r.index < TICKETS
    ensures DrawMany(r, k) == r.(index := (r.index + k) % TICKETS)
  {
    if k == 0 {
      SmallTicket(r.index);
    } else {
      DrawManyIndex(r, k - 1);
      DrawOneMore(r, DrawMany(r, k - 1), k);
    }
  }

  lemma DrawOneMore<U>(r: Router<U>, q: Router<U>, k: nat)
    requires r.upstreams != [] && k > 0 && q == r.(index := (r.index + (k - 1)) % TICKETS)
    ensures Draw(q).0 == r.(index := (r.index + k) % TICKETS)
  {
    NextWrapped(r.index, k);
    DrawMoves(q);
  }

  lemma SmallTicket(t: nat)
    requires t < TICKETS
    ensures (t + 0) % TICKETS == t
  {}

  lemma DrawMoves<U>(r: Router<U>)
    requires r.upstreams != []
    ensures Draw(r).0 == r.(index := (r.index + 1) % TICKETS)
  {}

  lemma NextWrapped(t: nat, k: nat)
    requires k > 0
    ensures ((t + (k - 1)) % TICKETS + 1) % TICKETS == (t + k) % TICKETS
  {
    Successor(t + (k - 1), TICKETS);
    assert t + (k - 1) + 1 == t + k;
  }

  lemma {:induction false} ChosenHits<U>(r: Router<U>, k: nat, p: nat)
    requires r.upstreams != [] && r.index < TICKETS
    requires r.index + k <= TICKETS || TICKETS % |r.upstreams| == 0
    ensures ChosenTimes(r, k, p) == Hits(r.index, k, |r.upstreams|, p)
  {
    if k > 0 {
      ChosenHits(r, k - 1, p);
      DrawManyIndex(r, k - 1);
      var t := r.index + (k - 1);
      if t < TICKETS {
        DivMod(t, TICKETS, 0, t);
      } else {
        ModMod(t, TICKETS, |r.upstreams|);
      }
    }
  }

  lemma ModMod(x: nat, m: nat, n: nat)
    requires 0 < n && 0 < m && m % n == 0
    ensures (x % m) % n == x % n
  {
    var q, r := x / m, x % m;
    Euclid(x, m);
    Euclid(m, n);
    Euclid(r, n);
    Regroup(q, m / n, r / n, n);
    DivMod(x, n, q * (m / n) + r / n, r % n);
  }

  lemma Regroup(q: nat, d: nat, e: nat, n: nat)
    ensures q * (d * n) + e * n == (q * d + e) * n && q * d + e >= 0
  {}

  /** Over any k draws, every upstream of a list of n is chosen floor(k/n) or
      ceil(k/n) times if the draws do not wrap the counter or n divides 2^64. */
  lemma DrawsAreFair<U>(r: Router<U>, k: nat, p: nat)
    requires p < |r.upstreams| && r.index < TICKETS
    requires r.index + k <= TICKETS || TICKETS % |r.upstreams| == 0
    ensures k / |r.upstreams| <= ChosenTimes(r, k, p) <= Ceiling(k, |r.upstreams|)
  {
    ChosenHits(r, k, p);
    RoundRobinIsFair(r.index, k, |r.upstreams|, p);
  }

  function Ceiling(k: nat, n: nat): nat
    requires n > 0
  {
    k / n + (if k % n == 0 then 0 else 1)
  }

  /** Whatever the counter stands at and however many draws are made. */
  ghost predicate AlwaysFair<U(!new)>(us: seq<U>)
    requires us != []
  {
    forall index: nat, k: nat, p: nat | index < TICKETS && p < |us| ::
      k / |us| <= ChosenTimes(Router(us, index, map[]), k, p) <= Ceiling(k, |us|)
  }

  /** A window that starts on the last ticket and is as long as the list never
      chooses the last position, unless the length divides 2^64. */
  lemma {:induction false} WrapSkipsLast<U>(us: seq<U>, k: nat)
    requires us != [] && k <= |us| && TICKETS % |us| != 0
    ensures ChosenTimes(Router(us, TICKETS - 1, map[]), k, |us| - 1) == 0
  {
    if k > 0 {
      var n := |us|;
      var r := Router(us, TICKETS - 1, map[]);
      WrapSkipsLast(us, k - 1);
      DrawManyIndex(r, k - 1);
      if k == 1 {
        DivMod(TICKETS - 1, TICKETS, 0, TICKETS - 1);
        LastTicket(n);
      } else {
        WrappedTicket(k - 2, n);
      }
    }
  }

  lemma LastTicket(n: nat)
    requires 0 < n && TICKETS % n != 0
    ensures (TICKETS - 1) % n != n - 1
  {
    Successor(TICKETS - 1, n);
    if (TICKETS - 1) % n == n - 1 {
      DivMod(n, n, 1, 0);
    }
  }

  /** The i-th ticket behind the last one. */
  lemma WrappedTicket(i: nat, n: nat)
    requires i + 1 < n
    ensures ((TICKETS - 1 + (i + 1)) % TICKETS) % n != n - 1
  {
    Euclid(TICKETS + i, TICKETS);
    var x := (TICKETS + i) % TICKETS;
    assert x <= i;
    DivMod(x, n, 0, x);
  }

  /** Selection is fair across the wrap of the 64-bit counter exactly for lists
      whose length divides 2^64. */
  lemma FairAcrossWrap<U(!new)>(us: seq<U>)
    requires us != []
    ensures AlwaysFair(us) <==> 0x1_0000_0000_0000_0000 % |us| == 0
  {
    var n := |us|;
    if TICKETS % n == 0 {
      forall index: nat, k: nat, p: nat | index < TICKETS && p < |us|
        ensures k / n <= ChosenTimes(Router(us, index, map[]), k, p) <= Ceiling(k, n)
      {
        DrawsAreFair(Router(us, index, map[]), k, p);
      }
    } else {
      WrapSkipsLast(us, n);
      DivMod(n, n, 1, 0);
      assert n / n > ChosenTimes(Router(us, TICKETS - 1, map[]), n, n - 1);
    }
  }

  // ---- fairness of the upstreams that are returned ---------------------

  /** The upstream of the k-th draw from here, counting from 0. */
  lemma KthDraw<U>(r: Router<U>, k: nat)
    requires r.upstreams != [] && r.index < TICKETS
    ensures Draw(DrawMany(r, k)).1 == Chosen(r.upstreams[((r.index + k) % 0x1_0000_0000_0000_0000) % |r.upstreams|])
  {
    DrawManyIndex(r, k);
  }

  /** So a new manager goes through its list from the front, over and over. */
  lemma NewManagerDraws<U>(us: seq<U>, k: nat)
    requires us != [] && k < 0x1_0000_0000_0000_0000
    ensures Draw(DrawMany(Router(us, 0, map[]), k)).1 == Chosen(us[k % |us|])
  {
    KthDraw(Router(us, 0, map[]), k);
    DivMod(k, TICKETS, 0, k);
  }

  /** How many of k draws return this upstream. */
  ghost function Returned<U>(r: Router<U>, k: nat, u: U): nat
  {
    if k == 0 then 0 else Returned(r, k - 1, u) + (if Draw(DrawMany(r, k - 1)).1 == Chosen(u) then 1 else 0)
  }

  ghost predicate Distinct<U>(us: seq<U>)
  {
    forall i, j :: 0 <= i < j < |us| ==> us[i] != us[j]
  }

  lemma {:induction false} ReturnedTimes<U>(r: Router<U>, k: nat, p: nat)
    requires p < |r.upstreams| && Distinct(r.upstreams) && r.index < TICKETS
    ensures Returned(r, k, r.upstreams[p]) == ChosenTimes(r, k, p)
  {
    if k > 0 {
      ReturnedTimes(r, k - 1, p);
      DrawManyIndex(r, k - 1);
    }
  }

  lemma {:induction false} SameDraws<U>(r: Router<U>, q: Router<U>, k: nat)
    requires r.upstreams == q.upstreams && r.index == q.index
    ensures DrawMany(r, k).upstreams == DrawMany(q, k).upstreams && DrawMany(r, k).index == DrawMany(q, k).index
  {
    if k > 0 {
      SameDraws(r, q, k - 1);
    }
  }

  /** Draws do not look at the sessions. */
  lemma {:induction false} ReturnedSame<U>(r: Router<U>, q: Router<U>, k: nat, u: U)
    requires r.upstreams == q.upstreams != [] && r.index == q.index < TICKETS
    ensures Returned(r, k, u) == Returned(q, k, u)
  {
    if k > 0 {
      ReturnedSame(r, q, k - 1, u);
      SameDraws(r, q, k - 1);
    }
  }

  lemma {:induction false} DrawFirst<U>(r: Router<U>, k: nat)
    ensures DrawMany(Draw(r).0, k) == DrawMany(r, k + 1)
  {
    if k > 0 {
      DrawFirst(r, k - 1);
    }
  }

  lemma {:induction false} ReturnedFirst<U>(r: Router<U>, k: nat, u: U)
    ensures Returned(r, k + 1, u) == (if Draw(r).1 == Chosen(u) then 1 else 0) + Returned(Draw(r).0, k, u)
  {
    if k == 0 {
      assert DrawMany(r, 0) == r;
    } else {
      ReturnedFirst(r, k - 1, u);
      DrawFirst(r, k - 1);
    }
  }

  /** The call draws a ticket, and is given this upstream. */
  ghost predicate DrawsIt<U>(r: Router<U>, e: Event<U>, u: U)
  {
    e.Call? && Apply(r, e).index != r.index && Route(r, e.user, e.session).1 == Chosen(u)
  }

  /** How many calls of a run do. */
  ghost function GivenByDraw<U>(r: Router<U>, events: seq<Event<U>>, u: U): nat
    decreases |events|
  {
    if events == [] then 0
    else (if DrawsIt(r, events[0], u) then 1 else 0) + GivenByDraw(Apply(r, events[0]), events[1..], u)
  }

  lemma EventIsDraw<U>(r: Router<U>, e: Event<U>, u: U)
    requires r.upstreams != [] && r.index < TICKETS && !e.NewUpstreams?
    ensures Apply(r, e).upstreams == r.upstreams && Apply(r, e).index < TICKETS
    ensures Apply(r, e).index != r.index ==>
      Apply(r, e).index == Draw(r).0.index && (DrawsIt(r, e, u) <==> Draw(r).1 == Chosen(u))
  {
    IndexMoves(r);
  }

  /** The calls that draw, sticky or not, are given the upstreams of consecutive
      draws, whatever calls without a draw, drops and verifications come between. */
  lemma {:induction false} RunsDraw<U>(r: Router<U>, events: seq<Event<U>>, u: U)
    requires r.upstreams != [] && r.index < TICKETS && forall e :: e in events ==> !e.NewUpstreams?
    ensures GivenByDraw(r, events, u) == Returned(r, Drawn(r, events), u)
    decreases |events|
  {
    if events != [] {
      var e := events[0];
      assert e in events;
      FirstEvent(r, events, u);
      EventIsDraw(r, e, u);
      RunsDraw(Apply(r, events[0]), events[1..], u);
      OneMoreEvent(r, events[0], Drawn(Apply(r, events[0]), events[1..]), u);
    }
  }

  lemma FirstEvent<U>(r: Router<U>, events: seq<Event<U>>, u: U)
    requires events != []
    ensures var next := Apply(r, events[0]);
            && GivenByDraw(r, events, u) == (if DrawsIt(r, events[0], u) then 1 else 0) + GivenByDraw(next, events[1..], u)
            && Drawn(r, events) == (if next.index != r.index then 1 else 0) + Drawn(next, events[1..])
  {}

  lemma OneMoreEvent<U>(r: Router<U>, e: Event<U>, k: nat, u: U)
    requires r.upstreams != [] && r.index < TICKETS && !e.NewUpstreams?
    ensures Returned(r, (if Apply(r, e).index != r.index then 1 else 0) + k, u)
         == (if DrawsIt(r, e, u) then 1 else 0) + Returned(Apply(r, e), k, u)
  {
    EventIsDraw(r, e, u);
    if Apply(r, e).index != r.index {
      ReturnedFirst(r, k, u);
      IndexMoves(r);
      ReturnedSame(Draw(r).0, Apply(r, e), k, u);
    } else {
      ReturnedSame(r, Apply(r, e), k, u);
    }
  }

  /** In every run on one list of distinct upstreams each of them is given to
      floor(k/n) or ceil(k/n) of the k calls that draw, if these do not wrap the
      counter or n divides 2^64. */
  lemma CallsAreFair<U>(r: Router<U>, events: seq<Event<U>>, u: U)
    requires u in r.upstreams && Distinct(r.upstreams) && r.index < TICKETS
    requires forall e :: e in events ==> !e.NewUpstreams?
    requires r.index + Drawn(r, events) <= TICKETS || TICKETS % |r.upstreams| == 0
    ensures var k := Drawn(r, events);
            k / |r.upstreams| <= GivenByDraw(r, events, u) <= Ceiling(k, |r.upstreams|)
  {
    var p :| 0 <= p < |r.upstreams| && r.upstreams[p] == u;
    RunsDraw(r, events, u);
    ReturnedTimes(r, Drawn(r, events), p);
    DrawsAreFair(r, Drawn(r, events), p);
  }

  /** A call without a session draws whenever there is an upstream. */
  lemma PlainCallDraws<U>(r: Router<U>, user: string, session: string)
    requires r.upstreams != [] && r.index < TICKETS && (session == "" || user !in r.users)
    ensures Apply(r, Call(user, session)).index != r.index
    ensures Route(r, user, session).1 == Chosen(r.upstreams[r.index % |r.upstreams|])
  {
    IndexMoves(r);
  }

  /** Consecutive draws go to neighbouring positions, also when the 64-bit
      counter wraps, exactly if it does not wrap or the number of upstreams
      divides 2^64. */
  lemma NeighbouringDraws(t: nat, n: nat)
    requires 0 < n && t < TICKETS
    ensures ((t + 1) % TICKETS) % n == (t % n + 1) % n <==> t + 1 < TICKETS || TICKETS % n == 0
  {
    Successor(t, n);
    if t + 1 < TICKETS {
      NextTicket(t);
    } else {
      assert (t + 1) % TICKETS == 0;
      DivMod(0, n, 0, 0);
    }
  }

  lemma Successor(t: nat, n: nat)
    requires 0 < n
    ensures (t + 1) % n == (t % n + 1) % n
  {
    var q, r := t / n, t % n;
    Euclid(t, n);
    if r + 1 < n {
      DivMod(t + 1, n, q, r + 1);
      DivMod(r + 1, n, 0, r + 1);
    } else {
      assert (q + 1) * n == q * n + n;
      DivMod(t + 1, n, q + 1, 0);
      DivMod(n, n, 1, 0);
    }
  }
}
