// The cache of verified users among concurrent calls. GetUser and the cleanup loop
// take an entry out of the map, compare its expiry with the clock and only then
// remove the user, by name; the resetting loop copies the map and writes each
// entry back some time later. Meanwhile the user may have been removed, or cached
// anew.
module UserCache {

  /** An entry of the cache and when it expires. */
  datatype Entry = Entry(obj: nat, expireAt: int)

  // GetUser lets an entry expire at its time, the cleanup loop only after it.
  datatype Via = Lookup | Cleanup

  /** An entry somebody has read, and is about to compare with the clock. */
  datatype Copy = Copy(via: Via, user: string, entry: Entry)

  /** held are the entries the resetting loop has copied and not yet written back,
      writing that it has copied them all. */
  datatype State = State(
    now: int,
    cache: map<string, Entry>,
    copies: set<Copy>,
    held: map<string, Entry>,
    writing: bool)

  datatype Step =
    | Clock(now: int)
    | Read(via: Via, user: string)      // Get, or the entry's turn in the snapshot
    | Remove(copy: Copy)                // the test of an expired copy, and RemoveUser
    | Keep(copy: Copy)                  // the test of one that has not expired
    | SetUser(user: string, entry: Entry)
    | RemoveUser(user: string)
    | Snapshot(user: string)            // Items reaches the user
    | Copied                            // Items returns
    | WriteBack(user: string)           // Set of the entry in that copy

  predicate Gone(via: Via, entry: Entry, now: int)
  {
    if via == Lookup then now >= entry.expireAt else now > entry.expireAt
  }

  predicate Enabled(s: State, step: Step)
  {
    match step
    case Clock(now) => now >= s.now
    case Read(_, user) => user in s.cache
    case Remove(copy) => copy in s.copies && Gone(copy.via, copy.entry, s.now)
    case Keep(copy) => copy in s.copies && !Gone(copy.via, copy.entry, s.now)
    case SetUser(_, _) => true
    case RemoveUser(_) => true
    case Snapshot(user) => !s.writing && user in s.cache && user !in s.held
    case Copied => !s.writing && s.held != map[]
    case WriteBack(user) => s.writing && user in s.held
  }

  function After(s: State, step: Step): State
    requires Enabled(s, step)
  {
    match step
    case Clock(now) => s.(now := now)
    case Read(via, user) => s.(copies := s.copies + {Copy(via, user, s.cache[user])})
    case Remove(copy) => s.(cache := s.cache - {copy.user}, copies := s.copies - {copy})
    case Keep(copy) => s.(copies := s.copies - {copy})
    case SetUser(user, entry) => s.(cache := s.cache[user := entry])
    case RemoveUser(user) => s.(cache := s.cache - {user})
    case Snapshot(user) => s.(held := s.held[user := s.cache[user]])
    case Copied => s.(writing := true)
    case WriteBack(user) =>
      var rest := s.held - {user};
      s.(cache := s.cache[user := s.held[user]], held := rest, writing := rest != map[])
  }

  ghost predicate Run(s: State, steps: seq<Step>, t: State)
    decreases |steps|
  {
    if steps == [] then s == t
    else Enabled(s, steps[0]) && Run(After(s, steps[0]), steps[1..], t)
  }

  /** Nobody verifies the user. */
  predicate Unverified(steps: seq<Step>, user: string)
  {
    forall step :: step in steps && step.SetUser? ==> step.user != user
  }

  /** Nor removes the user on purpose. */
  predicate LeftAlone(steps: seq<Step>, user: string)
  {
    Unverified(steps, user) && forall step :: step in steps && step.RemoveUser? ==> step.user != user
  }

  /** A lookup or a cleanup that nobody interrupts: the user stays exactly if the
      entry has not expired, for a lookup at its time, for the cleanup after it. */
  lemma Undisturbed(s: State, user: string)
    requires user in s.cache
    ensures var looked := After(s, Read(Lookup, user));
            var copy := Copy(Lookup, user, s.cache[user]);
            if s.now < s.cache[user].expireAt
            then Enabled(looked, Keep(copy)) && !Enabled(looked, Remove(copy)) && After(looked, Keep(copy)).cache == s.cache
            else Enabled(looked, Remove(copy)) && !Enabled(looked, Keep(copy))
                 && After(looked, Remove(copy)).cache == s.cache - {user}
    ensures var read := After(s, Read(Cleanup, user));
            var copy := Copy(Cleanup, user, s.cache[user]);
            if s.now <= s.cache[user].expireAt
            then Enabled(read, Keep(copy)) && !Enabled(read, Remove(copy)) && After(read, Keep(copy)).cache == s.cache
            else Enabled(read, Remove(copy)) && !Enabled(read, Keep(copy))
                 && After(read, Remove(copy)).cache == s.cache - {user}
  {}

  // ---- when a cached entry stays until it expires ----------------------

  predicate Holds(s: State, user: string, entry: Entry) { user in s.cache && s.cache[user] == entry }

  /** The copy can expire, and the user be removed by it, before the entry does. */
  predicate Outdated(copy: Copy, entry: Entry)
  {
    if copy.via == Lookup then copy.entry.expireAt < entry.expireAt else copy.entry.expireAt + 1 < entry.expireAt
  }

  /** The entry stays cached until it expires, in every continuation. */
  ghost predicate KeptUntilExpired(s: State, user: string, entry: Entry)
  {
    forall steps, t :: Run(s, steps, t) && LeftAlone(steps, user) && t.now < entry.expireAt ==> Holds(t, user, entry)
  }

  ghost predicate NoOutdatedCopy(s: State, user: string, entry: Entry)
  {
    forall copy :: copy in s.copies && copy.user == user ==> !Outdated(copy, entry)
  }

  /** The resetting loop is not about to write another entry of the user. */
  predicate HoldsNoOther(s: State, user: string, entry: Entry)
  {
    user in s.held ==> s.held[user] == entry
  }

  lemma StepKept(s: State, step: Step, user: string, entry: Entry)
    requires Holds(s, user, entry) && NoOutdatedCopy(s, user, entry) && HoldsNoOther(s, user, entry)
    requires Enabled(s, step) && s.now < entry.expireAt
    requires (step.SetUser? ==> step.user != user) && (step.RemoveUser? ==> step.user != user)
    ensures var t := After(s, step); Holds(t, user, entry) && NoOutdatedCopy(t, user, entry) && HoldsNoOther(t, user, entry)
  {}

  lemma {:induction false} ClockForward(s: State, steps: seq<Step>, t: State)
    requires Run(s, steps, t)
    ensures s.now <= t.now
    decreases |steps|
  {
    if steps != [] {
      ClockForward(After(s, steps[0]), steps[1..], t);
    }
  }

  lemma {:induction false} RunKept(s: State, steps: seq<Step>, t: State, user: string, entry: Entry)
    requires Holds(s, user, entry) && NoOutdatedCopy(s, user, entry) && HoldsNoOther(s, user, entry)
    requires Run(s, steps, t) && LeftAlone(steps, user) && t.now < entry.expireAt
    ensures Holds(t, user, entry)
    decreases |steps|
  {
    if steps != [] {
      assert steps[0] in steps;
      ClockForward(s, steps, t);
      ClockForward(After(s, steps[0]), steps[1..], t);
      StepKept(s, steps[0], user, entry);
      RunKept(After(s, steps[0]), steps[1..], t, user, entry);
    }
  }

  lemma OneStep(s: State, step: Step)
    requires Enabled(s, step)
    ensures Run(s, [step], After(s, step))
  {
    assert [step][1..] == [];
  }

  /** The loop finishes copying and writes the entry it holds. */
  lemma Returns(s: State, user: string) returns (steps: seq<Step>, t: State)
    requires user in s.held
    ensures Run(s, steps, t) && LeftAlone(steps, user) && t.now == s.now && Holds(t, user, s.held[user])
  {
    if s.writing {
      t := After(s, WriteBack(user));
      steps := [WriteBack(user)];
      OneStep(s, WriteBack(user));
    } else {
      var s1 := After(s, Copied);
      t := After(s1, WriteBack(user));
      steps := [Copied, WriteBack(user)];
      assert steps[1..] == [WriteBack(user)];
      OneStep(s1, WriteBack(user));
    }
  }

  /** Time passes until the copy expires, then it removes the user. */
  lemma OutdatedRemoves(s: State, copy: Copy, entry: Entry) returns (steps: seq<Step>, t: State)
    requires copy in s.copies && Outdated(copy, entry) && s.now < entry.expireAt
    ensures Run(s, steps, t) && LeftAlone(steps, copy.user) && t.now < entry.expireAt && copy.user !in t.cache
  {
    var due := if copy.via == Lookup then copy.entry.expireAt else copy.entry.expireAt + 1;
    var now := if due > s.now then due else s.now;
    var s1 := After(s, Clock(now));
    t := After(s1, Remove(copy));
    steps := [Clock(now), Remove(copy)];
    assert steps[1..] == [Remove(copy)];
    OneStep(s1, Remove(copy));
  }

  /** A cached user who has not expired stays cached as it is until then, whatever
      lookups, cleanups and resets run, exactly when nobody still holds a copy of
      an entry of that user that expires earlier, and the resetting loop is not
      about to write back another one. */
  lemma KeptExactly(s: State, user: string, entry: Entry)
    requires Holds(s, user, entry) && s.now < entry.expireAt
    ensures KeptUntilExpired(s, user, entry) <==> NoOutdatedCopy(s, user, entry) && HoldsNoOther(s, user, entry)
  {
    if !HoldsNoOther(s, user, entry) {
      var steps, t := Returns(s, user);
      assert Run(s, steps, t);
    } else if !NoOutdatedCopy(s, user, entry) {
      var copy :| copy in s.copies && copy.user == user && Outdated(copy, entry);
      var steps, t := OutdatedRemoves(s, copy, entry);
      assert Run(s, steps, t);
    } else {
      forall steps, t | Run(s, steps, t) && LeftAlone(steps, user) && t.now < entry.expireAt ensures Holds(t, user, entry) {
        RunKept(s, steps, t, user, entry);
      }
    }
  }

  // ---- when a removed user stays removed -------------------------------

  /** Nobody is cached under the name until somebody verifies the user. */
  ghost predicate StaysRemoved(s: State, user: string)
  {
    forall steps, t :: Run(s, steps, t) && Unverified(steps, user) ==> user !in t.cache
  }

  lemma {:induction false} RunRemoved(s: State, steps: seq<Step>, t: State, user: string)
    requires user !in s.cache && user !in s.held && Run(s, steps, t) && Unverified(steps, user)
    ensures user !in t.cache
    decreases |steps|
  {
    if steps != [] {
      assert steps[0] in steps;
      RunRemoved(After(s, steps[0]), steps[1..], t, user);
    }
  }

  /** A removed user stays removed exactly when the resetting loop holds no entry
      of that user. */
  lemma RemovedExactly(s: State, user: string)
    requires user !in s.cache
    ensures StaysRemoved(s, user) <==> user !in s.held
  {
    if user in s.held {
      var steps, t := Returns(s, user);
      assert Run(s, steps, t);
    } else {
      forall steps, t | Run(s, steps, t) && Unverified(steps, user) ensures user !in t.cache {
        RunRemoved(s, steps, t, user);
      }
    }
  }

  // ---- failing runs ----------------------------------------------------

  /** A user verified again while the cleanup loop holds the old entry is dropped
      at once. */
  lemma FreshUserDropped(user: string, hour: int) returns (s: State, steps: seq<Step>, t: State)
    requires hour > 1
    ensures s == State(0, map[user := Entry(0, 0)], {}, map[], false) && |steps| == 4
    ensures steps[0] == Read(Cleanup, user) && steps[2] == SetUser(user, Entry(1, 1 + hour))
    ensures Enabled(s, steps[0])
    ensures var s1 := After(s, steps[0]);
            && Enabled(s1, steps[1]) && Enabled(After(s1, steps[1]), steps[2])
            && var s3 := After(After(s1, steps[1]), steps[2]);
            && Holds(s3, user, Entry(1, 1 + hour)) && Enabled(s3, steps[3])
            && t == After(s3, steps[3]) && t.now < 1 + hour && user !in t.cache
  {
    s := State(0, map[user := Entry(0, 0)], {}, map[], false);
    steps := [Read(Cleanup, user), Clock(1), SetUser(user, Entry(1, 1 + hour)), Remove(Copy(Cleanup, user, Entry(0, 0)))];
    var s1 := After(s, steps[0]);
    var s3 := After(After(s1, steps[1]), steps[2]);
    t := After(s3, steps[3]);
  }

  /** A user removed, or removed and verified again, while the resetting loop holds
      the old entry has it back after the write: removed users return, and fresh
      ones expire as early as before. */
  lemma OldEntryReturns(user: string, before: Entry, anew: Entry, now: int)
    requires before != anew
    ensures var s := State(now, map[user := before], {}, map[], false);
            var s1 := After(After(s, Snapshot(user)), Copied);
            var s2 := After(s1, RemoveUser(user));
            var s3 := After(s2, SetUser(user, anew));
            && user !in s2.cache && After(s2, WriteBack(user)) == s
            && Holds(s3, user, anew) && s3.copies == {} && After(s3, WriteBack(user)) == s
  {
    var s := State(now, map[user := before], {}, map[], false);
    var s1 := After(s, Snapshot(user));
    assert s1.held == map[user := before] && s1.held != map[];
    var s2 := After(After(s1, Copied), RemoveUser(user));
    var s3 := After(s2, SetUser(user, anew));
    assert s2.held - {user} == map[];
    assert After(s2, WriteBack(user)).cache == map[user := before] == After(s3, WriteBack(user)).cache;
  }
}
