// The worker's decision which destinations go through an upstream: the walk over
// the suffixes of a host name, and the success and failure counters of the
// background probes.
module Checker {
  import opened Wrappers
  import opened Strings

  // ---- the suffix walk -------------------------------------------------

  /** Some suffix of the host that starts the host or follows a dot, and still
      contains a dot, is listed. */
  ghost predicate SuffixListed(host: string, list: set<string>)
  {
    exists k :: SuffixAt(host, k) && host[k..] in list
  }

  predicate SuffixAt(host: string, k: int)
  {
    0 <= k < |host| && (k == 0 || host[k - 1] == '.') && '.' in host[k..]
  }

  ghost predicate LabelsListed(labels: seq<string>, list: set<string>)
  {
    exists i :: 0 <= i < |labels| - 1 && Join(labels[i..], '.') in list
  }

  /** The walk over the labels, from the last two to all of them. */
  method WalkLabels(domainSlice: seq<string>, list: set<string>) returns (found: bool)
    ensures found <==> LabelsListed(domainSlice, list)
  {
    if |domainSlice| > 1 {
      var subSlice := domainSlice[..|domainSlice| - 1];
      var checkDomain := Join(domainSlice[|domainSlice| - 1..], '.');
      var i := |subSlice| - 1;
      while i >= 0
        invariant -1 <= i < |subSlice|
        invariant checkDomain == Join(domainSlice[i + 1..], '.')
        invariant forall j :: i < j < |subSlice| ==> Join(domainSlice[j..], '.') !in list
      {
        JoinOneMore(domainSlice, i);
        checkDomain := subSlice[i] + "." + checkDomain;
        if checkDomain in list {
          return true;
        }
        i := i - 1;
      }
    }
    found := false;
  }

  /** domainIsInMap. hostname is the parsed host, None when the address does not
      parse, which counts as listed. */
  method DomainIsInMap(hostname: Option<string>, list: set<string>) returns (found: bool)
    ensures found <==> hostname.None? || SuffixListed(hostname.value, list)
  {
    if hostname.None? {
      return true;
    }
    LabelsAreSuffixes(hostname.value, list);
    found := WalkLabels(Split(hostname.value, '.'), list);
  }

  lemma JoinOneMore(labels: seq<string>, i: nat)
    requires i + 1 < |labels|
    ensures Join(labels[i..], '.') == labels[i] + "." + Join(labels[i + 1..], '.')
  {
    assert labels[i..][1..] == labels[i + 1..];
  }

  lemma {:induction false} FirstDot(host: string) returns (d: nat)
    requires '.' in host
    ensures d < |host| && host[d] == '.' && '.' !in host[..d]
  {
    d := 0;
    while host[d] != '.'
      invariant d < |host| && '.' !in host[..d]
      invariant '.' in host[d..]
      decreases |host| - d
    {
      d := d + 1;
    }
  }

  /** The suffixes the loop builds label by label are the dot-suffixes of the
      host with at least two labels. */
  lemma {:induction false} LabelsAreSuffixes(host: string, list: set<string>)
    ensures LabelsListed(Split(host, '.'), list) <==> SuffixListed(host, list)
    decreases |host|
  {
    if '.' in host {
      var d := FirstDot(host);
      var head, rest := host[..d], host[d + 1..];
      var labels := Split(host, '.');
      assert host == head + ['.'] + rest;
      SplitConcat(head, '.', rest);
      SplitFree(head, '.');
      JoinSplit(host, '.');
      LabelsAreSuffixes(rest, list);
      LabelsShift(head, Split(rest, '.'), list);
      SuffixShift(host, d, list);
      assert labels[0..] == labels;
    } else {
      SplitFree(host, '.');
      forall k | 0 <= k < |host| ensures !SuffixAt(host, k) {
        assert forall c :: c in host[k..] ==> c in host;
      }
    }
  }

  lemma LabelsShift(head: string, rest: seq<string>, list: set<string>)
    requires rest != []
    ensures LabelsListed([head] + rest, list) <==> Join([head] + rest, '.') in list || LabelsListed(rest, list)
  {
    var labels := [head] + rest;
    assert labels[0..] == labels;
    forall i | 0 <= i < |rest| - 1 ensures labels[i + 1..] == rest[i..] {}
    if i :| 0 <= i < |labels| - 1 && Join(labels[i..], '.') in list {
      if i > 0 {
        assert labels[i..] == rest[i - 1..];
      }
    }
    if i :| 0 <= i < |rest| - 1 && Join(rest[i..], '.') in list {
      assert labels[i + 1..] == rest[i..];
    }
  }

  lemma SuffixShift(host: string, d: nat, list: set<string>)
    requires d < |host| && host[d] == '.' && '.' !in host[..d]
    ensures SuffixListed(host, list) <==> host in list || SuffixListed(host[d + 1..], list)
  {
    var rest := host[d + 1..];
    assert host[0..] == host;
    assert '.' in host;
    assert SuffixAt(host, 0);
    if k :| SuffixAt(host, k) && host[k..] in list {
      if k > 0 {
        assert k > d;
        assert host[k..] == rest[k - d - 1..];
        assert SuffixAt(rest, k - d - 1);
      }
    }
    if k :| SuffixAt(rest, k) && rest[k..] in list {
      assert host[k + d + 1..] == rest[k..];
      assert SuffixAt(host, k + d + 1);
    }
  }

  /** Matching is closed under adding labels in front and monotone in the list. */
  lemma MatchingIsClosed(front: string, host: string, list: set<string>, more: set<string>)
    requires SuffixListed(host, list) && list <= more
    ensures SuffixListed(front + "." + host, more)
  {
    var k :| SuffixAt(host, k) && host[k..] in list;
    var sub := front + "." + host;
    assert sub[k + |front| + 1..] == host[k..];
    assert SuffixAt(sub, k + |front| + 1);
  }

  /** A listed name matches itself and all names below it, if it has a dot; a name
      without one, as that of a top-level domain, matches nothing. */
  lemma ListedNameMatches(host: string, name: string)
    ensures SuffixListed(host, {name}) <==> '.' in name && (host == name || exists front :: host == front + "." + name)
  {
    if k :| SuffixAt(host, k) && host[k..] == name {
      if k > 0 {
        assert host == host[..k - 1] + "." + name;
      } else {
        assert host[0..] == host;
      }
    }
    if '.' in name && host == name {
      assert host[0..] == host;
      assert SuffixAt(host, 0);
    }
    if front :| '.' in name && host == front + "." + name {
      assert host[|front| + 1..] == name && host[|front|] == '.';
      assert SuffixAt(host, |front| + 1);
    }
  }

  /** And a list matches what one of its names does. */
  lemma ListMatches(host: string, list: set<string>)
    ensures SuffixListed(host, list) <==> exists name :: name in list && SuffixListed(host, {name})
  {
    if k :| SuffixAt(host, k) && host[k..] in list {
      assert SuffixListed(host, {host[k..]});
    }
  }

  // ---- the counters ----------------------------------------------------

  datatype Item = Item(success: nat, fail: nat)

  const MIN_COUNT := 5

  /** isNeedCheck for a host that is in neither list. */
  predicate NeedCheck(item: Item)
  {
    !((item.success >= MIN_COUNT && item.success > item.fail) || (item.fail >= MIN_COUNT && item.success > item.fail))
  }

  function Probed(item: Item, ok: bool): Item
  {
    if ok then item.(success := item.success + 1) else item.(fail := item.fail + 1)
  }

  // ---- the object ------------------------------------------------------

  class Checker {
    const parse: string -> Option<string>   // url.Parse and Hostname
    const blockedMap: set<string>
    const directMap: set<string>
    var data: map<string, Item>

    constructor (parse: string -> Option<string>, blockedMap: set<string>, directMap: set<string>)
      ensures this.parse == parse && this.blockedMap == blockedMap && this.directMap == directMap && data == map[]
    {
      this.parse, this.blockedMap, this.directMap, data := parse, blockedMap, directMap, map[];
    }

    ghost predicate Listed(address: string, list: set<string>)
    {
      parse(address).None? || SuffixListed(parse(address).value, list)
    }

    /** SetIfAbsent keeps the counters of a host that is already known. */
    method Add(address: string, isHTTPS: bool, isGet: bool)
      modifies this`data
      ensures data == if Listed(address, directMap) || Listed(address, blockedMap) || (!isHTTPS && !isGet) || address in old(data)
                      then old(data) else old(data)[address := Item(0, 0)]
    {
      var direct := DomainIsInMap(parse(address), directMap);
      if direct {
        return;
      }
      var blocked := DomainIsInMap(parse(address), blockedMap);
      if blocked {
        return;
      }
      if !isHTTPS && !isGet {
        return;
      }
      if address !in data {
        data := data[address := Item(0, 0)];
      }
    }

    method IsNeedCheck(host: string, item: Item) returns (need: bool)
      ensures need <==> NeedCheck(item) && !Listed(host, directMap) && !Listed(host, blockedMap)
    {
      if (item.success >= 5 && item.success > item.fail) || (item.fail >= 5 && item.success > item.fail) {
        return false;
      }
      var direct := DomainIsInMap(parse(host), directMap);
      if direct {
        return false;
      }
      var blocked := DomainIsInMap(parse(host), blockedMap);
      need := !blocked;
    }

    /** The blocked list wins over the direct list, both over the counters, and a
        host never seen counts as blocked, as does one whose successes do not
        outnumber its failures. */
    method IsBlocked(address: string) returns (blocked: bool, failN: nat, successN: nat)
      ensures blocked <==>
        Listed(address, blockedMap) || (!Listed(address, directMap) && (address !in data || data[address].success <= data[address].fail))
      ensures (failN, successN) ==
        if Listed(address, blockedMap) || Listed(address, directMap) || address !in data then (0, 0)
        else (data[address].fail, data[address].success)
    {
      var inBlocked := DomainIsInMap(parse(address), blockedMap);
      if inBlocked {
        return true, 0, 0;
      }
      var inDirect := DomainIsInMap(parse(address), directMap);
      if inDirect {
        return false, 0, 0;
      }
      if address !in data {
        return true, 0, 0;
      }
      var item := data[address];
      blocked, failN, successN := item.fail >= item.success, item.fail, item.success;
    }

    /** The listener's decision for a destination: it makes the host known and asks
        for the verdict. The first time, an unlisted host goes through an upstream;
        later on it does until its successes outnumber its failures. */
    method UseProxy(hasUpstreams: bool, always: bool, address: string) returns (useProxy: bool)
      modifies this`data
      ensures !hasUpstreams ==> !useProxy && data == old(data)
      ensures hasUpstreams && always ==> useProxy && data == old(data)
      ensures hasUpstreams && !always && Listed(address, blockedMap) ==> useProxy && data == old(data)
      ensures hasUpstreams && !always && Listed(address, directMap) && !Listed(address, blockedMap) ==>
        !useProxy && data == old(data)
      ensures hasUpstreams && !always && !Listed(address, directMap) && !Listed(address, blockedMap) ==>
        && (address !in old(data) ==> useProxy && data == old(data)[address := Item(0, 0)])
        && (address in old(data) ==>
              data == old(data) && (!useProxy <==> old(data)[address].success > old(data)[address].fail))
    {
      useProxy := false;
      if hasUpstreams {
        if always {
          useProxy := true;
        } else {
          Add(address, true, false);
          var blocked, _, _ := IsBlocked(address);
          useProxy := blocked;
        }
      }
    }

    /** What one probe goroutine does with its copy of an item. */
    method Probe(host: string, copy: Item, ok: bool)
      modifies this`data
      ensures data == if NeedCheck(copy) && !Listed(host, directMap) && !Listed(host, blockedMap)
                      then old(data)[host := Probed(copy, ok)] else old(data)
    {
      var need := IsNeedCheck(host, copy);
      if need {
        var item := copy;
        if ok {
          item := item.(success := item.success + 1);
        } else {
          item := item.(fail := item.fail + 1);
        }
        data := data[host := item];
      }
    }
  }

  // ---- runs of overlapping rounds --------------------------------------

  /** The stored items, the copies held by goroutines that have not finished,
      and how many probes of each host have completed. */
  datatype State = State(data: map<string, Item>, flight: multiset<(string, Item)>, probes: map<string, nat>)

  datatype Step =
    | Seen(host: string)                                // Add of an unlisted host
    | StartRound                                        // Items, one goroutine an item
    | Finish(host: string, copy: Item, ok: bool)        // a goroutine ends

  predicate Enabled(s: State, step: Step)
  {
    step.Finish? ==> (step.host, step.copy) in s.flight
  }

  function Copies(data: map<string, Item>): set<(string, Item)>
  {
    set h | h in data :: (h, data[h])
  }

  function Done(s: State, host: string): nat
  {
    if host in s.probes then s.probes[host] else 0
  }

  function After(s: State, step: Step): State
    requires Enabled(s, step)
  {
    match step
    case Seen(host) => if host in s.data then s else s.(data := s.data[host := Item(0, 0)])
    case StartRound => s.(flight := s.flight + multiset(Copies(s.data)))
    case Finish(host, copy, ok) =>
      var rest := s.(flight := s.flight - multiset{(host, copy)});
      if NeedCheck(copy) then rest.(data := s.data[host := Probed(copy, ok)], probes := s.probes[host := Done(s, host) + 1])
      else rest
  }

  const NOTHING_SEEN := State(map[], multiset{}, map[])

  ghost predicate Run(s: State, steps: seq<Step>, t: State)
    decreases |steps|
  {
    if steps == [] then s == t else Enabled(s, steps[0]) && Run(After(s, steps[0]), steps[1..], t)
  }

  /** No host is probed far past the point where it is settled. */
  predicate Plausible(item: Item)
  {
    item.success <= MIN_COUNT || item.success <= item.fail + 1
  }

  ghost predicate AllPlausible(s: State)
  {
    (forall h :: h in s.data ==> Plausible(s.data[h])) && (forall p :: p in s.flight ==> Plausible(p.1))
  }

  lemma {:induction false} RunPlausible(s: State, steps: seq<Step>, t: State)
    requires AllPlausible(s) && Run(s, steps, t)
    ensures AllPlausible(t)
    decreases |steps|
  {
    if steps != [] {
      RunPlausible(After(s, steps[0]), steps[1..], t);
    }
  }

  /** In every run, however rounds overlap and stale copies are written back. */
  lemma SuccessesBounded(steps: seq<Step>, t: State, host: string)
    requires Run(NOTHING_SEEN, steps, t) && host in t.data
    ensures t.data[host].success <= 5 || t.data[host].success <= t.data[host].fail + 1
  {
    RunPlausible(NOTHING_SEEN, steps, t);
  }

  /** Probing goes on until a host has five successes and more successes than
      failures; in particular a host judged blocked is still probed. */
  lemma ProbingStops(item: Item)
    ensures !NeedCheck(item) <==> item.success >= 5 && item.success > item.fail
    ensures item.success <= item.fail ==> NeedCheck(item)
  {}

  // ---- rounds that do not overlap --------------------------------------

  /** Each round starts when the goroutines of the one before have finished. */
  ghost predicate OrderlyRun(s: State, steps: seq<Step>, t: State)
    decreases |steps|
  {
    if steps == [] then s == t
    else Enabled(s, steps[0]) && (steps[0].StartRound? ==> s.flight == multiset{})
         && OrderlyRun(After(s, steps[0]), steps[1..], t)
  }

  ghost predicate Fresh(s: State)
  {
    && (forall h :: h in s.probes ==> h in s.data)
    && (forall h :: h in s.data ==> s.data[h].success + s.data[h].fail == Done(s, h))
    && (forall p :: p in s.flight ==> p.0 in s.data && p.1 == s.data[p.0] && s.flight[p] == 1)
  }

  lemma RoundFresh(s: State)
    requires Fresh(s) && s.flight == multiset{}
    ensures Fresh(After(s, StartRound))
  {
    var flight := multiset(Copies(s.data));
    assert s.flight + flight == flight;
    forall p | p in flight ensures p.0 in s.data && p.1 == s.data[p.0] && flight[p] == 1 {
      assert p in Copies(s.data);
    }
  }

  lemma FinishFresh(s: State, host: string, copy: Item, ok: bool)
    requires Fresh(s) && (host, copy) in s.flight
    ensures Fresh(After(s, Finish(host, copy, ok)))
  {
    var t := After(s, Finish(host, copy, ok));
    forall p | p in t.flight ensures p.0 in t.data && p.1 == t.data[p.0] && t.flight[p] == 1 {
      assert p in s.flight && p != (host, copy);
      assert p.0 != host;
    }
  }

  lemma StepFresh(s: State, step: Step)
    requires Fresh(s) && Enabled(s, step) && (step.StartRound? ==> s.flight == multiset{})
    ensures Fresh(After(s, step))
  {
    match step
    case Seen(_) =>
    case StartRound => RoundFresh(s);
    case Finish(host, copy, ok) => FinishFresh(s, host, copy, ok);
  }

  lemma {:induction false} OrderlyFresh(s: State, steps: seq<Step>, t: State)
    requires Fresh(s) && OrderlyRun(s, steps, t)
    ensures Fresh(t)
    decreases |steps|
  {
    if steps != [] {
      StepFresh(s, steps[0]);
      OrderlyFresh(After(s, steps[0]), steps[1..], t);
    }
  }

  /** When rounds do not overlap every completed probe is counted. */
  lemma ProbesCounted(steps: seq<Step>, t: State, host: string)
    requires OrderlyRun(NOTHING_SEEN, steps, t) && host in t.data
    ensures t.data[host].success + t.data[host].fail == Done(t, host)
  {
    OrderlyFresh(NOTHING_SEEN, steps, t);
  }

  /** How many probes of the host have ended so, of those that were sent: a copy
      with five successes that outnumber its failures is not probed. */
  function Outcomes(steps: seq<Step>, host: string, ok: bool): nat
    decreases |steps|
  {
    if steps == [] then 0
    else
      var e := steps[0];
      (if e.Finish? && e.host == host && e.ok == ok && (e.copy.success < 5 || e.copy.success <= e.copy.fail) then 1 else 0)
      + Outcomes(steps[1..], host, ok)
  }

  function Stored(data: map<string, Item>, host: string): Item
  {
    if host in data then data[host] else Item(0, 0)
  }

  lemma StepCounted(s: State, step: Step, host: string)
    requires Fresh(s) && Enabled(s, step)
    ensures Stored(After(s, step).data, host)
         == Item(Stored(s.data, host).success + Outcomes([step], host, true), Stored(s.data, host).fail + Outcomes([step], host, false))
  {
    assert [step][1..] == [];
    if step.Finish? {
      ProbingStops(step.copy);
    }
  }

  lemma OutcomesCons(steps: seq<Step>, host: string, ok: bool)
    requires steps != []
    ensures Outcomes(steps, host, ok) == Outcomes([steps[0]], host, ok) + Outcomes(steps[1..], host, ok)
  {
    assert [steps[0]][1..] == [];
  }

  lemma {:induction false} OrderlyCounts(s: State, steps: seq<Step>, t: State, host: string)
    requires Fresh(s) && OrderlyRun(s, steps, t)
    ensures Stored(t.data, host)
         == Item(Stored(s.data, host).success + Outcomes(steps, host, true), Stored(s.data, host).fail + Outcomes(steps, host, false))
    decreases |steps|
  {
    if steps != [] {
      StepFresh(s, steps[0]);
      StepCounted(s, steps[0], host);
      OutcomesCons(steps, host, true);
      OutcomesCons(steps, host, false);
      OrderlyCounts(After(s, steps[0]), steps[1..], t, host);
    }
  }

  /** When rounds do not overlap, the counters of a host are its succeeded and its
      failed probes, so that it is judged not blocked exactly if more succeeded. */
  lemma VerdictIsMajority(steps: seq<Step>, t: State, host: string)
    requires OrderlyRun(NOTHING_SEEN, steps, t) && host in t.data
    ensures t.data[host].success == Outcomes(steps, host, true) && t.data[host].fail == Outcomes(steps, host, false)
    ensures t.data[host].success > t.data[host].fail <==> Outcomes(steps, host, true) > Outcomes(steps, host, false)
  {
    OrderlyCounts(NOTHING_SEEN, steps, t, host);
  }

  // ---- when a settled verdict stays ------------------------------------

  /** No unfinished goroutine holds a copy of the host that it would write back. */
  ghost predicate NoStaleCopy(s: State, host: string)
  {
    forall p :: p in s.flight && p.0 == host ==> !NeedCheck(p.1)
  }

  lemma {:induction false} SettledStays(s: State, steps: seq<Step>, t: State, host: string)
    requires host in s.data && !NeedCheck(s.data[host]) && NoStaleCopy(s, host) && Run(s, steps, t)
    ensures host in t.data && t.data[host] == s.data[host]
    decreases |steps|
  {
    if steps != [] {
      SettledStays(After(s, steps[0]), steps[1..], t, host);
    }
  }

  ghost predicate Unmoved(s: State, host: string)
    requires host in s.data
  {
    forall steps, t :: Run(s, steps, t) ==> host in t.data && t.data[host] == s.data[host]
  }

  /** A settled host keeps its counters in every continuation if and only if no
      goroutine still holds a copy of it that it would write back. When rounds do
      not overlap there is none. */
  lemma SettledForGood(s: State, host: string)
    requires host in s.data && !NeedCheck(s.data[host])
    ensures Unmoved(s, host) <==> NoStaleCopy(s, host)
    ensures Fresh(s) ==> NoStaleCopy(s, host)
  {
    if NoStaleCopy(s, host) {
      forall steps, t | Run(s, steps, t) ensures host in t.data && t.data[host] == s.data[host] {
        SettledStays(s, steps, t, host);
      }
    } else {
      var p :| p in s.flight && p.0 == host && NeedCheck(p.1);
      var step := Finish(host, p.1, Probed(p.1, true) != s.data[host]);
      var t := After(s, step);
      assert [step][1..] == [];
      assert Run(s, [step], t);
      assert t.data[host] != s.data[host];
    }
  }

  // ---- overlapping rounds can unsettle a verdict -----------------------

  lemma {:induction false} RunAppend(s: State, steps: seq<Step>, t: State, step: Step)
    requires Run(s, steps, t) && Enabled(t, step)
    ensures Run(s, steps + [step], After(t, step))
    decreases |steps|
  {
    if steps == [] {
      assert [step][1..] == [];
      assert steps + [step] == [step];
    } else {
      RunAppend(After(s, steps[0]), steps[1..], t, step);
      assert (steps + [step])[1..] == steps[1..] + [step];
    }
  }

  lemma OneItem(host: string, item: Item)
    ensures Copies(map[host := item]) == {(host, item)}
  {
    var m := map[host := item];
    assert host in m;
    assert m[host] == item;
    assert (host, item) in Copies(m);
  }

  /** One slow goroutine of the first round, and k later rounds that succeed. */
  lemma {:induction false} Climb(host: string, k: nat) returns (steps: seq<Step>, t: State)
    requires k <= MIN_COUNT
    ensures Run(NOTHING_SEEN, steps, t)
    ensures t.data == map[host := Item(k, 0)] && t.flight == multiset{(host, Item(0, 0))}
  {
    if k == 0 {
      var seen := After(NOTHING_SEEN, Seen(host));
      RunAppend(NOTHING_SEEN, [], NOTHING_SEEN, Seen(host));
      assert [] + [Seen(host)] == [Seen(host)];
      RunAppend(NOTHING_SEEN, [Seen(host)], seen, StartRound);
      steps, t := [Seen(host)] + [StartRound], After(seen, StartRound);
      OneItem(host, Item(0, 0));
    } else {
      var before, s := Climb(host, k - 1);
      var finish := Finish(host, Item(k - 1, 0), true);
      t := OneRound(s, host, k - 1);
      RunAppend(NOTHING_SEEN, before, s, StartRound);
      RunAppend(NOTHING_SEEN, before + [StartRound], After(s, StartRound), finish);
      steps := before + [StartRound] + [finish];
    }
  }

  lemma OneRound(s: State, host: string, k: nat) returns (t: State)
    requires k < MIN_COUNT && s.data == map[host := Item(k, 0)] && s.flight == multiset{(host, Item(0, 0))}
    ensures Enabled(After(s, StartRound), Finish(host, Item(k, 0), true))
    ensures t == After(After(s, StartRound), Finish(host, Item(k, 0), true))
    ensures t.data == map[host := Item(k + 1, 0)] && t.flight == s.flight
  {
    OneItem(host, Item(k, 0));
    assert After(s, StartRound).flight == s.flight + multiset{(host, Item(k, 0))};
    t := After(After(s, StartRound), Finish(host, Item(k, 0), true));
  }

  /** A host settled as not blocked becomes blocked when the slow goroutine of
      an earlier round fails and writes its old copy back. */
  lemma StaleCopyUnsettles(host: string) returns (steps: seq<Step>, settled: State, t: State)
    ensures Run(NOTHING_SEEN, steps, settled) && host in settled.data
    ensures !NeedCheck(settled.data[host]) && settled.data[host].success > settled.data[host].fail
    ensures Enabled(settled, Finish(host, Item(0, 0), false)) && t == After(settled, Finish(host, Item(0, 0), false))
    ensures host in t.data && t.data[host].success <= t.data[host].fail
  {
    steps, settled := Climb(host, MIN_COUNT);
    t := After(settled, Finish(host, Item(0, 0), false));
  }
}
