/** Connecting to a name: resolve both families, sort, interleave, attempt. */
module HappyEyeballs {
  import opened Wire
  import opened Errors
  import opened StableSort
  import opened Addresses
  import opened ConnectEngine
  import opened ConnectLaws
  import opened Timetable

  /** A name lookup: when it ends, and its answer unless it fails. */
  datatype Lookup<T> = Lookup(latency: nat, answer: Option<seq<T>>)

  datatype Timing = Timing(resolutionDelay: nat, attemptDelay: nat, connectTimeout: nat, familyTimeout: nat)

  function Wrapped6(answer: seq<Segments>): seq<IpAddr> {
    seq(|answer|, k requires 0 <= k < |answer| => V6(answer[k]))
  }

  function Wrapped4(answer: seq<Octets4>): seq<IpAddr> {
    seq(|answer|, k requires 0 <= k < |answer| => V4(answer[k]))
  }

  class ResolvedAddresses {
    var ipv6: seq<IpAddr>
    var ipv4: seq<IpAddr>

    /** Each list holds one family only, so neither sort meets an address of the other. */
    ghost predicate Valid()
      reads this
    {
      Homogeneous(ipv6, ipv4)
    }

    constructor ()
      ensures Valid() && ipv6 == [] && ipv4 == []
    {
      ipv6, ipv4 := [], [];
    }

    method ExtendIpv6(answer: seq<Segments>)
      requires Valid()
      modifies this`ipv6
      ensures Valid() && ipv6 == old(ipv6) + Wrapped6(answer)
    {
      ipv6 := ipv6 + Wrapped6(answer);
    }

    method ExtendIpv4(answer: seq<Octets4>)
      requires Valid()
      modifies this`ipv4
      ensures Valid() && ipv4 == old(ipv4) + Wrapped4(answer)
    {
      ipv4 := ipv4 + Wrapped4(answer);
    }

    /** Both lists become their stable sorts by preference. */
    method SortByPreference()
      requires Valid()
      modifies this
      ensures Valid()
      ensures ipv6 == SortByKey(old(ipv6), Rank, RANKS) && ipv4 == SortByKey(old(ipv4), Rank, RANKS)
      ensures multiset(ipv6) == multiset(old(ipv6)) && multiset(ipv4) == multiset(old(ipv4))
    {
      SortPermutes(ipv6, Rank, RANKS);
      SortPermutes(ipv4, Rank, RANKS);
      SortKeepsFamilies(ipv6, ipv4);
      ipv6 := SortByKey(ipv6, Rank, RANKS);
      ipv4 := SortByKey(ipv4, Rank, RANKS);
    }

    method IsEmpty() returns (empty: bool)
      ensures empty <==> ipv6 + ipv4 == []
    {
      empty := ipv6 == [] && ipv4 == [];
    }

    method Interleave() returns (iter: InterleavedAddressesIter)
      ensures fresh(iter) && iter.Rest() == Upcoming(ipv6, ipv4, true)
    {
      iter := new InterleavedAddressesIter(ipv6, ipv4);
    }
  }

  lemma SameElements(s: seq<IpAddr>, t: seq<IpAddr>)
    requires multiset(s) == multiset(t)
    ensures forall a :: a in s <==> a in t
    ensures |s| == |t|
  {
    forall a
      ensures a in s <==> a in t
    {
      assert a in multiset(s) <==> a in multiset(t);
    }
    assert |multiset(s)| == |multiset(t)|;
  }

  lemma SortKeepsFamilies(v6: seq<IpAddr>, v4: seq<IpAddr>)
    requires Homogeneous(v6, v4)
    ensures Homogeneous(SortByKey(v6, Rank, RANKS), SortByKey(v4, Rank, RANKS))
  {
    var s6, s4 := SortByKey(v6, Rank, RANKS), SortByKey(v4, Rank, RANKS);
    SortPermutes(v6, Rank, RANKS);
    SortPermutes(v4, Rank, RANKS);
    SameElements(s6, v6);
    SameElements(s4, v4);
    forall k | 0 <= k < |s6|
      ensures s6[k].V6?
    {
      assert s6[k] in v6;
    }
    forall k | 0 <= k < |s4|
      ensures s4[k].V4?
    {
      assert s4[k] in v4;
    }
  }

  // ---------- resolution ----------

  /** The IPv6 lookup ends within the resolution delay; at the very instant, either may be seen first. */
  function Early(t: Timing, l6: Lookup<Segments>, seenFirst: bool): bool {
    l6.latency < t.resolutionDelay || (l6.latency == t.resolutionDelay && seenFirst)
  }

  /** The IPv6 answer is used if it is early, or if both answers arrive within the family timeout. */
  function Found6(t: Timing, l6: Lookup<Segments>, l4: Lookup<Octets4>, seenFirst: bool): seq<IpAddr> {
    if l6.answer.Some? && (Early(t, l6, seenFirst) ||
                           (l6.latency <= t.resolutionDelay + t.familyTimeout && l4.latency <= t.familyTimeout))
    then Wrapped6(l6.answer.value) else []
  }

  /** The IPv4 answer is used if it arrives within the family timeout and the IPv6 lookup does not outlast it. */
  function Found4(t: Timing, l6: Lookup<Segments>, l4: Lookup<Octets4>, seenFirst: bool): seq<IpAddr> {
    if l4.answer.Some? && l4.latency <= t.familyTimeout &&
       (Early(t, l6, seenFirst) || l6.latency <= t.resolutionDelay + t.familyTimeout)
    then Wrapped4(l4.answer.value) else []
  }

  /** When the resolution ends: the IPv4 lookup is waited for up to the family timeout after it began, and so is
      an IPv6 lookup that was not early. */
  function ResolutionTime(t: Timing, l6: Lookup<Segments>, l4: Lookup<Octets4>, seenFirst: bool): (at: nat)
    ensures at <= t.resolutionDelay + t.familyTimeout
  {
    var begun := if Early(t, l6, seenFirst) then l6.latency else t.resolutionDelay;
    var both := if l6.latency <= begun + l4.latency then begun + l4.latency else l6.latency;
    if both <= begun + t.familyTimeout then both else begun + t.familyTimeout
  }

  /** When the IPv4 lookup begins: as the IPv6 lookup ends, but no later than the resolution delay. */
  function Ipv4Begins(t: Timing, l6: Lookup<Segments>): nat {
    if l6.latency <= t.resolutionDelay then l6.latency else t.resolutionDelay
  }

  /** The resolution ends as soon as both lookups have ended, or one family timeout after the IPv4 lookup began. */
  ghost predicate ResolvedAt(t: Timing, l6: Lookup<Segments>, l4: Lookup<Octets4>, at: nat) {
    var end6, end4, latest := l6.latency, Ipv4Begins(t, l6) + l4.latency, Ipv4Begins(t, l6) + t.familyTimeout;
    || (end6 <= at && end4 <= at && at <= latest && (at == end6 || at == end4))
    || (at == latest && (end6 > at || end4 > at))
  }

  /** An answer is used if its lookup has ended by the end of the resolution, and, unless the IPv6 lookup was early,
      so has the other; the addresses keep their order. */
  ghost predicate UsesAnswers(t: Timing, l6: Lookup<Segments>, l4: Lookup<Octets4>, seenFirst: bool, at: nat,
                              v6: seq<IpAddr>, v4: seq<IpAddr>)
  {
    var ended6, ended4 := l6.latency <= at, Ipv4Begins(t, l6) + l4.latency <= at;
    && (if l6.answer.Some? && ended6 &&
           (ended4 || l6.latency < t.resolutionDelay || (l6.latency == t.resolutionDelay && seenFirst))
        then |v6| == |l6.answer.value| && forall k :: 0 <= k < |v6| ==> v6[k] == V6(l6.answer.value[k])
        else v6 == [])
    && (if l4.answer.Some? && ended4 && ended6
        then |v4| == |l4.answer.value| && forall k :: 0 <= k < |v4| ==> v4[k] == V4(l4.answer.value[k])
        else v4 == [])
  }

  lemma ResolutionMeaning(t: Timing, l6: Lookup<Segments>, l4: Lookup<Octets4>, seenFirst: bool)
    ensures var at := ResolutionTime(t, l6, l4, seenFirst);
            && ResolvedAt(t, l6, l4, at)
            && UsesAnswers(t, l6, l4, seenFirst, at, Found6(t, l6, l4, seenFirst), Found4(t, l6, l4, seenFirst))
  {
  }

  method ResolveWithDelay(t: Timing, l6: Lookup<Segments>, l4: Lookup<Octets4>, seenFirst: bool)
    returns (addrs: ResolvedAddresses, elapsed: nat)
    ensures fresh(addrs) && addrs.Valid()
    ensures addrs.ipv6 == Found6(t, l6, l4, seenFirst) && addrs.ipv4 == Found4(t, l6, l4, seenFirst)
    ensures elapsed == ResolutionTime(t, l6, l4, seenFirst)
    ensures ResolvedAt(t, l6, l4, elapsed) && UsesAnswers(t, l6, l4, seenFirst, elapsed, addrs.ipv6, addrs.ipv4)
  {
    ResolutionMeaning(t, l6, l4, seenFirst);
    addrs := new ResolvedAddresses();
    var now: nat;
    var startImmediately: bool;
    if l6.latency < t.resolutionDelay || (l6.latency == t.resolutionDelay && seenFirst) {
      if l6.answer.Some? {
        addrs.ExtendIpv6(l6.answer.value);
      }
      now, startImmediately := l6.latency, false;
    } else {
      now, startImmediately := t.resolutionDelay, true;
    }
    if startImmediately {
      var joined := if l6.latency <= now + l4.latency then now + l4.latency else l6.latency;
      if joined <= now + t.familyTimeout {
        if l6.answer.Some? {
          addrs.ExtendIpv6(l6.answer.value);
        }
        if l4.answer.Some? {
          addrs.ExtendIpv4(l4.answer.value);
        }
        elapsed := joined;
      } else {
        elapsed := now + t.familyTimeout;
      }
    } else {
      if l4.latency <= t.familyTimeout {
        if l4.answer.Some? {
          addrs.ExtendIpv4(l4.answer.value);
        }
        elapsed := now + l4.latency;
      } else {
        elapsed := now + t.familyTimeout;
      }
    }
  }

  // ---------- connecting ----------

  datatype ConnectResult = Opened(peer: IpAddr) | Unopened(error: HappyEyeballsError)

  /** The order in which the resolved addresses are attempted. */
  function AttemptOrder(v6: seq<IpAddr>, v4: seq<IpAddr>): seq<IpAddr> {
    Upcoming(SortByKey(v6, Rank, RANKS), SortByKey(v4, Rank, RANKS), true)
  }

  /** The attempt order is a permutation of the resolved addresses in which each family appears in order of
      preference, with ties as the resolver gave them. */
  lemma AttemptOrderFaithful(v6: seq<IpAddr>, v4: seq<IpAddr>)
    requires Homogeneous(v6, v4)
    ensures var order := AttemptOrder(v6, v4);
            && multiset(order) == multiset(v6 + v4)
            && |order| == |v6| + |v4|
            && NonDecreasing(OfFamily(order, true), Rank) && NonDecreasing(OfFamily(order, false), Rank)
            && SameTies(v6, OfFamily(order, true), Rank, RANKS) && SameTies(v4, OfFamily(order, false), Rank, RANKS)
  {
    var s6, s4 := SortByKey(v6, Rank, RANKS), SortByKey(v4, Rank, RANKS);
    SortPermutes(v6, Rank, RANKS);
    SortPermutes(v4, Rank, RANKS);
    SortKeepsFamilies(v6, v4);
    assert KeysIn(s6, Rank, 0, RANKS) && KeysIn(s4, Rank, 0, RANKS);
    SortIsTheStableSort(v6, s6, Rank, RANKS);
    SortIsTheStableSort(v4, s4, Rank, RANKS);
    InterleavingPermutes(s6, s4, true);
    assert multiset(v6 + v4) == multiset(v6) + multiset(v4);
    InterleavingKeepsOrder(s6, s4, true);
    UpcomingLength(s6, s4, true);
    assert |multiset(s6)| == |s6| && |multiset(v6)| == |v6| && |multiset(s4)| == |s4| && |multiset(v4)| == |v4|;
  }

  /** The race over the attempt order, when `fate` says what each address does. */
  function RaceOver(order: seq<IpAddr>, fate: IpAddr -> Fate, t: Timing): Race {
    Race(seq(|order|, k requires 0 <= k < |order| => fate(order[k])), t.attemptDelay, t.connectTimeout)
  }

  /** What an attempt at an address comes to within the connect timeout. */
  function AttemptAt(fate: IpAddr -> Fate, a: IpAddr, t: Timing): Option<IoKind> {
    if fate(a).latency <= t.connectTimeout then fate(a).failure else Some(KindTimedOut)
  }

  /** The result of connecting, explained by the resolved addresses alone: opened exactly when some address
      would connect; else for want of addresses, or with one error per address. */
  ghost predicate Explains(found: seq<IpAddr>, fate: IpAddr -> Fate, t: Timing, r: ConnectResult) {
    && (r.Opened? <==> exists a :: a in found && AttemptAt(fate, a, t).None?)
    && (r.Opened? ==> r.peer in found && AttemptAt(fate, r.peer, t).None?)
    && (r.Unopened? && found == [] ==> r.error == NoAddressesResolved)
    && (r.Unopened? && found != [] ==>
          && r.error.AllAttemptsFailed? && |r.error.errors| == |found|
          && forall k :: k in r.error.errors <==> Suffers(found, fate, t, k))
  }

  ghost predicate Suffers(found: seq<IpAddr>, fate: IpAddr -> Fate, t: Timing, k: IoKind) {
    exists a :: a in found && AttemptAt(fate, a, t) == Some(k)
  }

  lemma ExplainsReordered(order: seq<IpAddr>, found: seq<IpAddr>, fate: IpAddr -> Fate, t: Timing, r: ConnectResult)
    requires multiset(order) == multiset(found) && Explains(order, fate, t, r)
    ensures Explains(found, fate, t, r)
  {
    SameElements(order, found);
    forall k
      ensures Suffers(order, fate, t, k) <==> Suffers(found, fate, t, k)
    {
      if Suffers(order, fate, t, k) {
        var a :| a in order && AttemptAt(fate, a, t) == Some(k);
        assert a in found;
      }
      if Suffers(found, fate, t, k) {
        var a :| a in found && AttemptAt(fate, a, t) == Some(k);
        assert a in order;
      }
    }
  }

  lemma RaceExplains(order: seq<IpAddr>, fate: IpAddr -> Fate, t: Timing,
                     es: seq<Event>, states: seq<Engine>, v: Verdict)
    requires var race := RaceOver(order, fate, t); Run(race, es, states) && Ends(race, states[|es|], v)
    ensures v.Stream? ==> v.winner < |order| && Explains(order, fate, t, Opened(order[v.winner]))
    ensures v.AllFailed? ==> Explains(order, fate, t, Unopened(AllAttemptsFailed(v.errors)))
  {
    var race := RaceOver(order, fate, t);
    ConnectsIffReachable(race, es, states, v);
    match v {
      case Stream(i, _) =>
        assert Outcome(race, i) == AttemptAt(fate, order[i], t);
        assert order[i] in order;
      case AllFailed(_, _) =>
        forall a | a in order
          ensures AttemptAt(fate, a, t).Some?
        {
          var i :| 0 <= i < |order| && order[i] == a;
          assert !Reachable(race, i);
        }
        forall k
          ensures k in v.errors <==> Suffers(order, fate, t, k)
        {
          ErrorsSuffered(order, fate, t, es, states, v, k);
        }
    }
  }

  lemma ErrorsSuffered(order: seq<IpAddr>, fate: IpAddr -> Fate, t: Timing,
                       es: seq<Event>, states: seq<Engine>, v: Verdict, k: IoKind)
    requires var race := RaceOver(order, fate, t); Run(race, es, states) && Ends(race, states[|es|], v)
    requires v.AllFailed?
    ensures k in v.errors <==> Suffers(order, fate, t, k)
  {
    var race := RaceOver(order, fate, t);
    ErrorsAreOutcomes(race, es, states, v, k);
    if SomeAttempt(race, k) {
      var i :| 0 <= i < |race.fates| && Outcome(race, i) == Some(k);
      assert order[i] in order;
    }
    if Suffers(order, fate, t, k) {
      var a :| a in order && AttemptAt(fate, a, t) == Some(k);
      var i :| 0 <= i < |order| && order[i] == a;
      assert Outcome(race, i) == Some(k);
    }
  }

  /** The largest possible time between two consecutive attempts, on average. */
  function Pace(t: Timing): nat {
    t.attemptDelay + if t.attemptDelay <= t.connectTimeout then t.attemptDelay else t.connectTimeout
  }

  /** How long the attempt at an address can take. */
  function AttemptTime(fate: IpAddr -> Fate, a: IpAddr, t: Timing): nat {
    if fate(a).latency <= t.connectTimeout then fate(a).latency else t.connectTimeout
  }

  ghost predicate NobodyConnects(found: seq<IpAddr>, fate: IpAddr -> Fate, t: Timing) {
    forall a :: a in found ==> AttemptAt(fate, a, t).Some?
  }

  /** The longest that the attempts at `n` addresses can take. */
  function LongestRace(t: Timing, n: nat): nat {
    if n == 0 then 0 else (n - 1) * Pace(t) + t.connectTimeout
  }

  /** When the attempt at the i-th address is due. */
  function StartOf(order: seq<IpAddr>, fate: IpAddr -> Fate, t: Timing, i: nat): nat
    requires i < |order|
  {
    Starts(RaceOver(order, fate, t), |order|)[i]
  }

  /** How long the attempts take. */
  function CallTime(order: seq<IpAddr>, fate: IpAddr -> Fate, t: Timing): nat {
    if order == [] then 0 else ReturnTime(RaceOver(order, fate, t))
  }

  /** When the attempt at the i-th address ends, if it is waited for. */
  function DueEnd(order: seq<IpAddr>, fate: IpAddr -> Fate, t: Timing, i: nat): nat
    requires i < |order|
  {
    StartOf(order, fate, t, i) + AttemptTime(fate, order[i], t)
  }

  /** An attempt at `peer` that connects ends at the given time. */
  ghost predicate WonBy(order: seq<IpAddr>, fate: IpAddr -> Fate, t: Timing, peer: IpAddr, at: nat) {
    exists i :: 0 <= i < |order| && order[i] == peer && AttemptAt(fate, order[i], t).None? && DueEnd(order, fate, t, i) == at
  }

  /** The errors of all attempts, in the order `ends` in which these end. */
  ghost predicate FailedInTurn(order: seq<IpAddr>, fate: IpAddr -> Fate, t: Timing, ends: seq<nat>, errors: seq<IoKind>) {
    && |ends| == |errors| == |order|
    && (forall k :: 0 <= k < |ends| ==> ends[k] < |order| && AttemptAt(fate, order[ends[k]], t) == Some(errors[k]))
    && (forall j, k :: 0 <= j < k < |ends| ==>
          ends[j] != ends[k] && DueEnd(order, fate, t, ends[j]) <= DueEnd(order, fate, t, ends[k]))
  }

  /** The stream is that of an attempt which ends as the call does; or the errors are those of all attempts, in the
      order in which these ended. */
  ghost predicate Settles(order: seq<IpAddr>, fate: IpAddr -> Fate, t: Timing, at: nat, r: ConnectResult) {
    && (r.Opened? ==> WonBy(order, fate, t, r.peer, at))
    && (r.Unopened? && order != [] ==>
          r.error.AllAttemptsFailed? && exists ends :: FailedInTurn(order, fate, t, ends, r.error.errors))
  }

  ghost predicate EndsBy(order: seq<IpAddr>, fate: IpAddr -> Fate, t: Timing, i: nat, at: nat)
    requires i < |order|
  {
    StartOf(order, fate, t, i) + AttemptTime(fate, order[i], t) <= at
  }

  /** The attempts are over by a given time exactly when, if none connects, each of them has ended by then; and
      if some connects, one that connects has. */
  lemma OverByIff(order: seq<IpAddr>, fate: IpAddr -> Fate, t: Timing, at: nat)
    ensures NobodyConnects(order, fate, t) ==>
              (CallTime(order, fate, t) <= at <==> forall i :: 0 <= i < |order| ==> EndsBy(order, fate, t, i, at))
    ensures !NobodyConnects(order, fate, t) ==>
              (CallTime(order, fate, t) <= at <==>
               exists i :: 0 <= i < |order| && AttemptAt(fate, order[i], t).None? && EndsBy(order, fate, t, i, at))
  {
    if order != [] {
      var race := RaceOver(order, fate, t);
      var starts := Starts(race, |order|);
      forall i | 0 <= i < |order|
        ensures Outcome(race, i) == AttemptAt(fate, order[i], t)
        ensures EndsBy(order, fate, t, i, at) <==> Finish(race, starts, i) <= at
      {
      }
      FirstStreamIsFirst(race, starts);
      LatestIsLast(race, starts);
      if NobodyConnects(order, fate, t) {
        assert FirstStream(race, starts).None?;
      } else {
        var a :| a in order && AttemptAt(fate, a, t).None?;
        var k :| 0 <= k < |order| && order[k] == a;
        assert FirstStream(race, starts).Some?;
      }
    }
  }

  /** The call ends as the timetable of its attempts says. So it never outlasts the resolution and the longest
      race; an address that would connect bounds the time by its place in the order; and if none would, all
      attempts are waited for. */
  ghost predicate InTime(order: seq<IpAddr>, fate: IpAddr -> Fate, t: Timing, resolved: nat, elapsed: nat) {
    && elapsed == resolved + CallTime(order, fate, t)
    && resolved <= elapsed <= resolved + LongestRace(t, |order|)
    && (forall i :: 0 <= i < |order| && AttemptAt(fate, order[i], t).None? ==>
          elapsed <= resolved + i * Pace(t) + fate(order[i]).latency)
    && (NobodyConnects(order, fate, t) ==>
          forall i :: 0 <= i < |order| ==> resolved + i * t.attemptDelay + AttemptTime(fate, order[i], t) <= elapsed)
  }

  lemma RaceInTime(order: seq<IpAddr>, fate: IpAddr -> Fate, t: Timing, resolved: nat,
                   es: seq<Event>, states: seq<Engine>, v: Verdict)
    requires var race := RaceOver(order, fate, t); Run(race, es, states) && Ends(race, states[|es|], v)
    ensures InTime(order, fate, t, resolved, resolved + v.at)
  {
    var race := RaceOver(order, fate, t);
    assert Lag(race) == Pace(t);
    ReturnsOnTime(race, es, states, v);
    ReturnsInTime(race, es, states, v);
    forall i | 0 <= i < |order| && AttemptAt(fate, order[i], t).None?
      ensures v.at <= i * Pace(t) + fate(order[i]).latency
    {
      assert Reachable(race, i);
      ReachableInTime(race, es, states, v, i);
    }
    if NobodyConnects(order, fate, t) {
      RaceExplains(order, fate, t, es, states, v);
      forall i | 0 <= i < |order|
        ensures i * t.attemptDelay + AttemptTime(fate, order[i], t) <= v.at
      {
        AllAttemptsEnded(race, es, states, v, i);
      }
    }
  }

  lemma RaceSettles(order: seq<IpAddr>, fate: IpAddr -> Fate, t: Timing,
                    es: seq<Event>, states: seq<Engine>, v: Verdict)
    requires var race := RaceOver(order, fate, t); Run(race, es, states) && Ends(race, states[|es|], v)
    ensures v.Stream? ==> v.winner < |order| && Settles(order, fate, t, v.at, Opened(order[v.winner]))
    ensures v.AllFailed? ==> Settles(order, fate, t, v.at, Unopened(AllAttemptsFailed(v.errors)))
  {
    var race := RaceOver(order, fate, t);
    EndByTimetable(race, es, states);
    ConnectsIffReachable(race, es, states, v);
    RunInv(race, es, states, |es|);
    var s, all := states[|es|], Starts(race, |order|);
    forall i | 0 <= i < |s.starts|
      ensures DueEnd(order, fate, t, i) == Finish(race, s.starts, i)
    {
      assert Finish(race, all, i) == Finish(race, s.starts, i);
    }
    match v {
      case Stream(i, at) => assert DueEnd(order, fate, t, i) == at;
      case AllFailed(errors, _) => assert FailedInTurn(order, fate, t, s.failed, errors);
    }
  }

  lemma CallInTime(order: seq<IpAddr>, fate: IpAddr -> Fate, t: Timing, resolved: nat)
    ensures InTime(order, fate, t, resolved, resolved + CallTime(order, fate, t))
  {
    if order != [] {
      var es, states, v := Completes(RaceOver(order, fate, t));
      RaceInTime(order, fate, t, resolved, es, states, v);
      ReturnsOnTime(RaceOver(order, fate, t), es, states, v);
    }
  }

  method ConnectByName(t: Timing, l6: Lookup<Segments>, l4: Lookup<Octets4>, seenFirst: bool, fate: IpAddr -> Fate)
    returns (r: ConnectResult, resolved: nat, elapsed: nat)
    ensures Explains(Found6(t, l6, l4, seenFirst) + Found4(t, l6, l4, seenFirst), fate, t, r)
    ensures resolved == ResolutionTime(t, l6, l4, seenFirst)
    ensures ResolvedAt(t, l6, l4, resolved) && resolved <= elapsed
    ensures Settles(AttemptOrder(Found6(t, l6, l4, seenFirst), Found4(t, l6, l4, seenFirst)), fate, t, elapsed - resolved, r)
    ensures InTime(AttemptOrder(Found6(t, l6, l4, seenFirst), Found4(t, l6, l4, seenFirst)), fate, t, resolved, elapsed)
  {
    var addrs;
    addrs, resolved := ResolveWithDelay(t, l6, l4, seenFirst);
    ghost var v6, v4 := addrs.ipv6, addrs.ipv4;
    AttemptOrderFaithful(v6, v4);
    var empty := addrs.IsEmpty();
    if empty {
      assert v6 == [] && v4 == [];
      return Unopened(NoAddressesResolved), resolved, resolved;
    }
    addrs.SortByPreference();
    var iter := addrs.Interleave();
    var order := Upcoming(iter.ipv6, iter.ipv4, iter.ipv6Turn);
    assert order == AttemptOrder(v6, v4);
    r, elapsed := AttemptInOrder(order, t, fate, resolved);
    ExplainsReordered(order, v6 + v4, fate, t, r);
  }

  method AttemptInOrder(order: seq<IpAddr>, t: Timing, fate: IpAddr -> Fate, resolved: nat)
    returns (r: ConnectResult, elapsed: nat)
    requires order != []
    ensures Explains(order, fate, t, r) && InTime(order, fate, t, resolved, elapsed)
    ensures Settles(order, fate, t, elapsed - resolved, r)
  {
    var v, es, states := ConnectToAddresses(RaceOver(order, fate, t));
    RaceExplains(order, fate, t, es, states, v);
    RaceSettles(order, fate, t, es, states, v);
    RaceInTime(order, fate, t, resolved, es, states, v);
    elapsed := resolved + v.at;
    match v {
      case Stream(i, _) => r := Opened(order[i]);
      case AllFailed(errors, _) => r := Unopened(AllAttemptsFailed(errors));
    }
  }

  /** A timely IPv4 answer is used exactly when the IPv6 lookup ends within the joint wait; otherwise the call
      finds no addresses at all, although it has some. */
  lemma TimelyIpv4UsedIff(t: Timing, l6: Lookup<Segments>, l4: Lookup<Octets4>, seenFirst: bool,
                          fate: IpAddr -> Fate, r: ConnectResult)
    requires l4.answer.Some? && l4.answer.value != [] && l4.latency <= t.familyTimeout
    requires Explains(Found6(t, l6, l4, seenFirst) + Found4(t, l6, l4, seenFirst), fate, t, r)
    ensures Found4(t, l6, l4, seenFirst) == Wrapped4(l4.answer.value) <==>
            l6.latency <= t.resolutionDelay + t.familyTimeout
    ensures r == Unopened(NoAddressesResolved) <==> l6.latency > t.resolutionDelay + t.familyTimeout
  {
    assert |Wrapped4(l4.answer.value)| > 0;
    var found := Found6(t, l6, l4, seenFirst) + Found4(t, l6, l4, seenFirst);
    if l6.latency > t.resolutionDelay + t.familyTimeout {
      assert found == [];
    } else {
      assert found != [];
    }
  }

  /** An IPv6 answer that ends within the joint wait is used exactly when it is early or the IPv4 lookup ends within
      the family timeout; otherwise the call finds no addresses either. */
  lemma TimelyIpv6UsedIff(t: Timing, l6: Lookup<Segments>, l4: Lookup<Octets4>, seenFirst: bool,
                          fate: IpAddr -> Fate, r: ConnectResult)
    requires l6.answer.Some? && l6.answer.value != [] && l6.latency <= t.resolutionDelay + t.familyTimeout
    requires Explains(Found6(t, l6, l4, seenFirst) + Found4(t, l6, l4, seenFirst), fate, t, r)
    ensures Found6(t, l6, l4, seenFirst) == Wrapped6(l6.answer.value) <==>
            Early(t, l6, seenFirst) || l4.latency <= t.familyTimeout
    ensures r == Unopened(NoAddressesResolved) <==> !Early(t, l6, seenFirst) && l4.latency > t.familyTimeout
  {
    assert |Wrapped6(l6.answer.value)| > 0;
    var found := Found6(t, l6, l4, seenFirst) + Found4(t, l6, l4, seenFirst);
    if !Early(t, l6, seenFirst) && l4.latency > t.familyTimeout {
      assert found == [];
    } else {
      assert found != [];
    }
  }

  /** For instance: an IPv4 answer after 20 milliseconds, and an IPv6 lookup that never ends. */
  method SilentIpv6Lookup(fate: IpAddr -> Fate) returns (r: ConnectResult)
    ensures r == Unopened(NoAddressesResolved)
  {
    var t := Timing(50, 250, 10000, 5000);
    var l6: Lookup<Segments> := Lookup(60000, None);
    var l4: Lookup<Octets4> := Lookup(20, Some([[192, 0, 2, 1]]));
    var resolved, elapsed;
    r, resolved, elapsed := ConnectByName(t, l6, l4, false, fate);
    TimelyIpv4UsedIff(t, l6, l4, false, fate, r);
  }
}
