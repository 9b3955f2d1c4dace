/** Connecting to a client's destination under the outer time limit. */
module ConnectUpstream {
  import opened Wire
  import opened Errors
  import opened StableSort
  import opened Addresses
  import opened ConnectEngine
  import opened ConnectLaws
  import opened Timetable
  import opened HappyEyeballs

  datatype Reached = Linked(peer: Option<IpAddr>) | NotReached(error: Socks5Error)

  /** The result for a name within `limit`, in terms of the resolved addresses and the time `resolved` at which
      they are known: a stream leads to one of them; without addresses it is a resolution failure; failed
      attempts are answered by what the addresses did; an address that would connect early enough is always
      reached; the limit strikes exactly if resolution and attempts take longer; the stream is that of an attempt
      which ends as the call does; and the error represents the errors in the order in which the attempts end. */
  ghost predicate Answers(found: seq<IpAddr>, order: seq<IpAddr>, fate: IpAddr -> Fate, t: Timing, resolved: nat,
                          limit: nat, r: Reached)
  {
    && (r.Linked? ==> r.peer.Some? && r.peer.value in found && AttemptAt(fate, r.peer.value, t).None?)
    && (r.NotReached? ==> r.error == Timeout || FailureExplained(found, fate, t, r.error))
    && (forall i :: 0 <= i < |order| && ConnectsBy(order[i], fate, t, resolved, i, limit) ==> r.Linked?)
    && (r == NotReached(Timeout) <==> limit < resolved + CallTime(order, fate, t))
    && (r.Linked? ==> WonBy(order, fate, t, r.peer.value, CallTime(order, fate, t)))
    && (r.NotReached? && r.error != Timeout && order != [] ==> FailureInTurn(order, fate, t, r.error))
  }

  /** The error represents the attempts' errors in the order in which the attempts ended. */
  ghost predicate FailureInTurn(order: seq<IpAddr>, fate: IpAddr -> Fate, t: Timing, e: Socks5Error) {
    exists ends, errors :: FailedInTurn(order, fate, t, ends, errors) && e == FromHappyEyeballs(AllAttemptsFailed(errors))
  }

  /** An address at place `i` of the order that connects in time, whatever the others do. */
  predicate ConnectsBy(a: IpAddr, fate: IpAddr -> Fate, t: Timing, resolved: nat, i: nat, limit: nat) {
    AttemptAt(fate, a, t).None? && Deadline(t, resolved, i, fate(a)) <= limit
  }

  function Deadline(t: Timing, resolved: nat, i: nat, f: Fate): nat {
    resolved + i * Pace(t) + f.latency
  }

  /** The longest that any name with `n` addresses can take. */
  function LongestCall(t: Timing, n: nat): nat {
    t.resolutionDelay + t.familyTimeout + LongestRace(t, n)
  }

  /** No address connects, and some attempt, started when it is due, does not end within the limit. */
  ghost predicate HeldUp(order: seq<IpAddr>, fate: IpAddr -> Fate, t: Timing, resolved: nat, limit: nat) {
    && NobodyConnects(order, fate, t)
    && exists i :: 0 <= i < |order| && limit < resolved + StartOf(order, fate, t, i) + AttemptTime(fate, order[i], t)
  }

  ghost predicate FailureExplained(found: seq<IpAddr>, fate: IpAddr -> Fate, t: Timing, e: Socks5Error) {
    if found == [] then e == DnsResolutionFailed
    else
      && e.TargetConnectionFailed?
      && NobodyConnects(found, fate, t)
      && (ToReply(e) == ConnectionRefused <==> Suffers(found, fate, t, KindConnectionRefused))
      && (ToReply(e) == NetworkUnreachable <==>
            !Suffers(found, fate, t, KindConnectionRefused) && Suffers(found, fate, t, KindNetworkUnreachable))
  }

  function WithinLimit(c: ConnectResult, elapsed: nat, limit: nat): Reached {
    if elapsed > limit then NotReached(Timeout)
    else
      match c
      case Opened(a) => Linked(Some(a))
      case Unopened(e) => NotReached(FromHappyEyeballs(e))
  }

  lemma UnopenedExplained(found: seq<IpAddr>, fate: IpAddr -> Fate, t: Timing, c: ConnectResult)
    requires Explains(found, fate, t, c) && c.Unopened?
    ensures FailureExplained(found, fate, t, FromHappyEyeballs(c.error))
  {
    if found != [] {
      FailureReplyMeaning(c.error.errors);
      assert KindConnectionRefused in c.error.errors <==> Suffers(found, fate, t, KindConnectionRefused);
      assert KindNetworkUnreachable in c.error.errors <==> Suffers(found, fate, t, KindNetworkUnreachable);
    }
  }

  lemma NameAnswers(v6: seq<IpAddr>, v4: seq<IpAddr>, fate: IpAddr -> Fate, t: Timing,
                    c: ConnectResult, resolved: nat, elapsed: nat, limit: nat)
    requires Homogeneous(v6, v4) && Explains(v6 + v4, fate, t, c)
    requires InTime(AttemptOrder(v6, v4), fate, t, resolved, elapsed)
    requires Settles(AttemptOrder(v6, v4), fate, t, elapsed - resolved, c)
    ensures Answers(v6 + v4, AttemptOrder(v6, v4), fate, t, resolved, limit, WithinLimit(c, elapsed, limit))
  {
    AttemptOrderFaithful(v6, v4);
    OrderedAnswers(v6 + v4, AttemptOrder(v6, v4), fate, t, c, resolved, elapsed, limit);
  }

  lemma OrderedAnswers(found: seq<IpAddr>, order: seq<IpAddr>, fate: IpAddr -> Fate, t: Timing,
                       c: ConnectResult, resolved: nat, elapsed: nat, limit: nat)
    requires multiset(order) == multiset(found) && Explains(found, fate, t, c)
    requires InTime(order, fate, t, resolved, elapsed) && Settles(order, fate, t, elapsed - resolved, c)
    ensures Answers(found, order, fate, t, resolved, limit, WithinLimit(c, elapsed, limit))
  {
    SameElements(order, found);
    if c.Unopened? {
      UnopenedExplained(found, fate, t, c);
    }
    forall i | 0 <= i < |order| && ConnectsBy(order[i], fate, t, resolved, i, limit)
      ensures WithinLimit(c, elapsed, limit).Linked?
    {
      assert order[i] in found;
      assert elapsed <= Deadline(t, resolved, i, fate(order[i]));
    }
  }

  /** The client's destination: an address is tried directly, a name through Happy Eyeballs; all of it within
      `limit`, and the limit loses against a result that is ready at the same instant. */
  method ConnectToUpstream(target: Address, limit: nat, direct: Fate,
                           t: Timing, l6: Lookup<Segments>, l4: Lookup<Octets4>, seenFirst: bool, fate: IpAddr -> Fate)
    returns (r: Reached)
    ensures !target.Domain? ==>
              r == (if direct.latency > limit then NotReached(Timeout)
                    else if direct.failure.Some? then NotReached(TargetConnectionFailed(direct.failure.value))
                    else Linked(None))
    ensures target.Domain? ==>
              var v6, v4 := Found6(t, l6, l4, seenFirst), Found4(t, l6, l4, seenFirst);
              Answers(v6 + v4, AttemptOrder(v6, v4), fate, t, ResolutionTime(t, l6, l4, seenFirst), limit, r)
  {
    if target.Domain? {
      r := NameWithin(limit, t, l6, l4, seenFirst, fate);
    } else {
      r := DirectWithin(limit, direct);
    }
  }

  method NameWithin(limit: nat, t: Timing, l6: Lookup<Segments>, l4: Lookup<Octets4>, seenFirst: bool, fate: IpAddr -> Fate)
    returns (r: Reached)
    ensures var v6, v4 := Found6(t, l6, l4, seenFirst), Found4(t, l6, l4, seenFirst);
            Answers(v6 + v4, AttemptOrder(v6, v4), fate, t, ResolutionTime(t, l6, l4, seenFirst), limit, r)
  {
    var c, resolved, elapsed := ConnectByName(t, l6, l4, seenFirst, fate);
    FoundHomogeneous(t, l6, l4, seenFirst);
    NameAnswers(Found6(t, l6, l4, seenFirst), Found4(t, l6, l4, seenFirst), fate, t, c, resolved, elapsed, limit);
    r := WithinLimit(c, elapsed, limit);
  }

  lemma FoundHomogeneous(t: Timing, l6: Lookup<Segments>, l4: Lookup<Octets4>, seenFirst: bool)
    ensures Homogeneous(Found6(t, l6, l4, seenFirst), Found4(t, l6, l4, seenFirst))
  {
  }

  method DirectWithin(limit: nat, direct: Fate) returns (r: Reached)
    ensures r == (if direct.latency > limit then NotReached(Timeout)
                  else if direct.failure.Some? then NotReached(TargetConnectionFailed(direct.failure.value))
                  else Linked(None))
  {
    if direct.latency > limit {
      return NotReached(Timeout);
    }
    match direct.failure {
      case Some(k) => r := NotReached(TargetConnectionFailed(k));
      case None => r := Linked(None);
    }
  }

  // ---------- when failures are told ----------

  ghost predicate AllFailRefused(found: seq<IpAddr>, fate: IpAddr -> Fate, t: Timing) {
    NobodyConnects(found, fate, t) && Suffers(found, fate, t, KindConnectionRefused)
  }

  ghost predicate AllFailUnreachable(found: seq<IpAddr>, fate: IpAddr -> Fate, t: Timing) {
    && NobodyConnects(found, fate, t)
    && !Suffers(found, fate, t, KindConnectionRefused) && Suffers(found, fate, t, KindNetworkUnreachable)
  }

  ghost predicate Told(r: Reached, code: Reply) {
    r.NotReached? && ToReply(r.error) == code
  }

  /** "Connection refused" is told exactly when no address connects, one refuses, and every attempt, started when it
      is due, ends within the limit; and so is "network unreachable", if none refuses and one has no network. */
  lemma FailureToldIff(found: seq<IpAddr>, order: seq<IpAddr>, fate: IpAddr -> Fate, t: Timing, resolved: nat,
                       limit: nat, r: Reached)
    requires multiset(order) == multiset(found) && Answers(found, order, fate, t, resolved, limit, r)
    ensures Told(r, ConnectionRefused) <==> AllFailRefused(found, fate, t) && !HeldUp(order, fate, t, resolved, limit)
    ensures Told(r, NetworkUnreachable) <==> AllFailUnreachable(found, fate, t) && !HeldUp(order, fate, t, resolved, limit)
  {
    SameElements(order, found);
    if AllFailRefused(found, fate, t) || AllFailUnreachable(found, fate, t) {
      assert found != [] && order != [] && NobodyConnects(order, fate, t);
      HeldUpIff(order, fate, t, resolved, limit);
    }
  }

  /** If no address connects, the limit strikes exactly when some attempt does not end within it. */
  lemma HeldUpIff(order: seq<IpAddr>, fate: IpAddr -> Fate, t: Timing, resolved: nat, limit: nat)
    requires order != [] && NobodyConnects(order, fate, t)
    ensures HeldUp(order, fate, t, resolved, limit) <==> limit < resolved + CallTime(order, fate, t)
  {
    if resolved <= limit {
      OverByIff(order, fate, t, limit - resolved);
      assert forall i :: 0 <= i < |order| ==>
          (EndsBy(order, fate, t, i, limit - resolved) <==>
           resolved + StartOf(order, fate, t, i) + AttemptTime(fate, order[i], t) <= limit);
    } else {
      assert limit < resolved + StartOf(order, fate, t, 0) + AttemptTime(fate, order[0], t);
    }
  }

  /** With an attempt timeout that is no shorter than the limit, as configured by default, one silent address
      hides why all the others failed, unless it is tried first and the resolution takes no time. */
  lemma SilentAddressHidesFailures(found: seq<IpAddr>, order: seq<IpAddr>, fate: IpAddr -> Fate, t: Timing,
                                   resolved: nat, limit: nat, r: Reached, i: nat)
    requires Answers(found, order, fate, t, resolved, limit, r) && NobodyConnects(order, fate, t)
    requires limit <= t.connectTimeout && i < |order| && fate(order[i]).latency > t.connectTimeout
    requires 0 < resolved || (0 < i && 0 < t.attemptDelay)
    ensures r == NotReached(Timeout)
  {
    CallInTime(order, fate, t, resolved);
    assert AttemptTime(fate, order[i], t) == t.connectTimeout;
    NotAtOnce(resolved, i, t.attemptDelay);
  }

  lemma NotAtOnce(resolved: nat, i: nat, delay: nat)
    requires 0 < resolved || (0 < i && 0 < delay)
    ensures 0 < resolved + i * delay
  {
    Scaled(if 0 < i then 1 else 0, i, delay);
  }

  // ---------- when refusals are surely told ----------

  /** Resolved to `n` addresses as late as possible, a name whose addresses all fail, one of them by a refusal, is
      answered within the limit. */
  ghost predicate ToldInTime(v6: seq<IpAddr>, v4: seq<IpAddr>, fate: IpAddr -> Fate, t: Timing, n: nat, limit: nat) {
    Homogeneous(v6, v4) && |v6| + |v4| == n && AllFailRefused(v6 + v4, fate, t) ==>
      t.resolutionDelay + t.familyTimeout + CallTime(AttemptOrder(v6, v4), fate, t) <= limit
  }

  /** A limit is long enough for the refusals of all names with `n` addresses, however slowly these fail, exactly if
      it covers the longest possible call. */
  lemma RefusalsSurelyToldIff(t: Timing, n: nat, limit: nat)
    requires n > 0
    ensures (forall v6, v4, fate :: ToldInTime(v6, v4, fate, t, n, limit)) <==> LongestCall(t, n) <= limit
  {
    if LongestCall(t, n) <= limit {
      forall v6, v4, fate
        ensures ToldInTime(v6, v4, fate, t, n, limit)
      {
        LongEnough(v6, v4, fate, t, n, limit);
      }
    } else {
      SlowRefusals(t, n);
      assert !ToldInTime([], OneAfterMany(n), a => LateRefusal(t, a), t, n, limit);
    }
  }

  lemma LongEnough(v6: seq<IpAddr>, v4: seq<IpAddr>, fate: IpAddr -> Fate, t: Timing, n: nat, limit: nat)
    requires LongestCall(t, n) <= limit
    ensures ToldInTime(v6, v4, fate, t, n, limit)
  {
    if Homogeneous(v6, v4) && |v6| + |v4| == n {
      AllTried(v6, v4);
      OverWithinLimit(AttemptOrder(v6, v4), fate, t, limit);
    }
  }

  lemma AllTried(v6: seq<IpAddr>, v4: seq<IpAddr>)
    requires Homogeneous(v6, v4)
    ensures |AttemptOrder(v6, v4)| == |v6| + |v4|
  {
    AttemptOrderFaithful(v6, v4);
  }

  lemma OverWithinLimit(order: seq<IpAddr>, fate: IpAddr -> Fate, t: Timing, limit: nat)
    requires LongestCall(t, |order|) <= limit
    ensures t.resolutionDelay + t.familyTimeout + CallTime(order, fate, t) <= limit
  {
    CallInTime(order, fate, t, 0);
  }

  const MANY: IpAddr := V4([192, 0, 2, 1])
  const ONE: IpAddr := V4([192, 0, 2, 2])

  function OneAfterMany(n: nat): seq<IpAddr>
    requires n > 0
  {
    seq(n, k => if k < n - 1 then MANY else ONE)
  }

  /** One address refuses at the end of its timeout, and all others as late as they can hold up the next. */
  function LateRefusal(t: Timing, a: IpAddr): Fate {
    Fate(if a == ONE || t.connectTimeout < t.attemptDelay then t.connectTimeout else t.attemptDelay,
         Some(KindConnectionRefused))
  }

  lemma SlowRefusals(t: Timing, n: nat)
    requires n > 0
    ensures var v4, fate := OneAfterMany(n), a => LateRefusal(t, a);
            && Homogeneous([], v4) && AllFailRefused([] + v4, fate, t)
            && CallTime(AttemptOrder([], v4), fate, t) == LongestRace(t, n)
  {
    var v4, fate := OneAfterMany(n), a => LateRefusal(t, a);
    assert [] + v4 == v4;
    TriedAsResolved(v4);
    LateRefusalsAreSlowest(t, n);
    SlowestCallTime(t, n);
    assert v4[n - 1] in v4 && AttemptAt(fate, v4[n - 1], t) == Some(KindConnectionRefused);
  }

  lemma LateRefusalsAreSlowest(t: Timing, n: nat)
    requires n > 0
    ensures RaceOver(OneAfterMany(n), a => LateRefusal(t, a), t) == SlowestRace(n, t.attemptDelay, t.connectTimeout)
  {
    var r, s := RaceOver(OneAfterMany(n), a => LateRefusal(t, a), t), SlowestRace(n, t.attemptDelay, t.connectTimeout);
    forall k | 0 <= k < n
      ensures r.fates[k] == s.fates[k]
    {
      assert OneAfterMany(n)[k] == if k < n - 1 then MANY else ONE;
    }
    assert r.fates == s.fates;
  }

  lemma SlowestCallTime(t: Timing, n: nat)
    requires n > 0
    ensures ReturnTime(SlowestRace(n, t.attemptDelay, t.connectTimeout)) == LongestRace(t, n)
  {
    var es, states, v := SlowestCall(n, t.attemptDelay, t.connectTimeout);
    ReturnsOnTime(SlowestRace(n, t.attemptDelay, t.connectTimeout), es, states, v);
    assert Lag(SlowestRace(n, t.attemptDelay, t.connectTimeout)) == Pace(t);
  }

  /** IPv4 addresses of one rank are tried in the order in which they are resolved. */
  lemma TriedAsResolved(v4: seq<IpAddr>)
    requires forall k :: 0 <= k < |v4| ==> v4[k].V4? && Rank(v4[k]) == 2
    ensures AttemptOrder([], v4) == v4
  {
    SortIsTheStableSort(v4, v4, Rank, RANKS);
    SortIsTheStableSort<IpAddr>([], [], Rank, RANKS);
    OnlyOneFamily([], v4, true);
    assert [] + v4 == v4;
  }

  const DEFAULTS: Timing := Timing(50, 250, 10000, 5000)

  /** One address fails after 5 milliseconds, and all others are silent. */
  function OneFails(k: IoKind): IpAddr -> Fate {
    a => if a == ONE then Fate(5, Some(k)) else Fate(60000, None)
  }

  const NO_IPV6: Lookup<Segments> := Lookup(10, None)

  function TwoAnswers(silentFirst: bool): Lookup<Octets4> {
    var silent: Octets4, failing: Octets4 := [192, 0, 2, 1], [192, 0, 2, 2];
    Lookup(20, Some(if silentFirst then [silent, failing] else [failing, silent]))
  }

  function TwoFound(silentFirst: bool): seq<IpAddr> {
    if silentFirst then [MANY, ONE] else [ONE, MANY]
  }

  /** For instance, with all default times: an address that fails at once, by a refusal or for whatever reason, and
      one that is silent. The client is told of an unreachable host, whichever of the two is tried first. */
  method FailureHidden(silentFirst: bool, k: IoKind) returns (r: Reached)
    ensures r == NotReached(Timeout) && Told(r, HostUnreachable)
    ensures NobodyConnects(TwoFound(silentFirst), OneFails(k), DEFAULTS)
    ensures Suffers(TwoFound(silentFirst), OneFails(k), DEFAULTS, k)
  {
    r := NameWithin(10000, DEFAULTS, NO_IPV6, TwoAnswers(silentFirst), true, OneFails(k));
    BothFound(silentFirst);
    BothFail(silentFirst, k);
    SilenceAnswered(silentFirst, k, 30, r);
  }

  lemma BothFound(silentFirst: bool)
    ensures Found6(DEFAULTS, NO_IPV6, TwoAnswers(silentFirst), true) == []
    ensures Found4(DEFAULTS, NO_IPV6, TwoAnswers(silentFirst), true) == TwoFound(silentFirst)
    ensures ResolutionTime(DEFAULTS, NO_IPV6, TwoAnswers(silentFirst), true) == 30
  {
  }

  lemma BothFail(silentFirst: bool, k: IoKind)
    ensures NobodyConnects(TwoFound(silentFirst), OneFails(k), DEFAULTS)
    ensures Suffers(TwoFound(silentFirst), OneFails(k), DEFAULTS, k)
  {
    assert ONE in TwoFound(silentFirst) && AttemptAt(OneFails(k), ONE, DEFAULTS) == Some(k);
  }

  lemma SilenceAnswered(silentFirst: bool, k: IoKind, resolved: nat, r: Reached)
    requires var order := TwoFound(silentFirst);
             0 < resolved && Answers([] + order, AttemptOrder([], order), OneFails(k), DEFAULTS, resolved, 10000, r)
    ensures r == NotReached(Timeout)
  {
    var order := TwoFound(silentFirst);
    TriedAsResolved(order);
    BothFail(silentFirst, k);
    SilentAddressHidesFailures([] + order, order, OneFails(k), DEFAULTS, resolved, 10000, r, if silentFirst then 0 else 1);
  }
}
