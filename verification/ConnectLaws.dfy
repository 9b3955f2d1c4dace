/** What every run of the connection attempts guarantees. */
module ConnectLaws {
  import opened Wire
  import opened Errors
  import opened ConnectEngine

  // ---------- every state at the loop head ----------

  /** Addresses are conserved: those started are a prefix of the order, and each of them is in flight or has
      failed, exactly once; so remaining, in flight and failed always add up to all. */
  lemma AddressesConserved(r: Race, es: seq<Event>, states: seq<Engine>, k: nat)
    requires Run(r, es, states) && k <= |es|
    ensures var s := states[k];
            && 1 <= |s.starts| <= |r.fates|
            && (|r.fates| - |s.starts|) + |s.flight| + |s.failed| == |r.fates|
            && (forall i :: 0 <= i < |s.starts| ==> (i in s.flight <==> i !in s.failed))
            && (forall j :: 0 <= j < |s.flight| ==> s.flight[j] < |s.starts|)
            && (forall j :: 0 <= j < |s.failed| ==> s.failed[j] < |s.starts|)
            && (forall i, j :: 0 <= i < j < |s.flight| ==> s.flight[i] != s.flight[j])
            && (forall i, j :: 0 <= i < j < |s.failed| ==> s.failed[i] != s.failed[j])
  {
    RunInv(r, es, states, k);
  }

  function Measure(r: Race, s: Engine): int {
    2 * (|r.fates| - |s.starts|) + |s.flight|
  }

  /** The loop terminates: each iteration that does not return lowers the measure by one, so there are fewer
      than twice as many iterations as addresses; and it never gets stuck before it returns. */
  lemma LoopTerminates(r: Race, es: seq<Event>, states: seq<Engine>)
    requires Run(r, es, states)
    ensures forall k :: 0 <= k <= |es| ==> 0 <= Measure(r, states[k]) == 2 * |r.fates| - 1 - k
    ensures |es| < 2 * |r.fates|
    ensures (exists e, t :: Step(r, states[|es|], e, t)) || (exists v :: Ends(r, states[|es|], v))
  {
    RunInv(r, es, states, |es|);
    forall k | 0 <= k <= |es|
      ensures 0 <= Measure(r, states[k]) == 2 * |r.fates| - 1 - k
    {
      RunInv(r, es, states, k);
    }
    GoesOn(r, states[|es|]);
  }

  lemma GoesOn(r: Race, s: Engine)
    requires Shaped(r, s)
    ensures (exists e, t :: Step(r, s, e, t)) || (exists v :: Ends(r, s, v))
  {
    var launched := Engine(s.now + r.delay, s.starts + [s.now + r.delay], s.flight + [|s.starts|], s.failed);
    if s.flight == [] {
      if |s.starts| == |r.fates| {
        assert Ends(r, s, AllFailed(Kinds(r, s.failed), s.now));
      } else {
        assert Step(r, s, Launched, launched);
      }
    } else {
      var i := EarliestExists(r, s.starts, s.flight);
      var at := Finish(r, s.starts, i);
      if |s.starts| < |r.fates| && s.now + r.delay < at {
        assert Step(r, s, Launched, launched);
      } else if Outcome(r, i).None? {
        assert Ends(r, s, Stream(i, at));
      } else {
        assert Step(r, s, Finished(i), Engine(at, s.starts, Without(s.flight, i), s.failed + [i]));
      }
    }
  }

  /** Consecutive attempts start at least one delay apart, and attempt `i` starts by `i` lags, so by 2 i delays. */
  lemma StartsPaced(r: Race, es: seq<Event>, states: seq<Engine>, k: nat, i: nat)
    requires Run(r, es, states) && k <= |es| && i < |states[k].starts|
    ensures i > 0 ==> states[k].starts[i - 1] + r.delay <= states[k].starts[i]
    ensures i * r.delay <= states[k].starts[i] <= i * Lag(r) <= 2 * i * r.delay
  {
    RunInv(r, es, states, k);
    Spread(r, states[k].starts, 0, i);
    AtMostTwice(r, i);
  }

  function CeilDiv(a: nat, b: nat): nat
    requires b > 0
  {
    (a + b - 1) / b
  }

  /** Never more than ceil(timeout / delay) attempts are in flight. */
  lemma ParallelismBounded(r: Race, es: seq<Event>, states: seq<Engine>, k: nat)
    requires Run(r, es, states) && k <= |es| && r.delay > 0 && r.timeout > 0
    ensures |states[k].flight| <= CeilDiv(r.timeout, r.delay)
  {
    RunInv(r, es, states, k);
    if states[k].flight != [] {
      BelowCeil(|states[k].flight| - 1, r.timeout, r.delay);
    }
  }

  lemma BelowCeil(x: nat, t: nat, d: nat)
    requires d > 0 && x * d < t
    ensures x + 1 <= CeilDiv(t, d)
  {
    var q := CeilDiv(t, d);
    assert t <= q * d;
    if q <= x {
      Scaled(q, x, d);
    }
  }

  // ---------- the result ----------

  /** An attempt that has an outcome within the timeout, or just as it expires, has that outcome; any other fails by
      the timeout and as it expires. */
  lemma AttemptWithTimeout(r: Race, i: nat)
    requires i < |r.fates|
    ensures Outcome(r, i).None? <==> r.fates[i].failure.None? && r.fates[i].latency <= r.timeout
    ensures r.fates[i].latency <= r.timeout ==> Outcome(r, i) == r.fates[i].failure && Duration(r, i) == r.fates[i].latency
    ensures r.fates[i].latency > r.timeout ==> Outcome(r, i) == Some(KindTimedOut) && Duration(r, i) == r.timeout
  {
  }

  ghost predicate Reachable(r: Race, i: nat) {
    i < |r.fates| && Outcome(r, i).None?
  }

  /** A stream is returned exactly when some address would connect within the timeout; otherwise there is
      one error per address, in the order in which the attempts ended. */
  lemma ConnectsIffReachable(r: Race, es: seq<Event>, states: seq<Engine>, v: Verdict)
    requires Run(r, es, states) && Ends(r, states[|es|], v)
    ensures v.Stream? <==> exists i :: Reachable(r, i)
    ensures v.AllFailed? ==>
              var s := states[|es|];
              && |v.errors| == |r.fates| == |s.failed|
              && (forall i :: 0 <= i < |r.fates| ==> i in s.failed)
              && (forall k :: 0 <= k < |s.failed| ==>
                    s.failed[k] < |r.fates| && Outcome(r, s.failed[k]) == Some(v.errors[k]))
              && (forall j, k :: 0 <= j < k < |s.failed| ==>
                    Finish(r, s.starts, s.failed[j]) <= Finish(r, s.starts, s.failed[k]))
  {
    RunInv(r, es, states, |es|);
    var s := states[|es|];
    match v {
      case Stream(i, _) => assert Reachable(r, i);
      case AllFailed(_, _) =>
        forall i | 0 <= i < |r.fates|
          ensures i in s.failed && !Reachable(r, i)
        {
          assert i !in s.flight;
        }
    }
  }

  /** First success wins: no attempt that was started and would succeed ends before the returned stream. */
  lemma FirstSuccessWins(r: Race, es: seq<Event>, states: seq<Engine>, v: Verdict, i: nat)
    requires Run(r, es, states) && Ends(r, states[|es|], v) && v.Stream?
    requires i < |states[|es|].starts| && Reachable(r, i)
    ensures v.at <= Finish(r, states[|es|].starts, i)
  {
    RunInv(r, es, states, |es|);
    var s := states[|es|];
    assert i !in s.failed;
  }

  lemma AtMostTwice(r: Race, i: nat)
    ensures i * Lag(r) <= 2 * i * r.delay
  {
    Split(i, r.delay, Setback(r));
    assert i * Setback(r) <= i * r.delay;
  }

  /** An address that would connect after `latency` is enough for a stream by i lags + latency, wherever it
      stands in the order and whatever the other addresses do. */
  lemma ReachableInTime(r: Race, es: seq<Event>, states: seq<Engine>, v: Verdict, i: nat)
    requires Run(r, es, states) && Ends(r, states[|es|], v) && Reachable(r, i)
    ensures v.Stream? && v.at <= i * Lag(r) + r.fates[i].latency
  {
    ConnectsIffReachable(r, es, states, v);
    RunInv(r, es, states, |es|);
    var s := states[|es|];
    if i < |s.starts| {
      assert i !in s.failed;
      assert s.starts[i] <= i * Lag(r);
    } else {
      var n, f := |s.starts|, |s.failed|;
      assert n < |r.fates|;
      OneMore(n - 1, r.delay);
      assert v.at <= n * r.delay + f * Setback(r);
      Scaled(n, i, r.delay);
      Scaled(f, i, Setback(r));
      Split(i, r.delay, Setback(r));
    }
  }

  /** The call returns no later than n - 1 lags and one timeout after it began. */
  lemma ReturnsInTime(r: Race, es: seq<Event>, states: seq<Engine>, v: Verdict)
    requires Run(r, es, states) && Ends(r, states[|es|], v)
    ensures v.at <= (|r.fates| - 1) * Lag(r) + r.timeout <= 2 * (|r.fates| - 1) * r.delay + r.timeout
  {
    RunInv(r, es, states, |es|);
    var s, n := states[|es|], |r.fates|;
    AtMostTwice(r, n - 1);
    match v {
      case Stream(i, at) =>
        assert at <= s.starts[i] + r.timeout;
        Scaled(i, n - 1, Lag(r));
      case AllFailed(_, at) =>
        EndsWithFailure(r, es, states);
        var i := s.failed[|s.failed| - 1];
        assert at == Finish(r, s.starts, i) <= s.starts[i] + r.timeout;
        Scaled(i, n - 1, Lag(r));
    }
  }

  /** A call that fails has waited for every attempt. */
  lemma AllAttemptsEnded(r: Race, es: seq<Event>, states: seq<Engine>, v: Verdict, i: nat)
    requires Run(r, es, states) && Ends(r, states[|es|], v) && v.AllFailed? && i < |r.fates|
    ensures i * r.delay + Duration(r, i) <= v.at
  {
    ConnectsIffReachable(r, es, states, v);
    RunInv(r, es, states, |es|);
    StartsPaced(r, es, states, |es|, i);
    assert i in states[|es|].failed;
  }

  /** When nothing is in flight, the last thing that happened was a failure. */
  lemma EndsWithFailure(r: Race, es: seq<Event>, states: seq<Engine>)
    requires Run(r, es, states) && states[|es|].flight == []
    ensures var s := states[|es|];
            && |s.failed| > 0 && s.failed[|s.failed| - 1] < |s.starts| <= |r.fates|
            && s.now == Finish(r, s.starts, s.failed[|s.failed| - 1])
  {
    var k := |es|;
    RunInv(r, es, states, k);
    assert k > 0;
    assert Step(r, states[k - 1], es[k - 1], states[k]);
  }

  // ---------- the bounds are attained ----------

  /** Every attempt but the last is refused as late as it can hold up the next, the last as its timeout expires. */
  function SlowestRace(n: nat, delay: nat, timeout: nat): Race
    requires n > 0
  {
    var late := if delay <= timeout then delay else timeout;
    Race(seq(n, i => Fate(if i < n - 1 then late else timeout, Some(KindConnectionRefused))), delay, timeout)
  }

  function SlowState(k: nat, lag: nat): Engine {
    Engine(k * lag, seq(k + 1, i => i * lag), [k], seq(k, i => i))
  }

  lemma {:induction false} SlowRun(n: nat, delay: nat, timeout: nat, k: nat) returns (es: seq<Event>, states: seq<Engine>)
    requires k < n
    ensures var r := SlowestRace(n, delay, timeout); Run(r, es, states) && states[|es|] == SlowState(k, Lag(r))
  {
    var r := SlowestRace(n, delay, timeout);
    if k == 0 {
      es, states := [], [Kickoff];
      assert SlowState(0, Lag(r)) == Kickoff;
    } else {
      es, states := SlowRun(n, delay, timeout, k - 1);
      var mid := SlowSteps(n, delay, timeout, k);
      es, states := es + [Finished(k - 1), Launched], states + [mid, SlowState(k, Lag(r))];
    }
  }

  /** One attempt fails at the last moment, and a full delay later the next one starts. */
  lemma SlowSteps(n: nat, delay: nat, timeout: nat, k: nat) returns (mid: Engine)
    requires 0 < k < n
    ensures var r := SlowestRace(n, delay, timeout);
            && Step(r, SlowState(k - 1, Lag(r)), Finished(k - 1), mid)
            && Step(r, mid, Launched, SlowState(k, Lag(r)))
  {
    var r := SlowestRace(n, delay, timeout);
    var s, t := SlowState(k - 1, Lag(r)), SlowState(k, Lag(r));
    mid := Engine(s.now + Setback(r), s.starts, [], s.failed + [k - 1]);
    OneMore(k - 1, Lag(r));
    assert Finish(r, s.starts, k - 1) == s.now + Setback(r);
    assert Without([k - 1], k - 1) == [];
    assert t.now == mid.now + delay && t.starts == mid.starts + [t.now] && t.failed == mid.failed;
  }

  /** No smaller time bound holds: for every number of addresses, delay and timeout, a run starts its last
      attempt exactly n - 1 lags after the first and returns a timeout later. */
  lemma TimeBoundAttained(n: nat, delay: nat, timeout: nat)
    requires n > 0
    ensures var r := SlowestRace(n, delay, timeout);
            exists es: seq<Event>, states: seq<Engine>, v: Verdict ::
              && Run(r, es, states) && Ends(r, states[|es|], v)
              && |states[|es|].starts| == n
              && states[|es|].starts[n - 1] == (n - 1) * Lag(r)
              && v.at == (n - 1) * Lag(r) + timeout
  {
    var es, states, v := SlowestCall(n, delay, timeout);
  }

  lemma SlowestCall(n: nat, delay: nat, timeout: nat) returns (es': seq<Event>, states': seq<Engine>, v: Verdict)
    requires n > 0
    ensures var r := SlowestRace(n, delay, timeout);
            && Run(r, es', states') && Ends(r, states'[|es'|], v)
            && |states'[|es'|].starts| == n
            && states'[|es'|].starts[n - 1] == (n - 1) * Lag(r)
            && v.at == (n - 1) * Lag(r) + timeout
  {
    var r := SlowestRace(n, delay, timeout);
    var es, states := SlowRun(n, delay, timeout, n - 1);
    var s := SlowState(n - 1, Lag(r));
    var at := (n - 1) * Lag(r) + timeout;
    var t := Engine(at, s.starts, [], s.failed + [n - 1]);
    assert Finish(r, s.starts, n - 1) == at;
    assert Without([n - 1], n - 1) == [];
    assert Step(r, s, Finished(n - 1), t);
    es', states' := es + [Finished(n - 1)], states + [t];
    v := AllFailed(Kinds(r, t.failed), at);
    assert Run(r, es', states') && Ends(r, states'[|es'|], v);
  }

  /** Nobody answers. */
  function SilentRace(n: nat, delay: nat, timeout: nat): Race {
    Race(seq(n, _ => Fate(timeout + 1, None)), delay, timeout)
  }

  function SilentState(k: nat, delay: nat): Engine {
    Engine(k * delay, seq(k + 1, i => i * delay), seq(k + 1, i => i), [])
  }

  lemma {:induction false} SilentRun(n: nat, delay: nat, timeout: nat, k: nat) returns (es: seq<Event>, states: seq<Engine>)
    requires k < n && k * delay < timeout
    ensures Run(SilentRace(n, delay, timeout), es, states) && states[|es|] == SilentState(k, delay)
  {
    var r := SilentRace(n, delay, timeout);
    if k == 0 {
      es, states := [], [Kickoff];
      assert SilentState(0, delay) == Kickoff;
    } else {
      OneMore(k - 1, delay);
      es, states := SilentRun(n, delay, timeout, k - 1);
      var s, t := SilentState(k - 1, delay), SilentState(k, delay);
      assert t.now == s.now + delay && t.starts == s.starts + [t.now] && t.flight == s.flight + [k];
      assert Step(r, s, Launched, t);
      es, states := es + [Launched], states + [t];
    }
  }

  /** No smaller bound on parallel attempts holds: with enough silent addresses it is reached. */
  lemma ParallelismAttained(delay: nat, timeout: nat)
    requires delay > 0 && timeout > 0
    ensures var r := SilentRace(CeilDiv(timeout, delay), delay, timeout);
            exists es: seq<Event>, states: seq<Engine> ::
              && Run(r, es, states)
              && |states[|es|].flight| == CeilDiv(timeout, delay)
  {
    var n := CeilDiv(timeout, delay);
    CeilReached(timeout, delay);
    var r := SilentRace(n, delay, timeout);
    var es, states := SilentRun(n, delay, timeout, n - 1);
    assert Run(r, es, states) && |states[|es|].flight| == n;
  }

  lemma CeilReached(t: nat, d: nat)
    requires d > 0 && t > 0
    ensures CeilDiv(t, d) > 0 && (CeilDiv(t, d) - 1) * d < t
  {
    var q := CeilDiv(t, d);
    assert q * d <= t + d - 1;
    OneMore(q - 1, d);
  }

  // ---------- the reply to the client ----------

  ghost predicate SomeAttempt(r: Race, k: IoKind) {
    exists i :: 0 <= i < |r.fates| && Outcome(r, i) == Some(k)
  }

  lemma ErrorsAreOutcomes(r: Race, es: seq<Event>, states: seq<Engine>, v: Verdict, k: IoKind)
    requires Run(r, es, states) && Ends(r, states[|es|], v) && v.AllFailed?
    ensures k in v.errors <==> SomeAttempt(r, k)
  {
    ConnectsIffReachable(r, es, states, v);
    var s := states[|es|];
    if SomeAttempt(r, k) {
      var i :| 0 <= i < |r.fates| && Outcome(r, i) == Some(k);
      assert i in s.failed;
      var j :| 0 <= j < |s.failed| && s.failed[j] == i;
      assert v.errors[j] == k;
    }
    if k in v.errors {
      var j :| 0 <= j < |v.errors| && v.errors[j] == k;
      assert Outcome(r, s.failed[j]) == Some(k);
    }
  }

  /** The reply after failed attempts is decided by the addresses, not by how the attempts were interleaved:
      refused if any attempt is refused, else unreachable network if any attempt reports it; and when some
      attempt is refused, finds no network or times out, two runs cannot be answered differently. */
  lemma ReplyDecidedByAddresses(r: Race, es: seq<Event>, states: seq<Engine>, v: Verdict,
                                es': seq<Event>, states': seq<Engine>, v': Verdict)
    requires Run(r, es, states) && Ends(r, states[|es|], v) && v.AllFailed?
    requires Run(r, es', states') && Ends(r, states'[|es'|], v')
    ensures FailureReply(v.errors) == ConnectionRefused <==> SomeAttempt(r, KindConnectionRefused)
    ensures FailureReply(v.errors) == NetworkUnreachable <==>
            !SomeAttempt(r, KindConnectionRefused) && SomeAttempt(r, KindNetworkUnreachable)
    ensures v'.AllFailed?
    ensures SomeAttempt(r, KindConnectionRefused) || SomeAttempt(r, KindNetworkUnreachable) || SomeAttempt(r, KindTimedOut)
            ==> FailureReply(v'.errors) == FailureReply(v.errors)
  {
    ConnectsIffReachable(r, es, states, v);
    ConnectsIffReachable(r, es', states', v');
    FailureReplyMeaning(v.errors);
    RepresentativeMeaning(v.errors);
    RepresentativeMeaning(v'.errors);
    ErrorsAreOutcomes(r, es, states, v, KindConnectionRefused);
    ErrorsAreOutcomes(r, es, states, v, KindNetworkUnreachable);
    ErrorsAreOutcomes(r, es, states, v, KindTimedOut);
    ErrorsAreOutcomes(r, es', states', v', KindConnectionRefused);
    ErrorsAreOutcomes(r, es', states', v', KindNetworkUnreachable);
    ErrorsAreOutcomes(r, es', states', v', KindTimedOut);
  }
}
