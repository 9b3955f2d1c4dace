/** The staggered connection attempts of Happy Eyeballs (RFC 8305, section 5) over an idealised clock. */
module ConnectEngine {
  import opened Wire
  import opened Errors

  /** What an attempt would come to if it were given time: a stream or a failure, after `latency`. */
  datatype Fate = Fate(latency: nat, failure: Option<IoKind>)

  /** The addresses in attempt order, by their fates, and the two configured times. */
  datatype Race = Race(fates: seq<Fate>, delay: nat, timeout: nat)

  /** How long attempt `i` runs; its own result wins over a timeout that expires at the same instant. */
  function Duration(r: Race, i: nat): nat
    requires i < |r.fates|
  {
    if r.fates[i].latency <= r.timeout then r.fates[i].latency else r.timeout
  }

  /** What attempt `i` returns; `None` is a stream. */
  function Outcome(r: Race, i: nat): Option<IoKind>
    requires i < |r.fates|
  {
    if r.fates[i].latency <= r.timeout then r.fates[i].failure else Some(KindTimedOut)
  }

  /** The loop's state at its head: when each attempt started, which are in flight, which have failed. */
  datatype Engine = Engine(now: nat, starts: seq<nat>, flight: seq<nat>, failed: seq<nat>)

  datatype Event = Finished(attempt: nat) | Launched

  datatype Verdict = Stream(winner: nat, at: nat) | AllFailed(errors: seq<IoKind>, at: nat)

  ghost predicate Shaped(r: Race, s: Engine) {
    && 1 <= |s.starts| <= |r.fates|
    && (forall k :: 0 <= k < |s.flight| ==> s.flight[k] < |s.starts|)
    && (forall k :: 0 <= k < |s.failed| ==> s.failed[k] < |s.starts|)
  }

  function Finish(r: Race, starts: seq<nat>, i: nat): nat
    requires i < |starts| <= |r.fates|
  {
    starts[i] + Duration(r, i)
  }

  /** The biased select takes the result of attempt `i`: no other result is earlier, and the sleep that was
      started at the loop head, if there is one, does not expire before it. */
  ghost predicate Collects(r: Race, s: Engine, i: nat)
    requires Shaped(r, s)
  {
    && i in s.flight
    && (forall k :: 0 <= k < |s.flight| ==> Finish(r, s.starts, i) <= Finish(r, s.starts, s.flight[k]))
    && (|s.starts| < |r.fates| ==> Finish(r, s.starts, i) <= s.now + r.delay)
  }

  /** The sleep expires first, and there is an address left to start. */
  ghost predicate Launches(r: Race, s: Engine)
    requires Shaped(r, s)
  {
    && |s.starts| < |r.fates|
    && forall k :: 0 <= k < |s.flight| ==> s.now + r.delay < Finish(r, s.starts, s.flight[k])
  }

  function Without(xs: seq<nat>, i: nat): seq<nat> {
    if xs == [] then []
    else if xs[0] == i then xs[1..]
    else [xs[0]] + Without(xs[1..], i)
  }

  /** One iteration of the loop that does not return. */
  ghost predicate Step(r: Race, s: Engine, e: Event, t: Engine) {
    && Shaped(r, s)
    && match e
       case Finished(i) =>
         && Collects(r, s, i) && Outcome(r, i).Some?
         && t == Engine(Finish(r, s.starts, i), s.starts, Without(s.flight, i), s.failed + [i])
       case Launched =>
         && Launches(r, s)
         && t == Engine(s.now + r.delay, s.starts + [s.now + r.delay], s.flight + [|s.starts|], s.failed)
  }

  /** The first address is tried at once. */
  const Kickoff: Engine := Engine(0, [0], [0], [])

  /** A run of the loop: the states at its head, and the iterations between them. */
  ghost predicate Run(r: Race, es: seq<Event>, states: seq<Engine>) {
    && r.fates != []
    && |states| == |es| + 1
    && states[0] == Kickoff
    && forall k :: 0 <= k < |es| ==> Step(r, states[k], es[k], states[k + 1])
  }

  function KindOf(r: Race, i: nat): IoKind {
    if i < |r.fates| && Outcome(r, i).Some? then Outcome(r, i).value else KindOther
  }

  function Kinds(r: Race, xs: seq<nat>): seq<IoKind> {
    seq(|xs|, k requires 0 <= k < |xs| => KindOf(r, xs[k]))
  }

  /** The iteration from `s` that returns `v`. */
  ghost predicate Ends(r: Race, s: Engine, v: Verdict) {
    && Shaped(r, s)
    && match v
       case Stream(i, at) => Collects(r, s, i) && Outcome(r, i).None? && at == Finish(r, s.starts, i)
       case AllFailed(errors, at) =>
         && s.flight == [] && |s.starts| == |r.fates|
         && errors == Kinds(r, s.failed) && at == s.now
  }

  // ---------- the loop ----------

  /** The engine run as the loop runs it; ties between results are broken arbitrarily. */
  method ConnectToAddresses(r: Race) returns (v: Verdict, ghost es: seq<Event>, ghost states: seq<Engine>)
    ensures r.fates == [] ==> v == AllFailed([], 0)
    ensures r.fates != [] ==> Run(r, es, states) && Ends(r, states[|es|], v)
  {
    es, states := [], [Kickoff];
    if |r.fates| == 0 {
      return AllFailed([], 0), es, states;
    }
    var now: nat := 0;
    var starts: seq<nat> := [0];
    var futures: seq<nat> := [0];
    var failed: seq<nat> := [];
    var errors: seq<IoKind> := [];
    while futures != [] || |starts| < |r.fates|
      invariant Run(r, es, states) && states[|es|] == Engine(now, starts, futures, failed)
      invariant Shaped(r, states[|es|]) && Counted(states[|es|])
      invariant errors == Kinds(r, failed)
      decreases 2 * (|r.fates| - |starts|) + |futures|
    {
      ghost var s, next := states[|es|], states[|es|];
      ghost var e := Launched;
      var i: nat := 0;
      if futures != [] {
        i := EarliestFuture(r, starts, futures);
      }
      if futures != [] && (|starts| == |r.fates| || Finish(r, starts, i) <= now + r.delay) {
        var at := Finish(r, starts, i);
        match Outcome(r, i) {
          case None =>
            return Stream(i, at), es, states;
          case Some(kind) =>
            WithoutMembers(futures, i);
            now, futures, failed, errors := at, Without(futures, i), failed + [i], errors + [kind];
            e := Finished(i);
        }
      } else {
        now, starts, futures := now + r.delay, starts + [now + r.delay], futures + [|starts|];
      }
      next := Engine(now, starts, futures, failed);
      assert Step(r, s, e, next);
      StepKeepsCounted(r, s, e, next);
      es, states := es + [e], states + [next];
    }
    return AllFailed(errors, now), es, states;
  }

  /** Some future in flight that no other precedes. */
  method EarliestFuture(r: Race, starts: seq<nat>, futures: seq<nat>) returns (i: nat)
    requires futures != [] && |starts| <= |r.fates|
    requires forall k :: 0 <= k < |futures| ==> futures[k] < |starts|
    ensures i in futures && i < |starts|
    ensures forall k :: 0 <= k < |futures| ==> Finish(r, starts, i) <= Finish(r, starts, futures[k])
  {
    ghost var first := EarliestExists(r, starts, futures);
    i :| i in futures && i < |starts| &&
         forall k :: 0 <= k < |futures| ==> Finish(r, starts, i) <= Finish(r, starts, futures[k]);
  }

  lemma {:induction false} EarliestExists(r: Race, starts: seq<nat>, futures: seq<nat>) returns (i: nat)
    requires futures != [] && |starts| <= |r.fates|
    requires forall k :: 0 <= k < |futures| ==> futures[k] < |starts|
    ensures i in futures && i < |starts|
    ensures forall k :: 0 <= k < |futures| ==> Finish(r, starts, i) <= Finish(r, starts, futures[k])
  {
    i := futures[0];
    if |futures| > 1 {
      var j := EarliestExists(r, starts, futures[1..]);
      assert forall k :: 1 <= k < |futures| ==> futures[k] == futures[1..][k - 1];
      if Finish(r, starts, j) < Finish(r, starts, i) {
        i := j;
      }
    }
  }

  // ---------- the invariant ----------

  ghost predicate Increasing(xs: seq<nat>) {
    forall j, k :: 0 <= j < k < |xs| ==> xs[j] < xs[k]
  }

  /** Conservation: the started addresses are a prefix of the order, each in flight or failed, once. */
  ghost predicate Counted(s: Engine) {
    && Increasing(s.flight)
    && (forall j, k :: 0 <= j < k < |s.failed| ==> s.failed[j] != s.failed[k])
    && (forall i :: 0 <= i < |s.starts| ==> (i in s.flight <==> i !in s.failed))
    && |s.flight| + |s.failed| == |s.starts|
  }

  /** The longest a failure can push the next start back. */
  function Setback(r: Race): nat {
    if r.delay <= r.timeout then r.delay else r.timeout
  }

  /** The largest possible time between two consecutive starts, on average. */
  function Lag(r: Race): nat {
    r.delay + Setback(r)
  }

  /** Timing: starts are at least a delay and on average at most a lag apart; while addresses remain, every
      start has cost a delay and every failure at most a setback; nothing in flight is overdue. */
  ghost predicate Paced(r: Race, s: Engine)
    requires Shaped(r, s)
  {
    && s.starts[0] == 0
    && (forall k :: 0 < k < |s.starts| ==> s.starts[k - 1] + r.delay <= s.starts[k])
    && (forall k :: 0 <= k < |s.starts| ==> s.starts[k] <= k * Lag(r))
    && s.starts[|s.starts| - 1] <= s.now
    && (|s.starts| < |r.fates| ==> s.now <= (|s.starts| - 1) * r.delay + |s.failed| * Setback(r))
    && (forall k :: 0 <= k < |s.flight| ==> s.now <= Finish(r, s.starts, s.flight[k]))
  }

  /** The failures were collected in the order in which they happened. */
  ghost predicate Collected(r: Race, s: Engine)
    requires Shaped(r, s)
  {
    && (forall k :: 0 <= k < |s.failed| ==>
          Outcome(r, s.failed[k]).Some? && Finish(r, s.starts, s.failed[k]) <= s.now)
    && (forall j, k :: 0 <= j < k < |s.failed| ==>
          Finish(r, s.starts, s.failed[j]) <= Finish(r, s.starts, s.failed[k]))
  }

  ghost predicate Uncrowded(r: Race, s: Engine) {
    && (r.timeout > 0 && s.flight != [] ==> (|s.flight| - 1) * r.delay < r.timeout)
    && (r.timeout < r.delay ==> |s.flight| <= 1)
  }

  ghost predicate Inv(r: Race, s: Engine)
    requires Shaped(r, s)
  {
    Counted(s) && Paced(r, s) && Collected(r, s) && Uncrowded(r, s)
  }

  lemma {:induction false} WithoutMembers(xs: seq<nat>, i: nat)
    requires Increasing(xs) && i in xs
    ensures Increasing(Without(xs, i)) && |Without(xs, i)| == |xs| - 1
    ensures forall j :: j in Without(xs, i) <==> j in xs && j != i
  {
    assert xs == [xs[0]] + xs[1..];
    if xs[0] != i {
      var ys := Without(xs[1..], i);
      WithoutMembers(xs[1..], i);
      forall k | 0 <= k < |ys|
        ensures xs[0] < ys[k]
      {
        assert ys[k] in xs[1..];
      }
    }
  }

  lemma StepKeepsCounted(r: Race, s: Engine, e: Event, t: Engine)
    requires Counted(s) && Step(r, s, e, t)
    ensures Shaped(r, t) && Counted(t)
  {
    match e {
      case Finished(i) =>
        WithoutMembers(s.flight, i);
        forall k | 0 <= k < |t.flight|
          ensures t.flight[k] < |t.starts|
        {
          assert t.flight[k] in Without(s.flight, i);
        }
        assert i !in s.failed;
      case Launched =>
        var n := |s.starts|;
        assert n !in s.failed && n in t.flight;
    }
  }

  lemma FinishKeepsPaced(r: Race, s: Engine, i: nat, t: Engine)
    requires Counted(s) && Shaped(r, t) && Step(r, s, Finished(i), t) && Paced(r, s) && Uncrowded(r, s)
    ensures Paced(r, t)
  {
    WithoutMembers(s.flight, i);
    forall k | 0 <= k < |t.flight|
      ensures t.now <= Finish(r, t.starts, t.flight[k])
    {
      assert t.flight[k] in s.flight;
    }
    var n, f := |s.starts|, |s.failed|;
    OneMore(f, Setback(r));
    if r.timeout < r.delay {
      assert f == n - 1;
      assert t.now <= s.starts[i] + r.timeout;
      Scaled(i, n - 1, Lag(r));
      Split(n - 1, r.delay, Setback(r));
    }
    assert |s.starts| < |r.fates| ==> t.now <= (n - 1) * r.delay + (f + 1) * Setback(r);
  }

  lemma LaunchKeepsPaced(r: Race, s: Engine, t: Engine)
    requires Counted(s) && Shaped(r, t) && Step(r, s, Launched, t) && Paced(r, s)
    ensures Paced(r, t)
  {
    var n, f := |s.starts|, |s.failed|;
    OneMore(n - 1, r.delay);
    assert t.now <= n * r.delay + f * Setback(r);
    Scaled(f, n, Setback(r));
    Split(n, r.delay, Setback(r));
    forall k | 0 <= k < |t.starts|
      ensures t.starts[k] <= k * Lag(r)
      ensures 0 < k ==> t.starts[k - 1] + r.delay <= t.starts[k]
    {
      if k < n {
        assert t.starts[k] == s.starts[k];
      }
    }
    forall k | 0 <= k < |t.flight|
      ensures t.now <= Finish(r, t.starts, t.flight[k])
    {
      if k < |s.flight| {
        assert t.flight[k] == s.flight[k];
      }
    }
  }

  lemma StepKeepsCollected(r: Race, s: Engine, e: Event, t: Engine)
    requires Shaped(r, t) && Step(r, s, e, t) && Paced(r, s) && Collected(r, s)
    ensures Collected(r, t)
  {
    match e {
      case Finished(i) =>
        assert s.now <= Finish(r, s.starts, i);
      case Launched =>
        forall k | 0 <= k < |s.starts|
          ensures Finish(r, t.starts, k) == Finish(r, s.starts, k)
        {
        }
    }
  }

  lemma StepKeepsUncrowded(r: Race, s: Engine, e: Event, t: Engine)
    requires Counted(s) && Shaped(r, t) && Step(r, s, e, t) && Paced(r, s) && Paced(r, t) && Uncrowded(r, s)
    ensures Uncrowded(r, t)
  {
    var n := |s.starts|;
    match e {
      case Finished(i) =>
        WithoutMembers(s.flight, i);
        Scaled(|t.flight| - 1, |s.flight| - 1, r.delay);
      case Launched =>
        if s.flight != [] {
          var oldest := s.flight[0];
          assert t.now < Finish(r, s.starts, oldest) <= s.starts[oldest] + r.timeout;
          Spread(r, t.starts, oldest, n);
          IncreasingGap(s.flight);
          Scaled(|s.flight|, n - oldest, r.delay);
        }
    }
  }

  lemma OneMore(x: int, d: nat)
    ensures (x + 1) * d == x * d + d
  {
  }

  lemma Split(x: int, d: nat, e: nat)
    ensures x * (d + e) == x * d + x * e
  {
  }

  lemma Scaled(x: int, y: int, d: nat)
    requires x <= y
    ensures x * d <= y * d
  {
  }

  lemma {:induction false} Spread(r: Race, starts: seq<nat>, a: nat, b: nat)
    requires a <= b < |starts|
    requires forall k :: 0 < k < |starts| ==> starts[k - 1] + r.delay <= starts[k]
    ensures starts[a] + (b - a) * r.delay <= starts[b]
    decreases b
  {
    if a < b {
      Spread(r, starts, a, b - 1);
      OneMore(b - 1 - a, r.delay);
    }
  }

  lemma {:induction false} IncreasingGap(xs: seq<nat>)
    requires xs != [] && Increasing(xs)
    ensures xs[0] + |xs| - 1 <= xs[|xs| - 1]
    decreases |xs|
  {
    if |xs| > 1 {
      IncreasingGap(xs[..|xs| - 1]);
    }
  }

  /** Every iteration keeps the invariant. */
  lemma StepKeepsInv(r: Race, s: Engine, e: Event, t: Engine)
    requires Shaped(r, s) && Inv(r, s) && Step(r, s, e, t)
    ensures Shaped(r, t) && Inv(r, t)
  {
    StepKeepsCounted(r, s, e, t);
    match e {
      case Finished(i) => FinishKeepsPaced(r, s, i, t);
      case Launched => LaunchKeepsPaced(r, s, t);
    }
    StepKeepsCollected(r, s, e, t);
    StepKeepsUncrowded(r, s, e, t);
  }

  /** Every state at the loop head satisfies the invariant, and the iterations so far are the attempts
      started after the first one and the failures. */
  lemma {:induction false} RunInv(r: Race, es: seq<Event>, states: seq<Engine>, k: nat)
    requires Run(r, es, states) && k <= |es|
    ensures Shaped(r, states[k]) && Inv(r, states[k])
    ensures k == |states[k].starts| - 1 + |states[k].failed| < 2 * |r.fates|
    decreases k
  {
    if k > 0 {
      RunInv(r, es, states, k - 1);
      assert Step(r, states[k - 1], es[k - 1], states[k]);
      StepKeepsInv(r, states[k - 1], es[k - 1], states[k]);
    }
  }
}
