/** When the attempts start and when the call returns, worked out from the addresses alone. */
module Timetable {
  import opened Wire
  import opened ConnectEngine
  import opened ConnectLaws

  /** The instant at which the last of the attempts started so far ends. */
  function Latest(r: Race, starts: seq<nat>): nat
    requires |starts| <= |r.fates|
  {
    if starts == [] then 0
    else
      var before, last := Latest(r, starts[..|starts| - 1]), Finish(r, starts, |starts| - 1);
      if |starts| == 1 || before <= last then last else before
  }

  lemma {:induction false} LatestIsLast(r: Race, starts: seq<nat>)
    requires |starts| <= |r.fates|
    ensures forall i :: 0 <= i < |starts| ==> Finish(r, starts, i) <= Latest(r, starts)
    ensures starts != [] ==> exists i :: 0 <= i < |starts| && Finish(r, starts, i) == Latest(r, starts)
  {
    if starts != [] {
      var front := starts[..|starts| - 1];
      LatestIsLast(r, front);
      assert forall i :: 0 <= i < |front| ==> Finish(r, starts, i) == Finish(r, front, i);
      if Latest(r, starts) == Finish(r, starts, |front|) {
      } else {
        var i :| 0 <= i < |front| && Finish(r, front, i) == Latest(r, front);
        assert Finish(r, starts, i) == Latest(r, starts);
      }
    }
  }

  /** No attempt ends in the course of a sleep that begins at `x`. */
  predicate Quiet(r: Race, starts: seq<nat>, x: nat)
    requires |starts| <= |r.fates|
  {
    forall i :: 0 <= i < |starts| ==> !(x < Finish(r, starts, i) <= x + r.delay)
  }

  /** The first instant from `x` on at which an undisturbed sleep can begin. */
  function FirstQuiet(r: Race, starts: seq<nat>, x: nat): nat
    requires |starts| <= |r.fates|
    decreases Latest(r, starts) - x
  {
    if Quiet(r, starts, x) then x
    else
      LatestIsLast(r, starts);
      FirstQuiet(r, starts, x + 1)
  }

  lemma {:induction false} FirstQuietIsFirst(r: Race, starts: seq<nat>, x: nat)
    requires |starts| <= |r.fates|
    ensures var q := FirstQuiet(r, starts, x);
            && x <= q && Quiet(r, starts, q)
            && forall y :: x <= y < q ==> !Quiet(r, starts, y)
    decreases Latest(r, starts) - x
  {
    if !Quiet(r, starts, x) {
      LatestIsLast(r, starts);
      FirstQuietIsFirst(r, starts, x + 1);
    }
  }

  /** The first `m` starts: each attempt starts one delay after the first quiet instant since the one before. */
  function Starts(r: Race, m: nat): (s: seq<nat>)
    requires 0 < m <= |r.fates|
    ensures |s| == m
  {
    if m == 1 then [0]
    else
      var s := Starts(r, m - 1);
      s + [FirstQuiet(r, s, s[m - 2]) + r.delay]
  }

  /** The attempts have started by the timetable; and while an address remains, no instant since the last
      start has been quiet before now. */
  ghost predicate ByTimetable(r: Race, s: Engine)
    requires Shaped(r, s)
  {
    && s.starts == Starts(r, |s.starts|)
    && (|s.starts| < |r.fates| ==>
          forall y :: s.starts[|s.starts| - 1] <= y < s.now ==> !Quiet(r, s.starts, y))
  }

  lemma FinishByTimetable(r: Race, s: Engine, i: nat, t: Engine)
    requires Step(r, s, Finished(i), t) && Shaped(r, t) && ByTimetable(r, s)
    ensures ByTimetable(r, t)
  {
    if |s.starts| < |r.fates| {
      forall y | s.starts[|s.starts| - 1] <= y < t.now
        ensures !Quiet(r, t.starts, y)
      {
        if s.now <= y {
          assert y < Finish(r, s.starts, i) <= y + r.delay;
        }
      }
    }
  }

  lemma LaunchByTimetable(r: Race, s: Engine, t: Engine)
    requires Step(r, s, Launched, t) && Shaped(r, t) && Inv(r, s) && ByTimetable(r, s)
    ensures ByTimetable(r, t)
  {
    LaunchQuiet(r, s);
    FirstQuietIsFirst(r, s.starts, s.starts[|s.starts| - 1]);
    assert FirstQuiet(r, s.starts, s.starts[|s.starts| - 1]) == s.now;
  }

  lemma LaunchQuiet(r: Race, s: Engine)
    requires Shaped(r, s) && Launches(r, s) && Inv(r, s)
    ensures Quiet(r, s.starts, s.now)
  {
    forall i | 0 <= i < |s.starts|
      ensures !(s.now < Finish(r, s.starts, i) <= s.now + r.delay)
    {
      if i !in s.flight {
        assert i in s.failed;
      }
    }
  }

  /** Every state of every run keeps to the timetable, however ties between results are broken. */
  lemma {:induction false} RunByTimetable(r: Race, es: seq<Event>, states: seq<Engine>, k: nat)
    requires Run(r, es, states) && k <= |es|
    ensures Shaped(r, states[k]) && ByTimetable(r, states[k])
    decreases k
  {
    RunInv(r, es, states, k);
    if k > 0 {
      RunInv(r, es, states, k - 1);
      RunByTimetable(r, es, states, k - 1);
      assert Step(r, states[k - 1], es[k - 1], states[k]);
      match es[k - 1] {
        case Finished(i) => FinishByTimetable(r, states[k - 1], i, states[k]);
        case Launched => LaunchByTimetable(r, states[k - 1], states[k]);
      }
    }
  }

  // ---------- the end of the call ----------

  /** The instant at which the first of the attempts that connect ends, if there is one. */
  function FirstStream(r: Race, starts: seq<nat>): Option<nat>
    requires |starts| <= |r.fates|
  {
    if starts == [] then None
    else
      var n := |starts| - 1;
      var before, last := FirstStream(r, starts[..n]), Finish(r, starts, n);
      if Outcome(r, n).Some? || (before.Some? && before.value <= last) then before else Some(last)
  }

  lemma {:induction false} FirstStreamIsFirst(r: Race, starts: seq<nat>)
    requires |starts| <= |r.fates|
    ensures var first := FirstStream(r, starts);
            && (first.None? <==> forall i :: 0 <= i < |starts| ==> Outcome(r, i).Some?)
            && (first.Some? ==>
                  && (exists i :: 0 <= i < |starts| && Outcome(r, i).None? && Finish(r, starts, i) == first.value)
                  && (forall i :: 0 <= i < |starts| && Outcome(r, i).None? ==> first.value <= Finish(r, starts, i)))
  {
    if starts != [] {
      var front := starts[..|starts| - 1];
      FirstStreamIsFirst(r, front);
      assert forall i :: 0 <= i < |front| ==> Finish(r, starts, i) == Finish(r, front, i);
    }
  }

  /** When the call returns: as the first attempt that connects ends, or else as the last attempt ends. */
  function ReturnTime(r: Race): nat
    requires r.fates != []
  {
    var starts := Starts(r, |r.fates|);
    match FirstStream(r, starts)
    case Some(at) => at
    case None => Latest(r, starts)
  }

  lemma {:induction false} StartsPrefix(r: Race, m: nat, n: nat)
    requires 0 < m <= n <= |r.fates|
    ensures Starts(r, n)[..m] == Starts(r, m)
    ensures forall k :: m <= k < n ==> Starts(r, n)[k] >= FirstQuiet(r, Starts(r, m), Starts(r, m)[m - 1]) + r.delay
    decreases n
  {
    if m < n {
      StartsPrefix(r, m, n - 1);
      var s := Starts(r, n - 1);
      FirstQuietIsFirst(r, s, s[n - 2]);
      assert Starts(r, n) == s + [FirstQuiet(r, s, s[n - 2]) + r.delay];
      assert Starts(r, n)[..m] == s[..m];
    }
  }

  lemma NotQuietYet(r: Race, s: Engine)
    requires Shaped(r, s) && ByTimetable(r, s) && |s.starts| < |r.fates|
    ensures s.now <= FirstQuiet(r, s.starts, s.starts[|s.starts| - 1])
  {
    FirstQuietIsFirst(r, s.starts, s.starts[|s.starts| - 1]);
  }

  /** Where the full timetable agrees with the starts of a run that has ended, and where it goes on from there. */
  lemma EndByTimetable(r: Race, es: seq<Event>, states: seq<Engine>)
    requires Run(r, es, states)
    ensures var s, all := states[|es|], Starts(r, |r.fates|);
            && Shaped(r, s)
            && (forall i :: 0 <= i < |s.starts| ==> Finish(r, all, i) == Finish(r, s.starts, i))
            && (forall i :: |s.starts| <= i < |r.fates| ==> s.now + r.delay <= all[i])
  {
    RunInv(r, es, states, |es|);
    RunByTimetable(r, es, states, |es|);
    var s, n := states[|es|], |r.fates|;
    StartsPrefix(r, |s.starts|, n);
    if |s.starts| < n {
      NotQuietYet(r, s);
    }
    forall i | 0 <= i < |s.starts|
      ensures Starts(r, n)[i] == s.starts[i]
    {
      assert Starts(r, n)[..|s.starts|][i] == s.starts[i];
    }
  }

  lemma FirstStreamIs(r: Race, starts: seq<nat>, w: nat)
    requires w < |starts| <= |r.fates| && Outcome(r, w).None?
    requires forall i :: 0 <= i < |starts| && Outcome(r, i).None? ==> Finish(r, starts, w) <= Finish(r, starts, i)
    ensures FirstStream(r, starts) == Some(Finish(r, starts, w))
  {
    FirstStreamIsFirst(r, starts);
  }

  lemma LatestIs(r: Race, starts: seq<nat>, w: nat)
    requires w < |starts| <= |r.fates|
    requires forall i :: 0 <= i < |starts| ==> Finish(r, starts, i) <= Finish(r, starts, w)
    ensures Latest(r, starts) == Finish(r, starts, w)
  {
    LatestIsLast(r, starts);
  }

  lemma StreamOnTime(r: Race, es: seq<Event>, states: seq<Engine>, v: Verdict)
    requires Run(r, es, states) && Ends(r, states[|es|], v) && v.Stream?
    ensures FirstStream(r, Starts(r, |r.fates|)) == Some(v.at)
  {
    EndByTimetable(r, es, states);
    var all := Starts(r, |r.fates|);
    assert Finish(r, all, v.winner) == v.at;
    forall i | 0 <= i < |all| && Outcome(r, i).None?
      ensures v.at <= Finish(r, all, i)
    {
      if i < |states[|es|].starts| {
        assert Reachable(r, i);
        FirstSuccessWins(r, es, states, v, i);
      }
    }
    FirstStreamIs(r, all, v.winner);
  }

  lemma FailureOnTime(r: Race, es: seq<Event>, states: seq<Engine>, v: Verdict)
    requires Run(r, es, states) && Ends(r, states[|es|], v) && v.AllFailed?
    ensures forall i :: 0 <= i < |r.fates| ==> Outcome(r, i).Some?
    ensures Latest(r, Starts(r, |r.fates|)) == v.at
  {
    RunInv(r, es, states, |es|);
    EndByTimetable(r, es, states);
    EndsWithFailure(r, es, states);
    ConnectsIffReachable(r, es, states, v);
    var s, all := states[|es|], Starts(r, |r.fates|);
    forall i | 0 <= i < |r.fates|
      ensures Outcome(r, i).Some? && Finish(r, all, i) <= v.at
    {
      assert i in s.failed && !Reachable(r, i);
    }
    LatestIs(r, all, s.failed[|s.failed| - 1]);
  }

  /** Every run of a race returns at the same instant, worked out from the addresses alone. */
  lemma ReturnsOnTime(r: Race, es: seq<Event>, states: seq<Engine>, v: Verdict)
    requires Run(r, es, states) && Ends(r, states[|es|], v)
    ensures v.at == ReturnTime(r)
  {
    if v.Stream? {
      StreamOnTime(r, es, states, v);
    } else {
      FailureOnTime(r, es, states, v);
      FirstStreamIsFirst(r, Starts(r, |r.fates|));
    }
  }

  /** Ties between results change nothing about time: any two runs of a race agree on the starts they have in
      common, and return at the same instant. */
  lemma TiesCostNoTime(r: Race, es: seq<Event>, states: seq<Engine>, v: Verdict,
                       es': seq<Event>, states': seq<Engine>, v': Verdict)
    requires Run(r, es, states) && Ends(r, states[|es|], v)
    requires Run(r, es', states') && Ends(r, states'[|es'|], v')
    ensures v.at == v'.at
    ensures states[|es|].starts <= states'[|es'|].starts || states'[|es'|].starts <= states[|es|].starts
  {
    ReturnsOnTime(r, es, states, v);
    ReturnsOnTime(r, es', states', v');
    RunByTimetable(r, es, states, |es|);
    RunByTimetable(r, es', states', |es'|);
    var m, n := |states[|es|].starts|, |states'[|es'|].starts|;
    if m <= n {
      StartsPrefix(r, m, n);
    } else {
      StartsPrefix(r, n, m);
    }
  }

  /** Every race has a run to its end. */
  lemma Completes(r: Race) returns (es: seq<Event>, states: seq<Engine>, v: Verdict)
    requires r.fates != []
    ensures Run(r, es, states) && Ends(r, states[|es|], v)
  {
    es, states, v := CompletesFrom(r, [], [Kickoff]);
  }

  lemma {:induction false} CompletesFrom(r: Race, es: seq<Event>, states: seq<Engine>)
    returns (es': seq<Event>, states': seq<Engine>, v: Verdict)
    requires Run(r, es, states)
    ensures Run(r, es', states') && Ends(r, states'[|es'|], v)
    decreases 2 * |r.fates| - |es|
  {
    LoopTerminates(r, es, states);
    if e, t :| Step(r, states[|es|], e, t) {
      LoopTerminates(r, es + [e], states + [t]);
      es', states', v := CompletesFrom(r, es + [e], states + [t]);
    } else {
      es', states' := es, states;
      v :| Ends(r, states[|es|], v);
    }
  }
}
