/** When the documented pacing holds: attempts that start at exact multiples of the delay. */
module Pacing {
  import opened Wire
  import opened Errors
  import opened ConnectEngine

  /** Attempt `i` starts `i` delays after the first one. */
  ghost predicate OnSchedule(r: Race, starts: seq<nat>) {
    forall i :: 0 <= i < |starts| ==> starts[i] == i * r.delay
  }

  /** None of the first `m` attempts but the last, started on schedule, would end while a later one of them
      is still waiting to be started; one that ends at once is no disturbance. */
  ghost predicate NoneInterferes(r: Race, m: nat)
    requires m <= |r.fates|
  {
    forall j :: 0 <= j < m - 1 ==> Duration(r, j) == 0 || j * r.delay + Duration(r, j) > (m - 1) * r.delay
  }

  /** Attempts start at exact multiples of the delay precisely when none of them ends while a later one is
      waiting: every failure in between starts the delay anew. This holds of the attempts started so far in
      every state of every run. */
  lemma OnScheduleIff(r: Race, es: seq<Event>, states: seq<Engine>, k: nat)
    requires Run(r, es, states) && k <= |es|
    ensures |states[k].starts| <= |r.fates|
    ensures OnSchedule(r, states[k].starts) <==> NoneInterferes(r, |states[k].starts|)
  {
    RunInv(r, es, states, k);
    if NoneInterferes(r, |states[k].starts|) {
      UndisturbedOnSchedule(r, es, states, k, |states[k].starts|);
    }
    if OnSchedule(r, states[k].starts) {
      OnScheduleUndisturbed(r, es, states, k);
    }
  }

  /** Without interference among the first `m` attempts, no failure moves the clock while one of them waits. */
  lemma {:induction false} UndisturbedOnSchedule(r: Race, es: seq<Event>, states: seq<Engine>, k: nat, m: nat)
    requires Run(r, es, states) && k <= |es| && |states[k].starts| <= m <= |r.fates| && NoneInterferes(r, m)
    ensures OnSchedule(r, states[k].starts)
    ensures |states[k].starts| < m ==> states[k].now == (|states[k].starts| - 1) * r.delay
    decreases k
  {
    if k > 0 {
      var s, t := states[k - 1], states[k];
      var c := |s.starts|;
      assert Step(r, s, es[k - 1], t);
      RunInv(r, es, states, k - 1);
      UndisturbedOnSchedule(r, es, states, k - 1, m);
      OneMore(c - 1, r.delay);
      if es[k - 1].Finished? && c < m {
        var i := es[k - 1].attempt;
        assert s.now <= Finish(r, s.starts, i) <= c * r.delay;
        Scaled(c, m - 1, r.delay);
        Scaled(i, c - 1, r.delay);
        assert Duration(r, i) == 0;
      }
    }
  }

  lemma {:induction false} OnScheduleUndisturbed(r: Race, es: seq<Event>, states: seq<Engine>, k: nat)
    requires Run(r, es, states) && k <= |es| && OnSchedule(r, states[k].starts)
    ensures |states[k].starts| <= |r.fates| && NoneInterferes(r, |states[k].starts|)
    decreases k
  {
    RunInv(r, es, states, k);
    if k > 0 {
      var s, t := states[k - 1], states[k];
      assert Step(r, s, es[k - 1], t);
      assert forall i :: 0 <= i < |s.starts| ==> s.starts[i] == t.starts[i];
      RunInv(r, es, states, k - 1);
      OnScheduleUndisturbed(r, es, states, k - 1);
      if es[k - 1].Launched? {
        LaunchUndisturbed(r, s, t);
      }
    }
  }

  lemma LaunchUndisturbed(r: Race, s: Engine, t: Engine)
    requires Step(r, s, Launched, t) && Inv(r, s) && NoneInterferes(r, |s.starts|) && OnSchedule(r, t.starts)
    ensures NoneInterferes(r, |t.starts|)
  {
    var c := |s.starts|;
    OneMore(c - 1, r.delay);
    assert t.starts[c] == c * r.delay && s.now == (c - 1) * r.delay;
    forall j | 0 <= j < c
      ensures Duration(r, j) == 0 || j * r.delay + Duration(r, j) > c * r.delay
    {
      assert t.starts[j] == s.starts[j] == j * r.delay;
      if j in s.flight {
        assert t.now < Finish(r, s.starts, j);
      } else {
        assert j in s.failed;
        assert Finish(r, s.starts, j) <= s.now;
      }
    }
  }

  const QUICK_REFUSAL: Race := Race([Fate(100, Some(KindConnectionRefused)), Fate(0, None)], 250, 10000)

  /** The documented interval of 250 milliseconds, missed: a refusal after 100, and the second attempt starts
      after 350; no run of this race keeps the schedule. */
  lemma QuickRefusalDelaysTheNext() returns (es: seq<Event>, states: seq<Engine>)
    ensures Run(QUICK_REFUSAL, es, states) && states[|es|].starts == [0, 350]
    ensures !NoneInterferes(QUICK_REFUSAL, 2)
  {
    var r := QUICK_REFUSAL;
    var refused := Engine(100, [0], [], [0]);
    assert Finish(r, [0], 0) == 100 && Without([0], 0) == [];
    assert Step(r, Kickoff, Finished(0), refused);
    assert Step(r, refused, Launched, Engine(350, [0, 350], [1], [0]));
    es, states := [Finished(0), Launched], [Kickoff, refused, Engine(350, [0, 350], [1], [0])];
    assert Duration(r, 0) == 100;
  }
}
