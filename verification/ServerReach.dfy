/** Exactly which states the server can reach. */
module ServerReach {
  import opened ServerLifecycle

  ghost predicate Reached(s: Server) {
    exists actions, states :: Run(actions, states) && states[|actions|] == s
  }

  /** As each handler was spawned there was a permit for it beside those that earlier ones still hold. */
  ghost predicate Spawnable(limit: nat, tasks: seq<Task>) {
    limit > 0 ==> forall k :: 0 <= k < |tasks| ==> Sum(tasks[..k], OneIfHolding) < limit
  }

  /** Time passes in the drain, and an exit is forced, only for handlers. */
  ghost predicate StagePossible(s: Server) {
    match s.stage
    case Draining(since, _) => since < s.now ==> s.tasks != []
    case Stopped(graceful) =>
      if graceful then Live(s) == 0
      else s.tasks != [] && s.shutdownTimeout <= s.now && (s.shutdownTimeout > 0 ==> NoneInterruptible(s.tasks))
    case _ => true
  }

  ghost predicate Possible(s: Server) {
    && Inv(s)
    && (s.limit == 0 ==> s.available == 0)
    && Spawnable(s.limit, s.tasks)
    && StagePossible(s)
  }

  // ---------- what is reached is possible ----------

  lemma SpawnableAfter(limit: nat, tasks: seq<Task>, id: nat, t: Task)
    requires Spawnable(limit, tasks) && id < |tasks|
    requires OneIfHolding(t) <= OneIfHolding(tasks[id]) || id == |tasks| - 1
    ensures Spawnable(limit, tasks[id := t])
  {
    var changed := tasks[id := t];
    forall k | limit > 0 && 0 <= k < |changed|
      ensures Sum(changed[..k], OneIfHolding) < limit
    {
      if id < k {
        assert changed[..k] == tasks[..k][id := t];
        SumUpdate(tasks[..k], id, t, OneIfHolding);
      } else {
        assert changed[..k] == tasks[..k];
      }
    }
  }

  lemma SpawnableMore(limit: nat, tasks: seq<Task>, t: Task)
    requires Spawnable(limit, tasks) && (limit > 0 ==> Sum(tasks, OneIfHolding) < limit)
    ensures Spawnable(limit, tasks + [t])
  {
    forall k | limit > 0 && 0 <= k < |tasks + [t]|
      ensures Sum((tasks + [t])[..k], OneIfHolding) < limit
    {
      assert (tasks + [t])[..k] == tasks[..k];
      assert tasks[..|tasks|] == tasks;
    }
  }

  lemma NoneLiveIff(s: Server)
    ensures Live(s) == 0 <==> forall k :: 0 <= k < |s.tasks| ==> !IsLive(s.tasks[k])
  {
    SumZeroIff(s.tasks, OneIfLive);
    forall k | 0 <= k < |s.tasks|
      ensures OneIfLive(s.tasks[k]) == 0 <==> !IsLive(s.tasks[k])
    {
    }
  }

  lemma TaskStepKeepsPossible(s: Server, a: Action)
    requires Possible(s) && Enabled(s, a) && OfTask(a)
    ensures Possible(Apply(s, a))
  {
    StepKeepsInv(s, a);
    var t := Apply(s, a);
    assert t.tasks == s.tasks[a.id := t.tasks[a.id]];
    SpawnableAfter(s.limit, s.tasks, a.id, t.tasks[a.id]);
    NoneLiveIff(s);
    NoneLiveIff(t);
  }

  lemma StepKeepsPossible(s: Server, a: Action)
    requires Possible(s) && Enabled(s, a)
    ensures Possible(Apply(s, a))
  {
    if OfTask(a) {
      TaskStepKeepsPossible(s, a);
    } else {
      StepKeepsInv(s, a);
      if a.AcceptConnection? {
        SpawnableMore(s.limit, s.tasks, Negotiating);
      }
    }
  }

  lemma {:induction false} ReachedIsPossible(actions: seq<Action>, states: seq<Server>, k: nat)
    requires Run(actions, states) && k <= |actions|
    ensures Possible(states[k])
    decreases k
  {
    if k > 0 {
      ReachedIsPossible(actions, states, k - 1);
      assert Enabled(states[k - 1], actions[k - 1]);
      StepKeepsPossible(states[k - 1], actions[k - 1]);
    }
  }

  // ---------- what is possible is reached ----------

  const StepsDone: Task -> nat := (t: Task) =>
    match t
    case Negotiating => 0
    case Processing => 1
    case Relaying => 2
    case Returned => 3
    case Gone => 4

  /** `a` leads from the possible state `p` to `s`. */
  ghost predicate LeadsTo(p: Server, a: Action, s: Server) {
    Possible(p) && Enabled(p, a) && Apply(p, a) == s
  }

  /** The phase that a task was in before. */
  function Before(t: Task): Task {
    match t
    case Gone => Returned
    case Returned => Relaying
    case Relaying => Processing
    case _ => Negotiating
  }

  function StepInto(t: Task, id: nat): Action {
    match t
    case Gone => PermitDropped(id)
    case Returned => RelayEnds(id)
    case Relaying => Handled(id)
    case _ => Negotiated(id)
  }

  /** One task a step earlier. */
  function Earlier(s: Server, id: nat): Server
    requires id < |s.tasks| && (s.tasks[id] == Gone && s.limit > 0 ==> s.available > 0)
  {
    s.(tasks := s.tasks[id := Before(s.tasks[id])],
       senders := if s.tasks[id] == Returned then s.senders + 1 else s.senders,
       available := if s.tasks[id] == Gone && s.limit > 0 then s.available - 1 else s.available)
  }

  ghost predicate CanStepBack(s: Server, id: nat) {
    && id < |s.tasks| && s.tasks[id] != Negotiating && s.stage != Stopped(true)
    && (s.tasks[id] == Gone && s.limit > 0 ==> s.available > 0)
    && (s.tasks[id] == Returned || id == |s.tasks| - 1)
    && (Listening(s) || s.tasks[id] == Returned || s.tasks[id] == Gone)
  }

  lemma EarlierKeepsInv(s: Server, id: nat)
    requires Inv(s) && CanStepBack(s, id)
    ensures Inv(Earlier(s, id))
    ensures NoneInterruptible(s.tasks) ==> Listening(s) || NoneInterruptible(Earlier(s, id).tasks)
  {
    TaskStepKeepsInv(s, id, Before(s.tasks[id]));
  }

  lemma EarlierLeads(s: Server, id: nat)
    requires CanStepBack(s, id)
    ensures Enabled(Earlier(s, id), StepInto(s.tasks[id], id))
    ensures Apply(Earlier(s, id), StepInto(s.tasks[id], id)) == s
  {
    assert Earlier(s, id).tasks[id := s.tasks[id]] == s.tasks;
  }

  lemma TaskBack(s: Server, id: nat) returns (p: Server)
    requires Possible(s) && CanStepBack(s, id)
    ensures LeadsTo(p, StepInto(s.tasks[id], id), s)
    ensures p.stage == s.stage && p.now == s.now && |p.tasks| == |s.tasks|
    ensures Sum(p.tasks, StepsDone) < Sum(s.tasks, StepsDone)
  {
    p := Earlier(s, id);
    EarlierKeepsInv(s, id);
    EarlierLeads(s, id);
    SpawnableAfter(s.limit, s.tasks, id, Before(s.tasks[id]));
    SumUpdate(s.tasks, id, Before(s.tasks[id]), StepsDone);
  }

  /** When no handler is live, one that is not gone returned last, or else the last one's permit was dropped last. */
  lemma ReturnBack(s: Server) returns (p: Server, a: Action)
    requires Possible(s) && !Listening(s) && s.stage != Stopped(true) && s.tasks != [] && Live(s) == 0
    ensures LeadsTo(p, a, s) && p.stage == s.stage && p.now == s.now && |p.tasks| == |s.tasks|
    ensures Sum(p.tasks, StepsDone) < Sum(s.tasks, StepsDone)
  {
    NoneLiveIff(s);
    var id := |s.tasks| - 1;
    if k :| 0 <= k < |s.tasks| && s.tasks[k] == Returned {
      id := k;
    } else {
      forall k | 0 <= k < |s.tasks|
        ensures OneIfHolding(s.tasks[k]) == 0
      {
        assert !IsLive(s.tasks[k]) && s.tasks[k] != Returned;
      }
      SumZeroIff(s.tasks, OneIfHolding);
    }
    p := TaskBack(s, id);
    a := StepInto(s.tasks[id], id);
  }

  lemma ListeningBack(s: Server) returns (p: Server, a: Action)
    requires Possible(s) && Listening(s) && s != Started(s.limit, s.shutdownTimeout)
    ensures LeadsTo(p, a, s) && Listening(p)
    ensures p.now < s.now || (p.now == s.now && (|p.tasks| < |s.tasks| || (|p.tasks| == |s.tasks| &&
            (Sum(p.tasks, StepsDone) < Sum(s.tasks, StepsDone) || (p.tasks == s.tasks && p.stage.Acquiring? && s.stage.Accepting?)))))
  {
    var n := |s.tasks|;
    if s.now > 0 {
      p, a := s.(now := s.now - 1), Tick;
    } else if s.stage.Accepting? {
      p, a := s.(stage := Acquiring, available := if s.limit > 0 then s.available + 1 else s.available), AcquirePermit;
    } else if s.tasks[n - 1] == Negotiating {
      p := UnspawnLast(s);
      a := AcceptConnection;
    } else {
      p := TaskBack(s, n - 1);
      a := StepInto(s.tasks[n - 1], n - 1);
    }
  }

  lemma UnspawnLast(s: Server) returns (p: Server)
    requires Possible(s) && s.stage.Acquiring? && s.tasks != [] && s.tasks[|s.tasks| - 1] == Negotiating
    ensures LeadsTo(p, AcceptConnection, s) && p.stage == Accepting && p.now == s.now && |p.tasks| < |s.tasks|
  {
    var front := s.tasks[..|s.tasks| - 1];
    p := s.(stage := Accepting, tasks := front, senders := s.senders - 1);
    assert front + [Negotiating] == s.tasks;
    forall k | 0 <= k < |front|
      ensures front[..k] == s.tasks[..k]
    {
    }
  }

  lemma DrainingBack(s: Server) returns (p: Server, a: Action)
    requires Possible(s) && s.stage.Draining?
    ensures LeadsTo(p, a, s)
    ensures Listening(p) ||
            (p.stage.Draining? && (p.now < s.now ||
              (p.now == s.now && |p.tasks| == |s.tasks| && Sum(p.tasks, StepsDone) < Sum(s.tasks, StepsDone))))
  {
    if s.stage.since == s.now {
      p, a := s.(stage := Acquiring, senders := s.senders + 1), ShutdownSignal;
    } else if Live(s) > 0 {
      p, a := s.(now := s.now - 1), Tick;
    } else {
      p, a := ReturnBack(s);
    }
  }

  lemma StoppedBack(s: Server) returns (p: Server, a: Action)
    requires Possible(s) && s.stage.Stopped?
    ensures LeadsTo(p, a, s)
    ensures p.stage.Draining? ||
            (p.stage == s.stage && p.now == s.now && |p.tasks| == |s.tasks| &&
             Sum(p.tasks, StepsDone) < Sum(s.tasks, StepsDone))
  {
    if s.stage.graceful {
      p, a := s.(stage := Draining(s.now, s.now + s.shutdownTimeout)), AllSendersGone;
    } else if Live(s) > 0 {
      p, a := s.(stage := Draining(s.now - s.shutdownTimeout, s.now)), TimeoutExpires;
    } else {
      p, a := ReturnBack(s);
    }
  }

  function StageRank(s: Stage): nat {
    match s
    case Acquiring => 0
    case Accepting => 0
    case Draining(_, _) => 1
    case Stopped(_) => 2
  }

  lemma {:induction false} PossibleIsReached(s: Server)
    requires Possible(s)
    ensures Reached(s)
    decreases StageRank(s.stage), s.now, |s.tasks|, Sum(s.tasks, StepsDone), if s.stage.Accepting? then 1 else 0
  {
    if s == Started(s.limit, s.shutdownTimeout) {
      var none: seq<Action> := [];
      assert Run(none, [s]) && [s][|none|] == s;
    } else {
      var p, a;
      match s.stage {
        case Draining(_, _) => p, a := DrainingBack(s);
        case Stopped(_) => p, a := StoppedBack(s);
        case _ => p, a := ListeningBack(s);
      }
      PossibleIsReached(p);
      ReachedNext(p, a, s);
    }
  }

  lemma ReachedNext(p: Server, a: Action, s: Server)
    requires Reached(p) && Enabled(p, a) && Apply(p, a) == s
    ensures Reached(s)
  {
    var actions, states :| Run(actions, states) && states[|actions|] == p;
    var more, ss := actions + [a], states + [s];
    assert Run(more, ss) && ss[|more|] == s;
  }

  /** The states that the server can reach are exactly the possible ones. */
  lemma ReachedIff(s: Server)
    ensures Reached(s) <==> Possible(s)
  {
    if Reached(s) {
      var actions, states :| Run(actions, states) && states[|actions|] == s;
      ReachedIsPossible(actions, states, |actions|);
    }
    if Possible(s) {
      PossibleIsReached(s);
    }
  }

  // ---------- how many clients can be served ----------

  function Busy(n: nat): seq<Task> {
    seq(n, _ => Negotiating)
  }

  lemma {:induction false} BusyCounts(n: nat)
    ensures Sum(Busy(n), OneIfLive) == n && Sum(Busy(n), OneIfHolding) == n
  {
    if n > 0 {
      BusyCounts(n - 1);
      assert Busy(n)[..n - 1] == Busy(n - 1);
    }
  }

  /** A server without a limit can have any number of live handlers at once, and one with a limit any number up to
      it, while it goes on listening. */
  lemma ServesAsManyAsAllowed(limit: nat, shutdownTimeout: nat, n: nat)
    ensures (exists s :: Reached(s) && s.limit == limit && s.shutdownTimeout == shutdownTimeout && Listening(s) && Live(s) == n)
            <==> limit == 0 || n <= limit
  {
    if limit == 0 || n <= limit {
      var s := Server(limit, shutdownTimeout, if limit == 0 then 0 else limit - n, Acquiring, Busy(n), n + 1, 0);
      BusyCounts(n);
      forall k | 0 <= k < n
        ensures Sum(s.tasks[..k], OneIfHolding) == k
      {
        assert s.tasks[..k] == Busy(k);
        BusyCounts(k);
      }
      ReachedIff(s);
    }
    forall s | Reached(s) && s.limit == limit && Listening(s) && Live(s) == n
      ensures limit == 0 || n <= limit
    {
      ReachedIff(s);
      SumMonotone(s.tasks, OneIfLive, OneIfHolding);
    }
  }

  // ---------- how the listener and its handlers end ----------

  /** The listener ends by an accept error or by the signal, and not otherwise; the drain begins then. */
  lemma ListenerEndsIff(s: Server, a: Action)
    requires Reached(s) && Listening(s) && Enabled(s, a)
    ensures !Listening(Apply(s, a)) <==> a == AcceptFails || a == ShutdownSignal
    ensures !Listening(Apply(s, a)) ==>
              && Apply(s, a).stage == Draining(s.now, s.now + s.shutdownTimeout)
              && Apply(s, a).senders == Live(s)
  {
    ReachedIff(s);
  }

  /** A live handler can fail in every phase; it sees the close signal exactly before it relays, once the listener is
      gone; the relay ends by itself; each of these is one handler less, whose permit is not yet back. */
  lemma HandlerEndsWhen(s: Server, id: nat)
    requires id < |s.tasks|
    ensures Enabled(s, HandlerFails(id)) <==> s.tasks[id] in {Negotiating, Processing, Relaying}
    ensures Enabled(s, HandlerInterrupted(id)) <==> s.tasks[id] in {Negotiating, Processing} && !Listening(s)
    ensures Enabled(s, RelayEnds(id)) <==> s.tasks[id] == Relaying
    ensures forall a :: a in {HandlerFails(id), HandlerInterrupted(id), RelayEnds(id)} && Enabled(s, a) ==>
              Live(Apply(s, a)) == Live(s) - 1 && HeldByTasks(Apply(s, a)) == HeldByTasks(s)
              && Apply(s, a).available == s.available
  {
    forall a | a in {HandlerFails(id), HandlerInterrupted(id), RelayEnds(id)} && Enabled(s, a)
      ensures Live(Apply(s, a)) == Live(s) - 1 && HeldByTasks(Apply(s, a)) == HeldByTasks(s)
              && Apply(s, a).available == s.available
    {
      TaskStepKeepsInv(s, id, Returned);
    }
  }
}
