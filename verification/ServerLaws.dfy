/** What every run of the server guarantees. */
module ServerLaws {
  import opened ServerLifecycle

  /** Permits are conserved: free, in the accept loop's hand, or with a handler task; so the number of live
      handlers never exceeds the limit. */
  lemma ConnectionLimit(actions: seq<Action>, states: seq<Server>, k: nat)
    requires Run(actions, states) && k <= |actions| && states[0].limit > 0
    ensures var s := states[k];
            && s.available + PermitInHand(s) + HeldByTasks(s) == states[0].limit
            && Live(s) <= HeldByTasks(s) <= states[0].limit
  {
    RunInv(actions, states, k);
    SumMonotone(states[k].tasks, OneIfLive, OneIfHolding);
  }

  /** No permit leaks: when every task is gone and the loop waits for a permit, all of them are free. */
  lemma PermitsComeBack(actions: seq<Action>, states: seq<Server>, k: nat)
    requires Run(actions, states) && k <= |actions| && states[0].limit > 0
    requires states[k].stage.Acquiring?
    ensures states[k].available == states[0].limit <==> forall id :: 0 <= id < |states[k].tasks| ==> states[k].tasks[id] == Gone
    ensures Enabled(states[k], AcquirePermit) <==> HeldByTasks(states[k]) < states[0].limit
  {
    RunInv(actions, states, k);
    SumZeroIff(states[k].tasks, OneIfHolding);
  }

  /** The completion channel counts the live handlers, plus one while the listener holds its sender. */
  lemma SendersCountHandlers(actions: seq<Action>, states: seq<Server>, k: nat)
    requires Run(actions, states) && k <= |actions|
    ensures states[k].senders == Live(states[k]) + (if Listening(states[k]) then 1 else 0)
  {
    RunInv(actions, states, k);
  }

  /** Once the listener future is gone, no handler is added and none comes back to life. */
  lemma {:induction false} NoHandlerAfterStop(actions: seq<Action>, states: seq<Server>, j: nat, k: nat)
    requires Run(actions, states) && j <= k <= |actions| && !Listening(states[j])
    ensures !Listening(states[k])
    ensures |states[k].tasks| == |states[j].tasks|
    ensures forall id :: 0 <= id < |states[k].tasks| && IsLive(states[k].tasks[id]) ==> IsLive(states[j].tasks[id])
    ensures Live(states[k]) <= Live(states[j])
    decreases k
  {
    if j < k {
      NoHandlerAfterStop(actions, states, j, k - 1);
      StepAfterStop(states[k - 1], actions[k - 1]);
      assert states[k] == Apply(states[k - 1], actions[k - 1]);
    }
  }

  lemma StepAfterStop(s: Server, a: Action)
    requires Enabled(s, a) && !Listening(s)
    ensures var t := Apply(s, a);
            && !Listening(t) && |t.tasks| == |s.tasks|
            && (forall id :: 0 <= id < |t.tasks| && IsLive(t.tasks[id]) ==> IsLive(s.tasks[id]))
            && Live(t) <= Live(s)
  {
    match a {
      case Negotiated(id) => TaskStepKeepsInv(s, id, Processing);
      case Handled(id) => TaskStepKeepsInv(s, id, Relaying);
      case HandlerFails(id) => TaskStepKeepsInv(s, id, Returned);
      case HandlerInterrupted(id) => TaskStepKeepsInv(s, id, Returned);
      case RelayEnds(id) => TaskStepKeepsInv(s, id, Returned);
      case PermitDropped(id) => TaskStepKeepsInv(s, id, Gone);
      case _ =>
    }
  }

  ghost predicate SomeRelay(s: Server) {
    exists id :: 0 <= id < |s.tasks| && s.tasks[id] == Relaying
  }

  /** The drain's verdict: graceful exactly when no handler is live; and, for a positive shutdown timeout,
      exactly when no relay is running then, since a forced exit happens only at the deadline. */
  lemma DrainVerdict(actions: seq<Action>, states: seq<Server>, k: nat, graceful: bool)
    requires Run(actions, states) && k < |actions|
    requires states[k].stage.Draining? && states[k + 1].stage == Stopped(graceful)
    ensures graceful <==> Live(states[k]) == 0
    ensures !graceful ==> states[k].now == states[k].stage.deadline
    ensures states[0].shutdownTimeout > 0 ==> (graceful <==> !SomeRelay(states[k]))
  {
    RunInv(actions, states, k);
    var s := states[k];
    assert Enabled(s, actions[k]) && states[k + 1] == Apply(s, actions[k]);
    SumZeroIff(s.tasks, OneIfLive);
    if !graceful && states[0].shutdownTimeout > 0 {
      var id :| 0 <= id < |s.tasks| && OneIfLive(s.tasks[id]) != 0;
      assert !Interruptible(s.tasks[id]);
      assert s.tasks[id] == Relaying;
    }
  }

  /** If at some moment of the drain no handler is live, the drain cannot end otherwise than gracefully. */
  lemma IdleDrainIsGraceful(actions: seq<Action>, states: seq<Server>, j: nat, k: nat, graceful: bool)
    requires Run(actions, states) && j <= k < |actions|
    requires states[j].stage.Draining? && Live(states[j]) == 0
    requires states[k].stage.Draining? && states[k + 1].stage == Stopped(graceful)
    ensures graceful
  {
    NoHandlerAfterStop(actions, states, j, k);
    DrainVerdict(actions, states, k, graceful);
  }

  // ---------- shutdown terminates ----------

  const StepsLeft: Task -> nat := (t: Task) =>
    match t
    case Negotiating => 4
    case Processing => 3
    case Relaying => 2
    case Returned => 1
    case Gone => 0

  function DrainMeasure(s: Server): int {
    if s.stage.Draining? then 1 + (s.stage.deadline - s.now) + Sum(s.tasks, StepsLeft) else 0
  }

  /** Steps that need nothing from clients, targets or the resolver. */
  predicate OwnStep(a: Action) {
    a.HandlerInterrupted? || a.AllSendersGone? || a.TimeoutExpires? || a.Tick?
  }

  /** The drain ends by its deadline whatever the handlers do: every step uses up a measure bounded by the
      timeout and the tasks, and the server can always take a step of its own. */
  lemma DrainTerminates(actions: seq<Action>, states: seq<Server>, k: nat)
    requires Run(actions, states) && k <= |actions| && states[k].stage.Draining?
    ensures states[k].now <= states[k].stage.deadline
    ensures 0 < DrainMeasure(states[k])
    ensures k < |actions| ==> DrainMeasure(states[k + 1]) < DrainMeasure(states[k])
    ensures exists a :: OwnStep(a) && Enabled(states[k], a)
  {
    RunInv(actions, states, k);
    var s := states[k];
    if k < |actions| {
      assert Enabled(s, actions[k]) && states[k + 1] == Apply(s, actions[k]);
      StepUsesMeasure(s, actions[k]);
    }
    if s.senders == 0 {
      assert Enabled(s, AllSendersGone) && OwnStep(AllSendersGone);
    } else if s.now == s.stage.deadline {
      assert Enabled(s, TimeoutExpires) && OwnStep(TimeoutExpires);
    } else if NoneInterruptible(s.tasks) {
      assert Enabled(s, Tick) && OwnStep(Tick);
    } else {
      var id :| 0 <= id < |s.tasks| && Interruptible(s.tasks[id]);
      assert Enabled(s, HandlerInterrupted(id)) && OwnStep(HandlerInterrupted(id));
    }
  }

  lemma StepUsesMeasure(s: Server, a: Action)
    requires Inv(s) && Enabled(s, a) && s.stage.Draining?
    ensures DrainMeasure(Apply(s, a)) < DrainMeasure(s)
  {
    if OfTask(a) {
      var t := Apply(s, a).tasks[a.id];
      SumUpdate(s.tasks, a.id, t, StepsLeft);
      assert Apply(s, a).tasks == s.tasks[a.id := t];
      assert StepsLeft(t) < StepsLeft(s.tasks[a.id]);
    }
  }
}
