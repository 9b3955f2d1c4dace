/** The server's life: the accept loop, connection permits, spawned handlers and the shutdown drain,
    as a transition system over any number of handlers. */
module ServerLifecycle {

  /** A spawned handler task: its three phases; returned, so that its completion sender is dropped but not
      yet its permit; gone. */
  datatype Task = Negotiating | Processing | Relaying | Returned | Gone

  /** The server future: waiting for a permit, waiting for a connection, draining, finished. */
  datatype Stage =
    | Acquiring
    | Accepting
    | Draining(since: nat, deadline: nat)
    | Stopped(graceful: bool)

  /** `limit` is `max_connections`, where 0 means that there is no semaphore; tasks are numbered as spawned. */
  datatype Server = Server(
    limit: nat,
    shutdownTimeout: nat,
    available: nat,
    stage: Stage,
    tasks: seq<Task>,
    senders: int,
    now: nat
  )

  datatype Action =
    | AcquirePermit
    | AcceptConnection
    | AcceptFails
    | ShutdownSignal
    | Negotiated(id: nat)
    | Handled(id: nat)
    | HandlerFails(id: nat)
    | HandlerInterrupted(id: nat)
    | RelayEnds(id: nat)
    | PermitDropped(id: nat)
    | AllSendersGone
    | TimeoutExpires
    | Tick

  function Started(limit: nat, shutdownTimeout: nat): Server {
    Server(limit, shutdownTimeout, limit, Acquiring, [], 1, 0)
  }

  predicate Listening(s: Server) {
    s.stage.Acquiring? || s.stage.Accepting?
  }

  /** A task that still owns its completion sender. */
  predicate IsLive(t: Task) {
    t == Negotiating || t == Processing || t == Relaying
  }

  /** A task whose select has the close signal as a branch. */
  predicate Interruptible(t: Task) {
    t == Negotiating || t == Processing
  }

  predicate Has(s: Server, id: nat, t: Task) {
    id < |s.tasks| && s.tasks[id] == t
  }

  predicate NoneInterruptible(tasks: seq<Task>) {
    forall k :: 0 <= k < |tasks| ==> !Interruptible(tasks[k])
  }

  /** When an action can happen. Whatever is ready happens before time passes: while draining, the clock
      stands still as long as a handler can see the close signal, all senders are gone, or the time is up. */
  predicate Enabled(s: Server, a: Action) {
    match a
    case AcquirePermit => s.stage.Acquiring? && (s.limit > 0 ==> s.available > 0)
    case AcceptConnection => s.stage.Accepting?
    case AcceptFails => s.stage.Accepting?
    case ShutdownSignal => Listening(s)
    case Negotiated(id) => Has(s, id, Negotiating)
    case Handled(id) => Has(s, id, Processing)
    case HandlerFails(id) => id < |s.tasks| && IsLive(s.tasks[id])
    case HandlerInterrupted(id) => !Listening(s) && id < |s.tasks| && Interruptible(s.tasks[id])
    case RelayEnds(id) => Has(s, id, Relaying)
    case PermitDropped(id) => Has(s, id, Returned)
    case AllSendersGone => s.stage.Draining? && s.senders == 0
    case TimeoutExpires => s.stage.Draining? && s.senders > 0 && s.now >= s.stage.deadline
    case Tick =>
      s.stage.Draining? ==> s.senders > 0 && s.now < s.stage.deadline && NoneInterruptible(s.tasks)
  }

  /** The permit that the listener gives back when its future is dropped. */
  function PermitInHand(s: Server): nat {
    if s.stage.Accepting? && s.limit > 0 then 1 else 0
  }

  /** The listener future ends: its permit, the close signal and its completion sender are dropped. */
  function StopListening(s: Server): Server {
    s.(stage := Draining(s.now, s.now + s.shutdownTimeout),
       available := s.available + PermitInHand(s),
       senders := s.senders - 1)
  }

  function MoveTask(s: Server, id: nat, t: Task): Server
    requires id < |s.tasks|
  {
    s.(tasks := s.tasks[id := t])
  }

  /** A handler's run returns and drops its completion sender. */
  function Return(s: Server, id: nat): Server
    requires id < |s.tasks|
  {
    MoveTask(s, id, Returned).(senders := s.senders - 1)
  }

  function Apply(s: Server, a: Action): Server
    requires Enabled(s, a)
  {
    match a
    case AcquirePermit => s.(stage := Accepting, available := if s.limit > 0 then s.available - 1 else s.available)
    case AcceptConnection => s.(stage := Acquiring, tasks := s.tasks + [Negotiating], senders := s.senders + 1)
    case AcceptFails => StopListening(s)
    case ShutdownSignal => StopListening(s)
    case Negotiated(id) => MoveTask(s, id, Processing)
    case Handled(id) => MoveTask(s, id, Relaying)
    case HandlerFails(id) => Return(s, id)
    case HandlerInterrupted(id) => Return(s, id)
    case RelayEnds(id) => Return(s, id)
    case PermitDropped(id) =>
      MoveTask(s, id, Gone).(available := if s.limit > 0 then s.available + 1 else s.available)
    case AllSendersGone => s.(stage := Stopped(true))
    case TimeoutExpires => s.(stage := Stopped(false))
    case Tick => s.(now := s.now + 1)
  }

  /** A run of the server from its start. */
  ghost predicate Run(actions: seq<Action>, states: seq<Server>) {
    && |states| == |actions| + 1
    && states[0] == Started(states[0].limit, states[0].shutdownTimeout)
    && forall k :: 0 <= k < |actions| ==> Enabled(states[k], actions[k]) && states[k + 1] == Apply(states[k], actions[k])
  }

  // ---------- counting tasks ----------

  function Sum(tasks: seq<Task>, weight: Task -> nat): nat {
    if tasks == [] then 0 else Sum(tasks[..|tasks| - 1], weight) + weight(tasks[|tasks| - 1])
  }

  lemma {:induction false} SumUpdate(tasks: seq<Task>, id: nat, t: Task, weight: Task -> nat)
    requires id < |tasks|
    ensures Sum(tasks[id := t], weight) == Sum(tasks, weight) - weight(tasks[id]) + weight(t)
    ensures weight(tasks[id]) <= Sum(tasks, weight)
    decreases |tasks|
  {
    var n := |tasks| - 1;
    if id < n {
      assert tasks[id := t][..n] == tasks[..n][id := t];
      SumUpdate(tasks[..n], id, t, weight);
    } else {
      assert tasks[id := t][..n] == tasks[..n];
    }
  }

  lemma {:induction false} SumZeroIff(tasks: seq<Task>, weight: Task -> nat)
    ensures Sum(tasks, weight) == 0 <==> forall k :: 0 <= k < |tasks| ==> weight(tasks[k]) == 0
  {
    if tasks != [] {
      SumZeroIff(tasks[..|tasks| - 1], weight);
    }
  }

  lemma {:induction false} SumMonotone(tasks: seq<Task>, v: Task -> nat, w: Task -> nat)
    requires forall t :: v(t) <= w(t)
    ensures Sum(tasks, v) <= Sum(tasks, w)
  {
    if tasks != [] {
      SumMonotone(tasks[..|tasks| - 1], v, w);
    }
  }

  const OneIfLive: Task -> nat := t => if IsLive(t) then 1 else 0
  const OneIfHolding: Task -> nat := t => if t == Gone then 0 else 1

  /** The handlers that have not returned. */
  function Live(s: Server): nat {
    Sum(s.tasks, OneIfLive)
  }

  /** The permits that handler tasks hold. */
  function HeldByTasks(s: Server): nat {
    Sum(s.tasks, OneIfHolding)
  }

  // ---------- the invariant ----------

  ghost predicate Inv(s: Server) {
    && s.senders == Live(s) + (if Listening(s) then 1 else 0)
    && (s.limit > 0 ==> s.available + PermitInHand(s) + HeldByTasks(s) == s.limit)
    && (s.stage.Draining? ==>
          && s.stage.since <= s.now <= s.stage.deadline == s.stage.since + s.shutdownTimeout
          && (s.stage.since < s.now ==> NoneInterruptible(s.tasks)))
  }

  lemma TaskStepKeepsInv(s: Server, id: nat, t: Task)
    requires id < |s.tasks|
    ensures Live(MoveTask(s, id, t)) == Live(s) - OneIfLive(s.tasks[id]) + OneIfLive(t)
    ensures HeldByTasks(MoveTask(s, id, t)) == HeldByTasks(s) - OneIfHolding(s.tasks[id]) + OneIfHolding(t)
    ensures NoneInterruptible(s.tasks) && !Interruptible(t) ==> NoneInterruptible(MoveTask(s, id, t).tasks)
  {
    SumUpdate(s.tasks, id, t, OneIfLive);
    SumUpdate(s.tasks, id, t, OneIfHolding);
  }

  predicate OfTask(a: Action) {
    a.Negotiated? || a.Handled? || a.HandlerFails? || a.HandlerInterrupted? || a.RelayEnds? || a.PermitDropped?
  }

  lemma TaskActionKeepsInv(s: Server, a: Action)
    requires Inv(s) && Enabled(s, a) && OfTask(a)
    ensures Inv(Apply(s, a))
  {
    var id := a.id;
    match a {
      case Negotiated(_) => TaskStepKeepsInv(s, id, Processing);
      case Handled(_) => TaskStepKeepsInv(s, id, Relaying);
      case PermitDropped(_) => TaskStepKeepsInv(s, id, Gone);
      case _ => TaskStepKeepsInv(s, id, Returned);
    }
  }

  lemma StepKeepsInv(s: Server, a: Action)
    requires Inv(s) && Enabled(s, a)
    ensures Inv(Apply(s, a))
  {
    if OfTask(a) {
      TaskActionKeepsInv(s, a);
    } else if a.AcceptConnection? {
      assert (s.tasks + [Negotiating])[..|s.tasks|] == s.tasks;
    }
  }

  lemma {:induction false} RunInv(actions: seq<Action>, states: seq<Server>, k: nat)
    requires Run(actions, states) && k <= |actions|
    ensures Inv(states[k])
    ensures states[k].limit == states[0].limit && states[k].shutdownTimeout == states[0].shutdownTimeout
    decreases k
  {
    if k > 0 {
      RunInv(actions, states, k - 1);
      assert Enabled(states[k - 1], actions[k - 1]);
      StepKeepsInv(states[k - 1], actions[k - 1]);
    }
  }

  // ---------- the code that takes the steps ----------

  /** The server with its shared state: semaphore, channels' sender count, spawned tasks. */
  class ServerProcess {
    const limit: nat
    const shutdownTimeout: nat
    var available: nat
    var stage: Stage
    var tasks: seq<Task>
    var senders: int
    var now: nat

    ghost function View(): Server
      reads this
    {
      Server(limit, shutdownTimeout, available, stage, tasks, senders, now)
    }

    constructor (maxConnections: nat, timeout: nat)
      ensures View() == Started(maxConnections, timeout)
    {
      limit, shutdownTimeout := maxConnections, timeout;
      available, stage, tasks, senders, now := maxConnections, Acquiring, [], 1, 0;
    }

    /** The listener takes a permit, if permits are limited. */
    method Acquire()
      requires Enabled(View(), AcquirePermit)
      modifies this
      ensures View() == Apply(old(View()), AcquirePermit)
    {
      if limit > 0 {
        available := available - 1;
      }
      stage := Accepting;
    }

    /** A connection arrives: its handler gets the permit, a sender and the close signal, and is spawned. */
    method Accept()
      requires Enabled(View(), AcceptConnection)
      modifies this
      ensures View() == Apply(old(View()), AcceptConnection)
    {
      senders := senders + 1;
      tasks := tasks + [Negotiating];
      stage := Acquiring;
    }

    /** The listener future ends by an accept error or is dropped by the shutdown signal. */
    method Close()
      requires Listening(View())
      modifies this
      ensures View() == StopListening(old(View()))
    {
      if stage.Accepting? && limit > 0 {
        available := available + 1;
      }
      senders := senders - 1;
      stage := Draining(now, now + shutdownTimeout);
    }

    /** A handler goes on to its next phase. */
    method Advance(id: nat)
      requires Has(View(), id, Negotiating) || Has(View(), id, Processing)
      modifies this
      ensures View() == Apply(old(View()), if old(tasks[id]) == Negotiating then Negotiated(id) else Handled(id))
    {
      var next := if tasks[id] == Negotiating then Processing else Relaying;
      tasks := tasks[id := next];
    }

    /** A handler's run returns: by failure, by interruption, or at the end of its relay. */
    method HandlerReturns(id: nat)
      requires id < |tasks| && IsLive(tasks[id])
      modifies this
      ensures View() == Return(old(View()), id)
    {
      tasks := tasks[id := Returned];
      senders := senders - 1;
    }

    /** The task that ran a handler drops its permit. */
    method DropPermit(id: nat)
      requires Enabled(View(), PermitDropped(id))
      modifies this
      ensures View() == Apply(old(View()), PermitDropped(id))
    {
      tasks := tasks[id := Gone];
      if limit > 0 {
        available := available + 1;
      }
    }

    method Perform(a: Action)
      requires Enabled(View(), a)
      modifies this
      ensures View() == Apply(old(View()), a)
    {
      match a {
        case AcquirePermit => Acquire();
        case AcceptConnection => Accept();
        case AcceptFails => Close();
        case ShutdownSignal => Close();
        case Negotiated(id) => Advance(id);
        case Handled(id) => Advance(id);
        case HandlerFails(id) => HandlerReturns(id);
        case HandlerInterrupted(id) => HandlerReturns(id);
        case RelayEnds(id) => HandlerReturns(id);
        case PermitDropped(id) => DropPermit(id);
        case AllSendersGone => stage := Stopped(true);
        case TimeoutExpires => stage := Stopped(false);
        case Tick => now := now + 1;
      }
    }
  }

  /** What is ready of the offers, each at its turn, happens; the others are passed over. */
  function After(s: Server, offers: seq<Action>): Server {
    if offers == [] then s
    else
      var t := After(s, offers[..|offers| - 1]);
      var a := offers[|offers| - 1];
      if Enabled(t, a) then Apply(t, a) else t
  }

  /** The offers that are ready at their turn. */
  function Ready(s: Server, offers: seq<Action>): seq<Action> {
    if offers == [] then []
    else
      var front, a := offers[..|offers| - 1], offers[|offers| - 1];
      if Enabled(After(s, front), a) then Ready(s, front) + [a] else Ready(s, front)
  }

  /** Every run is done if it is offered. */
  lemma {:induction false} OfferedRunIsDone(actions: seq<Action>, states: seq<Server>, k: nat)
    requires Run(actions, states) && k <= |actions|
    ensures Ready(states[0], actions[..k]) == actions[..k] && After(states[0], actions[..k]) == states[k]
    decreases k
  {
    if k > 0 {
      OfferedRunIsDone(actions, states, k - 1);
      assert actions[..k][..k - 1] == actions[..k - 1];
      assert Enabled(states[k - 1], actions[k - 1]);
    }
  }

  /** The server under a scheduler that offers actions in any order; those that are not ready are passed over.
      What it does is a run, so everything proved of runs holds of it. */
  method Execute(maxConnections: nat, timeout: nat, offers: seq<Action>)
    returns (last: Stage, free: nat, ghost actions: seq<Action>, ghost states: seq<Server>)
    ensures Run(actions, states)
    ensures states[0] == Started(maxConnections, timeout)
    ensures last == states[|actions|].stage && free == states[|actions|].available
    ensures actions == Ready(Started(maxConnections, timeout), offers)
    ensures states[|actions|] == After(Started(maxConnections, timeout), offers)
  {
    var p := new ServerProcess(maxConnections, timeout);
    actions, states := [], [p.View()];
    for k := 0 to |offers|
      invariant Run(actions, states) && states[0] == Started(maxConnections, timeout)
      invariant p.View() == states[|actions|] == After(Started(maxConnections, timeout), offers[..k])
      invariant actions == Ready(Started(maxConnections, timeout), offers[..k])
    {
      assert offers[..k + 1][..k] == offers[..k];
      if Enabled(Server(p.limit, p.shutdownTimeout, p.available, p.stage, p.tasks, p.senders, p.now), offers[k]) {
        p.Perform(offers[k]);
        actions, states := actions + [offers[k]], states + [p.View()];
      }
    }
    assert offers[..|offers|] == offers;
    last, free := p.stage, p.available;
  }
}
