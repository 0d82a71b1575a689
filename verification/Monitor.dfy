/**
  The process registry of the parallel test runner.

  `BatchMonitor` is the object the workers and the main thread share. The state machine below it runs its
  methods one lock operation or one shared access at a time, in every interleaving of the workers, the
  main thread's shutdown and cancelling signals.
 */
module Monitor {
  import opened Collections
  import opened Ordering
  import opened Types

  /** A spawned process; numbered in the order of spawning. */
  type Process = nat

  /** The size of the pool. */
  type Jobs = n: nat | n > 0 witness 1

  datatype ActiveBatch = ActiveBatch(
    batchId: nat, title: string, selectorCount: nat, pid: Process, start: int, timeout: int)

  datatype Shared = Shared(
    processes: map<nat, Process>, active: map<nat, ActiveBatch>, cancelled: bool, interruptedBy: Option<int>)
  {
    /** Cancellation latches; only the first signal is remembered. */
    function Cancel(signal: Option<int>): Shared {
      this.(cancelled := true,
            interruptedBy := if signal.Some? && interruptedBy.None? then signal else interruptedBy)
    }

    function Publish(id: nat, process: Process): Shared {
      this.(processes := processes[id := process])
    }

    function Record(batch: ActiveBatch): Shared {
      this.(active := active[batch.batchId := batch])
    }

    function Registered(id: nat): Option<Process> {
      if id in processes then Option.Some(processes[id]) else Option.None
    }

    function Unpublish(id: nat): Shared {
      this.(processes := processes - {id})
    }

    function Clear(id: nat): Shared {
      this.(active := active - {id})
    }
  }

  datatype Launched = Started(process: Process) | NotStarted | SpawnFailed

  function StartKey(b: ActiveBatch): Key { Atom(b.start) }

  class BatchMonitor {
    var processes: map<nat, Process>
    var active: map<nat, ActiveBatch>
    var cancelled: bool
    var interruptedBy: Option<int>

    ghost function View(): Shared
      reads this
    {
      Shared(processes, active, cancelled, interruptedBy)
    }

    constructor ()
      ensures View() == Shared(map[], map[], false, Option.None)
    {
      processes, active, cancelled, interruptedBy := map[], map[], false, Option.None;
    }

    method RequestCancel(signal: Option<int>)
      modifies this
      ensures View() == old(View()).Cancel(signal)
    {
      cancelled := true;
      if signal.Some? && interruptedBy.None? {
        interruptedBy := signal;
      }
    }

    /** `spawn` is what the operating system answers: a process, or a failure. */
    method Launch(batch: ActiveBatch, spawn: Option<Process>) returns (r: Launched)
      requires spawn.Some? ==> batch.pid == spawn.value
      modifies this
      ensures r.Started? <==> !old(cancelled) && spawn.Some?
      ensures r.NotStarted? <==> old(cancelled)
      ensures r.Started? ==> r.process == spawn.value
      ensures View() ==
              if r.Started? then old(View()).Publish(batch.batchId, spawn.value).Record(batch) else old(View())
    {
      if cancelled {
        return NotStarted;
      }
      if spawn.None? {
        return SpawnFailed;
      }
      processes := processes[batch.batchId := spawn.value];
      active := active[batch.batchId := batch];
      r := Started(spawn.value);
    }

    /** The process this call must terminate, if any; a second call for the same batch finds none. */
    method Finish(id: nat) returns (claimed: Option<Process>)
      modifies this
      ensures claimed == old(View()).Registered(id)
      ensures View() == old(View()).Unpublish(id).Clear(id) && View().Registered(id).None?
    {
      claimed := if id in processes then Option.Some(processes[id]) else Option.None;
      processes := processes - {id};
      active := active - {id};
    }

    /** The processes this call must terminate: all that are registered. */
    method Stop() returns (claimed: set<Process>)
      modifies this
      ensures claimed == old(processes).Values
      ensures View() == old(View()).Cancel(Option.None).(processes := map[])
    {
      RequestCancel(Option.None);
      claimed := processes.Values;
      processes := map[];
    }

    /** The active batches, longest running first. */
    method Snapshot() returns (r: seq<ActiveBatch>)
      ensures SortedBy(r, StartKey)
      ensures |r| == |active| && forall b :: b in r <==> exists id :: id in active && active[id] == b
    {
      var found := [];
      var left := active.Keys;
      while left != {}
        invariant left <= active.Keys && |found| == |active| - |left|
        invariant forall b :: b in found <==> exists id :: id in active && id !in left && active[id] == b
      {
        var id :| id in left;
        left := left - {id};
        found := found + [active[id]];
      }
      r := SortBy(found, StartKey);
      SortBySorted(found, StartKey);
      SortByMembers(found, StartKey);
      forall b ensures b in r <==> b in found {
        assert b in r <==> b in multiset(r);
        assert b in found <==> b in multiset(found);
      }
    }
  }

  // ----- The state machine -----

  /** How waiting for the process ended, which decides what follows its unregistration. */
  datatype Outcome = Returned | TimedOut | Raised

  datatype WorkerState =
    | Queued                                            // still in the executor's queue
    | Waiting                                           // wants the process lock to launch
    | Checking                                          // holds the lock, about to read the cancel flag
    | Spawning                                          // holds the lock, has seen no cancellation
    | Publishing(process: Process)                      // holds the lock, the process is not registered yet
    | Recording(process: Process)                       // holds the lock, the process is registered
    | Running(process: Process)                         // waits for the process without any lock
    | Finishing(process: Process, outcome: Outcome)     // wants the process lock to unregister
    | Popping(process: Process, outcome: Outcome)       // holds the lock
    | Claiming(process: Process, claimed: Option<Process>, outcome: Outcome) // terminates what it unregistered
    | Clearing(process: Process, outcome: Outcome)      // about to leave the active table
    | Draining(process: Process)                        // collects the output after a timeout
    | Refused                                           // the launch was cancelled
    | Failed                                            // the process could not be spawned or waited for
    | Finished
  {
    predicate InSection() { Checking? || Spawning? || Publishing? || Recording? || Popping? }

    /** The future has a result or an exception. */
    predicate Done() { Refused? || Failed? || Finished? }

    /** Not on a thread of the pool. */
    predicate Quiet() { Queued? || Done() }

    /** Responsible for a process that has been registered. */
    predicate Carries() {
      Recording? || Running? || Finishing? || Popping? || Claiming? || Clearing? || Draining?
    }
  }

  datatype MainState =
    | Working
    | GateClosed                        // cancellation requested
    | QueueCancelled                    // queued futures cancelled
    | Stopping                          // inside `stop`, wants the process lock
    | Snapshotting                      // holds the lock
    | Sweeping(claimed: set<Process>)   // terminates what it took from the registry
    | Joining                           // waits for the workers
    | Over
  {
    predicate Swept() { Sweeping? || Joining? || Over? }
  }

  datatype Owner = Worker(id: nat) | Main

  datatype State = State(
    workers: seq<WorkerState>,
    main: MainState,
    shared: Shared,
    lock: Option<Owner>,
    jobs: Jobs,
    spawned: nat,
    ended: set<Process>,
    terminated: set<Process>)
  {
    /** Still running: it has neither ended by itself nor been terminated. */
    predicate Live(p: Process) { p !in ended && p !in terminated }

    predicate At(w: nat, pc: WorkerState) { w < |workers| && workers[w] == pc }

    function Move(w: nat, pc: WorkerState): State
      requires w < |workers|
    {
      this.(workers := workers[w := pc])
    }
  }

  datatype Event =
    | Begin(w: nat)
    | Acquire(w: nat)
    | Check(w: nat)
    | Spawn(w: nat)
    | FailToSpawn(w: nat)
    | Publish(w: nat)
    | Record(w: nat, batch: ActiveBatch)
    | Leave(w: nat)
    | TimeOut(w: nat)
    | Raise(w: nat)
    | Take(w: nat)
    | Pop(w: nat)
    | Terminate(w: nat)
    | Clear(w: nat)
    | Drain(w: nat)
    | Signal(signum: int)
    | End(process: Process)
    | CloseGate
    | BreakOff
    | CancelQueue
    | RequestStop
    | TakeAll
    | PopAll
    | Sweep(process: Process)
    | StartJoin
    | EndJoin

  /** What the program does not decide: signals, processes and deadlines, and failures outside its control. */
  predicate Environment(e: Event) {
    e.Signal? || e.End? || e.FailToSpawn? || e.TimeOut? || e.Raise? || e.BreakOff?
  }

  /** Signals and processes that end come on their own account; every other event is a step of some thread. */
  predicate Outside(e: Event) {
    e.Signal? || e.End?
  }

  predicate OfMain(e: Event) {
    || e.CloseGate? || e.BreakOff? || e.CancelQueue? || e.RequestStop?
    || e.TakeAll? || e.PopAll? || e.Sweep? || e.StartJoin? || e.EndJoin?
  }

  function Start(workers: nat, jobs: Jobs): State {
    State(seq(workers, _ => Queued), Working, Shared(map[], map[], false, Option.None), Option.None, jobs, 0, {}, {})
  }

  /** How many threads of the pool are taken. */
  function Busy(workers: seq<WorkerState>): nat {
    if workers == [] then 0 else (if workers[0].Quiet() then 0 else 1) + Busy(workers[1..])
  }

  /** The main thread leaves its loop: cancelled, nothing pending, or a worker's exception to re-raise. */
  predicate Leaves(s: State) {
    || s.shared.cancelled
    || (exists w :: 0 <= w < |s.workers| && s.workers[w].Failed?)
    || (forall w :: 0 <= w < |s.workers| ==> s.workers[w].Done())
  }

  predicate Enabled(s: State, e: Event) {
    match e
    case Begin(w) => s.At(w, Queued) && (s.main.Working? || s.main.GateClosed?) && Busy(s.workers) < s.jobs
    case Acquire(w) => s.At(w, Waiting) && s.lock.None?
    case Check(w) => s.At(w, Checking)
    case Spawn(w) => s.At(w, Spawning)
    case FailToSpawn(w) => s.At(w, Spawning)
    case Publish(w) => w < |s.workers| && s.workers[w].Publishing?
    case Record(w, batch) => s.At(w, Recording(batch.pid)) && batch.batchId == w
    case Leave(w) => w < |s.workers| && s.workers[w].Running? && !s.Live(s.workers[w].process)
    case TimeOut(w) => w < |s.workers| && s.workers[w].Running?
    case Raise(w) => w < |s.workers| && (s.workers[w].Running? || s.workers[w].Draining?)
    case Take(w) => w < |s.workers| && s.workers[w].Finishing? && s.lock.None?
    case Pop(w) => w < |s.workers| && s.workers[w].Popping?
    case Terminate(w) => w < |s.workers| && s.workers[w].Claiming?
    case Clear(w) => w < |s.workers| && s.workers[w].Clearing?
    case Drain(w) => w < |s.workers| && s.workers[w].Draining? && !s.Live(s.workers[w].process)
    case Signal(_) => true
    case End(p) => p < s.spawned && p !in s.ended
    case CloseGate => s.main.Working? && Leaves(s)
    case BreakOff => s.main.Working?
    case CancelQueue => s.main.GateClosed?
    case RequestStop => s.main.QueueCancelled?
    case TakeAll => s.main.Stopping? && s.lock.None?
    case PopAll => s.main.Snapshotting?
    case Sweep(p) => s.main.Sweeping? && p in s.main.claimed
    case StartJoin => s.main == Sweeping({})
    case EndJoin => s.main.Joining? && forall w :: 0 <= w < |s.workers| ==> s.workers[w].Quiet()
  }

  /** After a timeout the output is still to be collected; an exception goes on to the future. */
  function Cleared(pc: WorkerState): WorkerState
    requires pc.Clearing?
  {
    match pc.outcome
    case Returned => Finished
    case TimedOut => Draining(pc.process)
    case Raised => Failed
  }

  function After(s: State, e: Event): State
    requires Enabled(s, e)
  {
    match e
    case Begin(w) => s.Move(w, Waiting)
    case Acquire(w) => s.Move(w, Checking).(lock := Option.Some(Worker(w)))
    case Check(w) => if s.shared.cancelled then s.Move(w, Refused).(lock := Option.None) else s.Move(w, Spawning)
    case Spawn(w) => s.Move(w, Publishing(s.spawned)).(spawned := s.spawned + 1)
    case FailToSpawn(w) => s.Move(w, Failed).(lock := Option.None)
    case Publish(w) =>
      s.Move(w, Recording(s.workers[w].process)).(shared := s.shared.Publish(w, s.workers[w].process))
    case Record(w, batch) => s.Move(w, Running(batch.pid)).(shared := s.shared.Record(batch), lock := Option.None)
    case Leave(w) => s.Move(w, Finishing(s.workers[w].process, Returned))
    case TimeOut(w) => s.Move(w, Finishing(s.workers[w].process, TimedOut))
    case Raise(w) => s.Move(w, Finishing(s.workers[w].process, Raised))
    case Take(w) =>
      s.Move(w, Popping(s.workers[w].process, s.workers[w].outcome)).(lock := Option.Some(Worker(w)))
    case Pop(w) =>
      s.Move(w, Claiming(s.workers[w].process, s.shared.Registered(w), s.workers[w].outcome)).(
        shared := s.shared.Unpublish(w), lock := Option.None)
    case Terminate(w) =>
      var claimed := s.workers[w].claimed;
      s.Move(w, Clearing(s.workers[w].process, s.workers[w].outcome)).(
        terminated := s.terminated + if claimed.Some? then {claimed.value} else {})
    case Clear(w) => s.Move(w, Cleared(s.workers[w])).(shared := s.shared.Clear(w))
    case Drain(w) => s.Move(w, Finishing(s.workers[w].process, Returned))
    case Signal(signum) => s.(shared := s.shared.Cancel(Option.Some(signum)))
    case End(p) => s.(ended := s.ended + {p})
    case BreakOff => s.(main := GateClosed, shared := s.shared.Cancel(Option.None))
    case CloseGate => s.(main := GateClosed, shared := s.shared.Cancel(Option.None))
    case CancelQueue => s.(main := QueueCancelled)
    case RequestStop => s.(main := Stopping, shared := s.shared.Cancel(Option.None))
    case TakeAll => s.(main := Snapshotting, lock := Option.Some(Main))
    case PopAll =>
      s.(main := Sweeping(s.shared.processes.Values), shared := s.shared.(processes := map[]), lock := Option.None)
    case Sweep(p) => s.(main := Sweeping(s.main.claimed - {p}), terminated := s.terminated + {p})
    case StartJoin => s.(main := Joining)
    case EndJoin => s.(main := Over)
  }

  predicate Legal(s: State, es: seq<Event>)
    decreases es
  {
    es == [] || (Enabled(s, es[0]) && Legal(After(s, es[0]), es[1..]))
  }

  function Run(s: State, es: seq<Event>): State
    requires Legal(s, es)
    decreases es
  {
    if es == [] then s else Run(After(s, es[0]), es[1..])
  }

  lemma RunStep(s: State, e: Event, es: seq<Event>)
    requires Enabled(s, e) && Legal(After(s, e), es)
    ensures Legal(s, [e] + es) && Run(s, [e] + es) == Run(After(s, e), es)
  {
    assert ([e] + es)[1..] == es;
  }

  // ----- Where a process is -----

  datatype Place = InHand(w: nat) | Registry(w: nat) | ByWorker(w: nat) | ByMain | Terminated

  ghost predicate Is(s: State, p: Process, place: Place) {
    match place
    case InHand(w) => s.At(w, Publishing(p))
    case Registry(w) => w in s.shared.processes && s.shared.processes[w] == p
    case ByWorker(w) => w < |s.workers| && s.workers[w].Claiming? && s.workers[w].claimed == Option.Some(p)
    case ByMain => s.main.Sweeping? && p in s.main.claimed
    case Terminated => p in s.terminated
  }

  /** Every spawned process is in exactly one place, and nothing else is anywhere. */
  ghost predicate Accounted(s: State, places: seq<Place>) {
    |places| == s.spawned && forall p: nat, place :: Is(s, p, place) <==> p < |places| && places[p] == place
  }

  // ----- The lock discipline -----

  ghost predicate LockHeld(s: State) {
    && (forall w :: 0 <= w < |s.workers| ==> (s.workers[w].InSection() <==> s.lock == Option.Some(Worker(w))))
    && (s.main.Snapshotting? <==> s.lock == Option.Some(Main))
    && (s.lock.Some? && s.lock.value.Worker? ==> s.lock.value.id < |s.workers|)
  }

  /** A batch is registered only between its publication and its first unregistration. */
  ghost predicate RegisteredLate(s: State) {
    forall w :: w in s.shared.processes ==>
      w < |s.workers| && (var pc := s.workers[w]; pc.Recording? || pc.Running? || pc.Finishing? || pc.Popping?)
  }

  ghost predicate ActiveLate(s: State) {
    forall w :: w in s.shared.active ==>
      w < |s.workers| &&
      (var pc := s.workers[w]; pc.Running? || pc.Finishing? || pc.Popping? || pc.Claiming? || pc.Clearing?)
  }

  ghost predicate GateShut(s: State) {
    !s.main.Working? ==> s.shared.cancelled
  }

  /** Once the main thread has taken the registry, it stays empty and nobody is about to spawn. */
  ghost predicate RegistryClosed(s: State) {
    s.main.Swept() ==>
      && s.shared.processes == map[]
      && forall w :: 0 <= w < |s.workers| ==>
           !s.workers[w].Spawning? && !s.workers[w].Publishing? && !s.workers[w].Recording?
  }

  ghost predicate AllQuiet(s: State) {
    s.main.Over? ==> forall w :: 0 <= w < |s.workers| ==> s.workers[w].Quiet()
  }

  /** The process of a worker that has one is still registered, or someone has taken on its termination. */
  ghost predicate Handled(s: State) {
    forall w :: 0 <= w < |s.workers| && s.workers[w].Carries() ==> Held(s, w, s.workers[w].process)
  }

  ghost predicate Held(s: State, w: nat, p: Process)
    requires w < |s.workers|
  {
    || s.shared.Registered(w) == Option.Some(p)
    || (s.workers[w].Claiming? && s.workers[w].claimed == Option.Some(p))
    || (s.main.Sweeping? && p in s.main.claimed)
    || p in s.terminated
  }

  ghost predicate Disciplined(s: State) {
    && LockHeld(s) && RegisteredLate(s) && ActiveLate(s) && GateShut(s) && RegistryClosed(s) && AllQuiet(s)
    && Handled(s)
  }

  lemma MainLockKept(s: State, e: Event)
    requires LockHeld(s) && Enabled(s, e) && (OfMain(e) || Outside(e))
    ensures LockHeld(After(s, e))
  {
    hide Busy, Leaves;
  }

  lemma WorkerLockKept(s: State, e: Event)
    requires LockHeld(s) && Enabled(s, e) && !OfMain(e) && !Outside(e)
    ensures LockHeld(After(s, e))
  {
    hide Busy, Leaves;
  }

  lemma LockKept(s: State, e: Event)
    requires LockHeld(s) && Enabled(s, e)
    ensures LockHeld(After(s, e))
  {
    if OfMain(e) || Outside(e) {
      MainLockKept(s, e);
    } else {
      WorkerLockKept(s, e);
    }
  }

  lemma RegistryKept(s: State, e: Event)
    requires RegisteredLate(s) && Enabled(s, e)
    ensures RegisteredLate(After(s, e))
  {
    hide Busy, Leaves;
  }

  lemma ActiveKept(s: State, e: Event)
    requires ActiveLate(s) && Enabled(s, e)
    ensures ActiveLate(After(s, e))
  {
    hide Busy, Leaves;
  }

  lemma ClosedKept(s: State, e: Event)
    requires LockHeld(s) && GateShut(s) && RegistryClosed(s) && Enabled(s, e)
    ensures GateShut(After(s, e)) && RegistryClosed(After(s, e))
  {
    hide Busy, Leaves;
  }

  lemma QuietKept(s: State, e: Event)
    requires AllQuiet(s) && Enabled(s, e)
    ensures AllQuiet(After(s, e))
  {
    hide Busy, Leaves;
  }

  lemma HandledKept(s: State, e: Event)
    requires Handled(s) && Enabled(s, e)
    ensures Handled(After(s, e))
  {
    var t := After(s, e);
    forall w | 0 <= w < |t.workers| && t.workers[w].Carries() ensures Held(t, w, t.workers[w].process) {
      if s.workers[w].Carries() {
        assert Held(s, w, s.workers[w].process);
      }
    }
  }

  lemma DisciplineKept(s: State, e: Event)
    requires Disciplined(s) && Enabled(s, e)
    ensures Disciplined(After(s, e))
  {
    LockKept(s, e);
    RegistryKept(s, e);
    ActiveKept(s, e);
    ClosedKept(s, e);
    QuietKept(s, e);
    HandledKept(s, e);
  }

  // ----- Processes change hands -----

  ghost function Swept(places: seq<Place>): (r: seq<Place>)
    ensures |r| == |places|
    ensures forall p :: 0 <= p < |places| ==> r[p] == if places[p].Registry? then ByMain else places[p]
  {
    seq(|places|, p requires 0 <= p < |places| => if places[p].Registry? then ByMain else places[p])
  }

  /** The processes an event moves, and where to. */
  ghost function Moved(s: State, e: Event, places: seq<Place>): (r: seq<Place>)
    requires Accounted(s, places) && Enabled(s, e)
    ensures |r| == After(s, e).spawned
  {
    match e
    case Spawn(w) => places + [InHand(w)]
    case Publish(w) =>
      var p := s.workers[w].process;
      assert Is(s, p, InHand(w));
      places[p := Registry(w)]
    case Pop(w) =>
      if w in s.shared.processes then
        var p := s.shared.processes[w];
        assert Is(s, p, Registry(w));
        places[p := ByWorker(w)]
      else places
    case Terminate(w) =>
      if s.workers[w].claimed.Some? then
        var p := s.workers[w].claimed.value;
        assert Is(s, p, ByWorker(w));
        places[p := Terminated]
      else places
    case PopAll => Swept(places)
    case Sweep(p) => assert Is(s, p, ByMain); places[p := Terminated]
    case _ => places
  }

  ghost predicate Tracks(s: State, e: Event, places: seq<Place>, p: Process, place: Place)
    requires Accounted(s, places) && Enabled(s, e)
  {
    Is(After(s, e), p, place) <==> p < |Moved(s, e, places)| && Moved(s, e, places)[p] == place
  }

  lemma SpawnTracks(s: State, w: nat, places: seq<Place>, p: Process, place: Place)
    requires Accounted(s, places) && Enabled(s, Spawn(w))
    ensures Tracks(s, Spawn(w), places, p, place)
  {
    assert Is(s, p, place) <==> p < |places| && places[p] == place;
  }

  lemma PublishTracks(s: State, w: nat, places: seq<Place>, p: Process, place: Place)
    requires Accounted(s, places) && RegisteredLate(s) && Enabled(s, Event.Publish(w))
    ensures Tracks(s, Event.Publish(w), places, p, place)
  {
    assert Is(s, p, place) <==> p < |places| && places[p] == place;
    assert Is(s, s.workers[w].process, InHand(w));
  }

  lemma PopTracks(s: State, w: nat, places: seq<Place>, p: Process, place: Place)
    requires Accounted(s, places) && Enabled(s, Pop(w))
    ensures Tracks(s, Pop(w), places, p, place)
  {
    assert Is(s, p, place) <==> p < |places| && places[p] == place;
    if w in s.shared.processes {
      assert Is(s, s.shared.processes[w], Registry(w));
    }
  }

  lemma TerminateTracks(s: State, w: nat, places: seq<Place>, p: Process, place: Place)
    requires Accounted(s, places) && Enabled(s, Terminate(w))
    ensures Tracks(s, Terminate(w), places, p, place)
  {
    assert Is(s, p, place) <==> p < |places| && places[p] == place;
    if s.workers[w].claimed.Some? {
      assert Is(s, s.workers[w].claimed.value, ByWorker(w));
    }
  }

  lemma SweptPlaces(s: State, places: seq<Place>, p: Process)
    requires Accounted(s, places)
    ensures p in s.shared.processes.Values <==> p < |places| && places[p].Registry?
  {
    if p in s.shared.processes.Values {
      var w :| w in s.shared.processes && s.shared.processes[w] == p;
      assert Is(s, p, Registry(w));
    }
    if p < |places| && places[p].Registry? {
      assert Is(s, p, places[p]);
    }
  }

  lemma PopAllTracks(s: State, places: seq<Place>, p: Process, place: Place)
    requires Accounted(s, places) && Enabled(s, PopAll)
    ensures Tracks(s, PopAll, places, p, place)
  {
    assert Is(s, p, place) <==> p < |places| && places[p] == place;
    SweptPlaces(s, places, p);
    if p < |places| {
      assert Is(s, p, places[p]);
    }
  }

  lemma SweepTracks(s: State, q: Process, places: seq<Place>, p: Process, place: Place)
    requires Accounted(s, places) && Enabled(s, Sweep(q))
    ensures Tracks(s, Sweep(q), places, p, place)
  {
    assert Is(s, p, place) <==> p < |places| && places[p] == place;
    assert Is(s, q, ByMain);
  }

  predicate MovesProcesses(e: Event) {
    e.Spawn? || e.Publish? || e.Pop? || e.Terminate? || e.PopAll? || e.Sweep?
  }

  lemma NothingMoves(s: State, e: Event, p: Process, place: Place)
    requires Enabled(s, e) && !MovesProcesses(e)
    ensures Is(After(s, e), p, place) <==> Is(s, p, place)
  {
  }

  lemma OtherTracks(s: State, e: Event, places: seq<Place>, p: Process, place: Place)
    requires Accounted(s, places) && Enabled(s, e) && !MovesProcesses(e)
    ensures Tracks(s, e, places, p, place)
  {
    assert Is(s, p, place) <==> p < |places| && places[p] == place;
    NothingMoves(s, e, p, place);
    assert Moved(s, e, places) == places;
  }

  /** A step changes the place of exactly the processes it names. */
  lemma StepAccounted(s: State, e: Event, places: seq<Place>)
    requires RegisteredLate(s) && Accounted(s, places) && Enabled(s, e)
    ensures Accounted(After(s, e), Moved(s, e, places))
  {
    forall p: nat, place ensures Tracks(s, e, places, p, place) {
      match e {
        case Spawn(w) => SpawnTracks(s, w, places, p, place);
        case Publish(w) => PublishTracks(s, w, places, p, place);
        case Pop(w) => PopTracks(s, w, places, p, place);
        case Terminate(w) => TerminateTracks(s, w, places, p, place);
        case PopAll => PopAllTracks(s, places, p, place);
        case Sweep(q) => SweepTracks(s, q, places, p, place);
        case _ => OtherTracks(s, e, places, p, place);
      }
    }
    TracksAccounted(s, e, places);
  }

  lemma TracksAccounted(s: State, e: Event, places: seq<Place>)
    requires Accounted(s, places) && Enabled(s, e)
    requires forall p: nat, place :: Tracks(s, e, places, p, place)
    ensures Accounted(After(s, e), Moved(s, e, places))
  {
    var t, moved := After(s, e), Moved(s, e, places);
    forall p: nat, place ensures Is(t, p, place) <==> p < |moved| && moved[p] == place {
      assert Tracks(s, e, places, p, place);
    }
  }

  // ----- Over whole runs -----

  ghost predicate Safe(s: State) {
    Disciplined(s) && exists places :: Accounted(s, places)
  }

  lemma StartSafe(n: nat, jobs: Jobs)
    ensures Safe(Start(n, jobs))
  {
    var s := Start(n, jobs);
    assert Accounted(s, []) by {
      forall p: nat, place ensures !Is(s, p, place) {
      }
    }
  }

  lemma StepSafe(s: State, e: Event)
    requires Safe(s) && Enabled(s, e)
    ensures Safe(After(s, e))
  {
    var places :| Accounted(s, places);
    DisciplineKept(s, e);
    StepAccounted(s, e, places);
  }

  lemma {:induction false} RunSafe(s: State, es: seq<Event>)
    requires Safe(s) && Legal(s, es)
    ensures Safe(Run(s, es))
    decreases es
  {
    if es == [] {
    } else {
      StepSafe(s, es[0]);
      RunSafe(After(s, es[0]), es[1..]);
    }
  }

  /**
    In every interleaving every spawned process is held by its launcher, registered, claimed by one
    terminator or terminated, and never two of these; a process that is not registered yet exists only
    while its launcher holds the process lock.
   */
  lemma ExactlyOnePlace(n: nat, jobs: Jobs, es: seq<Event>, p: Process)
    requires Legal(Start(n, jobs), es) && p < Run(Start(n, jobs), es).spawned
    ensures var s := Run(Start(n, jobs), es);
            && (exists place :: Is(s, p, place))
            && (forall a, b :: Is(s, p, a) && Is(s, p, b) ==> a == b)
            && (forall w :: Is(s, p, InHand(w)) ==> s.lock == Option.Some(Worker(w)))
  {
    StartSafe(n, jobs);
    RunSafe(Start(n, jobs), es);
    var s := Run(Start(n, jobs), es);
    var places :| Accounted(s, places);
    assert Is(s, p, places[p]);
  }

  /** After the main thread has taken the registry, nothing registers and nothing spawns. */
  lemma {:induction false} NoLaunchAfterStop(s: State, es: seq<Event>)
    requires Disciplined(s) && s.main.Swept() && Legal(s, es)
    ensures var t := Run(s, es); t.main.Swept() && t.shared.processes == map[] && t.spawned == s.spawned
    decreases es
  {
    if es == [] {
    } else {
      DisciplineKept(s, es[0]);
      NoLaunchAfterStop(After(s, es[0]), es[1..]);
    }
  }

  /** When shutdown is over, every process ever spawned has been terminated and no batch is active. */
  lemma OverMeansTerminated(n: nat, jobs: Jobs, es: seq<Event>)
    requires Legal(Start(n, jobs), es) && Run(Start(n, jobs), es).main.Over?
    ensures var s := Run(Start(n, jobs), es);
            (forall p: nat :: p in s.terminated <==> p < s.spawned) && s.shared.active == map[]
  {
    StartSafe(n, jobs);
    RunSafe(Start(n, jobs), es);
    var s := Run(Start(n, jobs), es);
    var places :| Accounted(s, places);
    forall p: nat | p < s.spawned ensures p in s.terminated {
      assert Is(s, p, places[p]);
    }
    forall p: nat | p in s.terminated ensures p < s.spawned {
      assert Is(s, p, Terminated);
    }
    assert s.shared.active.Keys == {};
  }

  /** Cancellation is never withdrawn, and the first signal is the one reported. */
  lemma {:induction false} FirstSignalKept(s: State, es: seq<Event>)
    requires Legal(s, es)
    ensures s.shared.cancelled ==> Run(s, es).shared.cancelled
    ensures s.shared.interruptedBy.Some? ==> Run(s, es).shared.interruptedBy == s.shared.interruptedBy
    decreases es
  {
    if es == [] {
    } else {
      FirstSignalKept(After(s, es[0]), es[1..]);
    }
  }

  // ----- Runs are short -----

  function WorkerRank(pc: WorkerState): nat {
    match pc
    case Queued => 16
    case Waiting => 15
    case Checking => 14
    case Spawning => 13
    case Publishing(_) => 12
    case Recording(_) => 11
    case Running(_) => 10
    case Finishing(_, outcome) => if outcome.TimedOut? then 9 else 4
    case Popping(_, outcome) => if outcome.TimedOut? then 8 else 3
    case Claiming(_, _, outcome) => if outcome.TimedOut? then 7 else 2
    case Clearing(_, outcome) => if outcome.TimedOut? then 6 else 1
    case Draining(_) => 5
    case Refused => 0
    case Failed => 0
    case Finished => 0
  }

  function MainRank(main: MainState): nat {
    match main
    case Working => 7
    case GateClosed => 6
    case QueueCancelled => 5
    case Stopping => 4
    case Snapshotting => 3
    case Sweeping(_) => 2
    case Joining => 1
    case Over => 0
  }

  function Ranks(workers: seq<WorkerState>): nat {
    if workers == [] then 0 else WorkerRank(workers[0]) + Ranks(workers[1..])
  }

  /** The steps left: each worker's, the main thread's, and one for each process it may have to terminate. */
  function Potential(s: State): nat {
    Ranks(s.workers) + MainRank(s.main) +
    if s.main.Sweeping? then |s.main.claimed| else if s.main.Swept() then 0 else |s.workers|
  }

  lemma {:induction false} RanksUpdate(workers: seq<WorkerState>, w: nat, pc: WorkerState)
    requires w < |workers|
    ensures Ranks(workers[w := pc]) == Ranks(workers) - WorkerRank(workers[w]) + WorkerRank(pc)
  {
    if w == 0 {
      assert workers[w := pc][1..] == workers[1..];
    } else {
      RanksUpdate(workers[1..], w - 1, pc);
      assert workers[w := pc][1..] == workers[1..][w - 1 := pc];
    }
  }

  lemma WorkerRankDrops(s: State, e: Event)
    requires Enabled(s, e) && !Outside(e) && !OfMain(e)
    ensures e.w < |s.workers| && After(s, e).main == s.main
    ensures var t := After(s, e);
            && |t.workers| == |s.workers| && t.workers == s.workers[e.w := t.workers[e.w]]
            && WorkerRank(t.workers[e.w]) < WorkerRank(s.workers[e.w])
  {
  }

  lemma WorkerProgresses(s: State, e: Event)
    requires Enabled(s, e) && !Outside(e) && !OfMain(e)
    ensures Potential(After(s, e)) < Potential(s)
  {
    WorkerRankDrops(s, e);
    RanksUpdate(s.workers, e.w, After(s, e).workers[e.w]);
  }

  lemma {:induction false} FewValues(m: map<nat, Process>, n: nat)
    requires forall k :: k in m ==> k < n
    ensures |m.Values| <= n
  {
    if n == 0 {
      assert m.Values == {};
    } else if n - 1 in m {
      var rest := m - {n - 1};
      FewValues(rest, n - 1);
      assert m.Values <= rest.Values + {m[n - 1]} by {
        forall v | v in m.Values ensures v in rest.Values + {m[n - 1]} {
          var k :| k in m && m[k] == v;
          if k != n - 1 {
            assert k in rest && rest[k] == v;
          }
        }
      }
      SubsetSize(m.Values, rest.Values + {m[n - 1]});
    } else {
      FewValues(m, n - 1);
    }
  }

  lemma SweepProgresses(s: State, p: Process)
    requires Enabled(s, Sweep(p))
    ensures Potential(After(s, Sweep(p))) < Potential(s)
  {
    assert s.main.claimed == (s.main.claimed - {p}) + {p};
  }

  lemma PopAllProgresses(s: State)
    requires RegisteredLate(s) && Enabled(s, PopAll)
    ensures Potential(After(s, PopAll)) < Potential(s)
  {
    FewValues(s.shared.processes, |s.workers|);
  }

  lemma MainProgresses(s: State, e: Event)
    requires RegisteredLate(s) && Enabled(s, e) && OfMain(e)
    ensures Potential(After(s, e)) < Potential(s)
  {
    if e.Sweep? {
      SweepProgresses(s, e.process);
    } else if e.PopAll? {
      PopAllProgresses(s);
    }
  }

  /** Every step of a thread uses up some of the potential. */
  lemma StepProgresses(s: State, e: Event)
    requires RegisteredLate(s) && Enabled(s, e) && !Outside(e)
    ensures Potential(After(s, e)) < Potential(s)
  {
    if OfMain(e) {
      MainProgresses(s, e);
    } else {
      WorkerProgresses(s, e);
    }
  }

  /** The steps that threads take in a run. */
  function Steps(es: seq<Event>): nat {
    if es == [] then 0 else (if Outside(es[0]) then 0 else 1) + Steps(es[1..])
  }

  lemma {:induction false} RunBounded(s: State, es: seq<Event>)
    requires Disciplined(s) && Legal(s, es)
    ensures Steps(es) + Potential(Run(s, es)) <= Potential(s)
    decreases es
  {
    if es == [] {
    } else {
      DisciplineKept(s, es[0]);
      if !Outside(es[0]) {
        StepProgresses(s, es[0]);
      }
      RunBounded(After(s, es[0]), es[1..]);
    }
  }

  lemma {:induction false} QueuedRanks(workers: seq<WorkerState>)
    requires forall w :: 0 <= w < |workers| ==> workers[w] == Queued
    ensures Ranks(workers) == 16 * |workers|
  {
    if workers == [] {
    } else {
      QueuedRanks(workers[1..]);
    }
  }

  /** Whatever the interleaving and however many signals arrive, `n` workers take at most 17n + 7 steps. */
  lemma RunsAreShort(n: nat, jobs: Jobs, es: seq<Event>)
    requires Legal(Start(n, jobs), es)
    ensures Steps(es) <= 17 * n + 7
  {
    StartSafe(n, jobs);
    QueuedRanks(Start(n, jobs).workers);
    RunBounded(Start(n, jobs), es);
  }

  // ----- Who waits for what -----

  /** A worker that only something outside it can move on: a process, or a thread of the pool. */
  predicate Blocked(s: State, w: nat)
    requires w < |s.workers|
  {
    match s.workers[w]
    case Queued => Busy(s.workers) >= s.jobs
    case Running(p) => s.Live(p)
    case Draining(p) => s.Live(p)
    case _ => s.workers[w].Done()
  }

  /** Every thread waits: the main thread for its futures, and each worker for its process. */
  predicate Waits(s: State) {
    s.main.Working? && !Leaves(s) && forall w :: 0 <= w < |s.workers| ==> Blocked(s, w)
  }

  /** A worker that is not blocked can take a step unless it waits for the lock. */
  lemma WorkerCanStep(s: State, w: nat) returns (e: Event)
    requires w < |s.workers| && !Blocked(s, w) && (s.workers[w].Queued? ==> s.main.Working?)
    requires s.workers[w].InSection() || s.lock.None?
    ensures Enabled(s, e) && !Environment(e)
  {
    match s.workers[w] {
      case Queued => e := Begin(w);
      case Waiting => e := Acquire(w);
      case Checking => e := Check(w);
      case Spawning => e := Spawn(w);
      case Publishing(_) => e := Event.Publish(w);
      case Recording(p) => e := Event.Record(w, ActiveBatch(w, "", 0, p, 0, 0));
      case Running(_) => e := Leave(w);
      case Finishing(_, _) => e := Take(w);
      case Popping(_, _) => e := Pop(w);
      case Claiming(_, _, _) => e := Terminate(w);
      case Clearing(_, _) => e := Event.Clear(w);
      case Draining(_) => e := Drain(w);
    }
  }

  /** After `stop`, once nobody is about to terminate a process, no worker waits for one. */
  lemma JoinedCanStep(s: State) returns (e: Event)
    requires Disciplined(s) && s.main.Joining? && s.lock.None?
    ensures Enabled(s, e) && !Environment(e)
  {
    if forall w :: 0 <= w < |s.workers| ==> s.workers[w].Quiet() {
      e := EndJoin;
    } else if w :| 0 <= w < |s.workers| && s.workers[w].Claiming? {
      e := Terminate(w);
    } else {
      var w :| 0 <= w < |s.workers| && !s.workers[w].Quiet();
      if s.workers[w].Carries() {
        assert Held(s, w, s.workers[w].process);
      }
      e := WorkerCanStep(s, w);
    }
  }

  lemma MainCanStep(s: State) returns (e: Event)
    requires Disciplined(s) && !s.main.Working? && !s.main.Over?
    requires s.lock.None? || s.lock == Option.Some(Main)
    ensures Enabled(s, e) && !Environment(e)
  {
    match s.main {
      case GateClosed => e := CancelQueue;
      case QueueCancelled => e := RequestStop;
      case Stopping => e := TakeAll;
      case Snapshotting => e := PopAll;
      case Sweeping(claimed) =>
        if claimed == {} {
          e := StartJoin;
        } else {
          var p :| p in claimed;
          e := Sweep(p);
        }
      case Joining => e := JoinedCanStep(s);
    }
  }

  /**
    No deadlock: the program itself can take a step unless it is over or every thread waits. In particular
    it never waits once shutdown has begun, even if no process ends by itself and no deadline passes.
   */
  lemma NeverStuck(s: State) returns (e: Event)
    requires Disciplined(s) && !s.main.Over? && !Waits(s)
    ensures Enabled(s, e) && !Environment(e)
  {
    if s.lock.Some? && s.lock.value.Worker? {
      e := WorkerCanStep(s, s.lock.value.id);
    } else if !s.main.Working? {
      e := MainCanStep(s);
    } else if Leaves(s) {
      e := CloseGate;
    } else {
      var w :| 0 <= w < |s.workers| && !Blocked(s, w);
      e := WorkerCanStep(s, w);
    }
  }

  /** Both halves of it: the program can do nothing exactly if it is over or every thread waits. */
  lemma StuckExactly(s: State)
    requires Disciplined(s)
    ensures (forall e :: Enabled(s, e) ==> Environment(e)) <==> s.main.Over? || Waits(s)
  {
    if !s.main.Over? && !Waits(s) {
      var e := NeverStuck(s);
    } else {
      forall e | Enabled(s, e) ensures Environment(e) {
        StuckStaysStuck(s, e);
      }
    }
  }

  lemma StuckStaysStuck(s: State, e: Event)
    requires Disciplined(s) && (s.main.Over? || Waits(s)) && Enabled(s, e)
    ensures Environment(e)
  {
    if !OfMain(e) && !Outside(e) {
      assert s.main.Working? ==> Blocked(s, e.w);
    }
  }

  lemma {:induction false} NobodyBusy(workers: seq<WorkerState>)
    requires forall w :: 0 <= w < |workers| ==> workers[w].Quiet()
    ensures Busy(workers) == 0
  {
    if workers == [] {
    } else {
      NobodyBusy(workers[1..]);
    }
  }

  /** The process of a batch that timed out has been terminated, unless the main thread is just doing that. */
  lemma DrainingIsBrief(s: State, w: nat)
    requires Disciplined(s) && w < |s.workers| && s.workers[w].Draining? && !s.main.Sweeping?
    ensures !s.Live(s.workers[w].process)
  {
    assert Held(s, w, s.workers[w].process);
  }

  /**
    What the program waits for is always a live process that is still registered, so that `stop` would
    terminate it. A worker never waits to collect the output of a batch that timed out.
   */
  lemma WaitsForProcess(s: State) returns (w: nat, p: Process)
    requires Disciplined(s) && Waits(s)
    ensures s.At(w, Running(p)) && s.Live(p) && s.shared.Registered(w) == Option.Some(p) && !s.shared.cancelled
    ensures forall v :: 0 <= v < |s.workers| ==> !s.workers[v].Draining?
  {
    forall v | 0 <= v < |s.workers| ensures !s.workers[v].Draining? {
      assert Blocked(s, v);
      if s.workers[v].Draining? {
        DrainingIsBrief(s, v);
      }
    }
    var left :| 0 <= left < |s.workers| && !s.workers[left].Done();
    assert Blocked(s, left);
    if forall v :: 0 <= v < |s.workers| ==> s.workers[v].Quiet() {
      NobodyBusy(s.workers);
    }
    w :| w < |s.workers| && !s.workers[w].Quiet();
    assert Blocked(s, w);
    p := s.workers[w].process;
    assert Held(s, w, p);
  }

  // ----- Shutdown completes -----

  predicate Own(es: seq<Event>) {
    forall i :: 0 <= i < |es| ==> !Environment(es[i])
  }

  /**
    Once the main thread is about to leave its loop, shutdown completes by the program's own steps alone:
    `stop` is what ends the processes that the workers wait for.
   */
  lemma {:induction false} ShutdownCompletes(s: State) returns (es: seq<Event>)
    requires Safe(s) && (!s.main.Working? || Leaves(s))
    ensures Legal(s, es) && Run(s, es).main.Over? && Own(es)
    decreases Potential(s)
  {
    if s.main.Over? {
      es := [];
    } else {
      var e := CloseGate;
      if !s.main.Working? {
        e := NeverStuck(s);
      }
      StepSafe(s, e);
      StepProgresses(s, e);
      var rest := ShutdownCompletes(After(s, e));
      RunStep(s, e, rest);
      es := [e] + rest;
    }
  }

  lemma RegisteredSpawned(s: State, w: nat, p: Process)
    requires Safe(s) && s.shared.Registered(w) == Option.Some(p)
    ensures p < s.spawned
  {
    var places :| Accounted(s, places);
    assert Is(s, p, Registry(w));
  }

  /** Where every thread waits, a process that ends sets its worker going. */
  lemma ProcessEnds(s: State) returns (w: nat, p: Process)
    requires Safe(s) && Waits(s)
    ensures Enabled(s, End(p)) && Enabled(After(s, End(p)), Leave(w))
    ensures var t := After(After(s, End(p)), Leave(w)); Safe(t) && Potential(t) < Potential(s)
  {
    w, p := WaitsForProcess(s);
    RegisteredSpawned(s, w, p);
    StepSafe(s, End(p));
    StepSafe(After(s, End(p)), Leave(w));
    StepProgresses(After(s, End(p)), Leave(w));
  }

  predicate OwnOrEnd(es: seq<Event>) {
    forall i :: 0 <= i < |es| ==> es[i].End? || !Environment(es[i])
  }

  /** From every reachable state the run completes without signals if the processes end when they are waited for. */
  lemma {:induction false} RunCompletes(s: State) returns (es: seq<Event>)
    requires Safe(s)
    ensures Legal(s, es) && Run(s, es).main.Over? && OwnOrEnd(es)
    decreases Potential(s)
  {
    hide Waits, After, Enabled, Potential;
    if s.main.Over? {
      es := [];
    } else if Waits(s) {
      var w, p := ProcessEnds(s);
      var t := After(s, End(p));
      es := RunCompletes(After(t, Leave(w)));
      RunStep(t, Leave(w), es);
      es := [Leave(w)] + es;
      RunStep(s, End(p), es);
      es := [End(p)] + es;
    } else {
      var e := NeverStuck(s);
      StepSafe(s, e);
      StepProgresses(s, e);
      es := RunCompletes(After(s, e));
      RunStep(s, e, es);
      es := [e] + es;
    }
  }

  /**
    A run in which the program has taken all the steps it can is over, with everything terminated, or it
    waits for a live process without having been cancelled. With the bound on its length, every run that
    keeps going whenever it can ends in one of these two ways.
   */
  lemma MaximalRunEnds(n: nat, jobs: Jobs, es: seq<Event>)
    requires Legal(Start(n, jobs), es) && forall e :: Enabled(Run(Start(n, jobs), es), e) ==> Environment(e)
    ensures var s := Run(Start(n, jobs), es);
            && (s.main.Over? ==> s.shared.active == map[] && forall p: nat :: p in s.terminated <==> p < s.spawned)
            && (!s.main.Over? <==> Waits(s))
            && (!s.main.Over? ==> !s.shared.cancelled && exists p: nat :: p < s.spawned && s.Live(p))
  {
    var s := Run(Start(n, jobs), es);
    StartSafe(n, jobs);
    RunSafe(Start(n, jobs), es);
    StuckExactly(s);
    if s.main.Over? {
      OverMeansTerminated(n, jobs, es);
    } else {
      var w, p := WaitsForProcess(s);
      RegisteredSpawned(s, w, p);
    }
  }

  // ----- The object and the machine -----

  /** The part of a launch that follows a successful check. */
  lemma SpawnRuns(s: State, batch: ActiveBatch, spawns: bool) returns (es: seq<Event>)
    requires s.At(batch.batchId, Spawning) && batch.pid == s.spawned
    ensures Legal(s, es) && Run(s, es).lock.None?
    ensures Run(s, es).shared == if spawns then s.shared.Publish(batch.batchId, s.spawned).Record(batch) else s.shared
    ensures Run(s, es).spawned == if spawns then s.spawned + 1 else s.spawned
  {
    var w := batch.batchId;
    es := [];
    if spawns {
      var spawned := After(s, Spawn(w));
      var published := After(spawned, Event.Publish(w));
      RunStep(published, Event.Record(w, batch), es);
      es := [Event.Record(w, batch)] + es;
      RunStep(spawned, Event.Publish(w), es);
      es := [Event.Publish(w)] + es;
      RunStep(s, Spawn(w), es);
      es := [Spawn(w)] + es;
    } else {
      RunStep(s, FailToSpawn(w), es);
      es := [FailToSpawn(w)] + es;
    }
  }

  /** A launch that runs undisturbed leaves what `BatchMonitor.Launch` leaves, whether or not the spawn succeeds. */
  lemma LaunchRuns(s: State, batch: ActiveBatch, spawns: bool) returns (es: seq<Event>)
    requires s.At(batch.batchId, Waiting) && s.lock.None? && batch.pid == s.spawned
    ensures Legal(s, es) && Run(s, es).lock.None?
    ensures var started := !s.shared.cancelled && spawns;
            && Run(s, es).shared ==
               (if started then s.shared.Publish(batch.batchId, s.spawned).Record(batch) else s.shared)
            && Run(s, es).spawned == (if started then s.spawned + 1 else s.spawned)
  {
    var w := batch.batchId;
    var locked := After(s, Acquire(w));
    es := [];
    if !s.shared.cancelled {
      es := SpawnRuns(After(locked, Check(w)), batch, spawns);
    }
    RunStep(locked, Check(w), es);
    es := [Check(w)] + es;
    RunStep(s, Acquire(w), es);
    es := [Acquire(w)] + es;
  }

  /** An undisturbed finish leaves what `BatchMonitor.Finish` leaves, and terminates the process it hands out. */
  lemma FinishRuns(s: State, w: nat) returns (es: seq<Event>)
    requires w < |s.workers| && s.workers[w].Finishing? && s.lock.None?
    ensures Legal(s, es) && Run(s, es).lock.None? && Run(s, es).shared == s.shared.Unpublish(w).Clear(w)
    ensures var claimed := s.shared.Registered(w);
            Run(s, es).terminated == s.terminated + if claimed.Some? then {claimed.value} else {}
  {
    var locked := After(s, Take(w));
    var popped := After(locked, Pop(w));
    var terminated := After(popped, Terminate(w));
    RunStep(terminated, Event.Clear(w), []);
    RunStep(popped, Terminate(w), [Event.Clear(w)] + []);
    es := [Terminate(w)] + ([Event.Clear(w)] + []);
    RunStep(locked, Pop(w), es);
    es := [Pop(w)] + es;
    RunStep(s, Take(w), es);
    es := [Take(w)] + es;
  }

  lemma {:induction false} SweepRuns(s: State) returns (es: seq<Event>)
    requires s.main.Sweeping?
    ensures Legal(s, es) && Run(s, es) == s.(main := Sweeping({}), terminated := s.terminated + s.main.claimed)
    decreases |s.main.claimed|
  {
    if s.main.claimed == {} {
      es := [];
      assert s.terminated + s.main.claimed == s.terminated;
    } else {
      var p :| p in s.main.claimed;
      var t := After(s, Sweep(p));
      assert |t.main.claimed| < |s.main.claimed| by {
        assert s.main.claimed == t.main.claimed + {p};
      }
      es := SweepRuns(t);
      RunStep(s, Sweep(p), es);
      es := [Sweep(p)] + es;
      assert t.terminated + t.main.claimed == s.terminated + s.main.claimed;
    }
  }

  /** An undisturbed stop leaves what `BatchMonitor.Stop` leaves, and terminates the processes it hands out. */
  lemma StopRuns(s: State) returns (es: seq<Event>)
    requires s.main.QueueCancelled? && s.lock.None?
    ensures Legal(s, es) && Run(s, es).lock.None?
    ensures Run(s, es).shared == s.shared.Cancel(Option.None).(processes := map[])
    ensures Run(s, es).terminated == s.terminated + s.shared.processes.Values
  {
    var stopping := After(s, RequestStop);
    var locked := After(stopping, TakeAll);
    es := SweepRuns(After(locked, PopAll));
    RunStep(locked, PopAll, es);
    es := [PopAll] + es;
    RunStep(stopping, TakeAll, es);
    es := [TakeAll] + es;
    RunStep(s, RequestStop, es);
    es := [RequestStop] + es;
  }
}
