/**
 * The service's accept, queue and stop protocol.
 *
 * Each critical section of the acceptor, the workers, the starter and one stopper is one
 * step, and so is the creation of each thread; a run is any interleaving of enabled steps.
 */
module Service {
  import opened Sorting

  datatype Phase =
    | Idle
    | Starting
    | Spawning
    | Serving
    | Draining
    | Joining

  datatype Service = Service(
    phase: Phase,
    running: bool,
    stopping: bool,
    queue: seq<nat>,
    active: set<nat>,
    acceptor: bool,
    idleWorkers: set<nat>,
    serving: map<nat, nat>,
    nextId: nat,
    accepted: nat,
    rejected: nat,
    served: nat,
    dropped: nat,
    /** Connections handed to workers, in order. */
    taken: seq<nat>,
    maxSessions: nat,
    maxQueue: nat)

  function Built(maxSessions: nat, maxQueue: nat): Service {
    Service(Idle, false, false, [], {}, false, {}, map[], 1, 0, 0, 0, 0, [], maxSessions, maxQueue)
  }

  datatype Step =
    | BeginStart
    | FailStart
    | PublishStart
    | SpawnAcceptor
    | SpawnWorker(worker: nat)
    | FinishStart
    | Accept
    | AcceptorExits
    | WorkerTakes(worker: nat)
    | WorkerFinishes(worker: nat)
    | WorkerExits(worker: nat)
    | StopEarly
    | BeginStop
    | DrainQueue
    | FinishStop

  predicate Enabled(s: Service, step: Step) {
    match step
    case BeginStart => !s.running && !s.stopping
    case FailStart => s.phase == Starting
    case PublishStart => s.phase == Starting
    case SpawnAcceptor => s.phase == Spawning && !s.acceptor
    case SpawnWorker(w) => s.phase == Spawning && s.acceptor && w !in s.idleWorkers && w !in s.serving
    case FinishStart => s.phase == Spawning && s.acceptor
    case Accept => s.acceptor
    case AcceptorExits => s.acceptor && s.stopping
    case WorkerTakes(w) => w in s.idleWorkers && s.queue != []
    case WorkerFinishes(w) => w in s.serving
    case WorkerExits(w) => w in s.idleWorkers && s.queue == [] && s.stopping
    case StopEarly => s.phase == Idle || s.phase == Starting
    case BeginStop => s.phase == Serving
    case DrainQueue => s.phase == Draining
    case FinishStop => s.phase == Joining && !s.acceptor && s.idleWorkers == {} && s.serving == map[]
  }

  /** One accepted socket: closed while stopping or over a bound, otherwise queued. */
  function Accepted(s: Service): Service {
    if s.stopping then s
    else if |s.active| >= s.maxSessions || |s.queue| >= s.maxQueue then
      s.(nextId := s.nextId + 1, rejected := s.rejected + 1)
    else
      s.(nextId := s.nextId + 1, active := s.active + {s.nextId}, queue := s.queue + [s.nextId], accepted := s.accepted + 1)
  }

  function Apply(s: Service, step: Step): Service
    requires Enabled(s, step)
  {
    match step
    case BeginStart => s.(phase := Starting, stopping := true)
    case FailStart => s.(phase := Idle, stopping := false)
    case PublishStart => s.(phase := Spawning, running := true, stopping := false, queue := [], active := {})
    case SpawnAcceptor => s.(acceptor := true)
    case SpawnWorker(w) => s.(idleWorkers := s.idleWorkers + {w})
    case FinishStart => s.(phase := Serving)
    case Accept => Accepted(s)
    case AcceptorExits => s.(acceptor := false)
    case WorkerTakes(w) =>
      s.(queue := s.queue[1..], idleWorkers := s.idleWorkers - {w}, serving := s.serving[w := s.queue[0]],
         taken := s.taken + [s.queue[0]])
    case WorkerFinishes(w) =>
      s.(active := s.active - {s.serving[w]}, served := s.served + 1, serving := s.serving - {w},
         idleWorkers := s.idleWorkers + {w})
    case WorkerExits(w) => s.(idleWorkers := s.idleWorkers - {w})
    case StopEarly => if s.running || s.stopping then s.(stopping := true, running := false) else s
    case BeginStop => s.(phase := Draining, stopping := true, running := false)
    case DrainQueue => s.(phase := Joining, queue := [])
    case FinishStop => s.(phase := Idle, active := {}, dropped := s.dropped + |s.active|, stopping := false)
  }

  // ---- what every interleaving keeps --------------------------------------

  /** Which flags and threads go with each phase of the cycle. */
  predicate PhaseFits(s: Service) {
    match s.phase
    case Idle => !s.running && !s.stopping && Quiet(s)
    case Starting => !s.running && s.stopping && Quiet(s)
    case Spawning => s.running && !s.stopping
    case Serving => s.running && !s.stopping
    case Draining => !s.running && s.stopping
    case Joining => !s.running && s.stopping && s.queue == []
  }

  /** No thread and no connection. */
  predicate Quiet(s: Service) {
    s.queue == [] && s.active == {} && !s.acceptor && s.idleWorkers == {} && s.serving == map[]
  }

  ghost predicate QueueSound(s: Service) {
    && NoRepeats(s.queue)
    && (forall id | id in s.queue :: id in s.active)
    && (forall id | id in s.active :: id < s.nextId)
  }

  ghost predicate ServingSound(s: Service) {
    && (forall w | w in s.serving :: s.serving[w] in s.active && s.serving[w] !in s.queue && w !in s.idleWorkers)
    && (forall v, w | v in s.serving && w in s.serving && v != w :: s.serving[v] != s.serving[w])
  }

  ghost predicate TakenSound(s: Service) {
    && NoRepeats(s.taken)
    && (forall id | id in s.taken :: id < s.nextId && id !in s.queue)
    && (forall w | w in s.serving :: s.serving[w] in s.taken)
  }

  ghost predicate BoundsHold(s: Service) {
    |s.active| <= s.maxSessions && |s.queue| <= s.maxQueue
  }

  /** Every accepted connection was served, is active, or was dropped by a stop. */
  predicate Balanced(s: Service) {
    s.accepted == s.served + |s.active| + s.dropped
  }

  ghost predicate ServiceInvariant(s: Service) {
    PhaseFits(s) && QueueSound(s) && ServingSound(s) && TakenSound(s) && BoundsHold(s) && Balanced(s)
  }

  lemma BuiltInvariant(maxSessions: nat, maxQueue: nat)
    ensures ServiceInvariant(Built(maxSessions, maxQueue))
  {
  }

  lemma AcceptedKeeps(s: Service)
    requires ServiceInvariant(s) && s.acceptor
    ensures ServiceInvariant(Accepted(s))
  {
    if !s.stopping && |s.active| < s.maxSessions && |s.queue| < s.maxQueue {
      AppendNoRepeats(s.queue, s.nextId);
    }
  }

  lemma TakesKeeps(s: Service, w: nat)
    requires ServiceInvariant(s) && Enabled(s, WorkerTakes(w))
    ensures ServiceInvariant(Apply(s, WorkerTakes(w)))
  {
    var id, rest := s.queue[0], s.queue[1..];
    assert s.queue == [id] + rest;
    assert id in s.queue;
    HeadNotInTail(id, rest);
    assert forall x | x in rest :: x in s.queue;
    AppendNoRepeats(s.taken, id);
  }

  lemma FinishesKeeps(s: Service, w: nat)
    requires ServiceInvariant(s) && Enabled(s, WorkerFinishes(w))
    ensures ServiceInvariant(Apply(s, WorkerFinishes(w)))
  {
    assert s.serving[w] in s.active;
  }

  lemma StepKeepsInvariant(s: Service, step: Step)
    requires ServiceInvariant(s) && Enabled(s, step)
    ensures ServiceInvariant(Apply(s, step))
  {
    match step
    case Accept => AcceptedKeeps(s);
    case WorkerTakes(w) => TakesKeeps(s, w);
    case WorkerFinishes(w) => FinishesKeeps(s, w);
    case _ =>
  }

  // ---- runs ---------------------------------------------------------------

  ghost predicate IsRun(trace: seq<Service>, steps: seq<Step>) {
    && |trace| == |steps| + 1
    && (exists sessions, depth :: trace[0] == Built(sessions, depth))
    && forall i | 0 <= i < |steps| :: Enabled(trace[i], steps[i]) && trace[i + 1] == Apply(trace[i], steps[i])
  }

  /** Over all interleavings: the invariant holds in every state. */
  lemma {:induction false} RunsKeepInvariant(trace: seq<Service>, steps: seq<Step>, i: nat)
    requires IsRun(trace, steps) && i < |trace|
    ensures ServiceInvariant(trace[i])
  {
    hide ServiceInvariant, Apply, Enabled;
    if i == 0 {
      var sessions, depth :| trace[0] == Built(sessions, depth);
      BuiltInvariant(sessions, depth);
    } else {
      RunsKeepInvariant(trace, steps, i - 1);
      assert Enabled(trace[i - 1], steps[i - 1]) && trace[i] == Apply(trace[i - 1], steps[i - 1]);
      StepKeepsInvariant(trace[i - 1], steps[i - 1]);
    }
  }

  /** Queued connections are active, both bounds hold, and every connection is accounted for. */
  lemma RunsAreSafe(trace: seq<Service>, steps: seq<Step>, i: nat)
    requires IsRun(trace, steps) && i < |trace|
    ensures forall id | id in trace[i].queue :: id in trace[i].active
    ensures |trace[i].active| <= trace[i].maxSessions && |trace[i].queue| <= trace[i].maxQueue
    ensures trace[i].accepted == trace[i].served + |trace[i].active| + trace[i].dropped
    ensures NoRepeats(trace[i].taken)
  {
    RunsKeepInvariant(trace, steps, i);
  }

  /** Two hand-overs to workers never carry the same connection. */
  lemma NothingServedTwice(trace: seq<Service>, steps: seq<Step>, i: nat, j: nat)
    requires IsRun(trace, steps) && i < j < |steps| && steps[i].WorkerTakes? && steps[j].WorkerTakes?
    requires trace[i].queue != [] && trace[j].queue != []
    ensures trace[i].queue[0] != trace[j].queue[0]
  {
    hide ServiceInvariant, Accepted;
    RunsKeepInvariant(trace, steps, j);
    var id := trace[i].queue[0];
    assert trace[i + 1] == Apply(trace[i], steps[i]);
    assert trace[i + 1].taken[|trace[i].taken|] == id;
    TakenGrows(trace, steps, i + 1, j, id);
    NotQueuedOnceTaken(trace[j], id);
  }

  lemma NotQueuedOnceTaken(s: Service, id: nat)
    requires ServiceInvariant(s) && id in s.taken
    ensures id !in s.queue
  {
  }

  lemma {:induction false} TakenGrows(trace: seq<Service>, steps: seq<Step>, i: nat, j: nat, id: nat)
    requires IsRun(trace, steps) && i <= j < |trace| && id in trace[i].taken
    ensures id in trace[j].taken
  {
    hide Enabled;
    if i < j {
      TakenGrows(trace, steps, i, j - 1, id);
      assert trace[j] == Apply(trace[j - 1], steps[j - 1]);
    }
  }

  // ---- nothing is queued once the stop flag is set ------------------------

  /** While stopping, a step can only take from the front of the queue. */
  lemma StoppingNeverQueues(s: Service, step: Step)
    requires Enabled(s, step) && s.stopping
    ensures Suffix(Apply(s, step).queue, s.queue)
  {
  }

  /** From the stop flag to the next published start the queue only shrinks. */
  lemma {:induction false} QueueOnlyShrinks(trace: seq<Service>, steps: seq<Step>, i: nat, j: nat)
    requires IsRun(trace, steps) && i <= j < |trace| && trace[i].stopping
    requires forall k | i <= k < j :: !steps[k].PublishStart?
    ensures Suffix(trace[j].queue, trace[i].queue)
  {
    hide Apply, Enabled, ServiceInvariant;
    if i < j {
      QueueOnlyShrinks(trace, steps, i, j - 1);
      RunsKeepInvariant(trace, steps, j - 1);
      assert Enabled(trace[j - 1], steps[j - 1]) && trace[j] == Apply(trace[j - 1], steps[j - 1]);
      StoppedOrIdle(trace, steps, i, j - 1);
      QuietNeverQueues(trace[j - 1], steps[j - 1]);
    }
  }

  /** Between the flag and the next start the service is stopping or idle. */
  lemma {:induction false} StoppedOrIdle(trace: seq<Service>, steps: seq<Step>, i: nat, j: nat)
    requires IsRun(trace, steps) && i <= j < |trace| && trace[i].stopping
    requires forall k | i <= k < j :: !steps[k].PublishStart?
    ensures trace[j].stopping || trace[j].phase == Idle
  {
    hide ServiceInvariant, Accepted;
    if i < j {
      StoppedOrIdle(trace, steps, i, j - 1);
      RunsKeepInvariant(trace, steps, j - 1);
      assert Enabled(trace[j - 1], steps[j - 1]) && trace[j] == Apply(trace[j - 1], steps[j - 1]);
      StaysStopped(trace[j - 1], steps[j - 1]);
    }
  }

  lemma StaysStopped(s: Service, step: Step)
    requires ServiceInvariant(s) && Enabled(s, step) && (s.stopping || s.phase == Idle) && !step.PublishStart?
    ensures Apply(s, step).stopping || Apply(s, step).phase == Idle
  {
  }

  lemma QuietNeverQueues(s: Service, step: Step)
    requires ServiceInvariant(s) && Enabled(s, step) && (s.stopping || s.phase == Idle)
    ensures Suffix(Apply(s, step).queue, s.queue)
  {
  }

  // ---- a stop that arrives too early --------------------------------------

  /**
   * A stop that arrives while a start has not published is lost: it changes nothing, and the
   * start goes on to serve.
   */
  lemma EarlyStopIsLost(s: Service)
    requires ServiceInvariant(s) && s.phase == Starting
    ensures Enabled(s, StopEarly) && Apply(s, StopEarly) == s
    ensures Enabled(s, PublishStart) && Apply(Apply(s, StopEarly), PublishStart).running
    ensures !Apply(Apply(s, StopEarly), PublishStart).stopping
  {
  }
}
