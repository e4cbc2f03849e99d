/**
 The learning service of core/app/experiences/service.py as a machine whose steps are the pieces of
 code between two awaits, interleaved in any order over any number of tasks and agents.

 A playbook is the history of the updates made to it, and an update records what its author read; any
 concrete playbook is a function of that history.
 */
module ExperienceService {
  import opened Options

  /** `agent_instance_id`, which may be `None`. */
  type Agent = Option<int>

  /** The store keeps the playbook of `None` where it keeps that of agent 0. */
  function Scope(a: Agent): int {
    if a.None? then 0 else a.value
  }

  datatype Update =
    | Embedded(task: nat, noise: nat)
    | Applied(task: nat, reflectorSaw: Playbook, curatorSaw: Playbook, noise: nat)
    | Pruned(task: nat)
    | Damaged(task: nat, noise: nat)

  type Playbook = seq<Update>

  /** A trajectory's fingerprint: the agent and a digest of the content. */
  type TrajectoryId = (Agent, string)

  /** Where a task is suspended. */
  datatype Pc =
    | Called(runner: nat)                                          // before the guard of the lock table
    | Guarding(runner: nat)                                        // holds that guard
    | Waiting(runner: nat, lck: nat)                               // has its agent's lock, not yet acquired
    | Reflecting(runner: nat, lck: nat, saw: Playbook)             // the Reflector's request is out
    | Curating(runner: nat, lck: nat, saw: Playbook, noise: nat, curatorSaw: Playbook)
    | Saving(runner: nat, lck: nat)                                // the save runs in a thread
    | Saved(runner: nat, lck: nat)                                 // the file is written
    | Learned | Skipped | Failed

  datatype Task = Task(agent: Agent, digest: string, pc: Pc) {
    function Id(): TrajectoryId { (agent, digest) }
  }

  /** How an attempt that held the lock ended, as far as memory is concerned. */
  datatype Outcome =
    | Completed(noise: nat, delta: nat)
    | LostReflecting(damage: seq<nat>)
    | LostCurating(noise: nat, damage: seq<nat>)

  datatype Turn = Turn(task: nat, outcome: Outcome, stored: bool)

  datatype Attempt = Attempt(task: nat, id: TrajectoryId)

  datatype State = State(
    runners: map<Agent, nat>, books: seq<Playbook>,          // the runner cache and each runner's playbook
    guard: Option<nat>,
    locks: map<Agent, nat>, holders: seq<Option<nat>>,       // the lock table and each lock's holder
    runnerFor: seq<Agent>, lockFor: seq<Agent>,              // whom each runner and lock was made for
    learned: set<TrajectoryId>,
    disk: map<int, Playbook>,
    tasks: seq<Task>,
    initial: map<Agent, Playbook>,                           // what each runner was created with
    log: map<Agent, seq<Turn>>,                              // finished attempts in lock order
    attempts: seq<Attempt>, clears: nat)                     // what reached a runner in lock order, clears of `learned`
  {
    function Stored(scope: int): Playbook { if scope in disk then disk[scope] else [] }
    function Log(a: Agent): seq<Turn> { if a in log then log[a] else [] }
  }

  const LEARNED_CAP: nat := 1024

  function Start(disk: map<int, Playbook>): State {
    State(map[], [], None, map[], [], [], [], {}, disk, [], map[], map[], [], 0)
  }

  // ---- the sequential specification --------------------------------------------------------

  function Damage(task: nat, damage: seq<nat>): Playbook {
    seq(|damage|, i requires 0 <= i < |damage| => Damaged(task, damage[i]))
  }

  /** What one attempt, run alone from beginning to end, makes of a playbook. */
  function Alone(p: Playbook, t: Turn): Playbook {
    match t.outcome
    case Completed(noise, delta) =>
      var q := p + [Embedded(t.task, noise)];
      q + [Applied(t.task, p, q, delta), Pruned(t.task)]
    case LostReflecting(damage) => p + Damage(t.task, damage)
    case LostCurating(noise, damage) => p + [Embedded(t.task, noise)] + Damage(t.task, damage)
  }

  /** The attempts of a log, one after the other. */
  function Fold(p: Playbook, log: seq<Turn>): Playbook {
    if log == [] then p else Alone(Fold(p, log[..|log| - 1]), log[|log| - 1])
  }

  /** The log up to the last attempt whose playbook reached the disk. */
  function StoredPart(log: seq<Turn>): seq<Turn> {
    if log == [] || log[|log| - 1].stored then log else StoredPart(log[..|log| - 1])
  }

  // ---- steps -------------------------------------------------------------------------------

  datatype Step =
    | Call(agent: Agent, digest: string)      // a new task, up to its first await: `_get_runner`
    | EnterGuard(t: nat)
    | LeaveGuard(t: nat)                      // finds or creates the agent's lock
    | Acquire(t: nat)                         // takes the lock; skips, or registers the id and reads
    | Reflected(t: nat, noise: nat)           // the reflection arrived; the Curator reads
    | Curated(t: nat, delta: nat)             // delta applied, playbook pruned, save started
    | Write(t: nat)                           // the thread wrote the file
    | Release(t: nat)
    | Abandon(t: nat)                         // cancelled before it held the lock
    | Raise(t: nat, damage: seq<nat>)         // an exception while it holds the lock

  function PcOf(s: State, t: nat): Pc
    requires t < |s.tasks|
  {
    s.tasks[t].pc
  }

  predicate Critical(pc: Pc) {
    pc.Reflecting? || pc.Curating? || pc.Saving? || pc.Saved?
  }

  predicate Enabled(s: State, step: Step) {
    match step
    case Call(_, _) => true
    case EnterGuard(t) => t < |s.tasks| && PcOf(s, t).Called? && s.guard == None
    case LeaveGuard(t) => t < |s.tasks| && PcOf(s, t).Guarding?
    case Acquire(t) =>
      t < |s.tasks| && PcOf(s, t).Waiting? && PcOf(s, t).lck < |s.holders| && s.holders[PcOf(s, t).lck] == None
      && PcOf(s, t).runner < |s.books|
    case Reflected(t, _) => t < |s.tasks| && PcOf(s, t).Reflecting? && PcOf(s, t).runner < |s.books|
    case Curated(t, _) => t < |s.tasks| && PcOf(s, t).Curating? && PcOf(s, t).runner < |s.books|
    case Write(t) => t < |s.tasks| && PcOf(s, t).Saving? && PcOf(s, t).runner < |s.books|
    case Release(t) => t < |s.tasks| && PcOf(s, t).Saved? && PcOf(s, t).lck < |s.holders|
    case Abandon(t) => t < |s.tasks| && (PcOf(s, t).Called? || PcOf(s, t).Waiting?)
    case Raise(t, damage) =>
      && t < |s.tasks| && Critical(PcOf(s, t)) && PcOf(s, t).lck < |s.holders| && PcOf(s, t).runner < |s.books|
      && (damage != [] ==> PcOf(s, t).Reflecting? || PcOf(s, t).Curating?)
  }

  function Go(s: State, t: nat, pc: Pc): seq<Task>
    requires t < |s.tasks|
  {
    s.tasks[t := s.tasks[t].(pc := pc)]
  }

  function Grow(s: State, a: Agent, turn: Turn): map<Agent, seq<Turn>> {
    s.log[a := s.Log(a) + [turn]]
  }

  function Next(s: State, step: Step): State
    requires Enabled(s, step)
  {
    match step
    case Call(a, digest) => NextCall(s, a, digest)
    case EnterGuard(t) => s.(guard := Some(t), tasks := Go(s, t, Guarding(PcOf(s, t).runner)))
    case LeaveGuard(t) => NextLeave(s, t)
    case Acquire(t) => NextAcquire(s, t)
    case Reflected(t, noise) => NextReflected(s, t, noise)
    case Curated(t, delta) => NextCurated(s, t, delta)
    case Write(t) => NextWrite(s, t)
    case Release(t) => s.(holders := s.holders[PcOf(s, t).lck := None], tasks := Go(s, t, Pc.Learned))
    case Abandon(t) => s.(tasks := Go(s, t, Failed))
    case Raise(t, damage) => NextRaise(s, t, damage)
  }

  /** `_get_runner`: one runner for each agent, created from the stored playbook. */
  function NextCall(s: State, a: Agent, digest: string): State {
    if a in s.runners then s.(tasks := s.tasks + [Task(a, digest, Called(s.runners[a]))])
    else
      var r, p := |s.books|, s.Stored(Scope(a));
      s.(runners := s.runners[a := r], books := s.books + [p], runnerFor := s.runnerFor + [a],
         initial := s.initial[a := p], tasks := s.tasks + [Task(a, digest, Called(r))])
  }

  /** `_get_lock`. */
  function NextLeave(s: State, t: nat): State
    requires Enabled(s, LeaveGuard(t))
  {
    var a, r := s.tasks[t].agent, PcOf(s, t).runner;
    if a in s.locks then s.(guard := None, tasks := Go(s, t, Waiting(r, s.locks[a])))
    else
      var l := |s.holders|;
      s.(guard := None, locks := s.locks[a := l], holders := s.holders + [None], lockFor := s.lockFor + [a],
         tasks := Go(s, t, Waiting(r, l)))
  }

  /** The dedup check, and the Reflector's prompt. */
  function NextAcquire(s: State, t: nat): State
    requires Enabled(s, Acquire(t))
  {
    var id, pc := s.tasks[t].Id(), PcOf(s, t);
    if id in s.learned then s.(tasks := Go(s, t, Skipped))
    else
      Registered(s, t, id).(holders := s.holders[pc.lck := Some(t)],
                         tasks := Go(s, t, Reflecting(pc.runner, pc.lck, s.books[pc.runner])))
  }

  function Registered(s: State, t: nat, id: TrajectoryId): State {
    var attempts := s.attempts + [Attempt(t, id)];
    if |s.learned| >= LEARNED_CAP then s.(learned := {id}, attempts := attempts, clears := s.clears + 1)
    else s.(learned := s.learned + {id}, attempts := attempts)
  }

  /** Embeddings are filled in for the similarity report, then the Curator's prompt is built. */
  function NextReflected(s: State, t: nat, noise: nat): State
    requires Enabled(s, Reflected(t, noise))
  {
    var pc := PcOf(s, t);
    var q := s.books[pc.runner] + [Embedded(t, noise)];
    s.(books := s.books[pc.runner := q], tasks := Go(s, t, Curating(pc.runner, pc.lck, pc.saw, noise, q)))
  }

  /** Consolidation, delta and embeddings are applied, the playbook is pruned, the save is started. */
  function NextCurated(s: State, t: nat, delta: nat): State
    requires Enabled(s, Curated(t, delta))
  {
    var a, pc := s.tasks[t].agent, PcOf(s, t);
    var q := s.books[pc.runner] + [Applied(t, pc.saw, pc.curatorSaw, delta), Pruned(t)];
    s.(books := s.books[pc.runner := q], log := Grow(s, a, Turn(t, Completed(pc.noise, delta), false)),
       tasks := Go(s, t, Saving(pc.runner, pc.lck)))
  }

  function MarkStored(log: seq<Turn>): seq<Turn> {
    if log == [] then [] else log[|log| - 1 := log[|log| - 1].(stored := true)]
  }

  function NextWrite(s: State, t: nat): State
    requires Enabled(s, Write(t))
  {
    var a, pc := s.tasks[t].agent, PcOf(s, t);
    s.(disk := s.disk[Scope(a) := s.books[pc.runner]], log := s.log[a := MarkStored(s.Log(a))],
       tasks := Go(s, t, Saved(pc.runner, pc.lck)))
  }

  /** An exception leaves the lock; what was done to the playbook stays. */
  function NextRaise(s: State, t: nat, damage: seq<nat>): State
    requires Enabled(s, Raise(t, damage))
  {
    var a, pc := s.tasks[t].agent, PcOf(s, t);
    var released := s.(holders := s.holders[pc.lck := None], tasks := Go(s, t, Failed));
    if pc.Reflecting? then
      released.(books := s.books[pc.runner := s.books[pc.runner] + Damage(t, damage)],
                log := Grow(s, a, Turn(t, LostReflecting(damage), false)))
    else if pc.Curating? then
      released.(books := s.books[pc.runner := s.books[pc.runner] + Damage(t, damage)],
                log := Grow(s, a, Turn(t, LostCurating(pc.noise, damage), false)))
    else released
  }

  /** The state after a run, if each of its steps was possible. */
  function Run(s: State, steps: seq<Step>): Option<State> {
    if steps == [] then Some(s)
    else
      var r := Run(s, steps[..|steps| - 1]);
      if r.Some? && Enabled(r.value, steps[|steps| - 1]) then Some(Next(r.value, steps[|steps| - 1])) else None
  }
}
