/**
 What the learning service never does: wait for nothing, run for ever, or skip a trajectory it does not remember.
 */
module ExperienceProgress {
  import opened Options
  import opened ExperienceService
  import opened ExperienceInvariants
  import opened ExperienceDedup
  import opened ExperienceTheorems

  // ---- who waits for whom ------------------------------------------------------------------

  /** The guard of the lock table is held by the one task inside it. */
  predicate GuardOk(s: State) {
    && (s.guard.Some? ==> s.guard.value < |s.tasks|)
    && forall t: nat | t < |s.tasks| :: s.tasks[t].pc.Guarding? <==> s.guard == Some(t)
  }

  lemma StepGuard(s: State, step: Step)
    requires GuardOk(s) && Enabled(s, step)
    ensures GuardOk(Next(s, step))
  {
    match step
    case Acquire(t) => AcquireMoves(s, t);
    case Raise(t, damage) => RaiseMoves(s, t, damage);
    case _ =>
  }

  /** One task moves closer to its end, from one place outside the guard to another. */
  predicate Moved(s: State, s': State, t: nat) {
    && t < |s.tasks| && s'.guard == s.guard && |s'.tasks| == |s.tasks|
    && s'.tasks == s.tasks[t := s'.tasks[t]]
    && !s.tasks[t].pc.Guarding? && !s'.tasks[t].pc.Guarding?
    && Ahead(s'.tasks[t].pc) < Ahead(s.tasks[t].pc)
  }

  lemma AcquireMoves(s: State, t: nat)
    requires Enabled(s, Acquire(t))
    ensures Moved(s, Next(s, Acquire(t)), t)
  {
    if s.tasks[t].Id() !in s.learned { RegisterFrame(s, t, s.tasks[t].Id()); }
  }

  lemma RegisterFrame(s: State, t: nat, id: TrajectoryId)
    ensures var r := Registered(s, t, id);
            r.tasks == s.tasks && r.guard == s.guard && r.attempts == s.attempts + [Attempt(t, id)]
  {
  }

  lemma AcquireAttempts(s: State, t: nat)
    requires Enabled(s, Acquire(t))
    ensures var id := s.tasks[t].Id();
            Next(s, Acquire(t)).attempts == if id in s.learned then s.attempts else s.attempts + [Attempt(t, id)]
  {
    RegisterFrame(s, t, s.tasks[t].Id());
  }

  lemma RaiseMoves(s: State, t: nat, damage: seq<nat>)
    requires Enabled(s, Raise(t, damage))
    ensures Moved(s, Next(s, Raise(t, damage)), t)
  {
  }

  lemma {:induction false} ReachableGuard(disk: map<int, Playbook>, steps: seq<Step>, s: State)
    requires Reaches(disk, steps, s)
    ensures GuardOk(s)
  {
    if steps != [] {
      var n := |steps| - 1;
      var before := Run(Start(disk), steps[..n]).value;
      ReachableGuard(disk, steps[..n], before);
      StepGuard(before, steps[n]);
    }
  }

  /** Between taking its agent's lock and leaving it. */
  predicate Inside(x: Task) {
    x.pc.Reflecting? || x.pc.Curating? || x.pc.Saving? || x.pc.Saved?
  }

  /** A task that waits for its lock can take it exactly when no task of its own agent is inside. */
  lemma LockFreeIff(disk: map<int, Playbook>, steps: seq<Step>, s: State, t: nat)
    requires Reaches(disk, steps, s) && t < |s.tasks| && s.tasks[t].pc.Waiting?
    ensures Enabled(s, Acquire(t)) <==>
            forall u: nat | u < |s.tasks| && s.tasks[u].agent == s.tasks[t].agent :: !Inside(s.tasks[u])
  {
    Reachable(disk, steps);
    var a := s.tasks[t].agent;
    assert TaskOk(s, t) && AgentOk(s, a);
    if Holder(s, a).Some? {
      HolderIsOwn(s, a);
      assert Inside(s.tasks[Holder(s, a).value]);
    } else {
      forall u: nat | u < |s.tasks| && s.tasks[u].agent == a ensures !Inside(s.tasks[u]) {
        if Critical(s.tasks[u].pc) { CriticalHolds(s, u); }
      }
    }
  }

  predicate Finished(x: Task) {
    x.pc.Learned? || x.pc.Skipped? || x.pc.Failed?
  }

  /** A step by which the task goes on as it should: not a failure and not a new task. */
  predicate Proceeds(step: Step, u: nat) {
    && (step.EnterGuard? || step.LeaveGuard? || step.Acquire? || step.Reflected? || step.Curated? || step.Write? ||
        step.Release?)
    && step.t == u
  }

  /** What keeps `t` from going on is that `u` holds the guard, or the lock of their common agent. */
  predicate WaitsFor(s: State, t: nat, u: nat)
    requires t < |s.tasks| && u < |s.tasks|
  {
    || (s.tasks[t].pc.Called? && s.tasks[u].pc.Guarding?)
    || (s.tasks[t].pc.Waiting? && Inside(s.tasks[u]) && s.tasks[u].agent == s.tasks[t].agent)
  }

  /** A task of this state with a lock or a runner can use it. */
  lemma CanProceed(s: State, u: nat) returns (step: Step)
    requires Inv(s) && u < |s.tasks| && (s.tasks[u].pc.Guarding? || Inside(s.tasks[u]))
    ensures Proceeds(step, u) && Enabled(s, step)
  {
    assert TaskOk(s, u) && AgentOk(s, s.tasks[u].agent);
    match s.tasks[u].pc
    case Guarding(_) => step := LeaveGuard(u);
    case Reflecting(_, _, _) => step := Reflected(u, 0);
    case Curating(_, _, _, _, _) => step := Curated(u, 0);
    case Saving(_, _) => step := Write(u);
    case Saved(_, _) => step := Release(u);
  }

  /**
   There is no deadlock: in every reachable state an unfinished task can go on, or it waits for one that can.
   */
  lemma NeverStuck(disk: map<int, Playbook>, steps: seq<Step>, s: State, t: nat) returns (u: nat, step: Step)
    requires Reaches(disk, steps, s) && t < |s.tasks| && !Finished(s.tasks[t])
    ensures u < |s.tasks| && (u == t || WaitsFor(s, t, u)) && Proceeds(step, u) && Enabled(s, step)
  {
    Reachable(disk, steps);
    ReachableGuard(disk, steps, s);
    u := t;
    if s.tasks[t].pc.Called? {
      if s.guard == None { step := EnterGuard(t); } else { u := s.guard.value; step := CanProceed(s, u); }
    } else if s.tasks[t].pc.Waiting? {
      assert TaskOk(s, t) && AgentOk(s, s.tasks[t].agent);
      if Enabled(s, Acquire(t)) {
        step := Acquire(t);
      } else {
        LockFreeIff(disk, steps, s, t);
        u :| u < |s.tasks| && s.tasks[u].agent == s.tasks[t].agent && Inside(s.tasks[u]);
        step := CanProceed(s, u);
      }
    } else {
      step := CanProceed(s, t);
    }
  }

  // ---- every run comes to rest -------------------------------------------------------------

  /** How many steps a task has before it. */
  function Ahead(pc: Pc): nat {
    match pc
    case Called(_) => 7
    case Guarding(_) => 6
    case Waiting(_, _) => 5
    case Reflecting(_, _, _) => 4
    case Curating(_, _, _, _, _) => 3
    case Saving(_, _) => 2
    case Saved(_, _) => 1
    case _ => 0
  }

  function AllAhead(tasks: seq<Task>): nat {
    if tasks == [] then 0 else AllAhead(tasks[..|tasks| - 1]) + Ahead(tasks[|tasks| - 1].pc)
  }

  lemma AheadGrow(tasks: seq<Task>, x: Task)
    ensures AllAhead(tasks + [x]) == AllAhead(tasks) + Ahead(x.pc)
  {
    assert (tasks + [x])[..|tasks|] == tasks;
  }

  lemma {:induction false} AheadMove(tasks: seq<Task>, t: nat, x: Task)
    requires t < |tasks| && Ahead(x.pc) < Ahead(tasks[t].pc)
    ensures AllAhead(tasks[t := x]) < AllAhead(tasks)
  {
    var n := |tasks| - 1;
    var moved := tasks[t := x];
    if t < n {
      AheadMove(tasks[..n], t, x);
      assert moved[..n] == tasks[..n][t := x];
    } else {
      assert moved[..n] == tasks[..n];
    }
  }

  lemma CallAhead(s: State, a: Agent, digest: string)
    ensures AllAhead(NextCall(s, a, digest).tasks) == AllAhead(s.tasks) + 7
  {
    var x := NextCall(s, a, digest).tasks[|s.tasks|];
    assert NextCall(s, a, digest).tasks == s.tasks + [x];
    AheadGrow(s.tasks, x);
  }

  lemma StepMoves(s: State, step: Step)
    requires Enabled(s, step) && !step.Call?
    ensures var s' := Next(s, step);
            && step.t < |s.tasks| == |s'.tasks| && s'.tasks == s.tasks[step.t := s'.tasks[step.t]]
            && Ahead(s'.tasks[step.t].pc) < Ahead(s.tasks[step.t].pc)
  {
    match step
    case Acquire(t) => AcquireMoves(s, t);
    case Raise(t, damage) => RaiseMoves(s, t, damage);
    case _ =>
  }

  /** Every step but a new call takes one task closer to its end. */
  lemma StepAhead(s: State, step: Step)
    requires Enabled(s, step)
    ensures step.Call? ==> AllAhead(Next(s, step).tasks) == AllAhead(s.tasks) + 7
    ensures !step.Call? ==> AllAhead(Next(s, step).tasks) < AllAhead(s.tasks)
  {
    if step.Call? {
      CallAhead(s, step.agent, step.digest);
    } else {
      StepMoves(s, step);
      AheadMove(s.tasks, step.t, Next(s, step).tasks[step.t]);
    }
  }

  function Calls(steps: seq<Step>): nat {
    if steps == [] then 0 else Calls(steps[..|steps| - 1]) + if steps[|steps| - 1].Call? then 1 else 0
  }

  lemma {:induction false} RunAhead(disk: map<int, Playbook>, steps: seq<Step>, s: State)
    requires Reaches(disk, steps, s)
    ensures |steps| + AllAhead(s.tasks) <= 8 * Calls(steps)
  {
    if steps != [] {
      var n := |steps| - 1;
      var before := Run(Start(disk), steps[..n]).value;
      RunAhead(disk, steps[..n], before);
      StepAhead(before, steps[n]);
    }
  }

  /**
   There is no livelock: a run has at most seven further steps for each call, whatever the interleaving and the
   failures, so with `NeverStuck` the service comes to rest with all tasks finished once the calls stop.
   */
  lemma RunsEnd(disk: map<int, Playbook>, steps: seq<Step>, s: State)
    requires Reaches(disk, steps, s)
    ensures |steps| - Calls(steps) <= 7 * Calls(steps)
  {
    RunAhead(disk, steps, s);
  }

  // ---- which trajectories are skipped ------------------------------------------------------

  /** An attempt is recorded under the agent and the digest of its task. */
  predicate AttemptOk(s: State, i: nat)
    requires i < |s.attempts|
  {
    var x := s.attempts[i];
    x.task < |s.tasks| && x.id == (s.tasks[x.task].agent, s.tasks[x.task].digest)
  }

  predicate AttemptsOk(s: State) {
    forall i: nat | i < |s.attempts| :: AttemptOk(s, i)
  }

  /** Tasks keep their agent and digest. */
  predicate SameTasks(s: State, s': State) {
    && |s.tasks| <= |s'.tasks|
    && forall t: nat | t < |s.tasks| ::
         s'.tasks[t].agent == s.tasks[t].agent && s'.tasks[t].digest == s.tasks[t].digest
  }

  lemma StepSameTasks(s: State, step: Step)
    requires Enabled(s, step)
    ensures SameTasks(s, Next(s, step))
  {
  }

  lemma StepAttempts(s: State, step: Step)
    requires AttemptsOk(s) && Enabled(s, step)
    ensures AttemptsOk(Next(s, step))
  {
    StepSameTasks(s, step);
    var s' := Next(s, step);
    if step.Acquire? { AcquireAttempts(s, step.t); }
    forall i: nat | i < |s'.attempts| ensures AttemptOk(s', i) {
      if i < |s.attempts| { assert AttemptOk(s, i); }
    }
  }

  lemma {:induction false} ReachableAttempts(disk: map<int, Playbook>, steps: seq<Step>, s: State)
    requires Reaches(disk, steps, s)
    ensures AttemptsOk(s)
  {
    if steps != [] {
      var n := |steps| - 1;
      var before := Run(Start(disk), steps[..n]).value;
      ReachableAttempts(disk, steps[..n], before);
      StepAttempts(before, steps[n]);
    }
  }

  /** The attempt at `i` was at the same agent's same trajectory as the task `t` has. */
  predicate Repeats(s: State, i: nat, t: nat)
    requires i < |s.attempts| && t < |s.tasks|
  {
    var u := s.attempts[i].task;
    u < |s.tasks| && s.tasks[u].agent == s.tasks[t].agent && s.tasks[u].digest == s.tasks[t].digest
  }

  /** Where the attempts begin that are remembered after `n` of them: the table is cleared after every 1024. */
  function RememberedFrom(n: nat): nat {
    if n == 0 then 0 else (n - 1) / 1024 * 1024
  }

  lemma LearnedIff(s: State, t: nat)
    requires Tracked(s) && AttemptsOk(s) && t < |s.tasks|
    ensures (s.tasks[t].agent, s.tasks[t].digest) in s.learned <==>
            exists i: nat :: RememberedFrom(|s.attempts|) <= i < |s.attempts| && Repeats(s, i, t)
  {
    var id, k := (s.tasks[t].agent, s.tasks[t].digest), RememberedFrom(|s.attempts|);
    assert s.clears * LEARNED_CAP == k;
    assert s.learned == IdsFrom(s.attempts, k);
    if id in s.learned {
      var i :| k <= i < |s.attempts| && s.attempts[i].id == id;
      assert AttemptOk(s, i);
      assert Repeats(s, i, t);
    }
    if i: nat :| k <= i < |s.attempts| && Repeats(s, i, t) {
      assert AttemptOk(s, i);
      assert s.attempts[i].id == id;
    }
  }

  /**
   In every run a task that takes its lock is skipped, changing nothing else, exactly if its agent has attempted
   the same trajectory since the table was last cleared; otherwise it reads its agent's playbook and is recorded.
   */
  lemma SkippedIff(disk: map<int, Playbook>, steps: seq<Step>, s: State, t: nat)
    requires Reaches(disk, steps, s) && Enabled(s, Acquire(t))
    ensures var repeated := exists i: nat :: RememberedFrom(|s.attempts|) <= i < |s.attempts| && Repeats(s, i, t);
            var s', a := Next(s, Acquire(t)), s.tasks[t].agent;
            && (repeated ==> s' == s.(tasks := s.tasks[t := s.tasks[t].(pc := Skipped)]))
            && (!repeated ==>
                  && s'.tasks[t].pc.Reflecting? && a in s.runners && s.runners[a] < |s.books|
                  && s'.tasks[t].pc.saw == s.books[s.runners[a]]
                  && s'.attempts == s.attempts + [Attempt(t, (a, s.tasks[t].digest))])
  {
    Reachable(disk, steps);
    ReachableTracked(disk, steps);
    ReachableAttempts(disk, steps, s);
    LearnedIff(s, t);
    assert TaskOk(s, t) && AgentOk(s, s.tasks[t].agent);
  }
}
