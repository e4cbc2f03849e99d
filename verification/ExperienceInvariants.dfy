/**
 What every step of the learning service keeps, and so what holds in every reachable state.
 */
module ExperienceInvariants {
  import opened Options
  import opened ExperienceService

  predicate HasRunner(pc: Pc) {
    !(pc.Learned? || pc.Skipped? || pc.Failed?)
  }

  predicate HasLock(pc: Pc) {
    pc.Waiting? || Critical(pc)
  }

  // ---- the invariant, agent by agent, task by task, lock by lock ---------------------------

  /** An agent has one runner and one lock of its own. */
  predicate Wired(s: State, a: Agent) {
    && |s.runnerFor| == |s.books| && |s.lockFor| == |s.holders|
    && (a in s.runners <==> a in s.initial) && (a in s.log ==> a in s.runners)
    && (a in s.runners ==> s.runners[a] < |s.books| && s.runnerFor[s.runners[a]] == a)
    && (a in s.locks ==> s.locks[a] < |s.holders| && s.lockFor[s.locks[a]] == a)
  }

  /** A task uses the runner and the lock of its agent, and holds the lock exactly when past acquiring it. */
  predicate Placed(s: State, t: nat)
    requires t < |s.tasks|
  {
    var x := s.tasks[t];
    && (HasRunner(x.pc) ==> x.agent in s.runners && s.runners[x.agent] == x.pc.runner)
    && (HasLock(x.pc) ==> x.agent in s.locks && s.locks[x.agent] == x.pc.lck)
    && (Critical(x.pc) ==> x.pc.lck < |s.holders| && s.holders[x.pc.lck] == Some(t))
  }

  predicate Held(s: State, l: nat)
    requires l < |s.holders|
  {
    s.holders[l].Some? ==>
      var t := s.holders[l].value; t < |s.tasks| && Critical(s.tasks[t].pc) && s.tasks[t].pc.lck == l
  }

  /** The task that holds an agent's lock. */
  function Holder(s: State, a: Agent): Option<nat> {
    if a in s.locks && s.locks[a] < |s.holders| then s.holders[s.locks[a]] else None
  }

  /** What the holder has done to the playbook before its delta. */
  function Progress(s: State, a: Agent): Playbook {
    var h := Holder(s, a);
    if h.Some? && h.value < |s.tasks| && s.tasks[h.value].pc.Curating?
    then [Embedded(h.value, s.tasks[h.value].pc.noise)] else []
  }

  /** The attempts of an agent so far, one after the other. */
  function Sequential(s: State, a: Agent): Playbook {
    if a in s.initial then Fold(s.initial[a], s.Log(a)) else []
  }

  predicate Remembers(s: State, a: Agent) {
    a in s.runners && s.runners[a] < |s.books| ==> s.books[s.runners[a]] == Sequential(s, a) + Progress(s, a)
  }

  /** What a task read is what its playbook was when it took the lock, or its own work since. */
  predicate SeenBy(s: State, t: nat)
    requires t < |s.tasks|
  {
    var a := s.tasks[t].agent;
    match s.tasks[t].pc
    case Reflecting(_, _, saw) => saw == Sequential(s, a)
    case Curating(_, _, saw, noise, curatorSaw) => saw == Sequential(s, a) && curatorSaw == saw + [Embedded(t, noise)]
    case Saving(_, _) => OwnTurn(s.Log(a), t, false)
    case Saved(_, _) => OwnTurn(s.Log(a), t, true)
    case _ => true
  }

  predicate OwnTurn(log: seq<Turn>, t: nat, stored: bool) {
    log != [] && log[|log| - 1].task == t && log[|log| - 1].outcome.Completed? && log[|log| - 1].stored == stored
  }

  ghost predicate AgentOk(s: State, a: Agent) {
    Wired(s, a) && Remembers(s, a)
  }

  ghost predicate TaskOk(s: State, t: nat)
    requires t < |s.tasks|
  {
    Placed(s, t) && SeenBy(s, t)
  }

  ghost predicate Inv(s: State) {
    && (forall a :: AgentOk(s, a))
    && (forall t | 0 <= t < |s.tasks| :: TaskOk(s, t))
    && (forall l | 0 <= l < |s.holders| :: Held(s, l))
  }

  // ---- logs --------------------------------------------------------------------------------

  lemma FoldGrow(p: Playbook, log: seq<Turn>, t: Turn)
    ensures Fold(p, log + [t]) == Alone(Fold(p, log), t)
  {
    assert (log + [t])[..|log|] == log;
  }

  lemma StoredGrow(log: seq<Turn>, t: Turn)
    requires !t.stored
    ensures StoredPart(log + [t]) == StoredPart(log)
  {
    assert (log + [t])[..|log|] == log;
  }

  /** Whether a playbook was stored does not matter for what it is. */
  lemma FoldMark(p: Playbook, log: seq<Turn>)
    ensures Fold(p, MarkStored(log)) == Fold(p, log)
    ensures StoredPart(MarkStored(log)) == MarkStored(log)
  {
    if log != [] {
      assert MarkStored(log)[..|log| - 1] == log[..|log| - 1];
    }
  }

  // ---- consequences of the invariant -------------------------------------------------------

  /** The holder of an agent's lock is a task of that agent. */
  lemma HolderIsOwn(s: State, a: Agent)
    requires Inv(s) && Holder(s, a).Some?
    ensures var t := Holder(s, a).value; t < |s.tasks| && s.tasks[t].agent == a && Critical(s.tasks[t].pc)
    ensures a in s.runners
  {
    assert AgentOk(s, a) && Held(s, s.locks[a]);
    var t := Holder(s, a).value;
    assert TaskOk(s, t) && AgentOk(s, s.tasks[t].agent);
  }

  /** A task past acquiring holds its agent's lock. */
  lemma CriticalHolds(s: State, t: nat)
    requires Inv(s) && t < |s.tasks| && Critical(s.tasks[t].pc)
    ensures Holder(s, s.tasks[t].agent) == Some(t)
  {
    assert TaskOk(s, t);
  }

  /** Tasks of the same agent are never past acquiring its lock together. */
  lemma OneAtATime(s: State, t: nat, u: nat)
    requires Inv(s) && t < |s.tasks| && u < |s.tasks|
    requires Critical(s.tasks[t].pc) && Critical(s.tasks[u].pc) && s.tasks[t].agent == s.tasks[u].agent
    ensures t == u
  {
    CriticalHolds(s, t);
    CriticalHolds(s, u);
  }

  // ---- a task moves without touching a playbook --------------------------------------------

  /** Everything that concerns playbooks is as it was. */
  predicate SameBooks(s: State, s': State) {
    && s'.runners == s.runners && s'.books == s.books && s'.locks == s.locks && s'.runnerFor == s.runnerFor
    && s'.lockFor == s.lockFor && s'.initial == s.initial && s'.log == s.log
  }

  /** The lock `l` of a moving task, taken or left by it or not its own. */
  predicate Passed(s: State, s': State, t: nat, l: nat)
    requires t < |s.tasks| == |s'.tasks| && l < |s.holders| == |s'.holders|
  {
    if HasLock(s.tasks[t].pc) && l == s.tasks[t].pc.lck then
      if Critical(s'.tasks[t].pc) then s'.holders[l] == Some(t)
      else s'.holders[l] == if Critical(s.tasks[t].pc) then None else s.holders[l]
    else s'.holders[l] == s.holders[l]
  }

  ghost predicate Move(s: State, s': State, t: nat) {
    && SameBooks(s, s')
    && t < |s.tasks| && |s'.tasks| == |s.tasks| && |s'.holders| == |s.holders|
    && (forall u | 0 <= u < |s.tasks| && u != t :: s'.tasks[u] == s.tasks[u])
    && s'.tasks[t].agent == s.tasks[t].agent
    && (forall l | 0 <= l < |s.holders| :: Passed(s, s', t, l))
    && (HasLock(s'.tasks[t].pc) ==> HasLock(s.tasks[t].pc) && s'.tasks[t].pc.lck == s.tasks[t].pc.lck)
    && (HasRunner(s'.tasks[t].pc) ==> HasRunner(s.tasks[t].pc) && s'.tasks[t].pc.runner == s.tasks[t].pc.runner)
    && (Critical(s'.tasks[t].pc) && !Critical(s.tasks[t].pc) ==>
          s.tasks[t].pc.lck < |s.holders| && s.holders[s.tasks[t].pc.lck] == None)
    && !s.tasks[t].pc.Curating? && !s'.tasks[t].pc.Curating?
  }

  lemma MoveLock(s: State, s': State, t: nat, l: nat)
    requires Inv(s) && Move(s, s', t) && l < |s.holders|
    ensures Held(s', l)
  {
    assert Held(s, l) && Passed(s, s', t, l) && TaskOk(s, t);
    if Critical(s.tasks[t].pc) { assert AgentOk(s, s.tasks[t].agent); }
  }

  lemma MoveProgress(s: State, s': State, t: nat, a: Agent)
    requires Inv(s) && Move(s, s', t)
    ensures Progress(s', a) == Progress(s, a)
  {
    assert AgentOk(s, a) && TaskOk(s, t);
    if a in s.locks {
      var l := s.locks[a];
      assert Passed(s, s', t, l) && Held(s, l);
    }
  }

  lemma MoveKeeps(s: State, s': State, t: nat)
    requires Inv(s) && Move(s, s', t) && SeenBy(s', t)
    ensures Inv(s')
  {
    forall a ensures AgentOk(s', a) {
      assert AgentOk(s, a);
      MoveProgress(s, s', t, a);
    }
    forall l | 0 <= l < |s'.holders| ensures Held(s', l) { MoveLock(s, s', t, l); }
    forall u | 0 <= u < |s'.tasks| ensures TaskOk(s', u) { MoveTask(s, s', t, u); }
  }

  lemma MoveTask(s: State, s': State, t: nat, u: nat)
    requires Inv(s) && Move(s, s', t) && SeenBy(s', t) && u < |s.tasks|
    ensures TaskOk(s', u)
  {
    assert TaskOk(s, u) && TaskOk(s, t);
    if HasLock(s.tasks[t].pc) {
      assert AgentOk(s, s.tasks[t].agent);
      assert Passed(s, s', t, s.tasks[t].pc.lck);
    }
    if u != t && Critical(s.tasks[u].pc) {
      assert Passed(s, s', t, s.tasks[u].pc.lck);
    }
  }

  lemma EnterGuardKeeps(s: State, t: nat)
    requires Inv(s) && Enabled(s, EnterGuard(t))
    ensures Inv(Next(s, EnterGuard(t)))
  {
    MoveKeeps(s, Next(s, EnterGuard(t)), t);
  }

  lemma AbandonKeeps(s: State, t: nat)
    requires Inv(s) && Enabled(s, Abandon(t))
    ensures Inv(Next(s, Abandon(t)))
  {
    MoveKeeps(s, Next(s, Abandon(t)), t);
  }

  lemma ReleaseKeeps(s: State, t: nat)
    requires Inv(s) && Enabled(s, Release(t))
    ensures Inv(Next(s, Release(t)))
  {
    assert TaskOk(s, t);
    MoveKeeps(s, Next(s, Release(t)), t);
  }

  lemma AcquireKeeps(s: State, t: nat)
    requires Inv(s) && Enabled(s, Acquire(t))
    ensures Inv(Next(s, Acquire(t)))
  {
    var s' := Next(s, Acquire(t));
    var a := s.tasks[t].agent;
    assert TaskOk(s, t) && AgentOk(s, a);
    MoveKeeps(s, s', t);
  }

  // ---- a task works on its agent's playbook ------------------------------------------------

  /** Only the playbook and the log of the agent of `t` change, and `t` held the lock. */
  ghost predicate Work(s: State, s': State, t: nat) {
    && t < |s.tasks| && |s'.tasks| == |s.tasks| && |s'.holders| == |s.holders| && |s'.books| == |s.books|
    && Critical(s.tasks[t].pc) && s.tasks[t].pc.runner < |s.books|
    && s'.runners == s.runners && s'.locks == s.locks && s'.runnerFor == s.runnerFor
    && s'.lockFor == s.lockFor && s'.initial == s.initial && s'.log.Keys <= s.log.Keys + {s.tasks[t].agent}
    && (forall r | 0 <= r < |s.books| && r != s.tasks[t].pc.runner :: s'.books[r] == s.books[r])
    && (forall b | b != s.tasks[t].agent :: s'.Log(b) == s.Log(b))
    && (forall u | 0 <= u < |s.tasks| && u != t :: s'.tasks[u] == s.tasks[u])
    && s'.tasks[t].agent == s.tasks[t].agent
    && (forall l | 0 <= l < |s.holders| :: Passed(s, s', t, l))
    && (HasLock(s'.tasks[t].pc) ==> Critical(s'.tasks[t].pc) && s'.tasks[t].pc.lck == s.tasks[t].pc.lck)
    && (HasRunner(s'.tasks[t].pc) ==> s'.tasks[t].pc.runner == s.tasks[t].pc.runner)
  }

  lemma WorkElsewhere(s: State, s': State, t: nat, b: Agent)
    requires Inv(s) && Work(s, s', t) && b != s.tasks[t].agent
    ensures AgentOk(s', b)
  {
    var a := s.tasks[t].agent;
    assert AgentOk(s, b) && AgentOk(s, a) && TaskOk(s, t);
    assert s'.Log(b) == s.Log(b);
    ElsewhereProgress(s, s', t, b);
  }

  lemma ElsewhereProgress(s: State, s': State, t: nat, b: Agent)
    requires Inv(s) && Work(s, s', t) && b != s.tasks[t].agent
    ensures Progress(s', b) == Progress(s, b)
  {
    assert AgentOk(s, b) && AgentOk(s, s.tasks[t].agent) && TaskOk(s, t);
    if b in s.locks {
      assert Passed(s, s', t, s.locks[b]);
      if Holder(s, b).Some? { HolderIsOwn(s, b); }
    }
  }

  lemma WorkTask(s: State, s': State, t: nat, u: nat)
    requires Inv(s) && Work(s, s', t) && SeenBy(s', t) && u < |s.tasks|
    ensures TaskOk(s', u)
  {
    var a := s.tasks[t].agent;
    assert TaskOk(s, u) && TaskOk(s, t) && AgentOk(s, a);
    assert Passed(s, s', t, s.tasks[t].pc.lck);
    if u != t && Critical(s.tasks[u].pc) {
      assert Passed(s, s', t, s.tasks[u].pc.lck);
      if s.tasks[u].agent == a {
        OneAtATime(s, t, u);
      } else {
        assert s'.Log(s.tasks[u].agent) == s.Log(s.tasks[u].agent);
      }
    }
  }

  lemma WorkLock(s: State, s': State, t: nat, l: nat)
    requires Inv(s) && Work(s, s', t) && l < |s.holders|
    ensures Held(s', l)
  {
    assert Held(s, l) && Passed(s, s', t, l) && TaskOk(s, t);
  }

  lemma WorkKeeps(s: State, s': State, t: nat)
    requires Inv(s) && Work(s, s', t) && SeenBy(s', t)
    requires Remembers(s', s.tasks[t].agent)
    ensures Inv(s')
  {
    var a := s.tasks[t].agent;
    assert TaskOk(s, t) && AgentOk(s, a);
    forall b ensures AgentOk(s', b) {
      if b != a { WorkElsewhere(s, s', t, b); }
    }
    forall l | 0 <= l < |s'.holders| ensures Held(s', l) { WorkLock(s, s', t, l); }
    forall u | 0 <= u < |s'.tasks| ensures TaskOk(s', u) { WorkTask(s, s', t, u); }
  }

  lemma ReflectedKeeps(s: State, t: nat, noise: nat)
    requires Inv(s) && Enabled(s, Reflected(t, noise))
    ensures Inv(NextReflected(s, t, noise))
  {
    var s', a := NextReflected(s, t, noise), s.tasks[t].agent;
    assert TaskOk(s, t) && AgentOk(s, a);
    CriticalHolds(s, t);
    assert Sequential(s', a) == Sequential(s, a) && Progress(s, a) == [] && Progress(s', a) == [Embedded(t, noise)];
    WorkKeeps(s, s', t);
  }

  lemma CuratedKeeps(s: State, t: nat, delta: nat)
    requires Inv(s) && Enabled(s, Curated(t, delta))
    ensures Inv(NextCurated(s, t, delta))
  {
    var s', a := NextCurated(s, t, delta), s.tasks[t].agent;
    var turn := Turn(t, Completed(s.tasks[t].pc.noise, delta), false);
    assert TaskOk(s, t) && AgentOk(s, a);
    CriticalHolds(s, t);
    assert s'.Log(a) == s.Log(a) + [turn];
    FoldGrow(s.initial[a], s.Log(a), turn);
    assert Progress(s', a) == [];
    WorkKeeps(s, s', t);
  }

  lemma WriteKeeps(s: State, t: nat)
    requires Inv(s) && Enabled(s, Write(t))
    ensures Inv(NextWrite(s, t))
  {
    var s', a := NextWrite(s, t), s.tasks[t].agent;
    assert TaskOk(s, t) && AgentOk(s, a);
    CriticalHolds(s, t);
    assert s'.Log(a) == MarkStored(s.Log(a));
    FoldMark(s.initial[a], s.Log(a));
    assert Progress(s, a) == Progress(s', a) == [];
    WorkKeeps(s, s', t);
  }

  lemma RaiseKeeps(s: State, t: nat, damage: seq<nat>)
    requires Inv(s) && Enabled(s, Raise(t, damage))
    ensures Inv(NextRaise(s, t, damage))
  {
    var pc := s.tasks[t].pc;
    if pc.Reflecting? || pc.Curating? {
      LosingKeeps(s, t, damage);
    } else {
      assert TaskOk(s, t);
      MoveKeeps(s, NextRaise(s, t, damage), t);
    }
  }

  lemma LosingKeeps(s: State, t: nat, damage: seq<nat>)
    requires Inv(s) && Enabled(s, Raise(t, damage)) && (s.tasks[t].pc.Reflecting? || s.tasks[t].pc.Curating?)
    ensures Inv(NextRaise(s, t, damage))
  {
    var pc := s.tasks[t].pc;
    var turn := Turn(t, if pc.Reflecting? then LostReflecting(damage) else LostCurating(pc.noise, damage), false);
    LosingIsWork(s, t, damage);
    LosingRemembers(s, t, damage, turn);
    WorkKeeps(s, NextRaise(s, t, damage), t);
  }

  lemma LosingIsWork(s: State, t: nat, damage: seq<nat>)
    requires Inv(s) && Enabled(s, Raise(t, damage)) && (s.tasks[t].pc.Reflecting? || s.tasks[t].pc.Curating?)
    ensures Work(s, NextRaise(s, t, damage), t)
  {
    assert TaskOk(s, t);
  }

  lemma LosingRemembers(s: State, t: nat, damage: seq<nat>, turn: Turn)
    requires Inv(s) && Enabled(s, Raise(t, damage)) && (s.tasks[t].pc.Reflecting? || s.tasks[t].pc.Curating?)
    requires var pc := s.tasks[t].pc;
             turn == Turn(t, if pc.Reflecting? then LostReflecting(damage) else LostCurating(pc.noise, damage), false)
    ensures Remembers(NextRaise(s, t, damage), s.tasks[t].agent)
  {
    var s', a := NextRaise(s, t, damage), s.tasks[t].agent;
    assert TaskOk(s, t) && AgentOk(s, a);
    LosingLogs(s, t, damage, turn);
    FoldGrow(s.initial[a], s.Log(a), turn);
    LosingBook(s, t, damage, turn);
  }

  lemma LosingLogs(s: State, t: nat, damage: seq<nat>, turn: Turn)
    requires Inv(s) && Enabled(s, Raise(t, damage)) && (s.tasks[t].pc.Reflecting? || s.tasks[t].pc.Curating?)
    requires var pc := s.tasks[t].pc;
             turn == Turn(t, if pc.Reflecting? then LostReflecting(damage) else LostCurating(pc.noise, damage), false)
    ensures NextRaise(s, t, damage).Log(s.tasks[t].agent) == s.Log(s.tasks[t].agent) + [turn]
    ensures Progress(NextRaise(s, t, damage), s.tasks[t].agent) == []
  {
    assert TaskOk(s, t);
  }

  /** The playbook of a task that fails is what the attempt, run alone, leaves. */
  lemma LosingBook(s: State, t: nat, damage: seq<nat>, turn: Turn)
    requires Inv(s) && Enabled(s, Raise(t, damage)) && (s.tasks[t].pc.Reflecting? || s.tasks[t].pc.Curating?)
    requires var pc := s.tasks[t].pc;
             turn == Turn(t, if pc.Reflecting? then LostReflecting(damage) else LostCurating(pc.noise, damage), false)
    ensures NextRaise(s, t, damage).books[s.tasks[t].pc.runner] == Alone(Sequential(s, s.tasks[t].agent), turn)
  {
    assert TaskOk(s, t) && AgentOk(s, s.tasks[t].agent);
    CriticalHolds(s, t);
  }

  // ---- new tasks, runners and locks --------------------------------------------------------

  lemma CallProgress(s: State, a: Agent, digest: string, b: Agent)
    requires Inv(s)
    ensures Progress(NextCall(s, a, digest), b) == Progress(s, b)
  {
    if Holder(s, b).Some? {
      HolderIsOwn(s, b);
      assert NextCall(s, a, digest).tasks[Holder(s, b).value] == s.tasks[Holder(s, b).value];
    }
  }

  lemma CallWired(s: State, a: Agent, digest: string, b: Agent)
    requires Inv(s)
    ensures Wired(NextCall(s, a, digest), b)
  {
    assert AgentOk(s, b) && AgentOk(s, a);
  }

  lemma CallRemembers(s: State, a: Agent, digest: string, b: Agent)
    requires Inv(s)
    ensures Remembers(NextCall(s, a, digest), b)
  {
    assert AgentOk(s, b) && AgentOk(s, a);
    CallProgress(s, a, digest, b);
    if b !in s.runners { NoRunnerNoHolder(s, b); }
  }

  lemma CallAgent(s: State, a: Agent, digest: string, b: Agent)
    requires Inv(s)
    ensures AgentOk(NextCall(s, a, digest), b)
  {
    CallWired(s, a, digest, b);
    CallRemembers(s, a, digest, b);
  }

  lemma NoRunnerNoHolder(s: State, b: Agent)
    requires Inv(s) && b !in s.runners
    ensures Holder(s, b) == None && Progress(s, b) == []
  {
    if Holder(s, b).Some? { HolderIsOwn(s, b); }
  }

  lemma CallKeeps(s: State, a: Agent, digest: string)
    requires Inv(s)
    ensures Inv(NextCall(s, a, digest))
  {
    var s' := NextCall(s, a, digest);
    forall b ensures AgentOk(s', b) { CallAgent(s, a, digest, b); }
    forall l | 0 <= l < |s'.holders| ensures Held(s', l) { assert Held(s, l); }
    forall t | 0 <= t < |s'.tasks| ensures TaskOk(s', t) { CallTask(s, a, digest, t); }
  }

  lemma CallTask(s: State, a: Agent, digest: string, t: nat)
    requires Inv(s) && t <= |s.tasks|
    ensures TaskOk(NextCall(s, a, digest), t)
  {
    if t < |s.tasks| {
      assert TaskOk(s, t) && AgentOk(s, s.tasks[t].agent) && NextCall(s, a, digest).tasks[t] == s.tasks[t];
    } else {
      assert AgentOk(s, a);
    }
  }

  lemma LeaveProgress(s: State, t: nat, b: Agent)
    requires Inv(s) && Enabled(s, LeaveGuard(t))
    ensures Progress(NextLeave(s, t), b) == Progress(s, b)
  {
    assert AgentOk(s, b);
    if Holder(s, b).Some? { HolderIsOwn(s, b); }
  }

  lemma LeaveWired(s: State, t: nat, b: Agent)
    requires Inv(s) && Enabled(s, LeaveGuard(t))
    ensures Wired(NextLeave(s, t), b)
  {
    assert AgentOk(s, b) && AgentOk(s, s.tasks[t].agent);
  }

  lemma LeaveAgent(s: State, t: nat, b: Agent)
    requires Inv(s) && Enabled(s, LeaveGuard(t))
    ensures AgentOk(NextLeave(s, t), b)
  {
    LeaveWired(s, t, b);
    assert AgentOk(s, b);
    LeaveProgress(s, t, b);
    LeaveKeepsBooks(s, NextLeave(s, t), b);
  }

  lemma LeaveKeepsBooks(s: State, s': State, b: Agent)
    requires Remembers(s, b) && Progress(s', b) == Progress(s, b)
    requires s'.runners == s.runners && s'.books == s.books && s'.initial == s.initial && s'.log == s.log
    ensures Remembers(s', b)
  {
  }

  lemma LeaveTask(s: State, t: nat, u: nat)
    requires Inv(s) && Enabled(s, LeaveGuard(t)) && u < |s.tasks|
    ensures TaskOk(NextLeave(s, t), u)
  {
    assert TaskOk(s, u) && TaskOk(s, t) && AgentOk(s, s.tasks[t].agent) && AgentOk(s, s.tasks[u].agent);
  }

  lemma LeaveGuardKeeps(s: State, t: nat)
    requires Inv(s) && Enabled(s, LeaveGuard(t))
    ensures Inv(NextLeave(s, t))
  {
    var s' := NextLeave(s, t);
    forall b ensures AgentOk(s', b) { LeaveAgent(s, t, b); }
    forall u | 0 <= u < |s'.tasks| ensures TaskOk(s', u) { LeaveTask(s, t, u); }
    forall l | 0 <= l < |s'.holders| ensures Held(s', l) { if l < |s.holders| { assert Held(s, l); } }
  }

  /** Every step keeps the invariant. */
  lemma StepKeeps(s: State, step: Step)
    requires Inv(s) && Enabled(s, step)
    ensures Inv(Next(s, step))
  {
    match step
    case Call(a, digest) => CallKeeps(s, a, digest);
    case EnterGuard(t) => EnterGuardKeeps(s, t);
    case LeaveGuard(t) => LeaveGuardKeeps(s, t);
    case Acquire(t) => AcquireKeeps(s, t);
    case Reflected(t, noise) => ReflectedKeeps(s, t, noise);
    case Curated(t, delta) => CuratedKeeps(s, t, delta);
    case Write(t) => WriteKeeps(s, t);
    case Release(t) => ReleaseKeeps(s, t);
    case Abandon(t) => AbandonKeeps(s, t);
    case Raise(t, damage) => RaiseKeeps(s, t, damage);
  }

  lemma {:induction false} Reachable(disk: map<int, Playbook>, steps: seq<Step>)
    requires Run(Start(disk), steps).Some?
    ensures Inv(Run(Start(disk), steps).value)
  {
    if steps != [] {
      Reachable(disk, steps[..|steps| - 1]);
      StepKeeps(Run(Start(disk), steps[..|steps| - 1]).value, steps[|steps| - 1]);
    }
  }

  /** A task's runner and lock exist, so a step is possible as soon as the task is where it starts from. */
  lemma ReferencesExist(s: State, t: nat)
    requires Inv(s) && t < |s.tasks|
    ensures HasRunner(s.tasks[t].pc) ==> s.tasks[t].pc.runner < |s.books|
    ensures HasLock(s.tasks[t].pc) ==> s.tasks[t].pc.lck < |s.holders|
  {
    assert TaskOk(s, t) && AgentOk(s, s.tasks[t].agent);
  }
}
