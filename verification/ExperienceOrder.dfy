/**
 The log of an agent's attempts is in lock order, and tells which of them were saved.
 */
module ExperienceOrder {
  import opened Options
  import opened ExperienceService
  import opened ExperienceInvariants

  /** The tasks of an agent that reached its runner, in the order they took its lock. */
  function Granted(attempts: seq<Attempt>, a: Agent): seq<nat> {
    if attempts == [] then []
    else
      var rest, x := Granted(attempts[..|attempts| - 1], a), attempts[|attempts| - 1];
      if x.id.0 == a then rest + [x.task] else rest
  }

  function TasksOf(log: seq<Turn>): seq<nat> {
    seq(|log|, i requires 0 <= i < |log| => log[i].task)
  }

  /** The attempt under way that has no turn in the log yet. */
  function Current(s: State, a: Agent): seq<nat> {
    var h := Holder(s, a);
    if h.Some? && h.value < |s.tasks| && (s.tasks[h.value].pc.Reflecting? || s.tasks[h.value].pc.Curating?)
    then [h.value] else []
  }

  predicate InOrder(s: State, a: Agent) {
    Granted(s.attempts, a) == TasksOf(s.Log(a)) + Current(s, a)
  }

  /** A turn belongs to a task of the agent, and says truly whether its playbook was saved. */
  predicate TurnOk(s: State, a: Agent, i: nat)
    requires i < |s.Log(a)|
  {
    var x := s.Log(a)[i];
    && x.task < |s.tasks| && s.tasks[x.task].agent == a && (x.stored ==> x.outcome.Completed?)
    && match s.tasks[x.task].pc
       case Saving(_, _) => i == |s.Log(a)| - 1
       case Saved(_, _) => i == |s.Log(a)| - 1
       case Learned => x.stored
       case Failed => true
       case _ => false
  }

  ghost predicate Honest(s: State) {
    forall a, i | 0 <= i < |s.Log(a)| :: TurnOk(s, a, i)
  }

  ghost predicate Orderly(s: State) {
    Honest(s) && forall a :: InOrder(s, a)
  }

  lemma GrantedGrow(attempts: seq<Attempt>, x: Attempt, a: Agent)
    ensures Granted(attempts + [x], a) == if x.id.0 == a then Granted(attempts, a) + [x.task] else Granted(attempts, a)
  {
    assert (attempts + [x])[..|attempts|] == attempts;
  }

  // ---- honest ------------------------------------------------------------------------------

  lemma CallHonest(s: State, a: Agent, digest: string)
    requires Inv(s) && Honest(s)
    ensures Honest(NextCall(s, a, digest))
  {
    var s' := NextCall(s, a, digest);
    forall b, i | 0 <= i < |s'.Log(b)| ensures TurnOk(s', b, i) { assert TurnOk(s, b, i); }
  }

  /** A task without a turn, or one whose turn is saved, may move on; others only fail. */
  lemma MoveHonest(s: State, s': State, t: nat)
    requires Inv(s) && Honest(s) && t < |s.tasks| && s'.log == s.log
    requires |s'.tasks| == |s.tasks| && s'.tasks == Go(s, t, s'.tasks[t].pc)
    requires s.tasks[t].pc.Saved? || s.tasks[t].pc.Saving? ==>
               s'.tasks[t].pc.Failed? || (s.tasks[t].pc.Saved? && s'.tasks[t].pc.Learned?)
    requires !(s.tasks[t].pc.Learned? || s.tasks[t].pc.Failed?)
    ensures Honest(s')
  {
    assert TaskOk(s, t);
    forall b, i | 0 <= i < |s'.Log(b)| ensures TurnOk(s', b, i) { assert TurnOk(s, b, i); }
  }

  /** A task without a turn gets one. */
  lemma TurnHonest(s: State, s': State, t: nat, turn: Turn, pc: Pc)
    requires Inv(s) && Honest(s) && t < |s.tasks| && turn.task == t && (pc.Saving? || pc.Failed?)
    requires (s.tasks[t].pc.Reflecting? || s.tasks[t].pc.Curating?) && !turn.stored
    requires s'.log == Grow(s, s.tasks[t].agent, turn) && s'.tasks == Go(s, t, pc)
    ensures Honest(s')
  {
    var a := s.tasks[t].agent;
    forall b, i | 0 <= i < |s'.Log(b)| ensures TurnOk(s', b, i) {
      if i < |s.Log(b)| {
        assert TurnOk(s, b, i);
        var u := s.Log(b)[i].task;
        if b == a && u < |s.tasks| && Critical(s.tasks[u].pc) { OneAtATime(s, t, u); }
      }
    }
  }

  lemma WriteHonest(s: State, t: nat)
    requires Inv(s) && Honest(s) && Enabled(s, Write(t))
    ensures Honest(NextWrite(s, t))
  {
    var s', a := NextWrite(s, t), s.tasks[t].agent;
    assert TaskOk(s, t);
    forall b, i | 0 <= i < |s'.Log(b)| ensures TurnOk(s', b, i) { assert TurnOk(s, b, i); }
  }

  lemma StepHonest(s: State, step: Step)
    requires Inv(s) && Honest(s) && Enabled(s, step)
    ensures Honest(Next(s, step))
  {
    match step
    case Call(a, digest) => CallHonest(s, a, digest);
    case Curated(t, delta) =>
      TurnHonest(s, Next(s, step), t, Turn(t, Completed(s.tasks[t].pc.noise, delta), false), Next(s, step).tasks[t].pc);
    case Write(t) => WriteHonest(s, t);
    case Raise(t, damage) => RaiseHonest(s, t, damage);
    case _ => OtherHonest(s, step);
  }

  lemma RaiseHonest(s: State, t: nat, damage: seq<nat>)
    requires Inv(s) && Honest(s) && Enabled(s, Raise(t, damage))
    ensures Honest(NextRaise(s, t, damage))
  {
    var s', pc := NextRaise(s, t, damage), s.tasks[t].pc;
    if pc.Reflecting? {
      TurnHonest(s, s', t, Turn(t, LostReflecting(damage), false), Failed);
    } else if pc.Curating? {
      TurnHonest(s, s', t, Turn(t, LostCurating(pc.noise, damage), false), Failed);
    } else {
      MoveHonest(s, s', t);
    }
  }

  lemma OtherHonest(s: State, step: Step)
    requires Inv(s) && Honest(s) && Enabled(s, step)
    requires !(step.Call? || step.Curated? || step.Write? || step.Raise?)
    ensures Honest(Next(s, step))
  {
    if step.Acquire? {
      AcquireHonest(s, step.t);
    } else {
      var s' := Next(s, step);
      assert s'.tasks == Go(s, step.t, s'.tasks[step.t].pc);
      MoveHonest(s, s', step.t);
    }
  }

  lemma AcquireHonest(s: State, t: nat)
    requires Inv(s) && Honest(s) && Enabled(s, Acquire(t))
    ensures Honest(NextAcquire(s, t))
  {
    var s' := NextAcquire(s, t);
    assert s'.log == s.log && s'.tasks == Go(s, t, s'.tasks[t].pc);
    MoveHonest(s, s', t);
  }

  // ---- in lock order -----------------------------------------------------------------------

  predicate Underway(pc: Pc) {
    pc.Reflecting? || pc.Curating?
  }

  lemma CurrentIs(s: State, t: nat)
    requires Inv(s) && t < |s.tasks| && Underway(s.tasks[t].pc)
    ensures Current(s, s.tasks[t].agent) == [t]
  {
    CriticalHolds(s, t);
  }

  lemma CurrentIsOwn(s: State, a: Agent) returns (t: nat)
    requires Inv(s) && Current(s, a) != []
    ensures Current(s, a) == [t] && t < |s.tasks| && s.tasks[t].agent == a && Underway(s.tasks[t].pc)
  {
    HolderIsOwn(s, a);
    t := Holder(s, a).value;
  }

  /** A step of `t` concerns only whether `t` itself is under way. */
  lemma CurrentKept(s: State, s': State, t: nat, b: Agent)
    requires Inv(s) && Inv(s') && t < |s'.tasks| && |s.tasks| <= |s'.tasks|
    requires forall u | 0 <= u < |s.tasks| && u != t :: s'.tasks[u] == s.tasks[u]
    requires forall u | |s.tasks| <= u < |s'.tasks| :: !Underway(s'.tasks[u].pc)
    requires t < |s.tasks| ==> s'.tasks[t].agent == s.tasks[t].agent
    requires t < |s.tasks| && b == s.tasks[t].agent ==> Underway(s'.tasks[t].pc) == Underway(s.tasks[t].pc)
    ensures Current(s', b) == Current(s, b)
  {
    if Current(s, b) != [] {
      var u := CurrentIsOwn(s, b);
      CurrentIs(s', u);
    } else if Current(s', b) != [] {
      var u := CurrentIsOwn(s', b);
      CurrentIs(s, u);
    }
  }

  /** No other task of its agent is under way while one holds the lock or has just left it. */
  lemma CurrentNone(s: State, s': State, t: nat)
    requires Inv(s) && Inv(s') && t < |s.tasks| && |s'.tasks| == |s.tasks| && Critical(s.tasks[t].pc)
    requires forall u | 0 <= u < |s.tasks| && u != t :: s'.tasks[u] == s.tasks[u]
    requires s'.tasks[t].agent == s.tasks[t].agent && !Underway(s'.tasks[t].pc)
    ensures Current(s', s.tasks[t].agent) == []
  {
    if Current(s', s.tasks[t].agent) != [] {
      var u := CurrentIsOwn(s', s.tasks[t].agent);
      OneAtATime(s, t, u);
    }
  }

  lemma QuietInOrder(s: State, s': State, t: nat, b: Agent)
    requires Inv(s) && Inv(s') && t < |s'.tasks| && |s.tasks| <= |s'.tasks| && InOrder(s, b)
    requires forall u | 0 <= u < |s.tasks| && u != t :: s'.tasks[u] == s.tasks[u]
    requires forall u | |s.tasks| <= u < |s'.tasks| :: !Underway(s'.tasks[u].pc)
    requires t < |s.tasks| ==> s'.tasks[t].agent == s.tasks[t].agent
    requires t < |s.tasks| && b == s.tasks[t].agent ==> Underway(s'.tasks[t].pc) == Underway(s.tasks[t].pc)
    requires Granted(s'.attempts, b) == Granted(s.attempts, b) && TasksOf(s'.Log(b)) == TasksOf(s.Log(b))
    ensures InOrder(s', b)
  {
    CurrentKept(s, s', t, b);
  }

  lemma AcquireInOrder(s: State, t: nat, b: Agent)
    requires Enabled(s, Acquire(t)) && Inv(s) && Inv(NextAcquire(s, t)) && InOrder(s, b)
    ensures InOrder(NextAcquire(s, t), b)
  {
    if s.tasks[t].Id() in s.learned {
      QuietInOrder(s, NextAcquire(s, t), t, b);
    } else {
      TakeInOrder(s, t, b);
    }
  }

  lemma TakeInOrder(s: State, t: nat, b: Agent)
    requires Enabled(s, Acquire(t)) && Inv(s) && Inv(NextAcquire(s, t)) && InOrder(s, b)
    requires s.tasks[t].Id() !in s.learned
    ensures InOrder(NextAcquire(s, t), b)
  {
    if b == s.tasks[t].agent {
      TakeFrame(s, t, b);
      TakeCurrent(s, t);
    } else {
      TakeOther(s, t, b);
    }
  }

  lemma TakeFrame(s: State, t: nat, b: Agent)
    requires Enabled(s, Acquire(t)) && s.tasks[t].Id() !in s.learned
    ensures NextAcquire(s, t).Log(b) == s.Log(b)
    ensures Granted(NextAcquire(s, t).attempts, b) == Granted(s.attempts, b) + if b == s.tasks[t].agent then [t] else []
  {
    GrantedGrow(s.attempts, Attempt(t, s.tasks[t].Id()), b);
    assert NextAcquire(s, t).attempts == s.attempts + [Attempt(t, s.tasks[t].Id())];
  }

  lemma TakeOther(s: State, t: nat, b: Agent)
    requires Enabled(s, Acquire(t)) && Inv(s) && Inv(NextAcquire(s, t)) && InOrder(s, b)
    requires s.tasks[t].Id() !in s.learned && b != s.tasks[t].agent
    ensures InOrder(NextAcquire(s, t), b)
  {
    TakeFrame(s, t, b);
    CurrentKept(s, NextAcquire(s, t), t, b);
  }

  lemma TakeCurrent(s: State, t: nat)
    requires Enabled(s, Acquire(t)) && Inv(s) && Inv(NextAcquire(s, t)) && s.tasks[t].Id() !in s.learned
    ensures Current(s, s.tasks[t].agent) == [] && Current(NextAcquire(s, t), s.tasks[t].agent) == [t]
  {
    assert TaskOk(s, t);
    CurrentIs(NextAcquire(s, t), t);
  }

  /** An attempt under way becomes the last turn of the log. */
  lemma TurnInOrder(s: State, s': State, t: nat, turn: Turn, b: Agent)
    requires Inv(s) && Inv(s') && InOrder(s, b) && t < |s.tasks| && Underway(s.tasks[t].pc) && turn.task == t
    requires s'.log == Grow(s, s.tasks[t].agent, turn) && s'.attempts == s.attempts
    requires exists pc :: s'.tasks == Go(s, t, pc) && !Underway(pc)
    ensures InOrder(s', b)
  {
    var a := s.tasks[t].agent;
    if b == a {
      CurrentIs(s, t);
      CurrentNone(s, s', t);
      assert TasksOf(s.Log(a) + [turn]) == TasksOf(s.Log(a)) + [t];
    } else {
      assert s'.Log(b) == s.Log(b);
      QuietInOrder(s, s', t, b);
    }
  }

  lemma StepInOrder(s: State, step: Step, b: Agent)
    requires Inv(s) && InOrder(s, b) && Enabled(s, step)
    ensures InOrder(Next(s, step), b)
  {
    StepKeeps(s, step);
    match step
    case Call(a, digest) => QuietInOrder(s, NextCall(s, a, digest), |s.tasks|, b);
    case Acquire(t) => AcquireInOrder(s, t, b);
    case Curated(t, delta) =>
      TurnInOrder(s, Next(s, step), t, Turn(t, Completed(s.tasks[t].pc.noise, delta), false), b);
    case Raise(t, damage) => RaiseInOrder(s, t, damage, b);
    case _ => OtherInOrder(s, step, b);
  }

  lemma OtherInOrder(s: State, step: Step, b: Agent)
    requires Inv(s) && InOrder(s, b) && Enabled(s, step) && Inv(Next(s, step))
    requires !(step.Call? || step.Acquire? || step.Curated? || step.Raise?)
    ensures InOrder(Next(s, step), b)
  {
    if step.Write? {
      WriteInOrder(s, step.t, b);
    } else {
      assert Next(s, step).log == s.log && Next(s, step).attempts == s.attempts;
      QuietInOrder(s, Next(s, step), step.t, b);
    }
  }

  lemma WriteInOrder(s: State, t: nat, b: Agent)
    requires Inv(s) && InOrder(s, b) && Enabled(s, Write(t)) && Inv(NextWrite(s, t))
    ensures InOrder(NextWrite(s, t), b)
  {
    assert TasksOf(MarkStored(s.Log(b))) == TasksOf(s.Log(b));
    QuietInOrder(s, NextWrite(s, t), t, b);
  }

  lemma RaiseInOrder(s: State, t: nat, damage: seq<nat>, b: Agent)
    requires Enabled(s, Raise(t, damage)) && Inv(s) && Inv(NextRaise(s, t, damage)) && InOrder(s, b)
    ensures InOrder(NextRaise(s, t, damage), b)
  {
    var s', pc := NextRaise(s, t, damage), s.tasks[t].pc;
    if pc.Reflecting? {
      TurnInOrder(s, s', t, Turn(t, LostReflecting(damage), false), b);
    } else if pc.Curating? {
      TurnInOrder(s, s', t, Turn(t, LostCurating(pc.noise, damage), false), b);
    } else {
      QuietInOrder(s, s', t, b);
    }
  }

  lemma {:induction false} ReachableOrderly(disk: map<int, Playbook>, steps: seq<Step>)
    requires Run(Start(disk), steps).Some?
    ensures Orderly(Run(Start(disk), steps).value)
  {
    if steps != [] {
      var front, last := steps[..|steps| - 1], steps[|steps| - 1];
      ReachableOrderly(disk, front);
      Reachable(disk, front);
      var s := Run(Start(disk), front).value;
      StepHonest(s, last);
      forall a ensures InOrder(Next(s, last), a) { StepInOrder(s, last, a); }
    }
  }
}
