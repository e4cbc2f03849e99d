/**
 What an attempt leaves in the playbook, told by the steps of a run: runner.py lines 594-634 as service.py drives it.
 */
module ExperienceDeltas {
  import opened Options
  import opened ExperienceService
  import opened ExperienceInvariants
  import opened ExperienceFiles
  import opened ExperienceTheorems

  // ---- nothing is lost or reordered --------------------------------------------------------

  /** Runners stay, and their playbooks only grow at the end. */
  ghost predicate Grows(s: State, s': State) {
    && (forall a | a in s.runners :: a in s'.runners && s'.runners[a] == s.runners[a])
    && |s.books| <= |s'.books| && forall r | 0 <= r < |s.books| :: s.books[r] <= s'.books[r]
  }

  lemma StepGrows(s: State, step: Step)
    requires Enabled(s, step)
    ensures Grows(s, Next(s, step))
  {
    match step
    case Call(a, digest) => CallGrows(s, a, digest);
    case LeaveGuard(t) => LeaveGrows(s, t);
    case Acquire(t) => AcquireGrows(s, t);
    case Raise(t, damage) => RaiseGrows(s, t, damage);
    case _ => OtherGrows(s, step);
  }

  lemma OtherGrows(s: State, step: Step)
    requires Enabled(s, step) && !step.Call? && !step.LeaveGuard? && !step.Acquire? && !step.Raise?
    ensures Grows(s, Next(s, step))
  {
  }

  lemma CallGrows(s: State, a: Agent, digest: string)
    ensures Grows(s, NextCall(s, a, digest))
  {
  }

  lemma LeaveGrows(s: State, t: nat)
    requires Enabled(s, LeaveGuard(t))
    ensures Grows(s, NextLeave(s, t))
  {
    assert NextLeave(s, t).books == s.books && NextLeave(s, t).runners == s.runners;
  }

  lemma AcquireGrows(s: State, t: nat)
    requires Enabled(s, Acquire(t))
    ensures Grows(s, NextAcquire(s, t))
  {
    AcquireFrame(s, t);
    AcquireBooks(s, t);
  }

  lemma RaiseGrows(s: State, t: nat, damage: seq<nat>)
    requires Enabled(s, Raise(t, damage))
    ensures Grows(s, NextRaise(s, t, damage))
  {
  }

  /** Over any run, every playbook is a prefix of what it becomes. */
  lemma {:induction false} NothingIsLost(
      disk: map<int, Playbook>, before: seq<Step>, after: seq<Step>, s: State, s': State)
    requires Reaches(disk, before, s) && Reaches(disk, before + after, s')
    ensures Grows(s, s')
    decreases |after|
  {
    if after == [] {
      assert before + after == before;
    } else {
      var n := |after| - 1;
      var all := before + after;
      assert all[..|all| - 1] == before + after[..n] && all[|all| - 1] == after[n];
      var r := Run(Start(disk), before + after[..n]).value;
      NothingIsLost(disk, before, after[..n], s, r);
      StepGrows(r, after[n]);
      GrowsOn(s, r, s');
    }
  }

  lemma GrowsOn(s: State, r: State, s': State)
    requires Grows(s, r) && Grows(r, s')
    ensures Grows(s, s')
  {
    forall b | 0 <= b < |s.books| ensures s.books[b] <= s'.books[b] {
      assert s.books[b] <= r.books[b] && r.books[b] <= s'.books[b];
    }
  }

  // ---- one delta for each completed attempt ------------------------------------------------

  predicate IsDelta(u: Update, t: nat) {
    u.Applied? && u.task == t
  }

  predicate Lacks(p: Playbook, from: nat, t: nat) {
    forall j | from <= j < |p| :: !IsDelta(p[j], t)
  }

  /**
   Past `from` there is exactly one delta of `t`, at `i`: directly behind what `t` embedded and before its pruning, made
   by a Reflector who had read all that precedes that and a Curator who had read that too.
   */
  predicate DeltaAt(p: Playbook, from: nat, t: nat, delta: nat, i: nat) {
    && from < i && i + 1 < |p|
    && p[i - 1].Embedded? && p[i - 1].task == t
    && p[i] == Applied(t, p[..i - 1], p[..i], delta)
    && p[i + 1] == Pruned(t)
    && forall j | from <= j < |p| && j != i :: !IsDelta(p[j], t)
  }

  ghost predicate HasDelta(p: Playbook, from: nat, t: nat, delta: nat) {
    exists i: nat :: DeltaAt(p, from, t, delta, i)
  }

  lemma SamePrefix(p: Playbook, more: Playbook, i: nat)
    requires i <= |p|
    ensures (p + more)[..i] == p[..i]
  {
  }

  /** What comes later does not disturb it. */
  lemma DeltaStays(p: Playbook, more: Playbook, from: nat, t: nat, delta: nat)
    requires HasDelta(p, from, t, delta) && Lacks(more, 0, t)
    ensures HasDelta(p + more, from, t, delta)
  {
    var i: nat :| DeltaAt(p, from, t, delta, i);
    var q := p + more;
    SamePrefix(p, more, i - 1);
    SamePrefix(p, more, i);
    forall j | from <= j < |q| && j != i ensures !IsDelta(q[j], t) {
      if j >= |p| { assert q[j] == more[j - |p|]; }
    }
    assert DeltaAt(q, from, t, delta, i);
  }

  lemma LacksStays(p: Playbook, more: Playbook, from: nat, t: nat)
    requires Lacks(p, from, t) && Lacks(more, 0, t)
    ensures Lacks(p + more, from, t)
  {
    var q := p + more;
    forall j | from <= j < |q| ensures !IsDelta(q[j], t) { if j >= |p| { assert q[j] == more[j - |p|]; } }
  }

  lemma DeltaAdded(saw: Playbook, noise: nat, from: nat, t: nat, delta: nat)
    requires from <= |saw| && Lacks(saw, from, t)
    ensures var read := saw + [Embedded(t, noise)];
            HasDelta(read + [Applied(t, saw, read, delta), Pruned(t)], from, t, delta)
  {
    var read := saw + [Embedded(t, noise)];
    var p, i := read + [Applied(t, saw, read, delta), Pruned(t)], |read|;
    assert p[..i - 1] == saw && p[..i] == read;
    forall j | from <= j < |p| && j != i ensures !IsDelta(p[j], t) {
      if j < |saw| { assert p[j] == saw[j]; }
    }
    assert DeltaAt(p, from, t, delta, i);
  }

  // ---- over a run --------------------------------------------------------------------------

  /** The delta that the Curator of `t` made, if the run got that far. */
  function Made(steps: seq<Step>, t: nat): Option<nat> {
    if steps == [] then None
    else
      var last := steps[|steps| - 1];
      if last.Curated? && last.t == t then Some(last.delta) else Made(steps[..|steps| - 1], t)
  }

  lemma MadeGrow(steps: seq<Step>, step: Step, t: nat)
    ensures Made(steps + [step], t) == if step.Curated? && step.t == t then Some(step.delta) else Made(steps, t)
  {
    assert (steps + [step])[..|steps|] == steps;
  }

  predicate Past(pc: Pc) {
    pc.Saving? || pc.Saved? || pc.Learned? || pc.Failed?
  }

  predicate Homed(s: State, a: Agent) {
    a in s.runners && a in s.initial && s.runners[a] < |s.books|
  }

  function Book(s: State, a: Agent): Playbook
    requires Homed(s, a)
  {
    s.books[s.runners[a]]
  }

  ghost predicate TaskTold(steps: seq<Step>, s: State, t: nat)
    requires t < |s.tasks|
  {
    var a := s.tasks[t].agent;
    && Homed(s, a) && |s.initial[a]| <= |Book(s, a)|
    && match Made(steps, t)
       case None => Lacks(Book(s, a), |s.initial[a]|, t)
       case Some(delta) => HasDelta(Book(s, a), |s.initial[a]|, t, delta) && Past(s.tasks[t].pc)
  }

  /** Past what a runner was created with, updates are by tasks there are. */
  ghost predicate Known(s: State, a: Agent) {
    a in s.runners ==>
      && Homed(s, a) && |s.initial[a]| <= |Book(s, a)|
      && forall j | |s.initial[a]| <= j < |Book(s, a)| :: Book(s, a)[j].task < |s.tasks|
  }

  ghost predicate Told(steps: seq<Step>, s: State) {
    && (forall t: nat | t >= |s.tasks| :: Made(steps, t) == None)
    && (forall t | 0 <= t < |s.tasks| :: TaskTold(steps, s, t))
    && (forall a :: Known(s, a))
  }

  /** A step of `t` that adds to its playbook updates of its own, none of them a delta. */
  ghost predicate Adds(s: State, s': State, t: nat, more: Playbook) {
    && t < |s.tasks| && |s'.tasks| == |s.tasks| && s'.runners == s.runners && s'.initial == s.initial
    && |s'.books| == |s.books| && Homed(s, s.tasks[t].agent)
    && (forall u | 0 <= u < |s.tasks| ::
          s'.tasks[u].agent == s.tasks[u].agent && (Past(s.tasks[u].pc) ==> Past(s'.tasks[u].pc)))
    && (forall j | 0 <= j < |more| :: more[j].task == t && !more[j].Applied?)
    && (forall r | 0 <= r < |s.books| ::
          s'.books[r] == if r == s.runners[s.tasks[t].agent] then s.books[r] + more else s.books[r])
  }

  lemma AddsTold(steps: seq<Step>, s: State, s': State, step: Step, t: nat, more: Playbook)
    requires Told(steps, s) && Adds(s, s', t, more) && !step.Curated?
    ensures Told(steps + [step], s')
  {
    var all := steps + [step];
    forall u: nat ensures Made(all, u) == Made(steps, u) { MadeGrow(steps, step, u); }
    forall u | 0 <= u < |s'.tasks| ensures TaskTold(all, s', u) { AddsTask(steps, s, s', t, more, u, all); }
    forall a ensures Known(s', a) { AddsKnown(s, s', t, more, a); }
  }

  lemma AddsTask(steps: seq<Step>, s: State, s': State, t: nat, more: Playbook, u: nat, all: seq<Step>)
    requires Told(steps, s) && Adds(s, s', t, more) && u < |s.tasks| && Made(all, u) == Made(steps, u)
    ensures TaskTold(all, s', u)
  {
    assert TaskTold(steps, s, u);
    var a := s.tasks[u].agent;
    var r := s.runners[a];
    assert s'.books[r] == if r == s.runners[s.tasks[t].agent] then s.books[r] + more else s.books[r];
    if r == s.runners[s.tasks[t].agent] {
      if Made(steps, u).None? {
        LacksStays(s.books[r], more, |s.initial[a]|, u);
      } else {
        DeltaStays(s.books[r], more, |s.initial[a]|, u, Made(steps, u).value);
      }
    }
  }

  lemma AddsKnown(s: State, s': State, t: nat, more: Playbook, a: Agent)
    requires Known(s, a) && Adds(s, s', t, more)
    ensures Known(s', a)
  {
    if a in s.runners {
      var r := s.runners[a];
      var p, q := s.books[r], s'.books[r];
      forall j | |s.initial[a]| <= j < |q| ensures q[j].task < |s'.tasks| {
        if j < |p| { assert q[j] == p[j]; } else { assert q[j] == more[j - |p|]; }
      }
    }
  }

  // ---- step by step ------------------------------------------------------------------------

  /** Steps of `t` that touch no playbook. */
  ghost predicate Rests(s: State, s': State, t: nat) {
    && t < |s.tasks| && |s'.tasks| == |s.tasks| && s'.runners == s.runners && s'.initial == s.initial
    && s'.books == s.books && s'.tasks == Go(s, t, s'.tasks[t].pc) && (Past(s.tasks[t].pc) ==> Past(s'.tasks[t].pc))
  }

  lemma RestsTold(steps: seq<Step>, s: State, s': State, step: Step, t: nat)
    requires Told(steps, s) && Rests(s, s', t) && !step.Curated?
    ensures Told(steps + [step], s')
  {
    assert TaskTold(steps, s, t);
    assert forall p: Playbook :: p + [] == p;
    AddsTold(steps, s, s', step, t, []);
  }

  lemma CallTold(steps: seq<Step>, s: State, a: Agent, digest: string)
    requires Inv(s) && Told(steps, s)
    ensures Told(steps + [Call(a, digest)], NextCall(s, a, digest))
  {
    var s', all := NextCall(s, a, digest), steps + [Call(a, digest)];
    forall u: nat ensures Made(all, u) == Made(steps, u) { MadeGrow(steps, Call(a, digest), u); }
    forall u | 0 <= u < |s'.tasks| ensures TaskTold(all, s', u) { CallTask(steps, s, a, digest, u); }
    forall b ensures Known(s', b) { CallKnown(s, a, digest, b); }
  }

  lemma CallKnown(s: State, a: Agent, digest: string, b: Agent)
    requires Inv(s) && Known(s, b)
    ensures Known(NextCall(s, a, digest), b)
  {
    assert AgentOk(s, b) && AgentOk(s, a);
  }

  lemma CallTask(steps: seq<Step>, s: State, a: Agent, digest: string, u: nat)
    requires Inv(s) && Told(steps, s) && u <= |s.tasks|
    ensures TaskTold(steps + [Call(a, digest)], NextCall(s, a, digest), u)
  {
    MadeGrow(steps, Call(a, digest), u);
    if u < |s.tasks| {
      assert TaskTold(steps, s, u) && NextCall(s, a, digest).tasks[u] == s.tasks[u];
      OldBook(s, a, digest, s.tasks[u].agent);
    } else {
      assert Known(s, a);
      CallKnown(s, a, digest, a);
      NewTask(s, a, digest);
    }
  }

  lemma OldBook(s: State, a: Agent, digest: string, b: Agent)
    requires Homed(s, b)
    ensures var s' := NextCall(s, a, digest); Homed(s', b) && Book(s', b) == Book(s, b) && s'.initial[b] == s.initial[b]
  {
  }

  lemma NewTask(s: State, a: Agent, digest: string)
    requires Inv(s) && Known(s, a)
    ensures var s' := NextCall(s, a, digest); Homed(s', a) && Lacks(Book(s', a), |s'.initial[a]|, |s.tasks|)
  {
    assert AgentOk(s, a);
  }

  lemma CuratedTold(steps: seq<Step>, s: State, t: nat, delta: nat)
    requires Inv(s) && Told(steps, s) && Enabled(s, Curated(t, delta))
    ensures Told(steps + [Curated(t, delta)], NextCurated(s, t, delta))
  {
    var s', all := NextCurated(s, t, delta), steps + [Curated(t, delta)];
    forall u: nat ensures u != t ==> Made(all, u) == Made(steps, u) { MadeGrow(steps, Curated(t, delta), u); }
    forall u | 0 <= u < |s'.tasks| ensures TaskTold(all, s', u) {
      if u == t { OwnDelta(steps, s, t, delta); } else { OtherDelta(steps, s, t, delta, u); }
    }
    forall a ensures Known(s', a) { CuratedKnown(steps, s, t, delta, a); }
  }

  /** What the task adds when its delta arrives. */
  function Added(s: State, t: nat, delta: nat): Playbook
    requires Enabled(s, Curated(t, delta))
  {
    [Applied(t, s.tasks[t].pc.saw, s.tasks[t].pc.curatorSaw, delta), Pruned(t)]
  }

  lemma CuratedBooks(s: State, t: nat, delta: nat)
    requires Inv(s) && Enabled(s, Curated(t, delta))
    ensures var s', a, pc := NextCurated(s, t, delta), s.tasks[t].agent, s.tasks[t].pc;
            && Homed(s, a) && Homed(s', a) && s'.runners == s.runners && s'.initial == s.initial
            && Book(s, a) == pc.curatorSaw == pc.saw + [Embedded(t, pc.noise)]
            && s'.books == s.books[s.runners[a] := Book(s, a) + Added(s, t, delta)]
  {
    var a := s.tasks[t].agent;
    assert TaskOk(s, t) && AgentOk(s, a);
    CriticalHolds(s, t);
  }

  lemma OwnDelta(steps: seq<Step>, s: State, t: nat, delta: nat)
    requires Inv(s) && Told(steps, s) && Enabled(s, Curated(t, delta))
    ensures TaskTold(steps + [Curated(t, delta)], NextCurated(s, t, delta), t)
  {
    assert TaskTold(steps, s, t);
    MadeGrow(steps, Curated(t, delta), t);
    CuratedBooks(s, t, delta);
    var a, pc := s.tasks[t].agent, s.tasks[t].pc;
    SawLacks(s, t, a);
    DeltaAdded(pc.saw, pc.noise, |s.initial[a]|, t, delta);
  }

  /** Before its delta, what the task read lies past what the runner was created with and has no delta of the task. */
  lemma SawLacks(s: State, t: nat, a: Agent)
    requires Inv(s) && t < |s.tasks| && s.tasks[t].pc.Curating? && s.tasks[t].agent == a && Homed(s, a)
    requires Book(s, a) == s.tasks[t].pc.saw + [Embedded(t, s.tasks[t].pc.noise)]
    requires Lacks(Book(s, a), |s.initial[a]|, t)
    ensures |s.initial[a]| <= |s.tasks[t].pc.saw| && Lacks(s.tasks[t].pc.saw, |s.initial[a]|, t)
  {
    assert TaskOk(s, t);
    var saw := s.tasks[t].pc.saw;
    FoldGrows(s.initial[a], s.Log(a));
    forall j | |s.initial[a]| <= j < |saw| ensures !IsDelta(saw[j], t) { assert Book(s, a)[j] == saw[j]; }
  }

  lemma OtherDelta(steps: seq<Step>, s: State, t: nat, delta: nat, u: nat)
    requires Inv(s) && Told(steps, s) && Enabled(s, Curated(t, delta)) && u < |s.tasks| && u != t
    ensures TaskTold(steps + [Curated(t, delta)], NextCurated(s, t, delta), u)
  {
    assert TaskTold(steps, s, u);
    MadeGrow(steps, Curated(t, delta), u);
    CuratedBooks(s, t, delta);
    var a := s.tasks[u].agent;
    var r := s.runners[a];
    if r == s.runners[s.tasks[t].agent] {
      if Made(steps, u).None? {
        LacksStays(s.books[r], Added(s, t, delta), |s.initial[a]|, u);
      } else {
        DeltaStays(s.books[r], Added(s, t, delta), |s.initial[a]|, u, Made(steps, u).value);
      }
    }
  }

  lemma CuratedKnown(steps: seq<Step>, s: State, t: nat, delta: nat, a: Agent)
    requires Inv(s) && Told(steps, s) && Enabled(s, Curated(t, delta))
    ensures Known(NextCurated(s, t, delta), a)
  {
    assert Known(s, a);
    CuratedBooks(s, t, delta);
    if a in s.runners {
      var p, q := Book(s, a), Book(NextCurated(s, t, delta), a);
      forall j | |s.initial[a]| <= j < |q| ensures q[j].task < |s.tasks| {
        if j < |p| { assert q[j] == p[j]; } else { assert q[j] == Added(s, t, delta)[j - |p|]; }
      }
    }
  }

  lemma ReflectedTold(steps: seq<Step>, s: State, t: nat, noise: nat)
    requires Inv(s) && Told(steps, s) && Enabled(s, Reflected(t, noise))
    ensures Told(steps + [Reflected(t, noise)], NextReflected(s, t, noise))
  {
    assert TaskTold(steps, s, t) && TaskOk(s, t);
    AddsTold(steps, s, NextReflected(s, t, noise), Reflected(t, noise), t, [Embedded(t, noise)]);
  }

  lemma RaiseTold(steps: seq<Step>, s: State, t: nat, damage: seq<nat>)
    requires Inv(s) && Told(steps, s) && Enabled(s, Raise(t, damage))
    ensures Told(steps + [Raise(t, damage)], NextRaise(s, t, damage))
  {
    var s', pc := NextRaise(s, t, damage), s.tasks[t].pc;
    assert TaskTold(steps, s, t) && TaskOk(s, t);
    if pc.Reflecting? || pc.Curating? {
      RaiseAdds(s, t, damage);
      AddsTold(steps, s, s', Raise(t, damage), t, Damage(t, damage));
    } else {
      RestsTold(steps, s, s', Raise(t, damage), t);
    }
  }

  lemma RaiseAdds(s: State, t: nat, damage: seq<nat>)
    requires Inv(s) && Enabled(s, Raise(t, damage)) && (s.tasks[t].pc.Reflecting? || s.tasks[t].pc.Curating?)
    requires Homed(s, s.tasks[t].agent)
    ensures Adds(s, NextRaise(s, t, damage), t, Damage(t, damage))
  {
    assert TaskOk(s, t);
  }

  lemma StepTold(steps: seq<Step>, s: State, step: Step)
    requires Inv(s) && Told(steps, s) && Enabled(s, step)
    ensures Told(steps + [step], Next(s, step))
  {
    match step
    case Call(a, digest) => CallTold(steps, s, a, digest);
    case Reflected(t, noise) => ReflectedTold(steps, s, t, noise);
    case Curated(t, delta) => CuratedTold(steps, s, t, delta);
    case Raise(t, damage) => RaiseTold(steps, s, t, damage);
    case Acquire(t) => AcquireRests(s, t); RestsTold(steps, s, NextAcquire(s, t), step, t);
    case LeaveGuard(t) => LeaveRests(s, t); RestsTold(steps, s, NextLeave(s, t), step, t);
    case _ => RestsTold(steps, s, Next(s, step), step, step.t);
  }

  lemma AcquireRests(s: State, t: nat)
    requires Enabled(s, Acquire(t))
    ensures Rests(s, NextAcquire(s, t), t)
  {
    AcquireFrame(s, t);
    AcquireBooks(s, t);
  }

  lemma AcquireBooks(s: State, t: nat)
    requires Enabled(s, Acquire(t))
    ensures NextAcquire(s, t).books == s.books
    ensures NextAcquire(s, t).tasks == Go(s, t, NextAcquire(s, t).tasks[t].pc)
  {
    if s.tasks[t].Id() in s.learned {
    } else if |s.learned| >= LEARNED_CAP {
    } else {
    }
  }

  lemma LeaveRests(s: State, t: nat)
    requires Enabled(s, LeaveGuard(t))
    ensures Rests(s, NextLeave(s, t), t)
  {
    var s' := NextLeave(s, t);
    assert s'.runners == s.runners && s'.initial == s.initial && s'.books == s.books;
  }

  lemma {:induction false} ReachableTold(disk: map<int, Playbook>, steps: seq<Step>, s: State)
    requires Reaches(disk, steps, s)
    ensures Told(steps, s)
  {
    if steps != [] {
      var n := |steps| - 1;
      var front := steps[..n];
      var r := Run(Start(disk), front).value;
      ReachableTold(disk, front, r);
      Reachable(disk, front);
      StepTold(front, r, steps[n]);
      assert steps == front + [steps[n]];
    }
  }

  // ---- the promise -------------------------------------------------------------------------

  lemma {:induction false} MadeOnce(disk: map<int, Playbook>, steps: seq<Step>, s: State, k: nat, t: nat, delta: nat)
    requires Reaches(disk, steps, s) && k < |steps| && steps[k] == Curated(t, delta)
    ensures t < |s.tasks| && Made(steps, t) == Some(delta)
    decreases |steps|
  {
    var n := |steps| - 1;
    if k < n {
      var front := steps[..n];
      var r := Run(Start(disk), front).value;
      MadeOnce(disk, front, r, k, t, delta);
      ReachableTold(disk, front, r);
      NotAgain(front, r, steps[n], t);
    }
    MadeByTask(disk, steps, s, t);
  }

  lemma MadeByTask(disk: map<int, Playbook>, steps: seq<Step>, s: State, t: nat)
    requires Reaches(disk, steps, s) && Made(steps, t).Some?
    ensures t < |s.tasks|
  {
    ReachableTold(disk, steps, s);
  }

  /** A task whose delta has arrived is past the step that brings it. */
  lemma NotAgain(steps: seq<Step>, s: State, step: Step, t: nat)
    requires Told(steps, s) && Made(steps, t).Some? && Enabled(s, step)
    ensures !(step.Curated? && step.t == t)
  {
    if t < |s.tasks| { assert TaskTold(steps, s, t); }
  }

  /**
   After the Curator's answer to a task has arrived, in every later state of every run, the playbook of the task's agent
   has exactly one delta of that task beyond what the runner was created with, and it is that answer.
   */
  lemma DeltaIsKept(disk: map<int, Playbook>, steps: seq<Step>, s: State, k: nat, t: nat, delta: nat)
    requires Reaches(disk, steps, s) && k < |steps| && steps[k] == Curated(t, delta)
    ensures t < |s.tasks| && Homed(s, s.tasks[t].agent)
    ensures HasDelta(Book(s, s.tasks[t].agent), |s.initial[s.tasks[t].agent]|, t, delta)
  {
    MadeOnce(disk, steps, s, k, t, delta);
    ReachableTold(disk, steps, s);
    assert TaskTold(steps, s, t);
  }
}
