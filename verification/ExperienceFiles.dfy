/**
 What the file of a playbook holds. Agents `None` and 0 have a runner each but share one file.
 */
module ExperienceFiles {
  import opened Options
  import opened ExperienceService
  import opened ExperienceInvariants
  import opened ExperienceOrder

  /** The agents in use whose playbook is kept in file `k`. */
  predicate Sharer(s: State, k: int, a: Agent) {
    a in s.runners && a in s.initial && Scope(a) == k
  }

  /** Two agents have the same file exactly if they are equal, or are `None` and 0. */
  lemma SharedIff(a: Agent, b: Agent)
    ensures Scope(a) == Scope(b) <==> a == b || (a == None && b == Some(0)) || (a == Some(0) && b == None)
  {
  }

  /** What an agent saved last, or was created with. */
  function LastSaved(s: State, a: Agent): Playbook
    requires a in s.initial
  {
    Fold(s.initial[a], StoredPart(s.Log(a)))
  }

  /** Nobody has saved, and everybody was created with what the file holds. */
  ghost predicate Untouched(s: State, k: int) {
    forall a | Sharer(s, k, a) :: StoredPart(s.Log(a)) == [] && s.Stored(k) == s.initial[a]
  }

  ghost predicate SavedBy(s: State, k: int, a: Agent) {
    Sharer(s, k, a) && StoredPart(s.Log(a)) != [] && s.Stored(k) == LastSaved(s, a)
  }

  ghost predicate FileOk(s: State, k: int) {
    Untouched(s, k) || exists a :: SavedBy(s, k, a)
  }

  // ---- every step keeps it -----------------------------------------------------------------

  /** Nothing is saved and no runner is created, as far as `a` is concerned. */
  predicate Unsaved(s: State, s': State, a: Agent) {
    s'.runners == s.runners && s'.initial == s.initial && s'.disk == s.disk &&
    StoredPart(s'.Log(a)) == StoredPart(s.Log(a))
  }

  lemma FileSame(s: State, s': State, k: int)
    requires FileOk(s, k) && forall a :: Unsaved(s, s', a)
    ensures FileOk(s', k)
  {
    assert Unsaved(s, s', None);
    if Untouched(s, k) {
      forall a | Sharer(s', k, a) ensures StoredPart(s'.Log(a)) == [] && s'.Stored(k) == s'.initial[a] {
        assert Unsaved(s, s', a) && Sharer(s, k, a);
      }
    } else {
      var a :| SavedBy(s, k, a);
      assert Unsaved(s, s', a);
      assert SavedBy(s', k, a);
    }
  }

  lemma CallFrame(s: State, a: Agent, digest: string, b: Agent)
    requires Inv(s)
    ensures NextCall(s, a, digest).disk == s.disk && NextCall(s, a, digest).log == s.log
    ensures b in s.runners ==>
              b in s.initial && b in NextCall(s, a, digest).runners && b in NextCall(s, a, digest).initial
              && NextCall(s, a, digest).initial[b] == s.initial[b]
    ensures b !in s.runners && b in NextCall(s, a, digest).runners ==>
              b in NextCall(s, a, digest).initial && NextCall(s, a, digest).initial[b] == s.Stored(Scope(b)) &&
              s.Log(b) == []
  {
    assert AgentOk(s, b);
  }

  lemma CallFile(s: State, a: Agent, digest: string, k: int)
    requires Inv(s) && FileOk(s, k)
    ensures FileOk(NextCall(s, a, digest), k)
  {
    var s' := NextCall(s, a, digest);
    if Untouched(s, k) {
      forall b | Sharer(s', k, b) ensures StoredPart(s'.Log(b)) == [] && s'.Stored(k) == s'.initial[b] {
        CallFrame(s, a, digest, b);
        assert b in s.runners ==> Sharer(s, k, b);
      }
    } else {
      var b :| SavedBy(s, k, b);
      CallFrame(s, a, digest, b);
      assert SavedBy(s', k, b);
    }
  }

  /** A save makes the file that of the agent. */
  lemma WriteSaves(s: State, t: nat)
    requires Inv(s) && Enabled(s, Write(t))
    ensures SavedBy(NextWrite(s, t), Scope(s.tasks[t].agent), s.tasks[t].agent)
  {
    var s', a := NextWrite(s, t), s.tasks[t].agent;
    assert TaskOk(s, t) && AgentOk(s, a);
    CriticalHolds(s, t);
    assert Progress(s, a) == [];
    assert s'.Log(a) == MarkStored(s.Log(a));
    FoldMark(s.initial[a], s.Log(a));
  }

  lemma WriteElsewhere(s: State, t: nat, k: int)
    requires Enabled(s, Write(t)) && k != Scope(s.tasks[t].agent)
    ensures NextWrite(s, t).Stored(k) == s.Stored(k)
    ensures forall a | Scope(a) == k :: NextWrite(s, t).Log(a) == s.Log(a)
  {
  }

  lemma WriteFile(s: State, t: nat, k: int)
    requires Inv(s) && FileOk(s, k) && Enabled(s, Write(t))
    ensures FileOk(NextWrite(s, t), k)
  {
    var s' := NextWrite(s, t);
    if k == Scope(s.tasks[t].agent) {
      WriteSaves(s, t);
    } else {
      WriteElsewhere(s, t, k);
      if Untouched(s, k) {
        forall a | Sharer(s', k, a) ensures StoredPart(s'.Log(a)) == [] && s'.Stored(k) == s'.initial[a] {
          assert Sharer(s, k, a);
        }
      } else {
        var a :| SavedBy(s, k, a);
        assert SavedBy(s', k, a);
      }
    }
  }

  lemma CuratedUnsaved(s: State, t: nat, delta: nat, a: Agent)
    requires Enabled(s, Curated(t, delta))
    ensures Unsaved(s, NextCurated(s, t, delta), a)
  {
    GrownLog(s, NextCurated(s, t, delta), s.tasks[t].agent, Turn(t, Completed(s.tasks[t].pc.noise, delta), false), a);
  }

  lemma RaiseFrame(s: State, t: nat, damage: seq<nat>)
    requires Enabled(s, Raise(t, damage))
    ensures NextRaise(s, t, damage).runners == s.runners
    ensures NextRaise(s, t, damage).initial == s.initial
    ensures NextRaise(s, t, damage).disk == s.disk
  {
    var pc := s.tasks[t].pc;
    if pc.Reflecting? {
    } else if pc.Curating? {
    } else {
    }
  }

  lemma GrownLog(s: State, s': State, b: Agent, turn: Turn, a: Agent)
    requires s'.log == Grow(s, b, turn) && !turn.stored
    ensures StoredPart(s'.Log(a)) == StoredPart(s.Log(a))
  {
    StoredGrow(s.Log(a), turn);
  }

  lemma RaiseLog(s: State, t: nat, damage: seq<nat>, a: Agent)
    requires Enabled(s, Raise(t, damage))
    ensures StoredPart(NextRaise(s, t, damage).Log(a)) == StoredPart(s.Log(a))
  {
    var pc, b := s.tasks[t].pc, s.tasks[t].agent;
    if pc.Reflecting? {
      GrownLog(s, NextRaise(s, t, damage), b, Turn(t, LostReflecting(damage), false), a);
    } else if pc.Curating? {
      GrownLog(s, NextRaise(s, t, damage), b, Turn(t, LostCurating(pc.noise, damage), false), a);
    } else {
      assert NextRaise(s, t, damage).Log(a) == s.Log(a);
    }
  }

  lemma AcquireFrame(s: State, t: nat)
    requires Enabled(s, Acquire(t))
    ensures NextAcquire(s, t).runners == s.runners
    ensures NextAcquire(s, t).initial == s.initial
    ensures NextAcquire(s, t).disk == s.disk
    ensures NextAcquire(s, t).log == s.log
  {
    if s.tasks[t].Id() in s.learned {
    } else if |s.learned| >= LEARNED_CAP {
    } else {
    }
  }

  /** Only saves change what counts as saved, and only calls create runners. */
  lemma OtherUnsaved(s: State, step: Step, a: Agent)
    requires Enabled(s, step) && !step.Call? && !step.Write?
    ensures Unsaved(s, Next(s, step), a)
  {
    match step
    case EnterGuard(t) =>
    case LeaveGuard(t) => assert NextLeave(s, t).log == s.log;
    case Acquire(t) => AcquireFrame(s, t);
    case Reflected(t, noise) => assert NextReflected(s, t, noise).log == s.log;
    case Curated(t, delta) => CuratedUnsaved(s, t, delta, a);
    case Release(t) =>
    case Abandon(t) =>
    case Raise(t, damage) => RaiseFrame(s, t, damage); RaiseLog(s, t, damage, a);
  }

  lemma OtherFile(s: State, step: Step, k: int)
    requires Inv(s) && FileOk(s, k) && Enabled(s, step) && !step.Call? && !step.Write?
    ensures FileOk(Next(s, step), k)
  {
    forall a ensures Unsaved(s, Next(s, step), a) { OtherUnsaved(s, step, a); }
    FileSame(s, Next(s, step), k);
  }

  lemma StepKeepsFile(s: State, step: Step, k: int)
    requires Inv(s) && FileOk(s, k) && Enabled(s, step)
    ensures FileOk(Next(s, step), k)
  {
    if step.Call? {
      CallFile(s, step.agent, step.digest, k);
    } else if step.Write? {
      WriteFile(s, step.t, k);
    } else {
      OtherFile(s, step, k);
    }
  }

  lemma {:induction false} ReachableFile(disk: map<int, Playbook>, steps: seq<Step>, k: int)
    requires Run(Start(disk), steps).Some?
    ensures FileOk(Run(Start(disk), steps).value, k)
  {
    if steps != [] {
      var front := steps[..|steps| - 1];
      Reachable(disk, front);
      ReachableFile(disk, front, k);
      StepKeepsFile(Run(Start(disk), front).value, steps[|steps| - 1], k);
    }
  }

  // ---- whose work the file holds -----------------------------------------------------------

  /** What an agent saved last, or was created with, is what the file holds. */
  predicate Fresh(s: State, a: Agent) {
    a in s.initial && s.Stored(Scope(a)) == LastSaved(s, a)
  }

  /** No other agent in use has the same file. */
  ghost predicate OwnFile(s: State, a: Agent) {
    forall b | b in s.runners && Scope(b) == Scope(a) :: b == a
  }

  lemma OwnFileFresh(s: State, a: Agent)
    requires FileOk(s, Scope(a)) && a in s.runners && a in s.initial && OwnFile(s, a)
    ensures Fresh(s, a)
  {
    assert Sharer(s, Scope(a), a);
  }

  /** A step that saves the work of another agent in the same file. */
  predicate Overwrites(s: State, step: Step, a: Agent) {
    step.Write? && step.t < |s.tasks| && s.tasks[step.t].agent != a && Scope(s.tasks[step.t].agent) == Scope(a)
  }

  /** Creation and saving make an agent's file its own; nothing but another's save ends that. */
  lemma FreshKept(s: State, step: Step, a: Agent)
    requires Inv(s) && Enabled(s, step) && !Overwrites(s, step, a)
    requires Fresh(s, a) || (step.Call? && step.agent == a && a !in s.runners) ||
             (step.Write? && s.tasks[step.t].agent == a)
    ensures Fresh(Next(s, step), a)
  {
    if step.Call? {
      CallFresh(s, step.agent, step.digest, a);
    } else if step.Write? {
      WriteFresh(s, step.t, a);
    } else {
      OtherUnsaved(s, step, a);
      SameFresh(s, Next(s, step), a);
    }
  }

  lemma SameFresh(s: State, s': State, a: Agent)
    requires Fresh(s, a) && Unsaved(s, s', a)
    ensures Fresh(s', a)
  {
  }

  lemma CallFresh(s: State, c: Agent, digest: string, a: Agent)
    requires Inv(s) && (Fresh(s, a) || (c == a && a !in s.runners))
    ensures Fresh(NextCall(s, c, digest), a)
  {
    assert AgentOk(s, a);
    CallFrame(s, c, digest, a);
  }

  lemma WriteFresh(s: State, t: nat, a: Agent)
    requires Inv(s) && Enabled(s, Write(t)) && !Overwrites(s, Write(t), a) && (Fresh(s, a) || s.tasks[t].agent == a)
    ensures Fresh(NextWrite(s, t), a)
  {
    if s.tasks[t].agent == a { WriteSaves(s, t); } else { WriteElsewhere(s, t, Scope(a)); }
  }
}
