/**
 The promises of the learning service over whole runs.
 */
module ExperienceTheorems {
  import opened Options
  import opened ExperienceService
  import opened ExperienceInvariants
  import opened ExperienceOrder
  import opened ExperienceFiles

  /** The states of the service. */
  ghost predicate Reaches(disk: map<int, Playbook>, steps: seq<Step>, s: State) {
    Run(Start(disk), steps) == Some(s)
  }

  /**
   In every interleaving: while the lock is free, an agent's playbook is the result of running its
   attempts alone, one after the other, in the order they took the lock.
   */
  lemma Linearised(disk: map<int, Playbook>, steps: seq<Step>, s: State, a: Agent)
    requires Reaches(disk, steps, s) && a in s.runners && Holder(s, a) == None
    ensures a in s.initial && s.runners[a] < |s.books|
    ensures s.books[s.runners[a]] == Fold(s.initial[a], s.Log(a))
  {
    Reachable(disk, steps);
    assert AgentOk(s, a);
  }

  /** Nobody else changes a playbook between a task's reading it and its applying its delta. */
  lemma ReadsStayCurrent(disk: map<int, Playbook>, steps: seq<Step>, s: State, t: nat)
    requires Reaches(disk, steps, s) && t < |s.tasks|
    ensures HasRunner(s.tasks[t].pc) ==> s.tasks[t].pc.runner < |s.books|
    ensures s.tasks[t].pc.Reflecting? ==> s.books[s.tasks[t].pc.runner] == s.tasks[t].pc.saw
    ensures s.tasks[t].pc.Curating? ==>
              && s.books[s.tasks[t].pc.runner] == s.tasks[t].pc.curatorSaw
              && s.tasks[t].pc.curatorSaw == s.tasks[t].pc.saw + [Embedded(t, s.tasks[t].pc.noise)]
  {
    Reachable(disk, steps);
    ReferencesExist(s, t);
    var a := s.tasks[t].agent;
    assert TaskOk(s, t) && AgentOk(s, a);
    if Critical(s.tasks[t].pc) { CriticalHolds(s, t); }
  }

  // ---- no update is lost -------------------------------------------------------------------

  /** The update at `i` was made by an author who had read everything before it. */
  predicate Informed(p: Playbook, i: nat)
    requires i < |p|
  {
    p[i].Applied? ==> i >= 1 && p[i].reflectorSaw == p[..i - 1] && p[i].curatorSaw == p[..i]
  }

  lemma {:induction false} FoldInformed(p: Playbook, log: seq<Turn>, i: nat)
    requires |p| <= i < |Fold(p, log)|
    ensures Informed(Fold(p, log), i)
    decreases |log|
  {
    if log != [] {
      var before, turn := Fold(p, log[..|log| - 1]), log[|log| - 1];
      FoldGrows(p, log[..|log| - 1]);
      var after := Alone(before, turn);
      AloneExtends(before, turn);
      if i < |before| {
        FoldInformed(p, log[..|log| - 1], i);
        PrefixOfPrefix(before, after, i);
      } else {
        AloneInformed(before, turn, i);
      }
    }
  }

  lemma PrefixOfPrefix(p: Playbook, q: Playbook, i: nat)
    requires i < |p| && p <= q && Informed(p, i)
    ensures Informed(q, i)
  {
    assert q[..i] == p[..i];
    if i >= 1 { assert q[..i - 1] == p[..i - 1]; }
  }

  lemma AloneExtends(p: Playbook, t: Turn)
    ensures p <= Alone(p, t)
  {
  }

  lemma AloneInformed(p: Playbook, t: Turn, i: nat)
    requires |p| <= i < |Alone(p, t)|
    ensures Informed(Alone(p, t), i)
  {
    var r := Alone(p, t);
    if t.outcome.Completed? {
      var q := p + [Embedded(t.task, t.outcome.noise)];
      assert r[..|p|] == p && r[..|q|] == q;
    }
  }

  lemma {:induction false} FoldGrows(p: Playbook, log: seq<Turn>)
    ensures p <= Fold(p, log)
    decreases |log|
  {
    if log != [] {
      FoldGrows(p, log[..|log| - 1]);
      AloneExtends(Fold(p, log[..|log| - 1]), log[|log| - 1]);
    }
  }

  /** Whatever the interleaving, every delta in an agent's playbook was made from all that precedes it. */
  lemma NoLostUpdate(disk: map<int, Playbook>, steps: seq<Step>, s: State, a: Agent, i: nat)
    requires Reaches(disk, steps, s) && a in s.runners && a in s.initial && s.runners[a] < |s.books|
    requires |s.initial[a]| <= i < |s.books[s.runners[a]]|
    ensures Informed(s.books[s.runners[a]], i)
  {
    Reachable(disk, steps);
    assert AgentOk(s, a);
    var p := Sequential(s, a);
    if i < |p| {
      FoldInformed(s.initial[a], s.Log(a), i);
      PrefixOfPrefix(p, s.books[s.runners[a]], i);
    }
  }

  // ---- memory and disk ---------------------------------------------------------------------

  /** An attempt that left the playbook as it was. */
  predicate Idle(t: Turn) {
    t.outcome.LostReflecting? && t.outcome.damage == []
  }

  /** Nothing has changed in memory since the last save. */
  predicate Settled(log: seq<Turn>) {
    if log == [] || log[|log| - 1].stored then true else Idle(log[|log| - 1]) && Settled(log[..|log| - 1])
  }

  lemma {:induction false} StoredIsPrefix(log: seq<Turn>)
    ensures |StoredPart(log)| <= |log| && StoredPart(log) == log[..|StoredPart(log)|]
    ensures StoredPart(log) == [] || StoredPart(log)[|StoredPart(log)| - 1].stored
  {
    if log != [] && !log[|log| - 1].stored {
      var l := log[..|log| - 1];
      StoredIsPrefix(l);
      assert l[..|StoredPart(l)|] == log[..|StoredPart(l)|];
    } else {
      assert log[..|log|] == log;
    }
  }

  lemma {:induction false} StoredFold(p: Playbook, log: seq<Turn>)
    ensures Fold(p, StoredPart(log)) <= Fold(p, log)
    ensures Fold(p, StoredPart(log)) == Fold(p, log) <==> Settled(log)
  {
    if log != [] && !log[|log| - 1].stored {
      StoredFold(p, log[..|log| - 1]);
      AloneIdle(Fold(p, log[..|log| - 1]), log[|log| - 1]);
    }
  }

  lemma AloneIdle(p: Playbook, t: Turn)
    ensures p <= Alone(p, t)
    ensures |Alone(p, t)| == |p| <==> Idle(t)
    ensures Idle(t) ==> Alone(p, t) == p
  {
  }

  /** A file always holds what one of the agents that share it saved last, or was created with. */
  lemma FileHasAnAuthor(disk: map<int, Playbook>, steps: seq<Step>, s: State, a: Agent)
    requires Reaches(disk, steps, s) && a in s.runners
    ensures exists b :: Sharer(s, Scope(a), b) && s.Stored(Scope(a)) == LastSaved(s, b)
  {
    Reachable(disk, steps);
    ReachableFile(disk, steps, Scope(a));
    assert AgentOk(s, a);
    assert Sharer(s, Scope(a), a);
    if Untouched(s, Scope(a)) {
      assert s.Stored(Scope(a)) == LastSaved(s, a);
    } else {
      var b :| SavedBy(s, Scope(a), b);
    }
  }

  /** A playbook changed since the last save ends in an update of one of the agent's tasks. */
  lemma {:induction false} UnsettledEnd(p: Playbook, log: seq<Turn>) returns (i: nat)
    requires !Settled(log)
    ensures i < |log| && var q := Fold(p, log); q != [] && q[|q| - 1].task == log[i].task
  {
    i := |log| - 1;
    if Idle(log[i]) {
      var before := Fold(p, log[..i]);
      AloneIdle(before, log[i]);
      i := UnsettledEnd(p, log[..i]);
    } else {
      AloneEnd(Fold(p, log[..i]), log[i]);
    }
  }

  lemma AloneEnd(p: Playbook, t: Turn)
    requires !Idle(t)
    ensures var q := Alone(p, t); q != [] && q[|q| - 1].task == t.task
  {
  }

  /** So does one that was saved. */
  lemma SavedEnd(p: Playbook, log: seq<Turn>) returns (i: nat)
    requires StoredPart(log) != [] && forall j | 0 <= j < |log| && log[j].stored :: log[j].outcome.Completed?
    ensures i < |log| && var q := Fold(p, StoredPart(log)); q != [] && q[|q| - 1].task == log[i].task
  {
    StoredIsPrefix(log);
    i := |StoredPart(log)| - 1;
    assert StoredPart(log)[i] == log[i];
    AloneEnd(Fold(p, StoredPart(log)[..i]), log[i]);
  }

  /** Unsaved work of one agent is never what another has saved. */
  lemma UnsavedIsNotSavedByOther(disk: map<int, Playbook>, steps: seq<Step>, s: State, a: Agent, b: Agent)
    requires Reaches(disk, steps, s) && a in s.initial && SavedBy(s, Scope(a), b) && b != a && !Settled(s.Log(a))
    ensures Fold(s.initial[a], s.Log(a)) != s.Stored(Scope(a))
  {
    ReachableOrderly(disk, steps);
    forall j | 0 <= j < |s.Log(b)| && s.Log(b)[j].stored ensures s.Log(b)[j].outcome.Completed? {
      assert TurnOk(s, b, j);
    }
    var i := UnsettledEnd(s.initial[a], s.Log(a));
    var j := SavedEnd(s.initial[b], s.Log(b));
    assert TurnOk(s, a, i) && TurnOk(s, b, j);
  }

  /**
   With its lock free, an agent's memory equals its file exactly when the file holds what it saved last, or
   was created with, and no attempt since then changed anything. The first is so whenever no other agent in
   use has the same file.
   */
  lemma MemoryMeetsDisk(disk: map<int, Playbook>, steps: seq<Step>, s: State, a: Agent)
    requires Reaches(disk, steps, s) && a in s.runners
    ensures a in s.initial && s.runners[a] < |s.books|
    ensures Holder(s, a) == None ==> (s.Stored(Scope(a)) == s.books[s.runners[a]] <==> Fresh(s, a) && Settled(s.Log(a)))
    ensures OwnFile(s, a) ==> Fresh(s, a)
  {
    Reachable(disk, steps);
    ReachableFile(disk, steps, Scope(a));
    assert AgentOk(s, a);
    if OwnFile(s, a) { OwnFileFresh(s, a); }
    StoredFold(s.initial[a], s.Log(a));
    if !Settled(s.Log(a)) && !Fresh(s, a) {
      assert Sharer(s, Scope(a), a);
      var b :| SavedBy(s, Scope(a), b);
      UnsavedIsNotSavedByOther(disk, steps, s, a, b);
    }
  }

  /** A file stays as an agent saved it for as long as no other agent saves to it. */
  lemma {:induction false} FreshUntilOverwritten(
      disk: map<int, Playbook>, before: seq<Step>, after: seq<Step>, s: State, t: State, a: Agent)
    requires Reaches(disk, before, s) && Fresh(s, a) && Reaches(disk, before + after, t)
    requires forall i, r | 0 <= i < |after| && Reaches(disk, before + after[..i], r) :: !Overwrites(r, after[i], a)
    ensures Fresh(t, a)
    decreases |after|
  {
    if after == [] {
      assert before + after == before;
    } else {
      var n := |after| - 1;
      var all, front := before + after, before + after[..n];
      assert all[..|all| - 1] == front && all[|all| - 1] == after[n];
      var r := Run(Start(disk), front).value;
      forall i, q | 0 <= i < n && Reaches(disk, before + after[..n][..i], q) ensures !Overwrites(q, after[..n][i], a) {
        assert after[..n][..i] == after[..i];
      }
      FreshUntilOverwritten(disk, before, after[..n], s, r, a);
      Reachable(disk, front);
      FreshKept(r, after[n], a);
    }
  }

  /** The log is in lock order: its tasks are those that took the agent's lock and reached the runner, in that order. */
  lemma LogIsLockOrder(disk: map<int, Playbook>, steps: seq<Step>, s: State, a: Agent)
    requires Reaches(disk, steps, s)
    ensures Granted(s.attempts, a) == TasksOf(s.Log(a)) + Current(s, a)
    ensures Holder(s, a) == None ==> Granted(s.attempts, a) == TasksOf(s.Log(a))
  {
    ReachableOrderly(disk, steps);
    assert InOrder(s, a);
  }

  /**
   Once the lock is free and the last task that reached the runner returned without an exception, the
   file equals memory, unless another agent has saved to it since.
   */
  lemma SavedWhenLastLearned(disk: map<int, Playbook>, steps: seq<Step>, s: State, a: Agent)
    requires Reaches(disk, steps, s) && a in s.runners && Holder(s, a) == None
    requires var g := Granted(s.attempts, a);
             g != [] ==> g[|g| - 1] < |s.tasks| && s.tasks[g[|g| - 1]].pc.Learned?
    ensures s.runners[a] < |s.books|
    ensures s.Stored(Scope(a)) == s.books[s.runners[a]] <==> Fresh(s, a)
    ensures OwnFile(s, a) ==> s.Stored(Scope(a)) == s.books[s.runners[a]]
  {
    MemoryMeetsDisk(disk, steps, s, a);
    LastLearnedSettles(disk, steps, s, a);
  }

  lemma LastLearnedSettles(disk: map<int, Playbook>, steps: seq<Step>, s: State, a: Agent)
    requires Reaches(disk, steps, s) && Holder(s, a) == None
    requires var g := Granted(s.attempts, a);
             g != [] ==> g[|g| - 1] < |s.tasks| && s.tasks[g[|g| - 1]].pc.Learned?
    ensures Settled(s.Log(a))
  {
    LogIsLockOrder(disk, steps, s, a);
    ReachableOrderly(disk, steps);
    var log := s.Log(a);
    if log != [] {
      assert TasksOf(log)[|log| - 1] == log[|log| - 1].task;
      assert TurnOk(s, a, |log| - 1);
    }
  }
}
