/**
 Two runs that show why memory and disk are only promised to agree after an attempt that was not
 skipped, and for an agent that shares its file with nobody.
 */
module ExperienceLimits {
  import opened Options
  import opened ExperienceService
  import opened ExperienceInvariants
  import opened ExperienceFiles
  import opened ExperienceTheorems

  lemma Extended(disk: map<int, Playbook>, steps: seq<Step>, s: State, step: Step)
    requires Reaches(disk, steps, s) && Enabled(s, step)
    ensures Reaches(disk, steps + [step], Next(s, step))
  {
    assert (steps + [step])[..|steps|] == steps;
  }

  /** A task is called and gets as far as waiting for its agent's lock. */
  lemma Arrives(disk: map<int, Playbook>, steps: seq<Step>, s: State, a: Agent, digest: string)
      returns (more: seq<Step>, s': State, t: nat)
    requires Reaches(disk, steps, s) && s.guard == None
    ensures Reaches(disk, more, s') && t == |s.tasks| && |s'.tasks| == t + 1
    ensures s'.tasks[t].agent == a && s'.tasks[t].digest == digest && s'.tasks[t].pc.Waiting?
    ensures s'.guard == None && s'.learned == s.learned && s'.disk == s.disk
    ensures a in s.runners ==> s'.runners == s.runners && s'.books == s.books
    ensures a !in s.runners ==>
              s'.runners == s.runners[a := |s.books|] && s'.books == s.books + [s.Stored(Scope(a))]
    ensures forall b :: Holder(s', b) == Holder(s, b)
    ensures forall u | 0 <= u < t :: s'.tasks[u] == s.tasks[u]
  {
    t := |s.tasks|;
    var call := Call(a, digest);
    var s1 := NextCall(s, a, digest);
    Extended(disk, steps, s, call);
    more, s' := Queues(disk, steps + [call], s1, t);
    forall b ensures Holder(s', b) == Holder(s, b) { CallingHolder(s, a, digest, b); }
  }

  lemma CallingHolder(s: State, a: Agent, digest: string, b: Agent)
    ensures Holder(NextCall(s, a, digest), b) == Holder(s, b)
  {
  }

  lemma Queues(disk: map<int, Playbook>, steps: seq<Step>, s: State, t: nat)
      returns (more: seq<Step>, s': State)
    requires Reaches(disk, steps, s) && s.guard == None && t < |s.tasks| && s.tasks[t].pc.Called?
    ensures Reaches(disk, more, s') && |s'.tasks| == |s.tasks|
    ensures s'.tasks[t].agent == s.tasks[t].agent && s'.tasks[t].digest == s.tasks[t].digest && s'.tasks[t].pc.Waiting?
    ensures s'.guard == None && s'.learned == s.learned && s'.disk == s.disk && s'.runners == s.runners &&
            s'.books == s.books
    ensures forall b :: Holder(s', b) == Holder(s, b)
    ensures forall u | 0 <= u < |s.tasks| && u != t :: s'.tasks[u] == s.tasks[u]
  {
    var s1 := Next(s, EnterGuard(t));
    Extended(disk, steps, s, EnterGuard(t));
    s' := NextLeave(s1, t);
    more := steps + [EnterGuard(t)] + [LeaveGuard(t)];
    Extended(disk, steps + [EnterGuard(t)], s1, LeaveGuard(t));
    Reachable(disk, steps + [EnterGuard(t)]);
    forall b ensures Holder(s', b) == Holder(s1, b) { LeavingHolder(s1, t, b); }
  }

  lemma LeavingHolder(s: State, t: nat, b: Agent)
    requires Inv(s) && Enabled(s, LeaveGuard(t))
    ensures Holder(NextLeave(s, t), b) == Holder(s, b)
  {
    assert AgentOk(s, b);
  }

  /** It takes the lock and goes on until its playbook is about to be saved. */
  lemma Learns(disk: map<int, Playbook>, steps: seq<Step>, s: State, t: nat)
      returns (more: seq<Step>, s': State)
    requires Reaches(disk, steps, s) && t < |s.tasks| && s.tasks[t].pc.Waiting? && Holder(s, s.tasks[t].agent) == None
    requires s.tasks[t].Id() !in s.learned && |s.learned| < LEARNED_CAP
    ensures Reaches(disk, more, s') && |s'.tasks| == |s.tasks| && s'.tasks[t] == s.tasks[t].(pc := s'.tasks[t].pc)
    ensures s'.tasks[t].pc.Saving? && s'.guard == s.guard && s'.learned == s.learned + {s.tasks[t].Id()}
    ensures s'.disk == s.disk && s'.runners == s.runners && s'.initial == s.initial && s'.locks == s.locks
    ensures forall u | 0 <= u < |s.tasks| && u != t :: s'.tasks[u] == s.tasks[u]
    ensures s.tasks[t].agent in s.runners && s.runners[s.tasks[t].agent] < |s.books| == |s'.books|
    ensures |s'.books[s.runners[s.tasks[t].agent]]| > |s.books[s.runners[s.tasks[t].agent]]|
    ensures forall r | 0 <= r < |s.books| && r != s.runners[s.tasks[t].agent] :: s'.books[r] == s.books[r]
    ensures forall b | b != s.tasks[t].agent :: Holder(s', b) == Holder(s, b)
  {
    Reachable(disk, steps);
    ReferencesExist(s, t);
    assert TaskOk(s, t) && AgentOk(s, s.tasks[t].agent);
    var s1 := Next(s, Acquire(t));
    Extended(disk, steps, s, Acquire(t));
    var s2 := Next(s1, Reflected(t, 0));
    Extended(disk, steps + [Acquire(t)], s1, Reflected(t, 0));
    s' := Next(s2, Curated(t, 0));
    more := steps + [Acquire(t)] + [Reflected(t, 0)] + [Curated(t, 0)];
    Extended(disk, steps + [Acquire(t)] + [Reflected(t, 0)], s2, Curated(t, 0));
    forall b | b != s.tasks[t].agent ensures Holder(s', b) == Holder(s, b) { assert AgentOk(s, b); }
  }

  /** The file is written and the lock released. */
  lemma Saves(disk: map<int, Playbook>, steps: seq<Step>, s: State, t: nat)
      returns (more: seq<Step>, s': State)
    requires Reaches(disk, steps, s) && t < |s.tasks| && s.tasks[t].pc.Saving?
    ensures Reaches(disk, more, s') && |s'.tasks| == |s.tasks| && s'.tasks[t].pc.Learned? &&
            s'.tasks[t].agent == s.tasks[t].agent
    ensures forall u | 0 <= u < |s.tasks| && u != t :: s'.tasks[u] == s.tasks[u]
    ensures s.tasks[t].agent in s.runners && s.runners[s.tasks[t].agent] < |s.books|
    ensures s'.disk == s.disk[Scope(s.tasks[t].agent) := s.books[s.runners[s.tasks[t].agent]]]
    ensures s'.books == s.books && s'.runners == s.runners && s'.learned == s.learned && s'.guard == s.guard
    ensures Holder(s', s.tasks[t].agent) == None
    ensures forall b | Holder(s, b) == None :: Holder(s', b) == None
  {
    Reachable(disk, steps);
    ReferencesExist(s, t);
    assert TaskOk(s, t) && AgentOk(s, s.tasks[t].agent);
    var s1 := Next(s, Write(t));
    Extended(disk, steps, s, Write(t));
    s' := Next(s1, Release(t));
    more := steps + [Write(t)] + [Release(t)];
    Extended(disk, steps + [Write(t)], s1, Release(t));
  }

  /**
   A save fails, and the retry of the same trajectory is skipped: the last holder of the lock returned
   without an exception, the lock is free, and the file is behind memory.
   */
  lemma SkippedRetryLeavesFileBehind(a: Agent, digest: string) returns (steps: seq<Step>, s: State)
    ensures Reaches(map[], steps, s) && OwnFile(s, a) && Holder(s, a) == None
    ensures |s.tasks| == 2 && s.tasks[0].agent == s.tasks[1].agent == a && s.tasks[1].pc.Skipped?
    ensures a in s.runners && s.runners[a] < |s.books| && s.Stored(Scope(a)) != s.books[s.runners[a]]
  {
    var t, u: nat;
    steps, s := [], Start(map[]);
    steps, s, t := Arrives(map[], steps, s, a, digest);
    steps, s := Learns(map[], steps, s, t);
    steps, s := Fails(map[], steps, s, t);
    steps, s, u := Arrives(map[], steps, s, a, digest);
    Reachable(map[], steps);
    ReferencesExist(s, u);
    assert TaskOk(s, u);
    Extended(map[], steps, s, Acquire(u));
    steps, s := steps + [Acquire(u)], Next(s, Acquire(u));
  }

  lemma Fails(disk: map<int, Playbook>, steps: seq<Step>, s: State, t: nat)
      returns (more: seq<Step>, s': State)
    requires Reaches(disk, steps, s) && t < |s.tasks| && s.tasks[t].pc.Saving?
    ensures Reaches(disk, more, s') && s'.tasks == Go(s, t, Failed)
    ensures s'.disk == s.disk && s'.books == s.books && s'.runners == s.runners && s'.learned == s.learned &&
            s'.guard == s.guard
    ensures Holder(s', s.tasks[t].agent) == None
  {
    Reachable(disk, steps);
    ReferencesExist(s, t);
    assert TaskOk(s, t);
    s' := Next(s, Raise(t, []));
    more := steps + [Raise(t, [])];
    Extended(disk, steps, s, Raise(t, []));
  }

  /**
   Agents `None` and 0 have a runner and a lock each but one file between them: both learn and save, and
   the file is not what `None` has in memory.
   */
  lemma SharedFileDiverges(digest: string) returns (steps: seq<Step>, s: State)
    ensures Reaches(map[], steps, s) && Holder(s, None) == None && Holder(s, Some(0)) == None
    ensures |s.tasks| == 2 && s.tasks[0].agent == None && s.tasks[1].agent == Some(0)
    ensures s.tasks[0].pc.Learned? && s.tasks[1].pc.Learned?
    ensures None in s.runners && s.runners[None] < |s.books| && s.Stored(Scope(None)) != s.books[s.runners[None]]
  {
    steps, s := NoneLearns(digest);
    var u;
    steps, s, u := Arrives(map[], steps, s, Some(0), digest);
    steps, s := Learns(map[], steps, s, u);
    steps, s := Saves(map[], steps, s, u);
  }

  lemma NoneLearns(digest: string) returns (steps: seq<Step>, s: State)
    ensures Reaches(map[], steps, s) && s.guard == None && s.runners == map[None := 0] && |s.books| == 1
    ensures s.Stored(0) == s.books[0] && (forall b :: Holder(s, b) == None) && s.learned == {(None, digest)}
    ensures |s.tasks| == 1 && s.tasks[0].agent == None && s.tasks[0].pc.Learned?
  {
    var t;
    steps, s := [], Start(map[]);
    steps, s, t := Arrives(map[], steps, s, None, digest);
    steps, s := Learns(map[], steps, s, t);
    steps, s := Saves(map[], steps, s, t);
  }
}
