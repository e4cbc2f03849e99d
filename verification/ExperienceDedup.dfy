/**
 The set of learned ids: at most once between two clears, and how often it is cleared.
 */
module ExperienceDedup {
  import opened Options
  import opened ExperienceService

  /** The number of the epoch in which the attempt at position `i` falls. */
  function Epoch(i: nat): nat {
    i / 1024
  }

  /** How often the set has been cleared after `n` first-time attempts. */
  function ClearsAfter(n: nat): nat {
    if n == 0 then 0 else (n - 1) / LEARNED_CAP
  }

  /** The ids attempted since the last clear. */
  function IdsFrom(attempts: seq<Attempt>, k: nat): set<TrajectoryId> {
    set i | k <= i < |attempts| :: attempts[i].id
  }

  predicate OncePerEpoch(attempts: seq<Attempt>) {
    forall i, j | 0 <= i < j < |attempts| && Epoch(i) == Epoch(j) :: attempts[i].id != attempts[j].id
  }

  predicate Tracked(s: State) {
    && s.clears == ClearsAfter(|s.attempts|)
    && s.learned == IdsFrom(s.attempts, s.clears * LEARNED_CAP)
    && |s.learned| == |s.attempts| - s.clears * LEARNED_CAP
    && OncePerEpoch(s.attempts)
  }

  lemma RegisterTracked(s: State, t: nat, id: TrajectoryId)
    requires Tracked(s) && id !in s.learned
    ensures Tracked(Registered(s, t, id))
  {
    var x := Attempt(t, id);
    CountClears(|s.attempts|, s.clears);
    RegisterOnce(s, x);
    if |s.learned| >= LEARNED_CAP {
      FirstOfEpoch(s.attempts, x);
    } else {
      NewIds(s.attempts, x, s.clears * LEARNED_CAP);
    }
  }

  lemma FirstOfEpoch(attempts: seq<Attempt>, x: Attempt)
    ensures IdsFrom(attempts + [x], |attempts|) == {x.id}
  {
    NewIds(attempts, x, |attempts|);
    assert IdsFrom(attempts, |attempts|) == {};
  }

  lemma CountClears(n: nat, c: nat)
    requires c == ClearsAfter(n)
    ensures c * LEARNED_CAP <= n
    ensures n - c * LEARNED_CAP >= LEARNED_CAP ==> ClearsAfter(n + 1) == c + 1 && (c + 1) * LEARNED_CAP == n
    ensures n - c * LEARNED_CAP < LEARNED_CAP ==> ClearsAfter(n + 1) == c
  {
  }

  lemma RegisterOnce(s: State, x: Attempt)
    requires Tracked(s) && x.id !in s.learned
    ensures OncePerEpoch(s.attempts + [x])
  {
    var n, all := |s.attempts|, s.attempts + [x];
    forall i, j | 0 <= i < j < |all| && Epoch(i) == Epoch(j) ensures all[i].id != all[j].id {
      if j == n { SameEpoch(s, i); }
    }
  }

  lemma NewIds(attempts: seq<Attempt>, x: Attempt, k: nat)
    requires k <= |attempts|
    ensures IdsFrom(attempts + [x], k) == IdsFrom(attempts, k) + {x.id}
  {
    var all := attempts + [x];
    forall id ensures id in IdsFrom(all, k) <==> id in IdsFrom(attempts, k) + {x.id} {
      if id in IdsFrom(attempts, k) {
        var i :| k <= i < |attempts| && attempts[i].id == id;
        assert all[i].id == id;
      }
      assert all[|attempts|].id == x.id;
    }
  }

  /** An attempt in the epoch of the next one is still remembered. */
  lemma SameEpoch(s: State, i: nat)
    requires Tracked(s) && i < |s.attempts| && Epoch(i) == Epoch(|s.attempts|)
    ensures s.attempts[i].id in s.learned
  {
    var n := |s.attempts|;
    assert ClearsAfter(n) == Epoch(n);
    assert s.clears * LEARNED_CAP <= i;
  }

  lemma {:induction false} ReachableTracked(disk: map<int, Playbook>, steps: seq<Step>)
    requires Run(Start(disk), steps).Some?
    ensures Tracked(Run(Start(disk), steps).value)
  {
    if steps != [] {
      var front, last := steps[..|steps| - 1], steps[|steps| - 1];
      ReachableTracked(disk, front);
      var s := Run(Start(disk), front).value;
      StepTracked(s, last);
    }
  }

  lemma StepTracked(s: State, step: Step)
    requires Tracked(s) && Enabled(s, step)
    ensures Tracked(Next(s, step))
  {
    if step.Acquire? && s.tasks[step.t].Id() !in s.learned {
      RegisterTracked(s, step.t, s.tasks[step.t].Id());
    }
  }

  function Times(attempts: seq<Attempt>, id: TrajectoryId): nat {
    if attempts == [] then 0
    else Times(attempts[..|attempts| - 1], id) + if attempts[|attempts| - 1].id == id then 1 else 0
  }

  /** An id attempted in epoch `e` last was attempted at most `e + 1` times. */
  lemma {:induction false} TimesWithin(attempts: seq<Attempt>, id: TrajectoryId, e: nat)
    requires OncePerEpoch(attempts)
    requires forall i | 0 <= i < |attempts| && attempts[i].id == id :: Epoch(i) < e
    ensures Times(attempts, id) <= e
    decreases |attempts|
  {
    if attempts != [] {
      var n := |attempts| - 1;
      var front := attempts[..n];
      assert forall i | 0 <= i < n :: front[i] == attempts[i];
      if attempts[n].id == id {
        assert Epoch(n) < e;
        forall i | 0 <= i < n && front[i].id == id ensures Epoch(i) < e - 1 { EpochGrows(i, n); }
        TimesWithin(front, id, e - 1);
      } else {
        TimesWithin(front, id, e);
      }
    }
  }

  lemma EpochGrows(i: nat, n: nat)
    requires i <= n
    ensures Epoch(i) <= Epoch(n)
  {
  }

  /**
   In every run, after `n` first-time attempts: no id was attempted twice between two clears, the set
   holds `(n - 1) mod 1024 + 1` ids and was cleared `(n - 1) / 1024` times, and no id was attempted more
   than `n / 1024`, rounded up, times.
   */
  lemma AtMostOncePerEpoch(disk: map<int, Playbook>, steps: seq<Step>, s: State, id: TrajectoryId)
    requires Run(Start(disk), steps) == Some(s)
    ensures var n := |s.attempts|;
            && OncePerEpoch(s.attempts)
            && (n >= 1 ==> |s.learned| == (n - 1) % 1024 + 1 && s.clears == (n - 1) / 1024)
            && Times(s.attempts, id) <= (n + 1023) / 1024
  {
    ReachableTracked(disk, steps);
    var n := |s.attempts|;
    var e := (n + 1023) / 1024;
    forall i | 0 <= i < n && s.attempts[i].id == id ensures Epoch(i) < e {}
    TimesWithin(s.attempts, id, e);
  }
}
