/**
 `PlanFS.write` and `PlanFS.read` of core/app/storage/plan_fs.py in one turn directory, with any number
 of writers and readers interleaved system call by system call, with failures and crashes.

 A name stands for a file, a file has content; an open descriptor goes on naming its file when the
 name is replaced or removed.
 */
module PlanFiles {

  const PLAN := "plan.json"
  const PREFIX := "plan.json."
  const SUFFIX := ".tmp"

  /** `tempfile.mkstemp(prefix="plan.json.", suffix=".tmp")` with some random middle part. */
  function TempName(middle: string): string {
    PREFIX + middle + SUFFIX
  }

  datatype WriterPc =
    | Writing(tmp: string, file: nat, done: nat)   // `done` characters have reached the file
    | Closed(tmp: string, file: nat)
    | Replaced(tmp: string, file: nat)             // published, not yet returned
    | Failing(tmp: string, file: nat)              // an exception was raised, cleanup is due
    | Returned
    | Failed
    | Orphaned                                     // the cleanup failed as well
    | Crashed

  datatype Writer = Writer(content: string, pc: WriterPc)

  datatype Reader =
    | Reading(file: nat, got: string)
    | Got(text: string)
    | Missing

  datatype State = State(
    names: map<string, nat>, files: seq<string>,
    writers: seq<Writer>, readers: seq<Reader>,
    owner: seq<nat>)                               // which writer made each file

  const EMPTY := State(map[], [], [], [], [])

  predicate Live(pc: WriterPc) {
    pc.Writing? || pc.Closed? || pc.Replaced? || pc.Failing?
  }

  datatype Step =
    | Begin(content: string, middle: string)   // mkstemp made the file
    | Append(w: nat, k: nat)                   // `k` more characters reach the file
    | Close(w: nat)
    | Replace(w: nat)                          // os.replace
    | Return(w: nat)
    | Raise(w: nat)                            // any exception inside the try block, even after the replace
    | Cleanup(w: nat)                          // unlink, a missing file being no error
    | CleanupFails(w: nat)                     // unlink raises any other error
    | Crash(w: nat)
    | Open                                     // a new reader opens plan.json
    | Read(r: nat, k: nat)                     // `k` more characters, or the end of the file

  predicate Enabled(s: State, step: Step) {
    match step
    case Begin(_, middle) => TempName(middle) !in s.names
    case Append(w, k) =>
      && w < |s.writers| && s.writers[w].pc.Writing? && s.writers[w].pc.file < |s.files|
      && s.writers[w].pc.done + k <= |s.writers[w].content|
    case Close(w) => w < |s.writers| && s.writers[w].pc.Writing? && s.writers[w].pc.done == |s.writers[w].content|
    case Replace(w) => w < |s.writers| && s.writers[w].pc.Closed? && s.writers[w].pc.tmp in s.names
    case Return(w) => w < |s.writers| && s.writers[w].pc.Replaced?
    case Raise(w) =>
      w < |s.writers| && (s.writers[w].pc.Writing? || s.writers[w].pc.Closed? || s.writers[w].pc.Replaced?)
    case Cleanup(w) => w < |s.writers| && s.writers[w].pc.Failing?
    case CleanupFails(w) => w < |s.writers| && s.writers[w].pc.Failing?
    case Crash(w) => w < |s.writers| && Live(s.writers[w].pc)
    case Open => true
    case Read(r, k) =>
      && r < |s.readers| && s.readers[r].Reading? && s.readers[r].file < |s.files|
      && |s.readers[r].got| + k <= |s.files[s.readers[r].file]|
  }

  function To(s: State, w: nat, pc: WriterPc): seq<Writer>
    requires w < |s.writers|
  {
    s.writers[w := s.writers[w].(pc := pc)]
  }

  function Next(s: State, step: Step): State
    requires Enabled(s, step)
  {
    match step
    case Begin(content, middle) =>
      var f, tmp := |s.files|, TempName(middle);
      s.(names := s.names[tmp := f], files := s.files + [""], owner := s.owner + [|s.writers|],
         writers := s.writers + [Writer(content, Writing(tmp, f, 0))])
    case Append(w, k) =>
      var pc := s.writers[w].pc;
      s.(files := s.files[pc.file := s.files[pc.file] + s.writers[w].content[pc.done..pc.done + k]],
         writers := To(s, w, pc.(done := pc.done + k)))
    case Close(w) => s.(writers := To(s, w, Closed(s.writers[w].pc.tmp, s.writers[w].pc.file)))
    case Replace(w) =>
      var pc := s.writers[w].pc;
      s.(names := (s.names - {pc.tmp})[PLAN := s.names[pc.tmp]], writers := To(s, w, Replaced(pc.tmp, pc.file)))
    case Return(w) => s.(writers := To(s, w, Returned))
    case Raise(w) => s.(writers := To(s, w, Failing(s.writers[w].pc.tmp, s.writers[w].pc.file)))
    case Cleanup(w) => s.(names := s.names - {s.writers[w].pc.tmp}, writers := To(s, w, Failed))
    case CleanupFails(w) => s.(writers := To(s, w, Orphaned))
    case Crash(w) => s.(writers := To(s, w, Crashed))
    case Open => s.(readers := s.readers + [if PLAN in s.names then Reading(s.names[PLAN], "") else Missing])
    case Read(r, k) =>
      var x := s.readers[r];
      var got := x.got + s.files[x.file][|x.got|..|x.got| + k];
      s.(readers := s.readers[r := if |x.got| == |s.files[x.file]| then Got(x.got) else Reading(x.file, got)])
  }

  function Run(steps: seq<Step>): (r: seq<State>)
    ensures |r| <= 1
  {
    if steps == [] then [EMPTY]
    else
      var r := Run(steps[..|steps| - 1]);
      if r != [] && Enabled(r[0], steps[|steps| - 1]) then [Next(r[0], steps[|steps| - 1])] else []
  }

  // ---- the condition on a run --------------------------------------------------------------

  /** The random parts `mkstemp` handed out, call by call. */
  function Middles(steps: seq<Step>): seq<string> {
    if steps == [] then []
    else
      var last := steps[|steps| - 1];
      Middles(steps[..|steps| - 1]) + if last.Begin? then [last.middle] else []
  }

  /** The `w`th call is interrupted between its replace and its return. */
  ghost predicate Late(steps: seq<Step>, w: nat) {
    exists i, j | 0 <= i < j < |steps| :: steps[i] == Replace(w) && steps[j] == Raise(w)
  }

  /** No other call is ever given the name of a call that is interrupted between its replace and its return. */
  ghost predicate Orderly(steps: seq<Step>) {
    forall v, w | 0 <= v < |Middles(steps)| && 0 <= w < |Middles(steps)| && v != w && Late(steps, w) ::
      Middles(steps)[v] != Middles(steps)[w]
  }

  /** So it is enough that nothing is raised after a replace, or that no random part comes twice. */
  lemma OrderlyWhen(steps: seq<Step>)
    requires (forall w: nat :: !Late(steps, w)) ||
             (forall v, w | 0 <= v < w < |Middles(steps)| :: Middles(steps)[v] != Middles(steps)[w])
    ensures Orderly(steps)
  {
  }

  // ---- names -------------------------------------------------------------------------------

  /** Temporary names are neither `plan.json` nor the cancel marker, and differ when their middles do. */
  lemma TempNamesApart(a: string, b: string)
    ensures TempName(a) != PLAN && TempName(a) != "plan_cancelled"
    ensures TempName(a) == TempName(b) ==> a == b
  {
    assert |TempName(a)| == |a| + 14;
    assert TempName(a)[4] == '.';
    assert TempName(a)[10..10 + |a|] == a && TempName(b)[10..10 + |b|] == b;
  }

  // ---- the invariant -----------------------------------------------------------------------

  /** A file that holds exactly what one call of `write` was given, and that nobody writes to any more. */
  predicate Complete(s: State, f: nat) {
    && f < |s.files| == |s.owner| && s.owner[f] < |s.writers|
    && s.files[f] == s.writers[s.owner[f]].content
    && !(s.writers[s.owner[f]].pc.Writing? && s.writers[s.owner[f]].pc.file == f)
  }

  /** A temporary file belongs to a writer that is still at work, or that could not clean up. */
  predicate Temporary(s: State, n: string, f: nat) {
    && f < |s.files| == |s.owner| && s.owner[f] < |s.writers|
    && var pc := s.writers[s.owner[f]].pc;
       pc.Crashed? || pc.Orphaned? || ((pc.Writing? || pc.Closed? || pc.Failing?) && pc.tmp == n && pc.file == f)
  }

  predicate NameOk(s: State, n: string) {
    n in s.names ==> if n == PLAN then Complete(s, s.names[n]) else Temporary(s, n, s.names[n])
  }

  predicate WriterOk(s: State, w: nat)
    requires w < |s.writers|
  {
    var x := s.writers[w];
    && (Live(x.pc) ==> x.pc.tmp != PLAN && x.pc.file < |s.files| == |s.owner| && s.owner[x.pc.file] == w)
    && (x.pc.Writing? ==>
          x.pc.done <= |x.content| && s.files[x.pc.file] == x.content[..x.pc.done])
    && (x.pc.Closed? ==> s.files[x.pc.file] == x.content)
    && (x.pc.Writing? || x.pc.Closed? ==> x.pc.tmp in s.names && s.names[x.pc.tmp] == x.pc.file)
  }

  predicate ReaderOk(s: State, r: nat)
    requires r < |s.readers|
  {
    match s.readers[r]
    case Reading(f, got) => Complete(s, f) && got <= s.files[f]
    case Got(text) => exists w | 0 <= w < |s.writers| :: s.writers[w].content == text
    case Missing => true
  }

  predicate Busy(pc: WriterPc) {
    pc.Writing? || pc.Closed?
  }

  /** A cleanup that is due is not about to hit somebody else's file. */
  ghost predicate Distinct(s: State) {
    forall v, w | 0 <= v < |s.writers| && 0 <= w < |s.writers| && s.writers[v].pc.Failing? && Busy(s.writers[w].pc) ::
      s.writers[v].pc.tmp != s.writers[w].pc.tmp
  }

  ghost predicate Inv(s: State) {
    && |s.files| == |s.owner|
    && (forall n :: NameOk(s, n)) && (forall w | 0 <= w < |s.writers| :: WriterOk(s, w))
    && (forall r | 0 <= r < |s.readers| :: ReaderOk(s, r)) && Distinct(s)
  }

  // ---- every step keeps it, unless it endangers the name of a writer ------------------------

  /** The two steps by which a cleanup that is due comes to name another writer's file. */
  ghost predicate Polite(s: State, step: Step) {
    && (step.Begin? ==>
          forall w | 0 <= w < |s.writers| && s.writers[w].pc.Failing? :: s.writers[w].pc.tmp != TempName(step.middle))
    && (step.Raise? && step.w < |s.writers| && s.writers[step.w].pc.Replaced? ==>
          forall v | 0 <= v < |s.writers| && Busy(s.writers[v].pc) :: s.writers[v].pc.tmp != s.writers[step.w].pc.tmp)
  }

  lemma BeginKeeps(s: State, step: Step)
    requires Inv(s) && step.Begin? && Enabled(s, step) && Polite(s, step)
    ensures Inv(Next(s, step))
  {
    var s' := Next(s, step);
    TempNamesApart(step.middle, step.middle);
    forall n ensures NameOk(s', n) { assert NameOk(s, n); }
    forall w | 0 <= w < |s'.writers| ensures WriterOk(s', w) { if w < |s.writers| { assert WriterOk(s, w); } }
    forall r | 0 <= r < |s'.readers| ensures ReaderOk(s', r) { BeginReader(s, step, r); }
  }

  lemma BeginReader(s: State, step: Step, r: nat)
    requires Inv(s) && step.Begin? && Enabled(s, step) && r < |s.readers|
    ensures ReaderOk(Next(s, step), r)
  {
    assert ReaderOk(s, r);
    if s.readers[r].Got? {
      var w :| 0 <= w < |s.writers| && s.writers[w].content == s.readers[r].text;
      assert Next(s, step).writers[w].content == s.readers[r].text;
    }
  }

  /** A writer moves on: its content stays, its file is complete if it no longer writes to it. */
  ghost predicate Moves(s: State, s': State, w: nat) {
    && w < |s.writers| && |s'.writers| == |s.writers| && s'.owner == s.owner && s'.readers == s.readers
    && |s'.files| == |s.files|
    && (forall v | 0 <= v < |s.writers| && v != w :: s'.writers[v] == s.writers[v])
    && s'.writers[w].content == s.writers[w].content && Live(s.writers[w].pc)
    && (s'.writers[w].pc.Writing? ==> s.writers[w].pc.Writing?)
    && (Live(s'.writers[w].pc) ==>
          s'.writers[w].pc.tmp == s.writers[w].pc.tmp && s'.writers[w].pc.file == s.writers[w].pc.file)
    && (forall f | 0 <= f < |s.files| && (s.writers[w].pc.Writing? ==> f != s.writers[w].pc.file) ::
          s'.files[f] == s.files[f])
    && (!s'.writers[w].pc.Writing? ==> s'.files == s.files)
  }

  lemma MovesComplete(s: State, s': State, w: nat, f: nat)
    requires Inv(s) && Moves(s, s', w) && Complete(s, f)
    ensures Complete(s', f)
  {
    assert WriterOk(s, w);
  }

  lemma MovesReader(s: State, s': State, w: nat, r: nat)
    requires Inv(s) && Moves(s, s', w) && r < |s.readers|
    ensures ReaderOk(s', r)
  {
    assert ReaderOk(s, r);
    match s.readers[r]
    case Reading(f, got) =>
      MovesComplete(s, s', w, f);
      assert WriterOk(s, w);
      assert s'.files[f] == s.files[f];
    case Got(text) =>
      var v :| 0 <= v < |s.writers| && s.writers[v].content == text;
      assert s'.writers[v].content == text;
    case Missing =>
  }

  lemma MovesKeep(s: State, s': State, w: nat)
    requires Inv(s) && Moves(s, s', w) && WriterOk(s', w)
    requires forall n :: NameOk(s', n)
    requires forall v | 0 <= v < |s.writers| && v != w :: WriterOk(s', v)
    requires s'.writers[w].pc.Failing? ==>
               forall v | 0 <= v < |s.writers| && Busy(s.writers[v].pc) && v != w ::
                 s.writers[v].pc.tmp != s.writers[w].pc.tmp
    requires Busy(s'.writers[w].pc) ==> Busy(s.writers[w].pc)
    ensures Inv(s')
  {
    forall r | 0 <= r < |s'.readers| ensures ReaderOk(s', r) { MovesReader(s, s', w, r); }
    forall v | 0 <= v < |s'.writers| ensures WriterOk(s', v) {}
  }

  /** Steps that leave the names alone. */
  lemma QuietKeeps(s: State, s': State, w: nat)
    requires Inv(s) && Moves(s, s', w) && s'.names == s.names && WriterOk(s', w)
    requires var pc := s'.writers[w].pc;
             pc.Writing? || pc.Closed? || pc.Failing? || pc.Orphaned? || pc.Crashed? || s.writers[w].pc.Replaced?
    requires Busy(s'.writers[w].pc) ==> Busy(s.writers[w].pc)
    requires s'.writers[w].pc.Failing? ==> Busy(s.writers[w].pc) || Polite(s, Raise(w))
    ensures Inv(s')
  {
    assert WriterOk(s, w);
    forall n ensures NameOk(s', n) { QuietName(s, s', w, n); }
    forall v | 0 <= v < |s.writers| && v != w ensures WriterOk(s', v) { assert WriterOk(s, v); }
    forall v | 0 <= v < |s.writers| && Busy(s.writers[v].pc) && v != w && s'.writers[w].pc.Failing?
      ensures s.writers[v].pc.tmp != s.writers[w].pc.tmp
    {
      assert WriterOk(s, v);
    }
    MovesKeep(s, s', w);
  }

  lemma QuietName(s: State, s': State, w: nat, n: string)
    requires Inv(s) && Moves(s, s', w) && s'.names == s.names
    requires var pc := s'.writers[w].pc;
             pc.Writing? || pc.Closed? || pc.Failing? || pc.Orphaned? || pc.Crashed? || s.writers[w].pc.Replaced?
    ensures NameOk(s', n)
  {
    assert NameOk(s, n);
    if n in s.names && n == PLAN { MovesComplete(s, s', w, s.names[n]); }
  }

  lemma ReplaceKeeps(s: State, w: nat)
    requires Inv(s) && Enabled(s, Replace(w))
    ensures Inv(Next(s, Replace(w)))
  {
    var s' := Next(s, Replace(w));
    assert WriterOk(s, w);
    forall n ensures NameOk(s', n) {
      assert NameOk(s, n);
    }
    forall v | 0 <= v < |s.writers| && v != w ensures WriterOk(s', v) { assert WriterOk(s, v); }
    MovesKeep(s, s', w);
  }

  lemma CleanupKeeps(s: State, w: nat)
    requires Inv(s) && Enabled(s, Cleanup(w))
    ensures Inv(Next(s, Cleanup(w)))
  {
    var s' := Next(s, Cleanup(w));
    assert WriterOk(s, w);
    forall n ensures NameOk(s', n) {
      assert NameOk(s, n);
      if n in s'.names && n == PLAN { MovesComplete(s, s', w, s.names[n]); }
    }
    forall v | 0 <= v < |s.writers| && v != w ensures WriterOk(s', v) { assert WriterOk(s, v); }
    MovesKeep(s, s', w);
  }

  lemma ReadKeeps(s: State, step: Step)
    requires Inv(s) && (step.Open? || step.Read?) && Enabled(s, step)
    ensures Inv(Next(s, step))
  {
    var s' := Next(s, step);
    forall n ensures NameOk(s', n) { assert NameOk(s, n); }
    forall w | 0 <= w < |s'.writers| ensures WriterOk(s', w) { assert WriterOk(s, w); }
    forall r | 0 <= r < |s'.readers| ensures ReaderOk(s', r) { NewReader(s, step, r); }
    assert Distinct(s') by { assert s'.writers == s.writers; }
  }

  lemma NewReader(s: State, step: Step, r: nat)
    requires Inv(s) && (step.Open? || step.Read?) && Enabled(s, step) && r < |Next(s, step).readers|
    ensures ReaderOk(Next(s, step), r)
  {
    if r < |s.readers| { assert ReaderOk(s, r); }
    assert NameOk(s, PLAN);
    if step.Read? && r == step.r {
      var x := s.readers[r];
      if |x.got| == |s.files[x.file]| { assert s.writers[s.owner[x.file]].content == x.got; }
    }
  }

  lemma WritingKeeps(s: State, step: Step)
    requires Inv(s) && Enabled(s, step) && (step.Append? || step.Close?)
    ensures Inv(Next(s, step))
  {
    assert WriterOk(s, step.w);
    QuietKeeps(s, Next(s, step), step.w);
  }

  lemma EndingKeeps(s: State, step: Step)
    requires Inv(s) && Enabled(s, step) && Polite(s, step)
    requires step.Return? || step.Raise? || step.CleanupFails? || step.Crash?
    ensures Inv(Next(s, step))
  {
    assert WriterOk(s, step.w);
    QuietKeeps(s, Next(s, step), step.w);
  }

  lemma StepKeeps(s: State, step: Step)
    requires Inv(s) && Enabled(s, step) && Polite(s, step)
    ensures Inv(Next(s, step))
  {
    match step
    case Begin(_, _) => BeginKeeps(s, step);
    case Append(_, _) => WritingKeeps(s, step);
    case Close(_) => WritingKeeps(s, step);
    case Replace(w) => ReplaceKeeps(s, w);
    case Cleanup(w) => CleanupKeeps(s, w);
    case Open => ReadKeeps(s, step);
    case Read(_, _) => ReadKeeps(s, step);
    case _ => EndingKeeps(s, step);
  }

  // ---- orderly runs have no other steps ----------------------------------------------------

  /** A writer has the name it was given; if its cleanup is due, it was interrupted late or still has its file. */
  ghost predicate Tracked(steps: seq<Step>, s: State, w: nat)
    requires w < |s.writers|
  {
    var pc := s.writers[w].pc;
    && w < |Middles(steps)| && (Live(pc) ==> pc.tmp == TempName(Middles(steps)[w]))
    && (pc.Replaced? ==> Replace(w) in steps)
    && (pc.Failing? ==> Late(steps, w) || (pc.tmp in s.names && s.names[pc.tmp] == pc.file))
  }

  ghost predicate AllTracked(steps: seq<Step>, s: State) {
    |Middles(steps)| == |s.writers| && forall w | 0 <= w < |s.writers| :: Tracked(steps, s, w)
  }

  lemma Grows(steps: seq<Step>, step: Step)
    ensures Middles(steps + [step]) == Middles(steps) + if step.Begin? then [step.middle] else []
    ensures forall w: nat | Late(steps, w) :: Late(steps + [step], w)
    ensures step.Raise? && Replace(step.w) in steps ==> Late(steps + [step], step.w)
  {
    var more := steps + [step];
    assert more[..|more| - 1] == steps;
    forall w: nat | Late(steps, w) ensures Late(more, w) {
      var i, j :| 0 <= i < j < |steps| && steps[i] == Replace(w) && steps[j] == Raise(w);
      assert more[i] == Replace(w) && more[j] == Raise(w);
    }
    if step.Raise? && Replace(step.w) in steps {
      var i :| 0 <= i < |steps| && steps[i] == Replace(step.w);
      assert more[i] == Replace(step.w) && more[|steps|] == Raise(step.w);
    }
  }

  lemma NameOfItsOwn(steps: seq<Step>, v: nat, w: nat)
    requires Orderly(steps) && v < |Middles(steps)| && w < |Middles(steps)| && v != w && Late(steps, w)
    ensures TempName(Middles(steps)[v]) != TempName(Middles(steps)[w])
  {
    TempNamesApart(Middles(steps)[v], Middles(steps)[w]);
  }

  lemma OrderlyBefore(steps: seq<Step>, step: Step)
    requires Orderly(steps + [step])
    ensures Orderly(steps)
  {
    Grows(steps, step);
    var m, n := Middles(steps), Middles(steps + [step]);
    forall v, w | 0 <= v < |m| && 0 <= w < |m| && v != w && Late(steps, w) ensures m[v] != m[w] {
      assert n[v] == m[v] && n[w] == m[w];
    }
  }

  lemma StepIsPolite(steps: seq<Step>, s: State, step: Step)
    requires Inv(s) && AllTracked(steps, s) && Orderly(steps + [step]) && Enabled(s, step)
    ensures Polite(s, step)
  {
    Grows(steps, step);
    var n := Middles(steps + [step]);
    if step.Begin? {
      forall w | 0 <= w < |s.writers| && s.writers[w].pc.Failing? ensures s.writers[w].pc.tmp != TempName(step.middle) {
        assert Tracked(steps, s, w);
        assert n[w] == Middles(steps)[w] && n[|s.writers|] == step.middle;
        if Late(steps, w) { NameOfItsOwn(steps + [step], |s.writers|, w); }
      }
    }
    if step.Raise? && s.writers[step.w].pc.Replaced? {
      assert Tracked(steps, s, step.w);
      forall v | 0 <= v < |s.writers| && Busy(s.writers[v].pc) ensures s.writers[v].pc.tmp != s.writers[step.w].pc.tmp {
        assert Tracked(steps, s, v);
        NameOfItsOwn(steps + [step], v, step.w);
      }
    }
  }

  /** Nobody removes the file of a writer whose cleanup is due, unless that was interrupted late. */
  lemma FileStays(steps: seq<Step>, s: State, step: Step, w: nat)
    requires Inv(s) && AllTracked(steps, s) && Orderly(steps + [step]) && Enabled(s, step)
    requires w < |s.writers| && Live(s.writers[w].pc) && (step.Replace? || step.Cleanup? ==> step.w != w)
    requires s.writers[w].pc.tmp in s.names && s.names[s.writers[w].pc.tmp] == s.writers[w].pc.file
    ensures var n := s.writers[w].pc.tmp; n in Next(s, step).names && Next(s, step).names[n] == s.names[n]
  {
    Grows(steps, step);
    assert WriterOk(s, w) && Tracked(steps, s, w);
    if step.Replace? || step.Cleanup? {
      assert WriterOk(s, step.w) && Tracked(steps, s, step.w);
      if Late(steps, step.w) { NameOfItsOwn(steps + [step], w, step.w); }
    }
  }

  lemma StepTracks(steps: seq<Step>, s: State, step: Step, w: nat)
    requires Inv(s) && AllTracked(steps, s) && Orderly(steps + [step]) && Enabled(s, step)
    requires w < |Next(s, step).writers|
    ensures Tracked(steps + [step], Next(s, step), w)
  {
    Grows(steps, step);
    if w < |s.writers| {
      assert Tracked(steps, s, w) && WriterOk(s, w);
      var pc, pc' := s.writers[w].pc, Next(s, step).writers[w].pc;
      if pc'.Failing? && pc.tmp in s.names && s.names[pc.tmp] == pc.file { FileStays(steps, s, step, w); }
      assert step in steps + [step];
    }
  }

  lemma {:induction false} Reachable(steps: seq<Step>, s: State)
    requires Orderly(steps) && Run(steps) == [s]
    ensures Inv(s) && AllTracked(steps, s)
  {
    if steps != [] {
      var n := |steps| - 1;
      var before, step := Run(steps[..n])[0], steps[n];
      assert steps == steps[..n] + [step];
      OrderlyBefore(steps[..n], step);
      Reachable(steps[..n], before);
      StepIsPolite(steps[..n], before, step);
      StepKeeps(before, step);
      Grows(steps[..n], step);
      forall w | 0 <= w < |s.writers| ensures Tracked(steps, s, w) { StepTracks(steps[..n], before, step, w); }
    }
  }

  // ---- what readers and callers may rely on ------------------------------------------------

  ghost predicate Given(s: State, text: string) {
    exists w | 0 <= w < |s.writers| :: s.writers[w].content == text
  }

  /**
   In every orderly run, whatever fails or crashes and with no lock held: `plan.json` is absent or the whole
   content of one call of `write`, every reader that finished got the whole content of one call, and the
   files being written have names of their own.
   */
  lemma AtomicPublishing(steps: seq<Step>, s: State)
    requires Orderly(steps) && Run(steps) == [s]
    ensures PLAN in s.names ==> s.names[PLAN] < |s.files| && Given(s, s.files[s.names[PLAN]])
    ensures forall r | 0 <= r < |s.readers| && s.readers[r].Got? :: Given(s, s.readers[r].text)
    ensures forall w | 0 <= w < |s.writers| && Busy(s.writers[w].pc) :: s.writers[w].pc.tmp != PLAN
    ensures forall v, w | 0 <= v < w < |s.writers| && Busy(s.writers[v].pc) && Busy(s.writers[w].pc) ::
              s.writers[v].pc.tmp != s.writers[w].pc.tmp && s.writers[v].pc.file != s.writers[w].pc.file
  {
    Reachable(steps, s);
    assert NameOk(s, PLAN);
    forall r | 0 <= r < |s.readers| && s.readers[r].Got? ensures Given(s, s.readers[r].text) { assert ReaderOk(s, r); }
    forall v, w | 0 <= v < w < |s.writers| && Busy(s.writers[v].pc) && Busy(s.writers[w].pc)
      ensures s.writers[v].pc.tmp != s.writers[w].pc.tmp && s.writers[v].pc.file != s.writers[w].pc.file
    {
      assert WriterOk(s, v) && WriterOk(s, w);
    }
    forall w | 0 <= w < |s.writers| && Busy(s.writers[w].pc) ensures s.writers[w].pc.tmp != PLAN {
      assert WriterOk(s, w);
    }
  }

  /** A call that returned, or that failed and could clean up, has left no temporary file behind. */
  lemma NoLitter(steps: seq<Step>, s: State, w: nat, n: string)
    requires Orderly(steps) && Run(steps) == [s] && w < |s.writers| && n in s.names && n != PLAN
    requires s.writers[w].pc.Failed? || s.writers[w].pc.Returned?
    ensures s.names[n] < |s.owner| && s.owner[s.names[n]] != w
  {
    Reachable(steps, s);
    assert NameOk(s, n);
  }

  /** The replace publishes the caller's own content, and nothing ever unpublishes the plan. */
  lemma PublishedStays(steps: seq<Step>, s: State, step: Step)
    requires Orderly(steps) && Run(steps) == [s] && Enabled(s, step)
    ensures PLAN in s.names ==> PLAN in Next(s, step).names
    ensures step.Replace? ==>
              var s' := Next(s, step);
              PLAN in s'.names && s'.names[PLAN] < |s'.files| && s'.files[s'.names[PLAN]] == s.writers[step.w].content
    ensures !step.Replace? && PLAN in s.names ==> Next(s, step).names[PLAN] == s.names[PLAN]
  {
    Reachable(steps, s);
    if step.Begin? { TempNamesApart(step.middle, step.middle); }
    if step.Replace? { assert WriterOk(s, step.w); }
    if step.Cleanup? { assert WriterOk(s, step.w); }
  }

  // ---- without that condition --------------------------------------------------------------

  lemma Extended(steps: seq<Step>, s: State, step: Step)
    requires Run(steps) == [s] && Enabled(s, step)
    ensures Run(steps + [step]) == [Next(s, step)]
  {
    assert (steps + [step])[..|steps|] == steps;
  }

  lemma {:induction false} OneCall(tail: seq<Step>, c: string, m: string)
    requires forall i | 0 <= i < |tail| :: !tail[i].Begin?
    ensures Middles([Begin(c, m)] + tail) == [m]
  {
    var steps := [Begin(c, m)] + tail;
    if tail == [] {
      assert steps[..0] == [];
    } else {
      OneCall(tail[..|tail| - 1], c, m);
      assert steps[..|steps| - 1] == [Begin(c, m)] + tail[..|tail| - 1];
    }
  }

  lemma OneCallCloses(c: string, m: string) returns (steps: seq<Step>, s: State)
    ensures steps == [Begin(c, m), Append(0, |c|), Close(0)]
    ensures Run(steps) == [s] && s == State(map[TempName(m) := 0], [c], [Writer(c, Closed(TempName(m), 0))], [], [0])
  {
    var s1 := State(map[TempName(m) := 0], [""], [Writer(c, Writing(TempName(m), 0, 0))], [], [0]);
    Extended([], EMPTY, Begin(c, m));
    assert Next(EMPTY, Begin(c, m)) == s1;
    var s2 := Next(s1, Append(0, |c|));
    Extended([] + [Begin(c, m)], s1, Append(0, |c|));
    assert "" + c[0..0 + |c|] == c;
    assert s2.files == [c];
    s := Next(s2, Close(0));
    Extended([] + [Begin(c, m)] + [Append(0, |c|)], s2, Close(0));
    steps := [] + [Begin(c, m)] + [Append(0, |c|)] + [Close(0)];
  }

  /** One call writes, publishes and is interrupted before it returns; its name is free again. */
  lemma InterruptedAfterReplace(c: string, m: string) returns (steps: seq<Step>, s: State)
    ensures steps == [Begin(c, m), Append(0, |c|), Close(0), Replace(0), Raise(0)] && Run(steps) == [s]
    ensures TempName(m) !in s.names && s.writers == [Writer(c, Failing(TempName(m), 0))]
  {
    TempNamesApart(m, m);
    var first, s3 := OneCallCloses(c, m);
    var s4 := Next(s3, Replace(0));
    Extended(first, s3, Replace(0));
    s := Next(s4, Raise(0));
    Extended(first + [Replace(0)], s4, Raise(0));
    steps := first + [Replace(0)] + [Raise(0)];
  }

  /** `plan.json` holds what no call was given. */
  ghost predicate Torn(s: State) {
    PLAN in s.names && s.names[PLAN] < |s.files| && !Given(s, s.files[s.names[PLAN]])
  }

  /** A cleanup of `w` is due that will remove the file `v` is writing. */
  ghost predicate Threat(s: State, v: nat, w: nat, m: string) {
    && v < |s.writers| && w < |s.writers| && s.writers[w].pc.Failing? && Busy(s.writers[v].pc)
    && s.writers[v].pc.tmp == s.writers[w].pc.tmp == TempName(m) && TempName(m) in s.names
    && WriterOk(s, v)
  }

  ghost predicate ContentsKept(s: State, t: State) {
    |s.writers| <= |t.writers| && forall u | 0 <= u < |s.writers| :: t.writers[u].content == s.writers[u].content
  }

  lemma {:induction false} LongerThanAll(writers: seq<Writer>) returns (p: string)
    ensures forall w | 0 <= w < |writers| :: |writers[w].content| < |p|
  {
    if writers == [] {
      p := "";
    } else {
      var q := LongerThanAll(writers[1..]);
      p := q + writers[0].content + "x";
      forall w | 0 <= w < |writers| ensures |writers[w].content| < |p| {
        if w > 0 { assert writers[1..][w - 1] == writers[w]; }
      }
    }
  }

  /** The cleanup frees the name, a new call takes it and writes `p` so far. */
  lemma NameTakenOver(
      steps: seq<Step>, s: State, v: nat, w: nat, m: string, p: string) returns (more: seq<Step>, t: State)
    requires Run(steps) == [s] && Threat(s, v, w, m)
    ensures Run(steps + more) == [t] && Hijacked(t, v, |s.files|)
    ensures |t.files| == |s.files| + 1 && t.files[|s.files|] == p && |t.writers| == |s.writers| + 1
    ensures ContentsKept(s, t) && t.writers[|s.writers|].content == p + "x"
  {
    var u, c := |s.writers|, p + "x";
    Extended(steps, s, Cleanup(w));
    var s1 := Next(s, Cleanup(w));
    Extended(steps + [Cleanup(w)], s1, Begin(c, m));
    var s2 := Next(s1, Begin(c, m));
    Extended(steps + [Cleanup(w)] + [Begin(c, m)], s2, Append(u, |p|));
    t := Next(s2, Append(u, |p|));
    assert "" + c[0..0 + |p|] == p;
    assert s2.names[TempName(m)] == |s.files|;
    more := [Cleanup(w), Begin(c, m), Append(u, |p|)];
    assert steps + more == steps + [Cleanup(w)] + [Begin(c, m)] + [Append(u, |p|)];
  }

  /** The name of a writer at work stands for a file `f` that is not its own. */
  ghost predicate Hijacked(s: State, v: nat, f: nat) {
    && v < |s.writers| && Busy(s.writers[v].pc)
    && s.writers[v].pc.file < |s.files| && s.writers[v].pc.file != f < |s.files|
    && (s.writers[v].pc.Writing? ==> s.writers[v].pc.done <= |s.writers[v].content|)
    && s.writers[v].pc.tmp in s.names && s.names[s.writers[v].pc.tmp] == f
  }

  /** The writer whose name was taken over finishes and publishes the other's file. */
  lemma OtherPublished(steps: seq<Step>, s: State, v: nat, f: nat) returns (more: seq<Step>, t: State)
    requires Run(steps) == [s] && Hijacked(s, v, f)
    ensures Run(steps + more) == [t] && PLAN in t.names && t.names[PLAN] == f
    ensures |t.files| == |s.files| && t.files[f] == s.files[f] && |t.writers| == |s.writers| && ContentsKept(s, t)
  {
    if s.writers[v].pc.Closed? {
      Extended(steps, s, Replace(v));
      more, t := [Replace(v)], Next(s, Replace(v));
    } else {
      var rest := |s.writers[v].content| - s.writers[v].pc.done;
      Extended(steps, s, Append(v, rest));
      var s1 := Next(s, Append(v, rest));
      Extended(steps + [Append(v, rest)], s1, Close(v));
      var s2 := Next(s1, Close(v));
      Extended(steps + [Append(v, rest)] + [Close(v)], s2, Replace(v));
      more, t := [Append(v, rest), Close(v), Replace(v)], Next(s2, Replace(v));
      assert steps + more == steps + [Append(v, rest)] + [Close(v)] + [Replace(v)];
    }
  }

  lemma ThreatTears(steps: seq<Step>, s: State, v: nat, w: nat, m: string) returns (more: seq<Step>, t: State)
    requires Run(steps) == [s] && Threat(s, v, w, m)
    ensures Run(steps + more) == [t] && Torn(t)
  {
    var p := LongerThanAll(s.writers);
    var first, s1 := NameTakenOver(steps, s, v, w, m, p);
    var second;
    second, t := OtherPublished(steps + first, s1, v, |s.files|);
    more := first + second;
    Regroup(steps, first, second);
    NobodyGave(s, s1, t, p);
  }

  lemma Regroup(a: seq<Step>, b: seq<Step>, c: seq<Step>)
    ensures a + (b + c) == a + b + c
  {
  }

  lemma NobodyGave(s: State, s1: State, t: State, p: string)
    requires forall u | 0 <= u < |s.writers| :: |s.writers[u].content| < |p|
    requires ContentsKept(s, s1) && |s1.writers| == |s.writers| + 1 && s1.writers[|s.writers|].content == p + "x"
    requires ContentsKept(s1, t) && |t.writers| == |s1.writers|
    ensures !Given(t, p)
  {
    forall u | 0 <= u < |t.writers| ensures t.writers[u].content != p {
      assert t.writers[u].content == s1.writers[u].content;
      if u < |s.writers| { assert s1.writers[u].content == s.writers[u].content; }
    }
  }

  /** The condition on a step is needed: after any other step, some calls more, and a fragment is published. */
  lemma ImpoliteStepTears(steps: seq<Step>, s: State, step: Step) returns (more: seq<Step>, t: State)
    requires Orderly(steps) && Run(steps) == [s] && Enabled(s, step) && !Polite(s, step)
    ensures Run(steps + [step] + more) == [t] && Torn(t)
  {
    Reachable(steps, s);
    Extended(steps, s, step);
    var s' := Next(s, step);
    var v, w, m;
    if step.Begin? {
      w :| 0 <= w < |s.writers| && s.writers[w].pc.Failing? && s.writers[w].pc.tmp == TempName(step.middle);
      v, m := |s.writers|, step.middle;
    } else {
      v :| 0 <= v < |s.writers| && Busy(s.writers[v].pc) && s.writers[v].pc.tmp == s.writers[step.w].pc.tmp;
      w, m := step.w, Middles(steps)[v];
      assert WriterOk(s, v) && Tracked(steps, s, v);
    }
    more, t := ThreatTears(steps + [step], s', v, w, m);
  }

  /**
   So names alone do not keep writers apart: with one call interrupted between its replace and its return, and
   its name handed out again before its cleanup, `plan.json` comes to hold what nobody wrote.
   */
  lemma ReusedNamePublishesFragment(c: string, m: string) returns (steps: seq<Step>, s: State)
    ensures Run(steps) == [s] && !Orderly(steps) && Torn(s)
  {
    var first, s1 := InterruptedAfterReplace(c, m);
    OneCall(first[1..], c, m);
    assert first == [Begin(c, m)] + first[1..];
    OrderlyWhen(first);
    assert s1.writers[0].pc.Failing?;
    var more;
    more, s := ImpoliteStepTears(first, s1, Begin(c, m));
    steps := first + [Begin(c, m)] + more;
    if Orderly(steps) { AtomicPublishing(steps, s); }
  }
}
