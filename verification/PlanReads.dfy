/**
 What a reader of `plan.json` gets: the content of the last replace before it opened the file.
 */
module PlanReads {
  import opened Options
  import opened PlanFiles

  /** What each call of `write` was given, call by call. */
  function Contents(steps: seq<Step>): seq<string> {
    if steps == [] then []
    else
      var last := steps[|steps| - 1];
      Contents(steps[..|steps| - 1]) + if last.Begin? then [last.content] else []
  }

  /** What the last replace published, if there was one. */
  function Published(steps: seq<Step>): Option<string> {
    if steps == [] then None
    else
      var front, last := steps[..|steps| - 1], steps[|steps| - 1];
      if last.Replace? && last.w < |Contents(front)| then Some(Contents(front)[last.w]) else Published(front)
  }

  /** What was published when each reader opened the file, reader by reader. */
  function Offered(steps: seq<Step>): seq<Option<string>> {
    if steps == [] then []
    else
      var front := steps[..|steps| - 1];
      Offered(front) + if steps[|steps| - 1].Open? then [Published(front)] else []
  }

  lemma Grown(steps: seq<Step>, step: Step)
    ensures Contents(steps + [step]) == Contents(steps) + if step.Begin? then [step.content] else []
    ensures Published(steps + [step]) ==
            if step.Replace? && step.w < |Contents(steps)| then Some(Contents(steps)[step.w]) else Published(steps)
    ensures Offered(steps + [step]) == Offered(steps) + if step.Open? then [Published(steps)] else []
  {
    assert (steps + [step])[..|steps|] == steps;
  }

  // ---- files and calls ---------------------------------------------------------------------

  /** The file that `plan.json` stands for holds what was published last. */
  predicate Serves(s: State, published: Option<string>) {
    if PLAN in s.names then s.names[PLAN] < |s.files| && published == Some(s.files[s.names[PLAN]])
    else published == None
  }

  predicate CallsOf(s: State, given: seq<string>) {
    |given| == |s.writers| && forall w | 0 <= w < |s.writers| :: s.writers[w].content == given[w]
  }

  predicate Reads(s: State, r: nat, offered: Option<string>)
    requires r < |s.readers|
  {
    match s.readers[r]
    case Missing => offered == None
    case Got(text) => offered == Some(text)
    case Reading(f, _) => f < |s.files| && offered == Some(s.files[f])
  }

  predicate ReadersOf(s: State, offered: seq<Option<string>>) {
    |offered| == |s.readers| && forall r | 0 <= r < |s.readers| :: Reads(s, r, offered[r])
  }

  /** A file that is published, or read, is never written to again. */
  lemma FileKept(s: State, step: Step, f: nat)
    requires Inv(s) && Enabled(s, step) && Complete(s, f)
    ensures f < |s.files| && f < |Next(s, step).files| && Next(s, step).files[f] == s.files[f]
  {
    if step.Append? { assert WriterOk(s, step.w); }
  }

  lemma StepCalls(s: State, step: Step, given: seq<string>)
    requires CallsOf(s, given) && Enabled(s, step)
    ensures CallsOf(Next(s, step), given + if step.Begin? then [step.content] else [])
  {
  }

  lemma StepServes(steps: seq<Step>, s: State, step: Step)
    requires Orderly(steps) && Run(steps) == [s] && Enabled(s, step)
    requires CallsOf(s, Contents(steps)) && Serves(s, Published(steps))
    ensures Serves(Next(s, step), Published(steps + [step]))
  {
    Grown(steps, step);
    Reachable(steps, s);
    PublishedStays(steps, s, step);
    if step.Replace? {
      assert WriterOk(s, step.w);
    } else if PLAN in s.names {
      assert NameOk(s, PLAN);
      FileKept(s, step, s.names[PLAN]);
    } else {
      NotPublished(s, step);
    }
  }

  lemma NotPublished(s: State, step: Step)
    requires Enabled(s, step) && !step.Replace? && PLAN !in s.names
    ensures PLAN !in Next(s, step).names
  {
    if step.Begin? { TempNamesApart(step.middle, step.middle); }
  }

  lemma OldReader(s: State, step: Step, r: nat, offered: Option<string>)
    requires Inv(s) && Enabled(s, step) && r < |s.readers| && Reads(s, r, offered)
    ensures r < |Next(s, step).readers| && Reads(Next(s, step), r, offered)
  {
    assert ReaderOk(s, r);
    if s.readers[r].Reading? {
      FileKept(s, step, s.readers[r].file);
      if step.Read? && step.r == r { ReadOn(s, step.r, step.k); }
    }
  }

  /** A reader that is at the end of its file has all of it. */
  lemma ReadOn(s: State, r: nat, k: nat)
    requires Inv(s) && Enabled(s, Read(r, k))
    ensures var x := Next(s, Read(r, k)).readers[r];
            if x.Got? then x.text == s.files[s.readers[r].file] else x.Reading? && x.file == s.readers[r].file
  {
    assert ReaderOk(s, r);
  }

  lemma StepReaders(s: State, step: Step, offered: seq<Option<string>>, published: Option<string>)
    requires Inv(s) && Enabled(s, step) && ReadersOf(s, offered) && Serves(s, published)
    ensures ReadersOf(Next(s, step), offered + if step.Open? then [published] else [])
  {
    var s' := Next(s, step);
    forall r | 0 <= r < |s.readers| ensures Reads(s', r, offered[r]) { OldReader(s, step, r, offered[r]); }
    assert |s'.readers| == |s.readers| + if step.Open? then 1 else 0;
  }

  lemma {:induction false} RunServes(steps: seq<Step>, s: State)
    requires Orderly(steps) && Run(steps) == [s]
    ensures CallsOf(s, Contents(steps)) && Serves(s, Published(steps)) && ReadersOf(s, Offered(steps))
  {
    if steps != [] {
      var n := |steps| - 1;
      var front, step, before := steps[..n], steps[n], Run(steps[..n])[0];
      assert steps == front + [step];
      OrderlyBefore(front, step);
      RunServes(front, before);
      Reachable(front, before);
      Grown(front, step);
      StepCalls(before, step, Contents(front));
      StepServes(front, before, step);
      StepReaders(before, step, Offered(front), Published(front));
    }
  }

  /**
   In every orderly run, whatever fails or crashes: `plan.json` exists exactly if some call has replaced it, and then
   holds what the last such call was given; a reader finds no file exactly if there was none when it opened, and
   otherwise gets what was published then, whatever is published while it reads.
   */
  lemma ReadsLastPublished(steps: seq<Step>, s: State)
    requires Orderly(steps) && Run(steps) == [s]
    ensures if PLAN in s.names then s.names[PLAN] < |s.files| && Published(steps) == Some(s.files[s.names[PLAN]])
            else Published(steps) == None
    ensures |s.readers| == |Offered(steps)|
    ensures forall r | 0 <= r < |s.readers| ::
              && (s.readers[r].Missing? <==> Offered(steps)[r] == None)
              && (s.readers[r].Got? ==> Offered(steps)[r] == Some(s.readers[r].text))
  {
    RunServes(steps, s);
    forall r | 0 <= r < |s.readers|
      ensures s.readers[r].Missing? <==> Offered(steps)[r] == None
      ensures s.readers[r].Got? ==> Offered(steps)[r] == Some(s.readers[r].text)
    {
      assert Reads(s, r, Offered(steps)[r]);
    }
  }

  // ---- reading and writing can always be finished ------------------------------------------

  /** A reader that has opened the file can read it to its end, and then has all of it. */
  lemma ReadFinishes(steps: seq<Step>, s: State, r: nat) returns (more: seq<Step>, t: State)
    requires Orderly(steps) && Run(steps) == [s] && r < |s.readers| && s.readers[r].Reading?
    ensures forall i | 0 <= i < |more| :: more[i].Read? && more[i].r == r
    ensures Run(steps + more) == [t] && r < |t.readers| && t.readers[r].Got?
    ensures s.readers[r].file < |s.files| && t.readers[r].text == s.files[s.readers[r].file]
  {
    Reachable(steps, s);
    assert ReaderOk(s, r);
    var file := s.files[s.readers[r].file];
    var rest := |file| - |s.readers[r].got|;
    Extended(steps, s, Read(r, rest));
    var s1 := Next(s, Read(r, rest));
    if rest == 0 {
      more, t := [Read(r, 0)], s1;
    } else {
      assert s1.readers[r].got == file;
      Extended(steps + [Read(r, rest)], s1, Read(r, 0));
      more, t := [Read(r, rest), Read(r, 0)], Next(s1, Read(r, 0));
      assert steps + more == steps + [Read(r, rest)] + [Read(r, 0)];
    }
  }

  lemma Closes(steps: seq<Step>, s: State, w: nat) returns (more: seq<Step>, t: State)
    requires Inv(s) && Run(steps) == [s] && w < |s.writers| && s.writers[w].pc.Writing?
    ensures forall i | 0 <= i < |more| :: (more[i].Append? || more[i].Close?) && more[i].w == w
    ensures Run(steps + more) == [t] && w < |t.writers| && t.writers[w].content == s.writers[w].content
    ensures t.writers[w].pc == Closed(s.writers[w].pc.tmp, s.writers[w].pc.file) && Inv(t)
  {
    assert WriterOk(s, w);
    var rest := |s.writers[w].content| - s.writers[w].pc.done;
    Extended(steps, s, Append(w, rest));
    StepKeeps(s, Append(w, rest));
    var s1 := Next(s, Append(w, rest));
    Extended(steps + [Append(w, rest)], s1, Close(w));
    StepKeeps(s1, Close(w));
    more, t := [Append(w, rest), Close(w)], Next(s1, Close(w));
    assert steps + more == steps + [Append(w, rest)] + [Close(w)];
  }

  lemma Publishes(steps: seq<Step>, s: State, w: nat) returns (more: seq<Step>, t: State)
    requires Inv(s) && Run(steps) == [s] && w < |s.writers| && s.writers[w].pc.Closed?
    ensures more == [Replace(w), Return(w)]
    ensures Run(steps + more) == [t] && w < |t.writers| && t.writers[w].pc.Returned?
    ensures PLAN in t.names && t.names[PLAN] < |t.files| && t.files[t.names[PLAN]] == s.writers[w].content
  {
    assert WriterOk(s, w);
    Extended(steps, s, Replace(w));
    var s1 := Next(s, Replace(w));
    Extended(steps + [Replace(w)], s1, Return(w));
    more, t := [Replace(w), Return(w)], Next(s1, Return(w));
    assert steps + more == steps + [Replace(w)] + [Return(w)];
  }

  /** A call that has made its temporary file can write it, publish it and return, whatever others have left behind. */
  lemma WriteFinishes(steps: seq<Step>, s: State, w: nat) returns (more: seq<Step>, t: State)
    requires Orderly(steps) && Run(steps) == [s] && w < |s.writers| && s.writers[w].pc.Writing?
    ensures Run(steps + more) == [t] && w < |t.writers| && t.writers[w].pc.Returned?
    ensures PLAN in t.names && t.names[PLAN] < |t.files| && t.files[t.names[PLAN]] == s.writers[w].content
  {
    Reachable(steps, s);
    var first, s1 := Closes(steps, s, w);
    var second;
    second, t := Publishes(steps + first, s1, w);
    more := first + second;
    Regroup(steps, first, second);
  }
}
