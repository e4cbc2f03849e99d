/**
 Where each text of a step stands in a rendered trace, and that steps with the same number keep their order.
 */
module TraceSections {
  import opened Options
  import opened Decimals
  import opened TraceText
  import opened TraceBlocks
  import opened TraceRendering

  // ---- the sections ------------------------------------------------------------------------

  function Flat(lists: seq<seq<string>>): seq<string> {
    if lists == [] then [] else Flat(lists[..|lists| - 1]) + lists[|lists| - 1]
  }

  /** In lists of eleven, one behind the other, each item is found by its list and its place there. */
  lemma {:induction false} FlatAt(lists: seq<seq<string>>, i: nat, j: nat)
    requires i < |lists| && j < 11 && forall k | 0 <= k < |lists| :: |lists[k]| == 11
    ensures |Flat(lists)| == 11 * |lists| && Flat(lists)[11 * i + j] == lists[i][j]
  {
    var n := |lists| - 1;
    if i < n {
      FlatAt(lists[..n], i, j);
    } else if n > 0 {
      FlatAt(lists[..n], 0, 0);
    }
  }

  /** What a section says at its eleven places. */
  function Wanted(x: Step, j: nat): string {
    match j
    case 0 => "\n### Step " + Shown(x.number)
    case 1 => "#### Action Agent"
    case 2 => "- **Thought**: " + OrNone(x.thought)
    case 3 => "- **Action**: " + OrNone(x.action)
    case 4 => "- **Description**: " + OrNone(x.description)
    case 5 => "#### Reflection Agent"
    case 6 => "- **Outcome**: " + OrNone(x.outcome)
    case 7 => "- **What Happened**: " + OrNone(x.happened)
    case 8 => "- **Progress**: " + OrNone(x.progress)
    case 9 => "- **Next Goal**: " + OrNone(x.goal)
    case _ => "#### Screenshot: " + OrNone(x.screenshot)
  }

  function OrNone(text: string): string {
    if text == "" then "None" else text
  }

  /** The eleven parts from `b` on are the section of the step. */
  predicate SectionShows(parts: seq<string>, b: nat, x: Step) {
    b + 11 <= |parts| && forall j | 0 <= j < 11 :: parts[b + j] == Wanted(x, j)
  }

  predicate IsSection(section: seq<string>, x: Step) {
    |section| == 11 && forall j | 0 <= j < 11 :: section[j] == Wanted(x, j)
  }

  lemma Headings(x: Step)
    ensures ACTION == "#### Action Agent" && REFLECTION == "#### Reflection Agent"
    ensures "\n" + Header(x.number) == "\n### Step " + Shown(x.number)
    ensures SHOT + " " == "#### Screenshot: "
  {
  }

  lemma SectionIs(x: Step)
    ensures IsSection(Section(x), x)
  {
    forall j | 0 <= j < 11 ensures |Section(x)| == 11 && Section(x)[j] == Wanted(x, j) {
      FieldIs(x, j);
    }
  }

  lemma FieldIs(x: Step, j: nat)
    requires j < 11
    ensures |Section(x)| == 11 && Section(x)[j] == Wanted(x, j)
  {
    Headings(x);
  }

  predicate AreSections(lists: seq<seq<string>>, steps: seq<Step>) {
    |lists| == |steps| && forall i | 0 <= i < |lists| :: IsSection(lists[i], steps[i])
  }

  lemma FlatGrow(lists: seq<seq<string>>, l: seq<string>)
    ensures Flat(lists + [l]) == Flat(lists) + l
  {
    assert (lists + [l])[..|lists|] == lists;
  }

  /** `Sections` puts one list for each step behind the other. */
  lemma {:induction false} SectionsMade(steps: seq<Step>) returns (lists: seq<seq<string>>)
    ensures |lists| == |steps| && Sections(steps) == Flat(lists)
    ensures forall i | 0 <= i < |lists| :: lists[i] == Section(steps[i])
  {
    lists := [];
    if steps != [] {
      var before := SectionsMade(steps[..|steps| - 1]);
      FlatGrow(before, Section(steps[|steps| - 1]));
      lists := before + [Section(steps[|steps| - 1])];
    }
  }

  /** The parts of the whole trace. */
  function Parts(summary: seq<string>, steps: seq<Step>): seq<string> {
    Intro(summary) + Sections(Sorted(steps)) + [END]
  }

  /**
   The rendered trace is its parts, one below the other: the summary, the title and five lines of explanation, then
   eleven parts for each step in the order of step numbers, each text behind its own title, then the end.
   */
  lemma RenderShows(summary: seq<string>, steps: seq<Step>)
    ensures var parts, n := Parts(summary, steps), |summary|;
            && Render(summary, steps) == Join(parts)
            && |Sorted(steps)| == |steps| && |parts| == n + 6 + 11 * |steps| + 1
            && parts[..n] == summary && parts[n] == "\n\n## Execution Trace"
            && parts[n + 6 + 11 * |steps|] == "\n## End of Trace"
            && forall i | 0 <= i < |steps| :: SectionShows(parts, n + 6 + 11 * i, Sorted(steps)[i])
  {
    SortedOrdered(steps);
    PartsShow(summary, Sorted(steps), Intro(summary), Sections(Sorted(steps)));
    FrameShows(summary, Sections(Sorted(steps)));
  }

  lemma PartsShow(summary: seq<string>, sorted: seq<Step>, front: seq<string>, body: seq<string>)
    requires body == Sections(sorted)
    ensures |body| == 11 * |sorted|
    ensures forall i | 0 <= i < |sorted| :: SectionShows(front + body + [END], |front| + 11 * i, sorted[i])
  {
    var lists := SectionsMade(sorted);
    forall i | 0 <= i < |lists| ensures IsSection(lists[i], sorted[i]) { SectionIs(sorted[i]); }
    ListsShow(front, lists, [END], sorted);
  }

  lemma ListsShow(front: seq<string>, lists: seq<seq<string>>, back: seq<string>, sorted: seq<Step>)
    requires AreSections(lists, sorted)
    ensures |Flat(lists)| == 11 * |lists|
    ensures forall i | 0 <= i < |sorted| :: SectionShows(front + Flat(lists) + back, |front| + 11 * i, sorted[i])
  {
    if lists != [] { FlatAt(lists, 0, 0); }
    forall i | 0 <= i < |sorted| ensures SectionShows(front + Flat(lists) + back, |front| + 11 * i, sorted[i]) {
      SectionIn(front, lists, back, i, sorted[i]);
    }
  }

  lemma SectionIn(front: seq<string>, lists: seq<seq<string>>, back: seq<string>, i: nat, x: Step)
    requires i < |lists| && (forall k | 0 <= k < |lists| :: |lists[k]| == 11) && IsSection(lists[i], x)
    ensures |Flat(lists)| == 11 * |lists|
    ensures SectionShows(front + Flat(lists) + back, |front| + 11 * i, x)
  {
    var parts, b := front + Flat(lists) + back, |front| + 11 * i;
    FlatAt(lists, i, 0);
    forall j | 0 <= j < 11 ensures parts[b + j] == lists[i][j] {
      FlatAt(lists, i, j);
      assert parts[b + j] == Flat(lists)[11 * i + j];
    }
    forall j | 0 <= j < 11 ensures parts[b + j] == Wanted(x, j) { assert lists[i][j] == Wanted(x, j); }
  }

  lemma FrameShows(summary: seq<string>, body: seq<string>)
    ensures var parts, n := Intro(summary) + body + [END], |summary|;
            && |Intro(summary)| == n + 6 && |parts| == n + 6 + |body| + 1
            && parts[..n] == summary && parts[n] == "\n\n## Execution Trace"
            && parts[n + 6 + |body|] == "\n## End of Trace"
  {
    assert TITLE == "\n\n## Execution Trace" && END == "\n## End of Trace";
  }

  // ---- the order of steps ------------------------------------------------------------------

  /** The steps with a number, in order. */
  function WithNumber(steps: seq<Step>, k: int): seq<Step> {
    if steps == [] then []
    else
      var n := |steps| - 1;
      WithNumber(steps[..n], k) + if steps[n].number == k then [steps[n]] else []
  }

  lemma WithNumberGrow(steps: seq<Step>, x: Step, k: int)
    ensures WithNumber(steps + [x], k) == WithNumber(steps, k) + if x.number == k then [x] else []
  {
    assert (steps + [x])[..|steps|] == steps;
  }

  lemma {:induction false} InsertStable(steps: seq<Step>, x: Step, k: int)
    ensures WithNumber(Insert(steps, x), k) == WithNumber(steps, k) + if x.number == k then [x] else []
  {
    if steps == [] || steps[|steps| - 1].number <= x.number {
      WithNumberGrow(steps, x, k);
    } else {
      var front, last := steps[..|steps| - 1], steps[|steps| - 1];
      InsertStable(front, x, k);
      WithNumberGrow(Insert(front, x), last, k);
      if x.number == k {
        assert WithNumber(front, k) + [x] + [] == WithNumber(front, k) + [] + [x];
      } else {
        assert WithNumber(front, k) + [] == WithNumber(front, k);
      }
    }
  }

  /** Sorting orders the steps by number, loses none, and keeps those with the same number in their order. */
  lemma {:induction false} SortedStable(steps: seq<Step>, k: int)
    ensures forall i, j | 0 <= i < j < |Sorted(steps)| :: Sorted(steps)[i].number <= Sorted(steps)[j].number
    ensures multiset(Sorted(steps)) == multiset(steps)
    ensures WithNumber(Sorted(steps), k) == WithNumber(steps, k)
  {
    SortedOrdered(steps);
    if steps != [] {
      SortedStable(steps[..|steps| - 1], k);
      InsertStable(Sorted(steps[..|steps| - 1]), steps[|steps| - 1], k);
    }
  }
}
