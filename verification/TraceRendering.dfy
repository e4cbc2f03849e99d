/**
 `TrajectoryData.build_feedback_string` and `_ordered_screenshot_inputs` of
 core/app/experiences/runner.py, and what the block parser makes of the rendered trace.
 */
module TraceRendering {
  import opened Options
  import opened Decimals
  import opened TraceText
  import opened TraceBlocks

  /**
   A step with the texts of its two agents as they are displayed, its screenshot ("" if it has none) and
   the step number the screenshot says it belongs to.
   */
  datatype Step = Step(number: int, thought: string, action: string, description: string,
                       outcome: string, happened: string, progress: string, goal: string,
                       screenshot: string, mapped: Option<int>)

  // ---- sorting -----------------------------------------------------------------------------

  function Insert(steps: seq<Step>, x: Step): seq<Step> {
    if steps == [] || steps[|steps| - 1].number <= x.number then steps + [x]
    else Insert(steps[..|steps| - 1], x) + [steps[|steps| - 1]]
  }

  /** `sorted(steps, key=step_number)`, which is stable. */
  function Sorted(steps: seq<Step>): seq<Step> {
    if steps == [] then [] else Insert(Sorted(steps[..|steps| - 1]), steps[|steps| - 1])
  }

  predicate Ordered(steps: seq<Step>) {
    forall i, j | 0 <= i < j < |steps| :: steps[i].number <= steps[j].number
  }

  lemma {:induction false} InsertPermutes(steps: seq<Step>, x: Step)
    ensures multiset(Insert(steps, x)) == multiset(steps) + multiset{x} && |Insert(steps, x)| == |steps| + 1
  {
    if steps != [] && steps[|steps| - 1].number > x.number {
      var front, last := steps[..|steps| - 1], steps[|steps| - 1];
      InsertPermutes(front, x);
      assert steps == front + [last];
    }
  }

  predicate AtMost(steps: seq<Step>, b: int) {
    forall i | 0 <= i < |steps| :: steps[i].number <= b
  }

  lemma {:induction false} InsertAtMost(steps: seq<Step>, x: Step, b: int)
    requires AtMost(steps, b) && x.number <= b
    ensures AtMost(Insert(steps, x), b)
  {
    if steps != [] && steps[|steps| - 1].number > x.number {
      assert AtMost(steps[..|steps| - 1], b);
      InsertAtMost(steps[..|steps| - 1], x, b);
    }
  }

  lemma {:induction false} InsertOrdered(steps: seq<Step>, x: Step)
    requires Ordered(steps)
    ensures Ordered(Insert(steps, x))
  {
    if steps != [] && steps[|steps| - 1].number > x.number {
      var front, last := steps[..|steps| - 1], steps[|steps| - 1];
      InsertOrdered(front, x);
      InsertAtMost(front, x, last.number);
    }
  }

  lemma {:induction false} SortedOrdered(steps: seq<Step>)
    ensures Ordered(Sorted(steps)) && multiset(Sorted(steps)) == multiset(steps) && |Sorted(steps)| == |steps|
  {
    if steps != [] {
      SortedOrdered(steps[..|steps| - 1]);
      InsertOrdered(Sorted(steps[..|steps| - 1]), steps[|steps| - 1]);
      InsertPermutes(Sorted(steps[..|steps| - 1]), steps[|steps| - 1]);
      assert steps == steps[..|steps| - 1] + [steps[|steps| - 1]];
    }
  }

  // ---- rendering ---------------------------------------------------------------------------

  function Display(text: string): string {
    if text == "" then "None" else text
  }

  function Titled(hashes: string, title: string): string {
    hashes + " " + title
  }

  const ACTION := Titled("####", "Action Agent")
  const REFLECTION := Titled("####", "Reflection Agent")
  const TITLE := "\n\n" + Titled("##", "Execution Trace")
  const END := "\n" + Titled("##", "End of Trace")
  const SHOT := "#### Screenshot:"

  function Header(n: int): string {
    "### Step " + Shown(n)
  }

  function ShotPart(x: Step): string {
    SHOT + " " + Display(x.screenshot)
  }

  /** The lines of explanation, which all start with `>`. */
  function Explanation(i: nat): string
    requires i < 5
  {
    match i
    case 0 => "> **Trace " + "Explanation**"
    case 1 => "> The workflow " + "trajectory is " + "organized into " + "two sub-agents:"
    case 2 => "> - **Action " + "Agent**: captures " + "the step thought, " + "chosen action, " + "and action " +
      "description"
    case 3 => "> - **Reflection " + "Agent**: captures " + "the observed " + "outcome, what " + "happened, progress, " +
      "and next goal"
    case 4 => "> Each step also " + "includes the " + "corresponding " + "screenshot for " + "visual context."
  }

  const EXPLANATION: seq<string> :=
    ["\n" + Explanation(0), Explanation(1), Explanation(2), Explanation(3), Explanation(4)]

  /** The parts between a step's header and its screenshot line. */
  function Fields(x: Step): seq<string> {
    [ACTION,
     "- **Thought**: " + Display(x.thought),
     "- **Action**: " + Display(x.action),
     "- **Description**: " + Display(x.description),
     REFLECTION,
     "- **Outcome**: " + Display(x.outcome),
     "- **What Happened**: " + Display(x.happened),
     "- **Progress**: " + Display(x.progress),
     "- **Next Goal**: " + Display(x.goal)]
  }

  function Section(x: Step): seq<string> {
    ["\n" + Header(x.number)] + Fields(x) + [ShotPart(x)]
  }

  function Sections(steps: seq<Step>): seq<string> {
    if steps == [] then [] else Sections(steps[..|steps| - 1]) + Section(steps[|steps| - 1])
  }

  /** What comes before the first step; `summary` holds the parts about the task as a whole. */
  function Intro(summary: seq<string>): seq<string> {
    summary + [TITLE] + EXPLANATION
  }

  /** The feedback string of a trajectory with steps. */
  function Render(summary: seq<string>, steps: seq<Step>): string {
    Join(Intro(summary) + Sections(Sorted(steps)) + [END])
  }

  lemma SectionsGrow(intro: seq<string>, steps: seq<Step>, i: nat)
    requires i < |steps|
    ensures intro + Sections(steps[..i + 1]) == intro + Sections(steps[..i]) + Section(steps[i])
  {
    assert steps[..i + 1][..i] == steps[..i];
  }

  /** `build_feedback_string` for a trajectory with steps. */
  method BuildFeedback(summary: seq<string>, steps: seq<Step>) returns (feedback: string)
    ensures feedback == Render(summary, steps)
  {
    var intro := Intro(summary);
    var sorted := Sorted(steps);
    var parts, i := intro, 0;
    assert intro + Sections(sorted[..0]) == intro;
    while i < |sorted|
      invariant 0 <= i <= |sorted| && parts == intro + Sections(sorted[..i])
    {
      SectionsGrow(intro, sorted, i);
      parts := parts + Section(sorted[i]);
      i := i + 1;
    }
    assert sorted[..|sorted|] == sorted;
    feedback := Join(parts + [END]);
  }

  // ---- screenshots -------------------------------------------------------------------------

  predicate OwnShot(x: Step) {
    x.screenshot != "" && (x.mapped.None? || x.mapped.value == x.number)
  }

  function Shots(steps: seq<Step>): seq<Shot> {
    if steps == [] then []
    else
      var x := steps[|steps| - 1];
      Shots(steps[..|steps| - 1]) + if OwnShot(x) then [Shot(x.number, x.screenshot)] else []
  }

  /** `_ordered_screenshot_inputs`. */
  method OrderedScreenshots(steps: seq<Step>) returns (shots: seq<Shot>)
    ensures shots == Shots(Sorted(steps))
  {
    var sorted := Sorted(steps);
    shots := [];
    var i := 0;
    while i < |sorted|
      invariant 0 <= i <= |sorted| && shots == Shots(sorted[..i])
    {
      assert sorted[..i + 1][..i] == sorted[..i];
      var x := sorted[i];
      if x.screenshot != "" {
        var mapped := if x.mapped.Some? then x.mapped.value else x.number;
        if mapped == x.number {
          shots := shots + [Shot(x.number, x.screenshot)];
        }
      }
      i := i + 1;
    }
    assert sorted[..|sorted|] == sorted;
  }

  /** A screenshot that counts: its own step's, and not blank. */
  predicate Usable(x: Step) {
    Trimmed(x.screenshot) != "" && (x.mapped.None? || x.mapped.value == x.number)
  }

  predicate DistinctNumbers(steps: seq<Step>) {
    forall i, j | 0 <= i < j < |steps| :: steps[i].number != steps[j].number
  }

  lemma ByStepGrow(shots: seq<Shot>, x: Shot)
    ensures ByStep(shots + [x]) ==
            if Trimmed(x.url) == "" then ByStep(shots) else ByStep(shots)[x.step := Trimmed(x.url)]
  {
    assert (shots + [x])[..|shots|] == shots;
  }

  predicate HasUsable(steps: seq<Step>, k: int) {
    exists i | 0 <= i < |steps| :: steps[i].number == k && Usable(steps[i])
  }

  lemma HasUsableGrow(steps: seq<Step>, x: Step, k: int)
    ensures HasUsable(steps + [x], k) <==> HasUsable(steps, k) || (x.number == k && Usable(x))
  {
    var all := steps + [x];
    if HasUsable(steps, k) {
      var i :| 0 <= i < |steps| && steps[i].number == k && Usable(steps[i]);
      assert all[i] == steps[i];
    }
    assert all[|steps|] == x;
  }

  lemma ShotsGrow(steps: seq<Step>, x: Step)
    ensures ByStep(Shots(steps + [x])) ==
            if Usable(x) then ByStep(Shots(steps))[x.number := Trimmed(x.screenshot)] else ByStep(Shots(steps))
  {
    assert (steps + [x])[..|steps|] == steps;
    if OwnShot(x) {
      ByStepGrow(Shots(steps), Shot(x.number, x.screenshot));
    } else {
      assert Shots(steps) + [] == Shots(steps);
    }
  }

  /** With distinct step numbers each usable screenshot is found under its own step, and nothing else is. */
  lemma {:induction false} ShotsByStep(steps: seq<Step>, k: int)
    requires DistinctNumbers(steps)
    ensures k in ByStep(Shots(steps)) <==> HasUsable(steps, k)
    ensures forall i | 0 <= i < |steps| && Usable(steps[i]) && steps[i].number == k ::
              k in ByStep(Shots(steps)) && ByStep(Shots(steps))[k] == Trimmed(steps[i].screenshot)
  {
    if steps != [] {
      var n := |steps| - 1;
      var front, x := steps[..n], steps[n];
      assert steps == front + [x];
      ShotsByStep(front, k);
      ShotsGrow(front, x);
      HasUsableGrow(front, x, k);
    }
  }

  // ---- lines that mean nothing to the parser -----------------------------------------------

  predicate Quiet(line: string) {
    HeaderNumber(line).None? && !IsShot(line)
  }

  predicate AllQuiet(lines: seq<string>) {
    forall i | 0 <= i < |lines| :: Quiet(lines[i])
  }

  function Plain(lines: seq<string>): (r: seq<Piece>)
    ensures |r| == |lines|
  {
    seq(|lines|, i requires 0 <= i < |lines| => Line(lines[i]))
  }

  lemma {:induction false} QuietPieces(lines: seq<string>, current: Option<nat>, images: Images)
    requires AllQuiet(lines)
    ensures Pieces(lines, current, images) == Plain(lines) && Latest(lines, current) == current
  {
    if lines != [] {
      var n := |lines| - 1;
      assert forall i | 0 <= i < n :: lines[..n][i] == lines[i];
      QuietPieces(lines[..n], current, images);
      assert Plain(lines) == Plain(lines[..n]) + [Line(lines[n])];
    }
  }

  /** A line without leading hashes is quiet. */
  lemma NoHash(line: string)
    requires line == "" || line[0] != '#'
    ensures Quiet(line)
  {
  }

  lemma HeadingIs(line: string, h: nat, rest: string)
    requires 1 <= h <= 6 && h < |line| && (forall i | 0 <= i < h :: line[i] == '#') && line[h] != '#'
    requires SkipSpaces(line[h..]) == rest
    ensures Heading(line) == Some(rest)
  {
    HashCount(line, h);
  }

  lemma {:induction false} HashCount(line: string, h: nat)
    requires h < |line| && (forall i | 0 <= i < h :: line[i] == '#') && line[h] != '#'
    ensures Hashes(line) == h
    decreases h
  {
    if h > 0 {
      assert forall i | 0 <= i < h - 1 :: line[1..][i] == line[i + 1];
      HashCount(line[1..], h - 1);
    }
  }

  lemma OneSpace(s: string)
    requires s != "" && !IsSpace(s[0])
    ensures SkipSpaces(" " + s) == s && SkipSpaces(s) == s
  {
    assert (" " + s)[1..] == s;
  }

  /** A heading that starts with neither word is quiet. */
  lemma OtherHeading(hashes: string, title: string)
    requires hashes in {"##", "####"} && title != "" && !IsSpace(title[0]) && title[0] != 'S' && Unbroken(title)
    ensures Quiet(Titled(hashes, title)) && Unbroken(Titled(hashes, title))
  {
    var line, h := Titled(hashes, title), |hashes|;
    assert line[h] == ' ' && line[h..] == " " + title;
    assert forall i | 0 <= i < h :: line[i] == hashes[i];
    OneSpace(title);
    HeadingIs(line, h, title);
  }

  // ---- the lines of each part --------------------------------------------------------------

  lemma {:induction false} DigitsAll(s: string)
    requires forall i | 0 <= i < |s| :: IsDigit(s[i])
    ensures Digits(s) == s
  {
    if s != "" {
      DigitsAll(s[1..]);
      assert s == [s[0]] + s[1..];
    }
  }

  lemma {:induction false} NumberOfDecimal(n: nat)
    ensures Number(Decimal(n)) == n
  {
    var d := Decimal(n);
    if n < 10 {
      assert Number(d[..0]) == 0;
    } else {
      NumberOfDecimal(n / 10);
      assert d[..|d| - 1] == Decimal(n / 10) && d[|d| - 1] == Digit(n % 10);
    }
  }

  lemma HeaderUnbroken(n: nat)
    ensures Unbroken(Header(n)) && Header(n) == "### Step " + Decimal(n)
  {
    var h := Header(n);
    forall i | 0 <= i < |h| ensures !IsBreak(h[i]) {
      if i >= 9 {
        DecimalDigits(n, i - 9);
        assert h[i] == Decimal(n)[i - 9];
      }
    }
  }

  /** The header of a step that is not negative is read back as its number. */
  lemma HeaderReadBack(n: nat)
    ensures HeaderNumber(Header(n)) == Some(n)
  {
    var line, d := Header(n), Decimal(n);
    HeaderUnbroken(n);
    var rest := "Step " + d;
    assert line[3..] == " " + rest && line[3] == ' ';
    OneSpace(rest);
    HeadingIs(line, 3, rest);
    assert rest[|STEP|..] == " " + d;
    NumberRead(n);
  }

  lemma NumberRead(n: nat)
    ensures var d := Decimal(n);
            SkipSpaces(" " + d) == d && " " + d != d && Digits(d) == d && d != "" && SkipSpaces(d[|d|..]) == "" &&
            Number(d) == n
  {
    var d := Decimal(n);
    DecimalDigits(n, 0);
    OneSpace(d);
    forall i | 0 <= i < |d| ensures IsDigit(d[i]) { DecimalDigits(n, i); }
    DigitsAll(d);
    NumberOfDecimal(n);
    assert d[|d|..] == "" && |" " + d| == |d| + 1;
  }

  lemma HeaderLines(n: nat)
    ensures Lines("\n" + Header(n) + "\n") == ["", Header(n)]
  {
    HeaderUnbroken(n);
    var h := Header(n);
    LinesSplit("", h + "\n");
    LinesOfOne("");
    LinesOfOne(h);
    assert "" + "\n" + (h + "\n") == "\n" + h + "\n" && "" + "\n" == "\n";
  }

  lemma ShotLine(u: string)
    ensures var line := SHOT + " " + u; IsShot(line) && HeaderNumber(line).None? && Label(line) == SHOT
  {
    var line := SHOT + " " + u;
    var rest := SCREENSHOT + " " + u;
    assert line[4..] == " " + rest && line[4] == ' ';
    OneSpace(rest);
    HeadingIs(line, 4, rest);
    assert rest[1] == 'c' && STEP[1] == 't';
    assert |line| - |rest| + |SCREENSHOT| == |SHOT| && line[..|SHOT|] == SHOT;
  }

  lemma QuietOne(s: string)
    requires Unbroken(s) && Quiet(s)
    ensures AllQuiet(Lines(s + "\n"))
  {
    LinesOfOne(s);
  }

  lemma QuietAppend(a: seq<string>, b: seq<string>)
    requires AllQuiet(a) && AllQuiet(b)
    ensures AllQuiet(a + b)
  {
  }

  lemma AgentsQuiet()
    ensures AllQuiet(Lines(ACTION + "\n")) && AllQuiet(Lines(REFLECTION + "\n"))
  {
    OtherHeading("####", "Action Agent");
    OtherHeading("####", "Reflection Agent");
    QuietOne(ACTION);
    QuietOne(REFLECTION);
  }

  lemma BlankQuiet(s: string)
    requires Unbroken(s) && Quiet(s)
    ensures AllQuiet(Lines("\n" + s + "\n"))
    ensures s != "" ==> Lines("\n" + s) == ["", s]
  {
    LinesSplit("", s + "\n");
    assert "" + "\n" + (s + "\n") == "\n" + s + "\n" && "" + "\n" == "\n";
    LinesOfOne("");
    LinesOfOne(s);
    NoHash("");
    LinesSplit("", s);
    assert "" + "\n" + s == "\n" + s;
  }

  lemma TitleQuiet()
    ensures AllQuiet(Lines(TITLE + "\n"))
  {
    var s := Titled("##", "Execution Trace");
    OtherHeading("##", "Execution Trace");
    TwoBlanksQuiet(s);
  }

  lemma TwoBlanksQuiet(s: string)
    requires Unbroken(s) && Quiet(s)
    ensures AllQuiet(Lines("\n\n" + s + "\n"))
  {
    BlankQuiet(s);
    LinesSplit("", "\n" + s + "\n");
    LinesOfOne("");
    NoHash("");
    assert "" + "\n" + ("\n" + s + "\n") == "\n\n" + s + "\n" && "" + "\n" == "\n";
    QuietAppend(Lines("\n"), Lines("\n" + s + "\n"));
  }

  lemma EndLines()
    ensures AllQuiet(Lines(END))
  {
    OtherHeading("##", "End of Trace");
    BlankQuiet(Titled("##", "End of Trace"));
    NoHash("");
  }

  lemma Glued(a: string, b: string)
    requires Unbroken(a) && Unbroken(b)
    ensures Unbroken(a + b)
  {
  }

  lemma Glued3(a: string, b: string, c: string)
    requires Unbroken(a) && Unbroken(b) && Unbroken(c)
    ensures Unbroken(a + b + c)
  {
    Glued(a, b);
    Glued(a + b, c);
  }

  lemma Explanation1()
    ensures Unbroken(Explanation(0)) && Unbroken(Explanation(1))
  {
    Glued("> **Trace ", "Explanation**");
    Glued3("> The workflow ", "trajectory is ", "organized into ");
    Glued("> The workflow " + "trajectory is " + "organized into ", "two sub-agents:");
  }

  lemma Explanation2()
    ensures Unbroken(Explanation(2))
  {
    Glued3("> - **Action ", "Agent**: captures ", "the step thought, ");
    Glued3("> - **Action " + "Agent**: captures " + "the step thought, ", "chosen action, ", "and action ");
    Glued("> - **Action " + "Agent**: captures " + "the step thought, " + "chosen action, " +
      "and action ", "description");
  }

  lemma Explanation3()
    ensures Unbroken(Explanation(3))
  {
    Glued3("> - **Reflection ", "Agent**: captures ", "the observed ");
    Glued3("> - **Reflection " + "Agent**: captures " + "the observed ", "outcome, what ", "happened, progress, ");
    Glued("> - **Reflection " + "Agent**: captures " + "the observed " + "outcome, what " +
      "happened, progress, ", "and next goal");
  }

  lemma Explanation4()
    ensures Unbroken(Explanation(4))
  {
    Glued3("> Each step also ", "includes the ", "corresponding ");
    Glued3("> Each step also " + "includes the " + "corresponding ", "screenshot for ", "visual context.");
  }

  lemma ExplanationStarts(i: nat)
    requires i < 5
    ensures |Explanation(i)| > 0 && Explanation(i)[0] == '>'
  {
  }

  lemma ExplanationQuiet(i: nat)
    requires i < |EXPLANATION|
    ensures AllQuiet(Lines(EXPLANATION[i] + "\n"))
  {
    Explanation1();
    Explanation2();
    Explanation3();
    Explanation4();
    ExplanationStarts(i);
    var s := Explanation(i);
    NoHash(s);
    if i == 0 { BlankQuiet(s); } else { QuietOne(s); }
  }

  lemma {:induction false} QuietEach(parts: seq<string>)
    requires forall i | 0 <= i < |parts| :: AllQuiet(Lines(parts[i] + "\n"))
    ensures AllQuiet(LinesEach(parts))
  {
    if parts != [] {
      var n := |parts| - 1;
      QuietEach(parts[..n]);
      QuietAppend(LinesEach(parts[..n]), Lines(parts[n] + "\n"));
    }
  }

  // ---- alignment ---------------------------------------------------------------------------

  /** No line of a step's free texts looks like a step header or a screenshot line. */
  predicate FreeText(x: Step) {
    && (forall i | 0 <= i < 9 && i != 0 && i != 4 :: AllQuiet(Lines(Fields(x)[i] + "\n")))
    && (var ls := Lines(ShotPart(x) + "\n"); ls != [] ==> AllQuiet(ls[1..]))
  }

  /** The screenshot line of a step: its label and its own image, or the line as it is. */
  function ShotPieces(x: Step, images: Images): seq<Piece> {
    var ls := Lines(ShotPart(x) + "\n");
    if ls == [] then []
    else [if x.number in images then Labelled(SHOT, images[x.number]) else Line(Stripped(ls[0]))] + Plain(ls[1..])
  }

  function SectionPieces(x: Step, images: Images): seq<Piece> {
    [Line(""), Line(Header(x.number))] + Plain(LinesEach(Fields(x))) + ShotPieces(x, images)
  }

  function TracePieces(steps: seq<Step>, images: Images): seq<Piece> {
    if steps == [] then [] else TracePieces(steps[..|steps| - 1], images) + SectionPieces(steps[|steps| - 1], images)
  }

  lemma FieldsQuiet(x: Step)
    requires FreeText(x)
    ensures AllQuiet(LinesEach(Fields(x)))
  {
    AgentsQuiet();
    assert Fields(x)[0] == ACTION && Fields(x)[4] == REFLECTION;
    QuietEach(Fields(x));
  }

  lemma ShotAligned(x: Step, images: Images)
    requires x.number >= 0 && FreeText(x)
    ensures Pieces(Lines(ShotPart(x) + "\n"), Some(x.number), images) == ShotPieces(x, images)
    ensures Latest(Lines(ShotPart(x) + "\n"), Some(x.number)) == Some(x.number)
  {
    var a := SHOT + " ";
    var u := FirstLine(a, Display(x.screenshot));
    var ls := Lines(ShotPart(x) + "\n");
    assert ls[0] == SHOT + " " + u;
    ShotLine(u);
    assert ls == [ls[0]] + ls[1..];
    PiecesAppend([ls[0]], ls[1..], Some(x.number), images);
    FirstPiece(ls[0], Some(x.number), images);
    QuietPieces(ls[1..], Some(x.number), images);
  }

  lemma FirstPiece(line: string, current: Option<nat>, images: Images)
    ensures Pieces([line], current, images) == [PieceOf(line, current, images)]
    ensures Latest([line], current) == Following(line, current)
  {
    assert [line][..0] == [];
    assert Pieces([], current, images) == [] && Latest([], current) == current;
  }

  lemma HeaderAligned(n: nat, current: Option<nat>, images: Images)
    ensures Pieces(["", Header(n)], current, images) == [Line(""), Line(Header(n))]
    ensures Latest(["", Header(n)], current) == Some(n)
  {
    NoHash("");
    HeaderReadBack(n);
    assert ["", Header(n)] == [""] + [Header(n)];
    PiecesAppend([""], [Header(n)], current, images);
    FirstPiece("", current, images);
    FirstPiece(Header(n), current, images);
  }

  lemma EachInTurn(h: string, f: seq<string>, l: string)
    ensures LinesEach([h] + f + [l]) == Lines(h + "\n") + LinesEach(f) + Lines(l + "\n")
  {
    LinesEachGrow([h] + f, l);
    LinesEachAppend([h], f);
    EachOne(h);
  }

  lemma EachOne(h: string)
    ensures LinesEach([h]) == Lines(h + "\n")
  {
    LinesEachGrow([], h);
    assert [] + [h] == [h];
    assert LinesEach([]) == [] && [] + Lines(h + "\n") == Lines(h + "\n");
  }

  lemma SectionLines(x: Step)
    requires x.number >= 0
    ensures LinesEach(Section(x)) == ["", Header(x.number)] + LinesEach(Fields(x)) + Lines(ShotPart(x) + "\n")
  {
    HeaderLines(x.number);
    EachInTurn("\n" + Header(x.number), Fields(x), ShotPart(x));
  }

  /** In its section a step's screenshot line gets that step's image. */
  lemma SectionAligned(x: Step, current: Option<nat>, images: Images)
    requires x.number >= 0 && FreeText(x)
    ensures Pieces(LinesEach(Section(x)), current, images) == SectionPieces(x, images)
  {
    SectionLines(x);
    var h, f, l := ["", Header(x.number)], LinesEach(Fields(x)), Lines(ShotPart(x) + "\n");
    PiecesAppend(h + f, l, current, images);
    PiecesAppend(h, f, current, images);
    HeaderAligned(x.number, current, images);
    FieldsQuiet(x);
    QuietPieces(f, Some(x.number), images);
    ShotAligned(x, images);
  }

  lemma {:induction false} SectionsAligned(steps: seq<Step>, current: Option<nat>, images: Images)
    requires forall i | 0 <= i < |steps| :: steps[i].number >= 0 && FreeText(steps[i])
    ensures Pieces(LinesEach(Sections(steps)), current, images) == TracePieces(steps, images)
  {
    if steps != [] {
      var n := |steps| - 1;
      assert forall i | 0 <= i < n :: steps[..n][i] == steps[i];
      SectionsAligned(steps[..n], current, images);
      LinesEachAppend(Sections(steps[..n]), Section(steps[n]));
      PiecesAppend(LinesEach(Sections(steps[..n])), LinesEach(Section(steps[n])), current, images);
      SectionAligned(steps[n], Latest(LinesEach(Sections(steps[..n])), current), images);
    }
  }

  /**
   For every trajectory with step numbers that are not negative and no header-like lines in its texts: in the
   rendered trace each step's section has its own image right behind its label if there is one for it, and
   there is no image anywhere else.
   */
  lemma RenderedTraceAligned(summary: seq<string>, steps: seq<Step>, images: Images)
    requires AllQuiet(LinesEach(summary))
    requires forall x | x in steps :: x.number >= 0 && FreeText(x)
    ensures Pieces(Lines(Render(summary, steps)), None, images) ==
            Plain(LinesEach(Intro(summary))) + TracePieces(Sorted(steps), images) + Plain(Lines(END))
  {
    var sorted := Sorted(steps);
    var intro := Intro(summary);
    SortedFree(steps);
    IntroQuiet(summary);
    EndLines();
    LinesOfJoin(intro + Sections(sorted), END);
    LinesEachAppend(intro, Sections(sorted));
    var a, b, c := LinesEach(intro), LinesEach(Sections(sorted)), Lines(END);
    PiecesAppend(a + b, c, None, images);
    PiecesAppend(a, b, None, images);
    QuietPieces(a, None, images);
    SectionsAligned(sorted, None, images);
    QuietPieces(c, Latest(a + b, None), images);
  }

  lemma SortedFree(steps: seq<Step>)
    requires forall x | x in steps :: x.number >= 0 && FreeText(x)
    ensures forall i | 0 <= i < |Sorted(steps)| :: Sorted(steps)[i].number >= 0 && FreeText(Sorted(steps)[i])
  {
    SortedOrdered(steps);
    forall i | 0 <= i < |Sorted(steps)| ensures Sorted(steps)[i] in steps {
      assert Sorted(steps)[i] in multiset(Sorted(steps));
    }
  }

  lemma IntroQuiet(summary: seq<string>)
    requires AllQuiet(LinesEach(summary))
    ensures AllQuiet(LinesEach(Intro(summary)))
  {
    TitleQuiet();
    forall i | 0 <= i < |EXPLANATION| ensures AllQuiet(Lines(EXPLANATION[i] + "\n")) { ExplanationQuiet(i); }
    QuietEach(EXPLANATION);
    LinesEachAppend(summary + [TITLE], EXPLANATION);
    LinesEachGrow(summary, TITLE);
    QuietAppend(LinesEach(summary), Lines(TITLE + "\n"));
    QuietAppend(LinesEach(summary + [TITLE]), LinesEach(EXPLANATION));
  }

  // ---- the images of the whole trace -------------------------------------------------------

  /** The images of the steps with a usable screenshot, in order. */
  function OwnImages(steps: seq<Step>, encode: string -> Option<string>): seq<string> {
    if steps == [] then []
    else
      var x := steps[|steps| - 1];
      OwnImages(steps[..|steps| - 1], encode) + if Usable(x) then [Encoded(encode, Trimmed(x.screenshot))] else []
  }

  lemma {:induction false} ImagesAppend(a: seq<Piece>, b: seq<Piece>)
    ensures ImagesOf(a + b) == ImagesOf(a) + ImagesOf(b)
  {
    if b == [] {
      assert a + b == a;
    } else {
      var n := |b| - 1;
      ImagesAppend(a, b[..n]);
      assert (a + b)[..|a + b| - 1] == a + b[..n];
    }
  }

  lemma {:induction false} PlainImages(lines: seq<string>)
    ensures ImagesOf(Plain(lines)) == []
  {
    if lines != [] {
      var n := |lines| - 1;
      PlainImages(lines[..n]);
      assert Plain(lines)[..n] == Plain(lines[..n]);
    }
  }

  lemma SectionImages(x: Step, images: Images)
    ensures ImagesOf(SectionPieces(x, images)) == if x.number in images then [images[x.number]] else []
  {
    var u := FirstLine(SHOT + " ", Display(x.screenshot));
    var ls := Lines(ShotPart(x) + "\n");
    var p := if x.number in images then Labelled(SHOT, images[x.number]) else Line(Stripped(ls[0]));
    var head := [Line(""), Line(Header(x.number))];
    var f := Plain(LinesEach(Fields(x)));
    ImagesAppend(head + f, ShotPieces(x, images));
    ImagesAppend(head, f);
    HeadImages("", Header(x.number));
    PlainImages(LinesEach(Fields(x)));
    ImagesAppend([p], Plain(ls[1..]));
    PlainImages(ls[1..]);
    OnePiece(p);
  }

  lemma HeadImages(a: string, b: string)
    ensures ImagesOf([Line(a), Line(b)]) == []
  {
    PlainImages([a, b]);
    assert Plain([a, b]) == [Line(a), Line(b)];
  }

  lemma OnePiece(p: Piece)
    ensures ImagesOf([p]) == if p.Labelled? then [p.image] else []
  {
    assert [p][..0] == [] && ImagesOf([]) == [];
  }

  lemma {:induction false} TraceImages(steps: seq<Step>, images: Images, encode: string -> Option<string>)
    requires forall i | 0 <= i < |steps| ::
               (steps[i].number in images <==> Usable(steps[i])) &&
               (Usable(steps[i]) ==> images[steps[i].number] == Encoded(encode, Trimmed(steps[i].screenshot)))
    ensures ImagesOf(TracePieces(steps, images)) == OwnImages(steps, encode)
  {
    if steps != [] {
      var n := |steps| - 1;
      assert forall i | 0 <= i < n :: steps[..n][i] == steps[i];
      TraceImages(steps[..n], images, encode);
      ImagesAppend(TracePieces(steps[..n], images), SectionPieces(steps[n], images));
      SectionImages(steps[n], images);
    }
  }

  /** With distinct step numbers, a step has an image exactly when its screenshot is usable, and it is its own. */
  lemma OwnImage(steps: seq<Step>, encode: string -> Option<string>, i: nat)
    requires DistinctNumbers(steps) && i < |steps| && forall u :: encode(u) != Some("")
    ensures var images := ImagesFor(encode, ByStep(Shots(steps)));
            && (steps[i].number in images <==> Usable(steps[i]))
            && (Usable(steps[i]) ==> images[steps[i].number] == Encoded(encode, Trimmed(steps[i].screenshot)))
  {
    ShotsByStep(steps, steps[i].number);
    if HasUsable(steps, steps[i].number) {
      var j :| 0 <= j < |steps| && steps[j].number == steps[i].number && Usable(steps[j]);
      assert i == j;
    }
  }

  lemma InsertMember(steps: seq<Step>, x: Step, i: nat)
    requires i < |Insert(steps, x)|
    ensures Insert(steps, x)[i] == x || Insert(steps, x)[i] in steps
  {
    InsertPermutes(steps, x);
    assert Insert(steps, x)[i] in multiset(Insert(steps, x));
  }

  lemma {:induction false} InsertDistinct(steps: seq<Step>, x: Step)
    requires DistinctNumbers(steps) && forall i | 0 <= i < |steps| :: steps[i].number != x.number
    ensures DistinctNumbers(Insert(steps, x))
  {
    if steps != [] && steps[|steps| - 1].number > x.number {
      var front, last := steps[..|steps| - 1], steps[|steps| - 1];
      InsertDistinct(front, x);
      forall i | 0 <= i < |Insert(front, x)| ensures Insert(front, x)[i].number != last.number {
        InsertMember(front, x, i);
      }
    }
  }

  lemma {:induction false} SortedDistinct(steps: seq<Step>)
    requires DistinctNumbers(steps)
    ensures DistinctNumbers(Sorted(steps))
  {
    if steps != [] {
      var front, x := steps[..|steps| - 1], steps[|steps| - 1];
      SortedDistinct(front);
      SortedOrdered(front);
      var sorted := Sorted(front);
      forall i | 0 <= i < |sorted| ensures sorted[i].number != x.number {
        assert sorted[i] in multiset(sorted);
        assert sorted[i] in front;
      }
      InsertDistinct(sorted, x);
    }
  }

  /**
   Rendering a trajectory and building blocks from the rendered trace: the images are exactly those of the
   steps with a screenshot of their own, each step's once, in the order of the steps.
   */
  lemma EachStepItsOwnImage(summary: seq<string>, steps: seq<Step>, encode: string -> Option<string>)
    requires AllQuiet(LinesEach(summary)) && DistinctNumbers(steps) && forall u :: encode(u) != Some("")
    requires forall x | x in steps :: x.number >= 0 && FreeText(x)
    ensures var images := ImagesFor(encode, ByStep(Shots(Sorted(steps))));
            Urls(Blocks(Pieces(Lines(Render(summary, steps)), None, images))) == OwnImages(Sorted(steps), encode)
  {
    var sorted := Sorted(steps);
    var images := ImagesFor(encode, ByStep(Shots(sorted)));
    RenderedTraceAligned(summary, steps, images);
    TextIsConserved(Lines(Render(summary, steps)), images);
    SortedDistinct(steps);
    forall i | 0 <= i < |sorted|
      ensures (sorted[i].number in images <==> Usable(sorted[i])) &&
              (Usable(sorted[i]) ==> images[sorted[i].number] == Encoded(encode, Trimmed(sorted[i].screenshot)))
    {
      OwnImage(sorted, encode, i);
    }
    TraceImages(sorted, images, encode);
    var a, b, c := Plain(LinesEach(Intro(summary))), TracePieces(sorted, images), Plain(Lines(END));
    ImagesAppend(a + b, c);
    ImagesAppend(a, b);
    PlainImages(LinesEach(Intro(summary)));
    PlainImages(Lines(END));
  }
}
