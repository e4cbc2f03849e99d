/**
 Which lines count as step headers and as screenshot lines, said as the two regular expressions of
 core/app/experiences/roles.py say it, and what becomes of each line of a prompt in those terms.
 */
module TraceGrammar {
  import opened Options
  import opened Decimals
  import opened TraceText
  import opened TraceBlocks

  // ---- white space, hashes, digits ---------------------------------------------------------

  predicate Blank(s: string) {
    forall i | 0 <= i < |s| :: IsSpace(s[i])
  }

  predicate Hashed(s: string) {
    1 <= |s| <= 6 && forall i | 0 <= i < |s| :: s[i] == '#'
  }

  predicate Figures(s: string) {
    s != "" && forall i | 0 <= i < |s| :: IsDigit(s[i])
  }

  lemma {:induction false} SpacesCut(s: string) returns (a: string)
    ensures Blank(a) && s == a + SkipSpaces(s) && (SkipSpaces(s) != "" ==> !IsSpace(SkipSpaces(s)[0]))
  {
    if s != "" && IsSpace(s[0]) {
      var b := SpacesCut(s[1..]);
      a := [s[0]] + b;
      Longer(s, b, SkipSpaces(s[1..]));
    } else {
      a := "";
    }
  }

  lemma Longer(s: string, b: string, t: string)
    requires s != "" && s[1..] == b + t
    ensures s == [s[0]] + b + t
  {
  }

  lemma {:induction false} SpacesOff(a: string, s: string)
    requires Blank(a) && (s != "" ==> !IsSpace(s[0]))
    ensures SkipSpaces(a + s) == s
  {
    if a == "" {
      assert a + s == s;
    } else {
      SpacesOff(a[1..], s);
      assert (a + s)[1..] == a[1..] + s;
    }
  }

  lemma {:induction false} HashesCut(s: string)
    ensures Hashes(s) <= |s| && (forall i | 0 <= i < Hashes(s) :: s[i] == '#')
    ensures Hashes(s) < |s| ==> s[Hashes(s)] != '#'
  {
    if s != "" && s[0] == '#' {
      HashesCut(s[1..]);
      assert forall i | 1 <= i < Hashes(s) :: s[i] == s[1..][i - 1];
    }
  }

  lemma {:induction false} HashesOff(h: string, s: string)
    requires (forall i | 0 <= i < |h| :: h[i] == '#') && (s != "" ==> s[0] != '#')
    ensures Hashes(h + s) == |h|
  {
    if h == "" {
      assert h + s == s;
    } else {
      HashesOff(h[1..], s);
      assert (h + s)[1..] == h[1..] + s;
    }
  }

  lemma {:induction false} DigitsCut(s: string)
    ensures (forall i | 0 <= i < |Digits(s)| :: IsDigit(Digits(s)[i])) && s == Digits(s) + s[|Digits(s)|..]
  {
    if s != "" && IsDigit(s[0]) {
      DigitsCut(s[1..]);
      assert s == [s[0]] + s[1..];
    }
  }

  lemma {:induction false} DigitsOff(d: string, s: string)
    requires (forall i | 0 <= i < |d| :: IsDigit(d[i])) && (s != "" ==> !IsDigit(s[0]))
    ensures Digits(d + s) == d
  {
    if d == "" {
      assert d + s == s;
    } else {
      DigitsOff(d[1..], s);
      assert (d + s)[1..] == d[1..] + s;
    }
  }

  // ---- headings ----------------------------------------------------------------------------

  /** One to six hashes, then white space, then `rest`. */
  predicate IsHeading(line: string, h: string, a: string, rest: string) {
    line == h + a + rest && Hashed(h) && Blank(a) && (rest != "" ==> !IsSpace(rest[0]) && rest[0] != '#')
  }

  lemma HeadingCut(line: string) returns (h: string, a: string)
    requires Heading(line).Some? && Heading(line).value != "" && Heading(line).value[0] != '#'
    ensures IsHeading(line, h, a, Heading(line).value)
  {
    var n := Hashes(line);
    HashesCut(line);
    h := line[..n];
    a := SpacesCut(line[n..]);
    Three(h, a, Heading(line).value, line[n..], line);
  }

  lemma Three(a: string, b: string, c: string, bc: string, s: string)
    requires s == a + bc && bc == b + c
    ensures s == a + b + c
  {
  }

  lemma HeadingOff(line: string, h: string, a: string, rest: string)
    requires IsHeading(line, h, a, rest) && rest != ""
    ensures Heading(line) == Some(rest)
  {
    Three(h, a, rest, a + rest, line);
    assert (a + rest)[0] == if a == "" then rest[0] else a[0];
    HashesOff(h, a + rest);
    assert line[|h|..] == a + rest;
    SpacesOff(a, rest);
  }

  // ---- screenshot lines --------------------------------------------------------------------

  /** `^(?P<label>#{1,6}\s*Screenshot:)` at the start of the line. */
  predicate ShotMatch(line: string, tag: string, h: string, a: string) {
    tag <= line && tag == h + a + "Screenshot:" && Hashed(h) && Blank(a)
  }

  ghost predicate ShotForm(line: string, tag: string) {
    exists h: string, a: string :: ShotMatch(line, tag, h, a)
  }

  lemma ShotFound(line: string)
    requires IsShot(line)
    ensures ShotForm(line, Label(line))
  {
    var rest := Heading(line).value;
    var h, a := HeadingCut(line);
    var tail := rest[|SCREENSHOT|..];
    assert rest == SCREENSHOT + tail;
    SpacesSuffix(line[Hashes(line)..]);
    LabelCut(line, h, a, tail);
    assert ShotMatch(line, Label(line), h, a);
  }

  lemma LabelCut(line: string, h: string, a: string, tail: string)
    requires line == h + a + (SCREENSHOT + tail)
    ensures line[..|line| - |SCREENSHOT + tail| + |SCREENSHOT|] == h + a + SCREENSHOT
  {
    assert line == (h + a + SCREENSHOT) + tail;
  }

  lemma ShotMade(line: string, tag: string, h: string, a: string)
    requires ShotMatch(line, tag, h, a)
    ensures IsShot(line) && Label(line) == tag
  {
    var tail := line[|tag|..];
    var rest := SCREENSHOT + tail;
    assert line == h + a + rest;
    assert rest[0] == 'S';
    HeadingOff(line, h, a, rest);
    SpacesSuffix(line[Hashes(line)..]);
    LabelCut(line, h, a, tail);
  }

  /** The model's screenshot lines and labels are those of the regular expression. */
  lemma ShotIff(line: string, tag: string)
    ensures IsShot(line) && Label(line) == tag <==> ShotForm(line, tag)
  {
    if IsShot(line) { ShotFound(line); }
    if ShotForm(line, tag) {
      var h, a :| ShotMatch(line, tag, h, a);
      ShotMade(line, tag, h, a);
    }
  }

  // ---- step headers ------------------------------------------------------------------------

  /** `^#{1,6}\s*Step\s+(?P<step_number>\d+)\s*$` on a line. */
  predicate HeaderMatch(line: string, h: string, a: string, b: string, d: string, e: string) {
    line == h + a + ("Step" + (b + (d + e))) && Hashed(h) && Blank(a) && Blank(b) && b != "" && Figures(d) && Blank(e)
  }

  ghost predicate HeaderForm(line: string, n: nat) {
    exists h: string, a: string, b: string, d: string, e: string :: HeaderMatch(line, h, a, b, d, e) && Number(d) == n
  }

  lemma HeaderFound(line: string)
    requires HeaderNumber(line).Some?
    ensures HeaderForm(line, HeaderNumber(line).value)
  {
    var v := Heading(line).value;
    var h, a := HeadingCut(line);
    var rest := v[|STEP|..];
    var b := SpacesCut(rest);
    var s := SkipSpaces(rest);
    DigitsCut(s);
    var d := Digits(s);
    var e := SpacesCut(s[|d|..]);
    assert v == STEP + rest;
    assert e == s[|d|..];
    assert HeaderMatch(line, h, a, b, d, e);
  }

  lemma DigitNoSpace(c: char)
    requires IsDigit(c)
    ensures !IsSpace(c)
  {
  }

  lemma AfterStep(b: string, d: string, e: string)
    requires Blank(b) && b != "" && Figures(d) && Blank(e)
    ensures SkipSpaces(b + (d + e)) == d + e && b + (d + e) != d + e
    ensures Digits(d + e) == d && (d + e)[|d|..] == e && SkipSpaces(e) == ""
  {
    DigitNoSpace(d[0]);
    SpacesOff(b, d + e);
    assert |b + (d + e)| > |d + e|;
    if e != "" && IsDigit(e[0]) { DigitNoSpace(e[0]); }
    DigitsOff(d, e);
    SpacesOff(e, "");
    assert e + "" == e;
  }

  lemma HeaderMade(line: string, h: string, a: string, b: string, d: string, e: string)
    requires HeaderMatch(line, h, a, b, d, e)
    ensures HeaderNumber(line) == Some(Number(d))
  {
    var rest := STEP + (b + (d + e));
    assert rest[0] == 'S';
    HeadingOff(line, h, a, rest);
    assert rest[|STEP|..] == b + (d + e);
    AfterStep(b, d, e);
  }

  /** The model's step headers and numbers are those of the regular expression. */
  lemma HeaderIff(line: string, n: nat)
    ensures HeaderNumber(line) == Some(n) <==> HeaderForm(line, n)
  {
    if HeaderNumber(line) == Some(n) { HeaderFound(line); }
    if HeaderForm(line, n) {
      var h, a, b, d, e :| HeaderMatch(line, h, a, b, d, e) && Number(d) == n;
      HeaderMade(line, h, a, b, d, e);
    }
  }

  lemma {:induction false} Zeros(z: string)
    requires forall i | 0 <= i < |z| :: z[i] == '0'
    ensures Number(z) == 0
  {
    if z != "" { Zeros(z[..|z| - 1]); }
  }

  /** The digits are read as a decimal number; zeros in front do not matter. */
  lemma {:induction false} NumberReads(z: string, n: nat)
    requires forall i | 0 <= i < |z| :: z[i] == '0'
    ensures Number(z + Decimal(n)) == n
    decreases n
  {
    var s := z + Decimal(n);
    if n < 10 {
      Zeros(z);
      assert s[..|s| - 1] == z && s[|s| - 1] == Digit(n);
    } else {
      NumberReads(z, n / 10);
      assert s[..|s| - 1] == z + Decimal(n / 10) && s[|s| - 1] == Digit(n % 10);
    }
  }

  // ---- each line of a prompt ---------------------------------------------------------------

  ghost predicate NoHeader(line: string) {
    forall n: nat :: !HeaderForm(line, n)
  }

  /** The line at `j` is the last step header before `i`, with number `k`. */
  ghost predicate LastHeader(lines: seq<string>, i: nat, j: nat, k: nat)
    requires i <= |lines|
  {
    j < i && HeaderForm(lines[j], k) && forall m | j < m < i :: NoHeader(lines[m])
  }

  ghost predicate Under(lines: seq<string>, i: nat, k: nat)
    requires i <= |lines|
  {
    exists j: nat :: LastHeader(lines, i, j, k)
  }

  lemma HeaderSome(line: string)
    ensures HeaderNumber(line) == None <==> NoHeader(line)
  {
    if HeaderNumber(line).Some? { HeaderIff(line, HeaderNumber(line).value); }
    forall n: nat ensures HeaderForm(line, n) <==> HeaderNumber(line) == Some(n) { HeaderIff(line, n); }
  }

  lemma {:induction false} LatestIff(lines: seq<string>, i: nat, k: nat)
    requires i <= |lines|
    ensures Latest(lines[..i], None) == Some(k) <==> Under(lines, i, k)
  {
    if i > 0 {
      assert lines[..i][..i - 1] == lines[..i - 1];
      LatestIff(lines, i - 1, k);
      HeaderSome(lines[i - 1]);
      HeaderIff(lines[i - 1], k);
      UnderGrows(lines, i - 1, k);
    }
  }

  lemma UnderGrows(lines: seq<string>, i: nat, k: nat)
    requires i < |lines|
    ensures Under(lines, i + 1, k) <==> if NoHeader(lines[i]) then Under(lines, i, k) else HeaderForm(lines[i], k)
  {
    if NoHeader(lines[i]) {
      if Under(lines, i, k) {
        var j: nat :| LastHeader(lines, i, j, k);
        assert LastHeader(lines, i + 1, j, k);
      }
      if Under(lines, i + 1, k) {
        var j: nat :| LastHeader(lines, i + 1, j, k);
        assert LastHeader(lines, i, j, k);
      }
    } else if HeaderForm(lines[i], k) {
      assert LastHeader(lines, i + 1, i, k);
    }
  }

  /**
   Line by line: a screenshot line under a step header becomes its label with the image of the last such header, or is
   right-trimmed if that step has none; every other line is kept as it is.
   */
  lemma LineBecomes(lines: seq<string>, images: Images, i: nat)
    requires i < |lines|
    ensures |Pieces(lines, None, images)| == |lines|
    ensures var piece := Pieces(lines, None, images)[i];
            && (forall k: nat, tag: string | ShotForm(lines[i], tag) && Under(lines, i, k) ::
                  piece == if k in images then Labelled(tag, images[k]) else Line(Stripped(lines[i])))
            && ((forall tag: string :: !ShotForm(lines[i], tag)) || (forall k: nat :: !Under(lines, i, k)) ==>
                  piece == Line(lines[i]))
  {
    var line, current := lines[i], Latest(lines[..i], None);
    PieceAt(lines, None, images, i);
    NotBoth(line);
    forall tag: string ensures ShotForm(line, tag) <==> IsShot(line) && Label(line) == tag {
      ShotIff(line, tag);
    }
    forall k: nat ensures current == Some(k) <==> Under(lines, i, k) { LatestIff(lines, i, k); }
    if IsShot(line) { assert ShotForm(line, Label(line)); }
    if current.Some? { assert Under(lines, i, current.value); }
  }

  lemma NotBoth(line: string)
    ensures !(HeaderNumber(line).Some? && IsShot(line))
  {
  }

  // ---- trimming ----------------------------------------------------------------------------

  /** `rstrip` takes white space from the end, and all of it. */
  lemma {:induction false} StrippedIs(s: string) returns (b: string)
    ensures s == Stripped(s) + b && Blank(b)
    ensures Stripped(s) != "" ==> !IsSpace(Stripped(s)[|Stripped(s)| - 1])
  {
    if s != "" && IsSpace(s[|s| - 1]) {
      var c := StrippedIs(s[..|s| - 1]);
      b := c + [s[|s| - 1]];
      assert s == s[..|s| - 1] + [s[|s| - 1]];
    } else {
      b := "";
    }
  }

  /** `strip` takes it from both ends. */
  lemma {:induction false} TrimmedIs(s: string) returns (a: string, b: string)
    ensures s == a + Trimmed(s) + b && Blank(a) && Blank(b)
    ensures Trimmed(s) != "" ==> !IsSpace(Trimmed(s)[0]) && !IsSpace(Trimmed(s)[|Trimmed(s)| - 1])
  {
    if s != "" && IsSpace(s[0]) {
      var c;
      c, b := TrimmedIs(s[1..]);
      a := [s[0]] + c;
      assert s == [s[0]] + s[1..];
    } else {
      a := "";
      b := StrippedIs(s);
      if Stripped(s) != "" { assert Stripped(s)[0] == s[0]; }
    }
  }

  // ---- the map of screenshots --------------------------------------------------------------

  /** The `i`th screenshot is the last one for its step that is not blank. */
  predicate LastShot(shots: seq<Shot>, i: nat, k: int) {
    && i < |shots| && shots[i].step == k && Trimmed(shots[i].url) != ""
    && forall j | i < j < |shots| :: shots[j].step != k || Trimmed(shots[j].url) == ""
  }

  lemma LastShotFront(shots: seq<Shot>, i: nat, k: int)
    requires shots != [] && (shots[|shots| - 1].step != k || Trimmed(shots[|shots| - 1].url) == "")
    ensures LastShot(shots, i, k) <==> LastShot(shots[..|shots| - 1], i, k)
  {
    var front := shots[..|shots| - 1];
    if LastShot(front, i, k) {
      assert shots[i] == front[i];
      forall j | i < j < |shots| ensures shots[j].step != k || Trimmed(shots[j].url) == "" {
        if j < |front| { assert shots[j] == front[j]; }
      }
    }
  }

  /** Each step has its last screenshot that is not blank. */
  lemma {:induction false} ByStepIs(shots: seq<Shot>, k: int)
    ensures k in ByStep(shots) <==> exists i: nat :: LastShot(shots, i, k)
    ensures forall i: nat | LastShot(shots, i, k) :: k in ByStep(shots) && ByStep(shots)[k] == Trimmed(shots[i].url)
  {
    if shots != [] {
      var n := |shots| - 1;
      ByStepIs(shots[..n], k);
      if shots[n].step == k && Trimmed(shots[n].url) != "" {
        assert LastShot(shots, n, k);
      } else {
        forall i: nat ensures LastShot(shots, i, k) <==> LastShot(shots[..n], i, k) { LastShotFront(shots, i, k); }
      }
    }
  }

  /** A step's image is its screenshot as encoded, or its address if that fails, and none if that is empty. */
  lemma ImageOfStep(encode: string -> Option<string>, shots: map<int, string>, k: int)
    ensures var images := ImagesFor(encode, shots);
            if k !in shots then k !in images
            else
              var image := if encode(shots[k]) == None then shots[k] else encode(shots[k]).value;
              if image == "" then k !in images else k in images && images[k] == image
  {
  }

  // ---- how lines are gathered into blocks --------------------------------------------------

  /** Nothing but lines. */
  predicate OnlyLines(pieces: seq<Piece>) {
    forall i | 0 <= i < |pieces| :: pieces[i].Line?
  }

  lemma {:induction false} LinesGather(pieces: seq<Piece>)
    requires OnlyLines(pieces)
    ensures Gathered(pieces) == ([], TextsOf(pieces))
  {
    if pieces != [] {
      var n := |pieces| - 1;
      LinesGather(pieces[..n]);
      assert TextsOf(pieces) == TextsOf(pieces[..n]) + [pieces[n].text];
    } else {
      assert TextsOf(pieces) == [];
    }
  }

  lemma {:induction false} GatheredAfter(a: seq<Piece>, l: Piece, b: seq<Piece>)
    requires l.Labelled?
    ensures var g := Gathered(a);
            Gathered(a + [l] + b) ==
            (g.0 + Flush(g.1) + [Text(l.text), Image(l.image)] + Gathered(b).0, Gathered(b).1)
  {
    if b == [] {
      assert a + [l] + b == a + [l];
      GatheredGrow(a, l);
      AssociatesBlocks(Gathered(a).0 + Flush(Gathered(a).1) + [Text(l.text), Image(l.image)], [], [], []);
    } else {
      var n := |b| - 1;
      GatheredAfter(a, l, b[..n]);
      assert a + [l] + b == a + [l] + b[..n] + [b[n]];
      GatheredGrow(a + [l] + b[..n], b[n]);
      GatheredGrow(b[..n], b[n]);
      assert b[..n] + [b[n]] == b;
      var g, h := Gathered(a), Gathered(b[..n]);
      var front := g.0 + Flush(g.1) + [Text(l.text), Image(l.image)];
      AssociatesBlocks(front, h.0, Flush(h.1), [Text(b[n].text), Image(ImageOf(b[n]))]);
    }
  }

  function ImageOf(p: Piece): string {
    if p.Labelled? then p.image else ""
  }

  lemma AssociatesBlocks(a: seq<Block>, b: seq<Block>, c: seq<Block>, d: seq<Block>)
    ensures a + b + c + d == a + (b + c + d) && a + b + c == a + (b + c) && a + [] == a
  {
  }

  /**
   Lines that follow one another are one text block, and what they are followed by is unaffected by them: the blocks of
   lines up to a label, the label and its image are these three blocks, of which the first is absent without lines.
   */
  lemma BlocksInTurn(a: seq<Piece>, l: Piece, b: seq<Piece>)
    requires OnlyLines(a)
    ensures Blocks(a) == if a == [] then [] else [Text(Join(TextsOf(a)))]
    ensures l.Labelled? ==>
              Blocks(a + [l] + b) ==
              (if a == [] then [] else [Text(Join(TextsOf(a)))]) + [Text(l.text), Image(l.image)] + Blocks(b)
  {
    LinesGather(a);
    if l.Labelled? {
      GatheredAfter(a, l, b);
      var g := Gathered(b);
      assert [] + Flush(TextsOf(a)) == Flush(TextsOf(a));
      AssociatesBlocks(Flush(TextsOf(a)) + [Text(l.text), Image(l.image)], g.0, Flush(g.1), []);
    }
  }
}
