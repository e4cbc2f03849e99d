/** Lines of text as Python sees them: `"\n".join`, `splitlines` and white space. */
module TraceText {
  predicate IsBreak(c: char) {
    c in {'\n', '\r', '\U{0B}', '\U{0C}', '\U{1C}', '\U{1D}', '\U{1E}', '\U{85}', '\U{2028}', '\U{2029}'}
  }

  predicate IsSpace(c: char) {
    IsBreak(c) || c in {' ', '\t', '\U{1F}', '\U{A0}', '\U{1680}', '\U{202F}', '\U{205F}', '\U{3000}'}
    || '\U{2000}' <= c <= '\U{200A}'
  }

  function Join(xs: seq<string>): string {
    if |xs| == 0 then "" else if |xs| == 1 then xs[0] else Join(xs[..|xs| - 1]) + "\n" + xs[|xs| - 1]
  }

  lemma JoinGrow(xs: seq<string>, x: string)
    ensures Join(xs + [x]) == if xs == [] then x else Join(xs) + "\n" + x
  {
    assert (xs + [x])[..|xs|] == xs;
  }

  /** A carriage return and a line feed are one break. */
  function Width(s: string): (w: nat)
    requires s != ""
    ensures 1 <= w <= |s|
  {
    if |s| >= 2 && s[0] == '\r' && s[1] == '\n' then 2 else 1
  }

  /** A character in front of the first line. */
  function Prepended(c: char, lines: seq<string>): seq<string> {
    if lines == [] then [[c]] else [[c] + lines[0]] + lines[1..]
  }

  /** `s.splitlines()`. */
  function Lines(s: string): seq<string> {
    if s == "" then [] else if IsBreak(s[0]) then [""] + Lines(s[Width(s)..]) else Prepended(s[0], Lines(s[1..]))
  }

  lemma LinesChar(c: char, s: string)
    requires !IsBreak(c)
    ensures Lines([c] + s) == Prepended(c, Lines(s))
  {
    assert ([c] + s)[1..] == s;
  }

  lemma LinesBreak(x: string, s: string)
    requires x == "\r\n" || (|x| == 1 && IsBreak(x[0]) && (x[0] == '\r' ==> s == "" || s[0] != '\n'))
    ensures Lines(x + s) == [""] + Lines(s)
  {
    var t := x + s;
    assert t[0] == x[0] && Width(t) == |x|;
    assert t[|x|..] == s;
  }

  lemma LinesNonEmpty(s: string)
    requires s != ""
    ensures Lines(s) != []
  {
  }

  lemma PrependedAppend(c: char, a: seq<string>, b: seq<string>)
    requires a != []
    ensures Prepended(c, a + b) == Prepended(c, a) + b
  {
    assert (a + b)[0] == a[0] && (a + b)[1..] == a[1..] + b;
  }

  lemma Associates(x: string, a: seq<string>, b: seq<string>)
    ensures [x] + (a + b) == [x] + a + b
  {
  }

  lemma Regroup(x: string, rest: string, b: string)
    ensures x + rest + "\n" + b == x + (rest + "\n" + b) && x + rest + "\n" == x + (rest + "\n")
  {
  }

  lemma SplitAtBreak(x: string, rest: string, b: string)
    requires x == "\r\n" || (|x| == 1 && IsBreak(x[0]) && (x[0] == '\r' ==> rest != "" && rest[0] != '\n'))
    requires Lines(rest + "\n" + b) == Lines(rest + "\n") + Lines(b)
    ensures Lines(x + rest + "\n" + b) == Lines(x + rest + "\n") + Lines(b)
  {
    Regroup(x, rest, b);
    LinesBreak(x, rest + "\n" + b);
    LinesBreak(x, rest + "\n");
    Associates("", Lines(rest + "\n"), Lines(b));
  }

  lemma SplitAtChar(c: char, rest: string, b: string)
    requires !IsBreak(c) && Lines(rest + "\n" + b) == Lines(rest + "\n") + Lines(b)
    ensures Lines([c] + rest + "\n" + b) == Lines([c] + rest + "\n") + Lines(b)
  {
    Regroup([c], rest, b);
    LinesChar(c, rest + "\n" + b);
    LinesChar(c, rest + "\n");
    LinesNonEmpty(rest + "\n");
    PrependedAppend(c, Lines(rest + "\n"), Lines(b));
  }

  lemma SplitAtEnd(x: string, b: string)
    requires x == "\n" || x == "\r\n"
    ensures Lines(x + b) == Lines(x) + Lines(b)
  {
    LinesBreak(x, b);
    LinesBreak(x, "");
    assert x + "" == x && Lines("") == [];
  }

  /** A line feed ends a line, whatever precedes it. */
  lemma {:induction false} LinesSplit(a: string, b: string)
    ensures Lines(a + "\n" + b) == Lines(a + "\n") + Lines(b)
    decreases |a|
  {
    if a == "" || a == "\r" {
      SplitAtEnd(a + "\n", b);
    } else {
      var w := if IsBreak(a[0]) then Width(a) else 1;
      var x, rest := a[..w], a[w..];
      assert a == x + rest;
      LinesSplit(rest, b);
      if IsBreak(a[0]) {
        SplitAtBreak(x, rest, b);
      } else {
        assert x == [a[0]];
        SplitAtChar(a[0], rest, b);
      }
    }
  }

  /** The lines of parts that are each followed by a line feed. */
  function LinesEach(parts: seq<string>): seq<string> {
    if parts == [] then [] else LinesEach(parts[..|parts| - 1]) + Lines(parts[|parts| - 1] + "\n")
  }

  lemma LinesEachGrow(parts: seq<string>, p: string)
    ensures LinesEach(parts + [p]) == LinesEach(parts) + Lines(p + "\n")
  {
    assert (parts + [p])[..|parts|] == parts;
  }

  lemma {:induction false} LinesEachAppend(a: seq<string>, b: seq<string>)
    ensures LinesEach(a + b) == LinesEach(a) + LinesEach(b)
  {
    if b == [] {
      assert a + b == a;
    } else {
      var n := |b| - 1;
      LinesEachAppend(a, b[..n]);
      var front, last := a + b[..n], Lines(b[n] + "\n");
      assert a + b == front + [b[n]];
      LinesEachGrow(front, b[n]);
      AssociatesAll(LinesEach(a), LinesEach(b[..n]), last);
    }
  }

  lemma AssociatesAll(a: seq<string>, b: seq<string>, c: seq<string>)
    ensures a + (b + c) == a + b + c
  {
  }

  lemma LinesOfTwo(a: string, b: string)
    ensures Lines(a + "\n" + b + "\n") == Lines(a + "\n") + Lines(b + "\n")
  {
    LinesSplit(a, b + "\n");
    Regroup(a + "\n", b, "");
  }

  lemma {:induction false} LinesOfJoinLn(parts: seq<string>)
    requires parts != []
    ensures Lines(Join(parts) + "\n") == LinesEach(parts)
  {
    var n := |parts| - 1;
    var front, last := parts[..n], parts[n];
    if n == 0 {
      assert LinesEach(front) == [];
    } else {
      LinesOfJoinLn(front);
      LinesOfTwo(Join(front), last);
    }
  }

  /** Joining parts with line feeds and splitting into lines keeps the lines of each part together. */
  lemma LinesOfJoin(parts: seq<string>, last: string)
    ensures Lines(Join(parts + [last])) == LinesEach(parts) + Lines(last)
  {
    JoinGrow(parts, last);
    if parts != [] {
      LinesSplit(Join(parts), last);
      LinesOfJoinLn(parts);
    }
  }

  predicate Unbroken(s: string) {
    forall i | 0 <= i < |s| :: !IsBreak(s[i])
  }

  lemma {:induction false} LinesOfOne(s: string)
    requires Unbroken(s)
    ensures Lines(s + "\n") == [s]
    ensures s != "" ==> Lines(s) == [s]
  {
    if s == "" {
      LinesBreak("\n", "");
      assert s + "\n" == "\n" + "";
    } else {
      LinesOfOne(s[1..]);
      assert s == [s[0]] + s[1..] && s + "\n" == [s[0]] + (s[1..] + "\n");
      LinesChar(s[0], s[1..]);
      LinesChar(s[0], s[1..] + "\n");
    }
  }

  /** The first line starts with whatever the text starts with up to a break. */
  lemma {:induction false} FirstLine(a: string, b: string) returns (u: string)
    requires Unbroken(a)
    ensures Lines(a + b + "\n") != [] && Lines(a + b + "\n")[0] == a + u
  {
    if a == "" {
      assert a + b + "\n" == b + "\n";
      LinesNonEmpty(b + "\n");
      u := Lines(b + "\n")[0];
    } else {
      u := FirstLine(a[1..], b);
      assert a + b + "\n" == [a[0]] + (a[1..] + b + "\n");
      LinesChar(a[0], a[1..] + b + "\n");
      assert [a[0]] + (a[1..] + u) == a + u;
    }
  }

  /** `s.rstrip()`. */
  function Stripped(s: string): string {
    if s != "" && IsSpace(s[|s| - 1]) then Stripped(s[..|s| - 1]) else s
  }

  /** `s.strip()`. */
  function Trimmed(s: string): string {
    if s != "" && IsSpace(s[0]) then Trimmed(s[1..]) else Stripped(s)
  }
}
