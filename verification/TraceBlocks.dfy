/**
 `_build_reflector_content_blocks` of core/app/experiences/roles.py: a small state machine reads the
 prompt line by line and puts the screenshot of the current step after each screenshot label.
 */
module TraceBlocks {
  import opened Options
  import opened TraceText
  import opened Decimals

  // ---- the two kinds of lines --------------------------------------------------------------

  function Hashes(s: string): nat {
    if s != "" && s[0] == '#' then 1 + Hashes(s[1..]) else 0
  }

  function SkipSpaces(s: string): string {
    if s != "" && IsSpace(s[0]) then SkipSpaces(s[1..]) else s
  }

  /** The digits a string starts with. */
  function Digits(s: string): (d: string)
    ensures |d| <= |s|
  {
    if s != "" && IsDigit(s[0]) then [s[0]] + Digits(s[1..]) else ""
  }

  function Number(digits: string): nat {
    if digits == "" then 0
    else 10 * Number(digits[..|digits| - 1]) + Figure(digits[|digits| - 1])
  }

  function Figure(c: char): nat {
    if IsDigit(c) then c as int - '0' as int else 0
  }

  /** What follows one to six hashes and white space. */
  function Heading(line: string): Option<string> {
    var h := Hashes(line);
    if 1 <= h <= 6 && h <= |line| then Some(SkipSpaces(line[h..])) else None
  }

  const STEP := "Step"
  const SCREENSHOT := "Screenshot:"

  /** The number of a step header: hashes, "Step", white space, digits, white space. */
  function HeaderNumber(line: string): Option<nat> {
    var h := Heading(line);
    if h.None? || !(STEP <= h.value) then None
    else
      var rest := h.value[|STEP|..];
      var s := SkipSpaces(rest);
      var d := Digits(s);
      if rest == s || d == "" || SkipSpaces(s[|d|..]) != "" then None else Some(Number(d))
  }

  /** A screenshot line: hashes and "Screenshot:", then anything. */
  predicate IsShot(line: string) {
    Heading(line).Some? && SCREENSHOT <= Heading(line).value
  }

  lemma {:induction false} SpacesSuffix(s: string)
    ensures |SkipSpaces(s)| <= |s| && SkipSpaces(s) == s[|s| - |SkipSpaces(s)|..]
  {
    if s != "" && IsSpace(s[0]) { SpacesSuffix(s[1..]); }
  }

  /** The visible label: the line up to and including the colon. */
  function Label(line: string): string
    requires IsShot(line)
  {
    SpacesSuffix(line[Hashes(line)..]);
    line[..|line| - |Heading(line).value| + |SCREENSHOT|]
  }

  // ---- what becomes of each line -----------------------------------------------------------

  /** The images by step: the screenshot, encoded if that worked. */
  type Images = map<int, string>

  datatype Piece = Line(text: string) | Labelled(text: string, image: string)

  function PieceOf(line: string, current: Option<nat>, images: Images): Piece {
    if HeaderNumber(line).Some? || !IsShot(line) || current.None? then Line(line)
    else if current.value in images then Labelled(Label(line), images[current.value])
    else Line(Stripped(line))
  }

  function Following(line: string, current: Option<nat>): Option<nat> {
    if HeaderNumber(line).Some? then HeaderNumber(line) else current
  }

  /** The latest step header, if any. */
  function Latest(lines: seq<string>, current: Option<nat>): Option<nat> {
    if lines == [] then current else Following(lines[|lines| - 1], Latest(lines[..|lines| - 1], current))
  }

  /** Line by line: kept, right-trimmed, or reduced to the label with the image of the latest step. */
  function Pieces(lines: seq<string>, current: Option<nat>, images: Images): seq<Piece> {
    if lines == [] then []
    else
      var front := lines[..|lines| - 1];
      Pieces(front, current, images) + [PieceOf(lines[|lines| - 1], Latest(front, current), images)]
  }

  lemma {:induction false} PiecesAppend(a: seq<string>, b: seq<string>, current: Option<nat>, images: Images)
    ensures Latest(a + b, current) == Latest(b, Latest(a, current))
    ensures Pieces(a + b, current, images) == Pieces(a, current, images) + Pieces(b, Latest(a, current), images)
  {
    if b == [] {
      assert a + b == a;
    } else {
      var n := |b| - 1;
      PiecesAppend(a, b[..n], current, images);
      assert (a + b)[..|a + b| - 1] == a + b[..n];
    }
  }

  lemma {:induction false} PieceAt(lines: seq<string>, current: Option<nat>, images: Images, i: nat)
    requires i < |lines|
    ensures |Pieces(lines, current, images)| == |lines|
    ensures Pieces(lines, current, images)[i] == PieceOf(lines[i], Latest(lines[..i], current), images)
  {
    var n := |lines| - 1;
    if i < n {
      PieceAt(lines[..n], current, images, i);
      assert lines[..n][..i] == lines[..i];
    } else if n > 0 {
      PieceAt(lines[..n], current, images, 0);
    }
  }

  // ---- blocks ------------------------------------------------------------------------------

  datatype Block = Text(text: string) | Image(url: string)

  function Flush(buffer: seq<string>): seq<Block> {
    if buffer == [] then [] else [Text(Join(buffer))]
  }

  /** Blocks and buffered lines after the pieces. */
  function Gathered(pieces: seq<Piece>): (seq<Block>, seq<string>) {
    if pieces == [] then ([], [])
    else
      var p, g := pieces[|pieces| - 1], Gathered(pieces[..|pieces| - 1]);
      if p.Line? then (g.0, g.1 + [p.text])
      else (g.0 + Flush(g.1) + [Text(p.text), Image(p.image)], [])
  }

  function Blocks(pieces: seq<Piece>): seq<Block> {
    Gathered(pieces).0 + Flush(Gathered(pieces).1)
  }

  lemma GatheredGrow(pieces: seq<Piece>, p: Piece)
    ensures var g := Gathered(pieces);
            Gathered(pieces + [p]) ==
            if p.Line? then (g.0, g.1 + [p.text]) else (g.0 + Flush(g.1) + [Text(p.text), Image(p.image)], [])
  {
    assert (pieces + [p])[..|pieces|] == pieces;
  }

  // ---- conservation ------------------------------------------------------------------------

  function Texts(blocks: seq<Block>): seq<string> {
    if blocks == [] then []
    else Texts(blocks[..|blocks| - 1]) + if blocks[|blocks| - 1].Text? then [blocks[|blocks| - 1].text] else []
  }

  function Urls(blocks: seq<Block>): seq<string> {
    if blocks == [] then []
    else Urls(blocks[..|blocks| - 1]) + if blocks[|blocks| - 1].Image? then [blocks[|blocks| - 1].url] else []
  }

  function TextsOf(pieces: seq<Piece>): (r: seq<string>)
    ensures |r| == |pieces|
  {
    seq(|pieces|, i requires 0 <= i < |pieces| => pieces[i].text)
  }

  function ImagesOf(pieces: seq<Piece>): seq<string> {
    if pieces == [] then []
    else ImagesOf(pieces[..|pieces| - 1]) + if pieces[|pieces| - 1].Labelled? then [pieces[|pieces| - 1].image] else []
  }

  lemma TextsGrow(blocks: seq<Block>, b: Block)
    ensures Texts(blocks + [b]) == Texts(blocks) + if b.Text? then [b.text] else []
    ensures Urls(blocks + [b]) == Urls(blocks) + if b.Image? then [b.url] else []
  {
    assert (blocks + [b])[..|blocks|] == blocks;
  }

  lemma FlushGrow(blocks: seq<Block>, buffer: seq<string>)
    ensures Texts(blocks + Flush(buffer)) == Texts(blocks) + if buffer == [] then [] else [Join(buffer)]
    ensures Urls(blocks + Flush(buffer)) == Urls(blocks)
  {
    if buffer == [] {
      assert blocks + [] == blocks;
    } else {
      TextsGrow(blocks, Text(Join(buffer)));
      assert Urls(blocks) + [] == Urls(blocks);
    }
  }

  /** The texts so far, with the buffer as one more text, joined. */
  function Written(g: (seq<Block>, seq<string>)): string {
    Join(Texts(g.0) + if g.1 == [] then [] else [Join(g.1)])
  }

  lemma LineWritten(g: (seq<Block>, seq<string>), line: string)
    ensures Written((g.0, g.1 + [line])) ==
            if Texts(g.0) == [] && g.1 == [] then line else Written(g) + "\n" + line
  {
    var t := Texts(g.0);
    JoinGrow(g.1, line);
    JoinGrow(t, Join(g.1 + [line]));
    if g.1 != [] {
      JoinGrow(t, Join(g.1));
    } else {
      assert t + [] == t;
    }
  }

  lemma LabelWritten(g: (seq<Block>, seq<string>), text: string, image: string)
    ensures Written((g.0 + Flush(g.1) + [Text(text), Image(image)], [])) ==
            if Texts(g.0) == [] && g.1 == [] then text else Written(g) + "\n" + text
  {
    var flushed := g.0 + Flush(g.1);
    FlushGrow(g.0, g.1);
    assert flushed + [Text(text), Image(image)] == (flushed + [Text(text)]) + [Image(image)];
    TextsGrow(flushed, Text(text));
    TextsGrow(flushed + [Text(text)], Image(image));
    assert Texts(flushed) + [text] + [] == Texts(flushed) + [text];
    JoinGrow(Texts(flushed), text);
    if g.1 == [] { assert Texts(g.0) + [] == Texts(g.0); }
  }

  /** The text blocks and the buffer, joined, are the pieces' texts, joined. */
  lemma {:induction false} GatheredText(pieces: seq<Piece>)
    ensures var g := Gathered(pieces);
            Written(g) == Join(TextsOf(pieces)) && (Texts(g.0) == [] && g.1 == [] <==> pieces == [])
  {
    if pieces != [] {
      var n := |pieces| - 1;
      var front, p := pieces[..n], pieces[n];
      var g := Gathered(front);
      GatheredText(front);
      assert TextsOf(pieces) == TextsOf(front) + [p.text];
      JoinGrow(TextsOf(front), p.text);
      if p.Line? {
        LineWritten(g, p.text);
      } else {
        LabelWritten(g, p.text, p.image);
        LabelledTexts(g, p.text, p.image);
      }
    } else {
      assert TextsOf(pieces) == [];
    }
  }

  lemma LabelledTexts(g: (seq<Block>, seq<string>), text: string, image: string)
    ensures Texts(g.0 + Flush(g.1) + [Text(text), Image(image)]) != []
    ensures Urls(g.0 + Flush(g.1) + [Text(text), Image(image)]) == Urls(g.0) + [image]
  {
    FlushGrow(g.0, g.1);
    PairGrow(g.0 + Flush(g.1), text, image);
  }

  lemma PairGrow(blocks: seq<Block>, text: string, image: string)
    ensures Texts(blocks + [Text(text), Image(image)]) != []
    ensures Urls(blocks + [Text(text), Image(image)]) == Urls(blocks) + [image]
  {
    assert blocks + [Text(text), Image(image)] == (blocks + [Text(text)]) + [Image(image)];
    TextsGrow(blocks, Text(text));
    TextsGrow(blocks + [Text(text)], Image(image));
  }

  lemma {:induction false} GatheredImages(pieces: seq<Piece>)
    ensures Urls(Gathered(pieces).0) == ImagesOf(pieces)
  {
    if pieces != [] {
      var n := |pieces| - 1;
      GatheredImages(pieces[..n]);
      var g, p := Gathered(pieces[..n]), pieces[n];
      if p.Labelled? { LabelledTexts(g, p.text, p.image); }
    }
  }

  /** An image stands directly behind a text block that is its label. */
  predicate Attached(blocks: seq<Block>, pieces: seq<Piece>) {
    forall i | 0 <= i < |blocks| && blocks[i].Image? ::
      i > 0 && blocks[i - 1].Text? && Labelled(blocks[i - 1].text, blocks[i].url) in pieces
  }

  lemma {:induction false} GatheredAttached(pieces: seq<Piece>)
    ensures Attached(Gathered(pieces).0, pieces)
  {
    if pieces != [] {
      var n := |pieces| - 1;
      var front, p := pieces[..n], pieces[n];
      var g := Gathered(front);
      GatheredAttached(front);
      assert pieces == front + [p];
      assert p in pieces;
    }
  }

  /**
   For arbitrary lines: the text blocks, joined, are the lines in order, screenshot lines under a step
   reduced to their label or right-trimmed; the images are those of the latest step headers before them,
   in order; and each stands directly behind its label.
   */
  lemma TextIsConserved(lines: seq<string>, images: Images)
    ensures var pieces := Pieces(lines, None, images);
            var blocks := Blocks(pieces);
            && Join(Texts(blocks)) == Join(TextsOf(pieces))
            && Urls(blocks) == ImagesOf(pieces)
            && Attached(blocks, pieces)
  {
    var pieces := Pieces(lines, None, images);
    var g := Gathered(pieces);
    GatheredText(pieces);
    GatheredImages(pieces);
    GatheredAttached(pieces);
    FlushGrow(g.0, g.1);
  }

  /** How many screenshot lines have a latest step header with an image. */
  function ShotsWithImage(lines: seq<string>, images: Images): nat {
    if lines == [] then 0
    else
      var n := |lines| - 1;
      var c := Latest(lines[..n], None);
      ShotsWithImage(lines[..n], images)
      + if HeaderNumber(lines[n]).None? && IsShot(lines[n]) && c.Some? && c.value in images then 1 else 0
  }

  lemma {:induction false} ImageCount(lines: seq<string>, images: Images)
    ensures |ImagesOf(Pieces(lines, None, images))| == ShotsWithImage(lines, images)
  {
    if lines != [] {
      var n := |lines| - 1;
      ImageCount(lines[..n], images);
      var front := Pieces(lines[..n], None, images);
      var p := PieceOf(lines[n], Latest(lines[..n], None), images);
      assert (front + [p])[..|front|] == front;
    }
  }

  // ---- the loop ----------------------------------------------------------------------------

  datatype Shot = Shot(step: int, url: string)

  /** The screenshots by step; later ones win, empty ones do not count. */
  function ByStep(shots: seq<Shot>): map<int, string> {
    if shots == [] then map[]
    else
      var m, x := ByStep(shots[..|shots| - 1]), shots[|shots| - 1];
      if Trimmed(x.url) == "" then m else m[x.step := Trimmed(x.url)]
  }

  /** The image behind a url: its encoding, or the url itself when encoding fails. */
  function Encoded(encode: string -> Option<string>, url: string): string {
    if encode(url).Some? then encode(url).value else url
  }

  function ImagesFor(encode: string -> Option<string>, shots: map<int, string>): Images {
    map k | k in shots && Encoded(encode, shots[k]) != "" :: Encoded(encode, shots[k])
  }

  method BuildBlocks(prompt: string, shots: seq<Shot>, encode: string -> Option<string>) returns (blocks: seq<Block>)
    ensures ByStep(shots) == map[] ==> blocks == [Text(prompt)]
    ensures ByStep(shots) != map[] ==> blocks == Blocks(Pieces(Lines(prompt), None, ImagesFor(encode, ByStep(shots))))
  {
    var byStep: map<int, string> := map[];
    var n := 0;
    while n < |shots|
      invariant 0 <= n <= |shots| && byStep == ByStep(shots[..n])
    {
      assert shots[..n + 1][..n] == shots[..n];
      var url := Trimmed(shots[n].url);
      if url != "" {
        byStep := byStep[shots[n].step := url];
      }
      n := n + 1;
    }
    assert shots[..|shots|] == shots;
    if byStep == map[] {
      return [Text(prompt)];
    }
    blocks := BlocksOfLines(Lines(prompt), byStep, encode);
  }

  /** One more line, seen by the state machine. */
  lemma NextLine(lines: seq<string>, i: nat, images: Images)
    requires i < |lines|
    ensures var c := Latest(lines[..i], None);
            && Latest(lines[..i + 1], None) == Following(lines[i], c)
            && Pieces(lines[..i + 1], None, images) == Pieces(lines[..i], None, images) + [PieceOf(lines[i], c, images)]
  {
    assert lines[..i + 1][..i] == lines[..i];
  }

  /** The image of a step, encoded once and kept. */
  method LookUp(byStep: map<int, string>, cache: map<int, string>, encode: string -> Option<string>, step: int)
      returns (image: string, kept: map<int, string>)
    requires forall k | k in cache :: k in byStep && cache[k] == Encoded(encode, byStep[k])
    ensures forall k | k in kept :: k in byStep && kept[k] == Encoded(encode, byStep[k])
    ensures image == if step in ImagesFor(encode, byStep) then ImagesFor(encode, byStep)[step] else ""
  {
    kept, image := cache, "";
    if step in byStep {
      if step !in kept {
        kept := kept[step := Encoded(encode, byStep[step])];
      }
      image := kept[step];
    }
  }

  /** What the state machine does with one line. */
  method ReadLine(
      line: string, current: Option<nat>, blocks: seq<Block>, buffer: seq<string>, image: string, ghost images: Images)
      returns (next: Option<nat>, blocks': seq<Block>, buffer': seq<string>)
    requires current.Some? && IsShot(line) ==> image == (if current.value in images then images[current.value] else "")
    requires forall k | k in images :: images[k] != ""
    ensures next == Following(line, current)
    ensures var p := PieceOf(line, current, images);
            (blocks', buffer') ==
            if p.Line? then (blocks, buffer + [p.text])
            else (blocks + Flush(buffer) + [Text(p.text), Image(p.image)], [])
  {
    var header := HeaderNumber(line);
    next, blocks' := current, blocks;
    if header.Some? {
      next := header;
      buffer' := buffer + [line];
    } else if IsShot(line) && current.Some? {
      if image != "" {
        blocks' := blocks + Flush(buffer) + [Text(Label(line)), Image(image)];
        buffer' := [];
      } else {
        buffer' := buffer + [Stripped(line)];
      }
    } else {
      buffer' := buffer + [line];
    }
  }

  method BlocksOfLines(
      lines: seq<string>, byStep: map<int, string>, encode: string -> Option<string>) returns (blocks: seq<Block>)
    ensures blocks == Blocks(Pieces(lines, None, ImagesFor(encode, byStep)))
  {
    ghost var images := ImagesFor(encode, byStep);
    var buffer: seq<string>, current: Option<nat>, cache: map<int, string> := [], None, map[];
    blocks := [];
    var i := 0;
    while i < |lines|
      invariant 0 <= i <= |lines| && current == Latest(lines[..i], None)
      invariant (blocks, buffer) == Gathered(Pieces(lines[..i], None, images))
      invariant forall k | k in cache :: k in byStep && cache[k] == Encoded(encode, byStep[k])
    {
      NextLine(lines, i, images);
      GatheredGrow(Pieces(lines[..i], None, images), PieceOf(lines[i], current, images));
      var image := "";
      if current.Some? && IsShot(lines[i]) {
        image, cache := LookUp(byStep, cache, encode, current.value);
      }
      current, blocks, buffer := ReadLine(lines[i], current, blocks, buffer, image, images);
      i := i + 1;
    }
    assert lines[..|lines|] == lines;
    blocks := blocks + Flush(buffer);
  }
}
