/**
 `_compact_images` of core/app/llmhubs/chat_client.py: at most so many images per request, the last ones.
 */
module ImageCompaction {

  /** The dictionary under `output` of a computer call's result, as far as it is looked at. */
  datatype Output = Output(kind: string, imageUrl: string, rest: string)

  /** What a tool returned. */
  datatype ToolResult = DictResult(output: Output) | StringResult(base64: string) | OtherResult(shown: string)

  /** A part of an input, by its `type`. */
  datatype Part =
    | Text(text: string)
    | Image(payload: string)
    | ComputerCall(callId: string, arguments: string)
    | ComputerOutput(callId: string, output: Output)
    | FunctionCall(callId: string, name: string, arguments: string)
    | FunctionResult(callId: string, result: ToolResult)

  const PLACEHOLDER := Text("[image omitted]")

  predicate IsImage(p: Part) {
    match p
    case Image(_) => true
    case ComputerOutput(_, output) => output.kind == "computer_screenshot" || output.imageUrl != ""
    case _ => false
  }

  // ---- on one list of parts ----------------------------------------------------------------

  function Images(parts: seq<Part>): seq<Part> {
    if parts == [] then []
    else Images(parts[..|parts| - 1]) + if IsImage(parts[|parts| - 1]) then [parts[|parts| - 1]] else []
  }

  function Count(parts: seq<Part>): nat {
    |Images(parts)|
  }

  /** The first `k` images replaced. */
  function Omit(parts: seq<Part>, k: nat): (r: seq<Part>)
    ensures |r| == |parts|
  {
    if parts == [] then []
    else
      var n := |parts| - 1;
      Omit(parts[..n], k) + [if IsImage(parts[n]) && Count(parts[..n]) < k then PLACEHOLDER else parts[n]]
  }

  /** The last `max` images kept. */
  function Compact(parts: seq<Part>, max: nat): seq<Part> {
    if Count(parts) <= max then parts else Omit(parts, Count(parts) - max)
  }

  lemma ImagesGrow(parts: seq<Part>, p: Part)
    ensures Images(parts + [p]) == Images(parts) + if IsImage(p) then [p] else []
  {
    assert (parts + [p])[..|parts|] == parts;
  }

  /** What is left of the images is the list of all images without its first `k`. */
  lemma {:induction false} OmitImages(parts: seq<Part>, k: nat)
    ensures Images(Omit(parts, k)) == Left(Images(parts), k)
  {
    if parts != [] {
      var n := |parts| - 1;
      OmitImages(parts[..n], k);
      OmitOneMore(parts[..n], parts[n], k);
      assert parts == parts[..n] + [parts[n]];
    }
  }

  function Left(images: seq<Part>, k: nat): seq<Part> {
    if k <= |images| then images[k..] else []
  }

  lemma OmitOneMore(front: seq<Part>, last: Part, k: nat)
    requires Images(Omit(front, k)) == Left(Images(front), k)
    ensures Images(Omit(front + [last], k)) == Left(Images(front + [last]), k)
  {
    OmitGrow(front, last, k);
    ImagesGrow(Omit(front, k), if IsImage(last) && Count(front) < k then PLACEHOLDER else last);
    ImagesGrow(front, last);
    LeftGrow(Images(front), last, k);
  }

  /** The rest of a list that grows by one. */
  lemma LeftGrow(images: seq<Part>, last: Part, k: nat)
    ensures k <= |images| ==> (images + [last])[k..] == images[k..] + [last]
    ensures k == |images| + 1 ==> (images + [last])[k..] == []
    ensures images + [] == images
  {
  }

  lemma {:induction false} OmitAt(parts: seq<Part>, k: nat, i: nat)
    requires i < |parts|
    ensures !IsImage(parts[i]) ==> Omit(parts, k)[i] == parts[i]
    ensures IsImage(parts[i]) ==> Omit(parts, k)[i] == if Count(parts[..i]) < k then PLACEHOLDER else parts[i]
  {
    var n := |parts| - 1;
    if i < n {
      OmitAt(parts[..n], k, i);
      assert parts[..n][..i] == parts[..i];
    }
  }

  lemma OmitGrow(parts: seq<Part>, p: Part, k: nat)
    ensures Omit(parts + [p], k) == Omit(parts, k) + [if IsImage(p) && Count(parts) < k then PLACEHOLDER else p]
  {
    assert (parts + [p])[..|parts|] == parts;
  }

  lemma {:induction false} OmitNothing(parts: seq<Part>)
    ensures Omit(parts, 0) == parts
  {
    if parts != [] {
      OmitNothing(parts[..|parts| - 1]);
    }
  }

  /**
   Compaction leaves exactly the last `max` images, in order, and everything that is not an image where
   it was; doing it twice is doing it once.
   */
  lemma CompactKeepsLastImages(parts: seq<Part>, max: nat)
    ensures var r := Compact(parts, max);
            && |r| == |parts|
            && (forall i | 0 <= i < |parts| && !IsImage(parts[i]) :: r[i] == parts[i])
            && (forall i | 0 <= i < |parts| && IsImage(parts[i]) ::
                  r[i] == parts[i] || r[i] == Text("[image omitted]"))
            && Count(r) == (if Count(parts) <= max then Count(parts) else max)
            && Images(r) == Images(parts)[Count(parts) - Count(r)..]
            && Compact(r, max) == r
  {
    if Count(parts) > max {
      var k := Count(parts) - max;
      OmitImages(parts, k);
      forall i | 0 <= i < |parts|
        ensures if IsImage(parts[i]) then Omit(parts, k)[i] in {parts[i], PLACEHOLDER}
                else Omit(parts, k)[i] == parts[i]
      {
        OmitAt(parts, k, i);
      }
    }
  }

  lemma {:induction false} ImagesAppend(a: seq<Part>, b: seq<Part>)
    ensures Images(a + b) == Images(a) + Images(b)
  {
    if b == [] {
      assert a + b == a;
    } else {
      var n := |b| - 1;
      ImagesAppend(a, b[..n]);
      assert a + b == (a + b[..n]) + [b[n]] && b == b[..n] + [b[n]];
      ImagesGrow(a + b[..n], b[n]);
      ImagesGrow(b[..n], b[n]);
    }
  }

  // ---- over all inputs of a request --------------------------------------------------------

  function Flat(lists: seq<seq<Part>>): seq<Part> {
    if lists == [] then [] else Flat(lists[..|lists| - 1]) + lists[|lists| - 1]
  }

  /** How many images come before the part at (`i`, `j`). */
  function Rank(lists: seq<seq<Part>>, i: nat, j: nat): nat
    requires i < |lists| && j <= |lists[i]|
  {
    Count(Flat(lists[..i])) + Count(lists[i][..j])
  }

  /** The part at (`i`, `j`) after the first `k` images were replaced. */
  function Replaced(lists: seq<seq<Part>>, k: nat, i: nat, j: nat): Part
    requires i < |lists| && j < |lists[i]|
  {
    if IsImage(lists[i][j]) && Rank(lists, i, j) < k then PLACEHOLDER else lists[i][j]
  }

  /** `c` is `lists` with the first `k` images replaced, place by place. */
  predicate ReplacedIn(lists: seq<seq<Part>>, k: nat, c: seq<seq<Part>>) {
    && |c| == |lists|
    && forall i | 0 <= i < |lists| ::
         |c[i]| == |lists[i]| && forall j | 0 <= j < |lists[i]| :: c[i][j] == Replaced(lists, k, i, j)
  }

  /** Replacing place by place is replacing in the whole sequence of parts. */
  lemma {:induction false} ReplacedIsOmit(lists: seq<seq<Part>>, k: nat, c: seq<seq<Part>>)
    requires ReplacedIn(lists, k, c)
    ensures Flat(c) == Omit(Flat(lists), k)
  {
    if lists != [] {
      var n := |lists| - 1;
      ReplacedFront(lists, k, c);
      ReplacedIsOmit(lists[..n], k, c[..n]);
      ListIsOmit(Flat(lists[..n]), lists[n], k, c[n]);
    }
  }

  lemma ReplacedFront(lists: seq<seq<Part>>, k: nat, c: seq<seq<Part>>)
    requires ReplacedIn(lists, k, c) && lists != []
    ensures ReplacedIn(lists[..|lists| - 1], k, c[..|lists| - 1])
  {
    var n := |lists| - 1;
    var front := lists[..n];
    forall i, j | 0 <= i < n && 0 <= j < |front[i]| ensures Replaced(front, k, i, j) == Replaced(lists, k, i, j) {
      assert front[..i] == lists[..i];
    }
  }

  lemma {:induction false} ListIsOmit(before: seq<Part>, l: seq<Part>, k: nat, d: seq<Part>)
    requires |d| == |l|
    requires forall m | 0 <= m < |l| ::
               d[m] == if IsImage(l[m]) && Count(before) + Count(l[..m]) < k then PLACEHOLDER else l[m]
    ensures Omit(before, k) + d == Omit(before + l, k)
  {
    if l == [] {
      assert before + l == before;
    } else {
      var n := |l| - 1;
      var front := l[..n];
      assert forall m | 0 <= m < n :: front[..m] == l[..m];
      ListIsOmit(before, front, k, d[..n]);
      LastIsOmit(before, front, l[n], k, d[..n], d[n]);
      assert l == front + [l[n]] && d == d[..n] + [d[n]];
    }
  }

  lemma LastIsOmit(before: seq<Part>, front: seq<Part>, p: Part, k: nat, d: seq<Part>, q: Part)
    requires Omit(before, k) + d == Omit(before + front, k)
    requires q == if IsImage(p) && Count(before) + Count(front) < k then PLACEHOLDER else p
    ensures Omit(before, k) + (d + [q]) == Omit(before + (front + [p]), k)
  {
    ImagesAppend(before, front);
    OmitGrow(before + front, p, k);
    Associates(before, front, [p]);
    Associates(Omit(before, k), d, [q]);
  }

  lemma Associates(a: seq<Part>, b: seq<Part>, c: seq<Part>)
    ensures a + (b + c) == a + b + c
  {
  }

  // ---- in place ----------------------------------------------------------------------------

  class Input {
    const role: string
    var content: seq<Part>

    constructor (role: string, content: seq<Part>)
      ensures this.role == role && this.content == content
    {
      this.role := role;
      this.content := content;
    }
  }

  function Contents(inputs: seq<Input>): (r: seq<seq<Part>>)
    reads inputs
    ensures |r| == |inputs|
  {
    seq(|inputs|, i requires 0 <= i < |inputs| reads inputs => inputs[i].content)
  }

  predicate Separate(inputs: seq<Input>) {
    forall i, j | 0 <= i < j < |inputs| :: inputs[i] != inputs[j]
  }

  /** The places of the images so far: the image of rank `r` at index `r`, and nothing else. */
  predicate Located(lists: seq<seq<Part>>, positions: seq<(nat, nat)>, n: nat) {
    && n == |positions|
    && forall r | 0 <= r < n ::
         var p := positions[r];
         p.0 < |lists| && p.1 < |lists[p.0]| && IsImage(lists[p.0][p.1]) && Rank(lists, p.0, p.1) == r
  }

  predicate AllFound(lists: seq<seq<Part>>, positions: seq<(nat, nat)>, i: nat, j: nat) {
    forall a: nat, b: nat | a < |lists| && b < |lists[a]| && (a < i || (a == i && b < j)) && IsImage(lists[a][b]) ::
      Rank(lists, a, b) < |positions| && positions[Rank(lists, a, b)] == (a, b)
  }

  lemma FlatStep(lists: seq<seq<Part>>, i: nat)
    requires i < |lists|
    ensures Flat(lists[..i + 1]) == Flat(lists[..i]) + lists[i]
    ensures Count(Flat(lists[..i + 1])) == Count(Flat(lists[..i])) + Count(lists[i])
  {
    assert lists[..i + 1][..i] == lists[..i];
    ImagesAppend(Flat(lists[..i]), lists[i]);
  }

  lemma RankStep(lists: seq<seq<Part>>, i: nat, j: nat)
    requires i < |lists| && j < |lists[i]|
    ensures Rank(lists, i, j + 1) == Rank(lists, i, j) + if IsImage(lists[i][j]) then 1 else 0
  {
    assert lists[i][..j + 1] == lists[i][..j] + [lists[i][j]];
    ImagesGrow(lists[i][..j], lists[i][j]);
  }

  lemma FoundNext(lists: seq<seq<Part>>, positions: seq<(nat, nat)>, i: nat, j: nat)
    requires i < |lists| && j < |lists[i]|
    requires Located(lists, positions, Rank(lists, i, j)) && AllFound(lists, positions, i, j)
    ensures var next := if IsImage(lists[i][j]) then positions + [(i, j)] else positions;
            Located(lists, next, Rank(lists, i, j + 1)) && AllFound(lists, next, i, j + 1)
  {
    RankStep(lists, i, j);
  }

  lemma FoundAll(lists: seq<seq<Part>>, positions: seq<(nat, nat)>, i: nat)
    requires i < |lists|
    requires Located(lists, positions, Rank(lists, i, |lists[i]|)) && AllFound(lists, positions, i, |lists[i]|)
    ensures Located(lists, positions, Count(Flat(lists[..i + 1]))) && AllFound(lists, positions, i + 1, 0)
  {
    FlatStep(lists, i);
    assert lists[i][..|lists[i]|] == lists[i];
  }

  /** The places of the images among the first `j` parts of the input `i`. */
  function PlacesOf(content: seq<Part>, i: nat, j: nat): seq<(nat, nat)>
    requires j <= |content|
  {
    if j == 0 then [] else PlacesOf(content, i, j - 1) + if IsImage(content[j - 1]) then [(i, j - 1)] else []
  }

  /** The places of the images in the first `i` inputs, in reading order. */
  function Places(lists: seq<seq<Part>>, i: nat): seq<(nat, nat)>
    requires i <= |lists|
  {
    if i == 0 then [] else Places(lists, i - 1) + PlacesOf(lists[i - 1], i - 1, |lists[i - 1]|)
  }

  lemma {:induction false} PlacesLocated(lists: seq<seq<Part>>, i: nat)
    requires i <= |lists|
    ensures Located(lists, Places(lists, i), Count(Flat(lists[..i]))) && AllFound(lists, Places(lists, i), i, 0)
  {
    if i == 0 {
      assert lists[..0] == [];
    } else {
      PlacesLocated(lists, i - 1);
      PlacesOfLocated(lists, i - 1, |lists[i - 1]|);
      FoundAll(lists, Places(lists, i), i - 1);
    }
  }

  /** The images of the first `i` inputs and of the first `j` parts of the next have been found. */
  predicate FoundUpTo(lists: seq<seq<Part>>, positions: seq<(nat, nat)>, i: nat, j: nat)
    requires i < |lists| && j <= |lists[i]|
  {
    Located(lists, positions, Rank(lists, i, j)) && AllFound(lists, positions, i, j)
  }

  lemma {:induction false} PlacesOfLocated(lists: seq<seq<Part>>, i: nat, j: nat)
    requires i < |lists| && j <= |lists[i]|
    requires Located(lists, Places(lists, i), Count(Flat(lists[..i]))) && AllFound(lists, Places(lists, i), i, 0)
    ensures FoundUpTo(lists, Places(lists, i) + PlacesOf(lists[i], i, j), i, j)
    decreases j
  {
    if j == 0 {
      assert lists[i][..0] == [] && Places(lists, i) + [] == Places(lists, i);
    } else {
      PlacesOfLocated(lists, i, j - 1);
      NextLocated(lists, Places(lists, i), PlacesOf(lists[i], i, j - 1), i, j - 1);
    }
  }

  lemma NextLocated(lists: seq<seq<Part>>, a: seq<(nat, nat)>, b: seq<(nat, nat)>, i: nat, j: nat)
    requires i < |lists| && j < |lists[i]| && FoundUpTo(lists, a + b, i, j)
    ensures FoundUpTo(lists, a + (b + if IsImage(lists[i][j]) then [(i, j)] else []), i, j + 1)
  {
    FoundNext(lists, a + b, i, j);
    AssociatesPlaces(a, b, (i, j));
  }

  lemma AssociatesPlaces(a: seq<(nat, nat)>, b: seq<(nat, nat)>, x: (nat, nat))
    ensures a + (b + [x]) == a + b + [x] && a + (b + []) == a + b
  {
  }

  /** The first pass: the places of all images. */
  method FindImages(inputs: seq<Input>) returns (positions: seq<(nat, nat)>)
    ensures positions == Places(Contents(inputs), |inputs|)
  {
    ghost var lists := Contents(inputs);
    positions := [];
    var i := 0;
    while i < |inputs|
      invariant 0 <= i <= |inputs| && positions == Places(lists, i)
    {
      var content, j := inputs[i].content, 0;
      while j < |content|
        invariant 0 <= j <= |content| && positions == Places(lists, i) + PlacesOf(content, i, j)
      {
        if IsImage(content[j]) {
          positions := positions + [(i, j)];
        }
        j := j + 1;
      }
      i := i + 1;
    }
  }

  /** All images have places, as many as there are images. */
  lemma PlacesCount(lists: seq<seq<Part>>)
    ensures |Places(lists, |lists|)| == Count(Flat(lists))
  {
    PlacesLocated(lists, |lists|);
    assert lists[..|lists|] == lists;
  }

  /** The first `k` places are those of the images of rank below `k`. */
  lemma Chosen(lists: seq<seq<Part>>, k: nat, i: nat, j: nat)
    requires k <= |Places(lists, |lists|)| && i < |lists| && j < |lists[i]|
    ensures (i, j) in Places(lists, |lists|)[..k] <==> IsImage(lists[i][j]) && Rank(lists, i, j) < k
  {
    PlacesLocated(lists, |lists|);
    ChosenAmong(lists, Places(lists, |lists|), k, i, j);
  }

  lemma ChosenAmong(lists: seq<seq<Part>>, positions: seq<(nat, nat)>, k: nat, i: nat, j: nat)
    requires Located(lists, positions, |positions|) && AllFound(lists, positions, |lists|, 0) && k <= |positions|
    requires i < |lists| && j < |lists[i]|
    ensures (i, j) in positions[..k] <==> IsImage(lists[i][j]) && Rank(lists, i, j) < k
  {
    if (i, j) in positions[..k] {
      var r :| 0 <= r < k && positions[r] == (i, j);
    }
    if IsImage(lists[i][j]) && Rank(lists, i, j) < k {
      assert positions[..k][Rank(lists, i, j)] == (i, j);
    }
  }

  /**
   `_compact_images`: reassigns the content of each input. The parts of the request, read in order, become
   their compaction; the inputs and the lengths of their lists stay.
   */
  method CompactImages(inputs: seq<Input>, max: nat)
    requires Separate(inputs)
    modifies inputs
    ensures Flat(Contents(inputs)) == Compact(old(Flat(Contents(inputs))), max)
    ensures ReplacedIn(old(Contents(inputs)), Excess(old(Flat(Contents(inputs))), max), Contents(inputs))
  {
    ghost var lists := Contents(inputs);
    var positions := FindImages(inputs);
    PlacesCount(lists);
    ghost var k := Excess(Flat(lists), max);
    if |positions| > max {
      var chosen := positions[..|positions| - max];
      var i := 0;
      while i < |inputs|
        invariant 0 <= i <= |inputs|
        invariant forall a | 0 <= a < i :: Rewritten(lists, k, a, inputs[a].content)
        invariant forall a | i <= a < |inputs| :: inputs[a].content == lists[a]
      {
        var content := RewriteContent(lists, k, inputs[i].content, chosen, i);
        inputs[i].content := content;
        i := i + 1;
      }
    }
    Finished(inputs, lists, k, max);
  }

  /** How many images are too many. */
  function Excess(parts: seq<Part>, max: nat): nat {
    if Count(parts) <= max then 0 else Count(parts) - max
  }

  predicate Rewritten(lists: seq<seq<Part>>, k: nat, i: nat, content: seq<Part>)
    requires i < |lists|
  {
    |content| == |lists[i]| && forall j | 0 <= j < |lists[i]| :: content[j] == Replaced(lists, k, i, j)
  }

  /** The second pass over one input. */
  method RewriteContent(ghost lists: seq<seq<Part>>, ghost k: nat, content: seq<Part>, chosen: seq<(nat, nat)>, i: nat)
      returns (r: seq<Part>)
    requires i < |lists| && content == lists[i] && k <= |Places(lists, |lists|)| &&
             chosen == Places(lists, |lists|)[..k]
    ensures Rewritten(lists, k, i, r)
  {
    r := [];
    var j := 0;
    while j < |content|
      invariant 0 <= j <= |content| && |r| == j
      invariant forall m | 0 <= m < j :: r[m] == Replaced(lists, k, i, m)
    {
      Chosen(lists, k, i, j);
      if (i, j) in chosen {
        r := r + [PLACEHOLDER];
      } else {
        r := r + [content[j]];
      }
      j := j + 1;
    }
  }

  lemma Finished(inputs: seq<Input>, lists: seq<seq<Part>>, k: nat, max: nat)
    requires |lists| == |inputs| && k == Excess(Flat(lists), max)
    requires forall a | 0 <= a < |inputs| ::
               if k > 0 then Rewritten(lists, k, a, inputs[a].content) else inputs[a].content == lists[a]
    ensures ReplacedIn(lists, k, Contents(inputs)) && Flat(Contents(inputs)) == Compact(Flat(lists), max)
  {
    ReplacedIsOmit(lists, k, Contents(inputs));
    OmitNothing(Flat(lists));
  }
}
