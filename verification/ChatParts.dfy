/**
 What the parts of a request say, told by the content items of the messages: core/app/llmhubs/chat_client.py
 lines 40-48 and 169-295.
 */
module ChatParts {
  import opened Options
  import opened ImageCompaction
  import opened ChatRequest

  /** The parts of a kind, in order. */
  function Picked(parts: seq<Part>, keep: Part -> bool): seq<Part> {
    if parts == [] then []
    else
      var p := parts[|parts| - 1];
      Picked(parts[..|parts| - 1], keep) + if keep(p) then [p] else []
  }

  /** What the content items say, one after the other. */
  function Told(contents: seq<Content>, tell: Content -> seq<Part>): seq<Part> {
    if contents == [] then [] else Told(contents[..|contents| - 1], tell) + tell(contents[|contents| - 1])
  }

  /** What the messages say that are not system messages. */
  function ToldByAll(messages: seq<Message>, tell: Content -> seq<Part>): seq<Part> {
    if messages == [] then []
    else
      var m := messages[|messages| - 1];
      ToldByAll(messages[..|messages| - 1], tell) + if m.role != "system" then Told(m.contents, tell) else []
  }

  lemma PickedGrow(parts: seq<Part>, p: Part, keep: Part -> bool)
    ensures Picked(parts + [p], keep) == Picked(parts, keep) + if keep(p) then [p] else []
  {
    assert (parts + [p])[..|parts|] == parts;
  }

  lemma {:induction false} PickedAppend(a: seq<Part>, b: seq<Part>, keep: Part -> bool)
    ensures Picked(a + b, keep) == Picked(a, keep) + Picked(b, keep)
  {
    if b == [] {
      assert a + b == a;
    } else {
      var n := |b| - 1;
      PickedAppend(a, b[..n], keep);
      assert a + b == (a + b[..n]) + [b[n]] && b == b[..n] + [b[n]];
      PickedGrow(a + b[..n], b[n], keep);
      PickedGrow(b[..n], b[n], keep);
    }
  }

  /** Each item becomes parts of the kind exactly as it says. */
  ghost predicate Faithful(keep: Part -> bool, tell: Content -> seq<Part>, ids: set<string>) {
    && (forall t :: !keep(Text(t)))
    && forall c :: tell(c) == var part := BuildItem(c, ids); if part.Some? && keep(part.value) then [part.value] else []
  }

  lemma {:induction false} ItemsTell(
      contents: seq<Content>, ids: set<string>, keep: Part -> bool, tell: Content -> seq<Part>)
    requires Faithful(keep, tell, ids)
    ensures Picked(BuildItems(contents, ids), keep) == Told(contents, tell)
  {
    if contents != [] {
      var front, c := contents[..|contents| - 1], contents[|contents| - 1];
      ItemsTell(front, ids, keep, tell);
      var part := BuildItem(c, ids);
      if part.Some? {
        PickedGrow(BuildItems(front, ids), part.value, keep);
      } else {
        assert BuildItems(front, ids) + [] == BuildItems(front, ids);
      }
    }
  }

  lemma MessageTells(m: Message, ids: set<string>, keep: Part -> bool, tell: Content -> seq<Part>)
    requires Faithful(keep, tell, ids)
    ensures Picked(BuildMessage(m, ids), keep) == Told(m.contents, tell)
  {
    ItemsTell(m.contents, ids, keep, tell);
    PickedAppend([Text(m.text)], BuildItems(m.contents, ids), keep);
    assert [] + [Text(m.text)] == [Text(m.text)];
    PickedGrow([], Text(m.text), keep);
  }

  lemma {:induction false} InputsTell(
      messages: seq<Message>, ids: set<string>, keep: Part -> bool, tell: Content -> seq<Part>)
    requires Faithful(keep, tell, ids)
    ensures Picked(Flat(BuildInputs(messages, ids)), keep) == ToldByAll(messages, tell)
  {
    if messages != [] {
      var front, m := messages[..|messages| - 1], messages[|messages| - 1];
      InputsTell(front, ids, keep, tell);
      MessageTells(m, ids, keep, tell);
      if Sent(m, ids) {
        FlatGrow(BuildInputs(front, ids), BuildMessage(m, ids));
        PickedAppend(Flat(BuildInputs(front, ids)), BuildMessage(m, ids), keep);
      } else {
        assert BuildInputs(front, ids) + [] == BuildInputs(front, ids);
        assert ToldByAll(front, tell) + [] == ToldByAll(front, tell);
      }
    }
  }

  /** Parts of another kind may be replaced by parts of another kind. */
  lemma {:induction false} PickedSame(a: seq<Part>, b: seq<Part>, keep: Part -> bool)
    requires |a| == |b| && forall i | 0 <= i < |a| :: a[i] == b[i] || (!keep(a[i]) && !keep(b[i]))
    ensures Picked(a, keep) == Picked(b, keep)
  {
    if a != [] {
      PickedSame(a[..|a| - 1], b[..|b| - 1], keep);
    }
  }

  // ---- calls -------------------------------------------------------------------------------

  predicate IsCall(p: Part) {
    p.ComputerCall? || p.FunctionCall?
  }

  /** A call named "computer" is a computer call, any other a function call, with its id and arguments. */
  function CallOf(c: Content): seq<Part> {
    if c.Call? && c.name == "computer" then [ComputerCall(c.callId, c.arguments)]
    else if c.Call? then [FunctionCall(c.callId, c.name, c.arguments)]
    else []
  }

  lemma CallsFaithful(ids: set<string>)
    ensures Faithful(IsCall, CallOf, ids)
  {
  }

  /** The calls of the request are those of the messages, in order, compaction or not. */
  lemma RequestHasCalls(messages: seq<Message>, max: nat)
    ensures Picked(RequestParts(messages, max), IsCall) == ToldByAll(messages, CallOf)
  {
    var ids := ComputerIds(messages);
    var built := Flat(BuildInputs(messages, ids));
    CallsFaithful(ids);
    InputsTell(messages, ids, IsCall, CallOf);
    CompactKeepsLastImages(built, max);
    PickedSame(built, RequestParts(messages, max), IsCall);
  }

  // ---- results -----------------------------------------------------------------------------

  predicate IsResult(p: Part) {
    p.ComputerOutput? || p.FunctionResult?
  }

  /** A string is a screenshot in base 64, a dictionary is itself, anything else an empty dictionary. */
  function ScreenOf(r: ToolResult): Output {
    match r
    case StringResult(base64) => Output("computer_screenshot", "data:image/png;base64," + base64, "")
    case DictResult(output) => output
    case OtherResult(_) => Output("", "", "")
  }

  /** The result of a computer call is its output, any other stays as it is. */
  function ResultOf(ids: set<string>): Content -> seq<Part> {
    (c: Content) =>
      if !c.Result? then []
      else if c.callId in ids then [ComputerOutput(c.callId, ScreenOf(c.result))]
      else [FunctionResult(c.callId, c.result)]
  }

  lemma ResultsFaithful(ids: set<string>)
    ensures Faithful(IsResult, ResultOf(ids), ids)
  {
  }

  /** Before compaction the results are those of the messages, in order. */
  lemma RequestHasResults(messages: seq<Message>)
    ensures var ids := ComputerIds(messages);
            Picked(Flat(BuildInputs(messages, ids)), IsResult) == ToldByAll(messages, ResultOf(ids))
  {
    var ids := ComputerIds(messages);
    ResultsFaithful(ids);
    InputsTell(messages, ids, IsResult, ResultOf(ids));
  }

  // ---- images ------------------------------------------------------------------------------

  /**
   What counts as an image: image media, and a computer call's result that is a string, or a dictionary that is a
   screenshot or has an image.
   */
  predicate ShowsImage(c: Content, ids: set<string>) {
    || (c.Media? && c.isImage)
    || (c.Result? && c.callId in ids &&
        (c.result.StringResult? ||
         (c.result.DictResult? && (c.result.output.kind == "computer_screenshot" || c.result.output.imageUrl != ""))))
  }

  function ImageOf(ids: set<string>): Content -> seq<Part> {
    (c: Content) =>
      if !ShowsImage(c, ids) then []
      else if c.Media? then [Image(c.uri)]
      else [ComputerOutput(c.callId, ScreenOf(c.result))]
  }

  lemma ImagesFaithful(ids: set<string>)
    ensures Faithful(IsImage, ImageOf(ids), ids)
  {
  }

  lemma {:induction false} ImagesPicked(parts: seq<Part>)
    ensures Images(parts) == Picked(parts, IsImage)
  {
    if parts != [] { ImagesPicked(parts[..|parts| - 1]); }
  }

  /** The images of the request are the last `max` of those the messages show. */
  lemma RequestHasLastImages(messages: seq<Message>, max: nat)
    ensures var shown := ToldByAll(messages, ImageOf(ComputerIds(messages)));
            Images(RequestParts(messages, max)) == if |shown| <= max then shown else shown[|shown| - max..]
  {
    var ids := ComputerIds(messages);
    var built := Flat(BuildInputs(messages, ids));
    ImagesFaithful(ids);
    InputsTell(messages, ids, IsImage, ImageOf(ids));
    ImagesPicked(built);
    CompactKeepsLastImages(built, max);
  }

  // ---- text --------------------------------------------------------------------------------

  /** The texts of the items of a message that have any. */
  function ItemTexts(contents: seq<Content>): seq<Part> {
    if contents == [] then []
    else
      var c := contents[|contents| - 1];
      ItemTexts(contents[..|contents| - 1]) + if c.TextContent? && c.text != "" then [Text(c.text)] else []
  }

  predicate IsText(p: Part) {
    p.Text?
  }

  lemma {:induction false} ItemsText(contents: seq<Content>, ids: set<string>)
    ensures Picked(BuildItems(contents, ids), IsText) == ItemTexts(contents)
  {
    if contents != [] {
      var front, c := contents[..|contents| - 1], contents[|contents| - 1];
      ItemsText(front, ids);
      var part := BuildItem(c, ids);
      if part.Some? {
        PickedGrow(BuildItems(front, ids), part.value, IsText);
      } else {
        assert BuildItems(front, ids) + [] == BuildItems(front, ids);
      }
    }
  }

  lemma {:induction false} NoText(parts: seq<Part>)
    ensures HasText(parts) <==> Picked(parts, IsText) != []
  {
    if parts != [] {
      var n := |parts| - 1;
      NoText(parts[..n]);
      assert parts == parts[..n] + [parts[n]];
      HasTextGrow(parts[..n], parts[n]);
    }
  }

  /** A message's texts are those of its items, and its own only if no item has any. */
  lemma MessageText(m: Message, ids: set<string>)
    ensures Picked(BuildMessage(m, ids), IsText) ==
            if ItemTexts(m.contents) != [] then ItemTexts(m.contents) else if m.text != "" then [Text(m.text)] else []
  {
    var parts := BuildItems(m.contents, ids);
    ItemsText(m.contents, ids);
    NoText(parts);
    PickedAppend([Text(m.text)], parts, IsText);
    assert [] + [Text(m.text)] == [Text(m.text)];
    PickedGrow([], Text(m.text), IsText);
  }

  // ---- every computer output answers a call of the request ---------------------------------

  lemma {:induction false} PickedMember(parts: seq<Part>, keep: Part -> bool, p: Part)
    ensures p in Picked(parts, keep) <==> p in parts && keep(p)
  {
    if parts != [] {
      PickedMember(parts[..|parts| - 1], keep, p);
      assert parts == parts[..|parts| - 1] + [parts[|parts| - 1]];
    }
  }

  lemma {:induction false} ToldMember(contents: seq<Content>, tell: Content -> seq<Part>, c: Content, p: Part)
    requires c in contents && p in tell(c)
    ensures p in Told(contents, tell)
  {
    var n := |contents| - 1;
    assert contents == contents[..n] + [contents[n]];
    if contents[n] != c { ToldMember(contents[..n], tell, c, p); }
  }

  lemma {:induction false} ToldByMember(
      messages: seq<Message>, tell: Content -> seq<Part>, m: Message, c: Content, p: Part)
    requires m in messages && m.role != "system" && c in m.contents && p in tell(c)
    ensures p in ToldByAll(messages, tell)
  {
    var n := |messages| - 1;
    assert messages == messages[..n] + [messages[n]];
    if messages[n] == m { ToldMember(m.contents, tell, c, p); } else { ToldByMember(messages[..n], tell, m, c, p); }
  }

  /** A call of a message that is not a system message is in every request, as the call it is. */
  lemma CallIsSent(messages: seq<Message>, max: nat, m: Message, c: Content)
    requires m in messages && m.role != "system" && c in m.contents && c.Call?
    ensures (if c.name == "computer" then ComputerCall(c.callId, c.arguments)
             else FunctionCall(c.callId, c.name, c.arguments)) in RequestParts(messages, max)
  {
    var p := CallOf(c)[0];
    ToldByMember(messages, CallOf, m, c, p);
    RequestHasCalls(messages, max);
    PickedMember(RequestParts(messages, max), IsCall, p);
  }

  /**
   Every computer output of a request has the id of a call named "computer" in the messages, and a computer call with
   that id is in the request unless every such call is in a system message.
   */
  lemma OutputsAnswerCalls(messages: seq<Message>, max: nat, id: string, output: Output)
    requires ComputerOutput(id, output) in RequestParts(messages, max)
    ensures exists m, c :: m in messages && c in m.contents && c.Call? && c.name == "computer" && c.callId == id
    ensures (exists m, c ::
               m in messages && m.role != "system" && c in m.contents &&
               c.Call? && c.name == "computer" && c.callId == id) ==>
            exists arguments :: ComputerCall(id, arguments) in RequestParts(messages, max)
  {
    ComputerCallsArePaired(messages, max);
    var sent := RequestParts(messages, max);
    var i :| 0 <= i < |sent| && sent[i] == ComputerOutput(id, output);
    assert WellPaired(sent[i], ComputerIds(messages));
    var a, b :| 0 <= a < |messages| && 0 <= b < |messages[a].contents| && IsComputerCall(messages[a].contents[b])
                && messages[a].contents[b].callId == id;
    assert messages[a] in messages && messages[a].contents[b] in messages[a].contents;
    if m, c :|
      (m in messages && m.role != "system" && c in m.contents && c.Call? && c.name == "computer" && c.callId == id)
    {
      CallIsSent(messages, max, m, c);
    }
  }

  // ---- instructions, and which message each input comes from -------------------------------

  /** The texts of the content items that are not empty. */
  function TextStrings(contents: seq<Content>): seq<string> {
    if contents == [] then []
    else
      var c := contents[|contents| - 1];
      TextStrings(contents[..|contents| - 1]) + if c.TextContent? && c.text != "" then [c.text] else []
  }

  /** What the system messages say: the texts of their items, or their own text if no item has any. */
  function SystemTexts(messages: seq<Message>): seq<string> {
    if messages == [] then []
    else
      var m := messages[|messages| - 1];
      SystemTexts(messages[..|messages| - 1])
      + if m.role != "system" then []
        else if TextStrings(m.contents) != [] then TextStrings(m.contents)
        else if m.text != "" then [m.text] else []
  }

  lemma TextsGrow(parts: seq<Part>, p: Part)
    ensures Texts(parts + [p]) == Texts(parts) + if p.Text? && p.text != "" then [p.text] else []
  {
    assert (parts + [p])[..|parts|] == parts;
  }

  lemma {:induction false} ItemStrings(contents: seq<Content>, ids: set<string>)
    ensures Texts(BuildItems(contents, ids)) == TextStrings(contents)
    ensures HasText(BuildItems(contents, ids)) <==> TextStrings(contents) != []
  {
    if contents != [] {
      var front, c := contents[..|contents| - 1], contents[|contents| - 1];
      ItemStrings(front, ids);
      var part := BuildItem(c, ids);
      if part.Some? {
        TextsGrow(BuildItems(front, ids), part.value);
        HasTextGrow(BuildItems(front, ids), part.value);
      } else {
        assert BuildItems(front, ids) + [] == BuildItems(front, ids);
      }
    }
  }

  lemma {:induction false} NoStrings(parts: seq<Part>, t: string)
    requires !HasText(parts)
    ensures Texts([Text(t)] + parts) == if t == "" then [] else [t]
  {
    if parts == [] {
      TextsGrow([], Text(t));
      assert [Text(t)] + parts == [] + [Text(t)];
    } else {
      var n := |parts| - 1;
      HasTextGrow(parts[..n], parts[n]);
      assert parts == parts[..n] + [parts[n]];
      NoStrings(parts[..n], t);
      assert [Text(t)] + parts == ([Text(t)] + parts[..n]) + [parts[n]];
      TextsGrow([Text(t)] + parts[..n], parts[n]);
    }
  }

  /** The instructions are what the system messages say, in order. */
  lemma {:induction false} InstructionsAre(messages: seq<Message>, ids: set<string>)
    ensures Instructions(messages, ids) == SystemTexts(messages)
  {
    if messages != [] {
      var front, m := messages[..|messages| - 1], messages[|messages| - 1];
      InstructionsAre(front, ids);
      ItemStrings(m.contents, ids);
      if m.text != "" && !HasText(BuildItems(m.contents, ids)) { NoStrings(BuildItems(m.contents, ids), m.text); }
    }
  }

  /** The parts of each message. */
  function Built(messages: seq<Message>, ids: set<string>): (r: seq<seq<Part>>)
    ensures |r| == |messages|
  {
    seq(|messages|, i requires 0 <= i < |messages| => BuildMessage(messages[i], ids))
  }

  /** Input `j` comes from the message at `at[j]`, and no other message that is not a system message has parts. */
  predicate ComesFrom(
      messages: seq<Message>, built: seq<seq<Part>>, at: seq<nat>, inputs: seq<seq<Part>>, roles: seq<string>) {
    && |built| == |messages| && |at| == |inputs| == |roles|
    && (forall j | 0 <= j < |at| :: at[j] < |messages| && InputOf(messages[at[j]], built[at[j]], inputs[j], roles[j]))
    && (forall i, j | 0 <= i < j < |at| :: at[i] < at[j])
    && (forall k | 0 <= k < |messages| && k !in at :: messages[k].role == "system" || built[k] == [])
  }

  predicate InputOf(m: Message, parts: seq<Part>, input: seq<Part>, role: string) {
    m.role != "system" && role == m.role && input == parts && parts != []
  }

  lemma InputAdded(
      messages: seq<Message>, built: seq<seq<Part>>, at: seq<nat>, inputs: seq<seq<Part>>, roles: seq<string>,
      m: Message, parts: seq<Part>)
    requires ComesFrom(messages, built, at, inputs, roles) && m.role != "system" && parts != []
    ensures ComesFrom(messages + [m], built + [parts], at + [|messages|], inputs + [parts], roles + [m.role])
  {
    assert (at + [|messages|])[|at|] == |messages|;
    forall k | 0 <= k < |messages| + 1 && k !in at + [|messages|]
      ensures (messages + [m])[k].role == "system" || (built + [parts])[k] == []
    {
      assert k < |messages| && k !in at;
    }
  }

  lemma InputSkipped(
      messages: seq<Message>, built: seq<seq<Part>>, at: seq<nat>, inputs: seq<seq<Part>>, roles: seq<string>,
      m: Message, parts: seq<Part>)
    requires ComesFrom(messages, built, at, inputs, roles) && (m.role == "system" || parts == [])
    ensures ComesFrom(messages + [m], built + [parts], at, inputs, roles)
  {
  }

  /** There is an input for each message that is not a system message and has parts, in the order of the messages. */
  lemma {:induction false} InputsComeFrom(messages: seq<Message>, ids: set<string>) returns (at: seq<nat>)
    ensures ComesFrom(messages, Built(messages, ids), at, BuildInputs(messages, ids), SentRoles(messages, ids))
  {
    at := [];
    if messages != [] {
      var front, m := messages[..|messages| - 1], messages[|messages| - 1];
      var before := InputsComeFrom(front, ids);
      var parts := BuildMessage(m, ids);
      assert messages == front + [m] && Built(messages, ids) == Built(front, ids) + [parts];
      if Sent(m, ids) {
        at := before + [|front|];
        InputAdded(front, Built(front, ids), before, BuildInputs(front, ids), SentRoles(front, ids), m, parts);
      } else {
        at := before;
        InputSkipped(front, Built(front, ids), before, BuildInputs(front, ids), SentRoles(front, ids), m, parts);
        assert BuildInputs(front, ids) + [] == BuildInputs(front, ids);
        assert SentRoles(front, ids) + [] == SentRoles(front, ids);
      }
    }
  }
}
