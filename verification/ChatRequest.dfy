/**
 Building a request from chat messages: core/app/llmhubs/chat_client.py, where the results of computer
 calls are turned back into `computer_call_output` parts before images are compacted.
 */
module ChatRequest {
  import opened Options
  import opened ImageCompaction

  /** The content items of a message; `None` stands for an item type without a builder. */
  datatype Content =
    | TextContent(text: string)
    | Call(callId: string, name: string, arguments: string)
    | Result(callId: string, result: ToolResult)
    | Media(isImage: bool, uri: string)
    | Unknown

  datatype Message = Message(role: string, contents: seq<Content>, text: string)

  // ---- one item ----------------------------------------------------------------------------

  function OutputOf(r: ToolResult): Output {
    match r
    case DictResult(output) => output
    case StringResult(base64) => Output("computer_screenshot", "data:image/png;base64," + base64, "")
    case OtherResult(_) => Output("", "", "")
  }

  function BuildItem(c: Content, ids: set<string>): Option<Part> {
    match c
    case TextContent(text) => if text == "" then None else Some(Text(text))
    case Call(callId, name, arguments) =>
      Some(if name == "computer" then ComputerCall(callId, arguments) else FunctionCall(callId, name, arguments))
    case Result(callId, result) =>
      Some(if callId in ids then ComputerOutput(callId, OutputOf(result)) else FunctionResult(callId, result))
    case Media(isImage, uri) => if isImage then Some(Image(uri)) else None
    case Unknown => None
  }

  function BuildItems(contents: seq<Content>, ids: set<string>): seq<Part> {
    if contents == [] then []
    else
      var part := BuildItem(contents[|contents| - 1], ids);
      BuildItems(contents[..|contents| - 1], ids) + if part.Some? then [part.value] else []
  }

  predicate HasText(parts: seq<Part>) {
    exists i | 0 <= i < |parts| :: parts[i].Text?
  }

  /** The parts of one message; its `text` comes first if no item carries text. */
  function BuildMessage(m: Message, ids: set<string>): seq<Part> {
    var parts := BuildItems(m.contents, ids);
    if m.text != "" && !HasText(parts) then [Text(m.text)] + parts else parts
  }

  // ---- all messages ------------------------------------------------------------------------

  predicate IsComputerCall(c: Content) {
    c.Call? && c.name == "computer"
  }

  /** The ids of computer calls anywhere in the messages. */
  function ComputerIds(messages: seq<Message>): set<string> {
    set m, c | 0 <= m < |messages| && 0 <= c < |messages[m].contents| && IsComputerCall(messages[m].contents[c]) ::
      messages[m].contents[c].callId
  }

  predicate Sent(m: Message, ids: set<string>) {
    m.role != "system" && BuildMessage(m, ids) != []
  }

  /** The inputs before compaction: one for each message that is not a system message and has parts. */
  function BuildInputs(messages: seq<Message>, ids: set<string>): seq<seq<Part>> {
    if messages == [] then []
    else
      var m := messages[|messages| - 1];
      BuildInputs(messages[..|messages| - 1], ids) + if Sent(m, ids) then [BuildMessage(m, ids)] else []
  }

  function SentRoles(messages: seq<Message>, ids: set<string>): seq<string> {
    if messages == [] then []
    else
      var m := messages[|messages| - 1];
      SentRoles(messages[..|messages| - 1], ids) + if Sent(m, ids) then [m.role] else []
  }

  function Texts(parts: seq<Part>): seq<string> {
    if parts == [] then []
    else
      var p := parts[|parts| - 1];
      Texts(parts[..|parts| - 1]) + if p.Text? && p.text != "" then [p.text] else []
  }

  /** The texts of the system messages, which become the instructions. */
  function Instructions(messages: seq<Message>, ids: set<string>): seq<string> {
    if messages == [] then []
    else
      var m := messages[|messages| - 1];
      Instructions(messages[..|messages| - 1], ids) + if m.role == "system" then Texts(BuildMessage(m, ids)) else []
  }

  /** All parts of the request, in order. */
  function RequestParts(messages: seq<Message>, max: nat): seq<Part> {
    Compact(Flat(BuildInputs(messages, ComputerIds(messages))), max)
  }

  // ---- pairing -----------------------------------------------------------------------------

  predicate WellPaired(p: Part, ids: set<string>) {
    && (p.FunctionResult? ==> p.callId !in ids)
    && (p.ComputerOutput? ==> p.callId in ids)
  }

  predicate AllPaired(parts: seq<Part>, ids: set<string>) {
    forall i | 0 <= i < |parts| :: WellPaired(parts[i], ids)
  }

  lemma {:induction false} ItemsPaired(contents: seq<Content>, ids: set<string>)
    ensures AllPaired(BuildItems(contents, ids), ids)
  {
    if contents != [] {
      ItemsPaired(contents[..|contents| - 1], ids);
    }
  }

  lemma {:induction false} InputsPaired(messages: seq<Message>, ids: set<string>)
    ensures AllPaired(Flat(BuildInputs(messages, ids)), ids)
  {
    if messages != [] {
      var front, m := messages[..|messages| - 1], messages[|messages| - 1];
      InputsPaired(front, ids);
      if Sent(m, ids) {
        ItemsPaired(m.contents, ids);
        assert AllPaired(BuildMessage(m, ids), ids);
        FlatGrow(BuildInputs(front, ids), BuildMessage(m, ids));
      } else {
        assert BuildInputs(front, ids) + [] == BuildInputs(front, ids);
      }
    }
  }

  lemma FlatGrow(lists: seq<seq<Part>>, l: seq<Part>)
    ensures Flat(lists + [l]) == Flat(lists) + l
  {
    assert (lists + [l])[..|lists|] == lists;
  }

  /** The results of computer calls in messages that are not system messages, in order. */
  function ResultsOf(contents: seq<Content>, ids: set<string>): seq<Part> {
    if contents == [] then []
    else
      var c := contents[|contents| - 1];
      ResultsOf(contents[..|contents| - 1], ids)
      + if c.Result? && c.callId in ids then [ComputerOutput(c.callId, OutputOf(c.result))] else []
  }

  function ComputerResults(messages: seq<Message>, ids: set<string>): seq<Part> {
    if messages == [] then []
    else
      var m := messages[|messages| - 1];
      ComputerResults(messages[..|messages| - 1], ids) + if m.role != "system" then ResultsOf(m.contents, ids) else []
  }

  function OutputsIn(parts: seq<Part>): seq<Part> {
    if parts == [] then []
    else OutputsIn(parts[..|parts| - 1]) + if parts[|parts| - 1].ComputerOutput? then [parts[|parts| - 1]] else []
  }

  lemma OutputsGrow(parts: seq<Part>, p: Part)
    ensures OutputsIn(parts + [p]) == OutputsIn(parts) + if p.ComputerOutput? then [p] else []
  {
    assert (parts + [p])[..|parts|] == parts;
  }

  lemma {:induction false} OutputsAppend(a: seq<Part>, b: seq<Part>)
    ensures OutputsIn(a + b) == OutputsIn(a) + OutputsIn(b)
  {
    if b == [] {
      assert a + b == a;
    } else {
      var n := |b| - 1;
      OutputsAppend(a, b[..n]);
      assert a + b == (a + b[..n]) + [b[n]] && b == b[..n] + [b[n]];
      OutputsGrow(a + b[..n], b[n]);
      OutputsGrow(b[..n], b[n]);
    }
  }

  lemma {:induction false} ItemsKeepResults(contents: seq<Content>, ids: set<string>)
    ensures OutputsIn(BuildItems(contents, ids)) == ResultsOf(contents, ids)
  {
    if contents != [] {
      var front, c := contents[..|contents| - 1], contents[|contents| - 1];
      ItemsKeepResults(front, ids);
      ItemKeepsResult(BuildItems(front, ids), c, ids);
    }
  }

  lemma ItemKeepsResult(parts: seq<Part>, c: Content, ids: set<string>)
    ensures var part := BuildItem(c, ids);
            OutputsIn(parts + if part.Some? then [part.value] else []) ==
            OutputsIn(parts) +
            if c.Result? && c.callId in ids then [ComputerOutput(c.callId, OutputOf(c.result))] else []
  {
    var part := BuildItem(c, ids);
    if part.Some? {
      OutputsGrow(parts, part.value);
    } else {
      assert parts + [] == parts && OutputsIn(parts) + [] == OutputsIn(parts);
    }
  }

  lemma MessageKeepsResults(m: Message, ids: set<string>)
    ensures OutputsIn(BuildMessage(m, ids)) == ResultsOf(m.contents, ids)
  {
    ItemsKeepResults(m.contents, ids);
    var parts := BuildItems(m.contents, ids);
    OutputsAppend([Text(m.text)], parts);
    assert OutputsIn([Text(m.text)]) == OutputsIn([]);
  }

  /** Before compaction, every computer result of a message that is not a system message is there, in order. */
  lemma {:induction false} InputsKeepResults(messages: seq<Message>, ids: set<string>)
    ensures OutputsIn(Flat(BuildInputs(messages, ids))) == ComputerResults(messages, ids)
  {
    if messages != [] {
      var front, m := messages[..|messages| - 1], messages[|messages| - 1];
      InputsKeepResults(front, ids);
      MessageKeepsResults(m, ids);
      if Sent(m, ids) {
        FlatGrow(BuildInputs(front, ids), BuildMessage(m, ids));
        OutputsAppend(Flat(BuildInputs(front, ids)), BuildMessage(m, ids));
      } else {
        assert BuildInputs(front, ids) + [] == BuildInputs(front, ids);
        assert ComputerResults(front, ids) + [] == ComputerResults(front, ids);
      }
    }
  }

  /**
   In every request: no plain result carries the id of a computer call, every computer output answers a
   computer call in the messages, and the computer results of the messages are all there, in order, but
   for those that compaction replaced by its placeholder.
   */
  lemma ComputerCallsArePaired(messages: seq<Message>, max: nat)
    ensures var ids := ComputerIds(messages);
            var built, sent := Flat(BuildInputs(messages, ids)), RequestParts(messages, max);
            && AllPaired(sent, ids)
            && OutputsIn(built) == ComputerResults(messages, ids)
            && |sent| == |built|
            && forall i | 0 <= i < |built| && sent[i] != built[i] ::
                 IsImage(built[i]) && sent[i] == Part.Text("[image omitted]")
  {
    var ids := ComputerIds(messages);
    var built := Flat(BuildInputs(messages, ids));
    InputsPaired(messages, ids);
    InputsKeepResults(messages, ids);
    CompactKeepsLastImages(built, max);
    var sent := Compact(built, max);
    forall i | 0 <= i < |sent| ensures WellPaired(sent[i], ids) {
      assert WellPaired(built[i], ids);
    }
  }

  // ---- the builder as it runs --------------------------------------------------------------

  /** `_scan_computer_call_ids`. */
  method ScanComputerCallIds(messages: seq<Message>) returns (ids: set<string>)
    ensures ids == ComputerIds(messages)
  {
    ids := {};
    var m := 0;
    while m < |messages|
      invariant 0 <= m <= |messages| && ids == ComputerIds(messages[..m])
    {
      var c := 0;
      var contents := messages[m].contents;
      while c < |contents|
        invariant 0 <= c <= |contents|
        invariant ids == ComputerIds(messages[..m]) + IdsIn(contents[..c])
      {
        assert contents[..c + 1] == contents[..c] + [contents[c]];
        if IsComputerCall(contents[c]) {
          ids := ids + {contents[c].callId};
        }
        c := c + 1;
      }
      assert contents[..|contents|] == contents;
      ComputerIdsGrow(messages[..m], messages[m]);
      assert messages[..m + 1] == messages[..m] + [messages[m]];
      m := m + 1;
    }
    assert messages[..|messages|] == messages;
  }

  function IdsIn(contents: seq<Content>): set<string> {
    set c | 0 <= c < |contents| && IsComputerCall(contents[c]) :: contents[c].callId
  }

  lemma ComputerIdsGrow(messages: seq<Message>, m: Message)
    ensures ComputerIds(messages + [m]) == ComputerIds(messages) + IdsIn(m.contents)
  {
    var all := messages + [m];
    forall id ensures id in ComputerIds(all) <==> id in ComputerIds(messages) + IdsIn(m.contents) {
      if id in IdsIn(m.contents) {
        var c :| 0 <= c < |m.contents| && IsComputerCall(m.contents[c]) && m.contents[c].callId == id;
        assert all[|messages|].contents[c].callId == id;
      }
      if id in ComputerIds(messages) {
        var i, c :| 0 <= i < |messages| && 0 <= c < |messages[i].contents| && IsComputerCall(messages[i].contents[c])
                    && messages[i].contents[c].callId == id;
        assert all[i].contents[c].callId == id;
      }
    }
  }

  lemma HasTextGrow(parts: seq<Part>, p: Part)
    ensures HasText(parts + [p]) <==> HasText(parts) || p.Text?
  {
    var all := parts + [p];
    if HasText(parts) {
      var i :| 0 <= i < |parts| && parts[i].Text?;
      assert all[i].Text?;
    }
    if p.Text? { assert all[|parts|].Text?; }
  }

  /** `_build_input_contents_from_message`. */
  method BuildContents(m: Message, ids: set<string>) returns (parts: seq<Part>)
    ensures parts == BuildMessage(m, ids)
  {
    parts := [];
    var c, hasText := 0, false;
    while c < |m.contents|
      invariant 0 <= c <= |m.contents| && parts == BuildItems(m.contents[..c], ids)
      invariant hasText == HasText(parts)
    {
      assert m.contents[..c + 1][..c] == m.contents[..c];
      var part := BuildItem(m.contents[c], ids);
      if part.Some? {
        HasTextGrow(parts, part.value);
        parts := parts + [part.value];
        hasText := hasText || part.value.Text?;
      }
      c := c + 1;
    }
    assert m.contents[..|m.contents|] == m.contents;
    if m.text != "" && !hasText {
      parts := [Text(m.text)] + parts;
    }
  }

  function Roles(inputs: seq<Input>): seq<string> {
    seq(|inputs|, i requires 0 <= i < |inputs| => inputs[i].role)
  }

  method TextsOf(parts: seq<Part>) returns (texts: seq<string>)
    ensures texts == Texts(parts)
  {
    texts := [];
    var i := 0;
    while i < |parts|
      invariant 0 <= i <= |parts| && texts == Texts(parts[..i])
    {
      assert parts[..i + 1][..i] == parts[..i];
      if parts[i].Text? && parts[i].text != "" {
        texts := texts + [parts[i].text];
      }
      i := i + 1;
    }
    assert parts[..|parts|] == parts;
  }

  /** What the next message adds to the instructions and inputs. */
  lemma MessageBuilt(messages: seq<Message>, m: nat, ids: set<string>)
    requires m < |messages|
    ensures var x, before, after := messages[m], messages[..m], messages[..m + 1];
            var parts := BuildMessage(x, ids);
            if parts == [] || x.role == "system" then
              && BuildInputs(after, ids) == BuildInputs(before, ids) && SentRoles(after, ids) == SentRoles(before, ids)
              && Instructions(after, ids) == Instructions(before, ids) + Texts(parts)
            else
              && BuildInputs(after, ids) == BuildInputs(before, ids) + [parts]
              && SentRoles(after, ids) == SentRoles(before, ids) + [x.role]
              && Instructions(after, ids) == Instructions(before, ids)
  {
    assert messages[..m + 1][..m] == messages[..m];
  }

  /** The inputs have these contents and roles. */
  predicate Holds(inputs: seq<Input>, lists: seq<seq<Part>>, roles: seq<string>)
    reads inputs
  {
    && |inputs| == |lists| == |roles|
    && forall i | 0 <= i < |inputs| :: inputs[i].content == lists[i] && inputs[i].role == roles[i]
  }

  lemma HeldContents(inputs: seq<Input>, lists: seq<seq<Part>>, roles: seq<string>)
    requires Holds(inputs, lists, roles)
    ensures Contents(inputs) == lists && Roles(inputs) == roles
  {
  }

  /** The loop over the messages: system texts are collected, every other message with parts becomes an input. */
  method CollectInputs(messages: seq<Message>, ids: set<string>) returns (instructions: seq<string>, inputs: seq<Input>)
    ensures instructions == Instructions(messages, ids)
    ensures Contents(inputs) == BuildInputs(messages, ids) && Roles(inputs) == SentRoles(messages, ids)
    ensures Separate(inputs) && forall i | 0 <= i < |inputs| :: fresh(inputs[i])
  {
    instructions, inputs := [], [];
    var m := 0;
    while m < |messages|
      invariant 0 <= m <= |messages| && instructions == Instructions(messages[..m], ids)
      invariant Holds(inputs, BuildInputs(messages[..m], ids), SentRoles(messages[..m], ids))
      invariant Separate(inputs) && forall i | 0 <= i < |inputs| :: fresh(inputs[i])
    {
      MessageBuilt(messages, m, ids);
      var parts := BuildContents(messages[m], ids);
      if parts != [] {
        if messages[m].role == "system" {
          var texts := TextsOf(parts);
          instructions := instructions + texts;
        } else {
          var input := new Input(messages[m].role, parts);
          inputs := inputs + [input];
        }
      }
      m := m + 1;
    }
    assert messages[..|messages|] == messages;
    HeldContents(inputs, BuildInputs(messages, ids), SentRoles(messages, ids));
  }

  /** `_chat_messages_to_llm_request`, as far as instructions and inputs are concerned. */
  method BuildRequest(messages: seq<Message>, max: nat) returns (instructions: seq<string>, inputs: seq<Input>)
    ensures instructions == Instructions(messages, ComputerIds(messages))
    ensures Flat(Contents(inputs)) == RequestParts(messages, max)
    ensures Roles(inputs) == SentRoles(messages, ComputerIds(messages))
    ensures var built := BuildInputs(messages, ComputerIds(messages));
            ReplacedIn(built, Excess(Flat(built), max), Contents(inputs))
    ensures forall i | 0 <= i < |inputs| :: fresh(inputs[i])
  {
    var ids := ScanComputerCallIds(messages);
    instructions, inputs := CollectInputs(messages, ids);
    CompactImages(inputs, max);
  }
}
