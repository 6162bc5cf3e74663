/** Server-sent events: printing them, and forwarding a child agent's events to the parent. */
module Sse {
  import opened Options
  import opened JsonText
  import opened TextLines

  // ----- Printing

  /** `format_sse_event`, for an event whose JSON text is given. */
  function Event(name: string, text: string): string {
    "event: " + name + "\ndata: " + text + "\n\n"
  }

  /** An event without a name. */
  function Data(text: string): string {
    "data: " + text + "\n\n"
  }

  const Done := "data: [DONE]\n\n"

  datatype Header = Header(id: string, created: int, model: string)

  function DeltaOf(first: bool, content: string): Json {
    Obj((if first then map["role" := Str("assistant")] else map[])
        + (if content != "" then map["content" := Str(content)] else map[]))
  }

  function ChunkOf(h: Header, first: bool, content: string, finish: Option<string>): Json {
    var choice := Obj(map["index" := Num(0), "delta" := DeltaOf(first, content),
                          "finish_reason" := OptionalStr(finish)]);
    Obj(map["id" := Str(h.id), "object" := Str("chat.completion.chunk"), "created" := Num(h.created),
            "model" := Str(h.model), "choices" := Arr([choice])])
  }

  /** The state of one streamed response. */
  class StreamingState {
    const header: Header
    var currentText: string
    var isFirstChunk: bool

    constructor (header: Header)
      ensures this.header == header && currentText == "" && isFirstChunk
    {
      this.header, currentText, isFirstChunk := header, "", true;
    }

    method MarkFirstChunkSent()
      modifies this`isFirstChunk
      ensures !isFirstChunk
    {
      isFirstChunk := false;
    }

    method AppendContent(content: string)
      modifies this`currentText
      ensures currentText == old(currentText) + content
    {
      currentText := currentText + content;
    }
  }

  /** `format_content_chunk`. */
  method FormatContentChunk(c: Codec, content: string, state: StreamingState, finish: Option<string>)
    returns (chunk: string)
    modifies state
    ensures chunk == Data(c.dumps(ChunkOf(state.header, old(state.isFirstChunk), content, finish)))
    ensures state.currentText == old(state.currentText) + content
    ensures !state.isFirstChunk
  {
    var delta: Record := map[];
    if state.isFirstChunk { delta := delta["role" := Str("assistant")]; }
    if content != "" { delta := delta["content" := Str(content)]; }
    assert delta == DeltaOf(state.isFirstChunk, content).members;
    var choice := Obj(map["index" := Num(0), "delta" := Obj(delta), "finish_reason" := OptionalStr(finish)]);
    chunk := Data(c.dumps(Obj(map["id" := Str(state.header.id), "object" := Str("chat.completion.chunk"),
                                  "created" := Num(state.header.created), "model" := Str(state.header.model),
                                  "choices" := Arr([choice])])));
    if content != "" { state.AppendContent(content); }
    if state.isFirstChunk { state.MarkFirstChunkSent(); }
  }

  // ----- Parsing

  datatype Fields = Fields(name: string, data: string)

  predicate StartsWith(s: string, prefix: string) {
    |prefix| <= |s| && s[..|prefix|] == prefix
  }

  function TakeField(f: Fields, line: string): Fields {
    if StartsWith(line, "event: ") then f.(name := line[7..])
    else if StartsWith(line, "data: ") then f.(data := line[6..])
    else f
  }

  /** The last event name and the last data among some lines. */
  function FieldsOf(lines: seq<string>): Fields {
    if lines == [] then Fields("", "")
    else TakeField(FieldsOf(lines[..|lines| - 1]), Strip(lines[|lines| - 1]))
  }

  function Parsed(raw: string): Fields {
    FieldsOf(SplitLines(Strip(raw)))
  }

  // ----- Forwarding

  /** What forwarding gives: text, which is empty when there is nothing to forward, or an
      exception. */
  datatype Outcome = Text(text: string) | Raises

  function ChildContent(agent: string, content: string): Json {
    Obj(map["type" := Str("child_content"), "agent_name" := Str(agent), "content" := Str(content)])
  }

  function Present(key: string, value: Json): Record {
    if value.Null? then map[] else map[key := value]
  }

  function ToolName(completed: bool): string {
    if completed then "child_tool_result" else "child_tool_start"
  }

  function ChildTool(agent: string, completed: bool, tool: string, id: Json, arguments: Json, result: Json): Json {
    Obj(map["type" := Str(ToolName(completed)), "agent_name" := Str(agent), "tool_name" := Str(tool)]
        + Present("tool_call_id", id) + Present("arguments", arguments) + Present("result", result))
  }

  predicate IsTool(name: string, data: Record) {
    name == "tool_call" || Get(data, "type", Null) == Str("tool_call")
  }

  function ForwardTool(c: Codec, agent: string, data: Record): Outcome {
    var completed := Get(data, "status", Str("started")) == Str("completed");
    var tool, id := Get(data, "tool_name", Str("")), Get(data, "tool_id", Null);
    var arguments := if completed then Null else Get(data, "arguments", Null);
    var result := if completed then Get(data, "result", Null) else Null;
    if !tool.Str? || !(id.Str? || id.Null?) || !(arguments.Obj? || arguments.Null?) then Raises
    else Text(Event(ToolName(completed), c.dumps(ChildTool(agent, completed, tool.text, id, arguments, result))))
  }

  function ForwardContent(c: Codec, agent: string, data: Record): Outcome {
    var choices := Get(data, "choices", Arr([]));
    if !Truthy(choices) then Text("")
    else if !choices.Arr? || !choices.items[0].Obj? then Raises
    else
      var delta := Get(choices.items[0].members, "delta", Obj(map[]));
      if !delta.Obj? then Raises
      else
        var content := Get(delta.members, "content", Str(""));
        if !Truthy(content) then Text("")
        else if !content.Str? then Raises
        else Text(Event("child_content", c.dumps(ChildContent(agent, content.text))))
  }

  function ForwardFields(c: Codec, agent: string, f: Fields): Outcome {
    if f.data == "" then Text("")
    else
      var data := c.loads(f.data);
      if data.None? then Text("")
      else if !data.value.Obj? then Raises
      else
        var m := data.value.members;
        if Get(m, "type", Null) == Str("done") || f.name == "done" then Text("")
        else if IsTool(f.name, m) then ForwardTool(c, agent, m)
        else ForwardContent(c, agent, m)
  }

  function Forwarded(c: Codec, agent: string, raw: string): Outcome {
    if Strip(raw) == "" || Strip(raw) == "data: [DONE]" then Text("")
    else ForwardFields(c, agent, Parsed(raw))
  }

  /** `format_child_event`. */
  method FormatChildEvent(c: Codec, agent: string, rawEvent: string) returns (out: Outcome)
    ensures out == Forwarded(c, agent, rawEvent)
  {
    var raw := Strip(rawEvent);
    if raw == "" || raw == "data: [DONE]" { return Text(""); }
    var name, text := "", "";
    var lines := SplitLines(raw);
    for i := 0 to |lines|
      invariant Fields(name, text) == FieldsOf(lines[..i])
    {
      assert lines[..i + 1][..i] == lines[..i];
      var line := Strip(lines[i]);
      if StartsWith(line, "event: ") {
        name := line[7..];
      } else if StartsWith(line, "data: ") {
        text := line[6..];
      }
    }
    assert lines[..|lines|] == lines;
    if text == "" { return Text(""); }
    var data := c.loads(text);
    if data.None? { return Text(""); }
    if !data.value.Obj? { return Raises; }
    var m := data.value.members;
    if Get(m, "type", Null) == Str("done") || name == "done" { return Text(""); }
    if IsTool(name, m) { return ForwardTool(c, agent, m); }
    return ForwardContent(c, agent, m);
  }

  function Forwarder(c: Codec, agent: string): string -> Outcome {
    rawEvent => Forwarded(c, agent, rawEvent)
  }

  function Sent(f: string -> Outcome, stream: seq<string>, n: nat): seq<string>
    requires n <= |stream|
  {
    if n == 0 then []
    else
      var before, out := Sent(f, stream, n - 1), f(stream[n - 1]);
      if out.Text? && out.text != "" then before + [out.text] else before
  }

  /** What a child's whole stream sends: the events that forward to no text are left out. */
  function AllSent(f: string -> Outcome, stream: seq<string>): seq<string> {
    Sent(f, stream, |stream|)
  }

  predicate NoneRaises(f: string -> Outcome, stream: seq<string>) {
    forall i :: 0 <= i < |stream| ==> f(stream[i]).Text?
  }

  lemma {:induction false} SentEarlier(f: string -> Outcome, stream: seq<string>, raw: string, n: nat)
    requires n <= |stream|
    ensures Sent(f, stream + [raw], n) == Sent(f, stream, n)
  {
    if n > 0 { SentEarlier(f, stream, raw, n - 1); }
  }

  lemma SentMore(f: string -> Outcome, stream: seq<string>, raw: string, text: string)
    requires f(raw) == Text(text) && NoneRaises(f, stream)
    ensures NoneRaises(f, stream + [raw])
    ensures AllSent(f, stream + [raw]) == if text == "" then AllSent(f, stream) else AllSent(f, stream) + [text]
  {
    SentEarlier(f, stream, raw, |stream|);
  }

  // ----- Parsing undoes printing

  /** Text that stripping leaves alone and that is one line. */
  predicate Clean(s: string) {
    s != "" && !IsSpace(s[0]) && !IsSpace(s[|s| - 1]) && NoNewline(s)
  }

  lemma StripClean(s: string)
    requires s != "" && !IsSpace(s[0]) && !IsSpace(s[|s| - 1])
    ensures Strip(s) == s && Strip(s + "\n\n") == s
  {
    var t := s + "\n\n";
    assert t[..|t| - 1] == s + "\n";
    assert (s + "\n")[..|s|] == s;
    assert StripRight(t) == StripRight(s + "\n") == StripRight(s) == s;
  }

  lemma StripDataLine(text: string)
    requires Clean(text)
    ensures Clean("data: " + text) && Strip("data: " + text) == "data: " + text
    ensures TakeField(Fields("", ""), "data: " + text) == Fields("", text)
    ensures forall f :: TakeField(f, "data: " + text) == f.(data := text)
  {
    var line := "data: " + text;
    assert line[|line| - 1] == text[|text| - 1];
    assert NoNewline(line);
    StripClean(line);
    assert line[..6] == "data: " && line[6..] == text;
    assert line[0] == 'd';
  }

  lemma StripEventLine(name: string)
    requires Clean(name)
    ensures Clean("event: " + name) && Strip("event: " + name) == "event: " + name
    ensures forall f :: TakeField(f, "event: " + name) == f.(name := name)
  {
    var line := "event: " + name;
    assert line[|line| - 1] == name[|name| - 1];
    assert NoNewline(line);
    StripClean(line);
    assert line[..7] == "event: " && line[7..] == name;
  }

  lemma OneField(line: string)
    ensures FieldsOf([line]) == TakeField(Fields("", ""), Strip(line))
  {
    assert [line][..0] == [];
  }

  /** An unnamed event parses to its text. */
  lemma DataParses(text: string)
    requires Clean(text)
    ensures Parsed(Data(text)) == Fields("", text) && Strip(Data(text)) == "data: " + text
  {
    var line := "data: " + text;
    StripDataLine(text);
    assert Data(text) == line + "\n\n";
    StripClean(line);
    SplitOneLine(line);
    OneField(line);
  }

  /** A named event parses to its name and its text. */
  lemma EventParses(name: string, text: string)
    requires Clean(name) && Clean(text)
    ensures Parsed(Event(name, text)) == Fields(name, text)
    ensures |Strip(Event(name, text))| > 0 && Strip(Event(name, text))[0] == 'e'
  {
    var first, second := "event: " + name, "data: " + text;
    StripEventLine(name);
    StripDataLine(text);
    var both := first + "\n" + second;
    assert Event(name, text) == both + "\n\n";
    assert both[0] == 'e' && both[|both| - 1] == second[|second| - 1];
    StripClean(both);
    SplitAtNewline(first, second);
    SplitOneLine(first);
    SplitOneLine(second);
    assert SplitLines(both) == [first, second];
    assert [first, second][..1] == [first];
    OneField(first);
  }

  lemma ObjectIsClean(c: Codec, j: Json)
    requires OneLine(c) && j.Obj?
    ensures Clean(c.dumps(j))
  {
    var text := c.dumps(j);
    assert '\n' !in text;
  }

  /** A reader finds the name and the object in the event. */
  predicate ReadsAs(c: Codec, sent: string, name: string, j: Json) {
    Parsed(sent).name == name && c.loads(Parsed(sent).data) == Some(j)
  }

  lemma EventReads(c: Codec, name: string, j: Json)
    requires Lawful(c) && OneLine(c) && j.Obj? && Clean(name)
    ensures ReadsAs(c, Event(name, c.dumps(j)), name, j)
  {
    ObjectIsClean(c, j);
    EventParses(name, c.dumps(j));
    assert c.loads(c.dumps(j)) == Some(j);
  }

  // ----- What a reader of a chunk finds

  /** The header's fields, one choice, its delta and why it ended, and nothing else. */
  predicate ChunkHas(m: Record, h: Header, first: bool, content: string, finish: Option<string>) {
    && m.Keys == {"id", "object", "created", "model", "choices"}
    && m["id"] == Str(h.id) && m["object"] == Str("chat.completion.chunk")
    && m["created"] == Num(h.created) && m["model"] == Str(h.model)
    && m["choices"].Arr? && |m["choices"].items| == 1 && m["choices"].items[0].Obj?
    && ChoiceHas(m["choices"].items[0].members, first, content, finish)
  }

  /** The role is in the first delta only, the content where there is some; without a reason
      to finish there is null. */
  predicate ChoiceHas(m: Record, first: bool, content: string, finish: Option<string>) {
    && m.Keys == {"index", "delta", "finish_reason"}
    && m["index"] == Num(0)
    && (match finish case Some(reason) => m["finish_reason"] == Str(reason) case None => m["finish_reason"] == Null)
    && m["delta"].Obj?
    && var delta := m["delta"].members;
       && delta.Keys <= {"role", "content"}
       && ("role" in delta <==> first) && (first ==> delta["role"] == Str("assistant"))
       && ("content" in delta <==> content != "") && (content != "" ==> delta["content"] == Str(content))
  }

  lemma ChunkHasAll(h: Header, first: bool, content: string, finish: Option<string>)
    ensures ChunkOf(h, first, content, finish).Obj?
    ensures ChunkHas(ChunkOf(h, first, content, finish).members, h, first, content, finish)
  {
    var m := ChunkOf(h, first, content, finish).members;
    assert m["choices"].items[0].members["delta"] == DeltaOf(first, content);
  }

  /** The text of a printed chunk reads as the chunk. */
  lemma ChunkReads(c: Codec, h: Header, first: bool, content: string, finish: Option<string>)
    requires Lawful(c) && OneLine(c)
    ensures var read := c.loads(Parsed(Data(c.dumps(ChunkOf(h, first, content, finish)))).data);
            read.Some? && read.value.Obj? && ChunkHas(read.value.members, h, first, content, finish)
  {
    var j := ChunkOf(h, first, content, finish);
    ChunkHasAll(h, first, content, finish);
    ObjectIsClean(c, j);
    DataParses(c.dumps(j));
    assert c.loads(c.dumps(j)) == Some(j);
  }

  // ----- Content survives forwarding

  /** The content that a reader of a forwarded event finds in it. */
  function ContentOf(c: Codec, agent: string, sent: string): Option<string> {
    var f := Parsed(sent);
    if f.name != "child_content" then None
    else
      var data := c.loads(f.data);
      if data.None? || !data.value.Obj? || Get(data.value.members, "agent_name", Null) != Str(agent) then None
      else
        var content := Get(data.value.members, "content", Null);
        if content.Str? then Some(content.text) else None
  }

  datatype Delta = Delta(content: string, finish: Option<string>)

  /** The chunks of a response from its deltas; the first has the role. */
  function Chunks(c: Codec, h: Header, deltas: seq<Delta>): seq<string> {
    if deltas == [] then []
    else
      var n, last := |deltas| - 1, deltas[|deltas| - 1];
      Chunks(c, h, deltas[..n]) + [Data(c.dumps(ChunkOf(h, n == 0, last.content, last.finish)))]
  }

  function Content(deltas: seq<Delta>): string {
    if deltas == [] then "" else Content(deltas[..|deltas| - 1]) + deltas[|deltas| - 1].content
  }

  /** A whole response through `FormatContentChunk`: the chunks, and the text that the
      state has at the end. */
  method StreamContent(c: Codec, h: Header, deltas: seq<Delta>) returns (chunks: seq<string>, currentText: string)
    ensures chunks == Chunks(c, h, deltas)
    ensures currentText == Content(deltas)
  {
    var state := new StreamingState(h);
    chunks := [];
    for n := 0 to |deltas|
      invariant state.header == h
      invariant chunks == Chunks(c, h, deltas[..n])
      invariant state.currentText == Content(deltas[..n])
      invariant state.isFirstChunk == (n == 0)
    {
      assert deltas[..n + 1][..n] == deltas[..n];
      var chunk := FormatContentChunk(c, deltas[n].content, state, deltas[n].finish);
      chunks := chunks + [chunk];
    }
    assert deltas[..|deltas|] == deltas;
    currentText := state.currentText;
  }

  lemma ChunkFields(c: Codec, agent: string, h: Header, first: bool, d: Delta)
    ensures var m := ChunkOf(h, first, d.content, d.finish).members;
            && Get(m, "type", Null) == Null
            && ForwardContent(c, agent, m) ==
               Text(if d.content == "" then "" else Event("child_content", c.dumps(ChildContent(agent, d.content))))
  {
    var m := ChunkOf(h, first, d.content, d.finish).members;
    assert m["choices"].items[0].members["delta"] == DeltaOf(first, d.content);
  }

  lemma DataIsForwarded(c: Codec, agent: string, j: Json)
    requires Lawful(c) && OneLine(c) && j.Obj? && Get(j.members, "type", Null) == Null
    ensures Forwarded(c, agent, Data(c.dumps(j))) == ForwardContent(c, agent, j.members)
  {
    var text := c.dumps(j);
    ObjectIsClean(c, j);
    DataParses(text);
    assert text[0] == '{' && ("data: " + text)[6] == '{' && "data: [DONE]"[6] == '[';
    assert c.loads(text) == Some(j);
  }

  lemma ChunkIsForwarded(c: Codec, agent: string, h: Header, first: bool, d: Delta)
    requires Lawful(c) && OneLine(c)
    ensures Forwarded(c, agent, Data(c.dumps(ChunkOf(h, first, d.content, d.finish)))) ==
            Text(if d.content == "" then "" else Event("child_content", c.dumps(ChildContent(agent, d.content))))
  {
    ChunkFields(c, agent, h, first, d);
    DataIsForwarded(c, agent, ChunkOf(h, first, d.content, d.finish));
  }

  lemma ContentIsRead(c: Codec, agent: string, content: string)
    requires Lawful(c) && OneLine(c)
    ensures ContentOf(c, agent, Event("child_content", c.dumps(ChildContent(agent, content)))) == Some(content)
  {
    var j := ChildContent(agent, content);
    ObjectIsClean(c, j);
    EventParses("child_content", c.dumps(j));
    assert c.loads(c.dumps(j)) == Some(j);
  }

  lemma DoneIsSilent(c: Codec, agent: string)
    ensures Forwarded(c, agent, Done) == Text("")
  {
    assert Done == "data: [DONE]" + "\n\n";
    StripClean("data: [DONE]");
  }

  /** Every event is one of the agent's content events, and their contents make up the text. */
  ghost predicate Carries(c: Codec, agent: string, sent: seq<string>, text: string) {
    if sent == [] then text == ""
    else
      var content := ContentOf(c, agent, sent[|sent| - 1]);
      && content.Some? && content.value != "" && |content.value| <= |text|
      && text[|text| - |content.value|..] == content.value
      && Carries(c, agent, sent[..|sent| - 1], text[..|text| - |content.value|])
  }

  lemma CarriesMore(c: Codec, agent: string, sent: seq<string>, text: string, out: string, content: string)
    requires Carries(c, agent, sent, text) && ContentOf(c, agent, out) == Some(content) && content != ""
    ensures Carries(c, agent, sent + [out], text + content)
  {
    assert (sent + [out])[..|sent|] == sent;
    assert (text + content)[..|text|] == text;
  }

  /** Print, parse, print: the forwarded events carry exactly the text of the response;
      empty deltas give none. */
  lemma {:induction false} ContentSurvives(c: Codec, agent: string, h: Header, deltas: seq<Delta>)
    requires Lawful(c) && OneLine(c)
    ensures NoneRaises(Forwarder(c, agent), Chunks(c, h, deltas))
    ensures Carries(c, agent, AllSent(Forwarder(c, agent), Chunks(c, h, deltas)), Content(deltas))
  {
    if deltas != [] {
      var init, last := deltas[..|deltas| - 1], deltas[|deltas| - 1];
      ContentSurvives(c, agent, h, init);
      ChunkIsForwarded(c, agent, h, |init| == 0, last);
      var chunk := Data(c.dumps(ChunkOf(h, |init| == 0, last.content, last.finish)));
      var out := Event("child_content", c.dumps(ChildContent(agent, last.content)));
      SentMore(Forwarder(c, agent), Chunks(c, h, init), chunk, if last.content == "" then "" else out);
      if last.content == "" {
        assert Content(init) + "" == Content(init);
      } else {
        ContentIsRead(c, agent, last.content);
        CarriesMore(c, agent, AllSent(Forwarder(c, agent), Chunks(c, h, init)), Content(init), out, last.content);
      }
    }
  }

  /** The final marker gives no event either. */
  lemma ContentSurvivesWithDone(c: Codec, agent: string, h: Header, deltas: seq<Delta>)
    requires Lawful(c) && OneLine(c)
    ensures NoneRaises(Forwarder(c, agent), Chunks(c, h, deltas) + [Done])
    ensures Carries(c, agent, AllSent(Forwarder(c, agent), Chunks(c, h, deltas) + [Done]), Content(deltas))
  {
    ContentSurvives(c, agent, h, deltas);
    DoneIsSilent(c, agent);
    SentMore(Forwarder(c, agent), Chunks(c, h, deltas), Done, "");
  }

  // ----- Tool calls survive forwarding

  /** A tool-call event of the child, as its model prints it. */
  function ToolCall(tool: string, id: string, completed: bool, arguments: Option<Record>, result: Json): Json {
    Obj(map["type" := Str("tool_call"), "tool_name" := Str(tool), "tool_id" := Str(id),
            "status" := Str(if completed then "completed" else "started")]
        + (if arguments.Some? then map["arguments" := Obj(arguments.value)] else map[]) + Present("result", result))
  }

  lemma ToolCallFields(tool: string, id: string, completed: bool, arguments: Option<Record>, result: Json)
    ensures var m := ToolCall(tool, id, completed, arguments, result).members;
            && Get(m, "type", Null) == Str("tool_call")
            && Get(m, "status", Str("started")) == Str(if completed then "completed" else "started")
            && Get(m, "tool_name", Str("")) == Str(tool) && Get(m, "tool_id", Null) == Str(id)
            && Get(m, "arguments", Null) == (if arguments.Some? then Obj(arguments.value) else Null)
            && Get(m, "result", Null) == result
  {
  }

  /** What the parent is told: a started call with its arguments, a completed one with
      its result. */
  function ToolForParent(agent: string, tool: string, id: string, completed: bool, arguments: Option<Record>,
                         result: Json): Json {
    ChildTool(agent, completed, tool, Str(id),
              if !completed && arguments.Some? then Obj(arguments.value) else Null,
              if completed then result else Null)
  }

  lemma ToolCallIsForwarded(c: Codec, agent: string, tool: string, id: string, completed: bool,
                            arguments: Option<Record>, result: Json)
    ensures ForwardTool(c, agent, ToolCall(tool, id, completed, arguments, result).members) ==
            Text(Event(ToolName(completed), c.dumps(ToolForParent(agent, tool, id, completed, arguments, result))))
  {
    ToolCallFields(tool, id, completed, arguments, result);
  }

  lemma EventIsForwarded(c: Codec, agent: string, j: Json)
    requires Lawful(c) && OneLine(c) && j.Obj? && Get(j.members, "type", Null) == Str("tool_call")
    ensures Forwarded(c, agent, Event("tool_call", c.dumps(j))) == ForwardTool(c, agent, j.members)
  {
    ObjectIsClean(c, j);
    EventParses("tool_call", c.dumps(j));
    assert c.loads(c.dumps(j)) == Some(j);
    assert "data: [DONE]"[0] == 'd';
  }

  lemma ToolNameIsClean(completed: bool)
    ensures Clean(ToolName(completed))
  {
  }

  /** Print, parse, print for tool calls: tool, id, arguments and result stay. */
  lemma ToolCallSurvives(c: Codec, agent: string, tool: string, id: string, completed: bool,
                         arguments: Option<Record>, result: Json)
    requires Lawful(c) && OneLine(c)
    ensures Forwarded(c, agent, Event("tool_call", c.dumps(ToolCall(tool, id, completed, arguments, result)))) ==
            Text(Event(ToolName(completed), c.dumps(ToolForParent(agent, tool, id, completed, arguments, result))))
    ensures ReadsAs(c, Event(ToolName(completed),
                             c.dumps(ToolForParent(agent, tool, id, completed, arguments, result))),
                    ToolName(completed), ToolForParent(agent, tool, id, completed, arguments, result))
  {
    ToolCallFields(tool, id, completed, arguments, result);
    EventIsForwarded(c, agent, ToolCall(tool, id, completed, arguments, result));
    ToolCallIsForwarded(c, agent, tool, id, completed, arguments, result);
    ToolNameIsClean(completed);
    EventReads(c, ToolName(completed), ToolForParent(agent, tool, id, completed, arguments, result));
  }
}
