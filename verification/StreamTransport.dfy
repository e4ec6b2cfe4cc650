/** The streaming response state machine: chunks update the assistant message and queue events; the
    consumer pulls events one at a time. */
module StreamTransport {
  import opened Basics
  import opened StreamGrammar
  import EventStream

  const MAX_RESPONSE_CHARS := 2000000

  /** A delta of one tool call; missing fields are `None`. */
  datatype ToolDelta = ToolDelta(index: Option<int>, id: Option<string>, name: Option<string>,
                                 arguments: Option<string>)

  /** The first choice of a chunk; `finishReason` and `content` are empty when absent. */
  datatype Choice = Choice(
    finishReason: string, content: string, reasoningContent: Option<string>, reasoning: Option<string>,
    toolCalls: seq<ToolDelta>)

  datatype Chunk = Chunk(
    id: string, model: string, kvTransfer: Option<seq<string>>, usage: Option<Usage>, choice: Option<Choice>)

  datatype ToolBuffer = ToolBuffer(id: string, name: string, args: string)

  /** `JSON.parse` of a text that is a plain object; `None` for anything else. */
  type ObjectParser = string -> Option<Arguments>

  function OrEmpty(o: Option<string>): string {
    if o.Some? then o.value else ""
  }

  function MapStopReason(finishReason: string): StopReason {
    if finishReason == "length" then Length
    else if finishReason == "tool_calls" || finishReason == "function_call" then ToolUse
    else Stop
  }

  function ParsePartialJson(text: string, json: ObjectParser): Arguments {
    var trimmed := EventStream.JsTrim(text);
    if trimmed == [] then map[]
    else if json(trimmed).Some? then json(trimmed).value
    else map[]
  }

  // ---------------------------------------------------------------- what the chunks say

  function TextOf(c: Chunk): string {
    if c.choice.Some? then c.choice.value.content else ""
  }

  /** An empty `reasoning_content` hides `reasoning`; only an absent one does not. */
  function ReasoningOf(c: Chunk): string {
    if c.choice.None? then ""
    else if c.choice.value.reasoningContent.Some? then c.choice.value.reasoningContent.value
    else OrEmpty(c.choice.value.reasoning)
  }

  function IndexOf(tc: ToolDelta): int {
    if tc.index.Some? then tc.index.value else 0
  }

  function ArgsOfCalls(calls: seq<ToolDelta>, index: int): string {
    if calls == [] then ""
    else
      var tc := calls[|calls| - 1];
      ArgsOfCalls(calls[..|calls| - 1], index) + if IndexOf(tc) == index then OrEmpty(tc.arguments) else ""
  }

  /** The text kept: everything up to and including the delta that crosses the limit. */
  function StoredText(chunks: seq<Chunk>): string {
    if chunks == [] then ""
    else AddText(StoredText(chunks[..|chunks| - 1]), TextOf(chunks[|chunks| - 1]))
  }

  function AddText(stored: string, delta: string): string {
    if |stored| > MAX_RESPONSE_CHARS then stored else stored + delta
  }

  /** The text published: everything before the delta that crosses the limit. */
  function PublishedText(chunks: seq<Chunk>): string {
    if chunks == [] then ""
    else
      var front, delta := chunks[..|chunks| - 1], TextOf(chunks[|chunks| - 1]);
      PublishedText(front) + NewlyPublished(StoredText(front), delta)
  }

  function NewlyPublished(stored: string, delta: string): string {
    if |AddText(stored, delta)| > MAX_RESPONSE_CHARS then "" else delta
  }

  function ThinkingOf(chunks: seq<Chunk>): string {
    if chunks == [] then "" else ThinkingOf(chunks[..|chunks| - 1]) + ReasoningOf(chunks[|chunks| - 1])
  }

  function ArgsOf(chunks: seq<Chunk>, index: int): string {
    if chunks == [] then ""
    else
      var c := chunks[|chunks| - 1];
      ArgsOf(chunks[..|chunks| - 1], index) + if c.choice.Some? then ArgsOfCalls(c.choice.value.toolCalls, index)
        else ""
  }

  predicate AnyChoice(chunks: seq<Chunk>) {
    exists c :: c in chunks && c.choice.Some?
  }

  /** Stored and published text agree but for the one delta that crosses the limit. */
  lemma {:induction false} OnlyTheCrossingDeltaIsHeldBack(chunks: seq<Chunk>)
    ensures |PublishedText(chunks)| <= MAX_RESPONSE_CHARS
    ensures |StoredText(chunks)| <= MAX_RESPONSE_CHARS ==> PublishedText(chunks) == StoredText(chunks)
    ensures |StoredText(chunks)| > MAX_RESPONSE_CHARS ==>
              exists c :: c in chunks && StoredText(chunks) == PublishedText(chunks) + TextOf(c)
  {
    if chunks != [] {
      var front, last := chunks[..|chunks| - 1], chunks[|chunks| - 1];
      OnlyTheCrossingDeltaIsHeldBack(front);
      assert last in chunks;
      CrossingStep(StoredText(front), PublishedText(front), TextOf(last));
      if |StoredText(front)| > MAX_RESPONSE_CHARS {
        var c :| c in front && StoredText(front) == PublishedText(front) + TextOf(c);
        assert c in chunks && PublishedText(chunks) == PublishedText(front);
      }
    }
  }

  /** So they agree exactly as long as the limit is not crossed. */
  lemma PublishedIsStoredIff(chunks: seq<Chunk>)
    ensures PublishedText(chunks) == StoredText(chunks) <==> |StoredText(chunks)| <= MAX_RESPONSE_CHARS
  {
    OnlyTheCrossingDeltaIsHeldBack(chunks);
  }

  function Saying(text: string): Chunk {
    Chunk("", "", None, None, Some(Choice("", text, None, None, [])))
  }

  /** One delta just over the limit: all of it is stored, nothing of it is published. */
  lemma OneDeltaTooLong() returns (delta: string)
    ensures StoredText([Saying(delta)]) == delta && |delta| == MAX_RESPONSE_CHARS + 1
    ensures PublishedText([Saying(delta)]) == ""
  {
    delta := seq(MAX_RESPONSE_CHARS + 1, i => 'a');
    var chunks := [Saying(delta)];
    assert chunks[..0] == [];
    assert StoredText(chunks[..0]) == "" && PublishedText(chunks[..0]) == "";
  }

  lemma CrossingStep(stored: string, published: string, delta: string)
    requires |stored| <= MAX_RESPONSE_CHARS ==> published == stored
    ensures |stored| > MAX_RESPONSE_CHARS ==> AddText(stored, delta) == stored && NewlyPublished(stored, delta) == ""
    ensures |stored| <= MAX_RESPONSE_CHARS ==> AddText(stored, delta) == published + delta
    ensures |AddText(stored, delta)| <= MAX_RESPONSE_CHARS ==>
            published + NewlyPublished(stored, delta) == AddText(stored, delta)
  {
  }

  // ---------------------------------------------------------------- the message under construction

  /** What a content index is for. */
  datatype Slot = TextSlot | ThinkingSlot | ToolSlot(tool: int)

  function SlotKind(slot: Slot): Kind {
    match slot
    case TextSlot => TextKind
    case ThinkingSlot => ThinkingKind
    case ToolSlot(_) => ToolKind
  }

  /** The blocks, the bookkeeping that finds them, and every event queued so far. `slots` is history:
      nothing branches on it. */
  datatype Machine = Machine(
    content: seq<Block>, slots: seq<Slot>,
    started: bool, textIndex: int, thinkingIndex: int,
    toolIndices: map<int, nat>, toolOrder: seq<int>, toolBuffers: map<int, ToolBuffer>,
    fullText: string, truncated: bool,
    log: seq<Event>)

  const EMPTY_MACHINE := Machine([], [], false, -1, -1, map[], [], map[], "", false, [])

  function ToolBlock(b: ToolBuffer, json: ObjectParser): Block {
    ToolCall(b.id, b.name, ParsePartialJson(b.args, json))
  }

  function Emit(m: Machine, e: Event): Machine {
    m.(log := m.log + [e])
  }

  function StartBlock(m: Machine, slot: Slot, block: Block): Machine {
    m.(content := m.content + [block], slots := m.slots + [slot],
       log := m.log + [BlockStart(SlotKind(slot), |m.content|)])
  }

  function StartText(m: Machine): Machine {
    if m.textIndex >= 0 then m
    else StartBlock(m, TextSlot, TextBlock("")).(textIndex := |m.content|)
  }

  function GrowText(m: Machine, delta: string): Machine
    requires 0 <= m.textIndex < |m.content|
  {
    if m.truncated then m
    else
      var text := m.fullText + delta;
      var grown := m.(content := m.content[m.textIndex := TextBlock(text)], fullText := text,
                      truncated := |text| > MAX_RESPONSE_CHARS);
      if grown.truncated then grown else Emit(grown, BlockDelta(TextKind, m.textIndex, delta))
  }

  function StartThinking(m: Machine): Machine {
    if m.thinkingIndex >= 0 then m
    else StartBlock(m, ThinkingSlot, ThinkingBlock("")).(thinkingIndex := |m.content|)
  }

  function GrowThinking(m: Machine, delta: string): Machine
    requires 0 <= m.thinkingIndex < |m.content| && m.content[m.thinkingIndex].ThinkingBlock?
  {
    Emit(m.(content := m.content[m.thinkingIndex := ThinkingBlock(m.content[m.thinkingIndex].thinking + delta)]),
         BlockDelta(ThinkingKind, m.thinkingIndex, delta))
  }

  function StartTool(m: Machine, tc: ToolDelta): Machine {
    var t := IndexOf(tc);
    if t in m.toolIndices then m
    else
      var buffer := ToolBuffer(OrEmpty(tc.id), OrEmpty(tc.name), "");
      StartBlock(m, ToolSlot(t), ToolCall(buffer.id, buffer.name, map[])).(
        toolIndices := m.toolIndices[t := |m.content|], toolOrder := m.toolOrder + [t],
        toolBuffers := m.toolBuffers[t := buffer])
  }

  function GrowTool(m: Machine, t: int, delta: string, json: ObjectParser): Machine
    requires t in m.toolIndices && t in m.toolBuffers && m.toolIndices[t] < |m.content|
  {
    var buffer := m.toolBuffers[t].(args := m.toolBuffers[t].args + delta);
    Emit(m.(content := m.content[m.toolIndices[t] := ToolBlock(buffer, json)],
            toolBuffers := m.toolBuffers[t := buffer]),
         BlockDelta(ToolKind, m.toolIndices[t], delta))
  }

  // ---------------------------------------------------------------- what every step keeps

  function KindsOf(slots: seq<Slot>): (kinds: seq<Kind>)
    ensures |kinds| == |slots|
    ensures forall i :: 0 <= i < |slots| ==> kinds[i] == SlotKind(slots[i])
  {
    seq(|slots|, i requires 0 <= i < |slots| => SlotKind(slots[i]))
  }

  /** The block at index `i` is what its slot says, and its deltas tell its content. (What text
      deltas tell is `Published`.) */
  ghost predicate SlotOk(m: Machine, i: nat, json: ObjectParser)
    requires i < |m.slots| == |m.content|
  {
    match m.slots[i]
    case TextSlot => m.textIndex == i && m.content[i] == TextBlock(m.fullText)
    case ThinkingSlot => m.thinkingIndex == i && m.content[i] == ThinkingBlock(Deltas(m.log, i))
    case ToolSlot(t) =>
      && t in m.toolIndices && m.toolIndices[t] == i && t in m.toolBuffers
      && m.toolBuffers[t].args == Deltas(m.log, i)
      && m.content[i] == ToolBlock(m.toolBuffers[t], json)
  }

  ghost predicate ToolsOk(m: Machine) {
    && (forall t :: t in m.toolIndices ==> m.toolIndices[t] < |m.slots| && m.slots[m.toolIndices[t]] == ToolSlot(t))
    && m.toolBuffers.Keys == m.toolIndices.Keys
    && (forall t :: t in m.toolOrder <==> t in m.toolIndices)
    && (forall j, k :: 0 <= j < k < |m.toolOrder| ==> m.toolOrder[j] != m.toolOrder[k])
  }

  ghost predicate IndicesOk(m: Machine) {
    && -1 <= m.textIndex < |m.slots| && (m.textIndex >= 0 ==> m.slots[m.textIndex] == TextSlot)
    && -1 <= m.thinkingIndex < |m.slots| && (m.thinkingIndex >= 0 ==> m.slots[m.thinkingIndex] == ThinkingSlot)
    && (m.textIndex < 0 ==> m.fullText == "")
    && (m.truncated <==> |m.fullText| > MAX_RESPONSE_CHARS)
  }

  ghost predicate Inv(m: Machine, json: ObjectParser) {
    && |m.slots| == |m.content|
    && (forall i: nat :: i < |m.slots| ==> SlotOk(m, i, json))
    && (forall i: nat :: i >= |m.slots| ==> Deltas(m.log, i) == "")
    && ToolsOk(m) && IndicesOk(m)
    && (m.started ==> Accept(m.log) == Open(KindsOf(m.slots)))
    && (!m.started ==> m.log == [] && m.slots == [])
  }

  // ---- the texts a machine holds and has told

  ghost function Published(m: Machine): string {
    if m.textIndex >= 0 then Deltas(m.log, m.textIndex) else ""
  }

  ghost function Thinking(m: Machine): string {
    if m.thinkingIndex >= 0 then Deltas(m.log, m.thinkingIndex) else ""
  }

  ghost function Args(m: Machine, t: int): string {
    if t in m.toolBuffers then m.toolBuffers[t].args else ""
  }

  lemma StartBlockKeepsInv(m: Machine, slot: Slot, block: Block)
    requires |m.slots| == |m.content| && Accept(m.log) == Open(KindsOf(m.slots))
    ensures var m' := StartBlock(m, slot, block);
            && Accept(m'.log) == Open(KindsOf(m'.slots))
            && forall i: nat :: Deltas(m'.log, i) == Deltas(m.log, i)
  {
    PushMeaning(m.log, BlockStart(SlotKind(slot), |m.content|));
    assert KindsOf(m.slots + [slot]) == KindsOf(m.slots) + [SlotKind(slot)];
  }

  lemma DeltaKeepsOpen(m: Machine, i: nat, delta: string)
    requires i < |m.slots| && Accept(m.log) == Open(KindsOf(m.slots))
    ensures var log' := m.log + [BlockDelta(SlotKind(m.slots[i]), i, delta)];
            && Accept(log') == Open(KindsOf(m.slots))
            && forall j: nat :: Deltas(log', j) == Deltas(m.log, j) + if j == i then delta else []
  {
    PushMeaning(m.log, BlockDelta(SlotKind(m.slots[i]), i, delta));
  }

  lemma StartTextOk(m: Machine, json: ObjectParser)
    requires Inv(m, json) && m.started
    ensures Inv(StartText(m), json) && StartText(m).textIndex >= 0 && StartText(m).started
    ensures StartText(m).fullText == m.fullText && Published(StartText(m)) == Published(m)
    ensures Thinking(StartText(m)) == Thinking(m) && forall t :: Args(StartText(m), t) == Args(m, t)
  {
    if m.textIndex < 0 {
      StartBlockKeepsInv(m, TextSlot, TextBlock(""));
      var m' := StartText(m);
      forall i: nat | i < |m'.slots| ensures SlotOk(m', i, json) {
        assert i < |m.slots| ==> SlotOk(m, i, json);
      }
    }
  }

  lemma GrowTextOk(m: Machine, delta: string, json: ObjectParser)
    requires Inv(m, json) && m.started && m.textIndex >= 0
    ensures Inv(GrowText(m, delta), json) && GrowText(m, delta).started
    ensures GrowText(m, delta).fullText == AddText(m.fullText, delta)
    ensures Published(GrowText(m, delta)) == Published(m) + NewlyPublished(m.fullText, delta)
    ensures Thinking(GrowText(m, delta)) == Thinking(m) && forall t :: Args(GrowText(m, delta), t) == Args(m, t)
  {
    if m.truncated {
    } else if |m.fullText + delta| > MAX_RESPONSE_CHARS {
      CrossingTextOk(m, m.fullText + delta, json);
    } else {
      TellingTextOk(m, delta, json);
    }
  }

  /** The delta that crosses the limit: stored, not told. */
  lemma CrossingTextOk(m: Machine, text: string, json: ObjectParser)
    requires Inv(m, json) && m.started && m.textIndex >= 0 && |text| > MAX_RESPONSE_CHARS
    ensures Inv(m.(content := m.content[m.textIndex := TextBlock(text)], fullText := text, truncated := true), json)
  {
    var m' := m.(content := m.content[m.textIndex := TextBlock(text)], fullText := text, truncated := true);
    forall i: nat | i < |m'.slots| ensures SlotOk(m', i, json) {
      assert SlotOk(m, i, json);
    }
  }

  lemma TellingTextOk(m: Machine, delta: string, json: ObjectParser)
    requires Inv(m, json) && m.started && m.textIndex >= 0 && !m.truncated && |m.fullText + delta| <= MAX_RESPONSE_CHARS
    ensures Inv(GrowText(m, delta), json) && Published(GrowText(m, delta)) == Published(m) + delta
    ensures Thinking(GrowText(m, delta)) == Thinking(m)
  {
    DeltaKeepsOpen(m, m.textIndex, delta);
    var m' := GrowText(m, delta);
    forall i: nat | i < |m'.slots| ensures SlotOk(m', i, json) {
      assert SlotOk(m, i, json);
    }
  }

  lemma StartThinkingOk(m: Machine, json: ObjectParser)
    requires Inv(m, json) && m.started
    ensures var m' := StartThinking(m);
            && Inv(m', json) && m'.thinkingIndex >= 0 && m'.started
            && m'.fullText == m.fullText && Published(m') == Published(m) && Thinking(m') == Thinking(m)
            && forall t :: Args(m', t) == Args(m, t)
  {
    if m.thinkingIndex < 0 {
      StartBlockKeepsInv(m, ThinkingSlot, ThinkingBlock(""));
      var m' := StartThinking(m);
      forall i: nat | i < |m'.slots| ensures SlotOk(m', i, json) {
        assert i < |m.slots| ==> SlotOk(m, i, json);
      }
    }
  }

  lemma GrowThinkingOk(m: Machine, delta: string, json: ObjectParser)
    requires Inv(m, json) && m.started && m.thinkingIndex >= 0
    ensures SlotOk(m, m.thinkingIndex, json)
    ensures var m' := GrowThinking(m, delta);
            && Inv(m', json) && m'.started
            && m'.fullText == m.fullText && Published(m') == Published(m) && Thinking(m') == Thinking(m) + delta
            && forall t :: Args(m', t) == Args(m, t)
  {
    assert SlotOk(m, m.thinkingIndex, json);
    DeltaKeepsOpen(m, m.thinkingIndex, delta);
    var m' := GrowThinking(m, delta);
    forall i: nat | i < |m'.slots| ensures SlotOk(m', i, json) {
      assert SlotOk(m, i, json);
    }
  }

  lemma StartToolOk(m: Machine, tc: ToolDelta, json: ObjectParser)
    requires Inv(m, json) && m.started
    ensures var m' := StartTool(m, tc);
            && Inv(m', json) && IndexOf(tc) in m'.toolIndices && m'.started
            && m'.fullText == m.fullText && Published(m') == Published(m) && Thinking(m') == Thinking(m)
            && forall t :: Args(m', t) == Args(m, t)
  {
    var t := IndexOf(tc);
    if t !in m.toolIndices {
      var buffer := ToolBuffer(OrEmpty(tc.id), OrEmpty(tc.name), "");
      StartBlockKeepsInv(m, ToolSlot(t), ToolCall(buffer.id, buffer.name, map[]));
      var m' := StartTool(m, tc);
      NewToolOk(m, m', t, buffer);
      forall i: nat | i < |m'.slots| ensures SlotOk(m', i, json) {
        assert i < |m.slots| ==> SlotOk(m, i, json);
      }
    }
  }

  lemma NewToolOk(m: Machine, m': Machine, t: int, buffer: ToolBuffer)
    requires ToolsOk(m) && t !in m.toolIndices && |m.slots| == |m.content|
    requires m'.slots == m.slots + [ToolSlot(t)] && m'.toolIndices == m.toolIndices[t := |m.content|]
    requires m'.toolOrder == m.toolOrder + [t] && m'.toolBuffers == m.toolBuffers[t := buffer]
    ensures ToolsOk(m')
  {
    assert forall u :: u in m'.toolOrder <==> u in m.toolOrder || u == t;
  }

  lemma GrowToolOk(m: Machine, t: int, delta: string, json: ObjectParser)
    requires Inv(m, json) && m.started && t in m.toolIndices
    ensures var m' := GrowTool(m, t, delta, json);
            && Inv(m', json) && m'.started
            && m'.fullText == m.fullText && Published(m') == Published(m) && Thinking(m') == Thinking(m)
            && forall u :: Args(m', u) == Args(m, u) + if u == t then delta else []
  {
    GrowToolKeepsInv(m, t, delta, json);
    DeltaKeepsOpen(m, m.toolIndices[t], delta);
    assert m.textIndex >= 0 ==> SlotOk(m, m.textIndex, json);
    assert m.thinkingIndex >= 0 ==> SlotOk(m, m.thinkingIndex, json);
  }

  lemma GrowToolKeepsInv(m: Machine, t: int, delta: string, json: ObjectParser)
    requires Inv(m, json) && m.started && t in m.toolIndices
    ensures Inv(GrowTool(m, t, delta, json), json)
  {
    DeltaKeepsOpen(m, m.toolIndices[t], delta);
    var m' := GrowTool(m, t, delta, json);
    forall i: nat | i < |m'.slots| ensures SlotOk(m', i, json) {
      assert SlotOk(m, i, json);
    }
  }

  // ---------------------------------------------------------------- one chunk

  ghost function TextStep(m: Machine, delta: string, json: ObjectParser): (m': Machine)
    requires Inv(m, json) && m.started
    ensures Inv(m', json) && m'.started
  {
    if delta == "" then m
    else
      StartTextOk(m, json);
      GrowTextOk(StartText(m), delta, json);
      GrowText(StartText(m), delta)
  }

  ghost function ThinkingStep(m: Machine, delta: string, json: ObjectParser): (m': Machine)
    requires Inv(m, json) && m.started
    ensures Inv(m', json) && m'.started
  {
    if delta == "" then m
    else
      StartThinkingOk(m, json);
      GrowThinkingOk(StartThinking(m), delta, json);
      GrowThinking(StartThinking(m), delta)
  }

  ghost function CallStep(m: Machine, tc: ToolDelta, json: ObjectParser): (m': Machine)
    requires Inv(m, json) && m.started
    ensures Inv(m', json) && m'.started
  {
    StartToolOk(m, tc, json);
    if OrEmpty(tc.arguments) == "" then StartTool(m, tc)
    else
      GrowToolOk(StartTool(m, tc), IndexOf(tc), tc.arguments.value, json);
      GrowTool(StartTool(m, tc), IndexOf(tc), tc.arguments.value, json)
  }

  ghost function CallsStep(m: Machine, calls: seq<ToolDelta>, json: ObjectParser): (m': Machine)
    requires Inv(m, json) && m.started
    ensures Inv(m', json) && m'.started
  {
    if calls == [] then m
    else CallStep(CallsStep(m, calls[..|calls| - 1], json), calls[|calls| - 1], json)
  }

  lemma CallsNext(m: Machine, calls: seq<ToolDelta>, k: nat, json: ObjectParser)
    requires Inv(m, json) && m.started && k < |calls|
    ensures CallsStep(m, calls[..k + 1], json) == CallStep(CallsStep(m, calls[..k], json), calls[k], json)
  {
    assert calls[..k + 1][..k] == calls[..k];
  }

  /** The `start` event, once, at the first chunk that has a choice. */
  ghost function Begin(m: Machine, json: ObjectParser): (m': Machine)
    requires Inv(m, json)
    ensures Inv(m', json) && m'.started
  {
    if m.started then m
    else
      BeginOk(m, json);
      Emit(m.(started := true), Start)
  }

  lemma BeginOk(m: Machine, json: ObjectParser)
    requires Inv(m, json) && !m.started
    ensures Inv(Emit(m.(started := true), Start), json)
  {
    PushMeaning(m.log, Start);
    assert KindsOf(m.slots) == [];
  }

  ghost function ChunkStep(m: Machine, c: Chunk, json: ObjectParser): (m': Machine)
    requires Inv(m, json)
    ensures Inv(m', json) && (m'.started <==> m.started || c.choice.Some?)
  {
    if c.choice.None? then m
    else
      CallsStep(ThinkingStep(TextStep(Begin(m, json), TextOf(c), json), ReasoningOf(c), json), c.choice.value.toolCalls,
                json)
  }

  /** What a step adds: to the stored and the published text, to the thinking, and to the arguments
      of tool call `t`. */
  ghost predicate Adds(m: Machine, m': Machine, text: string, thinking: string, t: int, args: string) {
    && m'.fullText == AddText(m.fullText, text)
    && Published(m') == Published(m) + NewlyPublished(m.fullText, text)
    && Thinking(m') == Thinking(m) + thinking
    && Args(m', t) == Args(m, t) + args
  }

  lemma BeginAdds(m: Machine, t: int, json: ObjectParser)
    requires Inv(m, json)
    ensures Adds(m, Begin(m, json), "", "", t, "")
  {
    PushMeaning(m.log, Start);
  }

  lemma TextStepAdds(m: Machine, delta: string, t: int, json: ObjectParser)
    requires Inv(m, json) && m.started
    ensures Adds(m, TextStep(m, delta, json), delta, "", t, "")
  {
    if delta != "" {
      StartTextOk(m, json);
      GrowTextOk(StartText(m), delta, json);
      assert Args(StartText(m), t) == Args(m, t);
    }
  }

  lemma StartThinkingAdds(m: Machine, t: int, json: ObjectParser)
    requires Inv(m, json) && m.started
    ensures Adds(m, StartThinking(m), "", "", t, "")
  {
    StartThinkingOk(m, json);
    assert Args(StartThinking(m), t) == Args(m, t);
  }

  lemma GrowThinkingAdds(m: Machine, delta: string, t: int, json: ObjectParser)
    requires Inv(m, json) && m.started && 0 <= m.thinkingIndex < |m.content|
             && m.content[m.thinkingIndex].ThinkingBlock?
    ensures Adds(m, GrowThinking(m, delta), "", delta, t, "")
  {
    GrowThinkingOk(m, delta, json);
    assert Args(GrowThinking(m, delta), t) == Args(m, t);
  }

  lemma ThinkingStepAdds(m: Machine, delta: string, t: int, json: ObjectParser)
    requires Inv(m, json) && m.started
    ensures Adds(m, ThinkingStep(m, delta, json), "", delta, t, "")
  {
    if delta != "" {
      StartThinkingOk(m, json);
      var m1 := StartThinking(m);
      assert SlotOk(m1, m1.thinkingIndex, json);
      StartThinkingAdds(m, t, json);
      GrowThinkingAdds(m1, delta, t, json);
      AddsTwice(m, m1, GrowThinking(m1, delta), "", "", "", delta, t, "", "");
    }
  }

  lemma CallStepAdds(m: Machine, tc: ToolDelta, t: int, json: ObjectParser)
    requires Inv(m, json) && m.started
    ensures Adds(m, CallStep(m, tc, json), "", "", t, if IndexOf(tc) == t then OrEmpty(tc.arguments) else "")
  {
    StartToolOk(m, tc, json);
    assert Args(StartTool(m, tc), t) == Args(m, t);
    if OrEmpty(tc.arguments) != "" {
      GrowToolOk(StartTool(m, tc), IndexOf(tc), tc.arguments.value, json);
    }
  }

  lemma AddsTwice(m: Machine, m1: Machine, m2: Machine, text1: string, text2: string, think1: string, think2: string,
                  t: int, args1: string, args2: string)
    requires Adds(m, m1, text1, think1, t, args1) && Adds(m1, m2, text2, think2, t, args2)
    requires text1 == "" || text2 == ""
    ensures Adds(m, m2, text1 + text2, think1 + think2, t, args1 + args2)
  {
    TextTwice(m.fullText, text1, text2);
    Joined(Published(m), Published(m1), Published(m2), NewlyPublished(m.fullText, text1),
           NewlyPublished(m1.fullText, text2));
    Joined(Thinking(m), Thinking(m1), Thinking(m2), think1, think2);
    Joined(Args(m, t), Args(m1, t), Args(m2, t), args1, args2);
  }

  lemma Joined(a: string, b: string, c: string, x: string, y: string)
    requires b == a + x && c == b + y
    ensures c == a + (x + y)
  {
  }

  lemma TextTwice(stored: string, text1: string, text2: string)
    requires text1 == "" || text2 == ""
    ensures AddText(AddText(stored, text1), text2) == AddText(stored, text1 + text2)
    ensures NewlyPublished(stored, text1) + NewlyPublished(AddText(stored, text1), text2)
            == NewlyPublished(stored, text1 + text2)
  {
    assert text1 + text2 == if text1 == "" then text2 else text1;
    assert AddText(stored, "") == stored && NewlyPublished(stored, "") == "";
    assert AddText(AddText(stored, text1), "") == AddText(stored, text1);
  }

  /** Each tool call's arguments grow by its own deltas, however the indices interleave. */
  lemma {:induction false} CallsStepAdds(m: Machine, calls: seq<ToolDelta>, t: int, json: ObjectParser)
    requires Inv(m, json) && m.started
    ensures Adds(m, CallsStep(m, calls, json), "", "", t, ArgsOfCalls(calls, t))
  {
    if calls != [] {
      var front, tc := CallsStep(m, calls[..|calls| - 1], json), calls[|calls| - 1];
      CallsStepAdds(m, calls[..|calls| - 1], t, json);
      CallStepAdds(front, tc, t, json);
      AddsTwice(m, front, CallsStep(m, calls, json), "", "", "", "", t, ArgsOfCalls(calls[..|calls| - 1], t),
                if IndexOf(tc) == t then OrEmpty(tc.arguments) else "");
    }
  }

  lemma ChunkStepAdds(m: Machine, c: Chunk, t: int, json: ObjectParser)
    requires Inv(m, json)
    ensures Adds(m, ChunkStep(m, c, json), TextOf(c), ReasoningOf(c), t,
                 if c.choice.Some? then ArgsOfCalls(c.choice.value.toolCalls, t) else "")
  {
    if c.choice.Some? {
      var m1 := Begin(m, json);
      var m2 := TextStep(m1, TextOf(c), json);
      var m3 := ThinkingStep(m2, ReasoningOf(c), json);
      BeginAdds(m, t, json);
      TextStepAdds(m1, TextOf(c), t, json);
      ThinkingStepAdds(m2, ReasoningOf(c), t, json);
      CallsStepAdds(m3, c.choice.value.toolCalls, t, json);
      var m4, args := ChunkStep(m, c, json), ArgsOfCalls(c.choice.value.toolCalls, t);
      AddsFourTimes(m, m1, m2, m3, m4, TextOf(c), ReasoningOf(c), t, args);
    }
  }

  lemma AddsFourTimes(m: Machine, m1: Machine, m2: Machine, m3: Machine, m4: Machine,
                      text: string, thinking: string, t: int, args: string)
    requires Adds(m, m1, "", "", t, "") && Adds(m1, m2, text, "", t, "")
    requires Adds(m2, m3, "", thinking, t, "") && Adds(m3, m4, "", "", t, args)
    ensures Adds(m, m4, text, thinking, t, args)
  {
    AddsTwice(m, m1, m2, "", text, "", "", t, "", "");
    AddsTwice(m, m2, m3, text, "", "", thinking, t, "", "");
    AddsTwice(m, m3, m4, text, "", thinking, "", t, "", args);
    assert "" + text == text == text + "" && "" + thinking == thinking == thinking + "" && "" + args == args;
    assert "" + "" == "";
  }

  /** Whether the machine holds exactly what the chunks processed so far say. */
  ghost predicate Caught(m: Machine, processed: seq<Chunk>) {
    && (m.started <==> AnyChoice(processed))
    && m.fullText == StoredText(processed)
    && Published(m) == PublishedText(processed)
    && Thinking(m) == ThinkingOf(processed)
    && (forall t :: Args(m, t) == ArgsOf(processed, t))
  }

  lemma ChunkStepCaught(m: Machine, c: Chunk, processed: seq<Chunk>, json: ObjectParser)
    requires Inv(m, json) && Caught(m, processed)
    ensures Caught(ChunkStep(m, c, json), processed + [c])
  {
    assert (processed + [c])[..|processed|] == processed;
    assert forall x :: x in processed + [c] <==> x in processed || x == c;
    ChunkStepAdds(m, c, 0, json);
    forall t ensures Args(ChunkStep(m, c, json), t) == ArgsOf(processed + [c], t) {
      ChunkStepAdds(m, c, t, json);
    }
  }

  /** The machine after some chunks. */
  ghost function History(chunks: seq<Chunk>, json: ObjectParser): (m: Machine)
    ensures Inv(m, json)
  {
    if chunks == [] then EMPTY_MACHINE
    else ChunkStep(History(chunks[..|chunks| - 1], json), chunks[|chunks| - 1], json)
  }

  lemma HistoryPush(chunks: seq<Chunk>, c: Chunk, json: ObjectParser)
    ensures History(chunks + [c], json) == ChunkStep(History(chunks, json), c, json)
  {
    assert (chunks + [c])[..|chunks|] == chunks;
  }

  /** After any chunks, the blocks and their deltas say exactly what the chunks said. */
  lemma {:induction false} HistoryIsCaught(chunks: seq<Chunk>, json: ObjectParser)
    ensures Caught(History(chunks, json), chunks)
  {
    if chunks != [] {
      var front, last := chunks[..|chunks| - 1], chunks[|chunks| - 1];
      HistoryIsCaught(front, json);
      ChunkStepCaught(History(front, json), last, front, json);
      HistoryNext(chunks, json);
    }
  }

  lemma HistoryNext(chunks: seq<Chunk>, json: ObjectParser)
    requires chunks != []
    ensures var front, last := chunks[..|chunks| - 1], chunks[|chunks| - 1];
            chunks == front + [last] && History(chunks, json) == ChunkStep(History(front, json), last, json)
  {
  }

  /** What the chunks said about block `i`, and what its deltas told of it. */
  ghost predicate Rebuilt(m: Machine, i: nat, chunks: seq<Chunk>, json: ObjectParser)
    requires i < |m.content| == |m.slots|
  {
    match m.content[i]
    case TextBlock(text) => text == StoredText(chunks) && Deltas(m.log, i) == PublishedText(chunks)
    case ThinkingBlock(thinking) => thinking == Deltas(m.log, i) == ThinkingOf(chunks)
    case ToolCall(_, _, arguments) =>
      && arguments == ParsePartialJson(Deltas(m.log, i), json)
      && m.slots[i].ToolSlot? && Deltas(m.log, i) == ArgsOf(chunks, m.slots[i].tool)
  }

  /** Deltas rebuild blocks: the text block is the text the chunks said, and its deltas are all of
      it but the one delta that crosses the limit; the thinking block is its deltas; each tool
      call's arguments are the parse of its own deltas, however the calls interleave. */
  lemma DeltasRebuildBlocks(chunks: seq<Chunk>, json: ObjectParser)
    ensures var m := History(chunks, json);
            |m.content| == |m.slots| && forall i: nat :: i < |m.content| ==> Rebuilt(m, i, chunks, json)
  {
    var m := History(chunks, json);
    HistoryIsCaught(chunks, json);
    forall i: nat | i < |m.content| ensures Rebuilt(m, i, chunks, json) {
      assert SlotOk(m, i, json);
      if m.slots[i].ToolSlot? {
        assert Args(m, m.slots[i].tool) == ArgsOf(chunks, m.slots[i].tool);
      }
    }
  }

  // ---------------------------------------------------------------- the end

  predicate Listed(order: seq<int>, indices: map<int, nat>) {
    forall k :: 0 <= k < |order| ==> order[k] in indices
  }

  /** Where the blocks of the first `n` tool calls are. */
  function ToolPlaces(indices: map<int, nat>, order: seq<int>, n: nat): (places: seq<nat>)
    requires n <= |order| && Listed(order, indices)
    ensures |places| == n && forall k :: 0 <= k < n ==> places[k] == indices[order[k]]
  {
    seq(n, k requires 0 <= k < n => indices[order[k]])
  }

  function AtLeastZero(i: int): seq<nat> {
    if i >= 0 then [i] else []
  }

  /** Content indices in the order their blocks are ended: text, thinking, tool calls as first seen. */
  function Order(textIndex: int, thinkingIndex: int, indices: map<int, nat>, order: seq<int>): seq<nat>
    requires Listed(order, indices)
  {
    AtLeastZero(textIndex) + AtLeastZero(thinkingIndex) + ToolPlaces(indices, order, |order|)
  }

  function EndOrder(m: Machine): seq<nat>
    requires Listed(m.toolOrder, m.toolIndices)
  {
    Order(m.textIndex, m.thinkingIndex, m.toolIndices, m.toolOrder)
  }

  predicate Within(places: seq<nat>, n: nat) {
    forall k :: 0 <= k < |places| ==> places[k] < n
  }

  function EndOf(content: seq<Block>, i: nat): Event
    requires i < |content|
  {
    BlockEnd(KindOf(content[i]), i, content[i])
  }

  function EndsFor(content: seq<Block>, places: seq<nat>): (ends: seq<Event>)
    requires Within(places, |content|)
    ensures |ends| == |places| && forall k :: 0 <= k < |places| ==> ends[k] == EndOf(content, places[k])
  {
    seq(|places|, k requires 0 <= k < |places| => EndOf(content, places[k]))
  }

  lemma EndsForConcat(content: seq<Block>, a: seq<nat>, b: seq<nat>)
    requires Within(a, |content|) && Within(b, |content|)
    ensures Within(a + b, |content|)
    ensures EndsFor(content, a + b) == EndsFor(content, a) + EndsFor(content, b)
  {
  }

  ghost predicate Distinct(s: seq<nat>) {
    forall i, j :: 0 <= i < j < |s| ==> s[i] != s[j]
  }

  /** The order of ends names every block once. */
  lemma EndOrderIsComplete(m: Machine, json: ObjectParser)
    requires Inv(m, json)
    ensures Listed(m.toolOrder, m.toolIndices)
    ensures Distinct(EndOrder(m)) && forall i: nat :: i in EndOrder(m) <==> i < |m.slots|
  {
    assert forall k :: 0 <= k < |m.toolOrder| ==> m.toolOrder[k] in m.toolOrder;
    var order, tools := EndOrder(m), ToolPlaces(m.toolIndices, m.toolOrder, |m.toolOrder|);
    forall k | 0 <= k < |tools| ensures tools[k] < |m.slots| && m.slots[tools[k]] == ToolSlot(m.toolOrder[k]) {
      var t := m.toolOrder[k];
      assert t in m.toolOrder && tools[k] == m.toolIndices[t];
    }
    forall i: nat | i < |m.slots| ensures i in order {
      assert SlotOk(m, i, json);
      if m.slots[i].ToolSlot? {
        var t := m.slots[i].tool;
        var k :| 0 <= k < |m.toolOrder| && m.toolOrder[k] == t;
        assert tools[k] == i;
      }
    }
  }

  function Ended(places: seq<nat>): set<nat> {
    set i | i in places
  }

  /** After ending the blocks of `places`, in this order. */
  ghost predicate EndsAccepted(m: Machine, places: seq<nat>)
    requires Within(places, |m.content|)
  {
    Accept(m.log + EndsFor(m.content, places)) ==
      if places == [] then Open(KindsOf(m.slots)) else Closing(KindsOf(m.slots), Ended(places))
  }

  lemma {:induction false} EndsAreAccepted(m: Machine, places: seq<nat>)
    requires |m.slots| == |m.content| && Accept(m.log) == Open(KindsOf(m.slots))
    requires forall i :: 0 <= i < |m.slots| ==> SlotKind(m.slots[i]) == KindOf(m.content[i])
    requires Distinct(places) && Within(places, |m.content|)
    ensures EndsAccepted(m, places)
  {
    if places == [] {
      assert m.log + EndsFor(m.content, places) == m.log;
    } else {
      var front, i := places[..|places| - 1], places[|places| - 1];
      assert forall k :: 0 <= k < |front| ==> front[k] == places[k];
      EndsAreAccepted(m, front);
      EndIsAccepted(m, front, i);
      assert places == front + [i];
    }
  }

  lemma EndIsAccepted(m: Machine, front: seq<nat>, i: nat)
    requires |m.slots| == |m.content| && Within(front, |m.content|) && i < |m.slots|
    requires SlotKind(m.slots[i]) == KindOf(m.content[i]) && i !in front
    requires EndsAccepted(m, front)
    ensures EndsAccepted(m, front + [i])
  {
    PushMeaning(m.log + EndsFor(m.content, front), EndOf(m.content, i));
    assert m.log + EndsFor(m.content, front + [i]) == (m.log + EndsFor(m.content, front)) + [EndOf(m.content, i)];
    assert Ended(front + [i]) == Ended(front) + {i};
    assert front == [] ==> Ended(front) == {};
  }

  lemma EndOrderIsWithin(m: Machine, json: ObjectParser)
    requires Inv(m, json)
    ensures Listed(m.toolOrder, m.toolIndices) && Within(EndOrder(m), |m.content|)
  {
    EndOrderIsComplete(m, json);
    var order := EndOrder(m);
    forall k | 0 <= k < |order| ensures order[k] < |m.content| {
      assert order[k] in order;
    }
  }

  /** Ending every block and then sending `done` is accepted. */
  lemma DoneIsAccepted(m: Machine, done: Event, json: ObjectParser)
    requires Inv(m, json) && m.started && done.Done?
    ensures Listed(m.toolOrder, m.toolIndices) && Within(EndOrder(m), |m.content|)
    ensures Accept(m.log + EndsFor(m.content, EndOrder(m)) + [done]) == Over
  {
    EndOrderIsComplete(m, json);
    EndOrderIsWithin(m, json);
    forall i | 0 <= i < |m.slots| ensures SlotKind(m.slots[i]) == KindOf(m.content[i]) {
      assert SlotOk(m, i, json);
    }
    DoneAfterEnds(m, EndOrder(m), done);
  }

  lemma DoneAfterEnds(m: Machine, order: seq<nat>, done: Event)
    requires |m.slots| == |m.content| && Accept(m.log) == Open(KindsOf(m.slots)) && done.Done?
    requires forall i :: 0 <= i < |m.slots| ==> SlotKind(m.slots[i]) == KindOf(m.content[i])
    requires Distinct(order) && Within(order, |m.content|) && forall i: nat :: i < |m.slots| ==> i in order
    ensures Accept(m.log + EndsFor(m.content, order) + [done]) == Over
  {
    EndsAreAccepted(m, order);
    PushMeaning(m.log + EndsFor(m.content, order), done);
    assert m.slots == [] || 0 in order;
  }
}
