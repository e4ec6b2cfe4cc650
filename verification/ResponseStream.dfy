/** The async iterator itself: the mutable message, the event queue, and the consumer's `next`. */
module ResponseStream {
  import opened Basics
  import opened StreamGrammar
  import opened StreamTransport
  import opened StreamMeaning

  /** The fields a chunk overwrites outside its first choice, and the stop reason. */
  datatype Header = Header(
    responseId: string, responseModel: string, kvTransfer: Option<seq<string>>, usage: Usage, stopReason: StopReason)

  function HeaderStep(h: Header, c: Chunk): Header {
    Header(
      if c.id != "" then c.id else h.responseId,
      if c.model != "" then c.model else h.responseModel,
      if c.kvTransfer.Some? then c.kvTransfer else h.kvTransfer,
      if c.usage.Some? then c.usage.value else h.usage,
      if c.choice.Some? && c.choice.value.finishReason != "" then MapStopReason(c.choice.value.finishReason)
      else h.stopReason)
  }

  function HeaderOf(chunks: seq<Chunk>, model: string): Header {
    if chunks == [] then Header("", model, None, Usage(0, 0, 0, 0), Stop)
    else HeaderStep(HeaderOf(chunks[..|chunks| - 1], model), chunks[|chunks| - 1])
  }

  lemma HeaderPush(chunks: seq<Chunk>, c: Chunk, model: string)
    ensures HeaderOf(chunks + [c], model) == HeaderStep(HeaderOf(chunks, model), c)
  {
    assert (chunks + [c])[..|chunks|] == chunks;
  }

  /** Chunk `i` is the last that says anything, as `says` tells. */
  ghost predicate LastWord(chunks: seq<Chunk>, i: nat, says: Chunk -> bool) {
    i < |chunks| && says(chunks[i]) && forall j :: i < j < |chunks| ==> !says(chunks[j])
  }

  /** Each field of the header is what the last chunk with anything to say about it says ... */
  lemma {:induction false} HeaderIsLastWord(chunks: seq<Chunk>, model: string, i: nat)
    ensures var h := HeaderOf(chunks, model);
            && (LastWord(chunks, i, (c: Chunk) => c.id != "") ==> h.responseId == chunks[i].id)
            && (LastWord(chunks, i, (c: Chunk) => c.model != "") ==> h.responseModel == chunks[i].model)
            && (LastWord(chunks, i, (c: Chunk) => c.kvTransfer.Some?) ==> h.kvTransfer == chunks[i].kvTransfer)
            && (LastWord(chunks, i, (c: Chunk) => c.usage.Some?) ==> Some(h.usage) == chunks[i].usage)
            && (LastWord(chunks, i, Finishes) ==> h.stopReason == MapStopReason(chunks[i].choice.value.finishReason))
  {
    var n := |chunks| - 1;
    if i < n {
      HeaderIsLastWord(chunks[..n], model, i);
    }
  }

  ghost predicate Silent(chunks: seq<Chunk>, says: Chunk -> bool) {
    forall j :: 0 <= j < |chunks| ==> !says(chunks[j])
  }

  /** ... and its initial value if there is none. */
  lemma {:induction false} HeaderWithoutWord(chunks: seq<Chunk>, model: string)
    ensures var h := HeaderOf(chunks, model);
            && (Silent(chunks, (c: Chunk) => c.id != "") ==> h.responseId == "")
            && (Silent(chunks, (c: Chunk) => c.model != "") ==> h.responseModel == model)
            && (Silent(chunks, (c: Chunk) => c.kvTransfer.Some?) ==> h.kvTransfer == None)
            && (Silent(chunks, (c: Chunk) => c.usage.Some?) ==> h.usage == Usage(0, 0, 0, 0))
            && (Silent(chunks, Finishes) ==> h.stopReason == Stop)
  {
    if chunks != [] {
      HeaderWithoutWord(chunks[..|chunks| - 1], model);
    }
  }

  predicate Finishes(c: Chunk) {
    c.choice.Some? && c.choice.value.finishReason != ""
  }

  /** `states` runs from the empty machine through one chunk after the other. */
  ghost predicate Story(states: seq<Machine>, chunks: seq<Chunk>, json: ObjectParser) {
    && |states| == |chunks| + 1 && states[0] == EMPTY_MACHINE
    && forall i: nat :: i < |chunks| ==> OneChunk(states, chunks, i, json)
  }

  ghost predicate OneChunk(states: seq<Machine>, chunks: seq<Chunk>, i: nat, json: ObjectParser) {
    && i < |chunks| && i + 1 < |states| && Inv(states[i], json)
    && states[i + 1] == ChunkStep(states[i], chunks[i], json)
  }

  lemma StoryGoesOn(states: seq<Machine>, chunks: seq<Chunk>, c: Chunk, json: ObjectParser)
    requires Story(states, chunks, json) && Inv(states[|chunks|], json)
    ensures Story(states + [ChunkStep(states[|chunks|], c, json)], chunks + [c], json)
  {
    var states', chunks' := states + [ChunkStep(states[|chunks|], c, json)], chunks + [c];
    forall i: nat | i < |chunks'| ensures OneChunk(states', chunks', i, json) {
      assert i < |chunks| ==> OneChunk(states, chunks, i, json);
    }
  }

  /** The machine and the header are what the chunks processed so far make of them. */
  ghost predicate Told(states: seq<Machine>, processed: seq<Chunk>, m: Machine, header: Header, model: string,
                       json: ObjectParser) {
    Story(states, processed, json) && m == states[|processed|] && header == HeaderOf(processed, model)
  }

  lemma TellOneMore(states: seq<Machine>, processed: seq<Chunk>, m: Machine, header: Header, c: Chunk, model: string,
                    json: ObjectParser)
    requires Told(states, processed, m, header, model, json) && Inv(m, json)
    ensures var m' := ChunkStep(m, c, json);
            Told(states + [m'], processed + [c], m', HeaderStep(header, c), model, json)
  {
    HeaderPush(processed, c, model);
    StoryGoesOn(states, processed, c, json);
  }

  lemma HistoryNextChunk(chunks: seq<Chunk>, n: nat, json: ObjectParser)
    requires 0 < n <= |chunks|
    ensures History(chunks[..n], json) == ChunkStep(History(chunks[..n - 1], json), chunks[n - 1], json)
  {
    assert chunks[..n] == chunks[..n - 1] + [chunks[n - 1]];
    HistoryPush(chunks[..n - 1], chunks[n - 1], json);
  }

  lemma {:induction false} StoryIsHistory(states: seq<Machine>, chunks: seq<Chunk>, json: ObjectParser, n: nat)
    requires Story(states, chunks, json) && n <= |chunks|
    ensures states[n] == History(chunks[..n], json)
  {
    if n > 0 {
      StoryIsHistory(states, chunks, json, n - 1);
      assert OneChunk(states, chunks, n - 1, json);
      HistoryNextChunk(chunks, n, json);
    }
  }

  /** The end of one block of the message, by its index and with its kind. */
  ghost predicate EndsBlock(e: Event, content: seq<Block>) {
    e.BlockEnd? && e.index < |content| && content[e.index] == e.block && e.kind == KindOf(e.block)
  }

  lemma EndsAreEnds(content: seq<Block>, places: seq<nat>, e: Event)
    requires Within(places, |content|) && e in EndsFor(content, places)
    ensures EndsBlock(e, content)
  {
    var ends := EndsFor(content, places);
    var k :| 0 <= k < |ends| && ends[k] == e;
    assert e.block == content[places[k]];
  }

  /** What a consumer is told of each finish reason the model gives. */
  ghost predicate Reason(finishReason: string, told: StopReason) {
    match told
    case Length => finishReason == "length"
    case ToolUse => finishReason in {"tool_calls", "function_call"}
    case Stop => finishReason !in {"length", "tool_calls", "function_call"}
    case Error => false
  }

  /** The message of a stream that ended normally. */
  function FinalMessage(m: Machine, h: Header): Message {
    Message(if m.content == [] then [TextBlock(m.fullText)] else m.content, h.usage, h.stopReason,
            Some(h.responseId), Some(h.responseModel), h.kvTransfer)
  }

  /** After what the machine has told come the ends of all its blocks, and `tail`; a stream without
      a choice tells the end of one empty text block. */
  ghost predicate EndsTold(m: Machine, log: seq<Event>, tail: seq<Event>) {
    if m.started then
      && Listed(m.toolOrder, m.toolIndices) && Within(EndOrder(m), |m.content|)
      && log == m.log + EndsFor(m.content, EndOrder(m)) + tail
    else log == [BlockEnd(TextKind, 0, TextBlock(""))] + tail
  }

  lemma OneMoreTold(m: Machine, log: seq<Event>, e: Event)
    requires EndsTold(m, log, [])
    ensures EndsTold(m, log + [e], [e])
  {
  }

  /** The message of a stream that broke off: whatever had been built. */
  function ErrorMessage(m: Machine, h: Header): Message {
    Message(m.content, h.usage, Error, None, None, None)
  }

  /** The parsed response body: the chunks it still has to give, and whether reading fails after
      them. */
  class ChunkSource {
    var pending: seq<Chunk>
    const fails: bool

    constructor (chunks: seq<Chunk>, fails: bool)
      ensures pending == chunks && this.fails == fails
    {
      pending, this.fails := chunks, fails;
    }

    method Take() returns (chunk: Chunk)
      requires pending != []
      modifies this
      ensures [chunk] + pending == old(pending)
    {
      chunk := pending[0];
      pending := pending[1..];
    }
  }

  class Transport {
    const json: ObjectParser
    const model: string
    const source: ChunkSource

    var content: seq<Block>
    var header: Header
    var started: bool
    var textIndex: int
    var thinkingIndex: int
    var toolIndices: map<int, nat>
    var toolOrder: seq<int>
    var toolBuffers: map<int, ToolBuffer>
    var nextContentIndex: nat
    var fullText: string
    var truncated: bool
    var eventQueue: seq<Event>
    var finished: bool
    var resolved: Option<Message>

    // history
    ghost var slots: seq<Slot>
    ghost var log: seq<Event>
    ghost var delivered: seq<Event>
    ghost var processed: seq<Chunk>
    ghost var states: seq<Machine>
    ghost var built: Machine

    ghost function View(): Machine
      reads this
    {
      Machine(content, slots, started, textIndex, thinkingIndex, toolIndices, toolOrder, toolBuffers, fullText,
              truncated, log)
    }

    ghost predicate Tidy()
      reads this
    {
      nextContentIndex == |content| && log == delivered + eventQueue
    }

    ghost predicate Ready()
      reads this
    {
      Inv(View(), json) && Tidy()
    }

    /** While the stream is open: the machine's invariant, and exactly what the chunks said. */
    ghost predicate OpenOk()
      reads this
    {
      Ready() && resolved.None? && Told(states, processed, View(), header, model, json)
    }

    /** After its end: one terminal event, the last one, carrying the message that was resolved.
        `built` is the machine as it was when the stream ended. */
    ghost predicate FinishedOk()
      reads this, source
    {
      && log == delivered + eventQueue
      && Told(states, processed, built, header, model, json)
      && source.pending == [] && resolved.Some?
      && (source.fails ==> resolved.value == ErrorMessage(built, header) && log == built.log + [Failed(resolved.value)])
      && (!source.fails ==>
            && resolved.value == FinalMessage(built, header)
            && EndsTold(built, log, [Done(header.stopReason, resolved.value)]))
    }

    ghost predicate Valid()
      reads this, source
    {
      if finished then FinishedOk() else OpenOk()
    }

    constructor (source: ChunkSource, model: string, json: ObjectParser)
      ensures Valid() && !finished && processed == [] && delivered == []
      ensures this.source == source && this.model == model && this.json == json
    {
      this.json, this.model, this.source := json, model, source;
      content, slots, started, textIndex, thinkingIndex := [], [], false, -1, -1;
      toolIndices, toolOrder, toolBuffers, nextContentIndex := map[], [], map[], 0;
      fullText, truncated, eventQueue, finished, resolved := "", false, [], false, None;
      header := HeaderOf([], model);
      log, delivered, processed, states := [], [], [], [EMPTY_MACHINE];
      built := EMPTY_MACHINE;
    }

    method Push(e: Event)
      modifies this`eventQueue, this`log
      ensures eventQueue == old(eventQueue) + [e] && log == old(log) + [e]
    {
      eventQueue := eventQueue + [e];
      log := log + [e];
    }

    /** The next content index, its block and its start event. */
    method NewBlock(slot: Slot, block: Block) returns (index: nat)
      requires Tidy()
      modifies this`content, this`slots, this`nextContentIndex, this`eventQueue, this`log
      ensures Tidy() && index == old(|content|) && View() == StartBlock(old(View()), slot, block)
    {
      index := nextContentIndex;
      nextContentIndex := nextContentIndex + 1;
      content := content + [block];
      slots := slots + [slot];
      Push(BlockStart(SlotKind(slot), index));
    }

    method EnsureText()
      requires Tidy()
      modifies this`content, this`slots, this`textIndex, this`nextContentIndex, this`eventQueue, this`log
      ensures Tidy() && View() == StartText(old(View()))
    {
      if textIndex < 0 {
        textIndex := NewBlock(TextSlot, TextBlock(""));
      }
    }

    method AppendText(delta: string)
      requires Tidy() && 0 <= textIndex < |content| && content[textIndex] == TextBlock(fullText)
      requires truncated <==> |fullText| > MAX_RESPONSE_CHARS
      modifies this`content, this`fullText, this`truncated, this`eventQueue, this`log
      ensures Tidy() && View() == GrowText(old(View()), delta)
    {
      if !truncated {
        content := content[textIndex := TextBlock(content[textIndex].text + delta)];
        fullText := fullText + delta;
        if |fullText| > MAX_RESPONSE_CHARS {
          truncated := true;
        }
        if !truncated {
          Push(BlockDelta(TextKind, textIndex, delta));
        }
      }
    }

    method AddTextDelta(delta: string)
      requires Ready() && started
      modifies this`content, this`slots, this`textIndex, this`nextContentIndex, this`fullText, this`truncated,
               this`eventQueue, this`log
      ensures Tidy() && View() == TextStep(old(View()), delta, json)
    {
      if delta != "" {
        StartTextOk(View(), json);
        EnsureText();
        assert SlotOk(View(), textIndex, json);
        AppendText(delta);
      }
    }

    method EnsureThinking()
      requires Tidy()
      modifies this`content, this`slots, this`thinkingIndex, this`nextContentIndex, this`eventQueue, this`log
      ensures Tidy() && View() == StartThinking(old(View()))
    {
      if thinkingIndex < 0 {
        thinkingIndex := NewBlock(ThinkingSlot, ThinkingBlock(""));
      }
    }

    method AppendThinking(delta: string)
      requires Tidy() && 0 <= thinkingIndex < |content| && content[thinkingIndex].ThinkingBlock?
      modifies this`content, this`eventQueue, this`log
      ensures Tidy() && View() == GrowThinking(old(View()), delta)
    {
      content := content[thinkingIndex := ThinkingBlock(content[thinkingIndex].thinking + delta)];
      Push(BlockDelta(ThinkingKind, thinkingIndex, delta));
    }

    method AddThinkingDelta(delta: string)
      requires Ready() && started
      modifies this`content, this`slots, this`thinkingIndex, this`nextContentIndex, this`eventQueue, this`log
      ensures Tidy() && View() == ThinkingStep(old(View()), delta, json)
    {
      if delta != "" {
        StartThinkingOk(View(), json);
        EnsureThinking();
        assert SlotOk(View(), thinkingIndex, json);
        AppendThinking(delta);
      }
    }

    method EnsureTool(tc: ToolDelta)
      requires Tidy()
      modifies this`content, this`slots, this`toolIndices, this`toolOrder, this`toolBuffers, this`nextContentIndex,
               this`eventQueue, this`log
      ensures Tidy() && View() == StartTool(old(View()), tc)
    {
      var t := IndexOf(tc);
      if t !in toolIndices {
        var buffer := ToolBuffer(OrEmpty(tc.id), OrEmpty(tc.name), "");
        var ci := NewBlock(ToolSlot(t), ToolCall(buffer.id, buffer.name, map[]));
        toolIndices := toolIndices[t := ci];
        toolOrder := toolOrder + [t];
        toolBuffers := toolBuffers[t := buffer];
      }
    }

    method AppendArguments(t: int, delta: string)
      requires Tidy() && t in toolIndices && t in toolBuffers && toolIndices[t] < |content|
      requires content[toolIndices[t]] == ToolBlock(toolBuffers[t], json)
      modifies this`content, this`toolBuffers, this`eventQueue, this`log
      ensures Tidy() && View() == GrowTool(old(View()), t, delta, json)
    {
      var ci := toolIndices[t];
      var buffer := toolBuffers[t].(args := toolBuffers[t].args + delta);
      toolBuffers := toolBuffers[t := buffer];
      content := content[ci := ToolCall(content[ci].id, content[ci].name, ParsePartialJson(buffer.args, json))];
      Push(BlockDelta(ToolKind, ci, delta));
    }

    method AddToolDelta(tc: ToolDelta)
      requires Ready() && started
      modifies this`content, this`slots, this`toolIndices, this`toolOrder, this`toolBuffers, this`nextContentIndex,
               this`eventQueue, this`log
      ensures Tidy() && View() == CallStep(old(View()), tc, json)
    {
      StartToolOk(View(), tc, json);
      EnsureTool(tc);
      if OrEmpty(tc.arguments) != "" {
        assert SlotOk(View(), toolIndices[IndexOf(tc)], json);
        AppendArguments(IndexOf(tc), tc.arguments.value);
      }
    }

    method ReadHeader(chunk: Chunk)
      modifies this`header
      ensures header == HeaderStep(old(header), chunk)
    {
      if chunk.id != "" { header := header.(responseId := chunk.id); }
      if chunk.model != "" { header := header.(responseModel := chunk.model); }
      if chunk.kvTransfer.Some? { header := header.(kvTransfer := chunk.kvTransfer); }
      if chunk.usage.Some? { header := header.(usage := chunk.usage.value); }
      if chunk.choice.Some? && chunk.choice.value.finishReason != "" {
        header := header.(stopReason := MapStopReason(chunk.choice.value.finishReason));
      }
    }

    method SendStart()
      requires Ready()
      modifies this`started, this`eventQueue, this`log
      ensures Tidy() && View() == Begin(old(View()), json)
    {
      if !started {
        started := true;
        Push(Start);
      }
    }

    method AddToolDeltas(calls: seq<ToolDelta>)
      requires Ready() && started
      modifies this`content, this`slots, this`toolIndices, this`toolOrder, this`toolBuffers, this`nextContentIndex,
               this`eventQueue, this`log
      ensures Tidy() && View() == CallsStep(old(View()), calls, json)
    {
      for k := 0 to |calls|
        invariant Ready() && started && View() == CallsStep(old(View()), calls[..k], json)
      {
        CallsNext(old(View()), calls, k, json);
        AddToolDelta(calls[k]);
      }
      assert calls[..|calls|] == calls;
    }

    method ReadDeltas(choice: Choice, reasoningText: string)
      requires Ready() && started
      modifies this`content, this`slots, this`textIndex, this`thinkingIndex, this`toolIndices, this`toolOrder,
               this`toolBuffers, this`nextContentIndex, this`fullText, this`truncated, this`eventQueue, this`log
      ensures Tidy()
      ensures View() == CallsStep(ThinkingStep(TextStep(old(View()), choice.content, json), reasoningText, json),
                                  choice.toolCalls, json)
    {
      AddTextDelta(choice.content);
      AddThinkingDelta(reasoningText);
      AddToolDeltas(choice.toolCalls);
    }

    method ReadChoice(chunk: Chunk)
      requires Ready()
      modifies this`content, this`slots, this`started, this`textIndex, this`thinkingIndex, this`toolIndices,
               this`toolOrder, this`toolBuffers, this`nextContentIndex, this`fullText, this`truncated,
               this`eventQueue, this`log
      ensures Tidy() && View() == ChunkStep(old(View()), chunk, json)
    {
      if chunk.choice.Some? {
        var choice := chunk.choice.value;
        var reasoningText := if choice.reasoningContent.Some? then choice.reasoningContent.value
          else OrEmpty(choice.reasoning);
        SendStart();
        ReadDeltas(choice, reasoningText);
      }
    }

    method ReadChunk(chunk: Chunk)
      requires Ready()
      modifies this`content, this`slots, this`started, this`textIndex, this`thinkingIndex, this`toolIndices,
               this`toolOrder, this`toolBuffers, this`nextContentIndex, this`fullText, this`truncated,
               this`eventQueue, this`log, this`header
      ensures Ready() && View() == ChunkStep(old(View()), chunk, json) && header == HeaderStep(old(header), chunk)
    {
      ReadHeader(chunk);
      ReadChoice(chunk);
    }

    method ProcessChunk(chunk: Chunk)
      requires OpenOk()
      modifies this`content, this`slots, this`started, this`textIndex, this`thinkingIndex, this`toolIndices,
               this`toolOrder, this`toolBuffers, this`nextContentIndex, this`fullText, this`truncated,
               this`eventQueue, this`log, this`header, this`processed, this`states
      ensures OpenOk() && processed == old(processed) + [chunk]
    {
      TellOneMore(states, processed, View(), header, chunk, model, json);
      ReadChunk(chunk);
      assert Ready() && Told(states + [View()], processed + [chunk], View(), header, model, json);
      states := states + [View()];
      processed := processed + [chunk];
    }

    method EmitEnd(i: nat)
      requires i < |content| && log == delivered + eventQueue
      modifies this`eventQueue, this`log
      ensures log == old(log) + EndsFor(content, [i]) && log == delivered + eventQueue
    {
      Push(BlockEnd(KindOf(content[i]), i, content[i]));
      assert EndsFor(content, [i]) == [EndOf(content, i)];
    }

    method EmitEndIfAny(i: int)
      requires -1 <= i < |content| && log == delivered + eventQueue
      modifies this`eventQueue, this`log
      ensures log == old(log) + EndsFor(content, AtLeastZero(i)) && log == delivered + eventQueue
    {
      if i >= 0 {
        EmitEnd(i);
      }
    }

    method EmitToolEnds()
      requires log == delivered + eventQueue
      requires Listed(toolOrder, toolIndices) && forall k :: 0 <= k < |toolOrder| ==>
               toolIndices[toolOrder[k]] < |content|
      modifies this`eventQueue, this`log
      ensures log == delivered + eventQueue
      ensures var places := ToolPlaces(toolIndices, toolOrder, |toolOrder|);
              Within(places, |content|) && log == old(log) + EndsFor(content, places)
    {
      for k := 0 to |toolOrder|
        invariant log == delivered + eventQueue
        invariant log == old(log) + EndsFor(content, ToolPlaces(toolIndices, toolOrder, k))
      {
        var ci := toolIndices[toolOrder[k]];
        EndsForConcat(content, ToolPlaces(toolIndices, toolOrder, k), [ci]);
        assert ToolPlaces(toolIndices, toolOrder, k + 1) == ToolPlaces(toolIndices, toolOrder, k) + [ci];
        EmitEnd(ci);
      }
    }

    method EmitBlockEnds()
      requires log == delivered + eventQueue
      requires -1 <= textIndex < |content| && -1 <= thinkingIndex < |content|
      requires Listed(toolOrder, toolIndices) && forall k :: 0 <= k < |toolOrder| ==>
               toolIndices[toolOrder[k]] < |content|
      modifies this`eventQueue, this`log
      ensures log == delivered + eventQueue
      ensures var places := Order(textIndex, thinkingIndex, toolIndices, toolOrder);
              Within(places, |content|) && log == old(log) + EndsFor(content, places)
    {
      ghost var before, text, thinking := log, AtLeastZero(textIndex), AtLeastZero(thinkingIndex);
      ghost var tools := ToolPlaces(toolIndices, toolOrder, |toolOrder|);
      EmitEndIfAny(textIndex);
      EmitEndIfAny(thinkingIndex);
      EmitToolEnds();
      EndsForConcat(content, text, thinking);
      EndsForConcat(content, text + thinking, tools);
      Reassociate(before, EndsFor(content, text), EndsFor(content, thinking), EndsFor(content, tools));
    }

    /** Bring every tool block up to date with its buffer; it always was. */
    method SynchronizeTools()
      requires Ready()
      modifies this`content
      ensures content == old(content)
    {
      for k := 0 to |toolOrder|
        invariant content == old(content)
      {
        var t := toolOrder[k];
        assert t in toolIndices;
        var ci := toolIndices[t];
        assert SlotOk(old(View()), ci, json);
        var buffer, block := toolBuffers[t], content[ci];
        content := content[ci := ToolCall(if block.id != "" then block.id else buffer.id,
                                          if block.name != "" then block.name else buffer.name,
                                          ParsePartialJson(buffer.args, json))];
      }
    }

    /** The block ends before `done`; a stream without any choice gets an empty text block. */
    method CloseBlocks()
      requires Ready()
      modifies this`content, this`textIndex, this`eventQueue, this`log
      ensures log == delivered + eventQueue
      ensures var m := old(View());
              && content == (if m.started then m.content else [TextBlock("")])
              && EndsTold(m, log, [])
    {
      ToolsWithin(View(), json);
      SynchronizeTools();
      if !started {
        content := content + [TextBlock("")];
        textIndex := 0;
        assert Order(0, thinkingIndex, toolIndices, toolOrder) == [0];
        assert EndsFor(content, [0]) == [EndOf(content, 0)];
      }
      EmitBlockEnds();
    }

    method FinalizeStream() returns (done: Event)
      requires OpenOk() && source.pending == [] && !source.fails
      modifies this`content, this`textIndex, this`eventQueue, this`log, this`finished, this`resolved, this`built
      ensures finished && log == delivered + eventQueue && built == old(View())
      ensures resolved == Some(FinalMessage(built, header)) && done == Done(header.stopReason, resolved.value)
      ensures EndsTold(built, log, [])
    {
      built := View();
      ToolsWithin(built, json);
      CloseBlocks();
      var message := Message(if |content| > 0 then content else [TextBlock(fullText)],
                             header.usage, header.stopReason, Some(header.responseId), Some(header.responseModel),
                             header.kvTransfer);
      finished := true;
      resolved := Some(message);
      done := Done(header.stopReason, message);
    }

    /** Read chunks until there is something to deliver; `threw` says that reading the body failed
        instead. */
    method Fill() returns (threw: bool)
      requires OpenOk() && !finished && eventQueue == []
      modifies source, this`content, this`slots, this`started, this`textIndex, this`thinkingIndex, this`toolIndices,
               this`toolOrder, this`toolBuffers, this`nextContentIndex, this`fullText, this`truncated,
               this`eventQueue, this`log, this`header, this`processed, this`states, this`finished, this`resolved,
               this`built
      ensures if finished then FinishedOk() else OpenOk()
      ensures processed + source.pending == old(processed + source.pending) && |source.pending| <= old(|source.pending|)
      ensures threw ==> !finished && eventQueue == [] && source.pending == [] && source.fails
      ensures !threw ==> eventQueue != [] && (|source.pending| == old(|source.pending|) ==> finished)
    {
      while eventQueue == []
        invariant !finished && OpenOk()
        invariant processed + source.pending == old(processed + source.pending)
                  && |source.pending| <= old(|source.pending|)
        invariant |source.pending| == old(|source.pending|) ==> eventQueue == []
        decreases |source.pending|
      {
        if source.pending == [] {
          if source.fails {
            return true;
          }
          Finish();
          return false;
        }
        Read();
      }
      threw := false;
    }

    /** Take one chunk from the body and process it. */
    method Read()
      requires OpenOk() && !finished && source.pending != []
      modifies source, this`content, this`slots, this`started, this`textIndex, this`thinkingIndex, this`toolIndices,
               this`toolOrder, this`toolBuffers, this`nextContentIndex, this`fullText, this`truncated,
               this`eventQueue, this`log, this`header, this`processed, this`states
      ensures OpenOk()
      ensures processed + source.pending == old(processed + source.pending)
              && |source.pending| == old(|source.pending|) - 1
    {
      var chunk := source.Take();
      assert processed + [chunk] + source.pending == processed + ([chunk] + source.pending);
      ProcessChunk(chunk);
    }

    method Finish()
      requires OpenOk() && !finished && source.pending == [] && !source.fails
      modifies this`content, this`textIndex, this`eventQueue, this`log, this`finished, this`resolved, this`built
      ensures finished && FinishedOk() && eventQueue != []
    {
      var done := FinalizeStream();
      OneMoreTold(built, log, done);
      Push(done);
    }

    /** What `next` does when reading failed: the error event is delivered at once. */
    method Fail() returns (event: Event)
      requires OpenOk() && !finished && source.pending == [] && source.fails && eventQueue == []
      modifies this`finished, this`resolved, this`log, this`delivered, this`built
      ensures finished && FinishedOk() && delivered == old(delivered) + [event]
    {
      built := View();
      var message := Message(content, header.usage, Error, None, None, None);
      finished := true;
      resolved := Some(message);
      event := Failed(message);
      log := log + [event];
      delivered := delivered + [event];
    }

    method Shift() returns (event: Event)
      requires Valid() && eventQueue != []
      modifies this`delivered, this`eventQueue
      ensures Valid() && finished == old(finished) && event == old(eventQueue)[0] && eventQueue == old(eventQueue)[1..]
      ensures delivered == old(delivered) + [event]
    {
      event := eventQueue[0];
      delivered := delivered + [eventQueue[0]];
      eventQueue := eventQueue[1..];
    }

    /** The consumer's pull: the next event, or `None` for ever once everything is delivered. */
    method Next() returns (event: Option<Event>)
      requires Valid()
      modifies this, source
      ensures Valid()
      ensures processed + source.pending == old(processed + source.pending)
      ensures event.Some? ==> delivered == old(delivered) + [event.value]
      ensures event.None? ==> delivered == old(delivered) && finished && eventQueue == []
      ensures event.Some? ==>
                || |source.pending| < old(|source.pending|)
                || (|source.pending| == old(|source.pending|) && !old(finished) && finished)
                || (|source.pending| == old(|source.pending|) && finished == old(finished)
                    && |eventQueue| < old(|eventQueue|))
    {
      var threw := false;
      if eventQueue == [] && !finished {
        threw := Fill();
      }
      if threw {
        var e := Fail();
        return Some(e);
      }
      if eventQueue != [] {
        var e := Shift();
        return Some(e);
      }
      event := None;
    }

    /** A consumer that pulls until the stream is over. */
    method Consume() returns (events: seq<Event>)
      requires Valid() && processed == [] && delivered == []
      modifies this, source
      ensures finished && FinishedOk() && processed == old(source.pending) && events == log
    {
      events := [];
      var more := true;
      while more
        invariant Valid() && events == delivered
        invariant processed + source.pending == old(source.pending)
        invariant !more ==> finished && eventQueue == []
        decreases more, |source.pending|, !finished, |eventQueue|
      {
        var event := Next();
        if event.Some? {
          events := events + [event.value];
        } else {
          more := false;
        }
      }
    }

    /** What a consumer has seen of a whole stream: a well-formed one, ended by the only terminal
        event, which carries the message `result()` resolves to. (A stream that ends normally
        without any choice is `text_end`, `done`.) */
    lemma WholeStream()
      requires FinishedOk()
      ensures AnyChoice(processed) || source.fails ==> Accept(log) == Over
      ensures !AnyChoice(processed) && !source.fails ==> |log| == 2 && log[0] == BlockEnd(TextKind, 0, TextBlock(""))
      ensures log != [] && Terminal(log[|log| - 1]) && log[|log| - 1].message == resolved.value
      ensures log[|log| - 1].Failed? <==> source.fails
      ensures forall n :: 0 <= n < |log| - 1 ==> !Terminal(log[n])
    {
      BuiltFromChunks();
      LastCarriesTheMessage();
      if AnyChoice(processed) || source.fails {
        EndIsAccepted();
        OnlyLastIsTerminal(log);
      }
    }

    /** What the message says, and with it every block end a consumer has seen: the blocks are those the
        chunks spoke of, each with all that was said of it, and none is missing. */
    lemma MessageSaysWhatWasSaid()
      requires FinishedOk()
      ensures forall block :: block in resolved.value.content ==> Said(block, processed, json)
      ensures forall e :: e in log && e.BlockEnd? ==> EndsBlock(e, resolved.value.content)
      ensures StoredText(processed) != "" ==> TextBlock(StoredText(processed)) in resolved.value.content
      ensures ThinkingOf(processed) != "" ==> ThinkingBlock(ThinkingOf(processed)) in resolved.value.content
      ensures forall i: nat :: FirstCall(AllCalls(processed), i) ==>
                ToolSaid(processed, i, json) in resolved.value.content
    {
      BuiltFromChunks();
      BuiltIsHistory();
      TextsHaveTheirBlocks(processed, json);
      HistoryIsCaught(processed, json);
      ContentWasSaid(built, processed, json);
      forall i: nat | FirstCall(AllCalls(processed), i) ensures ToolSaid(processed, i, json) in resolved.value.content {
        var k := EveryToolHasItsBlock(processed, json, i);
        assert built.content[k] in built.content;
      }
      EndsAreOfTheMessage();
    }

    /** Who sent the message, what it cost and why it ended: the last word of any chunk on it. A message
        that broke off has its usage, the reason `error` and nothing else. */
    lemma MessageCarriesLastWords(i: nat)
      requires FinishedOk()
      ensures var m := resolved.value;
              && (LastWord(processed, i, (c: Chunk) => c.usage.Some?) ==> Some(m.usage) == processed[i].usage)
              && (source.fails ==> m.stopReason == Error && m.responseId == m.responseModel == None)
              && (source.fails ==> m.kvTransfer == None && m.content == History(processed, json).content)
      ensures var m := resolved.value;
              !source.fails ==>
                && (LastWord(processed, i, (c: Chunk) => c.id != "") ==> m.responseId == Some(processed[i].id))
                && (LastWord(processed, i, (c: Chunk) => c.model != "") ==> m.responseModel == Some(processed[i].model))
                && (LastWord(processed, i, (c: Chunk) => c.kvTransfer.Some?) ==>
                      m.kvTransfer == processed[i].kvTransfer)
                && (LastWord(processed, i, Finishes) ==> Reason(processed[i].choice.value.finishReason, m.stopReason))
                && log[|log| - 1] == Done(m.stopReason, m)
    {
      BuiltFromChunks();
      BuiltIsHistory();
      LastCarriesTheMessage();
      HeaderIsLastWord(processed, model, i);
      assert !source.fails ==> log[|log| - 1] == Done(header.stopReason, resolved.value);
    }

    lemma BuiltIsHistory()
      requires FinishedOk()
      ensures built == History(processed, json)
    {
      StoryIsHistory(states, processed, json, |processed|);
      assert processed[..|processed|] == processed;
    }

    lemma EndsAreOfTheMessage()
      requires FinishedOk() && Inv(built, json)
      ensures forall e :: e in log && e.BlockEnd? ==> EndsBlock(e, resolved.value.content)
    {
      NoEndsYet(built, json);
      forall e | e in log && e.BlockEnd? ensures EndsBlock(e, resolved.value.content) {
        if built.started && !source.fails && e !in built.log {
          assert e in EndsFor(built.content, EndOrder(built));
          EndsAreEnds(built.content, EndOrder(built), e);
        }
      }
    }

    lemma LastCarriesTheMessage()
      requires FinishedOk() && Inv(built, json)
      ensures log != [] && Terminal(log[|log| - 1]) && log[|log| - 1].message == resolved.value
      ensures log[|log| - 1].Failed? <==> source.fails
      ensures !built.started && !source.fails ==> |log| == 2 && log[0] == BlockEnd(TextKind, 0, TextBlock(""))
    {
    }

    lemma BuiltFromChunks()
      requires FinishedOk()
      ensures Inv(built, json) && (built.started <==> AnyChoice(processed))
    {
      StoryIsHistory(states, processed, json, |processed|);
      assert processed[..|processed|] == processed;
      HistoryIsCaught(processed, json);
    }

    lemma EndIsAccepted()
      requires FinishedOk() && Inv(built, json) && (built.started || source.fails)
      ensures Accept(log) == Over
    {
      if source.fails {
        FailureIsAccepted(built, resolved.value, json);
      } else {
        DoneIsAccepted(built, Done(header.stopReason, resolved.value), json);
      }
    }
  }

  lemma ContentWasSaid(m: Machine, chunks: seq<Chunk>, json: ObjectParser)
    requires m == History(chunks, json)
    ensures forall block :: block in m.content ==> Said(block, chunks, json)
  {
    forall block | block in m.content ensures Said(block, chunks, json) {
      var k :| 0 <= k < |m.content| && m.content[k] == block;
      EveryBlockWasSaid(chunks, json, k);
    }
  }

  /** While blocks can still be begun, none has ended. */
  lemma NoEndsYet(m: Machine, json: ObjectParser)
    requires Inv(m, json)
    ensures forall e :: e in m.log ==> !e.BlockEnd?
  {
    if m.started {
      OpenHasNoEnds(m.log);
    }
  }

  lemma {:induction false} OpenHasNoEnds(log: seq<Event>)
    requires Accept(log).Open?
    ensures forall e :: e in log ==> !e.BlockEnd?
  {
    if log != [] && log[..|log| - 1] != [] {
      OpenHasNoEnds(log[..|log| - 1]);
    }
  }

  lemma OnlyLastIsTerminal(log: seq<Event>)
    requires Accept(log) == Over
    ensures forall n :: 0 <= n < |log| - 1 ==> !Terminal(log[n])
  {
    forall n: nat | n < |log| && Terminal(log[n]) ensures n == |log| - 1 {
      NothingAfterTerminal(log, n);
    }
  }

  lemma Reassociate(a: seq<Event>, b: seq<Event>, c: seq<Event>, d: seq<Event>)
    ensures a + b + c + d == a + (b + c + d)
  {
  }

  lemma FailureIsAccepted(m: Machine, message: Message, json: ObjectParser)
    requires Inv(m, json)
    ensures Accept(m.log + [Failed(message)]) == Over
  {
    PushMeaning(m.log, Failed(message));
  }

  lemma ToolsWithin(m: Machine, json: ObjectParser)
    requires Inv(m, json)
    ensures Listed(m.toolOrder, m.toolIndices) && forall k :: 0 <= k < |m.toolOrder| ==>
            m.toolIndices[m.toolOrder[k]] < |m.content|
    ensures !m.started ==>
            m.toolOrder == [] && m.content == [] && m.log == [] && m.thinkingIndex == -1 && m.fullText == ""
  {
    forall k | 0 <= k < |m.toolOrder|
      ensures m.toolOrder[k] in m.toolIndices && m.toolIndices[m.toolOrder[k]] < |m.content|
    {
      var t := m.toolOrder[k];
      assert t in m.toolOrder;
      assert t in m.toolIndices;
    }
    assert m.toolOrder == [] || m.toolIndices[m.toolOrder[0]] < |m.content|;
  }
}
