/** What a whole message says: each block, and each tool call's id, name and arguments, in terms of the
    chunks alone. */
module StreamMeaning {
  import opened Basics
  import opened FirstSeen
  import opened StreamGrammar
  import opened StreamTransport

  // ---------------------------------------------------------------- what the chunks say

  /** A chunk without a choice says nothing. Otherwise its content is text; `reasoning_content`, if it is
      there at all, is what it thinks, and else `reasoning` is. */
  lemma ChunkMeaning(c: Chunk, choice: Choice)
    ensures c.choice == None ==> TextOf(c) == ReasoningOf(c) == ""
    ensures c.choice == Some(choice) ==> TextOf(c) == choice.content
    ensures c.choice == Some(choice) && choice.reasoningContent.Some? ==>
              ReasoningOf(c) == choice.reasoningContent.value
    ensures c.choice == Some(choice) && choice.reasoningContent.None? ==>
              ReasoningOf(c) == match choice.reasoning case Some(reasoning) => reasoning case None => ""
  {
  }

  /** Arguments that are not, or not yet, an object count as none. */
  lemma PartialJsonMeaning(text: string, trimmed: string, json: ObjectParser)
    requires trimmed == EventStream.JsTrim(text)
    ensures trimmed != "" && json(trimmed).Some? ==> Some(ParsePartialJson(text, json)) == json(trimmed)
    ensures trimmed == "" || json(trimmed).None? ==> ParsePartialJson(text, json) == map[]
  {
  }

  /** What each chunk adds, put together in the order of the chunks. */
  function Gathered(chunks: seq<Chunk>, said: Chunk -> string): string {
    if chunks == [] then "" else Gathered(chunks[..|chunks| - 1], said) + said(chunks[|chunks| - 1])
  }

  lemma {:induction false} GatheredInOrder(a: seq<Chunk>, b: seq<Chunk>, said: Chunk -> string)
    ensures Gathered(a + b, said) == Gathered(a, said) + Gathered(b, said)
  {
    if b == [] {
      assert a + b == a;
    } else {
      var front, last := b[..|b| - 1], b[|b| - 1];
      GatheredInOrder(a, front, said);
      assert a + b == (a + front) + [last] && (a + b)[..|a + b| - 1] == a + front;
      Associative(Gathered(a, said), Gathered(front, said), said(last));
    }
  }

  lemma Associative(x: string, y: string, z: string)
    ensures (x + y) + z == x + (y + z)
  {
  }

  /** The arguments of call `t` in one chunk. */
  function ArgumentsIn(c: Chunk, t: int): string {
    if c.choice.Some? then ArgsOfCalls(c.choice.value.toolCalls, t) else ""
  }

  /** So texts, thoughts and arguments stand in the order of the chunks. */
  lemma {:induction false} SaidInOrder(chunks: seq<Chunk>, t: int)
    ensures ThinkingOf(chunks) == Gathered(chunks, ReasoningOf)
    ensures ArgsOf(chunks, t) == Gathered(chunks, c => ArgumentsIn(c, t))
  {
    if chunks != [] {
      SaidInOrder(chunks[..|chunks| - 1], t);
    }
  }

  /** Within one chunk, in the order of its deltas; a delta without index is one of call 0. */
  lemma {:induction false} CallsInOrder(a: seq<ToolDelta>, b: seq<ToolDelta>, tc: ToolDelta, t: int)
    ensures ArgsOfCalls(a + b, t) == ArgsOfCalls(a, t) + ArgsOfCalls(b, t)
    ensures tc.index == Some(t) || (tc.index == None && t == 0) ==>
              ArgsOfCalls([tc], t) == match tc.arguments case Some(arguments) => arguments case None => ""
    ensures tc.index != Some(t) && (tc.index.Some? || t != 0) ==> ArgsOfCalls([tc], t) == ""
  {
    assert [tc][..0] == [];
    if b == [] {
      assert a + b == a;
    } else {
      var n := |b| - 1;
      CallsInOrder(a, b[..n], tc, t);
      assert (a + b)[..|a + b| - 1] == a + b[..n];
    }
  }

  /** All the text, whatever its length. */
  function WholeText(chunks: seq<Chunk>): string {
    Gathered(chunks, TextOf)
  }

  /** Text is stored in full up to and including the delta that crosses the limit, and published up to
      the one before. */
  lemma {:induction false} StoredUpToTheCrossing(chunks: seq<Chunk>) returns (n: nat)
    ensures |WholeText(chunks)| <= 2_000_000 ==> StoredText(chunks) == PublishedText(chunks) == WholeText(chunks)
    ensures |WholeText(chunks)| > 2_000_000 ==>
              && n < |chunks| && |WholeText(chunks[..n])| <= 2_000_000
              && StoredText(chunks) == WholeText(chunks[..n + 1]) && |StoredText(chunks)| > 2_000_000
              && PublishedText(chunks) == WholeText(chunks[..n])
  {
    n := 0;
    if chunks != [] {
      var front := chunks[..|chunks| - 1];
      n := StoredUpToTheCrossing(front);
      if |WholeText(front)| > 2_000_000 {
        SameFront(chunks, front, n);
      } else {
        n := |front|;
        assert chunks[..n + 1] == chunks && chunks[..n] == front;
      }
    }
  }

  lemma SameFront<T>(all: seq<T>, front: seq<T>, n: nat)
    requires n < |front| < |all| && front == all[..|front|]
    ensures front[..n] == all[..n] && front[..n + 1] == all[..n + 1]
  {
  }

  // ---------------------------------------------------------------- tool calls

  /** The deltas of tool calls, in the order they came. */
  function AllCalls(chunks: seq<Chunk>): seq<ToolDelta> {
    if chunks == [] then []
    else
      var last := chunks[|chunks| - 1];
      AllCalls(chunks[..|chunks| - 1]) + if last.choice.Some? then last.choice.value.toolCalls else []
  }

  function Indices(calls: seq<ToolDelta>): (indices: seq<int>)
    ensures |indices| == |calls| && forall i :: 0 <= i < |calls| ==> indices[i] == IndexOf(calls[i])
  {
    seq(|calls|, i requires 0 <= i < |calls| => IndexOf(calls[i]))
  }

  /** Delta `i` is the first of its tool call. */
  ghost predicate FirstCall(calls: seq<ToolDelta>, i: nat) {
    i < |calls| && forall j :: 0 <= j < i ==> IndexOf(calls[j]) != IndexOf(calls[i])
  }

  /** The machine has the tool call that `tc` is the first delta of. */
  ghost predicate HasTool(m: Machine, tc: ToolDelta) {
    var t := IndexOf(tc);
    t in m.toolBuffers && m.toolBuffers[t].id == OrEmpty(tc.id) && m.toolBuffers[t].name == OrEmpty(tc.name)
  }

  /** Tool calls are listed as they were first seen, with the id and name of their first delta. */
  ghost predicate ToolsSaid(m: Machine, calls: seq<ToolDelta>) {
    m.toolOrder == Unique(Indices(calls)) && forall i: nat :: FirstCall(calls, i) ==> HasTool(m, calls[i])
  }

  lemma SameToolsSaid(m: Machine, m': Machine, calls: seq<ToolDelta>)
    requires ToolsSaid(m, calls) && m'.toolOrder == m.toolOrder && m'.toolBuffers == m.toolBuffers
    ensures ToolsSaid(m', calls)
  {
    forall i: nat | FirstCall(calls, i) ensures HasTool(m', calls[i]) {
      assert HasTool(m, calls[i]);
    }
  }

  lemma TextStepKeepsTools(m: Machine, delta: string, json: ObjectParser)
    requires Inv(m, json) && m.started
    ensures var m' := TextStep(m, delta, json); m'.toolOrder == m.toolOrder && m'.toolBuffers == m.toolBuffers
  {
  }

  lemma ThinkingStepKeepsTools(m: Machine, delta: string, json: ObjectParser)
    requires Inv(m, json) && m.started
    ensures var m' := ThinkingStep(m, delta, json); m'.toolOrder == m.toolOrder && m'.toolBuffers == m.toolBuffers
  {
  }

  /** The tool calls of `m` are those of `m'` too, with the same ids and names. */
  ghost predicate KeepsTools(m: Machine, m': Machine) {
    forall t :: t in m.toolBuffers ==> SameTool(m, m', t)
  }

  ghost predicate SameTool(m: Machine, m': Machine, t: int) {
    && t in m.toolBuffers && t in m'.toolBuffers
    && m'.toolBuffers[t].id == m.toolBuffers[t].id && m'.toolBuffers[t].name == m.toolBuffers[t].name
  }

  lemma StartToolTools(m: Machine, tc: ToolDelta)
    requires ToolsOk(m)
    ensures var m', t := StartTool(m, tc), IndexOf(tc);
            && m'.toolOrder == (if t in m.toolOrder then m.toolOrder else m.toolOrder + [t])
            && (t !in m.toolOrder ==> HasTool(m', tc)) && KeepsTools(m, m')
  {
  }

  lemma GrowToolTools(m: Machine, t: int, delta: string, json: ObjectParser)
    requires t in m.toolIndices && t in m.toolBuffers && m.toolIndices[t] < |m.content|
    ensures var m' := GrowTool(m, t, delta, json); m'.toolOrder == m.toolOrder && KeepsTools(m, m')
  {
  }

  lemma CallStepTools(m: Machine, tc: ToolDelta, json: ObjectParser)
    requires Inv(m, json) && m.started
    ensures var m', t := CallStep(m, tc, json), IndexOf(tc);
            && m'.toolOrder == (if t in m.toolOrder then m.toolOrder else m.toolOrder + [t])
            && (t !in m.toolOrder ==> HasTool(m', tc)) && KeepsTools(m, m')
  {
    StartToolOk(m, tc, json);
    StartToolTools(m, tc);
    var mid := StartTool(m, tc);
    if OrEmpty(tc.arguments) != "" {
      GrowToolTools(mid, IndexOf(tc), tc.arguments.value, json);
      forall t | t in m.toolBuffers ensures SameTool(m, CallStep(m, tc, json), t) {
        assert SameTool(m, mid, t);
      }
      assert IndexOf(tc) in mid.toolBuffers ==> SameTool(mid, CallStep(m, tc, json), IndexOf(tc));
    }
  }

  lemma CallStepSaid(m: Machine, calls: seq<ToolDelta>, tc: ToolDelta, json: ObjectParser)
    requires Inv(m, json) && m.started && ToolsSaid(m, calls)
    ensures ToolsSaid(CallStep(m, tc, json), calls + [tc])
  {
    var m', more := CallStep(m, tc, json), calls + [tc];
    CallStepTools(m, tc, json);
    OneMoreIndex(calls, tc);
    forall i: nat | FirstCall(more, i) ensures HasTool(m', more[i]) {
      FirstStaysSaid(m, m', calls, tc, i);
    }
  }

  lemma FirstStaysSaid(m: Machine, m': Machine, calls: seq<ToolDelta>, tc: ToolDelta, i: nat)
    requires ToolsSaid(m, calls) && KeepsTools(m, m') && (IndexOf(tc) !in m.toolOrder ==> HasTool(m', tc))
    requires FirstCall(calls + [tc], i)
    ensures HasTool(m', (calls + [tc])[i])
  {
    if i < |calls| {
      EarlierFirst(calls, tc, i);
      assert HasTool(m, calls[i]) && SameTool(m, m', IndexOf(calls[i]));
    } else {
      NewIndex(calls, tc);
    }
  }

  lemma OneMoreIndex(calls: seq<ToolDelta>, tc: ToolDelta)
    ensures var t, before := IndexOf(tc), Unique(Indices(calls));
            Unique(Indices(calls + [tc])) == if t in before then before else before + [t]
  {
    var all := Indices(calls + [tc]);
    assert all[..|calls|] == Indices(calls) && all[..|calls| + 1] == all;
    UniqueStep(all, |calls|);
  }

  lemma EarlierFirst(calls: seq<ToolDelta>, tc: ToolDelta, i: nat)
    requires FirstCall(calls + [tc], i) && i < |calls|
    ensures FirstCall(calls, i) && (calls + [tc])[i] == calls[i]
  {
    assert forall j :: 0 <= j < |calls| ==> (calls + [tc])[j] == calls[j];
  }

  lemma NewIndex(calls: seq<ToolDelta>, tc: ToolDelta)
    requires FirstCall(calls + [tc], |calls|)
    ensures IndexOf(tc) !in Unique(Indices(calls)) && (calls + [tc])[|calls|] == tc
  {
    var all := Indices(calls);
    forall j | 0 <= j < |all| ensures all[j] != IndexOf(tc) {
      assert (calls + [tc])[j] == calls[j];
    }
  }

  lemma {:induction false} CallsStepSaid(m: Machine, before: seq<ToolDelta>, calls: seq<ToolDelta>, json: ObjectParser)
    requires Inv(m, json) && m.started && ToolsSaid(m, before)
    ensures ToolsSaid(CallsStep(m, calls, json), before + calls)
  {
    if calls == [] {
      assert before + calls == before;
    } else {
      var front, last := calls[..|calls| - 1], calls[|calls| - 1];
      CallsStepSaid(m, before, front, json);
      CallStepSaid(CallsStep(m, front, json), before + front, last, json);
      LastCall(m, before, calls, json);
    }
  }

  lemma LastCall(m: Machine, before: seq<ToolDelta>, calls: seq<ToolDelta>, json: ObjectParser)
    requires Inv(m, json) && m.started && calls != []
    ensures var front, last := calls[..|calls| - 1], calls[|calls| - 1];
            && before + calls == (before + front) + [last]
            && CallsStep(m, calls, json) == CallStep(CallsStep(m, front, json), last, json)
  {
    FrontAndLast(before, calls, calls[..|calls| - 1], calls[|calls| - 1]);
  }

  lemma FrontAndLast<T>(a: seq<T>, b: seq<T>, front: seq<T>, last: T)
    requires b == front + [last]
    ensures a + b == (a + front) + [last]
  {
  }

  lemma ChunkStepSaid(m: Machine, c: Chunk, before: seq<ToolDelta>, json: ObjectParser)
    requires Inv(m, json) && ToolsSaid(m, before)
    ensures ToolsSaid(ChunkStep(m, c, json), before + if c.choice.Some? then c.choice.value.toolCalls else [])
  {
    if c.choice.Some? {
      var begun := Begin(m, json);
      SameToolsSaid(m, begun, before);
      TextStepKeepsTools(begun, TextOf(c), json);
      var texted := TextStep(begun, TextOf(c), json);
      SameToolsSaid(begun, texted, before);
      ThinkingStepKeepsTools(texted, ReasoningOf(c), json);
      var thought := ThinkingStep(texted, ReasoningOf(c), json);
      SameToolsSaid(texted, thought, before);
      CallsStepSaid(thought, before, c.choice.value.toolCalls, json);
    } else {
      assert before + [] == before;
    }
  }

  /** After any chunks: tool calls in first-seen order, each with the id and name of its first delta. */
  lemma {:induction false} ToolsAreAsSaid(chunks: seq<Chunk>, json: ObjectParser)
    ensures ToolsSaid(History(chunks, json), AllCalls(chunks))
  {
    if chunks == [] {
      assert Indices([]) == [];
    } else {
      var front, last := chunks[..|chunks| - 1], chunks[|chunks| - 1];
      ToolsAreAsSaid(front, json);
      ChunkStepSaid(History(front, json), last, AllCalls(front), json);
    }
  }

  // ---------------------------------------------------------------- blocks

  /** The block of the tool call that delta `i` is the first of. */
  function ToolSaid(chunks: seq<Chunk>, i: nat, json: ObjectParser): Block
    requires i < |AllCalls(chunks)|
  {
    var tc := AllCalls(chunks)[i];
    ToolCall(OrEmpty(tc.id), OrEmpty(tc.name), ParsePartialJson(ArgsOf(chunks, IndexOf(tc)), json))
  }

  ghost predicate IsToolSaid(block: Block, chunks: seq<Chunk>, i: nat, json: ObjectParser) {
    FirstCall(AllCalls(chunks), i) && block == ToolSaid(chunks, i, json)
  }

  /** The block is one the chunks spoke of, and says all they said of it. */
  ghost predicate Said(block: Block, chunks: seq<Chunk>, json: ObjectParser) {
    match block
    case TextBlock(text) => text == StoredText(chunks)
    case ThinkingBlock(thinking) => thinking == ThinkingOf(chunks)
    case ToolCall(_, _, _) => exists i: nat :: IsToolSaid(block, chunks, i, json)
  }

  lemma FirstOfTool(calls: seq<ToolDelta>, t: int) returns (i: nat)
    requires t in Unique(Indices(calls))
    ensures FirstCall(calls, i) && IndexOf(calls[i]) == t
  {
    var all := Indices(calls);
    i := FirstIndex(all, t);
    forall j | 0 <= j < i ensures IndexOf(calls[j]) != IndexOf(calls[i]) {
      assert all[..i][j] == all[j];
    }
  }

  /** Every block there is was spoken of ... */
  lemma EveryBlockWasSaid(chunks: seq<Chunk>, json: ObjectParser, k: nat)
    requires k < |History(chunks, json).content|
    ensures Said(History(chunks, json).content[k], chunks, json)
  {
    var m := History(chunks, json);
    HistoryIsCaught(chunks, json);
    ToolsAreAsSaid(chunks, json);
    DeltasRebuildBlocks(chunks, json);
    assert SlotOk(m, k, json) && Rebuilt(m, k, chunks, json);
    if m.slots[k].ToolSlot? {
      var t := m.slots[k].tool;
      assert t in m.toolOrder;
      var i := FirstOfTool(AllCalls(chunks), t);
      assert HasTool(m, AllCalls(chunks)[i]);
      assert IsToolSaid(m.content[k], chunks, i, json);
    }
  }

  /** ... and every tool call spoken of has its block. */
  lemma EveryToolHasItsBlock(chunks: seq<Chunk>, json: ObjectParser, i: nat) returns (k: nat)
    requires FirstCall(AllCalls(chunks), i)
    ensures var content := History(chunks, json).content; k < |content| && content[k] == ToolSaid(chunks, i, json)
  {
    var m, calls := History(chunks, json), AllCalls(chunks);
    var t := IndexOf(calls[i]);
    HistoryIsCaught(chunks, json);
    ToolsAreAsSaid(chunks, json);
    assert Indices(calls)[i] in Indices(calls);
    assert t in m.toolOrder && HasTool(m, calls[i]);
    k := m.toolIndices[t];
    assert SlotOk(m, k, json);
    assert Args(m, t) == ArgsOf(chunks, t);
  }

  /** So has the text, if there is any, and the thinking. */
  lemma TextsHaveTheirBlocks(chunks: seq<Chunk>, json: ObjectParser)
    ensures var content := History(chunks, json).content;
            && (StoredText(chunks) != "" ==> TextBlock(StoredText(chunks)) in content)
            && (ThinkingOf(chunks) != "" ==> ThinkingBlock(ThinkingOf(chunks)) in content)
  {
    var m := History(chunks, json);
    HistoryIsCaught(chunks, json);
    if StoredText(chunks) != "" {
      assert SlotOk(m, m.textIndex, json) && m.content[m.textIndex] in m.content;
    }
    if ThinkingOf(chunks) != "" {
      assert SlotOk(m, m.thinkingIndex, json) && m.content[m.thinkingIndex] in m.content;
    }
  }
}
