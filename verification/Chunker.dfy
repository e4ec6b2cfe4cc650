/** The document chunker: trim and filter the parse nodes, merge neighbouring text nodes, split
    text into sentences and over-long sentences into token prefixes, and pack the pieces. */
module Chunker {
  import opened Basics
  import opened Trimming

  /** How many tokens a text has; any function will do unless a lemma says otherwise. */
  type TokenCounter = string -> nat

  /** A counter as it is called: it may fail. */
  type TryCounter = string -> Option<nat>

  /** Wherever the one does not fail it is the other. */
  ghost predicate Agrees(tryCount: TryCounter, count: TokenCounter) {
    forall s :: tryCount(s).Some? ==> tryCount(s).value == count(s)
  }

  ghost predicate Fails(tryCount: TryCounter) {
    exists s :: tryCount(s).None?
  }

  datatype NodeType = Text | Code | Table

  datatype ParseTopology = List

  datatype ParseNode = ParseNode(
    index: nat, content: string, nodeType: NodeType, isNeedSpace: bool, isNeedNewline: bool)

  datatype ParseResult = ParseResult(topology: ParseTopology, nodes: seq<ParseNode>)

  datatype ChunkNode = ChunkNode(
    content: string, nodeType: NodeType, isNeedSpace: bool, isNeedNewline: bool, sources: seq<nat>)

  datatype ChunkPart = ChunkPart(
    content: string, chunkType: NodeType, topology: ParseTopology, tokenCount: nat, sources: seq<nat>)

  /** Unicode White_Space. */
  predicate IsWhitespace(c: char) {
    || '\t' <= c <= '\r' || c == ' ' || c == '\U{85}' || c == '\U{A0}' || c == '\U{1680}'
    || '\U{2000}' <= c <= '\U{200A}' || c == '\U{2028}' || c == '\U{2029}' || c == '\U{202F}'
    || c == '\U{205F}' || c == '\U{3000}'
  }

  function Strip(s: string): string {
    Trim(s, IsWhitespace)
  }

  // ---------------------------------------------------------------- stage 1: trim and filter

  function FromParseNode(node: ParseNode): ChunkNode {
    ChunkNode(node.content, node.nodeType, node.isNeedSpace, node.isNeedNewline, [node.index])
  }

  function ProcessParseNodes(nodes: seq<ParseNode>): seq<ChunkNode> {
    if nodes == [] then []
    else
      var node := nodes[|nodes| - 1];
      ProcessParseNodes(nodes[..|nodes| - 1])
      + if Strip(node.content) == [] then [] else [FromParseNode(node).(content := Strip(node.content))]
  }

  // ---------------------------------------------------------------- stage 2: merge

  function JoinWithNodeSpacing(left: string, right: ChunkNode): string {
    if right.isNeedNewline then TrimEnd(left, IsWhitespace) + "\n" + TrimStart(right.content, IsWhitespace)
    else if right.isNeedSpace then TrimEnd(left, IsWhitespace) + " " + TrimStart(right.content, IsWhitespace)
    else left + right.content
  }

  /** `target` followed by the values it lacks. */
  function ExtendUnique(target: seq<nat>, values: seq<nat>): seq<nat> {
    if values == [] then target
    else
      var t := ExtendUnique(target, values[..|values| - 1]);
      if values[|values| - 1] in t then t else t + [values[|values| - 1]]
  }

  /** The merged list after one more node. */
  function MergeNode(merged: seq<ChunkNode>, node: ChunkNode, maxTokens: nat, count: TokenCounter): seq<ChunkNode> {
    if !node.nodeType.Text? || merged == [] || !merged[|merged| - 1].nodeType.Text? then merged + [node]
    else
      var last := merged[|merged| - 1];
      var candidate := JoinWithNodeSpacing(last.content, node);
      if count(candidate) <= maxTokens then
        merged[..|merged| - 1] + [last.(content := candidate, sources := ExtendUnique(last.sources, node.sources))]
      else merged + [node]
  }

  function Merge(nodes: seq<ChunkNode>, maxTokens: nat, count: TokenCounter): seq<ChunkNode> {
    if nodes == [] then []
    else MergeNode(Merge(nodes[..|nodes| - 1], maxTokens, count), nodes[|nodes| - 1], maxTokens, count)
  }

  // ---------------------------------------------------------------- sentences

  const PROTECTED: seq<string> := [
    "e.g.", "i.e.", "U.S.", "U.K.", "A.M.", "P.M.", "a.m.", "p.m.", "Inc.", "Ltd.", "No.",
    "vs.", "approx.", "Dr.", "Mr.", "Ms.", "Prof."]

  predicate EndsWith(s: string, suffix: string) {
    |suffix| <= |s| && s[|s| - |suffix|..] == suffix
  }

  predicate EndsWithProtectedPeriod(chars: string, index: nat)
    requires index < |chars|
  {
    var start := if index > 12 then index - 12 else 0;
    exists i :: 0 <= i < |PROTECTED| && EndsWith(chars[start..index + 1], PROTECTED[i])
  }

  predicate IsHardBoundary(c: char) {
    c == '\U{3002}' || c == '\U{FF01}' || c == '\U{FF1F}' || c == '!' || c == '?' || c == '\U{FF1B}' || c == ';'
  }

  predicate IsSentenceBoundaryChar(c: char) {
    IsHardBoundary(c) || c == '.'
  }

  predicate IsSentenceBoundary(chars: string, index: nat)
    requires index < |chars|
  {
    || IsHardBoundary(chars[index])
    || (chars[index] == '.'
        && (index + 1 == |chars| || IsWhitespace(chars[index + 1]))
        && !EndsWithProtectedPeriod(chars, index))
  }

  function AddNonEmpty(parts: seq<string>, s: string): seq<string> {
    if s == [] then parts else parts + [s]
  }

  /** The sentences closed within the first `n` characters, and where the open one starts. */
  function Scan(chars: string, n: nat): (r: (seq<string>, nat))
    requires n <= |chars|
    ensures r.1 <= n
  {
    if n == 0 then ([], 0)
    else
      var (sentences, start) := Scan(chars, n - 1);
      if IsSentenceBoundary(chars, n - 1) then (AddNonEmpty(sentences, Strip(chars[start..n])), n)
      else (sentences, start)
  }

  function Sentences(text: string): seq<string> {
    var (sentences, start) := Scan(text, |text|);
    if start < |text| then AddNonEmpty(sentences, Strip(text[start..])) else sentences
  }

  // ---------------------------------------------------------------- token prefixes

  /** Halving `left..right`, where `right` is known not to fit: the last position known to fit. */
  function Cut(content: string, left: nat, right: nat, maxTokens: nat, count: TokenCounter): (cut: nat)
    requires left < right <= Max(|content|, 1)
    ensures left <= cut < right
    decreases right - left
  {
    if left + 1 < right then
      var mid := (left + right) / 2;
      if count(content[..mid]) <= maxTokens then Cut(content, mid, right, maxTokens, count)
      else Cut(content, left, mid, maxTokens, count)
    else left
  }

  function TokenPrefix(content: string, maxTokens: nat, count: TokenCounter): string {
    if count(content) <= maxTokens then Strip(content)
    else
      var cut := Cut(content, 0, Max(|content|, 1), maxTokens, count);
      var prefix := Strip(content[..cut]);
      if prefix != [] then prefix
      else if content == [] then [] else content[..1]
  }

  lemma TokenPrefixLength(content: string, maxTokens: nat, count: TokenCounter)
    ensures |TokenPrefix(content, maxTokens, count)| <= |content|
  {
    TrimMeaning(content, IsWhitespace);
    if count(content) > maxTokens {
      TrimMeaning(content[..Cut(content, 0, Max(|content|, 1), maxTokens, count)], IsWhitespace);
    }
  }

  /** The prefixes an over-long sentence is cut into. */
  function Prefixes(rest: string, maxTokens: nat, count: TokenCounter): seq<string>
    decreases |rest|
  {
    if Strip(rest) == [] then []
    else
      var prefix := TokenPrefix(rest, maxTokens, count);
      if prefix == [] then []
      else
        TokenPrefixLength(rest, maxTokens, count);
        TrimStartMeaning(rest[|prefix|..], IsWhitespace);
        [prefix] + Prefixes(TrimStart(rest[|prefix|..], IsWhitespace), maxTokens, count)
  }

  function Budgeted(sentence: string, maxTokens: nat, count: TokenCounter): seq<string> {
    if count(sentence) <= maxTokens then [sentence] else Prefixes(sentence, maxTokens, count)
  }

  function BudgetedAll(sentences: seq<string>, maxTokens: nat, count: TokenCounter): seq<string> {
    if sentences == [] then []
    else BudgetedAll(sentences[..|sentences| - 1], maxTokens, count)
         + Budgeted(sentences[|sentences| - 1], maxTokens, count)
  }

  /** The pieces one text node is packed from. */
  function BudgetedSentences(text: string, maxTokens: nat, count: TokenCounter): seq<string> {
    BudgetedAll(if Sentences(text) == [] then [Strip(text)] else Sentences(text), maxTokens, count)
  }

  // ---------------------------------------------------------------- stage 3: pack

  function TextNode(content: string, sources: seq<nat>): ChunkNode {
    ChunkNode(content, Text, false, true, sources)
  }

  function JoinBudgeted(left: string, right: string): string {
    var l, r := TrimEnd(left, IsWhitespace), TrimStart(right, IsWhitespace);
    if l == [] then r
    else if r == [] then l
    else if IsSentenceBoundaryChar(l[|l| - 1]) then l + r
    else l + "\n" + r
  }

  datatype Packing = Packing(chunks: seq<ChunkNode>, pending: Option<ChunkNode>)

  function Flush(p: Packing): Packing {
    if p.pending.None? then p
    else
      var node := p.pending.value.(content := Strip(p.pending.value.content));
      Packing(if node.content == [] then p.chunks else p.chunks + [node], None)
  }

  function PackPiece(p: Packing, piece: ChunkNode, maxTokens: nat, count: TokenCounter): Packing {
    if p.pending.None? then p.(pending := Some(piece))
    else
      var candidate := JoinBudgeted(p.pending.value.content, piece.content);
      if count(candidate) > maxTokens then Flush(p).(pending := Some(piece))
      else p.(pending := Some(p.pending.value.(
                content := candidate, sources := ExtendUnique(p.pending.value.sources, piece.sources))))
  }

  function PackPieces(p: Packing, pieces: seq<string>, sources: seq<nat>, maxTokens: nat,
                      count: TokenCounter): Packing {
    if pieces == [] then p
    else PackPiece(PackPieces(p, pieces[..|pieces| - 1], sources, maxTokens, count),
                   TextNode(pieces[|pieces| - 1], sources), maxTokens, count)
  }

  function PackNode(p: Packing, node: ChunkNode, maxTokens: nat, count: TokenCounter): Packing {
    if !node.nodeType.Text? then Flush(p).(chunks := Flush(p).chunks + [node])
    else PackPieces(p, BudgetedSentences(node.content, maxTokens, count), node.sources, maxTokens, count)
  }

  function PackNodes(nodes: seq<ChunkNode>, maxTokens: nat, count: TokenCounter): Packing {
    if nodes == [] then Packing([], None)
    else PackNode(PackNodes(nodes[..|nodes| - 1], maxTokens, count), nodes[|nodes| - 1], maxTokens, count)
  }

  function Split(nodes: seq<ChunkNode>, maxTokens: nat, count: TokenCounter): seq<ChunkNode> {
    Flush(PackNodes(nodes, maxTokens, count)).chunks
  }

  // ---------------------------------------------------------------- the whole pipeline

  function ToParts(nodes: seq<ChunkNode>, count: TokenCounter): seq<ChunkPart> {
    if nodes == [] then []
    else
      var node := nodes[|nodes| - 1];
      var content := Strip(node.content);
      ToParts(nodes[..|nodes| - 1], count)
      + if content == [] then [] else [ChunkPart(content, node.nodeType, List, count(content), node.sources)]
  }

  function ChunkNodes(nodes: seq<ParseNode>, maxTokens: nat, count: TokenCounter): seq<ChunkNode> {
    Split(Merge(ProcessParseNodes(nodes), Max(maxTokens, 1), count), Max(maxTokens, 1), count)
  }

  function Chunks(nodes: seq<ParseNode>, maxTokens: nat, count: TokenCounter): seq<ChunkPart> {
    ToParts(ChunkNodes(nodes, maxTokens, count), count)
  }

  // ---------------------------------------------------------------- the loops

  lemma MergeNext(nodes: seq<ChunkNode>, i: nat, maxTokens: nat, count: TokenCounter)
    requires i < |nodes|
    ensures Merge(nodes[..i + 1], maxTokens, count)
            == MergeNode(Merge(nodes[..i], maxTokens, count), nodes[i], maxTokens, count)
  {
    assert nodes[..i + 1][..i] == nodes[..i];
  }

  /** One node: appended, or merged into the last one. */
  method MergeOne(merged: seq<ChunkNode>, node: ChunkNode, maxTokens: nat, tryCount: TryCounter,
                  ghost count: TokenCounter)
    returns (out: Option<seq<ChunkNode>>)
    requires Agrees(tryCount, count)
    ensures if out.Some? then out.value == MergeNode(merged, node, maxTokens, count) else Fails(tryCount)
  {
    if !node.nodeType.Text? || |merged| == 0 || !merged[|merged| - 1].nodeType.Text? {
      return Some(merged + [node]);
    }
    var last := merged[|merged| - 1];
    var candidate := JoinWithNodeSpacing(last.content, node);
    var n :- tryCount(candidate);
    if n > maxTokens {
      return Some(merged + [node]);
    }
    var sources := ExtendUniqueInPlace(last.sources, node.sources);
    out := Some(merged[|merged| - 1 := last.(content := candidate, sources := sources)]);
  }

  /** Here and below `count` is any counter that `tryCount` agrees with: the result depends on nothing
      that `tryCount` did not answer. */
  method MergeAdjacentTextNodes(nodes: seq<ChunkNode>, maxTokens: nat, tryCount: TryCounter, ghost count: TokenCounter)
    returns (out: Option<seq<ChunkNode>>)
    requires Agrees(tryCount, count)
    ensures if out.Some? then out.value == Merge(nodes, maxTokens, count) else Fails(tryCount)
  {
    var merged := [];
    for i := 0 to |nodes|
      invariant merged == Merge(nodes[..i], maxTokens, count)
    {
      MergeNext(nodes, i, maxTokens, count);
      merged :- MergeOne(merged, nodes[i], maxTokens, tryCount, count);
    }
    assert nodes[..|nodes|] == nodes;
    out := Some(merged);
  }

  method ExtendUniqueInPlace(target: seq<nat>, values: seq<nat>) returns (out: seq<nat>)
    ensures out == ExtendUnique(target, values)
  {
    out := target;
    for i := 0 to |values|
      invariant out == ExtendUnique(target, values[..i])
    {
      assert values[..i + 1][..i] == values[..i];
      if values[i] !in out {
        out := out + [values[i]];
      }
    }
    assert values[..|values|] == values;
  }

  method SplitSentences(text: string) returns (sentences: seq<string>)
    ensures sentences == Sentences(text)
  {
    sentences := [];
    var start := 0;
    for index := 0 to |text|
      invariant start <= index && (sentences, start) == Scan(text, index)
    {
      if IsSentenceBoundary(text, index) {
        var sentence := Strip(text[start..index + 1]);
        if sentence != [] {
          sentences := sentences + [sentence];
        }
        start := index + 1;
      }
    }
    if start < |text| {
      var sentence := Strip(text[start..]);
      if sentence != [] {
        sentences := sentences + [sentence];
      }
    }
  }

  method TakeTokenPrefix(content: string, maxTokens: nat, tryCount: TryCounter, ghost count: TokenCounter)
    returns (out: Option<string>)
    requires Agrees(tryCount, count)
    ensures if out.Some? then out.value == TokenPrefix(content, maxTokens, count) else Fails(tryCount)
  {
    var n :- tryCount(content);
    if n <= maxTokens {
      return Some(Strip(content));
    }
    var left, right := 0, Max(|content|, 1);
    while left + 1 < right
      invariant left < right <= Max(|content|, 1)
      invariant Cut(content, left, right, maxTokens, count) == Cut(content, 0, Max(|content|, 1), maxTokens, count)
    {
      var mid := (left + right) / 2;
      var m :- tryCount(content[..mid]);
      if m <= maxTokens {
        left := mid;
      } else {
        right := mid;
      }
    }
    var prefix := Strip(content[..left]);
    if prefix == [] && content != [] {
      prefix := content[..1];
    }
    out := Some(prefix);
  }

  lemma BudgetedNext(sentences: seq<string>, i: nat, maxTokens: nat, count: TokenCounter)
    requires i < |sentences|
    ensures BudgetedAll(sentences[..i + 1], maxTokens, count)
            == BudgetedAll(sentences[..i], maxTokens, count) + Budgeted(sentences[i], maxTokens, count)
  {
    assert sentences[..i + 1][..i] == sentences[..i];
  }

  /** What is left once a prefix is cut off. */
  function RestAfter(rest: string, n: nat): string
    requires n <= |rest|
  {
    TrimStart(rest[n..], IsWhitespace)
  }

  lemma OnePrefix(rest: string, prefix: string, maxTokens: nat, count: TokenCounter)
    requires prefix == TokenPrefix(rest, maxTokens, count)
    ensures |prefix| <= |rest|
    ensures prefix != [] ==> |RestAfter(rest, |prefix|)| < |rest|
    ensures Strip(rest) != [] && prefix != [] ==>
              Prefixes(rest, maxTokens, count) == [prefix] + Prefixes(RestAfter(rest, |prefix|), maxTokens, count)
    ensures Strip(rest) == [] || prefix == [] ==> Prefixes(rest, maxTokens, count) == []
  {
    TokenPrefixLength(rest, maxTokens, count);
    TrimStartMeaning(rest[|prefix|..], IsWhitespace);
  }

  lemma CutOne(before: seq<string>, prefix: string, after: seq<string>)
    ensures before + ([prefix] + after) == (before + [prefix]) + after
  {
  }

  /** The inner loop: cut token prefixes off an over-long sentence. */
  method CutIntoPrefixes(sentence: string, before: seq<string>, maxTokens: nat, tryCount: TryCounter,
                         ghost count: TokenCounter)
    returns (out: Option<seq<string>>)
    requires Agrees(tryCount, count)
    ensures if out.Some? then out.value == before + Prefixes(sentence, maxTokens, count) else Fails(tryCount)
  {
    var budgeted, rest := before, sentence;
    while Strip(rest) != []
      invariant budgeted + Prefixes(rest, maxTokens, count) == before + Prefixes(sentence, maxTokens, count)
      decreases |rest|
    {
      var prefix :- TakeTokenPrefix(rest, maxTokens, tryCount, count);
      OnePrefix(rest, prefix, maxTokens, count);
      if prefix == [] {
        break;
      }
      CutOne(budgeted, prefix, Prefixes(RestAfter(rest, |prefix|), maxTokens, count));
      budgeted := budgeted + [prefix];
      rest := RestAfter(rest, |prefix|);
    }
    OnePrefix(rest, TokenPrefix(rest, maxTokens, count), maxTokens, count);
    out := Some(budgeted);
  }

  method SplitNodeIntoBudgetedSentences(text: string, maxTokens: nat, tryCount: TryCounter, ghost count: TokenCounter)
    returns (out: Option<seq<string>>)
    requires Agrees(tryCount, count)
    ensures if out.Some? then out.value == BudgetedSentences(text, maxTokens, count) else Fails(tryCount)
  {
    var sentences := SplitSentences(text);
    if sentences == [] {
      sentences := [Strip(text)];
    }
    var budgeted := [];
    for i := 0 to |sentences|
      invariant budgeted == BudgetedAll(sentences[..i], maxTokens, count)
    {
      BudgetedNext(sentences, i, maxTokens, count);
      var n :- tryCount(sentences[i]);
      if n <= maxTokens {
        budgeted := budgeted + [sentences[i]];
      } else {
        budgeted :- CutIntoPrefixes(sentences[i], budgeted, maxTokens, tryCount, count);
      }
    }
    assert sentences[..|sentences|] == sentences;
    out := Some(budgeted);
  }

  lemma PackNext(nodes: seq<ChunkNode>, i: nat, maxTokens: nat, count: TokenCounter)
    requires i < |nodes|
    ensures PackNodes(nodes[..i + 1], maxTokens, count)
            == PackNode(PackNodes(nodes[..i], maxTokens, count), nodes[i], maxTokens, count)
  {
    assert nodes[..i + 1][..i] == nodes[..i];
  }

  lemma PackPieceNext(p: Packing, pieces: seq<string>, j: nat, sources: seq<nat>, maxTokens: nat, count: TokenCounter)
    requires j < |pieces|
    ensures PackPieces(p, pieces[..j + 1], sources, maxTokens, count)
            == PackPiece(PackPieces(p, pieces[..j], sources, maxTokens, count), TextNode(pieces[j], sources), maxTokens,
                         count)
  {
    assert pieces[..j + 1][..j] == pieces[..j];
  }

  /** The inner loop: the pieces of one text node join the pending chunk or flush it. */
  method PackSentences(before: Packing, sentences: seq<string>, sources: seq<nat>, maxTokens: nat,
                       tryCount: TryCounter, ghost count: TokenCounter)
    returns (out: Option<Packing>)
    requires Agrees(tryCount, count)
    ensures if out.Some? then out.value == PackPieces(before, sentences, sources, maxTokens, count)
            else Fails(tryCount)
  {
    var p := before;
    for j := 0 to |sentences|
      invariant p == PackPieces(before, sentences[..j], sources, maxTokens, count)
    {
      PackPieceNext(before, sentences, j, sources, maxTokens, count);
      var piece := TextNode(sentences[j], sources);
      if p.pending.None? {
        p := p.(pending := Some(piece));
      } else {
        var pending := p.pending.value;
        var candidate := JoinBudgeted(pending.content, piece.content);
        var n :- tryCount(candidate);
        if n > maxTokens {
          p := Flush(p);
          p := p.(pending := Some(piece));
        } else {
          var joined := ExtendUniqueInPlace(pending.sources, piece.sources);
          p := p.(pending := Some(pending.(content := candidate, sources := joined)));
        }
      }
    }
    assert sentences[..|sentences|] == sentences;
    out := Some(p);
  }

  method SplitTextNodes(nodes: seq<ChunkNode>, maxTokens: nat, tryCount: TryCounter, ghost count: TokenCounter)
    returns (out: Option<seq<ChunkNode>>)
    requires Agrees(tryCount, count)
    ensures if out.Some? then out.value == Split(nodes, maxTokens, count) else Fails(tryCount)
  {
    var p := Packing([], None);
    for i := 0 to |nodes|
      invariant p == PackNodes(nodes[..i], maxTokens, count)
    {
      PackNext(nodes, i, maxTokens, count);
      var node := nodes[i];
      if !node.nodeType.Text? {
        p := Flush(p);
        p := p.(chunks := p.chunks + [node]);
      } else {
        var sentences :- SplitNodeIntoBudgetedSentences(node.content, maxTokens, tryCount, count);
        p :- PackSentences(p, sentences, node.sources, maxTokens, tryCount, count);
      }
    }
    assert nodes[..|nodes|] == nodes;
    out := Some(Flush(p).chunks);
  }

  predicate Reports(part: ChunkPart, topology: ParseTopology, tryCount: TryCounter) {
    part.topology == topology && tryCount(part.content) == Some(part.tokenCount)
  }

  lemma ToPartsNext(nodes: seq<ChunkNode>, i: nat, count: TokenCounter)
    requires i < |nodes|
    ensures var content := Strip(nodes[i].content);
            ToParts(nodes[..i + 1], count) == ToParts(nodes[..i], count)
              + if content == [] then []
                else [ChunkPart(content, nodes[i].nodeType, List, count(content), nodes[i].sources)]
  {
    assert nodes[..i + 1][..i] == nodes[..i];
  }

  /** Either some count failed, or the parts are those of every counter that agrees with what was
      counted; and each part reports what was counted for it. */
  method ChunkParseResult(parsed: ParseResult, maxTokens: nat, tryCount: TryCounter, ghost count: TokenCounter)
    returns (out: Option<seq<ChunkPart>>)
    requires Agrees(tryCount, count)
    ensures if out.Some? then out.value == Chunks(parsed.nodes, maxTokens, count) else Fails(tryCount)
    ensures out.Some? ==> forall part :: part in out.value ==> Reports(part, parsed.topology, tryCount)
  {
    var budget := Max(maxTokens, 1);
    var merged :- MergeAdjacentTextNodes(ProcessParseNodes(parsed.nodes), budget, tryCount, count);
    var chunks :- SplitTextNodes(merged, budget, tryCount, count);
    var parts := [];
    for i := 0 to |chunks|
      invariant parts == ToParts(chunks[..i], count)
      invariant forall part :: part in parts ==> Reports(part, parsed.topology, tryCount)
    {
      ToPartsNext(chunks, i, count);
      var content := Strip(chunks[i].content);
      if content != [] {
        var n :- tryCount(content);
        var part := ChunkPart(content, chunks[i].nodeType, parsed.topology, n, chunks[i].sources);
        assert Reports(part, parsed.topology, tryCount);
        parts := parts + [part];
      }
    }
    assert chunks[..|chunks|] == chunks;
    out := Some(parts);
  }
}
