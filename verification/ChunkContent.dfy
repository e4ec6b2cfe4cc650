/** Chunking loses and reorders nothing: without whitespace, the text of the chunks is the text of
    the nodes. */
module ChunkContent {
  import opened Basics
  import opened Trimming
  import opened Chunker

  function Inked(s: string): string {
    Ink(s, IsWhitespace)
  }

  /** The strings one after the other, without whitespace. */
  function InkOf(strings: seq<string>): string {
    if strings == [] then []
    else InkOf(strings[..|strings| - 1]) + Inked(strings[|strings| - 1])
  }

  function InkOfNodes(nodes: seq<ChunkNode>): string {
    if nodes == [] then []
    else InkOfNodes(nodes[..|nodes| - 1]) + Inked(nodes[|nodes| - 1].content)
  }

  function NodeTexts(nodes: seq<ParseNode>): seq<string> {
    if nodes == [] then [] else NodeTexts(nodes[..|nodes| - 1]) + [nodes[|nodes| - 1].content]
  }

  function PartTexts(parts: seq<ChunkPart>): seq<string> {
    if parts == [] then [] else PartTexts(parts[..|parts| - 1]) + [parts[|parts| - 1].content]
  }

  lemma {:induction false} InkOfAppend(a: seq<string>, b: seq<string>)
    ensures InkOf(a + b) == InkOf(a) + InkOf(b)
  {
    if b == [] {
      assert a + b == a;
    } else {
      assert (a + b)[..|a + b| - 1] == a + b[..|b| - 1];
      InkOfAppend(a, b[..|b| - 1]);
    }
  }

  lemma InkOfOne(s: string)
    ensures InkOf([s]) == Inked(s)
  {
    assert [s][..0] == [];
  }

  lemma InkOfAdd(parts: seq<string>, s: string)
    ensures InkOf(AddNonEmpty(parts, s)) == InkOf(parts) + Inked(s)
  {
    assert s != [] ==> (parts + [s])[..|parts|] == parts;
  }

  lemma InkOfNodesAdd(nodes: seq<ChunkNode>, node: ChunkNode)
    ensures InkOfNodes(nodes + [node]) == InkOfNodes(nodes) + Inked(node.content)
  {
    assert (nodes + [node])[..|nodes|] == nodes;
  }

  // ---------------------------------------------------------------- stages 1 and 2

  lemma {:induction false} ProcessKeepsInk(nodes: seq<ParseNode>)
    ensures InkOfNodes(ProcessParseNodes(nodes)) == InkOf(NodeTexts(nodes))
  {
    if nodes != [] {
      var front, node := nodes[..|nodes| - 1], nodes[|nodes| - 1];
      ProcessKeepsInk(front);
      TrimMeaning(node.content, IsWhitespace);
      InkOfNodesAdd(ProcessParseNodes(front), FromParseNode(node).(content := Strip(node.content)));
      assert Strip(node.content) == [] ==> ProcessParseNodes(nodes) == ProcessParseNodes(front);
    }
  }

  lemma JoinWithNodeSpacingKeepsInk(left: string, right: ChunkNode)
    ensures Inked(JoinWithNodeSpacing(left, right)) == Inked(left) + Inked(right.content)
  {
    var l, r := TrimEnd(left, IsWhitespace), TrimStart(right.content, IsWhitespace);
    TrimEndMeaning(left, IsWhitespace);
    TrimStartMeaning(right.content, IsWhitespace);
    InkOfConcat(left, right.content, IsWhitespace);
    SpacedInk(l, "\n", r);
    SpacedInk(l, " ", r);
  }

  lemma SpacedInk(l: string, space: string, r: string)
    requires |space| == 1 && IsWhitespace(space[0])
    ensures Inked(l + space + r) == Inked(l) + Inked(r)
  {
    assert space[..0] == [];
    InkOfConcat(l + space, r, IsWhitespace);
    InkOfConcat(l, space, IsWhitespace);
  }

  lemma {:induction false} MergeKeepsInk(nodes: seq<ChunkNode>, maxTokens: nat, count: TokenCounter)
    ensures InkOfNodes(Merge(nodes, maxTokens, count)) == InkOfNodes(nodes)
  {
    if nodes != [] {
      var front, node := nodes[..|nodes| - 1], nodes[|nodes| - 1];
      MergeKeepsInk(front, maxTokens, count);
      var merged := Merge(front, maxTokens, count);
      InkOfNodesAdd(merged, node);
      if merged != [] {
        var last := merged[|merged| - 1];
        var candidate := JoinWithNodeSpacing(last.content, node);
        JoinWithNodeSpacingKeepsInk(last.content, node);
        InkOfNodesAdd(merged[..|merged| - 1],
                      last.(content := candidate, sources := ExtendUnique(last.sources, node.sources)));
      }
    }
  }

  // ---------------------------------------------------------------- sentences and prefixes

  lemma {:induction false} ScanKeepsInk(chars: string, n: nat)
    requires n <= |chars|
    ensures InkOf(Scan(chars, n).0) == Inked(chars[..Scan(chars, n).1])
  {
    if n > 0 {
      ScanKeepsInk(chars, n - 1);
      OneSentenceMore(Scan(chars, n - 1).0, chars, Scan(chars, n - 1).1, n);
    }
  }

  lemma OneSentenceMore(sentences: seq<string>, chars: string, start: nat, n: nat)
    requires start <= n <= |chars| && InkOf(sentences) == Inked(chars[..start])
    ensures InkOf(AddNonEmpty(sentences, Strip(chars[start..n]))) == Inked(chars[..n])
  {
    TrimMeaning(chars[start..n], IsWhitespace);
    InkOfAdd(sentences, Strip(chars[start..n]));
    InkOfSplit(chars[..n], start);
    assert chars[..n][..start] == chars[..start] && chars[..n][start..] == chars[start..n];
  }

  predicate AllTight(strings: seq<string>) {
    forall s :: s in strings ==> s != [] && Tight(s, IsWhitespace)
  }

  lemma {:induction false} ScanIsTight(chars: string, n: nat)
    requires n <= |chars|
    ensures AllTight(Scan(chars, n).0)
  {
    if n > 0 {
      ScanIsTight(chars, n - 1);
      TrimMeaning(chars[Scan(chars, n - 1).1..n], IsWhitespace);
    }
  }

  lemma InkOfSplit(text: string, n: nat)
    requires n <= |text|
    ensures Inked(text) == Inked(text[..n]) + Inked(text[n..])
  {
    InkOfConcat(text[..n], text[n..], IsWhitespace);
    assert text[..n] + text[n..] == text;
  }

  lemma SentencesKeepInk(text: string)
    ensures InkOf(Sentences(text)) == Inked(text) && AllTight(Sentences(text))
  {
    var (sentences, start) := Scan(text, |text|);
    ScanKeepsInk(text, |text|);
    ScanIsTight(text, |text|);
    var tail := text[start..];
    TrimMeaning(tail, IsWhitespace);
    InkOfAdd(sentences, Strip(tail));
    InkOfSplit(text, start);
    assert Sentences(text) == AddNonEmpty(sentences, Strip(tail));
  }

  /** On a tight string the token prefix is a real, non-empty and tight prefix: cutting it off by
      its length, as the source does in bytes, is exact. */
  lemma TokenPrefixIsPrefix(content: string, maxTokens: nat, count: TokenCounter)
    requires content != [] && Tight(content, IsWhitespace)
    ensures var p := TokenPrefix(content, maxTokens, count); p != [] && p <= content && Tight(p, IsWhitespace)
  {
    TrimOfTight(content, IsWhitespace);
    if count(content) > maxTokens {
      var cut := Cut(content, 0, |content|, maxTokens, count);
      assert content[..cut] == [] || content[..cut][0] == content[0];
      TrimOfStartTight(content[..cut], IsWhitespace);
      TrimMeaning(content[..cut], IsWhitespace);
    }
  }

  lemma RestIsTight(content: string, n: nat)
    requires n <= |content| && Tight(content, IsWhitespace)
    ensures Tight(TrimStart(content[n..], IsWhitespace), IsWhitespace)
  {
    var rest := TrimStart(content[n..], IsWhitespace);
    TrimStartMeaning(content[n..], IsWhitespace);
    assert rest != [] ==> rest[|rest| - 1] == content[|content| - 1];
  }

  lemma {:induction false} PrefixesKeepInk(rest: string, maxTokens: nat, count: TokenCounter)
    requires Tight(rest, IsWhitespace)
    ensures InkOf(Prefixes(rest, maxTokens, count)) == Inked(rest)
    ensures AllTight(Prefixes(rest, maxTokens, count))
    decreases |rest|
  {
    TrimOfTight(rest, IsWhitespace);
    if rest != [] {
      var p := TokenPrefix(rest, maxTokens, count);
      TokenPrefixIsPrefix(rest, maxTokens, count);
      var rest' := TrimStart(rest[|p|..], IsWhitespace);
      TrimStartMeaning(rest[|p|..], IsWhitespace);
      RestIsTight(rest, |p|);
      PrefixesKeepInk(rest', maxTokens, count);
      InkOfOne(p);
      InkOfAppend([p], Prefixes(rest', maxTokens, count));
      InkOfConcat(p, rest[|p|..], IsWhitespace);
      assert p + rest[|p|..] == rest;
    }
  }

  lemma {:induction false} BudgetedKeepsInk(sentences: seq<string>, maxTokens: nat, count: TokenCounter)
    requires AllTight(sentences)
    ensures InkOf(BudgetedAll(sentences, maxTokens, count)) == InkOf(sentences)
    ensures AllTight(BudgetedAll(sentences, maxTokens, count))
  {
    if sentences != [] {
      var front, last := sentences[..|sentences| - 1], sentences[|sentences| - 1];
      assert forall s :: s in front ==> s in sentences;
      BudgetedKeepsInk(front, maxTokens, count);
      assert last in sentences;
      OneBudgetedKeepsInk(last, maxTokens, count);
      InkOfAppend(BudgetedAll(front, maxTokens, count), Budgeted(last, maxTokens, count));
    }
  }

  lemma OneBudgetedKeepsInk(sentence: string, maxTokens: nat, count: TokenCounter)
    requires sentence != [] && Tight(sentence, IsWhitespace)
    ensures InkOf(Budgeted(sentence, maxTokens, count)) == Inked(sentence)
    ensures AllTight(Budgeted(sentence, maxTokens, count))
  {
    InkOfOne(sentence);
    PrefixesKeepInk(sentence, maxTokens, count);
    assert AllTight([sentence]);
  }

  /** The pieces of a node that is not blank: all of its text, nothing blank among them. */
  lemma PiecesKeepInk(text: string, maxTokens: nat, count: TokenCounter)
    requires Strip(text) != []
    ensures InkOf(BudgetedSentences(text, maxTokens, count)) == Inked(text)
    ensures AllTight(BudgetedSentences(text, maxTokens, count))
  {
    SentencesKeepInk(text);
    TrimMeaning(text, IsWhitespace);
    InkOfOne(Strip(text));
    assert AllTight([Strip(text)]);
    BudgetedKeepsInk(if Sentences(text) == [] then [Strip(text)] else Sentences(text), maxTokens, count);
  }

  // ---------------------------------------------------------------- stage 3

  function InkOfPacking(p: Packing): string {
    InkOfNodes(p.chunks) + if p.pending.None? then [] else Inked(p.pending.value.content)
  }

  lemma JoinBudgetedKeepsInk(left: string, right: string)
    ensures Inked(JoinBudgeted(left, right)) == Inked(left) + Inked(right)
  {
    var l, r := TrimEnd(left, IsWhitespace), TrimStart(right, IsWhitespace);
    TrimEndMeaning(left, IsWhitespace);
    TrimStartMeaning(right, IsWhitespace);
    InkOfConcat(l, r, IsWhitespace);
    SpacedInk(l, "\n", r);
  }

  lemma FlushKeepsInk(p: Packing)
    ensures InkOfPacking(Flush(p)) == InkOfPacking(p)
  {
    if p.pending.Some? {
      var node := p.pending.value.(content := Strip(p.pending.value.content));
      TrimMeaning(p.pending.value.content, IsWhitespace);
      InkOfNodesAdd(p.chunks, node);
    }
  }

  lemma Regroup(a: string, b: string, c: string)
    ensures a + (b + c) == (a + b) + c
  {
  }

  lemma PackPieceKeepsInk(p: Packing, piece: ChunkNode, maxTokens: nat, count: TokenCounter)
    ensures InkOfPacking(PackPiece(p, piece, maxTokens, count)) == InkOfPacking(p) + Inked(piece.content)
  {
    FlushKeepsInk(p);
    if p.pending.Some? {
      var a, b := p.pending.value.content, piece.content;
      JoinBudgetedKeepsInk(a, b);
      if count(JoinBudgeted(a, b)) > maxTokens {
        assert PackPiece(p, piece, maxTokens, count) == Flush(p).(pending := Some(piece));
      } else {
        Regroup(InkOfNodes(p.chunks), Inked(a), Inked(b));
      }
    }
  }

  lemma {:induction false} PackPiecesKeepsInk(p: Packing, pieces: seq<string>, sources: seq<nat>, maxTokens: nat,
                                              count: TokenCounter)
    ensures InkOfPacking(PackPieces(p, pieces, sources, maxTokens, count)) == InkOfPacking(p) + InkOf(pieces)
  {
    if pieces != [] {
      var front, last := pieces[..|pieces| - 1], pieces[|pieces| - 1];
      PackPiecesKeepsInk(p, front, sources, maxTokens, count);
      PackPieceKeepsInk(PackPieces(p, front, sources, maxTokens, count), TextNode(last, sources), maxTokens, count);
    }
  }

  /** No node of the list is blank. */
  predicate NoneBlank(nodes: seq<ChunkNode>) {
    forall n :: n in nodes ==> Strip(n.content) != []
  }

  lemma PackNodeKeepsInk(p: Packing, node: ChunkNode, maxTokens: nat, count: TokenCounter)
    requires Strip(node.content) != []
    ensures InkOfPacking(PackNode(p, node, maxTokens, count)) == InkOfPacking(p) + Inked(node.content)
  {
    if node.nodeType.Text? {
      PiecesKeepInk(node.content, maxTokens, count);
      PackPiecesKeepsInk(p, BudgetedSentences(node.content, maxTokens, count), node.sources, maxTokens, count);
    } else {
      FlushKeepsInk(p);
      InkOfNodesAdd(Flush(p).chunks, node);
    }
  }

  lemma {:induction false} PackNodesKeepsInk(nodes: seq<ChunkNode>, maxTokens: nat, count: TokenCounter)
    requires NoneBlank(nodes)
    ensures InkOfPacking(PackNodes(nodes, maxTokens, count)) == InkOfNodes(nodes)
  {
    if nodes != [] {
      var front, node := nodes[..|nodes| - 1], nodes[|nodes| - 1];
      PackNodesKeepsInk(front, maxTokens, count);
      PackNodeKeepsInk(PackNodes(front, maxTokens, count), node, maxTokens, count);
    }
  }

  lemma {:induction false} ToPartsKeepsInk(nodes: seq<ChunkNode>, count: TokenCounter)
    ensures InkOf(PartTexts(ToParts(nodes, count))) == InkOfNodes(nodes)
  {
    if nodes != [] {
      var front, node := nodes[..|nodes| - 1], nodes[|nodes| - 1];
      ToPartsKeepsInk(front, count);
      TrimMeaning(node.content, IsWhitespace);
      var before, parts := ToParts(front, count), ToParts(nodes, count);
      assert Strip(node.content) != [] ==> parts[..|before|] == before;
      assert Strip(node.content) == [] ==> parts == before;
      InkOfAdd(PartTexts(before), Strip(node.content));
    }
  }

  // ---------------------------------------------------------------- the pipeline

  lemma {:induction false} ProcessedIsTight(nodes: seq<ParseNode>)
    ensures forall n :: n in ProcessParseNodes(nodes) ==> n.content != [] && Tight(n.content, IsWhitespace)
  {
    if nodes != [] {
      ProcessedIsTight(nodes[..|nodes| - 1]);
      TrimMeaning(nodes[|nodes| - 1].content, IsWhitespace);
    }
  }

  lemma JoinWithNodeSpacingIsTight(left: string, right: ChunkNode)
    requires left != [] && Tight(left, IsWhitespace) && right.content != [] && Tight(right.content, IsWhitespace)
    ensures JoinWithNodeSpacing(left, right) != [] && Tight(JoinWithNodeSpacing(left, right), IsWhitespace)
  {
    TrimOfTight(left, IsWhitespace);
    TrimOfTight(right.content, IsWhitespace);
  }

  lemma {:induction false} MergedIsTight(nodes: seq<ChunkNode>, maxTokens: nat, count: TokenCounter)
    requires forall n :: n in nodes ==> n.content != [] && Tight(n.content, IsWhitespace)
    ensures forall n :: n in Merge(nodes, maxTokens, count) ==> n.content != [] && Tight(n.content, IsWhitespace)
  {
    if nodes != [] {
      var front, node := nodes[..|nodes| - 1], nodes[|nodes| - 1];
      MergedIsTight(front, maxTokens, count);
      var merged := Merge(front, maxTokens, count);
      if merged != [] {
        JoinWithNodeSpacingIsTight(merged[|merged| - 1].content, node);
      }
    }
  }

  /** The merged nodes the packer works on: none is blank, none has whitespace at an end. */
  lemma MergedNodes(nodes: seq<ParseNode>, maxTokens: nat, count: TokenCounter)
    ensures var merged := Merge(ProcessParseNodes(nodes), maxTokens, count);
            && (forall n :: n in merged ==> n.content != [] && Tight(n.content, IsWhitespace))
            && NoneBlank(merged)
  {
    var merged := Merge(ProcessParseNodes(nodes), maxTokens, count);
    ProcessedIsTight(nodes);
    MergedIsTight(ProcessParseNodes(nodes), maxTokens, count);
    forall n | n in merged ensures Strip(n.content) != [] {
      TrimOfTight(n.content, IsWhitespace);
    }
  }

  /** For every node list, every budget and every token counter: dropping whitespace, the contents
      of the chunks in order are the contents of the nodes in order. */
  lemma ChunkingKeepsTheText(nodes: seq<ParseNode>, maxTokens: nat, count: TokenCounter)
    ensures InkOf(PartTexts(Chunks(nodes, maxTokens, count))) == InkOf(NodeTexts(nodes))
  {
    var budget := Max(maxTokens, 1);
    var processed := ProcessParseNodes(nodes);
    var merged := Merge(processed, budget, count);
    ProcessKeepsInk(nodes);
    MergeKeepsInk(processed, budget, count);
    MergedNodes(nodes, budget, count);
    PackNodesKeepsInk(merged, budget, count);
    FlushKeepsInk(PackNodes(merged, budget, count));
    ToPartsKeepsInk(Split(merged, budget, count), count);
  }
}
