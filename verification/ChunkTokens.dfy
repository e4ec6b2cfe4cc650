/** Token budgets: reported counts are exact, and a text chunk stays within the budget unless it is
    a single character that does not fit by itself. */
module ChunkTokens {
  import opened Basics
  import opened Trimming
  import opened Chunker
  import opened ChunkContent

  /** The one thing asked of the tokenizer. */
  ghost predicate TrimNeverRaises(count: TokenCounter) {
    forall s: string :: count(TrimEnd(s, IsWhitespace)) <= count(s)
  }

  /** A text without whitespace at its ends that fits, or is one character. */
  predicate Good(s: string, maxTokens: nat, count: TokenCounter) {
    s != [] && Tight(s, IsWhitespace) && (count(s) <= maxTokens || |s| == 1)
  }

  predicate CutFits(content: string, cut: nat, maxTokens: nat, count: TokenCounter) {
    && cut < |content|
    && (cut == 0 || count(content[..cut]) <= maxTokens) && count(content[..cut + 1]) > maxTokens
  }

  /** What the binary search finds, monotone counter or not: a position that fits (or zero) whose
      successor does not fit. */
  lemma {:induction false} CutMeaning(content: string, left: nat, right: nat, maxTokens: nat, count: TokenCounter)
    requires left < right <= |content|
    requires left == 0 || count(content[..left]) <= maxTokens
    requires count(content[..right]) > maxTokens
    ensures CutFits(content, Cut(content, left, right, maxTokens, count), maxTokens, count)
    decreases right - left
  {
    if left + 1 == right {
      assert content[..left + 1] == content[..right];
    } else {
      var mid := (left + right) / 2;
      if count(content[..mid]) <= maxTokens {
        CutMeaning(content, mid, right, maxTokens, count);
      } else {
        CutMeaning(content, left, mid, maxTokens, count);
      }
    }
  }

  /** With a counter that never falls along prefixes, the search finds the longest prefix that fits. */
  lemma CutIsLongest(content: string, maxTokens: nat, count: TokenCounter, k: nat)
    requires content != [] && count(content) > maxTokens && k <= |content|
    requires GrowsAlong(content, count)
    ensures count(content[..k]) <= maxTokens ==> k <= Cut(content, 0, |content|, maxTokens, count)
  {
    assert content[..|content|] == content;
    CutMeaning(content, 0, |content|, maxTokens, count);
  }

  lemma TokenPrefixIsGood(content: string, maxTokens: nat, count: TokenCounter)
    requires content != [] && Tight(content, IsWhitespace) && TrimNeverRaises(count)
    ensures Good(TokenPrefix(content, maxTokens, count), maxTokens, count)
    ensures count(TokenPrefix(content, maxTokens, count)) > maxTokens ==>
              TokenPrefix(content, maxTokens, count) == content[..1]
  {
    TokenPrefixIsPrefix(content, maxTokens, count);
    TrimOfTight(content, IsWhitespace);
    if count(content) > maxTokens {
      assert content[..|content|] == content;
      CutMeaning(content, 0, |content|, maxTokens, count);
      var cut := Cut(content, 0, |content|, maxTokens, count);
      assert content[..cut] == [] || content[..cut][0] == content[0];
      TrimOfStartTight(content[..cut], IsWhitespace);
    }
  }

  /** The counter never falls from a prefix of `content` to a longer one. */
  ghost predicate GrowsAlong(content: string, count: TokenCounter) {
    forall i, j :: 0 <= i <= j <= |content| ==> count(content[..i]) <= count(content[..j])
  }

  /** What is cut off a text with nothing to trim: it fits, or is one character; and no prefix that
      fits is longer once it is trimmed. */
  lemma TokenPrefixIsLongest(content: string, maxTokens: nat, count: TokenCounter)
    requires content != [] && Tight(content, IsWhitespace) && GrowsAlong(content, count)
    ensures var p := TokenPrefix(content, maxTokens, count);
            && p != [] && p <= content && (count(p) <= maxTokens || |p| == 1)
            && forall k: nat :: k <= |content| && count(content[..k]) <= maxTokens ==> |Strip(content[..k])| <= |p|
  {
    var p := TokenPrefix(content, maxTokens, count);
    TokenPrefixIsPrefix(content, maxTokens, count);
    TrimOfTight(content, IsWhitespace);
    assert content[..|content|] == content && p == content[..|p|];
    if count(content) <= maxTokens {
      forall k: nat | k <= |content| ensures |Strip(content[..k])| <= |p| {
        TrimMeaning(content[..k], IsWhitespace);
      }
    } else {
      CutMeaning(content, 0, |content|, maxTokens, count);
      forall k: nat | k <= |content| && count(content[..k]) <= maxTokens ensures |Strip(content[..k])| <= |p| {
        CutIsLongest(content, maxTokens, count, k);
        StripIsMonotone(content, k, Cut(content, 0, |content|, maxTokens, count));
      }
      CutPrefixFits(content, maxTokens, count);
    }
  }

  /** On a text that starts without whitespace, a longer prefix is no shorter once it is trimmed. */
  lemma {:induction false} StripIsMonotone(content: string, i: nat, j: nat)
    requires i <= j <= |content| && (content == [] || !IsWhitespace(content[0]))
    ensures |Strip(content[..i])| <= |Strip(content[..j])|
  {
    TrimOfStartTight(content[..j], IsWhitespace);
    if i < j {
      StripIsMonotone(content, i, j - 1);
      TrimOfStartTight(content[..j - 1], IsWhitespace);
      assert content[..j][..j - 1] == content[..j - 1];
    }
  }

  lemma CutPrefixFits(content: string, maxTokens: nat, count: TokenCounter)
    requires content != [] && Tight(content, IsWhitespace) && GrowsAlong(content, count) && count(content) > maxTokens
    ensures var p := TokenPrefix(content, maxTokens, count); count(p) <= maxTokens || |p| == 1
  {
    assert content[..|content|] == content;
    CutMeaning(content, 0, |content|, maxTokens, count);
    var cut := Cut(content, 0, |content|, maxTokens, count);
    TrimOfStartTight(content[..cut], IsWhitespace);
    var prefix := Strip(content[..cut]);
    if prefix != [] {
      assert prefix == content[..|prefix|] && |prefix| <= cut;
    }
  }

  predicate AllGood(strings: seq<string>, maxTokens: nat, count: TokenCounter) {
    forall s :: s in strings ==> Good(s, maxTokens, count)
  }

  lemma {:induction false} PrefixesAreGood(rest: string, maxTokens: nat, count: TokenCounter)
    requires Tight(rest, IsWhitespace) && TrimNeverRaises(count)
    ensures AllGood(Prefixes(rest, maxTokens, count), maxTokens, count)
    decreases |rest|
  {
    TrimOfTight(rest, IsWhitespace);
    if rest != [] {
      var p := TokenPrefix(rest, maxTokens, count);
      TokenPrefixIsPrefix(rest, maxTokens, count);
      TokenPrefixIsGood(rest, maxTokens, count);
      TrimStartMeaning(rest[|p|..], IsWhitespace);
      RestIsTight(rest, |p|);
      PrefixesAreGood(TrimStart(rest[|p|..], IsWhitespace), maxTokens, count);
    }
  }

  lemma {:induction false} BudgetedIsGood(sentences: seq<string>, maxTokens: nat, count: TokenCounter)
    requires AllTight(sentences) && TrimNeverRaises(count)
    ensures AllGood(BudgetedAll(sentences, maxTokens, count), maxTokens, count)
  {
    if sentences != [] {
      var front, last := sentences[..|sentences| - 1], sentences[|sentences| - 1];
      assert forall s :: s in front ==> s in sentences;
      BudgetedIsGood(front, maxTokens, count);
      PrefixesAreGood(last, maxTokens, count);
    }
  }

  lemma PiecesAreGood(text: string, maxTokens: nat, count: TokenCounter)
    requires Strip(text) != [] && TrimNeverRaises(count)
    ensures AllGood(BudgetedSentences(text, maxTokens, count), maxTokens, count)
  {
    SentencesKeepInk(text);
    TrimMeaning(text, IsWhitespace);
    assert AllTight([Strip(text)]);
    BudgetedIsGood(if Sentences(text) == [] then [Strip(text)] else Sentences(text), maxTokens, count);
  }

  // ---------------------------------------------------------------- packing

  lemma JoinBudgetedIsTight(left: string, right: string)
    requires left != [] && Tight(left, IsWhitespace) && right != [] && Tight(right, IsWhitespace)
    ensures JoinBudgeted(left, right) != [] && Tight(JoinBudgeted(left, right), IsWhitespace)
  {
    TrimOfTight(left, IsWhitespace);
    TrimOfTight(right, IsWhitespace);
  }

  predicate GoodNode(node: ChunkNode, maxTokens: nat, count: TokenCounter) {
    node.nodeType.Text? ==> Good(node.content, maxTokens, count)
  }

  predicate GoodPacking(p: Packing, maxTokens: nat, count: TokenCounter) {
    && (forall n :: n in p.chunks ==> GoodNode(n, maxTokens, count))
    && (p.pending.Some? ==> p.pending.value.nodeType.Text? && GoodNode(p.pending.value, maxTokens, count))
  }

  lemma FlushIsGood(p: Packing, maxTokens: nat, count: TokenCounter)
    requires GoodPacking(p, maxTokens, count)
    ensures GoodPacking(Flush(p), maxTokens, count)
    ensures Flush(p).chunks == p.chunks + if p.pending.None? then [] else [p.pending.value]
  {
    if p.pending.Some? {
      TrimOfTight(p.pending.value.content, IsWhitespace);
    }
  }

  lemma {:induction false} PackPiecesIsGood(p: Packing, pieces: seq<string>, sources: seq<nat>, maxTokens: nat,
                                            count: TokenCounter)
    requires GoodPacking(p, maxTokens, count) && AllGood(pieces, maxTokens, count)
    ensures GoodPacking(PackPieces(p, pieces, sources, maxTokens, count), maxTokens, count)
  {
    if pieces != [] {
      var front, last := pieces[..|pieces| - 1], pieces[|pieces| - 1];
      assert forall s :: s in front ==> s in pieces;
      PackPiecesIsGood(p, front, sources, maxTokens, count);
      PackPieceIsGood(PackPieces(p, front, sources, maxTokens, count), TextNode(last, sources), maxTokens, count);
    }
  }

  lemma PackPieceIsGood(p: Packing, piece: ChunkNode, maxTokens: nat, count: TokenCounter)
    requires GoodPacking(p, maxTokens, count) && piece.nodeType.Text? && GoodNode(piece, maxTokens, count)
    ensures GoodPacking(PackPiece(p, piece, maxTokens, count), maxTokens, count)
  {
    FlushIsGood(p, maxTokens, count);
    if p.pending.Some? {
      JoinBudgetedIsTight(p.pending.value.content, piece.content);
    }
  }

  lemma {:induction false} PackNodesIsGood(nodes: seq<ChunkNode>, maxTokens: nat, count: TokenCounter)
    requires NoneBlank(nodes) && TrimNeverRaises(count)
    ensures GoodPacking(PackNodes(nodes, maxTokens, count), maxTokens, count)
  {
    if nodes != [] {
      var front, node := nodes[..|nodes| - 1], nodes[|nodes| - 1];
      PackNodesIsGood(front, maxTokens, count);
      var p := PackNodes(front, maxTokens, count);
      if node.nodeType.Text? {
        PiecesAreGood(node.content, maxTokens, count);
        PackPiecesIsGood(p, BudgetedSentences(node.content, maxTokens, count), node.sources, maxTokens, count);
      } else {
        FlushIsGood(p, maxTokens, count);
      }
    }
  }

  lemma {:induction false} PartsAreGood(nodes: seq<ChunkNode>, maxTokens: nat, count: TokenCounter)
    requires forall n :: n in nodes ==> GoodNode(n, maxTokens, count)
    ensures forall part :: part in ToParts(nodes, count) ==>
              && part.tokenCount == count(part.content)
              && (part.chunkType.Text? ==> Good(part.content, maxTokens, count))
  {
    if nodes != [] {
      var front, node := nodes[..|nodes| - 1], nodes[|nodes| - 1];
      assert forall n :: n in front ==> n in nodes;
      PartsAreGood(front, maxTokens, count);
      if node.nodeType.Text? {
        assert node in nodes;
        TrimOfTight(node.content, IsWhitespace);
      }
    }
  }

  /** Every reported count is the exact count of the chunk, and a text chunk is within the budget
      unless it is one character whose own count exceeds it. */
  lemma ChunksAreWithinBudget(nodes: seq<ParseNode>, maxTokens: nat, count: TokenCounter)
    requires TrimNeverRaises(count)
    ensures forall part :: part in Chunks(nodes, maxTokens, count) ==>
              && part.tokenCount == count(part.content)
              && (part.chunkType.Text? ==>
                    part.content != [] && (part.tokenCount <= Max(maxTokens, 1) || |part.content| == 1))
  {
    var budget := Max(maxTokens, 1);
    var merged := Merge(ProcessParseNodes(nodes), budget, count);
    MergedNodes(nodes, budget, count);
    PackNodesIsGood(merged, budget, count);
    FlushIsGood(PackNodes(merged, budget, count), budget, count);
    PartsAreGood(Split(merged, budget, count), budget, count);
  }
}
