/** Which text nodes are merged: as many of a run as fit the budget together, one after the other. And
    what stands between texts that are joined. */
module ChunkMerging {
  import opened Basics
  import opened Trimming
  import opened Chunker

  /** The texts of a run of nodes, joined one after the other. */
  function JoinNodes(run: seq<ChunkNode>): string
    requires run != []
  {
    if |run| == 1 then run[0].content else JoinWithNodeSpacing(JoinNodes(run[..|run| - 1]), run[|run| - 1])
  }

  /** The node is made of nodes `lo` to `hi`: one node as it is, or text nodes, each of which fitted
      together with those before it. */
  ghost predicate IsRun(node: ChunkNode, nodes: seq<ChunkNode>, lo: nat, hi: nat, maxTokens: nat, count: TokenCounter) {
    && lo < hi <= |nodes| && node.content == JoinNodes(nodes[lo..hi]) && node.nodeType == nodes[lo].nodeType
    && (hi == lo + 1 ==> node == nodes[lo])
    && (hi > lo + 1 ==> forall k :: lo <= k < hi ==> nodes[k].nodeType.Text?)
    && (forall m :: lo + 1 < m <= hi ==> RunFits(nodes, lo, m, maxTokens, count))
  }

  ghost predicate RunFits(nodes: seq<ChunkNode>, lo: nat, hi: nat, maxTokens: nat, count: TokenCounter) {
    lo < hi <= |nodes| && count(JoinNodes(nodes[lo..hi])) <= maxTokens
  }

  /** The run from `lo` could not take node `hi` as well. */
  ghost predicate EndsAt(nodes: seq<ChunkNode>, lo: nat, hi: nat, maxTokens: nat, count: TokenCounter) {
    lo < hi < |nodes|
    && (nodes[lo].nodeType.Text? && nodes[hi].nodeType.Text? ==> !RunFits(nodes, lo, hi + 1, maxTokens, count))
  }

  /** Where run `i` ends. */
  function End(starts: seq<nat>, i: nat, n: nat): nat
    requires i < |starts|
  {
    if i + 1 < |starts| then starts[i + 1] else n
  }

  ghost predicate RunAt(merged: seq<ChunkNode>, nodes: seq<ChunkNode>, starts: seq<nat>, i: nat, maxTokens: nat,
                        count: TokenCounter)
    requires i < |starts| == |merged|
  {
    && IsRun(merged[i], nodes, starts[i], End(starts, i, |nodes|), maxTokens, count)
    && (i + 1 < |starts| ==> EndsAt(nodes, starts[i], starts[i + 1], maxTokens, count))
  }

  /** The merged nodes are the runs that begin at `starts`, without a gap. */
  ghost predicate Runs(merged: seq<ChunkNode>, nodes: seq<ChunkNode>, starts: seq<nat>, maxTokens: nat,
                       count: TokenCounter)
  {
    && |starts| == |merged| && (nodes == [] <==> starts == []) && (starts != [] ==> starts[0] == 0)
    && forall i :: 0 <= i < |starts| ==> RunAt(merged, nodes, starts, i, maxTokens, count)
  }

  /** Merging makes maximal runs: nothing is merged that does not fit, and no run ends that could have
      gone on. */
  lemma {:induction false} MergeMakesRuns(nodes: seq<ChunkNode>, maxTokens: nat, count: TokenCounter)
    returns (starts: seq<nat>)
    ensures Runs(Merge(nodes, maxTokens, count), nodes, starts, maxTokens, count)
  {
    starts := [];
    if nodes != [] {
      var n := |nodes| - 1;
      var before := MergeMakesRuns(nodes[..n], maxTokens, count);
      var merged := Merge(nodes[..n], maxTokens, count);
      if n > 0 && LastGrows(merged, nodes[n], maxTokens, count) {
        starts := before;
        forall i | 0 <= i < |starts| ensures RunAt(Merge(nodes, maxTokens, count), nodes, starts, i, maxTokens, count) {
          GrownRun(nodes, merged, before, i, maxTokens, count);
        }
      } else {
        starts := before + [n];
        forall i | 0 <= i < |starts| ensures RunAt(Merge(nodes, maxTokens, count), nodes, starts, i, maxTokens, count) {
          AddedRun(nodes, merged, before, i, maxTokens, count);
        }
      }
    }
  }

  /** The node is merged into the last one. */
  predicate LastGrows(merged: seq<ChunkNode>, node: ChunkNode, maxTokens: nat, count: TokenCounter) {
    && merged != [] && merged[|merged| - 1].nodeType.Text? && node.nodeType.Text?
    && count(JoinWithNodeSpacing(merged[|merged| - 1].content, node)) <= maxTokens
  }

  /** Nodes `lo` to `hi` are the same in a longer list. */
  lemma SameRun(nodes: seq<ChunkNode>, n: nat, lo: nat, hi: nat)
    requires lo < hi <= n <= |nodes|
    ensures nodes[..n][lo..hi] == nodes[lo..hi]
  {
  }

  lemma OneMoreNode(nodes: seq<ChunkNode>, lo: nat, n: nat)
    requires lo < n < |nodes|
    ensures JoinNodes(nodes[lo..n + 1]) == JoinWithNodeSpacing(JoinNodes(nodes[lo..n]), nodes[n])
  {
    assert nodes[lo..n + 1][..n - lo] == nodes[lo..n];
  }

  lemma RunStays(node: ChunkNode, nodes: seq<ChunkNode>, n: nat, lo: nat, hi: nat, maxTokens: nat, count: TokenCounter)
    requires n <= |nodes| && IsRun(node, nodes[..n], lo, hi, maxTokens, count)
    ensures IsRun(node, nodes, lo, hi, maxTokens, count)
  {
    SameRun(nodes, n, lo, hi);
    forall m | lo + 1 < m <= hi ensures RunFits(nodes, lo, m, maxTokens, count) {
      SameRun(nodes, n, lo, m);
      assert RunFits(nodes[..n], lo, m, maxTokens, count);
    }
  }

  lemma EndStays(nodes: seq<ChunkNode>, n: nat, lo: nat, hi: nat, maxTokens: nat, count: TokenCounter)
    requires n <= |nodes| && EndsAt(nodes[..n], lo, hi, maxTokens, count)
    ensures EndsAt(nodes, lo, hi, maxTokens, count)
  {
    SameRun(nodes, n, lo, hi + 1);
  }

  lemma GrownRun(nodes: seq<ChunkNode>, merged: seq<ChunkNode>, starts: seq<nat>, i: nat, maxTokens: nat,
                 count: TokenCounter)
    requires |nodes| > 1 && merged == Merge(nodes[..|nodes| - 1], maxTokens, count)
    requires Runs(merged, nodes[..|nodes| - 1], starts, maxTokens, count) && i < |starts|
    requires LastGrows(merged, nodes[|nodes| - 1], maxTokens, count)
    ensures |Merge(nodes, maxTokens, count)| == |starts|
    ensures RunAt(Merge(nodes, maxTokens, count), nodes, starts, i, maxTokens, count)
  {
    var n := |nodes| - 1;
    assert RunAt(merged, nodes[..n], starts, i, maxTokens, count);
    RunStays(merged[i], nodes, n, starts[i], End(starts, i, n), maxTokens, count);
    if i + 1 < |starts| {
      EndStays(nodes, n, starts[i], starts[i + 1], maxTokens, count);
    } else {
      RunGrows(nodes, n, starts[i], merged[i], Merge(nodes, maxTokens, count)[i], maxTokens, count);
    }
  }

  lemma RunGrows(nodes: seq<ChunkNode>, n: nat, lo: nat, node: ChunkNode, grown: ChunkNode, maxTokens: nat,
                 count: TokenCounter)
    requires n + 1 == |nodes| && IsRun(node, nodes, lo, n, maxTokens, count)
    requires node.nodeType.Text? && nodes[n].nodeType.Text?
    requires grown.content == JoinWithNodeSpacing(node.content, nodes[n]) && grown.nodeType.Text?
    requires count(grown.content) <= maxTokens
    ensures IsRun(grown, nodes, lo, n + 1, maxTokens, count)
  {
    OneMoreNode(nodes, lo, n);
  }

  lemma AddedRun(nodes: seq<ChunkNode>, merged: seq<ChunkNode>, before: seq<nat>, i: nat, maxTokens: nat,
                 count: TokenCounter)
    requires nodes != [] && merged == Merge(nodes[..|nodes| - 1], maxTokens, count)
    requires Runs(merged, nodes[..|nodes| - 1], before, maxTokens, count) && i <= |before|
    requires !LastGrows(merged, nodes[|nodes| - 1], maxTokens, count)
    ensures Merge(nodes, maxTokens, count) == merged + [nodes[|nodes| - 1]]
    ensures RunAt(Merge(nodes, maxTokens, count), nodes, before + [|nodes| - 1], i, maxTokens, count)
  {
    var n := |nodes| - 1;
    if i < |before| {
      EarlierRunStays(nodes, merged, before, i, maxTokens, count);
    } else {
      assert nodes[n..n + 1] == [nodes[n]];
    }
  }

  lemma EarlierRunStays(nodes: seq<ChunkNode>, merged: seq<ChunkNode>, before: seq<nat>, i: nat, maxTokens: nat,
                        count: TokenCounter)
    requires nodes != [] && Runs(merged, nodes[..|nodes| - 1], before, maxTokens, count) && i < |before|
    requires !LastGrows(merged, nodes[|nodes| - 1], maxTokens, count)
    ensures RunAt(merged + [nodes[|nodes| - 1]], nodes, before + [|nodes| - 1], i, maxTokens, count)
  {
    var n := |nodes| - 1;
    assert RunAt(merged, nodes[..n], before, i, maxTokens, count);
    RunStays(merged[i], nodes, n, before[i], End(before, i, n), maxTokens, count);
    if i + 1 < |before| {
      EndStays(nodes, n, before[i], before[i + 1], maxTokens, count);
    } else {
      CouldNotGrow(merged[i], nodes, n, before[i], maxTokens, count);
    }
  }

  lemma CouldNotGrow(node: ChunkNode, nodes: seq<ChunkNode>, n: nat, lo: nat, maxTokens: nat, count: TokenCounter)
    requires n + 1 == |nodes| && IsRun(node, nodes, lo, n, maxTokens, count)
    requires !LastGrows([node], nodes[n], maxTokens, count)
    ensures EndsAt(nodes, lo, n, maxTokens, count)
  {
    OneMoreNode(nodes, lo, n);
  }

  // ---------------------------------------------------------------- what stands between joined texts

  /** Between texts with nothing to trim: a newline or a space, if the second asks for one. */
  lemma NodeSpacingMeaning(left: string, right: ChunkNode)
    requires Tight(left, IsWhitespace) && Tight(right.content, IsWhitespace)
    ensures JoinWithNodeSpacing(left, right) ==
            left + (if right.isNeedNewline then "\n" else if right.isNeedSpace then " " else "") + right.content
  {
    TrimOfTight(left, IsWhitespace);
    TrimOfTight(right.content, IsWhitespace);
    assert left + "" == left;
  }

  /** Between pieces: a newline, unless the first ends where a sentence may. */
  lemma BudgetedJoinMeaning(left: string, right: string)
    requires left != [] && right != [] && Tight(left, IsWhitespace) && Tight(right, IsWhitespace)
    ensures JoinBudgeted(left, right) == left + (if left[|left| - 1] in SENTENCE_ENDS then "" else "\n") + right
  {
    TrimOfTight(left, IsWhitespace);
    TrimOfTight(right, IsWhitespace);
    assert left + "" == left;
  }

  /** Full stops, exclamation marks, question marks and semicolons, in both widths. */
  const SENTENCE_ENDS: string := ".!?;\U{3002}\U{FF01}\U{FF1F}\U{FF1B}"
}
