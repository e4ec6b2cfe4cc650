/** Greedy packing makes the fewest chunks: among all ways of cutting a text run's pieces into
    contiguous runs that each fit or are one piece, none has fewer runs. */
module ChunkPacking {
  import opened Basics
  import opened Trimming
  import opened Chunker
  import opened ChunkContent
  import opened ChunkTokens

  function JoinRun(run: seq<string>): string
    requires run != []
  {
    if |run| == 1 then run[0] else JoinBudgeted(JoinRun(run[..|run| - 1]), run[|run| - 1])
  }

  /** Pieces `i` to `j` as one chunk. */
  function Joined(p: seq<string>, i: nat, j: nat): string
    requires i < j <= |p|
  {
    JoinRun(p[i..j])
  }

  /** One piece, or a run within the budget. */
  predicate Fits(p: seq<string>, i: nat, j: nat, maxTokens: nat, count: TokenCounter)
    requires i < j <= |p|
  {
    j == i + 1 || count(Joined(p, i, j)) <= maxTokens
  }

  /** Every contiguous part of a contiguous run that fits also fits. */
  ghost predicate SubRunsFit(p: seq<string>, maxTokens: nat, count: TokenCounter) {
    forall i: nat, j: nat :: PartsFit(p, i, j, maxTokens, count)
  }

  ghost predicate PartsFit(p: seq<string>, i: nat, j: nat, maxTokens: nat, count: TokenCounter) {
    i < j <= |p| && Fits(p, i, j, maxTokens, count) ==>
      forall a: nat, b: nat :: i <= a < b <= j ==> Fits(p, a, b, maxTokens, count)
  }

  /** Where run `k` ends, when the runs begin at `starts` and cover the first `n` pieces. */
  function EndOf(starts: seq<nat>, k: nat, n: nat): nat
    requires k < |starts|
  {
    if k + 1 < |starts| then starts[k + 1] else n
  }

  /** The runs follow each other without a gap, from piece 0 to piece `n`. */
  ghost predicate Covers(starts: seq<nat>, n: nat) {
    && (n == 0 <==> starts == [])
    && (n > 0 ==> starts[0] == 0)
    && (forall k :: 0 <= k < |starts| ==> RunEnds(starts, k, n))
  }

  /** Run `k` is not empty and ends by `n`. */
  predicate RunEnds(starts: seq<nat>, k: nat, n: nat)
    requires k < |starts|
  {
    starts[k] < EndOf(starts, k, n) <= n
  }

  predicate RunFits(p: seq<string>, n: nat, starts: seq<nat>, k: nat, maxTokens: nat, count: TokenCounter)
    requires n <= |p| && k < |starts|
  {
    RunEnds(starts, k, n) && Fits(p, starts[k], EndOf(starts, k, n), maxTokens, count)
  }

  ghost predicate Partition(p: seq<string>, n: nat, starts: seq<nat>, maxTokens: nat, count: TokenCounter) {
    && n <= |p| && Covers(starts, n)
    && (forall k :: 0 <= k < |starts| ==> RunFits(p, n, starts, k, maxTokens, count))
  }

  function Last(starts: seq<nat>): nat
    requires starts != []
  {
    starts[|starts| - 1]
  }

  /** Where the runs begin that the greedy packer makes of the first `n` pieces. */
  function GreedyStarts(p: seq<string>, n: nat, maxTokens: nat, count: TokenCounter): (starts: seq<nat>)
    requires n <= |p|
    ensures n == 0 <==> starts == []
    ensures n > 0 ==> starts[0] == 0 && Last(starts) < n
  {
    if n == 0 then []
    else if n == 1 then [0]
    else
      var starts := GreedyStarts(p, n - 1, maxTokens, count);
      if count(Joined(p, Last(starts), n)) <= maxTokens then starts else starts + [n - 1]
  }

  lemma {:induction false} GreedyIsAPartition(p: seq<string>, n: nat, maxTokens: nat, count: TokenCounter)
    requires n <= |p|
    ensures Partition(p, n, GreedyStarts(p, n, maxTokens, count), maxTokens, count)
  {
    if n > 1 {
      GreedyIsAPartition(p, n - 1, maxTokens, count);
      var starts := GreedyStarts(p, n, maxTokens, count);
      forall k | 0 <= k < |starts| ensures RunFits(p, n, starts, k, maxTokens, count) {
        GreedyRunFits(p, n, k, maxTokens, count);
      }
      assert forall k :: 0 <= k < |starts| && RunFits(p, n, starts, k, maxTokens, count) ==> RunEnds(starts, k, n);
    }
  }

  lemma GreedyRunFits(p: seq<string>, n: nat, k: nat, maxTokens: nat, count: TokenCounter)
    requires 1 < n <= |p| && k < |GreedyStarts(p, n, maxTokens, count)|
    requires Partition(p, n - 1, GreedyStarts(p, n - 1, maxTokens, count), maxTokens, count)
    ensures RunFits(p, n, GreedyStarts(p, n, maxTokens, count), k, maxTokens, count)
  {
    var before, starts := GreedyStarts(p, n - 1, maxTokens, count), GreedyStarts(p, n, maxTokens, count);
    if k < |before| {
      assert RunFits(p, n - 1, before, k, maxTokens, count);
      assert starts[k] == before[k];
      assert k + 1 < |starts| ==> EndOf(starts, k, n) == EndOf(before, k, n - 1);
    }
  }

  /** No more runs than another partition, and with as many, the last one is no longer. */
  predicate NoMore(greedy: seq<nat>, starts: seq<nat>) {
    |greedy| <= |starts| && (|greedy| == |starts| && greedy != [] ==> Last(greedy) >= Last(starts))
  }

  /** Greedy stays ahead of every partition into contiguous runs that each fit or are one piece. */
  lemma {:induction false} GreedyIsFewest(p: seq<string>, n: nat, starts: seq<nat>, maxTokens: nat, count: TokenCounter)
    requires Partition(p, n, starts, maxTokens, count) && SubRunsFit(p, maxTokens, count)
    ensures NoMore(GreedyStarts(p, n, maxTokens, count), starts)
  {
    if n > 1 {
      var before, greedy := GreedyStarts(p, n - 1, maxTokens, count), GreedyStarts(p, n, maxTokens, count);
      assert greedy == before || greedy == before + [n - 1];
      if Last(starts) == n - 1 {
        WithoutLastRun(p, n, starts, maxTokens, count);
        GreedyIsFewest(p, n - 1, starts[..|starts| - 1], maxTokens, count);
        OneMoreEach(before, greedy, starts, n - 1);
      } else {
        LastRunBounds(starts, n);
        WithoutLastPiece(p, n, starts, maxTokens, count);
        GreedyIsFewest(p, n - 1, starts, maxTokens, count);
        LateRunGrows(p, n, starts, maxTokens, count);
        OneMorePiece(before, greedy, starts, n - 1);
      }
    }
  }

  lemma LastRunBounds(starts: seq<nat>, n: nat)
    requires Covers(starts, n) && n > 0
    ensures starts != [] && Last(starts) < n
  {
    assert RunEnds(starts, |starts| - 1, n);
  }

  /** The last piece is a run of its own in the other partition. */
  lemma OneMoreEach(before: seq<nat>, greedy: seq<nat>, starts: seq<nat>, c: nat)
    requires starts != [] && Last(starts) == c && NoMore(before, starts[..|starts| - 1])
    requires greedy == before || greedy == before + [c]
    ensures NoMore(greedy, starts)
  {
  }

  /** The last piece is at the end of a longer run there. */
  lemma OneMorePiece(before: seq<nat>, greedy: seq<nat>, starts: seq<nat>, c: nat)
    requires starts != [] && before != [] && Last(starts) < c && NoMore(before, starts)
    requires greedy == before || (greedy == before + [c] && Last(before) < Last(starts))
    ensures NoMore(greedy, starts)
  {
  }

  /** If greedy's open run begins no earlier than the other's last run, the last piece fits into it. */
  lemma LateRunGrows(p: seq<string>, n: nat, starts: seq<nat>, maxTokens: nat, count: TokenCounter)
    requires Partition(p, n, starts, maxTokens, count) && SubRunsFit(p, maxTokens, count) && n > 1
    ensures var before := GreedyStarts(p, n - 1, maxTokens, count);
            Last(before) >= Last(starts) ==> GreedyStarts(p, n, maxTokens, count) == before
  {
    LastRunBounds(starts, n);
    var c, s := Last(starts), Last(GreedyStarts(p, n - 1, maxTokens, count));
    assert RunFits(p, n, starts, |starts| - 1, maxTokens, count);
    if c <= s {
      SubRunFits(p, c, s, n, n, maxTokens, count);
    }
    LastOneAlone(p, n, s, maxTokens, count);
  }

  lemma SubRunFits(p: seq<string>, i: nat, a: nat, b: nat, j: nat, maxTokens: nat, count: TokenCounter)
    requires SubRunsFit(p, maxTokens, count) && i <= a < b <= j <= |p| && Fits(p, i, j, maxTokens, count)
    ensures Fits(p, a, b, maxTokens, count)
  {
    assert PartsFit(p, i, j, maxTokens, count);
  }

  /** If greedy opens a run for the last piece, the run before it did not fit together with it. */
  lemma LastOneAlone(p: seq<string>, n: nat, s: nat, maxTokens: nat, count: TokenCounter)
    requires 1 < n <= |p| && s == Last(GreedyStarts(p, n - 1, maxTokens, count))
    ensures Fits(p, s, n, maxTokens, count) ==>
              GreedyStarts(p, n, maxTokens, count) == GreedyStarts(p, n - 1, maxTokens, count)
  {
  }

  lemma {:induction false} RunsInOrder(starts: seq<nat>, n: nat, k: nat)
    requires Covers(starts, n) && k < |starts|
    ensures starts[k] <= Last(starts)
    decreases |starts| - k
  {
    if k + 1 < |starts| {
      assert RunEnds(starts, k, n);
      RunsInOrder(starts, n, k + 1);
    }
  }

  lemma WithoutLastRun(p: seq<string>, n: nat, starts: seq<nat>, maxTokens: nat, count: TokenCounter)
    requires Partition(p, n, starts, maxTokens, count) && n > 1 && Last(starts) == n - 1
    ensures Partition(p, n - 1, starts[..|starts| - 1], maxTokens, count)
  {
    var front, m := starts[..|starts| - 1], n - 1;
    FrontCovers(starts, n);
    forall k | 0 <= k < |front| ensures RunFits(p, m, front, k, maxTokens, count) {
      assert RunEnds(front, k, m) && EndOf(front, k, m) == EndOf(starts, k, n);
      assert RunFits(p, n, starts, k, maxTokens, count);
    }
  }

  lemma FrontCovers(starts: seq<nat>, n: nat)
    requires Covers(starts, n) && n > 1 && Last(starts) == n - 1
    ensures Covers(starts[..|starts| - 1], n - 1)
    ensures var front, m := starts[..|starts| - 1], n - 1;
            forall k :: 0 <= k < |front| ==> EndOf(front, k, m) == EndOf(starts, k, n)
  {
    var front, m := starts[..|starts| - 1], n - 1;
    forall k | 0 <= k < |front| ensures EndOf(front, k, m) == EndOf(starts, k, n) && RunEnds(front, k, m) {
      assert RunEnds(starts, k, n);
      RunsInOrder(starts, n, k + 1);
    }
  }

  lemma WithoutLastPiece(p: seq<string>, n: nat, starts: seq<nat>, maxTokens: nat, count: TokenCounter)
    requires Partition(p, n, starts, maxTokens, count) && SubRunsFit(p, maxTokens, count)
    requires n > 1 && Last(starts) < n - 1
    ensures Partition(p, n - 1, starts, maxTokens, count)
  {
    var m := n - 1;
    forall k | 0 <= k < |starts| ensures RunFits(p, m, starts, k, maxTokens, count) {
      RunWithoutLastPiece(p, n, starts, k, maxTokens, count);
    }
    assert forall k :: 0 <= k < |starts| && RunFits(p, m, starts, k, maxTokens, count) ==> RunEnds(starts, k, m);
  }

  lemma RunWithoutLastPiece(p: seq<string>, n: nat, starts: seq<nat>, k: nat, maxTokens: nat, count: TokenCounter)
    requires Partition(p, n, starts, maxTokens, count) && SubRunsFit(p, maxTokens, count)
    requires n > 1 && Last(starts) < n - 1 && k < |starts|
    ensures RunFits(p, n - 1, starts, k, maxTokens, count)
  {
    assert RunFits(p, n, starts, k, maxTokens, count);
    if k + 1 < |starts| {
      RunsInOrder(starts, n, k + 1);
    } else {
      SubRunFits(p, starts[k], starts[k], n - 1, n, maxTokens, count);
    }
  }

  // ---------------------------------------------------------------- the packer is greedy

  function Shapes(nodes: seq<ChunkNode>): (shapes: seq<(string, NodeType)>)
    ensures |shapes| == |nodes|
  {
    if nodes == [] then []
    else Shapes(nodes[..|nodes| - 1]) + [(nodes[|nodes| - 1].content, nodes[|nodes| - 1].nodeType)]
  }

  lemma ShapesAdd(nodes: seq<ChunkNode>, node: ChunkNode)
    ensures Shapes(nodes + [node]) == Shapes(nodes) + [(node.content, node.nodeType)]
  {
    assert (nodes + [node])[..|nodes|] == nodes;
  }

  lemma {:induction false} ShapesAt(nodes: seq<ChunkNode>, k: nat)
    requires k < |nodes|
    ensures Shapes(nodes)[k] == (nodes[k].content, nodes[k].nodeType)
  {
    if k < |nodes| - 1 {
      ShapesAt(nodes[..|nodes| - 1], k);
    }
  }

  /** The runs greedy has closed within the first `n` pieces; the last run is still open. */
  function Closed(p: seq<string>, n: nat, maxTokens: nat, count: TokenCounter): seq<(string, NodeType)>
    requires n <= |p|
  {
    if n <= 1 then []
    else
      var s := Last(GreedyStarts(p, n - 1, maxTokens, count));
      Closed(p, n - 1, maxTokens, count)
      + if count(Joined(p, s, n)) <= maxTokens then [] else [(Joined(p, s, n - 1), Text)]
  }

  lemma {:induction false} ClosedLength(p: seq<string>, n: nat, maxTokens: nat, count: TokenCounter)
    requires 0 < n <= |p|
    ensures |Closed(p, n, maxTokens, count)| == |GreedyStarts(p, n, maxTokens, count)| - 1
  {
    if n > 1 {
      ClosedLength(p, n - 1, maxTokens, count);
    }
  }

  /** One more piece: it joins the open run, or closes it and opens its own. */
  lemma ClosedStep(p: seq<string>, n: nat, maxTokens: nat, count: TokenCounter)
    requires 1 < n <= |p|
    ensures var before, starts := GreedyStarts(p, n - 1, maxTokens, count), GreedyStarts(p, n, maxTokens, count);
            var closed := Closed(p, n - 1, maxTokens, count);
            || (starts == before && Closed(p, n, maxTokens, count) == closed)
            || (starts == before + [n - 1]
                && Closed(p, n, maxTokens, count) == closed + [(Joined(p, Last(before), n - 1), Text)])
  {
  }

  /** Closed run `k` goes from its start `a` to the next start `b`. */
  lemma {:induction false} ClosedRuns(p: seq<string>, n: nat, k: nat, maxTokens: nat, count: TokenCounter)
    returns (a: nat, b: nat)
    requires 0 < n <= |p| && k < |Closed(p, n, maxTokens, count)| == |GreedyStarts(p, n, maxTokens, count)| - 1
    ensures a == GreedyStarts(p, n, maxTokens, count)[k] && b == GreedyStarts(p, n, maxTokens, count)[k + 1]
    ensures a < b <= n && Closed(p, n, maxTokens, count)[k] == (Joined(p, a, b), Text)
  {
    assert n > 1;
    ClosedLength(p, n - 1, maxTokens, count);
    if k < |Closed(p, n - 1, maxTokens, count)| {
      a, b := ClosedRuns(p, n - 1, k, maxTokens, count);
      ClosedRunStays(p, n, k, maxTokens, count);
    } else {
      a, b := Last(GreedyStarts(p, n - 1, maxTokens, count)), n - 1;
      LastClosedRun(p, n, k, maxTokens, count);
    }
  }

  lemma ClosedRunStays(p: seq<string>, n: nat, k: nat, maxTokens: nat, count: TokenCounter)
    requires 1 < n <= |p|
    requires k < |Closed(p, n - 1, maxTokens, count)| == |GreedyStarts(p, n - 1, maxTokens, count)| - 1
    ensures var before, starts := GreedyStarts(p, n - 1, maxTokens, count), GreedyStarts(p, n, maxTokens, count);
            k + 1 < |starts| && starts[k] == before[k] && starts[k + 1] == before[k + 1]
    ensures var closed, all := Closed(p, n - 1, maxTokens, count), Closed(p, n, maxTokens, count);
            k < |all| && all[k] == closed[k]
  {
    ClosedStep(p, n, maxTokens, count);
  }

  /** What the last piece closes is the run before it. */
  lemma LastClosedRun(p: seq<string>, n: nat, k: nat, maxTokens: nat, count: TokenCounter)
    requires 1 < n <= |p| && k < |Closed(p, n, maxTokens, count)|
    requires k == |Closed(p, n - 1, maxTokens, count)| == |GreedyStarts(p, n - 1, maxTokens, count)| - 1
    ensures var before, starts := GreedyStarts(p, n - 1, maxTokens, count), GreedyStarts(p, n, maxTokens, count);
            k + 1 < |starts| && starts[k] == Last(before) && starts[k + 1] == n - 1
            && Closed(p, n, maxTokens, count)[k] == (Joined(p, Last(before), n - 1), Text)
  {
    ClosedStep(p, n, maxTokens, count);
  }

  /** `packing` holds the runs greedy makes of the first `n` pieces, the last one pending. */
  ghost predicate Holds(packing: Packing, p: seq<string>, n: nat, maxTokens: nat, count: TokenCounter)
    requires n <= |p|
  {
    && Shapes(packing.chunks) == Closed(p, n, maxTokens, count)
    && (n == 0 <==> packing.pending.None?)
    && (n > 0 ==>
          && packing.pending.value.nodeType.Text?
          && packing.pending.value.content == Joined(p, Last(GreedyStarts(p, n, maxTokens, count)), n))
  }

  lemma {:induction false} JoinedIsTight(p: seq<string>, i: nat, j: nat)
    requires i < j <= |p| && AllTight(p)
    ensures Joined(p, i, j) != [] && Tight(Joined(p, i, j), IsWhitespace)
    ensures Strip(Joined(p, i, j)) == Joined(p, i, j)
  {
    assert p[j - 1] in p;
    JoinedExtends(p, i, j - 1);
    if i + 1 < j {
      var front := Joined(p, i, j - 1);
      JoinedIsTight(p, i, j - 1);
      JoinBudgetedIsTight(front, p[j - 1]);
    }
    var joined := Joined(p, i, j);
    assert Tight(joined, IsWhitespace) && joined != [];
    TrimOfTight(joined, IsWhitespace);
  }

  lemma JoinedExtends(p: seq<string>, i: nat, j: nat)
    requires i <= j < |p|
    ensures Joined(p, i, j + 1) == if i == j then p[j] else JoinBudgeted(Joined(p, i, j), p[j])
  {
    assert p[i..j + 1][..j - i] == p[i..j];
  }

  lemma PieceKeepsHolds(packing: Packing, p: seq<string>, n: nat, m: nat, sources: seq<nat>, maxTokens: nat,
                        count: TokenCounter)
    requires n < m == n + 1 <= |p| && AllTight(p) && Holds(packing, p, n, maxTokens, count)
    ensures Holds(PackPiece(packing, TextNode(p[n], sources), maxTokens, count), p, m, maxTokens, count)
  {
    JoinedExtends(p, n, n);
    if n > 0 {
      var s := Last(GreedyStarts(p, n, maxTokens, count));
      JoinedExtends(p, s, n);
      JoinedIsTight(p, s, n);
      ShapesAdd(packing.chunks, packing.pending.value);
    }
  }

  lemma {:induction false} PiecesKeepHolds(packing: Packing, p: seq<string>, n: nat, m: nat, sources: seq<nat>,
                                           maxTokens: nat, count: TokenCounter)
    requires n <= m <= |p| && AllTight(p) && Holds(packing, p, n, maxTokens, count)
    ensures Holds(PackPieces(packing, p[n..m], sources, maxTokens, count), p, m, maxTokens, count)
  {
    if n < m {
      var front := PackPieces(packing, p[n..m - 1], sources, maxTokens, count);
      PiecesKeepHolds(packing, p, n, m - 1, sources, maxTokens, count);
      LastPieceLast(packing, p, n, m, sources, maxTokens, count);
      PieceKeepsHolds(front, p, m - 1, m, sources, maxTokens, count);
    } else {
      assert p[n..m] == [];
    }
  }

  lemma LastPieceLast(packing: Packing, p: seq<string>, n: nat, m: nat, sources: seq<nat>, maxTokens: nat,
                      count: TokenCounter)
    requires n < m <= |p|
    ensures PackPieces(packing, p[n..m], sources, maxTokens, count)
            == PackPiece(PackPieces(packing, p[n..m - 1], sources, maxTokens, count), TextNode(p[m - 1], sources),
                         maxTokens, count)
  {
    var run := p[n..m];
    assert |run| == m - n && run != [];
    assert run[..|run| - 1] == p[n..m - 1] && run[|run| - 1] == p[m - 1];
  }

  /** The pieces of a run of text nodes. */
  function PiecesOf(nodes: seq<ChunkNode>, maxTokens: nat, count: TokenCounter): seq<string> {
    if nodes == [] then []
    else PiecesOf(nodes[..|nodes| - 1], maxTokens, count)
         + BudgetedSentences(nodes[|nodes| - 1].content, maxTokens, count)
  }

  function PackFrom(p: Packing, nodes: seq<ChunkNode>, maxTokens: nat, count: TokenCounter): Packing {
    if nodes == [] then p
    else PackNode(PackFrom(p, nodes[..|nodes| - 1], maxTokens, count), nodes[|nodes| - 1], maxTokens, count)
  }

  lemma {:induction false} PiecesAreTight(nodes: seq<ChunkNode>, maxTokens: nat, count: TokenCounter)
    requires NoneBlank(nodes)
    ensures AllTight(PiecesOf(nodes, maxTokens, count))
  {
    if nodes != [] {
      assert forall n :: n in nodes[..|nodes| - 1] ==> n in nodes;
      PiecesAreTight(nodes[..|nodes| - 1], maxTokens, count);
      PiecesKeepInk(nodes[|nodes| - 1].content, maxTokens, count);
    }
  }

  lemma {:induction false} TextRunHolds(nodes: seq<ChunkNode>, p: seq<string>, maxTokens: nat, count: TokenCounter)
    requires forall n :: n in nodes ==> n.nodeType.Text?
    requires AllTight(p) && PiecesOf(nodes, maxTokens, count) <= p
    ensures Holds(PackNodes(nodes, maxTokens, count), p, |PiecesOf(nodes, maxTokens, count)|, maxTokens, count)
  {
    if nodes != [] {
      var front, node := nodes[..|nodes| - 1], nodes[|nodes| - 1];
      assert forall n :: n in front ==> n in nodes;
      assert node in nodes;
      var pieces, more := PiecesOf(front, maxTokens, count), BudgetedSentences(node.content, maxTokens, count);
      PrefixOfSum(pieces, more, p);
      TextRunHolds(front, p, maxTokens, count);
      PiecesKeepHolds(PackNodes(front, maxTokens, count), p, |pieces|, |pieces + more|, node.sources, maxTokens, count);
    }
  }

  lemma PrefixOfSum(a: seq<string>, b: seq<string>, p: seq<string>)
    requires a + b <= p
    ensures a <= p && p[|a|..|a + b|] == b
  {
    assert a + b == p[..|a + b|];
    assert a == (a + b)[..|a|];
    assert b == (a + b)[|a|..];
  }

  // ---------------------------------------------------------------- runs between other nodes

  lemma {:induction false} PackNodesIsPackFrom(a: seq<ChunkNode>, b: seq<ChunkNode>, maxTokens: nat,
                                               count: TokenCounter)
    ensures PackNodes(a + b, maxTokens, count) == PackFrom(PackNodes(a, maxTokens, count), b, maxTokens, count)
  {
    if b == [] {
      assert a + b == a;
    } else {
      assert (a + b)[..|a + b| - 1] == a + b[..|b| - 1];
      PackNodesIsPackFrom(a, b[..|b| - 1], maxTokens, count);
    }
  }

  /** Chunks already made play no further part. */
  function After(before: seq<ChunkNode>, p: Packing): Packing {
    p.(chunks := before + p.chunks)
  }

  lemma {:induction false} PackPiecesAfter(before: seq<ChunkNode>, p: Packing, pieces: seq<string>, sources: seq<nat>,
                                           maxTokens: nat, count: TokenCounter)
    ensures PackPieces(After(before, p), pieces, sources, maxTokens, count)
            == After(before, PackPieces(p, pieces, sources, maxTokens, count))
  {
    if pieces != [] {
      PackPiecesAfter(before, p, pieces[..|pieces| - 1], sources, maxTokens, count);
      FlushAfter(before, PackPieces(p, pieces[..|pieces| - 1], sources, maxTokens, count));
    }
  }

  lemma FlushAfter(before: seq<ChunkNode>, p: Packing)
    ensures Flush(After(before, p)) == After(before, Flush(p))
  {
    if p.pending.Some? {
      var node := p.pending.value.(content := Strip(p.pending.value.content));
      assert before + (p.chunks + [node]) == (before + p.chunks) + [node];
    }
  }

  lemma {:induction false} PackFromAfter(before: seq<ChunkNode>, p: Packing, nodes: seq<ChunkNode>, maxTokens: nat,
                                         count: TokenCounter)
    ensures PackFrom(After(before, p), nodes, maxTokens, count) == After(before, PackFrom(p, nodes, maxTokens, count))
  {
    if nodes != [] {
      var front, node := nodes[..|nodes| - 1], nodes[|nodes| - 1];
      PackFromAfter(before, p, front, maxTokens, count);
      var q := PackFrom(p, front, maxTokens, count);
      if node.nodeType.Text? {
        PackPiecesAfter(before, q, BudgetedSentences(node.content, maxTokens, count), node.sources, maxTokens, count);
      } else {
        FlushAfter(before, q);
        assert before + (Flush(q).chunks + [node]) == (before + Flush(q).chunks) + [node];
      }
    }
  }

  /** A node that is not text separates: what comes before and after it is packed independently,
      and it becomes one chunk by itself. */
  lemma SplitAtOtherNode(a: seq<ChunkNode>, other: ChunkNode, b: seq<ChunkNode>, maxTokens: nat, count: TokenCounter)
    requires !other.nodeType.Text?
    ensures Split(a + [other] + b, maxTokens, count)
            == Split(a, maxTokens, count) + [other] + Split(b, maxTokens, count)
  {
    var left := a + [other];
    assert left[..|a|] == a;
    var made := Split(a, maxTokens, count) + [other];
    assert PackNodes(left, maxTokens, count) == Packing(made, None);
    PackNodesIsPackFrom(left, b, maxTokens, count);
    assert [] + b == b;
    PackNodesIsPackFrom([], b, maxTokens, count);
    assert made + [] == made;
    PackFromAfter(made, Packing([], None), b, maxTokens, count);
    FlushAfter(made, PackNodes(b, maxTokens, count));
  }

  /** On a run of text nodes the packer makes the greedy runs, and so the fewest: no partition of
      the run's pieces into contiguous runs that each fit or are one piece has fewer. */
  lemma TextRunsArePackedOptimally(nodes: seq<ChunkNode>, starts: seq<nat>, maxTokens: nat, count: TokenCounter)
    requires NoneBlank(nodes) && forall n :: n in nodes ==> n.nodeType.Text?
    ensures var p, chunks := PiecesOf(nodes, maxTokens, count), Split(nodes, maxTokens, count);
            var greedy := GreedyStarts(p, |p|, maxTokens, count);
            && Partition(p, |p|, greedy, maxTokens, count)
            && |chunks| == |greedy|
            && (forall k :: 0 <= k < |greedy| ==> IsRun(chunks[k], p, greedy, k))
            && (SubRunsFit(p, maxTokens, count) && Partition(p, |p|, starts, maxTokens, count) ==>
                  |chunks| <= |starts|)
  {
    var p, chunks := PiecesOf(nodes, maxTokens, count), Split(nodes, maxTokens, count);
    var greedy := GreedyStarts(p, |p|, maxTokens, count);
    GreedyIsAPartition(p, |p|, maxTokens, count);
    SplitIsGreedy(nodes, maxTokens, count);
    if p != [] {
      ClosedLength(p, |p|, maxTokens, count);
    }
    forall k | 0 <= k < |greedy| ensures IsRun(chunks[k], p, greedy, k) {
      GreedyRunIsChunk(chunks, p, k, maxTokens, count);
    }
    if SubRunsFit(p, maxTokens, count) && Partition(p, |p|, starts, maxTokens, count) {
      GreedyIsFewest(p, |p|, starts, maxTokens, count);
    }
  }

  /** The chunk is run `k` of the pieces. */
  predicate IsRun(chunk: ChunkNode, p: seq<string>, starts: seq<nat>, k: nat)
    requires k < |starts|
  {
    && RunEnds(starts, k, |p|) && chunk.nodeType.Text?
    && chunk.content == Joined(p, starts[k], EndOf(starts, k, |p|))
  }

  lemma GreedyRunIsChunk(chunks: seq<ChunkNode>, p: seq<string>, k: nat, maxTokens: nat, count: TokenCounter)
    requires p != [] && k < |chunks| == |GreedyStarts(p, |p|, maxTokens, count)|
    requires Shapes(chunks) == Closed(p, |p|, maxTokens, count)
                               + [(Joined(p, Last(GreedyStarts(p, |p|, maxTokens, count)), |p|), Text)]
    ensures IsRun(chunks[k], p, GreedyStarts(p, |p|, maxTokens, count), k)
  {
    ClosedLength(p, |p|, maxTokens, count);
    ShapesAt(chunks, k);
    if k < |chunks| - 1 {
      var a, b := ClosedRuns(p, |p|, k, maxTokens, count);
    }
  }

  lemma SplitIsGreedy(nodes: seq<ChunkNode>, maxTokens: nat, count: TokenCounter)
    requires NoneBlank(nodes) && forall n :: n in nodes ==> n.nodeType.Text?
    ensures var p := PiecesOf(nodes, maxTokens, count);
            Shapes(Split(nodes, maxTokens, count)) == Closed(p, |p|, maxTokens, count)
              + if p == [] then [] else [(Joined(p, Last(GreedyStarts(p, |p|, maxTokens, count)), |p|), Text)]
  {
    var p := PiecesOf(nodes, maxTokens, count);
    PiecesAreTight(nodes, maxTokens, count);
    TextRunHolds(nodes, p, maxTokens, count);
    if p != [] {
      JoinedIsTight(p, Last(GreedyStarts(p, |p|, maxTokens, count)), |p|);
      var packing := PackNodes(nodes, maxTokens, count);
      ShapesAdd(packing.chunks, packing.pending.value);
    }
  }
}
