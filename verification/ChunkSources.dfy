/** Where chunks come from: every chunk names a contiguous run of the non-blank nodes, no run
    crosses a node that is not text, and together the runs cover the non-blank nodes in order. */
module ChunkSources {
  import opened Basics
  import opened Trimming
  import opened Chunker
  import opened ChunkContent
  import opened ChunkTokens

  /** Positions `lo` to `hi` in the list of non-blank nodes. */
  datatype Span = Span(lo: nat, hi: nat)

  function Ids(nodes: seq<ChunkNode>): (ids: seq<nat>)
    requires forall n :: n in nodes ==> |n.sources| == 1
    ensures |ids| == |nodes|
  {
    seq(|nodes|, i requires 0 <= i < |nodes| => assert nodes[i] in nodes; nodes[i].sources[0])
  }

  ghost predicate Increasing(s: seq<nat>) {
    forall i, j :: 0 <= i < j < |s| ==> s[i] < s[j]
  }

  ghost predicate Plain(nodes: seq<ChunkNode>) {
    && (forall n :: n in nodes ==> |n.sources| == 1)
    && Increasing(Ids(nodes))
  }

  /** A chunk of type `t` with these sources stands for the nodes of `span`: a run of text nodes,
      or one other node whose content it carries unchanged. */
  ghost predicate StandsFor(nodes: seq<ChunkNode>, t: NodeType, content: string, sources: seq<nat>, span: Span)
    requires Plain(nodes)
  {
    && span.lo < span.hi <= |nodes|
    && sources == Ids(nodes)[span.lo..span.hi]
    && (t.Text? ==> forall i :: span.lo <= i < span.hi ==> nodes[i].nodeType.Text?)
    && (!t.Text? ==> span.hi == span.lo + 1 && nodes[span.lo].nodeType == t && nodes[span.lo].content == content)
  }

  ghost predicate NodeStandsFor(nodes: seq<ChunkNode>, node: ChunkNode, span: Span)
    requires Plain(nodes)
  {
    StandsFor(nodes, node.nodeType, node.content, node.sources, span)
  }

  // ---------------------------------------------------------------- merging

  /** The spans follow each other without gap or overlap, up to `n`. */
  ghost predicate Tiles(spans: seq<Span>, n: nat) {
    && (n == 0 <==> spans == [])
    && (n > 0 ==> spans[0].lo == 0 && spans[|spans| - 1].hi == n)
    && (forall i, j :: 0 <= i && j == i + 1 && j < |spans| ==> spans[i].hi == spans[j].lo)
  }

  lemma {:induction false} ExtendByNewValues(target: seq<nat>, values: seq<nat>, seen: nat)
    requires seen <= |values| && Increasing(target + values[seen..])
    requires forall i :: 0 <= i < seen ==> values[i] in target
    ensures ExtendUnique(target, values) == target + values[seen..]
  {
    if values != [] {
      var front, last := values[..|values| - 1], values[|values| - 1];
      if seen == |values| {
        assert front[seen - 1..] == values[seen..] == [];
        ExtendByNewValues(target, front, seen - 1);
        assert last in target;
      } else {
        assert target + values[seen..] == target + front[seen..] + [last];
        assert forall i :: 0 <= i < |target + front[seen..]| ==>
               (target + front[seen..])[i] == (target + values[seen..])[i];
        ExtendByNewValues(target, front, seen);
        assert (target + values[seen..])[|target + values[seen..]| - 1] == last;
        assert last !in target + front[seen..];
      }
    }
  }

  /** Adding the sources of `lo..hi` to those of `a..b`, where the runs meet or the first one ends
      with the second, gives the sources of `a..hi`. */
  lemma ExtendRun(ids: seq<nat>, a: nat, b: nat, lo: nat, hi: nat)
    requires Increasing(ids) && a < b && a <= lo < hi <= |ids| && (b == lo || b == hi)
    ensures ExtendUnique(ids[a..b], ids[lo..hi]) == ids[a..hi]
  {
    var target, values, seen := ids[a..b], ids[lo..hi], b - lo;
    assert values[seen..] == ids[b..hi];
    assert target + values[seen..] == ids[a..hi];
    forall i | 0 <= i < seen ensures values[i] in target {
      assert values[i] == target[lo - a + i];
    }
    ExtendByNewValues(target, values, seen);
  }

  ghost predicate AllStandFor(nodes: seq<ChunkNode>, made: seq<ChunkNode>, spans: seq<Span>)
    requires Plain(nodes)
  {
    && |spans| == |made|
    && forall i :: 0 <= i < |spans| ==> NodeStandsFor(nodes, made[i], spans[i])
  }

  lemma AddSpan(nodes: seq<ChunkNode>, merged: seq<ChunkNode>, before: seq<Span>, k: nat, node: ChunkNode, span: Span)
    requires Plain(nodes) && Tiles(before, k) && AllStandFor(nodes, merged, before)
    requires span.lo == k && NodeStandsFor(nodes, node, span)
    ensures Tiles(before + [span], span.hi) && AllStandFor(nodes, merged + [node], before + [span])
  {
  }

  lemma MergeStepSpans(nodes: seq<ChunkNode>, merged: seq<ChunkNode>, before: seq<Span>, k: nat, maxTokens: nat,
                       count: TokenCounter)
    returns (spans: seq<Span>)
    requires Plain(nodes) && k < |nodes| && Tiles(before, k) && AllStandFor(nodes, merged, before)
    ensures Tiles(spans, k + 1) && AllStandFor(nodes, MergeNode(merged, nodes[k], maxTokens, count), spans)
  {
    var node := nodes[k];
    assert node in nodes;
    assert Ids(nodes)[k..k + 1] == node.sources;
    if MergeNode(merged, node, maxTokens, count) == merged + [node] {
      spans := before + [Span(k, k + 1)];
      AddSpan(nodes, merged, before, k, node, Span(k, k + 1));
    } else {
      var last := merged[|merged| - 1];
      spans := GrowLastSpan(nodes, merged, before, k, JoinWithNodeSpacing(last.content, node));
    }
  }

  /** The last merged node grown by node `k`. */
  lemma GrowLastSpan(nodes: seq<ChunkNode>, merged: seq<ChunkNode>, before: seq<Span>, k: nat, content: string)
    returns (spans: seq<Span>)
    requires Plain(nodes) && k < |nodes| && Tiles(before, k) && AllStandFor(nodes, merged, before)
    requires merged != [] && merged[|merged| - 1].nodeType.Text? && nodes[k].nodeType.Text?
    requires nodes[k].sources == Ids(nodes)[k..k + 1]
    ensures Tiles(spans, k + 1)
    ensures var m := |merged| - 1;
            var made := merged[m].(content := content, sources := ExtendUnique(merged[m].sources, nodes[k].sources));
            AllStandFor(nodes, merged[..m] + [made], spans)
  {
    var m := |before| - 1;
    var rest, grown := before[..m], Span(before[m].lo, k + 1);
    assert NodeStandsFor(nodes, merged[m], before[m]);
    ExtendRun(Ids(nodes), before[m].lo, k, k, k + 1);
    var made := merged[m].(content := content, sources := ExtendUnique(merged[m].sources, nodes[k].sources));
    assert NodeStandsFor(nodes, made, grown);
    FrontTiles(before, k);
    AddSpan(nodes, merged[..m], rest, before[m].lo, made, grown);
    spans := rest + [grown];
  }

  lemma FrontTiles(spans: seq<Span>, n: nat)
    requires Tiles(spans, n) && spans != [] && forall i :: 0 <= i < |spans| ==> spans[i].lo < spans[i].hi
    ensures Tiles(spans[..|spans| - 1], spans[|spans| - 1].lo)
  {
    var m := |spans| - 1;
    assert m == 0 || spans[m - 1].hi == spans[m].lo;
  }

  lemma {:induction false} MergedSpans(nodes: seq<ChunkNode>, k: nat, maxTokens: nat, count: TokenCounter)
    returns (spans: seq<Span>)
    requires Plain(nodes) && k <= |nodes|
    ensures Tiles(spans, k) && AllStandFor(nodes, Merge(nodes[..k], maxTokens, count), spans)
  {
    if k == 0 {
      spans := [];
    } else {
      assert nodes[..k][..k - 1] == nodes[..k - 1];
      spans := MergedSpans(nodes, k - 1, maxTokens, count);
      spans := MergeStepSpans(nodes, Merge(nodes[..k - 1], maxTokens, count), spans, k - 1, maxTokens, count);
    }
  }

  // ---------------------------------------------------------------- packing

  /** Two neighbouring chunks: never backwards, never a gap, and no overlap at a node that is not
      text. */
  ghost predicate Linked(a: Span, b: Span, someOther: bool) {
    a.lo <= b.lo <= a.hi <= b.hi && (someOther ==> b.lo == a.hi)
  }

  ghost predicate Chain(chunks: seq<ChunkNode>, spans: seq<Span>, n: nat)
    requires |chunks| == |spans|
  {
    && (n == 0 <==> spans == [])
    && (n > 0 ==> spans[0].lo == 0 && spans[|spans| - 1].hi == n)
    && (forall i, j :: 0 <= i && j == i + 1 && j < |spans| ==>
          Linked(spans[i], spans[j], !chunks[i].nodeType.Text? || !chunks[j].nodeType.Text?))
  }

  /** The chunks made so far, the pending one last. */
  function Made(p: Packing): seq<ChunkNode> {
    p.chunks + if p.pending.None? then [] else [p.pending.value]
  }

  ghost predicate Spanned(nodes: seq<ChunkNode>, p: Packing, spans: seq<Span>, n: nat)
    requires Plain(nodes)
  {
    && AllStandFor(nodes, Made(p), spans)
    && Chain(Made(p), spans, n)
    && (p.pending.Some? ==>
        p.pending.value.nodeType.Text? && p.pending.value.content != [] && Tight(p.pending.value.content, IsWhitespace))
    && (forall c :: c in p.chunks ==> c.content != [] && Tight(c.content, IsWhitespace))
  }

  lemma FlushIsSpanned(nodes: seq<ChunkNode>, p: Packing, spans: seq<Span>, n: nat)
    requires Plain(nodes) && Spanned(nodes, p, spans, n)
    ensures Spanned(nodes, Flush(p), spans, n) && Flush(p) == Packing(Made(p), None)
  {
    if p.pending.Some? {
      TrimOfTight(p.pending.value.content, IsWhitespace);
    }
    assert Made(Flush(p)) == Made(p);
  }

  /** A new pending chunk after the chunks made so far. */
  lemma OpenIsSpanned(nodes: seq<ChunkNode>, p: Packing, spans: seq<Span>, n: nat, node: ChunkNode, span: Span)
    requires Plain(nodes) && Spanned(nodes, p, spans, n) && p.pending.None?
    requires node.nodeType.Text? && NodeStandsFor(nodes, node, span)
    requires node.content != [] && Tight(node.content, IsWhitespace)
    requires n == span.lo || (n == span.hi && spans != [] && spans[|spans| - 1].lo <= span.lo
                              && p.chunks[|spans| - 1].nodeType.Text?)
    ensures Spanned(nodes, p.(pending := Some(node)), spans + [span], span.hi)
  {
    assert Made(p.(pending := Some(node))) == Made(p) + [node];
    assert spans != [] ==> NodeStandsFor(nodes, Made(p)[|spans| - 1], spans[|spans| - 1]);
  }

  /** The pending chunk grown by more of the text up to `span.hi`. */
  lemma GrowIsSpanned(nodes: seq<ChunkNode>, p: Packing, spans: seq<Span>, n: nat, content: string, span: Span)
    returns (last: Span)
    requires Plain(nodes) && Spanned(nodes, p, spans, n) && p.pending.Some?
    requires span.lo < span.hi <= |nodes| && forall i :: span.lo <= i < span.hi ==> nodes[i].nodeType.Text?
    requires content != [] && Tight(content, IsWhitespace)
    requires n == span.lo || (n == span.hi && spans[|spans| - 1].lo <= span.lo)
    ensures last == Span(spans[|spans| - 1].lo, span.hi) && last.lo <= span.lo
    ensures Spanned(nodes, p.(pending := Some(p.pending.value.(content := content,
                                 sources := ExtendUnique(p.pending.value.sources, Ids(nodes)[span.lo..span.hi])))),
                    spans[..|spans| - 1] + [last], span.hi)
  {
    var m := |spans| - 1;
    last := Span(spans[m].lo, span.hi);
    assert Made(p)[m] == p.pending.value && NodeStandsFor(nodes, p.pending.value, spans[m]);
    ExtendRun(Ids(nodes), spans[m].lo, spans[m].hi, span.lo, span.hi);
    var grown := p.pending.value.(content := content,
                                  sources := ExtendUnique(p.pending.value.sources, Ids(nodes)[span.lo..span.hi]));
    assert NodeStandsFor(nodes, grown, last);
    ReplaceLast(nodes, Made(p), spans, n, grown, last);
    assert Made(p.(pending := Some(grown))) == Made(p)[..m] + [grown];
  }

  lemma ReplaceLast(nodes: seq<ChunkNode>, made: seq<ChunkNode>, spans: seq<Span>, n: nat, node: ChunkNode, span: Span)
    requires Plain(nodes) && AllStandFor(nodes, made, spans) && Chain(made, spans, n) && spans != []
    requires node.nodeType == made[|made| - 1].nodeType && NodeStandsFor(nodes, node, span)
    requires span.lo == spans[|spans| - 1].lo && span.hi >= spans[|spans| - 1].hi
    ensures var m := |spans| - 1; AllStandFor(nodes, made[..m] + [node], spans[..m] + [span])
                                  && Chain(made[..m] + [node], spans[..m] + [span], span.hi)
  {
    var m := |spans| - 1;
    assert m == 0 || Linked(spans[m - 1], spans[m], !made[m - 1].nodeType.Text? || !made[m].nodeType.Text?);
  }

  /** One piece of a text node that stands for `span`. Before its first piece the chunks reach
      `span.lo`, afterwards `span.hi`. */
  lemma PieceIsSpanned(nodes: seq<ChunkNode>, p: Packing, spans: seq<Span>, n: nat, piece: string, node: ChunkNode,
                       span: Span, maxTokens: nat, count: TokenCounter)
    returns (spans': seq<Span>)
    requires Plain(nodes) && Spanned(nodes, p, spans, n)
    requires node.nodeType.Text? && NodeStandsFor(nodes, node, span)
    requires piece != [] && Tight(piece, IsWhitespace)
    requires n == span.lo || (n == span.hi && p.pending.Some? && spans[|spans| - 1].lo <= span.lo)
    ensures var p' := PackPiece(p, TextNode(piece, node.sources), maxTokens, count);
            && Spanned(nodes, p', spans', span.hi) && p'.pending.Some?
            && spans'[|spans'| - 1].lo <= span.lo
  {
    FlushIsSpanned(nodes, p, spans, n);
    if p.pending.None? || count(JoinBudgeted(p.pending.value.content, piece)) > maxTokens {
      OpenIsSpanned(nodes, Flush(p), spans, n, TextNode(piece, node.sources), span);
      spans' := spans + [span];
    } else {
      JoinBudgetedIsTight(p.pending.value.content, piece);
      var last := GrowIsSpanned(nodes, p, spans, n, JoinBudgeted(p.pending.value.content, piece), span);
      spans' := spans[..|spans| - 1] + [last];
    }
  }

  lemma {:induction false} PiecesAreSpanned(nodes: seq<ChunkNode>, p: Packing, spans: seq<Span>, pieces: seq<string>,
                                            node: ChunkNode, span: Span, maxTokens: nat, count: TokenCounter)
    returns (spans': seq<Span>)
    requires Plain(nodes) && Spanned(nodes, p, spans, span.lo)
    requires node.nodeType.Text? && NodeStandsFor(nodes, node, span)
    requires AllTight(pieces) && pieces != []
    ensures var p' := PackPieces(p, pieces, node.sources, maxTokens, count);
            && Spanned(nodes, p', spans', span.hi) && p'.pending.Some?
            && spans'[|spans'| - 1].lo <= span.lo
  {
    var front, last := pieces[..|pieces| - 1], pieces[|pieces| - 1];
    assert last in pieces;
    if front == [] {
      spans' := PieceIsSpanned(nodes, p, spans, span.lo, last, node, span, maxTokens, count);
    } else {
      assert forall s :: s in front ==> s in pieces;
      var spans1 := PiecesAreSpanned(nodes, p, spans, front, node, span, maxTokens, count);
      spans' := PieceIsSpanned(nodes, PackPieces(p, front, node.sources, maxTokens, count), spans1, span.hi, last, node,
                               span, maxTokens, count);
    }
  }

  lemma OtherNodeIsSpanned(nodes: seq<ChunkNode>, p: Packing, spans: seq<Span>, node: ChunkNode, span: Span)
    requires Plain(nodes) && Spanned(nodes, p, spans, span.lo)
    requires !node.nodeType.Text? && NodeStandsFor(nodes, node, span)
    requires node.content != [] && Tight(node.content, IsWhitespace)
    ensures Spanned(nodes, Flush(p).(chunks := Flush(p).chunks + [node]), spans + [span], span.hi)
  {
    FlushIsSpanned(nodes, p, spans, span.lo);
    var p' := Flush(p).(chunks := Flush(p).chunks + [node]);
    assert Made(p') == Made(p) + [node];
  }

  lemma PiecesExist(text: string, maxTokens: nat, count: TokenCounter)
    requires text != [] && Tight(text, IsWhitespace)
    ensures BudgetedSentences(text, maxTokens, count) != [] && AllTight(BudgetedSentences(text, maxTokens, count))
  {
    TrimOfTight(text, IsWhitespace);
    PiecesKeepInk(text, maxTokens, count);
    assert Inked(text) != [];
  }

  lemma {:induction false} PackingIsSpanned(nodes: seq<ChunkNode>, merged: seq<ChunkNode>, mspans: seq<Span>, k: nat,
                                            maxTokens: nat, count: TokenCounter)
    returns (spans: seq<Span>)
    requires Plain(nodes) && AllStandFor(nodes, merged, mspans) && k <= |merged|
    requires mspans != [] ==> mspans[0].lo == 0
    requires forall i, j :: 0 <= i && j == i + 1 && j < |mspans| ==> mspans[i].hi == mspans[j].lo
    requires forall n :: n in merged ==> n.content != [] && Tight(n.content, IsWhitespace)
    ensures Spanned(nodes, PackNodes(merged[..k], maxTokens, count), spans, if k == 0 then 0 else mspans[k - 1].hi)
  {
    if k == 0 {
      spans := [];
    } else {
      var before := PackingIsSpanned(nodes, merged, mspans, k - 1, maxTokens, count);
      PackNext(merged, k - 1, maxTokens, count);
      var node, span := merged[k - 1], mspans[k - 1];
      assert node in merged && NodeStandsFor(nodes, node, span);
      assert k > 1 ==> mspans[k - 2].hi == span.lo;
      spans := NodeIsSpanned(nodes, PackNodes(merged[..k - 1], maxTokens, count), before, node, span, maxTokens, count);
    }
  }

  lemma NodeIsSpanned(nodes: seq<ChunkNode>, p: Packing, before: seq<Span>, node: ChunkNode, span: Span,
                      maxTokens: nat, count: TokenCounter)
    returns (spans: seq<Span>)
    requires Plain(nodes) && Spanned(nodes, p, before, span.lo) && NodeStandsFor(nodes, node, span)
    requires node.content != [] && Tight(node.content, IsWhitespace)
    ensures Spanned(nodes, PackNode(p, node, maxTokens, count), spans, span.hi)
  {
    if node.nodeType.Text? {
      PiecesExist(node.content, maxTokens, count);
      var pieces := BudgetedSentences(node.content, maxTokens, count);
      spans := PiecesAreSpanned(nodes, p, before, pieces, node, span, maxTokens, count);
    } else {
      OtherNodeIsSpanned(nodes, p, before, node, span);
      spans := before + [span];
    }
  }

  // ---------------------------------------------------------------- the pipeline

  function Indices(nodes: seq<ParseNode>): (s: seq<nat>)
    ensures |s| == |nodes|
  {
    seq(|nodes|, i requires 0 <= i < |nodes| => nodes[i].index)
  }

  lemma AddToIncreasing(s: seq<nat>, x: nat)
    requires Increasing(s) && forall y :: y in s ==> y < x
    ensures Increasing(s + [x])
  {
    assert forall i :: 0 <= i < |s| ==> s[i] in s;
  }

  /** The ids the filter keeps, in order, are those of the nodes that are not blank. */
  lemma {:induction false} ProcessedIds(nodes: seq<ParseNode>)
    ensures forall n :: n in ProcessParseNodes(nodes) ==> |n.sources| == 1
    ensures forall id :: id in Ids(ProcessParseNodes(nodes)) <==>
                         exists i :: 0 <= i < |nodes| && nodes[i].index == id && Strip(nodes[i].content) != []
  {
    if nodes != [] {
      var n := |nodes| - 1;
      var before := ProcessParseNodes(nodes[..n]);
      ProcessedIds(nodes[..n]);
      assert forall i :: 0 <= i < n ==> nodes[..n][i] == nodes[i];
      if Strip(nodes[n].content) != [] {
        IdsAdd(before, FromParseNode(nodes[n]).(content := Strip(nodes[n].content)));
      } else {
        assert ProcessParseNodes(nodes) == before;
      }
    }
  }

  lemma IdsAdd(nodes: seq<ChunkNode>, node: ChunkNode)
    requires (forall n :: n in nodes ==> |n.sources| == 1) && |node.sources| == 1
    ensures (forall n :: n in nodes + [node] ==> |n.sources| == 1)
            && Ids(nodes + [node]) == Ids(nodes) + [node.sources[0]]
  {
  }

  lemma {:induction false} ProcessedIsPlain(nodes: seq<ParseNode>)
    requires Increasing(Indices(nodes))
    ensures Plain(ProcessParseNodes(nodes))
  {
    ProcessedIds(nodes);
    if nodes != [] {
      var n := |nodes| - 1;
      var before := ProcessParseNodes(nodes[..n]);
      assert forall i :: 0 <= i < n ==> Indices(nodes[..n])[i] == Indices(nodes)[i];
      ProcessedIsPlain(nodes[..n]);
      ProcessedIds(nodes[..n]);
      if Strip(nodes[n].content) != [] {
        forall id | id in Ids(before) ensures id < nodes[n].index {
          var i :| 0 <= i < n && nodes[..n][i].index == id;
          assert Indices(nodes)[i] < Indices(nodes)[n];
        }
        IdsAdd(before, FromParseNode(nodes[n]).(content := Strip(nodes[n].content)));
        AddToIncreasing(Ids(before), nodes[n].index);
      } else {
        assert ProcessParseNodes(nodes) == before;
      }
    }
  }

  function PartOf(node: ChunkNode, count: TokenCounter): ChunkPart {
    ChunkPart(node.content, node.nodeType, List, count(node.content), node.sources)
  }

  lemma PartOfTightNode(front: seq<ChunkNode>, node: ChunkNode, count: TokenCounter)
    requires node.content != [] && Tight(node.content, IsWhitespace)
    ensures ToParts(front + [node], count) == ToParts(front, count) + [PartOf(node, count)]
  {
    assert (front + [node])[..|front|] == front;
    TrimOfTight(node.content, IsWhitespace);
  }

  lemma {:induction false} PartsOfTightNodes(nodes: seq<ChunkNode>, count: TokenCounter)
    requires forall i :: 0 <= i < |nodes| ==> nodes[i].content != [] && Tight(nodes[i].content, IsWhitespace)
    ensures ToParts(nodes, count) == seq(|nodes|, i requires 0 <= i < |nodes| => PartOf(nodes[i], count))
  {
    if nodes != [] {
      var n := |nodes| - 1;
      PartsOfTightNodes(nodes[..n], count);
      PartOfTightNode(nodes[..n], nodes[n], count);
      assert nodes == nodes[..n] + [nodes[n]];
    }
  }

  ghost predicate PartsChain(parts: seq<ChunkPart>, spans: seq<Span>, n: nat)
    requires |parts| == |spans|
  {
    && (n == 0 <==> spans == [])
    && (n > 0 ==> spans[0].lo == 0 && spans[|spans| - 1].hi == n)
    && (forall i, j :: 0 <= i && j == i + 1 && j < |spans| ==>
          Linked(spans[i], spans[j], !parts[i].chunkType.Text? || !parts[j].chunkType.Text?))
  }

  /** For strictly increasing node indices: each chunk stands for a contiguous run of the non-blank
      nodes, all text, or for a single other node; the runs begin at the first non-blank node, end
      at the last, leave no gap, and overlap only between text chunks. */
  lemma ChunksStandForRuns(nodes: seq<ParseNode>, maxTokens: nat, count: TokenCounter) returns (spans: seq<Span>)
    requires Increasing(Indices(nodes))
    ensures var kept, parts := ProcessParseNodes(nodes), Chunks(nodes, maxTokens, count);
            && Plain(kept)
            && |spans| == |parts|
            && (forall i :: 0 <= i < |parts| ==>
                  StandsFor(kept, parts[i].chunkType, parts[i].content, parts[i].sources, spans[i]))
            && PartsChain(parts, spans, |kept|)
  {
    var budget := Max(maxTokens, 1);
    ProcessedIsPlain(nodes);
    MergedNodes(nodes, budget, count);
    spans := PackedSpans(ProcessParseNodes(nodes), budget, count);
    PartsStand(ProcessParseNodes(nodes), ChunkNodes(nodes, maxTokens, count), spans, count);
  }

  lemma PackedSpans(kept: seq<ChunkNode>, maxTokens: nat, count: TokenCounter) returns (spans: seq<Span>)
    requires Plain(kept)
    requires forall n :: n in Merge(kept, maxTokens, count) ==> n.content != [] && Tight(n.content, IsWhitespace)
    ensures var chunks := Split(Merge(kept, maxTokens, count), maxTokens, count);
            && AllStandFor(kept, chunks, spans)
            && Chain(chunks, spans, |kept|)
            && forall c :: c in chunks ==> c.content != [] && Tight(c.content, IsWhitespace)
  {
    assert kept[..|kept|] == kept;
    var merged := Merge(kept, maxTokens, count);
    var mspans := MergedSpans(kept, |kept|, maxTokens, count);
    assert merged[..|merged|] == merged;
    spans := PackingIsSpanned(kept, merged, mspans, |merged|, maxTokens, count);
    var p := PackNodes(merged, maxTokens, count);
    FlushIsSpanned(kept, p, spans, |kept|);
    assert Made(Flush(p)) == Flush(p).chunks;
  }

  lemma PartsStand(kept: seq<ChunkNode>, chunks: seq<ChunkNode>, spans: seq<Span>, count: TokenCounter)
    requires Plain(kept) && AllStandFor(kept, chunks, spans) && Chain(chunks, spans, |kept|)
    requires forall c :: c in chunks ==> c.content != [] && Tight(c.content, IsWhitespace)
    ensures var parts := ToParts(chunks, count);
            && |spans| == |parts|
            && (forall i :: 0 <= i < |parts| ==>
                  StandsFor(kept, parts[i].chunkType, parts[i].content, parts[i].sources, spans[i]))
            && PartsChain(parts, spans, |kept|)
  {
    PartsOfTightNodes(chunks, count);
    var parts := ToParts(chunks, count);
    forall i | 0 <= i < |parts|
      ensures StandsFor(kept, parts[i].chunkType, parts[i].content, parts[i].sources, spans[i])
    {
      assert NodeStandsFor(kept, chunks[i], spans[i]);
    }
  }

  lemma {:induction false} ChainOrder(parts: seq<ChunkPart>, spans: seq<Span>, n: nat, i: nat, j: nat)
    requires |parts| == |spans| && PartsChain(parts, spans, n) && i <= j < |spans|
    ensures spans[i].lo <= spans[j].lo && spans[i].hi <= spans[j].hi
    ensures i < j && (!parts[i].chunkType.Text? || !parts[j].chunkType.Text?) ==> spans[i].hi <= spans[j].lo
    decreases j - i
  {
    if i < j {
      ChainOrder(parts, spans, n, i, j - 1);
      ChainOrder(parts, spans, n, i + 1, j);
      assert Linked(spans[j - 1], spans[j], !parts[j - 1].chunkType.Text? || !parts[j].chunkType.Text?);
      assert Linked(spans[i], spans[i + 1], !parts[i].chunkType.Text? || !parts[i + 1].chunkType.Text?);
    }
  }

  lemma {:induction false} ChainCovers(parts: seq<ChunkPart>, spans: seq<Span>, n: nat, x: nat, k: nat) returns (i: nat)
    requires |parts| == |spans| && PartsChain(parts, spans, n) && k < |spans| && x < spans[k].hi
    ensures i < |spans| && spans[i].lo <= x < spans[i].hi
    decreases k
  {
    if spans[k].lo <= x {
      i := k;
    } else {
      assert Linked(spans[k - 1], spans[k], !parts[k - 1].chunkType.Text? || !parts[k].chunkType.Text?);
      i := ChainCovers(parts, spans, n, x, k - 1);
    }
  }

  lemma SourcesOfOne(kept: seq<ChunkNode>, part: ChunkPart, span: Span)
    requires Plain(kept) && StandsFor(kept, part.chunkType, part.content, part.sources, span)
    ensures Increasing(part.sources) && part.sources != []
    ensures forall id :: id in part.sources ==> id in Ids(kept)
    ensures forall x :: span.lo <= x < span.hi ==> Ids(kept)[x] in part.sources
  {
    var ids := Ids(kept);
    forall x | span.lo <= x < span.hi ensures ids[x] in part.sources {
      assert part.sources[x - span.lo] == ids[x];
    }
  }

  /** Every chunk has strictly increasing sources among the non-blank nodes; every non-blank node
      is in some chunk. */
  lemma SourcesCoverTheNodes(nodes: seq<ParseNode>, maxTokens: nat, count: TokenCounter)
    requires Increasing(Indices(nodes))
    ensures var kept, parts := ProcessParseNodes(nodes), Chunks(nodes, maxTokens, count);
            && Plain(kept)
            && (forall part :: part in parts ==>
                  Increasing(part.sources) && part.sources != [] && forall id :: id in part.sources ==> id in Ids(kept))
            && (forall x :: 0 <= x < |kept| ==> exists part :: part in parts && Ids(kept)[x] in part.sources)
  {
    var kept, parts := ProcessParseNodes(nodes), Chunks(nodes, maxTokens, count);
    var spans := ChunksStandForRuns(nodes, maxTokens, count);
    forall i | 0 <= i < |parts|
      ensures Increasing(parts[i].sources) && parts[i].sources != [] && forall id :: id in parts[i].sources ==>
              id in Ids(kept)
    {
      SourcesOfOne(kept, parts[i], spans[i]);
    }
    forall x | 0 <= x < |kept| ensures exists part :: part in parts && Ids(kept)[x] in part.sources {
      var i := ChainCovers(parts, spans, |kept|, x, |spans| - 1);
      SourcesOfOne(kept, parts[i], spans[i]);
      assert parts[i] in parts;
    }
  }

  /** A node that is not text is alone in exactly one chunk, its content unchanged. */
  lemma OtherNodesAreAlone(nodes: seq<ParseNode>, maxTokens: nat, count: TokenCounter, x: nat) returns (i: nat)
    requires Increasing(Indices(nodes))
    requires x < |ProcessParseNodes(nodes)| && !ProcessParseNodes(nodes)[x].nodeType.Text?
    ensures var kept, parts := ProcessParseNodes(nodes), Chunks(nodes, maxTokens, count);
            && Plain(kept) && i < |parts|
            && parts[i].sources == [Ids(kept)[x]]
            && parts[i].chunkType == kept[x].nodeType && parts[i].content == kept[x].content
            && forall j :: 0 <= j < |parts| && Ids(kept)[x] in parts[j].sources ==> j == i
  {
    var spans := ChunksStandForRuns(nodes, maxTokens, count);
    i := AloneIn(ProcessParseNodes(nodes), Chunks(nodes, maxTokens, count), spans, x);
  }

  lemma AloneIn(kept: seq<ChunkNode>, parts: seq<ChunkPart>, spans: seq<Span>, x: nat) returns (i: nat)
    requires Plain(kept) && |spans| == |parts| && PartsChain(parts, spans, |kept|)
    requires forall i :: 0 <= i < |parts| ==>
               StandsFor(kept, parts[i].chunkType, parts[i].content, parts[i].sources, spans[i])
    requires x < |kept| && !kept[x].nodeType.Text?
    ensures i < |parts| && parts[i].sources == [Ids(kept)[x]]
    ensures parts[i].chunkType == kept[x].nodeType && parts[i].content == kept[x].content
    ensures forall j :: 0 <= j < |parts| && Ids(kept)[x] in parts[j].sources ==> j == i
  {
    i := ChainCovers(parts, spans, |kept|, x, |spans| - 1);
    SourcesOfOne(kept, parts[i], spans[i]);
    OnlyChunkOf(kept, parts[i], spans[i], x);
    forall j: nat | j < |parts| && Ids(kept)[x] in parts[j].sources ensures j == i {
      OnlyChunkOf(kept, parts[j], spans[j], x);
      SameSpanSameChunk(parts, spans, |kept|, x, if i < j then i else j, if i < j then j else i);
    }
  }

  lemma SameSpanSameChunk(parts: seq<ChunkPart>, spans: seq<Span>, n: nat, x: nat, i: nat, j: nat)
    requires |parts| == |spans| && PartsChain(parts, spans, n) && i <= j < |spans|
    requires spans[i] == Span(x, x + 1) == spans[j] && !parts[i].chunkType.Text?
    ensures i == j
  {
    ChainOrder(parts, spans, n, i, j);
  }

  lemma OnlyChunkOf(kept: seq<ChunkNode>, part: ChunkPart, span: Span, x: nat)
    requires Plain(kept) && StandsFor(kept, part.chunkType, part.content, part.sources, span)
    requires x < |kept| && !kept[x].nodeType.Text? && Ids(kept)[x] in part.sources
    ensures span == Span(x, x + 1) && !part.chunkType.Text?
  {
    var ids := Ids(kept);
    var k :| 0 <= k < |part.sources| && part.sources[k] == ids[x];
    assert ids[span.lo + k] == ids[x];
    assert span.lo + k == x;
  }
}
