/** What a well-formed event stream is: an acceptor that reads the events one by one, and what
    acceptance means event by event. */
module StreamGrammar {

  import opened Basics

  datatype Kind = TextKind | ThinkingKind | ToolKind

  type Arguments = map<string, string>

  datatype Block =
    | TextBlock(text: string)
    | ThinkingBlock(thinking: string)
    | ToolCall(id: string, name: string, arguments: Arguments)

  datatype StopReason = Stop | Length | ToolUse | Error

  datatype Usage = Usage(input: nat, output: nat, cacheRead: nat, totalTokens: nat)

  datatype Message = Message(
    content: seq<Block>, usage: Usage, stopReason: StopReason,
    responseId: Option<string>, responseModel: Option<string>, kvTransfer: Option<seq<string>>)

  datatype Event =
    | Start
    | BlockStart(kind: Kind, index: nat)
    | BlockDelta(kind: Kind, index: nat, delta: string)
    | BlockEnd(kind: Kind, index: nat, block: Block)
    | Done(reason: StopReason, message: Message)
    | Failed(message: Message)

  function KindOf(b: Block): Kind {
    match b
    case TextBlock(_) => TextKind
    case ThinkingBlock(_) => ThinkingKind
    case ToolCall(_, _, _) => ToolKind
  }

  predicate Terminal(e: Event) {
    e.Done? || e.Failed?
  }

  // ---------------------------------------------------------------- the acceptor

  /** How far a stream has got: the kinds of the blocks begun so far, and which have ended. */
  datatype Phase =
    | Fresh
    | Open(kinds: seq<Kind>)
    | Closing(kinds: seq<Kind>, ended: set<nat>)
    | Over
    | Rejected

  predicate AllEnded(kinds: seq<Kind>, ended: set<nat>) {
    forall i: nat :: i < |kinds| ==> i in ended
  }

  function Read(phase: Phase, e: Event): Phase {
    match (phase, e)
    case (Fresh, Start) => Open([])
    case (Fresh, Failed(_)) => Over
    case (Open(kinds), BlockStart(k, i)) => if i == |kinds| then Open(kinds + [k]) else Rejected
    case (Open(kinds), BlockDelta(k, i, _)) => if i < |kinds| && kinds[i] == k then phase else Rejected
    case (Open(kinds), BlockEnd(k, i, b)) =>
      if i < |kinds| && kinds[i] == k == KindOf(b) then Closing(kinds, {i}) else Rejected
    case (Open(kinds), Done(_, _)) => if kinds == [] then Over else Rejected
    case (Open(_), Failed(_)) => Over
    case (Closing(kinds, ended), BlockEnd(k, i, b)) =>
      if i < |kinds| && kinds[i] == k == KindOf(b) && i !in ended then Closing(kinds, ended + {i}) else Rejected
    case (Closing(kinds, ended), Done(_, _)) => if AllEnded(kinds, ended) then Over else Rejected
    case _ => Rejected
  }

  function Accept(log: seq<Event>): Phase {
    if log == [] then Fresh else Read(Accept(log[..|log| - 1]), log[|log| - 1])
  }

  lemma AcceptPush(log: seq<Event>, e: Event)
    ensures Accept(log + [e]) == Read(Accept(log), e)
  {
    assert (log + [e])[..|log|] == log;
  }

  // ---------------------------------------------------------------- what acceptance means

  function KindsStarted(log: seq<Event>): seq<Kind> {
    if log == [] then []
    else KindsStarted(log[..|log| - 1]) + if log[|log| - 1].BlockStart? then [log[|log| - 1].kind] else []
  }

  /** The kinds the acceptor remembers are those of the block starts, in order. */
  lemma {:induction false} RememberedKinds(log: seq<Event>)
    ensures Accept(log).Open? || Accept(log).Closing? ==> Accept(log).kinds == KindsStarted(log)
    ensures Accept(log).Fresh? ==> log == []
  {
    if log != [] {
      RememberedKinds(log[..|log| - 1]);
    }
  }

  lemma {:induction false} PrefixesAreAccepted(log: seq<Event>, n: nat)
    requires !Accept(log).Rejected? && n <= |log|
    ensures !Accept(log[..n]).Rejected?
  {
    if n == |log| {
      assert log[..n] == log;
    } else {
      assert log[..|log| - 1][..n] == log[..n];
      PrefixesAreAccepted(log[..|log| - 1], n);
    }
  }

  lemma NextAccepted(log: seq<Event>, n: nat)
    requires !Accept(log).Rejected? && n < |log|
    ensures Accept(log[..n + 1]) == Read(Accept(log[..n]), log[n]) && !Accept(log[..n + 1]).Rejected?
  {
    assert log[..n + 1][..n] == log[..n];
    PrefixesAreAccepted(log, n + 1);
  }

  /** One `start`, and it comes first. */
  lemma StartIsFirst(log: seq<Event>, n: nat)
    requires !Accept(log).Rejected? && n < |log|
    ensures log[n].Start? ==> n == 0
    ensures n == 0 ==> log[0].Start? || log[0].Failed?
  {
    NextAccepted(log, n);
    RememberedKinds(log[..n]);
  }

  /** The block starts carry the content indices 0, 1, 2, ... in order. */
  lemma StartsAreNumbered(log: seq<Event>, n: nat)
    requires !Accept(log).Rejected? && n < |log| && log[n].BlockStart?
    ensures log[n].index == |KindsStarted(log[..n])|
  {
    NextAccepted(log, n);
    RememberedKinds(log[..n]);
  }

  lemma {:induction false} KindHasStart(log: seq<Event>, i: nat) returns (j: nat)
    requires !Accept(log).Rejected? && i < |KindsStarted(log)|
    ensures j < |log| && log[j] == BlockStart(KindsStarted(log)[i], i)
  {
    var n := |log| - 1;
    NextAccepted(log, n);
    assert log[..n + 1] == log;
    if i < |KindsStarted(log[..n])| {
      j := KindHasStart(log[..n], i);
    } else {
      j := n;
      StartsAreNumbered(log, n);
    }
  }

  /** Every delta, and every end, comes after the start of its own block. */
  lemma DeltasFollowTheirStart(log: seq<Event>, n: nat) returns (j: nat)
    requires !Accept(log).Rejected? && n < |log| && (log[n].BlockDelta? || log[n].BlockEnd?)
    ensures j < n && log[j] == BlockStart(log[n].kind, log[n].index)
  {
    NextAccepted(log, n);
    RememberedKinds(log[..n]);
    PrefixesAreAccepted(log, n);
    j := KindHasStart(log[..n], log[n].index);
  }

  lemma TerminalEndsReading(phase: Phase, e: Event)
    requires Terminal(e) && !Read(phase, e).Rejected?
    ensures Read(phase, e).Over? && forall next :: Read(Read(phase, e), next).Rejected?
  {
  }

  /** The terminal event is last: nothing follows it. */
  lemma NothingAfterTerminal(log: seq<Event>, n: nat)
    requires !Accept(log).Rejected? && n < |log| && Terminal(log[n])
    ensures n == |log| - 1 && Accept(log).Over?
  {
    NextAccepted(log, n);
    TerminalEndsReading(Accept(log[..n]), log[n]);
    if n < |log| - 1 {
      NextAccepted(log, n + 1);
    }
    assert log[..|log|] == log;
  }

  lemma {:induction false} EndedHasEnd(log: seq<Event>, i: nat) returns (j: nat)
    requires Accept(log).Closing? && i in Accept(log).ended
    ensures j < |log| && log[j].BlockEnd? && log[j].index == i
    ensures forall m :: 0 <= m < |log| && log[m].BlockEnd? && log[m].index == i ==> m == j
    ensures forall m :: 0 <= m < |log| && log[m].BlockDelta? && log[m].index == i ==> m < j
  {
    var n := |log| - 1;
    var before := Accept(log[..n]);
    if before.Closing? && i in before.ended {
      j := EndedHasEnd(log[..n], i);
    } else {
      j := n;
      NotEndedHasNoEnd(log[..n], i);
    }
  }

  lemma {:induction false} NotEndedHasNoEnd(log: seq<Event>, i: nat)
    requires Accept(log).Open? || Accept(log).Fresh? || (Accept(log).Closing? && i !in Accept(log).ended)
    ensures forall m :: 0 <= m < |log| && log[m].BlockEnd? ==> log[m].index != i
  {
    if log != [] {
      NotEndedHasNoEnd(log[..|log| - 1], i);
    }
  }

  /** A stream that ends normally gives every block it began exactly one end of its own kind,
      after all of the block's deltas and before `done`. */
  lemma EveryBlockEndsOnce(log: seq<Event>, i: nat) returns (j: nat)
    requires Accept(log).Over? && log[|log| - 1].Done? && i < |KindsStarted(log)|
    ensures j < |log| - 1 && log[j].BlockEnd? && log[j].index == i
            && log[j].kind == KindsStarted(log)[i] == KindOf(log[j].block)
    ensures forall m :: 0 <= m < |log| && log[m].BlockEnd? && log[m].index == i ==> m == j
    ensures forall m :: 0 <= m < |log| && log[m].BlockDelta? && log[m].index == i ==> m < j
  {
    var front := log[..|log| - 1];
    RememberedKinds(front);
    assert KindsStarted(log) == KindsStarted(front);
    j := LastEnd(front, i);
    EndsHaveTheirKind(log, j);
  }

  /** In a prefix ready for `done`, block `i` has its one end. */
  lemma LastEnd(front: seq<Event>, i: nat) returns (j: nat)
    requires Read(Accept(front), Done(Stop, Message([], Usage(0, 0, 0, 0), Stop, None, None, None))).Over?
    requires i < |KindsStarted(front)|
    ensures j < |front| && front[j].BlockEnd? && front[j].index == i
    ensures forall m :: 0 <= m < |front| && front[m].BlockEnd? && front[m].index == i ==> m == j
    ensures forall m :: 0 <= m < |front| && front[m].BlockDelta? && front[m].index == i ==> m < j
  {
    RememberedKinds(front);
    j := EndedHasEnd(front, i);
  }

  lemma EndsHaveTheirKind(log: seq<Event>, j: nat)
    requires !Accept(log).Rejected? && j < |log| && log[j].BlockEnd?
    ensures log[j].index < |KindsStarted(log)|
    ensures log[j].kind == KindsStarted(log)[log[j].index] == KindOf(log[j].block)
  {
    NextAccepted(log, j);
    RememberedKinds(log[..j]);
    KindsOfPrefix(log, j, log[j].index);
  }

  lemma {:induction false} KindsOfPrefix(log: seq<Event>, n: nat, i: nat)
    requires n <= |log| && i < |KindsStarted(log[..n])|
    ensures i < |KindsStarted(log)| && KindsStarted(log)[i] == KindsStarted(log[..n])[i]
  {
    if n == |log| {
      assert log[..n] == log;
    } else {
      assert log[..|log| - 1][..n] == log[..n];
      KindsOfPrefix(log[..|log| - 1], n, i);
    }
  }

  // ---------------------------------------------------------------- deltas

  /** The deltas of one block, concatenated. */
  function Deltas(log: seq<Event>, i: nat): string {
    if log == [] then []
    else
      var e := log[|log| - 1];
      Deltas(log[..|log| - 1], i) + if e.BlockDelta? && e.index == i then e.delta else []
  }

  lemma DeltasPush(log: seq<Event>, e: Event, i: nat)
    ensures Deltas(log + [e], i) == Deltas(log, i) + if e.BlockDelta? && e.index == i then e.delta else []
  {
    assert (log + [e])[..|log|] == log;
  }

  /** What queueing one event changes. */
  lemma PushMeaning(log: seq<Event>, e: Event)
    ensures Accept(log + [e]) == Read(Accept(log), e)
    ensures forall i: nat ::
              Deltas(log + [e], i) == Deltas(log, i) + if e.BlockDelta? && e.index == i then e.delta else []
  {
    AcceptPush(log, e);
    forall i: nat
      ensures Deltas(log + [e], i) == Deltas(log, i) + if e.BlockDelta? && e.index == i then e.delta else []
    {
      DeltasPush(log, e, i);
    }
  }
}
