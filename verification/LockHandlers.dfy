/** What the lock steps add up to: a request that is not interrupted does to the coordinator what the
    handler does whole. */
module LockHandlers {
  import opened Basics
  import opened FirstSeen
  import opened Refcounts
  import opened KvCacheManager
  import opened LockSteps
  import opened LockProperties

  // ---------------------------------------------------------------- a request on its own

  /** What a request that gets to `pc` has to tell the backend to evict. */
  function Orders(pc: Pc): seq<Hash> {
    match pc
    case Applied(_, _, evicted) => evicted
    case LeaveSnapshots(evicted) => evicted
    case _ => []
  }

  /** `t` takes up to `n` steps and nobody else moves: where that leads, and what is to be evicted. */
  ghost function Alone(st: State, t: Tid, n: nat): (State, seq<Hash>)
    decreases n
  {
    if n == 0 || !CanStep(st, t) then (st, [])
    else
      var next := After(st, t);
      var (end, evicted) := Alone(next, t, n - 1);
      (end, Orders(PcOf(next, t)) + evicted)
  }

  /** As many steps as the longest request takes. */
  const ENOUGH: nat := 7

  ghost predicate OthersHoldNothing(st: State, t: Tid) {
    forall u: Tid :: u != t ==> Holds(PcOf(st, u)) == {}
  }

  /** The request is about to begin, and the coordinator is as its handlers leave it. */
  ghost predicate Ready(st: State, t: Tid, req: Request) {
    && PcOf(st, t) == Started(req) && OthersHoldNothing(st, t)
    && Exact(st.table, Maps(st.sessions), ForkLists(st.forks))
    && (forall f :: f in st.forks ==> f < st.nextForkId && NoDuplicates(st.forks[f].hashes))
  }

  ghost predicate Ended(st: State, t: Tid, end: State) {
    PcOf(end, t).Idle? && forall u: Tid :: u != t ==> PcOf(end, u) == PcOf(st, u)
  }

  /** The request is over, counts are exact again, and what is to be evicted is what lost its last
      holder, once each. */
  ghost predicate Done(st: State, t: Tid, end: State, evicted: seq<Hash>) {
    && Ended(st, t, end) && Exact(end.table, Maps(end.sessions), ForkLists(end.forks))
    && EvictsExactly(Maps(st.sessions), ForkLists(st.forks), Maps(end.sessions), ForkLists(end.forks), evicted)
  }

  ghost predicate EvictsExactly(sessions: map<string, seq<Hash>>, forks: map<nat, seq<Hash>>,
                                sessions': map<string, seq<Hash>>, forks': map<nat, seq<Hash>>, evicted: seq<Hash>)
  {
    && NoDuplicates(evicted)
    && (forall h :: h in evicted <==> Referenced(sessions, forks, h) && !Referenced(sessions', forks', h))
  }

  // ---------------------------------------------------------------- the other requests out of the picture

  /** What a request does at `pc`, as a function to speak of. */
  type Move = (State, Pc) -> (State, Pc)

  ghost const ADVANCE: Move := (st: State, pc: Pc) => if pc.Idle? then (st, pc) else Advance(st, pc)

  ghost function AloneBy(move: Move, st: State, t: Tid, n: nat): (State, seq<Hash>)
    decreases n
  {
    if n == 0 || PcOf(st, t).Idle? then (st, [])
    else
      var (shared, pc) := move(st, PcOf(st, t));
      var (end, evicted) := AloneBy(move, shared.(threads := st.threads[t := pc]), t, n - 1);
      (end, Orders(pc) + evicted)
  }

  ghost function Finish(move: Move, st: State, pc: Pc, n: nat): (State, Pc, seq<Hash>)
    decreases n
  {
    if n == 0 || pc.Idle? then (st, pc, [])
    else
      var (next, pc') := move(st, pc);
      var (end, last, evicted) := Finish(move, next, pc', n - 1);
      (end, last, Orders(pc') + evicted)
  }

  /** The move neither looks at the requests under way nor touches them. */
  ghost predicate Blind(move: Move) {
    forall st: State, threads: map<Tid, Pc>, pc: Pc :: BlindAt(move, st, threads, pc)
  }

  ghost predicate BlindAt(move: Move, st: State, threads: map<Tid, Pc>, pc: Pc) {
    move(st.(threads := threads), pc) == (move(st, pc).0.(threads := threads), move(st, pc).1)
  }

  lemma {:induction false} FinishWithThreads(move: Move, st: State, threads: map<Tid, Pc>, pc: Pc, n: nat)
    requires Blind(move)
    ensures var (end, last, evicted) := Finish(move, st, pc, n);
            Finish(move, st.(threads := threads), pc, n) == (end.(threads := threads), last, evicted)
    decreases n
  {
    if n > 0 && !pc.Idle? {
      assert BlindAt(move, st, threads, pc);
      FinishWithThreads(move, move(st, pc).0, threads, move(st, pc).1, n - 1);
    }
  }

  /** `end` is `st` after `t` alone has moved, to `last`, with the shared variables as in `shared`. */
  ghost predicate MovedAlone(st: State, t: Tid, end: State, shared: State, last: Pc) {
    && end == shared.(threads := end.threads) && PcOf(end, t) == last
    && forall u: Tid :: u != t ==> PcOf(end, u) == PcOf(st, u)
  }

  lemma {:induction false} AloneByIsFinish(move: Move, st: State, t: Tid, n: nat)
    requires Blind(move)
    ensures var (shared, last, evicted) := Finish(move, st, PcOf(st, t), n);
            MovedAlone(st, t, AloneBy(move, st, t, n).0, shared, last) && AloneBy(move, st, t, n).1 == evicted
    decreases n
  {
    if n > 0 && !PcOf(st, t).Idle? {
      var (shared, pc) := move(st, PcOf(st, t));
      var next := shared.(threads := st.threads[t := pc]);
      assert PcOf(next, t) == pc && forall u: Tid :: u != t ==> PcOf(next, u) == PcOf(st, u);
      AloneByIsFinish(move, next, t, n - 1);
      FinishWithThreads(move, shared, next.threads, pc, n - 1);
    }
  }

  lemma {:induction false} AloneIsAloneBy(st: State, t: Tid, n: nat)
    requires OthersHoldNothing(st, t)
    ensures Alone(st, t, n) == AloneBy(ADVANCE, st, t, n)
    decreases n
  {
    if n > 0 && !PcOf(st, t).Idle? {
      WantsAnother(PcOf(st, t));
      assert forall u: Tid :: u != t ==> PcOf(After(st, t), u) == PcOf(st, u);
      AloneIsAloneBy(After(st, t), t, n - 1);
    }
  }

  lemma AloneIsFinish(st: State, t: Tid, n: nat)
    requires OthersHoldNothing(st, t)
    ensures var (shared, last, evicted) := Finish(ADVANCE, st, PcOf(st, t), n);
            MovedAlone(st, t, Alone(st, t, n).0, shared, last) && Alone(st, t, n).1 == evicted
    ensures Faithful(ADVANCE)
  {
    AloneIsAloneBy(st, t, n);
    AdvanceIsBlind();
    AdvanceIsFaithful();
    AloneByIsFinish(ADVANCE, st, t, n);
  }

  lemma AdvanceIsBlind()
    ensures Blind(ADVANCE)
  {
    forall st: State, threads: map<Tid, Pc>, pc: Pc ensures BlindAt(ADVANCE, st, threads, pc) {
      if !pc.Idle? {
        ThreadsDoNotMatter(st, threads, pc);
      }
    }
  }

  /** The move is what the step model says, wherever that is asked. */
  ghost predicate Faithful(move: Move) {
    forall st: State, pc: Pc :: FaithfulAt(move, st, pc)
  }

  ghost predicate FaithfulAt(move: Move, st: State, pc: Pc) {
    !pc.Idle? ==> move(st, pc) == Advance(st, pc)
  }

  lemma AdvanceIsFaithful()
    ensures Faithful(ADVANCE)
  {
    forall st: State, pc: Pc ensures FaithfulAt(ADVANCE, st, pc) {
    }
  }

  /** One step of it. */
  lemma NextFinish(move: Move, st: State, pc: Pc, next: State, pc': Pc, n: nat)
    requires !pc.Idle? && move(st, pc) == (next, pc') && n > 0
    ensures var rest := Finish(move, next, pc', n - 1);
            var (end, last, evicted) := Finish(move, st, pc, n);
            && end == rest.0 && last == rest.1
            && evicted == if Orders(pc') == [] then rest.2 else Orders(pc') + rest.2
    ensures pc'.Idle? ==> Finish(move, st, pc, n) == (next, Idle, [])
  {
    var rest := Finish(move, next, pc', n - 1);
    assert [] + rest.2 == rest.2;
  }

  lemma ThreadsDoNotMatter(st: State, threads: map<Tid, Pc>, pc: Pc)
    requires !pc.Idle?
    ensures Advance(st.(threads := threads), pc) == (Advance(st, pc).0.(threads := threads), Advance(st, pc).1)
  {
    if pc.WantSessions? || pc.HoldSessionsRefcounts? || pc.Applied? {
      ThreadsDoNotMatterToWriters(st, threads, pc);
    } else if pc.EndWantSnapshots? || pc.EndHoldSnapshotsRefcounts? {
      ThreadsDoNotMatterToEnders(st, threads, pc);
    } else if pc.ForkNumber? || pc.ForkHoldSnapshots? || pc.ForkHoldRefcounts? {
      ThreadsDoNotMatterToForks(st, threads, pc);
    }
  }

  lemma ThreadsDoNotMatterToWriters(st: State, threads: map<Tid, Pc>, pc: Pc)
    requires pc.WantSessions? || pc.HoldSessionsRefcounts? || pc.Applied?
    ensures Advance(st.(threads := threads), pc) == (Advance(st, pc).0.(threads := threads), Advance(st, pc).1)
  {
    if pc.WantSessions? {
      ThreadsDoNotMatterAtFirst(st, threads, pc.req);
    }
  }

  lemma ThreadsDoNotMatterAtFirst(st: State, threads: map<Tid, Pc>, req: Request)
    ensures EnterSessions(st.(threads := threads), req)
            == (EnterSessions(st, req).0.(threads := threads), EnterSessions(st, req).1)
  {
  }

  lemma ThreadsDoNotMatterToEnders(st: State, threads: map<Tid, Pc>, pc: Pc)
    requires pc.EndWantSnapshots? || pc.EndHoldSnapshotsRefcounts?
    ensures Advance(st.(threads := threads), pc) == (Advance(st, pc).0.(threads := threads), Advance(st, pc).1)
  {
  }

  lemma ThreadsDoNotMatterToForks(st: State, threads: map<Tid, Pc>, pc: Pc)
    requires pc.ForkNumber? || pc.ForkHoldSnapshots? || pc.ForkHoldRefcounts?
    ensures Advance(st.(threads := threads), pc) == (Advance(st, pc).0.(threads := threads), Advance(st, pc).1)
  {
  }

  lemma WantsAnother(pc: Pc)
    ensures Wants(pc).Some? ==> Wants(pc).value !in Holds(pc)
  {
  }

  /** What a step computes for eviction is what the request goes on with. */
  lemma EvictionsAreOrdered(st: State, pc: Pc)
    requires !pc.Idle?
    ensures EvictedBy(st, pc) == Orders(Advance(st, pc).1)
  {
  }

  // ---------------------------------------------------------------- sessions

  /** `table'` is `table` with one list exchanged for another, and `evicted` what that leaves at nought. */
  ghost predicate Moved(table: Table, old_: seq<Hash>, new_: seq<Hash>, table': Table, evicted: seq<Hash>) {
    && table' == Incremented(Decremented(table, ToDecrement(old_, new_)), ToIncrement(old_, new_))
    && evicted == Evicted(table, ToDecrement(old_, new_))
  }

  /** Moving the table from the session's old list to `new_` is exact for the sessions with `new_`. */
  lemma ListMoved(table: Table, sessions: map<string, SessionKvState>, forks: map<nat, seq<Hash>>, s: string,
                  new_: seq<Hash>)
    requires Exact(table, Maps(sessions), forks)
    ensures var old_ := StateOf(sessions, s).map_;
            var dec := ToDecrement(old_, new_);
            && Exact(Incremented(Decremented(table, dec), ToIncrement(old_, new_)), Maps(sessions)[s := new_], forks)
            && EvictsExactly(Maps(sessions), forks, Maps(sessions)[s := new_], forks, Evicted(table, dec))
  {
    var old_ := StateOf(sessions, s).map_;
    ExchangeSession(table, ToDecrement(old_, new_), ToIncrement(old_, new_), Maps(sessions), forks, s, new_);
  }

  lemma MoveIs(move: Move, st: State, pc: Pc, next: State, pc': Pc)
    requires Faithful(move) && !pc.Idle? && Advance(st, pc) == (next, pc')
    ensures move(st, pc) == (next, pc')
  {
    assert FaithfulAt(move, st, pc);
  }

  /** Once the table has moved. */
  function MovedTable(st: State, req: Request, old_: seq<Hash>, new_: seq<Hash>): State {
    ApplySession(st, req, old_, new_).0
  }

  lemma WriterMoves(move: Move, st: State, req: Request, old_: seq<Hash>, new_: seq<Hash>)
    requires Faithful(move)
    ensures var a, evicted := MovedTable(st, req, old_, new_), Evicted(st.table, ToDecrement(old_, new_));
            && move(st, HoldSessions(req, old_, new_)) == (st, HoldSessionsRefcounts(req, old_, new_))
            && move(st, HoldSessionsRefcounts(req, old_, new_)) == (a, Applied(req, new_, evicted))
            && move(a, Applied(req, new_, evicted)) == (StoreSession(a, req, new_), Idle)
  {
    var a, evicted := MovedTable(st, req, old_, new_), Evicted(st.table, ToDecrement(old_, new_));
    MoveIs(move, st, HoldSessions(req, old_, new_), st, HoldSessionsRefcounts(req, old_, new_));
    MoveIs(move, st, HoldSessionsRefcounts(req, old_, new_), a, Applied(req, new_, evicted));
    MoveIs(move, a, Applied(req, new_, evicted), StoreSession(a, req, new_), Idle);
  }

  /** From the moment it holds `sessions` and knows both lists. */
  lemma WriterSteps(move: Move, st: State, req: Request, old_: seq<Hash>, new_: seq<Hash>, n: nat)
    requires Faithful(move) && n > 2
    ensures var (end, last, evicted) := Finish(move, st, HoldSessions(req, old_, new_), n);
            && last.Idle? && end.sessions == StoreSession(st, req, new_).sessions
            && end.forks == st.forks && end.nextForkId == st.nextForkId
            && Moved(st.table, old_, new_, end.table, evicted)
  {
    var a, toEvict := MovedTable(st, req, old_, new_), Evicted(st.table, ToDecrement(old_, new_));
    WriterMoves(move, st, req, old_, new_);
    NextFinish(move, st, HoldSessions(req, old_, new_), st, HoldSessionsRefcounts(req, old_, new_), n);
    NextFinish(move, st, HoldSessionsRefcounts(req, old_, new_), a, Applied(req, new_, toEvict), n - 1);
    NextFinish(move, a, Applied(req, new_, toEvict), StoreSession(a, req, new_), Idle, n - 2);
    assert toEvict + [] == toEvict;
  }

  /** `sessions` after the first section of a `turn_end`: the turn is counted, the list not yet stored. */
  function Turned(st: State, s: string): State {
    var before := StateOf(st.sessions, s);
    st.(sessions := st.sessions[s := SessionKvState(before.map_, NextTurn(before.turnCount))])
  }

  lemma TurnMoves(move: Move, st: State, s: string, hashes: Option<seq<Hash>>)
    requires Faithful(move)
    ensures var req := TurnEnd(s, hashes);
            move(st, WantSessions(req)) == (Turned(st, s), if hashes.Some? then
              HoldSessions(req, StateOf(st.sessions, s).map_, hashes.value) else LeaveSessions)
    ensures move(Turned(st, s), LeaveSessions) == (Turned(st, s), Idle)
  {
    var req := TurnEnd(s, hashes);
    MoveIs(move, st, WantSessions(req), EnterSessions(st, req).0, EnterSessions(st, req).1);
    MoveIs(move, Turned(st, s), LeaveSessions, Turned(st, s), Idle);
  }

  lemma TurnEndSteps(move: Move, st: State, s: string, hashes: Option<seq<Hash>>, n: nat)
    requires Faithful(move) && n >= ENOUGH
    ensures var (end, last, evicted) := Finish(move, st, Started(TurnEnd(s, hashes)), n);
            var before := StateOf(st.sessions, s);
            && last.Idle? && end.forks == st.forks && end.nextForkId == st.nextForkId
            && end.sessions == st.sessions[s :=
                 SessionKvState(if hashes.Some? then hashes.value else before.map_, NextTurn(before.turnCount))]
            && (hashes.Some? ==> Moved(st.table, before.map_, hashes.value, end.table, evicted))
            && (hashes.None? ==> end.table == st.table && evicted == [])
  {
    if hashes.Some? {
      ListedTurnSteps(move, st, s, hashes, n);
    } else {
      var req, a := TurnEnd(s, hashes), Turned(st, s);
      TurnMoves(move, st, s, hashes);
      NextFinish(move, st, WantSessions(req), a, LeaveSessions, n);
      NextFinish(move, a, LeaveSessions, a, Idle, n - 1);
    }
  }

  lemma ListedTurnSteps(move: Move, st: State, s: string, hashes: Option<seq<Hash>>, n: nat)
    requires Faithful(move) && n >= ENOUGH && hashes.Some?
    ensures var (end, last, evicted) := Finish(move, st, WantSessions(TurnEnd(s, hashes)), n);
            var before := StateOf(st.sessions, s);
            && last.Idle? && end.forks == st.forks && end.nextForkId == st.nextForkId
            && end.sessions == st.sessions[s := SessionKvState(hashes.value, NextTurn(before.turnCount))]
            && Moved(st.table, before.map_, hashes.value, end.table, evicted)
  {
    var before, req, a := StateOf(st.sessions, s), TurnEnd(s, hashes), Turned(st, s);
    TurnMoves(move, st, s, hashes);
    NextFinish(move, st, WantSessions(req), a, HoldSessions(req, before.map_, hashes.value), n);
    WriterSteps(move, a, req, before.map_, hashes.value, n - 1);
    TurnStored(st, s, hashes);
  }

  lemma TurnStored(st: State, s: string, hashes: Option<seq<Hash>>)
    requires hashes.Some?
    ensures StoreSession(Turned(st, s), TurnEnd(s, hashes), hashes.value).sessions
            == st.sessions[s := SessionKvState(hashes.value, NextTurn(StateOf(st.sessions, s).turnCount))]
  {
  }

  /** `turn_end`: the new list, or the old one if there is no list; the turn counted; and without a list
      the table untouched and nothing to evict. */
  lemma TurnEndAlone(st: State, t: Tid, s: string, hashes: Option<seq<Hash>>, n: nat)
    requires n >= ENOUGH && Ready(st, t, TurnEnd(s, hashes))
    ensures var (end, evicted) := Alone(st, t, n);
            var before := StateOf(st.sessions, s);
            && Done(st, t, end, evicted) && end.forks == st.forks && end.nextForkId == st.nextForkId
            && end.sessions == st.sessions[s :=
                 SessionKvState(if hashes.Some? then hashes.value else before.map_, NextTurn(before.turnCount))]
            && (hashes.None? ==> end.table == st.table && evicted == [])
  {
    var (end, evicted) := Alone(st, t, n);
    AloneIsFinish(st, t, n);
    TurnEndSteps(ADVANCE, st, s, hashes, n);
    if hashes.Some? {
      var before := StateOf(st.sessions, s);
      WrittenIsDone(st, t, end, evicted, s, SessionKvState(hashes.value, NextTurn(before.turnCount)));
    } else {
      SameListAgain(st.table, st.sessions, ForkLists(st.forks), s);
      var before := StateOf(st.sessions, s);
      MapsOfPut(st.sessions, s, SessionKvState(before.map_, NextTurn(before.turnCount)));
    }
  }

  lemma WrittenIsDone(st: State, t: Tid, end: State, evicted: seq<Hash>, s: string, state: SessionKvState)
    requires Exact(st.table, Maps(st.sessions), ForkLists(st.forks)) && Ended(st, t, end) && end.forks == st.forks
    requires Moved(st.table, StateOf(st.sessions, s).map_, state.map_, end.table, evicted)
    requires end.sessions == st.sessions[s := state]
    ensures Done(st, t, end, evicted)
  {
    ListMoved(st.table, st.sessions, ForkLists(st.forks), s, state.map_);
    MapsOfPut(st.sessions, s, state);
  }

  lemma MapsOfPut(sessions: map<string, SessionKvState>, s: string, state: SessionKvState)
    ensures Maps(sessions[s := state]) == Maps(sessions)[s := state.map_]
  {
  }

  /** Storing the list a session has already, or none for one that is not there, holds nothing new. */
  lemma SameListAgain(table: Table, sessions: map<string, SessionKvState>, forks: map<nat, seq<Hash>>, s: string)
    requires Exact(table, Maps(sessions), forks)
    ensures var again := Maps(sessions)[s := StateOf(sessions, s).map_];
            Exact(table, again, forks) && EvictsExactly(Maps(sessions), forks, again, forks, [])
  {
    ExchangeSession(table, [], [], Maps(sessions), forks, s, StateOf(sessions, s).map_);
  }

  lemma RestoreSteps(move: Move, st: State, s: string, list: seq<Hash>, n: nat)
    requires Faithful(move) && n >= ENOUGH
    ensures var (end, last, evicted) := Finish(move, st, Started(Restore(s, list)), n);
            && last.Idle? && end.forks == st.forks && end.nextForkId == st.nextForkId
            && end.sessions == st.sessions[s := SessionKvState(list, StateOf(st.sessions, s).turnCount)]
            && Moved(st.table, StateOf(st.sessions, s).map_, list, end.table, evicted)
  {
    var old_ := MapOf(st.sessions, s);
    MoveIs(move, st, WantSessions(Restore(s, list)), st, HoldSessions(Restore(s, list), old_, list));
    NextFinish(move, st, WantSessions(Restore(s, list)), st, HoldSessions(Restore(s, list), old_, list), n);
    WriterSteps(move, st, Restore(s, list), old_, list, n - 1);
  }

  lemma RestoreAlone(st: State, t: Tid, s: string, list: seq<Hash>, n: nat)
    requires n >= ENOUGH && Ready(st, t, Restore(s, list))
    ensures var (end, evicted) := Alone(st, t, n);
            && Done(st, t, end, evicted) && end.forks == st.forks && end.nextForkId == st.nextForkId
            && end.sessions == st.sessions[s := SessionKvState(list, StateOf(st.sessions, s).turnCount)]
  {
    var (end, evicted) := Alone(st, t, n);
    AloneIsFinish(st, t, n);
    RestoreSteps(ADVANCE, st, s, list, n);
    WrittenIsDone(st, t, end, evicted, s, SessionKvState(list, StateOf(st.sessions, s).turnCount));
  }

  lemma CloseSteps(move: Move, st: State, s: string, n: nat)
    requires Faithful(move) && n >= ENOUGH
    ensures var (end, last, evicted) := Finish(move, st, Started(Close(s)), n);
            && last.Idle? && end.forks == st.forks && end.nextForkId == st.nextForkId
            && end.sessions == st.sessions - {s}
            && (s in st.sessions ==> Moved(st.table, StateOf(st.sessions, s).map_, [], end.table, evicted))
            && (s !in st.sessions ==> end.table == st.table && evicted == [])
  {
    var (a, pc) := EnterSessions(st, Close(s));
    MoveIs(move, st, WantSessions(Close(s)), a, pc);
    NextFinish(move, st, WantSessions(Close(s)), a, pc, n);
    if s in st.sessions {
      WriterSteps(move, a, Close(s), MapOf(st.sessions, s), [], n - 1);
    } else {
      MoveIs(move, a, pc, a, Idle);
      NextFinish(move, a, pc, a, Idle, n - 1);
      assert st.sessions - {s} == st.sessions;
    }
  }

  lemma CloseAlone(st: State, t: Tid, s: string, n: nat)
    requires n >= ENOUGH && Ready(st, t, Close(s))
    ensures var (end, evicted) := Alone(st, t, n);
            && Done(st, t, end, evicted) && end.forks == st.forks && end.nextForkId == st.nextForkId
            && end.sessions == st.sessions - {s}
  {
    var (end, evicted) := Alone(st, t, n);
    AloneIsFinish(st, t, n);
    CloseSteps(ADVANCE, st, s, n);
    if s in st.sessions {
      ClosedIsDone(st.table, st.sessions, ForkLists(st.forks), s, end.table, evicted);
    } else {
      assert st.sessions - {s} == st.sessions;
    }
  }

  lemma ClosedIsDone(table: Table, sessions: map<string, SessionKvState>, forks: map<nat, seq<Hash>>, s: string,
                     table': Table, evicted: seq<Hash>)
    requires Exact(table, Maps(sessions), forks) && Moved(table, StateOf(sessions, s).map_, [], table', evicted)
    ensures Exact(table', Maps(sessions - {s}), forks)
    ensures EvictsExactly(Maps(sessions), forks, Maps(sessions - {s}), forks, evicted)
  {
    ListMoved(table, sessions, forks, s, []);
    EmptyListsHoldNothing(table', Maps(sessions), forks, s, 0);
    assert Maps(sessions - {s}) == Maps(sessions) - {s};
  }

  // ---------------------------------------------------------------- forks

  /** The snapshot has its number ... */
  function WithNumber(st: State, list: seq<Hash>): State {
    st.(nextForkId := st.nextForkId + 1, fates := st.fates[st.nextForkId := Fate(list, Numbered, Alive)])
  }

  /** ... and is in the snapshot table ... */
  function WithSnapshot(st: State, id: nat, s: string, list: seq<Hash>): State {
    st.(forks := st.forks[id := ForkSnapshot(s, list)], fates := Forked(st.fates, id, Published))
  }

  /** ... and counted. */
  function WithCounts(st: State, id: nat, list: seq<Hash>): State {
    st.(table := Incremented(st.table, list), bookedForks := st.bookedForks[id := list],
        fates := Forked(st.fates, id, Counted))
  }

  lemma ForkMoves(move: Move, st: State, id: nat, s: string, list: seq<Hash>)
    requires Faithful(move)
    ensures move(st, ForkRead(s, list)) == (st, ForkNumber(s, list))
    ensures move(st, ForkNumber(s, list)) == (WithNumber(st, list), ForkWantSnapshots(st.nextForkId, s, list))
    ensures move(st, ForkWantSnapshots(id, s, list)) == (st, ForkHoldSnapshots(id, s, list))
    ensures move(st, ForkHoldSnapshots(id, s, list)) == (WithSnapshot(st, id, s, list), ForkWantRefcounts(id, s, list))
    ensures move(st, ForkWantRefcounts(id, s, list)) == (st, ForkHoldRefcounts(id, s, list))
    ensures move(st, ForkHoldRefcounts(id, s, list)) == (WithCounts(st, id, list), Idle)
  {
    MoveIs(move, st, ForkRead(s, list), st, ForkNumber(s, list));
    MoveIs(move, st, ForkNumber(s, list), WithNumber(st, list), ForkWantSnapshots(st.nextForkId, s, list));
    MoveIs(move, st, ForkWantSnapshots(id, s, list), st, ForkHoldSnapshots(id, s, list));
    MoveIs(move, st, ForkHoldSnapshots(id, s, list), WithSnapshot(st, id, s, list), ForkWantRefcounts(id, s, list));
    MoveIs(move, st, ForkWantRefcounts(id, s, list), st, ForkHoldRefcounts(id, s, list));
    MoveIs(move, st, ForkHoldRefcounts(id, s, list), WithCounts(st, id, list), Idle);
  }

  lemma ForkSteps(move: Move, st: State, s: string, list: seq<Hash>, n: nat)
    requires Faithful(move) && n >= ENOUGH - 1
    ensures var (end, last, evicted) := Finish(move, st, ForkRead(s, list), n);
            && last.Idle? && evicted == [] && end.sessions == st.sessions
            && end.forks == st.forks[st.nextForkId := ForkSnapshot(s, list)] && end.nextForkId == st.nextForkId + 1
            && end.table == Incremented(st.table, list)
  {
    var id, a := st.nextForkId, WithNumber(st, list);
    var b := WithSnapshot(a, id, s, list);
    ForkMoves(move, st, id, s, list);
    ForkMoves(move, a, id, s, list);
    ForkMoves(move, b, id, s, list);
    NextFinish(move, st, ForkRead(s, list), st, ForkNumber(s, list), n);
    NextFinish(move, st, ForkNumber(s, list), a, ForkWantSnapshots(id, s, list), n - 1);
    NextFinish(move, a, ForkWantSnapshots(id, s, list), a, ForkHoldSnapshots(id, s, list), n - 2);
    NextFinish(move, a, ForkHoldSnapshots(id, s, list), b, ForkWantRefcounts(id, s, list), n - 3);
    NextFinish(move, b, ForkWantRefcounts(id, s, list), b, ForkHoldRefcounts(id, s, list), n - 4);
    NextFinish(move, b, ForkHoldRefcounts(id, s, list), WithCounts(b, id, list), Idle, n - 5);
  }

  lemma ForkFromTheStart(move: Move, st: State, s: string, n: nat)
    requires Faithful(move) && n >= ENOUGH
    ensures var (end, last, evicted) := Finish(move, st, Started(Fork(s)), n);
            && last.Idle? && evicted == [] && end.sessions == st.sessions
            && (s in st.sessions ==>
                  var list := Unique(st.sessions[s].map_);
                  && end.forks == st.forks[st.nextForkId := ForkSnapshot(s, list)]
                  && end.nextForkId == st.nextForkId + 1 && end.table == Incremented(st.table, list))
            && (s !in st.sessions ==>
                  end.forks == st.forks && end.nextForkId == st.nextForkId && end.table == st.table)
  {
    MoveIs(move, st, WantSessions(Fork(s)), st, EnterSessions(st, Fork(s)).1);
    NextFinish(move, st, WantSessions(Fork(s)), st, EnterSessions(st, Fork(s)).1, n);
    if s in st.sessions {
      ForkSteps(move, st, s, Unique(st.sessions[s].map_), n - 1);
    } else {
      MoveIs(move, st, LeaveSessions, st, Idle);
      NextFinish(move, st, LeaveSessions, st, Idle, n - 1);
    }
  }

  /** `fork`: a snapshot of the parent's list without repeats, under the next number; nothing at all if
      there is no such session. */
  lemma ForkAlone(st: State, t: Tid, s: string, n: nat)
    requires n >= ENOUGH && Ready(st, t, Fork(s))
    ensures var (end, evicted) := Alone(st, t, n);
            && Done(st, t, end, evicted) && evicted == [] && end.sessions == st.sessions
            && (s in st.sessions ==>
                  && end.forks == st.forks[st.nextForkId := ForkSnapshot(s, Unique(st.sessions[s].map_))]
                  && end.nextForkId == st.nextForkId + 1)
            && (s !in st.sessions ==>
                  end.forks == st.forks && end.nextForkId == st.nextForkId && end.table == st.table)
  {
    AloneIsFinish(st, t, n);
    ForkFromTheStart(ADVANCE, st, s, n);
    if s in st.sessions {
      ForkCounted(st.table, st.sessions, st.forks, st.nextForkId, s);
    }
  }

  lemma ForkCounted(table: Table, sessions: map<string, SessionKvState>, forks: map<nat, ForkSnapshot>, id: nat,
                    s: string)
    requires Exact(table, Maps(sessions), ForkLists(forks)) && s in sessions && id !in forks
    ensures var list := Unique(sessions[s].map_);
            var forks' := ForkLists(forks[id := ForkSnapshot(s, list)]);
            && Exact(Incremented(table, list), Maps(sessions), forks')
            && EvictsExactly(Maps(sessions), ForkLists(forks), Maps(sessions), forks', [])
  {
    var list := Unique(sessions[s].map_);
    ExchangeFork(table, [], list, Maps(sessions), ForkLists(forks), id, list);
    assert ForkLists(forks[id := ForkSnapshot(s, list)]) == ForkLists(forks)[id := list];
  }

  lemma ForkEndSteps(move: Move, st: State, s: string, forkId: Option<nat>, n: nat)
    requires Faithful(move) && n >= ENOUGH
    ensures var (end, last, evicted) := Finish(move, st, Started(ForkEnd(s, forkId)), n);
            var chosen := ChosenFork(st.forks, s, forkId);
            && last.Idle? && end.sessions == st.sessions && end.nextForkId == st.nextForkId
            && (chosen.Some? ==>
                  && end.forks == st.forks - {chosen.value}
                  && end.table == Decremented(st.table, st.forks[chosen.value].hashes)
                  && evicted == Evicted(st.table, st.forks[chosen.value].hashes))
            && (chosen.None? ==> end.forks == st.forks && end.table == st.table && evicted == [])
  {
    var chosen := ChosenFork(st.forks, s, forkId);
    var (a, pc) := EnterSnapshotsToEnd(st, s, forkId);
    MoveIs(move, st, EndWantSnapshots(s, forkId), a, pc);
    NextFinish(move, st, EndWantSnapshots(s, forkId), a, pc, n);
    if chosen.Some? {
      EndSteps(move, a, chosen.value, st.forks[chosen.value].hashes, n - 1);
    } else {
      MoveIs(move, a, pc, a, Idle);
      NextFinish(move, a, pc, a, Idle, n - 1);
    }
  }

  lemma EndSteps(move: Move, st: State, id: nat, list: seq<Hash>, n: nat)
    requires Faithful(move) && n > 2
    ensures var (end, last, evicted) := Finish(move, st, EndHoldSnapshots(id, list), n);
            && last.Idle? && end.sessions == st.sessions && end.nextForkId == st.nextForkId && end.forks == st.forks
            && end.table == Decremented(st.table, list) && evicted == Evicted(st.table, list)
  {
    var toEvict := Evicted(st.table, list);
    var b := Advance(st, EndHoldSnapshotsRefcounts(id, list)).0;
    MoveIs(move, st, EndHoldSnapshots(id, list), st, EndHoldSnapshotsRefcounts(id, list));
    MoveIs(move, st, EndHoldSnapshotsRefcounts(id, list), b, LeaveSnapshots(toEvict));
    MoveIs(move, b, LeaveSnapshots(toEvict), b, Idle);
    NextFinish(move, st, EndHoldSnapshots(id, list), st, EndHoldSnapshotsRefcounts(id, list), n);
    NextFinish(move, st, EndHoldSnapshotsRefcounts(id, list), b, LeaveSnapshots(toEvict), n - 1);
    NextFinish(move, b, LeaveSnapshots(toEvict), b, Idle, n - 2);
    assert toEvict + [] == toEvict;
  }

  /** `fork_end`: the snapshot named, if it is the session's own, or else the session's latest, is gone. */
  lemma ForkEndAlone(st: State, t: Tid, s: string, forkId: Option<nat>, n: nat) returns (chosen: Option<nat>)
    requires n >= ENOUGH && Ready(st, t, ForkEnd(s, forkId))
    ensures Chosen(st.forks, s, forkId, chosen)
    ensures var (end, evicted) := Alone(st, t, n);
            && Done(st, t, end, evicted) && end.sessions == st.sessions && end.nextForkId == st.nextForkId
            && (chosen.Some? ==> end.forks == st.forks - {chosen.value})
            && (chosen.None? ==> end.forks == st.forks && end.table == st.table && evicted == [])
  {
    chosen := ChosenFork(st.forks, s, forkId);
    AloneIsFinish(st, t, n);
    ForkEndSteps(ADVANCE, st, s, forkId, n);
    if chosen.Some? {
      ForkReleased(st.table, Maps(st.sessions), st.forks, chosen.value);
    }
  }

  lemma ForkReleased(table: Table, sessions: map<string, seq<Hash>>, forks: map<nat, ForkSnapshot>, id: nat)
    requires Exact(table, sessions, ForkLists(forks)) && id in forks && NoDuplicates(forks[id].hashes)
    ensures var list := forks[id].hashes;
            && Exact(Decremented(table, list), sessions, ForkLists(forks - {id}))
            && EvictsExactly(sessions, ForkLists(forks), sessions, ForkLists(forks - {id}), Evicted(table, list))
  {
    ExchangeReleasing(table, forks[id].hashes, sessions, ForkLists(forks), id);
    assert ForkLists(forks - {id}) == ForkLists(forks) - {id};
  }

  // ---------------------------------------------------------------- readers and the recount

  lemma InspectAlone(st: State, t: Tid, s: string, n: nat)
    requires n >= ENOUGH && Ready(st, t, Inspect(s))
    ensures var (end, evicted) := Alone(st, t, n);
            && Done(st, t, end, evicted) && evicted == [] && end.sessions == st.sessions
            && end.forks == st.forks && end.nextForkId == st.nextForkId && end.table == st.table
  {
    AloneIsFinish(st, t, n);
    MoveIs(ADVANCE, st, WantSessions(Inspect(s)), st, LeaveSessions);
    MoveIs(ADVANCE, st, LeaveSessions, st, Idle);
    NextFinish(ADVANCE, st, WantSessions(Inspect(s)), st, LeaveSessions, n);
    NextFinish(ADVANCE, st, LeaveSessions, st, Idle, n - 1);
  }

  lemma RebuildSteps(move: Move, st: State, recount: Table, n: nat)
    requires Faithful(move) && n >= ENOUGH && move(st, RebuildHoldSessions) == (st, RebuildWantRefcounts(recount))
    ensures var (end, last, evicted) := Finish(move, st, RebuildWantSessions, n);
            last.Idle? && evicted == [] && end == st.(table := recount)
  {
    MoveIs(move, st, RebuildWantSessions, st, RebuildHoldSessions);
    MoveIs(move, st, RebuildWantRefcounts(recount), st, RebuildHoldRefcounts(recount));
    MoveIs(move, st, RebuildHoldRefcounts(recount), st.(table := recount), Idle);
    NextFinish(move, st, RebuildWantSessions, st, RebuildHoldSessions, n);
    NextFinish(move, st, RebuildHoldSessions, st, RebuildWantRefcounts(recount), n - 1);
    NextFinish(move, st, RebuildWantRefcounts(recount), st, RebuildHoldRefcounts(recount), n - 2);
    NextFinish(move, st, RebuildHoldRefcounts(recount), st.(table := recount), Idle, n - 3);
  }

  /** `rebuild_refcounts`, from any table: the recount over the sessions alone. */
  lemma RebuildAlone(st: State, t: Tid, n: nat)
    requires n >= ENOUGH && PcOf(st, t) == RebuildWantSessions && OthersHoldNothing(st, t)
    ensures var (end, evicted) := Alone(st, t, n);
            && PcOf(end, t).Idle? && evicted == [] && end.sessions == st.sessions
            && end.forks == st.forks && end.nextForkId == st.nextForkId
            && Exact(end.table, Maps(st.sessions), map[])
  {
    AloneIsFinish(st, t, n);
    MoveIs(ADVANCE, st, RebuildHoldSessions, st, RebuildWantRefcounts(RecountOf(st.sessions)));
    RebuildSteps(ADVANCE, st, RecountOf(st.sessions), n);
    RecountIsExact(st.sessions);
  }

  lemma RecountIsExact(sessions: map<string, SessionKvState>)
    ensures Exact(RecountOf(sessions), Maps(sessions), map[])
  {
    RecountExists(sessions);
  }

  // ---------------------------------------------------------------- the handlers

  /** The lock model and the coordinator are in the same state. */
  ghost predicate Same(st: State, manager: Manager)
    reads manager
  {
    && st.sessions == manager.sessions && st.table == manager.refcounts
    && st.forks == manager.forkSnapshots && st.nextForkId == manager.nextForkId
  }

  /** In the same state before, the handler and the request on its own lead to the same state, and evict
      the same chunks. */
  method TurnEndIsTheHandler(manager: Manager, ghost st: State, ghost t: Tid, s: string, hashes: Option<seq<Hash>>,
                             evictAccepted: bool, debug: Option<bool>, ghost n: nat)
    returns (evicted: seq<Hash>)
    requires n >= ENOUGH && manager.Valid() && Same(st, manager) && Ready(st, t, TurnEnd(s, hashes))
    modifies manager
    ensures Same(Alone(st, t, n).0, manager) && Members(Alone(st, t, n).1) == Members(evicted)
  {
    TurnEndAlone(st, t, s, hashes, n);
    var toEvict, _ := manager.OnTurnEnd(s, hashes, evictAccepted, debug);
    evicted := toEvict;
    SameTable(Alone(st, t, n).0, manager);
  }

  method RestoreIsTheHandler(manager: Manager, ghost st: State, ghost t: Tid, s: string, list: seq<Hash>,
                             evictAccepted: bool, prefetchAccepted: bool, ghost n: nat)
    returns (evicted: seq<Hash>)
    requires n >= ENOUGH && manager.Valid() && Same(st, manager) && Ready(st, t, Restore(s, list))
    modifies manager
    ensures Same(Alone(st, t, n).0, manager) && Members(Alone(st, t, n).1) == Members(evicted)
  {
    RestoreAlone(st, t, s, list, n);
    var toEvict, _ := manager.OnSnapshotRestore(s, list, evictAccepted, prefetchAccepted);
    evicted := toEvict;
    SameTable(Alone(st, t, n).0, manager);
  }

  method CloseIsTheHandler(manager: Manager, ghost st: State, ghost t: Tid, s: string, evictAccepted: bool,
                           ghost n: nat)
    returns (evicted: seq<Hash>)
    requires n >= ENOUGH && manager.Valid() && Same(st, manager) && Ready(st, t, Close(s))
    modifies manager
    ensures Same(Alone(st, t, n).0, manager) && Members(Alone(st, t, n).1) == Members(evicted)
  {
    CloseAlone(st, t, s, n);
    var toEvict, _ := manager.OnSessionClose(s, evictAccepted);
    evicted := toEvict;
    SameTable(Alone(st, t, n).0, manager);
  }

  method ForkIsTheHandler(manager: Manager, ghost st: State, ghost t: Tid, s: string, ghost n: nat)
    requires n >= ENOUGH && manager.Valid() && Same(st, manager) && Ready(st, t, Fork(s))
    modifies manager
    ensures Same(Alone(st, t, n).0, manager) && Alone(st, t, n).1 == []
  {
    ForkAlone(st, t, s, n);
    var _ := manager.OnSessionFork(s);
    SameTable(Alone(st, t, n).0, manager);
  }

  method ForkEndIsTheHandler(manager: Manager, ghost st: State, ghost t: Tid, s: string, forkId: Option<nat>,
                             evictAccepted: bool, ghost n: nat)
    returns (evicted: seq<Hash>)
    requires n >= ENOUGH && manager.Valid() && Same(st, manager) && Ready(st, t, ForkEnd(s, forkId))
    modifies manager
    ensures Same(Alone(st, t, n).0, manager) && Members(Alone(st, t, n).1) == Members(evicted)
  {
    ghost var chosen := ForkEndAlone(st, t, s, forkId, n);
    var consumed, toEvict, _ := manager.OnSessionForkEnd(s, forkId, evictAccepted);
    evicted := toEvict;
    ChosenIsUnique(st.forks, s, forkId, chosen, consumed);
    SameTable(Alone(st, t, n).0, manager);
  }

  lemma SameTable(end: State, manager: Manager)
    requires manager.Valid() && end.sessions == manager.sessions && end.forks == manager.forkSnapshots
    requires Exact(end.table, Maps(end.sessions), ForkLists(end.forks))
    ensures end.table == manager.refcounts
  {
    TablesAgree(end.table, manager.refcounts, Maps(end.sessions), ForkLists(end.forks));
  }

  lemma ChosenIsUnique(forks: map<nat, ForkSnapshot>, s: string, forkId: Option<nat>, a: Option<nat>, b: Option<nat>)
    requires Chosen(forks, s, forkId, a) && Chosen(forks, s, forkId, b)
    ensures a == b
  {
  }
}
