/** Runs of the lock steps that show what their theorems are about. */
module LockExamples {
  import opened Basics
  import opened FirstSeen
  import opened Refcounts
  import opened KvCacheManager
  import opened LockSteps
  import opened LockInvariant
  import opened LockProperties
  import opened LockRaces

  /** `t` can step, and takes `st` to `next`. */
  ghost predicate Goes(st: State, t: Tid, next: State) {
    CanStep(st, t) && After(st, t) == next
  }

  /** `st` with request `t` at `pc`. */
  function At(st: State, t: Tid, pc: Pc): State {
    st.(threads := st.threads[t := pc])
  }

  // ---------------------------------------------------------------- runs to a state

  ghost predicate RunTo(run: seq<State>, st: State) {
    Run(run) && Final(run) == st
  }

  ghost predicate Reachable(st: State) {
    exists run :: RunTo(run, st)
  }

  lemma Take(st: State, t: Tid, next: State)
    requires Reachable(st) && Goes(st, t, next) && !PcOf(st, t).EndWantSnapshots?
    ensures Reachable(next)
  {
    var run :| RunTo(run, st);
    assert TakeStep(st, next, t);
    assert RunTo(run + [next], next);
  }

  lemma Start(st: State, t: Tid, req: Request)
    requires Reachable(st) && PcOf(st, t).Idle?
    ensures Reachable(At(st, t, Started(req)))
  {
    var run :| RunTo(run, st);
    assert StartStep(st, At(st, t, Started(req)), t, req);
    assert RunTo(run + [At(st, t, Started(req))], At(st, t, Started(req)));
  }

  /** The same for callers who may overtake a fork. */
  ghost predicate LooseRunTo(run: seq<State>, st: State) {
    LooseRun(run) && Final(run) == st
  }

  ghost predicate LooselyReachable(st: State) {
    exists run :: LooseRunTo(run, st)
  }

  lemma Go(st: State, t: Tid, next: State)
    requires LooselyReachable(st) && Goes(st, t, next)
    ensures LooselyReachable(next)
  {
    var run :| LooseRunTo(run, st);
    assert LooseRunTo(run + [next], next);
  }

  lemma Begin(st: State, t: Tid, req: Request)
    requires LooselyReachable(st) && PcOf(st, t).Idle?
    ensures LooselyReachable(At(st, t, Started(req)))
  {
    var run :| LooseRunTo(run, st);
    assert StartStep(st, At(st, t, Started(req)), t, req);
    assert LooseRunTo(run + [At(st, t, Started(req))], At(st, t, Started(req)));
  }

  lemma ReachableIsLoose(st: State)
    requires Reachable(st)
    ensures LooselyReachable(st)
  {
    var run :| RunTo(run, st);
    forall i, j | 0 <= i && j == i + 1 && j < |run| ensures LooseStep(run[i], run[j]) {
      StepIsLoose(run[i], run[j]);
    }
    assert LooseRunTo(run, st);
  }

  lemma StepIsLoose(st: State, st': State)
    requires Step(st, st')
    ensures LooseStep(st, st')
  {
    if t: Tid, req :| StartStep(st, st', t, req) {
    } else {
      var t: Tid :| TakeStep(st, st', t);
    }
  }

  // ---------------------------------------------------------------- lists of one chunk

  const H: seq<Hash> := ["h"]
  const NONE: seq<Hash> := []

  lemma UniqueOne()
    ensures Unique(H) == H
  {
    assert H[..0] == [];
  }

  lemma ExcludeOne(drop: set<Hash>)
    ensures Excluding(H, drop) == if "h" in drop then NONE else H
  {
    assert H[..0] == [];
  }

  lemma OpeningLists()
    ensures ToDecrement(NONE, H) == NONE && ToIncrement(NONE, H) == H
  {
    UniqueOne();
    ExcludeOne(set x | x in NONE);
  }

  lemma ClosingLists()
    ensures ToDecrement(H, NONE) == H && ToIncrement(H, NONE) == NONE
  {
    UniqueOne();
    ExcludeOne(set x | x in NONE);
  }

  lemma CountOne()
    ensures Incremented(map[], H) == map["h" := 1] && Decremented(map[], []) == map[] && Incremented(map[], []) == map[]
    ensures Evicted(map[], []) == []
  {
    assert H[..0] == [];
  }

  lemma UncountOne()
    ensures Decremented(map["h" := 1], H) == map[] && Evicted(map["h" := 1], H) == H
    ensures Decremented(map[], H) == map[] && Evicted(map[], H) == []
  {
    assert H[..0] == [];
  }

  // ---------------------------------------------------------------- one session, then a fork of it

  const OPEN: Request := TurnEnd("s", Some(H))
  const CLOSE: Request := Close("s")

  const OPENING := State(map[], map[], map[], 1, map[0 := WantSessions(OPEN)], map[], map[], map[])
  const OPENING2 := State(map["s" := SessionKvState([], 1)], map[], map[], 1,
    map[0 := HoldSessions(OPEN, NONE, H)], map[], map[], map[])
  const OPENING3 := State(map["s" := SessionKvState([], 1)], map[], map[], 1,
    map[0 := HoldSessionsRefcounts(OPEN, NONE, H)], map[], map[], map[])
  const OPENING4 := State(map["s" := SessionKvState([], 1)], map["h" := 1], map[], 1,
    map[0 := Applied(OPEN, H, NONE)], map["s" := H], map[], map[])
  const OPENED := State(map["s" := SessionKvState(H, 1)], map["h" := 1], map[], 1,
    map[0 := Idle], map["s" := H], map[], map[])

  lemma OpenSteps()
    ensures Goes(OPENING, 0, OPENING2) && Goes(OPENING2, 0, OPENING3)
  {
    assert INITIAL.sessions["s" := SessionKvState([], 1)] == map["s" := SessionKvState([], 1)];
  }

  lemma StoreSteps()
    ensures Goes(OPENING3, 0, OPENING4) && Goes(OPENING4, 0, OPENED)
  {
    OpeningLists();
    CountOne();
    assert OPENING3.bookedSessions["s" := H] == map["s" := H];
    assert OPENING4.sessions["s" := SessionKvState(H, 1)] == map["s" := SessionKvState(H, 1)];
  }

  lemma ReachOpened()
    ensures Reachable(OPENED)
  {
    OpenSteps();
    StoreSteps();
    assert RunTo([INITIAL], INITIAL);
    Start(INITIAL, 0, OPEN);
    Take(OPENING, 0, OPENING2);
    Take(OPENING2, 0, OPENING3);
    Take(OPENING3, 0, OPENING4);
    Take(OPENING4, 0, OPENED);
  }

  const FORKING := State(map["s" := SessionKvState(H, 1)], map["h" := 1], map[], 1,
    map[0 := Idle, 1 := WantSessions(Fork("s"))], map["s" := H], map[], map[])
  const FORKING2 := State(map["s" := SessionKvState(H, 1)], map["h" := 1], map[], 1,
    map[0 := Idle, 1 := ForkRead("s", H)], map["s" := H], map[], map[])
  const FORKING3 := State(map["s" := SessionKvState(H, 1)], map["h" := 1], map[], 1,
    map[0 := Idle, 1 := ForkNumber("s", H)], map["s" := H], map[], map[])
  const NUMBERED := State(map["s" := SessionKvState(H, 1)], map["h" := 1], map[], 2,
    map[0 := Idle, 1 := ForkWantSnapshots(1, "s", H)], map["s" := H], map[], map[1 := Fate(H, Numbered, Alive)])

  lemma ForkSteps()
    ensures Goes(FORKING, 1, FORKING2)
    ensures Goes(FORKING2, 1, FORKING3)
    ensures Goes(FORKING3, 1, NUMBERED)
  {
    UniqueOne();
    assert FORKING.threads[1 := ForkRead("s", H)] == OPENED.threads[1 := ForkRead("s", H)];
    assert FORKING2.threads[1 := ForkNumber("s", H)] == OPENED.threads[1 := ForkNumber("s", H)];
    assert FORKING3.threads[1 := ForkWantSnapshots(1, "s", H)] == OPENED.threads[1 := ForkWantSnapshots(1, "s", H)];
    assert FORKING3.fates[1 := Fate(H, Numbered, Alive)] == map[1 := Fate(H, Numbered, Alive)];
  }

  lemma ReachNumbered()
    ensures Reachable(NUMBERED)
  {
    ForkSteps();
    ReachOpened();
    Start(OPENED, 1, Fork("s"));
    Take(FORKING, 1, FORKING2);
    Take(FORKING2, 1, FORKING3);
    Take(FORKING3, 1, NUMBERED);
  }

  // ---------------------------------------------------------------- publishing the fork, and overtaking it

  const WAITING: Pc := ForkWantRefcounts(1, "s", H)

  /** The fork is about to publish its snapshot and nobody else is doing anything. */
  predicate ToPublish(b: State) {
    && b.threads == map[0 := Idle, 1 := ForkWantSnapshots(1, "s", H)]
    && b.forks == map[] && b.bookedForks == map[] && b.fates == map[1 := Fate(H, Numbered, Alive)]
  }

  function AtPublishing(b: State): State {
    b.(threads := map[0 := Idle, 1 := ForkHoldSnapshots(1, "s", H)])
  }

  function AtPublished(b: State): State {
    b.(threads := map[0 := Idle, 1 := WAITING], forks := map[1 := ForkSnapshot("s", H)],
       fates := map[1 := Fate(H, Published, Alive)])
  }

  lemma PublishSteps(b: State)
    requires ToPublish(b)
    ensures Goes(b, 1, AtPublishing(b)) && Goes(AtPublishing(b), 1, AtPublished(b))
  {
    assert b.forks[1 := ForkSnapshot("s", H)] == map[1 := ForkSnapshot("s", H)];
    assert Forked(b.fates, 1, Published) == map[1 := Fate(H, Published, Alive)];
  }

  function AtEnding(b: State): State {
    b.(threads := map[0 := Idle, 1 := WAITING, 2 := EndWantSnapshots("s", None)],
       forks := map[1 := ForkSnapshot("s", H)], fates := map[1 := Fate(H, Published, Alive)])
  }

  function AtConsumed(b: State): State {
    b.(threads := map[0 := Idle, 1 := WAITING, 2 := EndHoldSnapshots(1, H)],
       fates := map[1 := Fate(H, Published, Consumed)])
  }

  function AtTaking(b: State): State {
    b.(threads := map[0 := Idle, 1 := WAITING, 2 := EndHoldSnapshotsRefcounts(1, H)],
       fates := map[1 := Fate(H, Published, Consumed)])
  }

  /** The `fork_end` has decremented what the fork has yet to count. */
  function AtTaken(b: State): State {
    b.(threads := map[0 := Idle, 1 := WAITING, 2 := LeaveSnapshots(Evicted(b.table, H))],
       table := Decremented(b.table, H), fates := map[1 := Fate(H, Published, Released)])
  }

  lemma ConsumeStep(b: State)
    requires ToPublish(b)
    ensures Goes(AtEnding(b), 2, AtConsumed(b))
  {
    var a := AtEnding(b);
    assert 1 in a.forks && ChosenFork(a.forks, "s", None) == Some(1) && a.forks - {1} == map[];
    assert Ended(a.fates, 1, Consumed) == map[1 := Fate(H, Published, Consumed)];
  }

  lemma TakeAwaySteps(b: State)
    requires ToPublish(b)
    ensures Goes(AtConsumed(b), 2, AtTaking(b)) && Goes(AtTaking(b), 2, AtTaken(b))
  {
    assert Ended(AtTaking(b).fates, 1, Released) == map[1 := Fate(H, Published, Released)];
    assert AtTaking(b).bookedForks - {1} == map[];
  }

  lemma Overtake(b: State)
    requires ToPublish(b) && Reachable(b)
    ensures LooselyReachable(AtTaken(b))
  {
    PublishSteps(b);
    Take(b, 1, AtPublishing(b));
    Take(AtPublishing(b), 1, AtPublished(b));
    ReachableIsLoose(AtPublished(b));
    Begin(AtPublished(b), 2, ForkEnd("s", None));
    ConsumeStep(b);
    Go(AtEnding(b), 2, AtConsumed(b));
    TakeAwaySteps(b);
    Go(AtConsumed(b), 2, AtTaking(b));
    Go(AtTaking(b), 2, AtTaken(b));
  }

  /** A `fork_end` without a fork id that overtakes the session's own `fork` on its way to the
      table: the backend is told to evict a chunk the session still lists, and the table has
      forgotten it. */
  lemma OvertakenForkLosesALiveChunk() returns (states: seq<State>)
    ensures LooseRun(states)
    ensures var st := Final(states);
            && PcOf(st, 2) == LeaveSnapshots(["h"])
            && "s" in st.sessions && st.sessions["s"].map_ == ["h"]
            && st.table == map[]
  {
    ReachNumbered();
    Overtake(NUMBERED);
    UncountOne();
    states :| LooseRunTo(states, AtTaken(NUMBERED));
  }

  // ---------------------------------------------------------------- a count nobody will take back

  const CLOSING := State(map["s" := SessionKvState(H, 1)], map["h" := 1], map[], 2,
    map[0 := WantSessions(CLOSE), 1 := ForkWantSnapshots(1, "s", H)], map["s" := H], map[],
    map[1 := Fate(H, Numbered, Alive)])
  const CLOSING2 := State(map[], map["h" := 1], map[], 2,
    map[0 := HoldSessions(CLOSE, H, NONE), 1 := ForkWantSnapshots(1, "s", H)], map["s" := H], map[],
    map[1 := Fate(H, Numbered, Alive)])
  const CLOSING3 := State(map[], map["h" := 1], map[], 2,
    map[0 := HoldSessionsRefcounts(CLOSE, H, NONE), 1 := ForkWantSnapshots(1, "s", H)], map["s" := H], map[],
    map[1 := Fate(H, Numbered, Alive)])
  const CLOSING4 := State(map[], map[], map[], 2,
    map[0 := Applied(CLOSE, NONE, H), 1 := ForkWantSnapshots(1, "s", H)], map["s" := NONE], map[],
    map[1 := Fate(H, Numbered, Alive)])
  const CLOSED := State(map[], map[], map[], 2,
    map[0 := Idle, 1 := ForkWantSnapshots(1, "s", H)], map["s" := NONE], map[], map[1 := Fate(H, Numbered, Alive)])

  lemma BeginToClose()
    ensures At(NUMBERED, 0, Started(CLOSE)) == CLOSING
  {
    assert NUMBERED.threads[0 := WantSessions(CLOSE)] == CLOSING.threads;
  }

  lemma CloseEnter()
    ensures Goes(CLOSING, 0, CLOSING2)
  {
    assert NUMBERED.sessions - {"s"} == map[];
    assert CLOSING.threads[0 := HoldSessions(Close("s"), H, [])]
           == NUMBERED.threads[0 := HoldSessions(Close("s"), H, [])];
  }

  lemma CloseLock()
    ensures Goes(CLOSING2, 0, CLOSING3)
  {
  }

  lemma CloseApply()
    ensures Goes(CLOSING3, 0, CLOSING4)
  {
    ClosingLists();
    UncountOne();
    CountOne();
    assert CLOSING3.bookedSessions["s" := []] == map["s" := []];
  }

  lemma CloseLeave()
    ensures Goes(CLOSING4, 0, CLOSED)
  {
  }

  /** The session is closed, and its chunk evicted, while its `fork` is on its way. */
  lemma CloseUnderFork()
    ensures Reachable(CLOSING3) && Goes(CLOSING3, 0, CLOSING4) && Goes(CLOSING4, 0, CLOSED)
  {
    ReachNumbered();
    BeginToClose();
    Start(NUMBERED, 0, CLOSE);
    CloseEnter();
    Take(CLOSING, 0, CLOSING2);
    CloseLock();
    Take(CLOSING2, 0, CLOSING3);
    CloseApply();
    CloseLeave();
  }

  lemma ReachClosed()
    ensures Reachable(CLOSED) && ToPublish(CLOSED)
  {
    CloseUnderFork();
    Take(CLOSING3, 0, CLOSING4);
    Take(CLOSING4, 0, CLOSED);
  }

  /** After the `fork_end` has left, the fork counts what is no longer there. */
  const LATE := State(map[], map[], map[], 2,
    map[0 := Idle, 1 := WAITING, 2 := Idle], map["s" := NONE], map[], map[1 := Fate(H, Published, Released)])
  const LATE2 := State(map[], map[], map[], 2,
    map[0 := Idle, 1 := ForkHoldRefcounts(1, "s", H), 2 := Idle], map["s" := NONE], map[],
    map[1 := Fate(H, Published, Released)])
  const LATE3 := State(map[], map["h" := 1], map[], 2,
    map[0 := Idle, 1 := Idle, 2 := Idle], map["s" := NONE], map[1 := H], map[1 := Fate(H, Counted, Released)])

  lemma LateSteps()
    ensures Goes(AtTaken(CLOSED), 2, LATE) && Goes(LATE, 1, LATE2) && Goes(LATE2, 1, LATE3)
  {
    UncountOne();
    CountOne();
    assert LATE2.bookedForks[1 := H] == map[1 := H];
    assert Forked(LATE2.fates, 1, Counted) == map[1 := Fate(H, Counted, Released)];
  }

  /** The session closes while its `fork` is on its way, a `fork_end` takes the published snapshot away
      before it is counted, and then it is counted: no session, no fork and no request is left, and a
      reference to the chunk nobody holds. */
  lemma OvertakenForkLeaksACount() returns (states: seq<State>)
    ensures LooseRun(states) && Final(states) == LATE3
    ensures var st := Final(states);
            && (forall t: Tid :: PcOf(st, t).Idle?)
            && st.sessions == map[] && st.forks == map[] && st.table == map["h" := 1]
            && Settled(st) && !Exact(st.table, Maps(st.sessions), FinishedForks(st))
  {
    ReachClosed();
    Overtake(CLOSED);
    ReachLate();
    LeakedCount(LATE3);
    states :| LooseRunTo(states, LATE3);
  }

  lemma ReachLate()
    requires LooselyReachable(AtTaken(CLOSED))
    ensures LooselyReachable(LATE3)
  {
    LateSteps();
    Go(AtTaken(CLOSED), 2, LATE);
    Go(LATE, 1, LATE2);
    Go(LATE2, 1, LATE3);
  }

  lemma LeakedCount(st: State)
    requires st.sessions == map[] && st.forks == map[] && st.table == map["h" := 1]
    requires forall t: Tid :: PcOf(st, t).Idle?
    ensures Settled(st) && !Exact(st.table, Maps(st.sessions), FinishedForks(st))
  {
    assert Holders(Maps(st.sessions), "h") == {} && Holders(FinishedForks(st), "h") == {};
    assert Count(st.table, "h") == 1;
  }

  // ---------------------------------------------------------------- a fork of an evicted chunk

  /** In step `k` chunk `h` is handed to the backend. */
  ghost predicate EvictedIn(states: seq<State>, k: nat, h: Hash) {
    k + 1 < |states| && Evicts(states[k], states[k + 1], h)
  }

  ghost predicate Evicts(st: State, st': State, h: Hash) {
    exists t: Tid :: EvictsNow(st, st', t, h)
  }

  ghost predicate EvictsNow(st: State, st': State, t: Tid, h: Hash) {
    TakeStep(st, st', t) && h in EvictedBy(st, PcOf(st, t))
  }

  /** Some session or fork that the table counts holds `h`. */
  ghost predicate HeldIn(st: State, h: Hash) {
    Referenced(st.bookedSessions, st.bookedForks, h)
  }

  /** A step that leaves `h` without a holder evicts it ... */
  lemma UnheldWasEvicted(st: State, st': State, h: Hash) returns (t: Tid)
    requires Inv(st) && Step(st, st') && HeldIn(st, h) && !HeldIn(st', h)
    ensures EvictsNow(st, st', t, h)
  {
    assert !(exists u: Tid, req :: StartStep(st, st', u, req));
    t :| TakeStep(st, st', t);
    EvictsIff(st, t, h);
  }

  /** ... and a step evicts nothing else. */
  lemma EvictsIff(st: State, t: Tid, h: Hash)
    requires Inv(st) && CanStep(st, t) && OvertakesNoFork(st, PcOf(st, t))
    ensures h in EvictedBy(st, PcOf(st, t)) <==> HeldIn(st, h) && !HeldIn(After(st, t), h)
  {
    var pc := PcOf(st, t);
    assert WriterOk(st, pc);
    InvGivesCountsOk(st, t);
    StepMovesCounts(st, pc);
    if !MovesCounts(pc) {
      OtherStepsMoveNothing(st, pc);
    }
  }

  lemma {:induction false} Drop(held: seq<bool>, i: nat, k: nat) returns (m: nat)
    requires i < k < |held| && held[i] && !held[k]
    ensures i <= m < k && held[m] && !held[m + 1]
    decreases k
  {
    if held[k - 1] {
      m := k - 1;
    } else {
      m := Drop(held, i, k - 1);
    }
  }

  lemma EvictedBefore(run: seq<State>, i: nat, k: nat, h: Hash) returns (m: nat)
    requires Run(run) && i < k < |run| && HeldIn(run[i], h) && !HeldIn(run[k], h)
    ensures i <= m < k && EvictedIn(run, m, h)
  {
    var held := seq(|run|, n requires 0 <= n < |run| => HeldIn(run[n], h));
    m := Drop(held, i, k);
    LosesItsHolder(run, m, m + 1, h);
  }

  lemma LosesItsHolder(run: seq<State>, m: nat, n: nat, h: Hash)
    requires Run(run) && n == m + 1 < |run| && HeldIn(run[m], h) && !HeldIn(run[n], h)
    ensures Evicts(run[m], run[n], h)
  {
    EveryStateOfARun(run, m);
    assert Step(run[m], run[n]);
    var t := UnheldWasEvicted(run[m], run[n], h);
  }

  /** A chunk that some session or counted fork holds is evicted within a stretch of a run exactly if
      at some later moment of it nothing holds it. */
  lemma EvictedMeanwhileIff(run: seq<State>, i: nat, j: nat, h: Hash)
    requires Run(run) && i <= j < |run| && HeldIn(run[i], h)
    ensures (exists k: nat :: i <= k < j && EvictedIn(run, k, h)) <==> exists k: nat :: i < k <= j && !HeldIn(run[k], h)
  {
    if k: nat :| i <= k < j && EvictedIn(run, k, h) {
      EveryStateOfARun(run, k);
      var t: Tid :| EvictsNow(run[k], run[k + 1], t, h);
      EvictsIff(run[k], t, h);
    }
    if k: nat :| i < k <= j && !HeldIn(run[k], h) {
      var m := EvictedBefore(run, i, k, h);
    }
  }

  /** What the table counts is what it has an entry for. */
  lemma HeldIffInTable(run: seq<State>, k: nat, h: Hash)
    requires Run(run) && k < |run|
    ensures HeldIn(run[k], h) <==> h in run[k].table
  {
    EveryStateOfARun(run, k);
    var st := run[k];
    ReferencedIffCounted(st.bookedSessions, st.bookedForks, h);
    assert Count(st.table, h) == References(st.bookedSessions, st.bookedForks, h);
    assert h in st.table ==> st.table[h] > 0;
  }

  /** Whoever gets the `sessions` lock finds lists that the table counts. */
  lemma ListedIsCounted(run: seq<State>, i: nat, s: string, h: Hash)
    requires Run(run) && i < |run| && Free(run[i], Sessions) && h in MapOf(run[i].sessions, s)
    ensures HeldIn(run[i], h)
  {
    EveryStateOfARun(run, i);
    FreeMeansNobodyWrites(run[i]);
    assert forall t: Tid :: !Writing(PcOf(run[i], t), s);
    assert Book(run[i].bookedSessions, s) == MapOf(run[i].sessions, s);
  }

  /** A `fork` reads its parent's list in its first section and counts it in its last. Whatever happens
      meanwhile, a chunk it read at `i` is handed to the backend before `j` exactly if at some moment
      in between the table has no entry for it. */
  lemma ForkedChunkEvictedIff(run: seq<State>, i: nat, j: nat, u: Tid, s: string, h: Hash)
    requires Run(run) && i <= j < |run|
    requires PcOf(run[i], u) == WantSessions(Fork(s)) && CanStep(run[i], u) && h in MapOf(run[i].sessions, s)
    ensures PcOf(After(run[i], u), u).ForkRead? && h in PcOf(After(run[i], u), u).hashes
    ensures (exists k: nat :: i <= k < j && EvictedIn(run, k, h)) <==> exists k: nat :: i < k <= j && h !in run[k].table
  {
    ListedIsCounted(run, i, s, h);
    EvictedMeanwhileIff(run, i, j, h);
    forall k: nat | i < k <= j ensures HeldIn(run[k], h) <==> h in run[k].table {
      HeldIffInTable(run, k, h);
    }
  }

  /** `st` is reached by a run in which `h` was handed to the backend. */
  ghost predicate ReachedAfterEviction(st: State, h: Hash) {
    exists run: seq<State>, k: nat :: RunTo(run, st) && EvictedIn(run, k, h)
  }

  lemma Evict(st: State, t: Tid, next: State, h: Hash)
    requires Reachable(st) && Goes(st, t, next) && OvertakesNoFork(st, PcOf(st, t)) && h in EvictedBy(st, PcOf(st, t))
    ensures ReachedAfterEviction(next, h)
  {
    var run :| RunTo(run, st);
    var longer := run + [next];
    assert EvictsNow(st, next, t, h);
    OneMoreStep(run, st, next);
    assert RunTo(longer, next) && EvictedIn(longer, |run| - 1, h);
  }

  lemma OneMoreStep(run: seq<State>, st: State, next: State)
    requires RunTo(run, st) && Step(st, next)
    ensures RunTo(run + [next], next)
  {
  }

  lemma StillEvicted(run: seq<State>, next: State, k: nat, h: Hash)
    requires EvictedIn(run, k, h)
    ensures EvictedIn(run + [next], k, h)
  {
  }

  lemma TakeAfterEviction(st: State, t: Tid, next: State, h: Hash)
    requires ReachedAfterEviction(st, h) && Goes(st, t, next) && !PcOf(st, t).EndWantSnapshots?
    ensures ReachedAfterEviction(next, h)
  {
    var run, k :| RunTo(run, st) && EvictedIn(run, k, h);
    assert TakeStep(st, next, t);
    OneMoreStep(run, st, next);
    StillEvicted(run, next, k, h);
  }

  const ALIVE := State(map[], map[], map[1 := ForkSnapshot("s", H)], 2,
    map[0 := Idle, 1 := ForkHoldRefcounts(1, "s", H)], map["s" := NONE], map[], map[1 := Fate(H, Published, Alive)])
  const ALIVE2 := State(map[], map["h" := 1], map[1 := ForkSnapshot("s", H)], 2,
    map[0 := Idle, 1 := Idle], map["s" := NONE], map[1 := H], map[1 := Fate(H, Counted, Alive)])

  lemma AliveSteps()
    ensures Goes(AtPublished(CLOSED), 1, ALIVE) && Goes(ALIVE, 1, ALIVE2)
  {
    CountOne();
    assert ALIVE.bookedForks[1 := H] == map[1 := H];
    assert Forked(ALIVE.fates, 1, Counted) == map[1 := Fate(H, Counted, Alive)];
  }

  lemma EvictUnderFork()
    ensures ReachedAfterEviction(CLOSED, "h")
  {
    CloseUnderFork();
    ClosingLists();
    UncountOne();
    Evict(CLOSING3, 0, CLOSING4, "h");
    TakeAfterEviction(CLOSING4, 0, CLOSED, "h");
  }

  lemma PublishAfterEviction(b: State, h: Hash)
    requires ToPublish(b) && ReachedAfterEviction(b, h)
    ensures ReachedAfterEviction(AtPublished(b), h)
  {
    PublishSteps(b);
    TakeAfterEviction(b, 1, AtPublishing(b), h);
    TakeAfterEviction(AtPublishing(b), 1, AtPublished(b), h);
  }

  lemma CountAfterEviction()
    ensures ReachedAfterEviction(ALIVE2, "h")
  {
    EvictUnderFork();
    PublishAfterEviction(CLOSED, "h");
    AliveSteps();
    TakeAfterEviction(AtPublished(CLOSED), 1, ALIVE, "h");
    TakeAfterEviction(ALIVE, 1, ALIVE2, "h");
  }

  /** Such a run, of callers who overtake no fork: the parent is closed under the fork, and the fork
      lives on with a chunk that the backend was told to evict. */
  lemma ForkOfAnEvictedChunk() returns (run: seq<State>, k: nat)
    ensures Run(run) && EvictedIn(run, k, "h")
    ensures var st := Final(run);
            && (forall t: Tid :: PcOf(st, t).Idle?) && st.sessions == map[]
            && 1 in st.forks && st.forks[1].hashes == ["h"] && st.table == map["h" := 1]
  {
    CountAfterEviction();
    run, k :| RunTo(run, ALIVE2) && EvictedIn(run, k, "h");
  }
}
