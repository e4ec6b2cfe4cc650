/** What holds in every run of the lock steps: exact counts, safe evictions, no deadlock. */
module LockProperties {
  import opened FirstSeen
  import opened Refcounts
  import opened KvCacheManager
  import opened LockSteps
  import opened LockInvariant

  // ---- the table

  /** The three steps that move reference counts, with the list each hands to the backend. */
  ghost predicate MovesCounts(pc: Pc) {
    pc.HoldSessionsRefcounts? || pc.ForkHoldRefcounts? || pc.EndHoldSnapshotsRefcounts?
  }

  ghost function EvictedBy(st: State, pc: Pc): seq<Hash> {
    match pc
    case HoldSessionsRefcounts(_, old_, new_) => Evicted(st.table, ToDecrement(old_, new_))
    case EndHoldSnapshotsRefcounts(_, hashes) => Evicted(st.table, hashes)
    case _ => []
  }

  ghost function SkippedBy(st: State, pc: Pc): nat {
    match pc
    case HoldSessionsRefcounts(_, old_, new_) => Skipped(st.table, ToDecrement(old_, new_))
    case EndHoldSnapshotsRefcounts(_, hashes) => Skipped(st.table, hashes)
    case _ => 0
  }

  /** What a `fork` counts was not counted; what a `fork_end` takes out is what was. */
  ghost predicate CountsOk(st: State, pc: Pc) {
    && (pc.ForkHoldRefcounts? ==> NoDuplicates(pc.hashes) && Book(st.bookedForks, pc.id) == [])
    && (pc.EndHoldSnapshotsRefcounts? ==> NoDuplicates(pc.hashes) && Book(st.bookedForks, pc.id) == pc.hashes)
    && !pc.RebuildHoldRefcounts?
  }

  lemma InvGivesCountsOk(st: State, t: Tid)
    requires ForksOk(st)
    ensures CountsOk(st, PcOf(st, t))
  {
    var pc := PcOf(st, t);
    assert ThreadOk(st.fates, pc);
    if pc.ForkHoldRefcounts? || pc.EndHoldSnapshotsRefcounts? {
      assert FateOk(st, pc.id) && Book(st.bookedForks, pc.id) == CountedList(st.fates, pc.id);
    }
  }

  /** Every step keeps the table exact, takes no underflow or missing-entry branch, and lists for
      eviction precisely the hashes whose last booked holder it removes. */
  lemma StepMovesCounts(st: State, pc: Pc)
    requires !pc.Idle? && Exact(st.table, st.bookedSessions, st.bookedForks)
    requires WriterOk(st, pc) && CountsOk(st, pc)
    ensures var st' := Advance(st, pc).0;
            && Exact(st'.table, st'.bookedSessions, st'.bookedForks)
            && NoDuplicates(EvictedBy(st, pc))
            && SkippedBy(st, pc) == 0
            && (MovesCounts(pc) ==>
                  forall h :: h in EvictedBy(st, pc) <==>
                              && Referenced(st.bookedSessions, st.bookedForks, h)
                              && !Referenced(st'.bookedSessions, st'.bookedForks, h))
  {
    if MovesCounts(pc) {
      match pc
      case HoldSessionsRefcounts(req, old_, new_) =>
        ExchangeSession(st.table, ToDecrement(old_, new_), ToIncrement(old_, new_),
                        st.bookedSessions, st.bookedForks, req.s, new_);
      case ForkHoldRefcounts(id, _, hashes) =>
        BookingAFork(st.table, hashes, st.bookedSessions, st.bookedForks, id);
      case EndHoldSnapshotsRefcounts(id, hashes) =>
        ExchangeReleasing(st.table, hashes, st.bookedSessions, st.bookedForks, id);
    } else {
      OtherStepsMoveNothing(st, pc);
    }
  }

  lemma OtherStepsMoveNothing(st: State, pc: Pc)
    requires !pc.Idle? && !MovesCounts(pc) && !pc.RebuildHoldRefcounts?
    ensures var st' := Advance(st, pc).0;
            st'.table == st.table && st'.bookedSessions == st.bookedSessions && st'.bookedForks == st.bookedForks
    ensures EvictedBy(st, pc) == [] && SkippedBy(st, pc) == 0
  {
    if pc.WantSessions? {
      EntryMovesNothing(st, pc.req);
    }
  }

  lemma EntryMovesNothing(st: State, req: Request)
    ensures var st' := EnterSessions(st, req).0;
            st'.table == st.table && st'.bookedSessions == st.bookedSessions && st'.bookedForks == st.bookedForks
  {
  }

  lemma BookingAFork(t: Table, hashes: seq<Hash>, sessions: map<string, seq<Hash>>, forks: map<nat, seq<Hash>>, id: nat)
    requires Exact(t, sessions, forks) && NoDuplicates(hashes) && Book(forks, id) == []
    ensures Exact(Incremented(t, hashes), sessions, forks[id := hashes])
    ensures forall h :: Referenced(sessions, forks, h) ==> Referenced(sessions, forks[id := hashes], h)
  {
    ExchangeFork(t, [], hashes, sessions, forks, id, hashes);
    forall h ensures Referenced(sessions, forks, h) ==> Referenced(sessions, forks[id := hashes], h) {
      assert forall f: nat :: f in forks && h in forks[f] ==> f != id;
    }
  }

  lemma TakeStepKeepsInv(st: State, t: Tid)
    requires Inv(st) && CanStep(st, t) && OvertakesNoFork(st, PcOf(st, t))
    ensures Inv(After(st, t))
  {
    var pc := PcOf(st, t);
    assert WriterOk(st, pc);
    InvGivesCountsOk(st, t);
    StepKeepsMutualExclusion(st, t);
    StepKeepsSessions(st, t);
    StepKeepsForks(st, t);
    StepMovesCounts(st, pc);
  }

  lemma StepKeepsInv(st: State, st': State)
    requires Inv(st) && Step(st, st')
    ensures Inv(st')
  {
    if t: Tid, req :| StartStep(st, st', t, req) {
      StartKeepsInv(st, st', t, req);
    } else {
      var t: Tid :| TakeStep(st, st', t);
      TakeStepKeepsInv(st, t);
    }
  }

  lemma {:induction false} EveryStateOfARun(states: seq<State>, i: nat)
    requires Run(states) && i < |states|
    ensures Inv(states[i])
  {
    if i == 0 {
      InitialInv();
    } else {
      EveryStateOfARun(states, i - 1);
      StepKeepsInv(states[i - 1], states[i]);
    }
  }

  // ---------------------------------------------------------------- main results

  /** The live forks whose `fork` call has finished its increments. */
  ghost function FinishedForks(st: State): map<nat, seq<Hash>> {
    map f | f in st.forks && (forall t: Tid :: !Pending(PcOf(st, t), f)) :: st.forks[f].hashes
  }

  /** No request is between its change to a session or snapshot and its change to the counts. */
  ghost predicate Settled(st: State) {
    && (forall t: Tid, s :: !Writing(PcOf(st, t), s))
    && (forall t: Tid, f: nat :: !TakingAway(PcOf(st, t), f))
  }

  /** So it is whenever `sessions` and `snapshots` are free: an observer holding both sees exact counts. */
  lemma SettledWhenLocksAreFree(st: State)
    requires Free(st, Sessions) && Free(st, Snapshots)
    ensures Settled(st)
  {
    forall t: Tid, s ensures !Writing(PcOf(st, t), s) {
      assert Sessions !in Holds(PcOf(st, t));
    }
    forall t: Tid, f: nat ensures !TakingAway(PcOf(st, t), f) {
      assert Snapshots !in Holds(PcOf(st, t));
    }
  }

  lemma ExactFromBooks(t: Table, a: map<string, seq<Hash>>, b: map<string, seq<Hash>>,
                       c: map<nat, seq<Hash>>, d: map<nat, seq<Hash>>)
    requires Exact(t, a, c)
    requires (forall s :: Book(a, s) == Book(b, s)) && (forall f: nat :: Book(c, f) == Book(d, f))
    ensures Exact(t, b, d)
  {
    forall h ensures Holders(a, h) == Holders(b, h) && Holders(c, h) == Holders(d, h) {
      HoldersByBook(a, b, h);
      HoldersByBook(c, d, h);
    }
  }

  lemma HoldersByBook<K>(a: map<K, seq<Hash>>, b: map<K, seq<Hash>>, h: Hash)
    requires forall k :: Book(a, k) == Book(b, k)
    ensures Holders(a, h) == Holders(b, h)
  {
    assert forall k :: k in Holders(a, h) <==> h in Book(a, k);
    assert forall k :: k in Holders(b, h) <==> h in Book(b, k);
  }

  /** The table counts a fork that is in the snapshot table exactly if its `fork` is not pending. */
  lemma LiveForkIsCounted(st: State, f: nat)
    requires ForksOk(st) && f in st.forks
    ensures (forall u: Tid :: !Pending(PcOf(st, u), f)) <==> st.fates[f].forking == Counted
    ensures Book(st.bookedForks, f) == if st.fates[f].forking == Counted then st.forks[f].hashes else []
  {
    assert FateOk(st, f) && Book(st.bookedForks, f) == CountedList(st.fates, f);
    if u: Tid :| Pending(PcOf(st, u), f) {
      assert ThreadOk(st.fates, PcOf(st, u));
    }
  }

  lemma BookedForksAreFinished(st: State, f: nat)
    requires ForksOk(st) && forall t: Tid :: !TakingAway(PcOf(st, t), f)
    ensures Book(st.bookedForks, f) == Book(FinishedForks(st), f)
  {
    assert Book(st.bookedForks, f) == CountedList(st.fates, f);
    if f in st.forks {
      LiveForkIsCounted(st, f);
    } else if f in st.fates {
      assert FateOk(st, f);
    }
  }

  /** In every state of every interleaving in which no writer is in the middle of its section,
      each count is the number of sessions listing the hash plus the number of live forks that
      have finished their increments, and no entry is zero. */
  lemma ExactInEveryInterleaving(states: seq<State>, i: nat)
    requires Run(states) && i < |states| && Settled(states[i])
    ensures Exact(states[i].table, Maps(states[i].sessions), FinishedForks(states[i]))
  {
    EveryStateOfARun(states, i);
    ExactWhenSettled(states[i]);
  }

  lemma ExactWhenSettled(st: State)
    requires Inv(st) && Settled(st)
    ensures Exact(st.table, Maps(st.sessions), FinishedForks(st))
  {
    forall f: nat ensures Book(st.bookedForks, f) == Book(FinishedForks(st), f) {
      assert forall t: Tid :: !TakingAway(PcOf(st, t), f);
      BookedForksAreFinished(st, f);
    }
    forall s ensures Book(st.bookedSessions, s) == Book(Maps(st.sessions), s) {
      assert forall t: Tid :: !Writing(PcOf(st, t), s);
    }
    ExactFromBooks(st.table, st.bookedSessions, Maps(st.sessions), st.bookedForks, FinishedForks(st));
  }

  /** `h` appears in no list the table counts: not in a session nobody is writing, not in the old
      or new list (before or after its counts move) of one being written, not in a finished fork. */
  ghost predicate Unheld(st: State, t: Tid, h: Hash) {
    && (forall s :: s in st.sessions && (forall u: Tid :: !Writing(PcOf(st, u), s)) ==> h !in st.sessions[s].map_)
    && (forall u: Tid :: u != t ==> !CountsFor(PcOf(st, u), h))
    && (forall f: nat :: f in FinishedForks(st) ==> h !in FinishedForks(st)[f])
  }

  ghost predicate CountsFor(pc: Pc, h: Hash) {
    match pc
    case HoldSessions(_, old_, _) => h in old_
    case HoldSessionsRefcounts(_, old_, _) => h in old_
    case Applied(_, new_, _) => h in new_
    case _ => false
  }

  /** Whatever a request hands to the backend has, in every interleaving, no holder left: not in
      the list the request itself is about to store, nor in any other list the table counts. The
      decrements behind it never hit an underflow or a missing entry. */
  lemma EvictionsAreSafeInEveryInterleaving(states: seq<State>, i: nat, t: Tid, h: Hash)
    requires Run(states) && i < |states| && CanStep(states[i], t) && MovesCounts(PcOf(states[i], t))
    requires h in EvictedBy(states[i], PcOf(states[i], t))
    ensures SkippedBy(states[i], PcOf(states[i], t)) == 0 && NoDuplicates(EvictedBy(states[i], PcOf(states[i], t)))
    ensures Unheld(states[i], t, h)
    ensures PcOf(states[i], t).HoldSessionsRefcounts? ==> h !in PcOf(states[i], t).new_
  {
    var st, pc := states[i], PcOf(states[i], t);
    EveryStateOfARun(states, i);
    assert WriterOk(st, pc);
    InvGivesCountsOk(st, t);
    StepMovesCounts(st, pc);
    assert Advance(st, pc).0.bookedSessions == BooksAfter(st, pc);
    UnheldBySessions(st, t, h);
    UnheldByForks(st, t, h);
  }

  function BooksAfter(st: State, pc: Pc): map<string, seq<Hash>> {
    if pc.HoldSessionsRefcounts? then st.bookedSessions[pc.req.s := pc.new_] else st.bookedSessions
  }

  lemma UnheldBySessions(st: State, t: Tid, h: Hash)
    requires MutualExclusion(st) && SessionsOk(st) && MovesCounts(PcOf(st, t))
    requires forall s :: s in BooksAfter(st, PcOf(st, t)) ==> h !in BooksAfter(st, PcOf(st, t))[s]
    ensures forall s :: s in st.sessions && (forall u: Tid :: !Writing(PcOf(st, u), s)) ==> h !in st.sessions[s].map_
    ensures forall u: Tid :: u != t ==> !CountsFor(PcOf(st, u), h)
    ensures PcOf(st, t).HoldSessionsRefcounts? ==> h !in PcOf(st, t).new_
  {
    var pc, books := PcOf(st, t), BooksAfter(st, PcOf(st, t));
    forall s | s in st.sessions && forall u: Tid :: !Writing(PcOf(st, u), s) ensures h !in st.sessions[s].map_ {
      assert !Writing(pc, s) && Book(books, s) == MapOf(st.sessions, s);
    }
    forall u: Tid | u != t ensures !CountsFor(PcOf(st, u), h) {
      UnheldByWriter(st, t, u, books, h);
    }
    assert pc.HoldSessionsRefcounts? ==> pc.req.s in books;
  }

  lemma UnheldByWriter(st: State, t: Tid, u: Tid, books: map<string, seq<Hash>>, h: Hash)
    requires MutualExclusion(st) && u != t && WriterOk(st, PcOf(st, u))
    requires forall s :: s in books ==> h !in books[s]
    requires Sessions !in Holds(PcOf(st, t)) ==> books == st.bookedSessions
    ensures !CountsFor(PcOf(st, u), h)
  {
    assert Sessions in Holds(PcOf(st, t)) && Sessions in Holds(PcOf(st, u)) ==> t == u;
  }

  lemma UnheldByForks(st: State, t: Tid, h: Hash)
    requires ForksOk(st) && !PcOf(st, t).Idle? && MovesCounts(PcOf(st, t))
    requires var st' := Advance(st, PcOf(st, t)).0; !Referenced(st'.bookedSessions, st'.bookedForks, h)
    ensures forall f: nat :: f in FinishedForks(st) ==> h !in FinishedForks(st)[f]
  {
    var pc, st' := PcOf(st, t), Advance(st, PcOf(st, t)).0;
    assert ThreadOk(st.fates, pc);
    forall f: nat | f in FinishedForks(st) ensures h !in FinishedForks(st)[f] {
      LiveForkIsCounted(st, f);
      assert FateOk(st, f);
      assert pc.EndHoldSnapshotsRefcounts? ==> f != pc.id;
      assert pc.ForkHoldRefcounts? ==> f != pc.id;
      assert Book(st'.bookedForks, f) == Book(st.bookedForks, f);
    }
  }

  /** Whatever state the locks are in, reachable or not: while some request is under way, some
      request can step. `rebuild_refcounts` included, `refcounts` is always the last lock taken. */
  lemma NoDeadlock(st: State, t: Tid)
    requires !PcOf(st, t).Idle?
    ensures exists u: Tid :: CanStep(st, u)
  {
    var u := Unblock(st, t);
    var v := Unblock(st, u);
  }

  /** Who to let run: the request itself, or the holder of the lock it waits for. A holder of
      `refcounts` waits for nothing, any other holder at most for `refcounts`. */
  lemma Unblock(st: State, t: Tid) returns (u: Tid)
    requires !PcOf(st, t).Idle?
    ensures !PcOf(st, u).Idle?
    ensures Wants(PcOf(st, t)).None? || Free(st, Wants(PcOf(st, t)).value) ==> CanStep(st, t)
    ensures !CanStep(st, t) ==> Wants(PcOf(st, t)).value in Holds(PcOf(st, u))
    ensures !CanStep(st, t) ==> Wants(PcOf(st, u)).None? || Wants(PcOf(st, u)).value == Refcounts_
    ensures !CanStep(st, t) && Wants(PcOf(st, t)).value == Refcounts_ ==> CanStep(st, u)
  {
    u := t;
    if !CanStep(st, t) {
      u :| Wants(PcOf(st, t)).value in Holds(PcOf(st, u));
    }
  }
}
