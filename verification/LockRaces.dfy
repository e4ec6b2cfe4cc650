/** What goes wrong when a `fork_end` overtakes a `fork`, and exactly when. */
module LockRaces {
  import opened Basics
  import opened FirstSeen
  import opened Refcounts
  import opened KvCacheManager
  import opened LockSteps
  import opened LockInvariant
  import opened LockProperties

  // ---------------------------------------------------------------- exactly when

  /** The step in which `t` consumes snapshot `id`, whatever the fork is doing. */
  ghost predicate Consumes(st: State, st': State, t: Tid, id: nat) {
    && CanStep(st, t) && st' == After(st, t)
    && PcOf(st, t).EndWantSnapshots? && ChosenFork(st.forks, PcOf(st, t).s, PcOf(st, t).forkId) == Some(id)
  }

  ghost function Final(states: seq<State>): State
    requires states != []
  {
    states[|states| - 1]
  }

  /** What may happen from `st` on: any steps of any requests, all of them of callers who overtake no
      fork, except that `t` may consume snapshot `id` when it likes. */
  ghost predicate Continuation(states: seq<State>, st: State, t: Tid, id: nat) {
    && |states| > 0 && states[0] == st
    && forall i, j :: 0 <= i && j == i + 1 && j < |states| ==> Onwards(states[i], states[j], t, id)
  }

  ghost predicate Onwards(st: State, st': State, t: Tid, id: nat) {
    Step(st, st') || Consumes(st, st', t, id)
  }

  lemma Continue(states: seq<State>, st: State, t: Tid, id: nat, next: State) returns (longer: seq<State>)
    requires Continuation(states, st, t, id) && Onwards(Final(states), next, t, id)
    ensures Continuation(longer, st, t, id) && Final(longer) == next
  {
    longer := states + [next];
  }

  ghost predicate ExactHere(st: State) {
    Settled(st) ==> Exact(st.table, Maps(st.sessions), FinishedForks(st))
  }

  ghost predicate StaysExact(states: seq<State>) {
    forall i :: 0 <= i < |states| ==> ExactHere(states[i])
  }

  /** A `fork_end` about to consume a snapshot: the counts stay exact, through this request and the
      fork's own increments and whatever else happens meanwhile or later, if and only if the
      snapshot's list is empty or its `fork` is not waiting for the table any more. */
  lemma EndingStaysExactIff(run: seq<State>, i: nat, t: Tid, id: nat)
    requires Run(run) && i < |run| && CanStep(run[i], t) && PcOf(run[i], t).EndWantSnapshots?
    requires ChosenFork(run[i].forks, PcOf(run[i], t).s, PcOf(run[i], t).forkId) == Some(id)
    ensures (forall states :: Continuation(states, run[i], t, id) ==> StaysExact(states)) <==> SafeToEnd(run[i], id)
  {
    var st := run[i];
    EveryStateOfARun(run, i);
    if SafeToEnd(st, id) {
      forall states | Continuation(states, st, t, id) ensures StaysExact(states) {
        forall n | 0 <= n < |states| ensures ExactHere(states[n]) {
          SafeContinuation(states, st, t, id, n);
          if Settled(states[n]) {
            ExactWhenSettled(states[n]);
          }
        }
      }
    } else {
      var u: Tid :| AwaitsCounting(PcOf(st, u), id);
      var states := OvertakingGoesWrong(st, t, u, id);
      assert !ExactHere(Final(states));
    }
  }

  /** In particular a caller who has its fork id back may end it at any time. */
  lemma ReturnedForksAreSafe(run: seq<State>, i: nat, id: nat)
    requires Run(run) && i < |run| && id in run[i].forks && forall u: Tid :: !Pending(PcOf(run[i], u), id)
    ensures SafeToEnd(run[i], id)
  {
    forall u: Tid ensures !AwaitsCounting(PcOf(run[i], u), id) {
      assert !Pending(PcOf(run[i], u), id);
    }
  }

  /** And no caller can do with less: a fork that has not returned, with anything to count, was for
      a while unsafe to end, and nothing its caller saw since tells the difference. */
  lemma {:induction false} UnreturnedForksWereUnsafe(run: seq<State>, i: nat, u: Tid, id: nat) returns (j: nat)
    requires Run(run) && i < |run| && Pending(PcOf(run[i], u), id)
    requires id in run[i].forks && run[i].forks[id].hashes != []
    ensures j <= i && (forall k :: j <= k <= i ==> Pending(PcOf(run[k], u), id))
    ensures id in run[j].forks && !SafeToEnd(run[j], id)
  {
    if AwaitsCounting(PcOf(run[i], u), id) {
      j := i;
    } else {
      StepBefore(run, i, u);
      PendingBefore(run[i - 1], run[i], u, id);
      j := UnreturnedForksWereUnsafe(run, i - 1, u, id);
    }
  }

  lemma StepBefore(run: seq<State>, i: nat, u: Tid)
    requires Run(run) && i < |run| && !PcOf(run[i], u).Idle?
    ensures i > 0 && Inv(run[i - 1]) && Inv(run[i]) && Step(run[i - 1], run[i])
  {
    assert PcOf(run[0], u).Idle?;
    EveryStateOfARun(run, i - 1);
    EveryStateOfARun(run, i);
  }

  lemma PendingBefore(st: State, st': State, u: Tid, id: nat)
    requires Inv(st) && Inv(st') && Step(st, st') && PcOf(st', u).ForkHoldRefcounts? && PcOf(st', u).id == id
    requires id in st'.forks
    ensures Pending(PcOf(st, u), id) && id in st.forks && st.forks[id].hashes == st'.forks[id].hashes
  {
    if t: Tid, req :| StartStep(st, st', t, req) {
      assert PcOf(st', u) == PcOf(st, u);
    } else {
      var t: Tid :| TakeStep(st, st', t);
      HoldsAfterWants(st, PcOf(st, t));
      assert t == u ==> PcOf(st', u) == Advance(st, PcOf(st, t)).1;
      LiveBefore(st, t, u, id);
    }
  }

  lemma LiveBefore(st: State, t: Tid, u: Tid, id: nat)
    requires Inv(st) && CanStep(st, t) && Inv(After(st, t)) && Pending(PcOf(st, u), id) && id in After(st, t).forks
    ensures id in st.forks && st.forks[id].hashes == After(st, t).forks[id].hashes
  {
    assert ThreadOk(st.fates, PcOf(st, u)) && FateOk(st, id);
    AdvanceKeepsFate(st, PcOf(st, t), id);
    assert FateOk(After(st, t), id);
  }

  lemma HoldsAfterWants(st: State, pc: Pc)
    requires !pc.Idle?
    ensures Advance(st, pc).1.ForkHoldRefcounts? ==> pc.ForkWantRefcounts? && pc.id == Advance(st, pc).1.id
  {
    if pc.WantSessions? {
      PlainEntry(st, pc.req);
    }
  }

  // ---- safe

  ghost predicate StillSafe(st: State, id: nat) {
    && id in st.fates && st.fates[id].forking != Numbered
    && (st.fates[id].list == [] || forall u: Tid :: !AwaitsCounting(PcOf(st, u), id))
  }

  lemma AdvanceKeepsFate(st: State, pc: Pc, id: nat)
    requires !pc.Idle? && id in st.fates && id < st.nextForkId && st.fates[id].forking != Numbered
    ensures var fates := Advance(st, pc).0.fates;
            && id in fates && fates[id].list == st.fates[id].list && fates[id].forking != Numbered
            && (fates[id].ending == Alive ==> st.fates[id].ending == Alive)
    ensures AwaitsCounting(Advance(st, pc).1, id) ==> pc.ForkHoldSnapshots? && pc.id == id
  {
    if pc.WantSessions? {
      PlainEntry(st, pc.req);
    }
  }

  lemma StaysSafe(st: State, st': State, id: nat)
    requires Inv(st) && Step(st, st') && StillSafe(st, id)
    ensures StillSafe(st', id)
  {
    if t: Tid, req :| StartStep(st, st', t, req) {
      forall u: Tid ensures AwaitsCounting(PcOf(st', u), id) ==> AwaitsCounting(PcOf(st, u), id) {
      }
    } else {
      var t: Tid :| TakeStep(st, st', t);
      var pc := PcOf(st, t);
      assert FateOk(st, id) && ThreadOk(st.fates, pc);
      AdvanceKeepsFate(st, pc, id);
      assert PcOf(st', t) == Advance(st, pc).1;
      forall u: Tid ensures AwaitsCounting(PcOf(st', u), id) ==> AwaitsCounting(PcOf(st, u), id) {
        assert u != t ==> PcOf(st', u) == PcOf(st, u);
      }
    }
  }

  lemma {:induction false} SafeContinuation(states: seq<State>, st: State, t: Tid, id: nat, n: nat)
    requires Inv(st) && id in st.forks && SafeToEnd(st, id) && Continuation(states, st, t, id) && n < |states|
    ensures Inv(states[n]) && StillSafe(states[n], id)
  {
    if n == 0 {
      assert FateOk(st, id);
    } else {
      SafeContinuation(states, st, t, id, n - 1);
      assert Onwards(states[n - 1], states[n], t, id);
      if Consumes(states[n - 1], states[n], t, id) {
        assert FateOk(states[n - 1], id);
        assert TakeStep(states[n - 1], states[n], t);
      }
      StepKeepsInv(states[n - 1], states[n]);
      StaysSafe(states[n - 1], states[n], id);
    }
  }

  // ---- not safe

  /** `t` is about to consume snapshot `id`, whose list is not empty and whose `fork`, `u`, is still
      waiting for the table. */
  ghost predicate Poised(st: State, t: Tid, u: Tid, id: nat) {
    && Inv(st) && Free(st, Snapshots)
    && PcOf(st, t).EndWantSnapshots? && ChosenFork(st.forks, PcOf(st, t).s, PcOf(st, t).forkId) == Some(id)
    && AwaitsCounting(PcOf(st, u), id) && id in st.forks && st.forks[id].hashes != []
  }

  /** A request that will soon be out of the way. */
  ghost predicate Quick(pc: Pc) {
    pc.HoldSessions? || pc.HoldSessionsRefcounts? || pc.Applied? || pc.ForkHoldRefcounts?
  }

  lemma QuickAdvance(st: State, pc: Pc)
    requires Quick(pc)
    ensures Advance(st, pc).0.forks == st.forks && Snapshots !in Holds(Advance(st, pc).1)
    ensures pc.HoldSessions? ==> Advance(st, pc).1.HoldSessionsRefcounts?
    ensures pc.HoldSessionsRefcounts? ==> Advance(st, pc).1.Applied?
    ensures pc.Applied? || pc.ForkHoldRefcounts? ==> Advance(st, pc).1.Idle?
  {
  }

  lemma QuickStep(states: seq<State>, st: State, t: Tid, u: Tid, id: nat, x: Tid) returns (longer: seq<State>)
    requires Continuation(states, st, t, id) && Poised(Final(states), t, u, id)
    requires CanStep(Final(states), x) && Quick(PcOf(Final(states), x))
    ensures Continuation(longer, st, t, id) && Poised(Final(longer), t, u, id)
    ensures var a, b := Final(states), Final(longer);
            b == After(a, x) && (forall v: Tid :: v != x ==> PcOf(b, v) == PcOf(a, v))
            && PcOf(b, x) == Advance(a, PcOf(a, x)).1
  {
    var a := Final(states);
    var b := After(a, x);
    assert PcOf(b, x) == Advance(a, PcOf(a, x)).1;
    assert forall v: Tid :: v != x ==> PcOf(b, v) == PcOf(a, v);
    assert TakeStep(a, b, x);
    longer := Continue(states, st, t, id, b);
    TakeStepKeepsInv(a, x);
    QuickAdvance(a, PcOf(a, x));
    assert Free(b, Snapshots) by {
      forall v: Tid ensures Snapshots !in Holds(PcOf(b, v)) {
        assert v != x ==> Snapshots !in Holds(PcOf(a, v));
      }
    }
  }

  lemma HolderIsQuick(fates: map<nat, Fate>, pc: Pc)
    requires Refcounts_ in Holds(pc) && Snapshots !in Holds(pc) && ThreadOk(fates, pc)
    ensures pc.HoldSessionsRefcounts? || pc.ForkHoldRefcounts?
  {
  }

  lemma HolderLetsGo(a: State, x: Tid)
    requires ForksOk(a) && Free(a, Snapshots) && Refcounts_ in Holds(PcOf(a, x))
    ensures Quick(PcOf(a, x)) && CanStep(a, x) && Refcounts_ !in Holds(Advance(a, PcOf(a, x)).1)
  {
    assert Snapshots !in Holds(PcOf(a, x)) && ThreadOk(a.fates, PcOf(a, x));
    HolderIsQuick(a.fates, PcOf(a, x));
    QuickAdvance(a, PcOf(a, x));
  }

  /** Let whoever holds the table's lock finish with it. */
  lemma FreeTheTable(states: seq<State>, st: State, t: Tid, u: Tid, id: nat) returns (longer: seq<State>)
    requires Continuation(states, st, t, id) && Poised(Final(states), t, u, id)
    ensures Continuation(longer, st, t, id) && Poised(Final(longer), t, u, id)
    ensures Free(Final(longer), Refcounts_)
  {
    var a := Final(states);
    longer := states;
    if x: Tid :| Refcounts_ in Holds(PcOf(a, x)) {
      longer := LetGo(states, st, t, u, id, x);
    }
  }

  lemma LetGo(states: seq<State>, st: State, t: Tid, u: Tid, id: nat, x: Tid) returns (longer: seq<State>)
    requires Continuation(states, st, t, id) && Poised(Final(states), t, u, id)
    requires Refcounts_ in Holds(PcOf(Final(states), x))
    ensures Continuation(longer, st, t, id) && Poised(Final(longer), t, u, id)
    ensures Free(Final(longer), Refcounts_)
  {
    HolderLetsGo(Final(states), x);
    longer := QuickStep(states, st, t, u, id, x);
    OnlyOneLeft(Final(states), Final(longer), x, Refcounts_);
  }

  /** When the holder of a lock lets it go and nobody else moves, the lock is free. */
  lemma OnlyOneLeft(a: State, b: State, x: Tid, lock: Lock)
    requires MutualExclusion(a) && lock in Holds(PcOf(a, x)) && lock !in Holds(PcOf(b, x))
    requires forall v: Tid :: v != x ==> PcOf(b, v) == PcOf(a, v)
    ensures Free(b, lock)
  {
    forall v: Tid ensures lock !in Holds(PcOf(b, v)) {
      assert lock in Holds(PcOf(a, v)) ==> v == x;
    }
  }

  /** Let a writer finish. */
  lemma {:induction false} LetFinish(states: seq<State>, st: State, t: Tid, u: Tid, id: nat, w: Tid, n: nat)
    returns (longer: seq<State>)
    requires Continuation(states, st, t, id) && Poised(Final(states), t, u, id)
    requires var a := Final(states);
             || (n == 2 && PcOf(a, w).HoldSessions? && Free(a, Refcounts_))
             || (n == 1 && PcOf(a, w).HoldSessionsRefcounts?)
             || (n == 0 && PcOf(a, w).Applied?)
    ensures Continuation(longer, st, t, id) && Poised(Final(longer), t, u, id)
    ensures PcOf(Final(longer), w).Idle?
    ensures forall v: Tid :: v != w ==> PcOf(Final(longer), v) == PcOf(Final(states), v)
    decreases n
  {
    QuickAdvance(Final(states), PcOf(Final(states), w));
    longer := QuickStep(states, st, t, u, id, w);
    if n > 0 {
      longer := LetFinish(longer, st, t, u, id, w, n - 1);
    }
  }

  ghost predicate NobodyWrites(st: State) {
    forall v: Tid, s :: !Writing(PcOf(st, v), s)
  }

  lemma FreeMeansNobodyWrites(st: State)
    requires Free(st, Sessions)
    ensures NobodyWrites(st)
  {
    forall v: Tid, s ensures !Writing(PcOf(st, v), s) {
      assert Sessions !in Holds(PcOf(st, v));
    }
  }

  /** Let the one writer there may be finish. */
  lemma FinishTheWriter(states: seq<State>, st: State, t: Tid, u: Tid, id: nat) returns (longer: seq<State>)
    requires Continuation(states, st, t, id) && Poised(Final(states), t, u, id)
    requires Free(Final(states), Refcounts_)
    ensures Continuation(longer, st, t, id) && Poised(Final(longer), t, u, id)
    ensures Free(Final(longer), Refcounts_) && NobodyWrites(Final(longer))
  {
    var a := Final(states);
    longer := states;
    if w: Tid, s :| Writing(PcOf(a, w), s) {
      assert Refcounts_ !in Holds(PcOf(a, w));
      longer := LetFinish(states, st, t, u, id, w, if PcOf(a, w).HoldSessions? then 2 else 0);
      OnlyOneLeft(a, Final(longer), w, Sessions);
      FreeMeansNobodyWrites(Final(longer));
      forall v: Tid ensures Refcounts_ !in Holds(PcOf(Final(longer), v)) {
        assert Refcounts_ !in Holds(PcOf(a, v));
      }
    }
  }

  /** Neither lock taken, nobody writing: only requests that wait, or that have not begun. */
  ghost predicate Quiet(st: State) {
    Free(st, Snapshots) && Free(st, Refcounts_) && NobodyWrites(st)
  }

  lemma QuietIsSettled(st: State)
    requires Free(st, Snapshots) && NobodyWrites(st)
    ensures Settled(st)
  {
    forall v: Tid, f: nat ensures !TakingAway(PcOf(st, v), f) {
      assert Snapshots !in Holds(PcOf(st, v));
    }
  }

  /** From `a` on, `t` has consumed the snapshot and decremented its hashes, alone. */
  ghost predicate Taken(a: State, b: State, t: Tid, id: nat) {
    && (forall v: Tid :: v != t ==> PcOf(b, v) == PcOf(a, v))
    && PcOf(b, t).LeaveSnapshots?
    && b.sessions == a.sessions && b.forks == a.forks - {id} && id in a.forks
    && b.table == Decremented(a.table, a.forks[id].hashes)
  }

  lemma GoOn(states: seq<State>, st: State, t: Tid, id: nat, x: Tid) returns (longer: seq<State>)
    requires Continuation(states, st, t, id) && CanStep(Final(states), x) && !PcOf(Final(states), x).EndWantSnapshots?
    ensures Continuation(longer, st, t, id) && Final(longer) == After(Final(states), x)
  {
    assert TakeStep(Final(states), After(Final(states), x), x);
    longer := Continue(states, st, t, id, After(Final(states), x));
  }

  lemma ConsumeAdvance(a: State, pc: Pc, id: nat)
    requires pc.EndWantSnapshots? && ChosenFork(a.forks, pc.s, pc.forkId) == Some(id)
    ensures id in a.forks
    ensures Advance(a, pc) == (a.(forks := a.forks - {id}, fates := Ended(a.fates, id, Consumed)),
                               EndHoldSnapshots(id, a.forks[id].hashes))
  {
  }

  /** `t` consumes the snapshot ... */
  lemma Consume(states: seq<State>, st: State, t: Tid, u: Tid, id: nat) returns (longer: seq<State>)
    requires Continuation(states, st, t, id) && Poised(Final(states), t, u, id) && Quiet(Final(states))
    ensures Continuation(longer, st, t, id)
    ensures var a, b, pc := Final(states), Final(longer), EndHoldSnapshots(id, Final(states).forks[id].hashes);
            && b == a.(forks := a.forks - {id}, fates := Ended(a.fates, id, Consumed), threads := a.threads[t := pc])
            && Free(b, Refcounts_)
  {
    var a := Final(states);
    MayConsume(a, t, u, id);
    longer := Continue(states, st, t, id, After(a, t));
    OneMoved(a, After(a, t), t, EndHoldSnapshots(id, a.forks[id].hashes), Refcounts_);
  }

  lemma MayConsume(a: State, t: Tid, u: Tid, id: nat)
    requires Poised(a, t, u, id)
    ensures CanStep(a, t) && Consumes(a, After(a, t), t, id)
    ensures Advance(a, PcOf(a, t)) == (a.(forks := a.forks - {id}, fates := Ended(a.fates, id, Consumed)),
                                       EndHoldSnapshots(id, a.forks[id].hashes))
  {
    ConsumeAdvance(a, PcOf(a, t), id);
  }

  /** ... waits for nobody, and decrements. */
  lemma TakeAway(states: seq<State>, st: State, t: Tid, u: Tid, id: nat) returns (longer: seq<State>)
    requires Continuation(states, st, t, id) && Poised(Final(states), t, u, id) && Quiet(Final(states))
    ensures Continuation(longer, st, t, id) && Taken(Final(states), Final(longer), t, id)
  {
    var a, list := Final(states), Final(states).forks[id].hashes;
    longer := Consume(states, st, t, u, id);
    OneMoved(a, Final(longer), t, EndHoldSnapshots(id, list), Sessions);
    longer := Decrement(longer, st, t, id, list);
  }

  lemma Decrement(states: seq<State>, st: State, t: Tid, id: nat, list: seq<Hash>) returns (longer: seq<State>)
    requires Continuation(states, st, t, id) && PcOf(Final(states), t) == EndHoldSnapshots(id, list)
    requires Free(Final(states), Refcounts_)
    ensures Continuation(longer, st, t, id)
    ensures var b, d := Final(states), Final(longer);
            && (forall v: Tid :: v != t ==> PcOf(d, v) == PcOf(b, v)) && PcOf(d, t).LeaveSnapshots?
            && d.sessions == b.sessions && d.forks == b.forks && d.table == Decremented(b.table, list)
  {
    var b := Final(states);
    longer := GoOn(states, st, t, id, t);
    var c := Final(longer);
    OneMoved(b, c, t, EndHoldSnapshotsRefcounts(id, list), Sessions);
    longer := GoOn(longer, st, t, id, t);
    OneMoved(c, Final(longer), t, LeaveSnapshots(Evicted(c.table, list)), Sessions);
  }

  /** Only `t` moved, to `pc`: a lock that `pc` does not hold is still free. */
  lemma OneMoved(a: State, b: State, t: Tid, pc: Pc, lock: Lock)
    requires b.threads == a.threads[t := pc]
    ensures PcOf(b, t) == pc && forall v: Tid :: v != t ==> PcOf(b, v) == PcOf(a, v)
    ensures Free(a, lock) && lock !in Holds(pc) ==> Free(b, lock)
  {
    forall v: Tid | Free(a, lock) && lock !in Holds(pc) ensures lock !in Holds(PcOf(b, v)) {
      assert v != t ==> lock !in Holds(PcOf(a, v));
    }
  }

  /** After the decrement the same forks are finished as before it: the one taken away was pending. */
  lemma SameFinished(a: State, b: State, t: Tid, u: Tid, id: nat)
    requires Taken(a, b, t, id) && PcOf(a, t).EndWantSnapshots? && AwaitsCounting(PcOf(a, u), id)
    ensures FinishedForks(b) == FinishedForks(a)
  {
    assert Pending(PcOf(a, u), id);
    forall f: nat ensures f in FinishedForks(b) <==> f in FinishedForks(a) {
      forall v: Tid ensures Pending(PcOf(b, v), f) <==> Pending(PcOf(a, v), f) {
        assert v != t ==> PcOf(b, v) == PcOf(a, v);
      }
    }
  }

  lemma TakenIsSettled(a: State, b: State, t: Tid, id: nat)
    requires Quiet(a) && Taken(a, b, t, id)
    ensures Settled(b)
  {
    forall v: Tid, s ensures !Writing(PcOf(b, v), s) {
      assert v != t ==> PcOf(b, v) == PcOf(a, v);
    }
    forall v: Tid, f: nat ensures !TakingAway(PcOf(b, v), f) {
      assert v != t ==> PcOf(b, v) == PcOf(a, v) && Snapshots !in Holds(PcOf(a, v));
    }
  }

  /** A hash that was in the table is now counted once too little. */
  lemma TooLittle(a: State, b: State, t: Tid, id: nat, h: Hash)
    requires Exact(a.table, Maps(a.sessions), FinishedForks(a))
    requires Taken(a, b, t, id) && FinishedForks(b) == FinishedForks(a)
    requires h in a.forks[id].hashes && h in a.table
    ensures !Exact(b.table, Maps(b.sessions), FinishedForks(b))
  {
    DecrementMeaning(a.table, a.forks[id].hashes, h);
    assert Occurrences(a.forks[id].hashes, h) > 0;
    assert Count(b.table, h) < References(Maps(a.sessions), FinishedForks(a), h);
  }

  /** Hashes that are not in the table leave it as it was. */
  lemma NothingToTake(t: Table, hashes: seq<Hash>)
    requires forall h :: h in hashes ==> h !in t
    ensures Decremented(t, hashes) == t
  {
    var t' := Decremented(t, hashes);
    forall h ensures (h in t' <==> h in t) && (h in t ==> t'[h] == t[h]) {
      DecrementMeaning(t, hashes, h);
      if h !in hashes {
        DecrementZero(t, hashes, h);
      }
    }
  }

  lemma {:induction false} DecrementZero(t: Table, hashes: seq<Hash>, h: Hash)
    requires h !in hashes
    ensures h in Decremented(t, hashes) <==> h in t
    ensures h in t ==> Decremented(t, hashes)[h] == t[h]
  {
    if hashes != [] {
      var front, last := hashes[..|hashes| - 1], hashes[|hashes| - 1];
      assert last in hashes && forall x :: x in front ==> x in hashes;
      DecrementZero(t, front, h);
    }
  }

  /** From `b` on, `u` has counted the fork that is no longer there. */
  ghost predicate CountedLate(b: State, c: State, u: Tid, hashes: seq<Hash>) {
    && c.sessions == b.sessions && c.forks == b.forks && c.table == Incremented(b.table, hashes)
    && Settled(c) && FinishedForks(c) == FinishedForks(b)
  }

  /** `t` leaves, then `u` gets the table and counts. */
  lemma CountLate(states: seq<State>, st: State, a: State, t: Tid, u: Tid, id: nat) returns (longer: seq<State>)
    requires Continuation(states, st, t, id) && Quiet(a) && Taken(a, Final(states), t, id)
    requires AwaitsCounting(PcOf(a, u), id) && u != t
    ensures Continuation(longer, st, t, id)
    ensures CountedLate(Final(states), Final(longer), u, PcOf(a, u).hashes)
  {
    var b, pc := Final(states), PcOf(a, u);
    longer := GoOn(states, st, t, id, t);
    TableFreeAgain(a, b, Final(longer), t);
    longer := CountAlone(longer, st, t, id, u, pc);
    LateIsSettled(a, b, Final(longer), t, u, id);
  }

  lemma CountAlone(states: seq<State>, st: State, t: Tid, id: nat, u: Tid, pc: Pc) returns (longer: seq<State>)
    requires Continuation(states, st, t, id) && Free(Final(states), Refcounts_)
    requires PcOf(Final(states), u) == pc && AwaitsCounting(pc, id)
    ensures Continuation(longer, st, t, id)
    ensures var c, e := Final(states), Final(longer);
            && PcOf(e, u).Idle? && (forall v: Tid :: v != u ==> PcOf(e, v) == PcOf(c, v))
            && e.sessions == c.sessions && e.forks == c.forks && e.table == Incremented(c.table, pc.hashes)
  {
    var c := Final(states);
    longer := GoOn(states, st, t, id, u);
    var d := Final(longer);
    OneMoved(c, d, u, ForkHoldRefcounts(id, pc.s, pc.hashes), Sessions);
    longer := GoOn(longer, st, t, id, u);
    OneMoved(d, Final(longer), u, Idle, Sessions);
  }

  lemma TableFreeAgain(a: State, b: State, c: State, t: Tid)
    requires Free(a, Refcounts_) && c.threads == b.threads[t := Idle]
    requires forall v: Tid :: v != t ==> PcOf(b, v) == PcOf(a, v)
    ensures Free(c, Refcounts_) && PcOf(c, t) == Idle && forall v: Tid :: v != t ==> PcOf(c, v) == PcOf(a, v)
  {
    forall v: Tid ensures Refcounts_ !in Holds(PcOf(c, v)) {
      assert v != t ==> Refcounts_ !in Holds(PcOf(a, v));
    }
  }

  lemma LateIsSettled(a: State, b: State, e: State, t: Tid, u: Tid, id: nat)
    requires Quiet(a) && Taken(a, b, t, id) && AwaitsCounting(PcOf(a, u), id)
    requires e.forks == b.forks && PcOf(e, t).Idle? && PcOf(e, u).Idle?
    requires forall v: Tid :: v != t && v != u ==> PcOf(e, v) == PcOf(a, v)
    ensures Settled(e) && FinishedForks(e) == FinishedForks(b)
  {
    forall v: Tid, s ensures !Writing(PcOf(e, v), s) {
      assert v != t && v != u ==> PcOf(e, v) == PcOf(a, v);
    }
    forall v: Tid, f: nat ensures !TakingAway(PcOf(e, v), f) {
      assert v != t && v != u ==> PcOf(e, v) == PcOf(a, v) && Snapshots !in Holds(PcOf(a, v));
    }
    forall f: nat ensures f in FinishedForks(e) <==> f in FinishedForks(b) {
      forall v: Tid | f != id ensures Pending(PcOf(e, v), f) <==> Pending(PcOf(b, v), f) {
        assert v != t ==> PcOf(b, v) == PcOf(a, v);
      }
    }
  }

  /** A hash nobody held is now counted, and nobody will ever take it out. */
  lemma TooMuch(a: State, c: State, hashes: seq<Hash>, h: Hash)
    requires Exact(a.table, Maps(a.sessions), FinishedForks(a)) && h in hashes
    requires c.sessions == a.sessions && FinishedForks(c) == FinishedForks(a) && c.table == Incremented(a.table, hashes)
    ensures !Exact(c.table, Maps(c.sessions), FinishedForks(c))
  {
    IncrementMeaning(a.table, hashes, h);
    assert Occurrences(hashes, h) > 0;
    assert Count(c.table, h) > References(Maps(a.sessions), FinishedForks(a), h);
  }

  /** Overtaking a fork that waits for the table, with anything to count, can go wrong: either its
      hashes are taken from those who hold them, or they are counted for ever. */
  lemma OvertakingGoesWrong(st: State, t: Tid, u: Tid, id: nat) returns (states: seq<State>)
    requires Poised(st, t, u, id)
    ensures Continuation(states, st, t, id) && !ExactHere(Final(states))
  {
    states := FreeTheTable([st], st, t, u, id);
    states := FinishTheWriter(states, st, t, u, id);
    states := OvertakeQuietly(states, st, t, u, id);
  }

  lemma OvertakeQuietly(before: seq<State>, st: State, t: Tid, u: Tid, id: nat) returns (states: seq<State>)
    requires Continuation(before, st, t, id) && Poised(Final(before), t, u, id) && Quiet(Final(before))
    ensures Continuation(states, st, t, id) && !ExactHere(Final(states))
  {
    var a := Final(before);
    PoisedFacts(a, t, u, id);
    states := TakeAway(before, st, t, u, id);
    var b := Final(states);
    SameFinished(a, b, t, u, id);
    if h :| h in a.forks[id].hashes && h in a.table {
      TakenIsSettled(a, b, t, id);
      TooLittle(a, b, t, id, h);
    } else {
      NothingToTake(a.table, a.forks[id].hashes);
      states := CountLate(states, st, a, t, u, id);
      TooMuch(a, Final(states), PcOf(a, u).hashes, a.forks[id].hashes[0]);
    }
  }

  lemma PoisedFacts(a: State, t: Tid, u: Tid, id: nat)
    requires Poised(a, t, u, id) && Quiet(a)
    ensures u != t && PcOf(a, u).hashes == a.forks[id].hashes
    ensures Exact(a.table, Maps(a.sessions), FinishedForks(a))
  {
    assert FateOk(a, id) && ThreadOk(a.fates, PcOf(a, u));
    QuietIsSettled(a);
    ExactWhenSettled(a);
  }
}
