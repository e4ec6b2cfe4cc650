/** A leaked count stays: after it, every table is that of a system with one more session, which lists
    the leaked chunk and which nobody ever names. */
module LockLeak {
  import opened Basics
  import opened FirstSeen
  import opened Refcounts
  import opened KvCacheManager
  import opened LockSteps
  import opened LockInvariant
  import opened LockProperties
  import opened LockRaces
  import opened LockExamples

  /** What a request writes to is not session `g`. */
  predicate Avoids(pc: Pc, g: string) {
    pc.WantSessions? || pc.HoldSessions? || pc.HoldSessionsRefcounts? || pc.Applied? ==> pc.req.s != g
  }

  /** `st` with a session `g` in place of the fork that leaked its count. */
  function Haunted(st: State, g: string): State {
    st.(sessions := st.sessions[g := SessionKvState(H, 0)],
        bookedSessions := st.bookedSessions[g := H],
        bookedForks := st.bookedForks - {1})
  }

  ghost predicate Haunts(st: State, g: string) {
    && Inv(Haunted(st, g)) && g !in st.sessions && (forall t: Tid :: Avoids(PcOf(st, t), g))
    && 1 in st.fates && st.fates[1].forking == Counted && st.fates[1].ending == Released
  }

  /** A request that avoids `g` and has nothing to do with fork 1 does not see the difference. */
  lemma AdvanceHaunted(st: State, pc: Pc, g: string)
    requires !pc.Idle? && Avoids(pc, g) && !Concerns(pc, 1) && ThreadOk(st.fates, pc)
    ensures Advance(Haunted(st, g), pc) == (Haunted(Advance(st, pc).0, g), Advance(st, pc).1)
  {
    match pc
    case WantSessions(req) => EnterHaunted(st, req, g);
    case HoldSessionsRefcounts(req, old_, new_) =>
      assert st.bookedSessions[g := H][req.s := new_] == st.bookedSessions[req.s := new_][g := H];
    case Applied(req, new_, _) => StoreHaunted(st, req, new_, g);
    case ForkHoldRefcounts(id, _, hashes) =>
      assert (st.bookedForks - {1})[id := hashes] == st.bookedForks[id := hashes] - {1};
    case EndHoldSnapshotsRefcounts(id, _) =>
      assert st.bookedForks - {1} - {id} == st.bookedForks - {id} - {1};
    case _ =>
  }

  lemma EnterHaunted(st: State, req: Request, g: string)
    requires req.s != g
    ensures EnterSessions(Haunted(st, g), req) == (Haunted(EnterSessions(st, req).0, g), EnterSessions(st, req).1)
  {
    var old_, ghost_ := StateOf(st.sessions, req.s), SessionKvState(H, 0);
    PutsCommute(st.sessions, g, ghost_, req.s, SessionKvState(old_.map_, NextTurn(old_.turnCount)));
    assert st.sessions[g := ghost_] - {req.s} == (st.sessions - {req.s})[g := ghost_];
  }

  lemma PutsCommute<K, V>(m: map<K, V>, a: K, x: V, b: K, y: V)
    requires a != b
    ensures m[a := x][b := y] == m[b := y][a := x]
  {
  }

  lemma StoreHaunted(st: State, req: Request, new_: seq<Hash>, g: string)
    requires req.s != g
    ensures StoreSession(Haunted(st, g), req, new_) == Haunted(StoreSession(st, req, new_), g)
  {
    PutsCommute(st.sessions, g, SessionKvState(H, 0), req.s, StateOf(st.sessions, req.s).(map_ := new_));
  }

  /** Fork 1 is done with, and no request has to do with it. */
  lemma NobodyConcernsTheLeak(st: State, t: Tid, g: string)
    requires Haunts(st, g)
    ensures ThreadOk(st.fates, PcOf(st, t)) && !Concerns(PcOf(st, t), 1)
  {
    assert ThreadOk(Haunted(st, g).fates, PcOf(Haunted(st, g), t));
  }

  lemma TakeHaunted(st: State, t: Tid, g: string)
    requires Haunts(st, g) && CanStep(st, t) && TakeStep(st, After(st, t), t) && Avoids(PcOf(After(st, t), t), g)
    ensures Haunts(After(st, t), g)
  {
    TakesTheSameStep(st, t, g);
    TakeStepKeepsInv(Haunted(st, g), t);
    LeakKept(st, PcOf(st, t), g);
    assert forall u: Tid :: u != t ==> PcOf(After(st, t), u) == PcOf(st, u);
  }

  lemma TakesTheSameStep(st: State, t: Tid, g: string)
    requires Haunts(st, g) && CanStep(st, t) && TakeStep(st, After(st, t), t)
    ensures var haunted, pc := Haunted(st, g), PcOf(st, t);
            && CanStep(haunted, t) && PcOf(haunted, t) == pc && OvertakesNoFork(haunted, pc)
            && After(haunted, t) == Haunted(After(st, t), g)
    ensures !Concerns(PcOf(st, t), 1) && ThreadOk(st.fates, PcOf(st, t)) && EndsAnother(st, PcOf(st, t))
    ensures 1 < st.nextForkId
  {
    NobodyConcernsTheLeak(st, t, g);
    AdvanceHaunted(st, PcOf(st, t), g);
    assert forall u: Tid :: PcOf(Haunted(st, g), u) == PcOf(st, u);
    assert FateOk(Haunted(st, g), 1);
  }

  lemma LeakKept(st: State, pc: Pc, g: string)
    requires !pc.Idle? && Avoids(pc, g) && !Concerns(pc, 1) && ThreadOk(st.fates, pc) && g !in st.sessions
    requires 1 in st.fates && 1 < st.nextForkId
    requires EndsAnother(st, pc)
    ensures var st' := Advance(st, pc).0;
            g !in st'.sessions && 1 in st'.fates && st'.fates[1] == st.fates[1]
  {
    StaysAbsent(st, pc, g);
  }

  lemma StaysAbsent(st: State, pc: Pc, g: string)
    requires !pc.Idle? && Avoids(pc, g) && g !in st.sessions
    ensures g !in Advance(st, pc).0.sessions
  {
  }

  ghost predicate EndsAnother(st: State, pc: Pc) {
    pc.EndWantSnapshots? ==> ChosenFork(st.forks, pc.s, pc.forkId) != Some(1)
  }

  lemma StartHaunted(st: State, st': State, t: Tid, req: Request, g: string)
    requires Haunts(st, g) && StartStep(st, st', t, req) && Avoids(Started(req), g)
    ensures Haunts(st', g)
  {
    assert StartStep(Haunted(st, g), Haunted(st', g), t, req);
    StartKeepsInv(Haunted(st, g), Haunted(st', g), t, req);
    assert forall u: Tid :: u != t ==> PcOf(st', u) == PcOf(st, u);
  }

  lemma StepHaunted(st: State, st': State, g: string)
    requires Haunts(st, g) && Step(st, st') && forall t: Tid :: Avoids(PcOf(st', t), g)
    ensures Haunts(st', g)
  {
    if t: Tid, req :| StartStep(st, st', t, req) {
      assert PcOf(st', t) == Started(req);
      StartHaunted(st, st', t, req, g);
    } else {
      var t: Tid :| TakeStep(st, st', t);
      TakeHaunted(st, t, g);
    }
  }

  // ---------------------------------------------------------------- a session nobody names

  function NameOf(pc: Pc): string {
    if pc.WantSessions? || pc.HoldSessions? || pc.HoldSessionsRefcounts? || pc.Applied? then pc.req.s else ""
  }

  ghost function Names(states: seq<State>): set<string> {
    set i, t | 0 <= i < |states| && t in states[i].threads :: NameOf(states[i].threads[t])
  }

  lemma {:induction false} LongerThanAll(names: set<string>) returns (n: nat)
    ensures forall s :: s in names ==> |s| < n
  {
    n := 0;
    if names != {} {
      var s :| s in names;
      n := LongerThanAll(names - {s});
      n := if |s| < n then n else |s| + 1;
      assert forall x :: x in names ==> x == s || x in names - {s};
    }
  }

  lemma NewName(states: seq<State>) returns (g: string)
    ensures forall i, t: Tid :: 0 <= i < |states| ==> Avoids(PcOf(states[i], t), g)
  {
    var n := LongerThanAll(Names(states));
    g := seq(n, k => 'g');
    forall i, t: Tid | 0 <= i < |states| ensures Avoids(PcOf(states[i], t), g) {
      if t in states[i].threads {
        assert NameOf(states[i].threads[t]) in Names(states);
      }
    }
  }

  // ---------------------------------------------------------------- for ever

  /** What may happen after the leak, as long as callers overtake no fork. */
  ghost predicate AfterTheLeak(states: seq<State>) {
    && |states| > 0 && states[0] == LATE3
    && forall i, j :: 0 <= i && j == i + 1 && j < |states| ==> Step(states[i], states[j])
  }

  lemma LeakHaunts(g: string)
    ensures Haunts(LATE3, g)
  {
    var st := Haunted(LATE3, g);
    assert forall t: Tid :: PcOf(st, t) == Idle;
    assert st.bookedForks == map[] && st.bookedSessions == map["s" := NONE][g := H];
    forall h ensures Count(st.table, h) == References(st.bookedSessions, st.bookedForks, h) {
      assert Holders(st.bookedForks, h) == {};
      assert Holders(st.bookedSessions, h) == if h == "h" then {g} else {};
    }
  }

  lemma {:induction false} HauntedAllAlong(states: seq<State>, i: nat, g: string)
    requires AfterTheLeak(states) && i < |states|
    requires forall k, t: Tid :: 0 <= k < |states| ==> Avoids(PcOf(states[k], t), g)
    ensures Haunts(states[i], g)
  {
    if i == 0 {
      LeakHaunts(g);
    } else {
      HauntedAllAlong(states, i - 1, g);
      StepHaunted(states[i - 1], states[i], g);
    }
  }

  /** Whatever follows, whenever counts are settled, the leaked chunk has exactly one more than it has
      holders, so that it is never evicted again; every other chunk has its due. */
  lemma LeakIsForEver(states: seq<State>, i: nat, h: Hash)
    requires AfterTheLeak(states) && i < |states| && Settled(states[i])
    ensures var st := states[i];
            Count(st.table, h) == References(Maps(st.sessions), FinishedForks(st), h) + if h == "h" then 1 else 0
  {
    var g := NewName(states);
    HauntedAllAlong(states, i, g);
    OneHolderMore(states[i], g, h);
  }

  lemma OneHolderMore(st: State, g: string, h: Hash)
    requires Haunts(st, g) && Settled(st)
    ensures Count(st.table, h) == References(Maps(st.sessions), FinishedForks(st), h) + if h == "h" then 1 else 0
  {
    var haunted := Haunted(st, g);
    HauntedIsSettled(st, g);
    ExactWhenSettled(haunted);
    assert Maps(haunted.sessions) == Maps(st.sessions)[g := H];
    OneMoreHolder(Maps(st.sessions), g, h);
  }

  lemma HauntedIsSettled(st: State, g: string)
    requires Settled(st)
    ensures Settled(Haunted(st, g)) && FinishedForks(Haunted(st, g)) == FinishedForks(st)
  {
    assert forall t: Tid :: PcOf(Haunted(st, g), t) == PcOf(st, t);
  }

  lemma OneMoreHolder(books: map<string, seq<Hash>>, g: string, h: Hash)
    requires g !in books
    ensures |Holders(books[g := H], h)| == |Holders(books, h)| + if h == "h" then 1 else 0
  {
    HoldersAfterPut(books, g, H, h);
    assert g !in Holders(books, h);
  }

  /** And no step hands it to the backend. */
  lemma LeakIsNeverEvicted(states: seq<State>, i: nat, t: Tid)
    requires AfterTheLeak(states) && i < |states|
    requires CanStep(states[i], t) && TakeStep(states[i], After(states[i], t), t)
    ensures "h" !in EvictedBy(states[i], PcOf(states[i], t))
  {
    var g := NewName(states);
    HauntedAllAlong(states, i, g);
    TakesTheSameStep(states[i], t, g);
    EvictsIff(Haunted(states[i], g), t, "h");
    var after := Haunted(After(states[i], t), g);
    assert g in after.bookedSessions && "h" in after.bookedSessions[g];
  }
}
