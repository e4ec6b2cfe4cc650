/** Requests end: no schedule can put off for ever the requests that are under way. */
module LockProgress {
  import opened Basics
  import opened Refcounts
  import opened KvCacheManager
  import opened LockSteps
  import opened LockProperties
  import opened LockRaces

  /** The most steps a request still has to take. */
  function Rank(pc: Pc): nat {
    match pc
    case Idle => 0
    case WantSessions(_) => 7
    case HoldSessions(_, _, _) => 3
    case HoldSessionsRefcounts(_, _, _) => 2
    case Applied(_, _, _) => 1
    case LeaveSessions => 1
    case ForkRead(_, _) => 6
    case ForkNumber(_, _) => 5
    case ForkWantSnapshots(_, _, _) => 4
    case ForkHoldSnapshots(_, _, _) => 3
    case ForkWantRefcounts(_, _, _) => 2
    case ForkHoldRefcounts(_, _, _) => 1
    case EndWantSnapshots(_, _) => 4
    case EndHoldSnapshots(_, _) => 3
    case EndHoldSnapshotsRefcounts(_, _) => 2
    case LeaveSnapshots(_) => 1
    case RebuildWantSessions => 4
    case RebuildHoldSessions => 3
    case RebuildWantRefcounts(_) => 2
    case RebuildHoldRefcounts(_) => 1
  }

  lemma AdvanceDescends(st: State, pc: Pc)
    requires !pc.Idle?
    ensures Rank(Advance(st, pc).1) < Rank(pc)
  {
  }

  /** The steps all requests together still have to take, at most. */
  ghost function Work(threads: map<Tid, Pc>): nat {
    if threads == map[] then 0
    else
      var t :| t in threads;
      Rank(threads[t]) + Work(threads - {t})
  }

  lemma {:induction false} WorkOfOne(threads: map<Tid, Pc>, t: Tid)
    requires t in threads
    ensures Work(threads) == Rank(threads[t]) + Work(threads - {t})
  {
    var u :| u in threads && Work(threads) == Rank(threads[u]) + Work(threads - {u});
    if u != t {
      WorkOfOne(threads - {u}, t);
      WorkOfOne(threads - {t}, u);
      assert threads - {u} - {t} == threads - {t} - {u};
    }
  }

  lemma StepDescends(st: State, t: Tid)
    requires CanStep(st, t)
    ensures Work(After(st, t).threads) < Work(st.threads)
  {
    var before, after := st.threads, After(st, t).threads;
    WorkOfOne(before, t);
    WorkOfOne(after, t);
    assert after - {t} == before - {t};
    AdvanceDescends(st, PcOf(st, t));
  }

  /** Requests under way take steps, in any order, and no request begins. */
  ghost predicate Schedule(states: seq<State>) {
    |states| > 0 && forall i, j :: 0 <= i && j == i + 1 && j < |states| ==> Moved(states[i], states[j])
  }

  ghost predicate Moved(st: State, st': State) {
    exists t: Tid :: CanStep(st, t) && st' == After(st, t)
  }

  /** No schedule goes on for longer than there is work. */
  lemma {:induction false} SchedulesAreBounded(states: seq<State>)
    requires Schedule(states)
    ensures |states| - 1 + Work(Final(states).threads) <= Work(states[0].threads)
  {
    if |states| > 1 {
      var n := |states| - 1;
      SchedulesAreBounded(states[..n]);
      assert Moved(states[n - 1], states[n]);
      var t: Tid :| CanStep(states[n - 1], t) && states[n] == After(states[n - 1], t);
      StepDescends(states[n - 1], t);
    }
  }

  ghost predicate AllIdle(st: State) {
    forall t: Tid :: PcOf(st, t).Idle?
  }

  /** So every schedule ends, and when it cannot go on every request has ended: from any state
      whatever, with overtaking and recounts and all. */
  lemma StuckMeansAllIdle(st: State)
    ensures (forall t: Tid :: !CanStep(st, t)) <==> AllIdle(st)
  {
    if t: Tid :| !PcOf(st, t).Idle? {
      NoDeadlock(st, t);
    }
  }

  // ---------------------------------------------------------------- without overtaking

  /** A `fork_end` that has to wait for its `fork` is not stuck either: the fork can step, or the holder
      of the lock it waits for. */
  lemma DisciplinedProgress(st: State, t: Tid) returns (u: Tid)
    requires !PcOf(st, t).Idle?
    ensures CanStep(st, u) && TakeStep(st, After(st, u), u)
  {
    var v: Tid :| CanStep(st, v) by { NoDeadlock(st, t); }
    u := v;
    if !OvertakesNoFork(st, PcOf(st, v)) {
      var id := ChosenFork(st.forks, PcOf(st, v).s, PcOf(st, v).forkId).value;
      u :| AwaitsCounting(PcOf(st, u), id);
      if !CanStep(st, u) {
        u :| Refcounts_ in Holds(PcOf(st, u));
      }
    }
  }

  /** From every state of every run of callers who overtake no fork, the run can go on until every
      request has ended, and nobody needs to overtake for it. */
  lemma {:induction false} EveryRequestCanEnd(run: seq<State>) returns (longer: seq<State>)
    requires Run(run)
    ensures Run(longer) && run <= longer && AllIdle(Final(longer))
    decreases Work(Final(run).threads)
  {
    var st := Final(run);
    longer := run;
    if t: Tid :| !PcOf(st, t).Idle? {
      var u := DisciplinedProgress(st, t);
      StepDescends(st, u);
      longer := EveryRequestCanEnd(run + [After(st, u)]);
    }
  }
}
