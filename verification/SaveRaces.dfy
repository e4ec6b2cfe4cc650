/** The daemon's event handlers side by side: each takes the coordinator's lock and the store's one
    operation at a time, so that events interleave between memory and store. */
module SaveRaces {
  import opened Basics
  import opened Refcounts
  import opened KvCacheManager
  import opened Daemon

  type Tid = nat

  /** What a request does next. The first of each kind is where a request begins. */
  datatype Pc =
    | Idle
    | Turning(s: string, hashes: Option<seq<Hash>>)
    | ReadingMap(s: string)
    | ReadingCount(s: string, list: seq<Hash>)
    | Saving(s: string, list: seq<Hash>, turnCount: nat)
    | Closing(s: string)
    | CheckingPin(s: string)
    | Removing(s: string)
    | Pinning(s: string)
    | Suspending(s: string)
    | Restoring(s: string)
    | Loading(s: string)
    | Reloading(s: string, list: seq<Hash>)
    | PinningBack(s: string)

  datatype State = State(world: World, threads: map<Tid, Pc>)

  /** `ok` is whether the debug file, or the row, can be written, where that is what is done. */
  datatype Action = Begin(t: Tid, pc: Pc) | Go(t: Tid, ok: bool) | Crash

  function PcOf(st: State, t: Tid): Pc {
    if t in st.threads then st.threads[t] else Idle
  }

  predicate IsFirst(pc: Pc) {
    && (pc.Turning? || pc.Closing? || pc.Pinning? || pc.Restoring?)
    && pc.s != "" && (pc.Turning? ==> !Oversized(pc.hashes))
  }

  /** One operation of one request, and where that leaves the request. */
  function Advance(w: World, pc: Pc, ok: bool): (World, Pc) {
    match pc
    case Idle => (w, Idle)
    case Turning(s, hashes) =>
      (w.(sessions := w.sessions[s := AfterTurn(w.sessions, s, hashes)]), if ok then ReadingMap(s) else Idle)
    case ReadingMap(s) => (w, if s in w.sessions then ReadingCount(s, w.sessions[s].map_) else Idle)
    case ReadingCount(s, list) => (w, Saving(s, list, StateOf(w.sessions, s).turnCount))
    case Saving(s, list, turnCount) =>
      (if ok then w.(rows := w.rows[s := SessionKvState(list, turnCount)]) else w, Idle)
    case Closing(s) => (w.(sessions := w.sessions - {s}), CheckingPin(s))
    case CheckingPin(s) => (w, if s in w.pins then Idle else Removing(s))
    case Removing(s) => (w.(rows := w.rows - {s}), Idle)
    case Pinning(s) => (w.(pins := w.pins + {s}), Suspending(s))
    case Suspending(s) => (w.(sessions := w.sessions - {s}), Idle)
    case Restoring(s) =>
      (w, if StateOf(w.sessions, s).map_ != [] then Reloading(s, w.sessions[s].map_) else Loading(s))
    case Loading(s) => (w, if StateOf(w.rows, s).map_ != [] then Reloading(s, w.rows[s].map_) else Idle)
    case Reloading(s, list) =>
      (w.(sessions := w.sessions[s := SessionKvState(list, StateOf(w.sessions, s).turnCount)]), PinningBack(s))
    case PinningBack(s) => (w.(pins := w.pins + {s}), Idle)
  }

  /** A request that is under way cannot begin; a crash ends every request and the daemon restarts. */
  function After(st: State, a: Action): State {
    match a
    case Begin(t, pc) => if PcOf(st, t).Idle? && IsFirst(pc) then st.(threads := st.threads[t := pc]) else st
    case Go(t, ok) =>
      var (world, pc) := Advance(st.world, PcOf(st, t), ok);
      State(world, st.threads[t := pc])
    case Crash => State(Apply(st.world, Event.Restart), map[])
  }

  const EMPTY := State(World(map[], map[], {}), map[])

  function Story(actions: seq<Action>): State {
    if actions == [] then EMPTY else After(Story(actions[..|actions| - 1]), actions[|actions| - 1])
  }

  /** The state before action `n`. */
  function Before(actions: seq<Action>, n: nat): State
    requires n <= |actions|
  {
    Story(actions[..n])
  }

  lemma NextState(actions: seq<Action>, n: nat)
    requires n < |actions|
    ensures Before(actions, n + 1) == After(Before(actions, n), actions[n])
  {
    assert actions[..n + 1][..n] == actions[..n];
  }

  lemma FrontState(actions: seq<Action>, m: nat, n: nat)
    requires n <= m <= |actions|
    ensures Before(actions[..m], n) == Before(actions, n)
  {
    assert actions[..m][..n] == actions[..n];
  }

  // ---------------------------------------------------------------- uninterrupted events

  /** Request `t` takes a step for each of `oks`, and nobody else does anything. */
  function Steps(st: State, t: Tid, oks: seq<bool>): State {
    if oks == [] then st else After(Steps(st, t, oks[..|oks| - 1]), Go(t, oks[|oks| - 1]))
  }

  lemma OneStep(st: State, t: Tid, oks: seq<bool>, ok: bool)
    ensures var before, after := Steps(st, t, oks), Steps(st, t, oks + [ok]);
            (after.world, PcOf(after, t)) == Advance(before.world, PcOf(before, t), ok)
  {
    assert (oks + [ok])[..|oks|] == oks;
  }

  /** What the request does, when it is a whole event: `debug` and `save` are whether the debug file
      and the row can be written. */
  function EventOf(pc: Pc, debug: bool, save: bool): Event
    requires IsFirst(pc)
  {
    match pc
    case Turning(s, hashes) => TurnEnd(s, hashes, debug && save)
    case Closing(s) => Close(s)
    case Pinning(s) => Suspend(s)
    case Restoring(s) => SnapshotRestore(s)
  }

  /** Four operations in a row. */
  function Alone(w: World, pc: Pc, debug: bool, save: bool): (World, Pc) {
    var (one, pc1) := Advance(w, pc, debug);
    var (two, pc2) := Advance(one, pc1, true);
    var (three, pc3) := Advance(two, pc2, true);
    Advance(three, pc3, save)
  }

  lemma TurnAlone(w: World, pc: Pc, debug: bool, save: bool)
    requires IsFirst(pc) && pc.Turning?
    ensures Alone(w, pc, debug, save) == (Apply(w, EventOf(pc, debug, save)), Idle)
  {
  }

  lemma RestoreAlone(w: World, pc: Pc, debug: bool, save: bool)
    requires IsFirst(pc) && pc.Restoring?
    ensures Alone(w, pc, debug, save) == (Apply(w, EventOf(pc, debug, save)), Idle)
  {
  }

  lemma LeaveAlone(w: World, pc: Pc, debug: bool, save: bool)
    requires IsFirst(pc) && (pc.Closing? || pc.Pinning?)
    ensures Alone(w, pc, debug, save) == (Apply(w, EventOf(pc, debug, save)), Idle)
  {
  }

  /** Whatever else the daemon is in the middle of, a request that is not interrupted ends within four
      steps and does what the event does whole. */
  lemma Uninterrupted(st: State, t: Tid, debug: bool, save: bool)
    requires IsFirst(PcOf(st, t))
    ensures var done := Steps(st, t, [debug, true, true, save]);
            PcOf(done, t).Idle? && done.world == Apply(st.world, EventOf(PcOf(st, t), debug, save))
  {
    var w, pc := st.world, PcOf(st, t);
    OneStep(st, t, [], debug);
    OneStep(st, t, [debug], true);
    OneStep(st, t, [debug, true], true);
    OneStep(st, t, [debug, true, true], save);
    assert [] + [debug] == [debug] && [debug] + [true] == [debug, true];
    assert [debug, true] + [true] == [debug, true, true];
    assert [debug, true, true] + [save] == [debug, true, true, save];
    assert Alone(w, pc, debug, save) == (Apply(w, EventOf(pc, debug, save)), Idle) by {
      if pc.Turning? {
        TurnAlone(w, pc, debug, save);
      } else if pc.Restoring? {
        RestoreAlone(w, pc, debug, save);
      } else {
        LeaveAlone(w, pc, debug, save);
      }
    }
  }

  // ---------------------------------------------------------------- who answers for a row

  /** A close that has taken the session out of memory and not yet dealt with its row. */
  predicate Clearing(pc: Pc, s: string) {
    pc == CheckingPin(s) || pc == Removing(s)
  }

  /** The session is in memory, or pinned, or its row is being seen to. */
  ghost predicate Owned(st: State, s: string) {
    s in st.world.sessions || s in st.world.pins || exists t: Tid :: Clearing(PcOf(st, t), s)
  }

  ghost predicate PinsOk(st: State) {
    forall t: Tid :: PcOf(st, t).Suspending? ==> PcOf(st, t).s in st.world.pins
  }

  lemma {:induction false} PinsStayOk(actions: seq<Action>)
    ensures PinsOk(Story(actions))
  {
    if actions != [] {
      PinsStayOk(actions[..|actions| - 1]);
      PinsOkStep(Story(actions[..|actions| - 1]), actions[|actions| - 1]);
    }
  }

  lemma PinsOkStep(st: State, a: Action)
    requires PinsOk(st)
    ensures PinsOk(After(st, a)) && (a.Crash? || st.world.pins <= After(st, a).world.pins)
  {
    forall t: Tid ensures PcOf(After(st, a), t).Suspending? ==> PcOf(After(st, a), t).s in After(st, a).world.pins {
      assert PcOf(st, t).Suspending? ==> PcOf(st, t).s in st.world.pins;
    }
  }

  /** The action stores a row of `s`. */
  predicate IsSave(st: State, a: Action, s: string) {
    a.Go? && a.ok && PcOf(st, a.t).Saving? && PcOf(st, a.t).s == s
  }

  /** Only a save when nobody answers for the session leaves a row nobody answers for. */
  lemma OwnedStep(st: State, a: Action, s: string)
    requires PinsOk(st) && (s in st.world.rows ==> Owned(st, s))
    requires IsSave(st, a, s) ==> Owned(st, s)
    ensures s in After(st, a).world.rows ==> Owned(After(st, a), s)
  {
    var st' := After(st, a);
    if s in st'.world.rows && !a.Crash? && s !in st'.world.sessions && s !in st'.world.pins {
      if t: Tid :| Clearing(PcOf(st, t), s) {
        assert Clearing(PcOf(st', t), s) || PcOf(st, t) == Removing(s);
      } else {
        assert s in st.world.sessions && a.Go?;
        assert PcOf(st, a.t) == Closing(s) && Clearing(PcOf(st', a.t), s);
      }
    }
  }

  lemma UnownedStep(st: State, a: Action, s: string)
    requires PinsOk(st) && (IsSave(st, a, s) ==> Owned(st, s))
    requires s in After(st, a).world.rows && !Owned(After(st, a), s)
    ensures s in st.world.rows && !Owned(st, s)
  {
    if s in st.world.rows ==> Owned(st, s) {
      OwnedStep(st, a, s);
    }
  }

  // ---------------------------------------------------------------- what happened before

  /** Request `t` reads the list of session `s`, which is in memory. */
  predicate Reads(actions: seq<Action>, i: nat, t: Tid, s: string) {
    && i < |actions| && actions[i].Go? && actions[i].t == t
    && PcOf(Before(actions, i), t) == ReadingMap(s) && s in Before(actions, i).world.sessions
  }

  /** It has read the list and not stored the row yet. */
  predicate InHand(pc: Pc, s: string) {
    (pc.ReadingCount? || pc.Saving?) && pc.s == s
  }

  predicate HoldsRow(actions: seq<Action>, j: nat, t: Tid, s: string)
    requires j <= |actions|
  {
    InHand(PcOf(Before(actions, j), t), s)
  }

  /** ... and stores the row. */
  predicate Saves(actions: seq<Action>, k: nat, t: Tid, s: string) {
    k < |actions| && actions[k].Go? && actions[k].t == t && IsSave(Before(actions, k), actions[k], s)
  }

  /** A close takes the session out of memory. */
  predicate Closes(actions: seq<Action>, c: nat, s: string) {
    c < |actions| && actions[c].Go? && PcOf(Before(actions, c), actions[c].t) == Closing(s)
  }

  predicate Removes(actions: seq<Action>, j: nat, s: string) {
    j < |actions| && actions[j].Go? && PcOf(Before(actions, j), actions[j].t) == Removing(s)
  }

  /** One `turn_end` reads, a close intervenes, and then the `turn_end` saves. */
  predicate SavedTooLate(actions: seq<Action>, i: nat, c: nat, k: nat, t: Tid, s: string) {
    && i < c < k < |actions| && Reads(actions, i, t, s) && Closes(actions, c, s) && Saves(actions, k, t, s)
    && (forall j :: i < j <= k ==> HoldsRow(actions, j, t, s))
  }

  lemma {:induction false} ReadBefore(actions: seq<Action>, k: nat, t: Tid, s: string) returns (i: nat)
    requires k <= |actions| && HoldsRow(actions, k, t, s)
    ensures i < k && Reads(actions, i, t, s) && forall j :: i < j <= k ==> HoldsRow(actions, j, t, s)
  {
    assert actions[..0] == [];
    NextState(actions, k - 1);
    if HoldsRow(actions, k - 1, t, s) {
      i := ReadBefore(actions, k - 1, t, s);
    } else {
      i := k - 1;
    }
  }

  /** A session that is neither in memory nor pinned any more was closed, if no crash ended the
      requests meanwhile. */
  lemma {:induction false} ClosedBefore(actions: seq<Action>, i: nat, k: nat, t: Tid, s: string) returns (c: nat)
    requires i < k <= |actions| && s in Before(actions, i).world.sessions
    requires s !in Before(actions, k).world.sessions && s !in Before(actions, k).world.pins
    requires forall j :: i < j <= k ==> HoldsRow(actions, j, t, s)
    ensures i <= c < k && Closes(actions, c, s)
    decreases k
  {
    var st, a := Before(actions, k - 1), actions[k - 1];
    NextState(actions, k - 1);
    PinsStayOk(actions[..k - 1]);
    PinsOkStep(st, a);
    assert HoldsRow(actions, k, t, s);
    if s in st.world.sessions {
      LeftMemory(st, a, s);
      c := k - 1;
    } else {
      c := ClosedBefore(actions, i, k - 1, t, s);
    }
  }

  lemma LeftMemory(st: State, a: Action, s: string)
    requires PinsOk(st) && s in st.world.sessions && !a.Crash?
    requires s !in After(st, a).world.sessions && s !in After(st, a).world.pins
    ensures a.Go? && PcOf(st, a.t) == Closing(s)
  {
  }

  /** A row nobody answers for was saved too late, and has not been removed since. */
  lemma {:induction false} OrphanWasSavedTooLate(actions: seq<Action>, s: string)
    returns (i: nat, c: nat, k: nat, t: Tid)
    requires s in Story(actions).world.rows && !Owned(Story(actions), s)
    ensures SavedTooLate(actions, i, c, k, t, s) && forall j :: k < j < |actions| ==> !Removes(actions, j, s)
  {
    var n := |actions| - 1;
    var st, a := Before(actions, n), actions[n];
    assert actions[..n + 1] == actions;
    NextState(actions, n);
    PinsStayOk(actions[..n]);
    if IsSave(st, a, s) && !Owned(st, s) {
      k, t := n, a.t;
      i := ReadBefore(actions, k, t, s);
      c := ClosedBefore(actions, i, k, t, s);
      ReadIsNoClose(actions, i, t, s);
    } else {
      UnownedStep(st, a, s);
      i, c, k, t := OrphanWasSavedTooLate(actions[..n], s);
      StillTooLate(actions, n, i, c, k, t, s);
    }
  }

  lemma ReadIsNoClose(actions: seq<Action>, i: nat, t: Tid, s: string)
    requires Reads(actions, i, t, s)
    ensures !Closes(actions, i, s)
  {
  }

  lemma StillTooLate(actions: seq<Action>, n: nat, i: nat, c: nat, k: nat, t: Tid, s: string)
    requires n + 1 == |actions| && SavedTooLate(actions[..n], i, c, k, t, s) && s in Story(actions).world.rows
    requires forall j :: k < j < n ==> !Removes(actions[..n], j, s)
    ensures SavedTooLate(actions, i, c, k, t, s) && forall j :: k < j < |actions| ==> !Removes(actions, j, s)
  {
    FrontState(actions, n, i);
    FrontState(actions, n, c);
    FrontState(actions, n, k);
    forall j | i < j <= k ensures HoldsRow(actions, j, t, s) {
      FrontState(actions, n, j);
      assert HoldsRow(actions[..n], j, t, s);
    }
    forall j | k < j < |actions| ensures !Removes(actions, j, s) {
      FrontState(actions, n, j);
      NextState(actions, n);
      assert actions[..n + 1] == actions;
      assert j < n ==> !Removes(actions[..n], j, s);
    }
  }

  /** A row that was saved stays until it is removed. */
  lemma {:induction false} SavedStays(actions: seq<Action>, k: nat, n: nat, t: Tid, s: string)
    requires k < n <= |actions| && Saves(actions, k, t, s)
    requires forall j :: k < j < n ==> !Removes(actions, j, s)
    ensures s in Before(actions, n).world.rows
  {
    NextState(actions, n - 1);
    if k < n - 1 {
      SavedStays(actions, k, n - 1, t, s);
      assert !Removes(actions, n - 1, s);
    }
  }

  /** After any interleaving: a session that is not in memory, not pinned and not being closed comes
      back when the daemon restarts exactly if some `turn_end` read its list, a close came in
      between, the `turn_end` saved, and no close has removed the row since. */
  lemma ClosedReturnsIffSavedTooLate(actions: seq<Action>, s: string)
    requires !Owned(Story(actions), s)
    ensures s in Story(actions + [Crash]).world.sessions <==>
            exists i, c, k, t :: SavedTooLate(actions, i, c, k, t, s) && NotRemovedSince(actions, k, s)
  {
    CrashBringsBackRows(actions);
    if s in Story(actions).world.rows {
      var i, c, k, t := OrphanWasSavedTooLate(actions, s);
      assert NotRemovedSince(actions, k, s);
    }
    if i, c, k, t :| SavedTooLate(actions, i, c, k, t, s) && NotRemovedSince(actions, k, s) {
      SavedStays(actions, k, |actions|, t, s);
      WholeStory(actions);
    }
  }

  lemma CrashBringsBackRows(actions: seq<Action>)
    ensures Story(actions + [Crash]).world.sessions == Story(actions).world.rows
  {
    OneMore(actions, Crash);
  }

  lemma WholeStory(actions: seq<Action>)
    ensures Before(actions, |actions|) == Story(actions)
  {
    assert actions[..|actions|] == actions;
  }

  predicate NotRemovedSince(actions: seq<Action>, k: nat, s: string) {
    forall j :: k < j < |actions| ==> !Removes(actions, j, s)
  }

  lemma OneMore(actions: seq<Action>, a: Action)
    ensures Story(actions + [a]) == After(Story(actions), a)
  {
    assert (actions + [a])[..|actions|] == actions;
  }

  // ---------------------------------------------------------------- a closed session comes back

  const ROW := SessionKvState(["h"], 1)

  /** The stories in which request 0 is at `pc`, request 1 at `other`, and there is nothing but `s`. */
  function Facing(sessions: map<string, SessionKvState>, rows: map<string, SessionKvState>, pc: Pc, other: Pc): State {
    State(World(sessions, rows, {}), map[0 := pc, 1 := other])
  }

  ghost predicate Reachable(st: State) {
    exists actions :: Story(actions) == st
  }

  lemma Then(st: State, a: Action, next: State)
    requires Reachable(st) && After(st, a) == next
    ensures Reachable(next)
  {
    var actions :| Story(actions) == st;
    OneMore(actions, a);
  }

  /** Request 0 has read the list, and request 1 is about to close the session. */
  lemma ReadAndClosing()
    ensures Reachable(Facing(map["s" := ROW], map[], ReadingCount("s", ["h"]), Closing("s")))
  {
    var turn, reading, closing := Turning("s", Some(["h"])), ReadingCount("s", ["h"]), Closing("s");
    assert Story([]) == EMPTY;
    Then(EMPTY, Begin(0, turn), State(EMPTY.world, map[0 := turn]));
    Then(State(EMPTY.world, map[0 := turn]), Begin(1, closing), Facing(map[], map[], turn, closing));
    Then(Facing(map[], map[], turn, closing), Go(0, true), Facing(map["s" := ROW], map[], ReadingMap("s"), closing));
    Then(Facing(map["s" := ROW], map[], ReadingMap("s"), closing), Go(0, true),
         Facing(map["s" := ROW], map[], reading, closing));
  }

  /** ... closes it, and is done. */
  lemma ReadAndClosed()
    ensures Reachable(Facing(map[], map[], ReadingCount("s", ["h"]), Idle))
  {
    ReadAndClosing();
    var reading := ReadingCount("s", ["h"]);
    Then(Facing(map["s" := ROW], map[], reading, Closing("s")), Go(1, true),
         Facing(map[], map[], reading, CheckingPin("s")));
    Then(Facing(map[], map[], reading, CheckingPin("s")), Go(1, true), Facing(map[], map[], reading, Removing("s")));
    Then(Facing(map[], map[], reading, Removing("s")), Go(1, true), Facing(map[], map[], reading, Idle));
  }

  /** The session is closed between the reading of its list and that of its turn count: its row comes
      back after it was removed, with the list and a turn count of nought. */
  lemma ClosedSessionReturns() returns (actions: seq<Action>)
    ensures var st := Story(actions);
            st.world.sessions == map[] && st.world.pins == {} && forall t: Tid :: PcOf(st, t).Idle?
    ensures Story(actions + [Crash]).world.sessions == map["s" := SessionKvState(["h"], 0)]
  {
    ReadAndClosed();
    var row := map["s" := SessionKvState(["h"], 0)];
    Then(Facing(map[], map[], ReadingCount("s", ["h"]), Idle), Go(0, true),
         Facing(map[], map[], Saving("s", ["h"], 0), Idle));
    Then(Facing(map[], map[], Saving("s", ["h"], 0), Idle), Go(0, true), Facing(map[], row, Idle, Idle));
    actions :| Story(actions) == Facing(map[], row, Idle, Idle);
    CrashBringsBackRows(actions);
  }
}
