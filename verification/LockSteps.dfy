/** The coordinator as its mutexes see it: every request is a sequence of steps, one per lock
    acquisition or release, and any number of requests interleave. Backend calls happen when a
    request is back at `Idle` with its eviction list, so outside every lock. */
module LockSteps {
  import opened Basics
  import opened FirstSeen
  import opened Refcounts
  import opened KvCacheManager

  type Tid = nat

  datatype Lock = Sessions | Snapshots | Refcounts_

  datatype Request =
    | TurnEnd(s: string, hashes: Option<seq<Hash>>)
    | Restore(s: string, list: seq<Hash>)
    | Close(s: string)
    | Fork(s: string)
    | ForkEnd(s: string, forkId: Option<nat>)
    | Inspect(s: string)

  /** Where a request stands: what it holds, what it waits for and its local variables. */
  datatype Pc =
    | Idle
    | WantSessions(req: Request)
    | HoldSessions(req: Request, old_: seq<Hash>, new_: seq<Hash>)
    | HoldSessionsRefcounts(req: Request, old_: seq<Hash>, new_: seq<Hash>)
    | Applied(req: Request, new_: seq<Hash>, evicted: seq<Hash>)
    | LeaveSessions
    | ForkRead(s: string, hashes: seq<Hash>)
    | ForkNumber(s: string, hashes: seq<Hash>)
    | ForkWantSnapshots(id: nat, s: string, hashes: seq<Hash>)
    | ForkHoldSnapshots(id: nat, s: string, hashes: seq<Hash>)
    | ForkWantRefcounts(id: nat, s: string, hashes: seq<Hash>)
    | ForkHoldRefcounts(id: nat, s: string, hashes: seq<Hash>)
    | EndWantSnapshots(s: string, forkId: Option<nat>)
    | EndHoldSnapshots(id: nat, hashes: seq<Hash>)
    | EndHoldSnapshotsRefcounts(id: nat, hashes: seq<Hash>)
    | LeaveSnapshots(evicted: seq<Hash>)
    | RebuildWantSessions
    | RebuildHoldSessions
    | RebuildWantRefcounts(recount: Table)
    | RebuildHoldRefcounts(recount: Table)

  /** How far a `fork` has got with its snapshot, and a `fork_end` with taking it away again. */
  datatype Forking = Numbered | Published | Counted
  datatype Ending = Alive | Consumed | Released
  datatype Fate = Fate(list: seq<Hash>, forking: Forking, ending: Ending)

  /** The shared variables, the requests in flight, and three history variables that no step reads:
      the lists the table currently accounts for, per session and per fork, and the fate of every
      fork numbered so far. */
  datatype State = State(
    sessions: map<string, SessionKvState>,
    table: Table,
    forks: map<nat, ForkSnapshot>,
    nextForkId: nat,
    threads: map<Tid, Pc>,
    bookedSessions: map<string, seq<Hash>>,
    bookedForks: map<nat, seq<Hash>>,
    fates: map<nat, Fate>)

  const INITIAL := State(map[], map[], map[], 1, map[], map[], map[], map[])

  function PcOf(st: State, t: Tid): Pc {
    if t in st.threads then st.threads[t] else Idle
  }

  function Holds(pc: Pc): set<Lock> {
    match pc
    case HoldSessions(_, _, _) => {Sessions}
    case HoldSessionsRefcounts(_, _, _) => {Sessions, Refcounts_}
    case Applied(_, _, _) => {Sessions}
    case LeaveSessions => {Sessions}
    case ForkRead(_, _) => {Sessions}
    case ForkHoldSnapshots(_, _, _) => {Snapshots}
    case ForkHoldRefcounts(_, _, _) => {Refcounts_}
    case EndHoldSnapshots(_, _) => {Snapshots}
    case EndHoldSnapshotsRefcounts(_, _) => {Snapshots, Refcounts_}
    case LeaveSnapshots(_) => {Snapshots}
    case RebuildHoldSessions => {Sessions}
    case RebuildHoldRefcounts(_) => {Refcounts_}
    case _ => {}
  }

  function Wants(pc: Pc): Option<Lock> {
    match pc
    case WantSessions(_) => Some(Sessions)
    case HoldSessions(_, _, _) => Some(Refcounts_)
    case ForkWantSnapshots(_, _, _) => Some(Snapshots)
    case ForkWantRefcounts(_, _, _) => Some(Refcounts_)
    case EndWantSnapshots(_, _) => Some(Snapshots)
    case EndHoldSnapshots(_, _) => Some(Refcounts_)
    case RebuildWantSessions => Some(Sessions)
    case RebuildWantRefcounts(_) => Some(Refcounts_)
    case _ => None
  }

  ghost predicate Free(st: State, lock: Lock) {
    forall t: Tid :: lock !in Holds(PcOf(st, t))
  }

  // ---------------------------------------------------------------- the steps

  function MapOf(sessions: map<string, SessionKvState>, s: string): seq<Hash> {
    StateOf(sessions, s).map_
  }

  function ToDecrement(old_: seq<Hash>, new_: seq<Hash>): seq<Hash> {
    Excluding(Unique(old_), set h | h in new_)
  }

  function ToIncrement(old_: seq<Hash>, new_: seq<Hash>): seq<Hash> {
    Excluding(Unique(new_), set h | h in old_)
  }

  /** `sessions` locked: everything a request does before its next lock operation. */
  function EnterSessions(st: State, req: Request): (State, Pc) {
    var old_ := MapOf(st.sessions, req.s);
    match req
    case TurnEnd(s, hashes) =>
      var st' := st.(sessions := st.sessions[s := SessionKvState(old_, NextTurn(StateOf(st.sessions, s).turnCount))]);
      (st', if hashes.Some? then HoldSessions(req, old_, hashes.value) else LeaveSessions)
    case Restore(s, list) => (st, HoldSessions(req, old_, list))
    case Close(s) =>
      if s in st.sessions then (st.(sessions := st.sessions - {s}), HoldSessions(req, old_, []))
      else (st, LeaveSessions)
    case Fork(s) => (st, if s in st.sessions then ForkRead(s, Unique(old_)) else LeaveSessions)
    case _ => (st, LeaveSessions)
  }

  /** `refcounts` locked and released by a session writer. */
  function ApplySession(st: State, req: Request, old_: seq<Hash>, new_: seq<Hash>): (State, Pc) {
    var dec := ToDecrement(old_, new_);
    (st.(table := Incremented(Decremented(st.table, dec), ToIncrement(old_, new_)),
         bookedSessions := st.bookedSessions[req.s := new_]),
     Applied(req, new_, Evicted(st.table, dec)))
  }

  function StoreSession(st: State, req: Request, new_: seq<Hash>): State {
    if req.Close? then st
    else st.(sessions := st.sessions[req.s := StateOf(st.sessions, req.s).(map_ := new_)])
  }

  /** The snapshot `fork_end` consumes: the one named, or the session's latest. */
  ghost function ChosenFork(forks: map<nat, ForkSnapshot>, s: string, forkId: Option<nat>): (chosen: Option<nat>)
    ensures Chosen(forks, s, forkId, chosen)
  {
    if forkId.Some? then
      if forkId.value in forks && forks[forkId.value].sessionId == s then forkId else None
    else
      var own := set f | f in forks && forks[f].sessionId == s;
      assert forall f: nat :: f in forks && forks[f].sessionId == s ==> f in own;
      if own == {} then None else Some(Latest(own))
  }

  ghost function Latest(ids: set<nat>): (id: nat)
    requires ids != {}
    ensures id in ids && forall i :: i in ids ==> i <= id
  {
    var i :| i in ids;
    if ids == {i} then i
    else
      var j := Latest(ids - {i});
      assert forall k :: k in ids ==> k == i || k in ids - {i};
      if i > j then i else j
  }

  function Forked(fates: map<nat, Fate>, id: nat, forking: Forking): map<nat, Fate> {
    if id in fates then fates[id := fates[id].(forking := forking)] else fates
  }

  function Ended(fates: map<nat, Fate>, id: nat, ending: Ending): map<nat, Fate> {
    if id in fates then fates[id := fates[id].(ending := ending)] else fates
  }

  ghost function EnterSnapshotsToEnd(st: State, s: string, forkId: Option<nat>): (State, Pc) {
    var chosen := ChosenFork(st.forks, s, forkId);
    if chosen.None? then (st, LeaveSnapshots([]))
    else
      var id := chosen.value;
      (st.(forks := st.forks - {id}, fates := Ended(st.fates, id, Consumed)), EndHoldSnapshots(id, st.forks[id].hashes))
  }

  /** The recount `rebuild_refcounts` makes of the sessions alone. */
  ghost function RecountOf(sessions: map<string, SessionKvState>): Table {
    RecountExists(sessions);
    var table :| Exact(table, Maps(sessions), map[]);
    table
  }

  lemma RecountExists(sessions: map<string, SessionKvState>)
    ensures exists table :: Exact(table, Maps(sessions), map[])
  {
    var maps := Maps(sessions);
    var table := map s, h | s in maps && h in maps[s] :: h := |Holders(maps, h)|;
    forall h ensures Count(table, h) == References(maps, map[], h) && (h in table ==> table[h] > 0) {
      assert Holders<nat>(map[], h) == {};
      if h in table {
        var s :| s in maps && h in maps[s];
        assert s in Holders(maps, h);
      } else {
        assert Holders(maps, h) == {};
      }
    }
    assert Exact(table, maps, map[]);
  }

  /** The next step of a request whose wanted lock, if any, is free. */
  ghost function Advance(st: State, pc: Pc): (State, Pc)
    requires !pc.Idle?
  {
    match pc
    case WantSessions(req) => EnterSessions(st, req)
    case HoldSessions(req, old_, new_) => (st, HoldSessionsRefcounts(req, old_, new_))
    case HoldSessionsRefcounts(req, old_, new_) => ApplySession(st, req, old_, new_)
    case Applied(req, new_, _) => (StoreSession(st, req, new_), Idle)
    case LeaveSessions => (st, Idle)
    case ForkRead(s, hashes) => (st, ForkNumber(s, hashes))
    case ForkNumber(s, hashes) =>
      (st.(nextForkId := st.nextForkId + 1, fates := st.fates[st.nextForkId := Fate(hashes, Numbered, Alive)]),
       ForkWantSnapshots(st.nextForkId, s, hashes))
    case ForkWantSnapshots(id, s, hashes) => (st, ForkHoldSnapshots(id, s, hashes))
    case ForkHoldSnapshots(id, s, hashes) =>
      (st.(forks := st.forks[id := ForkSnapshot(s, hashes)], fates := Forked(st.fates, id, Published)),
       ForkWantRefcounts(id, s, hashes))
    case ForkWantRefcounts(id, s, hashes) => (st, ForkHoldRefcounts(id, s, hashes))
    case ForkHoldRefcounts(id, s, hashes) =>
      (st.(table := Incremented(st.table, hashes), bookedForks := st.bookedForks[id := hashes],
           fates := Forked(st.fates, id, Counted)), Idle)
    case EndWantSnapshots(s, forkId) => EnterSnapshotsToEnd(st, s, forkId)
    case EndHoldSnapshots(id, hashes) => (st, EndHoldSnapshotsRefcounts(id, hashes))
    case EndHoldSnapshotsRefcounts(id, hashes) =>
      (st.(table := Decremented(st.table, hashes), bookedForks := st.bookedForks - {id},
           fates := Ended(st.fates, id, Released)),
       LeaveSnapshots(Evicted(st.table, hashes)))
    case LeaveSnapshots(_) => (st, Idle)
    case RebuildWantSessions => (st, RebuildHoldSessions)
    case RebuildHoldSessions => (st, RebuildWantRefcounts(RecountOf(st.sessions)))
    case RebuildWantRefcounts(recount) => (st, RebuildHoldRefcounts(recount))
    case RebuildHoldRefcounts(recount) => (st.(table := recount), Idle)
  }

  ghost predicate CanStep(st: State, t: Tid) {
    && !PcOf(st, t).Idle?
    && (Wants(PcOf(st, t)).Some? ==> Free(st, Wants(PcOf(st, t)).value))
  }

  ghost function After(st: State, t: Tid): State
    requires CanStep(st, t)
  {
    var (st', pc') := Advance(st, PcOf(st, t));
    st'.(threads := st.threads[t := pc'])
  }

  function Started(req: Request): Pc {
    if req.ForkEnd? then EndWantSnapshots(req.s, req.forkId) else WantSessions(req)
  }

  /** The snapshot's list is empty, or its `fork` is not waiting for the table any more: it has
      returned, or at least it is already past the lock and will count before anybody else can. */
  ghost predicate SafeToEnd(st: State, id: nat)
    requires id in st.forks
  {
    st.forks[id].hashes == [] || forall u: Tid :: !AwaitsCounting(PcOf(st, u), id)
  }

  ghost predicate AwaitsCounting(pc: Pc, f: nat) {
    pc.ForkWantRefcounts? && pc.id == f
  }

  /** The one thing asked of callers: a `fork_end` overtakes no `fork` on its way to the table. */
  ghost predicate OvertakesNoFork(st: State, pc: Pc) {
    pc.EndWantSnapshots? ==>
      var chosen := ChosenFork(st.forks, pc.s, pc.forkId);
      chosen.Some? ==> SafeToEnd(st, chosen.value)
  }

  ghost predicate StartStep(st: State, st': State, t: Tid, req: Request) {
    PcOf(st, t).Idle? && st' == st.(threads := st.threads[t := Started(req)])
  }

  ghost predicate TakeStep(st: State, st': State, t: Tid) {
    CanStep(st, t) && OvertakesNoFork(st, PcOf(st, t)) && st' == After(st, t)
  }

  ghost predicate Step(st: State, st': State) {
    || (exists t: Tid, req :: StartStep(st, st', t, req))
    || (exists t: Tid :: TakeStep(st, st', t))
  }

  ghost predicate Run(states: seq<State>) {
    && |states| > 0 && states[0] == INITIAL
    && forall i, j :: 0 <= i && j == i + 1 && j < |states| ==> Step(states[i], states[j])
  }

  /** A request that has published its snapshot and not yet counted it. */
  ghost predicate Pending(pc: Pc, f: nat) {
    (pc.ForkWantRefcounts? || pc.ForkHoldRefcounts?) && pc.id == f
  }

  ghost predicate Writing(pc: Pc, s: string) {
    (pc.HoldSessions? || pc.HoldSessionsRefcounts? || pc.Applied?) && pc.req.s == s
  }

  /** A fork already taken out of the snapshot table but not yet out of the reference counts. */
  ghost predicate TakingAway(pc: Pc, f: nat) {
    (pc.EndHoldSnapshots? || pc.EndHoldSnapshotsRefcounts?) && pc.id == f
  }

  // ---------------------------------------------------------------- callers who do not wait

  /** A step without any discipline, and with recounts at any time. */
  ghost predicate LooseStep(st: State, st': State) {
    || (exists t: Tid, req :: StartStep(st, st', t, req))
    || (exists t: Tid :: StartRebuild(st, st', t))
    || (exists t: Tid :: CanStep(st, t) && st' == After(st, t))
  }

  ghost predicate StartRebuild(st: State, st': State, t: Tid) {
    PcOf(st, t).Idle? && st' == st.(threads := st.threads[t := RebuildWantSessions])
  }

  ghost predicate LooseRun(states: seq<State>) {
    && |states| > 0 && states[0] == INITIAL
    && forall i, j :: 0 <= i && j == i + 1 && j < |states| ==> LooseStep(states[i], states[j])
  }
}
