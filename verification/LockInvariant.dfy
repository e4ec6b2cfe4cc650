/** What every lock step keeps: mutual exclusion, books that agree with the sessions, forks whose
    fate is known, and a table that is exact for the books. */
module LockInvariant {
  import opened Basics
  import opened FirstSeen
  import opened Refcounts
  import opened KvCacheManager
  import opened LockSteps

  ghost predicate MutualExclusion(st: State) {
    forall t: Tid, u: Tid, lock :: lock in Holds(PcOf(st, t)) && lock in Holds(PcOf(st, u)) ==> t == u
  }

  /** A session writer's local view of its own session. */
  ghost predicate WriterOk(st: State, pc: Pc) {
    match pc
    case HoldSessions(req, old_, new_) => Book(st.bookedSessions, req.s) == old_ && CloseOk(st, req, new_)
    case HoldSessionsRefcounts(req, old_, new_) => Book(st.bookedSessions, req.s) == old_ && CloseOk(st, req, new_)
    case Applied(req, new_, _) => Book(st.bookedSessions, req.s) == new_ && CloseOk(st, req, new_)
    case _ => true
  }

  ghost predicate CloseOk(st: State, req: Request, new_: seq<Hash>) {
    req.Close? ==> new_ == [] && req.s !in st.sessions
  }

  ghost predicate SessionsOk(st: State) {
    && (forall t: Tid :: WriterOk(st, PcOf(st, t)))
    && (forall s :: (forall t: Tid :: !Writing(PcOf(st, t), s)) ==> Book(st.bookedSessions, s) == MapOf(st.sessions, s))
  }

  /** A fork that has its number and has not counted yet. */
  ghost predicate NumberedAs(pc: Pc, f: nat) {
    && (pc.ForkWantSnapshots? || pc.ForkHoldSnapshots? || pc.ForkWantRefcounts? || pc.ForkHoldRefcounts?)
    && pc.id == f
  }

  ghost predicate Concerns(pc: Pc, f: nat) {
    NumberedAs(pc, f) || TakingAway(pc, f)
  }

  /** What a request knows of the fork it works on. */
  ghost predicate ThreadOk(fates: map<nat, Fate>, pc: Pc) {
    match pc
    case ForkRead(_, hashes) => NoDuplicates(hashes)
    case ForkNumber(_, hashes) => NoDuplicates(hashes)
    case ForkWantSnapshots(id, _, hashes) => id in fates && fates[id] == Fate(hashes, Numbered, Alive)
    case ForkHoldSnapshots(id, _, hashes) => id in fates && fates[id] == Fate(hashes, Numbered, Alive)
    case ForkWantRefcounts(id, _, hashes) =>
      && id in fates && fates[id].list == hashes && fates[id].forking == Published
      && (fates[id].ending == Alive || hashes == [])
    case ForkHoldRefcounts(id, _, hashes) =>
      && id in fates && fates[id].list == hashes && fates[id].forking == Published
      && (fates[id].ending == Released ==> hashes == [])
    case EndHoldSnapshots(id, hashes) => EndOk(fates, id, hashes)
    case EndHoldSnapshotsRefcounts(id, hashes) =>
      EndOk(fates, id, hashes) && (fates[id].forking == Counted || hashes == [])
    case RebuildWantSessions => false
    case RebuildHoldSessions => false
    case RebuildWantRefcounts(_) => false
    case RebuildHoldRefcounts(_) => false
    case _ => true
  }

  ghost predicate EndOk(fates: map<nat, Fate>, id: nat, hashes: seq<Hash>) {
    id in fates && fates[id].list == hashes && fates[id].ending == Consumed && fates[id].forking != Numbered
  }

  /** The snapshot is in the snapshot table. */
  predicate Live(fate: Fate) {
    fate.forking != Numbered && fate.ending == Alive
  }

  /** What the table counts for a fork. */
  function CountedList(fates: map<nat, Fate>, f: nat): seq<Hash> {
    if f in fates && fates[f].forking == Counted && fates[f].ending != Released then fates[f].list else []
  }

  ghost predicate FateOk(st: State, f: nat)
    requires f in st.fates
  {
    && f < st.nextForkId && NoDuplicates(st.fates[f].list)
    && (f in st.forks <==> Live(st.fates[f]))
    && (f in st.forks ==> st.forks[f].hashes == st.fates[f].list)
    && (st.fates[f].forking == Published ==> exists u: Tid :: Pending(PcOf(st, u), f))
    && (st.fates[f].ending == Consumed ==> exists u: Tid :: TakingAway(PcOf(st, u), f))
  }

  ghost predicate ForksOk(st: State) {
    && (forall t: Tid :: ThreadOk(st.fates, PcOf(st, t)))
    && (forall t: Tid, u: Tid, f: nat :: NumberedAs(PcOf(st, t), f) && NumberedAs(PcOf(st, u), f) ==> t == u)
    && (forall f: nat :: f in st.fates ==> FateOk(st, f))
    && (forall f: nat :: f in st.forks ==> f in st.fates)
    && (forall f: nat :: Book(st.bookedForks, f) == CountedList(st.fates, f))
  }

  ghost predicate Inv(st: State) {
    && MutualExclusion(st)
    && Exact(st.table, st.bookedSessions, st.bookedForks)
    && SessionsOk(st)
    && ForksOk(st)
  }

  lemma InitialInv()
    ensures Inv(INITIAL)
  {
    assert forall t: Tid :: PcOf(INITIAL, t) == Idle;
  }

  lemma StartKeepsInv(st: State, st': State, t: Tid, req: Request)
    requires Inv(st) && StartStep(st, st', t, req)
    ensures Inv(st')
  {
    assert forall u: Tid :: u != t ==> PcOf(st', u) == PcOf(st, u);
    assert PcOf(st', t) == Started(req);
    assert SessionsOk(st') by {
      forall s | forall u: Tid :: !Writing(PcOf(st', u), s)
        ensures Book(st'.bookedSessions, s) == MapOf(st'.sessions, s)
      {
        assert forall u: Tid :: !Writing(PcOf(st, u), s);
      }
    }
    ForksFrame(st, st', t);
  }

  lemma StepKeepsMutualExclusion(st: State, t: Tid)
    requires MutualExclusion(st) && CanStep(st, t)
    ensures MutualExclusion(After(st, t))
  {
    var st', pc := After(st, t), PcOf(st, t);
    var pc' := PcOf(st', t);
    LocksAfter(st, pc);
    forall u: Tid, v: Tid, lock | lock in Holds(PcOf(st', u)) && lock in Holds(PcOf(st', v)) ensures u == v {
      assert u != t ==> PcOf(st', u) == PcOf(st, u);
      assert v != t ==> PcOf(st', v) == PcOf(st, v);
    }
  }

  /** A step acquires at most the lock it wanted. */
  lemma LocksAfter(st: State, pc: Pc)
    requires !pc.Idle?
    ensures Holds(Advance(st, pc).1) <= Holds(pc) + if Wants(pc).Some? then {Wants(pc).value} else {}
  {
  }

  // ---- steps of the session writers and readers

  /** A step that touches no session and whose request writes none, before or after. */
  lemma SessionsFrame(st: State, st': State, t: Tid)
    requires SessionsOk(st)
    requires st'.sessions == st.sessions && st'.bookedSessions == st.bookedSessions
    requires forall u: Tid :: u != t ==> PcOf(st', u) == PcOf(st, u)
    requires forall s :: !Writing(PcOf(st, t), s) && !Writing(PcOf(st', t), s)
    requires WriterOk(st', PcOf(st', t))
    ensures SessionsOk(st')
  {
    assert forall u: Tid :: WriterOk(st, PcOf(st, u));
    forall s | forall u: Tid :: !Writing(PcOf(st', u), s)
      ensures Book(st'.bookedSessions, s) == MapOf(st'.sessions, s)
    {
      assert forall u: Tid :: !Writing(PcOf(st, u), s);
    }
  }

  /** With `sessions` held by `t` alone, the session invariant is about `t` alone. */
  lemma OnlyWriter(st: State, t: Tid)
    requires forall u: Tid :: u != t ==> Sessions !in Holds(PcOf(st, u))
    requires BooksAgreeBut(st, PcOf(st, t))
    ensures SessionsOk(st)
  {
    forall u: Tid ensures WriterOk(st, PcOf(st, u)) {
      assert u != t ==> Sessions !in Holds(PcOf(st, u));
    }
  }

  lemma BooksOfOthers(st: State, t: Tid)
    requires SessionsOk(st)
    requires forall u: Tid :: u != t ==> Sessions !in Holds(PcOf(st, u))
    ensures BooksAgreeBut(st, PcOf(st, t))
  {
    forall s | !Writing(PcOf(st, t), s) ensures Book(st.bookedSessions, s) == MapOf(st.sessions, s) {
      forall u: Tid ensures !Writing(PcOf(st, u), s) {
        assert u != t ==> Sessions !in Holds(PcOf(st, u));
      }
    }
  }

  lemma OthersKeepOut(st: State, t: Tid)
    requires MutualExclusion(st) && CanStep(st, t)
    requires Sessions in Holds(PcOf(st, t)) || Wants(PcOf(st, t)) == Some(Sessions)
    ensures forall u: Tid :: u != t ==> Sessions !in Holds(PcOf(st, u)) && PcOf(After(st, t), u) == PcOf(st, u)
  {
  }

  /** The books agree with the sessions, but for one session being written. */
  ghost predicate BooksAgreeBut(st: State, pc: Pc) {
    WriterOk(st, pc) && forall s :: !Writing(pc, s) ==> Book(st.bookedSessions, s) == MapOf(st.sessions, s)
  }

  lemma EnterStep(st: State, req: Request)
    requires BooksAgreeBut(st, WantSessions(req))
    ensures BooksAgreeBut(EnterSessions(st, req).0, EnterSessions(st, req).1)
  {
    assert Book(st.bookedSessions, req.s) == MapOf(st.sessions, req.s);
  }

  lemma StoreStep(st: State, req: Request, new_: seq<Hash>, evicted: seq<Hash>)
    requires BooksAgreeBut(st, Applied(req, new_, evicted))
    ensures BooksAgreeBut(StoreSession(st, req, new_), Idle)
  {
    var st' := StoreSession(st, req, new_);
    forall s ensures Book(st'.bookedSessions, s) == MapOf(st'.sessions, s) {
      assert s != req.s ==> !Writing(Applied(req, new_, evicted), s);
    }
  }

  lemma ApplyStep(st: State, req: Request, old_: seq<Hash>, new_: seq<Hash>)
    requires BooksAgreeBut(st, HoldSessionsRefcounts(req, old_, new_))
    ensures BooksAgreeBut(ApplySession(st, req, old_, new_).0, ApplySession(st, req, old_, new_).1)
  {
    var (st', pc') := ApplySession(st, req, old_, new_);
    forall s | !Writing(pc', s) ensures Book(st'.bookedSessions, s) == MapOf(st'.sessions, s) {
      assert !Writing(HoldSessionsRefcounts(req, old_, new_), s);
    }
  }

  /** What a step under the `sessions` lock leaves behind. */
  lemma WriterStep(st: State, pc: Pc)
    requires !pc.Idle? && BooksAgreeBut(st, pc)
    requires Sessions in Holds(pc) || Wants(pc) == Some(Sessions)
    ensures BooksAgreeBut(Advance(st, pc).0, Advance(st, pc).1)
  {
    match pc
    case WantSessions(req) => EnterStep(st, req);
    case HoldSessions(req, old_, new_) =>
      assert forall s :: !Writing(HoldSessionsRefcounts(req, old_, new_), s) ==> !Writing(pc, s);
    case HoldSessionsRefcounts(req, old_, new_) => ApplyStep(st, req, old_, new_);
    case Applied(req, new_, evicted) => StoreStep(st, req, new_, evicted);
    case LeaveSessions => assert forall s :: !Writing(pc, s);
    case ForkRead(_, _) => assert forall s :: !Writing(pc, s);
    case _ =>
  }

  lemma StepKeepsSessions(st: State, t: Tid)
    requires MutualExclusion(st) && SessionsOk(st) && CanStep(st, t)
    ensures SessionsOk(After(st, t))
  {
    var pc := PcOf(st, t);
    assert WriterOk(st, pc);
    if Sessions in Holds(pc) || Wants(pc) == Some(Sessions) {
      OthersKeepOut(st, t);
      BooksOfOthers(st, t);
      WriterStep(st, pc);
      assert BooksAgreeBut(After(st, t), PcOf(After(st, t), t));
      OnlyWriter(After(st, t), t);
    } else {
      OtherStep(st, t);
      SessionsFrame(st, After(st, t), t);
    }
  }

  lemma OtherStep(st: State, t: Tid)
    requires CanStep(st, t)
    requires !(Sessions in Holds(PcOf(st, t)) || Wants(PcOf(st, t)) == Some(Sessions))
    ensures var st' := After(st, t);
            && st'.sessions == st.sessions && st'.bookedSessions == st.bookedSessions
            && (forall s :: !Writing(PcOf(st, t), s) && !Writing(PcOf(st', t), s))
            && WriterOk(st', PcOf(st', t))
  {
    OtherAdvance(st, PcOf(st, t));
    assert PcOf(After(st, t), t) == Advance(st, PcOf(st, t)).1;
  }

  lemma OtherAdvance(st: State, pc: Pc)
    requires !pc.Idle? && Sessions !in Holds(pc) && Wants(pc) != Some(Sessions)
    ensures var (st', pc') := Advance(st, pc);
            && st'.sessions == st.sessions && st'.bookedSessions == st.bookedSessions
            && WritesNoSession(pc) && WritesNoSession(pc')
  {
  }

  ghost predicate WritesNoSession(pc: Pc) {
    !pc.HoldSessions? && !pc.HoldSessionsRefcounts? && !pc.Applied?
  }

  // ---- steps of fork and fork_end

  /** A step that leaves forks and fates alone and whose request concerns none. */
  lemma ForksFrame(st: State, st': State, t: Tid)
    requires ForksOk(st)
    requires st'.forks == st.forks && st'.bookedForks == st.bookedForks
    requires st'.fates == st.fates && st'.nextForkId == st.nextForkId
    requires forall u: Tid :: u != t ==> PcOf(st', u) == PcOf(st, u)
    requires forall f: nat :: !Concerns(PcOf(st, t), f) && !Concerns(PcOf(st', t), f)
    requires ThreadOk(st'.fates, PcOf(st', t))
    ensures ForksOk(st')
  {
    forall u: Tid ensures ThreadOk(st'.fates, PcOf(st', u)) {
      assert ThreadOk(st.fates, PcOf(st, u));
    }
    forall f: nat | f in st'.fates ensures FateOk(st', f) {
      OtherFate(st, st', t, f);
    }
    forall u: Tid, f: nat ensures NumberedAs(PcOf(st', u), f) ==> NumberedAs(PcOf(st, u), f) {
      assert !Concerns(PcOf(st', t), f);
    }
  }

  /** A fork that the step of `t` does not concern. */
  lemma OtherFate(st: State, st': State, t: Tid, f: nat)
    requires f in st.fates && f in st'.fates && FateOk(st, f) && st'.nextForkId >= st.nextForkId
    requires st'.fates[f] == st.fates[f] && (f in st'.forks <==> f in st.forks)
    requires f in st.forks ==> st'.forks[f] == st.forks[f]
    requires forall u: Tid :: u != t ==> PcOf(st', u) == PcOf(st, u)
    requires !Concerns(PcOf(st, t), f)
    ensures FateOk(st', f)
  {
    if st.fates[f].forking == Published {
      var u: Tid :| Pending(PcOf(st, u), f);
      assert Pending(PcOf(st', u), f);
    }
    if st.fates[f].ending == Consumed {
      var u: Tid :| TakingAway(PcOf(st, u), f);
      assert TakingAway(PcOf(st', u), f);
    }
  }

  /** Forks, books and fates differ at most at `id`. */
  ghost predicate SameForksBut(st: State, st': State, id: nat) {
    && st'.nextForkId >= st.nextForkId
    && st'.forks - {id} == st.forks - {id}
    && st'.bookedForks - {id} == st.bookedForks - {id}
    && st'.fates - {id} == st.fates - {id}
  }

  lemma SameElsewhere(st: State, st': State, id: nat, f: nat)
    requires SameForksBut(st, st', id) && f != id
    ensures (f in st'.forks <==> f in st.forks) && (f in st.forks ==> st'.forks[f] == st.forks[f])
    ensures (f in st'.fates <==> f in st.fates) && (f in st.fates ==> st'.fates[f] == st.fates[f])
    ensures Book(st'.bookedForks, f) == Book(st.bookedForks, f)
  {
    assert f in st.forks <==> f in st.forks - {id};
    assert f in st'.forks <==> f in st'.forks - {id};
    assert f in st.fates <==> f in st.fates - {id};
    assert f in st'.fates <==> f in st'.fates - {id};
    assert f in st.bookedForks <==> f in st.bookedForks - {id};
    assert f in st'.bookedForks <==> f in st'.bookedForks - {id};
  }

  lemma ThreadElsewhere(st: State, st': State, id: nat, pc: Pc)
    requires SameForksBut(st, st', id) && ThreadOk(st.fates, pc) && !Concerns(pc, id)
    ensures ThreadOk(st'.fates, pc)
  {
    if pc.ForkWantSnapshots? || pc.ForkHoldSnapshots? || pc.ForkWantRefcounts? || pc.ForkHoldRefcounts?
       || pc.EndHoldSnapshots? || pc.EndHoldSnapshotsRefcounts?
    {
      SameElsewhere(st, st', id, pc.id);
    }
  }

  /** What the step must show for the one fork it concerns. */
  ghost predicate ThisFateOk(st': State, id: nat) {
    id in st'.fates && FateOk(st', id) && Book(st'.bookedForks, id) == CountedList(st'.fates, id)
  }

  lemma OneFateStep(st: State, st': State, t: Tid, id: nat)
    requires ForksOk(st) && SameForksBut(st, st', id) && ThisFateOk(st', id)
    requires forall u: Tid :: u != t ==> PcOf(st', u) == PcOf(st, u)
    requires forall u: Tid :: u != t && Concerns(PcOf(st, u), id) ==> ThreadOk(st'.fates, PcOf(st, u))
    requires ThreadOk(st'.fates, PcOf(st', t))
    requires forall f: nat :: f != id ==> !Concerns(PcOf(st, t), f) && !Concerns(PcOf(st', t), f)
    requires NumberedAs(PcOf(st', t), id) ==> forall u: Tid :: u != t ==> !NumberedAs(PcOf(st, u), id)
    ensures ForksOk(st')
  {
    forall u: Tid ensures ThreadOk(st'.fates, PcOf(st', u)) {
      if u != t && !Concerns(PcOf(st, u), id) {
        ThreadElsewhere(st, st', id, PcOf(st, u));
      }
    }
    forall f: nat ensures f in st'.fates ==> FateOk(st', f)
      ensures f in st'.forks ==> f in st'.fates
      ensures Book(st'.bookedForks, f) == CountedList(st'.fates, f)
    {
      if f != id {
        SameElsewhere(st, st', id, f);
        if f in st.fates {
          OtherFate(st, st', t, f);
        }
      }
    }
    NumbersStayUnique(st, st', t, id);
  }

  lemma NumbersStayUnique(st: State, st': State, t: Tid, id: nat)
    requires forall u: Tid, v: Tid, f: nat :: NumberedAs(PcOf(st, u), f) && NumberedAs(PcOf(st, v), f) ==> u == v
    requires forall u: Tid :: u != t ==> PcOf(st', u) == PcOf(st, u)
    requires forall f: nat :: f != id ==> !Concerns(PcOf(st', t), f)
    requires NumberedAs(PcOf(st', t), id) ==> forall u: Tid :: u != t ==> !NumberedAs(PcOf(st, u), id)
    ensures forall u: Tid, v: Tid, f: nat :: NumberedAs(PcOf(st', u), f) && NumberedAs(PcOf(st', v), f) ==> u == v
  {
    forall u: Tid, v: Tid, f: nat | NumberedAs(PcOf(st', u), f) && NumberedAs(PcOf(st', v), f) ensures u == v {
      assert f != id ==> !Concerns(PcOf(st', t), f);
      assert u != t ==> NumberedAs(PcOf(st, u), f);
      assert v != t ==> NumberedAs(PcOf(st, v), f);
    }
  }

  /** `fork` takes a number nobody has. */
  lemma NumberStep(st: State, t: Tid)
    requires ForksOk(st) && CanStep(st, t) && PcOf(st, t).ForkNumber?
    ensures ForksOk(After(st, t))
  {
    var st', id := After(st, t), st.nextForkId;
    assert ThreadOk(st.fates, PcOf(st, t));
    assert id !in st.fates && id !in st.forks;
    forall u: Tid ensures !Concerns(PcOf(st, u), id) {
      assert ThreadOk(st.fates, PcOf(st, u));
    }
    assert Book(st.bookedForks, id) == CountedList(st.fates, id) == [];
    OneFateStep(st, st', t, id);
  }

  /** `fork` waits for or gets a lock; nothing else changes. */
  lemma WaitStep(st: State, t: Tid)
    requires ForksOk(st) && CanStep(st, t) && (PcOf(st, t).ForkWantSnapshots? || PcOf(st, t).ForkWantRefcounts?)
    ensures ForksOk(After(st, t))
  {
    var st', pc := After(st, t), PcOf(st, t);
    var id := pc.id;
    assert ThreadOk(st.fates, pc);
    forall u: Tid | u != t ensures !NumberedAs(PcOf(st, u), id) {
      assert NumberedAs(pc, id);
    }
    StillTakenAway(st, st', t, id);
    assert pc.ForkWantRefcounts? ==> Pending(PcOf(st', t), id);
    OneFateStep(st, st', t, id);
  }

  lemma StillTakenAway(st: State, st': State, t: Tid, id: nat)
    requires id in st.fates && FateOk(st, id) && !TakingAway(PcOf(st, t), id)
    requires forall u: Tid :: u != t ==> PcOf(st', u) == PcOf(st, u)
    ensures st.fates[id].ending == Consumed ==> exists u: Tid :: TakingAway(PcOf(st', u), id)
  {
    if st.fates[id].ending == Consumed {
      var u: Tid :| TakingAway(PcOf(st, u), id);
      assert TakingAway(PcOf(st', u), id);
    }
  }

  lemma StillPending(st: State, st': State, t: Tid, id: nat)
    requires id in st.fates && FateOk(st, id) && !Pending(PcOf(st, t), id)
    requires forall u: Tid :: u != t ==> PcOf(st', u) == PcOf(st, u)
    ensures st.fates[id].forking == Published ==> exists u: Tid :: Pending(PcOf(st', u), id)
  {
    if st.fates[id].forking == Published {
      var u: Tid :| Pending(PcOf(st, u), id);
      assert Pending(PcOf(st', u), id);
    }
  }

  /** `fork` publishes its snapshot. */
  lemma PublishStep(st: State, t: Tid)
    requires ForksOk(st) && CanStep(st, t) && PcOf(st, t).ForkHoldSnapshots?
    ensures ForksOk(After(st, t))
  {
    var st', pc := After(st, t), PcOf(st, t);
    var id := pc.id;
    assert ThreadOk(st.fates, pc) && NumberedAs(pc, id);
    forall u: Tid | u != t ensures !Concerns(PcOf(st, u), id) {
      assert ThreadOk(st.fates, PcOf(st, u));
    }
    assert Pending(PcOf(st', t), id);
    assert Book(st.bookedForks, id) == CountedList(st.fates, id);
    OneFateStep(st, st', t, id);
  }

  /** `fork` counts its snapshot, which may have been consumed by now. */
  lemma CountStep(st: State, t: Tid)
    requires ForksOk(st) && CanStep(st, t) && PcOf(st, t).ForkHoldRefcounts?
    ensures ForksOk(After(st, t))
  {
    var st', pc := After(st, t), PcOf(st, t);
    var id := pc.id;
    assert ThreadOk(st.fates, pc) && NumberedAs(pc, id);
    EndersOutliveCount(st, t, id);
    NowCounted(st, t, id);
    OneFateStep(st, st', t, id);
  }

  lemma NowCounted(st: State, t: Tid, id: nat)
    requires ForksOk(st) && CanStep(st, t) && PcOf(st, t).ForkHoldRefcounts? && PcOf(st, t).id == id
    ensures SameForksBut(st, After(st, t), id) && ThisFateOk(After(st, t), id)
  {
    var pc := PcOf(st, t);
    assert ThreadOk(st.fates, pc) && FateOk(st, id);
    CountedFate(st, After(st, t), t, id, pc.hashes);
  }

  lemma EndersOutliveCount(st: State, t: Tid, id: nat)
    requires ForksOk(st) && NumberedAs(PcOf(st, t), id)
    ensures forall u: Tid :: u != t && Concerns(PcOf(st, u), id) ==>
            ThreadOk(Forked(st.fates, id, Counted), PcOf(st, u))
  {
    forall u: Tid | u != t && Concerns(PcOf(st, u), id) ensures ThreadOk(Forked(st.fates, id, Counted), PcOf(st, u)) {
      assert ThreadOk(st.fates, PcOf(st, u));
      assert !NumberedAs(PcOf(st, u), id);
      EnderOutlivesCount(st.fates, id, PcOf(st, u));
    }
  }

  lemma EnderOutlivesCount(fates: map<nat, Fate>, id: nat, pc: Pc)
    requires ThreadOk(fates, pc) && TakingAway(pc, id)
    ensures ThreadOk(Forked(fates, id, Counted), pc)
  {
  }

  lemma CountedFate(st: State, st': State, t: Tid, id: nat, hashes: seq<Hash>)
    requires id in st.fates && FateOk(st, id) && !TakingAway(PcOf(st, t), id)
    requires st.fates[id].list == hashes && st.fates[id].forking == Published
    requires st.fates[id].ending == Released ==> hashes == []
    requires forall u: Tid :: u != t ==> PcOf(st', u) == PcOf(st, u)
    requires st'.forks == st.forks && st'.nextForkId == st.nextForkId
    requires st'.fates == Forked(st.fates, id, Counted) && st'.bookedForks == st.bookedForks[id := hashes]
    ensures ThisFateOk(st', id)
  {
    StillTakenAway(st, st', t, id);
  }

  /** `fork_end` consumes a snapshot that it may end. */
  lemma ConsumeStep(st: State, t: Tid, id: nat)
    requires ForksOk(st) && CanStep(st, t) && PcOf(st, t).EndWantSnapshots?
    requires id in st.forks && ChosenFork(st.forks, PcOf(st, t).s, PcOf(st, t).forkId) == Some(id) && SafeToEnd(st, id)
    ensures ForksOk(After(st, t))
  {
    var st' := After(st, t);
    assert FateOk(st, id);
    forall u: Tid | u != t && Concerns(PcOf(st, u), id) ensures ThreadOk(st'.fates, PcOf(st, u)) {
      assert ThreadOk(st.fates, PcOf(st, u));
      assert AwaitsCounting(PcOf(st, u), id) ==> st.forks[id].hashes == [];
    }
    ConsumedFate(st, st', t, id);
    OneFateStep(st, st', t, id);
  }

  lemma ConsumedFate(st: State, st': State, t: Tid, id: nat)
    requires id in st.fates && FateOk(st, id) && !Pending(PcOf(st, t), id) && st.fates[id].ending == Alive
    requires Book(st.bookedForks, id) == CountedList(st.fates, id) && TakingAway(PcOf(st', t), id)
    requires forall u: Tid :: u != t ==> PcOf(st', u) == PcOf(st, u)
    requires st'.forks == st.forks - {id} && st'.nextForkId == st.nextForkId
    requires st'.fates == Ended(st.fates, id, Consumed) && st'.bookedForks == st.bookedForks
    ensures ThisFateOk(st', id)
  {
    StillPending(st, st', t, id);
  }

  /** `fork_end` gets the table's lock: by now the fork has been counted, or its list is empty. */
  lemma ReachTableStep(st: State, t: Tid)
    requires ForksOk(st) && CanStep(st, t) && PcOf(st, t).EndHoldSnapshots?
    ensures ForksOk(After(st, t))
  {
    var st', pc := After(st, t), PcOf(st, t);
    var id := pc.id;
    assert ThreadOk(st.fates, pc) && FateOk(st, id);
    CountedByNow(st, id, pc.hashes);
    StillPending(st, st', t, id);
    assert TakingAway(PcOf(st', t), id);
    assert Book(st.bookedForks, id) == CountedList(st.fates, id);
    OneFateStep(st, st', t, id);
  }

  lemma CountedByNow(st: State, id: nat, hashes: seq<Hash>)
    requires forall u: Tid :: ThreadOk(st.fates, PcOf(st, u))
    requires EndOk(st.fates, id, hashes) && FateOk(st, id) && Free(st, Refcounts_)
    ensures st.fates[id].forking == Counted || hashes == []
  {
    if st.fates[id].forking == Published {
      var u: Tid :| Pending(PcOf(st, u), id);
      assert Refcounts_ !in Holds(PcOf(st, u)) && ThreadOk(st.fates, PcOf(st, u));
    }
  }

  /** `fork_end` takes the snapshot out of the counts. */
  lemma ReleaseStep(st: State, t: Tid)
    requires ForksOk(st) && MutualExclusion(st) && CanStep(st, t) && PcOf(st, t).EndHoldSnapshotsRefcounts?
    ensures ForksOk(After(st, t))
  {
    var st', pc := After(st, t), PcOf(st, t);
    var id := pc.id;
    assert ThreadOk(st.fates, pc) && FateOk(st, id);
    forall u: Tid | u != t && Concerns(PcOf(st, u), id) ensures ThreadOk(st'.fates, PcOf(st, u)) {
      assert ThreadOk(st.fates, PcOf(st, u));
      assert Snapshots in Holds(pc) && Snapshots in Holds(PcOf(st, u)) ==> u == t;
    }
    ReleasedFate(st, st', t, id);
    OneFateStep(st, st', t, id);
  }

  lemma ReleasedFate(st: State, st': State, t: Tid, id: nat)
    requires id in st.fates && FateOk(st, id) && !Pending(PcOf(st, t), id) && st.fates[id].ending == Consumed
    requires forall u: Tid :: u != t ==> PcOf(st', u) == PcOf(st, u)
    requires st'.forks == st.forks && st'.nextForkId == st.nextForkId
    requires st'.fates == Ended(st.fates, id, Released) && st'.bookedForks == st.bookedForks - {id}
    ensures ThisFateOk(st', id)
  {
    StillPending(st, st', t, id);
  }

  ghost predicate MovesNoFork(st: State, pc: Pc) {
    && !pc.ForkNumber? && !pc.ForkWantSnapshots? && !pc.ForkHoldSnapshots?
    && !pc.ForkWantRefcounts? && !pc.ForkHoldRefcounts?
    && !pc.EndHoldSnapshots? && !pc.EndHoldSnapshotsRefcounts?
    && (pc.EndWantSnapshots? ==> ChosenFork(st.forks, pc.s, pc.forkId).None?)
  }

  /** Every other step leaves forks alone. */
  lemma PlainStep(st: State, t: Tid)
    requires ForksOk(st) && CanStep(st, t)
    requires MovesNoFork(st, PcOf(st, t))
    ensures ForksOk(After(st, t))
  {
    assert ThreadOk(st.fates, PcOf(st, t));
    PlainAdvance(st, PcOf(st, t));
    assert PcOf(After(st, t), t) == Advance(st, PcOf(st, t)).1;
    ForksFrame(st, After(st, t), t);
  }

  lemma PlainAdvance(st: State, pc: Pc)
    requires !pc.Idle? && ThreadOk(st.fates, pc) && MovesNoFork(st, pc)
    ensures var st' := Advance(st, pc).0;
            && st'.forks == st.forks && st'.bookedForks == st.bookedForks
            && st'.fates == st.fates && st'.nextForkId == st.nextForkId
    ensures forall f: nat :: !Concerns(pc, f) && !Concerns(Advance(st, pc).1, f)
    ensures ThreadOk(st.fates, Advance(st, pc).1)
  {
    if pc.WantSessions? {
      PlainEntry(st, pc.req);
    }
  }

  lemma PlainEntry(st: State, req: Request)
    ensures var (st', pc') := EnterSessions(st, req);
            && st'.forks == st.forks && st'.bookedForks == st.bookedForks
            && st'.fates == st.fates && st'.nextForkId == st.nextForkId
            && (pc'.HoldSessions? || pc'.LeaveSessions? || (pc'.ForkRead? && NoDuplicates(pc'.hashes)))
  {
  }

  lemma StepKeepsForks(st: State, t: Tid)
    requires MutualExclusion(st) && ForksOk(st) && CanStep(st, t) && OvertakesNoFork(st, PcOf(st, t))
    ensures ForksOk(After(st, t))
  {
    match PcOf(st, t)
    case ForkNumber(_, _) => NumberStep(st, t);
    case ForkWantSnapshots(_, _, _) => WaitStep(st, t);
    case ForkHoldSnapshots(_, _, _) => PublishStep(st, t);
    case ForkWantRefcounts(_, _, _) => WaitStep(st, t);
    case ForkHoldRefcounts(_, _, _) => CountStep(st, t);
    case EndWantSnapshots(s, forkId) =>
      var chosen := ChosenFork(st.forks, s, forkId);
      if chosen.Some? {
        ConsumeStep(st, t, chosen.value);
      } else {
        PlainStep(st, t);
      }
    case EndHoldSnapshots(_, _) => ReachTableStep(st, t);
    case EndHoldSnapshotsRefcounts(_, _) => ReleaseStep(st, t);
    case _ => PlainStep(st, t);
  }
}
