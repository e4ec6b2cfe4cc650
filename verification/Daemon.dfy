/** The daemon around the coordinator: which events write the session store, and what a restart
    brings back. */
module Daemon {
  import opened Basics
  import opened Refcounts
  import opened KvCacheManager

  // ---------------------------------------------------------------- the store

  /** Two tables: the rows by session id, and the ids of the pinned sessions. */
  class SessionStore {
    var rows: map<string, SessionKvState>
    var pins: set<string>

    constructor ()
      ensures rows == map[] && pins == {}
    {
      rows, pins := map[], {};
    }

    method Save(sessionId: string, list: seq<Hash>, turnCount: nat)
      modifies this`rows
      ensures rows == old(rows)[sessionId := SessionKvState(list, turnCount)]
    {
      rows := rows[sessionId := SessionKvState(list, turnCount)];
    }

    method Load(sessionId: string) returns (row: Option<SessionKvState>)
      ensures row == if sessionId in rows then Some(rows[sessionId]) else None
    {
      row := if sessionId in rows then Some(rows[sessionId]) else None;
    }

    method Remove(sessionId: string)
      modifies this`rows
      ensures rows == old(rows) - {sessionId}
    {
      rows := rows - {sessionId};
    }

    method PinSession(sessionId: string)
      modifies this`pins
      ensures pins == old(pins) + {sessionId}
    {
      pins := pins + {sessionId};
    }
  }

  // ---------------------------------------------------------------- what events do

  datatype World = World(
    sessions: map<string, SessionKvState>,
    rows: map<string, SessionKvState>,
    pins: set<string>)

  const MAX_CHUNK_COUNT: nat := 4096
  const MAX_CHUNK_HASH_LEN: nat := 100

  /** A `turn_end` whose hash list is too long, or names a hash that is, is refused unread. */
  predicate Oversized(hashes: Option<seq<Hash>>) {
    hashes.Some? && (|hashes.value| > MAX_CHUNK_COUNT || exists h :: h in hashes.value && |h| > MAX_CHUNK_HASH_LEN)
  }

  /** At the limits: 4096 hashes of 100 characters pass; one hash more, or one of 101, does not. */
  lemma OversizedAtTheLimits(h: Hash, long: Hash, hashes: seq<Hash>)
    requires |h| == 100 && |long| == 101
    ensures !Oversized(None)
    ensures !Oversized(Some(seq(4096, _ => h))) && Oversized(Some(seq(4097, _ => h)))
    ensures long in hashes ==> Oversized(Some(hashes))
    ensures Oversized(Some(hashes)) ==> |hashes| > 4096 || exists x :: x in hashes && |x| > 100
  {
    var most := seq(4096, _ => h);
    assert forall x :: x in most ==> x == h;
  }

  /** A `turn_end` request that parses. */
  datatype Payload = Payload(sessionId: string, hashes: Option<seq<Hash>>)

  /** `saved` tells whether a `turn_end` got as far as having its row stored. */
  datatype Event =
    | TurnEnd(s: string, hashes: Option<seq<Hash>>, saved: bool)
    | Close(s: string)
    | Suspend(s: string)
    | SnapshotRestore(s: string)
    | Restart

  function AfterTurn(sessions: map<string, SessionKvState>, s: string, hashes: Option<seq<Hash>>): SessionKvState {
    var old_ := StateOf(sessions, s);
    SessionKvState(if hashes.Some? then hashes.value else old_.map_, NextTurn(old_.turnCount))
  }

  /** The list a snapshot restore works from: memory first, then the store; never an empty one. */
  function RestoreList(w: World, s: string): seq<Hash> {
    if StateOf(w.sessions, s).map_ != [] then w.sessions[s].map_ else StateOf(w.rows, s).map_
  }

  /** Every handler refuses the empty session id. */
  function Apply(w: World, e: Event): World {
    match e
    case TurnEnd(s, hashes, saved) =>
      if s == "" || Oversized(hashes) then w
      else
        var state := AfterTurn(w.sessions, s, hashes);
        World(w.sessions[s := state], if saved then w.rows[s := state] else w.rows, w.pins)
    case Close(s) =>
      if s == "" then w
      else World(w.sessions - {s}, if s in w.pins then w.rows else w.rows - {s}, w.pins)
    case Suspend(s) =>
      if s == "" then w else World(w.sessions - {s}, w.rows, w.pins + {s})
    case SnapshotRestore(s) =>
      if s == "" || RestoreList(w, s) == [] then w
      else World(w.sessions[s := SessionKvState(RestoreList(w, s), StateOf(w.sessions, s).turnCount)],
                 w.rows, w.pins + {s})
    case Restart => w.(sessions := w.rows)
  }

  /** A request that is refused changes nothing. */
  lemma RefusedChangesNothing(w: World, e: Event)
    requires !e.Restart? && (e.s == "" || (e.TurnEnd? && Oversized(e.hashes)))
    ensures Apply(w, e) == w
  {
  }

  function History(events: seq<Event>): World {
    if events == [] then World(map[], map[], {})
    else Apply(History(events[..|events| - 1]), events[|events| - 1])
  }

  // ---------------------------------------------------------------- the daemon

  class Service {
    var manager: Manager
    const store: SessionStore

    ghost predicate Valid()
      reads this, manager
    {
      manager.Valid()
    }

    ghost function World_(): World
      reads this, manager, store
    {
      World(manager.sessions, store.rows, store.pins)
    }

    constructor ()
      ensures Valid() && World_() == History([]) && fresh(manager) && fresh(store)
      ensures manager.nextForkId == 1
    {
      manager := new Manager();
      store := new SessionStore();
    }

    /** A payload that does not parse, an empty id or an oversized list is refused; a debug file that
        cannot be written fails the event after memory has changed, so that nothing is saved; and so
        does a store that refuses the row. */
    method HandleTurnEnd(payload: Option<Payload>, evictAccepted: bool, debug: Option<bool>, saveAccepted: bool)
      returns (ok: bool)
      requires Valid()
      modifies manager, store
      ensures Valid()
      ensures World_() == if payload.None? then old(World_()) else
                          Apply(old(World_()), TurnEnd(payload.value.sessionId, payload.value.hashes,
                                                       saveAccepted && debug != Some(false)))
      ensures manager.forkSnapshots == old(manager.forkSnapshots) && manager.warnings == old(manager.warnings)
      ensures manager.nextForkId == old(manager.nextForkId)
      ensures ok <==> payload.Some? && payload.value.sessionId != "" && !Oversized(payload.value.hashes)
                      && debug != Some(false) && saveAccepted
    {
      if payload.None? || payload.value.sessionId == "" || Oversized(payload.value.hashes) {
        return false;
      }
      var sessionId := payload.value.sessionId;
      var _, outcome := manager.OnTurnEnd(sessionId, payload.value.hashes, evictAccepted, debug);
      if !outcome.Ok? {
        return false;
      }
      if saveAccepted {
        store.Save(sessionId, manager.sessions[sessionId].map_, manager.sessions[sessionId].turnCount);
      }
      ok := saveAccepted;
    }

    method HandleSessionClose(sessionId: string, evictAccepted: bool) returns (ok: bool)
      requires Valid()
      modifies manager, store
      ensures Valid() && World_() == Apply(old(World_()), Close(sessionId))
      ensures manager.forkSnapshots == old(manager.forkSnapshots) && manager.warnings == old(manager.warnings)
      ensures ok <==> sessionId != ""
    {
      if sessionId == "" {
        return false;
      }
      var _, _ := manager.OnSessionClose(sessionId, evictAccepted);
      if sessionId !in store.pins {
        store.Remove(sessionId);
      }
      ok := true;
    }

    method HandleSessionSuspend(sessionId: string, evictAccepted: bool) returns (ok: bool)
      requires Valid()
      modifies manager, store
      ensures Valid() && World_() == Apply(old(World_()), Suspend(sessionId))
      ensures manager.forkSnapshots == old(manager.forkSnapshots) && manager.warnings == old(manager.warnings)
      ensures ok <==> sessionId != ""
    {
      if sessionId == "" {
        return false;
      }
      store.PinSession(sessionId);
      var _, _ := manager.OnSessionClose(sessionId, evictAccepted);
      ok := true;
    }

    method HandleSnapshotRestore(sessionId: string, evictAccepted: bool, prefetchAccepted: bool) returns (ok: bool)
      requires Valid()
      modifies manager, store
      ensures Valid() && World_() == Apply(old(World_()), SnapshotRestore(sessionId))
      ensures manager.forkSnapshots == old(manager.forkSnapshots) && manager.warnings == old(manager.warnings)
      ensures ok <==> sessionId != "" && RestoreList(old(World_()), sessionId) != []
    {
      if sessionId == "" {
        return false;
      }
      var list := if sessionId in manager.sessions then manager.sessions[sessionId].map_ else [];
      if list == [] {
        var row := store.Load(sessionId);
        if row.None? || row.value.map_ == [] {
          return false;
        }
        list := row.value.map_;
      }
      var _, _ := manager.OnSnapshotRestore(sessionId, list, evictAccepted, prefetchAccepted);
      store.PinSession(sessionId);
      ok := true;
    }

    /** A new process: a new coordinator, rehydrated row by row, then the recount. */
    method RestartDaemon()
      modifies this`manager
      ensures fresh(manager) && Valid()
      ensures World_() == Apply(old(World_()), Event.Restart)
      ensures manager.forkSnapshots == map[] && manager.nextForkId == 1
      ensures Exact(manager.refcounts, Maps(store.rows), map[])
    {
      manager := new Manager();
      Rehydrate(manager, store.rows);
      manager.RebuildRefcounts();
    }
  }

  /** The startup loop over the stored rows. */
  method Rehydrate(manager: Manager, rows: map<string, SessionKvState>)
    requires manager.sessions == map[]
    modifies manager`sessions
    ensures manager.sessions == rows
  {
    var rest := rows.Keys;
    while rest != {}
      invariant rest <= rows.Keys
      invariant manager.sessions == rows - rest
      decreases |rest|
    {
      var sessionId :| sessionId in rest;
      manager.RestoreSession(sessionId, rows[sessionId]);
      assert (rows - rest)[sessionId := rows[sessionId]] == rows - (rest - {sessionId});
      rest := rest - {sessionId};
    }
  }

  // ---------------------------------------------------------------- what a restart brings back

  predicate Concerns(e: Event, s: string) {
    !e.Restart? && e.s == s
  }

  predicate Saves(e: Event, s: string) {
    e.TurnEnd? && e.s == s && !Oversized(e.hashes) && e.saved
  }

  /** Event `j` is the close of a session that was not pinned by then. */
  ghost predicate Forgets(events: seq<Event>, j: nat, s: string)
    requires j < |events|
  {
    events[j] == Close(s) && s !in History(events[..j]).pins
  }

  /** Event `i` is the last save of `s`, and nothing after it forgot `s`. */
  ghost predicate LastSave(events: seq<Event>, i: nat, s: string) {
    && i < |events| && Saves(events[i], s)
    && forall j :: i < j < |events| ==> !Saves(events[j], s) && !Forgets(events, j, s)
  }

  lemma LastSaveExtends(events: seq<Event>, i: nat, s: string)
    requires events != [] && !Saves(events[|events| - 1], s) && !Forgets(events, |events| - 1, s)
    ensures LastSave(events, i, s) <==> LastSave(events[..|events| - 1], i, s)
  {
    var front := events[..|events| - 1];
    assert forall j: nat :: j < |front| ==> front[..j] == events[..j];
    assert forall j: nat :: j < |front| ==> (Forgets(front, j, s) <==> Forgets(events, j, s));
  }

  /** The stored row of `s` is its state just after its last save, if nothing forgot it since. */
  lemma {:induction false} RowsAreLastSaves(events: seq<Event>, s: string)
    requires s != ""
    ensures s in History(events).rows <==> exists i: nat :: LastSave(events, i, s)
    ensures forall i: nat :: LastSave(events, i, s) ==>
              s in History(events[..i + 1]).sessions
                && StateOf(History(events).rows, s) == History(events[..i + 1]).sessions[s]
  {
    if events != [] {
      var n := |events| - 1;
      var front, last := events[..n], events[n];
      assert events[..n + 1] == events;
      if Saves(last, s) {
        assert LastSave(events, n, s);
        assert forall i: nat :: LastSave(events, i, s) ==> i == n;
      } else if Forgets(events, n, s) {
        assert forall i: nat :: !LastSave(events, i, s);
      } else {
        RowsAreLastSaves(front, s);
        RowKept(events, s);
        forall i: nat ensures LastSave(events, i, s) <==> LastSave(front, i, s) {
          LastSaveExtends(events, i, s);
        }
        forall i: nat | LastSave(front, i, s) ensures front[..i + 1] == events[..i + 1] {
        }
      }
    }
  }

  lemma RowKept(events: seq<Event>, s: string)
    requires s != "" && events != [] && !Saves(events[|events| - 1], s) && !Forgets(events, |events| - 1, s)
    ensures s in History(events).rows <==> s in History(events[..|events| - 1]).rows
    ensures StateOf(History(events).rows, s) == StateOf(History(events[..|events| - 1]).rows, s)
  {
  }

  /** After any history, a restart brings back exactly the sessions whose last save nothing forgot,
      each as it was in memory just after that save. */
  lemma RestartBringsBackLastSaves(events: seq<Event>, s: string)
    requires s != ""
    ensures var back := History(events + [Event.Restart]).sessions;
            && (s in back <==> exists i: nat :: LastSave(events, i, s))
            && forall i: nat :: LastSave(events, i, s) ==>
                 s in History(events[..i + 1]).sessions && back[s] == History(events[..i + 1]).sessions[s]
  {
    assert (events + [Event.Restart])[..|events|] == events;
    RowsAreLastSaves(events, s);
  }

  /** The state in memory is the state stored. */
  ghost predicate Stored(w: World, s: string) {
    s in w.sessions && s in w.rows && w.sessions[s] == w.rows[s]
  }

  lemma {:induction false} StoredUntilConcerned(events: seq<Event>, i: nat, s: string)
    requires s != "" && i < |events| && Saves(events[i], s)
    requires forall j :: i < j < |events| ==> !Concerns(events[j], s)
    ensures Stored(History(events), s)
  {
    var n := |events| - 1;
    if i < n {
      StoredUntilConcerned(events[..n], i, s);
      assert !Concerns(events[n], s);
    }
  }

  /** A session whose last event was a stored `turn_end` comes back exactly as it is in memory:
      same ordered list, same turn count. Events of other sessions and restarts do not matter. */
  lemma TurnEndSurvivesRestart(events: seq<Event>, i: nat, s: string)
    requires s != "" && i < |events| && Saves(events[i], s)
    requires forall j :: i < j < |events| ==> !Concerns(events[j], s)
    ensures s in History(events).sessions && s in History(events + [Event.Restart]).sessions
    ensures History(events + [Event.Restart]).sessions[s] == History(events).sessions[s]
  {
    assert (events + [Event.Restart])[..|events|] == events;
    StoredUntilConcerned(events, i, s);
  }

  /** A session whose last event was a close comes back exactly if it was pinned and stored by
      then, and then with its stored row. */
  lemma {:induction false} ClosedReturnsOnlyIfPinned(events: seq<Event>, i: nat, s: string)
    requires s != "" && i < |events| && events[i] == Close(s)
    requires forall j :: i < j < |events| ==> !Concerns(events[j], s)
    ensures var before, back := History(events[..i]), History(events + [Event.Restart]).sessions;
            && s !in History(events[..i + 1]).sessions
            && (s in back <==> s in before.pins && s in before.rows)
            && (s in back ==> back[s] == before.rows[s])
  {
    assert (events + [Event.Restart])[..|events|] == events;
    assert events[..i + 1][..i] == events[..i];
    var n := |events| - 1;
    if i < n {
      ClosedReturnsOnlyIfPinned(events[..n], i, s);
      assert (events[..n] + [Event.Restart])[..n] == events[..n];
      assert events[..n][..i] == events[..i] && events[..n][..i + 1] == events[..i + 1];
    } else {
      assert events[..i + 1] == events;
    }
  }

  /** Once pinned, a stored session is stored for good. */
  lemma {:induction false} PinnedRowsStay(events: seq<Event>, n: nat, s: string)
    requires n <= |events| && s in History(events[..n]).pins && s in History(events[..n]).rows
    ensures s in History(events).pins && s in History(events).rows
  {
    if n < |events| {
      assert events[..|events| - 1][..n] == events[..n];
      PinnedRowsStay(events[..|events| - 1], n, s);
    } else {
      assert events[..n] == events;
    }
  }

  /** So suspension, and restoring, keep a stored session for good, closes and restarts included. */
  lemma SuspendedRowsStay(events: seq<Event>, e: Event, later: seq<Event>, s: string)
    requires s != "" && s in History(events).rows
    requires e == Suspend(s) || (e == SnapshotRestore(s) && RestoreList(History(events), s) != [])
    ensures s in History(events + [e] + later).rows
  {
    Appended(events, e);
    assert (events + [e] + later)[..|events| + 1] == events + [e];
    PinnedRowsStay(events + [e] + later, |events| + 1, s);
  }

  /** What a caller knows of a session: its state in memory or, when it is not there, its row. */
  function LatestState(w: World, s: string): SessionKvState {
    if s in w.sessions then w.sessions[s] else StateOf(w.rows, s)
  }

  /** In any state of the daemon: a snapshot restore that finds a list leaves the turn count as it
      was exactly if the session is still in memory, or its row has nothing to lose; and the list
      as it was unless it was empty, when the row's comes in its place. */
  lemma RestoreKeepsTurnCountIff(w: World, s: string)
    requires s != "" && RestoreList(w, s) != []
    ensures var before, back := LatestState(w, s), Apply(w, SnapshotRestore(s)).sessions;
            && s in back && back[s].map_ == RestoreList(w, s)
            && (back[s].map_ == before.map_ <==> before.map_ != [])
            && (back[s].turnCount == before.turnCount <==> s in w.sessions || before.turnCount == 0)
  {
  }

  /** So after any history a session that is still in memory keeps its turn count. */
  lemma RestoreInMemoryKeepsCount(events: seq<Event>, s: string)
    requires s != "" && s in History(events).sessions
    ensures var before, back := History(events).sessions, History(events + [SnapshotRestore(s)]).sessions;
            && s in back && back[s].turnCount == before[s].turnCount
            && (before[s].map_ != [] ==> back[s].map_ == before[s].map_)
  {
    Appended(events, SnapshotRestore(s));
  }

  /** How a session can leave memory and yet be restored later. */
  predicate Leaves(e: Event, s: string) {
    e == Suspend(s) || e == Close(s)
  }

  /** The row of `s` in `w'` is that in `w`, and `s` is in memory, as its row, exactly if `back`. */
  predicate GoneUnless(back: bool, w: World, w': World, s: string) {
    && (s in w'.rows <==> s in w.rows) && StateOf(w'.rows, s) == StateOf(w.rows, s)
    && (s in w'.sessions <==> back && s in w.rows)
    && (s in w'.sessions ==> w'.sessions[s] == w.rows[s])
  }

  lemma OtherEvent(back: bool, w: World, w': World, e: Event, s: string)
    requires GoneUnless(back, w, w', s) && !Concerns(e, s)
    ensures GoneUnless(back || e == Event.Restart, w, Apply(w', e), s)
  {
  }

  lemma FrontAndLast<T>(a: seq<T>, b: seq<T>)
    requires b != []
    ensures a + b == (a + b[..|b| - 1]) + [b[|b| - 1]]
    ensures forall x :: x in b <==> x in b[..|b| - 1] || x == b[|b| - 1]
  {
    assert b == b[..|b| - 1] + [b[|b| - 1]];
  }

  /** A session that has left memory, after events that do not concern it: its row is as it was, and
      it is in memory again, as its row, exactly if the daemon restarted meanwhile. */
  lemma {:induction false} GoneUntilRestart(events: seq<Event>, between: seq<Event>, s: string)
    requires s != "" && s !in History(events).sessions
    requires forall x :: x in between ==> !Concerns(x, s)
    ensures GoneUnless(Event.Restart in between, History(events), History(events + between), s)
  {
    if between == [] {
      assert events + between == events;
    } else {
      var front, last := between[..|between| - 1], between[|between| - 1];
      FrontAndLast(events, between);
      GoneUntilRestart(events, front, s);
      OtherEvent(Event.Restart in front, History(events), History(events + front), last, s);
      Appended(events + front, last);
    }
  }

  /** Whether the row of `s` is still there, with a list to restore, once `s` has left by `e`. */
  predicate Restorable(w: World, e: Event, s: string) {
    s in w.rows && w.rows[s].map_ != [] && (e == Close(s) ==> s in w.pins)
  }

  /** After any history, and whatever happened to other sessions meanwhile: what a session that left
      by suspension or by closing is restored to. The list is the row's, and the turn count is the
      row's or nought, depending on whether the daemon restarted. */
  lemma LeaveThenRestore(events: seq<Event>, e: Event, between: seq<Event>, s: string)
    requires s != "" && Leaves(e, s) && forall x :: x in between ==> !Concerns(x, s)
    ensures var w := History(events);
            var back := History(events + [e] + between + [SnapshotRestore(s)]).sessions;
            var restarted := Event.Restart in between;
            && (Restorable(w, e, s) ==>
                  && s in back && back[s].map_ == w.rows[s].map_
                  && back[s].turnCount == (if restarted then w.rows[s].turnCount else 0))
            && (!Restorable(w, e, s) ==>
                  (s in back <==> restarted && s in w.rows && (e == Close(s) ==> s in w.pins))
                  && (s in back ==> back[s] == w.rows[s]))
  {
    Appended(events, e);
    GoneUntilRestart(events + [e], between, s);
    Appended(events + [e] + between, SnapshotRestore(s));
  }

  /** In particular, of a session that was in memory: the turn count it had comes back exactly if the
      daemon restarted and the row had that count, or it did not restart and the count was nought. */
  lemma LeavingLosesTurnCountUnless(events: seq<Event>, e: Event, between: seq<Event>, s: string)
    requires s != "" && Leaves(e, s) && forall x :: x in between ==> !Concerns(x, s)
    requires s in History(events).sessions && Restorable(History(events), e, s)
    ensures var w := History(events);
            var back := History(events + [e] + between + [SnapshotRestore(s)]).sessions;
            && s in back
            && (back[s].map_ == w.sessions[s].map_ <==> w.rows[s].map_ == w.sessions[s].map_)
            && (back[s].turnCount == w.sessions[s].turnCount <==>
                  if Event.Restart in between then w.rows[s].turnCount == w.sessions[s].turnCount
                  else w.sessions[s].turnCount == 0)
  {
    LeaveThenRestore(events, e, between, s);
  }

  /** A refused save is lost even to a restart: the list and the count of the turn before return. */
  lemma RefusedSaveIsLost() returns (events: seq<Event>)
    ensures events == [TurnEnd("s", Some(["a"]), true), TurnEnd("s", Some(["b"]), false)]
    ensures History(events).sessions == map["s" := SessionKvState(["b"], 2)]
    ensures var back := History(events + [Suspend("s")] + [Event.Restart] + [SnapshotRestore("s")]).sessions;
            "s" in back && back["s"] == SessionKvState(["a"], 1)
  {
    var first, second := TurnEnd("s", Some(["a"]), true), TurnEnd("s", Some(["b"]), false);
    events := [first, second];
    Appended([], first);
    Appended([first], second);
    assert [] + [first] == [first] && [first] + [second] == events;
    assert !Oversized(first.hashes) && !Oversized(second.hashes);
    assert History([]).sessions["s" := SessionKvState(["a"], 1)]["s" := SessionKvState(["b"], 2)]
           == map["s" := SessionKvState(["b"], 2)];
    LeaveThenRestore(events, Suspend("s"), [Event.Restart], "s");
  }

  lemma Appended(events: seq<Event>, e: Event)
    ensures History(events + [e]) == Apply(History(events), e)
  {
    assert (events + [e])[..|events|] == events;
  }

  // ---------------------------------------------------------------- fork ids across a restart

  /** A fork id handed out before a restart. The new process numbers its forks from 1 again and knows
      no snapshot of the old one: whoever forks, the old id ends a new fork exactly if the fork that
      was given the same number is one of the same session. */
  method StaleForkId(service: Service, s: string, forkers: seq<string>, evictAccepted: bool)
    returns (stale: nat, consumed: Option<nat>)
    requires service.Valid() && s in service.manager.sessions
    requires forall f :: f in forkers ==> f in service.store.rows
    modifies service, service.manager
    ensures service.Valid() && service.store.rows == old(service.store.rows)
    ensures stale == old(service.manager.nextForkId)
    ensures consumed.Some? <==> 1 <= stale <= |forkers| && forkers[stale - 1] == s
    ensures consumed.Some? ==> consumed.value == stale
  {
    var fork := service.manager.OnSessionFork(s);
    stale := fork.value;
    service.RestartDaemon();
    ForkAgain(service.manager, forkers);
    var chosen, _, _ := service.manager.OnSessionForkEnd(s, Some(stale), evictAccepted);
    consumed := chosen;
  }

  /** In the new process the sessions fork in turn. */
  method ForkAgain(manager: Manager, forkers: seq<string>)
    requires manager.Valid() && manager.nextForkId == 1 && manager.forkSnapshots == map[]
    requires forall f :: f in forkers ==> f in manager.sessions
    modifies manager
    ensures manager.Valid() && (forall f :: f in manager.forkSnapshots <==> 1 <= f <= |forkers|)
    ensures forall f :: f in manager.forkSnapshots ==> manager.forkSnapshots[f].sessionId == forkers[f - 1]
  {
    for k := 0 to |forkers|
      invariant manager.Valid() && manager.nextForkId == k + 1
      invariant forall f :: f in forkers ==> f in manager.sessions
      invariant forall f :: f in manager.forkSnapshots <==> 1 <= f <= k
      invariant forall f :: f in manager.forkSnapshots ==> manager.forkSnapshots[f].sessionId == forkers[f - 1]
    {
      var _ := manager.OnSessionFork(forkers[k]);
    }
  }

  /** Two sessions are stored and the second one forks, then the first, which is given number 2.
      If after a restart they fork in that order again, each once, the old id ends the first session's
      new fork; if they fork in the other order, it ends nothing. */
  method StaleForkIdExample() returns (consumed: Option<nat>, spared: Option<nat>)
    ensures consumed == Some(2) && spared == None
  {
    consumed := ForkRestartFork(["t", "s"]);
    spared := ForkRestartFork(["s", "t"]);
  }

  method TwoSessions() returns (service: Service)
    ensures fresh(service) && fresh(service.manager) && service.Valid() && service.manager.nextForkId == 1
    ensures service.manager.sessions.Keys == service.store.rows.Keys == {"s", "t"}
  {
    service := new Service();
    var _ := service.HandleTurnEnd(Some(Payload("s", None)), true, None, true);
    var _ := service.HandleTurnEnd(Some(Payload("t", None)), true, None, true);
  }

  method ForkRestartFork(forkers: seq<string>) returns (consumed: Option<nat>)
    requires forall f :: f in forkers ==> f in {"s", "t"}
    ensures consumed == if |forkers| >= 2 && forkers[1] == "s" then Some(2) else None
  {
    var service := TwoSessions();
    var _ := service.manager.OnSessionFork("t");
    var _, chosen := StaleForkId(service, "s", forkers, true);
    consumed := chosen;
  }
}
