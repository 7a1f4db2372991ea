/** The UDP session manager of a connection, core/server/udp.go, as a protocol of atomic steps. Every
    critical section of the source is one step, and the steps of the receiving goroutine, the idle
    loops and the per-session receivers interleave in any order. */
module UdpSessions {

  type SessionId = nat
  type EntryId = nat
  type LoopId = nat

  /** A session. `exits` counts how often its exit function was started. */
  datatype Entry = Entry(id: SessionId, closed: bool, hasConn: bool, connOpen: bool, exits: nat)

  datatype RunState =
    | NotStarted
    | Receiving
    | Admitted(id: SessionId)
    | Feeding(e: EntryId)
    | DialFailed(e: EntryId)
    | ShuttingDown(todo: set<EntryId>)
    | Returned
  {
    /** Between the creation of the stop channel and its closing. */
    predicate Active() {
      !NotStarted? && !Returned?
    }
  }

  datatype LoopState = Waiting | Sweeping(todo: set<EntryId>) | Checking

  datatype Manager = Manager(
    maxSessions: nat,
    sessions: map<SessionId, EntryId>,
    entries: seq<Entry>,
    exiting: set<EntryId>,
    run: RunState,
    cleanupRunning: bool,
    loops: map<LoopId, LoopState>,
    nextLoop: LoopId,
    droppedByFeed: nat)

  function NewManager(maxSessions: nat): Manager {
    Manager(maxSessions, map[], [], {}, NotStarted, false, map[], 0, 0)
  }

  datatype Action =
    | Start
    | Receive(id: SessionId)          // a message arrives and passes or fails canAdmit
    | Discard                         // the traffic logger rejects an admitted message
    | Fail                            // the connection fails, or the traffic logger ends it
    | Feed                            // the locked part of feed
    | Pass                            // a fragment is stored, or data is written to the connection
    | InitConn(dialed: bool)          // the locked part of initConn, with the outcome of dialling
    | CloseAfterDial
    | CloseByReceiver(e: EntryId)
    | Tick(l: LoopId, todo: set<EntryId>)
    | CloseBySweep(l: LoopId, e: EntryId)
    | EndSweep(l: LoopId)
    | CheckEmpty(l: LoopId)
    | StopLoop(l: LoopId)
    | CloseByShutdown(e: EntryId)
    | EndRun
    | Exit(e: EntryId)                // the locked part of an exit function

  function CanAdmit(s: Manager, id: SessionId): bool {
    id in s.sessions || |s.sessions| < s.maxSessions
  }

  predicate Enabled(s: Manager, a: Action) {
    match a
    case Start => s.run.NotStarted?
    case Receive(_) => s.run.Receiving?
    case Discard => s.run.Admitted?
    case Fail => s.run.Receiving? || s.run.Admitted?
    case Feed => s.run.Admitted?
    case Pass => s.run.Feeding?
    case InitConn(_) => s.run.Feeding? && s.run.e < |s.entries| && !s.entries[s.run.e].hasConn
    case CloseAfterDial => s.run.DialFailed? && s.run.e < |s.entries|
    case CloseByReceiver(e) => e < |s.entries| && s.entries[e].hasConn
    case Tick(l, todo) => l in s.loops && s.loops[l].Waiting? && todo <= s.sessions.Values
    case CloseBySweep(l, e) => l in s.loops && s.loops[l].Sweeping? && e in s.loops[l].todo && e < |s.entries|
    case EndSweep(l) => l in s.loops && s.loops[l] == Sweeping({})
    case CheckEmpty(l) => l in s.loops && s.loops[l].Checking?
    case StopLoop(l) => l in s.loops && s.loops[l].Waiting? && s.run.Returned?
    case CloseByShutdown(e) => s.run.ShuttingDown? && e in s.run.todo && e < |s.entries|
    case EndRun => s.run == ShuttingDown({})
    case Exit(e) => e in s.exiting && e < |s.entries|
  }

  /** CloseWithErr up to its exit function, which runs only for the caller that closes the entry. */
  function Closed(s: Manager, e: EntryId): Manager
    requires e < |s.entries|
  {
    var entry := s.entries[e];
    if entry.closed then s
    else s.(entries := s.entries[e := entry.(closed := true, connOpen := false, exits := entry.exits + 1)],
            exiting := s.exiting + {e})
  }

  /** The locked part of feed: find the session, refuse it, or create it and see to its idle loop. */
  function Fed(s: Manager, id: SessionId): Manager {
    if id in s.sessions then s.(run := Feeding(s.sessions[id]))
    else if |s.sessions| >= s.maxSessions then s.(run := Receiving, droppedByFeed := s.droppedByFeed + 1)
    else
      var e := |s.entries|;
      var t := s.(entries := s.entries + [Entry(id, false, false, false, 0)], sessions := s.sessions[id := e],
          run := Feeding(e));
      if s.cleanupRunning then t
      else t.(cleanupRunning := true, loops := s.loops[s.nextLoop := Waiting], nextLoop := s.nextLoop + 1)
  }

  function Exited(s: Manager, e: EntryId): Manager
    requires e < |s.entries|
  {
    var id := s.entries[e].id;
    s.(exiting := s.exiting - {e},
       sessions := if id in s.sessions && s.sessions[id] == e then s.sessions - {id} else s.sessions)
  }

  function Apply(s: Manager, a: Action): Manager
    requires Enabled(s, a)
  {
    match a
    case Start => s.(run := Receiving)
    case Receive(id) => if CanAdmit(s, id) then s.(run := Admitted(id)) else s
    case Discard => s.(run := Receiving)
    case Fail => s.(run := ShuttingDown(s.sessions.Values))
    case Feed => Fed(s, s.run.id)
    case Pass => s.(run := Receiving)
    case InitConn(dialed) =>
      var e := s.run.e;
      if s.entries[e].closed then s.(run := Receiving)
      else if dialed then
        s.(run := Receiving, entries := s.entries[e := s.entries[e].(hasConn := true, connOpen := true)])
      else s.(run := DialFailed(e))
    case CloseAfterDial => Closed(s, s.run.e).(run := Receiving)
    case CloseByReceiver(e) => Closed(s, e)
    case Tick(l, todo) => s.(loops := s.loops[l := Sweeping(todo)])
    case CloseBySweep(l, e) => Closed(s, e).(loops := s.loops[l := Sweeping(s.loops[l].todo - {e})])
    case EndSweep(l) => s.(loops := s.loops[l := Checking])
    case CheckEmpty(l) =>
      if s.sessions == map[] then s.(loops := s.loops - {l}, cleanupRunning := false)
      else s.(loops := s.loops[l := Waiting])
    case StopLoop(l) => s.(loops := s.loops - {l}, cleanupRunning := false)
    case CloseByShutdown(e) => Closed(s, e).(run := ShuttingDown(s.run.todo - {e}))
    case EndRun => s.(run := Returned)
    case Exit(e) => Exited(s, e)
  }

  // Safety

  ghost predicate EntriesInOrder(s: Manager) {
    && (forall id | id in s.sessions :: s.sessions[id] < |s.entries| && s.entries[s.sessions[id]].id == id)
    && (forall e | 0 <= e < |s.entries| :: EntryInOrder(s.entries[e], e, s.sessions, s.exiting))
    && (forall e | e in s.exiting :: e < |s.entries| && s.entries[e].closed)
  }

  predicate InMap(sessions: map<SessionId, EntryId>, id: SessionId, e: EntryId) {
    id in sessions && sessions[id] == e
  }

  /** The map holds the open entries and those whose exit function is still running; an exit function was started
      exactly for the closed entries and once, and a closed entry has no open connection. */
  predicate EntryInOrder(entry: Entry, e: EntryId, sessions: map<SessionId, EntryId>, exiting: set<EntryId>) {
    && (InMap(sessions, entry.id, e) <==> !entry.closed || e in exiting)
    && entry.exits == (if entry.closed then 1 else 0)
    && (entry.connOpen <==> entry.hasConn && !entry.closed)
  }

  ghost predicate LoopsInOrder(s: Manager) {
    && |s.loops| == (if s.cleanupRunning then 1 else 0)
    && (forall l | l in s.loops :: l < s.nextLoop)
    && (s.run.Active() && s.sessions != map[] ==> s.cleanupRunning)
  }

  ghost predicate RunInOrder(s: Manager) {
    && (s.run.NotStarted? ==> s.sessions == map[] && s.entries == [] && s.loops == map[])
    && (s.run.Admitted? ==> CanAdmit(s, s.run.id))
    && (s.run.Feeding? || s.run.DialFailed? ==> s.run.e < |s.entries|)
    && (s.run.ShuttingDown? ==> forall e | e in s.run.todo :: e < |s.entries|)
    && (s.run.ShuttingDown? ==> forall e | 0 <= e < |s.entries| :: s.entries[e].closed || e in s.run.todo)
    && (s.run.Returned? ==> forall e | 0 <= e < |s.entries| :: s.entries[e].closed)
  }

  ghost predicate Inv(s: Manager) {
    && |s.sessions| <= s.maxSessions && s.droppedByFeed == 0
    && EntriesInOrder(s) && LoopsInOrder(s) && RunInOrder(s)
  }

  lemma ClosedKeepsInv(s: Manager, e: EntryId)
    requires Inv(s) && e < |s.entries|
    ensures Inv(Closed(s, e)) && Closed(s, e).entries[e].closed
  {
  }

  /** Creating a session, before its idle loop is seen to. */
  function Created(s: Manager, id: SessionId): Manager {
    var e := |s.entries|;
    s.(entries := s.entries + [Entry(id, false, false, false, 0)], sessions := s.sessions[id := e], run := Feeding(e))
  }

  lemma CreatedKeepsEntries(s: Manager, id: SessionId)
    requires EntriesInOrder(s) && id !in s.sessions
    ensures EntriesInOrder(Created(s, id)) && |Created(s, id).sessions| == |s.sessions| + 1
  {
    var t := Created(s, id);
    forall e | 0 <= e < |t.entries| ensures EntryInOrder(t.entries[e], e, t.sessions, t.exiting) {
      assert e < |s.entries| ==> EntryInOrder(s.entries[e], e, s.sessions, s.exiting);
    }
  }

  lemma StartedLoop(s: Manager)
    requires |s.loops| == 0 && !s.cleanupRunning
    ensures LoopsInOrder(s.(cleanupRunning := true, loops := s.loops[s.nextLoop := Waiting],
            nextLoop := s.nextLoop + 1))
  {
    assert s.loops.Keys == {};
    assert s.loops[s.nextLoop := Waiting].Keys == {s.nextLoop};
    assert |s.loops[s.nextLoop := Waiting]| == |s.loops[s.nextLoop := Waiting].Keys|;
  }

  lemma FedKeepsInv(s: Manager)
    requires Inv(s) && s.run.Admitted?
    ensures Inv(Fed(s, s.run.id))
  {
    var id := s.run.id;
    if id !in s.sessions {
      CreatedKeepsEntries(s, id);
      var t := Created(s, id);
      assert EntriesInOrder(Fed(s, id)) by {
        hide EntryInOrder;
      }
      hide EntriesInOrder;
      if !s.cleanupRunning {
        StartedLoop(t);
      }
    }
  }

  lemma ExitedKeepsInv(s: Manager, e: EntryId)
    requires Inv(s) && e in s.exiting
    ensures Inv(Exited(s, e))
  {
  }

  /** A step that leaves sessions, entries and the receiving goroutine alone, and idle loops in order. */
  lemma LoopsOnly(s: Manager, t: Manager)
    requires Inv(s) && LoopsInOrder(t)
    requires t.sessions == s.sessions && t.entries == s.entries && t.exiting == s.exiting && t.run == s.run
    requires t.maxSessions == s.maxSessions && t.droppedByFeed == s.droppedByFeed && s.loops != map[]
    ensures Inv(t)
  {
  }

  lemma OneLoop(s: Manager, l: LoopId)
    requires LoopsInOrder(s) && l in s.loops
    ensures s.cleanupRunning && l < s.nextLoop && |s.loops - {l}| == 0
  {
    assert (s.loops - {l}).Keys == s.loops.Keys - {l};
  }

  lemma LoopMoves(s: Manager, l: LoopId, state: LoopState)
    requires LoopsInOrder(s) && l in s.loops
    ensures LoopsInOrder(s.(loops := s.loops[l := state]))
  {
    assert s.loops[l := state].Keys == s.loops.Keys;
    assert |s.loops[l := state]| == |s.loops[l := state].Keys| == |s.loops|;
  }

  lemma TickKeepsInv(s: Manager, l: LoopId, todo: set<EntryId>)
    requires Inv(s) && Enabled(s, Tick(l, todo))
    ensures Inv(Apply(s, Tick(l, todo)))
  {
    LoopMoves(s, l, Sweeping(todo));
    hide Inv, LoopsInOrder;
    LoopsOnly(s, Apply(s, Tick(l, todo)));
  }

  lemma EndSweepKeepsInv(s: Manager, l: LoopId)
    requires Inv(s) && Enabled(s, EndSweep(l))
    ensures Inv(Apply(s, EndSweep(l)))
  {
    LoopMoves(s, l, Checking);
    hide Inv, LoopsInOrder;
    LoopsOnly(s, Apply(s, EndSweep(l)));
  }

  lemma SweepKeepsInv(s: Manager, l: LoopId, e: EntryId)
    requires Inv(s) && Enabled(s, CloseBySweep(l, e))
    ensures Inv(Apply(s, CloseBySweep(l, e)))
  {
    ClosedKeepsInv(s, e);
    var t, state := Closed(s, e), Sweeping(s.loops[l].todo - {e});
    assert t.loops == s.loops;
    hide Closed;
    LoopMoves(t, l, state);
    hide Inv, LoopsInOrder;
    LoopsOnly(t, Apply(s, CloseBySweep(l, e)));
  }

  lemma CheckKeepsInv(s: Manager, l: LoopId)
    requires Inv(s) && Enabled(s, CheckEmpty(l))
    ensures Inv(Apply(s, CheckEmpty(l)))
  {
    LoopMoves(s, l, Waiting);
    OneLoop(s, l);
    var t := Apply(s, CheckEmpty(l));
    assert LoopsInOrder(t);
    hide Inv, LoopsInOrder;
    LoopsOnly(s, t);
  }

  lemma StopKeepsInv(s: Manager, l: LoopId)
    requires Inv(s) && Enabled(s, StopLoop(l))
    ensures Inv(Apply(s, StopLoop(l)))
  {
    OneLoop(s, l);
    var t := Apply(s, StopLoop(l));
    assert LoopsInOrder(t);
    hide Inv, LoopsInOrder;
    LoopsOnly(s, t);
  }

  lemma FailKeepsInv(s: Manager)
    requires Inv(s) && Enabled(s, Fail)
    ensures Inv(Apply(s, Fail))
  {
    forall e | 0 <= e < |s.entries| ensures s.entries[e].closed || e in s.sessions.Values {
      assert EntryInOrder(s.entries[e], e, s.sessions, s.exiting);
    }
  }

  lemma InitConnKeepsInv(s: Manager, dialed: bool)
    requires Inv(s) && Enabled(s, InitConn(dialed))
    ensures Inv(Apply(s, InitConn(dialed)))
  {
  }

  /** A step that only changes what the receiving goroutine does next. */
  lemma TurnKeepsInv(s: Manager, a: Action)
    requires Inv(s) && Enabled(s, a) && (a.Start? || a.Receive? || a.Discard? || a.Pass? || a.EndRun?)
    ensures Inv(Apply(s, a))
  {
  }

  /** A step that only changes what an active receiving goroutine does next. */
  lemma RunOnly(s: Manager, run: RunState)
    requires Inv(s) && s.run.Active() && RunInOrder(s.(run := run))
    ensures Inv(s.(run := run))
  {
    hide RunInOrder;
    assert EntriesInOrder(s.(run := run)) by { hide EntryInOrder; }
  }

  lemma DialFailureKeepsInv(s: Manager)
    requires Inv(s) && Enabled(s, CloseAfterDial)
    ensures Inv(Apply(s, CloseAfterDial))
  {
    ClosedKeepsInv(s, s.run.e);
    var t := Closed(s, s.run.e);
    assert t.run == s.run;
    hide Closed, Inv;
    RunOnly(t, Receiving);
  }

  lemma ShutdownCloseKeepsInv(s: Manager, e: EntryId)
    requires Inv(s) && Enabled(s, CloseByShutdown(e))
    ensures Inv(Apply(s, CloseByShutdown(e)))
  {
    ClosedKeepsInv(s, e);
    var t, run := Closed(s, e), ShuttingDown(s.run.todo - {e});
    assert t.run == s.run && t.entries[e].closed;
    hide Closed;
    assert RunInOrder(t) && RunInOrder(t.(run := run));
    hide Inv, RunInOrder;
    RunOnly(t, run);
  }

  lemma StepKeepsInv(s: Manager, a: Action)
    requires Inv(s) && Enabled(s, a)
    ensures Inv(Apply(s, a))
  {
    hide Inv;
    match a
    case Feed => FedKeepsInv(s);
    case Exit(e) => ExitedKeepsInv(s, e);
    case Fail => FailKeepsInv(s);
    case InitConn(dialed) => InitConnKeepsInv(s, dialed);
    case CloseByReceiver(e) => ClosedKeepsInv(s, e);
    case CloseAfterDial => DialFailureKeepsInv(s);
    case CloseByShutdown(e) => ShutdownCloseKeepsInv(s, e);
    case Tick(l, todo) => TickKeepsInv(s, l, todo);
    case CloseBySweep(l, e) => SweepKeepsInv(s, l, e);
    case EndSweep(l) => EndSweepKeepsInv(s, l);
    case CheckEmpty(l) => CheckKeepsInv(s, l);
    case StopLoop(l) => StopKeepsInv(s, l);
    case _ => TurnKeepsInv(s, a);
  }

  ghost predicate IsRun(states: seq<Manager>, actions: seq<Action>) {
    && |states| == |actions| + 1
    && forall i | 0 <= i < |actions| :: Enabled(states[i], actions[i]) && states[i + 1] == Apply(states[i], actions[i])
  }

  lemma CapIsFixed(s: Manager, a: Action)
    requires Enabled(s, a)
    ensures Apply(s, a).maxSessions == s.maxSessions
  {
  }

  lemma {:induction false} RunKeepsInv(states: seq<Manager>, actions: seq<Action>, maxSessions: nat, i: nat)
    requires IsRun(states, actions) && states[0] == NewManager(maxSessions) && i <= |actions|
    ensures Inv(states[i]) && states[i].maxSessions == maxSessions
  {
    if i == 0 {
    } else {
      RunKeepsInv(states, actions, maxSessions, i - 1);
      StepKeepsInv(states[i - 1], actions[i - 1]);
      CapIsFixed(states[i - 1], actions[i - 1]);
      hide Inv, Enabled, Apply;
    }
  }

  /** Over every interleaving: the cap holds, feed never drops a message that canAdmit passed, every
      exit function runs once and exactly for the closed sessions, a non-empty map has exactly one live
      idle loop while the manager runs, and when it has returned all sessions and connections are closed. */
  lemma Safety(states: seq<Manager>, actions: seq<Action>, maxSessions: nat, i: nat)
    requires IsRun(states, actions) && states[0] == NewManager(maxSessions) && i <= |actions|
    ensures |states[i].sessions| <= maxSessions
    ensures states[i].droppedByFeed == 0
    ensures forall e | 0 <= e < |states[i].entries| ::
              states[i].entries[e].exits == if states[i].entries[e].closed then 1 else 0
    ensures states[i].run.Active() && states[i].sessions != map[] ==> |states[i].loops| == 1
    ensures |states[i].loops| <= 1
    ensures states[i].run.Returned? ==>
              forall e | 0 <= e < |states[i].entries| :: states[i].entries[e].closed && !states[i].entries[e].connOpen
  {
    RunKeepsInv(states, actions, maxSessions, i);
  }

  /** No step reopens a closed session or gives it a connection, and the slot between canAdmit and
      feed cannot be lost: whatever the other goroutines do in between, feed finds room. */
  lemma ClosedStaysWithoutConnection(s: Manager, a: Action, e: EntryId)
    requires Inv(s) && Enabled(s, a) && e < |s.entries| && s.entries[e].closed
    ensures var t := Apply(s, a); e < |t.entries| && t.entries[e] == s.entries[e]
  {
  }

  lemma AdmittedFindsRoom(s: Manager)
    requires Inv(s) && s.run.Admitted?
    ensures var t := Apply(s, Feed);
            && t.run.Feeding? && t.droppedByFeed == s.droppedByFeed
            && s.run.id in t.sessions && t.sessions[s.run.id] == t.run.e && t.cleanupRunning
  {
  }

  /** An exit function removes its own session at most: a newer session with the same identifier stays. */
  lemma ExitRemovesOnlyItself(s: Manager, e: EntryId, id: SessionId)
    requires Inv(s) && e in s.exiting && id in s.sessions && s.sessions[id] != e
    ensures id in Apply(s, Exit(e)).sessions && Apply(s, Exit(e)).sessions[id] == s.sessions[id]
  {
  }

  // Slots

  ghost function OpenEntries(s: Manager): set<EntryId> {
    set e | 0 <= e < |s.entries| && !s.entries[e].closed
  }

  lemma {:induction false} DistinctValues(m: map<SessionId, EntryId>)
    requires forall a, b | a in m && b in m && m[a] == m[b] :: a == b
    ensures |m.Values| == |m|
    decreases |m|
  {
    if m == map[] {
      assert m.Values == {};
    } else {
      var a :| a in m;
      var rest := m - {a};
      assert rest.Keys == m.Keys - {a};
      forall e | e in m.Values ensures e in rest.Values + {m[a]} {
        var b :| b in m && m[b] == e;
        assert b != a ==> b in rest && rest[b] == e;
      }
      assert m.Values == rest.Values + {m[a]} && m[a] !in rest.Values;
      DistinctValues(rest);
    }
  }

  /** The sessions in the map are the open ones and those whose exit function is still running. */
  lemma MapHoldsOpenAndExiting(s: Manager)
    requires Inv(s)
    ensures s.sessions.Values == OpenEntries(s) + s.exiting && OpenEntries(s) !! s.exiting
    ensures |s.sessions| == |OpenEntries(s)| + |s.exiting|
  {
    hide LoopsInOrder, RunInOrder;
    forall e | e in OpenEntries(s) + s.exiting ensures e in s.sessions.Values {
      assert EntryInOrder(s.entries[e], e, s.sessions, s.exiting);
    }
    forall e | e in s.sessions.Values ensures e in OpenEntries(s) + s.exiting {
      var id :| id in s.sessions && s.sessions[id] == e;
      assert EntryInOrder(s.entries[e], e, s.sessions, s.exiting);
    }
    DistinctValues(s.sessions);
  }

  /** Over every interleaving a slot is given back: a closed session is in the map only until its exit function has
      run, and no longer afterwards, so that a new identifier is admitted exactly when open and exiting sessions are
      below the cap, and the map is empty once all have exited. */
  lemma SlotsAreGivenBack(states: seq<Manager>, actions: seq<Action>, maxSessions: nat, i: nat)
    requires IsRun(states, actions) && states[0] == NewManager(maxSessions) && i <= |actions|
    ensures var s := states[i];
            && (forall id | id in s.sessions ::
                  s.sessions[id] < |s.entries| && (s.entries[s.sessions[id]].closed <==> s.sessions[id] in s.exiting))
            && (i < |actions| && actions[i].Exit? ==> actions[i].e !in states[i + 1].sessions.Values)
            && (forall id | id !in s.sessions :: CanAdmit(s, id) <==> |OpenEntries(s)| + |s.exiting| < maxSessions)
            && (OpenEntries(s) == {} && s.exiting == {} ==> s.sessions == map[])
  {
    RunKeepsInv(states, actions, maxSessions, i);
    MapHoldsOpenAndExiting(states[i]);
    if i < |actions| && actions[i].Exit? {
      var s, t, e := states[i], states[i + 1], actions[i].e;
      ExitFreesSlot(s, e);
    }
    hide Enabled, Apply, LoopsInOrder, RunInOrder;
    forall id | id in states[i].sessions
      ensures states[i].entries[states[i].sessions[id]].closed <==> states[i].sessions[id] in states[i].exiting
    {
      assert states[i].sessions[id] in states[i].sessions.Values;
    }
  }

  lemma ExitFreesSlot(s: Manager, e: EntryId)
    requires Inv(s) && Enabled(s, Exit(e))
    ensures e !in Apply(s, Exit(e)).sessions.Values
  {
    var t := Apply(s, Exit(e));
    forall id | id in t.sessions ensures t.sessions[id] != e {
      assert s.entries[s.sessions[id]].id == id;
    }
  }

  // Nobody is stuck

  /** What the idle loops still have to close was created before. */
  ghost predicate SweepsKnown(s: Manager) {
    forall l, e | l in s.loops && s.loops[l].Sweeping? && e in s.loops[l].todo :: e < |s.entries|
  }

  lemma StepKeepsSweeps(s: Manager, a: Action)
    requires Inv(s) && Enabled(s, a) && SweepsKnown(s)
    ensures SweepsKnown(Apply(s, a))
  {
    hide LoopsInOrder, RunInOrder, EntryInOrder;
  }

  lemma {:induction false} RunKeepsSweeps(states: seq<Manager>, actions: seq<Action>, maxSessions: nat, i: nat)
    requires IsRun(states, actions) && states[0] == NewManager(maxSessions) && i <= |actions|
    ensures SweepsKnown(states[i])
  {
    if i == 0 {
    } else {
      RunKeepsSweeps(states, actions, maxSessions, i - 1);
      RunKeepsInv(states, actions, maxSessions, i - 1);
      StepKeepsSweeps(states[i - 1], actions[i - 1]);
      hide Inv, Enabled, Apply, SweepsKnown;
    }
  }

  /** The receiving goroutine can always take its next step, with every message and every outcome of dialling. */
  ghost predicate RunGoesOn(s: Manager) {
    match s.run
    case NotStarted => Enabled(s, Start)
    case Receiving => Enabled(s, Fail) && forall id :: Enabled(s, Receive(id))
    case Admitted(_) => Enabled(s, Feed) && Enabled(s, Discard) && Enabled(s, Fail)
    case Feeding(e) =>
      && Enabled(s, Pass)
      && (e < |s.entries| && !s.entries[e].hasConn ==> Enabled(s, InitConn(true)) && Enabled(s, InitConn(false)))
    case DialFailed(_) => Enabled(s, CloseAfterDial)
    case ShuttingDown(todo) =>
      if todo == {} then Enabled(s, EndRun) else forall e | e in todo :: Enabled(s, CloseByShutdown(e))
    case Returned => forall l | l in s.loops && s.loops[l].Waiting? :: Enabled(s, StopLoop(l))
  }

  /** So can an idle loop, whatever sessions it finds idle. */
  ghost predicate LoopGoesOn(s: Manager, l: LoopId)
    requires l in s.loops
  {
    match s.loops[l]
    case Waiting => forall todo | todo <= s.sessions.Values :: Enabled(s, Tick(l, todo))
    case Sweeping(todo) =>
      if todo == {} then Enabled(s, EndSweep(l)) else forall e | e in todo :: Enabled(s, CloseBySweep(l, e))
    case Checking => Enabled(s, CheckEmpty(l))
  }

  lemma RunStateGoesOn(s: Manager)
    requires Inv(s)
    ensures RunGoesOn(s)
  {
    hide LoopsInOrder, EntriesInOrder;
  }

  lemma LoopStateGoesOn(s: Manager, l: LoopId)
    requires SweepsKnown(s) && l in s.loops
    ensures LoopGoesOn(s, l)
  {
  }

  /** In every state of every run the receiving goroutine, the idle loops, the receivers of the sessions and the exit
      functions can go on: no critical section waits for another one. */
  lemma NobodyIsStuck(states: seq<Manager>, actions: seq<Action>, maxSessions: nat, i: nat)
    requires IsRun(states, actions) && states[0] == NewManager(maxSessions) && i <= |actions|
    ensures RunGoesOn(states[i]) && forall l | l in states[i].loops :: LoopGoesOn(states[i], l)
    ensures forall e | 0 <= e < |states[i].entries| && states[i].entries[e].hasConn ::
              Enabled(states[i], CloseByReceiver(e))
    ensures forall e | e in states[i].exiting :: Enabled(states[i], Exit(e))
  {
    RunKeepsInv(states, actions, maxSessions, i);
    RunKeepsSweeps(states, actions, maxSessions, i);
    RunStateGoesOn(states[i]);
    hide IsRun, LoopsInOrder, RunInOrder, EntryInOrder, RunGoesOn, LoopGoesOn, SweepsKnown;
    forall l | l in states[i].loops ensures LoopGoesOn(states[i], l) {
      LoopStateGoesOn(states[i], l);
    }
  }

  /** Whoever calls it, feed keeps the cap: a new identifier is refused at the cap, and then no session changes. */
  lemma FeedKeepsCap(s: Manager, id: SessionId)
    requires |s.sessions| <= s.maxSessions
    ensures |Fed(s, id).sessions| <= s.maxSessions
    ensures id !in s.sessions && |s.sessions| == s.maxSessions ==>
              Fed(s, id) == s.(run := Receiving, droppedByFeed := s.droppedByFeed + 1)
  {
    assert id !in s.sessions ==> |s.sessions[id := |s.entries|]| == |s.sessions| + 1;
  }
}
