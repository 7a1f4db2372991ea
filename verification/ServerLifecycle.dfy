/** Serving and shutting down, core/server/server.go, as a protocol of atomic steps: any number of Serve
    calls, one goroutine per connection, and the body of Close, which runs once. */
module ServerLifecycle {

  type ServeId = nat
  type ConnId = nat

  /** A Serve call between its steps. */
  datatype ServeState = Accepting | Holding(conn: ConnId) | Rejecting(conn: ConnId) | Spawning(conn: ConnId)

  datatype HandlerState = Handling | Unregistered

  /** How far the body of Close has come. */
  datatype CloseState = Open | Closing | ListenerClosed | ServesJoined | ClosingConns(todo: set<ConnId>)
                      | ConnsClosed | HandlersJoined | TransportClosed

  datatype Server = Server(
    closing: bool,
    conns: set<ConnId>,
    serveWG: nat,
    handlerWG: nat,
    serves: map<ServeId, ServeState>,
    handlers: map<ConnId, HandlerState>,
    close: CloseState,
    // What has happened so far.
    nextConn: ConnId,
    nextServe: ServeId,
    acceptedBy: map<ConnId, ServeId>,
    live: set<ConnId>,
    rejected: set<ConnId>,
    registered: set<ConnId>,
    registeredAtSnapshot: set<ConnId>,
    snapshot: set<ConnId>,
    closedByClose: set<ConnId>)

  const NEW_SERVER := Server(false, {}, 0, 0, map[], map[], Open, 0, 0, map[], {}, {}, {}, {}, {}, {})

  datatype Action =
    | StartServe
    | Accept(v: ServeId)
    | AcceptFails(v: ServeId)
    | Register(v: ServeId)      // the locked part of the accept loop
    | Reject(v: ServeId)
    | Spawn(v: ServeId)
    | Unregister(c: ConnId)     // a handler has finished and takes its connection out of the set
    | HandlerDone(c: ConnId)
    | SetClosing
    | CloseListener
    | JoinServes
    | TakeSnapshot
    | CloseConn(c: ConnId)
    | JoinClosers
    | JoinHandlers
    | CloseTransport

  predicate Enabled(s: Server, a: Action) {
    match a
    case StartServe => true
    case Accept(v) => v in s.serves && s.serves[v].Accepting?
    case AcceptFails(v) => v in s.serves && s.serves[v].Accepting?
    case Register(v) => v in s.serves && s.serves[v].Holding?
    case Reject(v) => v in s.serves && s.serves[v].Rejecting?
    case Spawn(v) => v in s.serves && s.serves[v].Spawning?
    case Unregister(c) => c in s.handlers && s.handlers[c].Handling?
    case HandlerDone(c) => c in s.handlers && s.handlers[c].Unregistered?
    case SetClosing => s.close.Open?
    case CloseListener => s.close.Closing?
    case JoinServes => s.close.ListenerClosed? && s.serveWG == 0
    case TakeSnapshot => s.close.ServesJoined?
    case CloseConn(c) => s.close.ClosingConns? && c in s.close.todo
    case JoinClosers => s.close == ClosingConns({})
    case JoinHandlers => s.close.ConnsClosed? && s.handlerWG == 0
    case CloseTransport => s.close.HandlersJoined?
  }

  function Done(wg: nat): nat {
    if wg > 0 then wg - 1 else 0
  }

  function Apply(s: Server, a: Action): Server
    requires Enabled(s, a)
  {
    match a
    case StartServe =>
      if s.closing then s
      else s.(serveWG := s.serveWG + 1, serves := s.serves[s.nextServe := Accepting], nextServe := s.nextServe + 1)
    case Accept(v) =>
      s.(serves := s.serves[v := Holding(s.nextConn)], nextConn := s.nextConn + 1,
          acceptedBy := s.acceptedBy[s.nextConn := v])
    case AcceptFails(v) => s.(serves := s.serves - {v}, serveWG := Done(s.serveWG))
    case Register(v) =>
      var c := s.serves[v].conn;
      if s.closing then s.(serves := s.serves[v := Rejecting(c)])
      else s.(serves := s.serves[v := Spawning(c)], conns := s.conns + {c}, handlerWG := s.handlerWG + 1,
              live := s.live + {c}, registered := s.registered + {c})
    case Reject(v) => s.(serves := s.serves[v := Accepting], rejected := s.rejected + {s.serves[v].conn})
    case Spawn(v) => s.(serves := s.serves[v := Accepting], handlers := s.handlers[s.serves[v].conn := Handling])
    case Unregister(c) => s.(conns := s.conns - {c}, handlers := s.handlers[c := Unregistered])
    case HandlerDone(c) => s.(handlers := s.handlers - {c}, handlerWG := Done(s.handlerWG), live := s.live - {c})
    case SetClosing => s.(closing := true, close := Closing)
    case CloseListener => s.(close := ListenerClosed)
    case JoinServes => s.(close := ServesJoined)
    case TakeSnapshot => s.(close := ClosingConns(s.conns), snapshot := s.conns, registeredAtSnapshot := s.registered)
    case CloseConn(c) => s.(close := ClosingConns(s.close.todo - {c}), closedByClose := s.closedByClose + {c})
    case JoinClosers => s.(close := ConnsClosed)
    case JoinHandlers => s.(close := HandlersJoined)
    case CloseTransport => s.(close := TransportClosed)
  }

  /** The connection a Serve call has in hand. */
  function InHand(v: ServeState): set<ConnId> {
    if v.Accepting? then {} else {v.conn}
  }

  predicate ServesAreGone(c: CloseState) {
    !c.Open? && !c.Closing? && !c.ListenerClosed?
  }

  predicate SnapshotTaken(c: CloseState) {
    c.ClosingConns? || c.ConnsClosed? || c.HandlersJoined? || c.TransportClosed?
  }

  ghost predicate GroupsInOrder(s: Server) {
    && s.serveWG == |s.serves| && s.handlerWG == |s.live|
    && (forall v | v in s.serves :: v < s.nextServe)
    && (s.closing <==> !s.close.Open?)
    && (ServesAreGone(s.close) ==> s.serves == map[])
  }

  /** Every connection has one place: in the hand of a Serve call, rejected, or registered and then
      handled, and handlers that still count keep it alive. */
  ghost predicate ConnsInOrder(s: Server) {
    && s.conns <= s.live <= s.registered
    && (forall c | c in s.handlers :: c in s.live && (s.handlers[c].Unregistered? ==> c !in s.conns))
    && (forall v | v in s.serves && !s.serves[v].Accepting? ::
          && s.serves[v].conn in s.acceptedBy && s.acceptedBy[s.serves[v].conn] == v
          && s.serves[v].conn < s.nextConn && s.serves[v].conn !in s.handlers
          && s.serves[v].conn !in s.rejected
          && (s.serves[v].Spawning? <==> s.serves[v].conn in s.registered))
    && (forall v | v in s.serves && s.serves[v].Spawning? :: s.serves[v].conn in s.live)
    && (forall c | c in s.rejected || c in s.registered :: c < s.nextConn)
  }

  ghost predicate InSomeHand(serves: map<ServeId, ServeState>, c: ConnId) {
    exists v :: v in serves && c in InHand(serves[v])
  }

  /** No accepted connection is lost. */
  ghost predicate AllAccounted(s: Server) {
    forall c | 0 <= c < s.nextConn :: Accounted(s, c)
  }

  ghost predicate Accounted(s: Server, c: ConnId) {
    c in s.rejected || c in s.registered || InSomeHand(s.serves, c)
  }

  ghost predicate SnapshotInOrder(s: Server) {
    && (SnapshotTaken(s.close) ==> s.registeredAtSnapshot == s.registered)
    && (SnapshotTaken(s.close) ==> s.snapshot <= s.closedByClose + (if s.close.ClosingConns? then s.close.todo else {}))
    && (s.close.HandlersJoined? || s.close.TransportClosed? ==> s.live == {})
  }

  ghost predicate Inv(s: Server) {
    Ordered(s) && AllAccounted(s)
  }

  ghost predicate Ordered(s: Server) {
    GroupsInOrder(s) && ConnsInOrder(s) && SnapshotInOrder(s)
  }

  predicate IsServeStep(a: Action) {
    a.StartServe? || a.Accept? || a.AcceptFails? || a.Register? || a.Reject? || a.Spawn?
  }

  lemma ServeCallsKeepOrder(s: Server, a: Action)
    requires Ordered(s) && Enabled(s, a) && (a.StartServe? || a.Accept? || a.AcceptFails?)
    ensures Ordered(Apply(s, a))
  {
    assert a.AcceptFails? ==> (s.serves - {a.v}).Keys == s.serves.Keys - {a.v};
  }

  lemma RefuseKeepsOrder(s: Server, v: ServeId)
    requires Ordered(s) && Enabled(s, Register(v)) && s.closing
    ensures Ordered(Apply(s, Register(v)))
  {
  }

  /** A connection in the hand of an accepting call is neither handled nor registered yet. */
  lemma HeldIsNew(s: Server, v: ServeId)
    requires ConnsInOrder(s) && v in s.serves && s.serves[v].Holding?
    ensures s.serves[v].conn !in s.live && s.serves[v].conn !in s.registered
  {
  }

  lemma RegisterKeepsConns(s: Server, v: ServeId)
    requires ConnsInOrder(s) && Enabled(s, Register(v)) && !s.closing
    ensures ConnsInOrder(Apply(s, Register(v)))
  {
    HeldIsNew(s, v);
  }

  lemma RegisterKeepsOrder(s: Server, v: ServeId)
    requires Ordered(s) && Enabled(s, Register(v)) && !s.closing
    ensures Ordered(Apply(s, Register(v)))
  {
    RegisterKeepsConns(s, v);
    HeldIsNew(s, v);
    hide ConnsInOrder;
  }

  lemma HandOverKeepsOrder(s: Server, a: Action)
    requires Ordered(s) && Enabled(s, a) && (a.Reject? || a.Spawn?)
    ensures Ordered(Apply(s, a))
  {
  }

  lemma HandlersKeepOrder(s: Server, a: Action)
    requires Ordered(s) && Enabled(s, a) && (a.Unregister? || a.HandlerDone?)
    ensures Ordered(Apply(s, a))
  {
    assert a.c in s.live;
  }

  lemma ClosingKeepsOrder(s: Server, a: Action)
    requires Ordered(s) && Enabled(s, a) && !IsServeStep(a) && !a.Unregister? && !a.HandlerDone?
    ensures Ordered(Apply(s, a))
  {
  }

  lemma StepKeepsOrder(s: Server, a: Action)
    requires Ordered(s) && Enabled(s, a)
    ensures Ordered(Apply(s, a))
  {
    hide Ordered, Apply;
    if a.StartServe? || a.Accept? || a.AcceptFails? {
      ServeCallsKeepOrder(s, a);
    } else if a.Register? {
      if s.closing {
        RefuseKeepsOrder(s, a.v);
      } else {
        RegisterKeepsOrder(s, a.v);
      }
    } else if a.Reject? || a.Spawn? {
      HandOverKeepsOrder(s, a);
    } else if a.Unregister? || a.HandlerDone? {
      HandlersKeepOrder(s, a);
    } else {
      ClosingKeepsOrder(s, a);
    }
  }

  lemma StepKeepsAccounts(s: Server, a: Action)
    requires Inv(s) && Enabled(s, a)
    ensures AllAccounted(Apply(s, a))
  {
    var t := Apply(s, a);
    forall c | 0 <= c < t.nextConn ensures Accounted(t, c) {
      if c == s.nextConn {
        assert c in InHand(t.serves[a.v]);
      } else {
        assert Accounted(s, c);
        if InSomeHand(s.serves, c) {
          var v :| v in s.serves && c in InHand(s.serves[v]);
          assert (v in t.serves && c in InHand(t.serves[v])) || c in t.rejected || c in t.registered;
        }
      }
    }
  }

  lemma StepKeepsInv(s: Server, a: Action)
    requires Inv(s) && Enabled(s, a)
    ensures Inv(Apply(s, a))
  {
    StepKeepsOrder(s, a);
    StepKeepsAccounts(s, a);
    hide Ordered, AllAccounted;
  }

  ghost predicate IsRun(states: seq<Server>, actions: seq<Action>) {
    && |states| == |actions| + 1 && states[0] == NEW_SERVER
    && forall i | 0 <= i < |actions| :: Enabled(states[i], actions[i]) && states[i + 1] == Apply(states[i], actions[i])
  }

  lemma {:induction false} RunKeepsInv(states: seq<Server>, actions: seq<Action>, i: nat)
    requires IsRun(states, actions) && i <= |actions|
    ensures Inv(states[i])
  {
    if i == 0 {
    } else {
      RunKeepsInv(states, actions, i - 1);
      StepKeepsInv(states[i - 1], actions[i - 1]);
      hide Inv, Apply, Enabled;
    }
  }

  /** Over every interleaving: when the transport is closed, no Serve call and no handler is running, the
      connection set is empty, every accepted connection was rejected by Serve or registered before the
      shutdown snapshot, and the connections in the snapshot were closed by Close. */
  lemma ShutdownIsComplete(states: seq<Server>, actions: seq<Action>, i: nat)
    requires IsRun(states, actions) && i <= |actions| && states[i].close.TransportClosed?
    ensures var s := states[i];
            && s.serves == map[] && s.handlers == map[] && s.conns == {}
            && (forall c | 0 <= c < s.nextConn :: c in s.rejected || c in s.registeredAtSnapshot)
            && s.snapshot <= s.closedByClose
  {
    RunKeepsInv(states, actions, i);
    forall c | 0 <= c < states[i].nextConn ensures c in states[i].rejected || c in states[i].registered {
      assert Accounted(states[i], c);
    }
  }

  /** The wait groups never go below zero: every Done has its Add. */
  lemma WaitGroupsAreBalanced(states: seq<Server>, actions: seq<Action>, i: nat)
    requires IsRun(states, actions) && i < |actions|
    ensures actions[i].AcceptFails? ==> states[i].serveWG > 0
    ensures actions[i].HandlerDone? ==> states[i].handlerWG > 0
    ensures |states[i].serves| == states[i].serveWG && |states[i].handlers| <= states[i].handlerWG
  {
    RunKeepsInv(states, actions, i);
    var s := states[i];
    SubsetSize(s.handlers.Keys, s.live);
    if actions[i].AcceptFails? {
      assert actions[i].v in s.serves.Keys;
    }
    if actions[i].HandlerDone? {
      assert actions[i].c in s.live;
    }
  }

  lemma {:induction false} SubsetSize(a: set<ConnId>, b: set<ConnId>)
    requires a <= b
    ensures |a| <= |b|
  {
    if a == {} {
    } else {
      var x :| x in a;
      SubsetSize(a - {x}, b - {x});
    }
  }

  // What Close closes

  /** The handler of connection `c` has taken it out of the set before step `j`. */
  ghost predicate TakenOut(actions: seq<Action>, j: nat, c: ConnId)
    requires j <= |actions|
  {
    exists k :: 0 <= k < j && actions[k] == Unregister(c)
  }

  lemma {:induction false} RegisteredStays(states: seq<Server>, actions: seq<Action>, j: nat, c: ConnId)
    requires IsRun(states, actions) && j <= |actions| && c in states[j].registered
    ensures c in states[j].conns || TakenOut(actions, j, c)
  {
    if j == 0 {
    } else {
      var s, a := states[j - 1], actions[j - 1];
      assert states[j - 1 + 1] == Apply(s, a);
      if c in s.registered {
        RegisteredStays(states, actions, j - 1, c);
        assert c in s.conns && c !in states[j].conns ==> a == Unregister(c);
      }
    }
  }

  lemma SnapshotStep(s: Server, a: Action)
    requires Enabled(s, a)
    ensures var t := Apply(s, a);
            && (SnapshotTaken(s.close) ==>
                  && SnapshotTaken(t.close) && t.snapshot == s.snapshot
                  && t.registeredAtSnapshot == s.registeredAtSnapshot)
            && (a.TakeSnapshot? ==>
                  SnapshotTaken(t.close) && t.snapshot == s.conns && t.registeredAtSnapshot == s.registered)
            && (!SnapshotTaken(s.close) && SnapshotTaken(t.close) ==> a.TakeSnapshot?)
  {
  }

  lemma {:induction false} SnapshotStays(states: seq<Server>, actions: seq<Action>, j: nat, i: nat)
    requires IsRun(states, actions) && j < i <= |actions| && actions[j].TakeSnapshot?
    ensures SnapshotTaken(states[i].close) && states[i].snapshot == states[j].conns
    ensures states[i].registeredAtSnapshot == states[j].registered
    decreases i
  {
    SnapshotStep(states[i - 1], actions[i - 1]);
    hide Apply, Enabled, SnapshotTaken;
    if j == i - 1 {
    } else {
      SnapshotStays(states, actions, j, i - 1);
    }
  }

  /** Close only closes what is in the snapshot. */
  ghost predicate ClosesOnlySnapshot(s: Server) {
    && s.closedByClose <= s.snapshot && (s.close.ClosingConns? ==> s.close.todo <= s.snapshot)
    && (!SnapshotTaken(s.close) ==> s.closedByClose == {})
  }

  lemma StepClosesOnlySnapshot(s: Server, a: Action)
    requires ClosesOnlySnapshot(s) && Enabled(s, a)
    ensures ClosesOnlySnapshot(Apply(s, a))
  {
  }

  lemma {:induction false} RunClosesOnlySnapshot(states: seq<Server>, actions: seq<Action>, i: nat)
    requires IsRun(states, actions) && i <= |actions|
    ensures ClosesOnlySnapshot(states[i])
  {
    if i == 0 {
    } else {
      RunClosesOnlySnapshot(states, actions, i - 1);
      StepClosesOnlySnapshot(states[i - 1], actions[i - 1]);
      hide ClosesOnlySnapshot, Apply, Enabled;
    }
  }

  lemma {:induction false} SnapshotWasTaken(states: seq<Server>, actions: seq<Action>, i: nat) returns (j: nat)
    requires IsRun(states, actions) && i <= |actions| && SnapshotTaken(states[i].close)
    ensures j < i && actions[j].TakeSnapshot?
  {
    hide Apply, Enabled;
    if i == 0 {
      assert false;
    } else if SnapshotTaken(states[i - 1].close) {
      j := SnapshotWasTaken(states, actions, i - 1);
    } else {
      SnapshotStep(states[i - 1], actions[i - 1]);
      j := i - 1;
    }
  }

  /** Every connection registered by the time of step `j` was taken out by its handler before that step or is closed by
      Close, which closes no other ones. */
  ghost predicate ClosedAt(states: seq<Server>, actions: seq<Action>, j: nat, i: nat)
    requires j < |actions| < |states| && i < |states|
  {
    && actions[j].TakeSnapshot? && states[i].closedByClose == states[j].conns
    && forall c | c in states[i].registered :: c in states[i].closedByClose || TakenOut(actions, j, c)
  }

  /** Over every interleaving: when the transport is closed, Close has closed exactly the connections that were in the
      set at its snapshot, and every connection that was ever registered is one of them or was taken out by its own
      handler before. */
  lemma CloseClosesTheRest(states: seq<Server>, actions: seq<Action>, i: nat)
    requires IsRun(states, actions) && i <= |actions| && states[i].close.TransportClosed?
    ensures exists j :: 0 <= j < i && ClosedAt(states, actions, j, i)
  {
    RunKeepsInv(states, actions, i);
    RunClosesOnlySnapshot(states, actions, i);
    var j := SnapshotWasTaken(states, actions, i);
    SnapshotStays(states, actions, j, i);
    hide IsRun, Apply, Enabled, GroupsInOrder, ConnsInOrder, AllAccounted, TakenOut;
    forall c | c in states[i].registered ensures c in states[i].closedByClose || TakenOut(actions, j, c) {
      RegisteredStays(states, actions, j, c);
    }
    assert ClosedAt(states, actions, j, i);
  }

  // Nobody is stuck

  /** A connection whose handler is still counted has its handler, or a Serve call is about to start it. */
  ghost predicate LiveIsHeld(s: Server) {
    forall c | c in s.live :: c in s.handlers || BeingSpawned(s.serves, c)
  }

  ghost predicate BeingSpawned(serves: map<ServeId, ServeState>, c: ConnId) {
    exists v :: v in serves && serves[v] == Spawning(c)
  }

  lemma StepKeepsLive(s: Server, a: Action)
    requires GroupsInOrder(s) && LiveIsHeld(s) && Enabled(s, a)
    ensures LiveIsHeld(Apply(s, a))
  {
    var t := Apply(s, a);
    forall c | c in t.live ensures c in t.handlers || BeingSpawned(t.serves, c) {
      if c !in s.live {
        assert t.serves[a.v] == Spawning(c);
      } else if c !in s.handlers {
        var v :| v in s.serves && s.serves[v] == Spawning(c);
        assert a == Spawn(v) || (v in t.serves && t.serves[v] == Spawning(c));
      }
    }
  }

  lemma {:induction false} RunKeepsLive(states: seq<Server>, actions: seq<Action>, i: nat)
    requires IsRun(states, actions) && i <= |actions|
    ensures LiveIsHeld(states[i])
  {
    if i == 0 {
    } else {
      RunKeepsLive(states, actions, i - 1);
      RunKeepsInv(states, actions, i - 1);
      StepKeepsLive(states[i - 1], actions[i - 1]);
      hide GroupsInOrder, ConnsInOrder, SnapshotInOrder, AllAccounted, LiveIsHeld, Apply, Enabled;
    }
  }

  /** A Serve call can take its next step. */
  ghost predicate ServeGoesOn(s: Server, v: ServeId)
    requires v in s.serves
  {
    match s.serves[v]
    case Accepting => Enabled(s, Accept(v)) && Enabled(s, AcceptFails(v))
    case Holding(_) => Enabled(s, Register(v))
    case Rejecting(_) => Enabled(s, Reject(v))
    case Spawning(_) => Enabled(s, Spawn(v))
  }

  ghost predicate HandlerGoesOn(s: Server, c: ConnId)
    requires c in s.handlers
  {
    if s.handlers[c].Handling? then Enabled(s, Unregister(c)) else Enabled(s, HandlerDone(c))
  }

  /** Close waits only for Serve calls after the listener is closed, and for handlers after their connections are. */
  ghost predicate CloseGoesOn(s: Server) {
    match s.close
    case Open => Enabled(s, SetClosing)
    case Closing => Enabled(s, CloseListener)
    case ListenerClosed => Enabled(s, JoinServes) <==> s.serves == map[]
    case ServesJoined => Enabled(s, TakeSnapshot)
    case ClosingConns(todo) =>
      if todo == {} then Enabled(s, JoinClosers) else forall c | c in todo :: Enabled(s, CloseConn(c))
    case ConnsClosed => Enabled(s, JoinHandlers) <==> s.handlers == map[]
    case HandlersJoined => Enabled(s, CloseTransport)
    case TransportClosed => true
  }

  lemma CloseStateGoesOn(s: Server)
    requires GroupsInOrder(s) && ConnsInOrder(s) && LiveIsHeld(s)
    ensures CloseGoesOn(s)
  {
    assert |s.serves| == 0 <==> s.serves == map[];
    if s.close.ConnsClosed? {
      assert s.handlers == map[] ==> s.live == {};
    }
  }

  /** In every state of every run each Serve call and each handler can go on, and Close waits for nothing but them. */
  lemma NobodyIsStuck(states: seq<Server>, actions: seq<Action>, i: nat)
    requires IsRun(states, actions) && i <= |actions|
    ensures CloseGoesOn(states[i]) && Enabled(states[i], StartServe)
    ensures forall v | v in states[i].serves :: ServeGoesOn(states[i], v)
    ensures forall c | c in states[i].handlers :: HandlerGoesOn(states[i], c)
  {
    RunKeepsInv(states, actions, i);
    RunKeepsLive(states, actions, i);
    CloseStateGoesOn(states[i]);
    hide IsRun, GroupsInOrder, ConnsInOrder, SnapshotInOrder, AllAccounted, LiveIsHeld, CloseGoesOn;
  }
}
