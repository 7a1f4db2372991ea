/** What the server can always do, core/server/server.go: serve a connection while it is open, turn one away afterwards,
    and shut down completely. */
module ServerService {
  import opened ServerLifecycle

  /** The actions can be taken one after the other in `s`, and end in `t`. */
  ghost predicate Leads(s: Server, actions: seq<Action>, t: Server)
    decreases actions
  {
    if actions == [] then s == t
    else Enabled(s, actions[0]) && Leads(Apply(s, actions[0]), actions[1..], t)
  }

  lemma LeadsOne(s: Server, a: Action, rest: seq<Action>, t: Server)
    requires Enabled(s, a) && Leads(Apply(s, a), rest, t)
    ensures Leads(s, [a] + rest, t)
  {
    assert ([a] + rest)[1..] == rest;
  }

  lemma LeadsThree(s: Server, a: Action, b: Action, c: Action)
    requires Enabled(s, a) && Enabled(Apply(s, a), b) && Enabled(Apply(Apply(s, a), b), c)
    ensures Leads(s, [a, b, c], Apply(Apply(Apply(s, a), b), c))
  {
    var t := Apply(s, a);
    var u := Apply(t, b);
    var v := Apply(u, c);
    hide Enabled, Apply;
    LeadsOne(u, c, [], v);
    LeadsOne(t, b, [c], v);
    LeadsOne(s, a, [b, c], v);
  }

  // ---- Connections before and after closing ----

  /** Connections are only turned away once the server is closing. */
  ghost predicate RejectsWhenClosing(s: Server) {
    !s.closing ==> s.rejected == {} && forall v | v in s.serves :: !s.serves[v].Rejecting?
  }

  lemma StepRejectsWhenClosing(s: Server, a: Action)
    requires RejectsWhenClosing(s) && Enabled(s, a)
    ensures RejectsWhenClosing(Apply(s, a))
    ensures s.closing ==> Apply(s, a).closing && Apply(s, a).registered == s.registered
  {
  }

  lemma {:induction false} RunRejectsWhenClosing(states: seq<Server>, actions: seq<Action>, i: nat)
    requires IsRun(states, actions) && i <= |actions|
    ensures RejectsWhenClosing(states[i])
  {
    if i == 0 {
    } else {
      RunRejectsWhenClosing(states, actions, i - 1);
      StepRejectsWhenClosing(states[i - 1], actions[i - 1]);
      hide RejectsWhenClosing, Apply, Enabled;
    }
  }

  lemma {:induction false} ClosingRegistersNothing(states: seq<Server>, actions: seq<Action>, i: nat, j: nat)
    requires IsRun(states, actions) && i <= j <= |actions| && states[i].closing
    ensures states[j].closing && states[j].registered == states[i].registered
    decreases j
  {
    if i == j {
    } else {
      ClosingRegistersNothing(states, actions, i, j - 1);
      RunRejectsWhenClosing(states, actions, j - 1);
      StepRejectsWhenClosing(states[j - 1], actions[j - 1]);
      hide RejectsWhenClosing, Apply, Enabled;
    }
  }

  /** Over every interleaving the closing flag parts the connections: none is turned away before it is set, and none is
      registered afterwards. */
  lemma ClosingPartsConnections(states: seq<Server>, actions: seq<Action>, i: nat, j: nat)
    requires IsRun(states, actions) && i <= j <= |actions|
    ensures !states[j].closing ==> states[i].rejected == {} && states[j].rejected == {}
    ensures states[i].closing ==> states[j].registered == states[i].registered
  {
    RunRejectsWhenClosing(states, actions, i);
    RunRejectsWhenClosing(states, actions, j);
    if states[i].closing {
      ClosingRegistersNothing(states, actions, i, j);
    }
  }

  /** An open server hands a connection over to a handler, and accepts again. */
  lemma ConnectionIsServed(s: Server, v: ServeId)
    requires !s.closing && v in s.serves && s.serves[v].Accepting?
    ensures var c := s.nextConn;
            exists t :: Leads(s, [Accept(v), Register(v), Spawn(v)], t) && c in t.conns && c in t.live
                        && c in t.registered && c in t.handlers && t.handlers[c].Handling? && t.serves == s.serves
  {
    LeadsThree(s, Accept(v), Register(v), Spawn(v));
    var t := Apply(Apply(Apply(s, Accept(v)), Register(v)), Spawn(v));
    assert t.serves == s.serves;
  }

  /** A closing server turns a connection away, and registers nothing. */
  lemma ConnectionIsTurnedAway(s: Server, v: ServeId)
    requires s.closing && v in s.serves && s.serves[v].Accepting?
    ensures exists t :: Leads(s, [Accept(v), Register(v), Reject(v)], t) && t.rejected == s.rejected + {s.nextConn}
                        && t.conns == s.conns && t.registered == s.registered && t.serves == s.serves
  {
    LeadsThree(s, Accept(v), Register(v), Reject(v));
    var t := Apply(Apply(Apply(s, Accept(v)), Register(v)), Reject(v));
    assert t.serves == s.serves;
  }

  // ---- Shutting down ----

  ghost predicate Sound(s: Server) {
    Ordered(s) && LiveIsHeld(s)
  }

  lemma StepIsSound(s: Server, a: Action)
    requires Sound(s) && Enabled(s, a)
    ensures Sound(Apply(s, a))
  {
    StepKeepsOrder(s, a);
    assert GroupsInOrder(s);
    hide GroupsInOrder, ConnsInOrder, SnapshotInOrder, LiveIsHeld, Apply, Enabled;
    StepKeepsLive(s, a);
  }

  /** Something leads from `s` to a closed server. */
  ghost predicate Closes(s: Server) {
    exists actions, t :: Leads(s, actions, t) && t.close.TransportClosed?
  }

  lemma ClosesAfter(s: Server, a: Action)
    requires Enabled(s, a) && Closes(Apply(s, a))
    ensures Closes(s)
  {
    var rest, t :| Leads(Apply(s, a), rest, t) && t.close.TransportClosed?;
    hide Enabled, Apply;
    LeadsOne(s, a, rest, t);
  }

  /** One step whose end is known to close. */
  lemma ClosesBy(s: Server, a: Action, t: Server)
    requires Enabled(s, a) && t == Apply(s, a) && Closes(t)
    ensures Closes(s)
  {
    hide Enabled, Apply, Closes;
    ClosesAfter(s, a);
  }

  lemma {:induction false} HandlersEnd(s: Server)
    requires Sound(s) && s.close.ConnsClosed?
    ensures Closes(s)
    decreases |s.handlers|
  {
    hide SnapshotInOrder;
    CloseStateGoesOn(s);
    hide GroupsInOrder, ConnsInOrder, LiveIsHeld;
    if s.handlers == map[] {
      var t := Apply(s, JoinHandlers);
      var u := Apply(t, CloseTransport);
      assert Leads(u, [], u);
      ClosesBy(t, CloseTransport, u);
      ClosesBy(s, JoinHandlers, t);
    } else {
      var c :| c in s.handlers;
      hide Sound;
      HandlerEnds(s, c);
      var t := if s.handlers[c].Handling? then Apply(s, Unregister(c)) else s;
      var u := Apply(t, HandlerDone(c));
      hide Apply, Enabled;
      HandlersEnd(u);
      ClosesBy(t, HandlerDone(c), u);
      if s.handlers[c].Handling? {
        ClosesBy(s, Unregister(c), t);
      }
    }
  }

  lemma HandlerEnds(s: Server, c: ConnId)
    requires Sound(s) && c in s.handlers
    ensures s.handlers[c].Handling? ==> Enabled(s, Unregister(c))
    ensures var t := if s.handlers[c].Handling? then Apply(s, Unregister(c)) else s;
            && Enabled(t, HandlerDone(c))
            && var u := Apply(t, HandlerDone(c));
               Sound(u) && u.close == s.close && |u.handlers| < |s.handlers|
  {
    hide Sound;
    var t := if s.handlers[c].Handling? then Apply(s, Unregister(c)) else s;
    if s.handlers[c].Handling? {
      StepIsSound(s, Unregister(c));
    }
    StepIsSound(t, HandlerDone(c));
    FewerHandlers(s, t, c);
  }

  lemma FewerHandlers(s: Server, t: Server, c: ConnId)
    requires c in s.handlers && Enabled(t, HandlerDone(c))
    requires t.handlers == s.handlers || t.handlers == s.handlers[c := Unregistered]
    ensures |Apply(t, HandlerDone(c)).handlers| < |s.handlers|
  {
    var u := Apply(t, HandlerDone(c));
    assert u.handlers.Keys == s.handlers.Keys - {c};
  }

  lemma {:induction false} ConnsEnd(s: Server)
    requires Sound(s) && s.close.ClosingConns?
    ensures Closes(s)
    decreases |s.close.todo|
  {
    hide Sound;
    if s.close.todo == {} {
      StepIsSound(s, JoinClosers);
      HandlersEnd(Apply(s, JoinClosers));
      ClosesBy(s, JoinClosers, Apply(s, JoinClosers));
    } else {
      var c :| c in s.close.todo;
      StepIsSound(s, CloseConn(c));
      var t := Apply(s, CloseConn(c));
      assert t.close == ClosingConns(s.close.todo - {c});
      hide Apply, Enabled;
      ConnsEnd(t);
      ClosesBy(s, CloseConn(c), t);
    }
  }

  lemma SnapshotEnds(s: Server)
    requires Sound(s) && s.close.ServesJoined?
    ensures Closes(s)
  {
    hide Sound;
    StepIsSound(s, TakeSnapshot);
    var t := Apply(s, TakeSnapshot);
    ConnsEnd(t);
    ClosesBy(s, TakeSnapshot, t);
  }

  function Rank(v: ServeState): nat {
    match v
    case Accepting => 0
    case Rejecting(_) => 1
    case Spawning(_) => 1
    case Holding(_) => 2
  }

  /** The next step of a Serve call that is told to stop. */
  function StopStep(s: Server, v: ServeId): Action
    requires v in s.serves
  {
    match s.serves[v]
    case Accepting => AcceptFails(v)
    case Holding(_) => Register(v)
    case Rejecting(_) => Reject(v)
    case Spawning(_) => Spawn(v)
  }

  lemma ServeStops(s: Server, v: ServeId)
    requires Sound(s) && v in s.serves
    ensures Enabled(s, StopStep(s, v))
    ensures var t := Apply(s, StopStep(s, v));
            && Sound(t) && t.close == s.close
            && (s.serves[v].Accepting? ==> |t.serves| < |s.serves|)
            && (!s.serves[v].Accepting? ==>
                  v in t.serves && |t.serves| == |s.serves| && Rank(t.serves[v]) < Rank(s.serves[v]))
  {
    hide Sound;
    StepIsSound(s, StopStep(s, v));
    StopStepMoves(s, v);
  }

  lemma StopStepMoves(s: Server, v: ServeId)
    requires v in s.serves && Enabled(s, StopStep(s, v))
    ensures var t := Apply(s, StopStep(s, v));
            && t.close == s.close
            && (s.serves[v].Accepting? ==> |t.serves| < |s.serves|)
            && (!s.serves[v].Accepting? ==>
                  v in t.serves && |t.serves| == |s.serves| && Rank(t.serves[v]) < Rank(s.serves[v]))
  {
    var t := Apply(s, StopStep(s, v));
    if s.serves[v].Accepting? {
      assert t.serves == s.serves - {v};
      assert t.serves.Keys == s.serves.Keys - {v};
    } else {
      assert t.serves.Keys == s.serves.Keys;
    }
  }

  lemma {:induction false} ServesEnd(s: Server)
    requires Sound(s) && s.close.ListenerClosed?
    ensures Closes(s)
    decreases |s.serves|, 3
  {
    if s.serves == map[] {
      CloseStateGoesOn(s);
      StepIsSound(s, JoinServes);
      var t := Apply(s, JoinServes);
      hide Sound;
      SnapshotEnds(t);
      ClosesBy(s, JoinServes, t);
    } else {
      var v :| v in s.serves;
      hide Sound;
      ServeEnds(s, v);
    }
  }

  lemma {:induction false} ServeEnds(s: Server, v: ServeId)
    requires Sound(s) && s.close.ListenerClosed? && v in s.serves
    ensures Closes(s)
    decreases |s.serves|, Rank(s.serves[v])
  {
    ServeStops(s, v);
    var a := StopStep(s, v);
    var t := Apply(s, a);
    hide Sound, Apply, Enabled, StopStep;
    if s.serves[v].Accepting? {
      ServesEnd(t);
    } else {
      ServeEnds(t, v);
    }
    ClosesBy(s, a, t);
  }

  lemma ListenerEnds(s: Server)
    requires Sound(s) && s.close.Closing?
    ensures Closes(s)
  {
    hide Sound;
    StepIsSound(s, CloseListener);
    var t := Apply(s, CloseListener);
    ServesEnd(t);
    ClosesBy(s, CloseListener, t);
  }

  lemma StateCloses(s: Server)
    requires Sound(s)
    ensures Closes(s)
  {
    match s.close
    case Open =>
      StepIsSound(s, SetClosing);
      var t := Apply(s, SetClosing);
      hide Sound;
      ListenerEnds(t);
      ClosesBy(s, SetClosing, t);
    case Closing => ListenerEnds(s);
    case ListenerClosed => ServesEnd(s);
    case ServesJoined => SnapshotEnds(s);
    case ClosingConns(_) => ConnsEnd(s);
    case ConnsClosed => HandlersEnd(s);
    case HandlersJoined =>
      var t := Apply(s, CloseTransport);
      assert Leads(t, [], t);
      ClosesBy(s, CloseTransport, t);
    case TransportClosed => assert Leads(s, [], s);
  }

  /** From every state of every run the server can be brought to its end, where all of `CloseClosesTheRest` and
      `ShutdownIsComplete` holds. */
  lemma CloseIsAlwaysPossible(states: seq<Server>, actions: seq<Action>, i: nat)
    requires IsRun(states, actions) && i <= |actions|
    ensures Closes(states[i])
  {
    RunKeepsInv(states, actions, i);
    RunKeepsLive(states, actions, i);
    StateCloses(states[i]);
  }
}
