/** What the UDP session manager can always do, core/server/udp.go: serve a new session, give it up when it is idle or
    when dialling fails, and shut down completely. */
module UdpService {
  import opened UdpSessions

  /** The actions can be taken one after the other in `s`, and end in `t`. */
  ghost predicate Leads(s: Manager, actions: seq<Action>, t: Manager)
    decreases actions
  {
    if actions == [] then s == t
    else Enabled(s, actions[0]) && Leads(Apply(s, actions[0]), actions[1..], t)
  }

  lemma {:induction false} LeadsOn(s: Manager, before: seq<Action>, t: Manager, after: seq<Action>, u: Manager)
    requires Leads(s, before, t) && Leads(t, after, u)
    ensures Leads(s, before + after, u)
    decreases before
  {
    hide Enabled, Apply;
    if before == [] {
      assert before + after == after;
    } else {
      LeadsOn(Apply(s, before[0]), before[1..], t, after, u);
      assert (before + after)[0] == before[0] && (before + after)[1..] == before[1..] + after;
    }
  }

  lemma LeadsOne(s: Manager, a: Action, rest: seq<Action>, t: Manager)
    requires Enabled(s, a) && Leads(Apply(s, a), rest, t)
    ensures Leads(s, [a] + rest, t)
  {
    assert ([a] + rest)[1..] == rest;
  }

  ghost predicate Sound(s: Manager) {
    Inv(s) && SweepsKnown(s)
  }

  lemma StepIsSound(s: Manager, a: Action)
    requires Sound(s) && Enabled(s, a)
    ensures Sound(Apply(s, a))
  {
    StepKeepsInv(s, a);
    StepKeepsSweeps(s, a);
    hide Inv, SweepsKnown, Apply, Enabled;
  }

  lemma LeadsTwo(s: Manager, a: Action, b: Action)
    requires Enabled(s, a) && Enabled(Apply(s, a), b)
    ensures Leads(s, [a, b], Apply(Apply(s, a), b))
  {
    var t := Apply(s, a);
    hide Enabled, Apply;
    LeadsOne(t, b, [], Apply(t, b));
    LeadsOne(s, a, [b], Apply(t, b));
  }

  lemma LeadsThree(s: Manager, a: Action, b: Action, c: Action)
    requires Enabled(s, a) && Enabled(Apply(s, a), b) && Enabled(Apply(Apply(s, a), b), c)
    ensures Leads(s, [a, b, c], Apply(Apply(Apply(s, a), b), c))
  {
    var t := Apply(s, a);
    hide Enabled, Apply;
    LeadsTwo(t, b, c);
    LeadsOne(s, a, [b, c], Apply(Apply(t, b), c));
  }

  lemma LeadsFive(s: Manager, a: Action, b: Action, c: Action, d: Action, e: Action, t: Manager, u: Manager)
    requires Enabled(s, a) && Enabled(Apply(s, a), b) && Enabled(Apply(Apply(s, a), b), c)
    requires t == Apply(Apply(Apply(s, a), b), c) && Enabled(t, d) && Enabled(Apply(t, d), e)
    requires u == Apply(Apply(t, d), e)
    ensures Leads(s, [a, b, c, d, e], u)
  {
    hide Enabled, Apply;
    LeadsThree(s, a, b, c);
    LeadsTwo(t, d, e);
    LeadsOn(s, [a, b, c], t, [d, e], u);
    assert [a, b, c] + [d, e] == [a, b, c, d, e];
  }

  // ---- Serving ----

  lemma NewManagerReceives(maxSessions: nat)
    ensures exists t :: Leads(NewManager(maxSessions), [Start], t) && t.run.Receiving? && t.sessions == map[]
  {
    var s := NewManager(maxSessions);
    LeadsOne(s, Start, [], Apply(s, Start));
  }

  /** A message that is not admitted, or that the traffic logger discards, leaves no trace. */
  lemma RefusedMessageLeavesNoTrace(s: Manager, id: SessionId)
    requires s.run.Receiving?
    ensures Leads(s, if CanAdmit(s, id) then [Receive(id), Discard] else [Receive(id)], s)
  {
    if CanAdmit(s, id) {
      LeadsTwo(s, Receive(id), Discard);
    } else {
      LeadsOne(s, Receive(id), [], s);
    }
  }

  /** A message for a session that is there changes no session. */
  lemma KnownSessionIsServed(s: Manager, id: SessionId)
    requires s.run.Receiving? && id in s.sessions
    ensures Leads(s, [Receive(id), Feed, Pass], s)
  {
    LeadsThree(s, Receive(id), Feed, Pass);
  }

  /** The receiving goroutine after a message that opens a session, before it dials. */
  lemma NewSessionIsFed(s: Manager, id: SessionId)
    requires Inv(s) && s.run.Receiving? && id !in s.sessions && |s.sessions| < s.maxSessions
    ensures var a := Apply(s, Receive(id));
            && Enabled(a, Feed)
            && var b := Apply(a, Feed);
               && b.run == Feeding(|s.entries|) && b.sessions == s.sessions[id := |s.entries|]
               && b.entries == s.entries + [Entry(id, false, false, false, 0)] && b.exiting == s.exiting
               && |b.loops| == 1
  {
    var a := Apply(s, Receive(id));
    TurnKeepsInv(s, Receive(id));
    AdmittedFindsRoom(a);
    FedKeepsInv(a);
  }

  /** A message that opens a session gets one with an open connection, and leaves the manager receiving. */
  lemma NewSessionOpens(s: Manager, id: SessionId)
    requires Inv(s) && s.run.Receiving? && id !in s.sessions && |s.sessions| < s.maxSessions
    ensures exists t :: Leads(s, [Receive(id), Feed, InitConn(true)], t) && t.run.Receiving?
                        && t.sessions == s.sessions[id := |s.entries|]
                        && t.entries == s.entries + [Entry(id, false, true, true, 0)] && |t.loops| == 1
  {
    NewSessionIsFed(s, id);
    var b := Apply(Apply(s, Receive(id)), Feed);
    assert Enabled(s, Receive(id)) && Enabled(Apply(s, Receive(id)), Feed);
    hide Inv;
    Dialled(b, s.entries, id);
    hide Apply, Enabled;
    LeadsThree(s, Receive(id), Feed, InitConn(true));
  }

  lemma Dialled(b: Manager, before: seq<Entry>, id: SessionId)
    requires b.run == Feeding(|before|) && b.entries == before + [Entry(id, false, false, false, 0)]
    ensures Enabled(b, InitConn(true)) && Enabled(b, InitConn(false))
    ensures var t := Apply(b, InitConn(true));
            && t.run.Receiving? && t.sessions == b.sessions && t.loops == b.loops
            && t.entries == before + [Entry(id, false, true, true, 0)]
    ensures var t := Apply(b, InitConn(false));
            t == b.(run := DialFailed(|before|))
  {
  }

  /** A session whose dialling fails gives its slot back, and the manager receives again. */
  lemma FailedDialGivesBack(s: Manager, id: SessionId)
    requires Inv(s) && s.run.Receiving? && id !in s.sessions && |s.sessions| < s.maxSessions
    ensures exists t :: Leads(s, [Receive(id), Feed, InitConn(false), CloseAfterDial, Exit(|s.entries|)], t)
                        && t.run.Receiving? && t.sessions == s.sessions && t.exiting == s.exiting
  {
    assert |s.entries| !in s.exiting;
    NewSessionIsFed(s, id);
    hide Inv, Apply;
    FailedDialFrom(s, id, Apply(Apply(s, Receive(id)), Feed));
  }

  lemma FailedDialFrom(s: Manager, id: SessionId, b: Manager)
    requires s.run.Receiving? && id !in s.sessions && |s.entries| !in s.exiting
    requires Enabled(Apply(s, Receive(id)), Feed) && b == Apply(Apply(s, Receive(id)), Feed)
    requires b.run == Feeding(|s.entries|) && b.sessions == s.sessions[id := |s.entries|] && b.exiting == s.exiting
    requires b.entries == s.entries + [Entry(id, false, false, false, 0)]
    ensures exists t :: Leads(s, [Receive(id), Feed, InitConn(false), CloseAfterDial, Exit(|s.entries|)], t)
                        && t.run.Receiving? && t.sessions == s.sessions && t.exiting == s.exiting
  {
    var e := |s.entries|;
    hide Apply;
    Dialled(b, s.entries, id);
    var c := Apply(b, InitConn(false));
    Undialled(c, s.entries, id);
    hide Enabled;
    var t := Apply(Apply(c, CloseAfterDial), Exit(e));
    assert s.sessions[id := e] - {id} == s.sessions && s.exiting + {e} - {e} == s.exiting;
    LeadsFive(s, Receive(id), Feed, InitConn(false), CloseAfterDial, Exit(e), c, t);
  }

  lemma Undialled(c: Manager, before: seq<Entry>, id: SessionId)
    requires c.run == DialFailed(|before|) && c.entries == before + [Entry(id, false, false, false, 0)]
    requires id in c.sessions && c.sessions[id] == |before|
    ensures Enabled(c, CloseAfterDial) && Enabled(Apply(c, CloseAfterDial), Exit(|before|))
    ensures var t := Apply(Apply(c, CloseAfterDial), Exit(|before|));
            t.run.Receiving? && t.sessions == c.sessions - {id} && t.exiting == c.exiting + {|before|} - {|before|}
  {
  }

  /** A session that was closed in the meantime is not dialled: the manager receives again, and nothing else changes. */
  lemma ClosedSessionIsNotDialled(s: Manager, dialed: bool)
    requires Enabled(s, InitConn(dialed)) && s.entries[s.run.e].closed
    ensures Leads(s, [InitConn(dialed)], s.(run := Receiving))
  {
    LeadsOne(s, InitConn(dialed), [], s.(run := Receiving));
  }

  // ---- Giving up an idle session ----

  /** What the idle loop does with one open session that it finds idle: the session and its connection are closed, its
      slot is given back, and the loop waits on while there are other sessions, and ends otherwise. */
  lemma IdleSessionIsGivenUp(s: Manager, l: LoopId, id: SessionId)
    requires Inv(s) && l in s.loops && s.loops[l].Waiting? && id in s.sessions && !s.entries[s.sessions[id]].closed
    ensures var e := s.sessions[id];
            exists t :: Leads(s, [Tick(l, {e}), CloseBySweep(l, e), Exit(e), EndSweep(l), CheckEmpty(l)], t)
                        && t.sessions == s.sessions - {id} && e < |t.entries|
                        && t.entries[e].closed && !t.entries[e].connOpen && t.run == s.run
                        && t.loops == if s.sessions.Keys == {id} then s.loops - {l} else s.loops
  {
    var e := s.sessions[id];
    assert e in s.sessions.Values && s.entries[e].id == id;
    hide Inv;
    SweptSession(s, l, id);
    var c := Apply(Apply(Apply(s, Tick(l, {e})), CloseBySweep(l, e)), Exit(e));
    EndedSweep(c, s, l, id);
    hide Apply, Enabled;
    LeadsFive(s, Tick(l, {e}), CloseBySweep(l, e), Exit(e), EndSweep(l), CheckEmpty(l), c,
        Apply(Apply(c, EndSweep(l)), CheckEmpty(l)));
  }

  lemma SweptSession(s: Manager, l: LoopId, id: SessionId)
    requires l in s.loops && s.loops[l].Waiting? && id in s.sessions && s.sessions[id] in s.sessions.Values
    requires var e := s.sessions[id]; e < |s.entries| && !s.entries[e].closed && s.entries[e].id == id
    ensures var e := s.sessions[id];
            var a := Apply(s, Tick(l, {e}));
            && Enabled(s, Tick(l, {e})) && Enabled(a, CloseBySweep(l, e))
            && var b := Apply(a, CloseBySweep(l, e));
               && Enabled(b, Exit(e))
               && var c := Apply(b, Exit(e));
                  && c.sessions == s.sessions - {id} && c.run == s.run && c.loops == s.loops[l := Sweeping({})]
                  && |c.entries| == |s.entries| && c.entries[e].closed && !c.entries[e].connOpen
  {
    var e := s.sessions[id];
    assert {e} - {e} == {};
  }

  lemma EndedSweep(c: Manager, s: Manager, l: LoopId, id: SessionId)
    requires l in s.loops && s.loops[l].Waiting? && id in s.sessions
    requires c.sessions == s.sessions - {id} && c.loops == s.loops[l := Sweeping({})]
    ensures Enabled(c, EndSweep(l)) && Enabled(Apply(c, EndSweep(l)), CheckEmpty(l))
    ensures var t := Apply(Apply(c, EndSweep(l)), CheckEmpty(l));
            && t.sessions == c.sessions && t.run == c.run && t.entries == c.entries
            && t.loops == if s.sessions.Keys == {id} then s.loops - {l} else s.loops
  {
    assert c.sessions == map[] <==> s.sessions.Keys == {id} by {
      if s.sessions.Keys == {id} {
        assert c.sessions.Keys == {};
      } else {
        assert exists other :: other in s.sessions && other != id by {
          assert s.sessions.Keys != {id} && id in s.sessions.Keys;
        }
        var other :| other in s.sessions && other != id;
        assert other in c.sessions;
      }
    }
    var d := Apply(c, EndSweep(l));
    assert d.loops - {l} == s.loops - {l} && d.loops[l := Waiting] == s.loops;
  }

  // ---- Shutting down ----

  /** Something leads from `s` to a state in which everything has ended. */
  ghost predicate Ends(s: Manager) {
    exists actions, t :: Leads(s, actions, t) && AllEnded(t)
  }

  ghost predicate AllEnded(t: Manager) {
    t.run.Returned? && t.sessions == map[] && t.exiting == {} && t.loops == map[]
    && forall e | 0 <= e < |t.entries| :: t.entries[e].closed && !t.entries[e].connOpen
  }

  lemma EndsAfter(s: Manager, a: Action)
    requires Enabled(s, a) && Ends(Apply(s, a))
    ensures Ends(s)
  {
    var rest, t :| Leads(Apply(s, a), rest, t) && AllEnded(t);
    hide Enabled, Apply, AllEnded;
    LeadsOne(s, a, rest, t);
  }

  lemma EndsNow(s: Manager)
    requires Sound(s) && s.run.Returned? && s.exiting == {} && s.loops == map[]
    ensures Ends(s)
  {
    forall e | 0 <= e < |s.entries| ensures s.entries[e].closed && !s.entries[e].connOpen {
      assert EntryInOrder(s.entries[e], e, s.sessions, s.exiting);
    }
    NothingLeft(s);
    assert Leads(s, [], s) && AllEnded(s);
  }

  lemma NothingLeft(s: Manager)
    requires Inv(s) && s.run.Returned? && s.exiting == {}
    ensures s.sessions == map[]
  {
    MapHoldsOpenAndExiting(s);
    assert OpenEntries(s) == {};
    assert |s.sessions| == 0;
  }

  function LoopWork(state: LoopState): nat {
    match state
    case Waiting => 0
    case Checking => 1
    case Sweeping(todo) => 2 + |todo|
  }

  /** With all sessions gone, an idle loop finishes its sweep and ends. */
  lemma {:induction false} LoopEnds(s: Manager, l: LoopId)
    requires Sound(s) && s.run.Returned? && s.exiting == {} && l in s.loops
    ensures Ends(s)
    decreases LoopWork(s.loops[l])
  {
    OneLoop(s, l);
    NothingLeft(s);
    LoopStateGoesOn(s, l);
    RunStateGoesOn(s);
    match s.loops[l]
    case Waiting => LastStep(s, l, StopLoop(l));
    case Checking => LastStep(s, l, CheckEmpty(l));
    case Sweeping(todo) =>
      if todo == {} {
        StepIsSound(s, EndSweep(l));
        LoopEnds(Apply(s, EndSweep(l)), l);
        EndsAfter(s, EndSweep(l));
      } else {
        var e :| e in todo;
        var a := CloseBySweep(l, e);
        StepIsSound(s, a);
        ClosedStays(s, l, e);
        LoopEnds(Apply(s, a), l);
        EndsAfter(s, a);
      }
  }

  /** When the manager has returned, a sweep finds its sessions closed. */
  lemma ClosedStays(s: Manager, l: LoopId, e: EntryId)
    requires Inv(s) && s.run.Returned? && Enabled(s, CloseBySweep(l, e))
    ensures var t := Apply(s, CloseBySweep(l, e));
            && t.run == s.run && t.exiting == s.exiting && l in t.loops
            && LoopWork(t.loops[l]) < LoopWork(s.loops[l])
  {
    hide LoopsInOrder, EntriesInOrder;
    assert |s.loops[l].todo - {e}| == |s.loops[l].todo| - 1;
  }

  lemma LastStep(s: Manager, l: LoopId, a: Action)
    requires Sound(s) && s.run.Returned? && s.exiting == {} && s.sessions == map[] && l in s.loops
    requires |s.loops - {l}| == 0 && Enabled(s, a) && (a == StopLoop(l) || a == CheckEmpty(l))
    ensures Ends(s)
  {
    StepIsSound(s, a);
    assert s.loops - {l} == map[];
    var t := Apply(s, a);
    assert t.run.Returned? && t.exiting == {} && t.loops == map[];
    hide Apply, Enabled;
    EndsNow(t);
    EndsAfter(s, a);
  }

  /** The exit functions that were started run to their end. */
  lemma {:induction false} ExitsEnd(s: Manager)
    requires Sound(s) && s.run.Returned?
    ensures Ends(s)
    decreases |s.exiting|
  {
    if s.exiting == {} {
      if s.loops == map[] {
        EndsNow(s);
      } else {
        var l :| l in s.loops;
        LoopEnds(s, l);
      }
    } else {
      var e :| e in s.exiting;
      assert Enabled(s, Exit(e));
      StepIsSound(s, Exit(e));
      assert Apply(s, Exit(e)).exiting == s.exiting - {e} && Apply(s, Exit(e)).run == s.run;
      hide Sound, Enabled, Apply;
      ExitsEnd(Apply(s, Exit(e)));
      EndsAfter(s, Exit(e));
    }
  }

  /** The shutdown closes the sessions it has collected and returns. */
  lemma {:induction false} ShutdownEnds(s: Manager)
    requires Sound(s) && s.run.ShuttingDown?
    ensures Ends(s)
    decreases |s.run.todo|
  {
    RunStateGoesOn(s);
    if s.run.todo == {} {
      StepIsSound(s, EndRun);
      ExitsEnd(Apply(s, EndRun));
      EndsAfter(s, EndRun);
    } else {
      var e :| e in s.run.todo;
      var a := CloseByShutdown(e);
      StepIsSound(s, a);
      assert Apply(s, a).run == ShuttingDown(s.run.todo - {e});
      hide Sound, Enabled, Apply;
      ShutdownEnds(Apply(s, a));
      EndsAfter(s, a);
    }
  }

  lemma FailureEnds(s: Manager)
    requires Sound(s) && (s.run.Receiving? || s.run.Admitted?)
    ensures Ends(s)
  {
    StepIsSound(s, Fail);
    ShutdownEnds(Apply(s, Fail));
    EndsAfter(s, Fail);
  }

  /** The step that brings the receiving goroutine back to receiving. */
  lemma OneStepThenFailure(s: Manager, a: Action)
    requires Sound(s) && Enabled(s, a) && Apply(s, a).run.Receiving?
    ensures Ends(s)
  {
    StepIsSound(s, a);
    hide Sound, Enabled, Apply;
    FailureEnds(Apply(s, a));
    EndsAfter(s, a);
  }

  lemma StateEnds(s: Manager)
    requires Sound(s)
    ensures Ends(s)
  {
    RunStateGoesOn(s);
    match s.run
    case NotStarted => OneStepThenFailure(s, Start);
    case Receiving => FailureEnds(s);
    case Admitted(_) => FailureEnds(s);
    case Feeding(_) => OneStepThenFailure(s, Pass);
    case DialFailed(_) => OneStepThenFailure(s, CloseAfterDial);
    case ShuttingDown(_) => ShutdownEnds(s);
    case Returned => ExitsEnd(s);
  }

  /** From every state of every run the manager can be brought to its end: it has returned, every session and connection
      is closed, every exit function has run, the map is empty and no idle loop is left. */
  lemma ShutdownIsAlwaysPossible(states: seq<Manager>, actions: seq<Action>, maxSessions: nat, i: nat)
    requires IsRun(states, actions) && states[0] == NewManager(maxSessions) && i <= |actions|
    ensures Ends(states[i])
  {
    RunKeepsInv(states, actions, maxSessions, i);
    RunKeepsSweeps(states, actions, maxSessions, i);
    StateEnds(states[i]);
  }
}
