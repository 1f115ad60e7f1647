/**
 * The other half of turn exclusion: once the record of a claim that can still
 * submit is deleted, the run can go on to a host prompt and a peer prompt in
 * flight on one session record. Together with module MediatorExclusion this makes
 * `Harms` the exact condition.
 */
module MediatorOverlap {
  import opened Collections
  import opened MediatorModel
  import opened MediatorCustody
  import opened MediatorExclusion

  ghost predicate Leads(m: State, steps: seq<Step>, n: State)
    decreases |steps|
  {
    if steps == [] then m == n else Enabled(m, steps[0]) && Leads(Apply(m, steps[0]), steps[1..], n)
  }

  lemma {:induction false} LeadsOn(m: State, a: seq<Step>, n: State, b: seq<Step>, o: State)
    requires Leads(m, a, n) && Leads(n, b, o)
    ensures Leads(m, a + b, o)
    decreases |a|
  {
    if a == [] {
      assert a + b == b;
    } else {
      assert (a + b)[0] == a[0] && (a + b)[1..] == a[1..] + b;
      LeadsOn(Apply(m, a[0]), a[1..], n, b, o);
    }
  }

  lemma LeadsOne(m: State, a: seq<Step>, n: State, e: Step)
    requires Leads(m, a, n) && Enabled(n, e)
    ensures Leads(m, a + [e], Apply(n, e))
  {
    var o := Apply(n, e);
    assert [e][1..] == [] && Leads(o, [], o);
    assert Leads(n, [e], o);
    LeadsOn(m, a, n, [e], o);
  }

  /** Both kinds of turn in flight on one record. */
  ghost predicate Overlaps(m: State, sid: SessionId) {
    sid in m.sessions && exists a, b :: HostInFlight(m, sid, m.sessions[sid], a) && PeerInFlight(m, sid, m.sessions[sid], b)
  }

  /** A claim whose record is gone, with the engine input open. */
  ghost predicate Abandoned(m: State, sid: SessionId) {
    !m.closed && sid in m.claims && sid !in m.sessions && !Spent(m, sid)
  }

  // -- the claims ahead ------------------------------------------------------------

  lemma {:induction false} FlushOpen(m: State, frames: seq<EngineFrame>)
    requires !m.closed && m.room >= |frames|
    ensures !Flush(m, frames).closed && Flush(m, frames).room == m.room - |frames|
    decreases |frames|
  {
    if frames != [] { FlushOpen(ToEngine(m, frames[0]), frames[1..]); }
  }

  lemma DueOpen(m: State, sid: SessionId)
    requires !m.closed && m.room > 0 && sid in m.sessions
    ensures
      var n := Due(m, sid);
      !n.closed && n.sessions.Keys == m.sessions.Keys && n.claims == m.claims && n.hand == m.hand
  {
  }

  lemma FinishOpen(m: State)
    requires !m.closed && m.claims != [] && m.hand.Some?
    requires m.claims[0] in m.sessions ==> m.room >= |m.sessions[m.claims[0]].deferred| + 3
    ensures
      var n := Finish(m);
      !n.closed && n.sessions.Keys == m.sessions.Keys && n.claims == m.claims[1..] && n.hand.None?
  {
    var sid := m.claims[0];
    if sid in m.sessions {
      var m1 := Release(m.(claims := m.claims[1..], hand := None), sid, m.hand.value);
      var s := m1.sessions[sid];
      assert s.deferred == m.sessions[sid].deferred && !m1.closed && m1.room >= |s.deferred| + 1;
      assert m1.sessions.Keys == m.sessions.Keys;
      var m2 := Put(m1, sid, s.(cancelClaim := false, deferred := []));
      assert m2.sessions.Keys == m1.sessions.Keys;
      FlushOpen(m2, s.deferred);
      DueOpen(Flush(m2, s.deferred), sid);
    }
  }

  /** The loop serves the claims before it without touching an abandoned one. */
  lemma {:induction false} Reaches(m: State, sid: SessionId) returns (steps: seq<Step>, n: State)
    requires Abandoned(m, sid)
    ensures Leads(m, steps, n) && Abandoned(n, sid) && n.claims[0] == sid
    decreases |m.claims|
  {
    if m.claims[0] == sid { return [], m; }
    var head := m.claims[0];
    var room := if head in m.sessions then |m.sessions[head].deferred| + 3 else 0;
    var m1 := Apply(m, RoomChanges(room));
    LeadsOne(m, [], m, RoomChanges(room));
    steps, n := [RoomChanges(room)], m1;
    assert [] + [RoomChanges(room)] == steps;
    if m.hand.None? {
      LeadsOne(m, steps, n, DeliveryTakes(None));
      steps, n := steps + [DeliveryTakes(None)], Apply(n, DeliveryTakes(None));
    }
    FinishOpen(n);
    assert sid in n.claims[1..] by { assert n.claims == [head] + n.claims[1..]; }
    LeadsOne(m, steps, n, DeliveryFinishes);
    steps, n := steps + [DeliveryFinishes], Apply(n, DeliveryFinishes);
    var more, end := Reaches(n, sid);
    LeadsOn(m, steps, n, more, end);
    return steps + more, end;
  }

  lemma {:induction false} WritesOut(m: State) returns (steps: seq<Step>, n: State)
    ensures Leads(m, steps, n) && n == m.(host := n.host, hostOwes := [])
    decreases |m.hostOwes|
  {
    if m.hostOwes == [] { return [], m; }
    var m1 := Apply(m, HostWrites);
    var more, end := WritesOut(m1);
    assert ([HostWrites] + more)[1..] == more;
    return [HostWrites] + more, end;
  }

  // -- the overlap -------------------------------------------------------------------

  /** A new record admits a host prompt; the old claim then adds its peer prompt. */
  lemma Strikes(m: State, sid: SessionId) returns (steps: seq<Step>, n: State)
    requires Abandoned(m, sid) && m.claims[0] == sid && m.hostOwes == []
    ensures Leads(m, steps, n) && Overlaps(n, sid)
  {
    var a := NextId(m);
    var m1 := Apply(m, RoomChanges(2));
    LeadsOne(m, [], m, RoomChanges(2));
    var m2 := Apply(m1, PromptArrives("q", sid));
    LeadsOne(m, [] + [RoomChanges(2)], m1, PromptArrives("q", sid));
    steps, n := [] + [RoomChanges(2)] + [PromptArrives("q", sid)], m2;
    Prompted(m1, sid);
    if m.hand.None? {
      LeadsOne(m, steps, n, DeliveryTakes(Some(0)));
      steps, n := steps + [DeliveryTakes(Some(0))], Apply(n, DeliveryTakes(Some(0)));
    }
    LeadsOne(m, steps, n, DeliveryFinishes);
    Submitted(n, sid, a);
    return steps + [DeliveryFinishes], Apply(n, DeliveryFinishes);
  }

  lemma Prompted(m: State, sid: SessionId)
    requires !m.closed && m.room == 2 && sid !in m.sessions
    ensures
      var n := HostPrompt(m, "q", sid);
      && !n.closed && n.room == 1 && n.claims == m.claims && n.hand == m.hand && |n.issued| == |m.issued| + 1
      && sid in n.sessions && n.sessions[sid] == Session(|m.issued|, {NextId(m)}, None, false, 0, false, false, [], [])
      && HostInFlight(n, sid, n.sessions[sid], NextId(m))
  {
    var none: set<nat> := {};
    assert none + {NextId(m)} == {NextId(m)};
  }

  lemma Submitted(m: State, sid: SessionId, a: nat)
    requires !m.closed && m.room == 1 && m.claims != [] && m.claims[0] == sid && m.hand.Some? && m.hand.value.Some?
    requires a > 0 && sid in m.sessions && m.sessions[sid] == Session(a - 1, {a}, None, false, 0, false, false, [], [])
    requires HostInFlight(m, sid, m.sessions[sid], a) && |m.issued| == a
    ensures Overlaps(Finish(m), sid)
  {
    var n := Finish(m);
    assert HostInFlight(n, sid, n.sessions[sid], a);
    assert PeerInFlight(n, sid, n.sessions[sid], a + 1);
  }

  // -- the result ----------------------------------------------------------------------

  /** After every run without a harmful deletion, a harmful one can be followed to a
      host prompt and a peer prompt in flight together. */
  lemma HarmLeadsToOverlap(steps: seq<Step>, states: seq<State>, e: Step)
    requires UnharmedRun(steps, states)
    requires Enabled(states[|steps|], e) && Harms(states[|steps|], e)
    ensures exists more, end, sid :: Leads(states[|steps|], [e] + more, end) && Overlaps(end, sid)
  {
    var m := states[|steps|];
    StaysExclusive(steps, states, |steps|);
    var sid := m.pending[e.adapter].request.session.value;
    assert TurnOk(m, sid, m.sessions[sid]);
    var m1 := Apply(m, e);
    assert Abandoned(m1, sid);
    var first, m2 := Reaches(m1, sid);
    var second, m3 := WritesOut(m2);
    var third, end := Strikes(m3, sid);
    LeadsOn(m1, first, m2, second, m3);
    LeadsOn(m1, first + second, m3, third, end);
    var more := first + second + third;
    assert ([e] + more)[1..] == more;
    assert Leads(m, [e] + more, end);
  }

  // -- and such runs exist -----------------------------------------------------------------

  const CLOSE := Request(0, "c", Close, Some("s"))
  const FIRST := Request(1, "p", Prompt, Some("s"))

  const EARLY_CLOSE_STEPS: seq<Step> := [
    RoomChanges(9),
    CallArrives("c", Close, Some("s")),
    PromptArrives("p", "s"),
    EngineAnswers(2, true, None),
    EngineWrites,
    DeliveryClaims(["s"])]

  const EARLY_CLOSE_STATES: seq<State> := [
    Init,
    State([], [], map[], map[], [], false, 9, [], [], [], [], None),
    State(["c"], [HostPending(CLOSE)],
          map[1 := HostPending(CLOSE)], map[],
          [HostRequest(1, CLOSE)], false, 8, [], [], [], [], None),
    State(["c", "p"], [HostPending(CLOSE), HostPending(FIRST)],
          map[1 := HostPending(CLOSE), 2 := HostPending(FIRST)],
          map["s" := Session(1, {2}, None, false, 0, false, false, [], [])],
          [HostRequest(1, CLOSE), HostRequest(2, FIRST)], false, 7, [], [], [], [], None),
    State(["c", "p"], [HostPending(CLOSE), HostPending(FIRST)],
          map[1 := HostPending(CLOSE)],
          map["s" := Session(1, {}, None, false, 0, false, false, [], [])],
          [HostRequest(1, CLOSE), HostRequest(2, FIRST)],
          false, 7, [], [], [Answer(FIRST, EngineAnswer(2))], [], None),
    State(["c", "p"], [HostPending(CLOSE), HostPending(FIRST)],
          map[1 := HostPending(CLOSE)],
          map["s" := Session(1, {}, None, false, 0, false, false, [], [])],
          [HostRequest(1, CLOSE), HostRequest(2, FIRST)],
          false, 7, [Answer(FIRST, EngineAnswer(2))], [], [], [], None),
    State(["c", "p"], [HostPending(CLOSE), HostPending(FIRST)],
          map[1 := HostPending(CLOSE)],
          map["s" := Session(1, {}, None, true, 2, false, false, [], [])],
          [HostRequest(1, CLOSE), HostRequest(2, FIRST)],
          false, 7, [Answer(FIRST, EngineAnswer(2))], [], [], ["s"], None)]

  ghost predicate EarlyCloseStep(i: nat)
    requires i < 6
  {
    Stepped(EARLY_CLOSE_STATES[i], EARLY_CLOSE_STEPS[i], EARLY_CLOSE_STATES[i + 1])
    && !Harms(EARLY_CLOSE_STATES[i], EARLY_CLOSE_STEPS[i])
  }

  lemma EarlyCloseIssued()
    ensures EarlyCloseStep(0) && EarlyCloseStep(1)
  {
  }

  lemma EarlyCloseTracked()
    ensures EarlyCloseStep(2)
  {
    var none: set<nat> := {};
    assert none + {2} == {2};
  }

  lemma EarlyCloseSettled()
    ensures EarlyCloseStep(3)
  {
    var sent: set<nat> := {2};
    assert sent - {2} == {};
    assert EARLY_CLOSE_STATES[3].pending - {2} == map[1 := HostPending(CLOSE)];
  }

  lemma EarlyCloseClaimed()
    ensures EarlyCloseStep(4) && EarlyCloseStep(5)
  {
  }

  /** A close sent before its session was tracked is confirmed during a claim of that
      session. One close is outstanding throughout, and the engine answers only what
      it was given. */
  lemma EarlyCloseHarms()
    ensures UnharmedRun(EARLY_CLOSE_STEPS, EARLY_CLOSE_STATES)
    ensures Enabled(EARLY_CLOSE_STATES[6], EngineAnswers(1, true, None))
    ensures Harms(EARLY_CLOSE_STATES[6], EngineAnswers(1, true, None))
  {
    EarlyCloseIssued();
    EarlyCloseTracked();
    EarlyCloseSettled();
    EarlyCloseClaimed();
    forall i | 0 <= i < 6
      ensures Stepped(EARLY_CLOSE_STATES[i], EARLY_CLOSE_STEPS[i], EARLY_CLOSE_STATES[i + 1])
      ensures !Harms(EARLY_CLOSE_STATES[i], EARLY_CLOSE_STEPS[i])
    {
      assert EarlyCloseStep(i);
    }
  }
}
