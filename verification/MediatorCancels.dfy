/**
 * What becomes of a cancel: it reaches the engine while a turn of its session is
 * in flight, follows the prompt of a claim that is being prepared, and answers
 * every prompt that was still waiting.
 */
module MediatorCancels {
  import opened Collections
  import opened MediatorModel
  import opened MediatorCustody
  import opened MediatorExclusion
  import opened MediatorPeers

  /** A turn of this session record is in flight. */
  ghost predicate Running(m: State, sid: SessionId) {
    && sid in m.sessions
    && exists a: nat :: HostInFlight(m, sid, m.sessions[sid], a) || PeerInFlight(m, sid, m.sessions[sid], a)
  }

  /** In every unharmed run, a cancel that arrives outside a claim is given to the engine
      exactly if the session is not tracked or a turn of it is in flight, and the
      engine admits it; it is then the next frame. */
  lemma CancelReachesTheTurn(steps: seq<Step>, states: seq<State>, k: nat)
    requires UnharmedRun(steps, states) && k < |steps| && steps[k].CancelArrives?
    ensures (
      var m, sid := states[k], steps[k].cancelSession;
      !(sid in m.sessions && m.sessions[sid].claiming) ==>
        states[k + 1].engine ==
        m.engine + (if (sid !in m.sessions || Running(m, sid)) && Admits(m) then [CancelTurn(sid)] else []))
  {
    var m, sid := states[k], steps[k].cancelSession;
    assert Stepped(m, steps[k], states[k + 1]);
    StaysExclusive(steps, states, k);
    if sid in m.sessions {
      var s := m.sessions[sid];
      assert TurnOk(m, sid, s);
      if s.peerPrompt.Some? { assert PeerInFlight(m, sid, s, s.peerPrompt.value); }
      if s.hostPrompts != {} {
        var a :| a in s.hostPrompts;
        assert HostInFlight(m, sid, s, a);
      }
    }
  }

  /** No prompt of the session waits after a cancel; each that did is owed its own
      cancelled answer, oldest first. */
  lemma CancelAnswersTheWaiting(steps: seq<Step>, states: seq<State>, k: nat, i: nat)
    requires Run(steps, states) && k < |steps| && steps[k].CancelArrives? && steps[k].cancelSession in states[k].sessions
    ensures (
      var before := states[k].sessions[steps[k].cancelSession].queued;
      && steps[k].cancelSession in states[k + 1].sessions && states[k + 1].sessions[steps[k].cancelSession].queued == []
      && |states[k + 1].hostOwes| == |before|
      && (i < |before| ==> states[k + 1].hostOwes[i] == Reply(before[i].serial, before[i].id, Cancelled)))
  {
    assert Stepped(states[k], steps[k], states[k + 1]);
  }

  // -- a cancel behind a claim -----------------------------------------------------------------------

  ghost predicate Held(m: State, sid: SessionId) { sid in m.sessions && m.sessions[sid].cancelClaim }

  /** The step finishes the claim of this session. */
  ghost predicate Finishes(m: State, e: Step, sid: SessionId) {
    e.DeliveryFinishes? && m.claims != [] && m.claims[0] == sid
  }

  /** Every session stays, and so does what it holds. */
  ghost predicate SameHold(m: State, n: State) {
    forall t :: t in m.sessions ==> t in n.sessions && n.sessions[t].cancelClaim == m.sessions[t].cancelClaim
  }

  lemma {:induction false} DueHolds(m: State, sid: SessionId)
    requires sid in m.sessions
    ensures SameHold(m, Due(m, sid))
    decreases |m.sessions[sid].queued|
  {
    var s := m.sessions[sid];
    if !s.Busy() && s.queued != [] {
      var m1 := Put(m, sid, s.(queued := s.queued[1..]));
      var m2 := Submit(m1, sid, s.queued[0]);
      assert SameHold(m, m2);
      if !Admits(m1) { DueHolds(m2.(host := m2.host + [Answer(s.queued[0], Cancelled)]), sid); }
    }
  }

  lemma SettleHolds(m: State, p: Pending, a: nat, ok: bool, created: Option<SessionId>, sid: SessionId)
    requires Held(m, sid) && sid in Settle(m, p, a, ok, created).sessions
    ensures Held(Settle(m, p, a, ok, created), sid)
  {
    var verb := if p.HostPending? then p.request.verb else Prompt;
    var t := if p.HostPending? then p.request.session else Some(p.session);
    if t.Some? && t.value in m.sessions {
      var s := m.sessions[t.value];
      if verb.Close? && !ok {
        DueHolds(Put(m, t.value, s.(closing := false)), t.value);
      } else if verb.Prompt? {
        DueHolds(Put(m, t.value, s.(hostPrompts := s.hostPrompts - {a},
                                    peerPrompt := if s.peerPrompt == Some(a) then None else s.peerPrompt)), t.value);
      }
    }
  }

  lemma FinishHolds(m: State, sid: SessionId)
    requires Held(m, sid) && m.claims != [] && m.hand.Some? && m.claims[0] != sid
    ensures Held(Finish(m), sid)
  {
    var t := m.claims[0];
    var m0 := m.(claims := m.claims[1..], hand := None);
    if t in m.sessions {
      var m1 := Release(m0, t, m.hand.value);
      assert Held(m1, sid);
      var s := m1.sessions[t];
      DueHolds(Flush(Put(m1, t, s.(cancelClaim := false, deferred := [])), s.deferred), t);
    }
  }

  lemma PromptHolds(m: State, id: RpcId, t: SessionId, sid: SessionId)
    requires Held(m, sid)
    ensures Held(HostPrompt(m, id, t), sid)
  {
  }

  lemma CallHolds(m: State, id: RpcId, verb: Verb, t: Option<SessionId>, sid: SessionId)
    requires Held(m, sid)
    ensures Held(HostCall(m, id, verb, t), sid)
  {
  }

  lemma ReplyHolds(m: State, a: nat, ok: bool, created: Option<SessionId>, sid: SessionId)
    requires Held(m, sid) && sid in EngineReply(m, a, ok, created).sessions
    ensures Held(EngineReply(m, a, ok, created), sid)
  {
    if a in m.pending {
      var p := m.pending[a];
      var m1 := Forget(m, a);
      var m2 := if p.HostPending?
                then m1.(engineOwes := m1.engineOwes + [Answer(p.request, EngineAnswer(a))])
                else m1;
      SettleHolds(m2, p, a, ok, created, sid);
    }
  }

  lemma HoldStays(m: State, e: Step, sid: SessionId)
    requires Enabled(m, e) && Held(m, sid) && !Finishes(m, e, sid) && sid in Apply(m, e).sessions
    ensures Held(Apply(m, e), sid)
  {
    match e
    case PromptArrives(id, t) => PromptHolds(m, id, t, sid);
    case CallArrives(id, verb, t) => CallHolds(m, id, verb, t, sid);
    case EngineAnswers(a, ok, created) => ReplyHolds(m, a, ok, created, sid);
    case DeliveryFinishes => FinishHolds(m, sid);
    case _ =>
  }

  lemma CancelHolds(m: State, sid: SessionId)
    requires sid in m.sessions && m.sessions[sid].claiming
    ensures Held(HostCancel(m, sid), sid)
  {
  }

  /** The cancel of step k is held at l, with the session there all the time. */
  ghost predicate HeldFrom(steps: seq<Step>, states: seq<State>, k: nat, l: nat, sid: SessionId) {
    && |states| == |steps| + 1 && k < l <= |steps| && steps[k] == CancelArrives(sid)
    && sid in states[k].sessions && states[k].sessions[sid].claiming
    && (forall j :: k <= j <= l ==> sid in states[j].sessions)
    && (forall j :: k < j < l ==> !Finishes(states[j], steps[j], sid))
  }

  lemma HeldOn(m: State, e: Step, n: State, sid: SessionId)
    requires Stepped(m, e, n) && Held(m, sid) && !Finishes(m, e, sid) && sid in n.sessions
    ensures Held(n, sid)
  {
    HoldStays(m, e, sid);
  }

  lemma HeldAtOnce(m: State, n: State, sid: SessionId)
    requires Stepped(m, CancelArrives(sid), n) && sid in m.sessions && m.sessions[sid].claiming
    ensures Held(n, sid) && n.engine == m.engine
  {
    CancelHolds(m, sid);
  }

  lemma {:induction false} HoldLasts(steps: seq<Step>, states: seq<State>, k: nat, l: nat, sid: SessionId)
    requires Run(steps, states) && HeldFrom(steps, states, k, l, sid)
    ensures Held(states[l], sid)
    decreases l
  {
    if l == k + 1 {
      HeldAtOnce(states[k], states[l], sid);
    } else {
      HoldLasts(steps, states, k, l - 1, sid);
      HeldOn(states[l - 1], steps[l - 1], states[l], sid);
    }
  }

  lemma CancelFollows(m: State)
    requires WellFormed(m) && m.claims != [] && m.hand.Some? && Held(m, m.claims[0])
    requires m.hand.value.Some? && Admits(m) && m.room > 1
    ensures |Finish(m).engine| >= |m.engine| + 2 && Prompted(m, Finish(m), m.claims[0], m.hand.value.value)
    ensures Finish(m).engine[|m.engine| + 1] == CancelTurn(m.claims[0])
  {
    var sid := m.claims[0];
    var m0 := m.(claims := m.claims[1..], hand := None);
    assert SessionOk(m, sid, m.sessions[sid]);
    FinishPrompts(m);
    var m1 := Release(m0, sid, m.hand.value);
    ReleasePrompts(m0, sid, m.hand.value);
    assert |m1.engine| == |m.engine| + 2 && m1.engine[|m.engine| + 1] == CancelTurn(sid);
    var s := m1.sessions[sid];
    forall i | 0 <= i < |s.deferred| ensures !s.deferred[i].PeerPrompt? { assert s.deferred[i] in m.sessions[sid].deferred; }
    var x := Put(m1, sid, s.(cancelClaim := false, deferred := []));
    PlainFlush(x, s.deferred);
    PlainDue(Flush(x, s.deferred), sid);
    PlainOn(x, Flush(x, s.deferred), Finish(m));
    assert Finish(m).engine[|m.engine| + 1] == x.engine[|m.engine| + 1];
  }

  /** A cancel that arrives during a claim is held, and directly follows the prompt that
      the claim submits, as long as the engine admits both and the session stays. */
  lemma HeldCancelFollowsThePrompt(steps: seq<Step>, states: seq<State>, k: nat, l: nat, sid: SessionId)
    requires Run(steps, states) && HeldFrom(steps, states, k, l, sid) && l < |steps|
    requires Finishes(states[l], steps[l], sid) && states[l].hand.Some? && states[l].hand.value.Some?
    requires Admits(states[l]) && states[l].room > 1
    ensures states[k + 1].engine == states[k].engine
    ensures Prompted(states[l], states[l + 1], sid, states[l].hand.value.value)
    ensures |states[l + 1].engine| >= |states[l].engine| + 2 && states[l + 1].engine[|states[l].engine| + 1] == CancelTurn(sid)
  {
    HoldLasts(steps, states, k, l, sid);
    HeldAtOnce(states[k], states[k + 1], sid);
    assert Stepped(states[l], steps[l], states[l + 1]);
    StaysWellFormed(steps, states, l);
    CancelFollows(states[l]);
  }
}
