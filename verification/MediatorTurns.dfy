/**
 * Waiting prompts of the mediator: none is left waiting on an idle session, and
 * prompts reach the engine in arrival order.
 */
module MediatorTurns {
  import opened Collections
  import opened MediatorModel
  import opened MediatorCustody

  // -- nothing waits on an idle session ---------------------------------------

  ghost predicate NoStuck(m: State) {
    forall sid :: sid in m.sessions && m.sessions[sid].queued != [] ==> m.sessions[sid].Busy()
  }

  /** Every session other than `sid` has nothing stuck. */
  ghost predicate NoStuckBut(m: State, sid: SessionId) {
    forall t :: t != sid && t in m.sessions && m.sessions[t].queued != [] ==> m.sessions[t].Busy()
  }

  lemma {:induction false} DueUnsticks(m: State, sid: SessionId)
    requires NoStuckBut(m, sid) && sid in m.sessions
    ensures NoStuck(Due(m, sid))
    decreases |m.sessions[sid].queued|
  {
    var s := m.sessions[sid];
    if !s.Busy() && s.queued != [] {
      var m1 := Put(m, sid, s.(queued := s.queued[1..]));
      var m2 := Submit(m1, sid, s.queued[0]);
      if !Admits(m1) { DueUnsticks(m2.(host := m2.host + [Answer(s.queued[0], Cancelled)]), sid); }
    }
  }

  lemma SettleUnsticks(m: State, p: Pending, a: nat, ok: bool, created: Option<SessionId>)
    requires NoStuck(m)
    ensures NoStuck(Settle(m, p, a, ok, created))
  {
    var verb := if p.HostPending? then p.request.verb else Prompt;
    var sid := if p.HostPending? then p.request.session else Some(p.session);
    if sid.Some? && sid.value in m.sessions {
      var s := m.sessions[sid.value];
      if verb.Close? {
        DueUnsticks(Put(m, sid.value, s.(closing := false)), sid.value);
      } else if verb.Prompt? {
        DueUnsticks(Put(m, sid.value, s.(hostPrompts := s.hostPrompts - {a},
          peerPrompt := if s.peerPrompt == Some(a) then None else s.peerPrompt)), sid.value);
      }
    }
  }

  lemma FinishUnsticks(m: State)
    requires NoStuck(m) && m.claims != [] && m.hand.Some?
    ensures NoStuck(Finish(m))
  {
    var sid := m.claims[0];
    var m0 := m.(claims := m.claims[1..], hand := None);
    if sid in m.sessions {
      var m1 := Release(m0, sid, m.hand.value);
      var s := m1.sessions[sid];
      DueUnsticks(Flush(Put(m1, sid, s.(cancelClaim := false, deferred := [])), s.deferred), sid);
    }
  }

  lemma NoStuckStep(m: State, e: Step)
    requires NoStuck(m) && Enabled(m, e)
    ensures NoStuck(Apply(m, e))
  {
    match e
    case PromptArrives(id, sid) => PromptUnsticks(m, id, sid);
    case CallArrives(id, verb, sid) => CallUnsticks(m, id, verb, sid);
    case EngineAnswers(a, ok, created) => ReplyUnsticks(m, a, ok, created);
    case DeliveryFinishes => FinishUnsticks(m);
    case _ =>
  }

  lemma PromptUnsticks(m: State, id: RpcId, sid: SessionId)
    requires NoStuck(m)
    ensures NoStuck(HostPrompt(m, id, sid))
  {
  }

  lemma CallUnsticks(m: State, id: RpcId, verb: Verb, sid: Option<SessionId>)
    requires NoStuck(m) && Enabled(m, CallArrives(id, verb, sid))
    ensures NoStuck(HostCall(m, id, verb, sid))
  {
  }

  lemma ReplyUnsticks(m: State, a: nat, ok: bool, created: Option<SessionId>)
    requires NoStuck(m) && Enabled(m, EngineAnswers(a, ok, created))
    ensures NoStuck(EngineReply(m, a, ok, created))
  {
    if a in m.pending {
      var p := m.pending[a];
      var m1 := Forget(m, a);
      var m2 := if p.HostPending?
                then m1.(engineOwes := m1.engineOwes + [Answer(p.request, EngineAnswer(a))])
                else m1;
      SettleUnsticks(m2, p, a, ok, created);
    }
  }

  /** At every lock release of every run, prompts wait only on a busy session. */
  lemma {:induction false} NoPromptWaitsOnIdleSession(steps: seq<Step>, states: seq<State>, k: nat)
    requires Run(steps, states) && k <= |steps|
    ensures forall sid :: sid in states[k].sessions && states[k].sessions[sid].queued != [] ==>
              states[k].sessions[sid].Busy()
  {
    if k > 0 {
      NoPromptWaitsOnIdleSession(steps, states, k - 1);
      assert Stepped(states[k - 1], steps[k - 1], states[k]);
      NoStuckStep(states[k - 1], steps[k - 1]);
    }
  }

  // -- arrival order ------------------------------------------------------------

  ghost predicate PromptOf(f: EngineFrame, sid: SessionId) {
    f.HostRequest? && f.request.verb.Prompt? && f.request.session == Some(sid)
  }

  /** Every prompt the engine was given for `sid` arrived before `serial`. */
  ghost predicate Before(m: State, sid: SessionId, serial: nat) {
    forall i :: 0 <= i < |m.engine| && PromptOf(m.engine[i], sid) ==> m.engine[i].request.serial < serial
  }

  ghost predicate QueueOrdered(q: seq<Request>) {
    forall i, j :: 0 <= i < j < |q| ==> q[i].serial < q[j].serial
  }

  ghost predicate LogOrdered(m: State) {
    forall sid, i, j :: 0 <= i < j < |m.engine| && PromptOf(m.engine[i], sid) && PromptOf(m.engine[j], sid) ==>
      m.engine[i].request.serial < m.engine[j].request.serial
  }

  ghost predicate QueuesBehind(m: State) {
    forall sid, k :: sid in m.sessions && 0 <= k < |m.sessions[sid].queued| ==>
      Before(m, sid, m.sessions[sid].queued[k].serial)
  }

  ghost predicate QueuesOrdered(m: State) {
    forall sid :: sid in m.sessions ==> QueueOrdered(m.sessions[sid].queued)
  }

  ghost predicate Ordered(m: State) { LogOrdered(m) && QueuesBehind(m) && QueuesOrdered(m) }

  lemma OrdPut(m: State, sid: SessionId, s: Session)
    requires Ordered(m) && QueueOrdered(s.queued)
    requires forall k :: 0 <= k < |s.queued| ==> Before(m, sid, s.queued[k].serial)
    ensures Ordered(Put(m, sid, s))
  {
    var n := Put(m, sid, s);
    assert forall t, serial :: Before(m, t, serial) ==> Before(n, t, serial);
  }

  lemma OrdOther(m: State, f: EngineFrame)
    requires Ordered(m) && forall sid :: !PromptOf(f, sid)
    ensures Ordered(ToEngine(m, f))
  {
    var n := ToEngine(m, f);
    assert forall t, serial :: Before(m, t, serial) ==> Before(n, t, serial);
  }

  lemma OrdSame(m: State, n: State)
    requires Ordered(m) && n.engine == m.engine && n.sessions.Keys <= m.sessions.Keys
    requires forall t :: t in n.sessions ==> n.sessions[t].queued == m.sessions[t].queued
    ensures Ordered(n)
  {
    assert forall t, serial :: Before(m, t, serial) ==> Before(n, t, serial);
  }

  lemma OrdSubmit(m: State, sid: SessionId, r: Request)
    requires Ordered(m) && sid in m.sessions && r.verb.Prompt? && r.session == Some(sid)
    requires Before(m, sid, r.serial)
    requires forall k :: 0 <= k < |m.sessions[sid].queued| ==> r.serial < m.sessions[sid].queued[k].serial
    ensures Ordered(Submit(m, sid, r))
  {
    var n := Submit(m, sid, r);
    var f := HostRequest(NextId(m), r);
    assert n.engine == m.engine || n.engine == m.engine + [f];
    forall t, k | t in n.sessions && 0 <= k < |n.sessions[t].queued|
      ensures Before(n, t, n.sessions[t].queued[k].serial)
    {
      assert Before(m, t, m.sessions[t].queued[k].serial);
    }
    forall t, i, j | 0 <= i < j < |n.engine| && PromptOf(n.engine[i], t) && PromptOf(n.engine[j], t)
      ensures n.engine[i].request.serial < n.engine[j].request.serial
    {
      if j == |m.engine| { assert PromptOf(m.engine[i], sid); }
    }
  }

  lemma OrdPop(m: State, sid: SessionId)
    requires Ordered(m) && WellFormed(m) && sid in m.sessions && m.sessions[sid].queued != []
    ensures (
      var s := m.sessions[sid];
      var m1 := Put(m, sid, s.(queued := s.queued[1..]));
      && Ordered(m1) && WellFormed(m1) && Before(m1, sid, s.queued[0].serial) && s.queued[0] in s.queued
      && SessionOk(m, sid, s))
  {
    var s := m.sessions[sid];
    var rest := s.(queued := s.queued[1..]);
    assert SessionOk(m, sid, s);
    assert SessionOk(m, sid, rest);
    assert Before(m, sid, s.queued[0].serial);
    forall k | 0 <= k < |rest.queued| ensures Before(m, sid, rest.queued[k].serial) {
      assert Before(m, sid, s.queued[k + 1].serial);
    }
    OrdPut(m, sid, rest);
    WfPut(m, sid, rest);
  }

  lemma {:induction false} OrdDue(m: State, sid: SessionId)
    requires Ordered(m) && WellFormed(m) && sid in m.sessions
    ensures Ordered(Due(m, sid))
    decreases |m.sessions[sid].queued|
  {
    var s := m.sessions[sid];
    if !s.Busy() && s.queued != [] {
      var r := s.queued[0];
      var m1 := Put(m, sid, s.(queued := s.queued[1..]));
      OrdPop(m, sid);
      OrdSubmit(m1, sid, r);
      WfSubmit(m1, sid, r);
      if !Admits(m1) {
        var m2 := Submit(m1, sid, r);
        var m3 := m2.(host := m2.host + [Answer(r, Cancelled)]);
        WfTell(m2, Answer(r, Cancelled));
        OrdSame(m2, m3);
        OrdDue(m3, sid);
      }
    }
  }

  lemma OrdPutDue(m: State, sid: SessionId, s: Session)
    requires Ordered(m) && WellFormed(m) && SessionOk(m, sid, s)
    requires sid in m.sessions && s.queued == m.sessions[sid].queued
    ensures Ordered(Due(Put(m, sid, s), sid))
  {
    OrdSame(m, Put(m, sid, s));
    WfPut(m, sid, s);
    OrdDue(Put(m, sid, s), sid);
  }

  lemma OrdTrack(m: State, sid: SessionId)
    requires Ordered(m)
    ensures Ordered(Track(m, sid))
  {
    if sid !in m.sessions {
      OrdPut(m, sid, Session(|m.issued|, {}, None, false, 0, false, false, [], []));
    }
  }

  /** A request that has just arrived is later than everything already logged. */
  lemma ArrivalIsLatest(m: State, sid: SessionId)
    requires WellFormed(m)
    ensures Before(m, sid, |m.requests|)
    ensures sid in m.sessions ==>
              forall k :: 0 <= k < |m.sessions[sid].queued| ==> m.sessions[sid].queued[k].serial < |m.requests|
  {
    forall i | 0 <= i < |m.engine| && PromptOf(m.engine[i], sid)
      ensures m.engine[i].request.serial < |m.requests|
    {
      assert FrameOk(m, m.engine[i]);
      assert Known(m, m.issued[m.engine[i].adapter - 1].request);
    }
    if sid in m.sessions {
      assert SessionOk(m, sid, m.sessions[sid]);
      forall k | 0 <= k < |m.sessions[sid].queued| ensures Known(m, m.sessions[sid].queued[k]) {
        assert m.sessions[sid].queued[k] in m.sessions[sid].queued;
      }
    }
  }

  lemma OrdHostPrompt(m: State, id: RpcId, sid: SessionId)
    requires Ordered(m) && WellFormed(m)
    ensures Ordered(HostPrompt(m, id, sid))
  {
    var r := Request(|m.requests|, id, Prompt, Some(sid));
    var m0 := Arrive(m, id);
    OrdSame(m, m0);
    OrdTrack(m0, sid);
    ArrivalIsLatest(m, sid);
    var m1 := Track(m0, sid);
    var s := m1.sessions[sid];
    assert Before(m1, sid, r.serial);
    if s.closing {
      OrdSame(m1, Refuse(m1, r));
    } else if s.peerPrompt.Some? || s.claiming || s.queued != [] {
      if |s.queued| < MAX_QUEUED_PROMPTS {
        var q := s.(queued := s.queued + [r]);
        forall k | 0 <= k < |q.queued| ensures Before(m1, sid, q.queued[k].serial) {
          if k < |s.queued| { assert Before(m1, sid, s.queued[k].serial); }
        }
        OrdPut(m1, sid, q);
      } else {
        OrdSame(m1, Refuse(m1, r));
      }
    } else {
      OrdSubmit(m1, sid, r);
      OrdSame(Submit(m1, sid, r), Refuse(Submit(m1, sid, r), r));
    }
  }

  lemma OrdHostCall(m: State, id: RpcId, verb: Verb, sid: Option<SessionId>)
    requires Ordered(m) && !(verb.Prompt? && sid.Some?)
    ensures Ordered(HostCall(m, id, verb, sid))
  {
    var r := Request(|m.requests|, id, verb, sid);
    var a := NextId(m);
    var m1 := Allocate(Arrive(m, id), HostPending(r));
    OrdSame(m, m1);
    var m2 := if ClosesTracked(m, verb, sid)
              then Put(m1, sid.value, m1.sessions[sid.value].(closing := true)) else m1;
    OrdSame(m1, m2);
    if ClosesTracked(m, verb, sid) && m2.sessions[sid.value].claiming {
      OrdSame(m2, HostCall(m, id, verb, sid));
    } else {
      OrdOther(m2, HostRequest(a, r));
      var m3 := ToEngine(m2, HostRequest(a, r));
      OrdSame(m3, Refuse(Forget(m3, a), r));
    }
  }

  lemma OrdHostCancel(m: State, sid: SessionId)
    requires Ordered(m)
    ensures Ordered(HostCancel(m, sid))
  {
    OrdOther(m, CancelTurn(sid));
    if sid in m.sessions {
      var s := m.sessions[sid];
      var m1 := m.(hostOwes := m.hostOwes + CancelAll(s.queued));
      OrdSame(m, m1);
      OrdPut(m1, sid, s.(queued := [], cancelClaim := true));
      OrdPut(m1, sid, s.(queued := []));
      OrdOther(Put(m1, sid, s.(queued := [])), CancelTurn(sid));
    }
  }

  lemma OrdSettle(m: State, p: Pending, a: nat, ok: bool, created: Option<SessionId>)
    requires Ordered(m) && WellFormed(m)
    ensures Ordered(Settle(m, p, a, ok, created))
  {
    var verb := if p.HostPending? then p.request.verb else Prompt;
    var sid := if p.HostPending? then p.request.session else Some(p.session);
    if verb.New? && created.Some? {
      OrdTrack(m, created.value);
    } else if sid.Some? {
      OrdTrack(m, sid.value);
      if sid.value in m.sessions {
        var s := m.sessions[sid.value];
        assert SessionOk(m, sid.value, s);
        if verb.Close? && ok {
          OrdSame(m, Settle(m, p, a, ok, created));
        } else if verb.Close? {
          OrdPutDue(m, sid.value, s.(closing := false));
        } else if verb.Prompt? {
          OrdPutDue(m, sid.value, s.(hostPrompts := s.hostPrompts - {a},
            peerPrompt := if s.peerPrompt == Some(a) then None else s.peerPrompt));
        }
      }
    }
  }

  lemma OrdEngineReply(m: State, a: nat, ok: bool, created: Option<SessionId>)
    requires Ordered(m) && WellFormed(m)
    ensures Ordered(EngineReply(m, a, ok, created))
  {
    if a in m.pending {
      var p := m.pending[a];
      var m1 := Forget(m, a);
      WfForget(m, a);
      if p.HostPending? {
        assert Known(m, m.issued[a - 1].request);
        WfTell(m1, Answer(p.request, EngineAnswer(a)));
        var m2 := m1.(engineOwes := m1.engineOwes + [Answer(p.request, EngineAnswer(a))]);
        OrdSame(m, m2);
        OrdSettle(m2, p, a, ok, created);
      } else {
        OrdSame(m, m1);
        OrdSettle(m1, p, a, ok, created);
      }
    }
  }

  lemma {:induction false} OrdFlush(m: State, frames: seq<EngineFrame>)
    requires Ordered(m)
    requires forall f, sid :: f in frames ==> !PromptOf(f, sid)
    ensures Ordered(Flush(m, frames))
    decreases |frames|
  {
    if frames != [] {
      assert frames[0] in frames;
      OrdOther(m, frames[0]);
      OrdFlush(ToEngine(m, frames[0]), frames[1..]);
    }
  }

  lemma OrdRelease(m: State, sid: SessionId, got: Option<nat>)
    requires Ordered(m) && sid in m.sessions
    ensures Ordered(Release(m, sid, got)) && sid in Release(m, sid, got).sessions
    ensures Release(m, sid, got).sessions[sid].deferred == m.sessions[sid].deferred
  {
    var m1 := Put(m, sid, m.sessions[sid].(claiming := false));
    OrdSame(m, m1);
    if got.Some? { OrdSubmitPeer(m1, sid, got.value); }
  }

  lemma OrdSubmitPeer(m: State, sid: SessionId, event: nat)
    requires Ordered(m) && sid in m.sessions
    ensures Ordered(SubmitPeer(m, sid, event)) && sid in SubmitPeer(m, sid, event).sessions
    ensures SubmitPeer(m, sid, event).sessions[sid].deferred == m.sessions[sid].deferred
  {
    var a := NextId(m);
    var s := m.sessions[sid];
    var f := PeerPrompt(a, sid, event, s.claimedAt);
    var m1 := Allocate(m, PeerPending(sid));
    var m2 := ToEngine(m1, f);
    OrdSame(m, m1);
    OrdOther(m1, f);
    if Admits(m1) {
      var m3 := Put(m2, sid, s.(peerPrompt := Some(a)));
      OrdSame(m2, m3);
      if s.cancelClaim { OrdOther(m3, CancelTurn(sid)); }
    } else {
      OrdSame(m2, SubmitPeer(m, sid, event));
    }
  }

  lemma OrdFinish(m: State)
    requires Ordered(m) && WellFormed(m) && m.claims != [] && m.hand.Some?
    ensures Ordered(Finish(m))
  {
    var sid := m.claims[0];
    var m0 := m.(claims := m.claims[1..], hand := None);
    OrdSame(m, m0);
    WfClaims(m, m0);
    if sid in m.sessions {
      OrdRelease(m0, sid, m.hand.value);
      WfRelease(m0, sid, m.hand.value);
      var m1 := Release(m0, sid, m.hand.value);
      var s := m1.sessions[sid];
      WfSettled(m1, sid);
      var m2 := Put(m1, sid, s.(cancelClaim := false, deferred := []));
      OrdSame(m1, m2);
      assert SessionOk(m0, sid, m0.sessions[sid]);
      OrdFlush(m2, s.deferred);
      OrdDue(Flush(m2, s.deferred), sid);
    }
  }

  lemma OrdStep(m: State, e: Step)
    requires Ordered(m) && WellFormed(m) && Enabled(m, e)
    ensures Ordered(Apply(m, e))
  {
    match e
    case PromptArrives(id, sid) => OrdHostPrompt(m, id, sid);
    case CallArrives(id, verb, sid) => OrdHostCall(m, id, verb, sid);
    case CancelArrives(sid) => OrdHostCancel(m, sid);
    case HostRelay => OrdOther(m, Relayed);
    case EngineAnswers(a, ok, created) => OrdEngineReply(m, a, ok, created);
    case DeliveryFinishes => OrdFinish(m);
    case _ => OrdSame(m, Apply(m, e));
  }

  lemma {:induction false} StaysOrdered(steps: seq<Step>, states: seq<State>, k: nat)
    requires Run(steps, states) && k <= |steps|
    ensures Ordered(states[k])
  {
    if k > 0 {
      StaysOrdered(steps, states, k - 1);
      StaysWellFormed(steps, states, k - 1);
      assert Stepped(states[k - 1], steps[k - 1], states[k]);
      OrdStep(states[k - 1], steps[k - 1]);
    }
  }

  /** Of two prompts of one session that reached the engine, the one admitted
      first arrived first; and whatever still waits arrived after both. */
  lemma PromptsReachEngineInArrivalOrder(
      steps: seq<Step>, states: seq<State>, k: nat, sid: SessionId, i: nat, j: nat)
    requires Run(steps, states) && k <= |steps|
    requires i < j < |states[k].engine|
    requires PromptOf(states[k].engine[i], sid) && PromptOf(states[k].engine[j], sid)
    ensures states[k].engine[i].request.serial < states[k].engine[j].request.serial
    ensures sid in states[k].sessions ==>
              forall q :: 0 <= q < |states[k].sessions[sid].queued| ==>
                states[k].engine[j].request.serial < states[k].sessions[sid].queued[q].serial
  {
    StaysOrdered(steps, states, k);
    if sid in states[k].sessions {
      forall q | 0 <= q < |states[k].sessions[sid].queued|
        ensures states[k].engine[j].request.serial < states[k].sessions[sid].queued[q].serial
      {
        assert Before(states[k], sid, states[k].sessions[sid].queued[q].serial);
      }
    }
  }
}
