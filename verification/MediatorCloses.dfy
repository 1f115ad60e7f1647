/**
 * What the host and the engine can do to keep turns exclusive: the engine answers
 * only what it was given, and no close of a session is outstanding when another
 * close of it arrives or when it becomes tracked. Such runs never delete a record
 * under a claim. Closing a session that is not tracked is always allowed.
 */
module MediatorCloses {
  import opened Collections
  import opened MediatorModel
  import opened MediatorCustody
  import opened MediatorExclusion

  ghost predicate CloseOf(m: State, a: nat, sid: SessionId) { a in m.pending && IsClose(m.pending[a], sid) }

  ghost predicate NoClose(m: State, sid: SessionId) { forall a :: !CloseOf(m, a, sid) }

  /** The answer makes `sid` a tracked session. */
  ghost predicate Tracks(m: State, e: Step, sid: SessionId) {
    && e.EngineAnswers? && e.adapter in m.pending && m.pending[e.adapter].HostPending? && sid !in m.sessions
    && (var r := m.pending[e.adapter].request;
        (r.verb.New? && e.created == Some(sid)) || (r.verb.Load? && e.ok && r.session == Some(sid)))
  }

  ghost predicate Follows(m: State, e: Step) {
    match e
    case PromptArrives(_, sid) => sid in m.sessions || NoClose(m, sid)
    case CallArrives(_, Close, Some(sid)) => NoClose(m, sid)
    case EngineAnswers(a, _, _) =>
      && (a in m.pending && m.pending[a].HostPending? ==> HostRequest(a, m.pending[a].request) in m.engine)
      && (forall sid :: Tracks(m, e, sid) ==> NoClose(m, sid))
    case _ => true
  }

  // -- outstanding closes --------------------------------------------------------------

  /** A close outstanding for a tracked session has marked it closing, and during a
      claim it has not been given to the engine yet. */
  ghost predicate CloseWaits(m: State, a: nat, sid: SessionId)
    requires CloseOf(m, a, sid)
  {
    sid in m.sessions ==>
      m.sessions[sid].closing
      && (m.sessions[sid].claiming ==> HostRequest(a, m.pending[a].request) !in m.engine)
  }

  ghost predicate ClosesOk(m: State) {
    && (forall a, sid :: CloseOf(m, a, sid) ==> CloseWaits(m, a, sid))
    && (forall a, b, sid :: CloseOf(m, a, sid) && CloseOf(m, b, sid) ==> a == b)
  }

  /** No close is new, and the sessions with one keep waiting for it. */
  ghost predicate Kept(m: State, n: State) {
    && (forall a, sid :: CloseOf(n, a, sid) ==> CloseOf(m, a, sid) && n.pending[a] == m.pending[a])
    && (forall a, sid :: CloseOf(n, a, sid) && sid in n.sessions ==>
          && sid in m.sessions && (m.sessions[sid].closing ==> n.sessions[sid].closing)
          && (n.sessions[sid].claiming ==>
                m.sessions[sid].claiming && (HostRequest(a, n.pending[a].request) in n.engine ==>
                                               HostRequest(a, n.pending[a].request) in m.engine)))
  }

  lemma KeptTrans(m: State, n: State, o: State)
    requires Kept(m, n) && Kept(n, o)
    ensures Kept(m, o)
  {
    forall a, sid | CloseOf(o, a, sid) ensures CloseOf(m, a, sid) && o.pending[a] == m.pending[a] {
      assert CloseOf(n, a, sid);
    }
  }

  lemma KeptOk(m: State, n: State)
    requires ClosesOk(m) && Kept(m, n)
    ensures ClosesOk(n)
  {
    forall a, sid | CloseOf(n, a, sid) ensures CloseWaits(n, a, sid) { assert CloseWaits(m, a, sid); }
  }

  /** Frames other than closes may be given to the engine at any time. */
  lemma KeptFrame(m: State, f: EngineFrame)
    requires !(f.HostRequest? && f.request.verb.Close? && f.request.session.Some?)
    ensures Kept(m, ToEngine(m, f))
  {
    var n := ToEngine(m, f);
    forall a, sid | CloseOf(n, a, sid) && HostRequest(a, n.pending[a].request) in n.engine
      ensures HostRequest(a, n.pending[a].request) in m.engine
    {
      assert HostRequest(a, n.pending[a].request) != f;
    }
  }

  lemma KeptSubmit(m: State, sid: SessionId, r: Request)
    requires sid in m.sessions && r.verb.Prompt? && NextId(m) !in m.pending
    ensures Kept(m, Submit(m, sid, r))
  {
    var m1 := Allocate(m, HostPending(r));
    KeptFrame(m1, HostRequest(NextId(m), r));
    assert Kept(m, m1);
    KeptTrans(m, m1, ToEngine(m1, HostRequest(NextId(m), r)));
  }

  lemma {:induction false} KeptDue(m: State, sid: SessionId)
    requires sid in m.sessions && (forall r :: r in m.sessions[sid].queued ==> r.verb.Prompt?)
    requires forall a :: a in m.pending ==> a <= |m.issued|
    ensures Kept(m, Due(m, sid))
    decreases |m.sessions[sid].queued|
  {
    var s := m.sessions[sid];
    if !s.Busy() && s.queued != [] {
      var r := s.queued[0];
      var m1 := Put(m, sid, s.(queued := s.queued[1..]));
      assert Kept(m, m1) && r in s.queued;
      KeptSubmit(m1, sid, r);
      var m2 := Submit(m1, sid, r);
      KeptTrans(m, m1, m2);
      if !Admits(m1) {
        var m3 := m2.(host := m2.host + [Answer(r, Cancelled)]);
        assert Kept(m2, m3);
        KeptTrans(m, m2, m3);
        KeptDue(m3, sid);
        KeptTrans(m, m3, Due(m3, sid));
      }
    }
  }

  // -- steps ---------------------------------------------------------------------------------

  lemma PromptKeptCloses(m: State, id: RpcId, sid: SessionId)
    requires ClosesOk(m) && WellFormed(m) && Follows(m, PromptArrives(id, sid))
    ensures ClosesOk(HostPrompt(m, id, sid))
  {
    var r := Request(|m.requests|, id, Prompt, Some(sid));
    var m1 := Track(Arrive(m, id), sid);
    assert Kept(m, m1) by {
      forall a ensures CloseOf(m1, a, sid) ==> sid in m.sessions { assert CloseOf(m1, a, sid) ==> CloseOf(m, a, sid); }
    }
    KeptOk(m, m1);
    assert NextId(m1) !in m1.pending;
    KeptSubmit(m1, sid, r);
    var n := HostPrompt(m, id, sid);
    assert Kept(m1, n);
    KeptOk(m1, n);
  }

  /** A close that arrives is the only one of its session. */
  lemma CloseArrives(m: State, id: RpcId, sid: SessionId)
    requires ClosesOk(m) && WellFormed(m) && NoClose(m, sid)
    ensures ClosesOk(HostCall(m, id, Close, Some(sid)))
  {
    var n := HostCall(m, id, Close, Some(sid));
    forall b, t | CloseOf(n, b, t) ensures CloseWaits(n, b, t) && (if t == sid then b == NextId(m) else CloseOf(m, b, t)) {
      if t == sid { OwnCloseWaits(m, id, sid, b); } else { OtherCloseWaits(m, id, sid, b, t); }
    }
  }

  lemma OwnCloseWaits(m: State, id: RpcId, sid: SessionId, b: nat)
    requires WellFormed(m) && NoClose(m, sid) && CloseOf(HostCall(m, id, Close, Some(sid)), b, sid)
    ensures b == NextId(m) && CloseWaits(HostCall(m, id, Close, Some(sid)), b, sid)
  {
    var f := HostRequest(NextId(m), Request(|m.requests|, id, Close, Some(sid)));
    assert !CloseOf(m, b, sid);
    forall i | 0 <= i < |m.engine| ensures m.engine[i] != f { assert FrameOk(m, m.engine[i]); }
  }

  lemma OtherCloseWaits(m: State, id: RpcId, sid: SessionId, b: nat, t: SessionId)
    requires ClosesOk(m) && t != sid && CloseOf(HostCall(m, id, Close, Some(sid)), b, t)
    ensures CloseOf(m, b, t) && CloseWaits(HostCall(m, id, Close, Some(sid)), b, t)
  {
    var n := HostCall(m, id, Close, Some(sid));
    assert CloseOf(m, b, t) && CloseWaits(m, b, t) && n.pending[b] == m.pending[b];
    var f := HostRequest(b, n.pending[b].request);
    assert f in n.engine ==> f in m.engine;
  }

  lemma CallKeptCloses(m: State, id: RpcId, verb: Verb, sid: Option<SessionId>)
    requires ClosesOk(m) && WellFormed(m) && Follows(m, CallArrives(id, verb, sid))
    ensures ClosesOk(HostCall(m, id, verb, sid))
  {
    if verb.Close? && sid.Some? {
      CloseArrives(m, id, sid.value);
    } else {
      var r := Request(|m.requests|, id, verb, sid);
      var m1 := Allocate(Arrive(m, id), HostPending(r));
      assert NextId(m) !in m.pending;
      assert Kept(m, m1);
      KeptFrame(m1, HostRequest(NextId(m), r));
      KeptTrans(m, m1, ToEngine(m1, HostRequest(NextId(m), r)));
      assert Kept(ToEngine(m1, HostRequest(NextId(m), r)), HostCall(m, id, verb, sid));
      KeptTrans(m, ToEngine(m1, HostRequest(NextId(m), r)), HostCall(m, id, verb, sid));
      KeptOk(m, HostCall(m, id, verb, sid));
    }
  }

  lemma CancelKeptCloses(m: State, sid: SessionId)
    requires ClosesOk(m)
    ensures ClosesOk(HostCancel(m, sid))
  {
    var n := HostCancel(m, sid);
    if sid !in m.sessions {
      KeptFrame(m, CancelTurn(sid));
    } else {
      var s := m.sessions[sid];
      var m1 := m.(hostOwes := m.hostOwes + CancelAll(s.queued));
      var m2 := Put(m1, sid, s.(queued := []));
      assert Kept(m, m2);
      KeptFrame(m2, CancelTurn(sid));
      KeptTrans(m, m2, ToEngine(m2, CancelTurn(sid)));
    }
    assert Kept(m, n);
    KeptOk(m, n);
  }

  lemma QueuedPrompts(m: State, sid: SessionId)
    requires WellFormed(m) && sid in m.sessions
    ensures forall r :: r in m.sessions[sid].queued ==> r.verb.Prompt?
    ensures forall a :: a in m.pending ==> a <= |m.issued|
    ensures forall f :: f in m.sessions[sid].deferred ==> f.HostRequest? && f.request.session == Some(sid)
  {
    assert SessionOk(m, sid, m.sessions[sid]);
  }

  lemma AnswerKeptCloses(m: State, a: nat, ok: bool, created: Option<SessionId>)
    requires ClosesOk(m) && WellFormed(m) && Follows(m, EngineAnswers(a, ok, created)) && a in m.pending
    ensures ClosesOk(EngineReply(m, a, ok, created))
  {
    var e := EngineAnswers(a, ok, created);
    var p := m.pending[a];
    var n := Answered(m, a);
    assert Kept(m, n);
    var verb := if p.HostPending? then p.request.verb else Prompt;
    var sid := if p.HostPending? then p.request.session else Some(p.session);
    var o := EngineReply(m, a, ok, created);
    if verb.New? && created.Some? {
      TrackKeptCloses(m, n, created.value, e);
    } else if verb.Load? && ok && sid.Some? {
      TrackKeptCloses(m, n, sid.value, e);
    } else if sid.Some? && sid.value in m.sessions && (verb.Prompt? || (verb.Close? && !ok)) {
      SettledKeptCloses(m, a, sid.value);
    } else {
      assert Kept(n, o);
      KeptTrans(m, n, o);
      KeptOk(m, o);
    }
  }

  lemma SettledKeptCloses(m: State, a: nat, sid: SessionId)
    requires ClosesOk(m) && WellFormed(m) && a in m.pending && sid in m.sessions
    ensures CloseOf(m, a, sid) ==> ClosesOk(Due(Put(Answered(m, a), sid, m.sessions[sid].(closing := false)), sid))
    ensures ClosesOk(Due(Put(Answered(m, a), sid, Turned(m.sessions[sid], a)), sid))
  {
    var s, n := m.sessions[sid], Answered(m, a);
    QueuedPrompts(m, sid);
    var x := Put(n, sid, Turned(s, a));
    assert Kept(m, x);
    DueKeptCloses(m, x, sid);
    if CloseOf(m, a, sid) {
      var y := Put(n, sid, s.(closing := false));
      forall b ensures !CloseOf(y, b, sid) { assert CloseOf(y, b, sid) ==> CloseOf(m, b, sid); }
      assert Kept(m, y);
      DueKeptCloses(m, y, sid);
    }
  }

  lemma DueKeptCloses(m: State, x: State, sid: SessionId)
    requires ClosesOk(m) && Kept(m, x) && sid in x.sessions
    requires forall r :: r in x.sessions[sid].queued ==> r.verb.Prompt?
    requires forall a :: a in x.pending ==> a <= |x.issued|
    ensures ClosesOk(Due(x, sid))
  {
    KeptDue(x, sid);
    KeptTrans(m, x, Due(x, sid));
    KeptOk(m, Due(x, sid));
  }

  lemma TrackKeptCloses(m: State, n: State, sid: SessionId, e: Step)
    requires ClosesOk(m) && Kept(m, n) && n.sessions == m.sessions
    requires Tracks(m, e, sid) ==> NoClose(m, sid)
    requires sid !in m.sessions ==> Tracks(m, e, sid)
    ensures ClosesOk(Track(n, sid))
  {
    var o := Track(n, sid);
    forall a ensures CloseOf(o, a, sid) ==> sid in m.sessions { assert CloseOf(o, a, sid) ==> CloseOf(n, a, sid); }
    assert Kept(n, o);
    KeptTrans(m, n, o);
    KeptOk(m, o);
  }

  lemma ClaimKeptCloses(m: State, order: seq<SessionId>)
    requires ClosesOk(m)
    ensures ClosesOk(Claim(m, order))
  {
    var n := Claim(m, order);
    forall a, sid | CloseOf(n, a, sid) ensures CloseWaits(n, a, sid) {
      assert CloseOf(m, a, sid) && CloseWaits(m, a, sid);
    }
    assert forall a, sid :: CloseOf(n, a, sid) ==> CloseOf(m, a, sid);
  }

  lemma KeptSubmitPeer(m: State, sid: SessionId, event: nat)
    requires sid in m.sessions && NextId(m) !in m.pending
    ensures Kept(m, SubmitPeer(m, sid, event))
  {
    var a := NextId(m);
    var s := m.sessions[sid];
    var m1 := Allocate(m, PeerPending(sid));
    var m2 := ToEngine(m1, PeerPrompt(a, sid, event, s.claimedAt));
    assert Kept(m, m1);
    KeptFrame(m1, PeerPrompt(a, sid, event, s.claimedAt));
    KeptTrans(m, m1, m2);
    var m3 := Put(m2, sid, s.(peerPrompt := Some(a)));
    KeptFrame(m3, CancelTurn(sid));
    assert Kept(m2, m3);
    KeptTrans(m, m2, m3);
    KeptTrans(m, m3, ToEngine(m3, CancelTurn(sid)));
    assert Kept(m2, Put(Forget(m2, a), sid, s.(peerPrompt := None)));
    KeptTrans(m, m2, Put(Forget(m2, a), sid, s.(peerPrompt := None)));
  }

  /** Deferred frames are of the session that is no longer claimed. */
  lemma {:induction false} KeptFlush(m: State, sid: SessionId, frames: seq<EngineFrame>)
    requires sid in m.sessions && !m.sessions[sid].claiming
    requires forall f :: f in frames ==> f.HostRequest? && f.request.session == Some(sid)
    ensures Kept(m, Flush(m, frames))
    decreases |frames|
  {
    if frames != [] {
      var n := ToEngine(m, frames[0]);
      assert frames[0] in frames;
      forall a, t | CloseOf(n, a, t) && t != sid && HostRequest(a, n.pending[a].request) in n.engine
        ensures HostRequest(a, n.pending[a].request) in m.engine
      {
        assert HostRequest(a, n.pending[a].request) != frames[0];
      }
      KeptFlush(n, sid, frames[1..]);
      KeptTrans(m, n, Flush(n, frames[1..]));
    }
  }

  lemma FinishKeptCloses(m: State)
    requires ClosesOk(m) && WellFormed(m) && m.claims != [] && m.hand.Some?
    ensures ClosesOk(Finish(m))
  {
    var sid := m.claims[0];
    var m0 := m.(claims := m.claims[1..], hand := None);
    assert Kept(m, m0);
    if sid in m.sessions {
      QueuedPrompts(m, sid);
      var x := Put(m0, sid, m.sessions[sid].(claiming := false));
      assert Kept(m, x);
      var m1 := Release(m0, sid, m.hand.value);
      if m.hand.value.Some? {
        assert NextId(x) !in x.pending;
        KeptSubmitPeer(x, sid, m.hand.value.value);
        KeptTrans(m, x, m1);
      }
      FlushedCloses(m, m1, sid);
    } else {
      KeptOk(m, m0);
    }
  }

  lemma FlushedCloses(m: State, m1: State, sid: SessionId)
    requires ClosesOk(m) && Kept(m, m1) && sid in m1.sessions && !m1.sessions[sid].claiming
    requires forall r :: r in m1.sessions[sid].queued ==> r.verb.Prompt?
    requires forall a :: a in m1.pending ==> a <= |m1.issued|
    requires forall f :: f in m1.sessions[sid].deferred ==> f.HostRequest? && f.request.session == Some(sid)
    ensures
      var s := m1.sessions[sid];
      ClosesOk(Due(Flush(Put(m1, sid, s.(cancelClaim := false, deferred := [])), s.deferred), sid))
  {
    var s := m1.sessions[sid];
    var m2 := Put(m1, sid, s.(cancelClaim := false, deferred := []));
    assert Kept(m1, m2);
    KeptTrans(m, m1, m2);
    KeptFlush(m2, sid, s.deferred);
    var m3 := Flush(m2, s.deferred);
    KeptTrans(m, m2, m3);
    DueKeptCloses(m, m3, sid);
  }

  lemma ClosesStep(m: State, e: Step)
    requires ClosesOk(m) && WellFormed(m) && Enabled(m, e) && Follows(m, e)
    ensures ClosesOk(Apply(m, e))
  {
    match e
    case PromptArrives(id, sid) => PromptKeptCloses(m, id, sid);
    case CallArrives(id, verb, sid) => CallKeptCloses(m, id, verb, sid);
    case CancelArrives(sid) => CancelKeptCloses(m, sid);
    case HostRelay => KeptFrame(m, Relayed); KeptOk(m, ToEngine(m, Relayed));
    case EngineAnswers(a, ok, created) => if a in m.pending { AnswerKeptCloses(m, a, ok, created); }
    case DeliveryClaims(order) => ClaimKeptCloses(m, order);
    case DeliveryFinishes => FinishKeptCloses(m);
    case _ => assert Kept(m, Apply(m, e)); KeptOk(m, Apply(m, e));
  }

  // -- whole runs ------------------------------------------------------------------------------

  ghost predicate FollowingRun(steps: seq<Step>, states: seq<State>) {
    Run(steps, states) && forall i :: 0 <= i < |steps| ==> Follows(states[i], steps[i])
  }

  lemma {:induction false} StaysClosesOk(steps: seq<Step>, states: seq<State>, k: nat)
    requires FollowingRun(steps, states) && k <= |steps|
    ensures ClosesOk(states[k])
  {
    if k > 0 {
      StaysClosesOk(steps, states, k - 1);
      StaysWellFormed(steps, states, k - 1);
      assert Stepped(states[k - 1], steps[k - 1], states[k]);
      ClosesStep(states[k - 1], steps[k - 1]);
    }
  }

  /** Runs that follow the rule never delete a claimed record, so turns exclude one
      another in all of them. */
  lemma FollowingRunsAreUnharmed(steps: seq<Step>, states: seq<State>)
    requires FollowingRun(steps, states)
    ensures UnharmedRun(steps, states)
  {
    forall i | 0 <= i < |steps| ensures !Harms(states[i], steps[i]) {
      StaysClosesOk(steps, states, i);
      var m, e := states[i], steps[i];
      if e.EngineAnswers? && e.adapter in m.pending && m.pending[e.adapter].HostPending?
         && m.pending[e.adapter].request.verb.Close? && m.pending[e.adapter].request.session.Some? {
        var sid := m.pending[e.adapter].request.session.value;
        assert CloseOf(m, e.adapter, sid) && CloseWaits(m, e.adapter, sid);
        assert Follows(m, e);
      }
    }
  }
}
