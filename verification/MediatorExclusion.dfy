/**
 * Turn exclusion: while a peer prompt is in flight or being claimed no host
 * prompt of that session record is in flight, and a cancel or close that
 * arrives during the claim follows the prompt the claim submits.
 *
 * One event can undo this: the engine confirms a close of a session whose record
 * is being claimed, and the record is deleted under the claim. `Harms` says
 * exactly which such answers matter; every run without one keeps the exclusion,
 * and module MediatorOverlap continues every run with one to an overlap.
 */
module MediatorExclusion {
  import opened Collections
  import opened MediatorModel
  import opened MediatorCustody

  ghost predicate IsClose(p: Pending, sid: SessionId) {
    p.HostPending? && p.request.verb.Close? && p.request.session == Some(sid)
  }

  ghost predicate IsHostPrompt(p: Pending, sid: SessionId) {
    p.HostPending? && p.request.verb.Prompt? && p.request.session == Some(sid)
  }

  ghost predicate TurnPending(p: Pending, sid: SessionId) {
    p == PeerPending(sid) || IsClose(p, sid) || IsHostPrompt(p, sid)
  }

  /** Frames that start, stop or end a turn of `sid`. */
  ghost predicate TurnFrame(f: EngineFrame, sid: SessionId) {
    match f
    case HostRequest(_, r) => (r.verb.Prompt? || r.verb.Close?) && r.session == Some(sid)
    case PeerPrompt(_, t, _, _) => t == sid
    case CancelTurn(t) => t == sid
    case Relayed => false
  }

  /** The delivery loop already knows that it took nothing for `sid`. */
  ghost predicate Spent(m: State, sid: SessionId) {
    m.claims != [] && m.claims[0] == sid && m.hand == Some(None)
  }

  /** A confirmed close deletes a claimed record while the engine input is open and
      the claim can still submit. */
  ghost predicate Harms(m: State, e: Step) {
    && e.EngineAnswers? && e.ok && e.adapter in m.pending
    && m.pending[e.adapter].HostPending? && m.pending[e.adapter].request.verb.Close?
    && m.pending[e.adapter].request.session.Some?
    && (var sid := m.pending[e.adapter].request.session.value;
        sid in m.sessions && m.sessions[sid].claiming && !m.closed && !Spent(m, sid))
  }

  /** `a` is a prompt the host has in flight on exactly this session record. */
  ghost predicate HostInFlight(m: State, sid: SessionId, s: Session, a: nat) {
    a in m.pending && s.since < a && IsHostPrompt(m.pending[a], sid)
  }

  ghost predicate PeerInFlight(m: State, sid: SessionId, s: Session, a: nat) {
    a in m.pending && s.since < a && m.pending[a] == PeerPending(sid)
  }

  ghost predicate Quiet(m: State, sid: SessionId, since: nat) {
    since <= |m.engine| && forall i :: since <= i < |m.engine| ==> !TurnFrame(m.engine[i], sid)
  }

  /** The record says exactly what is in flight, and the two kinds of turn and
      the claim exclude one another. */
  ghost predicate TurnOk(m: State, sid: SessionId, s: Session) {
    TurnCore(m, sid, s) && (s.deferred != [] ==> s.claiming)
  }

  ghost predicate TurnCore(m: State, sid: SessionId, s: Session) {
    && (forall a :: a in s.hostPrompts <==> HostInFlight(m, sid, s, a))
    && (forall a: nat :: s.peerPrompt == Some(a) <==> PeerInFlight(m, sid, s, a))
    && (s.claiming || s.peerPrompt.Some? ==> s.hostPrompts == {})
    && (s.claiming ==> s.peerPrompt.None? && Quiet(m, sid, s.claimedAt))
    && (s.claiming ==> sid in m.claims)
    && (sid in m.claims ==> s.claiming || Stale(m, sid, s))
  }

  /** A claim that outlived its record, and can no longer submit anything. */
  ghost predicate Stale(m: State, sid: SessionId, s: Session) {
    Spent(m, sid) || (m.closed && s.hostPrompts == {} && s.peerPrompt.None?)
  }

  ghost predicate ClaimsOk(m: State) {
    && (forall i, j :: 0 <= i < j < |m.claims| ==> m.claims[i] != m.claims[j])
    && (forall sid :: sid in m.claims ==> sid in m.sessions || Spent(m, sid) || m.closed)
  }

  ghost predicate PeerLogOk(m: State) {
    forall p, i :: 0 <= p < |m.engine| && m.engine[p].PeerPrompt? && m.engine[p].claimedAt <= i < p ==>
      !TurnFrame(m.engine[i], m.engine[p].session)
  }

  ghost predicate AllTurnsOk(m: State) {
    forall sid :: sid in m.sessions ==> TurnOk(m, sid, m.sessions[sid])
  }

  ghost predicate Exclusive(m: State) {
    AllTurnsOk(m) && ClaimsOk(m) && PeerLogOk(m)
  }

  // -- steps touch one session --------------------------------------------------

  /** Everything `m` and `n` say about turns of sessions other than `sid` agrees. */
  ghost predicate Local(m: State, n: State, sid: SessionId) {
    && (forall t :: t != sid ==> (t in m.sessions <==> t in n.sessions))
    && (forall t :: t != sid && t in m.sessions ==> m.sessions[t] == n.sessions[t])
    && (forall t :: t != sid ==> (t in m.claims <==> t in n.claims))
    && (m.claims != [] && m.claims[0] != sid && m.hand == Some(None) ==>
          n.claims != [] && n.claims[0] == m.claims[0] && n.hand == Some(None))
    && (m.closed ==> n.closed)
    && |m.engine| <= |n.engine|
    && (forall i :: 0 <= i < |m.engine| ==> n.engine[i] == m.engine[i])
    && (forall i, t :: |m.engine| <= i < |n.engine| && t != sid ==> !TurnFrame(n.engine[i], t))
    && (forall a, t :: t != sid && a in m.pending && TurnPending(m.pending[a], t) ==>
          a in n.pending && n.pending[a] == m.pending[a])
    && (forall a, t :: t != sid && a in n.pending && TurnPending(n.pending[a], t) ==>
          a in m.pending && n.pending[a] == m.pending[a])
  }

  lemma LocalTrans(m: State, n: State, o: State, sid: SessionId)
    requires Local(m, n, sid) && Local(n, o, sid)
    ensures Local(m, o, sid)
  {
  }

  lemma OthersKeepTurns(m: State, n: State, sid: SessionId, t: SessionId)
    requires AllTurnsOk(m) && Local(m, n, sid) && t != sid && t in n.sessions
    ensures TurnOk(n, t, n.sessions[t])
  {
    var s := m.sessions[t];
    assert TurnOk(m, t, s);
    forall a: nat
      ensures HostInFlight(m, t, s, a) <==> HostInFlight(n, t, s, a)
      ensures PeerInFlight(m, t, s, a) <==> PeerInFlight(n, t, s, a)
    {
      assert a in m.pending && IsHostPrompt(m.pending[a], t) ==> TurnPending(m.pending[a], t);
      assert a in n.pending && IsHostPrompt(n.pending[a], t) ==> TurnPending(n.pending[a], t);
      assert a in m.pending && m.pending[a] == PeerPending(t) ==> TurnPending(m.pending[a], t);
      assert a in n.pending && n.pending[a] == PeerPending(t) ==> TurnPending(n.pending[a], t);
    }
  }

  /** Frames appended after `m` in `n` respect the peer log. */
  ghost predicate NewPeersOk(m: State, n: State) {
    forall p, i :: |m.engine| <= p < |n.engine| && n.engine[p].PeerPrompt? && n.engine[p].claimedAt <= i < p ==>
      !TurnFrame(n.engine[i], n.engine[p].session)
  }

  lemma PeerLogGrows(m: State, n: State, sid: SessionId)
    requires PeerLogOk(m) && Local(m, n, sid) && NewPeersOk(m, n)
    ensures PeerLogOk(n)
  {
    forall p, i | 0 <= p < |n.engine| && n.engine[p].PeerPrompt? && n.engine[p].claimedAt <= i < p
      ensures !TurnFrame(n.engine[i], n.engine[p].session)
    {
      if p < |m.engine| { assert n.engine[p] == m.engine[p] && n.engine[i] == m.engine[i]; }
    }
  }

  /** It is enough to look at the one session a step touches. */
  lemma OneSession(m: State, n: State, sid: SessionId)
    requires Exclusive(m) && Local(m, n, sid) && ClaimsOk(n)
    requires sid in n.sessions ==> TurnOk(n, sid, n.sessions[sid])
    requires NewPeersOk(m, n)
    ensures Exclusive(n)
  {
    forall t | t in n.sessions ensures TurnOk(n, t, n.sessions[t]) {
      if t != sid { OthersKeepTurns(m, n, sid, t); }
    }
    PeerLogGrows(m, n, sid);
  }

  ghost predicate NoNewPeers(m: State, n: State) {
    && |m.engine| <= |n.engine|
    && forall p :: |m.engine| <= p < |n.engine| ==> !n.engine[p].PeerPrompt?
  }

  // -- promotion ------------------------------------------------------------------

  lemma SubmitTurn(m: State, sid: SessionId, r: Request)
    requires WellFormed(m) && sid in m.sessions && TurnOk(m, sid, m.sessions[sid])
    requires IsHostPrompt(HostPending(r), sid)
    requires !m.sessions[sid].claiming && m.sessions[sid].peerPrompt.None?
    ensures Local(m, Submit(m, sid, r), sid)
    ensures sid in Submit(m, sid, r).sessions
    ensures TurnOk(Submit(m, sid, r), sid, Submit(m, sid, r).sessions[sid])
    ensures NoNewPeers(m, Submit(m, sid, r))
  {
    if Admits(m) { SubmitAdmitted(m, sid, r); } else { SubmitRefused(m, sid, r); }
  }

  lemma SubmitAdmitted(m: State, sid: SessionId, r: Request)
    requires WellFormed(m) && sid in m.sessions && TurnOk(m, sid, m.sessions[sid])
    requires IsHostPrompt(HostPending(r), sid) && Admits(m)
    requires !m.sessions[sid].claiming && m.sessions[sid].peerPrompt.None?
    ensures
      var n := Submit(m, sid, r);
      Local(m, n, sid) && sid in n.sessions && TurnOk(n, sid, n.sessions[sid]) && NoNewPeers(m, n)
  {
    var n := Submit(m, sid, r);
    var a := NextId(m);
    var s := m.sessions[sid];
    assert a !in m.pending;
    assert SessionOk(m, sid, s);
    var t := n.sessions[sid];
    assert n.pending == m.pending[a := HostPending(r)];
    forall b ensures b in t.hostPrompts <==> HostInFlight(n, sid, t, b) {
      assert b in s.hostPrompts <==> HostInFlight(m, sid, s, b);
    }
    forall b: nat ensures t.peerPrompt == Some(b) <==> PeerInFlight(n, sid, t, b) {
      assert s.peerPrompt == Some(b) <==> PeerInFlight(m, sid, s, b);
    }
  }

  lemma SubmitRefused(m: State, sid: SessionId, r: Request)
    requires WellFormed(m) && sid in m.sessions && TurnOk(m, sid, m.sessions[sid]) && !Admits(m)
    ensures
      var n := Submit(m, sid, r);
      Local(m, n, sid) && sid in n.sessions && TurnOk(n, sid, n.sessions[sid]) && NoNewPeers(m, n)
  {
    var n := Submit(m, sid, r);
    var s := m.sessions[sid];
    assert NextId(m) !in m.pending;
    assert n.pending == m.pending && n.sessions == m.sessions;
    assert forall b :: HostInFlight(m, sid, s, b) <==> HostInFlight(n, sid, s, b);
    assert forall b: nat :: PeerInFlight(m, sid, s, b) <==> PeerInFlight(n, sid, s, b);
  }

  /** Only the parts of the state a session's turn status reads matter. */
  lemma TurnSame(m: State, n: State, sid: SessionId, s: Session, t: Session)
    requires TurnOk(m, sid, s)
    requires n.pending == m.pending && n.engine == m.engine && (sid in m.claims <==> sid in n.claims)
    requires (m.closed ==> n.closed) && (Spent(m, sid) ==> Spent(n, sid))
    requires t == s.(queued := t.queued, closing := t.closing, cancelClaim := t.cancelClaim)
    ensures TurnOk(n, sid, t)
  {
    assert forall b :: HostInFlight(m, sid, s, b) <==> HostInFlight(n, sid, t, b);
    assert forall b :: PeerInFlight(m, sid, s, b) <==> PeerInFlight(n, sid, t, b);
  }

  /** What one session's promotion leaves true. */
  ghost predicate Promoted(m: State, n: State, sid: SessionId) {
    && Local(m, n, sid)
    && sid in n.sessions
    && TurnOk(n, sid, n.sessions[sid])
    && NoNewPeers(m, n)
    && n.claims == m.claims && n.hand == m.hand
  }

  lemma PromoteOne(m: State, sid: SessionId)
    requires WellFormed(m) && sid in m.sessions && TurnOk(m, sid, m.sessions[sid])
    requires !m.sessions[sid].Busy() && m.sessions[sid].queued != []
    ensures
      var s := m.sessions[sid];
      var m1 := Put(m, sid, s.(queued := s.queued[1..]));
      var m2 := Submit(m1, sid, s.queued[0]);
      WellFormed(m2) && Promoted(m, m2, sid) && Known(m2, s.queued[0])
      && m2.sessions[sid].queued == s.queued[1..]
  {
    var s := m.sessions[sid];
    var r := s.queued[0];
    var rest := s.(queued := s.queued[1..]);
    assert SessionOk(m, sid, s);
    assert SessionOk(m, sid, rest);
    assert r in s.queued;
    WfPut(m, sid, rest);
    var m1 := Put(m, sid, rest);
    TurnSame(m, m1, sid, s, rest);
    assert Local(m, m1, sid);
    SubmitTurn(m1, sid, r);
    WfSubmit(m1, sid, r);
    LocalTrans(m, m1, Submit(m1, sid, r), sid);
  }

  lemma ToldTurn(m: State, n: State, sid: SessionId)
    requires sid in m.sessions && TurnOk(m, sid, m.sessions[sid]) && n == m.(host := n.host)
    ensures Promoted(m, n, sid)
  {
    TurnSame(m, n, sid, m.sessions[sid], n.sessions[sid]);
  }

  lemma PromotedThen(m: State, n: State, o: State, sid: SessionId)
    requires Promoted(m, n, sid) && Promoted(n, o, sid)
    ensures Promoted(m, o, sid)
  {
    LocalTrans(m, n, o, sid);
  }

  lemma {:induction false} DueTurn(m: State, sid: SessionId)
    requires WellFormed(m) && sid in m.sessions && TurnOk(m, sid, m.sessions[sid])
    ensures Promoted(m, Due(m, sid), sid)
    decreases |m.sessions[sid].queued|
  {
    var s := m.sessions[sid];
    if !s.Busy() && s.queued != [] {
      PromoteOne(m, sid);
      var m1 := Put(m, sid, s.(queued := s.queued[1..]));
      var m2 := Submit(m1, sid, s.queued[0]);
      if !Admits(m1) {
        var m3 := m2.(host := m2.host + [Answer(s.queued[0], Cancelled)]);
        WfTell(m2, Answer(s.queued[0], Cancelled));
        ToldTurn(m2, m3, sid);
        DueTurn(m3, sid);
        PromotedThen(m, m2, m3, sid);
        PromotedThen(m, m3, Due(m3, sid), sid);
      }
    } else {
      assert Local(m, m, sid);
    }
  }

  // -- steps --------------------------------------------------------------------

  /** A change that says nothing about any turn. */
  ghost predicate Neutral(m: State, n: State) {
    && n.sessions == m.sessions && n.claims == m.claims
    && (m.hand == Some(None) ==> n.hand == Some(None)) && (m.closed ==> n.closed)
    && |m.engine| <= |n.engine| && n.engine[..|m.engine|] == m.engine
    && (forall i, t :: |m.engine| <= i < |n.engine| ==> !TurnFrame(n.engine[i], t))
    && (forall a, t :: a in m.pending && TurnPending(m.pending[a], t) ==> a in n.pending && n.pending[a] == m.pending[a])
    && (forall a, t :: a in n.pending && TurnPending(n.pending[a], t) ==> a in m.pending && n.pending[a] == m.pending[a])
  }

  lemma NeutralKeeps(m: State, n: State)
    requires Exclusive(m) && Neutral(m, n)
    ensures Exclusive(n)
  {
    assert forall sid :: Local(m, n, sid);
    forall t | t in n.sessions ensures TurnOk(n, t, n.sessions[t]) {
      OthersKeepTurns(m, n, t + "x", t);
    }
    forall p | |m.engine| <= p < |n.engine| ensures !n.engine[p].PeerPrompt? {
      assert n.engine[p].PeerPrompt? ==> TurnFrame(n.engine[p], n.engine[p].session);
    }
    PeerLogGrows(m, n, "");
  }

  lemma TrackKeeps(m: State, sid: SessionId)
    requires Exclusive(m) && WellFormed(m)
    ensures Exclusive(Track(m, sid))
  {
    if sid !in m.sessions {
      var n := Track(m, sid);
      var s := n.sessions[sid];
      assert Local(m, n, sid);
      assert forall b :: !HostInFlight(n, sid, s, b) && !PeerInFlight(n, sid, s, b);
      assert TurnOk(n, sid, s);
      OneSession(m, n, sid);
    }
  }

  /** One record changes; what is pending, logged and claimed does not. */
  lemma PutKeeps(m: State, sid: SessionId, t: Session)
    requires Exclusive(m) && sid in m.sessions
    requires t == m.sessions[sid].(queued := t.queued, cancelClaim := t.cancelClaim)
    ensures Exclusive(Put(m, sid, t))
  {
    var n := Put(m, sid, t);
    assert TurnOk(m, sid, m.sessions[sid]);
    TurnSame(m, n, sid, m.sessions[sid], t);
    assert Local(m, n, sid);
    OneSession(m, n, sid);
  }

  lemma PromptKeeps(m: State, id: RpcId, sid: SessionId)
    requires Exclusive(m) && WellFormed(m)
    ensures Exclusive(HostPrompt(m, id, sid))
  {
    ArrivedKeeps(m, id, sid);
    PromptedKeeps(Track(Arrive(m, id), sid), sid, Request(|m.requests|, id, Prompt, Some(sid)));
  }

  lemma ArrivedKeeps(m: State, id: RpcId, sid: SessionId)
    requires Exclusive(m) && WellFormed(m)
    ensures Exclusive(Track(Arrive(m, id), sid)) && WellFormed(Track(Arrive(m, id), sid))
  {
    var m0 := Arrive(m, id);
    WfArrive(m, id);
    NeutralKeeps(m, m0);
    TrackKeeps(m0, sid);
    WfTrack(m0, sid);
  }

  lemma RefuseKeeps(m: State, r: Request)
    requires Exclusive(m)
    ensures Exclusive(Refuse(m, r))
  {
    NeutralKeeps(m, Refuse(m, r));
  }

  /** Whatever becomes of a prompt that arrived. */
  lemma PromptedKeeps(m: State, sid: SessionId, r: Request)
    requires Exclusive(m) && WellFormed(m) && sid in m.sessions && IsHostPrompt(HostPending(r), sid)
    ensures Exclusive(Refuse(m, r))
    ensures Exclusive(Put(m, sid, m.sessions[sid].(queued := m.sessions[sid].queued + [r])))
    ensures
      var s := m.sessions[sid];
      !s.closing && !s.claiming && s.peerPrompt.None? ==>
        Exclusive(Submit(m, sid, r)) && Exclusive(Refuse(Submit(m, sid, r), r))
  {
    var s := m.sessions[sid];
    RefuseKeeps(m, r);
    PutKeeps(m, sid, s.(queued := s.queued + [r]));
    if !s.closing && !s.claiming && s.peerPrompt.None? {
      SubmitKeeps(m, sid, r);
      RefuseKeeps(Submit(m, sid, r), r);
    }
  }

  lemma SubmitKeeps(m: State, sid: SessionId, r: Request)
    requires Exclusive(m) && WellFormed(m) && sid in m.sessions && IsHostPrompt(HostPending(r), sid)
    requires !m.sessions[sid].closing && !m.sessions[sid].claiming && m.sessions[sid].peerPrompt.None?
    ensures Exclusive(Submit(m, sid, r))
  {
    assert TurnOk(m, sid, m.sessions[sid]);
    SubmitTurn(m, sid, r);
    var n := Submit(m, sid, r);
    OneSession(m, n, sid);
  }

  /** Issuing an adapter id for a close changes no turn. */
  lemma IssueClose(m: State, id: RpcId, sid: SessionId, s: Session)
    requires WellFormed(m) && sid in m.sessions && TurnOk(m, sid, m.sessions[sid])
    requires s == m.sessions[sid].(closing := true, deferred := s.deferred)
    requires s.deferred == m.sessions[sid].deferred || s.claiming
    ensures
      var r := Request(|m.requests|, id, Close, Some(sid));
      var n := Put(Allocate(Arrive(m, id), HostPending(r)), sid, s);
      Local(m, n, sid) && TurnOk(n, sid, s) && n.claims == m.claims && n.hand == m.hand
  {
    var r := Request(|m.requests|, id, Close, Some(sid));
    var n := Put(Allocate(Arrive(m, id), HostPending(r)), sid, s);
    assert NextId(m) !in m.pending;
    assert forall b :: HostInFlight(m, sid, m.sessions[sid], b) <==> HostInFlight(n, sid, s, b);
    assert forall b: nat :: PeerInFlight(m, sid, m.sessions[sid], b) <==> PeerInFlight(n, sid, s, b);
  }

  /** Giving the engine a close outside a claim. */
  lemma OfferClose(m: State, sid: SessionId, a: nat, r: Request)
    requires sid in m.sessions && TurnOk(m, sid, m.sessions[sid]) && !m.sessions[sid].claiming
    requires a in m.pending && m.pending[a] == HostPending(r) && IsClose(m.pending[a], sid)
    ensures
      var n := ToEngine(m, HostRequest(a, r));
      Local(m, n, sid) && TurnOk(n, sid, n.sessions[sid]) && NoNewPeers(m, n)
  {
    var s := m.sessions[sid];
    var n := ToEngine(m, HostRequest(a, r));
    assert forall b :: HostInFlight(m, sid, s, b) <==> HostInFlight(n, sid, s, b);
    assert forall b: nat :: PeerInFlight(m, sid, s, b) <==> PeerInFlight(n, sid, s, b);
  }

  /** Dropping a close the engine did not admit. */
  lemma DropClose(m: State, sid: SessionId, a: nat, r: Request)
    requires sid in m.sessions && TurnOk(m, sid, m.sessions[sid])
    requires a in m.pending && m.pending[a] == HostPending(r) && IsClose(m.pending[a], sid)
    ensures
      var n := Refuse(Forget(m, a), r);
      Local(m, n, sid) && TurnOk(n, sid, n.sessions[sid]) && n.engine == m.engine
  {
    var s := m.sessions[sid];
    var n := Refuse(Forget(m, a), r);
    assert forall b :: HostInFlight(m, sid, s, b) <==> HostInFlight(n, sid, s, b);
    assert forall b: nat :: PeerInFlight(m, sid, s, b) <==> PeerInFlight(n, sid, s, b);
  }

  lemma CloseDuringClaim(m: State, id: RpcId, sid: SessionId)
    requires Exclusive(m) && WellFormed(m) && sid in m.sessions && m.sessions[sid].claiming
    ensures Exclusive(HostCall(m, id, Close, Some(sid)))
  {
    var s := m.sessions[sid];
    var r := Request(|m.requests|, id, Close, Some(sid));
    var held := s.(closing := true, deferred := s.deferred + [HostRequest(NextId(m), r)]);
    assert TurnOk(m, sid, s);
    IssueClose(m, id, sid, held);
    IssuedKeeps(m, Put(Allocate(Arrive(m, id), HostPending(r)), sid, held), sid);
    HeldClose(m, id, sid);
  }

  lemma HeldClose(m: State, id: RpcId, sid: SessionId)
    requires sid in m.sessions && m.sessions[sid].claiming
    ensures
      var s := m.sessions[sid];
      var r := Request(|m.requests|, id, Close, Some(sid));
      HostCall(m, id, Close, Some(sid))
      == Put(Allocate(Arrive(m, id), HostPending(r)), sid,
             s.(closing := true, deferred := s.deferred + [HostRequest(NextId(m), r)]))
  {
    var s := m.sessions[sid];
    var r := Request(|m.requests|, id, Close, Some(sid));
    var m1 := Allocate(Arrive(m, id), HostPending(r));
    var held := s.(closing := true, deferred := s.deferred + [HostRequest(NextId(m), r)]);
    assert Put(Put(m1, sid, s.(closing := true)), sid, held) == Put(m1, sid, held);
  }

  lemma IssuedKeeps(m: State, n: State, sid: SessionId)
    requires Exclusive(m) && Local(m, n, sid) && n.engine == m.engine && n.claims == m.claims && n.hand == m.hand
    requires n.closed == m.closed && sid in m.sessions && sid in n.sessions && TurnOk(n, sid, n.sessions[sid])
    ensures Exclusive(n)
  {
    OneSession(m, n, sid);
  }

  lemma CloseOutsideClaim(m: State, id: RpcId, sid: SessionId)
    requires Exclusive(m) && WellFormed(m) && sid in m.sessions && !m.sessions[sid].claiming
    ensures Exclusive(HostCall(m, id, Close, Some(sid)))
  {
    var n := HostCall(m, id, Close, Some(sid));
    CloseIsLocal(m, id, sid);
    OneSession(m, n, sid);
  }

  lemma CloseIsLocal(m: State, id: RpcId, sid: SessionId)
    requires Exclusive(m) && WellFormed(m) && sid in m.sessions && !m.sessions[sid].claiming
    ensures
      var n := HostCall(m, id, Close, Some(sid));
      && Local(m, n, sid) && ClaimsOk(n) && sid in n.sessions && TurnOk(n, sid, n.sessions[sid])
      && NewPeersOk(m, n)
  {
    var a := NextId(m);
    var s := m.sessions[sid].(closing := true);
    var r := Request(|m.requests|, id, Close, Some(sid));
    var n := HostCall(m, id, Close, Some(sid));
    assert TurnOk(m, sid, m.sessions[sid]);
    IssueClose(m, id, sid, s);
    var m2 := Put(Allocate(Arrive(m, id), HostPending(r)), sid, s);
    OfferClose(m2, sid, a, r);
    var m3 := ToEngine(m2, HostRequest(a, r));
    LocalTrans(m, m2, m3, sid);
    DropClose(m3, sid, a, r);
    LocalTrans(m, m3, Refuse(Forget(m3, a), r), sid);
  }

  lemma CloseUntracked(m: State, id: RpcId, sid: SessionId)
    requires Exclusive(m) && WellFormed(m) && sid !in m.sessions
    ensures Exclusive(HostCall(m, id, Close, Some(sid)))
  {
    var n := HostCall(m, id, Close, Some(sid));
    assert NextId(m) !in m.pending;
    assert Local(m, n, sid);
    OneSession(m, n, sid);
  }

  lemma CallKeeps(m: State, id: RpcId, verb: Verb, sid: Option<SessionId>)
    requires Exclusive(m) && WellFormed(m) && !(verb.Prompt? && sid.Some?)
    ensures Exclusive(HostCall(m, id, verb, sid))
  {
    if verb.Close? && sid.Some? {
      if sid.value !in m.sessions {
        CloseUntracked(m, id, sid.value);
      } else if m.sessions[sid.value].claiming {
        CloseDuringClaim(m, id, sid.value);
      } else {
        CloseOutsideClaim(m, id, sid.value);
      }
    } else {
      OtherCallKeeps(m, id, verb, sid);
    }
  }

  lemma OtherCallKeeps(m: State, id: RpcId, verb: Verb, sid: Option<SessionId>)
    requires Exclusive(m) && WellFormed(m) && !(verb.Prompt? && sid.Some?) && !(verb.Close? && sid.Some?)
    ensures Exclusive(HostCall(m, id, verb, sid))
  {
    assert NextId(m) !in m.pending;
    NeutralKeeps(m, HostCall(m, id, verb, sid));
  }

  lemma CancelKeeps(m: State, sid: SessionId)
    requires Exclusive(m)
    ensures Exclusive(HostCancel(m, sid))
  {
    if sid !in m.sessions {
      CancelFrameKeeps(m, sid);
    } else {
      var s := m.sessions[sid];
      var m1 := m.(hostOwes := m.hostOwes + CancelAll(s.queued));
      NeutralKeeps(m, m1);
      assert TurnOk(m, sid, s);
      if s.claiming {
        PutKeeps(m1, sid, s.(queued := [], cancelClaim := true));
      } else {
        PutKeeps(m1, sid, s.(queued := []));
        CancelFrameKeeps(Put(m1, sid, s.(queued := [])), sid);
      }
    }
  }

  /** A cancel may be given to the engine at any time outside a claim. */
  lemma CancelFrameKeeps(m: State, sid: SessionId)
    requires Exclusive(m) && (sid in m.sessions ==> !m.sessions[sid].claiming)
    ensures Exclusive(ToEngine(m, CancelTurn(sid)))
  {
    var n := ToEngine(m, CancelTurn(sid));
    assert Local(m, n, sid);
    if sid in m.sessions {
      var s := m.sessions[sid];
      assert TurnOk(m, sid, s);
      assert forall b :: HostInFlight(m, sid, s, b) <==> HostInFlight(n, sid, s, b);
      assert forall b :: PeerInFlight(m, sid, s, b) <==> PeerInFlight(n, sid, s, b);
    }
    OneSession(m, n, sid);
  }

  /** A one-session change followed by promotion. */
  lemma ThenDueKeeps(m: State, x: State, sid: SessionId)
    requires Exclusive(m) && Local(m, x, sid) && NewPeersOk(m, x) && ClaimsOk(x)
    requires WellFormed(x) && sid in x.sessions && TurnOk(x, sid, x.sessions[sid])
    ensures Exclusive(Due(x, sid))
  {
    OneSession(m, x, sid);
    DueTurn(x, sid);
    OneSession(x, Due(x, sid), sid);
  }

  /** The record after adapter id `a` of one of its prompts was answered. */
  ghost function Turned(s: Session, a: nat): Session {
    s.(hostPrompts := s.hostPrompts - {a}, peerPrompt := if s.peerPrompt == Some(a) then None else s.peerPrompt)
  }

  lemma ForgetPrompt(m: State, n: State, sid: SessionId, a: nat)
    requires Exclusive(m) && a in m.pending
    requires IsHostPrompt(m.pending[a], sid) || m.pending[a] == PeerPending(sid)
    requires n == Forget(m, a).(engineOwes := n.engineOwes)
    ensures Local(m, n, sid)
    ensures sid in m.sessions ==> Local(m, Put(n, sid, Turned(m.sessions[sid], a)), sid)
  {
  }

  lemma ForgetPromptTurn(m: State, n: State, sid: SessionId, a: nat)
    requires sid in m.sessions && TurnOk(m, sid, m.sessions[sid]) && a in m.pending
    requires n == Forget(m, a).(engineOwes := n.engineOwes)
    ensures TurnOk(Put(n, sid, Turned(m.sessions[sid], a)), sid, Turned(m.sessions[sid], a))
  {
    var s := m.sessions[sid];
    var t := Turned(s, a);
    var x := Put(n, sid, t);
    forall b: nat
      ensures b in t.hostPrompts <==> HostInFlight(x, sid, t, b)
      ensures t.peerPrompt == Some(b) <==> PeerInFlight(x, sid, t, b)
    {
      assert b in s.hostPrompts <==> HostInFlight(m, sid, s, b);
      assert s.peerPrompt == Some(b) <==> PeerInFlight(m, sid, s, b);
    }
  }

  lemma PromptAnswerKeeps(m: State, n: State, sid: SessionId, a: nat)
    requires Exclusive(m) && WellFormed(n) && a in m.pending
    requires IsHostPrompt(m.pending[a], sid) || m.pending[a] == PeerPending(sid)
    requires n == Forget(m, a).(engineOwes := n.engineOwes)
    ensures sid !in m.sessions ==> Exclusive(n)
    ensures sid in m.sessions ==>
      Exclusive(Due(Put(n, sid, Turned(m.sessions[sid], a)), sid))
  {
    ForgetPrompt(m, n, sid, a);
    if sid in m.sessions {
      var s := m.sessions[sid];
      var t := Turned(s, a);
      assert TurnOk(m, sid, s);
      ForgetPromptTurn(m, n, sid, a);
      assert SessionOk(n, sid, s);
      assert SessionOk(n, sid, t);
      WfPut(n, sid, t);
      ThenDueKeeps(m, Put(n, sid, t), sid);
    } else {
      OneSession(m, n, sid);
    }
  }

  lemma ForgetClose(m: State, n: State, sid: SessionId, a: nat)
    requires Exclusive(m) && a in m.pending && IsClose(m.pending[a], sid) && sid in m.sessions
    requires n == Forget(m, a).(engineOwes := n.engineOwes)
    ensures Local(m, n, sid)
    ensures TurnOk(Put(n, sid, m.sessions[sid].(closing := false)), sid, m.sessions[sid].(closing := false))
  {
    var s := m.sessions[sid];
    assert TurnOk(m, sid, s);
    var t := s.(closing := false);
    var x := Put(n, sid, t);
    assert forall b :: HostInFlight(m, sid, s, b) <==> HostInFlight(x, sid, t, b);
    assert forall b: nat :: PeerInFlight(m, sid, s, b) <==> PeerInFlight(x, sid, t, b);
  }

  lemma CloseFailedKeeps(m: State, n: State, sid: SessionId, a: nat)
    requires Exclusive(m) && WellFormed(n) && a in m.pending && IsClose(m.pending[a], sid) && sid in m.sessions
    requires n == Forget(m, a).(engineOwes := n.engineOwes)
    ensures Exclusive(Due(Put(n, sid, m.sessions[sid].(closing := false)), sid))
  {
    ForgetClose(m, n, sid, a);
    var s := m.sessions[sid];
    var t := s.(closing := false);
    var x := Put(n, sid, t);
    assert SessionOk(n, sid, s);
    assert SessionOk(n, sid, t);
    WfPut(n, sid, t);
    assert Local(m, x, sid);
    ThenDueKeeps(m, x, sid);
  }

  /** Deleting a record is harmless unless a claim on it can still submit. */
  lemma DeletedKeeps(m: State, n: State, sid: SessionId, a: nat)
    requires Exclusive(m) && a in m.pending && IsClose(m.pending[a], sid) && sid in m.sessions
    requires !m.sessions[sid].claiming || m.closed || Spent(m, sid)
    requires n == Forget(m, a).(engineOwes := n.engineOwes)
    ensures Exclusive(n.(sessions := m.sessions - {sid},
                         engineOwes := n.engineOwes + CancelAll(m.sessions[sid].queued)))
  {
    ForgetClose(m, n, sid, a);
    assert TurnOk(m, sid, m.sessions[sid]);
    var d := n.(sessions := m.sessions - {sid}, engineOwes := n.engineOwes + CancelAll(m.sessions[sid].queued));
    assert Local(m, d, sid);
    OneSession(m, d, sid);
  }

  lemma UntrackedAnswerKeeps(m: State, n: State, sid: SessionId, a: nat)
    requires Exclusive(m) && a in m.pending && IsClose(m.pending[a], sid) && sid !in m.sessions
    requires n == Forget(m, a).(engineOwes := n.engineOwes)
    ensures Exclusive(n)
  {
    assert Local(m, n, sid);
    OneSession(m, n, sid);
  }

  /** The state in which an answer to adapter id `a` is settled. */
  ghost function Answered(m: State, a: nat): State
    requires a in m.pending
  {
    var m1 := Forget(m, a);
    if m.pending[a].HostPending?
    then m1.(engineOwes := m1.engineOwes + [Answer(m.pending[a].request, EngineAnswer(a))])
    else m1
  }

  lemma AnsweredWf(m: State, a: nat)
    requires WellFormed(m) && a in m.pending
    ensures WellFormed(Answered(m, a))
  {
    WfForget(m, a);
    if m.pending[a].HostPending? {
      assert Known(m, m.issued[a - 1].request);
      WfTell(Forget(m, a), Answer(m.pending[a].request, EngineAnswer(a)));
    }
  }

  lemma AnswerKeeps(m: State, a: nat, ok: bool, created: Option<SessionId>)
    requires Exclusive(m) && WellFormed(m) && !Harms(m, EngineAnswers(a, ok, created))
    ensures Exclusive(EngineReply(m, a, ok, created))
  {
    if a in m.pending {
      var p := m.pending[a];
      var n := Answered(m, a);
      AnsweredWf(m, a);
      var verb := if p.HostPending? then p.request.verb else Prompt;
      var sid := if p.HostPending? then p.request.session else Some(p.session);
      if sid.Some? && verb.Prompt? {
        PromptAnswerKeeps(m, n, sid.value, a);
      } else if sid.Some? && verb.Close? {
        if sid.value !in m.sessions {
          UntrackedAnswerKeeps(m, n, sid.value, a);
        } else if ok {
          DeletedKeeps(m, n, sid.value, a);
        } else {
          CloseFailedKeeps(m, n, sid.value, a);
        }
      } else {
        OtherAnswerKeeps(m, n, a, created, sid);
      }
    }
  }

  lemma OtherAnswerKeeps(m: State, n: State, a: nat, created: Option<SessionId>, sid: Option<SessionId>)
    requires Exclusive(m) && WellFormed(n) && a in m.pending && n == Answered(m, a)
    requires forall t :: !TurnPending(m.pending[a], t)
    ensures Exclusive(n)
    ensures created.Some? ==> Exclusive(Track(n, created.value))
    ensures sid.Some? ==> Exclusive(Track(n, sid.value))
  {
    NeutralKeeps(m, n);
    if created.Some? { TrackKeeps(n, created.value); }
    if sid.Some? { TrackKeeps(n, sid.value); }
  }

  lemma ClaimKeeps(m: State, order: seq<SessionId>)
    requires Exclusive(m) && Enabled(m, DeliveryClaims(order))
    ensures Exclusive(Claim(m, order))
  {
    var n := Claim(m, order);
    forall t | t in n.sessions ensures TurnOk(n, t, n.sessions[t]) {
      var s := m.sessions[t];
      assert TurnOk(m, t, s);
      assert forall b :: HostInFlight(m, t, s, b) <==> HostInFlight(n, t, n.sessions[t], b);
      assert forall b: nat :: PeerInFlight(m, t, s, b) <==> PeerInFlight(n, t, n.sessions[t], b);
    }
  }

  // -- finishing a claim --------------------------------------------------------

  /** What submitting the peer prompt leaves true of its session. */
  ghost predicate PeerSubmitted(m: State, n: State, sid: SessionId)
    requires sid in m.sessions
  {
    && Local(m, n, sid) && sid in n.sessions && TurnCore(n, sid, n.sessions[sid])
    && NewPeersOk(m, n) && n.claims == m.claims && n.hand == m.hand
    && n.sessions[sid] == m.sessions[sid].(peerPrompt := n.sessions[sid].peerPrompt)
  }

  lemma PeerAdmitted(m: State, sid: SessionId, event: nat)
    requires WellFormed(m) && sid in m.sessions && TurnCore(m, sid, m.sessions[sid]) && Admits(m)
    requires m.sessions[sid].hostPrompts == {} && m.sessions[sid].peerPrompt.None? && !m.sessions[sid].claiming
    requires Quiet(m, sid, m.sessions[sid].claimedAt)
    ensures
      var s := m.sessions[sid];
      var a := NextId(m);
      PeerSubmitted(m, Put(ToEngine(Allocate(m, PeerPending(sid)), PeerPrompt(a, sid, event, s.claimedAt)),
                           sid, s.(peerPrompt := Some(a))), sid)
  {
    var s := m.sessions[sid];
    var a := NextId(m);
    var f := PeerPrompt(a, sid, event, s.claimedAt);
    var t := s.(peerPrompt := Some(a));
    var n := Put(ToEngine(Allocate(m, PeerPending(sid)), f), sid, t);
    assert a !in m.pending;
    assert SessionOk(m, sid, s);
    assert n.engine == m.engine + [f];
    forall b: nat
      ensures b in t.hostPrompts <==> HostInFlight(n, sid, t, b)
      ensures t.peerPrompt == Some(b) <==> PeerInFlight(n, sid, t, b)
    {
      assert b in s.hostPrompts <==> HostInFlight(m, sid, s, b);
      assert s.peerPrompt == Some(b) <==> PeerInFlight(m, sid, s, b);
    }
  }

  lemma PeerCancelled(m: State, n: State, sid: SessionId)
    requires sid in m.sessions && PeerSubmitted(m, n, sid) && !n.sessions[sid].claiming
    ensures PeerSubmitted(m, ToEngine(n, CancelTurn(sid)), sid)
  {
    var o := ToEngine(n, CancelTurn(sid));
    var s := n.sessions[sid];
    assert forall b :: HostInFlight(n, sid, s, b) <==> HostInFlight(o, sid, s, b);
    assert forall b: nat :: PeerInFlight(n, sid, s, b) <==> PeerInFlight(o, sid, s, b);
    assert Local(n, o, sid);
    LocalTrans(m, n, o, sid);
  }

  lemma PeerRefused(m: State, sid: SessionId, event: nat)
    requires WellFormed(m) && sid in m.sessions && TurnCore(m, sid, m.sessions[sid]) && !Admits(m)
    requires m.sessions[sid].peerPrompt.None? && !m.sessions[sid].claiming
    ensures PeerSubmitted(m, SubmitPeer(m, sid, event), sid)
  {
    var n := SubmitPeer(m, sid, event);
    var s := m.sessions[sid];
    assert NextId(m) !in m.pending;
    assert n.pending == m.pending && n.engine == m.engine;
    assert forall b :: HostInFlight(m, sid, s, b) <==> HostInFlight(n, sid, s, b);
    assert forall b: nat :: PeerInFlight(m, sid, s, b) <==> PeerInFlight(n, sid, s, b);
  }

  lemma SubmitPeerTurn(m: State, sid: SessionId, event: nat)
    requires WellFormed(m) && sid in m.sessions && TurnCore(m, sid, m.sessions[sid])
    requires m.sessions[sid].hostPrompts == {} && m.sessions[sid].peerPrompt.None? && !m.sessions[sid].claiming
    requires Quiet(m, sid, m.sessions[sid].claimedAt)
    ensures PeerSubmitted(m, SubmitPeer(m, sid, event), sid)
  {
    if Admits(m) {
      PeerAdmitted(m, sid, event);
      var s := m.sessions[sid];
      var a := NextId(m);
      var m1 := Allocate(m, PeerPending(sid));
      var m2 := ToEngine(m1, PeerPrompt(a, sid, event, s.claimedAt));
      PeerCancelled(m, Put(m2, sid, s.(peerPrompt := Some(a))), sid);
    } else {
      PeerRefused(m, sid, event);
    }
  }

  lemma {:induction false} FlushTurn(m: State, sid: SessionId, frames: seq<EngineFrame>)
    requires sid in m.sessions && TurnOk(m, sid, m.sessions[sid]) && !m.sessions[sid].claiming
    requires forall f :: f in frames ==> f.HostRequest? && f.request.session == Some(sid)
    ensures
      var n := Flush(m, frames);
      Local(m, n, sid) && TurnOk(n, sid, n.sessions[sid]) && NoNewPeers(m, n)
    decreases |frames|
  {
    if frames != [] {
      var x := ToEngine(m, frames[0]);
      var s := m.sessions[sid];
      assert frames[0] in frames;
      assert forall b :: HostInFlight(m, sid, s, b) <==> HostInFlight(x, sid, s, b);
      assert forall b: nat :: PeerInFlight(m, sid, s, b) <==> PeerInFlight(x, sid, s, b);
      assert Local(m, x, sid);
      FlushTurn(x, sid, frames[1..]);
      LocalTrans(m, x, Flush(x, frames[1..]), sid);
    }
  }

  /** The claim's own submission, in the state where `sid` is no longer claimed. */
  lemma ReleaseTurn(m: State, sid: SessionId)
    requires Exclusive(m) && WellFormed(m) && m.claims != [] && m.claims[0] == sid && sid in m.sessions && m.hand.Some?
    ensures
      var n := Release(m.(claims := m.claims[1..], hand := None), sid, m.hand.value);
      && Local(m, n, sid) && sid in n.sessions && TurnCore(n, sid, n.sessions[sid])
      && NewPeersOk(m, n) && ClaimsOk(n) && !n.sessions[sid].claiming
      && n.sessions[sid].deferred == m.sessions[sid].deferred
  {
    Unclaimed(m, sid);
    assert sid in m.claims && TurnOk(m, sid, m.sessions[sid]);
    var x := Put(m.(claims := m.claims[1..], hand := None), sid, m.sessions[sid].(claiming := false));
    if m.hand.value.Some? {
      var event := m.hand.value.value;
      if m.sessions[sid].claiming { SubmitPeerTurn(x, sid, event); } else { PeerRefused(x, sid, event); }
      LocalTrans(m, x, SubmitPeer(x, sid, event), sid);
    }
  }

  /** Taking the claim off a session changes nothing else about its turns. */
  lemma Unclaimed(m: State, sid: SessionId)
    requires Exclusive(m) && WellFormed(m) && m.claims != [] && m.claims[0] == sid && sid in m.sessions
    ensures
      var t := m.sessions[sid].(claiming := false);
      var x := Put(m.(claims := m.claims[1..], hand := None), sid, t);
      WellFormed(x) && Local(m, x, sid) && TurnCore(x, sid, t) && ClaimsOk(x) && sid !in x.claims
  {
    var s := m.sessions[sid];
    assert TurnOk(m, sid, s);
    var m0 := m.(claims := m.claims[1..], hand := None);
    WfClaims(m, m0);
    var t := s.(claiming := false);
    var x := Put(m0, sid, t);
    assert SessionOk(m0, sid, s);
    assert SessionOk(m0, sid, t);
    WfPut(m0, sid, t);
    PopsClaim(m, x, sid);
    assert forall b :: HostInFlight(m, sid, s, b) <==> HostInFlight(x, sid, t, b);
    assert forall b: nat :: PeerInFlight(m, sid, s, b) <==> PeerInFlight(x, sid, t, b);
  }

  /** Ending the claim at the head touches no other session. */
  lemma PopsClaim(m: State, x: State, sid: SessionId)
    requires ClaimsOk(m) && m.claims != [] && m.claims[0] == sid
    requires x == m.(claims := m.claims[1..], hand := None, sessions := x.sessions)
    requires x.sessions == m.sessions || (sid in x.sessions && x.sessions == m.sessions[sid := x.sessions[sid]])
    ensures Local(m, x, sid) && ClaimsOk(x) && sid !in x.claims
  {
    assert m.claims == [sid] + m.claims[1..];
    forall u | u in x.claims ensures u != sid && (u in x.sessions || x.closed) { assert u in m.claims; }
  }

  lemma FinishKeeps(m: State)
    requires Exclusive(m) && WellFormed(m) && m.claims != [] && m.hand.Some?
    ensures Exclusive(Finish(m))
  {
    var sid := m.claims[0];
    var m0 := m.(claims := m.claims[1..], hand := None);
    if sid !in m.sessions {
      PopsClaim(m, m0, sid);
      OneSession(m, m0, sid);
    } else {
      ReleaseTurn(m, sid);
      WfClaims(m, m0);
      WfRelease(m0, sid, m.hand.value);
      var m1 := Release(m0, sid, m.hand.value);
      WfSettled(m1, sid);
      SettleClaim(m, m1, sid);
      var s := m1.sessions[sid];
      ThenDueKeeps(m, Flush(Put(m1, sid, s.(cancelClaim := false, deferred := [])), s.deferred), sid);
    }
  }

  /** Clearing what the claim left on the record. */
  lemma ClearClaim(m1: State, sid: SessionId)
    requires sid in m1.sessions && TurnCore(m1, sid, m1.sessions[sid]) && !m1.sessions[sid].claiming
    ensures
      var t := m1.sessions[sid].(cancelClaim := false, deferred := []);
      Local(m1, Put(m1, sid, t), sid) && TurnOk(Put(m1, sid, t), sid, t)
  {
    var s := m1.sessions[sid];
    var t := s.(cancelClaim := false, deferred := []);
    var m2 := Put(m1, sid, t);
    assert forall b :: HostInFlight(m1, sid, s, b) <==> HostInFlight(m2, sid, t, b);
    assert forall b: nat :: PeerInFlight(m1, sid, s, b) <==> PeerInFlight(m2, sid, t, b);
  }

  /** Clearing the claim and flushing what it deferred. */
  lemma SettleClaim(m: State, m1: State, sid: SessionId)
    requires Local(m, m1, sid) && NewPeersOk(m, m1) && ClaimsOk(m1) && WellFormed(m1)
    requires sid in m1.sessions && TurnCore(m1, sid, m1.sessions[sid]) && !m1.sessions[sid].claiming
    ensures
      var s := m1.sessions[sid];
      var n := Flush(Put(m1, sid, s.(cancelClaim := false, deferred := [])), s.deferred);
      && Local(m, n, sid) && NewPeersOk(m, n) && ClaimsOk(n)
      && sid in n.sessions && TurnOk(n, sid, n.sessions[sid])
  {
    var s := m1.sessions[sid];
    assert SessionOk(m1, sid, s);
    var m2 := Put(m1, sid, s.(cancelClaim := false, deferred := []));
    ClearClaim(m1, sid);
    LocalTrans(m, m1, m2, sid);
    FlushTurn(m2, sid, s.deferred);
    var m3 := Flush(m2, s.deferred);
    LocalTrans(m, m2, m3, sid);
    NewPeersThen(m, m2, m3);
  }

  lemma NewPeersThen(m: State, n: State, o: State)
    requires NewPeersOk(m, n) && NoNewPeers(n, o) && |m.engine| <= |n.engine|
    requires forall i :: 0 <= i < |n.engine| ==> o.engine[i] == n.engine[i]
    ensures NewPeersOk(m, o)
  {
  }

  lemma ExclusiveStep(m: State, e: Step)
    requires Exclusive(m) && WellFormed(m) && Enabled(m, e) && !Harms(m, e)
    ensures Exclusive(Apply(m, e))
  {
    match e
    case PromptArrives(id, sid) => PromptKeeps(m, id, sid);
    case CallArrives(id, verb, sid) => CallKeeps(m, id, verb, sid);
    case CancelArrives(sid) => CancelKeeps(m, sid);
    case EngineAnswers(a, ok, created) => AnswerKeeps(m, a, ok, created);
    case DeliveryClaims(order) => ClaimKeeps(m, order);
    case DeliveryFinishes => FinishKeeps(m);
    case _ => QuietStep(m, e);
  }

  /** Steps that begin, end and claim no turn. */
  lemma QuietStep(m: State, e: Step)
    requires Exclusive(m) && Enabled(m, e)
    requires e.HostRelay? || e.HostWrites? || e.EngineRelay? || e.EngineWrites? || e.DeliveryTakes?
          || e.RoomChanges? || e.InputCloses?
    ensures Exclusive(Apply(m, e))
  {
    NeutralKeeps(m, Apply(m, e));
  }

  // -- whole runs -----------------------------------------------------------------

  /** A run in which no claimed record that could still submit is deleted. */
  ghost predicate UnharmedRun(steps: seq<Step>, states: seq<State>) {
    Run(steps, states) && forall i :: 0 <= i < |steps| ==> !Harms(states[i], steps[i])
  }

  lemma {:induction false} StaysExclusive(steps: seq<Step>, states: seq<State>, k: nat)
    requires UnharmedRun(steps, states) && k <= |steps|
    ensures Exclusive(states[k])
  {
    if k > 0 {
      StaysExclusive(steps, states, k - 1);
      StaysWellFormed(steps, states, k - 1);
      assert Stepped(states[k - 1], steps[k - 1], states[k]);
      ExclusiveStep(states[k - 1], steps[k - 1]);
    }
  }

  /** While a peer prompt is claimed or in flight, no host prompt of that session
      record is outstanding, and at most one peer prompt is. */
  lemma PeerTurnExcludesHostTurns(steps: seq<Step>, states: seq<State>, k: nat, sid: SessionId, a: nat, b: nat)
    requires UnharmedRun(steps, states) && k <= |steps| && sid in states[k].sessions
    requires states[k].sessions[sid].claiming || PeerInFlight(states[k], sid, states[k].sessions[sid], b)
    ensures !HostInFlight(states[k], sid, states[k].sessions[sid], a)
    ensures PeerInFlight(states[k], sid, states[k].sessions[sid], a) ==>
              !states[k].sessions[sid].claiming && a == b
  {
    StaysExclusive(steps, states, k);
    assert TurnOk(states[k], sid, states[k].sessions[sid]);
  }

  /** Between the moment a session was claimed and the peer prompt the claim
      submitted, the engine was given no prompt, cancel or close of that
      session; what arrived meanwhile comes after the prompt. */
  lemma CancelAndCloseFollowThePeerPrompt(steps: seq<Step>, states: seq<State>, k: nat, p: nat, i: nat)
    requires UnharmedRun(steps, states) && k <= |steps|
    requires p < |states[k].engine| && states[k].engine[p].PeerPrompt?
    requires states[k].engine[p].claimedAt <= i < p
    ensures !TurnFrame(states[k].engine[i], states[k].engine[p].session)
  {
    StaysExclusive(steps, states, k);
  }
}
