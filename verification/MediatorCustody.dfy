/**
 * Linear custody of host requests in every interleaving of the mediator: each
 * request is in exactly one place, answered at most once and with its own id,
 * and no reply to a peer prompt reaches the host.
 */
module MediatorCustody {
  import opened Collections
  import opened MediatorModel

  // -- what the identifiers in a state refer to -----------------------------

  ghost predicate Known(m: State, r: Request) {
    r.serial < |m.requests| && m.requests[r.serial] == r.id
  }

  ghost predicate IssuedFor(m: State, a: nat, p: Pending) {
    1 <= a <= |m.issued| && m.issued[a - 1] == p
  }

  ghost predicate FrameOk(m: State, f: EngineFrame) {
    match f
    case HostRequest(a, r) => IssuedFor(m, a, HostPending(r))
    case PeerPrompt(a, sid, _, _) => IssuedFor(m, a, PeerPending(sid))
    case _ => true
  }

  /** A reply names a request and carries that request's own id; if the engine
      produced it, the engine answered the adapter id issued for that request. */
  ghost predicate ReplyOk(m: State, f: HostFrame) {
    f.Reply? ==>
      && f.serial < |m.requests|
      && m.requests[f.serial] == f.id
      && (f.cause.EngineAnswer? ==>
            && 1 <= f.cause.adapter <= |m.issued|
            && m.issued[f.cause.adapter - 1].HostPending?
            && m.issued[f.cause.adapter - 1].request.serial == f.serial)
  }

  ghost predicate SessionOk(m: State, sid: SessionId, s: Session) {
    && s.since <= |m.issued|
    && (forall r :: r in s.queued ==> Known(m, r) && r.verb.Prompt? && r.session == Some(sid))
    && (forall f :: f in s.deferred ==>
          FrameOk(m, f) && f.HostRequest? && f.request.verb.Close? && f.request.session == Some(sid))
  }

  ghost predicate WellFormed(m: State) {
    && (forall a :: a in m.pending ==> IssuedFor(m, a, m.pending[a]))
    && (forall k :: 0 <= k < |m.issued| && m.issued[k].HostPending? ==> Known(m, m.issued[k].request))
    && (forall sid :: sid in m.sessions ==> SessionOk(m, sid, m.sessions[sid]))
    && (forall k :: 0 <= k < |m.engine| ==> FrameOk(m, m.engine[k]))
    && (forall k :: 0 <= k < |m.host| ==> ReplyOk(m, m.host[k]))
    && (forall k :: 0 <= k < |m.hostOwes| ==> ReplyOk(m, m.hostOwes[k]))
    && (forall k :: 0 <= k < |m.engineOwes| ==> ReplyOk(m, m.engineOwes[k]))
  }

  lemma WfPut(m: State, sid: SessionId, s: Session)
    requires WellFormed(m) && SessionOk(m, sid, s)
    ensures WellFormed(Put(m, sid, s))
  {
    var n := Put(m, sid, s);
    forall t | t in n.sessions ensures SessionOk(n, t, n.sessions[t]) {
      assert SessionOk(m, t, n.sessions[t]);
    }
  }

  lemma WfTrack(m: State, sid: SessionId)
    requires WellFormed(m)
    ensures WellFormed(Track(m, sid))
  {
    WfPut(m, sid, Session(|m.issued|, {}, None, false, 0, false, false, [], []));
  }

  lemma WfAllocate(m: State, p: Pending)
    requires WellFormed(m)
    requires p.HostPending? ==> Known(m, p.request)
    ensures WellFormed(Allocate(m, p))
  {
    var n := Allocate(m, p);
    forall t | t in n.sessions ensures SessionOk(n, t, n.sessions[t]) {
      assert SessionOk(m, t, m.sessions[t]);
      assert forall f :: FrameOk(m, f) ==> FrameOk(n, f);
    }
    forall k | 0 <= k < |n.engine| ensures FrameOk(n, n.engine[k]) {
      assert FrameOk(m, m.engine[k]);
    }
    assert forall f :: ReplyOk(m, f) ==> ReplyOk(n, f);
  }

  lemma WfToEngine(m: State, f: EngineFrame)
    requires WellFormed(m) && FrameOk(m, f)
    ensures WellFormed(ToEngine(m, f))
  {
    var n := ToEngine(m, f);
    assert forall t, s :: SessionOk(m, t, s) ==> SessionOk(n, t, s);
    forall k | 0 <= k < |n.engine| ensures FrameOk(n, n.engine[k]) {
      assert FrameOk(m, n.engine[k]);
    }
  }

  lemma WfForget(m: State, a: nat)
    requires WellFormed(m)
    ensures WellFormed(Forget(m, a))
  {
    var n := Forget(m, a);
    assert forall t, s :: SessionOk(m, t, s) ==> SessionOk(n, t, s);
    assert forall f :: FrameOk(m, f) ==> FrameOk(n, f);
  }

  lemma WfArrive(m: State, id: RpcId)
    requires WellFormed(m)
    ensures WellFormed(Arrive(m, id))
    ensures forall verb, sid :: Known(Arrive(m, id), Request(|m.requests|, id, verb, sid))
  {
    var n := Arrive(m, id);
    assert forall r :: Known(m, r) ==> Known(n, r);
    assert forall f :: FrameOk(m, f) ==> FrameOk(n, f);
    assert forall t, s :: SessionOk(m, t, s) ==> SessionOk(n, t, s);
    assert forall f :: ReplyOk(m, f) ==> ReplyOk(n, f);
  }

  lemma WfSubmit(m: State, sid: SessionId, r: Request)
    requires WellFormed(m) && sid in m.sessions && Known(m, r)
    ensures WellFormed(Submit(m, sid, r))
  {
    var a := NextId(m);
    var m1 := Allocate(m, HostPending(r));
    WfAllocate(m, HostPending(r));
    WfToEngine(m1, HostRequest(a, r));
    var m2 := ToEngine(m1, HostRequest(a, r));
    assert SessionOk(m2, sid, m2.sessions[sid]);
    WfForget(m2, a);
    WfPut(m2, sid, m2.sessions[sid].(hostPrompts := m2.sessions[sid].hostPrompts + {a}));
  }

  lemma WfTell(m: State, f: HostFrame)
    requires WellFormed(m) && ReplyOk(m, f)
    ensures WellFormed(m.(host := m.host + [f]))
    ensures WellFormed(m.(hostOwes := m.hostOwes + [f]))
    ensures WellFormed(m.(engineOwes := m.engineOwes + [f]))
  {
    forall n | n == m.(host := m.host + [f]) || n == m.(hostOwes := m.hostOwes + [f])
               || n == m.(engineOwes := m.engineOwes + [f])
      ensures WellFormed(n)
    {
      assert forall t, s :: SessionOk(m, t, s) ==> SessionOk(n, t, s);
      assert forall g :: FrameOk(m, g) ==> FrameOk(n, g);
      assert forall g :: ReplyOk(m, g) ==> ReplyOk(n, g);
    }
  }

  lemma WfCancelAll(m: State, sid: SessionId)
    requires WellFormed(m) && sid in m.sessions
    ensures WellFormed(m.(hostOwes := m.hostOwes + CancelAll(m.sessions[sid].queued)))
    ensures WellFormed(m.(engineOwes := m.engineOwes + CancelAll(m.sessions[sid].queued)))
  {
    var q := m.sessions[sid].queued;
    assert SessionOk(m, sid, m.sessions[sid]);
    forall n | n == m.(hostOwes := m.hostOwes + CancelAll(q)) || n == m.(engineOwes := m.engineOwes + CancelAll(q))
      ensures WellFormed(n)
    {
      assert forall t, s :: SessionOk(m, t, s) ==> SessionOk(n, t, s);
      assert forall g :: FrameOk(m, g) ==> FrameOk(n, g);
      assert forall g :: ReplyOk(m, g) ==> ReplyOk(n, g);
      forall k | 0 <= k < |q| ensures ReplyOk(m, CancelAll(q)[k]) { assert q[k] in q; }
    }
  }

  lemma {:induction false} WfDue(m: State, sid: SessionId)
    requires WellFormed(m) && sid in m.sessions
    ensures WellFormed(Due(m, sid))
    decreases |m.sessions[sid].queued|
  {
    var s := m.sessions[sid];
    if !s.Busy() && s.queued != [] {
      var r := s.queued[0];
      assert SessionOk(m, sid, s);
      assert SessionOk(m, sid, s.(queued := s.queued[1..]));
      WfPut(m, sid, s.(queued := s.queued[1..]));
      var m1 := Put(m, sid, s.(queued := s.queued[1..]));
      WfSubmit(m1, sid, r);
      if !Admits(m1) {
        WfTell(Submit(m1, sid, r), Answer(r, Cancelled));
        WfDue(Submit(m1, sid, r).(host := Submit(m1, sid, r).host + [Answer(r, Cancelled)]), sid);
      }
    }
  }

  lemma WfHostPrompt(m: State, id: RpcId, sid: SessionId)
    requires WellFormed(m)
    ensures WellFormed(HostPrompt(m, id, sid))
  {
    var r := Request(|m.requests|, id, Prompt, Some(sid));
    WfArrive(m, id);
    WfTrack(Arrive(m, id), sid);
    var m1 := Track(Arrive(m, id), sid);
    var s := m1.sessions[sid];
    assert Known(m1, r);
    WfTell(m1, Answer(r, Refused));
    if !s.closing && (s.peerPrompt.Some? || s.claiming || s.queued != []) {
      WfEnqueue(m1, sid, r);
    } else if !s.closing {
      WfSubmitOrRefuse(m1, sid, r);
    }
  }

  lemma WfSubmitOrRefuse(m: State, sid: SessionId, r: Request)
    requires WellFormed(m) && sid in m.sessions && Known(m, r) && r.verb.Prompt? && r.session == Some(sid)
    ensures WellFormed(Submit(m, sid, r)) && WellFormed(Refuse(Submit(m, sid, r), r))
  {
    WfSubmit(m, sid, r);
    WfTell(Submit(m, sid, r), Answer(r, Refused));
  }

  lemma WfEnqueue(m: State, sid: SessionId, r: Request)
    requires WellFormed(m) && sid in m.sessions && Known(m, r) && r.verb.Prompt? && r.session == Some(sid)
    ensures |m.sessions[sid].queued| < MAX_QUEUED_PROMPTS ==>
      WellFormed(Put(m, sid, m.sessions[sid].(queued := m.sessions[sid].queued + [r])))
  {
    var s := m.sessions[sid];
    assert SessionOk(m, sid, s);
    if |s.queued| < MAX_QUEUED_PROMPTS { WfPut(m, sid, s.(queued := s.queued + [r])); }
  }

  lemma WfHostCall(m: State, id: RpcId, verb: Verb, sid: Option<SessionId>)
    requires WellFormed(m)
    ensures WellFormed(HostCall(m, id, verb, sid))
  {
    var r := Request(|m.requests|, id, verb, sid);
    var a := NextId(m);
    var frame := HostRequest(a, r);
    WfArrive(m, id);
    WfAllocate(Arrive(m, id), HostPending(r));
    var m1 := Allocate(Arrive(m, id), HostPending(r));
    if ClosesTracked(m, verb, sid) {
      WfClosing(m1, sid.value, frame);
      var m2 := Put(m1, sid.value, m1.sessions[sid.value].(closing := true));
      if !m2.sessions[sid.value].claiming { WfOffer(m2, a, r); }
    } else {
      WfOffer(m1, a, r);
    }
  }

  lemma WfClosing(m: State, sid: SessionId, frame: EngineFrame)
    requires WellFormed(m) && sid in m.sessions && FrameOk(m, frame)
    requires frame.HostRequest? && frame.request.verb.Close? && frame.request.session == Some(sid)
    ensures
      var n := Put(m, sid, m.sessions[sid].(closing := true));
      && WellFormed(n)
      && WellFormed(Put(n, sid, n.sessions[sid].(deferred := n.sessions[sid].deferred + [frame])))
  {
    var s := m.sessions[sid].(closing := true);
    assert SessionOk(m, sid, m.sessions[sid]);
    WfPut(m, sid, s);
    assert SessionOk(Put(m, sid, s), sid, s.(deferred := s.deferred + [frame]));
    WfPut(Put(m, sid, s), sid, s.(deferred := s.deferred + [frame]));
  }

  lemma WfOffer(m: State, a: nat, r: Request)
    requires WellFormed(m) && IssuedFor(m, a, HostPending(r)) && Known(m, r)
    ensures WellFormed(ToEngine(m, HostRequest(a, r)))
    ensures WellFormed(Refuse(Forget(ToEngine(m, HostRequest(a, r)), a), r))
  {
    WfToEngine(m, HostRequest(a, r));
    WfForget(ToEngine(m, HostRequest(a, r)), a);
    WfTell(Forget(ToEngine(m, HostRequest(a, r)), a), Answer(r, Refused));
  }

  lemma WfHostCancel(m: State, sid: SessionId)
    requires WellFormed(m)
    ensures WellFormed(HostCancel(m, sid))
  {
    WfToEngine(m, CancelTurn(sid));
    if sid in m.sessions {
      var s := m.sessions[sid];
      WfCancelAll(m, sid);
      var m1 := m.(hostOwes := m.hostOwes + CancelAll(s.queued));
      assert SessionOk(m1, sid, s);
      WfPut(m1, sid, s.(queued := [], cancelClaim := true));
      WfPut(m1, sid, s.(queued := []));
      WfToEngine(Put(m1, sid, s.(queued := [])), CancelTurn(sid));
    }
  }

  lemma WfDelete(m: State, sid: SessionId)
    requires WellFormed(m) && sid in m.sessions
    ensures WellFormed(m.(sessions := m.sessions - {sid},
                          engineOwes := m.engineOwes + CancelAll(m.sessions[sid].queued)))
  {
    WfCancelAll(m, sid);
    var d := m.(engineOwes := m.engineOwes + CancelAll(m.sessions[sid].queued));
    var n := d.(sessions := m.sessions - {sid});
    assert forall t, u :: SessionOk(d, t, u) ==> SessionOk(n, t, u);
    assert forall f :: FrameOk(d, f) ==> FrameOk(n, f);
    assert forall g :: ReplyOk(d, g) ==> ReplyOk(n, g);
  }

  lemma WfThenDue(m: State, sid: SessionId, s: Session)
    requires WellFormed(m) && SessionOk(m, sid, s)
    ensures WellFormed(Due(Put(m, sid, s), sid))
  {
    WfPut(m, sid, s);
    WfDue(Put(m, sid, s), sid);
  }

  lemma WfSettle(m: State, p: Pending, a: nat, ok: bool, created: Option<SessionId>)
    requires WellFormed(m)
    ensures WellFormed(Settle(m, p, a, ok, created))
  {
    var verb := if p.HostPending? then p.request.verb else Prompt;
    var sid := if p.HostPending? then p.request.session else Some(p.session);
    if verb.New? && created.Some? {
      WfTrack(m, created.value);
    } else if sid.Some? {
      if verb.Load? && ok { WfTrack(m, sid.value); }
      if sid.value in m.sessions {
        var s := m.sessions[sid.value];
        assert SessionOk(m, sid.value, s);
        if verb.Close? {
          if ok { WfDelete(m, sid.value); } else { WfThenDue(m, sid.value, s.(closing := false)); }
        } else if verb.Prompt? {
          WfThenDue(m, sid.value, s.(hostPrompts := s.hostPrompts - {a},
            peerPrompt := if s.peerPrompt == Some(a) then None else s.peerPrompt));
        }
      }
    }
  }

  lemma WfEngineReply(m: State, a: nat, ok: bool, created: Option<SessionId>)
    requires WellFormed(m)
    ensures WellFormed(EngineReply(m, a, ok, created))
  {
    if a in m.pending {
      var p := m.pending[a];
      WfForget(m, a);
      var m1 := Forget(m, a);
      if p.HostPending? {
        assert Known(m, m.issued[a - 1].request);
        WfTell(m1, Answer(p.request, EngineAnswer(a)));
      }
      var m2 := if p.HostPending?
                then m1.(engineOwes := m1.engineOwes + [Answer(p.request, EngineAnswer(a))])
                else m1;
      WfSettle(m2, p, a, ok, created);
    }
  }

  lemma {:induction false} WfFlush(m: State, frames: seq<EngineFrame>)
    requires WellFormed(m)
    requires forall f :: f in frames ==> FrameOk(m, f)
    ensures WellFormed(Flush(m, frames))
    decreases |frames|
  {
    if frames != [] {
      WfToEngine(m, frames[0]);
      var n := ToEngine(m, frames[0]);
      forall f | f in frames[1..] ensures FrameOk(n, f) { assert FrameOk(m, f); }
      WfFlush(n, frames[1..]);
    }
  }

  lemma WfSubmitPeer(m: State, sid: SessionId, event: nat)
    requires WellFormed(m) && sid in m.sessions
    ensures WellFormed(SubmitPeer(m, sid, event))
    ensures sid in SubmitPeer(m, sid, event).sessions
  {
    var a := NextId(m);
    var s := m.sessions[sid];
    WfAllocate(m, PeerPending(sid));
    var m1 := Allocate(m, PeerPending(sid));
    WfToEngine(m1, PeerPrompt(a, sid, event, s.claimedAt));
    var m2 := ToEngine(m1, PeerPrompt(a, sid, event, s.claimedAt));
    WfPeerAdmitted(m2, sid, a);
    WfPeerDropped(m2, sid, a);
  }

  lemma WfPeerAdmitted(m: State, sid: SessionId, a: nat)
    requires WellFormed(m) && sid in m.sessions
    ensures WellFormed(Put(m, sid, m.sessions[sid].(peerPrompt := Some(a))))
    ensures WellFormed(ToEngine(Put(m, sid, m.sessions[sid].(peerPrompt := Some(a))), CancelTurn(sid)))
  {
    var s := m.sessions[sid];
    assert SessionOk(m, sid, s);
    WfPut(m, sid, s.(peerPrompt := Some(a)));
    WfToEngine(Put(m, sid, s.(peerPrompt := Some(a))), CancelTurn(sid));
  }

  lemma WfPeerDropped(m: State, sid: SessionId, a: nat)
    requires WellFormed(m) && sid in m.sessions
    ensures WellFormed(Put(Forget(m, a), sid, m.sessions[sid].(peerPrompt := None)))
  {
    var s := m.sessions[sid];
    WfForget(m, a);
    assert SessionOk(Forget(m, a), sid, s);
    WfPut(Forget(m, a), sid, s.(peerPrompt := None));
  }

  lemma WfRelease(m: State, sid: SessionId, got: Option<nat>)
    requires WellFormed(m) && sid in m.sessions
    ensures WellFormed(Release(m, sid, got)) && sid in Release(m, sid, got).sessions
  {
    var c := m.sessions[sid].(claiming := false);
    assert SessionOk(m, sid, m.sessions[sid]);
    WfPut(m, sid, c);
    if got.Some? { WfSubmitPeer(Put(m, sid, c), sid, got.value); }
  }

  /** Clearing the claim's leftovers and flushing the deferred frames. */
  lemma WfSettled(m: State, sid: SessionId)
    requires WellFormed(m) && sid in m.sessions
    ensures
      var s := m.sessions[sid];
      WellFormed(Flush(Put(m, sid, s.(cancelClaim := false, deferred := [])), s.deferred))
  {
    var s := m.sessions[sid];
    assert SessionOk(m, sid, s);
    WfPut(m, sid, s.(cancelClaim := false, deferred := []));
    var m2 := Put(m, sid, s.(cancelClaim := false, deferred := []));
    assert forall f :: FrameOk(m, f) ==> FrameOk(m2, f);
    WfFlush(m2, s.deferred);
  }

  lemma WfClaims(m: State, n: State)
    requires WellFormed(m) && n == m.(claims := n.claims, hand := n.hand)
    ensures WellFormed(n)
  {
    assert forall t, u :: SessionOk(m, t, u) ==> SessionOk(n, t, u);
    assert forall f :: FrameOk(m, f) ==> FrameOk(n, f);
    assert forall g :: ReplyOk(m, g) ==> ReplyOk(n, g);
  }

  lemma WfFinish(m: State)
    requires WellFormed(m) && m.claims != [] && m.hand.Some?
    ensures WellFormed(Finish(m))
  {
    var sid := m.claims[0];
    var m0 := m.(claims := m.claims[1..], hand := None);
    WfClaims(m, m0);
    if sid in m.sessions {
      WfRelease(m0, sid, m.hand.value);
      var m1 := Release(m0, sid, m.hand.value);
      var s := m1.sessions[sid];
      WfSettled(m1, sid);
      WfDue(Flush(Put(m1, sid, s.(cancelClaim := false, deferred := [])), s.deferred), sid);
    }
  }

  lemma WfStep(m: State, e: Step)
    requires WellFormed(m) && Enabled(m, e)
    ensures WellFormed(Apply(m, e))
  {
    match e
    case PromptArrives(id, sid) => WfHostPrompt(m, id, sid);
    case CallArrives(id, verb, sid) => WfHostCall(m, id, verb, sid);
    case CancelArrives(sid) => WfHostCancel(m, sid);
    case HostRelay => WfToEngine(m, Relayed);
    case EngineAnswers(a, ok, created) => WfEngineReply(m, a, ok, created);
    case DeliveryFinishes => WfFinish(m);
    case _ => WfQuietStep(m, e);
  }

  /** Steps that issue no request and submit no frame. */
  lemma WfQuietStep(m: State, e: Step)
    requires WellFormed(m) && Enabled(m, e)
    requires e.HostWrites? || e.EngineRelay? || e.EngineWrites? || e.DeliveryClaims? || e.DeliveryTakes?
          || e.RoomChanges? || e.InputCloses?
    ensures WellFormed(Apply(m, e))
  {
    var n := Apply(m, e);
    assert forall f :: FrameOk(m, f) ==> FrameOk(n, f);
    assert forall g :: ReplyOk(m, g) ==> ReplyOk(n, g);
    forall t | t in n.sessions ensures SessionOk(n, t, n.sessions[t]) {
      assert SessionOk(m, t, m.sessions[t]);
      assert SessionOk(n, t, m.sessions[t]);
    }
  }

  // -- conservation -----------------------------------------------------------

  ghost function Waiting(rs: seq<Request>, n: nat): nat
    decreases |rs|
  {
    if rs == [] then 0 else (if rs[0].serial == n then 1 else 0) + Waiting(rs[1..], n)
  }

  ghost function Replies(fs: seq<HostFrame>, n: nat): nat
    decreases |fs|
  {
    if fs == [] then 0 else IsReply(fs[0], n) + Replies(fs[1..], n)
  }

  ghost function IsReply(f: HostFrame, n: nat): nat {
    if f.Reply? && f.serial == n then 1 else 0
  }

  ghost function ForRequest(n: nat): Pending -> nat {
    (p: Pending) => if p.HostPending? && p.request.serial == n then 1 else 0
  }

  ghost function WaitingIn(n: nat): Session -> nat { (s: Session) => Waiting(s.queued, n) }

  /** How many places hold request `n` or its answer: pending under an adapter
      id, waiting in a session queue, decided and owed by a reader thread, or
      written to the host. */
  ghost function Places(m: State, n: nat): nat {
    SumOf(m.pending, ForRequest(n)) + SumOf(m.sessions, WaitingIn(n))
    + Replies(m.hostOwes, n) + Replies(m.engineOwes, n) + Replies(m.host, n)
  }

  lemma {:induction false} RepliesConcat(a: seq<HostFrame>, b: seq<HostFrame>, n: nat)
    ensures Replies(a + b, n) == Replies(a, n) + Replies(b, n)
    decreases |a|
  {
    if a == [] {
      assert a + b == b;
    } else {
      assert (a + b)[1..] == a[1..] + b;
      RepliesConcat(a[1..], b, n);
    }
  }

  lemma RepliesOne(a: seq<HostFrame>, f: HostFrame, n: nat)
    ensures Replies(a + [f], n) == Replies(a, n) + IsReply(f, n)
  {
    RepliesConcat(a, [f], n);
  }

  lemma {:induction false} WaitingAppend(a: seq<Request>, r: Request, n: nat)
    ensures Waiting(a + [r], n) == Waiting(a, n) + (if r.serial == n then 1 else 0)
    decreases |a|
  {
    if a != [] {
      assert (a + [r])[1..] == a[1..] + [r];
      WaitingAppend(a[1..], r, n);
    }
  }

  lemma {:induction false} RepliesCancelAll(rs: seq<Request>, n: nat)
    ensures Replies(CancelAll(rs), n) == Waiting(rs, n)
    decreases |rs|
  {
    if rs != [] {
      assert CancelAll(rs)[1..] == CancelAll(rs[1..]);
      RepliesCancelAll(rs[1..], n);
    }
  }

  lemma PlacesPut(m: State, sid: SessionId, s: Session, n: nat)
    ensures Places(Put(m, sid, s), n) == Places(m, n) + Waiting(s.queued, n)
      - (if sid in m.sessions then Waiting(m.sessions[sid].queued, n) else 0)
  {
    SumUpdate(m.sessions, WaitingIn(n), sid, s);
  }

  lemma PlacesTrack(m: State, sid: SessionId, n: nat)
    ensures Places(Track(m, sid), n) == Places(m, n)
  {
    PlacesPut(m, sid, Session(|m.issued|, {}, None, false, 0, false, false, [], []), n);
  }

  lemma PlacesAllocate(m: State, p: Pending, n: nat)
    requires NextId(m) !in m.pending
    ensures Places(Allocate(m, p), n) == Places(m, n) + ForRequest(n)(p)
  {
    SumUpdate(m.pending, ForRequest(n), NextId(m), p);
  }

  lemma PlacesForget(m: State, a: nat, n: nat)
    requires a in m.pending
    ensures Places(Forget(m, a), n) == Places(m, n) - ForRequest(n)(m.pending[a])
  {
    SumWithout(m.pending, ForRequest(n), a);
  }

  ghost predicate FreshId(m: State) { forall a :: a in m.pending ==> a <= |m.issued| }

  lemma PlacesSubmit(m: State, sid: SessionId, r: Request, n: nat)
    requires FreshId(m) && sid in m.sessions
    ensures FreshId(Submit(m, sid, r))
    ensures Places(Submit(m, sid, r), n) == Places(m, n) + (if Admits(m) && r.serial == n then 1 else 0)
  {
    var a := NextId(m);
    var m1 := Allocate(m, HostPending(r));
    PlacesAllocate(m, HostPending(r), n);
    var m2 := ToEngine(m1, HostRequest(a, r));
    if Admits(m1) {
      PlacesPut(m2, sid, m2.sessions[sid].(hostPrompts := m2.sessions[sid].hostPrompts + {a}), n);
    } else {
      PlacesForget(m2, a, n);
    }
  }

  lemma {:induction false} PlacesDue(m: State, sid: SessionId, n: nat)
    requires FreshId(m) && sid in m.sessions
    ensures Places(Due(m, sid), n) == Places(m, n)
    decreases |m.sessions[sid].queued|
  {
    var s := m.sessions[sid];
    if !s.Busy() && s.queued != [] {
      var r := s.queued[0];
      var rest := s.(queued := s.queued[1..]);
      PlacesPut(m, sid, rest, n);
      var m1 := Put(m, sid, rest);
      PlacesSubmit(m1, sid, r, n);
      if !Admits(m1) {
        var m2 := Submit(m1, sid, r);
        RepliesOne(m2.host, Answer(r, Cancelled), n);
        PlacesDue(m2.(host := m2.host + [Answer(r, Cancelled)]), sid, n);
      }
    }
  }

  lemma PlacesPutDue(m: State, sid: SessionId, s: Session, n: nat)
    requires FreshId(m) && sid in m.sessions
    requires s.queued == m.sessions[sid].queued
    ensures Places(Due(Put(m, sid, s), sid), n) == Places(m, n)
  {
    PlacesPut(m, sid, s, n);
    PlacesDue(Put(m, sid, s), sid, n);
  }

  lemma PlacesHostPrompt(m: State, id: RpcId, sid: SessionId, n: nat)
    requires FreshId(m)
    ensures Places(HostPrompt(m, id, sid), n) == Places(m, n) + (if n == |m.requests| then 1 else 0)
  {
    var r := Request(|m.requests|, id, Prompt, Some(sid));
    PlacesTrack(Arrive(m, id), sid, n);
    var m1 := Track(Arrive(m, id), sid);
    var s := m1.sessions[sid];
    if s.closing {
      RepliesOne(m1.hostOwes, Answer(r, Refused), n);
    } else if s.peerPrompt.Some? || s.claiming || s.queued != [] {
      if |s.queued| < MAX_QUEUED_PROMPTS {
        PlacesPut(m1, sid, s.(queued := s.queued + [r]), n);
        WaitingAppend(s.queued, r, n);
      } else {
        RepliesOne(m1.hostOwes, Answer(r, Refused), n);
      }
    } else {
      PlacesSubmit(m1, sid, r, n);
      RepliesOne(Submit(m1, sid, r).hostOwes, Answer(r, Refused), n);
    }
  }

  lemma PlacesHostCall(m: State, id: RpcId, verb: Verb, sid: Option<SessionId>, n: nat)
    requires FreshId(m)
    ensures Places(HostCall(m, id, verb, sid), n) == Places(m, n) + (if n == |m.requests| then 1 else 0)
  {
    var r := Request(|m.requests|, id, verb, sid);
    var a := NextId(m);
    PlacesAllocate(Arrive(m, id), HostPending(r), n);
    var m1 := Allocate(Arrive(m, id), HostPending(r));
    if ClosesTracked(m, verb, sid) {
      var s := m1.sessions[sid.value].(closing := true);
      PlacesPut(m1, sid.value, s, n);
      var m2 := Put(m1, sid.value, s);
      if s.claiming {
        PlacesPut(m2, sid.value, s.(deferred := s.deferred + [HostRequest(a, r)]), n);
      } else {
        PlacesOffer(m2, a, r, n);
      }
    } else {
      PlacesOffer(m1, a, r, n);
    }
  }

  lemma PlacesOffer(m: State, a: nat, r: Request, n: nat)
    requires a in m.pending && m.pending[a] == HostPending(r)
    ensures Places(ToEngine(m, HostRequest(a, r)), n) == Places(m, n)
    ensures Places(Refuse(Forget(ToEngine(m, HostRequest(a, r)), a), r), n) == Places(m, n)
  {
    var m1 := ToEngine(m, HostRequest(a, r));
    PlacesForget(m1, a, n);
    RepliesOne(Forget(m1, a).hostOwes, Answer(r, Refused), n);
  }

  lemma PlacesHostCancel(m: State, sid: SessionId, n: nat)
    ensures Places(HostCancel(m, sid), n) == Places(m, n)
  {
    if sid in m.sessions {
      var s := m.sessions[sid];
      var m1 := m.(hostOwes := m.hostOwes + CancelAll(s.queued));
      RepliesConcat(m.hostOwes, CancelAll(s.queued), n);
      RepliesCancelAll(s.queued, n);
      PlacesPut(m1, sid, s.(queued := [], cancelClaim := true), n);
      PlacesPut(m1, sid, s.(queued := []), n);
    }
  }

  lemma PlacesSettle(m: State, p: Pending, a: nat, ok: bool, created: Option<SessionId>, n: nat)
    requires FreshId(m)
    ensures Places(Settle(m, p, a, ok, created), n) == Places(m, n)
  {
    var verb := if p.HostPending? then p.request.verb else Prompt;
    var sid := if p.HostPending? then p.request.session else Some(p.session);
    if verb.New? && created.Some? {
      PlacesTrack(m, created.value, n);
    } else if sid.Some? {
      PlacesTrack(m, sid.value, n);
      if sid.value in m.sessions {
        var s := m.sessions[sid.value];
        if verb.Close? && ok {
          SumWithout(m.sessions, WaitingIn(n), sid.value);
          RepliesConcat(m.engineOwes, CancelAll(s.queued), n);
          RepliesCancelAll(s.queued, n);
        } else if verb.Close? {
          PlacesPutDue(m, sid.value, s.(closing := false), n);
        } else if verb.Prompt? {
          PlacesPutDue(m, sid.value, s.(hostPrompts := s.hostPrompts - {a},
            peerPrompt := if s.peerPrompt == Some(a) then None else s.peerPrompt), n);
        }
      }
    }
  }

  lemma PlacesEngineReply(m: State, a: nat, ok: bool, created: Option<SessionId>, n: nat)
    requires FreshId(m)
    ensures Places(EngineReply(m, a, ok, created), n) == Places(m, n)
  {
    if a in m.pending {
      var p := m.pending[a];
      PlacesForget(m, a, n);
      var m1 := Forget(m, a);
      if p.HostPending? {
        RepliesOne(m1.engineOwes, Answer(p.request, EngineAnswer(a)), n);
        PlacesSettle(m1.(engineOwes := m1.engineOwes + [Answer(p.request, EngineAnswer(a))]), p, a, ok, created, n);
      } else {
        PlacesSettle(m1, p, a, ok, created, n);
      }
    }
  }

  lemma PlacesSubmitPeer(m: State, sid: SessionId, event: nat, n: nat)
    requires FreshId(m) && sid in m.sessions
    ensures FreshId(SubmitPeer(m, sid, event))
    ensures Places(SubmitPeer(m, sid, event), n) == Places(m, n)
  {
    var a := NextId(m);
    var s := m.sessions[sid];
    PlacesAllocate(m, PeerPending(sid), n);
    var m1 := Allocate(m, PeerPending(sid));
    var m2 := ToEngine(m1, PeerPrompt(a, sid, event, s.claimedAt));
    if Admits(m1) {
      PlacesPut(m2, sid, s.(peerPrompt := Some(a)), n);
    } else {
      PlacesForget(m2, a, n);
      PlacesPut(Forget(m2, a), sid, s.(peerPrompt := None), n);
    }
  }

  lemma PlacesRelease(m: State, sid: SessionId, got: Option<nat>, n: nat)
    requires FreshId(m) && sid in m.sessions
    ensures FreshId(Release(m, sid, got)) && sid in Release(m, sid, got).sessions
    ensures Places(Release(m, sid, got), n) == Places(m, n)
  {
    PlacesPut(m, sid, m.sessions[sid].(claiming := false), n);
    if got.Some? { PlacesSubmitPeer(Put(m, sid, m.sessions[sid].(claiming := false)), sid, got.value, n); }
  }

  lemma PlacesFinish(m: State, n: nat)
    requires FreshId(m) && m.claims != [] && m.hand.Some?
    ensures Places(Finish(m), n) == Places(m, n)
  {
    var sid := m.claims[0];
    var m0 := m.(claims := m.claims[1..], hand := None);
    if sid in m.sessions {
      PlacesRelease(m0, sid, m.hand.value, n);
      var m1 := Release(m0, sid, m.hand.value);
      var s := m1.sessions[sid].(cancelClaim := false, deferred := []);
      PlacesPut(m1, sid, s, n);
      PlacesDue(Flush(Put(m1, sid, s), m1.sessions[sid].deferred), sid, n);
    }
  }

  ghost predicate BringsRequest(e: Step) { e.PromptArrives? || e.CallArrives? }

  lemma PlacesStep(m: State, e: Step, n: nat)
    requires FreshId(m) && Enabled(m, e)
    ensures Places(Apply(m, e), n) == Places(m, n) + (if BringsRequest(e) && n == |m.requests| then 1 else 0)
  {
    match e
    case PromptArrives(id, sid) => PlacesHostPrompt(m, id, sid, n);
    case CallArrives(id, verb, sid) => PlacesHostCall(m, id, verb, sid, n);
    case CancelArrives(sid) => PlacesHostCancel(m, sid, n);
    case HostWrites => RepliesOne(m.host, m.hostOwes[0], n);
    case EngineWrites => RepliesOne(m.host, m.engineOwes[0], n);
    case EngineRelay => RepliesOne(m.host, Notice, n);
    case EngineAnswers(a, ok, created) => PlacesEngineReply(m, a, ok, created, n);
    case DeliveryClaims(order) => SumSame(Claim(m, order).sessions, m.sessions, WaitingIn(n));
    case DeliveryTakes(got) => if got.Some? { RepliesOne(m.host, Echo(m.claims[0], got.value), n); }
    case DeliveryFinishes => PlacesFinish(m, n);
    case _ =>
  }

  // -- whole runs -------------------------------------------------------------

  lemma {:induction false} DueKeepsRequests(m: State, sid: SessionId)
    requires sid in m.sessions
    ensures Due(m, sid).requests == m.requests
    decreases |m.sessions[sid].queued|
  {
    var s := m.sessions[sid];
    if !s.Busy() && s.queued != [] {
      var m1 := Put(m, sid, s.(queued := s.queued[1..]));
      var m2 := Submit(m1, sid, s.queued[0]);
      if !Admits(m1) { DueKeepsRequests(m2.(host := m2.host + [Answer(s.queued[0], Cancelled)]), sid); }
    }
  }

  lemma SettleKeepsRequests(m: State, p: Pending, a: nat, ok: bool, created: Option<SessionId>)
    ensures Settle(m, p, a, ok, created).requests == m.requests
  {
    var sid := if p.HostPending? then p.request.session else Some(p.session);
    if sid.Some? && sid.value in m.sessions {
      var s := m.sessions[sid.value];
      DueKeepsRequests(Put(m, sid.value, s.(closing := false)), sid.value);
      DueKeepsRequests(Put(m, sid.value, s.(hostPrompts := s.hostPrompts - {a},
        peerPrompt := if s.peerPrompt == Some(a) then None else s.peerPrompt)), sid.value);
    }
  }

  lemma FinishKeepsRequests(m: State)
    requires m.claims != [] && m.hand.Some?
    ensures Finish(m).requests == m.requests
  {
    var sid := m.claims[0];
    var m0 := m.(claims := m.claims[1..], hand := None);
    if sid in m.sessions {
      var m1 := Release(m0, sid, m.hand.value);
      var s := m1.sessions[sid];
      DueKeepsRequests(Flush(Put(m1, sid, s.(cancelClaim := false, deferred := [])), s.deferred), sid);
    }
  }

  lemma RequestsGrow(m: State, e: Step)
    requires Enabled(m, e)
    ensures |Apply(m, e).requests| == |m.requests| + (if BringsRequest(e) then 1 else 0)
  {
    if e.EngineAnswers? && e.adapter in m.pending {
      var p := m.pending[e.adapter];
      var m1 := Forget(m, e.adapter);
      SettleKeepsRequests(m1, p, e.adapter, e.ok, e.created);
      if p.HostPending? {
        SettleKeepsRequests(m1.(engineOwes := m1.engineOwes + [Answer(p.request, EngineAnswer(e.adapter))]),
                            p, e.adapter, e.ok, e.created);
      }
    } else if e.DeliveryFinishes? {
      FinishKeepsRequests(m);
    }
  }

  lemma {:induction false} StaysWellFormed(steps: seq<Step>, states: seq<State>, k: nat)
    requires Run(steps, states) && k <= |steps|
    ensures WellFormed(states[k])
  {
    if k > 0 {
      StaysWellFormed(steps, states, k - 1);
      assert Stepped(states[k - 1], steps[k - 1], states[k]);
      WfStep(states[k - 1], steps[k - 1]);
    }
  }

  /** In every reachable state each request that ever arrived is held in exactly
      one place, and no other request is held anywhere. */
  lemma {:induction false} EveryRequestInExactlyOnePlace(steps: seq<Step>, states: seq<State>, k: nat, n: nat)
    requires Run(steps, states) && k <= |steps|
    ensures Places(states[k], n) == if n < |states[k].requests| then 1 else 0
  {
    if k > 0 {
      EveryRequestInExactlyOnePlace(steps, states, k - 1, n);
      assert Stepped(states[k - 1], steps[k - 1], states[k]);
      StaysWellFormed(steps, states, k - 1);
      PlacesStep(states[k - 1], steps[k - 1], n);
      RequestsGrow(states[k - 1], steps[k - 1]);
    }
  }

  lemma {:induction false} RepliesAtLeast(fs: seq<HostFrame>, i: nat)
    requires i < |fs| && fs[i].Reply?
    ensures Replies(fs, fs[i].serial) >= 1
    decreases |fs|
  {
    if i > 0 { RepliesAtLeast(fs[1..], i - 1); }
  }

  lemma {:induction false} RepliesTwice(fs: seq<HostFrame>, i: nat, j: nat)
    requires i < j < |fs| && fs[i].Reply? && fs[j].Reply? && fs[i].serial == fs[j].serial
    ensures Replies(fs, fs[i].serial) >= 2
    decreases |fs|
  {
    if i > 0 {
      RepliesTwice(fs[1..], i - 1, j - 1);
    } else {
      RepliesAtLeast(fs[1..], j - 1);
    }
  }

  /** No two replies the host ever sees answer the same request, and each
      carries the id the host gave that request. */
  lemma AnsweredAtMostOnceWithOwnId(steps: seq<Step>, states: seq<State>, k: nat, i: nat, j: nat)
    requires Run(steps, states) && k <= |steps|
    requires i < |states[k].host| && states[k].host[i].Reply?
    requires j < |states[k].host| && states[k].host[j].Reply?
    ensures states[k].host[i].serial == states[k].host[j].serial ==> i == j
    ensures states[k].host[i].serial < |states[k].requests|
    ensures states[k].host[i].id == states[k].requests[states[k].host[i].serial]
  {
    var host := states[k].host;
    StaysWellFormed(steps, states, k);
    assert ReplyOk(states[k], host[i]);
    EveryRequestInExactlyOnePlace(steps, states, k, host[i].serial);
    if host[i].serial == host[j].serial && i != j {
      RepliesTwice(host, if i < j then i else j, if i < j then j else i);
    }
  }

  /** An adapter id issued for a peer prompt never causes a reply to the host:
      an engine answer the host sees was to an id issued for that very request. */
  lemma PeerRepliesStayInside(steps: seq<Step>, states: seq<State>, k: nat, i: nat)
    requires Run(steps, states) && k <= |steps|
    requires i < |states[k].host|
    requires states[k].host[i].Reply? && states[k].host[i].cause.EngineAnswer?
    ensures 1 <= states[k].host[i].cause.adapter <= |states[k].issued|
    ensures states[k].issued[states[k].host[i].cause.adapter - 1].HostPending?
    ensures states[k].issued[states[k].host[i].cause.adapter - 1].request.serial == states[k].host[i].serial
  {
    StaysWellFormed(steps, states, k);
    assert ReplyOk(states[k], states[k].host[i]);
  }
}
