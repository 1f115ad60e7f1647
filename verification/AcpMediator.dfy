/**
 * The mediator object: its fields are updated in place by the methods the
 * reader and delivery threads run, and each method's effect is one step of
 * MediatorModel.
 */
module AcpMediator {
  import opened Collections
  import opened MediatorModel

  class Mediator {
    var nextId: nat
    var pending: map<nat, Pending>
    var sessions: map<SessionId, Session>
    var engine: seq<EngineFrame>
    var closed: bool
    var room: nat
    var host: seq<HostFrame>
    var hostOwes: seq<HostFrame>
    var engineOwes: seq<HostFrame>
    var claims: seq<SessionId>
    var hand: Option<Option<nat>>
    ghost var requests: seq<RpcId>
    ghost var issued: seq<Pending>
    var arrivals: nat

    ghost predicate Valid()
      reads this
    {
      nextId == |issued| && arrivals == |requests|
    }

    ghost function Abstract(): State
      reads this
    {
      State(requests, issued, pending, sessions, engine, closed, room, host, hostOwes, engineOwes, claims, hand)
    }

    constructor ()
      ensures Valid() && Abstract() == Init
    {
      nextId, arrivals := 0, 0;
      pending, sessions := map[], map[];
      engine, closed, room := [], false, 0;
      host, hostOwes, engineOwes := [], [], [];
      claims, hand := [], None;
      requests, issued := [], [];
    }

    method ToEngine(f: EngineFrame) returns (accepted: bool)
      requires Valid()
      modifies this
      ensures Valid()
      ensures Abstract() == MediatorModel.ToEngine(old(Abstract()), f)
      ensures accepted == Admits(old(Abstract()))
    {
      if closed { return false; }
      if room == 0 {
        closed := true;
        return false;
      }
      engine := engine + [f];
      room := room - 1;
      return true;
    }

    method Allocate(p: Pending) returns (internalId: nat)
      requires Valid()
      modifies this
      ensures Valid()
      ensures internalId == NextId(old(Abstract()))
      ensures Abstract() == MediatorModel.Allocate(old(Abstract()), p)
    {
      nextId := nextId + 1;
      issued := issued + [p];
      pending := pending[nextId := p];
      return nextId;
    }

    method Track(sid: SessionId)
      requires Valid()
      modifies this
      ensures Valid()
      ensures Abstract() == MediatorModel.Track(old(Abstract()), sid)
    {
      if sid !in sessions {
        sessions := sessions[sid := Session(nextId, {}, None, false, 0, false, false, [], [])];
      }
    }

    /** Submit one host prompt as a running turn. */
    method Submit(sid: SessionId, r: Request) returns (accepted: bool)
      requires Valid() && sid in sessions
      modifies this
      ensures Valid()
      ensures Abstract() == MediatorModel.Submit(old(Abstract()), sid, r)
      ensures accepted == Admits(old(Abstract()))
    {
      var a := Allocate(HostPending(r));
      accepted := ToEngine(HostRequest(a, r));
      if accepted {
        sessions := sessions[sid := sessions[sid].(hostPrompts := sessions[sid].hostPrompts + {a})];
      } else {
        pending := pending - {a};
      }
    }

    /** Promote waiting prompts until the session is busy or none waits. */
    method PromoteDue(sid: SessionId)
      requires Valid() && sid in sessions
      modifies this
      ensures Valid()
      ensures Abstract() == Due(old(Abstract()), sid)
    {
      while !sessions[sid].Busy() && sessions[sid].queued != []
        invariant Valid() && sid in sessions
        invariant Due(Abstract(), sid) == Due(old(Abstract()), sid)
        decreases |sessions[sid].queued|
      {
        var s := sessions[sid];
        var r := s.queued[0];
        ghost var before := Abstract();
        sessions := sessions[sid := s.(queued := s.queued[1..])];
        var accepted := Submit(sid, r);
        if !accepted {
          host := host + [Answer(r, Cancelled)];
        } else {
          assert Abstract() == Due(before, sid);
          assert sessions[sid].Busy();
        }
      }
    }

    method OnHostPrompt(id: RpcId, sid: SessionId)
      requires Valid()
      modifies this
      ensures Valid()
      ensures Abstract() == HostPrompt(old(Abstract()), id, sid)
    {
      var r := Request(arrivals, id, Prompt, Some(sid));
      arrivals, requests := arrivals + 1, requests + [id];
      Track(sid);
      var s := sessions[sid];
      if s.closing {
        hostOwes := hostOwes + [Answer(r, Refused)];
      } else if s.peerPrompt.Some? || s.claiming || s.queued != [] {
        if |s.queued| < MAX_QUEUED_PROMPTS {
          sessions := sessions[sid := s.(queued := s.queued + [r])];
        } else {
          hostOwes := hostOwes + [Answer(r, Refused)];
        }
      } else {
        var accepted := Submit(sid, r);
        if !accepted { hostOwes := hostOwes + [Answer(r, Refused)]; }
      }
    }

    method OnHostCall(id: RpcId, verb: Verb, sid: Option<SessionId>)
      requires Valid() && !(verb.Prompt? && sid.Some?)
      modifies this
      ensures Valid()
      ensures Abstract() == HostCall(old(Abstract()), id, verb, sid)
    {
      var r := Request(arrivals, id, verb, sid);
      arrivals, requests := arrivals + 1, requests + [id];
      var a := Allocate(HostPending(r));
      var held := false;
      ghost var m1 := Abstract();
      if verb.Close? && sid.Some? && sid.value in sessions {
        held := MarkClosing(sid.value, HostRequest(a, r));
        ghost var s := m1.sessions[sid.value].(closing := true);
        assert sessions == m1.sessions[sid.value := s][sid.value := sessions[sid.value]];
      }
      if !held { Offer(a, r); }
    }

    /** The session is closing; a close that arrives during a claim is held back. */
    method MarkClosing(sid: SessionId, frame: EngineFrame) returns (held: bool)
      requires Valid() && sid in sessions
      modifies this`sessions
      ensures held == old(sessions[sid].claiming)
      ensures sessions == old(sessions)[sid := old(sessions[sid]).(
        closing := true,
        deferred := if held then old(sessions[sid].deferred) + [frame] else old(sessions[sid].deferred))]
    {
      var s := sessions[sid].(closing := true);
      held := s.claiming;
      if held { s := s.(deferred := s.deferred + [frame]); }
      sessions := sessions[sid := s];
    }

    method Offer(a: nat, r: Request)
      requires Valid()
      modifies this
      ensures Valid()
      ensures
        var after := MediatorModel.ToEngine(old(Abstract()), HostRequest(a, r));
        Abstract() == if Admits(old(Abstract())) then after else Refuse(Forget(after, a), r)
    {
      var accepted := ToEngine(HostRequest(a, r));
      if !accepted {
        pending := pending - {a};
        hostOwes := hostOwes + [Answer(r, Refused)];
      }
    }

    method OnHostCancel(sid: SessionId)
      requires Valid()
      modifies this
      ensures Valid()
      ensures Abstract() == HostCancel(old(Abstract()), sid)
    {
      if sid !in sessions {
        var _ := ToEngine(CancelTurn(sid));
      } else {
        var s := sessions[sid];
        hostOwes := hostOwes + CancelAll(s.queued);
        if s.claiming {
          sessions := sessions[sid := s.(queued := [], cancelClaim := true)];
        } else {
          sessions := sessions[sid := s.(queued := [])];
          if s.peerPrompt.Some? || s.hostPrompts != {} {
            var _ := ToEngine(CancelTurn(sid));
          }
        }
      }
    }

    method OnEngineReply(a: nat, ok: bool, created: Option<SessionId>)
      requires Valid()
      modifies this
      ensures Valid()
      ensures Abstract() == EngineReply(old(Abstract()), a, ok, created)
    {
      if a !in pending { return; }
      var p := pending[a];
      pending := pending - {a};
      if p.HostPending? {
        engineOwes := engineOwes + [Answer(p.request, EngineAnswer(a))];
      }
      var verb := if p.HostPending? then p.request.verb else Prompt;
      var sid := if p.HostPending? then p.request.session else Some(p.session);
      if verb.New? && created.Some? {
        Track(created.value);
      } else if sid.None? {
        return;
      } else if verb.Load? && ok {
        Track(sid.value);
      } else if sid.value !in sessions {
        return;
      } else if verb.Close? {
        var s := sessions[sid.value];
        if ok {
          sessions := sessions - {sid.value};
          engineOwes := engineOwes + CancelAll(s.queued);
        } else {
          sessions := sessions[sid.value := s.(closing := false)];
          PromoteDue(sid.value);
        }
      } else if verb.Prompt? {
        var s := sessions[sid.value];
        s := s.(hostPrompts := s.hostPrompts - {a});
        if s.peerPrompt == Some(a) { s := s.(peerPrompt := None); }
        sessions := sessions[sid.value := s];
        PromoteDue(sid.value);
      }
    }

    /** Collect the idle sessions and mark each of them as claimed; they are served in
        the order collected. */
    method ClaimIdle() returns (order: seq<SessionId>)
      requires Valid() && claims == [] && hand.None?
      modifies this
      ensures Valid()
      ensures Enabled(old(Abstract()), DeliveryClaims(order))
      ensures Abstract() == Claim(old(Abstract()), order)
    {
      order := [];
      var left := sessions.Keys;
      while left != {}
        invariant left <= sessions.Keys
        invariant forall sid :: sid in order <==> sid in sessions.Keys - left && !sessions[sid].Busy()
        invariant forall i, j :: 0 <= i < j < |order| ==> order[i] != order[j]
        decreases |left|
      {
        var sid :| sid in left;
        left := left - {sid};
        if !sessions[sid].Busy() {
          assert sid !in order;
          order := order + [sid];
        }
      }
      claims := order;
      sessions := map sid | sid in sessions ::
        if sessions[sid].Busy() then sessions[sid]
        else sessions[sid].(claiming := true, claimedAt := |engine|);
    }

    method TakeNext(got: Option<nat>)
      requires Valid() && claims != []
      modifies this
      ensures Valid()
      ensures Abstract() == Take(old(Abstract()), got)
    {
      hand := Some(got);
      if got.Some? { host := host + [Echo(claims[0], got.value)]; }
    }

    method FinishClaim()
      requires Valid() && claims != [] && hand.Some?
      modifies this
      ensures Valid()
      ensures Abstract() == Finish(old(Abstract()))
    {
      var sid := claims[0];
      var taken := hand.value;
      claims, hand := claims[1..], None;
      if sid !in sessions { return; }
      ReleaseClaim(sid, taken);
      var frames := sessions[sid].deferred;
      sessions := sessions[sid := sessions[sid].(cancelClaim := false, deferred := [])];
      FlushDeferred(frames);
      PromoteDue(sid);
    }

    /** End the claim and submit what it took, followed by a cancel it held back. */
    method ReleaseClaim(sid: SessionId, taken: Option<nat>)
      requires Valid() && sid in sessions
      modifies this
      ensures Valid() && sid in sessions
      ensures Abstract() == Release(old(Abstract()), sid, taken)
    {
      var s := sessions[sid].(claiming := false);
      sessions := sessions[sid := s];
      if taken.Some? {
        var a := Allocate(PeerPending(sid));
        var submitted := ToEngine(PeerPrompt(a, sid, taken.value, s.claimedAt));
        if submitted {
          sessions := sessions[sid := s.(peerPrompt := Some(a))];
          if s.cancelClaim {
            var _ := ToEngine(CancelTurn(sid));
          }
        } else {
          pending := pending - {a};
          sessions := sessions[sid := s.(peerPrompt := None)];
        }
      }
    }

    method FlushDeferred(frames: seq<EngineFrame>)
      requires Valid()
      modifies this
      ensures Valid()
      ensures Abstract() == Flush(old(Abstract()), frames)
    {
      var i := 0;
      while i < |frames|
        invariant 0 <= i <= |frames| && Valid()
        invariant Flush(Abstract(), frames[i..]) == Flush(old(Abstract()), frames)
      {
        var _ := ToEngine(frames[i]);
        assert frames[i..][1..] == frames[i + 1..];
        i := i + 1;
      }
    }
  }
}
