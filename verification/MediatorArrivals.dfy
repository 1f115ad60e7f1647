/**
 * What the engine is given on behalf of the host: the requests as they arrived,
 * word for word, and what the host is told about each of them.
 */
module MediatorArrivals {
  import opened Collections
  import opened MediatorModel
  import opened MediatorCustody

  /** The id-carrying requests of a run, in the order in which they arrived. */
  function Arrivals(steps: seq<Step>): seq<Request>
    decreases |steps|
  {
    if steps == [] then []
    else
      var before := Arrivals(steps[..|steps| - 1]);
      match steps[|steps| - 1]
      case PromptArrives(id, sid) => before + [Request(|before|, id, Prompt, Some(sid))]
      case CallArrives(id, verb, sid) => before + [Request(|before|, id, verb, sid)]
      case _ => before
  }

  ghost predicate Arrived(all: seq<Request>, r: Request) { r.serial < |all| && all[r.serial] == r }

  /** Every request the mediator remembers is one that arrived. */
  ghost predicate Verbatim(m: State, all: seq<Request>) {
    && |m.requests| == |all| && (forall i :: 0 <= i < |all| ==> m.requests[i] == all[i].id)
    && (forall k :: 0 <= k < |m.issued| && m.issued[k].HostPending? ==> Arrived(all, m.issued[k].request))
    && (forall sid, i :: sid in m.sessions && 0 <= i < |m.sessions[sid].queued| ==> Arrived(all, m.sessions[sid].queued[i]))
  }

  lemma SubmitKeeps(m: State, sid: SessionId, r: Request, all: seq<Request>)
    requires Verbatim(m, all) && sid in m.sessions && Arrived(all, r)
    ensures Verbatim(Submit(m, sid, r), all)
  {
  }

  lemma {:induction false} DueKeeps(m: State, sid: SessionId, all: seq<Request>)
    requires Verbatim(m, all) && sid in m.sessions
    ensures Verbatim(Due(m, sid), all)
    decreases |m.sessions[sid].queued|
  {
    var s := m.sessions[sid];
    if !s.Busy() && s.queued != [] {
      var r := s.queued[0];
      var m1 := Put(m, sid, s.(queued := s.queued[1..]));
      assert Arrived(all, r);
      forall t, i | t in m1.sessions && 0 <= i < |m1.sessions[t].queued| ensures Arrived(all, m1.sessions[t].queued[i]) {
        if t == sid { assert m1.sessions[t].queued[i] == s.queued[i + 1]; }
      }
      SubmitKeeps(m1, sid, r, all);
      if !Admits(m1) {
        var m2 := Submit(m1, sid, r);
        DueKeeps(m2.(host := m2.host + [Answer(r, Cancelled)]), sid, all);
      }
    }
  }

  lemma PutDueKeeps(m: State, sid: SessionId, s: Session, all: seq<Request>)
    requires Verbatim(m, all) && sid in m.sessions && s.queued == m.sessions[sid].queued
    ensures Verbatim(Due(Put(m, sid, s), sid), all)
  {
    DueKeeps(Put(m, sid, s), sid, all);
  }

  lemma SettleKeeps(m: State, p: Pending, a: nat, ok: bool, created: Option<SessionId>, all: seq<Request>)
    requires Verbatim(m, all)
    ensures Verbatim(Settle(m, p, a, ok, created), all)
  {
    var verb := if p.HostPending? then p.request.verb else Prompt;
    var sid := if p.HostPending? then p.request.session else Some(p.session);
    if sid.Some? && sid.value in m.sessions {
      var s := m.sessions[sid.value];
      if verb.Close? && !ok {
        PutDueKeeps(m, sid.value, s.(closing := false), all);
      } else if verb.Prompt? {
        PutDueKeeps(m, sid.value, s.(hostPrompts := s.hostPrompts - {a},
                                     peerPrompt := if s.peerPrompt == Some(a) then None else s.peerPrompt), all);
      }
    }
  }

  lemma ReplyKeeps(m: State, a: nat, ok: bool, created: Option<SessionId>, all: seq<Request>)
    requires Verbatim(m, all)
    ensures Verbatim(EngineReply(m, a, ok, created), all)
  {
    if a in m.pending {
      var p := m.pending[a];
      var m1 := Forget(m, a);
      var m2 := if p.HostPending?
                then m1.(engineOwes := m1.engineOwes + [Answer(p.request, EngineAnswer(a))])
                else m1;
      SettleKeeps(m2, p, a, ok, created, all);
    }
  }

  lemma FinishKeeps(m: State, all: seq<Request>)
    requires Verbatim(m, all) && m.claims != [] && m.hand.Some?
    ensures Verbatim(Finish(m), all)
  {
    var sid := m.claims[0];
    var m0 := m.(claims := m.claims[1..], hand := None);
    if sid in m.sessions {
      var m1 := Release(m0, sid, m.hand.value);
      assert Verbatim(m1, all);
      var s := m1.sessions[sid];
      DueKeeps(Flush(Put(m1, sid, s.(cancelClaim := false, deferred := [])), s.deferred), sid, all);
    }
  }

  lemma ArriveKeeps(m: State, r: Request, all: seq<Request>)
    requires Verbatim(m, all) && r.serial == |all|
    ensures Verbatim(Arrive(m, r.id), all + [r]) && Arrived(all + [r], r)
  {
    assert forall x :: Arrived(all, x) ==> Arrived(all + [r], x);
  }

  lemma PromptKeeps(m: State, id: RpcId, sid: SessionId, all: seq<Request>)
    requires Verbatim(m, all)
    ensures Verbatim(HostPrompt(m, id, sid), all + [Request(|all|, id, Prompt, Some(sid))])
  {
    var r := Request(|all|, id, Prompt, Some(sid));
    ArriveKeeps(m, r, all);
    var m1 := Track(Arrive(m, id), sid);
    assert Verbatim(m1, all + [r]);
    SubmitKeeps(m1, sid, r, all + [r]);
  }

  lemma IssueKeeps(m: State, r: Request, all: seq<Request>)
    requires Verbatim(m, all) && Arrived(all, r)
    ensures Verbatim(Allocate(m, HostPending(r)), all)
  {
  }

  lemma CallKeeps(m: State, id: RpcId, verb: Verb, sid: Option<SessionId>, all: seq<Request>)
    requires Verbatim(m, all)
    ensures Verbatim(HostCall(m, id, verb, sid), all + [Request(|all|, id, verb, sid)])
  {
    var r := Request(|all|, id, verb, sid);
    ArriveKeeps(m, r, all);
    IssueKeeps(Arrive(m, id), r, all + [r]);
  }

  lemma VerbatimStep(m: State, e: Step, before: seq<Step>)
    requires Verbatim(m, Arrivals(before)) && Enabled(m, e)
    ensures Verbatim(Apply(m, e), Arrivals(before + [e]))
  {
    assert (before + [e])[..|before|] == before;
    var all := Arrivals(before);
    match e
    case PromptArrives(id, sid) => PromptKeeps(m, id, sid, all);
    case CallArrives(id, verb, sid) => CallKeeps(m, id, verb, sid, all);
    case EngineAnswers(a, ok, created) => ReplyKeeps(m, a, ok, created, all);
    case DeliveryFinishes => FinishKeeps(m, all);
    case _ =>
  }

  lemma {:induction false} StaysVerbatim(steps: seq<Step>, states: seq<State>, k: nat)
    requires Run(steps, states) && k <= |steps|
    ensures Verbatim(states[k], Arrivals(steps[..k]))
  {
    if k > 0 {
      StaysVerbatim(steps, states, k - 1);
      assert Stepped(states[k - 1], steps[k - 1], states[k]);
      assert steps[..k] == steps[..k - 1] + [steps[k - 1]];
      VerbatimStep(states[k - 1], steps[k - 1], steps[..k - 1]);
    }
  }

  // -- the results --------------------------------------------------------------------------------------

  /** Every request that the engine was ever given is one that arrived, with its own
      id, verb and session. */
  lemma RequestsReachTheEngineAsTheyArrived(steps: seq<Step>, states: seq<State>, k: nat, i: nat)
    requires Run(steps, states) && k <= |steps| && i < |states[k].engine| && states[k].engine[i].HostRequest?
    ensures states[k].engine[i].request.serial < |Arrivals(steps[..k])|
    ensures Arrivals(steps[..k])[states[k].engine[i].request.serial] == states[k].engine[i].request
  {
    StaysVerbatim(steps, states, k);
    StaysWellFormed(steps, states, k);
    assert FrameOk(states[k], states[k].engine[i]);
  }

  /** Every reply to the host carries the id that the answered request arrived with. */
  lemma RepliesCarryTheArrivedId(steps: seq<Step>, states: seq<State>, k: nat, i: nat)
    requires Run(steps, states) && k <= |steps| && i < |states[k].host| && states[k].host[i].Reply?
    ensures states[k].host[i].serial < |Arrivals(steps[..k])|
    ensures states[k].host[i].id == Arrivals(steps[..k])[states[k].host[i].serial].id
  {
    StaysVerbatim(steps, states, k);
    StaysWellFormed(steps, states, k);
    assert ReplyOk(states[k], states[k].host[i]);
  }

  // -- what becomes of one frame ---------------------------------------------------------------------------

  /** A prompt of this session would have to wait. */
  predicate MustWait(m: State, sid: SessionId) {
    sid in m.sessions && (m.sessions[sid].peerPrompt.Some? || m.sessions[sid].claiming || m.sessions[sid].queued != [])
  }

  predicate Closing(m: State, sid: SessionId) { sid in m.sessions && m.sessions[sid].closing }

  /** A prompt is refused exactly if its session is closing, four prompts already wait
      before it, or the engine does not admit it; otherwise it waits last, or goes to
      the engine as the next frame. */
  lemma PromptFate(steps: seq<Step>, states: seq<State>, k: nat)
    requires Run(steps, states) && k < |steps| && steps[k].PromptArrives?
    ensures (
      var m, n, sid := states[k], states[k + 1], steps[k].sid;
      var r := Request(|m.requests|, steps[k].id, Prompt, Some(sid));
      var full := MustWait(m, sid) && |m.sessions[sid].queued| >= 4;
      && sid in n.sessions
      && (Closing(m, sid) || full || (!MustWait(m, sid) && !Admits(m)) ==>
            n.hostOwes == [Reply(r.serial, r.id, Refused)] && n.engine == m.engine
            && n.sessions[sid].queued == (if sid in m.sessions then m.sessions[sid].queued else []))
      && (!Closing(m, sid) && MustWait(m, sid) && !full ==>
            n.hostOwes == [] && n.engine == m.engine && n.sessions[sid].queued == m.sessions[sid].queued + [r])
      && (!Closing(m, sid) && !MustWait(m, sid) && Admits(m) ==>
            n.hostOwes == [] && n.engine == m.engine + [HostRequest(NextId(m), r)]
            && n.sessions[sid].queued == [] && NextId(m) in n.sessions[sid].hostPrompts))
  {
    assert Stepped(states[k], steps[k], states[k + 1]);
  }

  /** Any other request: a close of a claimed session is held for the end of the claim,
      everything else goes to the engine as the next frame or is refused. */
  lemma CallFate(steps: seq<Step>, states: seq<State>, k: nat)
    requires Run(steps, states) && k < |steps| && steps[k].CallArrives?
    ensures (
      var m, n, sid := states[k], states[k + 1], steps[k].callSession;
      var r := Request(|m.requests|, steps[k].callId, steps[k].verb, sid);
      var closes := steps[k].verb.Close? && sid.Some? && sid.value in m.sessions;
      && (closes ==> sid.value in n.sessions && n.sessions[sid.value].closing)
      && (if closes && m.sessions[sid.value].claiming then
            n.hostOwes == [] && n.engine == m.engine
            && n.sessions[sid.value].deferred == m.sessions[sid.value].deferred + [HostRequest(NextId(m), r)]
          else if Admits(m) then n.hostOwes == [] && n.engine == m.engine + [HostRequest(NextId(m), r)]
          else n.hostOwes == [Reply(r.serial, r.id, Refused)] && n.engine == m.engine))
  {
    assert Stepped(states[k], steps[k], states[k + 1]);
  }

  lemma SettleOwes(m: State, p: Pending, a: nat, ok: bool, created: Option<SessionId>)
    ensures |m.engineOwes| <= |Settle(m, p, a, ok, created).engineOwes|
    ensures Settle(m, p, a, ok, created).engineOwes[..|m.engineOwes|] == m.engineOwes
  {
    var verb := if p.HostPending? then p.request.verb else Prompt;
    var sid := if p.HostPending? then p.request.session else Some(p.session);
    if sid.Some? && sid.value in m.sessions {
      var s := m.sessions[sid.value];
      DueOwes(Put(m, sid.value, s.(closing := false)), sid.value);
      DueOwes(Put(m, sid.value, s.(hostPrompts := s.hostPrompts - {a},
                                   peerPrompt := if s.peerPrompt == Some(a) then None else s.peerPrompt)), sid.value);
    }
  }

  lemma {:induction false} DueOwes(m: State, sid: SessionId)
    requires sid in m.sessions
    ensures Due(m, sid).engineOwes == m.engineOwes
    decreases |m.sessions[sid].queued|
  {
    var s := m.sessions[sid];
    if !s.Busy() && s.queued != [] {
      var m1 := Put(m, sid, s.(queued := s.queued[1..]));
      var m2 := Submit(m1, sid, s.queued[0]);
      if !Admits(m1) { DueOwes(m2.(host := m2.host + [Answer(s.queued[0], Cancelled)]), sid); }
    }
  }

  /** The engine's answer to a pending host request is forwarded under the request's own
      id, before anything else; an answer to anything else is not. */
  lemma AnswerFate(steps: seq<Step>, states: seq<State>, k: nat)
    requires Run(steps, states) && k < |steps| && steps[k].EngineAnswers?
    ensures (
      var m, n, a := states[k], states[k + 1], steps[k].adapter;
      && a !in n.pending
      && (if a in m.pending && m.pending[a].HostPending?
          then |n.engineOwes| > 0 && n.engineOwes[0] == Reply(m.pending[a].request.serial, m.pending[a].request.id, EngineAnswer(a))
          else a !in m.pending ==> n == m))
  {
    assert Stepped(states[k], steps[k], states[k + 1]);
    var m, a := states[k], steps[k].adapter;
    if a in m.pending {
      var p := m.pending[a];
      var m1 := Forget(m, a);
      var m2 := if p.HostPending?
                then m1.(engineOwes := m1.engineOwes + [Answer(p.request, EngineAnswer(a))])
                else m1;
      SettleOwes(m2, p, a, steps[k].ok, steps[k].created);
      StaysWellFormed(steps, states, k);
      SettleForgets(m2, p, a, steps[k].ok, steps[k].created);
    }
  }

  lemma {:induction false} DueForgets(m: State, sid: SessionId, a: nat)
    requires sid in m.sessions && a !in m.pending && a <= |m.issued|
    ensures a !in Due(m, sid).pending
    decreases |m.sessions[sid].queued|
  {
    var s := m.sessions[sid];
    if !s.Busy() && s.queued != [] {
      var m1 := Put(m, sid, s.(queued := s.queued[1..]));
      var m2 := Submit(m1, sid, s.queued[0]);
      if !Admits(m1) { DueForgets(m2.(host := m2.host + [Answer(s.queued[0], Cancelled)]), sid, a); }
    }
  }

  lemma SettleForgets(m: State, p: Pending, a: nat, ok: bool, created: Option<SessionId>)
    requires a !in m.pending && a <= |m.issued|
    ensures a !in Settle(m, p, a, ok, created).pending
  {
    var verb := if p.HostPending? then p.request.verb else Prompt;
    var sid := if p.HostPending? then p.request.session else Some(p.session);
    if sid.Some? && sid.value in m.sessions {
      var s := m.sessions[sid.value];
      DueForgets(Put(m, sid.value, s.(closing := false)), sid.value, a);
      DueForgets(Put(m, sid.value, s.(hostPrompts := s.hostPrompts - {a},
                                      peerPrompt := if s.peerPrompt == Some(a) then None else s.peerPrompt)), sid.value, a);
    }
  }

  lemma {:induction false} RefusedPromotion(m: State, sid: SessionId)
    requires sid in m.sessions && !m.sessions[sid].Busy() && !Admits(m)
    ensures (
      var s, n := m.sessions[sid], Due(m, sid);
      && sid in n.sessions && n.engine == m.engine && n.sessions[sid].queued == []
      && n.host == m.host + CancelAll(s.queued))
    decreases |m.sessions[sid].queued|
  {
    var s := m.sessions[sid];
    if s.queued != [] {
      var r := s.queued[0];
      var m2 := Submit(Put(m, sid, s.(queued := s.queued[1..])), sid, r);
      RefusedPromotion(m2.(host := m2.host + [Answer(r, Cancelled)]), sid);
      assert [Answer(r, Cancelled)] + CancelAll(s.queued[1..]) == CancelAll(s.queued);
    }
  }

  /** Promotion: an idle session's oldest waiting prompt goes to the engine as its next
      frame; if the engine admits nothing, every waiting prompt is answered as
      cancelled, oldest first. */
  lemma PromotionFate(m: State, sid: SessionId)
    requires sid in m.sessions && !m.sessions[sid].Busy()
    ensures (
      var s, n := m.sessions[sid], Due(m, sid);
      && sid in n.sessions
      && (s.queued != [] && Admits(m) ==>
            n.engine == m.engine + [HostRequest(NextId(m), s.queued[0])] && n.host == m.host
            && n.sessions[sid].queued == s.queued[1..] && n.sessions[sid].hostPrompts == {NextId(m)})
      && (!Admits(m) ==>
            n.engine == m.engine && n.sessions[sid].queued == [] && n.host == m.host + CancelAll(s.queued)))
  {
    if !Admits(m) { RefusedPromotion(m, sid); }
  }

  lemma {:induction false} DueKeepsClosing(m: State, sid: SessionId)
    requires sid in m.sessions
    ensures sid in Due(m, sid).sessions && Due(m, sid).sessions[sid].closing == m.sessions[sid].closing
    ensures Due(m, sid).sessions.Keys == m.sessions.Keys
    decreases |m.sessions[sid].queued|
  {
    var s := m.sessions[sid];
    if !s.Busy() && s.queued != [] {
      var m1 := Put(m, sid, s.(queued := s.queued[1..]));
      var m2 := Submit(m1, sid, s.queued[0]);
      if !Admits(m1) { DueKeepsClosing(m2.(host := m2.host + [Answer(s.queued[0], Cancelled)]), sid); }
    }
  }

  /** What an answer does to sessions: a created or loaded one is tracked; a close that
      failed leaves its session open again; a confirmed one deletes it and cancels what
      waited. */
  lemma AnswerSettlesTheSession(steps: seq<Step>, states: seq<State>, k: nat)
    requires Run(steps, states) && k < |steps| && steps[k].EngineAnswers? && steps[k].adapter in states[k].pending
    requires states[k].pending[steps[k].adapter].HostPending?
    ensures (
      var m, n, r := states[k], states[k + 1], states[k].pending[steps[k].adapter].request;
      && (r.verb.New? && steps[k].created.Some? ==> n.sessions.Keys == m.sessions.Keys + {steps[k].created.value})
      && (r.verb.Load? && r.session.Some? && steps[k].ok ==> n.sessions.Keys == m.sessions.Keys + {r.session.value})
      && (r.verb.Close? && r.session.Some? && r.session.value in m.sessions ==>
            if steps[k].ok then
              n.sessions.Keys == m.sessions.Keys - {r.session.value}
              && n.engineOwes == [Reply(r.serial, r.id, EngineAnswer(steps[k].adapter))]
                                 + CancelAll(m.sessions[r.session.value].queued)
            else r.session.value in n.sessions && !n.sessions[r.session.value].closing))
  {
    assert Stepped(states[k], steps[k], states[k + 1]);
    var m, r := states[k], states[k].pending[steps[k].adapter].request;
    if r.verb.Close? && r.session.Some? && r.session.value in m.sessions && !steps[k].ok {
      var m1 := Forget(m, steps[k].adapter);
      var m2 := m1.(engineOwes := m1.engineOwes + [Answer(r, EngineAnswer(steps[k].adapter))]);
      DueKeepsClosing(Put(m2, r.session.value, m2.sessions[r.session.value].(closing := false)), r.session.value);
    }
  }
}
