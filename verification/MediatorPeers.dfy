/**
 * What the engine is prompted with on behalf of a peer: exactly the events that
 * were taken from the inbox and shown to the host, each at most once, and in the
 * session they were taken for.
 */
module MediatorPeers {
  import opened Collections
  import opened MediatorModel
  import opened MediatorCustody

  function CountIf<T>(s: seq<T>, p: T -> bool): nat
    decreases |s|
  {
    if s == [] then 0 else CountIf(s[..|s| - 1], p) + (if p(s[|s| - 1]) then 1 else 0)
  }

  lemma {:induction false} CountOn<T>(s: seq<T>, t: seq<T>, p: T -> bool)
    ensures CountIf(s + t, p) == CountIf(s, p) + CountIf(t, p)
    decreases |t|
  {
    if t == [] {
      assert s + t == s;
    } else {
      assert (s + t)[..|s + t| - 1] == s + t[..|t| - 1];
      CountOn(s, t[..|t| - 1], p);
    }
  }

  lemma {:induction false} CountNone<T>(s: seq<T>, p: T -> bool)
    ensures CountIf(s, p) == 0 <==> forall i :: 0 <= i < |s| ==> !p(s[i])
    decreases |s|
  {
    if s != [] { CountNone(s[..|s| - 1], p); }
  }

  function Prompts(sid: SessionId, event: nat): EngineFrame -> bool {
    (f: EngineFrame) => f.PeerPrompt? && f.session == sid && f.event == event
  }

  function Echoes(sid: SessionId, event: nat): HostFrame -> bool { (f: HostFrame) => f == Echo(sid, event) }

  // -- steps that neither take nor submit ----------------------------------------------------------

  ghost predicate OnlyReplies(fs: seq<HostFrame>) { forall i :: 0 <= i < |fs| ==> fs[i].Reply? }

  /** Frames were added, and none of them prompts for a peer. */
  ghost predicate NoPrompt(m: State, n: State) {
    m.engine <= n.engine && forall i :: |m.engine| <= i < |n.engine| ==> !n.engine[i].PeerPrompt?
  }

  /** Nothing is prompted for a peer, nothing is echoed, and the hand stays as it is. */
  ghost predicate Plain(m: State, n: State) {
    && NoPrompt(m, n)
    && m.host <= n.host && (forall i :: |m.host| <= i < |n.host| ==> !n.host[i].Echo?)
    && n.hand == m.hand && n.claims == m.claims
    && (OnlyReplies(m.hostOwes) ==> OnlyReplies(n.hostOwes)) && (OnlyReplies(m.engineOwes) ==> OnlyReplies(n.engineOwes))
  }

  lemma PlainOn(m: State, n: State, o: State)
    requires Plain(m, n) && Plain(n, o)
    ensures Plain(m, o)
  {
    forall i | |m.engine| <= i < |o.engine| ensures !o.engine[i].PeerPrompt? {
      if i < |n.engine| { assert o.engine[i] == n.engine[i]; }
    }
    forall i | |m.host| <= i < |o.host| ensures !o.host[i].Echo? {
      if i < |n.host| { assert o.host[i] == n.host[i]; }
    }
  }

  lemma PlainFrame(m: State, f: EngineFrame)
    requires !f.PeerPrompt?
    ensures Plain(m, ToEngine(m, f))
  {
  }

  lemma PlainSubmit(m: State, sid: SessionId, r: Request)
    requires sid in m.sessions
    ensures Plain(m, Submit(m, sid, r))
  {
  }

  lemma {:induction false} PlainDue(m: State, sid: SessionId)
    requires sid in m.sessions
    ensures Plain(m, Due(m, sid))
    decreases |m.sessions[sid].queued|
  {
    var s := m.sessions[sid];
    if !s.Busy() && s.queued != [] {
      var m1 := Put(m, sid, s.(queued := s.queued[1..]));
      var m2 := Submit(m1, sid, s.queued[0]);
      PlainSubmit(m1, sid, s.queued[0]);
      PlainOn(m, m1, m2);
      if !Admits(m1) {
        var m3 := m2.(host := m2.host + [Answer(s.queued[0], Cancelled)]);
        PlainOn(m, m2, m3);
        PlainDue(m3, sid);
        PlainOn(m, m3, Due(m3, sid));
      }
    }
  }

  lemma {:induction false} PlainFlush(m: State, frames: seq<EngineFrame>)
    requires forall i :: 0 <= i < |frames| ==> !frames[i].PeerPrompt?
    ensures Plain(m, Flush(m, frames))
    decreases |frames|
  {
    if frames != [] {
      PlainFrame(m, frames[0]);
      PlainFlush(ToEngine(m, frames[0]), frames[1..]);
      PlainOn(m, ToEngine(m, frames[0]), Flush(m, frames));
    }
  }

  lemma PlainPrompt(m: State, id: RpcId, sid: SessionId)
    ensures Plain(m, HostPrompt(m, id, sid))
  {
    var r := Request(|m.requests|, id, Prompt, Some(sid));
    var m1 := Track(Arrive(m, id), sid);
    PlainSubmit(m1, sid, r);
    PlainOn(m, m1, Submit(m1, sid, r));
    PlainOn(m, Submit(m1, sid, r), Refuse(Submit(m1, sid, r), r));
  }

  lemma PlainCall(m: State, id: RpcId, verb: Verb, sid: Option<SessionId>)
    ensures Plain(m, HostCall(m, id, verb, sid))
  {
  }

  lemma PlainCancel(m: State, sid: SessionId)
    ensures Plain(m, HostCancel(m, sid))
  {
  }

  lemma PlainReply(m: State, a: nat, ok: bool, created: Option<SessionId>)
    ensures Plain(m, EngineReply(m, a, ok, created))
  {
    if a in m.pending {
      var p := m.pending[a];
      var m1 := Forget(m, a);
      var m2 := if p.HostPending?
                then m1.(engineOwes := m1.engineOwes + [Answer(p.request, EngineAnswer(a))])
                else m1;
      PlainSettle(m2, p, a, ok, created);
      PlainOn(m, m2, Settle(m2, p, a, ok, created));
    }
  }

  lemma PlainPutDue(m: State, sid: SessionId, s: Session)
    ensures Plain(m, Due(Put(m, sid, s), sid))
  {
    PlainDue(Put(m, sid, s), sid);
    PlainOn(m, Put(m, sid, s), Due(Put(m, sid, s), sid));
  }

  lemma PlainSettle(m: State, p: Pending, a: nat, ok: bool, created: Option<SessionId>)
    ensures Plain(m, Settle(m, p, a, ok, created))
  {
    var verb := if p.HostPending? then p.request.verb else Prompt;
    var sid := if p.HostPending? then p.request.session else Some(p.session);
    if sid.Some? && sid.value in m.sessions {
      var s := m.sessions[sid.value];
      if verb.Close? && !ok {
        PlainPutDue(m, sid.value, s.(closing := false));
      } else if verb.Prompt? {
        PlainPutDue(m, sid.value, s.(hostPrompts := s.hostPrompts - {a},
                                     peerPrompt := if s.peerPrompt == Some(a) then None else s.peerPrompt));
      }
    }
  }

  // -- finishing a claim ------------------------------------------------------------------------------

  /** What a finished claim puts in front of everything else it enqueues. */
  ghost predicate Prompted(m: State, n: State, sid: SessionId, event: nat)
  {
    && |m.engine| < |n.engine| && n.engine[..|m.engine|] == m.engine
    && n.engine[|m.engine|].PeerPrompt? && n.engine[|m.engine|].session == sid && n.engine[|m.engine|].event == event
    && (forall i :: |m.engine| < i < |n.engine| ==> !n.engine[i].PeerPrompt?)
  }

  /** Releasing a claim that took something prompts the engine with it exactly if the
      engine admits it, and otherwise with nothing. */
  lemma ReleasePrompts(m: State, sid: SessionId, got: Option<nat>)
    requires sid in m.sessions
    ensures (
      var n := Release(m, sid, got);
      && sid in n.sessions && n.host == m.host && n.hand == m.hand && n.claims == m.claims
      && n.hostOwes == m.hostOwes && n.engineOwes == m.engineOwes
      && n.sessions[sid].deferred == m.sessions[sid].deferred
      && (if got.Some? && Admits(m) then Prompted(m, n, sid, got.value) else Plain(m, n)))
  {
  }

  lemma PromptedThenPlain(m: State, n: State, o: State, sid: SessionId, event: nat)
    requires Prompted(m, n, sid, event) && Plain(n, o)
    ensures Prompted(m, o, sid, event)
  {
    assert o.engine[..|n.engine|] == n.engine;
    forall i | |m.engine| < i < |o.engine| ensures !o.engine[i].PeerPrompt? {
      if i < |n.engine| { assert o.engine[i] == n.engine[i]; }
    }
    assert o.engine[|m.engine|] == n.engine[|m.engine|];
    assert o.engine[..|m.engine|] == n.engine[..|m.engine|];
  }

  lemma FinishPrompts(m: State)
    requires WellFormed(m) && m.claims != [] && m.hand.Some?
    ensures (
      var n, sid := Finish(m), m.claims[0];
      && n.hand.None? && n.claims == m.claims[1..]
      && m.host <= n.host && (forall i :: |m.host| <= i < |n.host| ==> !n.host[i].Echo?)
      && (OnlyReplies(m.hostOwes) ==> OnlyReplies(n.hostOwes)) && (OnlyReplies(m.engineOwes) ==> OnlyReplies(n.engineOwes))
      && (if sid in m.sessions && m.hand.value.Some? && Admits(m) then Prompted(m, n, sid, m.hand.value.value)
          else NoPrompt(m, n)))
  {
    var sid := m.claims[0];
    var m0 := m.(claims := m.claims[1..], hand := None);
    if sid in m.sessions {
      assert SessionOk(m, sid, m.sessions[sid]);
      var m1 := Release(m0, sid, m.hand.value);
      ReleasePrompts(m0, sid, m.hand.value);
      var s := m1.sessions[sid];
      forall i | 0 <= i < |s.deferred| ensures !s.deferred[i].PeerPrompt? { assert s.deferred[i] in m.sessions[sid].deferred; }
      var x := Put(m1, sid, s.(cancelClaim := false, deferred := []));
      var m2 := Flush(x, s.deferred);
      PlainFlush(x, s.deferred);
      PlainOn(m1, x, m2);
      PlainDue(m2, sid);
      PlainOn(m1, m2, Due(m2, sid));
      if m.hand.value.Some? && Admits(m) {
        PromptedThenPlain(m0, m1, Due(m2, sid), sid, m.hand.value.value);
      } else {
        PlainOn(m0, m1, Due(m2, sid));
      }
    }
  }

  // -- over runs ----------------------------------------------------------------------------------------

  function InHand(m: State, sid: SessionId, event: nat): nat {
    if m.claims != [] && m.claims[0] == sid && m.hand == Some(Some(event)) then 1 else 0
  }

  /** Every prompt for a peer, and what is about to be one, has its own echo. */
  ghost predicate Shown(m: State) {
    && OnlyReplies(m.hostOwes) && OnlyReplies(m.engineOwes)
    && (forall sid, event ::
          CountIf(m.engine, Prompts(sid, event)) + InHand(m, sid, event) <= CountIf(m.host, Echoes(sid, event)))
  }

  lemma PlainCounts(m: State, n: State, sid: SessionId, event: nat)
    requires NoPrompt(m, n)
    ensures CountIf(n.engine, Prompts(sid, event)) == CountIf(m.engine, Prompts(sid, event))
  {
    var more := n.engine[|m.engine|..];
    assert n.engine == m.engine + more;
    CountOn(m.engine, more, Prompts(sid, event));
    CountNone(more, Prompts(sid, event));
  }

  lemma EchoCounts(m: State, n: State, sid: SessionId, event: nat)
    requires m.host <= n.host && forall i :: |m.host| <= i < |n.host| ==> !n.host[i].Echo?
    ensures CountIf(n.host, Echoes(sid, event)) == CountIf(m.host, Echoes(sid, event))
  {
    var more := n.host[|m.host|..];
    assert n.host == m.host + more;
    CountOn(m.host, more, Echoes(sid, event));
    CountNone(more, Echoes(sid, event));
  }

  lemma PromptedCounts(m: State, n: State, sid: SessionId, event: nat, t: SessionId, e: nat)
    requires Prompted(m, n, sid, event)
    ensures CountIf(n.engine, Prompts(t, e)) ==
            CountIf(m.engine, Prompts(t, e)) + (if t == sid && e == event then 1 else 0)
  {
    var first, more := n.engine[|m.engine|], n.engine[|m.engine| + 1..];
    assert n.engine == m.engine + [first] + more;
    CountOn(m.engine + [first], more, Prompts(t, e));
    CountOn(m.engine, [first], Prompts(t, e));
    CountNone(more, Prompts(t, e));
    assert [first][..0] == [];
  }

  lemma PlainKeepsShown(m: State, n: State)
    requires Shown(m) && Plain(m, n)
    ensures Shown(n)
  {
    forall sid, event
      ensures CountIf(n.engine, Prompts(sid, event)) + InHand(n, sid, event) <= CountIf(n.host, Echoes(sid, event))
    {
      PlainCounts(m, n, sid, event);
      EchoCounts(m, n, sid, event);
    }
  }

  lemma TakeKeepsShown(m: State, got: Option<nat>)
    requires Shown(m) && m.claims != [] && m.hand.None?
    ensures Shown(Take(m, got))
  {
    var n := Take(m, got);
    forall sid, event
      ensures CountIf(n.engine, Prompts(sid, event)) + InHand(n, sid, event) <= CountIf(n.host, Echoes(sid, event))
    {
      if got.Some? {
        CountOn(m.host, [Echo(m.claims[0], got.value)], Echoes(sid, event));
        assert [Echo(m.claims[0], got.value)][..0] == [];
      }
    }
  }

  lemma FinishKeepsShown(m: State)
    requires Shown(m) && WellFormed(m) && m.claims != [] && m.hand.Some?
    ensures Shown(Finish(m))
  {
    var n, head := Finish(m), m.claims[0];
    FinishPrompts(m);
    forall sid, event
      ensures CountIf(n.engine, Prompts(sid, event)) + InHand(n, sid, event) <= CountIf(n.host, Echoes(sid, event))
    {
      EchoCounts(m, n, sid, event);
      if head in m.sessions && m.hand.value.Some? && Admits(m) {
        PromptedCounts(m, n, head, m.hand.value.value, sid, event);
      } else {
        PlainCounts(m, n, sid, event);
      }
    }
  }

  lemma WritesKeepShown(m: State, e: Step)
    requires Shown(m) && Enabled(m, e) && (e.HostWrites? || e.EngineWrites? || e.EngineRelay?)
    ensures Shown(Apply(m, e))
  {
    var n := Apply(m, e);
    forall sid, event ensures CountIf(n.host, Echoes(sid, event)) == CountIf(m.host, Echoes(sid, event)) {
      EchoCounts(m, n, sid, event);
    }
  }

  lemma ShownStep(m: State, e: Step)
    requires Shown(m) && WellFormed(m) && Enabled(m, e)
    ensures Shown(Apply(m, e))
  {
    match e
    case PromptArrives(id, sid) => PlainPrompt(m, id, sid); PlainKeepsShown(m, Apply(m, e));
    case CallArrives(id, verb, sid) => PlainCall(m, id, verb, sid); PlainKeepsShown(m, Apply(m, e));
    case CancelArrives(sid) => PlainCancel(m, sid); PlainKeepsShown(m, Apply(m, e));
    case HostRelay => PlainFrame(m, Relayed); PlainKeepsShown(m, Apply(m, e));
    case EngineAnswers(a, ok, created) => PlainReply(m, a, ok, created); PlainKeepsShown(m, Apply(m, e));
    case DeliveryClaims(_) =>
    case DeliveryTakes(got) => TakeKeepsShown(m, got);
    case DeliveryFinishes => FinishKeepsShown(m);
    case RoomChanges(_) => PlainKeepsShown(m, Apply(m, e));
    case InputCloses => PlainKeepsShown(m, Apply(m, e));
    case _ => WritesKeepShown(m, e);
  }

  lemma {:induction false} StaysShown(steps: seq<Step>, states: seq<State>, k: nat)
    requires Run(steps, states) && k <= |steps|
    ensures Shown(states[k])
  {
    if k > 0 {
      StaysShown(steps, states, k - 1);
      assert Stepped(states[k - 1], steps[k - 1], states[k]);
      StaysWellFormed(steps, states, k - 1);
      ShownStep(states[k - 1], steps[k - 1]);
    }
  }

  // -- the results ------------------------------------------------------------------------------------

  /** In every reachable state the engine was prompted with an event in a session no
      more often than that event was taken for that session and shown to the host. */
  lemma PeerPromptsWereTaken(steps: seq<Step>, states: seq<State>, k: nat, sid: SessionId, event: nat)
    requires Run(steps, states) && k <= |steps|
    ensures CountIf(states[k].engine, Prompts(sid, event)) <= CountIf(states[k].host, Echoes(sid, event))
  {
    StaysShown(steps, states, k);
  }

  /** Every prompt for a peer was echoed before, for the same session and event. */
  lemma PeerPromptsWereEchoed(steps: seq<Step>, states: seq<State>, k: nat, i: nat)
    requires Run(steps, states) && k <= |steps| && i < |states[k].engine| && states[k].engine[i].PeerPrompt?
    ensures Echo(states[k].engine[i].session, states[k].engine[i].event) in states[k].host
  {
    var f, host := states[k].engine[i], states[k].host;
    PeerPromptsWereTaken(steps, states, k, f.session, f.event);
    CountNone(states[k].engine, Prompts(f.session, f.event));
    CountNone(host, Echoes(f.session, f.event));
    assert Prompts(f.session, f.event)(f);
  }

  /** What a claim took is the first thing its finish gives the engine, in its own
      session, exactly if the session is still there and the engine admits it. */
  lemma TakenEventIsSubmitted(steps: seq<Step>, states: seq<State>, k: nat)
    requires Run(steps, states) && k < |steps| && steps[k].DeliveryFinishes?
    ensures states[k].claims != [] && states[k].hand.Some?
    ensures (
      var m, n := states[k], states[k + 1];
      if m.claims[0] in m.sessions && m.hand.value.Some? && Admits(m)
      then Prompted(m, n, m.claims[0], m.hand.value.value)
      else NoPrompt(m, n))
  {
    assert Stepped(states[k], steps[k], states[k + 1]);
    StaysWellFormed(steps, states, k);
    FinishPrompts(states[k]);
  }

  /** Nothing else ever prompts the engine for a peer, and only taking echoes. */
  lemma OnlyFinishesPrompt(steps: seq<Step>, states: seq<State>, k: nat)
    requires Run(steps, states) && k < |steps| && !steps[k].DeliveryFinishes?
    ensures NoPrompt(states[k], states[k + 1])
  {
    assert Stepped(states[k], steps[k], states[k + 1]);
    var m := states[k];
    match steps[k]
    case PromptArrives(id, sid) => PlainPrompt(m, id, sid);
    case CallArrives(id, verb, sid) => PlainCall(m, id, verb, sid);
    case CancelArrives(sid) => PlainCancel(m, sid);
    case EngineAnswers(a, ok, created) => PlainReply(m, a, ok, created);
    case _ =>
  }

  /** The event in the hand is the one the inbox gave, shown at that moment. */
  lemma TakenEventIsShown(steps: seq<Step>, states: seq<State>, k: nat)
    requires Run(steps, states) && k < |steps| && steps[k].DeliveryTakes?
    ensures states[k].claims != [] && states[k + 1].claims == states[k].claims && states[k + 1].hand == Some(steps[k].got)
    ensures states[k + 1].host == states[k].host
      + (if steps[k].got.Some? then [Echo(states[k].claims[0], steps[k].got.value)] else [])
  {
    assert Stepped(states[k], steps[k], states[k + 1]);
  }
}
