/**
 * The helper courier together with the program's own consumers of it: native
 * dispatch tools that take a body, claim the event durably, and only then
 * acknowledge it. Any number of them run at once and may die at any point.
 */
module CourierNative {
  import opened Collections
  import opened HookFrames
  import opened CourierQueue
  import opened CourierHandoff

  /** `Taken`: the body was handed to the tool; `Claimed`: the durable claim is its own. */
  datatype Tool = Taken(id: string) | Claimed(id: string)

  datatype Native = Native(helper: Helper, claims: set<string>, tools: map<nat, Tool>)

  datatype Act =
    | Courier(step: CourierHandoff.Step)
    | ToolDispatches(starting: nat, id: string)
    | ToolClaims(claiming: nat)
    | ToolAcks(acking: nat)
    | ToolDies(dying: nat)

  predicate May(n: Native, a: Act) {
    match a
    case Courier(s) => (s.Accepts? || s.NoticeReturns?) && CourierHandoff.Enabled(n.helper, s)
    case ToolDispatches(t, id) => t !in n.tools
    case ToolClaims(t) => t in n.tools && n.tools[t].Taken?
    case ToolAcks(t) => t in n.tools && n.tools[t].Claimed?
    case ToolDies(t) => t in n.tools
  }

  /** What the courier sees of an act. */
  function Seen(n: Native, a: Act): Option<CourierHandoff.Step>
    requires May(n, a)
  {
    match a
    case Courier(s) => Some(s)
    case ToolDispatches(_, id) => Some(Dispatches(id))
    case ToolAcks(t) => Some(Acknowledges([n.tools[t].id]))
    case _ => None
  }

  function Do(n: Native, a: Act): Native
    requires May(n, a)
  {
    var helper := if Seen(n, a).Some? then CourierHandoff.Apply(n.helper, Seen(n, a).value) else n.helper;
    match a
    case Courier(_) => n.(helper := helper)
    case ToolDispatches(t, id) =>
      n.(helper := helper, tools := if Holds(n.helper.queue.pending, id) then n.tools[t := Taken(id)] else n.tools)
    case ToolClaims(t) =>
      var id := n.tools[t].id;
      if id in n.claims then n.(tools := n.tools - {t})
      else n.(claims := n.claims + {id}, tools := n.tools[t := Claimed(id)])
    case ToolAcks(t) => n.(helper := helper, tools := n.tools - {t})
    case ToolDies(t) => n.(tools := n.tools - {t})
  }

  predicate Goes(n: Native, acts: seq<Act>, end: Native)
    decreases |acts|
  {
    if acts == [] then n == end else May(n, acts[0]) && Goes(Do(n, acts[0]), acts[1..], end)
  }

  function Begin(capacity: nat): Native { Native(CourierHandoff.Start(capacity), {}, map[]) }

  // -- the discipline is kept -------------------------------------------------------------------

  /** The body is still queued and was handed out since it was admitted. */
  ghost predicate OutAndQueued(h: Helper, id: string) { Holds(h.queue.pending, id) && HandedSince(h.log, id) }

  predicate SameClaim(t: Tool, u: Tool) { t.Claimed? && u.Claimed? && t.id == u.id }

  ghost predicate ToolsOk(n: Native) {
    && (forall t :: t in n.tools && (n.tools[t].Claimed? || n.tools[t].id !in n.claims) ==> OutAndQueued(n.helper, n.tools[t].id))
    && (forall t :: t in n.tools && n.tools[t].Claimed? ==> n.tools[t].id in n.claims)
    && (forall t, u :: t in n.tools && u in n.tools && SameClaim(n.tools[t], n.tools[u]) ==> t == u)
  }

  ghost predicate Kept(n: Native) { CourierHandoff.Inv(n.helper) && ToolsOk(n) && DispatchThenAck(n.helper.log) }

  lemma DisciplineGrows(log: seq<Event>, e: Event)
    requires DispatchThenAck(log)
    requires e.Acked? ==> forall k :: 0 <= k < |e.ids| ==> HandedSince(log, e.ids[k])
    ensures DispatchThenAck(log + [e])
  {
    var more := log + [e];
    assert forall i :: 0 <= i <= |log| ==> more[..i] == log[..i];
    assert log[..|log|] == log;
  }

  /** A body that is out stays queued while accepts come and go: it is neither
      admitted again nor retracted. */
  lemma CourierActKeeps(n: Native, s: CourierHandoff.Step)
    requires Kept(n) && May(n, Courier(s))
    ensures Kept(Do(n, Courier(s)))
  {
    var h, g := n.helper, CourierHandoff.Apply(n.helper, s);
    var e := g.log[|h.log|];
    assert g.log == h.log + [e];
    DisciplineGrows(h.log, e);
    if s.Accepts? { StepAccepts(h, s.message, s.now); } else { StepNoticeReturns(h, s.notice); }
    forall id | OutAndQueued(h, id) ensures OutAndQueued(g, id) {
      LogGrows(h.log, e, id);
      if s.Accepts? {
        var i := Find(h.queue.pending, id);
        assert g.queue.pending[i].message.id == id;
      } else {
        WithoutHolds(h.queue.pending, h.inflight.value);
      }
    }
  }

  lemma DispatchActKeeps(n: Native, t: nat, id: string)
    requires Kept(n) && May(n, ToolDispatches(t, id))
    ensures Kept(Do(n, ToolDispatches(t, id)))
  {
    var h, g := n.helper, CourierHandoff.Apply(n.helper, Dispatches(id));
    var e := g.log[|h.log|];
    assert g.log == h.log + [e];
    DisciplineGrows(h.log, e);
    StepDispatches(h, id);
    forall other ensures OutAndQueued(h, other) ==> OutAndQueued(g, other) { LogGrows(h.log, e, other); }
    LogGrows(h.log, e, id);
  }

  lemma AckLeavesOthers(h: Helper, id: string, other: string)
    requires Distinct(h.queue.pending) && OutAndQueued(h, other) && other != id
    ensures OutAndQueued(CourierHandoff.Apply(h, Acknowledges([id])), other)
  {
    var g := CourierHandoff.Apply(h, Acknowledges([id]));
    AcknowledgeIsAllOrNothing(h.queue, [id]);
    LogGrows(h.log, g.log[|h.log|], other);
    var x := h.queue.pending[Find(h.queue.pending, other)];
    assert x in h.queue.pending && x.message.id !in [id];
    assert x in g.queue.pending;
  }

  /** Only the one claimer acknowledges, so nobody else's body is taken away. */
  lemma AckActKeeps(n: Native, t: nat)
    requires Kept(n) && May(n, ToolAcks(t))
    ensures Kept(Do(n, ToolAcks(t)))
  {
    var id := n.tools[t].id;
    var h, g := n.helper, CourierHandoff.Apply(n.helper, Acknowledges([id]));
    var e := g.log[|h.log|];
    assert g.log == h.log + [e];
    assert OutAndQueued(h, id);
    DisciplineGrows(h.log, e);
    StepAcknowledges(h, [id]);
    forall other | other != id && OutAndQueued(h, other) ensures OutAndQueued(g, other) { AckLeavesOthers(h, id, other); }
  }

  lemma {:induction false} GoesKeeps(n: Native, acts: seq<Act>, end: Native)
    requires Kept(n) && Goes(n, acts, end)
    ensures Kept(end)
    decreases |acts|
  {
    if acts != [] {
      match acts[0] {
        case Courier(s) => CourierActKeeps(n, s);
        case ToolDispatches(t, id) => DispatchActKeeps(n, t, id);
        case ToolAcks(t) => AckActKeeps(n, t);
        case _ =>
      }
      GoesKeeps(Do(n, acts[0]), acts[1..], end);
    }
  }

  // -- the results --------------------------------------------------------------------------------

  /** With the program's own consumers, in every run: a rejected accept finds its body
      still queued, handed to nobody and acknowledged by nobody, and removes it. */
  lemma NativeRejectionIsComplete(capacity: nat, acts: seq<Act>, n: Native)
    requires Goes(Begin(capacity), acts, n) && n.helper.inflight.Some?
    ensures (
      var id := n.helper.inflight.value;
      var (q, report) := Settle(n.helper.queue, id, NoticeRefused);
      report.Rejected? ==>
        && Holds(n.helper.queue.pending, id) && !HandedSince(n.helper.log, id) && !AckedSince(n.helper.log, id)
        && !Holds(q.pending, id))
  {
    GoesKeeps(Begin(capacity), acts, n);
    AckedOnlyIfHanded(n.helper.log, n.helper.inflight.value);
    WithoutHolds(n.helper.queue.pending, n.helper.inflight.value);
  }

  /** Every event ever acknowledged had been dispatched since it was admitted, and
      inspection says "handed off" only of dispatched events. */
  lemma NativeAcksFollowDispatches(capacity: nat, acts: seq<Act>, n: Native, id: string)
    requires Goes(Begin(capacity), acts, n)
    ensures DispatchThenAck(n.helper.log)
    ensures Inspected(n.helper.queue, id).HandedOff? ==> HandedSince(n.helper.log, id)
  {
    GoesKeeps(Begin(capacity), acts, n);
    AckedOnlyIfHanded(n.helper.log, id);
  }

  /** At most one tool ever claims an event, so at most one acknowledges it. */
  lemma OneClaimerPerEvent(capacity: nat, acts: seq<Act>, n: Native, t: nat, u: nat)
    requires Goes(Begin(capacity), acts, n) && t in n.tools && u in n.tools
    requires n.tools[t].Claimed? && n.tools[u].Claimed? && n.tools[t].id == n.tools[u].id
    ensures t == u
  {
    GoesKeeps(Begin(capacity), acts, n);
  }

  lemma {:induction false} GoesOn(n: Native, a: Act, rest: seq<Act>, end: Native)
    requires May(n, a) && Goes(Do(n, a), rest, end)
    ensures Goes(n, [a] + rest, end)
  {
    assert ([a] + rest)[1..] == rest;
  }

  /** From every state in which an unclaimed event waits, a tool can take its body, claim
      it and acknowledge it; the body it took is the one that waited. */
  lemma WaitingEventCanBeTaken(n: Native, t: nat, id: string)
    requires Holds(n.helper.queue.pending, id) && id !in n.claims && t !in n.tools
    ensures exists end :: (
      && Goes(n, [ToolDispatches(t, id), ToolClaims(t), ToolAcks(t)], end)
      && end.claims == n.claims + {id} && end.tools == n.tools
      && end.helper.queue.pending == Acknowledged(n.helper.queue, [id]).pending
      && end.helper.log == n.helper.log
           + [Handed(Message(id, n.helper.queue.pending[Find(n.helper.queue.pending, id)].message.body)), Acked([id])])
  {
    var q := n.helper.queue;
    var n1 := Do(n, ToolDispatches(t, id));
    var n2 := Do(n1, ToolClaims(t));
    var n3 := Do(n2, ToolAcks(t));
    assert MayAcknowledge(n2.helper.queue, [id]) && n2.helper.queue.pending == q.pending;
    assert n3.tools == n.tools;
    GoesOn(n2, ToolAcks(t), [], n3);
    GoesOn(n1, ToolClaims(t), [ToolAcks(t)], n3);
    GoesOn(n, ToolDispatches(t, id), [ToolClaims(t), ToolAcks(t)], n3);
    assert [ToolAcks(t)] + [] == [ToolAcks(t)] && [ToolClaims(t)] + [ToolAcks(t)] == [ToolClaims(t), ToolAcks(t)];
    assert [ToolDispatches(t, id)] + [ToolClaims(t), ToolAcks(t)] == [ToolDispatches(t, id), ToolClaims(t), ToolAcks(t)];
  }

  /** A tool whose event is claimed already goes away with nothing; one that dies leaves
      its claim behind. */
  lemma LateToolGetsNothing(n: Native, t: nat)
    requires t in n.tools
    ensures n.tools[t].Taken? && n.tools[t].id in n.claims ==>
      May(n, ToolClaims(t)) && Do(n, ToolClaims(t)) == n.(tools := n.tools - {t})
    ensures May(n, ToolDies(t)) && Do(n, ToolDies(t)) == n.(tools := n.tools - {t})
  {
  }

  /** The courier's own steps are those of the helper. */
  lemma CourierStepsAreTheHelpers(n: Native, s: CourierHandoff.Step)
    requires (s.Accepts? && n.helper.inflight.None?) || (s.NoticeReturns? && n.helper.inflight.Some?)
    ensures May(n, Courier(s)) && Do(n, Courier(s)) == n.(helper := CourierHandoff.Apply(n.helper, s))
  {
  }
}
