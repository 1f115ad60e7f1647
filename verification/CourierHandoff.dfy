/**
 * A helper courier in every interleaving: one accept at a time sends its notice
 * outside the lock, while dispatches and acknowledgements keep arriving.
 */
module CourierHandoff {
  import opened Collections
  import opened HookFrames
  import opened CourierQueue

  datatype Event =
    | Admitted(message: Message, at: int)
    | NotAdmitted(refused: string, placed: Placed)
    | Handed(taken: Message)
    | NotHanded(missing: string)
    | Acked(ids: seq<string>)
    | AckRefused
    | Reported(id: string, report: Report)

  /** `inflight`: the staged event whose notice has not come back. The accept lock
      is held for that long, so there is at most one. */
  datatype Helper = Helper(capacity: nat, queue: Queue, inflight: Option<string>, log: seq<Event>)

  datatype Step =
    | Accepts(message: Message, now: int)
    | NoticeReturns(notice: Notice)
    | Dispatches(wanted: string)
    | Acknowledges(ids: seq<string>)

  predicate Enabled(h: Helper, s: Step) {
    match s
    case Accepts(_, _) => h.inflight.None?
    case NoticeReturns(_) => h.inflight.Some?
    case _ => true
  }

  function Apply(h: Helper, s: Step): Helper
    requires Enabled(h, s)
  {
    match s
    case Accepts(m, now) =>
      var (q, placed) := Stage(h.queue, m, now, h.capacity);
      if placed.Queued? then h.(queue := q, inflight := Some(m.id), log := h.log + [Admitted(m, now)])
      else h.(queue := q, log := h.log + [NotAdmitted(m.id, placed)])
    case NoticeReturns(notice) =>
      var id := h.inflight.value;
      var (q, report) := Settle(h.queue, id, notice);
      h.(queue := q, inflight := None, log := h.log + [Reported(id, report)])
    case Dispatches(id) =>
      var (q, body) := Dispatch(h.queue, id);
      h.(queue := q, log := h.log + [if body.Some? then Handed(Message(id, body.value)) else NotHanded(id)])
    case Acknowledges(ids) =>
      h.(queue := Acknowledged(h.queue, ids),
         log := h.log + [if MayAcknowledge(h.queue, ids) then Acked(ids) else AckRefused])
  }

  predicate Reaches(h: Helper, steps: seq<Step>, end: Helper)
    decreases |steps|
  {
    if steps == [] then h == end else Enabled(h, steps[0]) && Reaches(Apply(h, steps[0]), steps[1..], end)
  }

  function Start(capacity: nat): Helper { Helper(capacity, EmptyQueue, None, []) }

  // -- what a log says about one event since it was last admitted --------------------------------

  predicate HandedSince(log: seq<Event>, id: string)
    decreases |log|
  {
    log != [] && (
      var last := log[|log| - 1];
      if last.Admitted? && last.message.id == id then false
      else (last.Handed? && last.taken.id == id) || HandedSince(log[..|log| - 1], id))
  }

  predicate AckedSince(log: seq<Event>, id: string)
    decreases |log|
  {
    log != [] && (
      var last := log[|log| - 1];
      if last.Admitted? && last.message.id == id then false
      else (last.Acked? && id in last.ids) || AckedSince(log[..|log| - 1], id))
  }

  function LastBody(log: seq<Event>, id: string): Option<string>
    decreases |log|
  {
    if log == [] then None
    else
      var last := log[|log| - 1];
      if last.Admitted? && last.message.id == id then Some(last.message.body) else LastBody(log[..|log| - 1], id)
  }

  lemma LogGrows(log: seq<Event>, e: Event, id: string)
    ensures HandedSince(log + [e], id) ==
            if e.Admitted? && e.message.id == id then false
            else (e.Handed? && e.taken.id == id) || HandedSince(log, id)
    ensures AckedSince(log + [e], id) ==
            if e.Admitted? && e.message.id == id then false
            else (e.Acked? && id in e.ids) || AckedSince(log, id)
    ensures LastBody(log + [e], id) ==
            if e.Admitted? && e.message.id == id then Some(e.message.body) else LastBody(log, id)
  {
    assert (log + [e])[..|log|] == log;
  }

  // -- what every step keeps ---------------------------------------------------------------------

  /** The courier's own record of the in-flight event agrees with the log. */
  ghost predicate Tracks(h: Helper) {
    match h.inflight
    case None => h.queue.unresolved == {} && h.queue.handedOff == {}
    case Some(id) =>
      && h.queue.unresolved == {id}
      && h.queue.handedOff == (if HandedSince(h.log, id) then {id} else {})
      && (Holds(h.queue.pending, id) <==> !AckedSince(h.log, id))
  }

  ghost predicate Bodies(h: Helper) {
    && Distinct(h.queue.pending)
    && (forall x :: x in h.queue.pending ==> LastBody(h.log, x.message.id) == Some(x.message.body))
  }

  /** What one log entry claims, against everything logged before it. */
  ghost predicate Honest(log: seq<Event>, i: nat)
    requires i < |log|
  {
    match log[i]
    case Handed(m) => LastBody(log[..i], m.id) == Some(m.body)
    case Reported(id, Rejected) => !HandedSince(log[..i], id)
    case _ => true
  }

  ghost predicate AllHonest(log: seq<Event>) { forall i :: 0 <= i < |log| ==> Honest(log, i) }

  /** The record of handed-on events names only events acknowledged since they were
      last admitted. */
  ghost predicate Recorded(h: Helper) { forall id :: id in h.queue.retired ==> AckedSince(h.log, id) }

  ghost predicate Inv(h: Helper) { Tracks(h) && Bodies(h) && AllHonest(h.log) && Recorded(h) }

  lemma HonestGrows(log: seq<Event>, e: Event)
    requires AllHonest(log)
    requires e.Handed? ==> LastBody(log, e.taken.id) == Some(e.taken.body)
    requires e.Reported? && e.report.Rejected? ==> !HandedSince(log, e.id)
    ensures AllHonest(log + [e])
  {
    var more := log + [e];
    forall i | 0 <= i < |more| ensures Honest(more, i) {
      if i < |log| {
        assert more[..i] == log[..i];
        assert Honest(log, i);
      } else {
        assert more[..i] == log;
      }
    }
  }

  lemma StepAccepts(h: Helper, m: Message, now: int)
    requires Inv(h) && h.inflight.None?
    ensures Inv(Apply(h, Accepts(m, now)))
  {
    var after := Apply(h, Accepts(m, now));
    var e := after.log[|h.log|];
    assert after.log == h.log + [e];
    HonestGrows(h.log, e);
    forall id: string { LogGrows(h.log, e, id); }
    if e.Admitted? {
      var pending := after.queue.pending;
      assert pending == h.queue.pending + [Item(m, now)];
      assert pending[|h.queue.pending|].message.id == m.id;
      forall x | x in h.queue.pending ensures x.message.id != m.id {
        var i :| 0 <= i < |h.queue.pending| && h.queue.pending[i] == x;
      }
      assert {} + {m.id} == {m.id};
    }
  }

  lemma StepNoticeReturns(h: Helper, notice: Notice)
    requires Inv(h) && h.inflight.Some?
    ensures Inv(Apply(h, NoticeReturns(notice)))
  {
    var after := Apply(h, NoticeReturns(notice));
    var e := after.log[|h.log|];
    assert after.log == h.log + [e];
    HonestGrows(h.log, e);
    forall id: string { LogGrows(h.log, e, id); }
    WithoutDistinct(h.queue.pending, h.inflight.value);
  }

  lemma StepDispatches(h: Helper, wanted: string)
    requires Inv(h)
    ensures Inv(Apply(h, Dispatches(wanted)))
  {
    var after := Apply(h, Dispatches(wanted));
    var e := after.log[|h.log|];
    assert after.log == h.log + [e];
    if Holds(h.queue.pending, wanted) {
      assert h.queue.pending[Find(h.queue.pending, wanted)] in h.queue.pending;
    }
    HonestGrows(h.log, e);
    forall id: string { LogGrows(h.log, e, id); }
  }

  lemma StepAcknowledges(h: Helper, ids: seq<string>)
    requires Inv(h)
    ensures Inv(Apply(h, Acknowledges(ids)))
  {
    var after := Apply(h, Acknowledges(ids));
    var e := after.log[|h.log|];
    assert after.log == h.log + [e];
    HonestGrows(h.log, e);
    forall id: string { LogGrows(h.log, e, id); }
    AcknowledgeIsAllOrNothing(h.queue, ids);
    if MayAcknowledge(h.queue, ids) && h.inflight.Some? {
      var id := h.inflight.value;
      var before, left := h.queue.pending, after.queue.pending;
      assert Holds(left, id) <==> Holds(before, id) && id !in ids by {
        if Holds(left, id) { assert left[Find(left, id)] in before; }
        if Holds(before, id) && id !in ids { assert before[Find(before, id)] in left; }
      }
    }
  }

  lemma {:induction false} RunKeeps(h: Helper, steps: seq<Step>, end: Helper)
    requires Inv(h) && Reaches(h, steps, end)
    ensures Inv(end)
    decreases |steps|
  {
    if steps != [] {
      match steps[0] {
        case Accepts(m, now) => StepAccepts(h, m, now);
        case NoticeReturns(notice) => StepNoticeReturns(h, notice);
        case Dispatches(id) => StepDispatches(h, id);
        case Acknowledges(ids) => StepAcknowledges(h, ids);
      }
      RunKeeps(Apply(h, steps[0]), steps[1..], end);
    }
  }

  // -- the results ----------------------------------------------------------------------------------

  /** Whenever a notice comes back: the accept is called rejected exactly when the
      notice was refused and no dispatch took the body since this admission; then
      the body is no longer queued. A failure after a handout is always unknown. */
  lemma RejectionMeansNeverHandedOut(capacity: nat, steps: seq<Step>, h: Helper, notice: Notice)
    requires Reaches(Start(capacity), steps, h) && h.inflight.Some?
    ensures (
      var id := h.inflight.value;
      var (q, report) := Settle(h.queue, id, notice);
      && (report.Rejected? <==> notice.NoticeRefused? && !HandedSince(h.log, id))
      && (report.Unknown? <==> notice.NoticeUncertain? || (notice.NoticeRefused? && HandedSince(h.log, id)))
      && (report.Rejected? ==> !Holds(q.pending, id))
      && (report.Unknown? ==> (Holds(q.pending, id) <==> Holds(h.queue.pending, id))))
  {
    RunKeeps(Start(capacity), steps, h);
    WithoutHolds(h.queue.pending, h.inflight.value);
  }

  /** Looking back over a whole run: no rejected admission was ever handed out
      before its rejection, and every body handed out is the one admitted last
      under that id. */
  lemma WholeRunIsHonest(capacity: nat, steps: seq<Step>, h: Helper, i: nat)
    requires Reaches(Start(capacity), steps, h) && i < |h.log|
    ensures h.log[i].Reported? && h.log[i].report.Rejected? ==> !HandedSince(h.log[..i], h.log[i].id)
    ensures h.log[i].Handed? ==> LastBody(h.log[..i], h.log[i].taken.id) == Some(h.log[i].taken.body)
  {
    RunKeeps(Start(capacity), steps, h);
    assert Honest(h.log, i);
  }

  /** A rejection retracts a body that was still queued exactly when nobody
      acknowledged the event while its notice was in flight. */
  lemma RejectionRetractsTheBody(capacity: nat, steps: seq<Step>, h: Helper)
    requires Reaches(Start(capacity), steps, h) && h.inflight.Some?
    requires Settle(h.queue, h.inflight.value, NoticeRefused).1.Rejected?
    ensures Holds(h.queue.pending, h.inflight.value) <==> !AckedSince(h.log, h.inflight.value)
  {
    RunKeeps(Start(capacity), steps, h);
  }

  /** Only a dispatch leaves a trace: an acknowledgement that no dispatch preceded
      removes the body unseen, and the late refusal is then reported as a rejection
      although the body is gone. No consumer of the program sends one: the Stop hook
      turns a helper's session away and the dispatch tool dispatches first (module
      CourierNative); it takes some other client of the same user on the socket. */
  lemma UndispatchedAckIsCalledRejected(m: Message)
    requires Queueable(m)
    ensures (
      var steps := [Accepts(m, 0), Acknowledges([m.id]), NoticeReturns(NoticeRefused)];
      exists end :: Reaches(Start(1), steps, end)
        && end.log == [Admitted(m, 0), Acked([m.id]), Reported(m.id, Rejected)])
  {
    var s0 := Start(1);
    var s1 := Apply(s0, Accepts(m, 0));
    assert s1.queue.pending == [Item(m, 0)] && s1.log == [Admitted(m, 0)];
    assert s1.queue.pending[0].message.id == m.id;
    var s2 := Apply(s1, Acknowledges([m.id]));
    assert MayAcknowledge(s1.queue, [m.id]);
    assert s2.log == [Admitted(m, 0), Acked([m.id])] && s2.inflight == Some(m.id) && s2.queue.handedOff == {};
    var s3 := Apply(s2, NoticeReturns(NoticeRefused));
    assert s3.log == [Admitted(m, 0), Acked([m.id]), Reported(m.id, Rejected)];
    var n := [NoticeReturns(NoticeRefused)];
    assert n[1..] == [] && Reaches(s3, [], s3) && Reaches(s2, n, s3);
    var a := [Acknowledges([m.id])] + n;
    assert a[1..] == n && Reaches(s1, a, s3);
    var all := [Accepts(m, 0), Acknowledges([m.id]), NoticeReturns(NoticeRefused)];
    assert all[1..] == a && Reaches(s0, all, s3);
  }

  /** Inspection never overstates: "handed off" names an event whose body a dispatch or
      an acknowledgement took since it was last admitted, "pending" one still queued
      that no dispatch in flight took. */
  lemma HelperInspectIsTruthful(capacity: nat, steps: seq<Step>, h: Helper, id: string)
    requires Reaches(Start(capacity), steps, h)
    ensures Inspected(h.queue, id).HandedOff? ==> HandedSince(h.log, id) || AckedSince(h.log, id)
    ensures Inspected(h.queue, id).Pending? ==>
      Holds(h.queue.pending, id) && (h.inflight == Some(id) ==> !HandedSince(h.log, id))
    ensures h.inflight == Some(id) && HandedSince(h.log, id) ==> Inspected(h.queue, id).HandedOff?
  {
    RunKeeps(Start(capacity), steps, h);
  }

  /** Every acknowledged event had been handed out since it was admitted. */
  predicate DispatchThenAck(log: seq<Event>) {
    forall i :: 0 <= i < |log| && log[i].Acked? ==>
      forall k :: 0 <= k < |log[i].ids| ==> HandedSince(log[..i], log[i].ids[k])
  }

  lemma {:induction false} AckedOnlyIfHanded(log: seq<Event>, id: string)
    requires DispatchThenAck(log)
    ensures AckedSince(log, id) ==> HandedSince(log, id)
    decreases |log|
  {
    if log != [] {
      var init := log[..|log| - 1];
      assert forall i :: 0 <= i < |init| ==> init[i] == log[i] && init[..i] == log[..i];
      AckedOnlyIfHanded(init, id);
      var last := log[|log| - 1];
      assert log[..|log| - 1] == init;
      assert last.Acked? && id in last.ids ==> HandedSince(init, id);
    }
  }

  /** Under that discipline a rejection is complete: at that moment the body was
      still queued, no one had taken it, and the rejection removes it. */
  lemma RejectionUnderDispatchDiscipline(capacity: nat, steps: seq<Step>, h: Helper)
    requires Reaches(Start(capacity), steps, h) && h.inflight.Some? && DispatchThenAck(h.log)
    requires Settle(h.queue, h.inflight.value, NoticeRefused).1.Rejected?
    ensures Holds(h.queue.pending, h.inflight.value)
    ensures !HandedSince(h.log, h.inflight.value) && !AckedSince(h.log, h.inflight.value)
  {
    RunKeeps(Start(capacity), steps, h);
    AckedOnlyIfHanded(h.log, h.inflight.value);
  }
}
