/**
 * What a helper courier's queue holds, told from its log alone: exactly the
 * admissions that nobody acknowledged and no rejection retracted since, oldest
 * first, each with its own body and time.
 */
module CourierOrder {
  import opened Collections
  import opened HookFrames
  import opened CourierQueue
  import opened CourierHandoff

  /** Entry i admits the event, and no later entry does. */
  ghost predicate LastAdmission(log: seq<Event>, i: nat, id: string) {
    && i < |log| && log[i].Admitted? && log[i].message.id == id
    && (forall j :: i < j < |log| && log[j].Admitted? ==> log[j].message.id != id)
  }

  /** Entry j takes the event out of the queue. */
  predicate Removes(e: Event, id: string) { (e.Acked? && id in e.ids) || (e.Reported? && e.id == id && e.report.Rejected?) }

  /** The event's last admission is i, and nothing took it out since. */
  ghost predicate Outstanding(log: seq<Event>, i: nat, id: string) {
    LastAdmission(log, i, id) && forall j :: i < j < |log| ==> !Removes(log[j], id)
  }

  ghost predicate Earlier(log: seq<Event>, a: Item, b: Item) {
    exists i: nat, j: nat :: i < j && LastAdmission(log, i, a.message.id) && LastAdmission(log, j, b.message.id)
  }

  /** The queue is what the log says, in the order the log says. */
  ghost predicate Tells(log: seq<Event>, pending: seq<Item>) {
    && (forall x :: x in pending ==> exists i: nat :: Outstanding(log, i, x.message.id) && log[i] == Admitted(x.message, x.at))
    && (forall i: nat, id :: Outstanding(log, i, id) ==> Holds(pending, id))
    && (forall a, b :: 0 <= a < b < |pending| ==> Earlier(log, pending[a], pending[b]))
  }

  ghost predicate Kept(h: Helper) { CourierHandoff.Inv(h) && Tells(h.log, h.queue.pending) }

  lemma OutstandingGrows(log: seq<Event>, e: Event, i: nat, id: string)
    requires i < |log|
    ensures LastAdmission(log + [e], i, id) <==> LastAdmission(log, i, id) && !(e.Admitted? && e.message.id == id)
    ensures Outstanding(log + [e], i, id) <==>
      Outstanding(log, i, id) && !(e.Admitted? && e.message.id == id) && !Removes(e, id)
  {
    var more := log + [e];
    assert forall j :: 0 <= j < |log| ==> more[j] == log[j];
    assert more[|log|] == e;
  }

  lemma EarlierGrows(log: seq<Event>, e: Event, a: Item, b: Item)
    requires Earlier(log, a, b) && (e.Admitted? ==> e.message.id != a.message.id && e.message.id != b.message.id)
    ensures Earlier(log + [e], a, b)
  {
    var i: nat, j: nat :| i < j && LastAdmission(log, i, a.message.id) && LastAdmission(log, j, b.message.id);
    OutstandingGrows(log, e, i, a.message.id);
    OutstandingGrows(log, e, j, b.message.id);
  }

  /** Something was queued at the end. */
  lemma AdmissionTells(log: seq<Event>, pending: seq<Item>, m: Message, now: int)
    requires Tells(log, pending) && !Holds(pending, m.id)
    ensures Tells(log + [Admitted(m, now)], pending + [Item(m, now)])
  {
    var e := Admitted(m, now);
    var more, after := log + [e], pending + [Item(m, now)];
    assert LastAdmission(more, |log|, m.id) && Outstanding(more, |log|, m.id);
    forall x | x in after ensures exists i: nat :: Outstanding(more, i, x.message.id) && more[i] == Admitted(x.message, x.at) {
      if x in pending {
        var i: nat :| Outstanding(log, i, x.message.id) && log[i] == Admitted(x.message, x.at);
        OutstandingGrows(log, e, i, x.message.id);
        assert more[i] == log[i];
      } else {
        assert more[|log|] == e;
      }
    }
    forall i: nat, id | Outstanding(more, i, id) ensures Holds(after, id) {
      if i < |log| {
        OutstandingGrows(log, e, i, id);
        assert after[Find(pending, id)].message.id == id;
      } else {
        assert after[|pending|].message.id == id;
      }
    }
    forall a, b | 0 <= a < b < |after| ensures Earlier(more, after[a], after[b]) {
      if b < |pending| {
        EarlierGrows(log, e, pending[a], pending[b]);
      } else {
        assert pending[a] in pending;
        var i: nat :| Outstanding(log, i, pending[a].message.id) && log[i] == Admitted(pending[a].message, pending[a].at);
        OutstandingGrows(log, e, i, pending[a].message.id);
      }
    }
  }

  /** Something was taken out, or nothing happened to the queue. */
  lemma RemovalTells(log: seq<Event>, pending: seq<Item>, e: Event, after: seq<Item>)
    requires Tells(log, pending) && !e.Admitted? && KeepsOrder(after, pending)
    requires forall x :: x in after <==> x in pending && !Removes(e, x.message.id)
    ensures Tells(log + [e], after)
  {
    var more := log + [e];
    forall x | x in after ensures exists i: nat :: Outstanding(more, i, x.message.id) && more[i] == Admitted(x.message, x.at) {
      var i: nat :| Outstanding(log, i, x.message.id) && log[i] == Admitted(x.message, x.at);
      OutstandingGrows(log, e, i, x.message.id);
      assert more[i] == log[i];
    }
    forall i: nat, id | Outstanding(more, i, id) ensures Holds(after, id) {
      assert i < |log|;
      OutstandingGrows(log, e, i, id);
      var x := pending[Find(pending, id)];
      assert x in after;
    }
    forall a, b | 0 <= a < b < |after| ensures Earlier(more, after[a], after[b]) {
      assert Before(pending, after[a], after[b]);
      var c, d :| 0 <= c < d < |pending| && pending[c] == after[a] && pending[d] == after[b];
      EarlierGrows(log, e, pending[c], pending[d]);
    }
  }

  lemma SameOrder(items: seq<Item>)
    ensures KeepsOrder(items, items)
  {
  }

  lemma AcceptKept(h: Helper, m: Message, now: int)
    requires Kept(h) && h.inflight.None?
    ensures (var after := CourierHandoff.Apply(h, Accepts(m, now)); Tells(after.log, after.queue.pending))
  {
    var after := CourierHandoff.Apply(h, Accepts(m, now));
    var e := after.log[|h.log|];
    assert after.log == h.log + [e];
    if e.Admitted? {
      AdmissionTells(h.log, h.queue.pending, m, now);
    } else {
      SameOrder(h.queue.pending);
      RemovalTells(h.log, h.queue.pending, e, h.queue.pending);
    }
  }

  lemma NoticeKept(h: Helper, notice: Notice)
    requires Kept(h) && h.inflight.Some?
    ensures (var after := CourierHandoff.Apply(h, NoticeReturns(notice)); Tells(after.log, after.queue.pending))
  {
    var after := CourierHandoff.Apply(h, NoticeReturns(notice));
    var e := after.log[|h.log|];
    assert after.log == h.log + [e];
    SameOrder(h.queue.pending);
    WithoutKeepsOrder(h.queue.pending, h.inflight.value);
    RemovalTells(h.log, h.queue.pending, e, after.queue.pending);
  }

  lemma AckKept(h: Helper, ids: seq<string>)
    requires Kept(h)
    ensures (var after := CourierHandoff.Apply(h, Acknowledges(ids)); Tells(after.log, after.queue.pending))
  {
    var after := CourierHandoff.Apply(h, Acknowledges(ids));
    var e := after.log[|h.log|];
    assert after.log == h.log + [e];
    SameOrder(h.queue.pending);
    AcknowledgeIsAllOrNothing(h.queue, ids);
    RemovalTells(h.log, h.queue.pending, e, after.queue.pending);
  }

  lemma DispatchKept(h: Helper, id: string)
    requires Kept(h)
    ensures (var after := CourierHandoff.Apply(h, Dispatches(id)); Tells(after.log, after.queue.pending))
  {
    var after := CourierHandoff.Apply(h, Dispatches(id));
    var e := after.log[|h.log|];
    assert after.log == h.log + [e];
    SameOrder(h.queue.pending);
    RemovalTells(h.log, h.queue.pending, e, h.queue.pending);
  }

  lemma StepKept(h: Helper, s: CourierHandoff.Step)
    requires Kept(h) && CourierHandoff.Enabled(h, s)
    ensures Tells(CourierHandoff.Apply(h, s).log, CourierHandoff.Apply(h, s).queue.pending)
  {
    match s
    case Accepts(m, now) => AcceptKept(h, m, now);
    case NoticeReturns(notice) => NoticeKept(h, notice);
    case Dispatches(id) => DispatchKept(h, id);
    case Acknowledges(ids) => AckKept(h, ids);
  }

  lemma {:induction false} RunKept(h: Helper, steps: seq<CourierHandoff.Step>, end: Helper)
    requires Kept(h) && CourierHandoff.Reaches(h, steps, end)
    ensures Kept(end)
    decreases |steps|
  {
    if steps != [] {
      StepKept(h, steps[0]);
      assert [steps[0]][1..] == [];
      CourierHandoff.RunKeeps(h, [steps[0]], CourierHandoff.Apply(h, steps[0]));
      RunKept(CourierHandoff.Apply(h, steps[0]), steps[1..], end);
    }
  }

  // -- the results -----------------------------------------------------------------------------------

  /** In every run the queue holds exactly the events whose last admission nothing took
      out again, each with the body and time of that admission, and in the order of
      those admissions; so every peeked prefix is the oldest of them, oldest first. */
  lemma QueueIsInAdmissionOrder(capacity: nat, steps: seq<CourierHandoff.Step>, h: Helper)
    requires CourierHandoff.Reaches(CourierHandoff.Start(capacity), steps, h)
    ensures forall x :: x in h.queue.pending ==>
      exists i: nat :: Outstanding(h.log, i, x.message.id) && h.log[i] == Admitted(x.message, x.at)
    ensures forall i: nat, id :: Outstanding(h.log, i, id) ==> Holds(h.queue.pending, id)
    ensures forall a, b :: 0 <= a < b < |h.queue.pending| ==> Earlier(h.log, h.queue.pending[a], h.queue.pending[b])
  {
    RunKept(CourierHandoff.Start(capacity), steps, h);
  }

  /** The admission of an event that is still queued. */
  ghost predicate Waits(log: seq<Event>, id: string, m: Message) {
    exists i: nat :: Outstanding(log, i, id) && log[i].message == m
  }

  lemma QueuedExactly(capacity: nat, steps: seq<CourierHandoff.Step>, h: Helper, id: string)
    requires CourierHandoff.Reaches(CourierHandoff.Start(capacity), steps, h)
    ensures Holds(h.queue.pending, id) <==> exists i: nat :: Outstanding(h.log, i, id)
    ensures Holds(h.queue.pending, id) ==>
      h.queue.pending[Find(h.queue.pending, id)].message.id == id
      && Waits(h.log, id, h.queue.pending[Find(h.queue.pending, id)].message)
  {
    QueueIsInAdmissionOrder(capacity, steps, h);
    if Holds(h.queue.pending, id) {
      var x := h.queue.pending[Find(h.queue.pending, id)];
      assert x in h.queue.pending;
      var i: nat :| Outstanding(h.log, i, x.message.id) && h.log[i] == Admitted(x.message, x.at);
    }
  }

  lemma OneAdmissionWaits(log: seq<Event>, id: string, m: Message, n: Message)
    requires Waits(log, id, m) && Waits(log, id, n)
    ensures m == n
  {
    var i: nat :| Outstanding(log, i, id) && log[i].message == m;
    var j: nat :| Outstanding(log, j, id) && log[j].message == n;
    assert i == j;
  }

  /** A message is refused exactly if it is out of bounds, is queued already, with the
      same text or another, or finds the queue full; otherwise it is queued. */
  lemma AcceptedExactly(capacity: nat, steps: seq<CourierHandoff.Step>, h: Helper, m: Message, now: int)
    requires CourierHandoff.Reaches(CourierHandoff.Start(capacity), steps, h) && h.inflight.None?
    ensures (
      var placed := Stage(h.queue, m, now, h.capacity).1;
      var waiting := exists n :: Waits(h.log, m.id, n);
      && h.capacity == capacity
      && (placed.Invalid? <==> !Queueable(m))
      && (placed.Already? <==> Queueable(m) && Waits(h.log, m.id, m))
      && (placed.Conflicting? <==> Queueable(m) && exists n :: Waits(h.log, m.id, n) && n.body != m.body)
      && (placed.NoRoom? <==> Queueable(m) && !waiting && |h.queue.pending| >= capacity)
      && (placed.Queued? <==> Queueable(m) && !waiting && |h.queue.pending| < capacity))
  {
    QueuedExactly(capacity, steps, h, m.id);
    SameCapacity(CourierHandoff.Start(capacity), steps, h);
    forall n | Waits(h.log, m.id, n) ensures Holds(h.queue.pending, m.id) {
      var i: nat :| Outstanding(h.log, i, m.id) && h.log[i].message == n;
    }
    if Holds(h.queue.pending, m.id) {
      var x := h.queue.pending[Find(h.queue.pending, m.id)].message;
      forall n | Waits(h.log, m.id, n) ensures n == x { OneAdmissionWaits(h.log, m.id, x, n); }
      assert x.body == m.body ==> x == m;
    }
  }

  lemma {:induction false} SameCapacity(h: Helper, steps: seq<CourierHandoff.Step>, end: Helper)
    requires CourierHandoff.Reaches(h, steps, end)
    ensures end.capacity == h.capacity
    decreases |steps|
  {
    if steps != [] { SameCapacity(CourierHandoff.Apply(h, steps[0]), steps[1..], end); }
  }

  /** A dispatch hands out the body of the waiting admission, and nothing exactly if
      there is none. */
  lemma DispatchedExactly(capacity: nat, steps: seq<CourierHandoff.Step>, h: Helper, id: string)
    requires CourierHandoff.Reaches(CourierHandoff.Start(capacity), steps, h)
    ensures Dispatch(h.queue, id).1.Some? <==> exists m :: Waits(h.log, id, m)
    ensures forall m :: Waits(h.log, id, m) ==> Dispatch(h.queue, id).1 == Some(m.body)
  {
    QueuedExactly(capacity, steps, h, id);
    forall m | Waits(h.log, id, m) ensures Dispatch(h.queue, id).1 == Some(m.body) {
      var i: nat :| Outstanding(h.log, i, id) && h.log[i].message == m;
      OneAdmissionWaits(h.log, id, m, h.queue.pending[Find(h.queue.pending, id)].message);
    }
  }

  /** An acknowledgement is accepted exactly if it names different events that all wait. */
  lemma AcknowledgedExactly(capacity: nat, steps: seq<CourierHandoff.Step>, h: Helper, ids: seq<string>)
    requires CourierHandoff.Reaches(CourierHandoff.Start(capacity), steps, h)
    ensures MayAcknowledge(h.queue, ids) <==>
      && (forall i, j :: 0 <= i < j < |ids| ==> ids[i] != ids[j])
      && (forall k :: 0 <= k < |ids| ==> IsOutstanding(h.log, ids[k]))
  {
    forall k | 0 <= k < |ids| ensures Holds(h.queue.pending, ids[k]) <==> IsOutstanding(h.log, ids[k]) {
      QueuedExactly(capacity, steps, h, ids[k]);
    }
  }

  ghost predicate IsOutstanding(log: seq<Event>, id: string) { exists i: nat :: Outstanding(log, i, id) }
}
