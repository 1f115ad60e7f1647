/**
 * Any number of consumers of one courier: Stop, prompt and tool hooks and the
 * ACP inbox each peek, acknowledge what they selected, and only then emit it.
 * They interleave freely, may die at any point, and may lose the reply to an
 * acknowledgement.
 */
module CourierConsumers {
  import opened Collections
  import opened HookFrames
  import opened CourierQueue

  /** `Holding`: peeked, not yet acknowledged; `Cleared`: acknowledged, about to emit. */
  datatype Consumer = Holding(messages: seq<Message>) | Cleared(messages: seq<Message>)

  /** `accepted` is everything ever queued, `arrived` in the order it came; `lost` is
      what was acknowledged by a consumer that never emitted it. */
  datatype World = World(
    capacity: nat,
    queue: Queue,
    accepted: map<string, string>,
    consumers: map<nat, Consumer>,
    emitted: seq<Message>,
    lost: seq<Message>,
    arrived: seq<Message>)

  datatype Step =
    | Accepts(message: Message, now: int)
    | Peeks(peeking: nat, taken: nat)   // `taken`: all that fits, or only the oldest
    | Acks(acking: nat, heard: bool)    // `heard`: the reply reached the consumer
    | Emits(emitting: nat)
    | Dies(dying: nat)

  predicate Enabled(w: World, s: Step) {
    match s
    case Accepts(m, _) => m.id !in w.accepted
    case Peeks(c, n) => c !in w.consumers && 0 < n <= |w.queue.pending|
    case Acks(c, _) => c in w.consumers && w.consumers[c].Holding?
    case Emits(c) => c in w.consumers && w.consumers[c].Cleared?
    case Dies(c) => c in w.consumers
  }

  function IdsOf(ms: seq<Message>): seq<string> { seq(|ms|, i requires 0 <= i < |ms| => ms[i].id) }

  function Apply(w: World, s: Step): World
    requires Enabled(w, s)
  {
    match s
    case Accepts(m, now) =>
      var (q, placed) := Place(w.queue, m, now, w.capacity);
      if placed.Queued? then w.(queue := q, accepted := w.accepted[m.id := m.body], arrived := w.arrived + [m])
      else w.(queue := q)
    case Peeks(c, n) => w.(consumers := w.consumers[c := Holding(Messages(w.queue.pending[..n]))])
    case Acks(c, heard) =>
      var ms := w.consumers[c].messages;
      if !MayAcknowledge(w.queue, IdsOf(ms)) then w.(consumers := w.consumers - {c})
      else if heard then w.(queue := Acknowledged(w.queue, IdsOf(ms)), consumers := w.consumers[c := Cleared(ms)])
      else w.(queue := Acknowledged(w.queue, IdsOf(ms)), consumers := w.consumers - {c}, lost := w.lost + ms)
    case Emits(c) => w.(consumers := w.consumers - {c}, emitted := w.emitted + w.consumers[c].messages)
    case Dies(c) =>
      w.(consumers := w.consumers - {c},
         lost := if w.consumers[c].Cleared? then w.lost + w.consumers[c].messages else w.lost)
  }

  predicate Reaches(w: World, steps: seq<Step>, end: World)
    decreases |steps|
  {
    if steps == [] then w == end else Enabled(w, steps[0]) && Reaches(Apply(w, steps[0]), steps[1..], end)
  }

  function Start(capacity: nat): World { World(capacity, EmptyQueue, map[], map[], [], [], []) }

  // -- where an event is ----------------------------------------------------------------------------

  function CountOf(ms: seq<Message>, id: string): nat
    decreases |ms|
  {
    if ms == [] then 0 else (if ms[0].id == id then 1 else 0) + CountOf(ms[1..], id)
  }

  ghost function InHand(id: string): Consumer -> nat { (c: Consumer) => if c.Cleared? then CountOf(c.messages, id) else 0 }

  function Waiting(q: Queue, id: string): nat { if Holds(q.pending, id) then 1 else 0 }

  /** How often an event is in the queue, in an acknowledged hand, emitted or lost. */
  ghost function Places(w: World, id: string): nat {
    Waiting(w.queue, id) + SumOf(w.consumers, InHand(id)) + CountOf(w.emitted, id) + CountOf(w.lost, id)
  }

  lemma {:induction false} CountAppend(a: seq<Message>, b: seq<Message>, id: string)
    ensures CountOf(a + b, id) == CountOf(a, id) + CountOf(b, id)
    decreases |a|
  {
    if a == [] {
      assert a + b == b;
    } else {
      CountAppend(a[1..], b, id);
      assert (a + b)[1..] == a[1..] + b;
    }
  }

  lemma {:induction false} CountOnce(ms: seq<Message>, id: string)
    requires NoRepeats(IdsOf(ms))
    ensures CountOf(ms, id) == if id in IdsOf(ms) then 1 else 0
    decreases |ms|
  {
    if ms != [] {
      var ids, rest := IdsOf(ms), IdsOf(ms[1..]);
      assert forall i :: 0 <= i < |rest| ==> rest[i] == ids[i + 1];
      CountOnce(ms[1..], id);
      assert id in ids <==> id == ids[0] || id in rest by {
        if id in ids && id != ids[0] {
          var i :| 0 <= i < |ids| && ids[i] == id;
          assert rest[i - 1] == id;
        }
      }
      assert ids[0] !in rest;
    }
  }

  lemma {:induction false} CountMember(ms: seq<Message>, m: Message)
    requires m in ms
    ensures CountOf(ms, m.id) >= 1
    decreases |ms|
  {
    if ms[0] != m { CountMember(ms[1..], m); }
  }

  // -- what every step keeps ------------------------------------------------------------------------

  ghost predicate Genuine(w: World, ms: seq<Message>) {
    forall m :: m in ms ==> m.id in w.accepted && w.accepted[m.id] == m.body
  }

  ghost predicate Bodies(w: World) {
    && Distinct(w.queue.pending)
    && (forall x :: x in w.queue.pending ==> x.message.id in w.accepted && w.accepted[x.message.id] == x.message.body)
    && (forall c :: c in w.consumers ==> Genuine(w, w.consumers[c].messages) && NoRepeats(IdsOf(w.consumers[c].messages)))
    && Genuine(w, w.emitted) && Genuine(w, w.lost)
  }

  ghost predicate Conserved(w: World) {
    forall id :: Places(w, id) == if id in w.accepted then 1 else 0
  }

  /** The record of handed-on events names only events that really left. */
  ghost predicate Recorded(w: World) {
    && w.queue.handedOff == {} && w.queue.unresolved == {}
    && (forall id :: id in w.queue.retired ==> id in w.accepted && !Holds(w.queue.pending, id))
  }

  ghost predicate Inv(w: World) { Bodies(w) && Conserved(w) && Recorded(w) }

  lemma StepAccepts(w: World, m: Message, now: int)
    requires Inv(w) && m.id !in w.accepted
    ensures Inv(Apply(w, Accepts(m, now)))
  {
    var after := Apply(w, Accepts(m, now));
    var before, pending := w.queue.pending, after.queue.pending;
    if pending != before {
      assert pending == before + [Item(m, now)];
      assert forall x :: x in before ==> x.message.id != m.id;
      forall id ensures Holds(pending, id) <==> id == m.id || Holds(before, id) {
        if Holds(before, id) { assert pending[Find(before, id)].message.id == id; }
        assert pending[|before|].message.id == m.id;
      }
      forall id ensures Places(after, id) == if id in after.accepted then 1 else 0 {
        assert Places(w, id) == if id in w.accepted then 1 else 0;
      }
    } else {
      forall id ensures Places(after, id) == if id in after.accepted then 1 else 0 {
        assert Places(w, id) == if id in w.accepted then 1 else 0;
      }
    }
  }

  lemma StepPeeks(w: World, c: nat, n: nat)
    requires Inv(w) && Enabled(w, Peeks(c, n))
    ensures Inv(Apply(w, Peeks(c, n)))
  {
    var after := Apply(w, Peeks(c, n));
    var ms := Messages(w.queue.pending[..n]);
    forall m | m in ms ensures m.id in w.accepted && w.accepted[m.id] == m.body {
      var i :| 0 <= i < |ms| && ms[i] == m;
      assert w.queue.pending[i] in w.queue.pending;
    }
    forall id ensures Places(after, id) == if id in after.accepted then 1 else 0 {
      SumUpdate(w.consumers, InHand(id), c, Holding(ms));
      assert Places(w, id) == if id in w.accepted then 1 else 0;
    }
  }

  /** A consumer leaves; what it held is counted elsewhere or nowhere. */
  lemma LeavingCount(w: World, c: nat, id: string)
    requires c in w.consumers
    ensures SumOf(w.consumers, InHand(id)) == InHand(id)(w.consumers[c]) + SumOf(w.consumers - {c}, InHand(id))
  {
    SumWithout(w.consumers, InHand(id), c);
  }

  lemma StepLeaves(w: World, s: Step)
    requires Inv(w) && Enabled(w, s) && (s.Emits? || s.Dies?)
    ensures Inv(Apply(w, s))
  {
    var after := Apply(w, s);
    var c := if s.Emits? then s.emitting else s.dying;
    var ms := w.consumers[c].messages;
    forall id ensures Places(after, id) == if id in after.accepted then 1 else 0 {
      LeavingCount(w, c, id);
      CountAppend(w.emitted, ms, id);
      CountAppend(w.lost, ms, id);
      assert Places(w, id) == if id in w.accepted then 1 else 0;
    }
  }

  /** What a successful acknowledgement does to the queue, per event. */
  lemma AckMoves(w: World, ms: seq<Message>, id: string)
    requires Distinct(w.queue.pending) && MayAcknowledge(w.queue, IdsOf(ms))
    ensures Waiting(w.queue, id) == Waiting(Acknowledged(w.queue, IdsOf(ms)), id) + CountOf(ms, id)
    ensures Distinct(Acknowledged(w.queue, IdsOf(ms)).pending)
  {
    var ids := IdsOf(ms);
    var before, left := w.queue.pending, Acknowledged(w.queue, ids).pending;
    AcknowledgeIsAllOrNothing(w.queue, ids);
    CountOnce(ms, id);
    if Holds(left, id) {
      assert left[Find(left, id)] in before;
    }
    if Holds(before, id) && id !in ids {
      assert before[Find(before, id)] in left;
    }
  }

  lemma AckedQueue(w: World, ms: seq<Message>)
    requires Inv(w) && MayAcknowledge(w.queue, IdsOf(ms)) && Genuine(w, ms)
    ensures Bodies(w.(queue := Acknowledged(w.queue, IdsOf(ms))))
    ensures Recorded(w.(queue := Acknowledged(w.queue, IdsOf(ms))))
  {
    var ids := IdsOf(ms);
    var q := Acknowledged(w.queue, ids);
    AcknowledgeIsAllOrNothing(w.queue, ids);
    forall id | id in q.retired ensures id in w.accepted && !Holds(q.pending, id) {
      AckMoves(w, ms, id);
      if id in ids {
        var i :| 0 <= i < |ids| && ids[i] == id;
        assert ms[i] in ms;
        CountOnce(ms, id);
      }
    }
  }

  lemma StepAcks(w: World, c: nat, heard: bool)
    requires Inv(w) && Enabled(w, Acks(c, heard))
    ensures Inv(Apply(w, Acks(c, heard)))
  {
    var after := Apply(w, Acks(c, heard));
    var ms := w.consumers[c].messages;
    if MayAcknowledge(w.queue, IdsOf(ms)) {
      AckedQueue(w, ms);
    }
    forall id ensures Places(after, id) == if id in after.accepted then 1 else 0 {
      LeavingCount(w, c, id);
      SumUpdate(w.consumers, InHand(id), c, Cleared(ms));
      CountAppend(w.lost, ms, id);
      if MayAcknowledge(w.queue, IdsOf(ms)) { AckMoves(w, ms, id); }
      assert Places(w, id) == if id in w.accepted then 1 else 0;
    }
  }

  lemma {:induction false} RunKeeps(w: World, steps: seq<Step>, end: World)
    requires Inv(w) && Reaches(w, steps, end)
    ensures Inv(end)
    decreases |steps|
  {
    if steps != [] {
      match steps[0] {
        case Accepts(m, now) => StepAccepts(w, m, now);
        case Peeks(c, n) => StepPeeks(w, c, n);
        case Acks(c, heard) => StepAcks(w, c, heard);
        case _ => StepLeaves(w, steps[0]);
      }
      RunKeeps(Apply(w, steps[0]), steps[1..], end);
    }
  }

  // -- the order of arrival ---------------------------------------------------------------------------

  ghost predicate Earlier(arrived: seq<Message>, a: Message, b: Message) {
    exists i, j :: 0 <= i < j < |arrived| && arrived[i] == a && arrived[j] == b
  }

  ghost predicate InOrder(arrived: seq<Message>, ms: seq<Message>) {
    && (forall i :: 0 <= i < |ms| ==> ms[i] in arrived)
    && (forall i, j :: 0 <= i < j < |ms| ==> Earlier(arrived, ms[i], ms[j]))
  }

  /** Arrivals have their own ids, and the queue and every hand are in their order. */
  ghost predicate Ordered(w: World) {
    && (forall i :: 0 <= i < |w.arrived| ==> w.arrived[i].id in w.accepted)
    && (forall i, j :: 0 <= i < j < |w.arrived| ==> w.arrived[i].id != w.arrived[j].id)
    && InOrder(w.arrived, Messages(w.queue.pending))
    && (forall c :: c in w.consumers ==> InOrder(w.arrived, w.consumers[c].messages))
  }

  lemma ArrivalKeepsOrder(arrived: seq<Message>, ms: seq<Message>, m: Message)
    requires InOrder(arrived, ms)
    ensures InOrder(arrived + [m], ms) && InOrder(arrived + [m], ms + [m])
  {
    var more := arrived + [m];
    forall i, j | 0 <= i < j < |ms| ensures Earlier(more, ms[i], ms[j]) {
      assert Earlier(arrived, ms[i], ms[j]);
      var a, b :| 0 <= a < b < |arrived| && arrived[a] == ms[i] && arrived[b] == ms[j];
      assert more[a] == ms[i] && more[b] == ms[j];
    }
    forall i | 0 <= i < |ms| ensures Earlier(more, ms[i], m) {
      var a :| 0 <= a < |arrived| && arrived[a] == ms[i];
      assert more[a] == ms[i] && more[|arrived|] == m;
    }
  }

  lemma RemovalKeepsOrder(arrived: seq<Message>, items: seq<Item>, left: seq<Item>)
    requires InOrder(arrived, Messages(items)) && KeepsOrder(left, items) && (forall x :: x in left ==> x in items)
    ensures InOrder(arrived, Messages(left))
  {
    forall i | 0 <= i < |left| ensures left[i].message in arrived {
      assert left[i] in items;
      var a :| 0 <= a < |items| && items[a] == left[i];
      assert Messages(items)[a] in arrived;
    }
    forall i, j | 0 <= i < j < |left| ensures Earlier(arrived, left[i].message, left[j].message) {
      assert Before(items, left[i], left[j]);
      var a, b :| 0 <= a < b < |items| && items[a] == left[i] && items[b] == left[j];
      assert Earlier(arrived, Messages(items)[a], Messages(items)[b]);
    }
  }

  lemma AcceptKeepsOrder(w: World, m: Message, now: int)
    requires Ordered(w) && Enabled(w, Accepts(m, now))
    ensures Ordered(Apply(w, Accepts(m, now)))
  {
    var after := Apply(w, Accepts(m, now));
    if after.arrived != w.arrived {
      assert Messages(after.queue.pending) == Messages(w.queue.pending) + [m];
      ArrivalKeepsOrder(w.arrived, Messages(w.queue.pending), m);
      forall c | c in after.consumers ensures InOrder(after.arrived, after.consumers[c].messages) {
        ArrivalKeepsOrder(w.arrived, w.consumers[c].messages, m);
      }
    }
  }

  lemma StepKeepsOrder(w: World, s: Step)
    requires Ordered(w) && Distinct(w.queue.pending) && Enabled(w, s)
    ensures Ordered(Apply(w, s))
  {
    match s
    case Accepts(m, now) => AcceptKeepsOrder(w, m, now);
    case Acks(c, _) =>
      var ids := IdsOf(w.consumers[c].messages);
      AcknowledgeIsAllOrNothing(w.queue, ids);
      if MayAcknowledge(w.queue, ids) { RemovalKeepsOrder(w.arrived, w.queue.pending, Acknowledged(w.queue, ids).pending); }
    case Peeks(_, n) =>
      var ms, all := Messages(w.queue.pending[..n]), Messages(w.queue.pending);
      assert forall i :: 0 <= i < |ms| ==> ms[i] == all[i];
    case _ =>
  }

  lemma {:induction false} RunKeepsOrder(w: World, steps: seq<Step>, end: World)
    requires Inv(w) && Ordered(w) && Reaches(w, steps, end)
    ensures Ordered(end)
    decreases |steps|
  {
    if steps != [] {
      StepKeepsOrder(w, steps[0]);
      assert [steps[0]][1..] == [];
      RunKeeps(w, [steps[0]], Apply(w, steps[0]));
      RunKeepsOrder(Apply(w, steps[0]), steps[1..], end);
    }
  }

  // -- the results -------------------------------------------------------------------------------------

  /** Every accepted event is in exactly one place: still queued, in the hand of
      the one consumer that acknowledged it, emitted, or lost with its consumer. */
  lemma EveryEventInOnePlace(capacity: nat, steps: seq<Step>, w: World, id: string)
    requires Reaches(Start(capacity), steps, w)
    ensures Places(w, id) == if id in w.accepted then 1 else 0
  {
    RunKeeps(Start(capacity), steps, w);
  }

  /** Each event is emitted at most once, and only with the body accepted for it. */
  lemma EmittedAtMostOnce(capacity: nat, steps: seq<Step>, w: World)
    requires Reaches(Start(capacity), steps, w)
    ensures forall id :: CountOf(w.emitted, id) <= 1
    ensures forall m :: m in w.emitted ==>
      m.id in w.accepted && w.accepted[m.id] == m.body && !Holds(w.queue.pending, m.id)
  {
    RunKeeps(Start(capacity), steps, w);
    forall id ensures CountOf(w.emitted, id) <= 1 {
      assert Places(w, id) <= 1;
    }
    forall m | m in w.emitted ensures !Holds(w.queue.pending, m.id) {
      CountMember(w.emitted, m);
      assert Places(w, m.id) <= 1;
    }
  }

  /** Inspection never overstates: "handed off" names an event a consumer really
      took, "pending" one that is really queued. */
  lemma InspectIsTruthful(capacity: nat, steps: seq<Step>, w: World, id: string)
    requires Reaches(Start(capacity), steps, w)
    ensures Inspected(w.queue, id).HandedOff? ==>
      SumOf(w.consumers, InHand(id)) + CountOf(w.emitted, id) + CountOf(w.lost, id) == 1
    ensures Inspected(w.queue, id).Pending? <==> Holds(w.queue.pending, id)
  {
    RunKeeps(Start(capacity), steps, w);
    assert Places(w, id) == if id in w.accepted then 1 else 0;
  }

  /** Of two consumers that peeked a common event, the one acknowledging second
      is refused whole: it gets nothing, also none of its other events. */
  lemma TheSecondConsumerGetsNothing(capacity: nat, steps: seq<Step>, w: World, first: nat, second: nat, id: string)
    requires Reaches(Start(capacity), steps, w)
    requires first != second && Enabled(w, Acks(first, true)) && Enabled(w, Acks(second, true))
    requires MayAcknowledge(w.queue, IdsOf(w.consumers[first].messages))
    requires id in IdsOf(w.consumers[first].messages) && id in IdsOf(w.consumers[second].messages)
    ensures (
      var between := Apply(w, Acks(first, true));
      var after := Apply(between, Acks(second, true));
      second !in after.consumers && after.queue == between.queue
        && after.emitted == between.emitted && after.lost == between.lost)
  {
    RunKeeps(Start(capacity), steps, w);
    var ms := w.consumers[first].messages;
    AckMoves(w, ms, id);
    CountOnce(ms, id);
    var between := Apply(w, Acks(first, true));
    assert !Holds(between.queue.pending, id);
    var ids := IdsOf(w.consumers[second].messages);
    var i :| 0 <= i < |ids| && ids[i] == id;
    assert !MayAcknowledge(between.queue, ids);
  }

  /** In every run the queue is in the order of arrival, and so is every batch that a
      consumer holds. */
  lemma HandedOverInOrderOfArrival(capacity: nat, steps: seq<Step>, w: World)
    requires Reaches(Start(capacity), steps, w)
    ensures InOrder(w.arrived, Messages(w.queue.pending))
    ensures forall c :: c in w.consumers ==> InOrder(w.arrived, w.consumers[c].messages)
  {
    RunKeepsOrder(Start(capacity), steps, w);
  }

  /** What a peek takes arrived before everything that it leaves. */
  lemma PeekTakesTheOldest(capacity: nat, steps: seq<Step>, w: World, c: nat, n: nat, j: nat)
    requires Reaches(Start(capacity), steps, w) && Enabled(w, Peeks(c, n)) && n <= j < |w.queue.pending|
    ensures |Apply(w, Peeks(c, n)).consumers[c].messages| == n
    ensures forall i :: 0 <= i < n ==>
      Earlier(w.arrived, Apply(w, Peeks(c, n)).consumers[c].messages[i], w.queue.pending[j].message)
  {
    RunKeepsOrder(Start(capacity), steps, w);
    var all := Messages(w.queue.pending);
    forall i | 0 <= i < n
      ensures Earlier(w.arrived, Apply(w, Peeks(c, n)).consumers[c].messages[i], w.queue.pending[j].message)
    {
      assert Earlier(w.arrived, all[i], all[j]);
    }
  }
}
