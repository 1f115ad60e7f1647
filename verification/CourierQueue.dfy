/**
 * The courier's in-memory queue: bodies waiting for a consumer, the staged
 * events whose helper notice is still in flight, and the record of events
 * already handed onward.
 */
module CourierQueue {
  import opened Collections
  import opened HookFrames

  const DEFAULT_CAPACITY := 32
  const RETIRED_EVENT_LIMIT := 8 * DEFAULT_CAPACITY

  datatype Item = Item(message: Message, at: int)

  /** `unresolved`: staged events whose notice is in flight; `handedOff`: those of
      them whose body already left through a dispatch; `retired`: events handed
      onward, oldest first. */
  datatype Queue = Queue(pending: seq<Item>, unresolved: set<string>, handedOff: set<string>, retired: seq<string>)

  const EmptyQueue := Queue([], {}, {}, [])

  // -- the ordered dictionary of bodies -----------------------------------------------------

  predicate Holds(items: seq<Item>, id: string) {
    exists i :: 0 <= i < |items| && items[i].message.id == id
  }

  predicate Distinct(items: seq<Item>) {
    forall i, j :: 0 <= i < j < |items| ==> items[i].message.id != items[j].message.id
  }

  function Find(items: seq<Item>, id: string): (i: nat)
    requires Holds(items, id)
    ensures i < |items| && items[i].message.id == id
    decreases |items|
  {
    if items[0].message.id == id then 0
    else
      assert Holds(items[1..], id) by {
        var i :| 0 <= i < |items| && items[i].message.id == id;
        assert items[1..][i - 1] == items[i];
      }
      1 + Find(items[1..], id)
  }

  function Without(items: seq<Item>, id: string): (r: seq<Item>)
    ensures forall x :: x in r <==> x in items && x.message.id != id
    ensures |r| <= |items|
    decreases |items|
  {
    if items == [] then []
    else if items[0].message.id == id then Without(items[1..], id)
    else [items[0]] + Without(items[1..], id)
  }

  lemma {:induction false} WithoutDistinct(items: seq<Item>, id: string)
    requires Distinct(items)
    ensures Distinct(Without(items, id))
    ensures Holds(items, id) ==> |Without(items, id)| == |items| - 1
    ensures !Holds(items, id) ==> Without(items, id) == items
    decreases |items|
  {
    if items != [] {
      var rest := items[1..];
      assert forall i :: 0 <= i < |rest| ==> rest[i] == items[i + 1];
      WithoutDistinct(rest, id);
      var r := Without(rest, id);
      assert Holds(items, id) <==> items[0].message.id == id || Holds(rest, id) by {
        if Holds(items, id) && items[0].message.id != id {
          var i := Find(items, id);
          assert rest[i - 1] == items[i];
        }
      }
      if items[0].message.id == id {
        assert !Holds(rest, id);
      } else {
        forall i | 0 <= i < |r| ensures r[i].message.id != items[0].message.id {
          assert r[i] in rest;
        }
      }
    }
  }

  lemma WithoutHolds(items: seq<Item>, id: string)
    ensures !Holds(Without(items, id), id)
    ensures forall other :: other != id ==> (Holds(Without(items, id), other) <==> Holds(items, other))
  {
    var r := Without(items, id);
    forall i | 0 <= i < |r| ensures r[i].message.id != id { assert r[i] in r; }
    forall other | other != id ensures Holds(r, other) <==> Holds(items, other) {
      if Holds(r, other) {
        var i :| 0 <= i < |r| && r[i].message.id == other;
        assert r[i] in items;
      }
      if Holds(items, other) {
        var i :| 0 <= i < |items| && items[i].message.id == other;
        assert items[i] in r;
      }
    }
  }

  /** x stands before y. */
  predicate Before(items: seq<Item>, x: Item, y: Item) {
    exists a, b :: 0 <= a < b < |items| && items[a] == x && items[b] == y
  }

  /** What is left stands in the order it had. */
  predicate KeepsOrder(r: seq<Item>, items: seq<Item>) {
    forall i, j :: 0 <= i < j < |r| ==> Before(items, r[i], r[j])
  }

  lemma BeforeInTail(items: seq<Item>, x: Item, y: Item)
    requires items != []
    ensures Before(items[1..], x, y) ==> Before(items, x, y)
    ensures x == items[0] && y in items[1..] ==> Before(items, x, y)
  {
    if Before(items[1..], x, y) {
      var a, b :| 0 <= a < b < |items[1..]| && items[1..][a] == x && items[1..][b] == y;
      assert items[a + 1] == x && items[b + 1] == y;
    }
    if x == items[0] && y in items[1..] {
      var b :| 0 <= b < |items[1..]| && items[1..][b] == y;
      assert items[0] == x && items[b + 1] == y;
    }
  }

  lemma {:induction false} WithoutKeepsOrder(items: seq<Item>, id: string)
    ensures KeepsOrder(Without(items, id), items)
    decreases |items|
  {
    if items != [] {
      var r, left := Without(items, id), Without(items[1..], id);
      WithoutKeepsOrder(items[1..], id);
      forall i, j | 0 <= i < j < |r| ensures Before(items, r[i], r[j]) {
        BeforeInTail(items, r[i], r[j]);
        if r == left { assert Before(items[1..], left[i], left[j]); }
        else if i > 0 { assert Before(items[1..], left[i - 1], left[j - 1]); }
        else { assert left[j - 1] in items[1..]; }
      }
    }
  }

  lemma OrderIsKeptOn(r: seq<Item>, middle: seq<Item>, items: seq<Item>)
    requires KeepsOrder(r, middle) && KeepsOrder(middle, items)
    ensures KeepsOrder(r, items)
  {
    forall i, j | 0 <= i < j < |r| ensures Before(items, r[i], r[j]) {
      assert Before(middle, r[i], r[j]);
      var a, b :| 0 <= a < b < |middle| && middle[a] == r[i] && middle[b] == r[j];
      assert Before(items, middle[a], middle[b]);
    }
  }

  lemma {:induction false} WithoutAllKeepsOrder(items: seq<Item>, ids: seq<string>)
    ensures KeepsOrder(WithoutAll(items, ids), items)
    decreases |ids|
  {
    if ids != [] {
      var init := WithoutAll(items, ids[..|ids| - 1]);
      WithoutAllKeepsOrder(items, ids[..|ids| - 1]);
      WithoutKeepsOrder(init, ids[|ids| - 1]);
      OrderIsKeptOn(WithoutAll(items, ids), init, items);
    }
  }

  function WithoutAll(items: seq<Item>, ids: seq<string>): seq<Item>
    decreases |ids|
  {
    if ids == [] then items else Without(WithoutAll(items, ids[..|ids| - 1]), ids[|ids| - 1])
  }

  // -- the record of handed-on events ---------------------------------------------------------

  function Drop(ids: seq<string>, id: string): (r: seq<string>)
    ensures forall x :: x in r <==> x in ids && x != id
    ensures |r| <= |ids| && (id in ids ==> |r| < |ids|)
    decreases |ids|
  {
    if ids == [] then [] else if ids[0] == id then Drop(ids[1..], id) else [ids[0]] + Drop(ids[1..], id)
  }

  /** The newest entries within the bound, most recent last. */
  function Retired(retired: seq<string>, id: string): (r: seq<string>)
    ensures id in r
    ensures |r| <= RETIRED_EVENT_LIMIT
    ensures forall x :: x in r ==> x == id || x in retired
    ensures |retired| < RETIRED_EVENT_LIMIT ==> forall x :: x in retired ==> x in r
  {
    var all := Drop(retired, id) + [id];
    if |all| <= RETIRED_EVENT_LIMIT then all
    else
      var newest := all[|all| - RETIRED_EVENT_LIMIT..];
      assert newest[RETIRED_EVENT_LIMIT - 1] == id;
      newest
  }

  function RetiredAll(retired: seq<string>, ids: seq<string>): (r: seq<string>)
    ensures forall x :: x in r ==> x in ids || x in retired
    decreases |ids|
  {
    if ids == [] then retired else Retired(RetiredAll(retired, ids[..|ids| - 1]), ids[|ids| - 1])
  }

  // -- admission ----------------------------------------------------------------------------------

  datatype Placed = Invalid | Already | Conflicting | NoRoom | Queued

  function Place(q: Queue, m: Message, now: int, capacity: nat): (Queue, Placed) {
    if !Queueable(m) then (q, Invalid)
    else if Holds(q.pending, m.id) then
      (q, if q.pending[Find(q.pending, m.id)].message.body == m.body then Already else Conflicting)
    else if |q.pending| >= capacity then (q, NoRoom)
    else (q.(pending := q.pending + [Item(m, now)], retired := Drop(q.retired, m.id)), Queued)
  }

  /** A helper courier also marks what it queued as unresolved. */
  function Stage(q: Queue, m: Message, now: int, capacity: nat): (Queue, Placed) {
    var (placed, result) := Place(q, m, now, capacity);
    (if result.Queued? then placed.(unresolved := placed.unresolved + {m.id}) else placed, result)
  }

  /** How the notice to the helper came back. */
  datatype Notice = Noticed | NoticeRefused | NoticeUncertain

  datatype Report = Accepted | Rejected | Unknown

  /** The end of a staged accept, under the lock again. */
  function Settle(q: Queue, id: string, notice: Notice): (Queue, Report) {
    var left := id in q.handedOff;
    var cleared := q.(handedOff := q.handedOff - {id}, unresolved := q.unresolved - {id});
    match notice
    case Noticed => (cleared, Accepted)
    case NoticeRefused =>
      if left then (cleared, Unknown) else (cleared.(pending := Without(cleared.pending, id)), Rejected)
    case NoticeUncertain => (cleared, Unknown)
  }

  // -- handing out ----------------------------------------------------------------------------------

  function Dispatch(q: Queue, id: string): (Queue, Option<string>) {
    if !Holds(q.pending, id) then (q, None)
    else
      (if id in q.unresolved then q.(handedOff := q.handedOff + {id}) else q,
       Some(q.pending[Find(q.pending, id)].message.body))
  }

  predicate NoRepeats(ids: seq<string>) { forall i, j :: 0 <= i < j < |ids| ==> ids[i] != ids[j] }

  predicate MayAcknowledge(q: Queue, ids: seq<string>) {
    NoRepeats(ids) && (forall i :: 0 <= i < |ids| ==> Holds(q.pending, ids[i]))
  }

  function Acknowledged(q: Queue, ids: seq<string>): Queue {
    if MayAcknowledge(q, ids)
    then q.(pending := WithoutAll(q.pending, ids), retired := RetiredAll(q.retired, ids))
    else q
  }

  datatype EventState = HandedOff | Pending | Unseen

  function Inspected(q: Queue, id: string): EventState {
    if id in q.handedOff || id in q.retired then HandedOff
    else if Holds(q.pending, id) then Pending
    else Unseen
  }

  lemma {:induction false} WithoutAllMembers(items: seq<Item>, ids: seq<string>)
    ensures forall x :: x in WithoutAll(items, ids) <==> x in items && x.message.id !in ids
    decreases |ids|
  {
    if ids != [] {
      var init, last := ids[..|ids| - 1], ids[|ids| - 1];
      WithoutAllMembers(items, init);
      assert ids == init + [last];
    }
  }

  lemma {:induction false} WithoutAllDistinct(items: seq<Item>, ids: seq<string>)
    requires Distinct(items)
    ensures Distinct(WithoutAll(items, ids))
    ensures |WithoutAll(items, ids)| <= |items|
    decreases |ids|
  {
    if ids != [] {
      WithoutAllDistinct(items, ids[..|ids| - 1]);
      WithoutDistinct(WithoutAll(items, ids[..|ids| - 1]), ids[|ids| - 1]);
    }
  }

  /** An acknowledgement is all or nothing: either it is refused and nothing
      changed, or exactly the named events left the queue, the others keep their
      place, and the newest of them are on record. */
  lemma AcknowledgeIsAllOrNothing(q: Queue, ids: seq<string>)
    requires Distinct(q.pending)
    ensures !MayAcknowledge(q, ids) ==> Acknowledged(q, ids) == q
    ensures MayAcknowledge(q, ids) ==>
      forall x :: x in Acknowledged(q, ids).pending <==> x in q.pending && x.message.id !in ids
    ensures MayAcknowledge(q, ids) && ids != [] ==> Inspected(Acknowledged(q, ids), ids[|ids| - 1]).HandedOff?
    ensures Distinct(Acknowledged(q, ids).pending) && KeepsOrder(Acknowledged(q, ids).pending, q.pending)
  {
    WithoutAllKeepsOrder(q.pending, ids);
    WithoutAllMembers(q.pending, ids);
    WithoutAllDistinct(q.pending, ids);
  }

  /** Acknowledging exactly a peeked prefix leaves exactly the rest. */
  lemma {:induction false} AcknowledgePrefix(items: seq<Item>, n: nat)
    requires Distinct(items) && n <= |items|
    ensures WithoutAll(items, seq(n, i requires 0 <= i < n => items[i].message.id)) == items[n..]
    decreases n
  {
    if n > 0 {
      var ids := seq(n, i requires 0 <= i < n => items[i].message.id);
      assert ids[..n - 1] == seq(n - 1, i requires 0 <= i < n - 1 => items[i].message.id);
      AcknowledgePrefix(items, n - 1);
      var rest := items[n - 1..];
      assert rest[0] == items[n - 1] && rest[1..] == items[n..];
      forall i | 0 <= i < |items[n..]| ensures items[n..][i].message.id != items[n - 1].message.id {
        assert items[n..][i] == items[n + i];
      }
      assert !Holds(items[n..], items[n - 1].message.id);
      assert Distinct(items[n..]) by { assert forall i :: 0 <= i < |items[n..]| ==> items[n..][i] == items[n + i]; }
      WithoutDistinct(items[n..], items[n - 1].message.id);
    }
  }

  // -- the courier object ------------------------------------------------------------------------------

  function Messages(items: seq<Item>): seq<Message> { seq(|items|, i requires 0 <= i < |items| => items[i].message) }

  class CodexCourier {
    const generation: string
    const capacity: nat
    var pending: seq<Item>
    var unresolved: set<string>
    var handedOff: set<string>
    var retired: seq<string>

    ghost predicate Valid()
      reads this
    {
      && Uuid(generation) && 0 < capacity <= DEFAULT_CAPACITY
      && |pending| <= capacity && Distinct(pending)
      && (forall i :: 0 <= i < |pending| ==> Queueable(pending[i].message))
      && |retired| <= RETIRED_EVENT_LIMIT
    }

    function State(): Queue
      reads this
    {
      Queue(pending, unresolved, handedOff, retired)
    }

    constructor (generation: string, capacity: nat)
      requires Uuid(generation) && 0 < capacity <= DEFAULT_CAPACITY
      ensures Valid() && State() == EmptyQueue && this.generation == generation && this.capacity == capacity
    {
      this.generation, this.capacity := generation, capacity;
      pending, unresolved, handedOff, retired := [], {}, {}, [];
    }

    /** Admission without a provider queue: hooks will take the body later. */
    method Accept(m: Message, now: int) returns (placed: Placed)
      requires Valid()
      modifies this
      ensures Valid()
      ensures (State(), placed) == Place(old(State()), m, now, capacity)
    {
      if !Queueable(m) { return Invalid; }
      if Holds(pending, m.id) {
        if pending[Find(pending, m.id)].message.body != m.body { return Conflicting; }
        return Already;
      }
      if |pending| >= capacity { return NoRoom; }
      pending := pending + [Item(m, now)];
      retired := Drop(retired, m.id);
      placed := Queued;
    }

    /** The part of a helper accept that runs before the notice is sent. */
    method BeginAccept(m: Message, now: int) returns (placed: Placed)
      requires Valid()
      modifies this
      ensures Valid()
      ensures (State(), placed) == Stage(old(State()), m, now, capacity)
    {
      placed := Accept(m, now);
      if placed.Queued? { unresolved := unresolved + {m.id}; }
    }

    /** The part that runs after the notice came back, for a newly staged event. */
    method EndAccept(id: string, notice: Notice) returns (report: Report)
      requires Valid()
      modifies this
      ensures Valid()
      ensures (State(), report) == Settle(old(State()), id, notice)
    {
      var left := id in handedOff;
      handedOff := handedOff - {id};
      unresolved := unresolved - {id};
      if notice.Noticed? { return Accepted; }
      if !left && !notice.NoticeUncertain? {
        WithoutDistinct(pending, id);
        forall i | 0 <= i < |Without(pending, id)| ensures Queueable(Without(pending, id)[i].message) {
          assert Without(pending, id)[i] in pending;
        }
        pending := Without(pending, id);
      }
      return if left || notice.NoticeUncertain? then Unknown else Rejected;
    }

    method NativeDispatch(id: string) returns (body: Option<string>)
      requires Valid()
      modifies this`handedOff
      ensures Valid()
      ensures (State(), body) == Dispatch(old(State()), id)
    {
      if !Holds(pending, id) { return None; }
      if id in unresolved { handedOff := handedOff + {id}; }
      return Some(pending[Find(pending, id)].message.body);
    }

    /** The oldest whole messages that fit one response; never an error here. */
    method Peek() returns (ms: seq<Message>)
      requires Valid()
      ensures LongestFitting(generation, Messages(pending), ms)
      ensures pending != [] ==> ms != []
    {
      if pending != [] { OneFits(generation, pending[0].message); }
      var peeked := HookFrames.Peek(generation, Messages(pending));
      ms := peeked.value;
    }

    method Retire(id: string)
      requires Valid()
      modifies this`retired
      ensures Valid() && retired == Retired(old(retired), id)
    {
      retired := Drop(retired, id) + [id];
      ghost var all := retired;
      while |retired| > RETIRED_EVENT_LIMIT
        invariant |retired| <= |all| && retired == all[|all| - |retired|..]
        invariant |all| > RETIRED_EVENT_LIMIT ==> |retired| >= RETIRED_EVENT_LIMIT
        invariant |all| <= RETIRED_EVENT_LIMIT ==> retired == all
        decreases |retired|
      {
        retired := retired[1..];
      }
    }

    method Acknowledge(ids: seq<string>) returns (ok: bool)
      requires Valid()
      modifies this`pending, this`retired
      ensures Valid()
      ensures ok <==> MayAcknowledge(old(State()), ids)
      ensures State() == Acknowledged(old(State()), ids)
    {
      if !MayAcknowledge(State(), ids) { return false; }
      ghost var before := pending;
      for k := 0 to |ids|
        invariant Valid()
        invariant pending == WithoutAll(before, ids[..k])
        invariant retired == RetiredAll(old(retired), ids[..k])
      {
        assert ids[..k + 1][..k] == ids[..k];
        WithoutDistinct(pending, ids[k]);
        forall i | 0 <= i < |Without(pending, ids[k])| ensures Queueable(Without(pending, ids[k])[i].message) {
          assert Without(pending, ids[k])[i] in pending;
        }
        pending := Without(pending, ids[k]);
        Retire(ids[k]);
      }
      assert ids[..|ids|] == ids;
      return true;
    }

    /** A body-free view: what is known of one event, and the age of the oldest body. */
    method Inspect(id: string, now: int) returns (state: EventState, count: nat, age: Option<nat>)
      requires Valid()
      ensures state == Inspected(State(), id) && count == |pending|
      ensures age.None? <==> pending == []
      ensures age.Some? ==> (forall i :: 0 <= i < |pending| ==> now - pending[i].at <= age.value)
      ensures age.Some? ==> exists i :: 0 <= i < |pending| && age.value == (if now < pending[i].at then 0 else now - pending[i].at)
    {
      state := if id in handedOff || id in retired then HandedOff else if Holds(pending, id) then Pending else Unseen;
      count := |pending|;
      if pending == [] { return state, count, None; }
      var oldest := 0;
      for k := 1 to |pending|
        invariant 0 <= oldest < |pending|
        invariant forall i :: 0 <= i < k ==> pending[oldest].at <= pending[i].at
      {
        if pending[k].at < pending[oldest].at { oldest := k; }
      }
      age := Some(if now < pending[oldest].at then 0 else now - pending[oldest].at);
    }
  }
}
