/**
 * The protocol does deliver: from every world a send that may begin, to a courier
 * that is free, can be carried through to its one effect and an accepted row, and
 * an answer that asks for another attempt leads to one.
 */
module DeliveryProgress {
  import opened Collections
  import opened IntentStore
  import opened Delivery

  /** One step after another, all at one time. */
  ghost predicate Leads(w: World, steps: seq<Step>, now: Seconds, end: World)
    decreases |steps|
  {
    if steps == [] then w == end else Enabled(w, steps[0]) && Leads(Next(w, steps[0], now), steps[1..], now, end)
  }

  lemma LeadsOn(w: World, s: Step, rest: seq<Step>, now: Seconds, end: World)
    requires Enabled(w, s) && Leads(Next(w, s, now), rest, now, end)
    ensures Leads(w, [s] + rest, now, end)
  {
    assert ([s] + rest)[1..] == rest;
  }

  /** The courier of this target is free. */
  predicate Free(w: World, target: string) { target !in w.busy && target !in w.stopping }

  /** The event has exactly its one accepted row and one more effect, on its own target
      and digest. */
  ghost predicate Done(w: World, end: World, e: EventId, id: Identity, now: Seconds) {
    && end.rows == w.rows + [Intent(e, id, TransportAccepted, now)]
    && end.effects == w.effects + [Effect(e, id.target, id.digest)]
    && end.busy == w.busy && end.stopping == w.stopping
  }

  lemma LastRow(rows: Table, e: EventId, row: Intent, status: Status, now: Seconds)
    requires !HasEvent(rows, e) && row.event == e
    ensures HasEvent(rows + [row], e)
    ensures WriteStatus(rows + [row], e, status, now) == rows + [row.(status := status, timestamp := now)]
  {
    var all := rows + [row];
    assert all[|rows|].event == e;
    forall i | 0 <= i < |rows| ensures all[i].event != e { assert all[i] == rows[i]; }
  }

  // -- a local send --------------------------------------------------------------------------------

  function LocalTry(e: EventId): seq<Step> {
    [Sends(e, Writes), Couriers(e, Admits), Couriers(e, Concludes(Accepted, true)), Sends(e, Reads(false))]
  }

  /** A local sender about to write can have its effect and its accepted row. */
  lemma LocalTryCanBeAccepted(w: World, e: EventId, now: Seconds)
    requires e in w.flows && w.flows[e].reach.Local? && w.flows[e].sender.Ready? && Free(w, w.flows[e].identity.target)
    ensures exists end :: (
      var id := w.flows[e].identity;
      && Leads(w, LocalTry(e), now, end)
      && end.rows == Mark(w.rows, e, TransportAccepted, now) && end.effects == w.effects + [Effect(e, id.target, id.digest)]
      && end.busy == w.busy && end.stopping == w.stopping)
  {
    var s := LocalTry(e);
    var w1 := Next(w, s[0], now);
    var w2 := Next(w1, s[1], now);
    var w3 := Next(w2, s[2], now);
    var w4 := Next(w3, s[3], now);
    assert w3.busy == w.busy;
    LeadsOn(w3, s[3], [], now, w4);
    LeadsOn(w2, s[2], [s[3]], now, w4);
    LeadsOn(w1, s[1], [s[2]] + [s[3]], now, w4);
    LeadsOn(w, s[0], [s[1]] + ([s[2]] + [s[3]]), now, w4);
    assert [s[3]] + [] == [s[3]] && s == [s[0]] + ([s[1]] + ([s[2]] + [s[3]]));
  }

  lemma LocalSendCanBeAccepted(w: World, e: EventId, id: Identity, now: Seconds)
    requires CanBegin(w.rows, e, id) && Free(w, id.target)
    ensures exists end :: Leads(w, [Starts(e, id, Local)] + LocalTry(e), now, end) && Done(w, end, e, id, now)
  {
    var w1 := Next(w, Starts(e, id, Local), now);
    LocalTryCanBeAccepted(w1, e, now);
    LastRow(w.rows, e, Intent(e, id, Pending, now), TransportAccepted, now);
    var end :| Leads(w1, LocalTry(e), now, end)
      && end.rows == Mark(w1.rows, e, TransportAccepted, now) && end.effects == w1.effects + [Effect(e, id.target, id.digest)]
      && end.busy == w1.busy && end.stopping == w1.stopping;
    LeadsOn(w, Starts(e, id, Local), LocalTry(e), now, end);
  }

  /** A busy courier's answer, read with time left, leaves everything as before the
      attempt: it can be made again, and succeed. */
  lemma BusyLocalSendCanStillBeAccepted(w: World, e: EventId, now: Seconds)
    requires e in w.flows && w.flows[e].reach.Local? && w.flows[e].sender.Waiting? && w.flows[e].courier == Answer(Busy)
    requires Free(w, w.flows[e].identity.target)
    ensures exists end :: (
      && Leads(w, [Sends(e, Reads(true))] + LocalTry(e), now, end)
      && end.rows == Mark(w.rows, e, TransportAccepted, now)
      && end.effects == w.effects + [Effect(e, w.flows[e].identity.target, w.flows[e].identity.digest)])
  {
    var id := w.flows[e].identity;
    var w1 := Next(w, Sends(e, Reads(true)), now);
    LocalTryCanBeAccepted(w1, e, now);
    var end :| Leads(w1, LocalTry(e), now, end)
      && end.rows == Mark(w1.rows, e, TransportAccepted, now) && end.effects == w1.effects + [Effect(e, id.target, id.digest)]
      && end.busy == w1.busy && end.stopping == w1.stopping;
    LeadsOn(w, Sends(e, Reads(true)), LocalTry(e), now, end);
  }

  // -- a remote send ------------------------------------------------------------------------------------

  /** Up to the authorization by the sender's own broker. */
  function Ask(e: EventId, id: Identity): seq<Step> {
    [Sends(e, Writes), Receives(e, BrokerReads), Receives(e, Asks(id)), Receives(e, CallbackServed), Receives(e, ReadsAnswer)]
  }

  /** From there to the reply. */
  function Deliver(e: EventId): seq<Step> {
    [Receives(e, Calls), Couriers(e, Admits), Couriers(e, Concludes(Accepted, true)), Receives(e, ReadsCourier(true)),
     Sends(e, Reads(false))]
  }

  function Waits(id: Identity, receiver: Receiver): Flow {
    Flow(Remote, id, Waiting, false, receiver, NoCall, id, Idle, None)
  }

  lemma RemoteAskIsGranted(w: World, e: EventId, id: Identity, now: Seconds)
    requires e in w.flows && w.flows[e] == Flow(Remote, id, Ready, false, Absent, NoCall, id, Idle, None)
    requires Matches(w.rows, e, id)
    ensures Leads(w, Ask(e, id), now,
                  w.(flows := w.flows[e := Waits(id, Authorized)], rows := WriteStatus(w.rows, e, RemoteAuthorized, now)))
  {
    var s := Ask(e, id);
    var w1 := Next(w, s[0], now);
    var w2 := Next(w1, s[1], now);
    var w3 := Next(w2, s[2], now);
    var w4 := Next(w3, s[3], now);
    var w5 := Next(w4, s[4], now);
    assert w5.flows == w.flows[e := Waits(id, Authorized)];
    LeadsOn(w4, s[4], [], now, w5);
    LeadsOn(w3, s[3], [s[4]], now, w5);
    LeadsOn(w2, s[2], [s[3]] + [s[4]], now, w5);
    LeadsOn(w1, s[1], [s[2]] + ([s[3]] + [s[4]]), now, w5);
    LeadsOn(w, s[0], [s[1]] + ([s[2]] + ([s[3]] + [s[4]])), now, w5);
    assert [s[4]] + [] == [s[4]] && s == [s[0]] + ([s[1]] + ([s[2]] + ([s[3]] + [s[4]])));
  }

  lemma AuthorizedIsDelivered(w: World, e: EventId, id: Identity, now: Seconds)
    requires e in w.flows && w.flows[e] == Waits(id, Authorized) && Free(w, id.target)
    ensures exists end :: (
      && Leads(w, Deliver(e), now, end)
      && end.rows == Mark(w.rows, e, TransportAccepted, now) && end.effects == w.effects + [Effect(e, id.target, id.digest)]
      && end.busy == w.busy && end.stopping == w.stopping)
  {
    var s := Deliver(e);
    var w1 := Next(w, s[0], now);
    var w2 := Next(w1, s[1], now);
    var w3 := Next(w2, s[2], now);
    var w4 := Next(w3, s[3], now);
    var w5 := Next(w4, s[4], now);
    assert w3.busy == w.busy;
    LeadsOn(w4, s[4], [], now, w5);
    LeadsOn(w3, s[3], [s[4]], now, w5);
    LeadsOn(w2, s[2], [s[3]] + [s[4]], now, w5);
    LeadsOn(w1, s[1], [s[2]] + ([s[3]] + [s[4]]), now, w5);
    LeadsOn(w, s[0], [s[1]] + ([s[2]] + ([s[3]] + [s[4]])), now, w5);
    assert [s[4]] + [] == [s[4]] && s == [s[0]] + ([s[1]] + ([s[2]] + ([s[3]] + [s[4]])));
  }

  lemma {:induction false} LeadsThrough(w: World, a: seq<Step>, middle: World, b: seq<Step>, now: Seconds, end: World)
    requires Leads(w, a, now, middle) && Leads(middle, b, now, end)
    ensures Leads(w, a + b, now, end)
    decreases |a|
  {
    if a == [] {
      assert a + b == b;
    } else {
      LeadsThrough(Next(w, a[0], now), a[1..], middle, b, now, end);
      LeadsOn(w, a[0], a[1..] + b, now, end);
      assert [a[0]] + (a[1..] + b) == a + b;
    }
  }

  /** A remote send is authorized by its own row, has its effect, and is accepted. */
  lemma RemoteSendCanBeAccepted(w: World, e: EventId, id: Identity, now: Seconds)
    requires CanBegin(w.rows, e, id) && Free(w, id.target)
    ensures exists end :: Leads(w, [Starts(e, id, Remote)] + (Ask(e, id) + Deliver(e)), now, end) && Done(w, end, e, id, now)
  {
    var row := Intent(e, id, Pending, now);
    var w1 := Next(w, Starts(e, id, Remote), now);
    assert Presents(w1.rows[|w.rows|], e, id);
    RemoteAskIsGranted(w1, e, id, now);
    LastRow(w.rows, e, row, RemoteAuthorized, now);
    LastRow(w.rows, e, row.(status := RemoteAuthorized), TransportAccepted, now);
    var w2 := w1.(flows := w1.flows[e := Waits(id, Authorized)], rows := WriteStatus(w1.rows, e, RemoteAuthorized, now));
    AuthorizedIsDelivered(w2, e, id, now);
    var end :| Leads(w2, Deliver(e), now, end)
      && end.rows == Mark(w2.rows, e, TransportAccepted, now) && end.effects == w2.effects + [Effect(e, id.target, id.digest)]
      && end.busy == w2.busy && end.stopping == w2.stopping;
    LeadsThrough(w1, Ask(e, id), w2, Deliver(e), now, end);
    LeadsOn(w, Starts(e, id, Remote), Ask(e, id) + Deliver(e), now, end);
  }

  // -- every answer reaches the sender -----------------------------------------------------------------------

  /** What the sender's row says of each answer. */
  function OutcomeFor(v: Verdict): Status {
    if v.Accepted? then TransportAccepted else if v.Unknown? then UnknownDelivery else PreEffectRejected
  }

  lemma OneStep(w: World, s: Step, now: Seconds)
    requires Enabled(w, s)
    ensures Leads(w, [s], now, Next(w, s, now))
  {
    assert [s][1..] == [];
  }

  lemma TwoSteps(w: World, s: Step, t: Step, now: Seconds)
    requires Enabled(w, s) && Enabled(Next(w, s, now), t)
    ensures Leads(w, [s, t], now, Next(Next(w, s, now), t, now))
  {
    OneStep(Next(w, s, now), t, now);
    assert [s, t][1..] == [t];
  }

  /** A local sender that reads its courier's answer, with no time left, records it. */
  lemma LocalAnswerIsRecorded(w: World, e: EventId, v: Verdict, now: Seconds)
    requires e in w.flows && w.flows[e].reach.Local? && w.flows[e].sender.Waiting? && w.flows[e].courier == Answer(v)
    ensures exists end :: (
      Leads(w, [Sends(e, Reads(false))], now, end) && end.rows == Mark(w.rows, e, OutcomeFor(v), now)
      && e in end.flows && end.flows[e].sender == Ended(OutcomeFor(v)))
  {
    OneStep(w, Sends(e, Reads(false)), now);
  }

  /** A courier that has been written to may turn the message away as busy or rejected,
      or close without an answer. */
  lemma CourierMayTurnAway(w: World, e: EventId, v: Verdict, now: Seconds)
    requires e in w.flows && w.flows[e].courier.Frame? && (v.Busy? || v.Rejected?)
    ensures Enabled(w, Couriers(e, TurnsAway(v))) && Enabled(w, Couriers(e, Closes))
    ensures Next(w, Couriers(e, TurnsAway(v)), now) == w.(flows := w.flows[e := w.flows[e].(courier := Answer(v))])
    ensures Next(w, Couriers(e, Closes), now) == w.(flows := w.flows[e := w.flows[e].(courier := Idle)])
  {
  }

  /** A sender that waits may give up, which leaves its row unknown, and one that waits or
      is about to write may die, which leaves its row as it was. */
  lemma SenderMayGiveUpOrDie(w: World, e: EventId, now: Seconds)
    requires e in w.flows && (w.flows[e].sender.Waiting? || w.flows[e].sender.Ready?)
    ensures Enabled(w, Sends(e, Dies)) && Next(w, Sends(e, Dies), now).rows == w.rows
    ensures Next(w, Sends(e, Dies), now).flows[e].sender.Died?
    ensures w.flows[e].sender.Waiting? ==>
      Enabled(w, Sends(e, GivesUp)) && Next(w, Sends(e, GivesUp), now).rows == Mark(w.rows, e, UnknownDelivery, now)
    ensures w.flows[e].sender.Ready? ==>
      Enabled(w, Sends(e, CannotReach)) && Next(w, Sends(e, CannotReach), now).rows == Mark(w.rows, e, PreEffectRejected, now)
  {
  }

  /** A remote courier's answer is forwarded to the waiting sender, a busy one as a
      rejection when no time is left. */
  lemma RemoteAnswerIsForwarded(w: World, e: EventId, v: Verdict, room: bool, now: Seconds)
    requires e in w.flows && w.flows[e].reach.Remote? && w.flows[e].sender.Waiting?
    requires w.flows[e].receiver.Calling? && w.flows[e].courier == Answer(v)
    requires (v.Busy? ==> !room) && (v.Unknown? ==> room) && !v.Capacity?
    ensures exists end :: (
      Leads(w, [Receives(e, ReadsCourier(room)), Sends(e, Reads(false))], now, end)
      && end.rows == Mark(w.rows, e, OutcomeFor(v), now) && end.effects == w.effects)
  {
    TwoSteps(w, Receives(e, ReadsCourier(room)), Sends(e, Reads(false)), now);
  }

  /** An unknown answer without a diagnostic is not forwarded at all. */
  lemma UnknownMayGoUnanswered(w: World, e: EventId, now: Seconds)
    requires e in w.flows && w.flows[e].receiver.Calling? && w.flows[e].courier == Answer(Unknown)
    ensures Enabled(w, Receives(e, ReadsCourier(false)))
    ensures (
      var f := Next(w, Receives(e, ReadsCourier(false)), now).flows[e];
      f.receiver.Gone? && f.reply == w.flows[e].reply && f.courier.Idle?)
  {
  }

  /** A remote courier that was busy can be called again while there is time. */
  lemma BusyRemoteCourierIsCalledAgain(w: World, e: EventId, id: Identity, now: Seconds)
    requires e in w.flows && w.flows[e] == Waits(id, Calling).(courier := Answer(Busy)) && Free(w, id.target)
    ensures exists end :: (
      Leads(w, [Receives(e, ReadsCourier(true))] + Deliver(e), now, end)
      && end.rows == Mark(w.rows, e, TransportAccepted, now) && end.effects == w.effects + [Effect(e, id.target, id.digest)])
  {
    var w1 := Next(w, Receives(e, ReadsCourier(true)), now);
    AuthorizedIsDelivered(w1, e, id, now);
    var end :| Leads(w1, Deliver(e), now, end)
      && end.rows == Mark(w1.rows, e, TransportAccepted, now) && end.effects == w1.effects + [Effect(e, id.target, id.digest)]
      && end.busy == w1.busy && end.stopping == w1.stopping;
    LeadsOn(w, Receives(e, ReadsCourier(true)), Deliver(e), now, end);
  }

  /** A receiver that refuses, before asking or after, and one whose request was denied,
      both tell the sender, whose row then says so. */
  lemma RemoteRefusalIsRecorded(w: World, e: EventId, now: Seconds)
    requires e in w.flows && w.flows[e].reach.Remote? && w.flows[e].sender.Waiting?
    requires w.flows[e].receiver.Resolving? || w.flows[e].receiver.Authorized?
    ensures exists end :: (
      Leads(w, [Receives(e, Refuses), Sends(e, Reads(false))], now, end)
      && end.rows == Mark(w.rows, e, PreEffectRejected, now) && end.effects == w.effects
      && e in end.flows && end.flows[e].receiver.Gone?)
  {
    TwoSteps(w, Receives(e, Refuses), Sends(e, Reads(false)), now);
  }

  lemma RemoteDenialIsRecorded(w: World, e: EventId, now: Seconds)
    requires e in w.flows && w.flows[e].reach.Remote? && w.flows[e].sender.Waiting?
    requires w.flows[e].receiver.Asking? && w.flows[e].callback == Answered(false)
    ensures exists end :: (
      Leads(w, [Receives(e, ReadsAnswer), Sends(e, Reads(false))], now, end)
      && end.rows == Mark(w.rows, e, PreEffectRejected, now) && end.effects == w.effects
      && e in end.flows && end.flows[e].receiver.Gone? && end.flows[e].callback.NoCall?)
  {
    TwoSteps(w, Receives(e, ReadsAnswer), Sends(e, Reads(false)), now);
  }

  /** A broker at capacity tells the sender, which can try again while there is time and
      otherwise records a rejection. */
  lemma CapacityIsTriedAgain(w: World, e: EventId, room: bool, now: Seconds)
    requires e in w.flows && w.flows[e].reach.Remote? && w.flows[e].sender.Waiting? && w.flows[e].envelope
    ensures exists end :: (
      Leads(w, [Receives(e, BrokerRefuses), Sends(e, Reads(room))], now, end)
      && end.effects == w.effects && e in end.flows && !end.flows[e].envelope && end.flows[e].reply.None?
      && (if room then end.flows[e].sender.Ready? && end.rows == w.rows
          else end.rows == Mark(w.rows, e, PreEffectRejected, now)))
  {
    TwoSteps(w, Receives(e, BrokerRefuses), Sends(e, Reads(room)), now);
  }

  /** What may get lost on the way: the envelope, the callback or its answer, the reply,
      the courier's answer; and a receiver may abandon what it waits for. */
  lemma AnythingMayGetLost(w: World, e: EventId, now: Seconds)
    requires e in w.flows
    ensures w.flows[e].envelope ==>
      Enabled(w, Receives(e, EnvelopeLost)) && !Next(w, Receives(e, EnvelopeLost), now).flows[e].envelope
    ensures !w.flows[e].callback.NoCall? ==>
      Enabled(w, Receives(e, CallbackLost)) && Next(w, Receives(e, CallbackLost), now).flows[e].callback.NoCall?
    ensures w.flows[e].reply.Some? ==>
      Enabled(w, Receives(e, ReplyLost)) && Next(w, Receives(e, ReplyLost), now).flows[e].reply.None?
    ensures w.flows[e].courier.Answer? ==>
      Enabled(w, Couriers(e, AnswerLost)) && Next(w, Couriers(e, AnswerLost), now).flows[e].courier.Idle?
    ensures w.flows[e].receiver.Asking? || w.flows[e].receiver.Calling? ==>
      Enabled(w, Receives(e, Abandons)) && Next(w, Receives(e, Abandons), now).flows[e].receiver.Gone?
  {
  }

  /** The receiver presents what it resolved for itself, and what the sender's own table
      makes of that is the answer. */
  lemma AskPresentsWhatWasResolved(w: World, e: EventId, resolved: Identity, now: Seconds)
    requires e in w.flows && w.flows[e].receiver.Resolving?
    ensures (
      var asked := Next(w, Receives(e, Asks(resolved)), now);
      && asked.flows[e].receiver.Asking? && asked.flows[e].callback.Asked? && asked.flows[e].asked == resolved
      && asked.rows == w.rows
      && Next(asked, Receives(e, CallbackServed), now).flows[e].callback == Answered(Matches(w.rows, e, resolved))
      && Next(asked, Receives(e, CallbackServed), now).rows == Claim(w.rows, e, resolved, now))
  {
  }
}
