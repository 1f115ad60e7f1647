/**
 * The end-to-end delivery protocol: a sender with its intent row, the
 * recipient's broker and its authorization callback, and the recipient's
 * courier. Processes act one at a time in any order; any reply may be lost, any
 * wait may time out, and a process that gave up leaves its work running.
 *
 * The provider behind the courier is an oracle that is truthful about having
 * had no effect; the broker either refuses before reading a byte or serves.
 */
module Delivery {
  import opened Collections
  import opened IntentStore

  datatype Reach = Local | Remote

  /** What a reply frame says once it is classified. */
  datatype Verdict = Accepted | Rejected | Busy | Capacity | Unknown

  datatype Sender = Ready | Waiting | Ended(outcome: Status) | Died

  datatype Receiver = Absent | Resolving | Asking | Authorized | Calling | Gone

  datatype Callback = NoCall | Asked | Answered(granted: bool)

  datatype Courier = Idle | Frame | Admitted | Answer(verdict: Verdict)

  /** One event's progress. `asked` is what the receiver resolved for itself and
      presents to the sender's broker. */
  datatype Flow = Flow(
    reach: Reach,
    identity: Identity,
    sender: Sender,
    envelope: bool,
    receiver: Receiver,
    callback: Callback,
    asked: Identity,
    courier: Courier,
    reply: Option<Verdict>)

  datatype Effect = Effect(event: EventId, target: string, digest: string)

  datatype World = World(
    rows: Table,
    flows: map<EventId, Flow>,
    busy: map<string, EventId>,      // which event holds each courier's accept lock
    stopping: set<string>,
    effects: seq<Effect>)

  const Init := World([], map[], map[], {}, [])

  datatype SenderAct =
    | CannotReach              // no route, refused connect: nothing was written
    | Writes                   // one attempt's frame is written
    | GivesUp                  // timeout, closed or malformed reply after the write
    | Dies
    | Reads(room: bool)        // reads a reply; `room`: the deadline allows another attempt

  datatype ReceiverAct =
    | BrokerRefuses            // at capacity, before reading a byte
    | BrokerReads
    | EnvelopeLost
    | Refuses                  // target changed, token invalid, courier unreachable
    | Asks(identity: Identity) // callback with what this side resolved
    | CallbackServed
    | CallbackLost
    | ReadsAnswer
    | Abandons                 // timeout or lost reply after a write: closes without a frame
    | Calls
    | ReadsCourier(room: bool) // for an unknown verdict: whether its diagnostic is forwarded
    | ReplyLost

  datatype CourierAct =
    | TurnsAway(refusal: Verdict)
    | Closes                   // no seat: closed before a byte is read
    | Admits
    | Concludes(verdict: Verdict, effect: bool)
    | AnswerLost

  datatype Step =
    | Starts(begun: EventId, identity: Identity, reach: Reach)
    | Sends(sending: EventId, senderAct: SenderAct)
    | Receives(receiving: EventId, receiverAct: ReceiverAct)
    | Couriers(delivering: EventId, courierAct: CourierAct)
    | CourierStops(target: string)
    | OwnerResolves(resolved: EventId)

  /** What the courier is asked to deliver: locally the sender's own identity,
      remotely what the receiver resolved. */
  function Delivered(f: Flow): Identity { if f.reach.Local? then f.identity else f.asked }

  /** The reply on the sender's own connection. */
  function Readable(f: Flow): Option<Verdict> {
    if f.reach.Local? then (if f.courier.Answer? then Some(f.courier.verdict) else None) else f.reply
  }

  function Consume(f: Flow): Flow {
    if f.reach.Local? then f.(courier := Idle) else f.(reply := None)
  }

  /** Only an answer that proves nothing was dispatched is retried: a busy courier
      locally, a broker at capacity remotely. */
  predicate Retries(f: Flow, v: Verdict) {
    (f.reach.Local? && v.Busy?) || (f.reach.Remote? && v.Capacity?)
  }

  function OutcomeOf(v: Verdict): Status {
    match v
    case Accepted => TransportAccepted
    case Unknown => UnknownDelivery
    case _ => PreEffectRejected
  }

  // -- the sender ------------------------------------------------------------------

  predicate SenderEnabled(f: Flow, a: SenderAct) {
    match a
    case CannotReach => f.sender.Ready?
    case Writes => f.sender.Ready?
    case GivesUp => f.sender.Waiting?
    case Dies => f.sender.Ready? || f.sender.Waiting?
    case Reads(_) => f.sender.Waiting? && Readable(f).Some?
  }

  function SenderNext(f: Flow, a: SenderAct): Flow
    requires SenderEnabled(f, a)
  {
    match a
    case CannotReach => f.(sender := Ended(PreEffectRejected))
    case Writes =>
      var g := f.(sender := Waiting);
      if f.reach.Local? then g.(courier := Frame) else g.(envelope := true)
    case GivesUp => f.(sender := Ended(UnknownDelivery))
    case Dies => f.(sender := Died)
    case Reads(room) =>
      var v := Readable(f).value;
      if Retries(f, v) && room then Consume(f).(sender := Ready)
      else Consume(f).(sender := Ended(OutcomeOf(v)))
  }

  // -- the recipient's broker and its callback to the sender's broker ----------------

  predicate ReceiverEnabled(f: Flow, a: ReceiverAct) {
    match a
    case BrokerRefuses => f.envelope
    case BrokerReads => f.envelope
    case EnvelopeLost => f.envelope
    case Refuses => f.receiver.Resolving? || f.receiver.Authorized?
    case Asks(_) => f.receiver.Resolving?
    case CallbackServed => f.callback.Asked?
    case CallbackLost => !f.callback.NoCall?
    case ReadsAnswer => f.receiver.Asking? && f.callback.Answered?
    case Abandons => f.receiver.Asking? || f.receiver.Calling?
    case Calls => f.receiver.Authorized?
    case ReadsCourier(_) => f.receiver.Calling? && f.courier.Answer?
    case ReplyLost => f.reply.Some?
  }

  /** `granted` is what the sender's table says when the callback is served. */
  function ReceiverNext(f: Flow, a: ReceiverAct, granted: bool): Flow
    requires ReceiverEnabled(f, a)
  {
    match a
    case BrokerRefuses => f.(envelope := false, reply := Some(Capacity))
    case BrokerReads => f.(envelope := false, receiver := Resolving)
    case EnvelopeLost => f.(envelope := false)
    case Refuses => f.(receiver := Gone, reply := Some(Rejected))
    case Asks(id) => f.(receiver := Asking, callback := Asked, asked := id)
    case CallbackServed => f.(callback := Answered(granted))
    case CallbackLost => f.(callback := NoCall)
    case ReadsAnswer =>
      if f.callback.granted then f.(receiver := Authorized, callback := NoCall)
      else f.(receiver := Gone, callback := NoCall, reply := Some(Rejected))
    case Abandons => f.(receiver := Gone)
    case Calls => f.(receiver := Calling, courier := Frame)
    case ReadsCourier(room) =>
      var g := f.(courier := Idle);
      (match f.courier.verdict
       case Busy => if room then g.(receiver := Authorized) else g.(receiver := Gone, reply := Some(Rejected))
       case Unknown => if room then g.(receiver := Gone, reply := Some(Unknown)) else g.(receiver := Gone)
       case v => g.(receiver := Gone, reply := Some(v)))
    case ReplyLost => f.(reply := None)
  }

  // -- the courier ---------------------------------------------------------------------

  predicate CourierEnabled(f: Flow, a: CourierAct) {
    match a
    case TurnsAway(v) => f.courier.Frame? && (v.Busy? || v.Rejected?)
    case Closes => f.courier.Frame?
    case Admits => f.courier.Frame?
    case Concludes(v, effect) =>
      // the provider is truthful about having had no effect
      && f.courier.Admitted?
      && (v.Accepted? || v.Rejected? || v.Unknown?)
      && (v.Accepted? ==> effect) && (v.Rejected? ==> !effect)
    case AnswerLost => f.courier.Answer?
  }

  function CourierNext(f: Flow, a: CourierAct): Flow
    requires CourierEnabled(f, a)
  {
    match a
    case TurnsAway(v) => f.(courier := Answer(v))
    case Closes => f.(courier := Idle)
    case Admits => f.(courier := Admitted)
    case Concludes(v, _) => f.(courier := Answer(v))
    case AnswerLost => f.(courier := Idle)
  }

  // -- the world -------------------------------------------------------------------------

  /** A courier effect is admitted only while its accept lock is free and it has
      not been told to stop. */
  predicate Admissible(w: World, f: Flow, a: CourierAct) {
    a.Admits? ==> Delivered(f).target !in w.busy && Delivered(f).target !in w.stopping
  }

  ghost predicate Enabled(w: World, s: Step) {
    match s
    case Starts(e, id, reach) => CanBegin(w.rows, e, id)
    case Sends(e, a) => e in w.flows && SenderEnabled(w.flows[e], a)
    case Receives(e, a) => e in w.flows && ReceiverEnabled(w.flows[e], a)
    case Couriers(e, a) => e in w.flows && CourierEnabled(w.flows[e], a) && Admissible(w, w.flows[e], a)
    case CourierStops(_) => true
    case OwnerResolves(_) => true
  }

  /** The sender records its outcome as it ends. */
  function Recorded(rows: Table, e: EventId, f: Flow, now: Seconds): Table {
    if f.sender.Ended? then Mark(rows, e, f.sender.outcome, now) else rows
  }

  function CourierWorld(w: World, e: EventId, a: CourierAct): World
    requires e in w.flows && CourierEnabled(w.flows[e], a)
  {
    var id := Delivered(w.flows[e]);
    w.(flows := w.flows[e := CourierNext(w.flows[e], a)],
       busy := if a.Admits? then w.busy[id.target := e] else if a.Concludes? then w.busy - {id.target} else w.busy,
       effects := if a.Concludes? && a.effect then w.effects + [Effect(e, id.target, id.digest)] else w.effects)
  }

  function Next(w: World, s: Step, now: Seconds): World
    requires Enabled(w, s)
  {
    match s
    case Starts(e, id, reach) =>
      w.(rows := Begin(w.rows, e, id, now),
         flows := w.flows[e := Flow(reach, id, Ready, false, Absent, NoCall, id, Idle, None)])
    case Sends(e, a) =>
      var f := SenderNext(w.flows[e], a);
      w.(flows := w.flows[e := f], rows := Recorded(w.rows, e, f, now))
    case Receives(e, a) =>
      var asked := w.flows[e].asked;
      w.(flows := w.flows[e := ReceiverNext(w.flows[e], a, Matches(w.rows, e, asked))],
         rows := if a.CallbackServed? then Claim(w.rows, e, asked, now) else w.rows)
    case Couriers(e, a) => CourierWorld(w, e, a)
    case CourierStops(t) => w.(stopping := w.stopping + {t})
    case OwnerResolves(e) => w.(rows := Resolve(w.rows, e, now))
  }

  ghost predicate Stepped(w: World, s: Step, now: Seconds, after: World) {
    Enabled(w, s) && after == Next(w, s, now)
  }

  ghost predicate Run(steps: seq<Step>, clock: seq<Seconds>, worlds: seq<World>) {
    && |worlds| == |steps| + 1 && |clock| == |steps| && worlds[0] == Init
    && forall i :: 0 <= i < |steps| ==> Stepped(worlds[i], steps[i], clock[i], worlds[i + 1])
  }
}
