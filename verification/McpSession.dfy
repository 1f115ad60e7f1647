/**
 * One MCP session: the handshake, the use of request ids, and when a request may
 * reach the dispatcher.
 */
module McpSession {
  import opened Collections

  datatype Id = Number(n: int) | Text(s: string)

  datatype Phase = AwaitInitialize | AwaitInitialized | Operational

  /** How the dispatcher ended, when it is reached. */
  datatype Dispatch = Returned | NotFound | Refused | Crashed

  /** `usable` says whether initialize parameters are complete. */
  datatype Params = NotObject | Object(usable: bool)

  /** A JSON value as the session sees it. `id` None is an id of an invalid kind. */
  datatype Element =
    | Malformed
    | Notification(name: Option<string>)
    | Request(id: Option<Id>, name: Option<string>, params: Params, dispatch: Dispatch)

  datatype Message = Single(element: Element) | Batch(elements: seq<Element>)

  datatype Code = InvalidRequest | MethodNotFound | InvalidParams | InternalError

  datatype Response = Success(id: Id) | Error(about: Option<Id>, code: Code)

  /** What happened, in order: accepted handshakes and dispatches. */
  datatype Event = Initialized(by_: Id) | Ready | Dispatched(id: Id, name: string)

  datatype Session = Session(phase: Phase, seen: set<Id>, log: seq<Event>)

  const Fresh := Session(AwaitInitialize, {}, [])

  function HandleOne(s: Session, e: Element, inBatch: bool): (Session, Option<Response>) {
    match e
    case Malformed => (s, Some(Error(None, InvalidRequest)))
    case Notification(name) =>
      (if name == Some("notifications/initialized") && s.phase.AwaitInitialized?
       then s.(phase := Operational, log := s.log + [Ready]) else s, None)
    case Request(id, name, params, dispatch) =>
      if id.None? then (s, Some(Error(None, InvalidRequest)))
      else if id.value in s.seen then (s, Some(Error(id, InvalidRequest)))
      else HandleRequest(s.(seen := s.seen + {id.value}), id.value, name, params, dispatch, inBatch)
  }

  function HandleRequest(s: Session, id: Id, name: Option<string>, params: Params, dispatch: Dispatch, inBatch: bool)
    : (Session, Option<Response>)
  {
    if name.None? then (s, Some(Error(Some(id), InvalidRequest)))
    else if params.NotObject? then (s, Some(Error(Some(id), InvalidParams)))
    else if name.value == "initialize" then
      if inBatch || !s.phase.AwaitInitialize? then (s, Some(Error(Some(id), InvalidRequest)))
      else if !params.usable then (s, Some(Error(Some(id), InvalidParams)))
      else (s.(phase := AwaitInitialized, log := s.log + [Initialized(id)]), Some(Success(id)))
    else if name.value == "ping" then (s, Some(Success(id)))
    else if !s.phase.Operational? then (s, Some(Error(Some(id), InvalidRequest)))
    else
      (s.(log := s.log + [Dispatched(id, name.value)]),
       Some(match dispatch
            case Returned => Success(id)
            case NotFound => Error(Some(id), MethodNotFound)
            case Refused => Error(Some(id), InvalidParams)
            case Crashed => Error(Some(id), InternalError)))
  }

  function HandleAll(s: Session, es: seq<Element>): (Session, seq<Response>)
    decreases |es|
  {
    if es == [] then (s, [])
    else
      var (before, responses) := HandleAll(s, es[..|es| - 1]);
      var (after, response) := HandleOne(before, es[|es| - 1], true);
      (after, if response.Some? then responses + [response.value] else responses)
  }

  /** One emitted JSON value: a response, or an array of them. */
  datatype Emission = One(response: Response) | Many(responses: seq<Response>)

  /** A message emits at most one value: nothing for notifications alone. */
  function Handle(s: Session, m: Message): (Session, Option<Emission>) {
    match m
    case Single(e) =>
      var (after, response) := HandleOne(s, e, false);
      (after, if response.Some? then Some(One(response.value)) else None)
    case Batch(es) =>
      if es == [] then (s, Some(One(Error(None, InvalidRequest))))
      else
        var (after, responses) := HandleAll(s, es);
        (after, if responses == [] then None else Some(Many(responses)))
  }

  function Run(s: Session, ms: seq<Message>): Session
    decreases |ms|
  {
    if ms == [] then s else Run(Handle(s, ms[0]).0, ms[1..])
  }

  // -- what every element keeps -----------------------------------------------------------------------

  predicate Uses(e: Event, id: Id) { (e.Dispatched? && e.id == id) || (e.Initialized? && e.by_ == id) }

  /** No id is used twice, and every used id is remembered. */
  ghost predicate UsedOnce(s: Session) {
    && (forall i, id :: 0 <= i < |s.log| && Uses(s.log[i], id) ==> id in s.seen)
    && (forall i, j, id :: 0 <= i < j < |s.log| && Uses(s.log[i], id) ==> !Uses(s.log[j], id))
  }

  /** The log is nothing, or one initialize, or one initialize, one ready and then
      only dispatches, as the phase says. */
  ghost predicate InOrder(s: Session) {
    match s.phase
    case AwaitInitialize => s.log == []
    case AwaitInitialized => |s.log| == 1 && s.log[0].Initialized?
    case Operational =>
      |s.log| >= 2 && s.log[0].Initialized? && s.log[1].Ready? && (forall i :: 2 <= i < |s.log| ==> s.log[i].Dispatched?)
  }

  ghost predicate Inv(s: Session) { UsedOnce(s) && InOrder(s) }

  lemma OneKeeps(s: Session, e: Element, inBatch: bool)
    requires Inv(s)
    ensures Inv(HandleOne(s, e, inBatch).0)
  {
  }

  lemma {:induction false} AllKeep(s: Session, es: seq<Element>)
    requires Inv(s)
    ensures Inv(HandleAll(s, es).0)
    decreases |es|
  {
    if es != [] {
      AllKeep(s, es[..|es| - 1]);
      OneKeeps(HandleAll(s, es[..|es| - 1]).0, es[|es| - 1], true);
    }
  }

  lemma {:induction false} RunKeeps(s: Session, ms: seq<Message>)
    requires Inv(s)
    ensures Inv(Run(s, ms))
    decreases |ms|
  {
    if ms != [] {
      match ms[0] {
        case Single(e) => OneKeeps(s, e, false);
        case Batch(es) => AllKeep(s, es);
      }
      RunKeeps(Handle(s, ms[0]).0, ms[1..]);
    }
  }

  /** Over any sequence of messages, the dispatcher runs at most once per request
      id, and only after an accepted initialize and the notification after it. */
  lemma DispatchOncePerIdAfterTheHandshake(ms: seq<Message>, i: nat)
    requires i < |Run(Fresh, ms).log| && Run(Fresh, ms).log[i].Dispatched?
    ensures (
      var log := Run(Fresh, ms).log;
      && i >= 2 && log[0].Initialized? && log[1].Ready?
      && (forall j :: 0 <= j < |log| && j != i ==> !Uses(log[j], log[i].id)))
  {
    RunKeeps(Fresh, ms);
    var s := Run(Fresh, ms);
    assert s.phase.Operational?;
    assert Uses(s.log[i], s.log[i].id);
  }

  // -- every request is answered once, under its own id ---------------------------------------------------

  predicate Answers(e: Element, r: Option<Response>) {
    match e
    case Malformed => r == Some(Error(None, InvalidRequest))
    case Notification(_) => r.None?
    case Request(id, _, _, _) =>
      r.Some? && (if r.value.Success? then id == Some(r.value.id) else r.value.about == id)
  }

  predicate Answered(es: seq<Element>, rs: seq<Response>)
    decreases |es|
  {
    if es == [] then rs == []
    else
      var e := es[|es| - 1];
      if e.Notification? then Answered(es[..|es| - 1], rs)
      else rs != [] && Answers(e, Some(rs[|rs| - 1])) && Answered(es[..|es| - 1], rs[..|rs| - 1])
  }

  /** A batch is answered element by element in order; notifications get nothing. */
  lemma {:induction false} BatchIsAnsweredInOrder(s: Session, es: seq<Element>)
    ensures Answered(es, HandleAll(s, es).1)
    decreases |es|
  {
    if es != [] {
      var before := HandleAll(s, es[..|es| - 1]);
      BatchIsAnsweredInOrder(s, es[..|es| - 1]);
      var r := HandleOne(before.0, es[|es| - 1], true).1;
      assert Answers(es[|es| - 1], r);
      if r.Some? { assert (before.1 + [r.value])[..|before.1|] == before.1; }
    }
  }

  // -- the session object -----------------------------------------------------------------------------------

  class Server {
    var phase: Phase
    var seenIds: set<Id>
    ghost var log: seq<Event>
    var emitted: seq<Emission>

    ghost function State(): Session
      reads this
    {
      Session(phase, seenIds, log)
    }

    constructor ()
      ensures State() == Fresh && emitted == []
    {
      phase, seenIds, log, emitted := AwaitInitialize, {}, [], [];
    }

    method HandleElement(e: Element, inBatch: bool) returns (r: Option<Response>)
      modifies this`phase, this`seenIds, this`log
      ensures (State(), r) == HandleOne(old(State()), e, inBatch)
    {
      if e.Malformed? { return Some(Error(None, InvalidRequest)); }
      if e.Notification? {
        if e.name == Some("notifications/initialized") && phase.AwaitInitialized? {
          phase, log := Operational, log + [Ready];
        }
        return None;
      }
      if e.id.None? { return Some(Error(None, InvalidRequest)); }
      var id := e.id.value;
      if id in seenIds { return Some(Error(Some(id), InvalidRequest)); }
      seenIds := seenIds + {id};
      if e.name.None? { return Some(Error(Some(id), InvalidRequest)); }
      if e.params.NotObject? { return Some(Error(Some(id), InvalidParams)); }
      if e.name.value == "initialize" {
        if inBatch || !phase.AwaitInitialize? { return Some(Error(Some(id), InvalidRequest)); }
        if !e.params.usable { return Some(Error(Some(id), InvalidParams)); }
        phase, log := AwaitInitialized, log + [Initialized(id)];
        return Some(Success(id));
      }
      if e.name.value == "ping" { return Some(Success(id)); }
      if !phase.Operational? { return Some(Error(Some(id), InvalidRequest)); }
      log := log + [Dispatched(id, e.name.value)];
      match e.dispatch
      case Returned => return Some(Success(id));
      case NotFound => return Some(Error(Some(id), MethodNotFound));
      case Refused => return Some(Error(Some(id), InvalidParams));
      case Crashed => return Some(Error(Some(id), InternalError));
    }

    method Receive(m: Message)
      modifies this
      ensures State() == Handle(old(State()), m).0
      ensures emitted == old(emitted) + (match Handle(old(State()), m).1 case None => [] case Some(e) => [e])
    {
      if m.Single? {
        var r := HandleElement(m.element, false);
        if r.Some? { emitted := emitted + [One(r.value)]; }
        return;
      }
      var es := m.elements;
      if es == [] {
        emitted := emitted + [One(Error(None, InvalidRequest))];
        return;
      }
      var responses: seq<Response> := [];
      for k := 0 to |es|
        invariant (State(), responses) == HandleAll(old(State()), es[..k])
        invariant emitted == old(emitted)
      {
        assert es[..k + 1][..k] == es[..k];
        var r := HandleElement(es[k], true);
        responses := if r.Some? then responses + [r.value] else responses;
      }
      assert es[..|es|] == es;
      if responses != [] { emitted := emitted + [Many(responses)]; }
    }
  }
}
