/**
 * The ACP mediator as a state machine. One function per section that the
 * program runs under its session lock; threads interleave between them.
 *
 * Three threads act: the host reader, the engine reader and the delivery
 * loop. Replies a thread decided under the lock and writes afterwards wait in
 * that thread's `owed` list, so other threads may act in between.
 *
 * Engine admission is seen here only through its interface: while the input is
 * open some number of further frames (`room`) is admitted, the next one is
 * refused, and after a refusal nothing is admitted again. The byte accounting
 * behind that interface is the subject of module EngineQueue.
 */
module MediatorModel {
  import opened Collections

  type SessionId = string
  type RpcId = string

  const MAX_QUEUED_PROMPTS := 4

  datatype Verb = Prompt | Close | New | Load | Other

  /** One host request. `serial` is its arrival number: the identity of the
      frame object, which the host's own (reusable) id does not give. */
  datatype Request = Request(serial: nat, id: RpcId, verb: Verb, session: Option<SessionId>)

  datatype Pending = HostPending(request: Request) | PeerPending(session: SessionId)

  datatype EngineFrame =
    | HostRequest(adapter: nat, request: Request)
    | PeerPrompt(adapter: nat, session: SessionId, event: nat, claimedAt: nat)
    | CancelTurn(session: SessionId)
    | Relayed

  datatype Cause = EngineAnswer(adapter: nat) | Refused | Cancelled

  datatype HostFrame =
    | Reply(serial: nat, id: RpcId, cause: Cause)
    | Echo(session: SessionId, event: nat)
    | Notice

  /** `since` is the last adapter id issued before this record was created, so
      it tells this record apart from an earlier one for the same session id. */
  datatype Session = Session(
    since: nat,
    hostPrompts: set<nat>,
    peerPrompt: Option<nat>,
    claiming: bool,
    claimedAt: nat,
    cancelClaim: bool,
    closing: bool,
    queued: seq<Request>,
    deferred: seq<EngineFrame>)
  {
    predicate Busy() {
      hostPrompts != {} || peerPrompt.Some? || claiming || closing
    }
  }

  datatype State = State(
    requests: seq<RpcId>,          // every id-carrying host request, in arrival order
    issued: seq<Pending>,       // what each adapter id was issued for; id k is entry k-1
    pending: map<nat, Pending>,
    sessions: map<SessionId, Session>,
    engine: seq<EngineFrame>,      // admitted frames, in admission order
    closed: bool,
    room: nat,
    host: seq<HostFrame>,          // frames written to the host, in order
    hostOwes: seq<HostFrame>,
    engineOwes: seq<HostFrame>,
    claims: seq<SessionId>,
    hand: Option<Option<nat>>)

  const Init := State([], [], map[], map[], [], false, 0, [], [], [], [], None)

  // -- building blocks ------------------------------------------------------

  function Put(m: State, sid: SessionId, s: Session): State {
    m.(sessions := m.sessions[sid := s])
  }

  function Track(m: State, sid: SessionId): State {
    if sid in m.sessions then m
    else Put(m, sid, Session(|m.issued|, {}, None, false, 0, false, false, [], []))
  }

  function NextId(m: State): nat { |m.issued| + 1 }

  function Allocate(m: State, p: Pending): State {
    m.(issued := m.issued + [p], pending := m.pending[NextId(m) := p])
  }

  function Forget(m: State, adapter: nat): State {
    m.(pending := m.pending - {adapter})
  }

  predicate Admits(m: State) { !m.closed && m.room > 0 }

  function ToEngine(m: State, f: EngineFrame): State {
    if m.closed then m
    else if m.room == 0 then m.(closed := true)
    else m.(engine := m.engine + [f], room := m.room - 1)
  }

  function Answer(r: Request, cause: Cause): HostFrame { Reply(r.serial, r.id, cause) }

  function CancelAll(rs: seq<Request>): seq<HostFrame> {
    seq(|rs|, i requires 0 <= i < |rs| => Answer(rs[i], Cancelled))
  }

  /** Give `r` an adapter id and offer it to the engine as a running turn of
      `sid`. Nothing is left behind when the engine input refuses it. */
  function Submit(m: State, sid: SessionId, r: Request): State
    requires sid in m.sessions
  {
    var a := NextId(m);
    var m1 := Allocate(m, HostPending(r));
    var m2 := ToEngine(m1, HostRequest(a, r));
    if Admits(m1) then
      var s := m2.sessions[sid];
      Put(m2, sid, s.(hostPrompts := s.hostPrompts + {a}))
    else Forget(m2, a)
  }

  /** Promote waiting prompts: at most one is admitted, because admission makes
      the session busy; those the closed engine refuses are cancelled. */
  function Due(m: State, sid: SessionId): State
    requires sid in m.sessions
    decreases |m.sessions[sid].queued|
  {
    var s := m.sessions[sid];
    if s.Busy() || s.queued == [] then m
    else
      var r := s.queued[0];
      var m1 := Put(m, sid, s.(queued := s.queued[1..]));
      var m2 := Submit(m1, sid, r);
      if Admits(m1) then m2
      else Due(m2.(host := m2.host + [Answer(r, Cancelled)]), sid)
  }

  // -- host -> engine -------------------------------------------------------

  function Arrive(m: State, id: RpcId): State { m.(requests := m.requests + [id]) }

  function Refuse(m: State, r: Request): State {
    m.(hostOwes := m.hostOwes + [Answer(r, Refused)])
  }

  /** `session/prompt` with a session id. */
  function HostPrompt(m: State, id: RpcId, sid: SessionId): State {
    var r := Request(|m.requests|, id, Prompt, Some(sid));
    var m1 := Track(Arrive(m, id), sid);
    var s := m1.sessions[sid];
    if s.closing then Refuse(m1, r)
    else if s.peerPrompt.Some? || s.claiming || s.queued != [] then
      if |s.queued| < MAX_QUEUED_PROMPTS
      then Put(m1, sid, s.(queued := s.queued + [r]))
      else Refuse(m1, r)
    else
      var m2 := Submit(m1, sid, r);
      if Admits(m1) then m2 else Refuse(m2, r)
  }

  predicate ClosesTracked(m: State, verb: Verb, sid: Option<SessionId>) {
    verb.Close? && sid.Some? && sid.value in m.sessions
  }

  /** Every other id-carrying request. */
  function HostCall(m: State, id: RpcId, verb: Verb, sid: Option<SessionId>): State {
    var r := Request(|m.requests|, id, verb, sid);
    var a := NextId(m);
    var frame := HostRequest(a, r);
    var m1 := Allocate(Arrive(m, id), HostPending(r));
    var m2 :=
      if ClosesTracked(m, verb, sid)
      then Put(m1, sid.value, m1.sessions[sid.value].(closing := true)) else m1;
    if ClosesTracked(m, verb, sid) && m2.sessions[sid.value].claiming then
      var s := m2.sessions[sid.value];
      Put(m2, sid.value, s.(deferred := s.deferred + [frame]))
    else if Admits(m2) then ToEngine(m2, frame)
    else Refuse(Forget(ToEngine(m2, frame), a), r)
  }

  /** `session/cancel`. */
  function HostCancel(m: State, sid: SessionId): State {
    if sid !in m.sessions then ToEngine(m, CancelTurn(sid))
    else
      var s := m.sessions[sid];
      var m1 := m.(hostOwes := m.hostOwes + CancelAll(s.queued));
      if s.claiming then Put(m1, sid, s.(queued := [], cancelClaim := true))
      else
        var m2 := Put(m1, sid, s.(queued := []));
        if s.peerPrompt.Some? || s.hostPrompts != {} then ToEngine(m2, CancelTurn(sid)) else m2
  }

  // -- engine -> host -------------------------------------------------------

  /** Update state for one engine response that answered adapter id `a`. */
  function Settle(m: State, p: Pending, a: nat, ok: bool, created: Option<SessionId>): State {
    var verb := if p.HostPending? then p.request.verb else Prompt;
    var sid := if p.HostPending? then p.request.session else Some(p.session);
    if verb.New? && created.Some? then Track(m, created.value)
    else if sid.None? then m
    else if verb.Load? && ok then Track(m, sid.value)
    else if sid.value !in m.sessions then m
    else
      var s := m.sessions[sid.value];
      match verb
      case Close =>
        if !ok then Due(Put(m, sid.value, s.(closing := false)), sid.value)
        else m.(sessions := m.sessions - {sid.value}, engineOwes := m.engineOwes + CancelAll(s.queued))
      case Prompt =>
        var s1 := s.(hostPrompts := s.hostPrompts - {a},
                     peerPrompt := if s.peerPrompt == Some(a) then None else s.peerPrompt);
        Due(Put(m, sid.value, s1), sid.value)
      case _ => m
  }

  function EngineReply(m: State, a: nat, ok: bool, created: Option<SessionId>): State {
    if a !in m.pending then m
    else
      var p := m.pending[a];
      var m1 := Forget(m, a);
      var m2 := if p.HostPending?
                then m1.(engineOwes := m1.engineOwes + [Answer(p.request, EngineAnswer(a))])
                else m1;
      Settle(m2, p, a, ok, created)
  }

  // -- delivery -------------------------------------------------------------

  /** Mark every idle session as being claimed. */
  function Claim(m: State, order: seq<SessionId>): State {
    m.(claims := order,
       sessions := map sid | sid in m.sessions ::
         if m.sessions[sid].Busy() then m.sessions[sid]
         else m.sessions[sid].(claiming := true, claimedAt := |m.engine|))
  }

  /** The inbox answered for the session at the head of the claims. */
  function Take(m: State, got: Option<nat>): State
    requires m.claims != []
  {
    m.(hand := Some(got),
       host := if got.Some? then m.host + [Echo(m.claims[0], got.value)] else m.host)
  }

  function Flush(m: State, frames: seq<EngineFrame>): (r: State)
    ensures r == m.(engine := r.engine, closed := r.closed, room := r.room)
    decreases |frames|
  {
    if frames == [] then m else Flush(ToEngine(m, frames[0]), frames[1..])
  }

  /** Submit what the claim took, if anything, and the cancel that followed. */
  function SubmitPeer(m: State, sid: SessionId, event: nat): State
    requires sid in m.sessions
  {
    var a := NextId(m);
    var s := m.sessions[sid];
    var m1 := Allocate(m, PeerPending(sid));
    var m2 := ToEngine(m1, PeerPrompt(a, sid, event, s.claimedAt));
    if Admits(m1) then
      var m3 := Put(m2, sid, s.(peerPrompt := Some(a)));
      if s.cancelClaim then ToEngine(m3, CancelTurn(sid)) else m3
    else Put(Forget(m2, a), sid, s.(peerPrompt := None))
  }

  function Release(m: State, sid: SessionId, got: Option<nat>): State
    requires sid in m.sessions
  {
    var m1 := Put(m, sid, m.sessions[sid].(claiming := false));
    if got.Some? then SubmitPeer(m1, sid, got.value) else m1
  }

  function Finish(m: State): State
    requires m.claims != [] && m.hand.Some?
  {
    var sid := m.claims[0];
    var m0 := m.(claims := m.claims[1..], hand := None);
    if sid !in m.sessions then m0
    else
      var m1 := Release(m0, sid, m.hand.value);
      var s := m1.sessions[sid];
      var m2 := Flush(Put(m1, sid, s.(cancelClaim := false, deferred := [])), s.deferred);
      Due(m2, sid)
  }

  // -- steps ----------------------------------------------------------------

  datatype Step =
    | PromptArrives(id: RpcId, sid: SessionId)
    | CallArrives(callId: RpcId, verb: Verb, callSession: Option<SessionId>)
    | CancelArrives(cancelSession: SessionId)
    | HostRelay
    | HostWrites
    | EngineAnswers(adapter: nat, ok: bool, created: Option<SessionId>)
    | EngineRelay
    | EngineWrites
    | DeliveryClaims(order: seq<SessionId>)
    | DeliveryTakes(got: Option<nat>)
    | DeliveryFinishes
    | RoomChanges(newRoom: nat)
    | InputCloses

  /** Program order: a reader starts its next frame only after writing what it
      owes, and the delivery loop handles its claims one after another. */
  ghost predicate Enabled(m: State, e: Step) {
    match e
    case PromptArrives(_, _) => m.hostOwes == []
    case CallArrives(_, verb, sid) => m.hostOwes == [] && !(verb.Prompt? && sid.Some?)
    case CancelArrives(_) => m.hostOwes == []
    case HostRelay => m.hostOwes == []
    case HostWrites => m.hostOwes != []
    case EngineAnswers(_, _, _) => m.engineOwes == []
    case EngineRelay => m.engineOwes == []
    case EngineWrites => m.engineOwes != []
    case DeliveryClaims(order) =>
      && m.claims == [] && m.hand.None?
      && (forall i, j :: 0 <= i < j < |order| ==> order[i] != order[j])
      && (forall sid :: sid in order <==> sid in m.sessions && !m.sessions[sid].Busy())
    case DeliveryTakes(_) => m.claims != [] && m.hand.None?
    case DeliveryFinishes => m.claims != [] && m.hand.Some?
    case RoomChanges(_) => true
    case InputCloses => true
  }

  function Apply(m: State, e: Step): State
    requires Enabled(m, e)
  {
    match e
    case PromptArrives(id, sid) => HostPrompt(m, id, sid)
    case CallArrives(id, verb, sid) => HostCall(m, id, verb, sid)
    case CancelArrives(sid) => HostCancel(m, sid)
    case HostRelay => ToEngine(m, Relayed)
    case HostWrites => m.(host := m.host + [m.hostOwes[0]], hostOwes := m.hostOwes[1..])
    case EngineAnswers(a, ok, created) => EngineReply(m, a, ok, created)
    case EngineRelay => m.(host := m.host + [Notice])
    case EngineWrites => m.(host := m.host + [m.engineOwes[0]], engineOwes := m.engineOwes[1..])
    case DeliveryClaims(order) => Claim(m, order)
    case DeliveryTakes(got) => Take(m, got)
    case DeliveryFinishes => Finish(m)
    case RoomChanges(n) => m.(room := n)
    case InputCloses => m.(closed := true)
  }

  /** `states` are the successive states of a run from the start. */
  ghost predicate Run(steps: seq<Step>, states: seq<State>) {
    && |states| == |steps| + 1
    && states[0] == Init
    && forall i :: 0 <= i < |steps| ==> Stepped(states[i], steps[i], states[i + 1])
  }

  ghost predicate Stepped(m: State, e: Step, after: State) {
    Enabled(m, e) && after == Apply(m, e)
  }
}
