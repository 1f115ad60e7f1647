/**
 * The sender's retry loop and how it reads a reply frame. The loop turns the
 * exchanges of one send into the outcome written to the sender's row; the
 * protocol of module Delivery takes these outcomes as its sender steps.
 */
module SendLoop {
  import opened Collections
  import opened IntentStore
  import opened Delivery
  import opened JsonText

  // -- reply frames ---------------------------------------------------------------

  datatype Value = Number(n: int) | Text(s: string) | Missing

  type Response = map<string, Value>

  const SCHEMA_VERSION := 1
  const COURIER_BUSY := "session courier is busy with another delivery"
  const MAX_ERROR_BYTES := 256

  const CLAUDE_DIAGNOSTICS: set<string> := {
    "claude_pretool_gate_unobserved", "claude_pretool_gate_unreadable", "claude_pretool_gate_denied",
    "claude_pretool_gate_conflict", "claude_no_sendmessage_tool_use", "claude_multiple_sendmessage_tool_use",
    "claude_sendmessage_payload_mismatch", "claude_sendmessage_target_mismatch",
    "claude_sendmessage_message_mismatch", "claude_sendmessage_control_mismatch",
    "claude_sendmessage_type_mismatch", "claude_sendmessage_summary_mismatch", "claude_helper_stream_invalid",
    "claude_helper_timeout", "claude_helper_execution_failed", "claude_helper_exit_nonzero",
    "claude_receipt_invalid" }

  function Field(r: Response, key: string): Value { if key in r then r[key] else Missing }

  /** An error text that may be repeated to the caller. */
  predicate Printable(error: string) {
    && error != []
    && (forall i :: 0 <= i < |error| ==> error[i] != '\r' && error[i] != '\n' && error[i] != '\0')
    && Utf8Length(error) <= MAX_ERROR_BYTES
  }

  function PreEffectError(r: Response, e: EventId, provider: string): Option<string> {
    if r.Keys == {"schema_version", "event_id", "status", "provider", "error"}
       && Field(r, "schema_version") == Number(SCHEMA_VERSION)
       && Field(r, "event_id") == Text(e)
       && Field(r, "status") == Text("PRE_EFFECT_REJECTED")
       && Field(r, "provider") == Text(provider)
       && Field(r, "error").Text?
       && Printable(Field(r, "error").s)
    then Some(Field(r, "error").s) else None
  }

  function DiagnosticOf(r: Response, e: EventId, provider: string): Option<string> {
    if r.Keys == {"schema_version", "event_id", "status", "provider", "diagnostic"}
       && Field(r, "schema_version") == Number(SCHEMA_VERSION)
       && Field(r, "event_id") == Text(e)
       && Field(r, "status") == Text("UNKNOWN_DELIVERY")
       && Field(r, "provider") == Text(provider)
       && provider == "claude"
       && Field(r, "diagnostic").Text?
       && Field(r, "diagnostic").s in CLAUDE_DIAGNOSTICS
    then Some(Field(r, "diagnostic").s) else None
  }

  function AcceptedFrame(e: EventId, to: string, provider: string): Response {
    map["schema_version" := Number(SCHEMA_VERSION), "event_id" := Text(e),
        "status" := Text("TRANSPORT_ACCEPTED"), "to" := Text(to), "provider" := Text(provider)]
  }

  function RejectedFrame(e: EventId, provider: string, error: string): Response {
    map["schema_version" := Number(SCHEMA_VERSION), "event_id" := Text(e),
        "status" := Text("PRE_EFFECT_REJECTED"), "provider" := Text(provider), "error" := Text(error)]
  }

  /** What a broker answers before it reads a byte. */
  const CAPACITY_FRAME: Response :=
    map["schema_version" := Number(SCHEMA_VERSION), "status" := Text("REFUSED"),
        "detail" := Text("recipient broker is at capacity")]

  /** What one send expects: the provider that may reject, and the exact acceptance. */
  datatype Ask = Ask(reach: Reach, event: EventId, provider: string, to: string, deliveryProvider: string)

  /** Anything that is not an exact known frame is an unknown outcome. */
  function Classify(ask: Ask, r: Response): Verdict {
    var error := PreEffectError(r, ask.event, ask.provider);
    if ask.reach.Remote? && r == CAPACITY_FRAME then Capacity
    else if ask.reach.Local? && error == Some(COURIER_BUSY) then Busy
    else if error.Some? then Rejected
    else if DiagnosticOf(r, ask.event, ask.provider).Some? then Unknown
    else if r == AcceptedFrame(ask.event, ask.to, ask.deliveryProvider) then Accepted
    else Unknown
  }

  /** Reading back the frames a courier or broker emits gives exactly what it meant,
      and no other frame is ever read as that. */
  lemma ClassifyIsExact(ask: Ask, r: Response)
    ensures Classify(ask, r) == Accepted <==> Accepts(ask, r)
    ensures Classify(ask, r) == Rejected <==>
      exists error :: Rejects(ask, r, error) && !(ask.reach.Local? && error == COURIER_BUSY)
    ensures Classify(ask, r) == Busy <==> ask.reach.Local? && exists error :: Rejects(ask, r, error) && error == COURIER_BUSY
    ensures Classify(ask, r) == Capacity <==> ask.reach.Remote? && Refuses(r)
  {
    FramesDiffer(ask, r);
    FramesAreSpelled(ask, r);
    RejectionIsExact(r, ask.event, ask.provider);
    forall error { RejectionIsSpelled(ask, r, error); }
    var error := PreEffectError(r, ask.event, ask.provider);
    assert error.Some? ==> Rejects(ask, r, error.value);
  }

  /** The frame is the acceptance of this event, field by field. */
  predicate Accepts(ask: Ask, r: Response) {
    && r.Keys == {"schema_version", "event_id", "status", "to", "provider"}
    && r["schema_version"] == Number(1) && r["event_id"] == Text(ask.event) && r["status"] == Text("TRANSPORT_ACCEPTED")
    && r["to"] == Text(ask.to) && r["provider"] == Text(ask.deliveryProvider)
  }

  /** The frame is a broker's refusal to read anything. */
  predicate Refuses(r: Response) {
    && r.Keys == {"schema_version", "status", "detail"}
    && r["schema_version"] == Number(1) && r["status"] == Text("REFUSED")
    && r["detail"] == Text("recipient broker is at capacity")
  }

  lemma FramesAreSpelled(ask: Ask, r: Response)
    ensures Accepts(ask, r) <==> r == AcceptedFrame(ask.event, ask.to, ask.deliveryProvider)
    ensures Refuses(r) <==> r == CAPACITY_FRAME
  {
    assert AcceptedFrame(ask.event, ask.to, ask.deliveryProvider).Keys
        == {"schema_version", "event_id", "status", "to", "provider"};
    assert CAPACITY_FRAME.Keys == {"schema_version", "status", "detail"};
  }

  /** The frame is exactly this rejection of this event. */
  predicate Rejects(ask: Ask, r: Response, error: string) {
    && r.Keys == {"schema_version", "event_id", "status", "provider", "error"}
    && r["schema_version"] == Number(1) && r["event_id"] == Text(ask.event) && r["status"] == Text("PRE_EFFECT_REJECTED")
    && r["provider"] == Text(ask.provider) && r["error"] == Text(error)
    && error != "" && '\n' !in error && '\r' !in error && '\0' !in error && Utf8Length(error) <= 256
  }

  lemma RejectionIsSpelled(ask: Ask, r: Response, error: string)
    ensures Rejects(ask, r, error) <==> Printable(error) && r == RejectedFrame(ask.event, ask.provider, error)
  {
    assert RejectedFrame(ask.event, ask.provider, error).Keys == {"schema_version", "event_id", "status", "provider", "error"};
    assert '\n' !in error && '\r' !in error && '\0' !in error <==>
      forall i :: 0 <= i < |error| ==> error[i] != '\r' && error[i] != '\n' && error[i] != '\0';
  }

  /** A diagnostic is passed on exactly if it is a known one of a Claude helper, for
      this event. */
  lemma DiagnosticIsExact(r: Response, e: EventId, provider: string, code: string)
    ensures DiagnosticOf(r, e, provider) == Some(code) <==>
      && provider == "claude" && code in CLAUDE_DIAGNOSTICS
      && r == map["schema_version" := Number(1), "event_id" := Text(e), "status" := Text("UNKNOWN_DELIVERY"),
                  "provider" := Text("claude"), "diagnostic" := Text(code)]
  {
    var frame := map["schema_version" := Number(1), "event_id" := Text(e), "status" := Text("UNKNOWN_DELIVERY"),
                     "provider" := Text("claude"), "diagnostic" := Text(code)];
    assert frame.Keys == {"schema_version", "event_id", "status", "provider", "diagnostic"};
  }

  lemma FramesDiffer(ask: Ask, r: Response)
    ensures r == AcceptedFrame(ask.event, ask.to, ask.deliveryProvider) ==>
      PreEffectError(r, ask.event, ask.provider).None? && DiagnosticOf(r, ask.event, ask.provider).None? && r != CAPACITY_FRAME
    ensures r == CAPACITY_FRAME ==> PreEffectError(r, ask.event, ask.provider).None?
  {
    assert "to" in AcceptedFrame(ask.event, ask.to, ask.deliveryProvider).Keys && "to" !in CAPACITY_FRAME.Keys;
    assert "to" !in {"schema_version", "event_id", "status", "provider", "error"};
    assert "to" !in {"schema_version", "event_id", "status", "provider", "diagnostic"};
    assert "detail" in CAPACITY_FRAME.Keys && "detail" !in {"schema_version", "event_id", "status", "provider", "error"};
  }

  /** Reading a rejection undoes writing one, and nothing else is read as one. */
  lemma RejectionIsExact(r: Response, e: EventId, provider: string)
    ensures PreEffectError(r, e, provider).Some? ==>
      Printable(PreEffectError(r, e, provider).value) && r == RejectedFrame(e, provider, PreEffectError(r, e, provider).value)
    ensures forall x :: Printable(x) && r == RejectedFrame(e, provider, x) ==> PreEffectError(r, e, provider) == Some(x)
  {
    forall x | Printable(x) && r == RejectedFrame(e, provider, x) ensures PreEffectError(r, e, provider) == Some(x) {
      assert r.Keys == {"schema_version", "event_id", "status", "provider", "error"};
    }
  }

  // -- the loop -----------------------------------------------------------------------

  /** One attempt: the frame was never written, no usable reply came back, or a reply
      frame was read; `room` says whether the deadline allows another attempt. */
  datatype Exchange = NotWritten | NoReply | Replied(frame: Response, room: bool)

  /** Only an answer that proves nothing was dispatched is retried. */
  predicate RetryAfter(read: Response -> Verdict, x: Exchange) {
    x.Replied? && x.room && (read(x.frame).Busy? || read(x.frame).Capacity?)
  }

  function OutcomeAfter(read: Response -> Verdict, x: Exchange): Status {
    match x
    case NotWritten => PreEffectRejected
    case NoReply => UnknownDelivery
    case Replied(frame, _) => OutcomeOf(read(frame))
  }

  /** How many attempts the loop makes before it decides, or None while undecided. */
  function Attempts(read: Response -> Verdict, xs: seq<Exchange>): (n: Option<nat>)
    ensures n.Some? ==> 1 <= n.value <= |xs|
    decreases |xs|
  {
    if xs == [] then None
    else if !RetryAfter(read, xs[0]) then Some(1)
    else
      var rest := Attempts(read, xs[1..]);
      if rest.Some? then Some(rest.value + 1) else None
  }

  /** Attempt n decides, and every earlier one asked for another attempt. */
  predicate FirstDecided(read: Response -> Verdict, xs: seq<Exchange>, n: nat) {
    && 1 <= n <= |xs| && !RetryAfter(read, xs[n - 1])
    && (forall i :: 0 <= i < n - 1 ==> RetryAfter(read, xs[i]))
  }

  lemma {:induction false} AttemptsMeaning(read: Response -> Verdict, xs: seq<Exchange>)
    ensures Attempts(read, xs).None? <==> forall i :: 0 <= i < |xs| ==> RetryAfter(read, xs[i])
    ensures Attempts(read, xs).Some? ==> FirstDecided(read, xs, Attempts(read, xs).value)
    decreases |xs|
  {
    if xs != [] && RetryAfter(read, xs[0]) {
      AttemptsMeaning(read, xs[1..]);
      forall i | 0 <= i < |xs| && Attempts(read, xs).None? ensures RetryAfter(read, xs[i]) {
        if i > 0 { assert xs[i] == xs[1..][i - 1]; }
      }
      assert forall i :: 1 <= i < |xs| ==> xs[i] == xs[1..][i - 1];
    }
  }

  /** The retry loop, for any way to read a reply frame. */
  method SendReading(store: Store, e: EventId, read: Response -> Verdict, xs: seq<Exchange>, now: Seconds)
    returns (outcome: Option<Status>)
    modifies store
    ensures outcome.Some? <==> Attempts(read, xs).Some?
    ensures outcome.Some? ==>
      && outcome.value == OutcomeAfter(read, xs[Attempts(read, xs).value - 1])
      && store.rows == Mark(old(store.rows), e, outcome.value, now)
    ensures outcome.None? ==> store.rows == old(store.rows)
  {
    AttemptsMeaning(read, xs);
    var i := 0;
    outcome := None;
    while i < |xs|
      invariant 0 <= i <= |xs|
      invariant store.rows == old(store.rows) && outcome.None?
      invariant forall k :: 0 <= k < i ==> RetryAfter(read, xs[k])
    {
      var x := xs[i];
      if x.NotWritten? {
        var _ := store.MarkOutcome(e, PreEffectRejected, now);
        return Some(PreEffectRejected);
      }
      if x.NoReply? {
        var _ := store.MarkOutcome(e, UnknownDelivery, now);
        return Some(UnknownDelivery);
      }
      var verdict := read(x.frame);
      if !x.room || !(verdict.Busy? || verdict.Capacity?) {
        var _ := store.MarkOutcome(e, OutcomeOf(verdict), now);
        return Some(OutcomeOf(verdict));
      }
      i := i + 1;
    }
  }

  function Reading(ask: Ask): Response -> Verdict { r => Classify(ask, r) }

  /** Send one begun event: attempt, read the reply frame, retry only on a proven
      no-dispatch answer, and record the outcome. Undecided only if the process dies. */
  method SendBegun(store: Store, ask: Ask, xs: seq<Exchange>, now: Seconds) returns (outcome: Option<Status>)
    modifies store
    ensures outcome.Some? <==> Attempts(Reading(ask), xs).Some?
    ensures outcome.Some? ==>
      && outcome.value == OutcomeAfter(Reading(ask), xs[Attempts(Reading(ask), xs).value - 1])
      && store.rows == Mark(old(store.rows), ask.event, outcome.value, now)
    ensures outcome.None? ==> store.rows == old(store.rows)
  {
    outcome := SendReading(store, ask.event, Reading(ask), xs, now);
  }

  /** The exchange proves that nothing was dispatched: nothing was written, or the reply
      is an exact rejection of this event, or a broker's refusal to read it. */
  ghost predicate ProvesNoEffect(ask: Ask, x: Exchange) {
    x.NotWritten?
    || (x.Replied? && ((exists error :: Rejects(ask, x.frame, error)) || (ask.reach.Remote? && Refuses(x.frame))))
  }

  /** The reply asks for another attempt and there is time for one: a local courier
      is busy with another delivery, or a remote broker is at capacity. */
  predicate AsksAgain(ask: Ask, x: Exchange) {
    && x.Replied? && x.room
    && (if ask.reach.Local? then Rejects(ask, x.frame, COURIER_BUSY) else Refuses(x.frame))
  }

  lemma RetriedIfAsked(ask: Ask, x: Exchange)
    ensures RetryAfter(Reading(ask), x) <==> AsksAgain(ask, x)
    ensures RetryAfter(Reading(ask), x) ==> ProvesNoEffect(ask, x)
  {
    if x.Replied? { ClassifyIsExact(ask, x.frame); }
  }

  lemma NoEffectVerdicts(ask: Ask, x: Exchange)
    ensures OutcomeAfter(Reading(ask), x).PreEffectRejected? <==> ProvesNoEffect(ask, x)
    ensures RetryAfter(Reading(ask), x) <==> AsksAgain(ask, x)
    ensures RetryAfter(Reading(ask), x) ==> ProvesNoEffect(ask, x)
    ensures OutcomeAfter(Reading(ask), x).TransportAccepted? <==> x.Replied? && Accepts(ask, x.frame)
    ensures var o := OutcomeAfter(Reading(ask), x); o.PreEffectRejected? || o.TransportAccepted? || o.UnknownDelivery?
  {
    RetriedIfAsked(ask, x);
    if x.Replied? { ClassifyIsExact(ask, x.frame); }
  }

  /** What holds of the reading loop once it is known which exchanges prove that nothing
      was dispatched. */
  lemma DecidedByProofs(read: Response -> Verdict, xs: seq<Exchange>, proves: seq<bool>)
    requires Attempts(read, xs).Some? && |proves| == |xs|
    requires forall i :: 0 <= i < |xs| ==> (OutcomeAfter(read, xs[i]).PreEffectRejected? <==> proves[i])
    requires forall i :: 0 <= i < |xs| ==> (RetryAfter(read, xs[i]) ==> proves[i])
    ensures OutcomeAfter(read, xs[Attempts(read, xs).value - 1]).PreEffectRejected? <==>
      forall i :: 0 <= i < Attempts(read, xs).value ==> proves[i]
    ensures forall i :: 0 <= i < Attempts(read, xs).value - 1 ==> proves[i]
  {
    AttemptsMeaning(read, xs);
  }

  /** A send is called rejected exactly when every one of its attempts proved that
      nothing was dispatched, and accepted exactly on an exact acceptance frame. */
  lemma OutcomesAreProved(ask: Ask, xs: seq<Exchange>)
    requires Attempts(Reading(ask), xs).Some?
    ensures (
      var n := Attempts(Reading(ask), xs).value;
      var last := xs[n - 1];
      && (OutcomeAfter(Reading(ask), last).PreEffectRejected? <==> forall i :: 0 <= i < n ==> ProvesNoEffect(ask, xs[i]))
      && (OutcomeAfter(Reading(ask), last).TransportAccepted? <==>
            last.Replied? && Accepts(ask, last.frame))
      && (forall i :: 0 <= i < n - 1 ==> ProvesNoEffect(ask, xs[i])))
  {
    var proves := seq(|xs|, i requires 0 <= i < |xs| => ProvesNoEffect(ask, xs[i]));
    forall i | 0 <= i < |xs|
      ensures OutcomeAfter(Reading(ask), xs[i]).PreEffectRejected? <==> proves[i]
      ensures RetryAfter(Reading(ask), xs[i]) ==> proves[i]
    {
      NoEffectVerdicts(ask, xs[i]);
    }
    DecidedByProofs(Reading(ask), xs, proves);
    NoEffectVerdicts(ask, xs[Attempts(Reading(ask), xs).value - 1]);
    ProofsAre(ask, xs, proves, Attempts(Reading(ask), xs).value);
  }

  lemma ProofsAre(ask: Ask, xs: seq<Exchange>, proves: seq<bool>, n: nat)
    requires |proves| == |xs| && forall i :: 0 <= i < |xs| ==> proves[i] == ProvesNoEffect(ask, xs[i])
    requires n <= |xs|
    ensures (forall i :: 0 <= i < n ==> proves[i]) <==> forall i :: 0 <= i < n ==> ProvesNoEffect(ask, xs[i])
  {
  }

  lemma StopsExactly(read: Response -> Verdict, xs: seq<Exchange>, asks: Exchange -> bool, n: nat)
    requires forall i :: 0 <= i < |xs| ==> (RetryAfter(read, xs[i]) <==> asks(xs[i]))
    ensures Attempts(read, xs) == Some(n) <==>
      1 <= n <= |xs| && !asks(xs[n - 1]) && forall i :: 0 <= i < n - 1 ==> asks(xs[i])
  {
    AttemptsMeaning(read, xs);
    if Attempts(read, xs).Some? {
      var m := Attempts(read, xs).value;
      assert FirstDecided(read, xs, m);
      if 1 <= n <= |xs| && n != m { assert RetryAfter(read, xs[if n < m then n - 1 else m - 1]) <==> n < m; }
    } else if 1 <= n <= |xs| {
      assert RetryAfter(read, xs[n - 1]);
    }
  }

  /** The loop goes on exactly while it is asked to and there is time: it stops at the
      first reply that does not ask for another attempt. */
  lemma RetriesExactly(ask: Ask, xs: seq<Exchange>, n: nat)
    ensures Attempts(Reading(ask), xs) == Some(n) <==>
      1 <= n <= |xs| && !AsksAgain(ask, xs[n - 1]) && forall i :: 0 <= i < n - 1 ==> AsksAgain(ask, xs[i])
  {
    var asks := x => AsksAgain(ask, x);
    forall i | 0 <= i < |xs| ensures RetryAfter(Reading(ask), xs[i]) <==> asks(xs[i]) { NoEffectVerdicts(ask, xs[i]); }
    StopsExactly(Reading(ask), xs, asks, n);
  }
}
