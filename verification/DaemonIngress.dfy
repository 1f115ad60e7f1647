/**
 * Delivering one message to the daemon that owns the session: the call loop that
 * waits for its own reply among notifications, and how an accept is classified
 * when anything fails on the way.
 */
module DaemonIngress {
  import opened Collections

  const REFUSAL_CODES: set<int> := {-32600, -32601, -32602}

  datatype Ident = Mine | Other | Boolean

  /** The error member of a reply; a code that is not an integer is None. */
  datatype Fault = NoError | Coded(code: Option<int>) | NotRecord

  datatype Outcome = NoResult | Record | NotARecord

  datatype Value = NotObject | Object(id: Ident, result: Outcome, error: Fault)

  /** One read: a decoded message, or a failure (timeout, end of stream, bad frame). */
  datatype Arrival = Failed | Arrived(value: Value)

  datatype Reply = Returned | Refused | Uncertain | Malformed | Lost

  /** A reply to our own id, or one that cannot be passed over. */
  predicate Decides(a: Arrival) { a.Failed? || a.value.NotObject? || !a.value.id.Other? }

  function Judge(a: Arrival, effect: bool): Reply
    requires Decides(a)
  {
    if a.Failed? then Lost
    else if a.value.NotObject? || a.value.id.Boolean? then Malformed
    else if !a.value.result.NoResult? && !a.value.error.NoError? then Malformed
    else if a.value.error.Coded? then
      if !effect || (a.value.error.code.Some? && a.value.error.code.value in REFUSAL_CODES) then Refused else Uncertain
    else if a.value.error.NotRecord? || !a.value.result.Record? then Malformed
    else Returned
  }

  /** The reply is the first deciding arrival; running dry is a lost connection. */
  function ReplyTo(incoming: seq<Arrival>, effect: bool): (r: Reply)
    ensures r.Uncertain? ==> effect
    decreases |incoming|
  {
    if incoming == [] then Lost
    else if Decides(incoming[0]) then Judge(incoming[0], effect)
    else ReplyTo(incoming[1..], effect)
  }

  predicate Passed(incoming: seq<Arrival>, n: nat) { forall i :: 0 <= i < n && i < |incoming| ==> !Decides(incoming[i]) }

  lemma {:induction false} FirstDecider(incoming: seq<Arrival>, effect: bool, n: nat)
    requires n <= |incoming| && Passed(incoming, n)
    ensures n == |incoming| ==> ReplyTo(incoming, effect) == Lost
    ensures n < |incoming| && Decides(incoming[n]) ==> ReplyTo(incoming, effect) == Judge(incoming[n], effect)
    decreases n
  {
    if n > 0 {
      assert forall i :: 0 <= i < |incoming[1..]| ==> incoming[1..][i] == incoming[i + 1];
      FirstDecider(incoming[1..], effect, n - 1);
    }
  }

  /** An explicit refusal by the daemon of exactly this request. */
  predicate RefusedOutright(a: Arrival) {
    && a.Arrived? && a.value.Object? && a.value.id.Mine? && a.value.result.NoResult?
    && a.value.error.Coded? && a.value.error.code.Some? && a.value.error.code.value in REFUSAL_CODES
  }

  /** An effect request counts as refused exactly when the first arrival that
      decides it is the daemon's own invalid-request, unknown-method or
      invalid-parameters answer to it. */
  lemma {:induction false} RefusedMeansTheDaemonSaidSo(incoming: seq<Arrival>)
    ensures ReplyTo(incoming, true) == Refused <==>
      exists n: nat :: n < |incoming| && Passed(incoming, n) && RefusedOutright(incoming[n])
    decreases |incoming|
  {
    if incoming != [] {
      var rest := incoming[1..];
      assert forall i :: 0 <= i < |rest| ==> rest[i] == incoming[i + 1];
      if Decides(incoming[0]) {
        if RefusedOutright(incoming[0]) { assert Passed(incoming, 0); }
        forall n: nat | n < |incoming| && Passed(incoming, n) ensures n == 0 { }
      } else {
        RefusedMeansTheDaemonSaidSo(rest);
        forall n: nat | n < |rest| && Passed(rest, n) && RefusedOutright(rest[n])
          ensures Passed(incoming, n + 1) && RefusedOutright(incoming[n + 1]) { }
        forall n: nat | n < |incoming| && Passed(incoming, n) && RefusedOutright(incoming[n])
          ensures n > 0 && Passed(rest, n - 1) && RefusedOutright(rest[n - 1]) { }
      }
    }
  }

  /** The daemon's own answer to this request, with a record for a result. */
  predicate AnsweredWithARecord(a: Arrival) {
    a.Arrived? && a.value.Object? && a.value.id.Mine? && a.value.result.Record? && a.value.error.NoError?
  }

  /** A call returns exactly when the first arrival that decides it is such an answer. */
  lemma {:induction false} ReturnedMeansTheDaemonAnswered(incoming: seq<Arrival>, effect: bool)
    ensures ReplyTo(incoming, effect) == Returned <==>
      exists n: nat :: n < |incoming| && Passed(incoming, n) && AnsweredWithARecord(incoming[n])
    decreases |incoming|
  {
    if incoming != [] {
      var rest := incoming[1..];
      assert forall i :: 0 <= i < |rest| ==> rest[i] == incoming[i + 1];
      if Decides(incoming[0]) {
        if AnsweredWithARecord(incoming[0]) { assert Passed(incoming, 0); }
        forall n: nat | n < |incoming| && Passed(incoming, n) ensures n == 0 { }
      } else {
        ReturnedMeansTheDaemonAnswered(rest, effect);
        forall n: nat | n < |rest| && Passed(rest, n) && AnsweredWithARecord(rest[n])
          ensures Passed(incoming, n + 1) && AnsweredWithARecord(incoming[n + 1]) { }
        forall n: nat | n < |incoming| && Passed(incoming, n) && AnsweredWithARecord(incoming[n])
          ensures n > 0 && Passed(rest, n - 1) && AnsweredWithARecord(rest[n - 1]) { }
      }
    }
  }

  // -- the accept ---------------------------------------------------------------------------------

  /** Everything the environment decides about one accept. `written`: the effect
      request's bytes all left; a failed write may still have sent some. */
  datatype Attempt = Attempt(
    connected: bool,
    thread: seq<Arrival>, threadUsable: bool,
    active: bool, turns: seq<Arrival>, turnsUsable: bool,
    written: bool, effect: seq<Arrival>, echoed: bool)

  datatype Delivery = Accepted | Rejected | Unknown

  /** The effect request was begun. */
  predicate ReachesEffect(a: Attempt) {
    && a.connected
    && ReplyTo(a.thread, false).Returned? && a.threadUsable
    && (a.active ==> ReplyTo(a.turns, false).Returned? && a.turnsUsable)
  }

  class Client {
    var effectAttempted: bool

    constructor ()
      ensures !effectAttempted
    {
      effectAttempted := false;
    }

    method Call(written: bool, incoming: seq<Arrival>, effect: bool) returns (r: Reply)
      modifies this
      ensures r == if written then ReplyTo(incoming, effect) else Lost
      ensures effectAttempted == (!r.Refused? && (old(effectAttempted) || effect))
    {
      effectAttempted := effectAttempted || effect;
      if !written { return Lost; }
      var i := 0;
      while i < |incoming| && !Decides(incoming[i])
        invariant 0 <= i <= |incoming| && Passed(incoming, i)
      {
        i := i + 1;
      }
      FirstDecider(incoming, effect, i);
      if i == |incoming| { return Lost; }
      r := Judge(incoming[i], effect);
      if r.Refused? { effectAttempted := false; }
    }
  }

  /** A plain rejection is given exactly when the effect request was never begun or
      the daemon refused it outright; acceptance only on an exact echo. Everything
      else is unknown. */
  method Accept(a: Attempt) returns (d: Delivery)
    ensures d.Rejected? <==> !ReachesEffect(a) || (a.written && ReplyTo(a.effect, true).Refused?)
    ensures d.Accepted? <==> ReachesEffect(a) && a.written && ReplyTo(a.effect, true).Returned? && a.echoed
  {
    if !a.connected { return Rejected; }
    var client := new Client();
    var thread := client.Call(true, a.thread, false);
    if !thread.Returned? || !a.threadUsable {
      return if thread.Uncertain? || client.effectAttempted then Unknown else Rejected;
    }
    if a.active {
      var turns := client.Call(true, a.turns, false);
      if !turns.Returned? || !a.turnsUsable {
        return if turns.Uncertain? || client.effectAttempted then Unknown else Rejected;
      }
    }
    var effect := client.Call(a.written, a.effect, true);
    if effect.Returned? && a.echoed { return Accepted; }
    return if effect.Uncertain? || client.effectAttempted then Unknown else Rejected;
  }
}
