/**
 * The gate in front of the one SendMessage call a Claude courier may make: it
 * decides from the expectation alone, supplies the exact arguments, and lets
 * only the first allowed call through.
 */
module PretoolGate {
  import opened Collections
  import opened HookFrames

  /** A value in an argument object. */
  datatype Arg = Text(s: string) | Other

  type Arguments = map<string, Arg>

  const TOOL_INPUT_KEYS: set<string> := {"to", "recipient", "message", "content", "type", "summary", "recipient_kind"}
  const RECIPIENT_KIND_NAME := "name"

  /** What the sender wrote for the gate. `exact` says the file holds exactly these
      three members; the two patterns for the address and the summary are taken as
      given predicates of the strings. */
  datatype Expectation = Expectation(
    exact: bool, recipient: Arg, message: Arg, summary: Arg, addressOk: bool, summaryOk: bool)

  /** What the provider shows the hook. */
  datatype Call = NotAHookCall | HookCall(preTool: bool, sendMessage: bool, input: Option<Arguments>)

  datatype Denial = PayloadMismatch | GateDenied

  datatype Resolution = Deny(why: Denial) | Allow(arguments: Arguments)

  function Authoritative(recipient: string, message: string, summary: string): Arguments {
    map["to" := Text(recipient), "recipient" := Text(recipient), "message" := Text(message),
        "content" := Text(message), "type" := Text("message"), "summary" := Text(summary)]
  }

  function Resolve(e: Expectation, c: Call): Resolution {
    if !e.exact || !e.recipient.Text? || !e.message.Text? || !e.summary.Text? || !e.addressOk || !e.summaryOk
       || !c.HookCall? || !c.preTool || !c.sendMessage || c.input.None? then Deny(PayloadMismatch)
    else if !(c.input.value.Keys <= TOOL_INPUT_KEYS) then Deny(PayloadMismatch)
    else if "recipient_kind" in c.input.value && c.input.value["recipient_kind"] != Text(RECIPIENT_KIND_NAME)
      then Deny(PayloadMismatch)
    else if BoundedMessage(e.message.s) != Fine then Deny(PayloadMismatch)
    else Allow(Authoritative(e.recipient.s, e.message.s, e.summary.s))
  }

  /** The arguments say exactly what the sender wrote, field by field. */
  predicate Says(arguments: Arguments, e: Expectation) {
    && arguments.Keys == {"to", "recipient", "message", "content", "type", "summary"}
    && e.recipient.Text? && arguments["to"] == e.recipient && arguments["recipient"] == e.recipient
    && e.message.Text? && arguments["message"] == e.message && arguments["content"] == e.message
    && arguments["type"] == Text("message")
    && e.summary.Text? && arguments["summary"] == e.summary
  }

  /** A usable expectation: three texts, an address and a summary of the right form,
      and a message that the product's own bound admits. */
  predicate Usable(e: Expectation) {
    && e.exact && e.recipient.Text? && e.message.Text? && e.summary.Text? && e.addressOk && e.summaryOk
    && BoundedMessage(e.message.s).Fine?
  }

  /** The one call the gate is there for, proposing nothing it could not overrule. */
  predicate Expected(c: Call) {
    && c.HookCall? && c.preTool && c.sendMessage && c.input.Some?
    && (forall key :: key in c.input.value ==> key in TOOL_INPUT_KEYS)
    && ("recipient_kind" in c.input.value ==> c.input.value["recipient_kind"] == Text("name"))
  }

  /** A call is let through exactly if both are as they should be, and then with the
      sender's own values. */
  lemma ResolvesExactly(e: Expectation, c: Call)
    ensures Resolve(e, c).Allow? <==> Usable(e) && Expected(c)
    ensures Resolve(e, c).Allow? ==> Says(Resolve(e, c).arguments, e)
  {
    if c.HookCall? && c.input.Some? {
      assert c.input.value.Keys <= TOOL_INPUT_KEYS <==> forall key :: key in c.input.value ==> key in TOOL_INPUT_KEYS;
    }
  }

  /** The supplied arguments decide the call whether the provider replaces the
      proposal or merges into it: all that can survive a merge is the one kind the
      address form already means. */
  lemma MergingChangesNothing(e: Expectation, c: Call)
    requires Resolve(e, c).Allow?
    ensures (
      var supplied := Resolve(e, c).arguments;
      var merged := c.input.value + supplied;
      && Says(supplied, e) && Says(merged - {"recipient_kind"}, e)
      && ("recipient_kind" in merged ==> merged["recipient_kind"] == Text("name")))
  {
    var supplied := Resolve(e, c).arguments;
    var merged := c.input.value + supplied;
    ResolvesExactly(e, c);
    assert supplied.Keys + {"recipient_kind"} == TOOL_INPUT_KEYS;
    assert merged - {"recipient_kind"} == supplied;
  }

  // -- the markers -----------------------------------------------------------------------------------

  datatype Markers = Markers(consumed: bool, denied: bool)

  /** A hook that is killed answers nothing. */
  datatype Decision = Denied | Allowed(arguments: Arguments) | Silent

  /** What became of the consumed marker, whose creation is exclusive: it was created
      and written, it could not be created, it was created but writing it failed, or
      the hook was killed after creating it. */
  datatype Fate = Written | NotCreated | WriteFailed | Killed

  /** `readable`: the expectation and the payload could be read and are in bounds;
      `deniable`: the denied marker could be created. */
  datatype Firing = Firing(call: Call, readable: bool, fate: Fate, deniable: bool)

  /** The firing gets as far as creating the marker, if it is the first to. */
  predicate Creates(e: Expectation, f: Firing) { f.readable && Usable(e) && Expected(f.call) && !f.fate.NotCreated? }

  function Fire(m: Markers, e: Expectation, f: Firing): (Markers, Decision) {
    var denied := m.(denied := m.denied || f.deniable);
    if !f.readable || Resolve(e, f.call).Deny? || f.fate.NotCreated? || m.consumed then
      if f.fate.Killed? then (m, Silent) else (denied, Denied)
    else match f.fate
      case Written => (m.(consumed := true), Allowed(Resolve(e, f.call).arguments))
      case Killed => (m.(consumed := true), Silent)
      case _ => (denied.(consumed := true), Denied)
  }

  class Gate {
    const expectation: Expectation
    var consumed: bool
    var denied: bool

    constructor (e: Expectation)
      ensures expectation == e && !consumed && !denied
    {
      expectation, consumed, denied := e, false, false;
    }

    method Run(f: Firing) returns (d: Decision)
      modifies this
      ensures (Markers(consumed, denied), d) == Fire(Markers(old(consumed), old(denied)), expectation, f)
    {
      var allowed := false;
      var arguments: Arguments := map[];
      if f.readable {
        var resolution := Resolve(expectation, f.call);
        if resolution.Allow? && !consumed && !f.fate.NotCreated? {
          consumed := true;
          if f.fate.Killed? { return Silent; }
          allowed, arguments := f.fate.Written?, resolution.arguments;
        }
      }
      if !allowed {
        if f.fate.Killed? { return Silent; }
        denied := denied || f.deniable;
        return Denied;
      }
      return Allowed(arguments);
    }
  }

  function Decisions(m: Markers, e: Expectation, fs: seq<Firing>): (r: (Markers, seq<Decision>))
    ensures |r.1| == |fs|
    decreases |fs|
  {
    if fs == [] then (m, [])
    else
      var (next, d) := Fire(m, e, fs[0]);
      var (end, rest) := Decisions(next, e, fs[1..]);
      (end, [d] + rest)
  }

  /** The firing that creates the marker. */
  function Creator(e: Expectation, fs: seq<Firing>): Option<nat>
    decreases |fs|
  {
    if fs == [] then None
    else if Creates(e, fs[0]) then Some(0)
    else
      var rest := Creator(e, fs[1..]);
      if rest.Some? then Some(rest.value + 1) else None
  }

  lemma {:induction false} CreatorMeaning(e: Expectation, fs: seq<Firing>)
    ensures Creator(e, fs).None? <==> forall i :: 0 <= i < |fs| ==> !Creates(e, fs[i])
    ensures Creator(e, fs).Some? ==> Creator(e, fs).value < |fs| && Creates(e, fs[Creator(e, fs).value])
    ensures Creator(e, fs).Some? ==> forall i :: 0 <= i < Creator(e, fs).value ==> !Creates(e, fs[i])
    decreases |fs|
  {
    if fs != [] {
      CreatorMeaning(e, fs[1..]);
      assert forall i :: 1 <= i < |fs| ==> fs[i] == fs[1..][i - 1];
    }
  }

  lemma {:induction false} ConsumedDeniesAll(m: Markers, e: Expectation, fs: seq<Firing>)
    requires m.consumed
    ensures Decisions(m, e, fs).0.consumed
    ensures forall i :: 0 <= i < |fs| ==> !Decisions(m, e, fs).1[i].Allowed?
    decreases |fs|
  {
    if fs != [] {
      var next := Fire(m, e, fs[0]).0;
      ConsumedDeniesAll(next, e, fs[1..]);
      assert forall i :: 1 <= i < |fs| ==> Decisions(m, e, fs).1[i] == Decisions(next, e, fs[1..]).1[i - 1];
    }
  }

  /** The denied marker stands exactly if it did, or a denial could create it. */
  lemma {:induction false} DeniedMarkerStands(m: Markers, e: Expectation, fs: seq<Firing>)
    ensures Decisions(m, e, fs).0.denied <==>
      m.denied || exists i :: 0 <= i < |fs| && Decisions(m, e, fs).1[i].Denied? && fs[i].deniable
    decreases |fs|
  {
    if fs != [] {
      var (next, d) := Fire(m, e, fs[0]);
      DeniedMarkerStands(next, e, fs[1..]);
      var ds, rest := Decisions(m, e, fs).1, Decisions(next, e, fs[1..]).1;
      assert ds == [d] + rest;
      assert next.denied <==> m.denied || (ds[0].Denied? && fs[0].deniable);
      if i :| 0 <= i < |fs[1..]| && rest[i].Denied? && fs[1..][i].deniable {
        assert ds[i + 1].Denied? && fs[i + 1].deniable;
      }
      forall i | 1 <= i < |fs| && ds[i].Denied? && fs[i].deniable ensures Decisions(m, e, fs).0.denied {
        assert rest[i - 1].Denied? && fs[1..][i - 1].deniable;
      }
    }
  }

  /** However often the hook fires, at most one call is allowed, with exactly the
      sender's arguments: the one whose firing created the marker and wrote it. The
      marker stands afterwards exactly when some firing created it, so it stands
      without an allowed call exactly when that firing's write failed or it was killed. */
  lemma {:induction false} AtMostOneCallRuns(denied: bool, e: Expectation, fs: seq<Firing>)
    ensures (
      var (end, ds) := Decisions(Markers(false, denied), e, fs);
      var creator := Creator(e, fs);
      && (end.consumed <==> creator.Some?)
      && (end.denied <==> denied || exists i :: 0 <= i < |fs| && ds[i].Denied? && fs[i].deniable)
      && (creator.Some? ==> creator.value < |fs|)
      && (forall i :: 0 <= i < |fs| ==> (ds[i].Allowed? <==> creator == Some(i) && fs[i].fate.Written?))
      && (forall i :: 0 <= i < |fs| && ds[i].Allowed? ==>
            Usable(e) && Expected(fs[i].call) && Says(ds[i].arguments, e)))
    decreases |fs|
  {
    DeniedMarkerStands(Markers(false, denied), e, fs);
    if fs != [] {
      var m := Markers(false, denied);
      ResolvesExactly(e, fs[0].call);
      var (next, d) := Fire(m, e, fs[0]);
      var rest := Decisions(next, e, fs[1..]).1;
      assert forall i :: 1 <= i < |fs| ==> Decisions(m, e, fs).1[i] == rest[i - 1] && fs[i] == fs[1..][i - 1];
      if Creates(e, fs[0]) {
        ConsumedDeniesAll(next, e, fs[1..]);
      } else {
        AtMostOneCallRuns(next.denied, e, fs[1..]);
        assert next == Markers(false, next.denied);
      }
    }
  }
}
