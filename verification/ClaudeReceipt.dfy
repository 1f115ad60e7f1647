/**
 * From the gate's markers and the analyzed stream to one verdict on a Claude
 * delivery: delivered, refused before any effect, or unknown.
 */
module ClaudeReceipt {
  import opened Collections
  import opened HookFrames
  import opened ToolGraph

  const REFUSAL_KEYS: set<string> := {"success", "message", "display"}

  /** The provider's decided refusal, and nothing else. */
  function RefusalReason(p: Payload): Option<string> {
    if {"success", "message"} <= p.Keys && p.Keys <= REFUSAL_KEYS
       && p["success"] == Flag(false) && p["message"].Text? && ("display" in p ==> p["display"].Text?)
    then Some(p["message"].s) else None
  }

  /** The exact receipt of one created message. */
  function ReceiptId(p: Payload): Option<string> {
    if p.Keys == {"success", "message", "msg_id"} && p["success"] == Flag(true)
       && p["message"].Text? && p["msg_id"].Text? && Uuid(p["msg_id"].s)
    then Some(p["msg_id"].s) else None
  }

  /** Anything in a result that says a message was created. */
  predicate ShowsEffect(p: Payload) { "msg_id" in p || ("success" in p && p["success"] == Flag(true)) }

  /** A refusal is exactly a false success with a text, shown or not; a receipt is
      exactly a true success with a text and a message id. */
  lemma PayloadsAreExact(p: Payload)
    ensures forall reason :: RefusalReason(p) == Some(reason) <==>
      || p == map["success" := Flag(false), "message" := Text(reason)]
      || exists shown :: p == map["success" := Flag(false), "message" := Text(reason), "display" := Text(shown)]
    ensures forall id :: ReceiptId(p) == Some(id) <==>
      Uuid(id) && exists text :: p == map["success" := Flag(true), "message" := Text(text), "msg_id" := Text(id)]
  {
    forall reason
      ensures RefusalReason(p) == Some(reason) <==>
        || p == map["success" := Flag(false), "message" := Text(reason)]
        || exists shown :: p == map["success" := Flag(false), "message" := Text(reason), "display" := Text(shown)]
    {
      RefusalForm(p, reason);
    }
    forall id
      ensures ReceiptId(p) == Some(id) <==>
        Uuid(id) && exists text :: p == map["success" := Flag(true), "message" := Text(text), "msg_id" := Text(id)]
    {
      ReceiptForm(p, id);
    }
  }

  lemma RefusalForm(p: Payload, reason: string)
    ensures RefusalReason(p) == Some(reason) <==>
      || p == map["success" := Flag(false), "message" := Text(reason)]
      || exists shown :: p == map["success" := Flag(false), "message" := Text(reason), "display" := Text(shown)]
  {
    if RefusalReason(p) == Some(reason) {
      if "display" in p {
        assert p.Keys == {"success", "message", "display"};
        assert p == map["success" := Flag(false), "message" := Text(reason), "display" := Text(p["display"].s)];
      } else {
        assert p.Keys == {"success", "message"};
        assert p == map["success" := Flag(false), "message" := Text(reason)];
      }
    }
  }

  lemma ReceiptForm(p: Payload, id: string)
    ensures ReceiptId(p) == Some(id) <==>
      Uuid(id) && exists text :: p == map["success" := Flag(true), "message" := Text(text), "msg_id" := Text(id)]
  {
    if ReceiptId(p) == Some(id) {
      assert p == map["success" := Flag(true), "message" := Text(p["message"].s), "msg_id" := Text(id)];
    }
    forall text | p == map["success" := Flag(true), "message" := Text(text), "msg_id" := Text(id)] && Uuid(id)
      ensures ReceiptId(p) == Some(id)
    {
      assert p.Keys == {"success", "message", "msg_id"};
    }
  }

  datatype Verdict = Delivered(id: string) | Refused | Unknown

  function Matching(answers: seq<Event>, id: string): seq<Event>
    decreases |answers|
  {
    if answers == [] then []
    else Matching(answers[..|answers| - 1], id) + (if answers[|answers| - 1].id == id then [answers[|answers| - 1]] else [])
  }

  // -- shapes of closed graphs --------------------------------------------------------------------------

  lemma {:induction false} NoUsesNoEvents(es: seq<Event>)
    requires Closed(es) && UsesOf(es) == []
    ensures es == []
    decreases |es|
  {
    if es != [] {
      var init := es[..|es| - 1];
      assert es == init + [es[|es| - 1]];
      ClosedMeaning(es);
      assert FreshAt(es, |es| - 1);
      ClosedPrefix(init, [es[|es| - 1]]);
      NoUsesNoEvents(init);
    }
  }

  /** With one use, there is at most its one answer, right after it. */
  lemma {:induction false} OneUseShape(es: seq<Event>)
    requires Closed(es) && |UsesOf(es)| == 1
    ensures es == [Use(UsesOf(es)[0])]
         || (|es| == 2 && es[0] == Use(UsesOf(es)[0]) && es[1].Answer? && es[1].id == UsesOf(es)[0])
    decreases |es|
  {
    var init, last := es[..|es| - 1], es[|es| - 1];
    assert es == init + [last];
    ClosedPrefix(init, [last]);
    ClosedMeaning(es);
    assert FreshAt(es, |es| - 1);
    if last.Use? {
      NoUsesNoEvents(init);
    } else {
      assert exists j :: 0 <= j < |init| && init[j] == es[j] == Use(last.id);
      assert forall j :: 0 <= j < |init| && init[j].Answer? ==> init[j] == es[j] && init[j].id != last.id;
      OneUseShape(init);
    }
  }

  lemma AnswersOfOneUse(es: seq<Event>)
    requires Closed(es) && |UsesOf(es)| == 1
    ensures |es| == 1 ==> AnswersOf(es) == []
    ensures |es| == 2 ==> AnswersOf(es) == [es[1]]
    ensures |es| <= 2
  {
    OneUseShape(es);
    if |es| == 1 {
      assert es[..0] == [];
    } else {
      assert es[..1] == [es[0]] && es[..1][..0] == [];
      assert AnswersOf(es[..1]) == [];
    }
  }

  /** Results map injectively to earlier uses. */
  lemma ResultsAnswerDistinctEarlierUses(es: seq<Event>, i: nat, k: nat)
    requires Closed(es) && i < |es| && k < |es| && i != k && es[i].Answer? && es[k].Answer?
    ensures exists j, l :: 0 <= j < i && 0 <= l < k && j != l && es[j] == Use(es[i].id) && es[l] == Use(es[k].id)
  {
    ClosedMeaning(es);
    assert FreshAt(es, i) && FreshAt(es, k);
    var j :| 0 <= j < i && es[j] == Use(es[i].id);
    var l :| 0 <= l < k && es[l] == Use(es[k].id);
    assert es[i].id != es[k].id;
  }

  // -- the consumed path ------------------------------------------------------------------------------------

  function Receipt(a: Analysis): Verdict {
    if a.Invalid? || |a.uses| != 1 then Unknown
    else
      var matches := Matching(a.answers, a.uses[0]);
      if |matches| != 1 || !matches[0].Answer? then Unknown
      else if RefusalReason(matches[0].payload).Some? then Refused
      else if ReceiptId(matches[0].payload).Some? then Delivered(ReceiptId(matches[0].payload).value)
      else Unknown
  }

  function AnalysisOf(rs: seq<Record>): Analysis { Analysis(UsesOf(EventsOf(rs)), AnswersOf(EventsOf(rs))) }

  /** A receipt is read exactly when the stream's whole tool traffic is one
      SendMessage use and then its one result, whose payload is an exact receipt
      (delivered) or an exact refusal (refused). */
  lemma ReceiptIsExact(rs: seq<Record>, id: string)
    requires AcceptedStream(rs)
    ensures Receipt(AnalysisOf(rs)) == Delivered(id) <==>
      (var es := EventsOf(rs); |es| == 2 && es[0].Use? && es[1].Answer? && es[1].id == es[0].id && ReceiptId(es[1].payload) == Some(id))
    ensures Receipt(AnalysisOf(rs)) == Refused <==>
      (var es := EventsOf(rs); |es| == 2 && es[0].Use? && es[1].Answer? && es[1].id == es[0].id && RefusalReason(es[1].payload).Some?)
  {
    ReceiptOfEvents(EventsOf(rs), id);
  }

  lemma ReceiptOfEvents(es: seq<Event>, id: string)
    requires Closed(es)
    ensures Receipt(Analysis(UsesOf(es), AnswersOf(es))) == Delivered(id) <==>
      |es| == 2 && es[0].Use? && es[1].Answer? && es[1].id == es[0].id && ReceiptId(es[1].payload) == Some(id)
    ensures Receipt(Analysis(UsesOf(es), AnswersOf(es))) == Refused <==>
      |es| == 2 && es[0].Use? && es[1].Answer? && es[1].id == es[0].id && RefusalReason(es[1].payload).Some?
  {
    if |es| == 2 && es[0].Use? && es[1].Answer? {
      assert es[..1] == [es[0]] && es[..1][..0] == [];
      assert UsesOf(es[..1]) == [es[0].id] && UsesOf(es) == [es[0].id];
    }
    if |UsesOf(es)| == 1 {
      OneUseShape(es);
      AnswersOfOneUse(es);
      var answers, use := AnswersOf(es), UsesOf(es)[0];
      if |es| == 2 {
        assert answers[..0] == [] && Matching(answers, use) == [es[1]];
      }
    }
  }

  lemma RefusalShowsNoEffect(p: Payload)
    requires RefusalReason(p).Some?
    ensures !ShowsEffect(p)
  {
    assert "msg_id" !in REFUSAL_KEYS;
  }

  // -- the path without a consumed gate -----------------------------------------------------------------------

  ghost predicate RefusedUnconsumed(denied: bool, uses: seq<string>, answers: seq<Event>) {
    if denied then
      |uses| <= 1 && (uses != [] ==> answers != [])
      && forall i :: 0 <= i < |answers| ==>
           answers[i].Answer? && !ShowsEffect(answers[i].payload) && RefusalReason(answers[i].payload).Some?
    else uses == []
  }

  method UnconsumedOutcome(denied: bool, a: Analysis) returns (v: Verdict)
    ensures !v.Delivered?
    ensures v.Refused? <==> a.Analysis? && RefusedUnconsumed(denied, a.uses, a.answers)
  {
    if a.Invalid? { return Unknown; }
    if denied {
      if |a.uses| > 1 { return Unknown; }
      for k := 0 to |a.answers|
        invariant forall i :: 0 <= i < k ==>
          a.answers[i].Answer? && !ShowsEffect(a.answers[i].payload) && RefusalReason(a.answers[i].payload).Some?
      {
        var result := a.answers[k];
        if !result.Answer? { return Unknown; }
        if ShowsEffect(result.payload) { return Unknown; }
        if RefusalReason(result.payload).None? { return Unknown; }
      }
      if a.uses != [] && a.answers == [] { return Unknown; }
      return Refused;
    }
    return if a.uses == [] then Refused else Unknown;
  }

  lemma {:induction false} AnswersCoverEvents(es: seq<Event>, i: nat)
    requires i < |es| && es[i].Answer?
    ensures es[i] in AnswersOf(es)
    decreases |es|
  {
    if i < |es| - 1 { AnswersCoverEvents(es[..|es| - 1], i); }
  }

  // -- the whole send --------------------------------------------------------------------------------------------

  /** What the parent observed: whether the helper ended normally, the markers (an
      unreadable one is None), and the stream. */
  datatype Observation = Observation(ended: bool, consumed: Option<bool>, denied: Option<bool>, records: seq<Record>)

  /** The stream's whole tool traffic is one use and then its one result. */
  predicate OneExchange(es: seq<Event>) { |es| == 2 && es[0].Use? && es[1].Answer? && es[1].id == es[0].id }

  /** The verdict on a consumed gate. */
  method ConsumedOutcome(records: seq<Record>, a: Analysis) returns (v: Verdict)
    requires AcceptedStream(records) && a == AnalysisOf(records)
    ensures v.Delivered? <==> OneExchange(EventsOf(records)) && ReceiptId(EventsOf(records)[1].payload).Some?
    ensures v.Delivered? ==> ReceiptId(EventsOf(records)[1].payload) == Some(v.id)
    ensures v.Refused? <==> OneExchange(EventsOf(records)) && RefusalReason(EventsOf(records)[1].payload).Some?
  {
    v := Receipt(a);
    ghost var es := EventsOf(records);
    ReceiptIsExact(records, if v.Delivered? then v.id else "");
    if OneExchange(es) && ReceiptId(es[1].payload).Some? { ReceiptIsExact(records, ReceiptId(es[1].payload).value); }
  }

  /** Delivered exactly with a consumed gate and an exact receipt; refused exactly with
      an exact refusal or, the gate untouched, with nothing that could be an effect;
      and unknown whenever a marker or the stream cannot be trusted. */
  method SendOutcome(o: Observation) returns (v: Verdict)
    ensures v.Delivered? <==> (
      && o.ended && o.consumed == Some(true) && o.denied == Some(false) && AcceptedStream(o.records)
      && OneExchange(EventsOf(o.records)) && ReceiptId(EventsOf(o.records)[1].payload).Some?)
    ensures v.Delivered? ==> ReceiptId(EventsOf(o.records)[1].payload) == Some(v.id)
    ensures v.Refused? <==> (
      && o.ended && o.denied.Some? && AcceptedStream(o.records)
      && (|| (o.consumed == Some(true) && !o.denied.value
              && OneExchange(EventsOf(o.records)) && RefusalReason(EventsOf(o.records)[1].payload).Some?)
          || (o.consumed == Some(false)
              && RefusedUnconsumed(o.denied.value, UsesOf(EventsOf(o.records)), AnswersOf(EventsOf(o.records))))))
  {
    if !o.ended || o.consumed.None? || o.denied.None? { return Unknown; }
    if o.consumed.value && o.denied.value { return Unknown; }
    var a := StreamToolRecords(o.records);
    if a.Invalid? { return Unknown; }
    if o.consumed.value {
      v := ConsumedOutcome(o.records, a);
    } else {
      v := UnconsumedOutcome(o.denied.value, a);
    }
  }

  /** A send that is called refused hides no effect: no result in its stream shows one. */
  lemma RefusedHidesNoEffect(es: seq<Event>, denied: bool)
    requires Closed(es)
    requires (OneExchange(es) && RefusalReason(es[1].payload).Some?) || RefusedUnconsumed(denied, UsesOf(es), AnswersOf(es))
    ensures forall i :: 0 <= i < |es| && es[i].Answer? ==> !ShowsEffect(es[i].payload)
  {
    if OneExchange(es) && RefusalReason(es[1].payload).Some? {
      RefusalShowsNoEffect(es[1].payload);
    } else {
      UnconsumedShowsNoEffect(denied, es);
    }
  }

  /** A refusal without a consumed gate: no result in the stream shows an effect. */
  lemma UnconsumedShowsNoEffect(denied: bool, es: seq<Event>)
    requires Closed(es) && RefusedUnconsumed(denied, UsesOf(es), AnswersOf(es))
    ensures forall i :: 0 <= i < |es| && es[i].Answer? ==> !ShowsEffect(es[i].payload)
  {
    if !denied { NoUsesNoEvents(es); }
    forall i | 0 <= i < |es| && es[i].Answer? ensures !ShowsEffect(es[i].payload) {
      AnswersCoverEvents(es, i);
    }
  }
}
