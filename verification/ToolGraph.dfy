/**
 * What a Claude courier's output stream proves: the analyzer accepts only a
 * closed graph of SendMessage uses and results, and only such a graph decides
 * between delivered, refused and unknown.
 */
module ToolGraph {
  import opened Collections

  datatype Val = Flag(b: bool) | Text(s: string) | Other

  type Payload = map<string, Val>

  datatype ErrorFlag = NoFlag | ErrorFlag(set_: bool) | BadFlag

  /** `id` is None unless it is a string. `closed`: the block has exactly the
      measured keys; `payload`: its one exact text block, parsed. */
  datatype Block =
    | NotAnObject
    | Inert
    | ToolUse(id: Option<string>, sendMessage: bool)
    | ToolResult(closed: bool, error: ErrorFlag, id: Option<string>, payload: Option<Payload>)
    | Unrecognized

  datatype Kind = System | Assistant | User | RateLimit | Terminal(complete: bool) | Foreign

  datatype Body = NoContent | BadContent | Content(roleOk: bool, blocks: seq<Block>)

  datatype Record = Record(kind: Kind, body: Body)

  datatype Event = Use(id: string) | Answer(id: string, payload: Payload)

  // -- what the stream contains ---------------------------------------------------------------------

  predicate BlockOk(kind: Kind, b: Block, alone: bool) {
    match b
    case Inert => true
    case ToolUse(id, send) => kind.Assistant? && send && id.Some? && id.value != ""
    case ToolResult(closed, error, id, payload) =>
      kind.User? && alone && closed && !error.BadFlag? && error != ErrorFlag(true) && id.Some? && payload.Some?
    case _ => false
  }

  function EventOf(b: Block): seq<Event> {
    match b
    case ToolUse(Some(id), _) => [Use(id)]
    case ToolResult(_, _, Some(id), Some(payload)) => [Answer(id, payload)]
    case _ => []
  }

  function BlocksOf(r: Record): seq<Block> { if r.body.Content? then r.body.blocks else [] }

  predicate RecordOk(r: Record) {
    && !r.kind.Foreign?
    && (if r.kind.Assistant? || r.kind.User? then r.body.Content? && r.body.roleOk else !r.body.BadContent?)
    && BlocksOk(r.kind, BlocksOf(r))
  }

  predicate BlocksOk(kind: Kind, blocks: seq<Block>) {
    forall i :: 0 <= i < |blocks| ==> BlockOk(kind, blocks[i], |blocks| == 1)
  }

  function RecordEvents(r: Record): seq<Event> { FlatMap(EventOf, BlocksOf(r)) }

  /** All tool events of a stream, in order, with no checks. */
  function EventsOf(rs: seq<Record>): seq<Event> { FlatMap(RecordEvents, rs) }

  /** One complete terminal record, at the end. */
  predicate Ended(rs: seq<Record>) {
    && rs != [] && rs[|rs| - 1].kind == Terminal(true)
    && (forall i :: 0 <= i < |rs| - 1 ==> !rs[i].kind.Terminal?)
  }

  function UseIds(es: seq<Event>): set<string>
    decreases |es|
  {
    if es == [] then {}
    else UseIds(es[..|es| - 1]) + (if es[|es| - 1].Use? then {es[|es| - 1].id} else {})
  }

  function AnsweredIds(es: seq<Event>): set<string>
    decreases |es|
  {
    if es == [] then {}
    else AnsweredIds(es[..|es| - 1]) + (if es[|es| - 1].Answer? then {es[|es| - 1].id} else {})
  }

  /** A new use has a new id; a result answers an earlier use, for the first time. */
  predicate Attaches(es: seq<Event>, e: Event) {
    if e.Use? then e.id !in UseIds(es) else e.id in UseIds(es) && e.id !in AnsweredIds(es)
  }

  predicate Closed(es: seq<Event>)
    decreases |es|
  {
    es == [] || (Closed(es[..|es| - 1]) && Attaches(es[..|es| - 1], es[|es| - 1]))
  }

  lemma Grows(es: seq<Event>, e: Event)
    ensures Closed(es + [e]) <==> Closed(es) && Attaches(es, e)
    ensures UseIds(es + [e]) == UseIds(es) + (if e.Use? then {e.id} else {})
    ensures AnsweredIds(es + [e]) == AnsweredIds(es) + (if e.Answer? then {e.id} else {})
    ensures UsesOf(es + [e]) == UsesOf(es) + (if e.Use? then [e.id] else [])
    ensures AnswersOf(es + [e]) == AnswersOf(es) + (if e.Answer? then [e] else [])
  {
    assert (es + [e])[..|es|] == es;
  }

  lemma {:induction false} ClosedPrefix(es: seq<Event>, more: seq<Event>)
    requires Closed(es + more)
    ensures Closed(es)
    decreases |more|
  {
    if more == [] {
      assert es + more == es;
    } else {
      var init, last := more[..|more| - 1], more[|more| - 1];
      assert es + more == es + init + [last];
      Grows(es + init, last);
      ClosedPrefix(es, init);
    }
  }

  lemma {:induction false} IdsMeaning(es: seq<Event>, id: string)
    ensures id in UseIds(es) <==> exists j :: 0 <= j < |es| && es[j] == Use(id)
    ensures id in AnsweredIds(es) <==> exists j :: 0 <= j < |es| && es[j].Answer? && es[j].id == id
    decreases |es|
  {
    if es != [] {
      var init := es[..|es| - 1];
      IdsMeaning(init, id);
      assert forall j :: 0 <= j < |init| ==> init[j] == es[j];
    }
  }

  /** Said of the whole graph: no id is used twice, and every result answers an
      earlier use that nothing answered before. */
  predicate FreshAt(es: seq<Event>, i: nat)
    requires i < |es|
  {
    match es[i]
    case Use(id) => forall j :: 0 <= j < i ==> es[j] != Use(id)
    case Answer(id, _) =>
      (exists j :: 0 <= j < i && es[j] == Use(id)) && (forall j :: 0 <= j < i && es[j].Answer? ==> es[j].id != id)
  }

  lemma {:induction false} ClosedMeaning(es: seq<Event>)
    ensures Closed(es) <==> forall i :: 0 <= i < |es| ==> FreshAt(es, i)
    decreases |es|
  {
    if es != [] {
      var init, last := es[..|es| - 1], es[|es| - 1];
      ClosedMeaning(init);
      forall i | 0 <= i < |init| ensures FreshAt(es, i) <==> FreshAt(init, i) { SameFresh(es, init, i); }
      IdsMeaning(init, last.id);
      assert FreshAt(es, |init|) <==> Attaches(init, last) by {
        assert forall j :: 0 <= j < |init| ==> init[j] == es[j];
      }
    }
  }

  lemma SameFresh(es: seq<Event>, init: seq<Event>, i: nat)
    requires i < |init| <= |es| && init == es[..|init|]
    ensures FreshAt(es, i) <==> FreshAt(init, i)
  {
    assert forall j :: 0 <= j <= i ==> init[j] == es[j];
  }

  ghost predicate AcceptedStream(rs: seq<Record>) {
    Ended(rs) && RecordsOk(rs) && Closed(EventsOf(rs))
  }

  predicate RecordsOk(rs: seq<Record>) { forall i :: 0 <= i < |rs| ==> RecordOk(rs[i]) }

  // -- the analyzer -----------------------------------------------------------------------------------

  function UsesOf(es: seq<Event>): seq<string>
    decreases |es|
  {
    if es == [] then []
    else UsesOf(es[..|es| - 1]) + (if es[|es| - 1].Use? then [es[|es| - 1].id] else [])
  }

  function AnswersOf(es: seq<Event>): seq<Event>
    decreases |es|
  {
    if es == [] then []
    else AnswersOf(es[..|es| - 1]) + (if es[|es| - 1].Answer? then [es[|es| - 1]] else [])
  }

  datatype Analysis = Invalid | Analysis(uses: seq<string>, answers: seq<Event>)

  class Analyzer {
    var uses: seq<string>
    var answers: seq<Event>
    var useIds: set<string>
    var answered: set<string>
    ghost var events: seq<Event>

    ghost predicate Valid()
      reads this
    {
      && Closed(events) && uses == UsesOf(events) && answers == AnswersOf(events)
      && useIds == UseIds(events) && answered == AnsweredIds(events)
    }

    constructor ()
      ensures Valid() && events == []
    {
      uses, answers, useIds, answered, events := [], [], {}, {}, [];
    }

    method TakeUse(kind: Kind, id: Option<string>, send: bool) returns (ok: bool)
      requires Valid()
      modifies this
      ensures ok ==> Valid() && kind.Assistant? && send && id.Some? && id.value != "" && events == old(events) + [Use(id.value)]
      ensures !ok ==> !(kind.Assistant? && send && id.Some? && id.value != "") || !Closed(old(events) + [Use(id.value)])
    {
      if !kind.Assistant? || !send || id.None? || id.value == "" { return false; }
      Grows(events, Use(id.value));
      if id.value in useIds { return false; }
      useIds, uses := useIds + {id.value}, uses + [id.value];
      events := events + [Use(id.value)];
      return true;
    }

    method TakeResult(b: Block, kind: Kind, alone: bool) returns (ok: bool)
      requires Valid() && b.ToolResult?
      modifies this
      ensures ok ==> Valid() && BlockOk(kind, b, alone) && events == old(events) + [Answer(b.id.value, b.payload.value)]
      ensures !ok ==> !BlockOk(kind, b, alone) || !Closed(old(events) + [Answer(b.id.value, b.payload.value)])
    {
      if !kind.User? || !alone || !b.closed || b.error.BadFlag? || b.error == ErrorFlag(true) { return false; }
      if b.id.None? || b.payload.None? { return false; }
      var e := Answer(b.id.value, b.payload.value);
      Grows(events, e);
      if b.id.value !in useIds || b.id.value in answered { return false; }
      answered, answers := answered + {b.id.value}, answers + [e];
      events := events + [e];
      return true;
    }

    /** One content block; false stops the analysis. */
    method Take(kind: Kind, b: Block, alone: bool) returns (ok: bool)
      requires Valid()
      modifies this
      ensures ok ==> Valid() && BlockOk(kind, b, alone) && events == old(events) + EventOf(b)
      ensures !ok ==> !BlockOk(kind, b, alone) || !Closed(old(events) + EventOf(b))
    {
      if b.ToolUse? {
        ok := TakeUse(kind, b.id, b.sendMessage);
      } else if b.ToolResult? {
        ok := TakeResult(b, kind, alone);
      } else {
        ok := b.Inert?;
        assert events + [] == events;
      }
    }

    method TakeBlocks(kind: Kind, blocks: seq<Block>) returns (ok: bool)
      requires Valid()
      modifies this
      ensures ok ==> Valid() && BlocksOk(kind, blocks) && events == old(events) + FlatMap(EventOf, blocks)
      ensures !ok ==> !BlocksOk(kind, blocks) || !Closed(old(events) + FlatMap(EventOf, blocks))
    {
      ghost var all := events + FlatMap(EventOf, blocks);
      assert blocks[0..] == blocks;
      for k := 0 to |blocks|
        invariant Valid() && all == events + FlatMap(EventOf, blocks[k..])
        invariant forall i :: 0 <= i < k ==> BlockOk(kind, blocks[i], |blocks| == 1)
      {
        ghost var now, later := EventOf(blocks[k]), FlatMap(EventOf, blocks[k + 1..]);
        ghost var before := events;
        NextIn(EventOf, events, blocks, k);
        var taken := Take(kind, blocks[k], |blocks| == 1);
        if !taken {
          NeverClosedAgain(before + now, all, later);
          return false;
        }
      }
      assert blocks[|blocks|..] == [] && events + [] == events;
      return true;
    }

    method TakeRecord(r: Record) returns (ok: bool)
      requires Valid()
      modifies this
      ensures ok ==> Valid() && RecordOk(r) && events == old(events) + RecordEvents(r)
      ensures !ok ==> !RecordOk(r) || !Closed(old(events) + RecordEvents(r))
    {
      if r.kind.Foreign? { return false; }
      if r.kind.Assistant? || r.kind.User? {
        if !r.body.Content? || !r.body.roleOk { return false; }
      } else if r.body.BadContent? {
        return false;
      }
      ok := TakeBlocks(r.kind, BlocksOf(r));
    }

    method TakeAll(rs: seq<Record>) returns (ok: bool)
      requires Valid()
      modifies this
      ensures ok ==> Valid() && RecordsOk(rs) && events == old(events) + FlatMap(RecordEvents, rs)
      ensures !ok ==> !RecordsOk(rs) || !Closed(old(events) + FlatMap(RecordEvents, rs))
    {
      ghost var all := events + FlatMap(RecordEvents, rs);
      assert rs[0..] == rs;
      for k := 0 to |rs|
        invariant Valid() && all == events + FlatMap(RecordEvents, rs[k..])
        invariant forall i :: 0 <= i < k ==> RecordOk(rs[i])
      {
        ghost var now, later := RecordEvents(rs[k]), FlatMap(RecordEvents, rs[k + 1..]);
        ghost var before := events;
        NextIn(RecordEvents, events, rs, k);
        var taken := TakeRecord(rs[k]);
        if !taken {
          NeverClosedAgain(before + now, all, later);
          return false;
        }
      }
      assert rs[|rs|..] == [] && events + [] == events;
      return true;
    }
  }

  lemma NextIn<A>(f: A -> seq<Event>, es: seq<Event>, s: seq<A>, k: nat)
    requires k < |s|
    ensures es + FlatMap(f, s[k..]) == es + f(s[k]) + FlatMap(f, s[k + 1..])
  {
    assert s[k..][0] == s[k] && s[k..][1..] == s[k + 1..];
  }

  lemma NeverClosedAgain(seen: seq<Event>, all: seq<Event>, tail: seq<Event>)
    requires all == seen + tail
    ensures Closed(all) ==> Closed(seen)
  {
    if Closed(all) { ClosedPrefix(seen, tail); }
  }

  /** The analyzer accepts exactly the ended, well-shaped streams with a closed tool
      graph, and returns their uses and results in order. */
  method StreamToolRecords(rs: seq<Record>) returns (a: Analysis)
    ensures a.Analysis? <==> AcceptedStream(rs)
    ensures a.Analysis? ==> a.uses == UsesOf(EventsOf(rs)) && a.answers == AnswersOf(EventsOf(rs))
  {
    if rs == [] || rs[|rs| - 1].kind != Terminal(true) || exists i | 0 <= i < |rs| - 1 :: rs[i].kind.Terminal? {
      return Invalid;
    }
    var analyzer := new Analyzer();
    var ok := analyzer.TakeAll(rs);
    assert [] + FlatMap(RecordEvents, rs) == EventsOf(rs);
    if !ok { return Invalid; }
    return Analysis(analyzer.uses, analyzer.answers);
  }
}
