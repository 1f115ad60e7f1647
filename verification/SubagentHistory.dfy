/**
 * What the evidence of one session says, told from what was recorded: which
 * launches are awaited, which children are unfinished, and when the session is
 * uncertain, and so exactly which custody it has.
 */
module SubagentHistory {
  import opened Collections
  import opened SubagentStore

  datatype Op =
    | Launching(toolUse: Option<string>, profile: string)
    | Returning(returned: Option<string>, out: Output)
    | Reading(agent: Option<string>, report: Output)

  function Recorded(e: Evidence, op: Op): Evidence {
    match op
    case Launching(u, profile) => Launch(e, u, profile)
    case Returning(u, out) => Launched(e, u, out)
    case Reading(agent, out) => ReadAgent(e, agent, out)
  }

  function EvidenceOf(ops: seq<Op>): Evidence
    decreases |ops|
  {
    if ops == [] then Blank else Recorded(EvidenceOf(ops[..|ops| - 1]), ops[|ops| - 1])
  }

  // -- the same, without the evidence ------------------------------------------------------------------

  /** The launch at i is still awaited: nothing under its id was launched or returned since. */
  predicate Awaits(ops: seq<Op>, i: nat, u: string) {
    && i < |ops| && ops[i].Launching? && ops[i].toolUse == Some(u)
    && (forall j :: i < j < |ops| ==>
          !(ops[j].Launching? && ops[j].toolUse == Some(u)) && !(ops[j].Returning? && ops[j].returned == Some(u)))
  }

  predicate BuiltIn(profile: string) { profile == "subagent_explore" || profile == "subagent_general" }

  /** The return at i was of a launch that was awaited. */
  ghost predicate Observed(ops: seq<Op>, i: nat)
    requires i < |ops| && ops[i].Returning?
  {
    ops[i].returned.Some? && exists k: nat :: Awaits(ops[..i], k, ops[i].returned.value)
  }

  /** The return at i, of a built-in profile's awaited launch. */
  ghost predicate ReturnsBuiltIn(ops: seq<Op>, i: nat)
    requires i < |ops| && ops[i].Returning?
  {
    ops[i].returned.Some? && exists k: nat :: Awaits(ops[..i], k, ops[i].returned.value) && BuiltIn(ops[k].profile)
  }

  /** The return at i is the last that started x, and x was not reported finished since. */
  predicate Starts(ops: seq<Op>, i: nat, x: string) {
    && i < |ops| && ops[i].Returning? && ops[i].out.started == Some(x)
    && (forall j :: i < j < |ops| ==>
          !(ops[j].Returning? && ops[j].out.started == Some(x))
          && !(ops[j].Reading? && ops[j].agent == Some(x) && ops[j].report.finished == Some(x)))
  }

  /** The record at i leaves doubt: a launch without an id, a return of an unknown
      launch, or one that says neither that its subagent started nor that it finished. */
  ghost predicate Doubts(ops: seq<Op>, i: nat)
    requires i < |ops|
  {
    match ops[i]
    case Launching(u, _) => u.None?
    case Returning(_, out) => !Observed(ops, i) || (out.started.None? && out.finished.None?)
    case Reading(_, _) => false
  }

  ghost predicate Tells(ops: seq<Op>, e: Evidence) {
    && (forall u :: u in e.pending <==> exists i: nat :: Awaits(ops, i, u))
    && (forall i: nat, u :: Awaits(ops, i, u) ==> u in e.pending && e.pending[u] == !BuiltIn(ops[i].profile))
    && (forall x :: x in e.children <==> exists i: nat :: Starts(ops, i, x))
    && (forall i: nat, x :: Starts(ops, i, x) ==> x in e.children && e.children[x] == !ReturnsBuiltIn(ops, i))
    && (e.uncertain <==> exists i: nat :: i < |ops| && Doubts(ops, i))
  }

  // -- one more record --------------------------------------------------------------------------------------

  lemma AwaitsOn(ops: seq<Op>, op: Op, i: nat, u: string)
    requires i < |ops|
    ensures Awaits(ops + [op], i, u) <==>
      Awaits(ops, i, u) && !(op.Launching? && op.toolUse == Some(u)) && !(op.Returning? && op.returned == Some(u))
  {
    var more := ops + [op];
    assert more[|ops|] == op && forall j :: 0 <= j < |ops| ==> more[j] == ops[j];
  }

  lemma StartsOn(ops: seq<Op>, op: Op, i: nat, x: string)
    requires i < |ops|
    ensures Starts(ops + [op], i, x) <==>
      Starts(ops, i, x) && !(op.Returning? && op.out.started == Some(x))
      && !(op.Reading? && op.agent == Some(x) && op.report.finished == Some(x))
  {
    var more := ops + [op];
    assert more[|ops|] == op && forall j :: 0 <= j < |ops| ==> more[j] == ops[j];
  }

  lemma PastIsThePast(ops: seq<Op>, op: Op, i: nat)
    requires i < |ops|
    ensures (ops + [op])[..i] == ops[..i] && (ops + [op])[i] == ops[i]
    ensures Doubts(ops + [op], i) <==> Doubts(ops, i)
    ensures ops[i].Returning? ==> (ReturnsBuiltIn(ops + [op], i) <==> ReturnsBuiltIn(ops, i))
  {
    var more := ops + [op];
    assert more[..i] == ops[..i] && more[i] == ops[i];
    assert forall k :: 0 <= k < i ==> more[k] == ops[k];
  }

  lemma DoubtOn(ops: seq<Op>, op: Op, e: Evidence)
    requires Tells(ops, e)
    ensures Recorded(e, op).uncertain <==> exists i: nat :: i < |ops + [op]| && Doubts(ops + [op], i)
  {
    var more := ops + [op];
    assert more[..|ops|] == ops;
    assert more[|ops|] == op;
    if e.uncertain {
      var i: nat :| i < |ops| && Doubts(ops, i);
      PastIsThePast(ops, op, i);
      assert Doubts(more, i);
    }
    if Recorded(e, op).uncertain && !e.uncertain { assert Doubts(more, |ops|); }
    forall i: nat | i < |more| && Doubts(more, i) ensures Recorded(e, op).uncertain {
      if i < |ops| { PastIsThePast(ops, op, i); }
    }
  }

  lemma PendingOn(ops: seq<Op>, op: Op, e: Evidence, u: string)
    requires Tells(ops, e)
    ensures u in Recorded(e, op).pending <==> exists i: nat :: Awaits(ops + [op], i, u)
    ensures forall i: nat :: Awaits(ops + [op], i, u) ==>
      u in Recorded(e, op).pending && Recorded(e, op).pending[u] == !BuiltIn((ops + [op])[i].profile)
  {
    var more := ops + [op];
    assert more[|ops|] == op;
    forall i: nat | Awaits(more, i, u)
      ensures u in Recorded(e, op).pending && Recorded(e, op).pending[u] == !BuiltIn(more[i].profile)
    {
      if i < |ops| { AwaitsOn(ops, op, i, u); }
    }
    if u in Recorded(e, op).pending {
      if op.Launching? && op.toolUse == Some(u) {
        assert Awaits(more, |ops|, u);
      } else {
        var i: nat :| Awaits(ops, i, u);
        AwaitsOn(ops, op, i, u);
      }
    }
  }

  lemma ChildOn(ops: seq<Op>, op: Op, e: Evidence, x: string)
    requires Tells(ops, e)
    ensures x in Recorded(e, op).children <==> exists i: nat :: Starts(ops + [op], i, x)
    ensures forall i: nat :: Starts(ops + [op], i, x) ==>
      x in Recorded(e, op).children && Recorded(e, op).children[x] == !ReturnsBuiltIn(ops + [op], i)
  {
    var more := ops + [op];
    assert more[|ops|] == op && more[..|ops|] == ops;
    forall i: nat | Starts(more, i, x)
      ensures x in Recorded(e, op).children && Recorded(e, op).children[x] == !ReturnsBuiltIn(more, i)
    {
      if i < |ops| {
        StartsOn(ops, op, i, x);
        PastIsThePast(ops, op, i);
      } else {
        ReturnIsBuiltIn(ops, op, e);
      }
    }
    if x in Recorded(e, op).children {
      if op.Returning? && op.out.started == Some(x) {
        assert Starts(more, |ops|, x);
      } else {
        var i: nat :| Starts(ops, i, x);
        StartsOn(ops, op, i, x);
      }
    }
  }

  lemma ReturnIsBuiltIn(ops: seq<Op>, op: Op, e: Evidence)
    requires Tells(ops, e) && op.Returning?
    ensures ReturnsBuiltIn(ops + [op], |ops|) <==>
      op.returned.Some? && op.returned.value in e.pending && !e.pending[op.returned.value]
  {
    var more := ops + [op];
    assert more[..|ops|] == ops && more[|ops|] == op;
    if op.returned.Some? && op.returned.value in e.pending {
      var k: nat :| Awaits(ops, k, op.returned.value);
      assert more[k] == ops[k];
    }
    forall k: nat | op.returned.Some? && Awaits(ops, k, op.returned.value) ensures more[k] == ops[k] {}
  }

  /** The evidence says exactly what was recorded. */
  lemma {:induction false} EvidenceIsTheHistory(ops: seq<Op>)
    ensures Tells(ops, EvidenceOf(ops))
    decreases |ops|
  {
    if ops != [] {
      var init, op := ops[..|ops| - 1], ops[|ops| - 1];
      var e := EvidenceOf(init);
      EvidenceIsTheHistory(init);
      assert ops == init + [op];
      DoubtOn(init, op, e);
      forall u: string { PendingOn(init, op, e, u); }
      forall x: string { ChildOn(init, op, e, x); }
    }
  }

  /** Exactly what each custody means: hold if marked, in doubt, or with an awaited
      launch or unfinished child of a profile that is not built in; free if none of
      these and nothing awaited or unfinished at all. */
  lemma CustodyIsExact(ops: seq<Op>, marked: bool)
    ensures CustodyOf(EvidenceOf(ops), marked).Hold? <==>
      || marked || (exists i: nat :: i < |ops| && Doubts(ops, i))
      || (exists i: nat, u :: Awaits(ops, i, u) && !BuiltIn(ops[i].profile))
      || (exists i: nat, x :: Starts(ops, i, x) && !ReturnsBuiltIn(ops, i))
    ensures CustodyOf(EvidenceOf(ops), marked).Free? <==>
      && !marked && (forall i: nat :: i < |ops| ==> !Doubts(ops, i))
      && (forall i: nat, u :: !Awaits(ops, i, u)) && (forall i: nat, x :: !Starts(ops, i, x))
  {
    var e := EvidenceOf(ops);
    EvidenceIsTheHistory(ops);
    if AnyNests(e.pending) {
      var u :| u in e.pending && e.pending[u];
      var i: nat :| Awaits(ops, i, u);
    }
    if AnyNests(e.children) {
      var x :| x in e.children && e.children[x];
      var i: nat :| Starts(ops, i, x);
    }
    if e != Blank && !e.uncertain {
      assert e.pending != map[] || e.children != map[];
      if e.pending != map[] { var u :| u in e.pending; } else { var x :| x in e.children; }
    }
    forall i: nat, u | Awaits(ops, i, u) ensures e != Blank && (!BuiltIn(ops[i].profile) ==> AnyNests(e.pending)) {
      assert u in e.pending;
    }
    forall i: nat, x | Starts(ops, i, x) ensures e != Blank && (!ReturnsBuiltIn(ops, i) ==> AnyNests(e.children)) {
      assert x in e.children;
    }
  }
}
