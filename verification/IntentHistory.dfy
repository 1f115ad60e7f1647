/**
 * What a run of the intent table means, told from the operations alone: which
 * sends may begin, which requests are authorized, and what a row says.
 */
module IntentHistory {
  import opened Collections
  import opened IntentStore

  /** Operation i wrote a new row. */
  ghost predicate Adds(ops: seq<Op>, tables: seq<Table>, i: nat)
    requires |tables| == |ops| + 1
  {
    i < |ops| && ops[i].Begins? && |tables[i + 1]| > |tables[i]|
  }

  /** The event begun at i was authorized at c. */
  ghost predicate Authorizes(ops: seq<Op>, tables: seq<Table>, i: nat, c: nat)
    requires |tables| == |ops| + 1 && Adds(ops, tables, i)
  {
    i < c < |ops| && Granted(ops, tables, c, ops[i].event)
  }

  /** While the event begun at i was in flight before k, its row was last written at c. */
  ghost predicate LastWritten(ops: seq<Op>, tables: seq<Table>, i: nat, k: nat, c: nat)
    requires |tables| == |ops| + 1 && Adds(ops, tables, i)
  {
    i <= c < k && (if c == i then forall d :: i < d < k ==> !Authorizes(ops, tables, i, d) else Authorizes(ops, tables, i, c))
  }

  /** Operation j marks the outcome of the event begun at i, or its owner resolves it
      ten minutes or more after its row was last written. */
  ghost predicate Settles(ops: seq<Op>, clock: seq<Seconds>, tables: seq<Table>, i: nat, j: nat)
    requires |tables| == |ops| + 1 && |clock| == |ops| && Adds(ops, tables, i)
  {
    && i < j < |ops|
    && (|| (ops[j].Marks? && ops[j].marked == ops[i].event)
        || (ops[j].Resolves? && ops[j].resolved == ops[i].event
            && exists c: nat :: LastWritten(ops, tables, i, j, c) && clock[j] - clock[c] >= 600))
  }

  ghost predicate SettledBy(ops: seq<Op>, clock: seq<Seconds>, tables: seq<Table>, i: nat, k: nat)
    requires |tables| == |ops| + 1 && |clock| == |ops| && Adds(ops, tables, i)
  {
    exists j: nat :: j < k && Settles(ops, clock, tables, i, j)
  }

  /** The row of the event begun at i, as it is before operation k. */
  ghost predicate RowTells(ops: seq<Op>, clock: seq<Seconds>, tables: seq<Table>, i: nat, k: nat)
    requires |tables| == |ops| + 1 && |clock| == |ops| && Adds(ops, tables, i) && k <= |ops|
  {
    var r := |tables[i]|;
    && r < |tables[k]| && tables[k][r].event == ops[i].event && tables[k][r].identity == ops[i].identity
    && (tables[k][r].status.InFlight() <==> !SettledBy(ops, clock, tables, i, k))
    && (tables[k][r].status.InFlight() ==>
          && (tables[k][r].status.Pending? <==> forall c: nat :: c < k ==> !Authorizes(ops, tables, i, c))
          && (exists c: nat :: LastWritten(ops, tables, i, k, c) && tables[k][r].timestamp == clock[c]))
  }

  lemma AddedRow(ops: seq<Op>, clock: seq<Seconds>, tables: seq<Table>, i: nat)
    requires Run(ops, clock, tables) && Adds(ops, tables, i)
    ensures tables[i + 1] == tables[i] + [Intent(ops[i].event, ops[i].identity, Pending, clock[i])]
    ensures RowTells(ops, clock, tables, i, i + 1)
  {
    assert LastWritten(ops, tables, i, i + 1, i);
  }

  lemma GrantWrites(ops: seq<Op>, clock: seq<Seconds>, tables: seq<Table>, i: nat, k: nat)
    requires Run(ops, clock, tables) && Adds(ops, tables, i) && i < k < |ops| && RowTells(ops, clock, tables, i, k)
    requires ops[k].Claims?
    ensures RowTells(ops, clock, tables, i, k + 1)
  {
    StaysSound(ops, clock, tables, k);
    var r := |tables[i]|;
    var row, after := tables[k][r], tables[k + 1][r];
    assert SettledBy(ops, clock, tables, i, k + 1) <==> SettledBy(ops, clock, tables, i, k);
    if Authorizes(ops, tables, i, k) {
      var s :| 0 <= s < |tables[k]| && Presents(tables[k][s], ops[i].event, ops[k].asked);
      assert s == r;
      assert LastWritten(ops, tables, i, k + 1, k);
    } else {
      assert after == row;
      if row.status.InFlight() {
        var c: nat :| LastWritten(ops, tables, i, k, c) && row.timestamp == clock[c];
        assert LastWritten(ops, tables, i, k + 1, c);
      }
    }
  }

  /** A row that was not written, at an operation that settles nothing. */
  lemma UntouchedTells(ops: seq<Op>, clock: seq<Seconds>, tables: seq<Table>, i: nat, k: nat)
    requires Run(ops, clock, tables) && Adds(ops, tables, i) && i < k < |ops| && RowTells(ops, clock, tables, i, k)
    requires |tables[k]| <= |tables[k + 1]| && tables[k + 1][|tables[i]|] == tables[k][|tables[i]|]
    requires !Authorizes(ops, tables, i, k) && (tables[k][|tables[i]|].status.InFlight() ==> !Settles(ops, clock, tables, i, k))
    ensures RowTells(ops, clock, tables, i, k + 1)
  {
    var row := tables[k][|tables[i]|];
    assert SettledBy(ops, clock, tables, i, k + 1) <==>
           SettledBy(ops, clock, tables, i, k) || Settles(ops, clock, tables, i, k);
    if row.status.InFlight() {
      var c: nat :| LastWritten(ops, tables, i, k, c) && row.timestamp == clock[c];
      assert LastWritten(ops, tables, i, k + 1, c);
    }
  }

  lemma MarkTells(ops: seq<Op>, clock: seq<Seconds>, tables: seq<Table>, i: nat, k: nat)
    requires Run(ops, clock, tables) && Adds(ops, tables, i) && i < k < |ops| && RowTells(ops, clock, tables, i, k)
    requires ops[k].Marks?
    ensures RowTells(ops, clock, tables, i, k + 1)
  {
    if ops[k].marked == ops[i].event {
      assert Settles(ops, clock, tables, i, k);
    } else {
      UntouchedTells(ops, clock, tables, i, k);
    }
  }

  lemma ResolveTells(ops: seq<Op>, clock: seq<Seconds>, tables: seq<Table>, i: nat, k: nat)
    requires Run(ops, clock, tables) && Adds(ops, tables, i) && i < k < |ops| && RowTells(ops, clock, tables, i, k)
    requires ops[k].Resolves?
    ensures RowTells(ops, clock, tables, i, k + 1)
  {
    var r := |tables[i]|;
    var row, after := tables[k][r], tables[k + 1][r];
    if ops[k].resolved == row.event {
      StaysSound(ops, clock, tables, k);
      forall s | 0 <= s < |tables[k]| && tables[k][s].event == row.event ensures s == r {}
      assert after == (if CanResolve(row, clock[k]) then row.(status := ResolvedByOwner, timestamp := clock[k]) else row);
      if row.status.InFlight() { ResolvesIfOld(ops, clock, tables, i, k); }
      if row.status.InFlight() && CanResolve(row, clock[k]) {
        assert Settles(ops, clock, tables, i, k);
      } else if after == row {
        UntouchedTells(ops, clock, tables, i, k);
      } else {
        var j: nat :| j < k && Settles(ops, clock, tables, i, j);
      }
    } else {
      UntouchedTells(ops, clock, tables, i, k);
    }
  }

  lemma ResolvesIfOld(ops: seq<Op>, clock: seq<Seconds>, tables: seq<Table>, i: nat, k: nat)
    requires Run(ops, clock, tables) && Adds(ops, tables, i) && i < k < |ops| && RowTells(ops, clock, tables, i, k)
    requires ops[k].Resolves? && ops[k].resolved == ops[i].event && tables[k][|tables[i]|].status.InFlight()
    ensures Settles(ops, clock, tables, i, k) <==> CanResolve(tables[k][|tables[i]|], clock[k])
  {
    var row := tables[k][|tables[i]|];
    var c: nat :| LastWritten(ops, tables, i, k, c) && row.timestamp == clock[c];
    forall d: nat | LastWritten(ops, tables, i, k, d) ensures d == c {
      if i < c < d { AuthorizedAtMostOnce(ops, clock, tables, c, d, ops[i].event); }
      if i < d < c { AuthorizedAtMostOnce(ops, clock, tables, d, c, ops[i].event); }
    }
  }

  lemma OneMoreTells(ops: seq<Op>, clock: seq<Seconds>, tables: seq<Table>, i: nat, k: nat)
    requires Run(ops, clock, tables) && Adds(ops, tables, i) && i < k < |ops| && RowTells(ops, clock, tables, i, k)
    ensures RowTells(ops, clock, tables, i, k + 1)
  {
    if ops[k].Begins? { UntouchedTells(ops, clock, tables, i, k); }
    else if ops[k].Claims? { GrantWrites(ops, clock, tables, i, k); }
    else if ops[k].Marks? { MarkTells(ops, clock, tables, i, k); }
    else { ResolveTells(ops, clock, tables, i, k); }
  }

  lemma {:induction false} RowsTell(ops: seq<Op>, clock: seq<Seconds>, tables: seq<Table>, i: nat, k: nat)
    requires Run(ops, clock, tables) && Adds(ops, tables, i) && i < k <= |ops|
    ensures RowTells(ops, clock, tables, i, k)
    decreases k
  {
    if k == i + 1 {
      AddedRow(ops, clock, tables, i);
    } else {
      RowsTell(ops, clock, tables, i, k - 1);
      OneMoreTells(ops, clock, tables, i, k - 1);
    }
  }

  /** Every row was written by some beginning. */
  lemma {:induction false} RowsWereAdded(ops: seq<Op>, clock: seq<Seconds>, tables: seq<Table>, k: nat, r: nat) returns (i: nat)
    requires Run(ops, clock, tables) && k <= |ops| && r < |tables[k]|
    ensures i < k && Adds(ops, tables, i) && |tables[i]| == r
    decreases k
  {
    if r < |tables[k - 1]| { i := RowsWereAdded(ops, clock, tables, k - 1, r); } else { i := k - 1; }
  }

  // -- the laws -----------------------------------------------------------------------------------

  predicate SamePair(a: Identity, b: Identity) { a.source == b.source && a.target == b.target }

  /** A send begins exactly if its event was never begun and every earlier send of the
      same sender to the same target has been marked with an outcome or resolved.
      Then it adds one pending row with its identity, and otherwise nothing. */
  lemma BeginsExactly(ops: seq<Op>, clock: seq<Seconds>, tables: seq<Table>, k: nat)
    requires Run(ops, clock, tables) && k < |ops| && ops[k].Begins?
    ensures Adds(ops, tables, k) <==>
      && (forall i: nat :: i < k && Adds(ops, tables, i) ==> ops[i].event != ops[k].event)
      && (forall i: nat :: i < k && Adds(ops, tables, i) && SamePair(ops[i].identity, ops[k].identity) ==>
            SettledBy(ops, clock, tables, i, k))
    ensures tables[k + 1] ==
      if Adds(ops, tables, k) then tables[k] + [Intent(ops[k].event, ops[k].identity, Pending, clock[k])] else tables[k]
  {
    var e, id := ops[k].event, ops[k].identity;
    forall i: nat | i < k && Adds(ops, tables, i) ensures RowTells(ops, clock, tables, i, k) { RowsTell(ops, clock, tables, i, k); }
    if HasEvent(tables[k], e) {
      var r :| 0 <= r < |tables[k]| && tables[k][r].event == e;
      var i := RowsWereAdded(ops, clock, tables, k, r);
    }
    if Blocked(tables[k], id.source, id.target) {
      var r :| 0 <= r < |tables[k]| && tables[k][r].identity.source == id.source && tables[k][r].identity.target == id.target
               && tables[k][r].status.InFlight();
      var i := RowsWereAdded(ops, clock, tables, k, r);
    }
  }

  /** What the remote side must present of a send: everything but the sender's key. */
  predicate Agrees(asked: Identity, id: Identity) {
    && asked.sourceGeneration == id.sourceGeneration && asked.sourceAlias == id.sourceAlias
    && asked.target == id.target && asked.targetGeneration == id.targetGeneration && asked.digest == id.digest
  }

  /** A request is authorized exactly if its event was begun with what it presents, is
      not settled, and was not authorized before. */
  lemma GrantedExactly(ops: seq<Op>, clock: seq<Seconds>, tables: seq<Table>, k: nat)
    requires Run(ops, clock, tables) && k < |ops| && ops[k].Claims?
    ensures Granted(ops, tables, k, ops[k].claimed) <==>
      exists i: nat :: i < k && Adds(ops, tables, i) && ops[i].event == ops[k].claimed && Agrees(ops[k].asked, ops[i].identity)
        && !SettledBy(ops, clock, tables, i, k) && (forall c: nat :: c < k ==> !Authorizes(ops, tables, i, c))
  {
    forall i: nat | i < k && Adds(ops, tables, i) ensures RowTells(ops, clock, tables, i, k) { RowsTell(ops, clock, tables, i, k); }
    if Granted(ops, tables, k, ops[k].claimed) {
      var r :| 0 <= r < |tables[k]| && Presents(tables[k][r], ops[k].claimed, ops[k].asked);
      var i := RowsWereAdded(ops, clock, tables, k, r);
    }
    forall i: nat | i < k && Adds(ops, tables, i) && ops[i].event == ops[k].claimed && Agrees(ops[k].asked, ops[i].identity)
        && !SettledBy(ops, clock, tables, i, k) && (forall c: nat :: c < k ==> !Authorizes(ops, tables, i, c))
      ensures Granted(ops, tables, k, ops[k].claimed)
    {
      assert Presents(tables[k][|tables[i]|], ops[k].claimed, ops[k].asked);
    }
  }

  ghost predicate ResolvedSince(ops: seq<Op>, e: EventId, j: nat, k: nat) {
    exists l: nat :: j < l < k && l < |ops| && ops[l] == Resolves(e)
  }

  /** What one more operation, which does not mark the event, does to its settled row. */
  lemma SettledRowKeeps(rows: Table, op: Op, now: Seconds, r: nat)
    requires Sound(rows) && Legal(op) && r < |rows| && !rows[r].status.InFlight()
    requires op.Marks? ==> op.marked != rows[r].event
    ensures r < |Apply(rows, op, now)| && Apply(rows, op, now)[r].event == rows[r].event
    ensures Apply(rows, op, now)[r].status ==
      if op == Resolves(rows[r].event) && rows[r].status.UnknownDelivery? then ResolvedByOwner else rows[r].status
  {
    var e := rows[r].event;
    assert forall s :: 0 <= s < |rows| && rows[s].event == e ==> s == r;
  }

  /** A marked outcome stands until the event is marked again; only an unknown outcome
      gives way to its owner's resolution. */
  lemma {:induction false} MarkedOutcomeStands(ops: seq<Op>, clock: seq<Seconds>, tables: seq<Table>, i: nat, j: nat, k: nat)
    requires Run(ops, clock, tables) && Adds(ops, tables, i) && i < j < k <= |ops|
    requires ops[j].Marks? && ops[j].marked == ops[i].event
    requires forall l: nat :: j < l < k && ops[l].Marks? ==> ops[l].marked != ops[i].event
    ensures |tables[i]| < |tables[k]| && tables[k][|tables[i]|].event == ops[i].event
    ensures tables[k][|tables[i]|].status ==
      if ops[j].outcome.UnknownDelivery? && ResolvedSince(ops, ops[i].event, j, k) then ResolvedByOwner else ops[j].outcome
    decreases k
  {
    if k == j + 1 {
      RowsTell(ops, clock, tables, i, j);
    } else {
      MarkedOutcomeStands(ops, clock, tables, i, j, k - 1);
      StaysSound(ops, clock, tables, k - 1);
      SettledRowKeeps(tables[k - 1], ops[k - 1], clock[k - 1], |tables[i]|);
    }
  }
}
