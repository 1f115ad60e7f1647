/**
 * The durable delivery-intent table. The table is a list that every operation
 * reads, rebuilds and replaces under one lock.
 */
module IntentStore {
  import opened Collections

  type EventId = string
  type Seconds = int

  const ABANDONED_INTENT_SECONDS := 600

  datatype Status =
    | Pending | RemoteAuthorized
    | PreEffectRejected | TransportAccepted | UnknownDelivery
    | ResolvedByOwner
  {
    predicate InFlight() { Pending? || RemoteAuthorized? }
    predicate Decided() { PreEffectRejected? || TransportAccepted? }
  }

  /** Everything about an intent that is fixed when it is written. */
  datatype Identity = Identity(
    source: string, sourceGeneration: string, sourceAlias: string,
    target: string, targetGeneration: string, digest: string)

  datatype Intent = Intent(event: EventId, identity: Identity, status: Status, timestamp: Seconds)

  type Table = seq<Intent>

  // -- the operations as functions of the table ---------------------------------

  predicate HasEvent(rows: Table, e: EventId) { exists i :: 0 <= i < |rows| && rows[i].event == e }

  /** `row` stands in the way of beginning event `e`. */
  predicate Stands(row: Intent, e: EventId, id: Identity) {
    row.event == e
    || (row.identity.source == id.source && row.identity.target == id.target && row.status.InFlight())
  }

  predicate Blocked(rows: Table, source: string, target: string) {
    exists i :: 0 <= i < |rows| && rows[i].identity.source == source && rows[i].identity.target == target
                && rows[i].status.InFlight()
  }

  predicate HasStatus(rows: Table, e: EventId, status: Status) {
    exists i :: 0 <= i < |rows| && rows[i].event == e && rows[i].status == status
  }

  predicate CanBegin(rows: Table, e: EventId, id: Identity) {
    !HasEvent(rows, e) && !Blocked(rows, id.source, id.target)
  }

  function Begin(rows: Table, e: EventId, id: Identity, now: Seconds): Table {
    if CanBegin(rows, e, id) then rows + [Intent(e, id, Pending, now)] else rows
  }

  function WriteStatus(rows: Table, e: EventId, status: Status, now: Seconds): Table {
    seq(|rows|, i requires 0 <= i < |rows| =>
      if rows[i].event == e then rows[i].(status := status, timestamp := now) else rows[i])
  }

  /** The request matches a row in everything the remote side presents. */
  predicate Presents(row: Intent, e: EventId, asked: Identity) {
    && row.event == e
    && row.identity == asked.(source := row.identity.source)
    && row.status.Pending?
  }

  predicate Matches(rows: Table, e: EventId, asked: Identity) {
    exists i :: 0 <= i < |rows| && Presents(rows[i], e, asked)
  }

  function Claim(rows: Table, e: EventId, asked: Identity, now: Seconds): Table {
    if Matches(rows, e, asked) then WriteStatus(rows, e, RemoteAuthorized, now) else rows
  }

  function Mark(rows: Table, e: EventId, status: Status, now: Seconds): Table {
    if HasEvent(rows, e) then WriteStatus(rows, e, status, now) else rows
  }

  predicate CanResolve(row: Intent, now: Seconds) {
    row.status.UnknownDelivery? || (row.status.InFlight() && now - row.timestamp >= ABANDONED_INTENT_SECONDS)
  }

  predicate Resolvable(rows: Table, e: EventId, now: Seconds) {
    exists i :: 0 <= i < |rows| && rows[i].event == e && (rows[i].status.ResolvedByOwner? || CanResolve(rows[i], now))
  }

  function Resolve(rows: Table, e: EventId, now: Seconds): Table {
    if exists i :: 0 <= i < |rows| && rows[i].event == e && CanResolve(rows[i], now)
    then WriteStatus(rows, e, ResolvedByOwner, now) else rows
  }

  // -- reading one row -------------------------------------------------------------

  ghost predicate UniqueEvents(rows: Table) {
    forall i, j :: 0 <= i < j < |rows| ==> rows[i].event != rows[j].event
  }

  // -- runs -------------------------------------------------------------------------

  datatype Op =
    | Begins(event: EventId, identity: Identity)
    | Claims(claimed: EventId, asked: Identity)
    | Marks(marked: EventId, outcome: Status)
    | Resolves(resolved: EventId)

  /** Callers mark only the three delivery outcomes. */
  ghost predicate Legal(op: Op) {
    op.Marks? ==> op.outcome.PreEffectRejected? || op.outcome.TransportAccepted? || op.outcome.UnknownDelivery?
  }

  function Apply(rows: Table, op: Op, now: Seconds): Table {
    match op
    case Begins(e, id) => Begin(rows, e, id, now)
    case Claims(e, asked) => Claim(rows, e, asked, now)
    case Marks(e, outcome) => Mark(rows, e, outcome, now)
    case Resolves(e) => Resolve(rows, e, now)
  }

  ghost predicate Run(ops: seq<Op>, clock: seq<Seconds>, tables: seq<Table>) {
    && |tables| == |ops| + 1 && |clock| == |ops| && tables[0] == []
    && (forall i :: 0 <= i < |ops| ==> Legal(ops[i]) && tables[i + 1] == Apply(tables[i], ops[i], clock[i]))
  }

  ghost predicate OneInFlightPerPair(rows: Table) {
    forall i, j :: 0 <= i < j < |rows| && rows[i].status.InFlight() && rows[j].status.InFlight() ==>
      rows[i].identity.source != rows[j].identity.source || rows[i].identity.target != rows[j].identity.target
  }

  ghost predicate Sound(rows: Table) { UniqueEvents(rows) && OneInFlightPerPair(rows) }

  /** `after` keeps every row of `before` in place: same event, same identity. */
  ghost predicate Extends(before: Table, after: Table) {
    && |before| <= |after|
    && forall i :: 0 <= i < |before| ==> after[i].event == before[i].event && after[i].identity == before[i].identity
  }

  /** Rows never become in-flight again, except PENDING to REMOTE_AUTHORIZED, and
      nothing ever returns to PENDING. */
  ghost predicate Forward(before: Table, after: Table) {
    |before| <= |after| && forall i :: 0 <= i < |before| ==>
      && (after[i].status.Pending? ==> before[i].status.Pending?)
      && (after[i].status.InFlight() ==> before[i].status.InFlight())
  }

  ghost predicate Kept(before: Table, after: Table) {
    Sound(after) && Extends(before, after) && Forward(before, after)
  }

  /** Rewriting one event's status keeps the table sound unless it would revive a row. */
  lemma WriteKeeps(rows: Table, e: EventId, status: Status, now: Seconds)
    requires Sound(rows)
    requires !status.Pending?
    requires status.InFlight() ==> forall i :: 0 <= i < |rows| && rows[i].event == e ==> rows[i].status.InFlight()
    ensures Kept(rows, WriteStatus(rows, e, status, now))
  {
  }

  lemma BeginKeeps(rows: Table, e: EventId, id: Identity, now: Seconds)
    requires Sound(rows)
    ensures Kept(rows, Begin(rows, e, id, now))
  {
  }

  lemma ClaimKeeps(rows: Table, e: EventId, asked: Identity, now: Seconds)
    requires Sound(rows)
    ensures Kept(rows, Claim(rows, e, asked, now))
  {
    if Matches(rows, e, asked) {
      var k :| 0 <= k < |rows| && Presents(rows[k], e, asked);
      assert forall i :: 0 <= i < |rows| && rows[i].event == e ==> i == k;
      WriteKeeps(rows, e, RemoteAuthorized, now);
    }
  }

  lemma ApplyKeeps(rows: Table, op: Op, now: Seconds)
    requires Sound(rows) && Legal(op)
    ensures Kept(rows, Apply(rows, op, now))
  {
    match op
    case Begins(e, id) => BeginKeeps(rows, e, id, now);
    case Claims(e, asked) => ClaimKeeps(rows, e, asked, now);
    case Marks(e, outcome) => WriteKeeps(rows, e, outcome, now);
    case Resolves(e) => WriteKeeps(rows, e, ResolvedByOwner, now);
  }

  lemma {:induction false} StaysSound(ops: seq<Op>, clock: seq<Seconds>, tables: seq<Table>, k: nat)
    requires Run(ops, clock, tables) && k <= |ops|
    ensures Sound(tables[k])
  {
    if k > 0 {
      StaysSound(ops, clock, tables, k - 1);
      ApplyKeeps(tables[k - 1], ops[k - 1], clock[k - 1]);
    }
  }

  /** Event ids are unique, rows are never dropped or reordered, their identity
      never changes, and each sender has at most one undecided event per target. */
  lemma {:induction false} RowsAreKept(ops: seq<Op>, clock: seq<Seconds>, tables: seq<Table>, j: nat, k: nat)
    requires Run(ops, clock, tables) && j <= k <= |ops|
    ensures UniqueEvents(tables[k]) && OneInFlightPerPair(tables[k])
    ensures Extends(tables[j], tables[k]) && Forward(tables[j], tables[k])
  {
    StaysSound(ops, clock, tables, k);
    if j < k {
      RowsAreKept(ops, clock, tables, j, k - 1);
      ApplyKeeps(tables[k - 1], ops[k - 1], clock[k - 1]);
    }
  }

  ghost predicate Granted(ops: seq<Op>, tables: seq<Table>, i: nat, e: EventId)
    requires i < |ops| <= |tables|
  {
    ops[i].Claims? && ops[i].claimed == e && Matches(tables[i], e, ops[i].asked)
  }

  /** Remote authorization is granted at most once per event: after a grant no
      later request for that event is granted, whatever the run did between. */
  lemma AuthorizedAtMostOnce(ops: seq<Op>, clock: seq<Seconds>, tables: seq<Table>, i: nat, j: nat, e: EventId)
    requires Run(ops, clock, tables) && i < j < |ops|
    requires Granted(ops, tables, i, e)
    ensures !Granted(ops, tables, j, e)
  {
    RowsAreKept(ops, clock, tables, i, i + 1);
    RowsAreKept(ops, clock, tables, i + 1, j);
    var r :| 0 <= r < |tables[i]| && Presents(tables[i][r], e, ops[i].asked);
    assert tables[i + 1][r].status.RemoteAuthorized?;
    assert tables[j][r].event == e && !tables[j][r].status.Pending?;
    forall s | 0 <= s < |tables[j]| && tables[j][s].event == e ensures s == r {}
  }

  /** An owner's resolution leaves every decided row exactly as it was. */
  lemma ResolutionNeverReplacesAResult(rows: Table, e: EventId, now: Seconds, i: nat)
    requires UniqueEvents(rows) && i < |rows| && rows[i].status.Decided()
    ensures |Resolve(rows, e, now)| == |rows| && Resolve(rows, e, now)[i] == rows[i]
  {
    if exists k :: 0 <= k < |rows| && rows[k].event == e && CanResolve(rows[k], now) {
      var k :| 0 <= k < |rows| && rows[k].event == e && CanResolve(rows[k], now);
      assert k != i;
    }
  }

  // -- the object -----------------------------------------------------------------

  class Store {
    var rows: Table

    constructor ()
      ensures rows == []
    {
      rows := [];
    }

    /** A new intent, or None when the event or the pair is taken. */
    method BeginIdentity(e: EventId, id: Identity, now: Seconds) returns (begun: bool)
      modifies this
      ensures begun == CanBegin(old(rows), e, id)
      ensures rows == Begin(old(rows), e, id, now)
    {
      begun := true;
      for i := 0 to |rows|
        invariant rows == old(rows)
        invariant begun == forall k :: 0 <= k < i ==> !Stands(rows[k], e, id)
      {
        if Stands(rows[i], e, id) { begun := false; }
      }
      if begun { rows := rows + [Intent(e, id, Pending, now)]; }
    }

    method ClaimRemoteAuthorization(e: EventId, asked: Identity, now: Seconds) returns (granted: bool)
      requires UniqueEvents(rows)
      modifies this
      ensures granted == Matches(old(rows), e, asked)
      ensures rows == Claim(old(rows), e, asked, now)
    {
      var matches := 0;
      for i := 0 to |rows|
        invariant rows == old(rows)
        invariant matches <= 1
        invariant matches == 0 <==> forall k :: 0 <= k < i ==> !Presents(rows[k], e, asked)
      {
        if Presents(rows[i], e, asked) {
          assert forall k :: 0 <= k < i ==> rows[k].event != e;
          matches := matches + 1;
        }
      }
      granted := matches == 1;
      if granted { rows := WriteStatus(rows, e, RemoteAuthorized, now); }
    }

    method MarkOutcome(e: EventId, outcome: Status, now: Seconds) returns (found: bool)
      modifies this
      ensures found == HasEvent(old(rows), e)
      ensures rows == Mark(old(rows), e, outcome, now)
    {
      found := exists i :: 0 <= i < |rows| && rows[i].event == e;
      if found { rows := WriteStatus(rows, e, outcome, now); }
    }

    /** The prior status, or None when nothing was resolved. */
    method ResolveByOwner(e: EventId, now: Seconds) returns (prior: Option<Status>)
      requires UniqueEvents(rows)
      modifies this
      ensures rows == Resolve(old(rows), e, now)
      ensures prior.Some? ==> !prior.value.Decided() && HasStatus(old(rows), e, prior.value)
      ensures prior.Some? <==> Resolvable(old(rows), e, now)
    {
      prior := None;
      var k := 0;
      while k < |rows| && rows[k].event != e
        invariant 0 <= k <= |rows|
        invariant forall i :: 0 <= i < k ==> rows[i].event != e
      {
        k := k + 1;
      }
      if k == |rows| { return; }
      var current := rows[k];
      assert forall i :: 0 <= i < |rows| && rows[i].event == e ==> i == k;
      if current.status.ResolvedByOwner? { return Some(current.status); }
      if current.status.Decided() { return; }
      if current.status.InFlight() && now - current.timestamp < ABANDONED_INTENT_SECONDS { return; }
      prior := Some(current.status);
      rows := WriteStatus(rows, e, ResolvedByOwner, now);
    }
  }
}
