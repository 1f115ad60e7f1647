/**
 * Delivery soundness over every run with lost replies, timeouts and retries.
 */
module DeliverySafety {
  import opened Collections
  import opened IntentStore
  import opened Delivery

  // -- counting effects --------------------------------------------------------------

  ghost function Count(effects: seq<Effect>, e: EventId): nat
    decreases |effects|
  {
    if effects == [] then 0
    else Count(effects[..|effects| - 1], e) + (if effects[|effects| - 1].event == e then 1 else 0)
  }

  lemma CountAppend(effects: seq<Effect>, x: Effect, e: EventId)
    ensures Count(effects + [x], e) == Count(effects, e) + (if x.event == e then 1 else 0)
  {
    assert (effects + [x])[..|effects|] == effects;
  }

  lemma {:induction false} CountNone(effects: seq<Effect>, e: EventId)
    requires forall i :: 0 <= i < |effects| ==> effects[i].event != e
    ensures Count(effects, e) == 0
    decreases |effects|
  {
    if effects != [] { CountNone(effects[..|effects| - 1], e); }
  }

  // -- one event ------------------------------------------------------------------------

  /** Something is still under way that could cause an effect. */
  ghost predicate Live(f: Flow) {
    || f.sender.Ready?
    || f.envelope
    || f.receiver.Resolving? || f.receiver.Asking? || f.receiver.Authorized?
    || f.courier.Frame? || f.courier.Admitted?
    || (f.receiver.Calling? && f.courier == Answer(Busy))
    || (f.sender.Waiting? && f.reach.Local? && f.courier == Answer(Busy))
    || (f.sender.Waiting? && f.reach.Remote? && f.reply == Some(Capacity))
  }

  /** The receiver presented what the sender's row says. */
  ghost predicate Agreed(f: Flow) { f.asked.(source := f.identity.source) == f.identity }

  ghost predicate Replies(f: Flow, n: nat) {
    && (f.courier == Answer(Accepted) ==> n == 1)
    && (f.courier == Answer(Rejected) || f.courier == Answer(Busy) ==> n == 0)
    && f.courier != Answer(Capacity)
    && (f.reply == Some(Accepted) ==> n == 1)
    && (f.reply.Some? && !f.reply.value.Accepted? && !f.reply.value.Unknown? ==> n == 0)
  }

  /** Who can be doing what at the same time. */
  ghost predicate Shape(f: Flow, n: nat) {
    && (f.reach.Local? ==> !f.envelope && f.receiver.Absent? && f.reply.None? && f.callback.NoCall?)
    && (f.sender.Ready? ==> !f.envelope && f.receiver.Absent? && f.courier.Idle? && f.reply.None? && n == 0)
    && (f.envelope ==> f.receiver.Absent? && f.courier.Idle? && f.reply.None? && n == 0)
    && (f.reach.Remote? && f.receiver.Absent? ==>
          f.courier.Idle? && n == 0 && f.callback.NoCall? && (f.reply.None? || f.reply.value.Capacity?))
    && (f.receiver.Resolving? || f.receiver.Asking? || f.receiver.Authorized? ==>
          f.courier.Idle? && f.reply.None? && n == 0)
    && (f.receiver.Resolving? ==> f.callback.NoCall?)
    && (f.receiver.Calling? ==> f.reply.None?)
    && (f.reply.Some? && !f.reply.value.Capacity? ==> f.receiver.Gone? && f.courier.Idle?)
    && (f.reply.Some? && f.reply.value.Capacity? ==> f.receiver.Absent? && f.courier.Idle?)
  }

  ghost predicate Authority(f: Flow, n: nat) {
    f.reach.Remote? &&
    (n == 1 || !f.courier.Idle? || f.receiver.Authorized? || f.receiver.Calling? || f.callback == Answered(true))
    ==> Agreed(f)
  }

  ghost predicate Endings(f: Flow, n: nat) {
    && (f.sender == Ended(PreEffectRejected) ==> n == 0 && !Live(f))
    && (f.sender == Ended(TransportAccepted) ==> n == 1)
    && (f.sender.Ended? ==>
          f.sender.outcome.PreEffectRejected? || f.sender.outcome.TransportAccepted? || f.sender.outcome.UnknownDelivery?)
  }

  ghost predicate FlowOk(f: Flow, n: nat) {
    && n <= 1
    && (n == 1 ==> !Live(f))
    && Replies(f, n) && Shape(f, n) && Authority(f, n) && Endings(f, n)
  }

  /** The row mirrors the sender's decision and nobody else's. */
  ghost predicate RowOk(rows: Table, e: EventId, f: Flow) {
    exists i :: 0 <= i < |rows| && RowMirrors(rows[i], e, f)
  }

  ghost predicate RowMirrors(row: Intent, e: EventId, f: Flow) {
    && row.event == e && row.identity == f.identity
    && (row.status.PreEffectRejected? <==> f.sender == Ended(PreEffectRejected))
    && (row.status.TransportAccepted? <==> f.sender == Ended(TransportAccepted))
  }

  ghost predicate EffectOk(w: World, x: Effect) {
    && x.event in w.flows
    && x.target == w.flows[x.event].identity.target
    && x.digest == w.flows[x.event].identity.digest
  }

  ghost predicate LockOk(w: World) {
    && (forall e :: e in w.flows && w.flows[e].courier.Admitted? ==>
          Delivered(w.flows[e]).target in w.busy && w.busy[Delivered(w.flows[e]).target] == e)
    && (forall t :: t in w.busy ==>
          && w.busy[t] in w.flows && w.flows[w.busy[t]].courier.Admitted?
          && Delivered(w.flows[w.busy[t]]).target == t)
  }

  ghost predicate FlowsOk(w: World) {
    forall e :: e in w.flows ==> FlowOk(w.flows[e], Count(w.effects, e))
  }

  ghost predicate RowsOk(w: World) {
    UniqueEvents(w.rows) && forall e :: e in w.flows ==> RowOk(w.rows, e, w.flows[e])
  }

  ghost predicate EffectsOk(w: World) {
    forall i :: 0 <= i < |w.effects| ==> EffectOk(w, w.effects[i])
  }

  ghost predicate Ok(w: World) { FlowsOk(w) && RowsOk(w) && EffectsOk(w) && LockOk(w) }

  // -- one step of one event ---------------------------------------------------------------

  lemma SenderKeeps(f: Flow, n: nat, a: SenderAct)
    requires FlowOk(f, n) && SenderEnabled(f, a)
    ensures FlowOk(SenderNext(f, a), n)
  {
  }

  lemma ReceiverKeeps(f: Flow, n: nat, a: ReceiverAct, granted: bool)
    requires FlowOk(f, n) && ReceiverEnabled(f, a)
    requires a.CallbackServed? && granted ==> Agreed(f)
    ensures FlowOk(ReceiverNext(f, a, granted), n)
  {
  }

  ghost function Gain(a: CourierAct): nat { if a.Concludes? && a.effect then 1 else 0 }

  lemma CourierKeeps(f: Flow, n: nat, a: CourierAct)
    requires FlowOk(f, n) && CourierEnabled(f, a)
    ensures FlowOk(CourierNext(f, a), n + Gain(a))
  {
  }

  // -- the whole world -----------------------------------------------------------------------

  lemma NewEventHasNoFlow(w: World, e: EventId)
    requires RowsOk(w) && EffectsOk(w) && !HasEvent(w.rows, e)
    ensures e !in w.flows && Count(w.effects, e) == 0
  {
    assert e in w.flows ==> RowOk(w.rows, e, w.flows[e]);
    assert forall i :: 0 <= i < |w.effects| ==> EffectOk(w, w.effects[i]);
    CountNone(w.effects, e);
  }

  /** A row that stays where it is keeps mirroring its flow. */
  lemma KeepRow(rows: Table, after: Table, e: EventId, f: Flow)
    requires RowOk(rows, e, f)
    requires |rows| <= |after|
    requires forall i :: 0 <= i < |rows| && rows[i].event == e ==> SameOutcome(rows[i], after[i])
    ensures RowOk(after, e, f)
  {
    var k :| 0 <= k < |rows| && RowMirrors(rows[k], e, f);
    assert RowMirrors(after[k], e, f);
  }

  ghost predicate SameOutcome(row: Intent, after: Intent) {
    && after.event == row.event && after.identity == row.identity
    && (after.status.PreEffectRejected? <==> row.status.PreEffectRejected?)
    && (after.status.TransportAccepted? <==> row.status.TransportAccepted?)
  }

  lemma StartKeeps(w: World, e: EventId, id: Identity, reach: Reach, now: Seconds)
    requires Ok(w) && CanBegin(w.rows, e, id)
    ensures Ok(Next(w, Starts(e, id, reach), now))
  {
    NewEventHasNoFlow(w, e);
    var n := Next(w, Starts(e, id, reach), now);
    assert RowsOk(n) by { StartRows(w, e, id, reach, now); }
    assert EffectsOk(n) by {
      forall i | 0 <= i < |n.effects| ensures EffectOk(n, n.effects[i]) { assert EffectOk(w, w.effects[i]); }
    }
    assert LockOk(n) by { StartLock(w, n, e); }
    assert FlowOk(n.flows[e], 0);
  }

  lemma StartRows(w: World, e: EventId, id: Identity, reach: Reach, now: Seconds)
    requires RowsOk(w) && CanBegin(w.rows, e, id) && e !in w.flows
    ensures RowsOk(Next(w, Starts(e, id, reach), now))
  {
    var n := Next(w, Starts(e, id, reach), now);
    forall t | t in n.flows ensures RowOk(n.rows, t, n.flows[t]) {
      if t == e {
        assert RowMirrors(n.rows[|w.rows|], e, n.flows[e]);
      } else {
        KeepRow(w.rows, n.rows, t, w.flows[t]);
      }
    }
  }

  lemma StartLock(w: World, n: World, e: EventId)
    requires LockOk(w) && e !in w.flows && e in n.flows && n.flows == w.flows[e := n.flows[e]]
    requires !n.flows[e].courier.Admitted? && n.busy == w.busy
    ensures LockOk(n)
  {
  }

  /** Only the flow of `e` and its row changed; no effect happened. */
  ghost predicate OnlyFlow(w: World, n: World, e: EventId) {
    && e in w.flows && e in n.flows && n.flows == w.flows[e := n.flows[e]]
    && n.flows[e].identity == w.flows[e].identity
    && n.effects == w.effects && n.busy == w.busy
    && |n.rows| == |w.rows| && UniqueEvents(n.rows)
    && forall i :: 0 <= i < |w.rows| && w.rows[i].event != e ==> n.rows[i] == w.rows[i]
  }

  lemma OnlyFlowRows(w: World, n: World, e: EventId)
    requires RowsOk(w) && OnlyFlow(w, n, e) && RowOk(n.rows, e, n.flows[e])
    ensures RowsOk(n)
  {
    forall t | t in n.flows ensures RowOk(n.rows, t, n.flows[t]) {
      if t != e { KeepRow(w.rows, n.rows, t, w.flows[t]); }
    }
  }

  lemma OnlyFlowEffects(w: World, n: World, e: EventId)
    requires EffectsOk(w) && OnlyFlow(w, n, e)
    ensures EffectsOk(n)
  {
    forall i | 0 <= i < |n.effects| ensures EffectOk(n, n.effects[i]) { assert EffectOk(w, w.effects[i]); }
  }

  lemma OnlyFlowFlows(w: World, n: World, e: EventId)
    requires FlowsOk(w) && OnlyFlow(w, n, e) && FlowOk(n.flows[e], Count(w.effects, e))
    ensures FlowsOk(n)
  {
    forall t | t in n.flows ensures FlowOk(n.flows[t], Count(n.effects, t)) {
      if t != e { assert FlowOk(w.flows[t], Count(w.effects, t)); }
    }
  }

  /** A process other than the courier does not touch the accept lock. */
  lemma LockUntouched(w: World, n: World, e: EventId)
    requires LockOk(w) && OnlyFlow(w, n, e)
    requires n.flows[e].courier.Admitted? == w.flows[e].courier.Admitted?
    requires w.flows[e].courier.Admitted? ==> Delivered(n.flows[e]) == Delivered(w.flows[e])
    ensures LockOk(n)
  {
    assert forall t :: t in n.flows && t != e ==> n.flows[t] == w.flows[t];
  }

  lemma SendRow(w: World, e: EventId, a: SenderAct, now: Seconds)
    requires RowsOk(w) && e in w.flows && SenderEnabled(w.flows[e], a)
    requires FlowOk(SenderNext(w.flows[e], a), Count(w.effects, e))
    ensures RowOk(Next(w, Sends(e, a), now).rows, e, SenderNext(w.flows[e], a))
  {
    var f := w.flows[e];
    assert RowOk(w.rows, e, f);
    var k :| 0 <= k < |w.rows| && RowMirrors(w.rows[k], e, f);
    assert RowMirrors(Next(w, Sends(e, a), now).rows[k], e, SenderNext(f, a));
  }

  lemma SendKeeps(w: World, e: EventId, a: SenderAct, now: Seconds)
    requires Ok(w) && Enabled(w, Sends(e, a))
    ensures Ok(Next(w, Sends(e, a), now))
  {
    var n := Next(w, Sends(e, a), now);
    assert FlowOk(n.flows[e], Count(w.effects, e)) by {
      assert FlowOk(w.flows[e], Count(w.effects, e));
      SenderKeeps(w.flows[e], Count(w.effects, e), a);
    }
    assert OnlyFlow(w, n, e);
    SendRow(w, e, a, now);
    OnlyFlowFlows(w, n, e);
    OnlyFlowRows(w, n, e);
    OnlyFlowEffects(w, n, e);
    SenderSparesLock(w.flows[e], a, Count(w.effects, e));
    LockUntouched(w, n, e);
  }

  lemma SenderSparesLock(f: Flow, a: SenderAct, n: nat)
    requires FlowOk(f, n) && SenderEnabled(f, a)
    ensures SenderNext(f, a).courier.Admitted? == f.courier.Admitted?
    ensures Delivered(SenderNext(f, a)) == Delivered(f)
  {
  }

  lemma ReceiverSparesLock(f: Flow, a: ReceiverAct, granted: bool, n: nat)
    requires FlowOk(f, n) && ReceiverEnabled(f, a)
    ensures ReceiverNext(f, a, granted).courier.Admitted? == f.courier.Admitted?
    ensures f.courier.Admitted? ==> Delivered(ReceiverNext(f, a, granted)) == Delivered(f)
  {
  }

  /** A grant means the receiver presented exactly the sender's row. */
  lemma GrantAgrees(w: World, e: EventId)
    requires Ok(w) && e in w.flows
    ensures Matches(w.rows, e, w.flows[e].asked) ==> Agreed(w.flows[e])
  {
    var f := w.flows[e];
    assert RowOk(w.rows, e, f);
    var k :| 0 <= k < |w.rows| && RowMirrors(w.rows[k], e, f);
    if Matches(w.rows, e, f.asked) {
      var i :| 0 <= i < |w.rows| && Presents(w.rows[i], e, f.asked);
      assert i == k;
    }
  }

  lemma ReceiveRow(w: World, e: EventId, a: ReceiverAct, now: Seconds)
    requires RowsOk(w) && e in w.flows && ReceiverEnabled(w.flows[e], a)
    ensures OnlyFlow(w, Next(w, Receives(e, a), now), e)
    ensures RowOk(Next(w, Receives(e, a), now).rows, e, Next(w, Receives(e, a), now).flows[e])
  {
    var f := w.flows[e];
    var n := Next(w, Receives(e, a), now);
    ClaimKeepsOutcomes(w.rows, e, f.asked, now);
    KeepRow(w.rows, n.rows, e, f);
    var k :| 0 <= k < |n.rows| && RowMirrors(n.rows[k], e, f);
    assert RowMirrors(n.rows[k], e, n.flows[e]);
  }

  lemma ReceiveKeeps(w: World, e: EventId, a: ReceiverAct, now: Seconds)
    requires Ok(w) && Enabled(w, Receives(e, a))
    ensures Ok(Next(w, Receives(e, a), now))
  {
    var n := Next(w, Receives(e, a), now);
    var granted := Matches(w.rows, e, w.flows[e].asked);
    GrantAgrees(w, e);
    assert FlowOk(n.flows[e], Count(w.effects, e)) by {
      assert FlowOk(w.flows[e], Count(w.effects, e));
      ReceiverKeeps(w.flows[e], Count(w.effects, e), a, granted);
    }
    ReceiveRow(w, e, a, now);
    OnlyFlowFlows(w, n, e);
    OnlyFlowRows(w, n, e);
    OnlyFlowEffects(w, n, e);
    ReceiverSparesLock(w.flows[e], a, granted, Count(w.effects, e));
    LockUntouched(w, n, e);
  }

  /** Claiming a row touches only a pending row, so no outcome is lost. */
  lemma ClaimKeepsOutcomes(rows: Table, e: EventId, asked: Identity, now: Seconds)
    requires UniqueEvents(rows)
    ensures
      var after := Claim(rows, e, asked, now);
      && UniqueEvents(after) && |after| == |rows|
      && forall i :: 0 <= i < |rows| ==>
           SameOutcome(rows[i], after[i]) && (rows[i].event != e ==> after[i] == rows[i])
  {
    if Matches(rows, e, asked) {
      var k :| 0 <= k < |rows| && Presents(rows[k], e, asked);
      assert forall i :: 0 <= i < |rows| && rows[i].event == e ==> i == k;
    }
  }

  lemma CourierLock(w: World, e: EventId, a: CourierAct)
    requires LockOk(w) && e in w.flows && CourierEnabled(w.flows[e], a) && Admissible(w, w.flows[e], a)
    ensures LockOk(CourierWorld(w, e, a))
  {
    var n := CourierWorld(w, e, a);
    assert forall t :: t in n.flows && t != e ==> n.flows[t] == w.flows[t];
    assert Delivered(n.flows[e]) == Delivered(w.flows[e]);
  }

  lemma CourierEffects(w: World, e: EventId, a: CourierAct)
    requires EffectsOk(w) && e in w.flows && CourierEnabled(w.flows[e], a)
    requires FlowOk(w.flows[e], Count(w.effects, e))
    ensures EffectsOk(CourierWorld(w, e, a))
  {
    var n := CourierWorld(w, e, a);
    forall i | 0 <= i < |n.effects| ensures EffectOk(n, n.effects[i]) {
      if i < |w.effects| { assert EffectOk(w, w.effects[i]); }
    }
  }

  lemma CourierFlows(w: World, e: EventId, a: CourierAct)
    requires FlowsOk(w) && e in w.flows && CourierEnabled(w.flows[e], a)
    ensures FlowsOk(CourierWorld(w, e, a))
  {
    var n := CourierWorld(w, e, a);
    forall t | t in n.flows ensures FlowOk(n.flows[t], Count(n.effects, t)) {
      CourierCounts(w, e, a, t);
      if t == e {
        CourierKeeps(w.flows[e], Count(w.effects, e), a);
      } else {
        assert n.flows[t] == w.flows[t];
      }
    }
  }

  lemma CourierCounts(w: World, e: EventId, a: CourierAct, t: EventId)
    requires e in w.flows && CourierEnabled(w.flows[e], a)
    ensures Count(CourierWorld(w, e, a).effects, t) == Count(w.effects, t) + (if t == e then Gain(a) else 0)
  {
    var id := Delivered(w.flows[e]);
    CountAppend(w.effects, Effect(e, id.target, id.digest), t);
  }

  lemma CourierRows(w: World, e: EventId, a: CourierAct)
    requires RowsOk(w) && e in w.flows && CourierEnabled(w.flows[e], a)
    ensures RowsOk(CourierWorld(w, e, a))
  {
    var n := CourierWorld(w, e, a);
    forall t | t in n.flows ensures RowOk(n.rows, t, n.flows[t]) {
      var k :| 0 <= k < |w.rows| && RowMirrors(w.rows[k], t, w.flows[t]);
      assert RowMirrors(n.rows[k], t, n.flows[t]);
    }
  }

  lemma CourierWorldKeeps(w: World, e: EventId, a: CourierAct)
    requires Ok(w) && Enabled(w, Couriers(e, a))
    ensures Ok(CourierWorld(w, e, a))
  {
    CourierFlows(w, e, a);
    CourierRows(w, e, a);
    CourierEffects(w, e, a);
    CourierLock(w, e, a);
  }

  lemma ResolveKeeps(w: World, e: EventId, now: Seconds)
    requires Ok(w)
    ensures Ok(Next(w, OwnerResolves(e), now))
  {
    var n := Next(w, OwnerResolves(e), now);
    forall t | t in n.flows ensures RowOk(n.rows, t, n.flows[t]) {
      assert RowOk(w.rows, t, w.flows[t]);
      forall i | 0 <= i < |w.rows| && w.rows[i].event == t ensures SameOutcome(w.rows[i], n.rows[i]) {
        if w.rows[i].status.Decided() { ResolutionNeverReplacesAResult(w.rows, e, now, i); }
      }
      KeepRow(w.rows, n.rows, t, w.flows[t]);
    }
    forall i | 0 <= i < |n.effects| ensures EffectOk(n, n.effects[i]) {
      assert EffectOk(w, w.effects[i]);
    }
  }

  lemma StepKeeps(w: World, s: Step, now: Seconds)
    requires Ok(w) && Enabled(w, s)
    ensures Ok(Next(w, s, now))
  {
    match s
    case Starts(e, id, reach) => StartKeeps(w, e, id, reach, now);
    case Sends(e, a) => SendKeeps(w, e, a, now);
    case Receives(e, a) => ReceiveKeeps(w, e, a, now);
    case Couriers(e, a) => CourierWorldKeeps(w, e, a);
    case CourierStops(t) =>
      var n := Next(w, s, now);
      forall i | 0 <= i < |n.effects| ensures EffectOk(n, n.effects[i]) { assert EffectOk(w, w.effects[i]); }
    case OwnerResolves(e) => ResolveKeeps(w, e, now);
  }

  lemma {:induction false} StaysOk(steps: seq<Step>, clock: seq<Seconds>, worlds: seq<World>, k: nat)
    requires Delivery.Run(steps, clock, worlds) && k <= |steps|
    ensures Ok(worlds[k])
  {
    if k > 0 {
      StaysOk(steps, clock, worlds, k - 1);
      assert Delivery.Stepped(worlds[k - 1], steps[k - 1], clock[k - 1], worlds[k]);
      StepKeeps(worlds[k - 1], steps[k - 1], clock[k - 1]);
    }
  }

  // -- what every run guarantees -----------------------------------------------------------------

  /** The status the sender's table shows for an event. */
  ghost predicate Shows(w: World, e: EventId, status: Status) {
    exists i :: 0 <= i < |w.rows| && w.rows[i].event == e && w.rows[i].status == status
  }

  /** Every event has at most one effect, and each effect is on exactly the
      target and body digest that the sender's own row names. */
  lemma AtMostOneEffectAndOnlyWhatTheRowNames(
      steps: seq<Step>, clock: seq<Seconds>, worlds: seq<World>, k: nat, i: nat, j: nat)
    requires Delivery.Run(steps, clock, worlds) && k <= |steps|
    requires i < |worlds[k].effects| && j < |worlds[k].effects|
    ensures worlds[k].effects[i].event == worlds[k].effects[j].event ==> i == j
    ensures exists r :: 0 <= r < |worlds[k].rows| && worlds[k].rows[r].event == worlds[k].effects[i].event
              && worlds[k].rows[r].identity.target == worlds[k].effects[i].target
              && worlds[k].rows[r].identity.digest == worlds[k].effects[i].digest
  {
    StaysOk(steps, clock, worlds, k);
    var w := worlds[k];
    var e := w.effects[i].event;
    assert EffectOk(w, w.effects[i]);
    assert RowOk(w.rows, e, w.flows[e]);
    var r :| 0 <= r < |w.rows| && RowMirrors(w.rows[r], e, w.flows[e]);
    assert FlowOk(w.flows[e], Count(w.effects, e));
    if w.effects[j].event == e && i != j {
      CountTwice(w.effects, if i < j then i else j, if i < j then j else i);
    }
  }

  lemma {:induction false} CountOnce(effects: seq<Effect>, i: nat)
    requires i < |effects|
    ensures Count(effects, effects[i].event) >= 1
    decreases |effects|
  {
    if i < |effects| - 1 { CountOnce(effects[..|effects| - 1], i); }
  }

  lemma {:induction false} CountTwice(effects: seq<Effect>, i: nat, j: nat)
    requires i < j < |effects| && effects[i].event == effects[j].event
    ensures Count(effects, effects[i].event) >= 2
    decreases |effects|
  {
    if j < |effects| - 1 {
      CountTwice(effects[..|effects| - 1], i, j);
    } else {
      CountOnce(effects[..|effects| - 1], i);
    }
  }

  ghost predicate RowsHaveFlows(w: World) { forall i :: 0 <= i < |w.rows| ==> w.rows[i].event in w.flows }

  lemma RowsHaveFlowsStep(w: World, s: Step, now: Seconds)
    requires RowsHaveFlows(w) && Enabled(w, s)
    ensures RowsHaveFlows(Next(w, s, now))
  {
  }

  /** Every row of the sender's table belongs to an event of this run. */
  lemma {:induction false} RowsKeepFlows(steps: seq<Step>, clock: seq<Seconds>, worlds: seq<World>, k: nat)
    requires Delivery.Run(steps, clock, worlds) && k <= |steps|
    ensures RowsHaveFlows(worlds[k])
  {
    if k > 0 {
      RowsKeepFlows(steps, clock, worlds, k - 1);
      assert Delivery.Stepped(worlds[k - 1], steps[k - 1], clock[k - 1], worlds[k]);
      RowsHaveFlowsStep(worlds[k - 1], steps[k - 1], clock[k - 1]);
    }
  }

  /** TRANSPORT_ACCEPTED means exactly one effect happened. */
  lemma AcceptedMeansExactlyOneEffect(steps: seq<Step>, clock: seq<Seconds>, worlds: seq<World>, k: nat, e: EventId)
    requires Delivery.Run(steps, clock, worlds) && k <= |steps|
    requires Shows(worlds[k], e, TransportAccepted)
    ensures Count(worlds[k].effects, e) == 1
  {
    RowsKeepFlows(steps, clock, worlds, k);
    StaysOk(steps, clock, worlds, k);
    RowDecides(worlds[k], e, TransportAccepted);
  }

  lemma RowDecides(w: World, e: EventId, status: Status)
    requires Ok(w) && e in w.flows && Shows(w, e, status)
    ensures status.PreEffectRejected? ==> w.flows[e].sender == Ended(PreEffectRejected)
    ensures status.TransportAccepted? ==> w.flows[e].sender == Ended(TransportAccepted)
    ensures FlowOk(w.flows[e], Count(w.effects, e))
  {
    assert RowOk(w.rows, e, w.flows[e]);
    var r :| 0 <= r < |w.rows| && RowMirrors(w.rows[r], e, w.flows[e]);
    var i :| 0 <= i < |w.rows| && w.rows[i].event == e && w.rows[i].status == status;
    assert i == r;
  }

  /** Once a sender ended, it stays ended the same way. */
  lemma {:induction false} EndingIsFinal(
      steps: seq<Step>, clock: seq<Seconds>, worlds: seq<World>, j: nat, k: nat, e: EventId)
    requires Delivery.Run(steps, clock, worlds) && j <= k <= |steps|
    requires e in worlds[j].flows && worlds[j].flows[e].sender.Ended?
    ensures e in worlds[k].flows && worlds[k].flows[e].sender == worlds[j].flows[e].sender
  {
    if j < k {
      EndingIsFinal(steps, clock, worlds, j, k - 1, e);
      assert Delivery.Stepped(worlds[k - 1], steps[k - 1], clock[k - 1], worlds[k]);
      var s := steps[k - 1];
      if s.Starts? {
        StaysOk(steps, clock, worlds, k - 1);
        NewEventHasNoFlow(worlds[k - 1], s.begun);
      }
    }
  }

  /** PRE_EFFECT_REJECTED means no effect has happened and, in every continuation
      of the run, none ever will: nothing that could cause one is still alive. */
  lemma RejectedMeansNoEffectEver(
      steps: seq<Step>, clock: seq<Seconds>, worlds: seq<World>, j: nat, k: nat, e: EventId)
    requires Delivery.Run(steps, clock, worlds) && j <= k <= |steps|
    requires Shows(worlds[j], e, PreEffectRejected)
    ensures e in worlds[k].flows && Count(worlds[k].effects, e) == 0 && !Live(worlds[k].flows[e])
  {
    StaysOk(steps, clock, worlds, j);
    RowsKeepFlows(steps, clock, worlds, j);
    RowDecides(worlds[j], e, PreEffectRejected);
    EndingIsFinal(steps, clock, worlds, j, k, e);
    StaysOk(steps, clock, worlds, k);
    assert FlowOk(worlds[k].flows[e], Count(worlds[k].effects, e));
  }

  /** Effects on one recipient are serialized: no two events are admitted at once. */
  lemma OneAdmissionPerCourier(steps: seq<Step>, clock: seq<Seconds>, worlds: seq<World>, k: nat, a: EventId, b: EventId)
    requires Delivery.Run(steps, clock, worlds) && k <= |steps|
    requires a in worlds[k].flows && worlds[k].flows[a].courier.Admitted?
    requires b in worlds[k].flows && worlds[k].flows[b].courier.Admitted?
    requires Delivered(worlds[k].flows[a]).target == Delivered(worlds[k].flows[b]).target
    ensures a == b
  {
    StaysOk(steps, clock, worlds, k);
  }
}
