/**
 * What an MCP session does with an element, told from what came before it alone:
 * when the handshake is complete, which requests are dispatched, and what each is
 * answered.
 */
module McpHistory {
  import opened Collections
  import opened McpSession

  /** An element, and whether it came in a batch. */
  datatype Item = Item(element: Element, inBatch: bool)

  function After(items: seq<Item>): Session
    decreases |items|
  {
    if items == [] then Fresh
    else HandleOne(After(items[..|items| - 1]), items[|items| - 1].element, items[|items| - 1].inBatch).0
  }

  function ItemsOf(m: Message): seq<Item> {
    match m
    case Single(e) => [Item(e, false)]
    case Batch(es) => seq(|es|, i requires 0 <= i < |es| => Item(es[i], true))
  }

  // -- the history ------------------------------------------------------------------------------------

  /** Some earlier request had this id, whatever became of it. */
  predicate UsedBefore(items: seq<Item>, k: nat, id: Id) {
    exists i :: 0 <= i < k && i < |items| && items[i].element.Request? && items[i].element.id == Some(id)
  }

  /** A well-formed request under a new id. */
  predicate Proper(items: seq<Item>, k: nat, name: string)
    requires k < |items|
  {
    var e := items[k].element;
    && e.Request? && e.id.Some? && !UsedBefore(items, k, e.id.value)
    && e.name == Some(name) && e.params.Object?
  }

  /** Item k opens the handshake: the first proper initialize outside a batch. */
  predicate Opens(items: seq<Item>, k: nat) {
    && k < |items| && Proper(items, k, "initialize") && !items[k].inBatch && items[k].element.params.usable
    && (forall i :: 0 <= i < k ==>
          !(Proper(items, i, "initialize") && !items[i].inBatch && items[i].element.params.usable))
  }

  /** Item k completes it: the first initialized notification after that. */
  predicate Completes(items: seq<Item>, k: nat) {
    && k < |items| && items[k].element == Notification(Some("notifications/initialized"))
    && (exists i: nat :: i < k && Opens(items, i)
          && forall j :: i < j < k ==> items[j].element != Notification(Some("notifications/initialized")))
  }

  ghost predicate Opened(items: seq<Item>) { exists i: nat :: Opens(items, i) }

  ghost predicate Complete(items: seq<Item>) { exists k: nat :: Completes(items, k) }

  // -- and the session ----------------------------------------------------------------------------------

  ghost predicate Tells(items: seq<Item>, s: Session) {
    && (forall id :: id in s.seen <==> UsedBefore(items, |items|, id))
    && (s.phase.AwaitInitialize? <==> !Opened(items))
    && (s.phase.Operational? <==> Complete(items))
  }

  lemma UsedOn(items: seq<Item>, x: Item, id: Id)
    ensures UsedBefore(items + [x], |items + [x]|, id) <==>
      UsedBefore(items, |items|, id) || (x.element.Request? && x.element.id == Some(id))
    ensures forall k :: 0 <= k <= |items| ==> (UsedBefore(items + [x], k, id) <==> UsedBefore(items, k, id))
  {
    var more := items + [x];
    assert more[|items|] == x && forall i :: 0 <= i < |items| ==> more[i] == items[i];
  }

  lemma ProperOn(items: seq<Item>, x: Item, k: nat, name: string)
    requires k < |items|
    ensures Proper(items + [x], k, name) <==> Proper(items, k, name)
    ensures (items + [x])[k] == items[k]
  {
    var e := items[k].element;
    assert (items + [x])[k] == items[k];
    if e.Request? && e.id.Some? { UsedOn(items, x, e.id.value); }
  }

  lemma OpensOn(items: seq<Item>, x: Item, k: nat)
    requires k < |items|
    ensures Opens(items + [x], k) <==> Opens(items, k)
  {
    var more := items + [x];
    forall i | 0 <= i <= k ensures (Proper(more, i, "initialize") <==> Proper(items, i, "initialize")) && more[i] == items[i] {
      ProperOn(items, x, i, "initialize");
    }
  }

  lemma CompletesOn(items: seq<Item>, x: Item, k: nat)
    requires k < |items|
    ensures Completes(items + [x], k) <==> Completes(items, k)
  {
    var more := items + [x];
    assert forall i :: 0 <= i < |items| ==> more[i] == items[i];
    forall i: nat | i < k ensures Opens(more, i) <==> Opens(items, i) { OpensOn(items, x, i); }
  }

  lemma OpenedOn(items: seq<Item>, x: Item)
    ensures Opened(items + [x]) <==> Opened(items) || Opens(items + [x], |items|)
  {
    if Opened(items) {
      var i: nat :| Opens(items, i);
      OpensOn(items, x, i);
    }
    forall i: nat | Opens(items + [x], i) && i < |items| ensures Opened(items) { OpensOn(items, x, i); }
  }

  lemma CompleteOn(items: seq<Item>, x: Item)
    ensures Complete(items + [x]) <==> Complete(items) || Completes(items + [x], |items|)
  {
    if Complete(items) {
      var i: nat :| Completes(items, i);
      CompletesOn(items, x, i);
    }
    forall i: nat | Completes(items + [x], i) && i < |items| ensures Complete(items) { CompletesOn(items, x, i); }
  }

  /** The next item opens the handshake exactly if none did and it could. */
  lemma NextOpens(items: seq<Item>, x: Item)
    ensures Opens(items + [x], |items|) <==> !Opened(items) && CouldOpen(items, x)
  {
    var more := items + [x];
    assert more[|items|] == x;
    forall i | 0 <= i < |items| ensures (Proper(more, i, "initialize") <==> Proper(items, i, "initialize")) && more[i] == items[i] {
      ProperOn(items, x, i, "initialize");
    }
    if Opened(items) {
      var i: nat :| Opens(items, i);
      assert Proper(more, i, "initialize");
    }
    FirstOpens(items, |items|);
  }

  /** If any item up to k could open the handshake, some item does. */
  lemma {:induction false} FirstOpens(items: seq<Item>, k: nat)
    requires k <= |items|
    ensures (exists i :: 0 <= i < k && Proper(items, i, "initialize") && !items[i].inBatch && items[i].element.params.usable)
      ==> Opened(items)
    decreases k
  {
    if k > 0 {
      FirstOpens(items, k - 1);
      if !Opened(items) && Proper(items, k - 1, "initialize") && !items[k - 1].inBatch && items[k - 1].element.params.usable {
        assert Opens(items, k - 1);
      }
    }
  }

  /** The next item completes the handshake exactly if it was opened and not completed,
      and this is the notification. */
  lemma NextCompletes(items: seq<Item>, x: Item)
    ensures Completes(items + [x], |items|) <==>
      Opened(items) && !Complete(items) && x.element == Notification(Some("notifications/initialized"))
  {
    var more := items + [x];
    assert more[|items|] == x && forall i :: 0 <= i < |items| ==> more[i] == items[i];
    if Completes(more, |items|) {
      var i: nat :| i < |items| && Opens(more, i)
        && forall j :: i < j < |items| ==> more[j].element != Notification(Some("notifications/initialized"));
      OpensOn(items, x, i);
      forall k: nat, o: nat | o < k && Opens(items, o) ensures !Completes(items, k) {
        OneOpens(items, o, i);
        assert k < |items| ==> more[k].element == items[k].element;
      }
    }
    if Opened(items) && !Complete(items) {
      var i: nat :| Opens(items, i);
      OpensOn(items, x, i);
      NothingCompleted(items, i, |items|);
      assert forall j :: i < j < |items| ==> more[j].element != Notification(Some("notifications/initialized"));
    }
  }

  lemma OneOpens(items: seq<Item>, a: nat, b: nat)
    requires Opens(items, a) && Opens(items, b)
    ensures a == b
  {
  }

  lemma {:induction false} NothingCompleted(items: seq<Item>, i: nat, k: nat)
    requires Opens(items, i) && !Complete(items) && k <= |items|
    ensures forall j :: i < j < k ==> items[j].element != Notification(Some("notifications/initialized"))
    decreases k
  {
    if k > i + 1 {
      NothingCompleted(items, i, k - 1);
      if items[k - 1].element == Notification(Some("notifications/initialized")) {
        assert Completes(items, k - 1);
      }
    }
  }

  lemma CompleteIsOpened(items: seq<Item>)
    ensures Complete(items) ==> Opened(items)
  {
  }

  /** The session remembers exactly the ids used, and is in the phase of its history. */
  lemma {:induction false} SessionIsTheHistory(items: seq<Item>)
    ensures Tells(items, After(items))
    decreases |items|
  {
    if items != [] {
      var init, x := items[..|items| - 1], items[|items| - 1];
      assert items == init + [x];
      SessionIsTheHistory(init);
      forall id: Id { UsedOn(init, x, id); }
      OpenedOn(init, x);
      CompleteOn(init, x);
      NextOpens(init, x);
      NextCompletes(init, x);
      CompleteIsOpened(init);
      OneMore(init, x);
    }
  }

  /** The item could open the handshake. */
  predicate CouldOpen(items: seq<Item>, x: Item) {
    Proper(items + [x], |items|, "initialize") && !x.inBatch && x.element.params.usable
  }

  lemma {:induction false} OneMore(items: seq<Item>, x: Item)
    requires Tells(items, After(items)) && (Complete(items) ==> Opened(items))
    ensures (
      var s, n := After(items), HandleOne(After(items), x.element, x.inBatch).0;
      && (forall id :: id in n.seen <==> (id in s.seen || (x.element.Request? && x.element.id == Some(id))))
      && (n.phase.AwaitInitialize? <==> (!Opened(items) && !CouldOpen(items, x)))
      && (n.phase.Operational? <==>
            (Complete(items) || (Opened(items) && x.element == Notification(Some("notifications/initialized"))))))
  {
    assert (items + [x])[|items|] == x;
    if x.element.Request? && x.element.id.Some? { UsedOn(items, x, x.element.id.value); }
  }

  // -- the results ---------------------------------------------------------------------------------------

  /** A request of a method of its own is dispatched, under its id and name, exactly if
      it is proper and the handshake is complete. */
  lemma {:induction false} DispatchedExactly(items: seq<Item>, x: Item, name: string)
    requires x.element.Request? && name != "initialize" && name != "ping"
    ensures (
      var before, after := After(items), HandleOne(After(items), x.element, x.inBatch).0;
      && (x.element.name == Some(name) ==>
            after.log == before.log
              + (if Proper(items + [x], |items|, name) && Complete(items) then [Dispatched(x.element.id.value, name)] else [])))
  {
    SessionIsTheHistory(items);
    assert (items + [x])[|items|] == x;
    if x.element.id.Some? { UsedOn(items, x, x.element.id.value); }
  }

  /** What a request is answered: under its own id if that is valid, and with success
      exactly for an opening initialize, a ping, or a dispatch that returned. */
  lemma {:induction false} AnsweredExactly(items: seq<Item>, x: Item)
    requires x.element.Request?
    ensures (
      var r := HandleOne(After(items), x.element, x.inBatch).1;
      && r.Some? && (r.value.Error? ==> r.value.about == x.element.id)
      && (r.value.Success? ==> Some(r.value.id) == x.element.id)
      && (r.value.Success? <==>
            (|| (!Opened(items) && CouldOpen(items, x)) || Proper(items + [x], |items|, "ping")
             || (x.element.name.Some? && x.element.name.value != "initialize" && x.element.name.value != "ping"
                 && Proper(items + [x], |items|, x.element.name.value) && Complete(items) && x.element.dispatch.Returned?))))
  {
    SessionIsTheHistory(items);
    assert (items + [x])[|items|] == x;
    if x.element.id.Some? { UsedOn(items, x, x.element.id.value); }
  }

  /** Why a request fails: its id is invalid or was used, it has no method name, it is an
      initialize at the wrong time or a method before the handshake is complete; its
      parameters; or what the dispatcher says. */
  lemma {:induction false} FailsExactly(items: seq<Item>, x: Item)
    requires x.element.Request? && HandleOne(After(items), x.element, x.inBatch).1.value.Error?
    ensures (
      var code, e := HandleOne(After(items), x.element, x.inBatch).1.value.code, x.element;
      var named := e.id.Some? && !UsedBefore(items, |items|, e.id.value) && e.name.Some?;
      && (!named ==> code.InvalidRequest?)
      && (named && e.params.NotObject? ==> code.InvalidParams?)
      && (named && e.params.Object? && e.name.value == "initialize" ==>
            code == if x.inBatch || Opened(items) then InvalidRequest else InvalidParams)
      && (named && e.params.Object? && e.name.value != "initialize" && !Complete(items) ==> code.InvalidRequest?)
      && (named && e.params.Object? && e.name.value != "initialize" && Complete(items) ==>
            (code.MethodNotFound? <==> e.dispatch.NotFound?) && (code.InvalidParams? <==> e.dispatch.Refused?)
            && (code.InternalError? <==> e.dispatch.Crashed?)))
  {
    SessionIsTheHistory(items);
  }

  /** Handling messages one after another is handling their items one after another. */
  lemma {:induction false} BatchIsItsItems(items: seq<Item>, es: seq<Element>)
    ensures HandleAll(After(items), es).0 == After(items + seq(|es|, i requires 0 <= i < |es| => Item(es[i], true)))
    decreases |es|
  {
    var all := seq(|es|, i requires 0 <= i < |es| => Item(es[i], true));
    if es == [] {
      assert items + all == items;
    } else {
      var init := es[..|es| - 1];
      BatchIsItsItems(items, init);
      var before := seq(|init|, i requires 0 <= i < |init| => Item(init[i], true));
      assert all == before + [Item(es[|es| - 1], true)];
      assert (items + all)[..|items + all| - 1] == items + before;
    }
  }

  lemma MessageIsItsItems(items: seq<Item>, m: Message)
    ensures Handle(After(items), m).0 == After(items + ItemsOf(m))
  {
    match m
    case Single(e) => assert (items + [Item(e, false)])[..|items|] == items;
    case Batch(es) =>
      BatchIsItsItems(items, es);
      if es == [] { assert items + ItemsOf(m) == items; }
  }

  lemma {:induction false} RunIsItsItems(items: seq<Item>, ms: seq<Message>)
    ensures Run(After(items), ms) == After(items + FlatMap(ItemsOf, ms))
    decreases |ms|
  {
    if ms == [] {
      assert items + FlatMap(ItemsOf, ms) == items;
    } else {
      var first, rest := ItemsOf(ms[0]), FlatMap(ItemsOf, ms[1..]);
      assert Handle(After(items), ms[0]).0 == After(items + first) by { MessageIsItsItems(items, ms[0]); }
      assert Run(After(items + first), ms[1..]) == After(items + first + rest) by { RunIsItsItems(items + first, ms[1..]); }
      assert FlatMap(ItemsOf, ms) == first + rest;
      assert items + first + rest == items + (first + rest);
    }
  }
}
