/**
 * The events after which a subagent can be mistaken for the root, followed to the
 * release: from every state that meets their guard, and in runs from the start.
 */
module SubagentReleases {
  import opened Collections
  import opened SubagentStore
  import opened SubagentRuns

  /** From any state whose route is gone: clearing under a recorded hook releases to
      whoever fired it, exactly unless it is a Stop that is already active. */
  lemma ClearingUnderAnOpenHookReleases(s: Session, who: nat)
    requires s.route.Removed? && who in s.hooks && s.hooks[who].recorded
    ensures exists end :: (
      Execute(s, [Clears, Decides(who)]) == Some(end)
      && (end.released == s.released + [who] <==> !(s.hooks[who].hook.StopHook? && s.hooks[who].hook.active)))
  {
    var s1 := Apply(s, Clears);
    var s2 := Apply(s1, Decides(who));
    assert [Clears, Decides(who)][1..] == [Decides(who)] && [Decides(who)][1..] == [];
    assert Execute(s1, [Decides(who)]) == Some(s2);
    assert |s.released + [who]| == |s.released| + 1;
  }

  /** The same before the hook has recorded. */
  lemma ClearingBeforeTheRecordReleases(s: Session, who: nat)
    requires s.route.Removed? && who in s.hooks && !s.hooks[who].recorded && Exposed(s.hooks[who])
    ensures exists end :: (
      Execute(s, [Clears, Records(who, Written), Decides(who)]) == Some(end) && end.released == s.released + [who])
  {
    var s1 := Apply(s, Clears);
    var s2 := Apply(s1, Records(who, Written));
    var s3 := Apply(s2, Decides(who));
    assert s2.evidence == Blank;
    assert [Clears, Records(who, Written), Decides(who)][1..] == [Records(who, Written), Decides(who)];
    assert [Records(who, Written), Decides(who)][1..] == [Decides(who)] && [Decides(who)][1..] == [];
    assert Execute(s2, [Decides(who)]) == Some(s3);
    assert Execute(s1, [Records(who, Written), Decides(who)]) == Some(s3);
  }

  /** From any state with a route: a running child that may nest and is in no hook is
      released to at a root-only tool exactly when custody does not hold. */
  lemma UnheldChildIsReleasedTo(s: Session, who: nat)
    requires s.route.Registered? && who != ROOT && Alive(s, who) && s.actors[who].nests && who !in s.hooks
    ensures exists end :: (
      Execute(s, [Fires(who, ToolHook("ask_user_question")), Records(who, Written), Decides(who)]) == Some(end)
      && (end.released == s.released + [who] <==> !CustodyOf(s.evidence, s.marked).Hold?))
  {
    var fire, record, decide := Fires(who, ToolHook("ask_user_question")), Records(who, Written), Decides(who);
    var s1 := Apply(s, fire);
    var s2 := Apply(s1, record);
    var s3 := Apply(s2, decide);
    assert [fire, record, decide][1..] == [record, decide] && [record, decide][1..] == [decide] && [decide][1..] == [];
    assert Execute(s2, [decide]) == Some(s3);
    assert Execute(s1, [record, decide]) == Some(s3);
    assert |s.released + [who]| == |s.released| + 1;
  }

  /** A lowering return leaves its victim unheld exactly when no other entry nests. */
  lemma LoweringEndsTheHold(s: Session, t: Step)
    requires Enabled(s, t) && Lowers(s, t)
    ensures (
      var h := s.hooks[t.who].hook;
      CustodyOf(Apply(s, t).evidence, Apply(s, t).marked).RootTools? <==>
        !AnyNests(s.evidence.pending) && (forall k :: k in s.evidence.children && k != h.out.started.value ==> !s.evidence.children[k]))
  {
    var h := s.hooks[t.who].hook;
    var before, after := s.evidence, Apply(s, t).evidence;
    var u, x := h.toolUse.value, h.out.started.value;
    assert x in after.children && after != Blank;
    assert AnyNests(before.pending) <==> AnyNests(after.pending) by {
      if AnyNests(before.pending) { var k :| k in before.pending && before.pending[k]; assert k in after.pending; }
    }
    forall k | k in before.children && k != x ensures k in after.children && after.children[k] == before.children[k] {}
    assert AnyNests(after.children) <==> exists k :: k in before.children && k != x && before.children[k] by {
      if AnyNests(after.children) { var k :| k in after.children && after.children[k]; assert k in before.children && k != x; }
    }
    assert !after.uncertain && !Apply(s, t).marked;
  }

  /** From any state with a route: a running subagent in no hook is released to at an
      ordinary tool exactly when there is no custody. */
  lemma FreeChildIsReleasedTo(s: Session, who: nat)
    requires s.route.Registered? && who != ROOT && Alive(s, who) && who !in s.hooks
    ensures exists end :: (
      Execute(s, [Fires(who, ToolHook("edit")), Records(who, Written), Decides(who)]) == Some(end)
      && (end.released == s.released + [who] <==> CustodyOf(s.evidence, s.marked).Free?))
  {
    var fire, record, decide := Fires(who, ToolHook("edit")), Records(who, Written), Decides(who);
    var s1 := Apply(s, fire);
    var s2 := Apply(s1, record);
    var s3 := Apply(s2, decide);
    assert [fire, record, decide][1..] == [record, decide] && [record, decide][1..] == [decide] && [decide][1..] == [];
    assert Execute(s2, [decide]) == Some(s3);
    assert Execute(s1, [record, decide]) == Some(s3);
    assert |s.released + [who]| == |s.released| + 1;
  }

  /** From any state with a route in which the root has no hook open: a body is released
      to it at a Stop that is not active exactly without custody, and at a tool exactly
      without custody or, for a root-only tool, if custody leaves it those. */
  lemma RootIsReleasedToExactly(s: Session, hook: Hook)
    requires s.route.Registered? && ROOT !in s.hooks && (hook.StopHook? || hook.ToolHook?)
    ensures exists end :: (
      var custody := CustodyOf(s.evidence, s.marked);
      && Execute(s, [Fires(ROOT, hook), Records(ROOT, Written), Decides(ROOT)]) == Some(end)
      && (end.released == s.released + [ROOT] <==>
            if hook.StopHook? then !hook.active && custody.Free?
            else custody.Free? || (custody.RootTools? && hook.tool in {"run_subagent", "read_subagent", "ask_user_question"})))
  {
    var fire, record, decide := Fires(ROOT, hook), Records(ROOT, Written), Decides(ROOT);
    var s1 := Apply(s, fire);
    var s2 := Apply(s1, record);
    var s3 := Apply(s2, decide);
    assert [fire, record, decide][1..] == [record, decide] && [record, decide][1..] == [decide] && [decide][1..] == [];
    assert Execute(s2, [decide]) == Some(s3);
    assert Execute(s1, [record, decide]) == Some(s3);
    assert |s.released + [ROOT]| == |s.released| + 1;
  }

  /** Another session's stale update, then: any running subagent in no hook is
      released to, and so is whoever has recorded and is not in an active Stop. */
  lemma PruningReleases(s: Session, t: Step, who: nat)
    requires Wipes(s, t) && who != ROOT
    ensures s.route.Registered? && Alive(s, who) && who !in s.hooks ==> exists end :: (
      Execute(Apply(s, t), [Fires(who, ToolHook("edit")), Records(who, Written), Decides(who)]) == Some(end)
      && end.released == s.released + [who])
    ensures who in s.hooks && s.hooks[who].recorded ==> exists end :: (
      Execute(Apply(s, t), [Decides(who)]) == Some(end)
      && (end.released == s.released + [who] <==> !(s.hooks[who].hook.StopHook? && s.hooks[who].hook.active)))
  {
    var after := Apply(s, t);
    assert CustodyOf(after.evidence, after.marked).Free?;
    if s.route.Registered? && Alive(s, who) && who !in s.hooks { FreeChildIsReleasedTo(after, who); }
    if who in s.hooks && s.hooks[who].recorded {
      ExecuteOne(after, Decides(who));
      assert |s.released + [who]| == |s.released| + 1;
    }
  }

  /** A launch without a trace leaves custody as it was; its child, once it runs, is
      released to exactly if that is no custody. */
  lemma UntracedLaunchReleases(s: Session, t: Step)
    requires t.Launches? && Enabled(s, t) && s.route.Registered? && t.note.Nowhere? && t.child !in s.hooks
    ensures (
      var running := Apply(Apply(s, t), Begins(t.child));
      exists end :: (
        Execute(running, [Fires(t.child, ToolHook("edit")), Records(t.child, Written), Decides(t.child)]) == Some(end)
        && (end.released == s.released + [t.child] <==> CustodyOf(s.evidence, s.marked).Free?)))
  {
    FreeChildIsReleasedTo(Apply(Apply(s, t), Begins(t.child)), t.child);
  }

  // -- such runs from the start --------------------------------------------------------------------------------

  const Ready := Apply(Start, Registers)

  const ClearRun: seq<Step> := [
    Launches(0, 1, Some("use"), "custom", "agent", Written), Begins(1),
    Fires(1, ToolHook("edit")), Records(1, Written), RouteRemoved, Clears, Decides(1)]

  const ChildAtTool := Session(
    Evidence(map[], map["use" := true], false), false, Registered, false,
    map[1 := Actor(Some("use"), true, "agent", Running, false)],
    map[1 := Open(ToolHook("edit"), true)], [], map[])

  lemma {:induction false} ExecuteOn(s: Session, a: seq<Step>, b: seq<Step>)
    requires Execute(s, a).Some?
    ensures Execute(s, a + b) == Execute(Execute(s, a).value, b)
    decreases |a|
  {
    if a == [] {
      assert a + b == b;
    } else {
      assert (a + b)[0] == a[0] && (a + b)[1..] == a[1..] + b;
      ExecuteOn(Apply(s, a[0]), a[1..], b);
    }
  }

  lemma ExecuteOne(s: Session, t: Step)
    requires Enabled(s, t)
    ensures Execute(s, [t]) == Some(Apply(s, t))
  {
    assert [t][1..] == [];
  }

  lemma ExecuteTwo(s: Session, t: Step, u: Step)
    requires Enabled(s, t) && Enabled(Apply(s, t), u)
    ensures Execute(s, [t, u]) == Some(Apply(Apply(s, t), u))
  {
    assert [t, u][1..] == [u];
    ExecuteOne(Apply(s, t), u);
  }

  lemma ChildReachesTool()
    ensures Execute(Ready, ClearRun[..4]) == Some(ChildAtTool)
  {
    var launch, begin, fire, record := ClearRun[0], ClearRun[1], ClearRun[2], ClearRun[3];
    var s2 := Apply(Apply(Ready, launch), begin);
    ExecuteTwo(Ready, launch, begin);
    assert Alive(s2, 1);
    ExecuteTwo(s2, fire, record);
    assert Apply(Apply(s2, fire), record) == ChildAtTool;
    ExecuteOn(Ready, [launch, begin], [fire, record]);
    assert ClearRun[..4] == [launch, begin] + [fire, record];
  }

  /** The session ends while a subagent's hook is open, and the body goes to it. */
  lemma ClearRunReleasesToAChild()
    ensures Execute(Start, [Registers] + ClearRun).Some? && 1 in Execute(Start, [Registers] + ClearRun).value.released
  {
    ChildReachesTool();
    var s := Apply(ChildAtTool, RouteRemoved);
    ExecuteOne(ChildAtTool, RouteRemoved);
    ClearingUnderAnOpenHookReleases(s, 1);
    ExecuteOn(ChildAtTool, [RouteRemoved], [Clears, Decides(1)]);
    ExecuteOn(Ready, ClearRun[..4], [RouteRemoved] + [Clears, Decides(1)]);
    assert ClearRun == ClearRun[..4] + ([RouteRemoved] + [Clears, Decides(1)]);
    ExecuteOne(Start, Registers);
    ExecuteOn(Start, [Registers], ClearRun);
    var end := Execute(Ready, ClearRun).value;
    assert end.released == [] + [1];
    assert end.released[0] == 1;
  }

  const QUOTE := Output(Some("a"), Some("b"))

  /** A custom child runs in the background; a built-in child finishes, and its report
      quotes the custom child's start line. */
  const QuoteRun: seq<Step> := [
    Launches(0, 1, Some("u"), "custom", "a", Written), Begins(1),
    Fires(0, ReturnHook(1, Some("u"), Output(Some("a"), None))), Records(0, Written), Decides(0),
    Launches(0, 2, Some("v"), "subagent_explore", "b", Written), Begins(2), Finishes(2),
    Fires(0, ReturnHook(2, Some("v"), QUOTE)), Records(0, Written)]

  const Background := Session(
    Evidence(map["a" := true], map[], false), false, Registered, false,
    map[1 := Actor(Some("u"), true, "a", Running, true)], map[], [], map[])

  const Quoting := Session(
    Evidence(map["a" := true], map["v" := false], false), false, Registered, false,
    map[1 := Actor(Some("u"), true, "a", Running, true), 2 := Actor(Some("v"), false, "b", Finished, false)],
    map[0 := Open(ReturnHook(2, Some("v"), QUOTE), false)], [], map[])

  const Backgrounding := Session(
    Evidence(map[], map["u" := true], false), false, Registered, false,
    map[1 := Actor(Some("u"), true, "a", Running, false)],
    map[0 := Open(ReturnHook(1, Some("u"), Output(Some("a"), None)), false)], [], map[])

  lemma QuoteRunReturns()
    ensures Execute(Ready, QuoteRun[..3]) == Some(Backgrounding)
  {
    var s2 := Apply(Apply(Ready, QuoteRun[0]), QuoteRun[1]);
    ExecuteTwo(Ready, QuoteRun[0], QuoteRun[1]);
    assert Truthful(s2, ReturnHook(1, Some("u"), Output(Some("a"), None)));
    assert Apply(s2, QuoteRun[2]) == Backgrounding;
    ExecuteOne(s2, QuoteRun[2]);
    ExecuteOn(Ready, [QuoteRun[0], QuoteRun[1]], [QuoteRun[2]]);
    assert QuoteRun[..3] == [QuoteRun[0], QuoteRun[1]] + [QuoteRun[2]];
  }

  lemma QuoteRunBackground()
    ensures Execute(Ready, QuoteRun[..5]) == Some(Background)
  {
    QuoteRunReturns();
    var s4 := Apply(Backgrounding, QuoteRun[3]);
    assert s4.evidence == Evidence(map["a" := true], map[], false);
    assert AnyNests(s4.evidence.children) by { assert s4.evidence.children["a"]; }
    ExecuteTwo(Backgrounding, QuoteRun[3], QuoteRun[4]);
    assert Apply(s4, QuoteRun[4]) == Background;
    ExecuteOn(Ready, QuoteRun[..3], [QuoteRun[3], QuoteRun[4]]);
    assert QuoteRun[..5] == QuoteRun[..3] + [QuoteRun[3], QuoteRun[4]];
  }

  const Finishing := Session(
    Evidence(map["a" := true], map["v" := false], false), false, Registered, false,
    map[1 := Actor(Some("u"), true, "a", Running, true), 2 := Actor(Some("v"), false, "b", Running, false)], map[], [], map[])

  lemma QuoteRunLaunches()
    ensures Execute(Background, QuoteRun[5..7]) == Some(Finishing)
  {
    ExecuteTwo(Background, QuoteRun[5], QuoteRun[6]);
    assert Apply(Apply(Background, QuoteRun[5]), QuoteRun[6]) == Finishing;
    assert QuoteRun[5..7] == [QuoteRun[5], QuoteRun[6]];
  }

  lemma QuoteRunQuotes()
    ensures Execute(Background, QuoteRun[5..9]) == Some(Quoting)
  {
    QuoteRunLaunches();
    ExecuteTwo(Finishing, QuoteRun[7], QuoteRun[8]);
    assert Apply(Apply(Finishing, QuoteRun[7]), QuoteRun[8]) == Quoting;
    ExecuteOn(Background, QuoteRun[5..7], [QuoteRun[7], QuoteRun[8]]);
    assert QuoteRun[5..9] == QuoteRun[5..7] + [QuoteRun[7], QuoteRun[8]];
  }

  /** That report lowers the custom child's entry, and its next root-only tool call is
      handed the body, with no evidence ever cleared. */
  lemma QuoteRunReleasesToAChild()
    ensures exists end :: (
      Execute(Start, [Registers] + (QuoteRun + [Fires(1, ToolHook("ask_user_question")), Records(1, Written), Decides(1)])) == Some(end)
      && end.released == [1])
  {
    QuoteRunBackground();
    QuoteRunQuotes();
    ExecuteOn(Ready, QuoteRun[..5], QuoteRun[5..9]);
    assert QuoteRun[..5] + QuoteRun[5..9] == QuoteRun[..9];
    var t := QuoteRun[9];
    assert Lowered(Quoting, 1, "a");
    LoweringEndsTheHold(Quoting, t);
    var s := Apply(Quoting, t);
    ExecuteOne(Quoting, t);
    ExecuteOn(Ready, QuoteRun[..9], [t]);
    assert QuoteRun == QuoteRun[..9] + [t];
    UnheldChildIsReleasedTo(s, 1);
    var last := [Fires(1, ToolHook("ask_user_question")), Records(1, Written), Decides(1)];
    ExecuteOn(Ready, QuoteRun, last);
    ExecuteOne(Start, Registers);
    ExecuteOn(Start, [Registers], QuoteRun + last);
    assert s.released + [1] == [1];
  }

  /** Another session reads its keys before this one is registered, and writes while
      a custom child of this one runs. */
  const PruneRun: seq<Step> := [
    OtherReads(7), Registers, Launches(0, 1, Some("u"), "custom", "a", Written), Begins(1), OtherWrites(7)]

  const Overtaken := Session(
    Evidence(map[], map["u" := true], false), false, Registered, false,
    map[1 := Actor(Some("u"), true, "a", Running, false)], map[], [], map[7 := false])

  lemma PruneRunOvertakes()
    ensures Execute(Start, PruneRun[..4]) == Some(Overtaken)
  {
    var s2 := Apply(Apply(Start, PruneRun[0]), PruneRun[1]);
    ExecuteTwo(Start, PruneRun[0], PruneRun[1]);
    ExecuteTwo(s2, PruneRun[2], PruneRun[3]);
    assert Apply(Apply(s2, PruneRun[2]), PruneRun[3]) == Overtaken;
    ExecuteOn(Start, [PruneRun[0], PruneRun[1]], [PruneRun[2], PruneRun[3]]);
    assert PruneRun[..4] == [PruneRun[0], PruneRun[1]] + [PruneRun[2], PruneRun[3]];
  }

  lemma PruneRunReleasesToAChild()
    ensures exists end :: (
      Execute(Start, PruneRun + [Fires(1, ToolHook("edit")), Records(1, Written), Decides(1)]) == Some(end)
      && end.released == [1])
  {
    PruneRunOvertakes();
    var t := PruneRun[4];
    assert "u" in Overtaken.evidence.pending;
    PruningReleases(Overtaken, t, 1);
    ExecuteOne(Overtaken, t);
    ExecuteOn(Start, PruneRun[..4], [t]);
    assert PruneRun == PruneRun[..4] + [t];
    ExecuteOn(Start, PruneRun, [Fires(1, ToolHook("edit")), Records(1, Written), Decides(1)]);
    assert Overtaken.released + [1] == [1];
  }
}
