/**
 * From a lowered entry to a release, whatever else is unfinished: the other
 * subagents finish, the lowered child itself reports them, and when no entry is
 * left that may nest, its next root-only tool call is handed the body.
 */
module SubagentLowering {
  import opened Collections
  import opened SubagentStore
  import opened SubagentRuns
  import opened SubagentReleases

  // -- continuations free of further events -----------------------------------------------------------

  ghost predicate Calm(s: Session, steps: seq<Step>) { !Sometime(s, steps, Blinds) && !Sometime(s, steps, Lowers) }

  ghost predicate Path(s: Session, end: Session) { exists steps :: Execute(s, steps) == Some(end) && Calm(s, steps) }

  lemma {:induction false} SometimeOn(s: Session, a: seq<Step>, b: seq<Step>, event: (Session, Step) -> bool)
    requires Execute(s, a).Some?
    ensures Sometime(s, a + b, event) <==> Sometime(s, a, event) || Sometime(Execute(s, a).value, b, event)
    decreases |a|
  {
    if a == [] {
      assert a + b == b;
    } else {
      assert (a + b)[0] == a[0] && (a + b)[1..] == a[1..] + b;
      SometimeOn(Apply(s, a[0]), a[1..], b, event);
    }
  }

  lemma PathOn(s: Session, middle: Session, end: Session)
    requires Path(s, middle) && Path(middle, end)
    ensures Path(s, end)
  {
    var a :| Execute(s, a) == Some(middle) && Calm(s, a);
    var b :| Execute(middle, b) == Some(end) && Calm(middle, b);
    ExecuteOn(s, a, b);
    SometimeOn(s, a, b, Blinds);
    SometimeOn(s, a, b, Lowers);
    assert Execute(s, a + b) == Some(end) && Calm(s, a + b);
  }

  lemma PathStep(s: Session, middle: Session, t: Step)
    requires Path(s, middle) && Enabled(middle, t) && !Blinds(middle, t) && !Lowers(middle, t)
    ensures Path(s, Apply(middle, t))
  {
    ExecuteOne(middle, t);
    assert [t][1..] == [];
    assert Calm(middle, [t]);
    PathOn(s, middle, Apply(middle, t));
  }

  lemma PathHere(s: Session)
    ensures Path(s, s)
  {
    assert Execute(s, []) == Some(s) && Calm(s, []);
  }

  // -- the lowered child ---------------------------------------------------------------------------------

  /** Every awaited launch is still to return, and no return is about to be recorded. */
  ghost predicate Settleable(s: Session) {
    && (forall a :: a in s.actors && Awaited(s, s.actors[a]) ==> !s.actors[a].returned)
    && (forall b :: b in s.hooks && s.hooks[b].hook.ReturnHook? ==> s.hooks[b].recorded)
  }

  /** Every awaited launch is some subagent's. */
  ghost predicate Owned(s: Session) {
    forall k :: k in s.evidence.pending ==> exists a :: a in s.actors && s.actors[a].toolUse == Some(k)
  }

  lemma OwnedStep(s: Session, t: Step)
    requires Owned(s) && Enabled(s, t)
    ensures Owned(Apply(s, t))
  {
    var after := Apply(s, t);
    forall k | k in after.evidence.pending ensures exists a :: a in after.actors && after.actors[a].toolUse == Some(k) {
      if k in s.evidence.pending {
        var a :| a in s.actors && s.actors[a].toolUse == Some(k);
        assert after.actors[a].toolUse == Some(k);
      } else {
        assert after.actors[t.child].toolUse == Some(k);
      }
    }
  }

  lemma {:induction false} RunOwned(s: Session, steps: seq<Step>, end: Session)
    requires Owned(s) && Execute(s, steps) == Some(end)
    ensures Owned(end)
    decreases |steps|
  {
    if steps != [] {
      OwnedStep(s, steps[0]);
      RunOwned(Apply(s, steps[0]), steps[1..], end);
    }
  }

  /** A child that may nest, unfinished, with no entry that says so, in a session that
      does not hold for any other reason than entries that may nest. */
  ghost predicate Victim(s: Session, v: nat) {
    && Settleable(s) && s.route.Registered? && !Held(s)
    && v in s.actors && s.actors[v].nests && !s.actors[v].phase.Finished? && !Awaited(s, s.actors[v])
    && (s.actors[v].agent in s.evidence.children ==> !s.evidence.children[s.actors[v].agent])
  }

  ghost predicate Easier(s: Session, after: Session) {
    && after.evidence.pending == s.evidence.pending
    && (forall x :: x in after.evidence.children ==>
          x in s.evidence.children && after.evidence.children[x] == s.evidence.children[x])
    && after.actors.Keys == s.actors.Keys
    && (forall a :: a in s.actors ==> after.actors[a] == s.actors[a].(phase := after.actors[a].phase))
    && |after.released| >= |s.released|
  }

  lemma EasierOn(s: Session, middle: Session, end: Session)
    requires Easier(s, middle) && Easier(middle, end)
    ensures Easier(s, end)
  {
  }

  lemma PhaseSettles(s: Session, v: nat, t: Step)
    requires Victim(s, v) && Enabled(s, t) && (t.Begins? || (t.Finishes? && t.child != v))
    ensures Victim(Apply(s, t), v) && Easier(s, Apply(s, t)) && !Blinds(s, t) && !Lowers(s, t)
  {
    var after := Apply(s, t);
    forall a | a in after.actors && Awaited(after, after.actors[a]) ensures !after.actors[a].returned {
      assert Awaited(s, s.actors[a]);
    }
  }

  lemma RecordSettles(s: Session, v: nat, who: nat)
    requires Victim(s, v) && Enabled(s, Records(who, Written))
    ensures (
      var after := Apply(s, Records(who, Written));
      && Victim(after, v) && Easier(s, after) && after.actors == s.actors
      && after.hooks == s.hooks[who := s.hooks[who].(recorded := true)])
    ensures !Blinds(s, Records(who, Written)) && !Lowers(s, Records(who, Written))
  {
    var after := Apply(s, Records(who, Written));
    assert !s.hooks[who].hook.ReturnHook?;
    forall a | a in after.actors && Awaited(after, after.actors[a]) ensures !after.actors[a].returned {
      assert Awaited(s, s.actors[a]);
    }
  }

  lemma DecideSettles(s: Session, v: nat, who: nat)
    requires Victim(s, v) && Enabled(s, Decides(who))
    ensures (
      var after := Apply(s, Decides(who));
      Victim(after, v) && Easier(s, after) && after.actors == s.actors && after.hooks == s.hooks - {who})
    ensures !Blinds(s, Decides(who)) && !Lowers(s, Decides(who))
  {
    var after := Apply(s, Decides(who));
    forall a | a in after.actors && Awaited(after, after.actors[a]) ensures !after.actors[a].returned {
      assert Awaited(s, s.actors[a]);
    }
  }

  lemma CloseHook(s: Session, v: nat, a: nat) returns (after: Session)
    requires Victim(s, v)
    ensures Path(s, after) && Victim(after, v) && Easier(s, after) && after.hooks == s.hooks - {a} && after.actors == s.actors
  {
    PathHere(s);
    if a !in s.hooks { return s; }
    var noted := s;
    if !s.hooks[a].recorded {
      RecordSettles(s, v, a);
      PathStep(s, s, Records(a, Written));
      noted := Apply(s, Records(a, Written));
    }
    DecideSettles(noted, v, a);
    PathStep(s, noted, Decides(a));
    after := Apply(noted, Decides(a));
    EasierOn(s, noted, after);
  }

  lemma Begin(s: Session, v: nat, a: nat) returns (after: Session)
    requires Victim(s, v) && a in s.actors && !s.actors[a].phase.Finished?
    ensures Path(s, after) && Victim(after, v) && Easier(s, after) && after.hooks == s.hooks
    ensures after.actors == s.actors[a := s.actors[a].(phase := Running)]
  {
    PathHere(s);
    if s.actors[a].phase.Running? { return s; }
    PhaseSettles(s, v, Begins(a));
    PathStep(s, s, Begins(a));
    after := Apply(s, Begins(a));
  }

  /** The lowered child is running and in no hook. */
  ghost predicate Loose(s: Session, v: nat) { Victim(s, v) && s.actors[v].phase.Running? && v !in s.hooks }

  lemma Loosen(s: Session, v: nat) returns (after: Session)
    requires Victim(s, v)
    ensures Path(s, after) && Loose(after, v) && Easier(s, after)
  {
    var closed := CloseHook(s, v, v);
    after := Begin(closed, v, v);
    PathOn(s, closed, after);
    EasierOn(s, closed, after);
  }

  /** Any other subagent can finish. */
  lemma Finish(s: Session, v: nat, a: nat) returns (after: Session)
    requires Loose(s, v) && a in s.actors && a != v
    ensures Path(s, after) && Loose(after, v) && Easier(s, after) && after.actors[a].phase.Finished?
  {
    PathHere(s);
    if s.actors[a].phase.Finished? { return s; }
    var closed := CloseHook(s, v, a);
    var begun := Begin(closed, v, a);
    PathOn(s, closed, begun);
    PhaseSettles(begun, v, Finishes(a));
    PathStep(s, begun, Finishes(a));
    after := Apply(begun, Finishes(a));
    EasierOn(s, closed, begun);
    EasierOn(s, begun, after);
  }

  // -- reporting the others --------------------------------------------------------------------------------

  function Nesting(m: map<string, bool>): set<string> { set k | k in m && m[k] }

  function Remaining(e: Evidence): nat { |Nesting(e.pending)| + |Nesting(e.children)| }

  lemma NoneNests(m: map<string, bool>)
    ensures AnyNests(m) <==> |Nesting(m)| > 0
  {
    if AnyNests(m) {
      var k :| k in m && m[k];
      assert k in Nesting(m);
    }
    if |Nesting(m)| > 0 { var k :| k in Nesting(m); }
  }

  lemma SubmapNests(m: map<string, bool>, n: map<string, bool>)
    requires forall x :: x in n ==> x in m && n[x] == m[x]
    ensures |Nesting(n)| <= |Nesting(m)|
    ensures forall x :: x in Nesting(m) && x !in n ==> |Nesting(n)| < |Nesting(m)|
  {
    assert Nesting(n) <= Nesting(m);
    Smaller(Nesting(n), Nesting(m));
    forall x | x in Nesting(m) && x !in n ensures |Nesting(n)| < |Nesting(m)| {
      Smaller(Nesting(n), Nesting(m) - {x});
    }
  }

  lemma {:induction false} Smaller(a: set<string>, b: set<string>)
    requires a <= b
    ensures |a| <= |b|
    decreases |a|
  {
    if a != {} {
      var x :| x in a;
      Smaller(a - {x}, b - {x});
    }
  }

  /** The lowered child's hook is recorded. */
  lemma Noted(s: Session, v: nat, h: Hook)
    requires Loose(s, v) && (h.ReturnHook? || h.ReadHook?) && Enabled(s, Fires(v, h))
    requires h.ReturnHook? ==> h.toolUse.Some? && h.toolUse.value in s.evidence.pending
    requires h.ReturnHook? ==> h.out.started.None? && h.out.finished.Some?
    requires Fresh(s)
    ensures (
      var s1 := Apply(s, Fires(v, h));
      && Enabled(s1, Records(v, Written)) && !Blinds(s1, Records(v, Written)) && !Lowers(s1, Records(v, Written))
      && Victim(Apply(s1, Records(v, Written)), v))
  {
    var s1 := Apply(s, Fires(v, h));
    var s2 := Apply(s1, Records(v, Written));
    forall a | a in s2.actors && Awaited(s2, s2.actors[a]) ensures !s2.actors[a].returned {
      assert Awaited(s, s.actors[a]);
    }
  }

  /** The lowered child reports a finished subagent at one of its own hooks. */
  lemma Report(s: Session, v: nat, h: Hook) returns (after: Session)
    requires Loose(s, v) && (h.ReturnHook? || h.ReadHook?) && Enabled(s, Fires(v, h)) && Fresh(s)
    requires h.ReturnHook? ==> h.toolUse.Some? && h.toolUse.value in s.evidence.pending
    requires h.ReturnHook? ==> h.out.started.None? && h.out.finished.Some?
    ensures Path(s, after) && Loose(after, v) && after.evidence == Recorded(s.evidence, h) && |after.released| >= |s.released|
  {
    PathHere(s);
    PathStep(s, s, Fires(v, h));
    var s1 := Apply(s, Fires(v, h));
    Noted(s, v, h);
    PathStep(s, s1, Records(v, Written));
    var s2 := Apply(s1, Records(v, Written));
    DecideSettles(s2, v, v);
    PathStep(s, s2, Decides(v));
    after := Apply(s2, Decides(v));
  }

  /** Reached from the start by a run that was not blind. */
  ghost predicate Sighted(s: Session) { exists steps :: Execute(Start, steps) == Some(s) && !Sometime(Start, steps, Blinds) }

  lemma SightedMeans(s: Session)
    requires Sighted(s)
    ensures Inv(s) && Owned(s)
  {
    var steps :| Execute(Start, steps) == Some(s) && !Sometime(Start, steps, Blinds);
    RunKeeps(Start, steps, s);
    RunOwned(Start, steps, s);
  }

  lemma PathKeeps(s: Session, end: Session)
    requires Sighted(s) && Path(s, end)
    ensures Sighted(end)
  {
    var a :| Execute(Start, a) == Some(s) && !Sometime(Start, a, Blinds);
    var b :| Execute(s, b) == Some(end) && Calm(s, b);
    ExecuteOn(Start, a, b);
    SometimeOn(Start, a, b, Blinds);
  }

  /** An awaited launch that may nest finishes and returns. */
  lemma ReportLaunch(s: Session, v: nat, k: string) returns (after: Session)
    requires Loose(s, v) && Sighted(s) && k in Nesting(s.evidence.pending)
    ensures Path(s, after) && Loose(after, v) && |after.released| >= |s.released|
    ensures Remaining(after.evidence) < Remaining(s.evidence)
  {
    SightedMeans(s);
    var a :| a in s.actors && s.actors[a].toolUse == Some(k);
    assert Awaited(s, s.actors[a]) && a != v;
    var done := Finish(s, v, a);
    PathKeeps(s, done);
    SightedMeans(done);
    var h := ReturnHook(a, Some(k), Output(None, Some(done.actors[a].agent)));
    assert Awaited(done, done.actors[a]);
    forall b | b in done.hooks && done.hooks[b].hook.ReturnHook? ensures done.hooks[b].hook.child != a { assert HookOk(done, b); }
    after := Report(done, v, h);
    PathOn(s, done, after);
    SubmapNests(s.evidence.pending, after.evidence.pending);
    SubmapNests(s.evidence.children, after.evidence.children);
  }

  /** A child whose entry may nest finishes and is read. */
  lemma ReportChild(s: Session, v: nat, x: string) returns (after: Session)
    requires Loose(s, v) && Sighted(s) && x in Nesting(s.evidence.children)
    ensures Path(s, after) && Loose(after, v) && |after.released| >= |s.released|
    ensures Remaining(after.evidence) < Remaining(s.evidence)
  {
    var done := s;
    PathHere(s);
    if a :| a in s.actors && s.actors[a].agent == x { done := Finish(s, v, a); }
    PathKeeps(s, done);
    SightedMeans(done);
    var h := ReadHook(Some(x), Output(None, Some(x)));
    assert TruthfulRead(done, Some(x), h.out);
    after := Report(done, v, h);
    PathOn(s, done, after);
    SubmapNests(s.evidence.pending, after.evidence.pending);
    SubmapNests(s.evidence.children, after.evidence.children);
  }

  /** With no entry left that may nest, the next root-only tool call is let through. */
  lemma LastCall(s: Session, v: nat) returns (end: Session)
    requires Loose(s, v) && Remaining(s.evidence) == 0
    ensures Path(s, end) && end.released == s.released + [v]
  {
    var h := ToolHook("ask_user_question");
    PathHere(s);
    PathStep(s, s, Fires(v, h));
    var s1 := Apply(s, Fires(v, h));
    PathStep(s, s1, Records(v, Written));
    var s2 := Apply(s1, Records(v, Written));
    NoneNests(s.evidence.children);
    NoneNests(s.evidence.pending);
    assert !CustodyOf(s2.evidence, s2.marked).Hold?;
    PathStep(s, s2, Decides(v));
    end := Apply(s2, Decides(v));
  }

  lemma ReportOne(s: Session, v: nat) returns (next: Session)
    requires Loose(s, v) && Sighted(s) && Remaining(s.evidence) > 0
    ensures Path(s, next) && Loose(next, v) && |next.released| >= |s.released|
    ensures Remaining(next.evidence) < Remaining(s.evidence)
  {
    if |Nesting(s.evidence.pending)| > 0 {
      var k :| k in Nesting(s.evidence.pending);
      next := ReportLaunch(s, v, k);
    } else {
      var x :| x in Nesting(s.evidence.children);
      next := ReportChild(s, v, x);
    }
  }

  lemma {:induction false} LooseIsReleasedTo(s: Session, v: nat) returns (end: Session)
    requires Loose(s, v) && Sighted(s)
    ensures Path(s, end) && |end.released| > |s.released| && end.released[|end.released| - 1] == v
    decreases Remaining(s.evidence)
  {
    if Remaining(s.evidence) == 0 {
      end := LastCall(s, v);
    } else {
      var next := ReportOne(s, v);
      PathKeeps(s, next);
      end := LooseIsReleasedTo(next, v);
      PathOn(s, next, end);
    }
  }

  lemma VictimIsReleasedTo(s: Session, v: nat) returns (end: Session)
    requires Victim(s, v) && Sighted(s)
    ensures Path(s, end) && |end.released| > |s.released| && end.released[|end.released| - 1] == v
  {
    var loose := Loosen(s, v);
    PathKeeps(s, loose);
    end := LooseIsReleasedTo(loose, v);
    PathOn(s, loose, end);
  }

  /** A lowering return makes a victim. */
  lemma LoweringMakesAVictim(s: Session, t: Step) returns (v: nat)
    requires Fresh(s) && Enabled(s, t) && Lowers(s, t) && s.route.Registered? && Settleable(Apply(s, t))
    ensures Victim(Apply(s, t), v) && v in s.actors && Apply(s, t).released == s.released && !Blinds(s, t)
  {
    var h := s.hooks[t.who].hook;
    v :| v in s.actors && v != h.child && Lowered(s, v, h.out.started.value);
  }

  /** Every lowering return, after a run that was not blind, can be followed to a
      release to the lowered child with no further event, if every awaited launch is
      still to return and no other return is about to be recorded. */
  lemma LoweringLeadsToARelease(steps: seq<Step>, s: Session, t: Step)
    requires Execute(Start, steps) == Some(s) && !Sometime(Start, steps, Blinds)
    requires Enabled(s, t) && Lowers(s, t) && s.route.Registered? && Settleable(Apply(s, t))
    ensures exists more, end :: (
      && Execute(Apply(s, t), more) == Some(end) && Calm(Apply(s, t), more)
      && |end.released| > |s.released| && end.released[|end.released| - 1] in s.actors)
  {
    assert Sighted(s);
    SightedMeans(s);
    var v := LoweringMakesAVictim(s, t);
    SightedOn(steps, s, t);
    var end := VictimIsReleasedTo(Apply(s, t), v);
    var more :| Execute(Apply(s, t), more) == Some(end) && Calm(Apply(s, t), more);
  }

  lemma SightedOn(steps: seq<Step>, s: Session, t: Step)
    requires Execute(Start, steps) == Some(s) && !Sometime(Start, steps, Blinds) && Enabled(s, t) && !Blinds(s, t)
    ensures Sighted(Apply(s, t))
  {
    ExecuteOne(s, t);
    ExecuteOn(Start, steps, [t]);
    assert [t][1..] == [];
    SometimeOn(Start, steps, [t], Blinds);
  }
}
