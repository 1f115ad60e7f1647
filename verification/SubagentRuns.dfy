/**
 * Every run of one Devin session: the root and any nesting of subagents launch,
 * return, read and finish, and fire Stop and tool hooks in any interleaving. A
 * hook resolves the route, records what it learned, and then decides. Other
 * sessions update the same file: each reads which sessions have a route, and
 * later writes its own entry and drops those of all sessions it did not see.
 *
 * The engine's documented limits are the environment: root-only tools are
 * withheld from built-in profiles, ids are not reused, and a finish report is
 * made only about a subagent that finished. What a report quotes is not limited.
 *
 * Four events can release a body to a subagent: clearing the evidence while a hook
 * is open, a returned text whose start line names another running child, another
 * session's update with stale keys, and a launch that leaves no trace. Each is
 * stated exactly, with what follows from it.
 */
module SubagentRuns {
  import opened Collections
  import opened SubagentStore

  const ROOT: nat := 0

  datatype Phase = Requested | Running | Finished

  datatype Actor = Actor(toolUse: Option<string>, nests: bool, agent: string, phase: Phase, returned: bool)

  /** What a hook is about. `child` is the launch whose call returned. */
  datatype Hook =
    | StopHook(active: bool)
    | ToolHook(tool: string)
    | ReturnHook(child: nat, toolUse: Option<string>, out: Output)
    | ReadHook(agent: Option<string>, out: Output)

  datatype Open = Open(hook: Hook, recorded: bool)

  /** Where a change of the evidence went: into the file, or else into the fallback
      mark, or else nowhere. */
  datatype Note = Written | Marked | Nowhere

  /** The route of a session: not yet there, there, or gone. */
  datatype Route = Unregistered | Registered | Removed

  /** `wiped`: the evidence was lost after the route was gone. `updates`: other
      sessions' updates in flight, and whether their keys include this session. */
  datatype Session = Session(
    evidence: Evidence,
    marked: bool,
    route: Route,
    wiped: bool,
    actors: map<nat, Actor>,
    hooks: map<nat, Open>,
    released: seq<nat>,
    updates: map<nat, bool>)

  const Start := Session(Blank, false, Unregistered, false, map[], map[], [], map[])

  datatype Step =
    | Registers
    | Launches(who: nat, child: nat, toolUse: Option<string>, profile: string, agent: string, note: Note)
    | Begins(child: nat)
    | Finishes(child: nat)
    | Fires(who: nat, hook: Hook)
    | Records(who: nat, note: Note)
    | Decides(who: nat)
    | RouteRemoved
    | Clears
    | OtherReads(update: nat)
    | OtherWrites(update: nat)

  function ToolOf(h: Hook): string {
    match h
    case StopHook(_) => ""
    case ToolHook(t) => t
    case ReturnHook(_, _, _) => "run_subagent"
    case ReadHook(_, _) => "read_subagent"
  }

  predicate Alive(s: Session, a: nat) { a == ROOT || (a in s.actors && s.actors[a].phase.Running?) }

  predicate Permitted(s: Session, a: nat, tool: string)
    requires Alive(s, a)
  {
    a == ROOT || tool !in ROOT_ONLY_TOOLS || s.actors[a].nests
  }

  /** A call that returns anything but its own start line is a call whose subagent
      finished. The text may quote any other line. */
  predicate TruthfulReturn(s: Session, child: nat, out: Output)
    requires child in s.actors
  {
    && (out.started.Some? && out.started.value != s.actors[child].agent ==> s.actors[child].phase.Finished?)
    && (out.started.None? && out.finished.Some? ==> s.actors[child].phase.Finished?)
  }

  predicate TruthfulRead(s: Session, agent: Option<string>, out: Output) {
    agent.Some? && out.finished == agent ==>
      forall a :: a in s.actors && s.actors[a].agent == agent.value ==> s.actors[a].phase.Finished?
  }

  predicate Truthful(s: Session, h: Hook) {
    match h
    case ReturnHook(child, _, out) => child in s.actors && TruthfulReturn(s, child, out)
    case ReadHook(agent, out) => TruthfulRead(s, agent, out)
    case _ => true
  }

  /** The hook carries the report that `agent` finished. */
  predicate Retires(h: Hook, agent: string) { h.ReadHook? && h.agent == Some(agent) && h.out.finished == Some(agent) }

  predicate Enabled(s: Session, t: Step) {
    match t
    case Registers => s.route.Unregistered?
    case Launches(who, child, u, profile, agent, _) =>
      && !s.route.Removed? && Alive(s, who) && who !in s.hooks && Permitted(s, who, "run_subagent")
      && child != ROOT && child !in s.actors
      && (forall a :: a in s.actors ==> s.actors[a].agent != agent && (u.Some? ==> s.actors[a].toolUse != u))
      && (forall b :: b in s.hooks ==> !Retires(s.hooks[b].hook, agent))
    case Begins(c) => c in s.actors && s.actors[c].phase.Requested?
    case Finishes(c) => c in s.actors && s.actors[c].phase.Running? && c !in s.hooks
    case Fires(who, h) =>
      && s.route.Registered? && Alive(s, who) && who !in s.hooks && Permitted(s, who, ToolOf(h)) && Truthful(s, h)
      && (h.ReturnHook? ==>
            && !s.actors[h.child].returned
            && (h.toolUse.None? || h.toolUse == s.actors[h.child].toolUse)
            && (forall b :: b in s.hooks && s.hooks[b].hook.ReturnHook? ==> s.hooks[b].hook.child != h.child))
    case Records(who, _) =>
      who in s.hooks && !s.hooks[who].recorded && (s.hooks[who].hook.ReturnHook? ==> s.hooks[who].hook.child in s.actors)
    case Decides(who) => who in s.hooks && s.hooks[who].recorded
    case RouteRemoved => s.route.Registered?
    case Clears => s.route.Removed?
    case OtherReads(k) => k !in s.updates
    case OtherWrites(k) => k in s.updates
  }

  function Recorded(e: Evidence, h: Hook): Evidence {
    match h
    case ReturnHook(_, u, out) => Launched(e, u, out)
    case ReadHook(agent, out) => ReadAgent(e, agent, out)
    case _ => e
  }

  /** The guard of the Stop and of the tool hook. */
  predicate Releases(h: Hook, custody: Custody) {
    if h.StopHook? then !h.active && custody.Free?
    else custody.Free? || (custody.RootTools? && ToolOf(h) in ROOT_ONLY_TOOLS)
  }

  function Apply(s: Session, t: Step): Session
    requires Enabled(s, t)
  {
    match t
    case Registers => s.(route := Registered)
    case Launches(_, child, u, profile, agent, note) =>
      s.(evidence := if s.route.Registered? && note.Written? then Launch(s.evidence, u, profile) else s.evidence,
         marked := s.marked || (s.route.Registered? && note.Marked?),
         actors := s.actors[child := Actor(u, MayNest(profile), agent, Requested, false)])
    case Begins(c) => s.(actors := s.actors[c := s.actors[c].(phase := Running)])
    case Finishes(c) => s.(actors := s.actors[c := s.actors[c].(phase := Finished)])
    case Fires(who, h) => s.(hooks := s.hooks[who := Open(h, false)])
    case Records(who, note) =>
      var h := s.hooks[who].hook;
      s.(evidence := if note.Written? then Recorded(s.evidence, h) else s.evidence,
         marked := s.marked || note.Marked?,
         actors := if h.ReturnHook? then s.actors[h.child := s.actors[h.child].(returned := true)] else s.actors,
         hooks := s.hooks[who := Open(h, true)])
    case Decides(who) =>
      var free := Releases(s.hooks[who].hook, CustodyOf(s.evidence, s.marked));
      s.(hooks := s.hooks - {who}, released := if free then s.released + [who] else s.released)
    case RouteRemoved => s.(route := Removed)
    case Clears => s.(evidence := Blank, marked := false, wiped := true)
    case OtherReads(k) => s.(updates := s.updates[k := s.route.Registered?])
    case OtherWrites(k) =>
      s.(evidence := if s.updates[k] then s.evidence else Blank,
         wiped := s.wiped || (Wipes(s, t) && s.route.Removed?),
         updates := s.updates - {k})
  }

  /** Another session's update drops evidence that nothing else stands for. */
  predicate Wipes(s: Session, t: Step) {
    t.OtherWrites? && t.update in s.updates && !s.updates[t.update] && !s.marked && s.evidence != Blank
  }

  function Execute(s: Session, steps: seq<Step>): Option<Session>
    decreases |steps|
  {
    if steps == [] then Some(s)
    else if !Enabled(s, steps[0]) then None
    else Execute(Apply(s, steps[0]), steps[1..])
  }

  // -- what every step keeps -----------------------------------------------------------------------

  predicate Awaited(s: Session, actor: Actor) {
    actor.toolUse.Some? && actor.toolUse.value in s.evidence.pending
  }

  predicate Held(s: Session) { s.marked || s.evidence.uncertain }

  /** An unfinished subagent has some entry in the evidence. */
  predicate Present(s: Session, actor: Actor) {
    Held(s) || Awaited(s, actor) || actor.agent in s.evidence.children
  }

  /** An unfinished subagent that may nest has an entry that says so. */
  predicate Raised(s: Session, actor: Actor) {
    actor.nests ==>
      Held(s) || Awaited(s, actor) || (actor.agent in s.evidence.children && s.evidence.children[actor.agent])
  }

  ghost predicate AllPresent(s: Session) {
    forall a :: a in s.actors && !s.actors[a].phase.Finished? ==> Present(s, s.actors[a])
  }

  ghost predicate AllRaised(s: Session) {
    forall a :: a in s.actors && !s.actors[a].phase.Finished? ==> Raised(s, s.actors[a])
  }

  ghost predicate PendingIsTrue(s: Session) {
    Held(s) || (forall a :: a in s.actors && Awaited(s, s.actors[a]) ==>
                   s.evidence.pending[s.actors[a].toolUse.value] == s.actors[a].nests)
  }

  ghost predicate Fresh(s: Session) {
    && ROOT !in s.actors
    && (forall a, b :: a in s.actors && b in s.actors && a != b ==>
          s.actors[a].agent != s.actors[b].agent && (s.actors[a].toolUse.Some? ==> s.actors[a].toolUse != s.actors[b].toolUse))
  }

  predicate HookOk(s: Session, a: nat)
    requires a in s.hooks
  {
    && Alive(s, a) && Permitted(s, a, ToolOf(s.hooks[a].hook)) && Truthful(s, s.hooks[a].hook)
    && (s.hooks[a].hook.ReturnHook? ==>
          var h := s.hooks[a].hook;
          s.actors[h.child].returned == s.hooks[a].recorded && (h.toolUse.None? || h.toolUse == s.actors[h.child].toolUse))
  }

  ghost predicate HooksOk(s: Session) {
    && (forall a :: a in s.hooks ==> HookOk(s, a))
    && (forall a, b :: a in s.hooks && b in s.hooks && a != b
                       && s.hooks[a].hook.ReturnHook? && s.hooks[b].hook.ReturnHook? ==>
          s.hooks[a].hook.child != s.hooks[b].hook.child)
  }

  /** A hook that empty evidence does not let through: a Stop that is already active,
      or a return, whose missing launch is itself a reason to hold. */
  ghost predicate Contained(s: Session, o: Open) {
    (o.hook.StopHook? && o.hook.active) || (o.hook.ReturnHook? && (!o.recorded || Held(s)))
  }

  /** Before the evidence is lost every subagent is present; afterwards no new hook
      can open, and the evidence holds back every subagent's open one. */
  ghost predicate Witnessed(s: Session) {
    if s.wiped then
      s.route.Removed? && s.evidence.pending == map[] && (forall a :: a in s.hooks && a != ROOT ==> Contained(s, s.hooks[a]))
    else AllPresent(s) && PendingIsTrue(s)
  }

  /** Whoever else was released to could have used the root-only tools. */
  ghost predicate ReleasedWell(s: Session) {
    forall i :: 0 <= i < |s.released| ==> s.released[i] == ROOT || (s.released[i] in s.actors && s.actors[s.released[i]].nests)
  }

  ghost predicate Inv(s: Session) { Fresh(s) && HooksOk(s) && Witnessed(s) && ReleasedWell(s) }

  /** With nothing lowered. */
  ghost predicate Strict(s: Session) {
    && (s.wiped || AllRaised(s))
    && (forall i :: 0 <= i < |s.released| ==> s.released[i] == ROOT)
  }

  // -- the four events -----------------------------------------------------------------------------

  /** Recording this return overwrites the entry of another unfinished child that may
      nest with the returning launch's own built-in profile, and nothing else holds. */
  ghost predicate Lowers(s: Session, t: Step) {
    && t.Records? && t.note.Written? && t.who in s.hooks && s.hooks[t.who].hook.ReturnHook? && !Held(s)
    && (var h := s.hooks[t.who].hook;
        && h.toolUse.Some? && h.toolUse.value in s.evidence.pending && !s.evidence.pending[h.toolUse.value]
        && h.out.started.Some?
        && (exists a :: a in s.actors && a != h.child && Lowered(s, a, h.out.started.value)))
  }

  ghost predicate Lowered(s: Session, a: nat, agent: string)
    requires a in s.actors
  {
    var actor := s.actors[a];
    actor.agent == agent && actor.nests && !actor.phase.Finished? && !Awaited(s, actor)
  }

  /** The evidence is cleared under a subagent's open hook that it was holding back. */
  ghost predicate ClearsOpen(s: Session, t: Step) {
    t.Clears? && exists a :: a in s.hooks && a != ROOT && Exposed(s.hooks[a])
  }

  /** Another session's stale update drops the evidence while some subagent is
      unfinished, or, with the route gone, under a subagent's open hook. */
  ghost predicate Prunes(s: Session, t: Step) {
    && Wipes(s, t)
    && (if s.route.Removed? then exists a :: a in s.hooks && a != ROOT && Exposed(s.hooks[a])
        else exists a :: a in s.actors && !s.actors[a].phase.Finished?)
  }

  /** A launch leaves no trace: it was made before the session had a route, or its
      record failed together with the fallback. After the evidence is lost, the same
      of a subagent's return. */
  ghost predicate Unseen(s: Session, t: Step) {
    !Held(s) && (
      || (t.Launches? && (s.route.Unregistered? || t.note.Nowhere?))
      || (t.Records? && s.wiped && t.note.Nowhere? && t.who in s.hooks && t.who != ROOT && s.hooks[t.who].hook.ReturnHook?))
  }

  /** After one of these a subagent may be running that the evidence does not show. */
  ghost predicate Blinds(s: Session, t: Step) { ClearsOpen(s, t) || Prunes(s, t) || Unseen(s, t) }

  predicate Exposed(o: Open) { !(o.hook.StopHook? && o.hook.active) && !(o.hook.ReturnHook? && !o.recorded) }

  ghost predicate Sometime(s: Session, steps: seq<Step>, event: (Session, Step) -> bool)
    decreases |steps|
  {
    steps != [] && Enabled(s, steps[0]) && (event(s, steps[0]) || Sometime(Apply(s, steps[0]), steps[1..], event))
  }

  // -- steps -----------------------------------------------------------------------------------------

  lemma StepLaunches(s: Session, t: Step)
    requires Inv(s) && t.Launches? && Enabled(s, t) && !Unseen(s, t)
    ensures Inv(Apply(s, t)) && (Strict(s) ==> Strict(Apply(s, t)))
  {
    var after := Apply(s, t);
    forall a | a in after.actors && !after.actors[a].phase.Finished?
      ensures Present(after, after.actors[a]) && (Strict(s) ==> Raised(after, after.actors[a]))
    {
      if a != t.child { assert Present(s, s.actors[a]) && (Strict(s) ==> Raised(s, s.actors[a])); }
    }
    forall a | a in s.hooks ensures HookOk(after, a) { assert HookOk(s, a); }
  }

  /** Steps that leave the evidence alone: entries are about the same launches. */
  lemma SameEvidence(s: Session, after: Session)
    requires Witnessed(s) && !s.wiped && after.evidence == s.evidence && after.marked == s.marked
    requires after.wiped == s.wiped
    requires forall a :: a in after.actors ==> (
      a in s.actors && after.actors[a] == s.actors[a].(phase := after.actors[a].phase)
      && (s.actors[a].phase.Finished? ==> after.actors[a].phase.Finished?))
    ensures Witnessed(after) && (AllRaised(s) ==> AllRaised(after))
  {
    forall a | a in after.actors && !after.actors[a].phase.Finished?
      ensures Present(after, after.actors[a]) && (AllRaised(s) ==> Raised(after, after.actors[a]))
    {
      assert Present(s, s.actors[a]) && (AllRaised(s) ==> Raised(s, s.actors[a]));
    }
    if !Held(s) {
      forall a | a in after.actors && Awaited(after, after.actors[a])
        ensures after.evidence.pending[after.actors[a].toolUse.value] == after.actors[a].nests
      {
        assert Awaited(s, s.actors[a]);
      }
    }
  }

  lemma StepPhase(s: Session, t: Step)
    requires Inv(s) && (t.Begins? || t.Finishes?) && Enabled(s, t)
    ensures Inv(Apply(s, t)) && (Strict(s) ==> Strict(Apply(s, t)))
  {
    var after := Apply(s, t);
    if !s.wiped { SameEvidence(s, after); }
    PhaseKeepsHooks(s, t);
  }

  lemma PhaseKeepsHooks(s: Session, t: Step)
    requires HooksOk(s) && (t.Begins? || t.Finishes?) && Enabled(s, t)
    ensures HooksOk(Apply(s, t))
  {
    var after := Apply(s, t);
    forall a | a in s.hooks ensures HookOk(after, a) { assert HookOk(s, a); }
  }

  lemma StepFires(s: Session, t: Step)
    requires Inv(s) && t.Fires? && Enabled(s, t)
    ensures Inv(Apply(s, t)) && (Strict(s) ==> Strict(Apply(s, t)))
  {
    var after := Apply(s, t);
    SameEvidence(s, after);
    forall a | a in after.hooks ensures HookOk(after, a) {
      if a != t.who { assert HookOk(s, a); }
    }
  }

  /** Recording what a call returned keeps every other subagent's entry, and lowers one
      only in the case `Lowers` names. */
  lemma ReturnKeepsEvidence(s: Session, who: nat)
    requires Inv(s) && !s.wiped && Enabled(s, Records(who, Written)) && s.hooks[who].hook.ReturnHook?
    ensures AllPresent(Apply(s, Records(who, Written))) && PendingIsTrue(Apply(s, Records(who, Written)))
    ensures AllRaised(s) && !Lowers(s, Records(who, Written)) ==> AllRaised(Apply(s, Records(who, Written)))
  {
    var after := Apply(s, Records(who, Written));
    var h := s.hooks[who].hook;
    assert HookOk(s, who);
    forall a | a in after.actors && !after.actors[a].phase.Finished?
      ensures Present(after, after.actors[a])
      ensures AllRaised(s) && !Lowers(s, Records(who, Written)) ==> Raised(after, after.actors[a])
    {
      assert Present(s, s.actors[a]) && (AllRaised(s) ==> Raised(s, s.actors[a]));
      if a != h.child {
        assert after.actors[a] == s.actors[a] && s.actors[a].agent != s.actors[h.child].agent;
        assert Awaited(s, s.actors[a]) && !after.marked ==> Awaited(after, after.actors[a]);
        if h.out.started.Some? {
          assert Lowers(s, Records(who, Written)) || !Lowered(s, a, h.out.started.value) || Held(s)
              || h.toolUse.None? || h.toolUse.value !in s.evidence.pending || s.evidence.pending[h.toolUse.value];
        }
      }
    }
  }

  lemma ReadKeepsEvidence(s: Session, who: nat)
    requires Inv(s) && !s.wiped && Enabled(s, Records(who, Written)) && !s.hooks[who].hook.ReturnHook?
    ensures AllPresent(Apply(s, Records(who, Written))) && PendingIsTrue(Apply(s, Records(who, Written)))
    ensures AllRaised(s) ==> AllRaised(Apply(s, Records(who, Written)))
  {
    var after := Apply(s, Records(who, Written));
    forall a | a in after.actors && !after.actors[a].phase.Finished?
      ensures Present(after, after.actors[a]) && (AllRaised(s) ==> Raised(after, after.actors[a]))
    {
      assert Present(s, s.actors[a]) && (AllRaised(s) ==> Raised(s, s.actors[a]));
    }
  }

  /** A record that could not be written leaves the mark, which holds everything, or
      leaves the evidence as it was. */
  lemma UnwrittenKeeps(s: Session, t: Step)
    requires Inv(s) && !s.wiped && t.Records? && !t.note.Written? && Enabled(s, t)
    ensures AllPresent(Apply(s, t)) && PendingIsTrue(Apply(s, t)) && (AllRaised(s) ==> AllRaised(Apply(s, t)))
  {
    var after := Apply(s, t);
    forall a | a in after.actors && !after.actors[a].phase.Finished?
      ensures Present(after, after.actors[a]) && (AllRaised(s) ==> Raised(after, after.actors[a]))
    {
      assert Present(s, s.actors[a]) && (AllRaised(s) ==> Raised(s, s.actors[a]));
    }
    forall a | a in after.actors && Awaited(after, after.actors[a]) && !Held(after)
      ensures after.evidence.pending[after.actors[a].toolUse.value] == after.actors[a].nests
    {
      assert Awaited(s, s.actors[a]);
    }
  }

  lemma RecordsWitness(s: Session, t: Step)
    requires Inv(s) && t.Records? && Enabled(s, t) && !Unseen(s, t)
    ensures Witnessed(Apply(s, t))
    ensures !s.wiped && AllRaised(s) && !Lowers(s, t) ==> AllRaised(Apply(s, t))
  {
    if s.wiped {
      ClearedRecords(s, t);
    } else if !t.note.Written? {
      UnwrittenKeeps(s, t);
    } else if s.hooks[t.who].hook.ReturnHook? {
      ReturnKeepsEvidence(s, t.who);
    } else {
      ReadKeepsEvidence(s, t.who);
    }
  }

  lemma StepRecords(s: Session, t: Step)
    requires Inv(s) && t.Records? && Enabled(s, t) && !Unseen(s, t)
    ensures Inv(Apply(s, t)) && (Strict(s) && !Lowers(s, t) ==> Strict(Apply(s, t)))
  {
    assert HookOk(s, t.who);
    RecordsWitness(s, t);
    RecordsKeepHooks(s, t);
  }

  lemma ClearedRecords(s: Session, t: Step)
    requires Inv(s) && s.wiped && t.Records? && Enabled(s, t) && !Unseen(s, t)
    ensures Witnessed(Apply(s, t))
  {
    var after := Apply(s, t);
    forall a | a in after.hooks && a != ROOT ensures Contained(after, after.hooks[a]) {
      assert Contained(s, s.hooks[a]);
    }
  }

  lemma RecordsKeepHooks(s: Session, t: Step)
    requires HooksOk(s) && t.Records? && Enabled(s, t)
    ensures HooksOk(Apply(s, t))
  {
    var after := Apply(s, t);
    assert HookOk(s, t.who);
    forall a | a in after.hooks ensures HookOk(after, a) {
      assert HookOk(s, a);
    }
  }

  /** The heart: whoever passes the guard is the root; with a lowered entry, it may
      also be a child that nests, at a root-only tool. */
  lemma OnlyRootPassesTheGuard(s: Session, who: nat)
    requires Inv(s) && who in s.hooks && s.hooks[who].recorded
    requires Releases(s.hooks[who].hook, CustodyOf(s.evidence, s.marked))
    ensures who == ROOT || (who in s.actors && s.actors[who].nests && ToolOf(s.hooks[who].hook) in ROOT_ONLY_TOOLS)
    ensures Strict(s) ==> who == ROOT
  {
    assert HookOk(s, who);
    if who != ROOT && !s.wiped {
      var actor := s.actors[who];
      assert Present(s, actor);
      assert Strict(s) ==> Raised(s, actor);
      assert Raised(s, actor) && actor.nests ==> Held(s) || AnyNests(s.evidence.children) || AnyNests(s.evidence.pending) by {
        if !Held(s) && Awaited(s, actor) { assert s.evidence.pending[actor.toolUse.value] == actor.nests; }
      }
    }
  }

  lemma StepDecides(s: Session, t: Step)
    requires Inv(s) && t.Decides? && Enabled(s, t)
    ensures Inv(Apply(s, t)) && (Strict(s) ==> Strict(Apply(s, t)))
  {
    var after := Apply(s, t);
    if !s.wiped { SameEvidence(s, after); }
    if Releases(s.hooks[t.who].hook, CustodyOf(s.evidence, s.marked)) { OnlyRootPassesTheGuard(s, t.who); }
    forall a | a in after.hooks ensures HookOk(after, a) { assert HookOk(s, a); }
  }

  lemma StepEnds(s: Session, t: Step)
    requires Inv(s) && (t.RouteRemoved? || t.Clears?) && Enabled(s, t) && !ClearsOpen(s, t)
    ensures Inv(Apply(s, t)) && (Strict(s) ==> Strict(Apply(s, t)))
  {
    var after := Apply(s, t);
    if !after.wiped { SameEvidence(s, after); }
    if t.Clears? {
      forall a | a in s.hooks && a != ROOT ensures Contained(after, s.hooks[a]) { assert !Exposed(s.hooks[a]); }
    }
    forall a | a in after.hooks ensures HookOk(after, a) { assert HookOk(s, a); }
  }

  /** Another session's update either changes nothing here, or drops evidence that
      no longer matters. */
  lemma StepOthers(s: Session, t: Step)
    requires Inv(s) && (t.Registers? || t.OtherReads? || t.OtherWrites?) && Enabled(s, t) && !Prunes(s, t)
    ensures Inv(Apply(s, t)) && (Strict(s) ==> Strict(Apply(s, t)))
  {
    var after := Apply(s, t);
    forall a | a in after.hooks ensures HookOk(after, a) { assert HookOk(s, a); }
    if Wipes(s, t) {
      if s.route.Removed? {
        forall a | a in s.hooks && a != ROOT ensures Contained(after, s.hooks[a]) { assert !Exposed(s.hooks[a]); }
      }
    } else if s.wiped {
      forall a | a in after.hooks && a != ROOT ensures Contained(after, after.hooks[a]) { assert Contained(s, s.hooks[a]); }
    } else {
      SameHold(s, after);
    }
  }

  /** Losing evidence behind the mark, or none at all. */
  lemma SameHold(s: Session, after: Session)
    requires Witnessed(s) && !s.wiped && !after.wiped && after.marked == s.marked && after.actors == s.actors
    requires after.evidence == s.evidence || (after.evidence == Blank && s.marked)
    ensures Witnessed(after) && (AllRaised(s) ==> AllRaised(after))
  {
    if s.marked {
      forall a | a in after.actors ensures Present(after, after.actors[a]) && Raised(after, after.actors[a]) {}
    } else {
      SameEvidence(s, after);
    }
  }

  lemma StepKeeps(s: Session, t: Step)
    requires Inv(s) && Enabled(s, t) && !Blinds(s, t)
    ensures Inv(Apply(s, t)) && (Strict(s) && !Lowers(s, t) ==> Strict(Apply(s, t)))
  {
    match t
    case Launches(_, _, _, _, _, _) => StepLaunches(s, t);
    case Begins(_) => StepPhase(s, t);
    case Finishes(_) => StepPhase(s, t);
    case Fires(_, _) => StepFires(s, t);
    case Records(_, _) => StepRecords(s, t);
    case Decides(_) => StepDecides(s, t);
    case RouteRemoved => StepEnds(s, t);
    case Clears => StepEnds(s, t);
    case _ => StepOthers(s, t);
  }

  lemma {:induction false} RunKeeps(s: Session, steps: seq<Step>, end: Session)
    requires Inv(s) && Execute(s, steps) == Some(end) && !Sometime(s, steps, Blinds)
    ensures Inv(end)
    ensures Strict(s) && !Sometime(s, steps, Lowers) ==> Strict(end)
    decreases |steps|
  {
    if steps != [] {
      StepKeeps(s, steps[0]);
      RunKeeps(Apply(s, steps[0]), steps[1..], end);
    }
  }

  // -- the results -----------------------------------------------------------------------------------

  /** In every run whatsoever, a queued body is released at a Stop or tool boundary to
      anyone but the root conversation only if the evidence was cleared under an open
      hook, another session's stale update dropped it, a launch left no trace, or a
      return lowered the entry of an unfinished child that may nest. */
  lemma ReleasedOnlyToTheRoot(steps: seq<Step>, end: Session, i: nat)
    requires Execute(Start, steps) == Some(end) && i < |end.released| && end.released[i] != ROOT
    ensures Sometime(Start, steps, Blinds) || Sometime(Start, steps, Lowers)
  {
    if !Sometime(Start, steps, Blinds) { RunKeeps(Start, steps, end); }
  }

  /** Unless the evidence is blind to it, only a subagent that may nest is ever mistaken for the root. */
  lemma BuiltInChildrenAreNeverReleasedTo(steps: seq<Step>, end: Session, i: nat)
    requires Execute(Start, steps) == Some(end) && !Sometime(Start, steps, Blinds)
    requires i < |end.released| && end.released[i] in end.actors && !end.actors[end.released[i]].nests
    ensures end.released[i] == ROOT
  {
    RunKeeps(Start, steps, end);
  }

  /** While the route stands and nothing was lowered, no custody restriction means no
      subagent is unfinished, and a root-tools restriction means none of them may nest. */
  lemma CustodyTellsWhoRuns(steps: seq<Step>, end: Session, a: nat)
    requires Execute(Start, steps) == Some(end) && end.route.Registered? && !Sometime(Start, steps, Blinds)
    requires a in end.actors && !end.actors[a].phase.Finished?
    ensures !CustodyOf(end.evidence, end.marked).Free?
    ensures !Sometime(Start, steps, Lowers) && CustodyOf(end.evidence, end.marked).RootTools? ==> !end.actors[a].nests
  {
    RunKeeps(Start, steps, end);
    var actor := end.actors[a];
    assert Present(end, actor);
    if !Sometime(Start, steps, Lowers) {
      assert Raised(end, actor);
      if !Held(end) && Awaited(end, actor) { assert end.evidence.pending[actor.toolUse.value] == actor.nests; }
    }
  }
}
