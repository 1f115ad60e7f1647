/**
 * The lifecycle evidence kept for the subagents of each Devin session. Hooks of
 * a subagent carry the root's session id and no actor, so this evidence alone
 * decides whether a Stop or a tool boundary can only be the root's.
 */
module SubagentStore {
  import opened Collections

  const ROOT_ONLY_TOOLS: set<string> := {"run_subagent", "read_subagent", "ask_user_question"}
  const NON_NESTING_PROFILES: set<string> := {"subagent_explore", "subagent_general"}

  predicate MayNest(profile: string) { profile !in NON_NESTING_PROFILES }

  /** Unfinished launches by agent id and by tool-use id, each with whether its
      profile may nest; `uncertain` once any outcome went unobserved. */
  datatype Evidence = Evidence(children: map<string, bool>, pending: map<string, bool>, uncertain: bool)

  const Blank := Evidence(map[], map[], false)

  /** What two patterns find in a tool's reported output: a start line anywhere,
      and a finish line at the beginning. */
  datatype Output = Output(started: Option<string>, finished: Option<string>)

  function Launch(e: Evidence, toolUse: Option<string>, profile: string): Evidence {
    match toolUse
    case None => e.(uncertain := true)
    case Some(u) => e.(pending := e.pending[u := MayNest(profile)])
  }

  function Launched(e: Evidence, toolUse: Option<string>, out: Output): Evidence {
    var observed := toolUse.Some? && toolUse.value in e.pending;
    var nests := if observed then e.pending[toolUse.value] else true;
    var pending := if observed then e.pending - {toolUse.value} else e.pending;
    var children := if out.started.Some? then e.children[out.started.value := nests] else e.children;
    Evidence(children, pending, e.uncertain || !observed || (out.started.None? && out.finished.None?))
  }

  function ReadAgent(e: Evidence, agent: Option<string>, out: Output): Evidence {
    if agent.Some? && out.finished == agent then e.(children := e.children - {agent.value}) else e
  }

  datatype Custody = Free | RootTools | Hold

  predicate AnyNests(m: map<string, bool>) { exists k :: k in m && m[k] }

  function CustodyOf(e: Evidence, marked: bool): Custody {
    if marked then Hold
    else if e == Blank then Free
    else if e.uncertain || AnyNests(e.children) || AnyNests(e.pending) then Hold
    else RootTools
  }

  datatype Restriction = Unrestricted | RootToolsOnly | NextPromptCustomSubagent | NextPromptUnobservedLaunch

  function RestrictionOf(e: Evidence, marked: bool): Restriction {
    if marked then NextPromptUnobservedLaunch
    else if e == Blank then Unrestricted
    else if e.uncertain then NextPromptUnobservedLaunch
    else if AnyNests(e.children) || AnyNests(e.pending) then NextPromptCustomSubagent
    else RootToolsOnly
  }

  /** The restriction shown to a peer says exactly what the delivery guard enforces. */
  lemma RestrictionMatchesCustody(e: Evidence, marked: bool)
    ensures CustodyOf(e, marked).Free? <==> RestrictionOf(e, marked).Unrestricted?
    ensures CustodyOf(e, marked).RootTools? <==> RestrictionOf(e, marked).RootToolsOnly?
    ensures CustodyOf(e, marked).Hold? <==>
      RestrictionOf(e, marked).NextPromptCustomSubagent? || RestrictionOf(e, marked).NextPromptUnobservedLaunch?
  {
  }

  // -- the stored file: one entry per session ----------------------------------------------------

  type Entries = map<string, Evidence>

  function EntryOf(entries: Entries, key: string): Evidence { if key in entries then entries[key] else Blank }

  /** Write one session's entry and forget sessions with no live route. */
  function Replaced(entries: Entries, key: string, e: Evidence, live: Option<set<string>>): Entries {
    var written := if e == Blank then entries - {key} else entries[key := e];
    match live
    case None => written
    case Some(keys) => map k | k in written && (k == key || k in keys) :: written[k]
  }

  /** One session's update is exact for it and invisible to every live session. */
  lemma ReplacedIsLocal(entries: Entries, key: string, e: Evidence, live: Option<set<string>>, other: string)
    requires other != key && (live.None? || other in live.value)
    ensures EntryOf(Replaced(entries, key, e, live), key) == e
    ensures EntryOf(Replaced(entries, key, e, live), other) == EntryOf(entries, other)
  {
  }

  class DevinSubagentStore {
    var entries: Entries
    var marks: set<string>

    constructor ()
      ensures entries == map[] && marks == {}
    {
      entries, marks := map[], {};
    }

    method RecordLaunch(key: string, toolUse: Option<string>, profile: string, live: Option<set<string>>)
      modifies this`entries
      ensures entries == Replaced(old(entries), key, Launch(EntryOf(old(entries), key), toolUse, profile), live)
    {
      var entry := EntryOf(entries, key);
      if toolUse.None? {
        entry := entry.(uncertain := true);
      } else {
        entry := entry.(pending := entry.pending[toolUse.value := profile !in NON_NESTING_PROFILES]);
      }
      entries := Replaced(entries, key, entry, live);
    }

    method RecordLaunched(key: string, toolUse: Option<string>, out: Output, live: Option<set<string>>)
      modifies this`entries
      ensures entries == Replaced(old(entries), key, Launched(EntryOf(old(entries), key), toolUse, out), live)
    {
      var entry := EntryOf(entries, key);
      var observed, nests := false, true;
      if toolUse.Some? && toolUse.value in entry.pending {
        observed, nests := true, entry.pending[toolUse.value];
        entry := entry.(pending := entry.pending - {toolUse.value});
      }
      if out.started.Some? {
        entry := entry.(children := entry.children[out.started.value := nests]);
      }
      if !observed || (out.started.None? && out.finished.None?) {
        entry := entry.(uncertain := true);
      }
      entries := Replaced(entries, key, entry, live);
    }

    method RecordRead(key: string, agent: Option<string>, out: Output, live: Option<set<string>>)
      modifies this`entries
      ensures key in old(entries) && agent.Some? && out.finished == agent ==>
        entries == Replaced(old(entries), key, ReadAgent(old(entries)[key], agent, out), live)
      ensures key !in old(entries) || agent.None? || out.finished != agent ==> entries == old(entries)
    {
      if agent.None? || out.finished != agent || key !in entries { return; }
      var entry := entries[key];
      entries := Replaced(entries, key, entry.(children := entry.children - {agent.value}), live);
    }

    method MarkUncertain(key: string)
      modifies this`marks
      ensures marks == old(marks) + {key}
    {
      marks := marks + {key};
    }

    method Clear(key: string)
      modifies this
      ensures marks == old(marks) - {key} && entries == old(entries) - {key}
    {
      marks := marks - {key};
      entries := entries - {key};
    }

    method CustodyFor(key: string) returns (c: Custody)
      ensures c == CustodyOf(EntryOf(entries, key), key in marks)
    {
      if key in marks { return Hold; }
      if key !in entries { return Free; }
      var entry := entries[key];
      if entry == Blank { return Free; }
      if entry.uncertain || AnyNests(entry.children) || AnyNests(entry.pending) { return Hold; }
      return RootTools;
    }
  }
}
