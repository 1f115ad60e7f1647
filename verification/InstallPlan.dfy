/**
 * What a staged install changes on disk: the managed configuration files, the
 * runtime pointer and the public entrypoint, under a journal that records how
 * far the transition got. A crash can leave any state in between.
 */
module InstallPlan {
  import opened Collections

  type Path = string

  datatype Snapshot = Absent | File(payload: string, mode: nat) | Link(target: string)

  type Files = map<Path, Snapshot>

  datatype Phase =
    | Prepared | RuntimeSwitching | RuntimeSwitched | ConfigWriting | ConfigWritten
    | ServiceStarting | ServiceStarted | Committing | Committed

  datatype Disk = Disk(files: Files, pointer: Snapshot, entry: Snapshot, journal: Option<Phase>)

  /** A managed path, the file it resolves to, and what is written there. */
  datatype Entry = Entry(path: Path, destination: Path, content: Snapshot)

  /** `originals` were snapshotted and backed up in `manifest` order: every
      destination, every managed path that is a link, and the legacy file, which is
      removed at the end. `dangling`: if that is a link, it leads nowhere. Two managed
      paths may resolve to one destination. */
  datatype Plan = Plan(
    originals: Files,
    manifest: seq<Path>,
    entries: seq<Entry>,
    legacy: Path,
    dangling: bool,
    oldPointer: Snapshot,
    newPointer: Snapshot,
    oldEntry: Snapshot,
    newEntry: Snapshot)

  predicate NoRepeats(paths: seq<Path>) { forall i, j :: 0 <= i < j < |paths| ==> paths[i] != paths[j] }

  ghost predicate WellFormed(plan: Plan) {
    && NoRepeats(plan.manifest)
    && (forall p :: p in plan.manifest <==> p in plan.originals)
    && plan.legacy in plan.originals
    && (forall e :: e in plan.entries ==>
          && e.content.File? && e.destination in plan.originals && !Original(plan, e.destination).Link?
          && (e.path in plan.originals ==> e.path == e.destination || Original(plan, e.path).Link?))
  }

  function At(files: Files, p: Path): Snapshot { if p in files then files[p] else Absent }

  function Original(plan: Plan, p: Path): Snapshot { At(plan.originals, p) }

  /** What writing the entries in order leaves at p. */
  function Latest(entries: seq<Entry>, p: Path, before: Snapshot): Snapshot {
    if entries == [] then before
    else
      var last := entries[|entries| - 1];
      if last.destination == p then last.content else Latest(entries[..|entries| - 1], p, before)
  }

  /** What the journal expects each path to become: a later entry for a destination
      replaces an earlier one. */
  function Candidate(plan: Plan, p: Path): Snapshot {
    if p == plan.legacy then Absent else Latest(plan.entries, p, Original(plan, p))
  }

  /** What a finished install leaves: a dangling legacy link is not seen. */
  function Final(plan: Plan, p: Path): Snapshot {
    if p == plan.legacy && plan.dangling && Original(plan, p).Link? then Original(plan, p) else Candidate(plan, p)
  }

  // -- the states a crash may leave behind -------------------------------------------------------

  ghost predicate FilesOld(files: Files, plan: Plan) { forall p :: p in plan.originals ==> At(files, p) == Original(plan, p) }

  ghost predicate FilesNew(files: Files, plan: Plan) { forall p :: p in plan.originals ==> At(files, p) == Final(plan, p) }

  ghost predicate FilesMixed(files: Files, plan: Plan) {
    forall p :: p in plan.originals ==> At(files, p) == Original(plan, p) || At(files, p) == Candidate(plan, p)
  }

  /** A pointer that is being put back is missing for a moment. */
  predicate PointersMixed(d: Disk, plan: Plan) {
    && (d.pointer == plan.oldPointer || d.pointer == plan.newPointer || d.pointer.Absent?)
    && (d.entry == plan.oldEntry || d.entry == plan.newEntry || d.entry.Absent?)
  }

  ghost predicate AllOld(d: Disk, plan: Plan) {
    FilesOld(d.files, plan) && d.pointer == plan.oldPointer && d.entry == plan.oldEntry
  }

  ghost predicate AllNew(d: Disk, plan: Plan) {
    FilesNew(d.files, plan) && d.pointer == plan.newPointer && d.entry == plan.newEntry
  }

  predicate ConfigPhase(phase: Phase) {
    phase.ConfigWriting? || phase.ConfigWritten? || phase.ServiceStarting? || phase.ServiceStarted? || phase.Committing?
  }

  /** How much the journal must admit for each state the disk can be in. */
  ghost predicate Recoverable(d: Disk, plan: Plan) {
    match d.journal
    case None => AllOld(d, plan) || AllNew(d, plan)
    case Some(Prepared) => AllOld(d, plan)
    case Some(Committed) => AllNew(d, plan)
    case Some(phase) =>
      PointersMixed(d, plan) && (if ConfigPhase(phase) then FilesMixed(d.files, plan) else FilesOld(d.files, plan))
  }

  // -- restoring the configuration ---------------------------------------------------------------

  /** Restore from position k of the manifest: what already is the original is left,
      the installer's own candidate is replaced, anything else stops the loop. */
  function RestoreFrom(files: Files, plan: Plan, k: nat): (Files, bool)
    requires k <= |plan.manifest|
    decreases |plan.manifest| - k
  {
    if k == |plan.manifest| then (files, true)
    else
      var p := plan.manifest[k];
      if At(files, p) == Original(plan, p) then RestoreFrom(files, plan, k + 1)
      else if At(files, p) != Candidate(plan, p) then (files, false)
      else RestoreFrom(files[p := Original(plan, p)], plan, k + 1)
  }

  ghost predicate Foreign(files: Files, plan: Plan, p: Path) {
    At(files, p) != Original(plan, p) && At(files, p) != Candidate(plan, p)
  }

  /** A file is either left as it was, or it was the installer's own and became
      the original. */
  lemma {:induction false} RestoreChangesOnlyOwnFiles(files: Files, plan: Plan, k: nat, p: Path)
    requires k <= |plan.manifest| && NoRepeats(plan.manifest)
    ensures (
      var after := RestoreFrom(files, plan, k).0;
      || At(after, p) == At(files, p)
      || (At(files, p) == Candidate(plan, p) && At(after, p) == Original(plan, p)))
    ensures (forall i :: k <= i < |plan.manifest| ==> plan.manifest[i] != p) ==>
      At(RestoreFrom(files, plan, k).0, p) == At(files, p)
    decreases |plan.manifest| - k
  {
    if k < |plan.manifest| {
      var q := plan.manifest[k];
      if !Foreign(files, plan, q) {
        var next := if At(files, q) == Original(plan, q) then files else files[q := Original(plan, q)];
        RestoreChangesOnlyOwnFiles(next, plan, k + 1, p);
      }
    }
  }

  /** Restoring succeeds exactly when it meets no foreign file; then everything
      from k on is the original. */
  lemma {:induction false} RestoreMeaning(files: Files, plan: Plan, k: nat)
    requires k <= |plan.manifest| && NoRepeats(plan.manifest)
    ensures RestoreFrom(files, plan, k).1 <==>
      forall i :: k <= i < |plan.manifest| ==> !Foreign(files, plan, plan.manifest[i])
    ensures RestoreFrom(files, plan, k).1 ==>
      forall i :: k <= i < |plan.manifest| ==>
        At(RestoreFrom(files, plan, k).0, plan.manifest[i]) == Original(plan, plan.manifest[i])
    decreases |plan.manifest| - k
  {
    if k < |plan.manifest| && !Foreign(files, plan, plan.manifest[k]) {
      var q := plan.manifest[k];
      var next := if At(files, q) == Original(plan, q) then files else files[q := Original(plan, q)];
      assert RestoreFrom(files, plan, k) == RestoreFrom(next, plan, k + 1);
      assert forall i :: k < i < |plan.manifest| ==> At(next, plan.manifest[i]) == At(files, plan.manifest[i]);
      RestoreMeaning(next, plan, k + 1);
      RestoreChangesOnlyOwnFiles(next, plan, k + 1, q);
    }
  }

  lemma RestoreMixed(files: Files, plan: Plan)
    requires WellFormed(plan) && FilesMixed(files, plan)
    ensures RestoreFrom(files, plan, 0).1 && FilesOld(RestoreFrom(files, plan, 0).0, plan)
  {
    RestoreMeaning(files, plan, 0);
    forall p | p in plan.originals ensures At(RestoreFrom(files, plan, 0).0, p) == Original(plan, p) {
      var i :| 0 <= i < |plan.manifest| && plan.manifest[i] == p;
    }
  }

  // -- recovery ------------------------------------------------------------------------------------

  datatype Outcome = Clean | Refused

  function Restored(d: Disk, plan: Plan, config: bool): (Disk, bool) {
    var (files, ok) := if config then RestoreFrom(d.files, plan, 0) else (d.files, true);
    (Disk(files, plan.oldPointer, plan.oldEntry, d.journal), ok)
  }

  /** What one uninterrupted recovery does. `brokerOk`: the service parts worked. */
  function Recovered(d: Disk, plan: Plan, brokerOk: bool): (Disk, Outcome) {
    match d.journal
    case None => (d, Clean)
    case Some(Prepared) => (d.(journal := None), Clean)
    case Some(Committed) =>
      if d.pointer == plan.newPointer && d.entry == plan.newEntry then (d.(journal := None), Clean) else (d, Refused)
    case Some(phase) =>
      var (back, ok) := Restored(d, plan, ConfigPhase(phase));
      var service := phase.ServiceStarting? || phase.ServiceStarted? || phase.Committing?;
      if ok && (brokerOk || !service) then (back.(journal := None), Clean) else (back, Refused)
  }

  /** From every state a crash can leave, recovery restores all the originals,
      unless the journal says committed (or the install had already ended), in which
      case everything is the candidate. It never leaves a mixture. */
  lemma RecoveryIsAllOrNothing(d: Disk, plan: Plan, brokerOk: bool)
    requires WellFormed(plan) && Recoverable(d, plan)
    ensures d.journal == Some(Committed) ==> AllNew(Recovered(d, plan, brokerOk).0, plan)
    ensures d.journal.Some? && d.journal != Some(Committed) ==> AllOld(Recovered(d, plan, brokerOk).0, plan)
    ensures AllOld(Recovered(d, plan, brokerOk).0, plan) || AllNew(Recovered(d, plan, brokerOk).0, plan)
    ensures brokerOk ==> Recovered(d, plan, brokerOk).1.Clean? && Recovered(d, plan, brokerOk).0.journal.None?
  {
    if d.journal.Some? && d.journal.value != Prepared && d.journal.value != Committed {
      if ConfigPhase(d.journal.value) { RestoreMixed(d.files, plan); }
    }
  }

  /** Whatever else happened to the files, recovery changes a file only if it is the
      installer's own candidate, and then back to the original. */
  lemma RecoveryNeverOverwritesForeignFiles(d: Disk, plan: Plan, brokerOk: bool, p: Path)
    requires WellFormed(plan)
    ensures At(Recovered(d, plan, brokerOk).0.files, p) == At(d.files, p)
         || (At(d.files, p) == Candidate(plan, p) && At(Recovered(d, plan, brokerOk).0.files, p) == Original(plan, p))
  {
    RestoreChangesOnlyOwnFiles(d.files, plan, 0, p);
  }

  /** Running recovery again changes nothing more. */
  lemma RecoveryIsIdempotent(d: Disk, plan: Plan)
    requires WellFormed(plan) && Recoverable(d, plan)
    ensures Recovered(Recovered(d, plan, true).0, plan, true) == Recovered(d, plan, true)
  {
    RecoveryIsAllOrNothing(d, plan, true);
  }

  // -- states no recovery gets out of ------------------------------------------------------------------

  /** One recovery after another. */
  function Recoveries(d: Disk, plan: Plan, brokers: seq<bool>): Disk
    decreases |brokers|
  {
    if brokers == [] then d else Recoveries(Recovered(d, plan, brokers[0]).0, plan, brokers[1..])
  }

  /** The configuration may be half written and holds a file that is neither the
      original nor the candidate. */
  ghost predicate Lost(d: Disk, plan: Plan, p: Path) {
    d.journal.Some? && ConfigPhase(d.journal.value) && p in plan.originals && Foreign(d.files, plan, p)
  }

  /** Once the configuration may be half written, recovery succeeds exactly from the
      states in which every file is its original or its candidate. */
  lemma RecoveryNeedsEveryFile(d: Disk, plan: Plan)
    requires WellFormed(plan) && d.journal.Some? && ConfigPhase(d.journal.value)
    ensures Recovered(d, plan, true).1.Clean? <==> FilesMixed(d.files, plan)
  {
    RestoreMeaning(d.files, plan, 0);
    if FilesMixed(d.files, plan) {
      RestoreMixed(d.files, plan);
    } else {
      var p :| p in plan.originals && Foreign(d.files, plan, p);
      var i :| 0 <= i < |plan.manifest| && plan.manifest[i] == p;
    }
  }

  /** From a lost state every recovery refuses, however often it is tried, and the
      foreign file stays: neither all old nor all new. */
  lemma {:induction false} LostForGood(d: Disk, plan: Plan, p: Path, brokers: seq<bool>)
    requires WellFormed(plan) && Lost(d, plan, p)
    ensures (
      var after := Recoveries(d, plan, brokers);
      && Lost(after, plan, p) && after.journal == d.journal && At(after.files, p) == At(d.files, p)
      && !Recoverable(after, plan) && !AllOld(after, plan) && !AllNew(after, plan)
      && (forall broker: bool {:trigger Recovered(after, plan, broker)} :: Recovered(after, plan, broker).1.Refused?))
    decreases |brokers|
  {
    RestoreMeaning(d.files, plan, 0);
    RestoreChangesOnlyOwnFiles(d.files, plan, 0, p);
    var i :| 0 <= i < |plan.manifest| && plan.manifest[i] == p;
    assert !RestoreFrom(d.files, plan, 0).1;
    if brokers != [] { LostForGood(Recovered(d, plan, brokers[0]).0, plan, p, brokers[1..]); }
  }

  // -- managed paths that share a destination --------------------------------------------------------------

  /** Entry k finds its destination changed by an earlier entry. */
  predicate Clashes(plan: Plan, k: nat)
    requires k < |plan.entries|
  {
    exists j :: 0 <= j < k && plan.entries[j].destination == plan.entries[k].destination && Changes(plan, plan.entries[j])
  }

  predicate Changes(plan: Plan, e: Entry) { e.content != Original(plan, e.destination) }

  /** The entry changes its destination to something other than what the journal
      expects there. */
  predicate Misfit(plan: Plan, e: Entry) { Changes(plan, e) && e.content != Candidate(plan, e.destination) }

  predicate Fit(plan: Plan, k: nat) { forall i :: 0 <= i < k && i < |plan.entries| ==> !Misfit(plan, plan.entries[i]) }

  /** How many entries setup can write before one of them clashes. */
  function Reach(plan: Plan): (r: nat)
    ensures r <= |plan.entries| && (r < |plan.entries| ==> Clashes(plan, r))
    ensures forall k :: 0 <= k < r ==> !Clashes(plan, k)
  {
    ReachFrom(plan, 0)
  }

  function ReachFrom(plan: Plan, k: nat): (r: nat)
    requires k <= |plan.entries| && (forall i :: 0 <= i < k ==> !Clashes(plan, i))
    ensures r <= |plan.entries| && (r < |plan.entries| ==> Clashes(plan, r))
    ensures forall i :: 0 <= i < r ==> !Clashes(plan, i)
    decreases |plan.entries| - k
  {
    if k == |plan.entries| || Clashes(plan, k) then k else ReachFrom(plan, k + 1)
  }

  /** The first k entries are written, everything else is as it was. */
  ghost predicate WrittenUpTo(files: Files, plan: Plan, k: nat) {
    && k <= |plan.entries|
    && (forall p :: p in plan.originals ==> At(files, p) == Latest(plan.entries[..k], p, Original(plan, p)))
  }

  lemma {:induction false} LatestIsWritten(entries: seq<Entry>, p: Path, before: Snapshot)
    ensures Latest(entries, p, before) == before
         || exists j :: 0 <= j < |entries| && entries[j].destination == p && entries[j].content == Latest(entries, p, before)
    ensures (forall j :: 0 <= j < |entries| ==> entries[j].destination != p) ==> Latest(entries, p, before) == before
  {
    if entries != [] && entries[|entries| - 1].destination != p {
      var init := entries[..|entries| - 1];
      LatestIsWritten(init, p, before);
      assert forall j :: 0 <= j < |init| ==> init[j] == entries[j];
    }
  }

  /** Up to the first clash, an entry that changed its destination is what stands there. */
  lemma {:induction false} ChangeStands(plan: Plan, k: nat, i: nat)
    requires i < k <= Reach(plan) && Changes(plan, plan.entries[i])
    ensures Latest(plan.entries[..k], plan.entries[i].destination, Original(plan, plan.entries[i].destination))
         == plan.entries[i].content
    decreases k
  {
    assert plan.entries[..k][..k - 1] == plan.entries[..k - 1];
    if i < k - 1 {
      ChangeStands(plan, k - 1, i);
      assert !Clashes(plan, k - 1);
    }
  }

  /** An entry is written exactly when it does not clash: its destination still is
      the original. */
  lemma ClashMeaning(plan: Plan, files: Files, k: nat)
    requires WellFormed(plan) && k <= Reach(plan) && k < |plan.entries| && WrittenUpTo(files, plan, k)
    ensures At(files, plan.entries[k].destination) == Original(plan, plan.entries[k].destination) <==> !Clashes(plan, k)
  {
    var d := plan.entries[k].destination;
    assert plan.entries[k] in plan.entries;
    LatestIsWritten(plan.entries[..k], d, Original(plan, d));
    if Clashes(plan, k) {
      var j :| 0 <= j < k && plan.entries[j].destination == d && Changes(plan, plan.entries[j]);
      ChangeStands(plan, k, j);
    }
  }

  /** After k entries every file is its original or its candidate exactly if none
      of them was a misfit. */
  lemma MixedExactlyIfFit(plan: Plan, files: Files, k: nat)
    requires WellFormed(plan) && k <= Reach(plan) && WrittenUpTo(files, plan, k)
    ensures FilesMixed(files, plan) <==> Fit(plan, k)
  {
    if Fit(plan, k) {
      forall p | p in plan.originals ensures !Foreign(files, plan, p) {
        LatestIsWritten(plan.entries[..k], p, Original(plan, p));
      }
    } else {
      var i :| 0 <= i < k && Misfit(plan, plan.entries[i]);
      assert plan.entries[i] in plan.entries;
      ChangeStands(plan, k, i);
    }
  }

  /** Setup gets through all entries exactly if, at each destination, no entry
      before the last one changes it. */
  lemma CompletesExactly(plan: Plan)
    ensures Reach(plan) == |plan.entries| <==>
      forall j, k :: 0 <= j < k < |plan.entries| && plan.entries[j].destination == plan.entries[k].destination ==>
        !Changes(plan, plan.entries[j])
  {
    if Reach(plan) == |plan.entries| {
      forall j, k | 0 <= j < k < |plan.entries| && plan.entries[j].destination == plan.entries[k].destination
        ensures !Changes(plan, plan.entries[j])
      {
        assert !Clashes(plan, k);
      }
    }
  }

  /** Managed paths with destinations of their own never clash and never misfit. */
  lemma SeparateDestinationsFit(plan: Plan)
    requires forall j, k :: 0 <= j < k < |plan.entries| ==> plan.entries[j].destination != plan.entries[k].destination
    requires forall j :: 0 <= j < |plan.entries| ==> plan.entries[j].destination != plan.legacy
    ensures Reach(plan) == |plan.entries| && Fit(plan, |plan.entries|)
  {
    forall i | 0 <= i < |plan.entries| ensures !Misfit(plan, plan.entries[i]) {
      if Changes(plan, plan.entries[i]) {
        assert plan.entries[..|plan.entries|] == plan.entries;
        ChangeStands(plan, |plan.entries|, i);
      }
    }
  }

  /** Of the plans that complete, those are safe to crash in at any write in which no
      managed path that resolves to the legacy file changes it. */
  lemma CompletePlansFit(plan: Plan)
    requires WellFormed(plan) && Reach(plan) == |plan.entries|
    ensures Fit(plan, |plan.entries|) <==>
      forall i :: 0 <= i < |plan.entries| && plan.entries[i].destination == plan.legacy ==> !Changes(plan, plan.entries[i])
  {
    assert plan.entries[..|plan.entries|] == plan.entries;
    forall i | 0 <= i < |plan.entries| && Changes(plan, plan.entries[i])
      ensures Misfit(plan, plan.entries[i]) <==> plan.entries[i].destination == plan.legacy
    {
      assert plan.entries[i] in plan.entries;
      ChangeStands(plan, |plan.entries|, i);
    }
  }

  // -- a shared destination ------------------------------------------------------------------------------------

  const Shared := File("{}", 384)

  /** Two settings files are links to one file; each gets its own content. */
  const TwoLinks := Plan(
    map["settings" := Link("shared"), "hooks" := Link("shared"), "shared" := Shared, "peers" := Absent],
    ["settings", "shared", "hooks", "peers"],
    [Entry("settings", "shared", File("settings", 384)), Entry("hooks", "shared", File("hooks", 384))],
    "peers", false, Absent, Link("release"), Absent, Link("bin"))

  lemma TwoLinksClash()
    ensures WellFormed(TwoLinks) && Reach(TwoLinks) == 1
  {
    var plan := TwoLinks;
    assert Changes(plan, plan.entries[0]) && Clashes(plan, 1) && !Clashes(plan, 0);
    assert plan.manifest[0] == "settings" && plan.manifest[1] == "shared" && plan.manifest[2] == "hooks"
        && plan.manifest[3] == "peers";
  }

  /** The first write goes through, the second is refused, and whatever is tried
      then, nothing gets the first one out again. */
  lemma SharedDestinationIsLost(brokers: seq<bool>)
    ensures WellFormed(TwoLinks) && Reach(TwoLinks) == 1
    ensures (
      var files := TwoLinks.originals["shared" := TwoLinks.entries[0].content];
      var d := Disk(files, TwoLinks.newPointer, TwoLinks.newEntry, Some(ConfigWriting));
      && WrittenUpTo(files, TwoLinks, 1)
      && (forall broker: bool {:trigger Recovered(Recoveries(d, TwoLinks, brokers), TwoLinks, broker)} ::
            Recovered(Recoveries(d, TwoLinks, brokers), TwoLinks, broker).1.Refused?)
      && At(Recoveries(d, TwoLinks, brokers).files, "shared") == TwoLinks.entries[0].content)
  {
    TwoLinksClash();
    var plan := TwoLinks;
    var first, second := plan.entries[0], plan.entries[1];
    assert plan.entries[..1] == [first] && [first][..0] == [];
    var d := Disk(plan.originals["shared" := first.content], plan.newPointer, plan.newEntry, Some(ConfigWriting));
    assert Candidate(plan, "shared") == second.content && first.content.payload != second.content.payload by {
      assert "settings"[0] != "hooks"[0];
    }
    LostForGood(d, plan, "shared", brokers);
  }
}
