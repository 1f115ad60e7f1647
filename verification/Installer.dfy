/**
 * The installer's writes, one atomic step at a time. `trace` keeps every state
 * the disk went through, except those in which a file that is being put back has
 * been removed and not yet been written again; `gaps` keeps these. So "a crash
 * after any step" is any state in either.
 */
module Installer {
  import opened Collections
  import opened InstallPlan

  /** `byWrite`: a file operation raised, rather than a check of the installer's own. */
  datatype SetupResult = Done | Failed(byWrite: bool) | RollbackFailed

  datatype Trouble = NoTrouble | WriteRaised | CheckFailed

  /** Unfinished: committing raised, and the next recovery decides. */
  datatype InstallResult = Success | Unfinished | RolledBack | Stuck

  /** Which steps fail. `at`: the transition step that raises; `setupAt`: the
      configuration write that raises; `lands`: what raises has had its effect;
      `edits`: what someone else wrote to the managed files before a setup rollback
      looked at them. */
  datatype Faults = Faults(at: nat, setupAt: nat, lands: bool, verified: bool, edits: Files, brokerStops: bool)

  /** The disk while `path` is being put back: removed, and not yet written again. */
  datatype Gap = Gap(path: Path, disk: Disk)

  /** A journal that admits a partly switched runtime. */
  predicate InTransition(journal: Option<Phase>) { journal.Some? && journal != Some(Prepared) && journal != Some(Committed) }

  predicate InConfig(journal: Option<Phase>) { journal.Some? && ConfigPhase(journal.value) }

  ghost predicate Safe(states: seq<Disk>, plan: Plan) { forall i :: 0 <= i < |states| ==> Recoverable(states[i], plan) }

  /** In a gap the file is missing, and the state is recoverable exactly if it was the
      installer's part to remove that file. */
  ghost predicate TornExactly(gaps: seq<Gap>, plan: Plan) {
    forall i :: 0 <= i < |gaps| ==>
      && InConfig(gaps[i].disk.journal) && At(gaps[i].disk.files, gaps[i].path).Absent?
      && (if Candidate(plan, gaps[i].path).Absent? then Recoverable(gaps[i].disk, plan)
          else Lost(gaps[i].disk, plan, gaps[i].path))
  }

  lemma OneMore(states: seq<Disk>, d: Disk, plan: Plan)
    ensures Safe(states + [d], plan) <==> Safe(states, plan) && Recoverable(d, plan)
  {
    var more := states + [d];
    assert more[|states|] == d;
    if Safe(more, plan) {
      forall i | 0 <= i < |states| ensures Recoverable(states[i], plan) { assert more[i] == states[i]; }
    }
  }

  /** A crash that leaves any state of a safe trace, then recoveries: all the
      originals, or all the candidates if the journal said committed. */
  lemma CrashAnywhereThenRecovery(states: seq<Disk>, plan: Plan, crash: nat, brokers: seq<bool>)
    requires WellFormed(plan) && Safe(states, plan) && crash < |states| && brokers != []
    ensures (
      var d := states[crash];
      var after := Recoveries(d, plan, brokers);
      && (AllOld(after, plan) || AllNew(after, plan))
      && (d.journal.Some? && d.journal != Some(Committed) ==> AllOld(after, plan))
      && (d.journal == Some(Committed) ==> AllNew(after, plan)))
  {
    RecoveriesSettle(states[crash], plan, brokers);
  }

  /** A crash in a gap: recoveries get back to the originals exactly if the file
      was one the installer had removed. Otherwise they refuse for good, with the
      file missing. */
  lemma CrashInAGap(gaps: seq<Gap>, plan: Plan, crash: nat, brokers: seq<bool>)
    requires WellFormed(plan) && TornExactly(gaps, plan) && crash < |gaps| && brokers != []
    ensures (
      var d := gaps[crash].disk;
      var after := Recoveries(d, plan, brokers);
      && (AllOld(after, plan) <==> Candidate(plan, gaps[crash].path).Absent?)
      && (!AllOld(after, plan) ==>
            && !AllNew(after, plan) && after.journal == d.journal
            && At(after.files, gaps[crash].path).Absent?))
  {
    var d := gaps[crash].disk;
    if Candidate(plan, gaps[crash].path).Absent? {
      RecoveriesSettle(d, plan, brokers);
    } else {
      LostForGood(d, plan, gaps[crash].path, brokers);
    }
  }

  lemma {:induction false} RecoveriesSettle(d: Disk, plan: Plan, brokers: seq<bool>)
    requires WellFormed(plan) && Recoverable(d, plan)
    ensures Recoverable(Recoveries(d, plan, brokers), plan)
    ensures AllOld(d, plan) ==> AllOld(Recoveries(d, plan, brokers), plan)
    ensures AllNew(d, plan) && (d.journal.None? || d.journal == Some(Committed)) ==> AllNew(Recoveries(d, plan, brokers), plan)
    ensures brokers != [] && InTransition(d.journal) ==> AllOld(Recoveries(d, plan, brokers), plan)
    decreases |brokers|
  {
    if brokers != [] {
      RecoveryIsAllOrNothing(d, plan, brokers[0]);
      RecoveriesSettle(Recovered(d, plan, brokers[0]).0, plan, brokers[1..]);
    }
  }

  // -- how far the writes get ---------------------------------------------------------------------------

  /** How many entries reach the disk once setup writes. */
  function Landed(plan: Plan, faults: Faults): (n: nat)
    ensures n <= Reach(plan)
  {
    if faults.setupAt < Reach(plan) then faults.setupAt + (if faults.lands then 1 else 0) else Reach(plan)
  }

  /** Every entry is written. */
  predicate Completes(plan: Plan, faults: Faults) { Reach(plan) == |plan.entries| && faults.setupAt >= |plan.entries| }

  /** How many entries the whole install writes. */
  function Attempted(plan: Plan, faults: Faults): nat { if faults.at <= 4 then 0 else Landed(plan, faults) }

  /** Every run of a plan is free of misfits exactly if the entries up to the first
      clash are. */
  lemma EveryRunFitsExactly(plan: Plan)
    ensures (forall faults: Faults :: Fit(plan, Attempted(plan, faults))) <==> Fit(plan, Reach(plan))
  {
    var all := Faults(13, |plan.entries|, false, true, map[], true);
    assert Attempted(plan, all) == Reach(plan);
  }

  lemma WriteNext(files: Files, plan: Plan, k: nat)
    requires WellFormed(plan) && k < |plan.entries| && WrittenUpTo(files, plan, k)
    ensures plan.entries[k] in plan.entries && plan.entries[k].destination in plan.originals
    ensures WrittenUpTo(files[plan.entries[k].destination := plan.entries[k].content], plan, k + 1)
  {
    assert plan.entries[k] in plan.entries;
    assert plan.entries[..k + 1][..k] == plan.entries[..k];
  }

  /** A managed path that is a link is never written itself. */
  lemma LinkStays(files: Files, plan: Plan, k: nat, p: Path)
    requires WellFormed(plan) && WrittenUpTo(files, plan, k) && p in plan.originals && Original(plan, p).Link?
    ensures At(files, p) == Original(plan, p)
  {
    forall j | 0 <= j < k ensures plan.entries[..k][j].destination != p { assert plan.entries[j] in plan.entries; }
    LatestIsWritten(plan.entries[..k], p, Original(plan, p));
  }

  lemma OnlyDestinations(files: Files, plan: Plan, k: nat, written: seq<Path>)
    requires WellFormed(plan) && WrittenUpTo(files, plan, k) && |written| <= |plan.entries|
    requires forall i :: 0 <= i < |written| ==> written[i] == plan.entries[i].destination
    ensures forall p :: p in written ==> p in plan.originals
    ensures |written| == k ==> forall p :: p in plan.originals && p !in written ==> At(files, p) == Original(plan, p)
  {
    forall i | 0 <= i < |written| ensures written[i] in plan.originals { assert plan.entries[i] in plan.entries; }
    forall p | p in plan.originals && p !in written && |written| == k ensures At(files, p) == Original(plan, p) {
      LatestIsWritten(plan.entries[..k], p, Original(plan, p));
    }
  }

  /** The entry's checks pass exactly if it does not clash. */
  lemma ChecksPass(files: Files, plan: Plan, k: nat)
    requires WellFormed(plan) && k <= Reach(plan) && k < |plan.entries| && WrittenUpTo(files, plan, k)
    ensures Unchanged(files, plan, plan.entries[k]) <==> k < Reach(plan)
  {
    var e := plan.entries[k];
    assert e in plan.entries;
    ClashMeaning(plan, files, k);
    if e.path in plan.originals && e.path != e.destination { LinkStays(files, plan, k, e.path); }
  }

  predicate Unchanged(files: Files, plan: Plan, e: Entry) {
    && (e.path in plan.originals ==> At(files, e.path) == Original(plan, e.path))
    && At(files, e.destination) == Original(plan, e.destination)
  }

  predicate Exists(files: Files, plan: Plan, p: Path) { At(files, p).File? || (At(files, p).Link? && !plan.dangling) }

  /** With every entry written, removing the legacy file makes everything new. */
  lemma AllWritten(files: Files, plan: Plan)
    requires WellFormed(plan) && WrittenUpTo(files, plan, |plan.entries|)
    ensures FilesNew(if Exists(files, plan, plan.legacy) then files[plan.legacy := Absent] else files, plan)
  {
    assert plan.entries[..|plan.entries|] == plan.entries;
    if Original(plan, plan.legacy).Link? {
      LinkStays(files, plan, |plan.entries|, plan.legacy);
    } else {
      LatestIsWritten(plan.entries, plan.legacy, Original(plan, plan.legacy));
      assert !At(files, plan.legacy).Link?;
    }
  }

  /** Removing a file that is being put back tears the disk exactly if it had both
      an original and a candidate. */
  lemma GapIsTorn(d: Disk, plan: Plan, p: Path)
    requires WellFormed(plan) && Recoverable(d, plan) && InConfig(d.journal) && p in plan.originals
    requires At(d.files, p) == Candidate(plan, p) && !Original(plan, p).Absent?
    ensures (
      var gap := d.(files := d.files[p := Absent]);
      if Candidate(plan, p).Absent? then Recoverable(gap, plan) else Lost(gap, plan, p))
    ensures Recoverable(d.(files := d.files[p := Original(plan, p)]), plan)
  {
  }

  /** The states of putting p back: a gap if it has an original, and the end. */
  function GapsOf(d: Disk, plan: Plan, p: Path): seq<Gap> {
    if Original(plan, p).Absent? then [] else [Gap(p, d.(files := d.files[p := Absent]))]
  }

  lemma PuttingBack(d: Disk, plan: Plan, p: Path, states: seq<Disk>, gaps: seq<Gap>)
    requires WellFormed(plan) && Recoverable(d, plan) && InConfig(d.journal) && p in plan.originals
    requires At(d.files, p) == Candidate(plan, p)
    ensures (
      var after := d.(files := d.files[p := Original(plan, p)]);
      && Recoverable(after, plan)
      && (Safe(states, plan) ==> Safe(states + [after], plan))
      && (TornExactly(gaps, plan) ==> TornExactly(gaps + GapsOf(d, plan, p), plan)))
  {
    if Original(plan, p).Absent? {
      assert gaps + [] == gaps;
    } else {
      GapIsTorn(d, plan, p);
    }
    OneMore(states, d.(files := d.files[p := Original(plan, p)]), plan);
  }

  lemma LostOrRecoverable(d: Disk, plan: Plan)
    requires InConfig(d.journal) && PointersMixed(d, plan)
    ensures Recoverable(d, plan) <==> !exists p :: Lost(d, plan, p)
  {
    if !Recoverable(d, plan) {
      var p :| p in plan.originals && Foreign(d.files, plan, p);
      assert Lost(d, plan, p);
    }
  }

  lemma RestoredIsOld(files: Files, plan: Plan)
    requires WellFormed(plan) && RestoreFrom(files, plan, 0).1
    ensures FilesOld(RestoreFrom(files, plan, 0).0, plan)
  {
    RestoreMeaning(files, plan, 0);
    forall p | p in plan.originals ensures At(RestoreFrom(files, plan, 0).0, p) == Original(plan, p) {
      var i :| 0 <= i < |plan.manifest| && plan.manifest[i] == p;
    }
  }

  class Installer {
    var files: Files
    var pointer: Snapshot
    var entry: Snapshot
    var journal: Option<Phase>
    ghost var trace: seq<Disk>
    ghost var gaps: seq<Gap>

    function Now(): Disk
      reads this
    {
      Disk(files, pointer, entry, journal)
    }

    constructor (d: Disk)
      ensures Now() == d && trace == [d] && gaps == []
    {
      files, pointer, entry, journal := d.files, d.pointer, d.entry, d.journal;
      trace, gaps := [d], [];
    }

    method Write(p: Path, s: Snapshot)
      modifies this`files, this`trace
      ensures Now() == old(Now()).(files := old(files)[p := s])
      ensures trace == old(trace) + [Now()]
    {
      files := files[p := s];
      trace := trace + [Now()];
    }

    /** Put an original back over its candidate: remove what is there, then write it. */
    method PutBack(plan: Plan, p: Path)
      requires WellFormed(plan) && p in plan.originals && At(files, p) == Candidate(plan, p)
      modifies this`files, this`trace, this`gaps
      ensures files == old(files)[p := Original(plan, p)] && trace == old(trace) + [Now()]
      ensures gaps == old(gaps) + old(GapsOf(Now(), plan, p))
      ensures old(Recoverable(Now(), plan)) && InConfig(journal) ==>
        && Recoverable(Now(), plan)
        && (old(Safe(trace, plan)) ==> Safe(trace, plan)) && (old(TornExactly(gaps, plan)) ==> TornExactly(gaps, plan))
    {
      if Recoverable(Now(), plan) && InConfig(journal) { PuttingBack(Now(), plan, p, trace, gaps); }
      files := files[p := Absent];
      if !Original(plan, p).Absent? {
        gaps := gaps + [Gap(p, Now())];
        files := files[p := Original(plan, p)];
      }
      trace := trace + [Now()];
    }

    method Record(phase: Option<Phase>)
      modifies this`journal, this`trace
      ensures Now() == old(Now()).(journal := phase)
      ensures trace == old(trace) + [Now()]
    {
      journal := phase;
      trace := trace + [Now()];
    }

    method Point(s: Snapshot)
      modifies this`pointer, this`trace
      ensures Now() == old(Now()).(pointer := s)
      ensures trace == old(trace) + [Now()]
    {
      pointer := s;
      trace := trace + [Now()];
    }

    method Enter(s: Snapshot)
      modifies this`entry, this`trace
      ensures Now() == old(Now()).(entry := s)
      ensures trace == old(trace) + [Now()]
    {
      entry := s;
      trace := trace + [Now()];
    }

    /** Put every file of the backup back, stopping at the first foreign one. */
    method Restore(plan: Plan) returns (ok: bool)
      requires WellFormed(plan)
      modifies this`files, this`trace, this`gaps
      ensures (files, ok) == RestoreFrom(old(files), plan, 0) && old(trace) <= trace
      ensures old(Safe(trace, plan)) && old(Recoverable(Now(), plan)) && InConfig(journal) ==> Safe(trace, plan)
      ensures old(TornExactly(gaps, plan)) && old(Recoverable(Now(), plan)) && InConfig(journal) ==> TornExactly(gaps, plan)
    {
      for k := 0 to |plan.manifest|
        invariant RestoreFrom(old(files), plan, 0) == RestoreFrom(files, plan, k) && old(trace) <= trace
        invariant old(Recoverable(Now(), plan)) && InConfig(journal) ==>
          && Recoverable(Now(), plan)
          && (old(Safe(trace, plan)) ==> Safe(trace, plan)) && (old(TornExactly(gaps, plan)) ==> TornExactly(gaps, plan))
      {
        var p := plan.manifest[k];
        if At(files, p) != Original(plan, p) {
          if At(files, p) != Candidate(plan, p) { return false; }
          PutBack(plan, p);
        }
      }
      return true;
    }

    /** Write every configuration file, or put back exactly what was written. */
    method Setup(plan: Plan, faults: Faults) returns (r: SetupResult)
      requires WellFormed(plan)
      modifies this`files, this`trace, this`gaps
      ensures r.Done? ==> FilesNew(files, plan) && gaps == old(gaps)
      ensures old(FilesOld(files, plan)) ==> (r.Done? <==> Completes(plan, faults) && faults.verified)
      ensures r.Failed? && faults.edits == map[] && old(FilesOld(files, plan)) ==>
        FilesOld(files, plan) || (r.byWrite && faults.lands)
      ensures r.RollbackFailed? && faults.edits == map[] && old(FilesOld(files, plan)) ==> !FilesMixed(files, plan)
      ensures !r.Done? ==> forall p :: p in faults.edits && Foreign(faults.edits, plan, p) ==> At(files, p) == faults.edits[p]
      ensures faults.edits == map[] && old(FilesOld(files, plan)) ==>
        (FilesMixed(files, plan) <==> Completes(plan, faults) || Fit(plan, Landed(plan, faults)))
      ensures faults.edits == map[] && old(Safe(trace, plan)) && old(Recoverable(Now(), plan)) && old(FilesOld(files, plan))
              && InConfig(journal) ==>
        (Safe(trace, plan) <==> Fit(plan, Landed(plan, faults)))
      ensures faults.edits == map[] && old(Recoverable(Now(), plan)) && old(FilesOld(files, plan)) && InConfig(journal)
              && old(TornExactly(gaps, plan)) && (Completes(plan, faults) || Fit(plan, Landed(plan, faults))) ==>
        TornExactly(gaps, plan)
    {
      var trouble, written := WriteAll(plan, faults);
      if trouble.NoTrouble? { return Done; }
      assert files + map[] == files;
      files := files + faults.edits;
      var undone := Undo(plan, written);
      return if undone then Failed(trouble.WriteRaised?) else RollbackFailed;
    }

    method WriteAll(plan: Plan, faults: Faults) returns (trouble: Trouble, written: seq<Path>)
      requires WellFormed(plan)
      modifies this`files, this`trace
      ensures trouble.NoTrouble? ==> FilesNew(files, plan)
      ensures forall p :: p in written ==> p in plan.originals
      ensures old(FilesOld(files, plan)) ==> (trouble.NoTrouble? <==> Completes(plan, faults) && faults.verified)
      ensures old(FilesOld(files, plan)) ==>
        (FilesMixed(files, plan) <==> Completes(plan, faults) || Fit(plan, Landed(plan, faults)))
      ensures old(FilesOld(files, plan)) && !(trouble.WriteRaised? && faults.lands) ==>
        forall p :: p in plan.originals && p !in written ==> At(files, p) == Original(plan, p)
      ensures old(Safe(trace, plan)) && old(Recoverable(Now(), plan)) && old(FilesOld(files, plan)) && InConfig(journal) ==>
        (Safe(trace, plan) <==> Fit(plan, Landed(plan, faults)))
    {
      if exists p | p in plan.originals :: At(files, p) != Original(plan, p) { return CheckFailed, []; }
      trouble, written := WriteDestinations(plan, faults);
      OnlyDestinations(files, plan, Landed(plan, faults), written);
      MixedExactlyIfFit(plan, files, Landed(plan, faults));
      if !trouble.NoTrouble? { return; }
      var removed := RemoveLegacy(plan);
      written := written + removed;
      trouble := if faults.verified then NoTrouble else CheckFailed;
    }

    method RemoveLegacy(plan: Plan) returns (removed: seq<Path>)
      requires WellFormed(plan) && WrittenUpTo(files, plan, |plan.entries|) && Reach(plan) == |plan.entries|
      modifies this`files, this`trace
      ensures old(trace) <= trace
      ensures FilesNew(files, plan) && FilesMixed(files, plan)
      ensures (removed == [] && files == old(files)) || (removed == [plan.legacy] && files == old(files)[plan.legacy := Absent])
      ensures old(Recoverable(Now(), plan)) && old(Safe(trace, plan)) && InConfig(journal) ==> Safe(trace, plan)
    {
      AllWritten(files, plan);
      removed := [];
      if Exists(files, plan, plan.legacy) {
        OneMore(trace, Now().(files := files[plan.legacy := Absent]), plan);
        Write(plan.legacy, Absent);
        removed := [plan.legacy];
      }
    }

    /** The entries in order, each only over its original. */
    method WriteDestinations(plan: Plan, faults: Faults) returns (trouble: Trouble, written: seq<Path>)
      requires WellFormed(plan) && FilesOld(files, plan)
      modifies this`files, this`trace
      ensures WrittenUpTo(files, plan, Landed(plan, faults))
      ensures trouble.NoTrouble? <==> Completes(plan, faults)
      ensures trouble.WriteRaised? <==> faults.setupAt < Reach(plan)
      ensures |written| == (if trouble.WriteRaised? then faults.setupAt else Reach(plan))
      ensures forall i :: 0 <= i < |written| ==> written[i] == plan.entries[i].destination
      ensures InConfig(journal) && PointersMixed(Now(), plan) ==>
        (Safe(trace, plan) <==> old(Safe(trace, plan)) && Fit(plan, Landed(plan, faults)))
    {
      written := [];
      for k := 0 to |plan.entries|
        invariant k <= Reach(plan) && k <= faults.setupAt && WrittenUpTo(files, plan, k)
        invariant |written| == k
        invariant forall i :: 0 <= i < k ==> written[i] == plan.entries[i].destination
        invariant InConfig(journal) && PointersMixed(Now(), plan) ==>
          (Safe(trace, plan) <==> old(Safe(trace, plan)) && Fit(plan, k))
      {
        var e := plan.entries[k];
        ChecksPass(files, plan, k);
        if !Unchanged(files, plan, e) { return CheckFailed, written; }
        if k == faults.setupAt && !faults.lands { return WriteRaised, written; }
        WriteEntry(plan, k);
        if k == faults.setupAt { return WriteRaised, written; }
        written := written + [e.destination];
      }
      return NoTrouble, written;
    }

    method WriteEntry(plan: Plan, k: nat)
      requires WellFormed(plan) && k < Reach(plan) && WrittenUpTo(files, plan, k)
      modifies this`files, this`trace
      ensures files == old(files)[plan.entries[k].destination := plan.entries[k].content]
      ensures WrittenUpTo(files, plan, k + 1)
      ensures InConfig(journal) && PointersMixed(Now(), plan) ==>
        (Safe(trace, plan) <==> old(Safe(trace, plan)) && Fit(plan, k + 1))
    {
      var e := plan.entries[k];
      WriteNext(files, plan, k);
      MixedExactlyIfFit(plan, files[e.destination := e.content], k + 1);
      OneMore(trace, Now().(files := files[e.destination := e.content]), plan);
      Write(e.destination, e.content);
    }

    /** Put back what was written, newest first, stopping at a foreign file. */
    method Undo(plan: Plan, written: seq<Path>) returns (ok: bool)
      requires WellFormed(plan) && (forall p :: p in written ==> p in plan.originals)
      modifies this`files, this`trace, this`gaps
      ensures old(trace) <= trace
      ensures forall p :: (
        At(files, p) == old(At(files, p))
        || (old(At(files, p)) == Candidate(plan, p) && At(files, p) == Original(plan, p)))
      ensures ok ==> forall p :: p in written ==> At(files, p) == Original(plan, p)
      ensures !ok ==> exists p :: p in written && Foreign(old(files), plan, p)
      ensures FilesMixed(files, plan) <==> old(FilesMixed(files, plan))
      ensures old(Safe(trace, plan)) && old(Recoverable(Now(), plan)) && InConfig(journal) ==> Safe(trace, plan)
      ensures old(TornExactly(gaps, plan)) && old(Recoverable(Now(), plan)) && InConfig(journal) ==> TornExactly(gaps, plan)
    {
      for k := |written| downto 0
        invariant old(trace) <= trace
        invariant forall p :: (
          At(files, p) == old(At(files, p))
          || (old(At(files, p)) == Candidate(plan, p) && At(files, p) == Original(plan, p)))
        invariant forall i :: k <= i < |written| ==> At(files, written[i]) == Original(plan, written[i])
        invariant old(Recoverable(Now(), plan)) && InConfig(journal) ==>
          && Recoverable(Now(), plan)
          && (old(Safe(trace, plan)) ==> Safe(trace, plan)) && (old(TornExactly(gaps, plan)) ==> TornExactly(gaps, plan))
      {
        var p := written[k];
        if At(files, p) != Original(plan, p) {
          if At(files, p) != Candidate(plan, p) {
            assert p in written && Foreign(old(files), plan, p);
            return false;
          }
          PutBack(plan, p);
        }
      }
      return true;
    }

    /** Undo a transition: the configuration first, then both pointers. */
    method RollbackTransition(plan: Plan, runtime: bool, config: bool, service: bool, brokerOk: bool) returns (clean: bool)
      requires WellFormed(plan)
      modifies this`files, this`pointer, this`entry, this`trace, this`gaps
      ensures files == (if config then RestoreFrom(old(files), plan, 0).0 else old(files)) && old(trace) <= trace
      ensures pointer == if runtime then plan.oldPointer else old(pointer)
      ensures entry == if runtime then plan.oldEntry else old(entry)
      ensures clean <==> (config ==> RestoreFrom(old(files), plan, 0).1) && (brokerOk || !service)
      ensures old(Safe(trace, plan)) && old(Recoverable(Now(), plan)) && (runtime || config ==> InTransition(journal))
              && (config ==> InConfig(journal)) ==>
        Safe(trace, plan)
      ensures old(TornExactly(gaps, plan)) && old(Recoverable(Now(), plan)) && (config ==> InConfig(journal)) ==>
        TornExactly(gaps, plan)
    {
      clean := brokerOk || !service;
      if config {
        var ok := Restore(plan);
        clean := clean && ok;
        if old(Recoverable(Now(), plan)) && InConfig(journal) { RestoreMixed(old(files), plan); }
      }
      if runtime { RestorePointers(plan); }
    }

    /** Each pointer is removed and then set. */
    method RestorePointers(plan: Plan)
      modifies this`pointer, this`entry, this`trace
      ensures pointer == plan.oldPointer && entry == plan.oldEntry && old(trace) <= trace
      ensures old(Safe(trace, plan)) && old(Recoverable(Now(), plan)) && InTransition(journal) ==>
        Safe(trace, plan)
    {
      Point(Absent);
      Point(plan.oldPointer);
      Enter(Absent);
      Enter(plan.oldEntry);
    }

    /** One uninterrupted recovery; a crash inside it, but not in a gap, is again
        recoverable. */
    method Recover(plan: Plan, brokerOk: bool) returns (outcome: Outcome)
      requires WellFormed(plan)
      modifies this
      ensures (Now(), outcome) == Recovered(old(Now()), plan, brokerOk)
      ensures old(Safe(trace, plan)) && old(Recoverable(Now(), plan)) ==> Safe(trace, plan)
      ensures old(TornExactly(gaps, plan)) && old(Recoverable(Now(), plan)) ==> TornExactly(gaps, plan)
    {
      if journal.None? { return Clean; }
      if journal.value.Committed? {
        if pointer != plan.newPointer || entry != plan.newEntry { return Refused; }
        Record(None);
        return Clean;
      }
      if journal.value.Prepared? {
        Record(None);
        return Clean;
      }
      var phase := journal.value;
      var clean := RollbackTransition(plan, true, ConfigPhase(phase),
                                      phase.ServiceStarting? || phase.ServiceStarted? || phase.Committing?, brokerOk);
      if !clean { return Refused; }
      if old(Recoverable(Now(), plan)) && ConfigPhase(phase) { RestoreMixed(old(files), plan); }
      Record(None);
      return Clean;
    }

    method SwitchRuntime(plan: Plan, faults: Faults) returns (ok: bool, started: bool)
      requires WellFormed(plan)
      requires Safe(trace, plan) && journal.None? && AllOld(Now(), plan)
      modifies this`pointer, this`entry, this`journal, this`trace
      ensures Safe(trace, plan) && Recoverable(Now(), plan) && FilesOld(files, plan)
      ensures journal == Some(Prepared) || journal == Some(RuntimeSwitching) || journal == Some(RuntimeSwitched)
      ensures started <==> faults.at > 0
      ensures if started then journal != Some(Prepared) else AllOld(Now(), plan)
      ensures ok <==> faults.at > 3
      ensures ok ==> started && journal == Some(RuntimeSwitched) && pointer == plan.newPointer && entry == plan.newEntry
    {
      Record(Some(Prepared));
      if faults.at == 0 {
        if faults.lands { Record(Some(RuntimeSwitching)); }
        return false, false;
      }
      Record(Some(RuntimeSwitching));
      if faults.at == 1 { return false, true; }
      Point(plan.newPointer);
      if faults.at == 2 { return false, true; }
      Enter(plan.newEntry);
      if faults.at == 3 { return false, true; }
      Record(Some(RuntimeSwitched));
      return true, true;
    }

    /** `setup` is how the writing ended, if it was begun. */
    method WriteConfiguration(plan: Plan, faults: Faults) returns (ok: bool, setup: Option<SetupResult>)
      requires WellFormed(plan) && faults.at > 3
      requires Safe(trace, plan) && gaps == [] && journal == Some(RuntimeSwitched) && Recoverable(Now(), plan)
      requires pointer == plan.newPointer && entry == plan.newEntry
      modifies this`files, this`journal, this`trace, this`gaps
      ensures faults.edits == map[] ==> (Safe(trace, plan) <==> Fit(plan, Attempted(plan, faults)))
      ensures faults.edits == map[] ==>
        (Recoverable(Now(), plan) <==> faults.at == 4 || Completes(plan, faults) || Fit(plan, Landed(plan, faults)))
      ensures faults.edits == map[] && Recoverable(Now(), plan) ==> TornExactly(gaps, plan)
      ensures ok <==> faults.at > 5 && Completes(plan, faults) && faults.verified
      ensures setup.None? <==> faults.at == 4
      ensures setup.None? ==> FilesOld(files, plan) && (journal == Some(RuntimeSwitched) || journal == Some(ConfigWriting))
      ensures setup.Some? ==> journal == Some(if ok then ConfigWritten else ConfigWriting)
      ensures setup == Some(Done) <==> faults.at > 4 && Completes(plan, faults) && faults.verified
      ensures setup == Some(Done) ==> FilesNew(files, plan) && gaps == []
      ensures setup == Some(Failed(false)) && faults.edits == map[] ==> FilesOld(files, plan)
      ensures setup == Some(RollbackFailed) && faults.edits == map[] ==> !Recoverable(Now(), plan)
    {
      if faults.at == 4 {
        if faults.lands { Record(Some(ConfigWriting)); }
        return false, None;
      }
      Record(Some(ConfigWriting));
      var r := Setup(plan, faults);
      setup := Some(r);
      if !r.Done? || faults.at == 5 { return false, setup; }
      OneMore(trace, Now().(journal := Some(ConfigWritten)), plan);
      Record(Some(ConfigWritten));
      return true, setup;
    }

    method StartService(plan: Plan, faults: Faults) returns (ok: bool, started: bool)
      requires WellFormed(plan) && faults.at > 5 && journal == Some(ConfigWritten) && AllNew(Now(), plan)
      modifies this`journal, this`trace
      ensures old(trace) <= trace && (old(Safe(trace, plan)) ==> Safe(trace, plan))
      ensures InConfig(journal)
      ensures ok <==> faults.at > 11
      ensures started <==> faults.at > 6
      ensures ok ==> journal == Some(Committing)
    {
      if faults.at == 6 {
        if faults.lands { Record(Some(ServiceStarting)); }
        return false, false;
      }
      Record(Some(ServiceStarting));
      if faults.at == 7 || faults.at == 8 { return false, true; }
      Record(Some(ServiceStarted));
      if faults.at == 9 || faults.at == 10 { return false, true; }
      Record(Some(Committing));
      return faults.at != 11, true;
    }

    /** Everything up to the commit. The flags say what a rollback has to undo. */
    method Advance(plan: Plan, faults: Faults) returns (ok: bool, runtime: bool, config: bool, service: bool, broken: bool)
      requires WellFormed(plan) && journal.None? && AllOld(Now(), plan) && trace == [Now()] && gaps == []
      modifies this
      ensures faults.edits == map[] ==> (Safe(trace, plan) <==> Fit(plan, Attempted(plan, faults)))
      ensures faults.edits == map[] ==>
        (Recoverable(Now(), plan) <==> faults.at <= 4 || Completes(plan, faults) || Fit(plan, Landed(plan, faults)))
      ensures ok <==> faults.at > 11 && Completes(plan, faults) && faults.verified
      ensures ok ==> journal == Some(Committing) && AllNew(Now(), plan) && gaps == []
      ensures faults.edits == map[] && Recoverable(Now(), plan) ==> TornExactly(gaps, plan)
      ensures !ok && !runtime ==> !config && !service && !broken && AllOld(Now(), plan) && faults.at == 0
      ensures runtime ==> InTransition(journal)
      ensures service <==> faults.at > 6 && Completes(plan, faults) && faults.verified
      ensures service ==> config
      ensures config || broken ==> runtime && InConfig(journal)
      ensures faults.edits == map[] && broken ==>
        faults.at > 4 && !Completes(plan, faults) && !Fit(plan, Landed(plan, faults))
      ensures !ok && faults.edits == map[] && !config && !broken ==> FilesOld(files, plan) && Recoverable(Now(), plan)
      ensures faults.at > 4 ==> InConfig(journal) && PointersMixed(Now(), plan)
    {
      ok, runtime := SwitchRuntime(plan, faults);
      config, service, broken := false, false, false;
      if !ok { return; }
      var setup;
      ok, setup := WriteConfiguration(plan, faults);
      config := setup.Some? && (setup.value.Done? || (setup.value.Failed? && setup.value.byWrite));
      broken := setup == Some(RollbackFailed);
      if ok { ok, service := StartService(plan, faults); }
    }

    /** Undo what was begun and forget the journal, or keep it. */
    method GiveUp(plan: Plan, faults: Faults, runtime: bool, config: bool, service: bool, broken: bool) returns (r: InstallResult)
      requires WellFormed(plan) && (runtime ==> InTransition(journal)) && (service ==> config)
      requires config || broken ==> runtime && InConfig(journal)
      requires !runtime ==> AllOld(Now(), plan)
      modifies this
      ensures (r.RolledBack? || r.Stuck?) && (broken ==> r.Stuck?)
      ensures old(trace) <= trace
      ensures old(Recoverable(Now(), plan)) ==> (r.Stuck? <==> broken || (service && !faults.brokerStops))
      ensures old(Safe(trace, plan)) && old(Recoverable(Now(), plan)) && (config || old(FilesOld(files, plan)) || broken) ==>
        Safe(trace, plan)
      ensures old(TornExactly(gaps, plan)) && old(Recoverable(Now(), plan)) ==> TornExactly(gaps, plan)
      ensures r.RolledBack? && (config || old(FilesOld(files, plan))) ==> AllOld(Now(), plan) && journal.None?
      ensures r.Stuck? ==> InTransition(journal) && pointer == plan.oldPointer && entry == plan.oldEntry
      ensures forall p :: old(Lost(Now(), plan, p)) && (config || broken) ==> r.Stuck? && Lost(Now(), plan, p)
    {
      ghost var before := files;
      var clean := RollbackTransition(plan, runtime, config, service, faults.brokerStops);
      forall p ensures At(files, p) == At(before, p) || At(before, p) == Candidate(plan, p) {
        if config { RestoreChangesOnlyOwnFiles(before, plan, 0, p); }
      }
      if config && RestoreFrom(before, plan, 0).1 { RestoredIsOld(before, plan); }
      if config && old(Recoverable(Now(), plan)) { RestoreMixed(before, plan); }
      if !clean || broken { return Stuck; }
      OneMore(trace, Now().(journal := None), plan);
      Record(None);
      return RolledBack;
    }

    /** The whole staged install. Every state on the way outside a gap is one from
        which recovery gets back to all originals or (committed) all candidates,
        exactly if no misfit is written; a misfit that is not the legacy file's ends
        in a state no recovery gets out of. Only a rollback has gaps. */
    method InstallStaged(plan: Plan, faults: Faults) returns (r: InstallResult)
      requires WellFormed(plan) && journal.None? && AllOld(Now(), plan) && trace == [Now()] && gaps == []
      modifies this
      ensures faults.edits == map[] ==> (Safe(trace, plan) <==> Fit(plan, Attempted(plan, faults)))
      ensures r.Success? || r.Unfinished? <==> faults.at > 11 && Completes(plan, faults) && faults.verified
      ensures faults.edits == map[] && (faults.at <= 4 || Completes(plan, faults) || Fit(plan, Landed(plan, faults))) ==>
        TornExactly(gaps, plan)
      ensures r.Success? || r.Unfinished? ==> AllNew(Now(), plan) && gaps == []
      ensures r.Success? ==> journal.None?
      ensures r.Unfinished? ==> faults.at == 12 && (journal == Some(Committing) || journal == Some(Committed))
      ensures r.RolledBack? && faults.edits == map[] ==> AllOld(Now(), plan) && journal.None?
      ensures r.Stuck? ==> InTransition(journal) && pointer == plan.oldPointer && entry == plan.oldEntry
      ensures faults.edits == map[] ==> (r.Stuck? <==>
        || (6 < faults.at <= 11 && Completes(plan, faults) && faults.verified && !faults.brokerStops)
        || (faults.at > 4 && !Completes(plan, faults) && !Fit(plan, Landed(plan, faults))))
      ensures faults.edits == map[] && faults.at > 4 && !Completes(plan, faults) && !Fit(plan, Landed(plan, faults)) ==>
        r.Stuck? && exists p :: Lost(Now(), plan, p)
    {
      var ok, runtime, config, service, broken := Advance(plan, faults);
      if ok {
        if faults.at == 12 && !faults.lands { return Unfinished; }
        OneMore(trace, Now().(journal := Some(Committed)), plan);
        Record(Some(Committed));
        if faults.at == 12 { return Unfinished; }
        OneMore(trace, Now().(journal := None), plan);
        Record(None);
        return Success;
      }
      if faults.at > 4 { LostOrRecoverable(Now(), plan); }
      ghost var sound := Recoverable(Now(), plan);
      assert faults.edits == map[] && !sound ==> config || broken;
      r := GiveUp(plan, faults, runtime, config, service, broken);
      assert faults.edits == map[] && sound ==> !broken && (r.Stuck? <==> service && !faults.brokerStops);
    }
  }
}
