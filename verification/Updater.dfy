// The commands of scripts/updater.py. Every durable write goes through Do, so whatever point a command
// is interrupted at, the disk is one the writes logged so far lead to.

module Updater {
  import opened Options
  import opened Transactions

  // What happens when a flat installation is handed over to the launcher.
  datatype Handover = Done | Locked | Overlapping

  // The answers of everything a command asks of the world outside.
  datatype World = World(
    newId: Id,
    enoughSpace: bool,
    archiveObtained: bool,
    archiveUnpacks: bool,
    packageVerifies: bool,
    blocked: bool,
    flat: bool,
    handover: Handover,
    inUse: set<Dir>,
    answers: Dir -> bool)

  // Unfinished updates of another digest are given up before anything else.
  ghost predicate IsSuperseded(d: Disk, id: Id, target: Target) {
    Open(d, id) && d.txns[id].digest != target.digest
  }

  ghost function Superseded(d: Disk, target: Target): Disk {
    d.(txns := map id | id in d.txns :: if IsSuperseded(d, id, target) then InState(d.txns[id], Failed) else d.txns[id],
       stages := map id | id in d.stages && !IsSuperseded(d, id, target) :: d.stages[id])
  }

  // On the way there: what is given up has failed and lost its stage, everything else is as before.
  ghost predicate Clearing(before: Disk, d: Disk, target: Target) {
    && d.(txns := map[], stages := map[]) == before.(txns := map[], stages := map[])
    && d.txns.Keys == before.txns.Keys && d.stages.Keys <= before.stages.Keys
    && (forall id | id in d.txns ::
          d.txns[id] == if GivenUp(before, d, id, target) then InState(before.txns[id], Failed) else before.txns[id])
    && (forall id | id in before.stages ::
          if GivenUp(before, d, id, target) then id !in d.stages
          else id in d.stages && d.stages[id] == before.stages[id])
  }

  ghost predicate GivenUp(before: Disk, d: Disk, id: Id, target: Target) {
    IsSuperseded(before, id, target) && !Open(d, id)
  }

  lemma GiveUp(before: Disk, d: Disk, id: Id, target: Target)
    requires Clearing(before, d, target) && Open(d, id) && d.txns[id].digest != target.digest
    ensures Clearing(before, Apply(Apply(d, Abandon(id)), DropStage(id)), target)
  {
  }

  lemma Cleared(before: Disk, d: Disk, target: Target)
    requires Clearing(before, d, target) && forall id | Open(d, id) :: d.txns[id].digest == target.digest
    ensures d == Superseded(before, target)
  {
    assert forall id :: GivenUp(before, d, id, target) <==> IsSuperseded(before, id, target);
    assert d.txns == Superseded(before, target).txns;
    assert d.stages == Superseded(before, target).stages;
  }

  // What is not given up is as open as before.
  lemma StaysOpen(before: Disk, d: Disk, target: Target)
    requires Clearing(before, d, target)
    ensures forall id | Open(before, id) && before.txns[id].digest == target.digest :: Open(d, id)
    ensures forall id | Open(d, id) :: d.txns[id] == before.txns[id]
  {
    forall id | Open(d, id) ensures d.txns[id] == before.txns[id] {
      assert !GivenUp(before, d, id, target);
    }
  }

  lemma FoundOpen(before: Disk, d: Disk, id: Id, target: Target)
    requires Clearing(before, d, target) && Safe(d) && Open(d, id) && d.txns[id].digest == target.digest
    ensures d == Superseded(before, target) && d.txns[id] == before.txns[id]
    ensures forall other | Open(before, other) && before.txns[other].digest == target.digest :: other == id
  {
    StaysOpen(before, d, target);
    Cleared(before, d, target);
  }

  lemma NothingOpen(before: Disk, d: Disk, target: Target)
    requires Clearing(before, d, target) && forall other | other in d.txns :: !Open(d, other)
    ensures d == Superseded(before, target)
    ensures forall other | Open(before, other) :: before.txns[other].digest != target.digest
  {
    StaysOpen(before, d, target);
    Cleared(before, d, target);
  }

  datatype Outcome = Succeeded | FailedRun | RolledBackRun | ReviewNeeded

  // Where a rollback leaves current.json: on the version the transaction has recorded if that one still
  // answers, otherwise nowhere. The directory named at its creation becomes the previous version.
  ghost function RolledBackTo(txn: Txn, versions: set<Dir>, world: World): Option<Pointer>
    requires txn.Update?
  {
    if txn.rollbackTo.Some? && txn.rollbackTo.value in versions && world.answers(txn.rollbackTo.value)
    then Some(Pointer(txn.rollbackTo.value, Some(txn.dirname))) else None
  }

  // An earlier run has left the archive behind.
  ghost predicate HasArchive(d: Disk, id: Id) {
    id in d.stages && d.stages[id].archive
  }

  // What a collection over the disk `after` leaves of `versions`.
  ghost function Collected(versions: set<Dir>, after: Disk, world: World): set<Dir> {
    set v | v in versions && (IsWanted(after, v) || v in world.inUse)
  }

  // How a run of the transaction `id`, recorded as `record` at its start, may end.
  ghost predicate EndsAs(
    outcome: Outcome, before: Disk, after: Disk, record: Txn, id: Id, target: Target, world: World)
    requires record.Update?
  {
    && id in after.txns && after.txns[id].Update?
    && var txn := after.txns[id];
       match outcome
       // On its own target, verified and probed, with the old version behind it, nothing left staged, and
       // no version kept that is neither wanted nor in use.
       case Succeeded =>
         && after.pointer == Some(Pointer(target.Dir(), Current(before.pointer)))
         && target.Dir() in after.versions && target.Dir() in after.verified && target.Dir() in after.probed
         && txn.state.Committed? && txn.target == target && id !in after.stages
         && after.versions == Collected(before.versions + {target.Dir()}, after, world)
       // Where the transaction has recorded: on the version in use before the run, or before an earlier
       // run of it that had got as far as current.json.
       case RolledBackRun =>
         && txn.state.RolledBack? && after.pointer == RolledBackTo(txn, after.versions, world)
         && txn.dirname == record.dirname && id !in after.stages
         && (|| txn.rollbackTo == Current(before.pointer)
             || (Current(before.pointer) == Some(target.Dir()) && txn.rollbackTo == record.rollbackTo))
         && before.versions <= after.versions <= before.versions + {target.Dir()}
       // With current.json left alone, or the new version is live already and only the old program could
       // not be moved aside.
       case ReviewNeeded =>
         if world.blocked then
           after.pointer == before.pointer && after.versions == before.versions && txn.state.NeedsReview?
         else
           && before.pointer.None? && world.flat && world.handover.Locked?
           && after.pointer == Some(Pointer(target.Dir(), None)) && txn.state.Activating?
           && after.versions == before.versions + {target.Dir()}
       // Without having moved current.json; recorded as failed, unless it was waiting for review.
       case FailedRun =>
         && after.pointer == before.pointer && after.versions == before.versions
         && (|| (txn.state.Failed? && id !in after.stages)
             || (record.state.NeedsReview? && txn.state.NeedsReview?))
  }

  // Does the run get as far as a target that is ready? A directory that is there only has to verify.
  // Otherwise there has to be space for a download not yet begun, and an archive, from the world or from an
  // earlier run, that unpacks and verifies.
  ghost predicate Preparable(before: Disk, record: Txn, id: Id, target: Target, world: World) {
    && world.packageVerifies
    && (target.Dir() in before.versions ||
        (&& (record.state.Checking? ==> world.enoughSpace)
         && (world.archiveObtained || HasArchive(before, id)) && world.archiveUnpacks))
  }

  // How it ends, decided by what it finds.
  ghost function Verdict(before: Disk, record: Txn, id: Id, target: Target, world: World): Outcome {
    if !Preparable(before, record, id, target, world) then
      if Current(before.pointer) == Some(target.Dir()) && (record.state.Activating? || record.state.Healthy?)
      then RolledBackRun else FailedRun
    else LiveVerdict(before, target, world)
  }

  // The same for a target that is ready.
  ghost function LiveVerdict(before: Disk, target: Target, world: World): Outcome {
    if world.blocked then ReviewNeeded
    else if before.pointer.None? && world.flat && world.handover.Locked? then ReviewNeeded
    else if before.pointer.None? && world.flat && world.handover.Overlapping? then RolledBackRun
    else if world.answers(target.Dir()) then Succeeded
    else RolledBackRun
  }

  // The outcomes that leave current.json alone all the time.
  predicate LeavesPointer(outcome: Outcome, world: World) {
    outcome.FailedRun? || (outcome.ReviewNeeded? && world.blocked)
  }

  class InstallRoot {
    var disk: Disk
    ghost var log: seq<Action>
    ghost var disks: seq<Disk>

    // The disk is where the logged writes lead, and it started out safe.
    ghost predicate Valid()
      reads this
    {
      Trace(disks, log) && Safe(disks[0]) && disks[|log|] == disk
    }

    constructor (disk: Disk)
      requires Safe(disk)
      ensures Valid() && this.disk == disk
    {
      this.disk := disk;
      log, disks := [], [disk];
    }

    lemma ValidIsSafe()
      requires Valid()
      ensures Safe(disk)
    {
      TraceIsLegal(disks, log, |log|);
      RunsStaySafe(disks[0], log, |log|);
    }

    // One durable write.
    method Do(a: Action)
      requires Valid() && Enabled(disk, a)
      modifies this
      ensures Valid() && disk == Apply(old(disk), a) && log == old(log) + [a]
    {
      disk := Apply(disk, a);
      log, disks := log + [a], disks + [disk];
    }

    // The writes since the log was `before` have left the pointer alone.
    ghost predicate Quiet(before: seq<Action>)
      reads this
    {
      before <= log && forall i | |before| <= i < |log| :: !TouchesPointer(log[i])
    }

    ghost predicate Working(id: Id, target: Target)
      reads this
    {
      Open(disk, id) && disk.txns[id].target == target && disk.txns[id].digest == target.digest
    }

    // Since the disk was `before`, no transaction and no stage but those of `id` have changed.
    ghost predicate Only(before: Disk, id: Id)
      reads this
    {
      && id in disk.txns && disk.txns == before.txns[id := disk.txns[id]]
      && disk.stages - {id} == before.stages - {id}
    }

    // The target is there to be activated: installed and verified, or unpacked and verified.
    ghost predicate Ready(id: Id, target: Target)
      reads this
    {
      if target.Dir() in disk.versions then target.Dir() in disk.verified else StageOf(disk, id).package.Accepted?
    }

    // A passing state, written down.
    method MoveTo(id: Id, target: Target, to: State)
      requires Valid() && Working(id, target) && Passing(to) && !to.Healthy?
      modifies this
      ensures Valid() && Quiet(old(log)) && Working(id, target)
      ensures disk == WithState(old(disk), id, to) && Only(old(disk), id)
    {
      Do(Move(id, to));
    }

    method Supersede(id: Id)
      requires Valid() && Open(disk, id)
      modifies this
      ensures Valid() && Quiet(old(log)) && disk == Apply(Apply(old(disk), Abandon(id)), DropStage(id))
    {
      Do(Abandon(id));
      Do(DropStage(id));
    }

    method FindResumable(target: Target, listing: seq<Id>) returns (found: Option<Id>)
      requires Valid() && forall id :: id in listing <==> id in disk.txns
      modifies this
      ensures Valid() && Quiet(old(log)) && disk == Superseded(old(disk), target)
      ensures match found
              case Some(id) =>
                && Open(disk, id) && disk.txns[id].digest == target.digest
                && disk.txns[id] == old(disk.txns[id])
              case None => forall other :: !Open(disk, other)
      ensures forall id | Open(old(disk), id) && old(disk).txns[id].digest == target.digest :: found == Some(id)
    {
      ValidIsSafe();
      ghost var before := disk;
      for i := 0 to |listing|
        invariant Valid() && Quiet(old(log))
        invariant Clearing(before, disk, target)
        invariant forall k | 0 <= k < i :: !Open(disk, listing[k])
      {
        var id := listing[i];
        assert id in disk.txns;
        var txn := disk.txns[id];
        if !txn.Update? || Finished(txn) {
          continue;
        }
        if txn.digest != target.digest {
          GiveUp(before, disk, id, target);
          Supersede(id);
          continue;
        }
        ValidIsSafe();
        FoundOpen(before, disk, id, target);
        return Some(id);
      }
      NothingOpen(before, disk, target);
      return None;
    }

    // A transaction is resumed when one for the same digest is open, and created otherwise.
    ghost predicate Resumes(before: Disk, id: Id, target: Target, newId: Id) {
      if id in before.txns then Open(before, id) && before.txns[id].digest == target.digest
      else id == newId && forall other | Open(before, other) :: before.txns[other].digest != target.digest
    }

    ghost function RecordAtStart(before: Disk, id: Id, target: Target): Txn {
      if id in before.txns then before.txns[id] else Update(Checking, target.digest, target.Dir(), target, None)
    }

    method Begin(target: Target, world: World, listing: seq<Id>) returns (id: Id)
      requires Valid() && (forall id :: id in listing <==> id in disk.txns) && world.newId !in disk.txns
      modifies this
      ensures Valid() && Quiet(old(log)) && Working(id, target)
      ensures Resumes(old(disk), id, target, world.newId)
      ensures
        var record := RecordAtStart(old(disk), id, target);
        var cleared := Superseded(old(disk), target);
        disk == cleared.(txns := cleared.txns[id := record.(target := target)])
    {
      var found := FindResumable(target, listing);
      if found.None? {
        id := world.newId;
        Do(Create(id, target));
      } else {
        id := found.value;
        Do(Retarget(id, target));
      }
    }

    // A version directory that is already there is verified again in place.
    method Reuse(id: Id, target: Target, world: World) returns (ok: bool)
      requires Valid() && Working(id, target) && target.Dir() in disk.versions
      modifies this
      ensures Valid() && Quiet(old(log)) && Working(id, target)
      ensures SameRecord(old(disk.txns[id]), disk.txns[id]) && Only(old(disk), id)
      ensures disk.txns[id].state.NeedsReview? ==> old(disk.txns[id]).state.NeedsReview?
      ensures disk.pointer == old(disk.pointer) && disk.versions == old(disk.versions)
      ensures ok == world.packageVerifies && (ok ==> target.Dir() in disk.verified) && (!ok ==> disk == old(disk))
      ensures ok ==>
        var before := old(disk.txns[id]).state;
        disk.txns[id].state ==
        if before in {Staged, WaitingForIdle, Activating, Healthy, NeedsReview} then before else Staged
    {
      if !world.packageVerifies {
        return false;
      }
      Do(AcceptVersion(target.Dir()));
      var state := disk.txns[id].state;
      if !(state.Staged? || state.WaitingForIdle? || state.Activating? || state.Healthy? || state.NeedsReview?) {
        MoveTo(id, target, Staged);
      }
      return true;
    }

    method Fetch(id: Id, target: Target, world: World) returns (ok: bool)
      requires Valid() && Working(id, target)
      modifies this
      ensures Valid() && Quiet(old(log)) && Only(old(disk), id) && disk.txns == old(disk.txns)
      ensures disk.pointer == old(disk.pointer) && disk.versions == old(disk.versions)
      ensures ok == StageOf(disk, id).archive == (world.archiveObtained || HasArchive(old(disk), id))
    {
      if !StageOf(disk, id).archive {
        if !world.archiveObtained {
          return false;
        }
        Do(FetchArchive(id));
      }
      return true;
    }

    // The archive, unless an earlier run has already obtained it.
    method Obtain(id: Id, target: Target, world: World) returns (ok: bool)
      requires Valid() && Working(id, target)
      modifies this
      ensures Valid() && Quiet(old(log)) && Working(id, target)
      ensures SameRecord(old(disk.txns[id]), disk.txns[id]) && Only(old(disk), id)
      ensures disk.txns[id].state.NeedsReview? ==> old(disk.txns[id]).state.NeedsReview?
      ensures disk.pointer == old(disk.pointer) && disk.versions == old(disk.versions)
      ensures ok ==> StageOf(disk, id).archive
      ensures
        var before := old(disk.txns[id]).state;
        disk.txns[id].state ==
        if ok then Verified else if before == Checking && world.enoughSpace then Downloading else before
      ensures ok <==>
        && (old(disk.txns[id]).state.Checking? ==> world.enoughSpace)
        && (world.archiveObtained || HasArchive(old(disk), id))
    {
      if disk.txns[id].state.Checking? {
        if !world.enoughSpace {
          return false;
        }
        MoveTo(id, target, Downloading);
      }
      ok := Fetch(id, target, world);
      if !ok {
        return;
      }
      if !disk.txns[id].state.Verified? {
        MoveTo(id, target, Verified);
      }
      return true;
    }

    // Obtain, unpack and verify the package.
    method StagePackage(id: Id, target: Target, world: World) returns (ok: bool)
      requires Valid() && Working(id, target)
      modifies this
      ensures Valid() && Quiet(old(log)) && Working(id, target)
      ensures SameRecord(old(disk.txns[id]), disk.txns[id]) && Only(old(disk), id)
      ensures disk.txns[id].state.NeedsReview? ==> old(disk.txns[id]).state.NeedsReview?
      ensures disk.pointer == old(disk.pointer) && disk.versions == old(disk.versions)
      ensures ok ==> StageOf(disk, id).package.Accepted? && disk.txns[id].state.Staged?
      ensures ok <==>
        && (old(disk.txns[id]).state.Checking? ==> world.enoughSpace)
        && (world.archiveObtained || HasArchive(old(disk), id)) && world.archiveUnpacks && world.packageVerifies
    {
      ok := Obtain(id, target, world);
      if !ok {
        return;
      }
      Do(Unpack(id));
      if !world.archiveUnpacks || !world.packageVerifies {
        return false;
      }
      Do(AcceptPackage(id));
      MoveTo(id, target, Staged);
    }

    // Make the target ready, reusing whatever an earlier run has left behind.
    method Prepare(id: Id, target: Target, world: World) returns (ok: bool)
      requires Valid() && Working(id, target)
      modifies this
      ensures Valid() && Quiet(old(log)) && Working(id, target)
      ensures SameRecord(old(disk.txns[id]), disk.txns[id]) && Only(old(disk), id)
      ensures disk.txns[id].state.NeedsReview? ==> old(disk.txns[id]).state.NeedsReview?
      ensures disk.pointer == old(disk.pointer) && disk.versions == old(disk.versions)
      ensures ok ==> Ready(id, target)
      ensures ok <==> Preparable(old(disk), old(disk.txns[id]), id, target, world)
      ensures !ok && target.Dir() in old(disk.versions) ==> disk.txns[id].state == old(disk.txns[id]).state
    {
      if target.Dir() in disk.versions {
        ok := Reuse(id, target, world);
      } else {
        ok := StagePackage(id, target, world);
      }
    }

    method Activate(id: Id, target: Target, world: World) returns (handover: Handover)
      requires Valid() && Working(id, target) && Ready(id, target)
      modifies this
      ensures Valid() && old(log) <= log && Working(id, target)
      ensures disk.txns[id].state.Activating? && disk.txns[id].rollbackTo == Current(old(disk.pointer))
      ensures disk.txns[id].dirname == old(disk.txns[id]).dirname && Only(old(disk), id)
      ensures target.Dir() in disk.versions && target.Dir() in disk.verified
      ensures disk.versions == old(disk.versions) + {target.Dir()}
      ensures disk.pointer == Some(Pointer(target.Dir(), Current(old(disk.pointer))))
      ensures handover == if old(disk.pointer).None? && world.flat then world.handover else Done
    {
      ValidIsSafe();
      var before := disk.pointer;
      Do(MarkIdle(id));
      MoveTo(id, target, Activating);
      if target.Dir() !in disk.versions {
        Do(Promote(id));
      }
      Do(Point(id));
      handover := if before.None? && world.flat then world.handover else Done;
    }

    method RollbackAfterActivationFailure(id: Id, target: Target, world: World)
      requires Valid() && Working(id, target) && target.Dir() in disk.versions
      modifies this
      ensures Valid() && old(log) <= log
      ensures id in disk.txns && disk.txns[id] == InState(old(disk.txns[id]), RolledBack)
      ensures Only(old(disk), id) && id !in disk.stages && disk.versions == old(disk.versions)
      ensures disk.pointer == RolledBackTo(disk.txns[id], disk.versions, world)
    {
      var restored := false;
      var back := disk.txns[id].rollbackTo;
      if back.Some? {
        var answers := world.answers(back.value);
        if back.value in disk.versions && answers {
          Do(ProbeVersion(back.value));
          Do(Restore(id));
          restored := true;
        }
      }
      if !restored {
        Do(Unpoint(id));
      }
      Do(FinishRollback(id));
      Do(DropStage(id));
    }

    // Old versions go, except both ends of the pointer, the targets under way and what is running.
    method GcVersions(world: World)
      requires Valid()
      modifies this
      ensures Valid() && Quiet(old(log))
      ensures disk.pointer == old(disk.pointer) && disk.txns == old(disk.txns) && disk.stages == old(disk.stages)
      ensures disk.versions == Collected(old(disk.versions), disk, world)
      ensures forall v | v in disk.versions ::
        (v in disk.verified <==> v in old(disk.verified)) && (v in disk.probed <==> v in old(disk.probed))
    {
      var keep := Kept(disk);
      var pending := Pending(disk);
      var todo := disk.versions;
      while todo != {}
        invariant Valid() && Quiet(old(log))
        invariant disk.pointer == old(disk.pointer) && disk.txns == old(disk.txns) && disk.stages == old(disk.stages)
        invariant todo <= disk.versions <= old(disk.versions)
        invariant forall v | v in old(disk.versions) && v !in todo ::
            v in disk.versions <==> v in keep + pending + world.inUse
        invariant forall v | v in disk.versions ::
          (v in disk.verified <==> v in old(disk.verified)) && (v in disk.probed <==> v in old(disk.probed))
        decreases todo
      {
        var name :| name in todo;
        todo := todo - {name};
        if name in keep || name in pending || name in world.inUse {
          continue;
        }
        Do(Collect(name));
      }
      forall v ensures v in keep + pending <==> IsWanted(disk, v) {
        WantedIff(disk, v);
      }
    }

    method HealthAndCommit(id: Id, target: Target, world: World) returns (outcome: Outcome)
      requires Valid() && Working(id, target) && disk.txns[id].state.Activating?
      requires target.Dir() in disk.versions && target.Dir() in disk.verified
      requires disk.pointer.Some? && disk.pointer.value.current == target.Dir()
      modifies this
      ensures Valid() && old(log) <= log && id in disk.txns && disk.txns[id].Update?
      ensures Only(old(disk), id) && id !in disk.stages
      ensures if world.answers(target.Dir()) then outcome.Succeeded? else outcome.RolledBackRun?
      ensures outcome.Succeeded? ==>
        && disk.pointer == old(disk.pointer) && disk.txns[id].state.Committed? && disk.txns[id].target == target
        && target.Dir() in disk.versions && target.Dir() in disk.verified && target.Dir() in disk.probed
        && disk.versions == Collected(old(disk.versions), disk, world)
      ensures outcome.RolledBackRun? ==>
        && disk.txns[id] == InState(old(disk.txns[id]), RolledBack) && disk.versions == old(disk.versions)
        && disk.pointer == RolledBackTo(disk.txns[id], disk.versions, world)
    {
      var answers := world.answers(target.Dir());
      if !answers {
        RollbackAfterActivationFailure(id, target, world);
        return RolledBackRun;
      }
      Do(ProbeVersion(target.Dir()));
      Do(Move(id, Healthy));
      Do(Commit(id));
      Do(DropStage(id));
      GcVersions(world);
      return Succeeded;
    }

    // An error before the new version has gone live fails the transaction and nothing else; after that
    // the pointer is put back.
    method FailRun(id: Id, target: Target, world: World) returns (outcome: Outcome)
      requires Valid() && Working(id, target)
      modifies this
      ensures Valid() && old(log) <= log
      ensures outcome.FailedRun? || outcome.RolledBackRun?
      ensures id in disk.txns && disk.txns[id].Update? && Only(old(disk), id)
      ensures outcome.FailedRun? ==>
        && Quiet(old(log)) && disk.pointer == old(disk.pointer) && disk.versions == old(disk.versions)
        && if old(disk.txns[id].state).NeedsReview? then disk == old(disk)
           else disk.txns[id] == InState(old(disk.txns[id]), Failed) && id !in disk.stages
      ensures outcome.RolledBackRun? ==>
        && disk.txns[id] == InState(old(disk.txns[id]), RolledBack) && disk.versions == old(disk.versions)
        && disk.pointer == RolledBackTo(disk.txns[id], disk.versions, world) && id !in disk.stages
      ensures outcome.RolledBackRun? <==>
        && old(disk.pointer).Some? && old(disk.pointer).value.current == target.Dir()
        && (old(disk.txns[id].state).Activating? || old(disk.txns[id].state).Healthy?)
    {
      ValidIsSafe();
      var state := disk.txns[id].state;
      if state.NeedsReview? {
        return FailedRun;
      }
      if disk.pointer.Some? && disk.pointer.value.current == target.Dir() && (state.Activating? || state.Healthy?) {
        RollbackAfterActivationFailure(id, target, world);
        return RolledBackRun;
      }
      Do(Abandon(id));
      Do(DropStage(id));
      return FailedRun;
    }

    // The world lets an update get as far as its health check.
    ghost predicate Helpful(world: World) {
      && world.enoughSpace && world.archiveObtained && world.archiveUnpacks && world.packageVerifies && !world.blocked
      && (world.flat ==> world.handover.Done?)
    }

    // From a target that is ready to the end of the run.
    method GoLive(id: Id, target: Target, world: World) returns (outcome: Outcome)
      requires Valid() && Working(id, target) && Ready(id, target)
      modifies this
      ensures Valid() && old(log) <= log && Only(old(disk), id) && !outcome.FailedRun?
      ensures EndsAs(outcome, old(disk), disk, old(disk.txns[id]), id, target, world)
      ensures LeavesPointer(outcome, world) ==> Quiet(old(log))
      ensures outcome == LiveVerdict(old(disk), target, world)
    {
      if world.blocked {
        MoveTo(id, target, NeedsReview);
        return ReviewNeeded;
      }
      var handover := Activate(id, target, world);
      match handover {
        case Locked => outcome := ReviewNeeded;
        case Overlapping => outcome := FailRun(id, target, world);
        case Done => outcome := HealthAndCommit(id, target, world);
      }
    }

    // From a transaction that is written down to the end of the run.
    method Proceed(id: Id, target: Target, world: World) returns (outcome: Outcome)
      requires Valid() && Working(id, target)
      modifies this
      ensures Valid() && old(log) <= log && Only(old(disk), id)
      ensures EndsAs(outcome, old(disk), disk, old(disk.txns[id]), id, target, world)
      ensures LeavesPointer(outcome, world) ==> Quiet(old(log))
      ensures outcome == Verdict(old(disk), old(disk.txns[id]), id, target, world)
    {
      ValidIsSafe();
      var ok := Prepare(id, target, world);
      if !ok {
        outcome := FailRun(id, target, world);
        return;
      }
      outcome := GoLive(id, target, world);
    }

    // `id` is the transaction of the run.
    method CmdUpdate(target: Target, world: World, listing: seq<Id>) returns (outcome: Outcome, ghost id: Id)
      requires Valid() && (forall id :: id in listing <==> id in disk.txns) && world.newId !in disk.txns
      modifies this
      ensures Valid() && old(log) <= log && Resumes(old(disk), id, target, world.newId)
      ensures EndsAs(outcome, old(disk), disk, RecordAtStart(old(disk), id, target), id, target, world)
      ensures LeavesPointer(outcome, world) ==> Quiet(old(log))
      // Updates of another digest that were under way have failed, and no other record has changed.
      ensures disk.txns == Superseded(old(disk), target).txns[id := disk.txns[id]]
      ensures disk.stages - {id} == Superseded(old(disk), target).stages - {id}
      // Wherever earlier runs were interrupted, running again in a helpful world completes the update, or
      // rolls it back when the new version does not answer.
      ensures outcome == Verdict(old(disk), RecordAtStart(old(disk), id, target), id, target, world)
      ensures Helpful(world) ==> if world.answers(target.Dir()) then outcome.Succeeded? else outcome.RolledBackRun?
    {
      var txn := Begin(target, world, listing);
      id := txn;
      outcome := Proceed(txn, target, world);
    }

    // How the previous version comes to dangle. An update is interrupted when its transaction is written,
    // and run again under another version string with the same digest; the new version does not answer.
    // current.json goes back, and has as previous version the directory that was never made.
    method ResumeUnderAnotherVersion(first: Target, second: Target, early: World, late: World, listing: seq<Id>)
      requires Valid() && (forall id :: id in listing <==> id in disk.txns) && (forall other :: !Open(disk, other))
      requires early.newId !in disk.txns && late.newId !in disk.txns && early.newId != late.newId
      requires first.digest == second.digest && first.Dir() !in disk.versions && first.Dir() != second.Dir()
      requires disk.pointer.Some? && disk.pointer.value.current != second.Dir()
      requires Helpful(late) && !late.answers(second.Dir()) && late.answers(disk.pointer.value.current)
      modifies this
      ensures Valid() && !PreviousExists(disk)
      ensures disk.pointer == Some(Pointer(old(disk.pointer).value.current, Some(first.Dir())))
    {
      ValidIsSafe();
      var created := Begin(first, early, listing);
      ValidIsSafe();
      ghost var before := disk;
      var outcome, id := CmdUpdate(second, late, listing + [created]);
      assert Open(before, created) && before.txns[created].digest == second.digest;
      assert id == created;
    }

    method SwitchBack(id: Id)
      requires Valid() && id !in disk.txns
      requires disk.pointer.Some? && disk.pointer.value.previous.Some?
      requires disk.pointer.value.previous.value in disk.probed
      modifies this
      ensures Valid() && old(log) <= log && disk.versions == old(disk.versions)
      ensures disk.pointer
        == Some(Pointer(old(disk.pointer).value.previous.value, Some(old(disk.pointer).value.current)))
      ensures disk.txns == old(disk.txns)[id := Rollback(Committed, old(disk.pointer).value.previous.value)]
    {
      Do(OpenRollback(id));
      Do(SwapBack(id));
      Do(CloseRollback(id));
    }

    // Back to the previous version, if there is one, it still exists and it answers.
    method CmdRollback(world: World) returns (switched: bool)
      requires Valid() && world.newId !in disk.txns
      modifies this
      ensures Valid() && old(log) <= log && disk.versions == old(disk.versions)
      ensures
        var p := old(disk.pointer);
        switched <==>
          && p.Some? && p.value.previous.Some?
          && p.value.previous.value in disk.versions && world.answers(p.value.previous.value)
      ensures
        if switched then
          var to := old(disk.pointer).value.previous.value;
          && disk.pointer == Some(Pointer(to, Some(old(disk.pointer).value.current)))
          && disk.txns == old(disk.txns)[world.newId := Rollback(Committed, to)]
        else disk == old(disk)
    {
      if disk.pointer.None? || disk.pointer.value.previous.None? {
        return false;
      }
      var previous := disk.pointer.value.previous.value;
      if previous !in disk.versions {
        return false;
      }
      var answers := world.answers(previous);
      if !answers {
        return false;
      }
      Do(ProbeVersion(previous));
      SwitchBack(world.newId);
      return true;
    }

    method CmdGc(world: World)
      requires Valid()
      modifies this
      ensures Valid() && Quiet(old(log)) && disk.pointer == old(disk.pointer) && disk.txns == old(disk.txns)
      ensures disk.versions == Collected(old(disk.versions), disk, world)
      ensures disk.pointer.Some? ==> disk.pointer.value.current in disk.versions
      ensures
        && disk.pointer.Some? && disk.pointer.value.previous.Some?
        && disk.pointer.value.previous.value in old(disk.versions)
        ==> disk.pointer.value.previous.value in disk.versions
    {
      ValidIsSafe();
      GcVersions(world);
    }
  }
}
