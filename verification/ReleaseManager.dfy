/** The release manager, changing the disk step by step. Methods that can throw return
    whether they went through. */
module Releases {
  import opened Options
  import opened ReleaseSwitch
  import opened ReleaseSafety
  import opened ReleaseServices

  class ReleaseManager {
    const hooks: Hooks
    var disk: Disk
    var writes: seq<Change>

    constructor (hooks: Hooks, disk: Disk)
      ensures this.hooks == hooks && this.disk == disk && writes == []
    {
      this.hooks, this.disk, writes := hooks, disk, [];
    }

    ghost function At(ok: bool): Progress
      reads this
    {
      Progress(disk, writes, ok)
    }

    method Write(step: Step, faults: set<Step>, next: Disk) returns (ok: bool)
      modifies this`disk, this`writes
      ensures At(ok) == Put(old(At(true)), step, faults, next)
    {
      if step in faults { return false; }
      writes := writes + [Change(step, disk, next)];
      disk := next;
      return true;
    }

    method RunHook(hook: Option<Hook>) returns (ok: bool)
      modifies this`disk
      ensures At(ok) == Call(old(At(true)), hook)
    {
      if hook.None? { return true; }
      var effect := hook.value(disk);
      disk := effect.disk;
      return !effect.throws;
    }

    method AssertPointers(current: Option<Id>, previous: Option<Id>) returns (ok: bool)
      ensures At(ok) == Check(At(true), current, previous)
    {
      var actual := Snap(disk);
      ok := actual.Some? && actual.value.current == current && actual.value.previous == previous;
    }

    method ActivateRelease(id: Id) returns (ok: bool)
      modifies this`disk
      ensures At(ok) == Activate(old(At(true)), hooks, id)
    {
      if !Loads(disk, id) { return false; }
      ok := RunHook(hooks.activate);
    }

    method RestorePriorServices(s: Snapshot) returns (ok: bool)
      modifies this`disk
      ensures At(ok) == RestoreServices(old(At(true)), hooks, s)
    {
      if hooks.restorePrior.Some? {
        ok := RunHook(hooks.restorePrior);
      } else if s.current.Some? {
        ok := ActivateRelease(s.current.value);
      } else {
        ok := true;
      }
    }

    method RestorePointers(faults: set<Step>, s: Snapshot) returns (ok: bool)
      modifies this`disk, this`writes
      ensures At(ok) == Restore(old(At(true)), faults, s)
    {
      ok := Write(RestoreCurrent, faults, disk.(current := Named(s.current)));
      if !ok { return; }
      ok := Write(RestorePrevious, faults, disk.(previous := Named(s.previous)));
      if !ok { return; }
      ok := Write(RestoreLauncher, faults,
                  disk.(launcher := if s.launcher.None? then Missing else Regular(s.launcher.value)));
    }

    method SwitchPointers(faults: set<Step>, launch: bool, current: Id, previous: Option<Id>) returns (ok: bool)
      modifies this`disk, this`writes
      ensures At(ok) == Switch(old(At(true)), faults, launch, current, previous)
    {
      if launch {
        ok := Write(WriteLauncher, faults, disk.(launcher := Regular(LAUNCHER)));
        if !ok { return; }
      }
      ok := Write(WritePrevious, faults, disk.(previous := Named(previous)));
      if !ok { return; }
      ok := Write(WriteCurrent, faults, disk.(current := To(current)));
    }

    /** The guarded part of a switch: check, activate, check. */
    method TryActivation(current: Id, previous: Option<Id>) returns (ok: bool)
      modifies this`disk
      ensures At(ok) == Attempt(old(At(true)), hooks, current, previous)
    {
      ok := AssertPointers(Some(current), previous);
      if !ok { return; }
      ok := ActivateRelease(current);
      if !ok { return; }
      ok := AssertPointers(Some(current), previous);
    }

    method UndoSwitch(faults: set<Step>, s: Snapshot) returns (ok: bool)
      modifies this`disk, this`writes
      ensures At(ok) == Undo(old(At(true)), hooks, faults, s)
    {
      ok := RestorePointers(faults, s);
      if !ok { return; }
      ok := AssertPointers(s.current, s.previous);
      if !ok { return; }
      ok := RestorePriorServices(s);
      if !ok { return; }
      ok := AssertPointers(s.current, s.previous);
    }

    method SwitchTo(faults: set<Step>, launch: bool, success: Status, to: Id,
                    s: Snapshot) returns (receipt: Option<Receipt>)
      modifies this`disk, this`writes
      ensures Outcome(disk, writes, receipt) == Transition(old(At(true)), hooks, faults, launch, success, to, s)
    {
      var ok := SwitchPointers(faults, launch, to, s.current);
      if !ok { return None; }
      ok := TryActivation(to, s.current);
      if ok { return Some(Receipt(success, to, s.current, true, true)); }
      ok := UndoSwitch(faults, s);
      if ok { return Some(Receipt(FailedRolledBack, to, s.current, true, true)); }
      ok := RunHook(hooks.safeStop);
      return Some(Receipt(FailedSafeStop, to, s.current, true, false));
    }

    /** None when the installation throws before the snapshot. */
    method StageArtifact(artifact: Option<Manifest>, faults: set<Step>) returns (ok: bool)
      modifies this`disk
      ensures Effect(disk, !ok) == Staged(old(disk), artifact, faults)
    {
      if artifact.None? { return false; }
      var m := artifact.value;
      if m.id in disk.installed { return disk.installed[m.id] == Release(Some(m)); }
      if Stage in faults { return false; }
      disk := disk.(installed := disk.installed[m.id := Release(Some(m))]);
      return Seal !in faults;
    }

    method InstallRelease(artifact: Option<Manifest>, faults: set<Step>) returns (receipt: Option<Receipt>)
      modifies this`disk, this`writes
      ensures Outcome(disk, writes, receipt) == Perform(old(disk), Install(artifact, hooks, faults))
      ensures Truthful(Outcome(disk, writes, receipt), old(disk).current, old(disk).previous)
      ensures Healthy(old(disk)) && Quiet(hooks) ==>
                (Healthy(disk) <==> !HalfWritten(old(disk), Install(artifact, hooks, faults)))
      ensures ServicesRan(old(disk), Install(artifact, hooks, faults), Outcome(disk, writes, receipt))
      ensures Proceeds(old(disk), Install(artifact, hooks, faults)) ==>
                Reported(old(disk), Install(artifact, hooks, faults), Outcome(disk, writes, receipt))
    {
      Promised(disk, Install(artifact, hooks, faults));
      writes := [];
      var ok := StageArtifact(artifact, faults);
      if !ok { return None; }
      var id := artifact.value.id;
      var snapshot := Snap(disk);
      if snapshot.None? { return None; }
      var s := snapshot.value;
      if s.current == Some(id) { return Some(Receipt(Activated, id, s.previous, false, true)); }
      ok := RunHook(hooks.beforeSwitch);
      if !ok { return Some(Receipt(FailedBeforeSwitch, id, s.current, false, false)); }
      receipt := SwitchTo(faults, true, Activated, id, s);
    }

    method RollbackRelease(faults: set<Step>) returns (receipt: Option<Receipt>)
      modifies this`disk, this`writes
      ensures Outcome(disk, writes, receipt) == Perform(old(disk), Rollback(hooks, faults))
      ensures Truthful(Outcome(disk, writes, receipt), old(disk).current, old(disk).previous)
      ensures Healthy(old(disk)) && Quiet(hooks) ==>
                (Healthy(disk) <==> !HalfWritten(old(disk), Rollback(hooks, faults)))
      ensures ServicesRan(old(disk), Rollback(hooks, faults), Outcome(disk, writes, receipt))
      ensures Proceeds(old(disk), Rollback(hooks, faults)) ==>
                Reported(old(disk), Rollback(hooks, faults), Outcome(disk, writes, receipt))
    {
      Promised(disk, Rollback(hooks, faults));
      writes := [];
      var snapshot := Snap(disk);
      if snapshot.None? || snapshot.value.current.None? || snapshot.value.previous.None? { return None; }
      var s := snapshot.value;
      if !Loads(disk, s.previous.value) { return None; }
      var ok := RunHook(hooks.beforeSwitch);
      if !ok { return Some(Receipt(FailedBeforeSwitch, s.previous.value, s.current, false, false)); }
      receipt := SwitchTo(faults, false, RolledBack, s.previous.value, s);
    }
  }

  /** What receipts, pointers and hooks promise of an operation. */
  lemma Promised(d: Disk, op: Op)
    ensures Truthful(Perform(d, op), d.current, d.previous)
    ensures Healthy(d) && Quiet(op.hooks) ==> (Healthy(Perform(d, op).disk) <==> !HalfWritten(d, op))
    ensures ServicesRan(d, op, Perform(d, op))
    ensures Proceeds(d, op) ==> Reported(d, op, Perform(d, op))
  {
    ReceiptsAreTruthful(d, op);
    VerifiedServicesRan(d, op);
    if Proceeds(d, op) { EverySwitchIsReported(d, op); }
    if Healthy(d) && Quiet(op.hooks) { HealthIsKeptExactly(d, op); }
  }
}
