/** Which hook an operation applies to which disk, and what its receipt says of it:
    for any hooks, any disk and any writes that fail. */
module ReleaseServices {
  import opened Options
  import opened ReleaseSwitch
  import opened ReleaseSafety

  predicate Leads(e: Disk, p: Pointer) {
    p.Absent? || (p.To? && p.id in e.installed && e.installed[p.id].Release?)
  }

  /** The pointers are these two, both lead to release directories, the launcher is a file. */
  predicate Stands(e: Disk, current: Pointer, previous: Pointer) {
    e.current == current && e.previous == previous && Leads(e, current) && Leads(e, previous) && !e.launcher.Irregular?
  }

  /** The release directory is there, and its manifest validates. */
  predicate Validates(e: Disk, p: Pointer) {
    p.To? && p.id in e.installed && e.installed[p.id].Release? && e.installed[p.id].manifest.Some?
  }

  // ----------------------------------------------------------- before the switch

  /** The artifact is in place, and the pointers of the start can be read. */
  predicate Prepared(d: Disk, op: Op) {
    && Target(d, op).To? && Stages(d, op) && Stands(StagedDisk(d, op), d.current, d.previous)
    && (op.Rollback? ==> d.current.To? && Validates(d, d.previous))
  }

  /** An installation of what is installed. */
  predicate Already(d: Disk, op: Op) {
    Prepared(d, op) && op.Install? && d.current == Target(d, op)
  }

  predicate Begins(d: Disk, op: Op) {
    Prepared(d, op) && !Already(d, op)
  }

  predicate WritesGoThrough(op: Op) {
    (op.Install? ==> WriteLauncher !in op.faults) && WritePrevious !in op.faults && WriteCurrent !in op.faults
  }

  /** The operation comes to activate the new release. */
  predicate Proceeds(d: Disk, op: Op) {
    Begins(d, op) && !Throws(op.hooks.beforeSwitch, StagedDisk(d, op)) && WritesGoThrough(op)
  }

  /** There is no receipt exactly when the start cannot be read, there is nothing to switch
      to, or a write of the switch fails. */
  lemma NoReceiptExactly(d: Disk, op: Op)
    ensures Perform(d, op).receipt.None? <==>
      || !Prepared(d, op)
      || (Begins(d, op) && !Throws(op.hooks.beforeSwitch, StagedDisk(d, op)) && !WritesGoThrough(op))
  {
    SnapIs(if op.Rollback? then d else StagedDisk(d, op));
    if op.Install? { StagedIs(d, op); }
  }

  /** Nothing is called for a release that is installed already. */
  lemma AlreadyThere(d: Disk, op: Op)
    requires Already(d, op)
    ensures var o := Perform(d, op);
      && o.disk == StagedDisk(d, op) && o.writes == []
      && o.receipt == Some(Receipt(Activated, d.current.id, ReleaseOf(d.previous), false, true))
  {
    SnapIs(StagedDisk(d, op));
    StagedIs(d, op);
  }

  /** Stopped before the switch exactly when that hook throws; its disk stays. */
  lemma StoppedBeforeSwitch(d: Disk, op: Op)
    requires Begins(d, op)
    ensures var o := Perform(d, op); var r := o.receipt;
      && (r.Some? && r.value.status.FailedBeforeSwitch? <==> Throws(op.hooks.beforeSwitch, StagedDisk(d, op)))
      && (Throws(op.hooks.beforeSwitch, StagedDisk(d, op)) ==> (
            && o.disk == Left(op.hooks.beforeSwitch, StagedDisk(d, op)) && o.writes == []
            && r == Some(Receipt(FailedBeforeSwitch, Target(d, op).id, ReleaseOf(d.current), false, false))))
  {
    PerformIs(d, op);
  }

  // ------------------------------------------------------------------ the switch

  /** The new release validates and its services start, and the pointers still stand. */
  predicate Starts(d: Disk, op: Op) {
    var e := SwitchedDisk(d, op);
    && Stands(e, Target(d, op), d.current) && Validates(e, Target(d, op))
    && !Throws(op.hooks.activate, e) && Stands(Left(op.hooks.activate, e), Target(d, op), d.current)
  }

  /** What a failed start of the new services leaves. */
  function TriedDisk(d: Disk, op: Op): Disk {
    var e := SwitchedDisk(d, op);
    if Stands(e, Target(d, op), d.current) && Validates(e, Target(d, op)) then Left(op.hooks.activate, e) else e
  }

  /** Pointers and launcher are those of the start, as far as the writes go through. */
  function RestoredDisk(d: Disk, op: Op): Disk {
    var e := TriedDisk(d, op);
    if RestoreCurrent in op.faults then e
    else if RestorePrevious in op.faults then e.(current := d.current)
    else if RestoreLauncher in op.faults then e.(current := d.current, previous := d.previous)
    else e.(current := d.current, previous := d.previous, launcher := d.launcher)
  }

  predicate RestoringWrites(op: Op) {
    op.faults !! {RestoreCurrent, RestorePrevious, RestoreLauncher}
  }

  /** The hook that brings the services of the start back: `restorePrior`, without it the
      activation of the release of the start, if there was one. */
  function Restoring(d: Disk, op: Op): Option<Hook> {
    if op.hooks.restorePrior.Some? then op.hooks.restorePrior
    else if d.current.To? then op.hooks.activate
    else None
  }

  /** That release has to validate first. */
  predicate MayRestore(d: Disk, op: Op) {
    op.hooks.restorePrior.Some? || d.current.Absent? || Validates(RestoredDisk(d, op), d.current)
  }

  /** The old pointers stand, the old services start, and the pointers still stand. */
  predicate Returns(d: Disk, op: Op) {
    var e := RestoredDisk(d, op);
    && RestoringWrites(op) && Stands(e, d.current, d.previous)
    && MayRestore(d, op) && !Throws(Restoring(d, op), e)
    && Stands(Left(Restoring(d, op), e), d.current, d.previous)
  }

  /** The disk on which the services are stopped. */
  function AbandonedDisk(d: Disk, op: Op): Disk {
    var e := RestoredDisk(d, op);
    if RestoringWrites(op) && Stands(e, d.current, d.previous) && MayRestore(d, op) then Left(Restoring(d, op), e)
    else e
  }

  /** The receipt of a switch, and the disk it leaves, by the hooks: the new services run,
      or the old ones run again, or the services were stopped and nothing is claimed. */
  predicate Reported(d: Disk, op: Op, o: Outcome)
    requires Target(d, op).To?
  {
    var success := if op.Rollback? then RolledBack else Activated;
    if Starts(d, op) then
      && o.receipt == Some(Receipt(success, Target(d, op).id, ReleaseOf(d.current), true, true))
      && o.disk == Left(op.hooks.activate, SwitchedDisk(d, op))
    else if Returns(d, op) then
      && o.receipt == Some(Receipt(FailedRolledBack, Target(d, op).id, ReleaseOf(d.current), true, true))
      && o.disk == Left(Restoring(d, op), RestoredDisk(d, op))
    else
      && o.receipt == Some(Receipt(FailedSafeStop, Target(d, op).id, ReleaseOf(d.current), true, false))
      && o.disk == Left(op.hooks.safeStop, AbandonedDisk(d, op))
  }

  /** Whatever the hooks do to the disk, whenever they throw and whichever writes fail. */
  lemma EverySwitchIsReported(d: Disk, op: Op)
    requires Target(d, op).To? && Proceeds(d, op)
    ensures Reported(d, op, Perform(d, op))
  {
    PerformIs(d, op);
    var s := SnapshotOf(d);
    var p := Progress(Left(op.hooks.beforeSwitch, StagedDisk(d, op)), [], true);
    SwitchIs(d, op, p);
    var q := Switch(p, op.faults, op.Install?, Target(d, op).id, s.current);
    AttemptIs(d, op, q);
    var done := Attempt(q, op.hooks, Target(d, op).id, s.current);
    if !done.ok { UndoIs(d, op, done.(ok := true)); }
  }

  /** A receipt that promises running services was not given without them: the hook that
      starts them ran on a disk with the right pointers, leading to a release that validates,
      did not throw, and left the disk as it is. */
  predicate ServicesRan(d: Disk, op: Op, o: Outcome) {
    o.receipt.Some? && o.receipt.value.pointerSwitched && o.receipt.value.servicesVerified ==>
      if o.receipt.value.status.FailedRolledBack? then
        && Stands(RestoredDisk(d, op), d.current, d.previous) && MayRestore(d, op)
        && !Throws(Restoring(d, op), RestoredDisk(d, op)) && o.disk == Left(Restoring(d, op), RestoredDisk(d, op))
      else
        && Stands(SwitchedDisk(d, op), Target(d, op), d.current) && Validates(SwitchedDisk(d, op), Target(d, op))
        && !Throws(op.hooks.activate, SwitchedDisk(d, op)) && o.disk == Left(op.hooks.activate, SwitchedDisk(d, op))
  }

  lemma VerifiedServicesRan(d: Disk, op: Op)
    ensures ServicesRan(d, op, Perform(d, op))
  {
    NoReceiptExactly(d, op);
    if Already(d, op) {
      AlreadyThere(d, op);
    } else if Begins(d, op) {
      StoppedBeforeSwitch(d, op);
      if Proceeds(d, op) { EverySwitchIsReported(d, op); }
    }
  }

  /** Under quiet hooks, once the new services do not start and the old pointers are written
      back: the services are stopped exactly when restoring the old ones throws. */
  lemma StoppedExactly(d: Disk, op: Op)
    requires Healthy(d) && Quiet(op.hooks) && Target(d, op).To? && Proceeds(d, op) && Target(d, op) != d.current
    requires Throws(op.hooks.activate, SwitchedDisk(d, op)) && RestoringWrites(op)
    ensures var o := Perform(d, op);
      && o.receipt.Some?
      && o.receipt.value.servicesVerified == !Throws(Restoring(d, op), RestoredDisk(d, op))
      && (o.receipt.value.status.FailedSafeStop? <==> Throws(Restoring(d, op), RestoredDisk(d, op)))
      && (o.receipt.value.status.FailedRolledBack? <==> !Throws(Restoring(d, op), RestoredDisk(d, op)))
      && RestoredDisk(d, op) == Left(op.hooks.activate, SwitchedDisk(d, op))
                                  .(current := d.current, previous := d.previous, launcher := d.launcher)
      && var back := Left(Restoring(d, op), RestoredDisk(d, op));
         o.disk == if o.receipt.value.status.FailedSafeStop? then Left(op.hooks.safeStop, back) else back
  {
    EverySwitchIsReported(d, op);
    QuietDisks(d, op);
  }

  lemma QuietDisks(d: Disk, op: Op)
    requires Healthy(d) && Quiet(op.hooks) && Target(d, op).To? && Proceeds(d, op) && Target(d, op) != d.current
    requires RestoringWrites(op)
    ensures Stands(SwitchedDisk(d, op), Target(d, op), d.current) && Validates(SwitchedDisk(d, op), Target(d, op))
    ensures Stands(RestoredDisk(d, op), d.current, d.previous) && MayRestore(d, op)
    ensures Stands(Left(Restoring(d, op), RestoredDisk(d, op)), d.current, d.previous)
  {
    var a := Left(op.hooks.beforeSwitch, StagedDisk(d, op));
    assert a.installed == StagedDisk(d, op).installed;
    var e := SwitchedDisk(d, op);
    assert e.installed == a.installed && Untouched(e, Left(op.hooks.activate, e));
    assert RestoredDisk(d, op).installed == e.installed;
    assert Untouched(RestoredDisk(d, op), Left(Restoring(d, op), RestoredDisk(d, op)));
  }

  // ------------------------------------------------------------------ the steps

  function SnapshotOf(d: Disk): Snapshot {
    Snapshot(ReleaseOf(d.current), ReleaseOf(d.previous),
             if d.launcher.Regular? then Some(d.launcher.file) else None)
  }

  lemma SnapIs(d: Disk)
    ensures Snap(d) == if Stands(d, d.current, d.previous) then Some(SnapshotOf(d)) else None
  {}

  lemma StagedIs(d: Disk, op: Op)
    requires op.Install?
    ensures Staged(d, op.artifact, op.faults).throws <==> !Stages(d, op)
    ensures Stages(d, op) ==> Staged(d, op.artifact, op.faults).disk == StagedDisk(d, op)
  {}

  lemma AssertedIs(e: Disk, current: Option<Id>, previous: Option<Id>)
    ensures Asserted(e, current, previous) <==> Stands(e, Named(current), Named(previous))
  {}

  lemma PerformIs(d: Disk, op: Op)
    requires Begins(d, op)
    ensures var ready := Call(Progress(StagedDisk(d, op), [], true), op.hooks.beforeSwitch);
      Perform(d, op) ==
        if !ready.ok then
          Outcome(ready.disk, [],
                  Some(Receipt(FailedBeforeSwitch, Target(d, op).id, ReleaseOf(d.current), false, false)))
        else Transition(ready, op.hooks, op.faults, op.Install?, if op.Rollback? then RolledBack else Activated,
                        Target(d, op).id, SnapshotOf(d))
  {
    SnapIs(StagedDisk(d, op));
    if op.Install? { StagedIs(d, op); }
  }

  lemma SwitchIs(d: Disk, op: Op, p: Progress)
    requires Target(d, op).To? && Proceeds(d, op)
    requires p == Progress(Left(op.hooks.beforeSwitch, StagedDisk(d, op)), [], true)
    ensures var q := Switch(p, op.faults, op.Install?, Target(d, op).id, ReleaseOf(d.current));
      q.ok && q.disk == SwitchedDisk(d, op)
  {}

  lemma AttemptIs(d: Disk, op: Op, q: Progress)
    requires Target(d, op).To? && Proceeds(d, op) && q.ok && q.disk == SwitchedDisk(d, op)
    ensures var done := Attempt(q, op.hooks, Target(d, op).id, ReleaseOf(d.current));
      (done.ok <==> Starts(d, op)) && done.disk == TriedDisk(d, op)
  {
    AssertedIs(q.disk, Some(Target(d, op).id), ReleaseOf(d.current));
    AssertedIs(Left(op.hooks.activate, q.disk), Some(Target(d, op).id), ReleaseOf(d.current));
  }

  lemma RestoreIs(d: Disk, op: Op, p: Progress)
    requires Target(d, op).To? && Proceeds(d, op) && p.ok && p.disk == TriedDisk(d, op)
    ensures var q := Restore(p, op.faults, SnapshotOf(d));
      (q.ok <==> RestoringWrites(op)) && q.disk == RestoredDisk(d, op)
  {}

  lemma UndoIs(d: Disk, op: Op, p: Progress)
    requires Target(d, op).To? && Proceeds(d, op) && p.ok && p.disk == TriedDisk(d, op)
    ensures var back := Undo(p, op.hooks, op.faults, SnapshotOf(d));
      && (back.ok <==> Returns(d, op)) && back.disk == AbandonedDisk(d, op)
      && (back.ok ==> back.disk == Left(Restoring(d, op), RestoredDisk(d, op)))
  {
    RestoreIs(d, op, p);
    AssertedIs(RestoredDisk(d, op), ReleaseOf(d.current), ReleaseOf(d.previous));
    AssertedIs(Left(Restoring(d, op), RestoredDisk(d, op)), ReleaseOf(d.current), ReleaseOf(d.previous));
  }
}
