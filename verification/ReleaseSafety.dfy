/** What receipts mean, and what whole runs of installs and rollbacks keep. */
module ReleaseSafety {
  import opened Options
  import opened ReleaseSwitch

  // ------------------------------------------------------------------ receipts

  /** What a receipt says about the disk it was issued on, for an operation that began
      with pointers `current` and `previous`. */
  predicate Truthful(o: Outcome, current: Pointer, previous: Pointer) {
    o.receipt.Some? ==>
      var r := o.receipt.value;
      match r.status
      case Activated | RolledBack =>
        Names(o.disk, Some(r.releaseId), r.previousReleaseId) &&
        (if r.pointerSwitched then Named(r.previousReleaseId) == current
         else o.writes == [] && o.disk.current == current && o.disk.previous == previous)
      case FailedRolledBack =>
        Names(o.disk, ReleaseOf(current), ReleaseOf(previous)) && Named(r.previousReleaseId) == current
      case FailedBeforeSwitch => o.writes == []
      case FailedSafeStop => !r.servicesVerified
  }

  lemma TransitionTruth(p: Progress, hooks: Hooks, faults: set<Step>, launch: bool, success: Status, to: Id,
                        s: Snapshot)
    requires p.ok && (success.Activated? || success.RolledBack?)
    ensures Truthful(Transition(p, hooks, faults, launch, success, to, s), Named(s.current), Named(s.previous))
  {
    AssertedNames();
  }

  lemma AssertedNames()
    ensures forall d, current, previous :: Asserted(d, current, previous) ==> Names(d, current, previous)
  {}

  lemma SnapNames(d: Disk)
    requires Snap(d).Some?
    ensures Names(d, Snap(d).value.current, Snap(d).value.previous)
  {}

  /** Receipts tell the truth whatever the hooks do to the disk, whenever they throw and
      whichever of the manager's own writes fail. */
  lemma ReceiptsAreTruthful(d: Disk, op: Op)
    ensures Truthful(Perform(d, op), d.current, d.previous)
  {
    if op.Rollback? {
      RollbackTruth(d, op.hooks, op.faults);
    } else if !Staged(d, op.artifact, op.faults).throws {
      InstallTruth(Staged(d, op.artifact, op.faults).disk, op.artifact.value.id, op.hooks, op.faults);
    }
  }

  lemma InstallTruth(d: Disk, id: Id, hooks: Hooks, faults: set<Step>)
    ensures Truthful(InstallFrom(d, id, hooks, faults), d.current, d.previous)
  {
    if Snap(d).Some? {
      SnapNames(d);
      var ready := Call(Progress(d, [], true), hooks.beforeSwitch);
      if ready.ok { TransitionTruth(ready, hooks, faults, true, Activated, id, Snap(d).value); }
    }
  }

  lemma RollbackTruth(d: Disk, hooks: Hooks, faults: set<Step>)
    ensures Truthful(RollBack(d, hooks, faults), d.current, d.previous)
  {
    if Snap(d).Some? && Snap(d).value.previous.Some? {
      SnapNames(d);
      var ready := Call(Progress(d, [], true), hooks.beforeSwitch);
      if ready.ok {
        TransitionTruth(ready, hooks, faults, false, RolledBack, Snap(d).value.previous.value, Snap(d).value);
      }
    }
  }

  /** Two rollbacks that report success put both pointers back, whatever the hooks do,
      as long as nothing touches the pointers in between. */
  lemma TwoRollbacksAreIdentity(d: Disk, first: Op, between: Disk, second: Op)
    requires first.Rollback? && second.Rollback?
    requires Succeeded(Perform(d, first)) && Succeeded(Perform(between, second))
    requires between.current == Perform(d, first).disk.current && between.previous == Perform(d, first).disk.previous
    ensures Perform(between, second).disk.current == d.current && Perform(between, second).disk.previous == d.previous
  {
    RollbackSwaps(d, first);
    RollbackSwaps(between, second);
  }

  lemma RollbackSwaps(d: Disk, op: Op)
    requires op.Rollback? && Succeeded(Perform(d, op))
    ensures Perform(d, op).disk.current == d.previous && Perform(d, op).disk.previous == d.current
  {
    ReceiptsAreTruthful(d, op);
    SnapNames(d);
  }

  // -------------------------------------------------------------- every write

  /** Every write is one of six, each with a single possible content: the switch to `to`
      with the release of the start kept as previous, or the return to what was at the start. */
  predicate Careful(w: Change, start: Disk, to: Id) {
    match w.step
    case WriteLauncher => w.after == w.before.(launcher := Regular(LAUNCHER))
    case WritePrevious => w.after == w.before.(previous := start.current)
    case WriteCurrent => w.after == w.before.(current := To(to))
    case RestoreCurrent => w.after == w.before.(current := start.current)
    case RestorePrevious => w.after == w.before.(previous := start.previous)
    case RestoreLauncher => w.after == w.before.(launcher := start.launcher)
    case _ => false
  }

  predicate AllCareful(ws: seq<Change>, start: Disk, to: Id) {
    forall i :: 0 <= i < |ws| ==> Careful(ws[i], start, to)
  }

  function Target(d: Disk, op: Op): Pointer {
    if op.Rollback? then d.previous else if op.artifact.Some? then To(op.artifact.value.id) else Absent
  }

  /** Under any hooks and faults, every write puts the release asked for, or what was
      there at the start, and touches nothing else. */
  lemma WritesAreCareful(d: Disk, op: Op)
    ensures var o := Perform(d, op); o.writes != [] ==> Target(d, op).To? && AllCareful(o.writes, d, Target(d, op).id)
  {
    if op.Rollback? {
      if Snap(d).Some? && Snap(d).value.current.Some? && Snap(d).value.previous.Some? {
        CarefulFrom(d, d, op, false, RolledBack);
      }
    } else {
      var staged := Staged(d, op.artifact, op.faults);
      if !staged.throws && Snap(staged.disk).Some? { CarefulFrom(staged.disk, d, op, true, Activated); }
    }
  }

  /** `found` is the disk the snapshot is taken of. */
  lemma CarefulFrom(found: Disk, start: Disk, op: Op, launch: bool, success: Status)
    requires Snap(found).Some? && Pointers(found, start.current, start.previous) && found.launcher == start.launcher
    requires Target(start, op).To?
    ensures var ready := Call(Progress(found, [], true), op.hooks.beforeSwitch);
      var to := Target(start, op).id;
      ready.ok ==>
        AllCareful(Transition(ready, op.hooks, op.faults, launch, success, to, Snap(found).value).writes, start, to)
  {
    SnapNames(found);
    var ready := Call(Progress(found, [], true), op.hooks.beforeSwitch);
    if ready.ok {
      TransitionCareful(ready, op.hooks, op.faults, launch, success, Target(start, op).id, Snap(found).value, start);
    }
  }

  lemma PutCareful(p: Progress, step: Step, faults: set<Step>, next: Disk, start: Disk, to: Id)
    requires AllCareful(p.writes, start, to) && Careful(Change(step, p.disk, next), start, to)
    ensures AllCareful(Put(p, step, faults, next).writes, start, to)
  {}

  function OldLauncher(s: Snapshot): Launcher {
    if s.launcher.None? then Missing else Regular(s.launcher.value)
  }

  /** The snapshot is that of the start. */
  predicate Taken(s: Snapshot, start: Disk) {
    Pointers(start, Named(s.current), Named(s.previous)) && start.launcher == OldLauncher(s)
  }

  lemma TransitionCareful(p: Progress, hooks: Hooks, faults: set<Step>, launch: bool, success: Status, to: Id,
                          s: Snapshot,
                          start: Disk)
    requires p.ok && p.writes == [] && Taken(s, start)
    ensures AllCareful(Transition(p, hooks, faults, launch, success, to, s).writes, start, to)
  {
    var switched := Switch(p, faults, launch, to, s.current);
    SwitchCareful(p, faults, launch, to, s, start);
    if switched.ok {
      var done := Attempt(switched, hooks, to, s.current);
      assert done.writes == switched.writes;
      UndoCareful(done.(ok := true), hooks, faults, s, to, start);
    }
  }

  lemma SwitchCareful(p: Progress, faults: set<Step>, launch: bool, to: Id, s: Snapshot, start: Disk)
    requires AllCareful(p.writes, start, to) && Taken(s, start)
    ensures AllCareful(Switch(p, faults, launch, to, s.current).writes, start, to)
  {
    var a := if launch then Put(p, WriteLauncher, faults, p.disk.(launcher := Regular(LAUNCHER))) else p;
    PutCareful(p, WriteLauncher, faults, p.disk.(launcher := Regular(LAUNCHER)), start, to);
    var b := Put(a, WritePrevious, faults, a.disk.(previous := Named(s.current)));
    PutCareful(a, WritePrevious, faults, a.disk.(previous := Named(s.current)), start, to);
    PutCareful(b, WriteCurrent, faults, b.disk.(current := To(to)), start, to);
  }

  lemma UndoCareful(p: Progress, hooks: Hooks, faults: set<Step>, s: Snapshot, to: Id, start: Disk)
    requires AllCareful(p.writes, start, to) && Taken(s, start)
    ensures AllCareful(Undo(p, hooks, faults, s).writes, start, to)
  {
    var a := Put(p, RestoreCurrent, faults, p.disk.(current := Named(s.current)));
    PutCareful(p, RestoreCurrent, faults, p.disk.(current := Named(s.current)), start, to);
    var b := Put(a, RestorePrevious, faults, a.disk.(previous := Named(s.previous)));
    PutCareful(a, RestorePrevious, faults, a.disk.(previous := Named(s.previous)), start, to);
    PutCareful(b, RestoreLauncher, faults, b.disk.(launcher := OldLauncher(s)), start, to);
  }

  // ---------------------------------------------------------------- quiet hooks

  ghost predicate QuietHook(h: Option<Hook>) {
    h.Some? ==> forall d :: Untouched(d, h.value(d).disk)
  }

  predicate Untouched(d: Disk, e: Disk) {
    && e.current == d.current && e.previous == d.previous && e.installed == d.installed
    && (e.launcher.Irregular? ==> d.launcher.Irregular?)
  }

  /** The hooks may throw at will, but leave the pointers and the releases alone. */
  ghost predicate Quiet(hooks: Hooks) {
    && QuietHook(hooks.beforeSwitch) && QuietHook(hooks.activate)
    && QuietHook(hooks.restorePrior) && QuietHook(hooks.safeStop)
  }

  /** Both pointers lead to releases that validate, and name different ones; `previous`
      is never alone. */
  predicate Healthy(d: Disk) {
    && (d.current.Absent? || (d.current.To? && Loads(d, d.current.id)))
    && (d.previous.Absent? || (d.previous.To? && Loads(d, d.previous.id)))
    && (d.current == d.previous ==> d.current.Absent?)
    && (d.current.Absent? ==> d.previous.Absent?)
    && !d.launcher.Irregular?
  }

  /** How a switch ends. */
  datatype End = Unmoved | Halfway | Switched | Stuck | HalfRestored | Restored

  function EndOf(p: Progress, hooks: Hooks, faults: set<Step>, launch: bool, to: Id, previous: Option<Id>): End {
    if (launch && WriteLauncher in faults) || WritePrevious in faults then Unmoved
    else if WriteCurrent in faults then Halfway
    else if Call(Switch(p, faults, launch, to, previous), hooks.activate).ok then Switched
    else if RestoreCurrent in faults then Stuck
    else if RestorePrevious in faults then HalfRestored
    else Restored
  }

  predicate Pointers(d: Disk, current: Pointer, previous: Pointer) {
    d.current == current && d.previous == previous
  }

  predicate Reaches(d: Disk, e: End, before: Disk, to: Id) {
    match e
    case Unmoved | Restored => Pointers(d, before.current, before.previous)
    case Switched | Stuck => Pointers(d, To(to), before.current)
    case Halfway | HalfRestored => Pointers(d, before.current, before.current)
  }

  predicate Starts(p: Progress, to: Id, s: Snapshot) {
    && p.ok && Healthy(p.disk) && Loads(p.disk, to) && p.disk.current != To(to)
    && p.disk.current == Named(s.current) && p.disk.previous == Named(s.previous)
  }

  lemma QuietSwitch(p: Progress, faults: set<Step>, launch: bool, to: Id, s: Snapshot)
    requires Starts(p, to, s)
    ensures var q := Switch(p, faults, launch, to, s.current);
      && q.disk.installed == p.disk.installed && !q.disk.launcher.Irregular?
      && q.disk.previous ==
         (if (launch && WriteLauncher in faults) || WritePrevious in faults then p.disk.previous else p.disk.current)
      && q.ok == ((launch ==> WriteLauncher !in faults) && WritePrevious !in faults && WriteCurrent !in faults)
      && q.disk.current == if q.ok then To(to) else p.disk.current
  {}

  lemma QuietAttempt(q: Progress, hooks: Hooks, to: Id, previous: Option<Id>)
    requires q.ok && Quiet(hooks) && Names(q.disk, Some(to), previous) && Loads(q.disk, to)
    requires !q.disk.launcher.Irregular?
    ensures var done := Attempt(q, hooks, to, previous);
      done.ok == Call(q, hooks.activate).ok && Untouched(q.disk, done.disk)
  {}

  /** Undoing writes back as much as the faults allow. */
  lemma QuietUndo(q: Progress, hooks: Hooks, faults: set<Step>, s: Snapshot)
    requires q.ok && Quiet(hooks) && !q.disk.launcher.Irregular?
    ensures var back := Undo(q, hooks, faults, s);
      && back.disk.installed == q.disk.installed && !back.disk.launcher.Irregular?
      && back.disk.current == (if RestoreCurrent in faults then q.disk.current else Named(s.current))
      && back.disk.previous ==
         (if RestoreCurrent in faults || RestorePrevious in faults then q.disk.previous else Named(s.previous))
      && (back.ok ==> RestoreCurrent !in faults && RestorePrevious !in faults)
  {
    var r := Restore(q, faults, s);
    var c := Check(r, s.current, s.previous);
    var t := RestoreServices(c, hooks, s);
    assert Untouched(r.disk, t.disk);
  }

  lemma QuietTransition(p: Progress, hooks: Hooks, faults: set<Step>, launch: bool, success: Status, to: Id,
                        s: Snapshot)
    requires Starts(p, to, s) && Quiet(hooks) && (success.Activated? || success.RolledBack?)
    ensures var o := Transition(p, hooks, faults, launch, success, to, s);
            var e := EndOf(p, hooks, faults, launch, to, s.current);
      && Reaches(o.disk, e, p.disk, to) && o.disk.installed == p.disk.installed && !o.disk.launcher.Irregular?
      && (Succeeded(o) <==> e.Switched?)
      && (e.Switched? ==> o.receipt == Some(Receipt(success, to, s.current, true, true)))
  {
    var q := Switch(p, faults, launch, to, s.current);
    QuietSwitch(p, faults, launch, to, s);
    if q.ok {
      QuietAttempt(q, hooks, to, s.current);
      var done := Attempt(q, hooks, to, s.current);
      if !done.ok {
        QuietUndo(done.(ok := true), hooks, faults, s);
      }
    }
  }

  // ----------------------------------------------------------- one quiet operation

  /** What the hook before the switch leaves, or where the staging stopped. */
  function Ready(d: Disk, op: Op): Progress {
    var start := if op.Rollback? then Effect(d, false) else Staged(d, op.artifact, op.faults);
    if start.throws then Progress(start.disk, [], false)
    else Call(Progress(start.disk, [], true), op.hooks.beforeSwitch)
  }

  /** The artifact becomes, or already is, the release directory of its id. */
  predicate Stages(d: Disk, op: Op) {
    op.Install? ==>
      && op.artifact.Some?
      && var id := op.artifact.value.id;
         if id in d.installed then d.installed[id] == Release(op.artifact) else op.faults !! {Stage, Seal}
  }

  function StagedDisk(d: Disk, op: Op): Disk {
    if op.Install? && op.artifact.Some? && op.artifact.value.id !in d.installed
    then d.(installed := d.installed[op.artifact.value.id := Release(op.artifact)]) else d
  }

  predicate Throws(hook: Option<Hook>, d: Disk) { hook.Some? && hook.value(d).throws }

  function Left(hook: Option<Hook>, d: Disk): Disk { if hook.Some? then hook.value(d).disk else d }

  /** There is another release to switch to, it is staged, and `beforeSwitch` agrees. */
  predicate ComesToSwitch(d: Disk, op: Op) {
    && Target(d, op).To? && Target(d, op) != d.current
    && Stages(d, op) && !Throws(op.hooks.beforeSwitch, StagedDisk(d, op))
  }

  /** The disk on which the new release is activated. */
  function SwitchedDisk(d: Disk, op: Op): Disk {
    var before := Left(op.hooks.beforeSwitch, StagedDisk(d, op));
    before.(launcher := if op.Install? then Regular(LAUNCHER) else before.launcher,
            previous := d.current, current := Target(d, op))
  }

  /** How the operation ends, None when it does not come to a switch: told by the writes
      that fail, and by whether the services of the new release start. */
  function Ending(d: Disk, op: Op): Option<End> {
    if !ComesToSwitch(d, op) then None
    else if (op.Install? && WriteLauncher in op.faults) || WritePrevious in op.faults then Some(Unmoved)
    else if WriteCurrent in op.faults then Some(Halfway)
    else if !Throws(op.hooks.activate, SwitchedDisk(d, op)) then Some(Switched)
    else if RestoreCurrent in op.faults then Some(Stuck)
    else if RestorePrevious in op.faults then Some(HalfRestored)
    else Some(Restored)
  }

  /** That is how the manager's own steps run. */
  lemma EndingIs(d: Disk, op: Op)
    requires Healthy(d)
    ensures ComesToSwitch(d, op) <==> Target(d, op).To? && Target(d, op) != d.current && Ready(d, op).ok
    ensures ComesToSwitch(d, op) ==>
      var e := EndOf(Ready(d, op), op.hooks, op.faults, op.Install?, Target(d, op).id, ReleaseOf(d.current));
      Ending(d, op) == Some(e)
  {
    if ComesToSwitch(d, op) && op.faults !! {WriteLauncher, WritePrevious, WriteCurrent} { SwitchedIs(d, op); }
    if ComesToSwitch(d, op) && op.Rollback? && op.faults !! {WritePrevious, WriteCurrent} { SwitchedIs(d, op); }
  }

  lemma SwitchedIs(d: Disk, op: Op)
    requires Healthy(d) && ComesToSwitch(d, op) && op.faults !! {WritePrevious, WriteCurrent}
    requires op.Install? ==> WriteLauncher !in op.faults
    ensures Ready(d, op).ok
    ensures var q := Switch(Ready(d, op), op.faults, op.Install?, Target(d, op).id, ReleaseOf(d.current));
      q.ok && q.disk == SwitchedDisk(d, op)
  {}

  predicate Grows(d: Disk, e: Disk) {
    forall id :: id in d.installed ==> id in e.installed && e.installed[id] == d.installed[id]
  }

  lemma HealthySnap(d: Disk)
    requires Healthy(d)
    ensures Snap(d).Some? && Named(Snap(d).value.current) == d.current && Named(Snap(d).value.previous) == d.previous
  {}

  lemma StagingKeeps(d: Disk, artifact: Option<Manifest>, faults: set<Step>)
    requires Healthy(d)
    ensures var e := Staged(d, artifact, faults);
      && Healthy(e.disk) && Grows(d, e.disk) && Pointers(e.disk, d.current, d.previous)
      && (!e.throws ==> artifact.Some? && Loads(e.disk, artifact.value.id))
  {}

  /** Pointers and verdict are those of the ending; no release is lost. */
  predicate Predicted(d: Disk, op: Op, o: Outcome) {
    && Grows(d, o.disk) && !o.disk.launcher.Irregular?
    && (Succeeded(o) <==> Ending(d, op) == Some(Switched))
    && (Succeeded(o) ==> Named(Some(o.receipt.value.releaseId)) == Target(d, op))
    && if Ending(d, op).None? then Pointers(o.disk, d.current, d.previous)
       else Reaches(o.disk, Ending(d, op).value, d, Target(d, op).id) && Loads(o.disk, Target(d, op).id)
  }

  /** Under quiet hooks and any faults, the pointers and the verdict of an operation are
      those of its ending. */
  lemma QuietOperation(d: Disk, op: Op)
    requires Healthy(d) && Quiet(op.hooks)
    ensures Predicted(d, op, Perform(d, op))
  {
    if op.Rollback? { QuietRollback(d, op); } else { QuietInstall(d, op); }
  }

  lemma QuietRollback(d: Disk, op: Op)
    requires Healthy(d) && Quiet(op.hooks) && op.Rollback?
    ensures Predicted(d, op, Perform(d, op))
  {
    EndingIs(d, op);
    HealthySnap(d);
    if d.previous.To? && Ready(d, op).ok {
      QuietTransition(Ready(d, op), op.hooks, op.faults, false, RolledBack, d.previous.id, Snap(d).value);
    }
  }

  lemma QuietInstall(d: Disk, op: Op)
    requires Healthy(d) && Quiet(op.hooks) && op.Install?
    ensures Predicted(d, op, Perform(d, op))
  {
    EndingIs(d, op);
    var staged := Staged(d, op.artifact, op.faults);
    StagingKeeps(d, op.artifact, op.faults);
    HealthySnap(staged.disk);
    if !staged.throws && d.current != Target(d, op) && Ready(d, op).ok {
      QuietTransition(Ready(d, op), op.hooks, op.faults, true, Activated, op.artifact.value.id,
                      Snap(staged.disk).value);
    }
  }

  /** With a release to come from, the write of `current` fails right after `previous` was
      written, on the way in or, once the new services do not start, on the way back. */
  predicate HalfWritten(d: Disk, op: Op) {
    && d.current.To? && ComesToSwitch(d, op)
    && WritePrevious !in op.faults && (op.Install? ==> WriteLauncher !in op.faults)
    && (WriteCurrent in op.faults
        || (Throws(op.hooks.activate, SwitchedDisk(d, op))
            && RestoreCurrent !in op.faults && RestorePrevious in op.faults))
  }

  lemma HealthyAfter(before: Disk, after: Disk, e: Option<End>, to: Id)
    requires Healthy(before) && Grows(before, after) && !after.launcher.Irregular?
    requires if e.None? then Pointers(after, before.current, before.previous)
      else Reaches(after, e.value, before, to) && Loads(after, to) && before.current != To(to)
    ensures Healthy(after) <==> before.current.Absent? || (e != Some(Halfway) && e != Some(HalfRestored))
  {}

  lemma HealthByEnding(d: Disk, op: Op)
    requires Healthy(d) && Quiet(op.hooks)
    ensures Healthy(Perform(d, op).disk) <==>
      d.current.Absent? || (Ending(d, op) != Some(Halfway) && Ending(d, op) != Some(HalfRestored))
  {
    QuietOperation(d, op);
    var e := Ending(d, op);
    HealthyAfter(d, Perform(d, op).disk, e, if e.Some? then Target(d, op).id else "");
  }

  lemma HalfWrittenIs(d: Disk, op: Op)
    requires Healthy(d)
    ensures HalfWritten(d, op) <==>
      d.current.To? && (Ending(d, op) == Some(Halfway) || Ending(d, op) == Some(HalfRestored))
  {}

  /** That is the one way to leave both pointers on the same release. */
  lemma HealthIsKeptExactly(d: Disk, op: Op)
    requires Healthy(d) && Quiet(op.hooks)
    ensures Healthy(Perform(d, op).disk) <==> !HalfWritten(d, op)
  {
    HealthByEnding(d, op);
    HalfWrittenIs(d, op);
  }

  const NO_HOOKS := Hooks(None, None, None, None)

  /** Installing "b" over "a" when the write of `current` fails: both pointers name "a",
      and there is no receipt. */
  lemma HalfWrittenInstall()
    ensures var a, b := Manifest("a", ""), Manifest("b", "");
      var d := Disk(To("a"), Absent, Regular(LAUNCHER), map["a" := Release(Some(a))]);
      var o := Perform(d, Install(Some(b), NO_HOOKS, {WriteCurrent}));
      Healthy(d) && o.receipt.None? && o.disk.current == To("a") && o.disk.previous == To("a")
  {
    var a, b := Manifest("a", ""), Manifest("b", "");
    var d := Disk(To("a"), Absent, Regular(LAUNCHER), map["a" := Release(Some(a))]);
    var op := Install(Some(b), NO_HOOKS, {WriteCurrent});
    assert "a" != "b" && Healthy(d);
    assert Ending(d, op) == Some(Halfway);
    QuietOperation(d, op);
    NoReceipt(d, op);
  }

  /** A failing write of the switch itself is thrown on: there is no receipt. */
  lemma NoReceipt(d: Disk, op: Op)
    requires Healthy(d) && (Ending(d, op) == Some(Halfway) || Ending(d, op) == Some(Unmoved))
    ensures Perform(d, op).receipt.None?
  {
    EndingIs(d, op);
    if op.Install? { StagingKeeps(d, op.artifact, op.faults); }
  }

  // ------------------------------------------------------------ between the writes

  /** `current` leads to the release of the start, or to the one asked for. */
  predicate OldOrNew(e: Disk, d: Disk, to: Id) {
    && (e.current == d.current || e.current == To(to))
    && (e.current.Absent? || (e.current.To? && Loads(e, e.current.id)))
  }

  predicate Sits(e: Disk, base: Disk, to: Id) {
    (e.current == base.current || e.current == To(to)) && e.installed == base.installed
  }

  predicate AllSit(p: Progress, base: Disk, to: Id) {
    && Sits(p.disk, base, to)
    && forall i :: 0 <= i < |p.writes| ==> Sits(p.writes[i].before, base, to) && Sits(p.writes[i].after, base, to)
  }

  lemma PutSits(p: Progress, step: Step, faults: set<Step>, next: Disk, base: Disk, to: Id)
    requires AllSit(p, base, to) && Sits(next, base, to)
    ensures AllSit(Put(p, step, faults, next), base, to)
  {}

  lemma SwitchSits(p: Progress, faults: set<Step>, launch: bool, to: Id, previous: Option<Id>, base: Disk)
    requires AllSit(p, base, to)
    ensures AllSit(Switch(p, faults, launch, to, previous), base, to)
  {
    var a := if launch then Put(p, WriteLauncher, faults, p.disk.(launcher := Regular(LAUNCHER))) else p;
    PutSits(p, WriteLauncher, faults, p.disk.(launcher := Regular(LAUNCHER)), base, to);
    var b := Put(a, WritePrevious, faults, a.disk.(previous := Named(previous)));
    PutSits(a, WritePrevious, faults, a.disk.(previous := Named(previous)), base, to);
    PutSits(b, WriteCurrent, faults, b.disk.(current := To(to)), base, to);
  }

  lemma RestoreSits(p: Progress, faults: set<Step>, s: Snapshot, base: Disk, to: Id)
    requires AllSit(p, base, to) && Named(s.current) == base.current
    ensures AllSit(Restore(p, faults, s), base, to)
  {
    var a := Put(p, RestoreCurrent, faults, p.disk.(current := Named(s.current)));
    PutSits(p, RestoreCurrent, faults, p.disk.(current := Named(s.current)), base, to);
    var b := Put(a, RestorePrevious, faults, a.disk.(previous := Named(s.previous)));
    PutSits(a, RestorePrevious, faults, a.disk.(previous := Named(s.previous)), base, to);
    var launcher := if s.launcher.None? then Missing else Regular(s.launcher.value);
    PutSits(b, RestoreLauncher, faults, b.disk.(launcher := launcher), base, to);
  }

  lemma CallSits(p: Progress, hook: Option<Hook>, base: Disk, to: Id)
    requires AllSit(p, base, to) && QuietHook(hook)
    ensures AllSit(Call(p, hook), base, to)
  {}

  lemma AttemptSits(p: Progress, hooks: Hooks, previous: Option<Id>, base: Disk, to: Id)
    requires AllSit(p, base, to) && Quiet(hooks)
    ensures AllSit(Attempt(p, hooks, to, previous), base, to)
  {
    CallSits(Check(p, Some(to), previous), hooks.activate, base, to);
  }

  lemma UndoSits(p: Progress, hooks: Hooks, faults: set<Step>, s: Snapshot, base: Disk, to: Id)
    requires AllSit(p, base, to) && Quiet(hooks) && Named(s.current) == base.current
    ensures AllSit(Undo(p, hooks, faults, s), base, to)
  {
    RestoreSits(p, faults, s, base, to);
    var r := Check(Restore(p, faults, s), s.current, s.previous);
    CallSits(r, hooks.restorePrior, base, to);
    CallSits(r, hooks.activate, base, to);
  }

  lemma TransitionSits(p: Progress, hooks: Hooks, faults: set<Step>, launch: bool, success: Status, to: Id, s: Snapshot)
    requires p.ok && p.writes == [] && Quiet(hooks) && Named(s.current) == p.disk.current
    ensures var o := Transition(p, hooks, faults, launch, success, to, s);
      AllSit(Progress(o.disk, o.writes, true), p.disk, to)
  {
    var switched := Switch(p, faults, launch, to, s.current);
    SwitchSits(p, faults, launch, to, s.current, p.disk);
    if switched.ok {
      AttemptSits(switched, hooks, s.current, p.disk, to);
      var done := Attempt(switched, hooks, to, s.current).(ok := true);
      UndoSits(done, hooks, faults, s, p.disk, to);
      CallSits(Undo(done, hooks, faults, s).(ok := true), hooks.safeStop, p.disk, to);
    }
  }

  /** Whichever hook throws and whichever write fails: before and after each write, so also
      when the process dies there, `current` leads to the old release or to the new one. */
  lemma CurrentNeverDangles(d: Disk, op: Op)
    requires Healthy(d) && Quiet(op.hooks)
    ensures var o := Perform(d, op);
      forall i :: 0 <= i < |o.writes| ==>
        && Target(d, op).To? && OldOrNew(o.writes[i].before, d, Target(d, op).id)
        && OldOrNew(o.writes[i].after, d, Target(d, op).id)
  {
    EndingIs(d, op);
    if Ending(d, op).Some? {
      var ready := Ready(d, op);
      var base := if op.Rollback? then d else Staged(d, op.artifact, op.faults).disk;
      if op.Install? { StagingKeeps(d, op.artifact, op.faults); }
      HealthySnap(base);
      var success := if op.Rollback? then RolledBack else Activated;
      TransitionSits(ready, op.hooks, op.faults, op.Install?, success, Target(d, op).id, Snap(base).value);
      SitsIsOldOrNew(ready.disk, d, Target(d, op).id);
    } else {
      NoWrites(d, op);
    }
  }

  lemma NoWrites(d: Disk, op: Op)
    requires Healthy(d) && Ending(d, op).None?
    ensures Perform(d, op).writes == []
  {
    EndingIs(d, op);
    if op.Install? { StagingKeeps(d, op.artifact, op.faults); }
  }

  lemma SitsIsOldOrNew(base: Disk, d: Disk, to: Id)
    requires Healthy(base) && base.current == d.current && Loads(base, to)
    ensures forall e :: Sits(e, base, to) ==> OldOrNew(e, d, to)
  {}

  /** The hooks may move pointers and the launcher, but remove no release. */
  ghost predicate KeepsReleases(hooks: Hooks) {
    && KeepsInstalled(hooks.beforeSwitch) && KeepsInstalled(hooks.activate)
    && KeepsInstalled(hooks.restorePrior) && KeepsInstalled(hooks.safeStop)
  }

  ghost predicate KeepsInstalled(h: Option<Hook>) {
    h.Some? ==> forall d :: h.value(d).disk.installed == d.installed
  }

  predicate Keeping(p: Progress, base: Disk) {
    && p.disk.installed == base.installed
    && forall i :: 0 <= i < |p.writes| ==> p.writes[i].after.installed == base.installed
  }

  lemma PutKeeping(p: Progress, step: Step, faults: set<Step>, next: Disk, base: Disk)
    requires Keeping(p, base) && next.installed == base.installed
    ensures Keeping(Put(p, step, faults, next), base)
  {}

  lemma SwitchKeeping(p: Progress, faults: set<Step>, launch: bool, to: Id, previous: Option<Id>, base: Disk)
    requires Keeping(p, base)
    ensures Keeping(Switch(p, faults, launch, to, previous), base)
  {
    var a := if launch then Put(p, WriteLauncher, faults, p.disk.(launcher := Regular(LAUNCHER))) else p;
    PutKeeping(p, WriteLauncher, faults, p.disk.(launcher := Regular(LAUNCHER)), base);
    var b := Put(a, WritePrevious, faults, a.disk.(previous := Named(previous)));
    PutKeeping(a, WritePrevious, faults, a.disk.(previous := Named(previous)), base);
    PutKeeping(b, WriteCurrent, faults, b.disk.(current := To(to)), base);
  }

  lemma CallKeeping(p: Progress, hook: Option<Hook>, base: Disk)
    requires Keeping(p, base) && KeepsInstalled(hook)
    ensures Keeping(Call(p, hook), base)
  {}

  lemma UndoKeeping(p: Progress, hooks: Hooks, faults: set<Step>, s: Snapshot, base: Disk)
    requires Keeping(p, base) && KeepsReleases(hooks)
    ensures Keeping(Undo(p, hooks, faults, s), base)
  {
    var a := Put(p, RestoreCurrent, faults, p.disk.(current := Named(s.current)));
    PutKeeping(p, RestoreCurrent, faults, p.disk.(current := Named(s.current)), base);
    var b := Put(a, RestorePrevious, faults, a.disk.(previous := Named(s.previous)));
    PutKeeping(a, RestorePrevious, faults, a.disk.(previous := Named(s.previous)), base);
    PutKeeping(b, RestoreLauncher, faults, b.disk.(launcher := OldLauncher(s)), base);
    var r := Check(Restore(p, faults, s), s.current, s.previous);
    CallKeeping(r, hooks.restorePrior, base);
    CallKeeping(r, hooks.activate, base);
  }

  lemma TransitionKeeping(p: Progress, hooks: Hooks, faults: set<Step>, launch: bool, success: Status, to: Id,
                          s: Snapshot,
                          base: Disk)
    requires p.ok && Keeping(p, base) && KeepsReleases(hooks)
    ensures var o := Transition(p, hooks, faults, launch, success, to, s);
      Keeping(Progress(o.disk, o.writes, true), base)
  {
    var switched := Switch(p, faults, launch, to, s.current);
    SwitchKeeping(p, faults, launch, to, s.current, base);
    if switched.ok {
      CallKeeping(Check(switched, Some(to), s.current), hooks.activate, base);
      var done := Attempt(switched, hooks, to, s.current).(ok := true);
      UndoKeeping(done, hooks, faults, s, base);
      CallKeeping(Undo(done, hooks, faults, s).(ok := true), hooks.safeStop, base);
    }
  }

  /** Even if hooks move the pointers: every write of `current` leads to the old release, or
      to the new one, or removes the pointer where there was none. */
  lemma CurrentWritesResolve(d: Disk, op: Op)
    requires Healthy(d) && KeepsReleases(op.hooks)
    ensures forall i :: 0 <= i < |Perform(d, op).writes| ==>
      var w := Perform(d, op).writes[i];
      w.step.WriteCurrent? || w.step.RestoreCurrent? ==> Target(d, op).To? && OldOrNew(w.after, d, Target(d, op).id)
  {
    WritesAreCareful(d, op);
    HealthySnap(d);
    var staged := if op.Rollback? then Effect(d, false) else Staged(d, op.artifact, op.faults);
    if op.Install? { StagingKeeps(d, op.artifact, op.faults); }
    var ready := Call(Progress(staged.disk, [], true), op.hooks.beforeSwitch);
    if Perform(d, op).writes != [] {
      HealthySnap(staged.disk);
      TransitionKeeping(ready, op.hooks, op.faults, op.Install?, if op.Rollback? then RolledBack else Activated,
                        Target(d, op).id, Snap(staged.disk).value, staged.disk);
    }
  }

  // ---------------------------------------------------------------------- runs

  function Last(ids: seq<Id>): Pointer {
    if ids == [] then Absent else To(ids[|ids| - 1])
  }

  function SecondLast(ids: seq<Id>): Pointer {
    if |ids| < 2 then Absent else To(ids[|ids| - 2])
  }

  /** The pointers stand for the end of a list of switches. */
  predicate Tells(d: Disk, ids: seq<Id>) {
    Pointers(d, Last(ids), SecondLast(ids))
  }

  predicate NoRepeat(ids: seq<Id>) {
    forall i :: 0 < i < |ids| ==> ids[i - 1] != ids[i]
  }

  predicate Recorded(d: Disk, ids: seq<Id>) {
    Healthy(d) && Tells(d, ids) && NoRepeat(ids)
  }

  /** A pointer was moved, and no receipt says so: the switch is left half written, or the
      new services do not start and the old pointers cannot be written back. */
  predicate Unreported(d: Disk, op: Op) {
    HalfWritten(d, op) || Ending(d, op) == Some(Stuck)
  }

  /** Of one operation under quiet hooks, however its writes fail: the pointers are still the
      last two reported switches exactly when nothing is left unreported. */
  lemma OperationTellsExactly(d: Disk, op: Op, ids: seq<Id>)
    requires Recorded(d, ids) && Quiet(op.hooks)
    ensures Recorded(Perform(d, op).disk, ids + Switches(d, [op])) <==> !Unreported(d, op)
  {
    QuietOperation(d, op);
    HealthIsKeptExactly(d, op);
    OneSwitch(d, op);
    var more := Switches(d, [op]);
    if Ending(d, op) == Some(Switched) {
      LastMore(ids, Perform(d, op).receipt.value.releaseId);
    } else {
      assert ids + more == ids;
    }
  }

  lemma LastMore(ids: seq<Id>, id: Id)
    ensures Last(ids + [id]) == To(id) && SecondLast(ids + [id]) == Last(ids)
    ensures NoRepeat(ids + [id]) <==> NoRepeat(ids) && Last(ids) != To(id)
  {
    if NoRepeat(ids + [id]) {
      forall i | 0 < i < |ids| ensures ids[i - 1] != ids[i] {
        assert (ids + [id])[i - 1] == ids[i - 1] && (ids + [id])[i] == ids[i];
      }
      assert ids != [] ==> (ids + [id])[|ids| - 1] != (ids + [id])[|ids|];
    }
  }

  lemma OneSwitch(d: Disk, op: Op)
    ensures Switches(d, [op]) == if Succeeded(Perform(d, op)) then [Perform(d, op).receipt.value.releaseId] else []
  {
    var none: seq<Op> := [];
    assert [op][1..] == none && Switches(Perform(d, op).disk, none) == [];
  }

  lemma RunsFirst(d: Disk, ops: seq<Op>, ids: seq<Id>)
    requires ops != []
    ensures var next := Perform(d, ops[0]).disk;
      && RunOps(d, ops) == RunOps(next, ops[1..])
      && ids + Switches(d, ops) == (ids + Switches(d, [ops[0]])) + Switches(next, ops[1..])
  {
    OneSwitch(d, ops[0]);
    assert Switches(d, ops) == Switches(d, [ops[0]]) + Switches(Perform(d, ops[0]).disk, ops[1..]);
  }

  /** Quiet hooks, and no operation leaves anything unreported. */
  ghost predicate Calm(d: Disk, ops: seq<Op>)
    decreases |ops|
  {
    ops != [] ==> Quiet(ops[0].hooks) && !Unreported(d, ops[0]) && Calm(Perform(d, ops[0]).disk, ops[1..])
  }

  lemma CalmFirst(d: Disk, ops: seq<Op>)
    requires Calm(d, ops) && ops != []
    ensures Quiet(ops[0].hooks) && !Unreported(d, ops[0]) && Calm(Perform(d, ops[0]).disk, ops[1..])
  {}

  lemma {:induction false} RunTells(d: Disk, ops: seq<Op>, ids: seq<Id>)
    requires Recorded(d, ids) && Calm(d, ops)
    ensures Recorded(RunOps(d, ops), ids + Switches(d, ops))
    decreases |ops|
  {
    if ops == [] {
      assert ids + [] == ids;
    } else {
      RunsFirst(d, ops, ids);
      CalmFirst(d, ops);
      OperationTellsExactly(d, ops[0], ids);
      RunTells(Perform(d, ops[0]).disk, ops[1..], ids + Switches(d, [ops[0]]));
    }
  }

  /** After every such run of installs and rollbacks, however the hooks throw, `current` and
      `previous` are the last two releases that a receipt reported as switched to; both
      lead to releases that validate, and they differ. */
  lemma PointersAreTheLastTwoSwitches(ops: seq<Op>)
    requires Calm(FRESH, ops)
    ensures var d := RunOps(FRESH, ops);
      Tells(d, Switches(FRESH, ops)) && Healthy(d) && NoRepeat(Switches(FRESH, ops))
  {
    RunTells(FRESH, ops, []);
    assert [] + Switches(FRESH, ops) == Switches(FRESH, ops);
  }
}
