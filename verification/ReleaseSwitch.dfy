/** Installing and rolling back releases (packages/release/src/manager.ts): two
    pointers and a launcher, written in order and undone when activation fails. */
module ReleaseSwitch {
  import opened Options

  type Id = string

  datatype Manifest = Manifest(id: Id, body: string)

  /** A path under the releases directory: a release directory, whose manifest is None
      when it does not validate, or something that is not a directory. */
  datatype Entry = Release(manifest: Option<Manifest>) | Blocked

  /** Unsafe stands for whatever is not a link to a well-formed release id. */
  datatype Pointer = Absent | To(id: Id) | Unsafe

  datatype File = File(contents: string, mode: nat)

  datatype Launcher = Missing | Regular(file: File) | Irregular

  datatype Disk = Disk(current: Pointer, previous: Pointer, launcher: Launcher, installed: map<Id, Entry>)

  /** What a hook does to the disk, and whether it throws. */
  datatype Effect = Effect(disk: Disk, throws: bool)

  type Hook = Disk -> Effect

  datatype Hooks = Hooks(
    beforeSwitch: Option<Hook>, activate: Option<Hook>, restorePrior: Option<Hook>, safeStop: Option<Hook>)

  /** The steps at which the manager's own file operations can fail. */
  datatype Step =
    | Stage | Seal
    | WriteLauncher | WritePrevious | WriteCurrent
    | RestoreCurrent | RestorePrevious | RestoreLauncher

  datatype Status = Activated | RolledBack | FailedBeforeSwitch | FailedRolledBack | FailedSafeStop

  datatype Receipt = Receipt(
    status: Status,
    releaseId: Id,
    previousReleaseId: Option<Id>,
    pointerSwitched: bool,
    servicesVerified: bool)

  datatype Snapshot = Snapshot(current: Option<Id>, previous: Option<Id>, launcher: Option<File>)

  /** One write of the manager. */
  datatype Change = Change(step: Step, before: Disk, after: Disk)

  /** An operation under way; `ok` is false from a throw on. */
  datatype Progress = Progress(disk: Disk, writes: seq<Change>, ok: bool)

  /** The receipt is None when the operation throws. */
  datatype Outcome = Outcome(disk: Disk, writes: seq<Change>, receipt: Option<Receipt>)

  datatype Op =
    | Install(artifact: Option<Manifest>, hooks: Hooks, faults: set<Step>)
    | Rollback(hooks: Hooks, faults: set<Step>)

  // ------------------------------------------------------------------- reading

  predicate Resolves(d: Disk, id: Id) {
    id in d.installed && d.installed[id].Release?
  }

  /** pointerReleaseId returns instead of throwing. */
  predicate Readable(d: Disk, p: Pointer) {
    p.Absent? || (p.To? && Resolves(d, p.id))
  }

  function Named(id: Option<Id>): Pointer {
    if id.None? then Absent else To(id.value)
  }

  function ReleaseOf(p: Pointer): Option<Id> {
    if p.To? then Some(p.id) else None
  }

  /** `#snapshot`; None when it throws. */
  function Snap(d: Disk): Option<Snapshot> {
    if Readable(d, d.current) && Readable(d, d.previous) && !d.launcher.Irregular? then
      Some(Snapshot(ReleaseOf(d.current), ReleaseOf(d.previous),
                    if d.launcher.Missing? then None else Some(d.launcher.file)))
    else None
  }

  /** The pointers are exactly these, and lead to release directories. */
  predicate Names(d: Disk, current: Option<Id>, previous: Option<Id>) {
    && d.current == Named(current) && Readable(d, d.current)
    && d.previous == Named(previous) && Readable(d, d.previous)
  }

  /** `#assertPointers` does not throw. */
  predicate Asserted(d: Disk, current: Option<Id>, previous: Option<Id>) {
    Snap(d).Some? && Snap(d).value.current == current && Snap(d).value.previous == previous
  }

  /** validateReleaseArtifact accepts the installed directory. */
  predicate Loads(d: Disk, id: Id) {
    Resolves(d, id) && d.installed[id].manifest.Some?
  }

  // ------------------------------------------------------------------- writing

  function Put(p: Progress, step: Step, faults: set<Step>, next: Disk): Progress {
    if !p.ok then p
    else if step in faults then p.(ok := false)
    else Progress(next, p.writes + [Change(step, p.disk, next)], true)
  }

  const LAUNCHER := File("localink", 0x1C0)

  /** The writes between `beforeSwitch` and the first check. */
  function Switch(p: Progress, faults: set<Step>, launch: bool, current: Id, previous: Option<Id>): Progress {
    var p := if launch then Put(p, WriteLauncher, faults, p.disk.(launcher := Regular(LAUNCHER))) else p;
    var p := Put(p, WritePrevious, faults, p.disk.(previous := Named(previous)));
    Put(p, WriteCurrent, faults, p.disk.(current := To(current)))
  }

  /** `#restorePointers` */
  function Restore(p: Progress, faults: set<Step>, s: Snapshot): Progress {
    var p := Put(p, RestoreCurrent, faults, p.disk.(current := Named(s.current)));
    var p := Put(p, RestorePrevious, faults, p.disk.(previous := Named(s.previous)));
    Put(p, RestoreLauncher, faults,
        p.disk.(launcher := if s.launcher.None? then Missing else Regular(s.launcher.value)))
  }

  function Check(p: Progress, current: Option<Id>, previous: Option<Id>): Progress {
    p.(ok := p.ok && Asserted(p.disk, current, previous))
  }

  function Call(p: Progress, hook: Option<Hook>): Progress {
    if !p.ok || hook.None? then p
    else Progress(hook.value(p.disk).disk, p.writes, !hook.value(p.disk).throws)
  }

  /** `#activate` */
  function Activate(p: Progress, hooks: Hooks, id: Id): Progress {
    if p.ok && !Loads(p.disk, id) then p.(ok := false) else Call(p, hooks.activate)
  }

  /** `#restorePriorServices` */
  function RestoreServices(p: Progress, hooks: Hooks, s: Snapshot): Progress {
    if hooks.restorePrior.Some? then Call(p, hooks.restorePrior)
    else if s.current.Some? then Activate(p, hooks, s.current.value)
    else p
  }

  /** The switched pointers are checked, the services activated, the pointers checked again. */
  function Attempt(p: Progress, hooks: Hooks, current: Id, previous: Option<Id>): Progress {
    Check(Activate(Check(p, Some(current), previous), hooks, current), Some(current), previous)
  }

  function Undo(p: Progress, hooks: Hooks, faults: set<Step>, s: Snapshot): Progress {
    Check(RestoreServices(Check(Restore(p, faults, s), s.current, s.previous), hooks, s), s.current, s.previous)
  }

  /** What `install` and `rollback` do once `beforeSwitch` has returned. */
  function Transition(p: Progress, hooks: Hooks, faults: set<Step>, launch: bool, success: Status, to: Id,
                      s: Snapshot): Outcome {
    var switched := Switch(p, faults, launch, to, s.current);
    if !switched.ok then Outcome(switched.disk, switched.writes, None)
    else
      var done := Attempt(switched, hooks, to, s.current);
      if done.ok then
        Outcome(done.disk, done.writes, Some(Receipt(success, to, s.current, true, true)))
      else
        var back := Undo(done.(ok := true), hooks, faults, s);
        if back.ok then
          Outcome(back.disk, back.writes, Some(Receipt(FailedRolledBack, to, s.current, true, true)))
        else
          var stopped := Call(back.(ok := true), hooks.safeStop);
          Outcome(stopped.disk, stopped.writes, Some(Receipt(FailedSafeStop, to, s.current, true, false)))
  }

  /** The part of `install` before the snapshot: the artifact becomes a release directory. */
  function Staged(d: Disk, artifact: Option<Manifest>, faults: set<Step>): Effect {
    if artifact.None? then Effect(d, true)
    else
      var m := artifact.value;
      if m.id in d.installed then Effect(d, d.installed[m.id] != Release(Some(m)))
      else if Stage in faults then Effect(d, true)
      else Effect(d.(installed := d.installed[m.id := Release(Some(m))]), Seal in faults)
  }

  function InstallFrom(staged: Disk, id: Id, hooks: Hooks, faults: set<Step>): Outcome {
    var snapshot := Snap(staged);
    if snapshot.None? then Outcome(staged, [], None)
    else if snapshot.value.current == Some(id) then
      Outcome(staged, [], Some(Receipt(Activated, id, snapshot.value.previous, false, true)))
    else
      var ready := Call(Progress(staged, [], true), hooks.beforeSwitch);
      if !ready.ok then
        Outcome(ready.disk, [], Some(Receipt(FailedBeforeSwitch, id, snapshot.value.current, false, false)))
      else Transition(ready, hooks, faults, true, Activated, id, snapshot.value)
  }

  function RollBack(d: Disk, hooks: Hooks, faults: set<Step>): Outcome {
    var snapshot := Snap(d);
    if snapshot.None? || snapshot.value.current.None? || snapshot.value.previous.None? then Outcome(d, [], None)
    else
      var to := snapshot.value.previous.value;
      if !Loads(d, to) then Outcome(d, [], None)
      else
        var ready := Call(Progress(d, [], true), hooks.beforeSwitch);
        if !ready.ok then
          Outcome(ready.disk, [], Some(Receipt(FailedBeforeSwitch, to, snapshot.value.current, false, false)))
        else Transition(ready, hooks, faults, false, RolledBack, to, snapshot.value)
  }

  function Perform(d: Disk, op: Op): Outcome {
    if op.Rollback? then RollBack(d, op.hooks, op.faults)
    else
      var staged := Staged(d, op.artifact, op.faults);
      if staged.throws then Outcome(staged.disk, [], None)
      else InstallFrom(staged.disk, op.artifact.value.id, op.hooks, op.faults)
  }

  function RunOps(d: Disk, ops: seq<Op>): Disk
    decreases |ops|
  {
    if ops == [] then d else RunOps(Perform(d, ops[0]).disk, ops[1..])
  }

  /** The operation says that it switched to the release of its receipt. */
  predicate Succeeded(o: Outcome) {
    && o.receipt.Some? && o.receipt.value.pointerSwitched
    && (o.receipt.value.status.Activated? || o.receipt.value.status.RolledBack?)
  }

  /** The releases switched to, in order, according to the receipts. */
  function Switches(d: Disk, ops: seq<Op>): seq<Id>
    decreases |ops|
  {
    if ops == [] then []
    else
      var o := Perform(d, ops[0]);
      (if Succeeded(o) then [o.receipt.value.releaseId] else []) + Switches(o.disk, ops[1..])
  }

  const FRESH := Disk(Absent, Absent, Missing, map[])
}
