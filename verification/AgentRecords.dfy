/** What each handler of the agent manager leaves in the record of its task, field by
    field and status by status. */
module AgentRecords {
  import opened Options
  import opened AgentLifecycle
  import opened AgentInvariants
  import opened AgentRecovery

  /** The status says how the official turn ended. */
  predicate EndedAs(s: Status, e: Ending) {
    && (s.Completed? <==> e.TurnCompleted?)
    && (s.Failed? <==> e.TurnFailed?)
    && (s.Cancelled? <==> e.TurnInterrupted?)
  }

  /** The status is also that of the task, and final. */
  predicate Closed(t: Task, e: Ending) {
    EndedAs(t.status, e) && t.taskStatus == t.status && t.terminal
  }

  // ------------------------------------------------------------- startup recovery

  /** After startup, a task whose process is gone and that ended with confirmed integrity
      has the status of its official turn. */
  lemma StartupRecordsEndings(io: Io, raw: map<Ref, RawTask>, disk: Tasks, writes: nat, order: seq<Ref>,
                              gone: Ref -> bool, official: Official, r: Ref)
    requires Lists(order, raw.Keys) && Reopened(raw, gone, r)
    requires var w := Startup(io, raw, disk, writes, order, gone, official);
      w.up && r in w.tasks && w.tasks[r].integrity.Confirmed?
    ensures var t := Startup(io, raw, disk, writes, order, gone, official).tasks[r];
      && official.available && raw[r].thread.Some? && raw[r].turn.Some? && official.ending(r).Some?
      && EndedAs(t.status, official.ending(r).value) && t.terminal
  {
    StartupConverges(io, raw, disk, writes, order, gone, official);
  }

  /** With writes that land, each such task that has an official ending is recorded with it. */
  lemma StartupFindsEndings(io: Io, raw: map<Ref, RawTask>, disk: Tasks, writes: nat, order: seq<Ref>,
                            gone: Ref -> bool, official: Official, r: Ref)
    requires Lists(order, raw.Keys) && Reopened(raw, gone, r) && forall k :: io(k).Landed?
    requires official.available && raw[r].thread.Some? && raw[r].turn.Some? && official.ending(r).Some?
    ensures var w := Startup(io, raw, disk, writes, order, gone, official);
      && w.up && r in w.tasks && w.tasks[r].integrity.Confirmed?
      && EndedAs(w.tasks[r].status, official.ending(r).value)
  {
    StartupConverges(io, raw, disk, writes, order, gone, official);
    assert AllLanded(io, writes, |order| + 1);
  }

  /** What an older record leaves open. */
  function WasReleased(t: RawTask): bool {
    match t.officialReleased
    case Some(b) => b
    case None => t.terminal
  }

  function WasFree(t: RawTask): bool {
    match t.repoWriterReleased
    case Some(b) => b
    case None =>
      match t.writerReleased
      case Some(b) => b
      case None => WasReleased(t)
  }

  /** What startup leaves of a task that it does not finalize. */
  lemma StartupLeaves(io: Io, raw: map<Ref, RawTask>, disk: Tasks, writes: nat, order: seq<Ref>, gone: Ref -> bool,
                      official: Official, r: Ref)
    requires Lists(order, raw.Keys) && r in raw && !Reopened(raw, gone, r)
    requires Startup(io, raw, disk, writes, order, gone, official).up
    ensures var w := Startup(io, raw, disk, writes, order, gone, official);
      r in w.tasks && Left(raw[r], gone(r), w.tasks[r])
  {
    StartupConverges(io, raw, disk, writes, order, gone, official);
    RecoveredLeft(raw[r], gone(r));
    var w := Startup(io, raw, disk, writes, order, gone, official);
    assert Converged(RecoverTask(Normalize(raw[r]), gone(r)), w.tasks[r], false, AllLanded(io, writes, |order| + 1),
                     official, r);
  }

  lemma RecoveredLeft(raw: RawTask, gone: bool)
    requires raw.terminal || (raw.pid.Some? && !gone)
    ensures Left(raw, gone, RecoverTask(Normalize(raw), gone))
  {}

  predicate Left(raw: RawTask, gone: bool, t: Task) {
    var held := raw.pid.Some? && !gone;
    && t.repo == raw.repo && t.workspace == raw.workspace && t.thread == raw.thread && t.turn == raw.turn
    && t.terminal == raw.terminal && t.archived == raw.archived
    && (raw.terminal ==> t.status == raw.status && t.integrity == raw.integrity)
    && (!raw.terminal ==> t.status.Unknown? && t.integrity.Uncertain? && t.authorization.NotKnown?)
    && (held ==> t.pid == raw.pid && t.serverState.ReleasePending? && !t.officialReleased && !t.repoWriterReleased)
    && (!held && !WasReleased(raw) ==>
          t.pid.None? && t.serverState.Stopped? && t.officialReleased && t.repoWriterReleased)
    && (!held && WasReleased(raw) ==> t.officialReleased && t.repoWriterReleased == WasFree(raw) && t.pid == raw.pid)
  }

  // ------------------------------------------------------------------- sessions

  /** The record after its session was let go. */
  function Stopping(t: Task): Task {
    t.(serverState := Stopped, pid := None, officialReleased := true, repoWriterReleased := true,
       writerReleased := true, taskStatus := t.status, desktopHistoryReady := t.terminal && !t.archived)
  }

  /** The record of a session that did not close. */
  function Pending(t: Task): Task {
    t.(serverState := ReleasePending, officialReleased := false, repoWriterReleased := false, writerReleased := false,
       integrity := Uncertain, taskStatus := t.status, desktopHistoryReady := false)
  }

  /** With writes that land: the session is gone and its task stopped when the process tree
      exits; otherwise both stay, the lock held and the release pending. */
  lemma ReleaseRecords(io: Io, w: World, r: Ref, closes: bool)
    requires r in w.sessions && r in w.tasks && io(w.writes).Landed? && io(w.writes + 1).Landed?
    ensures var (w', ok) := Release(io, w, r, closes);
      && ok && r in w'.tasks && w'.disk == w'.tasks
      && (closes ==> w'.sessions == w.sessions - {r} && w'.tasks[r] == Stopping(w.tasks[r]))
      && (!closes ==> w'.sessions == w.sessions && w'.tasks[r] == Pending(w.tasks[r]))
  {}

  /** A release without a session only records it. */
  lemma ReleaseAgainRecords(io: Io, w: World, r: Ref, closes: bool)
    requires r !in w.sessions && r in w.tasks && io(w.writes).Landed?
    ensures var w' := Release(io, w, r, closes).0;
      w'.sessions == w.sessions && r in w'.tasks && w'.tasks[r] == Stopping(w.tasks[r])
  {}

  // ---------------------------------------------------------------- turn endings

  /** The first write of a terminal record and the two of its release land. */
  ghost predicate ThreeLand(io: Io, n: nat) { io(n).Landed? && io(n + 1).Landed? && io(n + 2).Landed? }

  /** A turn that ended, as the live thread shows it: recorded, and the session let go. */
  lemma RefreshRecordsEnding(io: Io, w: World, r: Ref, e: Ending, closes: bool)
    requires r in w.tasks && r in w.sessions && ThreeLand(io, w.writes)
    requires w.tasks[r].thread.Some? && !w.tasks[r].archived && !w.tasks[r].terminal
    ensures var w' := Refresh(io, w, r, TurnEnded(e), closes).0;
      && r in w'.tasks && Closed(w'.tasks[r], e)
      && (closes ==> w'.tasks[r].integrity.Confirmed? && w'.tasks[r].repoWriterReleased && r !in w'.sessions)
      && (!closes ==> w'.tasks[r].integrity.Uncertain? && !w'.tasks[r].repoWriterReleased && r in w'.sessions)
  {
    var c := NOTHING.(status := Some(Mapped(e)), terminal := Some(true), repoWriterReleased := Some(false),
                      officialReleased := Some(false), serverState := Some(TearingDown), integrity := Some(Confirmed));
    var w1 := Change(io, w, r, c).0;
    assert RecordTerminal(io, w, r, Mapped(e), closes) == Release(io, w1, r, closes);
    ReleaseRecords(io, w1, r, closes);
  }

  lemma RefreshReports(io: Io, w: World, r: Ref, e: Ending, closes: bool)
    requires r in w.tasks && r in w.sessions && ThreeLand(io, w.writes)
    requires w.tasks[r].thread.Some? && !w.tasks[r].archived && !w.tasks[r].terminal
    ensures Refresh(io, w, r, TurnEnded(e), closes).1
  {
    var c := NOTHING.(status := Some(Mapped(e)), terminal := Some(true), repoWriterReleased := Some(false),
                      officialReleased := Some(false), serverState := Some(TearingDown), integrity := Some(Confirmed));
    ReleaseRecords(io, Change(io, w, r, c).0, r, closes);
    assert RecordTerminal(io, w, r, Mapped(e), closes) == Release(io, Change(io, w, r, c).0, r, closes);
  }

  /** Other readings of the live thread. */
  lemma RefreshRecordsOther(io: Io, w: World, r: Ref, reading: Reading, closes: bool)
    requires r in w.tasks && !reading.TurnEnded? && io(w.writes).Landed?
    requires w.tasks[r].thread.Some? && !w.tasks[r].archived && !w.tasks[r].terminal
    ensures var (w', ok) := Refresh(io, w, r, reading, closes);
      && r in w'.tasks && w'.sessions == w.sessions
      && (reading.Unreadable? ==> !ok && w' == w)
      && (reading.NoTurn? || reading.StrangeStatus? ==>
            ok && w'.tasks[r].status.Unknown? && w'.tasks[r].integrity.Uncertain?)
      && (reading.InProgress? && w.tasks[r].status.Unknown? && !reading.approvalPending ==>
            ok && w'.tasks[r].status.Running? && w'.tasks[r].integrity.Confirmed?)
      && (reading.InProgress? && (!w.tasks[r].status.Unknown? || reading.approvalPending) ==> ok && w' == w)
  {}

  /** A notification that the recorded turn is over. */
  lemma TurnRecordsEnding(io: Io, w: World, r: Ref, ending: Option<Ending>, closes: bool)
    requires r in w.tasks && r in w.sessions && !w.tasks[r].terminal && ThreeLand(io, w.writes)
    ensures var w' := TurnNotification(io, w, r, ending, closes);
      && r in w'.tasks
      && (ending.Some? ==> Closed(w'.tasks[r], ending.value))
      && (ending.None? ==> w'.tasks[r].status.Unknown? && !w'.tasks[r].terminal)
      && (closes <==> w'.tasks[r].repoWriterReleased) && (closes <==> r !in w'.sessions)
  {
    var s := if ending.Some? then Mapped(ending.value) else Unknown;
    var c := NOTHING.(status := Some(s), terminal := Some(IsTerminal(s)), repoWriterReleased := Some(false),
                      officialReleased := Some(false), serverState := Some(TearingDown),
                      integrity := Some(if s.Unknown? then Uncertain else Confirmed));
    var w1 := Change(io, w, r, c).0;
    assert TurnNotification(io, w, r, ending, closes) == Release(io, w1, r, closes).0;
    ReleaseRecords(io, w1, r, closes);
  }

  /** A released task, finalized: with confirmed integrity it has the status of its official
      turn, otherwise it failed. */
  predicate Finalized(before: Task, after: Task, official: Official, r: Ref) {
    && after.terminal && after.taskStatus == after.status
    && (after.integrity.Confirmed? ==>
          && official.available && official.ending(r).Some? && before.thread.Some? && before.turn.Some?
          && EndedAs(after.status, official.ending(r).value))
    && (!after.integrity.Confirmed? ==> after.integrity.RecoveryFailed? && after.status.Failed?)
  }

  lemma FinalizeRecords(io: Io, w: World, r: Ref, official: Official)
    requires r in w.tasks && Candidate(w, r)
    ensures var w' := Finalize(io, w, [r], official).0;
      && (r in w'.tasks && w'.tasks[r].terminal ==> Finalized(w.tasks[r], w'.tasks[r], official, r))
      && (io(w.writes).Landed? ==> r in w'.tasks && w'.tasks[r].terminal)
      && (io(w.writes).Landed? && Resolvable(w.tasks[r], official, r) ==> w'.tasks[r].integrity.Confirmed?)
  {
    FinalizeOne(io, w, r, official);
  }

  /** A crash that ends its task records it so. */
  lemma CrashRecordsEnding(io: Io, w: World, r: Ref, official: Official)
    requires Inv(w) && r in w.sessions && !w.tasks[r].authorization.Revoked? && !w.tasks[r].terminal
    requires CrashWritesLand(io, w.writes, w.tasks[r], official, r)
    ensures var w' := HandleCrash(io, w, r, true, official);
      Freed(w', r) && Finalized(w.tasks[r], w'.tasks[r], official, r)
  {
    var t := w.tasks[r];
    CrashConvergesExactly(io, w, r, true, official);
    HandleCrashMarks(io, w, r, true, official);
    var w1 := Change(io, w, r, CrashMark(t)).0;
    ReleaseIs(io, w1, r);
    FinalizeRecords(io, Release(io, w1, r, true).0, r, official);
  }

  /** If every write lands, a crash finds the official ending where there is one. */
  lemma CrashFindsEnding(io: Io, w: World, r: Ref, official: Official)
    requires Inv(w) && r in w.sessions && !w.tasks[r].authorization.Revoked? && !w.tasks[r].terminal
    requires ThreeLand(io, w.writes) && io(w.writes + 3).Landed?
    requires official.available && official.ending(r).Some? && w.tasks[r].thread.Some? && w.tasks[r].turn.Some?
    ensures var w' := HandleCrash(io, w, r, true, official);
      r in w'.tasks && Closed(w'.tasks[r], official.ending(r).value) && w'.tasks[r].integrity.Confirmed?
  {
    HandleCrashMarks(io, w, r, true, official);
    var w1 := Change(io, w, r, CrashMark(w.tasks[r])).0;
    ReleaseIs(io, w1, r);
    FinalizeOne(io, Release(io, w1, r, true).0, r, official);
  }

  /** `cancel` of a live task: when the turn can be interrupted, what the thread then shows
      is recorded, an interrupted turn as cancelled. */
  lemma CancelRecordsEnding(io: Io, w: World, r: Ref, e: Ending, closes: bool, official: Official)
    requires r in w.tasks && r in w.sessions && !w.tasks[r].terminal && !w.tasks[r].archived
    requires w.tasks[r].thread.Some? && w.tasks[r].turn.Some? && ThreeLand(io, w.writes)
    ensures var w' := Cancel(io, w, r, true, TurnEnded(e), closes, official); r in w'.tasks && Closed(w'.tasks[r], e)
  {
    RefreshRecordsEnding(io, w, r, e, closes);
  }

  /** `cancel` of a released task that has not ended: it ends. */
  lemma CancelFinalizes(io: Io, w: World, r: Ref, interrupts: bool, reading: Reading, closes: bool, official: Official)
    requires r in w.tasks && r !in w.sessions && io(w.writes).Landed?
    requires !w.tasks[r].terminal && w.tasks[r].pid.None? && w.tasks[r].serverState.Stopped?
    requires w.tasks[r].officialReleased && w.tasks[r].repoWriterReleased
    ensures var w' := Cancel(io, w, r, interrupts, reading, closes, official);
      r in w'.tasks && Finalized(w.tasks[r], w'.tasks[r], official, r)
  {
    FinalizeRecords(io, w, r, official);
  }

  /** `show` and `wait` read the live thread, and are uncertain where it cannot be read. */
  lemma InspectRecords(io: Io, w: World, r: Ref, reading: Reading, closes: bool)
    requires r in w.tasks && r in w.sessions && ThreeLand(io, w.writes) && w.tasks[r].thread.Some?
    requires !w.tasks[r].terminal && !w.tasks[r].archived && w.tasks[r].serverState.ServerRunning?
    ensures var w' := Inspect(io, w, r, reading, closes);
      && r in w'.tasks
      && (reading.TurnEnded? ==> Closed(w'.tasks[r], reading.ending))
      && (reading.Unreadable? || reading.NoTurn? || reading.StrangeStatus? ==>
            w'.tasks[r].status.Unknown? && w'.tasks[r].integrity.Uncertain?)
  {
    if reading.TurnEnded? {
      RefreshRecordsEnding(io, w, r, reading.ending, closes);
      RefreshReports(io, w, r, reading.ending, closes);
    } else {
      RefreshRecordsOther(io, w, r, reading, closes);
    }
  }

  // ------------------------------------------------------------------ start, send

  /** A task that starts: its session is live, it runs the turn of the answer on the thread
      of the answer, and holds the lock. */
  lemma StartRecords(io: Io, w: World, r: Ref, repo: Repo, workspace: Workspace, l: Launch, closes: bool)
    requires w.up && r !in w.tasks && r !in w.sessions && AllLanded(io, w.writes, 6)
    requires forall s :: s in w.tasks && w.tasks[s].repo == repo ==>
      w.tasks[s].archived || w.tasks[s].repoWriterReleased
    requires l.server.Some? && l.model && l.thread.Some? && l.turn.Some?
    ensures var w' := Start(io, w, r, repo, workspace, l, closes);
      && w'.up && w'.sessions == w.sessions + {r} && w'.disk == w'.tasks
      && w'.tasks == w.tasks[r := Task(repo, workspace, l.thread, l.turn, Running, Running, false, false, false,
                                       ServerRunning, l.server.value, false, false, false, Authorized, Confirmed)]
  {
    LandingStart(io, w, r, repo, workspace, l);
    assert !Conflict(w.tasks, r, repo);
  }

  lemma LandingStart(io: Io, w: World, r: Ref, repo: Repo, workspace: Workspace, l: Launch)
    requires AllLanded(io, w.writes, 6) && r !in w.sessions
    requires l.server.Some? && l.model && l.thread.Some? && l.turn.Some?
    ensures var w1 := Commit(io, w, w.tasks[r := Initial(repo, workspace)]).0;
      var tasks := w.tasks[r := Task(repo, workspace, l.thread, l.turn, Running, Running, false, false, false,
                                     ServerRunning, l.server.value, false, false, false, Authorized, Confirmed)];
      && Commit(io, w, w.tasks[r := Initial(repo, workspace)]).1
      && LaunchTurn(io, w1, r, l) == (World(w.up, tasks, tasks, w.sessions + {r}, w.writes + 6), Done)
  {
    assert io(w.writes).Landed? && io(w.writes + 1).Landed? && io(w.writes + 2).Landed?;
    assert io(w.writes + 3).Landed? && io(w.writes + 4).Landed? && io(w.writes + 5).Landed?;
    var w1 := Commit(io, w, w.tasks[r := Initial(repo, workspace)]).0;
    var open := w1.(sessions := w.sessions + {r});
    var c := NOTHING.(serverState := Some(ServerRunning), pid := Some(l.server.value), officialReleased := Some(false));
    var w2 := Landing(io, open, r, c);
    var w3 := Landing(io, w2, r, NOTHING);
    var w4 := Landing(io, w3, r, NOTHING.(thread := l.thread));
    var w5 := Landing(io, w4, r, NOTHING);
    var w6 := Landing(io, w5, r, NOTHING.(turn := l.turn, status := Some(Running)));
    assert CreateSession(io, w1, r, l.server) == (w2, true);
    assert Begin(io, w4, r, l) == (w6, Done);
    assert LaunchTurn(io, w1, r, l) == Begin(io, w4, r, l);
    assert w6.tasks == w.tasks[r := w6.tasks[r]];
    assert w6.tasks[r] == Task(repo, workspace, l.thread, l.turn, Running, Running, false, false, false,
                               ServerRunning, l.server.value, false, false, false, Authorized, Confirmed);
  }

  /** A change whose write lands. */
  lemma Landing(io: Io, w: World, r: Ref, c: Changes) returns (next: World)
    requires r in w.tasks && io(w.writes).Landed?
    ensures Change(io, w, r, c) == (next, true) && next.tasks == w.tasks[r := Changed(w.tasks[r], c)] == next.disk
    ensures next.up == w.up && next.sessions == w.sessions && next.writes == w.writes + 1
  {
    next := Change(io, w, r, c).0;
  }

  /** A start that finds no model fails for good, and lets its session go. */
  lemma StartRecordsFailure(io: Io, w: World, r: Ref, repo: Repo, workspace: Workspace, l: Launch, closes: bool)
    requires w.up && r !in w.tasks && r !in w.sessions && !Conflict(w.tasks, r, repo) && AllLanded(io, w.writes, 5)
    requires l.server.Some? && !l.model
    ensures var w' := Start(io, w, r, repo, workspace, l, closes);
      && r in w'.tasks && w'.tasks[r].status.Failed? && w'.tasks[r].terminal && w'.tasks[r].repo == repo
      && (closes <==> w'.tasks[r].repoWriterReleased) && (closes <==> r !in w'.sessions)
  {
    assert io(w.writes).Landed? && io(w.writes + 1).Landed? && io(w.writes + 2).Landed?;
    assert io(w.writes + 3).Landed? && io(w.writes + 4).Landed?;
    var w1 := Commit(io, w, w.tasks[r := Initial(repo, workspace)]).0;
    var open := w1.(sessions := w.sessions + {r});
    var c := NOTHING.(serverState := Some(ServerRunning), pid := Some(l.server.value), officialReleased := Some(false));
    var w2 := Landing(io, open, r, c);
    var w3 := Landing(io, w2, r, NOTHING.(status := Some(Failed), terminal := Some(true)));
    assert LaunchTurn(io, w1, r, l) == (w2, BeforeTurn);
    ReleaseRecords(io, w3, r, closes);
  }

  /** A start whose turn is not answered for is uncertain, and keeps its session and lock. */
  lemma StartRecordsUncertainty(io: Io, w: World, r: Ref, repo: Repo, workspace: Workspace, l: Launch, closes: bool)
    requires w.up && r !in w.tasks && r !in w.sessions && !Conflict(w.tasks, r, repo) && AllLanded(io, w.writes, 6)
    requires l.server.Some? && l.model && l.thread.Some? && l.turn.None?
    ensures var w' := Start(io, w, r, repo, workspace, l, closes);
      && r in w'.tasks && r in w'.sessions && w'.tasks[r].status.Unknown? && w'.tasks[r].integrity.Uncertain?
      && !w'.tasks[r].terminal && !w'.tasks[r].repoWriterReleased && w'.tasks[r].thread == l.thread
  {
    assert io(w.writes).Landed? && io(w.writes + 1).Landed? && io(w.writes + 2).Landed?;
    assert io(w.writes + 3).Landed? && io(w.writes + 4).Landed? && io(w.writes + 5).Landed?;
    var w1 := Commit(io, w, w.tasks[r := Initial(repo, workspace)]).0;
    var open := w1.(sessions := w.sessions + {r});
    var c := NOTHING.(serverState := Some(ServerRunning), pid := Some(l.server.value), officialReleased := Some(false));
    var w2 := Landing(io, open, r, c);
    var w3 := Landing(io, w2, r, NOTHING);
    var w4 := Landing(io, w3, r, NOTHING.(thread := l.thread));
    var w5 := Landing(io, w4, r, NOTHING);
    assert Begin(io, w4, r, l) == (w5, AfterTurn);
    assert LaunchTurn(io, w1, r, l) == Begin(io, w4, r, l);
    var w6 := Landing(io, w5, r, UNCERTAIN);
  }

  /** Another task that holds the lock of the repository refuses the start. */
  lemma StartRefuses(io: Io, w: World, r: Ref, other: Ref, repo: Repo, workspace: Workspace, l: Launch, closes: bool)
    requires other in w.tasks && w.tasks[other].repo == repo && !w.tasks[other].archived
    requires !w.tasks[other].repoWriterReleased && other != r
    ensures Start(io, w, r, repo, workspace, l, closes) == w
  {
    assert Holds(w.tasks[other]);
  }

  /** A released task that is resumed: its session is live, it runs the turn of the answer,
      and holds the lock again. */
  lemma SendRecords(io: Io, w: World, r: Ref, resume: Resume, closes: bool, official: Official)
    requires r in w.tasks && r !in w.sessions && AllLanded(io, w.writes, 3)
    requires var t := w.tasks[r];
      && t.authorization.Authorized? && t.thread.Some? && !t.archived && !t.integrity.RecoveryFailed?
      && t.officialReleased && t.repoWriterReleased && (t.terminal || t.status.Unknown?)
    requires forall s :: s in w.tasks && s != r && w.tasks[s].repo == w.tasks[r].repo ==>
      w.tasks[s].archived || w.tasks[s].repoWriterReleased
    requires resume.server.Some? && resume.resumes && resume.turn.Some?
    ensures var w' := Send(io, w, r, Access(true, true), Disabled, resume, closes, official);
      var t := w.tasks[r];
      && w'.sessions == w.sessions + {r} && w'.disk == w'.tasks
      && w'.tasks == w.tasks[r := t.(turn := resume.turn, status := Running, taskStatus := Running, terminal := false,
           writerReleased := false, repoWriterReleased := false, serverState := ServerRunning,
           pid := resume.server.value, officialReleased := false, desktopHistoryReady := false)]
  {
    assert io(w.writes).Landed? && io(w.writes + 1).Landed? && io(w.writes + 2).Landed?;
    assert !Conflict(w.tasks, r, w.tasks[r].repo);
    ResumeLands(io, w, r, resume, closes, official);
  }

  lemma ResumeLands(io: Io, w: World, r: Ref, resume: Resume, closes: bool, official: Official)
    requires r in w.tasks && r !in w.sessions && ThreeLand(io, w.writes)
    requires resume.server.Some? && resume.resumes && resume.turn.Some?
    ensures var t := w.tasks[r];
      var w1 := Acquire(io, w, w.tasks[r := Resumed(t)]).0;
      var w' := SendTurn(io, w1, r, resume, closes, official);
      && w'.sessions == w.sessions + {r} && w'.disk == w'.tasks
      && w'.tasks == w.tasks[r := t.(turn := resume.turn, status := Running, taskStatus := Running, terminal := false,
           writerReleased := false, repoWriterReleased := false, serverState := ServerRunning,
           pid := resume.server.value, officialReleased := false, desktopHistoryReady := false)]
  {
    var t := w.tasks[r];
    var w1 := Acquire(io, w, w.tasks[r := Resumed(t)]).0;
    var c :=
      NOTHING.(serverState := Some(ServerRunning), pid := Some(resume.server.value), officialReleased := Some(false));
    var w2 := Landing(io, w1.(sessions := w.sessions + {r}), r, c);
    var w3 := Landing(io, w2, r, NOTHING.(turn := resume.turn, status := Some(Running)));
    assert CreateSession(io, w1, r, resume.server) == (w2, true);
    assert SendTurn(io, w1, r, resume, closes, official) == w3;
    assert w3.tasks == w.tasks[r := w3.tasks[r]];
  }

  // ------------------------------------------- authorize, reconcile, archive, revoke

  /** A resolved workspace authorizes, an unresolved one revokes; revoked is revoked. */
  lemma AuthorizeRecords(io: Io, w: World, r: Ref, access: Access)
    requires r in w.tasks && io(w.writes).Landed?
    ensures var (w', ok) := Authorize(io, w, r, access);
      && (ok <==> access.granted && !w.tasks[r].authorization.Revoked?)
      && r in w'.tasks && w'.sessions == w.sessions
      && (ok ==> w'.tasks[r].authorization.Authorized?) && (!ok ==> w'.tasks[r].authorization.Revoked?)
      && w'.tasks[r].status == w.tasks[r].status && w'.tasks[r].repoWriterReleased == w.tasks[r].repoWriterReleased
  {}

  /** Reconciling records what the listing says of a thread without a session. */
  lemma ReconcileRecords(io: Io, w: World, r: Ref, archived: Ref -> Option<bool>)
    requires r in w.tasks && r !in w.sessions && w.tasks[r].thread.Some? && io(w.writes).Landed?
    ensures var (w', ok) := Reconcile(io, w, [r], Listed(archived));
      && ok && r in w'.tasks && w'.disk == w'.tasks && w'.sessions == w.sessions
      && w'.tasks[r].archived == archived(r).Or(w.tasks[r].archived)
      && w'.tasks[r].status == w.tasks[r].status && w'.tasks[r].repoWriterReleased == w.tasks[r].repoWriterReleased
  {
    ReconcileOne(io, w, r, archived);
  }

  /** `archive` marks just the task that has ended and is released. */
  lemma ArchiveRecords(io: Io, w: World, r: Ref)
    requires r in w.tasks && w.tasks[r].thread.Some? && io(w.writes).Landed?
    ensures var w' := Archive(io, w, r, Disabled, true);
      if w.tasks[r].terminal && w.tasks[r].officialReleased
      then r in w'.tasks && w'.tasks[r].archived && (!w'.tasks[r].desktopHistoryReady || w' == w)
      else w' == w
  {}

  /** Revoking a live task cancels it, unless it had ended, and lets its session go. */
  lemma RevokeRecords(io: Io, w: World, r: Ref, closes: bool)
    requires r in w.tasks && r in w.sessions && AllLanded(io, w.writes, 4)
    ensures var w' := RevokeTask(io, w, r, closes).0;
      && r in w'.tasks && w'.tasks[r].authorization.Revoked? && w'.tasks[r].terminal
      && w'.tasks[r].status == (if w.tasks[r].terminal then w.tasks[r].status else Cancelled)
      && (closes <==> w'.tasks[r].repoWriterReleased) && (closes <==> r !in w'.sessions)
      && (!closes ==> w'.tasks[r].serverState.ReleasePending?)
  {
    assert io(w.writes).Landed? && io(w.writes + 1).Landed? && io(w.writes + 2).Landed? && io(w.writes + 3).Landed?;
    var w1 := Change(io, w, r, DENIED).0;
    ReleaseRecords(io, w1, r, closes);
    ReleaseRecords(io, Change(io, w1, r, CANCELLED).0, r, closes);
  }

  /** Revoking a task without a session cancels and frees it. */
  lemma RevokeRecordsReleased(io: Io, w: World, r: Ref, closes: bool)
    requires r in w.tasks && r !in w.sessions && ThreeLand(io, w.writes)
    ensures var w' := RevokeTask(io, w, r, closes).0;
      && r in w'.tasks && w'.tasks[r].authorization.Revoked? && w'.tasks[r].terminal
      && w'.tasks[r].status == (if w.tasks[r].terminal then w.tasks[r].status else Cancelled)
      && w'.tasks[r].repoWriterReleased && w'.tasks[r].officialReleased && w'.tasks[r].serverState.Stopped?
  {}

  /** Revoking a workspace is revoking its tasks that are not archived, in table order. */
  lemma {:induction false} AffectedAre(w: World, order: seq<Ref>, workspace: Workspace)
    ensures forall r :: r in Affected(w, order, workspace) <==>
      r in order && r in w.tasks && w.tasks[r].workspace == workspace && !w.tasks[r].archived
  {
    if order != [] {
      AffectedAre(w, order[1..], workspace);
      assert order == [order[0]] + order[1..];
    }
  }

  /** At shutdown a live task becomes unknown and uncertain, and its session is let go. */
  lemma ShutdownRecords(io: Io, w: World, r: Ref, closes: Ref -> bool)
    requires r in w.tasks && r in w.sessions && ThreeLand(io, w.writes)
    ensures var w' := Shutdown(io, w, [r], closes);
      && r in w'.tasks && (closes(r) <==> r !in w'.sessions) && (closes(r) <==> w'.tasks[r].repoWriterReleased)
      && w'.tasks[r].terminal == w.tasks[r].terminal
      && (if w.tasks[r].terminal then w'.tasks[r].status == w.tasks[r].status
          else w'.tasks[r].status.Unknown? && w'.tasks[r].integrity.Uncertain?)
  {
    var nobody: seq<Ref> := [];
    assert [r][1..] == nobody;
    var w1 := if w.tasks[r].terminal then w else Change(io, w, r, UNCERTAIN).0;
    ReleaseRecords(io, w1, r, closes(r));
    var w2 := Release(io, w1, r, closes(r)).0;
    assert Shutdown(io, w2, nobody, closes) == w2;
  }

  /** Requests for approval or interaction, and their answers, show in the status. */
  lemma InteractRecords(io: Io, w: World, r: Ref, status: Status)
    requires r in w.tasks && r in w.sessions && !w.tasks[r].terminal && io(w.writes).Landed?
    requires status.Running? || status.AwaitingApproval? || status.AwaitingInteraction?
    ensures var w' := Interact(io, w, r, status);
      r in w'.tasks && w'.tasks[r].status == w'.tasks[r].taskStatus == status && w'.sessions == w.sessions
  {}
}
