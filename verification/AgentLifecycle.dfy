/** The lifecycle of Codex agent tasks (packages/codex-agent/src/agent-manager.ts).
    Each handler of the manager is a function from one world to the next.  What the
    manager cannot decide is a parameter: how each inventory write ends (`Io`), and
    what the App Server, git and the operating system answer. */
module AgentLifecycle {
  import opened Options

  type Ref = nat
  type Repo = nat
  type Workspace = nat

  datatype Status =
    | Starting | Running | AwaitingApproval | AwaitingInteraction
    | Completed | Failed | Cancelled | Unknown

  datatype ServerState = ServerStarting | ServerRunning | TearingDown | ReleasePending | Stopped | Crashed

  datatype Integrity = Confirmed | Uncertain | RecoveryFailed

  datatype Authorization = Authorized | Revoked | NotKnown

  predicate IsTerminal(s: Status) { s.Completed? || s.Failed? || s.Cancelled? }

  /** The inventory record, without texts, timestamps and the desktop mirror. */
  datatype Task = Task(
    repo: Repo,
    workspace: Workspace,
    thread: Option<nat>,
    turn: Option<nat>,
    status: Status,
    taskStatus: Status,
    terminal: bool,
    writerReleased: bool,
    repoWriterReleased: bool,
    serverState: ServerState,
    pid: Option<nat>,
    officialReleased: bool,
    archived: bool,
    desktopHistoryReady: bool,
    authorization: Authorization,
    integrity: Integrity)

  /** A record as an older version may have written it, with fields missing. */
  datatype RawTask = RawTask(
    repo: Repo,
    workspace: Workspace,
    thread: Option<nat>,
    turn: Option<nat>,
    status: Status,
    taskStatus: Option<Status>,
    terminal: bool,
    writerReleased: Option<bool>,
    repoWriterReleased: Option<bool>,
    serverState: Option<ServerState>,
    pid: Option<nat>,
    officialReleased: Option<bool>,
    archived: bool,
    desktopHistoryReady: Option<bool>,
    authorization: Option<Authorization>,
    integrity: Integrity)

  /** normalizePersisted */
  function Normalize(t: RawTask): Task {
    var released := t.officialReleased.Or(t.terminal);
    var repoReleased := t.repoWriterReleased.Or(t.writerReleased.Or(released));
    Task(t.repo, t.workspace, t.thread, t.turn, t.status, t.taskStatus.Or(t.status), t.terminal,
         repoReleased, repoReleased,
         t.serverState.Or(if released then Stopped else ReleasePending), t.pid, released, t.archived,
         t.desktopHistoryReady.Or(t.terminal && released && !t.archived),
         t.authorization.Or(NotKnown), t.integrity)
  }

  function ToRaw(t: Task): RawTask {
    RawTask(t.repo, t.workspace, t.thread, t.turn, t.status, Some(t.taskStatus), t.terminal,
            Some(t.writerReleased), Some(t.repoWriterReleased), Some(t.serverState), t.pid,
            Some(t.officialReleased), t.archived, Some(t.desktopHistoryReady), Some(t.authorization), t.integrity)
  }

  // ------------------------------------------------------------------ worlds

  type Tasks = map<Ref, Task>

  /** How a write of the inventory file ends: it replaces the file; it fails and
      leaves the old file; it fails after the file was replaced; or the process
      dies, before or after the file was replaced. */
  datatype Write = Landed | Lost | Unreported | Died(landed: bool)

  /** The outcome of the n-th inventory write. */
  type Io = nat -> Write

  /** `tasks` and `sessions` are the manager's memory, empty while no manager runs;
      `disk` is the inventory file. */
  datatype World = World(up: bool, tasks: Tasks, disk: Tasks, sessions: set<Ref>, writes: nat)

  const FRESH: World := World(true, map[], map[], {}, 0)

  function Dead(disk: Tasks, writes: nat): World {
    World(false, map[], disk, {}, writes)
  }

  /** Replace the task table and persist it; a reported failure restores the table. */
  function Commit(io: Io, w: World, tasks: Tasks): (World, bool) {
    match io(w.writes)
    case Landed => (w.(tasks := tasks, disk := tasks, writes := w.writes + 1), true)
    case Lost => (w.(writes := w.writes + 1), false)
    case Unreported => (w.(disk := tasks, writes := w.writes + 1), false)
    case Died(landed) => (Dead(if landed then tasks else w.disk, w.writes + 1), false)
  }

  datatype Changes = Changes(
    status: Option<Status>,
    terminal: Option<bool>,
    repoWriterReleased: Option<bool>,
    officialReleased: Option<bool>,
    serverState: Option<ServerState>,
    pid: Option<Option<nat>>,
    archived: Option<bool>,
    authorization: Option<Authorization>,
    integrity: Option<Integrity>,
    thread: Option<nat>,
    turn: Option<nat>)

  const NOTHING := Changes(None, None, None, None, None, None, None, None, None, None, None)

  function Changed(t: Task, c: Changes): Task {
    var status := c.status.Or(t.status);
    var terminal := c.terminal.Or(t.terminal);
    var repoReleased := c.repoWriterReleased.Or(t.repoWriterReleased);
    var released := c.officialReleased.Or(t.officialReleased);
    var archived := c.archived.Or(t.archived);
    Task(t.repo, t.workspace,
         if c.thread.Some? then c.thread else t.thread,
         if c.turn.Some? then c.turn else t.turn,
         status, status, terminal, repoReleased, repoReleased,
         c.serverState.Or(t.serverState), c.pid.Or(t.pid), released, archived,
         terminal && released && !archived,
         c.authorization.Or(t.authorization), c.integrity.Or(t.integrity))
  }

  const GRANTED := NOTHING.(authorization := Some(Authorized))
  const DENIED := NOTHING.(authorization := Some(Revoked))
  const CANCELLED :=
    NOTHING.(status := Some(Cancelled), terminal := Some(true), repoWriterReleased := Some(false))
  const FREED :=
    NOTHING.(serverState := Some(Stopped), officialReleased := Some(true), repoWriterReleased := Some(true))

  /** #change; the flag is false when it throws. */
  function Change(io: Io, w: World, r: Ref, c: Changes): (World, bool) {
    if r in w.tasks then Commit(io, w, w.tasks[r := Changed(w.tasks[r], c)]) else (w, false)
  }

  // ---------------------------------------------------------------- sessions

  const RELEASED :=
    NOTHING.(serverState := Some(Stopped), pid := Some(None), officialReleased := Some(true),
      repoWriterReleased := Some(true))
  const TEARING :=
    NOTHING.(serverState := Some(TearingDown), officialReleased := Some(false), repoWriterReleased := Some(false))
  const PENDING :=
    NOTHING.(serverState := Some(ReleasePending), officialReleased := Some(false), repoWriterReleased := Some(false),
      integrity := Some(Uncertain))
  const UNCERTAIN := NOTHING.(status := Some(Unknown), integrity := Some(Uncertain))

  /** #releaseSession: `closes` says whether the client's process tree exits. */
  function Release(io: Io, w: World, r: Ref, closes: bool): (World, bool) {
    if r !in w.sessions then Change(io, w, r, RELEASED)
    else
      var (w1, ok1) := Change(io, w, r, TEARING);
      if !ok1 then (w1, false)
      else if closes then
        var (w2, ok2) := Change(io, w1.(sessions := w1.sessions - {r}), r, RELEASED);
        if ok2 then (w2, true) else Change(io, w2, r, PENDING)
      else Change(io, w1, r, PENDING)
  }

  /** #createSession: `server` is None when the client does not start, else its pid if known. */
  function CreateSession(io: Io, w: World, r: Ref, server: Option<Option<nat>>): (World, bool) {
    if r in w.sessions then (w, true)
    else if server.None? then (w, false)
    else
      Change(io, w.(sessions := w.sessions + {r}), r,
        NOTHING.(serverState := Some(ServerRunning), pid := Some(server.value), officialReleased := Some(false)))
  }

  // ---------------------------------------------------- recovery of released tasks

  /** How the official App Server says a turn ended. */
  datatype Ending = TurnCompleted | TurnFailed | TurnInterrupted

  function Mapped(e: Ending): Status {
    match e
    case TurnCompleted => Completed
    case TurnFailed => Failed
    case TurnInterrupted => Cancelled
  }

  /** What the metadata client reports: whether it is available, and for each task
      the ending of the official turn that matches the recorded one, if any. */
  datatype Official = Official(available: bool, ending: Ref -> Option<Ending>)

  /** #releasedRecoveryCandidate */
  predicate Candidate(w: World, r: Ref) {
    r in w.tasks && r !in w.sessions &&
    var t := w.tasks[r];
    !t.terminal && t.pid.None? && t.serverState.Stopped? && t.officialReleased && t.repoWriterReleased
  }

  function Candidates(w: World, refs: seq<Ref>): seq<Ref> {
    if refs == [] then []
    else (if Candidate(w, refs[0]) then [refs[0]] else []) + Candidates(w, refs[1..])
  }

  function Ended(e: Ending): Changes {
    NOTHING.(status := Some(Mapped(e)), terminal := Some(true), integrity := Some(Confirmed))
  }

  const RECOVERY_FAILED :=
    NOTHING.(status := Some(Failed), terminal := Some(true), integrity := Some(RecoveryFailed))

  predicate Resolvable(t: Task, official: Official, r: Ref) {
    official.available && t.thread.Some? && t.turn.Some? && official.ending(r).Some?
  }

  /** Record official endings; the refs that stay unresolved are returned. */
  function Settle(io: Io, w: World, refs: seq<Ref>, official: Official): (World, seq<Ref>)
    decreases |refs|
  {
    if refs == [] then (w, [])
    else
      var r := refs[0];
      if r in w.tasks && Resolvable(w.tasks[r], official, r) then
        var (w1, ok) := Change(io, w, r, Ended(official.ending(r).value));
        var (w2, rest) := Settle(io, w1, refs[1..], official);
        (w2, (if ok then [] else [r]) + rest)
      else
        var (w2, rest) := Settle(io, w, refs[1..], official);
        (w2, [r] + rest)
  }

  function FailUnresolved(io: Io, w: World, refs: seq<Ref>): (World, bool)
    decreases |refs|
  {
    if refs == [] then (w, true)
    else if refs[0] !in w.tasks then (w, false)
    else if !Candidate(w, refs[0]) then FailUnresolved(io, w, refs[1..])
    else
      var (w1, ok) := Change(io, w, refs[0], RECOVERY_FAILED);
      if ok then FailUnresolved(io, w1, refs[1..]) else (w1, false)
  }

  /** #finalizeReleasedRecovery */
  function Finalize(io: Io, w: World, refs: seq<Ref>, official: Official): (World, bool) {
    var (w1, unresolved) := Settle(io, w, Candidates(w, refs), official);
    FailUnresolved(io, w1, unresolved)
  }

  // ---------------------------------------------------------- session events

  /** #handleCrash, for a client that is the task's session. */
  function HandleCrash(io: Io, w: World, r: Ref, closes: bool, official: Official): World {
    if r !in w.sessions || r !in w.tasks then w
    else
      var t := w.tasks[r];
      if t.authorization.Revoked? then Release(io, w, r, closes).0
      else
        var (w1, ok1) := Change(io, w, r,
          NOTHING.(status := Some(if t.terminal then t.status else Unknown),
                   serverState := Some(Crashed), integrity := Some(Uncertain)));
        if !ok1 then w1
        else
          var (w2, ok2) := Release(io, w1, r, closes);
          if ok2 then Finalize(io, w2, [r], official).0 else w2
  }

  /** The statuses an official turn maps to. */
  predicate TurnStatus(s: Status) { IsTerminal(s) || s.Unknown? }

  /** #recordTerminal */
  function RecordTerminal(io: Io, w: World, r: Ref, mapped: Status, closes: bool): (World, bool) {
    if r !in w.tasks then (w, false)
    else if w.tasks[r].terminal then Release(io, w, r, closes)
    else
      var (w1, ok) := Change(io, w, r,
        NOTHING.(status := Some(mapped), terminal := Some(IsTerminal(mapped)), repoWriterReleased := Some(false),
                 officialReleased := Some(false), serverState := Some(TearingDown),
                 integrity := Some(if mapped.Unknown? then Uncertain else Confirmed)));
      if ok then Release(io, w1, r, closes) else (w1, false)
  }

  /** The status a notification of the recorded turn stands for; None is any other status. */
  function Notified(ending: Option<Ending>): Status {
    if ending.Some? then Mapped(ending.value) else Unknown
  }

  /** A turn/completed notification of the live session, for the recorded turn. */
  function TurnNotification(io: Io, w: World, r: Ref, ending: Option<Ending>, closes: bool): World {
    if r in w.sessions then RecordTerminal(io, w, r, Notified(ending), closes).0 else w
  }

  /** What a read of the live thread shows. */
  datatype Reading =
    | Unreadable
    | NoTurn
    | StrangeStatus
    | InProgress(approvalPending: bool)
    | TurnEnded(ending: Ending)

  /** #refreshActive */
  function Refresh(io: Io, w: World, r: Ref, reading: Reading, closes: bool): (World, bool) {
    if r !in w.tasks then (w, false)
    else
      var t := w.tasks[r];
      if t.thread.None? || t.archived || t.terminal then (w, true)
      else match reading
        case Unreadable => (w, false)
        case NoTurn => Change(io, w, r, UNCERTAIN)
        case StrangeStatus => Change(io, w, r, UNCERTAIN)
        case InProgress(approvalPending) =>
          if t.status.Unknown? && !approvalPending
          then Change(io, w, r, NOTHING.(status := Some(Running), integrity := Some(Confirmed)))
          else (w, true)
        case TurnEnded(e) => RecordTerminal(io, w, r, Mapped(e), closes)
  }

  /** `show` and `wait` on a task whose session runs. */
  function Inspect(io: Io, w: World, r: Ref, reading: Reading, closes: bool): World {
    if r in w.tasks && r in w.sessions && !w.tasks[r].terminal && w.tasks[r].serverState.ServerRunning? then
      var (w1, ok) := Refresh(io, w, r, reading, closes);
      if ok then w1 else Change(io, w1, r, UNCERTAIN).0
    else w
  }

  /** Approval and interaction requests and their answers. */
  function Interact(io: Io, w: World, r: Ref, status: Status): World {
    if r in w.tasks && r in w.sessions && !w.tasks[r].terminal &&
       (status.Running? || status.AwaitingApproval? || status.AwaitingInteraction?)
    then Change(io, w, r, NOTHING.(status := Some(status))).0
    else w
  }

  /** `cancel` */
  function Cancel(io: Io, w: World, r: Ref, interrupts: bool, reading: Reading, closes: bool,
                  official: Official): World {
    if r !in w.tasks || w.tasks[r].terminal then w
    else if r !in w.sessions then
      if Candidate(w, r) then Finalize(io, w, [r], official).0 else w
    else if w.tasks[r].thread.None? || w.tasks[r].turn.None? || !interrupts then w
    else Refresh(io, w, r, reading, closes).0
  }

  // ------------------------------------------------------------- start, send

  predicate Holds(t: Task) { !t.archived && !t.repoWriterReleased }

  predicate Conflict(tasks: Tasks, self: Ref, repo: Repo) {
    exists other :: other in tasks && other != self && Holds(tasks[other]) && tasks[other].repo == repo
  }

  function Initial(repo: Repo, workspace: Workspace): Task {
    Task(repo, workspace, None, None, Starting, Starting, false, false, false, ServerStarting, None,
         false, false, false, Authorized, Confirmed)
  }

  /** What happens after the lock is taken: the session's pid, whether a model is
      found, the thread, whether the desktop mirror works, and the turn. */
  datatype Launch = Launch(server: Option<Option<nat>>, model: bool, thread: Option<nat>, mirrors: bool,
                           turn: Option<nat>)

  datatype Stage = BeforeTurn | AfterTurn | Done

  function Mirror(io: Io, w: World, r: Ref, mirrors: bool): (World, bool) {
    if mirrors then
      var (w1, ok) := Change(io, w, r, NOTHING);
      if ok then (w1, true) else Change(io, w1, r, NOTHING)
    else Change(io, w, r, NOTHING)
  }

  /** What `start` does once it has a thread. */
  function Begin(io: Io, w: World, r: Ref, l: Launch): (World, Stage) {
    var (w1, ok1) := Mirror(io, w, r, l.mirrors);
    if !ok1 then (w1, BeforeTurn)
    else if l.turn.None? then (w1, AfterTurn)
    else
      var (w2, ok2) := Change(io, w1, r, NOTHING.(turn := l.turn, status := Some(Running)));
      (w2, if ok2 then Done else AfterTurn)
  }

  function LaunchTurn(io: Io, w: World, r: Ref, l: Launch): (World, Stage) {
    var (w1, ok1) := CreateSession(io, w, r, l.server);
    if !ok1 || !l.model then (w1, BeforeTurn)
    else
      var (w2, ok2) := Change(io, w1, r, NOTHING);
      if !ok2 || l.thread.None? then (w2, BeforeTurn)
      else
        var (w3, ok3) := Change(io, w2, r, NOTHING.(thread := l.thread));
        if ok3 then Begin(io, w3, r, l) else (w3, BeforeTurn)
  }

  /** `start` of a task under a new reference. */
  function Start(io: Io, w: World, r: Ref, repo: Repo, workspace: Workspace, l: Launch, closes: bool): World {
    if !w.up || r in w.tasks || r in w.sessions || Conflict(w.tasks, r, repo) then w
    else
      var (w1, ok1) := Commit(io, w, w.tasks[r := Initial(repo, workspace)]);
      if !ok1 then w1
      else
        var (w2, stage) := LaunchTurn(io, w1, r, l);
        match stage
        case Done => w2
        case AfterTurn => Change(io, w2, r, UNCERTAIN).0
        case BeforeTurn =>
          var (w3, ok3) := Change(io, w2, r, NOTHING.(status := Some(Failed), terminal := Some(true)));
          if ok3 then Release(io, w3, r, closes).0 else w3
  }

  /** What resolving the workspace of a task shows. */
  datatype Access = Access(granted: bool, sameGeneration: bool)

  /** #authorizeTask */
  function Authorize(io: Io, w: World, r: Ref, access: Access): (World, bool) {
    if r !in w.tasks || w.tasks[r].authorization.Revoked? then (w, false)
    else if !access.granted then (Change(io, w, r, DENIED).0, false)
    else if w.tasks[r].authorization.Authorized? && access.sameGeneration then (w, true)
    else
      var (w1, ok) := Change(io, w, r, GRANTED);
      if ok then (w1, true) else (Change(io, w1, r, DENIED).0, false)
  }

  /** What the official thread inventory shows: nothing is read, the read fails, or
      for each task whether its thread is archived (None: not listed). */
  datatype Listing = Disabled | Failing | Listed(archived: Ref -> Option<bool>)

  function Observed(c: Option<bool>): Changes { NOTHING.(archived := c) }

  function ReconcileListed(io: Io, w: World, refs: seq<Ref>, archived: Ref -> Option<bool>): (World, bool)
    decreases |refs|
  {
    if refs == [] then (w, true)
    else
      var r := refs[0];
      if r !in w.tasks || w.tasks[r].thread.None? || r in w.sessions then ReconcileListed(io, w, refs[1..], archived)
      else
        var (w1, ok) := Change(io, w, r, Observed(archived(r)));
        if ok then ReconcileListed(io, w1, refs[1..], archived) else (w1, false)
  }

  function ReconcileFailed(io: Io, w: World, refs: seq<Ref>): (World, bool)
    decreases |refs|
  {
    if refs == [] then (w, true)
    else if refs[0] !in w.tasks then ReconcileFailed(io, w, refs[1..])
    else
      var (w1, ok) := Change(io, w, refs[0], NOTHING);
      if ok then ReconcileFailed(io, w1, refs[1..]) else (w1, false)
  }

  /** #reconcileMany */
  function Reconcile(io: Io, w: World, refs: seq<Ref>, listing: Listing): (World, bool) {
    match listing
    case Disabled => (w, true)
    case Failing => ReconcileFailed(io, w, refs)
    case Listed(archived) =>
      var (w1, ok) := ReconcileListed(io, w, refs, archived);
      if ok then (w1, true) else ReconcileFailed(io, w1, refs)
  }

  predicate Resumable(t: Task) {
    t.thread.Some? && !t.archived && !t.integrity.RecoveryFailed? && t.officialReleased && t.repoWriterReleased &&
    (t.terminal || t.status.Unknown?)
  }

  function Resumed(t: Task): Task {
    t.(status := Starting, taskStatus := Starting, terminal := false, repoWriterReleased := false,
       writerReleased := false, serverState := ServerStarting, officialReleased := false, desktopHistoryReady := false)
  }

  /** Unlike Commit, a failed write keeps the new table in memory. */
  function Acquire(io: Io, w: World, tasks: Tasks): (World, bool) {
    match io(w.writes)
    case Landed => (w.(tasks := tasks, disk := tasks, writes := w.writes + 1), true)
    case Lost => (w.(tasks := tasks, writes := w.writes + 1), false)
    case Unreported => (w.(tasks := tasks, disk := tasks, writes := w.writes + 1), false)
    case Died(landed) => (Dead(if landed then tasks else w.disk, w.writes + 1), false)
  }

  /** What happens after `send` takes the lock: the session, whether the thread
      resumes with the expected permissions and a model, and the turn. */
  datatype Resume = Resume(server: Option<Option<nat>>, resumes: bool, turn: Option<nat>)

  function SendTurn(io: Io, w: World, r: Ref, resume: Resume, closes: bool, official: Official): World {
    var (w1, ok1) := CreateSession(io, w, r, resume.server);
    if !ok1 then Change(io, w1, r, UNCERTAIN).0
    else
      var (w2, ok2) :=
        if resume.resumes && resume.turn.Some?
        then Change(io, w1, r, NOTHING.(turn := resume.turn, status := Some(Running)))
        else (w1, false);
      if ok2 then w2
      else
        var (w3, ok3) := Change(io, w2, r, UNCERTAIN);
        if !ok3 then w3
        else
          var (w4, ok4) := Release(io, w3, r, closes);
          if ok4 then Finalize(io, w4, [r], official).0 else w4
  }

  /** `send` once the task is authorized. */
  function SendAuthorized(io: Io, w: World, r: Ref, listing: Listing, resume: Resume, closes: bool,
                          official: Official): World {
    var (w1, ok1) := Reconcile(io, w, [r], listing);
    if !ok1 || r !in w1.tasks || !Resumable(w1.tasks[r]) || Conflict(w1.tasks, r, w1.tasks[r].repo) then w1
    else
      var (w2, ok2) := Acquire(io, w1, w1.tasks[r := Resumed(w1.tasks[r])]);
      if ok2 then SendTurn(io, w2, r, resume, closes, official) else w2
  }

  /** `send` */
  function Send(io: Io, w: World, r: Ref, access: Access, listing: Listing, resume: Resume, closes: bool,
                official: Official): World {
    if r !in w.tasks || w.tasks[r].integrity.RecoveryFailed? then w
    else
      var (w1, ok) := Authorize(io, w, r, access);
      if ok then SendAuthorized(io, w1, r, listing, resume, closes, official) else w1
  }

  // --------------------------------------------------------- archive, revoke

  /** `archive` */
  function Archive(io: Io, w: World, r: Ref, listing: Listing, archives: bool): World {
    if r !in w.tasks || !w.tasks[r].terminal || !w.tasks[r].officialReleased || w.tasks[r].thread.None? then w
    else
      var (w1, ok) := Reconcile(io, w, [r], listing);
      if !ok || r !in w1.tasks || w1.tasks[r].archived || !archives then w1
      else Change(io, w1, r, NOTHING.(archived := Some(true))).0
  }

  function Affected(w: World, refs: seq<Ref>, workspace: Workspace): seq<Ref> {
    if refs == [] then []
    else
      var affected := refs[0] in w.tasks && w.tasks[refs[0]].workspace == workspace && !w.tasks[refs[0]].archived;
      (if affected then [refs[0]] else []) + Affected(w, refs[1..], workspace)
  }

  /** One task of a revoked workspace. */
  function RevokeTask(io: Io, w: World, r: Ref, closes: bool): (World, bool) {
    if r !in w.tasks then (w, false)
    else
      var terminal := w.tasks[r].terminal;
      var (w1, ok1) := Change(io, w, r, DENIED);
      if !ok1 then (w1, false)
      else
        var (w2, ok2) :=
          if terminal then (w1, true)
          else Change(io, w1, r, CANCELLED);
        if !ok2 then (w2, false)
        else if r in w.sessions then Release(io, w2, r, closes)
        else Change(io, w2, r, FREED)
  }

  function RevokeAll(io: Io, w: World, refs: seq<Ref>, closes: Ref -> bool): World
    decreases |refs|
  {
    if refs == [] then w
    else
      var (w1, ok) := RevokeTask(io, w, refs[0], closes(refs[0]));
      if ok then RevokeAll(io, w1, refs[1..], closes) else w1
  }

  /** `revokeWorkspace`; `order` is the order of the task table. */
  function RevokeWorkspace(io: Io, w: World, order: seq<Ref>, workspace: Workspace, closes: Ref -> bool): World {
    RevokeAll(io, w, Affected(w, order, workspace), closes)
  }

  // -------------------------------------------------------- shutdown, restart

  /** `close` of the manager; `order` is the order of the session table. */
  function Shutdown(io: Io, w: World, order: seq<Ref>, closes: Ref -> bool): World
    decreases |order|
  {
    if order == [] then w
    else
      var r := order[0];
      if r !in w.sessions then Shutdown(io, w, order[1..], closes)
      else
        var (w1, ok) :=
          if r in w.tasks && !w.tasks[r].terminal then Change(io, w, r, UNCERTAIN) else (w, true);
        if ok then Shutdown(io, Release(io, w1, r, closes(r)).0, order[1..], closes) else w1
  }

  /** One task in #recoverPersisted; `gone` says the recorded process group exited. */
  function RecoverTask(t: Task, gone: bool): Task {
    var released := t.pid.None? || gone;
    if !t.terminal then
      t.(status := Unknown, taskStatus := Unknown, repoWriterReleased := released, writerReleased := released,
         serverState := if released then Stopped else ReleasePending,
         pid := if released then None else t.pid,
         officialReleased := released, authorization := NotKnown, integrity := Uncertain)
    else if !t.officialReleased || !released then
      t.(repoWriterReleased := released, writerReleased := released,
         serverState := if released then Stopped else ReleasePending,
         pid := if released then None else t.pid,
         officialReleased := released, desktopHistoryReady := released && !t.archived)
    else t
  }

  function Recovered(raw: map<Ref, RawTask>, gone: Ref -> bool): Tasks {
    map r | r in raw :: RecoverTask(Normalize(raw[r]), gone(r))
  }

  predicate Reopened(raw: map<Ref, RawTask>, gone: Ref -> bool, r: Ref) {
    r in raw && !raw[r].terminal && (raw[r].pid.None? || gone(r))
  }

  function ReopenedRefs(raw: map<Ref, RawTask>, gone: Ref -> bool, order: seq<Ref>): seq<Ref> {
    if order == [] then []
    else (if Reopened(raw, gone, order[0]) then [order[0]] else []) + ReopenedRefs(raw, gone, order[1..])
  }

  /** `create` on an inventory with the records `raw` in the order `order`; the world
      is down when it throws. */
  function Startup(io: Io, raw: map<Ref, RawTask>, disk: Tasks, writes: nat, order: seq<Ref>, gone: Ref -> bool,
                   official: Official): World {
    if raw == map[] then World(true, map[], disk, {}, writes)
    else
      var tasks := Recovered(raw, gone);
      var (w1, ok1) := Commit(io, World(true, tasks, disk, {}, writes), tasks);
      if !ok1 then Dead(w1.disk, w1.writes)
      else
        var (w2, ok2) := Finalize(io, w1, ReopenedRefs(raw, gone, order), official);
        if ok2 then w2 else Dead(w2.disk, w2.writes)
  }

  function Inventory(disk: Tasks): map<Ref, RawTask> { map r | r in disk :: ToRaw(disk[r]) }

  predicate Lists(order: seq<Ref>, keys: set<Ref>) {
    && (forall r :: r in order ==> r in keys) && (forall r :: r in keys ==> r in order)
    && forall i, j :: 0 <= i < j < |order| ==> order[i] != order[j]
  }

  /** The process is gone, however it ended, and a new manager starts. */
  function Restart(io: Io, w: World, order: seq<Ref>, gone: Ref -> bool, official: Official): World {
    if Lists(order, w.disk.Keys) then Startup(io, Inventory(w.disk), w.disk, w.writes, order, gone, official) else w
  }

  // -------------------------------------------------------------------- runs

  datatype Event =
    | StartEvent(r: Ref, repo: Repo, workspace: Workspace, launch: Launch, closes: bool)
    | SendEvent(r: Ref, access: Access, listing: Listing, resume: Resume, closes: bool, official: Official)
    | CrashEvent(r: Ref, closes: bool, official: Official)
    | TurnEvent(r: Ref, ending: Option<Ending>, closes: bool)
    | InspectEvent(r: Ref, reading: Reading, closes: bool)
    | InteractEvent(r: Ref, status: Status)
    | AuthorizeEvent(r: Ref, access: Access)
    | CancelEvent(r: Ref, interrupts: bool, reading: Reading, closes: bool, official: Official)
    | ReconcileEvent(refs: seq<Ref>, listing: Listing)
    | ArchiveEvent(r: Ref, listing: Listing, archives: bool)
    | RevokeEvent(order: seq<Ref>, workspace: Workspace, closing: Ref -> bool)
    | ShutdownEvent(order: seq<Ref>, closing: Ref -> bool)
    | RestartEvent(order: seq<Ref>, gone: Ref -> bool, official: Official)

  function Apply(io: Io, w: World, e: Event): World {
    match e
    case StartEvent(r, repo, workspace, launch, closes) => Start(io, w, r, repo, workspace, launch, closes)
    case SendEvent(r, access, listing, resume, closes, official) =>
      Send(io, w, r, access, listing, resume, closes, official)
    case CrashEvent(r, closes, official) => HandleCrash(io, w, r, closes, official)
    case TurnEvent(r, ending, closes) => TurnNotification(io, w, r, ending, closes)
    case InspectEvent(r, reading, closes) => Inspect(io, w, r, reading, closes)
    case InteractEvent(r, status) => Interact(io, w, r, status)
    case AuthorizeEvent(r, access) => Authorize(io, w, r, access).0
    case CancelEvent(r, interrupts, reading, closes, official) =>
      Cancel(io, w, r, interrupts, reading, closes, official)
    case ReconcileEvent(refs, listing) => Reconcile(io, w, refs, listing).0
    case ArchiveEvent(r, listing, archives) => Archive(io, w, r, listing, archives)
    case RevokeEvent(order, workspace, closing) => RevokeWorkspace(io, w, order, workspace, closing)
    case ShutdownEvent(order, closing) => Shutdown(io, w, order, closing)
    case RestartEvent(order, gone, official) => Restart(io, w, order, gone, official)
  }

  function Run(io: Io, w: World, es: seq<Event>): World
    decreases |es|
  {
    if es == [] then w else Run(io, Apply(io, w, es[0]), es[1..])
  }
}
