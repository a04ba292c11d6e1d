/** What every run of the agent manager keeps: one writer per repository, live
    sessions hold their lock, derived flags agree, and a recovery failure stays. */
module AgentInvariants {
  import opened Options
  import opened AgentLifecycle

  predicate TaskOk(t: Task) {
    && t.taskStatus == t.status
    && t.writerReleased == t.repoWriterReleased
    && t.officialReleased == t.repoWriterReleased
    && t.desktopHistoryReady == (t.terminal && t.officialReleased && !t.archived)
    && (t.pid.Some? ==> !t.repoWriterReleased)
    && (t.archived ==> t.repoWriterReleased)
    && (IsTerminal(t.status) ==> t.terminal)
    && (t.integrity.RecoveryFailed? ==> t.terminal && t.repoWriterReleased)
  }

  /** At most one non-archived task per repository has its writer lock unreleased. */
  predicate OneWriter(tasks: Tasks) {
    forall a, b :: a in tasks && b in tasks && a != b && Holds(tasks[a]) && Holds(tasks[b]) ==>
      tasks[a].repo != tasks[b].repo
  }

  predicate Sound(tasks: Tasks) {
    (forall r :: r in tasks ==> TaskOk(tasks[r])) && OneWriter(tasks)
  }

  /** A task with a live session is neither writer-released nor officially released. */
  predicate SessionsHold(tasks: Tasks, sessions: set<Ref>) {
    forall r :: r in sessions ==> r in tasks && !tasks[r].repoWriterReleased && !tasks[r].officialReleased
  }

  ghost predicate Inv(w: World) {
    && Sound(w.disk)
    && Sound(w.tasks)
    && SessionsHold(w.tasks, w.sessions)
    && (!w.up ==> w.tasks == map[] && w.sessions == {})
  }

  // ------------------------------------------------------------ single writes

  lemma CommitKeeps(io: Io, w: World, tasks: Tasks)
    requires Inv(w) && w.up && Sound(tasks) && SessionsHold(tasks, w.sessions)
    ensures Inv(Commit(io, w, tasks).0)
  {}

  /** What a change may do to a task so that the table stays sound. */
  predicate Harmless(w: World, r: Ref, c: Changes) {
    r in w.tasks ==>
      var t, t' := w.tasks[r], Changed(w.tasks[r], c);
      && TaskOk(t')
      && (Holds(t') ==> Holds(t))
      && (r in w.sessions ==> !t'.repoWriterReleased)
  }

  lemma ChangeKeeps(io: Io, w: World, r: Ref, c: Changes)
    requires Inv(w) && Harmless(w, r, c)
    ensures Inv(Change(io, w, r, c).0)
  {
    if r in w.tasks { CommitKeeps(io, w, w.tasks[r := Changed(w.tasks[r], c)]); }
  }

  /** The world after a write: as asked, as before, or down. */
  lemma ChangeShape(io: Io, w: World, r: Ref, c: Changes)
    ensures var (w', ok) := Change(io, w, r, c);
      if ok then r in w.tasks && w'.tasks == w.tasks[r := Changed(w.tasks[r], c)] == w'.disk &&
                 w'.sessions == w.sessions && w'.up == w.up
      else (w'.tasks == w.tasks && w'.sessions == w.sessions && w'.up == w.up) ||
           (w'.tasks == map[] && w'.sessions == {} && !w'.up)
  {}

  // ---------------------------------------------------------------- sessions

  predicate HeldOrGone(w: World, r: Ref) {
    r in w.tasks ==> !w.tasks[r].repoWriterReleased
  }

  /** Changes that leave the lock, the archive flag and the terminal rule alone. */
  predicate Plain(c: Changes) {
    && c.repoWriterReleased.None? && c.archived.None? && c.officialReleased != Some(true)
    && c.terminal != Some(false) && c.integrity != Some(RecoveryFailed)
    && (c.status.Some? && IsTerminal(c.status.value) ==> c.terminal == Some(true))
  }

  lemma HeldChange(io: Io, w: World, r: Ref, c: Changes)
    requires Inv(w) && HeldOrGone(w, r) && Plain(c)
    ensures Inv(Change(io, w, r, c).0) && HeldOrGone(Change(io, w, r, c).0, r)
  {
    ChangeKeeps(io, w, r, c);
    ChangeShape(io, w, r, c);
  }

  lemma ReleaseKeeps(io: Io, w: World, r: Ref, closes: bool)
    requires Inv(w)
    ensures Inv(Release(io, w, r, closes).0)
    ensures HeldOrGone(w, r) && !Release(io, w, r, closes).1 ==> HeldOrGone(Release(io, w, r, closes).0, r)
  {
    if r !in w.sessions {
      ChangeKeeps(io, w, r, RELEASED);
      ChangeShape(io, w, r, RELEASED);
    } else {
      ChangeKeeps(io, w, r, TEARING);
      ChangeShape(io, w, r, TEARING);
      var (w1, ok1) := Change(io, w, r, TEARING);
      if ok1 {
        TornDown(io, w1, r, closes);
      }
    }
  }

  /** The rest of a release, once the task is tearing down. */
  lemma TornDown(io: Io, w: World, r: Ref, closes: bool)
    requires Inv(w) && r in w.sessions
    ensures Inv(Change(io, w, r, PENDING).0) && HeldOrGone(Change(io, w, r, PENDING).0, r)
    ensures var (w1, ok1) := Change(io, w.(sessions := w.sessions - {r}), r, RELEASED);
      Inv(w1) && (!ok1 ==> Inv(Change(io, w1, r, PENDING).0) && HeldOrGone(Change(io, w1, r, PENDING).0, r))
  {
    ChangeKeeps(io, w, r, PENDING);
    ChangeShape(io, w, r, PENDING);
    var wc := w.(sessions := w.sessions - {r});
    assert Inv(wc);
    ChangeKeeps(io, wc, r, RELEASED);
    ChangeShape(io, wc, r, RELEASED);
    var (w1, ok1) := Change(io, wc, r, RELEASED);
    if !ok1 {
      ChangeKeeps(io, w1, r, PENDING);
      ChangeShape(io, w1, r, PENDING);
    }
  }

  lemma CreateSessionKeeps(io: Io, w: World, r: Ref, server: Option<Option<nat>>)
    requires Inv(w) && r in w.tasks && !w.tasks[r].repoWriterReleased
    ensures Inv(CreateSession(io, w, r, server).0)
  {
    if r !in w.sessions && server.Some? {
      var wc := w.(sessions := w.sessions + {r});
      ChangeKeeps(io, wc, r,
        NOTHING.(serverState := Some(ServerRunning), pid := Some(server.value), officialReleased := Some(false)));
    }
  }

  // ----------------------------------------------------------------- recovery

  lemma {:induction false} SettleKeeps(io: Io, w: World, refs: seq<Ref>, official: Official)
    requires Inv(w)
    requires forall i :: 0 <= i < |refs| && refs[i] in w.tasks ==>
      w.tasks[refs[i]].repoWriterReleased && w.tasks[refs[i]].integrity != RecoveryFailed
    requires forall i, j :: 0 <= i < j < |refs| ==> refs[i] != refs[j]
    ensures Inv(Settle(io, w, refs, official).0)
    decreases |refs|
  {
    if refs != [] {
      var r := refs[0];
      var w1 := if r in w.tasks && Resolvable(w.tasks[r], official, r)
                then Change(io, w, r, Ended(official.ending(r).value)).0 else w;
      if r in w.tasks && Resolvable(w.tasks[r], official, r) {
        ChangeKeeps(io, w, r, Ended(official.ending(r).value));
        ChangeShape(io, w, r, Ended(official.ending(r).value));
      }
      SettleKeeps(io, w1, refs[1..], official);
    }
  }

  lemma {:induction false} FailUnresolvedKeeps(io: Io, w: World, refs: seq<Ref>)
    requires Inv(w)
    ensures Inv(FailUnresolved(io, w, refs).0)
    decreases |refs|
  {
    if refs != [] && refs[0] in w.tasks {
      if Candidate(w, refs[0]) {
        ChangeKeeps(io, w, refs[0], RECOVERY_FAILED);
        var (w1, ok) := Change(io, w, refs[0], RECOVERY_FAILED);
        if ok {
          FailUnresolvedKeeps(io, w1, refs[1..]);
        }
      } else {
        FailUnresolvedKeeps(io, w, refs[1..]);
      }
    }
  }

  predicate Distinct(refs: seq<Ref>) { forall i, j :: 0 <= i < j < |refs| ==> refs[i] != refs[j] }

  lemma {:induction false} CandidatesOf(w: World, refs: seq<Ref>)
    requires Distinct(refs)
    ensures Distinct(Candidates(w, refs))
    ensures forall r :: r in Candidates(w, refs) <==> r in refs && Candidate(w, r)
  {
    if refs != [] {
      CandidatesOf(w, refs[1..]);
      assert refs == [refs[0]] + refs[1..];
      forall i | 0 <= i < |Candidates(w, refs[1..])| ensures Candidates(w, refs[1..])[i] != refs[0] {
        assert Candidates(w, refs[1..])[i] in refs[1..];
      }
    }
  }

  lemma FinalizeKeeps(io: Io, w: World, refs: seq<Ref>, official: Official)
    requires Inv(w) && Distinct(refs)
    ensures Inv(Finalize(io, w, refs, official).0)
  {
    CandidatesOf(w, refs);
    var cs := Candidates(w, refs);
    forall i | 0 <= i < |cs| && cs[i] in w.tasks
      ensures w.tasks[cs[i]].repoWriterReleased && w.tasks[cs[i]].integrity != RecoveryFailed
    {
      assert cs[i] in cs;
    }
    SettleKeeps(io, w, cs, official);
    var (w1, unresolved) := Settle(io, w, cs, official);
    FailUnresolvedKeeps(io, w1, unresolved);
  }

  // ------------------------------------------------------------------ handlers

  lemma HandleCrashKeeps(io: Io, w: World, r: Ref, closes: bool, official: Official)
    requires Inv(w)
    ensures Inv(HandleCrash(io, w, r, closes, official))
  {
    if r in w.sessions {
      var t := w.tasks[r];
      if t.authorization.Revoked? {
        ReleaseKeeps(io, w, r, closes);
      } else {
        var c := NOTHING.(status := Some(if t.terminal then t.status else Unknown),
                          serverState := Some(Crashed), integrity := Some(Uncertain));
        ChangeKeeps(io, w, r, c);
        var (w1, ok1) := Change(io, w, r, c);
        if ok1 {
          ReleaseKeeps(io, w1, r, closes);
          var (w2, ok2) := Release(io, w1, r, closes);
          if ok2 { FinalizeKeeps(io, w2, [r], official); }
        }
      }
    }
  }

  lemma RecordTerminalKeeps(io: Io, w: World, r: Ref, mapped: Status, closes: bool)
    requires Inv(w) && TurnStatus(mapped) && r in w.sessions
    ensures Inv(RecordTerminal(io, w, r, mapped, closes).0)
    ensures !RecordTerminal(io, w, r, mapped, closes).1 ==> HeldOrGone(RecordTerminal(io, w, r, mapped, closes).0, r)
  {
    if w.tasks[r].terminal {
      ReleaseKeeps(io, w, r, closes);
    } else {
      var c := NOTHING.(status := Some(mapped), terminal := Some(IsTerminal(mapped)), repoWriterReleased := Some(false),
                        officialReleased := Some(false), serverState := Some(TearingDown),
                        integrity := Some(if mapped.Unknown? then Uncertain else Confirmed));
      ChangeKeeps(io, w, r, c);
      ChangeShape(io, w, r, c);
      var (w1, ok) := Change(io, w, r, c);
      if ok { ReleaseKeeps(io, w1, r, closes); }
    }
  }

  lemma RefreshKeeps(io: Io, w: World, r: Ref, reading: Reading, closes: bool)
    requires Inv(w) && r in w.sessions
    ensures Inv(Refresh(io, w, r, reading, closes).0)
    ensures !Refresh(io, w, r, reading, closes).1 ==> HeldOrGone(Refresh(io, w, r, reading, closes).0, r)
  {
    match reading {
      case TurnEnded(e) => RecordTerminalKeeps(io, w, r, Mapped(e), closes);
      case _ =>
        HeldChange(io, w, r, UNCERTAIN);
        HeldChange(io, w, r, NOTHING.(status := Some(Running), integrity := Some(Confirmed)));
    }
  }

  lemma InspectKeeps(io: Io, w: World, r: Ref, reading: Reading, closes: bool)
    requires Inv(w)
    ensures Inv(Inspect(io, w, r, reading, closes))
  {
    if r in w.sessions {
      RefreshKeeps(io, w, r, reading, closes);
      var (w1, ok) := Refresh(io, w, r, reading, closes);
      if !ok {
        HeldChange(io, w1, r, UNCERTAIN);
      }
    }
  }

  lemma InteractKeeps(io: Io, w: World, r: Ref, status: Status)
    requires Inv(w)
    ensures Inv(Interact(io, w, r, status))
  {
    if r in w.sessions && !IsTerminal(status) { HeldChange(io, w, r, NOTHING.(status := Some(status))); }
  }

  lemma CancelKeeps(io: Io, w: World, r: Ref, interrupts: bool, reading: Reading, closes: bool, official: Official)
    requires Inv(w)
    ensures Inv(Cancel(io, w, r, interrupts, reading, closes, official))
  {
    if r in w.sessions { RefreshKeeps(io, w, r, reading, closes); } else { FinalizeKeeps(io, w, [r], official); }
  }

  // --------------------------------------------------------------- start, send

  lemma CreateSessionHolds(io: Io, w: World, r: Ref, server: Option<Option<nat>>)
    requires HeldOrGone(w, r)
    ensures HeldOrGone(CreateSession(io, w, r, server).0, r)
  {}

  lemma MirrorHolds(io: Io, w: World, r: Ref, mirrors: bool)
    requires Inv(w) && HeldOrGone(w, r)
    ensures Inv(Mirror(io, w, r, mirrors).0) && HeldOrGone(Mirror(io, w, r, mirrors).0, r)
  {
    HeldChange(io, w, r, NOTHING);
    HeldChange(io, Change(io, w, r, NOTHING).0, r, NOTHING);
  }

  lemma BeginHolds(io: Io, w: World, r: Ref, l: Launch)
    requires Inv(w) && HeldOrGone(w, r)
    ensures Inv(Begin(io, w, r, l).0) && HeldOrGone(Begin(io, w, r, l).0, r)
  {
    MirrorHolds(io, w, r, l.mirrors);
    HeldChange(io, Mirror(io, w, r, l.mirrors).0, r, NOTHING.(turn := l.turn, status := Some(Running)));
  }

  lemma LaunchTurnKeeps(io: Io, w: World, r: Ref, l: Launch)
    requires Inv(w) && r in w.tasks && HeldOrGone(w, r)
    ensures Inv(LaunchTurn(io, w, r, l).0) && HeldOrGone(LaunchTurn(io, w, r, l).0, r)
  {
    CreateSessionKeeps(io, w, r, l.server);
    CreateSessionHolds(io, w, r, l.server);
    var (w1, ok1) := CreateSession(io, w, r, l.server);
    if ok1 && l.model {
      HeldChange(io, w1, r, NOTHING);
      var (w2, ok2) := Change(io, w1, r, NOTHING);
      if ok2 && l.thread.Some? {
        HeldChange(io, w2, r, NOTHING.(thread := l.thread));
        BeginHolds(io, Change(io, w2, r, NOTHING.(thread := l.thread)).0, r, l);
      }
    }
  }

  lemma StartKeeps(io: Io, w: World, r: Ref, repo: Repo, workspace: Workspace, l: Launch, closes: bool)
    requires Inv(w)
    ensures Inv(Start(io, w, r, repo, workspace, l, closes))
  {
    if w.up && r !in w.tasks && r !in w.sessions && !Conflict(w.tasks, r, repo) {
      var tasks := w.tasks[r := Initial(repo, workspace)];
      CommitKeeps(io, w, tasks);
      var (w1, ok1) := Commit(io, w, tasks);
      if ok1 {
        LaunchTurnKeeps(io, w1, r, l);
        var (w2, stage) := LaunchTurn(io, w1, r, l);
        if stage.AfterTurn? {
          HeldChange(io, w2, r, UNCERTAIN);
        } else if stage.BeforeTurn? {
          var c := NOTHING.(status := Some(Status.Failed), terminal := Some(true));
          HeldChange(io, w2, r, c);
          var (w3, ok3) := Change(io, w2, r, c);
          if ok3 { ReleaseKeeps(io, w3, r, closes); }
        }
      }
    }
  }

  /** The two answers to an authorization are both harmless. */
  lemma AuthorizationKeeps(io: Io, w: World, r: Ref)
    requires Inv(w)
    ensures Inv(Change(io, w, r, GRANTED).0) && Inv(Change(io, w, r, DENIED).0)
  {
    ChangeKeeps(io, w, r, GRANTED);
    ChangeKeeps(io, w, r, DENIED);
  }

  lemma AuthorizeKeeps(io: Io, w: World, r: Ref, access: Access)
    requires Inv(w)
    ensures Inv(Authorize(io, w, r, access).0)
  {
    AuthorizationKeeps(io, w, r);
    AuthorizationKeeps(io, Change(io, w, r, GRANTED).0, r);
  }

  /** The write replaces the inventory file. */
  predicate Stored(outcome: Write) { outcome.Landed? || outcome.Unreported? || outcome == Died(true) }

  /** The listing marks a lock holder as archived, and the write that says so is stored. */
  predicate Exposes(io: Io, w: World, r: Ref, archived: Ref -> Option<bool>) {
    && r in w.tasks && r !in w.sessions && w.tasks[r].thread.Some? && archived(r) == Some(true)
    && !w.tasks[r].repoWriterReleased && Stored(io(w.writes))
  }

  /** Hypothesis on reconciling: at its turn, no task is exposed. */
  predicate ListedSafe(io: Io, w: World, refs: seq<Ref>, archived: Ref -> Option<bool>)
    decreases |refs|
  {
    refs != [] ==>
      !Exposes(io, w, refs[0], archived) &&
      var (w1, ok) := ReconcileListed(io, w, [refs[0]], archived);
      ok ==> ListedSafe(io, w1, refs[1..], archived)
  }

  predicate ReconcileSafe(io: Io, w: World, refs: seq<Ref>, listing: Listing) {
    listing.Listed? ==> ListedSafe(io, w, refs, listing.archived)
  }

  /** A write that is not stored changes no table. */
  lemma UnstoredKeeps(io: Io, w: World, r: Ref, c: Changes)
    requires Inv(w) && !Stored(io(w.writes))
    ensures Inv(Change(io, w, r, c).0) && !Change(io, w, r, c).1
  {}

  lemma ReconcileOne(io: Io, w: World, r: Ref, archived: Ref -> Option<bool>)
    ensures ReconcileFailed(io, w, [r]) == if r in w.tasks then Change(io, w, r, NOTHING) else (w, true)
    ensures ReconcileListed(io, w, [r], archived) ==
      if r !in w.tasks || w.tasks[r].thread.None? || r in w.sessions then (w, true)
      else Change(io, w, r, Observed(archived(r)))
  {
    var nobody: seq<Ref> := [];
    assert [r][1..] == nobody;
    var w1, w2 := Change(io, w, r, NOTHING).0, Change(io, w, r, Observed(archived(r))).0;
    assert ReconcileFailed(io, w, nobody) == (w, true) && ReconcileFailed(io, w1, nobody) == (w1, true);
    assert ReconcileListed(io, w, nobody, archived) == (w, true);
    assert ReconcileListed(io, w2, nobody, archived) == (w2, true);
  }

  lemma ObserveKeeps(io: Io, w: World, r: Ref, archived: Ref -> Option<bool>)
    requires Inv(w) && !Exposes(io, w, r, archived) && r in w.tasks && r !in w.sessions && w.tasks[r].thread.Some?
    ensures Inv(Change(io, w, r, Observed(archived(r))).0)
  {
    if Stored(io(w.writes)) { ChangeKeeps(io, w, r, Observed(archived(r))); }
  }

  lemma {:induction false} ReconcileListedKeeps(io: Io, w: World, refs: seq<Ref>, archived: Ref -> Option<bool>)
    requires Inv(w) && ListedSafe(io, w, refs, archived)
    ensures Inv(ReconcileListed(io, w, refs, archived).0)
    decreases |refs|
  {
    if refs != [] {
      var r := refs[0];
      ReconcileOne(io, w, r, archived);
      if r !in w.tasks || w.tasks[r].thread.None? || r in w.sessions {
        ReconcileListedKeeps(io, w, refs[1..], archived);
      } else {
        ObserveKeeps(io, w, r, archived);
        var (w1, ok) := Change(io, w, r, Observed(archived(r)));
        if ok { ReconcileListedKeeps(io, w1, refs[1..], archived); }
      }
    }
  }

  lemma {:induction false} ReconcileFailedKeeps(io: Io, w: World, refs: seq<Ref>)
    requires Inv(w)
    ensures Inv(ReconcileFailed(io, w, refs).0)
    decreases |refs|
  {
    if refs != [] {
      if refs[0] !in w.tasks {
        ReconcileFailedKeeps(io, w, refs[1..]);
      } else {
        ChangeKeeps(io, w, refs[0], NOTHING);
        var (w1, ok) := Change(io, w, refs[0], NOTHING);
        if ok {
          ReconcileFailedKeeps(io, w1, refs[1..]);
        }
      }
    }
  }

  lemma ReconcileKeeps(io: Io, w: World, refs: seq<Ref>, listing: Listing)
    requires Inv(w) && ReconcileSafe(io, w, refs, listing)
    ensures Inv(Reconcile(io, w, refs, listing).0)
  {
    match listing {
      case Disabled =>
      case Failing => ReconcileFailedKeeps(io, w, refs);
      case Listed(archived) =>
        ReconcileListedKeeps(io, w, refs, archived);
        var (w1, ok) := ReconcileListed(io, w, refs, archived);
        if !ok {
          ReconcileFailedKeeps(io, w1, refs);
        }
    }
  }

  lemma AcquireKeeps(io: Io, w: World, r: Ref)
    requires Inv(w) && r in w.tasks && Resumable(w.tasks[r]) && !Conflict(w.tasks, r, w.tasks[r].repo)
    ensures var w' := Acquire(io, w, w.tasks[r := Resumed(w.tasks[r])]).0;
      Inv(w') && HeldOrGone(w', r)
  {
    var tasks := w.tasks[r := Resumed(w.tasks[r])];
    assert Sound(tasks);
    assert SessionsHold(tasks, w.sessions);
  }

  lemma SendTurnKeeps(io: Io, w: World, r: Ref, resume: Resume, closes: bool, official: Official)
    requires Inv(w) && r in w.tasks && HeldOrGone(w, r)
    ensures Inv(SendTurn(io, w, r, resume, closes, official))
  {
    CreateSessionKeeps(io, w, r, resume.server);
    CreateSessionHolds(io, w, r, resume.server);
    var (w1, ok1) := CreateSession(io, w, r, resume.server);
    if !ok1 {
      HeldChange(io, w1, r, UNCERTAIN);
    } else {
      var c := NOTHING.(turn := resume.turn, status := Some(Running));
      HeldChange(io, w1, r, c);
      var (w2, ok2) := if resume.resumes && resume.turn.Some? then Change(io, w1, r, c) else (w1, false);
      if !ok2 {
        HeldChange(io, w2, r, UNCERTAIN);
        var (w3, ok3) := Change(io, w2, r, UNCERTAIN);
        if ok3 {
          ReleaseKeeps(io, w3, r, closes);
          var (w4, ok4) := Release(io, w3, r, closes);
          if ok4 { FinalizeKeeps(io, w4, [r], official); }
        }
      }
    }
  }

  /** What the listing may show when `send` comes to reconcile. */
  predicate SendSafe(io: Io, w: World, r: Ref, access: Access, listing: Listing) {
    var (w1, ok) := Authorize(io, w, r, access);
    ok ==> ReconcileSafe(io, w1, [r], listing)
  }

  lemma SendAuthorizedKeeps(io: Io, w: World, r: Ref, listing: Listing, resume: Resume, closes: bool,
                            official: Official)
    requires Inv(w) && ReconcileSafe(io, w, [r], listing)
    ensures Inv(SendAuthorized(io, w, r, listing, resume, closes, official))
  {
    ReconcileKeeps(io, w, [r], listing);
    var (w1, ok1) := Reconcile(io, w, [r], listing);
    if ok1 && r in w1.tasks && Resumable(w1.tasks[r]) && !Conflict(w1.tasks, r, w1.tasks[r].repo) {
      AcquireKeeps(io, w1, r);
      var (w2, ok2) := Acquire(io, w1, w1.tasks[r := Resumed(w1.tasks[r])]);
      if ok2 { SendTurnKeeps(io, w2, r, resume, closes, official); }
    }
  }

  lemma SendKeeps(io: Io, w: World, r: Ref, access: Access, listing: Listing, resume: Resume, closes: bool,
                  official: Official)
    requires Inv(w) && SendSafe(io, w, r, access, listing)
    ensures Inv(Send(io, w, r, access, listing, resume, closes, official))
  {
    if r in w.tasks && !w.tasks[r].integrity.RecoveryFailed? {
      AuthorizeKeeps(io, w, r, access);
      var (w1, ok) := Authorize(io, w, r, access);
      if ok { SendAuthorizedKeeps(io, w1, r, listing, resume, closes, official); }
    }
  }

  // ------------------------------------------- archive, revoke, shutdown, restart

  lemma ReleasedIsSafe(io: Io, w: World, r: Ref, listing: Listing)
    requires r in w.tasks && w.tasks[r].repoWriterReleased
    ensures ReconcileSafe(io, w, [r], listing)
  {}

  /** A later world shows the same lock for `r`, and no new session. */
  predicate SameLock(w: World, next: World, r: Ref) {
    && (r in next.sessions ==> r in w.sessions)
    && (r in next.tasks ==> r in w.tasks && next.tasks[r].repoWriterReleased == w.tasks[r].repoWriterReleased)
  }

  lemma SameLockChange(io: Io, w: World, r: Ref, c: Changes)
    requires c.repoWriterReleased.None?
    ensures SameLock(w, Change(io, w, r, c).0, r)
  {}

  lemma ReconcileSameLock(io: Io, w: World, r: Ref, listing: Listing)
    requires r in w.tasks
    ensures SameLock(w, Reconcile(io, w, [r], listing).0, r)
  {
    SameLockChange(io, w, r, NOTHING);
    ReconcileOne(io, w, r, (x: Ref) => None);
    if listing.Listed? {
      var c := Observed(listing.archived(r));
      var w1 := Change(io, w, r, c).0;
      SameLockChange(io, w, r, c);
      SameLockChange(io, w1, r, NOTHING);
      ReconcileOne(io, w, r, listing.archived);
      ReconcileOne(io, w1, r, listing.archived);
    }
  }

  lemma ArchiveKeeps(io: Io, w: World, r: Ref, listing: Listing, archives: bool)
    requires Inv(w)
    ensures Inv(Archive(io, w, r, listing, archives))
  {
    if r in w.tasks && w.tasks[r].terminal && w.tasks[r].officialReleased && w.tasks[r].thread.Some? {
      ReleasedIsSafe(io, w, r, listing);
      ReconcileKeeps(io, w, [r], listing);
      var (w1, ok) := Reconcile(io, w, [r], listing);
      ReconcileSameLock(io, w, r, listing);
      ChangeKeeps(io, w1, r, NOTHING.(archived := Some(true)));
    }
  }

  /** How revoking a task without a session leaves the tables unsound: a recorded process
      is forgotten by the write that frees the lock, or a released task that is not
      terminal takes its lock back and the write that frees it again fails. */
  predicate Breaks(io: Io, w: World, r: Ref) {
    && r in w.tasks && r !in w.sessions && io(w.writes).Landed?
    && var t, second, third := w.tasks[r], io(w.writes + 1), io(w.writes + 2);
       if t.pid.Some? then (if t.terminal then Stored(second) else second.Landed? && Stored(third))
       else
         && !t.terminal && t.repoWriterReleased
         && (second.Unreported? || second == Died(true)
             || (second.Landed? && (third.Lost? || third.Unreported? || third == Died(false))))
  }

  lemma RevokeTaskKeeps(io: Io, w: World, r: Ref, closes: bool)
    requires Inv(w) && !Breaks(io, w, r)
    ensures Inv(RevokeTask(io, w, r, closes).0)
  {
    if r in w.tasks {
      ChangeKeeps(io, w, r, DENIED);
      var (w1, ok1) := Change(io, w, r, DENIED);
      if ok1 {
        if r in w.sessions {
          RevokeSession(io, w1, r, closes);
        } else if w.tasks[r].terminal {
          FreeKeeps(io, w1, r);
        } else if w.tasks[r].repoWriterReleased {
          RevokeReleased(io, w1, r);
        } else {
          ChangeKeeps(io, w1, r, CANCELLED);
          var (w2, ok2) := Change(io, w1, r, CANCELLED);
          if ok2 { FreeKeeps(io, w2, r); }
        }
      }
    }
  }

  lemma RevokeSession(io: Io, w: World, r: Ref, closes: bool)
    requires Inv(w) && r in w.sessions
    ensures Inv(Change(io, w, r, CANCELLED).0)
    ensures Inv(Release(io, Change(io, w, r, CANCELLED).0, r, closes).0) && Inv(Release(io, w, r, closes).0)
  {
    ChangeKeeps(io, w, r, CANCELLED);
    ReleaseKeeps(io, Change(io, w, r, CANCELLED).0, r, closes);
    ReleaseKeeps(io, w, r, closes);
  }

  /** Freeing the lock of a task without a session, unless a stored write forgets its process. */
  lemma FreeKeeps(io: Io, w: World, r: Ref)
    requires Inv(w) && r !in w.sessions && (r in w.tasks ==> w.tasks[r].pid.None? || !Stored(io(w.writes)))
    ensures Inv(Change(io, w, r, FREED).0)
  {
    if Stored(io(w.writes)) { ChangeKeeps(io, w, r, FREED); } else { UnstoredKeeps(io, w, r, FREED); }
  }

  /** Taking the lock of a released task back and freeing it again, when the first write is
      not stored or both tables see the second. */
  lemma RevokeReleased(io: Io, w: World, r: Ref)
    requires Inv(w) && r in w.tasks && r !in w.sessions && w.tasks[r].repoWriterReleased && !w.tasks[r].terminal
    requires !Stored(io(w.writes)) ||
      (io(w.writes).Landed? && (io(w.writes + 1).Landed? || io(w.writes + 1) == Died(true)))
    ensures var (w1, ok) := Change(io, w, r, CANCELLED); Inv(if ok then Change(io, w1, r, FREED).0 else w1)
  {
    if !Stored(io(w.writes)) {
      UnstoredKeeps(io, w, r, CANCELLED);
    } else {
      var t' := Changed(Changed(w.tasks[r], CANCELLED), FREED);
      var w2 := Change(io, Change(io, w, r, CANCELLED).0, r, FREED).0;
      assert w2.disk == w.tasks[r := t'] && (w2.up ==> w2.tasks == w2.disk);
      assert TaskOk(t') && !Holds(t');
      assert Sound(w2.disk);
    }
  }

  /** Hypothesis on revoking a workspace: at its turn, no task breaks. */
  predicate RevokeSafe(io: Io, w: World, refs: seq<Ref>, closes: Ref -> bool)
    decreases |refs|
  {
    refs != [] ==>
      !Breaks(io, w, refs[0]) &&
      var (w1, ok) := RevokeTask(io, w, refs[0], closes(refs[0]));
      ok ==> RevokeSafe(io, w1, refs[1..], closes)
  }

  lemma {:induction false} RevokeAllKeeps(io: Io, w: World, refs: seq<Ref>, closes: Ref -> bool)
    requires Inv(w) && RevokeSafe(io, w, refs, closes)
    ensures Inv(RevokeAll(io, w, refs, closes))
    decreases |refs|
  {
    if refs != [] {
      RevokeTaskKeeps(io, w, refs[0], closes(refs[0]));
      var (w1, ok) := RevokeTask(io, w, refs[0], closes(refs[0]));
      if ok {
        RevokeAllKeeps(io, w1, refs[1..], closes);
      }
    }
  }

  lemma {:induction false} ShutdownKeeps(io: Io, w: World, order: seq<Ref>, closes: Ref -> bool)
    requires Inv(w)
    ensures Inv(Shutdown(io, w, order, closes))
    decreases |order|
  {
    if order != [] {
      var r := order[0];
      if r !in w.sessions {
        ShutdownKeeps(io, w, order[1..], closes);
      } else {
        HeldChange(io, w, r, UNCERTAIN);
        var (w1, ok) := if r in w.tasks && !w.tasks[r].terminal then Change(io, w, r, UNCERTAIN) else (w, true);
        if ok {
          ReleaseKeeps(io, w1, r, closes(r));
          var w2 := Release(io, w1, r, closes(r)).0;
          ShutdownKeeps(io, w2, order[1..], closes);
        }
      }
    }
  }

  /** A record the manager wrote is read back as it was. */
  lemma NormalizeWritten(t: Task)
    requires TaskOk(t)
    ensures Normalize(ToRaw(t)) == t
  {}

  lemma RecoverTaskOk(t: Task, gone: bool)
    requires TaskOk(t)
    ensures TaskOk(RecoverTask(t, gone))
    ensures Holds(RecoverTask(t, gone)) ==> Holds(t)
    ensures RecoverTask(t, gone).repo == t.repo
  {}

  lemma RecoveredSound(disk: Tasks, gone: Ref -> bool)
    requires Sound(disk)
    ensures Sound(Recovered(Inventory(disk), gone))
  {
    var tasks := Recovered(Inventory(disk), gone);
    assert tasks.Keys == disk.Keys;
    forall r | r in disk
      ensures TaskOk(tasks[r]) && (Holds(tasks[r]) ==> Holds(disk[r])) && tasks[r].repo == disk[r].repo
    {
      NormalizeWritten(disk[r]);
      assert tasks[r] == RecoverTask(disk[r], gone(r));
      RecoverTaskOk(disk[r], gone(r));
    }
  }

  lemma {:induction false} ReopenedDistinct(raw: map<Ref, RawTask>, gone: Ref -> bool, order: seq<Ref>)
    requires Distinct(order)
    ensures Distinct(ReopenedRefs(raw, gone, order))
    ensures forall r :: r in ReopenedRefs(raw, gone, order) <==> r in order && Reopened(raw, gone, r)
  {
    if order != [] {
      ReopenedDistinct(raw, gone, order[1..]);
      assert order == [order[0]] + order[1..];
      var rest := ReopenedRefs(raw, gone, order[1..]);
      forall i | 0 <= i < |rest| ensures rest[i] != order[0] { assert rest[i] in order[1..]; }
    }
  }

  lemma RecoveredWorld(w: World, gone: Ref -> bool)
    requires Inv(w)
    ensures Inv(World(true, Recovered(Inventory(w.disk), gone), w.disk, {}, w.writes))
  {
    RecoveredSound(w.disk, gone);
  }

  lemma StartupKeeps(io: Io, w: World, refs: seq<Ref>, official: Official)
    requires Inv(w) && w.up && Distinct(refs)
    ensures var (w1, ok1) := Commit(io, w, w.tasks);
      var (w2, ok2) := Finalize(io, w1, refs, official);
      Inv(w1) && Inv(w2) && Inv(Dead(w1.disk, w1.writes)) && Inv(Dead(w2.disk, w2.writes))
  {
    CommitKeeps(io, w, w.tasks);
    var w1 := Commit(io, w, w.tasks).0;
    FinalizeKeeps(io, w1, refs, official);
    var w2 := Finalize(io, w1, refs, official).0;
    DeadKeeps(w, w1);
    DeadKeeps(w, w2);
  }

  lemma RestartKeeps(io: Io, w: World, order: seq<Ref>, gone: Ref -> bool, official: Official)
    requires Inv(w)
    ensures Inv(Restart(io, w, order, gone, official))
  {
    if Lists(order, w.disk.Keys) {
      var raw := Inventory(w.disk);
      assert raw.Keys == w.disk.Keys;
      if raw == map[] {
        assert w.disk == map[];
      } else {
        StartupIsSound(io, w, ReopenedRefs(raw, gone, order), order, gone, official);
      }
    }
  }

  lemma StartupIsSound(io: Io, w: World, refs: seq<Ref>, order: seq<Ref>, gone: Ref -> bool, official: Official)
    requires Inv(w) && Distinct(order) && Inventory(w.disk) != map[]
    requires refs == ReopenedRefs(Inventory(w.disk), gone, order)
    ensures Inv(Startup(io, Inventory(w.disk), w.disk, w.writes, order, gone, official))
  {
    var w0 := World(true, Recovered(Inventory(w.disk), gone), w.disk, {}, w.writes);
    RecoveredWorld(w, gone);
    ReopenedDistinct(Inventory(w.disk), gone, order);
    StartupKeeps(io, w0, refs, official);
  }

  lemma DeadKeeps(w: World, next: World)
    requires Inv(next)
    ensures Inv(Dead(next.disk, next.writes))
  {}

  // --------------------------------------------------------------------- runs

  predicate Safe(io: Io, w: World, e: Event) {
    match e
    case SendEvent(r, access, listing, _, _, _) => SendSafe(io, w, r, access, listing)
    case ReconcileEvent(refs, listing) => ReconcileSafe(io, w, refs, listing)
    case RevokeEvent(order, workspace, closing) => RevokeSafe(io, w, Affected(w, order, workspace), closing)
    case _ => true
  }

  predicate SafeRun(io: Io, w: World, es: seq<Event>)
    decreases |es|
  {
    es != [] ==> Safe(io, w, es[0]) && SafeRun(io, Apply(io, w, es[0]), es[1..])
  }

  lemma ApplyKeeps(io: Io, w: World, e: Event)
    requires Inv(w) && Safe(io, w, e)
    ensures Inv(Apply(io, w, e))
  {
    match e {
      case StartEvent(r, repo, workspace, launch, closes) => StartKeeps(io, w, r, repo, workspace, launch, closes);
      case SendEvent(r, access, listing, resume, closes, official) =>
        SendKeeps(io, w, r, access, listing, resume, closes, official);
      case CrashEvent(r, closes, official) => HandleCrashKeeps(io, w, r, closes, official);
      case TurnEvent(r, ending, closes) =>
        if r in w.sessions { RecordTerminalKeeps(io, w, r, Notified(ending), closes); }
      case InspectEvent(r, reading, closes) =>
        InspectKeeps(io, w, r, reading, closes);
      case InteractEvent(r, status) =>
        InteractKeeps(io, w, r, status);
      case AuthorizeEvent(r, access) => AuthorizeKeeps(io, w, r, access);
      case CancelEvent(r, interrupts, reading, closes, official) =>
        CancelKeeps(io, w, r, interrupts, reading, closes, official);
      case ReconcileEvent(refs, listing) => ReconcileKeeps(io, w, refs, listing);
      case ArchiveEvent(r, listing, archives) => ArchiveKeeps(io, w, r, listing, archives);
      case RevokeEvent(order, workspace, closing) => RevokeAllKeeps(io, w, Affected(w, order, workspace), closing);
      case ShutdownEvent(order, closing) => ShutdownKeeps(io, w, order, closing);
      case RestartEvent(order, gone, official) => RestartKeeps(io, w, order, gone, official);
    }
  }

  lemma {:induction false} RunKeeps(io: Io, w: World, es: seq<Event>)
    requires Inv(w) && SafeRun(io, w, es)
    ensures Inv(Run(io, w, es))
    decreases |es|
  {
    if es != [] {
      ApplyKeeps(io, w, es[0]);
      RunKeeps(io, Apply(io, w, es[0]), es[1..]);
    }
  }

  /** From a fresh inventory, whatever the writes, sessions and processes do. */
  lemma EveryRunIsSound(io: Io, es: seq<Event>)
    requires SafeRun(io, FRESH, es)
    ensures Inv(Run(io, FRESH, es))
  {
    RunKeeps(io, FRESH, es);
  }
}
