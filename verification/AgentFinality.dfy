/** A recovery failure is final: once the manager shows one, no later event, write failure
    or restart changes it back or resumes it.  Nothing is assumed of the run. */
module AgentFinality {
  import opened Options
  import opened AgentLifecycle

  /** The record of a recovery failure; a free one also has neither lock nor process. */
  predicate FailedTask(t: Task, free: bool) {
    t.integrity.RecoveryFailed? && t.terminal && (free ==> Free(t))
  }

  predicate FailedIn(tasks: Tasks, r: Ref, free: bool) {
    r in tasks && FailedTask(tasks[r], free)
  }

  /** On disk, in memory while a manager runs, and without a session. */
  predicate Fixed(w: World, r: Ref, free: bool) {
    && FailedIn(w.disk, r, free) && r !in w.sessions
    && if w.up then FailedIn(w.tasks, r, free) else w.tasks == map[]
  }

  predicate Free(t: Task) { t.repoWriterReleased && t.pid.None? }

  /** Every recovery failure the manager shows is fixed, and free on disk if it is in memory. */
  ghost predicate AllFixed(w: World) {
    && (!w.up ==> w.tasks == map[])
    && forall r :: r in w.tasks && w.tasks[r].integrity.RecoveryFailed? ==> Fixed(w, r, Free(w.tasks[r]))
  }

  /** The step loses no recovery failure, and shows no new one that is not fixed. */
  ghost predicate Stays(w: World, next: World) {
    && (forall r, free :: Fixed(w, r, free) ==> Fixed(next, r, free))
    && (AllFixed(w) ==> AllFixed(next))
  }

  lemma StaysOn(a: World, b: World, c: World)
    requires Stays(a, b) && Stays(b, c)
    ensures Stays(a, c)
  {}

  /** The change resumes nothing and takes no lock. */
  predicate Gentle(c: Changes) {
    c.integrity.None? && c.terminal.None? && c.repoWriterReleased != Some(false) && (c.pid.None? || c.pid == Some(None))
  }

  /** What may be changed of `r`: a fixed failure only gently, and a failure is recorded
      only of a task that is free of lock, process and session. */
  predicate Allowed(w: World, r: Ref, c: Changes) {
    && (Fixed(w, r, false) ==> Gentle(c))
    && (c.integrity == Some(RecoveryFailed) ==> Candidate(w, r) && c == RECOVERY_FAILED)
  }

  lemma CommitStays(io: Io, w: World, r: Ref, t: Task)
    requires w.up && (Fixed(w, r, false) ==> FailedTask(t, false))
    requires Fixed(w, r, true) ==> FailedTask(t, true)
    requires AllFixed(w) && t.integrity.RecoveryFailed? ==> t.terminal && r !in w.sessions
    ensures Stays(w, Commit(io, w, w.tasks[r := t]).0)
  {}

  lemma ChangeStays(io: Io, w: World, r: Ref, c: Changes)
    requires Allowed(w, r, c)
    ensures Stays(w, Change(io, w, r, c).0)
  {
    if r in w.tasks && w.up { CommitStays(io, w, r, Changed(w.tasks[r], c)); }
  }

  // ------------------------------------------------------------- one task at a time

  /** The manager shows the task as a recovery failure that has ended. */
  predicate Shows(w: World, r: Ref) { FailedIn(w.tasks, r, false) }

  /** Since `w`, only `r` was worked on, and it did not become a failure. */
  ghost predicate Track(w: World, next: World, r: Ref) {
    && (forall x, free :: x != r && Fixed(w, x, free) ==> Fixed(next, x, free))
    && (AllFixed(w) ==> AllFixed(next) && !Shows(next, r))
  }

  lemma TrackStays(w: World, next: World, r: Ref)
    requires Track(w, next, r) && !Fixed(w, r, false)
    ensures Stays(w, next)
  {}

  lemma TrackStart(w: World, r: Ref)
    requires r in w.sessions || !Shows(w, r)
    ensures Track(w, w, r)
  {}

  lemma TrackChange(io: Io, w: World, w1: World, r: Ref, c: Changes)
    requires Track(w, w1, r) && c.integrity != Some(RecoveryFailed)
    ensures Track(w, Change(io, w1, r, c).0, r)
  {
    if AllFixed(w) && r in w1.tasks { ChangeStays(io, w1, r, c); }
  }

  lemma TrackSession(w: World, w1: World, r: Ref, sessions: set<Ref>)
    requires Track(w, w1, r) && sessions - {r} == w1.sessions - {r}
    ensures Track(w, w1.(sessions := sessions), r)
  {
    var w2 := w1.(sessions := sessions);
    assert forall x :: x != r && x in sessions ==> x in w1.sessions - {r};
    assert forall x, free :: x != r && Fixed(w1, x, free) ==> Fixed(w2, x, free);
  }

  lemma TrackRelease(io: Io, w: World, w1: World, r: Ref, closes: bool)
    requires Track(w, w1, r)
    ensures Track(w, Release(io, w1, r, closes).0, r)
  {
    TrackChange(io, w, w1, r, RELEASED);
    TrackChange(io, w, w1, r, TEARING);
    var w2 := Change(io, w1, r, TEARING).0;
    TrackChange(io, w, w2, r, PENDING);
    TrackSession(w, w2, r, w2.sessions - {r});
    var w3 := w2.(sessions := w2.sessions - {r});
    TrackChange(io, w, w3, r, RELEASED);
    TrackChange(io, w, Change(io, w3, r, RELEASED).0, r, PENDING);
  }

  lemma TrackCreateSession(io: Io, w: World, w1: World, r: Ref, server: Option<Option<nat>>)
    requires Track(w, w1, r)
    ensures Track(w, CreateSession(io, w1, r, server).0, r)
  {
    if server.Some? {
      TrackSession(w, w1, r, w1.sessions + {r});
      TrackChange(io, w, w1.(sessions := w1.sessions + {r}), r,
        NOTHING.(serverState := Some(ServerRunning), pid := Some(server.value), officialReleased := Some(false)));
    }
  }

  // ----------------------------------------------------------------- recovery

  lemma {:induction false} SettleStays(io: Io, w: World, refs: seq<Ref>, official: Official)
    requires forall r :: r in refs ==> !Shows(w, r)
    ensures Stays(w, Settle(io, w, refs, official).0)
    decreases |refs|
  {
    if refs != [] {
      var r := refs[0];
      if r in w.tasks && Resolvable(w.tasks[r], official, r) {
        var c := Ended(official.ending(r).value);
        var w1 := Change(io, w, r, c).0;
        assert r in refs;
        ChangeStays(io, w, r, c);
        assert forall x :: x in refs[1..] ==> x in refs;
        SettleStays(io, w1, refs[1..], official);
        StaysOn(w, w1, Settle(io, w1, refs[1..], official).0);
      } else {
        SettleStays(io, w, refs[1..], official);
      }
    }
  }

  lemma {:induction false} FailUnresolvedStays(io: Io, w: World, refs: seq<Ref>)
    ensures Stays(w, FailUnresolved(io, w, refs).0)
    decreases |refs|
  {
    if refs != [] && refs[0] in w.tasks {
      if Candidate(w, refs[0]) {
        ChangeStays(io, w, refs[0], RECOVERY_FAILED);
        var (w1, ok) := Change(io, w, refs[0], RECOVERY_FAILED);
        if ok {
          FailUnresolvedStays(io, w1, refs[1..]);
          StaysOn(w, w1, FailUnresolved(io, w1, refs[1..]).0);
        }
      } else {
        FailUnresolvedStays(io, w, refs[1..]);
      }
    }
  }

  lemma {:induction false} CandidatesHaveNotEnded(w: World, refs: seq<Ref>)
    ensures forall r :: r in Candidates(w, refs) ==> Candidate(w, r)
  {
    if refs != [] { CandidatesHaveNotEnded(w, refs[1..]); }
  }

  lemma FinalizeStays(io: Io, w: World, refs: seq<Ref>, official: Official)
    ensures Stays(w, Finalize(io, w, refs, official).0)
  {
    CandidatesHaveNotEnded(w, refs);
    SettleStays(io, w, Candidates(w, refs), official);
    var (w1, unresolved) := Settle(io, w, Candidates(w, refs), official);
    FailUnresolvedStays(io, w1, unresolved);
    StaysOn(w, w1, FailUnresolved(io, w1, unresolved).0);
  }

  lemma TrackFinalize(io: Io, w: World, w1: World, r: Ref, official: Official)
    requires Track(w, w1, r) && !Fixed(w, r, false)
    ensures Stays(w, Finalize(io, w1, [r], official).0)
  {
    TrackStays(w, w1, r);
    FinalizeStays(io, w1, [r], official);
    StaysOn(w, w1, Finalize(io, w1, [r], official).0);
  }

  // ----------------------------------------------------------------- handlers

  lemma HandleCrashStays(io: Io, w: World, r: Ref, closes: bool, official: Official)
    ensures Stays(w, HandleCrash(io, w, r, closes, official))
  {
    if r in w.sessions && r in w.tasks {
      var t := w.tasks[r];
      var c := NOTHING.(status := Some(if t.terminal then t.status else Unknown),
                        serverState := Some(Crashed), integrity := Some(Uncertain));
      var w1 := Change(io, w, r, c).0;
      TrackStart(w, r);
      TrackRelease(io, w, w, r, closes);
      TrackStays(w, Release(io, w, r, closes).0, r);
      TrackChange(io, w, w, r, c);
      TrackStays(w, w1, r);
      TrackRelease(io, w, w1, r, closes);
      TrackStays(w, Release(io, w1, r, closes).0, r);
      TrackFinalize(io, w, Release(io, w1, r, closes).0, r, official);
    }
  }

  lemma TrackTerminal(io: Io, w: World, w1: World, r: Ref, mapped: Status, closes: bool)
    requires Track(w, w1, r)
    ensures Track(w, RecordTerminal(io, w1, r, mapped, closes).0, r)
  {
    var c := NOTHING.(status := Some(mapped), terminal := Some(IsTerminal(mapped)), repoWriterReleased := Some(false),
                      officialReleased := Some(false), serverState := Some(TearingDown),
                      integrity := Some(if mapped.Unknown? then Uncertain else Confirmed));
    TrackRelease(io, w, w1, r, closes);
    TrackChange(io, w, w1, r, c);
    TrackRelease(io, w, Change(io, w1, r, c).0, r, closes);
  }

  lemma TrackRefresh(io: Io, w: World, w1: World, r: Ref, reading: Reading, closes: bool)
    requires Track(w, w1, r)
    ensures Track(w, Refresh(io, w1, r, reading, closes).0, r)
  {
    match reading {
      case TurnEnded(e) => TrackTerminal(io, w, w1, r, Mapped(e), closes);
      case _ =>
        TrackChange(io, w, w1, r, UNCERTAIN);
        TrackChange(io, w, w1, r, NOTHING.(status := Some(Running), integrity := Some(Confirmed)));
    }
  }

  lemma LiveStays(io: Io, w: World, r: Ref, reading: Reading, closes: bool)
    requires r in w.sessions
    ensures var w1 := Refresh(io, w, r, reading, closes).0; Stays(w, w1) && Stays(w, Change(io, w1, r, UNCERTAIN).0)
  {
    var w1 := Refresh(io, w, r, reading, closes).0;
    TrackStart(w, r);
    TrackRefresh(io, w, w, r, reading, closes);
    TrackStays(w, w1, r);
    TrackChange(io, w, w1, r, UNCERTAIN);
    TrackStays(w, Change(io, w1, r, UNCERTAIN).0, r);
  }

  lemma InspectStays(io: Io, w: World, r: Ref, reading: Reading, closes: bool)
    ensures Stays(w, Inspect(io, w, r, reading, closes))
  {
    if r in w.sessions { LiveStays(io, w, r, reading, closes); }
  }

  lemma TurnStays(io: Io, w: World, r: Ref, ending: Option<Ending>, closes: bool)
    ensures Stays(w, TurnNotification(io, w, r, ending, closes))
  {
    if r in w.sessions {
      TrackStart(w, r);
      TrackTerminal(io, w, w, r, Notified(ending), closes);
      TrackStays(w, RecordTerminal(io, w, r, Notified(ending), closes).0, r);
    }
  }

  lemma InteractStays(io: Io, w: World, r: Ref, status: Status)
    ensures Stays(w, Interact(io, w, r, status))
  {
    if r in w.sessions { ChangeStays(io, w, r, NOTHING.(status := Some(status))); }
  }

  lemma CancelStays(io: Io, w: World, r: Ref, interrupts: bool, reading: Reading, closes: bool, official: Official)
    ensures Stays(w, Cancel(io, w, r, interrupts, reading, closes, official))
  {
    if r in w.sessions { LiveStays(io, w, r, reading, closes); } else { FinalizeStays(io, w, [r], official); }
  }

  lemma TrackBegin(io: Io, w: World, w1: World, r: Ref, l: Launch)
    requires Track(w, w1, r)
    ensures Track(w, Begin(io, w1, r, l).0, r)
  {
    TrackChange(io, w, w1, r, NOTHING);
    TrackChange(io, w, Change(io, w1, r, NOTHING).0, r, NOTHING);
    TrackChange(io, w, Mirror(io, w1, r, l.mirrors).0, r, NOTHING.(turn := l.turn, status := Some(Running)));
  }

  lemma TrackLaunch(io: Io, w: World, w1: World, r: Ref, l: Launch)
    requires Track(w, w1, r)
    ensures Track(w, LaunchTurn(io, w1, r, l).0, r)
  {
    TrackCreateSession(io, w, w1, r, l.server);
    var w2 := CreateSession(io, w1, r, l.server).0;
    TrackChange(io, w, w2, r, NOTHING);
    var w3 := Change(io, w2, r, NOTHING).0;
    TrackChange(io, w, w3, r, NOTHING.(thread := l.thread));
    TrackBegin(io, w, Change(io, w3, r, NOTHING.(thread := l.thread)).0, r, l);
  }

  lemma StartStays(io: Io, w: World, r: Ref, repo: Repo, workspace: Workspace, l: Launch, closes: bool)
    ensures Stays(w, Start(io, w, r, repo, workspace, l, closes))
  {
    if w.up && r !in w.tasks && r !in w.sessions {
      var w1 := Commit(io, w, w.tasks[r := Initial(repo, workspace)]).0;
      CommitStays(io, w, r, Initial(repo, workspace));
      assert Track(w, w1, r);
      TrackLaunch(io, w, w1, r, l);
      LaunchedStays(io, w, LaunchTurn(io, w1, r, l).0, r, closes);
    }
  }

  /** The outcomes of `start` once it has tried to launch a turn. */
  lemma LaunchedStays(io: Io, w: World, w1: World, r: Ref, closes: bool)
    requires Track(w, w1, r) && !Fixed(w, r, false)
    ensures var w2 := Change(io, w1, r, NOTHING.(status := Some(Failed), terminal := Some(true))).0;
      Stays(w, w1) && Stays(w, Change(io, w1, r, UNCERTAIN).0) && Stays(w, w2) && Stays(w, Release(io, w2, r, closes).0)
  {
    var c := NOTHING.(status := Some(Failed), terminal := Some(true));
    var w2 := Change(io, w1, r, c).0;
    TrackStays(w, w1, r);
    TrackChange(io, w, w1, r, UNCERTAIN);
    TrackStays(w, Change(io, w1, r, UNCERTAIN).0, r);
    TrackChange(io, w, w1, r, c);
    TrackStays(w, w2, r);
    TrackRelease(io, w, w2, r, closes);
    TrackStays(w, Release(io, w2, r, closes).0, r);
  }

  lemma AuthorizeStays(io: Io, w: World, r: Ref, access: Access)
    ensures Stays(w, Authorize(io, w, r, access).0)
  {
    var w1 := Change(io, w, r, GRANTED).0;
    ChangeStays(io, w, r, GRANTED);
    ChangeStays(io, w, r, DENIED);
    ChangeStays(io, w1, r, DENIED);
    StaysOn(w, w1, Change(io, w1, r, DENIED).0);
  }

  lemma {:induction false} ReconcileListedStays(io: Io, w: World, refs: seq<Ref>, archived: Ref -> Option<bool>)
    ensures Stays(w, ReconcileListed(io, w, refs, archived).0)
    decreases |refs|
  {
    if refs != [] {
      var w1 := Change(io, w, refs[0], Observed(archived(refs[0]))).0;
      ChangeStays(io, w, refs[0], Observed(archived(refs[0])));
      ReconcileListedStays(io, w, refs[1..], archived);
      ReconcileListedStays(io, w1, refs[1..], archived);
      StaysOn(w, w1, ReconcileListed(io, w1, refs[1..], archived).0);
    }
  }

  lemma {:induction false} ReconcileFailedStays(io: Io, w: World, refs: seq<Ref>)
    ensures Stays(w, ReconcileFailed(io, w, refs).0)
    decreases |refs|
  {
    if refs != [] {
      var w1 := Change(io, w, refs[0], NOTHING).0;
      ChangeStays(io, w, refs[0], NOTHING);
      ReconcileFailedStays(io, w, refs[1..]);
      ReconcileFailedStays(io, w1, refs[1..]);
      StaysOn(w, w1, ReconcileFailed(io, w1, refs[1..]).0);
    }
  }

  lemma ReconcileStays(io: Io, w: World, refs: seq<Ref>, listing: Listing)
    ensures Stays(w, Reconcile(io, w, refs, listing).0)
  {
    ReconcileFailedStays(io, w, refs);
    if listing.Listed? {
      var w1 := ReconcileListed(io, w, refs, listing.archived).0;
      ReconcileListedStays(io, w, refs, listing.archived);
      ReconcileFailedStays(io, w1, refs);
      StaysOn(w, w1, ReconcileFailed(io, w1, refs).0);
    }
  }

  lemma SendTurnStays(io: Io, w: World, w1: World, r: Ref, resume: Resume, closes: bool, official: Official)
    requires Track(w, w1, r) && !Fixed(w, r, false)
    ensures Stays(w, SendTurn(io, w1, r, resume, closes, official))
  {
    TrackCreateSession(io, w, w1, r, resume.server);
    var (w2, ok) := CreateSession(io, w1, r, resume.server);
    if ok && resume.resumes && resume.turn.Some? {
      RunningStays(io, w, w2, r, resume.turn, closes, official);
    } else {
      Uncertainly(io, w, w2, r, closes, official);
    }
  }

  lemma RunningStays(io: Io, w: World, w1: World, r: Ref, turn: Option<nat>, closes: bool, official: Official)
    requires Track(w, w1, r) && !Fixed(w, r, false)
    ensures var w2 := Change(io, w1, r, NOTHING.(turn := turn, status := Some(Running))).0;
      var w3 := Change(io, w2, r, UNCERTAIN).0;
      var w4 := Release(io, w3, r, closes).0;
      Stays(w, w2) && Stays(w, w3) && Stays(w, w4) && Stays(w, Finalize(io, w4, [r], official).0)
  {
    var running := NOTHING.(turn := turn, status := Some(Running));
    TrackChange(io, w, w1, r, running);
    TrackStays(w, Change(io, w1, r, running).0, r);
    Uncertainly(io, w, Change(io, w1, r, running).0, r, closes, official);
  }

  /** The catch block of `send`. */
  lemma Uncertainly(io: Io, w: World, w1: World, r: Ref, closes: bool, official: Official)
    requires Track(w, w1, r) && !Fixed(w, r, false)
    ensures var w2 := Change(io, w1, r, UNCERTAIN).0;
      var w3 := Release(io, w2, r, closes).0;
      Stays(w, w2) && Stays(w, w3) && Stays(w, Finalize(io, w3, [r], official).0)
  {
    TrackChange(io, w, w1, r, UNCERTAIN);
    var w2 := Change(io, w1, r, UNCERTAIN).0;
    TrackStays(w, w2, r);
    TrackRelease(io, w, w2, r, closes);
    TrackStays(w, Release(io, w2, r, closes).0, r);
    TrackFinalize(io, w, Release(io, w2, r, closes).0, r, official);
  }

  lemma TrackAcquire(io: Io, w: World, r: Ref)
    requires r in w.tasks && Resumable(w.tasks[r])
    ensures Track(w, Acquire(io, w, w.tasks[r := Resumed(w.tasks[r])]).0, r) && !Fixed(w, r, false)
  {}

  lemma SendStays(io: Io, w: World, r: Ref, access: Access, listing: Listing, resume: Resume, closes: bool,
                  official: Official)
    ensures Stays(w, Send(io, w, r, access, listing, resume, closes, official))
  {
    AuthorizeStays(io, w, r, access);
    var (w1, ok1) := Authorize(io, w, r, access);
    if ok1 {
      SendAuthorizedStays(io, w1, r, listing, resume, closes, official);
      StaysOn(w, w1, SendAuthorized(io, w1, r, listing, resume, closes, official));
    }
  }

  lemma SendAuthorizedStays(io: Io, w: World, r: Ref, listing: Listing, resume: Resume, closes: bool,
                            official: Official)
    ensures Stays(w, SendAuthorized(io, w, r, listing, resume, closes, official))
  {
    ReconcileStays(io, w, [r], listing);
    var (w2, ok2) := Reconcile(io, w, [r], listing);
    if ok2 && r in w2.tasks && Resumable(w2.tasks[r]) {
      ResumeStays(io, w2, r, resume, closes, official);
      var w3 := Acquire(io, w2, w2.tasks[r := Resumed(w2.tasks[r])]).0;
      StaysOn(w, w2, w3);
      StaysOn(w, w2, SendTurn(io, w3, r, resume, closes, official));
    }
  }

  lemma ResumeStays(io: Io, w: World, r: Ref, resume: Resume, closes: bool, official: Official)
    requires r in w.tasks && Resumable(w.tasks[r])
    ensures var w1 := Acquire(io, w, w.tasks[r := Resumed(w.tasks[r])]).0;
      Stays(w, w1) && Stays(w, SendTurn(io, w1, r, resume, closes, official))
  {
    TrackAcquire(io, w, r);
    var w1 := Acquire(io, w, w.tasks[r := Resumed(w.tasks[r])]).0;
    TrackStays(w, w1, r);
    SendTurnStays(io, w, w1, r, resume, closes, official);
  }

  lemma ArchiveStays(io: Io, w: World, r: Ref, listing: Listing, archives: bool)
    ensures Stays(w, Archive(io, w, r, listing, archives))
  {
    ReconcileStays(io, w, [r], listing);
    var w1 := Reconcile(io, w, [r], listing).0;
    ChangeStays(io, w1, r, NOTHING.(archived := Some(true)));
    StaysOn(w, w1, Change(io, w1, r, NOTHING.(archived := Some(true))).0);
  }

  lemma RevokeTaskStays(io: Io, w: World, r: Ref, closes: bool)
    ensures Stays(w, RevokeTask(io, w, r, closes).0)
  {
    var w1 := Change(io, w, r, DENIED).0;
    ChangeStays(io, w, r, DENIED);
    ChangeStays(io, w1, r, FREED);
    StaysOn(w, w1, Change(io, w1, r, FREED).0);
    if r in w.tasks && (r in w.sessions || !Shows(w, r)) {
      TrackStart(w, r);
      TrackChange(io, w, w, r, DENIED);
      RevokeTrack(io, w, w1, r, closes);
    }
  }

  lemma RevokeTrack(io: Io, w: World, w1: World, r: Ref, closes: bool)
    requires Track(w, w1, r) && (r in w.sessions || !Shows(w, r)) && r in w.tasks
    ensures var w2 := Change(io, w1, r, CANCELLED).0;
      && Stays(w, w2) && Stays(w, Release(io, w1, r, closes).0) && Stays(w, Release(io, w2, r, closes).0)
      && Stays(w, Change(io, w2, r, FREED).0)
  {
    var w2 := Change(io, w1, r, CANCELLED).0;
    TrackChange(io, w, w1, r, CANCELLED);
    TrackStays(w, w2, r);
    TrackRelease(io, w, w1, r, closes);
    TrackStays(w, Release(io, w1, r, closes).0, r);
    TrackRelease(io, w, w2, r, closes);
    TrackStays(w, Release(io, w2, r, closes).0, r);
    TrackChange(io, w, w2, r, FREED);
    TrackStays(w, Change(io, w2, r, FREED).0, r);
  }

  lemma {:induction false} RevokeAllStays(io: Io, w: World, refs: seq<Ref>, closes: Ref -> bool)
    ensures Stays(w, RevokeAll(io, w, refs, closes))
    decreases |refs|
  {
    if refs != [] {
      var w1 := RevokeTask(io, w, refs[0], closes(refs[0])).0;
      RevokeTaskStays(io, w, refs[0], closes(refs[0]));
      RevokeAllStays(io, w1, refs[1..], closes);
      StaysOn(w, w1, RevokeAll(io, w1, refs[1..], closes));
    }
  }

  lemma ShutdownOne(io: Io, w: World, r: Ref, closes: bool)
    requires r in w.sessions
    ensures var w1 := Change(io, w, r, UNCERTAIN).0;
      Stays(w, w1) && Stays(w, Release(io, w1, r, closes).0) && Stays(w, Release(io, w, r, closes).0)
  {
    var w1 := Change(io, w, r, UNCERTAIN).0;
    TrackStart(w, r);
    TrackChange(io, w, w, r, UNCERTAIN);
    TrackStays(w, w1, r);
    TrackRelease(io, w, w1, r, closes);
    TrackStays(w, Release(io, w1, r, closes).0, r);
    TrackRelease(io, w, w, r, closes);
    TrackStays(w, Release(io, w, r, closes).0, r);
  }

  lemma {:induction false} ShutdownStays(io: Io, w: World, order: seq<Ref>, closes: Ref -> bool)
    ensures Stays(w, Shutdown(io, w, order, closes))
    decreases |order|
  {
    if order != [] {
      var r := order[0];
      if r !in w.sessions {
        ShutdownStays(io, w, order[1..], closes);
      } else {
        ShutdownOne(io, w, r, closes(r));
        var w1 := if r in w.tasks && !w.tasks[r].terminal then Change(io, w, r, UNCERTAIN).0 else w;
        var w2 := Release(io, w1, r, closes(r)).0;
        ShutdownStays(io, w2, order[1..], closes);
        StaysOn(w, w2, Shutdown(io, w2, order[1..], closes));
      }
    }
  }

  // ------------------------------------------------------------------- restarts

  /** A failure read back, whatever became of its recorded process. */
  lemma ReadBack(t: Task, gone: bool, free: bool)
    ensures FailedTask(t, free) ==> FailedTask(RecoverTask(Normalize(ToRaw(t)), gone), free)
    ensures RecoverTask(Normalize(ToRaw(t)), gone).integrity.RecoveryFailed? ==> FailedTask(t, false)
  {}

  /** The table a new process reads and writes back, and the world then. */
  lemma OpenedStays(w: World, gone: Ref -> bool, writes: nat)
    ensures var tasks := Recovered(Inventory(w.disk), gone); Stays(w, World(true, tasks, tasks, {}, writes))
  {
    var tasks := Recovered(Inventory(w.disk), gone);
    var next := World(true, tasks, tasks, {}, writes);
    RecoveredFailures(Inventory(w.disk), gone, writes);
    assert tasks.Keys == w.disk.Keys;
    forall r, free | Fixed(w, r, free) ensures Fixed(next, r, free) { ReadBack(w.disk[r], gone(r), free); }
  }

  /** Whatever an inventory holds: what is read from it as a recovery failure has ended. */
  lemma RecoveredFailures(raw: map<Ref, RawTask>, gone: Ref -> bool, writes: nat)
    ensures var tasks := Recovered(raw, gone); AllFixed(World(true, tasks, tasks, {}, writes))
  {}

  lemma DeadStays(w: World, next: World)
    requires forall r, free :: Fixed(w, r, free) ==> FailedIn(next.disk, r, free)
    ensures Stays(w, Dead(next.disk, next.writes))
  {}

  /** The first write of a new process, and what follows it. */
  lemma WrittenStays(io: Io, w: World, gone: Ref -> bool, refs: seq<Ref>, official: Official)
    ensures var tasks := Recovered(Inventory(w.disk), gone);
      var (w1, ok) := Commit(io, World(true, tasks, w.disk, {}, w.writes), tasks);
      var w2 := Finalize(io, w1, refs, official).0;
      if ok then Stays(w, w2) && Stays(w, Dead(w2.disk, w2.writes)) else Stays(w, Dead(w1.disk, w1.writes))
  {
    var tasks := Recovered(Inventory(w.disk), gone);
    var (w1, ok) := Commit(io, World(true, tasks, w.disk, {}, w.writes), tasks);
    OpenedStays(w, gone, w1.writes);
    if ok {
      FinalizeStays(io, w1, refs, official);
      var w2 := Finalize(io, w1, refs, official).0;
      StaysOn(w, w1, w2);
      DeadStays(w, w2);
    } else {
      DeadStays(w, w1);
    }
  }

  lemma RestartStays(io: Io, w: World, order: seq<Ref>, gone: Ref -> bool, official: Official)
    ensures Stays(w, Restart(io, w, order, gone, official))
  {
    if Lists(order, w.disk.Keys) {
      assert Inventory(w.disk).Keys == w.disk.Keys;
      WrittenStays(io, w, gone, ReopenedRefs(Inventory(w.disk), gone, order), official);
    }
  }

  // ------------------------------------------------------------------------ runs

  lemma ApplyStays(io: Io, w: World, e: Event)
    ensures Stays(w, Apply(io, w, e))
  {
    match e {
      case StartEvent(r, repo, workspace, launch, closes) => StartStays(io, w, r, repo, workspace, launch, closes);
      case SendEvent(r, access, listing, resume, closes, official) =>
        SendStays(io, w, r, access, listing, resume, closes, official);
      case CrashEvent(r, closes, official) => HandleCrashStays(io, w, r, closes, official);
      case TurnEvent(r, ending, closes) => TurnStays(io, w, r, ending, closes);
      case InspectEvent(r, reading, closes) => InspectStays(io, w, r, reading, closes);
      case InteractEvent(r, status) => InteractStays(io, w, r, status);
      case AuthorizeEvent(r, access) => AuthorizeStays(io, w, r, access);
      case CancelEvent(r, interrupts, reading, closes, official) =>
        CancelStays(io, w, r, interrupts, reading, closes, official);
      case ReconcileEvent(refs, listing) => ReconcileStays(io, w, refs, listing);
      case ArchiveEvent(r, listing, archives) => ArchiveStays(io, w, r, listing, archives);
      case RevokeEvent(order, workspace, closing) => RevokeAllStays(io, w, Affected(w, order, workspace), closing);
      case ShutdownEvent(order, closing) => ShutdownStays(io, w, order, closing);
      case RestartEvent(order, gone, official) => RestartStays(io, w, order, gone, official);
    }
  }

  lemma {:induction false} RunStays(io: Io, w: World, es: seq<Event>)
    ensures Stays(w, Run(io, w, es))
    decreases |es|
  {
    if es != [] {
      ApplyStays(io, w, es[0]);
      RunStays(io, Apply(io, w, es[0]), es[1..]);
      StaysOn(w, Apply(io, w, es[0]), Run(io, Apply(io, w, es[0]), es[1..]));
    }
  }

  // ----------------------------------------------------------------- main results

  /** A recovery failure is never left and never resumed, in any run from any world. */
  lemma RecoveryFailureStays(io: Io, w: World, es: seq<Event>, r: Ref, free: bool)
    requires Fixed(w, r, free)
    ensures Fixed(Run(io, w, es), r, free)
  {
    RunStays(io, w, es);
  }

  /** Whatever an inventory holds and whatever happens after a manager starts on it: each
      recovery failure shown then stays in every later run, without its lock and process
      if it was shown without them. */
  lemma EveryFailureIsFinal(io: Io, raw: map<Ref, RawTask>, disk: Tasks, writes: nat, order: seq<Ref>,
                            gone: Ref -> bool,
                            official: Official, es: seq<Event>, later: seq<Event>, r: Ref)
    requires var w := Run(io, Startup(io, raw, disk, writes, order, gone, official), es);
      r in w.tasks && w.tasks[r].integrity.RecoveryFailed?
    ensures var w := Run(io, Startup(io, raw, disk, writes, order, gone, official), es);
      Fixed(Run(io, w, later), r, Free(w.tasks[r]))
  {
    StartupFixed(io, raw, disk, writes, order, gone, official);
    var w0 := Startup(io, raw, disk, writes, order, gone, official);
    RunStays(io, w0, es);
    var w := Run(io, w0, es);
    RecoveryFailureStays(io, w, later, r, Free(w.tasks[r]));
  }

  lemma StartupFixed(io: Io, raw: map<Ref, RawTask>, disk: Tasks, writes: nat, order: seq<Ref>, gone: Ref -> bool,
                     official: Official)
    ensures AllFixed(Startup(io, raw, disk, writes, order, gone, official))
  {
    if raw != map[] {
      var tasks := Recovered(raw, gone);
      var (w1, ok1) := Commit(io, World(true, tasks, disk, {}, writes), tasks);
      RecoveredFailures(raw, gone, w1.writes);
      if ok1 { FinalizeStays(io, w1, ReopenedRefs(raw, gone, order), official); }
    }
  }
}
