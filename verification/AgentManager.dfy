/** The agent manager as the program writes it: a task table, a session table and an
    inventory file, updated step by step.  Each method does what the function of the
    same handler in AgentLifecycle says. */
module AgentController {
  import opened Options
  import opened AgentLifecycle
  import opened AgentInvariants
  import opened AgentRecovery

  lemma SettleFirst(io: Io, w: World, refs: seq<Ref>, i: nat, official: Official)
    requires i < |refs|
    ensures var r := refs[i];
      var (w1, done) := if r in w.tasks && Resolvable(w.tasks[r], official, r)
                        then Change(io, w, r, Ended(official.ending(r).value)) else (w, false);
      var (next, rest) := Settle(io, w1, refs[i + 1..], official);
      Settle(io, w, refs[i..], official) == (next, (if done then [] else [r]) + rest)
  {
    assert refs[i..][0] == refs[i] && refs[i..][1..] == refs[i + 1..];
  }

  lemma Regroup(a: seq<Ref>, b: seq<Ref>, c: seq<Ref>)
    ensures a + (b + c) == (a + b) + c && a + [] == a
  {}

  class AgentManager {
    const io: Io
    var up: bool
    var tasks: Tasks
    var disk: Tasks
    var sessions: set<Ref>
    var writes: nat

    function State(): World
      reads this
    {
      World(up, tasks, disk, sessions, writes)
    }

    /** A manager on a fresh inventory. */
    constructor (io: Io)
      ensures this.io == io && State() == FRESH && Inv(State())
    {
      this.io := io;
      up, tasks, disk, sessions, writes := true, map[], map[], {}, 0;
    }

    /** #persistAll; a process that dies loses its memory. */
    method Persist() returns (outcome: Write)
      modifies this
      ensures outcome == io(old(writes)) && writes == old(writes) + 1
      ensures disk == if outcome.Lost? || outcome == Died(false) then old(disk) else old(tasks)
      ensures if outcome.Died? then !up && tasks == map[] && sessions == {}
              else up == old(up) && tasks == old(tasks) && sessions == old(sessions)
    {
      outcome := io(writes);
      writes := writes + 1;
      if !outcome.Lost? && outcome != Died(false) { disk := tasks; }
      if outcome.Died? { up, tasks, sessions := false, map[], {}; }
    }

    method SetAndPersist(next: Tasks) returns (ok: bool)
      modifies this
      ensures (State(), ok) == Commit(io, old(State()), next)
    {
      var previous := tasks;
      tasks := next;
      var outcome := Persist();
      ok := outcome.Landed?;
      if outcome.Lost? || outcome.Unreported? { tasks := previous; }
    }

    method ChangeTask(r: Ref, c: Changes) returns (ok: bool)
      modifies this
      ensures (State(), ok) == Change(io, old(State()), r, c)
    {
      if r !in tasks { return false; }
      ok := SetAndPersist(tasks[r := Changed(tasks[r], c)]);
    }

    method ReleaseSession(r: Ref, closes: bool) returns (ok: bool)
      modifies this
      ensures (State(), ok) == Release(io, old(State()), r, closes)
      ensures old(Inv(State())) ==> Inv(State())
    {
      if Inv(State()) { ReleaseKeeps(io, State(), r, closes); }
      if r !in sessions {
        ok := ChangeTask(r, RELEASED);
        return;
      }
      ok := ChangeTask(r, TEARING);
      if !ok { return; }
      if closes {
        sessions := sessions - {r};
        ok := ChangeTask(r, RELEASED);
        if ok { return; }
      }
      ok := ChangeTask(r, PENDING);
    }

    method OpenSession(r: Ref, server: Option<Option<nat>>) returns (ok: bool)
      modifies this
      ensures (State(), ok) == CreateSession(io, old(State()), r, server)
      ensures old(Inv(State()) && r in tasks && !tasks[r].repoWriterReleased) ==> Inv(State())
    {
      if Inv(State()) && r in tasks && !tasks[r].repoWriterReleased { CreateSessionKeeps(io, State(), r, server); }
      if r in sessions { return true; }
      if server.None? { return false; }
      sessions := sessions + {r};
      ok := ChangeTask(r,
        NOTHING.(serverState := Some(ServerRunning), pid := Some(server.value), officialReleased := Some(false)));
    }

    /** The official endings of the candidates, recorded one by one. */
    method SettleOfficial(candidates: seq<Ref>, official: Official) returns (unresolved: seq<Ref>)
      modifies this
      ensures (State(), unresolved) == Settle(io, old(State()), candidates, official)
    {
      unresolved := [];
      var i := 0;
      ghost var all := Settle(io, State(), candidates, official);
      assert candidates[0..] == candidates && [] + all.1 == all.1;
      while i < |candidates|
        invariant 0 <= i <= |candidates|
        invariant all.0 == Settle(io, State(), candidates[i..], official).0
        invariant all.1 == unresolved + Settle(io, State(), candidates[i..], official).1
      {
        var r := candidates[i];
        SettleFirst(io, State(), candidates, i, official);
        var done := false;
        if r in tasks && Resolvable(tasks[r], official, r) {
          done := ChangeTask(r, Ended(official.ending(r).value));
        }
        Regroup(unresolved, if done then [] else [r], Settle(io, State(), candidates[i + 1..], official).1);
        if !done { unresolved := unresolved + [r]; }
        i := i + 1;
      }
      assert unresolved + [] == unresolved;
    }

    method FailTasks(unresolved: seq<Ref>) returns (ok: bool)
      modifies this
      ensures (State(), ok) == FailUnresolved(io, old(State()), unresolved)
    {
      ghost var before := State();
      var i := 0;
      while i < |unresolved|
        invariant 0 <= i <= |unresolved|
        invariant FailUnresolved(io, before, unresolved) == FailUnresolved(io, State(), unresolved[i..])
      {
        var r := unresolved[i];
        assert unresolved[i..][1..] == unresolved[i + 1..];
        if r !in tasks { return false; }
        if Candidate(State(), r) {
          var done := ChangeTask(r, RECOVERY_FAILED);
          if !done { return false; }
        }
        i := i + 1;
      }
      return true;
    }

    /** #finalizeReleasedRecovery */
    method FinalizeReleased(refs: seq<Ref>, official: Official) returns (ok: bool)
      modifies this
      ensures (State(), ok) == Finalize(io, old(State()), refs, official)
    {
      var unresolved := SettleOfficial(Candidates(State(), refs), official);
      ok := FailTasks(unresolved);
    }

    method OnCrash(r: Ref, closes: bool, official: Official)
      modifies this
      ensures State() == HandleCrash(io, old(State()), r, closes, official)
      ensures old(Inv(State())) ==> Inv(State())
    {
      if Inv(State()) { HandleCrashKeeps(io, State(), r, closes, official); }
      if r !in sessions || r !in tasks { return; }
      var task := tasks[r];
      if task.authorization.Revoked? {
        var _ := ReleaseSession(r, closes);
        return;
      }
      var ok := ChangeTask(r,
        NOTHING.(status := Some(if task.terminal then task.status else Unknown),
                 serverState := Some(Crashed), integrity := Some(Uncertain)));
      if !ok { return; }
      ok := ReleaseSession(r, closes);
      if ok { var _ := FinalizeReleased([r], official); }
    }

    method OnTerminal(r: Ref, mapped: Status, closes: bool) returns (ok: bool)
      modifies this
      ensures (State(), ok) == RecordTerminal(io, old(State()), r, mapped, closes)
      ensures old(Inv(State()) && TurnStatus(mapped) && r in sessions) ==> Inv(State())
    {
      if Inv(State()) && TurnStatus(mapped) && r in sessions { RecordTerminalKeeps(io, State(), r, mapped, closes); }
      if r !in tasks { return false; }
      if !tasks[r].terminal {
        ok := ChangeTask(r,
          NOTHING.(status := Some(mapped), terminal := Some(IsTerminal(mapped)), repoWriterReleased := Some(false),
                   officialReleased := Some(false), serverState := Some(TearingDown),
                   integrity := Some(if mapped.Unknown? then Uncertain else Confirmed)));
        if !ok { return; }
      }
      ok := ReleaseSession(r, closes);
    }

    /** turn/completed, for the recorded turn. */
    method OnTurnCompleted(r: Ref, ending: Option<Ending>, closes: bool)
      modifies this
      ensures State() == TurnNotification(io, old(State()), r, ending, closes)
      ensures old(Inv(State())) ==> Inv(State())
    {
      if r !in sessions { return; }
      var status := if ending.Some? then Mapped(ending.value) else Unknown;
      var _ := OnTerminal(r, status, closes);
    }

    method RefreshActive(r: Ref, reading: Reading, closes: bool) returns (ok: bool)
      modifies this
      ensures (State(), ok) == Refresh(io, old(State()), r, reading, closes)
      ensures old(Inv(State()) && r in sessions) ==> Inv(State())
    {
      if Inv(State()) && r in sessions { RefreshKeeps(io, State(), r, reading, closes); }
      if r !in tasks { return false; }
      var task := tasks[r];
      if task.thread.None? || task.archived || task.terminal { return true; }
      match reading {
        case Unreadable => ok := false;
        case TurnEnded(e) => ok := OnTerminal(r, Mapped(e), closes);
        case InProgress(approvalPending) =>
          ok := true;
          if task.status.Unknown? && !approvalPending {
            ok := ChangeTask(r, NOTHING.(status := Some(Running), integrity := Some(Confirmed)));
          }
        case _ => ok := ChangeTask(r, UNCERTAIN);
      }
    }

    /** `show` and `wait` on a task whose session runs. */
    method Show(r: Ref, reading: Reading, closes: bool)
      modifies this
      ensures State() == Inspect(io, old(State()), r, reading, closes)
      ensures old(Inv(State())) ==> Inv(State())
    {
      if Inv(State()) { InspectKeeps(io, State(), r, reading, closes); }
      if r in tasks && r in sessions && !tasks[r].terminal && tasks[r].serverState.ServerRunning? {
        var ok := RefreshActive(r, reading, closes);
        if !ok { var _ := ChangeTask(r, UNCERTAIN); }
      }
    }

    method CancelTask(r: Ref, interrupts: bool, reading: Reading, closes: bool, official: Official)
      modifies this
      ensures State() == Cancel(io, old(State()), r, interrupts, reading, closes, official)
      ensures old(Inv(State())) ==> Inv(State())
    {
      if Inv(State()) { CancelKeeps(io, State(), r, interrupts, reading, closes, official); }
      if r !in tasks || tasks[r].terminal { return; }
      if r !in sessions {
        if Candidate(State(), r) { var _ := FinalizeReleased([r], official); }
        return;
      }
      if tasks[r].thread.None? || tasks[r].turn.None? || !interrupts { return; }
      var _ := RefreshActive(r, reading, closes);
    }

    method ArchiveTask(r: Ref, listing: Listing, archives: bool)
      modifies this
      ensures State() == Archive(io, old(State()), r, listing, archives)
      ensures old(Inv(State())) ==> Inv(State())
    {
      if Inv(State()) { ArchiveKeeps(io, State(), r, listing, archives); }
      if r !in tasks || !tasks[r].terminal || !tasks[r].officialReleased || tasks[r].thread.None? { return; }
      var ok := ReconcileTasks([r], listing);
      if !ok || r !in tasks || tasks[r].archived || !archives { return; }
      var _ := ChangeTask(r, NOTHING.(archived := Some(true)));
    }

    /** The first turn of a started task. */
    method FirstTurn(r: Ref, l: Launch) returns (stage: Stage)
      modifies this
      ensures (State(), stage) == LaunchTurn(io, old(State()), r, l)
    {
      stage := BeforeTurn;
      var ok := OpenSession(r, l.server);
      if !ok || !l.model { return; }
      ok := ChangeTask(r, NOTHING);
      if !ok || l.thread.None? { return; }
      ok := ChangeTask(r, NOTHING.(thread := l.thread));
      if !ok { return; }
      ok := ChangeTask(r, NOTHING);
      if !ok && l.mirrors { ok := ChangeTask(r, NOTHING); }
      if !ok { return; }
      stage := AfterTurn;
      if l.turn.None? { return; }
      ok := ChangeTask(r, NOTHING.(turn := l.turn, status := Some(Running)));
      if ok { stage := Done; }
    }

    method StartTask(r: Ref, repo: Repo, workspace: Workspace, l: Launch, closes: bool)
      modifies this
      ensures State() == Start(io, old(State()), r, repo, workspace, l, closes)
      ensures old(Inv(State())) ==> Inv(State())
    {
      if Inv(State()) { StartKeeps(io, State(), r, repo, workspace, l, closes); }
      if !up || r in tasks || r in sessions || Conflict(tasks, r, repo) { return; }
      var ok := SetAndPersist(tasks[r := Initial(repo, workspace)]);
      if !ok { return; }
      var stage := FirstTurn(r, l);
      if stage.AfterTurn? {
        var _ := ChangeTask(r, UNCERTAIN);
      } else if stage.BeforeTurn? {
        ok := ChangeTask(r, NOTHING.(status := Some(Status.Failed), terminal := Some(true)));
        if ok { var _ := ReleaseSession(r, closes); }
      }
    }

    method AuthorizeTask(r: Ref, access: Access) returns (ok: bool)
      modifies this
      ensures (State(), ok) == Authorize(io, old(State()), r, access)
      ensures old(Inv(State())) ==> Inv(State())
    {
      if Inv(State()) { AuthorizeKeeps(io, State(), r, access); }
      if r !in tasks || tasks[r].authorization.Revoked? { return false; }
      if access.granted {
        if tasks[r].authorization.Authorized? && access.sameGeneration { return true; }
        ok := ChangeTask(r, GRANTED);
        if ok { return; }
      }
      var _ := ChangeTask(r, DENIED);
      ok := false;
    }

    method ReconcileTasks(refs: seq<Ref>, listing: Listing) returns (ok: bool)
      modifies this
      ensures (State(), ok) == Reconcile(io, old(State()), refs, listing)
      ensures old(Inv(State()) && ReconcileSafe(io, State(), refs, listing)) ==> Inv(State())
    {
      if Inv(State()) && ReconcileSafe(io, State(), refs, listing) { ReconcileKeeps(io, State(), refs, listing); }
      if listing.Disabled? { return true; }
      ghost var before := State();
      var failed := listing.Failing?;
      var i := 0;
      while listing.Listed? && i < |refs| && !failed
        invariant 0 <= i <= |refs|
        invariant listing.Listed? && failed ==> ReconcileListed(io, before, refs, listing.archived) == (State(), false)
        invariant listing.Listed? && !failed ==>
          ReconcileListed(io, before, refs, listing.archived) ==
          ReconcileListed(io, State(), refs[i..], listing.archived)
        invariant listing.Failing? ==> failed && State() == before
      {
        var r := refs[i];
        assert refs[i..][1..] == refs[i + 1..];
        if r in tasks && tasks[r].thread.Some? && r !in sessions {
          var changed := ChangeTask(r, Observed(listing.archived(r)));
          failed := !changed;
        }
        i := i + 1;
      }
      if !failed { return true; }
      ghost var middle := State();
      i := 0;
      while i < |refs|
        invariant 0 <= i <= |refs|
        invariant ReconcileFailed(io, middle, refs) == ReconcileFailed(io, State(), refs[i..])
      {
        assert refs[i..][1..] == refs[i + 1..];
        if refs[i] in tasks {
          var changed := ChangeTask(refs[i], NOTHING);
          if !changed { return false; }
        }
        i := i + 1;
      }
      return true;
    }

    method ResumeTurn(r: Ref, resume: Resume, closes: bool, official: Official)
      modifies this
      ensures State() == SendTurn(io, old(State()), r, resume, closes, official)
    {
      var live := OpenSession(r, resume.server);
      var ok := false;
      if live && resume.resumes && resume.turn.Some? {
        ok := ChangeTask(r, NOTHING.(turn := resume.turn, status := Some(Running)));
      }
      if ok { return; }
      ok := ChangeTask(r, UNCERTAIN);
      if !live || !ok { return; }
      ok := ReleaseSession(r, closes);
      if ok { var _ := FinalizeReleased([r], official); }
    }

    method SendMessage(r: Ref, access: Access, listing: Listing, resume: Resume, closes: bool, official: Official)
      modifies this
      ensures State() == Send(io, old(State()), r, access, listing, resume, closes, official)
      ensures old(Inv(State()) && SendSafe(io, State(), r, access, listing)) ==> Inv(State())
    {
      if Inv(State()) && SendSafe(io, State(), r, access, listing) {
        SendKeeps(io, State(), r, access, listing, resume, closes, official);
      }
      if r !in tasks || tasks[r].integrity.RecoveryFailed? { return; }
      var ok := AuthorizeTask(r, access);
      if !ok { return; }
      ok := ReconcileTasks([r], listing);
      if !ok || r !in tasks || !Resumable(tasks[r]) || Conflict(tasks, r, tasks[r].repo) { return; }
      ok := TakeLock(r);
      if ok { ResumeTurn(r, resume, closes, official); }
    }

    /** The write of `send` that nothing undoes when it fails. */
    method TakeLock(r: Ref) returns (ok: bool)
      requires r in tasks
      modifies this
      ensures (State(), ok) == Acquire(io, old(State()), old(tasks)[r := Resumed(old(tasks)[r])])
      ensures old(Inv(State()) && Resumable(tasks[r]) && !Conflict(tasks, r, tasks[r].repo)) ==> Inv(State())
    {
      if Inv(State()) && Resumable(tasks[r]) && !Conflict(tasks, r, tasks[r].repo) { AcquireKeeps(io, State(), r); }
      tasks := tasks[r := Resumed(tasks[r])];
      var outcome := Persist();
      ok := outcome.Landed?;
    }

    method Revoke(order: seq<Ref>, workspace: Workspace, closes: Ref -> bool)
      modifies this
      ensures State() == RevokeWorkspace(io, old(State()), order, workspace, closes)
      ensures old(Inv(State()) && RevokeSafe(io, State(), Affected(State(), order, workspace), closes)) ==> Inv(State())
    {
      if Inv(State()) && RevokeSafe(io, State(), Affected(State(), order, workspace), closes) {
        RevokeAllKeeps(io, State(), Affected(State(), order, workspace), closes);
      }
      var affected := Affected(State(), order, workspace);
      ghost var before := State();
      var i := 0;
      while i < |affected|
        invariant 0 <= i <= |affected|
        invariant RevokeAll(io, before, affected, closes) == RevokeAll(io, State(), affected[i..], closes)
      {
        assert affected[i..][1..] == affected[i + 1..];
        var ok := RevokeOne(affected[i], closes(affected[i]));
        if !ok { return; }
        i := i + 1;
      }
    }

    method RevokeOne(r: Ref, closes: bool) returns (ok: bool)
      modifies this
      ensures (State(), ok) == RevokeTask(io, old(State()), r, closes)
      ensures old(Inv(State())) ==> (Inv(State()) <==> old(!Breaks(io, State(), r)))
    {
      if Inv(State()) { RevokeKeepsExactly(io, State(), r, closes); }
      if r !in tasks { return false; }
      var terminal, live := tasks[r].terminal, r in sessions;
      ok := ChangeTask(r, DENIED);
      if !ok { return; }
      if !terminal {
        ok := ChangeTask(r, CANCELLED);
        if !ok { return; }
      }
      if live { ok := ReleaseSession(r, closes); } else { ok := ChangeTask(r, FREED); }
    }

    method Close(order: seq<Ref>, closes: Ref -> bool)
      modifies this
      ensures State() == Shutdown(io, old(State()), order, closes)
      ensures old(Inv(State())) ==> Inv(State())
    {
      if Inv(State()) { ShutdownKeeps(io, State(), order, closes); }
      ghost var before := State();
      var i := 0;
      while i < |order|
        invariant 0 <= i <= |order|
        invariant Shutdown(io, before, order, closes) == Shutdown(io, State(), order[i..], closes)
      {
        var r := order[i];
        assert order[i..][1..] == order[i + 1..];
        if r in sessions {
          if r in tasks && !tasks[r].terminal {
            var ok := ChangeTask(r, UNCERTAIN);
            if !ok { return; }
          }
          var _ := ReleaseSession(r, closes(r));
        }
        i := i + 1;
      }
    }

    /** Read the inventory and check each recorded process. */
    method Load(raw: map<Ref, RawTask>, order: seq<Ref>, gone: Ref -> bool) returns (loaded: Tasks)
      requires Lists(order, raw.Keys)
      ensures loaded == Recovered(raw, gone)
    {
      loaded := map[];
      var i := 0;
      while i < |order|
        invariant 0 <= i <= |order|
        invariant loaded.Keys == set r | r in order[..i]
        invariant forall r :: r in loaded ==> r in raw && loaded[r] == RecoverTask(Normalize(raw[r]), gone(r))
      {
        var r := order[i];
        loaded := loaded[r := RecoverTask(Normalize(raw[r]), gone(r))];
        assert order[..i + 1] == order[..i] + [r];
        i := i + 1;
      }
      assert order[..i] == order;
    }

    /** `create` in a new process, on the inventory file of the last one. */
    method Boot(order: seq<Ref>, gone: Ref -> bool, official: Official)
      modifies this
      ensures State() == Restart(io, old(State()), order, gone, official)
      ensures old(Inv(State())) ==> Inv(State())
    {
      if Inv(State()) { RestartKeeps(io, State(), order, gone, official); }
      if !Lists(order, disk.Keys) { return; }
      var raw := Inventory(disk);
      assert raw.Keys == disk.Keys;
      var loaded := Load(raw, order, gone);
      up, tasks, sessions := true, loaded, {};
      if raw == map[] { return; }
      var ok := SetAndPersist(tasks);
      if ok { ok := FinalizeReleased(ReopenedRefs(raw, gone, order), official); }
      if !ok { up, tasks, sessions := false, map[], {}; }
    }
  }
}
