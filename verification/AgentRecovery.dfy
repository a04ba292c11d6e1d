/** Startup recovery of any inventory, convergence after a crash, and the exact
    conditions under which revoking and reconciling keep the invariant. */
module AgentRecovery {
  import opened Options
  import opened AgentLifecycle
  import opened AgentInvariants
  import opened AgentFinality

  ghost predicate AllLanded(io: Io, from: nat, count: nat) {
    forall k :: from <= k < from + count ==> io(k).Landed?
  }

  // -------------------------------------------------------- startup recovery

  /** The refs that Settle returns: a duplicate-free part of those it was given. */
  lemma {:induction false} SettleRest(io: Io, w: World, refs: seq<Ref>, official: Official)
    requires Distinct(refs)
    ensures Distinct(Settle(io, w, refs, official).1)
    ensures forall r :: r in Settle(io, w, refs, official).1 ==> r in refs
    decreases |refs|
  {
    if refs != [] {
      var r := refs[0];
      assert refs == [r] + refs[1..];
      assert r !in refs[1..];
      if r in w.tasks && Resolvable(w.tasks[r], official, r) {
        SettleRest(io, Change(io, w, r, Ended(official.ending(r).value)).0, refs[1..], official);
      } else {
        SettleRest(io, w, refs[1..], official);
      }
    }
  }

  /** Settling keeps the keys, the sessions and every other task. */
  predicate SettleFrame(w: World, refs: seq<Ref>, next: World) {
    && (!next.up ==> next.tasks == map[])
    && (next.up ==> w.up && next.tasks.Keys == w.tasks.Keys && next.sessions == w.sessions)
    && (next.up ==> forall r :: r in w.tasks && r !in refs ==> next.tasks[r] == w.tasks[r])
  }

  lemma {:induction false} SettleFrames(io: Io, w: World, refs: seq<Ref>, official: Official)
    requires !w.up ==> w.tasks == map[]
    ensures SettleFrame(w, refs, Settle(io, w, refs, official).0)
    decreases |refs|
  {
    if refs != [] {
      var r := refs[0];
      assert refs == [r] + refs[1..];
      if r in w.tasks && Resolvable(w.tasks[r], official, r) {
        SettleFrames(io, Change(io, w, r, Ended(official.ending(r).value)).0, refs[1..], official);
      } else {
        SettleFrames(io, w, refs[1..], official);
      }
    }
  }

  /** Each task given is left as it was, and returned, or ends as its official turn did. */
  predicate SettleResult(w: World, refs: seq<Ref>, official: Official, next: World, rest: seq<Ref>)
    requires SettleFrame(w, refs, next)
  {
    next.up ==> forall r :: r in refs && r in w.tasks ==>
      if r in rest then next.tasks[r] == w.tasks[r]
      else Resolvable(w.tasks[r], official, r) && next.tasks[r] == Changed(w.tasks[r], Ended(official.ending(r).value))
  }

  /** The first task, and then the others. */
  lemma SettleHead(w: World, w1: World, refs: seq<Ref>, official: Official, next: World, rest: seq<Ref>, ended: bool)
    requires refs != [] && refs[0] !in refs[1..] && refs[0] !in rest && (w1.up ==> w.up)
    requires SettleFrame(w, refs, next) && SettleFrame(w1, refs[1..], next)
    requires SettleResult(w1, refs[1..], official, next, rest)
    requires w1.up && !ended ==> w1.tasks == w.tasks
    requires w1.up && ended ==> refs[0] in w.tasks && Resolvable(w.tasks[refs[0]], official, refs[0])
    requires w1.up && ended ==>
      w1.tasks == w.tasks[refs[0] := Changed(w.tasks[refs[0]], Ended(official.ending(refs[0]).value))]
    ensures SettleResult(w, refs, official, next, (if ended then [] else [refs[0]]) + rest)
  {
    var r := refs[0];
    assert refs == [r] + refs[1..];
    assert forall x :: x in refs <==> x == r || x in refs[1..];
  }

  lemma {:induction false} SettleShape(io: Io, w: World, refs: seq<Ref>, official: Official)
    requires Distinct(refs) && (!w.up ==> w.tasks == map[])
    ensures var (next, rest) := Settle(io, w, refs, official);
      SettleFrame(w, refs, next) && SettleResult(w, refs, official, next, rest)
    decreases |refs|
  {
    SettleFrames(io, w, refs, official);
    if refs != [] {
      var r := refs[0];
      var acts := r in w.tasks && Resolvable(w.tasks[r], official, r);
      var (w1, ended) := if acts then Change(io, w, r, Ended(official.ending(r).value)) else (w, false);
      if acts { ChangeShape(io, w, r, Ended(official.ending(r).value)); }
      SettleFrames(io, w1, refs[1..], official);
      SettleShape(io, w1, refs[1..], official);
      SettleRest(io, w1, refs[1..], official);
      var (next, rest) := Settle(io, w1, refs[1..], official);
      SettleHead(w, w1, refs, official, next, rest, ended);
    }
  }

  /** With writes that land, only what has no official ending is returned. */
  lemma {:induction false} SettleLanded(io: Io, w: World, refs: seq<Ref>, official: Official)
    requires Distinct(refs) && w.up && AllLanded(io, w.writes, |refs|) && forall r :: r in refs ==> r in w.tasks
    ensures var (next, rest) := Settle(io, w, refs, official);
      next.up && forall r :: r in rest ==> r in w.tasks && !Resolvable(w.tasks[r], official, r)
    decreases |refs|
  {
    if refs != [] {
      var r := refs[0];
      assert io(w.writes).Landed?;
      assert refs == [r] + refs[1..];
      var w1 := if Resolvable(w.tasks[r], official, r) then Change(io, w, r, Ended(official.ending(r).value)).0 else w;
      SettleLanded(io, w1, refs[1..], official);
      SettleRest(io, w1, refs[1..], official);
      assert r !in refs[1..];
    }
  }

  lemma {:induction false} FailShape(io: Io, w: World, refs: seq<Ref>)
    requires Distinct(refs)
    requires !w.up ==> w.tasks == map[]
    ensures var (w', ok) := FailUnresolved(io, w, refs);
      && (!w'.up ==> w'.tasks == map[])
      && (ok && w'.up ==> w.up && w'.tasks.Keys == w.tasks.Keys && w'.sessions == w.sessions)
      && (ok && w'.up ==> forall r :: r in w.tasks ==>
            w'.tasks[r] == if r in refs && Candidate(w, r) then Changed(w.tasks[r], RECOVERY_FAILED) else w.tasks[r])
      && ((forall k :: io(k).Landed?) && w.up && (forall r :: r in refs ==> r in w.tasks) ==> ok && w'.up)
    decreases |refs|
  {
    if refs != [] && refs[0] in w.tasks {
      var r := refs[0];
      assert refs == [r] + refs[1..];
      if Candidate(w, r) {
        var (w1, ok) := Change(io, w, r, RECOVERY_FAILED);
        if ok {
          FailShape(io, w1, refs[1..]);
          forall i | 0 <= i < |refs[1..]| ensures refs[1..][i] != r {}
        }
      } else {
        FailShape(io, w, refs[1..]);
      }
    }
  }

  /** What a task ends as, given its record `t0` after the process check. */
  ghost predicate Converged(t0: Task, t: Task, reopened: bool, landed: bool, official: Official, r: Ref) {
    if reopened then
      && t.terminal && t.repoWriterReleased && t.officialReleased && t.serverState.Stopped? && t.pid.None?
      && (|| (t.status == Status.Failed && t.integrity.RecoveryFailed?)
          || (Resolvable(t0, official, r) && t.status == Mapped(official.ending(r).value) && t.integrity.Confirmed?))
      && (landed && Resolvable(t0, official, r) ==> t.integrity.Confirmed?)
    else
      t == t0
  }

  lemma FinalizeShape(io: Io, w: World, refs: seq<Ref>, official: Official)
    requires Distinct(refs) && w.up && forall r :: r in refs ==> Candidate(w, r)
    ensures var (w', ok) := Finalize(io, w, refs, official);
      && (ok && w'.up ==> w'.tasks.Keys == w.tasks.Keys && w'.sessions == w.sessions)
      && (ok && w'.up ==> forall r :: r in w.tasks ==>
            Converged(w.tasks[r], w'.tasks[r], r in refs, AllLanded(io, w.writes, |refs|), official, r))
      && ((forall k :: io(k).Landed?) ==> ok && w'.up)
  {
    AllCandidates(w, refs);
    SettleShape(io, w, refs, official);
    SettleRest(io, w, refs, official);
    var (w1, rest) := Settle(io, w, refs, official);
    FailShape(io, w1, rest);
    if AllLanded(io, w.writes, |refs|) { SettleLanded(io, w, refs, official); }
    var (w', ok) := Finalize(io, w, refs, official);
    if ok && w'.up { FinalizedTasks(io, w, w1, w', refs, rest, official); }
  }

  /** Settled and then failed where unresolved, every task has converged. */
  lemma FinalizedTasks(io: Io, w: World, w1: World, w': World, refs: seq<Ref>, rest: seq<Ref>, official: Official)
    requires w1.up && (forall r :: r in refs ==> Candidate(w, r)) && (forall r :: r in rest ==> r in refs)
    requires SettleFrame(w, refs, w1) && SettleResult(w, refs, official, w1, rest)
    requires AllLanded(io, w.writes, |refs|) ==>
      forall r :: r in rest ==> r in w.tasks && !Resolvable(w.tasks[r], official, r)
    requires w'.tasks.Keys == w1.tasks.Keys && forall r :: r in w1.tasks ==>
      w'.tasks[r] == if r in rest && Candidate(w1, r) then Changed(w1.tasks[r], RECOVERY_FAILED) else w1.tasks[r]
    ensures forall r :: r in w.tasks ==>
      Converged(w.tasks[r], w'.tasks[r], r in refs, AllLanded(io, w.writes, |refs|), official, r)
  {
    forall r | r in w.tasks
      ensures Converged(w.tasks[r], w'.tasks[r], r in refs, AllLanded(io, w.writes, |refs|), official, r)
    {
      if r in refs && r in rest { assert Candidate(w1, r); }
    }
  }

  lemma {:induction false} AllCandidates(w: World, refs: seq<Ref>)
    requires forall r :: r in refs ==> Candidate(w, r)
    ensures Candidates(w, refs) == refs
  {
    if refs != [] { AllCandidates(w, refs[1..]); }
  }

  /** The table after the process check, with the tasks whose process is gone. */
  lemma RecoveredTable(raw: map<Ref, RawTask>, gone: Ref -> bool, r: Ref)
    requires r in raw
    ensures var t := RecoverTask(Normalize(raw[r]), gone(r));
      if Reopened(raw, gone, r)
      then !t.terminal && t.pid.None? && t.serverState.Stopped? && t.officialReleased && t.repoWriterReleased
      else t.terminal || (t.serverState.ReleasePending? && !t.repoWriterReleased)
  {}

  /** The tasks that a startup finalizes, after its first write. */
  lemma StartupFinalizes(io: Io, raw: map<Ref, RawTask>, w: World, order: seq<Ref>, gone: Ref -> bool,
                         official: Official)
    requires Lists(order, raw.Keys) && w.up && w.sessions == {} && w.tasks == Recovered(raw, gone)
    ensures var (w', ok) := Finalize(io, w, ReopenedRefs(raw, gone, order), official);
      && (ok && w'.up ==> w'.tasks.Keys == raw.Keys && w'.sessions == {})
      && (ok && w'.up ==> forall r :: r in raw ==>
            Converged(w.tasks[r], w'.tasks[r], Reopened(raw, gone, r), AllLanded(io, w.writes, |order|), official, r))
      && ((forall k :: io(k).Landed?) ==> ok && w'.up)
  {
    var refs := ReopenedRefs(raw, gone, order);
    ReopenedDistinct(raw, gone, order);
    ReopenedCount(raw, gone, order);
    forall r | r in refs ensures Candidate(w, r) { RecoveredTable(raw, gone, r); }
    FinalizeShape(io, w, refs, official);
    var (w', ok) := Finalize(io, w, refs, official);
    if ok && w'.up {
      forall r | r in raw
        ensures Converged(w.tasks[r], w'.tasks[r], Reopened(raw, gone, r), AllLanded(io, w.writes, |order|),
                          official, r)
      {
        assert r in refs <==> Reopened(raw, gone, r);
        assert AllLanded(io, w.writes, |order|) ==> AllLanded(io, w.writes, |refs|);
      }
    }
  }

  lemma StartupShape(io: Io, raw: map<Ref, RawTask>, disk: Tasks, writes: nat, order: seq<Ref>, gone: Ref -> bool,
                     official: Official)
    requires Lists(order, raw.Keys)
    ensures var w := Startup(io, raw, disk, writes, order, gone, official);
      w.up ==>
        && w.tasks.Keys == raw.Keys && w.sessions == {}
        && (forall r :: r in raw ==>
              Converged(RecoverTask(Normalize(raw[r]), gone(r)), w.tasks[r], Reopened(raw, gone, r),
                        AllLanded(io, writes, |order| + 1), official, r))
    ensures (forall k :: io(k).Landed?) ==> Startup(io, raw, disk, writes, order, gone, official).up
  {
    if raw != map[] {
      var tasks := Recovered(raw, gone);
      var (w1, ok1) := Commit(io, World(true, tasks, disk, {}, writes), tasks);
      if ok1 {
        StartupFinalizes(io, raw, w1, order, gone, official);
        FewerLanded(io, writes, |order| + 1, |order|);
      }
    }
  }

  lemma FewerLanded(io: Io, from: nat, count: nat, fewer: nat)
    requires fewer < count
    ensures AllLanded(io, from, count) ==> AllLanded(io, from + 1, fewer)
  {}

  /** Whatever an inventory holds, a manager that starts on it leaves each task
      terminal, or pending release with its lock kept.  A task that was not terminal
      and whose process is gone ends as its official turn ended, or else as a
      recovery failure. */
  lemma StartupConverges(io: Io, raw: map<Ref, RawTask>, disk: Tasks, writes: nat, order: seq<Ref>, gone: Ref -> bool,
                         official: Official)
    requires Lists(order, raw.Keys)
    ensures var w := Startup(io, raw, disk, writes, order, gone, official);
      w.up ==>
        && w.tasks.Keys == raw.Keys && w.sessions == {}
        && (forall r :: r in raw ==>
              Converged(RecoverTask(Normalize(raw[r]), gone(r)), w.tasks[r], Reopened(raw, gone, r),
                        AllLanded(io, writes, |order| + 1), official, r))
        && (forall r :: r in raw ==>
              w.tasks[r].terminal || (w.tasks[r].serverState.ReleasePending? && !w.tasks[r].repoWriterReleased))
    ensures (forall k :: io(k).Landed?) ==> Startup(io, raw, disk, writes, order, gone, official).up
  {
    StartupShape(io, raw, disk, writes, order, gone, official);
    var w := Startup(io, raw, disk, writes, order, gone, official);
    forall r | w.up && r in raw
      ensures w.tasks[r].terminal || (w.tasks[r].serverState.ReleasePending? && !w.tasks[r].repoWriterReleased)
    {
      RecoveredTable(raw, gone, r);
    }
  }

  /** What startup ends as a recovery failure is one for good: in every later run it keeps
      neither lock nor process nor session. */
  lemma StartupFailureIsFinal(io: Io, raw: map<Ref, RawTask>, disk: Tasks, writes: nat, order: seq<Ref>,
                              gone: Ref -> bool, official: Official, later: seq<Event>, r: Ref)
    requires Lists(order, raw.Keys) && Reopened(raw, gone, r)
    requires var w := Startup(io, raw, disk, writes, order, gone, official);
      w.up && r in w.tasks && !w.tasks[r].integrity.Confirmed?
    ensures Fixed(Run(io, Startup(io, raw, disk, writes, order, gone, official), later), r, true)
  {
    var w := Startup(io, raw, disk, writes, order, gone, official);
    StartupConverges(io, raw, disk, writes, order, gone, official);
    var none: seq<Event> := [];
    assert Run(io, w, none) == w;
    EveryFailureIsFinal(io, raw, disk, writes, order, gone, official, none, later, r);
  }

  lemma {:induction false} ReopenedCount(raw: map<Ref, RawTask>, gone: Ref -> bool, order: seq<Ref>)
    ensures |ReopenedRefs(raw, gone, order)| <= |order|
  {
    if order != [] { ReopenedCount(raw, gone, order[1..]); }
  }

  // --------------------------------------------------------------- crashes

  /** Finalizing one task, however its writes end. */
  lemma FinalizeOne(io: Io, w: World, r: Ref, official: Official)
    requires r in w.tasks
    ensures Finalize(io, w, [r], official) ==
      if !Candidate(w, r) then (w, true)
      else if !Resolvable(w.tasks[r], official, r) then Change(io, w, r, RECOVERY_FAILED)
      else
        var (w1, ok) := Change(io, w, r, Ended(official.ending(r).value));
        if ok then (w1, true) else Change(io, w1, r, RECOVERY_FAILED)
  {
    var nobody: seq<Ref> := [];
    assert [r][1..] == nobody;
    assert Candidates(w, nobody) == nobody && nobody + nobody == nobody && [r] + nobody == [r];
    assert Candidates(w, [r]) == if Candidate(w, r) then [r] else nobody;
    var w1 := if Candidate(w, r) && Resolvable(w.tasks[r], official, r)
              then Change(io, w, r, Ended(official.ending(r).value)).0 else w;
    assert Settle(io, w, nobody, official) == (w, nobody) && Settle(io, w1, nobody, official) == (w1, nobody);
    FailOne(io, w, r);
    FailOne(io, w1, r);
    assert FailUnresolved(io, w1, nobody) == (w1, true) && FailUnresolved(io, w, nobody) == (w, true);
  }

  lemma FailOne(io: Io, w: World, r: Ref)
    ensures FailUnresolved(io, w, [r]) ==
      if r !in w.tasks then (w, false) else if Candidate(w, r) then Change(io, w, r, RECOVERY_FAILED) else (w, true)
  {
    var nobody: seq<Ref> := [];
    var w1 := Change(io, w, r, RECOVERY_FAILED).0;
    assert [r][1..] == nobody;
    assert FailUnresolved(io, w, nobody) == (w, true) && FailUnresolved(io, w1, nobody) == (w1, true);
  }

  /** The task has given its lock back and has no session. */
  predicate Freed(w: World, r: Ref) { r in w.tasks && w.tasks[r].repoWriterReleased && r !in w.sessions }

  /** A live session gives the lock back exactly when the process exits and both writes land. */
  lemma ReleaseFreesExactly(io: Io, w: World, r: Ref, closes: bool)
    requires Inv(w) && r in w.sessions
    ensures var (w', ok) := Release(io, w, r, closes);
      && (Freed(w', r) <==> closes && io(w.writes).Landed? && io(w.writes + 1).Landed?)
      && (Freed(w', r) ==> ok && w'.writes == w.writes + 2 && w'.up == w.up)
      && (Freed(w', r) ==> w'.tasks[r] == Changed(Changed(w.tasks[r], TEARING), RELEASED))
  {
    var (w1, ok1) := Change(io, w, r, TEARING);
    ChangeShape(io, w, r, TEARING);
    if ok1 {
      var gone := w1.(sessions := w1.sessions - {r});
      ChangeShape(io, w1, r, PENDING);
      ChangeShape(io, gone, r, RELEASED);
      ChangeShape(io, Change(io, gone, r, RELEASED).0, r, PENDING);
    }
  }

  /** A release that went through shows its task, freed or with the lock held. */
  lemma ReleaseLands(io: Io, w: World, r: Ref, closes: bool)
    requires r in w.sessions && Release(io, w, r, closes).1
    ensures r in Release(io, w, r, closes).0.tasks
    ensures Freed(Release(io, w, r, closes).0, r) || !Release(io, w, r, closes).0.tasks[r].repoWriterReleased
  {}

  const CRASHED := NOTHING.(serverState := Some(Crashed), integrity := Some(Uncertain))

  function CrashMark(t: Task): Changes {
    CRASHED.(status := Some(if t.terminal then t.status else Unknown))
  }

  /** The writes that a crash needs to end its task: three to free it and, unless it has
      ended, one to record an ending; a second one if the official ending was not recorded. */
  predicate CrashWritesLand(io: Io, n: nat, t: Task, official: Official, r: Ref) {
    && io(n).Landed? && io(n + 1).Landed? && io(n + 2).Landed?
    && (t.terminal || io(n + 3).Landed? ||
        (Resolvable(t, official, r) && (io(n + 3).Lost? || io(n + 3).Unreported?) && io(n + 4).Landed?))
  }

  /** A crash frees the repository and ends its task exactly when the process exits and
      those writes land. */
  lemma CrashConvergesExactly(io: Io, w: World, r: Ref, closes: bool, official: Official)
    requires Inv(w) && r in w.sessions && !w.tasks[r].authorization.Revoked?
    ensures var w' := HandleCrash(io, w, r, closes, official);
      Freed(w', r) && w'.tasks[r].terminal <==> closes && CrashWritesLand(io, w.writes, w.tasks[r], official, r)
  {
    var t := w.tasks[r];
    HandleCrashMarks(io, w, r, closes, official);
    ChangeShape(io, w, r, CrashMark(t));
    var (w1, ok1) := Change(io, w, r, CrashMark(t));
    if ok1 {
      ChangeKeeps(io, w, r, CrashMark(t));
      CrashReleased(io, w1, r, closes, t, official);
    }
  }

  /** A crash once its task is marked, a task that was `t` before. */
  lemma CrashReleased(io: Io, w: World, r: Ref, closes: bool, t: Task, official: Official)
    requires Inv(w) && r in w.sessions && w.tasks[r] == Changed(t, CrashMark(t))
    requires w.writes > 0 && io(w.writes - 1).Landed?
    ensures var (w1, ok) := Release(io, w, r, closes);
      var w' := if ok then Finalize(io, w1, [r], official).0 else w1;
      Freed(w', r) && w'.tasks[r].terminal <==> closes && CrashWritesLand(io, w.writes - 1, t, official, r)
  {
    ReleaseFreesExactly(io, w, r, closes);
    var (w1, ok) := Release(io, w, r, closes);
    if ok {
      ReleaseLands(io, w, r, closes);
      CrashFinalized(io, w1, r, t, official);
    }
  }

  lemma HandleCrashMarks(io: Io, w: World, r: Ref, closes: bool, official: Official)
    requires r in w.sessions && r in w.tasks && !w.tasks[r].authorization.Revoked?
    ensures HandleCrash(io, w, r, closes, official) ==
      var (w1, ok1) := Change(io, w, r, CrashMark(w.tasks[r]));
      if !ok1 then w1
      else
        var (w2, ok2) := Release(io, w1, r, closes);
        if ok2 then Finalize(io, w2, [r], official).0 else w2
  {}

  /** The last part of a crash, of a task that was `t` before. */
  lemma CrashFinalized(io: Io, w: World, r: Ref, t: Task, official: Official)
    requires r in w.tasks && (!w.tasks[r].repoWriterReleased || r in w.sessions || (t.terminal == w.tasks[r].terminal &&
      w.tasks[r] == Changed(Changed(Changed(t, CrashMark(t)), TEARING), RELEASED)))
    ensures var w' := Finalize(io, w, [r], official).0;
      Freed(w', r) && w'.tasks[r].terminal <==>
        Freed(w, r) && (t.terminal || io(w.writes).Landed? ||
          (Resolvable(t, official, r) && (io(w.writes).Lost? || io(w.writes).Unreported?) && io(w.writes + 1).Landed?))
  {
    FinalizeOne(io, w, r, official);
  }

  /** The crash of a session whose task is revoked: the lock is given back just when the
      process exits and both writes land, and the task ends as it was, not made terminal. */
  lemma RevokedCrashFreesExactly(io: Io, w: World, r: Ref, closes: bool, official: Official)
    requires Inv(w) && r in w.sessions && w.tasks[r].authorization.Revoked?
    ensures var w' := HandleCrash(io, w, r, closes, official);
      && (Freed(w', r) <==> closes && io(w.writes).Landed? && io(w.writes + 1).Landed?)
      && (r in w'.tasks ==> w'.tasks[r].terminal == w.tasks[r].terminal && w'.tasks[r].status == w.tasks[r].status)
  {
    ReleaseFreesExactly(io, w, r, closes);
    ReleaseKeepsEnding(io, w, r, closes);
  }

  lemma ReleaseKeepsEnding(io: Io, w: World, r: Ref, closes: bool)
    requires r in w.tasks
    ensures var w' := Release(io, w, r, closes).0;
      r in w'.tasks ==> w'.tasks[r].terminal == w.tasks[r].terminal && w'.tasks[r].status == w.tasks[r].status
  {
    var w1 := Change(io, w, r, TEARING).0;
    ChangeShape(io, w, r, TEARING);
    ChangeShape(io, w1.(sessions := w1.sessions - {r}), r, RELEASED);
  }

  /** When `send` has passed its checks but gets no session, nothing gives the lock back,
      whatever the listing showed and however its writes end: while the manager runs, the
      task holds the lock without a session, and the repository admits no new task. */
  lemma SendWithoutSessionBlocks(io: Io, w: World, r: Ref, listing: Listing, turn: Option<nat>, closes: bool,
                                 official: Official)
    requires var (w1, ok) := Reconcile(io, w, [r], listing);
      ok && r in w1.tasks && Resumable(w1.tasks[r]) && !Conflict(w1.tasks, r, w1.tasks[r].repo) && r !in w1.sessions
    ensures var w' := SendAuthorized(io, w, r, listing, Resume(None, true, turn), closes, official);
      w'.up ==>
        && r in w'.tasks && Holds(w'.tasks[r]) && !w'.tasks[r].terminal && r !in w'.sessions
        && forall r2: Ref, workspace, launch, c2 :: r2 != r ==>
             Start(io, w', r2, w'.tasks[r].repo, workspace, launch, c2) == w'
  {
    var w1 := Reconcile(io, w, [r], listing).0;
    var (w2, ok2) := Acquire(io, w1, w1.tasks[r := Resumed(w1.tasks[r])]);
    ChangeShape(io, w2, r, UNCERTAIN);
    var w' := SendAuthorized(io, w, r, listing, Resume(None, true, turn), closes, official);
    assert w' == if ok2 then Change(io, w2, r, UNCERTAIN).0 else w2;
    if w'.up { assert forall r2: Ref :: r2 != r ==> Conflict(w'.tasks, r2, w'.tasks[r].repo); }
  }

  // ------------------------------------------------- where the guards bite

  /** Revoking keeps the invariant exactly when it does not break, however its writes end. */
  lemma RevokeKeepsExactly(io: Io, w: World, r: Ref, closes: bool)
    requires Inv(w)
    ensures Inv(RevokeTask(io, w, r, closes).0) <==> !Breaks(io, w, r)
  {
    if Breaks(io, w, r) {
      var t := w.tasks[r];
      var w1 := Change(io, w, r, DENIED).0;
      var t1 := Changed(t, DENIED);
      assert w1 == w.(tasks := w.tasks[r := t1], disk := w.tasks[r := t1], writes := w.writes + 1);
      if t.pid.Some? { ForgetsProcess(io, w1, r); } else { TakesLockBack(io, w1, r); }
    } else {
      RevokeTaskKeeps(io, w, r, closes);
    }
  }

  /** A stored write that frees the lock of a task with a recorded process. */
  lemma ForgetsProcess(io: Io, w: World, r: Ref)
    requires r in w.tasks && r !in w.sessions && w.tasks[r].pid.Some? && w.disk == w.tasks
    requires if w.tasks[r].terminal then Stored(io(w.writes)) else io(w.writes).Landed? && Stored(io(w.writes + 1))
    ensures var w1 := if w.tasks[r].terminal then w else Change(io, w, r, CANCELLED).0;
      !Inv(Change(io, w1, r, FREED).0)
  {
    var w1 := if w.tasks[r].terminal then w else Change(io, w, r, CANCELLED).0;
    var w2 := Change(io, w1, r, FREED).0;
    assert r in w2.disk && w2.disk[r] == Changed(w1.tasks[r], FREED);
    assert !TaskOk(w2.disk[r]);
  }

  /** A released task takes its lock back, and the write that frees it again fails. */
  lemma TakesLockBack(io: Io, w: World, r: Ref)
    requires r in w.tasks && r !in w.sessions && !w.tasks[r].terminal && w.tasks[r].repoWriterReleased
    requires w.tasks[r].officialReleased && w.disk == w.tasks
    requires io(w.writes).Unreported? || io(w.writes) == Died(true)
      || (io(w.writes).Landed? && !io(w.writes + 1).Landed? && io(w.writes + 1) != Died(true))
    ensures var (w1, ok) := Change(io, w, r, CANCELLED); !Inv(if ok then Change(io, w1, r, FREED).0 else w1)
  {
    var (w1, ok) := Change(io, w, r, CANCELLED);
    var w2 := if ok then Change(io, w1, r, FREED).0 else w1;
    var t := Changed(w.tasks[r], CANCELLED);
    assert !TaskOk(t);
    assert (r in w2.disk && w2.disk[r] == t) || (r in w2.tasks && w2.tasks[r] == t);
  }

  /** Reconciling keeps the invariant exactly when it exposes no holder of a lock. */
  lemma ReconcileKeepsExactly(io: Io, w: World, r: Ref, archived: Ref -> Option<bool>)
    requires Inv(w)
    ensures Inv(ReconcileListed(io, w, [r], archived).0) <==> !Exposes(io, w, r, archived)
  {
    ReconcileOne(io, w, r, archived);
    if Exposes(io, w, r, archived) {
      var t := Changed(w.tasks[r], Observed(archived(r)));
      var w' := Change(io, w, r, Observed(archived(r))).0;
      assert r in w'.disk && w'.disk[r] == t && !TaskOk(t);
    } else if r in w.tasks && r !in w.sessions && w.tasks[r].thread.Some? {
      ObserveKeeps(io, w, r, archived);
    }
  }

  /** A new task whose process does not exit: it fails, but keeps the lock and its pid. */
  const STUBBORN := Launch(Some(Some(2)), false, None, false, None)

  lemma StubbornStart(io: Io, w: World, r: Ref, repo: Repo, workspace: Workspace)
    requires w.up && r !in w.tasks && r !in w.sessions && !Conflict(w.tasks, r, repo) && AllLanded(io, w.writes, 5)
    ensures var w' := Start(io, w, r, repo, workspace, STUBBORN, false);
      && w'.up && w'.disk == w'.tasks && w'.writes == w.writes + 5 && r in w'.tasks
      && (forall s :: s in w.tasks ==> s in w'.tasks && w'.tasks[s] == w.tasks[s])
      && w'.tasks.Keys == w.tasks.Keys + {r} && w'.sessions == w.sessions + {r}
      && Holds(w'.tasks[r]) && w'.tasks[r].repo == repo && w'.tasks[r].pid == Some(2) && w'.tasks[r].terminal
      && w'.tasks[r].workspace == workspace
      && w'.tasks[r].writerReleased == w'.tasks[r].repoWriterReleased && !w'.tasks[r].officialReleased
  {
    assert io(w.writes).Landed? && io(w.writes + 1).Landed? && io(w.writes + 2).Landed?;
    assert io(w.writes + 3).Landed? && io(w.writes + 4).Landed?;
    var t0 := Initial(repo, workspace);
    var w1 := Commit(io, w, w.tasks[r := t0]).0;
    var (w2, ok2) := CreateSession(io, w1, r, STUBBORN.server);
    assert LaunchTurn(io, w1, r, STUBBORN) == (w2, BeforeTurn);
    var c := NOTHING.(status := Some(Status.Failed), terminal := Some(true));
    var w3 := Change(io, w2, r, c).0;
    var w4 := Change(io, w3, r, TEARING).0;
    assert Release(io, w3, r, false) == Change(io, w4, r, PENDING);
  }

  /** The reconcile guard is needed: from any world where a task without a session
      holds a lock, archiving it, starting another task and unarchiving it leaves two
      writers on one repository. */
  lemma ArchivedHolderAdmitsSecondWriter(io: Io, w: World, r: Ref, other: Ref, workspace: Workspace)
    requires Inv(w) && w.up && AllLanded(io, w.writes, 7)
    requires r in w.tasks && r !in w.sessions && Holds(w.tasks[r]) && w.tasks[r].thread.Some? && other !in w.tasks
    ensures var w1 := Reconcile(io, w, [r], Listed((x: Ref) => Some(true))).0;
      var w2 := Start(io, w1, other, w.tasks[r].repo, workspace, STUBBORN, false);
      !OneWriter(Reconcile(io, w2, [r], Listed((x: Ref) => Some(false))).0.tasks)
  {
    assert io(w.writes).Landed? && io(w.writes + 6).Landed?;
    var yes, no := (x: Ref) => Some(true), (x: Ref) => Some(false);
    ReconcileOne(io, w, r, yes);
    var w1 := Reconcile(io, w, [r], Listed(yes)).0;
    assert w1.tasks == w.tasks[r := Changed(w.tasks[r], Observed(Some(true)))];
    assert !Conflict(w1.tasks, other, w.tasks[r].repo);
    assert AllLanded(io, w1.writes, 5);
    StubbornStart(io, w1, other, w.tasks[r].repo, workspace);
    var w2 := Start(io, w1, other, w.tasks[r].repo, workspace, STUBBORN, false);
    assert r in w2.tasks && w2.tasks[r] == w1.tasks[r] && r !in w2.sessions;
    ReconcileOne(io, w2, r, no);
    var w3 := Reconcile(io, w2, [r], Listed(no)).0;
    assert w3.tasks == w2.tasks[r := Changed(w2.tasks[r], Observed(Some(false)))];
    assert Holds(w3.tasks[r]) && Holds(w3.tasks[other]) && w3.tasks[r].repo == w3.tasks[other].repo;
  }

  /** The revoke guard is needed: from any world where a task has a recorded process
      but no session, revoking it, starting another task and restarting while neither
      process exits leaves two writers on one repository. */
  lemma ForgottenProcessAdmitsSecondWriter(io: Io, w: World, r: Ref, other: Ref, workspace: Workspace, order: seq<Ref>)
    requires Inv(w) && w.up && forall k :: io(k).Landed?
    requires r in w.tasks && r !in w.sessions && w.tasks[r].pid.Some? && other !in w.tasks
    requires Lists(order, w.tasks.Keys + {other})
    ensures var w1 := RevokeTask(io, w, r, true).0;
      var w2 := Start(io, w1, other, w.tasks[r].repo, workspace, STUBBORN, false);
      !OneWriter(Restart(io, w2, order, (x: Ref) => false, Official(false, (x: Ref) => None)).tasks)
  {
    var t := w.tasks[r];
    var w1 := RevokeTask(io, w, r, true).0;
    RevokeForgets(io, w, r);
    assert !Conflict(w1.tasks, other, t.repo);
    StubbornStart(io, w1, other, t.repo, workspace);
    var w2 := Start(io, w1, other, t.repo, workspace, STUBBORN, false);
    assert w2.disk.Keys == w.tasks.Keys + {other};
    RestartHolds(io, w2, order, r, other);
  }

  lemma RevokeForgets(io: Io, w: World, r: Ref)
    requires Inv(w) && w.up && (forall k :: io(k).Landed?) && r in w.tasks && r !in w.sessions && w.tasks[r].pid.Some?
    ensures var w' := RevokeTask(io, w, r, true).0;
      && w'.up && w'.sessions == w.sessions && w'.tasks.Keys == w.tasks.Keys && Holds(w.tasks[r])
      && (forall s :: s in w.tasks && s != r ==> w'.tasks[s] == w.tasks[s])
      && !Holds(w'.tasks[r]) && w'.tasks[r].terminal && w'.tasks[r].pid.Some? && !w'.tasks[r].archived
      && w'.tasks[r].repo == w.tasks[r].repo && w'.tasks[r].writerReleased == w'.tasks[r].repoWriterReleased
  {
    var c := NOTHING.(authorization := Some(Revoked));
    var w1 := Change(io, w, r, c).0;
    var w2 := if w.tasks[r].terminal then w1 else Change(io, w1, r, CANCELLED).0;
    assert RevokeTask(io, w, r, true) == Change(io, w2, r, FREED);
  }

  /** Restarting while no process exits gives their locks back to two terminal tasks. */
  lemma RestartHolds(io: Io, w: World, order: seq<Ref>, a: Ref, b: Ref)
    requires (forall k :: io(k).Landed?) && Lists(order, w.disk.Keys) && a in w.disk && b in w.disk && a != b
    requires w.disk[a].repo == w.disk[b].repo
    requires forall r :: r in {a, b} ==> w.disk[r].terminal && w.disk[r].pid.Some? && !w.disk[r].archived
    ensures !OneWriter(Restart(io, w, order, (x: Ref) => false, Official(false, (x: Ref) => None)).tasks)
  {
    var raw := Inventory(w.disk);
    assert raw.Keys == w.disk.Keys;
    var never, silent := (x: Ref) => false, Official(false, (x: Ref) => None);
    StartupConverges(io, raw, w.disk, w.writes, order, never, silent);
    var w' := Restart(io, w, order, never, silent);
    forall r | r in {a, b} ensures r in w'.tasks && Holds(w'.tasks[r]) && w'.tasks[r].repo == w.disk[r].repo {
      assert w'.tasks[r] == RecoverTask(Normalize(raw[r]), false);
    }
    assert a in {a, b} && b in {a, b};
  }

  /** The write that is stored leaves two holders: revoking a released task that is not
      terminal, while another task holds the lock of its repository, leaves two writers in
      memory or on disk as soon as it takes the lock back and does not give it up again. */
  lemma RevokedTaskIsSecondWriter(io: Io, w: World, r: Ref, other: Ref, closes: bool)
    requires Inv(w) && w.up && r in w.tasks && r !in w.sessions && other in w.tasks
    requires w.tasks[r].repo == w.tasks[other].repo
    requires !w.tasks[r].terminal && w.tasks[r].repoWriterReleased && !w.tasks[r].archived && Holds(w.tasks[other])
    requires Breaks(io, w, r)
    ensures var w' := RevokeTask(io, w, r, closes).0; !OneWriter(w'.tasks) || !OneWriter(w'.disk)
    ensures var w' := RevokeTask(io, w, r, closes).0;
      io(w.writes + 1).Landed? && !io(w.writes + 2).Died? ==> !OneWriter(w'.tasks)
  {
    var w1 := Change(io, w, r, DENIED).0;
    var t := Changed(Changed(w.tasks[r], DENIED), CANCELLED);
    var w' := RevokeTask(io, w, r, closes).0;
    TwoHolders(w1.tasks[r := t], r, other);
    assert w'.tasks == w1.tasks[r := t] || w'.disk == w1.tasks[r := t];
  }

  lemma TwoHolders(tasks: Tasks, a: Ref, b: Ref)
    requires a in tasks && b in tasks && a != b && Holds(tasks[a]) && Holds(tasks[b]) && tasks[a].repo == tasks[b].repo
    ensures !OneWriter(tasks)
  {}

  // ------------------------------------------------------- such a run from the start

  /** A task that starts, with a thread, a turn and a process. */
  const LIVE := Launch(Some(Some(2)), true, Some(1), false, Some(1))

  lemma LiveStart(io: Io, w: World, r: Ref, repo: Repo, workspace: Workspace)
    requires w.up && r !in w.tasks && r !in w.sessions && !Conflict(w.tasks, r, repo) && AllLanded(io, w.writes, 6)
    ensures var w' := Start(io, w, r, repo, workspace, LIVE, true);
      && w'.up && w'.writes == w.writes + 6 && w'.sessions == w.sessions + {r}
      && w'.tasks.Keys == w.tasks.Keys + {r} && Holds(w'.tasks[r]) && !w'.tasks[r].terminal
      && w'.tasks[r].repo == repo && w'.tasks[r].workspace == workspace && w'.tasks[r].authorization.Authorized?
  {
    assert io(w.writes).Landed? && io(w.writes + 1).Landed? && io(w.writes + 2).Landed?;
    assert io(w.writes + 3).Landed? && io(w.writes + 4).Landed? && io(w.writes + 5).Landed?;
    var w1 := Commit(io, w, w.tasks[r := Initial(repo, workspace)]).0;
    var w2 := CreateSession(io, w1, r, LIVE.server).0;
    var w3 := Change(io, Change(io, w2, r, NOTHING).0, r, NOTHING.(thread := LIVE.thread)).0;
    var w4 := Change(io, w3, r, NOTHING).0;
    assert Begin(io, w3, r, LIVE) == (Change(io, w4, r, NOTHING.(turn := LIVE.turn, status := Some(Running))).0, Done);
    assert LaunchTurn(io, w1, r, LIVE) == Begin(io, w3, r, LIVE);
  }

  const SILENT := Official(false, (x: Ref) => None)

  /** A release whose process exits and whose two writes land. */
  lemma ReleaseIs(io: Io, w: World, r: Ref)
    requires r in w.sessions && r in w.tasks && io(w.writes).Landed? && io(w.writes + 1).Landed?
    ensures var tasks := w.tasks[r := Changed(Changed(w.tasks[r], TEARING), RELEASED)];
      Release(io, w, r, true) == (World(w.up, tasks, tasks, w.sessions - {r}, w.writes + 2), true)
  {
    var t1 := Changed(w.tasks[r], TEARING);
    assert w.tasks[r := t1][r := Changed(t1, RELEASED)] == w.tasks[r := Changed(t1, RELEASED)];
  }

  /** A crash whose last write, the one that ends the task, is lost. */
  lemma LostEnding(io: Io, w: World, r: Ref)
    requires Inv(w) && w.up && r in w.sessions && !w.tasks[r].terminal && !w.tasks[r].authorization.Revoked?
    requires AllLanded(io, w.writes, 3) && io(w.writes + 3).Lost?
    ensures var w' := HandleCrash(io, w, r, true, SILENT);
      && w'.up && w'.writes == w.writes + 4 && w'.sessions == w.sessions - {r} && w'.tasks.Keys == w.tasks.Keys
      && !w'.tasks[r].terminal && w'.tasks[r].repoWriterReleased && w'.tasks[r].archived == w.tasks[r].archived
      && w'.tasks[r].repo == w.tasks[r].repo && w'.tasks[r].workspace == w.tasks[r].workspace && w'.tasks[r].pid.None?
  {
    var t := w.tasks[r];
    assert io(w.writes).Landed? && io(w.writes + 1).Landed? && io(w.writes + 2).Landed?;
    HandleCrashMarks(io, w, r, true, SILENT);
    var w1 := Change(io, w, r, CrashMark(t)).0;
    ReleaseIs(io, w1, r);
    FinalizeOne(io, Release(io, w1, r, true).0, r, SILENT);
  }

  /** From the start, with two lost writes and nothing else out of order: a task starts and
      crashes, its ending is lost; a second task starts on the repository; the first one's
      workspace is revoked, and the write that frees the lock again is lost.  Up to then
      the invariant holds, and then two writers hold one repository. */
  lemma LostWritesAdmitSecondWriter(io: Io, repo: Repo, ours: Workspace, theirs: Workspace, closing: Ref -> bool)
    requires ours != theirs && forall k :: 0 <= k < 18 ==> io(k) == if k == 9 || k == 17 then Lost else Landed
    ensures var before := Run(io, FRESH, [StartEvent(0, repo, ours, LIVE, true), CrashEvent(0, true, SILENT),
                                          StartEvent(1, repo, theirs, STUBBORN, false)]);
      Inv(before) && !OneWriter(Apply(io, before, RevokeEvent([0, 1], ours, closing)).tasks)
  {
    ThreeEvents(io, FRESH, StartEvent(0, repo, ours, LIVE, true), CrashEvent(0, true, SILENT),
                StartEvent(1, repo, theirs, STUBBORN, false));
    var w2 := HandleCrash(io, Start(io, FRESH, 0, repo, ours, LIVE, true), 0, true, SILENT);
    StartAndCrash(io, repo, ours);
    AllBut(io, 10, 5, 9, 17);
    StartAndRevoke(io, w2, repo, ours, theirs, closing);
  }

  lemma StartAndRevoke(io: Io, w: World, repo: Repo, ours: Workspace, theirs: Workspace, closing: Ref -> bool)
    requires Inv(w) && Stranded(w, repo, ours) && ours != theirs
    requires AllLanded(io, 10, 5) && io(15).Landed? && io(16).Landed? && io(17).Lost?
    ensures var before := Start(io, w, 1, repo, theirs, STUBBORN, false);
      Inv(before) && !OneWriter(Apply(io, before, RevokeEvent([0, 1], ours, closing)).tasks)
  {
    StubbornStart(io, w, 1, repo, theirs);
    StartKeeps(io, w, 1, repo, theirs, STUBBORN, false);
    LastRevoke(io, Start(io, w, 1, repo, theirs, STUBBORN, false), ours, closing);
  }

  lemma AllBut(io: Io, from: nat, count: nat, a: nat, b: nat)
    requires forall k :: from <= k < from + count && k != a && k != b ==> io(k).Landed?
    requires !(from <= a < from + count) && !(from <= b < from + count)
    ensures AllLanded(io, from, count)
  {}

  /** The first task, after its crash. */
  predicate Stranded(w: World, repo: Repo, ours: Workspace) {
    && w.up && 0 in w.tasks && w.sessions == {} && w.tasks.Keys == {0} && w.writes == 10
    && !w.tasks[0].terminal && w.tasks[0].repoWriterReleased && !w.tasks[0].archived && w.tasks[0].pid.None?
    && w.tasks[0].repo == repo && w.tasks[0].workspace == ours
  }

  lemma StartAndCrash(io: Io, repo: Repo, ours: Workspace)
    requires forall k :: 0 <= k < 18 ==> io(k) == if k == 9 || k == 17 then Lost else Landed
    ensures var w := HandleCrash(io, Start(io, FRESH, 0, repo, ours, LIVE, true), 0, true, SILENT);
      Inv(w) && Stranded(w, repo, ours)
  {
    var w1 := Start(io, FRESH, 0, repo, ours, LIVE, true);
    LiveStart(io, FRESH, 0, repo, ours);
    StartKeeps(io, FRESH, 0, repo, ours, LIVE, true);
    LostEnding(io, w1, 0);
    HandleCrashKeeps(io, w1, 0, true, SILENT);
  }

  lemma LastRevoke(io: Io, w: World, ours: Workspace, closing: Ref -> bool)
    requires Inv(w) && w.up && w.writes == 15 && io(15).Landed? && io(16).Landed? && io(17).Lost?
    requires 0 in w.tasks && 1 in w.tasks && 0 !in w.sessions && w.tasks[0].repo == w.tasks[1].repo
    requires !w.tasks[0].terminal && w.tasks[0].repoWriterReleased && !w.tasks[0].archived && w.tasks[0].pid.None?
    requires w.tasks[0].workspace == ours && w.tasks[1].workspace != ours && Holds(w.tasks[1])
    ensures !OneWriter(Apply(io, w, RevokeEvent([0, 1], ours, closing)).tasks)
  {
    RevokedTaskIsSecondWriter(io, w, 0, 1, closing(0));
    RevokeFirst(io, w, [0, 1], ours, closing);
  }

  lemma ThreeEvents(io: Io, w: World, a: Event, b: Event, c: Event)
    ensures Run(io, w, [a, b, c]) == Apply(io, Apply(io, Apply(io, w, a), b), c)
  {
    var w1 := Apply(io, w, a);
    var w2 := Apply(io, w1, b);
    OneEvent(io, w, [a, b, c]);
    OneEvent(io, w1, [b, c]);
    OneEvent(io, w2, [c]);
    assert [a, b, c][1..] == [b, c] && [b, c][1..] == [c] && [c][1..] == [];
  }

  lemma OneEvent(io: Io, w: World, es: seq<Event>)
    requires es != []
    ensures Run(io, w, es) == Run(io, Apply(io, w, es[0]), es[1..])
  {}

  /** Of two tasks, only the first belongs to the workspace, and revoking it stops there. */
  lemma RevokeFirst(io: Io, w: World, order: seq<Ref>, workspace: Workspace, closing: Ref -> bool)
    requires order == [0, 1] && 0 in w.tasks && w.tasks[0].workspace == workspace && !w.tasks[0].archived
    requires 1 in w.tasks && w.tasks[1].workspace != workspace
    ensures RevokeWorkspace(io, w, order, workspace, closing) == RevokeTask(io, w, 0, closing(0)).0
  {
    var nobody: seq<Ref> := [];
    var first: seq<Ref> := [0];
    var second: seq<Ref> := [1];
    assert order[1..] == second && second[1..] == nobody && first[1..] == nobody && first + nobody == first;
    assert Affected(w, nobody, workspace) == nobody && Affected(w, second, workspace) == nobody;
    assert Affected(w, order, workspace) == first;
    var w1 := RevokeTask(io, w, 0, closing(0)).0;
    assert RevokeAll(io, w1, nobody, closing) == w1;
    assert RevokeAll(io, w, first, closing) == w1;
  }
}
