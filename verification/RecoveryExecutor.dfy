/** One automatic recovery pass (packages/service/src/recovery-executor.ts:112-172). */
module RecoveryExecution {
  import opened Options
  import opened RecoveryPolicy
  import opened RecoveryBounds

  class RecoveryExecutor {
    var file: Option<RawState>
    var log: seq<RestartEvent>
    var storms: seq<Storm>

    constructor ()
      ensures State() == IDLE && forall now :: Inv(State(), now)
    {
      file, log, storms := None, [], [];
    }

    ghost function State(): Executor reads this { Executor(file, log, storms) }

    /** `history.filter`, for the events of the window. */
    static method Prune(history: seq<RestartEvent>, from: int) returns (recent: seq<RestartEvent>)
      ensures recent == Since(history, from)
    {
      recent := [];
      for i := 0 to |history|
        invariant recent == Since(history[..i], from)
      {
        assert history[..i + 1][..i] == history[..i];
        if history[i].at >= from { recent := recent + [history[i]]; }
      }
      assert history[..|history|] == history;
    }

    /** None when the pass throws. */
    method ExecuteOnce(t: Tick) returns (done: Option<Decision>)
      modifies this
      ensures (State(), done) == Once(old(State()), t)
      ensures forall before :: old(Inv(State(), before)) && before <= t.now && Remembers(old(State()), t) ==>
                InvSince(State(), before, t.now)
    {
      forall before | Inv(State(), before) && before <= t.now && Remembers(State(), t)
        ensures InvSince(Once(State(), t).0, before, t.now)
      {
        var now := OnceKeeps(State(), before, t);
      }
      var previous := CleanState(file);
      var recent := Prune(previous.history, t.now - DEFAULT.window);
      var decided := Decide(Observed(t.observed, previous.cooldowns), recent, t.now, DEFAULT, Automatic);
      if decided.None? { return None; }
      var decision := decided.value;
      var history := recent;
      var cooldowns := previous.cooldowns;
      var before := log;
      if Acts(decision) {
        if !t.mutates { return None; }
        if !decision.action.Stop? {
          var event := RestartEvent(decision.service.value, t.now);
          history := history + [event];
          log := log + [event];
        }
      }
      assert history == recent + Made(decision, t.now) && log == before + Made(decision, t.now);
      if decision.service.Some? && decision.cooldownUntil.Some? {
        cooldowns := cooldowns[decision.service.value := decision.cooldownUntil.value];
      }
      storms := storms + Storms(decision, t.now, |before|);
      if !t.writes { return None; }
      file := Some(Written(RecoveryState(LastOf(history, KEPT), cooldowns)));
      return Some(decision);
    }
  }

  /** The limits were kept, judged at some time in the interval. */
  ghost predicate InvSince(x: Executor, from: int, to: int) {
    exists now :: from <= now <= to && Inv(x, now)
  }
}
