/** Bounds on the restarts of every run of the recovery executor. */
module RecoveryBounds {
  import opened Options
  import opened RecoveryPolicy

  // ------------------------------------------------------------------ filters

  lemma OfMonotone(h: seq<RestartEvent>, service: Service, lo: int, later: int)
    requires lo <= later
    ensures |Of(h, service, later)| <= |Of(h, service, lo)|
  {
    if h != [] { OfMonotone(h[..|h| - 1], service, lo, later); }
  }

  lemma {:induction false} SinceAppend(h: seq<RestartEvent>, e: RestartEvent, from: int)
    ensures Since(h + [e], from) == Since(h, from) + if e.at >= from then [e] else []
  {
    assert (h + [e])[..|h|] == h;
  }

  lemma {:induction false} OfAppend(h: seq<RestartEvent>, e: RestartEvent, service: Service, from: int)
    ensures Of(h + [e], service, from) ==
      Of(h, service, from) + if e.service == service && e.at >= from then [e] else []
  {
    assert (h + [e])[..|h|] == h;
  }

  /** Filtering what an earlier filter kept is filtering the whole. */
  lemma {:induction false} SinceAgain(h: seq<RestartEvent>, from: int, later: int)
    requires from <= later
    ensures Since(Since(h, from), later) == Since(h, later)
  {
    if h != [] {
      var front, e := h[..|h| - 1], h[|h| - 1];
      SinceAgain(front, from, later);
      if e.at >= from {
        SinceAppend(Since(front, from), e, later);
      } else {
        assert Since(front, from) + [] == Since(front, from);
      }
    }
  }

  lemma {:induction false} OfSince(h: seq<RestartEvent>, from: int, later: int, service: Service)
    requires from <= later
    ensures Of(Since(h, from), service, later) == Of(h, service, later)
  {
    if h != [] {
      var front, e := h[..|h| - 1], h[|h| - 1];
      OfSince(front, from, later, service);
      if e.at >= from {
        OfAppend(Since(front, from), e, service, later);
      } else {
        assert Since(front, from) + [] == Since(front, from);
      }
    }
  }

  lemma {:induction false} TwoServices(h: seq<RestartEvent>, from: int)
    ensures |Since(h, from)| == |Of(h, Core, from)| + |Of(h, Tunnel, from)|
  {
    if h != [] { TwoServices(h[..|h| - 1], from); }
  }

  lemma {:induction false} SinceTimes(h: seq<RestartEvent>, from: int, now: int)
    requires forall i :: 0 <= i < |h| ==> h[i].at <= now
    ensures forall i :: 0 <= i < |Since(h, from)| ==> Since(h, from)[i].at <= now
  {
    if h != [] { SinceTimes(h[..|h| - 1], from, now); }
  }

  // ------------------------------------------------------------------- spacing

  /** The i-th restart kept the limits, judged by the whole log before it. */
  predicate SpacedAt(log: seq<RestartEvent>, i: nat)
    requires i < |log|
  {
    var earlier := Of(log[..i], log[i].service, log[i].at - DEFAULT.window);
    |earlier| < DEFAULT.maxAttempts &&
    (earlier != [] ==> Latest(earlier) + Backoff(DEFAULT, |earlier|) <= log[i].at)
  }

  predicate Spaced(log: seq<RestartEvent>) {
    forall i :: 0 <= i < |log| ==> SpacedAt(log, i)
  }

  /** The restarts of a service in the closed interval from `lo` to `hi`. */
  function Within(log: seq<RestartEvent>, service: Service, lo: int, hi: int): seq<RestartEvent> {
    if log == [] then []
    else
      var last := log[|log| - 1];
      Within(log[..|log| - 1], service, lo, hi)
      + if last.service == service && lo <= last.at <= hi then [last] else []
  }

  lemma WithinOf(log: seq<RestartEvent>, service: Service, lo: int, hi: int)
    ensures |Within(log, service, lo, hi)| <= |Of(log, service, lo)|
  {
    if log != [] { WithinOf(log[..|log| - 1], service, lo, hi); }
  }

  lemma SpacedPrefix(log: seq<RestartEvent>, n: nat)
    requires Spaced(log) && n <= |log|
    ensures Spaced(log[..n])
  {
    forall i | 0 <= i < n ensures SpacedAt(log[..n], i) {
      assert log[..n][..i] == log[..i];
      assert SpacedAt(log, i);
    }
  }

  /** Checking each restart against the window before it bounds every window. */
  lemma {:induction false} EveryWindowIsBounded(log: seq<RestartEvent>, service: Service, lo: int, hi: int)
    requires Spaced(log) && hi - lo <= DEFAULT.window
    ensures |Within(log, service, lo, hi)| <= DEFAULT.maxAttempts
    decreases |log|
  {
    if log != [] {
      var front, last := log[..|log| - 1], log[|log| - 1];
      if last.service == service && lo <= last.at <= hi {
        assert SpacedAt(log, |log| - 1);
        WithinOf(front, service, lo, hi);
        OfMonotone(front, service, last.at - DEFAULT.window, lo);
      } else {
        SpacedPrefix(log, |log| - 1);
        EveryWindowIsBounded(front, service, lo, hi);
      }
    }
  }

  lemma WithinAll(log: seq<RestartEvent>, service: Service, lo: int, hi: int)
    requires forall i :: 0 <= i < |log| ==> log[i].at <= hi
    ensures Within(log, service, lo, hi) == Of(log, service, lo)
  {
    if log != [] { WithinAll(log[..|log| - 1], service, lo, hi); }
  }

  // ----------------------------------------------------------------- invariant

  /** No restart of the service before the storm's cooldown is over. */
  predicate StormRespected(log: seq<RestartEvent>, st: Storm) {
    forall i :: st.after <= i < |log| && log[i].service == st.service ==> log[i].at >= st.at + DEFAULT.cooldown
  }

  predicate StormStored(cooldowns: map<Service, int>, st: Storm) {
    st.service in cooldowns && cooldowns[st.service] >= st.at + DEFAULT.cooldown
  }

  predicate StormHeld(log: seq<RestartEvent>, cooldowns: map<Service, int>, st: Storm) {
    st.after <= |log| && StormRespected(log, st) && StormStored(cooldowns, st)
  }

  predicate Inv(x: Executor, now: int) {
    var s := CleanState(x.file);
    && (forall i :: 0 <= i < |x.log| ==> x.log[i].at <= now)
    && Spaced(x.log)
    && s.history == Since(x.log, now - DEFAULT.window)
    && (forall st :: st in x.storms ==> StormHeld(x.log, s.cooldowns, st))
  }

  lemma {:induction false} CleanWritten(history: seq<RestartEvent>)
    ensures CleanEvents(RawEvents(history)) == history
  {
    if history != [] {
      CleanWritten(history[1..]);
      assert RawEvents(history)[1..] == RawEvents(history[1..]);
    }
  }

  /** The state file round trip. */
  lemma StateRoundTrip(s: RecoveryState)
    requires |s.history| <= KEPT
    ensures CleanState(Some(Written(s))) == s
  {
    CleanWritten(s.history);
  }

  /** What a run keeps of the stored history. */
  function Recent(x: Executor, now: int): seq<RestartEvent> {
    Since(CleanState(x.file).history, now - DEFAULT.window)
  }

  /** The two histories look the same to a decision at time `now`. */
  predicate SameWindow(a: seq<RestartEvent>, b: seq<RestartEvent>, now: int) {
    Of(a, Core, now - DEFAULT.window) == Of(b, Core, now - DEFAULT.window) &&
    Of(a, Tunnel, now - DEFAULT.window) == Of(b, Tunnel, now - DEFAULT.window)
  }

  /** The window of the log is what the pruned history holds, and it is short. */
  lemma RecentIs(x: Executor, before: int, now: int)
    requires Inv(x, before) && before <= now
    ensures Recent(x, now) == Since(x.log, now - DEFAULT.window)
    ensures |Recent(x, now)| <= 2 * DEFAULT.maxAttempts
    ensures SameWindow(Recent(x, now), x.log, now)
    ensures Valid(DEFAULT, Recent(x, now), now)
  {
    var from := now - DEFAULT.window;
    SinceAgain(x.log, before - DEFAULT.window, from);
    OfSince(x.log, from, from, Core);
    OfSince(x.log, from, from, Tunnel);
    TwoServices(x.log, from);
    WithinAll(x.log, Core, from, now);
    WithinAll(x.log, Tunnel, from, now);
    EveryWindowIsBounded(x.log, Core, from, now);
    EveryWindowIsBounded(x.log, Tunnel, from, now);
    SinceTimes(x.log, from, now);
  }

  lemma SameWindowSameAction(a: seq<RestartEvent>, b: seq<RestartEvent>, now: int, status: ServiceStatus,
                             service: Service,
                             action: Action, reason: Reason)
    requires SameWindow(a, b, now)
    ensures BoundedAction(DEFAULT, a, status, service, action, reason, now)
         == BoundedAction(DEFAULT, b, status, service, action, reason, now)
  {}

  lemma SameWindowSameDecision(a: seq<RestartEvent>, b: seq<RestartEvent>, now: int, o: Observation)
    requires SameWindow(a, b, now)
    ensures DecideAutomatic(o, a, now, DEFAULT) == DecideAutomatic(o, b, now, DEFAULT)
  {
    SameWindowSameAction(a, b, now, o.core, Core, Start, ProcessStopped);
    SameWindowSameAction(a, b, now, o.core, Core, Restart, NotServing);
    SameWindowSameAction(a, b, now, o.tunnel, Tunnel, Start, ProcessStopped);
    SameWindowSameAction(a, b, now, o.tunnel, Tunnel, Restart, NotServing);
  }

  /** Pruning and the cut to 64 events never change a decision: deciding on the stored
      history is deciding on everything that ever happened, and never throws. */
  lemma PruningIsInvisible(x: Executor, before: int, now: int, o: Observation)
    requires Inv(x, before) && before <= now
    ensures Decide(o, Recent(x, now), now, DEFAULT, Automatic) == Decide(o, x.log, now, DEFAULT, Automatic)
    ensures Decide(o, Recent(x, now), now, DEFAULT, Automatic).Some?
  {
    RecentIs(x, before, now);
    SameWindowSameDecision(Recent(x, now), x.log, now, o);
  }

  /** The limits under which a restart of `service` at time `now` keeps the log spaced. */
  predicate MayRestart(history: seq<RestartEvent>, service: Service, now: int) {
    var recent := Of(history, service, now - DEFAULT.window);
    |recent| < DEFAULT.maxAttempts && (recent != [] ==> Latest(recent) + Backoff(DEFAULT, |recent|) <= now)
  }

  /** What a bounded action says about its service. */
  predicate Disciplined(d: Decision, history: seq<RestartEvent>, now: int, cooldowns: map<Service, int>) {
    && (Acts(d) ==>
          (!d.action.Stop? && d.cooldownUntil.None? && MayRestart(history, d.service.value, now) &&
           (d.service.value in cooldowns ==> cooldowns[d.service.value] <= now)))
    && (d.cooldownUntil.Some? ==>
          (d.service.Some? &&
           (d.service.value in cooldowns ==> cooldowns[d.service.value] <= d.cooldownUntil.value)))
    && (d.reason.RestartStorm? ==> (d.service.Some? && d.cooldownUntil == Some(now + DEFAULT.cooldown) && !Acts(d)))
  }

  lemma BoundedIsDisciplined(history: seq<RestartEvent>, now: int, status: ServiceStatus, cooldowns: map<Service, int>,
                             service: Service, action: Action, reason: Reason)
    requires (action.Start? || action.Restart?) && (reason.ProcessStopped? || reason.NotServing?)
    ensures Disciplined(
      BoundedAction(DEFAULT, history, WithCooldown(status, cooldowns, service), service, action, reason, now),
      history, now, cooldowns)
  {}

  predicate Idle(d: Decision) { !Acts(d) && d.cooldownUntil.None? && !d.reason.RestartStorm? }

  lemma AutomaticIs(o: Observation, history: seq<RestartEvent>, now: int)
    ensures var d := DecideAutomatic(o, history, now, DEFAULT);
      || Idle(d)
      || d == BoundedAction(DEFAULT, history, o.core, Core, Start, ProcessStopped, now)
      || d == BoundedAction(DEFAULT, history, o.core, Core, Restart, NotServing, now)
      || d == BoundedAction(DEFAULT, history, o.tunnel, Tunnel, Start, ProcessStopped, now)
      || d == BoundedAction(DEFAULT, history, o.tunnel, Tunnel, Restart, NotServing, now)
  {}

  lemma DecisionIsDisciplined(o: Observation, history: seq<RestartEvent>, now: int, cooldowns: map<Service, int>)
    ensures Disciplined(DecideAutomatic(Observed(o, cooldowns), history, now, DEFAULT), history, now, cooldowns)
  {
    AutomaticIs(Observed(o, cooldowns), history, now);
    BoundedIsDisciplined(history, now, o.core, cooldowns, Core, Start, ProcessStopped);
    BoundedIsDisciplined(history, now, o.core, cooldowns, Core, Restart, NotServing);
    BoundedIsDisciplined(history, now, o.tunnel, cooldowns, Tunnel, Start, ProcessStopped);
    BoundedIsDisciplined(history, now, o.tunnel, cooldowns, Tunnel, Restart, NotServing);
  }

  /** The run's state write succeeds, at least when it made a restart or found a storm. */
  predicate Remembers(x: Executor, t: Tick) {
    var x1 := Once(x, t).0;
    t.writes || (x1.log == x.log && x1.storms == x.storms)
  }

  /** The decision a run takes on the recent history. */
  function Taken(x: Executor, t: Tick): Decision {
    DecideAutomatic(Observed(t.observed, CleanState(x.file).cooldowns), Recent(x, t.now), t.now, DEFAULT)
  }

  /** A run records its decision on the recent history, unless mutate fails. */
  lemma OnceRecords(x: Executor, t: Tick)
    requires Valid(DEFAULT, Recent(x, t.now), t.now)
    ensures Once(x, t).0 == x ||
            Once(x, t).0 == Record(x, Recent(x, t.now), CleanState(x.file).cooldowns, Taken(x, t), t)
  {
    DecideOnValid(Observed(t.observed, CleanState(x.file).cooldowns), Recent(x, t.now), t.now);
  }

  lemma DecideOnValid(o: Observation, history: seq<RestartEvent>, now: int)
    requires Valid(DEFAULT, history, now)
    ensures Decide(o, history, now, DEFAULT, Automatic) == Some(DecideAutomatic(o, history, now, DEFAULT))
  {}

  /** What a run writes is what the next run reads: the cut to 64 events drops none. */
  lemma RecordedState(x: Executor, recent: seq<RestartEvent>, cooldowns: map<Service, int>, d: Decision, t: Tick)
    requires t.writes && |recent| <= 2 * DEFAULT.maxAttempts
    ensures CleanState(Record(x, recent, cooldowns, d, t).file)
         == RecoveryState(recent + Made(d, t.now), Cooldowns(d, cooldowns))
  {
    assert |Made(d, t.now)| <= 1;
    assert LastOf(recent + Made(d, t.now), KEPT) == recent + Made(d, t.now);
    StateRoundTrip(RecoveryState(recent + Made(d, t.now), Cooldowns(d, cooldowns)));
  }

  lemma OnceKeeps(x: Executor, before: int, t: Tick) returns (now: int)
    requires Inv(x, before) && before <= t.now && Remembers(x, t)
    ensures Inv(Once(x, t).0, now) && before <= now <= t.now
  {
    var s := CleanState(x.file);
    RecentIs(x, before, t.now);
    OnceRecords(x, t);
    if Once(x, t).0 == x {
      now := before;
    } else {
      now := t.now;
      DecisionIsDisciplined(t.observed, Recent(x, t.now), t.now, s.cooldowns);
      RecordKeeps(x, before, Taken(x, t), t);
    }
  }

  lemma RecordKeeps(x: Executor, before: int, d: Decision, t: Tick)
    requires Inv(x, before) && before <= t.now && t.writes
    requires Disciplined(d, Recent(x, t.now), t.now, CleanState(x.file).cooldowns)
    ensures Inv(Record(x, Recent(x, t.now), CleanState(x.file).cooldowns, d, t), t.now)
  {
    var cooldowns := CleanState(x.file).cooldowns;
    RecentIs(x, before, t.now);
    RecordedState(x, Recent(x, t.now), cooldowns, d, t);
    LogKept(x, d, t.now);
    forall st | st in x.storms + Storms(d, t.now, |x.log|)
      ensures StormHeld(x.log + Made(d, t.now), Cooldowns(d, cooldowns), st)
    {
      if st in x.storms {
        StormsStay(x, d, cooldowns, st, t.now);
      } else {
        NewStorm(x, d, cooldowns, t.now);
      }
    }
  }

  lemma NewStorm(x: Executor, d: Decision, cooldowns: map<Service, int>, now: int)
    requires Disciplined(d, Recent(x, now), now, cooldowns)
    ensures forall st :: st in Storms(d, now, |x.log|) ==> StormHeld(x.log + Made(d, now), Cooldowns(d, cooldowns), st)
  {}

  lemma LogKept(x: Executor, d: Decision, now: int)
    requires Spaced(x.log) && Recent(x, now) == Since(x.log, now - DEFAULT.window)
    requires SameWindow(Recent(x, now), x.log, now)
    requires Disciplined(d, Recent(x, now), now, CleanState(x.file).cooldowns)
    ensures Spaced(x.log + Made(d, now))
    ensures Recent(x, now) + Made(d, now) == Since(x.log + Made(d, now), now - DEFAULT.window)
  {
    if Acts(d) {
      var e := RestartEvent(d.service.value, now);
      SinceAppend(x.log, e, now - DEFAULT.window);
      SpacedAppend(x.log, e);
    } else {
      assert x.log + Made(d, now) == x.log && Recent(x, now) + Made(d, now) == Recent(x, now);
    }
  }

  lemma StormsStay(x: Executor, d: Decision, cooldowns: map<Service, int>, st: Storm, now: int)
    requires StormHeld(x.log, cooldowns, st)
    requires Disciplined(d, Recent(x, now), now, cooldowns)
    ensures StormHeld(x.log + Made(d, now), Cooldowns(d, cooldowns), st)
  {}

  lemma SpacedAppend(log: seq<RestartEvent>, e: RestartEvent)
    requires Spaced(log)
    requires MayRestart(log, e.service, e.at)
    ensures Spaced(log + [e])
  {
    forall i | 0 <= i < |log + [e]| ensures SpacedAt(log + [e], i) {
      if i < |log| {
        assert (log + [e])[..i] == log[..i];
        assert SpacedAt(log, i);
      } else {
        assert (log + [e])[..i] == log;
      }
    }
  }

  // ---------------------------------------------------------------------- runs

  /** The clock never goes back, and every restart and every storm reaches the state file. */
  predicate SteadyRun(x: Executor, from: int, ts: seq<Tick>)
    decreases |ts|
  {
    ts != [] ==> from <= ts[0].now && Remembers(x, ts[0]) && SteadyRun(Once(x, ts[0]).0, ts[0].now, ts[1..])
  }

  lemma {:induction false} SteadyEarlier(x: Executor, before: int, from: int, ts: seq<Tick>)
    requires SteadyRun(x, from, ts) && before <= from
    ensures SteadyRun(x, before, ts)
  {}

  lemma {:induction false} RunKeeps(x: Executor, from: int, ts: seq<Tick>) returns (now: int)
    requires Inv(x, from) && SteadyRun(x, from, ts)
    ensures Inv(Run(x, ts), now)
    decreases |ts|
  {
    if ts == [] {
      now := from;
    } else {
      var kept := OnceKeeps(x, from, ts[0]);
      SteadyEarlier(Once(x, ts[0]).0, kept, ts[0].now, ts[1..]);
      now := RunKeeps(Once(x, ts[0]).0, kept, ts[1..]);
    }
  }

  /** Every steady run: any window holds at most five restarts of a service, each
      restart waited out its backoff, and none falls into a storm's cooldown. */
  lemma EveryRunIsBounded(from: int, ts: seq<Tick>)
    requires SteadyRun(IDLE, from, ts)
    ensures var x := Run(IDLE, ts);
      && (forall service, lo, hi :: hi - lo <= DEFAULT.window ==>
            |Within(x.log, service, lo, hi)| <= DEFAULT.maxAttempts)
      && Spaced(x.log)
      && (forall st :: st in x.storms ==> StormRespected(x.log, st))
  {
    var now := RunKeeps(IDLE, from, ts);
    var x := Run(IDLE, ts);
    forall service, lo, hi | hi - lo <= DEFAULT.window
      ensures |Within(x.log, service, lo, hi)| <= DEFAULT.maxAttempts
    {
      EveryWindowIsBounded(x.log, service, lo, hi);
    }
  }

  /** The write hypothesis is needed: a restart whose state write fails is forgotten,
      and the next run restarts again without any pause. */
  lemma LostWriteForgetsRestart(t: Tick)
    requires t.mutates && !t.writes && !t.observed.core.running
    requires !t.observed.coreConfig.ConfigInvalid? && !t.observed.core.stale && t.observed.core.cooldownUntil.None?
    ensures var x := Run(IDLE, [t, t]);
      x.log == [RestartEvent(Core, t.now), RestartEvent(Core, t.now)] && !Spaced(x.log)
  {
    var e := RestartEvent(Core, t.now);
    ForgetfulTick(t, []);
    ForgetfulTick(t, [e]);
    TwoTicks(IDLE, t);
    assert [e] + [e] == [e, e];
    NoPause(e);
  }

  lemma TwoTicks(x: Executor, t: Tick)
    ensures Run(x, [t, t]) == Once(Once(x, t).0, t).0
  {
    var x1 := Once(x, t).0;
    assert [t, t][1..] == [t] && [t][1..] == [];
    assert Run(Once(x1, t).0, []) == Once(x1, t).0;
    assert Run(x1, [t]) == Run(Once(x1, t).0, []);
  }

  /** Twice the same restart is not spaced. */
  lemma NoPause(e: RestartEvent)
    ensures !Spaced([e, e])
  {
    assert [e, e][..1] == [] + [e];
    OfAppend([], e, e.service, e.at - DEFAULT.window);
    assert !SpacedAt([e, e], 1);
  }

  lemma ForgetfulTick(t: Tick, log: seq<RestartEvent>)
    requires t.mutates && !t.writes && !t.observed.core.running
    requires !t.observed.coreConfig.ConfigInvalid? && !t.observed.core.stale && t.observed.core.cooldownUntil.None?
    ensures Once(Executor(None, log, []), t).0 == Executor(None, log + [RestartEvent(Core, t.now)], [])
  {
    var nothing: map<Service, int> := map[];
    assert CleanState(None) == RecoveryState([], nothing);
    assert Since([], t.now - DEFAULT.window) == [] && Of([], Core, t.now - DEFAULT.window) == [];
    assert DecideAutomatic(Observed(t.observed, nothing), [], t.now, DEFAULT) == Plain(Start, ProcessStopped, Core);
  }
}
