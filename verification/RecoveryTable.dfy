/** The recovery limits and the recovery decision in numbers: five restarts in ten minutes,
    pauses of 5, 10, 20 and 40 seconds, a quarter of an hour after a storm. */
module RecoveryTable {
  import opened Options
  import opened RecoveryPolicy
  import opened RecoveryBounds

  // ------------------------------------------------------------------- counting

  /** The restarts of a service from time `from` on, by their place in the history. */
  function Places(h: seq<RestartEvent>, service: Service, from: int): set<int> {
    set j | 0 <= j < |h| && h[j].service == service && h[j].at >= from
  }

  lemma {:induction false} OfCounts(h: seq<RestartEvent>, service: Service, from: int)
    ensures |Of(h, service, from)| == |Places(h, service, from)|
  {
    if h == [] {
      assert Places(h, service, from) == {};
    } else {
      var front, e := h[..|h| - 1], h[|h| - 1];
      OfCounts(front, service, from);
      OfAppend(front, e, service, from);
      PlacesStep(front, e, service, from);
      assert h == front + [e];
    }
  }

  lemma PlacesStep(front: seq<RestartEvent>, e: RestartEvent, service: Service, from: int)
    ensures |Places(front + [e], service, from)|
         == |Places(front, service, from)| + if e.service == service && e.at >= from then 1 else 0
  {
    var all, was := Places(front + [e], service, from), Places(front, service, from);
    assert |front| !in was;
    if e.service == service && e.at >= from { assert all == was + {|front|}; } else { assert all == was; }
  }

  lemma {:induction false} OfHolds(h: seq<RestartEvent>, service: Service, from: int, j: int)
    requires j in Places(h, service, from)
    ensures h[j] in Of(h, service, from)
  {
    if j < |h| - 1 {
      assert h[..|h| - 1][j] == h[j];
      OfHolds(h[..|h| - 1], service, from, j);
    }
  }

  lemma {:induction false} OfFrom(h: seq<RestartEvent>, service: Service, from: int, e: RestartEvent)
    requires e in Of(h, service, from)
    ensures exists j :: j in Places(h, service, from) && h[j] == e
  {
    var front, n := h[..|h| - 1], |h| - 1;
    if e in Of(front, service, from) {
      OfFrom(front, service, from, e);
      var j :| j in Places(front, service, from) && front[j] == e;
      assert j in Places(h, service, from) && h[j] == e;
    } else {
      assert n in Places(h, service, from) && h[n] == e;
    }
  }

  lemma {:induction false} LatestIsLast(h: seq<RestartEvent>)
    requires h != []
    ensures forall e :: e in h ==> e.at <= Latest(h)
    ensures exists e :: e in h && e.at == Latest(h)
  {
    var front, last := h[..|h| - 1], h[|h| - 1];
    assert h == front + [last];
    if front == [] {
      assert last in h && last.at == Latest(h);
    } else {
      LatestIsLast(front);
      var e :| e in front && e.at == Latest(front);
      assert e in h && last in h;
      if Latest(front) < last.at { assert last.at == Latest(h); } else { assert e.at == Latest(h); }
    }
  }

  /** The last of the recent restarts, by its place: none is later. */
  lemma LatestOf(h: seq<RestartEvent>, service: Service, from: int) returns (j: int)
    requires Of(h, service, from) != []
    ensures j in Places(h, service, from) && h[j].at == Latest(Of(h, service, from))
    ensures forall i :: i in Places(h, service, from) ==> h[i].at <= Latest(Of(h, service, from))
  {
    var recent := Of(h, service, from);
    LatestIsLast(recent);
    var e :| e in recent && e.at == Latest(recent);
    OfFrom(h, service, from, e);
    j :| j in Places(h, service, from) && h[j] == e;
    forall i | i in Places(h, service, from) ensures h[i].at <= Latest(recent) { OfHolds(h, service, from, i); }
  }

  // -------------------------------------------------------------- pauses, any policy

  /** The pauses double from the first one on. */
  ghost predicate Doubling(pause: nat -> int, base: int) {
    pause(1) == base && forall k: nat :: k >= 1 ==> pause(k + 1) == 2 * pause(k)
  }

  lemma {:induction false} DoublingIs(pause: nat -> int, base: int, k: nat)
    requires Doubling(pause, base) && k >= 1
    ensures pause(k) == base * Pow2(k - 1)
  {
    if k > 1 {
      DoublingIs(pause, base, k - 1);
      assert pause(k - 1 + 1) == 2 * pause(k - 1);
      Twice(base, Pow2(k - 2));
    }
  }

  lemma Twice(a: int, b: int)
    ensures 2 * (a * b) == a * (2 * b)
  {}

  /** Under any policy: a bounded action acts exactly when no cooldown is active, the
      restarts in the window are fewer than the limit, and each of the k of them lies at
      least the k-th pause back, a pause capped at the greatest one. */
  lemma ActsExactly(p: Policy, pause: nat -> int, h: seq<RestartEvent>, status: ServiceStatus, service: Service,
                    action: Action, reason: Reason, now: int)
    requires Doubling(pause, p.baseBackoff) && (action.Start? || action.Restart?)
    ensures var places := Places(h, service, now - p.window);
      BoundedAction(p, h, status, service, action, reason, now).action == action <==>
        && (status.cooldownUntil.Some? ==> status.cooldownUntil.value <= now)
        && |places| < p.maxAttempts
        && forall j :: j in places ==> now - h[j].at >= pause(|places|) || now - h[j].at >= p.maxBackoff
  {
    var from := now - p.window;
    var recent := Of(h, service, from);
    OfCounts(h, service, from);
    if recent != [] {
      DoublingIs(pause, p.baseBackoff, |recent|);
      var last := LatestOf(h, service, from);
    } else {
      assert forall j :: j !in Places(h, service, from);
    }
  }

  // ------------------------------------------------------------------- the numbers

  /** The pause after the last of `k` restarts in the window, in milliseconds. */
  const PAUSES: seq<int> := [0, 5_000, 10_000, 20_000, 40_000]

  /** One more restart of the service keeps the limits. */
  predicate Due(h: seq<RestartEvent>, service: Service, now: int) {
    var places := Places(h, service, now - 600_000);
    |places| < 5 && forall j :: j in places ==> now - h[j].at >= PAUSES[|places|]
  }

  lemma BackoffIs(k: nat)
    requires 1 <= k <= 4
    ensures Backoff(DEFAULT, k) == PAUSES[k]
  {
    assert Pow2(0) == 1 && Pow2(1) == 2 && Pow2(2) == 4 && Pow2(3) == 8;
  }

  lemma DueIs(h: seq<RestartEvent>, service: Service, now: int)
    ensures Due(h, service, now) <==> MayRestart(h, service, now)
  {
    var from := now - 600_000;
    var recent := Of(h, service, from);
    OfCounts(h, service, from);
    if recent != [] {
      var last := LatestOf(h, service, from);
      if |recent| < 5 { BackoffIs(|recent|); }
    } else {
      assert forall j :: j !in Places(h, service, from);
    }
  }

  predicate CoolingDown(status: ServiceStatus, now: int) {
    status.cooldownUntil.Some? && status.cooldownUntil.value > now
  }

  /** The four answers for a service that should be started or restarted. */
  lemma BoundedActionIs(h: seq<RestartEvent>, status: ServiceStatus, service: Service, action: Action, reason: Reason,
                        now: int)
    requires (action.Start? || action.Restart?) && (reason.ProcessStopped? || reason.NotServing?)
    ensures var d := BoundedAction(DEFAULT, h, status, service, action, reason, now);
      var places := Places(h, service, now - 600_000);
      && d.service == Some(service)
      && (CoolingDown(status, now) ==>
            d.action.WaitBackoff? && d.reason.CooldownActive? && d.delay == Some(status.cooldownUntil.value - now))
      && (!CoolingDown(status, now) && |places| >= 5 ==>
            d.action.ManualIntervention? && d.reason.RestartStorm? && d.cooldownUntil == Some(now + 900_000))
      && (!CoolingDown(status, now) && |places| < 5 && !Due(h, service, now) ==>
            && d.action.WaitBackoff? && d.reason.BackoffActive? && d.delay.Some?
            && exists j :: j in places && d.delay.value == h[j].at + PAUSES[|places|] - now)
      && (!CoolingDown(status, now) && Due(h, service, now) ==>
            d.action == action && d.reason == reason && d.delay.None?)
  {
    DueIs(h, service, now);
    OfCounts(h, service, now - 600_000);
    if Of(h, service, now - 600_000) != [] && |Of(h, service, now - 600_000)| < 5 {
      var last := LatestOf(h, service, now - 600_000);
      BackoffIs(|Of(h, service, now - 600_000)|);
    }
  }

  // ---------------------------------------------------------------- the decision

  /** Nothing about the service needs a person. */
  predicate Fine(o: Observation, service: Service) {
    match service
    case Core => !o.coreConfig.ConfigInvalid? && !o.core.stale
    case Tunnel =>
      !o.tunnelConfig.ConfigInvalid? && !o.tunnel.stale && !o.tunnelSecret.SecretMissing? && !o.tunnelAuth.NotReady?
  }

  predicate CoreServes(o: Observation) {
    Fine(o, Core) && o.core.running && o.localMcp.Ready?
  }

  /** The tunnel is only looked at when the core serves and the tunnel was activated. */
  predicate TunnelCounts(o: Observation) {
    CoreServes(o) && Fine(o, Tunnel) && o.tunnel.installed
  }

  predicate TunnelFails(o: Observation) {
    o.tunnelConnected.NotReady? || o.tunnelReady.NotReady?
  }

  predicate MayAct(h: seq<RestartEvent>, status: ServiceStatus, service: Service, now: int) {
    !CoolingDown(status, now) && Due(h, service, now)
  }

  /** When each of the two services is started or restarted; nothing is ever stopped. */
  lemma ActionsAre(o: Observation, h: seq<RestartEvent>, now: int)
    ensures var d := DecideAutomatic(o, h, now, DEFAULT);
      && (d.action.Start? && d.service == Some(Core) <==>
            Fine(o, Core) && !o.core.running && MayAct(h, o.core, Core, now))
      && (d.action.Restart? && d.service == Some(Core) <==>
            Fine(o, Core) && o.core.running && o.localMcp.NotReady? && MayAct(h, o.core, Core, now))
      && (d.action.Start? && d.service == Some(Tunnel) <==>
            TunnelCounts(o) && !o.tunnel.running && MayAct(h, o.tunnel, Tunnel, now))
      && (d.action.Restart? && d.service == Some(Tunnel) <==>
            TunnelCounts(o) && o.tunnel.running && TunnelFails(o) && MayAct(h, o.tunnel, Tunnel, now))
      && !d.action.Stop? && (d.action.Start? || d.action.Restart? ==> d.service.Some?)
  {
    BoundedActionIs(h, o.core, Core, Start, ProcessStopped, now);
    BoundedActionIs(h, o.core, Core, Restart, NotServing, now);
    BoundedActionIs(h, o.tunnel, Tunnel, Start, ProcessStopped, now);
    BoundedActionIs(h, o.tunnel, Tunnel, Restart, NotServing, now);
  }

  /** When a person is asked, and for what; when nothing is done, and why. */
  lemma AnswersAre(o: Observation, h: seq<RestartEvent>, now: int)
    ensures var d := DecideAutomatic(o, h, now, DEFAULT);
      && (d.reason.BadConfig? && d.service == Some(Core) <==> o.coreConfig.ConfigInvalid?)
      && (d.reason.StaleState? && d.service == Some(Core) <==> !o.coreConfig.ConfigInvalid? && o.core.stale)
      && (d.reason.BadConfig? && d.service == Some(Tunnel) <==> CoreServes(o) && o.tunnelConfig.ConfigInvalid?)
      && (d.reason.StaleState? && d.service == Some(Tunnel) <==>
            CoreServes(o) && !o.tunnelConfig.ConfigInvalid? && o.tunnel.stale)
      && (d.reason.NoSecret? <==>
            CoreServes(o) && !o.tunnelConfig.ConfigInvalid? && !o.tunnel.stale && o.tunnelSecret.SecretMissing?)
      && (d.reason.AuthFailed? <==>
            CoreServes(o) && !o.tunnelConfig.ConfigInvalid? && !o.tunnel.stale && !o.tunnelSecret.SecretMissing?
            && o.tunnelAuth.NotReady?)
      && (d.reason in {BadConfig, StaleState, NoSecret, AuthFailed} ==> d.action.ManualIntervention?)
      && (d.reason.NotActivated? <==> CoreServes(o) && Fine(o, Tunnel) && !o.tunnel.installed)
      && (d.reason.ServicesReady? <==>
            TunnelCounts(o) && o.tunnel.running && o.tunnelConnected.Ready? && o.tunnelReady.Ready?)
      && (d.reason in {NotActivated, ServicesReady, ReadinessNotKnown} ==> d.action.NoAction?)
  {}

  /** An operator's wish is granted unless a person is needed first; stopping always is. */
  lemma OperatorIsHeard(o: Observation, h: seq<RestartEvent>, now: int, p: Policy, action: Action, service: Service)
    requires forall i :: 0 <= i < |h| ==> h[i].at <= now
    requires p.baseBackoff > 0 && p.maxBackoff >= p.baseBackoff && p.window > 0 && p.maxAttempts > 0 && p.cooldown > 0
    ensures var d := Decide(o, h, now, p, Operator(action, service));
      && d.Some? && d.value.service == Some(service)
      && (action.Stop? || Fine(o, service) <==> d.value.reason.OperatorIntent?)
      && d.value.action == if action.Stop? || Fine(o, service) then action else ManualIntervention
  {}

  /** Refused exactly for a policy out of range or a history from the future. */
  lemma RefusedExactly(o: Observation, h: seq<RestartEvent>, now: int, p: Policy, intent: Intent)
    ensures Decide(o, h, now, p, intent).None? <==>
      || p.baseBackoff <= 0 || p.maxBackoff < p.baseBackoff || p.window <= 0 || p.maxAttempts <= 0 || p.cooldown <= 0
      || exists i :: 0 <= i < |h| && h[i].at > now
  {}

  // -------------------------------------------------------------------- whole runs

  /** The restarts of the service of the i-th one in the ten minutes before it. */
  function Earlier(log: seq<RestartEvent>, i: nat): set<int>
    requires i < |log|
  {
    set j | 0 <= j < i && log[j].service == log[i].service && log[j].at >= log[i].at - 600_000
  }

  function Between(log: seq<RestartEvent>, service: Service, lo: int, hi: int): set<int> {
    set j | 0 <= j < |log| && log[j].service == service && lo <= log[j].at <= hi
  }

  lemma {:induction false} WithinCounts(log: seq<RestartEvent>, service: Service, lo: int, hi: int)
    ensures |Within(log, service, lo, hi)| == |Between(log, service, lo, hi)|
  {
    if log == [] {
      assert Between(log, service, lo, hi) == {};
    } else {
      WithinCounts(log[..|log| - 1], service, lo, hi);
      BetweenStep(log[..|log| - 1], log[|log| - 1], service, lo, hi);
      assert log == log[..|log| - 1] + [log[|log| - 1]];
    }
  }

  lemma BetweenStep(front: seq<RestartEvent>, e: RestartEvent, service: Service, lo: int, hi: int)
    ensures |Between(front + [e], service, lo, hi)|
         == |Between(front, service, lo, hi)| + if e.service == service && lo <= e.at <= hi then 1 else 0
  {
    var all, was := Between(front + [e], service, lo, hi), Between(front, service, lo, hi);
    assert |front| !in was;
    if e.service == service && lo <= e.at <= hi { assert all == was + {|front|}; } else { assert all == was; }
  }

  /** The i-th restart came after fewer than five others in its window, and 5, 10, 20 or
      40 seconds after each of them, whichever pause their number asks for. */
  predicate Paused(log: seq<RestartEvent>, i: nat)
    requires i < |log|
  {
    |Earlier(log, i)| < 5 && forall j :: j in Earlier(log, i) ==> log[i].at - log[j].at >= PAUSES[|Earlier(log, i)|]
  }

  lemma SpacedIsPaused(log: seq<RestartEvent>, i: nat)
    requires i < |log|
    ensures SpacedAt(log, i) <==> Paused(log, i)
  {
    DueIs(log[..i], log[i].service, log[i].at);
    assert Places(log[..i], log[i].service, log[i].at - 600_000) == Earlier(log, i);
  }

  /** Every steady run, in numbers: the pauses, at most five restarts of a service in any
      ten minutes, and none in the quarter of an hour after a storm. */
  lemma EveryRunInNumbers(from: int, ts: seq<Tick>)
    requires SteadyRun(IDLE, from, ts)
    ensures var x := Run(IDLE, ts);
      && (forall i :: 0 <= i < |x.log| ==> Paused(x.log, i))
      && (forall service, lo, hi :: hi - lo <= 600_000 ==> |Between(x.log, service, lo, hi)| <= 5)
      && (forall st, i :: st in x.storms && st.after <= i < |x.log| && x.log[i].service == st.service ==>
            x.log[i].at >= st.at + 900_000)
  {
    EveryRunIsBounded(from, ts);
    var x := Run(IDLE, ts);
    forall i | 0 <= i < |x.log| ensures Paused(x.log, i) {
      assert SpacedAt(x.log, i);
      SpacedIsPaused(x.log, i);
    }
    forall service, lo, hi | hi - lo <= 600_000 ensures |Between(x.log, service, lo, hi)| <= 5 {
      WithinCounts(x.log, service, lo, hi);
    }
    forall st, i | st in x.storms && st.after <= i < |x.log| && x.log[i].service == st.service
      ensures x.log[i].at >= st.at + 900_000
    {
      assert StormRespected(x.log, st);
    }
  }

  /** A steady run keeps the limits as of some time not after its last pass. */
  lemma {:induction false} RunKeepsBefore(x: Executor, from: int, ts: seq<Tick>, end: int) returns (now: int)
    requires Inv(x, from) && SteadyRun(x, from, ts) && from <= end
    requires forall i :: 0 <= i < |ts| ==> ts[i].now <= end
    ensures Inv(Run(x, ts), now) && now <= end
    decreases |ts|
  {
    if ts == [] {
      now := from;
    } else {
      var kept := OnceKeeps(x, from, ts[0]);
      SteadyEarlier(Once(x, ts[0]).0, kept, ts[0].now, ts[1..]);
      now := RunKeepsBefore(Once(x, ts[0]).0, kept, ts[1..], end);
    }
  }

  /** The stored cooldown of a service, or the one that was observed. */
  function Cooling(x: Executor, observed: Option<int>, service: Service): Option<int> {
    if service in CleanState(x.file).cooldowns then Some(CleanState(x.file).cooldowns[service]) else observed
  }

  predicate CoreIsDue(x: Executor, t: Tick) {
    var until := Cooling(x, t.observed.core.cooldownUntil, Core);
    && Fine(t.observed, Core) && (!t.observed.core.running || t.observed.localMcp.NotReady?)
    && (until.Some? ==> until.value <= t.now) && Due(x.log, Core, t.now)
  }

  predicate TunnelIsDue(x: Executor, t: Tick) {
    var until := Cooling(x, t.observed.tunnel.cooldownUntil, Tunnel);
    && TunnelCounts(t.observed) && (!t.observed.tunnel.running || TunnelFails(t.observed))
    && (until.Some? ==> until.value <= t.now) && Due(x.log, Tunnel, t.now)
  }

  /** After every steady run, judged by everything that ever happened: the next pass restarts
      the core, or the tunnel, exactly when it is due; a pass makes no other restart. */
  lemma NextPassRestarts(from: int, ts: seq<Tick>, t: Tick)
    requires SteadyRun(IDLE, from, ts) && from <= t.now && forall i :: 0 <= i < |ts| ==> ts[i].now <= t.now
    ensures var x := Run(IDLE, ts);
      Once(x, t).0.log == x.log
        + if !t.mutates then []
          else if CoreIsDue(x, t) then [RestartEvent(Core, t.now)]
          else if TunnelIsDue(x, t) then [RestartEvent(Tunnel, t.now)]
          else []
  {
    var x := Run(IDLE, ts);
    var before := RunKeepsBefore(IDLE, from, ts, t.now);
    PassRestarts(x, before, t);
  }

  lemma PassRestarts(x: Executor, before: int, t: Tick)
    requires Inv(x, before) && before <= t.now
    ensures Once(x, t).0.log == x.log
        + if !t.mutates then []
          else if CoreIsDue(x, t) then [RestartEvent(Core, t.now)]
          else if TunnelIsDue(x, t) then [RestartEvent(Tunnel, t.now)]
          else []
  {
    var o := Observed(t.observed, CleanState(x.file).cooldowns);
    PruningIsInvisible(x, before, t.now, o);
    PassMakes(x, t);
    MadeIs(o, x.log, t.now);
    DueAsObserved(x, t);
  }

  lemma MadeIs(o: Observation, h: seq<RestartEvent>, now: int)
    ensures var d := DecideAutomatic(o, h, now, DEFAULT);
      && (Acts(d) <==> CoreDue(o, h, now) || TunnelDue(o, h, now))
      && (CoreDue(o, h, now) ==> Made(d, now) == [RestartEvent(Core, now)])
      && (TunnelDue(o, h, now) ==> Made(d, now) == [RestartEvent(Tunnel, now)])
      && (!Acts(d) ==> Made(d, now) == [])
  {
    ActionsAre(o, h, now);
  }

  predicate CoreDue(o: Observation, h: seq<RestartEvent>, now: int) {
    Fine(o, Core) && (!o.core.running || o.localMcp.NotReady?) && MayAct(h, o.core, Core, now)
  }

  predicate TunnelDue(o: Observation, h: seq<RestartEvent>, now: int) {
    TunnelCounts(o) && (!o.tunnel.running || TunnelFails(o)) && MayAct(h, o.tunnel, Tunnel, now)
  }

  lemma DueAsObserved(x: Executor, t: Tick)
    ensures var o := Observed(t.observed, CleanState(x.file).cooldowns);
      (CoreIsDue(x, t) <==> CoreDue(o, x.log, t.now)) && (TunnelIsDue(x, t) <==> TunnelDue(o, x.log, t.now))
  {}

  lemma PassMakes(x: Executor, t: Tick)
    ensures var o := Observed(t.observed, CleanState(x.file).cooldowns);
      var d := Decide(o, Recent(x, t.now), t.now, DEFAULT, Automatic);
      d.Some? ==> Once(x, t).0.log == x.log + if Acts(d.value) && !t.mutates then [] else Made(d.value, t.now)
  {
    assert x.log + [] == x.log;
  }

  /** A storm that is found is stored: the service rests for a quarter of an hour. */
  lemma StormIsStored(x: Executor, before: int, t: Tick)
    requires Inv(x, before) && before <= t.now && t.writes
    requires Once(x, t).1.Some? && Once(x, t).1.value.reason.RestartStorm?
    ensures var d := Once(x, t).1.value; var x1 := Once(x, t).0;
      && d.service.Some? && x1.storms == x.storms + [Storm(d.service.value, t.now, |x.log|)] && x1.log == x.log
      && CleanState(x1.file).cooldowns == CleanState(x.file).cooldowns[d.service.value := t.now + 900_000]
  {
    RecentIsShort(x, before, t.now);
    PassIs(x, t);
    TakenStorm(x, t);
    StormRecorded(x, Taken(x, t), t);
  }

  lemma RecentIsShort(x: Executor, before: int, now: int)
    requires Inv(x, before) && before <= now
    ensures Valid(DEFAULT, Recent(x, now), now) && |Recent(x, now)| <= 10
  {
    RecentIs(x, before, now);
  }

  lemma TakenStorm(x: Executor, t: Tick)
    requires Taken(x, t).reason.RestartStorm?
    ensures var d := Taken(x, t); d.service.Some? && d.cooldownUntil == Some(t.now + 900_000) && !Acts(d)
  {
    StormIs(t.observed, Recent(x, t.now), t.now, CleanState(x.file).cooldowns);
  }

  lemma StormIs(o: Observation, h: seq<RestartEvent>, now: int, cooldowns: map<Service, int>)
    ensures var d := DecideAutomatic(Observed(o, cooldowns), h, now, DEFAULT);
      d.reason.RestartStorm? ==> d.service.Some? && d.cooldownUntil == Some(now + 900_000) && !Acts(d)
  {
    DecisionIsDisciplined(o, h, now, cooldowns);
  }

  /** A pass that says something answers with its decision and records it. */
  lemma PassIs(x: Executor, t: Tick)
    requires Valid(DEFAULT, Recent(x, t.now), t.now) && Once(x, t).1.Some?
    ensures Once(x, t) == (Record(x, Recent(x, t.now), CleanState(x.file).cooldowns, Taken(x, t), t), Some(Taken(x, t)))
  {
    DecideOnValid(Observed(t.observed, CleanState(x.file).cooldowns), Recent(x, t.now), t.now);
  }

  lemma StormRecorded(x: Executor, d: Decision, t: Tick)
    requires d.reason.RestartStorm? && d.service.Some? && d.cooldownUntil == Some(t.now + 900_000) && !Acts(d)
    requires t.writes && |Recent(x, t.now)| <= 10
    ensures var x1 := Record(x, Recent(x, t.now), CleanState(x.file).cooldowns, d, t);
      && x1.storms == x.storms + [Storm(d.service.value, t.now, |x.log|)] && x1.log == x.log
      && CleanState(x1.file).cooldowns == CleanState(x.file).cooldowns[d.service.value := t.now + 900_000]
  {
    RecordedState(x, Recent(x, t.now), CleanState(x.file).cooldowns, d, t);
    assert Made(d, t.now) == [] && x.log + [] == x.log;
  }

  // -------------------------------------------------------------- the state file

  /** A readable event is kept, and nothing else is. */
  lemma {:induction false} CleanHolds(raw: seq<RawEvent>, e: RestartEvent)
    ensures e in CleanEvents(raw) <==> RawEvent(Some(e.service), Some(e.at)) in raw
  {
    if raw != [] { CleanHolds(raw[1..], e); }
  }
}
