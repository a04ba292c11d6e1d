/** The recovery decision (packages/service/src/recovery.ts) and the executor that
    feeds it a persisted restart history (packages/service/src/recovery-executor.ts).
    Times are milliseconds. */
module RecoveryPolicy {
  import opened Options

  datatype Service = Core | Tunnel

  datatype RestartEvent = RestartEvent(service: Service, at: int)

  datatype Policy = Policy(baseBackoff: int, maxBackoff: int, window: int, maxAttempts: int, cooldown: int)

  const DEFAULT := Policy(5_000, 300_000, 600_000, 5, 900_000)

  datatype Readiness = Ready | NotReady | ReadinessUnknown
  datatype Config = ConfigValid | ConfigInvalid | ConfigUnknown
  datatype Secret = SecretAvailable | SecretMissing | SecretUnknown

  /** `stale` says that a stale pid or lock was observed. */
  datatype ServiceStatus = ServiceStatus(running: bool, installed: bool, stale: bool, cooldownUntil: Option<int>)

  datatype Observation = Observation(
    core: ServiceStatus,
    localMcp: Readiness,
    tunnel: ServiceStatus,
    tunnelConnected: Readiness,
    tunnelReady: Readiness,
    tunnelAuth: Readiness,
    coreConfig: Config,
    tunnelConfig: Config,
    tunnelSecret: Secret)

  datatype Action = NoAction | Start | Restart | Stop | WaitBackoff | ManualIntervention

  datatype Intent = Automatic | Operator(action: Action, service: Service)

  datatype Reason =
    | CooldownActive | RestartStorm | BackoffActive
    | BadConfig | StaleState | NoSecret | AuthFailed | OperatorIntent
    | ProcessStopped | NotServing | ReadinessNotKnown | NotActivated | ServicesReady

  datatype Decision = Decision(
    action: Action,
    service: Option<Service>,
    reason: Reason,
    delay: Option<int>,
    cooldownUntil: Option<int>)

  function Plain(action: Action, reason: Reason, service: Service): Decision {
    Decision(action, Some(service), reason, None, None)
  }

  predicate ValidPolicy(p: Policy) {
    p.baseBackoff > 0 && p.maxBackoff >= p.baseBackoff && p.window > 0 && p.maxAttempts > 0 && p.cooldown > 0
  }

  /** `validate` */
  predicate Valid(p: Policy, history: seq<RestartEvent>, now: int) {
    ValidPolicy(p) && forall i :: 0 <= i < |history| ==> history[i].at <= now
  }

  function Pow2(n: nat): nat {
    if n == 0 then 1 else 2 * Pow2(n - 1)
  }

  function Min(a: int, b: int): int { if a < b then a else b }

  function Max(a: int, b: int): int { if a < b then b else a }

  /** The events of one service from time `from` on. */
  function Of(history: seq<RestartEvent>, service: Service, from: int): seq<RestartEvent> {
    if history == [] then []
    else
      var last := history[|history| - 1];
      Of(history[..|history| - 1], service, from) + if last.service == service && last.at >= from then [last] else []
  }

  /** The time of the event that sorting by time puts last. */
  function Latest(history: seq<RestartEvent>): int
    requires history != []
  {
    var last := history[|history| - 1].at;
    if |history| == 1 then last else Max(Latest(history[..|history| - 1]), last)
  }

  /** The pause required after the last of `n` restarts in the window. */
  function Backoff(p: Policy, n: nat): int {
    Min(p.baseBackoff * Pow2(if n == 0 then 0 else n - 1), p.maxBackoff)
  }

  /** boundedAction */
  function BoundedAction(p: Policy, history: seq<RestartEvent>, status: ServiceStatus, service: Service, action: Action,
                         reason: Reason, now: int): Decision {
    if status.cooldownUntil.Some? && status.cooldownUntil.value > now then
      Decision(WaitBackoff, Some(service), CooldownActive, Some(status.cooldownUntil.value - now), status.cooldownUntil)
    else
      var recent := Of(history, service, now - p.window);
      if |recent| >= p.maxAttempts then
        Decision(ManualIntervention, Some(service), RestartStorm, None, Some(now + p.cooldown))
      else if recent != [] && Latest(recent) + Backoff(p, |recent|) - now > 0 then
        Decision(WaitBackoff, Some(service), BackoffActive, Some(Latest(recent) + Backoff(p, |recent|) - now), None)
      else
        Plain(action, reason, service)
  }

  /** manualPrecondition */
  function ManualPrecondition(o: Observation, service: Service): Option<Decision> {
    var status := if service.Core? then o.core else o.tunnel;
    var config := if service.Core? then o.coreConfig else o.tunnelConfig;
    if config.ConfigInvalid? then Some(Plain(ManualIntervention, BadConfig, service))
    else if status.stale then Some(Plain(ManualIntervention, StaleState, service))
    else if service.Tunnel? && o.tunnelSecret.SecretMissing? then Some(Plain(ManualIntervention, NoSecret, service))
    else if service.Tunnel? && o.tunnelAuth.NotReady? then Some(Plain(ManualIntervention, AuthFailed, service))
    else None
  }

  /** decideRecovery; None when the input is refused. */
  function Decide(o: Observation, history: seq<RestartEvent>, now: int, p: Policy, intent: Intent): Option<Decision> {
    if !Valid(p, history, now) then None
    else if intent.Operator? then
      var precondition := ManualPrecondition(o, intent.service);
      if precondition.Some? && intent.action != Stop then precondition
      else Some(Plain(intent.action, OperatorIntent, intent.service))
    else Some(DecideAutomatic(o, history, now, p))
  }

  function DecideAutomatic(o: Observation, history: seq<RestartEvent>, now: int, p: Policy): Decision {
    var core := ManualPrecondition(o, Core);
    if core.Some? then core.value
    else if !o.core.running then BoundedAction(p, history, o.core, Core, Start, ProcessStopped, now)
    else if o.localMcp.NotReady? then BoundedAction(p, history, o.core, Core, Restart, NotServing, now)
    else if o.localMcp.ReadinessUnknown? then Plain(NoAction, ReadinessNotKnown, Core)
    else
      var tunnel := ManualPrecondition(o, Tunnel);
      if tunnel.Some? then tunnel.value
      else if !o.tunnel.installed then Plain(NoAction, NotActivated, Tunnel)
      else if !o.tunnel.running then BoundedAction(p, history, o.tunnel, Tunnel, Start, ProcessStopped, now)
      else if o.tunnelConnected.NotReady? || o.tunnelReady.NotReady?
        then BoundedAction(p, history, o.tunnel, Tunnel, Restart, NotServing, now)
      else if o.tunnelConnected.Ready? && o.tunnelReady.Ready? then Decision(NoAction, None, ServicesReady, None, None)
      else Plain(NoAction, ReadinessNotKnown, Tunnel)
  }

  // ---------------------------------------------------------------- the executor

  /** A restart event as the state file holds it: a service that is not known, or a
      time that does not parse, reads as None. */
  datatype RawEvent = RawEvent(service: Option<Service>, at: Option<int>)

  datatype RawState = RawState(history: seq<RawEvent>, cooldowns: map<Service, Option<int>>)

  datatype RecoveryState = RecoveryState(history: seq<RestartEvent>, cooldowns: map<Service, int>)

  const KEPT := 64

  function LastOf<T>(s: seq<T>, n: nat): seq<T> {
    if |s| <= n then s else s[|s| - n..]
  }

  function CleanEvents(raw: seq<RawEvent>): seq<RestartEvent> {
    if raw == [] then []
    else
      (if raw[0].service.Some? && raw[0].at.Some? then [RestartEvent(raw[0].service.value, raw[0].at.value)] else [])
      + CleanEvents(raw[1..])
  }

  /** cleanState and readState: a missing or unreadable file reads as the empty state. */
  function CleanState(file: Option<RawState>): RecoveryState {
    if file.None? then RecoveryState([], map[])
    else
      var cooldowns := file.value.cooldowns;
      RecoveryState(LastOf(CleanEvents(file.value.history), KEPT),
                    map s | s in cooldowns && cooldowns[s].Some? :: cooldowns[s].value)
  }

  function RawEvents(history: seq<RestartEvent>): seq<RawEvent> {
    seq(|history|, i requires 0 <= i < |history| => RawEvent(Some(history[i].service), Some(history[i].at)))
  }

  function Written(s: RecoveryState): RawState {
    RawState(RawEvents(s.history), map x | x in s.cooldowns :: Some(s.cooldowns[x]))
  }

  /** A stored cooldown replaces the collected one. */
  function WithCooldown(status: ServiceStatus, cooldowns: map<Service, int>, service: Service): ServiceStatus {
    if service in cooldowns then status.(cooldownUntil := Some(cooldowns[service])) else status
  }

  function Observed(o: Observation, cooldowns: map<Service, int>): Observation {
    o.(core := WithCooldown(o.core, cooldowns, Core), tunnel := WithCooldown(o.tunnel, cooldowns, Tunnel))
  }

  /** The events from time `from` on. */
  function Since(history: seq<RestartEvent>, from: int): seq<RestartEvent> {
    if history == [] then []
    else
      var last := history[|history| - 1];
      Since(history[..|history| - 1], from) + if last.at >= from then [last] else []
  }

  /** A restart storm found for a service when `after` restarts had been made. */
  datatype Storm = Storm(service: Service, at: int, after: nat)

  /** The state file, and what happened so far: the restarts made and the storms found. */
  datatype Executor = Executor(file: Option<RawState>, log: seq<RestartEvent>, storms: seq<Storm>)

  /** One run: the clock, what is collected, and whether mutate and the state write succeed. */
  datatype Tick = Tick(now: int, observed: Observation, mutates: bool, writes: bool)

  predicate Acts(d: Decision) {
    d.service.Some? && (d.action.Start? || d.action.Restart? || d.action.Stop?)
  }

  /** The restart a decision leads to, as a history of at most one event. */
  function Made(d: Decision, now: int): seq<RestartEvent> {
    if Acts(d) && !d.action.Stop? then [RestartEvent(d.service.value, now)] else []
  }

  function Cooldowns(d: Decision, cooldowns: map<Service, int>): map<Service, int> {
    if d.service.Some? && d.cooldownUntil.Some? then cooldowns[d.service.value := d.cooldownUntil.value] else cooldowns
  }

  function Storms(d: Decision, now: int, after: nat): seq<Storm> {
    if d.reason.RestartStorm? && d.service.Some? then [Storm(d.service.value, now, after)] else []
  }

  /** What is recorded after acting on a decision. */
  function Record(x: Executor, recent: seq<RestartEvent>, cooldowns: map<Service, int>, d: Decision,
                  t: Tick): Executor {
    Executor(
      if t.writes then Some(Written(RecoveryState(LastOf(recent + Made(d, t.now), KEPT), Cooldowns(d, cooldowns))))
      else x.file,
      x.log + Made(d, t.now),
      x.storms + Storms(d, t.now, |x.log|))
  }

  /** executeRecoveryOnce; the decision is None when it throws. */
  function Once(x: Executor, t: Tick): (Executor, Option<Decision>) {
    var previous := CleanState(x.file);
    var recent := Since(previous.history, t.now - DEFAULT.window);
    var decided := Decide(Observed(t.observed, previous.cooldowns), recent, t.now, DEFAULT, Automatic);
    if decided.None? || (Acts(decided.value) && !t.mutates) then (x, None)
    else (Record(x, recent, previous.cooldowns, decided.value, t), if t.writes then decided else None)
  }

  function Run(x: Executor, ts: seq<Tick>): Executor
    decreases |ts|
  {
    if ts == [] then x else Run(Once(x, ts[0]).0, ts[1..])
  }

  const IDLE := Executor(None, [], [])
}
