/** Policy evaluation and single-use confirmation tickets
    (packages/core/src/policy/policy-engine.ts,
    packages/core/src/capabilities/capability-registry.ts). */
module ConfirmationTickets {
  import opened Options
  import opened Text

  type Id = nat
  type Tier = t: nat | t <= 3

  datatype Action = Allow | Confirm | Deny

  datatype Profile = Open | Balanced | Strict

  /** An override gives an action for some tiers; None under a tier is an action that
      is not one of the three. */
  type Override = map<Tier, Option<Action>>

  function ProfileAction(profile: Profile, tier: Tier): Action {
    if tier == 3 then Deny
    else if tier == 0 then Allow
    else match profile
      case Open => Allow
      case Balanced => if tier == 1 then Allow else Confirm
      case Strict => Confirm
  }

  /** PolicyEngine.evaluate; None when it throws. */
  function Evaluate(tier: Tier, profile: Profile, override: Option<Override>): Option<Action> {
    var requested := if override.Some? && tier in override.value then Some(override.value[tier]) else None;
    if requested == Some(None) then None
    else if tier == 3 then Some(Deny)
    else if requested.Some? then requested.value
    else Some(ProfileAction(profile, tier))
  }

  /** Tier 3 is denied under every profile and override. */
  lemma TierThreeIsProtected(profile: Profile, override: Option<Override>)
    ensures Evaluate(3, profile, override) in {None, Some(Deny)}
  {}

  datatype Pending<D> = Pending(capability: Id, digest: D, expiresAt: int)

  /** The ticket table in insertion order. */
  type Table<D> = seq<Keyed<Pending<D>>>

  const MAX_TICKETS: nat := 256

  /** What happened: a ticket was issued, or a handler was called.  `reading` is the
      clock reading a confirmed call was checked against. */
  datatype Logged<I, D> =
    | Issued(capability: Id, digest: D, at: int)
    | Executed(capability: Id, input: I, tier: Tier, profile: Profile, override: Option<Override>, reading: Option<int>)

  /** `readings` and `draws` count the calls of the clock and of the ticket factory. */
  datatype Registry<I, D> = Registry(
    tiers: map<Id, Tier>,
    tickets: Table<D>,
    readings: nat,
    draws: nat,
    log: seq<Logged<I, D>>)

  /** The collaborators of a registry, all arbitrary. */
  datatype Setting<!I, !D> = Setting(clock: nat -> int, factory: nat -> Text, hash: I -> Option<D>, ttl: nat)

  predicate HasTicket<D>(table: Table<D>, ticket: Text) {
    exists i :: 0 <= i < |table| && table[i].key == ticket
  }

  function Find<D>(table: Table<D>, ticket: Text): Option<Pending<D>> {
    if table == [] then None
    else if table[0].key == ticket then Some(table[0].value)
    else Find(table[1..], ticket)
  }

  function Without<D>(table: Table<D>, ticket: Text): Table<D> {
    if table == [] then []
    else (if table[0].key == ticket then [] else [table[0]]) + Without(table[1..], ticket)
  }

  function Unexpired<D>(table: Table<D>, now: int): Table<D> {
    if table == [] then []
    else (if table[0].value.expiresAt <= now then [] else [table[0]]) + Unexpired(table[1..], now)
  }

  predicate UsableTicket(ticket: Text) { 32 <= |ticket| <= 128 }

  /** Up to `attempts` draws for a usable ticket that is not in the table, with the
      number of draws made. */
  function Draw<D>(factory: nat -> Text, table: Table<D>, draws: nat, attempts: nat): (Option<Text>, nat)
    decreases attempts
  {
    if attempts == 0 then (None, draws)
    else if UsableTicket(factory(draws)) && !HasTicket(table, factory(draws)) then (Some(factory(draws)), draws + 1)
    else Draw(factory, table, draws + 1, attempts - 1)
  }

  /** Sweep the expired tickets and make room for one more. */
  function Swept<D>(table: Table<D>, now: int): Table<D> {
    var live := Unexpired(table, now);
    if |live| >= MAX_TICKETS then live[1..] else live
  }

  /** #issueConfirmation; the ticket is None when it throws. */
  function Issue<I, D>(x: Setting<I, D>, r: Registry<I, D>, capability: Id, input: I): (Registry<I, D>, Option<Text>) {
    var now := x.clock(r.readings);
    var table := Swept(r.tickets, now);
    var (ticket, draws) := Draw(x.factory, table, r.draws, 4);
    var r1 := r.(tickets := table, readings := r.readings + 1, draws := draws);
    var digest := x.hash(input);
    if ticket.None? || digest.None? then (r1, None)
    else
      (r1.(tickets := table + [Keyed(ticket.value, Pending(capability, digest.value, now + x.ttl))],
           log := r.log + [Issued(capability, digest.value, now)]),
       ticket)
  }

  datatype Reply = Done | Confirmation(ticket: Option<Text>) | Denied | Refused

  /** `invoke`; `available` is what `availability` answers. */
  function Invoke<I, D>(x: Setting<I, D>, r: Registry<I, D>, capability: Id, input: I, profile: Profile,
                        override: Option<Override>, available: bool): (Registry<I, D>, Reply) {
    if capability !in r.tiers then (r, Refused)
    else
      var tier := r.tiers[capability];
      match Evaluate(tier, profile, override)
      case None => (r, Refused)
      case Some(Deny) => (r, Denied)
      case Some(Confirm) =>
        if tier != 2 then (r, Confirmation(None))
        else
          var (r1, ticket) := Issue(x, r, capability, input);
          (r1, if ticket.Some? then Confirmation(ticket) else Refused)
      case Some(Allow) =>
        if available
        then (r.(log := r.log + [Executed(capability, input, tier, profile, override, None)]), Done)
        else (r, Refused)
  }

  /** `invokeConfirmed` */
  function InvokeConfirmed<I, D(==)>(x: Setting<I, D>, r: Registry<I, D>, ticket: Text, capability: Id, input: I,
                                     profile: Profile, override: Option<Override>, available: bool)
    : (Registry<I, D>, Reply) {
    var pending := Find(r.tickets, ticket);
    if !profile.Balanced? || override.Some? || !UsableTicket(ticket) || pending.None? then (r, Refused)
    else
      var now := x.clock(r.readings);
      var r1 := r.(tickets := Without(r.tickets, ticket), readings := r.readings + 1);
      if pending.value.expiresAt <= now || pending.value.capability != capability ||
         x.hash(input) != Some(pending.value.digest) ||
         capability !in r.tiers || r.tiers[capability] != 2 || !available
      then (r1, Refused)
      else (r1.(log := r.log + [Executed(capability, input, 2, profile, None, Some(now))]), Done)
  }

  /** `register`; a second registration of an id throws. */
  function Register<I, D>(r: Registry<I, D>, capability: Id, tier: Tier): Registry<I, D> {
    if capability in r.tiers then r else r.(tiers := r.tiers[capability := tier])
  }

  datatype Call<I> =
    | RegisterCall(id: Id, tier: Tier)
    | InvokeCall(id: Id, input: I, profile: Profile, override: Option<Override>, available: bool)
    | ConfirmedCall(ticket: Text, id: Id, input: I, profile: Profile, override: Option<Override>, available: bool)

  function Step<I, D(==)>(x: Setting<I, D>, r: Registry<I, D>, c: Call<I>): Registry<I, D> {
    match c
    case RegisterCall(id, tier) => Register(r, id, tier)
    case InvokeCall(id, input, profile, override, available) => Invoke(x, r, id, input, profile, override, available).0
    case ConfirmedCall(ticket, id, input, profile, override, available) =>
      InvokeConfirmed(x, r, ticket, id, input, profile, override, available).0
  }

  function Run<I, D(==)>(x: Setting<I, D>, r: Registry<I, D>, cs: seq<Call<I>>): Registry<I, D>
    decreases |cs|
  {
    if cs == [] then r else Run(x, Step(x, r, cs[0]), cs[1..])
  }

  function Empty<I, D>(): Registry<I, D> { Registry(map[], [], 0, 0, []) }

  // -------------------------------------------------------------- table facts

  predicate TableOk<D>(table: Table<D>) { DistinctKeys(table) && |table| <= MAX_TICKETS }

  lemma {:induction false} FindIs<D>(table: Table<D>, ticket: Text)
    ensures Find(table, ticket).Some? <==> HasTicket(table, ticket)
    ensures Find(table, ticket).Some? ==> Keyed(ticket, Find(table, ticket).value) in table
  {
    if table != [] {
      FindIs(table[1..], ticket);
      assert table == [table[0]] + table[1..];
      if HasTicket(table[1..], ticket) {
        var i :| 0 <= i < |table[1..]| && table[1..][i].key == ticket;
        assert table[i + 1].key == ticket;
      }
      if HasTicket(table, ticket) && table[0].key != ticket {
        var i :| 0 <= i < |table| && table[i].key == ticket;
        assert table[1..][i - 1].key == ticket;
      }
    }
  }

  /** A part of the table, in the same order. */
  lemma {:induction false} WithoutIs<D>(table: Table<D>, ticket: Text)
    requires DistinctKeys(table)
    ensures DistinctKeys(Without(table, ticket)) && |Without(table, ticket)| <= |table|
    ensures forall e :: e in Without(table, ticket) ==> e in table && e.key != ticket
    ensures HasTicket(table, ticket) ==> |Without(table, ticket)| < |table|
  {
    if table != [] {
      assert table == [table[0]] + table[1..];
      WithoutIs(table[1..], ticket);
      var rest := Without(table[1..], ticket);
      forall i | 0 <= i < |rest| ensures rest[i].key != table[0].key {
        assert rest[i] in table[1..];
      }
      if HasTicket(table, ticket) && table[0].key != ticket {
        var i :| 0 <= i < |table| && table[i].key == ticket;
        assert table[1..][i - 1].key == ticket;
      }
    }
  }

  lemma {:induction false} UnexpiredIs<D>(table: Table<D>, now: int)
    requires DistinctKeys(table)
    ensures DistinctKeys(Unexpired(table, now)) && |Unexpired(table, now)| <= |table|
    ensures forall e :: e in Unexpired(table, now) ==> e in table && e.value.expiresAt > now
  {
    if table != [] {
      assert table == [table[0]] + table[1..];
      UnexpiredIs(table[1..], now);
      var rest := Unexpired(table[1..], now);
      forall i | 0 <= i < |rest| ensures rest[i].key != table[0].key {
        assert rest[i] in table[1..];
      }
    }
  }

  lemma DrawIs<D>(factory: nat -> Text, table: Table<D>, draws: nat, attempts: nat)
    ensures var (ticket, _) := Draw(factory, table, draws, attempts);
      ticket.Some? ==> UsableTicket(ticket.value) && !HasTicket(table, ticket.value)
    decreases attempts
  {
    if attempts > 0 { DrawIs(factory, table, draws + 1, attempts - 1); }
  }

  // ------------------------------------------------------------------- the run

  /** A Tier 2 handler call under the balanced profile with no override. */
  predicate Guarded<I, D>(e: Logged<I, D>) {
    e.Executed? && e.tier == 2 && e.profile.Balanced? && e.override.None?
  }

  /** `e` was allowed by the issuance `permit`. */
  predicate AllowedBy<I, D(==)>(x: Setting<I, D>, e: Logged<I, D>, permit: Logged<I, D>) {
    e.Executed? && permit.Issued? && e.capability == permit.capability && x.hash(e.input) == Some(permit.digest) &&
    e.reading.Some? && e.reading.value < permit.at + x.ttl
  }

  /** `used` maps the guarded calls one-to-one into earlier issuances. */
  predicate Matches<I, D(==)>(x: Setting<I, D>, log: seq<Logged<I, D>>, used: map<nat, nat>) {
    && (forall i :: i in used ==> i < |log|)
    && (forall i :: 0 <= i < |log| && Guarded(log[i]) ==> i in used)
    && (forall i :: i in used ==> used[i] < i && AllowedBy(x, log[i], log[used[i]]))
    && (forall i, j :: i in used && j in used && i != j ==> used[i] != used[j])
  }

  predicate IssuedAs<I, D(==)>(x: Setting<I, D>, r: Registry<I, D>, e: Keyed<Pending<D>>, live: map<Text, nat>) {
    e.key in live && live[e.key] < |r.log| &&
    r.log[live[e.key]] == Issued(e.value.capability, e.value.digest, e.value.expiresAt - x.ttl)
  }

  /** `live` says which issuance each ticket in the table came from; none is used up. */
  predicate Tracks<I, D(==)>(x: Setting<I, D>, r: Registry<I, D>, used: map<nat, nat>, live: map<Text, nat>) {
    && (forall e :: e in r.tickets ==> IssuedAs(x, r, e, live))
    && (forall t :: t in live ==> live[t] < |r.log|)
    && (forall t, i :: t in live && i in used ==> used[i] != live[t])
    && (forall t, u :: t in live && u in live && t != u ==> live[t] != live[u])
  }

  predicate RunOk<I, D(==)>(x: Setting<I, D>, r: Registry<I, D>, used: map<nat, nat>, live: map<Text, nat>) {
    TableOk(r.tickets) && Matches(x, r.log, used) && Tracks(x, r, used, live)
  }

  lemma SweptIs<D>(table: Table<D>, now: int)
    requires TableOk(table)
    ensures DistinctKeys(Swept(table, now)) && |Swept(table, now)| < MAX_TICKETS
    ensures forall e :: e in Swept(table, now) ==> e in table
  {
    UnexpiredIs(table, now);
    assert forall e :: e in Swept(table, now) ==> e in Unexpired(table, now);
  }

  lemma AppendedOk<D>(table: Table<D>, e: Keyed<Pending<D>>)
    requires DistinctKeys(table) && |table| < MAX_TICKETS && !HasTicket(table, e.key)
    ensures TableOk(table + [e])
    ensures forall f :: f in table + [e] ==> f in table || f == e
  {}

  /** Adding an issuance to the log leaves the accounts of the old entries alone. */
  lemma LogIssued<I, D>(x: Setting<I, D>, log: seq<Logged<I, D>>, e: Logged<I, D>, used: map<nat, nat>)
    requires Matches(x, log, used) && e.Issued?
    ensures Matches(x, log + [e], used)
  {}

  lemma IssueKeeps<I, D>(x: Setting<I, D>, r: Registry<I, D>, capability: Id, input: I, used: map<nat, nat>,
                         live: map<Text, nat>) returns (live': map<Text, nat>)
    requires RunOk(x, r, used, live)
    ensures RunOk(x, Issue(x, r, capability, input).0, used, live')
  {
    var now := x.clock(r.readings);
    var table := Swept(r.tickets, now);
    SweptIs(r.tickets, now);
    DrawIs(x.factory, table, r.draws, 4);
    var (r1, ticket) := Issue(x, r, capability, input);
    if ticket.Some? {
      live' := live[ticket.value := |r.log|];
      AppendedOk(table, r1.tickets[|table|]);
      LogIssued(x, r.log, r1.log[|r.log|], used);
      KeptTickets(x, r, r1, table, used, live, live', ticket.value);
    } else {
      live' := live;
    }
  }

  lemma KeptTickets<I, D>(x: Setting<I, D>, r: Registry<I, D>, r1: Registry<I, D>, table: Table<D>, used: map<nat, nat>,
                          live: map<Text, nat>, live': map<Text, nat>, ticket: Text)
    requires Tracks(x, r, used, live) && (forall i :: i in used ==> used[i] < |r.log|)
    requires !HasTicket(table, ticket) && (forall e :: e in table ==> e in r.tickets)
    requires |r1.log| == |r.log| + 1 && r1.log[..|r.log|] == r.log && live' == live[ticket := |r.log|]
    requires forall e :: e in r1.tickets && e !in table ==> e.key == ticket && IssuedAs(x, r1, e, live')
    ensures Tracks(x, r1, used, live')
  {
    forall e | e in r1.tickets ensures IssuedAs(x, r1, e, live') {
      if e in table {
        assert e.key != ticket && IssuedAs(x, r, e, live);
        assert r1.log[live[e.key]] == r.log[live[e.key]];
      }
    }
  }

  /** A handler call that uses up an issuance not used before. */
  lemma LogExecuted<I, D>(x: Setting<I, D>, log: seq<Logged<I, D>>, e: Logged<I, D>, used: map<nat, nat>, permit: nat)
    requires Matches(x, log, used) && permit < |log| && AllowedBy(x, e, log[permit])
    requires forall i :: i in used ==> used[i] != permit
    ensures Matches(x, log + [e], used[|log| := permit])
  {}

  lemma SpentTicket<I, D>(x: Setting<I, D>, r: Registry<I, D>, r1: Registry<I, D>, used: map<nat, nat>,
                          live: map<Text, nat>,
                          ticket: Text, at: nat)
    requires Tracks(x, r, used, live) && ticket in live
    requires forall e :: e in r1.tickets ==> e in r.tickets && e.key != ticket
    requires |r.log| <= |r1.log| && r1.log[..|r.log|] == r.log
    ensures Tracks(x, r1, used[at := live[ticket]], live - {ticket})
  {
    var live' := live - {ticket};
    forall e | e in r1.tickets ensures IssuedAs(x, r1, e, live') {
      assert IssuedAs(x, r, e, live);
      assert r1.log[live[e.key]] == r.log[live[e.key]];
    }
  }

  lemma ConfirmedKeeps<I, D>(x: Setting<I, D>, r: Registry<I, D>, ticket: Text, capability: Id, input: I,
                             profile: Profile,
                             override: Option<Override>, available: bool, used: map<nat, nat>, live: map<Text, nat>)
    returns (used': map<nat, nat>, live': map<Text, nat>)
    requires RunOk(x, r, used, live)
    ensures RunOk(x, InvokeConfirmed(x, r, ticket, capability, input, profile, override, available).0, used', live')
  {
    FindIs(r.tickets, ticket);
    WithoutIs(r.tickets, ticket);
    var r1 := InvokeConfirmed(x, r, ticket, capability, input, profile, override, available).0;
    if |r1.log| > |r.log| {
      var pending := Find(r.tickets, ticket).value;
      assert IssuedAs(x, r, Keyed(ticket, pending), live);
      used', live' := used[|r.log| := live[ticket]], live - {ticket};
      LogExecuted(x, r.log, r1.log[|r.log|], used, live[ticket]);
      SpentTicket(x, r, r1, used, live, ticket, |r.log|);
    } else {
      used', live' := used, live;
      assert r1.log == r.log;
      forall e | e in r1.tickets ensures IssuedAs(x, r1, e, live) { assert IssuedAs(x, r, e, live); }
    }
  }

  lemma StepKeeps<I, D>(x: Setting<I, D>, r: Registry<I, D>, c: Call<I>, used: map<nat, nat>, live: map<Text, nat>)
    returns (used': map<nat, nat>, live': map<Text, nat>)
    requires RunOk(x, r, used, live)
    ensures RunOk(x, Step(x, r, c), used', live')
  {
    used', live' := used, live;
    match c {
      case RegisterCall(id, tier) =>
      case InvokeCall(id, input, profile, override, available) =>
        if id in r.tiers && Evaluate(r.tiers[id], profile, override) == Some(Confirm) && r.tiers[id] == 2 {
          live' := IssueKeeps(x, r, id, input, used, live);
        }
      case ConfirmedCall(ticket, id, input, profile, override, available) =>
        used', live' := ConfirmedKeeps(x, r, ticket, id, input, profile, override, available, used, live);
    }
  }

  lemma {:induction false} RunKeeps<I, D>(x: Setting<I, D>, r: Registry<I, D>, cs: seq<Call<I>>, used: map<nat, nat>,
                                              live: map<Text, nat>)
    returns (used': map<nat, nat>, live': map<Text, nat>)
    requires RunOk(x, r, used, live)
    ensures RunOk(x, Run(x, r, cs), used', live')
    decreases |cs|
  {
    if cs == [] {
      used', live' := used, live;
    } else {
      var u, l := StepKeeps(x, r, cs[0], used, live);
      used', live' := RunKeeps(x, Step(x, r, cs[0]), cs[1..], u, l);
    }
  }

  /** In every run, for any clock, factory and hash, the Tier 2 calls made under the
      balanced profile map one-to-one into earlier issuances of the same capability and
      input hash, each checked before the issuance's expiry; and at most 256 tickets live. */
  lemma EveryConfirmedCallHadItsTicket<I, D>(x: Setting<I, D>, cs: seq<Call<I>>)
    ensures var r := Run(x, Empty<I, D>(), cs);
      |r.tickets| <= 256 && exists used :: Matches(x, r.log, used)
  {
    var used, live := RunKeeps(x, Empty<I, D>(), cs, map[], map[]);
    assert Matches(x, Run(x, Empty<I, D>(), cs).log, used);
  }

  /** A presented ticket is spent, whatever else was wrong with the call: presenting it
      again at once reaches no handler. */
  lemma PresentedTicketIsSpent<I, D>(x: Setting<I, D>, r: Registry<I, D>, ticket: Text, c1: Id, i1: I, a1: bool,
                                         c2: Id, i2: I, p2: Profile, o2: Option<Override>, a2: bool)
    requires DistinctKeys(r.tickets) && UsableTicket(ticket)
    ensures var r1 := InvokeConfirmed(x, r, ticket, c1, i1, Balanced, None, a1).0;
      !HasTicket(r1.tickets, ticket) && InvokeConfirmed(x, r1, ticket, c2, i2, p2, o2, a2) == (r1, Refused)
  {
    FindIs(r.tickets, ticket);
    WithoutIs(r.tickets, ticket);
    var r1 := InvokeConfirmed(x, r, ticket, c1, i1, Balanced, None, a1).0;
    assert forall i :: 0 <= i < |r1.tickets| ==> r1.tickets[i] in r1.tickets;
    if !HasTicket(r.tickets, ticket) { assert r1 == r; }
    FindIs(r1.tickets, ticket);
  }

  /** What issuing promises the caller: presented in time with the same capability and
      an input of the same hash, the ticket reaches the handler. */
  lemma IssuedTicketWorks<I, D>(x: Setting<I, D>, r: Registry<I, D>, capability: Id, input: I, again: I)
    requires TableOk(r.tickets) && capability in r.tiers && r.tiers[capability] == 2
    requires Issue(x, r, capability, input).1.Some?
    requires x.hash(again) == x.hash(input) && x.clock(r.readings + 1) < x.clock(r.readings) + x.ttl
    ensures var (r1, ticket) := Issue(x, r, capability, input);
      InvokeConfirmed(x, r1, ticket.value, capability, again, Balanced, None, true).1 == Done
  {
    var now := x.clock(r.readings);
    UnexpiredIs(r.tickets, now);
    var table := Swept(r.tickets, now);
    DrawIs(x.factory, table, r.draws, 4);
    var (r1, ticket) := Issue(x, r, capability, input);
    FindLast(table, r1.tickets[|table|]);
  }

  lemma {:induction false} FindLast<D>(table: Table<D>, last: Keyed<Pending<D>>)
    requires !HasTicket(table, last.key)
    ensures Find(table + [last], last.key) == Some(last.value)
  {
    if table != [] {
      assert table[0].key != last.key;
      assert (table + [last])[1..] == table[1..] + [last];
      forall i | 0 <= i < |table[1..]| ensures table[1..][i].key != last.key { assert table[i + 1].key != last.key; }
      FindLast(table[1..], last);
    } else {
      assert table + [last] == [last];
    }
  }
}
