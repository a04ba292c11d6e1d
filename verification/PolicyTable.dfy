/** Which calls reach a handler, tier by tier and profile by profile, and what the others
    are answered (packages/core/src/policy/policy-engine.ts,
    packages/core/src/capabilities/capability-registry.ts). */
module PolicyTable {
  import opened Options
  import opened Text
  import opened ConfirmationTickets

  /** An override that speaks of the tier decides; otherwise Tier 0 is free, Tiers 1 and 2
      are free under the open profile, Tier 1 under the balanced one, and Tier 2 under the
      balanced one with a ticket.  Tier 3 is never called. */
  predicate Permitted<I, D>(e: Logged<I, D>)
    requires e.Executed?
  {
    && e.tier < 3
    && if e.override.Some? && e.tier in e.override.value then e.override.value[e.tier] == Some(Allow)
       else
         || e.tier == 0
         || e.profile == Open
         || (e.tier == 1 && e.profile == Balanced)
         || (e.tier == 2 && e.profile == Balanced && e.override == None && e.reading.Some?)
  }

  /** Every handler call was permitted, for the tier its capability is registered with; a
      call with a ticket was one of Tier 2 under the balanced profile without override. */
  predicate AllPermitted<I, D>(r: Registry<I, D>) {
    forall i :: 0 <= i < |r.log| && r.log[i].Executed? ==>
      var e := r.log[i];
      && Permitted(e) && e.capability in r.tiers && r.tiers[e.capability] == e.tier
      && (e.reading.Some? ==> e.tier == 2 && e.profile == Balanced && e.override == None)
  }

  lemma StepPermits<I, D>(x: Setting<I, D>, r: Registry<I, D>, c: Call<I>)
    requires AllPermitted(r)
    ensures AllPermitted(Step(x, r, c))
  {
    match c {
      case RegisterCall(id, tier) =>
      case InvokeCall(id, input, profile, override, available) =>
      case ConfirmedCall(ticket, id, input, profile, override, available) =>
    }
  }

  lemma {:induction false} RunPermits<I, D>(x: Setting<I, D>, r: Registry<I, D>, cs: seq<Call<I>>)
    requires AllPermitted(r)
    ensures AllPermitted(Run(x, r, cs))
    decreases |cs|
  {
    if cs != [] {
      StepPermits(x, r, cs[0]);
      RunPermits(x, Step(x, r, cs[0]), cs[1..]);
    }
  }

  /** In every run, whatever is registered, called, overridden and presented. */
  lemma EveryCallIsPermitted<I, D>(x: Setting<I, D>, cs: seq<Call<I>>)
    ensures AllPermitted(Run(x, Empty<I, D>(), cs))
  {
    RunPermits(x, Empty<I, D>(), cs);
  }

  // ------------------------------------------------------------------ one call

  /** No handler was called: the log is as it was, or a ticket was issued. */
  ghost predicate NoHandler<I, D>(r: Registry<I, D>, r1: Registry<I, D>) {
    r1.log == r.log || (|r1.log| == |r.log| + 1 && r1.log[..|r.log|] == r.log && r1.log[|r.log|].Issued?)
  }

  /** The handler was called once, with this input, and nothing else changed. */
  ghost predicate Called<I, D>(r: Registry<I, D>, r1: Registry<I, D>, capability: Id, input: I) {
    && r1 == r.(log := r1.log) && |r1.log| == |r.log| + 1 && r1.log[..|r.log|] == r.log
    && r1.log[|r.log|].Executed? && r1.log[|r.log|].capability == capability && r1.log[|r.log|].input == input
  }

  /** A ticket is offered, or none could be made. */
  predicate Unconfirmed(reply: Reply) { (reply.Confirmation? && reply.ticket.Some?) || reply == Refused }

  /** What an allowed call is answered. */
  ghost predicate Answered<I, D>(r: Registry<I, D>, r1: Registry<I, D>, reply: Reply, capability: Id, input: I,
                                 available: bool)
  {
    if available then reply == Done && Called(r, r1, capability, input) else reply == Refused && r1 == r
  }

  /** A call without override. */
  lemma InvokeByProfile<I, D>(x: Setting<I, D>, r: Registry<I, D>, capability: Id, input: I, profile: Profile,
                              available: bool)
    requires capability in r.tiers
    ensures var (r1, reply) := Invoke(x, r, capability, input, profile, None, available);
      var tier := r.tiers[capability];
      && (tier == 0 || (tier <= 2 && profile == Open) || (tier == 1 && profile == Balanced) ==>
            Answered(r, r1, reply, capability, input, available))
      && (tier == 1 && profile == Strict ==> reply == Confirmation(None) && r1 == r)
      && (tier == 2 && profile != Open ==> Unconfirmed(reply) && NoHandler(r, r1))
      && (tier == 3 ==> reply == Denied && r1 == r)
  {}

  /** An override that speaks of the tier decides below Tier 3; one that is not an action
      is refused. */
  lemma InvokeByOverride<I, D>(x: Setting<I, D>, r: Registry<I, D>, capability: Id, input: I, profile: Profile,
                               override: Override, available: bool)
    requires capability in r.tiers && r.tiers[capability] in override
    ensures var (r1, reply) := Invoke(x, r, capability, input, profile, Some(override), available);
      var tier, action := r.tiers[capability], override[r.tiers[capability]];
      && (action == None ==> reply == Refused && r1 == r)
      && (action != None && tier == 3 ==> reply == Denied && r1 == r)
      && (action == Some(Allow) && tier < 3 ==> Answered(r, r1, reply, capability, input, available))
      && (action == Some(Deny) && tier < 3 ==> reply == Denied && r1 == r)
      && (action == Some(Confirm) && tier < 2 ==> reply == Confirmation(None) && r1 == r)
      && (action == Some(Confirm) && tier == 2 ==> Unconfirmed(reply) && NoHandler(r, r1))
  {}

  /** An override that does not speak of the tier changes nothing of the answer. */
  lemma InvokeBesideOverride<I, D>(x: Setting<I, D>, r: Registry<I, D>, capability: Id, input: I, profile: Profile,
                                   override: Override, available: bool)
    requires capability in r.tiers && r.tiers[capability] !in override
    ensures Invoke(x, r, capability, input, profile, Some(override), available).1
         == Invoke(x, r, capability, input, profile, None, available).1
  {}

  /** What is not registered is refused. */
  lemma InvokeUnregistered<I, D>(x: Setting<I, D>, r: Registry<I, D>, capability: Id, input: I, profile: Profile,
                                 override: Option<Override>, available: bool)
    requires capability !in r.tiers
    ensures Invoke(x, r, capability, input, profile, override, available) == (r, Refused)
  {}

  /** A ticket is looked at only under the balanced profile without override. */
  lemma ConfirmedNeedsBalanced<I, D>(x: Setting<I, D>, r: Registry<I, D>, ticket: Text, capability: Id, input: I,
                                     profile: Profile, override: Option<Override>, available: bool)
    requires profile != Balanced || override != None || |ticket| < 32 || |ticket| > 128
    ensures InvokeConfirmed(x, r, ticket, capability, input, profile, override, available) == (r, Refused)
  {}

  /** An issued ticket has 32 to 128 units, is new, is bound to the capability and the hash
      of the input, and expires a lifetime after the clock reading. */
  lemma IssuedTicketIsBound<I, D>(x: Setting<I, D>, r: Registry<I, D>, capability: Id, input: I)
    requires TableOk(r.tickets) && Issue(x, r, capability, input).1.Some?
    ensures var (r1, ticket) := Issue(x, r, capability, input);
      && 32 <= |ticket.value| <= 128 && |r1.tickets| > 0 && x.hash(input).Some?
      && r1.tickets[|r1.tickets| - 1] ==
           Keyed(ticket.value, Pending(capability, x.hash(input).value, x.clock(r.readings) + x.ttl))
      && forall i :: 0 <= i < |r1.tickets| - 1 ==> r1.tickets[i].key != ticket.value
  {
    var table := Swept(r.tickets, x.clock(r.readings));
    DrawIs(x.factory, table, r.draws, 4);
    var (r1, ticket) := Issue(x, r, capability, input);
    assert r1.tickets[..|table|] == table;
    forall i | 0 <= i < |table| ensures r1.tickets[i].key != ticket.value { assert table[i] == r1.tickets[i]; }
  }

  /** Room is made by dropping what has expired and, only if 256 tickets live on, the oldest. */
  lemma RoomIsMade<D>(table: Table<D>, now: int)
    requires forall i :: 0 <= i < |table| ==> table[i].value.expiresAt > now
    ensures Swept(table, now) == if |table| >= 256 then table[1..] else table
  {
    AllLive(table, now);
  }

  lemma {:induction false} AllLive<D>(table: Table<D>, now: int)
    requires forall i :: 0 <= i < |table| ==> table[i].value.expiresAt > now
    ensures Unexpired(table, now) == table
  {
    if table != [] {
      AllLive(table[1..], now);
      assert table == [table[0]] + table[1..];
    }
  }
}
