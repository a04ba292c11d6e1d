/** The registry with its maps updated in place, as the program writes it. */
module Capabilities {
  import opened Options
  import opened Text
  import opened ConfirmationTickets

  lemma SweepStep<D>(table: Table<D>, i: nat, now: int)
    requires i < |table|
    ensures var next := table[..i] + table[i + 1..];
      table[i].value.expiresAt <= now ==>
        next[..i] + Unexpired(next[i..], now) == table[..i] + Unexpired(table[i..], now)
    ensures table[i].value.expiresAt > now ==>
      table[..i + 1] + Unexpired(table[i + 1..], now) == table[..i] + Unexpired(table[i..], now)
  {
    var next := table[..i] + table[i + 1..];
    assert next[..i] == table[..i] && next[i..] == table[i + 1..];
    assert table[i..][1..] == table[i + 1..] && table[i..][0] == table[i];
    assert table[..i + 1] == table[..i] + [table[i]];
  }

  /** Issuing keeps the table duplicate-free and within its bound. */
  lemma IssueTable<I, D>(x: Setting<I, D>, r: Registry<I, D>, capability: Id, input: I)
    requires TableOk(r.tickets)
    ensures TableOk(Issue(x, r, capability, input).0.tickets)
  {
    var now := x.clock(r.readings);
    var table := Swept(r.tickets, now);
    SweptIs(r.tickets, now);
    DrawIs(x.factory, table, r.draws, 4);
    var (r1, ticket) := Issue(x, r, capability, input);
    if ticket.Some? { AppendedOk(table, r1.tickets[|table|]); }
  }

  class CapabilityRegistry<!I, !D(==)> {
    const setting: Setting<I, D>
    var tiers: map<Id, Tier>
    var tickets: Table<D>
    var readings: nat
    var draws: nat
    /** The issuances and handler calls made so far. */
    var log: seq<Logged<I, D>>

    function State(): Registry<I, D>
      reads this
    {
      Registry(tiers, tickets, readings, draws, log)
    }

    /** Every confirmed call so far had a ticket of its own, and every live ticket stands
        for an issuance that has not been used. */
    ghost predicate Valid()
      reads this
    {
      exists used, live :: RunOk(setting, State(), used, live)
    }

    constructor (setting: Setting<I, D>)
      ensures this.setting == setting && State() == Empty<I, D>()
      ensures Valid()
    {
      this.setting := setting;
      tiers, tickets, readings, draws, log := map[], [], 0, 0, [];
      new;
      assert RunOk(setting, State(), map[], map[]);
    }

    method RegisterCapability(capability: Id, tier: Tier)
      modifies this
      ensures State() == Register(old(State()), capability, tier)
      ensures old(Valid()) ==> Valid()
    {
      if Valid() {
        ghost var used, live :| RunOk(setting, State(), used, live);
        ghost var _, _ := StepKeeps(setting, State(), RegisterCall(capability, tier), used, live);
      }
      if capability !in tiers { tiers := tiers[capability := tier]; }
    }

    method Now() returns (now: int)
      modifies this`readings
      ensures now == setting.clock(old(readings)) && readings == old(readings) + 1
    {
      now := setting.clock(readings);
      readings := readings + 1;
    }

    /** Delete the expired tickets while walking the table. */
    method Sweep(now: int)
      modifies this`tickets
      ensures tickets == Unexpired(old(tickets), now)
    {
      var i := 0;
      assert tickets[..0] + Unexpired(tickets[0..], now) == Unexpired(tickets, now);
      while i < |tickets|
        invariant 0 <= i <= |tickets|
        invariant tickets[..i] + Unexpired(tickets[i..], now) == Unexpired(old(tickets), now)
        decreases |tickets| - i
      {
        SweepStep(tickets, i, now);
        if tickets[i].value.expiresAt <= now {
          tickets := tickets[..i] + tickets[i + 1..];
        } else {
          i := i + 1;
        }
      }
      assert tickets[i..] == [] && tickets[..i] + [] == tickets;
    }

    /** Sweep, then evict the oldest ticket if the table is still full. */
    method MakeRoom(now: int)
      modifies this`tickets
      ensures tickets == Swept(old(tickets), now)
    {
      Sweep(now);
      if |tickets| >= MAX_TICKETS { tickets := tickets[1..]; }
    }

    /** At most four draws for a usable ticket that is not in the table. */
    method DrawTicket() returns (ticket: Option<Text>)
      modifies this`draws
      ensures (ticket, draws) == Draw(setting.factory, tickets, old(draws), 4)
    {
      var attempt := 0;
      while attempt < 4
        invariant 0 <= attempt <= 4
        invariant Draw(setting.factory, tickets, draws, 4 - attempt) == Draw(setting.factory, tickets, old(draws), 4)
      {
        var candidate := setting.factory(draws);
        draws := draws + 1;
        if UsableTicket(candidate) && !HasTicket(tickets, candidate) { return Some(candidate); }
        attempt := attempt + 1;
      }
      return None;
    }

    method IssueConfirmation(capability: Id, input: I) returns (ticket: Option<Text>)
      modifies this
      ensures (State(), ticket) == Issue(setting, old(State()), capability, input)
    {
      var now := Now();
      MakeRoom(now);
      ticket := DrawTicket();
      if ticket.None? { return; }
      var digest := setting.hash(input);
      if digest.None? { return None; }
      tickets := tickets + [Keyed(ticket.value, Pending(capability, digest.value, now + setting.ttl))];
      log := log + [Issued(capability, digest.value, now)];
    }

    method InvokeCapability(capability: Id, input: I, profile: Profile, override: Option<Override>, available: bool)
      returns (reply: Reply)
      modifies this
      ensures (State(), reply) == Invoke(setting, old(State()), capability, input, profile, override, available)
      ensures old(Valid()) ==> Valid()
    {
      if Valid() {
        ghost var used, live :| RunOk(setting, State(), used, live);
        ghost var _, _ := StepKeeps(
          setting, State(), InvokeCall(capability, input, profile, override, available), used, live);
      }
      if capability !in tiers { return Refused; }
      var action := Evaluate(tiers[capability], profile, override);
      if action.None? { return Refused; }
      match action.value {
        case Deny => return Denied;
        case Confirm =>
          if tiers[capability] != 2 { return Confirmation(None); }
          var ticket := IssueConfirmation(capability, input);
          return if ticket.Some? then Confirmation(ticket) else Refused;
        case Allow =>
          if !available { return Refused; }
          log := log + [Executed(capability, input, tiers[capability], profile, override, None)];
          return Done;
      }
    }

    method InvokeWithTicket(ticket: Text, capability: Id, input: I, profile: Profile, override: Option<Override>,
                            available: bool) returns (reply: Reply)
      modifies this
      ensures (State(), reply) ==
        InvokeConfirmed(setting, old(State()), ticket, capability, input, profile, override, available)
      ensures old(Valid()) ==> Valid()
    {
      if Valid() {
        ghost var used, live :| RunOk(setting, State(), used, live);
        ghost var _, _ := StepKeeps(
          setting, State(), ConfirmedCall(ticket, capability, input, profile, override, available), used, live);
      }
      if !profile.Balanced? || override.Some? || !UsableTicket(ticket) { return Refused; }
      var pending := Find(tickets, ticket);
      if pending.None? { return Refused; }
      tickets := Without(tickets, ticket);
      var now := Now();
      if pending.value.expiresAt <= now { return Refused; }
      if pending.value.capability != capability || setting.hash(input) != Some(pending.value.digest) { return Refused; }
      if capability !in tiers || tiers[capability] != 2 || !available { return Refused; }
      log := log + [Executed(capability, input, 2, profile, None, Some(now))];
      return Done;
    }
  }
}
