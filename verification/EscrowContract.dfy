// The escrow contract as it runs: each entry point loads its entry, moves the
// tokens, updates the entry in place and writes it back. No rollback by the
// host is used: every method that does not succeed leaves the state alone.

module EscrowContract {
  import opened TokenLedger
  import opened EscrowSpec
  import opened EscrowSafety

  class StellanceEscrow {
    const self: Address
    var entries: map<Symbol, Entry>
    var ledger: Ledger
    var events: seq<Event>

    ghost function State(): Chain
      reads this
    {
      Chain(self, entries, ledger, events)
    }

    ghost predicate Valid()
      reads this
    {
      Inv(State())
    }

    constructor (self: Address, ledger: Ledger)
      requires forall token, spender :: ledger.Allowance(token, self, spender) == 0
      ensures Valid() && State() == Chain(self, map[], ledger, [])
    {
      this.self := self;
      this.entries := map[];
      this.ledger := ledger;
      this.events := [];
      new;
      InitialInv(State());
    }

    /** The token client's `transfer` out of this contract. */
    method Transfer(token: Address, to: Address, amount: i128) returns (ok: bool)
      modifies this`ledger
      ensures ok <==> old(ledger).Transfer(token, self, to, amount).Some?
      ensures ledger == if ok then old(ledger).Transfer(token, self, to, amount).value else old(ledger)
    {
      var moved := ledger.Transfer(token, self, to, amount);
      ok := moved.Some?;
      if ok {
        ledger := moved.value;
      }
    }

    method Write(id: Symbol, entry: Entry, event: Event)
      modifies this`entries, this`events
      ensures entries == old(entries)[id := entry] && events == old(events) + [event]
    {
      entries := entries[id := entry];
      events := events + [event];
    }

    method Fund(signers: set<Address>, id: Symbol, client: Address, freelancer: Address, admin: Address,
                amount: i128, token: Address)
      returns (outcome: Outcome)
      requires Valid() && self !in signers
      modifies this
      ensures Valid()
      ensures (State(), outcome)
           == Apply(old(State()), signers, EscrowSpec.Fund(id, client, freelancer, admin, amount, token))
      ensures !outcome.Ok? ==> State() == old(State())
    {
      CallKeepsInv(State(), signers, EscrowSpec.Fund(id, client, freelancer, admin, amount, token));
      if client !in signers {
        return Trap;
      }
      if amount <= 0 {
        return Err(InvalidAmount);
      }
      if id in entries {
        return Err(AlreadyFunded);
      }
      var pulled := ledger.TransferFrom(token, self, client, self, amount);
      if pulled.None? {
        return Trap;
      }
      ledger := pulled.value;
      Write(id, Entry(client, freelancer, admin, token, amount, 0, Funded),
            FundEvent(id, client, freelancer, amount, token));
      return Ok;
    }

    method ReleaseMilestone(signers: set<Address>, id: Symbol, caller: Address, amount: i128)
      returns (outcome: Outcome)
      requires Valid() && self !in signers
      modifies this
      ensures Valid()
      ensures (State(), outcome) == Apply(old(State()), signers, EscrowSpec.ReleaseMilestone(id, caller, amount))
      ensures !outcome.Ok? ==> State() == old(State())
      ensures outcome.Ok? ==>
                && caller in signers && id in old(entries)
                && caller in {old(entries)[id].client, old(entries)[id].admin}
    {
      CallKeepsInv(State(), signers, EscrowSpec.ReleaseMilestone(id, caller, amount));
      if caller !in signers {
        return Trap;
      }
      if id !in entries {
        return Err(NotFound);
      }
      var entry := entries[id];
      if entry.status != Funded {
        return Err(InvalidState);
      }
      if caller != entry.client && caller != entry.admin {
        return Err(Unauthorized);
      }
      var remaining := Checked(entry.total - entry.released);
      if remaining.None? {
        return Err(Overflow);
      }
      if amount <= 0 {
        return Err(InvalidAmount);
      }
      if amount > remaining.value {
        return Err(InvalidState);
      }
      EntryCovered(State(), id);
      ghost var verdict := Judge(entry, EscrowSpec.ReleaseMilestone(id, caller, amount));
      assert verdict.Accept? && verdict.toFreelancer == amount && verdict.toClient == 0;
      var ok := Transfer(entry.token, entry.freelancer, amount);
      if !ok {
        return Trap;
      }
      var released := Checked(entry.released + amount);
      if released.None? {
        return Err(Overflow);
      }
      entry := entry.(released := released.value);
      if entry.released >= entry.total {
        entry := entry.(status := Released);
      }
      assert entry == verdict.after;
      Write(id, entry, MilestoneEvent(id, entry.freelancer, amount, entry.released));
      return Ok;
    }

    method Release(signers: set<Address>, id: Symbol, caller: Address) returns (outcome: Outcome)
      requires Valid() && self !in signers
      modifies this
      ensures Valid()
      ensures (State(), outcome) == Apply(old(State()), signers, EscrowSpec.Release(id, caller))
      ensures !outcome.Ok? ==> State() == old(State())
      ensures outcome.Ok? ==>
                && caller in signers && id in old(entries)
                && caller in {old(entries)[id].client, old(entries)[id].admin}
    {
      CallKeepsInv(State(), signers, EscrowSpec.Release(id, caller));
      if caller !in signers {
        return Trap;
      }
      if id !in entries {
        return Err(NotFound);
      }
      var entry := entries[id];
      if entry.status != Funded {
        return Err(InvalidState);
      }
      if caller != entry.client && caller != entry.admin {
        return Err(Unauthorized);
      }
      var remaining := Checked(entry.total - entry.released);
      if remaining.None? {
        return Err(Overflow);
      }
      EntryCovered(State(), id);
      if remaining.value > 0 {
        var ok := Transfer(entry.token, entry.freelancer, remaining.value);
        if !ok {
          return Trap;
        }
      }
      entry := entry.(released := entry.total);
      entry := entry.(status := Released);
      Write(id, entry, ReleaseEvent(id, entry.freelancer, remaining.value));
      return Ok;
    }

    method Refund(signers: set<Address>, id: Symbol, caller: Address) returns (outcome: Outcome)
      requires Valid() && self !in signers
      modifies this
      ensures Valid()
      ensures (State(), outcome) == Apply(old(State()), signers, EscrowSpec.Refund(id, caller))
      ensures !outcome.Ok? ==> State() == old(State())
      ensures outcome.Ok? ==>
                && caller in signers && id in old(entries)
                && caller in {old(entries)[id].freelancer, old(entries)[id].admin}
    {
      CallKeepsInv(State(), signers, EscrowSpec.Refund(id, caller));
      if caller !in signers {
        return Trap;
      }
      if id !in entries {
        return Err(NotFound);
      }
      var entry := entries[id];
      if entry.status != Funded {
        return Err(InvalidState);
      }
      if caller != entry.freelancer && caller != entry.admin {
        return Err(Unauthorized);
      }
      var remaining := Checked(entry.total - entry.released);
      if remaining.None? {
        return Err(Overflow);
      }
      EntryCovered(State(), id);
      if remaining.value > 0 {
        var ok := Transfer(entry.token, entry.client, remaining.value);
        if !ok {
          return Trap;
        }
      }
      entry := entry.(status := Refunded);
      Write(id, entry, RefundEvent(id, entry.client, remaining.value));
      return Ok;
    }

    method Dispute(signers: set<Address>, id: Symbol, caller: Address) returns (outcome: Outcome)
      requires Valid() && self !in signers
      modifies this
      ensures Valid()
      ensures (State(), outcome) == Apply(old(State()), signers, EscrowSpec.Dispute(id, caller))
      ensures !outcome.Ok? ==> State() == old(State())
      ensures outcome.Ok? ==>
                && caller in signers && id in old(entries)
                && caller in {old(entries)[id].client, old(entries)[id].freelancer}
    {
      CallKeepsInv(State(), signers, EscrowSpec.Dispute(id, caller));
      if caller !in signers {
        return Trap;
      }
      if id !in entries {
        return Err(NotFound);
      }
      var entry := entries[id];
      if entry.status != Funded {
        return Err(InvalidState);
      }
      if caller != entry.client && caller != entry.freelancer {
        return Err(Unauthorized);
      }
      entry := entry.(status := Disputed);
      Write(id, entry, DisputeEvent(id, caller));
      return Ok;
    }

    method ResolveDispute(signers: set<Address>, id: Symbol, caller: Address, decision: Decision, bps: u32)
      returns (outcome: Outcome)
      requires Valid() && self !in signers
      modifies this
      ensures Valid()
      ensures (State(), outcome) == Apply(old(State()), signers, EscrowSpec.Resolve(id, caller, decision, bps))
      ensures !outcome.Ok? ==> State() == old(State())
      ensures outcome.Ok? ==>
                && caller in signers && id in old(entries)
                && caller in {old(entries)[id].admin}
    {
      hide Inv;
      CallKeepsInv(State(), signers, EscrowSpec.Resolve(id, caller, decision, bps));
      if caller !in signers {
        return Trap;
      }
      if id !in entries {
        return Err(NotFound);
      }
      var entry := entries[id];
      if entry.status != Disputed {
        return Err(InvalidState);
      }
      if caller != entry.admin {
        return Err(Unauthorized);
      }
      var remaining := Checked(entry.total - entry.released);
      if remaining.None? {
        return Err(Overflow);
      }
      EntryCovered(State(), id);
      match decision {
        case ReleaseToFreelancer =>
          if remaining.value > 0 {
            var ok := Transfer(entry.token, entry.freelancer, remaining.value);
            if !ok {
              return Trap;
            }
          }
          entry := entry.(status := Released);
        case RefundToClient =>
          if remaining.value > 0 {
            var ok := Transfer(entry.token, entry.client, remaining.value);
            if !ok {
              return Trap;
            }
          }
          entry := entry.(status := Refunded);
        case Split =>
          if bps > BPS_DENOMINATOR {
            return Err(InvalidSplitBps);
          }
          var scaled := Checked(remaining.value * bps);
          if scaled.None? {
            return Err(Overflow);
          }
          ShareBounds(remaining.value, bps);
          var toFreelancer := scaled.value / BPS_DENOMINATOR;
          var toClient := Checked(remaining.value - toFreelancer);
          if toClient.None? {
            return Err(Overflow);
          }
          if toFreelancer > 0 {
            var ok := Transfer(entry.token, entry.freelancer, toFreelancer);
            if !ok {
              return Trap;
            }
          }
          if toClient.value > 0 {
            var ok := Transfer(entry.token, entry.client, toClient.value);
            if !ok {
              return Trap;
            }
          }
          entry := entry.(status := Resolved);
      }
      Write(id, entry, ResolveEvent(id, decision, bps));
      return Ok;
    }
  }
}
