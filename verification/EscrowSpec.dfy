// The escrow contract's data and its transition function: what one invocation
// does to the entry map, the token ledger and the event log.

module EscrowSpec {
  import opened Sums
  import opened TokenLedger

  const I128_MAX: int := 0x7FFF_FFFF_FFFF_FFFF_FFFF_FFFF_FFFF_FFFF
  const I128_MIN: int := -I128_MAX - 1
  const BPS_DENOMINATOR := 10_000

  type i128 = x: int | I128_MIN <= x <= I128_MAX
  type u32 = x: int | 0 <= x < 0x1_0000_0000
  type Symbol = string

  function Checked(x: int): Option<i128> {
    if I128_MIN <= x <= I128_MAX then Some(x) else None
  }

  datatype Status = Funded | Released | Refunded | Disputed | Resolved

  datatype Entry = Entry(
    client: Address, freelancer: Address, admin: Address, token: Address,
    total: i128, released: i128, status: Status)

  datatype Decision = ReleaseToFreelancer | RefundToClient | Split

  datatype EscrowError =
    NotFound | AlreadyFunded | InvalidState | Unauthorized | InvalidSplitBps | Overflow | InvalidAmount

  /** `Trap` is a host abort: a missing signature, or a token call that failed. */
  datatype Outcome = Ok | Err(error: EscrowError) | Trap

  datatype Event =
    | FundEvent(id: Symbol, client: Address, freelancer: Address, amount: i128, token: Address)
    | MilestoneEvent(id: Symbol, freelancer: Address, amount: i128, releasedSoFar: i128)
    | ReleaseEvent(id: Symbol, freelancer: Address, amount: i128)
    | RefundEvent(id: Symbol, client: Address, amount: i128)
    | DisputeEvent(id: Symbol, caller: Address)
    | ResolveEvent(id: Symbol, decision: Decision, bps: u32)

  /** One invocation; `caller` is the address whose signature the entry point requires. */
  datatype Call =
    | Fund(id: Symbol, caller: Address, freelancer: Address, admin: Address, amount: i128, token: Address)
    | ReleaseMilestone(id: Symbol, caller: Address, amount: i128)
    | Release(id: Symbol, caller: Address)
    | Refund(id: Symbol, caller: Address)
    | Dispute(id: Symbol, caller: Address)
    | Resolve(id: Symbol, caller: Address, decision: Decision, bps: u32)

  datatype Chain = Chain(self: Address, entries: map<Symbol, Entry>, ledger: Ledger, events: seq<Event>)

  function Remaining(e: Entry): int {
    e.total - e.released
  }

  predicate Live(e: Entry) {
    e.status.Funded? || e.status.Disputed?
  }

  // ---- the decision for an existing entry ----

  datatype Verdict =
    | Reject(error: EscrowError)
    | Accept(after: Entry, toFreelancer: nat, toClient: nat, event: Event)

  function Judge(e: Entry, call: Call): Verdict
    requires !call.Fund?
  {
    var required := if call.Resolve? then Disputed else Funded;
    if e.status != required then Reject(InvalidState)
    else if !MayCall(e, call) then Reject(Unauthorized)
    else if call.Dispute? then Accept(e.(status := Disputed), 0, 0, DisputeEvent(call.id, call.caller))
    else if Checked(Remaining(e)).None? || Remaining(e) < 0 then Reject(Overflow)  // no reachable entry is overdrawn
    else
      var remaining: i128 := Remaining(e);
      match call
      case ReleaseMilestone(id, _, amount) =>
        if amount <= 0 then Reject(InvalidAmount)
        else if amount > remaining then Reject(InvalidState)
        else
          var status := if amount == remaining then Released else Funded;
          Accept(e.(released := e.released + amount, status := status), amount, 0,
                 MilestoneEvent(id, e.freelancer, amount, e.released + amount))
      case Release(id, _) =>
        Accept(e.(released := e.total, status := Released), remaining, 0, ReleaseEvent(id, e.freelancer, remaining))
      case Refund(id, _) =>
        Accept(e.(status := Refunded), 0, remaining, RefundEvent(id, e.client, remaining))
      case Resolve(id, _, decision, bps) =>
        var shares := Shares(remaining, decision, bps);
        if shares.Bad? then Reject(shares.error)
        else
          var status := match decision
            case ReleaseToFreelancer => Released
            case RefundToClient => Refunded
            case Split => Resolved;
          Accept(e.(status := status), shares.freelancer, shares.client, ResolveEvent(id, decision, bps))
  }

  predicate MayCall(e: Entry, call: Call)
    requires !call.Fund?
  {
    match call
    case ReleaseMilestone(_, caller, _) => caller == e.client || caller == e.admin
    case Release(_, caller) => caller == e.client || caller == e.admin
    case Refund(_, caller) => caller == e.freelancer || caller == e.admin
    case Dispute(_, caller) => caller == e.client || caller == e.freelancer
    case Resolve(_, caller, _, _) => caller == e.admin
  }

  datatype ShareResult = Good(freelancer: nat, client: nat) | Bad(error: EscrowError)

  /** How a resolution divides what is left; basis points count only in a split. */
  function Shares(remaining: i128, decision: Decision, bps: u32): ShareResult
    requires 0 <= remaining
  {
    match decision
    case ReleaseToFreelancer => Good(remaining, 0)
    case RefundToClient => Good(0, remaining)
    case Split =>
      if bps > BPS_DENOMINATOR then Bad(InvalidSplitBps)
      else if Checked(remaining * bps).None? then Bad(Overflow)
      else
        ShareBounds(remaining, bps);
        Good(remaining * bps / BPS_DENOMINATOR, remaining - remaining * bps / BPS_DENOMINATOR)
  }

  lemma ShareBounds(remaining: int, bps: int)
    requires 0 <= remaining && 0 <= bps <= BPS_DENOMINATOR
    ensures 0 <= remaining * bps / BPS_DENOMINATOR <= remaining
  {
    assert remaining * bps <= remaining * BPS_DENOMINATOR;
  }

  // ---- payouts and whole invocations ----

  function Pay(l: Ledger, token: Address, from: Address, to: Address, amount: nat): (r: Option<Ledger>)
    ensures r.Some? <==> amount <= l.Balance(token, from)
  {
    if amount > 0 then l.Transfer(token, from, to, amount) else Some(l)
  }

  function PayBoth(l: Ledger, self: Address, e: Entry, toFreelancer: nat, toClient: nat): Option<Ledger> {
    var first := Pay(l, e.token, self, e.freelancer, toFreelancer);
    if first.None? then None else Pay(first.value, e.token, self, e.client, toClient)
  }

  /** What two payouts add to the balance of `who` in `token`. */
  function PayoutFlow(self: Address, e: Entry, toFreelancer: nat, toClient: nat, token: Address, who: Address): int {
    if token == e.token
    then Flow(self, e.freelancer, toFreelancer, who) + Flow(self, e.client, toClient, who)
    else 0
  }

  /** A contract that covers both payouts together can make them one after the other. */
  lemma PayBothMoves(l: Ledger, self: Address, e: Entry, toFreelancer: nat, toClient: nat)
    ensures toFreelancer + toClient <= l.Balance(e.token, self) ==>
              PayBoth(l, self, e, toFreelancer, toClient).Some?
    ensures var r := PayBoth(l, self, e, toFreelancer, toClient);
            r.Some? ==>
              && r.value.allowances == l.allowances
              && forall t, who ::
                r.value.Balance(t, who) == l.Balance(t, who) + PayoutFlow(self, e, toFreelancer, toClient, t, who)
  {
    var first := Pay(l, e.token, self, e.freelancer, toFreelancer);
    if first.Some? {
      if toFreelancer > 0 { TransferMoves(l, e.token, self, e.freelancer, toFreelancer); }
      assert Moved(l, first.value, e.token, self, e.freelancer, toFreelancer);
      var second := Pay(first.value, e.token, self, e.client, toClient);
      if second.Some? {
        if toClient > 0 { TransferMoves(first.value, e.token, self, e.client, toClient); }
        assert Moved(first.value, second.value, e.token, self, e.client, toClient);
      }
    }
  }

  /** One invocation as the host runs it: all of it, or nothing. */
  function Apply(s: Chain, signers: set<Address>, call: Call): (Chain, Outcome) {
    if call.caller !in signers then (s, Trap)
    else if call.Fund? then
      if call.amount <= 0 then (s, Err(InvalidAmount))
      else if call.id in s.entries then (s, Err(AlreadyFunded))
      else
        var paid := s.ledger.TransferFrom(call.token, s.self, call.caller, s.self, call.amount);
        if paid.None? then (s, Trap)
        else
          var e := Entry(call.caller, call.freelancer, call.admin, call.token, call.amount, 0, Funded);
          (s.(entries := s.entries[call.id := e],
              ledger := paid.value,
              events := s.events + [FundEvent(call.id, call.caller, call.freelancer, call.amount, call.token)]), Ok)
    else if call.id !in s.entries then (s, Err(NotFound))
    else
      var e := s.entries[call.id];
      match Judge(e, call)
      case Reject(error) => (s, Err(error))
      case Accept(after, toFreelancer, toClient, event) =>
        var paid := PayBoth(s.ledger, s.self, e, toFreelancer, toClient);
        if paid.None? then (s, Trap)
        else
          (s.(entries := s.entries[call.id := after], ledger := paid.value, events := s.events + [event]), Ok)
  }

  // ---- what every reachable state satisfies ----

  function Backing(e: Entry, token: Address): int {
    if Live(e) && e.token == token then Remaining(e) else 0
  }

  /** The token balance the live entries are owed. */
  ghost function Held(entries: map<Symbol, Entry>, token: Address): int {
    Total(map id | id in entries :: Backing(entries[id], token))
  }

  ghost predicate EntryOk(e: Entry, self: Address) {
    && 0 <= e.released <= e.total
    && 0 < e.total
    && (Live(e) ==> e.released < e.total)
    && e.client != self
  }

  ghost predicate EntriesOk(s: Chain) {
    forall id :: id in s.entries ==> EntryOk(s.entries[id], s.self)
  }

  ghost predicate NothingApproved(s: Chain) {
    forall token, spender :: s.ledger.Allowance(token, s.self, spender) == 0
  }

  ghost predicate Solvent(s: Chain) {
    forall token :: Held(s.entries, token) <= s.ledger.Balance(token, s.self)
  }

  ghost predicate Inv(s: Chain) {
    EntriesOk(s) && NothingApproved(s) && Solvent(s)
  }

  /**
   * Every accepted call pays out exactly what the entry's backing loses,
   * leaves the parties alone and keeps the entry well-formed.
   */
  lemma AcceptConserves(e: Entry, self: Address, call: Call)
    requires !call.Fund? && EntryOk(e, self) && Judge(e, call).Accept?
    ensures var v := Judge(e, call);
            && EntryOk(v.after, self)
            && v.after.(released := e.released, status := e.status) == e
            && Live(e)
            && v.toFreelancer + v.toClient == Backing(e, e.token) - Backing(v.after, e.token)
            && v.event.id == call.id && !v.event.FundEvent?
  {
  }

  lemma HeldPut(entries: map<Symbol, Entry>, id: Symbol, e: Entry, token: Address)
    ensures Held(entries[id := e], token)
         == Held(entries, token) - (if id in entries then Backing(entries[id], token) else 0) + Backing(e, token)
  {
    var before := map i | i in entries :: Backing(entries[i], token);
    var written := entries[id := e];
    var after := map i | i in written :: Backing(written[i], token);
    assert after == before[id := Backing(e, token)];
    TotalPut(before, id, Backing(e, token));
  }

  lemma HeldNone(entries: map<Symbol, Entry>, token: Address)
    ensures entries == map[] ==> Held(entries, token) == 0
  {
    var backing := map id | id in entries :: Backing(entries[id], token);
    assert backing.Keys == entries.Keys;
  }

  /** A solvent contract can pay what any one live entry still holds. */
  lemma EntryCovered(s: Chain, id: Symbol)
    requires Inv(s) && id in s.entries && Live(s.entries[id])
    ensures 0 < Remaining(s.entries[id]) <= s.ledger.Balance(s.entries[id].token, s.self)
  {
    var token := s.entries[id].token;
    var backing := map i | i in s.entries :: Backing(s.entries[i], token);
    TotalBounds(backing, id);
    assert Held(s.entries, token) <= s.ledger.Balance(token, s.self);
  }
}
