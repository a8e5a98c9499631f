// The escrow contract's rules, call by call: when each entry point answers what, whose
// signature it needs, and exactly what it leaves in the entry, the accounts and the log.

module EscrowRules {
  import opened TokenLedger
  import opened EscrowSpec
  import opened EscrowSafety

  // ---- answers ----

  /** The parties each entry point listens to. */
  function Authorised(e: Entry, call: Call): set<Address>
    requires !call.Fund?
  {
    match call
    case ReleaseMilestone(_, _, _) => {e.client, e.admin}
    case Release(_, _) => {e.client, e.admin}
    case Refund(_, _) => {e.freelancer, e.admin}
    case Dispute(_, _) => {e.client, e.freelancer}
    case Resolve(_, _, _, _) => {e.admin}
  }

  /** The status is the one the entry point asks for. */
  predicate Open(e: Entry, call: Call) {
    if call.Resolve? then e.status.Disputed? else e.status.Funded?
  }

  lemma RejectsExactly(e: Entry, self: Address, call: Call)
    requires !call.Fund? && EntryOk(e, self) && !(Open(e, call) && call.caller in Authorised(e, call))
    ensures Judge(e, call) == Reject(if Open(e, call) then Unauthorized else InvalidState)
  {
  }

  /** What is left to check of a resolution. */
  lemma ResolveExactly(e: Entry, self: Address, call: Call)
    requires call.Resolve? && EntryOk(e, self) && Open(e, call) && call.caller in Authorised(e, call)
    ensures var (left, v) := (e.total - e.released, Judge(e, call));
            if !call.decision.Split? then v.Accept?
            else if call.bps > 10_000 then v == Reject(InvalidSplitBps)
            else if left * call.bps > I128_MAX then v == Reject(Overflow)
            else v.Accept?
  {
    assert (e.total - e.released) * call.bps >= 0;
  }

  /** What is left to check of any other call. */
  lemma OthersExactly(e: Entry, self: Address, call: Call)
    requires !call.Fund? && !call.Resolve? && EntryOk(e, self) && Open(e, call) && call.caller in Authorised(e, call)
    ensures var (left, v) := (e.total - e.released, Judge(e, call));
            if call.ReleaseMilestone? && call.amount <= 0 then v == Reject(InvalidAmount)
            else if call.ReleaseMilestone? && call.amount > left then v == Reject(InvalidState)
            else v.Accept?
  {
  }

  /**
   * In a reachable state the answer to a signed call on an existing entry follows from its status,
   * its caller and its amounts alone, and any answer but Ok leaves everything as it was.
   */
  lemma AnswersExactly(s: Chain, signers: set<Address>, call: Call)
    requires Inv(s) && !call.Fund? && call.id in s.entries && call.caller in signers
    ensures var (e, (s', outcome)) := (s.entries[call.id], Apply(s, signers, call));
            var left := e.total - e.released;
            var heard := Open(e, call) && call.caller in Authorised(e, call);
            var split := call.Resolve? && call.decision.Split?;
            && (outcome.Ok? <==>
                  && heard
                  && (call.ReleaseMilestone? ==> 0 < call.amount <= left)
                  && (split ==> call.bps <= 10_000 && left * call.bps <= I128_MAX))
            && (outcome == Err(Unauthorized) <==> Open(e, call) && !heard)
            && (outcome == Err(InvalidState) <==>
                  !Open(e, call) || (call.ReleaseMilestone? && heard && call.amount > left))
            && (outcome == Err(InvalidAmount) <==> call.ReleaseMilestone? && heard && call.amount <= 0)
            && (outcome == Err(InvalidSplitBps) <==> split && heard && call.bps > 10_000)
            && (outcome == Err(Overflow) <==> split && heard && call.bps <= 10_000 && left * call.bps > I128_MAX)
            && outcome != Trap && outcome != Err(NotFound) && outcome != Err(AlreadyFunded)
            && (!outcome.Ok? ==> s' == s)
  {
    hide Apply, Judge, Open, Authorised;
    var e := s.entries[call.id];
    assert EntryOk(e, s.self);
    AcceptedGoesThrough(s, signers, call);
    if !(Open(e, call) && call.caller in Authorised(e, call)) {
      RejectsExactly(e, s.self, call);
    } else if call.Resolve? {
      ResolveExactly(e, s.self, call);
    } else {
      OthersExactly(e, s.self, call);
    }
  }

  /** A call that nobody signed traps, and one on an unknown escrow finds nothing. */
  lemma UnansweredCalls(s: Chain, signers: set<Address>, call: Call)
    ensures call.caller !in signers ==> Apply(s, signers, call) == (s, Trap)
    ensures call.caller in signers && !call.Fund? && call.id !in s.entries ==>
              Apply(s, signers, call) == (s, Err(NotFound))
  {
  }

  /** Funding answers by its amount, its id and what the client holds and has approved, in that order. */
  lemma FundExactly(s: Chain, signers: set<Address>, call: Call)
    requires call.Fund? && call.caller in signers
    ensures var (s', outcome) := Apply(s, signers, call);
            var (token, client, amount) := (call.token, call.caller, call.amount);
            var covered := && amount <= s.ledger.Balance(token, client)
                           && amount <= s.ledger.Allowance(token, client, s.self);
            && (outcome == Err(InvalidAmount) <==> amount <= 0)
            && (outcome == Err(AlreadyFunded) <==> amount > 0 && call.id in s.entries)
            && (outcome == Trap <==> amount > 0 && call.id !in s.entries && !covered)
            && (outcome.Ok? <==> amount > 0 && call.id !in s.entries && covered)
            && (!outcome.Ok? ==> s' == s)
            && (outcome.Ok? ==>
                  && s'.self == s.self
                  && s'.entries
                     == s.entries[call.id := Entry(client, call.freelancer, call.admin, token, amount, 0, Funded)]
                  && s'.events == s.events + [FundEvent(call.id, client, call.freelancer, amount, token)]
                  && (forall t, who ::
                        s'.ledger.Balance(t, who) - s.ledger.Balance(t, who)
                        == if t == token && who == s.self && client != s.self then amount
                           else if t == token && who == client && client != s.self then -amount else 0)
                  && (forall t, owner, spender ::
                        s.ledger.Allowance(t, owner, spender) - s'.ledger.Allowance(t, owner, spender)
                        == if t == token && owner == client && spender == s.self then amount else 0))
  {
    if Apply(s, signers, call).1.Ok? {
      TransferFromMoves(s.ledger, call.token, s.self, call.caller, s.self, call.amount);
    }
  }

  // ---- effects ----

  /** The escrow pays `f` to the freelancer and `c` to the client, and moves nothing else. */
  ghost predicate Pays(s: Chain, s': Chain, e: Entry, f: int, c: int) {
    && s'.ledger.allowances == s.ledger.allowances
    && forall t, who ::
      s'.ledger.Balance(t, who) - s.ledger.Balance(t, who)
      == if t != e.token then 0
         else (if who == e.freelancer then f else 0) + (if who == e.client then c else 0)
              - (if who == s.self then f + c else 0)
  }

  /** The one entry, the one event and the two accounts a successful call changes. */
  ghost predicate Leaves(s: Chain, s': Chain, id: Symbol, after: Entry, event: Event, f: int, c: int)
    requires id in s.entries
  {
    && s'.self == s.self
    && s'.entries == s.entries[id := after]
    && s'.events == s.events + [event]
    && Pays(s, s', s.entries[id], f, c)
  }

  lemma LeavesVerdict(s: Chain, signers: set<Address>, call: Call)
    requires Inv(s) && !call.Fund? && Apply(s, signers, call).1.Ok?
    ensures var v := Judge(s.entries[call.id], call);
            v.Accept? && Leaves(s, Apply(s, signers, call).0, call.id, v.after, v.event, v.toFreelancer, v.toClient)
  {
    var (e, v) := (s.entries[call.id], Judge(s.entries[call.id], call));
    AcceptedGoesThrough(s, signers, call);
    PayBothMoves(s.ledger, s.self, e, v.toFreelancer, v.toClient);
    hide Judge, Inv;
  }

  /** What each successful call does, in full. */
  lemma EffectsExactly(s: Chain, signers: set<Address>, call: Call)
    requires Inv(s) && !call.Fund? && Apply(s, signers, call).1.Ok?
    ensures var (e, s', id) := (s.entries[call.id], Apply(s, signers, call).0, call.id);
            var left := e.total - e.released;
            match call
            case ReleaseMilestone(_, _, amount) =>
              var after := e.(released := e.released + amount, status := if amount == left then Released else Funded);
              Leaves(s, s', id, after, MilestoneEvent(id, e.freelancer, amount, e.released + amount), amount, 0)
            case Release(_, _) =>
              Leaves(s, s', id, e.(released := e.total, status := Released),
                     ReleaseEvent(id, e.freelancer, left), left, 0)
            case Refund(_, _) =>
              Leaves(s, s', id, e.(status := Refunded), RefundEvent(id, e.client, left), 0, left)
            case Dispute(_, caller) =>
              Leaves(s, s', id, e.(status := Disputed), DisputeEvent(id, caller), 0, 0)
            case Resolve(_, _, ReleaseToFreelancer, bps) =>
              Leaves(s, s', id, e.(status := Released), ResolveEvent(id, ReleaseToFreelancer, bps), left, 0)
            case Resolve(_, _, RefundToClient, bps) =>
              Leaves(s, s', id, e.(status := Refunded), ResolveEvent(id, RefundToClient, bps), 0, left)
            case Resolve(_, _, Split, bps) =>
              var f := left * bps / 10_000;
              && 0 <= f <= left
              && Leaves(s, s', id, e.(status := Resolved), ResolveEvent(id, Split, bps), f, left - f)
  {
    LeavesVerdict(s, signers, call);
    hide Apply, Leaves, Inv;
  }

  /** A funded entry can be given up by its freelancer alone: the client then gets all that is left. */
  lemma FreelancerCanReturn(s: Chain, id: Symbol)
    requires Inv(s) && id in s.entries && s.entries[id].status.Funded?
    ensures var e := s.entries[id];
            var (s', outcome) := Apply(s, {e.freelancer}, Refund(id, e.freelancer));
            var left := e.total - e.released;
            && outcome == Ok && left > 0
            && Leaves(s, s', id, e.(status := Refunded), RefundEvent(id, e.client, left), 0, left)
  {
    var freelancer := s.entries[id].freelancer;
    AnswersExactly(s, {freelancer}, Refund(id, freelancer));
    EffectsExactly(s, {freelancer}, Refund(id, freelancer));
    assert EntryOk(s.entries[id], s.self);
    hide Apply, Leaves, Inv;
  }
}
