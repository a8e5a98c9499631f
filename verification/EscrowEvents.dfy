// The event log alone: an observer who only folds the emitted events knows every
// entry (except its admin) and every token the contract paid or was paid.

module EscrowEvents {
  import opened Sums
  import opened TokenLedger
  import opened EscrowSpec
  import opened EscrowSafety

  /** What an observer knows of one escrow. */
  datatype View = View(
    client: Address, freelancer: Address, token: Address,
    total: int, released: int, status: Status,
    toFreelancer: int, toClient: int)

  /** What an event says about its own escrow, given what was known of it. */
  function Update(v: View, event: Event): View {
    var left := v.total - v.released;
    match event
    case FundEvent(_, client, freelancer, amount, token) => View(client, freelancer, token, amount, 0, Funded, 0, 0)
    case MilestoneEvent(_, _, amount, releasedSoFar) =>
      v.(released := releasedSoFar, toFreelancer := v.toFreelancer + amount,
         status := if releasedSoFar >= v.total then Released else Funded)
    case ReleaseEvent(_, _, amount) =>
      v.(released := v.total, toFreelancer := v.toFreelancer + amount, status := Released)
    case RefundEvent(_, _, amount) => v.(toClient := v.toClient + amount, status := Refunded)
    case DisputeEvent(_, _) => v.(status := Disputed)
    case ResolveEvent(_, decision, bps) =>
      match decision
      case ReleaseToFreelancer => v.(toFreelancer := v.toFreelancer + left, status := Released)
      case RefundToClient => v.(toClient := v.toClient + left, status := Refunded)
      case Split =>
        var share := left * bps / BPS_DENOMINATOR;
        v.(toFreelancer := v.toFreelancer + share, toClient := v.toClient + left - share, status := Resolved)
  }

  const UNKNOWN := View("", "", "", 0, 0, Funded, 0, 0)

  function Known(views: map<Symbol, View>, id: Symbol): View {
    if id in views then views[id] else UNKNOWN
  }

  function Rebuild(events: seq<Event>): map<Symbol, View> {
    if events == [] then map[] else
      var before := Rebuild(events[..|events| - 1]);
      var last := events[|events| - 1];
      before[last.id := Update(Known(before, last.id), last)]
  }

  /** The movement of `token` into the account of `who` that one event stands for. */
  function EventFlow(self: Address, before: View, event: Event, token: Address, who: Address): int {
    var after := Update(before, event);
    if token != after.token then 0
    else if event.FundEvent? then Flow(event.client, self, event.amount, who)
    else
      Flow(self, after.freelancer, after.toFreelancer - before.toFreelancer, who)
      + Flow(self, after.client, after.toClient - before.toClient, who)
  }

  /** What `who` has received from the escrow in `token`, net of what they paid in, by the events alone. */
  function NetFlow(self: Address, events: seq<Event>, token: Address, who: Address): int {
    if events == [] then 0 else
      var earlier := events[..|events| - 1];
      var last := events[|events| - 1];
      NetFlow(self, earlier, token, who) + EventFlow(self, Known(Rebuild(earlier), last.id), last, token, who)
  }

  lemma Appended(self: Address, events: seq<Event>, event: Event)
    ensures var before := Rebuild(events);
            && Rebuild(events + [event]) == before[event.id := Update(Known(before, event.id), event)]
            && forall token, who ::
                NetFlow(self, events + [event], token, who)
                == NetFlow(self, events, token, who)
                   + EventFlow(self, Known(before, event.id), event, token, who)
  {
    assert (events + [event])[..|events|] == events;
  }

  /** The view tells the entry, and both accounts of the money add up. */
  ghost predicate Matches(v: View, e: Entry) {
    && v.client == e.client && v.freelancer == e.freelancer && v.token == e.token
    && v.total == e.total && v.released == e.released && v.status == e.status
    && 0 <= v.toFreelancer && 0 <= v.toClient
    && v.toFreelancer + v.toClient + Backing(e, e.token) == e.total
    && (Live(e) ==> v.toFreelancer == e.released && v.toClient == 0)
  }

  ghost predicate LogComplete(s: Chain) {
    && Rebuild(s.events).Keys == s.entries.Keys
    && forall id :: id in s.entries ==> Matches(Rebuild(s.events)[id], s.entries[id])
  }

  lemma AcceptMatches(v: View, e: Entry, self: Address, call: Call)
    requires !call.Fund? && EntryOk(e, self) && Matches(v, e) && Judge(e, call).Accept?
    ensures var j := Judge(e, call);
            var v' := Update(v, j.event);
            && Matches(v', j.after) && j.event.id == call.id && !j.event.FundEvent?
            && v'.client == v.client && v'.freelancer == v.freelancer && v'.token == v.token
            && v'.toFreelancer == v.toFreelancer + j.toFreelancer
            && v'.toClient == v.toClient + j.toClient
  {
    AcceptConserves(e, self, call);
  }

  /** The state after logging `event` about an entry that became `after`. */
  lemma LogExtends(s: Chain, id: Symbol, after: Entry, event: Event)
    requires LogComplete(s) && event.id == id
    requires Matches(Update(Known(Rebuild(s.events), id), event), after)
    ensures LogComplete(s.(entries := s.entries[id := after], events := s.events + [event]))
  {
    Appended(s.self, s.events, event);
  }

  lemma FundLogged(s: Chain, signers: set<Address>, call: Call)
    requires Inv(s) && LogComplete(s) && call.Fund? && Apply(s, signers, call).1.Ok?
    ensures var s' := Apply(s, signers, call).0;
            LogComplete(s') && forall token, who ::
              s'.ledger.Balance(token, who) - s.ledger.Balance(token, who)
              == NetFlow(s.self, s'.events, token, who) - NetFlow(s.self, s.events, token, who)
  {
    var s' := Apply(s, signers, call).0;
    var event := FundEvent(call.id, call.caller, call.freelancer, call.amount, call.token);
    Appended(s.self, s.events, event);
    LogExtends(s, call.id, s'.entries[call.id], event);
    CallMoves(s, signers, call);
    assert LogComplete(s');
  }

  /** An event that matches two payouts accounts for exactly what they move. */
  lemma PayoutLogged(s: Chain, id: Symbol, after: Entry, event: Event, toFreelancer: nat, toClient: nat, paid: Ledger)
    requires LogComplete(s) && id in s.entries && event.id == id && !event.FundEvent?
    requires PayBoth(s.ledger, s.self, s.entries[id], toFreelancer, toClient) == Some(paid)
    requires var v := Rebuild(s.events)[id];
             var v' := Update(v, event);
             Matches(v', after) && v'.token == v.token
             && v'.freelancer == v.freelancer && v'.client == v.client
             && v'.toFreelancer == v.toFreelancer + toFreelancer && v'.toClient == v.toClient + toClient
    ensures LogComplete(s.(entries := s.entries[id := after], ledger := paid, events := s.events + [event]))
    ensures forall token, who ::
              paid.Balance(token, who) - s.ledger.Balance(token, who)
              == NetFlow(s.self, s.events + [event], token, who) - NetFlow(s.self, s.events, token, who)
  {
    hide Rebuild, Update, NetFlow, EventFlow, PayoutFlow, PayBoth, Flow;
    Appended(s.self, s.events, event);
    LogExtends(s, id, after, event);
    PayBothMoves(s.ledger, s.self, s.entries[id], toFreelancer, toClient);
    forall token, who
      ensures EventFlow(s.self, Rebuild(s.events)[id], event, token, who)
           == PayoutFlow(s.self, s.entries[id], toFreelancer, toClient, token, who)
    {
      FlowsMatch(s.self, Rebuild(s.events)[id], s.entries[id], event, toFreelancer, toClient, token, who);
    }
  }

  lemma FlowsMatch(self: Address, v: View, e: Entry, event: Event, toFreelancer: nat, toClient: nat,
                   token: Address, who: Address)
    requires !event.FundEvent? && v.client == e.client && v.freelancer == e.freelancer && v.token == e.token
    requires var v' := Update(v, event);
             && v'.token == v.token && v'.freelancer == v.freelancer && v'.client == v.client
             && v'.toFreelancer == v.toFreelancer + toFreelancer && v'.toClient == v.toClient + toClient
    ensures EventFlow(self, v, event, token, who) == PayoutFlow(self, e, toFreelancer, toClient, token, who)
  {
    hide Update;
  }

  lemma SettleLogged(s: Chain, signers: set<Address>, call: Call)
    requires Inv(s) && LogComplete(s) && !call.Fund? && Apply(s, signers, call).1.Ok?
    ensures var s' := Apply(s, signers, call).0;
            LogComplete(s') && forall token, who ::
              s'.ledger.Balance(token, who) - s.ledger.Balance(token, who)
              == NetFlow(s.self, s'.events, token, who) - NetFlow(s.self, s.events, token, who)
  {
    var s' := Apply(s, signers, call).0;
    var e := s.entries[call.id];
    var v := Judge(e, call);
    AcceptMatches(Rebuild(s.events)[call.id], e, s.self, call);
    PayoutLogged(s, call.id, v.after, v.event, v.toFreelancer, v.toClient, s'.ledger);
  }

  /** One step keeps the log complete, and moves exactly the tokens its event says. */
  lemma StepLogged(s: Chain, step: Step)
    requires Inv(s) && LogComplete(s) && Possible(s.self, step)
    ensures LogComplete(Next(s, step))
    ensures step.Outside? ==> Next(s, step).events == s.events
    ensures step.Invoke? ==>
              forall token, who ::
                Next(s, step).ledger.Balance(token, who) - s.ledger.Balance(token, who)
                == NetFlow(s.self, Next(s, step).events, token, who) - NetFlow(s.self, s.events, token, who)
  {
    if step.Invoke? && Apply(s, step.signers, step.call).1.Ok? {
      if step.call.Fund? {
        FundLogged(s, step.signers, step.call);
      } else {
        SettleLogged(s, step.signers, step.call);
      }
    }
  }

  /** What the rest of the network moved, step by step. */
  function OutsideFlow(s: Chain, steps: seq<Step>, token: Address, who: Address): int
    decreases |steps|
  {
    if steps == [] then 0
    else
      var s' := Next(s, steps[0]);
      (if steps[0].Outside? then s'.ledger.Balance(token, who) - s.ledger.Balance(token, who) else 0)
      + OutsideFlow(s', steps[1..], token, who)
  }

  lemma {:induction false} RunLogged(s: Chain, steps: seq<Step>)
    requires Inv(s) && LogComplete(s) && AllPossible(s.self, steps)
    ensures LogComplete(Run(s, steps))
    ensures forall token, who ::
              Run(s, steps).ledger.Balance(token, who) - NetFlow(s.self, Run(s, steps).events, token, who)
              == s.ledger.Balance(token, who) - NetFlow(s.self, s.events, token, who)
                 + OutsideFlow(s, steps, token, who)
    decreases |steps|
  {
    if steps != [] {
      StepSurplus(s, steps[0]);
      StepLogged(s, steps[0]);
      RunLogged(Next(s, steps[0]), steps[1..]);
    }
  }

  /**
   * The log is complete: from deployment on, folding it rebuilds every entry, and
   * the balance of every address is what it started with, plus what others moved,
   * plus what the events say.
   */
  lemma LogTellsAll(s: Chain, steps: seq<Step>)
    requires Initial(s) && AllPossible(s.self, steps)
    ensures LogComplete(Run(s, steps))
    ensures forall token, who ::
              Run(s, steps).ledger.Balance(token, who)
              == s.ledger.Balance(token, who) + OutsideFlow(s, steps, token, who)
                 + NetFlow(s.self, Run(s, steps).events, token, who)
  {
    InitialInv(s);
    RunLogged(s, steps);
  }

  /** The admin is the one field no event carries: two chains with one log can disagree on it. */
  lemma AdminNotLogged(s: Chain, fund: Call, other: Address)
    requires fund.Fund? && fund.admin != other && Apply(s, {fund.caller}, fund).1.Ok?
    ensures var a := Apply(s, {fund.caller}, fund).0;
            var b := Apply(s, {fund.caller}, fund.(admin := other)).0;
            a.events == b.events && a.entries[fund.id].admin != b.entries[fund.id].admin
  {
  }

  // ---- who can get what back ----

  lemma OthersRefundNothing(e: Entry, self: Address, call: Call)
    requires !call.Fund? && EntryOk(e, self) && Judge(e, call).Accept?
    requires call.caller != e.freelancer && call.caller != e.admin
    ensures Judge(e, call).toClient == 0
    ensures Judge(e, call).after.freelancer == e.freelancer && Judge(e, call).after.admin == e.admin
  {
  }

  /** An accepted call adds its payouts to the view of its own entry. */
  lemma SettleView(s: Chain, signers: set<Address>, call: Call)
    requires Inv(s) && LogComplete(s) && !call.Fund? && Apply(s, signers, call).1.Ok?
    ensures var (v, j) := (Rebuild(s.events)[call.id], Judge(s.entries[call.id], call));
            && j.Accept?
            && Known(Rebuild(Apply(s, signers, call).0.events), call.id) == Update(v, j.event)
            && Update(v, j.event).toClient == v.toClient + j.toClient
  {
    AcceptMatches(Rebuild(s.events)[call.id], s.entries[call.id], s.self, call);
    Appended(s.self, s.events, Judge(s.entries[call.id], call).event);
  }

  lemma OneEvent(s: Chain, signers: set<Address>, call: Call, id: Symbol)
    requires Apply(s, signers, call).1.Ok? && call.id != id
    ensures var s' := Apply(s, signers, call).0;
            && |s'.events| == |s.events| + 1
            && s'.events == s.events + [s'.events[|s.events|]] && s'.events[|s.events|].id == call.id
            && (id in s.entries ==> id in s'.entries && s'.entries[id] == s.entries[id])
  {
  }

  lemma OtherView(s: Chain, signers: set<Address>, call: Call, id: Symbol)
    requires Apply(s, signers, call).1.Ok? && call.id != id
    ensures var s' := Apply(s, signers, call).0;
            && Known(Rebuild(s'.events), id) == Known(Rebuild(s.events), id)
            && (id in s.entries ==> id in s'.entries && s'.entries[id] == s.entries[id])
  {
    hide Apply, Rebuild, Update, NetFlow, EventFlow;
    OneEvent(s, signers, call, id);
    Appended(s.self, s.events, Apply(s, signers, call).0.events[|s.events|]);
  }

  lemma LogKept(s: Chain, step: Step)
    requires Inv(s) && LogComplete(s) && Possible(s.self, step)
    ensures LogComplete(Next(s, step))
  {
    StepLogged(s, step);
  }

  /** A call by others than an entry's freelancer and admin returns nothing of it to the client. */
  lemma StepReturnsNothing(s: Chain, step: Step, id: Symbol)
    requires Inv(s) && LogComplete(s) && Possible(s.self, step) && id in s.entries
    requires step.Invoke? ==> s.entries[id].freelancer !in step.signers && s.entries[id].admin !in step.signers
    ensures id in Next(s, step).entries && LogComplete(Next(s, step))
    ensures Next(s, step).entries[id].freelancer == s.entries[id].freelancer
    ensures Next(s, step).entries[id].admin == s.entries[id].admin
    ensures Rebuild(Next(s, step).events)[id].toClient == Rebuild(s.events)[id].toClient
  {
    LogKept(s, step);
    if step.Invoke? && Apply(s, step.signers, step.call).1.Ok? {
      if step.call.id == id {
        SettleView(s, step.signers, step.call);
        OthersRefundNothing(s.entries[id], s.self, step.call);
      } else {
        OtherView(s, step.signers, step.call, id);
      }
    }
  }

  /** The client cannot get money back alone, whatever it signs and whoever else joins in. */
  lemma {:induction false} NoSelfRefund(s: Chain, steps: seq<Step>, id: Symbol)
    requires Inv(s) && LogComplete(s) && AllPossible(s.self, steps) && id in s.entries
    requires forall step :: step in steps && step.Invoke? ==>
               s.entries[id].freelancer !in step.signers && s.entries[id].admin !in step.signers
    ensures id in Run(s, steps).entries && LogComplete(Run(s, steps))
    ensures Rebuild(Run(s, steps).events)[id].toClient == Rebuild(s.events)[id].toClient
    decreases |steps|
  {
    if steps != [] {
      assert steps[0] in steps;
      StepSurplus(s, steps[0]);
      StepReturnsNothing(s, steps[0], id);
      NoSelfRefund(Next(s, steps[0]), steps[1..], id);
    }
  }

  lemma OthersPayNothing(e: Entry, self: Address, call: Call)
    requires !call.Fund? && EntryOk(e, self) && Judge(e, call).Accept?
    requires call.caller != e.client && call.caller != e.admin
    ensures Judge(e, call).toFreelancer == 0
    ensures Judge(e, call).after.(status := e.status) == e
  {
  }

  /** An accepted call adds what it pays the freelancer to the view of its own entry. */
  lemma SettlePays(s: Chain, signers: set<Address>, call: Call)
    requires Inv(s) && LogComplete(s) && !call.Fund? && Apply(s, signers, call).1.Ok?
    ensures var (v, j, s') := (Rebuild(s.events)[call.id], Judge(s.entries[call.id], call), Apply(s, signers, call).0);
            && j.Accept? && call.id in s'.entries && s'.entries[call.id] == j.after
            && Known(Rebuild(s'.events), call.id).toFreelancer == v.toFreelancer + j.toFreelancer
  {
    AcceptMatches(Rebuild(s.events)[call.id], s.entries[call.id], s.self, call);
    Appended(s.self, s.events, Judge(s.entries[call.id], call).event);
  }

  /** A call by others than an entry's client and admin pays nothing of it to the freelancer. */
  lemma StepPaysNothing(s: Chain, step: Step, id: Symbol)
    requires Inv(s) && LogComplete(s) && Possible(s.self, step) && id in s.entries
    requires step.Invoke? ==> s.entries[id].client !in step.signers && s.entries[id].admin !in step.signers
    ensures id in Next(s, step).entries && LogComplete(Next(s, step))
    ensures Next(s, step).entries[id].(status := s.entries[id].status) == s.entries[id]
    ensures Rebuild(Next(s, step).events)[id].toFreelancer == Rebuild(s.events)[id].toFreelancer
  {
    LogKept(s, step);
    if step.Invoke? && Apply(s, step.signers, step.call).1.Ok? {
      if step.call.id == id {
        SettlePays(s, step.signers, step.call);
        OthersPayNothing(s.entries[id], s.self, step.call);
      } else {
        OtherView(s, step.signers, step.call, id);
      }
    }
  }

  /** Nor can the freelancer get itself paid, whatever it signs and whoever else joins in. */
  lemma {:induction false} NoSelfPayment(s: Chain, steps: seq<Step>, id: Symbol)
    requires Inv(s) && LogComplete(s) && AllPossible(s.self, steps) && id in s.entries
    requires forall step :: step in steps && step.Invoke? ==>
               s.entries[id].client !in step.signers && s.entries[id].admin !in step.signers
    ensures id in Run(s, steps).entries && LogComplete(Run(s, steps))
    ensures Rebuild(Run(s, steps).events)[id].toFreelancer == Rebuild(s.events)[id].toFreelancer
    ensures Run(s, steps).entries[id].(status := s.entries[id].status) == s.entries[id]
    decreases |steps|
  {
    if steps != [] {
      assert steps[0] in steps;
      StepSurplus(s, steps[0]);
      StepPaysNothing(s, steps[0], id);
      NoSelfPayment(Next(s, steps[0]), steps[1..], id);
    }
  }
}
