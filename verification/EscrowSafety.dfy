// Runs of the escrow contract among other token traffic: solvency, authority,
// freedom from stuck funds, and termination.

module EscrowSafety {
  import opened Sums
  import opened TokenLedger
  import opened EscrowSpec

  /** One thing that happens on the network. The contract's own address can sign nothing. */
  datatype Step =
    | Invoke(signers: set<Address>, call: Call)
    | Outside(op: TokenOp)

  predicate Possible(self: Address, step: Step) {
    match step
    case Invoke(signers, _) => self !in signers
    case Outside(op) => Signer(op) != Some(self)
  }

  function Next(s: Chain, step: Step): Chain {
    match step
    case Invoke(signers, call) => Apply(s, signers, call).0
    case Outside(op) => s.(ledger := Perform(s.ledger, op))
  }

  function Run(s: Chain, steps: seq<Step>): Chain
    decreases |steps|
  {
    if steps == [] then s else Run(Next(s, steps[0]), steps[1..])
  }

  ghost predicate AllPossible(self: Address, steps: seq<Step>) {
    forall step :: step in steps ==> Possible(self, step)
  }

  ghost predicate Initial(s: Chain) {
    s.entries == map[] && s.events == [] && NothingApproved(s)
  }

  // ---- solvency ----

  /** What the contract's balance exceeds its obligations by. */
  ghost function Surplus(s: Chain, token: Address): int {
    s.ledger.Balance(token, s.self) - Held(s.entries, token)
  }

  /** What a step gives the contract beyond its obligations: a direct deposit, or a payout to itself. */
  function Gift(s: Chain, step: Step, token: Address): int {
    match step
    case Outside(op) => Perform(s.ledger, op).Balance(token, s.self) - s.ledger.Balance(token, s.self)
    case Invoke(signers, call) =>
      if Apply(s, signers, call).1.Ok? && !call.Fund? && s.entries[call.id].freelancer == s.self
         && s.entries[call.id].token == token
      then Judge(s.entries[call.id], call).toFreelancer
      else 0
  }

  function Gifts(s: Chain, steps: seq<Step>, token: Address): int
    decreases |steps|
  {
    if steps == [] then 0 else Gift(s, steps[0], token) + Gifts(Next(s, steps[0]), steps[1..], token)
  }

  /** How a successful call moves tokens and allowances. */
  lemma CallMoves(s: Chain, signers: set<Address>, call: Call)
    requires EntriesOk(s) && Apply(s, signers, call).1.Ok?
    ensures var s' := Apply(s, signers, call).0;
            if call.Fund? then
              && Moved(s.ledger, s'.ledger, call.token, call.caller, s.self, call.amount)
              && forall t, o, sp :: s'.ledger.Allowance(t, o, sp) <= s.ledger.Allowance(t, o, sp)
            else
              var (e, v) := (s.entries[call.id], Judge(s.entries[call.id], call));
              && v.Accept? && EntryOk(v.after, s.self)
              && v.toFreelancer + v.toClient == Backing(e, e.token) - Backing(v.after, e.token)
              && s'.ledger.allowances == s.ledger.allowances
              && forall t, who ::
                s'.ledger.Balance(t, who)
                == s.ledger.Balance(t, who) + PayoutFlow(s.self, e, v.toFreelancer, v.toClient, t, who)
  {
    if call.Fund? {
      TransferFromMoves(s.ledger, call.token, s.self, call.caller, s.self, call.amount);
    } else {
      var (e, v) := (s.entries[call.id], Judge(s.entries[call.id], call));
      AcceptConserves(e, s.self, call);
      PayBothMoves(s.ledger, s.self, e, v.toFreelancer, v.toClient);
    }
  }

  /** Other token traffic: the escrow loses nothing, and whatever it gains is a gift. */
  lemma OutsideSurplus(s: Chain, op: TokenOp, token: Address)
    requires Inv(s) && Signer(op) != Some(s.self)
    ensures var s' := Next(s, Outside(op));
            && Gift(s, Outside(op), token) >= 0
            && Surplus(s', token) == Surplus(s, token) + Gift(s, Outside(op), token)
            && Held(s'.entries, token) <= s'.ledger.Balance(token, s.self)
  {
    UnsignedNeverLoses(s.ledger, op, s.self);
    assert Held(s.entries, token) <= s.ledger.Balance(token, s.self);
    hide Held, Perform;
  }

  /** Funding adds to the balance what it adds to the obligations. */
  lemma FundSurplus(s: Chain, signers: set<Address>, call: Call, token: Address)
    requires EntriesOk(s) && s.self !in signers && call.Fund? && Apply(s, signers, call).1.Ok?
    ensures Surplus(Apply(s, signers, call).0, token) == Surplus(s, token)
  {
    var s' := Apply(s, signers, call).0;
    CallMoves(s, signers, call);
    HeldPut(s.entries, call.id, s'.entries[call.id], token);
    hide Held, EntriesOk;
  }

  /** A payout takes from the balance what the entry stops holding, but for what it pays the contract itself. */
  lemma PayoutSurplus(s: Chain, signers: set<Address>, call: Call, token: Address)
    requires EntriesOk(s) && !call.Fund? && Apply(s, signers, call).1.Ok?
    ensures var gift := Gift(s, Invoke(signers, call), token);
            gift >= 0 && Surplus(Apply(s, signers, call).0, token) == Surplus(s, token) + gift
  {
    var s' := Apply(s, signers, call).0;
    assert EntryOk(s.entries[call.id], s.self);
    assert s'.entries == s.entries[call.id := Judge(s.entries[call.id], call).after];
    CallMoves(s, signers, call);
    HeldPut(s.entries, call.id, s'.entries[call.id], token);
    PayoutKeeps(s.entries[call.id], Judge(s.entries[call.id], call).after);
    hide Held, Judge, EntriesOk;
  }

  /** Only the entry's own token is concerned. */
  lemma PayoutKeeps(e: Entry, after: Entry)
    requires after.token == e.token
    ensures forall token :: token != e.token ==> Backing(e, token) == 0 == Backing(after, token)
  {
  }

  /** A successful call: what the entries stop holding is what the contract paid out. */
  lemma CallSurplus(s: Chain, signers: set<Address>, call: Call, token: Address)
    requires Inv(s) && s.self !in signers && Apply(s, signers, call).1.Ok?
    ensures var s' := Apply(s, signers, call).0;
            && Gift(s, Invoke(signers, call), token) >= 0
            && Surplus(s', token) == Surplus(s, token) + Gift(s, Invoke(signers, call), token)
            && Held(s'.entries, token) <= s'.ledger.Balance(token, s.self)
  {
    if call.Fund? { FundSurplus(s, signers, call, token); } else { PayoutSurplus(s, signers, call, token); }
    assert Held(s.entries, token) <= s.ledger.Balance(token, s.self);
    assert Apply(s, signers, call).0.self == s.self;
    hide Apply, Held, Judge;
  }

  lemma StepApprovesNothing(s: Chain, step: Step)
    requires Inv(s) && Possible(s.self, step)
    ensures NothingApproved(Next(s, step))
  {
    match step
    case Outside(op) => UnsignedNeverLoses(s.ledger, op, s.self);
    case Invoke(signers, call) =>
      if Apply(s, signers, call).1.Ok? {
        CallMoves(s, signers, call);
        forall token, spender ensures Next(s, step).ledger.Allowance(token, s.self, spender) == 0 {
          assert s.ledger.Allowance(token, s.self, spender) == 0;
        }
      }
  }

  /** What any step does to the balance beyond the obligations: it adds its gift, and never takes. */
  lemma StepSurplus(s: Chain, step: Step)
    requires Inv(s) && Possible(s.self, step)
    ensures Inv(Next(s, step)) && Next(s, step).self == s.self
    ensures forall token :: Gift(s, step, token) >= 0
    ensures forall token :: Surplus(Next(s, step), token) == Surplus(s, token) + Gift(s, step, token)
  {
    var s' := Next(s, step);
    StepApprovesNothing(s, step);
    if step.Invoke? && Apply(s, step.signers, step.call).1.Ok? {
      CallMoves(s, step.signers, step.call);
    }
    forall token
      ensures Gift(s, step, token) >= 0
      ensures Surplus(s', token) == Surplus(s, token) + Gift(s, step, token)
      ensures Held(s'.entries, token) <= s'.ledger.Balance(token, s.self)
    {
      match step
      case Outside(op) => OutsideSurplus(s, op, token);
      case Invoke(signers, call) =>
        if Apply(s, signers, call).1.Ok? {
          CallSurplus(s, signers, call, token);
        } else {
          assert Held(s.entries, token) <= s.ledger.Balance(token, s.self);
        }
    }
    hide Held, Judge, Gift, Perform, NothingApproved;
  }

  lemma CallKeepsInv(s: Chain, signers: set<Address>, call: Call)
    requires Inv(s) && s.self !in signers
    ensures Inv(Apply(s, signers, call).0)
  {
    StepSurplus(s, Invoke(signers, call));
  }

  /**
   * Solvency over every run: the contract can always cover what its live
   * entries still hold, and its surplus is exactly what it was given.
   */
  lemma {:induction false} RunSurplus(s: Chain, steps: seq<Step>)
    requires Inv(s) && AllPossible(s.self, steps)
    ensures Inv(Run(s, steps)) && Run(s, steps).self == s.self
    ensures forall token :: Gifts(s, steps, token) >= 0
    ensures forall token :: Surplus(Run(s, steps), token) == Surplus(s, token) + Gifts(s, steps, token)
    decreases |steps|
  {
    if steps != [] {
      StepSurplus(s, steps[0]);
      RunSurplus(Next(s, steps[0]), steps[1..]);
    }
  }

  lemma InitialInv(s: Chain)
    requires Initial(s)
    ensures Inv(s)
    ensures forall token :: Held(s.entries, token) == 0
  {
    forall token ensures Held(s.entries, token) == 0 {
      HeldNone(s.entries, token);
    }
  }

  /** Solvency from deployment on, with the exact balance. */
  lemma SolvencyOverRuns(s: Chain, steps: seq<Step>, token: Address)
    requires Initial(s) && AllPossible(s.self, steps)
    ensures var f := Run(s, steps);
            && Held(f.entries, token) <= f.ledger.Balance(token, s.self)
            && f.ledger.Balance(token, s.self)
               == Held(f.entries, token) + s.ledger.Balance(token, s.self) + Gifts(s, steps, token)
  {
    InitialInv(s);
    RunSurplus(s, steps);
    assert Surplus(Run(s, steps), token) == Surplus(s, token) + Gifts(s, steps, token);
    assert Gifts(s, steps, token) >= 0;
  }

  /** Nobody sends the contract tokens directly, and nobody hires the contract itself. */
  predicate GivesNothing(self: Address, step: Step) {
    match step
    case Outside(op) => Recipient(op) != Some(self)
    case Invoke(_, call) => call.Fund? ==> call.freelancer != self
  }

  lemma {:induction false} NoGifts(s: Chain, steps: seq<Step>, token: Address)
    requires Inv(s) && AllPossible(s.self, steps)
    requires forall step :: step in steps ==> GivesNothing(s.self, step)
    requires forall id :: id in s.entries ==> s.entries[id].freelancer != s.self
    ensures Gifts(s, steps, token) == 0
    decreases |steps|
  {
    if steps != [] {
      StepSurplus(s, steps[0]);
      var s' := Next(s, steps[0]);
      assert GivesNothing(s.self, steps[0]);
      if steps[0].Outside? {
        UnpaidNeverGains(s.ledger, steps[0].op, s.self);
        assert Gift(s, steps[0], token) >= 0;
      } else if Apply(s, steps[0].signers, steps[0].call).1.Ok? && !steps[0].call.Fund? {
        AcceptConserves(s.entries[steps[0].call.id], s.self, steps[0].call);
      }
      NoGifts(s', steps[1..], token);
    }
  }

  /** With no gifts, the pot is exactly what the live entries hold. */
  lemma ExactlyBacked(s: Chain, steps: seq<Step>, token: Address)
    requires Initial(s) && s.ledger.Balance(token, s.self) == 0
    requires AllPossible(s.self, steps)
    requires forall step :: step in steps ==> GivesNothing(s.self, step)
    ensures Run(s, steps).ledger.Balance(token, s.self) == Held(Run(s, steps).entries, token)
  {
    SolvencyOverRuns(s, steps, token);
    InitialInv(s);
    NoGifts(s, steps, token);
  }

  // ---- nothing gets stuck ----

  /**
   * In a reachable state the guards are the only reason a call fails: a signed
   * call the contract accepts always goes through, both payouts included.
   */
  lemma AcceptedGoesThrough(s: Chain, signers: set<Address>, call: Call)
    requires Inv(s) && call.caller in signers && !call.Fund? && call.id in s.entries
    ensures var (s', outcome) := Apply(s, signers, call);
            match Judge(s.entries[call.id], call)
            case Reject(error) => outcome == Err(error) && s' == s
            case Accept(after, _, _, event) =>
              outcome == Ok && s'.entries == s.entries[call.id := after] && s'.events == s.events + [event]
  {
    var e := s.entries[call.id];
    if Judge(e, call).Accept? {
      AcceptConserves(e, s.self, call);
      EntryCovered(s, call.id);
      PayBothMoves(s.ledger, s.self, e, Judge(e, call).toFreelancer, Judge(e, call).toClient);
    }
  }

  /** A funded entry can be paid out by its client alone. */
  lemma ClientCanFinish(s: Chain, id: Symbol)
    requires Inv(s) && id in s.entries && s.entries[id].status.Funded?
    ensures var e := s.entries[id];
            var (s', outcome) := Apply(s, {e.client}, Release(id, e.client));
            && Possible(s.self, Invoke({e.client}, Release(id, e.client)))
            && outcome == Ok && s'.entries[id].status == Released
  {
    AcceptedGoesThrough(s, {s.entries[id].client}, Release(id, s.entries[id].client));
  }

  /** A disputed entry changes in one step only by its own admin's resolution. */
  lemma DisputedNeedsAdmin(s: Chain, id: Symbol, step: Step)
    requires Inv(s) && Possible(s.self, step)
    requires id in s.entries && s.entries[id].status.Disputed?
    ensures id in Next(s, step).entries
    ensures Next(s, step).entries[id] != s.entries[id] ==>
              step.Invoke? && step.call.Resolve? && s.entries[id].admin in step.signers
  {
    if step.Invoke? && step.call.id == id && !step.call.Fund? && Apply(s, step.signers, step.call).1.Ok? {
      assert Judge(s.entries[id], step.call).Accept?;
    }
  }

  /**
   * A disputed entry can be settled exactly when its admin is not the escrow
   * contract itself, an address `fund` accepts but which can never sign.
   */
  lemma AdminCanFinish(s: Chain, id: Symbol)
    requires Inv(s) && id in s.entries && s.entries[id].status.Disputed?
    ensures s.entries[id].admin != s.self
       <==> exists step :: Possible(s.self, step) && id in Next(s, step).entries && !Live(Next(s, step).entries[id])
    ensures s.entries[id].admin != s.self ==>
              forall d: Decision | d != Split ::
                Apply(s, {s.entries[id].admin}, Resolve(id, s.entries[id].admin, d, 0)).1 == Ok
  {
    var admin := s.entries[id].admin;
    if admin != s.self {
      forall d: Decision | d != Split
        ensures Apply(s, {admin}, Resolve(id, admin, d, 0)).1 == Ok
      {
        AcceptedGoesThrough(s, {admin}, Resolve(id, admin, d, 0));
      }
      var step := Invoke({admin}, Resolve(id, admin, RefundToClient, 0));
      AcceptedGoesThrough(s, {admin}, step.call);
      assert Possible(s.self, step) && !Live(Next(s, step).entries[id]);
    }
    forall step | Possible(s.self, step) {
      DisputedNeedsAdmin(s, id, step);
    }
  }

  /** An entry whose admin is the contract stays frozen for good once disputed. */
  lemma {:induction false} SelfAdminFreezes(s: Chain, steps: seq<Step>, id: Symbol)
    requires Inv(s) && AllPossible(s.self, steps)
    requires id in s.entries && s.entries[id].status.Disputed? && s.entries[id].admin == s.self
    ensures id in Run(s, steps).entries && Run(s, steps).entries[id] == s.entries[id]
    decreases |steps|
  {
    if steps != [] {
      StepSurplus(s, steps[0]);
      DisputedNeedsAdmin(s, id, steps[0]);
      SelfAdminFreezes(Next(s, steps[0]), steps[1..], id);
    }
  }

  /** Such an entry is two calls by its client away from deployment. */
  lemma SelfAdminReachable(s: Chain, id: Symbol, client: Address, freelancer: Address, amount: i128, token: Address)
    requires Initial(s) && client != s.self && amount > 0
    requires amount <= s.ledger.Balance(token, client) && amount <= s.ledger.Allowance(token, client, s.self)
    ensures var steps := [Invoke({client}, Fund(id, client, freelancer, s.self, amount, token)),
                          Invoke({client}, Dispute(id, client))];
            && AllPossible(s.self, steps)
            && id in Run(s, steps).entries
            && Run(s, steps).entries[id].status.Disputed? && Run(s, steps).entries[id].admin == s.self
  {
    var fund := Invoke({client}, Fund(id, client, freelancer, s.self, amount, token));
    var dispute := Invoke({client}, Dispute(id, client));
    var s1 := Next(s, fund);
    assert [fund, dispute][1..] == [dispute];
    assert Run(s, [fund, dispute]) == Run(s1, [dispute]) == Next(s1, dispute);
  }

  // ---- bounded runs ----

  /** How many more calls an entry can absorb: one per base unit left, and one for a dispute. */
  function Potential(e: Entry): int {
    match e.status
    case Funded => Remaining(e) + 1
    case Disputed => 1
    case _ => 0
  }

  predicate Succeeds(s: Chain, step: Step, id: Symbol) {
    step.Invoke? && step.call.id == id && Apply(s, step.signers, step.call).1.Ok?
  }

  function Successes(s: Chain, steps: seq<Step>, id: Symbol): nat
    decreases |steps|
  {
    if steps == [] then 0
    else (if Succeeds(s, steps[0], id) then 1 else 0) + Successes(Next(s, steps[0]), steps[1..], id)
  }

  lemma StepPotential(s: Chain, step: Step, id: Symbol)
    requires Inv(s) && Possible(s.self, step) && id in s.entries
    ensures id in Next(s, step).entries
    ensures var (e, e') := (s.entries[id], Next(s, step).entries[id]);
            && e'.total == e.total && 0 <= Potential(e')
            && (if Succeeds(s, step, id) then Potential(e') < Potential(e) else e' == e)
  {
    if Succeeds(s, step, id) {
      AcceptConserves(s.entries[id], s.self, step.call);
    }
  }

  lemma {:induction false} RunPotential(s: Chain, steps: seq<Step>, id: Symbol)
    requires Inv(s) && AllPossible(s.self, steps) && id in s.entries
    ensures id in Run(s, steps).entries
    ensures var (e, e') := (s.entries[id], Run(s, steps).entries[id]);
            && e'.total == e.total && 0 <= Potential(e')
            && Successes(s, steps, id) + Potential(e') <= Potential(e)
            && (Successes(s, steps, id) == 0 ==> e' == e)
    decreases |steps|
  {
    StepPotential(s, Outside(Mint("", "", 0)), id);
    if steps != [] {
      StepSurplus(s, steps[0]);
      StepPotential(s, steps[0], id);
      RunPotential(Next(s, steps[0]), steps[1..], id);
    }
  }

  /** One id admits at most `total + 2` successful calls in its whole life. */
  lemma {:induction false} BoundedRuns(s: Chain, steps: seq<Step>, id: Symbol)
    requires Inv(s) && AllPossible(s.self, steps) && id !in s.entries
    ensures var f := Run(s, steps);
            if id in f.entries then Successes(s, steps, id) <= f.entries[id].total + 2
            else Successes(s, steps, id) == 0
    decreases |steps|
  {
    if steps != [] {
      var s' := Next(s, steps[0]);
      StepSurplus(s, steps[0]);
      if id in s'.entries {
        assert Succeeds(s, steps[0], id) && s'.entries[id].released == 0;
        RunPotential(s', steps[1..], id);
      } else {
        BoundedRuns(s', steps[1..], id);
      }
    }
  }

  /** A released, refunded or resolved entry never changes again. */
  lemma TerminalForever(s: Chain, steps: seq<Step>, id: Symbol)
    requires Inv(s) && AllPossible(s.self, steps) && id in s.entries && !Live(s.entries[id])
    ensures id in Run(s, steps).entries && Run(s, steps).entries[id] == s.entries[id]
    ensures Successes(s, steps, id) == 0
  {
    RunPotential(s, steps, id);
  }
}
