// The contract and job endpoints as the service runs them, statement by statement,
// each proved to do what the lockstep model's request does.

module ContractsService {
  import opened Sums
  import opened Backend
  import opened Lockstep
  import opened LockstepRuns
  import E = EscrowSpec

  // ---- the reads that loop ----

  /** The milestones and payments one contract's remainder is reckoned from, one more at a time. */
  lemma OneMoreMilestone(cfg: Config, milestones: map<Id, Milestone>, seen: set<Id>, m: Id, id: Id)
    requires m in milestones && m !in seen && seen <= milestones.Keys
    ensures MilestoneCents(cfg, Restrict(milestones, seen + {m}), id)
         == MilestoneCents(cfg, Restrict(milestones, seen), id)
            + if milestones[m].contractId == id then Cents(cfg, milestones[m].amount) else 0
  {
    assert Restrict(milestones, seen + {m}) == Restrict(milestones, seen)[m := milestones[m]];
    TotalOne(cfg, Restrict(milestones, seen), m, milestones[m], id);
  }

  function Restrict(milestones: map<Id, Milestone>, ids: set<Id>): map<Id, Milestone> {
    map m | m in ids && m in milestones :: milestones[m]
  }

  lemma NothingSeen(cfg: Config, milestones: map<Id, Milestone>, id: Id)
    ensures MilestoneCents(cfg, Restrict(milestones, {}), id) == 0
    ensures Restrict(milestones, milestones.Keys) == milestones
  {
    NothingDue(map m | m in Restrict(milestones, {}) && Restrict(milestones, {})[m].contractId == id ::
                 Cents(cfg, Restrict(milestones, {})[m].amount));
  }

  lemma DrivePayment(cfg: Config, db: Db, chain: E.Chain, id: Id, m: Id, amount: nat, tx: nat)
    ensures var paid := Write(db, WritePaid(id, m, amount, tx));
            Drive(cfg, db, chain, WritePaid(id, m, amount, tx))
            == (if paid != db && AllPaid(paid, id) then Write(paid, WriteCompleted(id)) else paid, chain)
  {
    var paid := Write(db, WritePaid(id, m, amount, tx));
    DriveWrite(cfg, paid, chain, WriteCompleted(id));
    hide Write, AllPaid;
    assert Drive(cfg, paid, chain, ReadPaid(id))
        == if AllPaid(paid, id) then Drive(cfg, paid, chain, WriteCompleted(id)) else (paid, chain);
  }

  class ContractsService {
    const cfg: Config
    var jobs: map<Id, Job>
    var contracts: map<Id, Contract>
    var milestones: map<Id, Milestone>
    var payments: seq<Payment>
    var chain: E.Chain

    function Stored(): Db
      reads this
    {
      Db(jobs, contracts, milestones, payments)
    }

    constructor (cfg: Config, chain: E.Chain)
      ensures this.cfg == cfg && this.chain == chain && Stored() == Db(map[], map[], map[], [])
    {
      this.cfg, this.chain := cfg, chain;
      jobs, contracts, milestones, payments := map[], map[], map[], [];
    }

    /** A transaction that broke a rule. */
    method Rollback(db: Db)
      modifies this`jobs, this`contracts, this`milestones, this`payments
      ensures Stored() == db
    {
      jobs, contracts, milestones, payments := db.jobs, db.contracts, db.milestones, db.payments;
    }

    /** One signed invocation, to its confirmed end; the hash is the position of its event. */
    method Submit(call: E.Call) returns (tx: Option<nat>)
      modifies this`chain
      ensures var (after, outcome) := E.Apply(old(chain), {call.caller} - {old(chain.self)}, call);
              chain == after && tx == if outcome.Ok? then Some(|old(chain.events)|) else None
      ensures tx.None? ==> chain == old(chain)
    {
      var (after, outcome) := E.Apply(chain, {call.caller} - {chain.self}, call);
      tx := if outcome.Ok? then Some(|chain.events|) else None;
      chain := after;
    }

    method RemainingAmount(contractId: Id) returns (remaining: nat)
      ensures remaining == DbRemaining(cfg, Stored(), contractId)
    {
      var totalCents, paidCents := 0, 0;
      var left := milestones.Keys;
      NothingSeen(cfg, milestones, contractId);
      assert milestones.Keys - left == {};
      while left != {}
        invariant left <= milestones.Keys
        invariant totalCents == MilestoneCents(cfg, Restrict(milestones, milestones.Keys - left), contractId)
        decreases |left|
      {
        var m :| m in left;
        OneMoreMilestone(cfg, milestones, milestones.Keys - left, m, contractId);
        assert milestones.Keys - (left - {m}) == milestones.Keys - left + {m};
        if milestones[m].contractId == contractId {
          totalCents := totalCents + Cents(cfg, milestones[m].amount);
        }
        left := left - {m};
      }
      assert milestones.Keys - left == milestones.Keys;
      for i := 0 to |payments|
        invariant paidCents == PaymentCents(cfg, payments[..i], contractId)
      {
        assert payments[..i + 1] == payments[..i] + [payments[i]];
        PaymentAppend(cfg, payments[..i], payments[i], contractId);
        if payments[i].contractId == contractId {
          paidCents := paidCents + Cents(cfg, payments[i].amount);
        }
      }
      assert payments[..|payments|] == payments;
      remaining := if totalCents - paidCents > 0 then totalCents - paidCents else 0;
    }

    method MaybeCompleteContract(contractId: Id)
      requires contractId in contracts
      modifies this`contracts
      ensures Stored() == if AllPaid(old(Stored()), contractId) then Write(old(Stored()), WriteCompleted(contractId))
                          else old(Stored())
    {
      var every, left := true, milestones.Keys;
      while left != {}
        invariant left <= milestones.Keys
        invariant every <==> forall m :: m in milestones && m !in left && milestones[m].contractId == contractId ==>
                                           milestones[m].status == PAID
        decreases |left|
      {
        var m :| m in left;
        every := every && (milestones[m].contractId == contractId ==> milestones[m].status == PAID);
        left := left - {m};
      }
      assert every <==> AllPaid(Stored(), contractId);
      if every {
        contracts := contracts[contractId := contracts[contractId].(status := COMPLETED)];
      }
    }

    // ---- jobs ----

    method CreateJob(jobId: Id, callerId: Id) returns (ok: bool)
      modifies this
      ensures (Stored(), chain) == Served(cfg, old(Stored()), old(chain), Request.CreateJob(jobId, callerId))
      ensures ok <==> Stored() != old(Stored())
    {
      DriveWrite(cfg, Stored(), chain, WriteJob(jobId, Job(callerId, OPEN)));
      if jobId in jobs { return false; }
      jobs := jobs[jobId := Job(callerId, OPEN)];
      return true;
    }

    method CancelJob(jobId: Id, callerId: Id, role: Role) returns (ok: bool)
      modifies this
      ensures (Stored(), chain) == Served(cfg, old(Stored()), old(chain), Request.CancelJob(jobId, callerId, role))
      ensures ok <==> Stored() != old(Stored())
      ensures ok ==> jobId in old(jobs) && (callerId == old(jobs)[jobId].clientId || role == ADMIN)
    {
      if jobId !in jobs { return false; }
      var job := jobs[jobId];
      if job.clientId != callerId && role != ADMIN { return false; }
      if job.status.JOB_COMPLETED? || job.status.JOB_CANCELLED? { return false; }
      if JobTaken(Stored(), jobId) { return false; }
      DriveWrite(cfg, Stored(), chain, DropJob(jobId));
      jobs := jobs[jobId := job.(status := JOB_CANCELLED)];
      return true;
    }

    // ---- contracts ----

    method Create(request: Request) returns (ok: bool)
      requires request.Create?
      modifies this
      ensures (Stored(), chain) == Served(cfg, old(Stored()), old(chain), request)
      ensures ok <==> Stored() != old(Stored())
      ensures ok ==> request.jobId in old(jobs) && request.caller == old(jobs)[request.jobId].clientId
    {
      var Create(callerId, jobId, freelancerId, contractId, milestoneIds, amounts) := request;
      if jobId !in jobs || jobs[jobId].clientId != callerId { return false; }
      if !jobs[jobId].status.OPEN? || JobTaken(Stored(), jobId) { return false; }
      DriveWrite(cfg, Stored(), chain, WriteContract(request));
      if !CanCreate(Stored(), request) { return false; }
      contracts := contracts[contractId := Contract(jobId, callerId, freelancerId, PENDING, None)];
      ghost var before := milestones;
      for i := 0 to |milestoneIds|
        invariant milestones == WithMilestones(before, contractId, milestoneIds[..i], amounts[..i])
        invariant (jobs, contracts, payments, chain)
               == old((jobs, contracts[contractId := Contract(jobId, callerId, freelancerId, PENDING, None)],
                       payments, chain))
      {
        assert milestoneIds[..i + 1][..i] == milestoneIds[..i] && amounts[..i + 1][..i] == amounts[..i];
        milestones := milestones[milestoneIds[i] := Milestone(contractId, amounts[i], TODO)];
      }
      assert milestoneIds[..|milestoneIds|] == milestoneIds && amounts[..|milestoneIds|] == amounts;
      jobs := jobs[jobId := jobs[jobId].(status := IN_PROGRESS)];
      assert contractId in contracts && contractId !in old(contracts);
      return true;
    }

    method ConfirmFund(contractId: Id, callerId: Id, txHash: nat) returns (ok: bool)
      modifies this
      ensures (Stored(), chain)
           == Served(cfg, old(Stored()), old(chain), Request.ConfirmFund(contractId, callerId, txHash))
      ensures ok <==> Stored() != old(Stored())
      ensures ok ==> contractId in old(contracts) && callerId == old(contracts)[contractId].clientId
    {
      if contractId !in contracts { return false; }
      var contract := contracts[contractId];
      if contract.clientId != callerId || contract.escrowTx.Some? { return false; }
      if contract.status != PENDING && contract.status != ACTIVE { return false; }
      DriveWrite(cfg, Stored(), chain, WriteFunded(contractId, txHash));
      if EscrowTxTaken(Stored(), contractId, txHash) { return false; }
      contracts := contracts[contractId := contract.(escrowTx := Some(txHash), status := ACTIVE)];
      assert contracts[contractId] != old(contracts)[contractId];
      return true;
    }

    method SubmitMilestone(contractId: Id, milestoneId: Id, callerId: Id) returns (ok: bool)
      modifies this
      ensures (Stored(), chain)
           == Served(cfg, old(Stored()), old(chain), Request.SubmitMilestone(contractId, milestoneId, callerId))
      ensures ok <==> Stored() != old(Stored())
      ensures ok ==> contractId in old(contracts) && callerId == old(contracts)[contractId].freelancerId
    {
      if contractId !in contracts { return false; }
      var contract := contracts[contractId];
      if contract.freelancerId != callerId || contract.status != ACTIVE { return false; }
      if !HasMilestone(Stored(), contractId, milestoneId) { return false; }
      if milestones[milestoneId].status != TODO { return false; }
      DriveWrite(cfg, Stored(), chain, WriteSubmitted(milestoneId));
      milestones := milestones[milestoneId := milestones[milestoneId].(status := IN_REVIEW)];
      assert milestones[milestoneId] != old(milestones)[milestoneId];
      return true;
    }

    method ApproveMilestone(contractId: Id, milestoneId: Id, callerId: Id) returns (ok: bool)
      modifies this
      ensures (Stored(), chain)
           == Served(cfg, old(Stored()), old(chain), Request.ApproveMilestone(contractId, milestoneId, callerId))
      ensures ok <==> Stored() != old(Stored())
      ensures ok ==> contractId in old(contracts) && callerId == old(contracts)[contractId].clientId
    {
      if contractId !in contracts { return false; }
      var contract := contracts[contractId];
      if contract.clientId != callerId || contract.status != ACTIVE { return false; }
      if !HasMilestone(Stored(), contractId, milestoneId) { return false; }
      var milestone := milestones[milestoneId];
      if milestone.status != IN_REVIEW { return false; }
      var stroops := E.Checked(Cents(cfg, milestone.amount));
      if stroops.None? { return false; }
      var txHash := Submit(E.ReleaseMilestone(Key(contractId), cfg.admin, stroops.value));
      ReleaseAdvance(cfg, old(Stored()), old(chain), contractId, milestoneId, milestone.amount);
      if txHash.None? { return false; }
      DrivePayment(cfg, old(Stored()), chain, contractId, milestoneId, milestone.amount, txHash.value);
      ok := PayMilestone(contractId, milestoneId, milestone.amount, txHash.value);
      if ok { MaybeCompleteContract(contractId); }
    }

    method PayMilestone(contractId: Id, milestoneId: Id, amount: nat, txHash: nat) returns (ok: bool)
      requires milestoneId in milestones
      modifies this`jobs, this`contracts, this`milestones, this`payments
      ensures Stored() == Write(old(Stored()), WritePaid(contractId, milestoneId, amount, txHash))
      ensures contracts == old(contracts)
      ensures if ok then payments == old(payments) + [Payment(contractId, Some(milestoneId), amount, txHash)]
              else Stored() == old(Stored())
    {
      var (before, p) := (Stored(), Payment(contractId, Some(milestoneId), amount, txHash));
      milestones := milestones[milestoneId := milestones[milestoneId].(status := PAID)];
      ok := CanRecord(payments, p);
      if ok { payments := payments + [p]; } else { Rollback(before); }
    }

    method Dispute(contractId: Id, callerId: Id, signer: E.Symbol) returns (ok: bool)
      modifies this
      ensures (Stored(), chain) == Served(cfg, old(Stored()), old(chain), Request.Dispute(contractId, callerId, signer))
      ensures ok <==> Stored() != old(Stored())
      ensures ok ==> contractId in old(contracts) && var contract := old(contracts)[contractId];
                callerId in {contract.clientId, contract.freelancerId}
    {
      if contractId !in contracts { return false; }
      var contract := contracts[contractId];
      if contract.clientId != callerId && contract.freelancerId != callerId { return false; }
      if contract.status != ACTIVE { return false; }
      DriveDispute(cfg, Stored(), chain, contractId, signer);
      DriveWrite(cfg, Stored(), chain, WriteDisputed(contractId));
      if contract.escrowTx.Some? {
        var txHash := Submit(E.Dispute(Key(contractId), signer));
        if txHash.None? { return false; }
      }
      contracts := contracts[contractId := contract.(status := DISPUTED)];
      assert contracts[contractId] != old(contracts)[contractId];
      return true;
    }

    method ResolveDispute(contractId: Id, role: Role, decision: E.Decision, bps: E.u32) returns (ok: bool)
      modifies this
      ensures (Stored(), chain)
           == Served(cfg, old(Stored()), old(chain), Request.ResolveDispute(contractId, role, decision, bps))
      ensures ok <==> Stored() != old(Stored())
      ensures ok ==> contractId in old(contracts) && role == ADMIN
    {
      hide DbRemaining, E.Apply, E.Judge, Key;
      if role != ADMIN || contractId !in contracts { return false; }
      if contracts[contractId].status != DISPUTED { return false; }
      DriveResolve(cfg, Stored(), chain, contractId, decision, bps);
      var txHash := Submit(E.Resolve(Key(contractId), cfg.admin, decision, bps));
      if txHash.None? { return false; }
      var remaining := RemainingAmount(contractId);
      var p := Payment(contractId, None, remaining, txHash.value);
      if !CanRecord(payments, p) { return false; }
      payments := payments + [p];
      var finalStatus := if decision.RefundToClient? then CANCELLED else COMPLETED;
      contracts := contracts[contractId := contracts[contractId].(status := finalStatus)];
      return true;
    }

    method Cancel(contractId: Id, callerId: Id, role: Role) returns (ok: bool)
      modifies this
      ensures (Stored(), chain) == Served(cfg, old(Stored()), old(chain), Request.Cancel(contractId, callerId, role))
      ensures ok <==> Stored() != old(Stored())
      ensures ok ==> contractId in old(contracts) && var contract := old(contracts)[contractId];
                role == ADMIN || (callerId == contract.clientId
                                  && (contract.escrowTx.None? || contract.status == PENDING))
    {
      hide DbRemaining, E.Apply, E.Judge, Key;
      if contractId !in contracts { return false; }
      var contract := contracts[contractId];
      if contract.clientId != callerId && role != ADMIN { return false; }
      if contract.status == COMPLETED || contract.status == CANCELLED { return false; }
      if contract.escrowTx.Some? && contract.status != PENDING && role != ADMIN { return false; }
      DriveRefund(cfg, Stored(), chain, contractId, contract.jobId);
      DriveCancelled(cfg, Stored(), chain, contractId, contract.jobId, None);
      var txHash: Option<nat> := None;
      if contract.escrowTx.Some? {
        txHash := Submit(E.Refund(Key(contractId), cfg.admin));
        if txHash.None? { return false; }
      }
      var remaining := RemainingAmount(contractId);
      ok := Settle(contractId, contract.jobId, txHash, remaining);
    }

    method Settle(contractId: Id, jobId: Id, txHash: Option<nat>, remaining: nat) returns (ok: bool)
      requires contractId in contracts && contracts[contractId].status != CANCELLED
      modifies this`jobs, this`contracts, this`milestones, this`payments
      ensures Stored() == Write(old(Stored()), WriteCancelled(contractId, jobId, txHash, remaining))
      ensures ok <==> Stored() != old(Stored())
    {
      var before := Stored();
      if txHash.Some? {
        var p := Payment(contractId, None, remaining, txHash.value);
        if !CanRecord(payments, p) { return false; }
        payments := payments + [p];
      }
      contracts := contracts[contractId := contracts[contractId].(status := CANCELLED)];
      if jobId !in jobs {
        Rollback(before);
        return false;
      }
      jobs := jobs[jobId := jobs[jobId].(status := OPEN)];
      assert contracts[contractId] != old(contracts)[contractId];
      return true;
    }
  }
}
