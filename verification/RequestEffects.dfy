// Exactly which rows each request writes, what it moves on the chain, and when it does neither.

module RequestEffects {
  import opened Sums
  import opened TokenLedger
  import opened Backend
  import opened RequestAuthority
  import E = EscrowSpec
  import K = KeyEncoding
  import L = Lockstep
  import P = PaymentBacking
  import Q = EscrowRules
  import T = LockstepTheorems
  import U = LockstepRuns

  /** Posting a job adds it, open and the caller's own; the identifier is the database's choice. */
  lemma PostingExactly(cfg: Config, db: Db, chain: E.Chain, jobId: Id, caller: Id)
    ensures L.Served(cfg, db, chain, CreateJob(jobId, caller))
         == (if jobId in db.jobs then db else db.(jobs := db.jobs[jobId := Job(caller, OPEN)]), chain)
  {
    U.DriveWrite(cfg, db, chain, WriteJob(jobId, Job(caller, OPEN)));
  }

  /** Withdrawing a job marks it cancelled, if it is the caller's or an admin asks, and no contract has it. */
  lemma WithdrawalExactly(cfg: Config, db: Db, chain: E.Chain, jobId: Id, caller: Id, role: Role)
    ensures L.Served(cfg, db, chain, CancelJob(jobId, caller, role))
         == (if && jobId in db.jobs && (caller == db.jobs[jobId].clientId || role == ADMIN)
                && db.jobs[jobId].status in {OPEN, IN_PROGRESS} && Uncontracted(db, jobId)
             then db.(jobs := db.jobs[jobId := Job(db.jobs[jobId].clientId, JOB_CANCELLED)]) else db,
             chain)
  {
    var req := CancelJob(jobId, caller, role);
    AdmitsExactly(db, req);
    U.DriveWrite(cfg, db, chain, DropJob(jobId));
    hide L.Drive, Admit;
  }

  /** Submitting moves one milestone from TODO to IN_REVIEW, for the freelancer of an active contract alone. */
  lemma SubmissionExactly(cfg: Config, db: Db, chain: E.Chain, id: Id, m: Id, caller: Id)
    ensures L.Served(cfg, db, chain, SubmitMilestone(id, m, caller))
         == (if && id in db.contracts && caller == db.contracts[id].freelancerId
                && db.contracts[id].status == ACTIVE && Stands(db, id, m, TODO)
             then db.(milestones := db.milestones[m := Milestone(id, db.milestones[m].amount, IN_REVIEW)]) else db,
             chain)
  {
    var req := SubmitMilestone(id, m, caller);
    AdmitsExactly(db, req);
    U.DriveWrite(cfg, db, chain, WriteSubmitted(m));
    hide L.Drive, Admit;
  }

  /** Confirming stores the hash and activates, for the client of an unconfirmed contract, once per hash. */
  lemma ConfirmationExactly(cfg: Config, db: Db, chain: E.Chain, id: Id, caller: Id, tx: nat)
    ensures L.Served(cfg, db, chain, ConfirmFund(id, caller, tx))
         == (if && id in db.contracts && caller == db.contracts[id].clientId
                && db.contracts[id].status in {PENDING, ACTIVE} && db.contracts[id].escrowTx == None
                && (forall other :: other in db.contracts && other != id ==> db.contracts[other].escrowTx != Some(tx))
             then
               var c := db.contracts[id];
               db.(contracts := db.contracts[id := Contract(c.jobId, c.clientId, c.freelancerId, ACTIVE, Some(tx))])
             else db,
             chain)
  {
    var req := ConfirmFund(id, caller, tx);
    AdmitsExactly(db, req);
    U.DriveWrite(cfg, db, chain, WriteFunded(id, tx));
    hide L.Drive, Admit;
  }

  // ---- creating a contract ----

  /** The rows a creation asks for are new, distinct, and hold amounts the column can hold. */
  predicate WellFormed(db: Db, req: Request)
    requires req.Create?
  {
    && req.contractId !in db.contracts && K.IsUuid(req.contractId)
    && |req.milestoneIds| == |req.amounts| > 0
    && (forall i :: 0 <= i < |req.milestoneIds| ==> req.milestoneIds[i] !in db.milestones)
    && (forall i, j :: 0 <= i < j < |req.milestoneIds| ==> req.milestoneIds[i] != req.milestoneIds[j])
    && (forall i :: 0 <= i < |req.amounts| ==> 0 < req.amounts[i] < DECIMAL_LIMIT)
  }

  lemma {:induction false} NewRow(milestones: map<Id, Milestone>, id: Id, ids: seq<Id>, amounts: seq<nat>, i: nat)
    requires i < |ids| == |amounts|
    requires forall j :: i < j < |ids| ==> ids[i] != ids[j]
    ensures var after := WithMilestones(milestones, id, ids, amounts);
            ids[i] in after && after[ids[i]] == Milestone(id, amounts[i], TODO)
  {
    var n := |ids| - 1;
    if i < n {
      NewRow(milestones, id, ids[..n], amounts[..n], i);
    }
  }

  lemma {:induction false} OtherRow(milestones: map<Id, Milestone>, id: Id, ids: seq<Id>, amounts: seq<nat>, m: Id)
    requires |ids| == |amounts| && m !in ids
    ensures var after := WithMilestones(milestones, id, ids, amounts);
            (m in after <==> m in milestones) && (m in milestones ==> after[m] == milestones[m])
  {
    if ids != [] {
      OtherRow(milestones, id, ids[..|ids| - 1], amounts[..|ids| - 1], m);
    }
  }

  lemma MilestoneRows(milestones: map<Id, Milestone>, id: Id, ids: seq<Id>, amounts: seq<nat>)
    requires |ids| == |amounts|
    requires forall i, j :: 0 <= i < j < |ids| ==> ids[i] != ids[j]
    ensures var after := WithMilestones(milestones, id, ids, amounts);
            && (forall i :: 0 <= i < |ids| ==> ids[i] in after && after[ids[i]] == Milestone(id, amounts[i], TODO))
            && (forall m :: m !in ids ==>
                  (m in after <==> m in milestones) && (m in milestones ==> after[m] == milestones[m]))
  {
    hide WithMilestones;
    var after := WithMilestones(milestones, id, ids, amounts);
    forall i | 0 <= i < |ids| ensures ids[i] in after && after[ids[i]] == Milestone(id, amounts[i], TODO) {
      NewRow(milestones, id, ids, amounts, i);
    }
    forall m | m !in ids
      ensures (m in after <==> m in milestones) && (m in milestones ==> after[m] == milestones[m])
    {
      OtherRow(milestones, id, ids, amounts, m);
    }
  }

  /**
   * Creating a contract writes its pending row, one TODO milestone for each amount asked for and the job's
   * status, all of them or none: it needs the job to be the caller's, open and never contracted.
   */
  lemma CreationExactly(cfg: Config, db: Db, chain: E.Chain, req: Request)
    requires req.Create?
    ensures var (db', chain') := L.Served(cfg, db, chain, req);
            && chain' == chain
            && if !(&& req.jobId in db.jobs && db.jobs[req.jobId] == Job(req.caller, OPEN)
                    && Uncontracted(db, req.jobId) && WellFormed(db, req))
               then db' == db
               else
                 && db'.payments == db.payments
                 && db'.jobs == db.jobs[req.jobId := Job(req.caller, IN_PROGRESS)]
                 && db'.contracts
                    == db.contracts[req.contractId := Contract(req.jobId, req.caller, req.freelancerId, PENDING, None)]
                 && (forall i :: 0 <= i < |req.milestoneIds| ==>
                       && req.milestoneIds[i] in db'.milestones
                       && db'.milestones[req.milestoneIds[i]] == Milestone(req.contractId, req.amounts[i], TODO))
                 && (forall m :: m !in req.milestoneIds ==>
                       && (m in db'.milestones <==> m in db.milestones)
                       && (m in db.milestones ==> db'.milestones[m] == db.milestones[m]))
  {
    AdmitsExactly(db, req);
    U.DriveWrite(cfg, db, chain, WriteContract(req));
    if Entitled(db, req) && Timely(db, req) {
      assert Uncontracted(db, req.jobId) <==> !JobTaken(db, req.jobId);
      assert WellFormed(db, req) <==> CanCreate(db, req);
      if WellFormed(db, req) {
        MilestoneRows(db.milestones, req.contractId, req.milestoneIds, req.amounts);
      }
    }
    hide L.Drive, Admit, WithMilestones, K.IsUuid;
  }

  // ---- requests that call the chain ----

  lemma ChainInv(cfg: Config, w: L.World)
    requires L.Inv(cfg, w)
    ensures L.ChainOk(cfg, w.db, w.chain) && E.Inv(w.chain)
  {
  }

  /** A contract at work is confirmed, and its entry is there. */
  lemma AtWork(cfg: Config, w: L.World, id: Id)
    requires L.Inv(cfg, w) && id in w.db.contracts && w.db.contracts[id].status in {ACTIVE, DISPUTED}
    ensures w.db.contracts[id].escrowTx.Some? && Key(id) in w.chain.entries
    ensures w.db.contracts[id].jobId in w.db.jobs
  {
    hide L.JobsOk, L.PaidOk, L.OnlyOurs, L.FundingsOk, L.ChainOk, MilestoneCents, L.UnpaidCents, PaymentCents, Key,
         K.IsUuid;
    assert L.AgreesAt(cfg, w.db, w.chain, id);
  }

  /** `m` is the only milestone of its contract still to be paid. */
  ghost predicate LastOne(db: Db, id: Id, m: Id) {
    forall other :: Stands(db, id, other, TODO) || Stands(db, id, other, IN_REVIEW) ==> other == m
  }

  lemma LastCompletes(db: Db, id: Id, m: Id)
    requires m in db.milestones
    ensures AllPaid(SetMilestone(db, m, PAID), id) <==> LastOne(db, id, m)
  {
    var after := SetMilestone(db, m, PAID);
    if LastOne(db, id, m) {
      forall other | HasMilestone(after, id, other) ensures after.milestones[other].status == PAID {
        if other != m { assert !Stands(db, id, other, TODO) && !Stands(db, id, other, IN_REVIEW); }
      }
    } else {
      var other :| (Stands(db, id, other, TODO) || Stands(db, id, other, IN_REVIEW)) && other != m;
      assert HasMilestone(after, id, other);
    }
  }

  /** The milestone is paid on both sides: recorded in full, released to the freelancer to the stroop. */
  ghost predicate PaysMilestone(cfg: Config, db: Db, chain: E.Chain, id: Id, m: Id, db': Db, chain': E.Chain)
    requires id in db.contracts && m in db.milestones && Key(id) in chain.entries
  {
    var (c, amount, e) := (db.contracts[id], db.milestones[m].amount, chain.entries[Key(id)]);
    var cents := Cents(cfg, amount);
    && db' == Db(db.jobs,
                 db.contracts[id := c.(status := if LastOne(db, id, m) then COMPLETED else ACTIVE)],
                 db.milestones[m := Milestone(id, amount, PAID)],
                 db.payments + [Payment(id, Some(m), amount, |chain.events|)])
    && 0 < cents <= e.total - e.released
    && E.Checked(cents).Some? && E.Checked(e.released + cents).Some?
    && Q.Leaves(chain, chain', Key(id),
                e.(released := e.released + cents,
                   status := if cents == e.total - e.released then E.Released else E.Funded),
                E.MilestoneEvent(Key(id), e.freelancer, cents, e.released + cents), cents, 0)
  }

  /**
   * An approval over a funded entry pays that milestone's amount from escrow to the freelancer, records it,
   * and completes the contract with its last one; over a disputed entry it changes nothing.
   */
  lemma ApprovalExactly(cfg: Config, w: L.World, id: Id, m: Id)
    requires L.Inv(cfg, w) && id in w.db.contracts && w.db.contracts[id].status == ACTIVE
    requires Stands(w.db, id, m, IN_REVIEW) && cfg.admin != w.chain.self
    ensures Key(id) in w.chain.entries
    ensures var (db', chain') := L.Served(cfg, w.db, w.chain, ApproveMilestone(id, m, w.db.contracts[id].clientId));
            if w.chain.entries[Key(id)].status.Funded? then PaysMilestone(cfg, w.db, w.chain, id, m, db', chain')
            else (db', chain') == (w.db, w.chain)
  {
    hide L.RowsOk, L.JobsOk, L.OnlyOurs, L.FundingsOk, L.AllAgree, E.Judge, E.Apply, Cents, Key, L.Drive, Advance,
         AllPaid, E.Inv, P.Inv, Q.Leaves, LastOne;
    ChainInv(cfg, w);
    var amount := w.db.milestones[m].amount;
    AdmitsExactly(w.db, ApproveMilestone(id, m, w.db.contracts[id].clientId));
    hide Admit, L.ChainOk;
    T.NeverOverdraws(cfg, w, id, m);
    var call := E.ReleaseMilestone(Key(id), cfg.admin, Cents(cfg, amount));
    T.EntryAnswers(cfg, w, id, call);
    U.ReleaseAdvance(cfg, w.db, w.chain, id, m, amount);
    U.DriveRelease(cfg, w.db, w.chain, id, m);
    if w.chain.entries[Key(id)].status.Funded? {
      Q.EffectsExactly(w.chain, {cfg.admin} - {w.chain.self}, call);
      LastCompletes(w.db, id, m);
    }
  }

  /** A dispute through the backend freezes both sides, if a party signs it and nobody disputed before. */
  lemma DisputeExactly(cfg: Config, w: L.World, id: Id, caller: Id, signer: Address)
    requires L.Inv(cfg, w) && id in w.db.contracts && w.db.contracts[id].status == ACTIVE
    requires caller in {w.db.contracts[id].clientId, w.db.contracts[id].freelancerId} && signer != w.chain.self
    ensures Key(id) in w.chain.entries
    ensures var (c, e) := (w.db.contracts[id], w.chain.entries[Key(id)]);
            var (db', chain') := L.Served(cfg, w.db, w.chain, Dispute(id, caller, signer));
            if !e.status.Funded? || signer !in {cfg.wallet(c.clientId), cfg.wallet(c.freelancerId)}
            then (db', chain') == (w.db, w.chain)
            else
              && db' == w.db.(contracts := w.db.contracts[id := c.(status := DISPUTED)])
              && Q.Leaves(w.chain, chain', Key(id), e.(status := E.Disputed), E.DisputeEvent(Key(id), signer), 0, 0)
  {
    hide L.RowsOk, L.JobsOk, L.PaidOk, L.OnlyOurs, L.FundingsOk, L.AllAgree, E.Judge, E.Apply, Key, L.Drive, E.Inv,
         P.Inv, Q.Leaves;
    ChainInv(cfg, w);
    hide L.ChainOk;
    var call := E.Dispute(Key(id), signer);
    AtWork(cfg, w, id);
    T.DisputeOpens(cfg, w, id, caller, signer);
    T.EntryAnswers(cfg, w, id, call);
    AdmitsExactly(w.db, Dispute(id, caller, signer));
    U.DriveDispute(cfg, w.db, w.chain, id, signer);
    if E.Apply(w.chain, {signer} - {w.chain.self}, call).1.Ok? {
      Q.EffectsExactly(w.chain, {signer} - {w.chain.self}, call);
    }
  }

  /** How a settled contract is left: one more row, for all that was left on the chain. */
  ghost predicate Settles(db: Db, id: Id, status: ContractStatus, left: int, tx: nat, jobs: map<Id, Job>, db': Db)
    requires id in db.contracts
  {
    && left > 0
    && db' == Db(jobs, db.contracts[id := db.contracts[id].(status := status)], db.milestones,
                 db.payments + [Payment(id, None, left, tx)])
  }

  /** A resolution does nothing on a split beyond 10000 basis points, and otherwise settles both sides as decided. */
  lemma ResolutionExactly(cfg: Config, w: L.World, id: Id, decision: E.Decision, bps: E.u32)
    requires L.Inv(cfg, w) && id in w.db.contracts && w.db.contracts[id].status == DISPUTED
    requires cfg.admin != w.chain.self
    ensures Key(id) in w.chain.entries
    ensures var (e, key) := (w.chain.entries[Key(id)], Key(id));
            var left := e.total - e.released;
            var (db', chain') := L.Served(cfg, w.db, w.chain, ResolveDispute(id, ADMIN, decision, bps));
            if decision.Split? && bps > 10_000 then (db', chain') == (w.db, w.chain)
            else
              && Settles(w.db, id, if decision.RefundToClient? then CANCELLED else COMPLETED, left, |w.chain.events|,
                         w.db.jobs, db')
              && match decision
                 case ReleaseToFreelancer =>
                   Q.Leaves(w.chain, chain', key, e.(status := E.Released), E.ResolveEvent(key, decision, bps), left, 0)
                 case RefundToClient =>
                   Q.Leaves(w.chain, chain', key, e.(status := E.Refunded), E.ResolveEvent(key, decision, bps), 0, left)
                 case Split =>
                   var f := left * bps / 10_000;
                   Q.Leaves(w.chain, chain', key, e.(status := E.Resolved), E.ResolveEvent(key, decision, bps),
                            f, left - f)
  {
    hide L.RowsOk, L.JobsOk, L.PaidOk, L.OnlyOurs, L.FundingsOk, L.AllAgree, E.Judge, E.Apply, Key, L.Drive, E.Inv,
         P.Inv, Q.Leaves, CanRecord, DbRemaining;
    ChainInv(cfg, w);
    hide L.ChainOk;
    var call := E.Resolve(Key(id), cfg.admin, decision, bps);
    AtWork(cfg, w, id);
    T.ResolutionSettles(cfg, w, id, decision, bps);
    AdmitsExactly(w.db, ResolveDispute(id, ADMIN, decision, bps));
    hide L.Inv, Admit;
    U.DriveResolve(cfg, w.db, w.chain, id, decision, bps);
    if E.Apply(w.chain, {cfg.admin} - {w.chain.self}, call).1.Ok? {
      Q.EffectsExactly(w.chain, {cfg.admin} - {w.chain.self}, call);
    }
  }

  /** An admin's cancellation of a contract at work refunds all that is left and opens its job, over a funded entry. */
  lemma CancellationExactly(cfg: Config, w: L.World, id: Id, caller: Id)
    requires L.Inv(cfg, w) && id in w.db.contracts && w.db.contracts[id].status in {ACTIVE, DISPUTED}
    requires cfg.admin != w.chain.self
    ensures Key(id) in w.chain.entries && w.db.contracts[id].jobId in w.db.jobs
    ensures var (e, key, jobId) := (w.chain.entries[Key(id)], Key(id), w.db.contracts[id].jobId);
            var left := e.total - e.released;
            var (db', chain') := L.Served(cfg, w.db, w.chain, Cancel(id, caller, ADMIN));
            if !e.status.Funded? then (db', chain') == (w.db, w.chain)
            else
              && Settles(w.db, id, CANCELLED, left, |w.chain.events|,
                         w.db.jobs[jobId := Job(w.db.jobs[jobId].clientId, OPEN)], db')
              && Q.Leaves(w.chain, chain', key, e.(status := E.Refunded), E.RefundEvent(key, e.client, left), 0, left)
  {
    hide L.RowsOk, L.JobsOk, L.PaidOk, L.OnlyOurs, L.FundingsOk, L.AllAgree, E.Judge, E.Apply, Key, L.Drive, E.Inv,
         P.Inv, Q.Leaves, CanRecord, DbRemaining;
    ChainInv(cfg, w);
    hide L.ChainOk;
    var call := E.Refund(Key(id), cfg.admin);
    AtWork(cfg, w, id);
    T.CancellationRefunds(cfg, w, id, caller);
    AdmitsExactly(w.db, Cancel(id, caller, ADMIN));
    hide L.Inv, Admit;
    U.DriveRefund(cfg, w.db, w.chain, id, w.db.contracts[id].jobId);
    if E.Apply(w.chain, {cfg.admin} - {w.chain.self}, call).1.Ok? {
      Q.EffectsExactly(w.chain, {cfg.admin} - {w.chain.self}, call);
    }
  }
}
