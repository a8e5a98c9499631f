// Who may ask the backend for what: the guards of every request as one rule, what a request
// outside them changes (nothing), and whose word stands behind every payment row of any
// interleaved run and every change to a disputed contract.

module RequestAuthority {
  import opened Sums
  import opened TokenLedger
  import opened Backend
  import E = EscrowSpec
  import L = Lockstep
  import N = Standstill
  import P = PaymentBacking
  import R = Rounding
  import S = EscrowSafety
  import T = LockstepTheorems

  // ---- the guards ----

  /** The caller is the one this request is for. */
  predicate Entitled(db: Db, req: Request) {
    match req
    case CreateJob(_, _) => true
    case CancelJob(jobId, caller, role) => jobId in db.jobs && (caller == db.jobs[jobId].clientId || role == ADMIN)
    case Create(caller, jobId, _, _, _, _) => jobId in db.jobs && caller == db.jobs[jobId].clientId
    case ConfirmFund(id, caller, _) => id in db.contracts && caller == db.contracts[id].clientId
    case SubmitMilestone(id, _, caller) => id in db.contracts && caller == db.contracts[id].freelancerId
    case ApproveMilestone(id, _, caller) => id in db.contracts && caller == db.contracts[id].clientId
    case Dispute(id, caller, _) =>
      id in db.contracts && caller in {db.contracts[id].clientId, db.contracts[id].freelancerId}
    case ResolveDispute(id, role, _, _) => id in db.contracts && role == ADMIN
    case Cancel(id, caller, role) =>
      id in db.contracts
      && (role == ADMIN
          || (caller == db.contracts[id].clientId
              && (db.contracts[id].escrowTx.None? || db.contracts[id].status == PENDING)))
  }

  /** What it is about stands where the request needs it. */
  ghost predicate Timely(db: Db, req: Request)
    requires Entitled(db, req)
  {
    match req
    case CreateJob(_, _) => true
    case CancelJob(jobId, _, _) => db.jobs[jobId].status in {OPEN, IN_PROGRESS} && Uncontracted(db, jobId)
    case Create(_, jobId, _, _, _, _) => db.jobs[jobId].status == OPEN && Uncontracted(db, jobId)
    case ConfirmFund(id, _, _) => db.contracts[id].status in {PENDING, ACTIVE} && db.contracts[id].escrowTx == None
    case SubmitMilestone(id, m, _) => db.contracts[id].status == ACTIVE && Stands(db, id, m, TODO)
    case ApproveMilestone(id, m, _) => db.contracts[id].status == ACTIVE && Stands(db, id, m, IN_REVIEW)
    case Dispute(id, _, _) => db.contracts[id].status == ACTIVE
    case ResolveDispute(id, _, _, _) => db.contracts[id].status == DISPUTED
    case Cancel(id, _, _) => db.contracts[id].status in {PENDING, ACTIVE, DISPUTED}
  }

  ghost predicate Uncontracted(db: Db, jobId: Id) {
    forall id :: id in db.contracts ==> db.contracts[id].jobId != jobId
  }

  predicate Stands(db: Db, id: Id, m: Id, status: MilestoneStatus) {
    m in db.milestones && db.milestones[m].contractId == id && db.milestones[m].status == status
  }

  /** The access a request goes on to. */
  function FirstAccess(db: Db, req: Request): Task
    requires Entitled(db, req) && (req.ApproveMilestone? ==> req.milestoneId in db.milestones)
  {
    match req
    case CreateJob(jobId, caller) => WriteJob(jobId, Job(caller, OPEN))
    case CancelJob(jobId, _, _) => DropJob(jobId)
    case Create(_, _, _, _, _, _) => WriteContract(req)
    case ConfirmFund(id, _, tx) => WriteFunded(id, tx)
    case SubmitMilestone(_, m, _) => WriteSubmitted(m)
    case ApproveMilestone(id, m, _) => CallRelease(id, m, db.milestones[m].amount)
    case Dispute(id, _, signer) =>
      if db.contracts[id].escrowTx.Some? then CallDispute(id, signer) else WriteDisputed(id)
    case ResolveDispute(id, _, decision, bps) => CallResolve(id, decision, bps)
    case Cancel(id, _, _) =>
      var jobId := db.contracts[id].jobId;
      if db.contracts[id].escrowTx.Some? then CallRefund(id, jobId) else ReadCancelled(id, jobId, None)
  }

  /** A request passes its guards exactly when its caller is entitled to it and it comes in time. */
  lemma AdmitsExactly(db: Db, req: Request)
    ensures Admit(db, req).Some? <==> Entitled(db, req) && Timely(db, req)
    ensures Entitled(db, req) && Timely(db, req) ==> Admit(db, req) == Some(FirstAccess(db, req))
  {
    if req.CancelJob? || req.Create? {
      assert Uncontracted(db, req.jobId) <==> !JobTaken(db, req.jobId);
    }
  }

  /** A request from anyone else, or at another time, changes nothing: not alone, and not among others. */
  lemma StrangersChangeNothing(cfg: Config, w: L.World, s: P.System, r: Id, req: Request)
    ensures !Entitled(w.db, req) || !Timely(w.db, req) ==> L.Served(cfg, w.db, w.chain, req) == (w.db, w.chain)
    ensures !Entitled(s.db, req) || !Timely(s.db, req) ==> P.Next(cfg, s, P.Arrive(r, req)) == s
  {
    AdmitsExactly(w.db, req);
    AdmitsExactly(s.db, req);
    hide Admit, Entitled, Timely, L.Drive;
  }

  // ---- whose word stands behind a payment ----

  /** The arrival of the one request that may lead to `p`, by the one who may make it. */
  predicate Asks(db: Db, step: P.Step, p: Payment) {
    && step.Arrive? && p.contractId in db.contracts
    && var c := db.contracts[p.contractId];
    match p.milestoneId
    case Some(m) =>
      && step.body == ApproveMilestone(p.contractId, m, c.clientId)
      && c.status == ACTIVE && Stands(db, p.contractId, m, IN_REVIEW) && p.amount == db.milestones[m].amount
    case None =>
      || (c.status == DISPUTED && step.body.ResolveDispute?
          && step.body.contractId == p.contractId && step.body.role == ADMIN)
      || (c.status in {ACTIVE, DISPUTED} && c.escrowTx.Some? && step.body.Cancel?
          && step.body.contractId == p.contractId && step.body.role == ADMIN)
  }

  /** A request on its way to a row like `p`, from its chain call on. */
  predicate Carries(task: Task, p: Payment) {
    match p.milestoneId
    case Some(m) =>
      && (task.CallRelease? || task.WritePaid?)
      && task.contractId == p.contractId && task.milestoneId == m && task.amount == p.amount
    case None =>
      match task
      case CallResolve(id, _, _) => id == p.contractId
      case ReadResolved(id, _, _) => id == p.contractId
      case WriteResolved(id, _, _, _) => id == p.contractId
      case CallRefund(id, _) => id == p.contractId
      case ReadCancelled(id, _, tx) => id == p.contractId && tx.Some?
      case WriteCancelled(id, _, tx, _) => id == p.contractId && tx.Some?
      case _ => false
  }

  ghost predicate Underway(s: P.System, p: Payment) {
    p in s.db.payments || exists r :: r in s.tasks && Carries(s.tasks[r], p)
  }

  /** No confirmed contract is pending. */
  predicate ConfirmedMoved(db: Db) {
    forall id :: id in db.contracts && db.contracts[id].escrowTx.Some? ==> db.contracts[id].status != PENDING
  }

  lemma WriteMoves(db: Db, task: Task)
    requires ConfirmedMoved(db)
    ensures ConfirmedMoved(Write(db, task))
  {
    hide CanCreate, CanRecord, WithMilestones, EscrowTxTaken;
  }

  lemma StepMoves(cfg: Config, s: P.System, step: P.Step)
    requires ConfirmedMoved(s.db)
    ensures ConfirmedMoved(P.Next(cfg, s, step).db)
  {
    hide Admit, Write, ConfirmedMoved, E.Apply, DbRemaining, AllPaid;
    if step.Work? && step.request in s.tasks {
      WriteMoves(s.db, s.tasks[step.request]);
    }
  }

  /** A new row is what the task that wrote it carries. */
  lemma WriteCarried(db: Db, task: Task, p: Payment)
    requires p in Write(db, task).payments && p !in db.payments
    ensures Carries(task, p)
  {
    hide CanCreate, CanRecord, WithMilestones, EscrowTxTaken;
  }

  /** What a request carries it carried before. */
  lemma AdvanceCarried(cfg: Config, db: Db, chain: E.Chain, task: Task, reply: Reply, p: Payment)
    ensures var done := Advance(cfg, db, chain, task, reply);
            && (done.next.Some? && Carries(done.next.value, p) ==> Carries(task, p))
            && (done.db == db || done.db == Write(db, task))
  {
    hide E.Apply, Write, DbRemaining, AllPaid, Cents, Key;
  }

  lemma AdmittedAsks(db: Db, r: Id, req: Request, p: Payment)
    requires ConfirmedMoved(db) && Admit(db, req).Some? && Carries(Admit(db, req).value, p)
    ensures Asks(db, P.Arrive(r, req), p)
  {
    AdmitsExactly(db, req);
    hide Admit;
  }

  /** Whatever is underway after a step was underway before it, unless the step is someone asking for it. */
  lemma StepAsks(cfg: Config, s: P.System, step: P.Step, p: Payment)
    requires ConfirmedMoved(s.db) && Underway(P.Next(cfg, s, step), p)
    ensures Underway(s, p) || Asks(s.db, step, p)
  {
    hide Admit, Write, Carries, Asks, ConfirmedMoved, Advance, S.Next;
    var s' := P.Next(cfg, s, step);
    match step
    case Arrive(r, body) =>
      if !Underway(s, p) {
        assert r in s'.tasks && Carries(s'.tasks[r], p);
        AdmittedAsks(s.db, r, body, p);
      }
    case Work(r, reply) =>
      if r in s.tasks {
        AdvanceCarried(cfg, s.db, s.chain, s.tasks[r], reply, p);
        if p in s'.db.payments && p !in s.db.payments { WriteCarried(s.db, s.tasks[r], p); }
      }
    case Die(_) =>
    case Network(_) =>
  }

  /** The step at `i` asks for `p`, in the state the run has then reached. */
  ghost predicate AskedAt(cfg: Config, s: P.System, steps: seq<P.Step>, i: nat, p: Payment) {
    i < |steps| && Asks(P.Run(cfg, s, steps[..i]).db, steps[i], p)
  }

  lemma AskedLater(cfg: Config, s: P.System, steps: seq<P.Step>, i: nat, p: Payment)
    requires steps != [] && AskedAt(cfg, P.Next(cfg, s, steps[0]), steps[1..], i, p)
    ensures AskedAt(cfg, s, steps, i + 1, p)
  {
    hide Asks, P.Next;
    assert steps[..i + 1][1..] == steps[1..][..i];
  }

  lemma {:induction false} RunAsks(cfg: Config, s: P.System, steps: seq<P.Step>, p: Payment)
    requires ConfirmedMoved(s.db) && Underway(P.Run(cfg, s, steps), p)
    ensures Underway(s, p) || exists i: nat :: AskedAt(cfg, s, steps, i, p)
    decreases |steps|
  {
    hide Asks, P.Next, Underway, ConfirmedMoved;
    if steps != [] {
      var s' := P.Next(cfg, s, steps[0]);
      StepMoves(cfg, s, steps[0]);
      RunAsks(cfg, s', steps[1..], p);
      if Underway(s', p) {
        StepAsks(cfg, s, steps[0], p);
        if Asks(s.db, steps[0], p) {
          assert steps[..0] == [];
          assert AskedAt(cfg, s, steps, 0, p);
        }
      } else {
        var i: nat :| AskedAt(cfg, s', steps[1..], i, p);
        AskedLater(cfg, s, steps, i, p);
      }
    }
  }

  /**
   * In every interleaved run from deployment, with lost replies and dead requests, each payment row was
   * asked for: a milestone's by its contract's own client, for that very amount, while it was in review;
   * any other by an admin.
   */
  lemma PaymentsWereAsked(cfg: Config, s: P.System, steps: seq<P.Step>, p: Payment)
    requires P.Initial(s) && p in P.Run(cfg, s, steps).db.payments
    ensures exists i: nat :: AskedAt(cfg, s, steps, i, p)
  {
    assert ConfirmedMoved(s.db) && !Underway(s, p);
    RunAsks(cfg, s, steps, p);
  }

  lemma WriteParties(db: Db, task: Task, id: Id)
    requires id in db.contracts
    ensures var (c, after) := (db.contracts[id], Write(db, task).contracts);
            id in after && after[id].(status := c.status, escrowTx := c.escrowTx) == c
  {
    hide WithMilestones, CanRecord, EscrowTxTaken;
  }

  lemma StepParties(cfg: Config, s: P.System, step: P.Step, id: Id)
    requires id in s.db.contracts
    ensures var (c, after) := (s.db.contracts[id], P.Next(cfg, s, step).db.contracts);
            id in after && after[id].(status := c.status, escrowTx := c.escrowTx) == c
  {
    hide E.Apply, Write, DbRemaining, AllPaid, Key, Cents;
    if step.Work? && step.request in s.tasks {
      WriteParties(s.db, s.tasks[step.request], id);
    }
  }

  /** The client and the freelancer of a contract are who they were at its creation, in every run. */
  lemma {:induction false} PartiesStay(cfg: Config, s: P.System, steps: seq<P.Step>, id: Id)
    requires id in s.db.contracts
    ensures var (c, after) := (s.db.contracts[id], P.Run(cfg, s, steps).db.contracts);
            id in after && after[id].(status := c.status, escrowTx := c.escrowTx) == c
    decreases |steps|
  {
    hide P.Next;
    if steps != [] {
      StepParties(cfg, s, steps[0], id);
      PartiesStay(cfg, P.Next(cfg, s, steps[0]), steps[1..], id);
    }
  }

  /** A call to the chain enters the system only as the request of someone entitled to it, in time. */
  lemma CallsAreAsked(cfg: Config, s: P.System, step: P.Step, r: Id)
    requires r in P.Next(cfg, s, step).tasks && P.CallsChain(P.Next(cfg, s, step).tasks[r])
    requires r !in s.tasks || s.tasks[r] != P.Next(cfg, s, step).tasks[r]
    ensures step.Arrive? && step.request == r && Entitled(s.db, step.body) && Timely(s.db, step.body)
    ensures match P.Next(cfg, s, step).tasks[r]
            case CallRelease(id, m, amount) =>
              step.body == ApproveMilestone(id, m, s.db.contracts[id].clientId) && amount == s.db.milestones[m].amount
            case CallDispute(id, signer) =>
              step.body.Dispute? && step.body.contractId == id && step.body.signer == signer
            case CallResolve(id, decision, bps) => step.body == ResolveDispute(id, ADMIN, decision, bps)
            case CallRefund(id, jobId) =>
              step.body.Cancel? && step.body.contractId == id && jobId == s.db.contracts[id].jobId
            case _ => true
  {
    hide Admit, Write, S.Next, E.Apply, Cents, Key, DbRemaining, AllPaid;
    if step.Arrive? { AdmitsExactly(s.db, step.body); }
  }

  // ---- whose word a dispute waits for ----

  /** A request that comes with an admin's role. */
  predicate AsAdmin(req: Request) {
    match req
    case CancelJob(_, _, role) => role == ADMIN
    case ResolveDispute(_, role, _, _) => role == ADMIN
    case Cancel(_, _, role) => role == ADMIN
    case _ => false
  }

  /** A dispute both sides know of. */
  predicate Contested(w: L.World, id: Id) {
    && id in w.db.contracts && w.db.contracts[id].status == DISPUTED && w.db.contracts[id].escrowTx.Some?
    && L.Lookup(w.chain, id).Some? && L.Lookup(w.chain, id).value.status.Disputed?
  }

  lemma DisputedContract(cfg: Config, w: L.World, id: Id)
    requires L.Inv(cfg, w) && id in w.db.contracts && w.db.contracts[id].status == DISPUTED
    ensures Contested(w, id)
  {
    hide L.RowsOk, L.JobsOk, L.PaidOk, L.OnlyOurs, L.FundingsOk, L.ChainOk, MilestoneCents, L.UnpaidCents,
         PaymentCents, L.Lookup;
    assert L.AgreesAt(cfg, w.db, w.chain, id);
  }

  /** On a contested contract only an admin's requests pass. */
  lemma ContestedAdmitsNothing(db: Db, req: Request, id: Id)
    requires id in db.contracts && db.contracts[id].status == DISPUTED && db.contracts[id].escrowTx.Some?
    requires N.Concerns(req, id) && !AsAdmin(req)
    ensures Admit(db, req) == None
  {
    AdmitsExactly(db, req);
    hide Admit;
  }

  lemma ContestedCall(chain: E.Chain, signers: set<Address>, call: E.Call, id: Id)
    requires L.Lookup(chain, id).Some? && L.Lookup(chain, id).value.status.Disputed?
    requires call.Fund? || call.Dispute?
    ensures L.Lookup(E.Apply(chain, signers, call).0, id) == L.Lookup(chain, id)
  {
    hide E.Apply, L.Lookup, Key;
    if call.id == Key(id) { N.DisputedRejects(chain, signers, call, id); }
    else { N.CallElsewhere(chain, signers, call, id); }
  }

  lemma ContestedMove(cfg: Config, w: L.World, step: L.Step, id: Id)
    requires L.RowsOk(w.db) && L.FundingsOk(cfg, w.db, w.fundings) && Contested(w, id)
    requires step.Serve? ==> !AsAdmin(step.request)
    ensures N.SameState(w, L.Next(cfg, w, step), id)
  {
    hide E.Apply, L.RowsOk, L.Served, L.Lookup;
    match step
    case Serve(req) =>
      hide L.FundingsOk;
      N.ServeNext(cfg, w, req);
      if N.Concerns(req, id) {
        ContestedAdmitsNothing(w.db, req, id);
        N.NotAdmitted(cfg, w, req);
      } else {
        N.ServeElsewhere(cfg, w, req, id);
      }
    case SubmitFunding(other) =>
      if other in w.fundings {
        assert w.fundings[other].Fund?;
        hide L.FundingsOk;
        ContestedCall(w.chain, {w.fundings[other].caller} - {w.chain.self}, w.fundings[other], id);
      }
    case PartyDispute(other, party) =>
      hide L.FundingsOk, Key;
      ContestedCall(w.chain, {party} - {w.chain.self}, E.Dispute(Key(other), party), id);
    case Traffic(op) =>
      hide L.FundingsOk;
      N.SameEntries(w.chain, S.Next(w.chain, S.Outside(op)), id);
  }

  lemma ContestedStep(cfg: Config, w: L.World, step: L.Step, id: Id)
    requires L.Inv(cfg, w) && Contested(w, id)
    requires step.Serve? ==> !AsAdmin(step.request)
    ensures N.SameState(w, L.Next(cfg, w, step), id)
  {
    hide L.RowsOk, L.JobsOk, L.PaidOk, L.OnlyOurs, L.FundingsOk, L.ChainOk, L.AllAgree, L.Next, Contested, N.SameState;
    ContestedMove(cfg, w, step, id);
  }

  lemma ContestedTwice(a: L.World, b: L.World, c: L.World, id: Id)
    requires Contested(a, id)
    ensures N.SameState(a, a, id)
    ensures N.SameState(a, b, id) ==> Contested(b, id)
    ensures N.SameState(a, b, id) && N.SameState(b, c, id) ==> N.SameState(a, c, id)
  {
    hide L.Lookup;
  }

  lemma {:induction false} ContestedWaits(cfg: Config, w: L.World, steps: seq<L.Step>, id: Id)
    requires R.Rounds(cfg.fl) && L.Inv(cfg, w) && T.FairRun(cfg, w, steps) && Contested(w, id)
    requires forall step :: step in steps && step.Serve? ==> !AsAdmin(step.request)
    ensures N.SameState(w, T.Run(cfg, w, steps), id)
    decreases |steps|
  {
    hide L.Inv, L.Evolves, L.Next, L.Fair, R.Rounds, Contested, N.SameState, AsAdmin;
    ContestedTwice(w, w, w, id);
    if steps != [] {
      var w' := L.Next(cfg, w, steps[0]);
      assert steps[0] in steps;
      ContestedStep(cfg, w, steps[0], id);
      T.StepKeeps(cfg, w, steps[0]);
      ContestedTwice(w, w', T.Run(cfg, w', steps[1..]), id);
      ContestedWaits(cfg, w', steps[1..], id);
    }
  }

  /** Without an admin's request no fair run changes the row or the entry of a disputed contract. */
  lemma DisputeWaitsForAdmin(cfg: Config, w: L.World, steps: seq<L.Step>, id: Id)
    requires R.Rounds(cfg.fl) && L.Inv(cfg, w) && T.FairRun(cfg, w, steps)
    requires id in w.db.contracts && w.db.contracts[id].status == DISPUTED
    requires forall step :: step in steps && step.Serve? ==> !AsAdmin(step.request)
    ensures var w' := T.Run(cfg, w, steps);
            && id in w'.db.contracts && w'.db.contracts[id] == w.db.contracts[id]
            && Key(id) in w.chain.entries && Key(id) in w'.chain.entries
            && w'.chain.entries[Key(id)] == w.chain.entries[Key(id)]
  {
    DisputedContract(cfg, w, id);
    ContestedWaits(cfg, w, steps, id);
    hide L.Inv, T.Run, T.FairRun, R.Rounds, Key;
  }
}
