// What the lifecycle loses when requests overlap or replies are lost: exactly which
// accesses leave it, for contracts, milestones and jobs, and runs in which they do.

module Interleavings {
  import opened Sums
  import opened Backend
  import opened PaymentBacking
  import opened Reconciliation
  import E = EscrowSpec
  import L = Lockstep
  import S = EscrowSafety

  // ---- exactly which accesses undo a final status ----

  predicate Runs(s: System, step: Step, task: Task) {
    step.Work? && step.request in s.tasks && s.tasks[step.request] == task
  }

  lemma {:induction false} AddedLeaves(milestones: map<Id, Milestone>, id: Id, ids: seq<Id>, amounts: seq<nat>, m: Id)
    requires |ids| == |amounts| && m in milestones && forall i :: 0 <= i < |ids| ==> ids[i] != m
    ensures var after := WithMilestones(milestones, id, ids, amounts);
            m in after && after[m] == milestones[m]
  {
    if ids != [] {
      AddedLeaves(milestones, id, ids[..|ids| - 1], amounts[..|ids| - 1], m);
    }
  }

  lemma CreateLeaves(db: Db, req: Request, m: Id)
    requires req.Create? && CanCreate(db, req) && m in db.milestones
    ensures var after := Write(db, WriteContract(req)).milestones; m in after && after[m] == db.milestones[m]
  {
    AddedLeaves(db.milestones, req.contractId, req.milestoneIds, req.amounts, m);
  }

  /** A paid milestone stays paid, except when a submission that was admitted earlier is written. */
  lemma PaidUndone(cfg: Config, s: System, step: Step, m: Id)
    requires m in s.db.milestones && s.db.milestones[m].status == PAID
    ensures var after := Next(cfg, s, step).db.milestones;
            m in after && (after[m].status != PAID <==> Runs(s, step, WriteSubmitted(m)))
  {
    if step.Work? && step.request in s.tasks {
      WriteUndoes(s.db, s.tasks[step.request], m);
      WorkWrites(cfg, s.db, s.chain, s.tasks[step.request], step.reply);
    }
    hide Advance, Write;
  }

  lemma WriteUndoes(db: Db, task: Task, m: Id)
    requires m in db.milestones && db.milestones[m].status == PAID
    ensures var after := Write(db, task).milestones;
            m in after && (after[m].status != PAID <==> task == WriteSubmitted(m))
  {
    if task.WriteContract? && task.request.Create? && CanCreate(db, task.request) {
      CreateLeaves(db, task.request, m);
    }
    hide WithMilestones, CanRecord, CanCreate;
  }

  /** The writes that put another status over a cancelled contract. */
  predicate Revives(db: Db, task: Task, id: Id) {
    match task
    case WriteFunded(c, tx) => c == id && !EscrowTxTaken(db, id, tx)
    case WriteCompleted(c) => c == id
    case WriteDisputed(c) => c == id
    case WriteResolved(c, decision, tx, remaining) =>
      c == id && !decision.RefundToClient? && CanRecord(db.payments, Payment(id, None, remaining, tx))
    case _ => false
  }

  /** A cancelled contract stays cancelled, except when a request admitted earlier writes its own status. */
  lemma CancelledUndone(cfg: Config, s: System, step: Step, id: Id)
    requires id in s.db.contracts && s.db.contracts[id].status == CANCELLED
    ensures var after := Next(cfg, s, step).db.contracts;
            && id in after
            && (after[id].status != CANCELLED
                <==> step.Work? && step.request in s.tasks && Revives(s.db, s.tasks[step.request], id))
  {
    if step.Work? && step.request in s.tasks {
      WriteRevives(s.db, s.tasks[step.request], id);
    }
    hide DbRemaining, E.Apply, AllPaid, Write, Revives, Key, Cents;
  }

  lemma WriteRevives(db: Db, task: Task, id: Id)
    requires id in db.contracts && db.contracts[id].status == CANCELLED
    ensures var after := Write(db, task).contracts;
            id in after && (after[id].status != CANCELLED <==> Revives(db, task, id))
  {
    hide WithMilestones, CanRecord, EscrowTxTaken;
  }

  /** A write whose row has moved on since the request read it, so that the lifecycle no longer allows it. */
  predicate Stale(db: Db, task: Task) {
    match task
    case WriteFunded(id, tx) =>
      id in db.contracts && !EscrowTxTaken(db, id, tx)
      && (!L.Edge(db.contracts[id].status, ACTIVE)
          || (db.contracts[id].escrowTx.Some? && db.contracts[id].escrowTx != Some(tx)))
    case WriteSubmitted(m) => m in db.milestones && db.milestones[m].status == PAID
    case WriteCompleted(id) => id in db.contracts && !L.Edge(db.contracts[id].status, COMPLETED)
    case WriteDisputed(id) => id in db.contracts && !L.Edge(db.contracts[id].status, DISPUTED)
    case WriteResolved(id, decision, _, _) =>
      id in db.contracts && !Refused(db, task)
      && !L.Edge(db.contracts[id].status, if decision.RefundToClient? then CANCELLED else COMPLETED)
    case WriteCancelled(id, jobId, _, _) =>
      id in db.contracts && jobId in db.jobs && !Refused(db, task) && !L.Edge(db.contracts[id].status, CANCELLED)
    case _ => false
  }

  /** One contract's row rewritten. */
  lemma RowEvolves(db: Db, after: Db, id: Id, c: Contract)
    requires id in db.contracts && after.contracts == db.contracts[id := c]
    requires after.milestones == db.milestones && db.payments <= after.payments
    ensures L.Evolves(db, after) <==> L.ContractEvolves(db.contracts[id], c)
  {
    if L.Evolves(db, after) { assert L.ContractEvolves(db.contracts[id], after.contracts[id]); }
  }

  /** One milestone's row rewritten. */
  lemma MilestoneRowEvolves(db: Db, after: Db, m: Id, row: Milestone)
    requires m in db.milestones && after.milestones == db.milestones[m := row]
    requires after.contracts == db.contracts && db.payments <= after.payments
    ensures L.Evolves(db, after) <==> L.MilestoneEvolves(db.milestones[m], row)
  {
    if L.Evolves(db, after) { assert L.MilestoneEvolves(db.milestones[m], after.milestones[m]); }
  }

  /** A write of anything but rows leaves them where they are. */
  lemma RowsStay(db: Db, after: Db)
    requires after.contracts == db.contracts && after.milestones == db.milestones && after.payments == db.payments
    ensures L.Evolves(db, after)
  {
  }

  lemma WriteEvolves(db: Db, task: Task)
    requires !task.WriteContract?
    ensures L.Evolves(db, Write(db, task)) <==> !Stale(db, task)
  {
    hide L.Evolves, CanRecord, EscrowTxTaken;
    var after := Write(db, task);
    if after.contracts == db.contracts && after.milestones == db.milestones && after.payments == db.payments {
      RowsStay(db, after);
    } else if task.WriteSubmitted? || task.WritePaid? {
      MilestoneRowEvolves(db, after, task.milestoneId, after.milestones[task.milestoneId]);
    } else {
      RowEvolves(db, after, task.contractId, after.contracts[task.contractId]);
    }
  }

  lemma SameEvolves(db: Db)
    ensures L.Evolves(db, db)
  {
  }

  lemma CreateEvolves(db: Db, req: Request)
    ensures L.Evolves(db, Write(db, WriteContract(req)))
  {
    var after := Write(db, WriteContract(req));
    if req.Create? && CanCreate(db, req) {
      forall m | m in db.milestones ensures m in after.milestones && after.milestones[m] == db.milestones[m] {
        CreateLeaves(db, req, m);
      }
    }
    hide WithMilestones, CanCreate;
  }

  /**
   * Exactly when a step leaves the lifecycle: when it runs a stale write. Everything else, whatever
   * it overlaps with, follows the edges, raises milestones and writes a funding hash once.
   */
  lemma LifecycleExactly(cfg: Config, s: System, step: Step)
    ensures L.Evolves(s.db, Next(cfg, s, step).db)
       <==> !(step.Work? && step.request in s.tasks && Stale(s.db, s.tasks[step.request]))
  {
    SameEvolves(s.db);
    if step.Work? && step.request in s.tasks {
      var task := s.tasks[step.request];
      if task.WriteContract? { CreateEvolves(s.db, task.request); } else { WriteEvolves(s.db, task); }
      WorkWrites(cfg, s.db, s.chain, task, step.reply);
    }
    hide L.Evolves, Write, Advance, Stale;
  }

  /** The database after an access is what its write leaves, which for a read or a call is nothing new. */
  lemma WorkWrites(cfg: Config, db: Db, chain: E.Chain, task: Task, reply: Reply)
    ensures Advance(cfg, db, chain, task, reply).db == Write(db, task)
  {
    hide E.Apply, DbRemaining, AllPaid, Key, Cents, CanRecord, CanCreate, WithMilestones, EscrowTxTaken;
  }

  // ---- final for good ----

  ghost predicate StaysPaid(cfg: Config, s: System, m: Id) {
    forall steps: seq<Step> :: PaidAfter(cfg, s, steps, m)
  }

  ghost predicate PaidAfter(cfg: Config, s: System, steps: seq<Step>, m: Id) {
    var milestones := Run(cfg, s, steps).db.milestones;
    m in milestones && milestones[m].status == PAID
  }

  predicate NobodySubmits(tasks: map<Id, Task>, m: Id) {
    forall r :: r in tasks ==> tasks[r] != WriteSubmitted(m)
  }

  lemma NoNewSubmission(cfg: Config, s: System, step: Step, m: Id)
    requires m in s.db.milestones && s.db.milestones[m].status == PAID && NobodySubmits(s.tasks, m)
    ensures NobodySubmits(Next(cfg, s, step).tasks, m)
  {
    hide DbRemaining, E.Apply, AllPaid, Write, Key, Cents, JobTaken;
  }

  lemma {:induction false} PaidRuns(cfg: Config, s: System, steps: seq<Step>, m: Id)
    requires m in s.db.milestones && s.db.milestones[m].status == PAID && NobodySubmits(s.tasks, m)
    ensures PaidAfter(cfg, s, steps, m)
    decreases |steps|
  {
    if steps != [] {
      PaidUndone(cfg, s, steps[0], m);
      NoNewSubmission(cfg, s, steps[0], m);
      hide Next;
      PaidRuns(cfg, Next(cfg, s, steps[0]), steps[1..], m);
    }
  }

  /** A paid milestone is paid in every continuation if and only if no submission of it is in flight. */
  lemma PaidForGood(cfg: Config, s: System, m: Id)
    requires m in s.db.milestones && s.db.milestones[m].status == PAID
    ensures StaysPaid(cfg, s, m) <==> NobodySubmits(s.tasks, m)
  {
    if NobodySubmits(s.tasks, m) {
      forall steps: seq<Step> ensures PaidAfter(cfg, s, steps, m) {
        PaidRuns(cfg, s, steps, m);
      }
    } else {
      var r :| r in s.tasks && s.tasks[r] == WriteSubmitted(m);
      var step := Work(r, Truthful);
      PaidUndone(cfg, s, step, m);
      LastStep(cfg, s, step);
      hide Next, Run;
      assert !PaidAfter(cfg, s, [step], m);
    }
  }

  /** A request at some stage of confirming, approving, disputing or resolving `id`. */
  predicate MayRevive(task: Task, id: Id) {
    && (|| task.WriteFunded? || task.CallRelease? || task.WritePaid? || task.ReadPaid? || task.WriteCompleted?
        || task.CallDispute? || task.WriteDisputed? || task.CallResolve? || task.ReadResolved? || task.WriteResolved?)
    && task.contractId == id
  }

  predicate NobodyRevives(tasks: map<Id, Task>, id: Id) {
    forall r :: r in tasks ==> !MayRevive(tasks[r], id)
  }

  lemma NoNewRevival(cfg: Config, s: System, step: Step, id: Id)
    requires id in s.db.contracts && s.db.contracts[id].status == CANCELLED && NobodyRevives(s.tasks, id)
    ensures NobodyRevives(Next(cfg, s, step).tasks, id)
  {
    hide DbRemaining, E.Apply, AllPaid, Write, Key, Cents, JobTaken, HasMilestone;
  }

  /** A cancelled contract with no such request in flight is cancelled in every continuation. */
  lemma {:induction false} CancelledForGood(cfg: Config, s: System, steps: seq<Step>, id: Id)
    requires id in s.db.contracts && s.db.contracts[id].status == CANCELLED && NobodyRevives(s.tasks, id)
    ensures var contracts := Run(cfg, s, steps).db.contracts;
            id in contracts && contracts[id].status == CANCELLED
    decreases |steps|
  {
    if steps != [] {
      CancelledUndone(cfg, s, steps[0], id);
      NoNewRevival(cfg, s, steps[0], id);
      hide Next;
      CancelledForGood(cfg, Next(cfg, s, steps[0]), steps[1..], id);
    }
  }

  /** The requests that still have to call the chain or read for `id`: what they write depends on what it answers. */
  predicate Undecided(task: Task, id: Id) {
    MayRevive(task, id)
    && !(task.WriteFunded? || task.WriteCompleted? || task.WriteDisputed? || task.WriteResolved?)
  }

  ghost predicate StaysCancelled(cfg: Config, s: System, id: Id) {
    forall steps: seq<Step> :: CancelledAfter(cfg, s, steps, id)
  }

  ghost predicate CancelledAfter(cfg: Config, s: System, steps: seq<Step>, id: Id) {
    var contracts := Run(cfg, s, steps).db.contracts;
    id in contracts && contracts[id].status == CANCELLED
  }

  /** A resolution that refunds, or whose row the database will always refuse. */
  predicate Spent(payments: seq<Payment>, task: Task, id: Id) {
    task.WriteResolved?
    && (task.decision.RefundToClient? || !CanRecord(payments, Payment(id, None, task.remaining, task.tx)))
  }

  /** The only writes left for `id` are such resolutions. */
  predicate OnlySpent(db: Db, tasks: map<Id, Task>, id: Id) {
    forall r :: r in tasks && MayRevive(tasks[r], id) ==> Spent(db.payments, tasks[r], id)
  }

  lemma StillSpent(before: seq<Payment>, after: seq<Payment>, task: Task, id: Id)
    requires before <= after && Spent(before, task, id)
    ensures Spent(after, task, id)
  {
    if TxRecorded(before, task.tx) {
      var q :| q in before && q.tx == task.tx;
      assert q in after;
    }
  }

  lemma PaymentsGrow(cfg: Config, s: System, step: Step)
    ensures s.db.payments <= Next(cfg, s, step).db.payments
  {
    if step.Work? && step.request in s.tasks {
      OneRow(s.db, s.tasks[step.request]);
      WorkWrites(cfg, s.db, s.chain, s.tasks[step.request], step.reply);
    }
    hide Write, Advance, Refused;
  }

  lemma SpentStays(cfg: Config, s: System, step: Step, id: Id)
    requires id in s.db.contracts && s.db.contracts[id].status == CANCELLED && OnlySpent(s.db, s.tasks, id)
    ensures OnlySpent(Next(cfg, s, step).db, Next(cfg, s, step).tasks, id)
  {
    hide Next, Spent, MayRevive;
    PaymentsGrow(cfg, s, step);
    var s' := Next(cfg, s, step);
    forall r | r in s'.tasks && MayRevive(s'.tasks[r], id) ensures Spent(s'.db.payments, s'.tasks[r], id) {
      NoFreshRevival(cfg, s, step, id, r);
      StillSpent(s.db.payments, s'.db.payments, s.tasks[r], id);
    }
  }

  /** No request about a cancelled contract is admitted, and a resolution's write ends it. */
  lemma NoFreshRevival(cfg: Config, s: System, step: Step, id: Id, r: Id)
    requires id in s.db.contracts && s.db.contracts[id].status == CANCELLED && OnlySpent(s.db, s.tasks, id)
    requires var tasks := Next(cfg, s, step).tasks; r in tasks && MayRevive(tasks[r], id)
    ensures r in s.tasks && s.tasks[r] == Next(cfg, s, step).tasks[r]
  {
    hide DbRemaining, E.Apply, AllPaid, Write, Key, Cents, JobTaken, HasMilestone, CanRecord;
  }

  lemma {:induction false} SpentRuns(cfg: Config, s: System, steps: seq<Step>, id: Id)
    requires id in s.db.contracts && s.db.contracts[id].status == CANCELLED && OnlySpent(s.db, s.tasks, id)
    ensures CancelledAfter(cfg, s, steps, id)
    decreases |steps|
  {
    if steps != [] {
      SpentReviveNothing(cfg, s, steps[0], id);
      SpentStays(cfg, s, steps[0], id);
      hide Next, OnlySpent;
      SpentRuns(cfg, Next(cfg, s, steps[0]), steps[1..], id);
    }
  }

  lemma SpentReviveNothing(cfg: Config, s: System, step: Step, id: Id)
    requires id in s.db.contracts && s.db.contracts[id].status == CANCELLED && OnlySpent(s.db, s.tasks, id)
    ensures var contracts := Next(cfg, s, step).db.contracts;
            id in contracts && contracts[id].status == CANCELLED
  {
    CancelledUndone(cfg, s, step, id);
    hide Next, CanRecord, EscrowTxTaken;
  }

  /**
   * With only direct writes in flight for it, and no confirmation whose hash another contract holds
   * for now, a cancelled contract stays cancelled in every continuation if and only if none of them
   * revives it. Whether an undecided request comes to write depends on what the chain accepts by then.
   */
  lemma CancelledExactly(cfg: Config, s: System, id: Id)
    requires id in s.db.contracts && s.db.contracts[id].status == CANCELLED
    requires forall r :: r in s.tasks ==> !Undecided(s.tasks[r], id)
    requires forall r :: r in s.tasks && s.tasks[r].WriteFunded? && s.tasks[r].contractId == id ==>
               !EscrowTxTaken(s.db, id, s.tasks[r].tx)
    ensures StaysCancelled(cfg, s, id) <==> forall r :: r in s.tasks ==> !Revives(s.db, s.tasks[r], id)
  {
    hide Next, Run, EscrowTxTaken, CanRecord;
    if forall r :: r in s.tasks ==> !Revives(s.db, s.tasks[r], id) {
      assert OnlySpent(s.db, s.tasks, id);
      forall steps: seq<Step> ensures CancelledAfter(cfg, s, steps, id) {
        SpentRuns(cfg, s, steps, id);
      }
    } else {
      var r :| r in s.tasks && Revives(s.db, s.tasks[r], id);
      var step := Work(r, Truthful);
      CancelledUndone(cfg, s, step, id);
      LastStep(cfg, s, step);
      assert !CancelledAfter(cfg, s, [step], id);
    }
  }

  lemma LastStep(cfg: Config, s: System, step: Step)
    ensures Run(cfg, s, [step]) == Next(cfg, s, step)
  {
    hide Next;
    assert Run(cfg, s, [step]) == Run(cfg, Next(cfg, s, step), []);
  }

  // ---- a job's only contract ----

  lemma ContractStays(cfg: Config, s: System, step: Step, id: Id)
    requires id in s.db.contracts
    ensures var after := Next(cfg, s, step).db.contracts;
            id in after && after[id].jobId == s.db.contracts[id].jobId
  {
    if step.Work? && step.request in s.tasks {
      WriteLeavesJob(s.db, s.tasks[step.request], id);
    }
    hide DbRemaining, E.Apply, AllPaid, Write, Key, Cents;
  }

  lemma WriteLeavesJob(db: Db, task: Task, id: Id)
    requires id in db.contracts
    ensures id in Write(db, task).contracts && Write(db, task).contracts[id].jobId == db.contracts[id].jobId
  {
    hide WithMilestones, CanRecord, EscrowTxTaken, JobTaken;
  }

  /**
   * A job that once had a contract has it in every continuation: whatever became of the contract, and
   * although a cancellation marks the job open, no new request contracts it again or cancels it.
   */
  lemma {:induction false} JobSpent(cfg: Config, s: System, steps: seq<Step>, id: Id, req: Request)
    requires id in s.db.contracts
    requires (req.Create? || req.CancelJob?) && req.jobId == s.db.contracts[id].jobId
    ensures var db := Run(cfg, s, steps).db;
            Admit(db, req) == None && (req.Create? ==> !CanCreate(db, req))
    decreases |steps|
  {
    if steps == [] {
      assert JobTaken(s.db, req.jobId);
    } else {
      ContractStays(cfg, s, steps[0], id);
      hide Next, CanCreate, Admit;
      JobSpent(cfg, Next(cfg, s, steps[0]), steps[1..], id, req);
    }
  }

  predicate JobCancelled(db: Db, jobId: Id) {
    jobId in db.jobs && db.jobs[jobId].status == JOB_CANCELLED
  }

  /** A job becomes cancelled, with or without a contract, exactly when an admitted cancellation of it is written. */
  lemma JobDropped(cfg: Config, s: System, step: Step, jobId: Id)
    requires jobId in s.db.jobs && !JobCancelled(s.db, jobId)
    ensures jobId in Next(cfg, s, step).db.jobs
    ensures JobCancelled(Next(cfg, s, step).db, jobId) <==> Runs(s, step, DropJob(jobId))
  {
    if step.Work? && step.request in s.tasks {
      WriteDrops(s.db, s.tasks[step.request], jobId);
      WorkWrites(cfg, s.db, s.chain, s.tasks[step.request], step.reply);
    }
    hide Advance, Write;
  }

  lemma WriteDrops(db: Db, task: Task, jobId: Id)
    requires jobId in db.jobs && !JobCancelled(db, jobId)
    ensures jobId in Write(db, task).jobs
    ensures JobCancelled(Write(db, task), jobId) <==> task == DropJob(jobId)
  {
    hide WithMilestones, CanRecord, CanCreate, EscrowTxTaken;
  }

  predicate NobodyDrops(tasks: map<Id, Task>, jobId: Id) {
    forall r :: r in tasks ==> tasks[r] != DropJob(jobId)
  }

  ghost predicate NeverDropped(cfg: Config, s: System, jobId: Id) {
    forall steps: seq<Step> :: !JobCancelled(Run(cfg, s, steps).db, jobId)
  }

  lemma NoNewDrop(cfg: Config, s: System, step: Step, id: Id)
    requires id in s.db.contracts && NobodyDrops(s.tasks, s.db.contracts[id].jobId)
    ensures NobodyDrops(Next(cfg, s, step).tasks, s.db.contracts[id].jobId)
  {
    assert JobTaken(s.db, s.db.contracts[id].jobId);
    hide DbRemaining, E.Apply, AllPaid, Write, Key, Cents, JobTaken, HasMilestone;
  }

  lemma {:induction false} UndroppedRuns(cfg: Config, s: System, steps: seq<Step>, id: Id, jobId: Id)
    requires id in s.db.contracts && s.db.contracts[id].jobId == jobId && jobId in s.db.jobs
    requires !JobCancelled(s.db, jobId) && NobodyDrops(s.tasks, jobId)
    ensures !JobCancelled(Run(cfg, s, steps).db, jobId)
    decreases |steps|
  {
    if steps != [] {
      JobDropped(cfg, s, steps[0], jobId);
      NoNewDrop(cfg, s, steps[0], id);
      ContractStays(cfg, s, steps[0], id);
      hide Next;
      UndroppedRuns(cfg, Next(cfg, s, steps[0]), steps[1..], id, jobId);
    }
  }

  /** A job with a contract is never cancelled in any continuation if and only if no cancellation of it is in flight. */
  lemma JobSafeForGood(cfg: Config, s: System, id: Id)
    requires id in s.db.contracts && s.db.contracts[id].jobId in s.db.jobs
    requires !JobCancelled(s.db, s.db.contracts[id].jobId)
    ensures NeverDropped(cfg, s, s.db.contracts[id].jobId) <==> NobodyDrops(s.tasks, s.db.contracts[id].jobId)
  {
    var jobId := s.db.contracts[id].jobId;
    if NobodyDrops(s.tasks, jobId) {
      forall steps: seq<Step> ensures !JobCancelled(Run(cfg, s, steps).db, jobId) {
        UndroppedRuns(cfg, s, steps, id, jobId);
      }
    } else {
      var r :| r in s.tasks && s.tasks[r] == DropJob(jobId);
      var step := Work(r, Truthful);
      JobDropped(cfg, s, step, jobId);
      LastStep(cfg, s, step);
      hide Next, Run;
      assert JobCancelled(Run(cfg, s, [step]).db, jobId);
    }
  }

  // ---- runs that do it ----

  lemma Arrived(cfg: Config, s: System, r: Id, body: Request, task: Task)
    requires r !in s.tasks && Admit(s.db, body) == Some(task)
    ensures Next(cfg, s, Arrive(r, body)) == s.(tasks := s.tasks[r := task])
  {
  }

  lemma Wrote(cfg: Config, s: System, r: Id, task: Task)
    requires r in s.tasks && s.tasks[r] == task
    requires task.WriteFunded? || task.WriteSubmitted? || task.WriteCancelled? || task.WriteContract? || task.DropJob?
    ensures Next(cfg, s, Work(r, Truthful)) == System(Write(s.db, task), s.chain, s.tasks - {r})
  {
  }

  /** Two requests for one contract: it is cancelled while its funding is being confirmed. */
  function ConfirmAgainstCancel(id: Id, client: Id, tx: nat, r1: Id, r2: Id): seq<Step> {
    [Arrive(r1, ConfirmFund(id, client, tx)), Arrive(r2, Cancel(id, client, CLIENT)),
     Work(r2, Truthful), Work(r2, Truthful), Work(r1, Truthful)]
  }

  /** The last two accesses of a cancellation without a refund. */
  lemma Cancelled(cfg: Config, s: System, r: Id, id: Id, jobId: Id)
    requires r in s.tasks && s.tasks[r] == ReadCancelled(id, jobId, None)
    ensures Next(cfg, Next(cfg, s, Work(r, Truthful)), Work(r, Truthful))
         == System(Write(s.db, WriteCancelled(id, jobId, None, DbRemaining(cfg, s.db, id))), s.chain, s.tasks - {r})
  {
    var task := WriteCancelled(id, jobId, None, DbRemaining(cfg, s.db, id));
    var s' := Next(cfg, s, Work(r, Truthful));
    assert s' == System(s.db, s.chain, s.tasks[r := task]);
    Wrote(cfg, s', r, task);
    assert s.tasks[r := task] - {r} == s.tasks - {r};
    hide DbRemaining, Write;
  }

  /** From any pending contract, that ends with the contract active on a job marked open. */
  lemma CancelledThenActive(cfg: Config, s: System, id: Id, tx: nat, r1: Id, r2: Id)
    requires r1 != r2 && r1 !in s.tasks && r2 !in s.tasks
    requires id in s.db.contracts && s.db.contracts[id].jobId in s.db.jobs
    requires s.db.contracts[id].status == PENDING && s.db.contracts[id].escrowTx.None?
    requires !EscrowTxTaken(s.db, id, tx)
    ensures var c := s.db.contracts[id];
            var f := Run(cfg, s, ConfirmAgainstCancel(id, c.clientId, tx, r1, r2));
            && id in f.db.contracts && f.db.contracts[id].status == ACTIVE
            && c.jobId in f.db.jobs && f.db.jobs[c.jobId].status == OPEN
  {
    hide Next, Run, DbRemaining, Write, Key, JobTaken, EscrowTxTaken;
    var c := s.db.contracts[id];
    var steps := ConfirmAgainstCancel(id, c.clientId, tx, r1, r2);
    var s1 := Next(cfg, s, steps[0]);
    Arrived(cfg, s, r1, steps[0].body, WriteFunded(id, tx));
    var s2 := Next(cfg, s1, steps[1]);
    Arrived(cfg, s1, r2, steps[1].body, ReadCancelled(id, c.jobId, None));
    var s4 := Next(cfg, Next(cfg, s2, steps[2]), steps[3]);
    Cancelled(cfg, s2, r2, id, c.jobId);
    var s5 := Next(cfg, s4, steps[4]);
    Wrote(cfg, s4, r1, WriteFunded(id, tx));
    FundedAfterCancel(s.db, id, tx, DbRemaining(cfg, s.db, id));
    FiveSteps(cfg, s, steps);
  }

  lemma FundedAfterCancel(db: Db, id: Id, tx: nat, remaining: nat)
    requires id in db.contracts && db.contracts[id].jobId in db.jobs && !EscrowTxTaken(db, id, tx)
    ensures var cancelled := Write(db, WriteCancelled(id, db.contracts[id].jobId, None, remaining));
            var after := Write(cancelled, WriteFunded(id, tx));
            && id in after.contracts && after.contracts[id].status == ACTIVE
            && db.contracts[id].jobId in after.jobs && after.jobs[db.contracts[id].jobId].status == OPEN
  {
    var cancelled := Write(db, WriteCancelled(id, db.contracts[id].jobId, None, remaining));
    assert !EscrowTxTaken(cancelled, id, tx);
  }

  /** A job is cancelled while a contract on it is being created. */
  function CancelAgainstCreate(req: Request, r1: Id, r2: Id): seq<Step>
    requires req.Create?
  {
    [Arrive(r1, CancelJob(req.jobId, req.caller, CLIENT)), Arrive(r2, req), Work(r2, Truthful), Work(r1, Truthful)]
  }

  /** From any state in which the contract can be created, that ends with a pending contract on a cancelled job. */
  lemma ContractOnCancelledJob(cfg: Config, s: System, req: Request, r1: Id, r2: Id)
    requires r1 != r2 && r1 !in s.tasks && r2 !in s.tasks
    requires req.Create? && Admit(s.db, req).Some? && CanCreate(s.db, req)
    ensures var f := Run(cfg, s, CancelAgainstCreate(req, r1, r2));
            && JobCancelled(f.db, req.jobId)
            && req.contractId in f.db.contracts && f.db.contracts[req.contractId].jobId == req.jobId
            && f.db.contracts[req.contractId].status == PENDING
  {
    hide Next, Run, WithMilestones, CanCreate, JobTaken;
    var steps := CancelAgainstCreate(req, r1, r2);
    Arrived(cfg, s, r1, steps[0].body, DropJob(req.jobId));
    var s1 := Next(cfg, s, steps[0]);
    Arrived(cfg, s1, r2, req, WriteContract(req));
    var s2 := Next(cfg, s1, steps[1]);
    Wrote(cfg, s2, r2, WriteContract(req));
    var s3 := Next(cfg, s2, steps[2]);
    Wrote(cfg, s3, r1, DropJob(req.jobId));
    FourSteps(cfg, s, steps);
  }

  /** The chain takes this release from an entry that has at least that much left. */
  ghost predicate Releasable(cfg: Config, chain: E.Chain, id: Id, stroops: int) {
    && E.Inv(chain) && cfg.admin != chain.self && 0 < stroops <= E.I128_MAX
    && Key(id) in chain.entries
    && chain.entries[Key(id)].status.Funded? && chain.entries[Key(id)].admin == cfg.admin
    && stroops <= E.Remaining(chain.entries[Key(id)])
  }

  /** A release that reaches such an entry takes effect, whether or not its reply comes back. */
  lemma Releases(cfg: Config, s: System, r: Id, id: Id, m: Id, amount: nat, reply: Reply)
    requires Releasable(cfg, s.chain, id, Cents(cfg, amount)) && !reply.NotSent?
    requires r in s.tasks && s.tasks[r] == CallRelease(id, m, amount)
    ensures var s' := Next(cfg, s, Work(r, reply));
            && s'.db == s.db && E.Inv(s'.chain) && s'.chain.self == s.chain.self
            && Key(id) in s'.chain.entries
            && var (e, e') := (s.chain.entries[Key(id)], s'.chain.entries[Key(id)]);
            && e'.admin == e.admin && e'.total == e.total && e'.released == e.released + Cents(cfg, amount)
            && (Cents(cfg, amount) < E.Remaining(e) ==> e'.status.Funded?)
            && |s'.chain.events| == |s.chain.events| + 1
            && s'.tasks == if reply.Lost? then s.tasks - {r}
                           else s.tasks[r := WritePaid(id, m, amount, |s.chain.events|)]
  {
    hide Key, Cents;
    assert E.EntryOk(s.chain.entries[Key(id)], s.chain.self);
    hide E.Inv;
    var call := E.ReleaseMilestone(Key(id), cfg.admin, Cents(cfg, amount));
    S.AcceptedGoesThrough(s.chain, {cfg.admin}, call);
    S.StepSurplus(s.chain, S.Invoke({cfg.admin}, call));
    assert {cfg.admin} - {s.chain.self} == {cfg.admin};
    hide E.Apply;
  }

  lemma Paid(cfg: Config, s: System, r: Id, id: Id, m: Id, amount: nat, tx: nat)
    requires r in s.tasks && s.tasks[r] == WritePaid(id, m, amount, tx) && m in s.db.milestones
    requires CanRecord(s.db.payments, Payment(id, Some(m), amount, tx))
    ensures var s' := Next(cfg, s, Work(r, Truthful));
            && s'.db == SetMilestone(s.db, m, PAID).(payments := s.db.payments + [Payment(id, Some(m), amount, tx)])
            && s'.chain == s.chain && s'.tasks == s.tasks[r := ReadPaid(id)]
  {
    hide CanRecord;
    assert s.db.payments + [Payment(id, Some(m), amount, tx)] != s.db.payments;
  }

  // ---- two submissions of one milestone ----

  function DoubleSubmit(id: Id, m: Id, client: Id, freelancer: Id, r1: Id, r2: Id, r3: Id): seq<Step> {
    [Arrive(r1, SubmitMilestone(id, m, freelancer)), Arrive(r2, SubmitMilestone(id, m, freelancer)), Work(r1, Truthful),
     Arrive(r3, ApproveMilestone(id, m, client)), Work(r3, Truthful), Work(r3, Truthful), Work(r2, Truthful)]
  }

  /** When both are admitted before either is written, a milestone can be back in review although it is paid. */
  lemma PaidThenInReview(cfg: Config, s: System, id: Id, m: Id, r1: Id, r2: Id, r3: Id)
    requires r1 != r2 && r1 != r3 && r2 != r3 && r1 !in s.tasks && r2 !in s.tasks && r3 !in s.tasks
    requires id in s.db.contracts && s.db.contracts[id].status == ACTIVE
    requires HasMilestone(s.db, id, m) && s.db.milestones[m].status == TODO
    requires Releasable(cfg, s.chain, id, Cents(cfg, s.db.milestones[m].amount))
    requires CanRecord(s.db.payments, Payment(id, Some(m), s.db.milestones[m].amount, |s.chain.events|))
    ensures var c := s.db.contracts[id];
            var f := Run(cfg, s, DoubleSubmit(id, m, c.clientId, c.freelancerId, r1, r2, r3));
            && m in f.db.milestones && f.db.milestones[m].status == IN_REVIEW
            && MilestoneRecorded(f.db.payments, m)
  {
    hide Next, Run, Releasable, CanRecord, Cents, JobTaken, MilestoneRecorded, Key;
    var (c, amount, tx) := (s.db.contracts[id], s.db.milestones[m].amount, |s.chain.events|);
    var steps := DoubleSubmit(id, m, c.clientId, c.freelancerId, r1, r2, r3);
    SubmittedTwice(cfg, s, id, m, r1, r2);
    var s3 := Next(cfg, Next(cfg, Next(cfg, s, steps[0]), steps[1]), steps[2]);
    PaidThenWritten(cfg, s3, id, m, r2, r3);
    SevenSteps(cfg, s, steps);
  }

  /** An approval run to its payment while a submission is still to be written. */
  lemma PaidThenWritten(cfg: Config, s: System, id: Id, m: Id, r2: Id, r3: Id)
    requires r2 in s.tasks && s.tasks[r2] == WriteSubmitted(m) && r3 !in s.tasks
    requires id in s.db.contracts && s.db.contracts[id].status == ACTIVE
    requires HasMilestone(s.db, id, m) && s.db.milestones[m].status == IN_REVIEW
    requires Releasable(cfg, s.chain, id, Cents(cfg, s.db.milestones[m].amount))
    requires CanRecord(s.db.payments, Payment(id, Some(m), s.db.milestones[m].amount, |s.chain.events|))
    ensures var approve := Arrive(r3, ApproveMilestone(id, m, s.db.contracts[id].clientId));
            var (work, write) := (Work(r3, Truthful), Work(r2, Truthful));
            var f := Next(cfg, Next(cfg, Next(cfg, Next(cfg, s, approve), work), work), write);
            && m in f.db.milestones && f.db.milestones[m].status == IN_REVIEW
            && MilestoneRecorded(f.db.payments, m)
  {
    hide Next, Releasable, CanRecord, Cents, JobTaken, MilestoneRecorded, Key;
    var (amount, tx) := (s.db.milestones[m].amount, |s.chain.events|);
    var p := Payment(id, Some(m), amount, tx);
    var approve := ApproveMilestone(id, m, s.db.contracts[id].clientId);
    Arrived(cfg, s, r3, approve, CallRelease(id, m, amount));
    var s1 := Next(cfg, s, Arrive(r3, approve));
    Releases(cfg, s1, r3, id, m, amount, Truthful);
    var s2 := Next(cfg, s1, Work(r3, Truthful));
    Paid(cfg, s2, r3, id, m, amount, tx);
    Wrote(cfg, Next(cfg, s2, Work(r3, Truthful)), r2, WriteSubmitted(m));
    RecordedAppend(s.db.payments, p);
  }

  /** Two submissions admitted, one of them written. */
  lemma SubmittedTwice(cfg: Config, s: System, id: Id, m: Id, r1: Id, r2: Id)
    requires r1 != r2 && r1 !in s.tasks && r2 !in s.tasks
    requires id in s.db.contracts && s.db.contracts[id].status == ACTIVE
    requires HasMilestone(s.db, id, m) && s.db.milestones[m].status == TODO
    ensures var submit := SubmitMilestone(id, m, s.db.contracts[id].freelancerId);
            Next(cfg, Next(cfg, Next(cfg, s, Arrive(r1, submit)), Arrive(r2, submit)), Work(r1, Truthful))
            == System(SetMilestone(s.db, m, IN_REVIEW), s.chain, s.tasks[r2 := WriteSubmitted(m)])
  {
    hide Next, JobTaken;
    var submit := SubmitMilestone(id, m, s.db.contracts[id].freelancerId);
    Arrived(cfg, s, r1, submit, WriteSubmitted(m));
    var s1 := Next(cfg, s, Arrive(r1, submit));
    Arrived(cfg, s1, r2, submit, WriteSubmitted(m));
    var s2 := Next(cfg, s1, Arrive(r2, submit));
    Wrote(cfg, s2, r1, WriteSubmitted(m));
    assert s.tasks[r1 := WriteSubmitted(m)][r2 := WriteSubmitted(m)] - {r1} == s.tasks[r2 := WriteSubmitted(m)];
  }

  // ---- a reply that is lost ----

  function ApproveTwice(id: Id, m: Id, client: Id, r1: Id, r2: Id): seq<Step> {
    [Arrive(r1, ApproveMilestone(id, m, client)), Work(r1, Lost),
     Arrive(r2, ApproveMilestone(id, m, client)), Work(r2, Truthful), Work(r2, Truthful)]
  }

  /**
   * An approval whose reply is lost has paid, but the milestone stays in review: approving it again
   * pays it again while the entry lasts, and only the second payment has a row.
   */
  lemma PaidTwice(cfg: Config, s: System, id: Id, m: Id, r1: Id, r2: Id)
    requires r1 != r2 && r1 !in s.tasks && r2 !in s.tasks
    requires id in s.db.contracts && s.db.contracts[id].status == ACTIVE
    requires HasMilestone(s.db, id, m) && s.db.milestones[m].status == IN_REVIEW
    requires Releasable(cfg, s.chain, id, 2 * Cents(cfg, s.db.milestones[m].amount))
    requires CanRecord(s.db.payments, Payment(id, Some(m), s.db.milestones[m].amount, |s.chain.events| + 1))
    ensures var amount := s.db.milestones[m].amount;
            var f := Run(cfg, s, ApproveTwice(id, m, s.db.contracts[id].clientId, r1, r2));
            && Key(id) in f.chain.entries
            && f.chain.entries[Key(id)].released == s.chain.entries[Key(id)].released + 2 * Cents(cfg, amount)
            && f.db.payments == s.db.payments + [Payment(id, Some(m), amount, |s.chain.events| + 1)]
  {
    hide Next, Run, CanRecord, Cents, E.Inv, Key, JobTaken, Write;
    var (c, amount) := (s.db.contracts[id], s.db.milestones[m].amount);
    var steps := ApproveTwice(id, m, c.clientId, r1, r2);
    var s1 := Next(cfg, s, steps[0]);
    Arrived(cfg, s, r1, steps[0].body, CallRelease(id, m, amount));
    var s2 := Next(cfg, s1, steps[1]);
    Releases(cfg, s1, r1, id, m, amount, Lost);
    var s3 := Next(cfg, s2, steps[2]);
    Arrived(cfg, s2, r2, steps[2].body, CallRelease(id, m, amount));
    var s4 := Next(cfg, s3, steps[3]);
    Releases(cfg, s3, r2, id, m, amount, Truthful);
    var s5 := Next(cfg, s4, steps[4]);
    Paid(cfg, s4, r2, id, m, amount, |s.chain.events| + 1);
    FiveSteps(cfg, s, steps);
  }

  /** Two approvals admitted before either has called the chain. */
  function OverlappingApprovals(id: Id, m: Id, client: Id, r1: Id, r2: Id): seq<Step> {
    [Arrive(r1, ApproveMilestone(id, m, client)), Arrive(r2, ApproveMilestone(id, m, client)),
     Work(r1, Truthful), Work(r2, Truthful)]
  }

  /** They pay a milestone twice as well, with every reply truthful and every request alive. */
  lemma PaidTwiceTruthfully(cfg: Config, s: System, id: Id, m: Id, r1: Id, r2: Id)
    requires r1 != r2 && r1 !in s.tasks && r2 !in s.tasks
    requires id in s.db.contracts && s.db.contracts[id].status == ACTIVE
    requires HasMilestone(s.db, id, m) && s.db.milestones[m].status == IN_REVIEW
    requires Releasable(cfg, s.chain, id, 2 * Cents(cfg, s.db.milestones[m].amount))
    ensures var amount := s.db.milestones[m].amount;
            var f := Run(cfg, s, OverlappingApprovals(id, m, s.db.contracts[id].clientId, r1, r2));
            && Key(id) in f.chain.entries
            && f.chain.entries[Key(id)].released == s.chain.entries[Key(id)].released + 2 * Cents(cfg, amount)
            && f.tasks == s.tasks[r1 := WritePaid(id, m, amount, |s.chain.events|)]
                                 [r2 := WritePaid(id, m, amount, |s.chain.events| + 1)]
  {
    hide Next, Run, Cents, E.Inv, Key, JobTaken, E.Apply, E.Judge, Write;
    var (c, amount) := (s.db.contracts[id], s.db.milestones[m].amount);
    var steps := OverlappingApprovals(id, m, c.clientId, r1, r2);
    var s1 := Next(cfg, s, steps[0]);
    Arrived(cfg, s, r1, steps[0].body, CallRelease(id, m, amount));
    var s2 := Next(cfg, s1, steps[1]);
    Arrived(cfg, s1, r2, steps[1].body, CallRelease(id, m, amount));
    var s3 := Next(cfg, s2, steps[2]);
    Releases(cfg, s2, r1, id, m, amount, Truthful);
    var s4 := Next(cfg, s3, steps[3]);
    Releases(cfg, s3, r2, id, m, amount, Truthful);
    FourSteps(cfg, s, steps);
  }

  // ---- short runs, step by step ----

  lemma FiveSteps(cfg: Config, s: System, steps: seq<Step>)
    requires |steps| == 5
    ensures Run(cfg, s, steps)
         == Next(cfg, Next(cfg, Next(cfg, Next(cfg, Next(cfg, s, steps[0]), steps[1]), steps[2]), steps[3]), steps[4])
  {
    hide Next;
    var s1 := Next(cfg, s, steps[0]);
    assert Run(cfg, s, steps) == Run(cfg, s1, steps[1..]);
    FourSteps(cfg, s1, steps[1..]);
  }

  lemma FourSteps(cfg: Config, s: System, steps: seq<Step>)
    requires |steps| == 4
    ensures Run(cfg, s, steps) == Next(cfg, Next(cfg, Next(cfg, Next(cfg, s, steps[0]), steps[1]), steps[2]), steps[3])
  {
    hide Next;
    var s1 := Next(cfg, s, steps[0]);
    var s2 := Next(cfg, s1, steps[1]);
    assert Run(cfg, s, steps) == Run(cfg, s1, steps[1..]) == Run(cfg, s2, steps[2..]);
    var s3 := Next(cfg, s2, steps[2]);
    assert Run(cfg, s2, steps[2..]) == Run(cfg, s3, steps[3..]);
    assert Run(cfg, s3, steps[3..]) == Next(cfg, s3, steps[3]);
  }

  lemma SevenSteps(cfg: Config, s: System, steps: seq<Step>)
    requires |steps| == 7
    ensures Run(cfg, s, steps)
         == Next(cfg, Next(cfg, Next(cfg, Next(cfg, Next(cfg, Next(cfg, Next(cfg, s, steps[0]), steps[1]), steps[2]),
              steps[3]), steps[4]), steps[5]), steps[6])
  {
    hide Next;
    var s1 := Next(cfg, s, steps[0]);
    var s2 := Next(cfg, s1, steps[1]);
    assert Run(cfg, s, steps) == Run(cfg, s1, steps[1..]) == Run(cfg, s2, steps[2..]);
    FiveSteps(cfg, s2, steps[2..]);
  }
}
