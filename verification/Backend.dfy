// The backend's contract lifecycle: what each request checks when it reads the
// database, and what each of its later accesses to the chain and the database does.

module Backend {
  import opened Sums
  import opened TokenLedger
  import E = EscrowSpec
  import R = Rounding
  import K = KeyEncoding

  type Id = string

  datatype ContractStatus = PENDING | ACTIVE | COMPLETED | DISPUTED | CANCELLED
  datatype MilestoneStatus = TODO | IN_REVIEW | PAID  // APPROVED exists only inside one transaction
  datatype JobStatus = OPEN | IN_PROGRESS | JOB_COMPLETED | JOB_CANCELLED  // nothing here writes JOB_COMPLETED
  datatype Role = CLIENT | FREELANCER | ADMIN

  datatype Contract = Contract(jobId: Id, clientId: Id, freelancerId: Id, status: ContractStatus, escrowTx: Option<nat>)
  datatype Milestone = Milestone(contractId: Id, amount: nat, status: MilestoneStatus)
  datatype Job = Job(clientId: Id, status: JobStatus)

  /** `tx` stands for the transaction hash: the position of its event in the chain's log. */
  datatype Payment = Payment(contractId: Id, milestoneId: Option<Id>, amount: nat, tx: nat)

  datatype Db = Db(
    jobs: map<Id, Job>, contracts: map<Id, Contract>, milestones: map<Id, Milestone>, payments: seq<Payment>)

  /** What the deployment fixes: the float rounding, the platform's key and token, users' wallets. */
  datatype Config = Config(fl: real -> real, admin: Address, token: Address, wallet: Id -> Address)

  const DECIMAL_LIMIT := 1_000_000_000_000_000_000  // Decimal(18,7), in stroops

  function Key(contractId: Id): E.Symbol {
    K.ContractIdToSymbol(contractId)
  }

  function Cents(cfg: Config, amount: int): int {
    R.ReleaseStroops(cfg.fl, amount)
  }

  // ---- requests, and where they stand ----

  datatype Request =
    | CreateJob(jobId: Id, caller: Id)
    | CancelJob(jobId: Id, caller: Id, role: Role)
    | Create(caller: Id, jobId: Id, freelancerId: Id, contractId: Id, milestoneIds: seq<Id>, amounts: seq<nat>)
    | ConfirmFund(contractId: Id, caller: Id, tx: nat)
    | SubmitMilestone(contractId: Id, milestoneId: Id, caller: Id)
    | ApproveMilestone(contractId: Id, milestoneId: Id, caller: Id)
    | Dispute(contractId: Id, caller: Id, signer: Address)
    | ResolveDispute(contractId: Id, role: Role, decision: E.Decision, bps: E.u32)
    | Cancel(contractId: Id, caller: Id, role: Role)

  datatype Task =
    | WriteJob(jobId: Id, job: Job)
    | DropJob(jobId: Id)
    | WriteContract(request: Request)
    | WriteFunded(contractId: Id, tx: nat)
    | WriteSubmitted(milestoneId: Id)
    | CallRelease(contractId: Id, milestoneId: Id, amount: nat)
    | WritePaid(contractId: Id, milestoneId: Id, amount: nat, tx: nat)
    | ReadPaid(contractId: Id)
    | WriteCompleted(contractId: Id)
    | CallDispute(contractId: Id, signer: Address)
    | WriteDisputed(contractId: Id)
    | CallResolve(contractId: Id, decision: E.Decision, bps: E.u32)
    | ReadResolved(contractId: Id, decision: E.Decision, tx: nat)
    | WriteResolved(contractId: Id, decision: E.Decision, tx: nat, remaining: nat)
    | CallRefund(contractId: Id, jobId: Id)
    | ReadCancelled(contractId: Id, jobId: Id, refundTx: Option<nat>)
    | WriteCancelled(contractId: Id, jobId: Id, refundTx: Option<nat>, remaining: nat)

  /** The first read of a request with its guards; `None` is an error reply. */
  function Admit(db: Db, req: Request): Option<Task> {
    match req
    case CreateJob(jobId, caller) => Some(WriteJob(jobId, Job(caller, OPEN)))
    case CancelJob(jobId, caller, role) =>
      if jobId !in db.jobs then None
      else if db.jobs[jobId].clientId != caller && role != ADMIN then None
      else if db.jobs[jobId].status.JOB_COMPLETED? || db.jobs[jobId].status.JOB_CANCELLED? then None
      else if JobTaken(db, jobId) then None
      else Some(DropJob(jobId))
    case Create(caller, jobId, _, _, _, _) =>
      if jobId !in db.jobs || db.jobs[jobId].clientId != caller then None
      else if !db.jobs[jobId].status.OPEN? || JobTaken(db, jobId) then None
      else Some(WriteContract(req))
    case _ =>
      if req.contractId !in db.contracts then None
      else AdmitOn(db, db.contracts[req.contractId], req)
  }

  function AdmitOn(db: Db, c: Contract, req: Request): Option<Task>
    requires !req.CreateJob? && !req.CancelJob? && !req.Create?
  {
    match req
    case ConfirmFund(id, caller, tx) =>
      if c.clientId != caller || c.escrowTx.Some? then None
      else if c.status != PENDING && c.status != ACTIVE then None
      else Some(WriteFunded(id, tx))
    case SubmitMilestone(id, m, caller) =>
      if c.freelancerId != caller || c.status != ACTIVE then None
      else if !HasMilestone(db, id, m) || db.milestones[m].status != TODO then None
      else Some(WriteSubmitted(m))
    case ApproveMilestone(id, m, caller) =>
      if c.clientId != caller || c.status != ACTIVE then None
      else if !HasMilestone(db, id, m) || db.milestones[m].status != IN_REVIEW then None
      else Some(CallRelease(id, m, db.milestones[m].amount))
    case Dispute(id, caller, signer) =>
      if c.clientId != caller && c.freelancerId != caller then None
      else if c.status != ACTIVE then None
      else if c.escrowTx.Some? then Some(CallDispute(id, signer))
      else Some(WriteDisputed(id))
    case ResolveDispute(id, role, decision, bps) =>
      if role != ADMIN || c.status != DISPUTED then None
      else Some(CallResolve(id, decision, bps))
    case Cancel(id, caller, role) =>
      if c.clientId != caller && role != ADMIN then None
      else if c.status == COMPLETED || c.status == CANCELLED then None
      else if c.escrowTx.Some? && c.status != PENDING && role != ADMIN then None
      else if c.escrowTx.Some? then Some(CallRefund(id, c.jobId))
      else Some(ReadCancelled(id, c.jobId, None))
  }

  predicate JobTaken(db: Db, jobId: Id) {
    exists id :: id in db.contracts && db.contracts[id].jobId == jobId
  }

  predicate HasMilestone(db: Db, contractId: Id, milestoneId: Id) {
    milestoneId in db.milestones && db.milestones[milestoneId].contractId == contractId
  }

  // ---- the database's own rules ----

  predicate TxRecorded(payments: seq<Payment>, tx: nat) {
    exists p :: p in payments && p.tx == tx
  }

  predicate MilestoneRecorded(payments: seq<Payment>, milestoneId: Id) {
    exists p :: p in payments && p.milestoneId == Some(milestoneId)
  }

  /** One more row names what it names. */
  lemma RecordedAppend(payments: seq<Payment>, p: Payment)
    ensures forall m :: MilestoneRecorded(payments + [p], m) <==>
              MilestoneRecorded(payments, m) || p.milestoneId == Some(m)
    ensures forall q :: q in payments + [p] <==> q in payments || q == p
  {
    forall m ensures MilestoneRecorded(payments + [p], m) <==>
                       MilestoneRecorded(payments, m) || p.milestoneId == Some(m)
    {
      if MilestoneRecorded(payments, m) {
        var q :| q in payments && q.milestoneId == Some(m);
        assert q in payments + [p];
      }
      if p.milestoneId == Some(m) {
        assert p in payments + [p];
      }
    }
  }

  /** Inserting a payment fails on either unique column, or on an amount the column cannot hold. */
  predicate CanRecord(payments: seq<Payment>, p: Payment) {
    && !TxRecorded(payments, p.tx)
    && (p.milestoneId.Some? ==> !MilestoneRecorded(payments, p.milestoneId.value))
    && p.amount < DECIMAL_LIMIT
  }

  predicate EscrowTxTaken(db: Db, contractId: Id, tx: nat) {
    exists id :: id in db.contracts && id != contractId && db.contracts[id].escrowTx == Some(tx)
  }

  predicate CanCreate(db: Db, req: Request)
    requires req.Create?
  {
    && req.contractId !in db.contracts && K.IsUuid(req.contractId)
    && !JobTaken(db, req.jobId) && req.jobId in db.jobs
    && |req.milestoneIds| == |req.amounts| > 0
    && (forall i :: 0 <= i < |req.milestoneIds| ==> req.milestoneIds[i] !in db.milestones)
    && (forall i, j :: 0 <= i < j < |req.milestoneIds| ==> req.milestoneIds[i] != req.milestoneIds[j])
    && (forall i :: 0 <= i < |req.amounts| ==> 0 < req.amounts[i] < DECIMAL_LIMIT)
  }

  function WithMilestones(milestones: map<Id, Milestone>, contractId: Id, ids: seq<Id>, amounts: seq<nat>)
    : map<Id, Milestone>
    requires |ids| == |amounts|
  {
    if ids == [] then milestones
    else
      var n := |ids| - 1;
      WithMilestones(milestones, contractId, ids[..n], amounts[..n])[ids[n] := Milestone(contractId, amounts[n], TODO)]
  }

  function SetStatus(db: Db, id: Id, status: ContractStatus): Db
    requires id in db.contracts
  {
    db.(contracts := db.contracts[id := db.contracts[id].(status := status)])
  }

  function SetMilestone(db: Db, id: Id, status: MilestoneStatus): Db
    requires id in db.milestones
  {
    db.(milestones := db.milestones[id := db.milestones[id].(status := status)])
  }

  // ---- what the database says is left ----

  ghost function MilestoneCents(cfg: Config, milestones: map<Id, Milestone>, contractId: Id): int {
    Total(map m | m in milestones && milestones[m].contractId == contractId :: Cents(cfg, milestones[m].amount))
  }

  function PaymentCents(cfg: Config, payments: seq<Payment>, contractId: Id): int {
    if payments == [] then 0
    else
      var p := payments[|payments| - 1];
      PaymentCents(cfg, payments[..|payments| - 1], contractId)
      + if p.contractId == contractId then Cents(cfg, p.amount) else 0
  }

  /** `_remainingAmount`, in stroops. */
  ghost function DbRemaining(cfg: Config, db: Db, contractId: Id): nat {
    var left := MilestoneCents(cfg, db.milestones, contractId) - PaymentCents(cfg, db.payments, contractId);
    if left > 0 then left else 0
  }

  ghost predicate AllPaid(db: Db, contractId: Id) {
    forall m :: HasMilestone(db, contractId, m) ==> db.milestones[m].status == PAID
  }

  // ---- one access ----

  /** How a chain call comes back: truthfully, lost after it may have taken effect, or never sent. */
  datatype Reply = Truthful | Lost | NotSent

  datatype Result = Result(db: Db, chain: E.Chain, next: Option<Task>)

  /** A call signed by one key, which cannot be the escrow's own. `next` runs on a confirmed success. */
  function Call(db: Db, chain: E.Chain, call: E.Call, reply: Reply, next: Task): Result {
    var (after, outcome) := E.Apply(chain, {call.caller} - {chain.self}, call);
    if reply.NotSent? || !outcome.Ok? then Result(db, chain, None)
    else if reply.Lost? then Result(db, after, None)
    else Result(db, after, Some(next))
  }

  /** The next access of a request. The reply matters only to a chain call. */
  ghost function Advance(cfg: Config, db: Db, chain: E.Chain, task: Task, reply: Reply): Result {
    match task
    case CallRelease(id, m, amount) =>
      var stroops := E.Checked(Cents(cfg, amount));
      if stroops.None? then Result(db, chain, None)
      else Call(db, chain, E.ReleaseMilestone(Key(id), cfg.admin, stroops.value), reply,
                WritePaid(id, m, amount, |chain.events|))
    case CallDispute(id, signer) =>
      Call(db, chain, E.Dispute(Key(id), signer), reply, WriteDisputed(id))
    case CallResolve(id, decision, bps) =>
      Call(db, chain, E.Resolve(Key(id), cfg.admin, decision, bps), reply,
           ReadResolved(id, decision, |chain.events|))
    case CallRefund(id, jobId) =>
      Call(db, chain, E.Refund(Key(id), cfg.admin), reply, ReadCancelled(id, jobId, Some(|chain.events|)))
    case ReadPaid(id) => Result(db, chain, if AllPaid(db, id) then Some(WriteCompleted(id)) else None)
    case ReadResolved(id, decision, tx) =>
      Result(db, chain, Some(WriteResolved(id, decision, tx, DbRemaining(cfg, db, id))))
    case ReadCancelled(id, jobId, tx) =>
      Result(db, chain, Some(WriteCancelled(id, jobId, tx, DbRemaining(cfg, db, id))))
    case WritePaid(id, _, _, _) =>
      Result(Write(db, task), chain, if Write(db, task) == db then None else Some(ReadPaid(id)))
    case _ => Result(Write(db, task), chain, None)
  }

  /** A database transaction: it commits whole, or a broken rule leaves the database alone. */
  function Write(db: Db, task: Task): Db {
    match task
    case WriteJob(jobId, job) => if jobId in db.jobs then db else db.(jobs := db.jobs[jobId := job])
    case DropJob(jobId) =>
      if jobId !in db.jobs then db else db.(jobs := db.jobs[jobId := db.jobs[jobId].(status := JOB_CANCELLED)])
    case WriteContract(req) =>
      if !req.Create? || !CanCreate(db, req) then db
      else db.(
        contracts := db.contracts[req.contractId := Contract(req.jobId, req.caller, req.freelancerId, PENDING, None)],
        milestones := WithMilestones(db.milestones, req.contractId, req.milestoneIds, req.amounts),
        jobs := db.jobs[req.jobId := db.jobs[req.jobId].(status := IN_PROGRESS)])
    case WriteFunded(id, tx) =>
      if id !in db.contracts || EscrowTxTaken(db, id, tx) then db
      else db.(contracts := db.contracts[id := db.contracts[id].(escrowTx := Some(tx), status := ACTIVE)])
    case WriteSubmitted(m) => if m !in db.milestones then db else SetMilestone(db, m, IN_REVIEW)
    case WritePaid(id, m, amount, tx) =>
      var p := Payment(id, Some(m), amount, tx);
      if m !in db.milestones || !CanRecord(db.payments, p) then db
      else SetMilestone(db, m, PAID).(payments := db.payments + [p])
    case WriteCompleted(id) => if id !in db.contracts then db else SetStatus(db, id, COMPLETED)
    case WriteDisputed(id) => if id !in db.contracts then db else SetStatus(db, id, DISPUTED)
    case WriteResolved(id, decision, tx, remaining) =>
      var p := Payment(id, None, remaining, tx);
      if id !in db.contracts || !CanRecord(db.payments, p) then db
      else
        SetStatus(db, id, if decision.RefundToClient? then CANCELLED else COMPLETED).(payments := db.payments + [p])
    case WriteCancelled(id, jobId, tx, remaining) =>
      if id !in db.contracts || jobId !in db.jobs then db
      else if tx.Some? && !CanRecord(db.payments, Payment(id, None, remaining, tx.value)) then db
      else
        SetStatus(db, id, CANCELLED).(
          payments := if tx.Some? then db.payments + [Payment(id, None, remaining, tx.value)] else db.payments,
          jobs := db.jobs[jobId := db.jobs[jobId].(status := OPEN)])
    case _ => db
  }
}
