// One request's writes, as an edit of one contract's rows, and what such an edit
// keeps: the database's own rules, and the other contracts' agreement with the chain.

module DbEdits {
  import opened Sums
  import opened Backend
  import opened Lockstep
  import E = EscrowSpec

  /** The rows of one contract that a request rewrites. */
  datatype Edit = Edit(
    contract: Contract, milestone: Option<(Id, MilestoneStatus)>, payment: Option<Payment>, reopens: bool)

  predicate EditOk(db: Db, id: Id, e: Edit) {
    && id in db.contracts
    && ContractEvolves(db.contracts[id], e.contract)
    && db.contracts[id].status != CANCELLED
    && (e.reopens ==> e.contract.status == CANCELLED)
    && (e.milestone.Some? ==>
          && HasMilestone(db, id, e.milestone.value.0)
          && Progress(db.milestones[e.milestone.value.0].status) < Progress(e.milestone.value.1))
    && (e.payment.Some? ==> e.payment.value.contractId == id)
    && PaidBy(e) == if e.milestone.Some? && e.milestone.value.1 == PAID then Some(e.milestone.value.0) else None
  }

  /** The milestone the new payment row names. */
  function PaidBy(e: Edit): Option<Id> {
    if e.payment.Some? then e.payment.value.milestoneId else None
  }

  function Edited(db: Db, id: Id, e: Edit): Db
    requires EditOk(db, id, e)
  {
    var jobId := e.contract.jobId;
    Db(if e.reopens && jobId in db.jobs then db.jobs[jobId := db.jobs[jobId].(status := OPEN)] else db.jobs,
       db.contracts[id := e.contract],
       EditedMilestones(db.milestones, e.milestone),
       if e.payment.Some? then db.payments + [e.payment.value] else db.payments)
  }

  function EditedMilestones(milestones: map<Id, Milestone>, edit: Option<(Id, MilestoneStatus)>): map<Id, Milestone> {
    match edit
    case None => milestones
    case Some((m, status)) =>
      if m in milestones then milestones[m := milestones[m].(status := status)] else milestones
  }

  lemma EditRows(db: Db, id: Id, e: Edit)
    requires EditOk(db, id, e) && RowsOk(db) && JobsOk(db)
    ensures RowsOk(Edited(db, id, e)) && JobsOk(Edited(db, id, e))
  {
    if e.payment.Some? { RecordedAppend(db.payments, e.payment.value); }
  }

  lemma EditPaid(cfg: Config, db: Db, id: Id, e: Edit)
    requires EditOk(db, id, e) && PaidOk(cfg, db)
    ensures PaidOk(cfg, Edited(db, id, e))
  {
    if e.payment.Some? { RecordedAppend(db.payments, e.payment.value); }
    hide MilestoneRecorded;
  }

  lemma EditEvolves(db: Db, id: Id, e: Edit)
    requires EditOk(db, id, e)
    ensures Evolves(db, Edited(db, id, e))
  {
  }

  /** How an edit moves a contract's sums; other contracts' stay. */
  lemma EditSums(cfg: Config, db: Db, id: Id, e: Edit, other: Id)
    requires EditOk(db, id, e)
    requires e.milestone.Some? ==> db.milestones[e.milestone.value.0].status != PAID
    ensures var db' := Edited(db, id, e);
            && MilestoneCents(cfg, db'.milestones, other) == MilestoneCents(cfg, db.milestones, other)
            && UnpaidCents(cfg, db'.milestones, other)
               == UnpaidCents(cfg, db.milestones, other) - (if other == id then PaidOff(cfg, db, e) else 0)
            && PaymentCents(cfg, db'.payments, other)
               == PaymentCents(cfg, db.payments, other) + (if other == id then PaidIn(cfg, e) else 0)
  {
    if e.milestone.Some? {
      StatusSums(cfg, db.milestones, e.milestone.value.0, e.milestone.value.1, other);
    }
    if e.payment.Some? {
      PaymentAppend(cfg, db.payments, e.payment.value, other);
    }
  }

  function PaidOff(cfg: Config, db: Db, e: Edit): int {
    if PaidBy(e).Some? && PaidBy(e).value in db.milestones then Cents(cfg, db.milestones[PaidBy(e).value].amount) else 0
  }

  function PaidIn(cfg: Config, e: Edit): int {
    if e.payment.Some? then Cents(cfg, e.payment.value.amount) else 0
  }

  /** What one request leaves behind. */
  ghost predicate Kept(cfg: Config, db: Db, chain: E.Chain, after: (Db, E.Chain)) {
    && DbInv(cfg, after.0, after.1)
    && Evolves(db, after.0)
    && TotalsStay(cfg, db, after.0)
  }

  /** The invariant without the chain's own part, which every access keeps anyway. */
  ghost predicate DbInv(cfg: Config, db: Db, chain: E.Chain) {
    RowsOk(db) && JobsOk(db) && PaidOk(cfg, db) && OnlyOurs(db, chain) && AllAgree(cfg, db, chain)
  }

  ghost predicate TotalsStay(cfg: Config, db: Db, db': Db) {
    forall id :: id in db.contracts ==>
      MilestoneCents(cfg, db'.milestones, id) == MilestoneCents(cfg, db.milestones, id)
  }

  lemma Unchanged(cfg: Config, db: Db, chain: E.Chain)
    requires DbInv(cfg, db, chain)
    ensures Kept(cfg, db, chain, (db, chain))
  {
    hide DbInv, MilestoneCents;
  }

  ghost predicate OthersStay(db: Db, chain: E.Chain, chain': E.Chain, id: Id) {
    forall other :: other in db.contracts && other != id ==> Lookup(chain', other) == Lookup(chain, other)
  }

  ghost predicate EditAgrees(cfg: Config, db: Db, chain': E.Chain, id: Id, e: Edit) {
    Agrees(cfg, e.contract, MilestoneCents(cfg, db.milestones, id),
           UnpaidCents(cfg, db.milestones, id) - PaidOff(cfg, db, e),
           PaymentCents(cfg, db.payments, id) + PaidIn(cfg, e), Lookup(chain', id))
  }

  lemma EditedContracts(db: Db, id: Id, e: Edit)
    requires EditOk(db, id, e)
    ensures id in db.contracts && Edited(db, id, e).contracts == db.contracts[id := e.contract]
    ensures e.milestone.Some? ==> e.milestone.value.0 in db.milestones
    ensures e.milestone.Some? ==> db.milestones[e.milestone.value.0].status != PAID
  {
  }

  lemma EditedAgree(cfg: Config, db: Db, chain: E.Chain, chain': E.Chain, id: Id, e: Edit)
    requires EditOk(db, id, e) && AllAgree(cfg, db, chain)
    requires OthersStay(db, chain, chain', id)
    requires EditAgrees(cfg, db, chain', id, e)
    ensures AllAgree(cfg, Edited(db, id, e), chain') && TotalsStay(cfg, db, Edited(db, id, e))
  {
    hide Agrees, MilestoneCents, UnpaidCents, PaymentCents, EditOk, Edited, PaidOff, PaidIn;
    var db' := Edited(db, id, e);
    EditedContracts(db, id, e);
    forall other
      ensures MilestoneCents(cfg, db'.milestones, other) == MilestoneCents(cfg, db.milestones, other)
    {
      EditSums(cfg, db, id, e, other);
    }
    forall other | other in db'.contracts && other != id ensures SameFor(cfg, db, chain, db', chain', other) {
      EditSums(cfg, db, id, e, other);
    }
    EditSums(cfg, db, id, e, id);
    OneChanged(cfg, db, chain, db', chain', id);
  }

  lemma EditOurs(db: Db, chain: E.Chain, id: Id, e: Edit)
    requires EditOk(db, id, e) && OnlyOurs(db, chain)
    requires e.contract.escrowTx != db.contracts[id].escrowTx ==> Funds(chain, id, e.contract.escrowTx.value)
    ensures OnlyOurs(Edited(db, id, e), chain)
  {
    hide Key, Funds;
  }

  /** An edit that leaves its own contract in agreement keeps the whole invariant. */
  lemma EditKeeps(cfg: Config, db: Db, chain: E.Chain, chain': E.Chain, id: Id, e: Edit)
    requires DbInv(cfg, db, chain) && EditOk(db, id, e)
    requires OnlyOurs(db, chain') && OthersStay(db, chain, chain', id)
    requires EditAgrees(cfg, db, chain', id, e)
    requires e.contract.escrowTx != db.contracts[id].escrowTx ==> Funds(chain', id, e.contract.escrowTx.value)
    ensures Kept(cfg, db, chain, (Edited(db, id, e), chain'))
  {
    EditRows(db, id, e);
    EditPaid(cfg, db, id, e);
    EditEvolves(db, id, e);
    EditedAgree(cfg, db, chain, chain', id, e);
    EditOurs(db, chain', id, e);
    hide RowsOk, JobsOk, PaidOk, OnlyOurs, AllAgree, Evolves, TotalsStay;
  }
}
