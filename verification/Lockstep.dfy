// One request at a time, with truthful chain replies, funding by the transaction
// the backend built, and no direct chain call except a party's dispute.

module Lockstep {
  import opened Sums
  import opened TokenLedger
  import opened Backend
  import E = EscrowSpec
  import S = EscrowSafety
  import R = Rounding
  import K = KeyEncoding
  import P = PaymentBacking

  /** `fundings` are the funding transactions built so far, by contract. */
  datatype World = World(db: Db, chain: E.Chain, fundings: map<Id, E.Call>)

  datatype Step =
    | Serve(request: Request)
    | SubmitFunding(contractId: Id)
    | PartyDispute(contractId: Id, party: Address)
    | Traffic(op: TokenOp)

  function Rank(task: Task): nat {
    match task
    case CallRelease(_, _, _) => 4
    case CallDispute(_, _) => 4
    case CallResolve(_, _, _) => 4
    case CallRefund(_, _) => 4
    case WritePaid(_, _, _, _) => 3
    case ReadResolved(_, _, _) => 3
    case ReadCancelled(_, _, _) => 3
    case ReadPaid(_) => 2
    case _ => 1
  }

  /** A request run to its end without interruption. */
  ghost function Drive(cfg: Config, db: Db, chain: E.Chain, task: Task): (Db, E.Chain)
    decreases Rank(task)
  {
    var done := Advance(cfg, db, chain, task, Truthful);
    if done.next.None? then (done.db, done.chain) else Drive(cfg, done.db, done.chain, done.next.value)
  }

  ghost function Served(cfg: Config, db: Db, chain: E.Chain, request: Request): (Db, E.Chain) {
    var task := Admit(db, request);
    if task.None? then (db, chain) else Drive(cfg, db, chain, task.value)
  }

  /** The funding transaction `create` builds, if the amount is one. */
  function Funding(cfg: Config, req: Request): Option<E.Call>
    requires req.Create?
  {
    var amount := E.Checked(R.FundStroops(cfg.fl, req.amounts));
    if amount.None? then None
    else Some(E.Fund(Key(req.contractId), cfg.wallet(req.caller), cfg.wallet(req.freelancerId), cfg.admin,
                     amount.value, cfg.token))
  }

  ghost function Next(cfg: Config, w: World, step: Step): World {
    match step
    case Serve(req) =>
      var (db, chain) := Served(cfg, w.db, w.chain, req);
      var built := req.Create? && req.contractId in db.contracts && req.contractId !in w.db.contracts
                   && Funding(cfg, req).Some?;
      World(db, chain, if built then w.fundings[req.contractId := Funding(cfg, req).value] else w.fundings)
    case SubmitFunding(id) =>
      if id !in w.fundings then w
      else
        var call := w.fundings[id];
        w.(chain := E.Apply(w.chain, {call.caller} - {w.chain.self}, call).0)
    case PartyDispute(id, party) =>
      w.(chain := E.Apply(w.chain, {party} - {w.chain.self}, E.Dispute(Key(id), party)).0)
    case Traffic(op) =>
      w.(chain := S.Next(w.chain, S.Outside(op)))
  }

  /** The range in which the floats are exact. */
  ghost predicate Modest(req: Request)
    requires req.Create?
  {
    (|req.amounts| + 1) * Sum(req.amounts) < R.LIMIT
  }

  /** The assumptions: small amounts, a funding hash that is this contract's, no forged signature. */
  ghost predicate Fair(w: World, step: Step) {
    match step
    case Serve(req) =>
      && (req.Create? ==> Modest(req))
      && (req.ConfirmFund? ==> Funds(w.chain, req.contractId, req.tx))
    case Traffic(op) => S.Possible(w.chain.self, S.Outside(op))
    case _ => true
  }

  // ---- agreement of one contract with its chain entry ----

  /** What a contract's unpaid milestones are due. */
  function Due(cfg: Config, milestones: map<Id, Milestone>, contractId: Id): map<Id, int> {
    map m | m in milestones && milestones[m].contractId == contractId && milestones[m].status != PAID ::
      Cents(cfg, milestones[m].amount)
  }

  ghost function UnpaidCents(cfg: Config, milestones: map<Id, Milestone>, contractId: Id): int {
    Total(Due(cfg, milestones, contractId))
  }

  function Lookup(chain: E.Chain, id: Id): Option<E.Entry> {
    if Key(id) in chain.entries then Some(chain.entries[Key(id)]) else None
  }

  /** The entry is the one this contract's funding transaction makes. */
  predicate EntryFor(cfg: Config, c: Contract, total: int, e: E.Entry) {
    && e.client == cfg.wallet(c.clientId) && e.freelancer == cfg.wallet(c.freelancerId)
    && e.admin == cfg.admin && e.token == cfg.token && e.total == total
  }

  /** What a status says about the chain. */
  predicate Agrees(cfg: Config, c: Contract, total: int, unpaid: int, paid: int, entry: Option<E.Entry>) {
    && 0 < total < R.LIMIT
    && (entry.Some? ==> EntryFor(cfg, c, total, entry.value))
    && match c.status
       case PENDING => c.escrowTx.None? && unpaid == total && paid == 0 && Untouched(entry)
       case ACTIVE => c.escrowTx.Some? && entry.Some? && E.Live(entry.value) && Level(total, unpaid, paid, entry.value)
       case DISPUTED =>
         c.escrowTx.Some? && entry.Some? && entry.value.status.Disputed? && Level(total, unpaid, paid, entry.value)
       case COMPLETED =>
         c.escrowTx.Some? && entry.Some? && (entry.value.status.Released? || entry.value.status.Resolved?)
       case CANCELLED =>
         if c.escrowTx.Some? then entry.Some? && entry.value.status.Refunded? else Untouched(entry)
  }

  predicate Untouched(entry: Option<E.Entry>) {
    entry.Some? ==> E.Live(entry.value) && entry.value.released == 0
  }

  /** The database's remainder, the chain's and the unpaid milestones are one number. */
  predicate Level(total: int, unpaid: int, paid: int, e: E.Entry) {
    total - paid == unpaid == E.Remaining(e)
  }

  ghost predicate AgreesAt(cfg: Config, db: Db, chain: E.Chain, id: Id)
    requires id in db.contracts
  {
    Agrees(cfg, db.contracts[id], MilestoneCents(cfg, db.milestones, id), UnpaidCents(cfg, db.milestones, id),
           PaymentCents(cfg, db.payments, id), Lookup(chain, id))
  }

  ghost predicate AllAgree(cfg: Config, db: Db, chain: E.Chain) {
    forall id :: id in db.contracts ==> AgreesAt(cfg, db, chain, id)
  }

  // ---- the rest of the invariant ----

  ghost predicate RowsOk(db: Db) {
    && (forall id :: id in db.contracts ==> K.IsUuid(id) && db.contracts[id].jobId in db.jobs)
    && (forall a, b :: a in db.contracts && b in db.contracts && db.contracts[a].jobId == db.contracts[b].jobId ==>
          a == b)
    && (forall m :: m in db.milestones ==> db.milestones[m].contractId in db.contracts)
    && (forall p :: p in db.payments ==> p.contractId in db.contracts)
    && (forall p :: p in db.payments && p.milestoneId.Some? ==> p.milestoneId.value in db.milestones)
  }

  /** A cancelled job never has a contract; an open job's contract is cancelled. */
  ghost predicate JobsOk(db: Db) {
    forall id :: id in db.contracts && db.contracts[id].jobId in db.jobs ==>
      && db.jobs[db.contracts[id].jobId].status != JOB_CANCELLED
      && (db.jobs[db.contracts[id].jobId].status == OPEN ==> db.contracts[id].status == CANCELLED)
  }

  /** A milestone is paid exactly when a payment row names it. */
  ghost predicate PaidOk(cfg: Config, db: Db) {
    forall m :: m in db.milestones ==>
      && (db.milestones[m].status == PAID <==> MilestoneRecorded(db.payments, m))
      && 0 < Cents(cfg, db.milestones[m].amount) && db.milestones[m].amount < DECIMAL_LIMIT
  }

  /** The chain holds our contracts and nothing else, and a funding hash names its own contract's funding. */
  ghost predicate OnlyOurs(db: Db, chain: E.Chain) {
    && (forall key :: key in chain.entries ==> exists id :: id in db.contracts && Key(id) == key)
    && (forall i :: 0 <= i < |chain.events| ==> chain.events[i].id in chain.entries)
    && (forall id :: id in db.contracts && db.contracts[id].escrowTx.Some? ==>
          Funds(chain, id, db.contracts[id].escrowTx.value))
  }

  predicate Funds(chain: E.Chain, id: Id, tx: nat) {
    tx < |chain.events| && chain.events[tx].FundEvent? && chain.events[tx].id == Key(id)
  }

  ghost predicate FundingsOk(cfg: Config, db: Db, fundings: map<Id, E.Call>) {
    forall id :: id in fundings ==>
      && id in db.contracts
      && fundings[id].Fund?
      && fundings[id].id == Key(id)
      && fundings[id].amount == MilestoneCents(cfg, db.milestones, id)
      && fundings[id].caller == cfg.wallet(db.contracts[id].clientId)
      && fundings[id].freelancer == cfg.wallet(db.contracts[id].freelancerId)
      && fundings[id].admin == cfg.admin && fundings[id].token == cfg.token
  }

  ghost predicate ChainOk(cfg: Config, db: Db, chain: E.Chain) {
    P.Inv(cfg, P.System(db, chain, map[]))
  }

  ghost predicate Inv(cfg: Config, w: World) {
    && ChainOk(cfg, w.db, w.chain)
    && RowsOk(w.db) && JobsOk(w.db) && PaidOk(cfg, w.db)
    && OnlyOurs(w.db, w.chain)
    && FundingsOk(cfg, w.db, w.fundings)
    && AllAgree(cfg, w.db, w.chain)
  }

  // ---- the lifecycle ----

  /** The edges a contract's status may take in one request. */
  predicate Edge(a: ContractStatus, b: ContractStatus) {
    || a == b
    || (a == PENDING && (b == ACTIVE || b == CANCELLED))
    || (a == ACTIVE && (b == COMPLETED || b == DISPUTED || b == CANCELLED))
    || (a == DISPUTED && (b == COMPLETED || b == CANCELLED))
  }

  function Progress(status: MilestoneStatus): nat {
    match status
    case TODO => 0
    case IN_REVIEW => 1
    case PAID => 2
  }

  predicate ContractEvolves(a: Contract, b: Contract) {
    && b.(status := a.status, escrowTx := a.escrowTx) == a
    && Edge(a.status, b.status)
    && (a.escrowTx.Some? ==> b.escrowTx == a.escrowTx)
  }

  predicate MilestoneEvolves(a: Milestone, b: Milestone) {
    b.(status := a.status) == a && Progress(a.status) <= Progress(b.status)
  }

  /** What one request may do to the rows that are there. */
  ghost predicate Evolves(a: Db, b: Db) {
    && (forall id :: id in a.contracts ==> id in b.contracts && ContractEvolves(a.contracts[id], b.contracts[id]))
    && (forall m :: m in a.milestones ==> m in b.milestones && MilestoneEvolves(a.milestones[m], b.milestones[m]))
    && a.payments <= b.payments
  }

  // ---- sums ----

  /** Changing a milestone's status leaves its contract's total alone and moves only what is unpaid. */
  lemma StatusSums(cfg: Config, milestones: map<Id, Milestone>, m: Id, status: MilestoneStatus, id: Id)
    requires m in milestones
    ensures var after := milestones[m := milestones[m].(status := status)];
            && MilestoneCents(cfg, after, id) == MilestoneCents(cfg, milestones, id)
            && UnpaidCents(cfg, after, id) == UnpaidCents(cfg, milestones, id)
               + if milestones[m].contractId != id then 0
                 else (if status != PAID then Cents(cfg, milestones[m].amount) else 0)
                      - (if milestones[m].status != PAID then Cents(cfg, milestones[m].amount) else 0)
  {
    var after := milestones[m := milestones[m].(status := status)];
    assert (map k | k in after && after[k].contractId == id :: Cents(cfg, after[k].amount))
        == (map k | k in milestones && milestones[k].contractId == id :: Cents(cfg, milestones[k].amount));
    UnpaidOne(cfg, milestones, m, milestones[m], id);
    UnpaidOne(cfg, milestones, m, after[m], id);
    assert milestones[m := milestones[m]] == milestones;
  }

  lemma DueOne(cfg: Config, milestones: map<Id, Milestone>, m: Id, row: Milestone, id: Id)
    requires row.contractId == id && row.status != PAID
    ensures Due(cfg, milestones[m := row], id) == Due(cfg, milestones - {m}, id)[m := Cents(cfg, row.amount)]
    ensures m !in Due(cfg, milestones - {m}, id)
  {
    hide Cents;
  }

  lemma DueNone(cfg: Config, milestones: map<Id, Milestone>, m: Id, row: Milestone, id: Id)
    requires row.contractId != id || row.status == PAID
    ensures Due(cfg, milestones[m := row], id) == Due(cfg, milestones - {m}, id)
  {
    hide Cents;
  }

  /** What is unpaid, with one milestone set apart. */
  lemma UnpaidOne(cfg: Config, milestones: map<Id, Milestone>, m: Id, row: Milestone, id: Id)
    ensures UnpaidCents(cfg, milestones[m := row], id)
         == UnpaidCents(cfg, milestones - {m}, id)
            + if row.contractId == id && row.status != PAID then Cents(cfg, row.amount) else 0
  {
    hide Due, Cents;
    if row.contractId == id && row.status != PAID {
      DueOne(cfg, milestones, m, row, id);
      TotalPut(Due(cfg, milestones - {m}, id), m, Cents(cfg, row.amount));
    } else {
      DueNone(cfg, milestones, m, row, id);
    }
  }

  lemma TotalOne(cfg: Config, milestones: map<Id, Milestone>, m: Id, row: Milestone, id: Id)
    requires m !in milestones
    ensures MilestoneCents(cfg, milestones[m := row], id)
         == MilestoneCents(cfg, milestones, id) + if row.contractId == id then Cents(cfg, row.amount) else 0
  {
    var all := milestones[m := row];
    var a := map k | k in all && all[k].contractId == id :: Cents(cfg, all[k].amount);
    var b := map k | k in milestones && milestones[k].contractId == id :: Cents(cfg, milestones[k].amount);
    if row.contractId == id {
      assert a == b[m := Cents(cfg, row.amount)];
      TotalPut(b, m, Cents(cfg, row.amount));
    } else {
      assert a == b;
    }
  }

  lemma PaymentAppend(cfg: Config, payments: seq<Payment>, p: Payment, id: Id)
    ensures PaymentCents(cfg, payments + [p], id)
         == PaymentCents(cfg, payments, id) + if p.contractId == id then Cents(cfg, p.amount) else 0
  {
    assert (payments + [p])[..|payments|] == payments;
  }

  /** Nothing is unpaid exactly when every milestone is paid. */
  lemma UnpaidZero(cfg: Config, db: Db, id: Id)
    requires forall m :: m in db.milestones ==> 0 < Cents(cfg, db.milestones[m].amount)
    ensures UnpaidCents(cfg, db.milestones, id) >= 0
    ensures AllPaid(db, id) <==> UnpaidCents(cfg, db.milestones, id) == 0
    ensures forall m | HasMilestone(db, id, m) && db.milestones[m].status != PAID ::
              Cents(cfg, db.milestones[m].amount) <= UnpaidCents(cfg, db.milestones, id)
  {
    var due := Due(cfg, db.milestones, id);
    TotalNonNegative(due);
    forall m | HasMilestone(db, id, m) && db.milestones[m].status != PAID
      ensures 0 < Cents(cfg, db.milestones[m].amount) <= Total(due)
    {
      assert m in due;
      TotalBounds(due, m);
    }
    if AllPaid(db, id) {
      NothingDue(due);
    }
  }

  lemma NothingDue(due: map<Id, int>)
    ensures due.Keys == {} ==> Total(due) == 0
  {
  }

  // ---- one contract at a time ----

  lemma KeysApart(db: Db, a: Id, b: Id)
    requires K.IsUuid(a) && K.IsUuid(b) && a != b
    ensures Key(a) != Key(b)
  {
    if Key(a) == Key(b) { K.KeyInjective(a, b); }
  }

  /** Everything agreement looks at is the same for `id`. */
  ghost predicate SameFor(cfg: Config, db: Db, chain: E.Chain, db': Db, chain': E.Chain, id: Id) {
    && id in db.contracts && id in db'.contracts && db'.contracts[id] == db.contracts[id]
    && SameSums(cfg, db, db', id)
    && Lookup(chain', id) == Lookup(chain, id)
  }

  ghost predicate SameSums(cfg: Config, db: Db, db': Db, id: Id) {
    && MilestoneCents(cfg, db'.milestones, id) == MilestoneCents(cfg, db.milestones, id)
    && UnpaidCents(cfg, db'.milestones, id) == UnpaidCents(cfg, db.milestones, id)
    && PaymentCents(cfg, db'.payments, id) == PaymentCents(cfg, db.payments, id)
  }

  lemma OneChanged(cfg: Config, db: Db, chain: E.Chain, db': Db, chain': E.Chain, id: Id)
    requires AllAgree(cfg, db, chain)
    requires forall other :: other in db'.contracts && other != id ==> SameFor(cfg, db, chain, db', chain', other)
    requires id in db'.contracts ==> AgreesAt(cfg, db', chain', id)
    ensures AllAgree(cfg, db', chain')
  {
    forall other | other in db'.contracts ensures AgreesAt(cfg, db', chain', other) {
      if other != id {
        assert SameFor(cfg, db, chain, db', chain', other);
        assert AgreesAt(cfg, db, chain, other);
      }
    }
  }
}
