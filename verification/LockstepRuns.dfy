// What each lockstep request does to the agreement between database and chain.

module LockstepRuns {
  import opened Sums
  import opened TokenLedger
  import opened Backend
  import opened Lockstep
  import opened DbEdits
  import E = EscrowSpec
  import R = Rounding
  import K = KeyEncoding
  import P = PaymentBacking

  // ---- requests that only write ----

  predicate JustWrites(task: Task) {
    || task.WriteJob? || task.DropJob? || task.WriteContract? || task.WriteFunded? || task.WriteSubmitted?
    || task.WriteCompleted? || task.WriteDisputed? || task.WriteResolved? || task.WriteCancelled?
  }

  lemma DriveWrite(cfg: Config, db: Db, chain: E.Chain, task: Task)
    requires JustWrites(task)
    ensures Drive(cfg, db, chain, task) == (Write(db, task), chain)
  {
  }

  lemma ConfirmEdit(db: Db, id: Id, caller: Id, tx: nat)
    requires Admit(db, ConfirmFund(id, caller, tx)).Some? && !EscrowTxTaken(db, id, tx)
    ensures var e := Edit(db.contracts[id].(escrowTx := Some(tx), status := ACTIVE), None, None, false);
            EditOk(db, id, e) && Write(db, WriteFunded(id, tx)) == Edited(db, id, e)
  {
  }

  lemma ConfirmAgrees(cfg: Config, c: Contract, total: int, unpaid: int, paid: int, e: E.Entry, tx: nat)
    requires c.status == PENDING && Agrees(cfg, c, total, unpaid, paid, Some(e))
    ensures Agrees(cfg, c.(escrowTx := Some(tx), status := ACTIVE), total, unpaid, paid, Some(e))
  {
  }

  /** A contract not yet confirmed is pending, and an event on its key means it has an entry. */
  lemma Unconfirmed(cfg: Config, db: Db, chain: E.Chain, id: Id, tx: nat)
    requires OnlyOurs(db, chain) && AllAgree(cfg, db, chain) && id in db.contracts
    requires db.contracts[id].escrowTx.None? && db.contracts[id].status != CANCELLED
    requires Funds(chain, id, tx)
    ensures db.contracts[id].status == PENDING && Lookup(chain, id).Some?
  {
    assert AgreesAt(cfg, db, chain, id);
    hide AllAgree, MilestoneCents, UnpaidCents, PaymentCents;
  }

  lemma ConfirmKeeps(cfg: Config, db: Db, chain: E.Chain, id: Id, caller: Id, tx: nat)
    requires DbInv(cfg, db, chain)
    requires Admit(db, ConfirmFund(id, caller, tx)).Some?
    requires Funds(chain, id, tx)
    ensures Kept(cfg, db, chain, Drive(cfg, db, chain, WriteFunded(id, tx)))
  {
    hide RowsOk, JobsOk, PaidOk, OnlyOurs, Agrees, EditOk, Edited, Kept, MilestoneCents, UnpaidCents, PaymentCents,
         Lookup;
    Unconfirmed(cfg, db, chain, id, tx);
    assert AgreesAt(cfg, db, chain, id);
    ConfirmAgrees(cfg, db.contracts[id], MilestoneCents(cfg, db.milestones, id), UnpaidCents(cfg, db.milestones, id),
                  PaymentCents(cfg, db.payments, id), Lookup(chain, id).value, tx);
    Unchanged(cfg, db, chain);
    if EscrowTxTaken(db, id, tx) {
      assert Write(db, WriteFunded(id, tx)) == db;
    } else {
      ConfirmEdit(db, id, caller, tx);
    }
    DriveWrite(cfg, db, chain, WriteFunded(id, tx));
    hide AllAgree, AgreesAt, Write, Admit, AdmitOn, EscrowTxTaken, Drive;
    if !EscrowTxTaken(db, id, tx) {
      EditKeeps(cfg, db, chain, chain, id,
                Edit(db.contracts[id].(escrowTx := Some(tx), status := ACTIVE), None, None, false));
    }
  }

  lemma SubmitEdit(db: Db, id: Id, m: Id, caller: Id)
    requires Admit(db, SubmitMilestone(id, m, caller)).Some?
    ensures var e := Edit(db.contracts[id], Some((m, IN_REVIEW)), None, false);
            EditOk(db, id, e) && Write(db, WriteSubmitted(m)) == Edited(db, id, e)
  {
    assert db.contracts[id := db.contracts[id]] == db.contracts;
  }

  lemma SubmitKeeps(cfg: Config, db: Db, chain: E.Chain, id: Id, m: Id, caller: Id)
    requires DbInv(cfg, db, chain)
    requires Admit(db, SubmitMilestone(id, m, caller)).Some?
    ensures Kept(cfg, db, chain, Drive(cfg, db, chain, WriteSubmitted(m)))
  {
    DriveWrite(cfg, db, chain, WriteSubmitted(m));
    SubmitEdit(db, id, m, caller);
    assert AgreesAt(cfg, db, chain, id);
    hide RowsOk, JobsOk, PaidOk, OnlyOurs, AllAgree, Agrees, EditOk, Edited, Kept, Write, MilestoneCents, UnpaidCents,
         PaymentCents;
    EditKeeps(cfg, db, chain, chain, id, Edit(db.contracts[id], Some((m, IN_REVIEW)), None, false));
  }

  // ---- chain calls on a contract's entry ----

  /** What a call by one key does to a contract's entry, seen from the database. */
  lemma EntryCall(db: Db, chain: E.Chain, call: E.Call, id: Id)
    requires RowsOk(db) && OnlyOurs(db, chain) && id in db.contracts && !call.Fund? && call.id == Key(id)
    ensures var (after, outcome) := E.Apply(chain, {call.caller} - {chain.self}, call);
            if !outcome.Ok? then after == chain
            else
              && Lookup(chain, id).Some? && E.Judge(Lookup(chain, id).value, call).Accept?
              && Lookup(after, id) == Some(E.Judge(Lookup(chain, id).value, call).after)
              && OnlyOurs(db, after) && OthersStay(db, chain, after, id)
  {
    var (after, outcome) := E.Apply(chain, {call.caller} - {chain.self}, call);
    if outcome.Ok? {
      var v := E.Judge(chain.entries[call.id], call);
      assert after.entries == chain.entries[call.id := v.after];
      assert after.events == chain.events + [v.event] && v.event.id == call.id;
      hide E.Apply, E.Judge;
      OneEntry(db, chain, after, id, v.after, v.event);
    }
  }

  lemma OneEntry(db: Db, chain: E.Chain, after: E.Chain, id: Id, entry: E.Entry, event: E.Event)
    requires RowsOk(db) && OnlyOurs(db, chain) && id in db.contracts
    requires after.entries == chain.entries[Key(id) := entry]
    requires after.events == chain.events + [event] && event.id == Key(id)
    ensures OnlyOurs(db, after) && OthersStay(db, chain, after, id)
  {
    hide K.IsUuid, Key;
    forall other | other in db.contracts && other != id ensures Lookup(after, other) == Lookup(chain, other) {
      KeysApart(db, id, other);
    }
  }

  lemma FreshTx(cfg: Config, db: Db, chain: E.Chain)
    requires ChainOk(cfg, db, chain)
    ensures !TxRecorded(db.payments, |chain.events|)
  {
    forall p | p in db.payments ensures p.tx < |chain.events| {
      var i :| 0 <= i < |db.payments| && db.payments[i] == p;
      assert P.Backed(cfg, chain.events, db.payments[i]);
    }
  }

  // ---- approving a milestone ----

  /** What an accepted release does to an agreeing entry. */
  lemma ReleaseAgrees(cfg: Config, c: Contract, total: int, unpaid: int, paid: int, e: E.Entry, call: E.Call)
    requires c.status == ACTIVE && Agrees(cfg, c, total, unpaid, paid, Some(e))
    requires call.ReleaseMilestone? && E.Judge(e, call).Accept?
    ensures var after := E.Judge(e, call).after;
            Agrees(cfg, if unpaid == call.amount then c.(status := COMPLETED) else c,
                   total, unpaid - call.amount, paid + call.amount, Some(after))
  {
  }

  /** The rows an approval writes. */
  ghost function Approval(db: Db, id: Id, m: Id, tx: nat): Edit
    requires id in db.contracts && m in db.milestones
  {
    var p := Payment(id, Some(m), db.milestones[m].amount, tx);
    var paid := SetMilestone(db, m, PAID);
    var c := db.contracts[id];
    Edit(if AllPaid(paid, id) then c.(status := COMPLETED) else c, Some((m, PAID)), Some(p), false)
  }

  lemma CanPay(cfg: Config, db: Db, m: Id, p: Payment)
    requires PaidOk(cfg, db) && m in db.milestones && db.milestones[m].status != PAID
    requires p.milestoneId == Some(m) && p.amount == db.milestones[m].amount && !TxRecorded(db.payments, p.tx)
    ensures CanRecord(db.payments, p)
  {
  }

  lemma DriveRelease(cfg: Config, db: Db, chain: E.Chain, id: Id, m: Id)
    requires ChainOk(cfg, db, chain) && PaidOk(cfg, db)
    requires id in db.contracts && m in db.milestones && db.milestones[m].status == IN_REVIEW
    requires db.milestones[m].contractId == id && db.contracts[id].status == ACTIVE
    ensures var task := CallRelease(id, m, db.milestones[m].amount);
            var done := Advance(cfg, db, chain, task, Truthful);
            && Drive(cfg, db, chain, task).1 == done.chain
            && EditOk(db, id, Approval(db, id, m, |chain.events|))
            && Drive(cfg, db, chain, task).0
               == if done.next.None? then db else Edited(db, id, Approval(db, id, m, |chain.events|))
  {
    var amount := db.milestones[m].amount;
    var done := Advance(cfg, db, chain, CallRelease(id, m, amount), Truthful);
    if done.next.Some? {
      var p := Payment(id, Some(m), amount, |chain.events|);
      FreshTx(cfg, db, chain);
      CanPay(cfg, db, m, p);
      DrivePaid(cfg, db, done.chain, id, m, amount, |chain.events|);
    }
  }

  lemma DrivePaid(cfg: Config, db: Db, chain: E.Chain, id: Id, m: Id, amount: nat, tx: nat)
    requires id in db.contracts && HasMilestone(db, id, m) && db.milestones[m].amount == amount
    requires db.milestones[m].status == IN_REVIEW && db.contracts[id].status == ACTIVE
    requires CanRecord(db.payments, Payment(id, Some(m), amount, tx))
    ensures Drive(cfg, db, chain, WritePaid(id, m, amount, tx)) == (Edited(db, id, Approval(db, id, m, tx)), chain)
  {
    var p := Payment(id, Some(m), amount, tx);
    var paid := SetMilestone(db, m, PAID).(payments := db.payments + [p]);
    assert Write(db, WritePaid(id, m, amount, tx)) == paid;
    assert paid.payments != db.payments;
    assert AllPaid(paid, id) <==> AllPaid(SetMilestone(db, m, PAID), id);
    assert Drive(cfg, paid, chain, ReadPaid(id))
        == if AllPaid(paid, id) then Drive(cfg, paid, chain, WriteCompleted(id)) else (paid, chain);
    assert db.contracts[id := db.contracts[id]] == db.contracts;
  }

  /** An approval pays exactly what the chain releases, and completes the contract when nothing is left. */
  lemma ApproveKeeps(cfg: Config, db: Db, chain: E.Chain, id: Id, m: Id)
    requires DbInv(cfg, db, chain) && ChainOk(cfg, db, chain)
    requires id in db.contracts && db.contracts[id].status == ACTIVE
    requires HasMilestone(db, id, m) && db.milestones[m].status == IN_REVIEW
    ensures Kept(cfg, db, chain, Drive(cfg, db, chain, CallRelease(id, m, db.milestones[m].amount)))
  {
    var amount := db.milestones[m].amount;
    var task := CallRelease(id, m, amount);
    var done := Advance(cfg, db, chain, task, Truthful);
    DriveRelease(cfg, db, chain, id, m);
    Unchanged(cfg, db, chain);
    ReleaseCalled(cfg, db, chain, id, m);
    hide RowsOk, JobsOk, PaidOk, OnlyOurs, AllAgree, Agrees, EditOk, Edited, Kept, MilestoneCents, UnpaidCents,
         PaymentCents, E.Apply, E.Judge, ChainOk, Drive, Advance, Approval;
    if done.next.Some? {
      var call := E.ReleaseMilestone(Key(id), cfg.admin, Cents(cfg, amount));
      ApprovalAgrees(cfg, db, chain, done.chain, id, m, call);
      EditKeeps(cfg, db, chain, done.chain, id, Approval(db, id, m, |chain.events|));
    }
  }

  /** The chain's side of an approval. */
  lemma ReleaseCalled(cfg: Config, db: Db, chain: E.Chain, id: Id, m: Id)
    requires RowsOk(db) && OnlyOurs(db, chain) && id in db.contracts && m in db.milestones
    ensures var amount := db.milestones[m].amount;
            var done := Advance(cfg, db, chain, CallRelease(id, m, amount), Truthful);
            if done.next.None? then done.chain == chain
            else
              && E.Checked(Cents(cfg, amount)).Some? && Lookup(chain, id).Some?
              && var call := E.ReleaseMilestone(Key(id), cfg.admin, Cents(cfg, amount));
              && E.Judge(Lookup(chain, id).value, call).Accept?
              && Lookup(done.chain, id) == Some(E.Judge(Lookup(chain, id).value, call).after)
              && OnlyOurs(db, done.chain) && OthersStay(db, chain, done.chain, id)
  {
    var amount := db.milestones[m].amount;
    if E.Checked(Cents(cfg, amount)).Some? {
      EntryCall(db, chain, E.ReleaseMilestone(Key(id), cfg.admin, Cents(cfg, amount)), id);
      ReleaseAdvance(cfg, db, chain, id, m, amount);
    }
    hide E.Apply, E.Judge, OnlyOurs, RowsOk, OthersStay, Cents, Key, Lookup, Advance;
  }

  lemma ReleaseAdvance(cfg: Config, db: Db, chain: E.Chain, id: Id, m: Id, amount: nat)
    requires E.Checked(Cents(cfg, amount)).Some?
    ensures var call := E.ReleaseMilestone(Key(id), cfg.admin, Cents(cfg, amount));
            var (after, outcome) := E.Apply(chain, {call.caller} - {chain.self}, call);
            Advance(cfg, db, chain, CallRelease(id, m, amount), Truthful)
            == if outcome.Ok? then Result(db, after, Some(WritePaid(id, m, amount, |chain.events|)))
               else Result(db, chain, None)
  {
    hide E.Apply, E.Judge, Cents, Key;
  }

  lemma ApprovalAgrees(cfg: Config, db: Db, chain: E.Chain, chain': E.Chain, id: Id, m: Id, call: E.Call)
    requires DbInv(cfg, db, chain)
    requires id in db.contracts && HasMilestone(db, id, m) && db.contracts[id].status == ACTIVE
    requires db.milestones[m].status == IN_REVIEW
    requires call.ReleaseMilestone? && call.amount == Cents(cfg, db.milestones[m].amount)
    requires Lookup(chain, id).Some? && E.Judge(Lookup(chain, id).value, call).Accept?
    requires Lookup(chain', id) == Some(E.Judge(Lookup(chain, id).value, call).after)
    ensures EditAgrees(cfg, db, chain', id, Approval(db, id, m, |chain.events|))
  {
    hide Agrees, E.Judge, UnpaidCents, MilestoneCents, PaymentCents, RowsOk, JobsOk, OnlyOurs, Lookup, Cents, AllPaid;
    assert AgreesAt(cfg, db, chain, id);
    hide AllAgree;
    ReleaseAgrees(cfg, db.contracts[id], MilestoneCents(cfg, db.milestones, id), UnpaidCents(cfg, db.milestones, id),
                  PaymentCents(cfg, db.payments, id), Lookup(chain, id).value, call);
    LastUnpaid(cfg, db, id, m);
    hide PaidOk;
  }

  /** Paying this milestone leaves none unpaid exactly when it is all that is unpaid. */
  lemma LastUnpaid(cfg: Config, db: Db, id: Id, m: Id)
    requires PaidOk(cfg, db) && HasMilestone(db, id, m) && db.milestones[m].status != PAID
    ensures AllPaid(SetMilestone(db, m, PAID), id)
       <==> UnpaidCents(cfg, db.milestones, id) == Cents(cfg, db.milestones[m].amount)
  {
    StatusSums(cfg, db.milestones, m, PAID, id);
    UnpaidZero(cfg, SetMilestone(db, m, PAID), id);
  }

  // ---- disputes ----

  /** A status change that a chain call on the same entry brings about. */
  lemma StatusEdit(db: Db, id: Id, e: Edit)
    requires id in db.contracts && db.contracts[id].status != CANCELLED
    requires e.milestone.None? && e.contract == db.contracts[id].(status := e.contract.status)
    requires Edge(db.contracts[id].status, e.contract.status)
    requires e.payment.Some? ==> e.payment.value.contractId == id && e.payment.value.milestoneId.None?
    requires e.reopens ==> e.contract.status == CANCELLED
    ensures EditOk(db, id, e)
  {
  }

  lemma ActiveFunded(cfg: Config, c: Contract, total: int, unpaid: int, paid: int, entry: Option<E.Entry>)
    requires c.status == ACTIVE && Agrees(cfg, c, total, unpaid, paid, entry)
    ensures c.escrowTx.Some?
  {
  }

  lemma DisputeAgrees(cfg: Config, c: Contract, total: int, unpaid: int, paid: int, e: E.Entry, call: E.Call)
    requires c.status == ACTIVE && Agrees(cfg, c, total, unpaid, paid, Some(e))
    requires call.Dispute? && E.Judge(e, call).Accept?
    ensures Agrees(cfg, c.(status := DISPUTED), total, unpaid, paid, Some(E.Judge(e, call).after))
  {
  }

  lemma DriveDispute(cfg: Config, db: Db, chain: E.Chain, id: Id, signer: Address)
    requires id in db.contracts
    ensures var call := E.Dispute(Key(id), signer);
            var (after, outcome) := E.Apply(chain, {call.caller} - {chain.self}, call);
            Drive(cfg, db, chain, CallDispute(id, signer))
            == if outcome.Ok? then (SetStatus(db, id, DISPUTED), after) else (db, chain)
  {
    var (after, outcome) := E.Apply(chain, {signer} - {chain.self}, E.Dispute(Key(id), signer));
    DriveWrite(cfg, db, after, WriteDisputed(id));
    hide E.Judge;
  }

  lemma DisputeKeeps(cfg: Config, db: Db, chain: E.Chain, id: Id, caller: Id, signer: Address)
    requires DbInv(cfg, db, chain)
    requires Admit(db, Dispute(id, caller, signer)).Some?
    ensures Kept(cfg, db, chain, Drive(cfg, db, chain, Admit(db, Dispute(id, caller, signer)).value))
  {
    hide RowsOk, JobsOk, PaidOk, OnlyOurs, Agrees, EditOk, Kept, MilestoneCents, UnpaidCents, PaymentCents, E.Judge,
         Lookup;
    assert AgreesAt(cfg, db, chain, id);
    ActiveFunded(cfg, db.contracts[id], MilestoneCents(cfg, db.milestones, id), UnpaidCents(cfg, db.milestones, id),
                 PaymentCents(cfg, db.payments, id), Lookup(chain, id));
    hide AllAgree;
    assert Admit(db, Dispute(id, caller, signer)).value == CallDispute(id, signer);
    hide Admit, AdmitOn;
    var call := E.Dispute(Key(id), signer);
    var e := Edit(db.contracts[id].(status := DISPUTED), None, None, false);
    var (after, outcome) := E.Apply(chain, {call.caller} - {chain.self}, call);
    EntryCall(db, chain, call, id);
    DriveDispute(cfg, db, chain, id, signer);
    if outcome.Ok? {
      StatusEdit(db, id, e);
      DisputeAgrees(cfg, db.contracts[id], MilestoneCents(cfg, db.milestones, id), UnpaidCents(cfg, db.milestones, id),
                    PaymentCents(cfg, db.payments, id), Lookup(chain, id).value, call);
      hide E.Apply, Drive;
      EditKeeps(cfg, db, chain, after, id, e);
    } else {
      Unchanged(cfg, db, chain);
    }
  }

  lemma LevelBounds(cfg: Config, c: Contract, total: int, unpaid: int, paid: int, entry: Option<E.Entry>)
    requires c.status == ACTIVE || c.status == DISPUTED
    requires Agrees(cfg, c, total, unpaid, paid, entry) && (entry.Some? ==> 0 <= entry.value.released)
    ensures total - paid < R.LIMIT
  {
  }

  lemma SmallRemainder(cfg: Config, db: Db, chain: E.Chain, id: Id)
    requires AllAgree(cfg, db, chain) && E.EntriesOk(chain) && id in db.contracts
    requires db.contracts[id].status == ACTIVE || db.contracts[id].status == DISPUTED
    ensures DbRemaining(cfg, db, id) < DECIMAL_LIMIT
  {
    hide Agrees, MilestoneCents, UnpaidCents, PaymentCents, Key;
    assert AgreesAt(cfg, db, chain, id);
    hide AllAgree;
    LevelBounds(cfg, db.contracts[id], MilestoneCents(cfg, db.milestones, id), UnpaidCents(cfg, db.milestones, id),
                PaymentCents(cfg, db.payments, id), Lookup(chain, id));
  }

  /** The status and row a resolution or a refund ends in. */
  function Settlement(c: Contract, id: Id, status: ContractStatus, remaining: nat, tx: nat, reopens: bool): Edit {
    Edit(c.(status := status), None, Some(Payment(id, None, remaining, tx)), reopens)
  }

  lemma SettlementAgrees(cfg: Config, c: Contract, total: int, unpaid: int, paid: int, e: E.Entry, call: E.Call,
                         status: ContractStatus, unpaid': int, paid': int)
    requires c.status == ACTIVE || c.status == DISPUTED
    requires Agrees(cfg, c, total, unpaid, paid, Some(e))
    requires call.Resolve? || call.Refund?
    requires status == if call.Refund? || call.decision.RefundToClient? then CANCELLED else COMPLETED
    requires E.Judge(e, call).Accept?
    ensures Agrees(cfg, c.(status := status), total, unpaid', paid', Some(E.Judge(e, call).after))
  {
  }

  /** Settling a contract whose chain call went through. */
  lemma SettlementKeeps(cfg: Config, db: Db, chain: E.Chain, id: Id, call: E.Call, after: E.Chain,
                        status: ContractStatus,
                        reopens: bool)
    requires DbInv(cfg, db, chain) && ChainOk(cfg, db, chain) && id in db.contracts
    requires db.contracts[id].status == ACTIVE || db.contracts[id].status == DISPUTED
    requires (call.Resolve? || call.Refund?) && call.id == Key(id)
    requires E.Apply(chain, {call.caller} - {chain.self}, call) == (after, E.Ok)
    requires status == if call.Refund? || call.decision.RefundToClient? then CANCELLED else COMPLETED
    requires reopens ==> status == CANCELLED
    ensures var e := Settlement(db.contracts[id], id, status, DbRemaining(cfg, db, id), |chain.events|, reopens);
            && CanRecord(db.payments, e.payment.value)
            && EditOk(db, id, e) && Kept(cfg, db, chain, (Edited(db, id, e), after))
  {
    hide Agrees, MilestoneCents, UnpaidCents, PaymentCents, E.Judge, RowsOk, JobsOk, PaidOk, OnlyOurs, Kept, Lookup;
    var e := Settlement(db.contracts[id], id, status, DbRemaining(cfg, db, id), |chain.events|, reopens);
    FreshTx(cfg, db, chain);
    SmallRemainder(cfg, db, chain, id);
    StatusEdit(db, id, e);
    assert AgreesAt(cfg, db, chain, id);
    EntryCall(db, chain, call, id);
    SettlementAgrees(cfg, db.contracts[id], MilestoneCents(cfg, db.milestones, id), UnpaidCents(cfg, db.milestones, id),
                     PaymentCents(cfg, db.payments, id), Lookup(chain, id).value, call, status,
                     UnpaidCents(cfg, db.milestones, id) - PaidOff(cfg, db, e),
                     PaymentCents(cfg, db.payments, id) + PaidIn(cfg, e));
    hide AllAgree, EditOk, Edited, E.Apply, ChainOk;
    EditKeeps(cfg, db, chain, after, id, e);
  }

  lemma DriveResolve(cfg: Config, db: Db, chain: E.Chain, id: Id, decision: E.Decision, bps: E.u32)
    ensures var call := E.Resolve(Key(id), cfg.admin, decision, bps);
            var (after, outcome) := E.Apply(chain, {call.caller} - {chain.self}, call);
            Drive(cfg, db, chain, CallResolve(id, decision, bps))
            == if outcome.Ok?
               then (Write(db, WriteResolved(id, decision, |chain.events|, DbRemaining(cfg, db, id))), after)
               else (db, chain)
  {
    var call := E.Resolve(Key(id), cfg.admin, decision, bps);
    var (after, outcome) := E.Apply(chain, {call.caller} - {chain.self}, call);
    DriveWrite(cfg, db, after, WriteResolved(id, decision, |chain.events|, DbRemaining(cfg, db, id)));
    hide E.Judge, DbRemaining, Write;
    assert outcome.Ok? ==> Drive(cfg, db, chain, CallResolve(id, decision, bps))
                           == Drive(cfg, db, after, ReadResolved(id, decision, |chain.events|));
  }

  lemma ResolveEdit(db: Db, id: Id, decision: E.Decision, tx: nat, remaining: nat)
    requires id in db.contracts && CanRecord(db.payments, Payment(id, None, remaining, tx))
    requires db.contracts[id].status == DISPUTED
    ensures var status := if decision.RefundToClient? then CANCELLED else COMPLETED;
            var e := Settlement(db.contracts[id], id, status, remaining, tx, false);
            EditOk(db, id, e) && Write(db, WriteResolved(id, decision, tx, remaining)) == Edited(db, id, e)
  {
  }

  lemma ResolveKeeps(cfg: Config, db: Db, chain: E.Chain, id: Id, decision: E.Decision, bps: E.u32)
    requires DbInv(cfg, db, chain) && ChainOk(cfg, db, chain)
    requires id in db.contracts && db.contracts[id].status == DISPUTED
    ensures Kept(cfg, db, chain, Drive(cfg, db, chain, CallResolve(id, decision, bps)))
  {
    var call := E.Resolve(Key(id), cfg.admin, decision, bps);
    var (after, outcome) := E.Apply(chain, {call.caller} - {chain.self}, call);
    DriveResolve(cfg, db, chain, id, decision, bps);
    Unchanged(cfg, db, chain);
    hide DbInv, ChainOk, E.Apply, E.Judge, Kept, EditOk, DbRemaining, CanRecord, Drive, Edited, Write;
    if outcome.Ok? {
      var status := if decision.RefundToClient? then CANCELLED else COMPLETED;
      SettlementKeeps(cfg, db, chain, id, call, after, status, false);
      ResolveEdit(db, id, decision, |chain.events|, DbRemaining(cfg, db, id));
    }
  }

  // ---- cancelling ----

  lemma DriveCancelled(cfg: Config, db: Db, chain: E.Chain, id: Id, jobId: Id, tx: Option<nat>)
    ensures Drive(cfg, db, chain, ReadCancelled(id, jobId, tx))
         == (Write(db, WriteCancelled(id, jobId, tx, DbRemaining(cfg, db, id))), chain)
  {
    DriveWrite(cfg, db, chain, WriteCancelled(id, jobId, tx, DbRemaining(cfg, db, id)));
  }

  lemma UnfundedAgrees(cfg: Config, c: Contract, total: int, unpaid: int, paid: int, entry: Option<E.Entry>)
    requires c.escrowTx.None? && c.status != CANCELLED && Agrees(cfg, c, total, unpaid, paid, entry)
    ensures c.status == PENDING && Agrees(cfg, c.(status := CANCELLED), total, unpaid, paid, entry)
  {
  }

  lemma CancelEdit(db: Db, id: Id, tx: Option<nat>, remaining: nat)
    requires id in db.contracts && db.contracts[id].jobId in db.jobs
    requires db.contracts[id].status != COMPLETED && db.contracts[id].status != CANCELLED
    requires tx.Some? ==> CanRecord(db.payments, Payment(id, None, remaining, tx.value))
    ensures var c := db.contracts[id];
            var e := if tx.Some? then Settlement(c, id, CANCELLED, remaining, tx.value, true)
                     else Edit(c.(status := CANCELLED), None, None, true);
            EditOk(db, id, e) && Write(db, WriteCancelled(id, c.jobId, tx, remaining)) == Edited(db, id, e)
  {
  }

  lemma CancelUnfunded(cfg: Config, db: Db, chain: E.Chain, id: Id)
    requires DbInv(cfg, db, chain) && id in db.contracts
    requires db.contracts[id].escrowTx.None? && db.contracts[id].status != CANCELLED
    ensures Kept(cfg, db, chain, Drive(cfg, db, chain, ReadCancelled(id, db.contracts[id].jobId, None)))
  {
    var c := db.contracts[id];
    var e := Edit(c.(status := CANCELLED), None, None, true);
    DriveCancelled(cfg, db, chain, id, c.jobId, None);
    assert AgreesAt(cfg, db, chain, id) && c.jobId in db.jobs;
    UnfundedAgrees(cfg, c, MilestoneCents(cfg, db.milestones, id), UnpaidCents(cfg, db.milestones, id),
                   PaymentCents(cfg, db.payments, id), Lookup(chain, id));
    CancelEdit(db, id, None, DbRemaining(cfg, db, id));
    hide RowsOk, JobsOk, PaidOk, OnlyOurs, AllAgree, Agrees, EditOk, Edited, Kept, MilestoneCents, UnpaidCents,
         PaymentCents, Drive, DbRemaining, Write;
    EditKeeps(cfg, db, chain, chain, id, e);
  }

  lemma DriveRefund(cfg: Config, db: Db, chain: E.Chain, id: Id, jobId: Id)
    ensures var call := E.Refund(Key(id), cfg.admin);
            var (after, outcome) := E.Apply(chain, {call.caller} - {chain.self}, call);
            Drive(cfg, db, chain, CallRefund(id, jobId))
            == if outcome.Ok?
               then (Write(db, WriteCancelled(id, jobId, Some(|chain.events|), DbRemaining(cfg, db, id))), after)
               else (db, chain)
  {
    var call := E.Refund(Key(id), cfg.admin);
    var (after, outcome) := E.Apply(chain, {call.caller} - {chain.self}, call);
    DriveCancelled(cfg, db, after, id, jobId, Some(|chain.events|));
    hide E.Judge, DbRemaining, Write;
    assert outcome.Ok? ==> Drive(cfg, db, chain, CallRefund(id, jobId))
                           == Drive(cfg, db, after, ReadCancelled(id, jobId, Some(|chain.events|)));
  }

  lemma CancelFunded(cfg: Config, db: Db, chain: E.Chain, id: Id)
    requires DbInv(cfg, db, chain) && ChainOk(cfg, db, chain) && id in db.contracts
    requires db.contracts[id].escrowTx.Some?
    requires db.contracts[id].status != COMPLETED && db.contracts[id].status != CANCELLED
    ensures Kept(cfg, db, chain, Drive(cfg, db, chain, CallRefund(id, db.contracts[id].jobId)))
  {
    var c := db.contracts[id];
    var call := E.Refund(Key(id), cfg.admin);
    var (after, outcome) := E.Apply(chain, {call.caller} - {chain.self}, call);
    assert c.jobId in db.jobs && c.status != PENDING by {
      assert AgreesAt(cfg, db, chain, id);
    }
    DriveRefund(cfg, db, chain, id, c.jobId);
    Unchanged(cfg, db, chain);
    hide DbInv, ChainOk, E.Apply, E.Judge, Kept, EditOk, DbRemaining, CanRecord, Drive, Edited, Write;
    if outcome.Ok? {
      SettlementKeeps(cfg, db, chain, id, call, after, CANCELLED, true);
      CancelEdit(db, id, Some(|chain.events|), DbRemaining(cfg, db, id));
    }
  }
}
