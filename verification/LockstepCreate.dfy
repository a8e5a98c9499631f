// Creating jobs and contracts, and what the world does to the chain meanwhile.

module LockstepCreate {
  import opened Sums
  import opened TokenLedger
  import opened Backend
  import opened Lockstep
  import opened DbEdits
  import opened LockstepRuns
  import E = EscrowSpec
  import S = EscrowSafety
  import R = Rounding
  import K = KeyEncoding

  // ---- jobs ----

  lemma JobRows(db: Db, task: Task, req: Request)
    requires RowsOk(db) && JobsOk(db)
    requires req.CreateJob? || req.CancelJob?
    requires Admit(db, req) == Some(task)
    ensures JustWrites(task)
    ensures RowsOk(Write(db, task)) && JobsOk(Write(db, task))
    ensures Write(db, task).(jobs := db.jobs) == db
  {
    if req.CancelJob? {
      assert forall id :: id in db.contracts ==> db.contracts[id].jobId != req.jobId;
    }
  }

  lemma JobKeeps(cfg: Config, db: Db, chain: E.Chain, task: Task, req: Request)
    requires DbInv(cfg, db, chain)
    requires req.CreateJob? || req.CancelJob?
    requires Admit(db, req) == Some(task)
    ensures Kept(cfg, db, chain, Drive(cfg, db, chain, task))
  {
    JobRows(db, task, req);
    DriveWrite(cfg, db, chain, task);
    Unchanged(cfg, db, chain);
    var db' := Write(db, task);
    SameRows(cfg, db, db', chain);
  }

  lemma SameRows(cfg: Config, db: Db, db': Db, chain: E.Chain)
    requires DbInv(cfg, db, chain) && db'.(jobs := db.jobs) == db && RowsOk(db') && JobsOk(db')
    ensures Kept(cfg, db, chain, (db', chain))
  {
    hide RowsOk, JobsOk, Agrees, MilestoneCents, UnpaidCents, PaymentCents, Lookup;
    forall id | id in db'.contracts ensures AgreesAt(cfg, db', chain, id) {
      assert AgreesAt(cfg, db, chain, id);
    }
    assert PaidOk(cfg, db') && OnlyOurs(db', chain);
    hide AgreesAt, PaidOk, OnlyOurs;
  }

  // ---- creating a contract ----

  lemma {:induction false} MilestonesAdded(milestones: map<Id, Milestone>, id: Id, ids: seq<Id>, amounts: seq<nat>,
                                           m: Id)
    requires |ids| == |amounts|
    ensures var after := WithMilestones(milestones, id, ids, amounts);
            && (m in after <==> m in milestones || m in ids)
            && (m in milestones && m !in ids ==> after[m] == milestones[m])
            && (m in ids ==> after[m].contractId == id && after[m].status == TODO && after[m].amount in amounts)
  {
    if ids != [] {
      var n := |ids| - 1;
      MilestonesAdded(milestones, id, ids[..n], amounts[..n], m);
      assert ids == ids[..n] + [ids[n]];
      assert amounts == amounts[..n] + [amounts[n]];
    }
  }

  predicate Fresh(milestones: map<Id, Milestone>, ids: seq<Id>) {
    && (forall i :: 0 <= i < |ids| ==> ids[i] !in milestones)
    && (forall i, j :: 0 <= i < j < |ids| ==> ids[i] != ids[j])
  }

  /** New milestones add their sum to their own contract and nothing to any other. */
  lemma {:induction false} AddedSums(cfg: Config, milestones: map<Id, Milestone>, id: Id, ids: seq<Id>,
                                     amounts: seq<nat>,
                                     other: Id)
    requires |ids| == |amounts| && Fresh(milestones, ids)
    requires forall i :: 0 <= i < |amounts| ==> Cents(cfg, amounts[i]) == amounts[i]
    ensures var after := WithMilestones(milestones, id, ids, amounts);
            var more := if other == id then Sum(amounts) else 0;
            && MilestoneCents(cfg, after, other) == MilestoneCents(cfg, milestones, other) + more
            && UnpaidCents(cfg, after, other) == UnpaidCents(cfg, milestones, other) + more
  {
    if ids != [] {
      var n := |ids| - 1;
      var before := WithMilestones(milestones, id, ids[..n], amounts[..n]);
      var row := Milestone(id, amounts[n], TODO);
      AddedSums(cfg, milestones, id, ids[..n], amounts[..n], other);
      MilestonesAdded(milestones, id, ids[..n], amounts[..n], ids[n]);
      assert ids[n] !in before && before - {ids[n]} == before;
      TotalOne(cfg, before, ids[n], row, other);
      UnpaidOne(cfg, before, ids[n], row, other);
      assert WithMilestones(milestones, id, ids, amounts) == before[ids[n] := row];
      assert Sum(amounts) == Sum(amounts[..n]) + amounts[n];
    }
  }

  lemma NoMilestones(cfg: Config, milestones: map<Id, Milestone>, id: Id)
    ensures (forall m :: m in milestones ==> milestones[m].contractId != id) ==>
              MilestoneCents(cfg, milestones, id) == 0 && UnpaidCents(cfg, milestones, id) == 0
  {
    NothingDue(map m | m in milestones && milestones[m].contractId == id :: Cents(cfg, milestones[m].amount));
    NothingDue(Due(cfg, milestones, id));
  }

  lemma {:induction false} NoPayments(cfg: Config, payments: seq<Payment>, id: Id)
    requires forall p :: p in payments ==> p.contractId != id
    ensures PaymentCents(cfg, payments, id) == 0
  {
    if payments != [] {
      assert payments[|payments| - 1] in payments;
      NoPayments(cfg, payments[..|payments| - 1], id);
    }
  }

  /** The amounts `create` accepts: floats lose none of them, and the total funded is their sum. */
  lemma CreateAmounts(cfg: Config, db: Db, req: Request)
    requires R.Rounds(cfg.fl) && req.Create? && CanCreate(db, req) && Modest(req)
    ensures forall i :: 0 <= i < |req.amounts| ==> Cents(cfg, req.amounts[i]) == req.amounts[i]
    ensures 0 < Sum(req.amounts) < R.LIMIT && R.FundStroops(cfg.fl, req.amounts) == Sum(req.amounts)
  {
    R.FundingCoversReleases(cfg.fl, req.amounts);
    R.SumAtLeastLength(req.amounts);
    assert (|req.amounts| + 1) * Sum(req.amounts) >= Sum(req.amounts);
  }

  lemma CreateRows(db: Db, req: Request)
    requires req.Create? && CanCreate(db, req) && RowsOk(db) && JobsOk(db)
    ensures RowsOk(Write(db, WriteContract(req))) && JobsOk(Write(db, WriteContract(req)))
  {
    var db' := Write(db, WriteContract(req));
    forall m ensures m in db'.milestones ==> db'.milestones[m].contractId in db'.contracts
             ensures m in db.milestones ==> m in db'.milestones
    {
      MilestonesAdded(db.milestones, req.contractId, req.milestoneIds, req.amounts, m);
    }
    assert forall id :: id in db.contracts ==> db.contracts[id].jobId != req.jobId;
    hide WithMilestones, K.IsUuid;
  }

  lemma CreatePaid(cfg: Config, db: Db, req: Request)
    requires R.Rounds(cfg.fl) && req.Create? && CanCreate(db, req) && Modest(req)
    requires RowsOk(db) && PaidOk(cfg, db)
    ensures PaidOk(cfg, Write(db, WriteContract(req)))
  {
    CreateAmounts(cfg, db, req);
    var db' := Write(db, WriteContract(req));
    forall m | m in db'.milestones
      ensures && (db'.milestones[m].status == PAID <==> MilestoneRecorded(db'.payments, m))
              && 0 < Cents(cfg, db'.milestones[m].amount) && db'.milestones[m].amount < DECIMAL_LIMIT
    {
      MilestonesAdded(db.milestones, req.contractId, req.milestoneIds, req.amounts, m);
      if m in req.milestoneIds {
        assert m !in db.milestones;
      }
    }
  }

  lemma CreateEvolves(db: Db, req: Request)
    requires req.Create? && CanCreate(db, req)
    ensures Evolves(db, Write(db, WriteContract(req)))
  {
    var db' := Write(db, WriteContract(req));
    forall m | m in db.milestones ensures m in db'.milestones && MilestoneEvolves(db.milestones[m], db'.milestones[m]) {
      MilestonesAdded(db.milestones, req.contractId, req.milestoneIds, req.amounts, m);
      assert m !in req.milestoneIds;
    }
  }

  /** The new contract's sums; the other contracts' are as they were. */
  lemma CreateSums(cfg: Config, db: Db, req: Request)
    requires R.Rounds(cfg.fl) && req.Create? && CanCreate(db, req) && Modest(req) && RowsOk(db)
    ensures var db' := Write(db, WriteContract(req));
            && MilestoneCents(cfg, db'.milestones, req.contractId) == Sum(req.amounts)
            && UnpaidCents(cfg, db'.milestones, req.contractId) == Sum(req.amounts)
            && PaymentCents(cfg, db'.payments, req.contractId) == 0
            && forall other :: other in db.contracts ==> SameSums(cfg, db, db', other)
  {
    CreateAmounts(cfg, db, req);
    var db' := Write(db, WriteContract(req));
    AddedSums(cfg, db.milestones, req.contractId, req.milestoneIds, req.amounts, req.contractId);
    NoMilestones(cfg, db.milestones, req.contractId);
    NoPayments(cfg, db.payments, req.contractId);
    forall other | other in db.contracts ensures SameSums(cfg, db, db', other) {
      AddedSums(cfg, db.milestones, req.contractId, req.milestoneIds, req.amounts, other);
    }
  }

  /** A key of ours that belongs to no contract yet has no entry. */
  lemma NoEntryYet(db: Db, chain: E.Chain, id: Id)
    requires RowsOk(db) && OnlyOurs(db, chain) && K.IsUuid(id) && id !in db.contracts
    ensures Lookup(chain, id) == None
  {
    if Key(id) in chain.entries {
      var other :| other in db.contracts && Key(other) == Key(id);
      K.KeyInjective(other, id);
    }
  }

  lemma NewAgrees(cfg: Config, c: Contract, total: int)
    requires c.status == PENDING && c.escrowTx.None? && 0 < total < R.LIMIT
    ensures Agrees(cfg, c, total, total, 0, None)
  {
  }

  lemma CreateAgrees(cfg: Config, db: Db, chain: E.Chain, req: Request)
    requires R.Rounds(cfg.fl) && DbInv(cfg, db, chain)
    requires req.Create? && CanCreate(db, req) && Modest(req)
    ensures AllAgree(cfg, Write(db, WriteContract(req)), chain)
    ensures TotalsStay(cfg, db, Write(db, WriteContract(req)))
  {
    hide JobsOk, PaidOk, Agrees, MilestoneCents, UnpaidCents, PaymentCents, WithMilestones;
    var db' := Write(db, WriteContract(req));
    CreateAmounts(cfg, db, req);
    CreateSums(cfg, db, req);
    NoEntryYet(db, chain, req.contractId);
    NewAgrees(cfg, db'.contracts[req.contractId], Sum(req.amounts));
    assert AgreesAt(cfg, db', chain, req.contractId);
    hide RowsOk, OnlyOurs;
    forall other | other in db'.contracts && other != req.contractId
      ensures SameFor(cfg, db, chain, db', chain, other)
    {
      assert SameSums(cfg, db, db', other);
    }
    OneChanged(cfg, db, chain, db', chain, req.contractId);
    assert forall id :: id in db.contracts ==> SameSums(cfg, db, db', id);
  }

  lemma CreateOurs(db: Db, chain: E.Chain, req: Request)
    requires req.Create? && CanCreate(db, req) && OnlyOurs(db, chain)
    ensures OnlyOurs(Write(db, WriteContract(req)), chain)
  {
    hide Key, Funds, WithMilestones;
  }

  lemma CreateKeeps(cfg: Config, db: Db, chain: E.Chain, req: Request)
    requires R.Rounds(cfg.fl) && DbInv(cfg, db, chain) && req.Create? && Modest(req)
    ensures Kept(cfg, db, chain, Drive(cfg, db, chain, WriteContract(req)))
  {
    DriveWrite(cfg, db, chain, WriteContract(req));
    if CanCreate(db, req) {
      CreateRows(db, req);
      CreatePaid(cfg, db, req);
      CreateEvolves(db, req);
      CreateAgrees(cfg, db, chain, req);
      CreateOurs(db, chain, req);
      hide RowsOk, JobsOk, PaidOk, OnlyOurs, AllAgree, CanCreate, Evolves, WithMilestones, TotalsStay;
    } else {
      Unchanged(cfg, db, chain);
    }
  }

  /** The funding transaction built for a new contract is for its total, to the stroop. */
  lemma CreateFunding(cfg: Config, db: Db, req: Request)
    requires R.Rounds(cfg.fl) && req.Create? && CanCreate(db, req) && Modest(req) && RowsOk(db)
    ensures var db' := Write(db, WriteContract(req));
            && db'.contracts[req.contractId] == Contract(req.jobId, req.caller, req.freelancerId, PENDING, None)
            && Funding(cfg, req).Some?
            && Funding(cfg, req).value.amount == MilestoneCents(cfg, db'.milestones, req.contractId)
  {
    CreateAmounts(cfg, db, req);
    CreateSums(cfg, db, req);
    hide MilestoneCents, UnpaidCents, PaymentCents;
  }

  // ---- the rest of the network ----

  /** The chain moved under one contract, and the contract still agrees with it. */
  lemma ChainMoved(cfg: Config, db: Db, chain: E.Chain, after: E.Chain, id: Id)
    requires DbInv(cfg, db, chain) && id in db.contracts
    requires OnlyOurs(db, after) && OthersStay(db, chain, after, id)
    requires AgreesAt(cfg, db, after, id)
    ensures DbInv(cfg, db, after)
  {
    hide RowsOk, JobsOk, PaidOk, OnlyOurs, Agrees, MilestoneCents, UnpaidCents, PaymentCents, AgreesAt;
    forall other | other in db.contracts && other != id ensures SameFor(cfg, db, chain, db, after, other) {
    }
    OneChanged(cfg, db, chain, db, after, id);
  }

  lemma FundedAgrees(cfg: Config, c: Contract, total: int, unpaid: int, paid: int, e: E.Entry)
    requires Agrees(cfg, c, total, unpaid, paid, None) && EntryFor(cfg, c, total, e)
    requires e.status.Funded? && e.released == 0
    ensures Agrees(cfg, c, total, unpaid, paid, Some(e))
  {
  }

  lemma FundingKeeps(cfg: Config, w: World, id: Id)
    requires Inv(cfg, w)
    ensures DbInv(cfg, w.db, Next(cfg, w, SubmitFunding(id)).chain)
  {
    hide RowsOk, JobsOk, PaidOk, OnlyOurs, Agrees, MilestoneCents, UnpaidCents, PaymentCents, ChainOk, Served;
    if id in w.fundings {
      var call := w.fundings[id];
      var (after, outcome) := E.Apply(w.chain, {call.caller} - {w.chain.self}, call);
      if outcome.Ok? {
        var e := after.entries[Key(id)];
        FundedEntry(w.chain, {call.caller} - {w.chain.self}, call);
        assert AgreesAt(cfg, w.db, w.chain, id);
        FundedAgrees(cfg, w.db.contracts[id], MilestoneCents(cfg, w.db.milestones, id),
                     UnpaidCents(cfg, w.db.milestones, id), PaymentCents(cfg, w.db.payments, id), e);
        OneEntry(w.db, w.chain, after, id, e, after.events[|w.chain.events|]);
        hide AllAgree, E.Apply;
        ChainMoved(cfg, w.db, w.chain, after, id);
      }
    }
  }

  lemma FundedEntry(chain: E.Chain, signers: set<Address>, call: E.Call)
    requires call.Fund? && E.Apply(chain, signers, call).1.Ok?
    ensures var after := E.Apply(chain, signers, call).0;
            var e := E.Entry(call.caller, call.freelancer, call.admin, call.token, call.amount, 0, E.Funded);
            && call.id !in chain.entries && after.entries == chain.entries[call.id := e]
            && |after.events| == |chain.events| + 1
            && after.events == chain.events + [after.events[|chain.events|]]
            && after.events[|chain.events|].id == call.id
  {
  }

  lemma PartyAgrees(cfg: Config, c: Contract, total: int, unpaid: int, paid: int, e: E.Entry, call: E.Call)
    requires Agrees(cfg, c, total, unpaid, paid, Some(e)) && call.Dispute? && E.Judge(e, call).Accept?
    ensures Agrees(cfg, c, total, unpaid, paid, Some(E.Judge(e, call).after))
  {
  }

  /** A party may dispute on the chain directly, whatever the database says; nothing it says becomes false. */
  lemma PartyDisputeKeeps(cfg: Config, db: Db, chain: E.Chain, id: Id, party: Address)
    requires DbInv(cfg, db, chain)
    ensures DbInv(cfg, db, E.Apply(chain, {party} - {chain.self}, E.Dispute(Key(id), party)).0)
  {
    var call := E.Dispute(Key(id), party);
    var (after, outcome) := E.Apply(chain, {call.caller} - {chain.self}, call);
    if outcome.Ok? {
      var owner :| owner in db.contracts && Key(owner) == Key(id);
      EntryCall(db, chain, call, owner);
      hide RowsOk, JobsOk, PaidOk, OnlyOurs, Agrees, MilestoneCents, UnpaidCents, PaymentCents, E.Apply, E.Judge;
      assert AgreesAt(cfg, db, chain, owner);
      PartyAgrees(cfg, db.contracts[owner], MilestoneCents(cfg, db.milestones, owner),
                  UnpaidCents(cfg, db.milestones, owner), PaymentCents(cfg, db.payments, owner),
                  Lookup(chain, owner).value, call);
      hide AllAgree;
      ChainMoved(cfg, db, chain, after, owner);
    }
  }

  lemma SameLog(db: Db, chain: E.Chain, after: E.Chain)
    requires OnlyOurs(db, chain) && after.entries == chain.entries && after.events == chain.events
    ensures OnlyOurs(db, after)
  {
  }

  lemma TrafficKeeps(cfg: Config, db: Db, chain: E.Chain, op: TokenOp)
    requires DbInv(cfg, db, chain)
    ensures DbInv(cfg, db, S.Next(chain, S.Outside(op)))
  {
    hide RowsOk, JobsOk, PaidOk, OnlyOurs, Agrees, MilestoneCents, UnpaidCents, PaymentCents, Perform;
    var after := S.Next(chain, S.Outside(op));
    SameLog(db, chain, after);
    forall id | id in db.contracts ensures AgreesAt(cfg, db, after, id) {
      assert AgreesAt(cfg, db, chain, id);
    }
    hide AgreesAt;
  }
}
