// Runs of the lockstep world, and what database and chain say to each other in them.

module LockstepTheorems {
  import opened Sums
  import opened TokenLedger
  import opened Backend
  import opened Lockstep
  import opened DbEdits
  import opened LockstepRuns
  import opened LockstepCreate
  import E = EscrowSpec
  import S = EscrowSafety
  import K = KeyEncoding
  import R = Rounding
  import P = PaymentBacking

  // ---- one step ----

  /** A request run alone is a run of the interleaved system, and keeps what that keeps. */
  lemma DriveBacked(cfg: Config, db: Db, chain: E.Chain, r: Id, task: Task)
    requires P.Inv(cfg, P.System(db, chain, map[r := task]))
    ensures var (db', chain') := Drive(cfg, db, chain, task);
            ChainOk(cfg, db', chain') && chain'.self == chain.self
    decreases Rank(task)
  {
    var s := P.System(db, chain, map[r := task]);
    var s' := P.Next(cfg, s, P.Work(r, Truthful));
    P.WorkKeeps(cfg, s, r, Truthful);
    var done := Advance(cfg, db, chain, task, Truthful);
    RankFalls(cfg, db, chain, task);
    hide Advance, P.Inv, Rank;
    if done.next.None? {
      assert s'.tasks == map[];
    } else {
      assert s' == P.System(done.db, done.chain, map[r := done.next.value]);
      DriveBacked(cfg, done.db, done.chain, r, done.next.value);
    }
  }

  lemma RankFalls(cfg: Config, db: Db, chain: E.Chain, task: Task)
    ensures var next := Advance(cfg, db, chain, task, Truthful).next;
            next.Some? ==> Rank(next.value) < Rank(task)
  {
  }

  lemma ServeBacked(cfg: Config, db: Db, chain: E.Chain, req: Request)
    requires ChainOk(cfg, db, chain)
    ensures var (db', chain') := Served(cfg, db, chain, req);
            ChainOk(cfg, db', chain') && chain'.self == chain.self
  {
    var task := Admit(db, req);
    if task.Some? {
      P.AdmittedOwesNothing(db, req);
      assert P.Inv(cfg, P.System(db, chain, map["" := task.value]));
      DriveBacked(cfg, db, chain, "", task.value);
    }
    hide Drive, P.Inv;
  }

  lemma ServeKeeps(cfg: Config, w: World, req: Request)
    requires R.Rounds(cfg.fl) && DbInv(cfg, w.db, w.chain) && ChainOk(cfg, w.db, w.chain)
    requires Fair(w, Serve(req))
    ensures Kept(cfg, w.db, w.chain, Served(cfg, w.db, w.chain, req))
  {
    var (db, chain) := (w.db, w.chain);
    hide Kept, DbInv, Drive, ChainOk;
    var task := Admit(db, req);
    if task.None? {
      Unchanged(cfg, db, chain);
    } else {
      match req {
        case CreateJob(_, _) => JobKeeps(cfg, db, chain, task.value, req);
        case CancelJob(_, _, _) => JobKeeps(cfg, db, chain, task.value, req);
        case Create(_, _, _, _, _, _) => CreateKeeps(cfg, db, chain, req);
        case ConfirmFund(id, caller, tx) => ConfirmKeeps(cfg, db, chain, id, caller, tx);
        case SubmitMilestone(id, m, caller) => SubmitKeeps(cfg, db, chain, id, m, caller);
        case ApproveMilestone(id, m, _) => ApproveKeeps(cfg, db, chain, id, m);
        case Dispute(id, caller, signer) => DisputeKeeps(cfg, db, chain, id, caller, signer);
        case ResolveDispute(id, _, decision, bps) => ResolveKeeps(cfg, db, chain, id, decision, bps);
        case Cancel(id, _, _) =>
          if db.contracts[id].escrowTx.Some? { CancelFunded(cfg, db, chain, id); }
          else { CancelUnfunded(cfg, db, chain, id); }
      }
    }
  }

  /** The funding transactions built so far stay right. */
  lemma FundingsKept(cfg: Config, db: Db, db': Db, fundings: map<Id, E.Call>)
    requires FundingsOk(cfg, db, fundings) && Evolves(db, db') && TotalsStay(cfg, db, db')
    ensures FundingsOk(cfg, db', fundings)
  {
    hide MilestoneCents;
  }

  lemma OnlyCreateAdds(cfg: Config, db: Db, chain: E.Chain, req: Request)
    requires req.Create? && req.contractId !in db.contracts
    requires req.contractId in Served(cfg, db, chain, req).0.contracts
    ensures CanCreate(db, req) && Served(cfg, db, chain, req).0 == Write(db, WriteContract(req))
  {
    DriveWrite(cfg, db, chain, WriteContract(req));
  }

  lemma ServeFundings(cfg: Config, w: World, req: Request)
    requires R.Rounds(cfg.fl) && Inv(cfg, w) && Fair(w, Serve(req))
    requires Kept(cfg, w.db, w.chain, Served(cfg, w.db, w.chain, req))
    ensures FundingsOk(cfg, Next(cfg, w, Serve(req)).db, Next(cfg, w, Serve(req)).fundings)
  {
    var db' := Served(cfg, w.db, w.chain, req).0;
    FundingsKept(cfg, w.db, db', w.fundings);
    if req.Create? && req.contractId in db'.contracts && req.contractId !in w.db.contracts {
      OnlyCreateAdds(cfg, w.db, w.chain, req);
      CreateFunding(cfg, w.db, req);
      FundingAdded(cfg, db', w.fundings, req);
    }
    hide Served, Kept, FundingsOk, MilestoneCents, Write, CanCreate, Evolves, TotalsStay, ChainOk, RowsOk, JobsOk,
         PaidOk, OnlyOurs, AllAgree, Funding;
  }

  lemma FundingAdded(cfg: Config, db: Db, fundings: map<Id, E.Call>, req: Request)
    requires req.Create? && FundingsOk(cfg, db, fundings)
    requires req.contractId in db.contracts && Funding(cfg, req).Some?
    requires db.contracts[req.contractId] == Contract(req.jobId, req.caller, req.freelancerId, PENDING, None)
    requires Funding(cfg, req).value.amount == MilestoneCents(cfg, db.milestones, req.contractId)
    ensures FundingsOk(cfg, db, fundings[req.contractId := Funding(cfg, req).value])
  {
    hide MilestoneCents, R.FundStroops, Key;
  }

  lemma StepKeeps(cfg: Config, w: World, step: Step)
    requires R.Rounds(cfg.fl) && Inv(cfg, w) && Fair(w, step)
    ensures var w' := Next(cfg, w, step);
            Inv(cfg, w') && Evolves(w.db, w'.db) && w'.chain.self == w.chain.self
  {
    hide RowsOk, JobsOk, PaidOk, OnlyOurs, AllAgree, FundingsOk, ChainOk, Served, E.Apply;
    match step
    case Serve(req) =>
      ServeKeeps(cfg, w, req);
      ServeBacked(cfg, w.db, w.chain, req);
      ServeFundings(cfg, w, req);
    case SubmitFunding(id) =>
      FundingKeeps(cfg, w, id);
      if id in w.fundings {
        NetworkBacked(cfg, w, S.Invoke({w.fundings[id].caller} - {w.chain.self}, w.fundings[id]));
      }
    case PartyDispute(id, party) =>
      PartyDisputeKeeps(cfg, w.db, w.chain, id, party);
      NetworkBacked(cfg, w, S.Invoke({party} - {w.chain.self}, E.Dispute(Key(id), party)));
    case Traffic(op) =>
      TrafficKeeps(cfg, w.db, w.chain, op);
      NetworkBacked(cfg, w, S.Outside(op));
  }

  lemma NetworkBacked(cfg: Config, w: World, step: S.Step)
    requires ChainOk(cfg, w.db, w.chain) && S.Possible(w.chain.self, step)
    ensures ChainOk(cfg, w.db, S.Next(w.chain, step)) && S.Next(w.chain, step).self == w.chain.self
  {
    P.NetworkKeeps(w.chain, step);
    P.LongerLog(cfg, P.System(w.db, w.chain, map[]), S.Next(w.chain, step).events);
  }

  // ---- runs ----

  ghost function Run(cfg: Config, w: World, steps: seq<Step>): World
    decreases |steps|
  {
    if steps == [] then w else Run(cfg, Next(cfg, w, steps[0]), steps[1..])
  }

  ghost predicate FairRun(cfg: Config, w: World, steps: seq<Step>)
    decreases |steps|
  {
    steps == [] || (Fair(w, steps[0]) && FairRun(cfg, Next(cfg, w, steps[0]), steps[1..]))
  }

  ghost predicate Initial(w: World) {
    w.db == Db(map[], map[], map[], []) && w.fundings == map[] && S.Initial(w.chain)
  }

  lemma InitialInv(cfg: Config, w: World)
    requires Initial(w)
    ensures Inv(cfg, w)
  {
    S.InitialInv(w.chain);
  }

  /** What a run may do to the rows: statuses move forward, a funding hash never changes, rows stay. */
  ghost predicate Later(a: Db, b: Db) {
    && (forall id :: id in a.contracts ==> id in b.contracts && ContractLater(a.contracts[id], b.contracts[id]))
    && (forall m :: m in a.milestones ==> m in b.milestones && MilestoneEvolves(a.milestones[m], b.milestones[m]))
    && a.payments <= b.payments
  }

  predicate ContractLater(a: Contract, b: Contract) {
    && b.(status := a.status, escrowTx := a.escrowTx) == a
    && Reach(a.status, b.status)
    && (a.escrowTx.Some? ==> b.escrowTx == a.escrowTx)
  }

  /** The edges, followed any number of times: nothing returns to an earlier status or leaves a last one. */
  predicate Reach(a: ContractStatus, b: ContractStatus) {
    a == b || a == PENDING || (a == ACTIVE && b != PENDING) || (a == DISPUTED && (b == COMPLETED || b == CANCELLED))
  }

  lemma ReachEdge(a: ContractStatus, b: ContractStatus, c: ContractStatus)
    requires Edge(a, b) && Reach(b, c)
    ensures Reach(a, c)
  {
  }

  lemma LaterStep(a: Db, b: Db, c: Db)
    requires Evolves(a, b) && Later(b, c)
    ensures Later(a, c)
  {
    forall id | id in a.contracts ensures id in c.contracts && ContractLater(a.contracts[id], c.contracts[id]) {
      ReachEdge(a.contracts[id].status, b.contracts[id].status, c.contracts[id].status);
    }
    assert a.payments <= c.payments;
    hide Reach;
  }

  lemma LaterSame(a: Db)
    ensures Later(a, a)
  {
  }

  lemma {:induction false} RunKeeps(cfg: Config, w: World, steps: seq<Step>)
    requires R.Rounds(cfg.fl) && Inv(cfg, w) && FairRun(cfg, w, steps)
    ensures var w' := Run(cfg, w, steps);
            Inv(cfg, w') && Later(w.db, w'.db) && w'.chain.self == w.chain.self
    decreases |steps|
  {
    if steps == [] {
      LaterSame(w.db);
    } else {
      hide Inv, Evolves, Later, Next, Fair, R.Rounds;
      StepKeeps(cfg, w, steps[0]);
      RunKeeps(cfg, Next(cfg, w, steps[0]), steps[1..]);
      LaterStep(w.db, Next(cfg, w, steps[0]).db, Run(cfg, w, steps).db);
    }
  }

  // ---- the main results ----

  /** What a contract's row, its unpaid sums and its entry have to do with each other. */
  predicate InStep(c: Contract, dbRemaining: int, unpaid: int, entry: Option<E.Entry>) {
    match c.status
    case PENDING => c.escrowTx.None? && (entry.Some? ==> E.Live(entry.value) && entry.value.released == 0)
    case ACTIVE =>
      c.escrowTx.Some? && entry.Some? && E.Live(entry.value) && dbRemaining == unpaid == E.Remaining(entry.value)
    case DISPUTED =>
      c.escrowTx.Some? && entry.Some? && entry.value.status.Disputed?
      && dbRemaining == unpaid == E.Remaining(entry.value)
    case COMPLETED => c.escrowTx.Some? && entry.Some? && (entry.value.status.Released? || entry.value.status.Resolved?)
    case CANCELLED =>
      if c.escrowTx.Some? then entry.Some? && entry.value.status.Refunded?
      else entry.Some? ==> E.Live(entry.value) && entry.value.released == 0
  }

  /** The entry names the wallets of the contract's parties and the platform, for the sum of its milestones. */
  predicate OpenedFor(cfg: Config, c: Contract, total: int, e: E.Entry) {
    && e.client == cfg.wallet(c.clientId) && e.freelancer == cfg.wallet(c.freelancerId)
    && e.admin == cfg.admin && e.token == cfg.token
    && e.total == total
  }

  lemma AgreesInStep(cfg: Config, c: Contract, total: int, unpaid: int, paid: int, entry: Option<E.Entry>)
    requires Agrees(cfg, c, total, unpaid, paid, entry) && unpaid >= 0
    ensures InStep(c, if total - paid > 0 then total - paid else 0, unpaid, entry)
    ensures entry.Some? ==> OpenedFor(cfg, c, total, entry.value)
  {
  }

  /** In every reachable lockstep state, what the database says of a contract is what the chain says. */
  lemma LockstepAgreement(cfg: Config, w: World, steps: seq<Step>, id: Id)
    requires R.Rounds(cfg.fl) && Initial(w) && FairRun(cfg, w, steps)
    requires id in Run(cfg, w, steps).db.contracts
    ensures var w' := Run(cfg, w, steps);
            InStep(w'.db.contracts[id], DbRemaining(cfg, w'.db, id), UnpaidCents(cfg, w'.db.milestones, id),
                   Lookup(w'.chain, id))
    ensures var w' := Run(cfg, w, steps);
            Lookup(w'.chain, id).Some? ==>
              OpenedFor(cfg, w'.db.contracts[id], MilestoneCents(cfg, w'.db.milestones, id), Lookup(w'.chain, id).value)
  {
    InitialInv(cfg, w);
    RunKeeps(cfg, w, steps);
    var w' := Run(cfg, w, steps);
    UnpaidZero(cfg, w'.db, id);
    hide RowsOk, JobsOk, OnlyOurs, FundingsOk, ChainOk, MilestoneCents, UnpaidCents, PaymentCents, PaidOk, AllPaid,
         Agrees, Run, FairRun, InStep, OpenedFor;
    assert AgreesAt(cfg, w'.db, w'.chain, id);
    AgreesInStep(cfg, w'.db.contracts[id], MilestoneCents(cfg, w'.db.milestones, id),
                 UnpaidCents(cfg, w'.db.milestones, id), PaymentCents(cfg, w'.db.payments, id), Lookup(w'.chain, id));
  }

  /** An entry that agrees with an active contract can always pay a milestone still in review. */
  lemma ReleaseAccepted(cfg: Config, c: Contract, total: int, unpaid: int, paid: int, e: E.Entry, call: E.Call)
    requires c.status == ACTIVE && Agrees(cfg, c, total, unpaid, paid, Some(e)) && 0 <= e.released
    requires call.ReleaseMilestone? && call.caller == cfg.admin && 0 < call.amount <= unpaid
    ensures call.amount <= E.Remaining(e)
    ensures E.Judge(e, call).Accept? <==> e.status.Funded?
    ensures e.status.Funded? ==> E.Judge(e, call).after.released == e.released + call.amount
  {
  }

  /** An unpaid milestone is never more than what is left on the chain. */
  lemma NeverOverdraws(cfg: Config, w: World, id: Id, m: Id)
    requires Inv(cfg, w) && id in w.db.contracts && w.db.contracts[id].status == ACTIVE
    requires HasMilestone(w.db, id, m) && w.db.milestones[m].status != PAID
    ensures var (cents, entry) := (Cents(cfg, w.db.milestones[m].amount), Lookup(w.chain, id));
            && entry.Some? && E.Checked(cents).Some?
            && 0 < cents <= E.Remaining(entry.value)
            && var call := E.ReleaseMilestone(Key(id), cfg.admin, cents);
            && (E.Judge(entry.value, call).Accept? <==> entry.value.status.Funded?)
            && (entry.value.status.Funded? ==>
                  E.Judge(entry.value, call).after.released == entry.value.released + cents)
  {
    hide RowsOk, JobsOk, OnlyOurs, FundingsOk, MilestoneCents, UnpaidCents, PaymentCents, AllPaid, E.Judge, Agrees,
         Cents, Key;
    UnpaidZero(cfg, w.db, id);
    var cents := Cents(cfg, w.db.milestones[m].amount);
    assert 0 < cents <= UnpaidCents(cfg, w.db.milestones, id);
    assert AgreesAt(cfg, w.db, w.chain, id) && E.EntriesOk(w.chain);
    hide ChainOk, PaidOk, AllAgree;
    ActiveBounds(cfg, w.db.contracts[id], MilestoneCents(cfg, w.db.milestones, id),
                 UnpaidCents(cfg, w.db.milestones, id), PaymentCents(cfg, w.db.payments, id), Lookup(w.chain, id));
    var e := Lookup(w.chain, id).value;
    assert E.EntryOk(w.chain.entries[Key(id)], w.chain.self);
    ReleaseAccepted(cfg, w.db.contracts[id], MilestoneCents(cfg, w.db.milestones, id),
                    UnpaidCents(cfg, w.db.milestones, id), PaymentCents(cfg, w.db.payments, id), e,
                    E.ReleaseMilestone(Key(id), cfg.admin, cents));
  }

  /** A call on a contract's entry goes through exactly when the entry accepts it. */
  lemma EntryAnswers(cfg: Config, w: World, id: Id, call: E.Call)
    requires ChainOk(cfg, w.db, w.chain) && Lookup(w.chain, id).Some?
    requires !call.Fund? && call.id == Key(id) && call.caller != w.chain.self
    ensures var (after, outcome) := E.Apply(w.chain, {call.caller} - {w.chain.self}, call);
            var v := E.Judge(Lookup(w.chain, id).value, call);
            if v.Accept? then outcome.Ok? && Lookup(after, id) == Some(v.after) else !outcome.Ok? && after == w.chain
  {
    S.AcceptedGoesThrough(w.chain, {call.caller} - {w.chain.self}, call);
    hide E.Apply, E.Judge, Key;
  }

  lemma ActiveBounds(cfg: Config, c: Contract, total: int, unpaid: int, paid: int, entry: Option<E.Entry>)
    requires c.status == ACTIVE && Agrees(cfg, c, total, unpaid, paid, entry)
    ensures entry.Some? && (0 <= entry.value.released ==> unpaid < R.LIMIT)
  {
  }

  /**
   * An approval goes through exactly when no party has disputed on the chain: it then pays the
   * milestone to the stroop and records it, and otherwise it changes nothing on either side.
   */
  lemma ApprovalPays(cfg: Config, w: World, id: Id, m: Id)
    requires Inv(cfg, w) && id in w.db.contracts && w.db.contracts[id].status == ACTIVE
    requires HasMilestone(w.db, id, m) && w.db.milestones[m].status == IN_REVIEW
    requires cfg.admin != w.chain.self
    ensures var amount := w.db.milestones[m].amount;
            var (db', chain') := Served(cfg, w.db, w.chain, ApproveMilestone(id, m, w.db.contracts[id].clientId));
            var entry := Lookup(w.chain, id);
            && entry.Some?
            && if entry.value.status.Funded? then
                 && m in db'.milestones && db'.milestones[m].status == PAID
                 && db'.payments == w.db.payments + [Payment(id, Some(m), amount, |w.chain.events|)]
                 && Lookup(chain', id).Some?
                 && Lookup(chain', id).value.released == entry.value.released + Cents(cfg, amount)
               else (db', chain') == (w.db, w.chain)
  {
    hide RowsOk, JobsOk, OnlyOurs, FundingsOk, ChainOk, AllAgree, PaidOk, E.Judge, E.Apply, Cents, Key, Drive, Advance,
         AllPaid, Lookup;
    var amount := w.db.milestones[m].amount;
    var task := CallRelease(id, m, amount);
    assert Admit(w.db, ApproveMilestone(id, m, w.db.contracts[id].clientId)) == Some(task);
    NeverOverdraws(cfg, w, id, m);
    EntryAnswers(cfg, w, id, E.ReleaseMilestone(Key(id), cfg.admin, Cents(cfg, amount)));
    ReleaseAdvance(cfg, w.db, w.chain, id, m, amount);
    DriveRelease(cfg, w.db, w.chain, id, m);
    hide Admit;
  }

  /** A dispute raised through the backend needs a party's own signature and a funded entry. */
  lemma DisputeOpens(cfg: Config, w: World, id: Id, caller: Id, signer: Address)
    requires Inv(cfg, w) && id in w.db.contracts && w.db.contracts[id].status == ACTIVE
    requires caller == w.db.contracts[id].clientId || caller == w.db.contracts[id].freelancerId
    requires signer != w.chain.self
    ensures var c := w.db.contracts[id];
            var (db', chain') := Served(cfg, w.db, w.chain, Dispute(id, caller, signer));
            var entry := Lookup(w.chain, id);
            && entry.Some?
            && if entry.value.status.Funded?
                  && (signer == cfg.wallet(c.clientId) || signer == cfg.wallet(c.freelancerId))
               then db' == SetStatus(w.db, id, DISPUTED) && Lookup(chain', id).Some?
                    && Lookup(chain', id).value.status.Disputed?
               else (db', chain') == (w.db, w.chain)
  {
    hide RowsOk, JobsOk, OnlyOurs, FundingsOk, ChainOk, PaidOk, E.Judge, E.Apply, Agrees, MilestoneCents, UnpaidCents,
         PaymentCents, Key, Drive, Lookup;
    var c := w.db.contracts[id];
    var call := E.Dispute(Key(id), signer);
    assert AgreesAt(cfg, w.db, w.chain, id);
    DisputeAccepted(cfg, c, MilestoneCents(cfg, w.db.milestones, id), UnpaidCents(cfg, w.db.milestones, id),
                    PaymentCents(cfg, w.db.payments, id), Lookup(w.chain, id), call);
    hide AllAgree, AgreesAt;
    assert Admit(w.db, Dispute(id, caller, signer)) == Some(CallDispute(id, signer));
    hide Admit;
    DriveDispute(cfg, w.db, w.chain, id, signer);
    EntryAnswers(cfg, w, id, call);
  }

  lemma DisputeAccepted(cfg: Config, c: Contract, total: int, unpaid: int, paid: int, entry: Option<E.Entry>,
                        call: E.Call)
    requires c.status == ACTIVE && Agrees(cfg, c, total, unpaid, paid, entry) && call.Dispute?
    ensures c.escrowTx.Some? && entry.Some?
    ensures E.Judge(entry.value, call).Accept? <==>
              entry.value.status.Funded?
              && (call.caller == cfg.wallet(c.clientId) || call.caller == cfg.wallet(c.freelancerId))
    ensures E.Judge(entry.value, call).Accept? ==> E.Judge(entry.value, call).after.status.Disputed?
  {
  }

  /**
   * A resolution of a disputed contract fails only on a split beyond 10000 basis points:
   * amounts this small never overflow. It records the chain's whole remainder.
   */
  lemma ResolutionSettles(cfg: Config, w: World, id: Id, decision: E.Decision, bps: E.u32)
    requires Inv(cfg, w) && id in w.db.contracts && w.db.contracts[id].status == DISPUTED
    requires cfg.admin != w.chain.self
    ensures var (db', chain') := Served(cfg, w.db, w.chain, ResolveDispute(id, ADMIN, decision, bps));
            var entry := Lookup(w.chain, id);
            && entry.Some? && E.Remaining(entry.value) > 0
            && if decision.Split? && bps > E.BPS_DENOMINATOR then (db', chain') == (w.db, w.chain)
               else
                 && id in db'.contracts
                 && db'.contracts[id].status == (if decision.RefundToClient? then CANCELLED else COMPLETED)
                 && db'.payments == w.db.payments + [Payment(id, None, E.Remaining(entry.value), |w.chain.events|)]
                 && Lookup(chain', id).Some? && !E.Live(Lookup(chain', id).value)
  {
    hide RowsOk, JobsOk, OnlyOurs, FundingsOk, PaidOk, E.Judge, E.Apply, Agrees, MilestoneCents, UnpaidCents,
         PaymentCents, Key, Drive, Lookup, Kept, EditOk, CanRecord;
    assert AgreesAt(cfg, w.db, w.chain, id);
    LookupOk(cfg, w, id);
    hide ChainOk, AllAgree;
    var call := E.Resolve(Key(id), cfg.admin, decision, bps);
    ResolveAccepted(cfg, w.db.contracts[id], MilestoneCents(cfg, w.db.milestones, id),
                    UnpaidCents(cfg, w.db.milestones, id), PaymentCents(cfg, w.db.payments, id),
                    Lookup(w.chain, id), call);
    DriveResolve(cfg, w.db, w.chain, id, decision, bps);
    EntryAnswers(cfg, w, id, call);
    var (after, outcome) := E.Apply(w.chain, {call.caller} - {w.chain.self}, call);
    if outcome.Ok? {
      var status := if decision.RefundToClient? then CANCELLED else COMPLETED;
      SettlementKeeps(cfg, w.db, w.chain, id, call, after, status, false);
      ResolveEdit(w.db, id, decision, |w.chain.events|, DbRemaining(cfg, w.db, id));
    }
    hide Inv;
  }

  lemma RefundAccepted(cfg: Config, c: Contract, total: int, unpaid: int, paid: int, entry: Option<E.Entry>,
                       call: E.Call)
    requires (c.status == ACTIVE || c.status == DISPUTED) && Agrees(cfg, c, total, unpaid, paid, entry)
    requires entry.Some? ==> 0 <= entry.value.released && (E.Live(entry.value) ==> E.Remaining(entry.value) > 0)
    requires call.Refund? && call.caller == cfg.admin
    ensures c.escrowTx.Some? && entry.Some? && 0 < E.Remaining(entry.value) == total - paid
    ensures E.Judge(entry.value, call).Accept? <==> entry.value.status.Funded?
    ensures E.Judge(entry.value, call).Accept? ==> E.Judge(entry.value, call).after.status.Refunded?
  {
  }

  /**
   * An admin's cancellation of a confirmed contract goes through exactly when its entry is funded: the
   * whole remainder is then refunded and recorded and the job marked open; otherwise nothing changes.
   */
  lemma CancellationRefunds(cfg: Config, w: World, id: Id, caller: Id)
    requires Inv(cfg, w) && id in w.db.contracts && cfg.admin != w.chain.self
    requires w.db.contracts[id].status == ACTIVE || w.db.contracts[id].status == DISPUTED
    ensures var (db', chain') := Served(cfg, w.db, w.chain, Cancel(id, caller, ADMIN));
            var (jobId, entry) := (w.db.contracts[id].jobId, Lookup(w.chain, id));
            && entry.Some? && E.Remaining(entry.value) > 0
            && if !entry.value.status.Funded? then (db', chain') == (w.db, w.chain)
               else
                 && id in db'.contracts && db'.contracts[id].status == CANCELLED
                 && jobId in db'.jobs && db'.jobs[jobId].status == OPEN
                 && db'.payments == w.db.payments + [Payment(id, None, E.Remaining(entry.value), |w.chain.events|)]
                 && Lookup(chain', id).Some? && Lookup(chain', id).value.status.Refunded?
  {
    hide JobsOk, OnlyOurs, FundingsOk, PaidOk, E.Judge, E.Apply, Agrees, MilestoneCents, UnpaidCents,
         PaymentCents, Key, Drive, Lookup, Kept, EditOk, CanRecord, K.IsUuid;
    var c := w.db.contracts[id];
    assert AgreesAt(cfg, w.db, w.chain, id) && c.jobId in w.db.jobs;
    hide RowsOk;
    LookupOk(cfg, w, id);
    hide ChainOk, AllAgree;
    var call := E.Refund(Key(id), cfg.admin);
    RefundAccepted(cfg, c, MilestoneCents(cfg, w.db.milestones, id), UnpaidCents(cfg, w.db.milestones, id),
                   PaymentCents(cfg, w.db.payments, id), Lookup(w.chain, id), call);
    DriveRefund(cfg, w.db, w.chain, id, c.jobId);
    EntryAnswers(cfg, w, id, call);
    var (after, outcome) := E.Apply(w.chain, {call.caller} - {w.chain.self}, call);
    if outcome.Ok? {
      SettlementKeeps(cfg, w.db, w.chain, id, call, after, CANCELLED, true);
      CancelEdit(w.db, id, Some(|w.chain.events|), DbRemaining(cfg, w.db, id));
    }
    hide Inv;
  }

  lemma PendingUnconfirmed(cfg: Config, c: Contract, total: int, unpaid: int, paid: int, entry: Option<E.Entry>)
    requires c.status == PENDING && Agrees(cfg, c, total, unpaid, paid, entry)
    ensures c.escrowTx.None?
  {
  }

  /** Cancelling before confirmation touches no payment and no entry, and marks the job open. */
  lemma CancellationReopens(cfg: Config, w: World, id: Id, caller: Id, role: Role)
    requires Inv(cfg, w) && id in w.db.contracts && w.db.contracts[id].status == PENDING
    requires caller == w.db.contracts[id].clientId || role == ADMIN
    ensures var (db', chain') := Served(cfg, w.db, w.chain, Cancel(id, caller, role));
            var c := w.db.contracts[id];
            && chain' == w.chain && db'.payments == w.db.payments && db'.milestones == w.db.milestones
            && db'.contracts == w.db.contracts[id := c.(status := CANCELLED)]
            && c.jobId in w.db.jobs && db'.jobs == w.db.jobs[c.jobId := w.db.jobs[c.jobId].(status := OPEN)]
  {
    hide JobsOk, OnlyOurs, FundingsOk, PaidOk, ChainOk, Agrees, MilestoneCents, UnpaidCents, PaymentCents, Lookup,
         DbRemaining, Drive, Key, K.IsUuid;
    assert AgreesAt(cfg, w.db, w.chain, id) && w.db.contracts[id].jobId in w.db.jobs;
    hide RowsOk, AllAgree;
    PendingUnconfirmed(cfg, w.db.contracts[id], MilestoneCents(cfg, w.db.milestones, id),
                       UnpaidCents(cfg, w.db.milestones, id), PaymentCents(cfg, w.db.payments, id),
                       Lookup(w.chain, id));
    DriveCancelled(cfg, w.db, w.chain, id, w.db.contracts[id].jobId, None);
  }

  /** The hash of a contract's own funding is no other contract's. */
  lemma HashIsFree(db: Db, chain: E.Chain, id: Id, tx: nat)
    requires RowsOk(db) && OnlyOurs(db, chain) && id in db.contracts && Funds(chain, id, tx)
    ensures !EscrowTxTaken(db, id, tx)
  {
    hide K.IsUuid, Key;
    forall other | other in db.contracts && other != id ensures db.contracts[other].escrowTx != Some(tx) {
      KeysApart(db, id, other);
    }
  }

  /** Confirming a funded contract always activates it, with both sides' remainders at its whole total. */
  lemma ConfirmationActivates(cfg: Config, w: World, id: Id, tx: nat)
    requires R.Rounds(cfg.fl) && Inv(cfg, w) && id in w.db.contracts && Funds(w.chain, id, tx)
    requires Admit(w.db, ConfirmFund(id, w.db.contracts[id].clientId, tx)).Some?
    ensures var c := w.db.contracts[id];
            var w' := Next(cfg, w, Serve(ConfirmFund(id, c.clientId, tx)));
            && w'.chain == w.chain
            && w'.db == w.db.(contracts := w.db.contracts[id := c.(status := ACTIVE, escrowTx := Some(tx))])
            && Lookup(w.chain, id).Some? && E.Live(Lookup(w.chain, id).value)
            && DbRemaining(cfg, w'.db, id) == E.Remaining(Lookup(w.chain, id).value)
            && DbRemaining(cfg, w'.db, id) == MilestoneCents(cfg, w.db.milestones, id)
  {
    hide K.IsUuid, Key, JobsOk, FundingsOk, PaidOk, ChainOk, MilestoneCents, UnpaidCents, PaymentCents, R.Rounds;
    var c := w.db.contracts[id];
    HashIsFree(w.db, w.chain, id, tx);
    Unconfirmed(cfg, w.db, w.chain, id, tx);
    DriveWrite(cfg, w.db, w.chain, WriteFunded(id, tx));
    assert AgreesAt(cfg, w.db, w.chain, id);
    hide RowsOk, OnlyOurs, AllAgree, EscrowTxTaken, Drive, Lookup;
    ConfirmedLevel(cfg, c, MilestoneCents(cfg, w.db.milestones, id), UnpaidCents(cfg, w.db.milestones, id),
                   PaymentCents(cfg, w.db.payments, id), Lookup(w.chain, id).value);
  }

  lemma ConfirmedLevel(cfg: Config, c: Contract, total: int, unpaid: int, paid: int, e: E.Entry)
    requires c.status == PENDING && Agrees(cfg, c, total, unpaid, paid, Some(e))
    ensures E.Live(e) && paid == 0 && 0 < total == E.Remaining(e)
  {
  }

  lemma LookupOk(cfg: Config, w: World, id: Id)
    requires ChainOk(cfg, w.db, w.chain)
    ensures Lookup(w.chain, id).Some? ==> E.EntryOk(Lookup(w.chain, id).value, w.chain.self)
  {
    hide Key;
  }

  lemma ResolveAccepted(cfg: Config, c: Contract, total: int, unpaid: int, paid: int, entry: Option<E.Entry>,
                        call: E.Call)
    requires c.status == DISPUTED && Agrees(cfg, c, total, unpaid, paid, entry)
    requires entry.Some? ==> 0 <= entry.value.released && (E.Live(entry.value) ==> E.Remaining(entry.value) > 0)
    requires call.Resolve? && call.caller == cfg.admin
    ensures entry.Some? && 0 < E.Remaining(entry.value) == total - paid
    ensures E.Judge(entry.value, call).Accept? <==> !(call.decision.Split? && call.bps > E.BPS_DENOMINATOR)
    ensures E.Judge(entry.value, call).Accept? ==> !E.Live(E.Judge(entry.value, call).after)
  {
    var remaining := E.Remaining(entry.value);
    if call.bps <= E.BPS_DENOMINATOR {
      SmallProduct(remaining, call.bps);
    }
  }

  lemma SmallProduct(remaining: nat, bps: nat)
    requires remaining < R.LIMIT && bps <= E.BPS_DENOMINATOR
    ensures 0 <= remaining * bps <= E.I128_MAX
  {
    R.ProductAtLeast(E.BPS_DENOMINATOR, bps, remaining);
  }

  /**
   * The lifecycle, from any reachable state on: one step follows one edge, statuses only move
   * forward, a funding hash never changes, a milestone is paid exactly when a row names it,
   * a cancelled job has no contract and an open job's contract is a cancelled one.
   */
  lemma Lifecycle(cfg: Config, w: World, before: seq<Step>, step: Step, after: seq<Step>)
    requires R.Rounds(cfg.fl) && Initial(w) && FairRun(cfg, w, before)
    requires Fair(Run(cfg, w, before), step)
    requires FairRun(cfg, Next(cfg, Run(cfg, w, before), step), after)
    ensures var now := Run(cfg, w, before);
            var next := Next(cfg, now, step);
            && Evolves(now.db, next.db)
            && Later(next.db, Run(cfg, next, after).db)
            && (forall m :: m in now.db.milestones ==>
                  (now.db.milestones[m].status == PAID <==> MilestoneRecorded(now.db.payments, m)))
            && (forall id :: id in now.db.contracts ==>
                  var jobId := now.db.contracts[id].jobId;
                  && jobId in now.db.jobs && now.db.jobs[jobId].status != JOB_CANCELLED
                  && (now.db.jobs[jobId].status == OPEN ==> now.db.contracts[id].status == CANCELLED))
  {
    InitialInv(cfg, w);
    RunKeeps(cfg, w, before);
    var now := Run(cfg, w, before);
    StepKeeps(cfg, now, step);
    RunKeeps(cfg, Next(cfg, now, step), after);
    hide AllAgree, OnlyOurs, FundingsOk, ChainOk, Evolves, Later, Next, Run, FairRun, Fair, R.Rounds, Cents;
  }
}
