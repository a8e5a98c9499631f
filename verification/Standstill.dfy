// Where contracts do get stuck: a party's direct dispute freezes an active contract for
// good, and so does an admin that cannot sign; a cancellation before confirmation leaves
// the money behind. Hence exactly which contracts can be finished, and which leave money.

module Standstill {
  import opened Sums
  import opened TokenLedger
  import opened Backend
  import opened Lockstep
  import opened LockstepRuns
  import opened LockstepTheorems
  import opened Fulfilment
  import E = EscrowSpec
  import S = EscrowSafety
  import R = Rounding
  import K = KeyEncoding
  import P = PaymentBacking

  // ---- what concerns other contracts ----

  /** The contract whose row and entry a task may change; creating never changes an existing one. */
  function ContractOf(task: Task): Option<Id> {
    if task.WriteJob? || task.DropJob? || task.WriteContract? || task.WriteSubmitted? then None
    else Some(task.contractId)
  }

  predicate Elsewhere(task: Task, id: Id) {
    ContractOf(task).Some? ==> ContractOf(task).value != id && K.IsUuid(ContractOf(task).value)
  }

  /** The row and the entry of `id` are as they were. */
  predicate SameHere(db: Db, chain: E.Chain, db': Db, chain': E.Chain, id: Id) {
    && id in db.contracts && id in db'.contracts && db'.contracts[id] == db.contracts[id]
    && Lookup(chain', id) == Lookup(chain, id)
  }

  lemma WriteElsewhere(db: Db, task: Task, id: Id)
    requires id in db.contracts && Elsewhere(task, id)
    ensures id in Write(db, task).contracts && Write(db, task).contracts[id] == db.contracts[id]
  {
    hide K.IsUuid, CanRecord, WithMilestones, EscrowTxTaken;
  }

  /** A call under another key leaves this entry alone. */
  lemma CallElsewhere(chain: E.Chain, signers: set<Address>, call: E.Call, id: Id)
    requires call.id != Key(id)
    ensures Lookup(E.Apply(chain, signers, call).0, id) == Lookup(chain, id)
  {
  }

  lemma NextElsewhere(cfg: Config, db: Db, chain: E.Chain, task: Task, id: Id)
    requires Elsewhere(task, id)
    ensures var done := Advance(cfg, db, chain, task, Truthful);
            && (done.next.Some? ==> Elsewhere(done.next.value, id))
            && (!P.CallsChain(task) ==> done.chain == chain && (done.db == db || done.db == Write(db, task)))
  {
    hide E.Apply, Write, DbRemaining, AllPaid, Key, Cents, K.IsUuid;
  }

  lemma TaskCallElsewhere(cfg: Config, db: Db, chain: E.Chain, task: Task, id: Id)
    requires K.IsUuid(id) && Elsewhere(task, id) && P.CallsChain(task)
    ensures Lookup(Advance(cfg, db, chain, task, Truthful).chain, id) == Lookup(chain, id)
  {
    P.CallEffect(cfg, db, chain, task, Truthful);
    if P.CallOf(cfg, task).Some? {
      var call := P.CallOf(cfg, task).value;
      if Key(task.contractId) == Key(id) { K.KeyInjective(task.contractId, id); }
      CallElsewhere(chain, {call.caller} - {chain.self}, call, id);
    }
    hide Advance, E.Apply, Key, Cents, K.IsUuid, Lookup;
  }

  lemma AdvanceElsewhere(cfg: Config, db: Db, chain: E.Chain, task: Task, id: Id)
    requires id in db.contracts && K.IsUuid(id) && Elsewhere(task, id)
    ensures var done := Advance(cfg, db, chain, task, Truthful);
            && SameHere(db, chain, done.db, done.chain, id)
            && (done.next.Some? ==> Elsewhere(done.next.value, id))
  {
    hide Advance, Elsewhere, Lookup, K.IsUuid, Write;
    WriteElsewhere(db, task, id);
    NextElsewhere(cfg, db, chain, task, id);
    if P.CallsChain(task) {
      P.CallEffect(cfg, db, chain, task, Truthful);
      TaskCallElsewhere(cfg, db, chain, task, id);
    }
  }

  lemma DriveElsewhere(cfg: Config, db: Db, chain: E.Chain, task: Task, id: Id)
    requires id in db.contracts && K.IsUuid(id) && Elsewhere(task, id)
    ensures var (db', chain') := Drive(cfg, db, chain, task); SameHere(db, chain, db', chain', id)
    decreases Rank(task)
  {
    AdvanceElsewhere(cfg, db, chain, task, id);
    RankFalls(cfg, db, chain, task);
    hide Advance, Rank, Elsewhere, K.IsUuid, Lookup;
    var done := Advance(cfg, db, chain, task, Truthful);
    if done.next.Some? {
      DriveElsewhere(cfg, done.db, done.chain, done.next.value, id);
    }
  }

  /** A request about this contract's own row or entry. */
  predicate Concerns(req: Request, id: Id) {
    !req.CreateJob? && !req.CancelJob? && !req.Create? && req.contractId == id
  }

  lemma ServeElsewhere(cfg: Config, w: World, req: Request, id: Id)
    requires RowsOk(w.db) && id in w.db.contracts && !Concerns(req, id)
    ensures var (db', chain') := Served(cfg, w.db, w.chain, req); SameHere(w.db, w.chain, db', chain', id)
  {
    var task := Admit(w.db, req);
    if task.Some? {
      AdmitsElsewhere(w.db, req, id);
      DriveElsewhere(cfg, w.db, w.chain, task.value, id);
    }
    hide Drive, Admit, Elsewhere, RowsOk, Concerns, Lookup;
  }

  lemma AdmitsElsewhere(db: Db, req: Request, id: Id)
    requires RowsOk(db) && id in db.contracts && !Concerns(req, id) && Admit(db, req).Some?
    ensures Elsewhere(Admit(db, req).value, id) && K.IsUuid(id)
  {
    hide K.IsUuid, JobTaken, HasMilestone;
  }

  /** A chain call the contract rejects ends the request with nothing changed. */
  lemma Rejected(cfg: Config, db: Db, chain: E.Chain, task: Task)
    requires P.CallsChain(task)
    requires P.CallOf(cfg, task).Some? ==>
               var call := P.CallOf(cfg, task).value; !E.Apply(chain, {call.caller} - {chain.self}, call).1.Ok?
    ensures Drive(cfg, db, chain, task) == (db, chain)
  {
    hide E.Apply, E.Judge, Key, Cents;
  }

  // ---- disputed on the chain, active in the database ----

  /** The state a party's direct dispute leaves an active contract in. */
  predicate Frozen(w: World, id: Id) {
    && id in w.db.contracts && w.db.contracts[id].status == ACTIVE && w.db.contracts[id].escrowTx.Some?
    && Lookup(w.chain, id).Some? && Lookup(w.chain, id).value.status.Disputed?
  }

  /** One dispute by either party, straight to the chain, leads there from any active contract. */
  lemma DisputeFreezes(cfg: Config, w: World, id: Id, party: Address)
    requires Inv(cfg, w) && Undisputed(w, id) && party != w.chain.self
    requires party == cfg.wallet(w.db.contracts[id].clientId) || party == cfg.wallet(w.db.contracts[id].freelancerId)
    ensures Fair(w, PartyDispute(id, party)) && Frozen(Next(cfg, w, PartyDispute(id, party)), id)
  {
    hide RowsOk, JobsOk, PaidOk, OnlyOurs, FundingsOk, ChainOk, E.Apply, E.Judge, Agrees, MilestoneCents, UnpaidCents,
         PaymentCents, Key, Lookup;
    var call := E.Dispute(Key(id), party);
    assert AgreesAt(cfg, w.db, w.chain, id);
    hide AllAgree;
    DisputeAccepted(cfg, w.db.contracts[id], MilestoneCents(cfg, w.db.milestones, id),
                    UnpaidCents(cfg, w.db.milestones, id), PaymentCents(cfg, w.db.payments, id),
                    Lookup(w.chain, id), call);
    EntryAnswers(cfg, w, id, call);
  }

  predicate SameState(a: World, b: World, id: Id) {
    SameHere(a.db, a.chain, b.db, b.chain, id)
  }

  /** Nothing but a resolution is accepted on a disputed entry. */
  lemma DisputedRejects(chain: E.Chain, signers: set<Address>, call: E.Call, id: Id)
    requires Lookup(chain, id).Some? && Lookup(chain, id).value.status.Disputed?
    requires call.id == Key(id) && !call.Resolve?
    ensures !E.Apply(chain, signers, call).1.Ok? && E.Apply(chain, signers, call).0 == chain
  {
  }

  lemma FrozenServe(cfg: Config, w: World, req: Request, id: Id)
    requires Frozen(w, id) && Concerns(req, id)
    ensures var (db', chain') := Served(cfg, w.db, w.chain, req); SameHere(w.db, w.chain, db', chain', id)
  {
    hide E.Apply, Key, Cents, Lookup, JobTaken;
    var task := Admit(w.db, req);
    if task.Some? {
      if req.SubmitMilestone? {
        DriveWrite(cfg, w.db, w.chain, task.value);
      } else {
        assert P.CallsChain(task.value) && !task.value.CallResolve?;
        if P.CallOf(cfg, task.value).Some? {
          var call := P.CallOf(cfg, task.value).value;
          DisputedRejects(w.chain, {call.caller} - {w.chain.self}, call, id);
        }
        Rejected(cfg, w.db, w.chain, task.value);
      }
    }
    hide Drive, Admit;
  }

  lemma FrozenCall(w: World, call: E.Call, id: Id)
    requires Frozen(w, id) && (call.Fund? || call.Dispute?)
    ensures Lookup(E.Apply(w.chain, {call.caller} - {w.chain.self}, call).0, id) == Lookup(w.chain, id)
  {
    hide Key;
    if call.id == Key(id) {
      DisputedRejects(w.chain, {call.caller} - {w.chain.self}, call, id);
    } else {
      CallElsewhere(w.chain, {call.caller} - {w.chain.self}, call, id);
    }
  }

  lemma FrozenMove(cfg: Config, w: World, step: Step, id: Id)
    requires RowsOk(w.db) && FundingsOk(cfg, w.db, w.fundings) && Frozen(w, id)
    ensures SameState(w, Next(cfg, w, step), id)
  {
    hide E.Apply, RowsOk, Served, Lookup;
    match step
    case Serve(req) =>
      hide FundingsOk;
      if Concerns(req, id) { FrozenServe(cfg, w, req, id); } else { ServeElsewhere(cfg, w, req, id); }
    case SubmitFunding(other) =>
      if other in w.fundings {
        assert w.fundings[other].Fund?;
        hide FundingsOk;
        FrozenCall(w, w.fundings[other], id);
      }
    case PartyDispute(other, party) =>
      hide FundingsOk, Key;
      FrozenCall(w, E.Dispute(Key(other), party), id);
    case Traffic(op) =>
      hide FundingsOk;
      SameEntries(w.chain, S.Next(w.chain, S.Outside(op)), id);
  }

  lemma FrozenStep(cfg: Config, w: World, step: Step, id: Id)
    requires Inv(cfg, w) && Frozen(w, id)
    ensures SameState(w, Next(cfg, w, step), id)
  {
    hide RowsOk, JobsOk, PaidOk, OnlyOurs, FundingsOk, ChainOk, AllAgree, Next, Frozen, SameState;
    FrozenMove(cfg, w, step, id);
  }

  lemma SameEntries(chain: E.Chain, chain': E.Chain, id: Id)
    requires chain'.entries == chain.entries
    ensures Lookup(chain', id) == Lookup(chain, id)
  {
  }

  lemma SameSelf(w: World, id: Id)
    requires Frozen(w, id)
    ensures SameState(w, w, id)
  {
  }

  lemma SameTwice(a: World, b: World, c: World, id: Id)
    requires SameState(a, b, id) && Frozen(a, id)
    ensures Frozen(b, id)
    ensures SameState(b, c, id) ==> SameState(a, c, id)
  {
    hide Lookup;
  }

  /** It never leaves that state: no fair run changes its row or its entry. */
  lemma {:induction false} FrozenForGood(cfg: Config, w: World, steps: seq<Step>, id: Id)
    requires R.Rounds(cfg.fl) && Inv(cfg, w) && FairRun(cfg, w, steps) && Frozen(w, id)
    ensures SameState(w, Run(cfg, w, steps), id)
    decreases |steps|
  {
    hide Inv, Evolves, Next, Fair, R.Rounds, Frozen, SameState;
    if steps == [] {
      SameSelf(w, id);
    } else {
      FrozenStep(cfg, w, steps[0], id);
      StepKeeps(cfg, w, steps[0]);
      var w' := Next(cfg, w, steps[0]);
      SameTwice(w, w', Run(cfg, w', steps[1..]), id);
      FrozenForGood(cfg, w', steps[1..], id);
    }
  }

  // ---- cancelled in the database, funded on the chain ----

  /** A cancelled contract whose escrow still holds money. */
  predicate LeavesMoney(w: World, id: Id) {
    && id in w.db.contracts && w.db.contracts[id].status == CANCELLED
    && Lookup(w.chain, id).Some? && E.Live(Lookup(w.chain, id).value)
  }

  lemma CancelledEntry(cfg: Config, c: Contract, total: int, unpaid: int, paid: int, entry: Option<E.Entry>)
    requires c.status == CANCELLED && Agrees(cfg, c, total, unpaid, paid, entry)
    ensures entry.Some? && E.Live(entry.value) <==> c.escrowTx.None? && entry.Some?
    ensures entry.Some? && E.Live(entry.value) ==> E.Remaining(entry.value) == total > 0
  {
  }

  /**
   * A cancelled contract leaves money in escrow if and only if its funding reached the chain but was
   * never confirmed to the backend; it is then the whole total.
   */
  lemma LeftExactly(cfg: Config, w: World, id: Id)
    requires Inv(cfg, w) && id in w.db.contracts && w.db.contracts[id].status == CANCELLED
    ensures LeavesMoney(w, id) <==> w.db.contracts[id].escrowTx.None? && Lookup(w.chain, id).Some?
    ensures LeavesMoney(w, id) ==>
              E.Remaining(Lookup(w.chain, id).value) == MilestoneCents(cfg, w.db.milestones, id) > 0
  {
    hide RowsOk, JobsOk, PaidOk, OnlyOurs, FundingsOk, ChainOk, Agrees, MilestoneCents, UnpaidCents, PaymentCents,
         Lookup;
    assert AgreesAt(cfg, w.db, w.chain, id);
    CancelledEntry(cfg, w.db.contracts[id], MilestoneCents(cfg, w.db.milestones, id),
                   UnpaidCents(cfg, w.db.milestones, id), PaymentCents(cfg, w.db.payments, id), Lookup(w.chain, id));
  }

  function Stranding(req: Request): seq<Step>
    requires req.Create?
  {
    [Serve(req), SubmitFunding(req.contractId), Serve(Cancel(req.contractId, req.caller, CLIENT))]
  }

  /** Any contract a client can pay for gets there: it is created, funded, and cancelled before it is confirmed. */
  lemma Strands(cfg: Config, w: World, req: Request)
    requires R.Rounds(cfg.fl) && Inv(cfg, w) && Fundable(cfg, w, req)
    ensures var (steps, id) := (Stranding(req), req.contractId);
            var w' := Run(cfg, w, steps);
            && FairRun(cfg, w, steps) && LeavesMoney(w', id) && w'.db.contracts[id].escrowTx.None?
            && E.Remaining(Lookup(w'.chain, id).value) == Sum(req.amounts)
  {
    hide Next, Inv, Evolves, R.Rounds, Fundable, Lookup, Served, Run, FairRun, WithMilestones, EscrowTxTaken;
    FundableCreates(cfg, w, req);
    var (steps, id) := (Stranding(req), req.contractId);
    var w1 := Next(cfg, w, steps[0]);
    var w2 := Next(cfg, w1, steps[1]);
    Locked(cfg, w, req);
    StepKeeps(cfg, w, steps[0]);
    StepKeeps(cfg, w1, steps[1]);
    CancelLeaves(cfg, w2, id);
    ThreeSteps(cfg, w, steps);
  }

  /** Cancelling a pending contract leaves what its entry holds where it is. */
  lemma CancelLeaves(cfg: Config, w: World, id: Id)
    requires Inv(cfg, w) && id in w.db.contracts && w.db.contracts[id].status == PENDING
    requires Lookup(w.chain, id).Some? && E.Live(Lookup(w.chain, id).value)
    requires w.db.contracts[id].escrowTx.None?
    ensures var w' := Next(cfg, w, Serve(Cancel(id, w.db.contracts[id].clientId, CLIENT)));
            LeavesMoney(w', id) && w'.db.contracts[id].escrowTx.None? && w'.chain == w.chain
  {
    hide Inv, Served, Lookup;
    CancellationReopens(cfg, w, id, w.db.contracts[id].clientId, CLIENT);
    ServeNext(cfg, w, Cancel(id, w.db.contracts[id].clientId, CLIENT));
  }

  lemma ServeNext(cfg: Config, w: World, req: Request)
    ensures var (db, chain) := Served(cfg, w.db, w.chain, req);
            Next(cfg, w, Serve(req)).db == db && Next(cfg, w, Serve(req)).chain == chain
  {
    hide Served;
  }

  /** The same row, and the same entry but for a dispute. */
  predicate StillThere(a: World, b: World, id: Id) {
    && id in a.db.contracts && id in b.db.contracts && b.db.contracts[id] == a.db.contracts[id]
    && Lookup(a.chain, id).Some? && Lookup(b.chain, id).Some?
    && var (e, e') := (Lookup(a.chain, id).value, Lookup(b.chain, id).value);
    e' == e || (e.status.Funded? && e' == e.(status := E.Disputed))
  }

  /** No request about a cancelled contract is admitted. */
  lemma CancelledAdmitsNothing(db: Db, req: Request, id: Id)
    requires id in db.contracts && db.contracts[id].status == CANCELLED && Concerns(req, id)
    ensures Admit(db, req) == None
  {
    hide HasMilestone;
  }

  /** Funding again fails, and a dispute is all a party can do to a live entry by itself. */
  lemma LiveCall(chain: E.Chain, signers: set<Address>, call: E.Call, id: Id)
    requires Lookup(chain, id).Some? && call.id == Key(id) && (call.Fund? || call.Dispute?)
    ensures var (e, after) := (Lookup(chain, id).value, Lookup(E.Apply(chain, signers, call).0, id));
            after == Some(e) || (e.status.Funded? && after == Some(e.(status := E.Disputed)))
  {
  }

  lemma LiveCallAnywhere(chain: E.Chain, signers: set<Address>, call: E.Call, id: Id)
    requires Lookup(chain, id).Some? && (call.Fund? || call.Dispute?)
    ensures var (e, after) := (Lookup(chain, id).value, Lookup(E.Apply(chain, signers, call).0, id));
            after == Some(e) || (e.status.Funded? && after == Some(e.(status := E.Disputed)))
  {
    hide E.Apply, Key, Lookup;
    if call.id == Key(id) { LiveCall(chain, signers, call, id); } else { CallElsewhere(chain, signers, call, id); }
  }

  lemma LeftMove(cfg: Config, w: World, step: Step, id: Id)
    requires RowsOk(w.db) && FundingsOk(cfg, w.db, w.fundings) && LeavesMoney(w, id)
    ensures StillThere(w, Next(cfg, w, step), id)
  {
    hide E.Apply, RowsOk, Served, Lookup;
    match step
    case Serve(req) =>
      hide FundingsOk;
      ServeNext(cfg, w, req);
      if Concerns(req, id) {
        CancelledAdmitsNothing(w.db, req, id);
        NotAdmitted(cfg, w, req);
      } else {
        ServeElsewhere(cfg, w, req, id);
      }
    case SubmitFunding(other) =>
      if other in w.fundings {
        assert w.fundings[other].Fund?;
        hide FundingsOk;
        LiveCallAnywhere(w.chain, {w.fundings[other].caller} - {w.chain.self}, w.fundings[other], id);
      }
    case PartyDispute(other, party) =>
      hide FundingsOk, Key;
      LiveCallAnywhere(w.chain, {party} - {w.chain.self}, E.Dispute(Key(other), party), id);
    case Traffic(op) =>
      hide FundingsOk;
      SameEntries(w.chain, S.Next(w.chain, S.Outside(op)), id);
  }

  lemma NotAdmitted(cfg: Config, w: World, req: Request)
    requires Admit(w.db, req) == None
    ensures Served(cfg, w.db, w.chain, req) == (w.db, w.chain)
  {
  }

  lemma LeftStep(cfg: Config, w: World, step: Step, id: Id)
    requires Inv(cfg, w) && LeavesMoney(w, id)
    ensures StillThere(w, Next(cfg, w, step), id)
  {
    hide RowsOk, JobsOk, PaidOk, OnlyOurs, FundingsOk, ChainOk, AllAgree, Next, LeavesMoney, StillThere;
    LeftMove(cfg, w, step, id);
  }

  lemma ThereTwice(a: World, b: World, c: World, id: Id)
    requires LeavesMoney(a, id)
    ensures StillThere(a, a, id)
    ensures StillThere(a, b, id) ==> LeavesMoney(b, id)
    ensures StillThere(a, b, id) && StillThere(b, c, id) ==> StillThere(a, c, id)
  {
    hide Lookup;
  }

  /** No request of the backend ever pays it out or refunds it: in every fair run the money is where it was. */
  lemma {:induction false} LeftForGood(cfg: Config, w: World, steps: seq<Step>, id: Id)
    requires R.Rounds(cfg.fl) && Inv(cfg, w) && FairRun(cfg, w, steps) && LeavesMoney(w, id)
    ensures StillThere(w, Run(cfg, w, steps), id) && LeavesMoney(Run(cfg, w, steps), id)
    decreases |steps|
  {
    hide Inv, Evolves, Next, Fair, R.Rounds, LeavesMoney, StillThere;
    ThereTwice(w, w, w, id);
    if steps != [] {
      var w' := Next(cfg, w, steps[0]);
      LeftStep(cfg, w, steps[0], id);
      StepKeeps(cfg, w, steps[0]);
      ThereTwice(w, w', Run(cfg, w', steps[1..]), id);
      LeftForGood(cfg, w', steps[1..], id);
    }
  }

  // ---- an admin that cannot sign ----

  predicate Unfinished(db: Db, id: Id) {
    && id in db.contracts && db.contracts[id].escrowTx.Some?
    && (db.contracts[id].status == ACTIVE || db.contracts[id].status == DISPUTED)
  }

  lemma SelfAdminServe(cfg: Config, w: World, req: Request, id: Id)
    requires cfg.admin == w.chain.self && Unfinished(w.db, id) && Concerns(req, id)
    ensures Unfinished(Served(cfg, w.db, w.chain, req).0, id)
  {
    hide Key, Cents, JobTaken, E.Judge;
    var task := Admit(w.db, req);
    if task.Some? {
      if req.SubmitMilestone? {
        DriveWrite(cfg, w.db, w.chain, task.value);
      } else if req.Dispute? {
        DriveDispute(cfg, w.db, w.chain, id, req.signer);
      } else {
        Rejected(cfg, w.db, w.chain, task.value);
      }
    }
    hide Drive, Admit, E.Apply;
  }

  lemma SelfAdminStep(cfg: Config, w: World, step: Step, id: Id)
    requires RowsOk(w.db) && cfg.admin == w.chain.self && Unfinished(w.db, id)
    ensures Unfinished(Next(cfg, w, step).db, id)
  {
    if step.Serve? {
      if Concerns(step.request, id) { SelfAdminServe(cfg, w, step.request, id); }
      else { ServeElsewhere(cfg, w, step.request, id); }
    }
    hide Served, RowsOk, E.Apply, Lookup;
  }

  /** Where the platform's key is the escrow contract's own address, no confirmed contract is ever finished. */
  lemma {:induction false} SelfAdminNeverFinishes(cfg: Config, w: World, steps: seq<Step>, id: Id)
    requires R.Rounds(cfg.fl) && Inv(cfg, w) && FairRun(cfg, w, steps)
    requires cfg.admin == w.chain.self && Unfinished(w.db, id)
    ensures Unfinished(Run(cfg, w, steps).db, id)
    decreases |steps|
  {
    if steps != [] {
      SelfAdminStep(cfg, w, steps[0], id);
      hide Inv, Evolves, Next, Fair, R.Rounds;
      StepKeeps(cfg, w, steps[0]);
      SelfAdminNeverFinishes(cfg, Next(cfg, w, steps[0]), steps[1..], id);
    }
  }

  // ---- exactly which contracts can be finished ----

  predicate Finished(w: World, id: Id) {
    id in w.db.contracts && (w.db.contracts[id].status == COMPLETED || w.db.contracts[id].status == CANCELLED)
  }

  lemma ActiveEntry(cfg: Config, c: Contract, total: int, unpaid: int, paid: int, entry: Option<E.Entry>)
    requires c.status == ACTIVE && Agrees(cfg, c, total, unpaid, paid, entry)
    ensures c.escrowTx.Some? && entry.Some? && (entry.value.status.Funded? || entry.value.status.Disputed?)
  {
  }

  /**
   * From any reachable state, some fair run completes or cancels an active contract if and only
   * if no party has disputed on the chain and the platform's key is one that can sign.
   */
  lemma FinishableExactly(cfg: Config, w: World, id: Id)
    requires R.Rounds(cfg.fl) && Inv(cfg, w) && id in w.db.contracts && w.db.contracts[id].status == ACTIVE
    ensures Lookup(w.chain, id).Some?
    ensures (exists steps :: FairRun(cfg, w, steps) && Finished(Run(cfg, w, steps), id))
       <==> Lookup(w.chain, id).value.status.Funded? && cfg.admin != w.chain.self
  {
    hide RowsOk, JobsOk, PaidOk, OnlyOurs, FundingsOk, ChainOk, Agrees, MilestoneCents, UnpaidCents, PaymentCents,
         Lookup, Run, FairRun, R.Rounds;
    assert AgreesAt(cfg, w.db, w.chain, id);
    ActiveEntry(cfg, w.db.contracts[id], MilestoneCents(cfg, w.db.milestones, id),
                UnpaidCents(cfg, w.db.milestones, id), PaymentCents(cfg, w.db.payments, id), Lookup(w.chain, id));
    hide AllAgree, Inv;
    if Lookup(w.chain, id).value.status.Funded? && cfg.admin != w.chain.self {
      var steps := Completes(cfg, w, id);
      assert Finished(Run(cfg, w, steps), id);
    } else {
      forall steps | FairRun(cfg, w, steps) ensures !Finished(Run(cfg, w, steps), id) {
        if cfg.admin == w.chain.self {
          SelfAdminNeverFinishes(cfg, w, steps, id);
        } else {
          FrozenForGood(cfg, w, steps, id);
        }
      }
    }
  }
}
