// What the lockstep world can still do: a contract that can be funded can be funded and
// confirmed, and its own two parties can pay an undisputed one to its end.

module Fulfilment {
  import opened Sums
  import opened Backend
  import opened Lockstep
  import opened DbEdits
  import opened LockstepRuns
  import opened LockstepCreate
  import opened LockstepTheorems
  import E = EscrowSpec
  import R = Rounding
  import K = KeyEncoding

  // ---- runs in pieces ----

  lemma {:induction false} Joined(cfg: Config, w: World, a: seq<Step>, b: seq<Step>)
    ensures Run(cfg, w, a + b) == Run(cfg, Run(cfg, w, a), b)
    ensures FairRun(cfg, w, a + b) <==> FairRun(cfg, w, a) && FairRun(cfg, Run(cfg, w, a), b)
    decreases |a|
  {
    hide Next, Fair;
    if a == [] {
      assert a + b == b;
    } else {
      assert (a + b)[0] == a[0] && (a + b)[1..] == a[1..] + b;
      Joined(cfg, Next(cfg, w, a[0]), a[1..], b);
    }
  }

  lemma OneStep(cfg: Config, w: World, step: Step)
    ensures Run(cfg, w, [step]) == Next(cfg, w, step)
    ensures FairRun(cfg, w, [step]) <==> Fair(w, step)
  {
    hide Next, Fair;
    assert [step][1..] == [];
  }

  lemma ThreeSteps(cfg: Config, w: World, steps: seq<Step>)
    requires |steps| == 3
    ensures var (w1, w2) := (Next(cfg, w, steps[0]), Next(cfg, Next(cfg, w, steps[0]), steps[1]));
            && Run(cfg, w, steps) == Next(cfg, w2, steps[2])
            && (FairRun(cfg, w, steps) <==> Fair(w, steps[0]) && Fair(w1, steps[1]) && Fair(w2, steps[2]))
  {
    hide Next, Fair;
    var w1 := Next(cfg, w, steps[0]);
    var w2 := Next(cfg, w1, steps[1]);
    Joined(cfg, w, [steps[0]], steps[1..]);
    Joined(cfg, w1, [steps[1]], steps[2..]);
    OneStep(cfg, w, steps[0]);
    OneStep(cfg, w1, steps[1]);
    OneStep(cfg, w2, steps[2]);
    assert [steps[0]] + steps[1..] == steps && [steps[1]] + steps[2..] == steps[1..] && steps[2..] == [steps[2]];
  }

  // ---- funding ----

  /** A contract that `create` would accept, for a client who holds and has approved its total. */
  ghost predicate Fundable(cfg: Config, w: World, req: Request) {
    && req.Create? && Admit(w.db, req).Some? && CanCreate(w.db, req) && Modest(req)
    && var client := cfg.wallet(req.caller);
    && client != w.chain.self
    && Sum(req.amounts) <= w.chain.ledger.Balance(cfg.token, client)
    && Sum(req.amounts) <= w.chain.ledger.Allowance(cfg.token, client, w.chain.self)
  }

  lemma FundableCreates(cfg: Config, w: World, req: Request)
    requires Fundable(cfg, w, req)
    ensures req.Create?
  {
  }

  /** An active contract whose escrow no party has disputed. */
  predicate Undisputed(w: World, id: Id) {
    && id in w.db.contracts && w.db.contracts[id].status == ACTIVE
    && Lookup(w.chain, id).Some? && Lookup(w.chain, id).value.status.Funded?
  }

  function Opening(w: World, req: Request): seq<Step>
    requires req.Create?
  {
    [Serve(req), SubmitFunding(req.contractId), Serve(ConfirmFund(req.contractId, req.caller, |w.chain.events|))]
  }

  lemma Created(cfg: Config, w: World, req: Request)
    requires R.Rounds(cfg.fl) && Inv(cfg, w) && Fundable(cfg, w, req)
    ensures var w' := Next(cfg, w, Serve(req));
            && w'.db == Write(w.db, WriteContract(req)) && w'.chain == w.chain
            && req.contractId in w'.fundings && w'.fundings[req.contractId].Fund?
            && w'.fundings[req.contractId].caller == cfg.wallet(req.caller)
            && w'.fundings[req.contractId].freelancer == cfg.wallet(req.freelancerId)
            && w'.fundings[req.contractId].id == Key(req.contractId)
            && w'.fundings[req.contractId].token == cfg.token && w'.fundings[req.contractId].admin == cfg.admin
            && w'.fundings[req.contractId].amount == Sum(req.amounts) > 0
    ensures Lookup(w.chain, req.contractId) == None
  {
    NoEntryYet(w.db, w.chain, req.contractId);
    CreateAmounts(cfg, w.db, req);
    assert Admit(w.db, req) == Some(WriteContract(req));
    DriveWrite(cfg, w.db, w.chain, WriteContract(req));
    assert req.contractId !in w.fundings;
    hide Inv, Admit, Drive, WithMilestones, Key, R.FundStroops;
  }

  /** The client's funding transaction goes through. */
  lemma Funded(chain: E.Chain, call: E.Call)
    requires call.Fund? && call.amount > 0 && call.id !in chain.entries && call.caller != chain.self
    requires call.amount <= chain.ledger.Balance(call.token, call.caller)
    requires call.amount <= chain.ledger.Allowance(call.token, call.caller, chain.self)
    ensures var after := E.Apply(chain, {call.caller} - {chain.self}, call).0;
            && call.id in after.entries
            && after.entries[call.id]
               == E.Entry(call.caller, call.freelancer, call.admin, call.token, call.amount, 0, E.Funded)
            && |after.events| == |chain.events| + 1
            && after.events[|chain.events|].FundEvent? && after.events[|chain.events|].id == call.id
  {
  }

  /** The next event is the hash of no confirmed contract, before or after the creation. */
  lemma NewHash(cfg: Config, w: World, req: Request)
    requires Inv(cfg, w) && req.Create? && CanCreate(w.db, req)
    ensures !EscrowTxTaken(Write(w.db, WriteContract(req)), req.contractId, |w.chain.events|)
  {
    hide RowsOk, JobsOk, PaidOk, AllAgree, FundingsOk, ChainOk, WithMilestones, Key;
    forall id | id in w.db.contracts ensures w.db.contracts[id].escrowTx != Some(|w.chain.events|) {
      if w.db.contracts[id].escrowTx.Some? { assert Funds(w.chain, id, w.db.contracts[id].escrowTx.value); }
    }
  }

  /** Creating a fundable contract and submitting its funding locks its total, still unconfirmed. */
  lemma Locked(cfg: Config, w: World, req: Request)
    requires R.Rounds(cfg.fl) && Inv(cfg, w) && Fundable(cfg, w, req)
    ensures var (id, tx) := (req.contractId, |w.chain.events|);
            var w1 := Next(cfg, w, Serve(req));
            var w2 := Next(cfg, w1, SubmitFunding(id));
            && Fair(w, Serve(req)) && Fair(w1, SubmitFunding(id))
            && id in w2.db.contracts
            && w2.db.contracts[id] == Contract(req.jobId, req.caller, req.freelancerId, PENDING, None)
            && w2.db.payments == w.db.payments
            && w2.db.milestones == WithMilestones(w.db.milestones, id, req.milestoneIds, req.amounts)
            && !EscrowTxTaken(w2.db, id, tx) && Funds(w2.chain, id, tx)
            && Lookup(w2.chain, id).Some?
            && var e := Lookup(w2.chain, id).value;
            && e.status.Funded? && e.admin == cfg.admin && e.released == 0 && e.total == Sum(req.amounts)
            && e.client == cfg.wallet(req.caller) && e.freelancer == cfg.wallet(req.freelancerId)
  {
    hide OnlyOurs, Next, Inv, R.Rounds, WithMilestones, EscrowTxTaken, E.Apply, K.IsUuid, JobTaken;
    var id := req.contractId;
    var w1 := Next(cfg, w, Serve(req));
    Created(cfg, w, req);
    NewHash(cfg, w, req);
    Funded(w.chain, w1.fundings[id]);
    Submits(cfg, w1, id);
    hide Write, Key;
  }

  lemma Submits(cfg: Config, w: World, id: Id)
    requires id in w.fundings
    ensures var call := w.fundings[id];
            Next(cfg, w, SubmitFunding(id)) == w.(chain := E.Apply(w.chain, {call.caller} - {w.chain.self}, call).0)
  {
    hide E.Apply;
  }

  /** Creating, funding and confirming a fundable contract makes it active and undisputed. */
  lemma Opens(cfg: Config, w: World, req: Request)
    requires R.Rounds(cfg.fl) && Inv(cfg, w) && Fundable(cfg, w, req)
    ensures var w' := Run(cfg, w, Opening(w, req));
            && FairRun(cfg, w, Opening(w, req)) && Undisputed(w', req.contractId)
            && w'.db.contracts[req.contractId].clientId == req.caller
            && w'.db.contracts[req.contractId].freelancerId == req.freelancerId
            && w'.db.payments == w.db.payments
            && w'.db.milestones
               == WithMilestones(w.db.milestones, req.contractId, req.milestoneIds, req.amounts)
            && Lookup(w'.chain, req.contractId).value.admin == cfg.admin
            && Lookup(w'.chain, req.contractId).value.client == cfg.wallet(req.caller)
            && Lookup(w'.chain, req.contractId).value.freelancer == cfg.wallet(req.freelancerId)
            && Lookup(w'.chain, req.contractId).value.released == 0
            && Lookup(w'.chain, req.contractId).value.total == Sum(req.amounts)
  {
    hide Next, Inv, Fundable, E.Apply, Write, Key, R.Rounds, WithMilestones, EscrowTxTaken;
    FundableCreates(cfg, w, req);
    var (id, tx) := (req.contractId, |w.chain.events|);
    var steps := Opening(w, req);
    Locked(cfg, w, req);
    Confirmed(cfg, Next(cfg, Next(cfg, w, steps[0]), steps[1]), req, tx);
    ThreeSteps(cfg, w, steps);
  }

  lemma Confirmed(cfg: Config, w: World, req: Request, tx: nat)
    requires req.Create? && req.contractId in w.db.contracts
    requires w.db.contracts[req.contractId]
          == Contract(req.jobId, req.caller, req.freelancerId, PENDING, None)
    requires !EscrowTxTaken(w.db, req.contractId, tx)
    ensures var w' := Next(cfg, w, Serve(ConfirmFund(req.contractId, req.caller, tx)));
            && w'.chain == w.chain
            && w'.db == w.db.(contracts := w.db.contracts[req.contractId :=
                         w.db.contracts[req.contractId].(status := ACTIVE, escrowTx := Some(tx))])
  {
    DriveWrite(cfg, w.db, w.chain, WriteFunded(req.contractId, tx));
    hide EscrowTxTaken;
  }

  // ---- paying to the end ----

  /** Submitting a milestone nobody has worked on puts it in review and leaves the rest alone. */
  lemma Submitted(cfg: Config, w: World, id: Id, m: Id)
    requires Undisputed(w, id) && HasMilestone(w.db, id, m) && w.db.milestones[m].status == TODO
    ensures var step := Serve(SubmitMilestone(id, m, w.db.contracts[id].freelancerId));
            var w' := Next(cfg, w, step);
            && Fair(w, step) && Undisputed(w', id) && w'.chain == w.chain
            && w'.db == SetMilestone(w.db, m, IN_REVIEW)
            && HasMilestone(w'.db, id, m) && w'.db.milestones[m].status == IN_REVIEW
            && UnpaidCents(cfg, w'.db.milestones, id) == UnpaidCents(cfg, w.db.milestones, id)
  {
    DriveWrite(cfg, w.db, w.chain, WriteSubmitted(m));
    StatusSums(cfg, w.db.milestones, m, IN_REVIEW, id);
    hide UnpaidCents, MilestoneCents;
  }

  /** A completed contract whose escrow has released its whole total to the freelancer. */
  predicate PaidOut(w: World, id: Id) {
    && id in w.db.contracts && w.db.contracts[id].status == COMPLETED
    && Lookup(w.chain, id).Some?
    && var e := Lookup(w.chain, id).value;
    e.status.Released? && e.released == e.total
  }

  /** The same two parties and the same total. */
  predicate SameDeal(a: World, b: World, id: Id) {
    && id in a.db.contracts && id in b.db.contracts && Lookup(a.chain, id).Some? && Lookup(b.chain, id).Some?
    && b.db.contracts[id].clientId == a.db.contracts[id].clientId
    && b.db.contracts[id].freelancerId == a.db.contracts[id].freelancerId
    && Lookup(b.chain, id).value.total == Lookup(a.chain, id).value.total
  }

  /** A submission by the freelancer or an approval by the client, on this contract. */
  predicate PartyWork(c: Contract, id: Id, step: Step) {
    && step.Serve?
    && match step.request
       case SubmitMilestone(contractId, _, caller) => contractId == id && caller == c.freelancerId
       case ApproveMilestone(contractId, _, caller) => contractId == id && caller == c.clientId
       case _ => false
  }

  /** Approving one in review lowers what is unpaid, and ends the contract when that was all. */
  lemma Approved(cfg: Config, w: World, id: Id, m: Id)
    requires R.Rounds(cfg.fl) && Inv(cfg, w) && Undisputed(w, id) && cfg.admin != w.chain.self
    requires HasMilestone(w.db, id, m) && w.db.milestones[m].status == IN_REVIEW
    ensures var step := Serve(ApproveMilestone(id, m, w.db.contracts[id].clientId));
            var w' := Next(cfg, w, step);
            && Fair(w, step) && id in w'.db.contracts
            && 0 <= UnpaidCents(cfg, w'.db.milestones, id) < UnpaidCents(cfg, w.db.milestones, id)
            && (PaidOut(w', id) || Undisputed(w', id)) && SameDeal(w, w', id)
  {
    hide RowsOk, JobsOk, OnlyOurs, FundingsOk, ChainOk, AllAgree, E.Judge, E.Apply, Cents, Key, Drive, Advance, AllPaid,
         Lookup, UnpaidCents, MilestoneCents, PaymentCents;
    var amount := w.db.milestones[m].amount;
    var e := Approval(w.db, id, m, |w.chain.events|);
    var db' := Served(cfg, w.db, w.chain, ApproveMilestone(id, m, w.db.contracts[id].clientId)).0;
    ApprovalPays(cfg, w, id, m);
    ReleaseLeaves(cfg, w, id, m);
    DriveRelease(cfg, w.db, w.chain, id, m);
    assert db' == Edited(w.db, id, e);
    EditSums(cfg, w.db, id, e, id);
    EditPaid(cfg, w.db, id, e);
    UnpaidZero(cfg, db', id);
  }

  /** A release leaves its entry funded or released, and an active contract's entry is live. */
  lemma ReleaseStatus(cfg: Config, c: Contract, total: int, unpaid: int, paid: int, e: E.Entry, call: E.Call)
    requires call.ReleaseMilestone? && E.Judge(e, call).Accept?
    requires Agrees(cfg, c, total, unpaid, paid, Some(E.Judge(e, call).after))
    ensures var after := E.Judge(e, call).after;
            && (c.status == ACTIVE ==> after.status.Funded?)
            && (c.status == COMPLETED ==> after.status.Released? && after.released == after.total)
            && after.total == e.total
  {
  }

  /** An approval leaves the contract completed, or active with its entry funded still. */
  lemma ReleaseLeaves(cfg: Config, w: World, id: Id, m: Id)
    requires R.Rounds(cfg.fl) && Inv(cfg, w) && Undisputed(w, id) && cfg.admin != w.chain.self
    requires HasMilestone(w.db, id, m) && w.db.milestones[m].status == IN_REVIEW
    ensures var (db', chain') := Served(cfg, w.db, w.chain, ApproveMilestone(id, m, w.db.contracts[id].clientId));
            && id in db'.contracts && Lookup(chain', id).Some?
            && Lookup(chain', id).value.total == Lookup(w.chain, id).value.total
            && db'.contracts[id].(status := ACTIVE) == w.db.contracts[id]
            && var e := Lookup(chain', id).value;
            if db'.contracts[id].status == COMPLETED then e.status.Released? && e.released == e.total
            else db'.contracts[id].status == ACTIVE && e.status.Funded?
  {
    hide RowsOk, JobsOk, OnlyOurs, FundingsOk, ChainOk, PaidOk, E.Judge, E.Apply, Cents, Key, Drive, Advance, AllPaid,
         Lookup, UnpaidCents, MilestoneCents, PaymentCents, Agrees, R.Rounds;
    var (amount, step) := (w.db.milestones[m].amount, Serve(ApproveMilestone(id, m, w.db.contracts[id].clientId)));
    var w' := Next(cfg, w, step);
    StepKeeps(cfg, w, step);
    NeverOverdraws(cfg, w, id, m);
    EntryAnswers(cfg, w, id, E.ReleaseMilestone(Key(id), cfg.admin, Cents(cfg, amount)));
    ReleaseAdvance(cfg, w.db, w.chain, id, m, amount);
    DriveRelease(cfg, w.db, w.chain, id, m);
    assert Admit(w.db, step.request) == Some(CallRelease(id, m, amount));
    hide Admit;
    assert w'.db == Edited(w.db, id, Approval(w.db, id, m, |w.chain.events|));
    assert AgreesAt(cfg, w'.db, w'.chain, id);
    ReleaseStatus(cfg, w'.db.contracts[id], MilestoneCents(cfg, w'.db.milestones, id),
                  UnpaidCents(cfg, w'.db.milestones, id), PaymentCents(cfg, w'.db.payments, id),
                  Lookup(w.chain, id).value, E.ReleaseMilestone(Key(id), cfg.admin, Cents(cfg, amount)));
  }

  /** Something is unpaid as long as the contract is active. */
  lemma SomethingUnpaid(cfg: Config, w: World, id: Id) returns (m: Id)
    requires Inv(cfg, w) && Undisputed(w, id)
    ensures HasMilestone(w.db, id, m) && w.db.milestones[m].status != PAID
    ensures UnpaidCents(cfg, w.db.milestones, id) > 0
  {
    hide RowsOk, JobsOk, OnlyOurs, FundingsOk, MilestoneCents, UnpaidCents, PaymentCents, AllAgree, Agrees, Lookup;
    LookupOk(cfg, w, id);
    UnpaidZero(cfg, w.db, id);
    assert AgreesAt(cfg, w.db, w.chain, id) by { assert AllAgree(cfg, w.db, w.chain); AgreesFor(cfg, w, id); }
    ActiveUnpaid(cfg, w.db.contracts[id], MilestoneCents(cfg, w.db.milestones, id),
                 UnpaidCents(cfg, w.db.milestones, id), PaymentCents(cfg, w.db.payments, id), Lookup(w.chain, id));
    m :| HasMilestone(w.db, id, m) && w.db.milestones[m].status != PAID;
  }

  lemma AgreesFor(cfg: Config, w: World, id: Id)
    requires AllAgree(cfg, w.db, w.chain) && id in w.db.contracts
    ensures AgreesAt(cfg, w.db, w.chain, id)
  {
  }

  lemma ActiveUnpaid(cfg: Config, c: Contract, total: int, unpaid: int, paid: int, entry: Option<E.Entry>)
    requires c.status == ACTIVE && Agrees(cfg, c, total, unpaid, paid, entry)
    requires entry.Some? && E.Live(entry.value) ==> E.Remaining(entry.value) > 0
    ensures unpaid > 0
  {
  }

  /**
   * From any reachable state, an active contract nobody has disputed can be brought to
   * completion by its own two parties' submissions and approvals alone, with the whole
   * total released to the freelancer.
   */
  lemma {:induction false} Completes(cfg: Config, w: World, id: Id) returns (steps: seq<Step>)
    requires R.Rounds(cfg.fl) && Inv(cfg, w) && Undisputed(w, id) && cfg.admin != w.chain.self
    ensures FairRun(cfg, w, steps)
    ensures forall step :: step in steps ==> PartyWork(w.db.contracts[id], id, step)
    ensures PaidOut(Run(cfg, w, steps), id) && SameDeal(w, Run(cfg, w, steps), id)
    decreases UnpaidCents(cfg, w.db.milestones, id)
  {
    hide Next, Inv, UnpaidCents, R.Rounds, Fair;
    var m := SomethingUnpaid(cfg, w, id);
    var (start, reviewed) := ([], w);
    if w.db.milestones[m].status == TODO {
      var submit := Serve(SubmitMilestone(id, m, w.db.contracts[id].freelancerId));
      Submitted(cfg, w, id, m);
      StepKeeps(cfg, w, submit);
      OneStep(cfg, w, submit);
      start, reviewed := [submit], Next(cfg, w, submit);
    }
    var approve := Serve(ApproveMilestone(id, m, reviewed.db.contracts[id].clientId));
    Approved(cfg, reviewed, id, m);
    StepKeeps(cfg, reviewed, approve);
    OneStep(cfg, reviewed, approve);
    Joined(cfg, w, start, [approve]);
    steps := start + [approve];
    var w' := Next(cfg, reviewed, approve);
    if w'.db.contracts[id].status != COMPLETED {
      var rest := Completes(cfg, w', id);
      Joined(cfg, w, steps, rest);
      steps := steps + rest;
    }
  }

  /**
   * From any reachable state, any contract its client can pay for can be carried through:
   * created, funded and confirmed, then worked and approved by its two parties until the
   * freelancer's entry has released the sum of the amounts agreed.
   */
  lemma Fulfils(cfg: Config, w: World, req: Request) returns (steps: seq<Step>)
    requires R.Rounds(cfg.fl) && Inv(cfg, w) && Fundable(cfg, w, req) && cfg.admin != w.chain.self
    ensures FairRun(cfg, w, steps)
    ensures var (w', id, opening) := (Run(cfg, w, steps), req.contractId, Opening(w, req));
            && opening <= steps
            && (forall step :: step in steps[|opening|..] ==>
                  PartyWork(Contract(req.jobId, req.caller, req.freelancerId, ACTIVE, None), id, step))
            && PaidOut(w', id) && Lookup(w'.chain, id).value.released == Sum(req.amounts)
  {
    hide Inv, Fundable, Next, Fair, R.Rounds, UnpaidCents;
    FundableCreates(cfg, w, req);
    Opens(cfg, w, req);
    var w1 := Run(cfg, w, Opening(w, req));
    RunKeeps(cfg, w, Opening(w, req));
    var rest := Completes(cfg, w1, req.contractId);
    Joined(cfg, w, Opening(w, req), rest);
    steps := Opening(w, req) + rest;
    assert steps[|Opening(w, req)|..] == rest;
  }

  /** What a client with the money may ask for right after deployment. */
  ghost predicate Affordable(cfg: Config, w: World, req: Request) {
    && req.Create? && Modest(req) && K.IsUuid(req.contractId)
    && |req.milestoneIds| == |req.amounts| > 0
    && (forall i, j :: 0 <= i < j < |req.milestoneIds| ==> req.milestoneIds[i] != req.milestoneIds[j])
    && (forall i :: 0 <= i < |req.amounts| ==> 0 < req.amounts[i] < DECIMAL_LIMIT)
    && cfg.wallet(req.caller) != w.chain.self
    && Sum(req.amounts) <= w.chain.ledger.Balance(cfg.token, cfg.wallet(req.caller))
    && Sum(req.amounts) <= w.chain.ledger.Allowance(cfg.token, cfg.wallet(req.caller), w.chain.self)
  }

  /** Right after deployment, posting the job is all that a client with the money has to do first. */
  lemma Posted(cfg: Config, w: World, req: Request)
    requires Initial(w) && Affordable(cfg, w, req)
    ensures var w' := Next(cfg, w, Serve(CreateJob(req.jobId, req.caller)));
            Fundable(cfg, w', req) && w'.db.payments == [] && w'.chain == w.chain
  {
    DriveWrite(cfg, w.db, w.chain, WriteJob(req.jobId, Job(req.caller, OPEN)));
    hide K.IsUuid;
  }
}
