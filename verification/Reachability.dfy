// Lockstep is one schedule of the interleaved system, so whatever a fair lockstep run
// reaches from deployment, an interleaved run reaches too: double payments among it.

module Reachability {
  import opened Sums
  import opened TokenLedger
  import opened Backend
  import E = EscrowSpec
  import F = Fulfilment
  import I = Interleavings
  import K = KeyEncoding
  import L = Lockstep
  import C = LockstepCreate
  import P = PaymentBacking
  import R = Rounding
  import S = EscrowSafety
  import T = LockstepTheorems

  // ---- simulation ----

  /** The same database and chain, with no request in flight. */
  function Quiet(w: L.World): P.System {
    P.System(w.db, w.chain, map[])
  }

  ghost predicate AllPossible(self: E.Symbol, steps: seq<P.Step>) {
    forall step :: step in steps ==> P.Possible(self, step)
  }

  lemma {:induction false} Joined(cfg: Config, s: P.System, a: seq<P.Step>, b: seq<P.Step>)
    ensures P.Run(cfg, s, a + b) == P.Run(cfg, P.Run(cfg, s, a), b)
    decreases |a|
  {
    hide P.Next;
    if a == [] {
      assert a + b == b;
    } else {
      assert (a + b)[0] == a[0] && (a + b)[1..] == a[1..] + b;
      Joined(cfg, P.Next(cfg, s, a[0]), a[1..], b);
    }
  }

  lemma OneStep(cfg: Config, s: P.System, step: P.Step)
    ensures P.Run(cfg, s, [step]) == P.Next(cfg, s, step)
  {
    hide P.Next;
    assert P.Run(cfg, s, [step]) == P.Run(cfg, P.Next(cfg, s, step), []);
  }

  /** A request driven to its end is the same request worked at, access by access, with nobody else about. */
  lemma DriveSimulated(cfg: Config, db: Db, chain: E.Chain, r: Id, task: Task) returns (steps: seq<P.Step>)
    ensures var (db', chain') := L.Drive(cfg, db, chain, task);
            P.Run(cfg, P.System(db, chain, map[r := task]), steps) == P.System(db', chain', map[])
    ensures forall step :: step in steps ==> step == P.Work(r, Truthful)
    decreases L.Rank(task)
  {
    var s := P.System(db, chain, map[r := task]);
    var work := P.Work(r, Truthful);
    var s' := P.Next(cfg, s, work);
    var done := Advance(cfg, db, chain, task, Truthful);
    OneStep(cfg, s, work);
    T.RankFalls(cfg, db, chain, task);
    hide Advance, L.Rank;
    if done.next.None? {
      assert s' == P.System(done.db, done.chain, map[]);
      steps := [work];
    } else {
      assert s' == P.System(done.db, done.chain, map[r := done.next.value]);
      var rest := DriveSimulated(cfg, done.db, done.chain, r, done.next.value);
      Joined(cfg, s, [work], rest);
      steps := [work] + rest;
    }
  }

  lemma ServeSimulated(cfg: Config, w: L.World, req: Request) returns (steps: seq<P.Step>)
    ensures P.Run(cfg, Quiet(w), steps) == Quiet(L.Next(cfg, w, L.Serve(req)))
    ensures AllPossible(w.chain.self, steps)
  {
    var (r, task) := ("", Admit(w.db, req));
    var arrive := P.Arrive(r, req);
    OneStep(cfg, Quiet(w), arrive);
    if task.None? {
      steps := [arrive];
    } else {
      assert P.Next(cfg, Quiet(w), arrive) == P.System(w.db, w.chain, map[r := task.value]);
      hide P.Next, Admit, L.Drive;
      var rest := DriveSimulated(cfg, w.db, w.chain, r, task.value);
      Joined(cfg, Quiet(w), [arrive], rest);
      steps := [arrive] + rest;
    }
  }

  lemma StepSimulated(cfg: Config, w: L.World, step: L.Step) returns (steps: seq<P.Step>)
    requires L.Fair(w, step)
    ensures P.Run(cfg, Quiet(w), steps) == Quiet(L.Next(cfg, w, step))
    ensures AllPossible(w.chain.self, steps)
  {
    if step.Serve? {
      steps := ServeSimulated(cfg, w, step.request);
    } else if step.SubmitFunding? && step.contractId !in w.fundings {
      steps := [];
    } else {
      var network := match step
        case SubmitFunding(id) => S.Invoke({w.fundings[id].caller} - {w.chain.self}, w.fundings[id])
        case PartyDispute(id, party) => S.Invoke({party} - {w.chain.self}, E.Dispute(Key(id), party))
        case Traffic(op) => S.Outside(op);
      steps := [P.Network(network)];
      OneStep(cfg, Quiet(w), steps[0]);
    }
    hide E.Apply, L.Served, Perform;
  }

  /** Every fair lockstep run is a run of the interleaved system. */
  lemma {:induction false} LockstepIsOneSchedule(cfg: Config, w: L.World, steps: seq<L.Step>)
    returns (schedule: seq<P.Step>)
    requires R.Rounds(cfg.fl) && L.Inv(cfg, w) && T.FairRun(cfg, w, steps)
    ensures P.Run(cfg, Quiet(w), schedule) == Quiet(T.Run(cfg, w, steps))
    ensures AllPossible(w.chain.self, schedule)
    decreases |steps|
  {
    schedule := [];
    if steps != [] {
      hide L.Next, L.Inv, L.Fair, P.Next, P.Possible, R.Rounds, L.Evolves;
      var w' := L.Next(cfg, w, steps[0]);
      T.StepKeeps(cfg, w, steps[0]);
      var first := StepSimulated(cfg, w, steps[0]);
      var rest := LockstepIsOneSchedule(cfg, w', steps[1..]);
      Joined(cfg, Quiet(w), first, rest);
      schedule := first + rest;
    }
  }

  // ---- paying twice, from deployment ----

  function Last(req: Request): Id
    requires req.Create? && |req.milestoneIds| > 0
  {
    req.milestoneIds[|req.milestoneIds| - 1]
  }

  /** Nothing in flight, nothing recorded, the last milestone in review and the whole total in escrow. */
  ghost predicate UnderReview(cfg: Config, s: P.System, req: Request)
    requires req.Create? && |req.milestoneIds| == |req.amounts| > 0
  {
    && s.tasks == map[] && s.db.payments == []
    && req.contractId in s.db.contracts && s.db.contracts[req.contractId].status == ACTIVE
    && HasMilestone(s.db, req.contractId, Last(req)) && s.db.milestones[Last(req)].status == IN_REVIEW
    && s.db.milestones[Last(req)].amount == req.amounts[|req.amounts| - 1]
    && I.Releasable(cfg, s.chain, req.contractId, Sum(req.amounts))
    && s.chain.entries[Key(req.contractId)].released == 0
  }

  /** Opening a contract and submitting its last milestone gets there. */
  lemma Reviewed(cfg: Config, w: L.World, req: Request) returns (steps: seq<L.Step>)
    requires R.Rounds(cfg.fl) && L.Inv(cfg, w) && F.Fundable(cfg, w, req) && cfg.admin != w.chain.self
    requires w.db.payments == []
    ensures T.FairRun(cfg, w, steps) && UnderReview(cfg, Quiet(T.Run(cfg, w, steps)), req)
  {
    var (id, m) := (req.contractId, Last(req));
    hide L.RowsOk, L.Inv, R.Rounds, F.Fundable, L.Next, L.Fair, Key, WithMilestones, L.Evolves, T.Later, T.Run,
         T.FairRun, UnderReview, CanCreate, L.Modest;
    Amounts(cfg, w, req);
    LastAdded(w.db, req);
    F.Opens(cfg, w, req);
    var w1 := T.Run(cfg, w, F.Opening(w, req));
    T.RunKeeps(cfg, w, F.Opening(w, req));
    F.Submitted(cfg, w1, id, m);
    var submit := L.Serve(SubmitMilestone(id, m, w1.db.contracts[id].freelancerId));
    T.StepKeeps(cfg, w1, submit);
    F.OneStep(cfg, w1, submit);
    F.Joined(cfg, w, F.Opening(w, req), [submit]);
    steps := F.Opening(w, req) + [submit];
    Ready(cfg, L.Next(cfg, w1, submit), req);
  }

  lemma Amounts(cfg: Config, w: L.World, req: Request)
    requires R.Rounds(cfg.fl) && F.Fundable(cfg, w, req)
    ensures |req.milestoneIds| == |req.amounts| > 0 && 0 < Sum(req.amounts) < R.LIMIT
  {
    C.CreateAmounts(cfg, w.db, req);
  }

  /** What `UnderReview` asks of a lockstep world. */
  lemma Ready(cfg: Config, w: L.World, req: Request)
    requires L.Inv(cfg, w) && cfg.admin != w.chain.self
    requires req.Create? && |req.milestoneIds| == |req.amounts| > 0 && 0 < Sum(req.amounts) < R.LIMIT
    requires F.Undisputed(w, req.contractId) && w.db.payments == []
    requires HasMilestone(w.db, req.contractId, Last(req)) && w.db.milestones[Last(req)].status == IN_REVIEW
    requires w.db.milestones[Last(req)].amount == req.amounts[|req.amounts| - 1]
    requires var e := L.Lookup(w.chain, req.contractId).value;
             e.admin == cfg.admin && e.released == 0 && e.total == Sum(req.amounts)
    ensures UnderReview(cfg, Quiet(w), req)
  {
    hide L.RowsOk, L.JobsOk, L.PaidOk, L.OnlyOurs, L.FundingsOk, L.AllAgree, Key, E.Inv;
  }

  lemma ReviewReachable(cfg: Config, w: L.World, req: Request) returns (steps: seq<P.Step>)
    requires R.Rounds(cfg.fl) && T.Initial(w) && F.Affordable(cfg, w, req) && cfg.admin != w.chain.self
    ensures AllPossible(w.chain.self, steps) && UnderReview(cfg, P.Run(cfg, Quiet(w), steps), req)
  {
    T.InitialInv(cfg, w);
    F.Posted(cfg, w, req);
    hide T.Initial, F.Affordable, L.Inv, R.Rounds, F.Fundable, L.Next, UnderReview, K.IsUuid;
    var post := L.Serve(CreateJob(req.jobId, req.caller));
    T.StepKeeps(cfg, w, post);
    F.OneStep(cfg, w, post);
    var w1 := L.Next(cfg, w, post);
    var rest := Reviewed(cfg, w1, req);
    F.Joined(cfg, w, [post], rest);
    steps := LockstepIsOneSchedule(cfg, w, [post] + rest);
  }

  /**
   * From deployment on, both a lost reply and two overlapping approvals can release one milestone
   * twice, the first leaving a single row and the second two requests that claim the same one.
   */
  lemma PaidTwiceFromDeployment(cfg: Config, w: L.World, req: Request) returns (steps: seq<P.Step>)
    requires R.Rounds(cfg.fl) && T.Initial(w) && F.Affordable(cfg, w, req) && cfg.admin != w.chain.self
    requires 2 * req.amounts[|req.amounts| - 1] <= Sum(req.amounts)
    ensures AllPossible(w.chain.self, steps)
    ensures var (id, amount, s) := (req.contractId, req.amounts[|req.amounts| - 1], P.Run(cfg, Quiet(w), steps));
            && id in s.db.contracts
            && var client := s.db.contracts[id].clientId;
            var lost := P.Run(cfg, s, I.ApproveTwice(id, Last(req), client, "a", "b"));
            var overlap := P.Run(cfg, s, I.OverlappingApprovals(id, Last(req), client, "a", "b"));
            && Key(id) in lost.chain.entries && Key(id) in overlap.chain.entries
            && lost.chain.entries[Key(id)].released == overlap.chain.entries[Key(id)].released == 2 * amount
            && |lost.db.payments| == 1
  {
    var (id, amount) := (req.contractId, req.amounts[|req.amounts| - 1]);
    steps := ReviewReachable(cfg, w, req);
    R.FundingCoversReleases(cfg.fl, req.amounts);
    var s := P.Run(cfg, Quiet(w), steps);
    assert I.Releasable(cfg, s.chain, id, 2 * Cents(cfg, amount));
    assert CanRecord(s.db.payments, Payment(id, Some(Last(req)), amount, |s.chain.events| + 1));
    hide P.Run, I.Releasable, CanRecord, Cents, Key, R.Rounds, T.Initial;
    I.PaidTwice(cfg, s, id, Last(req), "a", "b");
    I.PaidTwiceTruthfully(cfg, s, id, Last(req), "a", "b");
  }

  lemma LastAdded(db: Db, req: Request)
    requires req.Create? && |req.milestoneIds| == |req.amounts| > 0
    ensures var after := WithMilestones(db.milestones, req.contractId, req.milestoneIds, req.amounts);
            Last(req) in after && after[Last(req)] == Milestone(req.contractId, req.amounts[|req.amounts| - 1], TODO)
  {
  }
}
