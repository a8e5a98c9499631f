// How milestone releases add up: in every interleaving, what the chain has released
// for a contract by milestones is what the payment rows say, plus what requests in
// flight are about to record, plus what exactly four kinds of step lost.

module Reconciliation {
  import opened Sums
  import opened Backend
  import opened PaymentBacking
  import E = EscrowSpec
  import S = EscrowSafety

  // ---- the three accounts, by escrow key ----

  function Carried(cfg: Config, task: Task, key: E.Symbol): int {
    if task.WritePaid? && Key(task.contractId) == key then Cents(cfg, task.amount) else 0
  }

  /** What requests that hold a confirmed hash have yet to record. */
  ghost function InFlight(cfg: Config, tasks: map<Id, Task>, key: E.Symbol): int {
    Total(map r | r in tasks :: Carried(cfg, tasks[r], key))
  }

  /** Released on the chain, but neither recorded nor about to be. */
  ghost function Gap(cfg: Config, s: System, key: E.Symbol): int {
    Released(s.chain.events, key) - Recorded(cfg, s.db.payments, key) - InFlight(cfg, s.tasks, key)
  }

  // ---- what a step loses ----

  /** A payment row the database refuses. */
  predicate Refused(db: Db, task: Task) {
    match task
    case WritePaid(id, m, amount, tx) =>
      m !in db.milestones || !CanRecord(db.payments, Payment(id, Some(m), amount, tx))
    case WriteResolved(id, _, tx, remaining) =>
      id !in db.contracts || !CanRecord(db.payments, Payment(id, None, remaining, tx))
    case WriteCancelled(id, jobId, tx, remaining) =>
      tx.Some? && (id !in db.contracts || jobId !in db.jobs
                   || !CanRecord(db.payments, Payment(id, None, remaining, tx.value)))
    case _ => false
  }

  predicate WritesRow(task: Task) {
    task.WritePaid? || task.WriteResolved? || task.WriteCancelled?
  }

  /**
   * A lost reply to a release that took effect, a refused row, the death of a request
   * that holds a hash, and a release called on the chain directly; nothing else.
   */
  ghost function Leak(cfg: Config, s: System, step: Step, key: E.Symbol): int {
    match step
    case Arrive(_, _) => 0
    case Work(r, reply) =>
      if r !in s.tasks then 0
      else if s.tasks[r].CallRelease? && Key(s.tasks[r].contractId) == key && reply.Lost?
              && Advance(cfg, s.db, s.chain, s.tasks[r], reply).chain != s.chain then Cents(cfg, s.tasks[r].amount)
      else if s.tasks[r].WritePaid? && Refused(s.db, s.tasks[r]) then Carried(cfg, s.tasks[r], key)
      else 0
    case Die(r) => if r in s.tasks then Carried(cfg, s.tasks[r], key) else 0
    case Network(step) =>
      if step.Invoke? && step.call.ReleaseMilestone? && step.call.id == key
         && E.Apply(s.chain, step.signers, step.call).1.Ok? then step.call.amount
      else 0
  }

  // ---- how the accounts move ----

  lemma InFlightPut(cfg: Config, tasks: map<Id, Task>, r: Id, task: Task, key: E.Symbol)
    ensures InFlight(cfg, tasks[r := task], key)
         == InFlight(cfg, tasks - {r}, key) + Carried(cfg, task, key)
  {
    var all := tasks[r := task];
    var rest := map q | q in tasks - {r} :: Carried(cfg, (tasks - {r})[q], key);
    assert (map q | q in all :: Carried(cfg, all[q], key)) == rest[r := Carried(cfg, task, key)];
    TotalPut(rest, r, Carried(cfg, task, key));
  }

  lemma InFlightDrop(cfg: Config, tasks: map<Id, Task>, r: Id, key: E.Symbol)
    ensures InFlight(cfg, tasks - {r}, key)
         == InFlight(cfg, tasks, key) - if r in tasks then Carried(cfg, tasks[r], key) else 0
  {
    if r in tasks {
      InFlightPut(cfg, tasks, r, tasks[r], key);
      assert tasks[r := tasks[r]] == tasks;
    } else {
      assert tasks - {r} == tasks;
    }
  }

  lemma SumAppend(cfg: Config, payments: seq<Payment>, p: Payment, key: E.Symbol)
    ensures Recorded(cfg, payments + [p], key) == Recorded(cfg, payments, key) + RowOf(cfg, p, key)
  {
    assert (payments + [p])[..|payments|] == payments;
  }

  /** A chain call releases what its event says, which only `release_milestone` does. */
  lemma CallReleased(chain: E.Chain, signers: set<E.Symbol>, call: E.Call, key: E.Symbol)
    ensures var (after, outcome) := E.Apply(chain, signers, call);
            Released(after.events, key)
            == Released(chain.events, key)
               + if outcome.Ok? && call.ReleaseMilestone? && call.id == key then call.amount else 0
  {
    var (after, outcome) := E.Apply(chain, signers, call);
    if outcome.Ok? {
      assert after.events == chain.events + [after.events[|chain.events|]];
      ReleasedAppend(chain.events, after.events[|chain.events|], key);
    }
  }

  /** What a request's own chain call adds to the releases and to what is carried. */
  lemma CallAccounts(cfg: Config, s: System, r: Id, reply: Reply, key: E.Symbol)
    requires r in s.tasks && CallsChain(s.tasks[r])
    ensures var done := Advance(cfg, s.db, s.chain, s.tasks[r], reply);
            && done.db == s.db
            && Released(done.chain.events, key)
               == Released(s.chain.events, key)
                  + (if done.next.Some? then Carried(cfg, done.next.value, key) else 0)
                  + Leak(cfg, s, Work(r, reply), key)
  {
    var task := s.tasks[r];
    var done := Advance(cfg, s.db, s.chain, task, reply);
    CallEffect(cfg, s.db, s.chain, task, reply);
    if CallOf(cfg, task).Some? {
      var call := CallOf(cfg, task).value;
      CallReleased(s.chain, {call.caller} - {s.chain.self}, call, key);
      NextCarries(cfg, s.db, s.chain, task, reply, key);
    }
    hide Advance, E.Apply, Key, Cents, Released;
  }

  lemma NextCarries(cfg: Config, db: Db, chain: E.Chain, task: Task, reply: Reply, key: E.Symbol)
    requires CallsChain(task)
    ensures var done := Advance(cfg, db, chain, task, reply);
            && (done.next.Some? ==>
                  !reply.Lost?
                  && Carried(cfg, done.next.value, key)
                     == if task.CallRelease? && Key(task.contractId) == key then Cents(cfg, task.amount) else 0)
            && (done.next.None? && !reply.Lost? ==> done.chain == chain)
  {
    hide E.Apply, E.Judge, Cents, Key;
  }

  /** What a database access adds to the rows. */
  lemma AccessAccounts(cfg: Config, db: Db, chain: E.Chain, task: Task, reply: Reply, key: E.Symbol)
    requires !CallsChain(task)
    ensures var done := Advance(cfg, db, chain, task, reply);
            && done.chain == chain
            && (done.next.Some? ==> Carried(cfg, done.next.value, key) == 0)
            && Recorded(cfg, done.db.payments, key)
               == Recorded(cfg, db.payments, key)
                  + if task.WritePaid? && !Refused(db, task) then Carried(cfg, task, key) else 0
  {
    WritePayments(cfg, db, task, key);
    hide Write, Recorded, Cents, Key, AllPaid, DbRemaining;
  }

  /** A write adds the row it owes, exactly when the database takes it, or none. */
  lemma OneRow(db: Db, task: Task)
    ensures Write(db, task).payments
         == if WritesRow(task) && Owed(task).Some? && !Refused(db, task) then db.payments + [Owed(task).value]
            else db.payments
  {
    hide CanRecord, CanCreate, WithMilestones, EscrowTxTaken;
  }

  lemma WritePayments(cfg: Config, db: Db, task: Task, key: E.Symbol)
    ensures Recorded(cfg, Write(db, task).payments, key)
         == Recorded(cfg, db.payments, key)
            + if task.WritePaid? && !Refused(db, task) then Carried(cfg, task, key) else 0
  {
    hide CanRecord, Cents, Key, WithMilestones, CanCreate, EscrowTxTaken;
    var after := Write(db, task).payments;
    if after != db.payments {
      OneRow(db, task);
      hide Write;
      SumAppend(cfg, db.payments, Owed(task).value, key);
    }
  }

  // ---- the law ----

  lemma StepLeaks(cfg: Config, s: System, step: Step, key: E.Symbol)
    ensures Gap(cfg, Next(cfg, s, step), key) == Gap(cfg, s, key) + Leak(cfg, s, step, key)
  {
    match step
    case Arrive(r, body) =>
      if r !in s.tasks && Admit(s.db, body).Some? {
        AdmittedOwesNothing(s.db, body);
        InFlightDrop(cfg, s.tasks, r, key);
        InFlightPut(cfg, s.tasks, r, Admit(s.db, body).value, key);
      }
      hide Admit, Cents, Key;
    case Work(r, reply) =>
      if r in s.tasks {
        var task := s.tasks[r];
        var done := Advance(cfg, s.db, s.chain, task, reply);
        InFlightDrop(cfg, s.tasks, r, key);
        if done.next.Some? { InFlightPut(cfg, s.tasks, r, done.next.value, key); }
        if CallsChain(task) {
          CallAccounts(cfg, s, r, reply, key);
        } else {
          AccessAccounts(cfg, s.db, s.chain, task, reply, key);
        }
        hide Advance, Recorded, Released, InFlight, Cents, Key, E.Apply, Refused;
      }
    case Die(r) =>
      InFlightDrop(cfg, s.tasks, r, key);
    case Network(step) =>
      if step.Invoke? { CallReleased(s.chain, step.signers, step.call, key); }
      hide E.Apply;
  }

  /** Nothing a step loses is negative: the gap only grows. */
  lemma LeaksGrow(cfg: Config, s: System, step: Step, key: E.Symbol)
    requires Inv(cfg, s)
    ensures Leak(cfg, s, step, key) >= 0
  {
    match step
    case Arrive(_, _) =>
    case Work(r, reply) =>
      if r in s.tasks {
        CarriedPositive(cfg, s, r, key);
        if s.tasks[r].CallRelease? { ReleasePositive(cfg, s.db, s.chain, s.tasks[r], reply); }
      }
      hide Advance, Cents, Key, Inv;
    case Die(r) =>
      if r in s.tasks { CarriedPositive(cfg, s, r, key); }
      hide Carried, Inv;
    case Network(step) =>
      hide Inv;
  }

  lemma CarriedPositive(cfg: Config, s: System, r: Id, key: E.Symbol)
    requires Inv(cfg, s) && r in s.tasks
    ensures Carried(cfg, s.tasks[r], key) >= 0
  {
    assert TaskBacked(cfg, s.chain.events, s.tasks[r]);
    hide Key, Cents;
  }

  lemma ReleasePositive(cfg: Config, db: Db, chain: E.Chain, task: Task, reply: Reply)
    requires task.CallRelease?
    ensures Advance(cfg, db, chain, task, reply).chain != chain ==> Cents(cfg, task.amount) > 0
  {
  }

  // ---- runs ----

  ghost predicate LosesNothing(cfg: Config, s: System, steps: seq<Step>, key: E.Symbol)
    decreases |steps|
  {
    steps == []
    || (Leak(cfg, s, steps[0], key) == 0 && LosesNothing(cfg, Next(cfg, s, steps[0]), steps[1..], key))
  }

  lemma {:induction false} RunLeaks(cfg: Config, s: System, steps: seq<Step>, key: E.Symbol)
    requires Inv(cfg, s) && forall step :: step in steps ==> Possible(s.chain.self, step)
    ensures Gap(cfg, Run(cfg, s, steps), key) >= Gap(cfg, s, key)
    ensures Gap(cfg, Run(cfg, s, steps), key) == Gap(cfg, s, key) <==> LosesNothing(cfg, s, steps, key)
    decreases |steps|
  {
    if steps != [] {
      hide Inv, Gap, Leak, Next;
      StepKeeps(cfg, s, steps[0]);
      StepLeaks(cfg, s, steps[0], key);
      LeaksGrow(cfg, s, steps[0], key);
      RunLeaks(cfg, Next(cfg, s, steps[0]), steps[1..], key);
    }
  }

  lemma InitialGap(cfg: Config, s: System, key: E.Symbol)
    requires Initial(s)
    ensures Inv(cfg, s) && Gap(cfg, s, key) == 0
  {
    S.InitialInv(s.chain);
    assert (map r | r in s.tasks :: Carried(cfg, s.tasks[r], key)) == map[];
  }

  /**
   * The milestone releases add up exactly when no step lost one: in every interleaving,
   * what was released for a contract is at least what the rows and the requests in flight
   * account for, with equality precisely in the runs without one of the four losses.
   */
  lemma ReleasesAddUp(cfg: Config, s: System, steps: seq<Step>, key: E.Symbol)
    requires Initial(s) && forall step :: step in steps ==> Possible(s.chain.self, step)
    ensures var f := Run(cfg, s, steps);
            var accounted := Recorded(cfg, f.db.payments, key) + InFlight(cfg, f.tasks, key);
            && accounted <= Released(f.chain.events, key)
            && (accounted == Released(f.chain.events, key) <==> LosesNothing(cfg, s, steps, key))
  {
    InitialGap(cfg, s, key);
    RunLeaks(cfg, s, steps, key);
  }
}
