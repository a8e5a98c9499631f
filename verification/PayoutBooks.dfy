// Which payouts the books miss: in every interleaving, each payout on the chain, by
// milestone, release, refund or resolution, is named by a payment row or carried by a
// request about to write one, except those that exactly four kinds of step lost.

module PayoutBooks {
  import opened Sums
  import opened Backend
  import opened PaymentBacking
  import opened Reconciliation
  import E = EscrowSpec
  import S = EscrowSafety

  /** The events that pay somebody. */
  predicate Payout(event: E.Event) {
    event.MilestoneEvent? || event.ReleaseEvent? || event.RefundEvent? || event.ResolveEvent?
  }

  /** The transaction a request has confirmed and not yet recorded. */
  function Tx(task: Task): Option<nat> {
    if Owed(task).Some? then Some(Owed(task).value.tx) else None
  }

  ghost predicate Held(tasks: map<Id, Task>, tx: nat) {
    exists r :: r in tasks && Tx(tasks[r]) == Some(tx)
  }

  /** A payout of `key` that no row names and no request carries. */
  ghost predicate Missing(s: System, key: E.Symbol, tx: nat) {
    && tx < |s.chain.events| && Payout(s.chain.events[tx]) && s.chain.events[tx].id == key
    && !TxRecorded(s.db.payments, tx) && !Held(s.tasks, tx)
  }

  /** No two of the rows and the requests in flight hold the same transaction. */
  ghost predicate Unshared(s: System) {
    && (forall r :: r in s.tasks && Tx(s.tasks[r]).Some? ==> !TxRecorded(s.db.payments, Tx(s.tasks[r]).value))
    && (forall q, r :: q in s.tasks && r in s.tasks && q != r && Tx(s.tasks[q]).Some? ==>
          Tx(s.tasks[q]) != Tx(s.tasks[r]))
  }

  // ---- what a step loses ----

  predicate PayingCall(call: E.Call) {
    call.ReleaseMilestone? || call.Release? || call.Refund? || call.Resolve?
  }

  predicate PayingTask(task: Task) {
    task.CallRelease? || task.CallRefund? || task.CallResolve?
  }

  /** The payout of `key` whose trace a step loses, if it does. */
  ghost function Lost(cfg: Config, s: System, step: Step, key: E.Symbol): Option<nat> {
    match step
    case Arrive(_, _) => None
    case Work(r, reply) =>
      if r !in s.tasks then None
      else if PayingTask(s.tasks[r]) then
        if Key(s.tasks[r].contractId) == key && reply.Lost?
           && Advance(cfg, s.db, s.chain, s.tasks[r], reply).chain != s.chain then Some(|s.chain.events|)
        else None
      else if Owed(s.tasks[r]).Some? && Key(Owed(s.tasks[r]).value.contractId) == key && Refused(s.db, s.tasks[r])
      then Tx(s.tasks[r])
      else None
    case Die(r) =>
      if r in s.tasks && Owed(s.tasks[r]).Some? && Key(Owed(s.tasks[r]).value.contractId) == key
      then Tx(s.tasks[r]) else None
    case Network(step) =>
      if step.Invoke? && PayingCall(step.call) && step.call.id == key
         && E.Apply(s.chain, step.signers, step.call).1.Ok? then Some(|s.chain.events|)
      else None
  }

  // ---- who holds what ----

  lemma HeldPut(tasks: map<Id, Task>, r: Id, task: Task, tx: nat)
    ensures Held(tasks[r := task], tx) <==> Held(tasks - {r}, tx) || Tx(task) == Some(tx)
  {
    var after := tasks[r := task];
    if Held(tasks - {r}, tx) {
      var q :| q in tasks - {r} && Tx((tasks - {r})[q]) == Some(tx);
      assert q in after && Tx(after[q]) == Some(tx);
    }
    if Tx(task) == Some(tx) { assert r in after && Tx(after[r]) == Some(tx); }
    if Held(after, tx) && Tx(task) != Some(tx) {
      var q :| q in after && Tx(after[q]) == Some(tx);
      assert q in tasks - {r} && Tx((tasks - {r})[q]) == Some(tx);
    }
  }

  lemma HeldDrop(tasks: map<Id, Task>, r: Id, tx: nat)
    ensures Held(tasks, tx) <==> Held(tasks - {r}, tx) || (r in tasks && Tx(tasks[r]) == Some(tx))
  {
    if r in tasks {
      HeldPut(tasks, r, tasks[r], tx);
      assert tasks[r := tasks[r]] == tasks;
    } else {
      assert tasks - {r} == tasks;
    }
  }

  /** In a reachable state a request's transaction is nobody else's. */
  lemma HeldAlone(s: System, r: Id, tx: nat)
    requires Unshared(s) && r in s.tasks && Tx(s.tasks[r]) == Some(tx)
    ensures !Held(s.tasks - {r}, tx) && !TxRecorded(s.db.payments, tx)
  {
    forall q | q in s.tasks - {r} ensures Tx((s.tasks - {r})[q]) != Some(tx) {
      assert q in s.tasks && q != r;
    }
  }

  /** The next position in the log is nobody's yet. */
  lemma NextIsFree(cfg: Config, s: System)
    requires Inv(cfg, s)
    ensures !TxRecorded(s.db.payments, |s.chain.events|) && !Held(s.tasks, |s.chain.events|)
  {
    hide E.Inv, ReleasesCovered, Key, Cents;
    forall p | p in s.db.payments ensures p.tx != |s.chain.events| {
      var i :| 0 <= i < |s.db.payments| && s.db.payments[i] == p;
      assert Backed(cfg, s.chain.events, s.db.payments[i]);
    }
    forall r | r in s.tasks && Tx(s.tasks[r]).Some? ensures Tx(s.tasks[r]).value != |s.chain.events| {
      assert TaskBacked(cfg, s.chain.events, s.tasks[r]);
    }
  }

  /** What a request carries is a payout on its own contract's key. */
  lemma CarriesPayout(cfg: Config, s: System, r: Id)
    requires Inv(cfg, s) && r in s.tasks && Owed(s.tasks[r]).Some?
    ensures var (tx, p) := (Tx(s.tasks[r]).value, Owed(s.tasks[r]).value);
            tx < |s.chain.events| && Payout(s.chain.events[tx]) && s.chain.events[tx].id == Key(p.contractId)
  {
    assert TaskBacked(cfg, s.chain.events, s.tasks[r]);
    hide E.Inv, ReleasesCovered, Key, Cents;
  }

  lemma TxOne(payments: seq<Payment>, p: Payment, tx: nat)
    ensures TxRecorded(payments + [p], tx) <==> TxRecorded(payments, tx) || p.tx == tx
  {
    if TxRecorded(payments, tx) {
      var q :| q in payments && q.tx == tx;
      assert q in payments + [p];
    }
    assert p in payments + [p];
  }

  // ---- accesses ----

  /** A database access hands the transaction on, writes it into a row, or is refused. */
  lemma AccessMoves(cfg: Config, db: Db, chain: E.Chain, task: Task, reply: Reply)
    requires !CallsChain(task)
    ensures var done := Advance(cfg, db, chain, task, reply);
            && done.chain == chain
            && if Owed(task).None? then
                 done.db.payments == db.payments && (done.next.Some? ==> Owed(done.next.value).None?)
               else if Refused(db, task) then done.db.payments == db.payments && done.next.None?
               else if WritesRow(task) then
                 done.db.payments == db.payments + [Owed(task).value]
                 && (done.next.Some? ==> Owed(done.next.value).None?)
               else
                 done.db.payments == db.payments
                 && done.next.Some? && Tx(done.next.value) == Tx(task)
                 && Owed(done.next.value).Some?
                 && Owed(done.next.value).value.contractId == Owed(task).value.contractId
  {
    OneRow(db, task);
    if WritesRow(task) && Refused(db, task) { RefusedWrites(db, task); }
    hide Write, Refused, AllPaid, DbRemaining, Key;
  }

  lemma RefusedWrites(db: Db, task: Task)
    requires Refused(db, task)
    ensures Write(db, task) == db
  {
    hide CanRecord;
  }

  lemma AccessMisses(cfg: Config, s: System, r: Id, reply: Reply, key: E.Symbol, tx: nat)
    requires Inv(cfg, s) && Unshared(s) && r in s.tasks && !CallsChain(s.tasks[r])
    ensures var step := Work(r, reply);
            Missing(Next(cfg, s, step), key, tx) <==> Missing(s, key, tx) || Lost(cfg, s, step, key) == Some(tx)
  {
    var task := s.tasks[r];
    var done := Advance(cfg, s.db, s.chain, task, reply);
    AccessMoves(cfg, s.db, s.chain, task, reply);
    HeldDrop(s.tasks, r, tx);
    if done.next.Some? { HeldPut(s.tasks, r, done.next.value, tx); }
    if Owed(task).Some? {
      HeldAlone(s, r, Tx(task).value);
      CarriesPayout(cfg, s, r);
      TxOne(s.db.payments, Owed(task).value, tx);
    }
    hide Inv, Unshared, Advance, Refused, TxRecorded, Held, Payout, Key, Owed;
  }

  lemma AccessUnshared(cfg: Config, s: System, r: Id, reply: Reply)
    requires Unshared(s) && r in s.tasks && !CallsChain(s.tasks[r])
    ensures Unshared(Next(cfg, s, Work(r, reply)))
  {
    var task := s.tasks[r];
    var s' := Next(cfg, s, Work(r, reply));
    AccessMoves(cfg, s.db, s.chain, task, reply);
    forall tx: nat ensures Owed(task).Some? ==>
        (TxRecorded(s.db.payments + [Owed(task).value], tx) <==> TxRecorded(s.db.payments, tx) || Tx(task) == Some(tx))
    {
      if Owed(task).Some? { TxOne(s.db.payments, Owed(task).value, tx); }
    }
    hide Advance, Refused, TxRecorded, Owed;
  }

  // ---- calls ----

  /** What an accepted call adds to the log, and whether it pays. */
  lemma CallLogs(chain: E.Chain, signers: set<E.Symbol>, call: E.Call)
    ensures var (after, outcome) := E.Apply(chain, signers, call);
            if !outcome.Ok? then after == chain
            else
              && |after.events| == |chain.events| + 1 && chain.events <= after.events
              && after.events[|chain.events|].id == call.id
              && (Payout(after.events[|chain.events|]) <==> PayingCall(call))
  {
  }

  lemma CallCarries(cfg: Config, db: Db, chain: E.Chain, task: Task, reply: Reply)
    requires CallsChain(task)
    ensures var done := Advance(cfg, db, chain, task, reply);
            && (done.chain != chain ==> (done.next.None? <==> reply.Lost?))
            && (done.next.Some? ==> Tx(done.next.value) == if PayingTask(task) then Some(|chain.events|) else None)
  {
    hide E.Apply, E.Judge, Key, Cents;
  }

  /** A request's chain call that took effect logs its payout and carries it on, unless its reply is lost. */
  lemma CallMoves(cfg: Config, db: Db, chain: E.Chain, task: Task, reply: Reply)
    requires CallsChain(task)
    ensures Owed(task).None?
    ensures var done := Advance(cfg, db, chain, task, reply);
            && done.db == db
            && if done.chain == chain then done.next.None?
               else
                 && |done.chain.events| == |chain.events| + 1 && chain.events <= done.chain.events
                 && done.chain.events[|chain.events|].id == Key(task.contractId)
                 && (Payout(done.chain.events[|chain.events|]) <==> PayingTask(task))
                 && (done.next.None? <==> reply.Lost?)
                 && (done.next.Some? ==> Tx(done.next.value) == if PayingTask(task) then Some(|chain.events|) else None)
  {
    var done := Advance(cfg, db, chain, task, reply);
    hide Advance, E.Apply, Payout, Key, Cents;
    CallEffect(cfg, db, chain, task, reply);
    CallCarries(cfg, db, chain, task, reply);
    if CallOf(cfg, task).Some? {
      var call := CallOf(cfg, task).value;
      CallLogs(chain, {call.caller} - {chain.self}, call);
    }
  }

  lemma CallMisses(cfg: Config, s: System, r: Id, reply: Reply, key: E.Symbol, tx: nat)
    requires Inv(cfg, s) && r in s.tasks && CallsChain(s.tasks[r])
    ensures var step := Work(r, reply);
            Missing(Next(cfg, s, step), key, tx) <==> Missing(s, key, tx) || Lost(cfg, s, step, key) == Some(tx)
  {
    hide Inv, Advance, TxRecorded, Held, Payout, Key, Owed, Refused;
    var task := s.tasks[r];
    var done := Advance(cfg, s.db, s.chain, task, reply);
    CallMoves(cfg, s.db, s.chain, task, reply);
    HeldDrop(s.tasks, r, tx);
    if done.next.Some? { HeldPut(s.tasks, r, done.next.value, tx); }
    NextIsFree(cfg, s);
  }

  lemma CallUnshared(cfg: Config, s: System, r: Id, reply: Reply)
    requires Inv(cfg, s) && Unshared(s) && r in s.tasks && CallsChain(s.tasks[r])
    ensures Unshared(Next(cfg, s, Work(r, reply)))
  {
    CallMoves(cfg, s.db, s.chain, s.tasks[r], reply);
    NextIsFree(cfg, s);
    hide Inv, Advance, TxRecorded, Owed, Payout, Key;
  }

  // ---- the law ----

  /** A step adds to what the books miss exactly the payout it loses; nothing missed is ever found again. */
  lemma StepMisses(cfg: Config, s: System, step: Step, key: E.Symbol, tx: nat)
    requires Inv(cfg, s) && Unshared(s)
    ensures Missing(Next(cfg, s, step), key, tx) <==> Missing(s, key, tx) || Lost(cfg, s, step, key) == Some(tx)
  {
    match step
    case Arrive(r, body) =>
      if r !in s.tasks && Admit(s.db, body).Some? {
        AdmittedOwesNothing(s.db, body);
        HeldDrop(s.tasks, r, tx);
        HeldPut(s.tasks, r, Admit(s.db, body).value, tx);
      }
      hide Inv, Unshared, Admit, TxRecorded, Held, Payout, Owed;
    case Work(r, reply) =>
      if r in s.tasks {
        if CallsChain(s.tasks[r]) { CallMisses(cfg, s, r, reply, key, tx); }
        else { AccessMisses(cfg, s, r, reply, key, tx); }
      }
      hide Inv, Unshared, Next, Missing;
    case Die(r) =>
      HeldDrop(s.tasks, r, tx);
      if r in s.tasks && Owed(s.tasks[r]).Some? {
        HeldAlone(s, r, Tx(s.tasks[r]).value);
        CarriesPayout(cfg, s, r);
      }
      hide Inv, Unshared, TxRecorded, Held, Payout, Owed, Key;
    case Network(step) =>
      NextIsFree(cfg, s);
      if step.Invoke? { CallLogs(s.chain, step.signers, step.call); }
      hide Inv, Unshared, TxRecorded, Held, Payout, E.Apply;
  }

  lemma StepUnshared(cfg: Config, s: System, step: Step)
    requires Inv(cfg, s) && Unshared(s)
    ensures Unshared(Next(cfg, s, step))
  {
    match step
    case Arrive(r, body) =>
      if Admit(s.db, body).Some? { AdmittedOwesNothing(s.db, body); }
      hide Inv, Admit, TxRecorded, Owed;
    case Work(r, reply) =>
      if r in s.tasks {
        if CallsChain(s.tasks[r]) { CallUnshared(cfg, s, r, reply); } else { AccessUnshared(cfg, s, r, reply); }
      }
      hide Inv, Unshared, Next;
    case Die(r) =>
      hide Inv, TxRecorded, Owed;
    case Network(step) =>
      hide Inv, TxRecorded, Owed;
  }

  ghost predicate NothingMissing(s: System, key: E.Symbol) {
    forall tx: nat :: !Missing(s, key, tx)
  }

  ghost predicate LosesNoPayout(cfg: Config, s: System, steps: seq<Step>, key: E.Symbol)
    decreases |steps|
  {
    steps == []
    || (Lost(cfg, s, steps[0], key).None? && LosesNoPayout(cfg, Next(cfg, s, steps[0]), steps[1..], key))
  }

  lemma {:induction false} RunMisses(cfg: Config, s: System, steps: seq<Step>, key: E.Symbol)
    requires Inv(cfg, s) && Unshared(s) && forall step :: step in steps ==> Possible(s.chain.self, step)
    ensures NothingMissing(Run(cfg, s, steps), key)
       <==> NothingMissing(s, key) && LosesNoPayout(cfg, s, steps, key)
    decreases |steps|
  {
    if steps != [] {
      hide Inv, Unshared, Next, Missing, Lost;
      var s' := Next(cfg, s, steps[0]);
      StepKeeps(cfg, s, steps[0]);
      StepUnshared(cfg, s, steps[0]);
      forall tx: nat
        ensures Missing(s', key, tx) <==> Missing(s, key, tx) || Lost(cfg, s, steps[0], key) == Some(tx)
      {
        StepMisses(cfg, s, steps[0], key, tx);
      }
      RunMisses(cfg, s', steps[1..], key);
    }
  }

  /**
   * The books are complete exactly when no step lost a payout: in every interleaving, each
   * payout on a contract's key is named by a row, or carried by a request still to write one,
   * if and only if no reply to an effective payout was lost, no row was refused, no request
   * died with a payout in hand, and nobody called a payout on the chain directly.
   */
  lemma BooksComplete(cfg: Config, s: System, steps: seq<Step>, key: E.Symbol)
    requires Initial(s) && forall step :: step in steps ==> Possible(s.chain.self, step)
    ensures NothingMissing(Run(cfg, s, steps), key) <==> LosesNoPayout(cfg, s, steps, key)
  {
    S.InitialInv(s.chain);
    RunMisses(cfg, s, steps, key);
  }
}
