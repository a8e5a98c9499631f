// Any number of requests in flight at once, each advancing one chain call or
// database access at a time, losing replies or dying anywhere: every payment
// row is still backed by a chain event of its own.

module PaymentBacking {
  import opened Sums
  import opened Backend
  import E = EscrowSpec
  import S = EscrowSafety
  import R = Rounding

  datatype System = System(db: Db, chain: E.Chain, tasks: map<Id, Task>)

  datatype Step =
    | Arrive(request: Id, body: Request)
    | Work(request: Id, reply: Reply)
    | Die(request: Id)
    | Network(step: S.Step)   // anyone's direct chain call, or other token traffic

  ghost function Next(cfg: Config, s: System, step: Step): System {
    match step
    case Arrive(r, body) =>
      var task := Admit(s.db, body);
      if r in s.tasks || task.None? then s else s.(tasks := s.tasks[r := task.value])
    case Work(r, reply) =>
      if r !in s.tasks then s
      else
        var done := Advance(cfg, s.db, s.chain, s.tasks[r], reply);
        System(done.db, done.chain, if done.next.Some? then s.tasks[r := done.next.value] else s.tasks - {r})
    case Die(r) => s.(tasks := s.tasks - {r})
    case Network(step) => s.(chain := S.Next(s.chain, step))
  }

  ghost function Run(cfg: Config, s: System, steps: seq<Step>): System
    decreases |steps|
  {
    if steps == [] then s else Run(cfg, Next(cfg, s, steps[0]), steps[1..])
  }

  ghost predicate Initial(s: System) {
    s.db == Db(map[], map[], map[], []) && s.tasks == map[] && S.Initial(s.chain)
  }

  // ---- the backing of one row ----

  /** The event that pays `p`: on its own contract's key, and for a milestone the very amount. */
  predicate Backs(cfg: Config, event: E.Event, p: Payment) {
    && event.id == Key(p.contractId)
    && if p.milestoneId.Some? then event.MilestoneEvent? && event.amount == Cents(cfg, p.amount)
       else event.RefundEvent? || event.ResolveEvent?
  }

  ghost predicate Backed(cfg: Config, events: seq<E.Event>, p: Payment) {
    p.tx < |events| && Backs(cfg, events[p.tx], p)
  }

  ghost predicate PaymentsBacked(cfg: Config, events: seq<E.Event>, payments: seq<Payment>) {
    && (forall i :: 0 <= i < |payments| ==> Backed(cfg, events, payments[i]))
    && (forall i, j :: 0 <= i < j < |payments| ==> payments[i].tx != payments[j].tx)
  }

  /** The row a task is about to write, if it carries a transaction hash. */
  function Owed(task: Task): Option<Payment> {
    match task
    case WritePaid(id, m, amount, tx) => Some(Payment(id, Some(m), amount, tx))
    case ReadResolved(id, _, tx) => Some(Payment(id, None, 0, tx))
    case WriteResolved(id, _, tx, remaining) => Some(Payment(id, None, remaining, tx))
    case ReadCancelled(id, _, tx) => if tx.Some? then Some(Payment(id, None, 0, tx.value)) else None
    case WriteCancelled(id, _, tx, remaining) =>
      if tx.Some? then Some(Payment(id, None, remaining, tx.value)) else None
    case _ => None
  }

  ghost predicate TaskBacked(cfg: Config, events: seq<E.Event>, task: Task) {
    Owed(task).Some? ==> Backed(cfg, events, Owed(task).value)
  }

  /** What the milestone releases of one key add up to. */
  function Released(events: seq<E.Event>, key: E.Symbol): int {
    if events == [] then 0
    else Released(events[..|events| - 1], key) + ReleasedBy(events[|events| - 1], key)
  }

  function ReleasedBy(event: E.Event, key: E.Symbol): int {
    if event.MilestoneEvent? && event.id == key then event.amount else 0
  }

  /** Releases under each key stay within what its entry says. */
  ghost predicate Covered(chain: E.Chain, key: E.Symbol) {
    Released(chain.events, key) <= if key in chain.entries then chain.entries[key].released else 0
  }

  /** The chain's own account: releases never add up to more than the entry says. */
  ghost predicate ReleasesCovered(chain: E.Chain) {
    && (forall i :: 0 <= i < |chain.events| && chain.events[i].MilestoneEvent? ==> chain.events[i].amount > 0)
    && forall key :: Covered(chain, key)
  }

  ghost predicate Inv(cfg: Config, s: System) {
    && E.Inv(s.chain)
    && ReleasesCovered(s.chain)
    && PaymentsBacked(cfg, s.chain.events, s.db.payments)
    && forall r :: r in s.tasks ==> TaskBacked(cfg, s.chain.events, s.tasks[r])
  }

  // ---- the chain's part ----

  lemma ReleasedAppend(events: seq<E.Event>, event: E.Event, key: E.Symbol)
    ensures Released(events + [event], key) == Released(events, key) + ReleasedBy(event, key)
  {
    assert (events + [event])[..|events|] == events;
  }

  /** What an accepted call's event says it released is what the entry gained. */
  lemma AcceptReleases(e: E.Entry, self: E.Symbol, call: E.Call)
    requires !call.Fund? && E.EntryOk(e, self) && E.Judge(e, call).Accept?
    ensures var v := E.Judge(e, call);
            && v.event.id == call.id
            && v.after.released >= e.released + ReleasedBy(v.event, call.id)
            && (v.event.MilestoneEvent? ==> v.event.amount > 0)
  {
  }

  /** A successful call logs one event, and its entry gains at least what the event says it released. */
  lemma CallRecords(chain: E.Chain, signers: set<E.Symbol>, call: E.Call)
    requires E.Inv(chain) && E.Apply(chain, signers, call).1.Ok?
    ensures var (id, chain') := (call.id, E.Apply(chain, signers, call).0);
            && |chain'.events| == |chain.events| + 1
            && var event := chain'.events[|chain.events|];
            && chain'.events == chain.events + [event] && event.id == id
            && id in chain'.entries && chain'.entries == chain.entries[id := chain'.entries[id]]
            && chain'.entries[id].released
               >= ReleasedBy(event, id) + if id in chain.entries then chain.entries[id].released else 0
  {
    if !call.Fund? {
      assert E.EntryOk(chain.entries[call.id], chain.self);
      AcceptReleases(chain.entries[call.id], chain.self, call);
    }
    hide E.Judge, E.Inv;
  }

  lemma CallCovers(chain: E.Chain, signers: set<E.Symbol>, call: E.Call, key: E.Symbol)
    requires E.Inv(chain) && Covered(chain, key) && E.Apply(chain, signers, call).1.Ok?
    ensures Covered(E.Apply(chain, signers, call).0, key)
  {
    hide E.Apply, E.Inv, Released;
    CallRecords(chain, signers, call);
    ReleasedAppend(chain.events, E.Apply(chain, signers, call).0.events[|chain.events|], key);
  }

  lemma CallReleases(chain: E.Chain, signers: set<E.Symbol>, call: E.Call)
    requires E.Inv(chain) && ReleasesCovered(chain)
    ensures var chain' := E.Apply(chain, signers, call).0;
            ReleasesCovered(chain') && chain.events <= chain'.events
  {
    var (chain', outcome) := E.Apply(chain, signers, call);
    if outcome.Ok? {
      EventPositive(chain, signers, call);
      hide E.Apply, E.Inv, Covered;
      forall key ensures Covered(chain', key) {
        assert Covered(chain, key);
        CallCovers(chain, signers, call, key);
      }
    }
  }

  lemma EventPositive(chain: E.Chain, signers: set<E.Symbol>, call: E.Call)
    requires E.Inv(chain) && E.Apply(chain, signers, call).1.Ok?
    ensures var events := E.Apply(chain, signers, call).0.events;
            && |events| == |chain.events| + 1 && chain.events <= events
            && (events[|chain.events|].MilestoneEvent? ==> events[|chain.events|].amount > 0)
  {
    if !call.Fund? {
      AcceptReleases(chain.entries[call.id], chain.self, call);
    }
    hide E.Judge;
  }

  lemma NetworkKeeps(chain: E.Chain, step: S.Step)
    requires E.Inv(chain) && ReleasesCovered(chain) && S.Possible(chain.self, step)
    ensures var chain' := S.Next(chain, step);
            E.Inv(chain') && ReleasesCovered(chain') && chain.events <= chain'.events && chain'.self == chain.self
  {
    S.StepSurplus(chain, step);
    if step.Invoke? {
      CallReleases(chain, step.signers, step.call);
    } else {
      assert S.Next(chain, step).entries == chain.entries && S.Next(chain, step).events == chain.events;
      forall key ensures Covered(S.Next(chain, step), key) {
        assert Covered(chain, key);
      }
    }
  }

  // ---- the requests' part ----

  lemma LongerLog(cfg: Config, s: System, events: seq<E.Event>)
    requires Inv(cfg, s) && s.chain.events <= events
    ensures PaymentsBacked(cfg, events, s.db.payments)
    ensures forall r :: r in s.tasks ==> TaskBacked(cfg, events, s.tasks[r])
  {
  }

  /** The event an accepted call emits. */
  lemma CallEvent(chain: E.Chain, signers: set<E.Symbol>, call: E.Call)
    requires !call.Fund? && E.Apply(chain, signers, call).1.Ok?
    ensures var events := E.Apply(chain, signers, call).0.events;
            && |events| == |chain.events| + 1
            && events[|chain.events|].id == call.id
            && match call
               case ReleaseMilestone(_, _, amount) =>
                 events[|chain.events|].MilestoneEvent? && events[|chain.events|].amount == amount
               case Refund(_, _) => events[|chain.events|].RefundEvent?
               case Resolve(_, _, _, _) => events[|chain.events|].ResolveEvent?
               case _ => true
  {
  }

  predicate CallsChain(task: Task) {
    task.CallRelease? || task.CallDispute? || task.CallResolve? || task.CallRefund?
  }

  function CallOf(cfg: Config, task: Task): Option<E.Call>
    requires CallsChain(task)
  {
    match task
    case CallRelease(id, _, amount) =>
      var stroops := E.Checked(Cents(cfg, amount));
      if stroops.None? then None else Some(E.ReleaseMilestone(Key(id), cfg.admin, stroops.value))
    case CallDispute(id, signer) => Some(E.Dispute(Key(id), signer))
    case CallResolve(id, decision, bps) => Some(E.Resolve(Key(id), cfg.admin, decision, bps))
    case CallRefund(id, _) => Some(E.Refund(Key(id), cfg.admin))
  }

  /** A chain call changes the chain as its invocation does, or not at all. */
  lemma CallEffect(cfg: Config, db: Db, chain: E.Chain, task: Task, reply: Reply)
    requires CallsChain(task)
    ensures var done := Advance(cfg, db, chain, task, reply);
            && done.db == db
            && (done.next.Some? ==> done.chain != chain)
            && (done.chain != chain ==>
                  CallOf(cfg, task).Some? &&
                  var call := CallOf(cfg, task).value;
                  E.Apply(chain, {call.caller} - {chain.self}, call) == (done.chain, E.Ok))
  {
  }

  /** Its event backs what the request goes on to write. */
  lemma CallBacks(cfg: Config, db: Db, chain: E.Chain, task: Task, reply: Reply)
    requires CallsChain(task)
    ensures var done := Advance(cfg, db, chain, task, reply);
            done.next.Some? ==> TaskBacked(cfg, done.chain.events, done.next.value)
  {
    var done := Advance(cfg, db, chain, task, reply);
    CallEffect(cfg, db, chain, task, reply);
    if done.next.Some? {
      var call := CallOf(cfg, task).value;
      CallEvent(chain, {call.caller} - {chain.self}, call);
    }
  }

  lemma CallKeeps(cfg: Config, s: System, task: Task, reply: Reply)
    requires Inv(cfg, s) && CallsChain(task)
    ensures var chain := Advance(cfg, s.db, s.chain, task, reply).chain;
            && E.Inv(chain) && ReleasesCovered(chain) && s.chain.events <= chain.events
            && chain.self == s.chain.self
  {
    CallEffect(cfg, s.db, s.chain, task, reply);
    if CallOf(cfg, task).Some? {
      var call := CallOf(cfg, task).value;
      NetworkKeeps(s.chain, S.Invoke({call.caller} - {s.chain.self}, call));
    }
  }

  /** Writing a row that is owed keeps every row backed by an event of its own. */
  lemma WriteBacked(cfg: Config, db: Db, events: seq<E.Event>, task: Task)
    requires PaymentsBacked(cfg, events, db.payments) && TaskBacked(cfg, events, task)
    ensures PaymentsBacked(cfg, events, Write(db, task).payments)
    ensures db.payments <= Write(db, task).payments
  {
  }

  /** A database access: the chain stays, and the hash a request carries stays with it. */
  lemma DbAccess(cfg: Config, db: Db, chain: E.Chain, task: Task, reply: Reply)
    requires !CallsChain(task) && TaskBacked(cfg, chain.events, task)
    ensures var done := Advance(cfg, db, chain, task, reply);
            && done.chain == chain
            && (done.db == db || done.db == Write(db, task))
            && (done.next.Some? ==> TaskBacked(cfg, chain.events, done.next.value))
  {
  }

  lemma WorkKeeps(cfg: Config, s: System, r: Id, reply: Reply)
    requires Inv(cfg, s) && r in s.tasks
    ensures var s' := Next(cfg, s, Work(r, reply));
            Inv(cfg, s') && s'.chain.self == s.chain.self && s.db.payments <= s'.db.payments
  {
    var task := s.tasks[r];
    var done := Advance(cfg, s.db, s.chain, task, reply);
    if CallsChain(task) {
      CallKeeps(cfg, s, task, reply);
      CallBacks(cfg, s.db, s.chain, task, reply);
      CallEffect(cfg, s.db, s.chain, task, reply);
      LongerLog(cfg, s, done.chain.events);
    } else {
      DbAccess(cfg, s.db, s.chain, task, reply);
      WriteBacked(cfg, s.db, s.chain.events, task);
    }
    hide Advance, E.Inv, ReleasesCovered, PaymentsBacked, TaskBacked;
  }

  lemma AdmittedOwesNothing(db: Db, req: Request)
    requires Admit(db, req).Some?
    ensures Owed(Admit(db, req).value).None?
  {
  }

  predicate Possible(self: E.Symbol, step: Step) {
    step.Network? ==> S.Possible(self, step.step)
  }

  lemma StepKeeps(cfg: Config, s: System, step: Step)
    requires Inv(cfg, s) && Possible(s.chain.self, step)
    ensures var s' := Next(cfg, s, step);
            Inv(cfg, s') && s'.chain.self == s.chain.self && s.db.payments <= s'.db.payments
  {
    match step
    case Arrive(r, body) =>
      if Admit(s.db, body).Some? { AdmittedOwesNothing(s.db, body); }
    case Work(r, reply) =>
      if r in s.tasks { WorkKeeps(cfg, s, r, reply); }
    case Die(r) =>
    case Network(step) =>
      NetworkKeeps(s.chain, step);
      LongerLog(cfg, s, S.Next(s.chain, step).events);
  }

  lemma {:induction false} RunKeeps(cfg: Config, s: System, steps: seq<Step>)
    requires Inv(cfg, s) && forall step :: step in steps ==> Possible(s.chain.self, step)
    ensures Inv(cfg, Run(cfg, s, steps)) && s.db.payments <= Run(cfg, s, steps).db.payments
    decreases |steps|
  {
    if steps != [] {
      StepKeeps(cfg, s, steps[0]);
      RunKeeps(cfg, Next(cfg, s, steps[0]), steps[1..]);
    }
  }

  // ---- how much is claimed ----

  function RowOf(cfg: Config, p: Payment, key: E.Symbol): int {
    if Key(p.contractId) == key && p.milestoneId.Some? then Cents(cfg, p.amount) else 0
  }

  /** What the milestone rows of one escrow key say was released. */
  function Recorded(cfg: Config, payments: seq<Payment>, key: E.Symbol): int {
    if payments == [] then 0
    else Recorded(cfg, payments[..|payments| - 1], key) + RowOf(cfg, payments[|payments| - 1], key)
  }

  /** The part of a key's releases that some row names. */
  function Claimed(events: seq<E.Event>, txs: set<nat>, key: E.Symbol): int {
    if events == [] then 0
    else
      Claimed(events[..|events| - 1], txs, key)
      + if |events| - 1 in txs then ReleasedBy(events[|events| - 1], key) else 0
  }

  lemma {:induction false} ClaimedAtMost(events: seq<E.Event>, txs: set<nat>, key: E.Symbol)
    requires forall i :: 0 <= i < |events| && events[i].MilestoneEvent? ==> events[i].amount > 0
    ensures Claimed(events, txs, key) <= Released(events, key)
  {
    if events != [] {
      ClaimedAtMost(events[..|events| - 1], txs, key);
    }
  }

  lemma {:induction false} ClaimOneMore(events: seq<E.Event>, txs: set<nat>, tx: nat, key: E.Symbol)
    requires tx !in txs
    ensures Claimed(events, txs + {tx}, key)
         == Claimed(events, txs, key) + if tx < |events| then ReleasedBy(events[tx], key) else 0
  {
    if events != [] {
      ClaimOneMore(events[..|events| - 1], txs, tx, key);
    }
  }

  lemma {:induction false} PaymentsClaim(cfg: Config, events: seq<E.Event>, payments: seq<Payment>, key: E.Symbol)
    requires PaymentsBacked(cfg, events, payments)
    requires forall i :: 0 <= i < |events| && events[i].MilestoneEvent? ==> events[i].amount > 0
    ensures Recorded(cfg, payments, key) <= Claimed(events, set p | p in payments :: p.tx, key)
  {
    if payments == [] {
      ClaimedNonNegative(events, {}, key);
      assert (set p | p in payments :: p.tx) == {};
    } else {
      var (front, p) := (payments[..|payments| - 1], payments[|payments| - 1]);
      PaymentsClaim(cfg, events, front, key);
      ClaimOneMore(events, set q | q in front :: q.tx, p.tx, key);
      assert payments == front + [p];
      assert (set q | q in payments :: q.tx) == (set q | q in front :: q.tx) + {p.tx};
      assert Backed(cfg, events, payments[|payments| - 1]);
    }
  }

  lemma {:induction false} ClaimedNonNegative(events: seq<E.Event>, txs: set<nat>, key: E.Symbol)
    requires forall i :: 0 <= i < |events| && events[i].MilestoneEvent? ==> events[i].amount > 0
    ensures Claimed(events, txs, key) >= 0
  {
    if events != [] {
      ClaimedNonNegative(events[..|events| - 1], txs, key);
    }
  }

  /**
   * Ledger backing, in every interleaving with lost replies and dead requests: each
   * payment row names an event of its own on its contract's key, a milestone row for
   * exactly the amount released, and a contract's milestone rows never add up to more
   * than the chain says was released.
   */
  lemma LedgerBacking(cfg: Config, s: System, steps: seq<Step>, contractId: Id)
    requires Initial(s) && forall step :: step in steps ==> Possible(s.chain.self, step)
    ensures var f := Run(cfg, s, steps);
            && PaymentsBacked(cfg, f.chain.events, f.db.payments)
            && Recorded(cfg, f.db.payments, Key(contractId))
               <= if Key(contractId) in f.chain.entries then f.chain.entries[Key(contractId)].released else 0
  {
    S.InitialInv(s.chain);
    RunKeeps(cfg, s, steps);
    var f := Run(cfg, s, steps);
    var key := Key(contractId);
    PaymentsClaim(cfg, f.chain.events, f.db.payments, key);
    ClaimedAtMost(f.chain.events, set p | p in f.db.payments :: p.tx, key);
    assert Covered(f.chain, key);
  }

  /** Below 2^50 stroops the amount released is the row's own amount, to the last digit. */
  lemma BackedToTheStroop(cfg: Config, events: seq<E.Event>, p: Payment)
    requires R.Rounds(cfg.fl) && Backed(cfg, events, p) && p.milestoneId.Some? && 2 * p.amount < R.LIMIT
    ensures events[p.tx].amount == p.amount
  {
    R.ReleaseExact(cfg.fl, p.amount);
  }
}
