// How often a milestone is released: in every interleaving, once for its payment row,
// once for each request about to write one, and once for each release whose trace was
// lost. Hence exactly when a milestone is released at most once.

module SingleRelease {
  import opened Sums
  import opened Backend
  import opened PaymentBacking
  import opened Reconciliation
  import E = EscrowSpec

  /** The step releases milestone `m` on the chain. */
  ghost predicate ReleasesOf(cfg: Config, s: System, step: Step, m: Id) {
    && step.Work? && step.request in s.tasks
    && s.tasks[step.request].CallRelease? && s.tasks[step.request].milestoneId == m
    && Advance(cfg, s.db, s.chain, s.tasks[step.request], step.reply).chain != s.chain
  }

  predicate Carries(task: Task, m: Id) {
    task.WritePaid? && task.milestoneId == m
  }

  /** The step loses the trace of one release of `m`: its reply, its row or the request that held it. */
  ghost predicate Forgets(cfg: Config, s: System, step: Step, m: Id) {
    match step
    case Work(r, reply) =>
      r in s.tasks
      && if reply.Lost? && s.tasks[r].CallRelease? then ReleasesOf(cfg, s, step, m)
         else Carries(s.tasks[r], m) && Refused(s.db, s.tasks[r])
    case Die(r) => r in s.tasks && Carries(s.tasks[r], m)
    case _ => false
  }

  function One(b: bool): nat {
    if b then 1 else 0
  }

  ghost function ReleaseCount(cfg: Config, s: System, steps: seq<Step>, m: Id): nat
    decreases |steps|
  {
    if steps == [] then 0
    else One(ReleasesOf(cfg, s, steps[0], m)) + ReleaseCount(cfg, Next(cfg, s, steps[0]), steps[1..], m)
  }

  ghost function Forgotten(cfg: Config, s: System, steps: seq<Step>, m: Id): nat
    decreases |steps|
  {
    if steps == [] then 0
    else One(Forgets(cfg, s, steps[0], m)) + Forgotten(cfg, Next(cfg, s, steps[0]), steps[1..], m)
  }

  /** The requests that have released `m` and not yet recorded it. */
  ghost function Carriers(tasks: map<Id, Task>, m: Id): int {
    Total(map r | r in tasks :: One(Carries(tasks[r], m)) as int)
  }

  /** The releases of `m` that somebody still knows of. */
  ghost function KnownReleases(s: System, m: Id): int {
    One(MilestoneRecorded(s.db.payments, m)) + Carriers(s.tasks, m)
  }

  // ---- one step ----

  lemma CarriersPut(tasks: map<Id, Task>, r: Id, task: Task, m: Id)
    ensures Carriers(tasks[r := task], m) == Carriers(tasks - {r}, m) + One(Carries(task, m))
  {
    var all := tasks[r := task];
    var rest := map q | q in tasks - {r} :: One(Carries((tasks - {r})[q], m)) as int;
    assert (map q | q in all :: One(Carries(all[q], m)) as int) == rest[r := One(Carries(task, m)) as int];
    TotalPut(rest, r, One(Carries(task, m)));
  }

  lemma CarriersDrop(tasks: map<Id, Task>, r: Id, m: Id)
    ensures Carriers(tasks, m) == Carriers(tasks - {r}, m) + if r in tasks then One(Carries(tasks[r], m)) else 0
  {
    if r in tasks {
      CarriersPut(tasks, r, tasks[r], m);
      assert tasks[r := tasks[r]] == tasks;
    } else {
      assert tasks - {r} == tasks;
    }
  }

  lemma CarriersNonNegative(tasks: map<Id, Task>, m: Id)
    ensures Carriers(tasks, m) >= 0
  {
    TotalNonNegative(map r | r in tasks :: One(Carries(tasks[r], m)) as int);
  }

  /** A release that took effect is carried on, unless its reply is lost; nothing else starts to be carried. */
  lemma NextIsCarrier(cfg: Config, db: Db, chain: E.Chain, task: Task, reply: Reply, m: Id)
    ensures var done := Advance(cfg, db, chain, task, reply);
            && (done.next.Some? && Carries(done.next.value, m)
                <==> task.CallRelease? && task.milestoneId == m && done.chain != chain && !reply.Lost?)
            && (CallsChain(task) ==> done.db == db)
            && (!CallsChain(task) ==> done.chain == chain && (done.db == db || done.db == Write(db, task)))
            && (task.WritePaid? ==> done.db == Write(db, task))
  {
    if CallsChain(task) {
      CallEffect(cfg, db, chain, task, reply);
    }
    hide E.Apply, E.Judge, Cents, Key, Write, AllPaid, DbRemaining;
  }

  /** A write records `m` exactly when it is the payment of `m` and not refused, and then it was not recorded. */
  lemma WriteRecords(db: Db, task: Task, m: Id)
    ensures MilestoneRecorded(Write(db, task).payments, m)
       <==> MilestoneRecorded(db.payments, m) || (Carries(task, m) && !Refused(db, task))
    ensures Carries(task, m) && !Refused(db, task) ==> !MilestoneRecorded(db.payments, m)
  {
    OneRow(db, task);
    if Owed(task).Some? { RecordedAppend(db.payments, Owed(task).value); }
    hide Write, MilestoneRecorded, TxRecorded;
  }

  /** Releases are known or forgotten: a step moves what is known by what it releases less what it forgets. */
  lemma StepReleases(cfg: Config, s: System, step: Step, m: Id)
    ensures KnownReleases(Next(cfg, s, step), m)
         == KnownReleases(s, m) + One(ReleasesOf(cfg, s, step, m)) - One(Forgets(cfg, s, step, m))
  {
    match step
    case Arrive(r, body) =>
      if r !in s.tasks && Admit(s.db, body).Some? {
        AdmittedOwesNothing(s.db, body);
        CarriersDrop(s.tasks, r, m);
        CarriersPut(s.tasks, r, Admit(s.db, body).value, m);
      }
      hide Admit, MilestoneRecorded, Carriers;
    case Work(r, reply) =>
      if r in s.tasks {
        var task := s.tasks[r];
        var done := Advance(cfg, s.db, s.chain, task, reply);
        CarriersDrop(s.tasks, r, m);
        if done.next.Some? { CarriersPut(s.tasks, r, done.next.value, m); }
        NextIsCarrier(cfg, s.db, s.chain, task, reply, m);
        WriteRecords(s.db, task, m);
      }
      hide Advance, MilestoneRecorded, Carriers, Write, Refused;
    case Die(r) =>
      CarriersDrop(s.tasks, r, m);
      hide MilestoneRecorded, Carriers;
    case Network(step) =>
      hide MilestoneRecorded, Carriers;
  }

  // ---- runs ----

  lemma {:induction false} RunReleases(cfg: Config, s: System, steps: seq<Step>, m: Id)
    ensures KnownReleases(Run(cfg, s, steps), m) + Forgotten(cfg, s, steps, m)
         == KnownReleases(s, m) + ReleaseCount(cfg, s, steps, m)
    decreases |steps|
  {
    if steps != [] {
      hide Next, KnownReleases, ReleasesOf, Forgets;
      StepReleases(cfg, s, steps[0], m);
      RunReleases(cfg, Next(cfg, s, steps[0]), steps[1..], m);
    }
  }

  lemma NothingKnown(s: System, m: Id)
    requires Initial(s)
    ensures KnownReleases(s, m) == 0
  {
    assert (map r | r in s.tasks :: One(Carries(s.tasks[r], m)) as int) == map[];
  }

  /**
   * How often a milestone has been released, after any run from deployment: once if a row
   * names it, once for each request about to write one, once for each trace lost on the way.
   */
  lemma ReleasedHowOften(cfg: Config, s: System, steps: seq<Step>, m: Id)
    requires Initial(s)
    ensures var f := Run(cfg, s, steps);
            ReleaseCount(cfg, s, steps, m)
            == One(MilestoneRecorded(f.db.payments, m)) + Carriers(f.tasks, m) + Forgotten(cfg, s, steps, m)
  {
    NothingKnown(s, m);
    RunReleases(cfg, s, steps, m);
  }

  /** Every release of `m` finds it unrecorded, carried by nobody, and no release of it forgotten. */
  ghost predicate NeverRepeats(cfg: Config, s: System, steps: seq<Step>, m: Id, forgotten: nat)
    decreases |steps|
  {
    steps == []
    || (&& (ReleasesOf(cfg, s, steps[0], m) ==>
              !MilestoneRecorded(s.db.payments, m) && Carriers(s.tasks, m) == 0 && forgotten == 0)
        && NeverRepeats(cfg, Next(cfg, s, steps[0]), steps[1..], m, forgotten + One(Forgets(cfg, s, steps[0], m))))
  }

  lemma {:induction false} AtMostOneMore(cfg: Config, s: System, steps: seq<Step>, m: Id, forgotten: nat)
    requires KnownReleases(s, m) + forgotten <= 1
    ensures KnownReleases(s, m) + forgotten + ReleaseCount(cfg, s, steps, m) <= 1
       <==> NeverRepeats(cfg, s, steps, m, forgotten)
    decreases |steps|
  {
    CarriersNonNegative(s.tasks, m);
    if steps != [] {
      hide Next, ReleasesOf, Forgets, Carriers, MilestoneRecorded;
      StepReleases(cfg, s, steps[0], m);
      var now := KnownReleases(s, m) + forgotten + One(ReleasesOf(cfg, s, steps[0], m));
      if now <= 1 {
        AtMostOneMore(cfg, Next(cfg, s, steps[0]), steps[1..], m, forgotten + One(Forgets(cfg, s, steps[0], m)));
      }
    }
  }

  /**
   * A milestone is released at most once in a run if and only if each release of it is made
   * while no row names it, no request carries it and no release of it has been forgotten.
   */
  lemma ReleasedOnce(cfg: Config, s: System, steps: seq<Step>, m: Id)
    requires Initial(s)
    ensures ReleaseCount(cfg, s, steps, m) <= 1 <==> NeverRepeats(cfg, s, steps, m, 0)
  {
    NothingKnown(s, m);
    AtMostOneMore(cfg, s, steps, m, 0);
  }

  /** The guard of one step: a release is a repeat exactly when somebody knows of one or one was forgotten. */
  lemma RepeatsExactly(cfg: Config, s: System, before: seq<Step>, m: Id)
    requires Initial(s)
    ensures var now := Run(cfg, s, before);
            ReleaseCount(cfg, s, before, m) >= 1
            <==> MilestoneRecorded(now.db.payments, m) || Carriers(now.tasks, m) >= 1
                 || Forgotten(cfg, s, before, m) >= 1
  {
    ReleasedHowOften(cfg, s, before, m);
    CarriersNonNegative(Run(cfg, s, before).tasks, m);
  }
}
