/** The worker's handler: the booking jobs, and the effect transaction that claims its ledger row, sends the
    mail, and commits or rolls back.
  */
module Worker {
  import opened Outbox
  import Rows
  import Machine
  import Jobs
  import Database
  import BookingsService

  const BOOKING_EXPIRE_JOB := "bookings.expire-holds"
  const BOOKING_CHECKOUT_RECOVERY_JOB := "bookings.recover-checkouts"
  const BOOKING_REFUND_RECONCILIATION_JOB := "bookings.reconcile-refunds"

  /** The default limits of the three batch jobs. */
  const EXPIRE_LIMIT := 100
  const RECOVER_LIMIT := 25
  const RECONCILE_LIMIT := 100

  predicate BookingJob(name: string) {
    name == BOOKING_EXPIRE_JOB || name == BOOKING_CHECKOUT_RECOVERY_JOB || name == BOOKING_REFUND_RECONCILIATION_JOB
  }

  /** What the mail provider does with one request. */
  datatype Sending = Accepted | AcceptedButLost | Refused

  datatype Outcome = UnknownJob | NoBookings | BatchDone | BatchFailed | Duplicate | Completed | RolledBack

  /** What the payment provider answers the batch jobs. */
  datatype Provider = Provider(
    checkouts: nat -> Rows.Option<Machine.Session>, refunds: Jobs.Selected -> Machine.Reply)

  /** The rows and the end of a booking job. */
  function BatchOf(db: Rows.Db, now: int, name: string, provider: Provider): Jobs.Batch
    requires BookingJob(name)
  {
    if name == BOOKING_EXPIRE_JOB then
      Jobs.ExpireAll(db, now, Jobs.Take(Jobs.Due(db.bookings, now), EXPIRE_LIMIT))
    else if name == BOOKING_CHECKOUT_RECOVERY_JOB then
      Jobs.RecoverablesExist(db, now, |db.bookings|);
      Jobs.RecoverAll(db, Jobs.Take(Jobs.Recoverables(db, now, |db.bookings|), RECOVER_LIMIT), provider.checkouts)
    else
      Jobs.ReconcileAll(db, now, Jobs.TakeSelected(Jobs.Unsettled(db, |db.bookings|), RECONCILE_LIMIT),
                        provider.refunds)
  }

  /** Each job's name runs its batch over at most so many bookings. */
  lemma BatchesExactly(db: Rows.Db, now: int, provider: Provider)
    ensures BatchOf(db, now, "bookings.expire-holds", provider)
         == Jobs.ExpireAll(db, now, Jobs.Take(Jobs.Due(db.bookings, now), 100))
    ensures var all := Jobs.Recoverables(db, now, |db.bookings|);
      && (forall i :: 0 <= i < |Jobs.Take(all, 25)| ==> Jobs.Take(all, 25)[i] < |db.bookings|)
      && BatchOf(db, now, "bookings.recover-checkouts", provider)
         == Jobs.RecoverAll(db, Jobs.Take(all, 25), provider.checkouts)
    ensures BatchOf(db, now, "bookings.reconcile-refunds", provider)
         == Jobs.ReconcileAll(db, now, Jobs.TakeSelected(Jobs.Unsettled(db, |db.bookings|), 100), provider.refunds)
  {
    Jobs.RecoverablesExist(db, now, |db.bookings|);
  }

  class JobWorker {
    const tables: Database.Tables
    const bookings: BookingsService.Bookings?
    var effects: set<JobId>
    var inbox: seq<Mail>

    constructor (tables: Database.Tables, bookings: BookingsService.Bookings?)
      requires bookings != null ==> bookings.tables == tables
      ensures this.tables == tables && this.bookings == bookings
      ensures effects == {} && inbox == []
    {
      this.tables, this.bookings := tables, bookings;
      effects, inbox := {}, [];
    }

    /** A booking job runs its batch and touches neither ledger nor provider. A failed send rolls the ledger
        row back, but the provider keeps what reached it. */
    method Process(job: Job, sending: Sending, now: int, provider: Provider) returns (r: Outcome)
      requires bookings != null ==> bookings.tables == tables
      modifies this, tables
      ensures BookingJob(job.id.name) ==>
        if bookings == null then r == NoBookings && tables.Rows() == old(tables.Rows())
        else
          var batch := BatchOf(old(tables.Rows()), now, job.id.name, provider);
          tables.Rows() == batch.db && r == if batch.stopped then BatchFailed else BatchDone
      ensures !BookingJob(job.id.name) ==>
        r == ProcessOutcome(old(effects), job, sending) && tables.Rows() == old(tables.Rows())
      ensures effects == if r == Completed then old(effects) + {job.id} else old(effects)
      ensures inbox == if (r == Completed || r == RolledBack) && sending != Refused
                       then Receive(old(inbox), job.mail) else old(inbox)
    {
      if BookingJob(job.id.name) {
        r := RunBatch(job.id.name, now, provider);
        return;
      }
      if job.id.name != AUTH_EMAIL_JOB {
        return UnknownJob;
      }
      if job.id in effects {
        return Duplicate;
      }
      var before := effects;
      effects := effects + {job.id};
      if sending != Refused {
        inbox := Receive(inbox, job.mail);
      }
      if sending != Accepted {
        effects := before;
        return RolledBack;
      }
      return Completed;
    }

    method RunBatch(name: string, now: int, provider: Provider) returns (r: Outcome)
      requires BookingJob(name)
      requires bookings != null ==> bookings.tables == tables
      modifies tables
      ensures r == NoBookings || r == BatchDone || r == BatchFailed
      ensures if bookings == null then r == NoBookings && tables.Rows() == old(tables.Rows())
              else
                var batch := BatchOf(old(tables.Rows()), now, name, provider);
                tables.Rows() == batch.db && r == if batch.stopped then BatchFailed else BatchDone
    {
      if bookings == null {
        return NoBookings;
      }
      if name == BOOKING_EXPIRE_JOB {
        var _, _, threw := bookings.ExpireDue(now, EXPIRE_LIMIT);
        return if threw then BatchFailed else BatchDone;
      }
      if name == BOOKING_CHECKOUT_RECOVERY_JOB {
        var _, _ := bookings.RecoverCheckouts(now, RECOVER_LIMIT, provider.checkouts);
      } else {
        var _, _ := bookings.ReconcileRefunds(now, RECONCILE_LIMIT, provider.refunds);
      }
      return BatchDone;
    }
  }

  function ProcessOutcome(effects: set<JobId>, job: Job, sending: Sending): Outcome {
    if job.id.name != AUTH_EMAIL_JOB then UnknownJob
    else if job.id in effects then Duplicate
    else if sending == Accepted then Completed
    else RolledBack
  }

  function ProcessSteps(worker: nat, id: JobId, sending: Sending): seq<Step> {
    match sending
    case Accepted => [Starts(worker, id), Sends(worker), WorkerCommits(worker)]
    case AcceptedButLost => [Starts(worker, id), SendFails(worker, true)]
    case Refused => [Starts(worker, id), SendFails(worker, false)]
  }

  lemma RunOn(s: State, steps: seq<Step>)
    requires steps != []
    ensures Run(s, steps) == Run(Apply(s, steps[0]), steps[1..])
  {
  }

  lemma StartsAlone(s: State, worker: nat, job: Job)
    requires s.workers == map[] && job.id in s.queue && s.queue[job.id] == job
    ensures Apply(s, Starts(worker, job.id)) ==
      if job.id.name == AUTH_EMAIL_JOB && job.id !in s.effects
      then s.(workers := map[worker := Worker(job, false)]) else s
  {
  }

  lemma CompletesAlone(s: State, worker: nat, job: Job)
    requires s.workers == map[worker := Worker(job, false)]
    ensures var s' := Apply(Apply(s, Sends(worker)), WorkerCommits(worker));
      s'.effects == s.effects + {job.id} && s'.inbox == Receive(s.inbox, job.mail) && s'.workers == map[]
  {
    assert Apply(s, Sends(worker)).workers == map[worker := Worker(job, true)];
  }

  lemma FailsAlone(s: State, worker: nat, job: Job, arrived: bool)
    requires s.workers == map[worker := Worker(job, false)]
    ensures var s' := Apply(s, SendFails(worker, arrived));
      && s'.effects == s.effects && s'.workers == map[]
      && s'.inbox == if arrived then Receive(s.inbox, job.mail) else s.inbox
  {
  }

  lemma IdleAlone(s: State, worker: nat, arrived: bool)
    requires s.workers == map[]
    ensures Apply(s, Sends(worker)) == s && Apply(s, WorkerCommits(worker)) == s
    ensures Apply(s, SendFails(worker, arrived)) == s
  {
  }

  lemma RunTwo(s: State, steps: seq<Step>)
    requires |steps| == 2
    ensures Run(s, steps) == Apply(Apply(s, steps[0]), steps[1])
  {
    hide Apply;
    RunOn(s, steps);
    RunOn(Apply(s, steps[0]), steps[1..]);
  }

  /** Run alone, the machine's worker steps leave the ledger and the inbox Process leaves. */
  lemma ProcessIsARun(s: State, worker: nat, job: Job, sending: Sending)
    requires s.workers == map[] && job.id in s.queue && s.queue[job.id] == job
    ensures var s' := Run(s, ProcessSteps(worker, job.id, sending));
      var outcome := ProcessOutcome(s.effects, job, sending);
      && s'.effects == (if outcome == Completed then s.effects + {job.id} else s.effects)
      && s'.inbox == (if (outcome == Completed || outcome == RolledBack) && sending != Refused
                      then Receive(s.inbox, job.mail) else s.inbox)
      && s'.workers == map[]
  {
    hide Apply, Receive;
    var steps := ProcessSteps(worker, job.id, sending);
    StartsAlone(s, worker, job);
    var s1 := Apply(s, steps[0]);
    if job.id.name != AUTH_EMAIL_JOB || job.id in s.effects {
      IdleAlone(s1, worker, sending == AcceptedButLost);
    } else if sending == Accepted {
      CompletesAlone(s1, worker, job);
    } else {
      FailsAlone(s1, worker, job, sending == AcceptedButLost);
    }
    if sending == Accepted {
      RunOn(s, steps);
      assert steps[1..] == [Sends(worker), WorkerCommits(worker)];
      RunTwo(s1, steps[1..]);
    } else {
      RunTwo(s, steps);
    }
  }
}
