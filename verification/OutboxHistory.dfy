/** Where rows, jobs and mails come from: nothing without a committed enqueue, one mail per name and key. */
module OutboxHistory {
  import opened Outbox
  import opened OutboxSafety

  /** A committed enqueue of this name, key and mail. */
  predicate Makes(step: Step, id: JobId, mail: Mail) {
    step.Enqueue? && step.commits && step.id == id && step.mail == mail
  }

  predicate Made(steps: seq<Step>, id: JobId, mail: Mail) {
    exists i :: 0 <= i < |steps| && Makes(steps[i], id, mail)
  }

  lemma {:induction false} MarkKeepsContent(rows: seq<Message>, ids: seq<nat>, verdicts: seq<bool>, r: nat)
    requires |verdicts| <= |ids| && forall i :: 0 <= i < |ids| ==> ids[i] < |rows|
    requires r < |rows|
    ensures Mark(rows, ids, verdicts)[r].id == rows[r].id && Mark(rows, ids, verdicts)[r].mail == rows[r].mail
  {
    if |verdicts| > 0 {
      MarkKeepsContent(rows, ids, verdicts[..|verdicts| - 1], r);
    }
  }

  /** A row after a step was there before, or the step made it. */
  lemma StepMakes(s: State, step: Step, r: nat)
    requires r < |Apply(s, step).rows|
    ensures var row := Apply(s, step).rows[r];
      || (r < |s.rows| && row.id == s.rows[r].id && row.mail == s.rows[r].mail)
      || Makes(step, row.id, row.mail)
  {
    hide Claim, Receive, Locked, Mark;
    if step.RelayCommits? && ReadyToCommit(s, step.relay) {
      MarkKeepsContent(s.rows, s.relays[step.relay].claimed, s.relays[step.relay].verdicts, r);
    }
  }

  lemma {:induction false} RunMakes(s: State, steps: seq<Step>, r: nat)
    requires r < |Run(s, steps).rows|
    ensures var row := Run(s, steps).rows[r];
      || (r < |s.rows| && row.id == s.rows[r].id && row.mail == s.rows[r].mail)
      || Made(steps, row.id, row.mail)
    decreases |steps|
  {
    hide Apply, Makes;
    if steps != [] {
      RunMakes(Apply(s, steps[0]), steps[1..], r);
      var row := Run(s, steps).rows[r];
      if Made(steps[1..], row.id, row.mail) {
        var i :| 0 <= i < |steps| - 1 && Makes(steps[1..][i], row.id, row.mail);
        assert Makes(steps[i + 1], row.id, row.mail);
      } else {
        StepMakes(s, steps[0], r);
      }
    }
  }

  /** On every run each outbox row was made by a committed enqueue of its name, key and mail. */
  lemma RowsAreEnqueued(now: int, steps: seq<Step>, r: nat)
    requires r < |Reached(now, steps).rows|
    ensures Made(steps, Reached(now, steps).rows[r].id, Reached(now, steps).rows[r].mail)
  {
    RunMakes(Initial(now), steps, r);
  }

  // --- enqueues that roll back ---

  predicate AllRollBack(steps: seq<Step>, id: JobId) {
    forall i :: 0 <= i < |steps| && steps[i].Enqueue? && steps[i].id == id ==> !steps[i].commits
  }

  lemma NothingStored(now: int, steps: seq<Step>, id: JobId)
    requires AllRollBack(steps, id)
    ensures !Stored(Reached(now, steps).rows, id)
  {
    hide Run;
    var rows := Reached(now, steps).rows;
    forall r | 0 <= r < |rows| ensures rows[r].id != id {
      RowsAreEnqueued(now, steps, r);
    }
  }

  /** Through any crashes, redeliveries and replays: if every enqueue of a name and key rolls back, no row and
      no job of it ever exists, no worker holds it, no mail goes out for it, no effect commits for it, and
      every delivered mail is the mail of some other job that was sent.
    */
  lemma RolledBackNeverSends(now: int, steps: seq<Step>, id: JobId)
    requires AllRollBack(steps, id)
    ensures var s := Reached(now, steps);
      && !Stored(s.rows, id)
      && id !in s.queue && (forall job :: job in s.added ==> job.id != id)
      && (forall w :: w in s.workers ==> s.workers[w].job.id != id)
      && s.sends[id] == 0 && s.commits[id] == 0 && id !in s.effects
      && forall i :: 0 <= i < |s.inbox| ==>
           exists job :: job in s.added && job.id != id && job.mail == s.inbox[i] && s.sends[job.id] > 0
  {
    ReachedInv(now, steps);
    NothingStored(now, steps, id);
    hide Run;
    var s := Reached(now, steps);
    forall job | job in s.added ensures job.id != id {
      assert Backed(s.rows, job);
    }
    forall i | 0 <= i < |s.inbox|
      ensures exists job :: job in s.added && job.id != id && job.mail == s.inbox[i] && s.sends[job.id] > 0
    {
      assert MailFrom(s.added, s.sends, s.inbox[i]);
    }
  }

  // --- one mail per name and key ---

  /** Whatever was sent is in the inbox. */
  ghost predicate SentOk(s: State) {
    forall id: JobId :: s.sends[id] > 0 ==> Delivered(s, id)
  }

  ghost predicate Grown(s: State, s': State) {
    s.added <= s'.added && forall key :: InInbox(s.inbox, key) ==> InInbox(s'.inbox, key)
  }

  lemma DeliveredStays(s: State, s': State, id: JobId)
    requires Delivered(s, id) && Grown(s, s')
    ensures Delivered(s', id)
  {
    var job :| job in s.added && job.id == id && InInbox(s.inbox, job.mail.key);
    assert job in s'.added && InInbox(s'.inbox, job.mail.key);
  }

  lemma ReceiveGrows(inbox: seq<Mail>, mail: Mail)
    ensures InInbox(Receive(inbox, mail), mail.key)
    ensures forall key :: InInbox(inbox, key) ==> InInbox(Receive(inbox, mail), key)
  {
    var inbox' := Receive(inbox, mail);
    forall key | InInbox(inbox, key) ensures InInbox(inbox', key) {
      var i :| 0 <= i < |inbox| && inbox[i].key == key;
      assert inbox'[i].key == key;
    }
    if !InInbox(inbox, mail.key) {
      assert inbox'[|inbox|].key == mail.key;
    }
  }

  lemma OthersSendNothing(s: State, step: Step)
    requires !step.Sends? && !step.SendFails?
    ensures var s' := Apply(s, step); s'.inbox == s.inbox && s'.sends == s.sends && s.added <= s'.added
  {
    hide Claim, Locked, ReadyToCommit, Failed, Mark;
  }

  /** A step sends at most the job its worker holds, and then that mail is in the inbox. */
  lemma StepSends(s: State, step: Step, id: JobId)
    requires WorkersOk(s)
    ensures Grown(s, Apply(s, step))
    ensures Apply(s, step).sends[id] > s.sends[id] ==> Delivered(Apply(s, step), id)
  {
    hide Receive, InInbox;
    if !step.Sends? && !step.SendFails? {
      hide Apply;
      OthersSendNothing(s, step);
    } else if step.worker in s.workers {
      var job := s.workers[step.worker].job;
      ReceiveGrows(s.inbox, job.mail);
      assert job in s.added;
    }
  }

  lemma StepKeepsSent(s: State, step: Step)
    requires Inv(s) && SentOk(s)
    ensures SentOk(Apply(s, step))
  {
    hide Apply, FeedOk, LedgerOk, InboxOk, Delivered, Grown;
    forall id: JobId | Apply(s, step).sends[id] > 0 ensures Delivered(Apply(s, step), id) {
      StepSends(s, step, id);
      if Apply(s, step).sends[id] <= s.sends[id] {
        DeliveredStays(s, Apply(s, step), id);
      }
    }
  }

  lemma {:induction false} RunKeepsSent(s: State, steps: seq<Step>)
    requires Inv(s) && SentOk(s)
    ensures SentOk(Run(s, steps))
    decreases |steps|
  {
    hide Inv, SentOk, Apply;
    if steps != [] {
      StepKeeps(s, steps[0]);
      StepKeepsSent(s, steps[0]);
      RunKeepsSent(Apply(s, steps[0]), steps[1..]);
    }
  }

  lemma ReachedSent(now: int, steps: seq<Step>, id: JobId)
    ensures Reached(now, steps).sends[id] > 0 ==> Delivered(Reached(now, steps), id)
  {
    InitialInv(now);
    RunKeepsSent(Initial(now), steps);
    hide Run, Delivered;
  }

  /** At most one mail of a key. */
  predicate AtMostOne(inbox: seq<Mail>, key: string) {
    forall i, j :: 0 <= i < j < |inbox| ==> inbox[i].key != key || inbox[j].key != key
  }

  lemma JobHasRow(s: State, job: Job, r: nat)
    requires Inv(s) && job in s.added && r < |s.rows| && s.rows[r].id == job.id
    ensures job.mail == s.rows[r].mail
  {
    hide WorkOk, RelaysOk;
    assert Backed(s.rows, job);
  }

  lemma InboxOnce(s: State, key: string)
    requires Inv(s)
    ensures AtMostOne(s.inbox, key)
  {
    hide FeedOk, WorkersOk, LedgerOk;
  }

  /** The one mail of a name and key: all its jobs carry the mail of its one row, and once anything was sent
      for it that mail's key is in the inbox, exactly once.
    */
  lemma OneMailPerJob(now: int, steps: seq<Step>, id: JobId, r: nat)
    requires r < |Reached(now, steps).rows| && Reached(now, steps).rows[r].id == id
    ensures var s := Reached(now, steps); var mail := s.rows[r].mail;
      && (forall job :: job in s.added && job.id == id ==> job.mail == mail)
      && (s.sends[id] > 0 ==> InInbox(s.inbox, mail.key))
      && AtMostOne(s.inbox, mail.key)
  {
    hide Reached, Inv, AtMostOne, InInbox, SentOk;
    var s := Reached(now, steps);
    ReachedInv(now, steps);
    ReachedSent(now, steps, id);
    InboxOnce(s, s.rows[r].mail.key);
    forall job | job in s.added && job.id == id ensures job.mail == s.rows[r].mail {
      JobHasRow(s, job, r);
    }
  }

  /** Producers put the key of the job into its mail, as the identity module does. */
  predicate MailsKeyed(steps: seq<Step>) {
    forall i :: 0 <= i < |steps| && steps[i].Enqueue? ==> steps[i].mail.key == steps[i].id.key
  }

  lemma JobsAreKeyed(now: int, steps: seq<Step>, job: Job)
    requires MailsKeyed(steps) && job in Reached(now, steps).added
    ensures job.mail.key == job.id.key
  {
    ReachedInv(now, steps);
    hide Run;
    var s := Reached(now, steps);
    assert Backed(s.rows, job);
    var r :| 0 <= r < |s.rows| && s.rows[r].id == job.id && s.rows[r].mail == job.mail;
    RowsAreEnqueued(now, steps, r);
  }

  lemma MailOfKey(now: int, steps: seq<Step>, i: nat)
    requires MailsKeyed(steps) && i < |Reached(now, steps).inbox|
    ensures var s := Reached(now, steps); var id := JobId(AUTH_EMAIL_JOB, s.inbox[i].key);
      s.sends[id] > 0 && Backed(s.rows, Job(id, s.inbox[i]))
  {
    ReachedInv(now, steps);
    var s := Reached(now, steps);
    assert MailFrom(s.added, s.sends, s.inbox[i]);
    var job :| job in s.added && job.mail == s.inbox[i] && s.sends[job.id] > 0;
    assert Backed(s.rows, job);
    hide Run, Inv, Backed, MailsKeyed;
    JobsAreKeyed(now, steps, job);
    SentIsMailJob(now, steps, job.id);
    assert job == Job(JobId(AUTH_EMAIL_JOB, s.inbox[i].key), s.inbox[i]);
  }

  lemma SentHasMail(now: int, steps: seq<Step>, id: JobId)
    requires MailsKeyed(steps) && Reached(now, steps).sends[id] > 0
    ensures InInbox(Reached(now, steps).inbox, id.key)
  {
    InitialInv(now);
    RunKeepsSent(Initial(now), steps);
    hide Run, Inv, MailsKeyed, InInbox;
    var s := Reached(now, steps);
    assert Delivered(s, id);
    var job :| job in s.added && job.id == id && InInbox(s.inbox, job.mail.key);
    JobsAreKeyed(now, steps, job);
  }

  /** With such producers, over every run: the provider holds a mail under a key exactly when the mail job of
      that key was sent, it holds one only, and it is that job's mail.
    */
  lemma OneMailPerNameAndKey(now: int, steps: seq<Step>, key: string)
    requires MailsKeyed(steps)
    ensures var s := Reached(now, steps); var id := JobId(AUTH_EMAIL_JOB, key);
      && (InInbox(s.inbox, key) <==> s.sends[id] > 0)
      && AtMostOne(s.inbox, key)
      && forall i :: 0 <= i < |s.inbox| && s.inbox[i].key == key ==> Backed(s.rows, Job(id, s.inbox[i]))
  {
    var s, id := Reached(now, steps), JobId(AUTH_EMAIL_JOB, key);
    ReachedInv(now, steps);
    InboxOnce(s, key);
    hide Run, Inv, MailsKeyed, AtMostOne, Backed, Reached;
    forall i | 0 <= i < |s.inbox| && s.inbox[i].key == key
      ensures s.sends[id] > 0 && Backed(s.rows, Job(id, s.inbox[i]))
    {
      MailOfKey(now, steps, i);
    }
    if s.sends[id] > 0 {
      SentHasMail(now, steps, id);
    }
  }

  /** Only mail jobs are sent. */
  ghost predicate OnlyMail(s: State) {
    forall id: JobId :: s.sends[id] > 0 ==> id.name == AUTH_EMAIL_JOB
  }

  lemma StepKeepsOnlyMail(s: State, step: Step)
    requires WorkersOk(s) && OnlyMail(s)
    ensures OnlyMail(Apply(s, step))
  {
    hide Claim, Locked, Receive, InInbox, ReadyToCommit;
  }

  lemma {:induction false} RunKeepsOnlyMail(s: State, steps: seq<Step>)
    requires Inv(s) && OnlyMail(s)
    ensures OnlyMail(Run(s, steps))
    decreases |steps|
  {
    hide Inv, OnlyMail, Apply;
    if steps != [] {
      StepKeeps(s, steps[0]);
      assert WorkersOk(s) by { InvHasWorkers(s); }
      StepKeepsOnlyMail(s, steps[0]);
      RunKeepsOnlyMail(Apply(s, steps[0]), steps[1..]);
    }
  }

  lemma InvHasWorkers(s: State)
    requires Inv(s)
    ensures WorkersOk(s)
  {
  }

  lemma SentIsMailJob(now: int, steps: seq<Step>, id: JobId)
    requires Reached(now, steps).sends[id] > 0
    ensures id.name == AUTH_EMAIL_JOB
  {
    InitialInv(now);
    RunKeepsOnlyMail(Initial(now), steps);
  }
}
