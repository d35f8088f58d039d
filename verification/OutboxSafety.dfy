/** End to end through crashes, redelivery and replays: at most one effect per key, no mail without a
    committed row, no row marked before its job was added.
  */
module OutboxSafety {
  import opened Outbox

  ghost predicate Backed(rows: seq<Message>, job: Job) {
    exists i :: 0 <= i < |rows| && rows[i].id == job.id && rows[i].mail == job.mail
  }

  ghost predicate RowsOk(rows: seq<Message>, added: set<Job>, failures: multiset<nat>) {
    && (forall i, j :: 0 <= i < j < |rows| ==> rows[i].id != rows[j].id)
    && (forall i :: 0 <= i < |rows| && rows[i].dispatched ==> Job(rows[i].id, rows[i].mail) in added)
    && (forall i :: 0 <= i < |rows| ==> rows[i].attempts == failures[i])
    && (forall i: nat :: i >= |rows| ==> failures[i] == 0)
  }

  ghost predicate RelayOk(rows: seq<Message>, added: set<Job>, r: Relay) {
    && |r.verdicts| <= |r.claimed|
    && (forall i :: 0 <= i < |r.claimed| ==> r.claimed[i] < |rows| && !rows[r.claimed[i]].dispatched)
    && (forall i, j :: 0 <= i < j < |r.claimed| ==> r.claimed[i] != r.claimed[j])
    && (forall i :: 0 <= i < |r.verdicts| && r.verdicts[i] ==>
          Job(rows[r.claimed[i]].id, rows[r.claimed[i]].mail) in added)
  }

  ghost predicate Apart(a: Relay, b: Relay) {
    forall i :: i in a.claimed ==> i !in b.claimed
  }

  ghost predicate RelaysOk(rows: seq<Message>, added: set<Job>, relays: map<nat, Relay>) {
    && (forall r :: r in relays ==> RelayOk(rows, added, relays[r]))
    && (forall r, q :: r in relays && q in relays && r != q ==> Apart(relays[r], relays[q]))
  }

  ghost predicate QueueOk(rows: seq<Message>, queue: map<JobId, Job>, added: set<Job>) {
    && (forall id :: id in queue ==> queue[id].id == id && queue[id] in added)
    && (forall job :: job in added ==> Backed(rows, job))
  }

  ghost predicate WorkersOk(s: State) {
    && (forall w :: w in s.workers ==>
          && s.workers[w].job in s.added
          && s.workers[w].job.id !in s.effects
          && s.workers[w].job.id.name == AUTH_EMAIL_JOB
          && (s.workers[w].sent ==> InInbox(s.inbox, s.workers[w].job.mail.key)))
    && (forall w, v :: w in s.workers && v in s.workers && w != v ==>
          s.workers[w].job.id != s.workers[v].job.id)
  }

  /** Whether an open worker transaction has already sent this job's mail. */
  predicate OpenSent(workers: map<nat, Worker>, id: JobId) {
    exists w :: w in workers && workers[w].job.id == id && workers[w].sent
  }

  /** Every send is accounted for: committed, lost to a rollback, or still open. */
  ghost predicate LedgerOk(s: State) {
    && (forall id: JobId :: s.commits[id] == if id in s.effects then 1 else 0)
    && (forall id: JobId :: s.sends[id] == s.commits[id] + s.lost[id] + if OpenSent(s.workers, id) then 1 else 0)
  }

  ghost predicate Delivered(s: State, id: JobId) {
    exists job :: job in s.added && job.id == id && InInbox(s.inbox, job.mail.key)
  }

  ghost predicate MailFrom(added: set<Job>, sends: multiset<JobId>, mail: Mail) {
    exists job :: job in added && job.mail == mail && sends[job.id] > 0
  }

  ghost predicate InboxOk(s: State) {
    && (forall i, j :: 0 <= i < j < |s.inbox| ==> s.inbox[i].key != s.inbox[j].key)
    && (forall i :: 0 <= i < |s.inbox| ==> MailFrom(s.added, s.sends, s.inbox[i]))
    && (forall id :: id in s.effects ==> Delivered(s, id))
    && (forall id: JobId :: s.sends[id] > 0 ==> exists job :: job in s.added && job.id == id)
  }

  /** The producer side of the invariant. */
  ghost predicate FeedOk(rows: seq<Message>, relays: map<nat, Relay>, queue: map<JobId, Job>,
                         added: set<Job>, failures: multiset<nat>) {
    RowsOk(rows, added, failures) && RelaysOk(rows, added, relays) && QueueOk(rows, queue, added)
  }

  /** The consumer side of the invariant. */
  ghost predicate WorkOk(s: State) {
    WorkersOk(s) && LedgerOk(s) && InboxOk(s)
  }

  ghost predicate Inv(s: State) {
    FeedOk(s.rows, s.relays, s.queue, s.added, s.failures) && WorkOk(s)
  }

  lemma InitialInv(now: int)
    ensures Inv(Initial(now))
  {
  }

  // --- producers ---

  ghost predicate Extends(rows: seq<Message>, rows': seq<Message>) {
    |rows| <= |rows'| && forall i :: 0 <= i < |rows| ==> rows'[i] == rows[i]
  }

  lemma RelaysCarry(rows: seq<Message>, added: set<Job>, rows': seq<Message>, added': set<Job>, relays: map<nat, Relay>)
    requires RelaysOk(rows, added, relays) && Extends(rows, rows') && added <= added'
    ensures RelaysOk(rows', added', relays)
  {
    forall r | r in relays ensures RelayOk(rows', added', relays[r]) {
      assert RelayOk(rows, added, relays[r]);
    }
  }

  lemma BackedCarries(rows: seq<Message>, rows': seq<Message>, queue: map<JobId, Job>, added: set<Job>)
    requires QueueOk(rows, queue, added) && |rows| <= |rows'|
    requires forall i :: 0 <= i < |rows| ==> rows'[i].id == rows[i].id && rows'[i].mail == rows[i].mail
    ensures QueueOk(rows', queue, added)
  {
    forall job | job in added ensures Backed(rows', job) {
      assert Backed(rows, job);
      var i :| 0 <= i < |rows| && rows[i].id == job.id && rows[i].mail == job.mail;
      assert rows'[i].id == job.id && rows'[i].mail == job.mail;
    }
  }

  lemma EnqueueKeeps(s: State, id: JobId, mail: Mail, availableAt: int)
    requires Inv(s)
    ensures Inv(s.(rows := EnqueueRows(s.rows, s.now, id, mail, availableAt)))
  {
    hide WorkOk;
    var rows' := EnqueueRows(s.rows, s.now, id, mail, availableAt);
    assert Inv(s.(rows := rows')) by {
      hide RowsOk, RelaysOk, QueueOk;
      EnqueuedRowsOk(s.rows, s.added, s.failures, s.now, id, mail, availableAt);
      RelaysCarry(s.rows, s.added, rows', s.added, s.relays);
      BackedCarries(s.rows, rows', s.queue, s.added);
      WorkCarries(s, s.(rows := rows'));
    }
  }

  lemma EnqueuedRowsOk(rows: seq<Message>, added: set<Job>, failures: multiset<nat>,
                       now: int, id: JobId, mail: Mail, availableAt: int)
    requires RowsOk(rows, added, failures)
    ensures RowsOk(EnqueueRows(rows, now, id, mail, availableAt), added, failures)
  {
  }

  /** Nothing the workers rely on changed: no added job was forgotten. */
  lemma WorkCarries(s: State, s': State)
    requires WorkOk(s) && s.added <= s'.added
    requires s' == s.(now := s'.now, rows := s'.rows, relays := s'.relays, queue := s'.queue, added := s'.added,
                      failures := s'.failures)
    ensures WorkOk(s')
  {
    forall i | 0 <= i < |s.inbox| ensures MailFrom(s'.added, s'.sends, s'.inbox[i]) {
      assert MailFrom(s.added, s.sends, s.inbox[i]);
    }
    forall id | id in s.effects ensures Delivered(s', id) {
      assert Delivered(s, id);
    }
  }

  // --- relays ---

  lemma ClaimedApart(s: State, batch: nat)
    requires RelaysOk(s.rows, s.added, s.relays)
    ensures var claimed := Relay(Claim(s.rows, s.now, Locked(s.relays), batch), []);
      && RelayOk(s.rows, s.added, claimed)
      && forall r :: r in s.relays ==> Apart(claimed, s.relays[r]) && Apart(s.relays[r], claimed)
  {
    ClaimIsFirst(s.rows, s.now, Locked(s.relays), batch);
    hide Claim;
    forall r, i | r in s.relays && i in s.relays[r].claimed ensures i in Locked(s.relays) {
    }
  }

  lemma ClaimKeeps(s: State, relay: nat, batch: nat)
    requires Inv(s)
    ensures Inv(Apply(s, Claims(relay, batch)))
  {
    hide WorkOk, RowsOk, QueueOk, RelayOk, Claim;
    if relay !in s.relays {
      ClaimedApart(s, batch);
      WorkCarries(s, Apply(s, Claims(relay, batch)));
    }
  }

  lemma AddKeeps(s: State, job: Job)
    requires Inv(s) && Backed(s.rows, job)
    ensures Inv(Add(s, job)) && Add(s, job).relays == s.relays && Add(s, job).rows == s.rows
    ensures job in Add(s, job).added
  {
    hide WorkOk, RowsOk, RelaysOk;
    var s' := Add(s, job);
    QueuedIsSame(s, job);
    RowsCarry(s.rows, s.added, s'.added, s.failures);
    RelaysCarry(s.rows, s.added, s.rows, s'.added, s.relays);
    WorkCarries(s, s');
  }

  lemma RowsCarry(rows: seq<Message>, added: set<Job>, added': set<Job>, failures: multiset<nat>)
    requires RowsOk(rows, added, failures) && added <= added'
    ensures RowsOk(rows, added', failures)
  {
  }

  /** One row per identifier, so a queued identifier carries the job the row would add. */
  lemma QueuedIsSame(s: State, job: Job)
    requires RowsOk(s.rows, s.added, s.failures) && QueueOk(s.rows, s.queue, s.added) && Backed(s.rows, job)
    ensures job.id in s.queue ==> s.queue[job.id] == job && job in s.added
  {
    if job.id in s.queue {
      assert Backed(s.rows, s.queue[job.id]);
    }
  }

  lemma VerdictKeeps(s: State, relay: nat, ok: bool)
    requires Inv(s) && HasNext(s, relay) && (ok ==> NextJob(s, relay) in s.added)
    ensures Inv(Verdict(s, relay, ok))
  {
    hide WorkOk, RowsOk, QueueOk;
    var s' := Verdict(s, relay, ok);
    assert RelayOk(s.rows, s.added, s.relays[relay]);
    assert RelayOk(s.rows, s.added, s'.relays[relay]);
    WorkCarries(s, s');
  }

  lemma NextIsBacked(s: State, relay: nat)
    requires HasNext(s, relay)
    ensures Backed(s.rows, NextJob(s, relay))
  {
  }

  lemma DispatchKeeps(s: State, relay: nat, ok: bool, adds: bool)
    requires Inv(s) && HasNext(s, relay) && (ok ==> adds)
    ensures Inv(Verdict(if adds then Add(s, NextJob(s, relay)) else s, relay, ok))
  {
    hide Inv, Backed, Add;
    NextIsBacked(s, relay);
    AddKeeps(s, NextJob(s, relay));
    VerdictKeeps(if adds then Add(s, NextJob(s, relay)) else s, relay, ok);
  }

  lemma {:induction false} FailedExactly(ids: seq<nat>, verdicts: seq<bool>, i: nat)
    requires |verdicts| <= |ids| && forall j, k :: 0 <= j < k < |ids| ==> ids[j] != ids[k]
    ensures Failed(ids, verdicts)[i] ==
      if exists k :: 0 <= k < |verdicts| && ids[k] == i && !verdicts[k] then 1 else 0
  {
    if |verdicts| > 0 {
      FailedExactly(ids, verdicts[..|verdicts| - 1], i);
      var k := |verdicts| - 1;
      assert verdicts == verdicts[..k] + [verdicts[k]];
      if j :| 0 <= j < k && ids[j] == i && !verdicts[j] {
        assert verdicts[..k][j] == verdicts[j];
      }
    }
  }

  /** What a relay's commit does to one row. */
  lemma MarkedRow(rows: seq<Message>, r: Relay, i: nat)
    requires |r.verdicts| == |r.claimed| && i < |rows|
    requires forall j :: 0 <= j < |r.claimed| ==> r.claimed[j] < |rows|
    requires forall j, k :: 0 <= j < k < |r.claimed| ==> r.claimed[j] != r.claimed[k]
    ensures var rows' := Mark(rows, r.claimed, r.verdicts);
      && rows'[i] == rows[i].(dispatched := rows'[i].dispatched, attempts := rows'[i].attempts)
      && rows'[i].attempts == rows[i].attempts + Failed(r.claimed, r.verdicts)[i]
      && (i !in r.claimed ==> rows'[i] == rows[i])
      && (rows'[i].dispatched <==>
            rows[i].dispatched || exists k :: 0 <= k < |r.verdicts| && r.claimed[k] == i && r.verdicts[k])
  {
    MarkExactly(rows, r.claimed, r.verdicts);
    FailedExactly(r.claimed, r.verdicts, i);
    assert r.claimed[..|r.verdicts|] == r.claimed;
    if i in r.claimed {
      var k :| 0 <= k < |r.claimed| && r.claimed[k] == i;
      assert Mark(rows, r.claimed, r.verdicts)[r.claimed[k]] == Marked(rows[r.claimed[k]], r.verdicts[k]);
    }
  }

  lemma CommitRows(s: State, relay: nat)
    requires FeedOk(s.rows, s.relays, s.queue, s.added, s.failures) && ReadyToCommit(s, relay)
    ensures var r := s.relays[relay];
      RowsOk(Mark(s.rows, r.claimed, r.verdicts), s.added, s.failures + Failed(r.claimed, r.verdicts))
  {
    var r := s.relays[relay];
    var rows' := Mark(s.rows, r.claimed, r.verdicts);
    assert RelayOk(s.rows, s.added, r);
    hide RelaysOk, QueueOk, Mark, Failed;
    forall i | 0 <= i < |rows'|
      ensures rows'[i].id == s.rows[i].id
      ensures rows'[i].dispatched ==> Job(rows'[i].id, rows'[i].mail) in s.added
      ensures rows'[i].attempts == (s.failures + Failed(r.claimed, r.verdicts))[i]
    {
      MarkedRow(s.rows, r, i);
    }
    forall i: nat | i >= |rows'| ensures Failed(r.claimed, r.verdicts)[i] == 0 {
      FailedExactly(r.claimed, r.verdicts, i);
    }
  }

  lemma CommitRelays(s: State, relay: nat)
    requires RelaysOk(s.rows, s.added, s.relays) && ReadyToCommit(s, relay)
    ensures var r := s.relays[relay];
      RelaysOk(Mark(s.rows, r.claimed, r.verdicts), s.added, s.relays - {relay})
  {
    var r := s.relays[relay];
    var rows' := Mark(s.rows, r.claimed, r.verdicts);
    assert RelayOk(s.rows, s.added, r);
    hide Mark;
    forall q | q in s.relays && q != relay ensures RelayOk(rows', s.added, s.relays[q]) {
      assert RelayOk(s.rows, s.added, s.relays[q]);
      assert Apart(s.relays[q], r);
      forall k | 0 <= k < |s.relays[q].claimed|
        ensures rows'[s.relays[q].claimed[k]] == s.rows[s.relays[q].claimed[k]]
      {
        assert s.relays[q].claimed[k] in s.relays[q].claimed;
        MarkedRow(s.rows, r, s.relays[q].claimed[k]);
      }
    }
  }

  lemma CommitKeeps(s: State, relay: nat)
    requires Inv(s) && ReadyToCommit(s, relay)
    ensures Inv(Apply(s, RelayCommits(relay)))
  {
    var s' := Apply(s, RelayCommits(relay));
    CommitRows(s, relay);
    CommitRelays(s, relay);
    CommitBacks(s, relay);
    hide WorkOk, RowsOk, RelaysOk, QueueOk, Mark, Failed;
    WorkCarries(s, s');
  }

  lemma CommitBacks(s: State, relay: nat)
    requires RelaysOk(s.rows, s.added, s.relays) && QueueOk(s.rows, s.queue, s.added) && ReadyToCommit(s, relay)
    ensures QueueOk(Mark(s.rows, s.relays[relay].claimed, s.relays[relay].verdicts), s.queue, s.added)
  {
    var r := s.relays[relay];
    var rows' := Mark(s.rows, r.claimed, r.verdicts);
    assert RelayOk(s.rows, s.added, r);
    hide Mark, Failed, QueueOk, RelaysOk;
    forall i | 0 <= i < |s.rows| ensures rows'[i].id == s.rows[i].id && rows'[i].mail == s.rows[i].mail {
      MarkedRow(s.rows, r, i);
    }
    BackedCarries(s.rows, rows', s.queue, s.added);
  }

  lemma FeedDrops(s: State, s': State)
    requires Inv(s) && s' == s.(now := s'.now, relays := s'.relays, queue := s'.queue)
    requires (forall r :: r in s'.relays ==> r in s.relays && s'.relays[r] == s.relays[r])
    requires (forall id :: id in s'.queue ==> id in s.queue && s'.queue[id] == s.queue[id])
    ensures Inv(s')
  {
    hide WorkOk, RowsOk, RelayOk;
    WorkCarries(s, s');
  }

  // --- workers ---

  lemma StartWorkers(s: State, worker: nat, id: JobId)
    requires WorkersOk(s) && QueueOk(s.rows, s.queue, s.added)
    requires worker !in s.workers && id in s.queue && id.name == AUTH_EMAIL_JOB
    requires id !in s.effects && !Held(s, id)
    ensures WorkersOk(s.(workers := s.workers[worker := Worker(s.queue[id], false)]))
  {
  }

  lemma StartUnsent(s: State, worker: nat, job: Job)
    requires LedgerOk(s) && worker !in s.workers
    ensures LedgerOk(s.(workers := s.workers[worker := Worker(job, false)]))
  {
    var workers' := s.workers[worker := Worker(job, false)];
    forall i: JobId ensures OpenSent(workers', i) == OpenSent(s.workers, i) {
      if w :| w in s.workers && s.workers[w].job.id == i && s.workers[w].sent {
        assert w in workers' && workers'[w] == s.workers[w];
      }
    }
  }

  lemma StartKeeps(s: State, worker: nat, id: JobId)
    requires Inv(s)
    ensures Inv(Apply(s, Starts(worker, id)))
  {
    hide RowsOk, RelaysOk, QueueOk, WorkersOk, LedgerOk, InboxOk;
    var s' := Apply(s, Starts(worker, id));
    if s' != s {
      StartWorkers(s, worker, id);
      StartUnsent(s, worker, s.queue[id]);
      InboxSame(s, s');
    }
  }

  lemma InboxSame(s: State, s': State)
    requires InboxOk(s) && s'.added == s.added && s'.inbox == s.inbox && s'.sends == s.sends
    requires forall id :: id in s'.effects ==> id in s.effects || Delivered(s, id)
    ensures InboxOk(s')
  {
    forall id | id in s'.effects ensures Delivered(s', id) {
      assert Delivered(s, id);
    }
  }

  /** Sending records the mail once per key and counts the send. */
  lemma ReceiveKeeps(s: State, s': State, job: Job)
    requires InboxOk(s) && job in s.added
    requires s'.inbox == Receive(s.inbox, job.mail) && s'.sends == s.sends + multiset{job.id}
    requires s'.added == s.added && s'.effects == s.effects
    ensures InboxOk(s') && InInbox(s'.inbox, job.mail.key)
  {
    forall key | InInbox(s.inbox, key) ensures InInbox(s'.inbox, key) {
      var i :| 0 <= i < |s.inbox| && s.inbox[i].key == key;
      assert s'.inbox[i] == s.inbox[i];
    }
    forall i | 0 <= i < |s'.inbox| ensures MailFrom(s'.added, s'.sends, s'.inbox[i]) {
      if i < |s.inbox| {
        assert MailFrom(s.added, s.sends, s.inbox[i]);
      }
    }
    forall id | id in s.effects ensures Delivered(s', id) {
      assert Delivered(s, id);
    }
    if !InInbox(s.inbox, job.mail.key) {
      assert s'.inbox[|s.inbox|] == job.mail;
    }
  }

  lemma OthersUnsent(s: State, workers': map<nat, Worker>, worker: nat)
    requires WorkersOk(s) && worker in s.workers
    requires forall w :: w != worker ==> (w in workers' <==> w in s.workers)
    requires forall w :: w != worker && w in workers' ==> workers'[w] == s.workers[w]
    requires worker in workers' ==> workers'[worker].job == s.workers[worker].job
    ensures var job := s.workers[worker].job;
      && (forall id: JobId :: id != job.id ==> OpenSent(workers', id) == OpenSent(s.workers, id))
      && (OpenSent(s.workers, job.id) <==> s.workers[worker].sent)
      && (OpenSent(workers', job.id) <==> worker in workers' && workers'[worker].sent)
  {
    forall id: JobId | id != s.workers[worker].job.id ensures OpenSent(workers', id) == OpenSent(s.workers, id) {
      if w :| w in s.workers && s.workers[w].job.id == id && s.workers[w].sent {
        assert w in workers' && workers'[w] == s.workers[w];
      }
      if w :| w in workers' && workers'[w].job.id == id && workers'[w].sent {
        assert w in s.workers && s.workers[w] == workers'[w];
      }
    }
  }

  lemma InboxGrows(s: State, s': State)
    requires |s.inbox| <= |s'.inbox| && forall i :: 0 <= i < |s.inbox| ==> s'.inbox[i] == s.inbox[i]
    ensures forall key :: InInbox(s.inbox, key) ==> InInbox(s'.inbox, key)
  {
    forall key | InInbox(s.inbox, key) ensures InInbox(s'.inbox, key) {
      var i :| 0 <= i < |s.inbox| && s.inbox[i].key == key;
      assert s'.inbox[i].key == key;
    }
  }

  /** The worker moved on or closed; the others are as they were. */
  lemma WorkersMove(s: State, s': State, worker: nat)
    requires WorkersOk(s) && worker in s.workers && s'.added == s.added
    requires |s.inbox| <= |s'.inbox| && forall i :: 0 <= i < |s.inbox| ==> s'.inbox[i] == s.inbox[i]
    requires var job := s.workers[worker].job;
      || (s'.workers == s.workers - {worker} && (s'.effects == s.effects || s'.effects == s.effects + {job.id}))
      || (s'.workers == s.workers[worker := Worker(job, true)] && InInbox(s'.inbox, job.mail.key)
          && s'.effects == s.effects)
    ensures WorkersOk(s')
  {
    InboxGrows(s, s');
  }

  /** Only the worker's own key moved in the ledger, and it still adds up. */
  lemma LedgerMoves(s: State, s': State, worker: nat)
    requires LedgerOk(s) && WorkersOk(s) && worker in s.workers
    requires forall w :: w != worker ==> (w in s'.workers <==> w in s.workers)
    requires forall w :: w != worker && w in s'.workers ==> s'.workers[w] == s.workers[w]
    requires worker in s'.workers ==> s'.workers[worker].job == s.workers[worker].job
    requires var id := s.workers[worker].job.id;
      && (forall i: JobId :: i != id ==>
            && s'.commits[i] == s.commits[i] && s'.sends[i] == s.sends[i] && s'.lost[i] == s.lost[i]
            && (i in s'.effects <==> i in s.effects))
      && s'.commits[id] == (if id in s'.effects then 1 else 0)
      && s'.sends[id] + s.commits[id] + s.lost[id] + (if s.workers[worker].sent then 1 else 0)
         == s.sends[id] + s'.commits[id] + s'.lost[id]
            + (if worker in s'.workers && s'.workers[worker].sent then 1 else 0)
    ensures LedgerOk(s')
  {
    OthersUnsent(s, s'.workers, worker);
    hide WorkersOk, OpenSent;
  }

  lemma OwnKeyOpen(s: State, worker: nat)
    requires WorkersOk(s) && LedgerOk(s) && worker in s.workers
    ensures s.workers[worker].job.id !in s.effects && s.commits[s.workers[worker].job.id] == 0
    ensures s.workers[worker].job in s.added
    ensures s.workers[worker].sent ==> InInbox(s.inbox, s.workers[worker].job.mail.key)
  {
  }

  lemma SendKeeps(s: State, worker: nat)
    requires Inv(s)
    ensures Inv(Apply(s, Sends(worker)))
  {
    hide FeedOk, WorkersOk, LedgerOk, InboxOk;
    var s' := Apply(s, Sends(worker));
    if s' != s {
      OwnKeyOpen(s, worker);
      ReceiveKeeps(s, s', s.workers[worker].job);
      WorkersMove(s, s', worker);
      LedgerMoves(s, s', worker);
    }
  }

  lemma SendFailKeeps(s: State, worker: nat, arrived: bool)
    requires Inv(s)
    ensures Inv(Apply(s, SendFails(worker, arrived)))
  {
    hide FeedOk, WorkersOk, LedgerOk, InboxOk;
    var s' := Apply(s, SendFails(worker, arrived));
    if worker in s.workers && !s.workers[worker].sent {
      OwnKeyOpen(s, worker);
      if arrived {
        ReceiveKeeps(s, s', s.workers[worker].job);
      } else {
        InboxSame(s, s');
      }
      WorkersMove(s, s', worker);
      LedgerMoves(s, s', worker);
    }
  }

  lemma WorkerCommitKeeps(s: State, worker: nat)
    requires Inv(s)
    ensures Inv(Apply(s, WorkerCommits(worker)))
  {
    hide FeedOk, WorkersOk, LedgerOk, InboxOk;
    var s' := Apply(s, WorkerCommits(worker));
    if worker in s.workers && s.workers[worker].sent {
      OwnKeyOpen(s, worker);
      assert Delivered(s, s.workers[worker].job.id);
      InboxSame(s, s');
      WorkersMove(s, s', worker);
      LedgerMoves(s, s', worker);
    }
  }

  lemma WorkerCrashKeeps(s: State, worker: nat)
    requires Inv(s)
    ensures Inv(Apply(s, WorkerCrashes(worker)))
  {
    hide FeedOk, WorkersOk, LedgerOk, InboxOk;
    var s' := Apply(s, WorkerCrashes(worker));
    if worker in s.workers {
      OwnKeyOpen(s, worker);
      InboxSame(s, s');
      WorkersMove(s, s', worker);
      LedgerMoves(s, s', worker);
    }
  }

  // --- every run ---

  lemma StepKeeps(s: State, step: Step)
    requires Inv(s)
    ensures Inv(Apply(s, step))
  {
    match step {
      case Tick(_) => FeedDrops(s, Apply(s, step));
      case Enqueue(id, mail, availableAt, commits) =>
        if commits {
          EnqueueKeeps(s, id, mail, availableAt);
        }
      case Claims(relay, batch) => ClaimKeeps(s, relay, batch);
      case Dispatch(relay) =>
        if HasNext(s, relay) {
          DispatchKeeps(s, relay, true, true);
        }
      case DispatchFails(relay, addedAnyway) =>
        if HasNext(s, relay) {
          DispatchKeeps(s, relay, false, addedAnyway);
        }
      case RelayCommits(relay) =>
        if ReadyToCommit(s, relay) {
          CommitKeeps(s, relay);
        }
      case RelayCrashes(_) => FeedDrops(s, Apply(s, step));
      case Remove(_) => FeedDrops(s, Apply(s, step));
      case Starts(worker, id) => StartKeeps(s, worker, id);
      case Sends(worker) => SendKeeps(s, worker);
      case SendFails(worker, arrived) => SendFailKeeps(s, worker, arrived);
      case WorkerCommits(worker) => WorkerCommitKeeps(s, worker);
      case WorkerCrashes(worker) => WorkerCrashKeeps(s, worker);
    }
  }

  lemma {:induction false} RunKeeps(s: State, steps: seq<Step>)
    requires Inv(s)
    ensures Inv(Run(s, steps))
    decreases |steps|
  {
    hide Inv, Apply;
    if steps != [] {
      StepKeeps(s, steps[0]);
      RunKeeps(Apply(s, steps[0]), steps[1..]);
    }
  }

  function Reached(now: int, steps: seq<Step>): State {
    Run(Initial(now), steps)
  }

  lemma ReachedInv(now: int, steps: seq<Step>)
    ensures Inv(Reached(now, steps))
  {
    InitialInv(now);
    hide Inv, Apply;
    RunKeeps(Initial(now), steps);
  }

  /** Through any crashes, redeliveries and replays at most one effect commits per name and key, and
      the ledger has exactly the keys that did.
    */
  lemma AtMostOneEffect(now: int, steps: seq<Step>, id: JobId)
    ensures var s := Reached(now, steps);
      s.commits[id] <= 1 && (s.commits[id] == 1 <==> id in s.effects)
  {
    ReachedInv(now, steps);
    hide Run;
  }

  /** Repeated mail is bounded by rollbacks: a key is sent at most once more than the number of times a
      worker lost its transaction after the mail had gone out.
    */
  lemma SendsBounded(now: int, steps: seq<Step>, id: JobId)
    ensures var s := Reached(now, steps);
      && s.sends[id] <= 1 + s.lost[id]
      && (id in s.effects ==> s.sends[id] == 1 + s.lost[id])
  {
    ReachedInv(now, steps);
    hide Run;
    var s := Reached(now, steps);
    if id in s.effects {
      assert !OpenSent(s.workers, id);
    }
  }

  /** No mail without a committed row of the same name and key. */
  lemma NoSendWithoutRow(now: int, steps: seq<Step>, id: JobId)
    requires Reached(now, steps).sends[id] > 0
    ensures Stored(Reached(now, steps).rows, id)
  {
    ReachedInv(now, steps);
    hide Run;
    var s := Reached(now, steps);
    var job :| job in s.added && job.id == id;
    assert Backed(s.rows, job);
  }

  /** Two relays never work on the same row, and never on one that is already marked. */
  lemma RelaysNeverShare(now: int, steps: seq<Step>, p: nat, q: nat, r: nat)
    requires var s := Reached(now, steps); p in s.relays && r in s.relays[p].claimed
    ensures var s := Reached(now, steps);
      && r < |s.rows| && !s.rows[r].dispatched
      && (q in s.relays && q != p ==> r !in s.relays[q].claimed)
  {
    ReachedInv(now, steps);
    hide Run;
    var s := Reached(now, steps);
    assert RelayOk(s.rows, s.added, s.relays[p]);
    if q in s.relays && q != p {
      assert Apart(s.relays[p], s.relays[q]);
    }
  }

  /** A row is marked only after its job, with its mail, was added to the queue, and its attempt count
      is the number of committed failed dispatches.
    */
  lemma MarkedMeansAdded(now: int, steps: seq<Step>, i: nat)
    requires i < |Reached(now, steps).rows|
    ensures var s := Reached(now, steps); var row := s.rows[i];
      && (row.dispatched ==> Job(row.id, row.mail) in s.added)
      && row.attempts == s.failures[i]
  {
    ReachedInv(now, steps);
    hide Run;
  }

  /** The provider delivers at most one mail per mail key; each is some committed row's mail, and every
      committed effect has its mail among them.
    */
  lemma OneMailPerKey(now: int, steps: seq<Step>, i: nat)
    requires i < |Reached(now, steps).inbox|
    ensures var s := Reached(now, steps);
      && (forall j :: 0 <= j < |s.inbox| && j != i ==> s.inbox[j].key != s.inbox[i].key)
      && exists r :: 0 <= r < |s.rows| && s.rows[r].mail == s.inbox[i]
  {
    ReachedInv(now, steps);
    hide Run;
    var s := Reached(now, steps);
    assert MailFrom(s.added, s.sends, s.inbox[i]);
    var job :| job in s.added && job.mail == s.inbox[i] && s.sends[job.id] > 0;
    assert Backed(s.rows, job);
  }

  lemma EffectMeansDelivered(now: int, steps: seq<Step>, id: JobId)
    requires id in Reached(now, steps).effects
    ensures var s := Reached(now, steps);
      exists r :: 0 <= r < |s.rows| && s.rows[r].id == id && InInbox(s.inbox, s.rows[r].mail.key)
  {
    ReachedInv(now, steps);
    hide Run;
    var s := Reached(now, steps);
    assert Delivered(s, id);
    var job :| job in s.added && job.id == id && InInbox(s.inbox, job.mail.key);
    assert Backed(s.rows, job);
  }

  // --- no row is lost ---

  /** A row keeps its identity and order; it is marked at most once and its attempts only grow. */
  ghost predicate RowsLater(rows: seq<Message>, rows': seq<Message>) {
    && |rows| <= |rows'|
    && forall i :: 0 <= i < |rows| ==>
         && rows'[i] == rows[i].(dispatched := rows'[i].dispatched, attempts := rows'[i].attempts)
         && (rows[i].dispatched ==> rows'[i].dispatched && rows'[i].attempts == rows[i].attempts)
         && rows[i].attempts <= rows'[i].attempts
  }

  lemma CommitLater(s: State, relay: nat)
    requires Inv(s) && ReadyToCommit(s, relay)
    ensures RowsLater(s.rows, Apply(s, RelayCommits(relay)).rows)
  {
    var r := s.relays[relay];
    assert RelayOk(s.rows, s.added, r);
    forall i | 0 <= i < |s.rows|
      ensures var row' := Mark(s.rows, r.claimed, r.verdicts)[i];
        && row' == s.rows[i].(dispatched := row'.dispatched, attempts := row'.attempts)
        && (s.rows[i].dispatched ==> row' == s.rows[i])
        && s.rows[i].attempts <= row'.attempts
    {
      MarkedRow(s.rows, r, i);
    }
  }

  lemma OthersKeepRows(s: State, step: Step)
    requires !step.Enqueue? && !step.RelayCommits?
    ensures Apply(s, step).rows == s.rows
  {
    hide Claim, Receive, Locked;
  }

  lemma EnqueueLater(rows: seq<Message>, now: int, id: JobId, mail: Mail, availableAt: int)
    ensures RowsLater(rows, EnqueueRows(rows, now, id, mail, availableAt))
  {
  }

  lemma StepLater(s: State, step: Step)
    requires Inv(s)
    ensures RowsLater(s.rows, Apply(s, step).rows)
  {
    hide Inv;
    match step {
      case RelayCommits(relay) =>
        if ReadyToCommit(s, relay) {
          CommitLater(s, relay);
        }
      case Enqueue(id, mail, availableAt, _) =>
        EnqueueLater(s.rows, s.now, id, mail, availableAt);
      case _ =>
        hide Apply;
        OthersKeepRows(s, step);
    }
  }

  lemma {:induction false} NoRowIsLost(s: State, steps: seq<Step>)
    requires Inv(s)
    ensures RowsLater(s.rows, Run(s, steps).rows)
    decreases |steps|
  {
    hide Inv, Apply;
    if steps != [] {
      StepKeeps(s, steps[0]);
      StepLater(s, steps[0]);
      NoRowIsLost(Apply(s, steps[0]), steps[1..]);
    }
  }
}
