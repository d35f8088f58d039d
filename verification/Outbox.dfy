/** The transactional outbox, its relays, the job queue and the worker with its effect ledger.

    A relay claims rows with SKIP LOCKED, adds jobs to a queue outside the database and commits the
    marks afterwards. A worker inserts into the ledger, sends the mail and commits. Any of them may
    crash in between: the database forgets, the queue and the mail provider do not.
  */
module Outbox {

  /** The one job name whose handler sends mail. The booking jobs leave the ledger and the provider alone,
      and the worker refuses every other name, so only this one moves the machine.
    */
  const AUTH_EMAIL_JOB := "auth.email.deliver"

  /** A mail as the provider sees it; the provider deduplicates by its key. */
  datatype Mail = Mail(key: string, content: string)

  /** A job's stable identifier is an injective digest of its name and idempotency key. */
  datatype JobId = JobId(name: string, key: string)

  datatype Message = Message(
    id: JobId, mail: Mail, availableAt: int, createdAt: int, dispatched: bool, attempts: nat)

  // --- the claim ---

  predicate DueRow(row: Message, now: int) {
    !row.dispatched && row.availableAt <= now
  }

  predicate Before(a: Message, b: Message) {
    a.availableAt < b.availableAt || (a.availableAt == b.availableAt && a.createdAt <= b.createdAt)
  }

  /** Identifiers of the due rows nobody has locked, in table order. */
  function Due(rows: seq<Message>, now: int, locked: set<nat>): seq<nat> {
    if |rows| == 0 then []
    else
      var last := |rows| - 1;
      Due(rows[..last], now, locked) + if DueRow(rows[last], now) && last !in locked then [last] else []
  }

  function Insert(rows: seq<Message>, ids: seq<nat>, id: nat): seq<nat>
    requires id < |rows| && forall i :: 0 <= i < |ids| ==> ids[i] < |rows|
  {
    if |ids| == 0 then [id]
    else if Before(rows[ids[|ids| - 1]], rows[id]) then ids + [id]
    else Insert(rows, ids[..|ids| - 1], id) + [ids[|ids| - 1]]
  }

  /** The rows ordered by availableAt, then createdAt. */
  function OrderBy(rows: seq<Message>, ids: seq<nat>): (r: seq<nat>)
    requires forall i :: 0 <= i < |ids| ==> ids[i] < |rows|
    ensures |r| == |ids| && forall i :: 0 <= i < |r| ==> r[i] < |rows|
    ensures multiset(r) == multiset(ids)
  {
    if |ids| == 0 then []
    else
      var rest := OrderBy(rows, ids[..|ids| - 1]);
      InsertKeeps(rows, rest, ids[|ids| - 1]);
      assert ids == ids[..|ids| - 1] + [ids[|ids| - 1]];
      Insert(rows, rest, ids[|ids| - 1])
  }

  lemma {:induction false} InsertKeeps(rows: seq<Message>, ids: seq<nat>, id: nat)
    requires id < |rows| && forall i :: 0 <= i < |ids| ==> ids[i] < |rows|
    ensures multiset(Insert(rows, ids, id)) == multiset(ids) + multiset{id}
    ensures |Insert(rows, ids, id)| == |ids| + 1
    ensures forall i :: 0 <= i < |Insert(rows, ids, id)| ==> Insert(rows, ids, id)[i] < |rows|
  {
    if |ids| > 0 && !Before(rows[ids[|ids| - 1]], rows[id]) {
      InsertKeeps(rows, ids[..|ids| - 1], id);
      assert ids == ids[..|ids| - 1] + [ids[|ids| - 1]];
    }
  }

  ghost predicate Sorted(rows: seq<Message>, ids: seq<nat>) {
    && (forall i :: 0 <= i < |ids| ==> ids[i] < |rows|)
    && forall i, j :: 0 <= i < j < |ids| ==> Before(rows[ids[i]], rows[ids[j]])
  }

  lemma {:induction false} InsertSorts(rows: seq<Message>, ids: seq<nat>, id: nat)
    requires id < |rows| && Sorted(rows, ids)
    ensures Sorted(rows, Insert(rows, ids, id))
  {
    InsertKeeps(rows, ids, id);
    if |ids| > 0 && !Before(rows[ids[|ids| - 1]], rows[id]) {
      var rest := Insert(rows, ids[..|ids| - 1], id);
      InsertSorts(rows, ids[..|ids| - 1], id);
      InsertKeeps(rows, ids[..|ids| - 1], id);
      forall i | 0 <= i < |rest| ensures Before(rows[rest[i]], rows[ids[|ids| - 1]]) {
        assert rest[i] in multiset(rest);
        assert rest[i] == id || rest[i] in ids[..|ids| - 1];
      }
    }
  }

  lemma {:induction false} OrderBySorts(rows: seq<Message>, ids: seq<nat>)
    requires forall i :: 0 <= i < |ids| ==> ids[i] < |rows|
    ensures Sorted(rows, OrderBy(rows, ids))
  {
    if |ids| > 0 {
      OrderBySorts(rows, ids[..|ids| - 1]);
      InsertSorts(rows, OrderBy(rows, ids[..|ids| - 1]), ids[|ids| - 1]);
    }
  }

  lemma {:induction false} DueMembers(rows: seq<Message>, now: int, locked: set<nat>, i: nat)
    ensures i in Due(rows, now, locked) <==> i < |rows| && DueRow(rows[i], now) && i !in locked
  {
    hide DueRow;
    if |rows| > 0 {
      DueMembers(rows[..|rows| - 1], now, locked, i);
    }
  }

  lemma {:induction false} DueOnce(rows: seq<Message>, now: int, locked: set<nat>, i: nat)
    ensures multiset(Due(rows, now, locked))[i] <= 1
  {
    hide DueRow;
    if |rows| > 0 {
      var rest := Due(rows[..|rows| - 1], now, locked);
      DueOnce(rows[..|rows| - 1], now, locked, i);
      DueMembers(rows[..|rows| - 1], now, locked, i);
      assert i in multiset(rest) <==> i in rest;
    }
  }

  lemma DueExactly(rows: seq<Message>, now: int, locked: set<nat>)
    ensures forall i: nat :: i in Due(rows, now, locked) <==> i < |rows| && DueRow(rows[i], now) && i !in locked
    ensures forall i :: 0 <= i < |Due(rows, now, locked)| ==> Due(rows, now, locked)[i] < |rows|
    ensures forall i: nat :: multiset(Due(rows, now, locked))[i] <= 1
  {
    hide Due, DueRow;
    forall i: nat
      ensures i in Due(rows, now, locked) <==> i < |rows| && DueRow(rows[i], now) && i !in locked
      ensures multiset(Due(rows, now, locked))[i] <= 1
    {
      DueMembers(rows, now, locked, i);
      DueOnce(rows, now, locked, i);
    }
    var due := Due(rows, now, locked);
    forall i | 0 <= i < |due| ensures due[i] < |rows| {
      assert due[i] in due;
    }
  }

  function Min(a: nat, b: nat): nat {
    if a <= b then a else b
  }

  /** SELECT ... ORDER BY availableAt, createdAt LIMIT batch FOR UPDATE SKIP LOCKED. */
  function Claim(rows: seq<Message>, now: int, locked: set<nat>, batch: nat): seq<nat> {
    DueExactly(rows, now, locked);
    var ordered := OrderBy(rows, Due(rows, now, locked));
    ordered[..Min(batch, |ordered|)]
  }

  /** What ORDER BY returns: every due row exactly once, in order. */
  lemma OrderedDue(rows: seq<Message>, now: int, locked: set<nat>)
    requires forall i :: 0 <= i < |Due(rows, now, locked)| ==> Due(rows, now, locked)[i] < |rows|
    ensures var due := Due(rows, now, locked); var ordered := OrderBy(rows, due);
      && Sorted(rows, ordered)
      && (forall j: nat :: j in ordered <==> j in due)
      && forall i, j :: 0 <= i < j < |ordered| ==> ordered[i] != ordered[j]
  {
    DueExactly(rows, now, locked);
    var due := Due(rows, now, locked);
    OrderBySorts(rows, due);
    hide OrderBy, Due, Sorted;
    var ordered := OrderBy(rows, due);
    forall j: nat ensures j in ordered <==> j in due {
      assert j in multiset(ordered) <==> j in multiset(due);
    }
    forall i, j | 0 <= i < j < |ordered| ensures ordered[i] != ordered[j] {
      if ordered[i] == ordered[j] {
        TwiceIn(ordered, i, j);
        assert false;
      }
    }
  }

  /** A prefix of the ordered rows leaves out only rows that come later. */
  lemma PrefixIsFirst(rows: seq<Message>, ordered: seq<nat>, k: nat)
    requires Sorted(rows, ordered) && k <= |ordered|
    requires forall i, j :: 0 <= i < j < |ordered| ==> ordered[i] != ordered[j]
    ensures var ids := ordered[..k];
      && Sorted(rows, ids)
      && (forall i, j :: 0 <= i < j < |ids| ==> ids[i] != ids[j])
      && (forall j: nat :: j in ordered && j !in ids ==>
            j < |rows| && forall i :: 0 <= i < |ids| ==> Before(rows[ids[i]], rows[j]))
      && (forall i :: 0 <= i < |ids| ==> ids[i] in ordered)
  {
    hide Before;
    var ids := ordered[..k];
    forall i | 0 <= i < k ensures ordered[i] in ids {
      assert ids[i] == ordered[i];
    }
    forall j: nat | j in ordered && j !in ids
      ensures j < |rows| && forall i :: 0 <= i < |ids| ==> Before(rows[ids[i]], rows[j])
    {
      var m :| 0 <= m < |ordered| && ordered[m] == j;
      assert k <= m;
    }
  }

  /** The claim is a set of distinct due rows nobody holds, as many as fit the batch, and no due row
      left out comes strictly before a claimed one.
    */
  lemma ClaimIsFirst(rows: seq<Message>, now: int, locked: set<nat>, batch: nat)
    ensures var ids := Claim(rows, now, locked, batch);
      && |ids| == Min(batch, |Due(rows, now, locked)|)
      && (forall i :: 0 <= i < |ids| ==> ids[i] < |rows| && DueRow(rows[ids[i]], now) && ids[i] !in locked)
      && (forall i, j :: 0 <= i < j < |ids| ==> ids[i] != ids[j])
      && (forall j: nat :: j in Due(rows, now, locked) && j !in ids ==>
            j < |rows| && forall i :: 0 <= i < |ids| ==> Before(rows[ids[i]], rows[j]))
      && Sorted(rows, ids)
  {
    DueExactly(rows, now, locked);
    OrderedDue(rows, now, locked);
    var due := Due(rows, now, locked);
    var ordered := OrderBy(rows, due);
    hide OrderBy, Due, DueRow, Sorted, Before;
    PrefixIsFirst(rows, ordered, Min(batch, |ordered|));
  }

  /** The rows of a claim, stated on their fields: distinct, undispatched, due and not locked; as many as the
      batch allows, or all there are; earliest first, and nobody earlier left out.
    */
  ghost predicate FirstWaiting(rows: seq<Message>, now: int, locked: set<nat>, batch: nat, ids: seq<nat>) {
    && |ids| <= batch
    && (forall i :: 0 <= i < |ids| ==>
          && ids[i] < |rows| && ids[i] !in locked
          && !rows[ids[i]].dispatched && rows[ids[i]].availableAt <= now)
    && (forall i, j :: 0 <= i < j < |ids| ==> ids[i] != ids[j] && NotAfter(rows, ids[i], ids[j]))
    && (forall r: nat :: r < |rows| && r !in locked && !rows[r].dispatched && rows[r].availableAt <= now
                         && r !in ids ==>
          |ids| == batch && forall i :: 0 <= i < |ids| ==> NotAfter(rows, ids[i], r))
  }

  predicate NotAfter(rows: seq<Message>, q: nat, r: nat) {
    && q < |rows| && r < |rows|
    && rows[q].availableAt <= rows[r].availableAt
    && (rows[q].availableAt == rows[r].availableAt ==> rows[q].createdAt <= rows[r].createdAt)
  }

  lemma ClaimIsFirstWaiting(rows: seq<Message>, now: int, locked: set<nat>, batch: nat)
    ensures FirstWaiting(rows, now, locked, batch, Claim(rows, now, locked, batch))
  {
    ClaimIsFirst(rows, now, locked, batch);
    DueExactly(rows, now, locked);
    hide Claim, Due, Before, DueRow, FirstWaiting;
    FirstOfDue(rows, now, locked, batch, Due(rows, now, locked), Claim(rows, now, locked, batch));
  }

  lemma FirstOfDue(rows: seq<Message>, now: int, locked: set<nat>, batch: nat, due: seq<nat>, ids: seq<nat>)
    requires forall r: nat :: r in due <==> r < |rows| && DueRow(rows[r], now) && r !in locked
    requires |ids| == Min(batch, |due|) && Sorted(rows, ids)
    requires forall i :: 0 <= i < |ids| ==> ids[i] in due
    requires forall i, j :: 0 <= i < j < |ids| ==> ids[i] != ids[j]
    requires forall r: nat :: r in due && r !in ids ==>
               r < |rows| && forall i :: 0 <= i < |ids| ==> Before(rows[ids[i]], rows[r])
    ensures FirstWaiting(rows, now, locked, batch, ids)
  {
    forall i, j | 0 <= i < j < |ids| ensures NotAfter(rows, ids[i], ids[j]) {
      BeforeIsNotAfter(rows, ids[i], ids[j]);
    }
    forall r: nat | r in due && r !in ids
      ensures |ids| == batch && forall i :: 0 <= i < |ids| ==> NotAfter(rows, ids[i], r)
    {
      AllFit(due, ids, r);
      forall i | 0 <= i < |ids| ensures NotAfter(rows, ids[i], r) {
        BeforeIsNotAfter(rows, ids[i], r);
      }
    }
    hide Before, NotAfter;
  }

  lemma BeforeIsNotAfter(rows: seq<Message>, q: nat, r: nat)
    requires q < |rows| && r < |rows| && Before(rows[q], rows[r])
    ensures NotAfter(rows, q, r)
  {
  }

  /** Distinct members leave somebody out only if there are fewer of them. */
  lemma AllFit(due: seq<nat>, ids: seq<nat>, r: nat)
    requires r in due && r !in ids && forall i :: 0 <= i < |ids| ==> ids[i] in due
    requires forall i, j :: 0 <= i < j < |ids| ==> ids[i] != ids[j]
    ensures |ids| < |due|
  {
    DistinctFit(ids + [r], due);
  }

  lemma {:induction false} DistinctFit(ids: seq<nat>, due: seq<nat>)
    requires forall i :: 0 <= i < |ids| ==> ids[i] in due
    requires forall i, j :: 0 <= i < j < |ids| ==> ids[i] != ids[j]
    ensures |ids| <= |due|
  {
    if |ids| > 0 {
      var last := |ids| - 1;
      var k :| 0 <= k < |due| && due[k] == ids[last];
      var rest := due[..k] + due[k + 1..];
      forall i | 0 <= i < last ensures ids[..last][i] in rest {
        var m :| 0 <= m < |due| && due[m] == ids[i];
        assert m != k;
        assert rest[if m < k then m else m - 1] == ids[i];
      }
      DistinctFit(ids[..last], rest);
    }
  }

  lemma TwiceIn(s: seq<nat>, i: nat, j: nat)
    requires i < j < |s| && s[i] == s[j]
    ensures multiset(s)[s[j]] >= 2
  {
    assert s == s[..j] + [s[j]] + s[j + 1..];
    assert s[i] in s[..j];
  }

  // --- marks ---

  /** One dispatch verdict written on its row. */
  function Marked(row: Message, ok: bool): Message {
    if ok then row.(dispatched := true) else row.(attempts := row.attempts + 1)
  }

  function Mark(rows: seq<Message>, ids: seq<nat>, verdicts: seq<bool>): (r: seq<Message>)
    requires |verdicts| <= |ids| && forall i :: 0 <= i < |ids| ==> ids[i] < |rows|
    ensures |r| == |rows|
  {
    if |verdicts| == 0 then rows
    else
      var k := |verdicts| - 1;
      var before := Mark(rows, ids, verdicts[..k]);
      before[ids[k] := Marked(before[ids[k]], verdicts[k])]
  }

  /** With distinct rows, each verdict lands on its own row and no other row changes. */
  lemma {:induction false} MarkExactly(rows: seq<Message>, ids: seq<nat>, verdicts: seq<bool>)
    requires |verdicts| <= |ids| && forall i :: 0 <= i < |ids| ==> ids[i] < |rows|
    requires forall i, j :: 0 <= i < j < |ids| ==> ids[i] != ids[j]
    ensures forall i :: 0 <= i < |verdicts| ==> Mark(rows, ids, verdicts)[ids[i]] == Marked(rows[ids[i]], verdicts[i])
    ensures forall r :: 0 <= r < |rows| && r !in ids[..|verdicts|] ==> Mark(rows, ids, verdicts)[r] == rows[r]
  {
    if |verdicts| > 0 {
      var k := |verdicts| - 1;
      MarkExactly(rows, ids, verdicts[..k]);
      assert ids[..k + 1] == ids[..k] + [ids[k]];
      assert ids[k] !in ids[..k];
    }
  }

  // --- the machine ---

  datatype Job = Job(id: JobId, mail: Mail)

  /** A relay transaction under way: the rows it locked and the verdicts so far. */
  datatype Relay = Relay(claimed: seq<nat>, verdicts: seq<bool>)

  /** A worker transaction under way: its uncommitted ledger row and whether the mail is out. */
  datatype Worker = Worker(job: Job, sent: bool)

  datatype State = State(
    now: int,
    rows: seq<Message>,
    relays: map<nat, Relay>,
    queue: map<JobId, Job>,
    added: set<Job>,
    workers: map<nat, Worker>,
    effects: set<JobId>,
    inbox: seq<Mail>,
    commits: multiset<JobId>,
    sends: multiset<JobId>,
    lost: multiset<JobId>,
    failures: multiset<nat>)

  datatype Step =
    | Tick(elapsed: nat)
    | Enqueue(id: JobId, mail: Mail, availableAt: int, commits: bool)
    | Claims(relay: nat, batch: nat)
    | Dispatch(relay: nat)
    | DispatchFails(relay: nat, addedAnyway: bool)
    | RelayCommits(relay: nat)
    | RelayCrashes(relay: nat)
    | Remove(id: JobId)
    | Starts(worker: nat, id: JobId)
    | Sends(worker: nat)
    | SendFails(worker: nat, arrived: bool)
    | WorkerCommits(worker: nat)
    | WorkerCrashes(worker: nat)

  function Initial(now: int): State {
    State(now, [], map[], map[], {}, map[], {}, [], multiset{}, multiset{}, multiset{}, multiset{})
  }

  predicate Stored(rows: seq<Message>, id: JobId) {
    exists i :: 0 <= i < |rows| && rows[i].id == id
  }

  /** enqueue: insert, or leave the table unchanged when the name and key are already there. */
  function EnqueueRows(rows: seq<Message>, now: int, id: JobId, mail: Mail, availableAt: int): seq<Message> {
    if Stored(rows, id) then rows else rows + [Message(id, mail, availableAt, now, false, 0)]
  }

  function Locked(relays: map<nat, Relay>): set<nat> {
    set r, i | r in relays && i in relays[r].claimed :: i
  }

  /** The next row of a relay that has one left to dispatch. */
  predicate HasNext(s: State, relay: nat) {
    relay in s.relays && |s.relays[relay].verdicts| < |s.relays[relay].claimed|
    && s.relays[relay].claimed[|s.relays[relay].verdicts|] < |s.rows|
  }

  function NextJob(s: State, relay: nat): Job
    requires HasNext(s, relay)
  {
    var row := s.rows[s.relays[relay].claimed[|s.relays[relay].verdicts|]];
    Job(row.id, row.mail)
  }

  /** queue.add: an identifier the queue still has is not added again. */
  function Add(s: State, job: Job): State {
    s.(queue := if job.id in s.queue then s.queue else s.queue[job.id := job],
       added := if job.id in s.queue then s.added else s.added + {job})
  }

  function Verdict(s: State, relay: nat, ok: bool): State
    requires relay in s.relays
  {
    s.(relays := s.relays[relay := s.relays[relay].(verdicts := s.relays[relay].verdicts + [ok])])
  }

  predicate ReadyToCommit(s: State, relay: nat) {
    relay in s.relays && |s.relays[relay].verdicts| == |s.relays[relay].claimed|
    && forall i :: 0 <= i < |s.relays[relay].claimed| ==> s.relays[relay].claimed[i] < |s.rows|
  }

  function Failed(ids: seq<nat>, verdicts: seq<bool>): multiset<nat>
    requires |verdicts| <= |ids|
  {
    if |verdicts| == 0 then multiset{}
    else
      var k := |verdicts| - 1;
      Failed(ids, verdicts[..k]) + if verdicts[k] then multiset{} else multiset{ids[k]}
  }

  predicate InInbox(inbox: seq<Mail>, key: string) {
    exists i :: 0 <= i < |inbox| && inbox[i].key == key
  }

  /** The provider keeps the first mail of each key. */
  function Receive(inbox: seq<Mail>, mail: Mail): seq<Mail> {
    if InInbox(inbox, mail.key) then inbox else inbox + [mail]
  }

  /** Another worker's uncommitted ledger row blocks an insert of the same key. */
  predicate Held(s: State, id: JobId) {
    exists w :: w in s.workers && s.workers[w].job.id == id
  }

  function Apply(s: State, step: Step): State {
    match step
    case Tick(elapsed) => s.(now := s.now + elapsed)
    case Enqueue(id, mail, availableAt, commits) =>
      if commits then s.(rows := EnqueueRows(s.rows, s.now, id, mail, availableAt)) else s
    case Claims(relay, batch) =>
      if relay in s.relays then s
      else s.(relays := s.relays[relay := Relay(Claim(s.rows, s.now, Locked(s.relays), batch), [])])
    case Dispatch(relay) => if HasNext(s, relay) then Verdict(Add(s, NextJob(s, relay)), relay, true) else s
    case DispatchFails(relay, addedAnyway) =>
      if !HasNext(s, relay) then s
      else Verdict(if addedAnyway then Add(s, NextJob(s, relay)) else s, relay, false)
    case RelayCommits(relay) =>
      if !ReadyToCommit(s, relay) then s
      else
        var r := s.relays[relay];
        s.(rows := Mark(s.rows, r.claimed, r.verdicts),
           relays := s.relays - {relay},
           failures := s.failures + Failed(r.claimed, r.verdicts))
    case RelayCrashes(relay) => s.(relays := s.relays - {relay})
    case Remove(id) => s.(queue := s.queue - {id})
    case Starts(worker, id) =>
      if worker in s.workers || id !in s.queue || id.name != AUTH_EMAIL_JOB || id in s.effects || Held(s, id) then s
      else s.(workers := s.workers[worker := Worker(s.queue[id], false)])
    case Sends(worker) =>
      if worker !in s.workers || s.workers[worker].sent then s
      else
        var job := s.workers[worker].job;
        s.(workers := s.workers[worker := Worker(job, true)],
           inbox := Receive(s.inbox, job.mail),
           sends := s.sends + multiset{job.id})
    case SendFails(worker, arrived) =>
      if worker !in s.workers || s.workers[worker].sent then s
      else
        var job := s.workers[worker].job;
        var s' := s.(workers := s.workers - {worker});
        if arrived then
          s'.(inbox := Receive(s.inbox, job.mail),
              sends := s.sends + multiset{job.id},
              lost := s.lost + multiset{job.id})
        else s'
    case WorkerCommits(worker) =>
      if worker !in s.workers || !s.workers[worker].sent then s
      else
        var id := s.workers[worker].job.id;
        s.(workers := s.workers - {worker},
           effects := s.effects + {id},
           commits := s.commits + multiset{id})
    case WorkerCrashes(worker) =>
      if worker !in s.workers then s
      else
        var w := s.workers[worker];
        s.(workers := s.workers - {worker},
           lost := if w.sent then s.lost + multiset{w.job.id} else s.lost)
  }

  function Run(s: State, steps: seq<Step>): State
    decreases |steps|
  {
    if steps == [] then s else Run(Apply(s, steps[0]), steps[1..])
  }
}
