/** One relay iteration, its progress, and its place among the machine's runs. */
module Relay {
  import opened Outbox

  /** Which dispatches the queue accepts, for each claimed row. */
  function Verdicts(rows: seq<Message>, ids: seq<nat>, fails: set<JobId>): seq<bool>
    requires Rooted(rows, ids)
  {
    seq(|ids|, i requires 0 <= i < |ids| => rows[ids[i]].id !in fails)
  }

  function Trues(verdicts: seq<bool>): nat {
    if |verdicts| == 0 then 0
    else Trues(verdicts[..|verdicts| - 1]) + if verdicts[|verdicts| - 1] then 1 else 0
  }

  /** The table after one iteration, when dispatching the jobs in `fails` throws. */
  function RunOnceRows(rows: seq<Message>, now: int, batch: nat, fails: set<JobId>): (r: seq<Message>) {
    ClaimIsFirst(rows, now, {}, batch);
    var ids := Claim(rows, now, {}, batch);
    Mark(rows, ids, Verdicts(rows, ids, fails))
  }

  class OutboxRelay {
    const batchSize: nat
    var rows: seq<Message>
    var queue: map<JobId, Job>

    constructor (batchSize: nat)
      ensures this.batchSize == batchSize && rows == [] && queue == map[]
    {
      this.batchSize, rows, queue := batchSize, [], map[];
    }

    /** enqueue inside the caller's transaction: reports whether a row was inserted. */
    method Enqueue(now: int, id: JobId, mail: Mail, availableAt: int) returns (inserted: bool)
      modifies this`rows
      ensures rows == EnqueueRows(old(rows), now, id, mail, availableAt)
      ensures inserted <==> forall i :: 0 <= i < |old(rows)| ==> old(rows)[i].id != id
      ensures rows == old(rows) + if inserted then [Message(id, mail, availableAt, now, false, 0)] else []
    {
      inserted := true;
      var i := 0;
      while i < |rows|
        invariant 0 <= i <= |rows|
        invariant forall j :: 0 <= j < i ==> rows[j].id != id
      {
        if rows[i].id == id {
          return false;
        }
        i := i + 1;
      }
      rows := rows + [Message(id, mail, availableAt, now, false, 0)];
    }

    method DispatchJob(job: Job, fails: set<JobId>) returns (ok: bool)
      modifies this`queue
      ensures ok <==> job.id !in fails
      ensures queue == if ok && job.id !in old(queue) then old(queue)[job.id := job] else old(queue)
    {
      if job.id in fails {
        return false;
      }
      if job.id !in queue {
        queue := queue[job.id := job];
      }
      return true;
    }

    /** Claims a batch, dispatches row by row, marks each success and counts each failure. */
    method RunOnce(now: int, fails: set<JobId>) returns (dispatched: nat)
      modifies this
      ensures rows == RunOnceRows(old(rows), now, batchSize, fails)
      ensures Rooted(old(rows), Claim(old(rows), now, {}, batchSize))
      ensures var claimed := Claim(old(rows), now, {}, batchSize);
        var verdicts := Verdicts(old(rows), claimed, fails);
        && dispatched == Trues(verdicts)
        && AllQueued(old(rows), claimed, verdicts, queue)
        && OnlyQueued(old(rows), claimed, verdicts, old(queue), queue)
      ensures var claimed := Claim(old(rows), now, {}, batchSize);
        && FirstWaiting(old(rows), now, {}, batchSize, claimed)
        && Relayed(old(rows), claimed, fails, rows) && dispatched == |Accepted(old(rows), claimed, fails)|
    {
      hide Claim, Mark, Verdicts, Claimable, FirstWaiting, Relayed, Accepted;
      ClaimIsFirstWaiting(rows, now, {}, batchSize);
      RunOnceRelays(rows, now, batchSize, fails);
      ClaimIsClaimable(rows, now, batchSize);
      var claimed := Claim(rows, now, {}, batchSize);
      ghost var was, verdicts := rows, Verdicts(rows, claimed, fails);
      VerdictsAre(rows, claimed, fails);
      assert Mark(was, claimed, verdicts[..0]) == was by { MarkNone(was, claimed); }
      dispatched := 0;
      for i := 0 to |claimed|
        invariant rows == Mark(was, claimed, verdicts[..i])
        invariant dispatched == Trues(verdicts[..i])
        invariant AllQueued(was, claimed, verdicts[..i], queue)
        invariant OnlyQueued(was, claimed, verdicts[..i], old(queue), queue)
      {
        MarkNext(was, claimed, verdicts, i);
        var message := rows[claimed[i]];
        var ok := DispatchJob(Job(message.id, message.mail), fails);
        if ok {
          rows := rows[claimed[i] := message.(dispatched := true)];
          dispatched := dispatched + 1;
        } else {
          rows := rows[claimed[i] := message.(attempts := message.attempts + 1)];
        }
      }
      assert verdicts[..|claimed|] == verdicts;
    }
  }

  /** Distinct rows of the table. */
  ghost predicate Claimable(rows: seq<Message>, ids: seq<nat>) {
    && Rooted(rows, ids)
    && (forall i, j :: 0 <= i < j < |ids| ==> ids[i] != ids[j])
  }

  predicate Rooted(rows: seq<Message>, ids: seq<nat>) {
    forall i :: 0 <= i < |ids| ==> ids[i] < |rows|
  }

  ghost predicate AllQueued(rows: seq<Message>, ids: seq<nat>, verdicts: seq<bool>, queue: map<JobId, Job>)
    requires Rooted(rows, ids) && |verdicts| <= |ids|
  {
    forall i :: 0 <= i < |verdicts| && verdicts[i] ==> rows[ids[i]].id in queue
  }

  /** What the queue had stays; what is new is the job of a dispatched row, with that row's mail. */
  ghost predicate OnlyQueued(rows: seq<Message>, ids: seq<nat>, verdicts: seq<bool>, before: map<JobId, Job>,
                             queue: map<JobId, Job>)
    requires Rooted(rows, ids) && |verdicts| <= |ids|
  {
    && (forall id :: id in before ==> id in queue && queue[id] == before[id])
    && (forall id :: id in queue && id !in before ==>
          exists i :: 0 <= i < |verdicts| && verdicts[i] && rows[ids[i]].id == id
                      && queue[id] == Job(id, rows[ids[i]].mail))
  }

  /** Claimed rows whose dispatch does not fail. */
  function Accepted(rows: seq<Message>, ids: seq<nat>, fails: set<JobId>): set<nat> {
    set r: nat | r in ids && r < |rows| && rows[r].id !in fails
  }

  /** Each claimed row is marked if its dispatch went through and counted if not; nothing else changes. */
  ghost predicate Relayed(rows: seq<Message>, ids: seq<nat>, fails: set<JobId>, rows': seq<Message>) {
    && |rows'| == |rows|
    && forall r: nat :: r < |rows| ==>
         rows'[r] == if r !in ids then rows[r]
                     else if rows[r].id in fails then rows[r].(attempts := rows[r].attempts + 1)
                     else rows[r].(dispatched := true)
  }

  lemma RunOnceRelays(rows: seq<Message>, now: int, batch: nat, fails: set<JobId>)
    ensures var ids := Claim(rows, now, {}, batch);
      && Rooted(rows, ids)
      && Relayed(rows, ids, fails, RunOnceRows(rows, now, batch, fails))
      && Trues(Verdicts(rows, ids, fails)) == |Accepted(rows, ids, fails)|
  {
    ClaimIsClaimable(rows, now, batch);
    var ids := Claim(rows, now, {}, batch);
    hide Claim, Mark;
    MarksRelay(rows, ids, fails);
  }

  lemma MarksRelay(rows: seq<Message>, ids: seq<nat>, fails: set<JobId>)
    requires Claimable(rows, ids)
    ensures Relayed(rows, ids, fails, Mark(rows, ids, Verdicts(rows, ids, fails)))
    ensures Trues(Verdicts(rows, ids, fails)) == |Accepted(rows, ids, fails)|
  {
    var verdicts := Verdicts(rows, ids, fails);
    MarkExactly(rows, ids, verdicts);
    assert ids[..|verdicts|] == ids;
    hide Mark;
    var rows' := Mark(rows, ids, verdicts);
    forall r: nat | r < |rows| && r in ids
      ensures rows'[r] == if rows[r].id in fails then rows[r].(attempts := rows[r].attempts + 1)
                          else rows[r].(dispatched := true)
    {
      var i :| 0 <= i < |ids| && ids[i] == r;
      assert rows'[ids[i]] == Marked(rows[ids[i]], verdicts[i]);
    }
    TruesCount(rows, ids, fails);
  }

  lemma {:induction false} TruesCount(rows: seq<Message>, ids: seq<nat>, fails: set<JobId>)
    requires Claimable(rows, ids)
    ensures Trues(Verdicts(rows, ids, fails)) == |Accepted(rows, ids, fails)|
  {
    var verdicts := Verdicts(rows, ids, fails);
    if |ids| > 0 {
      var last := |ids| - 1;
      TruesCount(rows, ids[..last], fails);
      assert Verdicts(rows, ids[..last], fails) == verdicts[..last];
      assert ids[last] !in ids[..last];
      var front := Accepted(rows, ids[..last], fails);
      if verdicts[last] {
        assert Accepted(rows, ids, fails) == front + {ids[last]};
      } else {
        assert Accepted(rows, ids, fails) == front;
      }
    } else {
      assert Accepted(rows, ids, fails) == {};
    }
  }

  lemma ClaimIsClaimable(rows: seq<Message>, now: int, batch: nat)
    ensures Claimable(rows, Claim(rows, now, {}, batch)) && Rooted(rows, Claim(rows, now, {}, batch))
  {
    ClaimIsFirst(rows, now, {}, batch);
  }

  lemma VerdictsAre(rows: seq<Message>, ids: seq<nat>, fails: set<JobId>)
    requires Rooted(rows, ids)
    ensures |Verdicts(rows, ids, fails)| == |ids|
    ensures forall i :: 0 <= i < |ids| ==> (Verdicts(rows, ids, fails)[i] <==> rows[ids[i]].id !in fails)
  {
  }

  lemma MarkNone(rows: seq<Message>, ids: seq<nat>)
    requires Rooted(rows, ids)
    ensures Mark(rows, ids, []) == rows
  {
  }

  /** The next mark falls on a row no earlier mark touched. */
  lemma MarkNext(rows: seq<Message>, ids: seq<nat>, verdicts: seq<bool>, i: nat)
    requires Claimable(rows, ids) && |verdicts| == |ids| && i < |ids|
    ensures var before := Mark(rows, ids, verdicts[..i]);
      && before[ids[i]] == rows[ids[i]]
      && Mark(rows, ids, verdicts[..i + 1]) == before[ids[i] := Marked(rows[ids[i]], verdicts[i])]
    ensures Trues(verdicts[..i + 1]) == Trues(verdicts[..i]) + if verdicts[i] then 1 else 0
  {
    MarkExactly(rows, ids, verdicts[..i]);
    assert ids[i] !in ids[..i];
    assert verdicts[..i + 1][..i] == verdicts[..i];
  }

  // --- progress ---

  /** Marking one due row removes exactly one due row. */
  lemma {:induction false} MarkedIsNotDue(rows: seq<Message>, now: int, i: nat)
    requires i < |rows| && DueRow(rows[i], now)
    ensures |Due(rows[i := Marked(rows[i], true)], now, {})| == |Due(rows, now, {})| - 1
  {
    var last := |rows| - 1;
    var rows' := rows[i := Marked(rows[i], true)];
    if i == last {
      assert rows'[..last] == rows[..last];
    } else {
      assert rows'[..last] == rows[..last][i := Marked(rows[i], true)];
      MarkedIsNotDue(rows[..last], now, i);
    }
  }

  lemma {:induction false} MarksReduceDue(rows: seq<Message>, now: int, ids: seq<nat>, verdicts: seq<bool>)
    requires |verdicts| <= |ids| && forall i :: 0 <= i < |verdicts| ==> verdicts[i]
    requires forall i :: 0 <= i < |ids| ==> ids[i] < |rows| && DueRow(rows[ids[i]], now)
    requires forall i, j :: 0 <= i < j < |ids| ==> ids[i] != ids[j]
    ensures |Due(Mark(rows, ids, verdicts), now, {})| == |Due(rows, now, {})| - |verdicts|
  {
    if |verdicts| > 0 {
      var k := |verdicts| - 1;
      MarksReduceDue(rows, now, ids, verdicts[..k]);
      MarkExactly(rows, ids, verdicts[..k]);
      assert ids[k] !in ids[..k];
      MarkedIsNotDue(Mark(rows, ids, verdicts[..k]), now, ids[k]);
    }
  }

  lemma {:induction false} AllTrue(verdicts: seq<bool>)
    requires forall i :: 0 <= i < |verdicts| ==> verdicts[i]
    ensures Trues(verdicts) == |verdicts|
  {
    if |verdicts| > 0 {
      AllTrue(verdicts[..|verdicts| - 1]);
    }
  }

  /** Without failures an iteration marks min(batchSize, due) rows and reports that many. */
  lemma RunOnceProgress(rows: seq<Message>, now: int, batch: nat)
    ensures var n := |Due(rows, now, {})|; var rows' := RunOnceRows(rows, now, batch, {});
      && |Due(rows', now, {})| == n - Min(batch, n)
      && |rows'| == |rows|
    ensures var ids := Claim(rows, now, {}, batch);
      && Rooted(rows, ids)
      && Trues(Verdicts(rows, ids, {})) == Min(batch, |Due(rows, now, {})|)
  {
    ClaimIsFirst(rows, now, {}, batch);
    var ids := Claim(rows, now, {}, batch);
    MarksReduceDue(rows, now, ids, Verdicts(rows, ids, {}));
    AllTrue(Verdicts(rows, ids, {}));
  }

  function Iterate(rows: seq<Message>, now: int, batch: nat, runs: nat): seq<Message> {
    if runs == 0 then rows else RunOnceRows(Iterate(rows, now, batch, runs - 1), now, batch, {})
  }

  function Times(a: nat, b: nat): nat {
    a * b
  }

  lemma {:induction false} IterateProgress(rows: seq<Message>, now: int, batch: nat, runs: nat)
    ensures |Due(Iterate(rows, now, batch, runs), now, {})| ==
      |Due(rows, now, {})| - Min(Times(runs, batch), |Due(rows, now, {})|)
  {
    hide Due, RunOnceRows;
    if runs > 0 {
      IterateProgress(rows, now, batch, runs - 1);
      RunOnceProgress(Iterate(rows, now, batch, runs - 1), now, batch);
      assert Times(runs, batch) == Times(runs - 1, batch) + batch;
    }
  }

  /** n due rows drain in ceil(n / batchSize) iterations and not in fewer. */
  lemma DrainsInCeil(rows: seq<Message>, now: int, batch: nat, runs: nat)
    requires batch > 0
    ensures Due(Iterate(rows, now, batch, runs), now, {}) == [] <==>
      runs >= (|Due(rows, now, {})| + batch - 1) / batch
  {
    hide Due, Iterate;
    IterateProgress(rows, now, batch, runs);
    CeilExactly(|Due(rows, now, {})|, batch, runs);
  }

  lemma CeilExactly(n: nat, batch: nat, runs: nat)
    requires batch > 0
    ensures Times(runs, batch) >= n <==> runs >= (n + batch - 1) / batch
  {
    var q, r := (n + batch - 1) / batch, (n + batch - 1) % batch;
    assert n + batch - 1 == batch * q + r;
    if runs >= q {
      assert (runs - q) * batch >= 0;
      assert runs * batch == q * batch + (runs - q) * batch;
    } else {
      assert (q - 1 - runs) * batch >= 0;
      assert runs * batch == (q - 1) * batch - (q - 1 - runs) * batch;
    }
  }

  // --- the same iteration as steps of the machine ---

  function DispatchSteps(relay: nat, verdicts: seq<bool>): seq<Step> {
    seq(|verdicts|, i requires 0 <= i < |verdicts| =>
      if verdicts[i] then Dispatch(relay) else DispatchFails(relay, false))
  }

  lemma DispatchesOne(s: State, relay: nat, ok: bool)
    requires HasNext(s, relay)
    ensures var s' := Apply(s, if ok then Dispatch(relay) else DispatchFails(relay, false));
      && s'.rows == s.rows && relay in s'.relays
      && s'.relays[relay] == Outbox.Relay(s.relays[relay].claimed, s.relays[relay].verdicts + [ok])
  {
  }

  lemma {:induction false} RunDispatches(s: State, relay: nat, verdicts: seq<bool>)
    requires relay in s.relays && |s.relays[relay].verdicts| + |verdicts| <= |s.relays[relay].claimed|
    requires Rooted(s.rows, s.relays[relay].claimed)
    ensures var s' := Run(s, DispatchSteps(relay, verdicts));
      && s'.rows == s.rows && relay in s'.relays
      && s'.relays[relay] == Outbox.Relay(s.relays[relay].claimed, s.relays[relay].verdicts + verdicts)
    decreases |verdicts|
  {
    hide Apply;
    var steps := DispatchSteps(relay, verdicts);
    if verdicts == [] {
      assert s.relays[relay].verdicts + verdicts == s.relays[relay].verdicts;
    } else {
      DispatchesOne(s, relay, verdicts[0]);
      var s1 := Apply(s, steps[0]);
      assert steps[1..] == DispatchSteps(relay, verdicts[1..]);
      RunDispatches(s1, relay, verdicts[1..]);
      assert s.relays[relay].verdicts + verdicts == (s.relays[relay].verdicts + [verdicts[0]]) + verdicts[1..];
    }
  }

  lemma ClaimsAlone(s: State, relay: nat, batch: nat)
    requires s.relays == map[]
    ensures var s' := Apply(s, Claims(relay, batch));
      && s'.rows == s.rows && relay in s'.relays
      && s'.relays[relay] == Outbox.Relay(Claim(s.rows, s.now, {}, batch), [])
  {
    assert Locked(s.relays) == {};
  }

  lemma CommitsAll(s: State, relay: nat)
    requires ReadyToCommit(s, relay)
    ensures Apply(s, RelayCommits(relay)).rows == Mark(s.rows, s.relays[relay].claimed, s.relays[relay].verdicts)
  {
  }

  /** Without rivals, claim, dispatches and commit of the machine leave the rows runOnce leaves. */
  lemma RunOnceIsARun(s: State, relay: nat, batch: nat, fails: set<JobId>)
    requires s.relays == map[]
    ensures var ids := Claim(s.rows, s.now, {}, batch);
      && Rooted(s.rows, ids)
      && var claimed := Apply(s, Claims(relay, batch));
         var dispatched := Run(claimed, DispatchSteps(relay, Verdicts(s.rows, ids, fails)));
         Apply(dispatched, RelayCommits(relay)).rows == RunOnceRows(s.rows, s.now, batch, fails)
  {
    hide Apply, Claim, Run, Mark;
    ClaimIsClaimable(s.rows, s.now, batch);
    var ids := Claim(s.rows, s.now, {}, batch);
    var claimed := Apply(s, Claims(relay, batch));
    ClaimsAlone(s, relay, batch);
    RunDispatches(claimed, relay, Verdicts(s.rows, ids, fails));
    assert [] + Verdicts(s.rows, ids, fails) == Verdicts(s.rows, ids, fails);
    CommitsAll(Run(claimed, DispatchSteps(relay, Verdicts(s.rows, ids, fails))), relay);
  }
}
