/** The fixed-window rate limiter with a block key, and its bound over every trace of hits.

    The script runs atomically on two Redis keys. A key with an expiry exists until that instant.
  */
module Limiter {

  datatype Counter = NoCounter | Counter(count: nat, expiresAt: int)
  datatype Block = NoBlock | Block(expiresAt: int)
  datatype Keys = Keys(counter: Counter, block: Block)
  datatype Policy = Policy(ttl: int, limit: nat, blockDuration: int)
  datatype Hit = Hit(totalHits: nat, timeToExpire: int, blocked: bool, timeToBlockExpire: int)

  /** Configured policies are positive integers. */
  predicate Positive(p: Policy) {
    p.ttl > 0 && p.limit > 0 && p.blockDuration > 0
  }

  /** What Redis still holds at an instant. */
  function Live(keys: Keys, now: int): Keys {
    Keys(if keys.counter.Counter? && keys.counter.expiresAt > now then keys.counter else NoCounter,
         if keys.block.Block? && keys.block.expiresAt > now then keys.block else NoBlock)
  }

  function Counted(keys: Keys, p: Policy, now: int): Counter {
    var counter := Live(keys, now).counter;
    if counter.NoCounter? then Counter(1, now + p.ttl) else Counter(counter.count + 1, counter.expiresAt)
  }

  function Blocked(keys: Keys, p: Policy, now: int): Block {
    var block := Live(keys, now).block;
    if Counted(keys, p, now).count > p.limit && block.NoBlock? then Block(now + p.blockDuration) else block
  }

  function After(keys: Keys, p: Policy, now: int): Keys {
    Keys(Counted(keys, p, now), Blocked(keys, p, now))
  }

  function Answer(keys: Keys, p: Policy, now: int): Hit {
    var counter, block := Counted(keys, p, now), Blocked(keys, p, now);
    Hit(counter.count, counter.expiresAt - now, block.Block?, if block.Block? then block.expiresAt - now else 0)
  }

  predicate Admitted(keys: Keys, p: Policy, now: int) {
    !Answer(keys, p, now).blocked
  }

  /** The script statement by statement. */
  class RedisThrottlerStorage {
    var counter: Counter
    var block: Block

    constructor ()
      ensures Contents() == Keys(NoCounter, NoBlock)
    {
      counter, block := NoCounter, NoBlock;
    }

    function Contents(): Keys
      reads this
    {
      Keys(counter, block)
    }

    method Increment(p: Policy, now: int) returns (hit: Hit)
      requires Positive(p)
      modifies this
      ensures Contents() == After(old(Contents()), p, now)
      ensures hit == Answer(old(Contents()), p, now)
    {
      Expire(now);
      var current := 1;
      if counter.Counter? {
        current := counter.count + 1;
        counter := Counter(current, counter.expiresAt);
      } else {
        counter := Counter(current, now + p.ttl);
      }
      var blocked, blockTtl := false, 0;
      if current > p.limit {
        blocked := true;
        if block.NoBlock? {
          block := Block(now + p.blockDuration);
        }
        blockTtl := block.expiresAt - now;
      } else if block.Block? {
        blocked := true;
        blockTtl := block.expiresAt - now;
      }
      hit := Hit(current, counter.expiresAt - now, blocked, blockTtl);
    }

    method Expire(now: int)
      modifies this
      ensures Contents() == Live(old(Contents()), now)
    {
      if counter.Counter? && counter.expiresAt <= now {
        counter := NoCounter;
      }
      if block.Block? && block.expiresAt <= now {
        block := NoBlock;
      }
    }
  }

  // --- traces ---

  /** Hit instants in order of arrival. */
  ghost predicate Ordered(times: seq<int>) {
    forall i, j :: 0 <= i < j < |times| ==> times[i] <= times[j]
  }

  /** The keys after the first hits of a trace on an empty store. */
  function Trace(p: Policy, times: seq<int>): Keys {
    if |times| == 0 then Keys(NoCounter, NoBlock)
    else After(Trace(p, times[..|times| - 1]), p, times[|times| - 1])
  }

  predicate AdmittedAt(p: Policy, times: seq<int>, i: nat)
    requires i < |times|
  {
    Admitted(Trace(p, times[..i]), p, times[i])
  }

  /** The expiry of the counter that hit `i` was counted in; it names the window of the hit. */
  function Window(p: Policy, times: seq<int>, i: nat): int
    requires i < |times|
  {
    Counted(Trace(p, times[..i]), p, times[i]).expiresAt
  }

  /** How many of the first `n` hits were admitted in a window. */
  function AdmittedIn(p: Policy, times: seq<int>, n: nat, window: int): nat
    requires n <= |times|
  {
    if n == 0 then 0
    else AdmittedIn(p, times, n - 1, window)
         + if AdmittedAt(p, times, n - 1) && Window(p, times, n - 1) == window then 1 else 0
  }

  lemma TraceStep(p: Policy, times: seq<int>, i: nat)
    requires i < |times|
    ensures Trace(p, times[..i + 1]) == After(Trace(p, times[..i]), p, times[i])
  {
    assert times[..i + 1][..i] == times[..i];
  }

  /** The counter counts at least the admitted hits of its window, and no window ends later. */
  lemma {:induction false} CounterCounts(p: Policy, times: seq<int>, n: nat)
    requires Positive(p) && Ordered(times) && n <= |times|
    ensures var counter := Trace(p, times[..n]).counter;
      && (n > 0 ==> counter.Counter? && times[n - 1] < counter.expiresAt <= times[n - 1] + p.ttl)
      && (counter.NoCounter? ==> n == 0)
      && (forall window :: AdmittedIn(p, times, n, window) > 0 ==>
            counter.Counter? && window <= counter.expiresAt)
      && (counter.Counter? ==>
            AdmittedIn(p, times, n, counter.expiresAt) <= counter.count
            && AdmittedIn(p, times, n, counter.expiresAt) <= p.limit)
      && (forall window :: AdmittedIn(p, times, n, window) <= p.limit)
  {
    if n > 0 {
      CounterCounts(p, times, n - 1);
      TraceStep(p, times, n - 1);
    }
  }

  /** At most `limit` hits are admitted per counter window, on every trace. */
  lemma WindowBound(p: Policy, times: seq<int>, n: nat, window: int)
    requires Positive(p) && Ordered(times) && n <= |times|
    ensures AdmittedIn(p, times, n, window) <= p.limit
  {
    CounterCounts(p, times, n);
  }

  /** Every hit arrives in the last `ttl` before its window ends. */
  lemma HitInWindow(p: Policy, times: seq<int>, i: nat)
    requires Positive(p) && Ordered(times) && i < |times|
    ensures times[i] < Window(p, times, i) <= times[i] + p.ttl
  {
    CounterCounts(p, times, i);
    if i > 0 {
      assert times[i - 1] <= times[i];
    }
  }

  /** Windows never go back, and a later window ends at least `ttl` after an earlier one. */
  lemma {:induction false} WindowsApart(p: Policy, times: seq<int>, i: nat, j: nat)
    requires Positive(p) && Ordered(times) && i <= j < |times|
    ensures Window(p, times, i) == Window(p, times, j) || Window(p, times, i) + p.ttl <= Window(p, times, j)
    decreases j - i
  {
    if i < j {
      WindowsApart(p, times, i, j - 1);
      TraceStep(p, times, j - 1);
    }
  }

  // --- any span of length ttl ---

  /** Admitted hits among the first `n` that fall in the half-open span. */
  function AdmittedBetween(p: Policy, times: seq<int>, n: nat, from: int, to: int): nat
    requires n <= |times|
  {
    if n == 0 then 0
    else AdmittedBetween(p, times, n - 1, from, to)
         + if AdmittedAt(p, times, n - 1) && from <= times[n - 1] < to then 1 else 0
  }

  /** Admitted hits of a window among the first `n` that arrived at or after an instant. */
  function LateIn(p: Policy, times: seq<int>, n: nat, window: int, from: int): nat
    requires n <= |times|
  {
    if n == 0 then 0
    else LateIn(p, times, n - 1, window, from)
         + if AdmittedAt(p, times, n - 1) && Window(p, times, n - 1) == window && from <= times[n - 1] then 1 else 0
  }

  /** The hit that opened a window counts against its limit, so later hits share the rest of it. */
  lemma {:induction false} LateCounts(p: Policy, times: seq<int>, n: nat, window: int, from: int)
    requires Positive(p) && Ordered(times) && n <= |times| && window - p.ttl < from
    ensures LateIn(p, times, n, window, from) <= p.limit - 1
    ensures var counter := Trace(p, times[..n]).counter;
      && (LateIn(p, times, n, window, from) > 0 ==> counter.Counter? && window <= counter.expiresAt)
      && (counter.Counter? && counter.expiresAt == window ==>
            LateIn(p, times, n, window, from) + 1 <= counter.count)
      && (n > 0 ==> counter.Counter? && times[n - 1] < counter.expiresAt <= times[n - 1] + p.ttl)
      && (n == 0 ==> counter.NoCounter?)
  {
    if n > 0 {
      LateCounts(p, times, n - 1, window, from);
      TraceStep(p, times, n - 1);
    }
  }

  /** Any half-open span of length ttl admits fewer than twice the limit: it meets at most two windows,
      and when it meets two, the hit that opened the first one came before the span.
    */
  lemma SpanBound(p: Policy, times: seq<int>, from: int)
    requires Positive(p) && Ordered(times)
    ensures AdmittedBetween(p, times, |times|, from, from + p.ttl) <= 2 * p.limit - 1
  {
    if i :| 0 <= i < |times| && from <= times[i] < from + p.ttl {
      var first := FirstIn(p, times, from, i);
      var w1 := Window(p, times, first);
      var w2 := OtherWindow(p, times, from, first);
      WindowBound(p, times, |times|, w2);
      if w1 == w2 {
        OneWindow(p, times, from, w1, |times|);
      } else {
        SpanSplits(p, times, from, w1, w2, |times|);
        LateCounts(p, times, |times|, w1, from);
      }
    } else {
      NoneBetween(p, times, from, |times|);
    }
  }

  lemma {:induction false} NoneBetween(p: Policy, times: seq<int>, from: int, n: nat)
    requires n <= |times| && forall i :: 0 <= i < |times| ==> !(from <= times[i] < from + p.ttl)
    ensures AdmittedBetween(p, times, n, from, from + p.ttl) == 0
  {
    if n > 0 {
      NoneBetween(p, times, from, n - 1);
    }
  }

  lemma {:induction false} FirstIn(p: Policy, times: seq<int>, from: int, i: nat) returns (first: nat)
    requires Ordered(times) && i < |times| && from <= times[i] < from + p.ttl
    ensures first < |times| && from <= times[first] < from + p.ttl
    ensures forall j :: 0 <= j < |times| && from <= times[j] ==> first <= j
    decreases i
  {
    if i > 0 && from <= times[i - 1] {
      first := FirstIn(p, times, from, i - 1);
    } else {
      first := i;
    }
  }

  /** All hits of the span fall in the window of its first hit or in one later window. */
  lemma OtherWindow(p: Policy, times: seq<int>, from: int, first: nat) returns (w2: int)
    requires Positive(p) && Ordered(times) && first < |times| && from <= times[first] < from + p.ttl
    requires forall j :: 0 <= j < |times| && from <= times[j] ==> first <= j
    ensures forall j :: 0 <= j < |times| && from <= times[j] < from + p.ttl ==>
              Window(p, times, j) == Window(p, times, first) || Window(p, times, j) == w2
    ensures w2 != Window(p, times, first) ==> Window(p, times, first) - p.ttl < from
  {
    HitInWindow(p, times, first);
    if k :| 0 <= k < |times| && from <= times[k] < from + p.ttl && Window(p, times, k) != Window(p, times, first) {
      w2 := Window(p, times, k);
      WindowsApart(p, times, first, k);
      HitInWindow(p, times, k);
      forall j | 0 <= j < |times| && from <= times[j] < from + p.ttl && Window(p, times, j) != Window(p, times, first)
        ensures Window(p, times, j) == w2
      {
        WindowsApart(p, times, first, j);
        HitInWindow(p, times, j);
        if j <= k {
          WindowsApart(p, times, j, k);
        } else {
          WindowsApart(p, times, k, j);
        }
      }
    } else {
      w2 := Window(p, times, first);
    }
  }

  lemma {:induction false} OneWindow(p: Policy, times: seq<int>, from: int, window: int, n: nat)
    requires n <= |times|
    requires forall j :: 0 <= j < |times| && from <= times[j] < from + p.ttl ==> Window(p, times, j) == window
    ensures AdmittedBetween(p, times, n, from, from + p.ttl) <= AdmittedIn(p, times, n, window)
  {
    if n > 0 {
      OneWindow(p, times, from, window, n - 1);
    }
  }

  lemma {:induction false} SpanSplits(p: Policy, times: seq<int>, from: int, w1: int, w2: int, n: nat)
    requires n <= |times|
    requires forall j :: 0 <= j < |times| && from <= times[j] < from + p.ttl ==>
               Window(p, times, j) == w1 || Window(p, times, j) == w2
    ensures AdmittedBetween(p, times, n, from, from + p.ttl) <=
              LateIn(p, times, n, w1, from) + AdmittedIn(p, times, n, w2)
  {
    if n > 0 {
      SpanSplits(p, times, from, w1, w2, n - 1);
    }
  }

  // --- the block key ---

  /** While a block key lives, every hit is refused and the key keeps its expiry. */
  lemma BlockedUntilExpiry(p: Policy, times: seq<int>, i: nat, j: nat)
    requires Positive(p) && Ordered(times) && i <= j < |times|
    requires Trace(p, times[..i]).block.Block? && times[j] < Trace(p, times[..i]).block.expiresAt
    ensures !AdmittedAt(p, times, j)
    ensures Trace(p, times[..j]).block == Trace(p, times[..i]).block
    decreases j - i
  {
    if i < j {
      assert times[j - 1] <= times[j];
      BlockedUntilExpiry(p, times, i, j - 1);
      TraceStep(p, times, j - 1);
    }
  }

  /** A hit is refused exactly when it is over the limit of its window or meets a live block, and a new
      block starts exactly when a hit over the limit meets none.
    */
  lemma RefusedExactly(keys: Keys, p: Policy, now: int)
    ensures !Admitted(keys, p, now) <==>
      Counted(keys, p, now).count > p.limit || Live(keys, now).block.Block?
    ensures Live(keys, now).block.NoBlock? ==>
      (After(keys, p, now).block == Block(now + p.blockDuration) <==> Counted(keys, p, now).count > p.limit)
  {
  }

  /** One hit on the two keys, in full: a counter that has not expired counts on and keeps its end, any other
      starts at one; a hit over the limit starts a block unless one still runs; a running block refuses.
    */
  lemma HitExactly(keys: Keys, p: Policy, now: int)
    ensures var hit := Answer(keys, p, now); var after := After(keys, p, now);
      var counting := keys.counter.Counter? && now < keys.counter.expiresAt;
      var blocking := keys.block.Block? && now < keys.block.expiresAt;
      && hit.totalHits == (if counting then keys.counter.count + 1 else 1)
      && after.counter == Counter(hit.totalHits, if counting then keys.counter.expiresAt else now + p.ttl)
      && now + hit.timeToExpire == after.counter.expiresAt
      && (hit.blocked <==> blocking || hit.totalHits > p.limit)
      && after.block == (if blocking then keys.block else if hit.blocked then Block(now + p.blockDuration) else NoBlock)
      && hit.timeToBlockExpire == (if hit.blocked then after.block.expiresAt - now else 0)
  {
  }

  /** Hit `j` opened the window of hit `i`: it met no running counter, and every hit since falls in its time. */
  ghost predicate Opened(p: Policy, times: seq<int>, j: nat, i: nat) {
    && j <= i < |times|
    && (forall k :: j <= k <= i ==> times[k] < times[j] + p.ttl && Window(p, times, k) == times[j] + p.ttl)
    && (j > 0 ==> Window(p, times, j - 1) <= times[j])
  }

  /** Where hit `i` finds the counter and where it leaves it. */
  lemma HitCounts(p: Policy, times: seq<int>, i: nat)
    requires i < |times|
    ensures var before, after := Trace(p, times[..i]).counter, Trace(p, times[..i + 1]).counter;
      && after == (if before.Counter? && times[i] < before.expiresAt then Counter(before.count + 1, before.expiresAt)
                   else Counter(1, times[i] + p.ttl))
      && Window(p, times, i) == after.expiresAt
      && var hit := Answer(Trace(p, times[..i]), p, times[i]);
         hit.totalHits == after.count && times[i] + hit.timeToExpire == after.expiresAt
  {
    TraceStep(p, times, i);
    hide Trace;
  }

  lemma FirstHitOpens(p: Policy, times: seq<int>)
    requires Positive(p) && |times| > 0
    ensures Opened(p, times, 0, 0) && Trace(p, times[..1]).counter == Counter(1, times[0] + p.ttl)
  {
    HitCounts(p, times, 0);
    assert times[..0] == [];
    assert Trace(p, []).counter == NoCounter;
    hide Trace, Window;
  }

  lemma StaysOpen(p: Policy, times: seq<int>, i: nat, k: nat)
    requires 0 < i < |times| && Opened(p, times, k, i - 1)
    requires times[i] < times[k] + p.ttl && Window(p, times, i) == times[k] + p.ttl
    ensures Opened(p, times, k, i)
  {
    hide Window;
  }

  lemma OpensAnew(p: Policy, times: seq<int>, i: nat)
    requires Positive(p) && 0 < i < |times|
    requires Window(p, times, i - 1) <= times[i] && Window(p, times, i) == times[i] + p.ttl
    ensures Opened(p, times, i, i)
  {
    hide Window;
  }

  /** The next hit falls into the running window, or opens its own. */
  lemma NextHit(p: Policy, times: seq<int>, i: nat, k: nat) returns (j: nat)
    requires Positive(p) && 0 < i < |times| && Opened(p, times, k, i - 1)
    requires Trace(p, times[..i]).counter == Counter(i - k, times[k] + p.ttl)
    ensures Opened(p, times, j, i)
    ensures Trace(p, times[..i + 1]).counter == Counter(i - j + 1, times[j] + p.ttl)
  {
    HitCounts(p, times, i);
    assert Window(p, times, i - 1) == times[k] + p.ttl;
    hide Trace, Window, Opened, Answer;
    if times[i] < times[k] + p.ttl {
      StaysOpen(p, times, i, k);
      j := k;
    } else {
      OpensAnew(p, times, i);
      j := i;
    }
  }

  lemma {:induction false} CounterOpened(p: Policy, times: seq<int>, i: nat) returns (j: nat)
    requires Positive(p) && Ordered(times) && i < |times|
    ensures Opened(p, times, j, i)
    ensures Trace(p, times[..i + 1]).counter == Counter(i - j + 1, times[j] + p.ttl)
  {
    hide Trace, Opened, Ordered;
    if i == 0 {
      FirstHitOpens(p, times);
      j := 0;
    } else {
      var k := CounterOpened(p, times, i - 1);
      j := NextHit(p, times, i, k);
    }
  }

  /** On every trace a hit reports how many hits its window has seen, itself included, and when it ends. */
  lemma HitsAreCounted(p: Policy, times: seq<int>, i: nat) returns (j: nat)
    requires Positive(p) && Ordered(times) && i < |times|
    ensures Opened(p, times, j, i)
    ensures var hit := Answer(Trace(p, times[..i]), p, times[i]);
      hit.totalHits == i - j + 1 && times[i] + hit.timeToExpire == times[j] + p.ttl
  {
    j := CounterOpened(p, times, i);
    hide Trace, Answer, Opened;
    HitCounts(p, times, i);
  }

  // --- the bound is attained ---

  /** One hit opens a window, the rest of its limit comes just before it ends, and a full limit follows. */
  function Burst(p: Policy): (times: seq<int>)
    ensures |times| == 2 * p.limit
    ensures forall i :: 0 <= i < |times| ==>
              times[i] == if i == 0 then 0 else if i < p.limit then p.ttl - 1 else p.ttl
  {
    seq(2 * p.limit, i requires 0 <= i < 2 * p.limit =>
      if i == 0 then 0 else if i < p.limit then p.ttl - 1 else p.ttl)
  }

  lemma {:induction false} BurstTrace(p: Policy, n: nat)
    requires Positive(p) && p.ttl >= 2 && 1 <= n <= 2 * p.limit
    ensures Trace(p, Burst(p)[..n])
         == Keys(if n <= p.limit then Counter(n, p.ttl) else Counter(n - p.limit, 2 * p.ttl), NoBlock)
    ensures AdmittedAt(p, Burst(p), n - 1)
  {
    var times := Burst(p);
    TraceStep(p, times, n - 1);
    if n > 1 {
      BurstTrace(p, n - 1);
    } else {
      assert times[..0] == [];
    }
  }

  lemma {:induction false} BurstCounts(p: Policy, n: nat)
    requires Positive(p) && p.ttl >= 2 && 1 <= n <= 2 * p.limit
    ensures AdmittedBetween(p, Burst(p), n, p.ttl - 1, 2 * p.ttl - 1) == n - 1
  {
    hide AdmittedAt;
    BurstTrace(p, n);
    if n > 1 {
      BurstCounts(p, n - 1);
    } else {
      assert AdmittedBetween(p, Burst(p), 0, p.ttl - 1, 2 * p.ttl - 1) == 0;
    }
  }

  /** The span that starts at `from` admits twice the limit less one of the trace. */
  ghost predicate MeetsBound(p: Policy, times: seq<int>, from: int) {
    Ordered(times) && AdmittedBetween(p, times, |times|, from, from + p.ttl) == 2 * p.limit - 1
  }

  /** For every policy with a window of at least two instants the bound of SpanBound is attained. */
  lemma SpanBoundMet(p: Policy)
    requires Positive(p) && p.ttl >= 2
    ensures MeetsBound(p, Burst(p), p.ttl - 1)
  {
    BurstCounts(p, 2 * p.limit);
  }

  /** Hits of one instant share a window. */
  lemma InstantBound(p: Policy, times: seq<int>, from: int)
    requires Positive(p) && Ordered(times) && p.ttl == 1
    ensures AdmittedBetween(p, times, |times|, from, from + 1) <= p.limit
  {
    forall i | 0 <= i < |times| && from <= times[i] < from + 1 ensures Window(p, times, i) == from + 1 {
      HitInWindow(p, times, i);
    }
    OneWindow(p, times, from, from + 1, |times|);
    WindowBound(p, times, |times|, from + 1);
  }

  /** The bound is attained on some trace exactly when a window is longer than one instant, or admits one hit. */
  lemma SpanBoundMetExactly(p: Policy)
    requires Positive(p)
    ensures (exists times, from :: MeetsBound(p, times, from)) <==> p.ttl >= 2 || p.limit == 1
  {
    if p.ttl >= 2 {
      SpanBoundMet(p);
    } else if p.limit == 1 {
      SingleHit(p);
      assert MeetsBound(p, [0], 0);
    } else {
      forall times, from ensures !MeetsBound(p, times, from) {
        if Ordered(times) {
          InstantBound(p, times, from);
        }
      }
    }
  }

  lemma SingleHit(p: Policy)
    requires Positive(p)
    ensures AdmittedBetween(p, [0], 1, 0, 0 + p.ttl) == 1
  {
    assert AdmittedBetween(p, [0], 0, 0, p.ttl) == 0;
    assert [0][..0] == [];
  }
}
