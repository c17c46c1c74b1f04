/** The retry budget and the sliding-window limiter: a deque of recent grants against a window. */
module Windows {
  import opened Wrappers

  // ---------- the deques, on values ----------

  /** The retry budget's pruning, by age. */
  function PruneExpired(q: seq<real>, now: real, window: real): seq<real> {
    if q != [] && now - q[0] > window then PruneExpired(q[1..], now, window) else q
  }

  /** The limiter's pruning, by cutoff. */
  function EvictBefore(q: seq<real>, cutoff: real): seq<real> {
    if q != [] && q[0] < cutoff then EvictBefore(q[1..], cutoff) else q
  }

  lemma {:induction false} SamePruning(q: seq<real>, now: real, window: real)
    ensures PruneExpired(q, now, window) == EvictBefore(q, now - window)
  {
    if q != [] { SamePruning(q[1..], now, window); }
  }

  class RetryBudget {
    const maxRetryTokens: int
    const window: real
    var timestamps: seq<real>

    constructor (maxRetryTokens: int, window: real)
      requires maxRetryTokens > 0 && window > 0.0
      ensures this.maxRetryTokens == maxRetryTokens && this.window == window && timestamps == []
    {
      this.maxRetryTokens, this.window, timestamps := maxRetryTokens, window, [];
    }

    method Prune(now: real)
      modifies this
      ensures timestamps == PruneExpired(old(timestamps), now, window)
    {
      while timestamps != [] && now - timestamps[0] > window
        invariant PruneExpired(timestamps, now, window) == PruneExpired(old(timestamps), now, window)
        decreases |timestamps|
      {
        timestamps := timestamps[1..];
      }
    }

    method ConsumeRetry(now: real) returns (granted: bool)
      modifies this
      ensures var q := PruneExpired(old(timestamps), now, window);
              granted == (|q| < maxRetryTokens) && timestamps == if granted then q + [now] else q
    {
      Prune(now);
      if |timestamps| >= maxRetryTokens {
        return false;
      }
      timestamps := timestamps + [now];
      return true;
    }

    method TokensUsed(now: real) returns (used: nat)
      modifies this
      ensures timestamps == PruneExpired(old(timestamps), now, window) && used == |timestamps|
    {
      Prune(now);
      return |timestamps|;
    }
  }

  /** `RetryBudget(...)`: ValueError for arguments it refuses. */
  method NewRetryBudget(maxRetryTokens: int, window: real) returns (r: Result<RetryBudget, string>)
    ensures r.Ok? <==> maxRetryTokens > 0 && window > 0.0
    ensures r.Ok? ==> fresh(r.value) && r.value.timestamps == []
    ensures r.Ok? ==> r.value.maxRetryTokens == maxRetryTokens && r.value.window == window
  {
    if maxRetryTokens <= 0 {
      return Err("max_retry_tokens must be > 0");
    }
    if window <= 0.0 {
      return Err("window_seconds must be > 0");
    }
    var budget := new RetryBudget(maxRetryTokens, window);
    return Ok(budget);
  }

  class SlidingWindowLimiter {
    const limit: int
    const window: real
    var windows: map<string, seq<real>>

    function WindowOf(key: string): seq<real>
      reads this
    {
      if key in windows then windows[key] else []
    }

    constructor (limit: int, window: real)
      ensures this.limit == limit && this.window == window && windows == map[]
    {
      this.limit, this.window, windows := limit, window, map[];
    }

    method IsAllowed(key: string, now: real) returns (allowed: bool, remaining: int)
      modifies this
      ensures var q := EvictBefore(old(WindowOf(key)), now - window);
              && allowed == (|q| < limit) && remaining == (if allowed then limit - |q| - 1 else 0)
              && windows == old(windows)[key := if allowed then q + [now] else q]
    {
      var q := WindowOf(key);
      var cutoff := now - window;
      while q != [] && q[0] < cutoff
        invariant EvictBefore(q, cutoff) == EvictBefore(old(WindowOf(key)), cutoff)
        decreases |q|
      {
        q := q[1..];
      }
      var count := |q|;
      if count < limit {
        windows := windows[key := q + [now]];
        return true, limit - count - 1;
      }
      windows := windows[key := q];
      return false, 0;
    }

    /** Without jitter. */
    method ResetIn(key: string, now: real) returns (seconds: real)
      ensures seconds == Reset(WindowOf(key), window, now)
    {
      var q := WindowOf(key);
      if q == [] {
        return 0.0;
      }
      var resetAt := q[0] + window;
      return if resetAt - now < 0.0 then 0.0 else resetAt - now;
    }
  }

  function Reset(q: seq<real>, window: real, now: real): real {
    if q == [] || q[0] + window - now < 0.0 then 0.0 else q[0] + window - now
  }

  // ---------- what the deque is ----------

  /** Times in nondecreasing order. */
  ghost predicate Sorted(ts: seq<real>) { forall i, j | 0 <= i < j < |ts| :: ts[i] <= ts[j] }

  /** How many of them lie in the closed interval. */
  function Count(ts: seq<real>, low: real, high: real): nat {
    if ts == [] then 0
    else Count(ts[..|ts| - 1], low, high) + if low <= ts[|ts| - 1] <= high then 1 else 0
  }

  /** The deque and all grants so far, after asking at each of the times. */
  function Asked(limit: int, window: real, ts: seq<real>): (seq<real>, seq<real>) {
    if ts == [] then ([], [])
    else
      var (q, grants) := Asked(limit, window, ts[..|ts| - 1]);
      var now := ts[|ts| - 1];
      var kept := PruneExpired(q, now, window);
      if |kept| < limit then (kept + [now], grants + [now]) else (kept, grants)
  }

  /** `q` is the part of `grants` of age at most `window`, and it is a suffix of them. */
  ghost predicate IsRecent(q: seq<real>, grants: seq<real>, now: real, window: real) {
    exists k | 0 <= k <= |grants| :: Splits(q, grants, now, window, k)
  }

  ghost predicate Splits(q: seq<real>, grants: seq<real>, now: real, window: real, k: nat) {
    k <= |grants| && q == grants[k..]
    && (forall i | 0 <= i < k :: now - grants[i] > window)
    && forall i | k <= i < |grants| :: now - grants[i] <= window
  }

  ghost predicate UpTo(grants: seq<real>, now: real) { forall g | g in grants :: g <= now }

  /** Pruning a suffix of sorted grants at a later time leaves exactly the recent ones. */
  lemma {:induction false} PruneLeavesRecent(grants: seq<real>, k: nat, now: real, window: real) returns (m: nat)
    requires Sorted(grants) && k <= |grants|
    requires forall i | 0 <= i < k :: now - grants[i] > window
    ensures Splits(PruneExpired(grants[k..], now, window), grants, now, window, m) && k <= m
    decreases |grants| - k
  {
    if k < |grants| && now - grants[k] > window {
      assert grants[k..][1..] == grants[k + 1..];
      m := PruneLeavesRecent(grants, k + 1, now, window);
    } else {
      m := k;
    }
  }

  lemma {:induction false} CountSplit(grants: seq<real>, k: nat, n: nat, now: real, window: real)
    requires k <= n <= |grants|
    requires forall i | 0 <= i < k :: now - grants[i] > window
    requires forall i | k <= i < |grants| :: now - grants[i] <= window
    requires UpTo(grants, now)
    ensures Count(grants[..n], now - window, now) == n - k
  {
    var ts := grants[..n];
    if n > k {
      CountSplit(grants, k, n - 1, now, window);
      assert ts[..n - 1] == grants[..n - 1] && ts[n - 1] == grants[n - 1];
      assert grants[n - 1] in grants;
    } else {
      CountNone(ts, now - window, now);
    }
  }

  lemma {:induction false} CountNone(ts: seq<real>, low: real, high: real)
    requires forall i | 0 <= i < |ts| :: ts[i] < low
    ensures Count(ts, low, high) == 0
  {
    if ts != [] { CountNone(ts[..|ts| - 1], low, high); }
  }

  /** An interval that covers another among these times holds at least as many. */
  lemma {:induction false} CountMonotone(ts: seq<real>, low: real, high: real, low': real, high': real)
    requires forall i | 0 <= i < |ts| :: low <= ts[i] <= high ==> low' <= ts[i] <= high'
    ensures Count(ts, low, high) <= Count(ts, low', high')
  {
    if ts != [] { CountMonotone(ts[..|ts| - 1], low, high, low', high'); }
  }

  /** On a clock that does not go back, the deque always holds exactly the suffix of all grants of age at most the window. */
  lemma {:induction false} DequeIsRecentGrants(limit: int, window: real, ts: seq<real>)
    requires Sorted(ts) && window >= 0.0
    ensures var (q, grants) := Asked(limit, window, ts);
            && Sorted(grants) && (forall g | g in grants :: g in ts)
            && (ts == [] ==> q == [] && grants == [])
            && (ts != [] ==> IsRecent(q, grants, ts[|ts| - 1], window))
  {
    hide PruneExpired, Splits;
    if ts != [] {
      var now := ts[|ts| - 1];
      var front := ts[..|ts| - 1];
      DequeIsRecentGrants(limit, window, front);
      var (q, grants) := Asked(limit, window, front);
      GrantsUpTo(limit, window, front, now, ts);
      var m := KeptAt(q, grants, window, front, now);
      AppendGrant(PruneExpired(q, now, window), grants, now, window, m);
    }
  }

  lemma GrantsUpTo(limit: int, window: real, front: seq<real>, now: real, ts: seq<real>)
    requires Sorted(ts) && ts == front + [now]
    requires forall g | g in Asked(limit, window, front).1 :: g in front
    ensures UpTo(Asked(limit, window, front).1, now)
  {
    forall g | g in Asked(limit, window, front).1 ensures g <= now {
      var i :| 0 <= i < |front| && front[i] == g;
      assert ts[i] == g && ts[|front|] == now;
    }
  }

  lemma KeptAt(q: seq<real>, grants: seq<real>, window: real, front: seq<real>, now: real) returns (m: nat)
    requires Sorted(grants) && UpTo(grants, now)
    requires front == [] ==> q == [] && grants == []
    requires front != [] ==> IsRecent(q, grants, front[|front| - 1], window) && front[|front| - 1] <= now
    ensures Splits(PruneExpired(q, now, window), grants, now, window, m)
  {
    var k := 0;
    if front == [] {
      assert q == grants[0..];
    } else {
      k :| 0 <= k <= |grants| && Splits(q, grants, front[|front| - 1], window, k);
    }
    m := PruneLeavesRecent(grants, k, now, window);
  }

  lemma AppendGrant(kept: seq<real>, grants: seq<real>, now: real, window: real, m: nat)
    requires Sorted(grants) && UpTo(grants, now) && window >= 0.0 && Splits(kept, grants, now, window, m)
    ensures Sorted(grants + [now])
    ensures IsRecent(kept, grants, now, window) && IsRecent(kept + [now], grants + [now], now, window)
  {
    assert forall i | 0 <= i < |grants| :: grants[i] in grants;
    assert Splits(kept + [now], grants + [now], now, window, m);
  }

  /** The deque as it stands once `now` was asked: its length is the number of grants in the closed window. */
  lemma GrantIff(limit: int, window: real, ts: seq<real>, now: real)
    requires Sorted(ts + [now]) && window >= 0.0
    ensures var (q, grants) := Asked(limit, window, ts);
            && |PruneExpired(q, now, window)| == Count(grants, now - window, now)
            && (Asked(limit, window, ts + [now]).1 ==
                  if Count(grants, now - window, now) < limit then grants + [now] else grants)
  {
    hide PruneExpired, IsRecent, Sorted, UpTo, Count;
    assert (ts + [now])[..|ts|] == ts;
    PrefixSorted(ts, now);
    DequeIsRecentGrants(limit, window, ts);
    var (q, grants) := Asked(limit, window, ts);
    GrantsUpTo(limit, window, ts, now, ts + [now]);
    var m := KeptAt(q, grants, window, ts, now);
    assert grants[..|grants|] == grants;
    CountSplit(grants, m, |grants|, now, window);
  }

  lemma PrefixSorted(ts: seq<real>, now: real)
    requires Sorted(ts + [now])
    ensures Sorted(ts) && (ts != [] ==> ts[|ts| - 1] <= now)
  {
    var all := ts + [now];
    assert forall i | 0 <= i < |ts| :: all[i] == ts[i];
    assert all[|ts|] == now;
    if ts != [] { assert all[|ts| - 1] <= all[|ts|]; }
  }

  lemma OneMoreGrant(grants: seq<real>, now: real, window: real, low: real)
    requires UpTo(grants, now) && window >= 0.0
    ensures var after := Count(grants + [now], low, low + window);
            after == Count(grants, low, low + window)
            || (after == Count(grants, low, low + window) + 1 && after <= Count(grants, now - window, now) + 1)
  {
    assert (grants + [now])[..|grants|] == grants;
    if low <= now <= low + window {
      assert forall i | 0 <= i < |grants| :: grants[i] in grants;
      CountMonotone(grants, low, low + window, now - window, now);
    }
  }

  /** No closed interval of window length ever holds more grants than the limit. */
  lemma {:induction false} NeverMoreThanLimit(limit: int, window: real, ts: seq<real>, low: real)
    requires Sorted(ts) && window >= 0.0
    ensures Count(Asked(limit, window, ts).1, low, low + window) <= if limit < 0 then 0 else limit
  {
    hide PruneExpired, Sorted, UpTo, IsRecent;
    if ts == [] {
      assert Count([], low, low + window) == 0;
    } else {
      hide Count;
      var front, now := ts[..|ts| - 1], ts[|ts| - 1];
      assert front + [now] == ts;
      PrefixSorted(front, now);
      NeverMoreThanLimit(limit, window, front, low);
      GrantIff(limit, window, front, now);
      DequeIsRecentGrants(limit, window, front);
      GrantsUpTo(limit, window, front, now, ts);
      OneMoreGrant(Asked(limit, window, front).1, now, window, low);
    }
  }

  // ---------- the two limiters agree ----------

  /** The limiter's deque and answers for one key. */
  function Allowed(limit: int, window: real, ts: seq<real>): (seq<real>, seq<bool>) {
    if ts == [] then ([], [])
    else
      var (q, answers) := Allowed(limit, window, ts[..|ts| - 1]);
      var now := ts[|ts| - 1];
      var kept := EvictBefore(q, now - window);
      (if |kept| < limit then kept + [now] else kept, answers + [|kept| < limit])
  }

  /** The budget's deque and answers, when it may also be asked for its use in between (`false`). */
  function Budgeted(limit: int, window: real, asks: seq<(real, bool)>): (seq<real>, seq<bool>) {
    if asks == [] then ([], [])
    else
      var (q, answers) := Budgeted(limit, window, asks[..|asks| - 1]);
      var (now, consume) := asks[|asks| - 1];
      var kept := PruneExpired(q, now, window);
      if !consume then (kept, answers)
      else (if |kept| < limit then kept + [now] else kept, answers + [|kept| < limit])
  }

  function Consuming(asks: seq<(real, bool)>): seq<real> {
    if asks == [] then []
    else Consuming(asks[..|asks| - 1]) + if asks[|asks| - 1].1 then [asks[|asks| - 1].0] else []
  }

  ghost predicate InOrder(asks: seq<(real, bool)>) { forall i, j | 0 <= i < j < |asks| :: asks[i].0 <= asks[j].0 }

  lemma {:induction false} PruneTwice(q: seq<real>, before: real, now: real, window: real)
    requires before <= now
    ensures PruneExpired(PruneExpired(q, before, window), now, window) == PruneExpired(q, now, window)
  {
    if q != [] && before - q[0] > window { PruneTwice(q[1..], before, now, window); }
  }

  /** Asking for the use in between changes no answer, and both give equal answers on every timed sequence. */
  lemma {:induction false} EqualAnswers(limit: int, window: real, asks: seq<(real, bool)>, now: real)
    requires InOrder(asks + [(now, true)])
    ensures var b, a := Budgeted(limit, window, asks), Allowed(limit, window, Consuming(asks));
            b.1 == a.1 && PruneExpired(b.0, now, window) == EvictBefore(a.0, now - window)
  {
    if asks == [] {
      SamePruning([], now, window);
    } else {
      hide PruneExpired, EvictBefore;
      var n := |asks| - 1;
      var front, last := asks[..n], asks[n].0;
      var all := asks + [(now, true)];
      assert all[n].0 <= all[n + 1].0;
      assert forall i | 0 <= i < |front + [(last, true)]| :: (front + [(last, true)])[i].0 == all[i].0;
      EqualAnswers(limit, window, front, last);
      EqualNow(limit, window, asks, now);
    }
  }

  lemma EqualNow(limit: int, window: real, asks: seq<(real, bool)>, now: real)
    requires asks != [] && asks[|asks| - 1].0 <= now
    requires var b, a := Budgeted(limit, window, asks[..|asks| - 1]), Allowed(limit, window, Consuming(asks[..|asks| - 1]));
             b.1 == a.1 && PruneExpired(b.0, asks[|asks| - 1].0, window) == EvictBefore(a.0, asks[|asks| - 1].0 - window)
    ensures var b, a := Budgeted(limit, window, asks), Allowed(limit, window, Consuming(asks));
            b.1 == a.1 && PruneExpired(b.0, now, window) == EvictBefore(a.0, now - window)
  {
    hide PruneExpired, EvictBefore;
    var front := asks[..|asks| - 1];
    var (last, consume) := asks[|asks| - 1];
    var b, a := Budgeted(limit, window, front), Allowed(limit, window, Consuming(front));
    var kept := PruneExpired(b.0, last, window);
    if consume {
      var ts := Consuming(front) + [last];
      assert ts[..|ts| - 1] == Consuming(front);
      SamePruning(if |kept| < limit then kept + [last] else kept, now, window);
    } else {
      assert Consuming(asks) == Consuming(front);
      SamePruning(a.0, last, window);
      PruneTwice(b.0, last, now, window);
      PruneTwice(a.0, last, now, window);
      SamePruning(a.0, now, window);
    }
  }

  // ---------- when a denied request may come back ----------

  lemma {:induction false} DequeWithinLimit(limit: int, window: real, ts: seq<real>)
    ensures |Asked(limit, window, ts).0| <= if limit < 0 then 0 else limit
  {
    if ts != [] {
      hide PruneExpired, EvictBefore;
      DequeWithinLimit(limit, window, ts[..|ts| - 1]);
      var q, now := Asked(limit, window, ts[..|ts| - 1]).0, ts[|ts| - 1];
      SamePruning(q, now, window);
      EvictShortens(q, now - window);
    }
  }

  lemma {:induction false} EvictShortens(q: seq<real>, cutoff: real)
    ensures |EvictBefore(q, cutoff)| <= |q|
    ensures |EvictBefore(q, cutoff)| < |q| <==> q != [] && q[0] < cutoff
  {
    if q != [] && q[0] < cutoff { EvictShortens(q[1..], cutoff); }
  }

  /** After a denial a lone retry succeeds exactly when strictly more than the advertised time has passed:
      waiting exactly that long is still refused. */
  lemma RetryNeedsMoreThanReset(limit: int, window: real, ts: seq<real>, now: real, s: real)
    requires Sorted(ts + [now]) && window >= 0.0 && s >= 0.0 && limit >= 1
    requires Asked(limit, window, ts + [now]).1 == Asked(limit, window, ts).1
    ensures var q := Asked(limit, window, ts + [now]).0;
            |PruneExpired(q, now + s, window)| < limit <==> s > Reset(q, window, now)
  {
    hide PruneExpired, EvictBefore, Count, Asked, Sorted, IsRecent;
    var q := Asked(limit, window, ts + [now]).0;
    DeniedIsFull(limit, window, ts, now);
    DequeIsRecentGrants(limit, window, ts + [now]);
    FirstIsRecent(q, Asked(limit, window, ts + [now]).1, now, window);
    SamePruning(q, now + s, window);
    EvictShortens(q, now + s - window);
  }

  lemma DeniedIsFull(limit: int, window: real, ts: seq<real>, now: real)
    requires limit >= 1 && Asked(limit, window, ts + [now]).1 == Asked(limit, window, ts).1
    ensures |Asked(limit, window, ts + [now]).0| == limit
  {
    hide PruneExpired;
    assert (ts + [now])[..|ts|] == ts;
    DequeWithinLimit(limit, window, ts + [now]);
  }

  lemma FirstIsRecent(q: seq<real>, grants: seq<real>, now: real, window: real)
    requires IsRecent(q, grants, now, window) && q != []
    ensures now - q[0] <= window
  {
    var k :| 0 <= k <= |grants| && Splits(q, grants, now, window, k);
    assert q[0] == grants[k];
  }
}
