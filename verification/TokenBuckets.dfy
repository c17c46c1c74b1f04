/** The in-memory token bucket and the Redis script with its expiring key. Clocks and levels are reals. */
module TokenBuckets {
  import opened Wrappers

  datatype Rate = Rate(capacity: int, refill: real)

  /** `last` is when `tokens` was computed. */
  datatype Bucket = Bucket(tokens: real, last: real)

  function Min(a: real, b: real): real { if b < a then b else a }

  function Max(a: real, b: real): real { if a < b then b else a }

  /** What refills in `seconds`. */
  function Accrued(r: Rate, seconds: real): real { seconds * r.refill }

  function Level(r: Rate, b: Bucket, now: real): real {
    Min(r.capacity as real, b.tokens + Accrued(r, now - b.last))
  }

  predicate Allows(r: Rate, b: Bucket, amount: int, now: real) { Level(r, b, now) >= amount as real }

  function Taken(r: Rate, b: Bucket, amount: int, now: real): Bucket {
    Bucket(if Allows(r, b, amount, now) then Level(r, b, now) - amount as real else Level(r, b, now), now)
  }

  /** A bucket of `tokens` left alone for `seconds` grants `amount` just when it then holds that much, capacity being
      the most it ever holds, and `left` is what it keeps. */
  ghost predicate Serves(r: Rate, tokens: real, seconds: real, amount: int, allowed: bool, left: real) {
    var full, grown := r.capacity as real, tokens + seconds * r.refill;
    && (allowed <==> full >= amount as real && grown >= amount as real)
    && left + (if allowed then amount as real else 0.0) == if grown <= full then grown else full
  }

  lemma TakenServes(r: Rate, b: Bucket, amount: int, now: real)
    ensures Serves(r, b.tokens, now - b.last, amount, Allows(r, b, amount, now), Taken(r, b, amount, now).tokens)
  {
    assert Accrued(r, now - b.last) == (now - b.last) * r.refill;
    hide Accrued;
  }

  // ---------- the in-memory limiter ----------

  class TokenBucketLimiter {
    const rate: Rate
    var buckets: map<string, Bucket>

    constructor (rate: Rate)
      ensures this.rate == rate && buckets == map[]
    {
      this.rate := rate;
      buckets := map[];
    }

    /** The bucket of a key; an unknown key starts full at the clock reading `born`. */
    function BucketOf(key: string, born: real): Bucket
      reads this`buckets
    {
      if key in buckets then buckets[key] else Bucket(rate.capacity as real, born)
    }

    method Consume(key: string, amount: int, born: real, now: real) returns (allowed: bool, remaining: real)
      modifies this`buckets
      ensures var b := old(BucketOf(key, born));
              && allowed == Allows(rate, b, amount, now) && remaining == Taken(rate, b, amount, now).tokens
              && buckets == old(buckets)[key := Taken(rate, b, amount, now)]
      ensures if key in old(buckets)
              then Serves(rate, old(buckets)[key].tokens, now - old(buckets)[key].last, amount, allowed, remaining)
              else Serves(rate, rate.capacity as real, now - born, amount, allowed, remaining)
      ensures buckets == old(buckets)[key := Bucket(remaining, now)]
    {
      hide Serves;
      var b := BucketOf(key, born);
      TakenServes(rate, b, amount, now);
      var elapsed := now - b.last;
      var current := Min(rate.capacity as real, b.tokens + elapsed * rate.refill);
      if current >= amount as real {
        current := current - amount as real;
        buckets := buckets[key := Bucket(current, now)];
        return true, current;
      } else {
        buckets := buckets[key := Bucket(current, now)];
        return false, current;
      }
    }

    /** Without jitter. */
    method SecondsUntilToken(key: string, born: real, now: real) returns (seconds: real)
      requires rate.refill != 0.0
      ensures seconds == Wait(rate, BucketOf(key, born), now)
    {
      var b := BucketOf(key, born);
      var elapsed := now - b.last;
      var current := Min(rate.capacity as real, b.tokens + elapsed * rate.refill);
      var deficit := 1.0 - current;
      if deficit <= 0.0 {
        return 0.0;
      }
      return Max(0.0, deficit / rate.refill);
    }
  }

  function Wait(r: Rate, b: Bucket, now: real): real
    requires r.refill != 0.0
  {
    if 1.0 - Level(r, b, now) <= 0.0 then 0.0 else Max(0.0, (1.0 - Level(r, b, now)) / r.refill)
  }

  /** Waiting exactly that long, and no less, makes a lone retry for one token succeed. */
  lemma WaitIsExact(r: Rate, b: Bucket, now: real, s: real)
    requires r.refill > 0.0 && r.capacity >= 1 && s >= 0.0
    ensures Allows(r, Bucket(Level(r, b, now), now), 1, now + s) <==> s >= Wait(r, b, now)
  {
    var d := 1.0 - Level(r, b, now);
    assert Accrued(r, now + s - now) == s * r.refill;
    Quotient(d, r.refill, s);
    AccruedNonNegative(r, s);
    hide Accrued;
    var refilled := Bucket(Level(r, b, now), now);
    assert Level(r, refilled, now + s) == Min(r.capacity as real, refilled.tokens + s * r.refill);
    assert Level(r, refilled, now + s) >= 1.0 <==> s * r.refill >= d;
  }

  lemma Quotient(d: real, refill: real, s: real)
    requires refill > 0.0
    ensures s * refill >= d <==> s >= d / refill
  {
    var q := d / refill;
    assert q * refill == d;
    if s >= q { assert (s - q) * refill >= 0.0; } else { assert (q - s) * refill > 0.0; }
  }

  // ---------- how much is ever granted ----------

  datatype Request = Request(amount: nat, now: real)

  /** Clock readings never go back, starting from `from`. */
  ghost predicate Ordered(from: real, rs: seq<Request>)
    decreases |rs|
  {
    rs == [] || (from <= rs[0].now && Ordered(rs[0].now, rs[1..]))
  }

  ghost predicate WithinCapacity(r: Rate, b: Bucket) { 0.0 <= b.tokens <= r.capacity as real }

  /** The bucket of a key after its requests. */
  function After(r: Rate, b: Bucket, rs: seq<Request>): Bucket
    decreases |rs|
  {
    if rs == [] then b else After(r, Taken(r, b, rs[0].amount, rs[0].now), rs[1..])
  }

  /** The tokens those requests were granted. */
  function Granted(r: Rate, b: Bucket, rs: seq<Request>): nat
    decreases |rs|
  {
    if rs == [] then 0
    else
      var now := if Allows(r, b, rs[0].amount, rs[0].now) then rs[0].amount else 0;
      now + Granted(r, Taken(r, b, rs[0].amount, rs[0].now), rs[1..])
  }

  lemma AccruedNonNegative(r: Rate, seconds: real)
    requires r.refill >= 0.0 && seconds >= 0.0
    ensures Accrued(r, seconds) >= 0.0
  {
  }

  lemma AccruedAdds(r: Rate, a: real, b: real)
    ensures Accrued(r, a + b) == Accrued(r, a) + Accrued(r, b)
  {
  }

  /** A request takes what it is granted from the level, and leaves a sound bucket. */
  lemma TakenWithin(r: Rate, b: Bucket, q: Request)
    requires r.refill >= 0.0 && WithinCapacity(r, b) && b.last <= q.now
    ensures WithinCapacity(r, Taken(r, b, q.amount, q.now))
    ensures Taken(r, b, q.amount, q.now).tokens
         == Level(r, b, q.now) - (if Allows(r, b, q.amount, q.now) then q.amount as real else 0.0)
  {
    hide Accrued;
    AccruedNonNegative(r, q.now - b.last);
  }

  lemma {:induction false} AfterWithin(r: Rate, b: Bucket, rs: seq<Request>)
    requires r.refill >= 0.0 && WithinCapacity(r, b) && Ordered(b.last, rs)
    ensures WithinCapacity(r, After(r, b, rs))
    ensures After(r, b, rs).last == if rs == [] then b.last else rs[|rs| - 1].now
    decreases |rs|
  {
    hide WithinCapacity, Level, Allows;
    if rs != [] {
      TakenWithin(r, b, rs[0]);
      AfterWithin(r, Taken(r, b, rs[0].amount, rs[0].now), rs[1..]);
    }
  }

  lemma LevelBound(r: Rate, b: Bucket, now: real)
    ensures Level(r, b, now) <= b.tokens + Accrued(r, now - b.last)
  {
    hide Accrued;
  }

  lemma {:induction false} GrantedFromLevel(r: Rate, b: Bucket, rs: seq<Request>)
    requires r.refill >= 0.0 && WithinCapacity(r, b) && Ordered(b.last, rs) && rs != []
    ensures Granted(r, b, rs) as real <= Level(r, b, rs[0].now) + Accrued(r, rs[|rs| - 1].now - rs[0].now)
    decreases |rs|
  {
    hide Accrued, Allows, Level;
    var t := rs[0].now;
    var next := Taken(r, b, rs[0].amount, t);
    TakenWithin(r, b, rs[0]);
    if |rs| > 1 {
      var u, v := rs[1].now, rs[|rs| - 1].now;
      GrantedFromLevel(r, next, rs[1..]);
      LevelBound(r, next, u);
      AccruedAdds(r, u - t, v - u);
      assert v - t == (u - t) + (v - u);
    } else {
      assert Granted(r, next, rs[1..]) == 0;
      assert next.tokens >= 0.0;
      AccruedNonNegative(r, 0.0);
    }
  }

  /** In any interval of any history of a key, no more than capacity plus what refills in that time is granted. */
  lemma GrantedInInterval(r: Rate, born: real, before: seq<Request>, during: seq<Request>)
    requires r.refill >= 0.0 && r.capacity >= 0
    requires during != [] && Ordered(born, before + during)
    ensures Granted(r, After(r, Bucket(r.capacity as real, born), before), during) as real
         <= r.capacity as real + Accrued(r, during[|during| - 1].now - during[0].now)
  {
    var full := Bucket(r.capacity as real, born);
    OrderedParts(born, before, during);
    AfterWithin(r, full, before);
    GrantedFromLevel(r, After(r, full, before), during);
  }

  lemma {:induction false} OrderedParts(from: real, a: seq<Request>, b: seq<Request>)
    requires Ordered(from, a + b)
    ensures Ordered(from, a) && Ordered(if a == [] then from else a[|a| - 1].now, b)
    decreases |a|
  {
    if a == [] {
      assert a + b == b;
    } else {
      assert (a + b)[1..] == a[1..] + b && (a + b)[0] == a[0];
      OrderedParts(a[0].now, a[1..], b);
    }
  }

  // ---------- the Redis script ----------

  function Ceil(x: real): int { -((-x).Floor) }

  lemma CeilIsLeast(x: real, n: int)
    ensures n >= Ceil(x) <==> n as real >= x
  {
  }

  /** A stored hash and when Redis may drop it. */
  datatype Stored = Stored(bucket: Bucket, expires: real)

  /** `_consume`'s TTL. */
  function Ttl(r: Rate): int
    requires r.refill != 0.0
  {
    var seconds := Ceil(r.capacity as real / r.refill * 2.0);
    if seconds < 1 then 1 else seconds
  }

  /** The expiry is the least whole number of seconds, at least one, in which an empty bucket would fill twice. */
  lemma TtlMeaning(r: Rate, n: int)
    requires r.refill > 0.0 && r.capacity >= 0
    ensures n >= Ttl(r) <==> n >= 1 && n as real * r.refill >= 2.0 * r.capacity as real
  {
    var c := r.capacity as real;
    Quotient(2.0 * c, r.refill, n as real);
    TwiceQuotient(c, r.refill);
    CeilIsLeast(c / r.refill * 2.0, n);
  }

  lemma TwiceQuotient(c: real, refill: real)
    requires refill > 0.0
    ensures 2.0 * c / refill == c / refill * 2.0
  {
    var q := c / refill;
    assert q * refill == c;
    assert (q * 2.0) * refill == 2.0 * c;
  }

  /** The bucket the script reads: a missing field falls back to full, now. */
  function Read(r: Rate, h: Option<Stored>, now: real): Bucket {
    if h.Some? then h.value.bucket else Bucket(r.capacity as real, now)
  }

  /** The script's level; a clock that went back refills nothing. */
  function ScriptLevel(r: Rate, b: Bucket, now: real): real {
    Min(r.capacity as real, b.tokens + Max(0.0, now - b.last) * r.refill)
  }

  datatype Answer = Answer(allowed: bool, tokens: real, retryAfter: int)

  function Answered(r: Rate, b: Bucket, now: real): Answer
    requires r.refill != 0.0
  {
    var tokens := ScriptLevel(r, b, now);
    if tokens >= 1.0 then Answer(true, tokens - 1.0, 0)
    else Answer(false, tokens, Ceil((1.0 - tokens) / r.refill))
  }

  lemma AnsweredServes(r: Rate, b: Bucket, now: real)
    requires r.refill != 0.0
    ensures Serves(r, b.tokens, if now - b.last >= 0.0 then now - b.last else 0.0, 1, Answered(r, b, now).allowed, Answered(r, b, now).tokens)
  {
    hide Ceil;
    var seconds := Max(0.0, now - b.last);
    var grown := b.tokens + seconds * r.refill;
    assert ScriptLevel(r, b, now) == Min(r.capacity as real, grown);
    hide ScriptLevel;
  }

  /** One database of hashes with expiry times. */
  class RedisBuckets {
    const rate: Rate
    var hashes: map<string, Stored>

    function Lookup(key: string): Option<Stored>
      reads this`hashes
    {
      if key in hashes then Some(hashes[key]) else None
    }

    constructor (rate: Rate)
      ensures this.rate == rate && hashes == map[]
    {
      this.rate := rate;
      hashes := map[];
    }

    /** Redis drops a key at any moment after its expiry. */
    method Expire(key: string, now: real)
      requires key in hashes ==> now >= hashes[key].expires
      modifies this`hashes
      ensures hashes == old(hashes) - {key}
    {
      hashes := hashes - {key};
    }

    /** The script, atomic in Redis. */
    method Eval(key: string, now: real) returns (a: Answer)
      requires rate.refill != 0.0
      modifies this`hashes
      ensures a == Answered(rate, Read(rate, old(Lookup(key)), now), now)
      ensures hashes == old(hashes)[key := Stored(Bucket(a.tokens, now), now + Ttl(rate) as real)]
      ensures if key in old(hashes)
              then var b, seconds := old(hashes)[key].bucket, now - old(hashes)[key].bucket.last;
                   Serves(rate, b.tokens, if seconds >= 0.0 then seconds else 0.0, 1, a.allowed, a.tokens)
              else Serves(rate, rate.capacity as real, 0.0, 1, a.allowed, a.tokens)
      ensures a.allowed ==> a.retryAfter == 0
    {
      hide Serves;
      AnsweredServes(rate, Read(rate, Lookup(key), now), now);
      var tokens := if key in hashes then hashes[key].bucket.tokens else rate.capacity as real;
      var last := if key in hashes then hashes[key].bucket.last else now;
      tokens := Min(rate.capacity as real, tokens + Max(0.0, now - last) * rate.refill);
      var allowed := false;
      if tokens >= 1.0 {
        tokens := tokens - 1.0;
        allowed := true;
      }
      var retryAfter := 0;
      if !allowed {
        retryAfter := Ceil((1.0 - tokens) / rate.refill);
      }
      hashes := hashes[key := Stored(Bucket(tokens, now), now + Ttl(rate) as real)];
      return Answer(allowed, tokens, retryAfter);
    }
  }

  /** A request to the script; `dropped` says whether Redis removed the key just before it. */
  datatype Hit = Hit(now: real, dropped: bool)

  /** The stored hash of one key after its hits, and the answers given. */
  function Served(r: Rate, hits: seq<Hit>): (Option<Stored>, seq<Answer>)
    requires r.refill != 0.0
  {
    if hits == [] then (None, [])
    else
      var (h, answers) := Served(r, hits[..|hits| - 1]);
      var hit := hits[|hits| - 1];
      var a := Answered(r, Read(r, if hit.dropped then None else h, hit.now), hit.now);
      (Some(Stored(Bucket(a.tokens, hit.now), hit.now + Ttl(r) as real)), answers + [a])
  }

  /** Time does not go back, and a key is dropped only once it expired. */
  ghost predicate Feasible(r: Rate, hits: seq<Hit>)
    requires r.refill != 0.0
  {
    forall i | 0 < i < |hits| ::
      hits[i - 1].now <= hits[i].now && (hits[i].dropped ==> hits[i].now >= hits[i - 1].now + Ttl(r) as real)
  }

  /** The same hits with a key that never expires. */
  function Kept(hits: seq<Hit>): seq<Hit> { seq(|hits|, i requires 0 <= i < |hits| => Hit(hits[i].now, false)) }

  /** A dropped key would have refilled to the brim anyway. */
  lemma FullByExpiry(r: Rate, b: Bucket, now: real)
    requires r.refill > 0.0 && r.capacity >= 0 && b.tokens >= 0.0 && now >= b.last + Ttl(r) as real
    ensures ScriptLevel(r, b, now) == r.capacity as real == ScriptLevel(r, Bucket(r.capacity as real, now), now)
  {
    var full := r.capacity as real / r.refill;
    CeilIsLeast(full * 2.0, Ttl(r));
    assert full >= 0.0 by { Quotient(r.capacity as real, r.refill, full); assert full * r.refill == r.capacity as real; }
    Quotient(r.capacity as real, r.refill, now - b.last);
  }

  /** Expiring keys changes no answer: the script serves exactly what a bucket that is never dropped would. */
  lemma {:induction false} ExpiryIsInvisible(r: Rate, hits: seq<Hit>)
    requires r.refill > 0.0 && r.capacity >= 0 && Feasible(r, hits)
    ensures Served(r, hits) == Served(r, Kept(hits))
    ensures Served(r, hits).0.Some? ==> 0.0 <= Served(r, hits).0.value.bucket.tokens
    ensures hits != [] ==> Served(r, hits).0.Some? && Served(r, hits).0.value.bucket.last == hits[|hits| - 1].now
  {
    if hits != [] {
      hide Ttl, Ceil, Min, Max, ScriptLevel;
      var front, hit := hits[..|hits| - 1], hits[|hits| - 1];
      ExpiryIsInvisible(r, front);
      assert Kept(hits)[..|hits| - 1] == Kept(front);
      var h := Served(r, front).0;
      if h.Some? && hit.dropped { FullByExpiry(r, h.value.bucket, hit.now); }
      LevelNonNegative(r, Read(r, h, hit.now), hit.now);
    }
  }

  lemma LevelNonNegative(r: Rate, b: Bucket, now: real)
    requires r.refill > 0.0 && r.capacity >= 0 && b.tokens >= 0.0
    ensures ScriptLevel(r, b, now) >= 0.0
  {
    assert Max(0.0, now - b.last) * r.refill >= 0.0;
  }

  /** On a clock that does not go back, script and in-memory limiter decide and count alike. */
  lemma ScriptIsLocal(r: Rate, b: Bucket, now: real)
    requires r.refill != 0.0 && b.last <= now
    ensures Answered(r, b, now).allowed == Allows(r, b, 1, now)
    ensures Bucket(Answered(r, b, now).tokens, now) == Taken(r, b, 1, now)
  {
  }

  /** The advertised delay is the least whole number of seconds after which a lone retry succeeds. */
  lemma RetryAfterIsLeast(r: Rate, b: Bucket, now: real, n: nat)
    requires r.refill > 0.0 && r.capacity >= 1
    requires !Answered(r, b, now).allowed
    ensures Answered(r, Bucket(Answered(r, b, now).tokens, now), now + n as real).allowed
       <==> n >= Answered(r, b, now).retryAfter
  {
    var tokens := ScriptLevel(r, b, now);
    CeilIsLeast((1.0 - tokens) / r.refill, n);
    Quotient(1.0 - tokens, r.refill, n as real);
  }
}
