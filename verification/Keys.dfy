/** The formatted identifiers that make inserts idempotent, as the strings the code builds.
    Everything downstream relies on one fact: two different things never get one key. */
module Keys {
  import opened Wrappers

  predicate IsDigit(c: char) { '0' <= c <= '9' }

  /** Decimal rendering of an integer column inside an f-string. */
  function Dec(n: nat): (s: string)
    ensures s != []
    ensures forall i :: 0 <= i < |s| ==> IsDigit(s[i])
  {
    var d := ['0' + (n % 10) as char];
    if n < 10 then d else Dec(n / 10) + d
  }

  lemma {:induction false} DecInjective(m: nat, n: nat)
    requires Dec(m) == Dec(n)
    ensures m == n
  {
    var s, t := Dec(m), Dec(n);
    assert s[|s| - 1] == '0' + (m % 10) as char && t[|t| - 1] == '0' + (n % 10) as char;
    assert m % 10 == n % 10;
    assert m >= 10 <==> |s| >= 2;
    if m >= 10 {
      assert Dec(m / 10) == s[..|s| - 1] && Dec(n / 10) == t[..|t| - 1];
      DecInjective(m / 10, n / 10);
    }
  }

  /** A bounded number has a bounded rendering. */
  lemma {:induction false} DecLength(n: nat, digits: nat)
    requires digits >= 1 && n < Pow10(digits)
    ensures |Dec(n)| <= digits
  {
    if n >= 10 {
      assert Pow10(digits) == 10 * Pow10(digits - 1) && Pow10(0) == 1;
      DecLength(n / 10, digits - 1);
    }
  }

  function Pow10(k: nat): nat { if k == 0 then 1 else 10 * Pow10(k - 1) }

  /** Digits followed by a separator can be read back: neither part is ambiguous. */
  lemma DigitsThenSeparator(a: string, x: string, b: string, y: string)
    requires forall i :: 0 <= i < |a| ==> IsDigit(a[i])
    requires forall i :: 0 <= i < |b| ==> IsDigit(b[i])
    requires x != [] && !IsDigit(x[0]) && y != [] && !IsDigit(y[0])
    requires a + x == b + y
    ensures a == b && x == y
  {
    var s := a + x;
    assert s[|a|] == x[0] && s[|b|] == y[0];
    assert forall i :: 0 <= i < |a| ==> s[i] == a[i];
    assert forall i :: 0 <= i < |b| ==> s[i] == b[i];
    assert |a| == |b|;
    assert a == (a + x)[..|a|] && b == (b + y)[..|b|];
    assert x == (a + x)[|a|..] && y == (b + y)[|b|..];
  }

  lemma StripPrefix(p: string, x: string, y: string)
    requires p + x == p + y
    ensures x == y
  {
    assert x == (p + x)[|p|..] && y == (p + y)[|p|..];
  }

  /** `incident:{id}:notification:{occurrence_count}` */
  function MessageId(incident: nat, occurrence: nat): string {
    "incident:" + (Dec(incident) + (":notification:" + Dec(occurrence)))
  }

  /** No two occurrences, of one incident or of two, share a message id. */
  lemma MessageIdInjective(i: nat, m: nat, j: nat, n: nat)
    requires MessageId(i, m) == MessageId(j, n)
    ensures i == j && m == n
  {
    StripPrefix("incident:", Dec(i) + (":notification:" + Dec(m)), Dec(j) + (":notification:" + Dec(n)));
    DigitsThenSeparator(Dec(i), ":notification:" + Dec(m), Dec(j), ":notification:" + Dec(n));
    StripPrefix(":notification:", Dec(m), Dec(n));
    DecInjective(i, j);
    DecInjective(m, n);
  }

  /** Outbox idempotency key of a delivery request. */
  function RequestKey(messageId: string): string { "notification-request:" + messageId }

  /** Message id, and outbox idempotency key, of a dead-lettered delivery. */
  function DeadLetterKey(delivery: nat): string { "notification-delivery-dlq:" + Dec(delivery) }

  lemma DeadLetterKeyInjective(i: nat, j: nat)
    requires DeadLetterKey(i) == DeadLetterKey(j)
    ensures i == j
  {
    StripPrefix("notification-delivery-dlq:", Dec(i), Dec(j));
    DecInjective(i, j);
  }

  /** Requests and dead letters never meet in the outbox's unique index. */
  lemma KeysDisjoint(messageId: string, delivery: nat)
    ensures RequestKey(messageId) != DeadLetterKey(delivery)
  {
    assert RequestKey(messageId)[13] == 'r' && DeadLetterKey(delivery)[13] == 'd';
  }

  datatype Trigger = Availability | Latency | Drift

  function TriggerName(t: Trigger): string {
    match t
    case Availability => "availability"
    case Latency => "latency"
    case Drift => "drift"
  }

  function TenantScope(tenant: Option<nat>): string {
    match tenant
    case Some(t) => Dec(t)
    case None => "global"
  }

  /** `{tenant or global}:{source id}:{trigger}` */
  function Fingerprint(tenant: Option<nat>, source: nat, trigger: Trigger): string {
    TenantScope(tenant) + (":" + (Dec(source) + (":" + TriggerName(trigger))))
  }

  /** An incident fingerprint names one tenant scope, one source and one trigger. */
  lemma FingerprintInjective(t: Option<nat>, s: nat, g: Trigger, t': Option<nat>, s': nat, g': Trigger)
    requires Fingerprint(t, s, g) == Fingerprint(t', s', g')
    ensures t == t' && s == s' && g == g'
  {
    var x := ":" + (Dec(s) + (":" + TriggerName(g)));
    var y := ":" + (Dec(s') + (":" + TriggerName(g')));
    var whole := Fingerprint(t, s, g);
    assert whole[0] == TenantScope(t)[0] && whole[0] == TenantScope(t')[0];
    assert t.Some? <==> t'.Some?;
    if t.Some? {
      DigitsThenSeparator(Dec(t.value), x, Dec(t'.value), y);
      DecInjective(t.value, t'.value);
    } else {
      StripPrefix("global", x, y);
    }
    StripPrefix(":", Dec(s) + (":" + TriggerName(g)), Dec(s') + (":" + TriggerName(g')));
    DigitsThenSeparator(Dec(s), ":" + TriggerName(g), Dec(s'), ":" + TriggerName(g'));
    DecInjective(s, s');
    StripPrefix(":", TriggerName(g), TriggerName(g'));
  }
}
