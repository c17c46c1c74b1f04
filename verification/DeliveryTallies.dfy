/** What a delivery pass leaves in the tables, and what its counters say about its batch.

    `rows` are the claimed deliveries, `provider(n)` is what the provider did with the n-th, and `marks[n]` and
    `after[n]` are the tables just before and just after its outcome was recorded. */
module DeliveryTallies {
  import opened Basics
  import opened Wrappers
  import opened NotificationTables
  import opened RowChanges

  /** A provider call's result; an exception keeps what classification reads of it. */
  datatype ProviderResult =
    | Accepted(reference: Option<string>)
    | ProviderError(category: Category, code: Option<string>, retryable: bool)
    | ValueError(name: string)
    | OtherError(name: string)

  /** The failures that leave a retry open. */
  ghost predicate MayRetry(p: ProviderResult) {
    match p
    case ProviderError(_, _, retryable) => retryable
    case OtherError(_) => true
    case _ => false
  }

  /** What is stored of a failure. */
  ghost function CategoryOf(p: ProviderResult): Category
    requires !p.Accepted?
  {
    match p
    case ProviderError(category, _, _) => category
    case ValueError(_) => Configuration
    case OtherError(_) => Unknown
  }

  ghost function CodeOf(p: ProviderResult): Option<string>
    requires !p.Accepted?
  {
    match p
    case ProviderError(_, code, _) => code
    case ValueError(name) => Some(name)
    case OtherError(name) => Some(name)
  }

  /** Seconds between the last attempt and the retry. */
  ghost predicate RetryWithin(attempts: nat, seconds: int) {
    (attempts == 1 && 25 <= seconds <= 35) || (attempts == 2 && 270 <= seconds <= 330)
  }

  ghost predicate RetryLeft(r: DeliveryRow, r': DeliveryRow, p: ProviderResult)
    requires !p.Accepted?
  {
    exists seconds :: RetryWithin(r.attempts, seconds) && r.lastAttemptAt.Some?
      && RowRetried(r, r', r.lastAttemptAt.value + seconds, CategoryOf(p), CodeOf(p))
  }

  /** A dead-letter event for the row is in the outbox afterwards, and nothing else is new there. */
  ghost predicate DeadLetterAdded(before: seq<OutboxRow>, after: seq<OutboxRow>, id: nat, r: DeliveryRow, p: ProviderResult)
    requires !p.Accepted?
  {
    before <= after && |after| <= |before| + 1
    && (|after| == |before| + 1 ==>
          after[|before|].payload.DeadLetter? && EventTells(after[|before|].payload.deadLetter, id, r, CategoryOf(p), CodeOf(p)))
  }

  /** One outcome, recorded under the token if the row is still held: an accepted row is delivered, a failure that leaves a
      retry open is retried while fewer than three attempts were made, and every other failure ends the row. */
  ghost predicate OutcomeRecorded(mark: Tables, after: Tables, id: nat, token: Token, p: ProviderResult, now: Time) {
    if !Owns(mark.deliveries, id, token) then after == mark
    else
      && OnlyRow(mark.deliveries, after.deliveries, id)
      && var r, r' := mark.deliveries[id], after.deliveries[id];
         match p
         case Accepted(reference) => RowDelivered(r, r', reference, now) && after.outbox == mark.outbox
         case _ =>
           if MayRetry(p) && r.attempts < 3 then
             RetryLeft(r, r', p) && after.outbox == mark.outbox && after.inbox == mark.inbox
           else
             RowDead(r, r', CategoryOf(p), CodeOf(p), now) && DeadLetterAdded(mark.outbox, after.outbox, id, r', p)
  }

  // ---------- what the counters count ----------

  datatype Fate = WasDelivered | WasRetried | WasBuried | WasLost

  /** What became of a row whose outcome `p` was recorded on `mark`. */
  ghost function FateOf(mark: Tables, id: nat, token: Token, p: ProviderResult): Fate {
    if !Owns(mark.deliveries, id, token) then WasLost
    else if p.Accepted? then WasDelivered
    else if MayRetry(p) && mark.deliveries[id].attempts < 3 then WasRetried
    else WasBuried
  }

  ghost predicate HasFate(rows: seq<nat>, marks: seq<Tables>, token: Token, provider: nat -> ProviderResult, fate: Fate, n: nat)
    requires n < |rows| && n < |marks|
  {
    FateOf(marks[n], rows[n], token, provider(n)) == fate
  }

  ghost function WithFate(rows: seq<nat>, marks: seq<Tables>, token: Token, provider: nat -> ProviderResult, fate: Fate): set<nat>
    requires |marks| == |rows|
  {
    set n | 0 <= n < |rows| && HasFate(rows, marks, token, provider, fate, n)
  }

  lemma OneMoreFate(rows: seq<nat>, marks: seq<Tables>, token: Token, provider: nat -> ProviderResult, fate: Fate, row: nat,
                    mark: Tables, n: nat)
    requires |marks| == |rows| && n <= |rows|
    ensures HasFate(rows + [row], marks + [mark], token, provider, fate, n)
         == if n < |rows| then HasFate(rows, marks, token, provider, fate, n)
            else FateOf(mark, row, token, provider(n)) == fate
  {
    hide FateOf;
  }

  lemma NextFate(rows: seq<nat>, marks: seq<Tables>, token: Token, provider: nat -> ProviderResult, fate: Fate, row: nat, mark: Tables)
    requires |marks| == |rows|
    ensures |WithFate(rows + [row], marks + [mark], token, provider, fate)|
         == |WithFate(rows, marks, token, provider, fate)|
          + (if FateOf(mark, row, token, provider(|rows|)) == fate then 1 else 0)
  {
    hide FateOf, HasFate;
    var n, before := |rows|, WithFate(rows, marks, token, provider, fate);
    var after := WithFate(rows + [row], marks + [mark], token, provider, fate);
    var added := if FateOf(mark, row, token, provider(n)) == fate then {n} else {};
    forall i: nat ensures i in after <==> i in before + added {
      if i <= n { OneMoreFate(rows, marks, token, provider, fate, row, mark, i); }
    }
    assert after == before + added;
  }

  lemma NextFates(rows: seq<nat>, marks: seq<Tables>, token: Token, provider: nat -> ProviderResult, row: nat, mark: Tables)
    requires |marks| == |rows|
    ensures forall fate: Fate ::
              |WithFate(rows + [row], marks + [mark], token, provider, fate)|
              == |WithFate(rows, marks, token, provider, fate)|
               + (if FateOf(mark, row, token, provider(|rows|)) == fate then 1 else 0)
  {
    hide *;
    forall fate: Fate
      ensures |WithFate(rows + [row], marks + [mark], token, provider, fate)|
           == |WithFate(rows, marks, token, provider, fate)|
            + (if FateOf(mark, row, token, provider(|rows|)) == fate then 1 else 0)
    {
      NextFate(rows, marks, token, provider, fate, row, mark);
    }
  }

  lemma NoFates(token: Token, provider: nat -> ProviderResult)
    ensures forall fate: Fate :: WithFate([], [], token, provider, fate) == {}
  {
  }

  /** Every outcome was recorded on its own row. */
  ghost predicate AllRecorded(rows: seq<nat>, marks: seq<Tables>, after: seq<Tables>, token: Token,
                              provider: nat -> ProviderResult, now: Time)
  {
    && |marks| == |after| == |rows|
    && forall n | 0 <= n < |rows| :: OutcomeRecorded(marks[n], after[n], rows[n], token, provider(n), now)
  }

  lemma NextOutcome(rows: seq<nat>, marks: seq<Tables>, after: seq<Tables>, token: Token, provider: nat -> ProviderResult,
                    now: Time, row: nat, mark: Tables, left: Tables)
    requires AllRecorded(rows, marks, after, token, provider, now)
    requires OutcomeRecorded(mark, left, row, token, provider(|rows|), now)
    ensures AllRecorded(rows + [row], marks + [mark], after + [left], token, provider, now)
  {
    hide OutcomeRecorded;
  }

  lemma NoOutcomes(token: Token, provider: nat -> ProviderResult, now: Time)
    ensures AllRecorded([], [], [], token, provider, now)
  {
  }

  // ---------- the commits on values record what they should ----------

  lemma DeliveredIsRecorded(t: Tables, id: nat, token: Token, p: ProviderResult, now: Time)
    requires p.Accepted?
    ensures OutcomeRecorded(t, MarkDelivered(t, id, token, p.reference, now), id, token, p, now)
  {
    hide Summary, RefreshedRow, RowDelivered, DeliveredRow;
    if Owns(t.deliveries, id, token) { DeliveredRowHolds(t.deliveries[id], p.reference, now); }
  }

  lemma RetryIsRecorded(t: Tables, id: nat, token: Token, p: ProviderResult, next: Time, e: DeliveryError, now: Time)
    requires !p.Accepted? && MayRetry(p) && e.category == CategoryOf(p) && e.code == CodeOf(p)
    requires Owns(t.deliveries, id, token) ==>
      var r := t.deliveries[id]; r.attempts < 3 && r.lastAttemptAt.Some? && RetryWithin(r.attempts, next - r.lastAttemptAt.value)
    ensures var r := ScheduleRetry(t, id, token, next, e); r.Ok? && OutcomeRecorded(t, r.value, id, token, p, now)
  {
    hide RowRetried, RetryRow, CategoryOf, CodeOf;
    if Owns(t.deliveries, id, token) {
      var r := t.deliveries[id];
      RetryRowHolds(r, next, e);
      var seconds := next - r.lastAttemptAt.value;
      assert RetryWithin(r.attempts, seconds) && r.lastAttemptAt.value + seconds == next;
    }
  }

  lemma DeadIsRecorded(t: Tables, id: nat, token: Token, p: ProviderResult, e: DeliveryError, now: Time)
    requires !p.Accepted? && e.category == CategoryOf(p) && e.code == CodeOf(p)
    requires Owns(t.deliveries, id, token) ==> !(MayRetry(p) && t.deliveries[id].attempts < 3)
    requires DeadLetterDelivery(t, id, token, e, now).Ok?
    ensures OutcomeRecorded(t, DeadLetterDelivery(t, id, token, e, now).value, id, token, p, now)
  {
    hide Summary, RefreshedRow, RowDead, DeadRow, DeadLetterOf, EventTells, ValidDeadLetter, CategoryOf, CodeOf, MayRetry;
    if Owns(t.deliveries, id, token) { DeadRowHolds(t.deliveries[id], id, e, now); }
  }
}
