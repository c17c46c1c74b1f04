/** What a claim is worth: for how long nobody else takes the row, and from when on somebody may. */
module NotificationLeases {
  import opened Wrappers
  import opened NotificationTables
  import opened NotificationInvariants
  import opened NotificationProtocol
  import opened RowChanges
  import S = NotificationSafety
  import T = NotificationTheorems

  /** Row `i` is out of reach of every batch before `until`, as long as the worker with `token` records nothing: it has
      ended, or its lease or its retry time reaches that far, and any later owner came after it. */
  ghost predicate Reserved(r: DeliveryRow, token: Token, until: Time) {
    match r.status
    case Delivered => true
    case Dead => true
    case Pending => false
    case RetryScheduled => r.nextAttemptAt.Some? && r.nextAttemptAt.value >= until
    case InFlight =>
      && r.leaseExpiresAt.Some? && r.leaseExpiresAt.value >= until
      && (r.claimToken == Some(token) || (r.lastAttemptAt.Some? && r.lastAttemptAt.value >= until))
  }

  /** The worker with `token` records an outcome on row `i`. */
  ghost predicate Concludes(a: Action, token: Token, i: nat) {
    T.OutcomeOf(a, i) && a.h.token == token
  }

  /** A retry waits at least as long as the claim it ends was recent. */
  lemma RetryComesLater(s: System, a: Action, i: nat)
    requires Inv(s) && Enabled(s, a) && i < |s.tables.deliveries| && a.Retry? && a.h.id == i
    requires Owns(s.tables.deliveries, i, a.h.token)
    ensures var r, r' := s.tables.deliveries[i], Apply(s, a).tables.deliveries[i];
            i < |Apply(s, a).tables.deliveries| && r'.status == RetryScheduled && r'.nextAttemptAt.Some? && r.lastAttemptAt.Some?
            && r'.nextAttemptAt.value >= r.lastAttemptAt.value
  {
    hide OutboxInv, InboxInv, DeliveryInv, SummaryInv, DeadLetterInv, LogInv;
    S.RetryNeverRaises(s, a.h, a.delay, a.error);
  }

  lemma {:induction false} ReservedStep(s: System, a: Action, i: nat, token: Token, until: Time)
    requires Inv(s) && Enabled(s, a) && i < |s.tables.deliveries|
    requires Reserved(s.tables.deliveries[i], token, until) && !Concludes(a, token, i)
    ensures i < |Apply(s, a).tables.deliveries| && Reserved(Apply(s, a).tables.deliveries[i], token, until)
  {
    hide Inv, Apply, Enabled;
    T.StepOnRow(s, a, i);
    T.RowOf(s, i);
    var r, r' := s.tables.deliveries[i], Apply(s, a).tables.deliveries[i];
    if a.ClaimDeliveryBatch? && r' != r {
      assert Claimable(r, a.now) && r' == ClaimedRow(r, a.token, a.lease, a.now);
    } else if r' != r && a.Retry? {
      RetryComesLater(s, a, i);
    } else if r' != r {
      OtherOutcome(s, a, i);
    }
  }

  lemma {:induction false} OtherOutcome(s: System, a: Action, i: nat)
    requires Inv(s) && Enabled(s, a) && i < |s.tables.deliveries| && (a.Succeed? || a.GiveUp?) && a.h.id == i
    requires Owns(s.tables.deliveries, i, a.h.token)
    ensures i < |Apply(s, a).tables.deliveries| && Terminal(Apply(s, a).tables.deliveries[i].status)
  {
    hide OutboxInv, InboxInv, DeliveryInv, SummaryInv, DeadLetterInv, LogInv, AddOutbox, Summary, RefreshedRow, ValidDeadLetter;
    if a.GiveUp? { S.GiveUpNeverRaises(s, a.h, a.error, a.now); }
  }

  lemma {:induction false} ReservedRun(actions: seq<Action>, more: seq<Action>, i: nat, token: Token, until: Time)
    requires Feasible(actions + more) && i < |Run(actions).tables.deliveries|
    requires Reserved(Run(actions).tables.deliveries[i], token, until)
    requires forall a | a in more :: !Concludes(a, token, i)
    ensures i < |Run(actions + more).tables.deliveries|
    ensures Reserved(Run(actions + more).tables.deliveries[i], token, until)
  {
    hide Inv, Apply, Enabled, Reserved;
    if more == [] {
      assert actions + more == actions;
    } else {
      var front, a := more[..|more| - 1], more[|more| - 1];
      var all := actions + more;
      assert all[..|all| - 1] == actions + front && all[|all| - 1] == a;
      ReservedRun(actions, front, i, token, until);
      S.AlwaysInv(actions + front);
      ReservedStep(Run(actions + front), a, i, token, until);
    }
  }

  /** A batch took row `i`. */
  ghost predicate Took(actions: seq<Action>, batch: Action, i: nat) {
    && batch.ClaimDeliveryBatch? && i < |Run(actions + [batch]).tables.deliveries|
    && Run(actions + [batch]).tables.deliveries[i].claimToken == Some(batch.token)
  }

  lemma OneMore(actions: seq<Action>, a: Action)
    ensures Run(actions + [a]) == Apply(Run(actions), a)
    ensures Feasible(actions + [a]) <==> Feasible(actions) && Enabled(Run(actions), a)
  {
    hide Apply, Enabled;
    assert (actions + [a])[..|actions|] == actions;
  }

  lemma {:induction false} ClaimKeepsCount(s: System, a: Action)
    requires a.ClaimDeliveryBatch?
    ensures |Apply(s, a).tables.deliveries| == |s.tables.deliveries|
  {
    hide Pick, DeliveryMask, ClaimedRow, HeldRows;
  }

  /** What the batch left on a row it took: the lease runs from its reading. */
  lemma {:induction false} TookMeans(actions: seq<Action>, batch: Action, i: nat)
    requires Feasible(actions + [batch]) && Took(actions, batch, i)
    ensures i < |Run(actions).tables.deliveries|
    ensures var r := Run(actions + [batch]).tables.deliveries[i];
            r.status == InFlight && r.leaseExpiresAt == Some(batch.now + batch.lease) && r.lastAttemptAt == Some(batch.now)
  {
    hide Inv, Apply, Enabled, Feasible, Run, Claimable;
    OneMore(actions, batch);
    S.AlwaysInv(actions);
    var s := Run(actions);
    ClaimKeepsCount(s, batch);
    T.StepOnRow(s, batch, i);
    T.ClaimTokensAreFresh(s, batch);
    if s.tables.deliveries[i].claimToken.Some? { TokensAreKnown(s, i); }
  }

  lemma TokensAreKnown(s: System, i: nat)
    requires Inv(s) && i < |s.tables.deliveries| && s.tables.deliveries[i].claimToken.Some?
    ensures s.tables.deliveries[i].claimToken.value in s.tokens
  {
    hide OutboxInv, InboxInv, DeliveryInv, SummaryInv, DeadLetterInv, LogInv;
  }

  /** Main result: once a batch at `now` took a row for `lease` seconds, no other batch whose clock reads less than
      now + lease takes it, whatever happens in between and in whatever order clocks read, unless its owner recorded an
      outcome first. */
  lemma {:induction false} LeaseLasts(actions: seq<Action>, batch: Action, more: seq<Action>, other: Action, i: nat)
    requires Feasible(actions + [batch] + more + [other]) && Took(actions, batch, i)
    requires forall a | a in more :: !Concludes(a, batch.token, i)
    requires other.ClaimDeliveryBatch? && other.now < batch.now + batch.lease
    ensures i < |Run(actions + [batch] + more).tables.deliveries|
    ensures !Took(actions + [batch] + more, other, i)
    ensures Run(actions + [batch] + more + [other]).tables.deliveries[i] == Run(actions + [batch] + more).tables.deliveries[i]
  {
    hide Inv, Apply, Enabled, Run;
    var claimed := actions + [batch];
    OneMore(claimed + more, other);
    FeasiblePrefix(claimed, more);
    TookMeans(actions, batch, i);
    ReservedRun(claimed, more, i, batch.token, batch.now + batch.lease);
    S.AlwaysInv(claimed + more);
    var s := Run(claimed + more);
    T.StepOnRow(s, other, i);
    T.ClaimTokensAreFresh(s, other);
    if s.tables.deliveries[i].claimToken.Some? { TokensAreKnown(s, i); }
    ReservedIsNotClaimable(s.tables.deliveries[i], batch.token, batch.now + batch.lease, other.now);
    ClaimKeepsCount(s, other);
  }

  lemma ReservedIsNotClaimable(r: DeliveryRow, token: Token, until: Time, now: Time)
    requires Reserved(r, token, until) && now < until
    ensures !Claimable(r, now)
  {
  }

  lemma {:induction false} FeasiblePrefix(actions: seq<Action>, more: seq<Action>)
    requires Feasible(actions + more)
    ensures Feasible(actions)
  {
    hide Apply, Enabled;
    if more == [] {
      assert actions + more == actions;
    } else {
      var all := actions + more;
      assert all[..|all| - 1] == actions + more[..|more| - 1];
      FeasiblePrefix(actions, more[..|more| - 1]);
    }
  }

  /** A row still held under the token stands as the batch left it. */
  lemma {:induction false} StillHeldStands(claimed: seq<Action>, more: seq<Action>, i: nat, token: Token)
    requires Feasible(claimed + more) && i < |Run(claimed).tables.deliveries| && token in Run(claimed).tokens
    requires i < |Run(claimed + more).tables.deliveries|
    requires Run(claimed + more).tables.deliveries[i].claimToken == Some(token)
    ensures Run(claimed).tables.deliveries[i] == Run(claimed + more).tables.deliveries[i]
    ensures token in Run(claimed + more).tokens
  {
    hide Inv, Apply, Enabled, Claimable;
    if more == [] {
      assert claimed + more == claimed;
    } else {
      var front, a := more[..|more| - 1], more[|more| - 1];
      var all := claimed + more;
      assert all[..|all| - 1] == claimed + front && all[|all| - 1] == a;
      var s := Run(claimed + front);
      RowsStay(claimed, front, i);
      TokensStay(claimed, front, token);
      S.AlwaysInv(claimed + front);
      T.StepOnRow(s, a, i);
      T.TokensGrow(s, a);
      if a.ClaimDeliveryBatch? { T.ClaimTokensAreFresh(s, a); }
      StillHeldStands(claimed, front, i, token);
    }
  }

  lemma {:induction false} RowsStay(claimed: seq<Action>, more: seq<Action>, i: nat)
    requires Feasible(claimed + more) && i < |Run(claimed).tables.deliveries|
    ensures i < |Run(claimed + more).tables.deliveries|
  {
    hide Inv, Apply, Enabled;
    if more == [] {
      assert claimed + more == claimed;
    } else {
      var front, all := more[..|more| - 1], claimed + more;
      assert all[..|all| - 1] == claimed + front;
      RowsStay(claimed, front, i);
      S.AlwaysInv(claimed + front);
      T.DeliveriesGrow(Run(claimed + front), more[|more| - 1]);
    }
  }

  lemma {:induction false} TokensStay(claimed: seq<Action>, more: seq<Action>, token: Token)
    requires token in Run(claimed).tokens
    ensures token in Run(claimed + more).tokens
  {
    hide Apply;
    if more == [] {
      assert claimed + more == claimed;
    } else {
      var front, all := more[..|more| - 1], claimed + more;
      assert all[..|all| - 1] == claimed + front;
      TokensStay(claimed, front, token);
      T.TokensGrow(Run(claimed + front), more[|more| - 1]);
    }
  }

  /** Main result: a row whose claim stands is taken by the next batch that reaches it, unlocked, exactly from the end of
      the lease on. */
  lemma {:induction false} AbandonedExactlyFromLeaseEnd(actions: seq<Action>, batch: Action, more: seq<Action>, other: Action, i: nat)
    requires Feasible(actions + [batch] + more + [other]) && Took(actions, batch, i)
    requires i < |Run(actions + [batch] + more).tables.deliveries|
    requires Run(actions + [batch] + more).tables.deliveries[i].claimToken == Some(batch.token)
    requires other.ClaimDeliveryBatch? && i !in other.locked && other.limit > i
    ensures Took(actions + [batch] + more, other, i) <==> other.now >= batch.now + batch.lease
  {
    hide Inv, Apply, Enabled, Run, Feasible;
    var claimed := actions + [batch];
    OneMore(claimed + more, other);
    FeasiblePrefix(claimed, more);
    FeasiblePrefix(actions + [batch], more);
    TookMeans(actions, batch, i);
    OneMore(actions, batch);
    BatchToken(Run(actions), batch);
    StillHeldStands(claimed, more, i, batch.token);
    var s := Run(claimed + more);
    FreshBatch(s, other);
    BatchTakes(s, other, i);
  }

  lemma BatchToken(s: System, a: Action)
    requires a.ClaimDeliveryBatch?
    ensures a.token in Apply(s, a).tokens
  {
    hide Pick, DeliveryMask, ClaimDeliveries, HeldRows;
  }

  lemma FreshBatch(s: System, a: Action)
    requires a.ClaimDeliveryBatch? && Enabled(s, a)
    ensures a.token !in s.tokens
  {
  }

  /** A batch with room for it takes an unlocked row in flight exactly when the row's lease has ended. */
  lemma BatchTakes(s: System, a: Action, i: nat)
    requires a.ClaimDeliveryBatch? && a.token !in s.tokens && i < |s.tables.deliveries| && i !in a.locked && a.limit > i
    requires var r := s.tables.deliveries[i];
             r.status == InFlight && r.leaseExpiresAt.Some? && r.claimToken.Some? && r.claimToken.value in s.tokens
    ensures |Apply(s, a).tables.deliveries| == |s.tables.deliveries|
    ensures Apply(s, a).tables.deliveries[i].claimToken == Some(a.token)
       <==> a.now >= s.tables.deliveries[i].leaseExpiresAt.value
  {
    hide Pick, HeldRows;
    var d := s.tables.deliveries;
    var mask := DeliveryMask(d, a.now, a.locked);
    var picked := Pick(mask, a.limit);
    assert mask[i] <==> a.now >= d[i].leaseExpiresAt.value;
    if i in picked {
      var j :| 0 <= j < |picked| && picked[j] == i;
    } else if mask[i] {
      T.IncreasingBelow(picked, i);
    }
  }
}
