/** What a publisher's counters say about its batch.

    `events` are the claimed rows, `sent(n)` says whether the broker took the n-th, and `marks[n]` is the outbox
    just before its outcome was recorded, `after[n]` just after. */
module PublishTallies {
  import opened Basics
  import opened Wrappers
  import opened NotificationTables
  import opened RowChanges

  /** The n-th row no longer answers to the batch's token when its outcome is recorded. */
  predicate Gone(events: seq<nat>, marks: seq<seq<OutboxRow>>, token: Token, n: nat)
    requires n < |events| && n < |marks|
  {
    !OutboxAnswers(marks[n], events[n], Some(token))
  }

  function FailedEvents(events: seq<nat>, sent: nat -> bool): set<nat> {
    set n | 0 <= n < |events| && !sent(n)
  }

  function ConflictingEvents(events: seq<nat>, marks: seq<seq<OutboxRow>>, token: Token): set<nat>
    requires |marks| == |events|
  {
    set n | 0 <= n < |events| && Gone(events, marks, token, n)
  }

  function PublishedEvents(events: seq<nat>, marks: seq<seq<OutboxRow>>, token: Token, sent: nat -> bool): set<nat>
    requires |marks| == |events|
  {
    set n | 0 <= n < |events| && sent(n) && !Gone(events, marks, token, n)
  }

  /** The failed publications whose claim was gone: the code counts them twice. */
  function LostFailures(events: seq<nat>, marks: seq<seq<OutboxRow>>, token: Token, sent: nat -> bool): set<nat>
    requires |marks| == |events|
  {
    set n | 0 <= n < |events| && !sent(n) && Gone(events, marks, token, n)
  }

  /** Every outcome was recorded on its own row, with the attempt count the claim left in `start`. */
  ghost predicate Recorded(events: seq<nat>, start: seq<OutboxRow>, marks: seq<seq<OutboxRow>>, after: seq<seq<OutboxRow>>,
                           token: Token, sent: nat -> bool, now: Time)
  {
    && |marks| == |after| == |events|
    && forall n | 0 <= n < |events| ::
         events[n] < |start| && PublicationRecorded(marks[n], after[n], events[n], token, sent(n), start[events[n]].attempts, now)
  }

  lemma NothingRecorded(start: seq<OutboxRow>, token: Token, sent: nat -> bool, now: Time)
    ensures Recorded([], start, [], [], token, sent, now)
  {
  }

  lemma NextRecorded(events: seq<nat>, start: seq<OutboxRow>, marks: seq<seq<OutboxRow>>, after: seq<seq<OutboxRow>>,
                     token: Token, sent: nat -> bool, now: Time, event: nat, mark: seq<OutboxRow>, left: seq<OutboxRow>)
    requires Recorded(events, start, marks, after, token, sent, now) && event < |start|
    requires PublicationRecorded(mark, left, event, token, sent(|events|), start[event].attempts, now)
    ensures Recorded(events + [event], start, marks + [mark], after + [left], token, sent, now)
  {
    hide PublicationRecorded;
  }

  lemma NextFailed(events: seq<nat>, sent: nat -> bool, event: nat)
    ensures |FailedEvents(events + [event], sent)| == |FailedEvents(events, sent)| + (if sent(|events|) then 0 else 1)
  {
    var n := |events|;
    assert FailedEvents(events + [event], sent) == FailedEvents(events, sent) + (if sent(n) then {} else {n});
  }

  lemma NextGone(events: seq<nat>, marks: seq<seq<OutboxRow>>, token: Token, event: nat, mark: seq<OutboxRow>, n: nat)
    requires |marks| == |events| && n <= |events|
    ensures Gone(events + [event], marks + [mark], token, n)
         == if n < |events| then Gone(events, marks, token, n) else !OutboxAnswers(mark, event, Some(token))
  {
  }

  lemma NextConflicting(events: seq<nat>, marks: seq<seq<OutboxRow>>, token: Token, event: nat, mark: seq<OutboxRow>)
    requires |marks| == |events|
    ensures |ConflictingEvents(events + [event], marks + [mark], token)|
         == |ConflictingEvents(events, marks, token)| + (if OutboxAnswers(mark, event, Some(token)) then 0 else 1)
  {
    hide Gone, OutboxAnswers;
    var n, before := |events|, ConflictingEvents(events, marks, token);
    var after := ConflictingEvents(events + [event], marks + [mark], token);
    var added := if OutboxAnswers(mark, event, Some(token)) then {} else {n};
    forall i: nat ensures i in after <==> i in before + added {
      if i <= n { NextGone(events, marks, token, event, mark, i); }
    }
    assert after == before + added;
  }

  lemma NextPublished(events: seq<nat>, marks: seq<seq<OutboxRow>>, token: Token, sent: nat -> bool, event: nat,
                      mark: seq<OutboxRow>)
    requires |marks| == |events|
    ensures |PublishedEvents(events + [event], marks + [mark], token, sent)|
         == |PublishedEvents(events, marks, token, sent)|
          + (if sent(|events|) && OutboxAnswers(mark, event, Some(token)) then 1 else 0)
  {
    hide Gone, OutboxAnswers;
    var n, before := |events|, PublishedEvents(events, marks, token, sent);
    var after := PublishedEvents(events + [event], marks + [mark], token, sent);
    var added := if sent(n) && OutboxAnswers(mark, event, Some(token)) then {n} else {};
    forall i: nat ensures i in after <==> i in before + added {
      if i <= n { NextGone(events, marks, token, event, mark, i); }
    }
    assert after == before + added;
  }

  datatype Tally = Tally(published: nat, failed: nat, conflicts: nat)

  /** The counters are the sizes of those sets. */
  ghost predicate Counted(events: seq<nat>, marks: seq<seq<OutboxRow>>, token: Token, sent: nat -> bool, t: Tally) {
    && |marks| == |events| && t.published == |PublishedEvents(events, marks, token, sent)|
    && t.failed == |FailedEvents(events, sent)| && t.conflicts == |ConflictingEvents(events, marks, token)|
  }

  /** One more event raises exactly the counters of its outcome; a failure whose claim is gone raises two. */
  lemma NextEvent(events: seq<nat>, marks: seq<seq<OutboxRow>>, token: Token, sent: nat -> bool, event: nat,
                  mark: seq<OutboxRow>, t: Tally)
    requires Counted(events, marks, token, sent, t)
    ensures var took, held := sent(|events|), OutboxAnswers(mark, event, Some(token));
            Counted(events + [event], marks + [mark], token, sent,
                    Tally(t.published + (if took && held then 1 else 0), t.failed + (if took then 0 else 1),
                          t.conflicts + (if held then 0 else 1)))
  {
    hide Gone, PublishedEvents, FailedEvents, ConflictingEvents, OutboxAnswers;
    NextFailed(events, sent, event);
    NextConflicting(events, marks, token, event, mark);
    NextPublished(events, marks, token, sent, event, mark);
  }

  /** The three counters add up to the batch and the lost failures, so they are exact precisely when every failed
      publication still held its claim. */
  lemma TalliesExactIff(events: seq<nat>, marks: seq<seq<OutboxRow>>, token: Token, sent: nat -> bool)
    requires |marks| == |events|
    ensures var tally := |PublishedEvents(events, marks, token, sent)| + |FailedEvents(events, sent)|
                       + |ConflictingEvents(events, marks, token)|;
            && tally == |events| + |LostFailures(events, marks, token, sent)|
            && (tally == |events| <==> forall n | 0 <= n < |events| && !sent(n) :: !Gone(events, marks, token, n))
  {
    hide Gone;
    var failed, conflicts := FailedEvents(events, sent), ConflictingEvents(events, marks, token);
    var published, lost := PublishedEvents(events, marks, token, sent), LostFailures(events, marks, token, sent);
    assert failed * conflicts == lost;
    assert published + (failed + conflicts) == Below(|events|);
    assert published !! failed + conflicts;
    assert |published + (failed + conflicts)| == |published| + |failed + conflicts|;
    assert |failed + conflicts| == |failed| + |conflicts| - |failed * conflicts|;
    if forall n | 0 <= n < |events| && !sent(n) :: !Gone(events, marks, token, n) {
      assert lost == {};
    } else {
      var n :| 0 <= n < |events| && !sent(n) && Gone(events, marks, token, n);
      assert n in lost;
    }
  }
}
