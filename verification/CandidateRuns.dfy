/** Runs of equal drifting readings, and the point where each is confirmed. */
module CandidateRuns {
  import opened Wrappers

  /** Polls after which a candidate is confirmed. */
  const CONFIRMATION_POLLS: nat := 3

  /** The structure of one poll, or None when it does not drift from the baseline. */
  type Reading = Option<map<string, string>>

  /** `rs[a..b]` is a longest stretch of one drifting structure. */
  ghost predicate MaximalRun(rs: seq<Reading>, a: nat, b: nat) {
    a < b <= |rs| && rs[a].Some?
    && (forall k | a <= k < b :: rs[k] == rs[a])
    && (a == 0 || rs[a - 1] != rs[a])
    && (b == |rs| || rs[b] != rs[a])
  }

  /** The starts of the maximal runs that reach confirmation. */
  ghost function LongRuns(rs: seq<Reading>): set<nat> {
    set a: nat | a < |rs| && LongRunAt(rs, a)
  }

  ghost predicate LongRunAt(rs: seq<Reading>, a: nat) {
    exists b | 0 <= b <= |rs| :: MaximalRun(rs, a, b) && b - a >= CONFIRMATION_POLLS
  }

  /** Length of the run the last reading belongs to. */
  function RunLength(rs: seq<Reading>): nat {
    if rs == [] || rs[|rs| - 1].None? then 0
    else if |rs| > 1 && rs[|rs| - 2] == rs[|rs| - 1] then RunLength(rs[..|rs| - 1]) + 1
    else 1
  }

  /** How many readings came third in their run. */
  function Confirmations(rs: seq<Reading>): nat {
    if rs == [] then 0
    else Confirmations(rs[..|rs| - 1]) + (if RunLength(rs) == CONFIRMATION_POLLS then 1 else 0)
  }

  /** The counter is the length of the maximal run that ends at the last reading. */
  lemma {:induction false} RunLengthIsTrailingRun(rs: seq<Reading>)
    ensures RunLength(rs) <= |rs|
    ensures RunLength(rs) == 0 <==> rs == [] || rs[|rs| - 1].None?
    ensures RunLength(rs) > 0 ==> MaximalRun(rs, |rs| - RunLength(rs), |rs|)
  {
    if RunLength(rs) > 1 {
      var front := rs[..|rs| - 1];
      RunLengthIsTrailingRun(front);
      assert front[|front| - 1] == rs[|rs| - 2];
      assert MaximalRun(front, |front| - RunLength(front), |front|);
    }
  }

  /** Three equal drifting readings start at `a`, and the one before differs. */
  ghost predicate ThreeFrom(rs: seq<Reading>, a: nat) {
    a + 3 <= |rs| && rs[a].Some? && rs[a] == rs[a + 1] == rs[a + 2] && (a == 0 || rs[a - 1] != rs[a])
  }

  lemma {:induction false} RunEnds(rs: seq<Reading>, a: nat, k: nat) returns (b: nat)
    requires ThreeFrom(rs, a) && a + 3 <= k <= |rs|
    requires forall i | a <= i < k :: rs[i] == rs[a]
    ensures MaximalRun(rs, a, b) && b >= a + 3
    decreases |rs| - k
  {
    if k < |rs| && rs[k] == rs[a] { b := RunEnds(rs, a, k + 1); } else { b := k; }
  }

  lemma LongRunIff(rs: seq<Reading>, a: nat)
    ensures LongRunAt(rs, a) <==> ThreeFrom(rs, a)
  {
    if ThreeFrom(rs, a) {
      var b := RunEnds(rs, a, a + 3);
    }
    if LongRunAt(rs, a) {
      var b :| 0 <= b <= |rs| && MaximalRun(rs, a, b) && b - a >= CONFIRMATION_POLLS;
      assert rs[a + 1] == rs[a] && rs[a + 2] == rs[a];
    }
  }

  /** A poll confirms its candidate exactly when it is the third of a maximal run. */
  lemma ConfirmedAtThird(rs: seq<Reading>)
    ensures RunLength(rs) == CONFIRMATION_POLLS <==> |rs| >= 3 && LongRunAt(rs, |rs| - 3)
  {
    RunLengthIsTrailingRun(rs);
    if |rs| >= 3 {
      var a := |rs| - 3;
      LongRunIff(rs, a);
      if ThreeFrom(rs, a) {
        var front, head := rs[..|rs| - 1], rs[..|rs| - 2];
        assert head[a] == rs[a] && (a > 0 ==> head[a - 1] == rs[a - 1]);
        assert RunLength(head) == 1;
        assert front[..|front| - 1] == head;
        assert RunLength(front) == 2;
      }
    }
  }

  /** There are as many confirmations as maximal runs of length three or more. */
  lemma {:induction false} ConfirmationsAreLongRuns(rs: seq<Reading>)
    ensures Confirmations(rs) == |LongRuns(rs)|
  {
    if rs == [] {
      assert LongRuns(rs) == {};
    } else {
      hide LongRunAt, RunLength;
      var front := rs[..|rs| - 1];
      ConfirmationsAreLongRuns(front);
      ConfirmedAtThird(rs);
      forall a: nat | a + 3 != |rs| ensures LongRunAt(rs, a) <==> LongRunAt(front, a) {
        LongRunIff(rs, a);
        LongRunIff(front, a);
      }
      if |rs| >= 3 { LongRunIff(front, |rs| - 3); }
      LongRunIff(rs, |rs| - 1);
      if RunLength(rs) == CONFIRMATION_POLLS {
        assert LongRuns(rs) == LongRuns(front) + {|rs| - 3};
      } else {
        assert LongRuns(rs) == LongRuns(front);
      }
    }
  }
}
