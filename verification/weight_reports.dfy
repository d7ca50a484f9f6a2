/** What reports do to an effective weight, and what a connection without weight is worth to a pick. */
module WeightReports {
  import opened Prelude
  import opened FairShare
  import opened WeightBalancer

  /** The weight after a sequence of reports, each telling whether the request failed. */
  function After(w: Word, failures: seq<bool>): Word
    decreases |failures|
  {
    if failures == [] then w
    else Reported(After(w, failures[..|failures| - 1]), failures[|failures| - 1])
  }

  /** Successes less failures. */
  function Net(failures: seq<bool>): int
    decreases |failures|
  {
    if failures == [] then 0
    else Net(failures[..|failures| - 1]) + if failures[|failures| - 1] then -1 else 1
  }

  /** Reports that meet neither end of the range move the weight by successes less failures. */
  lemma {:induction false} ReportsAddUp(w: Word, failures: seq<bool>)
    requires forall k | 0 <= k <= |failures| :: 0 <= w + Net(failures[..k]) < MODULUS
    ensures After(w, failures) == w + Net(failures)
    decreases |failures|
  {
    assert failures[..|failures|] == failures;
    if failures != [] {
      var front := failures[..|failures| - 1];
      forall k | 0 <= k <= |front| ensures 0 <= w + Net(front[..k]) < MODULUS {
        assert front[..k] == failures[..k];
      }
      ReportsAddUp(w, front);
    }
  }

  function Repeated(failed: bool, n: nat): seq<bool> {
    if n == 0 then [] else Repeated(failed, n - 1) + [failed]
  }

  lemma {:induction false} AfterOneMore(w: Word, failures: seq<bool>, failed: bool)
    ensures After(w, failures + [failed]) == Reported(After(w, failures), failed)
  {
    assert (failures + [failed])[..|failures|] == failures;
  }

  /** Failures in a row take the weight down one by one to zero, and leave it there. */
  lemma {:induction false} FailuresDrain(w: Word, n: nat)
    ensures After(w, Repeated(true, n)) == if n <= w then w - n else 0
  {
    if n > 0 {
      FailuresDrain(w, n - 1);
      AfterOneMore(w, Repeated(true, n - 1), true);
    }
  }

  /** Successes in a row take it up one by one to the largest word, and leave it there. */
  lemma {:induction false} SuccessesRestore(w: Word, n: nat)
    ensures After(w, Repeated(false, n)) == if w + n < MODULUS then w + n else MODULUS - 1
  {
    if n > 0 {
      SuccessesRestore(w, n - 1);
      AfterOneMore(w, Repeated(false, n - 1), false);
    }
  }

  /** More failures never leave a higher weight. */
  lemma {:induction false} ReportsAreMonotone(w: Word, v: Word, failures: seq<bool>, others: seq<bool>)
    requires |failures| == |others| && w <= v
    requires forall k | 0 <= k < |failures| :: others[k] ==> failures[k]
    ensures After(w, failures) <= After(v, others)
    decreases |failures|
  {
    if failures != [] {
      ReportsAreMonotone(w, v, failures[..|failures| - 1], others[..|others| - 1]);
    }
  }

  /** A positive sum over the eligible entries has a positive one among them. */
  lemma {:induction false} SomeEligibleIsPositive(a: seq<int>, eligible: seq<bool>) returns (j: nat)
    requires |a| == |eligible| && Total(a, eligible) > 0
    ensures j < |a| && eligible[j] && a[j] > 0
  {
    if eligible[0] && a[0] > 0 {
      j := 0;
    } else {
      j := SomeEligibleIsPositive(a[1..], eligible[1..]);
      j := j + 1;
    }
  }

  /**
   * A connection whose failures have drained its effective weight, and that is owed nothing, is not picked by the
   * algorithm while the eligible ones are worth anything together.
   */
  lemma {:induction false} DrainedIsNotPicked(cur: seq<int>, eff: seq<int>, eligible: seq<bool>, i: nat)
    requires |cur| == |eff| == |eligible| && i < |cur| && cur[i] == 0 && eff[i] == 0
    requires Total(Added(cur, eff, eligible), eligible) > 0
    ensures FirstMax(Added(cur, eff, eligible), eligible, |cur|) != Some(i)
    ensures FirstMax(Added(cur, eff, eligible), eligible, |cur|).Some?
    ensures AfterPick(cur, eff, eligible)[i] == 0
  {
    var a := Added(cur, eff, eligible);
    var j := SomeEligibleIsPositive(a, eligible);
    ScanFindsFirstMax(a, eligible, |a|);
    assert FirstMax(a, eligible, |a|) == Some(i) ==> IsFirstMax(a, eligible, |a|, i);
  }

  /** Nor by the code, while any eligible word compared is above zero. */
  lemma {:induction false} DrainedIsNotPicked32(cur: seq<Word>, eff: seq<Word>, eligible: seq<bool>, i: nat)
    requires |cur| == |eff| == |eligible| && i < |cur| && cur[i] == 0 && eff[i] == 0
    requires Total(Compared32(cur, eff, eligible), eligible) > 0
    ensures Choice32(cur, eff, eligible) != Some(i)
  {
    var a := Compared32(cur, eff, eligible);
    var j := SomeEligibleIsPositive(a, eligible);
    ScanFindsFirstMax(a, eligible, |a|);
    assert a[i] == 0;
    assert FirstMax(a, eligible, |a|) == Some(i) ==> IsFirstMax(a, eligible, |a|, i);
  }
}
