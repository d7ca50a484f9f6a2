/** The smooth weighted round robin algorithm over unbounded integers, and its fairness. */
module FairShare {
  import opened Prelude

  /** Current weights after every eligible connection has gained its effective weight. */
  function Added(cur: seq<int>, eff: seq<int>, eligible: seq<bool>): (a: seq<int>)
    requires |cur| == |eff| == |eligible|
    ensures |a| == |cur|
  {
    seq(|cur|, i requires 0 <= i < |cur| => if eligible[i] then cur[i] + eff[i] else cur[i])
  }

  /** The total effective weight of the eligible connections. */
  function Total(eff: seq<int>, eligible: seq<bool>): int
    requires |eff| == |eligible|
  {
    if eff == [] then 0 else (if eligible[0] then eff[0] else 0) + Total(eff[1..], eligible[1..])
  }

  /** `k` is the first eligible index with the largest weight among the first `n`. */
  predicate IsFirstMax(a: seq<int>, eligible: seq<bool>, n: nat, k: nat)
    requires n <= |a| == |eligible|
  {
    && k < n
    && eligible[k]
    && (forall j | 0 <= j < n && eligible[j] :: a[j] <= a[k])
    && (forall j | 0 <= j < k && eligible[j] :: a[j] < a[k])
  }

  /** The choice of a scan over the first `n` connections. */
  function FirstMax(a: seq<int>, eligible: seq<bool>, n: nat): (k: Option<nat>)
    requires n <= |a| == |eligible|
    ensures k.Some? ==> k.value < n && eligible[k.value]
  {
    if n == 0 then None
    else
      var k := FirstMax(a, eligible, n - 1);
      if !eligible[n - 1] then k
      else if k.None? || a[k.value] < a[n - 1] then Some(n - 1)
      else k
  }

  /** The scan finds the first maximum, and finds nothing only when nothing is eligible. */
  lemma {:induction false} ScanFindsFirstMax(a: seq<int>, eligible: seq<bool>, n: nat)
    requires n <= |a| == |eligible|
    ensures FirstMax(a, eligible, n).None? <==> forall j | 0 <= j < n :: !eligible[j]
    ensures forall k: nat :: FirstMax(a, eligible, n) == Some(k) <==> IsFirstMax(a, eligible, n, k)
  {
    if n > 0 {
      ScanFindsFirstMax(a, eligible, n - 1);
      var m := FirstMax(a, eligible, n);
      assert m.Some? ==> IsFirstMax(a, eligible, n, m.value);
      forall k: nat | IsFirstMax(a, eligible, n, k) ensures m == Some(k) {
        assert a[m.value] <= a[k] <= a[m.value];
      }
    }
  }

  /** Current weights after one pick; unchanged when nothing is eligible. */
  function AfterPick(cur: seq<int>, eff: seq<int>, eligible: seq<bool>): (c: seq<int>)
    requires |cur| == |eff| == |eligible|
    ensures |c| == |cur|
  {
    var a := Added(cur, eff, eligible);
    match FirstMax(a, eligible, |a|)
    case None => cur
    case Some(k) => a[k := a[k] - Total(eff, eligible)]
  }

  lemma {:induction false} AddedSum(cur: seq<int>, eff: seq<int>, eligible: seq<bool>)
    requires |cur| == |eff| == |eligible|
    ensures Sum(Added(cur, eff, eligible)) == Sum(cur) + Total(eff, eligible)
  {
    if cur != [] {
      assert Added(cur, eff, eligible)[1..] == Added(cur[1..], eff[1..], eligible[1..]);
      AddedSum(cur[1..], eff[1..], eligible[1..]);
    }
  }

  /** A pick conserves the sum of the current weights, whatever the filter and the weights. */
  lemma {:induction false} PickConservesSum(cur: seq<int>, eff: seq<int>, eligible: seq<bool>)
    requires |cur| == |eff| == |eligible|
    ensures Sum(AfterPick(cur, eff, eligible)) == Sum(cur)
  {
    var a := Added(cur, eff, eligible);
    match FirstMax(a, eligible, |a|)
    case None =>
    case Some(k) =>
      AddedSum(cur, eff, eligible);
      SumUpdate(a, k, a[k] - Total(eff, eligible));
  }

  // Runs with fixed weights, in which every connection is eligible.

  function All(n: nat): (e: seq<bool>)
    ensures |e| == n && forall i | 0 <= i < n :: e[i]
  {
    seq(n, _ => true)
  }

  function Zeros(n: nat): (z: seq<int>)
    ensures |z| == n && forall i | 0 <= i < n :: z[i] == 0
  {
    seq(n, _ => 0)
  }

  predicate Weights(w: seq<int>) {
    (forall i | 0 <= i < |w| :: w[i] >= 0) && Sum(w) > 0
  }

  lemma {:induction false} TotalOfAll(w: seq<int>)
    ensures Total(w, All(|w|)) == Sum(w)
  {
    if w != [] {
      assert All(|w|)[1..] == All(|w| - 1);
      TotalOfAll(w[1..]);
    }
  }

  /** The current weights, and how often each connection has been chosen so far. */
  datatype State = State(current: seq<int>, served: seq<nat>)

  predicate Shaped(w: seq<int>, s: State) {
    |s.current| == |s.served| == |w|
  }

  /** What the next pick compares. */
  function Compared(w: seq<int>, s: State): (a: seq<int>)
    requires Shaped(w, s)
    ensures |a| == |w|
  {
    Added(s.current, w, All(|w|))
  }

  function Choice(w: seq<int>, s: State): (k: nat)
    requires Weights(w) && Shaped(w, s)
    ensures k < |w|
  {
    assert All(|w|)[0];
    ScanFindsFirstMax(Compared(w, s), All(|w|), |w|);
    FirstMax(Compared(w, s), All(|w|), |w|).value
  }

  function Next(w: seq<int>, s: State): (r: State)
    requires Weights(w) && Shaped(w, s)
    ensures Shaped(w, r)
  {
    var k := Choice(w, s);
    State(AfterPick(s.current, w, All(|w|)), s.served[k := s.served[k] + 1])
  }

  /** The state after `t` picks from the zero state. */
  function Run(w: seq<int>, t: nat): (s: State)
    requires Weights(w)
    ensures Shaped(w, s)
  {
    if t == 0 then State(Zeros(|w|), Zeros(|w|)) else Next(w, Run(w, t - 1))
  }

  /** The potential of a state after `t` picks: current weights are exactly what is owed, and never a full round. */
  predicate Balanced(w: seq<int>, t: nat, s: State) {
    && Shaped(w, s)
    && Sum(s.current) == 0
    && Sum(s.served) == t
    && forall i | 0 <= i < |w| :: Owed(t, w[i], s.served[i], Sum(w)) == s.current[i] > -Sum(w)
  }

  /** What a connection of weight `w` is owed after being served `n` of `t` picks, times the total weight. */
  function Owed(t: nat, w: int, n: nat, total: int): int {
    Times(t, w) - Times(n, total)
  }

  /** The choice is the first maximum, and it is positive because the compared weights sum to the total. */
  lemma {:induction false} ChoiceIsPositive(w: seq<int>, s: State)
    requires Weights(w) && Shaped(w, s) && Sum(s.current) == 0
    ensures Sum(Compared(w, s)) == Sum(w)
    ensures IsFirstMax(Compared(w, s), All(|w|), |w|, Choice(w, s))
    ensures Compared(w, s)[Choice(w, s)] > 0
  {
    var a := Compared(w, s);
    AddedSum(s.current, w, All(|w|));
    TotalOfAll(w);
    ScanFindsFirstMax(a, All(|w|), |w|);
    var i := SumPositive(a);
    assert All(|w|)[i];
  }

  lemma {:induction false} NextIsBalanced(w: seq<int>, t: nat, s: State)
    requires Weights(w) && Balanced(w, t, s)
    ensures Balanced(w, t + 1, Next(w, s))
  {
    var k := Choice(w, s);
    ChoiceIsPositive(w, s);
    TotalOfAll(w);
    SumUpdate(s.served, k, s.served[k] + 1);
    assert Sum(Next(w, s).current) == 0 by {
      PickConservesSum(s.current, w, All(|w|));
    }
    forall i | 0 <= i < |w|
      ensures Owed(t + 1, w[i], Next(w, s).served[i], Sum(w)) == Next(w, s).current[i] > -Sum(w)
    {
      assert Compared(w, s)[i] == s.current[i] + w[i];
      assert Next(w, s).current == Compared(w, s)[k := Compared(w, s)[k] - Sum(w)];
    }
  }

  lemma {:induction false} RunIsBalanced(w: seq<int>, t: nat)
    requires Weights(w)
    ensures Balanced(w, t, Run(w, t))
  {
    if t == 0 {
      SumOfConstant(Zeros(|w|), 0);
    } else {
      RunIsBalanced(w, t - 1);
      NextIsBalanced(w, t - 1, Run(w, t - 1));
    }
  }

  lemma {:induction false} Ledger(w: seq<int>, t: nat, i: nat)
    requires Weights(w) && i < |w|
    ensures Run(w, t).current[i] == t * w[i] - Run(w, t).served[i] * Sum(w)
    ensures Run(w, t).current[i] > -Sum(w)
  {
    RunIsBalanced(w, t);
    TimesIsProduct(t, w[i]);
    TimesIsProduct(Run(w, t).served[i], Sum(w));
  }

  /** No connection is ever a full pick ahead of its exact share. */
  lemma {:induction false} NeverAFullPickAhead(w: seq<int>, t: nat, i: nat)
    requires Weights(w) && i < |w|
    ensures Run(w, t).served[i] * Sum(w) < t * w[i] + Sum(w)
  {
    Ledger(w, t, i);
  }

  /** Entries above `low` that sum to zero stay below it, times the number of the others. */
  lemma {:induction false} ZeroSumIsBounded(s: seq<int>, low: int, i: nat)
    requires i < |s| && Sum(s) == 0 && forall j | 0 <= j < |s| :: s[j] > -low
    ensures s[i] <= (|s| - 1) * (low - 1)
  {
    var b := low - 1;
    var floor := seq(|s|, _ => -b);
    SumOfConstant(floor, -b);
    SumUpdate(floor, i, s[i]);
    SumSqueeze(floor[i := s[i]], s);
    OneFewer(|s|, b);
  }

  lemma {:induction false} OneFewer(n: int, b: int)
    ensures n * -b + b == -((n - 1) * b)
  {}

  /** No connection ever falls further behind its exact share than the others together can be ahead of theirs. */
  lemma {:induction false} NeverFarBehind(w: seq<int>, t: nat, i: nat)
    requires Weights(w) && i < |w|
    ensures t * w[i] <= Run(w, t).served[i] * Sum(w) + (|w| - 1) * (Sum(w) - 1)
  {
    RunIsBalanced(w, t);
    Ledger(w, t, i);
    ZeroSumIsBounded(Run(w, t).current, Sum(w), i);
  }

  lemma {:induction false} AtMostTheShare(n: int, w: int, total: int)
    requires n * total < total * w + total && total > 0
    ensures n <= w
  {
    if n > w {
      assert false by {
        MulMonotone(w + 1, n, total);
      }
    }
  }

  lemma {:induction false} RoundServesAtMost(w: seq<int>, total: nat, i: nat)
    requires Weights(w) && i < |w| && total == Sum(w)
    ensures Run(w, total).served[i] <= w[i]
  {
    NeverAFullPickAhead(w, total, i);
    AtMostTheShare(Run(w, total).served[i], w[i], total);
  }

  lemma {:induction false} RoundServesExactly(w: seq<int>, total: nat)
    requires Weights(w) && total == Sum(w)
    ensures Run(w, total).served == w
  {
    RunIsBalanced(w, total);
    forall i | 0 <= i < |w| ensures Run(w, total).served[i] <= w[i] {
      RoundServesAtMost(w, total, i);
    }
    SumSqueeze(Run(w, total).served, w);
  }

  lemma {:induction false} RoundSettles(w: seq<int>, total: nat, i: nat)
    requires Weights(w) && i < |w| && total == Sum(w)
    ensures Run(w, total).current[i] == 0
  {
    var s := Run(w, total);
    RoundServesExactly(w, total);
    Ledger(w, total, i);
    NothingOwed(s.current[i], total, w[i], s.served[i]);
  }

  lemma {:induction false} NothingOwed(current: int, total: int, w: int, n: int)
    requires current == total * w - n * total && n == w
    ensures current == 0
  {}

  /** A full round serves every connection exactly its weight and returns to the zero state. */
  lemma {:induction false} FullRound(w: seq<int>)
    requires Weights(w)
    ensures Run(w, Sum(w)) == State(Zeros(|w|), w)
  {
    var total := Sum(w);
    RoundServesExactly(w, total);
    forall i | 0 <= i < |w| ensures Run(w, total).current[i] == 0 {
      RoundSettles(w, total, i);
    }
    assert Run(w, total).current == Zeros(|w|);
  }

  /** Later picks depend only on the current weights. */
  function Advance(w: seq<int>): seq<int> -> seq<int> {
    c => if |c| == |w| then AfterPick(c, w, All(|w|)) else c
  }

  lemma {:induction false} RunIterates(w: seq<int>, t: nat)
    requires Weights(w)
    ensures Run(w, t).current == Iterate(Advance(w), Zeros(|w|), t)
  {
    if t > 0 {
      RunIterates(w, t - 1);
    }
  }

  lemma {:induction false} FullRoundIterates(w: seq<int>)
    requires Weights(w)
    ensures Iterate(Advance(w), Zeros(|w|), Sum(w)) == Zeros(|w|)
  {
    FullRound(w);
    RunIterates(w, Sum(w));
  }

  /** The schedule repeats with period `Sum(w)`. */
  lemma {:induction false} Periodic(w: seq<int>, t: nat, u: nat)
    requires Weights(w) && u == Sum(w) + t
    ensures Run(w, u).current == Run(w, t).current
  {
    FullRoundIterates(w);
    IterateRepeats(Advance(w), Zeros(|w|), Sum(w), t, u);
    RunIterates(w, t);
    RunIterates(w, u);
  }

  lemma {:induction false} EqualOwed(t: int, w: int, n: int, m: int, total: int)
    requires total > 0 && t * w - n * total == (total + t) * w - m * total
    ensures m == n + w
  {
    assert (m - n - w) * total == 0;
  }

  /** Exact proportional fairness: any `Sum(w)` consecutive picks serve connection `i` exactly `w[i]` times. */
  lemma {:induction false} ExactShareOfAnyRound(w: seq<int>, t: nat, u: nat, i: nat)
    requires Weights(w) && u == t + Sum(w) && i < |w|
    ensures Run(w, u).served[i] == Run(w, t).served[i] + w[i]
  {
    Periodic(w, t, u);
    Ledger(w, t, i);
    Ledger(w, u, i);
    EqualOwed(t, w[i], Run(w, t).served[i], Run(w, u).served[i], Sum(w));
  }

  // What each pick compares and chooses.

  function ComparedAt(w: seq<int>, t: nat): (a: seq<int>)
    requires Weights(w)
    ensures |a| == |w|
  {
    Compared(w, Run(w, t))
  }

  function ChoiceAt(w: seq<int>, t: nat): (k: nat)
    requires Weights(w)
    ensures k < |w|
  {
    Choice(w, Run(w, t))
  }

  lemma {:induction false} NextCurrent(w: seq<int>, s: State)
    requires Weights(w) && Shaped(w, s)
    ensures Next(w, s).current == Compared(w, s)[Choice(w, s) := Compared(w, s)[Choice(w, s)] - Sum(w)]
  {
    TotalOfAll(w);
    assert All(|w|)[0];
    ScanFindsFirstMax(Compared(w, s), All(|w|), |w|);
  }

  lemma {:induction false} NextCompared(w: seq<int>, t: nat, i: nat)
    requires Weights(w) && i < |w|
    ensures ComparedAt(w, t + 1)[i] == ComparedAt(w, t)[i] + w[i] - if i == ChoiceAt(w, t) then Sum(w) else 0
  {
    NextCurrent(w, Run(w, t));
  }

  lemma {:induction false} FirstCompared(w: seq<int>, t: nat, i: nat)
    requires Weights(w) && i < |w| && t == 0
    ensures ComparedAt(w, t)[i] == w[i]
  {}

  lemma {:induction false} ComparedSum(w: seq<int>, t: nat)
    requires Weights(w)
    ensures Sum(ComparedAt(w, t)) == Sum(w)
    ensures IsFirstMax(ComparedAt(w, t), All(|w|), |w|, ChoiceAt(w, t))
    ensures ComparedAt(w, t)[ChoiceAt(w, t)] > 0
  {
    RunIsBalanced(w, t);
    ChoiceIsPositive(w, Run(w, t));
  }

  /** What is compared is what is owed after one more pick. */
  lemma {:induction false} ComparedLedger(w: seq<int>, t: nat, i: nat)
    requires Weights(w) && i < |w|
    ensures ComparedAt(w, t)[i] == (t + 1) * w[i] - Run(w, t).served[i] * Sum(w)
    ensures ComparedAt(w, t)[i] > -Sum(w)
  {
    Ledger(w, t, i);
    assert (t + 1) * w[i] == t * w[i] + w[i];
  }

  /** Pick number `t` compares no negative weight. */
  predicate NonNegativeAt(w: seq<int>, t: nat)
    requires Weights(w)
  {
    forall i | 0 <= i < |w| :: ComparedAt(w, t)[i] >= 0
  }

  predicate NonNegativeUpTo(w: seq<int>, t: nat)
    requires Weights(w)
  {
    forall s: nat | s < t :: NonNegativeAt(w, s)
  }

  lemma {:induction false} EntryAtMostSum(w: seq<int>, i: nat)
    requires (forall j | 0 <= j < |w| :: w[j] >= 0) && i < |w|
    ensures w[i] <= Sum(w)
    ensures Sum(w) >= 0
  {
    if |w| > 1 {
      EntryAtMostSum(w[1..], if i == 0 then 0 else i - 1);
    }
  }

  lemma {:induction false} FirstDebtIsAlone(w: seq<int>, t: nat, q: nat, j: nat)
    requires Weights(w) && NonNegativeUpTo(w, t) && q < |w| && ComparedAt(w, t)[q] < 0 && j < |w| && j != q
    ensures 0 <= ComparedAt(w, t)[j]
  {
    if t == 0 {
      FirstCompared(w, t, j);
    } else {
      assert NonNegativeAt(w, t - 1);
      NextCompared(w, t - 1, q);
      NextCompared(w, t - 1, j);
    }
  }

  /** At the first negative comparison only the connection just picked is negative, and the others stay small. */
  lemma {:induction false} FirstDebt(w: seq<int>, t: nat, q: nat)
    requires Weights(w) && NonNegativeUpTo(w, t) && q < |w| && ComparedAt(w, t)[q] < 0
    ensures forall j | 0 <= j < |w| && j != q :: 0 <= ComparedAt(w, t)[j] <= Sum(w) - ComparedAt(w, t)[q]
  {
    var a := ComparedAt(w, t);
    forall j | 0 <= j < |w| && j != q ensures 0 <= a[j] {
      FirstDebtIsAlone(w, t, q, j);
    }
    ComparedSum(w, t);
    SumUpdate(a, q, 0);
    forall j | 0 <= j < |w| && j != q ensures a[j] <= Sum(w) - a[q] {
      EntryAtMostSum(a[q := 0], j);
    }
  }

  /** The first time a negative weight is compared. */
  lemma {:induction false} FirstNegative(w: seq<int>, end: nat) returns (t: nat, q: nat)
    requires Weights(w) && !NonNegativeUpTo(w, end)
    ensures t < end && NonNegativeUpTo(w, t) && q < |w| && ComparedAt(w, t)[q] < 0
  {
    if !NonNegativeUpTo(w, end - 1) {
      t, q := FirstNegative(w, end - 1);
    } else {
      t := end - 1;
      assert !NonNegativeAt(w, t);
      q :| 0 <= q < |w| && ComparedAt(w, t)[q] < 0;
    }
  }
}
