/** Which weights the code serves fairly: a condition on the weights alone. */
module FairWeights {
  import opened Prelude
  import opened FairShare
  import opened WeightBalancer

  // Three or more positive weights.

  predicate Smallest(w: seq<int>, j: nat) {
    j < |w| && w[j] > 0 && forall i | 0 <= i < |w| && w[i] > 0 :: w[j] <= w[i]
  }

  /** Three connections have positive weight. */
  ghost predicate ThreePositive(w: seq<int>) {
    exists i, j, k :: 0 <= i < j < k < |w| && w[i] > 0 && w[j] > 0 && w[k] > 0
  }

  lemma {:induction false} ThreeAtMostSum(a: seq<int>, i: nat, j: nat, k: nat)
    requires i < |a| && j < |a| && k < |a| && i != j && j != k && i != k
    requires forall m | 0 <= m < |a| :: a[m] >= 0
    ensures a[i] + a[j] + a[k] <= Sum(a)
  {
    SumUpdate(a, i, 0);
    SumUpdate(a[i := 0], j, 0);
    EntryAtMostSum(a[i := 0][j := 0], k);
  }

  /** A connection that is picked and not compared below zero next was almost a whole round ahead. */
  lemma {:induction false} PickedIsAhead(w: seq<int>, t: nat)
    requires Weights(w) && NonNegativeAt(w, t + 1)
    ensures ComparedAt(w, t)[ChoiceAt(w, t)] >= Sum(w) - w[ChoiceAt(w, t)]
  {
    NextCompared(w, t, ChoiceAt(w, t));
  }

  /** Picking the smallest weight right after another connection means that a third one is as small and in debt. */
  lemma {:induction false} SwitchToSmallest(w: seq<int>, t: nat, i: nat)
    requires Weights(w) && Smallest(w, ChoiceAt(w, t + 1)) && ChoiceAt(w, t) != ChoiceAt(w, t + 1)
    requires i < |w| && w[i] > 0 && i != ChoiceAt(w, t) && i != ChoiceAt(w, t + 1)
    requires NonNegativeAt(w, t) && NonNegativeAt(w, t + 1) && NonNegativeAt(w, t + 2)
    ensures w[i] == w[ChoiceAt(w, t + 1)] && ComparedAt(w, t)[i] == 0
  {
    var k, j := ChoiceAt(w, t), ChoiceAt(w, t + 1);
    PickedIsAhead(w, t);
    PickedIsAhead(w, t + 1);
    NextCompared(w, t, j);
    ComparedSum(w, t);
    ThreeAtMostSum(ComparedAt(w, t), i, j, k);
    ThreeAtMostSum(w, i, j, k);
  }

  /** No connection of three is picked twice running when it is the smallest. */
  lemma {:induction false} SmallestIsNotRepeated(w: seq<int>, t: nat)
    requires Weights(w) && ThreePositive(w) && Smallest(w, ChoiceAt(w, t))
    requires NonNegativeAt(w, t) && NonNegativeAt(w, t + 1) && NonNegativeAt(w, t + 2)
    ensures ChoiceAt(w, t + 1) != ChoiceAt(w, t)
  {
    var j := ChoiceAt(w, t);
    if ChoiceAt(w, t + 1) == j {
      PickedIsAhead(w, t + 1);
      NextCompared(w, t, j);
      ComparedSum(w, t);
      EntryAtMostSum(ComparedAt(w, t), j);
      SmallestIsAThird(w, j);
    }
  }

  lemma {:induction false} SmallestIsAThird(w: seq<int>, j: nat)
    requires Weights(w) && ThreePositive(w) && Smallest(w, j)
    ensures 3 * w[j] <= Sum(w)
  {
    var x, y, z :| 0 <= x < y < z < |w| && w[x] > 0 && w[y] > 0 && w[z] > 0;
    ThreeAtMostSum(w, x, y, z);
  }

  lemma {:induction false} ThirdOne(w: seq<int>, j: nat, k: nat) returns (i: nat)
    requires ThreePositive(w)
    ensures i < |w| && w[i] > 0 && i != j && i != k
  {
    var x, y, z :| 0 <= x < y < z < |w| && w[x] > 0 && w[y] > 0 && w[z] > 0;
    i := if x != j && x != k then x else if y != j && y != k then y else z;
  }

  lemma {:induction false} SmallestIsNotFirst(w: seq<int>, t: nat)
    requires Weights(w) && ThreePositive(w) && t == 0 && NonNegativeAt(w, t + 1)
    ensures !Smallest(w, ChoiceAt(w, t))
  {
    PickedIsAhead(w, t);
    FirstCompared(w, t, ChoiceAt(w, t));
    if Smallest(w, ChoiceAt(w, t)) {
      SmallestIsAThird(w, ChoiceAt(w, t));
    }
  }

  /** If the smallest weight is picked, one as small was picked two picks before. */
  lemma {:induction false} SmallestWasPickedBefore(w: seq<int>, t: nat, end: nat)
    requires Weights(w) && ThreePositive(w) && NonNegativeUpTo(w, end) && 0 < t && t + 2 <= end
    requires Smallest(w, ChoiceAt(w, t))
    ensures 2 <= t && Smallest(w, ChoiceAt(w, t - 2))
  {
    var r := t - 1;
    var j, k := ChoiceAt(w, t), ChoiceAt(w, r);
    assert NonNegativeAt(w, r) && NonNegativeAt(w, r + 1) && NonNegativeAt(w, r + 2);
    if k == j {
      SmallestIsNotRepeated(w, r);
    }
    var i := ThirdOne(w, j, k);
    SwitchToSmallest(w, r, i);
    DebtMeansPicked(w, r, i, end);
  }

  /** Among three, the smallest weight is never picked while nothing compared is negative. */
  lemma {:induction false} SmallestIsNeverPicked(w: seq<int>, t: nat, end: nat)
    requires Weights(w) && ThreePositive(w) && NonNegativeUpTo(w, end) && t + 2 <= end
    ensures !Smallest(w, ChoiceAt(w, t))
  {
    if t == 0 {
      assert NonNegativeAt(w, t + 1);
      SmallestIsNotFirst(w, t);
    } else if Smallest(w, ChoiceAt(w, t)) {
      SmallestWasPickedBefore(w, t, end);
      SmallestIsNeverPicked(w, t - 2, end);
    }
  }

  /** A connection compared at zero was picked just before. */
  lemma {:induction false} DebtMeansPicked(w: seq<int>, t: nat, i: nat, end: nat)
    requires Weights(w) && i < |w| && w[i] > 0 && ComparedAt(w, t)[i] == 0
    requires NonNegativeUpTo(w, end) && t < end
    ensures t > 0 && ChoiceAt(w, t - 1) == i
  {
    if t == 0 {
      FirstCompared(w, t, i);
    } else {
      assert NonNegativeAt(w, t - 1);
      NextCompared(w, t - 1, i);
    }
  }

  lemma {:induction false} NeverPickedNeverServed(w: seq<int>, t: nat, j: nat)
    requires Weights(w) && j < |w| && forall s: nat | s < t :: ChoiceAt(w, s) != j
    ensures Run(w, t).served[j] == 0
  {
    if t > 0 {
      NeverPickedNeverServed(w, t - 1, j);
      assert ChoiceAt(w, t - 1) != j;
    }
  }

  lemma {:induction false} SmallestExists(w: seq<int>, i: nat) returns (j: nat)
    requires i < |w| && w[i] > 0
    ensures Smallest(w, j)
    decreases w[i]
  {
    if m: nat :| m < |w| && 0 < w[m] < w[i] {
      j := SmallestExists(w, m);
    } else {
      j := i;
    }
  }

  /** After a full round the same weights are compared as at the start. */
  lemma {:induction false} RoundEndsNonNegative(w: seq<int>, total: nat)
    requires Weights(w) && total == Sum(w)
    ensures NonNegativeAt(w, total)
  {
    FullRound(w);
  }

  /** With three positive weights the algorithm compares a negative weight in every first round. */
  lemma {:induction false} ThreeGoNegative(w: seq<int>, total: nat)
    requires Weights(w) && ThreePositive(w) && total == Sum(w)
    ensures !NonNegativeUpTo(w, total)
  {
    if NonNegativeUpTo(w, total) {
      RoundEndsNonNegative(w, total);
      assert NonNegativeUpTo(w, total + 1);
      var i := ThirdOne(w, 0, 0);
      var j := SmallestExists(w, i);
      forall s: nat | s < total ensures ChoiceAt(w, s) != j {
        SmallestIsNeverPicked(w, s, total + 1);
      }
      NeverPickedNeverServed(w, total, j);
      FullRound(w);
    }
  }

  // Two positive weights.

  function Gcd(a: nat, b: nat): (g: nat)
    requires a > 0 && b > 0
    ensures g > 0
    decreases a + b
  {
    if a == b then a else if a < b then Gcd(a, b - a) else Gcd(a - b, b)
  }

  lemma {:induction false} GcdSteps(a: nat, b: nat)
    requires 0 < a < b
    ensures Gcd(a, b) == Gcd(a, b - a)
    ensures Gcd(b, a) == Gcd(b - a, a)
  {}

  /** The weights in lowest terms, and coefficients that combine those to one. */
  lemma {:induction false} LowestTerms(a: nat, b: nat) returns (p: nat, q: nat, u: int, v: int)
    requires a > 0 && b > 0
    ensures a == Gcd(a, b) * p && b == Gcd(a, b) * q && p > 0 && q > 0 && u * p + v * q == 1
    decreases a + b
  {
    if a == b {
      p, q, u, v := 1, 1, 1, 0;
    } else if a < b {
      var r;
      GcdSteps(a, b);
      p, r, u, v := LowestTerms(a, b - a);
      Combine(Gcd(a, b), a, b, p, r, u, v);
      q, u := p + r, u - v;
    } else {
      var r;
      GcdSteps(b, a);
      r, q, u, v := LowestTerms(a - b, b);
      Combine(Gcd(a, b), b, a, q, r, v, u);
      p, v := r + q, v - u;
    }
  }

  lemma {:induction false} Combine(g: int, a: int, b: int, p: int, r: int, u: int, v: int)
    requires a == g * p && b - a == g * r && u * p + v * r == 1
    ensures b == g * (p + r) && (u - v) * p + v * (p + r) == 1
  {
    assert g * (p + r) == g * p + g * r;
    assert (u - v) * p == u * p - v * p;
    assert v * (p + r) == v * p + v * r;
  }

  /** Connections i and j alone have positive weight. */
  predicate OnlyTwo(w: seq<int>, i: nat, j: nat) {
    i < j < |w| && w[i] > 0 && w[j] > 0 && forall m | 0 <= m < |w| && m != i && m != j :: w[m] == 0
  }

  /** The current weight of the first of the two; the other's is its opposite. */
  function Lead(w: seq<int>, t: nat, i: nat): int
    requires Weights(w) && i < |w|
  {
    Run(w, t).current[i]
  }

  lemma {:induction false} SumOfTwo(s: seq<int>, i: nat, j: nat)
    requires i < j < |s| && forall m | 0 <= m < |s| && m != i && m != j :: s[m] == 0
    ensures Sum(s) == s[i] + s[j]
  {
    SumUpdate(s, i, 0);
    SumUpdate(s[i := 0], j, 0);
    SumOfConstant(s[i := 0][j := 0], 0);
  }

  /** A connection of weight zero is never served. */
  lemma {:induction false} ZeroIsIdle(w: seq<int>, t: nat, m: nat)
    requires Weights(w) && m < |w| && w[m] == 0
    ensures Run(w, t).current[m] == 0 && ComparedAt(w, t)[m] == 0
  {
    Ledger(w, t, m);
    var n := Run(w, t).served[m];
    if n > 0 {
      MulMonotone(1, n, Sum(w));
    }
  }

  lemma {:induction false} LeadOpposes(w: seq<int>, t: nat, i: nat, j: nat)
    requires Weights(w) && OnlyTwo(w, i, j)
    ensures ComparedAt(w, t)[i] == Lead(w, t, i) + w[i] && ComparedAt(w, t)[j] == w[j] - Lead(w, t, i)
    ensures Sum(w) == w[i] + w[j]
    ensures forall m | 0 <= m < |w| && m != i && m != j :: ComparedAt(w, t)[m] == 0
  {
    forall m | 0 <= m < |w| && m != i && m != j
      ensures Run(w, t).current[m] == 0 && ComparedAt(w, t)[m] == 0
    {
      ZeroIsIdle(w, t, m);
    }
    RunIsBalanced(w, t);
    SumOfTwo(Run(w, t).current, i, j);
    SumOfTwo(w, i, j);
  }

  lemma {:induction false} ChoiceOfTwo(w: seq<int>, t: nat, i: nat, j: nat)
    requires Weights(w) && OnlyTwo(w, i, j)
    ensures ChoiceAt(w, t) == if 2 * Lead(w, t, i) >= w[j] - w[i] then i else j
  {
    LeadOpposes(w, t, i, j);
    ComparedSum(w, t);
    assert All(|w|)[i] && All(|w|)[j];
  }

  lemma {:induction false} LeadMoves(w: seq<int>, t: nat, i: nat, j: nat)
    requires Weights(w) && OnlyTwo(w, i, j)
    ensures Lead(w, t + 1, i) ==
      if 2 * Lead(w, t, i) >= w[j] - w[i] then Lead(w, t, i) - w[j] else Lead(w, t, i) + w[i]
  {
    LeadOpposes(w, t, i, j);
    LeadOpposes(w, t + 1, i, j);
    NextCompared(w, t, i);
    ChoiceOfTwo(w, t, i, j);
  }

  /** The lead stays within half a round. */
  lemma {:induction false} LeadIsCentred(w: seq<int>, t: nat, i: nat, j: nat)
    requires Weights(w) && OnlyTwo(w, i, j)
    ensures -(w[i] + w[j]) <= 2 * Lead(w, t, i) < w[i] + w[j]
  {
    if t > 0 {
      LeadIsCentred(w, t - 1, i, j);
      LeadMoves(w, t - 1, i, j);
    }
  }

  /** Two weights in lowest terms: g * p and g * q. */
  predicate Scaled(w: seq<int>, i: nat, j: nat, g: nat, p: nat, q: nat) {
    g > 0 && p > 0 && q > 0 && OnlyTwo(w, i, j) && w[i] == Times(p, g) && w[j] == Times(q, g)
  }

  lemma {:induction false} Cancel(g: nat, x: int, y: int)
    requires g > 0
    ensures x * g <= y * g <==> x <= y
  {
    if x <= y {
      MulMonotone(x, y, g);
    } else {
      MulMonotone(y + 1, x, g);
    }
  }

  /** The lead in lowest terms: congruent to t * p modulo p + q. */
  function Steps(w: seq<int>, t: nat, i: nat, p: nat, q: nat): int
    requires Weights(w) && i < |w|
  {
    t * p - Run(w, t).served[i] * (p + q)
  }

  lemma {:induction false} Regroup(t: int, p: int, q: int, n: int, g: int)
    ensures t * (p * g) - n * (p * g + q * g) == (t * p - n * (p + q)) * g
  {
    assert p * g + q * g == (p + q) * g;
    assert t * (p * g) == t * p * g;
    assert n * ((p + q) * g) == n * (p + q) * g;
  }

  lemma {:induction false} LeadInSteps(w: seq<int>, t: nat, i: nat, j: nat, g: nat, p: nat, q: nat)
    requires Weights(w) && Scaled(w, i, j, g, p, q)
    ensures Lead(w, t, i) == Steps(w, t, i, p, q) * g
  {
    TimesIsProduct(p, g);
    TimesIsProduct(q, g);
    Ledger(w, t, i);
    SumOfTwo(w, i, j);
    Regroup(t, p, q, Run(w, t).served[i], g);
  }

  lemma {:induction false} StepsAreCentred(w: seq<int>, t: nat, i: nat, j: nat, g: nat, p: nat, q: nat)
    requires Weights(w) && Scaled(w, i, j, g, p, q)
    ensures -(p + q) <= 2 * Steps(w, t, i, p, q) < p + q
  {
    LeadInSteps(w, t, i, j, g, p, q);
    LeadIsCentred(w, t, i, j);
    TimesIsProduct(p, g);
    TimesIsProduct(q, g);
    CentredInSteps(Steps(w, t, i, p, q), g, p + q);
    assert (p + q) * g == p * g + q * g;
  }

  lemma {:induction false} CentredInSteps(y: int, g: nat, n: int)
    requires g > 0 && 0 - n * g <= 2 * (y * g) < n * g
    ensures 0 - n <= 2 * y < n
  {
    assert 2 * (y * g) == (2 * y) * g && (0 - n) * g == 0 - n * g;
    Cancel(g, 0 - n, 2 * y);
    Cancel(g, n, 2 * y);
  }

  lemma {:induction false} NonNegativeInSteps(w: seq<int>, t: nat, i: nat, j: nat, g: nat, p: nat, q: nat)
    requires Weights(w) && Scaled(w, i, j, g, p, q)
    ensures NonNegativeAt(w, t) <==> 0 - p <= Steps(w, t, i, p, q) <= q
  {
    var y := Steps(w, t, i, p, q);
    LeadInSteps(w, t, i, j, g, p, q);
    LeadOpposes(w, t, i, j);
    TimesIsProduct(p, g);
    TimesIsProduct(q, g);
    Cancel(g, 0 - p, y);
    Cancel(g, y, q);
  }

  lemma {:induction false} SameResidue(y: int, z: int, c: int, n: nat)
    requires y == z + c * n && 0 - n <= 2 * y < n && 0 - n <= 2 * z < n
    ensures y == z
  {
    if c >= 1 {
      MulMonotone(1, c, n);
    } else if c <= -1 {
      MulMonotone(c, -1, n);
    }
  }

  lemma {:induction false} Inverse(z: int, p: int, q: int, u: int, v: int, n: nat) returns (t: nat, c: int)
    requires u * p + v * q == 1 && n == p + q && n > 0
    ensures t < n && t * p == z + c * n
  {
    var e := u - v;
    assert e * p == 1 - v * n by {
      assert (u - v) * p == u * p - v * p;
      assert v * (p + q) == v * p + v * q;
    }
    t := (e * z) % n;
    var m := (e * z) / n;
    assert e * z == m * n + t;
    c := -(v * z) - m * p;
    assert t * p == e * z * p - m * n * p;
    assert e * z * p == z * (e * p);
    assert z * (1 - v * n) == z - v * z * n;
    assert c * n == -(v * z) * n - m * p * n;
  }

  /** In one round the lead takes every centred value. */
  lemma {:induction false} LeadTakesEveryValue(
      w: seq<int>, i: nat, j: nat, g: nat, p: nat, q: nat, u: int, v: int, z: int) returns (t: nat)
    requires Weights(w) && Scaled(w, i, j, g, p, q) && u * p + v * q == 1
    requires -(p + q) <= 2 * z < p + q
    ensures t < p + q && Steps(w, t, i, p, q) == z
  {
    var c;
    t, c := Inverse(z, p, q, u, v, p + q);
    var n := Run(w, t).served[i];
    StepsAreCentred(w, t, i, j, g, p, q);
    assert (c - n) * (p + q) == c * (p + q) - n * (p + q);
    SameResidue(Steps(w, t, i, p, q), z, c - n, p + q);
  }

  predicate CloseTerms(p: nat, q: nat) {
    q <= p + 1 && p <= q + 2
  }

  lemma {:induction false} RoundIsLongEnough(w: seq<int>, i: nat, j: nat, g: nat, p: nat, q: nat)
    requires Weights(w) && Scaled(w, i, j, g, p, q)
    ensures p + q <= Sum(w)
  {
    SumOfTwo(w, i, j);
    TimesIsProduct(p, g);
    TimesIsProduct(q, g);
    MulMonotone(1, g, p);
    MulMonotone(1, g, q);
  }

  lemma {:induction false} TwoInTermsIff(
      w: seq<int>, i: nat, j: nat, g: nat, p: nat, q: nat, u: int, v: int, total: nat)
    requires Weights(w) && Scaled(w, i, j, g, p, q) && u * p + v * q == 1 && total == Sum(w)
    ensures NonNegativeUpTo(w, total) <==> CloseTerms(p, q)
  {
    if CloseTerms(p, q) {
      forall t: nat | t < total ensures NonNegativeAt(w, t) {
        StepsAreCentred(w, t, i, j, g, p, q);
        NonNegativeInSteps(w, t, i, j, g, p, q);
      }
    } else {
      var z := if q > p + 1 then -((p + q) / 2) else (p + q - 1) / 2;
      var t := LeadTakesEveryValue(w, i, j, g, p, q, u, v, z);
      NonNegativeInSteps(w, t, i, j, g, p, q);
      RoundIsLongEnough(w, i, j, g, p, q);
    }
  }

  /** b exceeds a by at most their greatest common divisor, and a exceeds b by at most twice that. */
  predicate Close(a: nat, b: nat)
    requires a > 0 && b > 0
  {
    b - a <= Gcd(a, b) && a - b <= 2 * Gcd(a, b)
  }

  lemma {:induction false} CloseInGcds(a: nat, b: nat, g: nat, p: nat, q: nat)
    requires g > 0 && a == g * p && b == g * q
    ensures CloseTerms(p, q) <==> b - a <= g && a - b <= 2 * g
  {
    Cancel(g, q, p + 1);
    Cancel(g, p, q + 2);
    assert (p + 1) * g == p * g + g && (q + 2) * g == q * g + 2 * g;
  }

  lemma {:induction false} TwoGoNegativeIff(w: seq<int>, i: nat, j: nat, total: nat)
    requires Weights(w) && OnlyTwo(w, i, j) && total == Sum(w)
    ensures NonNegativeUpTo(w, total) <==> Close(w[i], w[j])
  {
    var g := Gcd(w[i], w[j]);
    var p, q, u, v := LowestTerms(w[i], w[j]);
    TimesIsProduct(p, g);
    TimesIsProduct(q, g);
    TwoInTermsIff(w, i, j, g, p, q, u, v, total);
    CloseInGcds(w[i], w[j], g, p, q);
  }

  // One positive weight.

  lemma {:induction false} OneStaysNonNegative(w: seq<int>, i: nat, t: nat)
    requires Weights(w) && i < |w| && forall m | 0 <= m < |w| && m != i :: w[m] == 0
    ensures NonNegativeAt(w, t)
  {
    var a := ComparedAt(w, t);
    forall m | 0 <= m < |w| && m != i ensures a[m] == 0 {
      ZeroIsIdle(w, t, m);
    }
    ComparedSum(w, t);
    SumUpdate(a, i, 0);
    SumOfConstant(a[i := 0], 0);
  }

  // Any weights.

  /** At most two weights are positive, and two positive ones are close. */
  ghost predicate FewAndClose(w: seq<int>) {
    && !ThreePositive(w)
    && forall i, j | 0 <= i < j < |w| && w[i] > 0 && w[j] > 0 :: Close(w[i], w[j])
  }

  lemma {:induction false} NonNegativeIff(w: seq<int>, total: nat)
    requires Weights(w) && total == Sum(w)
    ensures NonNegativeUpTo(w, total) <==> FewAndClose(w)
  {
    if ThreePositive(w) {
      ThreeGoNegative(w, total);
    } else {
      var i := SumPositive(w);
      if j :| 0 <= j < |w| && j != i && w[j] > 0 {
        var x, y := if i < j then i else j, if i < j then j else i;
        assert OnlyTwo(w, x, y) by {
          forall m | 0 <= m < |w| && m != x && m != y ensures w[m] == 0 {
            OtherwiseThree(w, x, y, m);
          }
        }
        TwoGoNegativeIff(w, x, y, total);
      } else {
        forall t: nat | t < total ensures NonNegativeAt(w, t) {
          OneStaysNonNegative(w, i, t);
        }
      }
    }
  }

  lemma {:induction false} OtherwiseThree(w: seq<int>, x: nat, y: nat, m: nat)
    requires Weights(w) && !ThreePositive(w) && x < y < |w| && w[x] > 0 && w[y] > 0
    requires m < |w| && m != x && m != y
    ensures w[m] == 0
  {
    var i, j, k := if m < x then m else x, if m < x then x else if m < y then m else y, if m < y then y else m;
    assert 0 <= i < j < k < |w|;
    assert w[i] == 0 || w[j] == 0 || w[k] == 0;
  }

  /**
   * Which weights the code serves fairly (3 * W <= 2^32): no connection is ever a full pick ahead of its share if
   * and only if at most two weights are positive and two positive ones, in the order of the connections, differ
   * by at most their greatest common divisor upwards and twice that downwards.
   */
  lemma {:induction false} FairIff(w: seq<Word>)
    requires Weights(w) && 3 * Sum(w) <= MODULUS
    ensures SharesAreFair(w) <==> FewAndClose(w)
  {
    SharesAreFairIff(w);
    NonNegativeIff(w, Sum(w));
  }

  /** In particular three or more positive weights give some connection more than its share. */
  lemma {:induction false} ThreeAreNeverFair(w: seq<Word>) returns (t: nat, i: nat)
    requires Weights(w) && ThreePositive(w) && 3 * Sum(w) <= MODULUS
    ensures i < |w| && Served32(w, t, i) * Sum(w) >= t * w[i] + Sum(w)
  {
    FairIff(w);
    t, i :| i < |w| && !ShareIsFair(w, t, i);
  }
}
