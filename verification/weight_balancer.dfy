/**
 * The weighted balancer as coded: current weights are 32-bit unsigned words compared unsigned, so the
 * code is related to the algorithm of FairShare by congruence only, and the point where they part is
 * characterised exactly.
 */
module WeightBalancer {
  import opened Prelude
  import opened FairShare

  const MODULUS: int := 0x1_0000_0000
  const HALF: int := 0x8000_0000

  type Word = x: int | 0 <= x < MODULUS

  function Wrap(x: int): (r: Word) {
    x % MODULUS
  }

  function Wrapped(s: seq<int>): (r: seq<Word>)
    ensures |r| == |s|
  {
    seq(|s|, i requires 0 <= i < |s| => Wrap(s[i]))
  }

  /** What a pick of the code compares: the additions wrap. */
  function Compared32(cur: seq<Word>, eff: seq<Word>, eligible: seq<bool>): (a: seq<Word>)
    requires |cur| == |eff| == |eligible|
    ensures |a| == |cur|
  {
    Wrapped(Added(cur, eff, eligible))
  }

  function Choice32(cur: seq<Word>, eff: seq<Word>, eligible: seq<bool>): (k: Option<nat>)
    requires |cur| == |eff| == |eligible|
    ensures k.Some? ==> k.value < |cur|
  {
    FirstMax(Compared32(cur, eff, eligible), eligible, |cur|)
  }

  /** Given the index chosen, what becomes of integer current weights. */
  function Charged(cur: seq<int>, eff: seq<int>, eligible: seq<bool>, k: Option<nat>): (c: seq<int>)
    requires |cur| == |eff| == |eligible| && (k.Some? ==> k.value < |cur|)
    ensures |c| == |cur|
  {
    var a := Added(cur, eff, eligible);
    match k
    case None => cur
    case Some(k) => a[k := a[k] - Total(eff, eligible)]
  }

  function AfterPick32(cur: seq<Word>, eff: seq<Word>, eligible: seq<bool>): (c: seq<Word>)
    requires |cur| == |eff| == |eligible|
    ensures |c| == |cur|
  {
    Wrapped(Charged(cur, eff, eligible, Choice32(cur, eff, eligible)))
  }

  /** The effective weight once a request reports back: it saturates at both ends. */
  function Reported(weight: Word, failed: bool): Word {
    if failed then if weight == 0 then 0 else weight - 1
    else if weight == MODULUS - 1 then weight else weight + 1
  }

  class WeightConn {
    const weight: Word
    var currentWeight: Word
    var efficientWeight: Word

    constructor (weight: Word)
      ensures this.weight == efficientWeight == weight && currentWeight == 0
    {
      this.weight := weight;
      this.currentWeight := 0;
      this.efficientWeight := weight;
    }
  }

  class Balancer {
    const connections: seq<WeightConn>

    ghost predicate Valid() {
      forall i, j | 0 <= i < j < |connections| :: connections[i] != connections[j]
    }

    ghost function Currents(): (c: seq<Word>)
      reads connections
      ensures |c| == |connections|
    {
      seq(|connections|, i requires 0 <= i < |connections| reads connections => connections[i].currentWeight)
    }

    ghost function Efficients(): (e: seq<Word>)
      reads connections
      ensures |e| == |connections|
    {
      seq(|connections|, i requires 0 <= i < |connections| reads connections => connections[i].efficientWeight)
    }

    constructor (connections: seq<WeightConn>)
      ensures this.connections == connections
    {
      this.connections := connections;
    }

    /** The loop of Pick: every eligible connection gains its weight, and the first maximum is found. */
    method Scan(eligible: seq<bool>) returns (picked: Option<nat>, totalWeight: Word)
      requires Valid() && |eligible| == |connections|
      modifies connections
      ensures picked == Choice32(old(Currents()), old(Efficients()), eligible)
      ensures totalWeight == Wrap(Total(old(Efficients()), eligible))
      ensures Currents() == Compared32(old(Currents()), old(Efficients()), eligible)
      ensures Efficients() == old(Efficients())
    {
      ghost var cur, eff := Currents(), Efficients();
      ghost var a := Compared32(cur, eff, eligible);
      totalWeight := 0;
      picked := None;
      for i := 0 to |connections|
        invariant totalWeight == Wrap(Total(eff[..i], eligible[..i]))
        invariant picked == FirstMax(a, eligible, i)
        invariant forall j | 0 <= j < |connections| ::
          connections[j].currentWeight == (if j < i then a[j] else cur[j]) && connections[j].efficientWeight == eff[j]
      {
        ScanStep(cur, eff, eligible, i);
        var c := connections[i];
        if !eligible[i] {
          continue;
        }
        totalWeight := Wrap(totalWeight + c.efficientWeight);
        c.currentWeight := Wrap(c.currentWeight + c.efficientWeight);
        assert c.currentWeight == a[i];
        if picked.None? || connections[picked.value].currentWeight < c.currentWeight {
          picked := Some(i);
        }
      }
      assert eff[..|connections|] == eff && eligible[..|connections|] == eligible;
    }

    /** `eligible` holds the filter's answers, all true when there is no filter. */
    method Pick(eligible: seq<bool>) returns (picked: Option<nat>)
      requires Valid() && |eligible| == |connections|
      modifies connections
      ensures picked == Choice32(old(Currents()), old(Efficients()), eligible)
      ensures Currents() == AfterPick32(old(Currents()), old(Efficients()), eligible)
      ensures Efficients() == old(Efficients())
    {
      AfterPickDirectly(Currents(), Efficients(), eligible);
      var totalWeight;
      picked, totalWeight := Scan(eligible);
      if picked.Some? {
        Charge(picked.value, totalWeight);
      }
    }

    /** The chosen connection pays for the pick. */
    method Charge(i: nat, totalWeight: Word)
      requires Valid() && i < |connections|
      modifies connections[i]
      ensures Currents() == old(Currents())[i := Wrap(old(Currents())[i] - totalWeight)]
      ensures Efficients() == old(Efficients())
    {
      var res := connections[i];
      res.currentWeight := Wrap(res.currentWeight - totalWeight);
    }

    /** The completion callback of a pick of `connections[i]`, taken as one step. */
    method Done(i: nat, failed: bool)
      requires Valid() && i < |connections|
      modifies connections[i]
      ensures Efficients() == old(Efficients())[i := Reported(old(Efficients())[i], failed)]
      ensures Currents() == old(Currents())
    {
      var c := connections[i];
      var weight := c.efficientWeight;
      if (failed && weight == 0) || (!failed && weight == MODULUS - 1) {
        return;
      }
      var newWeight := weight;
      if failed {
        newWeight := newWeight - 1;
      } else {
        newWeight := newWeight + 1;
      }
      c.efficientWeight := newWeight;
    }
  }

  lemma {:induction false} WholeTurns(x: int, q: int)
    ensures Wrap(x + q * 0x1_0000_0000) == Wrap(x)
  {}

  lemma {:induction false} WrapIsCongruent(x: int, y: int)
    ensures Wrap(Wrap(x) + y) == Wrap(x + y)
    ensures Wrap(Wrap(x) - y) == Wrap(x - y)
  {
    WholeTurns(Wrap(x) + y, x / MODULUS);
    WholeTurns(Wrap(x) - y, x / MODULUS);
  }

  lemma {:induction false} WrapSubtrahend(x: int, y: int)
    ensures Wrap(y - Wrap(x)) == Wrap(y - x)
  {
    WholeTurns(y - x, x / MODULUS);
  }

  lemma {:induction false} TotalSnoc(eff: seq<int>, eligible: seq<bool>, i: nat)
    requires i < |eff| == |eligible|
    ensures Total(eff[..i + 1], eligible[..i + 1]) == Total(eff[..i], eligible[..i]) + if eligible[i] then eff[i] else 0
  {
    if i > 0 {
      TotalSnoc(eff[1..], eligible[1..], i - 1);
      assert eff[..i + 1][1..] == eff[1..][..i] && eligible[..i + 1][1..] == eligible[1..][..i];
      assert eff[..i][1..] == eff[1..][..i - 1] && eligible[..i][1..] == eligible[1..][..i - 1];
    }
  }

  /** What the scan of one connection adds. */
  lemma {:induction false} ScanStep(cur: seq<Word>, eff: seq<Word>, eligible: seq<bool>, i: nat)
    requires i < |cur| == |eff| == |eligible|
    ensures Compared32(cur, eff, eligible)[i] == if eligible[i] then Wrap(cur[i] as int + eff[i]) else cur[i]
    ensures Wrap(Total(eff[..i + 1], eligible[..i + 1])) ==
      if eligible[i] then Wrap(Wrap(Total(eff[..i], eligible[..i])) + eff[i]) else Wrap(Total(eff[..i], eligible[..i]))
  {
    TotalSnoc(eff, eligible, i);
    WrapIsCongruent(Total(eff[..i], eligible[..i]), eff[i]);
  }

  /** Wrapping after every addition gives the words that wrapping once at the end would. */
  lemma {:induction false} AfterPickDirectly(cur: seq<Word>, eff: seq<Word>, eligible: seq<bool>)
    requires |cur| == |eff| == |eligible|
    ensures var a := Compared32(cur, eff, eligible);
      AfterPick32(cur, eff, eligible) ==
        match Choice32(cur, eff, eligible)
        case None => a
        case Some(k) => a[k := Wrap(a[k] - Wrap(Total(eff, eligible)))]
  {
    var a := Compared32(cur, eff, eligible);
    match Choice32(cur, eff, eligible)
    case None =>
      ScanFindsFirstMax(a, eligible, |cur|);
    case Some(k) =>
      var total := Total(eff, eligible);
      WrapIsCongruent(Added(cur, eff, eligible)[k], Wrap(total));
      WrapSubtrahend(total, Added(cur, eff, eligible)[k]);
      assert Wrap(a[k] - Wrap(total)) == Wrap(Added(cur, eff, eligible)[k] - total);
  }

  // The code against the algorithm making the same choices.

  datatype Event = Pick(eligible: seq<bool>) | Reweigh(i: nat, weight: Word)

  /** The code's words, and the integers the algorithm would hold after the code's own choices. */
  datatype System = System(current: seq<Word>, efficient: seq<Word>, shadow: seq<int>)

  predicate Enabled(n: nat, e: Event) {
    match e
    case Pick(eligible) => |eligible| == n
    case Reweigh(i, _) => i < n
  }

  predicate Congruent(s: System) {
    && |s.current| == |s.efficient| == |s.shadow|
    && s.current == Wrapped(s.shadow)
    && Sum(s.shadow) == 0
  }

  function Apply(s: System, e: Event): System
    requires |s.current| == |s.efficient| == |s.shadow| && Enabled(|s.current|, e)
  {
    match e
    case Pick(eligible) =>
      var k := Choice32(s.current, s.efficient, eligible);
      System(AfterPick32(s.current, s.efficient, eligible), s.efficient, Charged(s.shadow, s.efficient, eligible, k))
    case Reweigh(i, weight) => s.(efficient := s.efficient[i := weight])
  }

  /** Wrapped arithmetic commutes with the algorithm's, whichever index is charged. */
  lemma {:induction false} ChargedCommutes(shadow: seq<int>, eff: seq<int>, eligible: seq<bool>, k: Option<nat>)
    requires |shadow| == |eff| == |eligible| && (k.Some? ==> k.value < |shadow|)
    ensures Wrapped(Added(Wrapped(shadow), eff, eligible)) == Wrapped(Added(shadow, eff, eligible))
    ensures Wrapped(Charged(Wrapped(shadow), eff, eligible, k)) == Wrapped(Charged(shadow, eff, eligible, k))
  {
    forall i | 0 <= i < |shadow|
      ensures Wrap(Added(Wrapped(shadow), eff, eligible)[i]) == Wrap(Added(shadow, eff, eligible)[i])
      ensures Wrap(Charged(Wrapped(shadow), eff, eligible, k)[i]) == Wrap(Charged(shadow, eff, eligible, k)[i])
    {
      var gain := if eligible[i] then eff[i] else 0;
      var charge := if k == Some(i) then Total(eff, eligible) else 0;
      WrapIsCongruent(shadow[i], gain);
      WrapIsCongruent(shadow[i], gain - charge);
    }
  }

  lemma {:induction false} ChargedConserves(cur: seq<int>, eff: seq<int>, eligible: seq<bool>, k: Option<nat>)
    requires |cur| == |eff| == |eligible| && (k.Some? ==> k.value < |cur|)
    ensures Sum(Charged(cur, eff, eligible, k)) == Sum(cur)
  {
    if k.Some? {
      var a := Added(cur, eff, eligible);
      AddedSum(cur, eff, eligible);
      SumUpdate(a, k.value, a[k.value] - Total(eff, eligible));
    }
  }

  lemma {:induction false} StepKeepsCongruence(s: System, e: Event)
    requires Congruent(s) && Enabled(|s.current|, e)
    ensures Congruent(Apply(s, e))
  {
    match e
    case Pick(eligible) =>
      var k := Choice32(s.current, s.efficient, eligible);
      ChargedCommutes(s.shadow, s.efficient, eligible, k);
      ChargedConserves(s.shadow, s.efficient, eligible, k);
    case Reweigh(_, _) =>
  }

  function Play(s: System, events: seq<Event>): System
    requires |s.current| == |s.efficient| == |s.shadow|
    requires forall e <- events :: Enabled(|s.current|, e)
    decreases events
  {
    if events == [] then s else Play(Apply(s, events[0]), events[1..])
  }

  function Start(weights: seq<Word>): System {
    System(Wrapped(Zeros(|weights|)), weights, Zeros(|weights|))
  }

  lemma {:induction false} PlayKeepsCongruence(s: System, events: seq<Event>)
    requires Congruent(s) && forall e <- events :: Enabled(|s.current|, e)
    ensures Congruent(Play(s, events))
    decreases events
  {
    if events != [] {
      StepKeepsCongruence(s, events[0]);
      PlayKeepsCongruence(Apply(s, events[0]), events[1..]);
    }
  }

  lemma {:induction false} WrapSum(s: seq<int>)
    ensures Wrap(Sum(Wrapped(s))) == Wrap(Sum(s))
  {
    if s != [] {
      assert Wrapped(s)[1..] == Wrapped(s[1..]);
      WrapSum(s[1..]);
      WrapIsCongruent(s[0], Sum(Wrapped(s[1..])));
      WrapIsCongruent(Sum(Wrapped(s[1..])), s[0]);
      WrapIsCongruent(Sum(s[1..]), s[0]);
    }
  }

  /**
   * Over every run from the initial state, with any filters and any changes of the effective weights,
   * each word is congruent to its integer counterpart and the words sum to zero modulo 2^32.
   */
  lemma {:induction false} EveryRunIsCongruent(weights: seq<Word>, events: seq<Event>)
    requires forall e <- events :: Enabled(|weights|, e)
    ensures var s := Play(Start(weights), events);
      Congruent(s) && Wrap(Sum(s.current)) == 0
  {
    SumOfConstant(Zeros(|weights|), 0);
    PlayKeepsCongruence(Start(weights), events);
    WrapSum(Play(Start(weights), events).shadow);
  }

  // When the code makes the algorithm's choice.

  lemma {:induction false} OnlyEligibleMatter(a: seq<int>, b: seq<int>, eligible: seq<bool>, n: nat)
    requires n <= |a| == |b| == |eligible|
    requires forall j | 0 <= j < n && eligible[j] :: a[j] == b[j]
    ensures FirstMax(a, eligible, n) == FirstMax(b, eligible, n)
  {
    if n > 0 {
      OnlyEligibleMatter(a, b, eligible, n - 1);
    }
  }

  /** Whatever the weights, a pick agrees with the algorithm when nothing compared has wrapped. */
  lemma {:induction false} InRangeSameChoice(s: System, eligible: seq<bool>)
    requires Congruent(s) && |eligible| == |s.current|
    requires forall i | 0 <= i < |eligible| && eligible[i] :: 0 <= Added(s.shadow, s.efficient, eligible)[i] < MODULUS
    ensures Choice32(s.current, s.efficient, eligible)
         == FirstMax(Added(s.shadow, s.efficient, eligible), eligible, |eligible|)
  {
    var a := Added(s.shadow, s.efficient, eligible);
    ChargedCommutes(s.shadow, s.efficient, eligible, None);
    OnlyEligibleMatter(Wrapped(a), a, eligible, |a|);
  }

  predicate OneSign(a: seq<int>, eligible: seq<bool>)
    requires |a| == |eligible|
  {
    || (forall i | 0 <= i < |a| && eligible[i] :: a[i] >= 0)
    || (forall i | 0 <= i < |a| && eligible[i] :: a[i] < 0)
  }

  lemma {:induction false} WrapsAboveHalf(x: int)
    requires -HALF <= x < HALF
    ensures Wrap(x) == if x >= 0 then x else x + MODULUS
  {}

  lemma {:induction false} ShiftedSameChoice(a: seq<int>, eligible: seq<bool>, n: nat)
    requires n <= |a| == |eligible|
    requires forall i | 0 <= i < n && eligible[i] :: -HALF <= a[i] < 0
    ensures FirstMax(Wrapped(a), eligible, n) == FirstMax(a, eligible, n)
  {
    if n > 0 {
      ShiftedSameChoice(a, eligible, n - 1);
      if eligible[n - 1] {
        WrapsAboveHalf(a[n - 1]);
        var k := FirstMax(a, eligible, n - 1);
        if k.Some? {
          WrapsAboveHalf(a[k.value]);
        }
      }
    }
  }

  /**
   * The exact condition: while the compared integers fit 32 signed bits, a pick of the code is the
   * algorithm's if and only if the compared weights of the eligible connections share one sign.
   */
  lemma {:induction false} SameChoiceIff(a: seq<int>, eligible: seq<bool>)
    requires |a| == |eligible|
    requires forall i | 0 <= i < |a| && eligible[i] :: -HALF <= a[i] < HALF
    ensures FirstMax(Wrapped(a), eligible, |a|) == FirstMax(a, eligible, |a|) <==> OneSign(a, eligible)
  {
    var n := |a|;
    if forall i | 0 <= i < n && eligible[i] :: a[i] >= 0 {
      OnlyEligibleMatter(Wrapped(a), a, eligible, n);
    } else if forall i | 0 <= i < n && eligible[i] :: a[i] < 0 {
      ShiftedSameChoice(a, eligible, n);
    } else {
      ScanFindsFirstMax(a, eligible, n);
      ScanFindsFirstMax(Wrapped(a), eligible, n);
      var p :| 0 <= p < n && eligible[p] && a[p] >= 0;
      var q :| 0 <= q < n && eligible[q] && a[q] < 0;
      var k, m := FirstMax(a, eligible, n).value, FirstMax(Wrapped(a), eligible, n).value;
      assert a[k] >= a[p] >= 0;
      assert Wrapped(a)[m] >= Wrapped(a)[q];
      WrapsAboveHalf(a[q]);
      WrapsAboveHalf(a[k]);
    }
  }

  // Runs with fixed weights and no filter.

  function Advance32(w: seq<Word>): seq<Word> -> seq<Word> {
    c => if |c| == |w| then AfterPick32(c, w, All(|w|)) else c
  }

  lemma {:induction false} IterateFits(w: seq<Word>, zero: seq<Word>, t: nat)
    requires |zero| == |w|
    ensures |Iterate(Advance32(w), zero, t)| == |w|
  {
    if t > 0 {
      IterateFits(w, zero, t - 1);
    }
  }

  /** The code's current weights after `t` picks. */
  function Current32(w: seq<Word>, t: nat): (c: seq<Word>)
    ensures |c| == |w|
  {
    IterateFits(w, Wrapped(Zeros(|w|)), t);
    Iterate(Advance32(w), Wrapped(Zeros(|w|)), t)
  }

  lemma {:induction false} CodeAdvances(w: seq<Word>, t: nat, u: nat)
    requires u == t + 1
    ensures Current32(w, u) == AfterPick32(Current32(w, t), w, All(|w|))
  {
    IterateNext(Advance32(w), Wrapped(Zeros(|w|)), t, u);
    AdvanceApplied(w, Current32(w, t));
  }

  lemma {:induction false} AdvanceApplied(w: seq<Word>, c: seq<Word>)
    requires |c| == |w|
    ensures Advance32(w)(c) == AfterPick32(c, w, All(|w|))
  {}

  function PickNumber(w: seq<Word>, t: nat): Option<nat> {
    Choice32(Current32(w, t), w, All(|w|))
  }

  /** Pick number `t` of the code is the algorithm's. */
  predicate AgreesAt(w: seq<Word>, t: nat)
    requires Weights(w)
  {
    PickNumber(w, t) == Some(Choice(w, Run(w, t)))
  }

  predicate AgreesUpTo(w: seq<Word>, t: nat)
    requires Weights(w)
  {
    forall s: nat | s < t :: AgreesAt(w, s)
  }

  lemma {:induction false} AgreedStep(w: seq<Word>, s: State)
    requires Weights(w) && Shaped(w, s)
    requires Choice32(Wrapped(s.current), w, All(|w|)) == Some(Choice(w, s))
    ensures AfterPick32(Wrapped(s.current), w, All(|w|)) == Wrapped(Next(w, s).current)
  {
    ChosenMeansCharged(w, s);
    ChargedCommutes(s.current, w, All(|w|), Some(Choice(w, s)));
  }

  predicate CongruentAt(w: seq<Word>, t: nat)
    requires Weights(w)
  {
    Current32(w, t) == Wrapped(Run(w, t).current)
  }

  lemma {:induction false} AgreedNext(w: seq<Word>, t: nat)
    requires Weights(w) && AgreesAt(w, t) && CongruentAt(w, t)
    ensures CongruentAt(w, t + 1)
  {
    CodeAdvances(w, t, t + 1);
    AgreedStep(w, Run(w, t));
  }

  lemma {:induction false} CongruentAtStart(w: seq<Word>, t: nat)
    requires Weights(w) && t == 0
    ensures CongruentAt(w, t)
  {}

  lemma {:induction false} AgreedAtNext(w: seq<Word>, t: nat, r: nat, s: nat)
    requires Weights(w) && AgreesUpTo(w, t) && CongruentAt(w, r) && s == r + 1 && r < t
    ensures CongruentAt(w, s)
  {
    assert AgreesAt(w, r);
    AgreedNext(w, r);
  }

  lemma {:induction false} AgreementMeansCongruence(w: seq<Word>, t: nat)
    requires Weights(w) && AgreesUpTo(w, t)
    ensures Current32(w, t) == Wrapped(Run(w, t).current)
  {
    var p: nat -> bool := (s: nat) => Weights(w) && CongruentAt(w, s);
    CongruentAtStart(w, 0);
    forall s: nat, u: nat | u == s + 1 <= t && p(s) ensures p(u) {
      AgreedAtNext(w, t, s, u);
    }
    Induct(p, t);
  }

  lemma {:induction false} ChosenMeansCharged(w: seq<int>, s: State)
    requires Weights(w) && Shaped(w, s)
    ensures FirstMax(Compared(w, s), All(|w|), |w|) == Some(Choice(w, s))
    ensures Next(w, s).current == Charged(s.current, w, All(|w|), Some(Choice(w, s)))
  {
    assert All(|w|)[0];
    ScanFindsFirstMax(Compared(w, s), All(|w|), |w|);
  }

  lemma {:induction false} CongruentComparison(w: seq<Word>, t: nat)
    requires Weights(w) && CongruentAt(w, t)
    ensures Compared32(Current32(w, t), w, All(|w|)) == Wrapped(ComparedAt(w, t))
  {
    ChargedCommutes(Run(w, t).current, w, All(|w|), None);
  }

  /** At the first negative comparison the wrapped debt beats every other weight: the code picks the debtor. */
  lemma {:induction false} DebtIsPicked(w: seq<Word>, t: nat, q: nat)
    requires Weights(w) && 3 * Sum(w) <= MODULUS && NonNegativeUpTo(w, t) && CongruentAt(w, t)
    requires q < |w| && ComparedAt(w, t)[q] < 0
    ensures PickNumber(w, t) == Some(q)
  {
    var a := ComparedAt(w, t);
    CongruentComparison(w, t);
    FirstDebt(w, t, q);
    ComparedLedger(w, t, q);
    forall j | 0 <= j < |w| && j != q ensures Wrapped(a)[j] < Wrapped(a)[q] {
      DebtLooksLargest(Sum(w), a[q], a[j]);
    }
    assert IsFirstMax(Wrapped(a), All(|w|), |w|, q);
    ScanFindsFirstMax(Wrapped(a), All(|w|), |w|);
  }

  lemma {:induction false} DebtLooksLargest(total: int, debt: int, other: int)
    requires 0 < total && 3 * total <= MODULUS && -total < debt < 0 && 0 <= other <= total - debt
    ensures Wrap(other) < Wrap(debt)
  {
    assert Wrap(other) == other && Wrap(debt) == debt + MODULUS;
  }

  lemma {:induction false} WrappedAsIs(a: seq<int>, total: int)
    requires Sum(a) == total < MODULUS && forall j | 0 <= j < |a| :: a[j] >= 0
    ensures Wrapped(a) == a
  {
    forall j | 0 <= j < |a| ensures Wrapped(a)[j] == a[j] {
      EntryAtMostSum(a, j);
    }
  }

  /** Where nothing compared is negative the code picks as the algorithm does. */
  lemma {:induction false} CreditIsPicked(w: seq<Word>, t: nat)
    requires Weights(w) && 3 * Sum(w) <= MODULUS && NonNegativeAt(w, t) && CongruentAt(w, t)
    ensures AgreesAt(w, t)
  {
    CongruentComparison(w, t);
    ComparedSum(w, t);
    WrappedAsIs(ComparedAt(w, t), Sum(w));
    ChosenMeansCharged(w, Run(w, t));
    assert PickNumber(w, t) == FirstMax(ComparedAt(w, t), All(|w|), |w|);
  }

  /** Pick number `t` of a run that has agreed so far agrees exactly when nothing compared is negative. */
  lemma {:induction false} NextPickAgreesIff(w: seq<Word>, t: nat)
    requires Weights(w) && AgreesUpTo(w, t) && NonNegativeUpTo(w, t) && 3 * Sum(w) <= MODULUS
    ensures AgreesAt(w, t) <==> NonNegativeAt(w, t)
  {
    AgreementMeansCongruence(w, t);
    if NonNegativeAt(w, t) {
      CreditIsPicked(w, t);
    } else {
      var q :| 0 <= q < |w| && ComparedAt(w, t)[q] < 0;
      DebtIsPicked(w, t, q);
      ComparedSum(w, t);
    }
  }

  /**
   * With fixed weights, 3 * W <= 2^32, the code's first `t` picks are the algorithm's, for any t, if and only if
   * the algorithm never compares a negative weight in them.
   */
  lemma {:induction false} AgreesIffNothingNegative(w: seq<Word>, t: nat)
    requires Weights(w) && 3 * Sum(w) <= MODULUS
    ensures AgreesUpTo(w, t) <==> NonNegativeUpTo(w, t)
  {
    if t > 0 {
      AgreesIffNothingNegative(w, t - 1);
      UpToNext(w, t - 1);
      if AgreesUpTo(w, t - 1) {
        NextPickAgreesIff(w, t - 1);
      }
    }
  }

  lemma {:induction false} UpToNext(w: seq<Word>, t: nat)
    requires Weights(w)
    ensures AgreesUpTo(w, t + 1) <==> AgreesUpTo(w, t) && AgreesAt(w, t)
    ensures NonNegativeUpTo(w, t + 1) <==> NonNegativeUpTo(w, t) && NonNegativeAt(w, t)
  {}

  lemma {:induction false} CodeRepeats(w: seq<Word>, t: nat, u: nat)
    requires Weights(w) && AgreesUpTo(w, Sum(w)) && u == Sum(w) + t
    ensures Current32(w, u) == Current32(w, t)
  {
    AgreementMeansCongruence(w, Sum(w));
    FullRound(w);
    IterateRepeats(Advance32(w), Wrapped(Zeros(|w|)), Sum(w), t, u);
  }

  lemma {:induction false} AgreesInLaterRounds(w: seq<Word>, t: nat)
    requires Weights(w) && AgreesUpTo(w, Sum(w))
    ensures AgreesAt(w, t)
  {
    if t >= Sum(w) {
      AgreesInLaterRounds(w, t - Sum(w));
      CodeRepeats(w, t - Sum(w), t);
      Periodic(w, t - Sum(w), t);
    }
  }

  /**
   * The code makes the algorithm's choices forever if and only if the algorithm's first W picks compare no
   * negative weight (3 * W <= 2^32).
   */
  lemma {:induction false} AgreesForeverIff(w: seq<Word>)
    requires Weights(w) && 3 * Sum(w) <= MODULUS
    ensures (forall t: nat :: AgreesAt(w, t)) <==> NonNegativeUpTo(w, Sum(w))
  {
    AgreesIffNothingNegative(w, Sum(w));
    if NonNegativeUpTo(w, Sum(w)) {
      forall t: nat ensures AgreesAt(w, t) {
        AgreesInLaterRounds(w, t);
      }
    }
  }

  // Shares.

  function PicksOf(w: seq<Word>, i: nat): nat -> bool {
    (s: nat) => PickNumber(w, s) == Some(i)
  }

  /** How often the code has picked connection `i` in its first `t` picks. */
  function Served32(w: seq<Word>, t: nat, i: nat): nat {
    Tally(PicksOf(w, i), t)
  }

  predicate ShareIsFair(w: seq<Word>, t: nat, i: nat)
    requires i < |w|
  {
    Served32(w, t, i) * Sum(w) < t * w[i] + Sum(w)
  }

  /** No connection is ever a full pick ahead of its exact share. */
  ghost predicate SharesAreFair(w: seq<Word>) {
    forall t: nat, i: nat | i < |w| :: ShareIsFair(w, t, i)
  }

  predicate ServedAlike(w: seq<Word>, t: nat, i: nat)
    requires Weights(w) && i < |w|
  {
    Served32(w, t, i) == Run(w, t).served[i]
  }

  lemma {:induction false} ServedNext(w: seq<Word>, t: nat, i: nat, u: nat)
    requires u == t + 1
    ensures Served32(w, u, i) == Served32(w, t, i) + if PickNumber(w, t) == Some(i) then 1 else 0
  {
    TallyNext(PicksOf(w, i), t, u);
  }

  lemma {:induction false} NextServes(w: seq<int>, s: State, i: nat)
    requires Weights(w) && Shaped(w, s) && i < |w|
    ensures Next(w, s).served[i] == s.served[i] + if Choice(w, s) == i then 1 else 0
  {}

  lemma {:induction false} RunServedNext(w: seq<int>, t: nat, i: nat, u: nat)
    requires Weights(w) && i < |w| && u == t + 1
    ensures Run(w, u).served[i] == Run(w, t).served[i] + if ChoiceAt(w, t) == i then 1 else 0
  {
    assert Run(w, u) == Next(w, Run(w, t));
    NextServes(w, Run(w, t), i);
  }

  lemma {:induction false} ServedAlikeNext(w: seq<Word>, t: nat, i: nat, u: nat)
    requires Weights(w) && i < |w| && AgreesAt(w, t) && ServedAlike(w, t, i) && u == t + 1
    ensures ServedAlike(w, u, i)
  {
    ServedNext(w, t, i, u);
    RunServedNext(w, t, i, u);
  }

  lemma {:induction false} ServedAsAgreed(w: seq<Word>, t: nat, i: nat)
    requires Weights(w) && AgreesUpTo(w, t) && i < |w|
    ensures Served32(w, t, i) == Run(w, t).served[i]
  {
    var p: nat -> bool := (s: nat) => Weights(w) && i < |w| && ServedAlike(w, s, i);
    forall s: nat, u: nat | u == s + 1 <= t && p(s) ensures p(u) {
      assert AgreesAt(w, s);
      ServedAlikeNext(w, s, i, u);
    }
    Induct(p, t);
  }

  lemma {:induction false} FullPickAhead(owed: int, n: int, total: int)
    requires owed - n * total < 0
    ensures (n + 1) * total >= owed + total
  {}

  lemma {:induction false} DebtIsServed(w: seq<Word>, t: nat, q: nat, u: nat)
    requires Weights(w) && 3 * Sum(w) <= MODULUS && NonNegativeUpTo(w, t) && q < |w| && ComparedAt(w, t)[q] < 0
    requires u == t + 1
    ensures Served32(w, u, q) == Run(w, t).served[q] + 1
  {
    AgreesIffNothingNegative(w, t);
    AgreementMeansCongruence(w, t);
    DebtIsPicked(w, t, q);
    ServedAsAgreed(w, t, q);
    ServedNext(w, t, q, u);
  }

  /** The debtor that the code picks is then a full pick ahead. */
  lemma {:induction false} DebtIsUnfair(w: seq<Word>, t: nat, q: nat, u: nat)
    requires Weights(w) && 3 * Sum(w) <= MODULUS && NonNegativeUpTo(w, t) && q < |w| && ComparedAt(w, t)[q] < 0
    requires u == t + 1
    ensures !ShareIsFair(w, u, q)
  {
    DebtIsServed(w, t, q, u);
    ComparedLedger(w, t, q);
    FullPickAhead(u * w[q], Run(w, t).served[q], Sum(w));
  }

  /**
   * Fairness of the code, decided by one round: no connection is ever a full pick ahead of its share if and only
   * if the algorithm's first W picks compare no negative weight (3 * W <= 2^32).
   */
  lemma {:induction false} SharesAreFairIff(w: seq<Word>)
    requires Weights(w) && 3 * Sum(w) <= MODULUS
    ensures SharesAreFair(w) <==> NonNegativeUpTo(w, Sum(w))
  {
    if NonNegativeUpTo(w, Sum(w)) {
      AgreesForeverIff(w);
      forall t: nat, i: nat | i < |w| ensures ShareIsFair(w, t, i) {
        ServedAsAgreed(w, t, i);
        NeverAFullPickAhead(w, t, i);
      }
    } else {
      var t, q := FirstNegative(w, Sum(w));
      DebtIsUnfair(w, t, q, t + 1);
    }
  }

  /** Where shares are fair they are exact: any W consecutive picks of the code serve connection `i` w[i] times. */
  lemma {:induction false} FairSharesAreExact(w: seq<Word>, t: nat, u: nat, i: nat)
    requires Weights(w) && 3 * Sum(w) <= MODULUS && SharesAreFair(w) && u == t + Sum(w) && i < |w|
    ensures Served32(w, u, i) == Served32(w, t, i) + w[i]
  {
    SharesAreFairIff(w);
    AgreesForeverIff(w);
    ServedAsAgreed(w, t, i);
    ServedAsAgreed(w, u, i);
    ExactShareOfAnyRound(w, t, u, i);
  }

  // Equal weights: the code starves all connections but the first.

  function Equal(n: nat, v: Word): (w: seq<Word>)
    ensures |w| == n && forall i | 0 <= i < n :: w[i] == v
  {
    seq(n, _ => v)
  }

  /** The current weights once every pick so far went to connection 0: it is `debt` down, the others `credit` up. */
  predicate FirstInDebt(c: seq<Word>, debt: int, credit: int) {
    && |c| >= 3
    && c[0] == Wrap(-debt)
    && forall i | 1 <= i < |c| :: c[i] == credit
  }

  lemma {:induction false} TotalOfEqual(n: nat, v: Word)
    ensures Total(Equal(n, v), All(n)) == Times(n, v)
  {
    if n > 0 {
      assert Equal(n, v)[1..] == Equal(n - 1, v) && All(n)[1..] == All(n - 1);
      TotalOfEqual(n - 1, v);
    }
  }

  predicate Lopsided(v: Word, debt: int, credit: int) {
    debt == credit == 0 || (credit >= v && debt >= 2 * credit && debt + credit < MODULUS)
  }

  lemma {:induction false} DebtLooksLarge(v: Word, debt: int, credit: int)
    requires v > 0 && Lopsided(v, debt, credit)
    ensures credit + v < MODULUS
    ensures Wrap(v - debt) >= credit + v
  {}

  lemma {:induction false} DebtorIsCompared(n: nat, v: Word, c: seq<Word>, debt: int, credit: int)
    requires |c| == n && FirstInDebt(c, debt, credit) && 0 <= credit + v < MODULUS
    ensures Compared32(c, Equal(n, v), All(n))[0] == Wrap(v - debt)
    ensures forall i | 1 <= i < n :: Compared32(c, Equal(n, v), All(n))[i] == credit + v
  {
    WrapIsCongruent(-debt, v);
    forall i | 1 <= i < n ensures Compared32(c, Equal(n, v), All(n))[i] == credit + v {
      assert Added(c, Equal(n, v), All(n))[i] == credit + v;
    }
  }

  /** A debtor's wrapped weight beats every creditor's, so the debtor is charged again. */
  lemma {:induction false} DebtorIsPickedAgain(n: nat, v: Word, c: seq<Word>, debt: int, credit: int)
    requires n >= 3 && v > 0 && |c| == n && FirstInDebt(c, debt, credit) && Lopsided(v, debt, credit)
    ensures Choice32(c, Equal(n, v), All(n)) == Some(0)
    ensures FirstInDebt(AfterPick32(c, Equal(n, v), All(n)), debt + Times(n - 1, v), credit + v)
  {
    var w := Equal(n, v);
    var a := Compared32(c, w, All(n));
    DebtLooksLarge(v, debt, credit);
    DebtorIsCompared(n, v, c, debt, credit);
    assert IsFirstMax(a, All(n), n, 0);
    ScanFindsFirstMax(a, All(n), n);
    AfterPickDirectly(c, w, All(n));
    TotalOfEqual(n, v);
    assert v - debt - Times(n, v) == -(debt + Times(n - 1, v));
    WrapIsCongruent(v - debt, Wrap(Times(n, v)));
    WrapSubtrahend(Times(n, v), v - debt);
  }

  predicate Starved(n: nat, v: Word, t: nat)
    requires n >= 1
  {
    FirstInDebt(Current32(Equal(n, v), t), Times(t, Times(n - 1, v)), Times(t, v))
  }

  lemma {:induction false} StarvedAtNext(n: nat, v: Word, t: nat, u: nat)
    requires n >= 3 && v > 0 && t * n * v < MODULUS && u == t + 1 && Starved(n, v, t)
    ensures PickNumber(Equal(n, v), t) == Some(0) && Starved(n, v, u)
  {
    var debt, credit := Times(t, Times(n - 1, v)), Times(t, v);
    EarlierBounds(n, v, t);
    assert Times(u, Times(n - 1, v)) == debt + Times(n - 1, v) && Times(u, v) == credit + v;
    StarvedNext(n, v, t, u, debt, credit);
  }

  lemma {:induction false} StarvedAtStart(n: nat, v: Word, t: nat)
    requires n >= 3 && t == 0
    ensures Starved(n, v, t)
  {
    assert Current32(Equal(n, v), t) == Wrapped(Zeros(n));
  }

  lemma {:induction false} StarvedState(n: nat, v: Word, t: nat)
    requires n >= 3 && v > 0 && t * n * v < MODULUS
    ensures Starved(n, v, t)
  {
    var p: nat -> bool := (s: nat) => n >= 1 && Starved(n, v, s);
    StarvedAtStart(n, v, 0);
    forall s: nat, u: nat | u == s + 1 <= t && p(s) ensures p(u) {
      FewerTurns(s, t, n, v);
      StarvedAtNext(n, v, s, u);
    }
    Induct(p, t);
  }

  lemma {:induction false} FewerTurns(s: nat, t: nat, n: nat, v: Word)
    requires s <= t && t * n * v < MODULUS
    ensures s * n * v < MODULUS
  {
    MulMonotone(s, t, n);
    MulMonotone(s * n, t * n, v);
  }

  lemma {:induction false} StarvedNext(n: nat, v: Word, t: nat, u: nat, debt: int, credit: int)
    requires n >= 3 && v > 0 && u == t + 1 && Lopsided(v, debt, credit)
    requires FirstInDebt(Current32(Equal(n, v), t), debt, credit)
    ensures PickNumber(Equal(n, v), t) == Some(0)
    ensures FirstInDebt(Current32(Equal(n, v), u), debt + Times(n - 1, v), credit + v)
  {
    CodeAdvances(Equal(n, v), t, u);
    DebtorIsPickedAgain(n, v, Current32(Equal(n, v), t), debt, credit);
  }

  lemma {:induction false} EarlierBounds(n: nat, v: Word, t: nat)
    requires n >= 3 && v > 0 && t * n * v < MODULUS
    ensures Lopsided(v, Times(t, Times(n - 1, v)), Times(t, v))
  {
    TimesIsProduct(n - 1, v);
    TimesIsProduct(t, v);
    TimesIsProduct(t, (n - 1) * v);
    assert t * ((n - 1) * v) + t * v == t * n * v;
    if t > 0 {
      MulMonotone(1, t, v);
      assert t * ((n - 1) * v) == (n - 1) * (t * v);
      MulMonotone(2, n - 1, t * v);
    }
  }

  /**
   * Three or more connections of equal weight: while t * n * v < 2^32 the code sends every one of the
   * picks 0..t to connection 0, where the algorithm would serve each connection equally.
   */
  lemma {:induction false} EqualWeightsStarve(n: nat, v: Word, t: nat)
    requires n >= 3 && v > 0 && t * n * v < MODULUS
    ensures forall s: nat | s <= t :: PickNumber(Equal(n, v), s) == Some(0)
  {
    forall s: nat | s <= t ensures PickNumber(Equal(n, v), s) == Some(0) {
      FewerTurns(s, t, n, v);
      StarvedState(n, v, s);
      StarvedAtNext(n, v, s, s + 1);
    }
  }

  // Weights 5 and 1: the light connection takes over.

  lemma {:induction false} TotalOfTwo(v: int, u: int)
    ensures Total([v, u], All(2)) == v + u
  {
    assert [v, u][1..] == [u] && All(2)[1..] == All(1);
    assert [u][1..] == [] && All(1)[1..] == All(0);
    assert Total([u], All(1)) == u;
  }

  /** One pick of a two-connection run, on integers congruent to the words. */
  lemma {:induction false} TwoStep(v: Word, u: Word, c: seq<Word>, x: int, y: int)
    requires c == [Wrap(x), Wrap(y)]
    ensures Choice32(c, [v, u], All(2)) == Some(if Wrap(x + v) >= Wrap(y + u) then 0 else 1)
    ensures AfterPick32(c, [v, u], All(2)) ==
      if Wrap(x + v) >= Wrap(y + u) then [Wrap(x - u), Wrap(y + u)] else [Wrap(x + v), Wrap(y - v)]
  {
    var w: seq<Word> := [v, u];
    var shadow := [x, y];
    var k := Choice32(c, w, All(2));
    assert Wrapped(shadow) == c;
    assert Added(shadow, w, All(2)) == [x + v, y + u];
    TotalOfTwo(v, u);
    ChargedCommutes(shadow, w, All(2), k);
    var a := Compared32(c, w, All(2));
    assert a == [Wrap(x + v), Wrap(y + u)];
    assert All(2)[0] && All(2)[1];
    ScanFindsFirstMax(a, All(2), 2);
    assert IsFirstMax(a, All(2), 2, if a[0] >= a[1] then 0 else 1);
  }

  /** The weights of a 5-to-1 run before pick `t`. */
  predicate Holds(w: seq<Word>, t: nat, x: int, y: int) {
    Current32(w, t) == [Wrap(x), Wrap(y)]
  }

  lemma {:induction false} HeavyTurn(w: seq<Word>, t: nat, x: int, y: int)
    requires w == [5, 1] && Holds(w, t, x, y) && Wrap(x + 5) >= Wrap(y + 1)
    ensures Holds(w, t + 1, x - 1, y + 1)
  {
    CodeAdvances(w, t, t + 1);
    TwoStep(5, 1, Current32(w, t), x, y);
  }

  lemma {:induction false} LightTurn(w: seq<Word>, t: nat, x: int, y: int)
    requires w == [5, 1] && Holds(w, t, x, y) && Wrap(x + 5) < Wrap(y + 1)
    ensures PickNumber(w, t) == Some(1)
    ensures Holds(w, t + 1, x + 5, y - 5)
  {
    CodeAdvances(w, t, t + 1);
    TwoStep(5, 1, Current32(w, t), x, y);
  }

  lemma {:induction false} FiveToOneZero(w: seq<Word>, t: nat)
    requires w == [5, 1] && t == 0
    ensures Holds(w, t, 0, 0)
  {
    assert Wrapped(Zeros(|w|)) == [Wrap(0), Wrap(0)];
  }

  lemma {:induction false} FirstTwoTurns(w: seq<Word>, t: nat)
    requires w == [5, 1] && Holds(w, t, 0, 0)
    ensures Holds(w, t + 2, -2, 2)
  {
    HeavyTurn(w, t, 0, 0);
    HeavyTurn(w, t + 1, -1, 1);
  }

  lemma {:induction false} NextTwoTurns(w: seq<Word>, t: nat)
    requires w == [5, 1] && Holds(w, t, -2, 2)
    ensures Holds(w, t + 2, 2, -2)
  {
    HeavyTurn(w, t, -2, 2);
    LightTurn(w, t + 1, -3, 3);
  }

  /** The weights as words, once the light connection has wrapped and been chosen `k` times more. */
  function Lopped(k: nat): seq<Word> {
    if 5 * k + 2 < MODULUS then [2 + 5 * k, MODULUS - 2 - 5 * k] else []
  }

  /** The light connection's wrapped weight is the larger one, so it is chosen again. */
  lemma {:induction false} LightAgain(w: seq<Word>, k: nat)
    requires w == [5, 1] && 10 * k + 8 < MODULUS
    ensures |Lopped(k)| == 2 && Choice32(Lopped(k), w, All(|w|)) == Some(1)
    ensures AfterPick32(Lopped(k), w, All(|w|)) == Lopped(k + 1)
  {
    var x, y := 2 + 5 * k, MODULUS - 2 - 5 * k;
    assert Wrap(x) == x && Wrap(y) == y && Wrap(x + 5) == x + 5 && Wrap(y + 1) == y + 1 && Wrap(y - 5) == y - 5;
    TwoStep(5, 1, Lopped(k), x, y);
  }

  lemma {:induction false} FiveToOneStart(w: seq<Word>, t: nat)
    requires w == [5, 1] && t == 0
    ensures Current32(w, t + 4) == Lopped(0)
  {
    FiveToOneZero(w, t);
    FirstTwoTurns(w, t);
    NextTwoTurns(w, t + 2);
    assert Wrap(2) == 2 && Wrap(-2) == MODULUS - 2;
  }

  /** From then on the weights stay so for as long as they fit. */
  lemma {:induction false} LightForLong(w: seq<Word>, start: nat, k: nat)
    requires w == [5, 1] && Current32(w, start) == Lopped(0) && 10 * k + 8 < MODULUS
    ensures Current32(w, start + k) == Lopped(k)
  {
    IterateAdd(Advance32(w), Wrapped(Zeros(|w|)), start, k);
    forall i: nat, j: nat | j == i + 1 <= k ensures Advance32(w)(Lopped(i)) == Lopped(j) {
      LightAgain(w, i);
      AdvanceApplied(w, Lopped(i));
    }
    IterateAlong(Advance32(w), Lopped, k);
  }

  /** From the fifth pick on, for four hundred million picks, every request goes to the connection of weight 1. */
  lemma {:induction false} FiveToOneInverts(w: seq<Word>, t: nat)
    requires w == [5, 1] && 4 <= t <= 400_000_000
    ensures PickNumber(w, t) == Some(1)
  {
    var k: nat := t - 4;
    var zero: nat := t - 4 - k;
    FiveToOneStart(w, zero);
    LightForLong(w, zero + 4, k);
    LightAgain(w, k);
  }
}
