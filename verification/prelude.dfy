/** Small definitions shared by the component models. */
module Prelude {

  datatype Option<+T> = None | Some(value: T)

  /** The sum of a sequence of integers. */
  function Sum(s: seq<int>): int {
    if s == [] then 0 else s[0] + Sum(s[1..])
  }

  lemma {:induction false} SumUpdate(s: seq<int>, k: nat, v: int)
    requires k < |s|
    ensures Sum(s[k := v]) == Sum(s) - s[k] + v
  {
    if k == 0 {
      assert s[k := v][1..] == s[1..];
    } else {
      assert s[k := v][1..] == s[1..][k - 1 := v];
      SumUpdate(s[1..], k - 1, v);
    }
  }

  lemma {:induction false} SumOfConstant(s: seq<int>, v: int)
    requires forall i | 0 <= i < |s| :: s[i] == v
    ensures Sum(s) == |s| * v
  {
    if s != [] {
      SumOfConstant(s[1..], v);
    }
  }

  /** Entrywise smaller sequences with equal sums are equal. */
  lemma {:induction false} SumSqueeze(s: seq<int>, t: seq<int>)
    requires |s| == |t| && forall i | 0 <= i < |s| :: s[i] <= t[i]
    ensures Sum(s) <= Sum(t)
    ensures Sum(s) == Sum(t) ==> s == t
  {
    if s != [] {
      SumSqueeze(s[1..], t[1..]);
      if Sum(s) == Sum(t) {
        assert s == [s[0]] + s[1..] && t == [t[0]] + t[1..];
      }
    }
  }

  /** A sequence with a positive sum has a positive entry. */
  lemma {:induction false} SumPositive(s: seq<int>) returns (i: nat)
    requires Sum(s) > 0
    ensures i < |s| && s[i] > 0
  {
    if s[0] > 0 {
      i := 0;
    } else {
      i := SumPositive(s[1..]);
      i := i + 1;
    }
  }

  /** Repeated addition, for invariants whose induction must not meet a product of variables. */
  function Times(n: nat, x: int): int {
    if n == 0 then 0 else x + Times(n - 1, x)
  }

  lemma {:induction false} TimesIsProduct(n: nat, x: int)
    ensures Times(n, x) == n * x
  {
    if n > 0 {
      TimesIsProduct(n - 1, x);
    }
  }

  lemma {:induction false} TimesMonotone(a: nat, b: nat, x: nat)
    requires a <= b
    ensures Times(a, x) <= Times(b, x)
  {
    if a < b {
      TimesMonotone(a, b - 1, x);
    }
  }

  lemma {:induction false} MulMonotone(x: int, y: int, k: int)
    requires x <= y && k >= 0
    ensures x * k <= y * k
  {}

  lemma {:induction false} DivisionIsUnique(n: int, d: int, q: int, r: int)
    requires n == q * d + r && 0 <= r < d
    ensures n / d == q && n % d == r
  {
    var e := n / d - q;
    assert n == n / d * d + n % d;
    assert e * d == r - n % d;
    if e >= 1 {
      MulMonotone(1, e, d);
    } else if e <= -1 {
      MulMonotone(e, -1, d);
    }
  }

  function Iterate<S>(f: S -> S, s: S, n: nat): S {
    if n == 0 then s else f(Iterate(f, s, n - 1))
  }

  lemma {:induction false} IterateNext<S>(f: S -> S, s: S, t: nat, u: nat)
    requires u == t + 1
    ensures Iterate(f, s, u) == f(Iterate(f, s, t))
  {}

  lemma {:induction false} IterateAdd<S>(f: S -> S, s: S, m: nat, n: nat)
    ensures Iterate(f, s, m + n) == Iterate(f, Iterate(f, s, m), n)
  {
    if n > 0 {
      IterateAdd(f, s, m, n - 1);
      assert m + n - 1 == m + (n - 1);
    }
  }

  /** Iteration along a path that `f` follows. */
  lemma {:induction false} IterateAlong<S>(f: S -> S, path: nat -> S, k: nat)
    requires forall i: nat, j: nat | j == i + 1 <= k :: f(path(i)) == path(j)
    ensures Iterate(f, path(0), k) == path(k)
  {
    if k > 0 {
      IterateAlong(f, path, k - 1);
    }
  }

  lemma {:induction false} IterateRepeats<S>(f: S -> S, s: S, period: nat, t: nat, u: nat)
    requires Iterate(f, s, period) == s && u == period + t
    ensures Iterate(f, s, u) == Iterate(f, s, t)
  {
    IterateAdd(f, s, period, t);
  }

  /** Induction on a property whose definition must stay out of the way. */
  lemma {:induction false} Induct(p: nat -> bool, t: nat)
    requires p(0) && forall s: nat, u: nat | u == s + 1 <= t && p(s) :: p(u)
    ensures p(t)
  {
    if t > 0 {
      Induct(p, t - 1);
    }
  }

  /** How many of the first `t` numbers have the property. */
  function Tally(p: nat -> bool, t: nat): nat {
    if t == 0 then 0 else Tally(p, t - 1) + if p(t - 1) then 1 else 0
  }

  lemma {:induction false} TallyNext(p: nat -> bool, t: nat, u: nat)
    requires u == t + 1
    ensures Tally(p, u) == Tally(p, t) + if p(t) then 1 else 0
  {}

  /** How often `x` occurs. */
  function Count(s: seq<nat>, x: nat): nat {
    if s == [] then 0 else Count(s[..|s| - 1], x) + if s[|s| - 1] == x then 1 else 0
  }

  lemma {:induction false} CountAppend(s: seq<nat>, t: seq<nat>, x: nat)
    ensures Count(s + t, x) == Count(s, x) + Count(t, x)
  {
    if t == [] {
      assert s + t == s;
    } else {
      assert (s + t)[..|s + t| - 1] == s + t[..|t| - 1];
      CountAppend(s, t[..|t| - 1], x);
    }
  }

  lemma {:induction false} CountOne(x: nat, y: nat)
    ensures Count([x], y) == if x == y then 1 else 0
  {
    assert [x][..0] == [] && Count([], y) == 0;
  }

  lemma {:induction false} CountMember(s: seq<nat>, x: nat)
    ensures x in s <==> Count(s, x) > 0
  {
    if s != [] {
      CountMember(s[..|s| - 1], x);
      assert s == s[..|s| - 1] + [s[|s| - 1]];
    }
  }

  /** Removing keys one more at a time. */
  lemma {:induction false} RemoveNext<K, V>(m: map<K, V>, removed: set<K>, more: set<K>)
    ensures (m - removed) - more == m - (removed + more)
  {}

  lemma {:induction false} AddOne(s: set<nat>, x: nat)
    requires x !in s
    ensures |s + {x}| == |s| + 1
  {}

  lemma {:induction false} DropOne(s: set<nat>, x: nat)
    requires x in s
    ensures |s - {x}| == |s| - 1
  {}
}
