/** Byte strings, and numbers written in them most significant byte first. */
module ByteStrings {
  import opened Prelude

  newtype byte = x: int | 0 <= x < 256

  type Bytes = seq<byte>

  /** The `len` low bytes of a number, most significant first. */
  function BigEndian(n: nat, len: nat): (b: Bytes)
    ensures |b| == len
  {
    if len == 0 then [] else BigEndian(n / 256, len - 1) + [(n % 256) as byte]
  }

  function Value(b: Bytes): nat {
    if b == [] then 0 else Value(b[..|b| - 1]) * 256 + b[|b| - 1] as int
  }

  function Power(base: nat, n: nat): nat {
    if n == 0 then 1 else base * Power(base, n - 1)
  }

  lemma {:induction false} PowerPositive(base: nat, n: nat)
    requires base > 0
    ensures Power(base, n) > 0
  {
    if n > 0 {
      PowerPositive(base, n - 1);
    }
  }

  /** The low bytes hold the number modulo the power that they can count to. */
  lemma {:induction false} ValueOfBigEndian(n: nat, len: nat)
    ensures Power(256, len) > 0 && Value(BigEndian(n, len)) == n % Power(256, len)
  {
    PowerPositive(256, len);
    if len > 0 {
      var p, q := Power(256, len - 1), n / 256;
      PowerPositive(256, len - 1);
      ValueOfBigEndian(q, len - 1);
      var b := BigEndian(n, len);
      assert b == BigEndian(q, len - 1) + [(n % 256) as byte];
      assert b[..len - 1] == BigEndian(q, len - 1);
      assert Value(b) == q % p * 256 + n % 256;
      LowDigit(n, q, p);
    }
  }

  lemma {:induction false} LowDigit(n: nat, q: nat, p: nat)
    requires q == n / 256 && p > 0
    ensures n % (256 * p) == q % p * 256 + n % 256
  {
    assert q == q / p * p + q % p;
    assert q * 256 == q / p * (256 * p) + q % p * 256;
    DivisionIsUnique(n, 256 * p, q / p, q % p * 256 + n % 256);
  }

  lemma {:induction false} BigEndianOfValue(b: Bytes)
    ensures BigEndian(Value(b), |b|) == b
    ensures Value(b) < Power(256, |b|)
  {
    if b != [] {
      var front, last := b[..|b| - 1], b[|b| - 1];
      BigEndianOfValue(front);
      var v := Value(front) * 256 + last as int;
      assert v / 256 == Value(front) && v % 256 == last as int;
      assert b == front + [last];
    }
  }

  /** All but the first byte are the low bytes. */
  lemma {:induction false} LowBytes(n: nat, len: nat)
    requires len > 0
    ensures BigEndian(n, len)[1..] == BigEndian(n, len - 1)
  {
    if len > 1 {
      LowBytes(n / 256, len - 1);
      assert BigEndian(n, len)[1..] == BigEndian(n / 256, len - 1)[1..] + [(n % 256) as byte];
    }
  }

  lemma {:induction false} LeadingZero(b: Bytes)
    ensures Value([0] + b) == Value(b)
  {
    if b == [] {
      assert [0 as byte] + b == [0] && [0 as byte][..0] == [];
      assert Value([0 as byte][..0]) == 0;
    } else {
      LeadingZero(b[..|b| - 1]);
      assert ([0] + b)[..|b|] == [0] + b[..|b| - 1];
    }
  }

  /** Overwriting the first byte with zero loses all but the low bytes. */
  lemma {:induction false} WithoutFirst(n: nat, len: nat)
    requires len > 0
    ensures Power(256, len - 1) > 0 && Value(BigEndian(n, len)[0 := 0]) == n % Power(256, len - 1)
  {
    var b := BigEndian(n, len);
    LowBytes(n, len);
    assert b[0 := 0] == [0] + b[1..];
    LeadingZero(b[1..]);
    ValueOfBigEndian(n, len - 1);
  }

  lemma {:induction false} ValueOfFour(p: Bytes)
    requires |p| == 4
    ensures Value(p) == ((p[0] as int * 256 + p[1] as int) * 256 + p[2] as int) * 256 + p[3] as int
  {
    assert p[..3][..2] == p[..2] && p[..2][..1] == p[..1] && p[..1][..0] == [];
    assert Value(p[..1]) == Value(p[..0]) * 256 + p[0] as int;
    assert Value(p[..2]) == Value(p[..1]) * 256 + p[1] as int;
    assert Value(p[..3]) == Value(p[..2]) * 256 + p[2] as int;
  }
}
