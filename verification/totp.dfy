/**
 * Time-based one-time passwords (RFC 6238 section 4.2, RFC 4226 section 5.3). Base32 decoding, HMAC-SHA1 and
 * the mapping of letters to upper case are parameters; times are whole seconds since the epoch.
 */
module Totp {
  import opened Prelude
  import opened ByteStrings

  /** An HMAC-SHA1 digest. */
  type Digest = h: Bytes | |h| == 20 witness seq(20, _ => 0)

  const WORD: int := 0x1_0000_0000_0000_0000
  const WIDTH: nat := 8

  /** `before` is the counter that a negative time step converts to, which the language leaves open. */
  datatype Primitives = Primitives(
    decode: string -> Option<Bytes>, hmac: (Bytes, Bytes) -> Digest,
    upper: char -> char, before: int -> nat)

  // The counter.

  lemma {:induction false} Power256(n: nat)
    requires n == 8
    ensures Power(256, n) == WORD
  {
    assert Power(256, n - 7) == 256 * Power(256, n - 8);
    assert Power(256, n - 6) == 0x1_0000;
    assert Power(256, n - 5) == 0x100_0000;
    assert Power(256, n - 4) == 0x1_0000_0000;
    assert Power(256, n - 3) == 0x100_0000_0000;
    assert Power(256, n - 2) == 0x1_0000_0000_0000;
    assert Power(256, n - 1) == 0x100_0000_0000_0000;
  }

  /** The counter's eight bytes determine it, and every eight bytes are some counter's. */
  lemma {:induction false} CounterBytesInvert(counter: nat, b: Bytes)
    requires counter < WORD && |b| == WIDTH
    ensures Value(BigEndian(counter, WIDTH)) == counter
    ensures Value(b) < WORD && BigEndian(Value(b), WIDTH) == b
  {
    Power256(|b|);
    ValueOfBigEndian(counter, |b|);
    assert counter % WORD == counter;
    BigEndianOfValue(b);
  }

  // Truncation and digits.

  function Offset(hash: Digest): nat {
    (hash[19] % 16) as int
  }

  function Truncated(hash: Digest): nat {
    var o := Offset(hash);
    (hash[o] % 0x80) as int * 0x100_0000 + hash[o + 1] as int * 0x1_0000 + hash[o + 2] as int * 0x100 +
      hash[o + 3] as int
  }

  /** The truncated value is the low 31 bits of the four bytes that the last digest byte selects. */
  lemma {:induction false} TruncatedIsLow31Bits(hash: Digest)
    ensures Offset(hash) + 4 <= |hash| && Offset(hash) < 16
    ensures hash[19] as int == hash[19] as int / 16 * 16 + Offset(hash)
    ensures Truncated(hash) == Value(hash[Offset(hash)..Offset(hash) + 4]) % 0x8000_0000
  {
    var o := Offset(hash);
    var p := hash[o..o + 4];
    ValueOfFour(p);
    var (a, b, c, d) := (p[0] as int, p[1] as int, p[2] as int, p[3] as int);
    assert Value(p) == ((a * 256 + b) * 256 + c) * 256 + d;
    var low := a % 0x80;
    var t := low * 0x100_0000 + b * 0x1_0000 + c * 0x100 + d;
    assert Value(p) == a / 0x80 * 0x8000_0000 + t;
  }

  function Digit(n: nat): char
    requires n < 10
  {
    ['0', '1', '2', '3', '4', '5', '6', '7', '8', '9'][n]
  }

  function Decimal(n: nat): (s: string)
    ensures |s| > 0
  {
    if n < 10 then [Digit(n)] else Decimal(n / 10) + [Digit(n % 10)]
  }

  function Zeros(n: nat): string {
    if n == 0 then "" else "0" + Zeros(n - 1)
  }

  /** A number in decimal, padded with zeros to a width. */
  function Padded(n: nat, width: nat): string {
    var s := Decimal(n);
    if |s| < width then Zeros(width - |s|) + s else s
  }

  predicate IsDigit(c: char) {
    '0' <= c <= '9'
  }

  predicate AllDigits(s: string) {
    forall k | 0 <= k < |s| :: IsDigit(s[k])
  }

  /** The number that a string of digits denotes. */
  function Parsed(s: string): nat
    requires AllDigits(s)
  {
    if s == "" then 0 else Parsed(s[..|s| - 1]) * 10 + (s[|s| - 1] as int - '0' as int)
  }

  lemma {:induction false} DigitParses(n: nat)
    requires n < 10
    ensures IsDigit(Digit(n)) && Digit(n) as int - '0' as int == n
  {}

  lemma {:induction false} DecimalParses(n: nat)
    ensures AllDigits(Decimal(n)) && Parsed(Decimal(n)) == n
  {
    if n < 10 {
      DigitParses(n);
      assert Decimal(n)[..0] == "";
    } else {
      DecimalParses(n / 10);
      DigitParses(n % 10);
      assert Decimal(n)[..|Decimal(n)| - 1] == Decimal(n / 10);
    }
  }

  lemma {:induction false} DecimalIsShort(n: nat, d: nat)
    requires n < Power(10, d) && d > 0
    ensures |Decimal(n)| <= d
  {
    if n >= 10 {
      assert Power(10, d) == 10 * Power(10, d - 1);
      assert n / 10 < Power(10, d - 1);
      assert d > 1 by {
        assert Power(10, 0) == 1;
      }
      DecimalIsShort(n / 10, d - 1);
    }
  }

  lemma {:induction false} ZerosParse(n: nat, s: string)
    requires AllDigits(s)
    ensures AllDigits(Zeros(n) + s) && |Zeros(n) + s| == n + |s| && Parsed(Zeros(n) + s) == Parsed(s)
    decreases n, |s|
  {
    if s != "" {
      ZerosParse(n, s[..|s| - 1]);
      assert (Zeros(n) + s)[..|Zeros(n) + s| - 1] == Zeros(n) + s[..|s| - 1];
    } else if n > 0 {
      ZerosParse(n - 1, "0");
      ZerosAgain(n - 1);
      assert "0"[..0] == "";
      assert Zeros(n) + s == Zeros(n - 1) + "0";
    }
  }

  lemma {:induction false} ZerosAgain(n: nat)
    ensures "0" + Zeros(n) == Zeros(n) + "0"
  {
    if n > 0 {
      ZerosAgain(n - 1);
      assert "0" + Zeros(n) == "0" + ("0" + Zeros(n - 1));
      assert Zeros(n) + "0" == "0" + (Zeros(n - 1) + "0");
    }
  }

  lemma {:induction false} PadParses(s: string, width: nat)
    requires AllDigits(s) && |s| <= width
    ensures
      var t := if |s| < width then Zeros(width - |s|) + s else s;
      |t| == width && AllDigits(t) && Parsed(t) == Parsed(s)
  {
    if |s| < width {
      ZerosParse(width - |s|, s);
    }
  }

  /** Padding gives exactly `width` digits that denote the number, when it fits. */
  lemma {:induction false} PaddedIsExact(n: nat, width: nat)
    requires n < Power(10, width) && width > 0
    ensures |Padded(n, width)| == width && AllDigits(Padded(n, width)) && Parsed(Padded(n, width)) == n
  {
    DecimalIsShort(n, width);
    DecimalParses(n);
    PadParses(Decimal(n), width);
  }

  // Codes.

  datatype Settings = Settings(secret: string, digits: int, period: int, algorithm: string)

  predicate Usable(c: Settings) {
    c.digits > 0 && c.period > 0
  }

  /** The last `digits` decimal digits of a number, as a number. */
  function LastDigits(n: nat, digits: nat): (r: nat)
    ensures r < Power(10, digits)
  {
    PowerPositive(10, digits);
    n % Power(10, digits)
  }

  /** The truncated digest modulo 10^digits. */
  function Reduced(digits: nat, hash: Digest): (r: nat)
    ensures r < Power(10, digits)
  {
    LastDigits(Truncated(hash), digits)
  }

  /** The code for a counter; None when the secret is not base32. */
  function CodeFor(p: Primitives, c: Settings, counter: nat): Option<string>
    requires Usable(c) && counter < WORD
  {
    match p.decode(c.secret)
    case None => None
    case Some(key) => Some(Padded(Reduced(c.digits, p.hmac(key, BigEndian(counter, WIDTH))), c.digits))
  }

  function CounterOf(p: Primitives, step: int): (counter: nat)
    ensures counter < WORD
  {
    if step >= 0 then step % WORD else p.before(step) % WORD
  }

  /** The time step that an instant falls in. */
  function StepAt(c: Settings, at: int): int
    requires Usable(c)
  {
    at / c.period
  }

  function CodeOfStep(p: Primitives, c: Settings, step: int): Option<string>
    requires Usable(c)
  {
    CodeFor(p, c, CounterOf(p, step))
  }

  /** The digest that a time step's code comes from. */
  function DigestOfStep(p: Primitives, key: Bytes, step: int): Digest {
    p.hmac(key, BigEndian(CounterOf(p, step), WIDTH))
  }

  /** A code is `digits` decimal digits long and denotes the truncated digest modulo 10^digits. */
  lemma {:induction false} CodeIsExact(p: Primitives, c: Settings, step: int)
    requires Usable(c)
    ensures
      match CodeOfStep(p, c, step)
      case None => p.decode(c.secret).None?
      case Some(code) =>
        && p.decode(c.secret).Some? && |code| == c.digits && AllDigits(code)
        && Parsed(code) == Reduced(c.digits, DigestOfStep(p, p.decode(c.secret).value, step))
  {
    if p.decode(c.secret).Some? {
      PaddedIsExact(Reduced(c.digits, DigestOfStep(p, p.decode(c.secret).value, step)), c.digits);
    }
  }

  lemma {:induction false} LastDigitsRemain(n: nat, digits: nat) returns (q: nat)
    ensures LastDigits(n, digits) < Power(10, digits)
    ensures n == q * Power(10, digits) + LastDigits(n, digits)
  {
    PowerPositive(10, digits);
    q := n / Power(10, digits);
    DivMod(n, Power(10, digits));
  }

  lemma {:induction false} DivMod(n: nat, d: nat)
    requires d > 0
    ensures n == n / d * d + n % d && 0 <= n % d < d
  {}

  /** The digits denote the truncated value modulo 10^digits: they differ by a multiple of it, and are below it. */
  lemma {:induction false} CodeIsRemainder(p: Primitives, c: Settings, step: int) returns (q: nat)
    requires Usable(c) && p.decode(c.secret).Some?
    ensures CodeOfStep(p, c, step).Some? && AllDigits(CodeOfStep(p, c, step).value)
    ensures
      var code := Parsed(CodeOfStep(p, c, step).value);
      && Truncated(DigestOfStep(p, p.decode(c.secret).value, step)) == q * Power(10, c.digits) + code
      && code < Power(10, c.digits)
  {
    CodeIsExact(p, c, step);
    q := LastDigitsRemain(Truncated(DigestOfStep(p, p.decode(c.secret).value, step)), c.digits);
  }

  /** The eight bytes that are hashed for a time step from the epoch on are those of the step. */
  lemma {:induction false} BytesOfStep(p: Primitives, step: nat)
    requires step < WORD
    ensures Value(BigEndian(CounterOf(p, step), WIDTH)) == step
  {
    assert CounterOf(p, step) == step;
    CounterBytesInvert(step, BigEndian(step, WIDTH));
  }

  // White space, as Unicode has it.

  predicate IsSpace(c: char) {
    c in {'\t', '\n', '\U{0B}', '\U{0C}', '\r', ' ', '\U{85}', '\U{A0}', '\U{1680}', '\U{2028}', '\U{2029}',
      '\U{202F}', '\U{205F}', '\U{3000}'}
    || '\U{2000}' <= c <= '\U{200A}'
  }

  function Trimmed(s: string): string {
    if s == "" then ""
    else if IsSpace(s[0]) then Trimmed(s[1..])
    else if IsSpace(s[|s| - 1]) then Trimmed(s[..|s| - 1])
    else s
  }

  /** The twenty-five white space characters, by their numbers. */
  lemma {:induction false} SpacesByNumber(c: char)
    ensures IsSpace(c) <==>
      var n := c as int;
      || 9 <= n <= 13 || n == 32 || n == 133 || n == 160 || n == 5760 || 8192 <= n <= 8202
      || n == 8232 || n == 8233 || n == 8239 || n == 8287 || n == 12288
  {}

  predicate AllSpaces(s: string) {
    forall k | 0 <= k < |s| :: IsSpace(s[k])
  }

  /** Trimming takes white space off both ends, and all of it. */
  lemma {:induction false} TrimmedIsMiddle(s: string) returns (front: string, back: string)
    ensures s == front + Trimmed(s) + back && AllSpaces(front) && AllSpaces(back)
    ensures Trimmed(s) != "" ==> !IsSpace(Trimmed(s)[0]) && !IsSpace(Trimmed(s)[|Trimmed(s)| - 1])
    decreases |s|
  {
    if s != "" && IsSpace(s[0]) {
      var a, b := TrimmedIsMiddle(s[1..]);
      assert s == [s[0]] + s[1..];
      return [s[0]] + a, b;
    } else if s != "" && IsSpace(s[|s| - 1]) {
      var a, b := TrimmedIsMiddle(s[..|s| - 1]);
      assert s == s[..|s| - 1] + [s[|s| - 1]];
      return a, b + [s[|s| - 1]];
    } else {
      return "", "";
    }
  }

  class TOTPConfig {
    var secret: string
    var digits: int
    var period: int
    var algorithm: string

    ghost function View(): Settings
      reads this
    {
      Settings(secret, digits, period, algorithm)
    }

    constructor (secret: string, digits: int, period: int, algorithm: string)
      ensures View() == Settings(secret, digits, period, algorithm)
    {
      this.secret, this.digits, this.period, this.algorithm := secret, digits, period, algorithm;
    }
  }

  function WithoutSpaces(s: string): string {
    if s == "" then "" else WithoutSpaces(s[..|s| - 1]) + if s[|s| - 1] == ' ' then "" else [s[|s| - 1]]
  }

  function Uppered(upper: char -> char, s: string): string {
    seq(|s|, i requires 0 <= i < |s| => upper(s[i]))
  }

  function TrimRight(s: string, c: char): string {
    if s != "" && s[|s| - 1] == c then TrimRight(s[..|s| - 1], c) else s
  }

  function Normalised(p: Primitives, c: Settings): Settings {
    Settings(
      TrimRight(Uppered(p.upper, WithoutSpaces(c.secret)), '='),
      if c.digits <= 0 then 6 else c.digits,
      if c.period <= 0 then 30 else c.period,
      if c.algorithm == "" then "SHA1" else c.algorithm)
  }

  lemma {:induction false} WithoutSpacesHasNone(s: string)
    ensures ' ' !in WithoutSpaces(s)
    ensures ' ' !in s ==> WithoutSpaces(s) == s
  {
    if s != "" {
      WithoutSpacesHasNone(s[..|s| - 1]);
      assert s == s[..|s| - 1] + [s[|s| - 1]];
    }
  }

  lemma {:induction false} TrimRightIsPrefix(s: string, c: char)
    ensures TrimRight(s, c) <= s
    ensures TrimRight(s, c) != "" ==> TrimRight(s, c)[|TrimRight(s, c)| - 1] != c
    ensures TrimRight(TrimRight(s, c), c) == TrimRight(s, c)
  {
    if s != "" && s[|s| - 1] == c {
      TrimRightIsPrefix(s[..|s| - 1], c);
    }
  }

  /**
   * A normalised configuration is usable and normalising it again changes nothing; its secret holds no
   * space and does not end in padding. Upper-casing must be stable and leave the space alone.
   */
  lemma {:induction false} NormalisedIsStable(p: Primitives, c: Settings)
    requires forall x :: p.upper(p.upper(x)) == p.upper(x)
    requires forall x :: p.upper(x) == ' ' <==> x == ' '
    ensures
      var n := Normalised(p, c);
      && Usable(n) && Normalised(p, n) == n
      && ' ' !in n.secret && (n.secret != "" ==> n.secret[|n.secret| - 1] != '=')
  {
    var bare := WithoutSpaces(c.secret);
    WithoutSpacesHasNone(c.secret);
    var upper := Uppered(p.upper, bare);
    TrimRightIsPrefix(upper, '=');
    var secret := TrimRight(upper, '=');
    forall k | 0 <= k < |secret|
      ensures secret[k] == p.upper(bare[k]) && p.upper(secret[k]) == secret[k] && secret[k] != ' '
    {
      assert secret[k] == upper[k];
      assert bare[k] in bare;
    }
    WithoutSpacesHasNone(secret);
    assert Uppered(p.upper, secret) == secret;
  }

  /** What is given is kept, and the rest filled in: six digits, thirty seconds, SHA1. */
  lemma {:induction false} DefaultsFillIn(p: Primitives, c: Settings)
    ensures var n := Normalised(p, c);
      && n.digits == (if c.digits > 0 then c.digits else 6) && n.period == (if c.period > 0 then c.period else 30)
      && n.algorithm == (if c.algorithm != "" then c.algorithm else "SHA1")
  {}

  /** `random` is a fresh base32 secret, if the random source works. */
  method NewTOTP(p: Primitives, config: TOTPConfig?, random: Option<string>) returns (totp: TOTP?)
    modifies config
    ensures totp == null <==> config == null || (old(config.secret) == "" && random.None?)
    ensures config != null ==>
      var given := if old(config.secret) == "" && random.Some? then old(config.View()).(secret := random.value)
        else old(config.View());
      config.View() == if totp == null then old(config.View()) else Normalised(p, given)
    ensures totp != null ==> totp.config == config && Usable(config.View())
  {
    if config == null {
      return null;
    }
    if config.secret == "" {
      if random.None? {
        return null;
      }
      config.secret := random.value;
    }
    config.secret := Uppered(p.upper, WithoutSpaces(config.secret));
    config.secret := TrimRight(config.secret, '=');
    if config.digits <= 0 {
      config.digits := 6;
    }
    if config.period <= 0 {
      config.period := 30;
    }
    if config.algorithm == "" {
      config.algorithm := "SHA1";
    }
    totp := new TOTP(config);
  }

  /** The bytes of a counter, filled in from the last one. */
  method FillBytes(counter: nat, width: nat) returns (counterBytes: array<byte>)
    ensures fresh(counterBytes) && counterBytes[..] == BigEndian(counter, width)
  {
    counterBytes := new byte[width];
    var rest := counter;
    var i := width - 1;
    while i >= 0
      invariant -1 <= i < width
      invariant BigEndian(counter, width) == BigEndian(rest, i + 1) + counterBytes[i + 1..]
    {
      counterBytes[i] := (rest % 256) as byte;
      assert counterBytes[i..] == [counterBytes[i]] + counterBytes[i + 1..];
      rest := rest / 256;
      i := i - 1;
    }
  }

  /** The dynamic truncation. */
  method Truncate(hash: Digest) returns (binary: nat)
    ensures binary == Truncated(hash)
  {
    var offset := (hash[|hash| - 1] % 16) as int;
    binary := (hash[offset] % 0x80) as int * 0x100_0000 + hash[offset + 1] as int * 0x1_0000
      + hash[offset + 2] as int * 0x100 + hash[offset + 3] as int;
  }

  class TOTP {
    const config: TOTPConfig

    constructor (config: TOTPConfig)
      ensures this.config == config
    {
      this.config := config;
    }

    method GenerateOTP(p: Primitives, counter: nat) returns (code: Option<string>)
      requires Usable(config.View()) && counter < WORD
      ensures code == CodeFor(p, config.View(), counter)
    {
      var counterBytes := FillBytes(counter, WIDTH);
      var key := p.decode(config.secret);
      if key.None? {
        return None;
      }
      var hash := p.hmac(key.value, counterBytes[..]);
      var binary := Truncate(hash);
      var otp := LastDigits(binary, config.digits);
      assert otp == Reduced(config.digits, hash);
      return Some(Padded(otp, config.digits));
    }

    method GenerateCodeAt(p: Primitives, at: int) returns (code: Option<string>)
      requires Usable(config.View())
      ensures code == CodeOfStep(p, config.View(), StepAt(config.View(), at))
    {
      code := GenerateOTP(p, CounterOf(p, at / config.period));
    }

    /** Accepts exactly the codes of the time steps within the window around now. */
    method ValidateCodeWithWindow(p: Primitives, code: string, window: int, now: int) returns (valid: bool)
      requires Usable(config.View())
      ensures valid <==> Accepts(p, config.View(), code, window, now)
    {
      var w := window;
      if w < 0 {
        w := 0;
      }
      var trimmed := Trimmed(code);
      ghost var c := config.View();
      ghost var here := StepAt(c, now);
      if |trimmed| != config.digits {
        forall s ensures CodeOfStep(p, c, s) != Some(trimmed) {
          CodeIsExact(p, c, s);
        }
        return false;
      }
      var i := -w;
      while i <= w
        invariant -w <= i <= w + 1
        invariant forall s | here - w <= s < here + i :: CodeOfStep(p, c, s) != Some(trimmed)
      {
        StepShift(now, i, config.period);
        var validCode := GenerateCodeAt(p, now + i * config.period);
        if validCode.Some? && validCode.value == trimmed {
          return true;
        }
        i := i + 1;
      }
      return false;
    }
  }

  /** Some time step at most `window` away from now has this code. */
  ghost predicate Accepts(p: Primitives, c: Settings, code: string, window: int, now: int)
    requires Usable(c)
  {
    exists s ::
      && StepAt(c, now) - Reach(window) <= s <= StepAt(c, now) + Reach(window)
      && CodeOfStep(p, c, s) == Some(Trimmed(code))
  }

  function Reach(window: int): nat {
    if window < 0 then 0 else window
  }

  /** Moving by whole periods moves by as many steps. */
  lemma {:induction false} StepShift(at: int, i: int, period: int)
    requires period > 0
    ensures (at + i * period) / period == at / period + i
  {
    var q, r := at / period, at % period;
    assert at + i * period == (q + i) * period + r;
    DivisionIsUnique(at + i * period, period, q + i, r);
  }

  lemma {:induction false} DigitsAreTrimmed(s: string)
    requires AllDigits(s)
    ensures Trimmed(s) == s
  {}

  /** The step is the number of whole periods since the epoch. */
  lemma {:induction false} StepBracketsTime(c: Settings, at: int)
    requires Usable(c)
    ensures StepAt(c, at) * c.period <= at < StepAt(c, at) * c.period + c.period
  {}

  lemma {:induction false} FewerSteps(x: int, y: int, period: int, w: nat)
    requires period > 0 && x * period < y * period + w * period + period
    ensures x <= y + w
  {
    assert (y + w + 1) * period == y * period + w * period + period;
    if x > y + w {
      MulMonotone(y + w + 1, x, period);
    }
  }

  /** A code is accepted for at least `window` periods before and after it was made. */
  lemma {:induction false} CodesAreAcceptedInTime(
      p: Primitives, c: Settings, made: int, now: int, window: nat, code: string)
    requires Usable(c) && CodeOfStep(p, c, StepAt(c, made)) == Some(code)
    requires made - window * c.period <= now <= made + window * c.period
    ensures Accepts(p, c, code, window, now)
  {
    var x, y := StepAt(c, made), StepAt(c, now);
    StepBracketsTime(c, made);
    StepBracketsTime(c, now);
    FewerSteps(x, y, c.period, window);
    FewerSteps(y, x, c.period, window);
    CodesAreAcceptedNearby(p, c, made, now, window, code);
  }

  /** A code made at one time is accepted at any other whose time step is at most the window away. */
  lemma {:induction false} CodesAreAcceptedNearby(
      p: Primitives, c: Settings, made: int, now: int, window: int, code: string)
    requires Usable(c) && CodeOfStep(p, c, StepAt(c, made)) == Some(code)
    requires StepAt(c, now) - Reach(window) <= StepAt(c, made) <= StepAt(c, now) + Reach(window)
    ensures Accepts(p, c, code, window, now)
  {
    CodeIsExact(p, c, StepAt(c, made));
    DigitsAreTrimmed(code);
  }

  /** A wider window accepts whatever a narrower one does, and so does white space around the code. */
  lemma {:induction false} AcceptanceIsMonotone(
      p: Primitives, c: Settings, code: string, padded: string, window: int, wider: int, now: int)
    requires Usable(c) && Accepts(p, c, code, window, now) && window <= wider && Trimmed(padded) == Trimmed(code)
    ensures Accepts(p, c, padded, wider, now)
  {}
}
