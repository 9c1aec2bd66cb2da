/**
 * `TOTPGenerator`: time-based one-time passwords (RFC 6238) built on the HOTP
 * dynamic truncation of section 5.3 of RFC 4226.
 *
 * HMAC-SHA1 and commons-codec's Base32 decoder are foreign code and appear as
 * function-valued parameters; the wall clock is the parameter `nowMillis`.
 */
module TotpGenerator {
  import opened Wrappers
  import opened Text
  import opened Bytes

  const TIME_STEP_SECONDS: int := 30
  const CODE_DIGITS: nat := 6

  /** An HMAC-SHA1 output: always 20 bytes. */
  type Sha1Mac = s: seq<Byte> | |s| == 20 witness seq(20, _ => 0 as Byte)

  /** `Mac.getInstance("HmacSHA1")` keyed with the first argument, applied to the second (a non-empty key). */
  type HmacSha1 = (seq<Byte>, seq<Byte>) -> Sha1Mac

  /** The message of the `IllegalArgumentException` that `SecretKeySpec` throws on an empty key. */
  const MSG_EMPTY_KEY := "Empty key"

  /**
   * `hmacSha1(key, data)`: `SecretKeySpec(key, ALGORITHM)` rejects an empty key
   * before the MAC is computed.
   */
  function Mac(hmac: HmacSha1, key: seq<Byte>, data: seq<Byte>): (r: Result<Sha1Mac, string>)
    ensures r.Ok? <==> key != []
    ensures r.Err? ==> r.error == MSG_EMPTY_KEY
  {
    if key == [] then Err(MSG_EMPTY_KEY) else Ok(hmac(key, data))
  }

  /** `Base32().decode`: the decoded key, or the message of the exception it throws. */
  type Base32Decoder = string -> Result<seq<Byte>, string>

  // ---------------------------------------------------------------------------
  // Kotlin integer division on Long
  // ---------------------------------------------------------------------------

  /** Kotlin's `a / b`: the quotient truncated toward zero. */
  function KDiv(a: int, b: int): int
    requires b != 0
  {
    if a >= 0 && b > 0 then a / b
    else if a >= 0 then -(a / -b)
    else if b > 0 then -((-a) / b)
    else (-a) / (-b)
  }

  /** Kotlin's `a % b`: the remainder takes the sign of `a`. */
  function KRem(a: int, b: int): int
    requires b != 0
  {
    a - b * KDiv(a, b)
  }

  // ---------------------------------------------------------------------------
  // The pieces of `generateCode`
  // ---------------------------------------------------------------------------

  /** The secret as both `generateTOTP` and `validateSecret` clean it: spaces removed, then upper-cased. */
  function NormalizeSecret(secret: string): string {
    Uppercase(ReplaceChar(secret, ' ', ""))
  }

  /** The time-step counter of section 4.2 of RFC 6238: `currentTimeMillis() / 1000L / step`. */
  function TimeCounter(nowMillis: int, step: int): int
    requires step > 0
  {
    KDiv(KDiv(nowMillis, 1000), step)
  }

  /** `ByteBuffer.allocate(8).putLong(time).array()`: the 8-byte big-endian two's-complement counter. */
  function CounterMessage(time: int): (msg: seq<Byte>)
    ensures |msg| == 8
  {
    BigEndian(time, 8)
  }

  /** The truncation offset: the low nibble of the last byte of the MAC. */
  function TruncationOffset(hash: Sha1Mac): (offset: nat)
    ensures offset <= 15
    ensures offset + 3 < |hash|
  {
    hash[19] % 16
  }

  /**
   * Dynamic truncation: the four bytes at the offset, big-endian, with the top bit
   * of the first masked off (`and 0x7F`, `shl`, `or`; the shifted fields do not overlap,
   * so the `or`s are additions).
   */
  function DynamicTruncation(hash: Sha1Mac): (binary: nat)
    ensures binary < 0x8000_0000
    ensures binary == FromBigEndian([hash[TruncationOffset(hash)] % 128] + hash[TruncationOffset(hash) + 1..TruncationOffset(hash) + 4])
  {
    var o := TruncationOffset(hash);
    var b0: int := hash[o] % 128;
    var b1: int := hash[o + 1];
    var b2: int := hash[o + 2];
    var b3: int := hash[o + 3];
    var s := [b0 as Byte] + hash[o + 1..o + 4];
    assert s == [b0 as Byte, b1 as Byte, b2 as Byte, b3 as Byte];
    FromBigEndianFour(b0 as Byte, b1 as Byte, b2 as Byte, b3 as Byte);
    b0 * 0x100_0000 + b1 * 0x1_0000 + b2 * 0x100 + b3
  }

  lemma FromBigEndianFour(a: Byte, b: Byte, c: Byte, d: Byte)
    ensures FromBigEndian([a, b, c, d]) == a * 0x100_0000 + b * 0x1_0000 + c * 0x100 + d
  {
    var s := [a, b, c, d];
    assert [a][..0] == [];
    assert FromBigEndian([a]) == a;
    assert [a, b][..1] == [a];
    assert FromBigEndian([a, b]) == a * 0x100 + b;
    assert [a, b, c][..2] == [a, b];
    assert FromBigEndian([a, b, c]) == a * 0x1_0000 + b * 0x100 + c;
    assert s[..3] == [a, b, c];
  }

  /**
   * `generateCode(key, time, digits)`: the truncated MAC modulo `10^digits`, as
   * decimal text left-padded with '0'. The only caller passes `digits = 6`.
   */
  function GenerateCode(hmac: HmacSha1, key: seq<Byte>, time: int, digits: nat): (r: Result<string, string>)
    requires 1 <= digits <= 9
    ensures r.Ok? <==> key != []
    ensures r.Err? ==> r.error == MSG_EMPTY_KEY
    ensures r.Ok? ==> |r.value| == digits && AllDigits(r.value)
    ensures r.Ok? ==> DigitsValue(r.value) == DynamicTruncation(hmac(key, CounterMessage(time))) % Pow10(digits)
  {
    match Mac(hmac, key, CounterMessage(time))
    case Err(e) => Err(e)
    case Ok(hash) =>
      var otp := DynamicTruncation(hash) % Pow10(digits);
      NatToStringLength(otp, digits);
      var code := PadStart(NatToString(otp), digits, '0');
      PaddedValue(NatToString(otp), digits);
      DigitsValueOfNatToString(otp);
      Ok(code)
  }

  /** Left-padding with '0' keeps the digits and their value. */
  lemma PaddedValue(s: string, n: nat)
    requires AllDigits(s)
    ensures AllDigits(PadStart(s, n, '0'))
    ensures DigitsValue(PadStart(s, n, '0')) == DigitsValue(s)
  {
    if |s| < n {
      LeadingZeros(n - |s|, s);
    }
  }

  lemma {:induction false} LeadingZeros(k: nat, s: string)
    requires AllDigits(s)
    ensures AllDigits(seq(k, _ => '0') + s)
    ensures DigitsValue(seq(k, _ => '0') + s) == DigitsValue(s)
  {
    var z := seq(k, _ => '0');
    if s == [] {
      assert z + s == z;
      ZerosValue(k);
    } else {
      var t := z + s;
      assert t[..|t| - 1] == z + s[..|s| - 1];
      LeadingZeros(k, s[..|s| - 1]);
    }
  }

  lemma {:induction false} ZerosValue(k: nat)
    ensures AllDigits(seq(k, _ => '0'))
    ensures DigitsValue(seq(k, _ => '0')) == 0
  {
    if k > 0 {
      var z := seq(k, _ => '0');
      assert z[..k - 1] == seq(k - 1, _ => '0');
      ZerosValue(k - 1);
    }
  }

  // ---------------------------------------------------------------------------
  // Public operations
  // ---------------------------------------------------------------------------

  /**
   * `generateTOTP(secret, step)`: decode the cleaned secret, then code the current
   * time step. It throws when decoding throws, and when the key decoded is empty.
   */
  function GenerateTotp(decode: Base32Decoder, hmac: HmacSha1, secret: string, nowMillis: int, step: int)
    : (r: Result<string, string>)
    requires step > 0
    ensures r.Ok? <==> decode(NormalizeSecret(secret)).Ok? && decode(NormalizeSecret(secret)).value != []
    ensures decode(NormalizeSecret(secret)) == Ok([]) ==> r == Err(MSG_EMPTY_KEY)
    ensures r.Ok? ==> |r.value| == CODE_DIGITS && AllDigits(r.value)
  {
    match decode(NormalizeSecret(secret))
    case Err(e) => Err(e)
    case Ok(key) => GenerateCode(hmac, key, TimeCounter(nowMillis, step), CODE_DIGITS)
  }

  /** `getRemainingSeconds(step)`: `step - (currentTimeMillis() / 1000L) % step`. */
  function RemainingSeconds(nowMillis: int, step: int): int
    requires step > 0
  {
    step - KRem(KDiv(nowMillis, 1000), step)
  }

  /** `getProgress(step)`: the fraction of the step still to run, over exact reals. */
  function Progress(nowMillis: int, step: int): (p: real)
    requires step > 0
    ensures nowMillis >= 0 ==> 0.0 < p <= 1.0
  {
    RemainingSeconds(nowMillis, step) as real / step as real
  }

  /** `validateSecret`, as written: true exactly when decoding the cleaned secret does not throw. */
  function ValidateSecret(decode: Base32Decoder, secret: string): bool {
    decode(NormalizeSecret(secret)).Ok?
  }

  /**
   * The check `validateSecret` evidently intends: the cleaned secret decodes, and
   * to a key that `SecretKeySpec` accepts.
   */
  function ValidateSecretNonEmptyKey(decode: Base32Decoder, secret: string): bool {
    decode(NormalizeSecret(secret)).Ok? && decode(NormalizeSecret(secret)).value != []
  }

  // ---------------------------------------------------------------------------
  // Properties
  // ---------------------------------------------------------------------------

  /** For a non-negative clock Kotlin's division is the floor: the counter is `ms / (1000 * step)`. */
  lemma TimeCounterIsFloor(nowMillis: int, step: int)
    requires nowMillis >= 0 && step > 0
    ensures TimeCounter(nowMillis, step) == nowMillis / 1000 / step
    ensures TimeCounter(nowMillis, step) >= 0
  {
  }

  /** The counter is constant on each window of `step` seconds and the windows tile the time line. */
  lemma TimeCounterWindow(nowMillis: int, step: int)
    requires nowMillis >= 0 && step > 0
    ensures var c := TimeCounter(nowMillis, step);
      c * step * 1000 <= nowMillis < (c + 1) * step * 1000
  {
    var secs := nowMillis / 1000;
    var c := secs / step;
    assert c * step <= secs < (c + 1) * step;
    assert secs * 1000 <= nowMillis < (secs + 1) * 1000;
    assert c * step * 1000 <= secs * 1000;
    assert (secs + 1) * 1000 <= (c + 1) * step * 1000 by {
      assert secs + 1 <= (c + 1) * step;
    }
  }

  /** Two instants in the same window get the same counter, hence the same code. */
  lemma SameWindowSameCounter(t1: int, t2: int, step: int, c: int)
    requires t1 >= 0 && t2 >= 0 && step > 0
    requires c * step * 1000 <= t1 < (c + 1) * step * 1000
    requires c * step * 1000 <= t2 < (c + 1) * step * 1000
    ensures TimeCounter(t1, step) == c && TimeCounter(t2, step) == c
  {
    WindowDeterminesCounter(t1, step, c);
    WindowDeterminesCounter(t2, step, c);
  }

  lemma WindowDeterminesCounter(t: int, step: int, c: int)
    requires t >= 0 && step > 0
    requires c * step * 1000 <= t < (c + 1) * step * 1000
    ensures TimeCounter(t, step) == c
  {
    TimeCounterWindow(t, step);
    var d := TimeCounter(t, step);
    var m := step * 1000;
    assert d * m < (c + 1) * m;
    assert c * m < (d + 1) * m;
    MulLtCancel(d, c + 1, m);
    MulLtCancel(c, d + 1, m);
  }

  lemma MulLtCancel(a: int, b: int, m: int)
    requires m > 0 && a * m < b * m
    ensures a < b
  {
    assert (b - a) * m == b * m - a * m;
  }

  /** The counter message is the 8-byte big-endian counter: it reads back as the counter. */
  lemma CounterMessageRoundTrip(time: int)
    requires 0 <= time < 0x1_0000_0000_0000_0000
    ensures FromBigEndian(CounterMessage(time)) == time
  {
    BigEndianRoundTrip(time, 8);
    assert Pow256(8) == 0x1_0000_0000_0000_0000;
  }

  /** For a non-negative clock the remaining seconds are `step - (t mod step)`, between 1 and `step`. */
  lemma RemainingSecondsBounds(nowMillis: int, step: int)
    requires nowMillis >= 0 && step > 0
    ensures RemainingSeconds(nowMillis, step) == step - (nowMillis / 1000) % step
    ensures 1 <= RemainingSeconds(nowMillis, step) <= step
  {
  }

  /**
   * The remaining seconds are exactly the whole seconds until the counter moves:
   * one second before that it is unchanged, and after that it is one higher.
   */
  lemma RemainingSecondsUntilNextStep(nowMillis: int, step: int)
    requires nowMillis >= 0 && step > 0
    ensures var r := RemainingSeconds(nowMillis, step);
      TimeCounter(nowMillis + 1000 * (r - 1), step) == TimeCounter(nowMillis, step) &&
      TimeCounter(nowMillis + 1000 * r, step) == TimeCounter(nowMillis, step) + 1
  {
    var secs := nowMillis / 1000;
    var c := secs / step;
    var r := RemainingSeconds(nowMillis, step);
    RemainingSecondsBounds(nowMillis, step);
    assert secs == c * step + secs % step;
    assert secs + r == (c + 1) * step;
    assert (nowMillis + 1000 * r) / 1000 == secs + r by {
      DivShift(nowMillis, r);
    }
    assert (nowMillis + 1000 * (r - 1)) / 1000 == secs + r - 1 by {
      DivShift(nowMillis, r - 1);
    }
    assert (secs + r) / step == c + 1 by {
      LemmaDivExact(c + 1, step);
    }
    assert (secs + r - 1) / step == c by {
      assert c * step <= secs + r - 1 < (c + 1) * step;
      LemmaDivRange(secs + r - 1, step, c);
    }
  }

  lemma DivShift(n: int, k: int)
    requires n >= 0 && k >= 0
    ensures (n + 1000 * k) / 1000 == n / 1000 + k
  {
  }

  lemma LemmaDivExact(q: int, m: int)
    requires m > 0
    ensures (q * m) / m == q
  {
    LemmaDivRange(q * m, m, q);
  }

  lemma LemmaDivRange(n: int, m: int, q: int)
    requires m > 0 && q * m <= n < (q + 1) * m
    ensures n / m == q
  {
    LemmaModUnique(n, m, q, n - q * m);
  }

  /**
   * `generateTOTP` produces a code exactly when the secret passes `validateSecret`
   * and decodes to a non-empty key; the corrected check accepts exactly those secrets.
   */
  lemma ValidateSecretMatchesGenerate(decode: Base32Decoder, hmac: HmacSha1, secret: string, nowMillis: int)
    ensures GenerateTotp(decode, hmac, secret, nowMillis, TIME_STEP_SECONDS).Ok?
        <==> ValidateSecret(decode, secret) && decode(NormalizeSecret(secret)).value != []
    ensures ValidateSecretNonEmptyKey(decode, secret) <==> GenerateTotp(decode, hmac, secret, nowMillis, TIME_STEP_SECONDS).Ok?
  {
  }

  /**
   * `validateSecret` as written accepts a secret whose key decodes empty, and
   * `generateTOTP` then throws. commons-codec's lenient Base32 decodes a single
   * character such as "A" to no bytes.
   */
  lemma ValidateSecretAcceptsEmptyKey(decode: Base32Decoder, hmac: HmacSha1, nowMillis: int)
    requires decode(NormalizeSecret("A")) == Ok([])
    ensures ValidateSecret(decode, "A")
    ensures !ValidateSecretNonEmptyKey(decode, "A")
    ensures GenerateTotp(decode, hmac, "A", nowMillis, TIME_STEP_SECONDS) == Err(MSG_EMPTY_KEY)
  {
  }

  /** Cleaning a secret twice changes nothing more. */
  lemma NormalizeSecretIdempotent(secret: string)
    ensures NormalizeSecret(NormalizeSecret(secret)) == NormalizeSecret(secret)
  {
    var once := NormalizeSecret(secret);
    assert ' ' !in once by {
      var stripped := ReplaceChar(secret, ' ', "");
      assert forall i :: 0 <= i < |stripped| ==> UpperChar(stripped[i]) != ' ';
    }
    ReplaceCharAbsent(once, ' ', "");
    assert Uppercase(once) == once;
  }
}
