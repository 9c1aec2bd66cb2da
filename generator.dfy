/**
 * The password generator: the character pool, byte-to-character selection,
 * the entropy-to-strength levels of `GeneratorState.kt` and the view model
 * whose state the generator sheet shows.
 *
 * `kotlin.math.log2` is the constructor parameter `log2`; each call that draws
 * random bytes takes the `SecureRandom` stream it reads as a parameter.
 */
module Generator {
  import opened Bytes
  import opened CryptoManager

  const UPPERCASE_CHARS: string := "ABCDEFGHIJKLMNOPQRSTUVWXYZ"
  const LOWERCASE_CHARS: string := "abcdefghijklmnopqrstuvwxyz"
  const NUMBER_CHARS: string := "0123456789"
  const SYMBOL_CHARS: string := "!@#$%^&*()_+-=[]{}|;:,.<?>"
  const AMBIGUOUS_CHARS: string := "il1Lo0O"

  const MIN_LENGTH: int := 4
  const MAX_LENGTH: int := 128
  const HISTORY_SIZE: nat := 10

  // ---------------------------------------------------------------------------
  // PasswordStrength (GeneratorState.kt)
  // ---------------------------------------------------------------------------

  datatype PasswordStrength = VeryWeak | Weak | Fair | Good | Strong | VeryStrong {
    /** Position in declaration order. */
    function Rank(): nat {
      match this
      case VeryWeak => 0
      case Weak => 1
      case Fair => 2
      case Good => 3
      case Strong => 4
      case VeryStrong => 5
    }

    function DisplayName(): string {
      match this
      case VeryWeak => "Very Weak"
      case Weak => "Weak"
      case Fair => "Fair"
      case Good => "Good"
      case Strong => "Strong"
      case VeryStrong => "Very Strong"
    }

    function MinEntropy(): real {
      match this
      case VeryWeak => 0.0
      case Weak => 28.0
      case Fair => 36.0
      case Good => 60.0
      case Strong => 80.0
      case VeryStrong => 100.0
    }
  }

  /**
   * `PasswordStrength.fromEntropy`: the strongest level whose `minEntropy` the
   * entropy reaches; `VeryWeak` when it reaches none (a negative entropy).
   */
  function FromEntropy(entropy: real): (s: PasswordStrength)
    ensures s == VeryWeak || s.MinEntropy() <= entropy
    ensures forall t: PasswordStrength :: t.MinEntropy() <= entropy ==> t.Rank() <= s.Rank()
  {
    if entropy >= VeryStrong.MinEntropy() then VeryStrong
    else if entropy >= Strong.MinEntropy() then Strong
    else if entropy >= Good.MinEntropy() then Good
    else if entropy >= Fair.MinEntropy() then Fair
    else if entropy >= Weak.MinEntropy() then Weak
    else VeryWeak
  }

  /** The thresholds strictly increase in declaration order, and distinct levels have distinct ranks. */
  lemma MinEntropyIncreasing(a: PasswordStrength, b: PasswordStrength)
    ensures a.Rank() < b.Rank() <==> a.MinEntropy() < b.MinEntropy()
    ensures a.Rank() == b.Rank() <==> a == b
  {
  }

  /** More entropy never gives a weaker level. */
  lemma FromEntropyMonotone(e1: real, e2: real)
    requires e1 <= e2
    ensures FromEntropy(e1).Rank() <= FromEntropy(e2).Rank()
  {
  }

  /** The two extremes: below 28 bits (negative included) is `VeryWeak`, from 100 bits on `VeryStrong`. */
  lemma FromEntropyExtremes(e: real)
    ensures e < 28.0 <==> FromEntropy(e) == VeryWeak
    ensures e >= 100.0 <==> FromEntropy(e) == VeryStrong
  {
  }

  // ---------------------------------------------------------------------------
  // GeneratorState
  // ---------------------------------------------------------------------------

  /** `GeneratorState`; `length` is never negative, since every writer clamps it or takes a string's length. */
  datatype GeneratorState = GeneratorState(
    generatedPassword: string,
    length: nat,
    useUppercase: bool,
    useLowercase: bool,
    useNumbers: bool,
    useSymbols: bool,
    excludeAmbiguous: bool,
    passwordStrength: PasswordStrength,
    entropy: real,
    generationHistory: seq<string>)

  const DefaultGeneratorState := GeneratorState("", 16, true, true, true, true, false, Good, 0.0, [])

  // ---------------------------------------------------------------------------
  // The character pool
  // ---------------------------------------------------------------------------

  /** `s.filterNot { it in excluded }`. */
  function RemoveAll(s: string, excluded: string): (r: string)
    ensures forall c :: c in r <==> c in s && c !in excluded
    ensures |r| <= |s|
  {
    if s == [] then []
    else (if s[0] in excluded then [] else [s[0]]) + RemoveAll(s[1..], excluded)
  }

  /** The pool `buildCharacterPool` returns: the enabled classes in the order upper, lower, digits, symbols. */
  function CharacterPool(useUppercase: bool, useLowercase: bool, useNumbers: bool, useSymbols: bool,
                         excludeAmbiguous: bool): string
  {
    var pool := (if useUppercase then UPPERCASE_CHARS else "") + (if useLowercase then LOWERCASE_CHARS else "")
      + (if useNumbers then NUMBER_CHARS else "") + (if useSymbols then SYMBOL_CHARS else "");
    if excludeAmbiguous then RemoveAll(pool, AMBIGUOUS_CHARS) else pool
  }

  function PoolOf(s: GeneratorState): string {
    CharacterPool(s.useUppercase, s.useLowercase, s.useNumbers, s.useSymbols, s.excludeAmbiguous)
  }

  /** `buildCharacterPool`: appends each enabled class to a builder, then filters out the ambiguous characters. */
  method BuildCharacterPool(useUppercase: bool, useLowercase: bool, useNumbers: bool, useSymbols: bool,
                            excludeAmbiguous: bool) returns (result: string)
    ensures result == CharacterPool(useUppercase, useLowercase, useNumbers, useSymbols, excludeAmbiguous)
  {
    var upper := if useUppercase then UPPERCASE_CHARS else "";
    var lower := if useLowercase then LOWERCASE_CHARS else "";
    var numbers := if useNumbers then NUMBER_CHARS else "";
    var pool := "";
    if useUppercase { pool := pool + UPPERCASE_CHARS; }
    assert pool == upper;
    if useLowercase { pool := pool + LOWERCASE_CHARS; }
    assert pool == upper + lower;
    if useNumbers { pool := pool + NUMBER_CHARS; }
    assert pool == upper + lower + numbers;
    if useSymbols { pool := pool + SYMBOL_CHARS; }
    assert pool == upper + lower + numbers + (if useSymbols then SYMBOL_CHARS else "");
    result := pool;
    if excludeAmbiguous {
      result := RemoveAll(result, AMBIGUOUS_CHARS);
    }
  }

  /** A character is in the pool iff one of the enabled classes has it and it is not excluded as ambiguous. */
  lemma PoolMembership(u: bool, l: bool, n: bool, s: bool, x: bool, c: char)
    ensures c in CharacterPool(u, l, n, s, x) <==>
      ((u && c in UPPERCASE_CHARS) || (l && c in LOWERCASE_CHARS) || (n && c in NUMBER_CHARS) || (s && c in SYMBOL_CHARS))
      && !(x && c in AMBIGUOUS_CHARS)
  {
    var a := if u then UPPERCASE_CHARS else "";
    var b := if l then LOWERCASE_CHARS else "";
    var d := if n then NUMBER_CHARS else "";
    var e := if s then SYMBOL_CHARS else "";
    assert c in a + b + d + e <==> c in a || c in b || c in d || c in e;
  }

  /** Without exclusion the pool has 26, 26, 10 and 26 characters per enabled class. */
  lemma PoolSize(u: bool, l: bool, n: bool, s: bool)
    ensures |CharacterPool(u, l, n, s, false)| ==
      (if u then 26 else 0) + (if l then 26 else 0) + (if n then 10 else 0) + (if s then 26 else 0)
  {
  }

  /** The pool is empty iff all four classes are off; excluding the ambiguous characters never empties it. */
  lemma PoolEmptyIff(u: bool, l: bool, n: bool, s: bool, x: bool)
    ensures CharacterPool(u, l, n, s, x) == [] <==> !u && !l && !n && !s
  {
    var pool := CharacterPool(u, l, n, s, x);
    if u {
      assert UPPERCASE_CHARS[0] == 'A';
      PoolMembership(u, l, n, s, x, 'A');
    } else if l {
      assert LOWERCASE_CHARS[0] == 'a';
      PoolMembership(u, l, n, s, x, 'a');
    } else if n {
      assert NUMBER_CHARS[2] == '2';
      PoolMembership(u, l, n, s, x, '2');
    } else if s {
      assert SYMBOL_CHARS[0] == '!';
      PoolMembership(u, l, n, s, x, '!');
    }
  }

  // ---------------------------------------------------------------------------
  // Selection and entropy
  // ---------------------------------------------------------------------------

  /** Character `i` of the password: pool position `byte_i mod |pool|` (with the modulo bias as written). */
  function SecurePassword(pool: string, length: nat, random: RandomStream): (password: string)
    requires |pool| > 0
    ensures |password| == length
    ensures forall c :: c in password ==> c in pool
  {
    seq(length, i requires 0 <= i < length => pool[random(i) % |pool|])
  }

  /** `generateSecurePassword(pool, length)`: draws `length` bytes and appends the selected characters. */
  method GenerateSecurePassword(pool: string, length: nat, random: RandomStream) returns (password: string)
    requires |pool| > 0
    ensures password == SecurePassword(pool, length, random)
  {
    var randomBytes := GenerateSecureRandom(length, random);
    password := "";
    for i := 0 to length
      invariant |password| == i
      invariant forall k :: 0 <= k < i ==> password[k] == pool[random(k) % |pool|]
    {
      var index := randomBytes[i] % |pool|;
      password := password + [pool[index]];
    }
  }

  /** How many of the byte values `0 .. n-1` select pool position `index` under `b mod poolSize`. */
  function HitCount(poolSize: nat, index: nat, n: nat): nat
    requires poolSize > 0
  {
    if n == 0 then 0 else HitCount(poolSize, index, n - 1) + (if (n - 1) % poolSize == index then 1 else 0)
  }

  /**
   * Selection by `byte mod |pool|` is biased when `|pool|` does not divide 256: each of the
   * first `256 mod |pool|` positions is selected by one byte value more than the others.
   */
  lemma ModuloBias(poolSize: nat, index: nat)
    requires 0 < poolSize && index < poolSize
    ensures HitCount(poolSize, index, 256) == 256 / poolSize + (if index < 256 % poolSize then 1 else 0)
  {
    HitCountFormula(poolSize, index, 256);
  }

  lemma {:induction false} HitCountFormula(m: nat, index: nat, n: nat)
    requires 0 < m && index < m
    ensures HitCount(m, index, n) == n / m + (if index < n % m then 1 else 0)
  {
    if n > 0 {
      HitCountFormula(m, index, n - 1);
      HitCountStep(m, index, n);
    }
  }

  /** Moving from `n - 1` to `n` byte values adds one hit exactly when `(n - 1) mod m` is the index. */
  lemma HitCountStep(m: nat, index: nat, n: nat)
    requires 0 < m && index < m && 0 < n
    ensures n / m + (if index < n % m then 1 else 0) ==
      (n - 1) / m + (if index < (n - 1) % m then 1 else 0) + (if (n - 1) % m == index then 1 else 0)
  {
    var q := (n - 1) / m;
    var r := (n - 1) % m;
    assert n == m * q + r + 1;
    if r == m - 1 {
      LemmaDivModUnique(n, m, q + 1, 0);
    } else {
      LemmaDivModUnique(n, m, q, r + 1);
    }
  }

  /** The default pool of 88 characters: positions 0 to 79 are each selected by three byte values, 80 to 87 by two. */
  lemma DefaultPoolBias(index: nat)
    requires index < 88
    ensures HitCount(88, index, 256) == if index < 80 then 3 else 2
  {
    ModuloBias(88, index);
  }

  /** `log2` as the platform computes it: zero at 1 and non-decreasing from there on. */
  type Log2 = f: real -> real | forall x: real, y: real :: 1.0 <= x <= y ==> 0.0 <= f(x) <= f(y)
    witness (x: real) => 0.0

  /** `calculateEntropy(poolSize, length)`: `length * log2(poolSize)`, and 0 when either is 0. */
  function Entropy(log2: Log2, poolSize: nat, length: nat): (e: real)
    ensures e >= 0.0
    ensures poolSize == 0 || length == 0 ==> e == 0.0
  {
    if poolSize == 0 || length == 0 then 0.0
    else
      Log2NonNegative(log2, poolSize as real);
      MulLeReal(0.0, length as real, 0.0, log2(poolSize as real));
      length as real * log2(poolSize as real)
  }

  /** A bigger pool or a longer password never lowers the entropy, hence never the level. */
  lemma EntropyMonotone(log2: Log2, p1: nat, p2: nat, n1: nat, n2: nat)
    requires p1 <= p2 && n1 <= n2
    ensures Entropy(log2, p1, n1) <= Entropy(log2, p2, n2)
    ensures FromEntropy(Entropy(log2, p1, n1)).Rank() <= FromEntropy(Entropy(log2, p2, n2)).Rank()
  {
    var e1, e2 := Entropy(log2, p1, n1), Entropy(log2, p2, n2);
    if p1 > 0 && n1 > 0 {
      var a := log2(p1 as real);
      var b := log2(p2 as real);
      assert 0.0 <= a <= b;
      assert e1 == n1 as real * a;
      assert e2 == n2 as real * b;
      MulLeReal(n1 as real, n2 as real, a, b);
    } else {
      assert e1 == 0.0;
    }
    FromEntropyMonotone(Entropy(log2, p1, n1), Entropy(log2, p2, n2));
  }

  /** `log2` is non-negative from 1 on. */
  lemma Log2NonNegative(log2: Log2, x: real)
    requires 1.0 <= x
    ensures 0.0 <= log2(x)
  {
    assert 1.0 <= x <= x;
  }

  lemma MulLeReal(x1: real, x2: real, y1: real, y2: real)
    requires 0.0 <= x1 <= x2 && 0.0 <= y1 <= y2
    ensures x1 * y1 <= x2 * y2
  {
    assert x1 * y1 <= x2 * y1;
    assert x2 * y1 <= x2 * y2;
  }

  // ---------------------------------------------------------------------------
  // History and length
  // ---------------------------------------------------------------------------

  /** `(listOf(password) + history).take(10)`. */
  function NewHistory(password: string, history: seq<string>): (h: seq<string>)
    ensures 1 <= |h| <= HISTORY_SIZE
    ensures h[0] == password
    ensures |h| == if |history| < HISTORY_SIZE then |history| + 1 else HISTORY_SIZE
    ensures forall i :: 1 <= i < |h| ==> h[i] == history[i - 1]
  {
    var all := [password] + history;
    all[..if |all| < HISTORY_SIZE then |all| else HISTORY_SIZE]
  }

  /** `length.coerceIn(4, 128)`. */
  function CoerceLength(length: int): (r: nat)
    ensures MIN_LENGTH <= r <= MAX_LENGTH
    ensures MIN_LENGTH <= length <= MAX_LENGTH ==> r == length
    ensures length < MIN_LENGTH ==> r == MIN_LENGTH
    ensures length > MAX_LENGTH ==> r == MAX_LENGTH
  {
    if length < MIN_LENGTH then MIN_LENGTH else if length > MAX_LENGTH then MAX_LENGTH else length
  }

  // ---------------------------------------------------------------------------
  // The state after `generatePassword`
  // ---------------------------------------------------------------------------

  /** The state `generatePassword` leaves behind, given the state it reads. */
  function Generated(s: GeneratorState, log2: Log2, random: RandomStream): GeneratorState {
    var pool := PoolOf(s);
    if pool == [] then s.(generatedPassword := "")
    else
      var password := SecurePassword(pool, s.length, random);
      var entropy := Entropy(log2, |pool|, s.length);
      s.(generatedPassword := password, entropy := entropy, passwordStrength := FromEntropy(entropy),
         generationHistory := NewHistory(password, s.generationHistory))
  }

  /**
   * What `generatePassword` promises: the settings are kept; with no class enabled only the
   * password changes (to ""); otherwise the password has the requested length, uses only pool
   * characters, heads the history, and the history keeps at most ten entries.
   */
  lemma GeneratedProperties(s: GeneratorState, log2: Log2, random: RandomStream)
    ensures var g := Generated(s, log2, random);
      g.length == s.length && g.useUppercase == s.useUppercase && g.useLowercase == s.useLowercase &&
      g.useNumbers == s.useNumbers && g.useSymbols == s.useSymbols && g.excludeAmbiguous == s.excludeAmbiguous
    ensures var g := Generated(s, log2, random);
      PoolOf(s) == [] ==> g == s.(generatedPassword := "")
    ensures var g := Generated(s, log2, random);
      PoolOf(s) != [] ==>
        |g.generatedPassword| == s.length &&
        (forall c :: c in g.generatedPassword ==> c in PoolOf(s)) &&
        g.generationHistory[0] == g.generatedPassword &&
        |g.generationHistory| <= HISTORY_SIZE &&
        g.passwordStrength == FromEntropy(g.entropy)
  {
  }

  /** Generating never leaves the history longer than ten if it was not already. */
  lemma GeneratedHistoryBound(s: GeneratorState, log2: Log2, random: RandomStream)
    requires |s.generationHistory| <= HISTORY_SIZE
    ensures |Generated(s, log2, random).generationHistory| <= HISTORY_SIZE
  {
  }

  // ---------------------------------------------------------------------------
  // GeneratorViewModel
  // ---------------------------------------------------------------------------

  class GeneratorViewModel {
    var state: GeneratorState
    const log2: Log2

    /** The view model starts from the default state and generates once (`init`). */
    constructor (log2: Log2, random: RandomStream)
      ensures this.log2 == log2
      ensures state == Generated(DefaultGeneratorState, log2, random)
    {
      this.log2 := log2;
      state := DefaultGeneratorState;
      new;
      GeneratePassword(random);
    }

    /** `generatePassword`. */
    method GeneratePassword(random: RandomStream)
      modifies this
      ensures state == Generated(old(state), log2, random)
    {
      var s := state;
      var pool := BuildCharacterPool(s.useUppercase, s.useLowercase, s.useNumbers, s.useSymbols, s.excludeAmbiguous);
      if pool == [] {
        state := state.(generatedPassword := "");
        return;
      }
      var password := GenerateSecurePassword(pool, s.length, random);
      var entropy := Entropy(log2, |pool|, s.length);
      var strength := FromEntropy(entropy);
      var newHistory := NewHistory(password, s.generationHistory);
      state := state.(generatedPassword := password, entropy := entropy, passwordStrength := strength,
                      generationHistory := newHistory);
    }

    /** `updateLength`: clamps the length to [4, 128], then regenerates. */
    method UpdateLength(length: int, random: RandomStream)
      modifies this
      ensures state == Generated(old(state).(length := CoerceLength(length)), log2, random)
    {
      state := state.(length := CoerceLength(length));
      GeneratePassword(random);
    }

    method ToggleUppercase(random: RandomStream)
      modifies this
      ensures state == Generated(old(state).(useUppercase := !old(state).useUppercase), log2, random)
    {
      state := state.(useUppercase := !state.useUppercase);
      GeneratePassword(random);
    }

    method ToggleLowercase(random: RandomStream)
      modifies this
      ensures state == Generated(old(state).(useLowercase := !old(state).useLowercase), log2, random)
    {
      state := state.(useLowercase := !state.useLowercase);
      GeneratePassword(random);
    }

    method ToggleNumbers(random: RandomStream)
      modifies this
      ensures state == Generated(old(state).(useNumbers := !old(state).useNumbers), log2, random)
    {
      state := state.(useNumbers := !state.useNumbers);
      GeneratePassword(random);
    }

    method ToggleSymbols(random: RandomStream)
      modifies this
      ensures state == Generated(old(state).(useSymbols := !old(state).useSymbols), log2, random)
    {
      state := state.(useSymbols := !state.useSymbols);
      GeneratePassword(random);
    }

    method ToggleExcludeAmbiguous(random: RandomStream)
      modifies this
      ensures state == Generated(old(state).(excludeAmbiguous := !old(state).excludeAmbiguous), log2, random)
    {
      state := state.(excludeAmbiguous := !state.excludeAmbiguous);
      GeneratePassword(random);
    }

    /**
     * `restoreFromHistory(password)`: shows the password again with the entropy of the
     * current pool at its length, and sets the length to it; the history is untouched.
     */
    method RestoreFromHistory(password: string)
      modifies this
      ensures state == old(state).(generatedPassword := password,
        entropy := Entropy(log2, |PoolOf(old(state))|, |password|),
        passwordStrength := FromEntropy(Entropy(log2, |PoolOf(old(state))|, |password|)),
        length := |password|)
    {
      var s := state;
      var pool := BuildCharacterPool(s.useUppercase, s.useLowercase, s.useNumbers, s.useSymbols, s.excludeAmbiguous);
      var entropy := Entropy(log2, |pool|, |password|);
      var strength := FromEntropy(entropy);
      state := state.(generatedPassword := password, entropy := entropy, passwordStrength := strength,
                      length := |password|);
    }
  }

  /** In the default state every class is on: the pool has 88 characters and the first generation fills it. */
  lemma DefaultPoolIsFull(log2: Log2, random: RandomStream)
    ensures |PoolOf(DefaultGeneratorState)| == 88
    ensures |Generated(DefaultGeneratorState, log2, random).generatedPassword| == 16
    ensures Generated(DefaultGeneratorState, log2, random).generationHistory
      == [Generated(DefaultGeneratorState, log2, random).generatedPassword]
  {
    PoolSize(true, true, true, true);
  }
}
