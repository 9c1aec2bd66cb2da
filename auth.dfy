/**
 * `AuthViewModel`: the master-password strength meter, first-time setup, unlock by
 * password or biometrics, and the error line of the lock and setup screens.
 *
 * The stored hash and salt are the two Base64 strings `PreferencesManager` keeps;
 * they are fields of the view model here. The `SecureRandom` stream a setup draws
 * its salt from is a parameter of that call.
 */
module Auth {
  import opened Wrappers
  import opened Bytes
  import opened Text
  import opened Codecs
  import opened CryptoManager
  import opened Entities

  const MIN_MASTER_LENGTH: nat := 8

  const MSG_MISMATCH := "Passwords do not match"
  const MSG_TOO_SHORT := "Password must be at least 8 characters"
  const MSG_NOT_SET := "No master password set"
  const MSG_INCORRECT := "Incorrect password"
  const MSG_AUTH_FAILED := "Authentication failed: "

  // ---------------------------------------------------------------------------
  // Strength meter
  // ---------------------------------------------------------------------------

  /** How many of the four classes (upper, lower, digit, other) occur in the password. */
  function ClassCount(password: string): (n: nat)
    ensures n <= 4
  {
    (if HasUpper(password) then 1 else 0) + (if HasLower(password) then 1 else 0)
      + (if HasDigit(password) then 1 else 0) + (if HasSpecial(password) then 1 else 0)
  }

  /** `hasVariedCharacters`: at least three of the four classes occur. */
  predicate HasVariedCharacters(password: string) {
    ClassCount(password) >= 3
  }

  /** The strength `checkPasswordStrength` stores: tiers by length, the middle two also needing variety. */
  function StrengthOf(password: string): AuthStrength {
    if |password| < 8 then Weak
    else if |password| < 12 then Fair
    else if |password| < 16 && HasVariedCharacters(password) then Good
    else if |password| < 20 && HasVariedCharacters(password) then Strong
    else VeryStrong
  }

  /**
   * Each level in terms of the length alone, or the length and variety: in particular a
   * 12 to 19 character password without variety is rated `VeryStrong`.
   */
  lemma StrengthLevels(p: string)
    ensures StrengthOf(p) == Weak <==> |p| < 8
    ensures StrengthOf(p) == Fair <==> 8 <= |p| < 12
    ensures StrengthOf(p) == Good <==> 12 <= |p| < 16 && HasVariedCharacters(p)
    ensures StrengthOf(p) == Strong <==> 16 <= |p| < 20 && HasVariedCharacters(p)
    ensures StrengthOf(p) == VeryStrong <==> |p| >= 20 || (12 <= |p| < 20 && !HasVariedCharacters(p))
  {
  }

  /** Every character is in exactly one of the four classes, so no string has more classes than characters. */
  lemma {:induction false} ClassCountAtMostLength(p: string)
    ensures ClassCount(p) <= |p|
  {
    if p != [] {
      var x, rest := p[0], p[1..];
      assert p == [x] + rest;
      ClassCountAtMostLength(rest);
      assert HasUpper(p) <==> IsUpper(x) || HasUpper(rest);
      assert HasLower(p) <==> IsLower(x) || HasLower(rest);
      assert HasDigit(p) <==> IsDigit(x) || HasDigit(rest);
      assert HasSpecial(p) <==> !IsLetterOrDigit(x) || HasSpecial(rest);
    }
  }

  /** A varied password has at least three characters. */
  lemma VariedNeedsThreeCharacters(p: string)
    requires HasVariedCharacters(p)
    ensures |p| >= 3
  {
    ClassCountAtMostLength(p);
  }

  // ---------------------------------------------------------------------------
  // Stored credentials
  // ---------------------------------------------------------------------------

  /**
   * What setup saves and unlock reads back agree: with a Base64 codec whose decoding
   * undoes its encoding, the stored strings decode to the hash and the salt, and the
   * password they were made from verifies against them.
   */
  lemma StoredCredentialsVerify(kdf: Pbkdf2, b64: Base64Functions, password: string, random: RandomStream)
    requires Base64RoundTrip(b64)
    ensures var salt := SaltOf(random);
      var hash := HashPassword(kdf, password, salt).value;
      && b64.decode(b64.encode(hash)) == Ok(hash)
      && b64.decode(b64.encode(salt)) == Ok(salt)
      && VerifyPassword(kdf, password, hash, salt) == Ok(true)
  {
    var salt := SaltOf(random);
    VerifyOwnHash(kdf, password, salt);
  }

  // ---------------------------------------------------------------------------
  // AuthViewModel
  // ---------------------------------------------------------------------------

  class AuthViewModel {
    var state: AuthState
    /** `getMasterPasswordHash()`: the stored Base64 hash and salt, `None` when never saved. */
    var storedHash: Option<string>
    var storedSalt: Option<string>
    /** The `is_first_launch` preference, negated. */
    var firstLaunchComplete: bool
    const kdf: Pbkdf2
    const b64: Base64Functions

    /** A fresh view model over whatever the preferences hold. */
    constructor (kdf: Pbkdf2, b64: Base64Functions, storedHash: Option<string>, storedSalt: Option<string>,
                 firstLaunchComplete: bool)
      ensures state == DefaultAuthState
      ensures this.storedHash == storedHash && this.storedSalt == storedSalt
      ensures this.firstLaunchComplete == firstLaunchComplete
      ensures this.kdf == kdf && this.b64 == b64
    {
      state := DefaultAuthState;
      this.storedHash := storedHash;
      this.storedSalt := storedSalt;
      this.firstLaunchComplete := firstLaunchComplete;
      this.kdf := kdf;
      this.b64 := b64;
    }

    /** `checkPasswordStrength`: only the strength changes. */
    method CheckPasswordStrength(password: string)
      modifies this
      ensures state == old(state).(passwordStrength := StrengthOf(password))
      ensures storedHash == old(storedHash) && storedSalt == old(storedSalt)
      ensures firstLaunchComplete == old(firstLaunchComplete)
    {
      var strength := StrengthOf(password);
      state := state.(passwordStrength := strength);
    }

    /**
     * `setupMasterPassword`: a mismatch is reported before a short password; otherwise a
     * fresh salt and the password's hash are saved together, first launch is marked
     * complete and the user is authenticated.
     */
    method SetupMasterPassword(password: string, confirmPassword: string, random: RandomStream)
      modifies this
      ensures password != confirmPassword ==>
        state == old(state).(isLoading := false, errorMessage := Some(MSG_MISMATCH)) &&
        storedHash == old(storedHash) && storedSalt == old(storedSalt) &&
        firstLaunchComplete == old(firstLaunchComplete)
      ensures password == confirmPassword && |password| < MIN_MASTER_LENGTH ==>
        state == old(state).(isLoading := false, errorMessage := Some(MSG_TOO_SHORT)) &&
        storedHash == old(storedHash) && storedSalt == old(storedSalt) &&
        firstLaunchComplete == old(firstLaunchComplete)
      ensures password == confirmPassword && |password| >= MIN_MASTER_LENGTH ==>
        state == old(state).(isLoading := false, errorMessage := None, isAuthenticated := true) &&
        storedHash == Some(b64.encode(HashPassword(kdf, password, SaltOf(random)).value)) &&
        storedSalt == Some(b64.encode(SaltOf(random))) &&
        firstLaunchComplete
    {
      state := state.(isLoading := true, errorMessage := None);
      if password != confirmPassword {
        state := state.(isLoading := false, errorMessage := Some(MSG_MISMATCH));
        return;
      }
      if |password| < MIN_MASTER_LENGTH {
        state := state.(isLoading := false, errorMessage := Some(MSG_TOO_SHORT));
        return;
      }
      var salt := GenerateSalt(random);
      var hash := HashPassword(kdf, password, salt[..]).value;
      var hashString := b64.encode(hash);
      var saltString := b64.encode(salt[..]);
      storedHash, storedSalt := Some(hashString), Some(saltString);
      firstLaunchComplete := true;
      state := state.(isLoading := false, isAuthenticated := true);
    }

    /**
     * `verifyMasterPassword`: reports a missing hash or salt, then a stored string that
     * does not decode, and otherwise authenticates exactly when the password verifies.
     * The preferences are only read.
     */
    method VerifyMasterPassword(password: string)
      modifies this
      ensures storedHash == old(storedHash) && storedSalt == old(storedSalt)
      ensures firstLaunchComplete == old(firstLaunchComplete)
      ensures storedHash.None? || storedSalt.None? ==>
        state == old(state).(isLoading := false, errorMessage := Some(MSG_NOT_SET))
      ensures storedHash.Some? && storedSalt.Some? && b64.decode(storedHash.value).Err? ==>
        state == old(state).(isLoading := false, errorMessage := Some(MSG_AUTH_FAILED + b64.decode(storedHash.value).error))
      ensures storedHash.Some? && storedSalt.Some? && b64.decode(storedHash.value).Ok?
              && b64.decode(storedSalt.value).Err? ==>
        state == old(state).(isLoading := false, errorMessage := Some(MSG_AUTH_FAILED + b64.decode(storedSalt.value).error))
      ensures storedHash.Some? && storedSalt.Some? && b64.decode(storedHash.value).Ok?
              && b64.decode(storedSalt.value) == Ok([]) ==>
        state == old(state).(isLoading := false, errorMessage := Some(MSG_AUTH_FAILED + MSG_EMPTY_SALT))
      ensures storedHash.Some? && storedSalt.Some? && b64.decode(storedHash.value).Ok?
              && b64.decode(storedSalt.value).Ok? && b64.decode(storedSalt.value).value != [] ==>
        var valid := VerifyPassword(kdf, password, b64.decode(storedHash.value).value, b64.decode(storedSalt.value).value).value;
        state == if valid then old(state).(isLoading := false, errorMessage := None, isAuthenticated := true)
                 else old(state).(isLoading := false, errorMessage := Some(MSG_INCORRECT))
    {
      state := state.(isLoading := true, errorMessage := None);
      if storedHash.None? || storedSalt.None? {
        state := state.(isLoading := false, errorMessage := Some(MSG_NOT_SET));
        return;
      }
      var decodedHash := b64.decode(storedHash.value);
      if decodedHash.Err? {
        state := state.(isLoading := false, errorMessage := Some(MSG_AUTH_FAILED + decodedHash.error));
        return;
      }
      var decodedSalt := b64.decode(storedSalt.value);
      if decodedSalt.Err? {
        state := state.(isLoading := false, errorMessage := Some(MSG_AUTH_FAILED + decodedSalt.error));
        return;
      }
      var verified := VerifyPassword(kdf, password, decodedHash.value, decodedSalt.value);
      if verified.Err? {
        state := state.(isLoading := false, errorMessage := Some(MSG_AUTH_FAILED + verified.error));
      } else if verified.value {
        state := state.(isLoading := false, isAuthenticated := true);
      } else {
        state := state.(isLoading := false, errorMessage := Some(MSG_INCORRECT));
      }
    }

    /** `clearError`: only the error line is cleared. */
    method ClearError()
      modifies this
      ensures state == old(state).(errorMessage := None)
      ensures storedHash == old(storedHash) && storedSalt == old(storedSalt)
      ensures firstLaunchComplete == old(firstLaunchComplete)
    {
      state := state.(errorMessage := None);
    }

    /** `setError(message)`: only the error line changes. */
    method SetError(message: string)
      modifies this
      ensures state == old(state).(errorMessage := Some(message))
      ensures storedHash == old(storedHash) && storedSalt == old(storedSalt)
      ensures firstLaunchComplete == old(firstLaunchComplete)
    {
      state := state.(errorMessage := Some(message));
    }

    /** `authenticateWithBiometric`: authenticates unconditionally; the prompt's own result is checked by the caller. */
    method AuthenticateWithBiometric()
      modifies this
      ensures state == old(state).(isLoading := false, isAuthenticated := true)
      ensures storedHash == old(storedHash) && storedSalt == old(storedSalt)
      ensures firstLaunchComplete == old(firstLaunchComplete)
    {
      state := state.(isLoading := false, isAuthenticated := true);
    }
  }

  /**
   * Setting up a master password and later unlocking (a new view model over the saved
   * preferences) with the same password authenticates; another password unlocks exactly
   * when PBKDF2 gives it the same hash under the saved salt.
   */
  method SetupThenUnlock(kdf: Pbkdf2, b64: Base64Functions, password: string, other: string, random: RandomStream)
    returns (sameUnlocks: bool, otherUnlocks: bool)
    requires Base64RoundTrip(b64)
    requires |password| >= MIN_MASTER_LENGTH
    ensures sameUnlocks
    ensures otherUnlocks <==> HashPassword(kdf, other, SaltOf(random)) == HashPassword(kdf, password, SaltOf(random))
  {
    var setup := new AuthViewModel(kdf, b64, None, None, false);
    setup.SetupMasterPassword(password, password, random);
    StoredCredentialsVerify(kdf, b64, password, random);
    var lock := new AuthViewModel(kdf, b64, setup.storedHash, setup.storedSalt, setup.firstLaunchComplete);
    lock.VerifyMasterPassword(password);
    sameUnlocks := lock.state.isAuthenticated;
    var lock2 := new AuthViewModel(kdf, b64, setup.storedHash, setup.storedSalt, setup.firstLaunchComplete);
    lock2.VerifyMasterPassword(other);
    otherUnlocks := lock2.state.isAuthenticated;
  }
}
