/**
 * `CryptoManager`: password hashing with PBKDF2 (section 5.2 of RFC 8018), salts and
 * random byte arrays, and the `EncryptedData` record.
 *
 * The JCA key factory and `SecureRandom` are foreign code: the key factory is the
 * function-valued parameter `kdf` and a `SecureRandom` instance is the byte stream `random`.
 */
module CryptoManager {
  import opened Bytes
  import opened Wrappers

  const PBKDF2_ITERATIONS: nat := 100000
  /** Length of the derived key, in bits. */
  const PBKDF2_KEY_LENGTH: nat := 256
  const SALT_SIZE: nat := 32

  /**
   * `PBKDF2WithHmacSHA256` as a deterministic function of (password, salt,
   * iterations, key length in bits); its only known property is the output length.
   */
  type Pbkdf2 = f: (string, seq<Byte>, nat, nat) -> seq<Byte>
    | forall p: string, s: seq<Byte>, it: nat, bits: nat :: |f(p, s, it, bits)| == bits / 8
    witness (p: string, s: seq<Byte>, it: nat, bits: nat) => seq(bits / 8, _ => 0 as Byte)

  /** The bytes successive `nextBytes` calls of one `SecureRandom` instance produce. */
  type RandomStream = nat -> Byte

  /** The message of the `IllegalArgumentException` that `PBEKeySpec` throws on an empty salt. */
  const MSG_EMPTY_SALT := "the salt parameter must be non-empty"

  /**
   * `hashPassword`: PBKDF2-HMAC-SHA256 with 100000 iterations and a 256-bit key;
   * `PBEKeySpec` rejects an empty salt.
   */
  function HashPassword(kdf: Pbkdf2, password: string, salt: seq<Byte>): (r: Result<seq<Byte>, string>)
    ensures r.Ok? <==> salt != []
    ensures r.Err? ==> r.error == MSG_EMPTY_SALT
    ensures r.Ok? ==> |r.value| == 32
  {
    if salt == [] then Err(MSG_EMPTY_SALT)
    else Ok(kdf(password, salt, PBKDF2_ITERATIONS, PBKDF2_KEY_LENGTH))
  }

  /** `verifyPassword`: re-derives the hash with the stored salt and compares contents. */
  function VerifyPassword(kdf: Pbkdf2, input: string, storedHash: seq<Byte>, salt: seq<Byte>): (r: Result<bool, string>)
    ensures r.Ok? <==> salt != []
    ensures r.Err? ==> r.error == MSG_EMPTY_SALT
    ensures r == Ok(true) ==> |storedHash| == 32
    ensures r.Ok? ==> (r.value <==> HashPassword(kdf, input, salt) == Ok(storedHash))
  {
    match HashPassword(kdf, input, salt)
    case Err(e) => Err(e)
    case Ok(hash) => Ok(hash == storedHash)
  }

  /** A password always verifies against the hash derived from it and the same salt. */
  lemma VerifyOwnHash(kdf: Pbkdf2, password: string, salt: seq<Byte>)
    ensures HashPassword(kdf, password, salt).Ok? ==>
      VerifyPassword(kdf, password, HashPassword(kdf, password, salt).value, salt) == Ok(true)
  {
  }

  /** `SecureRandom().nextBytes(bytes)`: fills the array in place from the stream. */
  method NextBytes(bytes: array<Byte>, random: RandomStream)
    modifies bytes
    ensures bytes[..] == seq(bytes.Length, i requires 0 <= i => random(i))
  {
    for i := 0 to bytes.Length
      invariant forall k :: 0 <= k < i ==> bytes[k] == random(k)
    {
      bytes[i] := random(i);
    }
  }

  /** `generateSecureRandom(size)`: a fresh array of exactly `size` random bytes. */
  method GenerateSecureRandom(size: nat, random: RandomStream) returns (bytes: array<Byte>)
    ensures fresh(bytes)
    ensures bytes[..] == seq(size, i requires 0 <= i => random(i))
  {
    bytes := new Byte[size];
    NextBytes(bytes, random);
  }

  /** `generateSalt`: a fresh array of 32 random bytes. */
  method GenerateSalt(random: RandomStream) returns (salt: array<Byte>)
    ensures fresh(salt)
    ensures salt[..] == seq(SALT_SIZE, i requires 0 <= i => random(i))
  {
    salt := new Byte[SALT_SIZE];
    NextBytes(salt, random);
  }

  /** The value of `generateSalt()` for a given stream, for use in expressions. */
  function SaltOf(random: RandomStream): (salt: seq<Byte>)
    ensures |salt| == SALT_SIZE
  {
    seq(SALT_SIZE, i requires 0 <= i => random(i))
  }

  // ---------------------------------------------------------------------------
  // EncryptedData
  // ---------------------------------------------------------------------------

  /** Ciphertext (with its GCM tag) and the IV it was produced under. */
  datatype EncryptedData = EncryptedData(data: seq<Byte>, iv: seq<Byte>)

  /**
   * `EncryptedData.equals(other)`: `other` is `None` when it is null or not an
   * `EncryptedData`; otherwise both arrays are compared by content.
   */
  predicate Equals(self: EncryptedData, other: Option<EncryptedData>) {
    other.Some? && self.data == other.value.data && self.iv == other.value.iv
  }

  /** `ByteArray.contentHashCode()`, i.e. `java.util.Arrays.hashCode(byte[])`. */
  function ContentHashCode(a: seq<Byte>): (h: int)
    ensures IsInt32(h)
  {
    if a == [] then 1 else WrapInt32(31 * ContentHashCode(a[..|a| - 1]) + Signed(a[|a| - 1]))
  }

  /** `EncryptedData.hashCode()`. */
  function HashCode(self: EncryptedData): (h: int)
    ensures IsInt32(h)
  {
    WrapInt32(31 * ContentHashCode(self.data) + ContentHashCode(self.iv))
  }

  /** `equals` is content equality of both arrays, so it is an equivalence. */
  lemma EqualsIsContentEquality(a: EncryptedData, b: EncryptedData)
    ensures Equals(a, Some(b)) <==> a == b
    ensures Equals(a, Some(a))
    ensures Equals(a, Some(b)) ==> Equals(b, Some(a))
    ensures !Equals(a, None)
  {
  }

  /** `hashCode` is consistent with `equals`. */
  lemma HashCodeConsistent(a: EncryptedData, b: EncryptedData)
    requires Equals(a, Some(b))
    ensures HashCode(a) == HashCode(b)
  {
  }
}
