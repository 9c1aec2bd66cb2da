# Vaulto, modelled in Dafny

Vaulto is an Android password manager. This project models the deterministic rules inside it and proves properties of them. Clocks, random bytes and cryptographic primitives become parameters.

What the model covers:

- **TOTP engine** (`totp_generator.dfy`):
  - the time-step counter (section 4.2 of RFC 6238);
  - the 8-byte big-endian counter message;
  - dynamic truncation (section 5.3 of RFC 4226);
  - the zero-padded code, the remaining-seconds arithmetic and secret normalisation.
  - HMAC-SHA1 and Base32 decoding are function parameters. The only assumption is that the MAC is 20 bytes.
- **Crypto helpers** (`crypto_manager.dfy`):
  - PBKDF2 hashing as a parameter, and password verification;
  - salt and random-byte generation over a random stream;
  - `EncryptedData` equality and its 32-bit hash code.
- **Password generator** (`generator.dfy`):
  - the character pool and the ambiguous-character filter;
  - byte-to-index selection by `mod`, as written, with its bias counted;
  - entropy and the strength levels, history capping and length clamping;
  - the view model's state transitions.
- **Master password** (`auth.dfy`): the length/variety classifier and the setup/unlock state machine over stored Base64 hash and salt.
- **Backup** (`backup.dfy`):
  - the export envelope and the entity↔backup-item mapping with its lossy round trip;
  - the salt-prefix "encryption", which never checks the password, and the import fallback;
  - CSV escaping and the CSV export loop;
  - file names.
- **Password health** (`health.dfy`):
  - the strength score;
  - the weak, reused and old classification loops;
  - the security score;
  - the rating and colour bands of the health screen.
- **Autofill service** (`autofill.dfy`):
  - field classification from HTML attributes, hints and input type, over a tree of view nodes;
    the input-type step is the flag test as the service writes it (see "## Findings"), and the masked comparison it evidently intends is modelled beside it;
  - save-request aggregation and the create-or-update decision;
  - de-duplication of matches, domain extraction and browser detection.
- **Screens**:
  - the TOTP list filter, new-item construction and add dialog (`totp.dfy`); the dialog checks the secret with `validateSecret` as written (see "## Findings");
  - the vault list's category filter, five sort orders, count label, body selection and category chips (`vault_list.dfy`);
  - the add/edit form state machine and save (`vault_view_model.dfy`);
  - the settings state and auto-lock label (`settings.dfy`);
  - the navigation routes (`nav_routes.dfy`).
- **Shared modules**:
  - `wrappers.dfy` (Option/Result), `bytes.dfy` (bytes, big-endian, 32-bit wrap-around), `codecs.dfy` (parameter types of the foreign codecs);
  - `text.dfy` (ASCII classes, decimal numerals, string order), `collections.dfy` (`filter`, `distinctBy`, `flatten`), `sorting.dfy` (stable `sortedBy`);
  - `entities.dfy` (`VaultItemEntity` and the screen states with their Kotlin defaults).

How Kotlin semantics are modelled:

- Kotlin `Long` `/` and `%` truncate toward zero; the model writes them out and proves them equal to floor division for a non-negative clock.
- Kotlin `Double` values are exact reals.
- Where the source mutates a list or a `StringBuilder` in a loop, the model has a method with that loop, proved equal to a specification function.
- State holders are classes whose methods are proved against functions of the old state.
- A coroutine that collects a flow is modelled by one emission, passed in as a parameter.

## Model

| member | source | states |
|---|---|---|
| TotpGenerator.TimeCounterIsFloor | app/src/main/java/com/example/vaulto/util/crypto/TOTPGenerator.kt:17 | for a non-negative clock the Long divisions `ms / 1000 / step` equal floor division and the counter is non-negative |
| TotpGenerator.TimeCounterWindow | app/src/main/java/com/example/vaulto/util/crypto/TOTPGenerator.kt:17 | the counter c of a time satisfies `c*step*1000 <= ms < (c+1)*step*1000`: it is the index of the 30-second window |
| TotpGenerator.SameWindowSameCounter | app/src/main/java/com/example/vaulto/util/crypto/TOTPGenerator.kt:17 | two times in the same window get the same counter (RFC 6238 section 4.2) |
| TotpGenerator.WindowDeterminesCounter | app/src/main/java/com/example/vaulto/util/crypto/TOTPGenerator.kt:17 | a time in window c gets counter c |
| TotpGenerator.CounterMessage | app/src/main/java/com/example/vaulto/util/crypto/TOTPGenerator.kt:34 | the HMAC message is exactly 8 bytes |
| TotpGenerator.CounterMessageRoundTrip | app/src/main/java/com/example/vaulto/util/crypto/TOTPGenerator.kt:34 | the 8 message bytes read back big-endian as the counter, for every counter below 2^64 |
| TotpGenerator.TruncationOffset | app/src/main/java/com/example/vaulto/util/crypto/TOTPGenerator.kt:36 | the offset is the low nibble of the last byte: at most 15, so offset+3 stays inside the 20-byte MAC |
| TotpGenerator.DynamicTruncation | app/src/main/java/com/example/vaulto/util/crypto/TOTPGenerator.kt:38-41 | the truncated value is below 2^31 and is the big-endian value of the four bytes at the offset with the top bit of the first cleared |
| TotpGenerator.GenerateCode | app/src/main/java/com/example/vaulto/util/crypto/TOTPGenerator.kt:33-45 | fails with "Empty key" exactly when the key is empty; otherwise the code has exactly `digits` decimal characters and its value is the truncated MAC modulo 10^digits |
| TotpGenerator.Mac | app/src/main/java/com/example/vaulto/util/crypto/TOTPGenerator.kt:47-51 | `SecretKeySpec` rejects exactly the empty key, with "Empty key"; any other key gives the 20-byte MAC |
| TotpGenerator.PaddedValue | app/src/main/java/com/example/vaulto/util/crypto/TOTPGenerator.kt:44 | left-padding with '0' keeps a numeral all-digit and keeps its value |
| TotpGenerator.GenerateTotp | app/src/main/java/com/example/vaulto/util/crypto/TOTPGenerator.kt:15-20 | a code is produced exactly when the normalised secret decodes to a non-empty key, and then has 6 decimal digits; a secret decoding to no bytes fails with "Empty key" |
| TotpGenerator.RemainingSecondsBounds | app/src/main/java/com/example/vaulto/util/crypto/TOTPGenerator.kt:22-26 | remaining seconds are `step - (t mod step)` and lie in [1, step] for a non-negative clock |
| TotpGenerator.RemainingSecondsUntilNextStep | app/src/main/java/com/example/vaulto/util/crypto/TOTPGenerator.kt:22-26 | after r-1 more seconds the counter is unchanged and after r seconds it has advanced by one |
| TotpGenerator.Progress | app/src/main/java/com/example/vaulto/util/crypto/TOTPGenerator.kt:28-31 | the progress fraction lies in (0, 1] for a non-negative clock |
| TotpGenerator.ValidateSecretMatchesGenerate | app/src/main/java/com/example/vaulto/util/crypto/TOTPGenerator.kt:53-61 | `generateTOTP` produces a code exactly when `validateSecret` holds and the key decodes non-empty; the corrected check accepts exactly the secrets that give codes |
| TotpGenerator.ValidateSecretAcceptsEmptyKey | app/src/main/java/com/example/vaulto/util/crypto/TOTPGenerator.kt:47-61 | a secret such as "A" that decodes to no bytes passes `validateSecret` as written, fails the corrected check, and makes `generateTOTP` fail with "Empty key" |
| TotpGenerator.NormalizeSecretIdempotent | app/src/main/java/com/example/vaulto/util/crypto/TOTPGenerator.kt:16 | removing spaces and upper-casing twice is the same as once |
| CryptoManager.HashPassword | app/src/main/java/com/example/vaulto/util/crypto/CryptoManager.kt:70-79 | fails with `PBEKeySpec`'s message exactly when the salt is empty; otherwise the PBKDF2 hash is 32 bytes (256 bits) |
| CryptoManager.VerifyPassword | app/src/main/java/com/example/vaulto/util/crypto/CryptoManager.kt:87-94 | fails exactly on an empty salt; otherwise true exactly when the stored hash equals the hash of the input under the salt |
| CryptoManager.VerifyOwnHash | app/src/main/java/com/example/vaulto/util/crypto/CryptoManager.kt:87-94 | a password verifies against its own hash whenever that hash can be derived |
| CryptoManager.NextBytes | app/src/main/java/com/example/vaulto/util/crypto/CryptoManager.kt:81-85 | the array is filled in place, byte i from the random stream's i-th draw |
| CryptoManager.GenerateSecureRandom | app/src/main/java/com/example/vaulto/util/crypto/CryptoManager.kt:96-100 | a fresh array of `size` bytes drawn from the stream |
| CryptoManager.GenerateSalt | app/src/main/java/com/example/vaulto/util/crypto/CryptoManager.kt:81-85 | a fresh array of 32 bytes drawn from the stream |
| CryptoManager.EqualsIsContentEquality | app/src/main/java/com/example/vaulto/util/crypto/CryptoManager.kt:107-117 | `equals` is content equality of data and iv; it is reflexive and symmetric and false for null |
| CryptoManager.HashCodeConsistent | app/src/main/java/com/example/vaulto/util/crypto/CryptoManager.kt:119-123 | equal values have equal 32-bit hash codes |
| CryptoManager.HashCode | app/src/main/java/com/example/vaulto/util/crypto/CryptoManager.kt:119-123 | the hash code is a 32-bit integer (wrapping `31 * result + ...`) |
| Generator.FromEntropy | app/src/main/java/com/example/vaulto/ui/screens/generator/GeneratorState.kt:25-34 | the level is the highest whose minimum entropy is at or below the entropy (VERY_WEAK otherwise) |
| Generator.MinEntropyIncreasing | app/src/main/java/com/example/vaulto/ui/screens/generator/GeneratorState.kt:16-22 | the levels' minimum entropies strictly increase with their rank |
| Generator.FromEntropyMonotone | app/src/main/java/com/example/vaulto/ui/screens/generator/GeneratorState.kt:26-33 | more entropy never gives a weaker level |
| Generator.FromEntropyExtremes | app/src/main/java/com/example/vaulto/ui/screens/generator/GeneratorState.kt:27-32 | below 28 bits is VERY_WEAK, and from 100 bits on is VERY_STRONG, both ways |
| Generator.BuildCharacterPool | app/src/main/java/com/example/vaulto/ui/screens/generator/GeneratorViewModel.kt:64-85 | the method's StringBuilder result equals the specification pool: enabled classes in the order upper, lower, digits, symbols, then the ambiguous filter |
| Generator.RemoveAll | app/src/main/java/com/example/vaulto/ui/screens/generator/GeneratorViewModel.kt:80-82 | `filterNot { it in ambiguous }` keeps exactly the characters not excluded |
| Generator.PoolMembership | app/src/main/java/com/example/vaulto/ui/screens/generator/GeneratorViewModel.kt:71-82 | a character is in the pool iff its class is enabled and, with exclusion on, it is not one of "il1Lo0O" |
| Generator.PoolSize | app/src/main/java/com/example/vaulto/ui/screens/generator/GeneratorViewModel.kt:71-78 | without exclusion the pool has 26/26/10/26 characters per enabled class |
| Generator.PoolEmptyIff | app/src/main/java/com/example/vaulto/ui/screens/generator/GeneratorViewModel.kt:64-85 | the pool is empty iff all four classes are off, so the ambiguity filter never empties it |
| Generator.SecurePassword | app/src/main/java/com/example/vaulto/ui/screens/generator/GeneratorViewModel.kt:87-97 | the password has exactly `length` characters, each from the pool |
| Generator.GenerateSecurePassword | app/src/main/java/com/example/vaulto/ui/screens/generator/GeneratorViewModel.kt:87-97 | the loop builds character i as `pool[byte_i mod \|pool\|]`, equal to the specification |
| Generator.ModuloBias | app/src/main/java/com/example/vaulto/ui/screens/generator/GeneratorViewModel.kt:92 | `byte mod n` hits pool index i for `256/n` byte values, plus one when `i < 256 mod n` |
| Generator.DefaultPoolBias | app/src/main/java/com/example/vaulto/ui/screens/generator/GeneratorViewModel.kt:92 | for the default 88-character pool the first 80 characters are drawn 3/256 of the time and the last 8 only 2/256 |
| Generator.Entropy | app/src/main/java/com/example/vaulto/ui/screens/generator/GeneratorViewModel.kt:99-102 | entropy is non-negative and 0 when the pool size or length is 0 |
| Generator.EntropyMonotone | app/src/main/java/com/example/vaulto/ui/screens/generator/GeneratorViewModel.kt:99-102 | a bigger pool or a longer password never lowers entropy or the strength level |
| Generator.NewHistory | app/src/main/java/com/example/vaulto/ui/screens/generator/GeneratorViewModel.kt:51 | the new password heads the history, the rest follows in order, at most 10 entries |
| Generator.CoerceLength | app/src/main/java/com/example/vaulto/ui/screens/generator/GeneratorViewModel.kt:105 | `coerceIn(4, 128)`: the result is in [4,128], equal to the length inside, the nearer bound outside |
| Generator.GeneratedProperties | app/src/main/java/com/example/vaulto/ui/screens/generator/GeneratorViewModel.kt:31-62 | generating keeps the settings; with an empty pool only the password changes, to ""; otherwise the password has the length, uses pool characters, heads the history (at most 10) and the strength follows the entropy |
| Generator.GeneratedHistoryBound | app/src/main/java/com/example/vaulto/ui/screens/generator/GeneratorViewModel.kt:51 | the history never grows beyond 10 |
| Generator.GeneratorViewModel.GeneratePassword | app/src/main/java/com/example/vaulto/ui/screens/generator/GeneratorViewModel.kt:31-62 | the new state is the specification's `Generated` of the old |
| Generator.GeneratorViewModel.UpdateLength | app/src/main/java/com/example/vaulto/ui/screens/generator/GeneratorViewModel.kt:104-107 | the length is clamped, then a password is generated |
| Generator.GeneratorViewModel.ToggleUppercase | app/src/main/java/com/example/vaulto/ui/screens/generator/GeneratorViewModel.kt:109-112 | flips exactly `useUppercase`, then generates |
| Generator.GeneratorViewModel.ToggleLowercase | app/src/main/java/com/example/vaulto/ui/screens/generator/GeneratorViewModel.kt:114-117 | flips exactly `useLowercase`, then generates |
| Generator.GeneratorViewModel.ToggleNumbers | app/src/main/java/com/example/vaulto/ui/screens/generator/GeneratorViewModel.kt:119-122 | flips exactly `useNumbers`, then generates |
| Generator.GeneratorViewModel.ToggleSymbols | app/src/main/java/com/example/vaulto/ui/screens/generator/GeneratorViewModel.kt:124-127 | flips exactly `useSymbols`, then generates |
| Generator.GeneratorViewModel.ToggleExcludeAmbiguous | app/src/main/java/com/example/vaulto/ui/screens/generator/GeneratorViewModel.kt:129-132 | flips exactly `excludeAmbiguous`, then generates |
| Generator.GeneratorViewModel.RestoreFromHistory | app/src/main/java/com/example/vaulto/ui/screens/generator/GeneratorViewModel.kt:134-155 | shows the password with the current pool's entropy at its length and sets the length; history untouched |
| Generator.DefaultPoolIsFull | app/src/main/java/com/example/vaulto/ui/screens/generator/GeneratorState.kt:3-14 | the default settings give an 88-character pool and a first 16-character password that is the whole history |
| Generator.GeneratorViewModel.constructor | app/src/main/java/com/example/vaulto/ui/screens/generator/GeneratorViewModel.kt:27-29 | the first state is a password generated from the default settings |
| Auth.StrengthLevels | app/src/main/java/com/example/vaulto/ui/screens/auth/AuthViewModel.kt:23-32 | each strength level characterised by length and variety, both directions; 12-19 characters without variety rate VERY_STRONG |
| Auth.VariedNeedsThreeCharacters | app/src/main/java/com/example/vaulto/ui/screens/auth/AuthViewModel.kt:34-40 | a varied password has at least 3 characters |
| Auth.StoredCredentialsVerify | app/src/main/java/com/example/vaulto/ui/screens/auth/AuthViewModel.kt:63-69 | the Base64 strings saved at setup decode back to the hash and salt, and the password verifies against them |
| Auth.AuthViewModel.CheckPasswordStrength | app/src/main/java/com/example/vaulto/ui/screens/auth/AuthViewModel.kt:23-32 | stores the strength of the password and changes nothing else |
| Auth.AuthViewModel.SetupMasterPassword | app/src/main/java/com/example/vaulto/ui/screens/auth/AuthViewModel.kt:42-82 | mismatch, then too short (< 8), each with its message and no write; otherwise the hash and salt of a fresh salt are saved as Base64 and the user is authenticated |
| Auth.AuthViewModel.VerifyMasterPassword | app/src/main/java/com/example/vaulto/ui/screens/auth/AuthViewModel.kt:84-122 | no stored hash: "No master password set"; undecodable, or a salt decoding to no bytes: "Authentication failed: " and the exception message; otherwise authenticated exactly when the password verifies, else "Incorrect password" |
| Auth.AuthViewModel.ClearError | app/src/main/java/com/example/vaulto/ui/screens/auth/AuthViewModel.kt:124-126 | clears only the error message |
| Auth.AuthViewModel.SetError | app/src/main/java/com/example/vaulto/ui/screens/auth/AuthViewModel.kt:128-130 | sets only the error message |
| Auth.AuthViewModel.AuthenticateWithBiometric | app/src/main/java/com/example/vaulto/ui/screens/auth/AuthViewModel.kt:132-139 | authenticates and stops loading; nothing else changes |
| Auth.SetupThenUnlock | app/src/main/java/com/example/vaulto/ui/screens/auth/AuthViewModel.kt:42-122 | after setup, unlocking with the same password succeeds; another password succeeds only on a PBKDF2 collision |
| Backup.ItemRoundTrip | app/src/main/java/com/example/vaulto/util/backup/BackupManager.kt:134-174 | restoring a backed-up item resets id, custom fields and last access and keeps every other field; the round trip is the identity exactly for items with those defaults |
| Backup.BackupItemRoundTrip | app/src/main/java/com/example/vaulto/util/backup/BackupManager.kt:134-174 | a backup item survives restore and re-export except its id, which becomes 0 |
| Backup.Envelope | app/src/main/java/com/example/vaulto/util/backup/BackupManager.kt:23-28 | version 1, the export time, the item count, and one backup item per item in order |
| Backup.DecryptEncrypt | app/src/main/java/com/example/vaulto/util/backup/BackupManager.kt:81-97 | decryption with ANY password recovers what any password sealed: the salt is dropped and the derived key is never used |
| Backup.ImportFromJson | app/src/main/java/com/example/vaulto/util/backup/BackupManager.kt:59-72 | import succeeds exactly when the (possibly decrypted) text parses; every imported item has id 0, no custom fields and last access 0 |
| Backup.EncryptedWithoutPasswordIsPlain | app/src/main/java/com/example/vaulto/util/backup/BackupManager.kt:32-36 | asking for encryption without a password exports plain JSON |
| Backup.PlainExportImport | app/src/main/java/com/example/vaulto/util/backup/BackupManager.kt:18-72 | a plain export imports back as the restored items |
| Backup.SealedExportImport | app/src/main/java/com/example/vaulto/util/backup/BackupManager.kt:18-97 | a sealed export imports back with any password as the restored items |
| Backup.ImportFallback | app/src/main/java/com/example/vaulto/util/backup/BackupManager.kt:60-65 | when the text is not Base64, importing with a password is the same as importing without |
| Backup.EscapeCsv | app/src/main/java/com/example/vaulto/util/backup/BackupManager.kt:99-101 | an escaped field holds no line feed or carriage return |
| Backup.UnquoteEscape | app/src/main/java/com/example/vaulto/util/backup/BackupManager.kt:99-101 | undoing the doubled quotes of an escaped field gives the field with CR removed and LF turned into a space |
| Backup.ExportToCsv | app/src/main/java/com/example/vaulto/util/backup/BackupManager.kt:39-57 | the loop output is the header followed by one row per item, in order |
| Backup.RowLineFeeds | app/src/main/java/com/example/vaulto/util/backup/BackupManager.kt:43-53 | a row holds one line feed plus those of its category, the only field written unescaped |
| Backup.CsvLineCount | app/src/main/java/com/example/vaulto/util/backup/BackupManager.kt:39-57 | when no category holds a line feed, the export has exactly one line per item after the header |
| Backup.FileNameExtension | app/src/main/java/com/example/vaulto/util/backup/BackupManager.kt:74-79 | the name ends in ".vaulto" exactly for encrypted backups and in ".json" otherwise |
| Backup.BackupFileName | app/src/main/java/com/example/vaulto/util/backup/BackupManager.kt:78 | the name starts with "vaulto_backup_" |
| Backup.ImportedItems | app/src/main/java/com/example/vaulto/util/backup/BackupManager.kt:71 | mapping an export's backup items back gives each original item with id, custom fields and last access reset |
| Health.LengthPoints | app/src/main/java/com/example/vaulto/ui/screens/health/PasswordHealthViewModel.kt:87-91 | 30 points exactly from 16 characters; the awards are 0/10/20/30 |
| Health.Strength | app/src/main/java/com/example/vaulto/ui/screens/health/PasswordHealthViewModel.kt:81-100 | the score lies in [0,100] and is 0 for the empty password |
| Health.CalculatePasswordStrength | app/src/main/java/com/example/vaulto/ui/screens/health/PasswordHealthViewModel.kt:81-100 | the mutable-score method equals the specification and lies in [0,100] |
| Health.StrengthIsPerfect | app/src/main/java/com/example/vaulto/ui/screens/health/PasswordHealthViewModel.kt:81-100 | the clamp never bites; the score is 100 iff length >= 16 and all four classes occur |
| Health.PerfectPasswordExists | app/src/main/java/com/example/vaulto/ui/screens/health/PasswordHealthViewModel.kt:81-100 | "Aa1!Aa1!Aa1!Aa1!" scores 100 |
| Health.ShortPlainPasswordIsWeak | app/src/main/java/com/example/vaulto/ui/screens/health/PasswordHealthViewModel.kt:37 | a password under 12 characters with no symbol and at most one other class is weak (< 40) |
| Health.GroupKeys | app/src/main/java/com/example/vaulto/ui/screens/health/PasswordHealthViewModel.kt:43 | the `groupBy` keys are exactly the passwords in use, each once |
| Health.ReusedMembership | app/src/main/java/com/example/vaulto/ui/screens/health/PasswordHealthViewModel.kt:43-48 | an item is collected as reused iff its password is non-empty and shared by more than one item |
| Health.CollectWeak | app/src/main/java/com/example/vaulto/ui/screens/health/PasswordHealthViewModel.kt:35-40 | the loop collects exactly the weak items, in order |
| Health.CollectReused | app/src/main/java/com/example/vaulto/ui/screens/health/PasswordHealthViewModel.kt:43-48 | the loop collects the reused groups in first-occurrence order |
| Health.CollectOld | app/src/main/java/com/example/vaulto/ui/screens/health/PasswordHealthViewModel.kt:51-56 | the loop collects exactly the items modified more than 90 days before now |
| Health.SecurityScore | app/src/main/java/com/example/vaulto/ui/screens/health/PasswordHealthViewModel.kt:59-62 | the score lies in [0,100] |
| Health.SecurityScoreInIntegers | app/src/main/java/com/example/vaulto/ui/screens/health/PasswordHealthViewModel.kt:59-62 | the score is 0 when issues reach the total, else `100*(total-issues)/total` in integer division |
| Health.PerfectScoreIffNoIssues | app/src/main/java/com/example/vaulto/ui/screens/health/PasswordHealthViewModel.kt:59-62 | the score is 100 iff there are no issues |
| Health.SecurityScoreAntitone | app/src/main/java/com/example/vaulto/ui/screens/health/PasswordHealthViewModel.kt:59-62 | more issues never raise the score |
| Health.AnalysisListsIssues | app/src/main/java/com/example/vaulto/ui/screens/health/PasswordHealthViewModel.kt:30-69 | each list holds exactly the items with that issue (the reused list up to id, after `distinctBy`) |
| Health.AnalysisScore | app/src/main/java/com/example/vaulto/ui/screens/health/PasswordHealthViewModel.kt:59-71 | the analysed score is 100 iff all three lists are empty |
| Health.EmptyPasswordIsWeakNotReused | app/src/main/java/com/example/vaulto/ui/screens/health/PasswordHealthViewModel.kt:37-45 | an empty password is listed as weak and never as reused |
| Health.PasswordHealthViewModel.AnalyzePasswords | app/src/main/java/com/example/vaulto/ui/screens/health/PasswordHealthViewModel.kt:23-79 | on load the state becomes the analysis of the items; on failure loading stops and the message is shown |
| Health.Band | app/src/main/java/com/example/vaulto/ui/screens/health/PasswordHealthScreen.kt:140-154 | the band (0..4) counts the thresholds 20/40/60/80 the score reaches |
| Health.RatingAndColourFollowBand | app/src/main/java/com/example/vaulto/ui/screens/health/PasswordHealthScreen.kt:140-154 | rating and colour are both chosen by the band |
| Health.RatingAgreesWithColour | app/src/main/java/com/example/vaulto/ui/screens/health/PasswordHealthScreen.kt:140-154 | two scores get the same rating iff they get the same colour |
| Health.RatingMonotone | app/src/main/java/com/example/vaulto/ui/screens/health/PasswordHealthScreen.kt:148-154 | a higher score never gets a lower band |
| Autofill.FindAttribute | app/src/main/java/com/example/vaulto/service/VaultoAutofillService.kt:137-145 | an attribute is found iff one with that name is present, and its value is then that of the first attribute with the name |
| Autofill.HtmlClassificationOrder | app/src/main/java/com/example/vaulto/service/VaultoAutofillService.kt:146-156 | type=password wins; then type=email; otherwise name/id mentions of user, email, pass; none matched iff no rule applies |
| Autofill.PlatformHintsClassified | app/src/main/java/com/example/vaulto/service/VaultoAutofillService.kt:172-193 | the platform hints "username", "emailAddress" and "password" are classified as such |
| Autofill.InputTypeFieldTypeAsWritten | app/src/main/java/com/example/vaulto/service/VaultoAutofillService.kt:196-215 | the fallback as written reports a password field iff bit 0x80 is set, and an e-mail field iff bit 0x80 is clear and a bit of 0xf0 is set; never a username or URL |
| Autofill.InputTypeFlagTestMisclassifies | app/src/main/java/com/example/vaulto/service/VaultoAutofillService.kt:199-201 | web e-mail 0xd1 is a password as written but e-mail when corrected; 0x11 and 0x61 are e-mail as written and unclassified when corrected |
| Autofill.InputTypeFieldType | app/src/main/java/com/example/vaulto/service/VaultoAutofillService.kt:196-215 | password iff the masked variation is PASSWORD, VISIBLE_PASSWORD or WEB_PASSWORD; e-mail iff it is EMAIL_ADDRESS or WEB_EMAIL_ADDRESS |
| Autofill.PasswordVariationsAgree | app/src/main/java/com/example/vaulto/service/VaultoAutofillService.kt:199 | on the three password variations the flag test as written and the masked comparison both report a password field |
| Autofill.InputTypeIgnoresFlags | app/src/main/java/com/example/vaulto/service/VaultoAutofillService.kt:196-215 | bits outside the variation mask never change the classification |
| Autofill.OwnFieldsAppend | app/src/main/java/com/example/vaulto/service/VaultoAutofillService.kt:137-215 | a node only appends, at most two fields, each carrying the node's own autofill id; a node without an id adds nothing; the input-type fallback runs only when the HTML and hint steps added nothing |
| Autofill.ParseAppendsWithoutUrl | app/src/main/java/com/example/vaulto/service/VaultoAutofillService.kt:131-220 | parsing only appends, and never adds a URL field |
| Autofill.ParseChildrenAppendsWithoutUrl | app/src/main/java/com/example/vaulto/service/VaultoAutofillService.kt:217-219 | the children loop only appends, and never adds a URL field |
| Autofill.ParseNode | app/src/main/java/com/example/vaulto/service/VaultoAutofillService.kt:131-220 | the recursive method with its children loop equals the specification `Parse`, whose input-type step is the flag test as written |
| Autofill.PlainInputParsed | app/src/main/java/com/example/vaulto/service/VaultoAutofillService.kt:131-220 | a single node with an id, a text value and no hints or HTML yields exactly the field the flag test as written assigns, with that text |
| Autofill.FallbackFieldsSaved | app/src/main/java/com/example/vaulto/service/VaultoAutofillService.kt:71-82 | through the whole save pipeline, the text of a web e-mail field 0xd1 and of a visible-password field 0x91 is saved as the password, and that of a URI field 0x11 as the username |
| Autofill.ParseWindowsWithoutUrl | app/src/main/java/com/example/vaulto/service/VaultoAutofillService.kt:120-129 | the fields parsed from a screen hold no URL field |
| Autofill.ParseAutofillFields | app/src/main/java/com/example/vaulto/service/VaultoAutofillService.kt:120-129 | the loop over windows equals the specification |
| Autofill.AggregateLastWins | app/src/main/java/com/example/vaulto/service/VaultoAutofillService.kt:71-82 | the saved password and URL are the last such fields' text; the username is the last username unless an e-mail field fills it |
| Autofill.EmailKeepsUsername | app/src/main/java/com/example/vaulto/service/VaultoAutofillService.kt:77 | an e-mail field never overwrites a username already found |
| Autofill.AggregateSaveFields | app/src/main/java/com/example/vaulto/service/VaultoAutofillService.kt:71-82 | the loop equals the specification aggregation |
| Autofill.OnSaveRequest | app/src/main/java/com/example/vaulto/service/VaultoAutofillService.kt:60-118 | the outcome is the save decision on the aggregated fields, including the failure message when the insert or update throws |
| Autofill.SaveOutcomes | app/src/main/java/com/example/vaulto/service/VaultoAutofillService.kt:84-116 | failure iff no password, the search failed or the write threw, with "Failed to save: " and the exception message in the last two cases; an insert has id 0, the app name, the password, the package name as URL (parsing never yields a URL field) and category Web or Apps; an update keeps the first match's id, sets the password and modification time, and keeps its username unless a new one was typed |
| Autofill.FindMatchingProperties | app/src/main/java/com/example/vaulto/service/VaultoAutofillService.kt:222-235 | matches come from the searches, carry distinct ids, and every id found is represented |
| Autofill.FindMatchingKeepsFirst | app/src/main/java/com/example/vaulto/service/VaultoAutofillService.kt:222-235 | each match is the first item with its id in the package, then app-name, then URL results |
| Autofill.FindMatchingPackageFirst | app/src/main/java/com/example/vaulto/service/VaultoAutofillService.kt:231 | package-name matches with distinct ids come first, in order |
| Autofill.IsWebBrowserMarkers | app/src/main/java/com/example/vaulto/service/VaultoAutofillService.kt:353-361 | a package is a browser iff it contains one of the markers |
| Autofill.MarkerMakesBrowser | app/src/main/java/com/example/vaulto/service/VaultoAutofillService.kt:353-361 | any package containing a marker is a browser |
| Autofill.ExtractDomain | app/src/main/java/com/example/vaulto/service/VaultoAutofillService.kt:363-369 | the domain holds no dot and occurs in the package name |
| Autofill.ExtractDomainOfQualifiedName | app/src/main/java/com/example/vaulto/service/VaultoAutofillService.kt:363-369 | for "com.<name>.<rest>" with a dot-free name other than org/net, the domain is the name |
| Totp.TotpItems | app/src/main/java/com/example/vaulto/ui/screens/totp/TOTPViewModel.kt:23 | an item is listed iff it has TOTP on and a non-empty secret |
| Totp.NewTotpItem | app/src/main/java/com/example/vaulto/ui/screens/totp/TOTPViewModel.kt:33-41 | the new item has no password, the normalised secret, TOTP on, category "Authenticator" and notes "2FA Authenticator Code" |
| Totp.StoredSecretGeneratesSameCode | app/src/main/java/com/example/vaulto/ui/screens/totp/TOTPViewModel.kt:37 | the stored secret generates the same code as the one typed |
| Totp.NewItemListedIffSecretNotBlank | app/src/main/java/com/example/vaulto/ui/screens/totp/TOTPViewModel.kt:23-41 | an added code is listed iff the typed secret has a character other than a space |
| Totp.TotpViewModel.LoadTotpItems | app/src/main/java/com/example/vaulto/ui/screens/totp/TOTPViewModel.kt:20-28 | the state holds the filtered items |
| Totp.TotpViewModel.AddTotpCode | app/src/main/java/com/example/vaulto/ui/screens/totp/TOTPViewModel.kt:30-47 | returns the item handed to the repository, the specification item, and leaves the state to the next list emission |
| Totp.ConfirmErrorOrder | app/src/main/java/com/example/vaulto/ui/screens/totp/AddTOTPDialog.kt:105-120 | name first, then secret presence, then format; confirm passes iff the secret validates, a confirmed secret gives codes iff its key decodes non-empty, and a rejected format never gives a code |
| Totp.AddTotpDialog.OnConfirm | app/src/main/java/com/example/vaulto/ui/screens/totp/AddTOTPDialog.kt:105-120 | adds the raw inputs exactly when no check fails; otherwise the first failing check's message is shown |
| Totp.AddTotpDialog.OnSecretChange | app/src/main/java/com/example/vaulto/ui/screens/totp/AddTOTPDialog.kt:50-53 | editing the secret clears the error |
| Totp.AddTotpDialog.OnTitleChange | app/src/main/java/com/example/vaulto/ui/screens/totp/AddTOTPDialog.kt:32 | editing the title leaves the error |
| Totp.AddTotpDialog.OnUsernameChange | app/src/main/java/com/example/vaulto/ui/screens/totp/AddTOTPDialog.kt:41 | editing the account leaves the error |
| VaultList.FilterCategory | app/src/main/java/com/example/vaulto/ui/screens/vault/VaultListScreen.kt:42-46 | "All" keeps every item; any other category keeps exactly the items of that category |
| VaultList.FilteredItemsPermutation | app/src/main/java/com/example/vaulto/ui/screens/vault/VaultListScreen.kt:48-54 | the list shown is a permutation of the filtered list |
| VaultList.FilteredItemsOrdered | app/src/main/java/com/example/vaulto/ui/screens/vault/VaultListScreen.kt:48-54 | name ascending/descending by lower-cased title, dates newest first, category ascending |
| VaultList.DateSortStable | app/src/main/java/com/example/vaulto/ui/screens/vault/VaultListScreen.kt:51-52 | items with equal timestamps keep their filtered order |
| VaultList.TextSortStable | app/src/main/java/com/example/vaulto/ui/screens/vault/VaultListScreen.kt:49-53 | items with equal lower-cased titles or equal categories keep their filtered order |
| VaultList.CountLabelReadsBack | app/src/main/java/com/example/vaulto/ui/screens/vault/VaultListScreen.kt:79 | the label starts with the count, which reads back, and ends in 's' iff the count is not 1 |
| VaultList.SelectBodyCases | app/src/main/java/com/example/vaulto/ui/screens/vault/VaultListScreen.kt:133-175 | loading wins; the list shows iff something matched; the empty vault only under "All"; the empty-category view iff no item has the chosen category |
| VaultList.DisplayNamesDistinct | app/src/main/java/com/example/vaulto/ui/screens/vault/VaultListComponents.kt:131-137 | the five sort orders have distinct display names |
| VaultList.CategoryChipsMembership | app/src/main/java/com/example/vaulto/ui/screens/vault/VaultListComponents.kt:23 | the chips after "All" are exactly the items' categories |
| VaultList.CategoryChipsOnce | app/src/main/java/com/example/vaulto/ui/screens/vault/VaultListComponents.kt:23 | each category chip appears once |
| VaultList.CategoryChipsAscending | app/src/main/java/com/example/vaulto/ui/screens/vault/VaultListComponents.kt:23 | the category chips are strictly ascending |
| VaultList.ChipCountsSumToItems | app/src/main/java/com/example/vaulto/ui/screens/vault/VaultListComponents.kt:23-38 | the category chips' counts add up to the item count, which is the "All" chip's count |
| VaultList.ChipCountPositive | app/src/main/java/com/example/vaulto/ui/screens/vault/VaultListComponents.kt:34-38 | every category chip counts at least one item |
| VaultList.AllChipOnce | app/src/main/java/com/example/vaulto/ui/screens/vault/VaultListComponents.kt:23-41 | "All" appears once (so one chip is selected for it) iff no item is filed under "All"; every other chip appears once |
| VaultViewModel.EditTouchesOnlyForm | app/src/main/java/com/example/vaulto/ui/screens/vault/VaultViewModel.kt:148-174 | each setter changes only its own form field; the toggle flips the favourite |
| VaultViewModel.ToggleFavoriteTwice | app/src/main/java/com/example/vaulto/ui/screens/vault/VaultViewModel.kt:172-174 | toggling twice restores the state |
| VaultViewModel.AfterLoadCases | app/src/main/java/com/example/vaulto/ui/screens/vault/VaultViewModel.kt:116-146 | an item fills the form and ends loading; a missing item leaves the form (and loading on); an error ends loading with its message |
| VaultViewModel.SaveWithoutTitle | app/src/main/java/com/example/vaulto/ui/screens/vault/VaultViewModel.kt:180-183 | an empty title writes nothing, sets "Title is required" and leaves isSaved and the form |
| VaultViewModel.EditedItemKeepsIdentity | app/src/main/java/com/example/vaulto/ui/screens/vault/VaultViewModel.kt:187-208 | editing updates the loaded item with the form, keeping id, creation time, tags and TOTP, with the new modification time |
| VaultViewModel.NewItemFromForm | app/src/main/java/com/example/vaulto/ui/screens/vault/VaultViewModel.kt:197-211 | a new item is inserted with the form's fields, id 0 and both timestamps at the save time |
| VaultViewModel.LoadThenSaveUpdatesSameItem | app/src/main/java/com/example/vaulto/ui/screens/vault/VaultViewModel.kt:128-208 | loading then saving unedited updates the same item with only its modification time changed |
| VaultViewModel.SaveOutcome | app/src/main/java/com/example/vaulto/ui/screens/vault/VaultViewModel.kt:213-227 | a save ends loading; it is saved with no error when the write succeeds, else shows the exception message |
| VaultViewModel.VaultViewModel.LoadItemForEdit | app/src/main/java/com/example/vaulto/ui/screens/vault/VaultViewModel.kt:116-146 | the state after one load result is the specification's |
| VaultViewModel.VaultViewModel.SaveItem | app/src/main/java/com/example/vaulto/ui/screens/vault/VaultViewModel.kt:176-229 | returns the repository write and the new state, both as specified |
| VaultViewModel.VaultViewModel.ClearAddEditState | app/src/main/java/com/example/vaulto/ui/screens/vault/VaultViewModel.kt:231-233 | resets to the default add/edit state |
| VaultViewModel.VaultViewModel.UpdateTitle | app/src/main/java/com/example/vaulto/ui/screens/vault/VaultViewModel.kt:148-150 | sets only the title |
| VaultViewModel.VaultViewModel.ToggleFavorite | app/src/main/java/com/example/vaulto/ui/screens/vault/VaultViewModel.kt:172-174 | flips only the favourite |
| VaultViewModel.VaultViewModel.UpdateUsername | app/src/main/java/com/example/vaulto/ui/screens/vault/VaultViewModel.kt:152-154 | sets only the username |
| VaultViewModel.VaultViewModel.UpdatePassword | app/src/main/java/com/example/vaulto/ui/screens/vault/VaultViewModel.kt:156-158 | sets only the password |
| VaultViewModel.VaultViewModel.UpdateUrl | app/src/main/java/com/example/vaulto/ui/screens/vault/VaultViewModel.kt:160-162 | sets only the URL |
| VaultViewModel.VaultViewModel.UpdateNotes | app/src/main/java/com/example/vaulto/ui/screens/vault/VaultViewModel.kt:164-166 | sets only the notes |
| VaultViewModel.VaultViewModel.UpdateCategory | app/src/main/java/com/example/vaulto/ui/screens/vault/VaultViewModel.kt:168-170 | sets only the category |
| Settings.AutoLockLabelReadsBack | app/src/main/java/com/example/vaulto/ui/screens/settings/SettingsViewModel.kt:76-86 | every label reads back as its timeout: the presets by name, others as "<n> ms" |
| Settings.AutoLockLabelInjective | app/src/main/java/com/example/vaulto/ui/screens/settings/SettingsViewModel.kt:76-86 | different timeouts never share a label |
| Settings.DefaultLabelMatches | app/src/main/java/com/example/vaulto/ui/screens/settings/SettingsViewModel.kt:89-98 | the default state's label is the label of its timeout |
| Settings.SettingsViewModel.SetAutoLockTimeout | app/src/main/java/com/example/vaulto/ui/screens/settings/SettingsViewModel.kt:49-59 | persists the timeout; the state keeps the label invariant |
| Settings.SettingsViewModel.OnAutoLockTimeout | app/src/main/java/com/example/vaulto/ui/screens/settings/SettingsViewModel.kt:29-37 | a stored timeout updates timeout and label together |
| Settings.SettingsViewModel.ToggleBiometric | app/src/main/java/com/example/vaulto/ui/screens/settings/SettingsViewModel.kt:41-47 | persists and shows the negation of the current flag |
| Settings.SettingsViewModel.SetTheme | app/src/main/java/com/example/vaulto/ui/screens/settings/SettingsViewModel.kt:61-66 | theme and theme label become the same value, persisted |
| Settings.SettingsViewModel.ToggleDynamicColors | app/src/main/java/com/example/vaulto/ui/screens/settings/SettingsViewModel.kt:68-70 | flips only the dynamic-colours flag |
| Settings.SettingsViewModel.ToggleShowPasswordOnCopy | app/src/main/java/com/example/vaulto/ui/screens/settings/SettingsViewModel.kt:72-74 | flips only the show-on-copy flag |
| Settings.SettingsViewModel.OnBiometricEnabled | app/src/main/java/com/example/vaulto/ui/screens/settings/SettingsViewModel.kt:25-27 | a stored biometric flag changes only that flag |
| NavRoutes.RoutesDistinct | app/src/main/java/com/example/vaulto/ui/navigation/NavRoutes.kt:4-17 | the nine route strings are pairwise distinct |
| NavRoutes.VaultDetailRouteReadsBack | app/src/main/java/com/example/vaulto/ui/navigation/NavRoutes.kt:8 | "vault_detail/" + id reads back as the id |
| NavRoutes.AddEditRouteReadsBack | app/src/main/java/com/example/vaulto/ui/navigation/NavRoutes.kt:11-12 | "add_edit" reads back as no id and "add_edit?itemId=" + id as the id |
| NavRoutes.AddEditRouteDefault | app/src/main/java/com/example/vaulto/ui/navigation/NavRoutes.kt:11 | with no argument the route is "add_edit" |
| Entities.NewVaultItem | app/src/main/java/com/example/vaulto/data/local/entities/VaultItemEntity.kt:10-32 | every defaulted column of a new item: id 0, category "General", type "password", both timestamps now |
| Sorting.SortByPermutes | app/src/main/java/com/example/vaulto/ui/screens/vault/VaultListScreen.kt:48-54 | `sortedBy` only rearranges |
| Sorting.SortBySorted | app/src/main/java/com/example/vaulto/ui/screens/vault/VaultListScreen.kt:48-54 | under a total order the result is sorted |
| Sorting.SortByStable | app/src/main/java/com/example/vaulto/ui/screens/vault/VaultListScreen.kt:48-54 | equal keys keep their input order |
| Collections.DistinctByProperties | app/src/main/java/com/example/vaulto/service/VaultoAutofillService.kt:231 | `distinctBy` keeps elements of the input, with pairwise distinct keys, and represents every key |
| Collections.DistinctByMembership | app/src/main/java/com/example/vaulto/ui/screens/health/PasswordHealthViewModel.kt:68 | `distinctBy` keeps only input elements and keeps one element for every key |
| Collections.DistinctByFirstOccurrences | app/src/main/java/com/example/vaulto/service/VaultoAutofillService.kt:231 | the k-th result is the input element at the k-th of strictly increasing positions, and no earlier input element has its key: first occurrences, in input order |
| Collections.DistinctByKeepsFirst | app/src/main/java/com/example/vaulto/ui/screens/health/PasswordHealthViewModel.kt:68 | every result is an input element no earlier element of which shares its key |

## Left out

- Floating point:
  - `Double`/`Float` values (entropy, `log2`, the TOTP progress fraction, the health issue ratio) are exact reals;
  - `log2` is a parameter with only monotonicity assumed;
  - float rounding in the security score is not modelled (see the next line).
- Health.SecurityScore, Health.SecurityScoreInIntegers: the app computes `((1 - issues.toFloat() / total) * 100).toInt()` in 32-bit floats, so at many exact fractions its score is one lower than the model's. With 3 issues among 5 passwords the product is 39.999996 and the app shows 39, where the model gives 40. The same happens for 4 of 5 (19, not 20) and 17 of 20 (14, not 15).
- Foreign primitives are parameters: HMAC-SHA1, Base32 decoding, PBKDF2, Base64, UTF-8, the JSON encoder/decoder, `SecureRandom`, `System.currentTimeMillis`.
  - The JSON text format itself is not modelled.
  - Only the round-trip properties the lemmas need are assumed, as requires of those lemmas.
- Room queries (`searchItems`, `getAllItems`, `getItemById`) and the repository:
  - a query's result, or its failure, is a parameter;
  - a write is returned as a value instead of being applied to a database.
- Coroutines, `Flow` and `StateFlow`: each collector is modelled by one emission; concurrency between launched coroutines is not modelled.
- `VaultViewModel` list and detail operations (`loadAllItems`, `searchItems`, `loadItemById`, `deleteItem`, the delete dialog) and their `_listState`/`_detailState`: not modelled, because they only forward repository flows.
- `encryptBackup` derives a PBKDF2 key and discards it; the derivation is not modelled because it has no effect on the output.
- The timestamp format inside backup file names is a parameter (a `SimpleDateFormat` string).
- `onFillRequest`, `createFillResponse`, `getAppName` and the remote-view presentation of the autofill service: Android framework calls with no rule of their own.
- Auth.StrengthLevels, Auth.AuthViewModel.CheckPasswordStrength, Auth.AuthViewModel.SetupMasterPassword: a length is the number of Unicode scalar values, while Kotlin's `String.length` counts UTF-16 code units. A character outside the Basic Multilingual Plane counts 1 here and 2 in Kotlin, so the tiers and the `< 8` check agree only on strings inside that plane.
- Health.LengthPoints, Health.Strength: the same, for the length thresholds 8, 12 and 16.
- VaultList.FilteredItemsOrdered, Text.StrLe: strings are compared by Unicode scalar values, while Kotlin's `compareTo` compares UTF-16 code units. The two orders agree inside the Basic Multilingual Plane and can differ between a supplementary character and one in U+E000..U+FFFF.
- CryptoManager.GenerateSecureRandom: the size is a `nat`; the negative size on which `ByteArray(size)` throws is not modelled. Its one caller passes the generator's password length, which the model keeps a `nat` as well.
- Character classes and case mappings are restricted to ASCII: Kotlin's `isUpperCase`, `isLowerCase`, `isDigit`, `isLetterOrDigit`, `uppercase()`, `lowercase()` (the vault list's name sort key, `VaultList.FilteredItemsOrdered`) and `contains(..., ignoreCase = true)` (the autofill hint and attribute tests, `Text.ContainsIgnoreCase`) are Unicode-aware.
- Settings timeouts are unbounded integers; Kotlin `Int` overflow of a timeout is not modelled.
- Auth.AuthViewModel.SetupMasterPassword: the `catch` around setup is not modelled. The salt is always 32 bytes, so PBKDF2 cannot reject it, and the other primitives are total functions.
- TotpGenerator.GenerateCode: the code length is limited to 1..9 digits, the range in which Kotlin's `Int` power of ten does not overflow. The app always uses 6.
- Compose layout, icons, colours as values, snackbars and dialogs other than the add-TOTP dialog are UI only.

## Findings

| source | as written | input that shows it | evidently intended | confidence | as-written member | corrected member |
|---|---|---|---|---|---|---|
| app/src/main/java/com/example/vaulto/util/crypto/TOTPGenerator.kt:53-61 | `validateSecret` only checks that Base32 decoding does not throw, but `hmacSha1` (lines 47-50) also needs a non-empty key for `SecretKeySpec`. | With commons-codec's lenient Base32, the secret "A" decodes to no bytes. `validateSecret("A")` is true, so the add-code dialog stores it, and `generateTOTP` then throws "Empty key" when the TOTP screen shows the code. | Accept a secret only when it decodes to a non-empty key. | not executed | TotpGenerator.ValidateSecret, TotpGenerator.ValidateSecretAcceptsEmptyKey | TotpGenerator.ValidateSecretNonEmptyKey, TotpGenerator.ValidateSecretMatchesGenerate |
| app/src/main/java/com/example/vaulto/service/VaultoAutofillService.kt:199-201 | The input-type fallback tests the enumerated variation constants as bit flags (`inputType and VARIATION != 0`). | Web e-mail field `0xd1` has bit `0x80` set, so it is classified as a password field. A URI field `0x11` and a person-name field `0x61` share bits with `0xd0` and `0x20`, so they are classified as e-mail fields. | Compare the masked variation `inputType and TYPE_MASK_VARIATION` with each constant. | not executed | Autofill.InputTypeFieldTypeAsWritten, Autofill.InputTypeFlagTestMisclassifies, Autofill.FallbackFieldsSaved | Autofill.InputTypeFieldType, Autofill.PasswordVariationsAgree |
