/**
 * `BackupManager`: the JSON backup envelope and its import, the "encrypted" backup
 * container, CSV export and backup file names.
 *
 * kotlinx.serialization is the pair of functions `json` (the JSON text itself is not
 * modelled); Base64 and UTF-8 come from `Codecs`. The clock and the `SecureRandom`
 * stream the salt is drawn from are parameters.
 */
module Backup {
  import opened Wrappers
  import opened Bytes
  import opened Text
  import opened Codecs
  import opened CryptoManager
  import opened Entities

  const BACKUP_VERSION: int := 1
  /** The column names of the CSV header line. */
  const CSV_COLUMNS: seq<string> :=
    ["Title", "Username", "Password", "URL", "Notes", "Category", "Favorite", "TOTP Secret", "Created", "Modified"]
  const FILE_PREFIX := "vaulto_backup_"

  // ---------------------------------------------------------------------------
  // Backup records and the item mapping
  // ---------------------------------------------------------------------------

  /** `BackupItem`: a vault item without `customFields` and `lastAccessedAt`. */
  datatype BackupItem = BackupItem(
    id: int,
    title: string,
    username: string,
    password: string,
    url: string,
    notes: string,
    category: string,
    isFavorite: bool,
    tags: seq<string>,
    totpSecret: string,
    hasTotp: bool,
    itemType: string,
    cardNumber: string,
    cardCvv: string,
    cardExpiry: string,
    cardHolder: string,
    createdAt: int,
    modifiedAt: int)

  /** `VaultBackup`: the envelope a JSON backup holds. */
  datatype VaultBackup = VaultBackup(version: int, exportDate: int, itemCount: int, items: seq<BackupItem>)

  /** `VaultItemEntity.toBackupItem()`. */
  function ToBackupItem(e: VaultItem): BackupItem {
    BackupItem(e.id, e.title, e.username, e.password, e.url, e.notes, e.category, e.isFavorite, e.tags,
      e.totpSecret, e.hasTotp, e.itemType, e.cardNumber, e.cardCvv, e.cardExpiry, e.cardHolder,
      e.createdAt, e.modifiedAt)
  }

  /** `BackupItem.toVaultItem()`: the id is reset to 0 so that Room assigns a new one. */
  function ToVaultItem(b: BackupItem): VaultItem {
    VaultItem(0, b.title, b.username, b.password, b.url, b.notes, b.category, b.isFavorite, b.tags,
      map[], b.totpSecret, b.hasTotp, b.itemType, b.cardNumber, b.cardCvv, b.cardExpiry, b.cardHolder,
      b.createdAt, b.modifiedAt, 0)
  }

  /** What a backup keeps of an item: everything but the id, the custom fields and the last-access time. */
  function Restored(e: VaultItem): VaultItem {
    e.(id := 0, customFields := map[], lastAccessedAt := 0)
  }

  /** Exporting then importing one item loses exactly its id, custom fields and last-access time. */
  lemma ItemRoundTrip(e: VaultItem)
    ensures ToVaultItem(ToBackupItem(e)) == Restored(e)
    ensures ToVaultItem(ToBackupItem(e)) == e <==> e.id == 0 && e.customFields == map[] && e.lastAccessedAt == 0
  {
  }

  /** The other way round only the id is lost. */
  lemma BackupItemRoundTrip(b: BackupItem)
    ensures ToBackupItem(ToVaultItem(b)) == b.(id := 0)
  {
  }

  // ---------------------------------------------------------------------------
  // JSON export and import
  // ---------------------------------------------------------------------------

  /** `json.encodeToString` and `json.decodeFromString<VaultBackup>`; decoding bad text throws. */
  datatype JsonFunctions = JsonFunctions(
    encode: VaultBackup -> string,
    decode: string -> Result<VaultBackup, string>)

  ghost predicate JsonRoundTrip(json: JsonFunctions) {
    forall b: VaultBackup :: json.decode(json.encode(b)) == Ok(b)
  }

  /** The envelope `exportToJson` serialises: version 1, the export time, the count and the items in order. */
  function Envelope(items: seq<VaultItem>, now: int): (b: VaultBackup)
    ensures b.version == BACKUP_VERSION && b.exportDate == now && b.itemCount == |items|
    ensures |b.items| == |items| && forall i :: 0 <= i < |items| ==> b.items[i] == ToBackupItem(items[i])
  {
    VaultBackup(BACKUP_VERSION, now, |items|, seq(|items|, i requires 0 <= i < |items| => ToBackupItem(items[i])))
  }

  /** `encryptBackup(data, password)`: Base64 of a fresh 32-byte salt followed by the UTF-8 data. */
  function EncryptBackup(b64: Base64Functions, utf8: Utf8Functions, data: string, password: string,
                         random: RandomStream): string
  {
    b64.encode(SaltOf(random) + utf8.encode(data))
  }

  /** `decryptBackup(text, password)`: Base64-decodes, drops the first 32 bytes and reads the rest as UTF-8. */
  function DecryptBackup(b64: Base64Functions, utf8: Utf8Functions, encryptedData: string, password: string)
    : Result<string, string>
  {
    match b64.decode(encryptedData)
    case Err(e) => Err(e)
    case Ok(bytes) => Ok(utf8.decode(if |bytes| <= SALT_SIZE then [] else bytes[SALT_SIZE..]))
  }

  /** The container is not encryption: any password opens what any password sealed. */
  lemma DecryptEncrypt(b64: Base64Functions, utf8: Utf8Functions, data: string, p: string, q: string,
                       random: RandomStream)
    requires Base64RoundTrip(b64) && Utf8RoundTrip(utf8)
    ensures DecryptBackup(b64, utf8, EncryptBackup(b64, utf8, data, p, random), q) == Ok(data)
  {
    var bytes := SaltOf(random) + utf8.encode(data);
    assert b64.decode(b64.encode(bytes)) == Ok(bytes);
    assert (if |bytes| <= SALT_SIZE then [] else bytes[SALT_SIZE..]) == utf8.encode(data);
  }

  /** `exportToJson(items, encrypted, password)`: the JSON envelope, sealed only when encryption is asked for and a password is given. */
  function ExportToJson(json: JsonFunctions, b64: Base64Functions, utf8: Utf8Functions, items: seq<VaultItem>,
                        encrypted: bool, password: Option<string>, now: int, random: RandomStream): string
  {
    var jsonString := json.encode(Envelope(items, now));
    if encrypted && password.Some? then EncryptBackup(b64, utf8, jsonString, password.value, random)
    else jsonString
  }

  /**
   * `importFromJson(text, password)`: with a password the text is first opened as a
   * container, falling back to the text itself when Base64 decoding throws; the
   * envelope's items are then mapped back, or the decoder's error is returned.
   */
  function ImportFromJson(json: JsonFunctions, b64: Base64Functions, utf8: Utf8Functions, jsonString: string,
                          password: Option<string>): (r: Result<seq<VaultItem>, string>)
    ensures r.Ok? <==> json.decode(JsonText(b64, utf8, jsonString, password)).Ok?
    ensures r.Ok? ==> forall i :: 0 <= i < |r.value| ==>
      r.value[i].id == 0 && r.value[i].customFields == map[] && r.value[i].lastAccessedAt == 0
  {
    var decryptedJson := JsonText(b64, utf8, jsonString, password);
    match json.decode(decryptedJson)
    case Err(e) => Err(e)
    case Ok(backup) => Ok(seq(|backup.items|, i requires 0 <= i < |backup.items| => ToVaultItem(backup.items[i])))
  }

  /** The JSON text an import reads. */
  function JsonText(b64: Base64Functions, utf8: Utf8Functions, jsonString: string, password: Option<string>): string {
    if password.None? then jsonString
    else match DecryptBackup(b64, utf8, jsonString, password.value)
      case Ok(d) => d
      case Err(_) => jsonString
  }

  /** Exporting without a password, even when encryption is asked for, gives the plain JSON envelope. */
  lemma EncryptedWithoutPasswordIsPlain(json: JsonFunctions, b64: Base64Functions, utf8: Utf8Functions,
                                        items: seq<VaultItem>, now: int, random: RandomStream)
    ensures ExportToJson(json, b64, utf8, items, true, None, now, random)
         == ExportToJson(json, b64, utf8, items, false, None, now, random)
         == json.encode(Envelope(items, now))
  {
  }

  /** A plain export imported without a password gives the items back, as far as a backup keeps them. */
  lemma PlainExportImport(json: JsonFunctions, b64: Base64Functions, utf8: Utf8Functions,
                          items: seq<VaultItem>, now: int, random: RandomStream)
    requires JsonRoundTrip(json)
    ensures ImportFromJson(json, b64, utf8, ExportToJson(json, b64, utf8, items, false, None, now, random), None)
         == Ok(seq(|items|, i requires 0 <= i < |items| => Restored(items[i])))
  {
    var env := Envelope(items, now);
    assert json.decode(json.encode(env)) == Ok(env);
    ImportedItems(items, now);
  }

  /** A sealed export imported with any password gives the items back, as far as a backup keeps them. */
  lemma SealedExportImport(json: JsonFunctions, b64: Base64Functions, utf8: Utf8Functions,
                           items: seq<VaultItem>, p: string, q: string, now: int, random: RandomStream)
    requires JsonRoundTrip(json) && Base64RoundTrip(b64) && Utf8RoundTrip(utf8)
    ensures ImportFromJson(json, b64, utf8, ExportToJson(json, b64, utf8, items, true, Some(p), now, random), Some(q))
         == Ok(seq(|items|, i requires 0 <= i < |items| => Restored(items[i])))
  {
    var env := Envelope(items, now);
    DecryptEncrypt(b64, utf8, json.encode(env), p, q, random);
    assert JsonText(b64, utf8, ExportToJson(json, b64, utf8, items, true, Some(p), now, random), Some(q))
      == json.encode(env);
    assert json.decode(json.encode(env)) == Ok(env);
    ImportedItems(items, now);
  }

  /** Mapping the envelope's items back gives the restored items. */
  lemma ImportedItems(items: seq<VaultItem>, now: int)
    ensures var env := Envelope(items, now);
      seq(|env.items|, i requires 0 <= i < |env.items| => ToVaultItem(env.items[i]))
      == seq(|items|, i requires 0 <= i < |items| => Restored(items[i]))
  {
    var env := Envelope(items, now);
    forall i | 0 <= i < |items|
      ensures ToVaultItem(env.items[i]) == Restored(items[i])
    {
      ItemRoundTrip(items[i]);
    }
  }

  /** When the text is not Base64, an import with a password reads it as plain JSON. */
  lemma ImportFallback(json: JsonFunctions, b64: Base64Functions, utf8: Utf8Functions, text: string, q: string)
    requires b64.decode(text).Err?
    ensures ImportFromJson(json, b64, utf8, text, Some(q)) == ImportFromJson(json, b64, utf8, text, None)
  {
  }

  // ---------------------------------------------------------------------------
  // CSV
  // ---------------------------------------------------------------------------

  /** `escapeCSV`: doubles each '"', turns each line feed into a space and drops each carriage return. */
  function EscapeCsv(s: string): (r: string)
    ensures '\n' !in r && '\r' !in r
  {
    var quotesDoubled := ReplaceChar(s, '"', "\"\"");
    var spaced := ReplaceChar(quotesDoubled, '\n', " ");
    ReplaceCharMembership(spaced, '\r', "", '\n');
    ReplaceChar(spaced, '\r', "")
  }

  /** The text with line feeds turned into spaces and carriage returns dropped. */
  function Flatten(s: string): string {
    ReplaceChar(ReplaceChar(s, '\n', " "), '\r', "")
  }

  /** The content of a quoted CSV field (section 2, rule 7 of RFC 4180): each `""` stands for one '"'. */
  function UnquoteField(s: string): string
    decreases |s|
  {
    if |s| >= 2 && s[0] == '"' && s[1] == '"' then "\"" + UnquoteField(s[2..])
    else if s == [] then []
    else [s[0]] + UnquoteField(s[1..])
  }

  lemma EscapeCsvConcat(a: string, b: string)
    ensures EscapeCsv(a + b) == EscapeCsv(a) + EscapeCsv(b)
    ensures Flatten(a + b) == Flatten(a) + Flatten(b)
  {
    ReplaceCharConcat(a, b, '"', "\"\"");
    ReplaceCharConcat(ReplaceChar(a, '"', "\"\""), ReplaceChar(b, '"', "\"\""), '\n', " ");
    ReplaceCharConcat(ReplaceChar(ReplaceChar(a, '"', "\"\""), '\n', " "),
      ReplaceChar(ReplaceChar(b, '"', "\"\""), '\n', " "), '\r', "");
    ReplaceCharConcat(a, b, '\n', " ");
    ReplaceCharConcat(ReplaceChar(a, '\n', " "), ReplaceChar(b, '\n', " "), '\r', "");
  }

  /** Escaping and flattening one character. */
  lemma EscapeSingle(x: char)
    ensures EscapeCsv([x]) == if x == '"' then "\"\"" else if x == '\n' then " " else if x == '\r' then "" else [x]
    ensures Flatten([x]) == if x == '\n' then " " else if x == '\r' then "" else [x]
  {
    ReplaceCharSingle(x, '"', "\"\"");
    if x == '"' {
      ReplaceCharAbsent("\"\"", '\n', " ");
      ReplaceCharAbsent("\"\"", '\r', "");
    } else {
      ReplaceCharSingle(x, '\n', " ");
      if x == '\n' {
        ReplaceCharAbsent(" ", '\r', "");
      } else {
        ReplaceCharSingle(x, '\r', "");
      }
    }
    ReplaceCharSingle(x, '\n', " ");
    if x == '\n' {
      ReplaceCharAbsent(" ", '\r', "");
    } else {
      ReplaceCharSingle(x, '\r', "");
    }
  }

  /**
   * Reading an escaped field back recovers the text up to the line-break changes:
   * quotes survive, and only line feeds (now spaces) and carriage returns are lost.
   */
  lemma {:induction false} UnquoteEscape(s: string)
    ensures UnquoteField(EscapeCsv(s)) == Flatten(s)
  {
    if s != [] {
      var x, t := s[0], s[1..];
      assert s == [x] + t;
      EscapeCsvConcat([x], t);
      UnquoteEscape(t);
      EscapeSingle(x);
      var e := EscapeCsv(t);
      if x == '"' {
        assert ("\"\"" + e)[2..] == e;
      } else if x == '\n' {
        assert (" " + e)[1..] == e;
      } else if x == '\r' {
        assert "" + e == e;
      } else {
        assert ([x] + e)[1..] == e;
      }
    }
  }

  function Quoted(s: string): string {
    "\"" + s + "\""
  }

  /** The ten fields of a row: escaped and quoted, except the category (quoted only), Yes/No and the two timestamps. */
  function CsvFields(item: VaultItem): (fields: seq<string>)
    ensures |fields| == 10
  {
    [Quoted(EscapeCsv(item.title)), Quoted(EscapeCsv(item.username)), Quoted(EscapeCsv(item.password)),
     Quoted(EscapeCsv(item.url)), Quoted(EscapeCsv(item.notes)), Quoted(item.category),
     if item.isFavorite then "Yes" else "No", Quoted(EscapeCsv(item.totpSecret)),
     IntToString(item.createdAt), IntToString(item.modifiedAt)]
  }

  /** Fields separated by commas. */
  function JoinFields(fields: seq<string>): string {
    if fields == [] then "" else if |fields| == 1 then fields[0] else fields[0] + "," + JoinFields(fields[1..])
  }

  /** The header line: `Title,Username,Password,URL,Notes,Category,Favorite,TOTP Secret,Created,Modified`. */
  const CSV_HEADER: string := JoinFields(CSV_COLUMNS) + "\n"

  /** One CSV row: its fields joined by commas, then a line feed. */
  function CsvRow(item: VaultItem): string {
    JoinFields(CsvFields(item)) + "\n"
  }

  /** The strings `f` gives for each element, concatenated in order. */
  function ConcatMap<T>(xs: seq<T>, f: T -> string): string {
    if xs == [] then [] else ConcatMap(xs[..|xs| - 1], f) + f(xs[|xs| - 1])
  }

  lemma ConcatMapSnoc<T>(xs: seq<T>, i: nat, f: T -> string)
    requires i < |xs|
    ensures ConcatMap(xs[..i + 1], f) == ConcatMap(xs[..i], f) + f(xs[i])
  {
    assert xs[..i + 1][..i] == xs[..i];
  }

  lemma AppendAssociative(a: string, b: string, c: string)
    ensures a + b + c == a + (b + c)
  {
  }

  function CsvRows(items: seq<VaultItem>): string {
    ConcatMap(items, CsvRow)
  }

  /** `exportToCsv`: the header, then one row per item in order. */
  method ExportToCsv(items: seq<VaultItem>) returns (csv: string)
    ensures csv == CSV_HEADER + CsvRows(items)
  {
    csv := CSV_HEADER;
    for i := 0 to |items|
      invariant csv == CSV_HEADER + ConcatMap(items[..i], CsvRow)
    {
      ConcatMapSnoc(items, i, CsvRow);
      AppendAssociative(CSV_HEADER, ConcatMap(items[..i], CsvRow), CsvRow(items[i]));
      csv := csv + CsvRow(items[i]);
    }
    assert items[..|items|] == items;
  }

  /** Line feeds in joined fields are those of the fields. */
  lemma {:induction false} JoinFieldsLineFeeds(fields: seq<string>)
    ensures CountChar(JoinFields(fields), '\n') == SumLineFeeds(fields)
  {
    if |fields| > 1 {
      JoinFieldsLineFeeds(fields[1..]);
      CountCharConcat(fields[0], ",", '\n');
      CountCharConcat(fields[0] + ",", JoinFields(fields[1..]), '\n');
    }
  }

  function SumLineFeeds(fields: seq<string>): nat {
    if fields == [] then 0 else CountChar(fields[0], '\n') + SumLineFeeds(fields[1..])
  }

  /** When only field `k` may hold line feeds, the fields hold exactly its line feeds. */
  lemma {:induction false} SumLineFeedsSingle(fields: seq<string>, k: nat)
    requires k < |fields|
    requires forall j :: 0 <= j < |fields| && j != k ==> '\n' !in fields[j]
    ensures SumLineFeeds(fields) == CountChar(fields[k], '\n')
  {
    if k == 0 {
      SumLineFeedsNone(fields[1..]);
    } else {
      SumLineFeedsSingle(fields[1..], k - 1);
    }
  }

  lemma {:induction false} SumLineFeedsNone(fields: seq<string>)
    requires forall j :: 0 <= j < |fields| ==> '\n' !in fields[j]
    ensures SumLineFeeds(fields) == 0
  {
    if fields != [] {
      SumLineFeedsNone(fields[1..]);
    }
  }

  /** A row ends in its only line feed unless the unescaped category brings one in. */
  lemma RowLineFeeds(item: VaultItem)
    ensures CountChar(CsvRow(item), '\n') == 1 + CountChar(item.category, '\n')
  {
    var f := CsvFields(item);
    NoLineFeedInNumber(item.createdAt);
    NoLineFeedInNumber(item.modifiedAt);
    assert forall j :: 0 <= j < |f| && j != 5 ==> '\n' !in f[j];
    SumLineFeedsSingle(f, 5);
    JoinFieldsLineFeeds(f);
    CountCharConcat(JoinFields(f), "\n", '\n');
    assert CountChar(Quoted(item.category), '\n') == CountChar(item.category, '\n') by {
      CountCharConcat("\"", item.category, '\n');
      CountCharConcat("\"" + item.category, "\"", '\n');
    }
  }

  lemma NoLineFeedInNumber(n: int)
    ensures '\n' !in IntToString(n)
  {
    var s := IntToString(n);
    if n < 0 {
      var digits := NatToString(-n);
      assert s == "-" + digits;
      assert forall i | 1 <= i < |s| :: s[i] == digits[i - 1];
    }
    assert forall i | 0 <= i < |s| :: s[i] == '-' || IsDigit(s[i]);
  }

  /**
   * When no category holds a line feed, the export has exactly one line per item after
   * the header; every other field is escaped, so only a category can break a row.
   */
  lemma CsvLineCount(items: seq<VaultItem>)
    requires forall i :: 0 <= i < |items| ==> '\n' !in items[i].category
    ensures CountChar(CSV_HEADER + CsvRows(items), '\n') == |items| + 1
  {
    CountCharConcat(CSV_HEADER, CsvRows(items), '\n');
    HeaderLineFeeds();
    RowsLineFeeds(items);
  }

  lemma HeaderLineFeeds()
    ensures CountChar(CSV_HEADER, '\n') == 1
  {
    assert forall j :: 0 <= j < |CSV_COLUMNS| ==> '\n' !in CSV_COLUMNS[j];
    SumLineFeedsNone(CSV_COLUMNS);
    JoinFieldsLineFeeds(CSV_COLUMNS);
    CountCharConcat(JoinFields(CSV_COLUMNS), "\n", '\n');
  }

  lemma {:induction false} RowsLineFeeds(items: seq<VaultItem>)
    requires forall i :: 0 <= i < |items| ==> '\n' !in items[i].category
    ensures CountChar(CsvRows(items), '\n') == |items|
  {
    if items != [] {
      var init := items[..|items| - 1];
      RowsLineFeeds(init);
      RowLineFeeds(items[|items| - 1]);
      assert CsvRows(items) == CsvRows(init) + CsvRow(items[|items| - 1]);
      CountCharConcat(CsvRows(init), CsvRow(items[|items| - 1]), '\n');
    }
  }

  // ---------------------------------------------------------------------------
  // File names
  // ---------------------------------------------------------------------------

  /** `generateBackupFileName(encrypted)`; `timestamp` is the current time formatted as `yyyy-MM-dd_HH-mm-ss`. */
  function BackupFileName(encrypted: bool, timestamp: string): (name: string)
    ensures FILE_PREFIX <= name
  {
    FILE_PREFIX + timestamp + "." + (if encrypted then "vaulto" else "json")
  }

  /** The extension tells the two kinds apart: ".vaulto" exactly for encrypted backups, ".json" otherwise. */
  lemma FileNameExtension(encrypted: bool, timestamp: string)
    ensures var name := BackupFileName(encrypted, timestamp);
      (encrypted <==> |name| >= 7 && name[|name| - 7..] == ".vaulto") &&
      (!encrypted <==> |name| >= 5 && name[|name| - 5..] == ".json")
  {
    var name := BackupFileName(encrypted, timestamp);
    if encrypted {
      assert name[|name| - 7..] == ".vaulto";
      assert name[|name| - 5..] == "aulto";
    } else {
      assert name[|name| - 5..] == ".json";
      assert |name| >= 7 ==> name[|name| - 7..][2] == '.';
    }
  }
}
