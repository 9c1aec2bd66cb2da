/**
 * The autofill service's rules: how a screen's view tree is read into
 * username/email/password fields, how a save request turns those fields into a
 * new or updated vault item, how stored credentials are matched to an app, and
 * the package-name helpers behind both.
 */
module Autofill {
  import opened Wrappers
  import opened Text
  import opened Collections
  import Entities

  type VaultItem = Entities.VaultItem

  // ---------------------------------------------------------------------------
  // The view tree of an `AssistStructure`
  // ---------------------------------------------------------------------------

  /** An `AutofillId`: only compared for identity. */
  type AutofillId = int

  /** An `AutofillValue`: text, or a toggle/list/date value. */
  datatype AutofillValue = TextValue(text: string) | OtherValue

  /** A node's `HtmlInfo`: the tag and the (nullable) attribute pairs. */
  datatype HtmlInfo = HtmlInfo(tag: string, attributes: Option<seq<(string, string)>>)

  /** An `AssistStructure.ViewNode` with the properties `parseNode` reads. */
  datatype ViewNode = ViewNode(
    autofillHints: Option<seq<string>>,
    autofillId: Option<AutofillId>,
    htmlInfo: Option<HtmlInfo>,
    inputType: bv32,
    text: Option<string>,
    autofillValue: Option<AutofillValue>,
    children: seq<ViewNode>)

  /** The `autofillType` strings the service uses. */
  datatype FieldType = Username | Email | Password | Url

  /** `AutofillField`. */
  datatype AutofillField = AutofillField(
    autofillId: AutofillId,
    autofillType: FieldType,
    autofillValue: Option<AutofillValue>,
    hint: string)

  // ---------------------------------------------------------------------------
  // Classification
  // ---------------------------------------------------------------------------

  /** `attributes.find { it.first == name }?.second`. */
  function FindAttribute(attributes: seq<(string, string)>, name: string): (r: Option<string>)
    ensures r.Some? <==> exists i :: 0 <= i < |attributes| && attributes[i].0 == name
    ensures r.Some? ==>
      exists i :: 0 <= i < |attributes| && attributes[i] == (name, r.value) && forall j :: 0 <= j < i ==> attributes[j].0 != name
  {
    if attributes == [] then None
    else if attributes[0].0 == name then Some(attributes[0].1)
    else
      var r := FindAttribute(attributes[1..], name);
      assert forall i :: 0 <= i < |attributes| - 1 ==> attributes[1..][i] == attributes[i + 1];
      r
  }

  /** `value?.contains(word, ignoreCase = true) == true`. */
  predicate Mentions(value: Option<string>, word: string) {
    value.Some? && ContainsIgnoreCase(value.value, word)
  }

  /** The field type of an HTML `input` from its `type`, `name` and `id` attributes. */
  function HtmlFieldType(attributes: seq<(string, string)>): Option<FieldType> {
    var kind := FindAttribute(attributes, "type");
    var name := FindAttribute(attributes, "name");
    var id := FindAttribute(attributes, "id");
    if kind == Some("password") then Some(Password)
    else if kind == Some("email") then Some(Email)
    else if Mentions(name, "user") then Some(Username)
    else if Mentions(name, "email") then Some(Email)
    else if Mentions(name, "pass") then Some(Password)
    else if Mentions(id, "user") then Some(Username)
    else if Mentions(id, "email") then Some(Email)
    else if Mentions(id, "pass") then Some(Password)
    else None
  }

  /** The hint recorded for an HTML field: `name ?: id ?: type ?: ""`. */
  function HtmlHint(attributes: seq<(string, string)>): string {
    var name := FindAttribute(attributes, "name");
    var id := FindAttribute(attributes, "id");
    var kind := FindAttribute(attributes, "type");
    if name.Some? then name.value else if id.Some? then id.value else kind.GetOr("")
  }

  /**
   * The declared `type` attribute decides first; otherwise the `name` attribute
   * is searched for "user", "email", "pass" in that order, and only when the name
   * mentions none of them is the `id` attribute searched the same way.
   */
  lemma HtmlClassificationOrder(attributes: seq<(string, string)>)
    ensures var kind := FindAttribute(attributes, "type");
      kind == Some("password") ==> HtmlFieldType(attributes) == Some(Password)
    ensures var kind := FindAttribute(attributes, "type");
      var name := FindAttribute(attributes, "name");
      kind != Some("password") && kind != Some("email") && Mentions(name, "user") ==>
        HtmlFieldType(attributes) == Some(Username)
    ensures var kind := FindAttribute(attributes, "type");
      var name := FindAttribute(attributes, "name");
      var id := FindAttribute(attributes, "id");
      HtmlFieldType(attributes).None? <==>
        kind != Some("password") && kind != Some("email")
        && !Mentions(name, "user") && !Mentions(name, "email") && !Mentions(name, "pass")
        && !Mentions(id, "user") && !Mentions(id, "email") && !Mentions(id, "pass")
  {
  }

  /** The field type of the first autofill hint: "username", then "email", then "password". */
  function HintFieldType(hint: string): Option<FieldType> {
    if ContainsIgnoreCase(hint, "username") then Some(Username)
    else if ContainsIgnoreCase(hint, "email") then Some(Email)
    else if ContainsIgnoreCase(hint, "password") then Some(Password)
    else None
  }

  /** The platform's hint constants are classified as their names say. */
  lemma PlatformHintsClassified()
    ensures HintFieldType("username") == Some(Username)
    ensures HintFieldType("emailAddress") == Some(Email)
    ensures HintFieldType("password") == Some(Password)
  {
    LowercaseOfLower("username");
    LowercaseOfLower("email");
    LowercaseOfLower("password");
    var e := "emailAddress";
    LowercasePrefix(e, 5);
    assert e[..5] == "email";
    assert "email" <= Lowercase(e);
    NotInLowercase(e, 'u');
    NotContainsMissingHead(Lowercase(e), "username");
    NotContainsMissingHead("password", "username");
    NotContainsMissingHead("password", "email");
  }

  /** `InputType` constants used by the fallback (android.text.InputType). */
  const TYPE_MASK_VARIATION: bv32 := 0xff0
  const TYPE_TEXT_VARIATION_EMAIL_ADDRESS: bv32 := 0x20
  const TYPE_TEXT_VARIATION_PASSWORD: bv32 := 0x80
  const TYPE_TEXT_VARIATION_WEB_EMAIL_ADDRESS: bv32 := 0xd0
  const TYPE_TEXT_VARIATION_VISIBLE_PASSWORD: bv32 := 0x90
  const TYPE_TEXT_VARIATION_WEB_PASSWORD: bv32 := 0xe0

  /**
   * The fallback as written: each variation constant is tested as a bit flag
   * (`inputType and VARIATION != 0`).
   */
  function InputTypeFieldTypeAsWritten(inputType: bv32): (r: Option<FieldType>)
    ensures r == Some(Password) <==> inputType & TYPE_TEXT_VARIATION_PASSWORD != 0
    ensures r == Some(Email) <==>
      inputType & TYPE_TEXT_VARIATION_PASSWORD == 0 && inputType & 0xf0 != 0
    ensures r != Some(Username) && r != Some(Url)
  {
    if inputType & TYPE_TEXT_VARIATION_PASSWORD != 0 then Some(Password)
    else if inputType & TYPE_TEXT_VARIATION_EMAIL_ADDRESS != 0 then Some(Email)
    else if inputType & TYPE_TEXT_VARIATION_WEB_EMAIL_ADDRESS != 0 then Some(Email)
    else None
  }

  /**
   * Variations are an enumerated four-bit field, not flags: a web e-mail field
   * (class text, variation 0xd0) shares the 0x80 bit and is taken for a password,
   * and a URI field (variation 0x10) or a person-name field (0x60) for an e-mail.
   */
  lemma InputTypeFlagTestMisclassifies()
    ensures InputTypeFieldTypeAsWritten(0x1 | TYPE_TEXT_VARIATION_WEB_EMAIL_ADDRESS) == Some(Password)
    ensures InputTypeFieldTypeAsWritten(0x11) == Some(Email)
    ensures InputTypeFieldTypeAsWritten(0x61) == Some(Email)
    ensures InputTypeFieldType(0x1 | TYPE_TEXT_VARIATION_WEB_EMAIL_ADDRESS) == Some(Email)
    ensures InputTypeFieldType(0x11) == None && InputTypeFieldType(0x61) == None
  {
  }

  /**
   * The fallback as intended: the variation field is compared with the three
   * password variations and the two e-mail variations.
   */
  function InputTypeFieldType(inputType: bv32): (r: Option<FieldType>)
    ensures r == Some(Password) <==>
      inputType & TYPE_MASK_VARIATION == TYPE_TEXT_VARIATION_PASSWORD
      || inputType & TYPE_MASK_VARIATION == TYPE_TEXT_VARIATION_VISIBLE_PASSWORD
      || inputType & TYPE_MASK_VARIATION == TYPE_TEXT_VARIATION_WEB_PASSWORD
    ensures r == Some(Email) <==>
      inputType & TYPE_MASK_VARIATION == TYPE_TEXT_VARIATION_EMAIL_ADDRESS
      || inputType & TYPE_MASK_VARIATION == TYPE_TEXT_VARIATION_WEB_EMAIL_ADDRESS
    ensures r != Some(Username) && r != Some(Url)
  {
    var variation := inputType & TYPE_MASK_VARIATION;
    if variation == TYPE_TEXT_VARIATION_PASSWORD || variation == TYPE_TEXT_VARIATION_VISIBLE_PASSWORD
      || variation == TYPE_TEXT_VARIATION_WEB_PASSWORD then Some(Password)
    else if variation == TYPE_TEXT_VARIATION_EMAIL_ADDRESS then Some(Email)
    else if variation == TYPE_TEXT_VARIATION_WEB_EMAIL_ADDRESS then Some(Email)
    else None
  }

  /**
   * The flag test does catch every password variation, as the corrected
   * comparison does: each of them has the 0x80 bit.
   */
  lemma PasswordVariationsAgree(inputType: bv32)
    requires inputType & TYPE_MASK_VARIATION == TYPE_TEXT_VARIATION_PASSWORD
      || inputType & TYPE_MASK_VARIATION == TYPE_TEXT_VARIATION_VISIBLE_PASSWORD
      || inputType & TYPE_MASK_VARIATION == TYPE_TEXT_VARIATION_WEB_PASSWORD
    ensures InputTypeFieldTypeAsWritten(inputType) == InputTypeFieldType(inputType) == Some(Password)
  {
    assert inputType & TYPE_TEXT_VARIATION_PASSWORD == (inputType & TYPE_MASK_VARIATION) & TYPE_TEXT_VARIATION_PASSWORD;
  }

  /** The flags and the class bits outside the variation field do not change the result. */
  lemma InputTypeIgnoresFlags(inputType: bv32, flags: bv32)
    requires flags & TYPE_MASK_VARIATION == 0
    ensures InputTypeFieldType(inputType | flags) == InputTypeFieldType(inputType)
  {
    assert (inputType | flags) & TYPE_MASK_VARIATION
      == (inputType & TYPE_MASK_VARIATION) | (flags & TYPE_MASK_VARIATION);
  }

  // ---------------------------------------------------------------------------
  // parseNode
  // ---------------------------------------------------------------------------

  predicate HasFieldWithId(fields: seq<AutofillField>, id: AutofillId) {
    exists i :: 0 <= i < |fields| && fields[i].autofillId == id
  }

  /** The HTML step: an `input` tag with attributes and a recognised type adds one field. */
  function HtmlStep(fields: seq<AutofillField>, node: ViewNode): seq<AutofillField> {
    if node.htmlInfo.Some? && node.autofillId.Some?
      && node.htmlInfo.value.tag == "input" && node.htmlInfo.value.attributes.Some?
      && HtmlFieldType(node.htmlInfo.value.attributes.value).Some?
    then
      var attributes := node.htmlInfo.value.attributes.value;
      fields + [AutofillField(node.autofillId.value, HtmlFieldType(attributes).value,
        node.autofillValue, HtmlHint(attributes))]
    else fields
  }

  /** The hint step: a recognised first hint adds one field. */
  function HintStep(fields: seq<AutofillField>, node: ViewNode): seq<AutofillField> {
    if node.autofillHints.Some? && node.autofillId.Some? && |node.autofillHints.value| > 0
      && HintFieldType(node.autofillHints.value[0]).Some?
    then
      var hint := node.autofillHints.value[0];
      fields + [AutofillField(node.autofillId.value, HintFieldType(hint).value, node.autofillValue, hint)]
    else fields
  }

  /**
   * The input-type step, with the flag test as written: only for a node none of
   * whose fields was collected yet.
   */
  function FallbackStep(fields: seq<AutofillField>, node: ViewNode): seq<AutofillField> {
    if node.autofillId.Some? && !HasFieldWithId(fields, node.autofillId.value)
      && InputTypeFieldTypeAsWritten(node.inputType).Some?
    then
      fields + [AutofillField(node.autofillId.value, InputTypeFieldTypeAsWritten(node.inputType).value,
        node.autofillValue, node.text.GetOr(""))]
    else fields
  }

  /** The fields one node contributes, before its children are visited. */
  function OwnFields(fields: seq<AutofillField>, node: ViewNode): seq<AutofillField> {
    FallbackStep(HintStep(HtmlStep(fields, node), node), node)
  }

  /**
   * A node only ever appends fields for its own id, and the input-type fallback
   * adds one only when neither the HTML nor the hint step did and no earlier
   * field has that id.
   */
  lemma OwnFieldsAppend(fields: seq<AutofillField>, node: ViewNode)
    ensures var r := OwnFields(fields, node);
      && fields <= r && |r| <= |fields| + 2
      && (forall i :: |fields| <= i < |r| ==> node.autofillId == Some(r[i].autofillId))
      && (node.autofillId.None? ==> r == fields)
      && (|HintStep(HtmlStep(fields, node), node)| > |fields| ==> r == HintStep(HtmlStep(fields, node), node))
  {
    var afterHtml := HtmlStep(fields, node);
    var afterHint := HintStep(afterHtml, node);
    if |afterHint| > |fields| {
      assert afterHint[|afterHint| - 1].autofillId == node.autofillId.value;
      assert HasFieldWithId(afterHint, node.autofillId.value);
    }
  }

  /** `parseNode(node, fields)`: the node's own fields, then each child's subtree in order. */
  function Parse(fields: seq<AutofillField>, node: ViewNode): seq<AutofillField>
    decreases node, |node.children| + 1
  {
    ParseChildren(OwnFields(fields, node), node, |node.children|)
  }

  /** The fields after visiting the first `k` children of `node`. */
  function ParseChildren(fields: seq<AutofillField>, node: ViewNode, k: nat): seq<AutofillField>
    requires k <= |node.children|
    decreases node, k
  {
    if k == 0 then fields
    else Parse(ParseChildren(fields, node, k - 1), node.children[k - 1])
  }

  predicate NoUrlField(fields: seq<AutofillField>) {
    forall i :: 0 <= i < |fields| ==> fields[i].autofillType != Url
  }

  /**
   * Parsing only appends, and never produces a "url" field: the three
   * classifiers return username, email or password only.
   */
  lemma {:induction false} ParseAppendsWithoutUrl(fields: seq<AutofillField>, node: ViewNode)
    ensures fields <= Parse(fields, node)
    ensures NoUrlField(fields) ==> NoUrlField(Parse(fields, node))
    decreases node, |node.children| + 1
  {
    OwnFieldsAppend(fields, node);
    ParseChildrenAppendsWithoutUrl(OwnFields(fields, node), node, |node.children|);
  }

  lemma {:induction false} ParseChildrenAppendsWithoutUrl(fields: seq<AutofillField>, node: ViewNode, k: nat)
    requires k <= |node.children|
    ensures fields <= ParseChildren(fields, node, k)
    ensures NoUrlField(fields) ==> NoUrlField(ParseChildren(fields, node, k))
    decreases node, k
  {
    if k > 0 {
      ParseChildrenAppendsWithoutUrl(fields, node, k - 1);
      ParseAppendsWithoutUrl(ParseChildren(fields, node, k - 1), node.children[k - 1]);
    }
  }

  /** `parseNode`, appending to the field list and recursing into the children. */
  method ParseNode(node: ViewNode, fields: seq<AutofillField>) returns (result: seq<AutofillField>)
    ensures result == Parse(fields, node)
    decreases node
  {
    result := fields;
    if node.htmlInfo.Some? && node.autofillId.Some? {
      var info := node.htmlInfo.value;
      if info.tag == "input" && info.attributes.Some? {
        var fieldType := HtmlFieldType(info.attributes.value);
        if fieldType.Some? {
          result := result + [AutofillField(node.autofillId.value, fieldType.value,
            node.autofillValue, HtmlHint(info.attributes.value))];
        }
      }
    }
    if node.autofillHints.Some? && node.autofillId.Some? && |node.autofillHints.value| > 0 {
      var hint := node.autofillHints.value[0];
      var fieldType := HintFieldType(hint);
      if fieldType.Some? {
        result := result + [AutofillField(node.autofillId.value, fieldType.value, node.autofillValue, hint)];
      }
    }
    if node.autofillId.Some? && !HasFieldWithId(result, node.autofillId.value) {
      var fieldType := InputTypeFieldTypeAsWritten(node.inputType);
      if fieldType.Some? {
        result := result + [AutofillField(node.autofillId.value, fieldType.value,
          node.autofillValue, node.text.GetOr(""))];
      }
    }
    assert result == OwnFields(fields, node);
    for i := 0 to |node.children|
      invariant result == ParseChildren(OwnFields(fields, node), node, i)
    {
      result := ParseNode(node.children[i], result);
    }
  }

  /** `parseAutofillFields`: the root of every window, in order. */
  function ParseWindows(roots: seq<ViewNode>): seq<AutofillField> {
    if roots == [] then [] else Parse(ParseWindows(roots[..|roots| - 1]), roots[|roots| - 1])
  }

  lemma {:induction false} ParseWindowsWithoutUrl(roots: seq<ViewNode>)
    ensures NoUrlField(ParseWindows(roots))
  {
    if roots != [] {
      ParseWindowsWithoutUrl(roots[..|roots| - 1]);
      ParseAppendsWithoutUrl(ParseWindows(roots[..|roots| - 1]), roots[|roots| - 1]);
    }
  }

  method ParseAutofillFields(roots: seq<ViewNode>) returns (fields: seq<AutofillField>)
    ensures fields == ParseWindows(roots)
  {
    fields := [];
    for i := 0 to |roots|
      invariant fields == ParseWindows(roots[..i])
    {
      assert roots[..i + 1][..i] == roots[..i];
      fields := ParseNode(roots[i], fields);
    }
    assert roots[..|roots|] == roots;
  }

  // ---------------------------------------------------------------------------
  // onSaveRequest
  // ---------------------------------------------------------------------------

  /** The `username`, `password` and `url` variables the save loop fills. */
  datatype SaveFields = SaveFields(username: string, password: string, url: string)

  /** One step of the loop: only text values count. */
  function SaveStep(acc: SaveFields, field: AutofillField): SaveFields {
    match field.autofillValue
    case Some(TextValue(text)) =>
      (match field.autofillType
       case Username => acc.(username := text)
       case Email => if acc.username == "" then acc.(username := text) else acc
       case Password => acc.(password := text)
       case Url => acc.(url := text))
    case _ => acc
  }

  function Aggregate(fields: seq<AutofillField>): SaveFields {
    if fields == [] then SaveFields("", "", "")
    else SaveStep(Aggregate(fields[..|fields| - 1]), fields[|fields| - 1])
  }

  /** The text of the last field of type `t` holding text, if any. */
  function LastText(fields: seq<AutofillField>, t: FieldType): Option<string> {
    if fields == [] then None
    else
      var f := fields[|fields| - 1];
      if f.autofillType == t && f.autofillValue.Some? && f.autofillValue.value.TextValue?
      then Some(f.autofillValue.value.text)
      else LastText(fields[..|fields| - 1], t)
  }

  /**
   * The last password and url win, and so does the last username when no e-mail
   * field is present; an e-mail only fills a username that is still empty.
   */
  lemma {:induction false} AggregateLastWins(fields: seq<AutofillField>)
    ensures Aggregate(fields).password == LastText(fields, Password).GetOr("")
    ensures Aggregate(fields).url == LastText(fields, Url).GetOr("")
    ensures LastText(fields, Email).None? ==>
      Aggregate(fields).username == LastText(fields, Username).GetOr("")
  {
    if fields != [] {
      AggregateLastWins(fields[..|fields| - 1]);
    }
  }

  /** An e-mail field never overwrites a username already collected. */
  lemma EmailKeepsUsername(acc: SaveFields, field: AutofillField)
    requires field.autofillType == Email && acc.username != ""
    ensures SaveStep(acc, field) == acc
  {
  }

  method AggregateSaveFields(fields: seq<AutofillField>) returns (saved: SaveFields)
    ensures saved == Aggregate(fields)
  {
    var username, password, url := "", "", "";
    for i := 0 to |fields|
      invariant Aggregate(fields[..i]) == SaveFields(username, password, url)
    {
      assert fields[..i + 1][..i] == fields[..i];
      var field := fields[i];
      if field.autofillValue.Some? && field.autofillValue.value.TextValue? {
        var text := field.autofillValue.value.text;
        match field.autofillType {
          case Username => username := text;
          case Email => if username == "" { username := text; }
          case Password => password := text;
          case Url => url := text;
        }
      }
    }
    assert fields[..|fields|] == fields;
    saved := SaveFields(username, password, url);
  }

  /** What a save request does to the vault. */
  datatype SaveOutcome =
    | Failure(message: string)
    | Inserted(item: VaultItem)
    | Updated(item: VaultItem)

  const MSG_NO_PASSWORD := "No password found"
  const MSG_SAVE_FAILED := "Failed to save: "

  /** `s.ifEmpty { fallback }`. */
  function IfEmpty(s: string, fallback: string): string {
    if s == "" then fallback else s
  }

  /**
   * The outcome of a save request whose fields aggregate to `saved`, where
   * `existing` is what `searchItems(packageName)` returned, or the message of the
   * exception it threw, and `writeFailure` is the message of the exception the
   * insert or update threw, if it threw one.
   */
  function SaveDecision(saved: SaveFields, packageName: string, appName: string,
                        existing: Result<seq<VaultItem>, Option<string>>,
                        writeFailure: Option<Option<string>>, now: int): SaveOutcome
  {
    if saved.password == "" then Failure(MSG_NO_PASSWORD)
    else if existing.Err? then Failure(MSG_SAVE_FAILED + existing.error.GetOr("null"))
    else if writeFailure.Some? then Failure(MSG_SAVE_FAILED + writeFailure.value.GetOr("null"))
    else if existing.value == [] then
      Inserted(Entities.NewVaultItem(appName, saved.username, saved.password, now).(
        url := IfEmpty(saved.url, packageName),
        category := if IsWebBrowser(packageName) then "Web" else "Apps",
        notes := "Auto-saved from " + appName))
    else
      var item := existing.value[0];
      Updated(item.(username := IfEmpty(saved.username, item.username),
        password := saved.password, modifiedAt := now))
  }

  /** `onSaveRequest` for a structure whose windows have roots `roots`. */
  method OnSaveRequest(roots: seq<ViewNode>, packageName: string, appName: string,
                       existing: Result<seq<VaultItem>, Option<string>>,
                       writeFailure: Option<Option<string>>, now: int)
    returns (outcome: SaveOutcome)
    ensures outcome == SaveDecision(Aggregate(ParseWindows(roots)), packageName, appName,
                                    existing, writeFailure, now)
  {
    var fields := ParseAutofillFields(roots);
    var saved := AggregateSaveFields(fields);
    outcome := SaveDecision(saved, packageName, appName, existing, writeFailure, now);
  }

  /**
   * A save without a password writes nothing; a new item is titled with the app
   * name and, since parsing never yields a url field, points at the package name;
   * an update keeps the matched item's id and falls back to its username.
   */
  lemma SaveOutcomes(roots: seq<ViewNode>, packageName: string, appName: string,
                     existing: Result<seq<VaultItem>, Option<string>>,
                     writeFailure: Option<Option<string>>, now: int)
    ensures var saved := Aggregate(ParseWindows(roots));
      var outcome := SaveDecision(saved, packageName, appName, existing, writeFailure, now);
      && (outcome.Failure? <==> saved.password == "" || existing.Err? || writeFailure.Some?)
      && (outcome.Failure? ==>
            outcome.message == MSG_NO_PASSWORD || MSG_SAVE_FAILED <= outcome.message)
      && (outcome.Inserted? ==>
            && outcome.item.title == appName && outcome.item.password == saved.password
            && outcome.item.url == packageName && outcome.item.id == 0
            && outcome.item.category in {"Web", "Apps"})
      && (outcome.Updated? ==>
            && existing.Ok? && existing.value != []
            && outcome.item.id == existing.value[0].id
            && outcome.item.password == saved.password != ""
            && outcome.item.username == IfEmpty(saved.username, existing.value[0].username)
            && outcome.item.modifiedAt == now)
  {
    var fields := ParseWindows(roots);
    ParseWindowsWithoutUrl(roots);
    AggregateLastWins(fields);
    NoUrlNoText(fields);
  }

  /** A node with no HTML info, no hints and no children: only the input-type fallback applies. */
  function PlainInput(id: AutofillId, inputType: bv32, text: string): ViewNode {
    ViewNode(None, Some(id), None, inputType, None, Some(TextValue(text)), [])
  }

  /**
   * With the flag test as written, the text of a web e-mail field (0xd1) is
   * saved as the password, a visible-password field (0x91) is saved as the
   * password, and the text of a URI field (0x11) as the username.
   */
  lemma FallbackFieldsSaved(id: AutofillId, text: string)
    ensures Aggregate(ParseWindows([PlainInput(id, 0xd1, text)])).password == text
    ensures Aggregate(ParseWindows([PlainInput(id, 0x91, text)])).password == text
    ensures Aggregate(ParseWindows([PlainInput(id, 0x11, text)])).username == text
  {
    InputTypeFlagTestMisclassifies();
    assert InputTypeFieldTypeAsWritten(0x91) == Some(Password);
    PlainInputParsed(id, 0xd1, text);
    PlainInputParsed(id, 0x91, text);
    PlainInputParsed(id, 0x11, text);
  }

  /** A plain input alone on the screen yields at most its own fallback field. */
  lemma PlainInputParsed(id: AutofillId, inputType: bv32, text: string)
    ensures var kind := InputTypeFieldTypeAsWritten(inputType);
      ParseWindows([PlainInput(id, inputType, text)])
      == if kind.Some? then [AutofillField(id, kind.value, Some(TextValue(text)), "")] else []
  {
    var node := PlainInput(id, inputType, text);
    assert [node][..0] == [];
    assert ParseWindows([node]) == Parse([], node);
    assert !HasFieldWithId([], id);
  }

  lemma {:induction false} NoUrlNoText(fields: seq<AutofillField>)
    requires NoUrlField(fields)
    ensures LastText(fields, Url) == None
  {
    if fields != [] {
      NoUrlNoText(fields[..|fields| - 1]);
    }
  }

  // ---------------------------------------------------------------------------
  // Matching and package names
  // ---------------------------------------------------------------------------

  function ItemId(item: VaultItem): int { item.id }

  /**
   * `findMatchingCredentials`: the results of searching by package name, by app
   * name and by domain, one after the other, keeping the first item of each id;
   * no result at all when one of the searches fails.
   */
  function FindMatching(byPackage: Option<seq<VaultItem>>, byAppName: Option<seq<VaultItem>>,
                        byUrl: Option<seq<VaultItem>>): seq<VaultItem>
  {
    if byPackage.None? || byAppName.None? || byUrl.None? then []
    else DistinctBy(byPackage.value + byAppName.value + byUrl.value, ItemId)
  }

  /**
   * The matches come from the searches, carry distinct ids, and cover every id
   * found.
   */
  lemma FindMatchingProperties(byPackage: seq<VaultItem>, byAppName: seq<VaultItem>, byUrl: seq<VaultItem>)
    ensures var all := byPackage + byAppName + byUrl;
      var r := FindMatching(Some(byPackage), Some(byAppName), Some(byUrl));
      && (forall y :: y in r ==> y in all)
      && (forall i, j :: 0 <= i < j < |r| ==> r[i].id != r[j].id)
      && (forall x :: x in all ==> exists y :: y in r && y.id == x.id)
  {
    var all := byPackage + byAppName + byUrl;
    DistinctByProperties(all, ItemId);
    DistinctByMembership(all, ItemId);
  }

  /** Of several matches with one id, the one found first (package, then app name, then URL) is kept. */
  lemma FindMatchingKeepsFirst(byPackage: seq<VaultItem>, byAppName: seq<VaultItem>, byUrl: seq<VaultItem>)
    ensures var all := byPackage + byAppName + byUrl;
      var r := FindMatching(Some(byPackage), Some(byAppName), Some(byUrl));
      forall k :: 0 <= k < |r| ==>
        exists i :: 0 <= i < |all| && all[i] == r[k] && forall j :: 0 <= j < i ==> all[j].id != all[i].id
  {
    var all := byPackage + byAppName + byUrl;
    var r := FindMatching(Some(byPackage), Some(byAppName), Some(byUrl));
    assert r == DistinctBy(all, ItemId);
    DistinctByFirstOccurrences(all, ItemId);
    var idx := KeptIndices(all, ItemId);
    forall k | 0 <= k < |r|
      ensures exists i :: 0 <= i < |all| && all[i] == r[k] && forall j :: 0 <= j < i ==> all[j].id != all[i].id
    {
      var i := idx[k];
      assert all[i] == r[k];
    }
  }

  /** When the package-name matches carry distinct ids, they come first, in order. */
  lemma FindMatchingPackageFirst(byPackage: seq<VaultItem>, byAppName: seq<VaultItem>, byUrl: seq<VaultItem>)
    requires forall i, j :: 0 <= i < j < |byPackage| ==> byPackage[i].id != byPackage[j].id
    ensures byPackage <= FindMatching(Some(byPackage), Some(byAppName), Some(byUrl))
  {
    DistinctByIdentity(byPackage, ItemId);
    assert byPackage + byAppName + byUrl == byPackage + (byAppName + byUrl);
    DistinctByPrefix(byPackage, byAppName + byUrl, ItemId);
  }

  /** Substrings that mark a browser's package name. */
  const BROWSER_MARKERS := ["chrome", "firefox", "browser", "opera", "samsung.internet", "brave", "edge"]

  /** `isWebBrowser`. */
  predicate IsWebBrowser(packageName: string) {
    Contains(packageName, "chrome") || Contains(packageName, "firefox")
    || Contains(packageName, "browser") || Contains(packageName, "opera")
    || Contains(packageName, "samsung.internet") || Contains(packageName, "brave")
    || Contains(packageName, "edge")
  }

  /** A package is a browser exactly when its name contains one of the markers. */
  lemma IsWebBrowserMarkers(packageName: string)
    ensures IsWebBrowser(packageName) <==> exists m :: m in BROWSER_MARKERS && Contains(packageName, m)
  {
    var m := BROWSER_MARKERS;
    if Contains(packageName, "chrome") { assert m[0] in m; }
    else if Contains(packageName, "firefox") { assert m[1] in m; }
    else if Contains(packageName, "browser") { assert m[2] in m; }
    else if Contains(packageName, "opera") { assert m[3] in m; }
    else if Contains(packageName, "samsung.internet") { assert m[4] in m; }
    else if Contains(packageName, "brave") { assert m[5] in m; }
    else if Contains(packageName, "edge") { assert m[6] in m; }
  }

  /** Any package name that contains a marker is a browser, wherever the marker sits. */
  lemma MarkerMakesBrowser(prefix: string, marker: string, suffix: string)
    requires marker in BROWSER_MARKERS
    ensures IsWebBrowser(prefix + marker + suffix)
  {
    ContainsInfix(prefix, marker, suffix);
    IsWebBrowserMarkers(prefix + marker + suffix);
  }

  /**
   * `extractDomain`: drop a leading "com.", then "org.", then "net.", and keep
   * the text before the first '.'.
   */
  function ExtractDomain(packageName: string): (domain: string)
    ensures '.' !in domain
    ensures Contains(packageName, domain)
  {
    var s1 := RemovePrefix(packageName, "com.");
    var s2 := RemovePrefix(s1, "org.");
    var s3 := RemovePrefix(s2, "net.");
    var d := BeforeFirst(s3, '.');
    var k := |packageName| - |s3|;
    assert packageName[k..] == s3;
    ContainsSuffix(packageName, k, d);
    d
  }

  /** For "com.<name>.<rest>" the domain is `<name>`, unless the name is "org" or "net". */
  lemma ExtractDomainOfQualifiedName(name: string, rest: string)
    requires '.' !in name && name != "org" && name != "net"
    ensures ExtractDomain("com." + name + "." + rest) == name
  {
    var s := "com." + name + "." + rest;
    var s1 := name + "." + rest;
    assert s == "com." + s1;
    assert RemovePrefix(s, "com.") == s1;
    NotDottedPrefix(name, rest, "org");
    NotDottedPrefix(name, rest, "net");
    BeforeFirstAt(name, rest);
  }

  /** A dot-free name followed by a dot starts with "w." only when it is `w` itself. */
  lemma NotDottedPrefix(name: string, rest: string, w: string)
    requires '.' !in name && '.' !in w && name != w
    ensures !(w + "." <= name + "." + rest)
  {
    var s := name + "." + rest;
    var p := w + ".";
    if |name| < |w| {
      assert s[|name|] == '.' && p[|name|] == w[|name|] && w[|name|] != '.';
    } else if |name| > |w| {
      assert p[|w|] == '.' && s[|w|] == name[|w|] && name[|w|] != '.';
    } else {
      var i :| 0 <= i < |w| && name[i] != w[i];
      assert s[i] == name[i] && p[i] == w[i];
    }
  }

  lemma {:induction false} BeforeFirstAt(name: string, rest: string)
    requires '.' !in name
    ensures BeforeFirst(name + "." + rest, '.') == name
  {
    if name != [] {
      assert (name + "." + rest)[1..] == name[1..] + "." + rest;
      BeforeFirstAt(name[1..], rest);
    }
  }
}
