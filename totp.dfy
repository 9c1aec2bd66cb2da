/**
 * The authenticator screen: which vault items it lists, the item a new code
 * becomes, and the add-code dialog with its validation chain.
 */
module Totp {
  import opened Wrappers
  import opened Text
  import opened Collections
  import opened TotpGenerator
  import Entities

  type VaultItem = Entities.VaultItem

  /** An item shows on the authenticator screen when it has a code and a secret. */
  predicate IsTotpItem(item: VaultItem) {
    item.hasTotp && item.totpSecret != ""
  }

  /** The `loadTOTPItems` filter. */
  function TotpItems(items: seq<VaultItem>): (r: seq<VaultItem>)
    ensures forall x :: x in r <==> x in items && x.hasTotp && x.totpSecret != ""
  {
    Filter(items, IsTotpItem)
  }

  /** The filter keeps the relative order of the items: it distributes over concatenation. */
  lemma TotpItemsAppend(items: seq<VaultItem>, added: VaultItem)
    ensures TotpItems(items + [added]) == TotpItems(items) + (if IsTotpItem(added) then [added] else [])
  {
    FilterConcat(items, [added], IsTotpItem);
    assert [added][..0] == [];
  }

  /** `TOTPState`. */
  datatype TotpState = TotpState(items: seq<VaultItem>)

  /** The item `addTOTPCode` inserts: no password, the cleaned secret, and fixed category and notes. */
  function NewTotpItem(title: string, username: string, secret: string, now: int): (item: VaultItem)
    ensures item.title == title && item.username == username && item.password == ""
    ensures item.totpSecret == NormalizeSecret(secret) && item.hasTotp
    ensures item.category == "Authenticator" && item.notes == "2FA Authenticator Code"
    ensures item.id == 0 && item.createdAt == now && item.modifiedAt == now
  {
    Entities.NewVaultItem(title, username, "", now).(
      totpSecret := NormalizeSecret(secret),
      hasTotp := true,
      category := "Authenticator",
      notes := "2FA Authenticator Code")
  }

  /** Codes generated from the stored secret equal the codes from what the user typed. */
  lemma StoredSecretGeneratesSameCode(decode: Base32Decoder, hmac: HmacSha1, title: string, username: string,
                                      secret: string, now: int, nowMillis: int, step: int)
    requires step > 0
    ensures GenerateTotp(decode, hmac, NewTotpItem(title, username, secret, now).totpSecret, nowMillis, step)
         == GenerateTotp(decode, hmac, secret, nowMillis, step)
  {
    NormalizeSecretIdempotent(secret);
  }

  /** An added code is listed exactly when the secret typed has a character other than a space. */
  lemma NewItemListedIffSecretNotBlank(title: string, username: string, secret: string, now: int)
    ensures IsTotpItem(NewTotpItem(title, username, secret, now)) <==> exists c :: c in secret && c != ' '
  {
    var stripped := ReplaceChar(secret, ' ', "");
    assert |Uppercase(stripped)| == |stripped|;
    if stripped != [] {
      ReplaceCharMembership(secret, ' ', "", stripped[0]);
    }
    if c :| c in secret && c != ' ' {
      ReplaceCharMembership(secret, ' ', "", c);
    }
  }

  /** `TOTPViewModel`. */
  class TotpViewModel {
    var state: TotpState

    constructor ()
      ensures state == TotpState([])
    {
      state := TotpState([]);
    }

    /** One emission of `getAllItems()` reaching `loadTOTPItems`'s collector. */
    method LoadTotpItems(items: seq<VaultItem>)
      modifies this
      ensures state.items == TotpItems(items)
    {
      state := state.(items := TotpItems(items));
    }

    /** `addTOTPCode`: the item handed to `insertItem`; the state is left to the next emission. */
    method AddTotpCode(title: string, username: string, secret: string, now: int) returns (insert: VaultItem)
      ensures insert == NewTotpItem(title, username, secret, now)
      ensures state == old(state)
    {
      insert := NewTotpItem(title, username, secret, now);
    }
  }

  // ---------------------------------------------------------------------------
  // The add-code dialog
  // ---------------------------------------------------------------------------

  const MSG_NAME_REQUIRED := "Name is required"
  const MSG_SECRET_REQUIRED := "Secret key is required"
  const MSG_INVALID_SECRET := "Invalid secret key format"

  /** The error the confirm button reports, or `None` when the code is added. */
  function ConfirmError(decode: Base32Decoder, title: string, secret: string): Option<string> {
    if title == "" then Some(MSG_NAME_REQUIRED)
    else if secret == "" then Some(MSG_SECRET_REQUIRED)
    else if !ValidateSecret(decode, secret) then Some(MSG_INVALID_SECRET)
    else None
  }

  /**
   * The name is checked first, then presence of the secret, then its format. A
   * confirmed secret gives codes exactly when its key decodes non-empty; a
   * rejected format never gives a code.
   */
  lemma ConfirmErrorOrder(decode: Base32Decoder, hmac: HmacSha1, title: string, secret: string, nowMillis: int)
    ensures title == "" ==> ConfirmError(decode, title, secret) == Some(MSG_NAME_REQUIRED)
    ensures title != "" && secret == "" ==> ConfirmError(decode, title, secret) == Some(MSG_SECRET_REQUIRED)
    ensures ConfirmError(decode, title, secret) == None <==>
      title != "" && secret != "" && ValidateSecret(decode, secret)
    ensures ConfirmError(decode, title, secret) == None ==>
      (GenerateTotp(decode, hmac, secret, nowMillis, TIME_STEP_SECONDS).Ok? <==> decode(NormalizeSecret(secret)).value != [])
    ensures title != "" && secret != "" && GenerateTotp(decode, hmac, secret, nowMillis, TIME_STEP_SECONDS).Ok? ==>
      ConfirmError(decode, title, secret) == None
    ensures ConfirmError(decode, title, secret) == Some(MSG_INVALID_SECRET) ==>
      GenerateTotp(decode, hmac, secret, nowMillis, TIME_STEP_SECONDS).Err?
  {
    ValidateSecretMatchesGenerate(decode, hmac, secret, nowMillis);
  }

  /** What confirming hands on: `onAdd` with the raw inputs, followed by `onDismiss`. */
  datatype Confirmed = Confirmed(title: string, username: string, secret: string)

  /** `AddTOTPDialog`'s remembered state. */
  class AddTotpDialog {
    var title: string
    var username: string
    var secret: string
    var errorMessage: Option<string>
    const decode: Base32Decoder

    constructor (decode: Base32Decoder)
      ensures title == "" && username == "" && secret == "" && errorMessage == None
      ensures this.decode == decode
    {
      title, username, secret, errorMessage := "", "", "", None;
      this.decode := decode;
    }

    method OnTitleChange(value: string)
      modifies this
      ensures title == value
      ensures username == old(username) && secret == old(secret) && errorMessage == old(errorMessage)
    {
      title := value;
    }

    method OnUsernameChange(value: string)
      modifies this
      ensures username == value
      ensures title == old(title) && secret == old(secret) && errorMessage == old(errorMessage)
    {
      username := value;
    }

    /** Editing the secret also clears the error. */
    method OnSecretChange(value: string)
      modifies this
      ensures secret == value && errorMessage == None
      ensures title == old(title) && username == old(username)
    {
      secret := value;
      errorMessage := None;
    }

    /**
     * The confirm button: the first failing check sets the error; when all pass,
     * the raw inputs go to `onAdd` and the dialog is dismissed.
     */
    method OnConfirm() returns (added: Option<Confirmed>)
      modifies this
      ensures title == old(title) && username == old(username) && secret == old(secret)
      ensures added.Some? <==> ConfirmError(decode, title, secret).None?
      ensures added.Some? ==> added.value == Confirmed(title, username, secret) && errorMessage == old(errorMessage)
      ensures added.None? ==> errorMessage == ConfirmError(decode, title, secret)
    {
      if title == "" {
        errorMessage := Some(MSG_NAME_REQUIRED);
        added := None;
      } else if secret == "" {
        errorMessage := Some(MSG_SECRET_REQUIRED);
        added := None;
      } else if !ValidateSecret(decode, secret) {
        errorMessage := Some(MSG_INVALID_SECRET);
        added := None;
      } else {
        added := Some(Confirmed(title, username, secret));
      }
    }
  }
}
