/**
 * The records the screens and services share: the stored vault item and the
 * UI states of the vault screens and of authentication, with the defaults
 * their Kotlin constructors give.
 */
module Entities {
  import opened Wrappers

  /** `VaultItemEntity`: one row of the `vault_items` table. Timestamps are epoch milliseconds. */
  datatype VaultItem = VaultItem(
    id: int,
    title: string,
    username: string,
    password: string,
    url: string,
    notes: string,
    category: string,
    isFavorite: bool,
    tags: seq<string>,
    customFields: map<string, string>,
    totpSecret: string,
    hasTotp: bool,
    itemType: string,
    cardNumber: string,
    cardCvv: string,
    cardExpiry: string,
    cardHolder: string,
    createdAt: int,
    modifiedAt: int,
    lastAccessedAt: int)

  /**
   * `VaultItemEntity(title = .., username = .., password = ..)` with every other
   * argument defaulted; `now` is the `System.currentTimeMillis()` both timestamps read.
   */
  function NewVaultItem(title: string, username: string, password: string, now: int): (item: VaultItem)
    ensures item.id == 0 && item.title == title && item.username == username && item.password == password
    ensures item.url == "" && item.notes == "" && item.category == "General" && !item.isFavorite
    ensures item.tags == [] && item.customFields == map[] && item.totpSecret == "" && !item.hasTotp
    ensures item.itemType == "password"
    ensures item.cardNumber == "" && item.cardCvv == "" && item.cardExpiry == "" && item.cardHolder == ""
    ensures item.createdAt == now && item.modifiedAt == now && item.lastAccessedAt == 0
  {
    VaultItem(0, title, username, password, "", "", "General", false, [], map[], "", false,
      "password", "", "", "", "", now, now, 0)
  }

  /** `VaultListState`. */
  datatype VaultListState = VaultListState(
    items: seq<VaultItem>,
    isLoading: bool,
    searchQuery: string,
    errorMessage: Option<string>)

  const DefaultVaultListState := VaultListState([], false, "", None)

  /** `VaultDetailState`. */
  datatype VaultDetailState = VaultDetailState(
    item: Option<VaultItem>,
    isLoading: bool,
    errorMessage: Option<string>,
    showDeleteDialog: bool)

  const DefaultVaultDetailState := VaultDetailState(None, false, None, false)

  /** `AddEditState`: the add/edit form and the item it edits, if any. */
  datatype AddEditState = AddEditState(
    item: Option<VaultItem>,
    title: string,
    username: string,
    password: string,
    url: string,
    notes: string,
    category: string,
    isFavorite: bool,
    isLoading: bool,
    errorMessage: Option<string>,
    isSaved: bool)

  const DefaultAddEditState := AddEditState(None, "", "", "", "", "", "General", false, false, None, false)

  /** `AuthState.PasswordStrength`, weakest first. */
  datatype AuthStrength = Weak | Fair | Good | Strong | VeryStrong

  /** `AuthState`. */
  datatype AuthState = AuthState(
    isLoading: bool,
    isAuthenticated: bool,
    errorMessage: Option<string>,
    passwordStrength: AuthStrength,
    isBiometricAvailable: bool)

  const DefaultAuthState := AuthState(false, false, None, Weak, false)
}
