/**
 * The add/edit form of `VaultViewModel`: loading an item into the form, the
 * field setters, saving (which builds the item to update or insert), and the
 * reset. The repository is outside the model: a load arrives as a parameter
 * and a save returns the write it asks for.
 */
module VaultViewModel {
  import opened Wrappers
  import Entities

  type VaultItem = Entities.VaultItem
  type AddEditState = Entities.AddEditState

  const MSG_TITLE_REQUIRED := "Title is required"

  /** The repository call `saveItem` makes. */
  datatype VaultWrite = NoWrite | UpdateItem(item: VaultItem) | InsertItem(item: VaultItem)

  /** The form filled from a loaded item: its fields, and loading finished. */
  function LoadedForm(s: AddEditState, item: VaultItem): AddEditState {
    s.(item := Some(item), title := item.title, username := item.username, password := item.password,
       url := item.url, notes := item.notes, category := item.category, isFavorite := item.isFavorite,
       isLoading := false)
  }

  /** The state after `loadItemForEdit` has seen one result of `getItemById`. */
  function AfterLoad(s: AddEditState, loaded: Result<Option<VaultItem>, Option<string>>): AddEditState {
    var loading := s.(isLoading := true);
    match loaded
    case Err(message) => loading.(isLoading := false, errorMessage := message)
    case Ok(None) => loading
    case Ok(Some(item)) => LoadedForm(loading, item)
  }

  /** The edited item: the loaded one with the form's fields and a new modification time. */
  function EditedItem(loaded: VaultItem, s: AddEditState, now: int): VaultItem {
    loaded.(title := s.title, username := s.username, password := s.password, url := s.url,
            notes := s.notes, category := s.category, isFavorite := s.isFavorite, modifiedAt := now)
  }

  /** A new item: the form's fields over the entity defaults. */
  function NewFormItem(s: AddEditState, now: int): VaultItem {
    Entities.NewVaultItem(s.title, s.username, s.password, now).(
      url := s.url, notes := s.notes, category := s.category, isFavorite := s.isFavorite)
  }

  /** The write `saveItem` asks for: update when editing, insert otherwise, nothing without a title. */
  function SaveWrite(s: AddEditState, now: int): VaultWrite {
    if s.title == "" then NoWrite
    else match s.item
      case Some(loaded) => UpdateItem(EditedItem(loaded, s, now))
      case None => InsertItem(NewFormItem(s, now))
  }

  /**
   * The state after `saveItem`; `failure` is `Some(message)` when the
   * repository call throws, with the exception's (nullable) message.
   */
  function AfterSave(s: AddEditState, failure: Option<Option<string>>): AddEditState {
    if s.title == "" then s.(errorMessage := Some(MSG_TITLE_REQUIRED))
    else match failure
      case None => s.(isLoading := false, isSaved := true, errorMessage := None)
      case Some(message) => s.(isLoading := false, errorMessage := message)
  }

  /** The six text setters and the favourite toggle. */
  datatype FormEdit =
    | SetTitle(value: string)
    | SetUsername(value: string)
    | SetPassword(value: string)
    | SetUrl(value: string)
    | SetNotes(value: string)
    | SetCategory(value: string)
    | ToggleFavorite

  function ApplyEdit(s: AddEditState, e: FormEdit): AddEditState {
    match e
    case SetTitle(v) => s.(title := v)
    case SetUsername(v) => s.(username := v)
    case SetPassword(v) => s.(password := v)
    case SetUrl(v) => s.(url := v)
    case SetNotes(v) => s.(notes := v)
    case SetCategory(v) => s.(category := v)
    case ToggleFavorite => s.(isFavorite := !s.isFavorite)
  }

  /** The form fields, the part of the state the user edits. */
  datatype Form = Form(title: string, username: string, password: string, url: string,
                       notes: string, category: string, isFavorite: bool)

  function FormOf(s: AddEditState): Form {
    Form(s.title, s.username, s.password, s.url, s.notes, s.category, s.isFavorite)
  }

  /**
   * A setter changes its own form field and nothing else: the edited item,
   * the loading, error and saved flags stay as they were.
   */
  lemma EditTouchesOnlyForm(s: AddEditState, e: FormEdit)
    ensures var t := ApplyEdit(s, e);
      && t.item == s.item && t.isLoading == s.isLoading
      && t.errorMessage == s.errorMessage && t.isSaved == s.isSaved
    ensures var f, g := FormOf(s), FormOf(ApplyEdit(s, e));
      match e
      case SetTitle(v) => g == f.(title := v)
      case SetUsername(v) => g == f.(username := v)
      case SetPassword(v) => g == f.(password := v)
      case SetUrl(v) => g == f.(url := v)
      case SetNotes(v) => g == f.(notes := v)
      case SetCategory(v) => g == f.(category := v)
      case ToggleFavorite => g == f.(isFavorite := !f.isFavorite)
  {
  }

  /** Toggling the favourite twice restores the state. */
  lemma ToggleFavoriteTwice(s: AddEditState)
    ensures ApplyEdit(ApplyEdit(s, ToggleFavorite), ToggleFavorite) == s
    ensures ApplyEdit(s, ToggleFavorite).isFavorite != s.isFavorite
  {
  }

  /**
   * Loading copies the item's fields into the form only when an item arrives;
   * a missing item leaves the form alone (and the spinner on), an error stops
   * loading and shows the message.
   */
  lemma AfterLoadCases(s: AddEditState, loaded: Result<Option<VaultItem>, Option<string>>)
    ensures var t := AfterLoad(s, loaded);
      && (loaded.Ok? && loaded.value.Some? ==>
            t.item == loaded.value && FormOf(t) == FormOf(LoadedForm(s, loaded.value.value)) &&
            !t.isLoading && t.errorMessage == s.errorMessage)
      && (loaded == Ok(None) ==> FormOf(t) == FormOf(s) && t.item == s.item && t.isLoading)
      && (loaded.Err? ==>
            FormOf(t) == FormOf(s) && t.item == s.item && !t.isLoading && t.errorMessage == loaded.error)
      && t.isSaved == s.isSaved
  {
  }

  /** Saving without a title writes nothing, reports the error, and leaves `isSaved` and the form alone. */
  lemma SaveWithoutTitle(s: AddEditState, now: int, failure: Option<Option<string>>)
    requires s.title == ""
    ensures SaveWrite(s, now) == NoWrite
    ensures var t := AfterSave(s, failure);
      t.errorMessage == Some(MSG_TITLE_REQUIRED) && t.isSaved == s.isSaved
      && FormOf(t) == FormOf(s) && t.isLoading == s.isLoading
  {
  }

  /**
   * Editing keeps the identity of the loaded item: its id, creation time,
   * tags, custom fields and TOTP secret are preserved, the form's fields are
   * taken, and the modification time is the save time.
   */
  lemma EditedItemKeepsIdentity(loaded: VaultItem, s: AddEditState, now: int)
    requires s.title != "" && s.item == Some(loaded)
    ensures SaveWrite(s, now).UpdateItem?
    ensures var w := SaveWrite(s, now).item;
      && w.id == loaded.id && w.createdAt == loaded.createdAt && w.tags == loaded.tags
      && w.customFields == loaded.customFields && w.totpSecret == loaded.totpSecret
      && w.hasTotp == loaded.hasTotp && w.lastAccessedAt == loaded.lastAccessedAt
      && FormOf(s) == Form(w.title, w.username, w.password, w.url, w.notes, w.category, w.isFavorite)
      && w.modifiedAt == now
  {
  }

  /** A new item carries the form's fields, a fresh id and both timestamps at the save time. */
  lemma NewItemFromForm(s: AddEditState, now: int)
    requires s.title != "" && s.item == None
    ensures SaveWrite(s, now).InsertItem?
    ensures var w := SaveWrite(s, now).item;
      && FormOf(s) == Form(w.title, w.username, w.password, w.url, w.notes, w.category, w.isFavorite)
      && w.id == 0 && w.createdAt == now && w.modifiedAt == now
      && w.tags == [] && !w.hasTotp && w.itemType == "password"
  {
  }

  /**
   * Loading an item and saving it without edits asks to update the same item
   * with only its modification time changed.
   */
  lemma LoadThenSaveUpdatesSameItem(s: AddEditState, item: VaultItem, now: int)
    requires item.title != ""
    ensures SaveWrite(AfterLoad(s, Ok(Some(item))), now) == UpdateItem(item.(modifiedAt := now))
  {
  }

  /** A save with a title ends loading; it is marked saved exactly when the write did not fail. */
  lemma SaveOutcome(s: AddEditState, failure: Option<Option<string>>)
    requires s.title != ""
    ensures var t := AfterSave(s, failure);
      && !t.isLoading
      && (t.isSaved <==> failure.None? || s.isSaved)
      && (failure.None? ==> t.isSaved && t.errorMessage == None)
      && (failure.Some? ==> t.errorMessage == failure.value && t.isSaved == s.isSaved)
      && FormOf(t) == FormOf(s) && t.item == s.item
  {
  }

  /** `VaultViewModel`'s add/edit state. */
  class VaultViewModel {
    var addEditState: AddEditState

    constructor ()
      ensures addEditState == Entities.DefaultAddEditState
    {
      addEditState := Entities.DefaultAddEditState;
    }

    /** `loadItemForEdit`, with the first result of `getItemById(id)` as `loaded`. */
    method LoadItemForEdit(loaded: Result<Option<VaultItem>, Option<string>>)
      modifies this
      ensures addEditState == AfterLoad(old(addEditState), loaded)
    {
      addEditState := addEditState.(isLoading := true);
      match loaded {
        case Err(message) =>
          addEditState := addEditState.(isLoading := false, errorMessage := message);
        case Ok(found) =>
          if found.Some? {
            var item := found.value;
            addEditState := addEditState.(
              item := Some(item), title := item.title, username := item.username,
              password := item.password, url := item.url, notes := item.notes,
              category := item.category, isFavorite := item.isFavorite, isLoading := false);
          }
      }
    }

    method UpdateTitle(title: string)
      modifies this
      ensures addEditState == ApplyEdit(old(addEditState), SetTitle(title))
    {
      addEditState := addEditState.(title := title);
    }

    method UpdateUsername(username: string)
      modifies this
      ensures addEditState == ApplyEdit(old(addEditState), SetUsername(username))
    {
      addEditState := addEditState.(username := username);
    }

    method UpdatePassword(password: string)
      modifies this
      ensures addEditState == ApplyEdit(old(addEditState), SetPassword(password))
    {
      addEditState := addEditState.(password := password);
    }

    method UpdateUrl(url: string)
      modifies this
      ensures addEditState == ApplyEdit(old(addEditState), SetUrl(url))
    {
      addEditState := addEditState.(url := url);
    }

    method UpdateNotes(notes: string)
      modifies this
      ensures addEditState == ApplyEdit(old(addEditState), SetNotes(notes))
    {
      addEditState := addEditState.(notes := notes);
    }

    method UpdateCategory(category: string)
      modifies this
      ensures addEditState == ApplyEdit(old(addEditState), SetCategory(category))
    {
      addEditState := addEditState.(category := category);
    }

    method ToggleFavorite()
      modifies this
      ensures addEditState == ApplyEdit(old(addEditState), FormEdit.ToggleFavorite)
    {
      addEditState := addEditState.(isFavorite := !addEditState.isFavorite);
    }

    /**
     * `saveItem`: returns the repository write it makes; `failure` is what that
     * write throws, if anything.
     */
    method SaveItem(now: int, failure: Option<Option<string>>) returns (write: VaultWrite)
      modifies this
      ensures write == SaveWrite(old(addEditState), now)
      ensures addEditState == AfterSave(old(addEditState), failure)
    {
      var state := addEditState;
      if state.title == "" {
        addEditState := addEditState.(errorMessage := Some(MSG_TITLE_REQUIRED));
        return NoWrite;
      }
      addEditState := addEditState.(isLoading := true);
      var item: VaultItem;
      if state.item.Some? {
        item := state.item.value.(
          title := state.title, username := state.username, password := state.password,
          url := state.url, notes := state.notes, category := state.category,
          isFavorite := state.isFavorite, modifiedAt := now);
        write := UpdateItem(item);
      } else {
        item := Entities.NewVaultItem(state.title, state.username, state.password, now).(
          url := state.url, notes := state.notes, category := state.category,
          isFavorite := state.isFavorite);
        write := InsertItem(item);
      }
      match failure {
        case None =>
          addEditState := addEditState.(isLoading := false, isSaved := true, errorMessage := None);
        case Some(message) =>
          addEditState := addEditState.(isLoading := false, errorMessage := message);
      }
    }

    method ClearAddEditState()
      modifies this
      ensures addEditState == Entities.DefaultAddEditState
    {
      addEditState := Entities.DefaultAddEditState;
    }
  }
}
