/**
 * `NavRoutes`: the route strings of the app's screens and the builders for
 * the two routes that carry an item id, with readers that recover the id.
 */
module NavRoutes {
  import opened Wrappers
  import opened Text

  const SETUP := "setup"
  const LOCK := "lock"
  const VAULT_LIST := "vault_list"
  const VAULT_DETAIL := "vault_detail/{itemId}"
  const ADD_EDIT := "add_edit?itemId={itemId}"
  const SETTINGS := "settings"
  const PASSWORD_HEALTH := "password_health"
  const TOTP := "totp"
  const BACKUP := "backup"

  const ROUTES := [SETUP, LOCK, VAULT_LIST, VAULT_DETAIL, ADD_EDIT, SETTINGS, PASSWORD_HEALTH, TOTP, BACKUP]

  /** The nine screens have pairwise distinct routes. */
  lemma RoutesDistinct()
    ensures |ROUTES| == 9
    ensures forall i, j :: 0 <= i < j < |ROUTES| ==> ROUTES[i] != ROUTES[j]
  {
  }

  const DETAIL_PREFIX := "vault_detail/"
  const ADD_EDIT_BASE := "add_edit"
  const ADD_EDIT_PREFIX := "add_edit?itemId="

  /** `VaultDetail.createRoute(itemId)`. */
  function VaultDetailRoute(itemId: int): (route: string)
    ensures DETAIL_PREFIX <= route
  {
    DETAIL_PREFIX + IntToString(itemId)
  }

  /** `AddEdit.createRoute(itemId)`; with no argument the id is `null`. */
  function AddEditRoute(itemId: Option<int> := None): string {
    if itemId.Some? then ADD_EDIT_PREFIX + IntToString(itemId.value) else ADD_EDIT_BASE
  }

  /** The item id a detail route carries. */
  function DetailRouteId(route: string): Option<int> {
    if DETAIL_PREFIX <= route then ParseInt(route[|DETAIL_PREFIX|..]) else None
  }

  /** The id an add/edit route carries: `Some(None)` for adding, `Some(Some(id))` for editing. */
  function AddEditRouteId(route: string): Option<Option<int>> {
    if route == ADD_EDIT_BASE then Some(None)
    else if ADD_EDIT_PREFIX <= route then
      match ParseInt(route[|ADD_EDIT_PREFIX|..])
      case Some(id) => Some(Some(id))
      case None => None
    else None
  }

  /** A detail route reads back as its item id. */
  lemma VaultDetailRouteReadsBack(itemId: int)
    ensures DetailRouteId(VaultDetailRoute(itemId)) == Some(itemId)
  {
    assert VaultDetailRoute(itemId)[|DETAIL_PREFIX|..] == IntToString(itemId);
    IntToStringRoundTrip(itemId);
  }

  /** An add/edit route reads back as the id it was built from, or as "add" without one. */
  lemma AddEditRouteReadsBack(itemId: Option<int>)
    ensures AddEditRouteId(AddEditRoute(itemId)) == Some(itemId)
  {
    if itemId.Some? {
      var route := AddEditRoute(itemId);
      assert route[|ADD_EDIT_PREFIX|..] == IntToString(itemId.value);
      assert route != ADD_EDIT_BASE by {
        assert |route| > |ADD_EDIT_BASE|;
      }
      IntToStringRoundTrip(itemId.value);
    }
  }

  /** With no argument, the add/edit route is the bare "add_edit". */
  lemma AddEditRouteDefault()
    ensures AddEditRoute() == "add_edit"
    ensures AddEditRoute() == AddEditRoute(None)
  {
  }
}
