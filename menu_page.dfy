/** The menu page (`MenuComponent`): the cached list of menus, the add/edit form, and the
    product ids edited as comma-separated text. */
module MenuPage {
  import opened Wrappers
  import opened IdCodec
  import opened ListState

  /** The front end's `Menu`: an optional id, the name, the product ids, and the ids as
      the text the form edits. */
  datatype Menu = Menu(id: Option<int>, name: string, productIds: seq<JsInt>, productIdsString: Option<string>)

  /** The empty form. */
  const EmptyForm: Menu := Menu(None, "", [], Some(""))

  // The menu page repeats the orders page's showing and id test for its own `Menu` type, as the
  // two components do.

  /** A menu as the page shows it: its ids joined with ", ". Submitting that text unchanged gives
      the same ids back. */
  function Shown(m: Menu): (r: Menu)
    ensures r.productIdsString.Some? && SubmittedIds(r.productIdsString) == m.productIds
    ensures r.(productIdsString := m.productIdsString) == m
  {
    SubmitShownIds(m.productIds);
    m.(productIdsString := Some(JoinIds(m.productIds)))
  }

  /** The fetched menus, each shown. */
  function ShownAll(data: seq<Menu>): (r: seq<Menu>)
    ensures |r| == |data|
    ensures forall k :: 0 <= k < |data| ==> r[k] == Shown(data[k])
  {
    seq(|data|, k requires 0 <= k < |data| => Shown(data[k]))
  }

  /** The test `findIndex` and `filter` apply: the menu carries the given id. */
  predicate HasId(id: Option<int>, m: Menu) {
    m.id == id
  }

  class MenuComponent {
    var menus: seq<Menu>
    var newMenu: Menu
    var isEditMode: bool
    var currentMenuId: Option<int>

    /** The form is empty and no menu is being edited. */
    ghost predicate FormCleared()
      reads this
    {
      newMenu == EmptyForm && !isEditMode && currentMenuId.None?
    }

    constructor()
      ensures menus == [] && FormCleared()
    {
      menus := [];
      newMenu := EmptyForm;
      isEditMode := false;
      currentMenuId := None;
    }

    /** `fetchMenus`, on the server's answer: the list becomes the fetched menus, each shown. */
    method OnFetched(data: seq<Menu>)
      modifies this`menus
      ensures menus == ShownAll(data)
      ensures forall k :: 0 <= k < |menus| ==> SubmittedIds(menus[k].productIdsString) == data[k].productIds
    {
      menus := ShownAll(data);
    }

    /** `openAddMenuDialog`: add mode with an empty form. */
    method OpenAddDialog()
      modifies this`newMenu, this`isEditMode, this`currentMenuId
      ensures FormCleared()
    {
      isEditMode := false;
      ResetForm();
    }

    /** `openEditMenuDialog`: edit mode for the menu, whose copy fills the form with its ids
        shown as text. */
    method OpenEditDialog(menu: Menu)
      modifies this`newMenu, this`isEditMode, this`currentMenuId
      ensures isEditMode && currentMenuId == menu.id && newMenu == Shown(menu)
    {
      isEditMode := true;
      currentMenuId := menu.id;
      newMenu := menu;
      newMenu := newMenu.(productIdsString := Some(JoinIds(menu.productIds)));
    }

    /** `submitMenu`: the ids are parsed from the text, then an update of the menu being edited
        or an addition of the form's menu is sent. */
    method Submit() returns (request: Request<Menu>)
      modifies this`newMenu
      ensures newMenu == old(newMenu).(productIds := SubmittedIds(old(newMenu).productIdsString))
      ensures isEditMode && currentMenuId.Some? ==>
        request == UpdateRequest(currentMenuId.value, newMenu.(id := currentMenuId))
      ensures !(isEditMode && currentMenuId.Some?) ==> request == AddRequest(newMenu)
    {
      if newMenu.productIdsString.Some? && newMenu.productIdsString.value != "" {
        newMenu := newMenu.(productIds := ParseIds(newMenu.productIdsString.value));
      } else {
        newMenu := newMenu.(productIds := []);
      }
      if isEditMode && currentMenuId.Some? {
        request := UpdateRequest(currentMenuId.value, newMenu.(id := currentMenuId));
      } else {
        request := AddRequest(newMenu);
      }
    }

    /** The update's answer: a null answer changes nothing; otherwise the first menu with the
        answer's id is replaced by the answer, shown (an id not in the list leaves the list as it
        is), and the form is reset. */
    method OnUpdated(response: Option<Menu>)
      modifies this`menus, this`newMenu, this`isEditMode, this`currentMenuId
      ensures response.None? ==>
        menus == old(menus) && newMenu == old(newMenu) && isEditMode == old(isEditMode)
        && currentMenuId == old(currentMenuId)
      ensures response.Some? ==>
        menus == ReplaceFirst(old(menus), m => HasId(response.value.id, m), Shown(response.value))
        && FormCleared()
    {
      if response.None? {
        return;
      }
      var updated := response.value;
      var index := FindIndex(menus, m => HasId(updated.id, m));
      if index != -1 {
        menus := menus[index := updated.(productIdsString := Some(JoinIds(updated.productIds)))];
      }
      ResetForm();
    }

    /** The addition's answer: a null answer changes nothing; otherwise the answer, shown, is
        pushed onto the list and the form is reset. */
    method OnAdded(response: Option<Menu>)
      modifies this`menus, this`newMenu, this`isEditMode, this`currentMenuId
      ensures response.None? ==>
        menus == old(menus) && newMenu == old(newMenu) && isEditMode == old(isEditMode)
        && currentMenuId == old(currentMenuId)
      ensures response.Some? ==> menus == old(menus) + [Shown(response.value)] && FormCleared()
    {
      if response.None? {
        return;
      }
      var added := response.value;
      menus := menus + [added.(productIdsString := Some(JoinIds(added.productIds)))];
      ResetForm();
    }

    /** `deleteMenu`, once confirmed and acknowledged: every menu with that id leaves the list. */
    method OnDeleted(menuId: int)
      modifies this`menus
      ensures menus == Remove(old(menus), m => HasId(Some(menuId), m))
    {
      menus := Remove(menus, m => HasId(Some(menuId), m));
    }

    /** `resetForm`. */
    method ResetForm()
      modifies this`newMenu, this`isEditMode, this`currentMenuId
      ensures FormCleared()
    {
      newMenu := EmptyForm;
      currentMenuId := None;
      isEditMode := false;
    }
  }
}
