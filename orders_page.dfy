/** The orders page (`OrdersComponent`): the cached list of orders, the add/edit form, and the
    menu item ids edited as comma-separated text. */
module OrdersPage {
  import opened Wrappers
  import opened IdCodec
  import opened ListState

  /** The front end's `Order`: an optional id, the time as text, the menu item ids, and the ids as
      the text the form edits. */
  datatype Order = Order(id: Option<int>, dateTime: string, menuItemIds: seq<JsInt>, menuItemIdsString: Option<string>)

  /** The empty form. */
  const EmptyForm: Order := Order(None, "", [], Some(""))

  /** An order as the page shows it: its ids joined with ", ". Submitting that text unchanged gives
      the same ids back. */
  function Shown(o: Order): (r: Order)
    ensures r.menuItemIdsString.Some? && SubmittedIds(r.menuItemIdsString) == o.menuItemIds
    ensures r.(menuItemIdsString := o.menuItemIdsString) == o
  {
    SubmitShownIds(o.menuItemIds);
    o.(menuItemIdsString := Some(JoinIds(o.menuItemIds)))
  }

  /** The fetched orders, each shown. */
  function ShownAll(data: seq<Order>): (r: seq<Order>)
    ensures |r| == |data|
    ensures forall k :: 0 <= k < |data| ==> r[k] == Shown(data[k])
  {
    seq(|data|, k requires 0 <= k < |data| => Shown(data[k]))
  }

  /** The test `findIndex` and `filter` apply: the order carries the given id. */
  predicate HasId(id: Option<int>, o: Order) {
    o.id == id
  }

  class OrdersComponent {
    var orders: seq<Order>
    var newOrder: Order
    var isEditMode: bool
    var currentOrderId: Option<int>

    /** The form is empty and no order is being edited. */
    ghost predicate FormCleared()
      reads this
    {
      newOrder == EmptyForm && !isEditMode && currentOrderId.None?
    }

    constructor()
      ensures orders == [] && FormCleared()
    {
      orders := [];
      newOrder := EmptyForm;
      isEditMode := false;
      currentOrderId := None;
    }

    /** `fetchOrders`, on the server's answer: the list becomes the fetched orders, each shown. */
    method OnFetched(data: seq<Order>)
      modifies this`orders
      ensures orders == ShownAll(data)
      ensures forall k :: 0 <= k < |orders| ==> SubmittedIds(orders[k].menuItemIdsString) == data[k].menuItemIds
    {
      orders := ShownAll(data);
    }

    /** `openAddOrderDialog`: add mode with an empty form. */
    method OpenAddDialog()
      modifies this`newOrder, this`isEditMode, this`currentOrderId
      ensures FormCleared()
    {
      isEditMode := false;
      ResetForm();
    }

    /** `openEditOrderDialog`: edit mode for the order, whose copy fills the form with its ids
        shown as text. */
    method OpenEditDialog(order: Order)
      modifies this`newOrder, this`isEditMode, this`currentOrderId
      ensures isEditMode && currentOrderId == order.id && newOrder == Shown(order)
    {
      isEditMode := true;
      currentOrderId := order.id;
      newOrder := order;
      newOrder := newOrder.(menuItemIdsString := Some(JoinIds(order.menuItemIds)));
    }

    /** `submitOrder`: the ids are parsed from the text, then an update of the order being edited
        or an addition of the form's order is sent. */
    method Submit() returns (request: Request<Order>)
      modifies this`newOrder
      ensures newOrder == old(newOrder).(menuItemIds := SubmittedIds(old(newOrder).menuItemIdsString))
      ensures isEditMode && currentOrderId.Some? ==>
        request == UpdateRequest(currentOrderId.value, newOrder.(id := currentOrderId))
      ensures !(isEditMode && currentOrderId.Some?) ==> request == AddRequest(newOrder)
    {
      if newOrder.menuItemIdsString.Some? && newOrder.menuItemIdsString.value != "" {
        newOrder := newOrder.(menuItemIds := ParseIds(newOrder.menuItemIdsString.value));
      } else {
        newOrder := newOrder.(menuItemIds := []);
      }
      if isEditMode && currentOrderId.Some? {
        request := UpdateRequest(currentOrderId.value, newOrder.(id := currentOrderId));
      } else {
        request := AddRequest(newOrder);
      }
    }

    /** The update's answer: a null answer changes nothing; otherwise the first order with the
        answer's id is replaced by the answer, shown (an id not in the list leaves the list as it
        is), and the form is reset. */
    method OnUpdated(response: Option<Order>)
      modifies this`orders, this`newOrder, this`isEditMode, this`currentOrderId
      ensures response.None? ==>
        orders == old(orders) && newOrder == old(newOrder) && isEditMode == old(isEditMode)
        && currentOrderId == old(currentOrderId)
      ensures response.Some? ==>
        orders == ReplaceFirst(old(orders), o => HasId(response.value.id, o), Shown(response.value))
        && FormCleared()
    {
      if response.None? {
        return;
      }
      var updated := response.value;
      var index := FindIndex(orders, o => HasId(updated.id, o));
      if index != -1 {
        orders := orders[index := updated.(menuItemIdsString := Some(JoinIds(updated.menuItemIds)))];
      }
      ResetForm();
    }

    /** The addition's answer: a null answer changes nothing; otherwise the answer, shown, is
        pushed onto the list and the form is reset. */
    method OnAdded(response: Option<Order>)
      modifies this`orders, this`newOrder, this`isEditMode, this`currentOrderId
      ensures response.None? ==>
        orders == old(orders) && newOrder == old(newOrder) && isEditMode == old(isEditMode)
        && currentOrderId == old(currentOrderId)
      ensures response.Some? ==> orders == old(orders) + [Shown(response.value)] && FormCleared()
    {
      if response.None? {
        return;
      }
      var added := response.value;
      orders := orders + [added.(menuItemIdsString := Some(JoinIds(added.menuItemIds)))];
      ResetForm();
    }

    /** `deleteOrder`, once confirmed and acknowledged: every order with that id leaves the list. */
    method OnDeleted(orderId: int)
      modifies this`orders
      ensures orders == Remove(old(orders), o => HasId(Some(orderId), o))
    {
      orders := Remove(orders, o => HasId(Some(orderId), o));
    }

    /** `resetForm`. */
    method ResetForm()
      modifies this`newOrder, this`isEditMode, this`currentOrderId
      ensures FormCleared()
    {
      newOrder := EmptyForm;
      currentOrderId := None;
      isEditMode := false;
    }
  }
}
