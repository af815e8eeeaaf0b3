/** The `orders` slice of the client store: a list of orders keyed by `_id`, the order on
    display, and the request flags. */
module OrderSlice {
  import opened Common
  import IdLists

  /** A property the client reads as text: absent or falsy, a string, or a truthy value
      that is not a string (calling `toLowerCase` on it throws). */
  datatype JsText = Absent | Text(s: string) | NonText

  /** An order as the client holds it. `createdAt` is a timestamp, `None` when missing. */
  datatype Order = Order(
    id: Option<string>,
    orderNumber: JsText,
    status: Option<string>,
    customerName: JsText,
    customerEmail: JsText,
    createdAt: Option<int>)

  function OrderId(o: Order): Option<string> { o.id }

  class OrderSlice {
    var list: seq<Order>
    var currentOrder: Option<Order>
    var loading: bool
    var error: Option<string>

    /** The request flags after a reducer that stores data: not loading, no error. */
    predicate Settled()
      reads this
    {
      !loading && error == None
    }

    constructor()
      ensures list == [] && currentOrder == None && Settled()
    {
      list := [];
      currentOrder := None;
      loading := false;
      error := None;
    }

    /** Starting a request clears the error; finishing one keeps it. */
    method SetLoading(b: bool)
      modifies this
      ensures loading == b
      ensures error == (if b then None else old(error))
      ensures list == old(list) && currentOrder == old(currentOrder)
    {
      loading := b;
      if b {
        error := None;
      }
    }

    method SetError(e: Option<string>)
      modifies this
      ensures error == e && !loading
      ensures list == old(list) && currentOrder == old(currentOrder)
    {
      error := e;
      loading := false;
    }

    method SetOrders(orders: seq<Order>)
      modifies this
      ensures list == orders && currentOrder == old(currentOrder) && Settled()
    {
      list := orders;
      loading := false;
      error := None;
    }

    method SetCurrentOrder(o: Option<Order>)
      modifies this
      ensures currentOrder == o && list == old(list) && Settled()
    {
      currentOrder := o;
      loading := false;
      error := None;
    }

    /** `push`: the list grows by one, at the end. */
    method AddOrder(o: Order)
      modifies this
      ensures list == old(list) + [o] && |list| == |old(list)| + 1
      ensures currentOrder == old(currentOrder) && Settled()
    {
      list := list + [o];
      loading := false;
      error := None;
    }

    /** Replaces the first order with the payload's id, if there is one, and shows the
        payload whether or not it was found. */
    method UpdateOrder(o: Order)
      modifies this
      ensures list == IdLists.ReplaceFirst(old(list), o, OrderId)
      ensures currentOrder == Some(o) && Settled()
    {
      var index := IdLists.FindIndex(list, o.id, OrderId);
      if index != -1 {
        list := list[index := o];
      }
      currentOrder := Some(o);
      loading := false;
      error := None;
    }

    /** Removes every order with the id, and clears the displayed order iff it has it. */
    method RemoveOrder(id: Option<string>)
      modifies this
      ensures list == IdLists.RemoveId(old(list), id, OrderId)
      ensures old(currentOrder).Some? && old(currentOrder).value.id == id ==> currentOrder == None
      ensures !(old(currentOrder).Some? && old(currentOrder).value.id == id) ==> currentOrder == old(currentOrder)
      ensures Settled()
    {
      list := IdLists.RemoveId(list, id, OrderId);
      if currentOrder.Some? && currentOrder.value.id == id {
        currentOrder := None;
      }
      loading := false;
      error := None;
    }
  }
}
