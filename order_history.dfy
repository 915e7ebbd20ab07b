/**
 * The customer's order history screen (OrderHistory.jsx): deleting one
 * order from the list, and editing one order in place (start, change a
 * field, save, cancel).
 */
module OrderHistory {
  import opened Wrappers
  import opened JsArray

  /**
   * A JavaScript value used as an order id. Strict equality (`===`, `!==`)
   * between such values is equality of this datatype: in particular
   * `undefined !== null`.
   */
  datatype JsId = Null | Undefined | Str(s: string)

  /** An order as the screen holds it: a plain object of string fields. */
  type Record = map<string, string>

  /** `order._id`: `undefined` when the object has no such field. */
  function IdOf(order: Record): (id: JsId)
    ensures id.Str? <==> "_id" in order
    ensures id.Str? ==> id.s == order["_id"]
    ensures "_id" !in order ==> id == Undefined
  {
    if "_id" in order then Str(order["_id"]) else Undefined
  }

  /** JavaScript truthiness of an id: `null`, `undefined` and "" are falsy. */
  predicate Truthy(id: JsId) {
    id.Str? && id.s != ""
  }

  /** `orders.filter(order => order._id !== orderId)` */
  function RemoveById(orders: seq<Record>, orderId: JsId): (r: seq<Record>)
    ensures IsSubsequence(r, orders)
    ensures forall o :: o in r <==> o in orders && IdOf(o) != orderId
    ensures forall o ::
              multiset(r)[o] == if IdOf(o) == orderId then 0 else multiset(orders)[o]
  {
    Filter(orders, o => IdOf(o) != orderId)
  }

  /** `prevOrders.map(order => order._id === editingOrderId ? editedOrder : order)` */
  function ReplaceById(orders: seq<Record>, editingOrderId: JsId, editedOrder: Record): (r: seq<Record>)
    ensures |r| == |orders|
    ensures forall i :: 0 <= i < |orders| && IdOf(orders[i]) == editingOrderId ==> r[i] == editedOrder
    ensures forall i :: 0 <= i < |orders| && IdOf(orders[i]) != editingOrderId ==> r[i] == orders[i]
  {
    Map(orders, o => if IdOf(o) == editingOrderId then editedOrder else o)
  }

  /**
   * Saving while nothing is being edited (`editingOrderId` is `null`) changes
   * nothing: an order without `_id` has id `undefined`, which is not `null`.
   */
  lemma SaveWhileNotEditingKeepsList(orders: seq<Record>, editedOrder: Record)
    ensures ReplaceById(orders, Null, editedOrder) == orders
  {
    var r := ReplaceById(orders, Null, editedOrder);
    forall i | 0 <= i < |orders|
      ensures r[i] == orders[i]
    {
      assert IdOf(orders[i]) != Null;
    }
  }

  /** `{ ...prev, [field]: value }` */
  function SetField(prev: Record, field: string, value: string): (r: Record)
    ensures r.Keys == prev.Keys + {field}
    ensures r[field] == value
    ensures forall f :: f in prev && f != field ==> r[f] == prev[f]
  {
    prev[field := value]
  }

  /** Every order in the list has its own id. */
  ghost predicate UniqueIds(orders: seq<Record>) {
    forall i, j :: 0 <= i < |orders| && 0 <= j < |orders| && IdOf(orders[i]) == IdOf(orders[j]) ==> i == j
  }

  /** Saving an edit that changed nothing gives back the same list, when ids are unique. */
  lemma SaveUnchangedEditKeepsList(orders: seq<Record>, k: nat)
    requires k < |orders| && UniqueIds(orders)
    ensures ReplaceById(orders, IdOf(orders[k]), orders[k]) == orders
  {
    var r := ReplaceById(orders, IdOf(orders[k]), orders[k]);
    forall i | 0 <= i < |orders|
      ensures r[i] == orders[i]
    {
      if IdOf(orders[i]) == IdOf(orders[k]) {
        assert i == k;
      }
    }
  }

  /**
   * Editing one field of order `k` and saving changes exactly that field of
   * that order and nothing else in the list, when ids are unique and the
   * field is not `_id`.
   */
  lemma SaveFieldEditChangesOneEntry(orders: seq<Record>, k: nat, field: string, value: string)
    requires k < |orders| && UniqueIds(orders) && field != "_id"
    ensures
      var r := ReplaceById(orders, IdOf(orders[k]), SetField(orders[k], field, value));
      && |r| == |orders|
      && r[k] == orders[k][field := value]
      && (forall i :: 0 <= i < |orders| && i != k ==> r[i] == orders[i])
  {
    var edited := SetField(orders[k], field, value);
    var r := ReplaceById(orders, IdOf(orders[k]), edited);
    forall i | 0 <= i < |orders| && i != k
      ensures r[i] == orders[i]
    {
      assert IdOf(orders[i]) != IdOf(orders[k]);
    }
  }

  /** The outcome of the DELETE request the screen sends. */
  datatype DeleteReply =
    | Replied(ok: bool)             // a response arrived; `ok` is `response.ok`
    | NetworkError(message: string) // `fetch` itself rejected with this message

  /** The screen's state. */
  class OrderHistoryView {
    var orders: seq<Record>
    var error: Option<string>
    var successMsg: string
    var editingOrderId: JsId
    var editedOrder: Record

    /** The screen after the order list was fetched successfully. */
    constructor (fetched: seq<Record>)
      ensures orders == fetched
      ensures error == None && successMsg == ""
      ensures editingOrderId == Null && editedOrder == map[]
    {
      orders := fetched;
      error := None;
      successMsg := "";
      editingOrderId := Null;
      editedOrder := map[];
    }

    /** `handleSingleDelete(orderId)`, with the server's answer as `reply`. */
    method HandleSingleDelete(orderId: JsId, reply: DeleteReply)
      modifies this
      ensures editingOrderId == old(editingOrderId) && editedOrder == old(editedOrder)
      ensures !Truthy(orderId) ==>
        orders == old(orders) && error == old(error) && successMsg == old(successMsg)
      ensures Truthy(orderId) && reply == Replied(true) ==>
        && orders == RemoveById(old(orders), orderId)
        && successMsg == "Order deleted successfully!"
        && error == old(error)
      ensures Truthy(orderId) && reply == Replied(false) ==>
        orders == old(orders) && error == Some("Failed to delete order") && successMsg == old(successMsg)
      ensures Truthy(orderId) && reply.NetworkError? ==>
        orders == old(orders) && error == Some(reply.message) && successMsg == old(successMsg)
    {
      if !Truthy(orderId) {
        return;
      }
      match reply
      case NetworkError(message) =>
        error := Some(message);
      case Replied(ok) =>
        if !ok {
          error := Some("Failed to delete order");
        } else {
          orders := RemoveById(orders, orderId);
          successMsg := "Order deleted successfully!";
        }
    }

    /** `handleEdit(order)`: start editing a copy of `order`. */
    method HandleEdit(order: Record)
      modifies this
      ensures editingOrderId == IdOf(order) && editedOrder == order
      ensures orders == old(orders) && error == old(error) && successMsg == old(successMsg)
    {
      editingOrderId := IdOf(order);
      editedOrder := order;
    }

    /** `handleEditChange(field, value)`: change one field of the copy being edited. */
    method HandleEditChange(field: string, value: string)
      modifies this
      ensures editedOrder == SetField(old(editedOrder), field, value)
      ensures editingOrderId == old(editingOrderId)
      ensures orders == old(orders) && error == old(error) && successMsg == old(successMsg)
    {
      editedOrder := SetField(editedOrder, field, value);
    }

    /** `handleSaveEdit()`: put the edited copy in place of the order being edited. */
    method HandleSaveEdit()
      modifies this
      ensures orders == ReplaceById(old(orders), old(editingOrderId), old(editedOrder))
      ensures editingOrderId == Null && editedOrder == map[]
      ensures successMsg == "Order updated" && error == old(error)
    {
      orders := ReplaceById(orders, editingOrderId, editedOrder);
      editingOrderId := Null;
      editedOrder := map[];
      successMsg := "Order updated";
    }

    /** `handleCancelEdit()`: drop the edited copy. */
    method HandleCancelEdit()
      modifies this
      ensures editingOrderId == Null && editedOrder == map[]
      ensures orders == old(orders) && error == old(error) && successMsg == old(successMsg)
    {
      editingOrderId := Null;
      editedOrder := map[];
    }
  }

  /**
   * A whole edit session on order `k`: start, change one field, save. The list
   * then differs from before in that one field of that one order, and the
   * edit state is cleared.
   */
  method EditSession(view: OrderHistoryView, k: nat, field: string, value: string)
    requires k < |view.orders| && UniqueIds(view.orders) && field != "_id"
    modifies view
    ensures |view.orders| == |old(view.orders)|
    ensures view.orders[k] == old(view.orders)[k][field := value]
    ensures forall i :: 0 <= i < |view.orders| && i != k ==> view.orders[i] == old(view.orders)[i]
    ensures view.editingOrderId == Null && view.editedOrder == map[] && view.successMsg == "Order updated"
  {
    var before := view.orders;
    view.HandleEdit(view.orders[k]);
    view.HandleEditChange(field, value);
    view.HandleSaveEdit();
    SaveFieldEditChangesOneEntry(before, k, field, value);
  }
}
