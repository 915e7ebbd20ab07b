/**
 * The order back end (orderController.js): create, list, fetch, update the
 * status of and delete orders held in the order store, and e-mail the
 * customer when a status change calls for it.
 */
module OrderController {
  import opened Wrappers
  import opened JsString
  import opened JsArray

  type OrderId = string
  type UserId = string

  /** A stored order. `fields` holds the rest of the document, which this core never inspects. */
  datatype Order = Order(id: OrderId, userId: UserId, state: string, fields: map<string, string>)

  /** A registered user; only the e-mail address is used here. */
  datatype User = User(email: string)

  /** `{ ...order.toObject(), orderNumber: order.formatOrderNumber() }` */
  datatype FormattedOrder = FormattedOrder(order: Order, orderNumber: string)

  datatype Body =
    | Message(text: string)
    | One(formatted: FormattedOrder)
    | Many(list: seq<FormattedOrder>)
    | Plain(order: Order)          // the order as stored, without an order number

  datatype Response = Response(status: int, body: Body)

  /** An e-mail handed to the mail sender: recipient, subject, text. */
  datatype Email = Email(to: string, subject: string, text: string)

  /** Subject and text of a status notification. */
  datatype Notice = Notice(subject: string, text: string)

  /** The states `updateOrder` accepts, in the order the controller lists them. */
  const ValidStates: seq<string> :=
    ["processing", "accepted", "conduct", "finalizing", "process", "finished", "shipped", "delivered", "rejected"]

  /** The states whose notice is an e-mail to the customer. */
  const NotifyingStates: set<string> := {"accepted", "finished", "delivered", "rejected"}

  /** `validStates.includes(state)`; a missing `state` is never included. */
  predicate IsValidState(state: Option<string>) {
    state.Some? && state.value in ValidStates
  }

  /** The whitelist has `process` and not `created`, and it is case-sensitive. */
  lemma ValidStatesExamples()
    ensures IsValidState(Some("process")) && IsValidState(Some("rejected"))
    ensures !IsValidState(Some("created")) && !IsValidState(Some("Processing")) && !IsValidState(None)
  {
  }

  /** Every notifying state is one the whitelist accepts. */
  lemma NotifyingStatesAreValid(state: string)
    requires state in NotifyingStates
    ensures IsValidState(Some(state))
  {
  }

  /** The `switch (state)` that picks the e-mail for a new state and a formatted order number. */
  function NoticeFor(state: string, orderNumber: string): (r: Option<Notice>)
    ensures r.Some? <==> state in NotifyingStates
    ensures r.Some? ==> StartsWith(r.value.subject, "Order ") && EndsWith(r.value.subject, orderNumber)
    ensures r.Some? ==> StartsWith(r.value.text, "Your order " + orderNumber)
  {
    match state
    case "accepted" =>
      Some(Notice("Order Accepted: " + orderNumber, "Your order " + orderNumber + " has been accepted."))
    case "finished" =>
      Some(Notice("Order Finished: " + orderNumber, "Your order " + orderNumber + " is finished."))
    case "delivered" =>
      Some(Notice("Order Delivered: " + orderNumber, "Your order " + orderNumber + " has been delivered."))
    case "rejected" =>
      Some(Notice("Order Rejected: " + orderNumber, "Your order " + orderNumber + " has been rejected."))
    case _ => None
  }

  /** For one order number, the four notifying states give four different subjects. */
  lemma {:induction false} NoticeSubjectsDistinct(s1: string, s2: string, orderNumber: string)
    requires s1 in NotifyingStates && s2 in NotifyingStates && s1 != s2
    ensures NoticeFor(s1, orderNumber).value.subject != NoticeFor(s2, orderNumber).value.subject
  {
    var a := NoticeFor(s1, orderNumber).value.subject;
    var b := NoticeFor(s2, orderNumber).value.subject;
    // The first letter after "Order " names the state: A, F, D or R.
    assert a[6] == (if s1 == "accepted" then 'A' else if s1 == "finished" then 'F' else if s1 == "delivered" then 'D' else 'R');
    assert b[6] == (if s2 == "accepted" then 'A' else if s2 == "finished" then 'F' else if s2 == "delivered" then 'D' else 'R');
  }

  /** Attaches the order number, as `createOrder`, `getOrders` and `getOrderById` do. */
  function Format(order: Order, formatOrderNumber: Order -> string): FormattedOrder
  {
    FormattedOrder(order, formatOrderNumber(order))
  }

  /** `orders.map(order => ({ ...order.toObject(), orderNumber: order.formatOrderNumber() }))` */
  function FormatAll(found: seq<Order>, formatOrderNumber: Order -> string): (r: seq<FormattedOrder>)
    ensures |r| == |found|
    ensures forall i :: 0 <= i < |found| ==> r[i].order == found[i]
    ensures forall i :: 0 <= i < |found| ==> r[i].orderNumber == formatOrderNumber(found[i])
  {
    Map(found, o => Format(o, formatOrderNumber))
  }

  /**
   * The order store with its users. `orders` maps ids to documents; `ids`
   * lists the ids in the order `Order.find()`
   * returns them in, taken to be insertion order.
   */
  class OrderStore {
    var orders: map<OrderId, Order>
    var ids: seq<OrderId>
    const users: map<UserId, User>
    /** `order.formatOrderNumber()`: defined by the order schema, not part of this model. */
    const formatOrderNumber: Order -> string

    ghost predicate Valid()
      reads this
    {
      && Distinct(ids)
      && (forall k :: k in orders <==> k in ids)
      && (forall k :: k in orders ==> orders[k].id == k)
    }

    /** `Order.find()`: every stored order, in the order `ids` lists them. */
    function Find(): seq<Order>
      reads this
      requires Valid()
    {
      seq(|ids|, i requires 0 <= i < |ids| && Valid() reads this => orders[ids[i]])
    }

    constructor (users: map<UserId, User>, formatOrderNumber: Order -> string)
      ensures Valid()
      ensures orders == map[] && ids == []
      ensures this.users == users && this.formatOrderNumber == formatOrderNumber
    {
      this.users := users;
      this.formatOrderNumber := formatOrderNumber;
      orders := map[];
      ids := [];
    }

    /**
     * `createOrder`: `draft` is the new document with the id the store gives
     * it. Saving a document whose id is taken fails with 400.
     */
    method CreateOrder(draft: Order) returns (resp: Response)
      requires Valid()
      modifies this
      ensures Valid()
      ensures draft.id in old(orders) ==>
        resp.status == 400 && orders == old(orders) && ids == old(ids)
      ensures draft.id !in old(orders) ==>
        && orders == old(orders)[draft.id := draft]
        && ids == old(ids) + [draft.id]
        && resp == Response(201, One(FormattedOrder(draft, formatOrderNumber(draft))))
    {
      if draft.id in orders {
        resp := Response(400, Message("Duplicate order id"));
        return;
      }
      orders := orders[draft.id := draft];
      ids := ids + [draft.id];
      resp := Response(201, One(Format(draft, formatOrderNumber)));
    }

    /** `getOrders`: every stored order, in listing order, each with its order number. */
    method GetOrders() returns (resp: Response)
      requires Valid()
      ensures resp.status == 200 && resp.body.Many?
      ensures |resp.body.list| == |ids|
      ensures forall i :: 0 <= i < |ids| ==>
        resp.body.list[i] == FormattedOrder(orders[ids[i]], formatOrderNumber(orders[ids[i]]))
    {
      var found := Find();
      resp := Response(200, Many(FormatAll(found, formatOrderNumber)));
    }

    /** `getOrderById`: the order with its order number, or 404. */
    method GetOrderById(id: OrderId) returns (resp: Response)
      requires Valid()
      ensures id !in orders ==> resp == Response(404, Message("Order not found"))
      ensures id in orders ==>
        resp.status == 200 && resp.body == One(FormattedOrder(orders[id], formatOrderNumber(orders[id])))
    {
      if id !in orders {
        return Response(404, Message("Order not found"));
      }
      resp := Response(200, One(Format(orders[id], formatOrderNumber)));
    }

    /**
     * `updateOrder`: check `state` against the whitelist, overwrite the
     * order's state whatever it was, and e-mail the order's user when the new
     * state has a notice. `email` is the message passed to the mail sender,
     * if any.
     */
    method UpdateOrder(id: OrderId, state: Option<string>) returns (resp: Response, email: Option<Email>)
      requires Valid()
      modifies this
      ensures Valid() && ids == old(ids)
      ensures !IsValidState(state) ==>
        resp == Response(400, Message("Invalid status")) && email == None && orders == old(orders)
      ensures IsValidState(state) && id !in old(orders) ==>
        resp == Response(404, Message("Order not found")) && email == None && orders == old(orders)
      ensures IsValidState(state) && id in old(orders) ==>
        var updated := old(orders)[id].(state := state.value);
        && orders == old(orders)[id := updated]
        && resp == Response(200, Plain(updated))
        && (email.Some? <==> updated.userId in users && state.value in NotifyingStates)
        && (email.Some? ==>
              && email.value.to == users[updated.userId].email
              && NoticeFor(state.value, formatOrderNumber(updated))
                 == Some(Notice(email.value.subject, email.value.text)))
    {
      email := None;
      if !IsValidState(state) {
        return Response(400, Message("Invalid status")), None;
      }
      if id !in orders {
        return Response(404, Message("Order not found")), None;
      }
      var order := orders[id].(state := state.value);
      orders := orders[id := order];
      if order.userId in users {
        var user := users[order.userId];
        var notice := NoticeFor(state.value, formatOrderNumber(order));
        if notice.Some? {
          email := Some(Email(user.email, notice.value.subject, notice.value.text));
        }
      }
      resp := Response(200, Plain(order));
    }

    /** `deleteOrder`: 400 for an empty id, 404 for an unknown one, else remove exactly that order. */
    method DeleteOrder(id: OrderId) returns (resp: Response)
      requires Valid()
      modifies this
      ensures Valid()
      ensures id == "" ==>
        resp == Response(400, Message("Order ID is required")) && orders == old(orders) && ids == old(ids)
      ensures id != "" && id !in old(orders) ==>
        resp == Response(404, Message("Order not found")) && orders == old(orders) && ids == old(ids)
      ensures id != "" && id in old(orders) ==>
        && resp == Response(200, Message("Order deleted successfully"))
        && orders == old(orders) - {id}
        && ids == Filter(old(ids), k => k != id)
    {
      if id == "" {
        return Response(400, Message("Order ID is required"));
      }
      if id !in orders {
        return Response(404, Message("Order not found"));
      }
      FilterKeepsDistinct(ids, k => k != id);
      orders := orders - {id};
      ids := Filter(ids, k => k != id);
      resp := Response(200, Message("Order deleted successfully"));
    }
  }
}
