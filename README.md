# Orders: status updates, search and order-history edits

This project models the core of a small retail order system in Dafny and proves properties of that model. The core has three parts:

- **The order back end** (`orderController.js`). Orders are created, listed, fetched, deleted and given a new status. A status update checks the requested state against a fixed list of nine names. It then overwrites the stored state, whatever it was before, and e-mails the customer for four of those states. The store is the class `OrderController.OrderStore`. It holds a map from order id to order, plus a list of the ids that stands for the order in which `Order.find()` returns documents; the model takes that to be insertion order.
- **The admin search box** (`OrderDetails.jsx`). `handleSearch` lower-cases the typed text and keeps the orders whose lower-cased customer name, or whose order number taken as it is, contains that text. `OrderDetails.HandleSearch` models it as a function on the component's state.
- **The customer's order-history screen** (`OrderHistory.jsx`). It can delete one order from the list, and it can edit an order in place: start editing, change a field, save, or cancel. The screen's state is the class `OrderHistory.OrderHistoryView`, and each handler is a method on it.

`JsString` and `JsArray` model the JavaScript built-ins the core relies on: `toLowerCase`, `includes`, `Array.prototype.filter` and `Array.prototype.map`.

The code has no linear chain of states, no terminal states, no compare-and-swap and no retries. A request for any of the nine listed states is applied to any order, whatever its current state. The model keeps it that way. The list accepts `process` and does not accept `created`.

Outside inputs are parameters:
- `formatOrderNumber` is a function given to the store when it is built. Its body is defined by the order schema, which is not part of this model.
- The users known to the back end are a map given to the store when it is built.
- The e-mail is returned as a value saying who receives it and with which subject and text.
- The outcome of the order-history screen's DELETE request is a parameter.

## Model

| member | source | states |
|---|---|---|
| `OrderController.ValidStatesExamples` | orderController.js:51-54 | `process` and `rejected` are accepted; `created`, `Processing` and a missing state are refused |
| `OrderController.NotifyingStatesAreValid` | orderController.js:51-83 | each of the four states that send an e-mail is also accepted by the whitelist |
| `OrderController.NoticeFor` | orderController.js:67-86 | there is a notice exactly for `accepted`, `finished`, `delivered` and `rejected`; its subject starts with "Order " and ends with the order number; its text starts with "Your order " and the number |
| `OrderController.NoticeSubjectsDistinct` | orderController.js:68-83 | for the same order number, the four notifying states give four different subjects |
| `OrderController.FormatAll` | orderController.js:21-24 | formatting a list keeps its length and order; entry `i` is order `i` with its own order number |
| `OrderController.OrderStore.CreateOrder` | orderController.js:5-16 | a new order is stored and its id is appended to the listing order, and 201 returns it with its order number; an id already in use gives 400 and changes nothing |
| `OrderController.OrderStore.GetOrders` | orderController.js:18-25 | 200 with every stored order in the listing order, each with `formatOrderNumber` of that order |
| `OrderController.OrderStore.GetOrderById` | orderController.js:31-40 | 404 "Order not found" for an unknown id; otherwise 200 with the order and its order number |
| `OrderController.OrderStore.UpdateOrder` | orderController.js:46-93 | a state not on the list gives 400 "Invalid status" with no change and no e-mail; an unknown id gives 404 with no change and no e-mail; otherwise only that order's state is overwritten, whatever it was, and 200 returns the stored order; an e-mail goes to the user's address exactly when the user exists and the state is one of the four, with that state's subject and text |
| `OrderController.OrderStore.DeleteOrder` | orderController.js:99-111 | an empty id gives 400 with no change; an unknown id gives 404 with no change; otherwise exactly that order is removed and 200 is returned |
| `JsString.ToLower` | OrderDetails.jsx:74 | the result has the input's length; each character is lowered, so the result has no upper-case letter |
| `JsString.ToLowerIdempotent` | OrderDetails.jsx:74 | lowering an already lowered string changes nothing |
| `JsString.IncludesIffOccurs` | OrderDetails.jsx:78-79 | `includes` holds exactly when the substring occurs at some position |
| `JsString.IncludesEmpty` | OrderDetails.jsx:78-79 | every string includes "" |
| `JsArray.Filter` | OrderDetails.jsx:76-80 | the result is a subsequence of the input; it holds an element exactly when the input holds it and it passes the test; each passing element keeps its count |
| `JsArray.FilterKeepsAll` | OrderDetails.jsx:76-80 | when every element passes, the filter returns the input itself |
| `JsArray.FilterKeepsDistinct` | orderController.js:106 | filtering a list without duplicates gives a list without duplicates, so deleting an id keeps the store's ids unique |
| `OrderDetails.HandleSearch` | OrderDetails.jsx:73-82 | `orders` is unchanged; the stored term is the lower-cased input; the filtered list is a subsequence of `orders`; an order is kept, with its count, exactly when its lower-cased name or its unlowered order number contains the term |
| `OrderDetails.SearchEmptyKeepsAll` | OrderDetails.jsx:76-80 | an empty search keeps every order, in order |
| `OrderDetails.SearchStoredTermAgain` | OrderDetails.jsx:74-75 | searching again for the stored term gives the same view |
| `OrderDetails.LastSearchWins` | OrderDetails.jsx:76 | each search filters the full `orders`, not the previous result |
| `OrderDetails.NumberMatchIsCaseSensitive` | OrderDetails.jsx:74-79 | typing "ORD123" does not find the order numbered "ORD123" for customer "Ann", because only the term is lowered |
| `OrderHistory.IdOf` | OrderHistory.jsx:63-87 | `order._id` is a string exactly when the field is present, and `undefined` (never `null`) otherwise |
| `OrderHistory.SaveWhileNotEditingKeepsList` | OrderHistory.jsx:84-89 | saving while `editingOrderId` is `null` leaves the list unchanged, because no order's `_id` is `null` |
| `OrderHistory.RemoveById` | OrderHistory.jsx:63 | the result is a subsequence of the list; it drops exactly the entries whose `_id` strictly equals the id, and keeps all others with their counts |
| `OrderHistory.ReplaceById` | OrderHistory.jsx:85-89 | the length is kept; entries whose `_id` strictly equals the editing id become the edited order; all others are unchanged |
| `OrderHistory.SetField` | OrderHistory.jsx:78-81 | only the named field is set; the other fields keep their values |
| `OrderHistory.SaveUnchangedEditKeepsList` | OrderHistory.jsx:72-89 | when ids are unique, saving an unchanged copy of an order gives back the same list |
| `OrderHistory.SaveFieldEditChangesOneEntry` | OrderHistory.jsx:77-89 | when ids are unique, editing one non-`_id` field of order `k` and saving changes that field of order `k` and nothing else |
| `OrderHistory.OrderHistoryView.constructor` | OrderHistory.jsx:6-21 | after a successful fetch, the list is the fetched orders; nothing is being edited; there is no message and no error |
| `OrderHistory.OrderHistoryView.HandleSingleDelete` | OrderHistory.jsx:51-70 | a falsy id changes nothing; a success removes exactly the matching orders and sets the success message; a failed response or network error leaves the list unchanged and sets the error |
| `OrderHistory.OrderHistoryView.HandleEdit` | OrderHistory.jsx:72-75 | the editing id becomes the order's `_id` and the edited order becomes a copy of it; nothing else changes |
| `OrderHistory.OrderHistoryView.HandleEditChange` | OrderHistory.jsx:77-82 | only the named field of the edited order changes |
| `OrderHistory.OrderHistoryView.HandleSaveEdit` | OrderHistory.jsx:84-92 | matching entries are replaced by the edited order; the edit state is cleared; the success message is "Order updated" |
| `OrderHistory.OrderHistoryView.HandleCancelEdit` | OrderHistory.jsx:96-99 | the edit state is cleared; the list, error and message are unchanged |
| `OrderHistory.EditSession` | OrderHistory.jsx:72-94 | starting an edit, changing one field and saving changes that one field of that one order; the edit state ends cleared |

## Left out

- HTTP plumbing, Mongoose queries and `fetch`/`axios` calls. The store is a map with a list of ids, and each outcome is a status code with a body.
- `formatOrderNumber` (in `models/Order`): its body is not part of this model. It is a function the store is given.
- The order schema (`models/Order`): its defaults and its validators (`runValidators: true`) are not part of this model. A stored order has an id, a user id, a state and opaque other fields.
- `sendEmail` (in `utils/sendEmail`): only the recipient, subject and text it is called with are modelled. A send that throws is not modelled. In the source it would turn an already stored update into a 400.
- The catch-all exception paths that answer 400 or 500 on an arbitrary thrown error (orderController.js:13-14, 26-27, 41-42, 94-95, 112-113). Two examples are an id that is not a valid object id and a store failure. The one exception modelled is the save of an id already in use, which `OrderController.OrderStore.CreateOrder` answers with 400.
- `OrderController.OrderStore.CreateOrder`: its 400 body text is not stated, because the source sends the store's own error message.
- `User.findById` is a lookup in the user map. A failing lookup is not modelled.
- `JsString.ToLower`: only the ASCII letters A-Z are lowered. Unicode case mapping is not modelled.
- `OrderDetails.ListedOrder`: the order number is taken to be a string, so `toString()` leaves it unchanged. A numeric order number would first be written out in decimal.
- The PDF export (`downloadPDF`). It is a library call with floating-point page sizes.
- The JSX rendering, the dialogs, the customer-profile fetch and `handleProcess` navigation.
- The `setTimeout` that clears the success message after three seconds (OrderHistory.jsx:66, 93). It is driven by a timer.
- The initial fetch of the order history, and its fallback to dummy orders on failure (OrderHistory.jsx:13-49). The view starts from a successful fetch instead.
- React's batching of state updates: each handler's updates are applied at once, in the order written.
- `OrderController.OrderStore`: MongoDB does not guarantee that `Order.find()` returns documents in insertion order. The model takes the listing order to be insertion order, with a deleted id dropped from its place.
- `OrderHistory.OrderHistoryView.HandleSingleDelete`: the source filters the `orders` it captured when the handler started, after awaiting the DELETE request (OrderHistory.jsx:55-64). The model applies the reply to the list as it is when the reply arrives. So it does not capture overlapping requests. For example, deleting A and then B before A's reply arrives makes A reappear in the source. An edit saved during the wait is lost in the same way.
- `OrderDetails.HandleSearch`: every listed order is assumed to have a string `customerName` and a string `orderNumber`. In the source, a missing or `null` `customerName` makes `toLowerCase()` throw (OrderDetails.jsx:78). A `null` `orderNumber` throws whenever the name does not match (OrderDetails.jsx:79). In both cases the new search term is already stored (line 75) and `filteredOrders` keeps its old value. The model does not capture that outcome.
