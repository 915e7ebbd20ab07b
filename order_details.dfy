/**
 * The search box of the admin order list (OrderDetails.jsx): `handleSearch`
 * lower-cases what was typed, stores it as the search term and keeps the
 * orders whose customer name or order number contains it.
 */
module OrderDetails {
  import opened JsString
  import opened JsArray

  /** A row of the admin order list, as the order listing endpoint sends it. */
  datatype ListedOrder = ListedOrder(
    customerName: string,
    orderNumber: string,
    orderDetails: string,
    userId: string)

  /** The component state that `handleSearch` reads and sets. */
  datatype SearchView = SearchView(
    orders: seq<ListedOrder>,
    filteredOrders: seq<ListedOrder>,
    searchTerm: string)

  /**
   * The filter's test. The customer name is lower-cased before the
   * comparison; the order number is compared exactly as it is.
   */
  predicate Matches(order: ListedOrder, value: string) {
    Includes(ToLower(order.customerName), value) || Includes(order.orderNumber, value)
  }

  /** `handleSearch` for the typed text `input`. */
  function HandleSearch(view: SearchView, input: string): (next: SearchView)
    ensures next.orders == view.orders
    ensures next.searchTerm == ToLower(input)
    ensures IsSubsequence(next.filteredOrders, view.orders)
    ensures forall o :: o in next.filteredOrders <==> o in view.orders && Matches(o, ToLower(input))
    ensures forall o ::
              multiset(next.filteredOrders)[o] == if Matches(o, ToLower(input)) then multiset(view.orders)[o] else 0
  {
    var value := ToLower(input);
    SearchView(view.orders, Filter(view.orders, o => Matches(o, value)), value)
  }

  /** Clearing the search box shows every order again, in the original order. */
  lemma SearchEmptyKeepsAll(view: SearchView)
    ensures HandleSearch(view, "").filteredOrders == view.orders
    ensures HandleSearch(view, "").searchTerm == ""
  {
    forall o | o in view.orders
      ensures Matches(o, "")
    {
      IncludesEmpty(ToLower(o.customerName));
    }
    FilterKeepsAll(view.orders, o => Matches(o, ""));
  }

  /** Searching again for the stored term gives the same view: the stored term is already lower case. */
  lemma SearchStoredTermAgain(view: SearchView, input: string)
    ensures HandleSearch(view, HandleSearch(view, input).searchTerm) == HandleSearch(view, input)
  {
    ToLowerIdempotent(input);
  }

  /** Each search filters the full list, not the previous result: the last search alone decides the view. */
  lemma LastSearchWins(view: SearchView, first: string, second: string)
    ensures HandleSearch(HandleSearch(view, first), second) == HandleSearch(view, second)
  {
  }

  lemma IncludesNeedsRoom(s: string, sub: string)
    requires Includes(s, sub)
    ensures |sub| <= |s|
  {
    IncludesIffOccurs(s, sub);
  }

  /**
   * Typing an order number as it is displayed does not find it when it holds
   * upper-case letters: the term is lower-cased, the number is not.
   */
  lemma NumberMatchIsCaseSensitive()
    ensures
      var order := ListedOrder("Ann", "ORD123", "2x Cake", "u1");
      HandleSearch(SearchView([order], [order], ""), "ORD123").filteredOrders == []
  {
    var order := ListedOrder("Ann", "ORD123", "2x Cake", "u1");
    var term := ToLower("ORD123");
    assert term == "ord123";
    if Includes(ToLower("Ann"), term) {
      IncludesNeedsRoom(ToLower("Ann"), term);
    }
    IncludesSameLength("ORD123", term);
    assert !Matches(order, term);
  }
}
