/** The checkout endpoint: validates the order, builds the Snap request (order
    totals, customer, items, callbacks) and turns the gateway's reply into the app's
    answer. The gateway call is the `reply` parameter. */
module CreateTransaction {
  import opened Php

  /** One entry of `item_details` as sent to the gateway. */
  datatype Item = Item(id: Value, price: int, quantity: int, name: Value)

  /** `customer_details` when the request supplies one. */
  datatype Customer = Customer(firstName: Value, email: Value, phone: Value)

  /** The Snap request body. `customer` is None where the source sends `[]`. */
  datatype SnapPayload = SnapPayload(
    orderId: Value,
    grossAmount: int,
    customer: Option<Customer>,
    items: seq<Item>,
    callbacks: seq<(string, string)>)

  const Callbacks: seq<(string, string)> := [
    ("finish", "quadraplay://payment/finish"),
    ("unfinish", "quadraplay://payment/unfinish"),
    ("error", "quadraplay://payment/error")]

  const DefaultItemId := "rental-ps"
  const DefaultItemName := "Rental PlayStation"

  // ---------------------------------------------------------------- validation

  /** The 400 answer for a request body the endpoint refuses, if any, in the order
      the checks are made. */
  function Rejection(input: Value): (r: Option<string>)
    ensures r == Some("Invalid JSON input") <==> !Truthy(input)
    ensures r == Some("order_id is required") <==> Truthy(input) && IsEmpty(Field(input, "order_id"))
    ensures r == Some("gross_amount must be greater than 0")
        <==> Truthy(input) && Truthy(Field(input, "order_id"))
             && (IsEmpty(Field(input, "gross_amount")) || LooseLeqZero(Field(input, "gross_amount")))
    ensures r == None <==>
              Truthy(input) && !IsEmpty(Field(input, "order_id"))
              && !IsEmpty(Field(input, "gross_amount")) && !LooseLeqZero(Field(input, "gross_amount"))
  {
    if !Truthy(input) then Some("Invalid JSON input")
    else if IsEmpty(Field(input, "order_id")) then Some("order_id is required")
    else if IsEmpty(Field(input, "gross_amount")) || LooseLeqZero(Field(input, "gross_amount")) then
      Some("gross_amount must be greater than 0")
    else None
  }

  /** A positive integer amount passes the amount check, and any amount of at most zero
      is refused. */
  lemma AmountCheck(input: Value, g: int)
    requires Truthy(input) && Truthy(Field(input, "order_id"))
    requires Field(input, "gross_amount") == Int(g)
    ensures Rejection(input) == None <==> g > 0
  {
  }

  // ---------------------------------------------------------------- customer and items

  /** The customer block: sent only when the request has a non-empty one. */
  function CustomerFor(input: Value): (c: Option<Customer>)
    ensures c.Some? <==> Truthy(Field(input, "customer_details"))
    ensures c.Some? ==>
              var given := Field(input, "customer_details");
              (Field(given, "first_name") != Null ==> c.value.firstName == Field(given, "first_name"))
              && (Field(given, "first_name") == Null ==> c.value.firstName == Str("Customer"))
              && (Field(given, "email") != Null ==> c.value.email == Field(given, "email"))
              && (Field(given, "email") == Null ==> c.value.email == Str(""))
              && (Field(given, "phone") != Null ==> c.value.phone == Field(given, "phone"))
              && (Field(given, "phone") == Null ==> c.value.phone == Str(""))
  {
    var given := Field(input, "customer_details");
    if IsEmpty(given) then None
    else Some(Customer(
      Coalesce(Field(given, "first_name"), Str("Customer")),
      Coalesce(Field(given, "email"), Str("")),
      Coalesce(Field(given, "phone"), Str(""))))
  }

  /** The price of an item whose own price is 0: the amount split over the quantity,
      truncated, or the whole amount when the quantity is not positive. None where the
      division throws (an amount that is not a number). */
  function FilledPrice(quantity: int, price: int, grossAmount: Value): Option<int> {
    if price == 0 && !IsEmpty(grossAmount) then
      if quantity > 0 then
        (match NumericOperand(grossAmount) case None => None case Some(g) => Some(TruncDiv(g, quantity)))
      else Some(IntCast(grossAmount))
    else Some(price)
  }

  /** One output item for one input item; None where computing its price throws. */
  function ItemFor(item: Value, grossAmount: Value): Option<Item> {
    var quantity := IntCast(Coalesce(Field(item, "quantity"), Int(1)));
    var price := IntCast(Coalesce(Field(item, "price"), Int(0)));
    match FilledPrice(quantity, price, grossAmount)
    case None => None
    case Some(p) =>
      Some(Item(Coalesce(Field(item, "id"), Str("item")), p, quantity, Coalesce(Field(item, "name"), Str("Item"))))
  }

  /** An item without a price gets the per-unit share of a positive amount: the
      largest price whose total does not exceed the amount. */
  lemma PerUnitPrice(item: Value, g: int)
    requires g > 0
    requires IntCast(Coalesce(Field(item, "price"), Int(0))) == 0
    requires IntCast(Coalesce(Field(item, "quantity"), Int(1))) > 0
    ensures ItemFor(item, Int(g)).Some?
    ensures var it := ItemFor(item, Int(g)).value;
            it.quantity > 0 && it.price * it.quantity <= g < (it.price + 1) * it.quantity
  {
  }

  /** With no positive quantity, an unpriced item takes the whole amount. */
  lemma NonPositiveQuantityPrice(item: Value, grossAmount: Value)
    requires Truthy(grossAmount)
    requires IntCast(Coalesce(Field(item, "price"), Int(0))) == 0
    requires IntCast(Coalesce(Field(item, "quantity"), Int(1))) <= 0
    ensures ItemFor(item, grossAmount) == Some(Item(
              Coalesce(Field(item, "id"), Str("item")), IntCast(grossAmount),
              IntCast(Coalesce(Field(item, "quantity"), Int(1))), Coalesce(Field(item, "name"), Str("Item"))))
  {
  }

  /** An item that carries no keys at all becomes one "Item" of the whole amount. */
  lemma BareItemDefaults(item: Value, g: int)
    requires g > 0
    requires Field(item, "quantity") == Null && Field(item, "price") == Null
    requires Field(item, "id") == Null && Field(item, "name") == Null
    ensures ItemFor(item, Int(g)) == Some(Item(Str("item"), g, 1, Str("Item")))
  {
    assert TruncDiv(g, 1) == g;
  }

  /** A price the request gives is kept, whatever the amount. */
  lemma GivenPriceKept(item: Value, grossAmount: Value)
    requires IntCast(Coalesce(Field(item, "price"), Int(0))) != 0
    ensures ItemFor(item, grossAmount).Some?
    ensures ItemFor(item, grossAmount).value.price == IntCast(Field(item, "price"))
  {
  }

  /** The foreach over `item_details`: one output item per input item, in order; None
      as soon as one of them throws. */
  method BuildItemDetails(items: seq<Value>, grossAmount: Value) returns (r: Option<seq<Item>>)
    ensures r.Some? <==> forall j :: 0 <= j < |items| ==> ItemFor(items[j], grossAmount).Some?
    ensures r.Some? ==> |r.value| == |items|
                        && forall j :: 0 <= j < |items| ==> ItemFor(items[j], grossAmount) == Some(r.value[j])
  {
    var itemDetails: seq<Item> := [];
    var k := 0;
    while k < |items|
      invariant 0 <= k <= |items|
      invariant |itemDetails| == k
      invariant forall j :: 0 <= j < k ==> ItemFor(items[j], grossAmount) == Some(itemDetails[j])
    {
      var item := ItemFor(items[k], grossAmount);
      if item.None? {
        return None;
      }
      itemDetails := itemDetails + [item.value];
      k := k + 1;
    }
    return Some(itemDetails);
  }

  /** The items sent: the converted `item_details` when the request has a non-empty
      one, else the single default rental item. */
  function ItemsFor(input: Value): (r: Option<seq<Item>>)
    ensures IsEmpty(Field(input, "item_details")) ==>
              r == Some([Item(Str(DefaultItemId), IntCast(Field(input, "gross_amount")), 1, Str(DefaultItemName))])
    ensures Truthy(Field(input, "item_details")) ==>
              var given := Elements(Field(input, "item_details"));
              (r.Some? <==> forall j :: 0 <= j < |given| ==> ItemFor(given[j], Field(input, "gross_amount")).Some?)
              && (r.Some? ==> |r.value| == |given|
                              && forall j :: 0 <= j < |given| ==>
                                   ItemFor(given[j], Field(input, "gross_amount")) == Some(r.value[j]))
  {
    var given := Field(input, "item_details");
    if IsEmpty(given) then
      Some([Item(Str(DefaultItemId), IntCast(Field(input, "gross_amount")), 1, Str(DefaultItemName))])
    else
      ConvertAll(Elements(given), Field(input, "gross_amount"))
  }

  /** The items of a sequence converted one by one (the function the loop computes). */
  function ConvertAll(items: seq<Value>, grossAmount: Value): (r: Option<seq<Item>>)
    ensures r.Some? <==> forall j :: 0 <= j < |items| ==> ItemFor(items[j], grossAmount).Some?
    ensures r.Some? ==> |r.value| == |items|
                        && forall j :: 0 <= j < |items| ==> ItemFor(items[j], grossAmount) == Some(r.value[j])
  {
    if items == [] then Some([])
    else
      match ItemFor(items[0], grossAmount)
      case None => None
      case Some(first) =>
        match ConvertAll(items[1..], grossAmount)
        case None =>
          assert forall j :: 1 <= j < |items| ==> items[1..][j - 1] == items[j];
          None
        case Some(more) => Some([first] + more)
  }

  /** The request the endpoint sends for a body that passed validation; None where
      building it throws. */
  function Payload(input: Value): Option<SnapPayload> {
    match ItemsFor(input)
    case None => None
    case Some(items) =>
      Some(SnapPayload(Field(input, "order_id"), IntCast(Field(input, "gross_amount")),
                       CustomerFor(input), items, Callbacks))
  }

  /** Every request sent asks the gateway to return to the app's three payment URIs. */
  lemma CallbacksFixed(input: Value)
    requires Payload(input).Some?
    ensures Payload(input).value.callbacks == Callbacks
    ensures |Payload(input).value.callbacks| == 3
    ensures forall j :: 0 <= j < 3 ==> Payload(input).value.callbacks[j].1 == "quadraplay://payment/" + Payload(input).value.callbacks[j].0
  {
  }

  /** Without item_details, exactly one item is sent and it carries the whole amount. */
  lemma DefaultItemCarriesAmount(input: Value, g: int)
    requires IsEmpty(Field(input, "item_details"))
    requires Field(input, "gross_amount") == Int(g)
    ensures Payload(input).Some?
    ensures Payload(input).value.items == [Item(Str("rental-ps"), g, 1, Str("Rental PlayStation"))]
    ensures Payload(input).value.grossAmount == g
  {
  }

  // ---------------------------------------------------------------- the gateway's reply

  /** The message of a failed reply: the first error message, else the message, else a
      fixed text. */
  function ErrorMessage(data: Value): Value {
    Coalesce(Get(Field(data, "error_messages"), IntKey(0)),
      Coalesce(Field(data, "message"), Str("Failed to create transaction")))
  }

  /** The body of a successful answer: the token and redirect URL the gateway gave. */
  function SuccessBody(data: Value, orderId: Value): (b: Value)
    ensures Field(b, "success") == Bool(true)
    ensures Field(b, "snap_token") == Field(data, "token")
    ensures Field(b, "redirect_url") == Field(data, "redirect_url")
    ensures Field(b, "order_id") == orderId
  {
    var fields := [("success", Bool(true)), ("snap_token", Field(data, "token")),
                   ("redirect_url", Field(data, "redirect_url")), ("order_id", orderId)];
    ObjField(fields, 0); ObjField(fields, 1); ObjField(fields, 2); ObjField(fields, 3);
    Obj(fields)
  }

  /** The body of a refusal: the message chain and the gateway's whole reply. */
  function ErrorBody(data: Value): (b: Value)
    ensures Field(b, "success") == Bool(false)
    ensures Field(b, "message") == ErrorMessage(data)
    ensures Field(b, "details") == data
  {
    var fields := [("success", Bool(false)), ("message", ErrorMessage(data)), ("details", data)];
    ObjField(fields, 0); ObjField(fields, 1); ObjField(fields, 2);
    Obj(fields)
  }

  /** The answer for the gateway's reply to a request for `orderId`. */
  function ClassifySnapReply(reply: CurlReply, orderId: Value): (r: Response)
    ensures r.Json?
    ensures Truthy(Str(reply.error)) ==>
              r == Json(500, Failure("Connection error: " + reply.error))
    ensures !Truthy(Str(reply.error)) ==>
              (Field(r.body, "success") == Bool(true)
               <==> 200 <= reply.httpCode < 300 && Truthy(Field(reply.body, "token")))
    ensures !Truthy(Str(reply.error)) && Field(r.body, "success") == Bool(true) ==>
              r.status == 200 && Field(r.body, "snap_token") == Field(reply.body, "token")
              && Field(r.body, "order_id") == orderId
    ensures !Truthy(Str(reply.error)) && Field(r.body, "success") != Bool(true) ==>
              r.status == (if reply.httpCode >= 400 then reply.httpCode else 400) && r.status >= 400
              && Field(r.body, "message") == ErrorMessage(reply.body)
              && Field(r.body, "details") == reply.body
  {
    if Truthy(Str(reply.error)) then Json(500, Failure("Connection error: " + reply.error))
    else
      var data := reply.body;
      if 200 <= reply.httpCode < 300 && Truthy(Field(data, "token")) then
        Json(200, SuccessBody(data, orderId))
      else
        Json(if reply.httpCode >= 400 then reply.httpCode else 400, ErrorBody(data))
  }

  /** The fallback chain of the error message, case by case. */
  lemma ErrorMessageChain(data: Value)
    ensures Get(Field(data, "error_messages"), IntKey(0)) != Null ==>
              ErrorMessage(data) == Get(Field(data, "error_messages"), IntKey(0))
    ensures Get(Field(data, "error_messages"), IntKey(0)) == Null && Field(data, "message") != Null ==>
              ErrorMessage(data) == Field(data, "message")
    ensures Get(Field(data, "error_messages"), IntKey(0)) == Null && Field(data, "message") == Null ==>
              ErrorMessage(data) == Str("Failed to create transaction")
  {
  }

  // ---------------------------------------------------------------- the endpoint

  /** create_transaction.php for one request: the answer and the request sent to the
      gateway (None when none was sent). `reply` is the gateway's answer. */
  method HandleCreateTransaction(requestMethod: string, input: Value, reply: CurlReply)
    returns (response: Response, sent: Option<SnapPayload>)
    ensures requestMethod == "OPTIONS" ==> response == Bare(200) && sent == None
    ensures requestMethod != "OPTIONS" && requestMethod != "POST" ==>
              response == Json(200, Failure("Method not allowed")) && sent == None
    ensures requestMethod == "POST" && Rejection(input).Some? ==>
              response == Json(400, Failure(Rejection(input).value)) && sent == None
    ensures requestMethod == "POST" && Rejection(input).None? ==> sent == Payload(input)
    ensures requestMethod == "POST" && Rejection(input).None? && Payload(input).None? ==>
              response == Bare(500)
    ensures sent.Some? ==> response == ClassifySnapReply(reply, Field(input, "order_id"))
  {
    if requestMethod == "OPTIONS" {
      return Bare(200), None;
    }
    if requestMethod != "POST" {
      // The source echoes the refusal without setting a status code.
      return Json(200, Failure("Method not allowed")), None;
    }
    var rejection := Rejection(input);
    if rejection.Some? {
      return Json(400, Failure(rejection.value)), None;
    }
    var grossAmount := Field(input, "gross_amount");
    var customerDetails := CustomerFor(input);
    var itemDetails: seq<Item>;
    if !IsEmpty(Field(input, "item_details")) {
      var converted := BuildItemDetails(Elements(Field(input, "item_details")), grossAmount);
      ConvertedAsSpecified(Elements(Field(input, "item_details")), grossAmount, converted);
      if converted.None? {
        // The division threw a TypeError, which `catch (Exception $e)` does not catch.
        return Bare(500), None;
      }
      itemDetails := converted.value;
    } else {
      itemDetails := [Item(Str(DefaultItemId), IntCast(grossAmount), 1, Str(DefaultItemName))];
    }
    var snapPayload := SnapPayload(Field(input, "order_id"), IntCast(grossAmount), customerDetails,
                                   itemDetails, Callbacks);
    sent := Some(snapPayload);
    response := ClassifySnapReply(reply, Field(input, "order_id"));
  }

  /** Two results that both meet the per-item contract are the same. */
  lemma ConvertedAsSpecified(items: seq<Value>, grossAmount: Value, r: Option<seq<Item>>)
    requires r.Some? <==> forall j :: 0 <= j < |items| ==> ItemFor(items[j], grossAmount).Some?
    requires r.Some? ==> |r.value| == |items|
                         && forall j :: 0 <= j < |items| ==> ItemFor(items[j], grossAmount) == Some(r.value[j])
    ensures r == ConvertAll(items, grossAmount)
  {
    var s := ConvertAll(items, grossAmount);
    if r.Some? {
      assert r.value == s.value;
    }
  }
}
