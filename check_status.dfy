/** The status poll: finds the order id (query string first, then a POST body),
    asks the gateway for that transaction's status and passes the answer on. The
    gateway call is the `reply` parameter and `urlencode` the encoding oracle. */
module CheckStatus {
  import opened Php

  const ApiUrl := "https://api.sandbox.midtrans.com"

  /** What one poll does: the answer, and the status URL requested (None when the
      gateway was not called). */
  datatype StatusOutcome = StatusOutcome(response: Response, url: Option<string>)

  /** The order id the poll is about: the query string's, or on a POST whose query
      value is falsy, the JSON body's. */
  function RequestedOrderId(requestMethod: string, query: Value, body: Value): (o: Value)
    ensures Truthy(Field(query, "order_id")) ==> o == Field(query, "order_id")
    ensures !Truthy(Field(query, "order_id")) && requestMethod == "POST" ==> o == Field(body, "order_id")
    ensures !Truthy(Field(query, "order_id")) && requestMethod != "POST" ==> !Truthy(o)
  {
    var orderId := Coalesce(Field(query, "order_id"), Null);
    if !Truthy(orderId) && requestMethod == "POST" then Coalesce(Field(body, "order_id"), Null)
    else orderId
  }

  /** The body is never read on a GET: two GET polls with the same query agree on the
      order id whatever their bodies. */
  lemma GetIgnoresBody(query: Value, body1: Value, body2: Value)
    ensures RequestedOrderId("GET", query, body1) == RequestedOrderId("GET", query, body2)
  {
  }

  /** The gateway's status URL for an order id. */
  function StatusUrl(urlencode: string -> string, orderId: string): (u: string)
    ensures |u| == |ApiUrl| + 4 + |urlencode(orderId)| + 7
    ensures u[..|ApiUrl| + 4] == ApiUrl + "/v2/"
    ensures u[|ApiUrl| + 4..|u| - 7] == urlencode(orderId)
    ensures u[|u| - 7..] == "/status"
  {
    var u := ApiUrl + "/v2/" + urlencode(orderId) + "/status";
    assert u == (ApiUrl + "/v2/") + urlencode(orderId) + "/status";
    u
  }

  /** The URL determines the encoded order id: two order ids whose encodings differ
      never poll the same transaction. */
  lemma StatusUrlDeterminesOrder(urlencode: string -> string, a: string, b: string)
    requires StatusUrl(urlencode, a) == StatusUrl(urlencode, b)
    ensures urlencode(a) == urlencode(b)
  {
    var u := StatusUrl(urlencode, a);
    assert u[|ApiUrl| + 4..|u| - 7] == urlencode(a);
    assert u[|ApiUrl| + 4..|u| - 7] == urlencode(b);
  }

  /** The text urlencode receives; None for an array, where PHP 8 throws. */
  function UrlArgument(orderId: Value): Option<string> {
    if orderId.Arr? then None else Some(ToStr(orderId))
  }

  /** The keys of the data block copied from the gateway's answer, with null for any
      it does not carry. */
  const CopiedKeys: seq<string> := [
    "transaction_id", "transaction_status", "status_code", "status_message", "payment_type",
    "gross_amount", "fraud_status", "settlement_time", "expiry_time", "va_numbers",
    "payment_code", "transaction_time"]

  function DataFields(data: Value, orderId: Value): seq<(string, Value)> {
    [("order_id", Coalesce(Field(data, "order_id"), orderId))]
      + seq(|CopiedKeys|, j requires 0 <= j < |CopiedKeys| => (CopiedKeys[j], Coalesce(Field(data, CopiedKeys[j]), Null)))
  }

  lemma DataKeysDistinct(data: Value, orderId: Value, j: nat)
    requires j < |DataFields(data, orderId)|
    ensures forall i :: 0 <= i < |DataFields(data, orderId)| && i != j ==>
              DataFields(data, orderId)[i].0 != DataFields(data, orderId)[j].0
  {
    var f := DataFields(data, orderId);
    var keys := ["order_id"] + CopiedKeys;
    assert forall i :: 0 <= i < |f| ==> f[i].0 == keys[i];
    assert forall i, k :: 0 <= i < k < |keys| ==> keys[i] != keys[k] by {
      forall i, k | 0 <= i < k < |keys| ensures keys[i] != keys[k] {
        KeysDiffer(keys, i, k);
      }
    }
  }

  /** Two keys of the data block differ (each pair differs in length or in a character
      among the first three). */
  lemma KeysDiffer(keys: seq<string>, i: nat, k: nat)
    requires keys == ["order_id"] + CopiedKeys
    requires i < k < |keys|
    ensures keys[i] != keys[k]
  {
    if |keys[i]| == |keys[k]| {
      assert keys[i][..3] != keys[k][..3] || keys[i][3..] != keys[k][3..];
    }
  }

  /** The data block of a successful poll. */
  function StatusData(data: Value, orderId: Value): (b: Value)
    ensures Field(b, "order_id") == (if Field(data, "order_id") != Null then Field(data, "order_id") else orderId)
    ensures forall j :: 0 <= j < |CopiedKeys| ==> Field(b, CopiedKeys[j]) == Field(data, CopiedKeys[j])
  {
    var fields := DataFields(data, orderId);
    ObjField(fields, 0);
    assert forall j :: 0 <= j < |CopiedKeys| ==> Field(Obj(fields), CopiedKeys[j]) == Field(data, CopiedKeys[j]) by {
      forall j | 0 <= j < |CopiedKeys| ensures Field(Obj(fields), CopiedKeys[j]) == Field(data, CopiedKeys[j]) {
        DataKeysDistinct(data, orderId, j + 1);
        ObjField(fields, j + 1);
      }
    }
    Obj(fields)
  }

  /** The message of a failed poll: the gateway's status message, else its message,
      else a fixed text. */
  function ErrorMessage(data: Value): Value {
    Coalesce(Field(data, "status_message"), Coalesce(Field(data, "message"), Str("Transaction not found")))
  }

  function ErrorBody(data: Value): (b: Value)
    ensures Field(b, "success") == Bool(false)
    ensures Field(b, "message") == ErrorMessage(data)
    ensures Field(b, "status_code") == Field(data, "status_code")
  {
    var fields := [("success", Bool(false)), ("message", ErrorMessage(data)),
                   ("status_code", Coalesce(Field(data, "status_code"), Null))];
    ObjField(fields, 0); ObjField(fields, 1); ObjField(fields, 2);
    Obj(fields)
  }

  function SuccessBody(data: Value, orderId: Value): (b: Value)
    ensures Field(b, "success") == Bool(true)
    ensures Field(b, "data") == StatusData(data, orderId)
  {
    var fields := [("success", Bool(true)), ("data", StatusData(data, orderId))];
    ObjField(fields, 0); ObjField(fields, 1);
    Obj(fields)
  }

  /** The answer for the gateway's reply about `orderId`. */
  function ClassifyStatusReply(reply: CurlReply, orderId: Value): (r: Response)
    ensures r.Json?
    ensures Truthy(Str(reply.error)) ==> r == Json(500, Failure("Connection error: " + reply.error))
    ensures !Truthy(Str(reply.error)) ==>
              (Field(r.body, "success") == Bool(true)
               <==> 200 <= reply.httpCode < 300 && Truthy(Field(reply.body, "transaction_status")))
    ensures !Truthy(Str(reply.error)) && Field(r.body, "success") == Bool(true) ==>
              r.status == 200 && Field(r.body, "data") == StatusData(reply.body, orderId)
    ensures !Truthy(Str(reply.error)) && Field(r.body, "success") != Bool(true) ==>
              r.status == (if reply.httpCode >= 400 then 404 else 400)
              && Field(r.body, "message") == ErrorMessage(reply.body)
  {
    if Truthy(Str(reply.error)) then Json(500, Failure("Connection error: " + reply.error))
    else
      var data := reply.body;
      if 200 <= reply.httpCode < 300 && !IsEmpty(Field(data, "transaction_status")) then
        Json(200, SuccessBody(data, orderId))
      else
        Json(if reply.httpCode >= 400 then 404 else 400, ErrorBody(data))
  }

  /** The fallback chain of the failure message, case by case. */
  lemma ErrorMessageChain(data: Value)
    ensures Field(data, "status_message") != Null ==> ErrorMessage(data) == Field(data, "status_message")
    ensures Field(data, "status_message") == Null && Field(data, "message") != Null ==>
              ErrorMessage(data) == Field(data, "message")
    ensures Field(data, "status_message") == Null && Field(data, "message") == Null ==>
              ErrorMessage(data) == Str("Transaction not found")
  {
  }

  /** check_status.php for one request. `query` holds the query-string parameters,
      `body` the decoded request body. */
  function HandleCheckStatus(requestMethod: string, query: Value, body: Value,
                             urlencode: string -> string, reply: CurlReply): (o: StatusOutcome)
    ensures requestMethod == "OPTIONS" ==> o == StatusOutcome(Bare(200), None)
    ensures requestMethod !in {"OPTIONS", "GET", "POST"} ==>
              o == StatusOutcome(Json(405, Failure("Method not allowed")), None)
    ensures requestMethod in {"GET", "POST"} && IsEmpty(RequestedOrderId(requestMethod, query, body)) ==>
              o == StatusOutcome(Json(400, Failure("order_id is required")), None)
    ensures o.url.Some? <==>
              requestMethod in {"GET", "POST"} && !IsEmpty(RequestedOrderId(requestMethod, query, body))
              && !RequestedOrderId(requestMethod, query, body).Arr?
    ensures o.url.Some? ==>
              var orderId := RequestedOrderId(requestMethod, query, body);
              o.url.value == StatusUrl(urlencode, ToStr(orderId))
              && o.response == ClassifyStatusReply(reply, orderId)
  {
    if requestMethod == "OPTIONS" then StatusOutcome(Bare(200), None)
    else if requestMethod != "GET" && requestMethod != "POST" then
      StatusOutcome(Json(405, Failure("Method not allowed")), None)
    else
      var orderId := RequestedOrderId(requestMethod, query, body);
      if IsEmpty(orderId) then StatusOutcome(Json(400, Failure("order_id is required")), None)
      else
        match UrlArgument(orderId)
        case None =>
          // urlencode() of an array throws a TypeError, which the catch does not catch.
          StatusOutcome(Bare(500), None)
        case Some(arg) =>
          StatusOutcome(ClassifyStatusReply(reply, orderId), Some(StatusUrl(urlencode, arg)))
  }
}
