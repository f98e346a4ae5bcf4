/**
 * The notification endpoint: validates a JSON request in a fixed order (method,
 * JSON body, required fields, email format), dispatches on the notification type,
 * and answers 200 when the email service reports success and 500 otherwise.
 *
 * `filter_var(..., FILTER_VALIDATE_EMAIL)` is the `isEmail` parameter; the email
 * service, its socket and what `mail()` returns are parameters of the handler.
 */
module SendNotification {
  import opened Php
  import opened Email

  /** The fields checked for emptiness, in the order they are checked. */
  const RequiredFields: seq<string> := ["email", "type"]

  // ---------------------------------------------------------------- validation

  /** The first of `fields` whose value in `input` is empty. */
  function FirstEmpty(input: Value, fields: seq<string>): (r: Option<string>)
    ensures r.Some? ==> r.value in fields && IsEmpty(Field(input, r.value))
  {
    if fields == [] then None
    else if IsEmpty(Field(input, fields[0])) then Some(fields[0])
    else FirstEmpty(input, fields[1..])
  }

  /** When no field is empty, FirstEmpty finds none. */
  lemma {:induction false} NoneEmpty(input: Value, fields: seq<string>)
    requires forall i :: 0 <= i < |fields| ==> !IsEmpty(Field(input, fields[i]))
    ensures FirstEmpty(input, fields) == None
  {
    if fields != [] {
      assert !IsEmpty(Field(input, fields[0]));
      assert forall i :: 0 <= i < |fields[1..]| ==> fields[1..][i] == fields[i + 1];
      NoneEmpty(input, fields[1..]);
    }
  }

  /** FirstEmpty names the earliest empty field. */
  lemma {:induction false} FirstEmptyIsEarliest(input: Value, fields: seq<string>, i: nat)
    requires i < |fields| && IsEmpty(Field(input, fields[i]))
    requires forall k :: 0 <= k < i ==> !IsEmpty(Field(input, fields[k]))
    ensures FirstEmpty(input, fields) == Some(fields[i])
  {
    if i > 0 {
      assert !IsEmpty(Field(input, fields[0]));
      assert forall k :: 0 <= k < i - 1 ==> fields[1..][k] == fields[k + 1];
      FirstEmptyIsEarliest(input, fields[1..], i - 1);
    }
  }

  /** With the endpoint's two required fields, the check reads email first. */
  lemma RequiredInOrder(input: Value)
    ensures FirstEmpty(input, RequiredFields)
            == if IsEmpty(Field(input, "email")) then Some("email")
               else if IsEmpty(Field(input, "type")) then Some("type")
               else None
  {
    var rest := RequiredFields[1..];
    assert RequiredFields[0] == "email" && rest == ["type"] && rest[1..] == [];
    assert FirstEmpty(input, rest[1..]) == None;
    assert FirstEmpty(input, rest) == if IsEmpty(Field(input, "type")) then Some("type") else None;
  }

  /** The address `filter_var` accepts, if it accepts the value and the result is
      truthy; arrays are refused. */
  function ValidatedEmail(isEmail: string -> bool, v: Value): Option<string> {
    if v.Arr? then None
    else if isEmail(ToStr(v)) && Truthy(Str(ToStr(v))) then Some(ToStr(v))
    else None
  }

  /** The message of the 400 answer a POST body gets, if any, checked in order: JSON,
      then the required fields, then the email format. */
  function Rejection(input: Value, isEmail: string -> bool): (r: Option<string>)
    ensures !Truthy(input) ==> r == Some("Invalid JSON input")
    ensures Truthy(input) && IsEmpty(Field(input, "email")) ==> r == Some("email is required")
    ensures Truthy(input) && !IsEmpty(Field(input, "email")) && IsEmpty(Field(input, "type")) ==>
              r == Some("type is required")
    ensures Truthy(input) && !IsEmpty(Field(input, "email")) && !IsEmpty(Field(input, "type")) ==>
              (r.None? <==> ValidatedEmail(isEmail, Field(input, "email")).Some?)
              && (r.Some? ==> r.value == "Invalid email format")
  {
    if !Truthy(input) then Some("Invalid JSON input")
    else
      RequiredInOrder(input);
      assert "email" + " is required" == "email is required";
      assert "type" + " is required" == "type is required";
      match FirstEmpty(input, RequiredFields)
      case Some(field) => Some(field + " is required")
      case None =>
        if ValidatedEmail(isEmail, Field(input, "email")).None? then Some("Invalid email format") else None
  }

  // ---------------------------------------------------------------- dispatch

  datatype NotificationType = ReservationConfirmed | PaymentReminder | DeliveryNotification | Unknown

  /** The `switch ($type)` arms, compared loosely in order. */
  function TypeOf(t: Value): NotificationType {
    if LooseEqualsStr(t, "reservation_confirmed") then ReservationConfirmed
    else if LooseEqualsStr(t, "payment_reminder") then PaymentReminder
    else if LooseEqualsStr(t, "delivery_notification") then DeliveryNotification
    else Unknown
  }

  /** For a string type the switch selects by plain equality. */
  lemma StringTypes(s: string)
    ensures TypeOf(Str(s)) == ReservationConfirmed <==> s == "reservation_confirmed"
    ensures TypeOf(Str(s)) == PaymentReminder <==> s == "payment_reminder"
    ensures TypeOf(Str(s)) == DeliveryNotification <==> s == "delivery_notification"
  {
    LooseEqualsWord(s, "reservation_confirmed");
    LooseEqualsWord(s, "payment_reminder");
    LooseEqualsWord(s, "delivery_notification");
  }

  /** A JSON `true` type matches the first arm: PHP 8 compares a boolean with a
      non-empty string as true. */
  lemma TrueSelectsReservation()
    ensures TypeOf(Bool(true)) == ReservationConfirmed
  {
  }

  /** A number never matches an arm. */
  lemma NumberIsUnknown(i: int)
    ensures TypeOf(Int(i)) == Unknown
  {
    NumberNotWord(i, "reservation_confirmed");
    NumberNotWord(i, "payment_reminder");
    NumberNotWord(i, "delivery_notification");
  }

  lemma NumberNotWord(i: int, w: string)
    requires w != [] && IsLowerLetter(w[0])
    ensures !LooseEqualsStr(Int(i), w)
  {
    WordNotNumeric(w);
    var d := IntToDecimal(i);
    assert d[0] == '-' || IsDigit(d[0]);
  }

  /** The result of the arms that send nothing. */
  function StubResult(kind: NotificationType, t: Value): SendResult {
    match kind
    case PaymentReminder => SendResult(false, "Payment reminder not implemented yet")
    case DeliveryNotification => SendResult(false, "Delivery notification not implemented yet")
    case _ => SendResult(false, "Unknown notification type: " + ToStr(t))
  }

  // ---------------------------------------------------------------- the reservation data

  /** The defaults the endpoint gives the template keys, in the template's order. */
  const DataDefaults: seq<string> := ["", "Pelanggan", "PlayStation", "1", "1", "-", "-", "0", "-", "-"]

  function DataFields(input: Value, email: string): seq<(string, Value)> {
    [("email", Str(email))]
      + seq(|TemplateKeys|, j requires 0 <= j < |TemplateKeys| =>
              (TemplateKeys[j], Coalesce(Field(input, TemplateKeys[j]), Str(DataDefaults[j]))))
  }

  /** The `$data` array handed to the email service. */
  function ReservationData(input: Value, email: string): Value {
    Obj(DataFields(input, email))
  }

  lemma KeysDiffer(keys: seq<string>, i: nat, k: nat)
    requires keys == ["email"] + TemplateKeys
    requires i < k < |keys|
    ensures keys[i] != keys[k]
  {
    if |keys[i]| == |keys[k]| {
      assert keys[i][..3] != keys[k][..3] || keys[i][3..] != keys[k][3..];
    }
  }

  lemma DataKeysDistinct(input: Value, email: string, j: nat)
    requires j < |DataFields(input, email)|
    ensures forall i :: 0 <= i < |DataFields(input, email)| && i != j ==>
              DataFields(input, email)[i].0 != DataFields(input, email)[j].0
  {
    var f := DataFields(input, email);
    var keys := ["email"] + TemplateKeys;
    assert forall i :: 0 <= i < |f| ==> f[i].0 == keys[i];
    forall i | 0 <= i < |f| && i != j
      ensures f[i].0 != f[j].0
    {
      if i < j {
        KeysDiffer(keys, i, j);
      } else {
        KeysDiffer(keys, j, i);
      }
    }
  }

  /** One template key of `$data`: the request's value, or the endpoint's default. */
  lemma DataFieldRead(input: Value, email: string, j: nat)
    requires j < |TemplateKeys|
    ensures Field(ReservationData(input, email), TemplateKeys[j])
            == Coalesce(Field(input, TemplateKeys[j]), Str(DataDefaults[j]))
  {
    var f := DataFields(input, email);
    assert f[j + 1] == (TemplateKeys[j], Coalesce(Field(input, TemplateKeys[j]), Str(DataDefaults[j])));
    DataKeysDistinct(input, email, j + 1);
    ObjField(f, j + 1);
  }

  /** What the email service reads from `$data`: the validated address, and every
      template key with the endpoint's default in place of a missing value. */
  lemma ReservationDataReads(input: Value, email: string)
    ensures Field(ReservationData(input, email), "email") == Str(email)
    ensures forall j :: 0 <= j < |TemplateKeys| ==>
              Field(ReservationData(input, email), TemplateKeys[j])
              == Coalesce(Field(input, TemplateKeys[j]), Str(DataDefaults[j]))
  {
    ObjField(DataFields(input, email), 0);
    forall j | 0 <= j < |TemplateKeys|
      ensures Field(ReservationData(input, email), TemplateKeys[j])
              == Coalesce(Field(input, TemplateKeys[j]), Str(DataDefaults[j]))
    {
      DataFieldRead(input, email, j);
    }
  }

  /** The endpoint's defaults agree with the template's, except for the reservation
      id: a missing id reaches the email as "" and never as the template's "-". */
  lemma DefaultsAgreeButId()
    ensures forall j :: 1 <= j < |TemplateKeys| ==> DataDefaults[j] == TemplateDefaults[j]
    ensures DataDefaults[0] == "" && TemplateDefaults[0] == "-"
  {
  }

  /** Through this endpoint a missing reservation id leaves the subject ending in "#"
      and both template versions showing an empty id. */
  lemma MissingIdRendersEmpty(input: Value, email: string)
    requires Field(input, "reservasi_id") == Null
    ensures Subject(ReservationData(input, email)) == "\U{2705} Reservasi Dikonfirmasi - QuadraPlay #"
    ensures HtmlFields(ReservationData(input, email)).Some? ==> HtmlFields(ReservationData(input, email)).value[0] == ""
    ensures PlainFields(ReservationData(input, email))[0] == ""
  {
    DataFieldRead(input, email, 0);
    var data := ReservationData(input, email);
    assert Field(data, "reservasi_id") == Str("");
    assert TemplateValue(data, 0) == Str("");
  }

  /** The `$data` array of a request whose email passed validation. */
  function RequestData(input: Value, isEmail: string -> bool): Value {
    match ValidatedEmail(isEmail, Field(input, "email"))
    case Some(email) => ReservationData(input, email)
    case None => Null
  }

  // ---------------------------------------------------------------- the answer

  /** The JSON body of a result array. */
  function ResultBody(r: SendResult): Value {
    Obj([("success", Bool(r.success)), ("message", Str(r.message))])
  }

  /** `jsonResponse($result)` when `$result['success']` is truthy, else with 500. */
  function ResultResponse(r: SendResult): (resp: Response)
    ensures resp.Json? && resp.body == ResultBody(r)
    ensures resp.status == 200 <==> r.success
    ensures !r.success ==> resp.status == 500
  {
    var body := ResultBody(r);
    ObjField([("success", Bool(r.success)), ("message", Str(r.message))], 0);
    Json(if Truthy(Field(body, "success")) then 200 else 500, body)
  }

  /** A failed result answers with the same body as the endpoint's other errors. */
  lemma FailureBodies(message: string)
    ensures ResultBody(SendResult(false, message)) == Failure(message)
  {
  }

  // ---------------------------------------------------------------- the endpoint

  /** A POST request that passed every check and reaches the switch. */
  predicate Accepted(requestMethod: string, input: Value, isEmail: string -> bool) {
    requestMethod == "POST" && Rejection(input, isEmail).None?
  }

  /** What the switch produced for type `t` and the reservation `data`: a stub result
      for the arms that send nothing, no result when the data cannot be rendered, and
      otherwise the email service's result for the confirmation email. */
  twostate predicate Dispatched(t: Value, data: Value, service: EmailService, renderHtml: seq<string> -> string,
                                connection: SmtpSocket?, errno: int, errstr: string, mailAccepted: bool,
                                new response: Response, new result: Option<SendResult>)
    reads service, connection
  {
    && (TypeOf(t) != ReservationConfirmed ==> result == Some(StubResult(TypeOf(t), t)))
    && (TypeOf(t) == ReservationConfirmed && HtmlFields(data).None? ==> response == Bare(500) && result.None?)
    && (TypeOf(t) == ReservationConfirmed && HtmlFields(data).Some? ==>
          result.Some?
          && service.Sent(connection, ToStr(Field(data, "email")), Subject(data),
                          renderHtml(HtmlFields(data).value), errno, errstr, mailAccepted, result.value))
  }

  /** send_notification.php for one request. `input` is the decoded body (Null when it
      is not JSON); `result` is the `$result` array, None when the script stops before
      the switch assigns it. */
  method HandleSendNotification(requestMethod: string, input: Value, isEmail: string -> bool,
                                service: EmailService, renderHtml: seq<string> -> string,
                                renderPlain: seq<string> -> string,
                                connection: SmtpSocket?, errno: int, errstr: string, mailAccepted: bool)
    returns (response: Response, result: Option<SendResult>)
    modifies service, connection
    ensures requestMethod == "OPTIONS" ==> response == Bare(200) && result.None?
    ensures requestMethod != "OPTIONS" && requestMethod != "POST" ==>
              response == Json(405, Failure("Method not allowed")) && result.None?
    ensures requestMethod == "POST" && Rejection(input, isEmail).Some? ==>
              response == Json(400, Failure(Rejection(input, isEmail).value)) && result.None?
    ensures result.Some? ==> response == ResultResponse(result.value)
    ensures result.None? || TypeOf(Field(input, "type")) != ReservationConfirmed ==>
              unchanged(service) && (connection != null ==> unchanged(connection))
    ensures Accepted(requestMethod, input, isEmail) ==>
              Dispatched(Field(input, "type"), RequestData(input, isEmail), service, renderHtml,
                         connection, errno, errstr, mailAccepted, response, result)
  {
    if requestMethod == "OPTIONS" {
      return Bare(200), None;
    }
    if requestMethod != "POST" {
      return Json(405, Failure("Method not allowed")), None;
    }
    if !Truthy(input) {
      return Json(400, Failure("Invalid JSON input")), None;
    }
    RequiredInOrder(input);
    var i := 0;
    while i < |RequiredFields|
      invariant 0 <= i <= |RequiredFields|
      invariant FirstEmpty(input, RequiredFields[i..]) == FirstEmpty(input, RequiredFields)
    {
      var field := RequiredFields[i];
      if IsEmpty(Field(input, field)) {
        return Json(400, Failure(field + " is required")), None;
      }
      assert RequiredFields[i..][1..] == RequiredFields[i + 1..];
      i := i + 1;
    }
    var validated := ValidatedEmail(isEmail, Field(input, "email"));
    if validated.None? {
      return Json(400, Failure("Invalid email format")), None;
    }
    response, result := Dispatch(Field(input, "type"), input, validated.value, service, renderHtml, renderPlain,
                                 connection, errno, errstr, mailAccepted);
  }

  /** The `switch ($type)` on a validated request and the answer built from `$result`. */
  method Dispatch(t: Value, input: Value, email: string, service: EmailService,
                  renderHtml: seq<string> -> string, renderPlain: seq<string> -> string,
                  connection: SmtpSocket?, errno: int, errstr: string, mailAccepted: bool)
    returns (response: Response, result: Option<SendResult>)
    modifies service, connection
    ensures result.Some? ==> response == ResultResponse(result.value)
    ensures result.None? || TypeOf(t) != ReservationConfirmed ==>
              unchanged(service) && (connection != null ==> unchanged(connection))
    ensures Dispatched(t, ReservationData(input, email), service, renderHtml,
                       connection, errno, errstr, mailAccepted, response, result)
  {
    var sent: SendResult;
    var kind := TypeOf(t);
    if kind == ReservationConfirmed {
      var data := ReservationData(input, email);
      var r := service.SendReservationConfirmation(data, renderHtml, renderPlain, connection, errno, errstr, mailAccepted);
      if r.None? {
        // htmlspecialchars() of an array throws a TypeError, which the catch does not catch.
        return Bare(500), None;
      }
      sent := r.value;
    } else {
      sent := StubResult(kind, t);
    }
    result := Some(sent);
    response := ResultResponse(sent);
  }
}
