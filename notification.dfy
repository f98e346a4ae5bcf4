/**
 * The payment gateway's webhook handler (backend/midtrans/notification.php): payload
 * validation, the SHA-512 signature check, the mapping from the gateway's transaction
 * status to the payment status, the update record, and the UPDATE statement sent to
 * the remote query proxy.
 *
 * SHA-512 and json_encode are parameters (oracles); the proxy's reply is a CurlReply.
 */
module Notification {
  import opened Php

  /** The six payment statuses stored in the payments table. */
  datatype PaymentStatus = Pending | Confirmed | Denied | Cancelled | Expired | Failed {
    function Name(): string {
      match this
      case Pending => "pending"
      case Confirmed => "confirmed"
      case Denied => "denied"
      case Cancelled => "cancelled"
      case Expired => "expired"
      case Failed => "failed"
    }
  }

  // ---------------------------------------------------------------- status mapping

  /** determinePaymentStatus: a `switch` (PHP 8 loose `==`, first matching case wins)
      on the transaction status; the fraud status is compared strictly (`===`). */
  function DeterminePaymentStatus(transactionStatus: Value, fraudStatus: Value): PaymentStatus {
    if LooseEqualsStr(transactionStatus, "capture") then
      (if fraudStatus == Str("challenge") then Pending else Confirmed)
    else if LooseEqualsStr(transactionStatus, "settlement") then Confirmed
    else if LooseEqualsStr(transactionStatus, "pending") then Pending
    else if LooseEqualsStr(transactionStatus, "deny") then Denied
    else if LooseEqualsStr(transactionStatus, "cancel") then Cancelled
    else if LooseEqualsStr(transactionStatus, "expire") then Expired
    else if LooseEqualsStr(transactionStatus, "failure") then Failed
    else Pending
  }

  /** The mapping table the gateway integration is meant to follow, by exact match on
      a string transaction status: the reference for DeterminePaymentStatus. */
  function StatusTable(transactionStatus: string, fraudStatus: Value): PaymentStatus {
    match transactionStatus
    case "capture" => if fraudStatus == Str("challenge") then Pending else Confirmed
    case "settlement" => Confirmed
    case "pending" => Pending
    case "deny" => Denied
    case "cancel" => Cancelled
    case "expire" => Expired
    case "failure" => Failed
    case _ => Pending
  }

  lemma UnknownStatus(s: string, fraudStatus: Value)
    requires s !in {"capture", "settlement", "pending", "deny", "cancel", "expire", "failure"}
    ensures DeterminePaymentStatus(Str(s), fraudStatus) == Pending == StatusTable(s, fraudStatus)
  {
    LooseEqualsWord(s, "capture");
    LooseEqualsWord(s, "settlement");
    LooseEqualsWord(s, "pending");
    LooseEqualsWord(s, "deny");
    LooseEqualsWord(s, "cancel");
    LooseEqualsWord(s, "expire");
    LooseEqualsWord(s, "failure");
  }

  /** For every string status the switch agrees with the table: one row per gateway
      status, the fraud status consulted only for capture, unknown statuses pending. */
  lemma MappingMatchesTable(s: string, fraudStatus: Value)
    ensures DeterminePaymentStatus(Str(s), fraudStatus) == StatusTable(s, fraudStatus)
  {
    if s in {"capture", "settlement", "pending", "deny", "cancel", "expire", "failure"} {
      LooseEqualsWord(s, "capture");
      LooseEqualsWord(s, "settlement");
      LooseEqualsWord(s, "pending");
      LooseEqualsWord(s, "deny");
      LooseEqualsWord(s, "cancel");
      LooseEqualsWord(s, "expire");
      LooseEqualsWord(s, "failure");
    } else {
      UnknownStatus(s, fraudStatus);
    }
  }

  lemma TableConfirmed(s: string, fraudStatus: Value)
    ensures StatusTable(s, fraudStatus) == Confirmed
        <==> s == "settlement" || (s == "capture" && fraudStatus != Str("challenge"))
  {
  }

  lemma TablePending(s: string, fraudStatus: Value)
    ensures StatusTable(s, fraudStatus) == Pending
        <==> s == "pending" || (s == "capture" && fraudStatus == Str("challenge"))
             || s !in {"capture", "settlement", "pending", "deny", "cancel", "expire", "failure"}
  {
  }

  /** A string status confirms the payment exactly on settlement, or on capture that
      the fraud check did not challenge. */
  lemma ConfirmedIff(s: string, fraudStatus: Value)
    ensures DeterminePaymentStatus(Str(s), fraudStatus) == Confirmed
        <==> s == "settlement" || (s == "capture" && fraudStatus != Str("challenge"))
  {
    MappingMatchesTable(s, fraudStatus);
    TableConfirmed(s, fraudStatus);
  }

  /** A string status leaves the payment pending exactly when it is "pending", a
      challenged capture, or a status the switch does not know. */
  lemma PendingIff(s: string, fraudStatus: Value)
    ensures DeterminePaymentStatus(Str(s), fraudStatus) == Pending
        <==> s == "pending" || (s == "capture" && fraudStatus == Str("challenge"))
             || s !in {"capture", "settlement", "pending", "deny", "cancel", "expire", "failure"}
  {
    MappingMatchesTable(s, fraudStatus);
    TablePending(s, fraudStatus);
  }

  lemma DecimalNotWord(i: int, w: string)
    requires w != [] && IsLowerLetter(w[0])
    ensures IntToDecimal(i) != w
  {
    var t := IntToDecimal(i);
    if i < 0 {
      assert t[0] == '-';
    } else {
      assert IsDigit(t[0]);
    }
  }

  /** Non-string statuses: `true` loosely equals every case label, so it is treated as
      capture; every other non-string value falls through to the default, pending. */
  lemma {:induction false} NonStringStatus(t: Value, fraudStatus: Value)
    requires !t.Str?
    ensures t == Bool(true) ==> DeterminePaymentStatus(t, fraudStatus) == StatusTable("capture", fraudStatus)
    ensures t != Bool(true) ==> DeterminePaymentStatus(t, fraudStatus) == Pending
  {
    if t.Int? {
      WordNotNumeric("capture");
      WordNotNumeric("settlement");
      WordNotNumeric("pending");
      WordNotNumeric("deny");
      WordNotNumeric("cancel");
      WordNotNumeric("expire");
      WordNotNumeric("failure");
      DecimalNotWord(t.i, "capture");
      DecimalNotWord(t.i, "settlement");
      DecimalNotWord(t.i, "pending");
      DecimalNotWord(t.i, "deny");
      DecimalNotWord(t.i, "cancel");
      DecimalNotWord(t.i, "expire");
      DecimalNotWord(t.i, "failure");
    }
  }

  // ---------------------------------------------------------------- signature

  /** hash('sha512', $orderId . $statusCode . $grossAmount . $serverKey); a null part
      contributes the empty string. */
  function ExpectedSignature(sha512: string -> string, orderId: Value, statusCode: Value,
                             grossAmount: Value, serverKey: string): string
  {
    sha512(ToStr(orderId) + ToStr(statusCode) + ToStr(grossAmount) + serverKey)
  }

  // ---------------------------------------------------------------- update record

  /** The `$updateData` array. */
  datatype UpdateData = UpdateData(
    orderId: Value,
    transactionId: Value,
    status: string,
    transactionStatus: Value,
    paymentType: Value,
    grossAmount: Value,
    fraudStatus: Value,
    settlementTime: Value,
    expiryTime: Value,
    vaNumbers: Value,
    paymentCode: Value,
    updatedAt: string)

  /** The update record built from a notification; `now` is date('Y-m-d H:i:s'). */
  function BuildUpdateData(notification: Value, jsonEncode: Value -> string, now: string): UpdateData
  {
    var vaNumbers := Field(notification, "va_numbers");
    UpdateData(
      orderId := Field(notification, "order_id"),
      transactionId := Field(notification, "transaction_id"),
      status := DeterminePaymentStatus(Field(notification, "transaction_status"),
                                       Field(notification, "fraud_status")).Name(),
      transactionStatus := Field(notification, "transaction_status"),
      paymentType := Field(notification, "payment_type"),
      grossAmount := Field(notification, "gross_amount"),
      fraudStatus := Field(notification, "fraud_status"),
      settlementTime := Field(notification, "settlement_time"),
      expiryTime := Field(notification, "expiry_time"),
      vaNumbers := if Truthy(vaNumbers) then Str(jsonEncode(vaNumbers)) else Null,
      paymentCode := Field(notification, "payment_code"),
      updatedAt := now)
  }

  // ---------------------------------------------------------------- SQL text

  /** addslashes for one character: a backslash before ', " and \, and NUL as \0. */
  function EscapeChar(c: char): string {
    if c == '\'' || c == '"' || c == '\\' then ['\\', c]
    else if c == '\0' then "\\0"
    else [c]
  }

  function AddSlashes(s: string): string {
    if s == [] then [] else EscapeChar(s[0]) + AddSlashes(s[1..])
  }

  /** One entry of the SET list. */
  datatype Assignment = Quoted(column: string, value: string) | Now(column: string)

  function RenderAssignment(a: Assignment): string {
    match a
    case Quoted(c, v) => c + " = '" + AddSlashes(v) + "'"
    case Now(c) => c + " = NOW()"
  }

  function Rendered(xs: seq<Assignment>): (r: seq<string>)
    ensures |r| == |xs| && forall j :: 0 <= j < |xs| ==> r[j] == RenderAssignment(xs[j])
  {
    seq(|xs|, j requires 0 <= j < |xs| => RenderAssignment(xs[j]))
  }

  /** An optional column: present only when its value is not empty(). */
  function OptionalColumn(column: string, v: Value): seq<Assignment> {
    if IsEmpty(v) then [] else [Quoted(column, ToStr(v))]
  }

  lemma RenderedAppend(xs: seq<Assignment>, ys: seq<Assignment>)
    ensures Rendered(xs + ys) == Rendered(xs) + Rendered(ys)
  {
  }

  const MandatoryColumns: seq<string> :=
    ["transaction_id", "status", "transaction_status", "payment_type", "gross_amount"]
  const OptionalColumns: seq<string> :=
    ["fraud_status", "settlement_time", "expiry_time", "va_numbers", "payment_code"]

  /** The optional values of an update record, in the order of OptionalColumns. */
  function OptionalValues(d: UpdateData): seq<Value> {
    [d.fraudStatus, d.settlementTime, d.expiryTime, d.vaNumbers, d.paymentCode]
  }

  /** The five entries written unconditionally (a missing field becomes ''). */
  function MandatoryAssignments(d: UpdateData): seq<Assignment> {
    [ Quoted("transaction_id", ToStr(Coalesce(d.transactionId, Str("")))),
      Quoted("status", d.status),
      Quoted("transaction_status", ToStr(d.transactionStatus)),
      Quoted("payment_type", ToStr(Coalesce(d.paymentType, Str("")))),
      Quoted("gross_amount", ToStr(Coalesce(d.grossAmount, Str("")))) ]
  }

  /** The optional entries, in the order of `names`. */
  function OptionalAssignments(names: seq<string>, values: seq<Value>): seq<Assignment>
    requires |names| == |values|
  {
    if names == [] then []
    else
      var n := |names| - 1;
      OptionalAssignments(names[..n], values[..n]) + OptionalColumn(names[n], values[n])
  }

  /** The SET list updatePaymentInDatabase builds. */
  function Assignments(d: UpdateData): seq<Assignment> {
    MandatoryAssignments(d) + OptionalAssignments(OptionalColumns, OptionalValues(d)) + [Now("updated_at")]
  }

  const UpdatePrefix := "UPDATE payments SET "
  const WherePrefix := " WHERE order_id = '"

  /** The statement text sent to the query proxy. */
  function UpdateStatement(orderId: Value, d: UpdateData): string {
    UpdatePrefix + Join(Rendered(Assignments(d)), ", ") + WherePrefix + AddSlashes(ToStr(orderId)) + "'"
  }

  function Columns(xs: seq<Assignment>): (cs: seq<string>)
    ensures |cs| == |xs| && forall j :: 0 <= j < |xs| ==> cs[j] == xs[j].column
  {
    seq(|xs|, j requires 0 <= j < |xs| => xs[j].column)
  }

  /** The columns present among the optional ones, in their fixed order. */
  function PresentOptional(names: seq<string>, values: seq<Value>): seq<string>
    requires |names| == |values|
  {
    if names == [] then []
    else
      var n := |names| - 1;
      PresentOptional(names[..n], values[..n]) + (if Truthy(values[n]) then [names[n]] else [])
  }

  lemma ColumnsAppend(xs: seq<Assignment>, ys: seq<Assignment>)
    ensures Columns(xs + ys) == Columns(xs) + Columns(ys)
  {
  }

  /** Each optional column appears exactly when its value is truthy, in order, and
      every optional entry is a quoted value. */
  lemma {:induction false} OptionalLayout(names: seq<string>, values: seq<Value>)
    requires |names| == |values|
    ensures Columns(OptionalAssignments(names, values)) == PresentOptional(names, values)
    ensures forall j :: 0 <= j < |OptionalAssignments(names, values)| ==> OptionalAssignments(names, values)[j].Quoted?
    decreases |names|
  {
    if names != [] {
      var n := |names| - 1;
      OptionalLayout(names[..n], values[..n]);
      ColumnsAppend(OptionalAssignments(names[..n], values[..n]), OptionalColumn(names[n], values[n]));
    }
  }

  /** The SET list always starts with the five mandatory columns in order, then holds
      each optional column exactly when its value is not empty, in fixed order, and
      ends with updated_at = NOW(). */
  lemma SetListLayout(d: UpdateData)
    ensures Columns(Assignments(d))
         == MandatoryColumns + PresentOptional(OptionalColumns, OptionalValues(d)) + ["updated_at"]
    ensures Assignments(d)[|Assignments(d)| - 1] == Now("updated_at")
    ensures Assignments(d)[1] == Quoted("status", d.status)
    ensures Assignments(d)[2] == Quoted("transaction_status", ToStr(d.transactionStatus))
    ensures forall j :: 0 <= j < |Assignments(d)| - 1 ==> Assignments(d)[j].Quoted?
  {
    var m := MandatoryAssignments(d);
    var o := OptionalAssignments(OptionalColumns, OptionalValues(d));
    OptionalLayout(OptionalColumns, OptionalValues(d));
    ColumnsAppend(m, o);
    ColumnsAppend(m + o, [Now("updated_at")]);
    assert Columns(m) == MandatoryColumns;
  }

  lemma UnrollThree(n0: string, n1: string, n2: string, v0: Value, v1: Value, v2: Value)
    ensures OptionalAssignments([n0, n1, n2], [v0, v1, v2])
         == [] + OptionalColumn(n0, v0) + OptionalColumn(n1, v1) + OptionalColumn(n2, v2)
  {
    assert [n0][..0] == [] && [v0][..0] == [];
    assert OptionalAssignments([n0], [v0]) == [] + OptionalColumn(n0, v0);
    assert [n0, n1][..1] == [n0] && [v0, v1][..1] == [v0];
    assert OptionalAssignments([n0, n1], [v0, v1]) == [] + OptionalColumn(n0, v0) + OptionalColumn(n1, v1);
    assert [n0, n1, n2][..2] == [n0, n1] && [v0, v1, v2][..2] == [v0, v1];
  }

  lemma UnrollFive(n0: string, n1: string, n2: string, n3: string, n4: string,
                   v0: Value, v1: Value, v2: Value, v3: Value, v4: Value)
    ensures OptionalAssignments([n0, n1, n2, n3, n4], [v0, v1, v2, v3, v4])
         == [] + OptionalColumn(n0, v0) + OptionalColumn(n1, v1) + OptionalColumn(n2, v2)
          + OptionalColumn(n3, v3) + OptionalColumn(n4, v4)
  {
    UnrollThree(n0, n1, n2, v0, v1, v2);
    assert [n0, n1, n2, n3][..3] == [n0, n1, n2] && [v0, v1, v2, v3][..3] == [v0, v1, v2];
    assert OptionalAssignments([n0, n1, n2, n3], [v0, v1, v2, v3])
        == OptionalAssignments([n0, n1, n2], [v0, v1, v2]) + OptionalColumn(n3, v3);
    assert [n0, n1, n2, n3, n4][..4] == [n0, n1, n2, n3] && [v0, v1, v2, v3, v4][..4] == [v0, v1, v2, v3];
  }

  /** The optional entries unrolled: one conditional entry per optional column. */
  lemma OptionalUnrolled(d: UpdateData)
    ensures OptionalAssignments(OptionalColumns, OptionalValues(d))
         == [] + OptionalColumn("fraud_status", d.fraudStatus)
          + OptionalColumn("settlement_time", d.settlementTime)
          + OptionalColumn("expiry_time", d.expiryTime)
          + OptionalColumn("va_numbers", d.vaNumbers)
          + OptionalColumn("payment_code", d.paymentCode)
  {
    UnrollFive("fraud_status", "settlement_time", "expiry_time", "va_numbers", "payment_code",
               d.fraudStatus, d.settlementTime, d.expiryTime, d.vaNumbers, d.paymentCode);
  }

  const AllColumns: seq<string> := MandatoryColumns + OptionalColumns + ["updated_at"]

  lemma AllColumnsWellFormed()
    ensures forall j :: 0 <= j < |AllColumns| ==> IsColumnName(AllColumns[j])
  {
  }

  /** Every column the SET list names is a bare lower-case identifier. */
  lemma AssignmentColumnsWellFormed(d: UpdateData)
    ensures forall j :: 0 <= j < |Assignments(d)| ==> IsColumnName(Assignments(d)[j].column)
  {
    var xs := Assignments(d);
    SetListLayout(d);
    PresentOptionalSubset(OptionalColumns, OptionalValues(d));
    AllColumnsWellFormed();
    forall j | 0 <= j < |xs| ensures IsColumnName(xs[j].column) {
      assert Columns(xs)[j] == xs[j].column;
      assert xs[j].column in AllColumns;
    }
  }

  lemma {:induction false} PresentOptionalSubset(names: seq<string>, values: seq<Value>)
    requires |names| == |values|
    ensures forall c :: c in PresentOptional(names, values) ==> c in names
    decreases |names|
  {
    if names != [] {
      PresentOptionalSubset(names[..|names| - 1], values[..|names| - 1]);
    }
  }

  // ---------------------------------------------------------------- how the proxy reads it

  /** MySQL's escape sequences inside a quoted literal (\% and \_ keep the backslash). */
  function Unescape(c: char): string {
    match c
    case '0' => "\0"
    case 'b' => "\U{0008}"
    case 'n' => "\n"
    case 'r' => "\r"
    case 't' => "\t"
    case 'Z' => "\U{001A}"
    case '%' => "\\%"
    case '_' => "\\_"
    case _ => [c]
  }

  /** How MySQL reads the body of a single-quoted literal, given the text after the
      opening quote: the literal's value and the text after the closing quote. */
  function ReadLiteral(t: string): (r: Option<(string, string)>)
    ensures r.Some? ==> |r.value.1| < |t|
    decreases |t|
  {
    if t == [] then None
    else if t[0] == '\\' then
      if |t| == 1 then None
      else (match ReadLiteral(t[2..]) case None => None case Some(p) => Some((Unescape(t[1]) + p.0, p.1)))
    else if t[0] == '\'' then
      if |t| >= 2 && t[1] == '\'' then
        (match ReadLiteral(t[2..]) case None => None case Some(p) => Some(("'" + p.0, p.1)))
      else Some(([], t[1..]))
    else (match ReadLiteral(t[1..]) case None => None case Some(p) => Some(([t[0]] + p.0, p.1)))
  }

  /** Reading an escape sequence addslashes writes. */
  lemma ReadEscaped(c: char, t: string)
    requires c == '\'' || c == '"' || c == '\\' || c == '\0'
    ensures ReadLiteral(EscapeChar(c) + t)
         == match ReadLiteral(t) case None => None case Some(p) => Some(([c] + p.0, p.1))
  {
    assert (EscapeChar(c) + t)[2..] == t;
  }

  /** Reading a character addslashes leaves alone. */
  lemma ReadPlain(c: char, t: string)
    requires c != '\'' && c != '"' && c != '\\' && c != '\0'
    ensures ReadLiteral(EscapeChar(c) + t)
         == match ReadLiteral(t) case None => None case Some(p) => Some(([c] + p.0, p.1))
  {
    assert (EscapeChar(c) + t)[1..] == t;
  }

  /** addslashes is safe for the way it is used: a quoted literal built from any text
      reads back as exactly that text and ends exactly at the closing quote the builder
      wrote, so no value can close the literal early. */
  lemma {:induction false} LiteralRoundTrip(s: string, rest: string)
    requires rest == [] || rest[0] != '\''
    ensures ReadLiteral(AddSlashes(s) + "'" + rest) == Some((s, rest))
  {
    if s == [] {
      assert AddSlashes(s) + "'" + rest == "'" + rest;
      assert ("'" + rest)[1..] == rest;
    } else {
      var t := AddSlashes(s[1..]) + "'" + rest;
      LiteralRoundTrip(s[1..], rest);
      assert AddSlashes(s) + "'" + rest == EscapeChar(s[0]) + t;
      var c := s[0];
      if c == '\'' || c == '"' || c == '\\' || c == '\0' {
        ReadEscaped(c, t);
      } else {
        ReadPlain(c, t);
      }
      assert [s[0]] + s[1..] == s;
    }
  }

  predicate IsColumnChar(c: char) {
    'a' <= c <= 'z' || c == '_'
  }

  predicate IsColumnName(name: string) {
    name != [] && forall j :: 0 <= j < |name| ==> IsColumnChar(name[j])
  }

  function ColumnPrefix(t: string): (c: string)
    ensures |c| <= |t| && c == t[..|c|]
    ensures |c| < |t| ==> !IsColumnChar(t[|c|])
    ensures forall j :: 0 <= j < |c| ==> IsColumnChar(c[j])
  {
    if t != [] && IsColumnChar(t[0]) then [t[0]] + ColumnPrefix(t[1..]) else []
  }

  predicate HasPrefix(t: string, p: string) {
    |p| <= |t| && t[..|p|] == p
  }

  /** One `column = value` entry of a SET list, and what follows it. */
  function ReadAssignment(t: string): (r: Option<(Assignment, string)>)
    ensures r.Some? ==> |r.value.1| < |t|
  {
    var c := ColumnPrefix(t);
    var u := t[|c|..];
    if c == [] || !HasPrefix(u, " = ") then None
    else
      var v := u[3..];
      if HasPrefix(v, "NOW()") then Some((Now(c), v[5..]))
      else if HasPrefix(v, "'") then
        (match ReadLiteral(v[1..]) case None => None case Some(p) => Some((Quoted(c, p.0), p.1)))
      else None
  }

  /** A SET list followed by ` WHERE order_id = '...'` and the end of the statement. */
  function ReadSetList(t: string): Option<(seq<Assignment>, string)>
    decreases |t|
  {
    match ReadAssignment(t)
    case None => None
    case Some((a, rest)) =>
      if HasPrefix(rest, ", ") then
        (match ReadSetList(rest[2..]) case None => None case Some(p) => Some(([a] + p.0, p.1)))
      else if HasPrefix(rest, WherePrefix) then
        (match ReadLiteral(rest[|WherePrefix|..])
         case Some(p) => if p.1 == [] then Some(([a], p.0)) else None
         case None => None)
      else None
  }

  /** How the query proxy reads a statement of the shape updatePaymentInDatabase sends:
      the assignments and the order id of the WHERE clause. */
  function ReadUpdateStatement(sql: string): Option<(seq<Assignment>, string)> {
    if HasPrefix(sql, UpdatePrefix) then ReadSetList(sql[|UpdatePrefix|..]) else None
  }

  lemma ColumnPrefixOf(c: string, rest: string)
    requires IsColumnName(c)
    requires rest == [] || !IsColumnChar(rest[0])
    ensures ColumnPrefix(c + rest) == c
    decreases |c|
  {
    if |c| > 1 {
      assert (c + rest)[1..] == c[1..] + rest;
      ColumnPrefixOf(c[1..], rest);
      assert [c[0]] + c[1..] == c;
    } else {
      assert (c + rest)[1..] == rest;
    }
  }

  lemma DropPrefix(a: string, b: string)
    ensures (a + b)[|a|..] == b
    ensures HasPrefix(a + b, a)
  {
    assert (a + b)[..|a|] == a;
  }

  lemma NotPrefixByFirst(t: string, p: string)
    requires t != [] && p != [] && t[0] != p[0]
    ensures !HasPrefix(t, p)
  {
    if |p| <= |t| {
      assert t[..|p|][0] == t[0];
    }
  }

  /** Reading `c = v`: the column, then the value form that `v` starts with. */
  lemma ReadAfterColumn(c: string, v: string)
    requires IsColumnName(c)
    ensures ReadAssignment(c + " = " + v)
         == if HasPrefix(v, "NOW()") then Some((Now(c), v[5..]))
            else if HasPrefix(v, "'") then
              (match ReadLiteral(v[1..]) case None => None case Some(p) => Some((Quoted(c, p.0), p.1)))
            else None
  {
    var tail := " = " + v;
    assert c + " = " + v == c + tail;
    ColumnPrefixOf(c, tail);
    DropPrefix(c, tail);
    DropPrefix(" = ", v);
  }

  lemma ReadNowAssignment(c: string, rest: string)
    requires IsColumnName(c)
    ensures ReadAssignment(c + " = NOW()" + rest) == Some((Now(c), rest))
  {
    assert c + " = NOW()" + rest == c + " = " + ("NOW()" + rest);
    ReadAfterColumn(c, "NOW()" + rest);
    DropPrefix("NOW()", rest);
  }

  lemma QuotedLayout(c: string, s: string, rest: string)
    ensures c + " = '" + s + "'" + rest == c + " = " + ("'" + (s + "'" + rest))
  {
    assert " = '" == " = " + "'";
  }

  lemma ReadQuotedAssignment(c: string, v: string, rest: string)
    requires IsColumnName(c)
    requires rest == [] || rest[0] != '\''
    ensures ReadAssignment(c + " = '" + AddSlashes(v) + "'" + rest) == Some((Quoted(c, v), rest))
  {
    var lit := AddSlashes(v) + "'" + rest;
    QuotedLayout(c, AddSlashes(v), rest);
    ReadAfterColumn(c, "'" + lit);
    NotPrefixByFirst("'" + lit, "NOW()");
    DropPrefix("'", lit);
    LiteralRoundTrip(v, rest);
  }

  lemma AssignmentRoundTrip(a: Assignment, rest: string)
    requires IsColumnName(a.column)
    requires rest == [] || rest[0] == ',' || rest[0] == ' '
    ensures ReadAssignment(RenderAssignment(a) + rest) == Some((a, rest))
  {
    match a
    case Now(c) => ReadNowAssignment(c, rest);
    case Quoted(c, v) => ReadQuotedAssignment(c, v, rest);
  }

  predicate WellFormedColumns(xs: seq<Assignment>) {
    forall j :: 0 <= j < |xs| ==> IsColumnName(xs[j].column)
  }

  lemma ReadLastAssignment(a: Assignment, orderId: string)
    requires IsColumnName(a.column)
    ensures ReadSetList(RenderAssignment(a) + (WherePrefix + AddSlashes(orderId) + "'")) == Some(([a], orderId))
  {
    var lit := AddSlashes(orderId) + "'";
    var tail := WherePrefix + lit;
    assert WherePrefix + AddSlashes(orderId) + "'" == tail;
    AssignmentRoundTrip(a, tail);
    NotPrefixByFirst(tail, ", ");
    DropPrefix(WherePrefix, lit);
    assert lit + [] == lit;
    LiteralRoundTrip(orderId, []);
  }

  lemma ReadNextAssignment(a: Assignment, more: string)
    requires IsColumnName(a.column)
    ensures ReadSetList(RenderAssignment(a) + (", " + more))
         == match ReadSetList(more) case None => None case Some(p) => Some(([a] + p.0, p.1))
  {
    AssignmentRoundTrip(a, ", " + more);
    DropPrefix(", ", more);
  }

  /** The rendered SET list splits after its first assignment. */
  lemma RenderedSplit(xs: seq<Assignment>, tail: string)
    requires |xs| > 1
    ensures Join(Rendered(xs), ", ") + tail
         == RenderAssignment(xs[0]) + (", " + (Join(Rendered(xs[1..]), ", ") + tail))
  {
    var r := Rendered(xs);
    assert r[1..] == Rendered(xs[1..]);
  }

  lemma WellFormedTail(xs: seq<Assignment>)
    requires xs != [] && WellFormedColumns(xs)
    ensures WellFormedColumns(xs[1..]) && IsColumnName(xs[0].column)
  {
    assert forall j :: 0 <= j < |xs[1..]| ==> xs[1..][j] == xs[j + 1];
  }

  /** A non-empty SET list of well-formed columns, followed by the WHERE clause, reads
      back as exactly those assignments and that order id. */
  lemma {:induction false} SetListRoundTrip(xs: seq<Assignment>, orderId: string)
    requires xs != [] && WellFormedColumns(xs)
    ensures ReadSetList(Join(Rendered(xs), ", ") + (WherePrefix + AddSlashes(orderId) + "'"))
         == Some((xs, orderId))
    decreases |xs|
  {
    var tail := WherePrefix + AddSlashes(orderId) + "'";
    WellFormedTail(xs);
    if |xs| == 1 {
      assert Join(Rendered(xs), ", ") == RenderAssignment(xs[0]);
      ReadLastAssignment(xs[0], orderId);
      assert [xs[0]] == xs;
    } else {
      SetListRoundTrip(xs[1..], orderId);
      RenderedSplit(xs, tail);
      ReadNextAssignment(xs[0], Join(Rendered(xs[1..]), ", ") + tail);
      assert [xs[0]] + xs[1..] == xs;
    }
  }

  /** Whatever the notification carries, the proxy reads the statement back as exactly
      the assignments of the update record and the order id it was built from: no
      field's text can break out of its quoted literal. */
  lemma UpdateStatementReadsBack(orderId: Value, d: UpdateData)
    ensures ReadUpdateStatement(UpdateStatement(orderId, d)) == Some((Assignments(d), ToStr(orderId)))
  {
    var xs := Assignments(d);
    AssignmentColumnsWellFormed(d);
    var body := Join(Rendered(xs), ", ") + (WherePrefix + AddSlashes(ToStr(orderId)) + "'");
    assert UpdateStatement(orderId, d) == UpdatePrefix + body;
    DropPrefix(UpdatePrefix, body);
    SetListRoundTrip(xs, ToStr(orderId));
  }

  // ---------------------------------------------------------------- the database call

  /** What updatePaymentInDatabase returns. */
  datatype UpdateResult = Updated(data: Value) | NotUpdated(message: string)

  /** The proxy call succeeds when curl reported no error and the HTTP code is 2xx. */
  function DatabaseResult(reply: CurlReply): (r: UpdateResult)
    ensures r.Updated? <==> !Truthy(Str(reply.error)) && 200 <= reply.httpCode < 300
  {
    if Truthy(Str(reply.error)) then NotUpdated("Connection error: " + reply.error)
    else if 200 <= reply.httpCode < 300 then Updated(reply.body)
    else NotUpdated("Failed to update database")
  }

  /** One step of building the SET list: appending a quoted entry whose text starts
      with `prefix`, the column followed by ` = '`. */
  lemma AppendQuoted(fields: seq<string>, entries: seq<Assignment>, prefix: string, column: string, v: string)
    requires fields == Rendered(entries)
    requires prefix == column + " = '"
    ensures fields + [prefix + AddSlashes(v) + "'"] == Rendered(entries + [Quoted(column, v)])
  {
  }

  /** The five mandatory entries, as the source spells them, render the mandatory assignments. */
  lemma MandatoryText(d: UpdateData, fields: seq<string>)
    requires fields == [
      "transaction_id = '" + AddSlashes(ToStr(Coalesce(d.transactionId, Str("")))) + "'",
      "status = '" + AddSlashes(d.status) + "'",
      "transaction_status = '" + AddSlashes(ToStr(d.transactionStatus)) + "'",
      "payment_type = '" + AddSlashes(ToStr(Coalesce(d.paymentType, Str("")))) + "'",
      "gross_amount = '" + AddSlashes(ToStr(Coalesce(d.grossAmount, Str("")))) + "'"]
    ensures fields == Rendered(MandatoryAssignments(d))
  {
    assert "transaction_id = '" == "transaction_id" + " = '";
    assert "status = '" == "status" + " = '";
    assert "transaction_status = '" == "transaction_status" + " = '";
    assert "payment_type = '" == "payment_type" + " = '";
    assert "gross_amount = '" == "gross_amount" + " = '";
  }

  /** The literal prefixes of the optional entries are their column names followed by
      ` = '`, and the last entry's text renders updated_at = NOW(). */
  lemma OptionalPrefixes()
    ensures "updated_at = NOW()" == RenderAssignment(Now("updated_at"))
    ensures "fraud_status = '" == "fraud_status" + " = '"
    ensures "settlement_time = '" == "settlement_time" + " = '"
    ensures "expiry_time = '" == "expiry_time" + " = '"
    ensures "va_numbers = '" == "va_numbers" + " = '"
    ensures "payment_code = '" == "payment_code" + " = '"
  {
  }

  lemma AppendNow(fields: seq<string>, entries: seq<Assignment>, column: string)
    requires fields == Rendered(entries)
    ensures fields + [RenderAssignment(Now(column))] == Rendered(entries + [Now(column)])
  {
  }

  /** One step of building the SET list: an optional entry, appended after the
      mandatory ones and the optional ones so far only when its value is not empty. */
  lemma AppendOptional(fields: seq<string>, mandatory: seq<Assignment>, optional: seq<Assignment>,
                       prefix: string, column: string, v: Value, next: seq<string>)
    requires fields == Rendered(mandatory + optional)
    requires prefix == column + " = '"
    requires next == if IsEmpty(v) then fields else fields + [prefix + AddSlashes(ToStr(v)) + "'"]
    ensures next == Rendered(mandatory + (optional + OptionalColumn(column, v)))
  {
    assert mandatory + (optional + OptionalColumn(column, v)) == mandatory + optional + OptionalColumn(column, v);
    if !IsEmpty(v) {
      AppendQuoted(fields, mandatory + optional, prefix, column, ToStr(v));
    } else {
      assert mandatory + optional + [] == mandatory + optional;
    }
  }

  /** The first half of updatePaymentInDatabase: the SET list, entry by entry, in the
      order the source appends them. */
  method BuildSetFields(d: UpdateData) returns (setFields: seq<string>)
    ensures setFields == Rendered(Assignments(d))
  {
    // `optional` holds the optional entries appended so far.
    setFields := [];
    ghost var before: seq<string>;
    ghost var optional: seq<Assignment> := [];
    setFields := setFields + ["transaction_id = '" + AddSlashes(ToStr(Coalesce(d.transactionId, Str("")))) + "'"];
    setFields := setFields + ["status = '" + AddSlashes(d.status) + "'"];
    setFields := setFields + ["transaction_status = '" + AddSlashes(ToStr(d.transactionStatus)) + "'"];
    setFields := setFields + ["payment_type = '" + AddSlashes(ToStr(Coalesce(d.paymentType, Str("")))) + "'"];
    setFields := setFields + ["gross_amount = '" + AddSlashes(ToStr(Coalesce(d.grossAmount, Str("")))) + "'"];
    MandatoryText(d, setFields);
    OptionalPrefixes();
    assert setFields == Rendered(MandatoryAssignments(d) + optional);
    before := setFields;
    if !IsEmpty(d.fraudStatus) {
      setFields := setFields + ["fraud_status = '" + AddSlashes(ToStr(d.fraudStatus)) + "'"];
    }
    AppendOptional(before, MandatoryAssignments(d), optional, "fraud_status = '", "fraud_status", d.fraudStatus, setFields);
    optional := optional + OptionalColumn("fraud_status", d.fraudStatus);
    before := setFields;
    if !IsEmpty(d.settlementTime) {
      setFields := setFields + ["settlement_time = '" + AddSlashes(ToStr(d.settlementTime)) + "'"];
    }
    AppendOptional(before, MandatoryAssignments(d), optional, "settlement_time = '", "settlement_time", d.settlementTime, setFields);
    optional := optional + OptionalColumn("settlement_time", d.settlementTime);
    before := setFields;
    if !IsEmpty(d.expiryTime) {
      setFields := setFields + ["expiry_time = '" + AddSlashes(ToStr(d.expiryTime)) + "'"];
    }
    AppendOptional(before, MandatoryAssignments(d), optional, "expiry_time = '", "expiry_time", d.expiryTime, setFields);
    optional := optional + OptionalColumn("expiry_time", d.expiryTime);
    before := setFields;
    if !IsEmpty(d.vaNumbers) {
      setFields := setFields + ["va_numbers = '" + AddSlashes(ToStr(d.vaNumbers)) + "'"];
    }
    AppendOptional(before, MandatoryAssignments(d), optional, "va_numbers = '", "va_numbers", d.vaNumbers, setFields);
    optional := optional + OptionalColumn("va_numbers", d.vaNumbers);
    before := setFields;
    if !IsEmpty(d.paymentCode) {
      setFields := setFields + ["payment_code = '" + AddSlashes(ToStr(d.paymentCode)) + "'"];
    }
    AppendOptional(before, MandatoryAssignments(d), optional, "payment_code = '", "payment_code", d.paymentCode, setFields);
    optional := optional + OptionalColumn("payment_code", d.paymentCode);
    AppendNow(setFields, MandatoryAssignments(d) + optional, "updated_at");
    setFields := setFields + ["updated_at = NOW()"];
    OptionalUnrolled(d);
    assert optional == OptionalAssignments(OptionalColumns, OptionalValues(d));
  }

  /** updatePaymentInDatabase: builds the SET list, joins it into the statement, and
      hands it to the proxy, whose reply is `reply`. */
  method UpdatePaymentInDatabase(orderId: Value, d: UpdateData, reply: CurlReply)
    returns (sql: string, result: UpdateResult)
    ensures ReadUpdateStatement(sql) == Some((Assignments(d), ToStr(orderId)))
    ensures sql == UpdateStatement(orderId, d)
    ensures result.Updated? <==> !Truthy(Str(reply.error)) && 200 <= reply.httpCode < 300
    ensures result == DatabaseResult(reply)
  {
    var setFields := BuildSetFields(d);
    sql := "UPDATE payments SET " + Join(setFields, ", ") + " WHERE order_id = '" + AddSlashes(ToStr(orderId)) + "'";
    UpdateStatementReadsBack(orderId, d);

    if Truthy(Str(reply.error)) {
      result := NotUpdated("Connection error: " + reply.error);
    } else if 200 <= reply.httpCode < 300 {
      result := Updated(reply.body);
    } else {
      result := NotUpdated("Failed to update database");
    }
  }

  // ---------------------------------------------------------------- the handler

  /** What one webhook call does: the response, the signature verdict (logged only;
      None when the payload was rejected before the check) and the statement sent. */
  datatype NotificationOutcome = NotificationOutcome(
    response: Response, signatureValid: Option<bool>, sql: Option<string>)

  const Processed: Value := Obj([("success", Bool(true)), ("message", Str("Notification processed"))])

  /** The top level of notification.php for one request; `notification` is the decoded
      body (Null when it is not JSON), `serverKey` the merchant's server key, `now` the
      clock, `reply` the proxy's answer to the update. */
  function HandleNotification(requestMethod: string, notification: Value, serverKey: string,
                              sha512: string -> string, jsonEncode: Value -> string,
                              now: string, reply: CurlReply): (o: NotificationOutcome)
    ensures requestMethod == "OPTIONS" ==> o.response == Bare(200) && o.sql == None
    ensures requestMethod != "OPTIONS" && requestMethod != "POST" ==>
              o.response == Json(405, Failure("Method not allowed")) && o.sql == None
    ensures requestMethod == "POST" && !Truthy(notification) ==>
              o.response == Json(400, Failure("Invalid JSON")) && o.sql == None
    ensures requestMethod == "POST" && Truthy(notification)
            && (!Truthy(Field(notification, "order_id")) || !Truthy(Field(notification, "transaction_status"))) ==>
              o.response == Json(400, Failure("Invalid notification data"))
              && o.signatureValid == None && o.sql == None
    ensures requestMethod == "POST" && Truthy(notification)
            && Truthy(Field(notification, "order_id")) && Truthy(Field(notification, "transaction_status")) ==>
              o.sql.Some?
    ensures o.sql.Some? <==> o.signatureValid.Some?
    ensures o.sql.Some? ==>
              o.signatureValid == Some(Field(notification, "signature_key") ==
                Str(ExpectedSignature(sha512, Field(notification, "order_id"), Field(notification, "status_code"),
                                      Field(notification, "gross_amount"), serverKey)))
              && o.sql.value == UpdateStatement(Field(notification, "order_id"),
                                                BuildUpdateData(notification, jsonEncode, now))
              && (o.response == Json(200, Processed) <==> DatabaseResult(reply).Updated?)
              && (o.response != Json(200, Processed) ==> o.response == Json(500, Failure("Failed to update payment")))
  {
    if requestMethod == "OPTIONS" then NotificationOutcome(Bare(200), None, None)
    else if requestMethod != "POST" then NotificationOutcome(Json(405, Failure("Method not allowed")), None, None)
    else if !Truthy(notification) then NotificationOutcome(Json(400, Failure("Invalid JSON")), None, None)
    else
      var orderId := Field(notification, "order_id");
      var transactionStatus := Field(notification, "transaction_status");
      if !Truthy(orderId) || !Truthy(transactionStatus) then
        NotificationOutcome(Json(400, Failure("Invalid notification data")), None, None)
      else
        var expected := ExpectedSignature(sha512, orderId, Field(notification, "status_code"),
                                          Field(notification, "gross_amount"), serverKey);
        var signatureValid := Field(notification, "signature_key") == Str(expected);
        // A mismatch is only logged: the update goes ahead either way.
        var d := BuildUpdateData(notification, jsonEncode, now);
        var sql := UpdateStatement(orderId, d);
        var response := if DatabaseResult(reply).Updated? then Json(200, Processed)
                        else Json(500, Failure("Failed to update payment"));
        NotificationOutcome(response, Some(signatureValid), Some(sql))
  }

  /** Two notifications that agree on every key but signature_key agree on every field
      the handler reads besides the signature. */
  lemma SameFields(n1: Value, n2: Value)
    requires forall k :: k != StrKey("signature_key") ==> Get(n1, k) == Get(n2, k)
    ensures Field(n1, "order_id") == Field(n2, "order_id")
    ensures Field(n1, "transaction_status") == Field(n2, "transaction_status")
    ensures Field(n1, "transaction_id") == Field(n2, "transaction_id")
    ensures Field(n1, "payment_type") == Field(n2, "payment_type")
    ensures Field(n1, "gross_amount") == Field(n2, "gross_amount")
    ensures Field(n1, "status_code") == Field(n2, "status_code")
    ensures Field(n1, "fraud_status") == Field(n2, "fraud_status")
    ensures Field(n1, "va_numbers") == Field(n2, "va_numbers")
    ensures Field(n1, "payment_code") == Field(n2, "payment_code")
    ensures Field(n1, "settlement_time") == Field(n2, "settlement_time")
    ensures Field(n1, "expiry_time") == Field(n2, "expiry_time")
  {
    OtherField(n1, n2, "order_id");
    OtherField(n1, n2, "transaction_status");
    OtherField(n1, n2, "transaction_id");
    OtherField(n1, n2, "payment_type");
    OtherField(n1, n2, "gross_amount");
    OtherField(n1, n2, "status_code");
    OtherField(n1, n2, "fraud_status");
    OtherField(n1, n2, "va_numbers");
    OtherField(n1, n2, "payment_code");
    OtherField(n1, n2, "settlement_time");
    OtherField(n1, n2, "expiry_time");
  }

  lemma OtherField(n1: Value, n2: Value, name: string)
    requires forall k :: k != StrKey("signature_key") ==> Get(n1, k) == Get(n2, k)
    requires |name| != |"signature_key"|
    ensures Field(n1, name) == Field(n2, name)
  {
    assert StrKey(name) != StrKey("signature_key");
  }

  /** The signature does not gate anything: two notifications that agree on every key
      except signature_key get the same response and the same statement, whether
      their signatures match or not. */
  lemma SignatureDoesNotGate(n1: Value, n2: Value, requestMethod: string, serverKey: string,
                             sha512: string -> string, jsonEncode: Value -> string,
                             now: string, reply: CurlReply)
    requires Truthy(n1) <==> Truthy(n2)
    requires forall k :: k != StrKey("signature_key") ==> Get(n1, k) == Get(n2, k)
    ensures HandleNotification(requestMethod, n1, serverKey, sha512, jsonEncode, now, reply).response
         == HandleNotification(requestMethod, n2, serverKey, sha512, jsonEncode, now, reply).response
    ensures HandleNotification(requestMethod, n1, serverKey, sha512, jsonEncode, now, reply).sql
         == HandleNotification(requestMethod, n2, serverKey, sha512, jsonEncode, now, reply).sql
  {
    SameFields(n1, n2);
    assert BuildUpdateData(n1, jsonEncode, now) == BuildUpdateData(n2, jsonEncode, now);
  }
}
