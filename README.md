# QuadraPlay payments and notifications, modelled in Dafny

This project models the server side of QuadraPlay's payment and notification flow, a
PlayStation rental app. The flow has five parts:

- **The webhook handler** (`notification.php`). It receives the payment gateway's
  (Midtrans') transaction notifications. It checks the SHA-512 signature and maps the
  gateway's transaction status to one of six payment statuses. It then sends an
  `UPDATE payments SET ...` statement to a remote query proxy.
- **The checkout endpoint** (`create_transaction.php`). It validates an order, builds the
  Snap request (totals, customer, items, callbacks) and turns the gateway's reply into
  the app's answer.
- **The status poll** (`check_status.php`). It takes the order id from the query string or
  the body, asks the gateway for that transaction and passes the status data on.
- **The notification endpoint** (`send_notification.php`). It validates the request
  (method, JSON body, required fields, email format), dispatches on the notification
  type and answers 200 or 500 after the email service's result.
- **The email service** (`EmailService.php`). It holds the SMTP conversation, reading
  replies with `getSmtpResponse`, and falls back to `mail()`. It also computes the values
  the reservation templates interpolate.

Modules:

- `Php` (`php.dfy`) holds the part of PHP 8 the scripts rely on:
  - decoded JSON values and `??`;
  - truthiness and `empty()`;
  - string and integer conversions;
  - the loose `==` against a string label;
  - `intval` of a division;
  - `implode` and `strpos`;
  - the two response shapes (a JSON body with a status, or a bare status).
- `Notification`, `CreateTransaction`, `CheckStatus`, `SendNotification` and `Email` each
  model one source file.

Every outside effect is a parameter: the clock, SHA-512, `json_encode`, `urlencode`,
`base64_encode`, `filter_var`, each curl reply, the SMTP connection's incoming lines and
what `mail()` returns. The email service is a class. Its `lastError` and the `mail()`
calls it has made are fields, and the socket is a class whose written lines its methods
append to.

## Model

| member | source | states |
|---|---|---|
| Php.Lookup | backend/midtrans/check_status.php:21 | a key is found exactly when some entry carries it, and the value returned is one stored under it |
| Php.ObjField | backend/services/send_notification.php:121 | a field of an array literal reads back as written when its key occurs once in the literal |
| Php.Truthy | backend/midtrans/notification.php:29 | PHP's truthiness: null, false, 0, "", "0" and the empty array are falsy; the endpoints' refusals (HandleNotification, the Rejection functions) are stated with it |
| Php.IsEmpty | backend/midtrans/create_transaction.php:39 | `empty()` on a read that cannot fail: the negation of truthiness; Rejection and OptionalLayout state the checks with it |
| Php.Coalesce | backend/midtrans/check_status.php:21 | `??`: the value unless it is null, else the default; ErrorMessageChain in both endpoints spells out each chain |
| Php.ToStr | backend/midtrans/notification.php:50 | string conversion: null and false give "", true gives "1", an integer its decimal text (IntTextRoundTrip), an array "Array" |
| Php.IntCast | backend/midtrans/create_transaction.php:50 | `(int)`: an integer as it is, a string by its leading number (0 when it has none), a boolean 0 or 1; IntTextRoundTrip shows it inverts integer text |
| Php.LooseEqualsStr | backend/midtrans/notification.php:115 | PHP 8's loose `==` against a string label; LooseEqualsWord, NonStringStatus and the type lemmas of SendNotification state its outcome |
| Php.LooseLeqZero | backend/midtrans/create_transaction.php:43 | PHP 8's loose `<= 0`; AmountCheck states it for integer amounts |
| Php.NumericOperand | backend/midtrans/create_transaction.php:73 | the integer an operand of `/` stands for, None where PHP 8 throws (an array or a non-numeric string); PerUnitPrice states the division for integer amounts |
| Php.TruncDiv | backend/midtrans/create_transaction.php:73 | `intval($a / $b)` is the quotient truncated toward zero: for a >= 0 the largest q with q*b <= a, for a < 0 the negation of (-a)/b |
| Php.LooseEqualsWord | backend/midtrans/notification.php:115 | against a case label that starts with a letter, PHP 8's loose `==` on two strings is plain equality |
| Notification.DeterminePaymentStatus | backend/midtrans/notification.php:114-144 | the switch as written, with PHP 8's loose `==`; MappingMatchesTable, ConfirmedIff, PendingIff and NonStringStatus state its outcome for every input |
| Notification.MappingMatchesTable | backend/midtrans/notification.php:114-144 | for every string status the switch agrees with the table of gateway statuses; an unknown status is pending |
| Notification.UnknownStatus | backend/midtrans/notification.php:141-142 | a status outside the seven labels falls to the default, pending |
| Notification.ConfirmedIff | backend/midtrans/notification.php:116-125 | a string status confirms the payment exactly on settlement, or on a capture whose fraud status is not "challenge" |
| Notification.PendingIff | backend/midtrans/notification.php:116-128 | a string status leaves the payment pending exactly for "pending", a challenged capture or an unknown status |
| Notification.NonStringStatus | backend/midtrans/notification.php:115 | a JSON `true` status is treated as capture, because loose `==` matches the first label; every other non-string status is pending |
| Notification.OptionalLayout | backend/midtrans/notification.php:160-174 | an optional column appears exactly when its value is not empty, in the fixed order, and always as a quoted value |
| Notification.SetListLayout | backend/midtrans/notification.php:153-176 | the SET list starts with the five mandatory columns in order, then the present optional ones, and ends with `updated_at = NOW()` |
| Notification.OptionalUnrolled | backend/midtrans/notification.php:160-174 | the optional entries are the five `if (!empty(...))` appends, one conditional entry per column |
| Notification.AssignmentColumnsWellFormed | backend/midtrans/notification.php:153-176 | every column the statement names is a bare lower-case identifier |
| Notification.PresentOptionalSubset | backend/midtrans/notification.php:160-174 | only the five optional columns can appear among the optional entries |
| Notification.ReadEscaped | backend/midtrans/notification.php:154 | the server reads each escape sequence `addslashes` writes back as the character it escaped |
| Notification.ReadPlain | backend/midtrans/notification.php:154 | a character `addslashes` leaves alone is read as itself |
| Notification.LiteralRoundTrip | backend/midtrans/notification.php:154-179 | a quoted literal built with `addslashes` from any text reads back as that text, and the statement goes on after its closing quote |
| Notification.ReadNowAssignment | backend/midtrans/notification.php:176 | `updated_at = NOW()` reads back as the NOW() assignment |
| Notification.ReadQuotedAssignment | backend/midtrans/notification.php:154-174 | a `column = '<addslashes(v)>'` entry reads back as the column and exactly `v` |
| Notification.AssignmentRoundTrip | backend/midtrans/notification.php:153-176 | every rendered assignment reads back as itself, whatever follows it after a separator |
| Notification.ReadLastAssignment | backend/midtrans/notification.php:178-179 | the last entry, followed by the WHERE clause, reads back with the order id |
| Notification.ReadNextAssignment | backend/midtrans/notification.php:178 | an entry followed by `, ` is read and reading goes on with the rest |
| Notification.SetListRoundTrip | backend/midtrans/notification.php:178-179 | a joined SET list of well-formed columns, plus the WHERE clause, reads back as the same assignments and the order id |
| Notification.UpdateStatementReadsBack | backend/midtrans/notification.php:149-179 | whatever the notification carries, the proxy reads the statement as exactly the intended assignments on exactly the notified order; no value escapes its quotes |
| Notification.ExpectedSignature | backend/midtrans/notification.php:49-50 | the SHA-512 of order id, status code, amount and server key run together; SignatureDoesNotGate shows its verdict changes nothing |
| Notification.BuildUpdateData | backend/midtrans/notification.php:63-87 | the `$updateData` record: the mapped status, the notification's fields, va_numbers JSON-encoded when truthy, and the clock; SameFields and SignatureDoesNotGate show it ignores signature_key |
| Notification.AddSlashes | backend/midtrans/notification.php:154 | `addslashes`: a backslash before `'`, `"` and `\`, NUL as `\0`; LiteralRoundTrip shows the server reads any text back unchanged from it |
| Notification.UpdateStatement | backend/midtrans/notification.php:178-179 | the statement text; UpdateStatementReadsBack shows the proxy reads it as exactly the record's assignments on the order id |
| Notification.DatabaseResult | backend/midtrans/notification.php:213-223 | the update succeeds exactly when curl reported no error and the HTTP code is 2xx |
| Notification.BuildSetFields | backend/midtrans/notification.php:152-176 | the SET entries appended one by one are the rendered assignments of the update record |
| Notification.UpdatePaymentInDatabase | backend/midtrans/notification.php:149-224 | the statement sent reads back as the record's assignments on the order id, and the result is success exactly on a 2xx reply without a curl error |
| Notification.HandleNotification | backend/midtrans/notification.php:18-109 | non-POST gets 405, a falsy body "Invalid JSON", a missing order id or status "Invalid notification data"; every other POST is processed: the signature is computed, the update is sent whatever the signature's verdict, and the answer is 200 exactly when the update succeeds, else 500 |
| Notification.SameFields | backend/midtrans/notification.php:34-41 | two notifications that agree on every key but signature_key agree on every field the handler reads |
| Notification.SignatureDoesNotGate | backend/midtrans/notification.php:49-60 | a signature mismatch is only logged: two notifications differing only in signature_key get the same answer and the same statement |
| CreateTransaction.Rejection | backend/midtrans/create_transaction.php:34-45 | the 400 message for each refused body, in check order, each as an if-and-only-if; a body is accepted exactly when it is truthy, its order id is not empty and its amount is neither empty nor at most 0 |
| CreateTransaction.AmountCheck | backend/midtrans/create_transaction.php:43-45 | an integer amount passes exactly when it is positive |
| CreateTransaction.CustomerFor | backend/midtrans/create_transaction.php:53-61 | customer details are sent exactly when the request has non-empty ones; each given first name, email and phone is copied unchanged, and a missing one becomes "Customer", "" or "" |
| CreateTransaction.ItemFor | backend/midtrans/create_transaction.php:67-80 | one item of the loop; PerUnitPrice, NonPositiveQuantityPrice, BareItemDefaults and GivenPriceKept state its price and defaults |
| CreateTransaction.PerUnitPrice | backend/midtrans/create_transaction.php:72-74 | an unpriced item with a positive quantity gets the largest price whose total does not exceed a positive amount |
| CreateTransaction.NonPositiveQuantityPrice | backend/midtrans/create_transaction.php:72-74 | an unpriced item with quantity <= 0 gets the whole amount |
| CreateTransaction.BareItemDefaults | backend/midtrans/create_transaction.php:67-80 | an item with no keys becomes one "item"/"Item" of the whole amount |
| CreateTransaction.GivenPriceKept | backend/midtrans/create_transaction.php:68-80 | a non-zero price the request gives is kept whatever the amount |
| CreateTransaction.BuildItemDetails | backend/midtrans/create_transaction.php:64-82 | the loop yields one converted item per input item, in order, and fails exactly when some item's price computation throws |
| CreateTransaction.ItemsFor | backend/midtrans/create_transaction.php:64-91 | without item_details the single default rental item carries the amount; otherwise the items converted one by one |
| CreateTransaction.ConvertAll | backend/midtrans/create_transaction.php:66-82 | the recursive reference for the loop: same per-item statement |
| CreateTransaction.ConvertedAsSpecified | backend/midtrans/create_transaction.php:64-82 | the per-item statement fixes the result: the loop computes exactly the reference conversion |
| CreateTransaction.Payload | backend/midtrans/create_transaction.php:47-103 | the Snap request of an accepted body; CallbacksFixed and DefaultItemCarriesAmount state its fixed parts, HandleCreateTransaction that exactly it is sent |
| CreateTransaction.CallbacksFixed | backend/midtrans/create_transaction.php:94-103 | every request sent carries the three fixed return URIs, each `quadraplay://payment/` followed by its own name |
| CreateTransaction.DefaultItemCarriesAmount | backend/midtrans/create_transaction.php:48-51 | without item_details exactly one item is sent, carrying the whole amount, which is also the order total |
| CreateTransaction.SuccessBody | backend/midtrans/create_transaction.php:145-150 | a success answer carries the gateway's token and redirect URL, and the request's order id |
| CreateTransaction.ErrorBody | backend/midtrans/create_transaction.php:153-161 | a refusal carries the message chain and the gateway's whole reply |
| CreateTransaction.ClassifySnapReply | backend/midtrans/create_transaction.php:134-162 | a curl error gives 500; otherwise success exactly on a 2xx reply with a token, and a refusal answers with the gateway's code when it is at least 400, else 400 |
| CreateTransaction.ErrorMessageChain | backend/midtrans/create_transaction.php:153-155 | the refusal message is the first error message, else the message, else "Failed to create transaction" |
| CreateTransaction.HandleCreateTransaction | backend/midtrans/create_transaction.php:14-171 | OPTIONS gets a bare 200; another non-POST method gets the refusal body with the default status; a refused body gets its 400; an accepted body sends exactly the payload, and the answer is the classified reply |
| CheckStatus.RequestedOrderId | backend/midtrans/check_status.php:21-26 | the query's order id when truthy; otherwise, on a POST only, the body's |
| CheckStatus.GetIgnoresBody | backend/midtrans/check_status.php:21-26 | a GET never reads the body |
| CheckStatus.StatusUrl | backend/midtrans/check_status.php:35 | the URL is the API base, `/v2/`, the encoded order id and `/status` |
| CheckStatus.StatusUrlDeterminesOrder | backend/midtrans/check_status.php:35 | two order ids with different encodings never poll the same URL |
| CheckStatus.DataKeysDistinct | backend/midtrans/check_status.php:73-88 | the keys of the data block are pairwise distinct |
| CheckStatus.StatusData | backend/midtrans/check_status.php:73-88 | the data block carries the gateway's order id, or the requested one when absent, and each of the twelve copied keys as the gateway gave it |
| CheckStatus.ErrorBody | backend/midtrans/check_status.php:95-99 | a failed poll carries the message chain and the gateway's status code |
| CheckStatus.SuccessBody | backend/midtrans/check_status.php:72-89 | a successful poll carries the data block |
| CheckStatus.ClassifyStatusReply | backend/midtrans/check_status.php:62-100 | a curl error gives 500; otherwise success exactly on a 2xx reply with a transaction status, and a failure answers 404 for a code of at least 400, else 400 |
| CheckStatus.ErrorMessageChain | backend/midtrans/check_status.php:91-93 | the failure message is the status message, else the message, else "Transaction not found" |
| CheckStatus.HandleCheckStatus | backend/midtrans/check_status.php:15-112 | OPTIONS, other methods and a missing order id are answered without a gateway call; the gateway is called exactly for a present non-array order id, at its status URL, and the answer is the classified reply |
| SendNotification.FirstEmpty | backend/services/send_notification.php:69-74 | the required-field loop as a function: a reported field is one of those checked and is empty; NoneEmpty and FirstEmptyIsEarliest add that it is the earliest empty one, and none when none is empty |
| SendNotification.ValidatedEmail | backend/services/send_notification.php:76-79 | the address `filter_var` returns when it is truthy, None for an array; Rejection states the refusal with it |
| SendNotification.NoneEmpty | backend/services/send_notification.php:69-74 | when no required field is empty, none is reported |
| SendNotification.FirstEmptyIsEarliest | backend/services/send_notification.php:69-74 | the field reported is the earliest empty one |
| SendNotification.RequiredInOrder | backend/services/send_notification.php:68-74 | email is checked before type |
| SendNotification.Rejection | backend/services/send_notification.php:64-79 | the 400 message for each refused body, in check order; past the field checks the body is refused exactly when the email does not validate |
| SendNotification.TypeOf | backend/services/send_notification.php:85-116 | the switch's arm, by loose `==` in order; StringTypes, TrueSelectsReservation and NumberIsUnknown state which arm each type takes |
| SendNotification.StringTypes | backend/services/send_notification.php:85-116 | a string type selects each arm exactly on its label |
| SendNotification.TrueSelectsReservation | backend/services/send_notification.php:86 | a JSON `true` type selects the reservation arm |
| SendNotification.NumberIsUnknown | backend/services/send_notification.php:115-116 | a numeric type selects the default arm |
| SendNotification.DataFieldRead | backend/services/send_notification.php:88-100 | each template key of `$data` is the request's value, or the endpoint's default when it is missing |
| SendNotification.ReservationDataReads | backend/services/send_notification.php:88-100 | `$data` holds the validated address and every template key with its default |
| SendNotification.DefaultsAgreeButId | backend/services/send_notification.php:88-100 | the endpoint's defaults agree with the template's except for the reservation id ("" against "-") |
| SendNotification.MissingIdRendersEmpty | backend/services/send_notification.php:90 | through this endpoint a missing reservation id leaves the subject ending in "#" and an empty id in both versions, never the template's "-" |
| SendNotification.ResultResponse | backend/services/send_notification.php:121-125 | the answer carries the result array, with status 200 exactly when it reports success, else 500 |
| SendNotification.FailureBodies | backend/services/send_notification.php:105-116 | a failed result has the same body as the endpoint's own error answers |
| SendNotification.HandleSendNotification | backend/services/send_notification.php:19-125 | OPTIONS, non-POST and every refused body are answered before the switch, changing nothing; an accepted request answers with the switch's result, where a reservation sends the confirmation through the email service and the stub arms change nothing |
| SendNotification.Dispatch | backend/services/send_notification.php:85-125 | the switch: the stub arms' results, a bare 500 when the data cannot be escaped, otherwise the email service's result for the confirmation email |
| Email.ReplyText | backend/services/EmailService.php:122-129 | the text of one reply; ReadsWholeReply shows a well-formed reply is read whole, GetSmtpResponse that the loop computes it |
| Email.ReplyLength | backend/services/EmailService.php:122-129 | reading one reply consumes at least one line while any is left, and never more than there are |
| Email.ReadsWholeReply | backend/services/EmailService.php:122-129 | a well-formed multi-line reply is read whole and nothing after it is read |
| Email.SmtpSocket.constructor | backend/services/EmailService.php:50 | a fresh connection has nothing written and is open |
| Email.SmtpSocket.Gets | backend/services/EmailService.php:59 | `fgets` yields the next line, or false when none is left |
| Email.SmtpSocket.Puts | backend/services/EmailService.php:66 | `fputs` appends one line to what was written |
| Email.SmtpSocket.Close | backend/services/EmailService.php:61 | `fclose` closes the connection |
| Email.DataPayload | backend/services/EmailService.php:98-105 | the text written after DATA; PayloadLayout and BodyMarkerEndsData state its framing |
| Email.PayloadLayout | backend/services/EmailService.php:98-105 | the DATA payload ends with CRLF.CRLF right after the body, which is unchanged |
| Email.EmailService.constructor | backend/services/EmailService.php:16-25 | a fresh service has no error and has called `mail()` no times |
| Email.EmailService.Sent | backend/services/EmailService.php:38-120 | the effect of one send: the result, the `mail()` calls, lastError and what the socket saw, for each of the four paths (no connection, greeting refused, password refused, delivered) |
| Email.EmailService.SendEmail | backend/services/EmailService.php:30-33 | sendEmail has exactly sendViaSMTP's effect |
| Email.EmailService.SendViaSmtp | backend/services/EmailService.php:38-120 | a failed connection or a greeting other than 220 hands the message to `mail()`; a refused password ends in failure without it; otherwise the login and delivery commands are written in order and the result is success; the connection is closed |
| Email.EmailService.Converse | backend/services/EmailService.php:66-114 | after the greeting: login, then either failure on a reply without 235 or delivery and success |
| Email.EmailService.Login | backend/services/EmailService.php:66-77 | EHLO, AUTH LOGIN, the user name and the password are written in order, one reply read after each, and the last reply is returned |
| Email.EmailService.Deliver | backend/services/EmailService.php:86-111 | MAIL FROM, RCPT TO, DATA and the message are written, one reply read after each, then QUIT |
| Email.EmailService.Command | backend/services/EmailService.php:66-67 | one command is written and exactly one reply is read |
| Email.EmailService.GetSmtpResponse | backend/services/EmailService.php:122-129 | the reply text is the lines up to the first final one, or up to a false or "0" read, and exactly those lines are consumed |
| Email.EmailService.SendViaMail | backend/services/EmailService.php:134-143 | one `mail()` call with the headers joined by CRLF; the result and `lastError` follow what it returns |
| Email.EmailService.SendReservationConfirmation | backend/services/EmailService.php:155-163 | an array among the template values stops the send with nothing changed; otherwise the escaped HTML body is sent to the data's address with the reservation subject |
| Email.ThreeDigitGreeting | backend/services/EmailService.php:60 | for a greeting starting with a three-digit code, the loose comparison accepts exactly 220 |
| Email.BodyMarkerEndsData | backend/services/EmailService.php:104-107 | the body is not dot-stuffed, so a body containing CRLF.CRLF ends the data inside the body |
| Email.HtmlFields | backend/services/EmailService.php:168-178 | the ten escaped template values, None when one is an array; HtmlFieldsFailOnArrays, TemplateDefaultsApply and HtmlEscapesPlainCopies state them |
| Email.DefaultIsPlain | backend/services/EmailService.php:169-178 | the template defaults contain nothing `htmlspecialchars` replaces |
| Email.TemplateDefaultsApply | backend/services/EmailService.php:169-178 | a missing value takes the template's default, in both versions |
| Email.HtmlEscapesPlainCopies | backend/services/EmailService.php:169-178 | a given string is escaped in the HTML version and copied as it is into the plain text version |
| Email.HtmlFieldsFailOnArrays | backend/services/EmailService.php:169-178 | the HTML values exist exactly when no template value is an array |
| Email.HtmlEscape | backend/services/EmailService.php:169 | escaped text contains no `<`, `>`, `"` or `'` |
| Email.EscapeKeepsPlainText | backend/services/EmailService.php:169 | text without the five special characters is left as it is |
| Email.UnescapeChar | backend/services/EmailService.php:169 | decoding the escape of one character gives that character back |
| Email.EscapeRoundTrip | backend/services/EmailService.php:169 | decoding the escaped text gives the original text back |

## Left out

- Floating point: JSON numbers with a fraction, and numeric strings in float form, are not values of the model. Integers are unbounded, so 64-bit overflow is not modelled.
- TruncDiv: `intval($a / $b)` divides in floating point, so for amounts beyond 2^53 PHP's quotient can differ from the exact truncated quotient the model computes.
- I/O is not modelled: reading the request body, headers, `exit`, logging, and the clock behind `date()` (a parameter). Logging has no effect on any answer.
- The CORS headers of `setCorsHeaders` (backend/midtrans/config.php:32-42) are not modelled; only its bare 200 answer to OPTIONS is.
- The outside calls are parameters: SHA-512, `json_encode`, `urlencode`, `base64_encode`, `filter_var`, the curl replies, the SMTP server's lines and the value `mail()` returns. Each curl reply is taken as already decoded.
- The markup of the two email templates (the HTML heredoc and the plain text) is given by the parameters `renderHtml` and `renderPlain`. The model states which values are interpolated, how they are escaped and their defaults.
- The sender address, SMTP credentials and Midtrans server key from the configuration files are parameters (`MailConfig`, `serverKey`), not constants of the model.
- The `catch (Exception $e)` blocks are not modelled as reachable. Every failure the scripts can meet is a PHP 8 `TypeError`, which they do not catch, and the model answers those with a bare 500: `htmlspecialchars`, `urlencode` or a division meeting an array or a non-numeric string. The "Server error" answers are therefore absent.
- Notification.BuildSetFields: a field that is an array makes `addslashes` throw a TypeError in PHP 8; the model writes such a value as the text "Array" instead.
- Notification.HandleNotification: the same array case as BuildSetFields is not answered with a bare 500.
- The signature check of notification.php decides nothing: a mismatch is only logged. This is stated by SignatureDoesNotGate rather than treated as an error.
- Opening the SMTP connection is outside the model: the source always connects over SSL to port 465, and the configured SMTP_PORT is never read. `fsockopen`'s outcome is the `connection` parameter.
- The plain text body is built and passed down but never sent by the source; the model passes it along unused as well.
- The PHPMailer availability check in the EmailService constructor is not modelled, because it has no effect on sending.
- `getLastError` is the `lastError` field of the `EmailService` class, which every method's contract states.
- The initial `$result` of send_notification.php (line 83) is not modelled. Every arm of the switch overwrites it, so it is never observable.
- BuildSetFields, Login, Deliver, Converse, Command and Dispatch split longer source functions into steps. Each step's contract is stated on its own.
- Concurrency between requests is not modelled; each request is one call of its handler.
