/**
 * The mail path of the notification service: the SMTP reply reader, the SMTP
 * conversation with its fall back to PHP's `mail()`, the DATA payload, and the
 * values the reservation templates interpolate.
 *
 * The socket `fsockopen` returns is a `SmtpSocket` whose incoming lines are given up
 * front (null when the connection failed); what `mail()` returns, `base64_encode`, the
 * configured addresses and credentials, and the templates' literal markup are
 * parameters.
 */
module Email {
  import opened Php

  const SmtpHost := "smtp.gmail.com"
  const FromName := "QuadraPlay"
  const CRLF := "\r\n"

  /** The end-of-data indicator `<CRLF>.<CRLF>` (section 4.1.1.4 of RFC 5321). */
  const EndOfData := "\r\n.\r\n"

  const AuthFailed := "SMTP Authentication failed"
  const MailFailed := "mail() function failed"

  /** The configured sender address and SMTP credentials, and `phpversion()`. */
  datatype MailConfig = MailConfig(fromEmail: string, username: string, password: string, phpVersion: string)

  /** One call of `mail($to, $subject, $body, $headers)`. */
  datatype MailCall = MailCall(to: string, subject: string, body: string, headers: string)

  /** The `['success' => ..., 'message' => ...]` arrays the service returns. */
  datatype SendResult = SendResult(success: bool, message: string)

  // ---------------------------------------------------------------- reply reader

  /** A line that ends a reply: its fourth character is a space ("code SP text", section
      4.2.1 of RFC 5321); a "code-text" line announces more lines. */
  predicate IsFinalLine(line: string) {
    |line| > 3 && line[3] == ' '
  }

  /** How many lines getSmtpResponse consumes: up to and including the first final
      line, or the first falsy line ("0"); nothing once the stream is exhausted. */
  function ReplyLength(lines: seq<string>): (n: nat)
    ensures n <= |lines|
    ensures lines != [] <==> n > 0
  {
    if lines == [] then 0
    else if !Truthy(Str(lines[0])) || IsFinalLine(lines[0]) then 1
    else 1 + ReplyLength(lines[1..])
  }

  /** The text getSmtpResponse returns: the consumed lines run together, without a
      falsy last line. */
  function ReplyText(lines: seq<string>): string {
    if lines == [] || !Truthy(Str(lines[0])) then ""
    else if IsFinalLine(lines[0]) then lines[0]
    else lines[0] + ReplyText(lines[1..])
  }

  /** The lines left after one reply has been read. */
  function DropReply(lines: seq<string>): seq<string> {
    lines[ReplyLength(lines)..]
  }

  function Concat(xs: seq<string>): string {
    if xs == [] then "" else xs[0] + Concat(xs[1..])
  }

  /** A reply as section 4.2.1 of RFC 5321 writes it: "code-text" lines, then one
      "code SP text" line. */
  predicate WellFormedReply(reply: seq<string>) {
    && |reply| >= 1
    && IsFinalLine(reply[|reply| - 1])
    && forall i :: 0 <= i < |reply| - 1 ==> |reply[i]| > 3 && reply[i][3] == '-'
  }

  /** A well-formed reply is read whole, and nothing after it is read. */
  lemma {:induction false} ReadsWholeReply(reply: seq<string>, rest: seq<string>)
    requires WellFormedReply(reply)
    ensures ReplyText(reply + rest) == Concat(reply)
    ensures ReplyLength(reply + rest) == |reply|
    ensures DropReply(reply + rest) == rest
  {
    var lines := reply + rest;
    assert lines[0] == reply[0];
    if |reply| == 1 {
      assert Concat(reply) == reply[0] + Concat([]);
    } else {
      assert lines[1..] == reply[1..] + rest;
      ReadsWholeReply(reply[1..], rest);
    }
  }

  // ---------------------------------------------------------------- the socket

  /** An SMTP connection: the lines successive `fgets($smtp, 515)` calls return, what
      `fputs` has written, and whether `fclose` has been called. */
  class SmtpSocket {
    var incoming: seq<string>
    var written: seq<string>
    var closed: bool

    constructor (incoming: seq<string>)
      ensures this.incoming == incoming && written == [] && !closed
    {
      this.incoming := incoming;
      written := [];
      closed := false;
    }

    /** `fgets`: the next line, or None (false) when none is left. */
    method Gets() returns (line: Option<string>)
      modifies this
      ensures old(incoming) == [] ==> line == None && incoming == []
      ensures old(incoming) != [] ==> line == Some(old(incoming)[0]) && incoming == old(incoming)[1..]
      ensures written == old(written) && closed == old(closed)
    {
      if incoming == [] {
        line := None;
      } else {
        line := Some(incoming[0]);
        incoming := incoming[1..];
      }
    }

    /** `fputs`. */
    method Puts(s: string)
      modifies this
      ensures written == old(written) + [s]
      ensures incoming == old(incoming) && closed == old(closed)
    {
      written := written + [s];
    }

    /** `fclose`. */
    method Close()
      modifies this
      ensures closed
      ensures incoming == old(incoming) && written == old(written)
    {
      closed := true;
    }
  }

  // ---------------------------------------------------------------- the conversation

  /** `substr($s, 0, 3)`. */
  function Prefix3(s: string): string {
    if |s| <= 3 then s else s[..3]
  }

  /** The greeting check `substr($response, 0, 3) != '220'`, negated (a loose comparison). */
  predicate GreetingAccepted(greeting: string) {
    LooseEqualsStr(Str(Prefix3(greeting)), "220")
  }

  /** The greeting as read (an exhausted stream reads as false, that is ""). */
  function Greeting(lines: seq<string>): string {
    if lines == [] then "" else lines[0]
  }

  function AfterGreeting(lines: seq<string>): seq<string> {
    if lines == [] then [] else lines[1..]
  }

  /** The reply to the password: the fourth reply read after the greeting (to EHLO,
      AUTH LOGIN, the user name and the password). */
  function LoginReply(rest: seq<string>): string {
    ReplyText(DropReply(DropReply(DropReply(rest))))
  }

  function AuthReply(lines: seq<string>): string {
    LoginReply(AfterGreeting(lines))
  }

  /** What is left unread after the four login replies. */
  function AfterLogin(rest: seq<string>): seq<string> {
    DropReply(DropReply(DropReply(DropReply(rest))))
  }

  /** What is left unread after the replies to MAIL FROM, RCPT TO, DATA and the message. */
  function AfterDelivery(rest: seq<string>): seq<string> {
    DropReply(DropReply(DropReply(DropReply(AfterLogin(rest)))))
  }

  function MailResult(mailAccepted: bool): SendResult {
    if mailAccepted then SendResult(true, "Email berhasil dikirim via mail()")
    else SendResult(false, MailFailed)
  }

  function ConnectFailure(errno: int, errstr: string): string {
    "SMTP connection failed: " + errstr + " (" + IntToDecimal(errno) + "). Trying mail() function..."
  }

  /** The headers handed to `mail()`. */
  function Headers(config: MailConfig): seq<string> {
    ["MIME-Version: 1.0",
     "Content-Type: text/html; charset=UTF-8",
     "From: " + FromName + " <" + config.fromEmail + ">",
     "Reply-To: " + config.fromEmail,
     "X-Mailer: PHP/" + config.phpVersion]
  }

  function LoginCommands(config: MailConfig, base64: string -> string): seq<string> {
    ["EHLO " + SmtpHost + CRLF, "AUTH LOGIN" + CRLF,
     base64(config.username) + CRLF, base64(config.password) + CRLF]
  }

  /** The header block of the message sent after DATA, each line ended by CRLF. */
  function MessageHeaders(config: MailConfig, to: string, subject: string): string {
    "To: " + to + CRLF
    + "From: " + FromName + " <" + config.fromEmail + ">" + CRLF
    + "Subject: " + subject + CRLF
    + "MIME-Version: 1.0" + CRLF
    + "Content-Type: text/html; charset=UTF-8" + CRLF
  }

  /** The text written after DATA: the headers, a blank line, the body as it is, and
      the end-of-data indicator. Lines of the body are not dot-stuffed. */
  function DataPayload(config: MailConfig, to: string, subject: string, body: string): string {
    MessageHeaders(config, to, subject) + CRLF + body + EndOfData
  }

  /** The payload ends with the end-of-data indicator, right after the body as it was
      given: nothing in the body is changed. */
  lemma PayloadLayout(config: MailConfig, to: string, subject: string, body: string)
    ensures var p := DataPayload(config, to, subject, body);
            && |p| >= |body| + 5
            && p[|p| - 5..] == EndOfData
            && p[|p| - 5 - |body|..|p| - 5] == body
  {
    var p := DataPayload(config, to, subject, body);
    var h := MessageHeaders(config, to, subject) + CRLF;
    assert p == h + body + EndOfData;
    assert p[|h|..|h| + |body|] == body;
  }

  function DeliveryCommands(config: MailConfig, to: string, subject: string, body: string): seq<string> {
    ["MAIL FROM:<" + config.fromEmail + ">" + CRLF, "RCPT TO:<" + to + ">" + CRLF, "DATA" + CRLF,
     DataPayload(config, to, subject, body), "QUIT" + CRLF]
  }

  /** The five delivery commands appended one by one form one block. */
  lemma AppendFive(w: seq<string>, a: string, b: string, c: string, d: string, e: string)
    ensures w + [a] + [b] + [c] + [d] + [e] == w + [a, b, c, d, e]
  {
  }

  /** The login block followed by the delivery block, regrouped. */
  lemma AppendAssoc(a: seq<string>, b: seq<string>, c: seq<string>)
    ensures (a + b) + c == a + (b + c)
  {
  }

  // ---------------------------------------------------------------- the service

  class EmailService {
    const config: MailConfig
    const base64: string -> string
    var lastError: string
    /** The calls made to `mail()`, oldest first. */
    var mailCalls: seq<MailCall>

    constructor (config: MailConfig, base64: string -> string)
      ensures this.config == config && this.base64 == base64
      ensures lastError == "" && mailCalls == []
    {
      this.config := config;
      this.base64 := base64;
      lastError := "";
      mailCalls := [];
    }

    /** The effect of handing a message to sendViaSMTP: the result, the `mail()` calls,
        `lastError`, and what the socket saw. A refused connection or greeting hands the
        message to `mail()`; a refused password ends in failure without it; otherwise the
        message is delivered whatever the later replies say. */
    twostate predicate Sent(connection: SmtpSocket?, to: string, subject: string, htmlBody: string,
                            errno: int, errstr: string, mailAccepted: bool, new r: SendResult)
      reads this, connection
    {
      var call := MailCall(to, subject, htmlBody, Join(Headers(config), CRLF));
      if connection == null then
        && r == MailResult(mailAccepted)
        && mailCalls == old(mailCalls) + [call]
        && lastError == (if mailAccepted then ConnectFailure(errno, errstr) else MailFailed)
      else
        var lines := old(connection.incoming);
        && connection.closed
        && if !GreetingAccepted(Greeting(lines)) then
             && r == MailResult(mailAccepted)
             && mailCalls == old(mailCalls) + [call]
             && lastError == (if mailAccepted then old(lastError) else MailFailed)
             && connection.written == old(connection.written)
             && connection.incoming == AfterGreeting(lines)
           else if !Contains(AuthReply(lines), "235") then
             && r == SendResult(false, AuthFailed)
             && mailCalls == old(mailCalls)
             && lastError == AuthFailed
             && connection.written == old(connection.written) + LoginCommands(config, base64)
             && connection.incoming == AfterLogin(AfterGreeting(lines))
           else
             && r == SendResult(true, "Email berhasil dikirim")
             && mailCalls == old(mailCalls)
             && lastError == old(lastError)
             && connection.written == old(connection.written) + LoginCommands(config, base64)
                                      + DeliveryCommands(config, to, subject, htmlBody)
             && connection.incoming == AfterDelivery(AfterGreeting(lines))
    }

    /** sendEmail: sendViaSMTP; the plain text body is not used. */
    method SendEmail(to: string, subject: string, htmlBody: string, plainBody: string,
                     connection: SmtpSocket?, errno: int, errstr: string, mailAccepted: bool)
      returns (r: SendResult)
      modifies this, connection
      ensures Sent(connection, to, subject, htmlBody, errno, errstr, mailAccepted, r)
    {
      r := SendViaSmtp(to, subject, htmlBody, plainBody, connection, errno, errstr, mailAccepted);
    }

    /** sendViaSMTP. `connection` is what `fsockopen` returned (null on failure, with
        `errno` and `errstr`); `mailAccepted` is what `mail()` would return. */
    method SendViaSmtp(to: string, subject: string, htmlBody: string, plainBody: string,
                       connection: SmtpSocket?, errno: int, errstr: string, mailAccepted: bool)
      returns (r: SendResult)
      modifies this, connection
      ensures Sent(connection, to, subject, htmlBody, errno, errstr, mailAccepted, r)
    {
      var headers := Headers(config);
      if connection == null {
        lastError := ConnectFailure(errno, errstr);
        r := SendViaMail(to, subject, htmlBody, headers, mailAccepted);
        return;
      }
      ghost var lines := connection.incoming;
      var line := connection.Gets();
      var greeting := if line.Some? then line.value else "";
      assert greeting == Greeting(lines);
      if !GreetingAccepted(greeting) {
        connection.Close();
        r := SendViaMail(to, subject, htmlBody, headers, mailAccepted);
        return;
      }
      assert connection.incoming == AfterGreeting(lines);
      ghost var greeted := connection.written;
      r := Converse(connection, to, subject, htmlBody);
      if Contains(AuthReply(lines), "235") {
        AppendAssoc(greeted, LoginCommands(config, base64), DeliveryCommands(config, to, subject, htmlBody));
      }
    }

    /** The rest of sendViaSMTP once the greeting is accepted: log in, and unless the
        server refuses the password, deliver the message; the socket is closed. */
    method Converse(smtp: SmtpSocket, to: string, subject: string, htmlBody: string) returns (r: SendResult)
      modifies this, smtp
      ensures mailCalls == old(mailCalls) && smtp.closed
      ensures !Contains(LoginReply(old(smtp.incoming)), "235") ==>
                && r == SendResult(false, AuthFailed) && lastError == AuthFailed
                && smtp.written == old(smtp.written) + LoginCommands(config, base64)
                && smtp.incoming == AfterLogin(old(smtp.incoming))
      ensures Contains(LoginReply(old(smtp.incoming)), "235") ==>
                && r == SendResult(true, "Email berhasil dikirim") && lastError == old(lastError)
                && smtp.written == old(smtp.written) + LoginCommands(config, base64)
                                   + DeliveryCommands(config, to, subject, htmlBody)
                && smtp.incoming == AfterDelivery(old(smtp.incoming))
    {
      var authResponse := Login(smtp);
      if !Contains(authResponse, "235") {
        smtp.Close();
        lastError := AuthFailed;
        r := SendResult(false, lastError);
        return;
      }
      Deliver(smtp, to, subject, htmlBody);
      smtp.Close();
      r := SendResult(true, "Email berhasil dikirim");
    }

    /** The login part of sendViaSMTP: EHLO, AUTH LOGIN, the user name and the password,
        each followed by reading a reply; the last reply is returned. */
    method Login(smtp: SmtpSocket) returns (authResponse: string)
      modifies smtp
      ensures authResponse == ReplyText(DropReply(DropReply(DropReply(old(smtp.incoming)))))
      ensures smtp.incoming == DropReply(DropReply(DropReply(DropReply(old(smtp.incoming)))))
      ensures smtp.written == old(smtp.written) + LoginCommands(config, base64)
      ensures smtp.closed == old(smtp.closed)
    {
      var user := base64(config.username) + CRLF;
      var password := base64(config.password) + CRLF;
      ghost var w := smtp.written;
      var reply := Command(smtp, "EHLO " + SmtpHost + CRLF);
      reply := Command(smtp, "AUTH LOGIN" + CRLF);
      reply := Command(smtp, user);
      authResponse := Command(smtp, password);
      assert w + ["EHLO " + SmtpHost + CRLF] + ["AUTH LOGIN" + CRLF] + [user] + [password]
          == w + ["EHLO " + SmtpHost + CRLF, "AUTH LOGIN" + CRLF, user, password];
    }

    /** The delivery part of sendViaSMTP: MAIL FROM, RCPT TO, DATA and the message, each
        followed by reading a reply whose text is ignored, then QUIT. */
    method Deliver(smtp: SmtpSocket, to: string, subject: string, htmlBody: string)
      modifies smtp
      ensures smtp.incoming == DropReply(DropReply(DropReply(DropReply(old(smtp.incoming)))))
      ensures smtp.written == old(smtp.written) + DeliveryCommands(config, to, subject, htmlBody)
      ensures smtp.closed == old(smtp.closed)
    {
      var mailFrom := "MAIL FROM:<" + config.fromEmail + ">" + CRLF;
      var rcptTo := "RCPT TO:<" + to + ">" + CRLF;
      var payload := DataPayload(config, to, subject, htmlBody);
      ghost var w := smtp.written;
      var reply := Command(smtp, mailFrom);
      reply := Command(smtp, rcptTo);
      reply := Command(smtp, "DATA" + CRLF);
      reply := Command(smtp, payload);
      smtp.Puts("QUIT" + CRLF);
      AppendFive(w, mailFrom, rcptTo, "DATA" + CRLF, payload, "QUIT" + CRLF);
    }

    /** One `fputs` followed by getSmtpResponse, the step sendViaSMTP repeats. */
    method Command(smtp: SmtpSocket, line: string) returns (reply: string)
      modifies smtp
      ensures reply == ReplyText(old(smtp.incoming))
      ensures smtp.incoming == DropReply(old(smtp.incoming))
      ensures smtp.written == old(smtp.written) + [line] && smtp.closed == old(smtp.closed)
    {
      smtp.Puts(line);
      reply := GetSmtpResponse(smtp);
    }

    /** getSmtpResponse: reads lines until one whose fourth character is a space, or
        until a read yields false or "0". */
    method GetSmtpResponse(smtp: SmtpSocket) returns (response: string)
      modifies smtp
      ensures response == ReplyText(old(smtp.incoming))
      ensures smtp.incoming == DropReply(old(smtp.incoming))
      ensures smtp.written == old(smtp.written) && smtp.closed == old(smtp.closed)
    {
      ghost var lines := smtp.incoming;
      ghost var k := 0;
      response := "";
      var done := false;
      while !done
        invariant 0 <= k <= |lines| && smtp.incoming == lines[k..]
        invariant smtp.written == old(smtp.written) && smtp.closed == old(smtp.closed)
        invariant !done ==> response + ReplyText(lines[k..]) == ReplyText(lines)
        invariant !done ==> k + ReplyLength(lines[k..]) == ReplyLength(lines)
        invariant done ==> response == ReplyText(lines) && k == ReplyLength(lines)
        decreases |smtp.incoming|, !done
      {
        var str := smtp.Gets();
        if str.None? || !Truthy(Str(str.value)) {
          if str.Some? {
            k := k + 1;
          }
          done := true;
        } else {
          response := response + str.value;
          k := k + 1;
          if |str.value| > 3 && str.value[3] == ' ' {
            done := true;
          } else {
            assert lines[k..] == lines[k - 1..][1..];
          }
        }
      }
    }

    /** sendViaMail: one call of `mail()` with the headers joined by CRLF. */
    method SendViaMail(to: string, subject: string, htmlBody: string, headers: seq<string>, mailAccepted: bool)
      returns (r: SendResult)
      modifies this
      ensures mailCalls == old(mailCalls) + [MailCall(to, subject, htmlBody, Join(headers, CRLF))]
      ensures r == MailResult(mailAccepted)
      ensures lastError == (if mailAccepted then old(lastError) else MailFailed)
    {
      mailCalls := mailCalls + [MailCall(to, subject, htmlBody, Join(headers, CRLF))];
      if mailAccepted {
        r := SendResult(true, "Email berhasil dikirim via mail()");
      } else {
        lastError := MailFailed;
        r := SendResult(false, lastError);
      }
    }

    /** getLastError. */
    function LastError(): string
      reads this
    {
      lastError
    }

    /** sendReservationConfirmation. The HTML markup around the interpolated values is
        `renderHtml`, the plain text markup `renderPlain`. An array among the values makes
        `htmlspecialchars` throw before anything is sent (None). */
    method SendReservationConfirmation(data: Value, renderHtml: seq<string> -> string,
                                       renderPlain: seq<string> -> string,
                                       connection: SmtpSocket?, errno: int, errstr: string, mailAccepted: bool)
      returns (r: Option<SendResult>)
      modifies this, connection
      ensures HtmlFields(data).None? ==>
                r.None? && unchanged(this) && (connection != null ==> unchanged(connection))
      ensures HtmlFields(data).Some? ==>
                r.Some? && Sent(connection, ToStr(Field(data, "email")), Subject(data),
                                renderHtml(HtmlFields(data).value), errno, errstr, mailAccepted, r.value)
    {
      var to := ToStr(Field(data, "email"));
      var subject := Subject(data);
      var html := HtmlFields(data);
      if html.None? {
        return None;
      }
      var htmlBody := renderHtml(html.value);
      var plainBody := renderPlain(PlainFields(data));
      var sent := SendEmail(to, subject, htmlBody, plainBody, connection, errno, errstr, mailAccepted);
      r := Some(sent);
    }
  }

  // ---------------------------------------------------------------- properties of the conversation

  /** For a greeting that starts with a three-digit code, the loose comparison accepts
      exactly the code 220. */
  lemma ThreeDigitGreeting(greeting: string)
    requires |greeting| >= 3 && forall j :: 0 <= j < 3 ==> IsDigit(greeting[j])
    ensures GreetingAccepted(greeting) <==> greeting[..3] == "220"
  {
    var c := Prefix3(greeting);
    assert c == greeting[..3];
    ReadUnsigned(c);
    ReadUnsigned("220");
    assert LeadingInt(c) == Some(DigitsValue(c) as int);
    assert LeadingInt("220") == Some(DigitsValue("220") as int);
    DigitsOfThree(c);
    DigitsOfThree("220");
    if IntCast(Str(c)) == 220 {
      assert c[0] == '2' && c[1] == '2' && c[2] == '0';
      assert c == "220";
    }
  }

  lemma DigitsOfThree(c: string)
    requires |c| == 3 && forall j :: 0 <= j < 3 ==> IsDigit(c[j])
    ensures DigitsValue(c) == DigitValue(c[0]) * 100 + DigitValue(c[1]) * 10 + DigitValue(c[2])
  {
    var c2 := c[..2];
    var c1 := c2[..1];
    assert c1[..0] == [];
    assert DigitsValue(c1) == DigitValue(c[0]);
    assert DigitsValue(c2) == DigitsValue(c1) * 10 + DigitValue(c[1]);
  }

  // ---------------------------------------------------------------- framing

  predicate MarkerAt(s: string, i: nat) {
    i + 5 <= |s| && s[i..i + 5] == EndOfData
  }

  /** Where a server reading `s` after DATA stops: the first end-of-data indicator at or
      after `from`, or |s| when there is none. */
  function FirstMarker(s: string, from: nat): (i: nat)
    requires from <= |s|
    ensures from <= i <= |s|
    ensures i < |s| ==> MarkerAt(s, i)
    ensures forall k :: from <= k < i ==> !MarkerAt(s, k)
    decreases |s| - from
  {
    if from + 5 > |s| then |s|
    else if s[from..from + 5] == EndOfData then from
    else FirstMarker(s, from + 1)
  }

  /** Without dot-stuffing (section 4.5.2 of RFC 5321), a body containing CRLF.CRLF ends
      the data inside the body: the server keeps only the headers and the body's first
      part, and reads the rest of the body as commands. */
  lemma BodyMarkerEndsData(config: MailConfig, to: string, subject: string, b1: string, b2: string)
    ensures var p := DataPayload(config, to, subject, b1 + EndOfData + b2);
            FirstMarker(p, 0) <= |MessageHeaders(config, to, subject) + CRLF| + |b1|
  {
    var body := b1 + EndOfData + b2;
    var p := DataPayload(config, to, subject, body);
    var h := MessageHeaders(config, to, subject) + CRLF;
    var k := |h| + |b1|;
    assert p == (h + b1) + EndOfData + (b2 + EndOfData);
    assert MarkerAt(p, k);
  }

  // ---------------------------------------------------------------- templates

  /** The keys the HTML template reads, in order, and their defaults. The plain text
      version reads the first nine. */
  const TemplateKeys: seq<string> := [
    "reservasi_id", "customer_name", "item_name", "jumlah_unit", "jumlah_hari",
    "tgl_mulai", "tgl_selesai", "total_harga", "alamat", "no_wa"]
  const TemplateDefaults: seq<string> := ["-", "Pelanggan", "PlayStation", "1", "1", "-", "-", "0", "-", "-"]
  const PlainCount := 9

  function TemplateValue(data: Value, j: nat): Value
    requires j < |TemplateKeys|
  {
    Coalesce(Field(data, TemplateKeys[j]), Str(TemplateDefaults[j]))
  }

  /** The ten escaped values the HTML template interpolates, or None when one of them is
      an array (`htmlspecialchars` then throws). */
  function HtmlFields(data: Value): Option<seq<string>> {
    if forall j :: 0 <= j < |TemplateKeys| ==> !TemplateValue(data, j).Arr? then
      Some(seq(|TemplateKeys|, j requires 0 <= j < |TemplateKeys| => HtmlEscape(ToStr(TemplateValue(data, j)))))
    else None
  }

  /** The nine unescaped values the plain text version interpolates. */
  function PlainFields(data: Value): seq<string> {
    seq(PlainCount, j requires 0 <= j < PlainCount => ToStr(TemplateValue(data, j)))
  }

  function Subject(data: Value): string {
    "\U{2705} Reservasi Dikonfirmasi - QuadraPlay #" + ToStr(Field(data, "reservasi_id"))
  }

  /** The defaults contain no character `htmlspecialchars` replaces. */
  lemma DefaultIsPlain(j: nat)
    requires j < |TemplateKeys|
    ensures HtmlEscape(TemplateDefaults[j]) == TemplateDefaults[j]
  {
    var d := TemplateDefaults[j];
    if d == "-" {
      EscapeKeepsPlainText("-");
    } else if d == "1" {
      EscapeKeepsPlainText("1");
    } else if d == "0" {
      EscapeKeepsPlainText("0");
    } else if d == "Pelanggan" {
      EscapeKeepsPlainText("Pelanggan");
    } else {
      assert d == "PlayStation";
      EscapeKeepsPlainText("PlayStation");
    }
  }

  /** A missing value takes the template's default, in both versions. */
  lemma TemplateDefaultsApply(data: Value, j: nat)
    requires j < |TemplateKeys| && Field(data, TemplateKeys[j]) == Null
    ensures HtmlFields(data).Some? ==> HtmlFields(data).value[j] == TemplateDefaults[j]
    ensures j < PlainCount ==> PlainFields(data)[j] == TemplateDefaults[j]
  {
    DefaultIsPlain(j);
  }

  /** A given string value is escaped in the HTML version and copied as it is into the
      plain text version. */
  lemma HtmlEscapesPlainCopies(data: Value, j: nat, s: string)
    requires j < |TemplateKeys| && Field(data, TemplateKeys[j]) == Str(s)
    ensures HtmlFields(data).Some? ==> HtmlFields(data).value[j] == HtmlEscape(s)
    ensures j < PlainCount ==> PlainFields(data)[j] == s
  {
  }

  /** The HTML values exist exactly when no template value is an array. */
  lemma HtmlFieldsFailOnArrays(data: Value)
    ensures HtmlFields(data).None? <==> exists j :: 0 <= j < |TemplateKeys| && Field(data, TemplateKeys[j]).Arr?
  {
    if HtmlFields(data).None? {
      var j :| 0 <= j < |TemplateKeys| && TemplateValue(data, j).Arr?;
      assert Field(data, TemplateKeys[j]).Arr?;
    } else {
      forall j | 0 <= j < |TemplateKeys| ensures !Field(data, TemplateKeys[j]).Arr? {
        assert !TemplateValue(data, j).Arr?;
      }
    }
  }

  // ---------------------------------------------------------------- htmlspecialchars

  /** `htmlspecialchars` with the default flags of PHP 8.1 and later (ENT_QUOTES): five
      characters become entities. */
  function EscapeChar(c: char): string {
    match c
    case '&' => "&amp;"
    case '"' => "&quot;"
    case '\'' => "&#039;"
    case '<' => "&lt;"
    case '>' => "&gt;"
    case _ => [c]
  }

  predicate IsMarkupChar(c: char) {
    c == '<' || c == '>' || c == '"' || c == '\''
  }

  function HtmlEscape(s: string): (t: string)
    ensures forall j :: 0 <= j < |t| ==> !IsMarkupChar(t[j])
  {
    if s == [] then [] else EscapeChar(s[0]) + HtmlEscape(s[1..])
  }

  /** A string without the five special characters is left as it is. */
  lemma {:induction false} EscapeKeepsPlainText(s: string)
    requires forall j :: 0 <= j < |s| ==> !IsMarkupChar(s[j]) && s[j] != '&'
    ensures HtmlEscape(s) == s
  {
    if s != [] {
      EscapeKeepsPlainText(s[1..]);
      assert [s[0]] + s[1..] == s;
    }
  }

  predicate StartsWith(t: string, e: string) {
    |e| <= |t| && t[..|e|] == e
  }

  /** `htmlspecialchars_decode` for the five entities `htmlspecialchars` produces. */
  function HtmlUnescape(t: string): string
    decreases |t|
  {
    if t == [] then []
    else if StartsWith(t, "&amp;") then ['&'] + HtmlUnescape(t[5..])
    else if StartsWith(t, "&quot;") then ['"'] + HtmlUnescape(t[6..])
    else if StartsWith(t, "&#039;") then ['\''] + HtmlUnescape(t[6..])
    else if StartsWith(t, "&lt;") then ['<'] + HtmlUnescape(t[4..])
    else if StartsWith(t, "&gt;") then ['>'] + HtmlUnescape(t[4..])
    else [t[0]] + HtmlUnescape(t[1..])
  }

  /** A text whose `i`th character differs from an entity's does not start with it. */
  lemma Mismatch(t: string, e: string, i: nat)
    requires i < |e| && i < |t| && t[i] != e[i]
    ensures !StartsWith(t, e)
  {
    if |e| <= |t| {
      assert t[..|e|][i] == t[i];
    }
  }

  lemma UnescapeChar(c: char, rest: string)
    ensures HtmlUnescape(EscapeChar(c) + rest) == [c] + HtmlUnescape(rest)
  {
    var e := EscapeChar(c);
    var t := e + rest;
    assert t[..|e|] == e && t[|e|..] == rest;
    assert t[0] == e[0];
    if c == '&' {
      assert StartsWith(t, "&amp;");
    } else if c == '"' {
      assert t[1] == 'q';
      Mismatch(t, "&amp;", 1);
      assert StartsWith(t, "&quot;");
    } else if c == '\'' {
      assert t[1] == '#';
      Mismatch(t, "&amp;", 1);
      Mismatch(t, "&quot;", 1);
      assert StartsWith(t, "&#039;");
    } else if c == '<' {
      assert t[1] == 'l';
      Mismatch(t, "&amp;", 1);
      Mismatch(t, "&quot;", 1);
      Mismatch(t, "&#039;", 1);
      assert StartsWith(t, "&lt;");
    } else if c == '>' {
      assert t[1] == 'g';
      Mismatch(t, "&amp;", 1);
      Mismatch(t, "&quot;", 1);
      Mismatch(t, "&#039;", 1);
      Mismatch(t, "&lt;", 1);
      assert StartsWith(t, "&gt;");
    } else {
      assert t[0] == c && c != '&';
      Mismatch(t, "&amp;", 0);
      Mismatch(t, "&quot;", 0);
      Mismatch(t, "&#039;", 0);
      Mismatch(t, "&lt;", 0);
      Mismatch(t, "&gt;", 0);
    }
  }

  /** Decoding the escaped text gives the original text back. */
  lemma {:induction false} EscapeRoundTrip(s: string)
    ensures HtmlUnescape(HtmlEscape(s)) == s
  {
    if s != [] {
      UnescapeChar(s[0], HtmlEscape(s[1..]));
      EscapeRoundTrip(s[1..]);
      assert [s[0]] + s[1..] == s;
    }
  }
}
