/**
  The web-hook notifier: a PUT of a small JSON document naming the
  process status, over a client that skips certificate checks for https.
  URL parsing and the HTTP exchange are outside the model: `parsed` is
  the scheme `url.Parse` finds, or its error, and `send` is what the
  client gets back for a request.
 */
module Notifier {
  import opened Wrappers
  import Utils

  /** The statuses the supervisor reports. */
  datatype PsStatus = Starting | Running | Crashed

  function StatusName(s: PsStatus): string
  {
    match s
    case Starting => "starting"
    case Running => "running"
    case Crashed => "crashed"
  }

  /** The request body. */
  function Payload(s: PsStatus): string
  {
    "{\"ps\": { \"status\": \"" + StatusName(s) + "\" } }"
  }

  const PayloadHead := "{\"ps\": { \"status\": \""
  const PayloadTail := "\" } }"

  /** The status can be read back from the body between its fixed head and
      tail, so different statuses give different bodies. */
  lemma PayloadReadsBack(s: PsStatus, t: PsStatus)
    ensures |PayloadHead| == 20 && |PayloadTail| == 5
    ensures |Payload(s)| == 25 + |StatusName(s)|
    ensures Payload(s)[..20] == PayloadHead && Payload(s)[20 + |StatusName(s)|..] == PayloadTail
    ensures Payload(s)[20..20 + |StatusName(s)|] == StatusName(s)
    ensures Payload(s) == Payload(t) ==> s == t
  {
    var p, q := Payload(s), Payload(t);
    assert p == PayloadHead + StatusName(s) + PayloadTail;
    assert q == PayloadHead + StatusName(t) + PayloadTail;
    assert p[..20] == PayloadHead;
    assert p[20 + |StatusName(s)|..] == PayloadTail;
    assert p[20..20 + |StatusName(s)|] == StatusName(s);
    assert p[20] == StatusName(s)[0] && q[20] == StatusName(t)[0];
  }

  /** The HTTP client used: the default one, or one whose TLS
      configuration skips certificate verification. */
  datatype Client = DefaultClient | SkipVerifyClient

  datatype Request = Request(verb: string, url: string, contentType: string, body: string)

  /** The status code and status line of a response. */
  datatype Response = Response(statusCode: int, status: string)

  /** What a notification did: the request it sent, with which client, and
      the error it returned. */
  datatype Notified = Notified(sent: Option<(Client, Request)>, err: Option<string>)

  function HookRequest(webHook: string, s: PsStatus): Request
  {
    Request("PUT", webHook, "application/json", Payload(s))
  }

  /** https gets the client that skips verification; any other scheme the
      default client. */
  function ClientFor(scheme: string): (c: Client)
    ensures c == SkipVerifyClient <==> scheme == "https"
  {
    if scheme == "https" then SkipVerifyClient else DefaultClient
  }

  /** The error for a status code outside 200..299. */
  function StatusError(code: int): string
  {
    "bad status code expected 200 .. 299 got " + Utils.FormatInt(code)
  }

  const StatusErrorHead := "bad status code expected 200 .. 299 got "

  /** The error message ends with the decimal code, which reads back. */
  lemma StatusErrorNamesCode(code: nat)
    ensures HasHead(StatusError(code), StatusErrorHead)
    ensures var digits := StatusError(code)[|StatusErrorHead|..];
      (forall k :: 0 <= k < |digits| ==> '0' <= digits[k] <= '9') && Utils.DecimalValue(digits) == code
  {
    var e := StatusError(code);
    assert e == StatusErrorHead + Utils.Decimal(code);
    assert e[|StatusErrorHead|..] == Utils.Decimal(code);
    Utils.DecimalRoundTrip(code);
  }

  predicate HasHead(s: string, h: string)
  {
    |h| <= |s| && s[..|h|] == h
  }

  /** `notifyHook`, with a malformed hook reported instead of crashing and
      the status code written in decimal. */
  function NotifyHook(webHook: string, s: PsStatus, parsed: Result<string>, send: (Client, Request) -> Result<Response>): (n: Notified)
    ensures parsed.Err? ==> n == Notified(None, Some(parsed.msg))
    ensures parsed.Ok? ==> n.sent == Some((ClientFor(parsed.value), HookRequest(webHook, s)))
    ensures n.err == None <==> (parsed.Ok? && send(ClientFor(parsed.value), HookRequest(webHook, s)).Ok? &&
      200 <= send(ClientFor(parsed.value), HookRequest(webHook, s)).value.statusCode <= 299)
    ensures parsed.Ok? && send(ClientFor(parsed.value), HookRequest(webHook, s)).Err? ==>
      n.err == Some(send(ClientFor(parsed.value), HookRequest(webHook, s)).msg)
  {
    if parsed.Err? then Notified(None, Some(parsed.msg))
    else
      var client := ClientFor(parsed.value);
      var req := HookRequest(webHook, s);
      var resp := send(client, req);
      if resp.Err? then Notified(Some((client, req)), Some(resp.msg))
      else if resp.value.statusCode < 200 || resp.value.statusCode > 299 then
        Notified(Some((client, req)), Some(StatusError(resp.value.statusCode)))
      else Notified(Some((client, req)), None)
  }

  /** A malformed hook sends nothing and is reported with the parse error,
      whatever the network would have answered. */
  lemma MalformedHookReported(webHook: string, s: PsStatus, e: string,
                              send1: (Client, Request) -> Result<Response>, send2: (Client, Request) -> Result<Response>)
    ensures NotifyHook(webHook, s, Err(e), send1) == NotifyHook(webHook, s, Err(e), send2) == Notified(None, Some(e))
  {
  }

  // ---------------------------------------------------------------------
  // The code as written.

  /** `http.NewRequest` parses the URL with the same parser as the later
      `url.Parse`, so the request is missing exactly when the parse fails,
      and setting its header then dereferences nil. */
  datatype Outcome = Panicked | Returned(n: Notified)

  /** The status error as written: `%d` applied to the status line, which
      fmt prints as a bad-verb marker around the string. */
  function StatusErrorAsWritten(status: string): string
  {
    "bad status code expected 200 .. 299 got %!d(string=" + status + ")"
  }

  function NotifyHookAsWritten(webHook: string, s: PsStatus, parsed: Result<string>, send: (Client, Request) -> Result<Response>): (o: Outcome)
    ensures o.Panicked? <==> parsed.Err?
  {
    if parsed.Err? then Panicked
    else
      var client := ClientFor(parsed.value);
      var req := HookRequest(webHook, s);
      var resp := send(client, req);
      if resp.Err? then Returned(Notified(Some((client, req)), Some(resp.msg)))
      else if resp.value.statusCode < 200 || resp.value.statusCode > 299 then
        Returned(Notified(Some((client, req)), Some(StatusErrorAsWritten(resp.value.status))))
      else Returned(Notified(Some((client, req)), None))
  }

  /** As written, a malformed hook never reaches the parse-error return:
      the notifier crashes instead. */
  lemma MalformedHookPanics(webHook: string, s: PsStatus, e: string, send: (Client, Request) -> Result<Response>)
    ensures NotifyHookAsWritten(webHook, s, Err(e), send) == Panicked
    ensures NotifyHook(webHook, s, Err(e), send).err == Some(e)
  {
  }

  /** As written, a bad status is reported without its number: where the
      corrected message has the decimal code, this one has a bad-verb
      marker. */
  lemma StatusErrorGarbled(status: string)
    ensures HasHead(StatusErrorAsWritten(status), StatusErrorHead)
    ensures StatusErrorAsWritten(status)[|StatusErrorHead|..][..2] == "%!"
  {
    var m := StatusErrorAsWritten(status);
    assert m == StatusErrorHead + "%!d(string=" + status + ")";
    assert m[..|StatusErrorHead|] == StatusErrorHead;
    assert m[|StatusErrorHead|..] == "%!d(string=" + status + ")";
  }

  /** On a well-formed hook the code as written sends the same request and
      succeeds or fails exactly as the corrected one; only the text of a
      bad-status error differs. */
  lemma AsWrittenAgrees(webHook: string, s: PsStatus, scheme: string, send: (Client, Request) -> Result<Response>)
    ensures var o := NotifyHookAsWritten(webHook, s, Ok(scheme), send);
      var n := NotifyHook(webHook, s, Ok(scheme), send);
      o.Returned? && o.n.sent == n.sent && (o.n.err == None <==> n.err == None)
  {
  }
}
