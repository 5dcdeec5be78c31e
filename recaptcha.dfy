/** A client for Google's reCAPTCHA "siteverify" call: the decisions taken
    around one verification round trip.

    What lies outside the decision logic is a parameter:
    - `validIP` stands for `net.ParseIP(s) != nil` (Go accepts IPv4 and IPv6
      literals and never the empty string);
    - `post` stands for `client.PostForm` followed by decoding the JSON body:
      given the client, the URL and the form, it answers with a transport
      error, a decode error or the decoded response. */
module Recaptcha {
  import opened Wrappers
  import opened Strings
  import opened Net

  /** The REST endpoint of the verification call. */
  const RecaptchaUrl := "https://www.google.com/recaptcha/api/siteverify"

  /** The form field in which the widget posts the user's response token. */
  const ResponseField := "g-recaptcha-response"

  /** The proxy header consulted by the IP heuristic, under the canonical
      spelling that `Header.Get("X-FORWARDED-FOR")` looks up. */
  const ForwardedForHeader := "X-Forwarded-For"

  /** Identity of a caller-supplied `*http.Client`. */
  type ClientHandle = nat

  /** Sent to the reCAPTCHA service. `httpClient` is `None` for a nil pointer. */
  datatype Challenge = Challenge(
    secret: string,
    formValue: string,
    remoteIP: string,
    httpClient: Option<ClientHandle>)

  /** Returned from the reCAPTCHA service (the decoded JSON body). */
  datatype Response = Response(
    success: bool,
    challengeTs: string,
    hostname: string,
    errors: seq<string>)

  /** The parts of an inbound `*http.Request` the client reads: the headers
      (keyed by canonical name), the peer address and the parsed form. */
  datatype Request = Request(
    header: map<string, seq<string>>,
    remoteAddr: string,
    form: map<string, seq<string>>)

  /** The transport used for the call. */
  datatype Client = DefaultClient | CustomClient(handle: ClientHandle)

  /** `url.Values`: every key maps to a list of values. */
  type Form = map<string, seq<string>>

  /** One outbound form POST. */
  datatype Post = Post(client: Client, url: string, form: Form)

  /** What the POST and the JSON decoding of its body come to. */
  datatype Exchange =
    | TransportErr(message: string)
    | DecodeErr(message: string)
    | Decoded(response: Response)

  /** The errors `Verify` can return. */
  datatype Error =
    | NilChallenge
    | EmptySecret
    | EmptyFormValue
    | TransportFailure(message: string)
    | DecodeFailure(message: string)
    | Rejected(code: string)
  {
    /** The text of the Go error value. */
    function Message(): string {
      match this
      case NilChallenge => "The challenge object argument must be specified."
      case EmptySecret => "Your site's challenge secret must be non-empty."
      case EmptyFormValue => "The ReCaptcha response form value must be non-empty."
      case TransportFailure(m) => m
      case DecodeFailure(m) => m
      case Rejected(code) => code
    }

    predicate IsValidation() {
      NilChallenge? || EmptySecret? || EmptyFormValue?
    }
  }

  /** The `(*Response, error)` pair returned to the caller. */
  datatype Reply = Reply(response: Option<Response>, err: Option<Error>)

  /** How a call ends: with a reply, or with a run-time panic. */
  datatype Outcome = Returned(reply: Reply) | Panicked

  /** `Header.Get` and `Request.FormValue`: the first value stored under
      `key`, or the empty string when there is none. */
  function FirstValue(values: map<string, seq<string>>, key: string): (v: string)
    ensures v != "" ==> key in values && |values[key]| > 0 && v == values[key][0]
    ensures key in values && |values[key]| > 0 ==> v == values[key][0]
    ensures !(key in values && |values[key]| > 0) ==> v == ""
  {
    if key in values && |values[key]| > 0 then values[key][0] else ""
  }

  // ---------------------------------------------------------------------
  // Client-IP extraction
  // ---------------------------------------------------------------------

  /** `getClientIPAddress`: with a forwarding header, the text of the peer
      address before its first colon; otherwise the host of the peer
      address; in both cases only if it is an IP literal. The result is
      always a piece of the peer address, whatever the header says. */
  function ClientIPAddress(r: Request, validIP: string -> bool): (ip: string)
    ensures ip == "" || validIP(ip)
    ensures OccursIn(ip, r.remoteAddr)
  {
    var ipProxy := FirstValue(r.header, ForwardedForHeader);
    var candidate :=
      if |ipProxy| > 0 then
        var prefix := Split(r.remoteAddr, ':')[0];
        assert FirstField(r.remoteAddr, ':') == prefix;
        assert prefix <= r.remoteAddr[0..];
        prefix
      else if r.remoteAddr != "" then HostOf(r.remoteAddr)
      else "";
    if validIP(candidate) then
      candidate
    else
      assert "" <= r.remoteAddr[0..];
      ""
  }

  /** With a non-empty forwarding header the candidate is the part of the
      peer address before its first colon (all of it when it has none),
      whatever the header says. */
  lemma ForwardedUsesPeerPrefix(r: Request, validIP: string -> bool, k: nat)
    requires FirstValue(r.header, ForwardedForHeader) != ""
    requires k <= |r.remoteAddr| && ':' !in r.remoteAddr[..k]
    requires k == |r.remoteAddr| || r.remoteAddr[k] == ':'
    ensures ClientIPAddress(r, validIP) == if validIP(r.remoteAddr[..k]) then r.remoteAddr[..k] else ""
  {
    var s := r.remoteAddr;
    var prefix := FirstField(s, ':');
    assert prefix == s[..k];
  }

  /** Without a forwarding header the candidate is the host that
      `net.SplitHostPort` finds; an address it rejects, and an empty
      address, give no IP at all. */
  lemma NoForwardingUsesSplitHost(r: Request, validIP: string -> bool)
    requires FirstValue(r.header, ForwardedForHeader) == ""
    ensures r.remoteAddr == "" ==> ClientIPAddress(r, validIP) == ""
    ensures SplitHostPort(r.remoteAddr).Failure? ==> ClientIPAddress(r, validIP) == ""
    ensures SplitHostPort(r.remoteAddr).Success? ==>
      var host := SplitHostPort(r.remoteAddr).value.host;
      ClientIPAddress(r, validIP) == if validIP(host) then host else ""
  {
  }

  /** For a plain `host:port` peer address (no brackets, one colon) the two
      branches agree: the forwarding header makes no difference. */
  lemma HeaderIrrelevantForPlainAddress(r1: Request, r2: Request, validIP: string -> bool, host: string, port: string)
    requires r1.remoteAddr == r2.remoteAddr == host + ":" + port
    requires ':' !in host && '[' !in host && ']' !in host
    requires ':' !in port && '[' !in port && ']' !in port
    ensures ClientIPAddress(r1, validIP) == ClientIPAddress(r2, validIP)
    ensures ClientIPAddress(r1, validIP) == if validIP(host) then host else ""
  {
    var s := host + ":" + port;
    SplitJoinHostPort(host, port);
    assert JoinHostPort(host, port) == s;
    assert s[..|host|] == host;
    assert HostOf(s) == host;
    ForwardedResult(r1, validIP, host);
    ForwardedResult(r2, validIP, host);
  }

  /** Without a forwarding header a bracketed `[host]:port` peer address
      yields the host inside the brackets. */
  lemma DirectBracketedAddress(r: Request, validIP: string -> bool, host: string, port: string)
    requires FirstValue(r.header, ForwardedForHeader) == ""
    requires r.remoteAddr == "[" + host + "]:" + port
    requires '[' !in host && ']' !in host
    requires ':' !in port && '[' !in port && ']' !in port
    ensures ClientIPAddress(r, validIP) == if validIP(host) then host else ""
  {
    SplitBracketed(host, port);
  }

  /** Helper: both branches yield `host` as the candidate for `host:port`. */
  lemma ForwardedResult(r: Request, validIP: string -> bool, host: string)
    requires |r.remoteAddr| > |host| && r.remoteAddr[..|host|] == host && ':' !in host
    requires r.remoteAddr[|host|] == ':'
    requires HostOf(r.remoteAddr) == host
    ensures ClientIPAddress(r, validIP) == if validIP(host) then host else ""
  {
    if FirstValue(r.header, ForwardedForHeader) != "" {
      ForwardedUsesPeerPrefix(r, validIP, |host|);
    }
  }

  /** For a bracketed peer address the forwarding branch's candidate keeps
      the opening bracket, so it is never an IP literal of either form,
      while the other branch strips the brackets. */
  lemma ForwardedKeepsBracket(r: Request, validIP: string -> bool)
    requires FirstValue(r.header, ForwardedForHeader) != ""
    requires |r.remoteAddr| > 0 && r.remoteAddr[0] == '['
    ensures ClientIPAddress(r, validIP) == "" || ClientIPAddress(r, validIP)[0] == '['
  {
  }

  // ---------------------------------------------------------------------
  // Verification
  // ---------------------------------------------------------------------

  /** The three guarded returns at the top of `Verify`, in their order. */
  function Validate(c: Option<Challenge>): (r: Result<Challenge, Error>)
    ensures r.Success? <==> c.Some? && c.value.secret != "" && c.value.formValue != ""
    ensures r.Success? ==> r.value == c.value
    ensures r.Failure? ==> r.error.IsValidation()
  {
    if c.None? then Failure(NilChallenge)
    else if c.value.secret == "" then Failure(EmptySecret)
    else if c.value.formValue == "" then Failure(EmptyFormValue)
    else Success(c.value)
  }

  /** The caller's client when one is given, a fresh default one otherwise. */
  function SelectClient(c: Challenge): (client: Client)
    ensures client.CustomClient? <==> c.httpClient.Some?
    ensures client.CustomClient? ==> client.handle == c.httpClient.value
  {
    match c.httpClient
    case Some(h) => CustomClient(h)
    case None => DefaultClient
  }

  /** The outbound form: exactly the keys `secret`, `response` and
      `remoteip`, each holding the challenge's field as its only value. No
      field is rewritten or dropped, so an empty or `"none"` IP is sent as
      it stands. */
  function FormOf(c: Challenge): (f: Form)
    ensures f.Keys == {"secret", "response", "remoteip"}
    ensures f["secret"] == [c.secret] && f["response"] == [c.formValue] && f["remoteip"] == [c.remoteIP]
  {
    map["secret" := [c.secret], "response" := [c.formValue], "remoteip" := [c.remoteIP]]
  }

  /** The one POST that `Verify` issues for a challenge that passed
      validation: to the fixed endpoint, through the caller's client when
      there is one, carrying the challenge's three fields verbatim. */
  function Outbound(c: Challenge): (p: Post)
    ensures p.url == "https://www.google.com/recaptcha/api/siteverify"
    ensures p.client.CustomClient? <==> c.httpClient.Some?
    ensures p.client.CustomClient? ==> p.client.handle == c.httpClient.value
    ensures p.form.Keys == {"secret", "response", "remoteip"}
    ensures p.form["secret"] == [c.secret]
    ensures p.form["response"] == [c.formValue]
    ensures p.form["remoteip"] == [c.remoteIP]
  {
    Post(SelectClient(c), RecaptchaUrl, FormOf(c))
  }

  /** What `Verify` makes of the exchange: transport and decode failures
      give no response; a decoded response is always returned, and it comes
      with an error only when it reports failure and carries at least one
      error code, the first of which becomes the error's message. */
  function Interpret(x: Exchange): (reply: Reply)
    ensures x.TransportErr? ==> reply == Reply(None, Some(TransportFailure(x.message)))
    ensures x.DecodeErr? ==> reply == Reply(None, Some(DecodeFailure(x.message)))
    ensures x.Decoded? ==> reply.response == Some(x.response)
    ensures x.Decoded? ==> (reply.err.Some? <==> !x.response.success && |x.response.errors| > 0)
    ensures x.Decoded? && reply.err.Some? ==> reply.err.value.Message() == x.response.errors[0]
  {
    match x
    case TransportErr(m) => Reply(None, Some(TransportFailure(m)))
    case DecodeErr(m) => Reply(None, Some(DecodeFailure(m)))
    case Decoded(rr) =>
      if !rr.success && |rr.errors| > 0 then Reply(Some(rr), Some(Rejected(rr.errors[0])))
      else Reply(Some(rr), None)
  }

  /** `Verify`, with a transport error returned as `(nil, err)`.
      The caller always receives a response or an error; both together
      only for a rejection carrying the first error code. */
  function Verify(c: Option<Challenge>, post: Post -> Exchange): (reply: Reply)
    ensures reply.response.None? ==> reply.err.Some?
    ensures reply.err.None? ==>
      reply.response.Some? && (reply.response.value.success || reply.response.value.errors == [])
    ensures reply.response.Some? && reply.err.Some? ==>
      && !reply.response.value.success
      && |reply.response.value.errors| > 0
      && reply.err.value == Rejected(reply.response.value.errors[0])
  {
    match Validate(c)
    case Failure(e) => Reply(None, Some(e))
    case Success(ch) => Interpret(post(Outbound(ch)))
  }

  /** A challenge that fails validation is answered without any POST: the
      transport makes no difference, no response is returned, and the error
      names the first failing check (nil challenge, then empty secret, then
      empty response token). */
  lemma ValidationShortCircuits(c: Option<Challenge>, post1: Post -> Exchange, post2: Post -> Exchange)
    requires c.None? || c.value.secret == "" || c.value.formValue == ""
    ensures Verify(c, post1) == Verify(c, post2)
    ensures Verify(c, post1).response.None?
    ensures c.None? ==> Verify(c, post1).err == Some(NilChallenge)
    ensures c.Some? && c.value.secret == "" ==> Verify(c, post1).err == Some(EmptySecret)
    ensures c.Some? && c.value.secret != "" && c.value.formValue == "" ==> Verify(c, post1).err == Some(EmptyFormValue)
  {
  }

  /** A valid challenge leads to exactly one POST, to the fixed endpoint,
      through the caller's client if one is given, carrying the challenge's
      fields verbatim; the reply depends on the transport only through its
      answer to that POST. */
  lemma ValidChallengePostsOnce(ch: Challenge, post1: Post -> Exchange, post2: Post -> Exchange)
    requires ch.secret != "" && ch.formValue != ""
    requires post1(Outbound(ch)) == post2(Outbound(ch))
    ensures Verify(Some(ch), post1) == Verify(Some(ch), post2)
    ensures Verify(Some(ch), post1) == Interpret(post1(Post(SelectClient(ch), RecaptchaUrl, FormOf(ch))))
  {
  }

  /** The asymmetric failure rule: a failed verification is an error only
      when the service gave a reason. */
  lemma FailureEscalatesOnlyWithCode(ch: Challenge, post: Post -> Exchange, rr: Response)
    requires ch.secret != "" && ch.formValue != ""
    requires post(Outbound(ch)) == Decoded(rr) && !rr.success
    ensures Verify(Some(ch), post).response == Some(rr)
    ensures rr.errors == [] ==> Verify(Some(ch), post).err.None?
    ensures rr.errors != [] ==> Verify(Some(ch), post).err == Some(Rejected(rr.errors[0]))
  {
  }

  // ---------------------------------------------------------------------
  // The code as written: the deferred close runs before the error check
  // ---------------------------------------------------------------------

  /** The exchange as the source handles it: `defer httpResp.Body.Close()`
      is evaluated before `err` is checked, and `PostForm` returns a nil
      response with its error, so a transport error is a nil dereference. */
  function InterpretAsWritten(x: Exchange): (o: Outcome)
    ensures o.Panicked? <==> x.TransportErr?
    ensures o.Returned? ==> o.reply == Interpret(x)
  {
    match x
    case TransportErr(_) => Panicked
    case DecodeErr(m) => Returned(Reply(None, Some(DecodeFailure(m))))
    case Decoded(rr) =>
      if !rr.success && |rr.errors| > 0 then Returned(Reply(Some(rr), Some(Rejected(rr.errors[0]))))
      else Returned(Reply(Some(rr), None))
  }

  /** `Verify` exactly as the source writes it. */
  function VerifyAsWritten(c: Option<Challenge>, post: Post -> Exchange): (o: Outcome)
    ensures o.Returned? ==> o.reply == Verify(c, post)
  {
    match Validate(c)
    case Failure(e) => Returned(Reply(None, Some(e)))
    case Success(ch) => InterpretAsWritten(post(Outbound(ch)))
  }

  /** A transport error on a valid challenge panics in the code as written,
      where the intended behaviour returns `(nil, err)`; on every other
      input the two agree. */
  lemma TransportErrorPanicsAsWritten(c: Option<Challenge>, post: Post -> Exchange)
    ensures VerifyAsWritten(c, post).Panicked? <==>
      Validate(c).Success? && post(Outbound(Validate(c).value)).TransportErr?
    ensures VerifyAsWritten(c, post).Panicked? ==>
      Verify(c, post) == Reply(None, Some(TransportFailure(post(Outbound(Validate(c).value)).message)))
    ensures !VerifyAsWritten(c, post).Panicked? ==> VerifyAsWritten(c, post) == Returned(Verify(c, post))
  {
  }

  // ---------------------------------------------------------------------
  // Verification from an inbound request
  // ---------------------------------------------------------------------

  /** The challenge `VerifyRequest` builds: the given secret, the posted
      token, the resolved client IP and no custom client. */
  function RequestChallenge(r: Request, secret: string, validIP: string -> bool): (c: Challenge)
    ensures c.httpClient.None? && c.secret == secret
    ensures c.formValue == FirstValue(r.form, ResponseField)
    ensures c.remoteIP == ClientIPAddress(r, validIP)
    ensures c.remoteIP == "" || validIP(c.remoteIP)
  {
    Challenge(secret, FirstValue(r.form, ResponseField), ClientIPAddress(r, validIP), None)
  }

  /** `VerifyRequest`: verify the token posted in the request's
      `g-recaptcha-response` field with the request's client IP. */
  function VerifyRequest(r: Request, secret: string, validIP: string -> bool, post: Post -> Exchange): (reply: Reply)
    ensures reply.err != Some(NilChallenge)
    ensures secret != "" && FirstValue(r.form, ResponseField) != "" ==>
      reply ==
        Interpret(post(Post(DefaultClient, RecaptchaUrl, map[
          "secret" := [secret],
          "response" := [r.form[ResponseField][0]],
          "remoteip" := [ClientIPAddress(r, validIP)]])))
  {
    Verify(Some(RequestChallenge(r, secret, validIP)), post)
  }

  /** `VerifyRequest` exactly as the source writes it: it calls the `Verify`
      of the code as written, so it inherits the panic on a transport error. */
  function VerifyRequestAsWritten(r: Request, secret: string, validIP: string -> bool, post: Post -> Exchange): (o: Outcome)
    ensures o.Returned? ==> o.reply == VerifyRequest(r, secret, validIP, post)
  {
    VerifyAsWritten(Some(RequestChallenge(r, secret, validIP)), post)
  }

  /** `VerifyRequest` checks the secret, then the posted token, before any
      POST; as written, it panics exactly when the POST that follows fails
      in transport. */
  lemma VerifyRequestDelegates(r: Request, secret: string, validIP: string -> bool, post: Post -> Exchange)
    ensures secret == "" ==> VerifyRequest(r, secret, validIP, post) == Reply(None, Some(EmptySecret))
    ensures secret != "" && FirstValue(r.form, ResponseField) == "" ==>
      VerifyRequest(r, secret, validIP, post) == Reply(None, Some(EmptyFormValue))
    ensures VerifyRequestAsWritten(r, secret, validIP, post).Panicked? <==>
      && secret != "" && FirstValue(r.form, ResponseField) != ""
      && post(Outbound(RequestChallenge(r, secret, validIP))).TransportErr?
  {
  }
}
