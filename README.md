# reCAPTCHA verification client — Dafny model

This project models the Go package `recaptcha`, a client for Google's
reCAPTCHA "siteverify" call. A site hands the package the user's response
token and its own secret; the package posts them, together with the user's
IP address, to `https://www.google.com/recaptcha/api/siteverify` and reports
whether the challenge was solved.

The model covers all of `recaptcha.go`:

- **Client-IP extraction** (`getClientIPAddress`): with an
  `X-FORWARDED-FOR` header, the text of the peer address before its first
  colon; otherwise the host that `net.SplitHostPort` finds in the peer
  address; in both cases only if it parses as an IP literal, else `""`.
- **`Verify`**: the three ordered validation checks, the choice between the
  caller's `*http.Client` and a fresh default client, the three-field form,
  and the rule applied to the decoded answer (a failed verification is an
  error only when the service sent an error code, and then the error's
  message is the first code).
- **`VerifyRequest`**: builds a `Challenge` from the request's
  `g-recaptcha-response` form value and the extracted IP, then calls
  `Verify`.

Everything is a pure function over datatypes, as in the source, which has
no loops and keeps no state between calls. The outside world enters as two
parameters:

- `validIP: string -> bool` stands for `net.ParseIP(s) != nil`. `Net.IsIPv4` (dotted-decimal IPv4 as Go parsed it
  before release 1.17, leading zeros allowed) is one concrete instance. It is
  used in the worked scenarios of `scenarios.dfy`.
- `post: Post -> Exchange` stands for `client.PostForm` followed by JSON
  decoding of the body. It receives the client, the URL and the form. It
  answers with `TransportErr`, `DecodeErr` or `Decoded(response)`. "No
  network call happens" is stated as "the reply is the same for every
  `post`".

Files:

- `wrappers.dfy`: `Option` and `Result`.
- `strings.dfy`: Go's `strings.Split` with a one-character separator, its
  inverse `strings.Join`, and byte searches from either end.
- `net.dfy`: Go's `net.SplitHostPort` and its inverse `net.JoinHostPort`,
  plus the IPv4 recogniser.
- `recaptcha.dfy`: the package itself.
- `scenarios.dfy`: concrete worked cases.

Where the documentation and the code disagree, the model follows the code:

- The comment on `RemoteIP` (recaptcha.go:27-29) says the IP is filled in
  from the request when left blank. It also says the value `"none"` omits
  the IP. Neither is implemented. `Verify` posts `remoteip` exactly as given,
  including `""` and `"none"` (`Recaptcha.FormOf`,
  `Scenarios.NoneIPIsSentScenario`). Only `VerifyRequest` fills the IP in,
  and it does so unconditionally.
- Lines 95-97 of recaptcha.go return `(nil, err)` on a transport error, but
  line 94 has already dereferenced the nil response, so the code panics
  first (see Findings). `Recaptcha.Verify` models the intended error return
  and `Recaptcha.VerifyAsWritten` models the panic. `Recaptcha.VerifyRequest`
  is built on the corrected `Verify`, so it returns `(nil, err)` where the
  source's `VerifyRequest` (recaptcha.go:68) panics;
  `Recaptcha.VerifyRequestAsWritten` models that panic.

## Model

| member | source | states |
|---|---|---|
| `Strings.Split` | recaptcha.go:50 | `strings.Split` with one separator: there is at least one field and no field contains the separator |
| `Strings.FirstField` | recaptcha.go:50 | `Split(s, ":")[0]` is the longest colon-free prefix of `s`: a prefix, colon-free, and followed by a colon or the end of `s` |
| `Strings.JoinSplit` | recaptcha.go:50 | joining the fields of `Split` with the separator rebuilds the original string |
| `Strings.SplitJoin` | recaptcha.go:50 | splitting a join of separator-free fields gives those fields back |
| `Net.SplitHostPort` | recaptcha.go:52 | on success the address is `host:port` with a colon-free host, or `[host]:port`; host and port have no brackets and the port has no colon; an address without a colon is rejected |
| `Net.HostOf` | recaptcha.go:52 | the host kept from `net.SplitHostPort` is the split's host when it succeeds and `""` whenever it fails; it occurs in the address and has no brackets |
| `Net.SplitJoinHostPort` | recaptcha.go:52 | `SplitHostPort(JoinHostPort(h, p)) == (h, p)` for every bracket-free host and every bracket-free, colon-free port |
| `Net.SplitBracketed` | recaptcha.go:52 | `[host]:port` splits into the host without its brackets and the port |
| `Net.SplitPlain` | recaptcha.go:52 | `host:port` with a colon-free, bracket-free host splits into that host and the port |
| `Net.IPv4Rejects` | recaptcha.go:55 | the IPv4 recogniser rejects `""` and every string holding a colon or an opening bracket (unlike `net.ParseIP`, which accepts colon-holding IPv6 literals) |
| `Scenarios.DottedQuad` | recaptcha.go:55 | four octets joined with dots (`strings.Join`) are accepted as an IPv4 literal |
| `Scenarios.NotDottedQuad` | recaptcha.go:55 | a string not starting with a digit is not an IPv4 literal |
| `Recaptcha.FirstValue` | recaptcha.go:48 | `Header.Get` / `Request.FormValue`: the first value stored under the key when there is one, `""` otherwise |
| `Recaptcha.ClientIPAddress` | recaptcha.go:46-59 | the result is `""` or a valid IP, and it is always taken from the peer address, whatever the header says |
| `Recaptcha.ForwardedUsesPeerPrefix` | recaptcha.go:48-50 | with a non-empty forwarding header, the result is the peer address's colon-free prefix if that is a valid IP, else `""`, whatever the header's value |
| `Recaptcha.NoForwardingUsesSplitHost` | recaptcha.go:51-57 | without the header, the result is the `SplitHostPort` host if valid, and `""` when the split fails or the peer address is empty |
| `Recaptcha.HeaderIrrelevantForPlainAddress` | recaptcha.go:48-53 | for a plain `host:port` peer address, both branches give the same result: the host if valid |
| `Recaptcha.DirectBracketedAddress` | recaptcha.go:51-57 | without the header, a `[host]:port` peer address yields the host inside the brackets if valid |
| `Recaptcha.ForwardedKeepsBracket` | recaptcha.go:48-50 | with the header, a bracketed peer address gives `""` or a string still starting with `[` |
| `Recaptcha.Validate` | recaptcha.go:73-79 | validation passes exactly when the challenge is non-nil with a non-empty secret and token, and then passes the challenge on unchanged; every failure is a validation error |
| `Recaptcha.SelectClient` | recaptcha.go:80-88 | the custom client is used exactly when `HttpClient` is non-nil; otherwise the default client is used |
| `Recaptcha.FormOf` | recaptcha.go:89-93 | the form has exactly the keys `secret`, `response` and `remoteip`, each holding the challenge field verbatim as its only value (so `""` and `"none"` are sent) |
| `Recaptcha.Outbound` | recaptcha.go:80-93 | the POST goes to `https://www.google.com/recaptcha/api/siteverify`, through the caller's client exactly when one is given, with exactly the keys `secret`, `response` and `remoteip` holding the challenge's fields verbatim |
| `Recaptcha.Interpret` | recaptcha.go:95-107 | a transport or decode error gives `(nil, err)`; a decoded response is always returned; an error accompanies it exactly when `Success` is false and the code list is non-empty, and its message is the first code |
| `Recaptcha.Verify` | recaptcha.go:72-108 | the caller always gets a response or an error; a response with no error either succeeded or failed with no codes; a response with an error is a rejection carrying its first code |
| `Recaptcha.ValidationShortCircuits` | recaptcha.go:73-79 | an invalid challenge gets the same reply for every transport, has no response, and gets the error of the first failing check (nil, then secret, then token) |
| `Recaptcha.ValidChallengePostsOnce` | recaptcha.go:80-98 | for a valid challenge, the reply depends on the transport only through its answer to the one POST built from the selected client, the endpoint and the form |
| `Recaptcha.FailureEscalatesOnlyWithCode` | recaptcha.go:101-107 | a decoded `Success == false` response is always returned, with no error when it carries no codes and with `Errors[0]` as the error otherwise |
| `Recaptcha.InterpretAsWritten` | recaptcha.go:94-107 | as written, the exchange panics exactly on a transport error and otherwise agrees with `Interpret` |
| `Recaptcha.VerifyAsWritten` | recaptcha.go:72-108 | whenever the code as written returns, it returns what `Verify` returns |
| `Recaptcha.TransportErrorPanicsAsWritten` | recaptcha.go:89-97 | the code as written panics exactly when a valid challenge meets a transport error, where `Verify` returns `(nil, err)`; elsewhere the two agree |
| `Recaptcha.RequestChallenge` | recaptcha.go:63-67 | the challenge built from a request has the given secret, the request's `g-recaptcha-response` value as its token, the extracted client IP (so `""` or valid), and no custom client |
| `Recaptcha.VerifyRequest` | recaptcha.go:62-69 | `VerifyRequest` never reports a nil challenge; with a secret and a posted token it issues one POST through the default client carrying the secret, the token and the extracted IP, and returns what `Verify` makes of the answer |
| `Recaptcha.VerifyRequestDelegates` | recaptcha.go:62-79 | an empty secret, then a missing token, are reported before any POST; the code as written panics exactly when the POST that follows fails in transport |
| `Recaptcha.VerifyRequestAsWritten` | recaptcha.go:62-69 | whenever `VerifyRequest` as written returns, it returns what the corrected `VerifyRequest` returns |
| `Scenarios.ForwardedPeerHostScenario` | recaptcha.go:49-50 | with `X-FORWARDED-FOR: 1.2.3.4` and peer `5.6.7.8:9999`, the IP is `5.6.7.8` |
| `Scenarios.DirectPeerHostScenario` | recaptcha.go:51-52 | with no header and peer `9.8.7.6:1111`, the IP is `9.8.7.6` |
| `Scenarios.NotAnIPScenario` | recaptcha.go:55-57 | with peer `not-an-ip:port`, the IP is `""` |
| `Scenarios.BracketedForwardedScenario` | recaptcha.go:49-50 | with the header and peer `[1.2.3.4]:80`, the IP is `""` |
| `Scenarios.BracketedDirectScenario` | recaptcha.go:51-52 | without the header and with peer `[1.2.3.4]:80`, the IP is `1.2.3.4` |
| `Scenarios.SuccessEchoScenario` | recaptcha.go:101-107 | a decoded success with timestamp `T` and hostname `H` is returned unchanged with no error |
| `Scenarios.RejectionScenario` | recaptcha.go:101-105 | a failure carrying `missing-input-secret` returns the failed response and an error with that message |
| `Scenarios.SilentFailureScenario` | recaptcha.go:101-107 | a failure with no codes returns the failed response and no error |
| `Scenarios.NoneIPIsSentScenario` | recaptcha.go:89-93 | a `"none"` IP is posted as `remoteip=none` |

## Left out

- The HTTP POST, the JSON decoding of the body and `Body.Close` are network I/O and library code. They are the `post` parameter. Closing the body on every exit path is not modelled.
- `net.ParseIP` is the `validIP` parameter. IPv6 literals are not recognised by the concrete `Net.IsIPv4` instance.
- `Net.SplitHostPort`: the zone check that some Go releases make (an unbracketed host containing `%` is rejected) is not modelled. `net.ParseIP` rejects such hosts anyway.
- `Recaptcha.FirstValue`: header names are looked up under their canonical spelling (`X-Forwarded-For`), and the header map is assumed to be keyed that way. `textproto.CanonicalMIMEHeaderKey` itself is not modelled.
- `Recaptcha.RequestChallenge`: the request's form is taken as already parsed. `Request.FormValue` parses the URL query and the body, and that parsing is not modelled.
- `Recaptcha.FormOf`: the form is modelled as the `url.Values` map. Its percent-encoded wire form (`url.Values.Encode`) is not modelled.
- `Recaptcha.Interpret`: the error's message is the first code verbatim. `fmt.Errorf` treats that code as a format string, so `%` verbs in it would be rewritten; the service's codes contain none.
- `Recaptcha.InterpretAsWritten`: a transport error always comes with a nil response. Go's client also returns a non-nil response with an error when a redirect check fails, and then the code does not panic.
- The `rr != nil` test at recaptcha.go:103 is always true and is not a separate branch.
- The HTTP status code is never examined by the source, so the exchange has none.
- Go strings are byte strings. They are modelled as `seq<char>`.
- Timeouts, concurrency and the default client's configuration are outside the decision logic.
- recaptcha_test.go, examples/simple.go, examples/appengine.go and examples/appengine/appengine.go are HTTP-serving and file-loading glue. They are not part of this model.

## Findings

| source | as written | input that shows it | evidently intended | confidence | as-written member | corrected member |
|---|---|---|---|---|---|---|
| recaptcha.go:89-97 | `defer httpResp.Body.Close()` is evaluated before `err` is checked, so a failed `PostForm` dereferences its nil response and panics | any challenge with a non-empty secret and token whose POST fails to connect (`PostForm` returns `nil, err`) | return `(nil, err)` as lines 95-97 do | high; not executed | `Recaptcha.VerifyAsWritten` (shown by `Recaptcha.TransportErrorPanicsAsWritten`) | `Recaptcha.Verify` |
