/** Worked cases of the client's behaviour, with dotted-decimal IPv4
    recognition standing in for `net.ParseIP`. */
module Scenarios {
  import opened Wrappers
  import opened Strings
  import opened Net
  import opened Recaptcha

  /** Four octets joined by dots form an IPv4 literal. */
  lemma DottedQuad(a: string, b: string, c: string, d: string)
    requires IsOctet(a) && IsOctet(b) && IsOctet(c) && IsOctet(d)
    ensures IsIPv4(Join([a, b, c, d], '.'))
  {
    OctetHasNoDot(a);
    OctetHasNoDot(b);
    OctetHasNoDot(c);
    OctetHasNoDot(d);
    SplitJoin([a, b, c, d], '.');
  }

  lemma OctetHasNoDot(f: string)
    requires IsOctet(f)
    ensures '.' !in f
  {
  }

  /** A seven-character dotted quad of single digits is an IPv4 literal.
      The scenarios below name their literals through slices of the request
      so that the verifier does not evaluate the recursive definitions on
      them. */
  lemma SingleDigitQuad(s: string)
    requires |s| == 7 && s[1] == s[3] == s[5] == '.'
    requires IsDigit(s[0]) && IsDigit(s[2]) && IsDigit(s[4]) && IsDigit(s[6])
    ensures IsIPv4(s)
  {
    var t := s[2..];
    var u := t[2..];
    var v := u[2..];
    SplitAtFirst(s, '.', 1);
    SplitAtFirst(t, '.', 1);
    SplitAtFirst(u, '.', 1);
    assert Split(v, '.') == [v];
    assert Split(s, '.') == [s[..1], t[..1], u[..1], v];
    DigitOctet(s[..1]);
    DigitOctet(t[..1]);
    DigitOctet(u[..1]);
    DigitOctet(v);
  }

  lemma DigitOctet(f: string)
    requires |f| == 1 && IsDigit(f[0])
    ensures IsOctet(f)
  {
  }

  /** Behind a proxy the peer's host is used, not the forwarded value. */
  lemma ForwardedPeerHostScenario(r: Request)
    requires r.header == map[ForwardedForHeader := ["1.2.3.4"]] && r.remoteAddr == "5.6.7.8:9999"
    ensures ClientIPAddress(r, IsIPv4) == "5.6.7.8"
  {
    PlainLiteral(r.remoteAddr, 7);
    SingleDigitQuad(r.remoteAddr[..7]);
    ForwardedUsesPeerPrefix(r, IsIPv4, 7);
  }

  /** Without a proxy header the host of `host:port` is used. */
  lemma DirectPeerHostScenario(r: Request)
    requires r.header == map[] && r.remoteAddr == "9.8.7.6:1111"
    ensures ClientIPAddress(r, IsIPv4) == "9.8.7.6"
  {
    PlainLiteral(r.remoteAddr, 7);
    SingleDigitQuad(r.remoteAddr[..7]);
    HeaderIrrelevantForPlainAddress(r, r, IsIPv4, r.remoteAddr[..7], r.remoteAddr[8..]);
  }

  /** A host that is not an IP literal is dropped. */
  lemma NotAnIPScenario(r: Request)
    requires r.header == map[] && r.remoteAddr == "not-an-ip:port"
    ensures ClientIPAddress(r, IsIPv4) == ""
  {
    PlainLiteral(r.remoteAddr, 9);
    NotDottedQuad(r.remoteAddr[..9]);
    HeaderIrrelevantForPlainAddress(r, r, IsIPv4, r.remoteAddr[..9], r.remoteAddr[10..]);
  }

  /** The pieces of the plain `host:port` peer addresses used above. */
  lemma PlainLiteral(s: string, i: nat)
    requires (s == "5.6.7.8:9999" && i == 7) || (s == "9.8.7.6:1111" && i == 7) || (s == "not-an-ip:port" && i == 9)
    ensures i < |s| && s == s[..i] + ":" + s[i + 1..]
    ensures ':' !in s[..i] && '[' !in s[..i] && ']' !in s[..i]
    ensures ':' !in s[i + 1..] && '[' !in s[i + 1..] && ']' !in s[i + 1..]
    ensures s == "not-an-ip:port" ==> !IsDigit(s[0])
    ensures s == "5.6.7.8:9999" ==> s[..i] == "5.6.7.8"
    ensures s == "9.8.7.6:1111" ==> s[..i] == "9.8.7.6"
    ensures s != "not-an-ip:port" ==>
      s[1] == s[3] == s[5] == '.' && IsDigit(s[0]) && IsDigit(s[2]) && IsDigit(s[4]) && IsDigit(s[6])
  {
  }

  /** A string that does not start with a digit is not an IPv4 literal. */
  lemma NotDottedQuad(s: string)
    requires s != [] && !IsDigit(s[0])
    ensures !IsIPv4(s)
  {
    var first := FirstField(s, '.');
    if |first| > 0 {
      assert first[0] == s[0];
    }
  }

  /** A bracketed peer address behind a proxy: the candidate keeps the
      bracket, so no IP is found. */
  lemma BracketedForwardedScenario(r: Request)
    requires r.header == map[ForwardedForHeader := ["1.2.3.4"]] && r.remoteAddr == "[1.2.3.4]:80"
    ensures ClientIPAddress(r, IsIPv4) == ""
  {
    ForwardedKeepsBracket(r, IsIPv4);
    var ip := ClientIPAddress(r, IsIPv4);
    if ip != "" {
      IPv4Rejects(ip);
    }
  }

  /** The same address without a proxy header: the brackets are stripped
      and the IP is found. */
  lemma BracketedDirectScenario(r: Request)
    requires r.header == map[] && r.remoteAddr == "[1.2.3.4]:80"
    ensures ClientIPAddress(r, IsIPv4) == "1.2.3.4"
  {
    BracketedLiteral(r.remoteAddr);
    DirectBracketedAddress(r, IsIPv4, r.remoteAddr[1..8], r.remoteAddr[10..]);
  }

  /** The pieces of the bracketed peer address used above. */
  lemma BracketedLiteral(s: string)
    requires s == "[1.2.3.4]:80"
    ensures s == "[" + s[1..8] + "]:" + s[10..]
    ensures s[1..8] == "1.2.3.4" && IsIPv4(s[1..8])
    ensures '[' !in s[1..8] && ']' !in s[1..8]
    ensures ':' !in s[10..] && '[' !in s[10..] && ']' !in s[10..]
  {
    SingleDigitQuad(s[1..8]);
  }

  /** A decoded success is handed back unchanged, with no error. */
  lemma SuccessEchoScenario(ch: Challenge, post: Post -> Exchange)
    requires ch.secret != "" && ch.formValue != ""
    requires post(Outbound(ch)) == Decoded(Response(true, "T", "H", []))
    ensures Verify(Some(ch), post) == Reply(Some(Response(true, "T", "H", [])), None)
  {
  }

  /** A failure carrying an error code is returned with that code as the
      error's message. */
  lemma RejectionScenario(ch: Challenge, post: Post -> Exchange)
    requires ch.secret != "" && ch.formValue != ""
    requires post(Outbound(ch)) == Decoded(Response(false, "", "", ["missing-input-secret"]))
    ensures Verify(Some(ch), post).response == Some(Response(false, "", "", ["missing-input-secret"]))
    ensures Verify(Some(ch), post).err.Some?
    ensures Verify(Some(ch), post).err.value.Message() == "missing-input-secret"
  {
  }

  /** A failure without error codes is returned with no error at all. */
  lemma SilentFailureScenario(ch: Challenge, post: Post -> Exchange)
    requires ch.secret != "" && ch.formValue != ""
    requires post(Outbound(ch)) == Decoded(Response(false, "", "", []))
    ensures Verify(Some(ch), post) == Reply(Some(Response(false, "", "", [])), None)
  {
  }

  /** The `"none"` IP is posted as it stands; nothing omits it. */
  lemma NoneIPIsSentScenario(ch: Challenge)
    requires ch.remoteIP == "none"
    ensures "remoteip" in Outbound(ch).form
    ensures Outbound(ch).form["remoteip"] == ["none"]
  {
  }
}
