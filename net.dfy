/** The behaviour of Go's `net` package that the client relies on:
    `SplitHostPort` (with `JoinHostPort`, its inverse) and, as one concrete
    instance of IP-literal recognition, the dotted-decimal IPv4 form. */
module Net {
  import opened Wrappers
  import opened Strings

  /** The ways `net.SplitHostPort` rejects an address. */
  datatype AddrError =
    | MissingPort
    | TooManyColons
    | MissingCloseBracket
    | UnexpectedOpenBracket
    | UnexpectedCloseBracket

  datatype HostPort = HostPort(host: string, port: string)

  /** `net.SplitHostPort`: the port follows the last colon; a host holding
      colons must be enclosed in brackets, which are removed. */
  function SplitHostPort(hostport: string): (r: Result<HostPort, AddrError>)
    ensures r.Success? ==> ':' !in r.value.port && '[' !in r.value.port && ']' !in r.value.port
    ensures r.Success? ==> '[' !in r.value.host && ']' !in r.value.host
    ensures r.Success? ==>
      || (':' !in r.value.host && hostport == r.value.host + ":" + r.value.port)
      || hostport == "[" + r.value.host + "]:" + r.value.port
    ensures ':' !in hostport ==> r == Failure(MissingPort)
  {
    var i := LastIndexOf(hostport, ':');
    if i < 0 then Failure(MissingPort)
    else if hostport[0] == '[' then
      var end := IndexOf(hostport, ']');
      if end < 0 then Failure(MissingCloseBracket)
      else if end + 1 == |hostport| then Failure(MissingPort)
      else if end + 1 != i then
        if hostport[end + 1] == ':' then Failure(TooManyColons) else Failure(MissingPort)
      else if '[' in hostport[1..] then Failure(UnexpectedOpenBracket)
      else if ']' in hostport[end + 1..] then Failure(UnexpectedCloseBracket)
      else
        var host, port := hostport[1..end], hostport[i + 1..];
        BracketedShape(hostport, end);
        Success(HostPort(host, port))
    else
      var host, port := hostport[..i], hostport[i + 1..];
      if ':' in host then Failure(TooManyColons)
      else if '[' in hostport then Failure(UnexpectedOpenBracket)
      else if ']' in hostport then Failure(UnexpectedCloseBracket)
      else
        AroundSeparator(hostport, i);
        Success(HostPort(host, port))
  }

  /** The layout `[host]:port` read off from the positions of its brackets and colon. */
  lemma BracketedShape(s: string, end: nat)
    requires 0 < end && end + 1 < |s| && s[0] == '[' && s[end] == ']' && s[end + 1] == ':'
    ensures s == "[" + s[1..end] + "]:" + s[end + 2..]
  {
  }

  /** `net.JoinHostPort`: brackets the host when it holds a colon. */
  function JoinHostPort(host: string, port: string): (s: string)
    ensures ':' in s
  {
    if ':' in host then "[" + host + "]:" + port
    else
      assert (host + ":" + port)[|host|] == ':';
      host + ":" + port
  }

  /** The host that `host, _, _ := net.SplitHostPort(a)` leaves behind:
      Go returns an empty host together with any error. */
  function HostOf(hostport: string): (host: string)
    ensures '[' !in host && ']' !in host
    ensures OccursIn(host, hostport)
    ensures SplitHostPort(hostport).Failure? ==> host == ""
    ensures SplitHostPort(hostport).Success? ==> host == SplitHostPort(hostport).value.host
  {
    match SplitHostPort(hostport)
    case Success(hp) =>
      if hostport == hp.host + ":" + hp.port then
        assert hp.host <= hostport[0..];
        hp.host
      else
        assert hp.host <= hostport[1..];
        hp.host
    case Failure(_) =>
      assert "" <= hostport[0..];
      ""
  }

  /** `part` appears as a contiguous piece of `s`. */
  predicate OccursIn(part: string, s: string) {
    exists i | 0 <= i <= |s| :: part <= s[i..]
  }

  /** Splitting a joined host and port gives them back, for any host and
      any port without brackets (and a port without colons). */
  lemma SplitJoinHostPort(host: string, port: string)
    requires '[' !in host && ']' !in host
    requires '[' !in port && ']' !in port && ':' !in port
    ensures SplitHostPort(JoinHostPort(host, port)) == Success(HostPort(host, port))
  {
    if ':' in host {
      SplitBracketed(host, port);
    } else {
      SplitPlain(host, port);
    }
  }

  lemma SplitPlain(host: string, port: string)
    requires '[' !in host && ']' !in host && ':' !in host
    requires '[' !in port && ']' !in port && ':' !in port
    ensures SplitHostPort(host + ":" + port) == Success(HostPort(host, port))
  {
    var s := host + ":" + port;
    LastIndexBeforeFreeSuffix(host, port, ':');
    assert s[..|host|] == host;
    assert s[|host| + 1..] == port;
    assert s[0] != '[' by {
      if host == [] { assert s[0] == ':'; } else { assert s[0] == host[0]; }
    }
    assert '[' !in s && ']' !in s by {
      forall k | 0 <= k < |s| ensures s[k] != '[' && s[k] != ']' {
        if k < |host| { assert s[k] == host[k]; }
        else if k > |host| { assert s[k] == port[k - |host| - 1]; }
      }
    }
  }

  lemma SplitBracketed(host: string, port: string)
    requires '[' !in host && ']' !in host
    requires '[' !in port && ']' !in port && ':' !in port
    ensures SplitHostPort("[" + host + "]:" + port) == Success(HostPort(host, port))
  {
    var s := "[" + host + "]:" + port;
    var n := |host|;
    assert s[1..n + 1] == host && s[n + 3..] == port;
    assert s[..n + 1] == "[" + host;
    assert s[1..] == host + "]:" + port;
    SplitBracketedAt(s, n + 1);
  }

  /** `net.SplitHostPort` on `[host]:port`, read off from positions. */
  lemma SplitBracketedAt(s: string, end: nat)
    requires 0 < end && end + 1 < |s| && s[0] == '[' && s[end] == ']' && s[end + 1] == ':'
    requires ']' !in s[..end] && '[' !in s[1..] && ':' !in s[end + 2..] && ']' !in s[end + 2..]
    ensures SplitHostPort(s) == Success(HostPort(s[1..end], s[end + 2..]))
  {
    LastIndexAt(s, ':', end + 1);
    IndexAt(s, ']', end);
  }

  /** In `p + [c] + q` with `c` not in `q`, the last `c` is the one before `q`. */
  lemma LastIndexBeforeFreeSuffix(p: string, q: string, c: char)
    requires c !in q
    ensures LastIndexOf(p + [c] + q, c) == |p|
  {
    var s := p + [c] + q;
    assert s[|p|] == c;
    assert s[|p| + 1..] == q;
  }

  predicate IsDigit(c: char) { '0' <= c <= '9' }

  /** The value of a string of decimal digits. */
  function DecimalValue(digits: string): nat
    requires forall k | 0 <= k < |digits| :: IsDigit(digits[k])
  {
    if digits == [] then 0
    else
      assert IsDigit(digits[|digits| - 1]);
      10 * DecimalValue(digits[..|digits| - 1]) + (digits[|digits| - 1] as int - '0' as int)
  }

  /** One field of a dotted-decimal address: at least one digit, value at
      most 255 (leading zeros accepted, as Go releases before 1.17 did). */
  predicate IsOctet(field: string) {
    && |field| > 0
    && (forall k | 0 <= k < |field| :: IsDigit(field[k]))
    && DecimalValue(field) <= 255
  }

  /** A dotted-decimal IPv4 literal: exactly four octets separated by dots. */
  predicate IsIPv4(s: string) {
    var fields := Split(s, '.');
    |fields| == 4 && forall k | 0 <= k < 4 :: IsOctet(fields[k])
  }

  /** The recogniser rejects the empty string and every string holding a
      colon or an opening bracket. `net.ParseIP` also rejects `""` and
      bracketed text, but unlike this recogniser it accepts colon-holding
      IPv6 literals such as `::1`. */
  lemma IPv4Rejects(s: string)
    requires s == "" || ':' in s || '[' in s
    ensures !IsIPv4(s)
  {
    if s == "" {
      assert Split(s, '.') == [s];
    } else {
      var c :| c in s && (c == ':' || c == '[');
      var k := FieldHolding(s, '.', c);
    }
  }

  /** Every character of `s` other than the separator lies in some field. */
  lemma {:induction false} FieldHolding(s: string, sep: char, c: char) returns (k: nat)
    requires c in s && c != sep
    ensures k < |Split(s, sep)| && c in Split(s, sep)[k]
    decreases |s|
  {
    var i := IndexOf(s, sep);
    if i < 0 {
      k := 0;
    } else {
      assert s == s[..i] + [sep] + s[i + 1..];
      if c in s[..i] {
        k := 0;
      } else {
        var k' := FieldHolding(s[i + 1..], sep, c);
        k := k' + 1;
      }
    }
  }
}
