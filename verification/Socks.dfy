// The worker's SOCKS5 listener (RFC 1928 sections 3, 4 and 6, RFC 1929
// section 2), and the encodings that its decoders invert.
module Socks {
  import opened Wrappers
  import opened Wire
  import opened Strings
  import opened Tags
  import HostPort

  const VERSION: byte := 0x05
  const AUTH_VERSION: byte := 0x01
  const AUTH_PASSWORD: byte := 0x02
  const AUTH_NO_ACCEPT: byte := 0xFF
  const CMD_CONNECT: byte := 0x01
  const CMD_UDP: byte := 0x03
  const ATYP_IPV4: byte := 0x01
  const ATYP_DOMAIN: byte := 0x03
  const ATYP_IPV6: byte := 0x04
  const REP_SUCCESS: byte := 0x00
  const REP_CMD_NOT_SUPPORTED: byte := 0x07
  const REP_ATYP_NOT_SUPPORTED: byte := 0x08

  datatype Error = ShortRead | BadVersion | NoPasswordAuth | BadAuthVersion | Rejected | BadCommand | BadAddressType

  /** What a decoder makes of an incoming stream: its result, what it leaves
      unread, and what it sends back. */
  datatype Run<+T> = Run(result: Result<T, Error>, rest: Bytes, reply: Bytes)

  datatype Request = Request(host: Address, port: nat, cmd: byte)

  type Verifier = (string, string) -> bool

  // ---- what the decoders compute ---------------------------------------

  function RawAuth(s: Bytes): Run<(Bytes, Bytes)>
  {
    if |s| < 2 then Run(Err(ShortRead), [], [])
    else if s[0] != AUTH_VERSION then Run(Err(BadAuthVersion), s[2..], [])
    else
      var n: nat := s[1];
      if |s| < 2 + n then Run(Err(ShortRead), [], [])
      else
        var t := s[2 + n..];
        if |t| < 1 || |t| - 1 < t[0] then Run(Err(ShortRead), [], [])
        else Run(Ok((s[2..2 + n], t[1..1 + t[0]])), t[1 + t[0]..], [])
  }

  function Auth(s: Bytes, verify: Verifier): Run<(string, Tag)>
  {
    var raw := RawAuth(s);
    if raw.result.Err? then Run(Err(raw.result.error), raw.rest, [])
    else
      var (user, password) := raw.result.value;
      var tokens := Split(Text(password), '-');
      if verify(Text(user), tokens[0])
      then Run(Ok((Text(user), ScanTag(tokens))), raw.rest, [0x01, 0x00])
      else Run(Err(Rejected), raw.rest, [0x01, 0x01])
  }

  function Methods(s: Bytes): Run<Bytes>
  {
    if |s| < 2 then Run(Err(ShortRead), [], [])
    else if s[0] != VERSION then Run(Err(BadVersion), s[2..], [])
    else if |s| - 2 < s[1] then Run(Err(ShortRead), [], [])
    else Run(Ok(s[2..2 + s[1]]), s[2 + s[1]..], [])
  }

  function Handshake(s: Bytes, verify: Verifier): Run<(string, Tag)>
  {
    var offer := Methods(s);
    if offer.result.Err? then Run(Err(offer.result.error), offer.rest, [])
    else if AUTH_PASSWORD !in offer.result.value then Run(Err(NoPasswordAuth), offer.rest, [VERSION, AUTH_NO_ACCEPT])
    else
      var auth := Auth(offer.rest, verify);
      auth.(reply := [VERSION, AUTH_PASSWORD] + auth.reply)
  }

  function Reply(rep: byte): Bytes
  {
    [VERSION, rep, 0x00, ATYP_IPV4, 0, 0, 0, 0, 0, 0]
  }

  function Host(atyp: byte, s: Bytes): Run<Address>
  {
    if atyp == ATYP_IPV4 then
      if |s| < 4 then Run(Err(ShortRead), [], []) else Run(Ok(V4(s[..4])), s[4..], [])
    else if atyp == ATYP_DOMAIN then
      if |s| < 1 || |s| - 1 < s[0] then Run(Err(ShortRead), [], [])
      else Run(Ok(Domain(s[1..1 + s[0]])), s[1 + s[0]..], [])
    else if atyp == ATYP_IPV6 then
      if |s| < 16 then Run(Err(ShortRead), [], []) else Run(Ok(V6(s[..16])), s[16..], [])
    else Run(Err(BadAddressType), s, Reply(REP_ATYP_NOT_SUPPORTED))
  }

  function ReadRequest(s: Bytes): Run<Request>
  {
    if |s| < 4 then Run(Err(ShortRead), [], [])
    else if s[0] != VERSION then Run(Err(BadVersion), s[4..], [])
    else if s[1] != CMD_CONNECT && s[1] != CMD_UDP then Run(Err(BadCommand), s[4..], Reply(REP_CMD_NOT_SUPPORTED))
    else
      var host := Host(s[3], s[4..]);
      if host.result.Err? then Run(Err(host.result.error), host.rest, host.reply)
      else if |host.rest| < 2 then Run(Err(ShortRead), [], [])
      else Run(Ok(Request(host.result.value, FromBe16(host.rest[0], host.rest[1]), s[1])), host.rest[2..], [])
  }

  // ---- the decoders ----------------------------------------------------

  /** The two length-prefixed fields of handlePasswordAuth. */
  method ReadCredentials(conn: Conn) returns (r: Result<(Bytes, Bytes), Error>)
    modifies conn`chunks
    ensures r == RawAuth(old(conn.Stream())).result && conn.Stream() == RawAuth(old(conn.Stream())).rest
  {
    ghost var s := conn.Stream();
    var header, ok := conn.ReadFull(2);
    if !ok {
      return Err(ShortRead);
    }
    if header[0] != 0x01 {
      return Err(BadAuthVersion);
    }
    var username;
    username, ok := conn.ReadFull(header[1]);
    if !ok {
      return Err(ShortRead);
    }
    assert s[2..][..header[1]] == s[2..2 + header[1]] && s[2..][header[1]..] == s[2 + header[1]..];
    var passLen;
    passLen, ok := conn.ReadFull(1);
    if !ok {
      return Err(ShortRead);
    }
    ghost var t := s[2 + header[1]..];
    var password;
    password, ok := conn.ReadFull(passLen[0]);
    if !ok {
      return Err(ShortRead);
    }
    assert t[1..][..t[0]] == t[1..1 + t[0]] && t[1..][t[0]..] == t[1 + t[0]..];
    r := Ok((username, password));
  }

  /** handlePasswordAuth. */
  method HandlePasswordAuth(conn: Conn, verify: Verifier) returns (r: Result<(string, Tag), Error>)
    modifies conn
    ensures r == Auth(old(conn.Stream()), verify).result
    ensures conn.Stream() == Auth(old(conn.Stream()), verify).rest
    ensures conn.written == old(conn.written) + Auth(old(conn.Stream()), verify).reply
  {
    var read := ReadCredentials(conn);
    if read.Err? {
      return Err(read.error);
    }
    var (username, password) := read.value;
    var tokens := Split(Text(password), '-');
    var tag := ScanSocks(tokens);
    if !verify(Text(username), tokens[0]) {
      conn.Write([0x01, 0x01]);
      return Err(Rejected);
    }
    conn.Write([0x01, 0x00]);
    r := Ok((Text(username), tag));
  }

  /** The loop over the offered methods. */
  method OffersPassword(methods: Bytes) returns (hasPasswordAuth: bool)
    ensures hasPasswordAuth <==> AUTH_PASSWORD in methods
  {
    hasPasswordAuth := false;
    for i := 0 to |methods|
      invariant !hasPasswordAuth && AUTH_PASSWORD !in methods[..i]
    {
      if methods[i] == AUTH_PASSWORD {
        hasPasswordAuth := true;
        break;
      }
    }
    assert hasPasswordAuth || methods[..|methods|] == methods;
  }

  /** The greeting read by handleHandshake. */
  method ReadMethods(conn: Conn) returns (r: Result<Bytes, Error>)
    modifies conn`chunks
    ensures r == Methods(old(conn.Stream())).result && conn.Stream() == Methods(old(conn.Stream())).rest
  {
    ghost var s := conn.Stream();
    var header, ok := conn.ReadFull(2);
    if !ok {
      return Err(ShortRead);
    }
    if header[0] != VERSION {
      return Err(BadVersion);
    }
    var methods;
    methods, ok := conn.ReadFull(header[1]);
    if !ok {
      return Err(ShortRead);
    }
    assert s[2..][..header[1]] == s[2..2 + header[1]] && s[2..][header[1]..] == s[2 + header[1]..];
    r := Ok(methods);
  }

  /** handleHandshake. */
  method HandleHandshake(conn: Conn, verify: Verifier) returns (r: Result<(string, Tag), Error>)
    modifies conn
    ensures r == Handshake(old(conn.Stream()), verify).result
    ensures conn.Stream() == Handshake(old(conn.Stream()), verify).rest
    ensures conn.written == old(conn.written) + Handshake(old(conn.Stream()), verify).reply
  {
    var methods := ReadMethods(conn);
    if methods.Err? {
      return Err(methods.error);
    }
    var hasPasswordAuth := OffersPassword(methods.value);
    if !hasPasswordAuth {
      conn.Write([VERSION, AUTH_NO_ACCEPT]);
      return Err(NoPasswordAuth);
    }
    conn.Write([VERSION, AUTH_PASSWORD]);
    r := HandlePasswordAuth(conn, verify);
  }

  // net.IP.String on four or sixteen bytes.
  type IpText = Address -> string

  /** Dotted quads hold neither colons nor brackets, sixteen bytes print with
      colons unless they are a mapped address, which prints as a dotted quad. */
  ghost predicate ProperText(ipText: IpText)
  {
    && (forall o: Bytes :: |o| == 4 ==> HostPort.Plain(ipText(V4(o))))
    && (forall o: Bytes :: Mapped(V6(o)) ==> ipText(V6(o)) == ipText(V4(o[12..])))
    && (forall o: Bytes :: |o| == 16 && !Mapped(V6(o)) ==> ':' in ipText(V6(o)) && '[' !in ipText(V6(o)))
  }

  function HostText(host: Address, ipText: IpText): string
  {
    if host.Domain? then Text(host.name) else ipText(host)
  }

  /** The address that handleRequest and the UDP relay pass on: no brackets are
      put around an IPv6 host. */
  function AddressText(host: Address, port: nat, ipText: IpText): string
  {
    HostPort.Joined(HostText(host, ipText), port)
  }

  /** Hosts whose address text reads back. */
  predicate Dialable(host: Address)
  {
    if host.Domain? then HostPort.Plain(Text(host.name)) else host.V4? || Mapped(host)
  }

  /** The dialling code finds the requested host and port in the address exactly
      for IPv4 and mapped addresses and for domains without colon and bracket. */
  lemma AddressReadsBack(host: Address, port: nat, ipText: IpText)
    requires WellFormed(host) && ProperText(ipText) && port < 65536
    ensures HostPort.Target(AddressText(host, port, ipText)) == (HostText(host, ipText), port) <==> Dialable(host)
    ensures host.V6? && !Mapped(host) ==>
      HostPort.SplitHostPort(AddressText(host, port, ipText)) == None && HostPort.Target(AddressText(host, port, ipText)) == ("", 0)
  {
    HostPort.TargetOfJoined(HostText(host, ipText), port);
    HostPort.JoinSplits(HostText(host, ipText), port);
    if Mapped(host) {
      assert V6(host.octets) == host;
    }
  }

  /** handleRequest. */
  method HandleRequest(conn: Conn, ipText: IpText) returns (r: Result<(string, byte), Error>)
    modifies conn
    ensures var decoded := ReadRequest(old(conn.Stream())).result;
            r == if decoded.Err? then Err(decoded.error)
                 else Ok((AddressText(decoded.value.host, decoded.value.port, ipText), decoded.value.cmd))
    ensures conn.Stream() == ReadRequest(old(conn.Stream())).rest
    ensures conn.written == old(conn.written) + ReadRequest(old(conn.Stream())).reply
  {
    ghost var s := conn.Stream();
    var header, ok := conn.ReadFull(4);
    if !ok {
      return Err(ShortRead);
    }
    if header[0] != VERSION {
      return Err(BadVersion);
    }
    var cmd := header[1];
    if cmd != CMD_CONNECT && cmd != CMD_UDP {
      conn.Write(Reply(REP_CMD_NOT_SUPPORTED));
      return Err(BadCommand);
    }
    var found := ReadHost(conn, header[3]);
    if found.Err? {
      return Err(found.error);
    }
    var portBytes;
    portBytes, ok := conn.ReadFull(2);
    if !ok {
      return Err(ShortRead);
    }
    var host := if found.value.Domain? then Text(found.value.name) else ipText(found.value);
    var address := host + ":" + Itoa(FromBe16(portBytes[0], portBytes[1]));
    r := Ok((address, cmd));
  }

  /** The address switch of handleRequest. */
  method ReadHost(conn: Conn, atyp: byte) returns (r: Result<Address, Error>)
    modifies conn
    ensures r == Host(atyp, old(conn.Stream())).result
    ensures conn.Stream() == Host(atyp, old(conn.Stream())).rest
    ensures conn.written == old(conn.written) + Host(atyp, old(conn.Stream())).reply
  {
    ghost var s := conn.Stream();
    if atyp == ATYP_IPV4 {
      var addr, ok := conn.ReadFull(4);
      r := if ok then Ok(V4(addr)) else Err(ShortRead);
    } else if atyp == ATYP_DOMAIN {
      var len, ok := conn.ReadFull(1);
      if !ok {
        return Err(ShortRead);
      }
      var domain;
      domain, ok := conn.ReadFull(len[0]);
      if !ok {
        return Err(ShortRead);
      }
      assert s[1..][..s[0]] == s[1..1 + s[0]] && s[1..][s[0]..] == s[1 + s[0]..];
      r := Ok(Domain(domain));
    } else if atyp == ATYP_IPV6 {
      var addr, ok := conn.ReadFull(16);
      r := if ok then Ok(V6(addr)) else Err(ShortRead);
    } else {
      conn.Write(Reply(REP_ATYP_NOT_SUPPORTED));
      r := Err(BadAddressType);
    }
  }

  // ---- the encodings of the two RFCs -----------------------------------

  /** RFC 1928 section 3: version, number of methods, methods. */
  function Greeting(methods: Bytes): Bytes
  {
    [VERSION, |methods| % 256] + methods
  }

  /** RFC 1929 section 2, with the length bytes cut to eight bits as Go does. */
  function EncodeAuth(username: Bytes, password: Bytes): Bytes
  {
    [AUTH_VERSION, |username| % 256] + username + [|password| % 256] + password
  }

  /** RFC 1928 section 5. */
  function EncodeAddress(a: Address): Bytes
  {
    match a
    case V4(o) => [ATYP_IPV4] + o
    case V6(o) => [ATYP_IPV6] + o
    case Domain(name) => [ATYP_DOMAIN, |name| % 256] + name
  }

  /** RFC 1928 section 4. */
  function EncodeRequest(cmd: byte, reserved: byte, a: Address, port: int): Bytes
  {
    [VERSION, cmd, reserved] + EncodeAddress(a) + Be16(port)
  }

  predicate Sendable(r: Request) {
    && (r.cmd == CMD_CONNECT || r.cmd == CMD_UDP)
    && WellFormed(r.host) && (r.host.Domain? ==> |r.host.name| <= 255)
    && r.port < 65536
  }

  /** The server reads back the username and the raw password, and exactly the
      bytes of the message, if and only if both fit a length byte. */
  lemma AuthRoundTrip(username: Bytes, password: Bytes, rest: Bytes)
    ensures RawAuth(EncodeAuth(username, password) + rest) == Run(Ok((username, password)), rest, [])
       <==> |username| <= 255 && |password| <= 255
  {
    var s := EncodeAuth(username, password) + rest;
    var n := |username| % 256;
    assert s[1] == n;
    if |username| <= 255 {
      assert s[2..2 + n] == username;
      var t := s[2 + n..];
      assert t == [|password| % 256] + password + rest;
      if |password| <= 255 {
        assert t[1..1 + t[0]] == password && t[1 + t[0]..] == rest;
      }
    }
  }

  /** Whatever RawAuth accepts is the encoding of what it returns. */
  lemma AuthSound(s: Bytes)
    requires RawAuth(s).result.Ok?
    ensures var (u, p) := RawAuth(s).result.value;
            |u| <= 255 && |p| <= 255 && s == EncodeAuth(u, p) + RawAuth(s).rest
  {
    var n: nat := s[1];
    var m: nat := s[2 + n..][0];
    Slices(s, n, m);
    Recut(s, n, m);
  }

  lemma Slices(s: Bytes, n: nat, m: nat)
    requires 3 + n + m <= |s|
    ensures s[2 + n..][1..1 + m] == s[3 + n..3 + n + m] && s[2 + n..][1 + m..] == s[3 + n + m..]
  {}

  lemma Recut(s: Bytes, n: nat, m: nat)
    requires 3 + n + m <= |s| && s[0] == AUTH_VERSION && s[1] == n && s[2 + n] == m
    ensures s == [AUTH_VERSION, n] + s[2..2 + n] + [m] + s[3 + n..3 + n + m] + s[3 + n + m..]
  {}

  /** RFC conformance of the handshake, both ways: it succeeds on exactly the
      streams that start with a greeting offering the password method and a
      username/password message the verifier accepts, and it consumes exactly
      those two messages. */
  lemma HandshakeAccepts(s: Bytes, verify: Verifier, user: string, tag: Tag, rest: Bytes)
    ensures Handshake(s, verify) == Run(Ok((user, tag)), rest, [VERSION, AUTH_PASSWORD, 0x01, 0x00])
       <==> exists methods: Bytes, u: Bytes, p: Bytes :: Logs(s, verify, user, tag, rest, methods, u, p)
  {
    if Handshake(s, verify) == Run(Ok((user, tag)), rest, [VERSION, AUTH_PASSWORD, 0x01, 0x00]) {
      HandshakeSound(s, verify, user, tag, rest);
    }
    if methods: Bytes, u: Bytes, p: Bytes :| Logs(s, verify, user, tag, rest, methods, u, p) {
      HandshakeComplete(s, verify, user, tag, rest, methods, u, p);
    }
  }

  lemma HandshakeSound(s: Bytes, verify: Verifier, user: string, tag: Tag, rest: Bytes)
    requires Handshake(s, verify).result == Ok((user, tag)) && Handshake(s, verify).rest == rest
    ensures exists methods: Bytes, u: Bytes, p: Bytes :: Logs(s, verify, user, tag, rest, methods, u, p)
  {
    var n: nat := s[1];
    var methods, t := s[2..2 + n], s[2 + n..];
    var raw := RawAuth(t);
    AuthSound(t);
    var (u, p) := raw.result.value;
    Rejoin(s, n);
    assert Logs(s, verify, user, tag, rest, methods, u, p);
  }

  lemma Rejoin(s: Bytes, n: nat)
    requires 2 + n <= |s| && s[0] == VERSION && s[1] == n
    ensures s == Greeting(s[2..2 + n]) + s[2 + n..]
  {}

  ghost predicate Logs(s: Bytes, verify: Verifier, user: string, tag: Tag, rest: Bytes, methods: Bytes, u: Bytes, p: Bytes)
  {
    && |methods| <= 255 && |u| <= 255 && |p| <= 255
    && s == Greeting(methods) + (EncodeAuth(u, p) + rest)
    && AUTH_PASSWORD in methods
    && user == Text(u) && tag == ScanTag(Split(Text(p), '-'))
    && verify(user, Split(Text(p), '-')[0])
  }

  lemma HandshakeComplete(s: Bytes, verify: Verifier, user: string, tag: Tag, rest: Bytes, methods: Bytes, u: Bytes, p: Bytes)
    requires Logs(s, verify, user, tag, rest, methods, u, p)
    ensures Handshake(s, verify) == Run(Ok((user, tag)), rest, [VERSION, AUTH_PASSWORD, 0x01, 0x00])
  {
    var n: nat := s[1];
    assert s[2..2 + n] == methods;
    assert s[2 + n..] == EncodeAuth(u, p) + rest;
    AuthRoundTrip(u, p, rest);
  }

  lemma HostComplete(a: Address, rest: Bytes)
    requires WellFormed(a) && (a.Domain? ==> |a.name| <= 255)
    ensures EncodeAddress(a) != []
    ensures Host(EncodeAddress(a)[0], EncodeAddress(a)[1..] + rest) == Run(Ok(a), rest, [])
  {
    var s := EncodeAddress(a)[1..] + rest;
    match a
    case V4(o) =>
      assert s == o + rest;
      assert s[..4] == o && s[4..] == rest;
    case V6(o) =>
      assert s == o + rest;
      assert s[..16] == o && s[16..] == rest;
    case Domain(name) =>
      assert s == [|name|] + name + rest;
      assert s[1..1 + |name|] == name && s[1 + |name|..] == rest;
  }

  lemma HostSound(atyp: byte, s: Bytes)
    requires Host(atyp, s).result.Ok?
    ensures var a := Host(atyp, s).result.value;
            WellFormed(a) && (a.Domain? ==> |a.name| <= 255) && [atyp] + s == EncodeAddress(a) + Host(atyp, s).rest
  {
    var n: nat := if atyp == ATYP_IPV4 then 4 else if atyp == ATYP_IPV6 then 16 else s[0] as nat + 1;
    assert s == s[..n] + s[n..];
    if atyp == ATYP_DOMAIN {
      assert s[..n] == [s[0]] + s[1..n];
    }
  }

  /** RFC conformance of the request decoder, both ways, up to the reserved
      byte that it does not look at. */
  lemma RequestAccepts(s: Bytes, request: Request, rest: Bytes)
    ensures ReadRequest(s) == Run(Ok(request), rest, [])
       <==> Sendable(request)
            && exists reserved: byte :: s == EncodeRequest(request.cmd, reserved, request.host, request.port) + rest
  {
    if ReadRequest(s) == Run(Ok(request), rest, []) {
      RequestSound(s, request, rest);
    }
    if Sendable(request) {
      if reserved: byte :| s == EncodeRequest(request.cmd, reserved, request.host, request.port) + rest {
        RequestComplete(request, reserved, rest);
      }
    }
  }

  lemma RequestSound(s: Bytes, request: Request, rest: Bytes)
    requires ReadRequest(s) == Run(Ok(request), rest, [])
    ensures Sendable(request)
    ensures exists reserved: byte :: s == EncodeRequest(request.cmd, reserved, request.host, request.port) + rest
  {
    var host := Host(s[3], s[4..]);
    HostSound(s[3], s[4..]);
    var t := host.rest;
    assert t == Be16(request.port) + rest;
    JoinRequest(s, EncodeAddress(request.host), Be16(request.port), rest);
    assert s == EncodeRequest(request.cmd, s[2], request.host, request.port) + rest;
  }

  lemma JoinRequest(s: Bytes, a: Bytes, port: Bytes, rest: Bytes)
    requires |s| >= 4 && [s[3]] + s[4..] == a + (port + rest)
    ensures s == [s[0], s[1], s[2]] + a + port + rest
  {
    assert s == [s[0], s[1], s[2]] + ([s[3]] + s[4..]);
  }

  lemma RequestComplete(request: Request, reserved: byte, rest: Bytes)
    requires Sendable(request)
    ensures ReadRequest(EncodeRequest(request.cmd, reserved, request.host, request.port) + rest) == Run(Ok(request), rest, [])
  {
    var a := EncodeAddress(request.host);
    var port := Be16(request.port);
    HostComplete(request.host, port + rest);
    CutRequest(request.cmd, reserved, a, port, rest);
    assert (port + rest)[2..] == rest;
  }

  lemma CutRequest(cmd: byte, reserved: byte, a: Bytes, port: Bytes, rest: Bytes)
    requires a != [] && |port| == 2
    ensures var s := [VERSION, cmd, reserved] + a + port + rest;
            s[3] == a[0] && s[4..] == a[1..] + (port + rest)
  {}
}
