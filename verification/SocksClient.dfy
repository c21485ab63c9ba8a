// The worker's SOCKS5 client towards an upstream proxy (connectUpstreamSocks),
// and the conversation it has with the worker's own listener.
module SocksClient {
  import opened Wrappers
  import opened Wire
  import opened Strings
  import opened Tags
  import opened ProviderTag
  import opened Socks
  import HostPort

  datatype Upstream = Upstream(username: string, password: string, provider: string)

  datatype Outcome =
    | Connected
    | WriteFailed
    | ReadFailed
    | AuthNotAccepted
    | AuthFailed
    | LookupFailed
    | NoIPv4
    | ConnectFailed(code: byte)
    | IndexPanic

  /** The outcome of a conversation, what is left unread and what was sent. */
  datatype Talk = Talk(outcome: Outcome, rest: Bytes, sent: Bytes)

  /** Whether, and after how many bytes, each of the three writes fails. */
  datatype Writes = Writes(hello: Option<nat>, auth: Option<nat>, connect: Option<nat>)

  const ALL_WRITTEN := Writes(None, None, None)

  // net.LookupIP.
  type Resolver = string -> Option<seq<Address>>

  ghost predicate Proper(lookup: Resolver)
  {
    forall host :: lookup(host).Some? ==> forall a :: a in lookup(host).value ==> WellFormed(a)
  }

  function FirstV4(ips: seq<Address>): Option<Bytes>
    requires forall a :: a in ips ==> WellFormed(a)
  {
    if ips == [] then None
    else if To4(ips[0]).Some? then To4(ips[0])
    else FirstV4(ips[1..])
  }

  function Drop(s: Bytes, n: nat): Bytes
  {
    if n <= |s| then s[n..] else []
  }

  /** The bound address of a reply is read and thrown away, errors included. */
  function SkipBound(atyp: byte, s: Bytes): Bytes
  {
    if atyp == ATYP_IPV4 then Drop(s, 6)
    else if atyp == ATYP_DOMAIN then (if s == [] then [] else (var n: nat := s[0]; Drop(s[1..], n + 2)))
    else if atyp == ATYP_IPV6 then Drop(s, 18)
    else s
  }

  function Finish(s: Bytes, sent: Bytes): Talk
  {
    if |s| < 4 then Talk(ReadFailed, [], sent)
    else if s[1] != 0x00 then Talk(ConnectFailed(s[1]), s[4..], sent)
    else Talk(Connected, SkipBound(s[3], s[4..]), sent)
  }

  ghost function ConnectStage(s: Bytes, sent: Bytes, address: string, lookup: Resolver, failure: Option<nat>): Talk
    requires Proper(lookup)
  {
    var (host, port) := HostPort.Target(address);
    var ips := lookup(host);
    if ips.None? then Talk(LookupFailed, s, sent)
    else if FirstV4(ips.value).None? then Talk(NoIPv4, s, sent)
    else
      var all := Put(sent, EncodeRequest(CMD_CONNECT, 0x00, V4(FirstV4(ips.value).value), port), failure);
      if failure.Some? then Talk(WriteFailed, s, all) else Finish(s, all)
  }

  ghost function AuthStage(s: Bytes, sent: Bytes, username: Bytes, password: Bytes, address: string, lookup: Resolver,
                           writes: Writes): Talk
    requires Proper(lookup)
  {
    var all := Put(sent, EncodeAuth(username, password), writes.auth);
    if writes.auth.Some? then Talk(WriteFailed, s, all)
    else if |s| < 2 then Talk(ReadFailed, [], all)
    else if s[1] != 0x00 then Talk(AuthFailed, s[2..], all)
    else ConnectStage(s[2..], all, address, lookup, writes.connect)
  }

  ghost function Converse(s: Bytes, sent: Bytes, up: Upstream, tag: Tag, address: string, lookup: Resolver,
                          writes: Writes): Talk
    requires Proper(lookup)
  {
    var hello := Put(sent, Greeting([AUTH_PASSWORD]), writes.hello);
    if writes.hello.Some? then Talk(WriteFailed, s, hello)
    else if |s| < 2 then Talk(ReadFailed, [], hello)
    else if s[1] != 0x02 then Talk(AuthNotAccepted, s[2..], hello)
    else
      var parts := Split(Converted(up.username, up.password, tag, up.provider), ':');
      if |parts| < 2 then Talk(Outcome.IndexPanic, s[2..], hello)
      else AuthStage(s[2..], hello, ToBytes(parts[0]), ToBytes(parts[1]), address, lookup, writes)
  }

  /** connectUpstreamSocks; looking up a host and the failures of the network are
      parameters. */
  method ConnectUpstreamSocks(conn: Conn, up: Upstream, tag: Tag, address: string, lookup: Resolver, writes: Writes)
    returns (r: Outcome)
    requires Proper(lookup)
    modifies conn
    ensures var talk := Converse(old(conn.Stream()), old(conn.written), up, tag, address, lookup, writes);
            r == talk.outcome && conn.Stream() == talk.rest && conn.written == talk.sent
  {
    var ok := conn.TryWrite([VERSION, 0x01, AUTH_PASSWORD], writes.hello);
    assert Greeting([AUTH_PASSWORD]) == [VERSION, 0x01, AUTH_PASSWORD];
    if !ok {
      return WriteFailed;
    }
    var reply;
    reply, ok := conn.ReadFull(2);
    if !ok {
      return ReadFailed;
    }
    if reply[1] != 0x02 {
      return AuthNotAccepted;
    }
    var credentials := ConvertTag(up.username, up.password, tag, up.provider);
    var newTag := Split(credentials, ':');
    if |newTag| < 2 {
      return Outcome.IndexPanic;
    }
    r := Authenticate(conn, ToBytes(newTag[0]), ToBytes(newTag[1]), address, lookup, writes);
  }

  /** The username/password half of the conversation. */
  method Authenticate(conn: Conn, username: Bytes, password: Bytes, address: string, lookup: Resolver, writes: Writes)
    returns (r: Outcome)
    requires Proper(lookup)
    modifies conn
    ensures var talk := AuthStage(old(conn.Stream()), old(conn.written), username, password, address, lookup, writes);
            r == talk.outcome && conn.Stream() == talk.rest && conn.written == talk.sent
  {
    var authReq := [0x01, |username| % 256];
    authReq := authReq + username;
    authReq := authReq + [|password| % 256];
    authReq := authReq + password;
    assert authReq == EncodeAuth(username, password);
    var ok := conn.TryWrite(authReq, writes.auth);
    if !ok {
      return WriteFailed;
    }
    var authResp;
    authResp, ok := conn.ReadFull(2);
    if !ok {
      return ReadFailed;
    }
    if authResp[1] != 0x00 {
      return AuthFailed;
    }
    r := RequestConnect(conn, address, lookup, writes.connect);
  }

  /** The bound address of the reply; what these reads return is not looked at. */
  method DiscardBound(conn: Conn, atyp: byte)
    modifies conn`chunks
    ensures conn.Stream() == SkipBound(atyp, old(conn.Stream()))
  {
    if atyp == 0x01 {
      var _, _ := conn.ReadFull(6);
    } else if atyp == 0x03 {
      var l, got := conn.ReadFull(1);
      var len: nat := if got then l[0] else 0;
      var _, _ := conn.ReadFull(len + 2);
    } else if atyp == 0x04 {
      var _, _ := conn.ReadFull(18);
    }
  }

  /** The CONNECT half of the conversation. */
  method RequestConnect(conn: Conn, address: string, lookup: Resolver, failure: Option<nat>) returns (r: Outcome)
    requires Proper(lookup)
    modifies conn
    ensures var talk := ConnectStage(old(conn.Stream()), old(conn.written), address, lookup, failure);
            r == talk.outcome && conn.Stream() == talk.rest && conn.written == talk.sent
  {
    var (host, port) := HostPort.Target(address);
    var req := [0x05, 0x01, 0x00];
    var ips := lookup(host);
    if ips.None? {
      return LookupFailed;
    }
    var ip4 := PickV4(ips.value);
    if ip4.None? {
      return NoIPv4;
    }
    req := req + [0x01];
    req := req + ip4.value;
    req := req + [port / 256 % 256, port % 256];
    assert req == EncodeRequest(CMD_CONNECT, 0x00, V4(ip4.value), port);
    var ok := conn.TryWrite(req, failure);
    if !ok {
      return WriteFailed;
    }
    var resp;
    resp, ok := conn.ReadFull(4);
    if !ok {
      return ReadFailed;
    }
    if resp[1] != 0x00 {
      return ConnectFailed(resp[1]);
    }
    DiscardBound(conn, resp[3]);
    r := Connected;
  }

  /** The loop that looks for the first IPv4 answer. */
  method PickV4(ips: seq<Address>) returns (ip4: Option<Bytes>)
    requires forall a :: a in ips ==> WellFormed(a)
    ensures ip4 == FirstV4(ips)
    ensures ip4.Some? ==> |ip4.value| == 4 && exists i :: 0 <= i < |ips| && To4(ips[i]) == ip4 && forall j :: 0 <= j < i ==> To4(ips[j]).None?
    ensures ip4.None? ==> forall a :: a in ips ==> To4(a).None?
  {
    for i := 0 to |ips|
      invariant FirstV4(ips) == FirstV4(ips[i..])
      invariant forall j :: 0 <= j < i ==> To4(ips[j]).None?
    {
      var v4 := To4(ips[i]);
      if v4.Some? {
        return v4;
      }
      assert ips[i..][1..] == ips[i + 1..];
    }
    ip4 := None;
  }

  // ---- client against listener -----------------------------------------

  /** Everything the client sends on success. */
  function ClientBytes(username: Bytes, password: Bytes, ip4: Bytes, port: int): Bytes
  {
    Greeting([AUTH_PASSWORD]) + EncodeAuth(username, password) + EncodeRequest(CMD_CONNECT, 0x00, V4(ip4), port)
  }

  /** The listener, fed the client's bytes, logs the user in with the raw
      username and password, decodes the very address and port, and leaves
      everything after the messages unread. */
  lemma ListenerReadsClient(u: Bytes, p: Bytes, ip4: Bytes, port: int, verify: Verifier, extra: Bytes)
    requires |u| <= 255 && |p| <= 255 && |ip4| == 4 && 0 <= port < 65536
    requires verify(Text(u), Split(Text(p), '-')[0])
    ensures var h := Handshake(ClientBytes(u, p, ip4, port) + extra, verify);
            var q := ReadRequest(h.rest);
            && h.result == Ok((Text(u), ScanTag(Split(Text(p), '-'))))
            && q.result == Ok(Request(V4(ip4), port, CMD_CONNECT))
            && q.rest == extra
            && h.reply + q.reply == [VERSION, AUTH_PASSWORD, 0x01, 0x00]
  {
    var request := EncodeRequest(CMD_CONNECT, 0x00, V4(ip4), port);
    var s := ClientBytes(u, p, ip4, port) + extra;
    assert s == Greeting([AUTH_PASSWORD]) + (EncodeAuth(u, p) + (request + extra));
    assert AUTH_PASSWORD in [AUTH_PASSWORD];
    HandshakeComplete(s, verify, Text(u), ScanTag(Split(Text(p), '-')), request + extra, [AUTH_PASSWORD], u, p);
    RequestComplete(Request(V4(ip4), port, CMD_CONNECT), 0x00, extra);
  }

  /** The client, fed the listener's replies, connects, has sent exactly its
      three messages and leaves everything after the replies unread. */
  lemma ClientReadsListener(up: Upstream, tag: Tag, host: string, port: nat, lookup: Resolver, ip4: Bytes, extra: Bytes)
    requires KnownProvider(up.provider)
    requires forall f :: f in PrintedFields(up.provider, up.username, up.password, tag) ==> ':' !in f
    requires HostPort.Plain(host) && port < 65536
    requires Proper(lookup) && lookup(host).Some? && FirstV4(lookup(host).value) == Some(ip4)
    ensures Converse([VERSION, AUTH_PASSWORD, 0x01, 0x00] + Reply(REP_SUCCESS) + extra, [], up, tag,
                     HostPort.Joined(host, port), lookup, ALL_WRITTEN)
         == Talk(Connected, extra, ClientBytes(ToBytes(UserPart(up.provider, up.username, tag)),
                                               ToBytes(PasswordPart(up.provider, up.password, tag)), ip4, port))
  {
    var t := [0x01, 0x00] + (Reply(REP_SUCCESS) + extra);
    assert [VERSION, AUTH_PASSWORD, 0x01, 0x00] + Reply(REP_SUCCESS) + extra == [VERSION, AUTH_PASSWORD] + t;
    var u, p := UserPart(up.provider, up.username, tag), PasswordPart(up.provider, up.password, tag);
    var address := HostPort.Joined(host, port);
    ConvertedSplits(up.username, up.password, tag, up.provider);
    GreetingAccepted(t, up, tag, address, lookup, u, p);
    HostPort.TargetOfJoined(host, port);
    AuthSucceeds(Greeting([AUTH_PASSWORD]), ToBytes(u), ToBytes(p), address, lookup, ip4, extra);
  }

  lemma GreetingAccepted(t: Bytes, up: Upstream, tag: Tag, address: string, lookup: Resolver, u: string, p: string)
    requires Proper(lookup)
    requires Split(Converted(up.username, up.password, tag, up.provider), ':') == [u, p]
    ensures Converse([VERSION, AUTH_PASSWORD] + t, [], up, tag, address, lookup, ALL_WRITTEN)
         == AuthStage(t, Greeting([AUTH_PASSWORD]), ToBytes(u), ToBytes(p), address, lookup, ALL_WRITTEN)
  {
    assert ([VERSION, AUTH_PASSWORD] + t)[2..] == t;
    assert [] + Greeting([AUTH_PASSWORD]) == Greeting([AUTH_PASSWORD]);
  }

  lemma AuthSucceeds(sent: Bytes, u: Bytes, p: Bytes, address: string, lookup: Resolver, ip4: Bytes, extra: Bytes)
    requires Proper(lookup) && lookup(HostPort.Target(address).0).Some?
    requires FirstV4(lookup(HostPort.Target(address).0).value) == Some(ip4)
    ensures AuthStage([0x01, 0x00] + (Reply(REP_SUCCESS) + extra), sent, u, p, address, lookup, ALL_WRITTEN)
         == Talk(Connected, extra,
                 sent + EncodeAuth(u, p) + EncodeRequest(CMD_CONNECT, 0x00, V4(ip4), HostPort.Target(address).1))
  {
    var t := Reply(REP_SUCCESS) + extra;
    assert ([0x01, 0x00] + t)[2..] == t;
    ReplyRead(extra, sent + EncodeAuth(u, p) + EncodeRequest(CMD_CONNECT, 0x00, V4(ip4), HostPort.Target(address).1));
  }

  lemma ReplyRead(extra: Bytes, sent: Bytes)
    ensures Finish(Reply(REP_SUCCESS) + extra, sent) == Talk(Connected, extra, sent)
  {
    var t := Reply(REP_SUCCESS) + extra;
    assert t[4..][6..] == extra;
  }

  lemma UnresolvedNeverConnects(s: Bytes, sent: Bytes, u: Bytes, p: Bytes, address: string, lookup: Resolver, writes: Writes)
    requires Proper(lookup) && lookup(HostPort.Target(address).0).None?
    ensures ConnectStage(s, sent, address, lookup, writes.connect).outcome == LookupFailed
    ensures AuthStage(s, sent, u, p, address, lookup, writes).outcome != Connected
  {
    if |s| >= 2 {
      assert ConnectStage(s[2..], Put(sent, EncodeAuth(u, p), writes.auth), address, lookup, writes.connect).outcome == LookupFailed;
    }
  }

  /** A client that asks the listener for an IPv6 target is never connected to it
      through an upstream, whatever the upstream answers: the address text does
      not split, and an empty host does not resolve. */
  lemma Ipv6NeverConnects(s: Bytes, sent: Bytes, up: Upstream, tag: Tag, host: Address, port: nat, ipText: IpText,
                          lookup: Resolver, writes: Writes)
    requires Proper(lookup) && lookup("").None? && ProperText(ipText)
    requires WellFormed(host) && host.V6? && !Mapped(host) && port < 65536
    ensures Converse(s, sent, up, tag, AddressText(host, port, ipText), lookup, writes).outcome != Connected
  {
    AddressReadsBack(host, port, ipText);
    UnresolvedNeverConverses(s, sent, up, tag, AddressText(host, port, ipText), lookup, writes);
  }

  lemma UnresolvedNeverConverses(s: Bytes, sent: Bytes, up: Upstream, tag: Tag, address: string, lookup: Resolver,
                                 writes: Writes)
    requires Proper(lookup) && lookup(HostPort.Target(address).0).None?
    ensures Converse(s, sent, up, tag, address, lookup, writes).outcome != Connected
  {
    var parts := Split(Converted(up.username, up.password, tag, up.provider), ':');
    if |parts| >= 2 && |s| >= 2 {
      var hello := Put(sent, Greeting([AUTH_PASSWORD]), writes.hello);
      UnresolvedNeverConnects(s[2..], hello, ToBytes(parts[0]), ToBytes(parts[1]), address, lookup, writes);
    }
  }
}
