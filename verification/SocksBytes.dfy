// The listener and the client byte by byte: which bytes of a stream decide what
// comes out and what is sent, without the decoders that Socks and SocksClient
// describe them by.
module SocksBytes {
  import opened Wrappers
  import opened Wire
  import opened Strings
  import opened Tags
  import opened ProviderTag
  import opened Socks
  import opened SocksClient
  import HostPort

  // ---- the handshake ---------------------------------------------------

  /** The greeting: too short, another version, or without the password method. */
  lemma GreetingDecides(s: Bytes, verify: Verifier)
    ensures |s| < 2 || (s[0] == 5 && |s| < 2 + s[1] as nat) ==> Handshake(s, verify) == Run(Err(ShortRead), [], [])
    ensures |s| >= 2 && s[0] != 5 ==> Handshake(s, verify) == Run(Err(BadVersion), s[2..], [])
    ensures |s| >= 2 && s[0] == 5 && |s| >= 2 + s[1] as nat && 2 !in s[2..2 + s[1] as nat] ==>
      Handshake(s, verify) == Run(Err(NoPasswordAuth), s[2 + s[1] as nat..], [5, 255])
  {}

  /** Behind a greeting that offers it: a login that is cut short, or of another
      version. */
  lemma LoginCut(m: Bytes, t: Bytes, verify: Verifier)
    requires |m| <= 255 && 2 in m
    ensures |t| < 2 || (t[0] == 1 && (|t| < 3 + t[1] as nat || |t| < 3 + t[1] as nat + t[2 + t[1] as nat] as nat)) ==>
      Handshake([5, |m|] + m + t, verify) == Run(Err(ShortRead), [], [5, 2])
    ensures |t| >= 2 && t[0] != 1 ==> Handshake([5, |m|] + m + t, verify) == Run(Err(BadAuthVersion), t[2..], [5, 2])
  {
    var s := [5, |m|] + m + t;
    assert s[0] == 5 && s[1] == |m| && s[2..2 + |m|] == m && s[2 + |m|..] == t;
  }

  /** And a whole one: the client is told 0 exactly if the verifier accepts the
      username and the password in front of the first dash, and 1 otherwise. */
  lemma LoginStatus(m: Bytes, u: Bytes, p: Bytes, rest: Bytes, verify: Verifier)
    requires |m| <= 255 && 2 in m && |u| <= 255 && |p| <= 255
    ensures var done := Handshake([5, |m|] + m + ([1, |u|] + u + [|p|] + p + rest), verify);
            var accepted := verify(Text(u), Split(Text(p), '-')[0]);
            && done.rest == rest && |done.reply| == 4 && done.reply[..3] == [5, 2, 1]
            && done.reply[3] == (if accepted then 0 else 1)
            && done.result == if accepted then Ok((Text(u), ScanTag(Split(Text(p), '-')))) else Err(Rejected)
  {
    var t := [1, |u|] + u + [|p|] + p + rest;
    var s := [5, |m|] + m + t;
    assert s[0] == 5 && s[1] == |m| && s[2..2 + |m|] == m && s[2 + |m|..] == t;
    assert EncodeAuth(u, p) + rest == t;
    AuthRoundTrip(u, p, rest);
  }

  // ---- the request -----------------------------------------------------

  /** A request that is refused. */
  lemma RequestRefused(s: Bytes)
    ensures |s| < 4 ==> ReadRequest(s) == Run(Err(ShortRead), [], [])
    ensures |s| >= 4 && s[0] != 5 ==> ReadRequest(s) == Run(Err(BadVersion), s[4..], [])
    ensures |s| >= 4 && s[0] == 5 && s[1] != 1 && s[1] != 3 ==>
      ReadRequest(s) == Run(Err(BadCommand), s[4..], [5, 7, 0, 1, 0, 0, 0, 0, 0, 0])
    ensures |s| >= 4 && s[0] == 5 && (s[1] == 1 || s[1] == 3) && s[3] != 1 && s[3] != 3 && s[3] != 4 ==>
      ReadRequest(s) == Run(Err(BadAddressType), s[4..], [5, 8, 0, 1, 0, 0, 0, 0, 0, 0])
  {}

  /** Where the address ends, by its type. */
  function AddressEnd(s: Bytes): Option<nat>
    requires |s| >= 4
  {
    if s[3] == 1 then Some(8) else if s[3] == 4 then Some(20) else if |s| > 4 then Some(5 + s[4] as nat) else None
  }

  /** A request that is understood: it is cut short, or its address and the two
      bytes of the port behind it, the high one first, are the request. */
  lemma RequestRead(s: Bytes)
    requires |s| >= 4 && s[0] == 5 && (s[1] == 1 || s[1] == 3) && (s[3] == 1 || s[3] == 3 || s[3] == 4)
    ensures AddressEnd(s).None? || |s| < AddressEnd(s).value + 2 ==> ReadRequest(s) == Run(Err(ShortRead), [], [])
    ensures AddressEnd(s).Some? && |s| >= AddressEnd(s).value + 2 ==>
      var e := AddressEnd(s).value;
      var host := if s[3] == 1 then V4(s[4..e]) else if s[3] == 4 then V6(s[4..e]) else Domain(s[5..e]);
      ReadRequest(s) == Run(Ok(Request(host, 256 * s[e] as nat + s[e + 1] as nat, s[1])), s[e + 2..], [])
  {
    var t := s[4..];
    if AddressEnd(s).Some? && |s| >= AddressEnd(s).value + 2 {
      var e := AddressEnd(s).value;
      Shifted(s, e);
    }
  }

  lemma Shifted(s: Bytes, e: nat)
    requires 4 < e && e + 2 <= |s|
    ensures s[4..][..e - 4] == s[4..e] && s[4..][1..e - 4] == s[5..e] && s[4..][e - 4..] == s[e..]
    ensures s[e..][0] == s[e] && s[e..][1] == s[e + 1] && s[e..][2..] == s[e + 2..]
  {}

  /** The address text that the dialling code is given. */
  lemma AddressSpelled(o: Bytes, name: Bytes, port: nat, ipText: IpText)
    ensures AddressText(V4(o), port, ipText) == ipText(V4(o)) + ":" + Itoa(port)
    ensures AddressText(V6(o), port, ipText) == ipText(V6(o)) + ":" + Itoa(port)
    ensures AddressText(Domain(name), port, ipText) == Text(name) + ":" + Itoa(port)
  {}

  /** An IPv4-mapped address is ten bytes 0, two bytes 255 and the IPv4 address. */
  lemma MappedBytes(o: Bytes)
    requires |o| == 16
    ensures Mapped(V6(o)) <==> (forall i :: 0 <= i < 10 ==> o[i] == 0) && o[10] == 255 && o[11] == 255
    ensures To4(V6(o)) == if Mapped(V6(o)) then Some([o[12], o[13], o[14], o[15]]) else None
  {
    var front: Bytes := [0, 0, 0, 0, 0, 0, 0, 0, 0, 0, 255, 255];
    assert forall i :: 0 <= i < 12 ==> o[..12][i] == o[i];
    if (forall i :: 0 <= i < 10 ==> o[i] == 0) && o[10] == 255 && o[11] == 255 {
      assert o[..12] == front;
    }
    if o[..12] == front {
      assert forall i :: 0 <= i < 12 ==> o[i] == front[i];
    }
    assert o[12..] == [o[12], o[13], o[14], o[15]];
  }

  // ---- the client ------------------------------------------------------

  ghost predicate HasIPv4(address: string, lookup: Resolver)
    requires Proper(lookup)
  {
    var ips := lookup(HostPort.Target(address).0);
    ips.Some? && exists i :: 0 <= i < |ips.value| && To4(ips.value[i]).Some?
  }

  lemma {:induction false} FirstV4Exists(ips: seq<Address>)
    requires forall a :: a in ips ==> WellFormed(a)
    ensures FirstV4(ips).Some? <==> exists i :: 0 <= i < |ips| && To4(ips[i]).Some?
  {
    if ips != [] {
      FirstV4Exists(ips[1..]);
      if To4(ips[0]).None? {
        forall i | 1 <= i < |ips| ensures ips[i] == ips[1..][i - 1] {}
      }
    }
  }

  /** Why a client gives up on what it has read, or does not. */
  ghost function Verdict(s: Bytes, up: Upstream, address: string, lookup: Resolver, writes: Writes): Outcome
    requires Proper(lookup)
  {
    if writes.hello.Some? then WriteFailed
    else if |s| < 2 then ReadFailed
    else if s[1] != 2 then AuthNotAccepted
    else if !KnownProvider(up.provider) then Outcome.IndexPanic
    else if writes.auth.Some? then WriteFailed
    else if |s| < 4 then ReadFailed
    else if s[3] != 0 then AuthFailed
    else if lookup(HostPort.Target(address).0).None? then LookupFailed
    else if !HasIPv4(address, lookup) then NoIPv4
    else if writes.connect.Some? then WriteFailed
    else if |s| < 8 then ReadFailed
    else if s[5] != 0 then ConnectFailed(s[5])
    else Connected
  }

  /** Which bytes of the stream decide: the second, the fourth and the sixth. */
  lemma StreamDecides(s: Bytes, sent: Bytes, up: Upstream, tag: Tag, address: string, lookup: Resolver, writes: Writes)
    requires Proper(lookup)
    ensures Converse(s, sent, up, tag, address, lookup, writes).outcome == Verdict(s, up, address, lookup, writes)
  {
    UnknownProviderHasNoPassword(up.username, up.password, tag, up.provider);
    var ips := lookup(HostPort.Target(address).0);
    if ips.Some? {
      FirstV4Exists(ips.value);
    }
  }

  /** The client is connected exactly if its writes succeed, the provider is known,
      the host has an IPv4 address, and the upstream answers with two bytes ending
      in 2, two bytes ending in 0 and four bytes of which the second is 0. */
  lemma ConnectsExactly(s: Bytes, sent: Bytes, up: Upstream, tag: Tag, address: string, lookup: Resolver, writes: Writes)
    requires Proper(lookup)
    ensures Converse(s, sent, up, tag, address, lookup, writes).outcome == Connected <==>
      && writes == Writes(None, None, None) && KnownProvider(up.provider) && HasIPv4(address, lookup)
      && |s| >= 8 && s[1] == 2 && s[3] == 0 && s[5] == 0
  {
    StreamDecides(s, sent, up, tag, address, lookup, writes);
  }

  /** The stream from the n-th byte on, if it goes that far. */
  function Behind(s: Bytes, n: nat): Bytes
  {
    if n <= |s| then s[n..] else []
  }

  /** A connected client goes on reading behind the bound address: 6 bytes of an
      IPv4 address with its port, 18 of an IPv6 one, or a name behind its length
      byte, with its port. */
  lemma ConnectedRest(s: Bytes, sent: Bytes, up: Upstream, tag: Tag, address: string, lookup: Resolver, writes: Writes)
    requires Proper(lookup) && Converse(s, sent, up, tag, address, lookup, writes).outcome == Connected
    ensures |s| >= 8
    ensures var rest := Converse(s, sent, up, tag, address, lookup, writes).rest;
            && (s[7] == 1 ==> rest == Behind(s, 8 + 6))
            && (s[7] == 4 ==> rest == Behind(s, 8 + 18))
            && (s[7] == 3 ==> rest == if |s| == 8 then [] else Behind(s, 8 + 1 + s[8] as nat + 2))
            && (s[7] != 1 && s[7] != 3 && s[7] != 4 ==> rest == s[8..])
  {
    StreamDecides(s, sent, up, tag, address, lookup, writes);
    assert s[2..][2..][4..] == s[8..] && s[2..][2..][3] == s[7];
  }

  /** What it has sent by then: the greeting, the two halves of the credentials each
      behind its length, and the request for the first IPv4 address of the host. */
  lemma ConnectedSent(s: Bytes, up: Upstream, tag: Tag, address: string, lookup: Resolver, writes: Writes)
    requires Proper(lookup) && Converse(s, [], up, tag, address, lookup, writes).outcome == Connected
    ensures var halves := Split(Converted(up.username, up.password, tag, up.provider), ':');
            var (host, port) := HostPort.Target(address);
            && |halves| >= 2 && lookup(host).Some? && FirstV4(lookup(host).value).Some?
            && Converse(s, [], up, tag, address, lookup, writes).sent
            == Messages(ToBytes(halves[0]), ToBytes(halves[1]), FirstV4(lookup(host).value).value, port)
  {
    StreamDecides(s, [], up, tag, address, lookup, writes);
    var halves := Split(Converted(up.username, up.password, tag, up.provider), ':');
    var (host, port) := HostPort.Target(address);
    var u, p, ip4 := ToBytes(halves[0]), ToBytes(halves[1]), FirstV4(lookup(host).value).value;
    MessagesEncoded(u, p, ip4, port);
    StagesSent(s, up, tag, address, lookup, u, p, ip4);
  }

  /** A client whose greeting cannot be written whole has sent what got out of it. */
  lemma GreetingCut(s: Bytes, up: Upstream, tag: Tag, address: string, lookup: Resolver, writes: Writes)
    requires Proper(lookup) && writes.hello.Some?
    ensures var r := Converse(s, [], up, tag, address, lookup, writes);
            r.rest == s && r.sent == [5, 1, 2][..if writes.hello.value < 3 then writes.hello.value else 3]
  {
    assert Greeting([2]) == [5, 1, 2];
  }

  /** One that gives up on the first answer has sent the greeting. */
  lemma GaveUpAtOnce(s: Bytes, up: Upstream, tag: Tag, address: string, lookup: Resolver, writes: Writes)
    requires Proper(lookup) && writes.hello.None? && |s| >= 2 && (s[1] != 2 || !KnownProvider(up.provider))
    ensures var r := Converse(s, [], up, tag, address, lookup, writes); r.rest == s[2..] && r.sent == [5, 1, 2]
  {
    UnknownProviderHasNoPassword(up.username, up.password, tag, up.provider);
    assert Greeting([2]) == [5, 1, 2];
  }

  lemma LeftByAuth(s: Bytes, sent: Bytes, u: Bytes, p: Bytes, address: string, lookup: Resolver, writes: Writes)
    requires Proper(lookup)
    ensures var r := AuthStage(s, sent, u, p, address, lookup, writes);
            && (r.outcome == ReadFailed ==> r.rest == [])
            && (r.outcome == AuthFailed || r.outcome == LookupFailed || r.outcome == NoIPv4 ==> |s| >= 2 && r.rest == s[2..])
            && (r.outcome.ConnectFailed? ==> |s| >= 6 && r.rest == s[6..])
  {
    if |s| >= 6 {
      assert s[2..][4..] == s[6..];
    }
  }

  /** One that gives up later leaves unread what follows the answers it has read. */
  lemma GaveUpLater(s: Bytes, up: Upstream, tag: Tag, address: string, lookup: Resolver, writes: Writes)
    requires Proper(lookup)
    ensures var r := Converse(s, [], up, tag, address, lookup, writes);
            && (r.outcome == ReadFailed ==> r.rest == [])
            && (r.outcome == AuthFailed || r.outcome == LookupFailed || r.outcome == NoIPv4 ==> |s| >= 4 && r.rest == s[4..])
            && (r.outcome.ConnectFailed? ==> |s| >= 8 && r.rest == s[8..])
  {
    var parts := Split(Converted(up.username, up.password, tag, up.provider), ':');
    if |s| >= 2 && |parts| >= 2 {
      LeftByAuth(s[2..], Put([], Greeting([2]), writes.hello), ToBytes(parts[0]), ToBytes(parts[1]), address, lookup, writes);
      Twice(s);
    }
  }

  lemma Twice(s: Bytes)
    requires |s| >= 2
    ensures |s| >= 4 ==> s[2..][2..] == s[4..]
    ensures |s| >= 8 ==> s[2..][6..] == s[8..]
  {}

  function Messages(u: Bytes, p: Bytes, ip4: Bytes, port: int): Bytes
  {
    [5, 1, 2] + ([1, |u| % 256] + u + [|p| % 256] + p) + ([5, 1, 0, 1] + ip4 + [port / 256 % 256, port % 256])
  }

  lemma MessagesEncoded(u: Bytes, p: Bytes, ip4: Bytes, port: int)
    ensures Messages(u, p, ip4, port)
         == [] + Greeting([AUTH_PASSWORD]) + EncodeAuth(u, p) + EncodeRequest(CMD_CONNECT, 0x00, V4(ip4), port)
  {
    assert [] + Greeting([2]) == [5, 1, 2];
    assert EncodeRequest(1, 0, V4(ip4), port) == [5, 1, 0, 1] + ip4 + [port / 256 % 256, port % 256];
  }

  lemma StagesSent(s: Bytes, up: Upstream, tag: Tag, address: string, lookup: Resolver, u: Bytes, p: Bytes, ip4: Bytes)
    requires Proper(lookup) && Converse(s, [], up, tag, address, lookup, ALL_WRITTEN).outcome == Connected
    requires var halves := Split(Converted(up.username, up.password, tag, up.provider), ':');
             |halves| >= 2 && u == ToBytes(halves[0]) && p == ToBytes(halves[1])
    requires var ips := lookup(HostPort.Target(address).0); ips.Some? && FirstV4(ips.value) == Some(ip4)
    ensures Converse(s, [], up, tag, address, lookup, ALL_WRITTEN).sent
         == [] + Greeting([AUTH_PASSWORD]) + EncodeAuth(u, p)
            + EncodeRequest(CMD_CONNECT, 0x00, V4(ip4), HostPort.Target(address).1)
  {}

  // ---- the client at a listener that refuses it ------------------------

  /** The first four bytes it reads. */
  lemma FourBytes(s: Bytes, sent: Bytes, up: Upstream, tag: Tag, address: string, lookup: Resolver)
    requires Proper(lookup) && KnownProvider(up.provider)
    ensures var read := Converse(s, sent, up, tag, address, lookup, ALL_WRITTEN).outcome;
            && (|s| >= 2 ==> (read == AuthNotAccepted <==> s[1] != 2))
            && (|s| >= 4 ==> (read == AuthFailed <==> s[1] == 2 && s[3] != 0))
  {
    StreamDecides(s, sent, up, tag, address, lookup, ALL_WRITTEN);
  }

  /** A client whose login the listener's verifier rejects ends with exactly that
      outcome, whatever follows the answer. */
  lemma RejectedClientFails(m: Bytes, u: Bytes, p: Bytes, rest: Bytes, verify: Verifier, more: Bytes,
                            sent: Bytes, up: Upstream, tag: Tag, address: string, lookup: Resolver)
    requires |m| <= 255 && 2 in m && |u| <= 255 && |p| <= 255 && Proper(lookup) && KnownProvider(up.provider)
    ensures var reply := Handshake([5, |m|] + m + ([1, |u|] + u + [|p|] + p + rest), verify).reply;
            Converse(reply + more, sent, up, tag, address, lookup, ALL_WRITTEN).outcome == AuthFailed
            <==> !verify(Text(u), Split(Text(p), '-')[0])
  {
    LoginStatus(m, u, p, rest, verify);
    var reply := Handshake([5, |m|] + m + ([1, |u|] + u + [|p|] + p + rest), verify).reply;
    assert reply[..3][1] == 2;
    FourBytes(reply + more, sent, up, tag, address, lookup);
  }

  /** And one that does not offer the method the listener wants. */
  lemma UnofferedClientFails(m: Bytes, t: Bytes, verify: Verifier, more: Bytes, sent: Bytes, up: Upstream, tag: Tag,
                             address: string, lookup: Resolver)
    requires |m| <= 255 && 2 !in m && Proper(lookup) && KnownProvider(up.provider)
    ensures var reply := Handshake([5, |m|] + m + t, verify).reply;
            reply == [5, 255] && Converse(reply + more, sent, up, tag, address, lookup, ALL_WRITTEN).outcome == AuthNotAccepted
  {
    var s := [5, |m|] + m + t;
    assert s[0] == 5 && s[1] == |m| && s[2..2 + |m|] == m;
    GreetingDecides(s, verify);
    FourBytes([5, 255] + more, sent, up, tag, address, lookup);
  }
}
