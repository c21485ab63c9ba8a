// The SOCKS5 UDP relay header (RFC 1928 section 7): parsed out of the worker's
// receive buffer, rebuilt in front of every answer.
module UdpRelay {
  import opened Wrappers
  import opened Wire
  import opened Socks
  import HostPort

  const BUFFER := 65535

  /** A datagram is ignored, or makes the handler panic on a negative payload
      length, or is relayed. */
  datatype Parsed = Ignored | Panic | Packet(host: Address, port: nat, payload: Bytes)

  function HeaderLength(p: Bytes): nat
    requires |p| >= 10
  {
    if p[3] == ATYP_IPV4 then 10 else if p[3] == ATYP_IPV6 then 22 else (var d: nat := p[4]; 5 + d + 2)
  }

  predicate Relayable(p: Bytes) {
    |p| >= 10 && p[0] == 0 && p[1] == 0 && p[2] == 0 && p[3] in {ATYP_IPV4, ATYP_DOMAIN, ATYP_IPV6}
  }

  function Parse(p: Bytes): Parsed
  {
    if !Relayable(p) then Ignored
    else
      var h := HeaderLength(p);
      if h > |p| then Panic
      else
        var host := if p[3] == ATYP_IPV4 then V4(p[4..8]) else if p[3] == ATYP_IPV6 then V6(p[4..20]) else Domain(p[5..h - 2]);
        Packet(host, FromBe16(p[h - 2], p[h - 1]), p[h..])
  }

  /** The parser works on the whole reused buffer, yet its result depends on the
      n received bytes alone: a header reaching into bytes of an earlier
      datagram is never relayed. */
  method ParsePacket(buf: array<byte>, n: nat) returns (r: Parsed)
    requires buf.Length == BUFFER && n <= BUFFER
    ensures r == Parse(buf[..n])
    ensures r.Packet? ==> HeaderLength(buf[..n]) + |r.payload| == n
    ensures r == Panic <==>
      && n >= 10 && buf[..3] == [0, 0, 0]
      && ((buf[3] == ATYP_IPV6 && n < 22) || (buf[3] == ATYP_DOMAIN && n - 7 < buf[4]))
  {
    if n < 10 {
      return Ignored;
    }
    if buf[0] != 0x00 || buf[1] != 0x00 {
      return Ignored;
    }
    var frag := buf[2];
    if frag != 0 {
      return Ignored;
    }
    var targetHost, targetPort, headerLen;
    var atyp := buf[3];
    if atyp == ATYP_IPV4 {
      targetHost := V4(buf[4..8]);
      targetPort := FromBe16(buf[8], buf[9]);
      headerLen := 10;
    } else if atyp == ATYP_DOMAIN {
      var domainLen: nat := buf[4];
      targetHost := Domain(buf[5..5 + domainLen]);
      targetPort := FromBe16(buf[5 + domainLen], buf[5 + domainLen + 1]);
      headerLen := 5 + domainLen + 2;
    } else if atyp == ATYP_IPV6 {
      targetHost := V6(buf[4..20]);
      targetPort := FromBe16(buf[20], buf[21]);
      headerLen := 22;
    } else {
      return Ignored;
    }
    if n < headerLen {
      return Panic;
    }
    var payload := buf[headerLen..n];
    r := Packet(targetHost, targetPort, payload);
    Prefix(buf[..], n);
  }

  /** Looking into the received bytes is looking into the buffer. */
  lemma Prefix(s: Bytes, n: nat)
    requires n <= |s|
    ensures forall i, j :: 0 <= i <= j <= n ==> s[..n][i..j] == s[i..j]
  {}

  function Header(host: Address, port: nat): Bytes
    requires WellFormed(host)
  {
    [0, 0, 0]
    + (if To4(host).Some? then [ATYP_IPV4] + To4(host).value
       else if host.V6? then [ATYP_IPV6] + host.octets
       else [ATYP_DOMAIN, |host.name| % 256] + host.name)
    + Be16(port)
  }

  // net.ParseIP on a host name: the address a name spells, if it spells one.
  type IpParser = Bytes -> Option<Address>

  ghost predicate Proper(parseIP: IpParser)
  {
    forall name :: parseIP(name).Some? ==> WellFormed(parseIP(name).value) && !parseIP(name).value.Domain?
  }

  /** What the builder takes a host for: names that spell an address become it. */
  function Spelled(host: Address, parseIP: IpParser): Address
  {
    if host.Domain? && parseIP(host.name).Some? then parseIP(host.name).value else host
  }

  /** The header of an answer, from the target of the session. */
  method BuildHeader(host: Address, port: nat, parseIP: IpParser) returns (respHeader: Bytes)
    requires WellFormed(host) && Proper(parseIP)
    ensures respHeader == Header(Spelled(host, parseIP), port)
  {
    respHeader := [0, 0, 0];
    var parsed := if host.Domain? then parseIP(host.name) else Some(host);
    if parsed.Some? && To4(parsed.value).Some? {
      respHeader := respHeader + ([ATYP_IPV4] + To4(parsed.value).value);
    } else if parsed.Some? && parsed.value.V6? {
      respHeader := respHeader + ([ATYP_IPV6] + parsed.value.octets);
    } else {
      respHeader := respHeader + ([ATYP_DOMAIN, |host.name| % 256] + host.name);
    }
    respHeader := respHeader + Be16(port);
  }

  /** The answer packet: the header, then the bytes the target sent. */
  method BuildPacket(host: Address, port: nat, answer: Bytes, parseIP: IpParser) returns (finalPacket: Bytes)
    requires WellFormed(host) && Proper(parseIP)
    ensures finalPacket == Header(Spelled(host, parseIP), port) + answer
    ensures |finalPacket| == |Header(Spelled(host, parseIP), port)| + |answer|
  {
    var respHeader := BuildHeader(host, port, parseIP);
    finalPacket := respHeader + answer;
  }

  predicate Fits(host: Address, answer: Bytes) {
    && !Mapped(host)
    && (host.Domain? ==> |host.name| <= 255 && |host.name| + |answer| >= 3)
  }

  lemma Pieces(front: Bytes, body: Bytes, port: nat, rest: Bytes)
    requires port < 65536
    ensures var p := front + body + Be16(port) + rest; var h := |front| + |body| + 2;
      && h <= |p| && p[..|front|] == front && p[|front|..h - 2] == body
      && FromBe16(p[h - 2], p[h - 1]) == port && p[h..] == rest
  {}

  lemma ShortFrontKept(front: Bytes, p: Bytes)
    requires 4 <= |front| <= |p| && p[..|front|] == front
    ensures forall i :: 0 <= i < |front| ==> p[i] == front[i]
  {
    assert forall i :: 0 <= i < |front| ==> p[..|front|][i] == p[i];
  }

  lemma DomainPacketParses(name: Bytes, port: nat, answer: Bytes)
    requires port < 65536
    ensures Parse(Header(Domain(name), port) + answer) == Packet(Domain(name), port, answer)
      <==> |name| <= 255 && |name| + |answer| >= 3
  {
    var front: Bytes := [0, 0, 0, ATYP_DOMAIN, |name| % 256];
    var p := front + name + Be16(port) + answer;
    assert Header(Domain(name), port) + answer == p;
    assert |p| == |name| + |answer| + 7;
    if |name| <= 255 {
      if |p| >= 10 {
        Pieces(front, name, port, answer);
        DomainPieces(p, front, name);
      }
    } else if Parse(p).Packet? {
      ShortNames(p);
    }
  }

  lemma DomainPieces(p: Bytes, front: Bytes, name: Bytes)
    requires front == [0, 0, 0, ATYP_DOMAIN, |name|] && |name| <= 255 && |p| >= 10
    requires |name| + 7 <= |p| && p[..5] == front && p[5..5 + |name|] == name
    ensures Parse(p) == Packet(Domain(name), FromBe16(p[|name| + 5], p[|name| + 6]), p[|name| + 7..])
  {
    ShortFrontKept(front, p);
    assert HeaderLength(p) == |name| + 7;
  }

  lemma ShortNames(p: Bytes)
    requires Parse(p).Packet? && Parse(p).host.Domain?
    ensures |Parse(p).host.name| <= 255
  {}

  lemma IpPacketParses(front: Bytes, host: Address, octets: Bytes, port: nat, answer: Bytes)
    requires port < 65536
    requires || (host == V4(octets) && |octets| == 4 && front == [0, 0, 0, ATYP_IPV4])
             || (host == V6(octets) && |octets| == 16 && front == [0, 0, 0, ATYP_IPV6])
    ensures Parse(front + octets + Be16(port) + answer) == Packet(host, port, answer)
  {
    Pieces(front, octets, port, answer);
    ShortFrontKept(front, front + octets + Be16(port) + answer);
  }

  /** A built packet parses back to its host, port and payload exactly when the
      host is not an IPv4-mapped IPv6 address, a domain fits its length byte and
      the packet reaches the ten bytes below which everything is ignored. */
  lemma BuiltPacketParses(host: Address, port: nat, answer: Bytes)
    requires WellFormed(host) && port < 65536
    ensures Parse(Header(host, port) + answer) == Packet(host, port, answer) <==> Fits(host, answer)
    ensures Mapped(host) ==> Parse(Header(host, port) + answer) == Packet(V4(host.octets[12..]), port, answer)
  {
    if host.Domain? {
      DomainPacketParses(host.name, port, answer);
    } else if To4(host).Some? {
      assert Header(host, port) == [0, 0, 0, ATYP_IPV4] + To4(host).value + Be16(port);
      IpPacketParses([0, 0, 0, ATYP_IPV4], V4(To4(host).value), To4(host).value, port, answer);
    } else {
      assert Header(host, port) == [0, 0, 0, ATYP_IPV6] + host.octets + Be16(port);
      IpPacketParses([0, 0, 0, ATYP_IPV6], host, host.octets, port, answer);
    }
  }

  /** What a datagram with a whole header says: three zero bytes, the address type,
      the address, the port with its high byte first, and the payload. */
  lemma DatagramSays(p: Bytes)
    requires |p| >= 10 && p[0] == 0 && p[1] == 0 && p[2] == 0
    ensures p[3] == 1 ==> Parse(p) == Packet(V4(p[4..8]), 256 * p[8] as nat + p[9] as nat, p[10..])
    ensures p[3] == 4 && |p| >= 22 ==> Parse(p) == Packet(V6(p[4..20]), 256 * p[20] as nat + p[21] as nat, p[22..])
    ensures var n := p[4] as nat;
      p[3] == 3 && |p| >= 7 + n ==> Parse(p) == Packet(Domain(p[5..5 + n]), 256 * p[5 + n] as nat + p[6 + n] as nat, p[7 + n..])
  {}

  /** And all others are ignored, or make the handler panic. */
  lemma DatagramRefused(p: Bytes)
    ensures Parse(p) == Ignored <==>
      |p| < 10 || p[0] != 0 || p[1] != 0 || p[2] != 0 || (p[3] != 1 && p[3] != 3 && p[3] != 4)
    ensures Parse(p) == Panic <==>
      && |p| >= 10 && p[0] == 0 && p[1] == 0 && p[2] == 0
      && ((p[3] == 4 && |p| < 22) || (p[3] == 3 && |p| < 7 + p[4] as nat))
  {}

  /** Every parsed datagram is the built packet of what it parses to, unless
      its host is a mapped address. */
  lemma ParsedPacketRebuilds(p: Bytes)
    requires Parse(p).Packet?
    ensures p == Header(Parse(p).host, Parse(p).port) + Parse(p).payload <==> !Mapped(Parse(p).host)
  {
    var h := HeaderLength(p);
    if Mapped(Parse(p).host) {
      assert Header(Parse(p).host, Parse(p).port)[3] == ATYP_IPV4;
    } else {
      UnmappedHeader(p);
      assert p == p[..h] + p[h..];
    }
  }

  lemma UnmappedHeader(p: Bytes)
    requires Parse(p).Packet? && !Mapped(Parse(p).host)
    ensures Header(Parse(p).host, Parse(p).port) == p[..HeaderLength(p)]
  {
    var h := HeaderLength(p);
    Be16Exact(p[h - 2], p[h - 1]);
    if p[3] == ATYP_DOMAIN {
      Cut(p, 5, h);
    } else {
      Cut(p, 4, h);
    }
  }

  lemma Be16Exact(hi: byte, lo: byte)
    ensures Be16(FromBe16(hi, lo)) == [hi, lo]
  {}

  lemma Cut(p: Bytes, start: nat, h: nat)
    requires start + 2 <= h <= |p| && 4 <= start <= 5 && p[0] == p[1] == p[2] == 0
    ensures (if start == 4 then [0, 0, 0] + ([p[3]] + p[4..h - 2]) else [0, 0, 0] + ([p[3], p[4]] + p[5..h - 2]))
            + [p[h - 2], p[h - 1]] == p[..h]
  {}

  /** The relay dials the address text of the target; the bare colons of an IPv6
      address keep it from resolving, so no such datagram is ever relayed. */
  lemma Ipv6NeverRelayed(p: Bytes, ipText: IpText)
    requires Parse(p).Packet? && Parse(p).host.V6? && ProperText(ipText)
    ensures HostPort.SplitHostPort(AddressText(Parse(p).host, Parse(p).port, ipText)).Some? <==> Mapped(Parse(p).host)
  {
    var host, port := Parse(p).host, Parse(p).port;
    AddressReadsBack(host, port, ipText);
    if Mapped(host) {
      assert V6(host.octets) == host;
      HostPort.JoinSplits(HostText(host, ipText), port);
    }
  }

  /** The answer built for a parsed datagram names the target the client asked
      for exactly when the target is not a mapped address and, for a domain, the
      name does not spell an address and the answer brings the packet to ten
      bytes. */
  lemma AnswerNamesTarget(p: Bytes, answer: Bytes, parseIP: IpParser)
    requires Parse(p).Packet? && Proper(parseIP)
    ensures var ask := Parse(p);
            Parse(Header(Spelled(ask.host, parseIP), ask.port) + answer) == Packet(ask.host, ask.port, answer)
            <==> && !Mapped(ask.host)
                 && (ask.host.Domain? ==> parseIP(ask.host.name).None? && |ask.host.name| + |answer| >= 3)
  {
    BuiltPacketParses(Spelled(Parse(p).host, parseIP), Parse(p).port, answer);
  }
}
