// The "host:port" text that the worker hands from its listener to the dialling
// code: joined with a plain colon, taken apart by net.SplitHostPort.
module HostPort {
  import opened Wrappers
  import opened Strings

  function IndexOf(s: string, c: char): (i: nat)
    requires c in s
    ensures i < |s| && s[i] == c && c !in s[..i]
  {
    if s[0] == c then 0
    else
      assert s == [s[0]] + s[1..];
      var i := 1 + IndexOf(s[1..], c);
      assert s[..i] == [s[0]] + s[1..][..i - 1];
      i
  }

  function LastIndexOf(s: string, c: char): (i: nat)
    requires c in s
    ensures i < |s| && s[i] == c && c !in s[i + 1..]
  {
    var n := |s| - 1;
    if s[n] == c then n
    else
      assert s == s[..n] + [s[n]];
      var i := LastIndexOf(s[..n], c);
      assert s[i + 1..] == s[..n][i + 1..] + [s[n]];
      i
  }

  /** net.SplitHostPort: the port follows the last colon; a host with colons must
      stand in brackets, and brackets may stand nowhere else. */
  function SplitHostPort(s: string): Option<(string, string)>
  {
    if ':' !in s then None
    else
      var i := LastIndexOf(s, ':');
      if s[0] == '[' then
        if ']' !in s then None
        else
          var end := IndexOf(s, ']');
          if end + 1 != i || '[' in s[1..] || ']' in s[i..] then None else Some((s[1..end], s[i + 1..]))
      else if ':' in s[..i] || '[' in s || ']' in s then None
      else Some((s[..i], s[i + 1..]))
  }

  predicate Plain(host: string) { ':' !in host && '[' !in host && ']' !in host }

  function Joined(host: string, port: nat): string
  {
    host + [':'] + Itoa(port)
  }

  lemma PortPlain(port: nat)
    ensures Plain(Itoa(port))
  {
    assert forall i :: 0 <= i < |Digits(port)| ==> IsDigit(Digits(port)[i]);
  }

  lemma {:induction false} LastColon(host: string, port: string)
    requires ':' !in port
    ensures ':' in host + [':'] + port && LastIndexOf(host + [':'] + port, ':') == |host|
  {
    var s := host + [':'] + port;
    assert s[|host|] == ':';
    if port != "" {
      var front := port[..|port| - 1];
      assert s[|s| - 1] == port[|port| - 1];
      assert s[..|s| - 1] == host + [':'] + front;
      assert forall c :: c in front ==> c in port;
      LastColon(host, front);
    }
  }

  /** The joined text splits back exactly when the host holds no colon and no
      bracket; a host with a colon and no brackets does not split at all. */
  lemma JoinSplits(host: string, port: nat)
    ensures SplitHostPort(Joined(host, port)) == Some((host, Itoa(port))) <==> Plain(host)
    ensures ':' in host && '[' !in host ==> SplitHostPort(Joined(host, port)) == None
  {
    var s := Joined(host, port);
    PortPlain(port);
    LastColon(host, Itoa(port));
    assert s[..|host|] == host && s[|host| + 1..] == Itoa(port);
    if host != "" && host[0] == '[' && SplitHostPort(s).Some? {
      assert |SplitHostPort(s).value.0| < |host|;
    }
    assert forall c :: c in s <==> c in host || c == ':' || c in Itoa(port);
  }

  /** The host and port that a dialler takes from a text: parse errors are not
      looked at and leave both empty. */
  function Target(address: string): (string, int)
  {
    match SplitHostPort(address)
    case Some((host, port)) => (host, Atoi(port))
    case None => ("", 0)
  }

  /** The dialler sees the host and port that were joined exactly for hosts
      without colon and bracket. */
  lemma TargetOfJoined(host: string, port: nat)
    requires port <= MAX_INT
    ensures Target(Joined(host, port)) == (host, port) <==> Plain(host)
    ensures ':' in host && '[' !in host ==> Target(Joined(host, port)) == ("", 0)
  {
    JoinSplits(host, port);
    AtoiItoa(port);
    var split := SplitHostPort(Joined(host, port));
    if split.Some? && split.value.0 == host {
      PortPlain(port);
      LastColon(host, Itoa(port));
    }
  }
}
