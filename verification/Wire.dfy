// Bytes, IP addresses and a byte-stream connection whose incoming stream is cut
// into reads in an arbitrary way.
module Wire {
  import opened Wrappers

  type byte = x: int | 0 <= x < 256

  type Bytes = seq<byte>

  /** The string a run of bytes stands for, one character a byte. */
  function Text(b: Bytes): (s: string)
    ensures |s| == |b|
  {
    seq(|b|, i requires 0 <= i < |b| => b[i] as char)
  }

  /** The bytes of a string; every character of a Go string is one byte. */
  function ToBytes(s: string): (b: Bytes)
    ensures |b| == |s|
  {
    seq(|s|, i requires 0 <= i < |s| => s[i] as int % 256)
  }

  function Be16(port: int): Bytes
  {
    [port / 256 % 256, port % 256]
  }

  function FromBe16(hi: byte, lo: byte): nat
  {
    hi * 256 + lo
  }

  // ---- addresses -------------------------------------------------------

  datatype Address = V4(octets: Bytes) | V6(octets: Bytes) | Domain(name: Bytes)

  predicate WellFormed(a: Address) {
    match a
    case V4(o) => |o| == 4
    case V6(o) => |o| == 16
    case Domain(_) => true
  }

  /** ::ffff:a.b.c.d, an IPv4 address written in sixteen bytes. */
  predicate Mapped(a: Address) {
    a.V6? && |a.octets| == 16 && a.octets[..12] == [0, 0, 0, 0, 0, 0, 0, 0, 0, 0, 255, 255]
  }

  /** net.IP.To4. */
  function To4(a: Address): Option<Bytes>
    requires WellFormed(a)
  {
    if a.V4? then Some(a.octets) else if Mapped(a) then Some(a.octets[12..]) else None
  }

  // ---- connections -----------------------------------------------------

  /** What has been sent after a write; Some(k) is a write that fails after k bytes. */
  function Put(sent: Bytes, b: Bytes, failure: Option<nat>): Bytes
  {
    if failure.None? then sent + b
    else sent + (if failure.value <= |b| then b[..failure.value] else b)
  }

  function Flatten(chunks: seq<Bytes>): Bytes
  {
    if chunks == [] then [] else chunks[0] + Flatten(chunks[1..])
  }

  class Conn {
    var chunks: seq<Bytes>   // the incoming stream, cut as the network delivers it
    var written: Bytes       // everything sent so far

    constructor (chunks: seq<Bytes>)
      ensures this.chunks == chunks && written == []
    {
      this.chunks := chunks;
      written := [];
    }

    function Stream(): Bytes
      reads this
    {
      Flatten(chunks)
    }

    /** One read: at most limit bytes from the front of the next chunk. */
    method Read(limit: nat) returns (got: Bytes, eof: bool)
      modifies this`chunks
      ensures |got| <= limit
      ensures got + Stream() == old(Stream())
      ensures eof ==> old(Stream()) == [] && got == []
      ensures !eof && limit > 0 ==> |chunks| + |Stream()| < old(|chunks| + |Stream()|)
    {
      if chunks == [] {
        return [], true;
      }
      var head := chunks[0];
      eof := false;
      if |head| <= limit {
        got := head;
        chunks := chunks[1..];
      } else {
        got := head[..limit];
        chunks := [head[limit..]] + chunks[1..];
        assert chunks[1..] == old(chunks)[1..];
        assert head == head[..limit] + head[limit..];
      }
    }

    /** io.ReadFull: exactly n bytes, or an error after everything was drained.
        The outcome depends on the stream alone, not on how it is cut. */
    method ReadFull(n: nat) returns (buf: Bytes, ok: bool)
      modifies this`chunks
      ensures ok <==> n <= |old(Stream())|
      ensures ok ==> buf == old(Stream())[..n] && Stream() == old(Stream())[n..]
      ensures !ok ==> Stream() == []
    {
      buf := [];
      while |buf| < n
        invariant |buf| <= n
        invariant buf + Stream() == old(Stream())
        decreases |chunks| + |Stream()|
      {
        var got, eof := Read(n - |buf|);
        if eof {
          return buf, false;
        }
        ghost var sofar := buf;
        buf := buf + got;
        assert buf + Stream() == sofar + (got + Stream());
      }
      ok := true;
    }

    /** A write whose error the caller looks at. */
    method TryWrite(b: Bytes, failure: Option<nat>) returns (ok: bool)
      modifies this`written
      ensures ok == failure.None? && written == Put(old(written), b, failure)
    {
      written := Put(written, b, failure);
      ok := failure.None?;
    }

    method Write(b: Bytes)
      modifies this`written
      ensures written == old(written) + b
    {
      written := written + b;
    }
  }
}
