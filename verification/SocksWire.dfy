/**
 The SOCKS5 wire format the gateway speaks on both sides: target addresses, the handshake with an
 upstream, and the credential comparison. Decoding UTF-8 lossily is a parameter.
 */
module SocksWire {
  import opened Wrappers

  type Bytes = seq<Byte>

  /** A target in the form the client gave it; a domain is the bytes of its string. */
  datatype Target = V4(octets: Bytes) | Domain(name: Bytes) | V6(octets: Bytes)

  predicate WellFormed(t: Target) {
    match t
    case V4(o) => |o| == 4
    case V6(o) => |o| == 16
    case Domain(_) => true
  }

  /** A length as one byte, truncated like the cast in the code. */
  function Low(n: nat): Byte {
    (n % 256) as Byte
  }

  /** Address type, then address; a domain carries its length in one byte. */
  function Encoded(t: Target): Bytes {
    match t
    case V4(o) => [1] + o
    case Domain(d) => [3, Low(|d|)] + d
    case V6(o) => [4] + o
  }

  /** Reading one address of type `atyp`; `lossy` replaces what is not UTF-8. */
  function ReadTarget(atyp: Byte, input: Bytes, lossy: Bytes -> Bytes): (r: Option<(Target, Bytes)>)
    ensures r.Some? ==> WellFormed(r.value.0) && |r.value.1| <= |input|
  {
    if atyp == 1 then
      if |input| < 4 then None else Some((V4(input[..4]), input[4..]))
    else if atyp == 3 then
      if |input| < 1 || |input| < 1 + input[0] as int then None
      else Some((Domain(lossy(input[1..1 + input[0] as int])), input[1 + input[0] as int..]))
    else if atyp == 4 then
      if |input| < 16 then None else Some((V6(input[..16]), input[16..]))
    else None
  }

  /**
   * A written target is read back, with what follows it untouched, exactly when its length fits in the
   * length byte.
   */
  lemma RoundTripExactly(t: Target, suffix: Bytes, lossy: Bytes -> Bytes)
    requires WellFormed(t) && (t.Domain? ==> lossy(t.name) == t.name)
    ensures var wire := Encoded(t) + suffix;
            ReadTarget(wire[0], wire[1..], lossy) == Some((t, suffix)) <==> (t.Domain? ==> |t.name| <= 255)
  {
    if t.Domain? {
      DomainRoundTrip(t.name, suffix, lossy);
    } else {
      var input := (Encoded(t) + suffix)[1..];
      assert input == t.octets + suffix;
      assert input[..|t.octets|] == t.octets && input[|t.octets|..] == suffix;
    }
  }

  lemma DomainRoundTrip(name: Bytes, suffix: Bytes, lossy: Bytes -> Bytes)
    requires lossy(name) == name
    ensures var wire := Encoded(Domain(name)) + suffix;
            wire[0] == 3 && (ReadTarget(3, wire[1..], lossy) == Some((Domain(name), suffix)) <==> |name| <= 255)
  {
    var input := (Encoded(Domain(name)) + suffix)[1..];
    assert input == [Low(|name|)] + (name + suffix);
    if |name| <= 255 {
      assert input[0] as nat == |name|;
      assert input[1..] == name + suffix;
      assert input[1..1 + |name|] == name && input[1 + |name|..] == suffix;
    } else {
      assert input[0] as nat == |name| % 256 < |name|;
    }
  }

  /** A target that was read is written back byte for byte, if its name was UTF-8. */
  lemma ReadThenWrite(atyp: Byte, input: Bytes, lossy: Bytes -> Bytes)
    requires ReadTarget(atyp, input, lossy).Some?
    requires atyp == 3 ==> lossy(input[1..1 + input[0] as int]) == input[1..1 + input[0] as int]
    ensures var (t, rest) := ReadTarget(atyp, input, lossy).value;
            Encoded(t) + rest == [atyp] + input
  {
    var (t, rest) := ReadTarget(atyp, input, lossy).value;
    if atyp == 3 {
      var n := input[0] as int;
      assert input == [input[0]] + input[1..1 + n] + rest;
      assert Encoded(t) == [3, input[0]] + input[1..1 + n];
    }
  }

  function Port(port: nat): Bytes {
    [Low(port / 256), Low(port)]
  }

  function ReadPort(b: Bytes): nat
    requires |b| == 2
  {
    b[0] as nat * 256 + b[1] as nat
  }

  lemma PortRoundTrip(port: nat)
    requires port < 65536
    ensures ReadPort(Port(port)) == port
  {
  }

  // ---------- the upstream handshake ----------

  function ConnectRequest(t: Target, port: nat): Bytes {
    [5, 1, 0] + Encoded(t) + Port(port)
  }

  /** What a server answers: version, success, reserved, bound address and port. */
  function Reply(bound: Target, port: nat): Bytes {
    [5, 0, 0] + Encoded(bound) + Port(port)
  }

  datatype Dialer = SocksDialer | HttpDialer

  /** One end of a connection: what is still to be read, and what has been written. */
  class Stream {
    var input: Bytes
    var output: Bytes

    constructor (input: Bytes)
      ensures this.input == input && output == []
    {
      this.input := input;
      output := [];
    }

    method ReadExact(n: nat) returns (r: Option<Bytes>)
      modifies this`input
      ensures if n <= |old(input)| then r == Some(old(input)[..n]) && input == old(input)[n..] else r == None
    {
      if |input| < n { input := []; return None; }
      r := Some(input[..n]);
      input := input[n..];
    }

    method Write(bytes: Bytes)
      modifies this`output
      ensures output == old(output) + bytes
    {
      output := output + bytes;
    }
  }

  /** How many bytes the dialers take for the rest of a reply whose fourth byte is `atyp`. */
  function Remaining(dialer: Dialer, atyp: Byte, input: Bytes): Option<nat> {
    match dialer
    case SocksDialer => Some(6)
    case HttpDialer =>
      if atyp == 3 then (if input == [] then None else Some(1 + input[0] as nat + 2))
      else if atyp == 4 then Some(16)
      else Some(6)
  }

  /** What is left for the tunnel after the handshake, or nothing if it fails. */
  function Tunnel(dialer: Dialer, answers: Bytes): Option<Bytes> {
    if |answers| < 6 || answers[1] != 0 || answers[3] != 0 then None
    else
      var rest := answers[6..];
      var n := Remaining(dialer, answers[5], rest);
      if n.None? || |rest| < n.value then None else Some(rest[n.value..])
  }

  method Dial(dialer: Dialer, up: Stream, t: Target, port: nat) returns (ok: bool)
    modifies up
    ensures ok <==> Tunnel(dialer, old(up.input)).Some?
    ensures ok ==> up.input == Tunnel(dialer, old(up.input)).value
    ensures ok ==> |old(up.input)| >= 6 && old(up.input)[1] == 0 && old(up.input)[3] == 0
    ensures up.output == old(up.output) + [5, 1, 0] +
                (if |old(up.input)| < 2 || old(up.input)[1] != 0 then [] else ConnectRequest(t, port))
    ensures ok ==> up.output == old(up.output) + ([5, 1, 0] + ConnectRequest(t, port))
  {
    hide Encoded, Port;
    up.Write([5, 1, 0]);
    var method' := up.ReadExact(2);
    if method'.None? || method'.value[1] != 0 { return false; }
    var request: Bytes := [5, 1, 0];
    request := request + Encoded(t);
    request := request + Port(port);
    up.Write(request);
    assert old(up.output) + [5, 1, 0] + request == old(up.output) + ([5, 1, 0] + request);
    var head := up.ReadExact(4);
    if head.None? || head.value[1] != 0 { return false; }
    var remaining := 6;
    if dialer.HttpDialer? {
      if head.value[3] == 3 {
        var l := up.ReadExact(1);
        if l.None? { return false; }
        remaining := l.value[0] as nat + 2;
      } else if head.value[3] == 4 {
        remaining := 16;
      }
    }
    var discarded := up.ReadExact(remaining);
    ok := discarded.Some?;
  }

  /** What a server answers with this reply code. */
  function ReplyWith(code: Byte, bound: Target, port: nat): Bytes {
    [5, code, 0] + Encoded(bound) + Port(port)
  }

  /** A refused greeting or a refused request never becomes a tunnel, whatever follows. */
  lemma RefusalsFail(dialer: Dialer, m: Byte, code: Byte, bound: Target, port: nat, tail: Bytes)
    ensures m != 0 ==> Tunnel(dialer, [5, m] + tail) == None
    ensures code != 0 ==> Tunnel(dialer, [5, 0] + ReplyWith(code, bound, port) + tail) == None
  {
    var answers := [5, 0] + ReplyWith(code, bound, port) + tail;
    assert |answers| >= 6 && answers[3] == code;
  }

  /**
   * Whatever an upstream sends, there is a tunnel exactly if it accepts the greeting and the request and sends
   * as much as the dialer skips; the tunnel is the rest.
   */
  lemma TunnelFrom(dialer: Dialer, answers: Bytes, tunnel: Bytes)
    ensures Tunnel(dialer, answers) == Some(tunnel) <==>
            && |answers| >= 6 && answers[1] == 0 && answers[3] == 0
            && exists skipped: nat :: Skips(dialer, answers, skipped)
                 && 6 + skipped <= |answers| && answers[6 + skipped..] == tunnel
  {
    if |answers| >= 6 && Remaining(dialer, answers[5], answers[6..]).Some? {
      var n := Remaining(dialer, answers[5], answers[6..]).value;
      assert Skips(dialer, answers, n);
      if 6 + n <= |answers| {
        assert answers[6..][n..] == answers[6 + n..];
      }
    }
  }

  /** Six bytes after the head for the SOCKS dialer; for the HTTP one a name and a port, 16 bytes or 6. */
  predicate Skips(dialer: Dialer, answers: Bytes, skipped: nat)
    requires |answers| >= 6
  {
    if dialer.SocksDialer? then skipped == 6
    else if answers[5] == 3 then |answers| > 6 && skipped == answers[6] as nat + 3
    else skipped == if answers[5] == 4 then 16 else 6
  }

  /** After a successful reply the tunnel starts where it should exactly for the address types the dialer can skip. */
  lemma TunnelExactly(dialer: Dialer, bound: Target, port: nat, tunnel: Bytes)
    requires WellFormed(bound) && (bound.Domain? ==> |bound.name| <= 255)
    ensures Tunnel(dialer, [5, 0] + Reply(bound, port) + tunnel) == Some(tunnel) <==>
            match dialer
            case SocksDialer => bound.V4? || (bound.Domain? && |bound.name| == 3)
            case HttpDialer => !bound.V6?
  {
    var answers := [5, 0] + Reply(bound, port) + tunnel;
    var body := if bound.Domain? then [Low(|bound.name|)] + bound.name else bound.octets;
    ReplyTail(bound, port, tunnel, body);
    hide Reply, Encoded, Port, Low;
    var rest := answers[6..];
    var n := Remaining(dialer, answers[5], rest);
    if n.Some? && |rest| >= n.value {
      assert |rest[n.value..]| == |body| + 2 + |tunnel| - n.value;
      if n.value == |body| + 2 {
        assert rest[n.value..] == tunnel;
      }
    }
  }

  lemma ReplyTail(bound: Target, port: nat, tunnel: Bytes, body: Bytes)
    requires WellFormed(bound) && (bound.Domain? ==> |bound.name| <= 255)
    requires body == if bound.Domain? then [Low(|bound.name|)] + bound.name else bound.octets
    ensures var answers := [5, 0] + Reply(bound, port) + tunnel;
            && |answers| >= 6 && answers[1] == 0 && answers[3] == 0
            && answers[6..] == body + Port(port) + tunnel
            && answers[5] == (match bound case V4(_) => 1 case Domain(_) => 3 case V6(_) => 4)
            && (bound.Domain? ==> body[0] as nat == |bound.name|)
    ensures |Port(port)| == 2
  {
    assert Encoded(bound) == [(match bound case V4(_) => 1 case Domain(_) => 3 case V6(_) => 4) as Byte] + body;
  }

  /**
   * An upstream that reads the gateway's request finds the client's target and port, if a name is
   * UTF-8 of at most 255 bytes.
   */
  lemma UpstreamSeesTarget(t: Target, port: nat, lossy: Bytes -> Bytes)
    requires WellFormed(t) && port < 65536 && (t.Domain? ==> lossy(t.name) == t.name && |t.name| <= 255)
    ensures var request := ConnectRequest(t, port);
            && request[..3] == [5, 1, 0]
            && var read := ReadTarget(request[3], request[4..], lossy);
            && read == Some((t, Port(port)))
            && ReadPort(read.value.1) == port
  {
    var request := ConnectRequest(t, port);
    assert request[3..] == Encoded(t) + Port(port);
    assert request[4..] == request[3..][1..] && request[3] == request[3..][0];
    RoundTripExactly(t, Port(port), lossy);
    PortRoundTrip(port);
  }

  // ---------- credentials ----------

  /** Bitwise operations on the low `width` bits. */
  function BitXor(a: nat, b: nat, width: nat): nat {
    if width == 0 then 0 else 2 * BitXor(a / 2, b / 2, width - 1) + (if a % 2 == b % 2 then 0 else 1)
  }

  function BitOr(a: nat, b: nat, width: nat): nat {
    if width == 0 then 0 else 2 * BitOr(a / 2, b / 2, width - 1) + (if a % 2 == 0 && b % 2 == 0 then 0 else 1)
  }

  function Power(width: nat): nat {
    if width == 0 then 1 else 2 * Power(width - 1)
  }

  lemma {:induction false} XorIsDifference(a: nat, b: nat, width: nat)
    requires a < Power(width) && b < Power(width)
    ensures BitXor(a, b, width) < Power(width)
    ensures BitXor(a, b, width) == 0 <==> a == b
  {
    if width > 0 { XorIsDifference(a / 2, b / 2, width - 1); }
  }

  lemma {:induction false} OrKeepsDifferences(a: nat, b: nat, width: nat)
    requires a < Power(width) && b < Power(width)
    ensures BitOr(a, b, width) < Power(width)
    ensures BitOr(a, b, width) == 0 <==> a == 0 && b == 0
  {
    if width > 0 { OrKeepsDifferences(a / 2, b / 2, width - 1); }
  }

  lemma ByteFits(x: Byte)
    ensures (x as nat) < Power(8)
  {
    assert Power(4) == 16;
  }

  /** The comparison without early exit. */
  method ConstantTimeEqual(a: Bytes, b: Bytes) returns (r: bool)
    ensures r <==> a == b
  {
    if |a| != |b| { return false; }
    hide BitOr, BitXor, Power;
    var diff := 0;
    var i := 0;
    ByteFits(0);
    while i < |a|
      invariant 0 <= i <= |a|
      invariant 0 <= diff < Power(8)
      invariant diff == 0 <==> forall k :: 0 <= k < i ==> a[k] == b[k]
    {
      var x, y := a[i] as nat, b[i] as nat;
      ByteFits(a[i]);
      ByteFits(b[i]);
      XorIsDifference(x, y, 8);
      OrKeepsDifferences(diff, BitXor(x, y, 8), 8);
      diff := BitOr(diff, BitXor(x, y, 8), 8);
      i := i + 1;
    }
    r := diff == 0;
  }
}
