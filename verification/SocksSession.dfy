/**
 One SOCKS5 client session of the gateway: allowlist, method negotiation, credentials, session limits,
 request, upstream, relay. Everything the client will ever send is the stream's input.
 */
module SocksSession {
  import opened Wrappers
  import opened SocksWire
  import Cidr
  import SessionLimits

  type Auth = Option<(Bytes, Bytes)>

  /** How a session ends. `GaveUp` is everything before the limits are asked. */
  datatype Ending =
    | NotAllowed
    | GaveUp
    | Limited
    | NotConnect
    | NoTarget
    | NoUpstream
    | Relayed

  // ---------- what the client must send, and how it is read ----------

  function Wanted(auth: Auth): Byte {
    if auth.Some? then 2 else 0
  }

  function Methods(input: Bytes): Option<(Bytes, Bytes)> {
    if |input| < 2 || input[0] != 5 || |input| < 2 + input[1] as int then None
    else Some((input[2..2 + input[1] as int], input[2 + input[1] as int..]))
  }

  /** A byte string that carries its length in front. */
  function Counted(input: Bytes): Option<(Bytes, Bytes)> {
    if |input| < 1 || |input| < 1 + input[0] as int then None
    else Some((input[1..1 + input[0] as int], input[1 + input[0] as int..]))
  }

  function UserPass(input: Bytes): Option<(Bytes, Bytes, Bytes)> {
    if input == [] || input[0] != 1 then None
    else
      var user := Counted(input[1..]);
      if user.None? then None
      else
        var pass := Counted(user.value.1);
        if pass.None? then None else Some((user.value.0, pass.value.0, pass.value.1))
  }

  /** What is left of the input once the client may ask for a session, if it gets that far. */
  function Past(input: Bytes, auth: Auth): Option<Bytes> {
    var methods := Methods(input);
    if methods.None? || Wanted(auth) !in methods.value.0 then None
    else if auth.None? then Some(methods.value.1)
    else
      var given := UserPass(methods.value.1);
      if given.None? || (given.value.0, given.value.1) != auth.value then None else Some(given.value.2)
  }

  /** The replies to a client that does not get that far. */
  function EarlyReplies(input: Bytes, auth: Auth): Bytes {
    var methods := Methods(input);
    if methods.None? then []
    else if Wanted(auth) !in methods.value.0 then [5, 255]
    else if auth.None? || UserPass(methods.value.1).None? then [5, Wanted(auth)]
    else [5, 2, 1, 1]
  }

  function Welcome(auth: Auth): Bytes {
    if auth.Some? then [5, 2, 1, 0] else [5, 0]
  }

  function Answer(code: Byte): Bytes {
    [5, code, 0, 1, 0, 0, 0, 0, 0, 0]
  }

  predicate IsConnect(rest: Bytes) {
    |rest| >= 4 && rest[0] == 5 && rest[1] == 1
  }

  function Requested(rest: Bytes, lossy: Bytes -> Bytes): Option<(Target, nat)> {
    if !IsConnect(rest) then None
    else
      var read := ReadTarget(rest[3], rest[4..], lossy);
      if read.None? || |read.value.1| < 2 then None else Some((read.value.0, ReadPort(read.value.1[..2])))
  }

  // ---------- the session ----------

  method ReadCounted(client: Stream) returns (r: Option<Bytes>)
    modifies client`input
    ensures r.Some? <==> Counted(old(client.input)).Some?
    ensures r.Some? ==> Counted(old(client.input)) == Some((r.value, client.input))
  {
    ghost var input := client.input;
    var length := client.ReadExact(1);
    if length.None? { return None; }
    var n := length.value[0] as nat;
    assert |input| >= 1 + n ==> input[1..][..n] == input[1..1 + n] && input[1..][n..] == input[1 + n..];
    r := client.ReadExact(n);
  }

  method Authenticate(client: Stream, user: Bytes, pass: Bytes) returns (ok: bool)
    modifies client
    ensures var given := UserPass(old(client.input));
            && (ok <==> given.Some? && given.value.0 == user && given.value.1 == pass)
            && (ok ==> client.input == given.value.2)
            && client.output == old(client.output) + (if given.None? then [] else if ok then [1, 0] else [1, 1])
  {
    var version := client.ReadExact(1);
    if version.None? || version.value[0] != 1 { return false; }
    var u := ReadCounted(client);
    if u.None? { return false; }
    var p := ReadCounted(client);
    if p.None? { return false; }
    ok := ConstantTimeEqual(user, u.value);
    if ok {
      ok := ConstantTimeEqual(pass, p.value);
    }
    client.Write(if ok then [1, 0] else [1, 1]);
  }

  method ReadTargetFrom(client: Stream, atyp: Byte, lossy: Bytes -> Bytes) returns (t: Option<Target>)
    modifies client`input
    ensures t.Some? <==> ReadTarget(atyp, old(client.input), lossy).Some?
    ensures t.Some? ==> ReadTarget(atyp, old(client.input), lossy) == Some((t.value, client.input))
  {
    ghost var input := client.input;
    match atyp {
      case 1 =>
        var o := client.ReadExact(4);
        t := if o.None? then None else Some(V4(o.value));
      case 3 =>
        var l := client.ReadExact(1);
        if l.None? { return None; }
        var n := l.value[0] as nat;
        assert |input| >= 1 + n ==> input[1..][..n] == input[1..1 + n] && input[1..][n..] == input[1 + n..];
        var d := client.ReadExact(n);
        t := if d.None? then None else Some(Domain(lossy(d.value)));
      case 4 =>
        var o := client.ReadExact(16);
        t := if o.None? then None else Some(V6(o.value));
      case _ => t := None;
    }
  }

  method ReadMethods(client: Stream) returns (r: Option<Bytes>)
    modifies client`input
    ensures r.Some? <==> Methods(old(client.input)).Some?
    ensures r.Some? ==> Methods(old(client.input)) == Some((r.value, client.input))
  {
    ghost var input := client.input;
    var hdr := client.ReadExact(2);
    if hdr.None? || hdr.value[0] != 5 { return None; }
    var n := hdr.value[1] as nat;
    assert |input| >= 2 + n ==> input[2..][..n] == input[2..2 + n] && input[2..][n..] == input[2 + n..];
    r := client.ReadExact(n);
  }

  /** Greeting and credentials; `writable` is whether the chosen method can be sent back. */
  method Negotiate(client: Stream, auth: Auth, writable: bool) returns (ok: bool)
    requires client.output == []
    modifies client
    ensures ok <==> writable && Past(old(client.input), auth).Some?
    ensures ok ==> client.input == Past(old(client.input), auth).value && client.output == Welcome(auth)
    ensures !ok && writable ==> client.output == EarlyReplies(old(client.input), auth)
  {
    hide Methods, UserPass;
    var methods := ReadMethods(client);
    if methods.None? { return false; }
    var chosen: Byte;
    if auth.Some? && 2 in methods.value {
      chosen := 2;
    } else if auth.None? && 0 in methods.value {
      chosen := 0;
    } else {
      client.Write([5, 255]);
      return false;
    }
    if !writable { return false; }
    client.Write([5, chosen]);
    ok := true;
    if chosen == 2 {
      ok := Authenticate(client, auth.value.0, auth.value.1);
    }
  }

  method Connect(client: Stream, upstream: Stream?, lossy: Bytes -> Bytes)
      returns (end: Ending, dialled: Option<(Target, nat)>)
    requires client != upstream
    modifies client, upstream
    ensures !IsConnect(old(client.input)) ==> end == NotConnect && client.output == old(client.output) + Answer(7)
    ensures IsConnect(old(client.input)) && Requested(old(client.input), lossy).None? ==>
        end == NoTarget && client.output == old(client.output)
    ensures Requested(old(client.input), lossy).Some? ==> end == NoUpstream || end == Relayed
    ensures dialled == if upstream == null then None else Requested(old(client.input), lossy)
    ensures dialled.None? && upstream != null ==>
        upstream.output == old(upstream.output) && upstream.input == old(upstream.input)
    ensures end == NoUpstream ==> client.output == old(client.output) + Answer(1)
    ensures end == Relayed ==> client.output == old(client.output) + [5, 0, 0, 1, 127, 0, 0, 1, 0, 0]
    ensures end == Relayed <==> dialled.Some? && Tunnel(SocksDialer, old(upstream.input)).Some?
    ensures end == Relayed ==>
              && upstream.input == Tunnel(SocksDialer, old(upstream.input)).value
              && upstream.output == old(upstream.output) +
                  ([5, 1, 0] + ConnectRequest(dialled.value.0, dialled.value.1))
  {
    dialled := None;
    var head := client.ReadExact(4);
    if head.None? || head.value[0] != 5 || head.value[1] != 1 {
      client.Write(Answer(7));
      return NotConnect, None;
    }
    var target := ReadTargetFrom(client, head.value[3], lossy);
    if target.None? { return NoTarget, None; }
    var port := client.ReadExact(2);
    if port.None? { return NoTarget, None; }
    if upstream == null {
      client.Write(Answer(1));
      return NoUpstream, None;
    }
    dialled := Some((target.value, ReadPort(port.value)));
    var ok := Dial(SocksDialer, upstream, target.value, ReadPort(port.value));
    if !ok {
      client.Write(Answer(1));
      return NoUpstream, dialled;
    }
    client.Write([5, 0, 0, 1, 127, 0, 0, 1, 0, 0]);
    end := Relayed;
  }

  /**
   * The whole session. The limits are asked exactly when the client is allowed and has got past the
   * greeting and the credentials; the upstream is touched only with a permit and a CONNECT request; the
   * permit is still held when the relay ends (`during` are the permits out then) and back at the end.
   */
  method HandleConn(client: Stream, peer: Cidr.Address, allowlist: seq<Cidr.Entry>, auth: Auth,
      limiter: SessionLimits.Limiter?,
                    now: real, upstream: Stream?, writable: bool, lossy: Bytes -> Bytes)
    returns (end: Ending, dialled: Option<(Target, nat)>, ghost during: set<nat>)
    requires client.output == [] && client != upstream
    requires Cidr.WellFormed(peer) && forall e :: e in allowlist ==> Cidr.Readable(e)
    requires limiter != null ==> limiter.Valid()
    modifies client, upstream, limiter, if limiter == null then null else limiter.bucket
    ensures limiter != null ==> limiter.Valid() && limiter.live == old(limiter.live)
    ensures limiter != null && limiter.cap.Some? && end !in {NotAllowed, GaveUp, Limited} ==>
              old(limiter.live) < during && |during| == |old(limiter.live)| + 1 <= limiter.cap.value
    ensures var asked := Cidr.ClientAllowed(peer, allowlist) && writable && Past(old(client.input), auth).Some?;
            && (end in {NotAllowed, GaveUp} <==> !asked)
            && (limiter != null && limiter.bucket != null ==>
                 limiter.bucket.State() == if asked then SessionLimits.Taken(old(limiter.bucket.State()), now)
                     else old(limiter.bucket.State()))
            && (end == Limited <==> asked && limiter != null && !old(limiter.Admits(now)))
    ensures end == NotAllowed <==> !Cidr.ClientAllowed(peer, allowlist)
    ensures end == NotAllowed ==> client.output == [] && client.input == old(client.input)
    ensures end == GaveUp && writable ==> client.output == EarlyReplies(old(client.input), auth)
    ensures end == NotConnect ==> client.output == Welcome(auth) + [5, 7, 0, 1, 0, 0, 0, 0, 0, 0]
    ensures end == NoTarget ==> client.output == Welcome(auth)
    ensures end == NoUpstream ==> client.output == Welcome(auth) + [5, 1, 0, 1, 0, 0, 0, 0, 0, 0]
    ensures end == Limited ==> client.output == Welcome(auth)
    ensures end in {NoUpstream, Relayed} <==>
        end !in {NotAllowed, GaveUp, Limited} && Requested(Past(old(client.input), auth).value, lossy).Some?
    ensures dialled.Some? <==> end in {NoUpstream, Relayed} && upstream != null
    ensures dialled.Some? ==> dialled == Requested(Past(old(client.input), auth).value, lossy)
    ensures dialled.None? && upstream != null ==>
        upstream.output == old(upstream.output) && upstream.input == old(upstream.input)
    ensures end == Relayed <==> dialled.Some? && Tunnel(SocksDialer, old(upstream.input)).Some?
    ensures end == Relayed ==>
              && upstream != null
              && client.output == Welcome(auth) + [5, 0, 0, 1, 127, 0, 0, 1, 0, 0]
              && upstream.output == old(upstream.output) +
                  ([5, 1, 0] + ConnectRequest(dialled.value.0, dialled.value.1))
              && upstream.input == Tunnel(SocksDialer, old(upstream.input)).value
  {
    hide Past, Requested, Tunnel, EarlyReplies, Welcome, ConnectRequest, Cidr.ClientAllowed, IsConnect,
        SessionLimits.Taken, SessionLimits.Granted;
    if !Cidr.ClientAllowed(peer, allowlist) {
      return NotAllowed, None, {};
    }
    var negotiated := Negotiate(client, auth, writable);
    if !negotiated {
      return GaveUp, None, {};
    }
    var permit := SessionLimits.Permit(0, false);
    if limiter != null {
      var r := limiter.Acquire(now);
      if r.Err? { return Limited, None, {}; }
      permit := r.value;
    }
    end, dialled := Connect(client, upstream, lossy);
    during := {};
    if limiter != null {
      during := limiter.live;
      limiter.Release(permit);
    }
  }

  // ---------- the same, told from the bytes on the wire ----------

  function Greeting(methods: Bytes): Bytes {
    [5, Low(|methods|)] + methods
  }

  function Credentials(auth: Auth): Bytes {
    if auth.None? then []
    else [1, Low(|auth.value.0|)] + auth.value.0 + [Low(|auth.value.1|)] + auth.value.1
  }

  predicate Short(auth: Auth) {
    auth.Some? ==> |auth.value.0| <= 255 && |auth.value.1| <= 255
  }

  ghost predicate Greets(input: Bytes, methods: Bytes, auth: Auth, rest: Bytes) {
    |methods| <= 255 && Wanted(auth) in methods && input == Greeting(methods) + Credentials(auth) + rest
  }

  lemma MethodsExactly(input: Bytes, methods: Bytes, rest: Bytes)
    ensures Methods(input) == Some((methods, rest)) <==> |methods| <= 255 && input == Greeting(methods) + rest
  {
    if |methods| <= 255 && input == Greeting(methods) + rest {
      assert input[2..] == methods + rest;
    }
    if Methods(input) == Some((methods, rest)) {
      assert input == [input[0], input[1]] + input[2..2 + input[1] as int] + input[2 + input[1] as int..];
    }
  }

  lemma CountedExactly(input: Bytes, item: Bytes, rest: Bytes)
    ensures Counted(input) == Some((item, rest)) <==> |item| <= 255 && input == [Low(|item|)] + item + rest
  {
    if |item| <= 255 && input == [Low(|item|)] + item + rest {
      assert input[1..] == item + rest;
    }
    if Counted(input) == Some((item, rest)) {
      assert input == [input[0]] + input[1..1 + input[0] as int] + input[1 + input[0] as int..];
    }
  }

  lemma UserPassRead(input: Bytes, user: Bytes, pass: Bytes, rest: Bytes)
    requires UserPass(input) == Some((user, pass, rest))
    ensures |user| <= 255 && |pass| <= 255 && input == Credentials(Some((user, pass))) + rest
  {
    var more := Counted(input[1..]).value.1;
    hide Counted;
    CountedExactly(input[1..], user, more);
    CountedExactly(more, pass, rest);
    assert input == [1] + input[1..];
    Regroup(user, pass, rest);
  }

  lemma Regroup(user: Bytes, pass: Bytes, rest: Bytes)
    ensures [1] + ([Low(|user|)] + user + ([Low(|pass|)] + pass + rest)) == Credentials(Some((user, pass))) + rest
  {
  }

  lemma UserPassWritten(user: Bytes, pass: Bytes, rest: Bytes)
    requires |user| <= 255 && |pass| <= 255
    ensures UserPass(Credentials(Some((user, pass))) + rest) == Some((user, pass, rest))
  {
    var input := Credentials(Some((user, pass))) + rest;
    var more := [Low(|pass|)] + pass + rest;
    hide Counted;
    assert input[1..] == [Low(|user|)] + user + more;
    CountedExactly(input[1..], user, more);
    CountedExactly(more, pass, rest);
  }

  /**
   * What a client hears that does not get to the limits: nothing without a greeting; 255 if the wanted method
   * is not offered; else the method, and status 1 after credentials that were read and are wrong.
   */
  lemma EarlyRepliesExactly(input: Bytes, auth: Auth)
    requires Past(input, auth) == None
    ensures var said, methods := EarlyReplies(input, auth), Methods(input);
            && (methods == None <==> said == [])
            && (methods.Some? && (if auth.Some? then 2 else 0) !in methods.value.0 <==> said == [5, 255])
            && (said !in {[], [5, 255]} ==>
                  && auth.Some? && 2 in methods.value.0
                  && said == if UserPass(methods.value.1) == None then [5, 2] else [5, 2, 1, 1])
  {
    hide Methods, UserPass;
    var refused: Bytes := [5, 255];
    assert forall s: Bytes :: |s| < 2 || s[1] != 255 ==> s != refused;
  }

  /** The words of a session that gets there, and of the two refusals after it. */
  lemma RepliesExactly(auth: Auth)
    ensures Welcome(auth) == if auth.Some? then [5, 2, 1, 0] else [5, 0]
    ensures Answer(7)[1] == 7 && Answer(1)[1] == 1 && |Answer(7)| == |Answer(1)| == 10
  {
  }

  /**
   * A client gets to the limits exactly by offering the wanted method and, if credentials are
   * configured, sending them byte for byte; credentials longer than 255 bytes can never be sent.
   */
  lemma PastExactly(input: Bytes, auth: Auth, rest: Bytes)
    ensures Past(input, auth) == Some(rest) <==> Short(auth) && exists methods :: Greets(input, methods, auth, rest)
  {
    if Past(input, auth) == Some(rest) {
      var methods := PastRead(input, auth, rest);
    }
    if Short(auth) && exists methods :: Greets(input, methods, auth, rest) {
      var methods :| Greets(input, methods, auth, rest);
      PastWritten(methods, auth, rest);
    }
  }

  lemma PastRead(input: Bytes, auth: Auth, rest: Bytes) returns (methods: Bytes)
    requires Past(input, auth) == Some(rest)
    ensures Short(auth) && Greets(input, methods, auth, rest)
  {
    methods := Methods(input).value.0;
    var more := Methods(input).value.1;
    hide Methods, UserPass, Greeting;
    MethodsExactly(input, methods, more);
    if auth.Some? {
      UserPassRead(more, auth.value.0, auth.value.1, rest);
    }
    hide Credentials;
    Regroup3(Greeting(methods), Credentials(auth), rest);
  }

  lemma Regroup3(a: Bytes, b: Bytes, c: Bytes)
    ensures a + (b + c) == a + b + c
  {
  }

  lemma PastWritten(methods: Bytes, auth: Auth, rest: Bytes)
    requires Short(auth) && |methods| <= 255 && Wanted(auth) in methods
    ensures Past(Greeting(methods) + Credentials(auth) + rest, auth) == Some(rest)
  {
    var more := Credentials(auth) + rest;
    if auth.Some? {
      UserPassWritten(auth.value.0, auth.value.1, rest);
    } else {
      assert [] + rest == rest;
    }
    hide Methods, UserPass, Greeting, Credentials;
    Regroup3(Greeting(methods), Credentials(auth), rest);
    MethodsExactly(Greeting(methods) + more, methods, more);
  }

  /** The raw target on the wire, before a name is decoded. */
  function Decoded(raw: Target, lossy: Bytes -> Bytes): Target {
    if raw.Domain? then Domain(lossy(raw.name)) else raw
  }

  ghost predicate Asks(rest: Bytes, raw: Target, port: nat, tail: Bytes) {
    && WellFormed(raw) && (raw.Domain? ==> |raw.name| <= 255) && port < 65536
    && |rest| >= 3 && rest[0] == 5 && rest[1] == 1
    && rest[3..] == Encoded(raw) + Port(port) + tail
  }

  lemma TargetRead(atyp: Byte, input: Bytes, lossy: Bytes -> Bytes) returns (raw: Target)
    requires ReadTarget(atyp, input, lossy).Some?
    ensures var (t, more) := ReadTarget(atyp, input, lossy).value;
            && WellFormed(raw) && (raw.Domain? ==> |raw.name| <= 255) && t == Decoded(raw, lossy)
            && [atyp] + input == Encoded(raw) + more
  {
    raw := ReadTarget(atyp, input, (b: Bytes) => b).value.0;
    ReadThenWrite(atyp, input, (b: Bytes) => b);
  }

  lemma TargetWritten(raw: Target, more: Bytes, lossy: Bytes -> Bytes)
    requires WellFormed(raw) && (raw.Domain? ==> |raw.name| <= 255)
    ensures var wire := Encoded(raw) + more;
            ReadTarget(wire[0], wire[1..], lossy) == Some((Decoded(raw, lossy), more))
  {
    RoundTripExactly(raw, more, (b: Bytes) => b);
  }

  /** A target is requested exactly by a well-formed CONNECT request on the wire. */
  lemma RequestedExactly(rest: Bytes, t: Target, port: nat, lossy: Bytes -> Bytes)
    ensures Requested(rest, lossy) == Some((t, port)) <==>
            exists raw, tail :: Asks(rest, raw, port, tail) && t == Decoded(raw, lossy)
  {
    hide ReadTarget, Encoded, Decoded;
    if Requested(rest, lossy) == Some((t, port)) {
      var raw := TargetRead(rest[3], rest[4..], lossy);
      var more := ReadTarget(rest[3], rest[4..], lossy).value.1;
      assert rest[3..] == [rest[3]] + rest[4..];
      assert more == Port(port) + more[2..];
      assert Encoded(raw) + (Port(port) + more[2..]) == Encoded(raw) + Port(port) + more[2..];
      assert Asks(rest, raw, port, more[2..]);
    }
    if exists raw, tail :: Asks(rest, raw, port, tail) && t == Decoded(raw, lossy) {
      var raw, tail :| Asks(rest, raw, port, tail) && t == Decoded(raw, lossy);
      var more := Port(port) + tail;
      assert rest[3..] == Encoded(raw) + more;
      TargetWritten(raw, more, lossy);
      assert rest[4..] == rest[3..][1..] && rest[3] == rest[3..][0];
      assert more[..2] == Port(port);
      PortRoundTrip(port);
    }
  }
}
