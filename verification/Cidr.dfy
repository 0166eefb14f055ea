/**
 Strict CIDR parsing and matching. A 32-bit or 128-bit unsigned integer is its sequence of bits, most
 significant first, and the masks and shifts of the code are the operations on those sequences.
 Reading address and prefix text is not part of this model: the parser starts from what it yielded.
 */
module Cidr {
  import opened Wrappers

  type Bits = seq<bool>

  datatype Address = V4Address(bits: Bits) | V6Address(bits: Bits)

  predicate WellFormed(a: Address) {
    |a.bits| == if a.V4Address? then 32 else 128
  }

  datatype Network = V4(net: Bits, prefix: nat) | V6(net: Bits, prefix: nat) | Exact(address: Address)

  predicate WellShaped(n: Network) {
    match n
    case V4(net, prefix) => |net| == 32 && prefix < 256
    case V6(net, prefix) => |net| == 128 && prefix < 256
    case Exact(a) => WellFormed(a)
  }

  // ---------- unsigned integers ----------

  function Ones(width: nat): Bits {
    seq(width, (i: nat) => true)
  }

  function Zeros(width: nat): Bits {
    seq(width, (i: nat) => false)
  }

  function And(a: Bits, b: Bits): (r: Bits)
    requires |a| == |b|
  {
    seq(|a|, (i: nat) requires i < |a| => a[i] && b[i])
  }

  /** `<<`; a shift by the whole width overflows, and without overflow checks shifts by nothing. */
  function ShiftLeft(a: Bits, n: nat): (r: Bits)
    requires n <= |a|
    ensures |r| == |a|
  {
    if n == |a| then a else a[n..] + Zeros(n)
  }

  /** `>>`, with the same overflow. */
  function ShiftRight(a: Bits, n: nat): (r: Bits)
    requires n <= |a|
    ensures |r| == |a|
  {
    if n == |a| then a else Zeros(n) + a[..|a| - n]
  }

  /** `(1 << count) - 1`. */
  function LowOnes(width: nat, count: nat): (r: Bits)
    requires count <= width
    ensures |r| == width
  {
    Zeros(width - count) + Ones(count)
  }

  // ---------- the code ----------

  function Mask(width: nat, prefix: nat): (r: Bits)
    ensures |r| == width
  {
    var bits := if prefix <= width then prefix else width;
    if bits == 0 then Zeros(width) else ShiftLeft(Ones(width), width - bits)
  }

  predicate Contains(n: Network, ip: Address)
    requires WellFormed(ip) && WellShaped(n)
  {
    match n
    case Exact(a) => a == ip
    case V4(net, prefix) => ip.V4Address? && And(ip.bits, Mask(32, prefix)) == And(net, Mask(32, prefix))
    case V6(net, prefix) => ip.V6Address? && And(ip.bits, Mask(128, prefix)) == And(net, Mask(128, prefix))
  }

  /** An allowlist entry as the standard parsers read it; the prefix text may fail to be a byte. */
  datatype Entry = Bare(address: Option<Address>) | WithPrefix(address: Option<Address>, prefix: Option<nat>)

  /** `Panicked` is the overflow of a shift by the whole width in a build that checks for it. */
  datatype Parsed = Accepted(network: Network) | Rejected | Panicked

  predicate Readable(e: Entry) {
    && (e.address.Some? ==> WellFormed(e.address.value))
    && (e.WithPrefix? && e.prefix.Some? ==> e.prefix.value < 256)
  }

  function ParseCidr(e: Entry, overflowChecks: bool): (r: Parsed)
    requires Readable(e)
    ensures r.Accepted? ==> WellShaped(r.network)
    ensures !overflowChecks ==> r != Panicked
  {
    match e
    case Bare(address) => if address.None? then Rejected else Accepted(Exact(address.value))
    case WithPrefix(_, None) => Rejected
    case WithPrefix(None, Some(_)) => Rejected
    case WithPrefix(Some(V4Address(net)), Some(prefix)) =>
      if prefix > 32 then Rejected
      else
        var hostBits := 32 - prefix;
        var hostMask := if hostBits == 32 then Ones(32) else LowOnes(32, hostBits);
        if And(net, hostMask) != Zeros(32) then Rejected else Accepted(V4(net, prefix))
    case WithPrefix(Some(V6Address(net)), Some(prefix)) =>
      if prefix > 128 then Rejected
      else if prefix == 0 && overflowChecks then Panicked
      else
        var hostBits := 128 - prefix;
        if net != ShiftLeft(ShiftRight(net, hostBits), hostBits) then Rejected else Accepted(V6(net, prefix))
  }

  /** An empty list allows everybody; entries that do not parse allow nobody. */
  predicate ClientAllowed(peer: Address, allowlist: seq<Entry>)
    requires WellFormed(peer) && forall e :: e in allowlist ==> Readable(e)
  {
    allowlist == [] || exists e :: e in allowlist && Admits(e, peer)
  }

  predicate Admits(e: Entry, peer: Address)
    requires WellFormed(peer) && Readable(e)
  {
    var parsed := ParseCidr(e, false);
    parsed.Accepted? && Contains(parsed.network, peer)
  }

  // ---------- what acceptance means ----------

  /** No host bits, which for an IPv6 prefix of 0 nobody has looked at. */
  ghost predicate Strict(n: Network) {
    && WellShaped(n)
    && match n
       case Exact(a) => true
       case V4(net, prefix) => prefix <= 32 && net[prefix..] == Zeros(32 - prefix)
       case V6(net, prefix) => prefix <= 128 && (prefix == 0 || net[prefix..] == Zeros(128 - prefix))
  }

  lemma V4AcceptedExactly(net: Bits, prefix: nat)
    requires |net| == 32 && prefix < 256
    ensures ParseCidr(WithPrefix(Some(V4Address(net)), Some(prefix)), false)
            == if Strict(V4(net, prefix)) then Accepted(V4(net, prefix)) else Rejected
  {
    if prefix <= 32 {
      var host := 32 - prefix;
      var mask := if host == 32 then Ones(32) else LowOnes(32, host);
      assert forall i :: 0 <= i < 32 ==> mask[i] == (i >= prefix);
      if And(net, mask) == Zeros(32) {
        forall i | 0 <= i < host ensures net[prefix..][i] == Zeros(host)[i] {
          assert And(net, mask)[prefix + i] == net[prefix + i];
        }
      } else {
        var i :| 0 <= i < 32 && And(net, mask)[i] != Zeros(32)[i];
        assert net[prefix..][i - prefix] != Zeros(host)[i - prefix];
      }
    }
  }

  lemma V6AcceptedExactly(net: Bits, prefix: nat)
    requires |net| == 128 && prefix < 256
    ensures ParseCidr(WithPrefix(Some(V6Address(net)), Some(prefix)), false)
            == if Strict(V6(net, prefix)) then Accepted(V6(net, prefix)) else Rejected
  {
    if 1 <= prefix <= 128 {
      var host := 128 - prefix;
      var cleared := ShiftLeft(ShiftRight(net, host), host);
      assert cleared == net[..prefix] + Zeros(host);
      assert net == net[..prefix] + net[prefix..];
      if net == cleared {
        assert net[prefix..] == cleared[prefix..] == Zeros(host);
      }
    }
  }

  lemma AcceptedIsStrict(e: Entry, overflowChecks: bool)
    requires Readable(e) && ParseCidr(e, overflowChecks).Accepted?
    ensures Strict(ParseCidr(e, overflowChecks).network)
    ensures ParseCidr(e, overflowChecks) == ParseCidr(e, false)
  {
    hide And, ShiftLeft, ShiftRight;
    match e {
      case WithPrefix(Some(V4Address(net)), Some(prefix)) => V4AcceptedExactly(net, prefix);
      case WithPrefix(Some(V6Address(net)), Some(prefix)) => V6AcceptedExactly(net, prefix);
      case _ =>
    }
  }

  // ---------- what a network contains ----------

  /** Membership by section 3.1 of RFC 4632 and section 2.3 of RFC 4291: the leading bits agree. */
  ghost predicate InBlock(n: Network, ip: Address)
    requires WellFormed(ip) && Strict(n)
  {
    match n
    case Exact(a) => a == ip
    case V4(net, prefix) => ip.V4Address? && ip.bits[..prefix] == net[..prefix]
    case V6(net, prefix) => ip.V6Address? && ip.bits[..prefix] == net[..prefix]
  }

  lemma MaskKeepsPrefix(a: Bits, b: Bits, width: nat, prefix: nat)
    requires |a| == |b| == width && prefix <= width
    ensures And(a, Mask(width, prefix)) == And(b, Mask(width, prefix)) <==> a[..prefix] == b[..prefix]
  {
    var mask := Mask(width, prefix);
    assert forall i :: 0 <= i < width ==> mask[i] == (i < prefix);
    if a[..prefix] == b[..prefix] {
      forall i | 0 <= i < width ensures And(a, mask)[i] == And(b, mask)[i] {
        if i < prefix { assert a[i] == a[..prefix][i] == b[..prefix][i]; }
      }
    } else {
      var i :| 0 <= i < prefix && a[..prefix][i] != b[..prefix][i];
      assert And(a, mask)[i] != And(b, mask)[i];
    }
  }

  lemma ContainsExactly(n: Network, ip: Address)
    requires WellFormed(ip) && Strict(n)
    ensures Contains(n, ip) <==> InBlock(n, ip)
  {
    hide And, Mask;
    match n {
      case V4(net, prefix) => if ip.V4Address? { MaskKeepsPrefix(ip.bits, net, 32, prefix); }
      case V6(net, prefix) => if ip.V6Address? { MaskKeepsPrefix(ip.bits, net, 128, prefix); }
      case Exact(_) =>
    }
  }

  // ---------- the lattice of networks ----------

  ghost predicate Inside(a: Network, b: Network)
    requires Strict(a) && Strict(b)
  {
    forall ip | WellFormed(ip) :: Contains(a, ip) ==> Contains(b, ip)
  }

  ghost predicate Disjoint(a: Network, b: Network)
    requires Strict(a) && Strict(b)
  {
    forall ip | WellFormed(ip) :: !(Contains(a, ip) && Contains(b, ip))
  }

  predicate Wider(a: Network, b: Network) {
    !a.Exact? && !b.Exact? && a.V4? == b.V4? && a.prefix <= b.prefix
  }

  lemma SharedPrefix(x: Bits, a: Bits, b: Bits, p: nat, q: nat)
    requires p <= q <= |b| && q <= |x| && p <= |a|
    requires x[..p] == a[..p] && x[..q] == b[..q]
    ensures b[..p] == a[..p]
  {
    assert b[..q][..p] == b[..p] && x[..q][..p] == x[..p];
  }

  /** Two blocks of one family either do not meet or the narrower lies in the wider. */
  lemma NestedOrDisjoint(a: Network, b: Network)
    requires Strict(a) && Strict(b) && Wider(a, b)
    ensures Inside(b, a) || Disjoint(a, b)
  {
    hide Contains;
    if b.net[..a.prefix] == a.net[..a.prefix] {
      forall ip | WellFormed(ip) && Contains(b, ip) ensures Contains(a, ip) {
        ContainsExactly(a, ip);
        ContainsExactly(b, ip);
        assert ip.bits[..b.prefix][..a.prefix] == ip.bits[..a.prefix];
        assert b.net[..b.prefix][..a.prefix] == b.net[..a.prefix];
      }
    } else {
      forall ip | WellFormed(ip) ensures !(Contains(a, ip) && Contains(b, ip)) {
        ContainsExactly(a, ip);
        ContainsExactly(b, ip);
        if InBlock(a, ip) && InBlock(b, ip) {
          SharedPrefix(ip.bits, a.net, b.net, a.prefix, b.prefix);
        }
      }
    }
  }

  function Host(n: Network): Address
    requires !n.Exact?
  {
    if n.V4? then V4Address(n.net) else V6Address(n.net)
  }

  /** A strictly wider block holds an address that the narrower one does not. */
  lemma WiderHasMore(a: Network, b: Network) returns (ip: Address)
    requires Strict(a) && Strict(b) && Wider(a, b) && a.prefix < b.prefix && Inside(b, a)
    ensures WellFormed(ip) && Contains(a, ip) && !Contains(b, ip)
  {
    hide Contains;
    var p := a.prefix;
    var bits := b.net[p := !b.net[p]];
    ip := if a.V4? then V4Address(bits) else V6Address(bits);
    ContainsExactly(b, Host(b));
    ContainsExactly(a, Host(b));
    ContainsExactly(a, ip);
    ContainsExactly(b, ip);
    assert bits[..p] == b.net[..p];
    assert bits[..b.prefix][p] != b.net[..b.prefix][p];
  }

  /** Accepted blocks of one family with the same addresses are the same entry; an IPv6 prefix of 0 is excepted. */
  lemma SameSetSameNetwork(a: Network, b: Network)
    requires Strict(a) && Strict(b) && !a.Exact? && !b.Exact? && a.V4? == b.V4?
    requires a.V6? ==> a.prefix >= 1 && b.prefix >= 1
    ensures Inside(a, b) && Inside(b, a) <==> a == b
  {
    if Inside(a, b) && Inside(b, a) {
      if a.prefix < b.prefix {
        var ip := WiderHasMore(a, b);
        assert false;
      }
      if b.prefix < a.prefix {
        var ip := WiderHasMore(b, a);
        assert false;
      }
      ContainsExactly(a, Host(a));
      ContainsExactly(b, Host(a));
      assert a.net == a.net[..a.prefix] + a.net[a.prefix..];
      assert b.net == b.net[..b.prefix] + b.net[b.prefix..];
    }
  }

  /** Without overflow checks every IPv6 address is accepted with prefix 0, and they all mean everything. */
  lemma V6PrefixZero(net: Bits, ip: Address)
    requires |net| == 128 && WellFormed(ip)
    ensures ParseCidr(WithPrefix(Some(V6Address(net)), Some(0)), true) == Panicked
    ensures ParseCidr(WithPrefix(Some(V6Address(net)), Some(0)), false) == Accepted(V6(net, 0))
    ensures Contains(V6(net, 0), ip) <==> ip.V6Address?
  {
    ContainsExactly(V6(net, 0), ip);
  }

  /** The allowlist is the union of its readable entries' blocks; nothing else lets a client in. */
  lemma AllowedExactly(peer: Address, allowlist: seq<Entry>)
    requires WellFormed(peer) && forall e :: e in allowlist ==> Readable(e)
    ensures ClientAllowed(peer, allowlist) <==>
            (allowlist == [] || exists e :: e in allowlist && InEntry(e, peer))
  {
    hide Contains, And, ShiftLeft, ShiftRight;
    forall e | e in allowlist ensures Admits(e, peer) <==> InEntry(e, peer) {
      if ParseCidr(e, false).Accepted? {
        AcceptedIsStrict(e, false);
        ContainsExactly(ParseCidr(e, false).network, peer);
      }
      match e {
        case WithPrefix(Some(V4Address(net)), Some(prefix)) => V4AcceptedExactly(net, prefix);
        case WithPrefix(Some(V6Address(net)), Some(prefix)) => V6AcceptedExactly(net, prefix);
        case _ =>
      }
    }
  }

  /** An entry by its text alone: a bare address, or a block without host bits. */
  ghost predicate InEntry(e: Entry, peer: Address)
    requires Readable(e) && WellFormed(peer)
  {
    match e
    case Bare(Some(a)) => a == peer
    case WithPrefix(Some(V4Address(net)), Some(prefix)) => Strict(V4(net, prefix)) && InBlock(V4(net, prefix), peer)
    case WithPrefix(Some(V6Address(net)), Some(prefix)) => Strict(V6(net, prefix)) && InBlock(V6(net, prefix), peer)
    case _ => false
  }

  // ---------- both builds ----------

  datatype Decision = Allowed | Denied | Panic

  /** The entries are looked at in order until one admits the client, or one panics. */
  function Scanned(peer: Address, allowlist: seq<Entry>, overflowChecks: bool): Decision
    requires WellFormed(peer) && forall e :: e in allowlist ==> Readable(e)
  {
    if allowlist == [] then Denied
    else
      match ParseCidr(allowlist[0], overflowChecks)
      case Panicked => Panic
      case Accepted(network) => if Contains(network, peer) then Allowed
          else Scanned(peer, allowlist[1..], overflowChecks)
      case Rejected => Scanned(peer, allowlist[1..], overflowChecks)
  }

  function Decide(peer: Address, allowlist: seq<Entry>, overflowChecks: bool): Decision
    requires WellFormed(peer) && forall e :: e in allowlist ==> Readable(e)
  {
    if allowlist == [] then Allowed else Scanned(peer, allowlist, overflowChecks)
  }

  /** An IPv6 address with prefix 0. */
  predicate AllOfV6(e: Entry) {
    e.WithPrefix? && e.address.Some? && e.address.value.V6Address? && e.prefix == Some(0)
  }

  lemma EntryScanned(e: Entry, peer: Address, overflowChecks: bool)
    requires WellFormed(peer) && Readable(e)
    ensures ParseCidr(e, overflowChecks) == Panicked <==> overflowChecks && AllOfV6(e)
    ensures ParseCidr(e, overflowChecks) != Panicked ==>
              (InEntry(e, peer) <==>
               ParseCidr(e, overflowChecks).Accepted? && Contains(ParseCidr(e, overflowChecks).network, peer))
  {
    hide Contains, And, ShiftLeft, ShiftRight;
    if ParseCidr(e, overflowChecks).Accepted? {
      AcceptedIsStrict(e, overflowChecks);
      ContainsExactly(ParseCidr(e, overflowChecks).network, peer);
    }
    match e {
      case WithPrefix(Some(V4Address(net)), Some(prefix)) => V4AcceptedExactly(net, prefix);
      case WithPrefix(Some(V6Address(net)), Some(prefix)) => V6AcceptedExactly(net, prefix);
      case _ =>
    }
  }

  ghost predicate Decisive(e: Entry, peer: Address, overflowChecks: bool)
    requires WellFormed(peer) && Readable(e)
  {
    InEntry(e, peer) || (overflowChecks && AllOfV6(e))
  }

  /** The first entry that admits the client or panics. */
  ghost function FirstDecisive(peer: Address, allowlist: seq<Entry>, overflowChecks: bool): (n: nat)
    requires WellFormed(peer) && forall e :: e in allowlist ==> Readable(e)
    ensures n <= |allowlist| && (n < |allowlist| ==> Decisive(allowlist[n], peer, overflowChecks))
    ensures forall i :: 0 <= i < n ==> !Decisive(allowlist[i], peer, overflowChecks)
  {
    if allowlist == [] || Decisive(allowlist[0], peer, overflowChecks) then 0
    else 1 + FirstDecisive(peer, allowlist[1..], overflowChecks)
  }

  /**
   * In either build the first decisive entry decides: it panics if it is an IPv6 prefix of 0 and
   * overflow is checked, and else admits.
   */
  lemma {:induction false} DecidedExactly(peer: Address, allowlist: seq<Entry>, overflowChecks: bool)
    requires WellFormed(peer) && forall e :: e in allowlist ==> Readable(e)
    ensures var n := FirstDecisive(peer, allowlist, overflowChecks);
            Scanned(peer, allowlist, overflowChecks) ==
            if n == |allowlist| then Denied
            else if overflowChecks && AllOfV6(allowlist[n]) then Panic
            else Allowed
  {
    hide Contains, ParseCidr, InEntry, AllOfV6;
    if allowlist != [] {
      EntryScanned(allowlist[0], peer, overflowChecks);
      DecidedExactly(peer, allowlist[1..], overflowChecks);
    }
  }

  /** Without overflow checks nothing panics, and the decision is the allowlist's. */
  lemma DecidedWithoutChecks(peer: Address, allowlist: seq<Entry>)
    requires WellFormed(peer) && forall e :: e in allowlist ==> Readable(e)
    ensures Decide(peer, allowlist, false) == if ClientAllowed(peer, allowlist) then Allowed else Denied
  {
    var n := FirstDecisive(peer, allowlist, false);
    hide Contains, ParseCidr, InEntry, AllOfV6, ClientAllowed, Scanned;
    AllowedExactly(peer, allowlist);
    DecidedExactly(peer, allowlist, false);
    if n < |allowlist| {
      assert allowlist[n] in allowlist && InEntry(allowlist[n], peer);
    }
    assert forall i :: 0 <= i < n ==> !InEntry(allowlist[i], peer);
  }
}
