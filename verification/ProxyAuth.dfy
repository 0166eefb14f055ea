/**
 The HTTP gateway's Basic credentials: base64 encoding (section 4 of RFC 4648) against an independent
 strict decoder, and the token that a client's header is compared with.
 */
module ProxyAuth {
  import opened Wrappers

  type Bytes = seq<Byte>

  const UPPER: string := "ABCDEFGHIJKLMNOPQRSTUVWXYZ"
  const LOWER: string := "abcdefghijklmnopqrstuvwxyz"
  const OTHER: string := "0123456789+/"
  const TABLE: string := UPPER + LOWER + OTHER

  type Sextet = n: nat | n < 64

  function Char(n: Sextet): char {
    TABLE[n]
  }

  // ---------- encoding ----------

  function Second(chunk: Bytes): (r: nat)
    ensures r < 256
  {
    if |chunk| > 1 then chunk[1] as nat else 0
  }

  function Third(chunk: Bytes): (r: nat)
    ensures r < 256
  {
    if |chunk| > 2 then chunk[2] as nat else 0
  }

  /** One group of at most three bytes; shifts and masks as division and remainder. */
  function Group(chunk: Bytes): (r: string)
    requires 1 <= |chunk| <= 3
    ensures |r| == 4
  {
    var b0, b1, b2 := chunk[0] as nat, Second(chunk), Third(chunk);
    [Char(b0 / 4), Char(b0 % 4 * 16 + b1 / 16),
     if |chunk| > 1 then Char(b1 % 16 * 4 + b2 / 64) else '=',
     if |chunk| > 2 then Char(b2 % 64) else '=']
  }

  function Encoded(data: Bytes): string {
    if data == [] then ""
    else if |data| <= 3 then Group(data)
    else Group(data[..3]) + Encoded(data[3..])
  }

  lemma {:induction false} EncodedAppend(a: Bytes, chunk: Bytes)
    requires |a| % 3 == 0 && 1 <= |chunk| <= 3
    ensures Encoded(a + chunk) == Encoded(a) + Group(chunk)
  {
    hide Group;
    if a == [] {
      assert a + chunk == chunk;
      assert "" + Group(chunk) == Group(chunk);
    } else if |a| == 3 {
      assert (a + chunk)[..3] == a && (a + chunk)[3..] == chunk;
    } else {
      EncodedAppend(a[3..], chunk);
      assert (a + chunk)[..3] == a[..3] && (a + chunk)[3..] == a[3..] + chunk;
      assert Group(a[..3]) + (Encoded(a[3..]) + Group(chunk)) == Group(a[..3]) + Encoded(a[3..]) + Group(chunk);
    }
  }

  method PushGroup(out: string, chunk: Bytes) returns (more: string)
    requires 1 <= |chunk| <= 3
    ensures more == out + Group(chunk)
  {
    hide Char;
    var b0, b1, b2 := chunk[0] as nat, Second(chunk), Third(chunk);
    more := out + [Char(b0 / 4)];
    more := more + [Char(b0 % 4 * 16 + b1 / 16)];
    more := more + [if |chunk| > 1 then Char(b1 % 16 * 4 + b2 / 64) else '='];
    more := more + [if |chunk| > 2 then Char(b2 % 64) else '='];
  }

  method Encode(data: Bytes) returns (out: string)
    ensures out == Encoded(data)
  {
    hide Group, Encoded;
    out := "";
    assert data[..0] == [];
    assert out == Encoded([]) by { NothingEncoded(); }
    var i := 0;
    while i < |data|
      invariant 0 <= i <= |data| && (i < |data| ==> i % 3 == 0)
      invariant out == Encoded(data[..i])
    {
      var next := if i + 3 <= |data| then i + 3 else |data|;
      out := PushGroup(out, data[i..next]);
      EncodedAppend(data[..i], data[i..next]);
      assert data[..i] + data[i..next] == data[..next];
      i := next;
    }
    assert data[..|data|] == data;
  }

  lemma NothingEncoded()
    ensures Encoded([]) == ""
  {
  }

  // ---------- an independent decoder ----------

  /** The value of a letter, by the ranges of the standard's table. */
  function Value(c: char): Option<Sextet> {
    if 'A' <= c <= 'Z' then Some((c - 'A') as nat)
    else if 'a' <= c <= 'z' then Some((c - 'a') as nat + 26)
    else if '0' <= c <= '9' then Some((c - '0') as nat + 52)
    else if c == '+' then Some(62)
    else if c == '/' then Some(63)
    else None
  }

  lemma CharByRange(n: Sextet)
    ensures n < 26 ==> Char(n) as int == 'A' as int + n
    ensures 26 <= n < 52 ==> Char(n) as int == 'a' as int + (n - 26)
    ensures 52 <= n < 62 ==> Char(n) as int == '0' as int + (n - 52)
    ensures Char(62) == '+' && Char(63) == '/'
  {
    UpperByRange(n);
    if 26 <= n < 52 { LowerByRange(n - 26); }
    if 52 <= n { OtherByRange(n - 52); }
  }

  lemma UpperByRange(n: nat)
    ensures n < 26 ==> UPPER[n] as int == 'A' as int + n
  {
  }

  lemma LowerByRange(n: nat)
    ensures n < 26 ==> LOWER[n] as int == 'a' as int + n
  {
  }

  lemma OtherByRange(n: nat)
    ensures n < 10 ==> OTHER[n] as int == '0' as int + n
    ensures OTHER[10] == '+' && OTHER[11] == '/'
  {
  }

  lemma ValueOfChar(n: Sextet)
    ensures Value(Char(n)) == Some(n)
  {
    CharByRange(n);
  }

  lemma CharOfValue(c: char)
    requires Value(c).Some?
    ensures Char(Value(c).value) == c
  {
    CharByRange(Value(c).value);
  }

  /** One group of four letters; unused bits must be zero, so that no two texts mean the same bytes. */
  function DecodedGroup(g: string): Option<Bytes>
    requires |g| == 4
  {
    var v0, v1, v2, v3 := Value(g[0]), Value(g[1]), Value(g[2]), Value(g[3]);
    if v0.None? || v1.None? then None
    else
      var b0 := (v0.value * 4 + v1.value / 16) as Byte;
      if g[2] == '=' then
        if g[3] == '=' && v1.value % 16 == 0 then Some([b0]) else None
      else if v2.None? then None
      else
        var b1 := (v1.value % 16 * 16 + v2.value / 4) as Byte;
        if g[3] == '=' then
          if v2.value % 4 == 0 then Some([b0, b1]) else None
        else if v3.None? then None
        else Some([b0, b1, (v2.value % 4 * 64 + v3.value) as Byte])
  }

  function Decoded(s: string): Option<Bytes> {
    if s == "" then Some([])
    else if |s| < 4 then None
    else
      var first, rest := DecodedGroup(s[..4]), Decoded(s[4..]);
      if first.None? || rest.None? || (|first.value| < 3 && s[4..] != "") then None
      else Some(first.value + rest.value)
  }

  lemma GroupDecodes(chunk: Bytes)
    requires 1 <= |chunk| <= 3
    ensures DecodedGroup(Group(chunk)) == Some(chunk)
  {
    hide Char, Value;
    var b0, b1, b2 := chunk[0] as nat, Second(chunk), Third(chunk);
    var s0, s1, s2, s3 := b0 / 4, b0 % 4 * 16 + b1 / 16, b1 % 16 * 4 + b2 / 64, b2 % 64;
    ValueOfChar(s0);
    ValueOfChar(s1);
    ValueOfChar(s2);
    ValueOfChar(s3);
    NoValue('=');
    assert s0 * 4 + s1 / 16 == b0;
    assert s1 % 16 * 16 + s2 / 4 == b1;
    assert s2 % 4 * 64 + s3 == b2;
    var g := Group(chunk);
    assert Value(g[0]) == Some(s0) && Value(g[1]) == Some(s1);
    if |chunk| == 1 {
      assert chunk == [chunk[0]];
    } else if |chunk| == 2 {
      assert g[2] == Char(s2) && g[2] != '=' && g[3] == '=';
      assert chunk == [chunk[0], chunk[1]];
    } else {
      assert g[2] == Char(s2) && g[2] != '=' && g[3] == Char(s3) && g[3] != '=';
      assert chunk == [chunk[0], chunk[1], chunk[2]];
    }
  }

  lemma NoValue(c: char)
    ensures c == '=' ==> Value(c) == None
  {
  }

  lemma Regrouped(v0: Sextet, v1: Sextet, v2: Sextet, v3: Sextet)
    ensures var b0, b1, b2 := v0 * 4 + v1 / 16, v1 % 16 * 16 + v2 / 4, v2 % 4 * 64 + v3;
            b0 / 4 == v0 && b0 % 4 * 16 + b1 / 16 == v1 && b1 % 16 * 4 + b2 / 64 == v2 && b2 % 64 == v3
  {
  }

  lemma GroupEncodes(g: string)
    requires |g| == 4 && DecodedGroup(g).Some?
    ensures 1 <= |DecodedGroup(g).value| <= 3 && Group(DecodedGroup(g).value) == g
  {
    hide Char, Value;
    CharOfValue(g[0]);
    CharOfValue(g[1]);
    var v0, v1 := Value(g[0]).value, Value(g[1]).value;
    if g[2] == '=' {
      Regrouped(v0, v1, 0, 0);
      assert Group(DecodedGroup(g).value) == g;
    } else {
      CharOfValue(g[2]);
      var v2 := Value(g[2]).value;
      if g[3] == '=' {
        Regrouped(v0, v1, v2, 0);
        assert Group(DecodedGroup(g).value) == g;
      } else {
        CharOfValue(g[3]);
        Regrouped(v0, v1, v2, Value(g[3]).value);
        assert Group(DecodedGroup(g).value) == g;
      }
    }
  }

  /** The strict decoder and the encoder are inverse to each other on everything either of them yields. */
  lemma {:induction false} DecodedExactly(s: string, data: Bytes)
    ensures Decoded(s) == Some(data) <==> s == Encoded(data)
  {
    if s == Encoded(data) { DecodesBack(data); }
    if Decoded(s) == Some(data) { EncodesBack(s); }
  }

  lemma {:induction false} DecodesBack(data: Bytes)
    ensures Decoded(Encoded(data)) == Some(data)
    decreases |data|
  {
    hide DecodedGroup, Group;
    if data != [] {
      var first, rest := if |data| <= 3 then data else data[..3], if |data| <= 3 then [] else data[3..];
      var s := Encoded(data);
      GroupDecodes(first);
      DecodesBack(rest);
      assert first + rest == data;
      assert s == Group(first) + Encoded(rest) && s[..4] == Group(first) && s[4..] == Encoded(rest);
    }
  }

  lemma {:induction false} EncodesBack(s: string)
    requires Decoded(s).Some?
    ensures Encoded(Decoded(s).value) == s
  {
    hide DecodedGroup, Group;
    if s != "" {
      var first, rest := DecodedGroup(s[..4]).value, Decoded(s[4..]).value;
      GroupEncodes(s[..4]);
      EncodesBack(s[4..]);
      if |first| < 3 || rest == [] {
        assert s[4..] == "" && first + rest == first && s[..4] == s;
      } else {
        assert (first + rest)[..3] == first && (first + rest)[3..] == rest;
        assert s[..4] + s[4..] == s;
      }
    }
  }

  lemma Injective(a: Bytes, b: Bytes)
    ensures Encoded(a) == Encoded(b) <==> a == b
  {
    DecodedExactly(Encoded(a), a);
    DecodedExactly(Encoded(b), b);
  }

  function Padding(data: Bytes): nat {
    (3 - |data| % 3) % 3
  }

  /** Length, alphabet, and padding at the end only. */
  lemma {:induction false} Shape(data: Bytes)
    ensures |Encoded(data)| == (|data| + 2) / 3 * 4
    ensures forall i :: 0 <= i < |Encoded(data)| - Padding(data) ==> Value(Encoded(data)[i]).Some?
    ensures forall i :: |Encoded(data)| - Padding(data) <= i < |Encoded(data)| ==> Encoded(data)[i] == '='
    ensures Padding(data) <= |Encoded(data)|
  {
    hide Group, Value;
    if 1 <= |data| <= 3 {
      GroupShape(data);
    } else if data != [] {
      var first, rest := Group(data[..3]), Encoded(data[3..]);
      GroupShape(data[..3]);
      Shape(data[3..]);
      ShapeJoin(first, rest, Padding(data));
    }
  }

  lemma ShapeJoin(first: string, rest: string, pad: nat)
    requires |first| == 4 && pad <= |rest|
    requires forall i :: 0 <= i < 4 ==> Value(first[i]).Some?
    requires forall i :: 0 <= i < |rest| - pad ==> Value(rest[i]).Some?
    requires forall i :: |rest| - pad <= i < |rest| ==> rest[i] == '='
    ensures forall i :: 0 <= i < |first + rest| - pad ==> Value((first + rest)[i]).Some?
    ensures forall i :: |first + rest| - pad <= i < |first + rest| ==> (first + rest)[i] == '='
  {
    hide Value;
  }

  lemma GroupShape(chunk: Bytes)
    requires 1 <= |chunk| <= 3
    ensures forall i :: 0 <= i < 4 - Padding(chunk) ==> Value(Group(chunk)[i]).Some?
    ensures forall i :: 4 - Padding(chunk) <= i < 4 ==> Group(chunk)[i] == '='
  {
    hide Char, Value;
    var b0, b1, b2 := chunk[0] as nat, Second(chunk), Third(chunk);
    ValueOfChar(b0 / 4);
    ValueOfChar(b0 % 4 * 16 + b1 / 16);
    ValueOfChar(b1 % 16 * 4 + b2 / 64);
    ValueOfChar(b2 % 64);
  }

  // ---------- the token in the header ----------

  const COLON: Byte := 58

  function Token(user: Bytes, pass: Bytes): string {
    "Basic " + Encoded(user + [COLON] + pass)
  }

  /** The header check accepts exactly the bytes of user, colon and password. */
  lemma TokenExactly(user: Bytes, pass: Bytes, user': Bytes, pass': Bytes)
    ensures Token(user, pass) == Token(user', pass') <==> user + [COLON] + pass == user' + [COLON] + pass'
  {
    hide Encoded;
    var a, b := Encoded(user + [COLON] + pass), Encoded(user' + [COLON] + pass');
    assert Token(user, pass)[6..] == a && Token(user', pass')[6..] == b;
    Injective(user + [COLON] + pass, user' + [COLON] + pass');
  }

  /** That is equality of user and password if the users have no colon in them. */
  lemma TokenIsCredential(user: Bytes, pass: Bytes, user': Bytes, pass': Bytes)
    requires COLON !in user && COLON !in user'
    ensures Token(user, pass) == Token(user', pass') <==> user == user' && pass == pass'
  {
    hide Token;
    TokenExactly(user, pass, user', pass');
    var a, b := user + [COLON] + pass, user' + [COLON] + pass';
    if a == b {
      assert a[|user|] == COLON && b[|user'|] == COLON;
      assert forall k :: 0 <= k < |user| ==> a[k] != COLON;
      assert forall k :: 0 <= k < |user'| ==> b[k] != COLON;
      assert |user| == |user'|;
      assert a[..|user|] == user && b[..|user'|] == user';
      assert a[|user| + 1..] == pass && b[|user'| + 1..] == pass';
    }
  }

  /**
   * Among users without a colon, the token stands for these credentials only, exactly if the
   * configured user has no colon either.
   */
  lemma TokenIsOwnExactly(user: Bytes, pass: Bytes)
    ensures (forall u, p :: Token(u, p) == Token(user, pass) && COLON !in u ==> u == user && p == pass) <==>
            COLON !in user
  {
    hide Token;
    if COLON in user {
      var i, u, p := SplitAtColon(user, pass);
      assert Token(u, p) == Token(user, pass) && COLON !in u && u != user;
    } else {
      forall u, p | Token(u, p) == Token(user, pass) && COLON !in u ensures u == user && p == pass {
        TokenIsCredential(u, p, user, pass);
      }
    }
  }

  /** And it stands for these credentials among all exactly if there is no colon in the password either. */
  lemma TokenIsUniqueExactly(user: Bytes, pass: Bytes)
    ensures (forall u, p :: Token(u, p) == Token(user, pass) ==> u == user && p == pass) <==>
            COLON !in user && COLON !in pass
  {
    hide Token;
    if COLON in user {
      var i, u, p := SplitAtColon(user, pass);
      assert Token(u, p) == Token(user, pass) && u != user;
    } else if COLON in pass {
      var i :| 0 <= i < |pass| && pass[i] == COLON;
      var u, p := user + [COLON] + pass[..i], pass[i + 1..];
      assert u + [COLON] + p == user + [COLON] + pass;
      TokenExactly(u, p, user, pass);
      assert Token(u, p) == Token(user, pass) && |u| > |user|;
    } else {
      forall u, p | Token(u, p) == Token(user, pass) ensures u == user && p == pass {
        TokenExactly(u, p, user, pass);
        OneColon(user, pass, u, p);
      }
    }
  }

  /** The same bytes with the first colon of the user as the separator. */
  lemma SplitAtColon(user: Bytes, pass: Bytes) returns (i: nat, u: Bytes, p: Bytes)
    requires COLON in user
    ensures i < |user| && u == user[..i] && COLON !in u
    ensures Token(u, p) == Token(user, pass)
  {
    i := 0;
    while user[i] != COLON
      invariant i < |user| && COLON !in user[..i] && COLON in user[i..]
      decreases |user| - i
    {
      assert user[i..] == [user[i]] + user[i + 1..] && user[..i + 1] == user[..i] + [user[i]];
      i := i + 1;
    }
    u, p := user[..i], user[i + 1..] + [COLON] + pass;
    assert u + [COLON] + p == user + [COLON] + pass;
    TokenExactly(u, p, user, pass);
  }

  /** Bytes with one colon are split one way. */
  lemma OneColon(user: Bytes, pass: Bytes, u: Bytes, p: Bytes)
    requires COLON !in user && COLON !in pass && u + [COLON] + p == user + [COLON] + pass
    ensures u == user && p == pass
  {
    var all := user + [COLON] + pass;
    assert (u + [COLON] + p)[|u|] == COLON;
    assert forall k :: 0 <= k < |user| ==> all[k] == user[k];
    assert forall k :: |user| < k < |all| ==> all[k] == pass[k - |user| - 1];
    assert |u| == |user|;
    assert all[..|user|] == user && (u + [COLON] + p)[..|u|] == u;
    assert all[|user| + 1..] == pass && (u + [COLON] + p)[|u| + 1..] == p;
  }

  /** With a colon in the user it is not: "a:" with password "b" and "a" with password ":b". */
  lemma ColonMoves()
    ensures Token([97, COLON], [98]) == Token([97], [COLON, 98])
  {
    hide Token;
    assert [97, COLON] + [COLON] + [98] == [97] + [COLON] + [COLON, 98];
    TokenExactly([97, COLON], [98], [97], [COLON, 98]);
  }
}
