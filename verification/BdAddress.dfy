/**
 Which texts are taken for a device address (service/common/bluetooth/util/address_helper.cpp): the source
 splits at colons, trims, and lets strtol read each piece.
 */
module BdAddress {

  predicate IsHex(c: char) { '0' <= c <= '9' || 'a' <= c <= 'f' || 'A' <= c <= 'F' }

  predicate IsSpace(c: char) { c == ' ' || '\t' <= c <= '\r' }

  // ---------------------------------------------------------------------------------------------
  // As the source goes about it

  /** base::SplitString at colons. */
  function Tokens(s: string): (r: seq<string>)
    ensures |r| >= 1
  {
    if s == "" then [""]
    else
      var rest := Tokens(s[1..]);
      if s[0] == ':' then [""] + rest else [[s[0]] + rest[0]] + rest[1..]
  }

  function TrimLeft(s: string): string { if s != "" && IsSpace(s[0]) then TrimLeft(s[1..]) else s }

  function TrimRight(s: string): string {
    if s != "" && IsSpace(s[|s|-1]) then TrimRight(s[..|s|-1]) else s
  }

  function Trim(s: string): string { TrimRight(TrimLeft(s)) }

  /** What a C routine sees of a text: everything before the first NUL. */
  function Seen(s: string): string { if s == "" || s[0] == '\0' then "" else [s[0]] + Seen(s[1..]) }

  function HexDigits(s: string): nat { if s != "" && IsHex(s[0]) then 1 + HexDigits(s[1..]) else 0 }

  function AfterSign(s: string): string { if s != "" && (s[0] == '+' || s[0] == '-') then s[1..] else s }

  function AfterPrefix(s: string): string {
    if |s| > 2 && s[0] == '0' && (s[1] == 'x' || s[1] == 'X') && IsHex(s[2]) then s[2..] else s
  }

  /** strtol in base 16 stops at the end of what it sees; without a digit it stops where it began. */
  predicate ReadToEnd(token: string) {
    var seen := Seen(token);
    var number := AfterPrefix(AfterSign(TrimLeft(seen)));
    if HexDigits(number) == 0 then seen == "" else HexDigits(number) == |number|
  }

  predicate GoodToken(token: string) { |Trim(token)| == 2 && ReadToEnd(Trim(token)) }

  /** BdAddrFromString. */
  method FromString(address: string) returns (ok: bool)
    ensures ok <==> ValidAddress(address)
  {
    TokensExactly(address);
    if |address| != 17 { return false; }
    var tokens := Tokens(address);
    if |tokens| != 6 { return false; }
    for i := 0 to 6
      invariant forall k :: 0 <= k < i ==> GoodToken(tokens[k])
    {
      var token := Trim(tokens[i]);
      if |token| != 2 || !ReadToEnd(token) { return false; }
    }
    ok := true;
  }

  // ---------------------------------------------------------------------------------------------
  // What that comes to

  /** Two characters that make an octet: hexadecimal, the first perhaps a sign; a NUL ends the number early. */
  predicate IsOctet(x: char, y: char) {
    || ((IsHex(x) || x == '+' || x == '-') && IsHex(y))
    || (IsHex(x) && y == '\0')
    || (x == '\0' && y != ':' && !IsSpace(y))
  }

  /** n octets of two characters each, separated by colons. */
  predicate Octets(s: string, n: nat) {
    && n >= 1 && |s| >= 2 && IsOctet(s[0], s[1])
    && if n == 1 then |s| == 2 else |s| > 2 && s[2] == ':' && Octets(s[3..], n - 1)
  }

  predicate ValidAddress(a: string) { Octets(a, 6) }

  function Total(ts: seq<string>): nat { if ts == [] then 0 else |ts[0]| + Total(ts[1..]) }

  lemma {:induction false} TokensTotal(s: string)
    ensures Total(Tokens(s)) + |Tokens(s)| == |s| + 1
  {
    if s != "" {
      var rest := Tokens(s[1..]);
      TokensTotal(s[1..]);
      if s[0] == ':' {
        assert ([""] + rest)[1..] == rest;
      } else {
        assert ([[s[0]] + rest[0]] + rest[1..])[1..] == rest[1..];
      }
    }
  }

  lemma {:induction false} TrimLeftShortens(s: string)
    ensures |TrimLeft(s)| <= |s| && (|TrimLeft(s)| == |s| ==> TrimLeft(s) == s && (s != "" ==> !IsSpace(s[0])))
  {
    if s != "" { TrimLeftShortens(s[1..]); }
  }

  lemma {:induction false} TrimRightShortens(s: string)
    ensures |TrimRight(s)| <= |s|
    ensures |TrimRight(s)| == |s| ==> TrimRight(s) == s && (s != "" ==> !IsSpace(s[|s|-1]))
  {
    if s != "" { TrimRightShortens(s[..|s|-1]); }
  }

  lemma TrimShortens(s: string)
    ensures |Trim(s)| <= |s|
    ensures |Trim(s)| == |s| <==> s == "" || (!IsSpace(s[0]) && !IsSpace(s[|s|-1]))
    ensures |Trim(s)| == |s| ==> Trim(s) == s
  {
    TrimLeftShortens(s);
    TrimRightShortens(TrimLeft(s));
  }

  /** Good tokens are at least two characters long; so if their total is twice their number, all are. */
  lemma {:induction false} AllTwo(ts: seq<string>)
    requires forall i :: 0 <= i < |ts| ==> GoodToken(ts[i])
    ensures Total(ts) >= 2 * |ts|
    ensures Total(ts) == 2 * |ts| ==> forall i :: 0 <= i < |ts| ==> |ts[i]| == 2
  {
    if ts != [] {
      var rest := ts[1..];
      AllTwo(rest);
      TrimShortens(ts[0]);
      assert forall i :: 1 <= i < |ts| ==> ts[i] == rest[i-1];
    }
  }

  /** A two-character token is good exactly when it makes an octet. */
  lemma GoodTwo(t: string)
    requires |t| == 2 && ':' !in t
    ensures GoodToken(t) <==> IsOctet(t[0], t[1])
  {
    TrimShortens(t);
    var x, y := t[0], t[1];
    assert y in t;
    if |Trim(t)| == 2 {
      assert t[1..][1..] == "" && t[1..] == [y];
      if x == '\0' {
        assert Seen(t) == "";
      } else if y == '\0' {
        assert Seen(t[1..]) == "" && Seen(t) == [x];
        SmallNumber([x]);
      } else {
        assert Seen(t[1..]) == [y] && Seen(t) == [x, y] == t;
        SmallNumber(t);
      }
    }
  }

  /** One or two characters, the first no blank. */
  lemma SmallNumber(t: string)
    requires 1 <= |t| <= 2 && !IsSpace(t[0])
    ensures var number := AfterPrefix(AfterSign(TrimLeft(t)));
            && (HexDigits(number) != 0 && HexDigits(number) == |number| <==>
                  if |t| == 1 then IsHex(t[0]) else (IsHex(t[0]) || t[0] == '+' || t[0] == '-') && IsHex(t[1]))
  {
    assert TrimLeft(t) == t;
    var u := AfterSign(t);
    assert AfterPrefix(u) == u;
    if |u| == 2 { assert u[1..][1..] == ""; }
    if |u| == 1 { assert u[1..] == ""; }
  }

  /** The first token and what follows it. */
  lemma FirstToken(s: string)
    requires |Tokens(s)[0]| == 2
    ensures |s| >= 2 && s[0] != ':' && s[1] != ':' && Tokens(s)[0] == s[..2]
    ensures if |Tokens(s)| == 1 then |s| == 2 else |s| > 2 && s[2] == ':' && Tokens(s)[1..] == Tokens(s[3..])
  {
    assert s != "" && s[0] != ':';
    var t := s[1..];
    assert Tokens(s)[0] == [s[0]] + Tokens(t)[0] && Tokens(s)[1..] == Tokens(t)[1..];
    assert t != "" && t[0] != ':';
    var u := t[1..];
    assert Tokens(t)[0] == [t[0]] + Tokens(u)[0] && Tokens(t)[1..] == Tokens(u)[1..];
    assert Tokens(u)[0] == "";
    if u != "" {
      assert u[0] == ':' && u[1..] == s[3..];
      assert Tokens(u) == [""] + Tokens(u[1..]);
    }
  }

  lemma TwoThenMore(s: string)
    requires |s| >= 2 && s[0] != ':' && s[1] != ':' && (|s| == 2 || s[2] == ':')
    ensures |s| == 2 ==> Tokens(s) == [s]
    ensures |s| > 2 ==> Tokens(s) == [s[..2]] + Tokens(s[3..])
  {
    var t := s[1..];
    var u := t[1..];
    assert Tokens(t) == [[t[0]] + Tokens(u)[0]] + Tokens(u)[1..];
    assert Tokens(s) == [[s[0]] + Tokens(t)[0]] + Tokens(t)[1..];
    assert [s[0]] + ([t[0]] + "") == s[..2];
    if u == "" {
      assert Tokens(u) == [""] && s[..2] == s;
    } else {
      assert u[0] == ':' && u[1..] == s[3..];
      assert Tokens(u) == [""] + Tokens(s[3..]);
      assert Tokens(u)[1..] == Tokens(s[3..]);
    }
  }

  predicate AllOctets(ts: seq<string>) { forall i :: 0 <= i < |ts| ==> |ts[i]| == 2 && GoodToken(ts[i]) }

  lemma {:induction false} TokensMakeOctets(s: string, n: nat)
    requires n >= 1 && |Tokens(s)| == n && AllOctets(Tokens(s))
    ensures Octets(s, n)
    decreases n
  {
    var ts := Tokens(s);
    assert |ts[0]| == 2 && GoodToken(ts[0]);
    FirstToken(s);
    assert s[..2][0] == s[0] && s[..2][1] == s[1];
    GoodTwo(s[..2]);
    if n > 1 {
      assert ts[1..] == Tokens(s[3..]);
      TokensMakeOctets(s[3..], n - 1);
    }
  }

  lemma {:induction false} OctetsMakeTokens(s: string, n: nat)
    requires Octets(s, n)
    ensures |Tokens(s)| == n && AllOctets(Tokens(s))
    decreases n
  {
    TwoThenMore(s);
    assert s[..2][0] == s[0] && s[..2][1] == s[1];
    GoodTwo(s[..2]);
    if n == 1 {
      assert s[..2] == s;
    } else {
      OctetsMakeTokens(s[3..], n - 1);
    }
  }

  /** The tokens pass if and only if the text is six octets separated by colons: with seventeen characters there
      is no room for anything that trimming would forgive. */
  lemma TokensExactly(a: string)
    ensures ValidAddress(a) <==>
              |a| == 17 && |Tokens(a)| == 6 && forall k :: 0 <= k < 6 ==> GoodToken(Tokens(a)[k])
  {
    var ts := Tokens(a);
    TokensTotal(a);
    if |a| == 17 && |ts| == 6 && forall k :: 0 <= k < 6 ==> GoodToken(ts[k]) {
      AllTwo(ts);
      TokensMakeOctets(a, 6);
    }
    if ValidAddress(a) {
      OctetsMakeTokens(a, 6);
      TwoEach(ts);
    }
  }

  lemma {:induction false} TwoEach(ts: seq<string>)
    requires AllOctets(ts)
    ensures Total(ts) == 2 * |ts|
  {
    if ts != [] { TwoEach(ts[1..]); }
  }
}
