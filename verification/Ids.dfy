/** UUIDs and the checkout id derived from a basket. */
module Ids {
  import opened Calls

  function Pow16(n: nat): (p: nat)
    ensures p > 0
  {
    if n == 0 then 1 else 16 * Pow16(n - 1)
  }

  const HEX_DIGITS := 32

  type Uuid = u: nat | u < Pow16(HEX_DIGITS)

  const NIL: Uuid := 0

  function HexDigit(d: int): (c: char)
    requires 0 <= d < 16
    ensures c != '-'
  {
    "0123456789abcdef"[d]
  }

  function Hex(u: nat, digits: nat): (s: string)
    ensures |s| == digits && '-' !in s
  {
    if digits == 0 then "" else Hex(u / 16, digits - 1) + [HexDigit(u % 16)]
  }

  /** The canonical text of section 3 of RFC 4122: hex digits in groups of 8, 4, 4, 4 and 12. */
  function Canonical(u: Uuid): string {
    var h := Hex(u, HEX_DIGITS);
    h[..8] + "-" + h[8..12] + "-" + h[12..16] + "-" + h[16..20] + "-" + h[20..]
  }

  function WithoutDashes(s: string): string {
    if s == "" then "" else (if s[0] == '-' then "" else [s[0]]) + WithoutDashes(s[1..])
  }

  /** The name a checkout's id is derived from: the user, a colon, the basket version without dashes. */
  function CheckoutName(userName: string, version: Uuid): string {
    userName + ":" + WithoutDashes(Canonical(version))
  }

  /** A checkout's message id: the name-based UUID (section 4.3 of RFC 4122) of its name. The hash is a
   *  parameter; where two names must not share an id, that is said in so many words. */
  function CheckoutId(hash: string -> Uuid, userName: string, version: Uuid): Uuid {
    hash(CheckoutName(userName, version))
  }

  lemma {:induction false} WithoutDashesOfConcat(a: string, b: string)
    ensures WithoutDashes(a + b) == WithoutDashes(a) + WithoutDashes(b)
  {
    if a == "" {
      assert a + b == b;
    } else {
      assert (a + b)[1..] == a[1..] + b;
      WithoutDashesOfConcat(a[1..], b);
    }
  }

  lemma {:induction false} WithoutDashesOfDigits(s: string)
    requires '-' !in s
    ensures WithoutDashes(s) == s
  {
    if s != "" { WithoutDashesOfDigits(s[1..]); }
  }

  lemma {:induction false} DashDropped(a: string, b: string)
    requires '-' !in b
    ensures WithoutDashes(a + "-" + b) == WithoutDashes(a) + b
  {
    assert WithoutDashes("-") == "" by { assert "-"[1..] == ""; }
    hide WithoutDashes;
    WithoutDashesOfDigits(b);
    WithoutDashesOfConcat(a + "-", b);
    WithoutDashesOfConcat(a, "-");
  }

  lemma {:induction false} VersionPart(u: Uuid)
    ensures WithoutDashes(Canonical(u)) == Hex(u, HEX_DIGITS)
  {
    Regrouped(Hex(u, HEX_DIGITS));
    hide Hex, WithoutDashes;
  }

  lemma {:induction false} Regrouped(h: string)
    requires |h| == HEX_DIGITS && '-' !in h
    ensures WithoutDashes(h[..8] + "-" + h[8..12] + "-" + h[12..16] + "-" + h[16..20] + "-" + h[20..]) == h
  {
    var a, b, c, d, e := h[..8], h[8..12], h[12..16], h[16..20], h[20..];
    WithoutDashesOfDigits(a);
    hide WithoutDashes;
    DashDropped(a, b);
    DashDropped(a + "-" + b, c);
    DashDropped(a + "-" + b + "-" + c, d);
    DashDropped(a + "-" + b + "-" + c + "-" + d, e);
    assert a + b == h[..12];
    assert h[..12] + c == h[..16];
    assert h[..16] + d == h[..20];
    assert h[..20] + e == h;
  }

  lemma {:induction false} HexDigitIsInjective(d: int, e: int)
    requires 0 <= d < 16 && 0 <= e < 16 && HexDigit(d) == HexDigit(e)
    ensures d == e
  {
  }

  lemma {:induction false} HexIsInjective(u: nat, v: nat, digits: nat)
    requires u < Pow16(digits) && v < Pow16(digits) && Hex(u, digits) == Hex(v, digits)
    ensures u == v
  {
    if digits > 0 {
      var a, b := Hex(u, digits), Hex(v, digits);
      assert a[..digits - 1] == Hex(u / 16, digits - 1) && b[..digits - 1] == Hex(v / 16, digits - 1);
      assert a[digits - 1] == HexDigit(u % 16) && b[digits - 1] == HexDigit(v % 16);
      HexDigitIsInjective(u % 16, v % 16);
      HexIsInjective(u / 16, v / 16, digits - 1);
    }
  }

  /** Two checkouts have one name exactly when they are of the same basket of the same user: the version
   *  part always has 32 characters, so a colon in a user name cannot shift it. */
  lemma {:induction false} CheckoutNameIsInjective(a: string, v: Uuid, b: string, w: Uuid)
    ensures CheckoutName(a, v) == CheckoutName(b, w) <==> a == b && v == w
    ensures CheckoutName(a, v) == a + ":" + Hex(v, 32)
  {
    VersionPart(v);
    VersionPart(w);
    var x, y := Hex(v, HEX_DIGITS), Hex(w, HEX_DIGITS);
    var m, n := a + ":" + x, b + ":" + y;
    hide Hex, WithoutDashes, Canonical;
    if m == n {
      assert |m| == |a| + 33 && |n| == |b| + 33;
      assert a == m[..|a|] && b == n[..|b|];
      assert x == m[|a| + 1..] && y == n[|b| + 1..];
      HexIsInjective(v, w, HEX_DIGITS);
    }
  }

  // Reading a UUID back.

  function HexValue(c: char): (v: Option<int>)
    ensures v.Some? ==> 0 <= v.value < 16
  {
    if '0' <= c <= '9' then Some(c as int - '0' as int)
    else if 'a' <= c <= 'f' then Some(c as int - 'a' as int + 10)
    else if 'A' <= c <= 'F' then Some(c as int - 'A' as int + 10)
    else None
  }

  function Unhex(s: string): (v: Option<nat>)
    ensures v.Some? ==> v.value < Pow16(|s|)
  {
    if s == "" then Some(0)
    else
      var last, init := HexValue(s[|s| - 1]), Unhex(s[..|s| - 1]);
      if last.None? || init.None? then None else Some(16 * init.value + last.value)
  }

  /** Reads the canonical text, in either case of the hex digits. */
  function Parse(s: string): Option<Uuid> {
    if |s| != 36 || s[8] != '-' || s[13] != '-' || s[18] != '-' || s[23] != '-' then None
    else
      var digits := s[..8] + s[9..13] + s[14..18] + s[19..23] + s[24..];
      assert |digits| == HEX_DIGITS;
      var v := Unhex(digits);
      if v.None? then None else Some(v.value)
  }

  lemma {:induction false} HexValueOfDigit(d: int)
    requires 0 <= d < 16
    ensures HexValue(HexDigit(d)) == Some(d)
  {
  }

  lemma {:induction false} UnhexOfAppend(s: string, c: char)
    requires Unhex(s).Some? && HexValue(c).Some?
    ensures Unhex(s + [c]) == Some(16 * Unhex(s).value + HexValue(c).value)
  {
    assert (s + [c])[..|s|] == s;
    hide HexValue, Pow16;
  }

  lemma {:induction false} HexOfMore(u: nat, digits: nat)
    requires digits > 0 && u < Pow16(digits)
    ensures u / 16 < Pow16(digits - 1) && u == 16 * (u / 16) + u % 16
    ensures Hex(u, digits) == Hex(u / 16, digits - 1) + [HexDigit(u % 16)]
  {
    hide HexDigit;
  }

  lemma {:induction false} UnhexOfHex(u: nat, digits: nat)
    requires u < Pow16(digits)
    ensures Unhex(Hex(u, digits)) == Some(u)
  {
    if digits > 0 {
      hide Hex, HexValue, HexDigit, Unhex, Pow16;
      HexOfMore(u, digits);
      UnhexOfHex(u / 16, digits - 1);
      HexValueOfDigit(u % 16);
      UnhexOfAppend(Hex(u / 16, digits - 1), HexDigit(u % 16));
    }
  }

  lemma {:induction false} JoinedParts(p: string, q: string)
    ensures var s := p + "-" + q; s[..|p|] == p && s[|p|] == '-' && s[|p| + 1..] == q
  {
  }

  lemma {:induction false} SliceOfPrefix(s: string, n: nat, i: nat, j: nat)
    requires i <= j <= n <= |s|
    ensures s[..n][i..j] == s[i..j]
  {
  }

  lemma {:induction false} PartsOfGrouped(a: string, b: string, c: string, d: string, e: string)
    requires |a| == 8 && |b| == |c| == |d| == 4 && |e| == 12
    ensures var s := a + "-" + b + "-" + c + "-" + d + "-" + e;
            && |s| == 36 && s[8] == s[13] == s[18] == s[23] == '-'
            && s[..8] == a && s[9..13] == b && s[14..18] == c && s[19..23] == d && s[24..] == e
  {
    var p := a + "-" + b;
    var q := p + "-" + c;
    var r := q + "-" + d;
    var s := r + "-" + e;
    JoinedParts(a, b);
    JoinedParts(p, c);
    JoinedParts(q, d);
    JoinedParts(r, e);
    assert r == s[..23] && q == r[..18] && p == q[..13];
    assert q == s[..18] by { SliceOfPrefix(s, 23, 0, 18); }
    assert p == s[..13] by { SliceOfPrefix(s, 18, 0, 13); }
    SliceOfPrefix(s, 13, 0, 8);
    SliceOfPrefix(s, 13, 9, 13);
    SliceOfPrefix(s, 18, 14, 18);
    SliceOfPrefix(s, 23, 19, 23);
  }

  lemma {:induction false} ParseOfCanonical(u: Uuid)
    ensures Parse(Canonical(u)) == Some(u)
  {
    var h := Hex(u, HEX_DIGITS);
    UnhexOfHex(u, HEX_DIGITS);
    PartsOfGrouped(h[..8], h[8..12], h[12..16], h[16..20], h[20..]);
    hide Hex, Unhex;
    assert h[..8] + h[8..12] + h[12..16] + h[16..20] + h[20..] == h;
  }
}
