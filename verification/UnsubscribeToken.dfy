/**
 The unsubscribe token: a user id in decimal, a dot, and a MAC of that text
 (internal/auth/unsubscribe.go). The MAC is any function of secret and text.
 */
module UnsubscribeToken {
  import opened Basics

  type Mac = (string, string) -> string

  const MIN_INT64: int := -0x8000_0000_0000_0000
  const MAX_INT64: int := 0x7fff_ffff_ffff_ffff

  predicate IsInt64(n: int) {
    MIN_INT64 <= n <= MAX_INT64
  }

  predicate IsDigit(c: char) {
    '0' <= c <= '9'
  }

  function DigitChar(d: nat): char
    requires d < 10
  {
    '0' + d as char
  }

  function DigitValue(c: char): nat
    requires IsDigit(c)
  {
    (c - '0') as nat
  }

  // ---- strconv.FormatInt and strconv.ParseInt, base 10 ----

  function FormatNat(n: nat): (s: string)
    ensures s != "" && AllDigits(s)
  {
    if n < 10 then [DigitChar(n)] else FormatNat(n / 10) + [DigitChar(n % 10)]
  }

  function FormatInt(n: int): string {
    if n < 0 then "-" + FormatNat(-n) else FormatNat(n)
  }

  predicate AllDigits(s: string) {
    forall i :: 0 <= i < |s| ==> IsDigit(s[i])
  }

  function NatOf(s: string): nat
    requires AllDigits(s)
  {
    if s == "" then 0 else 10 * NatOf(s[..|s| - 1]) + DigitValue(s[|s| - 1])
  }

  /** A sign is optional; there must be a digit, and nothing but digits; the value must fit in 64 bits. */
  function ParseInt(s: string): Option<int> {
    var signed := s != "" && (s[0] == '+' || s[0] == '-');
    var digits := if signed then s[1..] else s;
    if digits == "" || !AllDigits(digits) then None
    else
      var n: int := if signed && s[0] == '-' then 0 - NatOf(digits) else NatOf(digits);
      if IsInt64(n) then Some(n) else None
  }

  // ---- printing and parsing a token ----

  function Token(mac: Mac, secret: string, userId: int): string {
    FormatInt(userId) + "." + mac(secret, FormatInt(userId))
  }

  datatype Halves = Halves(before: string, after: string)

  /** strings.Cut at the first dot. */
  function Cut(s: string): Option<Halves> {
    if s == "" then None
    else if s[0] == '.' then Some(Halves("", s[1..]))
    else match Cut(s[1..])
         case Some(h) => Some(Halves([s[0]] + h.before, h.after))
         case None => None
  }

  function ParseToken(mac: Mac, secret: string, token: string): Option<int> {
    match Cut(token)
    case None => None
    case Some(h) => if h.after == mac(secret, h.before) then ParseInt(h.before) else None
  }

  // ---- what they promise ----

  lemma {:induction false} CutAtFirstDot(id: string, rest: string)
    requires '.' !in id
    ensures Cut(id + "." + rest) == Some(Halves(id, rest))
  {
    var s := id + "." + rest;
    if id == "" {
      assert s[1..] == rest;
    } else {
      CutAtFirstDot(id[1..], rest);
      assert s[1..] == id[1..] + "." + rest;
      assert [id[0]] + id[1..] == id;
    }
  }

  lemma {:induction false} CutRejoins(s: string)
    ensures Cut(s).None? ==> '.' !in s
    ensures Cut(s).Some? ==> '.' !in Cut(s).value.before && s == Cut(s).value.before + "." + Cut(s).value.after
  {
    if s != "" && s[0] != '.' {
      CutRejoins(s[1..]);
      assert s == [s[0]] + s[1..];
    }
  }

  lemma {:induction false} NatRoundTrip(n: nat)
    ensures NatOf(FormatNat(n)) == n
  {
    if n >= 10 {
      NatRoundTrip(n / 10);
      assert FormatNat(n)[..|FormatNat(n)| - 1] == FormatNat(n / 10);
    }
  }

  lemma DigitsParsed(d: string)
    requires d != "" && AllDigits(d)
    ensures ParseInt(d) == if IsInt64(NatOf(d)) then Some(NatOf(d)) else None
    ensures ParseInt("-" + d) == if IsInt64(0 - NatOf(d)) then Some(0 - NatOf(d)) else None
    ensures '.' !in d
  {
    assert IsDigit(d[0]);
    assert ("-" + d)[1..] == d;
    forall c | c in d ensures c != '.' {
      var i :| 0 <= i < |d| && d[i] == c;
      assert IsDigit(d[i]);
    }
  }

  lemma IntRoundTrip(n: int)
    requires IsInt64(n)
    ensures ParseInt(FormatInt(n)) == Some(n) && '.' !in FormatInt(n)
  {
    var m: nat := if n < 0 then 0 - n else n;
    NatRoundTrip(m);
    DigitsParsed(FormatNat(m));
  }

  /** Every token printed for a 64-bit id, extremes included, is accepted and names that id, under any secret and any MAC. */
  lemma TokenRoundTrip(mac: Mac, secret: string, userId: int)
    requires IsInt64(userId)
    ensures ParseToken(mac, secret, Token(mac, secret, userId)) == Some(userId)
  {
    IntRoundTrip(userId);
    CutAtFirstDot(FormatInt(userId), mac(secret, FormatInt(userId)));
  }

  /** Different ids never share a token, even between secrets. */
  lemma TokensAreDistinct(mac: Mac, secret: string, secret': string, a: int, b: int)
    requires IsInt64(a) && IsInt64(b) && Token(mac, secret, a) == Token(mac, secret', b)
    ensures a == b
  {
    IntRoundTrip(a);
    IntRoundTrip(b);
    CutAtFirstDot(FormatInt(a), mac(secret, FormatInt(a)));
    CutAtFirstDot(FormatInt(b), mac(secret', FormatInt(b)));
  }

  /** A token is accepted exactly when it is some dot-free spelling of the id followed by a dot and the MAC of that spelling. */
  lemma AcceptedExactly(mac: Mac, secret: string, token: string, userId: int)
    ensures ParseToken(mac, secret, token) == Some(userId)
       <==> exists id :: Spells(id, userId) && token == id + "." + mac(secret, id)
  {
    CutRejoins(token);
    if ParseToken(mac, secret, token) == Some(userId) {
      assert Spells(Cut(token).value.before, userId);
    }
    if id :| Spells(id, userId) && token == id + "." + mac(secret, id) {
      CutAtFirstDot(id, mac(secret, id));
    }
  }

  predicate Spells(id: string, userId: int) {
    '.' !in id && ParseInt(id) == Some(userId)
  }
}
