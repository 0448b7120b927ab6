/** Text encodings used for row keys, lookup keys and cache keys. */
module Encoding {
  type Byte = x: nat | x < 256
  type Bytes = seq<Byte>

  const DIGITS: string := "0123456789abcdef"

  /** Lower-case hexadecimal text of a byte string; the empty string for no bytes. */
  function Hex(b: Bytes): string {
    if b == [] then "" else [DIGITS[b[0] / 16], DIGITS[b[0] % 16]] + Hex(b[1..])
  }

  /** Two lower-case digits a byte, the higher first. */
  lemma {:induction false} HexDigits(b: Bytes, i: nat)
    requires i < |b|
    ensures |Hex(b)| == 2 * |b|
    ensures Hex(b)[2 * i] == "0123456789abcdef"[b[i] / 16] && Hex(b)[2 * i + 1] == "0123456789abcdef"[b[i] % 16]
  {
    if i > 0 {
      HexDigits(b[1..], i - 1);
    } else if |b| > 1 {
      HexDigits(b[1..], 0);
    }
  }

  function DigitValue(c: char): nat {
    if '0' <= c <= '9' then c as nat - '0' as nat
    else if 'a' <= c <= 'f' then c as nat - 'a' as nat + 10
    else 0
  }

  /** Reads hexadecimal text back, two characters a byte. */
  function Unhex(s: string): Bytes {
    if |s| < 2 then [] else [(DigitValue(s[0]) * 16 + DigitValue(s[1])) % 256] + Unhex(s[2..])
  }

  lemma DigitsRead(n: nat)
    requires n < 16
    ensures DigitValue(DIGITS[n]) == n
  {
  }

  lemma {:induction false} UnhexHex(b: Bytes)
    ensures Unhex(Hex(b)) == b
  {
    if b != [] {
      UnhexHex(b[1..]);
      assert Hex(b)[2..] == Hex(b[1..]);
      DigitsRead(b[0] / 16);
      DigitsRead(b[0] % 16);
    }
  }

  /** Two byte strings have the same key text only if they are the same bytes. */
  lemma HexInjective(a: Bytes, b: Bytes)
    ensures Hex(a) == Hex(b) <==> a == b
  {
    UnhexHex(a);
    UnhexHex(b);
  }

  /** Only the empty byte string has an empty key. */
  lemma HexEmpty(b: Bytes)
    ensures Hex(b) == "" <==> b == []
  {
  }

  /** Decimal text of a height or an identifier. */
  function Decimal(n: nat): (s: string)
    ensures s != "" && forall c :: c in s ==> '0' <= c <= '9'
  {
    if n < 10 then [DIGITS[n]] else Decimal(n / 10) + [DIGITS[n % 10]]
  }

  predicate IsDigit(c: char) {
    '0' <= c <= '9'
  }

  /** The number read from the leading digits of s, starting from the digits already read. */
  function ScanFrom(s: string, read: nat): nat {
    if s == "" || !IsDigit(s[0]) then read else ScanFrom(s[1..], read * 10 + DigitValue(s[0]))
  }

  lemma {:induction false} ScanAppend(s: string, c: char, read: nat)
    requires IsDigit(c) && forall d :: d in s ==> IsDigit(d)
    ensures ScanFrom(s + [c], read) == ScanFrom(s, read) * 10 + DigitValue(c)
  {
    if s == "" {
      assert (s + [c])[1..] == "";
    } else {
      assert (s + [c])[1..] == s[1..] + [c];
      ScanAppend(s[1..], c, read * 10 + DigitValue(s[0]));
    }
  }

  /** Scanning undoes printing, for every number. */
  lemma {:induction false} ScanDecimal(n: nat)
    ensures ScanFrom(Decimal(n), 0) == n
  {
    if n < 10 {
      assert Decimal(n)[1..] == "";
      assert DigitValue(DIGITS[n]) == n;
    } else {
      ScanDecimal(n / 10);
      ScanAppend(Decimal(n / 10), DIGITS[n % 10], 0);
      assert DigitValue(DIGITS[n % 10]) == n % 10;
    }
  }

  lemma DecimalInjective(m: nat, n: nat)
    ensures Decimal(m) == Decimal(n) <==> m == n
  {
    ScanDecimal(m);
    ScanDecimal(n);
  }

  /** A text splits in one way only at its first separator. */
  lemma SplitFirst(a: string, r: string, b: string, q: string, sep: char)
    requires sep !in a && sep !in b
    requires a + [sep] + r == b + [sep] + q
    ensures a == b && r == q
  {
    var s, t := a + [sep] + r, b + [sep] + q;
    assert s[|a|] == sep && t[|b|] == sep;
    assert forall i :: 0 <= i < |a| ==> s[i] == a[i];
    assert forall i :: 0 <= i < |b| ==> t[i] == b[i];
    assert |a| == |b|;
    assert a == s[..|a|] && b == t[..|b|];
    assert r == s[|a| + 1..] && q == t[|b| + 1..];
  }

  /** A text splits in one way only at its last separator. */
  lemma SplitLast(a: string, r: string, b: string, q: string, sep: char)
    requires sep !in r && sep !in q
    requires a + [sep] + r == b + [sep] + q
    ensures a == b && r == q
  {
    var s, t := a + [sep] + r, b + [sep] + q;
    assert s[|a|] == sep && t[|b|] == sep;
    assert forall i :: |a| < i < |s| ==> s[i] == r[i - |a| - 1];
    assert forall i :: |b| < i < |t| ==> t[i] == q[i - |b| - 1];
    assert |a| == |b|;
    assert a == s[..|a|] && b == t[..|b|];
    assert r == s[|a| + 1..] && q == t[|b| + 1..];
  }

  /** Lookup key of a pool holder. */
  function PoolHolderKey(poolId: nat, address: string): string {
    Decimal(poolId) + [':'] + address
  }

  lemma PoolHolderKeyInjective(p: nat, a: string, q: nat, b: string)
    ensures PoolHolderKey(p, a) == PoolHolderKey(q, b) <==> p == q && a == b
  {
    if PoolHolderKey(p, a) == PoolHolderKey(q, b) {
      SplitFirst(Decimal(p), a, Decimal(q), b, ':');
      DecimalInjective(p, q);
    }
  }

  /** Lookup key of a price pair. */
  function PriceKey(local: nat, remote: nat): string {
    Decimal(local) + ['-'] + Decimal(remote)
  }

  lemma PriceKeyInjective(l: nat, r: nat, m: nat, s: nat)
    ensures PriceKey(l, r) == PriceKey(m, s) <==> l == m && r == s
  {
    if PriceKey(l, r) == PriceKey(m, s) {
      SplitFirst(Decimal(l), Decimal(r), Decimal(m), Decimal(s), '-');
      DecimalInjective(l, m);
      DecimalInjective(r, s);
    }
  }

  /** Key of a cached response. */
  function CacheKey(path: string, height: nat): string {
    path + [':'] + Decimal(height)
  }

  /** The key is unambiguous even for paths that contain colons. */
  lemma CacheKeyInjective(p: string, g: nat, q: string, h: nat)
    ensures CacheKey(p, g) == CacheKey(q, h) <==> p == q && g == h
  {
    if CacheKey(p, g) == CacheKey(q, h) {
      SplitLast(p, Decimal(g), q, Decimal(h), ':');
      DecimalInjective(g, h);
    }
  }
}
