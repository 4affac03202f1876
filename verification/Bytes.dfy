/** Bytes and the big-endian integers every wire format here is made of. */
module Bytes {

  newtype byte = x: int | 0 <= x < 256

  type Data = seq<byte>

  function Ch(c: char): byte
    requires c as int < 128
  {
    c as int as byte
  }

  function Pow256(width: nat): (p: nat)
    ensures p > 0
  {
    if width == 0 then 1 else 256 * Pow256(width - 1)
  }

  /** The integers that fit an unsigned field of `width` bytes; packing any other one raises. */
  predicate Fits(n: int, width: nat) {
    0 <= n < Pow256(width)
  }

  function BigEndian(n: nat, width: nat): (s: Data)
    ensures |s| == width
  {
    if width == 0 then [] else BigEndian(n / 256, width - 1) + [(n % 256) as byte]
  }

  function FromBigEndian(s: Data): nat {
    if s == [] then 0 else FromBigEndian(s[..|s| - 1]) * 256 + s[|s| - 1] as nat
  }

  /** The unsigned integer in the `width` bytes that start at `at`. */
  function Field(p: Data, at: nat, width: nat): nat
    requires at + width <= |p|
  {
    FromBigEndian(p[at..at + width])
  }

  /** The most significant byte stands first: byte i counts the powers of 256 that its place is worth. */
  lemma {:induction false} BigEndianPlaces(n: nat, width: nat, i: nat)
    requires i < width
    ensures BigEndian(n, width)[i] as nat == n / Pow256(width - 1 - i) % 256
  {
    if i < width - 1 {
      BigEndianPlaces(n / 256, width - 1, i);
      DivideTwice(n, Pow256(width - 2 - i));
    }
  }

  lemma DivideTwice(n: nat, p: nat)
    requires p > 0
    ensures n / 256 / p == n / (256 * p)
  {
    var q, r := n / 256 / p, n / 256 % p;
    assert n / 256 == q * p + r;
    assert n == 256 * (q * p + r) + n % 256;
    assert 256 * (q * p) == q * (256 * p);
    assert 256 * r + n % 256 < 256 * p;
    QuotientIs(n, 256 * p, q, 256 * r + n % 256);
  }

  lemma QuotientIs(n: nat, d: nat, q: nat, r: nat)
    requires d > 0 && n == q * d + r && r < d
    ensures n / d == q
  {
    var k := n / d;
    Ordered(k + 1, q, d);
    Ordered(q + 1, k, d);
  }

  lemma Ordered(a: nat, b: nat, d: nat)
    ensures a <= b ==> a * d <= b * d
  {
    if a <= b { assert b * d == a * d + (b - a) * d; }
  }

  /** Reading back what was written loses nothing. */
  lemma {:induction false} BigEndianRoundTrip(n: nat, width: nat)
    requires Fits(n, width)
    ensures FromBigEndian(BigEndian(n, width)) == n
  {
    if width > 0 {
      BigEndianRoundTrip(n / 256, width - 1);
      assert BigEndian(n, width)[..width - 1] == BigEndian(n / 256, width - 1);
    }
  }

  /** Writing back what was read loses nothing, so a field has exactly one encoding. */
  lemma {:induction false} FromBigEndianRoundTrip(s: Data)
    ensures Fits(FromBigEndian(s), |s|)
    ensures BigEndian(FromBigEndian(s), |s|) == s
  {
    if s != [] {
      FromBigEndianRoundTrip(s[..|s| - 1]);
    }
  }
}
