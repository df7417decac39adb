/** Octets and the network-order integer macros of ssl_locl.h (s2n, n2s, l2n3, n2l3). */
module Bytes {
  type byte = b: int | 0 <= b < 256

  /** s2n: the low 16 bits of `n`, most significant octet first. */
  function S2n(n: nat): (s: seq<byte>)
    ensures |s| == 2
  {
    [(n / 256) % 256, n % 256]
  }

  /** n2s */
  function N2s(s: seq<byte>): (n: nat)
    requires |s| == 2
    ensures n < 0x1_0000
  {
    var hi: int, lo: int := s[0], s[1];
    256 * hi + lo
  }

  /** l2n3: the low 24 bits of `n`, most significant octet first. */
  function L2n3(n: nat): (s: seq<byte>)
    ensures |s| == 3
  {
    [(n / 0x1_0000) % 256, (n / 256) % 256, n % 256]
  }

  /** n2l3 */
  function N2l3(s: seq<byte>): (n: nat)
    requires |s| == 3
    ensures n < 0x100_0000
  {
    var hi: int, mid: int, lo: int := s[0], s[1], s[2];
    0x1_0000 * hi + 256 * mid + lo
  }

  lemma DivTwice(n: nat)
    ensures n / 0x1_0000 == (n / 256) / 256
  {
    var q := n / 256;
    assert n == 256 * q + n % 256 && q == 256 * (q / 256) + q % 256;
  }

  /** Both 16-bit and 24-bit writers lose exactly what lies above their width. */
  lemma WriteThenRead(n: nat)
    ensures N2s(S2n(n)) == n % 0x1_0000
    ensures N2l3(L2n3(n)) == n % 0x100_0000
  {
    DivTwice(n);
    var q := n / 256;
    var r := q / 256;
    assert n == 256 * q + n % 256;
    assert q == 256 * r + q % 256;
    assert N2s(S2n(n)) == 256 * (q % 256) + n % 256;
    assert n == 0x1_0000 * r + N2s(S2n(n));
    assert r == 256 * (r / 256) + r % 256;
    assert L2n3(n) == [r % 256, q % 256, n % 256];
    assert N2l3(L2n3(n)) == 0x1_0000 * (r % 256) + 256 * (q % 256) + n % 256;
    assert n == 0x100_0000 * (r / 256) + N2l3(L2n3(n));
  }

  lemma ReadThenWrite(a: byte, b: byte, c: byte)
    ensures S2n(N2s([a, b])) == [a, b]
    ensures L2n3(N2l3([a, b, c])) == [a, b, c]
  {
  }

  function Zeros(n: nat): (s: seq<byte>)
    ensures |s| == n
  {
    seq(n, _ => 0)
  }

  function Pow256(k: nat): (p: nat)
    ensures p > 0
  {
    if k == 0 then 1 else 256 * Pow256(k - 1)
  }

  lemma AtLeast(d: int, e: int)
    requires d > 0 && e >= 1
    ensures d * e >= d && d * -e <= -d
  {
    assert d * e == d * (e - 1) + d;
    assert d * -e == -(d * e);
  }

  /** Quotient and remainder are the only ones. */
  lemma DivModUnique(n: nat, d: nat, q: nat, r: nat)
    requires d > 0 && n == d * q + r && r < d
    ensures n / d == q && n % d == r
  {
    var q', r' := n / d, n % d;
    var e := q - q';
    assert d * e == d * q - d * q' == r' - r;
    if e >= 1 { AtLeast(d, e); }
    if e <= -1 { AtLeast(d, -e); }
  }
}
