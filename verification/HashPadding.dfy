/**
 * The padded message a block hash is defined on (section 5.1.1 of FIPS 180-4; sections 3.1 and 3.2 of
 * RFC 1321 for the little-endian length), and the fold of a block function over it.
 */
module HashPadding {
  import opened Bytes

  const CBLOCK: nat := 64
  const WORD: nat := 0x1_0000_0000
  const DWORD: nat := 0x1_0000_0000_0000_0000

  datatype Order = BigEndian | LittleEndian

  /** The low `k` octets of `n`. */
  function Octets(n: nat, k: nat, order: Order): (s: seq<byte>)
    ensures |s| == k
  {
    if k == 0 then []
    else match order
         case BigEndian => Octets(n / 256, k - 1, order) + [n % 256]
         case LittleEndian => [n % 256] + Octets(n / 256, k - 1, order)
  }

  /** Zero octets between the 0x80 and the length. */
  function ZeroCount(len: nat): (z: nat)
    ensures z < CBLOCK && (len + 1 + z) % CBLOCK == CBLOCK - 8
  {
    var k := len % CBLOCK;
    var z := if k <= CBLOCK - 9 then CBLOCK - 9 - k else 2 * CBLOCK - 9 - k;
    DivModUnique(len + 1 + z, CBLOCK, len / CBLOCK + (if k <= CBLOCK - 9 then 0 else 1), CBLOCK - 8);
    z
  }

  /** No smaller number of zeros would do. */
  lemma ZeroCountIsLeast(len: nat, z: nat)
    requires (len + 1 + z) % CBLOCK == CBLOCK - 8
    ensures ZeroCount(len) <= z
  {
  }

  lemma PaddedLength(len: nat)
    ensures (len + 1 + ZeroCount(len) + 8) % CBLOCK == 0
  {
    var n := len + 1 + ZeroCount(len);
    DivModUnique(n + 8, CBLOCK, n / CBLOCK + 1, 0);
  }

  function Padded(m: seq<byte>, order: Order): (s: seq<byte>)
    ensures |s| % CBLOCK == 0
  {
    PaddedLength(|m|);
    m + [0x80] + Zeros(ZeroCount(|m|)) + Octets(8 * |m|, 8, order)
  }

  /** The block function, block by block. */
  function Fold<H>(f: (H, seq<byte>) -> H, h: H, s: seq<byte>): H
    requires |s| % CBLOCK == 0
  {
    if s == [] then h else Fold(f, f(h, s[..CBLOCK]), s[CBLOCK..])
  }

  lemma {:induction false} FoldConcat<H>(f: (H, seq<byte>) -> H, h: H, a: seq<byte>, b: seq<byte>)
    requires |a| % CBLOCK == 0 && |b| % CBLOCK == 0
    ensures |a + b| % CBLOCK == 0 && Fold(f, h, a + b) == Fold(f, Fold(f, h, a), b)
    decreases |a|
  {
    WholeConcat(a, b);
    if a == [] {
      assert a + b == b;
    } else {
      assert (a + b)[..CBLOCK] == a[..CBLOCK] && (a + b)[CBLOCK..] == a[CBLOCK..] + b;
      FoldConcat(f, f(h, a[..CBLOCK]), a[CBLOCK..], b);
    }
  }

  /** `h` is the state after the whole blocks of `s`. */
  ghost predicate IsFold<H>(f: (H, seq<byte>) -> H, init: H, s: seq<byte>, h: H) {
    |s| % CBLOCK == 0 && h == Fold(f, init, s)
  }

  lemma FoldNothing<H>(f: (H, seq<byte>) -> H, init: H)
    ensures IsFold(f, init, [], init)
  {
  }

  lemma FoldMore<H>(f: (H, seq<byte>) -> H, init: H, done: seq<byte>, more: seq<byte>, h: H)
    requires IsFold(f, init, done, h) && |more| % CBLOCK == 0
    ensures IsFold(f, init, done + more, Fold(f, h, more))
  {
    FoldConcat(f, init, done, more);
  }

  lemma WholeConcat(a: seq<byte>, b: seq<byte>)
    requires |a| % CBLOCK == 0 && |b| % CBLOCK == 0
    ensures |a + b| % CBLOCK == 0
  {
    DivModUnique(|a + b|, CBLOCK, |a| / CBLOCK + |b| / CBLOCK, 0);
  }

  /** A tail too long for the length to follow it in its block. */
  function MarkerBlock(tail: seq<byte>): (s: seq<byte>)
    requires |tail| < CBLOCK
    ensures |s| == CBLOCK
  {
    tail + [0x80] + Zeros(CBLOCK - |tail| - 1)
  }

  function LastBlock(front: seq<byte>, len: nat, order: Order): (s: seq<byte>)
    requires |front| <= CBLOCK - 8
    ensures |s| == CBLOCK
  {
    (front + Zeros(CBLOCK - 8 - |front|)) + Octets(8 * len, 8, order)
  }

  lemma ZeroCountOf(len: nat, k: nat)
    requires len % CBLOCK == k
    ensures ZeroCount(len) == if k <= CBLOCK - 9 then CBLOCK - 9 - k else 2 * CBLOCK - 9 - k
  {
  }

  lemma ZerosAdd(a: nat, b: nat)
    ensures Zeros(a + b) == Zeros(a) + Zeros(b)
  {
  }

  lemma PaddedOneBlock(whole: seq<byte>, tail: seq<byte>, order: Order)
    requires |whole| % CBLOCK == 0 && |tail| <= CBLOCK - 9
    ensures Padded(whole + tail, order) == whole + LastBlock(tail + [0x80], |whole + tail|, order)
  {
    ZeroCountOf(|whole + tail|, |tail|);
    var z, l := Zeros(CBLOCK - 9 - |tail|), Octets(8 * |whole + tail|, 8, order);
    assert (((whole + tail) + [0x80]) + z) + l == whole + (((tail + [0x80]) + z) + l);
  }

  lemma PaddedTwoBlocks(whole: seq<byte>, tail: seq<byte>, order: Order)
    requires |whole| % CBLOCK == 0 && CBLOCK - 9 < |tail| < CBLOCK
    ensures Padded(whole + tail, order) == (whole + MarkerBlock(tail)) + LastBlock([], |whole + tail|, order)
  {
    ZeroCountOf(|whole + tail|, |tail|);
    ZerosAdd(CBLOCK - |tail| - 1, CBLOCK - 8);
    var a, b, l := Zeros(CBLOCK - |tail| - 1), Zeros(CBLOCK - 8), Octets(8 * |whole + tail|, 8, order);
    assert [] + b == b;
    assert (((whole + tail) + [0x80]) + (a + b)) + l == (whole + ((tail + [0x80]) + a)) + (b + l);
  }

  /** The fold over a padded message that ends in one block after the whole ones, or in two. */
  lemma FoldPaddedShort<H>(f: (H, seq<byte>) -> H, init: H, whole: seq<byte>, tail: seq<byte>, order: Order)
    requires |whole| % CBLOCK == 0 && |tail| <= CBLOCK - 9
    ensures OneShot(f, init, whole + tail, order)
            == Fold(f, Fold(f, init, whole), LastBlock(tail + [0x80], |whole + tail|, order))
  {
    var last := LastBlock(tail + [0x80], |whole + tail|, order);
    PaddedOneBlock(whole, tail, order);
    assert OneShot(f, init, whole + tail, order) == Fold(f, init, whole + last);
    FoldConcat(f, init, whole, last);
  }

  lemma FoldPaddedLong<H>(f: (H, seq<byte>) -> H, init: H, whole: seq<byte>, tail: seq<byte>, order: Order)
    requires |whole| % CBLOCK == 0 && CBLOCK - 9 < |tail| < CBLOCK
    ensures OneShot(f, init, whole + tail, order)
            == Fold(f, Fold(f, Fold(f, init, whole), MarkerBlock(tail)), LastBlock([], |whole + tail|, order))
  {
    var first, last := MarkerBlock(tail), LastBlock([], |whole + tail|, order);
    PaddedTwoBlocks(whole, tail, order);
    assert OneShot(f, init, whole + tail, order) == Fold(f, init, (whole + first) + last);
    DivModUnique(|whole| + CBLOCK, CBLOCK, |whole| / CBLOCK + 1, 0);
    assert |whole + first| % CBLOCK == 0;
    FoldConcat(f, init, whole + first, last);
    FoldConcat(f, init, whole, first);
  }

  /** The digest state of a whole message. */
  function OneShot<H>(f: (H, seq<byte>) -> H, init: H, m: seq<byte>, order: Order): H {
    Fold(f, init, Padded(m, order))
  }

  // ---- Length octets from two 32-bit words ----

  /** HOST_l2c, portable forms */
  function HostL2c(l: nat, order: Order): (s: seq<byte>)
    requires l < WORD
    ensures |s| == 4
  {
    match order
    case BigEndian => [(l / 0x100_0000) % 256, (l / 0x1_0000) % 256, (l / 256) % 256, l % 256]
    case LittleEndian => [l % 256, (l / 256) % 256, (l / 0x1_0000) % 256, (l / 0x100_0000) % 256]
  }

  lemma HostL2cOctets(l: nat, order: Order)
    requires l < WORD
    ensures HostL2c(l, order) == Octets(l, 4, order)
  {
    var a, b, c := l / 256, l / 256 / 256, l / 256 / 256 / 256;
    DivTwice(l);
    assert l / 0x100_0000 == c by {
      assert l == 256 * a + l % 256 && a == 256 * b + a % 256 && b == 256 * c + b % 256;
    }
    assert Octets(c, 1, order) == [c % 256] by { assert Octets(c / 256, 0, order) == []; }
    match order
    case BigEndian =>
      assert Octets(b, 2, order) == [c % 256, b % 256];
      assert Octets(a, 3, order) == [c % 256, b % 256, a % 256];
    case LittleEndian =>
      assert Octets(b, 2, order) == [b % 256, c % 256];
      assert Octets(a, 3, order) == [a % 256, b % 256, c % 256];
  }

  /** Octets above the k-th do not matter. */
  lemma {:induction false} OctetsMod(n: nat, m: nat, k: nat, order: Order)
    requires n % Pow256(k) == m % Pow256(k)
    ensures Octets(n, k, order) == Octets(m, k, order)
    decreases k
  {
    if k > 0 {
      ModDiv(n, Pow256(k - 1));
      ModDiv(m, Pow256(k - 1));
      OctetsMod(n / 256, m / 256, k - 1, order);
    }
  }

  lemma ModDiv(n: nat, p: nat)
    requires p > 0
    ensures (n % (256 * p)) % 256 == n % 256
    ensures (n % (256 * p)) / 256 == (n / 256) % p
  {
    var q, r := n / 256, n % 256;
    var a, b := q / p, q % p;
    assert n == (256 * p) * a + (256 * b + r);
    DivModUnique(n, 256 * p, a, 256 * b + r);
  }

  lemma {:induction false} OctetsSplit(hi: nat, lo: nat, k: nat, j: nat)
    requires lo < Pow256(k)
    ensures Octets(hi * Pow256(k) + lo, k + j, BigEndian) == Octets(hi, j, BigEndian) + Octets(lo, k, BigEndian)
    ensures Octets(hi * Pow256(k) + lo, k + j, LittleEndian)
            == Octets(lo, k, LittleEndian) + Octets(hi, j, LittleEndian)
    decreases k
  {
    var n := hi * Pow256(k) + lo;
    if k == 0 {
      assert n == hi;
      assert Octets(hi, j, BigEndian) + [] == Octets(hi, j, BigEndian);
    } else {
      var p := Pow256(k - 1);
      assert n == 256 * (hi * p) + lo;
      assert n / 256 == hi * p + lo / 256 && n % 256 == lo % 256;
      OctetsSplit(hi, lo / 256, k - 1, j);
      assert Octets(n, k + j, BigEndian) == Octets(n / 256, k - 1 + j, BigEndian) + [n % 256];
      assert Octets(n, k + j, LittleEndian) == [n % 256] + Octets(n / 256, k - 1 + j, LittleEndian);
    }
  }

  /** The two words of the bit count, in the order each variant writes them, are the 64-bit length. */
  lemma LengthFromWords(nh: nat, nl: nat, len: nat, order: Order)
    requires Counts(nh, nl, len)
    ensures (match order
             case BigEndian => HostL2c(nh, order) + HostL2c(nl, order)
             case LittleEndian => HostL2c(nl, order) + HostL2c(nh, order))
            == Octets(8 * len, 8, order)
  {
    HostL2cOctets(nh, order);
    HostL2cOctets(nl, order);
    PowersOfWords();
    OctetsSplit(nh, nl, 4, 4);
    assert (8 * len) % DWORD == nh * WORD + nl;
    Remainder(8 * len);
    OctetsMod(8 * len, nh * WORD + nl, 8, order);
  }

  lemma PowersOfWords()
    ensures Pow256(4) == WORD && Pow256(8) == DWORD
  {
    assert Pow256(4) == 256 * Pow256(3) && Pow256(8) == 256 * Pow256(7);
  }

  lemma Remainder(n: nat)
    ensures n % DWORD < DWORD && (n % DWORD) % DWORD == n % DWORD
  {
  }

  /** (nh, nl) is the bit count of `len` octets, modulo 2^64. */
  ghost predicate Counts(nh: nat, nl: nat, len: nat) {
    nl < WORD && nh < WORD && nh * WORD + nl == (8 * len) % DWORD
  }

  lemma CountsZero()
    ensures Counts(0, 0, 0)
  {
  }

  /** The low word of eight times a length, computed in 32 bits. */
  lemma LowWord(len: nat)
    ensures (len % WORD) * 8 % WORD == 8 * (len % 0x2000_0000)
  {
    var b, s := len % WORD, len % 0x2000_0000;
    var a := len / WORD;
    DivModUnique(len, 0x2000_0000, 8 * a + b / 0x2000_0000, b % 0x2000_0000);
    DivModUnique(8 * b, WORD, b / 0x2000_0000, 8 * (b % 0x2000_0000));
  }

  lemma TwoWordMod(high: nat, low: nat)
    requires low < WORD
    ensures (high * WORD + low) % DWORD == (high % WORD) * WORD + low
  {
    DivModUnique(high * WORD + low, DWORD, high / WORD, (high % WORD) * WORD + low);
  }

  lemma ModAdd(a: nat, b: nat)
    ensures (a % WORD + b % WORD) % WORD == (a + b) % WORD
  {
    DivModUnique(a + b, WORD, a / WORD + b / WORD + (a % WORD + b % WORD) / WORD, (a % WORD + b % WORD) % WORD);
  }

  /** The carry code of HASH_UPDATE adds eight times the length to the 64-bit count. */
  lemma CountMore(nh: nat, nl: nat, was: nat, len: nat, nh': nat, nl': nat)
    requires Counts(nh, nl, was)
    requires nl' == (nl + (len % WORD) * 8 % WORD) % WORD
    requires var carried := if nl' < nl then (nh + 1) % WORD else nh;
             nh' == (carried + (len / 0x2000_0000) % WORD) % WORD
    ensures Counts(nh', nl', was + len)
  {
    var q, s := len / 0x2000_0000, len % 0x2000_0000;
    LowWord(len);
    var c := Carry(nh, nl, q, 8 * s, nh', nl');
    var k := (8 * was) / DWORD;
    assert 8 * was == DWORD * k + nh * WORD + nl;
    assert 8 * (was + len) == (k * WORD + nh + c + q) * WORD + nl';
    TwoWordMod(k * WORD + nh + c + q, nl');
    DropMultiple(k, nh + c + q);
  }

  /** The carry out of the low word */
  lemma Carry(nh: nat, nl: nat, q: nat, add: nat, nh': nat, nl': nat) returns (c: nat)
    requires nl < WORD && nh < WORD && add < WORD && nl' == (nl + add) % WORD
    requires nh' == ((if nl' < nl then (nh + 1) % WORD else nh) + q % WORD) % WORD
    ensures nl' < WORD && nl + add == c * WORD + nl' && nh' == (nh + c + q) % WORD
  {
    c := if nl + add >= WORD then 1 else 0;
    assert nl' == nl + add - c * WORD;
    assert c == 1 <==> nl' < nl;
    ModAdd(nh + c, q);
    ModAdd(nh, 0);
  }

  lemma DropMultiple(k: nat, a: nat)
    ensures (k * WORD + a) % WORD == a % WORD
  {
    DivModUnique(k * WORD + a, WORD, k + a / WORD, a % WORD);
  }

  /** The padding can be taken off again, as long as the length fits its 64 bits. */
  lemma PaddingIsInjective(a: seq<byte>, b: seq<byte>, order: Order)
    requires 8 * |a| < DWORD && 8 * |b| < DWORD
    requires Padded(a, order) == Padded(b, order)
    ensures a == b
  {
    var p := Padded(a, order);
    assert p[|p| - 8..] == Octets(8 * |a|, 8, order) == Octets(8 * |b|, 8, order);
    assert Pow256(8) == DWORD by { assert Pow256(4) == WORD && Pow256(8) == 256 * (256 * (256 * (256 * Pow256(4)))); }
    OctetsInjective(8 * |a|, 8 * |b|, 8, order);
    assert a == p[..|a|] && b == p[..|b|];
  }

  lemma {:induction false} OctetsInjective(m: nat, n: nat, k: nat, order: Order)
    requires m < Pow256(k) && n < Pow256(k) && Octets(m, k, order) == Octets(n, k, order)
    ensures m == n
    decreases k
  {
    if k > 0 {
      var a, b := Octets(m, k, order), Octets(n, k, order);
      if order.BigEndian? {
        assert a[k - 1] == m % 256 && b[k - 1] == n % 256;
        assert a[..k - 1] == Octets(m / 256, k - 1, order) && b[..k - 1] == Octets(n / 256, k - 1, order);
      } else {
        assert a[0] == m % 256 && b[0] == n % 256;
        assert a[1..] == Octets(m / 256, k - 1, order) && b[1..] == Octets(n / 256, k - 1, order);
      }
      OctetsInjective(m / 256, n / 256, k - 1, order);
      assert m == 256 * (m / 256) + m % 256 && n == 256 * (n / 256) + n % 256;
    }
  }
}
