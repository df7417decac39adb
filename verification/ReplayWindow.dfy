/**
 * The anti-replay window of one read epoch (DTLS1_BITMAP; section 4.1.2.5 of RFC 4347) on values: an
 * unsigned machine word of `width` bits and the highest number seen.
 */
module ReplayWindow {
  import opened Bytes
  import opened SatSub

  function Pow2(k: nat): (p: nat)
    ensures p > 0
  {
    if k == 0 then 1 else 2 * Pow2(k - 1)
  }

  /** m & (1UL << k) */
  predicate Bit(m: nat, k: nat) {
    if k == 0 then m % 2 == 1 else Bit(m / 2, k - 1)
  }

  /** m | (1UL << k) */
  function SetBit(m: nat, k: nat): nat {
    if k == 0 then (if m % 2 == 1 then m else m + 1) else 2 * SetBit(m / 2, k - 1) + m % 2
  }

  /** The low `k` bits of m */
  function LowBits(m: nat, k: nat): (r: nat)
    ensures r < Pow2(k)
  {
    if k == 0 then 0 else 2 * LowBits(m / 2, k - 1) + m % 2
  }

  function Doubled(m: nat, s: nat): nat { if s == 0 then m else 2 * Doubled(m, s - 1) }

  /** m << s in a word of `width` bits */
  function Shl(m: nat, s: nat, width: nat): (r: nat)
    ensures r < Pow2(width)
  {
    LowBits(Doubled(m, s), width)
  }

  lemma {:induction false} SetBitBit(m: nat, k: nat, j: nat)
    ensures Bit(SetBit(m, k), j) <==> Bit(m, j) || j == k
  {
    if k > 0 {
      assert SetBit(m, k) / 2 == SetBit(m / 2, k - 1) && SetBit(m, k) % 2 == m % 2;
      if j > 0 { SetBitBit(m / 2, k - 1, j - 1); }
    } else {
      assert SetBit(m, k) / 2 == m / 2;
    }
  }

  lemma {:induction false} SetBitBound(m: nat, k: nat, width: nat)
    requires m < Pow2(width) && k < width
    ensures SetBit(m, k) < Pow2(width)
  {
    var p := Pow2(width - 1);
    assert Pow2(width) == 2 * p;
    if k > 0 {
      assert m / 2 < p;
      SetBitBound(m / 2, k - 1, width - 1);
    }
  }

  lemma {:induction false} DoubledBit(m: nat, s: nat, j: nat)
    ensures Bit(Doubled(m, s), j) <==> j >= s && Bit(m, j - s)
    decreases s
  {
    if s > 0 && j > 0 { DoubledBit(m, s - 1, j - 1); }
  }

  lemma {:induction false} LowBitsBit(m: nat, k: nat, j: nat)
    ensures Bit(LowBits(m, k), j) <==> j < k && Bit(m, j)
    decreases k
  {
    if k == 0 {
      ZeroBit(j);
    } else {
      assert LowBits(m, k) / 2 == LowBits(m / 2, k - 1) && LowBits(m, k) % 2 == m % 2;
      if j > 0 { LowBitsBit(m / 2, k - 1, j - 1); }
    }
  }

  /** Shifting is multiplying, up to overflow. */
  lemma ShlIsProduct(m: nat, s: nat, width: nat)
    ensures Shl(m, s, width) == (m * Pow2(s)) % Pow2(width)
  {
    DoubledIsProduct(m, s);
    LowBitsIsRemainder(Doubled(m, s), width);
  }

  lemma {:induction false} DoubledIsProduct(m: nat, s: nat)
    ensures Doubled(m, s) == m * Pow2(s)
  {
    if s > 0 {
      DoubledIsProduct(m, s - 1);
      assert m * Pow2(s) == 2 * (m * Pow2(s - 1));
    }
  }

  lemma {:induction false} LowBitsIsRemainder(m: nat, k: nat)
    ensures LowBits(m, k) == m % Pow2(k)
    decreases k
  {
    if k > 0 {
      LowBitsIsRemainder(m / 2, k - 1);
      HalfMod(m, Pow2(k - 1));
    }
  }

  lemma HalfMod(m: nat, p: nat)
    requires p > 0
    ensures m % (2 * p) == 2 * ((m / 2) % p) + m % 2
  {
    var q, r := (m / 2) / p, (m / 2) % p;
    assert m / 2 == p * q + r;
    assert m == (2 * p) * q + (2 * r + m % 2);
    DivModUnique(m, 2 * p, q, 2 * r + m % 2);
  }

  lemma {:induction false} ZeroBit(j: nat)
    ensures !Bit(0, j)
  {
    if j > 0 { ZeroBit(j - 1); }
  }

  lemma {:induction false} OneBit(j: nat)
    ensures Bit(1, j) <==> j == 0
  {
    if j > 0 { ZeroBit(j - 1); }
  }

  lemma ShlBit(m: nat, s: nat, width: nat, j: nat)
    ensures Bit(Shl(m, s, width), j) <==> s <= j < width && Bit(m, j - s)
  {
    LowBitsBit(Doubled(m, s), width, j);
    DoubledBit(m, s, j);
  }

  // ---- The window ----

  datatype Window = Window(bits: nat, max: nat)

  /** `unsigned long` has 32 or 64 bits. */
  predicate IsWidth(width: nat) { width == 32 || width == 64 }

  const Fresh: Window := Window(0, 0)

  /** dtls1_record_replay_check: is `n` acceptable? */
  predicate Check(w: Window, n: nat, width: nat) {
    var cmp := Clamp(n - w.max);
    cmp > 0 || (-cmp < width && !Bit(w.bits, -cmp))
  }

  /** dtls1_record_bitmap_update: `n` has been accepted. */
  function Update(w: Window, n: nat, width: nat): Window {
    var cmp := Clamp(n - w.max);
    if cmp > 0 then Window(if cmp < width then SetBit(Shl(w.bits, cmp, width), 0) else 1, n)
    else if -cmp < width then Window(SetBit(w.bits, -cmp), w.max)
    else w
  }

  /** Bit k stands for max - k; nothing accepted lies above max. */
  ghost predicate Refines(w: Window, accepted: set<nat>, width: nat) {
    && w.bits < Pow2(width)
    && (forall k: nat :: k < width ==> (Bit(w.bits, k) <==> k <= w.max && w.max - k in accepted))
    && (forall a :: a in accepted ==> a <= w.max)
  }

  lemma FreshRefines(width: nat)
    ensures Refines(Fresh, {}, width)
  {
    forall k: nat | k < width ensures !Bit(0, k) { ZeroBit(k); }
  }

  /**
   * The check passes exactly for numbers that are newer than any seen, or within the last `width` and
   * never accepted.
   */
  lemma CheckIff(w: Window, accepted: set<nat>, n: nat, width: nat)
    requires IsWidth(width) && Refines(w, accepted, width)
    ensures Check(w, n, width) <==> n !in accepted && n + width > w.max
  {
    if n <= w.max && w.max - n < width {
      assert Bit(w.bits, w.max - n) <==> n in accepted;
    }
  }

  /** A bit of the window moved up by less than its width */
  lemma MovedBit(w: Window, accepted: set<nat>, shift: nat, width: nat, k: nat)
    requires Refines(w, accepted, width) && 0 < shift && k < width
    ensures var n := w.max + shift;
            Bit(SetBit(Shl(w.bits, shift, width), 0), k) <==> k <= n && n - k in accepted + {n}
  {
    SetBitBit(Shl(w.bits, shift, width), 0, k);
    ShlBit(w.bits, shift, width, k);
  }

  lemma UpdateShifted(w: Window, accepted: set<nat>, shift: nat, width: nat)
    requires IsWidth(width) && Refines(w, accepted, width) && 0 < shift < width
    ensures var n := w.max + shift;
            Refines(Window(SetBit(Shl(w.bits, shift, width), 0), n), accepted + {n}, width)
  {
    var n, bits := w.max + shift, SetBit(Shl(w.bits, shift, width), 0);
    forall k: nat | k < width ensures Bit(bits, k) <==> k <= n && n - k in accepted + {n} {
      MovedBit(w, accepted, shift, width, k);
    }
    SetBitBound(Shl(w.bits, shift, width), 0, width);
  }

  /** The window moves beyond everything it held. */
  lemma UpdateFar(w: Window, accepted: set<nat>, n: nat, width: nat)
    requires IsWidth(width) && Refines(w, accepted, width) && n - w.max >= width
    ensures Refines(Window(1, n), accepted + {n}, width)
  {
    forall k: nat | k < width ensures Bit(1, k) <==> k <= n && n - k in accepted + {n} { OneBit(k); }
    Pow2Above(width);
  }

  lemma UpdateNewer(w: Window, accepted: set<nat>, n: nat, width: nat)
    requires IsWidth(width) && Refines(w, accepted, width) && n > w.max
    ensures Refines(Update(w, n, width), accepted + {n}, width)
  {
    if n - w.max < width { UpdateShifted(w, accepted, n - w.max, width); } else { UpdateFar(w, accepted, n, width); }
  }

  lemma UpdateOlder(w: Window, accepted: set<nat>, n: nat, width: nat)
    requires IsWidth(width) && Refines(w, accepted, width) && n <= w.max
    ensures Refines(Update(w, n, width), accepted + {n}, width)
  {
    var shift := -Clamp(n - w.max);
    if shift < width {
      SetBitBound(w.bits, shift, width);
      forall k: nat | k < width
        ensures Bit(Update(w, n, width).bits, k) <==> k <= w.max && w.max - k in accepted + {n}
      {
        SetBitBit(w.bits, shift, k);
      }
    }
  }

  /** Marking any number keeps the window in step with the set, whether or not it passed the check. */
  lemma UpdateRefines(w: Window, accepted: set<nat>, n: nat, width: nat)
    requires IsWidth(width) && Refines(w, accepted, width)
    ensures Refines(Update(w, n, width), accepted + {n}, width)
  {
    if n > w.max { UpdateNewer(w, accepted, n, width); } else { UpdateOlder(w, accepted, n, width); }
  }

  lemma Pow2Above(width: nat)
    requires width > 0
    ensures 1 < Pow2(width)
  {
  }
}
