/** The packed bitmask of received octets: the RSMBLY_BITMASK_* macros of d1_both.c. */
module Bitmask {
  /** bitmask_start_values and bitmask_end_values */
  const START_VALUES: seq<bv8> := [0xff, 0xfe, 0xfc, 0xf8, 0xf0, 0xe0, 0xc0, 0x80]
  const END_VALUES: seq<bv8> := [0xff, 0x01, 0x03, 0x07, 0x0f, 0x1f, 0x3f, 0x7f]

  /** 1 << k */
  function One(k: nat): bv8
    requires k < 8
  {
    if k == 0 then 0x01 else if k == 1 then 0x02 else if k == 2 then 0x04 else if k == 3 then 0x08
    else if k == 4 then 0x10 else if k == 5 then 0x20 else if k == 6 then 0x40 else 0x80
  }

  predicate Bit(b: bv8, k: nat)
    requires k < 8
  {
    b & One(k) != 0
  }

  /** RSMBLY_BITMASK_SIZE */
  function Size(msgLen: nat): nat { (msgLen + 7) / 8 }

  /** Octet `i` of the message is marked. */
  predicate Marked(mask: seq<bv8>, i: nat) {
    i / 8 < |mask| && Bit(mask[i / 8], i % 8)
  }

  /** The mask belongs to a message of `msgLen` octets: right size, nothing marked at or beyond the end. */
  ghost predicate Fits(mask: seq<bv8>, msgLen: nat) {
    |mask| == Size(msgLen) && forall i: nat :: Marked(mask, i) ==> i < msgLen
  }

  lemma FullIff(b: bv8)
    ensures b == 0xff <==> forall j: nat :: j < 8 ==> Bit(b, j)
  {
    if forall j: nat :: j < 8 ==> Bit(b, j) {
      assert Bit(b, 0) && Bit(b, 1) && Bit(b, 2) && Bit(b, 3) && Bit(b, 4) && Bit(b, 5) && Bit(b, 6) && Bit(b, 7);
    }
  }

  lemma EndIff(b: bv8, k: nat)
    requires k < 8
    requires forall j: nat :: j < 8 && Bit(b, j) ==> k == 0 || j < k
    ensures b == END_VALUES[k] <==> forall j: nat :: j < 8 && (k == 0 || j < k) ==> Bit(b, j)
  {
    assert forall j: nat :: j < 8 ==> (Bit(END_VALUES[k], j) <==> k == 0 || j < k);
    if forall j: nat :: j < 8 && (k == 0 || j < k) ==> Bit(b, j) {
      SameBits(b, END_VALUES[k]);
    }
  }

  lemma SameBits(a: bv8, b: bv8)
    requires forall j: nat :: j < 8 ==> (Bit(a, j) <==> Bit(b, j))
    ensures a == b
  {
    assert (Bit(a, 0) <==> Bit(b, 0)) && (Bit(a, 1) <==> Bit(b, 1));
    assert (Bit(a, 2) <==> Bit(b, 2)) && (Bit(a, 3) <==> Bit(b, 3));
    assert (Bit(a, 4) <==> Bit(b, 4)) && (Bit(a, 5) <==> Bit(b, 5));
    assert (Bit(a, 6) <==> Bit(b, 6)) && (Bit(a, 7) <==> Bit(b, 7));
  }

  /** RSMBLY_BITMASK_MARK: marks exactly start .. end-1 and changes no other bit. */
  method Mark(mask: array<bv8>, start: nat, end: nat)
    requires start <= end <= 8 * mask.Length
    modifies mask
    ensures forall i: nat :: Marked(mask[..], i) <==> old(Marked(mask[..], i)) || start <= i < end
  {
    var ii;
    if end - start <= 8 {
      ii := start;
      while ii < end
        invariant start <= ii <= end
        invariant forall i: nat :: Marked(mask[..], i) <==> old(Marked(mask[..], i)) || start <= i < ii
      {
        OrAt(mask, ii / 8, One(ii % 8));
        ii := ii + 1;
      }
    } else {
      MarkLong(mask, start, end);
    }
  }

  /** The other arm of the macro: a start octet, whole octets, an end octet. */
  method MarkLong(mask: array<bv8>, start: nat, end: nat)
    requires start + 8 < end <= 8 * mask.Length
    modifies mask
    ensures forall i: nat :: Marked(mask[..], i) <==> old(Marked(mask[..], i)) || start <= i < end
  {
    MarkStart(mask, start);
    var ii := start / 8 + 1;
    while ii < (end - 1) / 8
      invariant start / 8 + 1 <= ii <= (end - 1) / 8
      invariant forall i: nat :: Marked(mask[..], i) <==> old(Marked(mask[..], i)) || start <= i < 8 * ii
    {
      SetFull(mask, ii);
      ii := ii + 1;
    }
    MarkEnd(mask, end);
  }

  /** The octet of `start`, from `start` on */
  method MarkStart(mask: array<bv8>, start: nat)
    requires start / 8 < mask.Length
    modifies mask
    ensures forall i: nat ::
              Marked(mask[..], i) <==> old(Marked(mask[..], i)) || start <= i < 8 * (start / 8 + 1)
  {
    StartBits(start % 8);
    OrAt(mask, start / 8, START_VALUES[start % 8]);
    StartRange(start);
  }

  /** The octet of the last position before `end`, up to there */
  method MarkEnd(mask: array<bv8>, end: nat)
    requires 0 < end && (end - 1) / 8 < mask.Length
    modifies mask
    ensures forall i: nat ::
              Marked(mask[..], i) <==> old(Marked(mask[..], i)) || 8 * ((end - 1) / 8) <= i < end
  {
    EndBits(end % 8);
    OrAt(mask, (end - 1) / 8, END_VALUES[end % 8]);
    EndRange(end);
  }

  lemma StartBits(k: nat)
    requires k < 8
    ensures forall j: nat :: j < 8 ==> (Bit(START_VALUES[k], j) <==> k <= j)
  {
  }

  lemma EndBits(k: nat)
    requires k < 8
    ensures forall j: nat :: j < 8 ==> (Bit(END_VALUES[k], j) <==> k == 0 || j < k)
  {
  }

  lemma StartRange(start: nat)
    ensures forall i: nat :: i / 8 == start / 8 && start % 8 <= i % 8 <==> start <= i < 8 * (start / 8 + 1)
  {
  }

  lemma EndRange(end: nat)
    requires end > 0
    ensures forall i: nat :: i / 8 == (end - 1) / 8 && (end % 8 == 0 || i % 8 < end % 8)
                             <==> 8 * ((end - 1) / 8) <= i < end
  {
  }

  method SetFull(mask: array<bv8>, at: nat)
    requires at < mask.Length
    modifies mask
    ensures forall i: nat :: Marked(mask[..], i) <==> old(Marked(mask[..], i)) || i / 8 == at
  {
    mask[at] := 0xff;
    FullIff(0xff);
  }

  /** RSMBLY_BITMASK_IS_COMPLETE */
  method IsComplete(mask: array<bv8>, msgLen: nat) returns (isComplete: bool)
    requires msgLen > 0 && Fits(mask[..], msgLen)
    ensures isComplete <==> forall i: nat :: i < msgLen ==> Marked(mask[..], i)
  {
    isComplete := true;
    var last := (msgLen - 1) / 8;
    ghost var m := mask[..];
    LastIff(m, msgLen);
    if mask[last] != END_VALUES[msgLen % 8] { isComplete := false; }
    if isComplete {
      var ii := last - 1;
      while ii >= 0
        invariant -1 <= ii < last
        invariant isComplete
        invariant forall k :: ii < k < last ==> m[k] == 0xff
      {
        if mask[ii] != 0xff {
          isComplete := false;
          break;
        }
        ii := ii - 1;
      }
    }
    CompleteIff(m, msgLen);
  }

  lemma LastIff(m: seq<bv8>, msgLen: nat)
    requires msgLen > 0 && Fits(m, msgLen)
    ensures (msgLen - 1) / 8 == |m| - 1
    ensures m[|m| - 1] == END_VALUES[msgLen % 8] <==> forall i: nat :: 8 * (|m| - 1) <= i < msgLen ==> Marked(m, i)
  {
    var last, k := |m| - 1, msgLen % 8;
    LastFits(m, msgLen, m[last]);
    EndIff(m[last], k);
    LastMarked(m, msgLen, m[last]);
  }

  /** The bits of the last octet are the marks from there on. */
  lemma LastMarked(m: seq<bv8>, msgLen: nat, b: bv8)
    requires msgLen > 0 && |m| == Size(msgLen) && b == m[|m| - 1]
    ensures (forall j: nat :: j < 8 && (msgLen % 8 == 0 || j < msgLen % 8) ==> Bit(b, j))
            <==> forall i: nat :: 8 * (|m| - 1) <= i < msgLen ==> Marked(m, i)
  {
    var last, k := |m| - 1, msgLen % 8;
    if forall j: nat :: j < 8 && (k == 0 || j < k) ==> Bit(b, j) {
      forall i: nat | 8 * last <= i < msgLen ensures Marked(m, i) {
        assert i / 8 == last && (k == 0 || i % 8 < k);
      }
    }
    if forall i: nat :: 8 * last <= i < msgLen ==> Marked(m, i) {
      forall j: nat | j < 8 && (k == 0 || j < k) ensures Bit(b, j) {
        MarkedAt(m, last, j);
        assert Marked(m, 8 * last + j);
      }
    }
  }

  lemma MarkedAt(m: seq<bv8>, at: nat, j: nat)
    requires at < |m| && j < 8
    ensures Marked(m, 8 * at + j) <==> Bit(m[at], j)
  {
  }

  /** No bit of the last octet lies beyond the message. */
  lemma LastFits(m: seq<bv8>, msgLen: nat, b: bv8)
    requires msgLen > 0 && Fits(m, msgLen) && b == m[|m| - 1]
    ensures forall j: nat :: j < 8 && Bit(b, j) ==> msgLen % 8 == 0 || j < msgLen % 8
  {
    var last := |m| - 1;
    forall j: nat | j < 8 && Bit(b, j) ensures msgLen % 8 == 0 || j < msgLen % 8 {
      MarkedAt(m, last, j);
      assert Marked(m, 8 * last + j);
    }
  }

  /** Complete means: the last octet as it should be, and every octet before it full. */
  lemma CompleteIff(m: seq<bv8>, msgLen: nat)
    requires msgLen > 0 && Fits(m, msgLen)
    ensures (forall i: nat :: i < msgLen ==> Marked(m, i))
            <==> m[|m| - 1] == END_VALUES[msgLen % 8] && forall k :: 0 <= k < |m| - 1 ==> m[k] == 0xff
  {
    LastIff(m, msgLen);
    if forall i: nat :: i < msgLen ==> Marked(m, i) {
      forall k | 0 <= k < |m| - 1 ensures m[k] == 0xff {
        forall j: nat | j < 8 ensures Bit(m[k], j) { assert Marked(m, 8 * k + j); }
        FullIff(m[k]);
      }
    }
    if forall k :: 0 <= k < |m| - 1 ==> m[k] == 0xff {
      forall i: nat | i < 8 * (|m| - 1) ensures Marked(m, i) {
        assert m[i / 8] == 0xff;
        FullIff(m[i / 8]);
      }
    }
  }

  /** A freshly cleared mask fits and marks nothing. */
  lemma ClearMask(m: seq<bv8>, msgLen: nat)
    requires |m| == Size(msgLen) && forall k :: 0 <= k < |m| ==> m[k] == 0
    ensures Fits(m, msgLen) && forall i: nat :: !Marked(m, i)
  {
  }

  method OrAt(mask: array<bv8>, at: nat, value: bv8)
    requires at < mask.Length
    modifies mask
    ensures forall i: nat :: Marked(mask[..], i) <==> old(Marked(mask[..], i)) || (i / 8 == at && Bit(value, i % 8))
  {
    mask[at] := mask[at] | value;
    forall i: nat ensures Marked(mask[..], i) <==> old(Marked(mask[..], i)) || (i / 8 == at && Bit(value, i % 8)) {
      OrBit(old(mask[at]), value, i % 8);
    }
  }

  lemma OrBit(a: bv8, b: bv8, j: nat)
    requires j < 8
    ensures Bit(a | b, j) <==> Bit(a, j) || Bit(b, j)
  {
  }
}
