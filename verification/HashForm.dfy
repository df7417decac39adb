/** What a padded message looks like (section 5.1.1 of FIPS 180-4; sections 3.1 and 3.2 of RFC 1321), octet by octet. */
module HashForm {
  import opened Bytes
  import opened HashPadding
  import opened SatSub

  lemma {:induction false} OctetsValue(n: nat, k: nat)
    ensures Value(Octets(n, k, BigEndian)) == n % Pow256(k)
    decreases k
  {
    if k > 0 {
      var s := Octets(n, k, BigEndian);
      assert s[..k - 1] == Octets(n / 256, k - 1, BigEndian);
      OctetsValue(n / 256, k - 1);
      ModDiv(n, Pow256(k - 1));
      assert n % Pow256(k) == 256 * ((n % Pow256(k)) / 256) + (n % Pow256(k)) % 256;
    }
  }

  lemma {:induction false} OctetsReversed(n: nat, k: nat, i: nat)
    requires i < k
    ensures Octets(n, k, LittleEndian)[i] == Octets(n, k, BigEndian)[k - 1 - i]
    decreases k
  {
    if i > 0 { OctetsReversed(n / 256, k - 1, i - 1); }
  }

  /** The message, one octet 128, fewer than 64 zeros, and the length in bits. */
  ghost predicate HasForm(m: seq<byte>, s: seq<byte>) {
    && |m| + 9 <= |s| < |m| + 9 + 64 && |s| % 64 == 0
    && s[..|m|] == m && s[|m|] == 128
    && (forall i :: |m| < i < |s| - 8 ==> s[i] == 0)
  }

  lemma PaddedHasForm(m: seq<byte>, order: Order)
    ensures HasForm(m, Padded(m, order))
    ensures Padded(m, order)[|Padded(m, order)| - 8..] == Octets(8 * |m|, 8, order)
  {
    PaddedLength(|m|);
    var z, l := Zeros(ZeroCount(|m|)), Octets(8 * |m|, 8, order);
    var s := m + [0x80] + z + l;
    assert s == Padded(m, order);
    assert s[..|m|] == m;
    forall i | |m| < i < |s| - 8 ensures s[i] == 0 { assert s[i] == z[i - |m| - 1]; }
  }

  /**
   * In both orders the padded message is the message, an octet 128, zeros up to the last eight octets of a
   * block, and in these the number of bits modulo 2^64: most significant octet first, or the other way round.
   */
  lemma PaddedForm(m: seq<byte>)
    ensures var s, t := Padded(m, BigEndian), Padded(m, LittleEndian);
            && HasForm(m, s) && HasForm(m, t)
            && var big, little := s[|s| - 8..], t[|t| - 8..];
               && Value(big) == 8 * |m| % 0x1_0000_0000_0000_0000
               && forall i :: 0 <= i < 8 ==> little[i] == big[7 - i]
  {
    PaddedHasForm(m, BigEndian);
    PaddedHasForm(m, LittleEndian);
    OctetsValue(8 * |m|, 8);
    PowersOfWords();
    forall i | 0 <= i < 8 ensures Octets(8 * |m|, 8, LittleEndian)[i] == Octets(8 * |m|, 8, BigEndian)[7 - i] {
      OctetsReversed(8 * |m|, 8, i);
    }
  }
}
