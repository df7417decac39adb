/** The flags in an FLV file's header, as bits: what both walks of rtmpdump-jni.c make of them. */
module FlvFlags {
  import opened Bytes
  import opened FlvFile
  import opened FlvForward
  import opened FlvScan

  /** The number with these bits, lowest first */
  function OfBits(bits: seq<bool>): nat {
    if bits == [] then 0 else (if bits[0] then 1 else 0) + 2 * OfBits(bits[1..])
  }

  lemma LowestBit(b: bool, q: nat, n: nat)
    requires n == (if b then 1 else 0) + 2 * q
    ensures n % 2 == (if b then 1 else 0) && n / 2 == q
  {
  }

  lemma HalfTwice(n: nat)
    ensures n / 4 == n / 2 / 2
  {
  }

  lemma LowBits(bits: seq<bool>)
    requires |bits| == 8
    ensures OfBits(bits) % 2 == (if bits[0] then 1 else 0)
    ensures OfBits(bits) / 4 % 2 == (if bits[2] then 1 else 0)
  {
    var one, two := bits[1..], bits[1..][1..];
    LowestBit(bits[0], OfBits(one), OfBits(bits));
    LowestBit(bits[1], OfBits(two), OfBits(one));
    LowestBit(bits[2], OfBits(two[1..]), OfBits(two));
    HalfTwice(OfBits(bits));
  }

  /** A file counts as audio only when its flags announce audio (bit 2) and no video (bit 0). */
  lemma AudioOnlyIff(dataType: byte, bits: seq<bool>)
    requires |bits| == 8 && dataType == OfBits(bits)
    ensures IsAudioOnly(dataType) <==> bits[2] && !bits[0]
  {
    LowBits(bits);
  }

  /**
   * A file with something in it can be resumed exactly when it begins with the letters FLV and version 1, its
   * flags announce audio or video, and the first tag its header points to begins inside the file or at its end.
   */
  lemma OpenAcceptsIff(bytes: seq<byte>, bits: seq<bool>, decode: Decoder)
    requires |bytes| >= 13 && |bits| == 8 && bytes[4] == OfBits(bits)
    ensures Open(bytes, decode).0
            <==> bytes[..4] == [0x46, 0x4c, 0x56, 0x01] && (bits[0] || bits[2]) && N2l(bytes[5..9]) + 4 <= |bytes|
  {
    LowBits(bits);
  }
}
