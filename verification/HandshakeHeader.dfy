/** The 12-octet handshake fragment header (section 4.2.2 of RFC 4347). */
module HandshakeHeader {
  import opened Bytes

  const HM_HEADER_LENGTH: nat := 12

  datatype HmHeader = HmHeader(typ: byte, msgLen: nat, seqNum: nat, fragOff: nat, fragLen: nat)
  {
    /** Every field fits the width the wire gives it. */
    predicate Fits() {
      msgLen < 0x100_0000 && seqNum < 0x1_0000 && fragOff < 0x100_0000 && fragLen < 0x100_0000
    }

    /** The header of the same message as if it had never been cut. */
    function Whole(): HmHeader {
      this.(fragOff := 0, fragLen := msgLen)
    }
  }

  /** dtls1_write_message_header */
  function WriteHeader(h: HmHeader): (s: seq<byte>)
    ensures |s| == HM_HEADER_LENGTH
  {
    [h.typ] + L2n3(h.msgLen) + S2n(h.seqNum) + L2n3(h.fragOff) + L2n3(h.fragLen)
  }

  /** dtls1_get_message_header */
  function ParseHeader(s: seq<byte>): (h: HmHeader)
    requires |s| == HM_HEADER_LENGTH
    ensures h.Fits()
  {
    HmHeader(s[0], N2l3(s[1..4]), N2s(s[4..6]), N2l3(s[6..9]), N2l3(s[9..12]))
  }

  lemma FiveParts(a: seq<byte>, b: seq<byte>, c: seq<byte>, d: seq<byte>, e: seq<byte>)
    requires |a| == 1 && |b| == 3 && |c| == 2 && |d| == 3 && |e| == 3
    ensures var s := a + b + c + d + e; s[0] == a[0] && s[1..4] == b && s[4..6] == c && s[6..9] == d && s[9..12] == e
  {
    var s := a + b + c + d + e;
    assert |a + b + c + d| == 9;
    assert s[9..12] == s[9..] == e;
  }

  lemma ParseOfWrite(h: HmHeader)
    requires h.Fits()
    ensures ParseHeader(WriteHeader(h)) == h
  {
    FiveParts([h.typ], L2n3(h.msgLen), S2n(h.seqNum), L2n3(h.fragOff), L2n3(h.fragLen));
    WriteThenRead(h.msgLen);
    WriteThenRead(h.seqNum);
    WriteThenRead(h.fragOff);
    WriteThenRead(h.fragLen);
  }

  lemma WriteOfParse(s: seq<byte>)
    requires |s| == HM_HEADER_LENGTH
    ensures WriteHeader(ParseHeader(s)) == s
  {
    assert s[1..4] == [s[1], s[2], s[3]];
    assert s[4..6] == [s[4], s[5]];
    assert s[6..9] == [s[6], s[7], s[8]];
    assert s[9..12] == [s[9], s[10], s[11]];
    ReadThenWrite(s[4], s[5], s[1]);
    ReadThenWrite(0, 0, s[6]);
    ReadThenWrite(s[1], s[2], s[3]);
    ReadThenWrite(s[6], s[7], s[8]);
    ReadThenWrite(s[9], s[10], s[11]);
    assert s == [s[0]] + s[1..4] + s[4..6] + s[6..9] + s[9..12];
  }
}
