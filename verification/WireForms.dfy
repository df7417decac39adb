/**
 * Handshake messages on the wire: where each header field stands, and that what the writer emits of a message
 * is what the reader takes for a fragment of it.
 */
module WireForms {
  import opened Bytes
  import opened EndToEnd
  import opened FragmentPlan
  import opened HandshakeHeader
  import opened HandshakeWriter
  import opened OrderedDelivery
  import opened SatSub

  lemma ValueOfTwo(s: seq<byte>)
    requires |s| == 2
    ensures Value(s) == N2s(s)
  {
    assert s[..1][..0] == [];
    assert Value(s[..1]) == s[0] as int;
  }

  lemma ValueOfThree(s: seq<byte>)
    requires |s| == 3
    ensures Value(s) == N2l3(s)
  {
    ValueOfTwo(s[..2]);
  }

  /** The type, then length, number, offset and fragment length, each most significant octet first. */
  predicate StandIn(h: HmHeader, s: seq<byte>) {
    && |s| == 12
    && s[0] == h.typ
    && Value(s[1..4]) == h.msgLen
    && Value(s[4..6]) == h.seqNum
    && Value(s[6..9]) == h.fragOff
    && Value(s[9..12]) == h.fragLen
  }

  lemma ParsedFieldsStandIn(s: seq<byte>)
    requires |s| == 12
    ensures StandIn(ParseHeader(s), s)
  {
    ValueOfThree(s[1..4]);
    ValueOfTwo(s[4..6]);
    ValueOfThree(s[6..9]);
    ValueOfThree(s[9..12]);
  }

  /** A header's octets are those in which its fields stand, read or written. */
  lemma HeaderIsItsFields(h: HmHeader, s: seq<byte>)
    requires h.Fits() && |s| == 12
    ensures StandIn(h, s) <==> s == WriteHeader(h)
    ensures StandIn(h, s) <==> h == ParseHeader(s)
  {
    ParsedFieldsStandIn(s);
    ParseOfWrite(h);
    WriteOfParse(s);
  }

  /** Every octet string the writer sends for a message is, to the reader, a fragment of it. */
  lemma WriterIsHonest(msgs: seq<Message>, k: nat, x: Outgoing, state: WriteState, epoch: nat, link: Link, j: nat)
    requires Supported(msgs) && k < |msgs| && link.Valid() && x.Valid() && !x.kind.Ccs?
    requires msgs[k] == Message(x.typ, x.payload[12..])
    requires j < |Payloads(x.Save(k, state, epoch), link)|
    ensures var payload := Payloads(x.Save(k, state, epoch), link)[j];
            |payload| >= 12 && Honest(msgs, ParsePacket(payload))
  {
    var m := x.Save(k, state, epoch);
    assert m.header == HeaderOf(msgs[k], k) && m.Body() == msgs[k].body;
    PlanPartitions(link, 0, true, 0, |m.Body()|);
    ContiguousWithin(PlanFrom(link, 0, true, 0, |m.Body()|).cuts, 0, |m.Body()|);
    assert EmittedBy(msgs, k, link, j, Payloads(m, link)[j]);
    EmittedIsHonest(msgs, k, Payloads(m, link)[j]);
  }
}
