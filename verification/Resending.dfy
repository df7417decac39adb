/**
 * A retransmission repeats the first sending (dtls1_retransmit_message against dtls1_do_write, in d1_both.c):
 * over a link of the same kind, record by record, in everything but the record numbers.
 */
module Resending {
  import opened FragmentPlan
  import opened HandshakeHeader
  import opened HandshakeWriter
  import opened WriteNumbers

  /** Records as the peer decrypts them: all but their numbers. */
  function Contents(wire: seq<Record>): (r: seq<Record>)
    ensures |r| == |wire|
  {
    seq(|wire|, i requires 0 <= i < |wire| => wire[i].(seqNum := 0))
  }

  /** What the first, unbroken sending of a message puts on the wire: HandshakeWriter.DoWrite and DoWriteCcs. */
  function FirstSending(x: Outgoing, number: nat, state: WriteState, epoch: nat, link: Link, from: nat): seq<Record>
    requires x.Valid() && link.Valid()
  {
    if x.kind.Ccs? then
      if link.Stalls(0) then [] else [Record(CcsRecord, epoch, from % SEQ_LIMIT, state, x.payload)]
    else
      var tail := x.payload[HM_HEADER_LENGTH..];
      PlanPartitions(link, 0, true, 0, |tail|);
      ContiguousWithin(PlanFrom(link, 0, true, 0, |tail|).cuts, 0, |tail|);
      Emit(Output([], from, []), Mode(epoch, state, false), x.Header(number), tail,
           PlanFrom(link, 0, true, 0, |tail|).cuts).wire
  }

  /**
   * A message kept when it was prepared, in whatever state and epoch, goes out again over the same link as it
   * would have gone out then, whatever the state and epoch have become.
   */
  lemma ResentAsFirstSent(x: Outgoing, number: nat, state: WriteState, epoch: nat, link: Link, from: nat, again: nat)
    requires x.Valid() && link.Valid()
    ensures Contents(Resent(x.Save(number, state, epoch), link, again))
            == Contents(FirstSending(x, number, state, epoch, link, from))
  {
    var m := x.Save(number, state, epoch);
    if !x.kind.Ccs? { assert m.Body() == x.payload[HM_HEADER_LENGTH..]; }
  }
}
