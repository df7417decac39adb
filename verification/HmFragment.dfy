/** A buffered handshake message (hm_fragment in dtls1.h): its octets, and the mask of those still missing. */
module HmFragments {
  import opened Bytes
  import opened HandshakeHeader
  import opened Bitmask
  import opened ReceiveSpec

  /** The octets a mask marks. */
  ghost function Got(mask: seq<bv8>, msgLen: nat): set<nat> {
    set i | i in Range(0, msgLen) && Marked(mask, i)
  }

  class HmFragment {
    var msgHeader: HmHeader
    var fragment: array<byte>
    var reassembly: array?<bv8>

    ghost predicate Valid()
      reads this, fragment, reassembly
    {
      && fragment.Length == msgHeader.fragLen
      && (reassembly != null ==>
            && fragment as object != reassembly
            && 0 < msgHeader.msgLen == msgHeader.fragLen
            && Fits(reassembly[..], msgHeader.msgLen))
    }

    ghost function Repr(): set<object>
      reads this
    {
      if reassembly == null then {this, fragment}
      else
        var mask: array<bv8> := reassembly;
        {this, fragment, mask}
    }

    /** The entry this fragment stands for. */
    ghost function View(): Entry
      reads this, fragment, reassembly
    {
      Entry(msgHeader, fragment[..],
            if reassembly == null then Complete else Partial(Got(reassembly[..], msgHeader.msgLen)))
    }

    /** dtls1_hm_fragment_new for a message that arrives in one piece. */
    constructor Whole(hdr: HmHeader, body: seq<byte>)
      requires |body| == hdr.fragLen
      ensures Valid() && fresh(this) && fresh(Repr())
      ensures View() == Entry(hdr, body, Complete)
    {
      msgHeader := hdr;
      fragment := new byte[|body|](i requires 0 <= i < |body| => body[i]);
      reassembly := null;
      new;
      assert fragment[..] == body;
    }

    /** dtls1_hm_fragment_new with a cleared mask, for a message that arrives in fragments. */
    constructor Reassembling(hdr: HmHeader)
      requires hdr.msgLen > 0
      ensures Valid() && fresh(this) && fresh(Repr()) && reassembly != null
      ensures View() == NewEntry(hdr)
    {
      msgHeader := hdr.Whole();
      fragment := new byte[hdr.msgLen](_ => 0);
      var mask: array<bv8> := new bv8[Size(hdr.msgLen)](_ => 0);
      reassembly := mask;
      new;
      ClearMask(mask[..], hdr.msgLen);
      assert fragment[..] == Zeros(hdr.msgLen);
      assert Got(mask[..], hdr.msgLen) == {};
    }

    /** The octets of a fragment go in, are marked, and the mask is dropped once all octets are there. */
    method TakeIn(p: Packet)
      requires Valid() && reassembly != null && p.Valid()
      requires p.hdr.msgLen == fragment.Length && p.hdr.fragOff + p.hdr.fragLen <= p.hdr.msgLen
      modifies this`reassembly, fragment, reassembly
      ensures Valid() && Repr() <= old(Repr())
      ensures View() == Absorb(old(View()), p)
    {
      var mask := reassembly;
      ghost var end := p.hdr.fragOff + |p.body|;
      Copy(p);
      Mark(mask, p.hdr.fragOff, p.hdr.fragOff + p.hdr.fragLen);
      assert Got(mask[..], p.hdr.msgLen) == old(Got(reassembly[..], msgHeader.msgLen)) + Range(p.hdr.fragOff, end);
      assert Fits(mask[..], msgHeader.msgLen);
      var isComplete := IsComplete(mask, p.hdr.msgLen);
      assert isComplete <==> Range(0, p.hdr.msgLen) <= Got(mask[..], p.hdr.msgLen) by {
        assert forall i: nat :: i in Got(mask[..], p.hdr.msgLen) <==> i < p.hdr.msgLen && Marked(mask[..], i);
      }
      if isComplete { reassembly := null; }
    }

    /** The read into frag->fragment + frag_off */
    method Copy(p: Packet)
      requires p.hdr.fragOff + |p.body| <= fragment.Length
      modifies fragment
      ensures fragment[..] == Overlay(old(fragment[..]), p.hdr.fragOff, p.body)
    {
      var off := p.hdr.fragOff;
      forall i | 0 <= i < |p.body| { fragment[off + i] := p.body[i]; }
    }
  }
}
