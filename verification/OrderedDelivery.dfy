/**
 * What a receiver of honest fragments returns: the sender's messages, whole, in order and once each,
 * whatever the network does to the fragments.
 */
module OrderedDelivery {
  import opened Bytes
  import opened HandshakeHeader
  import opened PQueue
  import opened ReceiveSpec
  import opened FragmentPlan

  /** A message the sender made; its number is its place in the sender's list. */
  datatype Message = Message(typ: byte, body: seq<byte>)

  function HeaderOf(m: Message, k: nat): HmHeader {
    HmHeader(m.typ, |m.body|, k, 0, |m.body|)
  }

  /** `p` is a fragment of message `p.hdr.seqNum`: right header, right octets, not empty unless the message is. */
  predicate Honest(msgs: seq<Message>, p: Packet) {
    && p.Valid()
    && p.hdr.seqNum < |msgs|
    && var m := msgs[p.hdr.seqNum];
       && p.hdr.typ == m.typ && p.hdr.msgLen == |m.body|
       && p.hdr.fragOff + p.hdr.fragLen <= |m.body|
       && p.body == m.body[p.hdr.fragOff..p.hdr.fragOff + p.hdr.fragLen]
       && (|m.body| > 0 ==> p.hdr.fragLen > 0)
  }

  ghost predicate AllHonest(msgs: seq<Message>, pkts: seq<Packet>) {
    forall i :: 0 <= i < |pkts| ==> Honest(msgs, pkts[i])
  }

  /** An entry agrees with the message it stands for wherever octets have arrived. */
  ghost predicate Faithful(msgs: seq<Message>, k: nat, e: Entry) {
    && k < |msgs|
    && e.hdr == HeaderOf(msgs[k], k)
    && |e.body| == |msgs[k].body|
    && match e.progress
       case Complete => e.body == msgs[k].body
       case Partial(got) =>
         && |msgs[k].body| > 0 && !(Range(0, |msgs[k].body|) <= got)
         && (forall i :: i in got ==> i < |msgs[k].body| && e.body[i] == msgs[k].body[i])
  }

  function DeliveryOf(m: Message, k: nat): Delivery {
    Delivery(m.typ, k, m.body)
  }

  /** The messages numbered from .. to-1, as deliveries and as both ends hash them. */
  function Deliveries(msgs: seq<Message>, from: nat, to: nat): (r: seq<Delivery>)
    requires from <= to <= |msgs|
    ensures |r| == to - from
    ensures forall i :: 0 <= i < |r| ==> r[i] == DeliveryOf(msgs[from + i], from + i)
  {
    seq(to - from, i requires 0 <= i < to - from => DeliveryOf(msgs[from + i], from + i))
  }

  function Transcript(msgs: seq<Message>, from: nat, to: nat): seq<byte>
    requires from <= to <= |msgs|
  {
    if from == to then []
    else Transcript(msgs, from, to - 1) + Canonical(HeaderOf(msgs[to - 1], to - 1), msgs[to - 1].body)
  }

  /**
   * The state of a reader that started at number `start` with `hashed` already in its hash: it has
   * delivered exactly the messages before handshake_read_seq, and every buffered entry is faithful.
   */
  ghost predicate Good(msgs: seq<Message>, start: nat, hashed: seq<byte>, st: State) {
    && st.rHdr.fragOff == 0
    && Supported(msgs)
    && Caught(msgs, start, hashed, st.readSeq, st.delivered, st.finishMac)
    && GoodQueue(msgs, st.queue)
  }

  /** Message numbers and lengths fit their header fields. */
  ghost predicate Supported(msgs: seq<Message>) {
    |msgs| < SEQ_MODULUS && forall k :: 0 <= k < |msgs| ==> |msgs[k].body| < 0x100_0000
  }

  /** What has been delivered and hashed is the messages from `start` up to `readSeq`. */
  ghost predicate Caught(msgs: seq<Message>, start: nat, hashed: seq<byte>,
                         readSeq: nat, delivered: seq<Delivery>, finishMac: seq<byte>) {
    && start <= readSeq <= |msgs|
    && delivered == Deliveries(msgs, start, readSeq)
    && finishMac == hashed + Transcript(msgs, start, readSeq)
  }

  ghost predicate GoodQueue(msgs: seq<Message>, q: seq<Item<Entry>>) {
    Sorted(q) && forall i :: 0 <= i < |q| ==> Faithful(msgs, q[i].key, q[i].data)
  }

  lemma GoodInsert(msgs: seq<Message>, q: seq<Item<Entry>>, k: nat, e: Entry)
    requires GoodQueue(msgs, q) && Faithful(msgs, k, e)
    ensures GoodQueue(msgs, Insert(q, Item(k, e)))
  {
    var n := Slot(q, k);
    var r := Insert(q, Item(k, e));
    if r != q {
      forall i | 0 <= i < |r| ensures Faithful(msgs, r[i].key, r[i].data) {
        assert r[i] == if i < n then q[i] else if i == n then Item(k, e) else q[i - 1];
      }
    }
  }

  lemma GoodUpdate(msgs: seq<Message>, q: seq<Item<Entry>>, n: nat, e: Entry)
    requires GoodQueue(msgs, q) && n < |q| && Faithful(msgs, q[n].key, e)
    ensures GoodQueue(msgs, q[n := Item(q[n].key, e)])
  {
  }

  lemma GoodIsReady(msgs: seq<Message>, start: nat, hashed: seq<byte>, st: State)
    requires Good(msgs, start, hashed, st)
    ensures Ready(st)
  {
    forall i | 0 <= i < |st.queue| ensures |st.queue[i].data.body| == st.queue[i].data.hdr.fragLen {
      assert Faithful(msgs, st.queue[i].key, st.queue[i].data);
    }
  }

  lemma GoodSameLength(msgs: seq<Message>, start: nat, hashed: seq<byte>, st: State, p: Packet)
    requires Good(msgs, start, hashed, st) && Honest(msgs, p)
    ensures SameLength(st, p)
  {
  }

  /** Taking in a fragment keeps an entry faithful. */
  lemma AbsorbFaithful(msgs: seq<Message>, e: Entry, p: Packet)
    requires Honest(msgs, p) && 0 < p.hdr.fragLen
    requires e.progress.Partial? && (Faithful(msgs, p.hdr.seqNum, e) || e == NewEntry(p.hdr))
    ensures Faithful(msgs, p.hdr.seqNum, Absorb(e, p))
  {
    var body := msgs[p.hdr.seqNum].body;
    var a := Absorb(e, p);
    var got := e.progress.got + Range(p.hdr.fragOff, p.hdr.fragOff + |p.body|);
    forall i: nat | i in got ensures i < |body| && a.body[i] == body[i] {
    }
    if a.progress.Complete? {
      forall i: nat | i < |body| ensures a.body[i] == body[i] {
        assert i in Range(0, p.hdr.msgLen);
      }
    }
  }

  /** The message about to be finished is the next one, whole, in init_buf. */
  ghost predicate Finishable(msgs: seq<Message>, start: nat, hashed: seq<byte>, st: State) {
    && st.readSeq < |msgs|
    && Good(msgs, start, hashed, st.(rHdr := NO_HEADER))
    && var m := msgs[st.readSeq];
       && st.rHdr == HmHeader(m.typ, |m.body|, st.readSeq, 0, st.rHdr.fragLen)
       && st.initNum == |m.body|
       && HM_HEADER_LENGTH + |m.body| <= |st.initBuf|
       && st.initBuf[HM_HEADER_LENGTH..HM_HEADER_LENGTH + |m.body|] == m.body
  }

  /** A step left the reader good, or with the next message ready to be finished; its number is unchanged. */
  ghost predicate OutcomeGood(msgs: seq<Message>, start: nat, hashed: seq<byte>, readSeq: nat, s: State, o: Outcome) {
    && s.readSeq == readSeq
    && (o.Ok? ==> Finishable(msgs, start, hashed, s))
    && (!o.Ok? ==> Good(msgs, start, hashed, s) && s.rHdr == NO_HEADER)
  }

  lemma ReassembleKeepsGood(msgs: seq<Message>, start: nat, hashed: seq<byte>, st: State, p: Packet, cfg: Config)
    requires Good(msgs, start, hashed, st) && Honest(msgs, p) && SameLength(st, p) && p.hdr.fragLen > 0
    requires st.rHdr == NO_HEADER
    ensures OutcomeGood(msgs, start, hashed, st.readSeq, Reassemble(st, p, cfg).0, Reassemble(st, p, cfg).1)
    ensures !Reassemble(st, p, cfg).1.Nothing?
  {
    var k, n := p.hdr.seqNum, Slot(st.queue, p.hdr.seqNum);
    if p.hdr.fragOff + p.hdr.fragLen <= cfg.MaxLen() {
      if !Has(st.queue, k) {
        AbsorbFaithful(msgs, NewEntry(p.hdr), p);
        GoodInsert(msgs, st.queue, k, Absorb(NewEntry(p.hdr), p));
      } else if st.queue[n].data.progress.Partial? {
        AbsorbFaithful(msgs, st.queue[n].data, p);
        GoodUpdate(msgs, st.queue, n, Absorb(st.queue[n].data, p));
      }
    }
  }

  lemma OutOfSeqKeepsGood(msgs: seq<Message>, start: nat, hashed: seq<byte>, st: State, p: Packet, cfg: Config)
    requires Good(msgs, start, hashed, st) && Honest(msgs, p) && SameLength(st, p)
    requires st.rHdr == NO_HEADER
    ensures OutcomeGood(msgs, start, hashed, st.readSeq, OutOfSeq(st, p, cfg).0, OutOfSeq(st, p, cfg).1)
    ensures !OutOfSeq(st, p, cfg).1.Nothing?
  {
    var h := p.hdr;
    if h.fragLen > 0 && h.fragLen < h.msgLen {
      ReassembleKeepsGood(msgs, start, hashed, st, p, cfg);
    } else {
      assert h == HeaderOf(msgs[h.seqNum], h.seqNum);
      assert Faithful(msgs, h.seqNum, Entry(h, p.body, Complete));
      GoodInsert(msgs, st.queue, h.seqNum, Entry(h, p.body, Complete));
    }
  }

  /** A whole message with the expected number, copied to init_buf, can be finished. */
  lemma WholeIsFinishable(msgs: seq<Message>, start: nat, hashed: seq<byte>, st: State, body: seq<byte>)
    requires Good(msgs, start, hashed, st) && st.rHdr == NO_HEADER
    requires st.readSeq < |msgs| && body == msgs[st.readSeq].body
    ensures var h := HeaderOf(msgs[st.readSeq], st.readSeq);
            Finishable(msgs, start, hashed, TakeBody(Preprocess(st, h), h, body))
  {
    var h := HeaderOf(msgs[st.readSeq], st.readSeq);
    var s := TakeBody(Preprocess(st, h), h, body);
    assert s.initBuf[HM_HEADER_LENGTH..HM_HEADER_LENGTH + |body|] == body;
  }

  lemma ReceiveKeepsGood(msgs: seq<Message>, start: nat, hashed: seq<byte>, st: State, p: Packet, max: nat, cfg: Config)
    requires Good(msgs, start, hashed, st) && st.rHdr == NO_HEADER && Honest(msgs, p) && SameLength(st, p)
    ensures OutcomeGood(msgs, start, hashed, st.readSeq, Receive(st, p, max, cfg).0, Receive(st, p, max, cfg).1)
    ensures !Receive(st, p, max, cfg).1.Nothing?
  {
    var h := p.hdr;
    if h.seqNum != st.readSeq {
      assert Receive(st, p, max, cfg) == OutOfSeq(st, p, cfg);
      OutOfSeqKeepsGood(msgs, start, hashed, st, p, cfg);
    } else if h.fragLen > 0 && h.fragLen < h.msgLen {
      assert Receive(st, p, max, cfg) == Reassemble(st, p, cfg);
      ReassembleKeepsGood(msgs, start, hashed, st, p, cfg);
    } else if !cfg.server && h.typ == MT_HELLO_REQUEST {
    } else if Acceptable(st, h, max) {
      assert h == HeaderOf(msgs[h.seqNum], h.seqNum);
      WholeIsFinishable(msgs, start, hashed, st, p.body);
    }
  }

  lemma RetrieveKeepsGood(msgs: seq<Message>, start: nat, hashed: seq<byte>, st: State, max: nat)
    requires Good(msgs, start, hashed, st) && st.rHdr == NO_HEADER
    ensures OutcomeGood(msgs, start, hashed, st.readSeq, Retrieve(st, max).0, Retrieve(st, max).1)
    ensures Retrieve(st, max).1.Nothing? ==> Retrieve(st, max).0 == st
    ensures !Retrieve(st, max).1.Retry?
  {
    if st.queue != [] {
      var q, e := st.queue[1..], st.queue[0].data;
      assert forall i :: 0 <= i < |q| ==> q[i] == st.queue[i + 1];
      assert Faithful(msgs, st.queue[0].key, e);
      if e.progress.Complete? && e.hdr.seqNum == st.readSeq && Acceptable(st.(queue := q), e.hdr, max) {
        WholeIsFinishable(msgs, start, hashed, st.(queue := q), e.body);
      }
    }
  }

  lemma CaughtOneMore(msgs: seq<Message>, start: nat, hashed: seq<byte>, k: nat, delivered: seq<Delivery>,
                     finishMac: seq<byte>)
    requires Caught(msgs, start, hashed, k, delivered, finishMac) && k < |msgs|
    ensures Caught(msgs, start, hashed, k + 1, delivered + [DeliveryOf(msgs[k], k)],
                   finishMac + Canonical(HeaderOf(msgs[k], k), msgs[k].body))
  {
    var c := Canonical(HeaderOf(msgs[k], k), msgs[k].body);
    assert (hashed + Transcript(msgs, start, k)) + c == hashed + (Transcript(msgs, start, k) + c);
    assert Transcript(msgs, start, k + 1) == Transcript(msgs, start, k) + c;
    assert Deliveries(msgs, start, k + 1) == Deliveries(msgs, start, k) + [DeliveryOf(msgs[k], k)];
  }

  /** init_buf after the header is rebuilt holds the message as the sender hashes it. */
  lemma RebuiltIsCanonical(buf: seq<byte>, h: HmHeader, body: seq<byte>)
    requires h == h.Whole() && |body| == h.msgLen
    requires HM_HEADER_LENGTH + |body| <= |buf| && buf[HM_HEADER_LENGTH..HM_HEADER_LENGTH + |body|] == body
    ensures var r := Overlay(buf, 0, WriteHeader(h));
            && r[..HM_HEADER_LENGTH + |body|] == Canonical(h, body)
            && r[HM_HEADER_LENGTH..HM_HEADER_LENGTH + |body|] == body
  {
    var r := Overlay(buf, 0, WriteHeader(h));
    assert r[..HM_HEADER_LENGTH + |body|] == WriteHeader(h) + buf[HM_HEADER_LENGTH..HM_HEADER_LENGTH + |body|];
  }

  lemma FinishKeepsGood(msgs: seq<Message>, start: nat, hashed: seq<byte>, st: State)
    requires Finishable(msgs, start, hashed, st)
    ensures Good(msgs, start, hashed, Finish(st))
    ensures Finish(st).readSeq == st.readSeq + 1 && Finish(st).rHdr == NO_HEADER
  {
    var k := st.readSeq;
    FinishAppends(msgs, start, hashed, st);
    FinishMovesOn(st, |msgs|);
    CaughtOneMore(msgs, start, hashed, k, st.delivered, st.finishMac);
  }

  /** What finishing a message adds to the deliveries and to the hash */
  lemma FinishAppends(msgs: seq<Message>, start: nat, hashed: seq<byte>, st: State)
    requires Finishable(msgs, start, hashed, st)
    ensures var k, r := st.readSeq, Finish(st);
            && r.delivered == st.delivered + [DeliveryOf(msgs[k], k)]
            && r.finishMac == st.finishMac + Canonical(HeaderOf(msgs[k], k), msgs[k].body)
  {
    var k := st.readSeq;
    assert st.rHdr.Whole() == HeaderOf(msgs[k], k);
    FinishValue(st, HeaderOf(msgs[k], k), msgs[k].body);
  }

  lemma FinishMovesOn(st: State, n: nat)
    requires InBuffer(st) && st.readSeq < n < SEQ_MODULUS
    ensures Finish(st).queue == st.queue && Finish(st).rHdr == NO_HEADER && Finish(st).readSeq == st.readSeq + 1
  {
  }

  lemma FinishValue(st: State, h: HmHeader, body: seq<byte>)
    requires InBuffer(st) && st.rHdr.Whole() == h == h.Whole()
    requires |body| == h.msgLen == st.rHdr.msgLen == st.initNum
    requires HM_HEADER_LENGTH + |body| <= |st.initBuf|
    requires st.initBuf[HM_HEADER_LENGTH..HM_HEADER_LENGTH + |body|] == body
    ensures Finish(st).finishMac == st.finishMac + Canonical(h, body)
    ensures Finish(st).delivered == st.delivered + [Delivery(st.rHdr.typ, st.rHdr.seqNum, body)]
  {
    RebuiltIsCanonical(st.initBuf, h, body);
  }

  /** A read keeps the reader good, and a successful one delivers exactly the next message. */
  lemma {:induction false} ReadKeepsGood(msgs: seq<Message>, start: nat, hashed: seq<byte>, st: State,
                                         pkts: seq<Packet>, max: nat, cfg: Config)
    requires Good(msgs, start, hashed, st) && st.rHdr == NO_HEADER && AllHonest(msgs, pkts)
    ensures Readable(st, pkts, max, cfg)
    ensures Good(msgs, start, hashed, ReadMessage(st, pkts, max, cfg).st)
    ensures ReadMessage(st, pkts, max, cfg).st.readSeq
            == st.readSeq + if ReadMessage(st, pkts, max, cfg).outcome.Ok? then 1 else 0
    decreases |pkts|
  {
    GoodIsReady(msgs, start, hashed, st);
    RetrieveKeepsGood(msgs, start, hashed, st, max);
    var (s, o) := Retrieve(st, max);
    if o.Ok? {
      FinishKeepsGood(msgs, start, hashed, s);
    } else if o.Nothing? && pkts != [] {
      GoodSameLength(msgs, start, hashed, st, pkts[0]);
      ReceiveKeepsGood(msgs, start, hashed, st, pkts[0], max, cfg);
      var (s, o) := Receive(st, pkts[0], max, cfg);
      if o.Ok? { FinishKeepsGood(msgs, start, hashed, s); }
      if o.Retry? { ReadKeepsGood(msgs, start, hashed, s, pkts[1..], max, cfg); }
    }
  }

  /** What is left of some packets once a first part of them is consumed */
  ghost predicate Ends(pkts: seq<Packet>, rest: seq<Packet>) {
    |rest| <= |pkts| && rest == pkts[|pkts| - |rest|..]
  }

  lemma EndsLater(pkts: seq<Packet>, rest: seq<Packet>)
    requires pkts != [] && Ends(pkts[1..], rest)
    ensures Ends(pkts, rest)
  {
  }

  lemma EndsAtOnce(pkts: seq<Packet>)
    ensures Ends(pkts, pkts) && (pkts != [] ==> Ends(pkts, pkts[1..]))
  {
  }

  predicate GoesOn(st: State, pkts: seq<Packet>, max: nat, cfg: Config)
    requires Readable(st, pkts, max, cfg)
  {
    pkts != [] && Retrieve(st, max).1.Nothing? && Receive(st, pkts[0], max, cfg).1.Retry?
  }

  /** What one pass of the loop consumes. */
  lemma PassConsumes(st: State, pkts: seq<Packet>, max: nat, cfg: Config)
    requires Readable(st, pkts, max, cfg)
    ensures var rest := ReadMessage(st, pkts, max, cfg).rest;
            if GoesOn(st, pkts, max, cfg) then
              && Readable(Receive(st, pkts[0], max, cfg).0, pkts[1..], max, cfg)
              && rest == ReadMessage(Receive(st, pkts[0], max, cfg).0, pkts[1..], max, cfg).rest
            else rest == pkts || (pkts != [] && rest == pkts[1..])
  {
  }

  /** A read consumes a prefix of its input. */
  lemma {:induction false} ReadConsumesPrefix(st: State, pkts: seq<Packet>, max: nat, cfg: Config)
    requires Readable(st, pkts, max, cfg)
    ensures Ends(pkts, ReadMessage(st, pkts, max, cfg).rest)
    decreases |pkts|
  {
    PassConsumes(st, pkts, max, cfg);
    if GoesOn(st, pkts, max, cfg) {
      ReadConsumesPrefix(Receive(st, pkts[0], max, cfg).0, pkts[1..], max, cfg);
      EndsLater(pkts, ReadMessage(st, pkts, max, cfg).rest);
    } else {
      EndsAtOnce(pkts);
    }
  }
}
