/**
 * When a partial entry comes to block a receiver (d1_both.c), over whole runs: an entry of a message that is
 * already delivered stays at the head of buffered_messages, and no later message is put together behind it.
 */
module Blocking {
  import opened Bytes
  import opened PQueue
  import opened ReceiveSpec
  import opened OrderedDelivery
  import opened EndToEnd
  import opened Coverage

  /** No entry of a message delivered before is left. */
  predicate NothingOlder(st: State) { Slot(st.queue, st.readSeq) == 0 }

  /** The read takes its message from the wire while an entry of the same number is queued. */
  ghost predicate Strands(st: State, pkts: seq<Packet>, max: nat, cfg: Config)
    requires Readable(st, pkts, max, cfg)
    decreases |pkts|
  {
    && pkts != [] && Retrieve(st, max).1.Nothing?
    && var (s, o) := Receive(st, pkts[0], max, cfg);
       if o.Retry? then Strands(s, pkts[1..], max, cfg) else o.Ok? && Has(st.queue, st.readSeq)
  }

  lemma SlotPastNumber(q: seq<Item<Entry>>, k: nat)
    requires Sorted(q)
    ensures Slot(q, k + 1) == Slot(q, k) + if Has(q, k) then 1 else 0
  {
    var n := Slot(q, k);
    SlotUnique(q, k + 1, if Has(q, k) then n + 1 else n);
  }

  lemma SlotOfTail(q: seq<Item<Entry>>, k: nat)
    requires Sorted(q) && q != [] && q[0].key == k
    ensures Slot(q, k) == 0 && Slot(q[1..], k) == 0 && Slot(q[1..], k + 1) == 0
  {
    if q[1..] != [] { assert q[0].key < q[1].key; }
    SlotUnique(q[1..], k, 0);
    SlotUnique(q[1..], k + 1, 0);
    SlotUnique(q, k, 0);
  }

  /** A buffered message that is handed out, or refused, has nothing older before it, and leaves nothing older. */
  lemma RetrieveLeaves(msgs: seq<Message>, start: nat, hashed: seq<byte>, st: State, max: nat)
    requires Good(msgs, start, hashed, st) && Ready(st) && !Retrieve(st, max).1.Nothing?
    ensures NothingOlder(st)
    ensures Slot(Retrieve(st, max).0.queue, st.readSeq) == 0 && Slot(Retrieve(st, max).0.queue, st.readSeq + 1) == 0
    ensures Retrieve(st, max).0.readSeq == st.readSeq
  {
    assert Faithful(msgs, st.queue[0].key, st.queue[0].data);
    SlotOfTail(st.queue, st.readSeq);
  }

  /** The queue is as it was, seen from the expected number, and unless another packet is asked for nothing changed. */
  predicate Leaves(st: State, s: State, o: Outcome) {
    && s == st.(queue := s.queue) && Slot(s.queue, st.readSeq) == Slot(st.queue, st.readSeq)
    && (o.Retry? || (o.Failed? && s == st))
  }

  lemma NewEntryLeaves(st: State, p: Packet, cfg: Config)
    requires Ready(st) && p.Valid() && SameLength(st, p) && p.hdr.seqNum >= st.readSeq
    requires !Has(st.queue, p.hdr.seqNum)
    ensures Leaves(st, Reassemble(st, p, cfg).0, Reassemble(st, p, cfg).1)
  {
    if p.hdr.fragOff + p.hdr.fragLen <= p.hdr.msgLen {
      FindAfterInsert(st.queue, Item(p.hdr.seqNum, Absorb(NewEntry(p.hdr), p)), st.readSeq);
    }
  }

  lemma OldEntryLeaves(st: State, p: Packet, cfg: Config)
    requires Ready(st) && p.Valid() && SameLength(st, p) && p.hdr.seqNum >= st.readSeq
    requires Has(st.queue, p.hdr.seqNum)
    ensures Leaves(st, Reassemble(st, p, cfg).0, Reassemble(st, p, cfg).1)
  {
    var n := Slot(st.queue, p.hdr.seqNum);
    if p.hdr.fragOff + p.hdr.fragLen <= p.hdr.msgLen && st.queue[n].data.progress.Partial? {
      FindAfterUpdate(st.queue, n, Item(p.hdr.seqNum, Absorb(st.queue[n].data, p)), st.readSeq);
    }
  }

  lemma ReassembleLeaves(st: State, p: Packet, cfg: Config)
    requires Ready(st) && p.Valid() && SameLength(st, p) && p.hdr.seqNum >= st.readSeq
    ensures Leaves(st, Reassemble(st, p, cfg).0, Reassemble(st, p, cfg).1)
  {
    if Has(st.queue, p.hdr.seqNum) { OldEntryLeaves(st, p, cfg); } else { NewEntryLeaves(st, p, cfg); }
  }

  lemma OutOfSeqLeaves(st: State, p: Packet, cfg: Config)
    requires Ready(st) && p.Valid() && SameLength(st, p)
    ensures Leaves(st, OutOfSeq(st, p, cfg).0, OutOfSeq(st, p, cfg).1)
  {
    if p.hdr.seqNum > st.readSeq {
      ReassembleLeaves(st, p, cfg);
      FindAfterInsert(st.queue, Item(p.hdr.seqNum, Entry(p.hdr, p.body, Complete)), st.readSeq);
    }
  }

  /** A packet leaves the place of the expected number as it was. */
  lemma ReceiveLeaves(st: State, p: Packet, max: nat, cfg: Config)
    requires Ready(st) && p.Valid() && SameLength(st, p)
    ensures var (s, o) := Receive(st, p, max, cfg);
            Slot(s.queue, st.readSeq) == Slot(st.queue, st.readSeq) && (!o.Retry? ==> s.queue == st.queue)
  {
    if p.hdr.seqNum != st.readSeq {
      OutOfSeqLeaves(st, p, cfg);
    } else if p.hdr.fragLen > 0 && p.hdr.fragLen < p.hdr.msgLen {
      ReassembleLeaves(st, p, cfg);
    }
  }

  /** The last packet of a read, if it is not one to go on from. */
  lemma LastPacketStrandsIff(msgs: seq<Message>, start: nat, hashed: seq<byte>, st: State,
                             pkts: seq<Packet>, max: nat, cfg: Config)
    requires Good(msgs, start, hashed, st) && st.rHdr == NO_HEADER && Readable(st, pkts, max, cfg)
    requires pkts != [] && Retrieve(st, max).1.Nothing? && !Receive(st, pkts[0], max, cfg).1.Retry?
    requires ReadMessage(st, pkts, max, cfg).st.readSeq
             == st.readSeq + if ReadMessage(st, pkts, max, cfg).outcome.Ok? then 1 else 0
    requires !Receive(st, pkts[0], max, cfg).1.Nothing?
    ensures NothingOlder(ReadMessage(st, pkts, max, cfg).st) <==> NothingOlder(st) && !Strands(st, pkts, max, cfg)
  {
    ReceiveLeaves(st, pkts[0], max, cfg);
    SlotPastNumber(st.queue, st.readSeq);
  }

  /** One read leaves an entry behind exactly when one was there before or it takes a stranding message. */
  lemma {:induction false} ReadStrandsIff(msgs: seq<Message>, start: nat, hashed: seq<byte>, st: State,
                                          pkts: seq<Packet>, max: nat, cfg: Config)
    requires Good(msgs, start, hashed, st) && st.rHdr == NO_HEADER && AllHonest(msgs, pkts)
    ensures Readable(st, pkts, max, cfg)
    ensures NothingOlder(ReadMessage(st, pkts, max, cfg).st) <==> NothingOlder(st) && !Strands(st, pkts, max, cfg)
    decreases |pkts|
  {
    ReadKeepsGood(msgs, start, hashed, st, pkts, max, cfg);
    if !Retrieve(st, max).1.Nothing? {
      RetrieveLeaves(msgs, start, hashed, st, max);
    } else if pkts != [] {
      ReceiveKeepsGood(msgs, start, hashed, st, pkts[0], max, cfg);
      if Receive(st, pkts[0], max, cfg).1.Retry? {
        ReceiveLeaves(st, pkts[0], max, cfg);
        ReadStrandsIff(msgs, start, hashed, Receive(st, pkts[0], max, cfg).0, pkts[1..], max, cfg);
      } else {
        LastPacketStrandsIff(msgs, start, hashed, st, pkts, max, cfg);
      }
    }
  }

  // ---- Over runs ----

  ghost predicate ActionStrands(msgs: seq<Message>, start: nat, hashed: seq<byte>, x: Session, a: Action, cfg: Config)
    requires Sound(msgs, start, hashed, x)
  {
    && a.Read? && !x.st.reuse
    && (ReadStep(msgs, start, hashed, x.st, x.waiting, a.mt, a.max, cfg);
        Strands(x.st.(rHdr := NO_HEADER), x.waiting, a.max, cfg))
  }

  ghost predicate NeverStrands(msgs: seq<Message>, start: nat, hashed: seq<byte>, x: Session,
                               actions: seq<Action>, cfg: Config)
    requires Sound(msgs, start, hashed, x) && HonestNetwork(msgs, actions)
    decreases |actions|
  {
    actions == [] || x.over
    || (&& !ActionStrands(msgs, start, hashed, x, actions[0], cfg)
        && NeverStrands(msgs, start, hashed, Next(msgs, start, hashed, x, actions[0], cfg), actions[1..], cfg))
  }

  lemma ActionStrandsIff(msgs: seq<Message>, start: nat, hashed: seq<byte>, x: Session, a: Action, cfg: Config)
    requires Sound(msgs, start, hashed, x) && (a.Arrive? ==> AllHonest(msgs, a.pkts))
    ensures NothingOlder(Next(msgs, start, hashed, x, a, cfg).st)
            <==> NothingOlder(x.st) && !ActionStrands(msgs, start, hashed, x, a, cfg)
  {
    if a.Read? && !x.st.reuse {
      ReadStrandsIff(msgs, start, hashed, x.st.(rHdr := NO_HEADER), x.waiting, a.max, cfg);
    }
  }

  /**
   * Over every run on an honest network: an entry of a delivered message is left exactly when there was one, or
   * some read took a message from the wire while an entry of the same number was queued.
   */
  lemma {:induction false} NothingOlderIff(msgs: seq<Message>, start: nat, hashed: seq<byte>, x: Session,
                                           actions: seq<Action>, cfg: Config)
    requires Sound(msgs, start, hashed, x) && HonestNetwork(msgs, actions)
    ensures NothingOlder(Run(msgs, start, hashed, x, actions, cfg).st)
            <==> NothingOlder(x.st) && NeverStrands(msgs, start, hashed, x, actions, cfg)
    decreases |actions|
  {
    if actions != [] && !x.over {
      ActionStrandsIff(msgs, start, hashed, x, actions[0], cfg);
      NothingOlderIff(msgs, start, hashed, Next(msgs, start, hashed, x, actions[0], cfg), actions[1..], cfg);
    }
  }

  /**
   * From a fresh reader, as long as no read has stranded an entry: the next read delivers the expected message
   * exactly when it has come in one piece or its fragments cover what is missing. Nothing is ever in the way.
   */
  lemma CoveredIsDelivered(msgs: seq<Message>, start: nat, hashed: seq<byte>, actions: seq<Action>,
                           max: nat, cfg: Config)
    requires Supported(msgs) && start <= |msgs| && HonestNetwork(msgs, actions)
    requires Sound(msgs, start, hashed, FreshSession(start, hashed))
    requires NeverStrands(msgs, start, hashed, FreshSession(start, hashed), actions, cfg)
    requires var x := Run(msgs, start, hashed, FreshSession(start, hashed), actions, cfg);
             Expecting(msgs, start, hashed, x.st.(rHdr := NO_HEADER), max, cfg) && Tame(x.waiting, cfg)
    ensures var x := Run(msgs, start, hashed, FreshSession(start, hashed), actions, cfg);
            var st, k := x.st.(rHdr := NO_HEADER), x.st.readSeq;
            && Readable(st, x.waiting, max, cfg)
            && (ReadMessage(st, x.waiting, max, cfg).outcome.Ok? <==>
                || WholeArrives(k, x.waiting)
                || EntryFull(Find(st.queue, k), |msgs[k].body|, CarriedOf(k, x.waiting)))
  {
    NothingOlderIff(msgs, start, hashed, FreshSession(start, hashed), actions, cfg);
    var x := Run(msgs, start, hashed, FreshSession(start, hashed), actions, cfg);
    DeliveredIffCovered(msgs, start, hashed, x.st.(rHdr := NO_HEADER), x.waiting, max, cfg);
  }
}
