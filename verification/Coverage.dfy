/**
 * What arrives against what is delivered: for any honest traffic, whatever is interleaved, when the expected
 * message is delivered and when a future message is complete in the queue.
 */
module Coverage {
  import opened Wrappers
  import opened Bytes
  import opened PQueue
  import opened ReceiveSpec
  import opened OrderedDelivery
  import opened FragmentPlan

  // ---- One entry ----

  /** A fragment that is not the whole of its message. */
  predicate Proper(p: Packet) { p.hdr.fragLen < p.hdr.msgLen }

  /** Octets of a message of `len` octets that an entry holds. */
  ghost function HeldBy(e: Option<Entry>, len: nat): set<nat> {
    if e.None? then {}
    else match e.value.progress
         case Complete => Range(0, len)
         case Partial(got) => got
  }

  /** What an entry holds, together with `extra`, is the whole message. */
  ghost predicate EntryFull(e: Option<Entry>, len: nat, extra: set<nat>) {
    if len == 0 then e.Some? else Range(0, len) <= HeldBy(e, len) + extra
  }

  ghost predicate EntryOf(msgs: seq<Message>, k: nat, e: Option<Entry>) {
    e.Some? ==> Faithful(msgs, k, e.value)
  }

  /** The entry once a packet of its message is taken in; a whole message meets an entry in vain. */
  function NextEntry(e: Option<Entry>, p: Packet): Option<Entry>
    requires Honestly(e, p)
  {
    if e.None? then Some(if Proper(p) then Absorb(NewEntry(p.hdr), p) else Entry(p.hdr, p.body, Complete))
    else if Proper(p) && e.value.progress.Partial? then Some(Absorb(e.value, p))
    else e
  }

  predicate Honestly(e: Option<Entry>, p: Packet) {
    && p.hdr.fragOff + |p.body| <= p.hdr.msgLen
    && (e.Some? && e.value.progress.Partial? ==> |e.value.body| == p.hdr.msgLen)
  }

  function RangeOf(p: Packet): set<nat> { Range(p.hdr.fragOff, p.hdr.fragOff + p.hdr.fragLen) }

  /** A proper fragment adds its range, a whole message completes an entry that is not there. */
  lemma NextEntryFull(msgs: seq<Message>, e: Option<Entry>, p: Packet, extra: set<nat>)
    requires Honest(msgs, p) && EntryOf(msgs, p.hdr.seqNum, e)
    ensures Honestly(e, p)
    ensures EntryFull(NextEntry(e, p), p.hdr.msgLen, extra)
            <==> if Proper(p) then EntryFull(e, p.hdr.msgLen, RangeOf(p) + extra)
                 else e.None? || EntryFull(e, p.hdr.msgLen, extra)
  {
    var len := p.hdr.msgLen;
    if Proper(p) && (e.None? || e.value.progress.Partial?) {
      assert HeldBy(NextEntry(e, p), len) + extra >= HeldBy(e, len) + (RangeOf(p) + extra);
      if NextEntry(e, p).value.progress.Partial? {
        assert HeldBy(NextEntry(e, p), len) + extra == HeldBy(e, len) + (RangeOf(p) + extra);
      }
    }
  }

  /** An entry is complete exactly when it holds the whole message. */
  lemma CompleteIffFull(msgs: seq<Message>, k: nat, e: Option<Entry>)
    requires k < |msgs| && EntryOf(msgs, k, e)
    ensures EntryFull(e, |msgs[k].body|, {}) <==> e.Some? && e.value.progress.Complete?
  {
    var len := |msgs[k].body|;
    assert HeldBy(e, len) + {} == HeldBy(e, len);
    if len > 0 { assert 0 in Range(0, len); }
  }

  // ---- One packet ----

  /** A length that fits a record of the largest size with a handshake header (17740 octets), or max_cert_list. */
  predicate Allowed(len: nat, cfg: Config) { len <= 17740 || len <= cfg.maxCertList }

  /** Packets no check on lengths rejects. */
  ghost predicate Tame(pkts: seq<Packet>, cfg: Config) {
    forall i :: 0 <= i < |pkts| ==> Allowed(pkts[i].hdr.msgLen, cfg)
  }

  /** Packets that a reader looks at but does not keep: stale ones, those over ten ahead, and an early Finished (20). */
  predicate Ignored(readSeq: nat, p: Packet) {
    p.hdr.seqNum < readSeq || p.hdr.seqNum > readSeq + 10
    || (p.hdr.seqNum > readSeq == 0 && p.hdr.typ == 20)
  }

  /**
   * Any packet, honest or not: which ones end a read in failure, and which complete it. A client fails on a
   * HelloRequest (0) with a body; every reader fails on a fragment that reaches beyond its message, or beyond
   * what it accepts.
   */
  lemma OutcomeIff(st: State, p: Packet, max: nat, cfg: Config)
    requires Ready(st) && p.Valid() && SameLength(st, p)
    ensures var h, o, end := p.hdr, Receive(st, p, max, cfg).1, p.hdr.fragOff + p.hdr.fragLen;
            var part, request := 0 < h.fragLen < h.msgLen, !cfg.server && h.typ == 0;
            && (o.Failed? <==>
                  if h.seqNum != st.readSeq then
                    end > h.msgLen || (part && !Ignored(st.readSeq, p) && !Allowed(end, cfg))
                  else if part then end > h.msgLen || !Allowed(end, cfg)
                  else if request then h.msgLen > 0
                  else end > h.msgLen || end > max)
            && (o.Ok? <==> h.seqNum == st.readSeq && !part && !request && end <= h.msgLen && end <= max)
  {
  }

  /** What a packet that does not complete a read does to the entry of message `k`. */
  function EntryAfter(e: Option<Entry>, readSeq: nat, p: Packet, k: nat): Option<Entry>
    requires p.hdr.seqNum == k ==> Honestly(e, p)
  {
    if p.hdr.seqNum != k || Ignored(readSeq, p) then e else NextEntry(e, p)
  }

  lemma GoodEntry(msgs: seq<Message>, q: seq<Item<Entry>>, k: nat)
    requires GoodQueue(msgs, q)
    ensures EntryOf(msgs, k, Find(q, k))
  {
    if Has(q, k) { assert Faithful(msgs, q[Slot(q, k)].key, q[Slot(q, k)].data); }
  }

  /** The packet does not complete the expected message by itself. */
  predicate Waits(readSeq: nat, p: Packet) { p.hdr.seqNum != readSeq || Proper(p) }

  /** The queue after such a packet, seen from any message. */
  lemma ReceiveFinds(msgs: seq<Message>, start: nat, hashed: seq<byte>, st: State,
                     p: Packet, max: nat, cfg: Config, k: nat)
    requires Good(msgs, start, hashed, st) && Ready(st) && SameLength(st, p)
    requires Honest(msgs, p) && Allowed(p.hdr.msgLen, cfg) && Waits(st.readSeq, p)
    ensures p.hdr.seqNum == k ==> Honestly(Find(st.queue, k), p)
    ensures var (s, o) := Receive(st, p, max, cfg);
            && o.Retry? && s == st.(queue := s.queue)
            && Find(s.queue, k) == EntryAfter(Find(st.queue, k), st.readSeq, p, k)
            && Slot(s.queue, st.readSeq) == Slot(st.queue, st.readSeq)
  {
    GoodEntry(msgs, st.queue, p.hdr.seqNum);
    ReceiveQueues(st, p, max, cfg);
    if !Ignored(st.readSeq, p) {
      QueueWithFinds(st.queue, p, k, st.readSeq);
    }
  }

  /** The queue once a packet is taken in. */
  function QueueWith(q: seq<Item<Entry>>, p: Packet): (r: seq<Item<Entry>>)
    requires Sorted(q) && Honestly(Find(q, p.hdr.seqNum), p)
  {
    var n := p.hdr.seqNum;
    var e := NextEntry(Find(q, n), p);
    if !Has(q, n) then Insert(q, Item(n, e.value)) else q[Slot(q, n) := Item(n, e.value)]
  }

  lemma ReceiveQueues(st: State, p: Packet, max: nat, cfg: Config)
    requires Ready(st) && SameLength(st, p) && p.Valid() && Honestly(Find(st.queue, p.hdr.seqNum), p)
    requires Allowed(p.hdr.msgLen, cfg) && Waits(st.readSeq, p)
    requires p.hdr.msgLen > 0 ==> p.hdr.fragLen > 0
    ensures Receive(st, p, max, cfg) ==
            (st.(queue := if Ignored(st.readSeq, p) then st.queue else QueueWith(st.queue, p)), Retry)
  {
    if Has(st.queue, p.hdr.seqNum) {
      var i := Slot(st.queue, p.hdr.seqNum);
      assert st.queue[i] == Item(p.hdr.seqNum, st.queue[i].data);
      assert st.queue[i := st.queue[i]] == st.queue;
    }
  }

  lemma QueueWithFinds(q: seq<Item<Entry>>, p: Packet, k: nat, readSeq: nat)
    requires Sorted(q) && Honestly(Find(q, p.hdr.seqNum), p) && p.hdr.seqNum >= readSeq
    ensures Sorted(QueueWith(q, p))
    ensures Find(QueueWith(q, p), k) == if k == p.hdr.seqNum then NextEntry(Find(q, k), p) else Find(q, k)
    ensures Slot(QueueWith(q, p), readSeq) == Slot(q, readSeq)
  {
    var n := p.hdr.seqNum;
    var x := Item(n, NextEntry(Find(q, n), p).value);
    if !Has(q, n) {
      FindAfterInsert(q, x, k);
      FindAfterInsert(q, x, readSeq);
    } else {
      FindAfterUpdate(q, Slot(q, n), x, k);
      FindAfterUpdate(q, Slot(q, n), x, readSeq);
    }
  }

  // ---- Many packets ----

  /** Octets of message `k` that proper fragments among the packets carry. */
  ghost function CarriedOf(k: nat, pkts: seq<Packet>): set<nat> {
    if pkts == [] then {}
    else (if pkts[0].hdr.seqNum == k && Proper(pkts[0]) then RangeOf(pkts[0]) else {}) + CarriedOf(k, pkts[1..])
  }

  /** Message `k` arrives in one piece. */
  ghost predicate WholeArrives(k: nat, pkts: seq<Packet>) {
    exists i :: 0 <= i < |pkts| && pkts[i].hdr.seqNum == k && !Proper(pkts[i])
  }

  /** The first packet of message `k` is the whole of it. */
  predicate FirstIsWhole(k: nat, pkts: seq<Packet>) {
    pkts != [] && if pkts[0].hdr.seqNum == k then !Proper(pkts[0]) else FirstIsWhole(k, pkts[1..])
  }

  lemma WholeArrivesCons(k: nat, pkts: seq<Packet>)
    requires pkts != []
    ensures WholeArrives(k, pkts) <==> (pkts[0].hdr.seqNum == k && !Proper(pkts[0])) || WholeArrives(k, pkts[1..])
  {
    if WholeArrives(k, pkts[1..]) {
      var i :| 0 <= i < |pkts[1..]| && pkts[1..][i].hdr.seqNum == k && !Proper(pkts[1..][i]);
      assert pkts[i + 1] == pkts[1..][i];
    }
    if WholeArrives(k, pkts) {
      var i :| 0 <= i < |pkts| && pkts[i].hdr.seqNum == k && !Proper(pkts[i]);
      if i > 0 { assert pkts[1..][i - 1] == pkts[i]; }
    }
  }

  /** A buffered message is handed out exactly when it heads the queue, is complete, and is the one expected. */
  lemma RetrieveIff(msgs: seq<Message>, start: nat, hashed: seq<byte>, st: State, max: nat)
    requires Good(msgs, start, hashed, st) && Ready(st)
    requires st.readSeq < |msgs| && |msgs[st.readSeq].body| <= max
    ensures Retrieve(st, max).1.Ok? <==>
            Slot(st.queue, st.readSeq) == 0 && EntryFull(Find(st.queue, st.readSeq), |msgs[st.readSeq].body|, {})
    ensures Retrieve(st, max).1.Ok? || Retrieve(st, max).1.Nothing?
  {
    var k := st.readSeq;
    GoodEntry(msgs, st.queue, k);
    CompleteIffFull(msgs, k, Find(st.queue, k));
    if st.queue != [] {
      assert Faithful(msgs, st.queue[0].key, st.queue[0].data);
    }
  }

  /** A reader that may read any of its traffic and is waiting for a message that is meant for it. */
  ghost predicate Expecting(msgs: seq<Message>, start: nat, hashed: seq<byte>, st: State, max: nat, cfg: Config) {
    && Good(msgs, start, hashed, st) && st.rHdr == NO_HEADER
    && st.readSeq < |msgs| && |msgs[st.readSeq].body| <= max
    && (cfg.server || msgs[st.readSeq].typ != MT_HELLO_REQUEST)
  }

  /** The expected message in one piece is delivered at once. */
  lemma WholeIsDelivered(msgs: seq<Message>, start: nat, hashed: seq<byte>, st: State,
                         pkts: seq<Packet>, max: nat, cfg: Config)
    requires Expecting(msgs, start, hashed, st, max, cfg) && AllHonest(msgs, pkts)
    requires pkts != [] && !Waits(st.readSeq, pkts[0])
    ensures Readable(st, pkts, max, cfg) && ReadMessage(st, pkts, max, cfg).outcome.Ok?
  {
    ReadKeepsGood(msgs, start, hashed, st, pkts, max, cfg);
    RetrieveIff(msgs, start, hashed, st, max);
    assert Honest(msgs, pkts[0]);
  }

  /** Any other packet is taken in, and the read goes on. */
  lemma ReadGoesOn(msgs: seq<Message>, start: nat, hashed: seq<byte>, st: State,
                   pkts: seq<Packet>, max: nat, cfg: Config) returns (s: State)
    requires Expecting(msgs, start, hashed, st, max, cfg) && AllHonest(msgs, pkts) && Tame(pkts, cfg)
    requires pkts != [] && Waits(st.readSeq, pkts[0]) && Ready(st) && Retrieve(st, max).1.Nothing?
    ensures Expecting(msgs, start, hashed, s, max, cfg) && AllHonest(msgs, pkts[1..]) && Tame(pkts[1..], cfg)
    ensures s == st.(queue := s.queue) && Slot(s.queue, s.readSeq) == Slot(st.queue, st.readSeq)
    ensures forall k :: (pkts[0].hdr.seqNum == k ==> Honestly(Find(st.queue, k), pkts[0]))
                        && Find(s.queue, k) == EntryAfter(Find(st.queue, k), st.readSeq, pkts[0], k)
    ensures Readable(st, pkts, max, cfg) && Readable(s, pkts[1..], max, cfg)
    ensures ReadMessage(st, pkts, max, cfg) == ReadMessage(s, pkts[1..], max, cfg)
  {
    var p := pkts[0];
    GoodSameLength(msgs, start, hashed, st, p);
    ReceiveKeepsGood(msgs, start, hashed, st, p, max, cfg);
    ReadKeepsGood(msgs, start, hashed, st, pkts, max, cfg);
    s := Receive(st, p, max, cfg).0;
    forall k ensures (p.hdr.seqNum == k ==> Honestly(Find(st.queue, k), p))
                     && Find(s.queue, k) == EntryAfter(Find(st.queue, k), st.readSeq, p, k)
    {
      ReceiveFinds(msgs, start, hashed, st, p, max, cfg, k);
    }
    ReceiveFinds(msgs, start, hashed, st, p, max, cfg, 0);
  }

  /** A read that meets no whole expected message: what it holds before a packet and after it */
  lemma OneMorePacket(msgs: seq<Message>, e: Option<Entry>, readSeq: nat, pkts: seq<Packet>, k: nat)
    requires pkts != [] && Honest(msgs, pkts[0]) && k < |msgs| && EntryOf(msgs, k, e)
    requires pkts[0].hdr.seqNum == k ==> !Ignored(readSeq, pkts[0])
    ensures pkts[0].hdr.seqNum == k ==> Honestly(e, pkts[0])
    ensures var len := |msgs[k].body|;
            var e' := EntryAfter(e, readSeq, pkts[0], k);
            && (EntryFull(e', len, CarriedOf(k, pkts[1..])) || (e'.None? && FirstIsWhole(k, pkts[1..]))
                <==> EntryFull(e, len, CarriedOf(k, pkts)) || (e.None? && FirstIsWhole(k, pkts)))
            && (pkts[0].hdr.seqNum != k || Proper(pkts[0]) ==>
                  (EntryFull(e', len, CarriedOf(k, pkts[1..])) <==> EntryFull(e, len, CarriedOf(k, pkts))))
  {
    var p, rest := pkts[0], CarriedOf(k, pkts[1..]);
    if p.hdr.seqNum == k {
      NextEntryFull(msgs, e, p, rest);
      if !Proper(p) { assert {} + rest == rest; }
    } else {
      assert {} + rest == rest;
    }
  }

  /**
   * Whatever honest traffic arrives, stale, expected and future messages mixed, duplicated and overlapping: the
   * expected message is delivered exactly when it comes in one piece, or no older entry stands before it in
   * the queue and its fragments complete what is already held.
   */
  lemma {:induction false} DeliveredIffCovered(msgs: seq<Message>, start: nat, hashed: seq<byte>, st: State,
                                               pkts: seq<Packet>, max: nat, cfg: Config)
    requires Expecting(msgs, start, hashed, st, max, cfg) && AllHonest(msgs, pkts) && Tame(pkts, cfg)
    ensures Readable(st, pkts, max, cfg) && !ReadMessage(st, pkts, max, cfg).outcome.Failed?
    ensures ReadMessage(st, pkts, max, cfg).outcome.Ok? <==>
            || WholeArrives(st.readSeq, pkts)
            || (Slot(st.queue, st.readSeq) == 0
                && EntryFull(Find(st.queue, st.readSeq), |msgs[st.readSeq].body|, CarriedOf(st.readSeq, pkts)))
    decreases |pkts|
  {
    var k := st.readSeq;
    GoodIsReady(msgs, start, hashed, st);
    ReadKeepsGood(msgs, start, hashed, st, pkts, max, cfg);
    RetrieveIff(msgs, start, hashed, st, max);
    GoodEntry(msgs, st.queue, k);
    if Retrieve(st, max).1.Nothing? && pkts != [] {
      WholeArrivesCons(k, pkts);
      if !Waits(k, pkts[0]) {
        WholeIsDelivered(msgs, start, hashed, st, pkts, max, cfg);
      } else {
        var s := ReadGoesOn(msgs, start, hashed, st, pkts, max, cfg);
        OneMorePacket(msgs, Find(st.queue, k), k, pkts, k);
        DeliveredIffCovered(msgs, start, hashed, s, pkts[1..], max, cfg);
      }
    }
  }

  /** The packets complete message `k`, of which `e` is held. */
  ghost predicate Completes(msgs: seq<Message>, k: nat, e: Option<Entry>, pkts: seq<Packet>)
    requires k < |msgs|
  {
    EntryFull(e, |msgs[k].body|, CarriedOf(k, pkts)) || (e.None? && FirstIsWhole(k, pkts))
  }

  /** A packet that the read goes on from is one less to complete a message ahead. */
  lemma FutureGoesOn(msgs: seq<Message>, start: nat, hashed: seq<byte>, st: State,
                     pkts: seq<Packet>, max: nat, cfg: Config, k: nat) returns (s: State)
    requires Expecting(msgs, start, hashed, st, max, cfg) && AllHonest(msgs, pkts) && Tame(pkts, cfg)
    requires pkts != [] && Waits(st.readSeq, pkts[0]) && Ready(st) && Retrieve(st, max).1.Nothing?
    requires st.readSeq < k < |msgs| && k <= st.readSeq + 10
    requires st.readSeq == 0 ==> msgs[k].typ != 20
    ensures Expecting(msgs, start, hashed, s, max, cfg) && AllHonest(msgs, pkts[1..]) && Tame(pkts[1..], cfg)
    ensures s.readSeq == st.readSeq && Readable(st, pkts, max, cfg) && Readable(s, pkts[1..], max, cfg)
    ensures ReadMessage(st, pkts, max, cfg) == ReadMessage(s, pkts[1..], max, cfg)
    ensures Completes(msgs, k, Find(s.queue, k), pkts[1..]) <==> Completes(msgs, k, Find(st.queue, k), pkts)
  {
    GoodEntry(msgs, st.queue, k);
    s := ReadGoesOn(msgs, start, hashed, st, pkts, max, cfg);
    OneMorePacket(msgs, Find(st.queue, k), st.readSeq, pkts, k);
  }

  /**
   * While the expected message is awaited, a message up to ten numbers ahead is complete in the queue, its mask
   * dropped, exactly when its fragments cover what was missing, or the first of its packets was the whole.
   */
  lemma {:induction false} FutureIffCovered(msgs: seq<Message>, start: nat, hashed: seq<byte>, st: State,
                                            pkts: seq<Packet>, max: nat, cfg: Config, k: nat)
    requires Expecting(msgs, start, hashed, st, max, cfg) && AllHonest(msgs, pkts) && Tame(pkts, cfg)
    requires st.readSeq < k < |msgs| && k <= st.readSeq + 10
    requires st.readSeq == 0 ==> msgs[k].typ != 20
    ensures Readable(st, pkts, max, cfg)
    ensures var r := ReadMessage(st, pkts, max, cfg);
            r.outcome.Nothing? ==>
              var e' := Find(r.st.queue, k);
              e'.Some? && e'.value.progress.Complete? <==> Completes(msgs, k, Find(st.queue, k), pkts)
    decreases |pkts|
  {
    GoodIsReady(msgs, start, hashed, st);
    ReadKeepsGood(msgs, start, hashed, st, pkts, max, cfg);
    RetrieveIff(msgs, start, hashed, st, max);
    if Retrieve(st, max).1.Nothing? {
      if pkts == [] {
        GoodEntry(msgs, st.queue, k);
        CompleteIffFull(msgs, k, Find(st.queue, k));
      } else if !Waits(st.readSeq, pkts[0]) {
        WholeIsDelivered(msgs, start, hashed, st, pkts, max, cfg);
      } else {
        var s := FutureGoesOn(msgs, start, hashed, st, pkts, max, cfg, k);
        FutureIffCovered(msgs, start, hashed, s, pkts[1..], max, cfg, k);
      }
    }
  }

  /** A client passes over an empty HelloRequest with the expected number: it is never delivered from the wire. */
  lemma {:induction false} HelloRequestIsSkipped(msgs: seq<Message>, start: nat, hashed: seq<byte>, st: State,
                                                 pkts: seq<Packet>, max: nat, cfg: Config)
    requires Good(msgs, start, hashed, st) && st.rHdr == NO_HEADER && AllHonest(msgs, pkts) && Tame(pkts, cfg)
    requires st.readSeq < |msgs| && msgs[st.readSeq].typ == 0 && msgs[st.readSeq].body == [] && !cfg.server
    requires !Has(st.queue, st.readSeq)
    ensures Readable(st, pkts, max, cfg)
    ensures var r := ReadMessage(st, pkts, max, cfg);
            r.outcome.Nothing? && r.st.readSeq == st.readSeq && r.st.finishMac == st.finishMac
    decreases |pkts|
  {
    GoodIsReady(msgs, start, hashed, st);
    ReadKeepsGood(msgs, start, hashed, st, pkts, max, cfg);
    if st.queue != [] { assert Faithful(msgs, st.queue[0].key, st.queue[0].data); }
    if pkts != [] {
      var p := pkts[0];
      GoodSameLength(msgs, start, hashed, st, p);
      ReceiveKeepsGood(msgs, start, hashed, st, p, max, cfg);
      if p.hdr.seqNum != st.readSeq { ReceiveFinds(msgs, start, hashed, st, p, max, cfg, st.readSeq); }
      HelloRequestIsSkipped(msgs, start, hashed, Receive(st, p, max, cfg).0, pkts[1..], max, cfg);
    }
  }

  // ---- The round trip ----

  /** The packet that carries one cut of message `k`. */
  function PacketOf(msgs: seq<Message>, k: nat, c: Cut): Packet
    requires k < |msgs| && c.off + c.len <= |msgs[k].body|
  {
    Packet(HeaderOf(msgs[k], k).(fragOff := c.off, fragLen := c.len), msgs[k].body[c.off..c.off + c.len])
  }

  lemma {:induction false} CarriedBy(k: nat, pkts: seq<Packet>, i: nat, x: nat)
    requires i < |pkts| && pkts[i].hdr.seqNum == k && Proper(pkts[i]) && x in RangeOf(pkts[i])
    ensures x in CarriedOf(k, pkts)
  {
    if i > 0 {
      assert pkts[1..][i - 1] == pkts[i];
      CarriedBy(k, pkts[1..], i - 1, x);
    }
  }

  /** Every fragment of a complete emission is among the packets. */
  ghost predicate ContainsEmission(msgs: seq<Message>, k: nat, link: Link, pkts: seq<Packet>)
    requires k < |msgs| && link.Valid()
  {
    var plan := PlanFrom(link, 0, true, 0, |msgs[k].body|);
    && plan.complete
    && Within(plan.cuts, |msgs[k].body|)
    && forall j :: 0 <= j < |plan.cuts| ==> PacketOf(msgs, k, plan.cuts[j]) in pkts
  }

  /** A complete emission brings the message in one piece or in fragments that cover it. */
  lemma EmissionCovers(msgs: seq<Message>, k: nat, link: Link, pkts: seq<Packet>)
    requires k < |msgs| && link.Valid() && ContainsEmission(msgs, k, link, pkts)
    ensures WholeArrives(k, pkts) || (|msgs[k].body| > 0 && Range(0, |msgs[k].body|) <= CarriedOf(k, pkts))
  {
    var body := msgs[k].body;
    var cuts := PlanFrom(link, 0, true, 0, |body|).cuts;
    PlanPartitions(link, 0, true, 0, |body|);
    if body == [] {
      var i :| 0 <= i < |pkts| && pkts[i] == PacketOf(msgs, k, cuts[0]);
    } else if !WholeArrives(k, pkts) {
      forall x: nat | x < |body| ensures x in CarriedOf(k, pkts) {
        ContiguousCoversOnce(cuts, 0, x);
        var j :| 0 <= j < |cuts| && Carries(cuts[j], x);
        var i :| 0 <= i < |pkts| && pkts[i] == PacketOf(msgs, k, cuts[j]);
        CarriedBy(k, pkts, i, x);
      }
    }
  }

  /**
   * The round trip: once every fragment of one emission of the expected message has arrived, in any order and
   * mixed with duplicates, with fragments of emissions at other MTUs and with any other messages, the message is
   * delivered with the octets and type it was sent with, unless an older entry is in the way.
   */
  lemma FragmentedMessageRoundTrip(msgs: seq<Message>, start: nat, hashed: seq<byte>, st: State,
                                   link: Link, pkts: seq<Packet>, max: nat, cfg: Config)
    requires Expecting(msgs, start, hashed, st, max, cfg) && AllHonest(msgs, pkts) && Tame(pkts, cfg)
    requires link.Valid() && ContainsEmission(msgs, st.readSeq, link, pkts)
    requires Slot(st.queue, st.readSeq) == 0
    ensures Readable(st, pkts, max, cfg)
    ensures var r := ReadMessage(st, pkts, max, cfg);
            && r.outcome.Ok?
            && r.st.delivered == st.delivered + [DeliveryOf(msgs[st.readSeq], st.readSeq)]
  {
    EmissionCovers(msgs, st.readSeq, link, pkts);
    DeliveredIffCovered(msgs, start, hashed, st, pkts, max, cfg);
    OkDeliversNext(msgs, start, hashed, st, pkts, max, cfg);
  }

  /** A successful read appends the expected message, intact, to what has been delivered. */
  lemma OkDeliversNext(msgs: seq<Message>, start: nat, hashed: seq<byte>, st: State,
                       pkts: seq<Packet>, max: nat, cfg: Config)
    requires Good(msgs, start, hashed, st) && st.rHdr == NO_HEADER && AllHonest(msgs, pkts) && st.readSeq < |msgs|
    requires Readable(st, pkts, max, cfg) && ReadMessage(st, pkts, max, cfg).outcome.Ok?
    ensures ReadMessage(st, pkts, max, cfg).st.delivered == st.delivered + [DeliveryOf(msgs[st.readSeq], st.readSeq)]
  {
    ReadKeepsGood(msgs, start, hashed, st, pkts, max, cfg);
    var r := ReadMessage(st, pkts, max, cfg).st;
    OneMoreDelivered(msgs, start, hashed, st.readSeq, st.delivered, st.finishMac, r.readSeq, r.delivered, r.finishMac);
  }

  lemma OneMoreDelivered(msgs: seq<Message>, start: nat, hashed: seq<byte>, k: nat, delivered: seq<Delivery>,
                         finishMac: seq<byte>, k': nat, delivered': seq<Delivery>, finishMac': seq<byte>)
    requires Caught(msgs, start, hashed, k, delivered, finishMac) && k < |msgs|
    requires Caught(msgs, start, hashed, k', delivered', finishMac') && k' == k + 1
    ensures delivered' == delivered + [DeliveryOf(msgs[k], k)]
  {
    assert Deliveries(msgs, start, k + 1) == Deliveries(msgs, start, k) + [DeliveryOf(msgs[k], k)];
  }

  // ---- A partial entry that stays behind ----

  /** One proper fragment alone leaves its message incomplete. */
  lemma OneFragmentIsPartial(p: Packet)
    requires p.Valid() && Proper(p) && p.hdr.fragOff + p.hdr.fragLen <= p.hdr.msgLen
    ensures Absorb(NewEntry(p.hdr), p).progress.Partial?
  {
    var missing := if p.hdr.fragOff == 0 then p.hdr.fragLen else 0;
    assert missing in Range(0, p.hdr.msgLen);
    assert missing !in {} + Range(p.hdr.fragOff, p.hdr.fragOff + |p.body|);
  }

  lemma OnlyEntry(q: seq<Item<Entry>>, key: nat, e: Entry)
    requires Sorted(q) && forall k :: Find(q, k) == if k == key then Some(e) else None
    ensures q == [Item(key, e)]
  {
    assert Find(q, key) == Some(e);
    forall i | 0 <= i < |q| ensures q[i].key == key && i == Slot(q, key) {
      SlotOfKey(q, i);
      assert Find(q, q[i].key).Some?;
    }
    assert q[0].key == key && q[|q| - 1].key == key;
  }

  /** A whole message is delivered past a partial entry of its own, which stays. */
  lemma WholeLeavesEntry(msgs: seq<Message>, start: nat, hashed: seq<byte>, s: State, whole: Packet,
                         max: nat, cfg: Config)
    requires Expecting(msgs, start, hashed, s, max, cfg)
    requires |s.queue| == 1 && s.queue[0].key == s.readSeq && s.queue[0].data.progress.Partial?
    requires Honest(msgs, whole) && whole.hdr.seqNum == s.readSeq && !Proper(whole)
    ensures Readable(s, [whole], max, cfg)
    ensures var r := ReadMessage(s, [whole], max, cfg);
            r.outcome.Ok? && r.st.queue == s.queue && r.st.rHdr == NO_HEADER
  {
    assert [whole][0] == whole;
    WholeIsDelivered(msgs, start, hashed, s, [whole], max, cfg);
    GoodIsReady(msgs, start, hashed, s);
    assert Retrieve(s, max).1.Nothing?;
    assert Receive(s, whole, max, cfg).1.Ok?;
  }

  /** A fragment of the expected message leaves its partial entry alone in an empty queue. */
  lemma FragmentStays(msgs: seq<Message>, start: nat, hashed: seq<byte>, st: State, p: Packet, pkts: seq<Packet>,
                      max: nat, cfg: Config)
    returns (s: State)
    requires Expecting(msgs, start, hashed, st, max, cfg) && st.queue == []
    requires AllHonest(msgs, pkts) && Tame(pkts, cfg)
    requires pkts != [] && pkts[0] == p && p.hdr.seqNum == st.readSeq && Proper(p)
    ensures Expecting(msgs, start, hashed, s, max, cfg) && s.readSeq == st.readSeq
    ensures |s.queue| == 1 && s.queue[0].key == s.readSeq && s.queue[0].data.progress.Partial?
    ensures Readable(st, pkts, max, cfg) && Readable(s, pkts[1..], max, cfg)
    ensures ReadMessage(st, pkts, max, cfg) == ReadMessage(s, pkts[1..], max, cfg)
  {
    GoodIsReady(msgs, start, hashed, st);
    s := ReadGoesOn(msgs, start, hashed, st, pkts, max, cfg);
    OneFragmentIsPartial(p);
    OnlyEntry(s.queue, st.readSeq, Absorb(NewEntry(p.hdr), p));
  }

  /** A fragment of the expected message, then the message in one piece. */
  lemma LeftoverEntry(msgs: seq<Message>, start: nat, hashed: seq<byte>, st: State,
                      p: Packet, whole: Packet, max: nat, cfg: Config)
    requires Expecting(msgs, start, hashed, st, max, cfg) && st.queue == []
    requires Honest(msgs, p) && p.hdr.seqNum == st.readSeq && Proper(p) && Allowed(p.hdr.msgLen, cfg)
    requires Honest(msgs, whole) && whole.hdr.seqNum == st.readSeq && !Proper(whole)
    ensures Readable(st, [p, whole], max, cfg)
    ensures var r := ReadMessage(st, [p, whole], max, cfg);
            && r.outcome.Ok? && Good(msgs, start, hashed, r.st) && r.st.rHdr == NO_HEADER
            && r.st.readSeq == st.readSeq + 1 && |r.st.queue| == 1 && r.st.queue[0].key == st.readSeq
  {
    assert [p, whole][1..] == [whole];
    var s := FragmentStays(msgs, start, hashed, st, p, [p, whole], max, cfg);
    WholeLeavesEntry(msgs, start, hashed, s, whole, max, cfg);
    ReadKeepsGood(msgs, start, hashed, s, [whole], max, cfg);
  }

  /** While an older entry heads the queue, whatever arrives of the expected message in fragments piles up behind it. */
  lemma OlderEntryBlocks(msgs: seq<Message>, start: nat, hashed: seq<byte>, r: State, pkts: seq<Packet>,
                         max: nat, cfg: Config)
    requires Expecting(msgs, start, hashed, r, max, cfg) && AllHonest(msgs, pkts) && Tame(pkts, cfg)
    requires r.queue != [] && r.queue[0].key < r.readSeq && !WholeArrives(r.readSeq, pkts)
    ensures Readable(r, pkts, max, cfg) && ReadMessage(r, pkts, max, cfg).outcome.Nothing?
  {
    DeliveredIffCovered(msgs, start, hashed, r, pkts, max, cfg);
    ReadNeverRetries(r, pkts, max, cfg);
  }

  lemma {:induction false} ReadNeverRetries(st: State, pkts: seq<Packet>, max: nat, cfg: Config)
    requires Readable(st, pkts, max, cfg)
    ensures !ReadMessage(st, pkts, max, cfg).outcome.Retry?
    decreases |pkts|
  {
    if pkts != [] && Retrieve(st, max).1.Nothing? && Receive(st, pkts[0], max, cfg).1.Retry? {
      ReadNeverRetries(Receive(st, pkts[0], max, cfg).0, pkts[1..], max, cfg);
    }
  }

  /**
   * The queue condition matters: when a fragment of a message is followed by the message in one piece, the
   * message is delivered, its partial entry stays at the head of the queue, and from then on no traffic delivers
   * the next message in fragments, however complete.
   */
  lemma LeftoverEntryBlocksNext(msgs: seq<Message>, start: nat, hashed: seq<byte>, st: State,
                                p: Packet, whole: Packet, pkts: seq<Packet>, max: nat, cfg: Config)
    requires Expecting(msgs, start, hashed, st, max, cfg) && st.queue == []
    requires Honest(msgs, p) && p.hdr.seqNum == st.readSeq && Proper(p) && Allowed(p.hdr.msgLen, cfg)
    requires Honest(msgs, whole) && whole.hdr.seqNum == st.readSeq && !Proper(whole)
    requires st.readSeq + 1 < |msgs| && |msgs[st.readSeq + 1].body| <= max
    requires cfg.server || msgs[st.readSeq + 1].typ != MT_HELLO_REQUEST
    requires AllHonest(msgs, pkts) && Tame(pkts, cfg) && !WholeArrives(st.readSeq + 1, pkts)
    ensures Readable(st, [p, whole], max, cfg)
    ensures var r := ReadMessage(st, [p, whole], max, cfg);
            && r.outcome.Ok?
            && Readable(r.st, pkts, max, cfg)
            && ReadMessage(r.st, pkts, max, cfg).outcome.Nothing?
  {
    LeftoverEntry(msgs, start, hashed, st, p, whole, max, cfg);
    OlderEntryBlocks(msgs, start, hashed, ReadMessage(st, [p, whole], max, cfg).st, pkts, max, cfg);
  }
}
