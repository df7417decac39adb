/**
 * What a caller of dtls1_get_message finds in init_buf (d1_both.c), and what reading a message again does that
 * was put back because an optional one was missing (reuse_message).
 */
module PutBack {
  import opened Bytes
  import opened HandshakeHeader
  import opened ReceiveSpec
  import opened OrderedDelivery
  import opened EndToEnd

  function Last(st: State): Delivery
    requires st.delivered != []
  {
    st.delivered[|st.delivered| - 1]
  }

  /** message_type, message_size and init_buf still describe the delivery. */
  predicate Holds(st: State, d: Delivery) {
    && st.messageType == d.typ && st.messageSize == |d.body|
    && HM_HEADER_LENGTH + |d.body| <= |st.initBuf|
    && st.initBuf[HM_HEADER_LENGTH..HM_HEADER_LENGTH + |d.body|] == d.body
  }

  predicate HoldsLast(st: State) { st.delivered == [] || Holds(st, Last(st)) }

  /** A caller sees the delivery: init_num is its length, and init_buf has its octets behind the header. */
  predicate Sees(st: State, d: Delivery) {
    && st.initNum == |d.body| && HM_HEADER_LENGTH + st.initNum <= |st.initBuf|
    && st.initBuf[HM_HEADER_LENGTH..HM_HEADER_LENGTH + st.initNum] == d.body
  }

  /** A message has been copied to init_buf, and what the header says has been noted. */
  predicate Loaded(st: State, max: nat) {
    && InBuffer(st) && st.messageType == st.rHdr.typ && st.messageSize == st.rHdr.msgLen
    && st.initNum == st.rHdr.msgLen <= max
  }

  lemma FinishHolds(st: State, max: nat)
    requires Loaded(st, max)
    ensures Finish(st).delivered == st.delivered + [Last(Finish(st))]
    ensures Holds(Finish(st), Last(Finish(st))) && Sees(Finish(st), Last(Finish(st)))
    ensures |Last(Finish(st)).body| <= max
  {
  }

  /** A step that hands no message over leaves the last one where it is. */
  predicate Untouched(st: State, s: State) {
    && s.messageType == st.messageType && s.messageSize == st.messageSize
    && s.initBuf == st.initBuf && s.delivered == st.delivered
  }

  lemma RetrieveLoads(msgs: seq<Message>, start: nat, hashed: seq<byte>, st: State, max: nat)
    requires Good(msgs, start, hashed, st) && st.rHdr == NO_HEADER && Ready(st)
    ensures var (s, o) := Retrieve(st, max);
            (o.Ok? ==> Loaded(s, max) && s.delivered == st.delivered) && (!o.Ok? ==> Untouched(st, s))
  {
    if st.queue != [] { assert Faithful(msgs, st.queue[0].key, st.queue[0].data); }
  }

  lemma ReceiveLoads(msgs: seq<Message>, st: State, p: Packet, max: nat, cfg: Config)
    requires st.rHdr == NO_HEADER && Ready(st) && Honest(msgs, p) && SameLength(st, p)
    ensures var (s, o) := Receive(st, p, max, cfg);
            (o.Ok? ==> Loaded(s, max) && s.delivered == st.delivered) && (!o.Ok? ==> Untouched(st, s))
  {
  }

  /** A read that delivers a message shows it to the caller; one that does not leaves the last one in place. */
  predicate Shown(st: State, r: Result, max: nat) {
    && HoldsLast(r.st)
    && (r.outcome.Ok? ==>
          && r.st.delivered != [] && st.delivered == r.st.delivered[..|r.st.delivered| - 1]
          && Sees(r.st, Last(r.st)) && |Last(r.st).body| <= max)
    && (!r.outcome.Ok? ==> r.st.delivered == st.delivered)
  }

  lemma ShownOk(st: State, s: State, rest: seq<Packet>, max: nat)
    requires Loaded(s, max) && s.delivered == st.delivered
    ensures Shown(st, Result(Finish(s), Ok, rest), max)
  {
    FinishHolds(s, max);
  }

  lemma ShownNot(st: State, s: State, o: Outcome, rest: seq<Packet>, max: nat)
    requires Untouched(st, s) && HoldsLast(st) && !o.Ok?
    ensures Shown(st, Result(s, o, rest), max) && HoldsLast(s)
  {
  }

  lemma ShownLater(st: State, s: State, r: Result, max: nat)
    requires Untouched(st, s) && Shown(s, r, max)
    ensures Shown(st, r, max)
  {
  }

  /** A pass of the loop that hands out, or refuses, a buffered message */
  lemma BufferedShown(msgs: seq<Message>, start: nat, hashed: seq<byte>, st: State,
                      pkts: seq<Packet>, max: nat, cfg: Config)
    requires Good(msgs, start, hashed, st) && st.rHdr == NO_HEADER && HoldsLast(st)
    requires Readable(st, pkts, max, cfg) && !Retrieve(st, max).1.Nothing?
    ensures Shown(st, ReadMessage(st, pkts, max, cfg), max)
  {
    RetrieveLoads(msgs, start, hashed, st, max);
    var (s, o) := Retrieve(st, max);
    if o.Ok? { ShownOk(st, s, pkts, max); } else { ShownNot(st, s, Failed, pkts, max); }
  }

  /** A pass that ends with a packet */
  lemma PacketShown(msgs: seq<Message>, st: State, pkts: seq<Packet>, max: nat, cfg: Config)
    requires st.rHdr == NO_HEADER && HoldsLast(st) && AllHonest(msgs, pkts) && Readable(st, pkts, max, cfg)
    requires pkts != [] && Retrieve(st, max).1.Nothing? && !Receive(st, pkts[0], max, cfg).1.Retry?
    ensures Shown(st, ReadMessage(st, pkts, max, cfg), max)
  {
    ReceiveLoads(msgs, st, pkts[0], max, cfg);
    var (s, o) := Receive(st, pkts[0], max, cfg);
    if o.Ok? { ShownOk(st, s, pkts[1..], max); } else { ShownNot(st, s, Failed, pkts[1..], max); }
  }

  lemma {:induction false} ReadHolds(msgs: seq<Message>, start: nat, hashed: seq<byte>, st: State,
                                     pkts: seq<Packet>, max: nat, cfg: Config)
    requires Good(msgs, start, hashed, st) && st.rHdr == NO_HEADER && AllHonest(msgs, pkts) && HoldsLast(st)
    requires Readable(st, pkts, max, cfg)
    ensures Shown(st, ReadMessage(st, pkts, max, cfg), max)
    decreases |pkts|
  {
    if !Retrieve(st, max).1.Nothing? {
      BufferedShown(msgs, start, hashed, st, pkts, max, cfg);
    } else if pkts == [] {
      ShownNot(st, st, Nothing, [], max);
    } else if !Receive(st, pkts[0], max, cfg).1.Retry? {
      PacketShown(msgs, st, pkts, max, cfg);
    } else {
      var s := Receive(st, pkts[0], max, cfg).0;
      ReceiveLoads(msgs, st, pkts[0], max, cfg);
      ReceiveKeepsGood(msgs, start, hashed, st, pkts[0], max, cfg);
      ShownNot(st, s, Nothing, [], max);
      ReadHolds(msgs, start, hashed, s, pkts[1..], max, cfg);
      ShownLater(st, s, ReadMessage(s, pkts[1..], max, cfg), max);
    }
  }

  // ---- Over runs ----

  lemma FreshReadHolds(msgs: seq<Message>, start: nat, hashed: seq<byte>, st: State, waiting: seq<Packet>,
                       mt: int, max: nat, cfg: Config)
    requires Good(msgs, start, hashed, st) && AllHonest(msgs, waiting) && HoldsLast(st) && !st.reuse
    requires Readable(st.(rHdr := NO_HEADER), waiting, max, cfg)
    ensures HoldsLast(GetMessage(st, mt, waiting, max, cfg).st)
  {
    var s := st.(rHdr := NO_HEADER);
    SameHeaderless(msgs, start, hashed, st);
    ReadHolds(msgs, start, hashed, s, waiting, max, cfg);
  }

  lemma SameHeaderless(msgs: seq<Message>, start: nat, hashed: seq<byte>, st: State)
    requires Good(msgs, start, hashed, st) && HoldsLast(st)
    ensures Good(msgs, start, hashed, st.(rHdr := NO_HEADER)) && HoldsLast(st.(rHdr := NO_HEADER))
  {
  }

  lemma RepeatedReadHolds(st: State, waiting: seq<Packet>, mt: int, max: nat, cfg: Config)
    requires HoldsLast(st) && st.reuse
    ensures HoldsLast(GetMessage(st, mt, waiting, max, cfg).st)
  {
  }

  lemma NextHolds(msgs: seq<Message>, start: nat, hashed: seq<byte>, x: Session, a: Action, cfg: Config)
    requires Sound(msgs, start, hashed, x) && (a.Arrive? ==> AllHonest(msgs, a.pkts)) && HoldsLast(x.st)
    ensures HoldsLast(Next(msgs, start, hashed, x, a, cfg).st)
  {
    match a {
      case Arrive(_) =>
      case PutBack =>
      case Read(mt, max) =>
        ReadStep(msgs, start, hashed, x.st, x.waiting, mt, max, cfg);
        if x.st.reuse {
          RepeatedReadHolds(x.st, x.waiting, mt, max, cfg);
        } else {
          FreshReadHolds(msgs, start, hashed, x.st, x.waiting, mt, max, cfg);
        }
    }
  }

  lemma {:induction false} RunHolds(msgs: seq<Message>, start: nat, hashed: seq<byte>, x: Session,
                                    actions: seq<Action>, cfg: Config)
    requires Sound(msgs, start, hashed, x) && HonestNetwork(msgs, actions) && HoldsLast(x.st)
    ensures HoldsLast(Run(msgs, start, hashed, x, actions, cfg).st)
    decreases |actions|
  {
    if actions != [] && !x.over {
      NextHolds(msgs, start, hashed, x, actions[0], cfg);
      RunHolds(msgs, start, hashed, Next(msgs, start, hashed, x, actions[0], cfg), actions[1..], cfg);
    }
  }

  /** Where a run of a fresh reader leads */
  ghost predicate Reached(msgs: seq<Message>, start: nat, hashed: seq<byte>, x: Session,
                          actions: seq<Action>, cfg: Config)
  {
    && Sound(msgs, start, hashed, FreshSession(start, hashed)) && HonestNetwork(msgs, actions)
    && x == Run(msgs, start, hashed, FreshSession(start, hashed), actions, cfg)
  }

  /** In every run, a read that delivers a new message shows its octets to the caller, at most `max` of them. */
  lemma ReadIsSeen(msgs: seq<Message>, start: nat, hashed: seq<byte>, x: Session, actions: seq<Action>,
                   mt: int, max: nat, cfg: Config)
    requires Reached(msgs, start, hashed, x, actions, cfg)
    ensures var y := Next(msgs, start, hashed, x, Read(mt, max), cfg).st;
            |y.delivered| > |x.st.delivered| ==>
              && y.delivered[..|y.delivered| - 1] == x.st.delivered
              && Sees(y, Last(y)) && |Last(y).body| <= max
  {
    RunHolds(msgs, start, hashed, FreshSession(start, hashed), actions, cfg);
    if !x.st.reuse {
      ReadStep(msgs, start, hashed, x.st, x.waiting, mt, max, cfg);
      ReadHolds(msgs, start, hashed, x.st.(rHdr := NO_HEADER), x.waiting, max, cfg);
    }
  }

  /**
   * In every run, a message that is put back is read again exactly when the next caller asks for its type or
   * for any; to that caller it looks as it did before, and nothing is read, hashed or counted twice. Any other
   * caller fails.
   */
  lemma PutBackIsReadAgain(msgs: seq<Message>, start: nat, hashed: seq<byte>, x: Session, actions: seq<Action>,
                           mt: int, max: nat, cfg: Config)
    requires Reached(msgs, start, hashed, x, actions, cfg) && x.st.delivered != []
    ensures var d := Last(x.st);
            var y := Next(msgs, start, hashed, x, Action.PutBack, cfg);
            var z := Next(msgs, start, hashed, y, Read(mt, max), cfg);
            && (!z.over <==> mt < 0 || mt == d.typ as int)
            && (!z.over ==> Sees(z.st, d))
            && !z.st.reuse && z.waiting == x.waiting && z.st.delivered == x.st.delivered
            && z.st.readSeq == x.st.readSeq && z.st.finishMac == x.st.finishMac && z.st.queue == x.st.queue
  {
    RunHolds(msgs, start, hashed, FreshSession(start, hashed), actions, cfg);
  }
}
