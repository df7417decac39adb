/** Sender, network and receiver together. */
module EndToEnd {
  import opened Bytes
  import opened HandshakeHeader
  import opened FragmentPlan
  import opened ReceiveSpec
  import opened OrderedDelivery

  // ---- Any run of a receiver ----

  /** What happens at a receiver: packets come in, the driver asks for a message, or puts the last one back. */
  datatype Action = Arrive(pkts: seq<Packet>) | Read(mt: int, max: nat) | PutBack

  /** Every packet that arrives is honest. */
  ghost predicate HonestNetwork(msgs: seq<Message>, actions: seq<Action>) {
    forall i :: 0 <= i < |actions| ==> actions[i].Arrive? ==> AllHonest(msgs, actions[i].pkts)
  }

  /** A reader, the packets it has still to read, and whether a failed read has ended the connection. */
  datatype Session = Session(st: State, waiting: seq<Packet>, over: bool)

  ghost predicate Sound(msgs: seq<Message>, start: nat, hashed: seq<byte>, x: Session) {
    Good(msgs, start, hashed, x.st) && AllHonest(msgs, x.waiting)
  }

  lemma ReadStep(msgs: seq<Message>, start: nat, hashed: seq<byte>, st: State, waiting: seq<Packet>,
                 mt: int, max: nat, cfg: Config)
    requires Good(msgs, start, hashed, st) && AllHonest(msgs, waiting)
    ensures st.reuse || Readable(st.(rHdr := NO_HEADER), waiting, max, cfg)
    ensures var r := GetMessage(st, mt, waiting, max, cfg);
            Good(msgs, start, hashed, r.st) && AllHonest(msgs, r.rest) && st.readSeq <= r.st.readSeq
  {
    if !st.reuse {
      ReadKeepsGood(msgs, start, hashed, st.(rHdr := NO_HEADER), waiting, max, cfg);
      ReadConsumesPrefix(st.(rHdr := NO_HEADER), waiting, max, cfg);
    }
  }

  ghost function Next(msgs: seq<Message>, start: nat, hashed: seq<byte>, x: Session, a: Action, cfg: Config)
    : (y: Session)
    requires Sound(msgs, start, hashed, x) && (a.Arrive? ==> AllHonest(msgs, a.pkts))
    ensures Sound(msgs, start, hashed, y) && x.st.readSeq <= y.st.readSeq
  {
    match a
    case Arrive(pkts) => x.(waiting := x.waiting + pkts)
    case PutBack => x.(st := x.st.(reuse := true))
    case Read(mt, max) =>
      ReadStep(msgs, start, hashed, x.st, x.waiting, mt, max, cfg);
      var r := GetMessage(x.st, mt, x.waiting, max, cfg);
      Session(r.st, r.rest, r.outcome.Failed?)
  }

  ghost function Run(msgs: seq<Message>, start: nat, hashed: seq<byte>, x: Session, actions: seq<Action>, cfg: Config)
    : (r: Session)
    requires Sound(msgs, start, hashed, x) && HonestNetwork(msgs, actions)
    ensures Sound(msgs, start, hashed, r)
    decreases |actions|
  {
    if actions == [] || x.over then x
    else Run(msgs, start, hashed, Next(msgs, start, hashed, x, actions[0], cfg), actions[1..], cfg)
  }

  function FreshSession(start: nat, hashed: seq<byte>): Session { Session(FreshReader(start, hashed), [], false) }

  lemma FreshReaderIsGood(msgs: seq<Message>, start: nat, hashed: seq<byte>)
    requires Supported(msgs) && start <= |msgs|
    ensures Good(msgs, start, hashed, FreshReader(start, hashed))
  {
    assert hashed + Transcript(msgs, start, start) == hashed;
  }

  /**
   * Ordered, exactly-once delivery: under any reordering, duplication and loss of honest fragments, and
   * any calls of the driver, what has been returned is a prefix of the sender's messages from number
   * `start` on, bodies intact.
   */
  lemma DeliveredIsPrefix(msgs: seq<Message>, start: nat, hashed: seq<byte>, x: Session,
                          actions: seq<Action>, cfg: Config)
    requires Sound(msgs, start, hashed, x) && HonestNetwork(msgs, actions)
    ensures Run(msgs, start, hashed, x, actions, cfg).st.delivered <= Deliveries(msgs, start, |msgs|)
  {
    var r := Run(msgs, start, hashed, x, actions, cfg).st;
    assert Deliveries(msgs, start, r.readSeq) == Deliveries(msgs, start, |msgs|)[..r.readSeq - start];
  }

  // ---- What the sender emits is honest ----

  /** How a datagram's payload is read: header first, then the octets after it. */
  function ParsePacket(payload: seq<byte>): Packet
    requires |payload| >= HM_HEADER_LENGTH
  {
    Packet(ParseHeader(payload[..HM_HEADER_LENGTH]), payload[HM_HEADER_LENGTH..])
  }

  /** A payload some emission of message `k`, at some MTUs, puts on the wire. */
  ghost predicate Emitted(msgs: seq<Message>, k: nat, payload: seq<byte>) {
    k < |msgs| && exists link: Link, j: nat :: EmittedBy(msgs, k, link, j, payload)
  }

  ghost predicate EmittedBy(msgs: seq<Message>, k: nat, link: Link, j: nat, payload: seq<byte>)
    requires k < |msgs|
  {
    && link.Valid()
    && var cuts := PlanFrom(link, 0, true, 0, |msgs[k].body|).cuts;
       && j < |cuts| && cuts[j].off + cuts[j].len <= |msgs[k].body|
       && payload == Fragment(HeaderOf(msgs[k], k), msgs[k].body, cuts[j])
  }

  lemma ParseFragment(h: HmHeader, body: seq<byte>, c: Cut)
    requires c.off + c.len <= |body| && h.(fragOff := c.off, fragLen := c.len).Fits()
    ensures ParsePacket(Fragment(h, body, c))
            == Packet(h.(fragOff := c.off, fragLen := c.len), body[c.off..c.off + c.len])
  {
    var header := WriteHeader(h.(fragOff := c.off, fragLen := c.len));
    var payload := Fragment(h, body, c);
    assert payload[..HM_HEADER_LENGTH] == header;
    assert payload[HM_HEADER_LENGTH..] == body[c.off..c.off + c.len];
    ParseOfWrite(h.(fragOff := c.off, fragLen := c.len));
  }

  lemma EmittedIsHonest(msgs: seq<Message>, k: nat, payload: seq<byte>)
    requires Supported(msgs) && Emitted(msgs, k, payload)
    ensures |payload| >= HM_HEADER_LENGTH && Honest(msgs, ParsePacket(payload))
  {
    var link: Link, j: nat :| EmittedBy(msgs, k, link, j, payload);
    var body := msgs[k].body;
    var c := PlanFrom(link, 0, true, 0, |body|).cuts[j];
    PlanPartitions(link, 0, true, 0, |body|);
    ParseFragment(HeaderOf(msgs[k], k), body, c);
  }

  lemma CutOfWhole(link: Link, first: bool, total: nat, c: Cut)
    requires link.Valid() && total > 0 && c in PlanFrom(link, 0, first, 0, total).cuts
    ensures c.len > 0 && c.off + c.len <= total
  {
    PlanPartitions(link, 0, first, 0, total);
    ContiguousWithin(PlanFrom(link, 0, first, 0, total).cuts, 0, total);
  }

  /** The octets of a cut taken `sent` octets further on */
  lemma ShiftedIsHonestIff(msgs: seq<Message>, k: nat, sent: nat, c: Cut)
    requires Supported(msgs) && k < |msgs| && sent + c.off + c.len <= |msgs[k].body| && c.len > 0
    ensures var body := msgs[k].body;
            Honest(msgs, ParsePacket(Fragment(HeaderOf(msgs[k], k), body[sent..], c))) <==>
            body[c.off..c.off + c.len] == body[sent + c.off..sent + c.off + c.len]
  {
    ParseFragment(HeaderOf(msgs[k], k), msgs[k].body[sent..], c);
    SliceOfRest(msgs[k].body, sent, c.off, c.len);
  }

  lemma SliceOfRest(body: seq<byte>, sent: nat, off: nat, len: nat)
    requires sent + off + len <= |body|
    ensures body[sent..][off..off + len] == body[sent + off..sent + off + len]
  {
  }

  /**
   * A resumed write announces its fragments from offset 0 again, but carries what follows the octets `sent`
   * before. Such a fragment is honest exactly when the message happens to have the same octets at both places.
   */
  lemma ResumedIsHonestIff(msgs: seq<Message>, k: nat, again: Link, sent: nat, c: Cut)
    requires Supported(msgs) && k < |msgs| && sent < |msgs[k].body| && again.Valid()
    requires c in PlanFrom(again, 0, sent == 0, 0, |msgs[k].body| - sent).cuts
    ensures sent + c.off + c.len <= |msgs[k].body|
    ensures var body := msgs[k].body;
            Honest(msgs, ParsePacket(Fragment(HeaderOf(msgs[k], k), body[sent..], c))) <==>
            body[c.off..c.off + c.len] == body[sent + c.off..sent + c.off + c.len]
  {
    CutOfWhole(again, sent == 0, |msgs[k].body| - sent, c);
    ShiftedIsHonestIff(msgs, k, sent, c);
  }

  // ---- Transcripts ----

  /** What the sender hashes for messages from .. to-1, message k going out over links(k). */
  ghost function SenderHash(msgs: seq<Message>, links: nat -> Link, from: nat, to: nat): seq<byte>
    requires from <= to <= |msgs|
    requires forall k: nat :: links(k).Valid()
  {
    if from == to then []
    else
      SenderHash(msgs, links, from, to - 1)
      + HashedOver(links(to - 1), HeaderOf(msgs[to - 1], to - 1), msgs[to - 1].body)
  }

  /** Whatever MTUs each message meets, the sender hashes the messages as if none had been fragmented. */
  lemma {:induction false} SenderTranscript(msgs: seq<Message>, links: nat -> Link, from: nat, to: nat)
    requires from <= to <= |msgs|
    requires forall k: nat :: links(k).Valid()
    requires forall k :: from <= k < to ==> PlanFrom(links(k), 0, true, 0, |msgs[k].body|).complete
    ensures SenderHash(msgs, links, from, to) == Transcript(msgs, from, to)
  {
    if from < to {
      SenderTranscript(msgs, links, from, to - 1);
      var link, h, body := links(to - 1), HeaderOf(msgs[to - 1], to - 1), msgs[to - 1].body;
      SenderHashesCanonicalForm(link, h, body);
      ConcatEqual(SenderHash(msgs, links, from, to - 1), HashedOver(link, h, body),
                  Transcript(msgs, from, to - 1), Canonical(h, body));
    }
  }

  lemma ConcatEqual(a: seq<byte>, b: seq<byte>, c: seq<byte>, d: seq<byte>)
    requires a == c && b == d
    ensures a + b == c + d
  {
  }

  lemma {:induction false} TranscriptPrefix(msgs: seq<Message>, from: nat, mid: nat, to: nat)
    requires from <= mid <= to <= |msgs|
    ensures Transcript(msgs, from, mid) <= Transcript(msgs, from, to)
  {
    if mid < to { TranscriptPrefix(msgs, from, mid, to - 1); }
  }

  /** A good reader has hashed a prefix of what the sender hashes, and in the end all of it. */
  lemma GoodTranscript(msgs: seq<Message>, start: nat, hashed: seq<byte>, links: nat -> Link, st: State)
    requires Good(msgs, start, hashed, st)
    requires forall k: nat :: links(k).Valid()
    requires forall k :: start <= k < |msgs| ==> PlanFrom(links(k), 0, true, 0, |msgs[k].body|).complete
    ensures st.finishMac <= hashed + SenderHash(msgs, links, start, |msgs|)
    ensures st.readSeq == |msgs| ==> st.finishMac == hashed + SenderHash(msgs, links, start, |msgs|)
  {
    SenderTranscript(msgs, links, start, |msgs|);
    TranscriptPrefix(msgs, start, st.readSeq, |msgs|);
  }

  /**
   * Both ends hash the same octets: at the end of every run of a fresh reader, its hash input is a prefix of
   * the sender's, and the two are equal once all messages have been delivered.
   */
  lemma TranscriptsAgree(msgs: seq<Message>, start: nat, hashed: seq<byte>, links: nat -> Link,
                         actions: seq<Action>, cfg: Config)
    requires Supported(msgs) && start <= |msgs| && HonestNetwork(msgs, actions)
    requires forall k: nat :: links(k).Valid()
    requires forall k :: start <= k < |msgs| ==> PlanFrom(links(k), 0, true, 0, |msgs[k].body|).complete
    ensures Good(msgs, start, hashed, FreshReader(start, hashed))
    ensures var r := Run(msgs, start, hashed, FreshSession(start, hashed), actions, cfg).st;
            && r.finishMac <= hashed + SenderHash(msgs, links, start, |msgs|)
            && (r.delivered == Deliveries(msgs, start, |msgs|) ==>
                  r.finishMac == hashed + SenderHash(msgs, links, start, |msgs|))
  {
    FreshReaderIsGood(msgs, start, hashed);
    GoodTranscript(msgs, start, hashed, links, Run(msgs, start, hashed, FreshSession(start, hashed), actions, cfg).st);
  }
}
