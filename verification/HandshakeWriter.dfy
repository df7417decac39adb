/**
 * The sending side of the handshake message layer (d1_both.c), down to the numbering of records in
 * do_dtls1_write (d1_pkt.c). The datagrams put on the wire and the octets fed to the handshake hash
 * are kept as logs.
 */
module HandshakeWriter {
  import opened Bytes
  import opened HandshakeHeader
  import opened FragmentPlan
  import opened PQueue
  import opened SendOrder
  import opened WriteNumbers

  const CCS_HEADER_LENGTH: nat := 1
  const MT_CCS: byte := 1

  /** The parts of the connection a message must be resent under: enc_write_ctx, write_hash, compress, session. */
  datatype WriteState = WriteState(encWriteCtx: nat, writeHash: nat, compress: nat, session: nat)

  datatype ContentType = HandshakeRecord | CcsRecord

  datatype Record = Record(typ: ContentType, epoch: nat, seqNum: nat, state: WriteState, payload: seq<byte>)

  /** An entry of sent_messages: the message, its header and dtls1_retransmit_state. */
  datatype Saved = Saved(header: HmHeader, isCcs: bool, payload: seq<byte>, state: WriteState, epoch: nat)
  {
    predicate Valid() {
      && |payload| == header.msgLen + (if isCcs then CCS_HEADER_LENGTH else HM_HEADER_LENGTH)
      && (isCcs ==> header.msgLen == 0)
    }

    /** The message without its header. */
    function Body(): seq<byte>
      requires Valid() && !isCcs
    {
      payload[HM_HEADER_LENGTH..]
    }
  }

  /** The records a run of payloads becomes, numbered from `from`. */
  function Records(typ: ContentType, epoch: nat, from: nat, state: WriteState, payloads: seq<seq<byte>>)
    : (r: seq<Record>)
    ensures |r| == |payloads|
  {
    seq(|payloads|, j requires 0 <= j < |payloads| =>
      Record(typ, epoch, (from + j) % SEQ_LIMIT, state, payloads[j]))
  }

  function LogOf(wire: seq<Record>): (r: seq<Number>)
    ensures |r| == |wire|
  {
    seq(|wire|, j requires 0 <= j < |wire| => Number(wire[j].epoch, wire[j].seqNum))
  }

  lemma LogOfConcat(a: seq<Record>, b: seq<Record>)
    ensures LogOf(a + b) == LogOf(a) + LogOf(b)
  {
  }

  lemma LogOfRecords(typ: ContentType, epoch: nat, from: nat, state: WriteState, payloads: seq<seq<byte>>)
    ensures LogOf(Records(typ, epoch, from, state, payloads)) == Numbers(epoch, from, |payloads|)
  {
  }

  lemma RecordsCons(typ: ContentType, epoch: nat, from: nat, state: WriteState, p: seq<byte>, payloads: seq<seq<byte>>)
    ensures Records(typ, epoch, from, state, [p] + payloads)
            == [Record(typ, epoch, from % SEQ_LIMIT, state, p)] + Records(typ, epoch, from + 1, state, payloads)
  {
  }

  /** What one emission of a whole saved message puts on the wire. */
  function Payloads(m: Saved, link: Link): seq<seq<byte>>
    requires m.Valid() && link.Valid()
  {
    if m.isCcs then (if link.Stalls(0) then [] else [m.payload])
    else
      var cuts := PlanFrom(link, 0, true, 0, |m.Body()|).cuts;
      PlanPartitions(link, 0, true, 0, |m.Body()|);
      ContiguousWithin(cuts, 0, |m.Body()|);
      Fragments(m.header, m.Body(), cuts)
  }

  /** What writing changes: the wire, write_sequence, and the octets hashed. */
  datatype Output = Output(wire: seq<Record>, writeSequence: nat, finishMac: seq<byte>)

  /** What writing depends on and leaves alone. */
  datatype Mode = Mode(epoch: nat, state: WriteState, retransmitting: bool)

  function FragmentRecord(at: nat, mode: Mode, h: HmHeader, tail: seq<byte>, c: Cut): Record
    requires c.off + c.len <= |tail|
  {
    Record(HandshakeRecord, mode.epoch, at % SEQ_LIMIT, mode.state, Fragment(h, tail, c))
  }

  /** The wire once the fragments are sent, with numbers from `at` on. */
  function OnWire(wire: seq<Record>, at: nat, mode: Mode, h: HmHeader, tail: seq<byte>, cuts: seq<Cut>): seq<Record>
    requires Within(cuts, |tail|)
  {
    wire + Records(HandshakeRecord, mode.epoch, at, mode.state, Fragments(h, tail, cuts))
  }

  /** The handshake hash once they are sent, and once the first of them is; retransmissions are not hashed again. */
  function MacOver(mac: seq<byte>, mode: Mode, h: HmHeader, tail: seq<byte>, cuts: seq<Cut>): seq<byte>
    requires Within(cuts, |tail|)
  {
    if mode.retransmitting then mac else mac + Hashed(h, tail, cuts)
  }

  function MacOne(mac: seq<byte>, mode: Mode, h: HmHeader, tail: seq<byte>, c: Cut): seq<byte>
    requires c.off + c.len <= |tail|
  {
    if mode.retransmitting then mac else mac + HashedPiece(h, tail, c)
  }

  /** The output once the fragments `cuts` of `tail` are sent. */
  function Emit(o: Output, mode: Mode, h: HmHeader, tail: seq<byte>, cuts: seq<Cut>): Output
    requires Within(cuts, |tail|)
  {
    Output(OnWire(o.wire, o.writeSequence, mode, h, tail, cuts),
           o.writeSequence + |cuts|,
           MacOver(o.finishMac, mode, h, tail, cuts))
  }

  function EmitOne(o: Output, mode: Mode, h: HmHeader, tail: seq<byte>, c: Cut): Output
    requires c.off + c.len <= |tail|
  {
    Output(o.wire + [FragmentRecord(o.writeSequence, mode, h, tail, c)],
           o.writeSequence + 1,
           MacOne(o.finishMac, mode, h, tail, c))
  }

  /** Sending the first fragment, then the rest from there. */
  lemma EmitCons(o: Output, mode: Mode, h: HmHeader, now: HmHeader, tail: seq<byte>, c: Cut, rest: seq<Cut>)
    requires Within(rest, |tail|) && c.off + c.len <= |tail|
    requires now == h.(fragOff := now.fragOff, fragLen := now.fragLen)
    ensures Within([c] + rest, |tail|)
    ensures Emit(EmitOne(o, mode, now, tail, c), mode, h, tail, rest) == Emit(o, mode, h, tail, [c] + rest)
  {
    WithinCons(c, rest, |tail|);
    SameOne(o, mode, h, now, tail, c);
    EmitOneMore(o, mode, h, tail, c, rest);
  }

  lemma SameOne(o: Output, mode: Mode, h: HmHeader, now: HmHeader, tail: seq<byte>, c: Cut)
    requires c.off + c.len <= |tail| && now == h.(fragOff := now.fragOff, fragLen := now.fragLen)
    ensures EmitOne(o, mode, now, tail, c) == EmitOne(o, mode, h, tail, c)
  {
    RangeIsIrrelevant(h, now, tail, c);
  }

  lemma WithinCons(c: Cut, rest: seq<Cut>, total: nat)
    requires Within(rest, total) && c.off + c.len <= total
    ensures Within([c] + rest, total)
  {
  }

  lemma EmitOneMore(o: Output, mode: Mode, h: HmHeader, tail: seq<byte>, c: Cut, rest: seq<Cut>)
    requires Within(rest, |tail|) && c.off + c.len <= |tail| && Within([c] + rest, |tail|)
    ensures Emit(EmitOne(o, mode, h, tail, c), mode, h, tail, rest) == Emit(o, mode, h, tail, [c] + rest)
  {
    OnWireCons(o.wire, o.writeSequence, mode, h, tail, c, rest);
    MacCons(o.finishMac, mode, h, tail, c, rest);
  }

  lemma MacCons(mac: seq<byte>, mode: Mode, h: HmHeader, tail: seq<byte>, c: Cut, rest: seq<Cut>)
    requires Within(rest, |tail|) && c.off + c.len <= |tail|
    ensures Within([c] + rest, |tail|)
    ensures MacOver(MacOne(mac, mode, h, tail, c), mode, h, tail, rest) == MacOver(mac, mode, h, tail, [c] + rest)
  {
    HashedCons(h, tail, c, rest);
    Assoc(mac, HashedPiece(h, tail, c), Hashed(h, tail, rest));
  }

  lemma OnWireCons(wire: seq<Record>, at: nat, mode: Mode, h: HmHeader, tail: seq<byte>, c: Cut, rest: seq<Cut>)
    requires Within(rest, |tail|) && c.off + c.len <= |tail|
    ensures Within([c] + rest, |tail|)
    ensures OnWire(wire + [FragmentRecord(at, mode, h, tail, c)], at + 1, mode, h, tail, rest)
            == OnWire(wire, at, mode, h, tail, [c] + rest)
  {
    FragmentsCons(h, tail, c, rest);
    RecordsCons(HandshakeRecord, mode.epoch, at, mode.state, Fragment(h, tail, c), Fragments(h, tail, rest));
    Assoc(wire, [FragmentRecord(at, mode, h, tail, c)],
          Records(HandshakeRecord, mode.epoch, at + 1, mode.state, Fragments(h, tail, rest)));
  }

  lemma Assoc<T>(a: seq<T>, b: seq<T>, c: seq<T>)
    ensures (a + b) + c == a + (b + c)
  {
  }

  lemma EmitNothing(o: Output, mode: Mode, h: HmHeader, tail: seq<byte>)
    ensures Emit(o, mode, h, tail, []) == o
  {
    assert Records(HandshakeRecord, mode.epoch, o.writeSequence, mode.state, Fragments(h, tail, [])) == [];
  }

  /** The plan of one call that still has `unsent` to send. */
  ghost function PlannedFor(link: Link, first: bool, unsent: seq<byte>): Plan
    requires link.Valid()
    requires unsent == [] ==> first
  {
    Left(link, 0, first, 0, |unsent|)
  }

  /** The plan from iteration `i` on. */
  ghost function Left(link: Link, i: nat, first: bool, off: nat, total: nat): Plan
    requires link.Valid() && off <= total && (off == total ==> first)
  {
    PlanFrom(link, i, first, off, total)
  }

  ghost function SentBy(p: Plan): nat {
    Sent(p.cuts)
  }

  /** A plan that does not stall is its first cut followed by the plan for what that leaves. */
  lemma PlanCons(link: Link, i: nat, first: bool, off: nat, n: nat, i': nat, first': bool, off': nat, total: nat)
    requires link.Valid() && off <= total && (off == total ==> first) && !link.Stalls(i)
    requires Within(Left(link, i, first, off, total).cuts, total)
    requires n == CutLen(link.Budget(i), first, total - off)
    requires i' == i + 1 && !first' && off' == off + n
    ensures off' == total ==> Left(link, i, first, off, total) == Plan([Cut(off, n)], true)
    ensures off' < total ==>
              var p, q := Left(link, i, first, off, total), Left(link, i', first', off', total);
              && p.cuts == [Cut(off, n)] + q.cuts && p.complete == q.complete
              && SentBy(p) == n + SentBy(q) && Within(q.cuts, total)
  {
    if off' < total {
      var p, q := Left(link, i, first, off, total), Left(link, i', first', off', total);
      assert p.cuts[1..] == q.cuts;
      assert forall j :: 0 <= j < |q.cuts| ==> q.cuts[j] == p.cuts[j + 1];
    }
  }

  /** What is left of a plan, and of its output, once its next fragment has gone out. */
  lemma PlanStep(link: Link, i: nat, first: bool, off: nat, n: nat, i': nat, first': bool, off': nat,
                 o: Output, mode: Mode, h: HmHeader, now: HmHeader, tail: seq<byte>)
    requires link.Valid() && off <= |tail| && (off == |tail| ==> first) && !link.Stalls(i)
    requires now == h.(fragOff := now.fragOff, fragLen := now.fragLen)
    requires Within(Left(link, i, first, off, |tail|).cuts, |tail|)
    requires n == CutLen(link.Budget(i), first, |tail| - off)
    requires i' == i + 1 && !first' && off' == off + n
    ensures var p, next := Left(link, i, first, off, |tail|), EmitOne(o, mode, now, tail, Cut(off, n));
            && (off' == |tail| ==> p.complete && Emit(o, mode, h, tail, p.cuts) == next)
            && (off' < |tail| ==>
                  var q := Left(link, i', first', off', |tail|);
                  && Within(q.cuts, |tail|)
                  && q.complete == p.complete && SentBy(p) == n + SentBy(q)
                  && Emit(next, mode, h, tail, q.cuts) == Emit(o, mode, h, tail, p.cuts))
  {
    PlanCons(link, i, first, off, n, i', first', off', |tail|);
    if off' == |tail| {
      EmitCons(o, mode, h, now, tail, Cut(off, n), []);
      EmitNothing(EmitOne(o, mode, now, tail, Cut(off, n)), mode, h, tail);
      assert [Cut(off, n)] + [] == [Cut(off, n)];
    } else {
      EmitCons(o, mode, h, now, tail, Cut(off, n), Left(link, i', first', off', |tail|).cuts);
    }
  }

  /** One thing to send: what kind, the handshake type, and the octets init_buf holds for it. */
  datatype Outgoing = Outgoing(kind: Sending, typ: byte, payload: seq<byte>)
  {
    predicate Valid() {
      if kind.Ccs? then payload == [MT_CCS] && typ == MT_CCS else |payload| >= HM_HEADER_LENGTH
    }

    function Header(seqNum: nat): HmHeader
      requires Valid()
    {
      var len := if kind.Ccs? then 0 else |payload| - HM_HEADER_LENGTH;
      HmHeader(typ, len, seqNum, 0, len)
    }

    function Save(seqNum: nat, state: WriteState, epoch: nat): (m: Saved)
      requires Valid()
      ensures m.Valid()
    {
      Saved(Header(seqNum), kind.Ccs?, payload, state, epoch)
    }
  }

  /** What every entry of sent_messages satisfies, in a writer whose init_buf has `room` octets. */
  ghost predicate EntryValid(e: Item<Saved>, room: nat) {
    && e.data.Valid()
    && e.key == QueuePriority(e.data.header.seqNum, e.data.isCcs)
    && |e.data.payload| <= room
  }

  ghost predicate QueueValid(q: seq<Item<Saved>>, room: nat) {
    Sorted(q) && forall i :: 0 <= i < |q| ==> EntryValid(q[i], room)
  }

  lemma InsertKeepsValid(q: seq<Item<Saved>>, e: Item<Saved>, room: nat)
    requires QueueValid(q, room) && EntryValid(e, room)
    ensures QueueValid(Insert(q, e), room)
  {
    var n := Slot(q, e.key);
    var r := Insert(q, e);
    if r != q {
      forall i | 0 <= i < |r| ensures EntryValid(r[i], room) {
        assert r[i] == if i < n then q[i] else if i == n then e else q[i - 1];
      }
    }
  }

  lemma MoreRoom(q: seq<Item<Saved>>, room: nat, more: nat)
    requires QueueValid(q, room) && room <= more
    ensures QueueValid(q, more)
  {
    forall i | 0 <= i < |q| ensures EntryValid(q[i], more) { assert EntryValid(q[i], room); }
  }

  /** sent_messages once `x` is prepared under message number `next`. */
  function Enqueue(q: seq<Item<Saved>>, next: nat, x: Outgoing, state: WriteState, epoch: nat): (r: seq<Item<Saved>>)
    requires Sorted(q) && x.Valid()
    ensures Sorted(r)
  {
    if x.kind.Unkept? then q
    else Insert(q, Item(QueuePriority(next, x.kind.Ccs?), x.Save(next, state, epoch)))
  }

  /** The next message number, in the 16 bits the header has for it. */
  function Following(next: nat, kind: Sending): nat {
    NextNumber(next, kind) % 0x1_0000
  }

  /** What retransmitting `m` puts on the wire when its numbers start at `from`. */
  function Resent(m: Saved, link: Link, from: nat): seq<Record>
    requires m.Valid() && link.Valid()
  {
    Records(if m.isCcs then CcsRecord else HandshakeRecord, m.epoch, from, m.state, Payloads(m, link))
  }

  /** The counter a message of `epoch` is resent under. */
  function ResendFrom(c: Counters, epoch: nat): nat {
    if epoch == c.wEpoch - 1 then c.last else c.next
  }

  /** Resending the queue from position `k` on, message by message, each over its own view of the link. */
  ghost function Flight(q: seq<Item<Saved>>, links: nat -> Link, k: nat, c: Counters): seq<Record>
    requires k <= |q| && CanResend(q, links)
    decreases |q| - k
  {
    if k == |q| then []
    else
      var m := q[k].data;
      Resent(m, links(k), ResendFrom(c, m.epoch)) + Flight(q, links, k + 1, Replay(c, m.epoch, |Payloads(m, links(k))|))
  }

  /** The events of that flight, for the counters. */
  ghost function FlightEvents(q: seq<Item<Saved>>, links: nat -> Link, k: nat): seq<Event>
    requires k <= |q| && CanResend(q, links)
    decreases |q| - k
  {
    if k == |q| then []
    else [Retransmission(q[k].data.epoch, |Payloads(q[k].data, links(k))|)] + FlightEvents(q, links, k + 1)
  }

  ghost predicate CanResend(q: seq<Item<Saved>>, links: nat -> Link) {
    && (forall k: nat :: links(k).Valid())
    && (forall i, k: nat :: 0 <= i < |q| ==> q[i].data.Valid() && RecordsFit(links(k), q[i].data.header.msgLen))
  }

  /** A flight is its first message and the flight from there on, and so are its events. */
  lemma FlightStep(q: seq<Item<Saved>>, links: nat -> Link, k: nat, c: Counters, wire: seq<Record>)
    requires k < |q| && CanResend(q, links)
    ensures var m := q[k].data;
            var next := Replay(c, m.epoch, |Payloads(m, links(k))|);
            && wire + Flight(q, links, k, c)
               == (wire + Resent(m, links(k), ResendFrom(c, m.epoch))) + Flight(q, links, k + 1, next)
            && Run(c, FlightEvents(q, links, k)) == Run(next, FlightEvents(q, links, k + 1))
  {
    var m := q[k].data;
    var n := |Payloads(m, links(k))|;
    Assoc(wire, Resent(m, links(k), ResendFrom(c, m.epoch)), Flight(q, links, k + 1, Replay(c, m.epoch, n)));
    var e, rest := Retransmission(m.epoch, n), FlightEvents(q, links, k + 1);
    assert FlightEvents(q, links, k) == [e] + rest && ([e] + rest)[1..] == rest;
  }

  /** A retransmission that is not cut short by a failed flush. */
  predicate GoesThrough(m: Saved, link: Link)
    requires m.Valid() && link.Valid()
  {
    if m.isCcs then !link.Stalls(0) else PlanFrom(link, 0, true, 0, |m.Body()|).complete
  }

  class HandshakeWriter {
    var initBuf: array<byte>
    var initOff: nat
    var initNum: nat
    var wMsgHdr: HmHeader
    var retransmitting: bool
    var handshakeWriteSeq: nat
    var nextHandshakeWriteSeq: nat
    var wEpoch: nat
    var writeSequence: nat
    var lastWriteSequence: nat
    var state: WriteState
    var sentMessages: seq<Item<Saved>>
    var wire: seq<Record>
    var finishMac: seq<byte>

    constructor (state: WriteState)
      ensures Valid() && fresh(initBuf) && this.state == state
      ensures Numbering() == Initial && wire == [] && finishMac == [] && sentMessages == []
      ensures initOff == 0 && initNum == 0 && !retransmitting && nextHandshakeWriteSeq == 0
    {
      initBuf := new byte[RT_MAX_PLAIN_LENGTH](_ => 0);
      initOff, initNum := 0, 0;
      wMsgHdr := HmHeader(0, 0, 0, 0, 0);
      retransmitting := false;
      handshakeWriteSeq, nextHandshakeWriteSeq := 0, 0;
      wEpoch, writeSequence, lastWriteSequence := 0, 0, 0;
      this.state := state;
      sentMessages, wire, finishMac := [], [], [];
    }

    ghost predicate Valid()
      reads this, initBuf
    {
      QueueValid(sentMessages, initBuf.Length)
    }

    ghost function Numbering(): Counters
      reads this
    {
      Counters(wEpoch, writeSequence, lastWriteSequence, LogOf(wire))
    }

    ghost function Out(): Output
      reads this
    {
      Output(wire, writeSequence, finishMac)
    }

    ghost function Under(): Mode
      reads this
    {
      Mode(wEpoch, state, retransmitting)
    }

    /** init_off and init_num describe a handshake message that still has octets to send. */
    ghost predicate Pending()
      reads this, initBuf
    {
      && HM_HEADER_LENGTH + wMsgHdr.msgLen <= initBuf.Length
      && initOff + initNum == HM_HEADER_LENGTH + wMsgHdr.msgLen
      && initNum > 0
      && (initOff == 0 || initOff > HM_HEADER_LENGTH)
    }

    /** The body octets still to be sent. */
    ghost function Unsent(): seq<byte>
      requires Pending()
      reads this, initBuf
    {
      initBuf[if initOff == 0 then HM_HEADER_LENGTH else initOff..HM_HEADER_LENGTH + wMsgHdr.msgLen]
    }

    /** do_dtls1_write: one record under the current epoch, number and state. */
    method WriteRecord(typ: ContentType, payload: seq<byte>)
      requires |payload| <= RT_MAX_PLAIN_LENGTH
      modifies this`wire, this`writeSequence
      ensures wire == old(wire) + [Record(typ, wEpoch, old(writeSequence) % SEQ_LIMIT, state, payload)]
      ensures writeSequence == old(writeSequence) + 1
    {
      wire := wire + [Record(typ, wEpoch, writeSequence % SEQ_LIMIT, state, payload)];
      writeSequence := writeSequence + 1;
    }

    /** memcpy into init_buf */
    method Store(at: nat, data: seq<byte>)
      requires at + |data| <= initBuf.Length
      modifies initBuf
      ensures initBuf[..] == old(initBuf[..at]) + data + old(initBuf[at + |data|..])
    {
      var i := 0;
      while i < |data|
        invariant 0 <= i <= |data|
        invariant initBuf[..at] == old(initBuf[..at])
        invariant initBuf[at..at + i] == data[..i]
        invariant initBuf[at + i..] == old(initBuf[at + i..])
      {
        initBuf[at + i] := data[i];
        i := i + 1;
      }
      assert initBuf[..] == initBuf[..at] + initBuf[at..at + i] + initBuf[at + i..];
    }

    /** memcpy to the start of init_buf */
    method Load(data: seq<byte>)
      requires |data| <= initBuf.Length
      modifies initBuf
      ensures initBuf[..|data|] == data
    {
      Store(0, data);
      assert initBuf[..|data|] == initBuf[..][..|data|];
    }

    /** Header over sent octets, record out, hash as if never fragmented. */
    method WriteFragment(fragOff: nat, n: nat, ghost tail: seq<byte>)
      requires fragOff + n <= |tail| && HM_HEADER_LENGTH + n <= RT_MAX_PLAIN_LENGTH
      requires initOff + HM_HEADER_LENGTH + |tail| - fragOff <= initBuf.Length
      requires initBuf[initOff + HM_HEADER_LENGTH..][..|tail| - fragOff] == tail[fragOff..]
      modifies this`wMsgHdr, this`wire, this`writeSequence, this`finishMac, initBuf
      ensures wMsgHdr == old(wMsgHdr).(fragOff := fragOff, fragLen := n)
      ensures Out() == EmitOne(old(Out()), Under(), old(wMsgHdr), tail, Cut(fragOff, n))
      ensures initBuf[initOff + HM_HEADER_LENGTH..] == old(initBuf[initOff + HM_HEADER_LENGTH..])
    {
      var body := initOff + HM_HEADER_LENGTH;
      ghost var rest := initBuf[body..];
      ghost var piece := tail[fragOff..fragOff + n];
      PieceOfRest(rest, tail, fragOff, n);
      wMsgHdr := wMsgHdr.(fragOff := fragOff, fragLen := n);
      StoreHeader(WriteHeader(wMsgHdr));
      HeaderThenPiece(WriteHeader(wMsgHdr), rest, n);
      WriteRecord(HandshakeRecord, initBuf[initOff..body + n]);
      if !retransmitting { HashFragment(fragOff, n, tail); }
    }

    /** ssl3_finish_mac for a fragment just written: for the first one with the header of the whole message. */
    method HashFragment(fragOff: nat, n: nat, ghost tail: seq<byte>)
      requires fragOff + n <= |tail| && initOff + HM_HEADER_LENGTH + n <= initBuf.Length
      requires initBuf[initOff + HM_HEADER_LENGTH..][..n] == tail[fragOff..fragOff + n]
      modifies this`finishMac, initBuf
      ensures finishMac == old(finishMac) + HashedPiece(wMsgHdr, tail, Cut(fragOff, n))
      ensures initBuf[initOff + HM_HEADER_LENGTH..] == old(initBuf[initOff + HM_HEADER_LENGTH..])
    {
      var body := initOff + HM_HEADER_LENGTH;
      ghost var rest := initBuf[body..];
      if fragOff == 0 {
        StoreHeader(WriteHeader(wMsgHdr.Whole()));
        HeaderThenPiece(WriteHeader(wMsgHdr.Whole()), rest, n);
        finishMac := finishMac + initBuf[initOff..body + n];
      } else {
        assert initBuf[body..body + n] == rest[..n];
        finishMac := finishMac + initBuf[body..body + n];
      }
    }

    static lemma PieceOfRest(rest: seq<byte>, tail: seq<byte>, fragOff: nat, n: nat)
      requires fragOff + n <= |tail| <= |rest| + fragOff
      requires rest[..|tail| - fragOff] == tail[fragOff..]
      ensures rest[..n] == tail[fragOff..fragOff + n]
    {
      assert rest[..n] == rest[..|tail| - fragOff][..n] == tail[fragOff..][..n];
    }

    lemma HeaderThenPiece(header: seq<byte>, rest: seq<byte>, n: nat)
      requires |header| == HM_HEADER_LENGTH && initOff + HM_HEADER_LENGTH <= initBuf.Length
      requires initBuf[initOff..initOff + HM_HEADER_LENGTH] == header
      requires initBuf[initOff + HM_HEADER_LENGTH..] == rest && n <= |rest|
      ensures initBuf[initOff..initOff + HM_HEADER_LENGTH + n] == header + rest[..n]
    {
      var body := initOff + HM_HEADER_LENGTH;
      assert initBuf[initOff..body + n] == initBuf[initOff..body] + initBuf[body..body + n];
      assert initBuf[body..body + n] == rest[..n];
    }

    /** dtls1_write_message_header at init_off */
    method StoreHeader(header: seq<byte>)
      requires |header| == HM_HEADER_LENGTH && initOff + HM_HEADER_LENGTH <= initBuf.Length
      modifies initBuf
      ensures initBuf[initOff..initOff + HM_HEADER_LENGTH] == header
      ensures initBuf[initOff + HM_HEADER_LENGTH..] == old(initBuf[initOff + HM_HEADER_LENGTH..])
    {
      Store(initOff, header);
      ghost var all := initBuf[..];
      assert initBuf[initOff..initOff + HM_HEADER_LENGTH] == all[initOff..initOff + HM_HEADER_LENGTH];
      assert initBuf[initOff + HM_HEADER_LENGTH..] == all[initOff + HM_HEADER_LENGTH..];
    }

    /** The length of the next fragment, with init_off moved back to make room for its header. */
    method MakeRoom(currMtu: int) returns (n: nat)
      requires Pending() && currMtu > HM_HEADER_LENGTH
      modifies this`initOff, this`initNum
      ensures n == CutLen(currMtu, old(initOff) == 0, |old(Unsent())|)
      ensures initOff == (if old(initOff) == 0 then 0 else old(initOff) - HM_HEADER_LENGTH)
      ensures initNum == HM_HEADER_LENGTH + |old(Unsent())|
    {
      var len := if initNum > currMtu then currMtu else initNum;
      if initOff != 0 {
        initOff, initNum := initOff - HM_HEADER_LENGTH, initNum + HM_HEADER_LENGTH;
        // write at least one octet after the header
        if len <= HM_HEADER_LENGTH { len := len + HM_HEADER_LENGTH; }
      }
      n := len - HM_HEADER_LENGTH;
    }

    /** Picks the length of the next fragment, sends it, and moves on. */
    method SendNext(currMtu: int, fragOff: nat, ghost tail: seq<byte>) returns (n: nat, fragOff': nat)
      requires Pending() && currMtu > HM_HEADER_LENGTH
      requires fragOff <= |tail| && Unsent() == tail[fragOff..]
      requires initOff == 0 ==> fragOff == 0
      requires fragOff == |tail| ==> initOff == 0
      requires HM_HEADER_LENGTH + CutLen(currMtu, initOff == 0, |tail| - fragOff) <= RT_MAX_PLAIN_LENGTH
      modifies this`initOff, this`initNum, this`wMsgHdr, this`wire, this`writeSequence, this`finishMac, initBuf
      ensures n == CutLen(currMtu, old(initOff) == 0, |tail| - fragOff) && fragOff' == fragOff + n
      ensures wMsgHdr == old(wMsgHdr).(fragOff := fragOff, fragLen := n)
      ensures Out() == EmitOne(old(Out()), Under(), old(wMsgHdr), tail, Cut(fragOff, n))
      ensures fragOff' == |tail| ==> initOff == 0 && initNum == 0
      ensures fragOff' < |tail| ==>
                fragOff < fragOff' && Pending() && initOff > HM_HEADER_LENGTH && Unsent() == tail[fragOff'..]
    {
      n := MakeRoom(currMtu);
      ghost var rest := |tail| - fragOff;
      assert initBuf[initOff + HM_HEADER_LENGTH..][..rest]
             == initBuf[initOff + HM_HEADER_LENGTH..initOff + HM_HEADER_LENGTH + rest] == tail[fragOff..];
      WriteFragment(fragOff, n, tail);
      fragOff' := fragOff + n;
      StepOver(n, fragOff, tail);
    }

    /** init_off and init_num after a fragment, the last one or not */
    method StepOver(n: nat, ghost fragOff: nat, ghost tail: seq<byte>)
      requires fragOff + n <= |tail| && (fragOff < |tail| ==> n > 0) && initNum == HM_HEADER_LENGTH + |tail| - fragOff
      requires initOff + initNum == HM_HEADER_LENGTH + wMsgHdr.msgLen <= initBuf.Length
      requires initBuf[initOff + HM_HEADER_LENGTH..initOff + initNum] == tail[fragOff..]
      modifies this`initOff, this`initNum
      ensures fragOff + n == |tail| ==> initOff == 0 && initNum == 0
      ensures fragOff + n < |tail| ==> Pending() && initOff > HM_HEADER_LENGTH && Unsent() == tail[fragOff + n..]
    {
      if HM_HEADER_LENGTH + n == initNum {
        initOff, initNum := 0, 0;
      } else {
        Advance(n, tail[fragOff..]);
        assert tail[fragOff..][n..] == tail[fragOff + n..];
      }
    }

    /** init_off and init_num step over a fragment that left something to send. */
    method Advance(n: nat, ghost rest: seq<byte>)
      requires 0 < n < |rest| && initNum == HM_HEADER_LENGTH + |rest|
      requires initOff + initNum == HM_HEADER_LENGTH + wMsgHdr.msgLen <= initBuf.Length
      requires initBuf[initOff + HM_HEADER_LENGTH..initOff + initNum] == rest
      modifies this`initOff, this`initNum
      ensures Pending() && initOff > HM_HEADER_LENGTH && Unsent() == rest[n..]
    {
      ghost var at, end := initOff + HM_HEADER_LENGTH, initOff + initNum;
      initOff, initNum := initOff + HM_HEADER_LENGTH + n, initNum - HM_HEADER_LENGTH - n;
      assert initBuf[at + n..end] == initBuf[at..end][n..];
    }

    /** The loop of dtls1_do_write is under way: `final` is the output of the whole plan. */
    ghost predicate Underway(link: Link, i: nat, first: bool, off: nat, h: HmHeader, tail: seq<byte>,
                             final: Output, plan: Plan)
      reads this, initBuf
    {
      && link.Valid() && RecordsFit(link, |tail|)
      && off <= |tail| && Pending() && Unsent() == tail[off..]
      && (first <==> initOff == 0) && (first ==> off == 0) && (off == |tail| ==> first)
      && wMsgHdr == h.(fragOff := wMsgHdr.fragOff, fragLen := wMsgHdr.fragLen)
      && var left := Left(link, i, first, off, |tail|);
         && Within(left.cuts, |tail|)
         && plan.complete == left.complete && SentBy(plan) == off + SentBy(left)
         && final == Emit(Out(), Under(), h, tail, left.cuts)
    }

    /** One pass of the loop of dtls1_do_write. */
    method Turn(link: Link, i: nat, ghost first: bool, fragOff: nat,
                ghost h: HmHeader, ghost tail: seq<byte>, ghost final: Output, ghost plan: Plan)
      returns (fragOff': nat, i': nat, ghost first': bool)
      requires Underway(link, i, first, fragOff, h, tail, final, plan) && !link.Stalls(i)
      modifies this`initOff, this`initNum, this`wMsgHdr, this`wire, this`writeSequence, this`finishMac, initBuf
      ensures i' == i + 1 && !first'
      ensures fragOff <= fragOff' <= |tail| && (initNum != 0 ==> fragOff < fragOff')
      ensures initNum == 0 ==> initOff == 0 && plan.complete && Out() == final
      ensures initNum != 0 ==> Underway(link, i', first', fragOff', h, tail, final, plan)
      ensures wMsgHdr == h.(fragOff := wMsgHdr.fragOff, fragLen := wMsgHdr.fragLen)
    {
      ghost var o, mode, now := Out(), Under(), wMsgHdr;
      RecordsFitSuffices(link, i, first, fragOff, |tail|);
      assert Left(link, i, first, fragOff, |tail|).cuts[0]
             == Cut(fragOff, CutLen(link.Budget(i), first, |tail| - fragOff));
      i', first' := i + 1, false;
      var n;
      n, fragOff' := SendNext(link.Budget(i), fragOff, tail);
      PlanStep(link, i, first, fragOff, n, i', first', fragOff', o, mode, h, now, tail);
    }

    /** The loop of dtls1_do_write: until nothing is left, or a flush fails. */
    method WriteLoop(link: Link, ghost start: bool, ghost h: HmHeader, ghost tail: seq<byte>,
                     ghost final: Output, ghost plan: Plan)
      returns (ok: bool, ghost sent: nat)
      requires Underway(link, 0, start, 0, h, tail, final, plan)
      modifies this`initOff, this`initNum, this`wMsgHdr, this`wire, this`writeSequence, this`finishMac, initBuf
      ensures wMsgHdr == h.(fragOff := wMsgHdr.fragOff, fragLen := wMsgHdr.fragLen)
      ensures ok == plan.complete && Out() == final
      ensures ok ==> initOff == 0 && initNum == 0
      ensures !ok ==>
                && sent == SentBy(plan) && sent <= |tail| && Pending() && Unsent() == tail[sent..]
                && (initOff == 0 <==> start && sent == 0)
    {
      var fragOff, iteration := 0, 0;
      ghost var first := start;
      while initNum != 0
        invariant wMsgHdr == h.(fragOff := wMsgHdr.fragOff, fragLen := wMsgHdr.fragLen)
        invariant fragOff <= |tail|
        invariant initNum == 0 ==> initOff == 0 && plan.complete && Out() == final
        invariant initNum != 0 ==> Underway(link, iteration, first, fragOff, h, tail, final, plan)
        invariant initNum != 0 ==> (first <==> start && fragOff == 0)
        decreases |tail| - fragOff, initNum
      {
        if link.Stalls(iteration) {
          EmitNothing(Out(), Under(), h, tail);
          return false, fragOff;
        }
        fragOff, iteration, first := Turn(link, iteration, first, fragOff, h, tail, final, plan);
      }
      return true, fragOff;
    }

    /** dtls1_do_write for a handshake message. */
    method DoWrite(link: Link) returns (ok: bool)
      requires Pending() && link.Valid() && RecordsFit(link, |Unsent()|)
      modifies this`initOff, this`initNum, this`wMsgHdr, this`wire, this`writeSequence, this`finishMac, initBuf
      ensures wMsgHdr == old(wMsgHdr).(fragOff := wMsgHdr.fragOff, fragLen := wMsgHdr.fragLen)
      ensures Within(PlannedFor(link, old(initOff) == 0, old(Unsent())).cuts, |old(Unsent())|)
      ensures ok == PlannedFor(link, old(initOff) == 0, old(Unsent())).complete
      ensures Out() == Emit(old(Out()), Under(), old(wMsgHdr), old(Unsent()),
                               PlannedFor(link, old(initOff) == 0, old(Unsent())).cuts)
      ensures ok ==> initOff == 0 && initNum == 0
      ensures !ok ==>
                var sent := SentBy(PlannedFor(link, old(initOff) == 0, old(Unsent())));
                && Pending() && sent <= |old(Unsent())| && Unsent() == old(Unsent())[sent..]
                && (initOff == 0 <==> old(initOff) == 0 && sent == 0)
    {
      ghost var first, tail := initOff == 0, Unsent();
      ghost var plan := PlannedFor(link, first, tail);
      PlanPartitions(link, 0, first, 0, |tail|);
      ContiguousWithin(plan.cuts, 0, |tail|);
      ghost var sent;
      ok, sent := WriteLoop(link, first, wMsgHdr, tail, Emit(Out(), Under(), wMsgHdr, tail, plan.cuts), plan);
    }

    /** dtls1_do_write for a ChangeCipherSpec: a single octet, with no handshake header. */
    method DoWriteCcs(link: Link) returns (ok: bool)
      requires initOff == 0 && initNum == CCS_HEADER_LENGTH <= initBuf.Length && link.Valid()
      modifies this`initNum, this`wire, this`writeSequence
      ensures ok == !link.Stalls(0)
      ensures initNum == if ok then 0 else CCS_HEADER_LENGTH
      ensures !ok ==> wire == old(wire)
      ensures ok ==>
                wire == old(wire) + [Record(CcsRecord, wEpoch, old(writeSequence) % SEQ_LIMIT, state, initBuf[..1])]
      ensures writeSequence == old(writeSequence) + if ok then 1 else 0
    {
      if link.Stalls(0) { return false; }
      var currMtu: int := link.Budget(0);
      var len: int := if initNum > currMtu then currMtu else initNum;
      WriteRecord(CcsRecord, initBuf[initOff..initOff + len]);
      assert initBuf[0..1] == initBuf[..1];
      initNum := 0;
      ok := true;
    }

    /** BUF_MEM_grow_clean */
    method Grow(n: nat)
      modifies this`initBuf
      ensures initBuf == old(initBuf) || fresh(initBuf)
      ensures initBuf.Length >= n && initBuf.Length >= old(initBuf.Length)
      ensures initBuf[..old(initBuf.Length)] == old(initBuf[..])
    {
      if initBuf.Length < n {
        var was := initBuf[..];
        initBuf := new byte[n](i => if 0 <= i < |was| then was[i] else 0);
      }
    }

    /** The message into init_buf, with its number and header. */
    method Fill(x: Outgoing)
      requires Valid() && x.Valid()
      modifies this`initBuf, this`initOff, this`initNum, this`wMsgHdr, this`handshakeWriteSeq,
               this`nextHandshakeWriteSeq, initBuf
      ensures Valid() && (initBuf == old(initBuf) || fresh(initBuf))
      ensures initOff == 0 && initNum == |x.payload| <= initBuf.Length && initBuf[..initNum] == x.payload
      ensures wMsgHdr == x.Header(old(nextHandshakeWriteSeq)) && wMsgHdr.Whole() == wMsgHdr
      ensures handshakeWriteSeq == old(nextHandshakeWriteSeq)
      ensures nextHandshakeWriteSeq == (if x.kind.Ccs? then old(nextHandshakeWriteSeq)
                                        else Following(old(nextHandshakeWriteSeq), x.kind))
    {
      Grow(|x.payload|);
      MoreRoom(sentMessages, old(initBuf.Length), initBuf.Length);
      Load(x.payload);
      handshakeWriteSeq := nextHandshakeWriteSeq;
      if !x.kind.Ccs? { nextHandshakeWriteSeq := (nextHandshakeWriteSeq + 1) % 0x1_0000; }
      wMsgHdr := x.Header(handshakeWriteSeq);
      initOff, initNum := 0, |x.payload|;
    }

    /**
     * The part all senders share (dtls1_send_finished, dtls1_send_change_cipher_spec): message into
     * init_buf, number and header, and a copy for retransmission unless the kind is not kept.
     */
    method Prepare(x: Outgoing)
      requires Valid() && x.Valid()
      modifies this`initBuf, this`initOff, this`initNum, this`wMsgHdr, this`handshakeWriteSeq,
               this`nextHandshakeWriteSeq, this`sentMessages, initBuf
      ensures Valid() && (initBuf == old(initBuf) || fresh(initBuf))
      ensures initOff == 0 && initNum == |x.payload| <= initBuf.Length
      ensures wMsgHdr == x.Header(old(nextHandshakeWriteSeq))
      ensures !x.kind.Ccs? ==> Pending() && Unsent() == x.payload[HM_HEADER_LENGTH..]
      ensures x.kind.Ccs? ==> initBuf[..CCS_HEADER_LENGTH] == x.payload
      ensures nextHandshakeWriteSeq == (if x.kind.Ccs? then old(nextHandshakeWriteSeq)
                                        else Following(old(nextHandshakeWriteSeq), x.kind))
      ensures sentMessages == Enqueue(old(sentMessages), old(nextHandshakeWriteSeq), x, state, wEpoch)
    {
      Fill(x);
      assert !x.kind.Ccs? ==> Unsent() == initBuf[..initNum][HM_HEADER_LENGTH..];
      if !x.kind.Unkept? { BufferMessage(x.kind.Ccs?, x.payload); }
    }

    /** dtls1_buffer_message */
    method BufferMessage(isCcs: bool, ghost payload: seq<byte>)
      requires Valid() && initOff == 0 && initNum <= initBuf.Length && initBuf[..initNum] == payload
      requires initNum == wMsgHdr.msgLen + (if isCcs then CCS_HEADER_LENGTH else HM_HEADER_LENGTH)
      requires isCcs ==> wMsgHdr.msgLen == 0
      modifies this`sentMessages
      ensures Valid()
      ensures sentMessages == Insert(old(sentMessages),
                                     Item(QueuePriority(wMsgHdr.seqNum, isCcs),
                                          Saved(wMsgHdr.Whole(), isCcs, payload, state, wEpoch)))
    {
      var entry := Item(QueuePriority(wMsgHdr.seqNum, isCcs),
                        Saved(wMsgHdr.Whole(), isCcs, initBuf[..initNum], state, wEpoch));
      InsertKeepsValid(sentMessages, entry, initBuf.Length);
      sentMessages := Insert(sentMessages, entry);
    }

    /** dtls1_reset_seq_numbers for SSL3_CC_WRITE, after the cipher state has been changed. */
    method ChangeWriteEpoch(newState: WriteState)
      modifies this`wEpoch, this`writeSequence, this`lastWriteSequence, this`state
      ensures Numbering() == ChangeEpoch(old(Numbering())) && state == newState
    {
      state := newState;
      lastWriteSequence := writeSequence;
      wEpoch := (wEpoch + 1) % EPOCH_LIMIT;
      writeSequence := 0;
    }

    /** dtls1_clear_record_buffer */
    method ClearRecordBuffer()
      modifies this`sentMessages
      ensures sentMessages == []
    {
      while sentMessages != []
        decreases |sentMessages|
      {
        sentMessages := sentMessages[1..];
      }
    }

    /** A saved message goes back into init_buf and out, under the state now in force. */
    method SendSaved(m: Saved, link: Link) returns (ok: bool)
      requires m.Valid() && link.Valid() && RecordsFit(link, m.header.msgLen)
      requires |m.payload| <= initBuf.Length && initOff == 0
      requires retransmitting && wEpoch == m.epoch && state == m.state
      modifies this`initOff, this`initNum, this`wMsgHdr, this`wire, this`writeSequence, this`finishMac, initBuf
      ensures ok == GoesThrough(m, link) && (ok ==> initOff == 0)
      ensures wire == old(wire) + Resent(m, link, old(writeSequence))
      ensures writeSequence == old(writeSequence) + |Payloads(m, link)|
      ensures finishMac == old(finishMac)
    {
      Load(m.payload);
      initNum := |m.payload|;
      wMsgHdr := m.header;
      if m.isCcs {
        ok := DoWriteCcs(link);
      } else {
        assert Unsent() == m.Body();
        ok := DoWrite(link);
      }
    }

    /** A saved message goes out under the epoch, cipher state and counter it belongs to; all is then put back. */
    method ResendUnderOwnState(m: Saved, link: Link) returns (ok: bool)
      requires m.Valid() && link.Valid() && RecordsFit(link, m.header.msgLen)
      requires |m.payload| <= initBuf.Length && initOff == 0
      modifies this`initOff, this`initNum, this`wMsgHdr, this`wire, this`writeSequence, this`lastWriteSequence,
               this`finishMac, this`retransmitting, this`state, this`wEpoch, initBuf
      ensures ok == GoesThrough(m, link) && !retransmitting && (ok ==> initOff == 0)
      ensures wEpoch == old(wEpoch) && state == old(state) && finishMac == old(finishMac)
      ensures wire == old(wire) + Resent(m, link, ResendFrom(old(Numbering()), m.epoch))
      ensures Numbering() == Replay(old(Numbering()), m.epoch, |Payloads(m, link)|)
    {
      var savedState, savedSequence := state, writeSequence;
      var savedEpoch: int := wEpoch;
      retransmitting := true;
      state, wEpoch := m.state, m.epoch;
      if m.epoch == savedEpoch - 1 { writeSequence := lastWriteSequence; }
      ghost var from := writeSequence;
      ok := SendSaved(m, link);
      state, wEpoch := savedState, savedEpoch;
      if m.epoch == savedEpoch - 1 {
        lastWriteSequence := writeSequence;
        writeSequence := savedSequence;
      }
      retransmitting := false;
      LogOfConcat(old(wire), Resent(m, link, from));
      LogOfRecords(if m.isCcs then CcsRecord else HandshakeRecord, m.epoch, from, m.state, Payloads(m, link));
    }

    /** dtls1_retransmit_message */
    method RetransmitMessage(key: nat, link: Link) returns (found: bool, ok: bool)
      requires Valid() && initOff == 0 && link.Valid()
      requires Has(sentMessages, key) ==> RecordsFit(link, sentMessages[Slot(sentMessages, key)].data.header.msgLen)
      modifies this`initOff, this`initNum, this`wMsgHdr, this`wire, this`writeSequence, this`lastWriteSequence,
               this`finishMac, this`retransmitting, this`state, this`wEpoch, initBuf
      ensures found == Has(sentMessages, key)
      ensures wEpoch == old(wEpoch) && state == old(state) && finishMac == old(finishMac)
      ensures !found ==> !ok && wire == old(wire) && Numbering() == old(Numbering()) && initOff == 0
      ensures found ==>
                var m := sentMessages[Slot(sentMessages, key)].data;
                && m.Valid()
                && ok == GoesThrough(m, link) && (ok ==> initOff == 0)
                && wire == old(wire) + Resent(m, link, ResendFrom(old(Numbering()), m.epoch))
                && Numbering() == Replay(old(Numbering()), m.epoch, |Payloads(m, link)|)
    {
      var at := Slot(sentMessages, key);
      found := at < |sentMessages| && sentMessages[at].key == key;
      if !found { return false, false; }
      ok := ResendUnderOwnState(sentMessages[at].data, link);
    }

    /** One message of the flight: `goal` and `last` are the wire and the counters at its end. */
    method ResendNext(k: nat, links: nat -> Link, ghost q: seq<Item<Saved>>, ghost goal: seq<Record>,
                      ghost last: Counters)
      returns (done: bool)
      requires Valid() && initOff == 0 && CanResend(q, links) && q == sentMessages && k < |sentMessages|
      requires goal == wire + Flight(q, links, k, Numbering())
      requires last == Run(Numbering(), FlightEvents(q, links, k))
      modifies this`initOff, this`initNum, this`wMsgHdr, this`wire, this`writeSequence, this`lastWriteSequence,
               this`finishMac, this`retransmitting, this`state, this`wEpoch, initBuf
      ensures wEpoch == old(wEpoch) && state == old(state) && finishMac == old(finishMac)
      ensures done <==> GoesThrough(q[k].data, links(k))
      ensures done ==> initOff == 0 && goal == wire + Flight(q, links, k + 1, Numbering())
      ensures done ==> last == Run(Numbering(), FlightEvents(q, links, k + 1))
    {
      var m := sentMessages[k].data;
      SlotOfKey(sentMessages, k);
      FlightStep(q, links, k, Numbering(), wire);
      var found, ok := RetransmitMessage(QueuePriority(m.header.seqNum, m.isCcs), links(k));
      done := ok || !found;
    }

    /** dtls1_retransmit_buffered_messages: the whole flight, in queue order. */
    method RetransmitBufferedMessages(links: nat -> Link) returns (ok: bool)
      requires Valid() && initOff == 0 && CanResend(sentMessages, links)
      modifies this`initOff, this`initNum, this`wMsgHdr, this`wire, this`writeSequence, this`lastWriteSequence,
               this`finishMac, this`retransmitting, this`state, this`wEpoch, initBuf
      ensures wEpoch == old(wEpoch) && state == old(state) && finishMac == old(finishMac)
      ensures ok <==> forall k :: 0 <= k < |sentMessages| ==> GoesThrough(sentMessages[k].data, links(k))
      ensures ok ==> wire == old(wire) + Flight(sentMessages, links, 0, old(Numbering()))
      ensures ok ==> Numbering() == Run(old(Numbering()), FlightEvents(sentMessages, links, 0))
    {
      var k := 0;
      ghost var q := sentMessages;
      ghost var goal, last := wire + Flight(q, links, 0, Numbering()), Run(Numbering(), FlightEvents(q, links, 0));
      while k < |sentMessages|
        invariant 0 <= k <= |q| && Valid() && initOff == 0
        invariant wEpoch == old(wEpoch) && state == old(state) && finishMac == old(finishMac)
        invariant forall i :: 0 <= i < k ==> GoesThrough(q[i].data, links(i))
        invariant goal == wire + Flight(q, links, k, Numbering())
        invariant last == Run(Numbering(), FlightEvents(q, links, k))
      {
        var done := ResendNext(k, links, q, goal, last);
        if !done { return false; }
        k := k + 1;
      }
      ok := true;
    }
  }
}
