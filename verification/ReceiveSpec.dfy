/**
 * The receiving side of the handshake message layer (dtls1_get_message and the functions under it, in
 * d1_both.c) as functions on values. A message under reassembly records the set of octets received;
 * the packed bitmask that stands for it is in Bitmask and MessageReader.
 */
module ReceiveSpec {
  import opened Bytes
  import opened HandshakeHeader
  import opened PQueue

  const RT_MAX_ENCRYPTED_LENGTH: nat := 256 + 64 + 16384 + 1024
  const MT_HELLO_REQUEST: byte := 0
  const MT_FINISHED: byte := 20
  const READ_AHEAD: nat := 10
  const SEQ_MODULUS: nat := 0x1_0000

  /** A fragment as the record layer hands it over: its header and the octets it says it carries. */
  datatype Packet = Packet(hdr: HmHeader, body: seq<byte>)
  {
    predicate Valid() { hdr.Fits() && |body| == hdr.fragLen }
  }

  datatype Progress = Complete | Partial(got: set<nat>)

  /** An entry of buffered_messages. */
  datatype Entry = Entry(hdr: HmHeader, body: seq<byte>, progress: Progress)

  /** A message handed to the caller. */
  datatype Delivery = Delivery(typ: byte, seqNum: nat, body: seq<byte>)

  /** server, and max_cert_list */
  datatype Config = Config(server: bool, maxCertList: nat)
  {
    function MaxLen(): nat {
      if HM_HEADER_LENGTH + RT_MAX_ENCRYPTED_LENGTH < maxCertList then maxCertList
      else HM_HEADER_LENGTH + RT_MAX_ENCRYPTED_LENGTH
    }
  }

  datatype State = State(
    readSeq: nat,                 // handshake_read_seq
    queue: seq<Item<Entry>>,      // buffered_messages
    initBuf: seq<byte>,
    initNum: nat,
    rHdr: HmHeader,               // r_msg_hdr
    reuse: bool,                  // reuse_message
    messageType: byte,
    messageSize: nat,
    finishMac: seq<byte>,         // all octets given to ssl3_finish_mac
    delivered: seq<Delivery>)     // all messages returned for the first time

  datatype Outcome = Retry | Ok | Nothing | Failed

  const NO_HEADER: HmHeader := HmHeader(0, 0, 0, 0, 0)

  /** A reader that is to begin with message `readSeq` and has hashed `finishMac` before. */
  function FreshReader(readSeq: nat, finishMac: seq<byte>): State {
    State(readSeq, [], Zeros(16384), 0, NO_HEADER, false, 0, 0, finishMac, [])
  }

  /** memcpy of `piece` to offset `off` */
  function Overlay(buf: seq<byte>, off: nat, piece: seq<byte>): (r: seq<byte>)
    requires off + |piece| <= |buf|
    ensures |r| == |buf|
    ensures forall i :: 0 <= i < |buf| ==> r[i] == if off <= i < off + |piece| then piece[i - off] else buf[i]
  {
    buf[..off] + piece + buf[off + |piece|..]
  }

  /** BUF_MEM_grow_clean */
  function Grow(buf: seq<byte>, n: nat): (r: seq<byte>)
    ensures |r| >= n && |r| >= |buf|
  {
    if |buf| < n then buf + Zeros(n - |buf|) else buf
  }

  function Range(lo: nat, hi: nat): (r: set<nat>)
    ensures forall i: nat :: i in r <==> lo <= i < hi
    decreases hi - lo
  {
    if lo >= hi then {} else {lo} + Range(lo + 1, hi)
  }

  // ---- Reassembly of one message ----

  function NewEntry(hdr: HmHeader): Entry {
    Entry(hdr.Whole(), Zeros(hdr.msgLen), Partial({}))
  }

  /** The part of dtls1_reassemble_fragment that takes a fragment in. */
  function Absorb(e: Entry, p: Packet): Entry
    requires e.progress.Partial? && p.hdr.fragOff + |p.body| <= |e.body|
  {
    var got := e.progress.got + Range(p.hdr.fragOff, p.hdr.fragOff + |p.body|);
    Entry(e.hdr, Overlay(e.body, p.hdr.fragOff, p.body),
          if Range(0, p.hdr.msgLen) <= got then Complete else Partial(got))
  }

  // ---- dtls1_preprocess_fragment ----

  predicate Acceptable(st: State, hdr: HmHeader, max: nat) {
    && hdr.fragOff + hdr.fragLen <= hdr.msgLen
    && hdr.fragOff + hdr.fragLen <= max
    && (st.rHdr.fragOff == 0 || hdr.msgLen == st.rHdr.msgLen)
  }

  function Preprocess(st: State, hdr: HmHeader): (r: State)
    ensures st.rHdr.fragOff == 0 ==> |r.initBuf| >= hdr.msgLen + HM_HEADER_LENGTH
  {
    if st.rHdr.fragOff == 0 then
      st.(initBuf := Grow(st.initBuf, hdr.msgLen + HM_HEADER_LENGTH),
          messageSize := hdr.msgLen, messageType := hdr.typ,
          rHdr := st.rHdr.(msgLen := hdr.msgLen, typ := hdr.typ, seqNum := hdr.seqNum))
    else st
  }

  /** The body octets of a fragment go to their place in init_buf and the message counts as read. */
  function TakeBody(st: State, hdr: HmHeader, body: seq<byte>): State
    requires HM_HEADER_LENGTH + hdr.fragOff + |body| <= |st.initBuf|
  {
    st.(initBuf := Overlay(st.initBuf, HM_HEADER_LENGTH + hdr.fragOff, body), initNum := hdr.fragLen)
  }

  /** r_msg_hdr.frag_off is never set, so that each message read starts from a cleared header. */
  ghost predicate Ready(st: State) {
    && st.rHdr.fragOff == 0
    && Sorted(st.queue)
    && (forall i :: 0 <= i < |st.queue| ==> |st.queue[i].data.body| == st.queue[i].data.hdr.fragLen)
  }

  /** dtls1_retrieve_buffered_fragment */
  function Retrieve(st: State, max: nat): (State, Outcome)
    requires Ready(st)
  {
    if st.queue == [] || st.queue[0].data.progress.Partial? || st.queue[0].data.hdr.seqNum != st.readSeq
    then (st, Nothing)
    else
      var e, rest := st.queue[0].data, st.(queue := st.queue[1..]);
      if Acceptable(rest, e.hdr, max) then (TakeBody(Preprocess(rest, e.hdr), e.hdr, e.body), Ok)
      else (rest.(initNum := 0), Failed)
  }

  /** A fragment meets the entry of its number, if there is one, at the message length it was created with. */
  predicate SameLength(st: State, p: Packet) {
    var n := Slot(st.queue, p.hdr.seqNum);
    Has(st.queue, p.hdr.seqNum) && st.queue[n].data.progress.Partial? ==> |st.queue[n].data.body| == p.hdr.msgLen
  }

  /** dtls1_reassemble_fragment */
  function Reassemble(st: State, p: Packet, cfg: Config): (State, Outcome)
    requires Ready(st) && p.Valid() && SameLength(st, p)
  {
    if p.hdr.fragOff + p.hdr.fragLen > p.hdr.msgLen || p.hdr.fragOff + p.hdr.fragLen > cfg.MaxLen() then (st, Failed)
    else
      var n := Slot(st.queue, p.hdr.seqNum);
      if !Has(st.queue, p.hdr.seqNum) then
        (st.(queue := Insert(st.queue, Item(p.hdr.seqNum, Absorb(NewEntry(p.hdr), p)))), Retry)
      else if st.queue[n].data.progress.Complete? then (st, Retry)
      else (st.(queue := st.queue[n := Item(p.hdr.seqNum, Absorb(st.queue[n].data, p))]), Retry)
  }

  /** dtls1_process_out_of_seq_message */
  function OutOfSeq(st: State, p: Packet, cfg: Config): (State, Outcome)
    requires Ready(st) && p.Valid() && SameLength(st, p)
  {
    var h := p.hdr;
    if h.fragOff + h.fragLen > h.msgLen then (st, Failed)
    else if h.seqNum <= st.readSeq || h.seqNum > st.readSeq + READ_AHEAD
            || (Has(st.queue, h.seqNum) && h.fragLen >= h.msgLen)
            || (st.readSeq == 0 && h.typ == MT_FINISHED) then (st, Retry)
    else if h.fragLen > 0 && h.fragLen < h.msgLen then Reassemble(st, p, cfg)
    else (st.(queue := Insert(st.queue, Item(h.seqNum, Entry(h, p.body, Complete)))), Retry)
  }

  /** dtls1_get_message_fragment, once a header has been read */
  function Receive(st: State, p: Packet, max: nat, cfg: Config): (State, Outcome)
    requires Ready(st) && p.Valid() && SameLength(st, p)
  {
    var h := p.hdr;
    if h.seqNum != st.readSeq then OutOfSeq(st, p, cfg)
    else if h.fragLen > 0 && h.fragLen < h.msgLen then Reassemble(st, p, cfg)
    else if !cfg.server && h.typ == MT_HELLO_REQUEST then
      if h.msgLen == 0 then (st.(initNum := 0), Retry) else (st.(initNum := 0), Failed)
    else if Acceptable(st, h, max) then (TakeBody(Preprocess(st, h), h, p.body), Ok)
    else (st.(initNum := 0), Failed)
  }

  /** The end of dtls1_get_message: rebuild the header, hash, move on to the next number. */
  function Finish(st: State): State
    requires InBuffer(st)
  {
    var buf := Overlay(st.initBuf, 0, WriteHeader(st.rHdr.Whole()));
    st.(initBuf := buf,
        finishMac := st.finishMac + buf[..HM_HEADER_LENGTH + st.rHdr.msgLen],
        delivered := st.delivered
                     + [Delivery(st.rHdr.typ, st.rHdr.seqNum, buf[HM_HEADER_LENGTH..HM_HEADER_LENGTH + st.initNum])],
        rHdr := NO_HEADER,
        readSeq := (st.readSeq + 1) % SEQ_MODULUS)
  }

  /** A message that can be returned lies within init_buf. */
  lemma OkIsInBuffer(st: State, p: Packet, max: nat, cfg: Config)
    requires Ready(st)
    ensures Retrieve(st, max).1.Ok? ==> InBuffer(Retrieve(st, max).0)
    ensures p.Valid() && SameLength(st, p) && Receive(st, p, max, cfg).1.Ok? ==> InBuffer(Receive(st, p, max, cfg).0)
  {
  }

  predicate InBuffer(st: State) {
    HM_HEADER_LENGTH + st.rHdr.msgLen <= |st.initBuf| && HM_HEADER_LENGTH + st.initNum <= |st.initBuf|
  }

  // ---- Whole reads ----

  /** What a call ends with: the state, the outcome (Nothing: the input ran dry), and the packets not yet read. */
  datatype Result = Result(st: State, outcome: Outcome, rest: seq<Packet>)

  /** What every packet of a run must satisfy, whatever its origin. */
  ghost predicate Readable(st: State, pkts: seq<Packet>, max: nat, cfg: Config)
    decreases |pkts|
  {
    Ready(st) &&
    (pkts != [] && Retrieve(st, max).1.Nothing? ==>
       && pkts[0].Valid() && SameLength(st, pkts[0])
       && (Receive(st, pkts[0], max, cfg).1.Retry? ==> Readable(Receive(st, pkts[0], max, cfg).0, pkts[1..], max, cfg)))
  }

  /** The loop of dtls1_get_message: buffered message first, then fragments until one completes a message. */
  function ReadMessage(st: State, pkts: seq<Packet>, max: nat, cfg: Config): Result
    requires Readable(st, pkts, max, cfg)
    decreases |pkts|
  {
    var (s, o) := Retrieve(st, max);
    if o.Ok? then
      OkIsInBuffer(st, Packet(NO_HEADER, []), max, cfg);
      Result(Finish(s), Ok, pkts)
    else if o.Failed? then Result(s, Failed, pkts)
    else if pkts == [] then Result(st, Nothing, [])
    else
      var (s, o) := Receive(st, pkts[0], max, cfg);
      OkIsInBuffer(st, pkts[0], max, cfg);
      if o.Retry? then ReadMessage(s, pkts[1..], max, cfg)
      else if o.Ok? then Result(Finish(s), Ok, pkts[1..])
      else Result(s, Failed, pkts[1..])
  }

  /** dtls1_get_message. `mt` is the type asked for, or negative for any. */
  function GetMessage(st: State, mt: int, pkts: seq<Packet>, max: nat, cfg: Config): Result
    requires st.reuse || Readable(st.(rHdr := NO_HEADER), pkts, max, cfg)
  {
    if st.reuse then
      if mt >= 0 && st.messageType != mt then Result(st.(reuse := false), Failed, pkts)
      else Result(st.(reuse := false, initNum := st.messageSize), Ok, pkts)
    else ReadMessage(st.(rHdr := NO_HEADER), pkts, max, cfg)
  }
}
