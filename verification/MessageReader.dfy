/**
 * dtls1_get_message and the functions under it (d1_both.c), as they work on the connection in place.
 * Every method is tied to the function of ReceiveSpec that describes it.
 */
module MessageReader {
  import opened Bytes
  import opened HandshakeHeader
  import opened PQueue
  import opened ReceiveSpec
  import opened HmFragments

  /** The object in `x`, whose parts are all in `repr`, stands for the entry `e`. */
  ghost predicate Mirrors(x: Item<HmFragment>, e: Item<Entry>, repr: set<object>)
    reads repr
  {
    x.data in repr && x.data.Repr() <= repr && x.data.Valid() && e == Item(x.key, x.data.View())
  }

  /** The queue of objects `q`, no two of which share a part, stands for the queue of entries `v`. */
  ghost predicate Stands(q: seq<Item<HmFragment>>, v: seq<Item<Entry>>, repr: set<object>)
    reads repr
  {
    && Sorted(q) && |v| == |q|
    && (forall i :: 0 <= i < |q| ==> Mirrors(q[i], v[i], repr))
    && (forall i, j :: 0 <= i < j < |q| ==> Apart(q[i], q[j], repr))
  }

  ghost predicate Apart(x: Item<HmFragment>, y: Item<HmFragment>, repr: set<object>)
    reads repr
  {
    x.data in repr && y.data in repr && x.data.Repr() !! y.data.Repr()
  }

  /** Both queues have the same keys, hence the same positions. */
  lemma SameSlots(q: seq<Item<HmFragment>>, v: seq<Item<Entry>>, key: nat)
    requires Sorted(q) && Sorted(v) && |q| == |v| && forall i :: 0 <= i < |q| ==> q[i].key == v[i].key
    ensures Slot(v, key) == Slot(q, key) && Has(v, key) == Has(q, key)
  {
    SlotUnique(v, key, Slot(q, key));
  }

  lemma StandsSlot(q: seq<Item<HmFragment>>, v: seq<Item<Entry>>, repr: set<object>, key: nat)
    requires Stands(q, v, repr)
    ensures Sorted(v) && Slot(v, key) == Slot(q, key) && Has(v, key) == Has(q, key)
  {
    SameSlots(q, v, key);
  }

  lemma StandsTail(q: seq<Item<HmFragment>>, v: seq<Item<Entry>>, repr: set<object>)
    requires Stands(q, v, repr) && q != []
    ensures Stands(q[1..], v[1..], repr)
  {
  }

  /** `x` at position `n`, what followed it one further on. */
  ghost function PutAt<T>(q: seq<T>, n: nat, x: T): seq<T>
    requires n <= |q|
  {
    q[..n] + [x] + q[n..]
  }

  lemma StandsPut(q: seq<Item<HmFragment>>, v: seq<Item<Entry>>, repr: set<object>, n: nat, key: nat, x: HmFragment)
    requires Stands(q, v, repr) && x.Valid() && x.Repr() !! repr && n <= |q|
    requires Sorted(PutAt(q, n, Item(key, x)))
    ensures Stands(PutAt(q, n, Item(key, x)), PutAt(v, n, Item(key, x.View())), repr + x.Repr())
  {
    var more := repr + x.Repr();
    var r, w := PutAt(q, n, Item(key, x)), PutAt(v, n, Item(key, x.View()));
    forall i | 0 <= i < |r| ensures Mirrors(r[i], w[i], more) {
      var i' := if i < n then i else i - 1;
      if i != n { assert r[i] == q[i'] && w[i] == v[i'] && Mirrors(q[i'], v[i'], repr); }
    }
    forall i, j | 0 <= i < j < |r| ensures Apart(r[i], r[j], more) {
      var i', j' := if i < n then i else i - 1, if j < n then j else j - 1;
      assert i != n ==> r[i] == q[i'] && Mirrors(q[i'], v[i'], repr);
      assert j != n ==> r[j] == q[j'] && Mirrors(q[j'], v[j'], repr);
      assert i != n && j != n ==> Apart(q[i'], q[j'], repr);
    }
  }

  lemma StandsMore(q: seq<Item<HmFragment>>, v: seq<Item<Entry>>, repr: set<object>, more: set<object>)
    requires Stands(q, v, repr)
    ensures Stands(q, v, repr + more)
  {
    forall i | 0 <= i < |q| ensures Mirrors(q[i], v[i], repr + more) { assert Mirrors(q[i], v[i], repr); }
    forall i, j | 0 <= i < j < |q| ensures Apart(q[i], q[j], repr + more) { assert Apart(q[i], q[j], repr); }
  }

  /** A new object, unknown to the queue, put in under a key. */
  lemma StandsInsert(q: seq<Item<HmFragment>>, v: seq<Item<Entry>>, repr: set<object>, key: nat, x: HmFragment)
    requires Stands(q, v, repr) && x.Valid() && x.Repr() !! repr
    ensures Sorted(v)
    ensures Stands(Insert(q, Item(key, x)), Insert(v, Item(key, x.View())), repr + x.Repr())
  {
    StandsSlot(q, v, repr, key);
    var n := Slot(q, key);
    if Has(q, key) {
      StandsMore(q, v, repr, x.Repr());
    } else {
      assert Insert(q, Item(key, x)) == PutAt(q, n, Item(key, x));
      assert Insert(v, Item(key, x.View())) == PutAt(v, n, Item(key, x.View()));
      StandsPut(q, v, repr, n, key, x);
    }
  }

  /** One pass of a read, case by case. */
  lemma Unfold(st: State, pkts: seq<Packet>, max: nat, cfg: Config)
    requires Readable(st, pkts, max, cfg)
    ensures var (s, o) := Retrieve(st, max);
            && (o.Ok? ==> InBuffer(s) && ReadMessage(st, pkts, max, cfg) == Result(ReceiveSpec.Finish(s), Ok, pkts))
            && (o.Failed? ==> ReadMessage(st, pkts, max, cfg) == Result(s, Failed, pkts))
            && !o.Retry? && (o.Nothing? ==> s == st)
            && (o.Nothing? && pkts == [] ==> ReadMessage(st, pkts, max, cfg) == Result(st, Nothing, []))
    ensures Retrieve(st, max).1.Nothing? && pkts != [] ==>
              && pkts[0].Valid() && SameLength(st, pkts[0])
              && var (s, o) := Receive(st, pkts[0], max, cfg);
                 && !o.Nothing?
                 && (o.Ok? ==> InBuffer(s)
                               && ReadMessage(st, pkts, max, cfg) == Result(ReceiveSpec.Finish(s), Ok, pkts[1..]))
                 && (o.Failed? ==> ReadMessage(st, pkts, max, cfg) == Result(s, Failed, pkts[1..]))
                 && (o.Retry? ==> Readable(s, pkts[1..], max, cfg)
                                  && ReadMessage(st, pkts, max, cfg) == ReadMessage(s, pkts[1..], max, cfg))
  {
    OkIsInBuffer(st, if pkts == [] then Packet(NO_HEADER, []) else pkts[0], max, cfg);
  }

  class MessageReader {
    const server: bool
    const maxCertList: nat
    var handshakeReadSeq: nat
    var bufferedMessages: seq<Item<HmFragment>>
    var initBuf: array<byte>
    var initNum: nat
    var rMsgHdr: HmHeader
    var reuseMessage: bool
    var messageType: byte
    var messageSize: nat
    var finishMac: seq<byte>
    ghost var delivered: seq<Delivery>
    ghost var frags: set<object>

    ghost var queue: seq<Item<Entry>>

    ghost predicate Valid()
      reads this, frags, initBuf
    {
      && Stands(bufferedMessages, queue, frags)
      && this !in frags && initBuf as object !in frags
    }

    ghost function Cfg(): Config { Config(server, maxCertList) }

    ghost function Model(): State
      reads this, initBuf
    {
      State(handshakeReadSeq, queue, initBuf[..], initNum, rMsgHdr, reuseMessage,
            messageType, messageSize, finishMac, delivered)
    }

    constructor (server: bool, maxCertList: nat, readSeq: nat, finishMac: seq<byte>)
      ensures Valid() && fresh(frags) && fresh(initBuf)
      ensures Model() == FreshReader(readSeq, finishMac)
      ensures this.server == server && this.maxCertList == maxCertList
    {
      this.server, this.maxCertList := server, maxCertList;
      handshakeReadSeq := readSeq;
      bufferedMessages := [];
      initBuf := new byte[16384](_ => 0);
      initNum := 0;
      rMsgHdr := NO_HEADER;
      reuseMessage := false;
      messageType, messageSize := 0, 0;
      this.finishMac := finishMac;
      delivered, frags, queue := [], {}, [];
      new;
      assert initBuf[..] == Zeros(16384);
    }

    /** BUF_MEM_grow_clean */
    method GrowBuf(n: nat)
      requires Valid()
      modifies this`initBuf
      ensures Valid() && (initBuf == old(initBuf) || fresh(initBuf))
      ensures initBuf[..] == Grow(old(initBuf[..]), n)
      ensures Model() == old(Model()).(initBuf := Grow(old(Model()).initBuf, n))
    {
      if initBuf.Length < n {
        var was := initBuf[..];
        initBuf := new byte[n](i => if 0 <= i < |was| then was[i] else 0);
        assert initBuf[..] == was + Zeros(n - |was|);
      }
    }

    /** The first fragment's header says what message is coming. */
    method StartMessage(hdr: HmHeader)
      requires Valid() && rMsgHdr.fragOff == 0
      modifies this`initBuf, this`messageSize, this`messageType, this`rMsgHdr
      ensures Valid() && (initBuf == old(initBuf) || fresh(initBuf))
      ensures Model() == Preprocess(old(Model()), hdr)
    {
      GrowBuf(hdr.msgLen + HM_HEADER_LENGTH);
      NoteHeader(hdr);
    }

    method NoteHeader(hdr: HmHeader)
      requires Valid()
      modifies this`messageSize, this`messageType, this`rMsgHdr
      ensures Valid()
      ensures Model() == old(Model()).(messageSize := hdr.msgLen, messageType := hdr.typ,
                                       rHdr := old(Model()).rHdr.(msgLen := hdr.msgLen, typ := hdr.typ,
                                                                  seqNum := hdr.seqNum))
    {
      messageSize := hdr.msgLen;
      messageType := hdr.typ;
      rMsgHdr := rMsgHdr.(msgLen := hdr.msgLen, typ := hdr.typ, seqNum := hdr.seqNum);
    }

    /** dtls1_preprocess_fragment */
    method PreprocessFragment(hdr: HmHeader, max: nat) returns (ok: bool)
      requires Valid()
      modifies this`initBuf, this`messageSize, this`messageType, this`rMsgHdr
      ensures Valid() && (initBuf == old(initBuf) || fresh(initBuf))
      ensures ok == Acceptable(old(Model()), hdr, max)
      ensures Model() == if ok then Preprocess(old(Model()), hdr) else old(Model())
    {
      if hdr.fragOff + hdr.fragLen > hdr.msgLen { return false; }
      if hdr.fragOff + hdr.fragLen > max { return false; }
      if rMsgHdr.fragOff == 0 {
        StartMessage(hdr);
      } else if hdr.msgLen != rMsgHdr.msgLen {
        return false;
      }
      ok := true;
    }

    /** memcpy into init_buf */
    method Store(off: nat, data: seq<byte>)
      requires Valid() && off + |data| <= initBuf.Length
      modifies initBuf
      ensures Valid() && initBuf[..] == Overlay(old(initBuf[..]), off, data)
      ensures Model() == old(Model()).(initBuf := Overlay(old(Model()).initBuf, off, data))
    {
      forall i | 0 <= i < |data| { initBuf[off + i] := data[i]; }
      assert initBuf[..] == Overlay(old(initBuf[..]), off, data);
    }

    method InsertMessage(key: nat, x: HmFragment)
      requires Valid() && x.Valid() && x.Repr() !! frags && this !in x.Repr() && initBuf as object !in x.Repr()
      modifies this`bufferedMessages, this`queue, this`frags
      ensures Valid() && frags == old(frags) + x.Repr()
      ensures Sorted(old(queue)) && queue == Insert(old(queue), Item(key, x.View()))
    {
      StandsInsert(bufferedMessages, queue, frags, key, x);
      var more := Insert(bufferedMessages, Item(key, x));
      ghost var entries, parts := Insert(queue, Item(key, x.View())), frags + x.Repr();
      assert Stands(more, entries, parts) && this !in parts && initBuf as object !in parts;
      bufferedMessages, queue, frags := more, entries, parts;
    }

    method PopMessage()
      requires Valid() && bufferedMessages != []
      modifies this`bufferedMessages, this`queue
      ensures Valid() && queue == old(queue)[1..]
    {
      StandsTail(bufferedMessages, queue, frags);
      bufferedMessages := bufferedMessages[1..];
      queue := queue[1..];
    }

    /** A fragment goes into the partial entry at position `n`. */
    method AbsorbAt(n: nat, p: Packet)
      requires Valid() && n < |bufferedMessages| && p.Valid()
      requires bufferedMessages[n].data.reassembly != null
      requires p.hdr.msgLen == bufferedMessages[n].data.fragment.Length && p.hdr.fragOff + p.hdr.fragLen <= p.hdr.msgLen
      modifies this`queue, frags
      ensures Valid() && n < |old(queue)| && old(queue)[n].data.progress.Partial?
      ensures p.hdr.fragOff + |p.body| <= |old(queue)[n].data.body|
      ensures queue == old(queue)[n := Item(old(queue)[n].key, Absorb(old(queue)[n].data, p))]
    {
      var x := bufferedMessages[n].data;
      x.TakeIn(p);
      forall i | 0 <= i < |bufferedMessages| && i != n ensures Mirrors(bufferedMessages[i], queue[i], frags) {
        assert old(Mirrors(bufferedMessages[i], queue[i], frags));
        assert old(if i < n then Apart(bufferedMessages[i], bufferedMessages[n], frags)
                   else Apart(bufferedMessages[n], bufferedMessages[i], frags));
      }
      forall i, j | 0 <= i < j < |bufferedMessages| ensures Apart(bufferedMessages[i], bufferedMessages[j], frags) {
        assert old(Apart(bufferedMessages[i], bufferedMessages[j], frags));
      }
      queue := queue[n := Item(queue[n].key, Absorb(queue[n].data, p))];
    }

    /** A message body goes to its place in init_buf. */
    method TakeBody(hdr: HmHeader, body: seq<byte>)
      requires Valid() && HM_HEADER_LENGTH + hdr.fragOff + |body| <= initBuf.Length
      modifies this`initNum, initBuf
      ensures Valid() && Model() == ReceiveSpec.TakeBody(old(Model()), hdr, body)
    {
      Store(HM_HEADER_LENGTH + hdr.fragOff, body);
      initNum := hdr.fragLen;
    }

    /** dtls1_retrieve_buffered_fragment */
    method RetrieveBufferedFragment(max: nat) returns (o: Outcome)
      requires Valid() && Ready(Model())
      modifies this`bufferedMessages, this`queue, this`initBuf, this`messageSize, this`messageType, this`rMsgHdr,
               this`initNum, initBuf
      ensures Valid() && (initBuf == old(initBuf) || fresh(initBuf))
      ensures (Model(), o) == Retrieve(old(Model()), max)
    {
      if bufferedMessages == [] { return Nothing; }
      var frag := bufferedMessages[0].data;
      assert Mirrors(bufferedMessages[0], queue[0], frags);
      if frag.reassembly != null || frag.msgHeader.seqNum != handshakeReadSeq { return Nothing; }
      var hdr, body := frag.msgHeader, frag.fragment[..];
      PopMessage();
      var ok := PreprocessFragment(hdr, max);
      if !ok {
        initNum := 0;
        return Failed;
      }
      TakeBody(hdr, body);
      o := Ok;
    }

    /** The first fragment of a message. */
    method StartReassembly(p: Packet)
      requires Valid() && p.Valid() && p.hdr.msgLen > 0 && p.hdr.fragOff + p.hdr.fragLen <= p.hdr.msgLen
      modifies this`bufferedMessages, this`queue, this`frags
      ensures Valid() && fresh(frags - old(frags)) && Sorted(old(queue))
      ensures queue == Insert(old(queue), Item(p.hdr.seqNum, Absorb(NewEntry(p.hdr), p)))
    {
      var frag := new HmFragment.Reassembling(p.hdr);
      frag.TakeIn(p);
      InsertMessage(p.hdr.seqNum, frag);
    }

    /** dtls1_reassemble_fragment */
    method ReassembleFragment(p: Packet) returns (o: Outcome)
      requires Valid() && Ready(Model()) && p.Valid() && SameLength(Model(), p)
      requires p.hdr.msgLen > 0
      modifies this`bufferedMessages, this`queue, this`frags, frags
      ensures Valid() && fresh(frags - old(frags))
      ensures (Model(), o) == Reassemble(old(Model()), p, Cfg())
    {
      var h := p.hdr;
      var maxLen := if HM_HEADER_LENGTH + RT_MAX_ENCRYPTED_LENGTH < maxCertList then maxCertList
                    else HM_HEADER_LENGTH + RT_MAX_ENCRYPTED_LENGTH;
      if h.fragOff + h.fragLen > h.msgLen || h.fragOff + h.fragLen > maxLen { return Failed; }
      var n := Slot(bufferedMessages, h.seqNum);
      StandsSlot(bufferedMessages, queue, frags, h.seqNum);
      if !Has(bufferedMessages, h.seqNum) {
        StartReassembly(p);
      } else {
        assert Mirrors(bufferedMessages[n], queue[n], frags);
        if bufferedMessages[n].data.reassembly != null {
          AbsorbAt(n, p);
        }
      }
      o := Retry;
    }

    /** dtls1_process_out_of_seq_message */
    method ProcessOutOfSeqMessage(p: Packet) returns (o: Outcome)
      requires Valid() && Ready(Model()) && p.Valid() && SameLength(Model(), p)
      modifies this`bufferedMessages, this`queue, this`frags, frags
      ensures Valid() && fresh(frags - old(frags))
      ensures (Model(), o) == OutOfSeq(old(Model()), p, Cfg())
    {
      var h := p.hdr;
      if h.fragOff + h.fragLen > h.msgLen { return Failed; }
      StandsSlot(bufferedMessages, queue, frags, h.seqNum);
      var found := Has(bufferedMessages, h.seqNum) && !(h.fragLen < h.msgLen);
      if h.seqNum <= handshakeReadSeq || h.seqNum > handshakeReadSeq + READ_AHEAD || found
         || (handshakeReadSeq == 0 && h.typ == MT_FINISHED) {
        return Retry;
      }
      if h.fragLen > 0 && h.fragLen < h.msgLen {
        o := ReassembleFragment(p);
      } else {
        KeepWhole(p);
        o := Retry;
      }
    }

    /** A future message in one piece is queued. */
    method KeepWhole(p: Packet)
      requires Valid() && p.Valid()
      requires !(0 < p.hdr.fragLen < p.hdr.msgLen) && p.hdr.fragOff + p.hdr.fragLen <= p.hdr.msgLen
      modifies this`bufferedMessages, this`queue, this`frags
      ensures Valid() && fresh(frags - old(frags)) && Sorted(old(queue))
      ensures Model() == old(Model()).(queue := Insert(old(queue), Item(p.hdr.seqNum, Entry(p.hdr, p.body, Complete))))
    {
      var frag := new HmFragment.Whole(p.hdr, p.body);
      InsertMessage(p.hdr.seqNum, frag);
    }

    /** dtls1_get_message_fragment, once a header has been read */
    method ReceiveFragment(p: Packet, max: nat) returns (o: Outcome)
      requires Valid() && Ready(Model()) && p.Valid() && SameLength(Model(), p)
      modifies this`bufferedMessages, this`queue, this`frags, this`initBuf, this`messageSize, this`messageType,
               this`rMsgHdr, this`initNum, frags, initBuf
      ensures Valid() && fresh(frags - old(frags)) && (initBuf == old(initBuf) || fresh(initBuf))
      ensures (Model(), o) == Receive(old(Model()), p, max, Cfg())
    {
      var h := p.hdr;
      if h.seqNum != handshakeReadSeq {
        o := ProcessOutOfSeqMessage(p);
        return;
      }
      if h.fragLen > 0 && h.fragLen < h.msgLen {
        o := ReassembleFragment(p);
        return;
      }
      if !server && h.typ == MT_HELLO_REQUEST {
        initNum := 0;
        return if h.msgLen == 0 then Retry else Failed;
      }
      var ok := PreprocessFragment(h, max);
      if !ok {
        initNum := 0;
        return Failed;
      }
      TakeBody(h, p.body);
      o := Ok;
    }

    /** The end of dtls1_get_message: the header is rebuilt as for one fragment, and the message hashed. */
    method Finish()
      requires Valid()
      requires InBuffer(Model())
      modifies this`finishMac, this`delivered, this`rMsgHdr, this`handshakeReadSeq, initBuf
      ensures Valid() && Model() == ReceiveSpec.Finish(old(Model()))
    {
      Store(0, WriteHeader(rMsgHdr.Whole()));
      finishMac := finishMac + initBuf[..][..HM_HEADER_LENGTH + rMsgHdr.msgLen];
      delivered := delivered
                   + [Delivery(rMsgHdr.typ, rMsgHdr.seqNum, initBuf[..][HM_HEADER_LENGTH..HM_HEADER_LENGTH + initNum])];
      rMsgHdr := NO_HEADER;
      handshakeReadSeq := (handshakeReadSeq + 1) % SEQ_MODULUS;
    }

    /** One pass of the loop of dtls1_get_message. */
    method Pass(pkts: seq<Packet>, max: nat) returns (o: Outcome, rest: seq<Packet>)
      requires Valid() && Readable(Model(), pkts, max, Cfg())
      modifies this, frags, initBuf
      ensures Valid() && fresh(frags - old(frags)) && (initBuf == old(initBuf) || fresh(initBuf))
      ensures |rest| <= |pkts| && (o.Retry? ==> |rest| < |pkts|)
      ensures o.Retry? ==> Readable(Model(), rest, max, Cfg())
                           && ReadMessage(Model(), rest, max, Cfg()) == ReadMessage(old(Model()), pkts, max, Cfg())
      ensures !o.Retry? ==> Result(Model(), o, rest) == ReadMessage(old(Model()), pkts, max, Cfg())
    {
      ghost var st := Model();
      Unfold(st, pkts, max, Cfg());
      rest := pkts;
      o := RetrieveBufferedFragment(max);
      if o.Ok? {
        Finish();
      } else if o.Nothing? && pkts != [] {
        rest := pkts[1..];
        o := ReceiveAndFinish(pkts[0], max);
      }
    }

    method ReceiveAndFinish(p: Packet, max: nat) returns (o: Outcome)
      requires Valid() && Ready(Model()) && p.Valid() && SameLength(Model(), p)
      modifies this, frags, initBuf
      ensures Valid() && fresh(frags - old(frags)) && (initBuf == old(initBuf) || fresh(initBuf))
      ensures o == Receive(old(Model()), p, max, Cfg()).1
      ensures o.Ok? ==> InBuffer(Receive(old(Model()), p, max, Cfg()).0)
      ensures Model() == if o.Ok? then ReceiveSpec.Finish(Receive(old(Model()), p, max, Cfg()).0)
                         else Receive(old(Model()), p, max, Cfg()).0
    {
      OkIsInBuffer(Model(), p, max, Cfg());
      o := ReceiveFragment(p, max);
      if o.Ok? { Finish(); }
    }

    /** dtls1_get_message, on a network that delivers `pkts` and then nothing; `rest` is what it leaves unread. */
    method GetMessage(mt: int, pkts: seq<Packet>, max: nat) returns (o: Outcome, rest: seq<Packet>)
      requires Valid()
      requires reuseMessage || Readable(Model().(rHdr := NO_HEADER), pkts, max, Cfg())
      modifies this, frags, initBuf
      ensures Valid() && fresh(frags - old(frags)) && (initBuf == old(initBuf) || fresh(initBuf))
      ensures Result(Model(), o, rest) == ReceiveSpec.GetMessage(old(Model()), mt, pkts, max, Cfg())
    {
      if reuseMessage {
        reuseMessage := false;
        if mt >= 0 && messageType as int != mt { return Failed, pkts; }
        initNum := messageSize;
        return Ok, pkts;
      }
      rMsgHdr := NO_HEADER;
      ghost var st := Model();
      rest := pkts;
      o := Retry;
      while o.Retry?
        invariant Valid() && fresh(frags - old(frags)) && (initBuf == old(initBuf) || fresh(initBuf))
        invariant o.Retry? ==> Readable(Model(), rest, max, Cfg())
                               && ReadMessage(Model(), rest, max, Cfg()) == ReadMessage(st, pkts, max, Cfg())
        invariant !o.Retry? ==> Result(Model(), o, rest) == ReadMessage(st, pkts, max, Cfg())
        decreases |rest|, o.Retry?
      {
        o, rest := Pass(rest, max);
      }
    }
  }
}
