/** The reading side of the record layer (d1_pkt.c) as it works on the connection in place. */
module RecordReader {
  import opened Bytes
  import opened PQueue
  import opened SatSub
  import opened ReplayWindow
  import opened RecordSpec
  import opened Wrappers

  /** DTLS1_BITMAP */
  class Bitmap {
    var bits: nat
    var maxSeqNum: seq<byte>

    ghost predicate Valid()
      reads this
    {
      Is48(maxSeqNum)
    }

    ghost function View(): Window
      reads this
    {
      Window(bits, Value(maxSeqNum))
    }

    constructor ()
      ensures Valid() && View() == Fresh
    {
      bits, maxSeqNum := 0, ZERO8;
      new;
      ZeroValue();
    }

    /** memset to zero */
    method Clear()
      modifies this
      ensures Valid() && View() == Fresh
    {
      bits, maxSeqNum := 0, ZERO8;
      ZeroValue();
    }

    /** memcpy from another bitmap */
    method CopyFrom(b: Bitmap)
      requires b.Valid()
      modifies this
      ensures Valid() && View() == old(b.View())
    {
      bits, maxSeqNum := b.bits, b.maxSeqNum;
    }
  }

  const ZERO8: seq<byte> := [0, 0, 0, 0, 0, 0, 0, 0]

  lemma ZeroValue()
    ensures Is48(ZERO8) && Value(ZERO8) == 0
  {
    ValueOfTail(ZERO8, 8);
  }

  class RecordReader {
    const width: nat
    const auth: Authentic
    var rEpoch: nat
    const bitmap: Bitmap
    const nextBitmap: Bitmap
    var readSequence: seq<byte>
    var rrecSeqNum: seq<byte>
    var unprocessed: seq<Item<Rec>>
    var unprocessedEpoch: nat
    var processed: seq<Item<Rec>>
    var processedEpoch: nat
    ghost var log: seq<Accepted>

    ghost predicate Valid()
      reads this, bitmap, nextBitmap
    {
      && IsWidth(width) && bitmap != nextBitmap
      && bitmap.Valid() && nextBitmap.Valid() && Is48(readSequence)
      && Sorted(unprocessed) && Sorted(processed)
    }

    ghost function Model(): Reader
      reads this, bitmap, nextBitmap
    {
      Reader(rEpoch, bitmap.View(), nextBitmap.View(), unprocessed, unprocessedEpoch, processed, processedEpoch, log)
    }

    constructor (width: nat, auth: Authentic)
      requires IsWidth(width)
      ensures Valid() && Model() == Start && this.width == width && this.auth == auth
    {
      this.width, this.auth := width, auth;
      rEpoch := 0;
      bitmap := new Bitmap();
      nextBitmap := new Bitmap();
      readSequence, rrecSeqNum := ZERO8, ZERO8;
      unprocessed, unprocessedEpoch, processed, processedEpoch := [], 0, [], 0;
      log := [];
    }

    /** The sequence number of a header goes into the low six octets of read_sequence. */
    method SetReadSequence(r: Rec)
      requires Valid() && r.Valid()
      modifies this`readSequence
      ensures Valid() && Value(readSequence) == r.Num()
    {
      readSequence := readSequence[..2] + r.number;
      ValueOfTail(readSequence, 2);
      assert readSequence[2..] == r.number;
    }

    /** dtls1_record_replay_check */
    method ReplayCheck(b: Bitmap) returns (ok: bool)
      requires Valid() && b.Valid()
      modifies this`rrecSeqNum
      ensures ok == Check(b.View(), Value(readSequence), width)
      ensures ok ==> rrecSeqNum == readSequence
    {
      PathsAgreeOnSequenceNumbers(readSequence, b.maxSeqNum);
      var cmp := SatSub64be(readSequence, b.maxSeqNum);
      if cmp > 0 {
        rrecSeqNum := readSequence;
        return true;
      }
      var shift := -cmp;
      if shift >= width { return false; }
      if Bit(b.bits, shift) { return false; }
      rrecSeqNum := readSequence;
      ok := true;
    }

    /** dtls1_record_bitmap_update */
    method BitmapUpdate()
      requires Valid()
      modifies bitmap
      ensures Valid() && bitmap.View() == Update(old(bitmap.View()), Value(readSequence), width)
    {
      PathsAgreeOnSequenceNumbers(readSequence, bitmap.maxSeqNum);
      var cmp := SatSub64be(readSequence, bitmap.maxSeqNum);
      if cmp > 0 {
        var shift := cmp;
        if shift < width {
          bitmap.bits := SetBit(Shl(bitmap.bits, shift, width), 0);
        } else {
          bitmap.bits := 1;
        }
        bitmap.maxSeqNum := readSequence;
      } else {
        var shift := -cmp;
        if shift < width { bitmap.bits := SetBit(bitmap.bits, shift); }
      }
    }

    /** dtls1_process_record: decryption and MAC, then the window. */
    method ProcessRecord(r: Rec, ghost fromWire: bool) returns (ok: bool)
      requires Valid() && Value(readSequence) == r.Num()
      modifies this`log, bitmap
      ensures Valid() && (Model(), ok) == Process(old(Model()), r, fromWire, auth, width)
    {
      ok := auth(rEpoch, r);
      if ok {
        BitmapUpdate();
        log := log + [Accepted(rEpoch, r.Num(), fromWire)];
      }
    }

    ghost predicate QueueValid()
      reads this
    {
      forall i :: 0 <= i < |unprocessed| ==> unprocessed[i].data.Valid()
    }

    /** One record off the queue: processed and moved on, or the whole drain is over. */
    method DrainOne() returns (ok: bool)
      requires Valid() && QueueValid() && unprocessed != []
      modifies this`log, this`unprocessed, this`processed, this`readSequence, bitmap
      ensures Valid() && QueueValid() && |unprocessed| == |old(unprocessed)| - 1
      ensures ok ==> Drain(Model(), auth, width) == Drain(old(Model()), auth, width)
      ensures !ok ==> (Model(), false) == Drain(old(Model()), auth, width)
    {
      var r := unprocessed[0].data;
      unprocessed := unprocessed[1..];
      SetReadSequence(r);
      ok := ProcessRecord(r, false);
      if ok { processed := Buffer(processed, r); }
    }

    method DrainUnprocessed() returns (ok: bool)
      requires Valid() && QueueValid()
      modifies this`log, this`unprocessed, this`processed, this`readSequence, bitmap
      ensures Valid() && QueueValid() && (Model(), ok) == Drain(old(Model()), auth, width)
    {
      ok := true;
      while unprocessed != [] && ok
        invariant Valid() && QueueValid()
        invariant ok ==> Drain(Model(), auth, width) == Drain(old(Model()), auth, width)
        invariant !ok ==> (Model(), false) == Drain(old(Model()), auth, width)
        decreases |unprocessed|
      {
        ok := DrainOne();
      }
    }

    /** A reader whose queues stand for the epochs after a change */
    static function Settled(s: Reader): Reader {
      s.(processedEpoch := s.rEpoch, unprocessedEpoch := (s.rEpoch + 1) % EPOCH_MODULUS)
    }

    static lemma BufferedAfterDrain(was: Reader, s: Reader, ok: bool, auth: Authentic, width: nat)
      requires QueuesSorted(was) && (was.unprocessed == [] || was.unprocessedEpoch == was.rEpoch)
      requires (s, ok) == Drain(was, auth, width)
      ensures ProcessBuffered(was, auth, width) == if ok then Settled(s) else s
    {
    }

    /** The loop of dtls1_process_buffered_records, and what it leaves to do */
    method DrainDue(ghost goal: Reader) returns (ok: bool)
      requires Valid() && QueueValid() && (unprocessed == [] || unprocessedEpoch == rEpoch)
      requires goal == ProcessBuffered(Model(), auth, width)
      modifies this`log, this`unprocessed, this`processed, this`readSequence, bitmap
      ensures Valid() && QueueValid() && goal == if ok then Settled(Model()) else Model()
    {
      ghost var was := Model();
      ok := DrainUnprocessed();
      BufferedAfterDrain(was, Model(), ok, auth, width);
    }

    /** dtls1_process_buffered_records */
    method ProcessBufferedRecords()
      requires Valid() && QueueValid()
      modifies this`log, this`unprocessed, this`unprocessedEpoch, this`processed, this`processedEpoch,
               this`readSequence, bitmap
      ensures Valid() && QueueValid() && Model() == ProcessBuffered(old(Model()), auth, width)
    {
      if unprocessed != [] && unprocessedEpoch != rEpoch {
        BufferedWaits(Model(), auth, width);
        return;
      }
      ProcessDueRecords(ProcessBuffered(Model(), auth, width));
    }

    static lemma BufferedWaits(s: Reader, auth: Authentic, width: nat)
      requires QueuesSorted(s) && s.unprocessed != [] && s.unprocessedEpoch != s.rEpoch
      ensures ProcessBuffered(s, auth, width) == s
    {
    }

    /** The records of the current epoch */
    method ProcessDueRecords(ghost goal: Reader)
      requires Valid() && QueueValid() && (unprocessed == [] || unprocessedEpoch == rEpoch)
      requires goal == ProcessBuffered(Model(), auth, width)
      modifies this`log, this`unprocessed, this`unprocessedEpoch, this`processed, this`processedEpoch,
               this`readSequence, bitmap
      ensures Valid() && QueueValid() && Model() == goal
    {
      var ok := DrainDue(goal);
      if ok { NextEpochQueues(); }
    }

    /** Both queues now stand for the epochs after the change. */
    method NextEpochQueues()
      requires Valid() && QueueValid()
      modifies this`unprocessedEpoch, this`processedEpoch
      ensures Valid() && QueueValid()
      ensures Model() == Settled(old(Model()))
    {
      processedEpoch := rEpoch;
      unprocessedEpoch := (rEpoch + 1) % EPOCH_MODULUS;
    }

    /** What dtls1_get_record does with one record from the wire. */
    method TakeFromWire(r: Rec, inHandshake: bool) returns (ok: bool)
      requires Valid() && r.Valid()
      modifies this`log, this`unprocessed, this`readSequence, this`rrecSeqNum, bitmap
      ensures Valid() && (Model(), ok) == FromWire(old(Model()), r, inHandshake, auth, width)
      ensures unprocessed == old(unprocessed) || unprocessed == Buffer(old(unprocessed), r)
    {
      SetReadSequence(r);
      var isNextEpoch := false;
      var b: Bitmap;
      // dtls1_get_bitmap
      if r.epoch == rEpoch {
        b := bitmap;
      } else if r.epoch == rEpoch + 1 && (r.typ.HandshakeType? || r.typ.AlertType?) {
        isNextEpoch, b := true, nextBitmap;
      } else {
        return false;
      }
      var isNew := ReplayCheck(b);
      if !isNew { return false; }
      if r.length == 0 { return false; }
      if isNextEpoch {
        if inHandshake { unprocessed := Buffer(unprocessed, r); }
        return false;
      }
      ok := ProcessRecord(r, true);
    }

    /** dtls1_get_record, on a wire that carries these records and then nothing. */
    method GetRecord(wire: seq<Rec>, inHandshake: bool) returns (r: Option<Rec>, rest: seq<Rec>)
      requires Valid() && QueueValid()
      requires forall i :: 0 <= i < |wire| ==> wire[i].Valid()
      modifies this`log, this`unprocessed, this`unprocessedEpoch, this`processed, this`processedEpoch,
               this`readSequence, this`rrecSeqNum, bitmap
      ensures Valid() && (Model(), r, rest) == RecordSpec.GetRecord(old(Model()), wire, inHandshake, auth, width)
    {
      ProcessBufferedRecords();
      if processed != [] {
        r, rest := Some(processed[0].data), wire;
        processed := processed[1..];
        return;
      }
      rest := wire;
      ghost var goal := ReadWire(Model(), wire, inHandshake, auth, width);
      while rest != []
        invariant Valid() && ReadWire(Model(), rest, inHandshake, auth, width) == goal
        invariant forall i :: 0 <= i < |rest| ==> rest[i].Valid()
        decreases |rest|
      {
        var first := rest[0];
        rest := rest[1..];
        var ok := TakeFromWire(first, inHandshake);
        if ok { return Some(first), rest; }
      }
      r := None;
    }

    /** dtls1_reset_seq_numbers for SSL3_CC_READ */
    method ResetReadSeqNumbers()
      requires Valid()
      modifies this`rEpoch, this`readSequence, bitmap, nextBitmap
      ensures Valid() && Model() == ChangeReadEpoch(old(Model()))
    {
      rEpoch := (rEpoch + 1) % EPOCH_MODULUS;
      bitmap.CopyFrom(nextBitmap);
      nextBitmap.Clear();
      readSequence := ZERO8;
    }
  }
}
