/**
 * How records come in (dtls1_get_record and the functions under it, in d1_pkt.c), on values: epochs,
 * replay windows, and the queue of records that arrived one epoch early. Decryption and the MAC are a
 * predicate on the read epoch and the record.
 */
module RecordSpec {
  import opened Bytes
  import opened PQueue
  import opened SatSub
  import opened ReplayWindow
  import opened Wrappers

  const EPOCH_MODULUS: nat := 0x1_0000
  const QUEUE_LIMIT: nat := 100

  datatype RecordType = HandshakeType | AlertType | CcsType | DataType

  /** A record as its header describes it; `number` is the 48-bit sequence number. */
  datatype Rec = Rec(typ: RecordType, epoch: nat, number: seq<byte>, length: nat)
  {
    predicate Valid() { |number| == 6 }

    function Num(): nat { Value(number) }
  }

  type Authentic = (nat, Rec) -> bool

  /** A record that was processed: under which epoch, and whether it came straight from the wire. */
  datatype Accepted = Accepted(epoch: nat, num: nat, fromWire: bool)

  datatype Reader = Reader(
    rEpoch: nat,
    window: Window,                 // bitmap
    nextWindow: Window,             // next_bitmap
    unprocessed: seq<Item<Rec>>,    // unprocessed_rcds
    unprocessedEpoch: nat,
    processed: seq<Item<Rec>>,      // processed_rcds
    processedEpoch: nat,
    log: seq<Accepted>)

  /** dtls1_process_record; a record that fails leaves everything as it was. */
  function Process(s: Reader, r: Rec, fromWire: bool, auth: Authentic, width: nat): (Reader, bool) {
    if auth(s.rEpoch, r) then
      (s.(window := Update(s.window, r.Num(), width), log := s.log + [Accepted(s.rEpoch, r.Num(), fromWire)]), true)
    else (s, false)
  }

  /** dtls1_buffer_record */
  function Buffer(q: seq<Item<Rec>>, r: Rec): (q': seq<Item<Rec>>)
    requires Sorted(q)
    ensures Sorted(q')
  {
    if |q| >= QUEUE_LIMIT then q else Insert(q, Item(r.Num(), r))
  }

  ghost predicate QueuesSorted(s: Reader) {
    Sorted(s.unprocessed) && Sorted(s.processed)
  }

  /** The loop of dtls1_process_buffered_records: stops at the first record that fails. */
  function Drain(s: Reader, auth: Authentic, width: nat): (r: (Reader, bool))
    requires QueuesSorted(s)
    ensures QueuesSorted(r.0)
    decreases |s.unprocessed|
  {
    if s.unprocessed == [] then (s, true)
    else
      var (s', ok) := Process(s.(unprocessed := s.unprocessed[1..]), s.unprocessed[0].data, false, auth, width);
      if ok then Drain(s'.(processed := Buffer(s'.processed, s.unprocessed[0].data)), auth, width)
      else (s', false)
  }

  /** dtls1_process_buffered_records */
  function ProcessBuffered(s: Reader, auth: Authentic, width: nat): (r: Reader)
    requires QueuesSorted(s)
    ensures QueuesSorted(r)
  {
    if s.unprocessed != [] && s.unprocessedEpoch != s.rEpoch then s
    else
      var (s', ok) := Drain(s, auth, width);
      if ok then s'.(processedEpoch := s'.rEpoch, unprocessedEpoch := (s'.rEpoch + 1) % EPOCH_MODULUS) else s'
  }

  /** dtls1_get_bitmap */
  datatype Which = Current | Next | Neither

  function GetBitmap(s: Reader, r: Rec): Which {
    if r.epoch == s.rEpoch then Current
    else if r.epoch == s.rEpoch + 1 && (r.typ.HandshakeType? || r.typ.AlertType?) then Next
    else Neither
  }

  /** What dtls1_get_record does with one record from the wire. */
  function FromWire(s: Reader, r: Rec, inHandshake: bool, auth: Authentic, width: nat): (Reader, bool)
    requires QueuesSorted(s)
  {
    match GetBitmap(s, r)
    case Neither => (s, false)
    case Current =>
      if !Check(s.window, r.Num(), width) || r.length == 0 then (s, false)
      else Process(s, r, true, auth, width)
    case Next =>
      if !Check(s.nextWindow, r.Num(), width) || r.length == 0 || !inHandshake then (s, false)
      else (s.(unprocessed := Buffer(s.unprocessed, r)), false)
  }

  /** Reading from the wire until a record is processed or none is left. */
  function ReadWire(s: Reader, wire: seq<Rec>, inHandshake: bool, auth: Authentic, width: nat)
    : (Reader, Option<Rec>, seq<Rec>)
    requires QueuesSorted(s)
    decreases |wire|
  {
    if wire == [] then (s, None, [])
    else
      var (s', ok) := FromWire(s, wire[0], inHandshake, auth, width);
      if ok then (s', Some(wire[0]), wire[1..]) else ReadWire(s', wire[1..], inHandshake, auth, width)
  }

  /** dtls1_get_record */
  function GetRecord(s: Reader, wire: seq<Rec>, inHandshake: bool, auth: Authentic, width: nat)
    : (Reader, Option<Rec>, seq<Rec>)
    requires QueuesSorted(s)
  {
    var b := ProcessBuffered(s, auth, width);
    if b.processed != [] then (b.(processed := b.processed[1..]), Some(b.processed[0].data), wire)
    else ReadWire(b, wire, inHandshake, auth, width)
  }

  /** dtls1_reset_seq_numbers for SSL3_CC_READ */
  function ChangeReadEpoch(s: Reader): Reader {
    s.(rEpoch := (s.rEpoch + 1) % EPOCH_MODULUS, window := s.nextWindow, nextWindow := Fresh)
  }

  // ---- No record from the wire is processed twice ----

  /** Numbers processed in `epoch`, from the wire or from the queue. */
  function Numbers(log: seq<Accepted>, epoch: nat): set<nat> {
    if log == [] then {}
    else
      var last := log[|log| - 1];
      Numbers(log[..|log| - 1], epoch) + if last.epoch == epoch then {last.num} else {}
  }

  /** Whatever came straight from the wire had not been processed before. */
  ghost predicate WireOnce(log: seq<Accepted>) {
    forall i, j :: 0 <= i < j < |log| && log[j].fromWire ==> (log[i].epoch, log[i].num) != (log[j].epoch, log[j].num)
  }

  ghost predicate Safe(s: Reader, width: nat) {
    && IsWidth(width) && s.rEpoch < EPOCH_MODULUS
    && QueuesSorted(s)
    && Refines(s.window, Numbers(s.log, s.rEpoch), width)
    && s.nextWindow == Fresh
    && (forall i :: 0 <= i < |s.log| ==> s.log[i].epoch <= s.rEpoch)
    && WireOnce(s.log)
  }

  lemma {:induction false} InNumbers(log: seq<Accepted>, epoch: nat, n: nat)
    ensures n in Numbers(log, epoch) <==> exists i :: 0 <= i < |log| && log[i].epoch == epoch && log[i].num == n
  {
    if log != [] {
      var init := log[..|log| - 1];
      InNumbers(init, epoch, n);
      if i :| 0 <= i < |log| && log[i].epoch == epoch && log[i].num == n {
        if i < |init| { assert init[i] == log[i]; }
      }
    }
  }

  lemma ProcessKeepsSafe(s: Reader, r: Rec, fromWire: bool, auth: Authentic, width: nat)
    requires Safe(s, width)
    requires fromWire ==> Check(s.window, r.Num(), width)
    ensures Safe(Process(s, r, fromWire, auth, width).0, width)
  {
    if auth(s.rEpoch, r) {
      var n := r.Num();
      UpdateRefines(s.window, Numbers(s.log, s.rEpoch), n, width);
      CheckIff(s.window, Numbers(s.log, s.rEpoch), n, width);
      AcceptKeepsSafe(s, Update(s.window, n, width), Accepted(s.rEpoch, n, fromWire), width);
    }
  }

  lemma AcceptKeepsSafe(s: Reader, w: Window, a: Accepted, width: nat)
    requires Safe(s, width) && a.epoch == s.rEpoch
    requires Refines(w, Numbers(s.log, s.rEpoch) + {a.num}, width)
    requires a.fromWire ==> a.num !in Numbers(s.log, s.rEpoch)
    ensures Safe(s.(window := w, log := s.log + [a]), width)
  {
    OneMoreAccepted(s.log, a);
  }

  /** A record from the wire that was not processed before may be added to the log. */
  lemma OneMoreAccepted(log: seq<Accepted>, a: Accepted)
    requires WireOnce(log) && (a.fromWire ==> a.num !in Numbers(log, a.epoch))
    ensures WireOnce(log + [a])
    ensures Numbers(log + [a], a.epoch) == Numbers(log, a.epoch) + {a.num}
  {
    assert (log + [a])[..|log|] == log;
    InNumbers(log, a.epoch, a.num);
  }

  lemma {:induction false} DrainKeepsSafe(s: Reader, auth: Authentic, width: nat)
    requires Safe(s, width)
    ensures Safe(Drain(s, auth, width).0, width)
    decreases |s.unprocessed|
  {
    if s.unprocessed != [] {
      var t := s.(unprocessed := s.unprocessed[1..]);
      ProcessKeepsSafe(t, s.unprocessed[0].data, false, auth, width);
      var (s', ok) := Process(t, s.unprocessed[0].data, false, auth, width);
      if ok { DrainKeepsSafe(s'.(processed := Buffer(s'.processed, s.unprocessed[0].data)), auth, width); }
    }
  }

  lemma {:induction false} ReadWireKeepsSafe(s: Reader, wire: seq<Rec>, inHandshake: bool, auth: Authentic, width: nat)
    requires Safe(s, width)
    ensures Safe(ReadWire(s, wire, inHandshake, auth, width).0, width)
    decreases |wire|
  {
    if wire != [] {
      if GetBitmap(s, wire[0]).Current? && Check(s.window, wire[0].Num(), width) {
        ProcessKeepsSafe(s, wire[0], true, auth, width);
      }
      var (s', ok) := FromWire(s, wire[0], inHandshake, auth, width);
      if !ok { ReadWireKeepsSafe(s', wire[1..], inHandshake, auth, width); }
    }
  }

  /** One call of dtls1_get_record, whatever arrives on the wire. */
  lemma GetRecordKeepsSafe(s: Reader, wire: seq<Rec>, inHandshake: bool, auth: Authentic, width: nat)
    requires Safe(s, width)
    ensures Safe(GetRecord(s, wire, inHandshake, auth, width).0, width)
  {
    DrainKeepsSafe(s, auth, width);
    var b := ProcessBuffered(s, auth, width);
    ReadWireKeepsSafe(b, wire, inHandshake, auth, width);
  }

  lemma ChangeEpochKeepsSafe(s: Reader, width: nat)
    requires Safe(s, width) && s.rEpoch + 1 < EPOCH_MODULUS
    ensures Safe(ChangeReadEpoch(s), width)
  {
    FreshRefines(width);
    var none := Numbers(s.log, s.rEpoch + 1);
    if none != {} {
      var n :| n in none;
      InNumbers(s.log, s.rEpoch + 1, n);
    }
  }

  /** Anything a connection does to its reading side. */
  datatype Action = Get(wire: seq<Rec>, inHandshake: bool) | NewEpoch

  function Run(s: Reader, actions: seq<Action>, auth: Authentic, width: nat): Reader
    requires QueuesSorted(s)
    decreases |actions|
  {
    if actions == [] then s
    else
      match actions[0]
      case Get(wire, inHandshake) =>
        GetRecordSorted(s, wire, inHandshake, auth, width);
        Run(GetRecord(s, wire, inHandshake, auth, width).0, actions[1..], auth, width)
      case NewEpoch => Run(ChangeReadEpoch(s), actions[1..], auth, width)
  }

  lemma {:induction false} ReadWireSorted(s: Reader, wire: seq<Rec>, inHandshake: bool, auth: Authentic, width: nat)
    requires QueuesSorted(s)
    ensures QueuesSorted(ReadWire(s, wire, inHandshake, auth, width).0)
    decreases |wire|
  {
    if wire != [] && !FromWire(s, wire[0], inHandshake, auth, width).1 {
      ReadWireSorted(FromWire(s, wire[0], inHandshake, auth, width).0, wire[1..], inHandshake, auth, width);
    }
  }

  lemma GetRecordSorted(s: Reader, wire: seq<Rec>, inHandshake: bool, auth: Authentic, width: nat)
    requires QueuesSorted(s)
    ensures QueuesSorted(GetRecord(s, wire, inHandshake, auth, width).0)
  {
    ReadWireSorted(ProcessBuffered(s, auth, width), wire, inHandshake, auth, width);
  }

  function Epochs(actions: seq<Action>): nat {
    if actions == [] then 0 else (if actions[0].NewEpoch? then 1 else 0) + Epochs(actions[1..])
  }

  const Start: Reader := Reader(0, Fresh, Fresh, [], 0, [], 0, [])

  /**
   * Over every run, and every choice an adversary makes of what the wire carries, the window stands for
   * the set of numbers processed in the epoch, and no record from the wire is processed a second time.
   */
  lemma {:induction false} NoWireRecordTwice(s: Reader, actions: seq<Action>, auth: Authentic, width: nat)
    requires Safe(s, width) && s.rEpoch + Epochs(actions) < EPOCH_MODULUS
    ensures Safe(Run(s, actions, auth, width), width)
    ensures WireOnce(Run(s, actions, auth, width).log)
    decreases |actions|
  {
    if actions != [] {
      match actions[0]
      case Get(wire, inHandshake) =>
        GetRecordKeepsSafe(s, wire, inHandshake, auth, width);
        GetRecordEpoch(s, wire, inHandshake, auth, width);
        NoWireRecordTwice(GetRecord(s, wire, inHandshake, auth, width).0, actions[1..], auth, width);
      case NewEpoch =>
        ChangeEpochKeepsSafe(s, width);
        NoWireRecordTwice(ChangeReadEpoch(s), actions[1..], auth, width);
    }
  }

  lemma StartIsSafe(width: nat)
    requires IsWidth(width)
    ensures Safe(Start, width)
  {
    FreshRefines(width);
  }

  lemma {:induction false} DrainEpoch(s: Reader, auth: Authentic, width: nat)
    requires QueuesSorted(s)
    ensures Drain(s, auth, width).0.rEpoch == s.rEpoch
    decreases |s.unprocessed|
  {
    if s.unprocessed != [] {
      var (s', ok) := Process(s.(unprocessed := s.unprocessed[1..]), s.unprocessed[0].data, false, auth, width);
      if ok { DrainEpoch(s'.(processed := Buffer(s'.processed, s.unprocessed[0].data)), auth, width); }
    }
  }

  lemma {:induction false} ReadWireEpoch(s: Reader, wire: seq<Rec>, inHandshake: bool, auth: Authentic, width: nat)
    requires QueuesSorted(s)
    ensures ReadWire(s, wire, inHandshake, auth, width).0.rEpoch == s.rEpoch
    decreases |wire|
  {
    if wire != [] && !FromWire(s, wire[0], inHandshake, auth, width).1 {
      ReadWireEpoch(FromWire(s, wire[0], inHandshake, auth, width).0, wire[1..], inHandshake, auth, width);
    }
  }

  lemma GetRecordEpoch(s: Reader, wire: seq<Rec>, inHandshake: bool, auth: Authentic, width: nat)
    requires QueuesSorted(s)
    ensures GetRecord(s, wire, inHandshake, auth, width).0.rEpoch == s.rEpoch
  {
    DrainEpoch(s, auth, width);
    ReadWireEpoch(ProcessBuffered(s, auth, width), wire, inHandshake, auth, width);
  }

  /**
   * A record from the wire is processed exactly when it is of the current epoch, not empty, authentic,
   * not processed before, and not too old; when it is not processed, the window does not move.
   */
  lemma WireRecordProcessedIff(s: Reader, r: Rec, inHandshake: bool, auth: Authentic, width: nat)
    requires Safe(s, width)
    ensures FromWire(s, r, inHandshake, auth, width).1
            <==> r.epoch == s.rEpoch && r.length > 0 && auth(s.rEpoch, r)
                 && r.Num() !in Numbers(s.log, s.rEpoch) && r.Num() + width > s.window.max
    ensures var (s', ok) := FromWire(s, r, inHandshake, auth, width);
            !ok ==> s' == s.(unprocessed := s'.unprocessed)
  {
    CheckIff(s.window, Numbers(s.log, s.rEpoch), r.Num(), width);
  }
}
