/**
 * What a handshake driver does to the sending side between its own steps: it prepares messages, has them
 * written, changes the epoch, stops the retransmission timer (which empties sent_messages) and restarts the
 * message numbers. Each operation is the one HandshakeWriter is proved to perform.
 */
module Flights {
  import opened Bytes
  import opened FragmentPlan
  import opened HandshakeHeader
  import opened HandshakeWriter
  import opened PQueue
  import opened SendOrder
  import opened WriteNumbers

  type Kept = q: seq<Item<Saved>> | Sorted(q) witness []

  /**
   * sent_messages, what has been added to it since it was last emptied, next_handshake_write_seq, the cipher
   * state and the counters. `room` says that no counter and no epoch has overflowed so far, `short` that no
   * message number has reached 0x8000.
   */
  datatype Sender = Sender(queue: Kept, flight: seq<Item<Saved>>, next: nat, state: WriteState,
                           c: Counters, room: bool, short: bool)

  /** dtls1_clear and ssl3_clear */
  function Fresh(state: WriteState): Sender { Sender([], [], 0, state, Initial, true, true) }

  /** The counters have room for the event. */
  predicate Fits(c: Counters, e: Event) {
    match e
    case NewRecords(n) => c.next + n <= SEQ_LIMIT
    case NewEpoch => c.wEpoch + 1 < EPOCH_LIMIT
    case Retransmission(epoch, n) => (if epoch == c.wEpoch then c.next else c.last) + n <= SEQ_LIMIT
  }

  function Apply(s: Sender, e: Event): Sender {
    s.(c := Step(s.c, e), room := s.room && Fits(s.c, e))
  }

  /** The entry a message becomes. */
  function EntryOf(s: Sender, x: Outgoing): Item<Saved>
    requires x.Valid()
  {
    Item(QueuePriority(s.next, x.kind.Ccs?), x.Save(s.next, s.state, s.c.wEpoch))
  }

  /** A message gets its number and is kept (HandshakeWriter.Prepare). */
  function Prepared(s: Sender, x: Outgoing): Sender
    requires x.Valid()
  {
    s.(queue := Enqueue(s.queue, s.next, x, s.state, s.c.wEpoch),
       flight := if x.kind.Unkept? then s.flight else s.flight + [EntryOf(s, x)],
       next := if x.kind.Ccs? then s.next else Following(s.next, x.kind),
       short := s.short && s.next + 1 < 0x8000)
  }

  /** Numbers stay within the 16 bits of the header field: after the last one comes 0. */
  lemma PreparedFits(s: Sender, x: Outgoing)
    requires s.next < 0x1_0000 && x.Valid() && |x.payload| < 0x100_0000
    ensures EntryOf(s, x).data.header.Fits() && Prepared(s, x).next < 0x1_0000
    ensures !x.kind.Ccs? ==> Prepared(s, x).next == if s.next == 0xffff then 0 else s.next + 1
  {
  }

  /** dtls1_stop_timer */
  function StopTimer(s: Sender): Sender { s.(queue := [], flight := []) }

  /** change_cipher_state and dtls1_reset_seq_numbers */
  function NewKeys(s: Sender, state: WriteState): Sender { Apply(s, NewEpoch).(state := state) }

  /** What a driver does in SSL_ST_OK */
  function Renumber(s: Sender): Sender { s.(next := 0) }

  /** dtls1_retransmit_message for the entry at position `i`, in `n` records */
  function Resend(s: Sender, i: nat, n: nat): Sender {
    if i < |s.queue| then Apply(s, Retransmission(s.queue[i].data.epoch, n)) else s
  }

  /** What one iteration of a driver puts into a message, and how many records it gets out. */
  datatype Write = Write(built: bool, typ: byte, body: seq<byte>, n: nat, keys: WriteState)

  function Outcoming(kind: Sending, w: Write): (x: Outgoing)
    ensures x.Valid() && x.kind == kind
  {
    if kind.Ccs? then Outgoing(Ccs, MT_CCS, [MT_CCS])
    else Outgoing(kind, w.typ, seq(HM_HEADER_LENGTH, _ => 0) + w.body)
  }

  /**
   * An iteration that sends: the message is prepared once, in the driver's state ending in _A, and written
   * until that succeeds. Returns whether it is still to be written.
   */
  function Send(s: Sender, prepared: bool, kind: Sending, ret: int, w: Write): (Sender, bool) {
    if !prepared && !w.built && ret <= 0 then (s, false)
    else
      var s1 := if prepared then s else Prepared(s, Outcoming(kind, w));
      (Apply(s1, NewRecords(w.n)), ret <= 0)
  }

  // ---- Numbers ----

  /** Every kept message is of the current epoch. */
  predicate Current(s: Sender) {
    forall i :: 0 <= i < |s.queue| ==> s.queue[i].data.epoch == s.c.wEpoch
  }

  predicate AllOfLastTwo(q: seq<Item<Saved>>, epoch: nat) {
    forall i :: 0 <= i < |q| ==> q[i].data.epoch <= epoch <= q[i].data.epoch + 1
  }

  /** Every kept message is of the current epoch or the one before. */
  predicate Recent(s: Sender) { AllOfLastTwo(s.queue, s.c.wEpoch) }

  /** The counters' invariant, with kept messages of the last two epochs, or of the current one alone. */
  ghost predicate Sound(s: Sender, settled: bool) {
    s.room ==> Inv(s.c) && Recent(s) && (settled ==> Current(s))
  }

  lemma SoundUnless(s: Sender, settled: bool, less: bool)
    requires Sound(s, settled) && (less ==> settled)
    ensures Sound(s, less)
  {
  }

  lemma FreshIsSound(state: WriteState)
    ensures Sound(Fresh(state), true)
  {
    InitialInv();
  }

  lemma CountRecords(s: Sender, settled: bool, n: nat)
    requires Sound(s, settled)
    ensures Sound(Apply(s, NewRecords(n)), settled)
  {
    if Apply(s, NewRecords(n)).room { StepKeepsInv(s.c, NewRecords(n)); }
  }

  lemma ResendKeeps(s: Sender, settled: bool, i: nat, n: nat)
    requires Sound(s, settled)
    ensures Sound(Resend(s, i, n), settled)
  {
    if i < |s.queue| && Resend(s, i, n).room {
      StepKeepsInv(s.c, Retransmission(s.queue[i].data.epoch, n));
    }
  }

  /** After a change of epoch the messages kept are of the epoch before. */
  lemma NewKeysKeeps(s: Sender, state: WriteState)
    requires Sound(s, true)
    ensures Sound(NewKeys(s, state), false)
  {
    if NewKeys(s, state).room { StepKeepsInv(s.c, NewEpoch); }
  }

  lemma InsertedEpochs(q: Kept, e: Item<Saved>, i: nat)
    requires i < |Insert(q, e)|
    ensures Insert(q, e)[i] == e || exists k :: 0 <= k < |q| && q[k] == Insert(q, e)[i]
  {
    var n := Slot(q, e.key);
    if Insert(q, e) == q {
      assert q[i] == Insert(q, e)[i];
    } else if i < n {
      assert q[i] == Insert(q, e)[i];
    } else if i > n {
      assert q[i - 1] == Insert(q, e)[i];
    }
  }

  lemma PreparedKeeps(s: Sender, settled: bool, x: Outgoing)
    requires x.Valid() && Sound(s, settled)
    ensures Sound(Prepared(s, x), settled)
  {
    var q := Prepared(s, x).queue;
    forall i | 0 <= i < |q|
      ensures q[i].data.epoch == s.c.wEpoch || exists k :: 0 <= k < |s.queue| && s.queue[k] == q[i]
    {
      if x.kind.Unkept? { assert s.queue[i] == q[i]; } else { InsertedEpochs(s.queue, EntryOf(s, x), i); }
    }
  }

  lemma SendKeeps(s: Sender, settled: bool, prepared: bool, kind: Sending, ret: int, w: Write)
    requires Sound(s, settled)
    ensures Sound(Send(s, prepared, kind, ret, w).0, settled)
  {
    if prepared {
      CountRecords(s, settled, w.n);
    } else if w.built || ret > 0 {
      PreparedKeeps(s, settled, Outcoming(kind, w));
      CountRecords(Prepared(s, Outcoming(kind, w)), settled, w.n);
    }
  }

  predicate AllFit(c: Counters, events: seq<Event>)
    decreases |events|
  {
    events == [] || (Fits(c, events[0]) && AllFit(Step(c, events[0]), events[1..]))
  }

  /** Only retransmissions, of epoch `epoch` or the one before. */
  predicate OfLastTwo(epoch: nat, events: seq<Event>) {
    forall i :: 0 <= i < |events| ==> events[i].Retransmission? && events[i].epoch <= epoch <= events[i].epoch + 1
  }

  lemma {:induction false} LastTwoPermittedIff(c: Counters, events: seq<Event>)
    requires OfLastTwo(c.wEpoch, events)
    ensures AllPermitted(c, events) <==> AllFit(c, events)
    decreases |events|
  {
    if events != [] {
      assert OfLastTwo(c.wEpoch, events[1..]);
      LastTwoPermittedIff(Step(c, events[0]), events[1..]);
    }
  }

  /** One more retransmission, of a message of `epoch`, in front */
  predicate Extends(events: seq<Event>, rest: seq<Event>, epoch: nat) {
    events != [] && events[1..] == rest && events[0].Retransmission? && events[0].epoch == epoch
  }

  lemma FlightExtends(q: seq<Item<Saved>>, links: nat -> Link, k: nat)
    requires CanResend(q, links) && k < |q|
    ensures Extends(FlightEvents(q, links, k), FlightEvents(q, links, k + 1), q[k].data.epoch)
  {
    var e := Retransmission(q[k].data.epoch, |Payloads(q[k].data, links(k))|);
    var rest := FlightEvents(q, links, k + 1);
    assert FlightEvents(q, links, k) == [e] + rest;
  }

  /** `tails` are the events of a flight from each of its messages on. */
  lemma {:induction false} TailsOfLastTwo(q: seq<Item<Saved>>, tails: seq<seq<Event>>, k: nat, epoch: nat)
    requires AllOfLastTwo(q, epoch) && |tails| == |q| + 1 && tails[|q|] == [] && k <= |q|
    requires forall i :: 0 <= i < |q| ==> Extends(tails[i], tails[i + 1], q[i].data.epoch)
    ensures OfLastTwo(epoch, tails[k])
    decreases |q| - k
  {
    if k < |q| {
      TailsOfLastTwo(q, tails, k + 1, epoch);
      assert Extends(tails[k], tails[k + 1], q[k].data.epoch);
      forall i | 0 <= i < |tails[k]|
        ensures tails[k][i].Retransmission? && tails[k][i].epoch <= epoch <= tails[k][i].epoch + 1
      {
        if i > 0 { assert tails[k][i] == tails[k + 1][i - 1]; }
      }
    }
  }

  lemma FlightOfLastTwo(q: seq<Item<Saved>>, links: nat -> Link, epoch: nat)
    requires AllOfLastTwo(q, epoch) && CanResend(q, links)
    ensures OfLastTwo(epoch, FlightEvents(q, links, 0))
  {
    var tails := seq(|q| + 1, k requires 0 <= k <= |q| => FlightEvents(q, links, k));
    forall i | 0 <= i < |q| ensures Extends(tails[i], tails[i + 1], q[i].data.epoch) { FlightExtends(q, links, i); }
    TailsOfLastTwo(q, tails, 0, epoch);
  }

  /** Replaying the queue of such a sender is permitted as soon as the counters have room for it. */
  lemma FlightPermittedIff(s: Sender, links: nat -> Link)
    requires Recent(s) && CanResend(s.queue, links)
    ensures AllPermitted(s.c, FlightEvents(s.queue, links, 0)) <==> AllFit(s.c, FlightEvents(s.queue, links, 0))
  {
    FlightOfLastTwo(s.queue, links, s.c.wEpoch);
    LastTwoPermittedIff(s.c, FlightEvents(s.queue, links, 0));
  }

  /** So a whole flight sent again repeats no number. */
  lemma FlightNeverRepeats(s: Sender, settled: bool, links: nat -> Link)
    requires Sound(s, settled) && s.room && CanResend(s.queue, links)
    requires AllFit(s.c, FlightEvents(s.queue, links, 0))
    ensures NoRepeats(Run(s.c, FlightEvents(s.queue, links, 0)).log)
  {
    FlightPermittedIff(s, links);
    WriteNumbers.NumbersNeverRepeat(s.c, FlightEvents(s.queue, links, 0));
  }

  // ---- Order ----

  /** sent_messages holds what was added since it was emptied, all of it, in the order it was first sent. */
  predicate InOrder(s: Sender) { s.queue == s.flight }

  predicate Below(s: Sender, bound: int) {
    forall i :: 0 <= i < |s.queue| ==> s.queue[i].key < bound
  }

  lemma InsertInOrderIff(q: Kept, e: Item<Saved>)
    ensures Insert(q, e) == q + [e] <==> forall i :: 0 <= i < |q| ==> q[i].key < e.key
  {
    if forall i :: 0 <= i < |q| ==> q[i].key < e.key {
      InsertAppends(q, e);
    } else if Insert(q, e) == q + [e] {
      forall i | 0 <= i < |q| ensures q[i].key < e.key {
        assert (q + [e])[i] == q[i] && (q + [e])[|q|] == e;
      }
    }
  }

  /** The next message joins the others in order exactly when its key is above theirs. */
  lemma PreparedInOrderIff(s: Sender, x: Outgoing)
    requires x.Valid() && InOrder(s)
    ensures InOrder(Prepared(s, x)) <==> x.kind.Unkept? || Below(s, QueuePriority(s.next, x.kind.Ccs?))
  {
    InsertInOrderIff(s.queue, EntryOf(s, x));
  }

  /**
   * How much is known of the order: nothing, that sent_messages is in order, that a message may come next, or
   * that a ChangeCipherSpec may (whose key is just below that of the message that shares its number).
   */
  predicate Ready(s: Sender, level: nat) {
    s.short ==>
      && s.next < 0x8000
      && (level >= 1 ==> InOrder(s))
      && (level >= 2 ==> s.next > 0 && Below(s, 2 * s.next))
      && (level >= 3 ==> Below(s, 2 * s.next - 1))
  }

  predicate Numbered(s: Sender) { s.short ==> s.next > 0 }

  lemma ShortKey(next: nat, isCcs: bool)
    requires next < 0x8000 && (isCcs ==> next > 0)
    ensures QueuePriority(next, isCcs) == if isCcs then 2 * next - 1 else 2 * next
  {
  }

  lemma ReadyUnless(s: Sender, level: nat, less: nat)
    requires Ready(s, level) && less <= level
    ensures Ready(s, less)
  {
  }

  lemma PreparedReady(s: Sender, x: Outgoing)
    requires x.Valid() && Ready(s, if x.kind.Ccs? then 3 else 2)
    ensures Ready(Prepared(s, x), if x.kind.Ccs? then 2 else 3)
  {
    if s.short && s.next + 1 < 0x8000 {
      PreparedInOrderIff(s, x);
      ShortKey(s.next, x.kind.Ccs?);
    }
  }

  /** Sending a ChangeCipherSpec, or any other message that is kept. */
  lemma SendReady(s: Sender, prepared: bool, kind: Sending, ret: int, w: Write)
    requires !kind.Unkept? && (prepared || w.built || ret > 0)
    requires Ready(s, if kind.Ccs? == prepared then 2 else 3)
    ensures Ready(Send(s, prepared, kind, ret, w).0, if kind.Ccs? then 2 else 3)
  {
    if !prepared { PreparedReady(s, Outcoming(kind, w)); }
  }

  /** The first message of a handshake is numbered, but may be out of order. */
  lemma SendNumbers(s: Sender, prepared: bool, kind: Sending, ret: int, w: Write)
    requires !kind.Ccs? && (prepared || w.built || ret > 0)
    requires Ready(s, 0) && (prepared ==> Numbered(s))
    ensures Ready(Send(s, prepared, kind, ret, w).0, 0) && Numbered(Send(s, prepared, kind, ret, w).0)
  {
  }

  lemma EmptiedReady(s: Sender)
    requires Ready(s, 0) && Numbered(s)
    ensures Ready(StopTimer(s), 3)
  {
  }
}
